/** What the client, its server process and the forks of that process share, and the
    sections of code that change it, one method per section. */
module SessionLink {
  import opened Session

  class Link {
    const handler: Handler
    var fifo: seq<Message>
    var sem1: int
    var sem2: int
    var client: Client
    var server: Server
    var made: bool
    var room: int
    var ready: int
    var senders: nat
    var receivers: nat
    var asked: seq<string>
    var heard: seq<string>
    ghost var got: seq<Message>

    ghost function View(): State
      reads this
    {
      State(fifo, sem1, sem2, client, server, asked, heard, got, made, room, ready, senders, receivers)
    }

    constructor (handler: Handler)
      ensures View() == INIT && this.handler == handler
    {
      this.handler := handler;
      fifo, sem1, sem2, client, server := [], 0, 0, Composing, AwaitsRequest;
      made, room, ready, senders, receivers := false, 1, 0, 0, 0;
      asked, heard, got := [], [], [];
    }

    method Write(m: Message)
      modifies this`fifo
      ensures fifo == old(fifo) + [m]
    {
      fifo := fifo + [m];
    }

    method Read() returns (m: Message)
      requires |fifo| > 0
      modifies this`fifo
      ensures [m] + fifo == old(fifo)
    {
      m := fifo[0];
      fifo := fifo[1..];
    }

    /** The client writes the command typed. */
    method Ask(text: string) returns (ran: bool)
      modifies this`fifo, this`client, this`asked
      ensures ran <==> Enabled(old(View()), Session.Ask(text))
      ensures View() == if ran then Apply(handler, old(View()), Session.Ask(text)) else old(View())
    {
      ran := client.Composing?;
      if ran {
        Write(Request(text));
        asked := asked + [text];
        client := Written;
      }
    }

    method PostRequest() returns (ran: bool)
      modifies this`sem1, this`client
      ensures ran <==> Enabled(old(View()), Session.PostRequest)
      ensures View() == if ran then Apply(handler, old(View()), Session.PostRequest) else old(View())
    {
      ran := client.Written?;
      if ran {
        sem1 := sem1 + 1;
        client := AwaitsReply;
      }
    }

    /** The client gets past its semaphore. */
    method WakeClient() returns (ran: bool)
      modifies this`sem2, this`client
      ensures ran <==> Enabled(old(View()), Session.WakeClient)
      ensures View() == if ran then Apply(handler, old(View()), Session.WakeClient) else old(View())
    {
      ran := client.AwaitsReply? && sem2 > 0;
      if ran {
        sem2 := sem2 - 1;
        client := ReadsReply;
      }
    }

    /** The client reads, which blocks on an empty FIFO, and takes its course. */
    method ReadReply() returns (ran: bool)
      modifies this`fifo, this`client, this`got, this`made
      ensures ran <==> Enabled(old(View()), Session.ReadReply)
      ensures View() == if ran then Apply(handler, old(View()), Session.ReadReply) else old(View())
    {
      ran := client.ReadsReply? && |fifo| > 0;
      if ran {
        var m := Read();
        got := got + [m];
        match handler.course(asked) {
          case Plain =>
            client := Composing;
          case Uploads =>
            client, made := Sends, true;
          case StraySend =>
            client, made := Sends, true;
          case Exits(_, makes) =>
            client, made := Gone, made || makes;
          case _ =>
            client := Fetches;
        }
      }
    }

    /** The server gets past its semaphore. */
    method WakeServer() returns (ran: bool)
      modifies this`sem1, this`server
      ensures ran <==> Enabled(old(View()), Session.WakeServer)
      ensures View() == if ran then Apply(handler, old(View()), Session.WakeServer) else old(View())
    {
      ran := server.AwaitsRequest? && sem1 > 0;
      if ran {
        sem1 := sem1 - 1;
        server := ReadsRequest;
      }
    }

    /** The server reads; it blocks on an empty FIFO. */
    method ReadRequest() returns (ran: bool)
      modifies this`fifo, this`server, this`heard
      ensures ran <==> Enabled(old(View()), Session.ReadRequest)
      ensures View() == if ran then Apply(handler, old(View()), Session.ReadRequest) else old(View())
    {
      ran := server.ReadsRequest? && |fifo| > 0;
      if ran {
        var m := Read();
        heard := heard + [m.text];
        server := Handles(m);
      }
    }

    /** The server's branch for the request, which may write nothing, and its fork. */
    method Handle() returns (ran: bool)
      modifies this`fifo, this`server, this`made, this`senders, this`receivers
      ensures ran <==> Enabled(old(View()), Session.Handle)
      ensures View() == if ran then Apply(handler, old(View()), Session.Handle) else old(View())
    {
      ran := server.Handles?;
      if ran {
        if handler.answers(heard) {
          Write(Response(handler.reply(heard)));
          Fork();
        }
        server := Replied;
      }
    }

    method Fork()
      modifies this`made, this`senders, this`receivers
      ensures View() == Forked(handler.course(heard), old(View()))
    {
      match ForkFor(handler.course(heard)) {
        case NoFork =>
        case Receiver =>
          receivers := receivers + 1;
        case Sender =>
          senders, made := senders + 1, true;
        case LostSender =>
          made := true;
      }
    }

    method PostReply() returns (ran: bool)
      modifies this`sem2, this`server
      ensures ran <==> Enabled(old(View()), Session.PostReply)
      ensures View() == if ran then Apply(handler, old(View()), Session.PostReply) else old(View())
    {
      ran := server.Replied?;
      if ran {
        sem2 := sem2 + 1;
        server := AwaitsRequest;
      }
    }

    /** Write to the shared memory when there is room. */
    method Produce() returns (ran: bool)
      modifies this`room, this`ready
      ensures ran <==> old(room) > 0
      ensures if ran then room == old(room) - 1 && ready == old(ready) + 1 else room == old(room) && ready == old(ready)
    {
      ran := room > 0;
      if ran {
        room := room - 1;
        ready := ready + 1;
      }
    }

    /** Read from the shared memory when something is ready. */
    method Consume() returns (ran: bool)
      modifies this`room, this`ready
      ensures ran <==> old(ready) > 0
      ensures if ran then ready == old(ready) - 1 && room == old(room) + 1 else room == old(room) && ready == old(ready)
    {
      ran := ready > 0;
      if ran {
        ready := ready - 1;
        room := room + 1;
      }
    }

    method ClientSends() returns (ran: bool)
      modifies this`client, this`room, this`ready
      ensures ran <==> Enabled(old(View()), Session.ClientSends)
      ensures View() == if ran then Apply(handler, old(View()), Session.ClientSends) else old(View())
    {
      ran := false;
      if client.Sends? {
        ran := Produce();
        if ran {
          client := Composing;
        }
      }
    }

    method ClientFetches() returns (ran: bool)
      modifies this`client, this`room, this`ready
      ensures ran <==> Enabled(old(View()), Session.ClientFetches)
      ensures View() == if ran then Apply(handler, old(View()), Session.ClientFetches) else old(View())
    {
      ran := false;
      if client.Fetches? && made {
        ran := Consume();
        if ran {
          client := Composing;
        }
      }
    }

    /** There is no shared memory to open. */
    method ClientFails() returns (ran: bool)
      modifies this`client
      ensures ran <==> Enabled(old(View()), Session.ClientFails)
      ensures View() == if ran then Apply(handler, old(View()), Session.ClientFails) else old(View())
    {
      ran := client.Fetches? && !made;
      if ran {
        client := Gone;
      }
    }

    method ForkSends() returns (ran: bool)
      modifies this`senders, this`room, this`ready
      ensures ran <==> Enabled(old(View()), Session.ForkSends)
      ensures View() == if ran then Apply(handler, old(View()), Session.ForkSends) else old(View())
    {
      ran := false;
      if senders > 0 {
        ran := Produce();
        if ran {
          senders := senders - 1;
        }
      }
    }

    method ForkReceives() returns (ran: bool)
      modifies this`receivers, this`room, this`ready
      ensures ran <==> Enabled(old(View()), Session.ForkReceives)
      ensures View() == if ran then Apply(handler, old(View()), Session.ForkReceives) else old(View())
    {
      ran := false;
      if receivers > 0 && made {
        ran := Consume();
        if ran {
          receivers := receivers - 1;
        }
      }
    }

    /** One round of the server's loop, when a request is ready. */
    method Serve(text: string)
      requires server.AwaitsRequest? && sem1 > 0 && fifo == [Request(text)]
      modifies this`fifo, this`sem1, this`sem2, this`server, this`heard, this`made, this`senders, this`receivers
      ensures server.AwaitsRequest? && sem1 == old(sem1) - 1 && sem2 == old(sem2) + 1 && heard == old(heard) + [text]
      ensures fifo == if handler.answers(heard) then [Response(handler.reply(heard))] else []
      ensures !handler.answers(heard) ==> made == old(made) && senders == old(senders) && receivers == old(receivers)
    {
      var ran := WakeServer();
      ran := ReadRequest();
      ran := Handle();
      ran := PostReply();
    }

    /** One round of the client's loop with the server's round inside it: the client
        reads the reply to the command it typed and, if that starts no transfer, both
        are back where they were; a command without a response leaves the client at
        an empty FIFO. */
    method Exchange(text: string)
      requires Inv(handler, View()) && client.Composing?
      modifies this
      ensures asked == old(asked) + [text] && fifo == [] && server.AwaitsRequest?
      ensures handler.answers(asked) ==> got == old(got) + [Response(handler.reply(asked))]
      ensures handler.answers(asked) && handler.course(asked).Plain? ==> client.Composing?
      ensures !handler.answers(asked) ==> client.ReadsReply? && got == old(got) && (ForksIdle(View()) ==> Stuck(View()))
    {
      Send(text);
      Serve(text);
      Collect();
    }

    /** The first half of the client's round. */
    method Send(text: string)
      requires client.Composing?
      modifies this`fifo, this`client, this`asked, this`sem1
      ensures client.AwaitsReply? && fifo == old(fifo) + [Request(text)] && asked == old(asked) + [text] && sem1 == old(sem1) + 1
    {
      var ran := Ask(text);
      ran := PostRequest();
    }

    /** The second half, which an empty FIFO keeps from ending. */
    method Collect()
      requires client.AwaitsReply? && sem2 > 0
      modifies this`fifo, this`client, this`got, this`made, this`sem2
      ensures sem2 == old(sem2) - 1
      ensures |old(fifo)| > 0 ==> got == old(got) + [old(fifo)[0]] && fifo == old(fifo)[1..]
      ensures |old(fifo)| > 0 && handler.course(asked).Plain? ==> client.Composing?
      ensures |old(fifo)| == 0 ==> client.ReadsReply? && got == old(got) && fifo == [] && made == old(made)
    {
      var ran := WakeClient();
      ran := ReadReply();
    }
  }
}
