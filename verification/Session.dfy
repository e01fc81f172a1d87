/** The session of a client with its server process.

    One FIFO carries the requests in one direction and the responses in the other;
    both sides have both ends open.  Two semaphores keep the directions apart.

    A response that starts with "upload" or "download" sends the client into a
    transfer through a shared memory, which a process that the server forks is to
    take part in.  Two more semaphores guard the memory: one side waits for room and
    posts what is ready, the other side the reverse. */
module Session {
  import opened Numerals

  datatype Message = Request(text: string) | Response(text: string)

  /** What the server forks for a transfer and what becomes of that process: it makes
      the shared memory and leaves when it lacks the file to send. */
  datatype Fork = NoFork | Receiver | Sender | LostSender

  /** What comes after a response. */
  datatype Course =
    | Plain                     // the next command
    | Uploads                   // the client sends, the server's fork receives
    | Downloads                 // the server's fork sends, the client fetches
    | FetchesNothing            // the server's fork lacks the file and leaves, the client fetches
    | StraySend                 // the client sends and nobody receives
    | StrayFetch                // the client fetches and nobody sends
    | Exits(fork: Fork, makes: bool)    // the client lacks the file to send, which it notices after
                                        // making the memory, or cannot create the file to fetch

  /** A server and the files of both sides.  Everything depends on the requests heard
      so far, of which the last is the one at hand. */
  datatype Handler = Handler(
    answers: seq<string> -> bool,
    reply: seq<string> -> string,
    course: seq<string> -> Course)

  datatype Client = Composing | Written | AwaitsReply | ReadsReply | Sends | Fetches | Gone
  datatype Server = AwaitsRequest | ReadsRequest | Handles(m: Message) | Replied

  datatype State = State(
    fifo: seq<Message>,
    sem1: int,                  // a request is ready
    sem2: int,                  // a response is ready
    client: Client,
    server: Server,
    asked: seq<string>,         // history: requests written
    heard: seq<string>,         // history: requests the server read
    got: seq<Message>,          // history: what the client read
    made: bool,                 // the shared memory and its semaphores exist
    room: int,                  // semaphore of the senders
    ready: int,                 // semaphore of the receivers
    senders: nat,               // forks with a file to send
    receivers: nat)             // forks that wait for a file

  datatype Action =
    | Ask(text: string) | PostRequest | WakeClient | ReadReply
    | WakeServer | ReadRequest | Handle | PostReply
    | ClientSends | ClientFetches | ClientFails | ForkSends | ForkReceives

  const INIT := State([], 0, 0, Composing, AwaitsRequest, [], [], [], false, 1, 0, 0, 0)

  ghost predicate Enabled(s: State, a: Action) {
    match a
    case Ask(_) => s.client.Composing?
    case PostRequest => s.client.Written?
    case WakeClient => s.client.AwaitsReply? && s.sem2 > 0
    case ReadReply => s.client.ReadsReply? && |s.fifo| > 0
    case WakeServer => s.server.AwaitsRequest? && s.sem1 > 0
    case ReadRequest => s.server.ReadsRequest? && |s.fifo| > 0
    case Handle => s.server.Handles?
    case PostReply => s.server.Replied?
    case ClientSends => s.client.Sends? && s.room > 0
    case ClientFetches => s.client.Fetches? && s.made && s.ready > 0
    case ClientFails => s.client.Fetches? && !s.made
    case ForkSends => s.senders > 0 && s.room > 0
    case ForkReceives => s.receivers > 0 && s.made && s.ready > 0
  }

  ghost function Apply(h: Handler, s: State, a: Action): State
    requires Enabled(s, a)
  {
    match a
    case Ask(text) => s.(fifo := s.fifo + [Request(text)], asked := s.asked + [text], client := Written)
    case PostRequest => s.(sem1 := s.sem1 + 1, client := AwaitsReply)
    case WakeClient => s.(sem2 := s.sem2 - 1, client := ReadsReply)
    case ReadReply => AfterReply(h.course(s.asked), s.(got := s.got + [s.fifo[0]], fifo := s.fifo[1..]))
    case WakeServer => s.(sem1 := s.sem1 - 1, server := ReadsRequest)
    case ReadRequest => s.(server := Handles(s.fifo[0]), heard := s.heard + [s.fifo[0].text], fifo := s.fifo[1..])
    case Handle =>
      if h.answers(s.heard) then Forked(h.course(s.heard), s.(fifo := s.fifo + [Response(h.reply(s.heard))], server := Replied))
      else s.(server := Replied)
    case PostReply => s.(sem2 := s.sem2 + 1, server := AwaitsRequest)
    case ClientSends => s.(room := s.room - 1, ready := s.ready + 1, client := Composing)
    case ClientFetches => s.(ready := s.ready - 1, room := s.room + 1, client := Composing)
    case ClientFails => s.(client := Gone)
    case ForkSends => s.(room := s.room - 1, ready := s.ready + 1, senders := s.senders - 1)
    case ForkReceives => s.(ready := s.ready - 1, room := s.room + 1, receivers := s.receivers - 1)
  }

  /** The client takes its course.  Whoever sends makes the shared memory, before it
      looks for its file. */
  ghost function AfterReply(c: Course, s: State): State {
    match c
    case Plain => s.(client := Composing)
    case Uploads => s.(client := Sends, made := true)
    case StraySend => s.(client := Sends, made := true)
    case Exits(_, makes) => s.(client := Gone, made := s.made || makes)
    case _ => s.(client := Fetches)
  }

  function ForkFor(c: Course): Fork {
    match c
    case Uploads => Receiver
    case Downloads => Sender
    case FetchesNothing => LostSender
    case Exits(fork, _) => fork
    case _ => NoFork
  }

  /** The server forks. */
  ghost function Forked(c: Course, s: State): State {
    match ForkFor(c)
    case NoFork => s
    case Receiver => s.(receivers := s.receivers + 1)
    case Sender => s.(senders := s.senders + 1, made := true)
    case LostSender => s.(made := true)
  }

  // ------------------------------------------------------------ runs

  /** Runs in which the user types commands out of `typed` only. */
  ghost predicate Runs(h: Handler, typed: string -> bool, s: State, acts: seq<Action>)
    decreases |acts|
  {
    |acts| == 0 || (Enabled(s, acts[0]) && (acts[0].Ask? ==> typed(acts[0].text))
                    && Runs(h, typed, Apply(h, s, acts[0]), acts[1..]))
  }

  ghost function Exec(h: Handler, typed: string -> bool, s: State, acts: seq<Action>): State
    requires Runs(h, typed, s, acts)
    decreases |acts|
  {
    if |acts| == 0 then s else Exec(h, typed, Apply(h, s, acts[0]), acts[1..])
  }

  /** Some run of the session leads to the state. */
  ghost predicate Reach(h: Handler, typed: string -> bool, t: State) {
    exists acts :: Runs(h, typed, INIT, acts) && Exec(h, typed, INIT, acts) == t
  }

  lemma {:induction false} RunsThen(h: Handler, typed: string -> bool, s: State, acts: seq<Action>, a: Action)
    requires Runs(h, typed, s, acts) && Enabled(Exec(h, typed, s, acts), a) && (a.Ask? ==> typed(a.text))
    ensures Runs(h, typed, s, acts + [a])
    ensures Exec(h, typed, s, acts + [a]) == Apply(h, Exec(h, typed, s, acts), a)
    decreases |acts|
  {
    if |acts| > 0 {
      RunsThen(h, typed, Apply(h, s, acts[0]), acts[1..], a);
      assert (acts + [a])[0] == acts[0] && (acts + [a])[1..] == acts[1..] + [a];
    } else {
      assert acts + [a] == [a];
    }
  }

  lemma Step(h: Handler, typed: string -> bool, s: State, a: Action) returns (t: State)
    requires Reach(h, typed, s) && Enabled(s, a) && (a.Ask? ==> typed(a.text))
    ensures Reach(h, typed, t) && t == Apply(h, s, a)
  {
    var acts :| Runs(h, typed, INIT, acts) && Exec(h, typed, INIT, acts) == s;
    RunsThen(h, typed, INIT, acts, a);
    t := Apply(h, s, a);
  }

  // ------------------------------------------------------------ whose turn it is

  /** What the FIFO holds once the server has handled the request: the response, or
      nothing when the handler wrote none. */
  ghost predicate Answered(h: Handler, s: State) {
    && |s.asked| > 0 && s.heard == s.asked
    && s.fifo == if h.answers(s.asked) then [Response(h.reply(s.asked))] else []
  }

  /** The request is written and not read. */
  ghost predicate OnItsWay(s: State) {
    |s.asked| > 0 && s.heard == s.asked[..|s.asked| - 1] && s.fifo == [Request(s.asked[|s.asked| - 1])]
  }

  /** Where the other side and the FIFO are, by where the client is. */
  ghost predicate Turns(h: Handler, s: State) {
    match s.client
    case Written => s.sem1 == 0 && s.sem2 == 0 && s.server == AwaitsRequest && OnItsWay(s)
    case AwaitsReply => (
      match s.server
      case AwaitsRequest =>
        (s.sem1 == 1 && s.sem2 == 0 && OnItsWay(s)) || (s.sem1 == 0 && s.sem2 == 1 && Answered(h, s))
      case ReadsRequest => s.sem1 == 0 && s.sem2 == 0 && OnItsWay(s)
      case Handles(m) =>
        && s.sem1 == 0 && s.sem2 == 0 && s.fifo == [] && |s.asked| > 0 && s.heard == s.asked
        && m == Request(s.asked[|s.asked| - 1])
      case Replied => s.sem1 == 0 && s.sem2 == 0 && Answered(h, s))
    case ReadsReply => s.sem1 == 0 && s.sem2 == 0 && s.server == AwaitsRequest && Answered(h, s)
    case _ => s.sem1 == 0 && s.sem2 == 0 && s.server == AwaitsRequest && s.fifo == [] && s.heard == s.asked
  }

  /** The client has a request under way. */
  predicate Waits(c: Client) {
    c.Written? || c.AwaitsReply? || c.ReadsReply?
  }

  ghost predicate Inv(h: Handler, s: State) {
    && Turns(h, s)
    && |s.got| == |s.asked| - (if Waits(s.client) then 1 else 0)
    && Replies(h, s)
  }

  /** The client has read the replies to its requests, in order. */
  ghost predicate Replies(h: Handler, s: State) {
    |s.got| <= |s.asked| && forall k :: 0 <= k < |s.got| ==> ReplyTo(h, s.asked[..k + 1], s.got[k])
  }

  ghost predicate ReplyTo(h: Handler, asked: seq<string>, m: Message) {
    h.answers(asked) && m == Response(h.reply(asked))
  }

  predicate OfTransfer(a: Action) {
    a.ClientSends? || a.ClientFetches? || a.ClientFails? || a.ForkSends? || a.ForkReceives?
  }

  lemma TurnStep(h: Handler, s: State, a: Action)
    requires Turns(h, s) && Enabled(s, a)
    ensures Turns(h, Apply(h, s, a))
  {
    if a.Ask? {
      assert (s.asked + [a.text])[..|s.asked|] == s.asked;
    } else if a.ReadRequest? {
      assert s.asked[..|s.asked| - 1] + [s.asked[|s.asked| - 1]] == s.asked;
    }
  }

  lemma StepInv(h: Handler, s: State, a: Action)
    requires Inv(h, s) && Enabled(s, a)
    ensures Inv(h, Apply(h, s, a))
  {
    TurnStep(h, s, a);
    if a.ReadReply? {
      ReadStep(h, s);
    } else {
      KeepReplies(h, s, a);
    }
  }

  lemma KeepReplies(h: Handler, s: State, a: Action)
    requires Replies(h, s) && Enabled(s, a) && !a.ReadReply?
    ensures Replies(h, Apply(h, s, a))
  {
    var t := Apply(h, s, a);
    assert t.got == s.got && s.asked <= t.asked;
    forall k | 0 <= k < |t.got| ensures ReplyTo(h, t.asked[..k + 1], t.got[k]) {
      assert t.asked[..k + 1] == s.asked[..k + 1];
    }
  }

  lemma ReadStep(h: Handler, s: State)
    requires Inv(h, s) && Enabled(s, ReadReply)
    ensures Replies(h, Apply(h, s, ReadReply))
  {
    assert s.asked[..|s.asked|] == s.asked;
    var t := Apply(h, s, ReadReply);
    assert t.asked == s.asked && t.got == s.got + [Response(h.reply(s.asked))];
    forall k | 0 <= k < |t.got| ensures ReplyTo(h, t.asked[..k + 1], t.got[k]) {
      if k < |s.got| {
        assert ReplyTo(h, s.asked[..k + 1], s.got[k]);
      }
    }
  }

  lemma {:induction false} RunInv(h: Handler, typed: string -> bool, s: State, acts: seq<Action>)
    requires Inv(h, s) && Runs(h, typed, s, acts)
    ensures Inv(h, Exec(h, typed, s, acts))
    decreases |acts|
  {
    if |acts| > 0 {
      StepInv(h, s, acts[0]);
      RunInv(h, typed, Apply(h, s, acts[0]), acts[1..]);
    }
  }

  lemma ReachInv(h: Handler, typed: string -> bool, t: State)
    requires Reach(h, typed, t)
    ensures Inv(h, t)
  {
    var acts :| Runs(h, typed, INIT, acts) && Exec(h, typed, INIT, acts) == t;
    RunInv(h, typed, INIT, acts);
  }

  /** In every state of every session, over any number of commands, transfers or not:
      the FIFO holds one message at most; a side that is about to read finds no
      message of its own; the semaphores never add up to more than one; the server
      reads the requests in order; and the k-th response the client read is the
      reply to its k-th request. */
  lemma OneFifoIsEnough(h: Handler, typed: string -> bool, t: State)
    requires Reach(h, typed, t)
    ensures |t.fifo| <= 1
    ensures t.client.ReadsReply? ==> forall m :: m in t.fifo ==> m.Response?
    ensures t.server.ReadsRequest? ==> |t.fifo| == 1 && t.fifo[0].Request?
    ensures 0 <= t.sem1 && 0 <= t.sem2 && t.sem1 + t.sem2 <= 1
    ensures |t.heard| <= |t.asked| <= |t.heard| + 1 && t.heard == t.asked[..|t.heard|]
    ensures |t.got| <= |t.heard| && |t.asked| <= |t.got| + 1
    ensures forall k :: 0 <= k < |t.got| ==> t.got[k] == Response(h.reply(t.asked[..k + 1]))
  {
    ReachInv(h, typed, t);
  }

  // ------------------------------------------------------------ when the session stands still

  ghost predicate Stuck(s: State) {
    forall a: Action :: !Enabled(s, a)
  }

  /** No fork can go on. */
  ghost predicate ForksIdle(s: State) {
    && (s.senders > 0 ==> s.room <= 0)
    && (s.receivers > 0 && s.made ==> s.ready <= 0)
  }

  /** The session stands still exactly when no fork can go on and the client waits for
      the response to a request that the server does not answer, or waits in a
      transfer, or has left. */
  lemma StuckExactly(h: Handler, s: State)
    requires Inv(h, s)
    ensures Stuck(s) <==>
            && ForksIdle(s)
            && match s.client
               case ReadsReply => !h.answers(s.asked)
               case Sends => s.room <= 0
               case Fetches => s.made && s.ready <= 0
               case Gone => true
               case _ => false
  {
    if Stuck(s) {
      assert !Enabled(s, Ask("")) && !Enabled(s, PostRequest) && !Enabled(s, WakeClient) && !Enabled(s, ReadReply);
      assert !Enabled(s, WakeServer) && !Enabled(s, ReadRequest) && !Enabled(s, Handle) && !Enabled(s, PostReply);
      assert !Enabled(s, ClientSends) && !Enabled(s, ClientFetches) && !Enabled(s, ClientFails);
      assert !Enabled(s, ForkSends) && !Enabled(s, ForkReceives);
    }
  }

  // ------------------------------------------------------------ the balance of the transfers

  /** What a command sends more than it fetches. */
  function Delta(c: Course): int {
    match c
    case StraySend => 1
    case StrayFetch => -1
    case FetchesNothing => -1
    case _ => 0
  }

  ghost function Surplus(h: Handler, asked: seq<string>): int {
    if |asked| == 0 then 0 else Surplus(h, asked[..|asked| - 1]) + Delta(h.course(asked))
  }

  /** Every command is answered, none makes the client leave, and at all times the
      commands have sent as much as they fetched, or one more. */
  ghost predicate Keeps(h: Handler, asked: seq<string>) {
    |asked| == 0 || (
      && Keeps(h, asked[..|asked| - 1])
      && h.answers(asked) && !h.course(asked).Exits? && 0 <= Surplus(h, asked) <= 1)
  }

  /** The requests the server has handled. */
  ghost function Handled(s: State): seq<string> {
    if s.server.Handles? && |s.heard| > 0 then s.heard[..|s.heard| - 1] else s.heard
  }

  /** The client has not yet read the response that is there. */
  ghost predicate Unread(s: State) {
    (s.client.AwaitsReply? || s.client.ReadsReply?) && |s.asked| > 0 && Handled(s) == s.asked
  }

  predicate WillSend(c: Course) {
    c.Uploads? || c.StraySend?
  }

  predicate WillFetch(c: Course) {
    c.Downloads? || c.FetchesNothing? || c.StrayFetch?
  }

  /** The client sends, or will when it has read the response. */
  ghost function Sending(h: Handler, s: State): int {
    if s.client.Sends? || (Unread(s) && WillSend(h.course(s.asked))) then 1 else 0
  }

  ghost function Fetching(h: Handler, s: State): int {
    if s.client.Fetches? || (Unread(s) && WillFetch(h.course(s.asked))) then 1 else 0
  }

  /** Those who wait for something are the sent and those who will send, but for the
      surplus. */
  ghost predicate Balance(h: Handler, s: State) {
    && s.room >= 0 && s.ready >= 0 && s.room + s.ready == 1 && !s.client.Gone?
    && s.receivers + Fetching(h, s) + Surplus(h, Handled(s)) == s.ready + s.senders + Sending(h, s)
    && (s.ready > 0 || s.senders > 0 || s.client.Sends? ==> s.made)
  }

  ghost predicate Sane(h: Handler, s: State) {
    Inv(h, s) && (Keeps(h, s.asked) ==> Balance(h, s))
  }

  lemma KeepsBefore(h: Handler, asked: seq<string>)
    requires Keeps(h, asked) && |asked| > 0
    ensures Keeps(h, asked[..|asked| - 1])
    ensures 0 <= Surplus(h, asked[..|asked| - 1]) <= 1 && 0 <= Surplus(h, asked) <= 1
  {
  }

  lemma SurplusInRange(h: Handler, asked: seq<string>)
    requires Keeps(h, asked)
    ensures 0 <= Surplus(h, asked) <= 1
  {
  }

  lemma TransferBalance(h: Handler, s: State, a: Action)
    requires Inv(h, s) && Balance(h, s) && Keeps(h, s.asked) && Enabled(s, a) && OfTransfer(a)
    ensures Balance(h, Apply(h, s, a))
  {
    SurplusInRange(h, s.asked);
    assert !Waits(s.client) ==> Handled(s) == s.asked;
  }

  lemma HandleBalance(h: Handler, s: State)
    requires Inv(h, s) && Balance(h, s) && Keeps(h, s.asked) && s.server.Handles?
    ensures Balance(h, Apply(h, s, Handle))
  {
    var t := Apply(h, s, Handle);
    assert s.client.AwaitsReply? && Handled(s) == s.asked[..|s.asked| - 1] && Handled(t) == t.asked == s.asked;
    assert !Unread(s) && Unread(t);
    assert Surplus(h, s.asked) == Surplus(h, Handled(s)) + Delta(h.course(s.asked));
  }

  lemma ReplyBalance(h: Handler, s: State)
    requires Inv(h, s) && Balance(h, s) && Keeps(h, s.asked) && Enabled(s, ReadReply)
    ensures Balance(h, Apply(h, s, ReadReply))
  {
    assert Handled(s) == s.asked && Unread(s);
  }

  lemma TurnBalance(h: Handler, s: State, a: Action)
    requires Inv(h, s) && Balance(h, s) && Enabled(s, a) && !OfTransfer(a) && !a.Handle? && !a.ReadReply?
    ensures Balance(h, Apply(h, s, a))
  {
    var t := Apply(h, s, a);
    if a.ReadRequest? {
      assert t.heard[..|t.heard| - 1] == s.heard;
    }
    assert Handled(t) == Handled(s);
    assert !Unread(t) || Unread(s);
    assert !Unread(s) || Unread(t);
  }

  lemma SaneStep(h: Handler, s: State, a: Action)
    requires Sane(h, s) && Enabled(s, a)
    ensures Sane(h, Apply(h, s, a))
  {
    StepInv(h, s, a);
    var t := Apply(h, s, a);
    if Keeps(h, t.asked) {
      if a.Ask? {
        assert t.asked[..|t.asked| - 1] == s.asked;
        KeepsBefore(h, t.asked);
      }
      if OfTransfer(a) {
        TransferBalance(h, s, a);
      } else if a.Handle? {
        HandleBalance(h, s);
      } else if a.ReadReply? {
        ReplyBalance(h, s);
      } else {
        TurnBalance(h, s, a);
      }
    }
  }

  lemma {:induction false} SaneRun(h: Handler, typed: string -> bool, s: State, acts: seq<Action>)
    requires Sane(h, s) && Runs(h, typed, s, acts)
    ensures Sane(h, Exec(h, typed, s, acts))
    decreases |acts|
  {
    if |acts| > 0 {
      SaneStep(h, s, acts[0]);
      SaneRun(h, typed, Apply(h, s, acts[0]), acts[1..]);
    }
  }

  lemma TypedStep(h: Handler, typed: string -> bool, s: State, a: Action)
    requires AllTyped(typed, s.asked) && Enabled(s, a) && (a.Ask? ==> typed(a.text))
    ensures AllTyped(typed, Apply(h, s, a).asked)
  {
    assert a.Ask? || Apply(h, s, a).asked == s.asked;
  }

  lemma {:induction false} TypedRun(h: Handler, typed: string -> bool, s: State, acts: seq<Action>)
    requires AllTyped(typed, s.asked) && Runs(h, typed, s, acts)
    ensures AllTyped(typed, Exec(h, typed, s, acts).asked)
    decreases |acts|
  {
    if |acts| > 0 {
      TypedStep(h, typed, s, acts[0]);
      TypedRun(h, typed, Apply(h, s, acts[0]), acts[1..]);
    }
  }

  /** As long as the commands keep the balance, something can happen. */
  lemma KeepsGoing(h: Handler, s: State)
    requires Sane(h, s) && Keeps(h, s.asked)
    ensures !Stuck(s)
  {
    StuckExactly(h, s);
    SurplusInRange(h, s.asked);
    assert !Waits(s.client) ==> Handled(s) == s.asked;
  }

  // ------------------------------------------------------------ exactly when it never does

  ghost predicate AllTyped(typed: string -> bool, asked: seq<string>) {
    forall k :: 0 <= k < |asked| ==> typed(asked[k])
  }

  ghost predicate NeverHangs(h: Handler, typed: string -> bool) {
    forall t :: Reach(h, typed, t) ==> !Stuck(t)
  }

  /** All commands are done with, and so are the forks. */
  ghost predicate Resting(h: Handler, s: State, asked: seq<string>) {
    && s.fifo == [] && s.sem1 == 0 && s.sem2 == 0 && s.client.Composing? && s.server.AwaitsRequest?
    && s.asked == s.heard == asked && s.senders == 0 && s.receivers == 0
    && s.ready == Surplus(h, asked) && s.room == 1 - s.ready && (s.ready > 0 ==> s.made)
  }

  lemma Hear(h: Handler, typed: string -> bool, s: State, text: string) returns (t: State)
    requires Reach(h, typed, s) && Resting(h, s, s.asked) && typed(text)
    ensures Reach(h, typed, t)
    ensures t == s.(asked := s.asked + [text], heard := s.asked + [text], client := AwaitsReply, server := Handles(Request(text)))
  {
    t := Step(h, typed, s, Ask(text));
    t := Step(h, typed, t, PostRequest);
    t := Step(h, typed, t, WakeServer);
    t := Step(h, typed, t, ReadRequest);
  }

  /** The client types the command and gets as far as reading the response. */
  lemma TypeNext(h: Handler, typed: string -> bool, s: State, text: string) returns (t: State)
    requires Reach(h, typed, s) && Resting(h, s, s.asked) && typed(text)
    ensures Reach(h, typed, t)
    ensures var asked := s.asked + [text];
            var u := s.(asked := asked, heard := asked, client := ReadsReply);
            t == if h.answers(asked) then Forked(h.course(asked), u.(fifo := [Response(h.reply(asked))])) else u
  {
    t := Hear(h, typed, s, text);
    t := HandleNext(h, typed, t);
    t := PassReply(h, typed, t);
  }

  lemma HandleNext(h: Handler, typed: string -> bool, s: State) returns (t: State)
    requires Reach(h, typed, s) && s.server.Handles?
    ensures Reach(h, typed, t)
    ensures var u := s.(server := Replied);
            t == if h.answers(s.heard) then Forked(h.course(s.heard), u.(fifo := s.fifo + [Response(h.reply(s.heard))])) else u
  {
    t := Step(h, typed, s, Handle);
  }

  lemma PassReply(h: Handler, typed: string -> bool, s: State) returns (t: State)
    requires Reach(h, typed, s) && s.client.AwaitsReply? && s.server.Replied? && s.sem2 == 0
    ensures Reach(h, typed, t) && t == s.(client := ReadsReply, server := AwaitsRequest)
  {
    t := Step(h, typed, s, PostReply);
    t := Step(h, typed, t, WakeClient);
  }

  lemma ReadNext(h: Handler, typed: string -> bool, s: State, text: string) returns (t: State)
    requires Reach(h, typed, s) && Resting(h, s, s.asked) && typed(text) && h.answers(s.asked + [text])
    ensures Reach(h, typed, t)
    ensures var asked := s.asked + [text];
            t == AfterReply(h.course(asked), Forked(h.course(asked),
                   s.(asked := asked, heard := asked, got := s.got + [Response(h.reply(asked))])))
  {
    t := TypeNext(h, typed, s, text);
    var asked := s.asked + [text];
    var m := Response(h.reply(asked));
    t := ReadOne(h, typed, t, m);
    SameCourse(h.course(asked), s.(asked := asked, heard := asked), m);
  }

  lemma ReadOne(h: Handler, typed: string -> bool, s: State, m: Message) returns (t: State)
    requires Reach(h, typed, s) && s.client.ReadsReply? && s.fifo == [m]
    ensures Reach(h, typed, t) && t == AfterReply(h.course(s.asked), s.(got := s.got + [m], fifo := []))
  {
    t := Step(h, typed, s, ReadReply);
  }

  /** Reading the response does not interfere with the fork. */
  lemma SameCourse(c: Course, s: State, m: Message)
    requires s.client.Composing? && s.fifo == []
    ensures AfterReply(c, Forked(c, s.(client := ReadsReply, fifo := [m])).(got := s.got + [m], fifo := []))
            == AfterReply(c, Forked(c, s.(got := s.got + [m])))
    ensures Forked(c, s.(client := ReadsReply, fifo := [m])).asked == s.asked
    ensures Forked(c, s.(client := ReadsReply, fifo := [m])).got == s.got
  {
  }

  lemma NextKeeps(h: Handler, asked: seq<string>, text: string)
    requires Keeps(h, asked + [text])
    ensures h.answers(asked + [text]) && !h.course(asked + [text]).Exits?
    ensures Surplus(h, asked + [text]) == Surplus(h, asked) + Delta(h.course(asked + [text]))
    ensures 0 <= Surplus(h, asked) <= 1 && 0 <= Surplus(h, asked + [text]) <= 1
  {
    assert (asked + [text])[..|asked|] == asked;
    KeepsBefore(h, asked + [text]);
  }

  /** A command that keeps the balance is done with, transfer included. */
  lemma DoNext(h: Handler, typed: string -> bool, s: State, text: string) returns (t: State)
    requires Reach(h, typed, s) && Resting(h, s, s.asked) && typed(text) && Keeps(h, s.asked + [text])
    ensures Reach(h, typed, t) && Resting(h, t, s.asked + [text])
  {
    var asked := s.asked + [text];
    NextKeeps(h, s.asked, text);
    t := ReadNext(h, typed, s, text);
    t := Transfer(h, typed, s.(asked := asked, heard := asked, got := s.got + [Response(h.reply(asked))]), t, h.course(asked));
  }

  /** The transfer that the response to the last command starts, if any. */
  lemma Transfer(h: Handler, typed: string -> bool, s: State, u: State, c: Course) returns (t: State)
    requires s.client.Composing? && 0 <= s.ready <= 1 && s.room == 1 - s.ready && (s.ready > 0 ==> s.made)
    requires u == AfterReply(c, Forked(c, s)) && Reach(h, typed, u) && !c.Exits? && 0 <= s.ready + Delta(c) <= 1
    ensures Reach(h, typed, t)
    ensures t == s.(ready := s.ready + Delta(c), room := s.room - Delta(c), made := t.made) && (t.ready > 0 ==> t.made)
  {
    match c
    case Plain => t := u;
    case Uploads => t := UploadNext(h, typed, u);
    case Downloads => t := DownloadNext(h, typed, u);
    case StraySend => t := Step(h, typed, u, ClientSends);
    case _ => t := Step(h, typed, u, ClientFetches);
  }

  lemma UploadNext(h: Handler, typed: string -> bool, s: State) returns (t: State)
    requires Reach(h, typed, s) && s.client.Sends? && s.receivers > 0 && s.made
    requires 0 <= s.ready <= 1 && s.room == 1 - s.ready
    ensures Reach(h, typed, t) && t == s.(client := Composing, receivers := s.receivers - 1)
  {
    if s.ready == 0 {
      t := Step(h, typed, s, ClientSends);
      t := Step(h, typed, t, ForkReceives);
    } else {
      t := Step(h, typed, s, ForkReceives);
      t := Step(h, typed, t, ClientSends);
    }
  }

  lemma DownloadNext(h: Handler, typed: string -> bool, s: State) returns (t: State)
    requires Reach(h, typed, s) && s.client.Fetches? && s.senders > 0 && s.made
    requires 0 <= s.ready <= 1 && s.room == 1 - s.ready
    ensures Reach(h, typed, t) && t == s.(client := Composing, senders := s.senders - 1)
  {
    if s.ready == 0 {
      t := Step(h, typed, s, ForkSends);
      t := Step(h, typed, t, ClientFetches);
    } else {
      t := Step(h, typed, s, ClientFetches);
      t := Step(h, typed, t, ForkSends);
    }
  }

  lemma {:induction false} DoAll(h: Handler, typed: string -> bool, asked: seq<string>) returns (t: State)
    requires AllTyped(typed, asked) && Keeps(h, asked)
    ensures Reach(h, typed, t) && Resting(h, t, asked)
    decreases |asked|
  {
    if |asked| == 0 {
      t := INIT;
      assert Runs(h, typed, INIT, []) && Exec(h, typed, INIT, []) == INIT;
    } else {
      var init, last := asked[..|asked| - 1], asked[|asked| - 1];
      t := DoAll(h, typed, init);
      assert init + [last] == asked;
      t := DoNext(h, typed, t, last);
    }
  }

  /** A command that does not keep the balance brings the session to a halt. */
  lemma HangNext(h: Handler, typed: string -> bool, s: State, text: string) returns (t: State)
    requires Reach(h, typed, s) && Resting(h, s, s.asked) && typed(text)
    requires Keeps(h, s.asked) && !Keeps(h, s.asked + [text]) && 0 <= Surplus(h, s.asked) <= 1
    ensures Reach(h, typed, t) && Stuck(t)
  {
    var asked := s.asked + [text];
    assert asked[..|asked| - 1] == s.asked;
    if h.answers(asked) {
      t := ReadNext(h, typed, s, text);
      t := HangInTransfer(h, typed, t, s.ready);
    } else {
      t := TypeNext(h, typed, s, text);
      ReachInv(h, typed, t);
      StuckExactly(h, t);
    }
  }

  /** One too many sends, one too many fetches, or the client has left. */
  lemma HangInTransfer(h: Handler, typed: string -> bool, s: State, ready: int) returns (t: State)
    requires Reach(h, typed, s) && s.ready == ready && s.room == 1 - ready && s.senders + s.receivers <= 1
    requires || (s.client.Gone? && 0 <= ready <= 1)
             || (s.client.Sends? && ready == 1 && s.receivers == 0 == s.senders)
             || (s.client.Fetches? && ready == 0 && s.receivers == 0 == s.senders)
    ensures Reach(h, typed, t) && Stuck(t)
  {
    t := s;
    if t.client.Fetches? && !t.made {
      t := Step(h, typed, t, ClientFails);
    } else if t.receivers > 0 && t.ready > 0 && t.made {
      t := Step(h, typed, t, ForkReceives);
    } else if t.senders > 0 && t.room > 0 {
      t := Step(h, typed, t, ForkSends);
    }
    ReachInv(h, typed, t);
    StuckExactly(h, t);
  }

  /** If some commands do not keep the balance, the first that does not ends the session. */
  lemma {:induction false} FindHang(h: Handler, typed: string -> bool, asked: seq<string>) returns (t: State)
    requires AllTyped(typed, asked) && !Keeps(h, asked)
    ensures Reach(h, typed, t) && Stuck(t)
    decreases |asked|
  {
    var init, last := asked[..|asked| - 1], asked[|asked| - 1];
    if Keeps(h, init) {
      t := DoAll(h, typed, init);
      assert init + [last] == asked;
      if |init| > 0 {
        KeepsBefore(h, init);
      }
      t := HangNext(h, typed, t, last);
    } else {
      t := FindHang(h, typed, init);
    }
  }

  /** A session never stands still if and only if all that may be typed keeps the
      balance. */
  lemma NeverHangsExactly(h: Handler, typed: string -> bool)
    ensures NeverHangs(h, typed) <==> forall asked :: AllTyped(typed, asked) ==> Keeps(h, asked)
  {
    if asked :| AllTyped(typed, asked) && !Keeps(h, asked) {
      var t := FindHang(h, typed, asked);
    } else {
      forall t | Reach(h, typed, t) ensures !Stuck(t) {
        var acts :| Runs(h, typed, INIT, acts) && Exec(h, typed, INIT, acts) == t;
        SaneRun(h, typed, INIT, acts);
        TypedRun(h, typed, INIT, acts);
        KeepsGoing(h, t);
      }
    }
  }

  // ------------------------------------------------------------ the commands of the server

  datatype Level = Invalid | Help | List | ReadF | WriteT | Upload | Download | Archive | Kill | Quit

  const MAX_WORDS := 4

  function Words(text: string): (r: seq<string>)
    ensures |r| > 0
  {
    if |text| == 0 then [""]
    else
      var rest := Words(text[1..]);
      if text[0] == ' ' then [""] + rest else [[text[0]] + rest[0]] + rest[1..]
  }

  function CheckCommand(command: string, size: nat): Level {
    if command == "help" then (if size == 1 || size == 2 then Help else Invalid)
    else if command == "list" then (if size == 1 then List else Invalid)
    else if command == "readF" then (if size == 3 || size == 2 then ReadF else Invalid)
    else if command == "writeT" then (if size == 3 || size == 4 then WriteT else Invalid)
    else if command == "upload" then (if size == 2 then Upload else Invalid)
    else if command == "download" then (if size == 2 then Download else Invalid)
    else if command == "arcServer" then (if size == 2 then Archive else Invalid)
    else if command == "killServer" then (if size == 1 then Kill else Invalid)
    else if command == "quit" then (if size == 1 then Quit else Invalid)
    else Invalid
  }

  /** How the server classifies a request; more than four words are invalid. */
  function Classify(text: string): Level {
    var words := Words(text);
    if |words| > MAX_WORDS then Invalid else CheckCommand(words[0], |words|)
  }

  /** Whether the server's branch for the request writes a response.  The line number
      of readF is the third word, or nothing when there are two. */
  predicate Responds(text: string) {
    var words := Words(text);
    match Classify(text)
    case ReadF => |words| == 3 && Atoi(words[2]) > 0
    case Archive => false
    case Kill => false
    case _ => true
  }

  /** The commands that do not end the session. */
  predicate Ordinary(text: string) {
    !Classify(text).Quit? && !Classify(text).Kill?
  }

  /** readF without a positive line number, and the archive command. */
  predicate LeavesClientWaiting(text: string) {
    Classify(text).Archive? || (Classify(text).ReadF? && (|Words(text)| == 2 || Atoi(Words(text)[2]) <= 0))
  }

  /** What the model leaves open: the responses; whether the server can open its folder
      to list it; and whether the file that the last request names can, at the time,
      be opened for reading or created, on the server's or the client's side. */
  datatype World = World(
    reply: seq<string> -> string,
    serverLists: seq<string> -> bool,
    serverHas: seq<string> -> bool,
    serverMakes: seq<string> -> bool,
    clientHas: seq<string> -> bool,
    clientMakes: seq<string> -> bool)

  /** The responses of list, readF and writeT are free text: names of files, a line, or
      the user's own text when the file to write cannot be opened.  The client does
      not look at the response of help, and that of an invalid command starts with
      another word. */
  function CourseOf(w: World, asked: seq<string>): Course {
    if |asked| == 0 then Plain
    else
      match Classify(asked[|asked| - 1])
      case Upload => CourseOfUpload(w.clientHas(asked), w.serverMakes(asked))
      case Download => CourseOfDownload(w.serverHas(asked), w.clientMakes(asked))
      case List => CourseOfText(w, asked)
      case ReadF => CourseOfText(w, asked)
      case WriteT => CourseOfText(w, asked)
      case _ => Plain
  }

  /** A fork that cannot create the file leaves before it waits. */
  function CourseOfUpload(has: bool, makes: bool): Course {
    if has then (if makes then Uploads else StraySend)
    else Exits(if makes then Receiver else NoFork, true)
  }

  function CourseOfDownload(has: bool, makes: bool): Course {
    if makes then (if has then Downloads else FetchesNothing)
    else Exits(if has then Sender else LostSender, false)
  }

  function CourseOfText(w: World, asked: seq<string>): Course {
    if StartsWith(w.reply(asked), "upload") then (if w.clientHas(asked) then StraySend else Exits(NoFork, true))
    else if StartsWith(w.reply(asked), "download") then (if w.clientMakes(asked) then StrayFetch else Exits(NoFork, false))
    else Plain
  }

  predicate Unlisted(w: World, asked: seq<string>) {
    |asked| > 0 && Classify(asked[|asked| - 1]).List? && !w.serverLists(asked)
  }

  predicate Answers(w: World, asked: seq<string>) {
    |asked| > 0 && Responds(asked[|asked| - 1]) && !Unlisted(w, asked)
  }

  /** The server of this program. */
  function Real(w: World): Handler {
    Handler(asked => Answers(w, asked), w.reply, asked => CourseOf(w, asked))
  }

  lemma {:induction false} KeepsAll(h: Handler, typed: string -> bool, asked: seq<string>)
    requires forall past :: AllTyped(typed, past) && |past| > 0 ==>
                              h.answers(past) && !h.course(past).Exits? && 0 <= Surplus(h, past) <= 1
    requires AllTyped(typed, asked)
    ensures Keeps(h, asked)
    decreases |asked|
  {
    if |asked| > 0 {
      KeepsAll(h, typed, asked[..|asked| - 1]);
    }
  }

  /** What the user types can be listed and makes the client leave at no point, and
      the transfers balance. */
  ghost predicate Sustained(w: World, asked: seq<string>) {
    !Unlisted(w, asked) && !CourseOf(w, asked).Exits? && 0 <= Surplus(Real(w), asked) <= 1
  }

  /** With the server's own commands: a user who types ordinary commands brings the
      session to a halt by a readF without a positive line number, by arcServer, by a
      list of a folder that cannot be opened, by a response that makes the client
      send a file it lacks or fetch one it cannot create, or by fetching more than
      was sent, or sending two more than was fetched, for want of the other side; and
      by nothing else. */
  lemma CommandsThatHang(w: World, typed: string -> bool)
    requires forall text :: typed(text) ==> Ordinary(text)
    ensures NeverHangs(Real(w), typed) <==>
            && (forall text :: typed(text) ==> !LeavesClientWaiting(text))
            && forall asked :: AllTyped(typed, asked) ==> Sustained(w, asked)
  {
    var h := Real(w);
    NeverHangsExactly(h, typed);
    if forall asked :: AllTyped(typed, asked) ==> Keeps(h, asked) {
      forall text | typed(text) ensures !LeavesClientWaiting(text) {
        assert AllTyped(typed, [text]);
        RespondsExactly(text);
        KeepsSustained(w, [text]);
      }
      forall asked | AllTyped(typed, asked) ensures Sustained(w, asked) {
        KeepsSustained(w, asked);
      }
    }
    if (forall text :: typed(text) ==> !LeavesClientWaiting(text))
       && forall asked :: AllTyped(typed, asked) ==> Sustained(w, asked)
    {
      SustainedKeeps(w, typed);
    }
  }

  lemma RespondsExactly(text: string)
    requires Ordinary(text)
    ensures Responds(text) <==> !LeavesClientWaiting(text)
  {
  }

  lemma KeepsSustained(w: World, asked: seq<string>)
    requires Keeps(Real(w), asked)
    ensures Sustained(w, asked) && (|asked| > 0 ==> Responds(asked[|asked| - 1]))
  {
  }

  lemma SustainedKeeps(w: World, typed: string -> bool)
    requires forall text :: typed(text) ==> Ordinary(text) && !LeavesClientWaiting(text)
    requires forall asked :: AllTyped(typed, asked) ==> Sustained(w, asked)
    ensures forall asked :: AllTyped(typed, asked) ==> Keeps(Real(w), asked)
  {
    var h := Real(w);
    forall past | AllTyped(typed, past) && |past| > 0
      ensures h.answers(past) && !h.course(past).Exits? && 0 <= Surplus(h, past) <= 1
    {
      assert Sustained(w, past) && typed(past[|past| - 1]);
      RespondsExactly(past[|past| - 1]);
    }
    forall asked | AllTyped(typed, asked) ensures Keeps(h, asked) {
      KeepsAll(h, typed, asked);
    }
  }

  /** Both sides of a transfer are there, or there is none. */
  predicate Matched(c: Course) {
    c.Plain? || c.Uploads? || c.Downloads?
  }

  lemma {:induction false} NoSurplus(h: Handler, typed: string -> bool, asked: seq<string>)
    requires forall past :: AllTyped(typed, past) ==> Matched(h.course(past))
    requires AllTyped(typed, asked)
    ensures Surplus(h, asked) == 0
    decreases |asked|
  {
    if |asked| > 0 {
      NoSurplus(h, typed, asked[..|asked| - 1]);
    }
  }

  /** The files of the transfer asked for can be opened and created on both sides, the
      folder can be listed, and no other response starts like a transfer. */
  predicate Undisturbed(w: World, asked: seq<string>) {
    |asked| == 0 ||
    match Classify(asked[|asked| - 1])
    case Upload => w.clientHas(asked) && w.serverMakes(asked)
    case Download => w.serverHas(asked) && w.clientMakes(asked)
    case List => w.serverLists(asked) && !StartsWith(w.reply(asked), "upload") && !StartsWith(w.reply(asked), "download")
    case ReadF => !StartsWith(w.reply(asked), "upload") && !StartsWith(w.reply(asked), "download")
    case WriteT => !StartsWith(w.reply(asked), "upload") && !StartsWith(w.reply(asked), "download")
    case _ => true
  }

  /** If nothing disturbs a transfer, only the commands without a response bring the
      session to a halt. */
  lemma MatchedCommandsThatHang(w: World, typed: string -> bool)
    requires forall text :: typed(text) ==> Ordinary(text)
    requires forall asked :: AllTyped(typed, asked) ==> Undisturbed(w, asked)
    ensures NeverHangs(Real(w), typed) <==> forall text :: typed(text) ==> !LeavesClientWaiting(text)
  {
    CommandsThatHang(w, typed);
    forall asked | AllTyped(typed, asked) ensures Sustained(w, asked) {
      assert Undisturbed(w, asked);
      forall past | AllTyped(typed, past) ensures Matched(CourseOf(w, past)) {
        assert Undisturbed(w, past);
      }
      NoSurplus(Real(w), typed, asked);
    }
  }

  // ------------------------------------------------------------ inputs that end a session

  lemma SurplusSnoc(h: Handler, asked: seq<string>, text: string)
    ensures Surplus(h, asked + [text]) == Surplus(h, asked) + Delta(h.course(asked + [text]))
  {
    assert (asked + [text])[..|asked|] == asked;
  }

  lemma FirstCommand(w: World, typed: string -> bool, text: string)
    requires forall text :: typed(text) ==> Ordinary(text)
    requires typed(text)
    requires Unlisted(w, [text]) || CourseOf(w, [text]).Exits? || Delta(CourseOf(w, [text])) < 0
    ensures !NeverHangs(Real(w), typed)
  {
    CommandsThatHang(w, typed);
    assert AllTyped(typed, [text]);
    SurplusSnoc(Real(w), [], text);
    assert [] + [text] == [text];
    assert !Sustained(w, [text]);
  }

  /** The download of a file that the server lacks or the client cannot create. */
  lemma DownloadHangs(w: World, typed: string -> bool, text: string)
    requires forall text :: typed(text) ==> Ordinary(text)
    requires typed(text) && Classify(text).Download? && !(w.serverHas([text]) && w.clientMakes([text]))
    ensures !NeverHangs(Real(w), typed)
  {
    FirstCommand(w, typed, text);
  }

  /** The text that comes back when the file to write cannot be opened starts like a
      download. */
  lemma EchoedTextHangs(w: World, typed: string -> bool, text: string)
    requires forall text :: typed(text) ==> Ordinary(text)
    requires typed(text) && Classify(text).WriteT? && StartsWith(w.reply([text]), "download")
    ensures !NeverHangs(Real(w), typed)
  {
    OtherWord(w.reply([text]), "download", "upload");
    FirstCommand(w, typed, text);
  }

  lemma FirstLetter(s: string, prefix: string)
    requires StartsWith(s, prefix) && |prefix| > 0
    ensures s[0] == prefix[0]
  {
    assert s[..|prefix|][0] == s[0];
  }

  lemma OtherWord(s: string, prefix: string, other: string)
    requires StartsWith(s, prefix) && |prefix| > 0 && |other| > 0 && prefix[0] != other[0]
    ensures !StartsWith(s, other)
  {
    FirstLetter(s, prefix);
    if StartsWith(s, other) {
      FirstLetter(s, other);
    }
  }

  /** One upload that the server cannot keep is survived, the second is not. */
  lemma SecondLostUploadHangs(w: World, typed: string -> bool, text: string)
    requires forall text :: typed(text) ==> Ordinary(text)
    requires typed(text) && Classify(text).Upload? && !w.serverMakes([text]) && !w.serverMakes([text, text])
    ensures !NeverHangs(Real(w), typed)
  {
    LostUpload(w, [text]);
    LostUpload(w, [text, text]);
    if w.clientHas([text]) {
      CommandsThatHang(w, typed);
      assert AllTyped(typed, [text, text]);
      TwiceLost(w, text);
    } else {
      FirstCommand(w, typed, text);
    }
  }

  lemma TwiceLost(w: World, text: string)
    requires CourseOf(w, [text]).StraySend? && (CourseOf(w, [text, text]).StraySend? || CourseOf(w, [text, text]).Exits?)
    ensures !Sustained(w, [text, text])
  {
    SurplusOfTwo(Real(w), text);
  }

  lemma SurplusOfTwo(h: Handler, text: string)
    ensures Surplus(h, [text, text]) == Delta(h.course([text])) + Delta(h.course([text, text]))
  {
    SurplusSnoc(h, [], text);
    SurplusSnoc(h, [text], text);
    assert [] + [text] == [text] && [text] + [text] == [text, text];
  }

  lemma LostUpload(w: World, asked: seq<string>)
    requires |asked| > 0 && Classify(asked[|asked| - 1]).Upload? && !w.serverMakes(asked)
    ensures CourseOf(w, asked) == if w.clientHas(asked) then StraySend else Exits(NoFork, true)
  {
  }
}
