/** What the single commands of a session do, by the words that are typed. */
module SessionCommands {
  import opened Numerals
  import opened Session

  // ------------------------------------------------------------ words

  function Spaced(words: seq<string>): string
    requires |words| > 0
  {
    if |words| == 1 then words[0] else words[0] + " " + Spaced(words[1..])
  }

  /** The words of a text hold no space and, with one space between them, are the text. */
  lemma {:induction false} WordsSpaced(text: string)
    ensures Spaced(Words(text)) == text
    ensures forall i :: 0 <= i < |Words(text)| ==> ' ' !in Words(text)[i]
    decreases |text|
  {
    if |text| > 0 {
      var rest := Words(text[1..]);
      WordsSpaced(text[1..]);
      assert text == [text[0]] + text[1..];
      if text[0] == ' ' {
        assert ([""] + rest)[1..] == rest;
      } else {
        assert ([[text[0]] + rest[0]] + rest[1..])[1..] == rest[1..];
      }
    }
  }

  lemma {:induction false} WordsPrefix(word: string, tail: string)
    requires ' ' !in word
    ensures Words(word + " " + tail) == [word] + Words(tail)
    decreases |word|
  {
    var text := word + " " + tail;
    if |word| == 0 {
      assert text[1..] == tail;
    } else {
      assert text[0] == word[0] && text[1..] == word[1..] + " " + tail;
      WordsPrefix(word[1..], tail);
      assert [word[0]] + word[1..] == word;
    }
  }

  lemma {:induction false} OneWord(word: string)
    requires ' ' !in word
    ensures Words(word) == [word]
    decreases |word|
  {
    if |word| > 0 {
      OneWord(word[1..]);
      assert [word[0]] + word[1..] == word;
    }
  }

  /** And words without spaces, put together, are told apart again. */
  lemma {:induction false} SpacedWords(words: seq<string>)
    requires |words| > 0 && forall i :: 0 <= i < |words| ==> ' ' !in words[i]
    ensures Words(Spaced(words)) == words
    decreases |words|
  {
    if |words| == 1 {
      OneWord(words[0]);
    } else {
      SpacedWords(words[1..]);
      WordsPrefix(words[0], Spaced(words[1..]));
    }
  }

  // ------------------------------------------------------------ commands

  /** The commands, by their words. */
  lemma Commands(text: string)
    ensures var words := Words(text);
            && (Classify(text).Help? <==> words[0] == "help" && |words| <= 2)
            && (Classify(text).List? <==> words == ["list"])
            && (Classify(text).ReadF? <==> words[0] == "readF" && 2 <= |words| <= 3)
            && (Classify(text).WriteT? <==> words[0] == "writeT" && 3 <= |words| <= 4)
            && (Classify(text).Upload? <==> words[0] == "upload" && |words| == 2)
            && (Classify(text).Download? <==> words[0] == "download" && |words| == 2)
            && (Classify(text).Archive? <==> words[0] == "arcServer" && |words| == 2)
            && (Classify(text).Kill? <==> words == ["killServer"])
            && (Classify(text).Quit? <==> words == ["quit"])
  {
  }

  /** The commands without a response. */
  lemma Unanswered(text: string)
    ensures var words := Words(text);
            Responds(text) <==>
            && !(words[0] == "readF" && (|words| == 2 || (|words| == 3 && Atoi(words[2]) <= 0)))
            && !(words[0] == "arcServer" && |words| == 2)
            && words != ["killServer"]
  {
    Commands(text);
  }

  /** A command is answered unless it is one of these, or a list of a folder that cannot
      be opened. */
  lemma AnswersExactly(w: World, asked: seq<string>, text: string)
    ensures Answers(w, asked + [text]) <==>
            Responds(text) && !(Words(text) == ["list"] && !w.serverLists(asked + [text]))
  {
    Commands(text);
  }

  /** A number that was printed is read as that number. */
  lemma LineNumbers(n: int)
    ensures Atoi(PrintInt(n)) == n
  {
    ReadBack(n);
  }

  // ------------------------------------------------------------ one command

  lemma RealAnswers(w: World, asked: seq<string>)
    requires |asked| > 0
    ensures Real(w).answers(asked) == Answers(w, asked)
    ensures Real(w).course(asked) == CourseOf(w, asked) && Real(w).reply(asked) == w.reply(asked)
  {
  }

  /** A command that is answered, typed while all is at rest, up to the response. */
  lemma AnsweredRuns(w: World, typed: string -> bool, s: State, text: string, c: Course) returns (t: State)
    requires Reach(Real(w), typed, s) && Resting(Real(w), s, s.asked) && typed(text)
    requires Answers(w, s.asked + [text]) && CourseOf(w, s.asked + [text]) == c
    ensures Reach(Real(w), typed, t)
    ensures t == AfterReply(c, Forked(c, s.(asked := s.asked + [text], heard := s.asked + [text],
                                            got := s.got + [Response(w.reply(s.asked + [text]))])))
  {
    RealAnswers(w, s.asked + [text]);
    t := ReadNext(Real(w), typed, s, text);
  }

  // ------------------------------------------------------------ transfers

  lemma UploadCourse(w: World, asked: seq<string>, file: string)
    requires |asked| > 0 && Words(asked[|asked| - 1]) == ["upload", file]
    ensures Answers(w, asked)
    ensures CourseOf(w, asked) == if w.clientHas(asked) then (if w.serverMakes(asked) then Uploads else StraySend)
                                  else Exits(if w.serverMakes(asked) then Receiver else NoFork, true)
  {
    var text := asked[|asked| - 1];
    Commands(text);
    Unanswered(text);
    assert Classify(text).Upload?;
  }

  /** An upload, typed while all is at rest: the client sends if it has the file and
      exits otherwise, a fork waits to receive if the server can create the file, and the
      shared memory is there. */
  lemma UploadStarts(w: World, typed: string -> bool, s: State, text: string, file: string) returns (t: State)
    requires Reach(Real(w), typed, s) && Resting(Real(w), s, s.asked)
    requires typed(text) && Words(text) == ["upload", file]
    ensures Reach(Real(w), typed, t) && t.made
    ensures var asked := s.asked + [text];
            t == s.(asked := asked, heard := asked, got := s.got + [Response(w.reply(asked))], made := true,
                    client := if w.clientHas(asked) then Sends else Gone,
                    receivers := if w.serverMakes(asked) then 1 else 0)
  {
    var asked := s.asked + [text];
    UploadCourse(w, asked, file);
    var c := if w.clientHas(asked) then (if w.serverMakes(asked) then Uploads else StraySend)
             else Exits(if w.serverMakes(asked) then Receiver else NoFork, true);
    t := AnsweredRuns(w, typed, s, text, c);
  }

  /** If both sides can, one send and one receive bring them back to rest with the
      semaphores as they were. */
  lemma UploadEnds(w: World, typed: string -> bool, s: State, text: string, file: string) returns (t: State)
    requires Reach(Real(w), typed, s) && Resting(Real(w), s, s.asked) && 0 <= s.ready <= 1
    requires typed(text) && Words(text) == ["upload", file]
    requires w.clientHas(s.asked + [text]) && w.serverMakes(s.asked + [text])
    ensures Reach(Real(w), typed, t) && Resting(Real(w), t, s.asked + [text])
    ensures t.room == s.room && t.ready == s.ready
  {
    var asked := s.asked + [text];
    t := UploadStarts(w, typed, s, text, file);
    t := UploadNext(Real(w), typed, t);
    SurplusSnoc(Real(w), s.asked, text);
    UploadCourse(w, asked, file);
    RealAnswers(w, asked);
  }

  lemma DownloadCourse(w: World, asked: seq<string>, file: string)
    requires |asked| > 0 && Words(asked[|asked| - 1]) == ["download", file]
    ensures Answers(w, asked)
    ensures CourseOf(w, asked) == if w.clientMakes(asked) then (if w.serverHas(asked) then Downloads else FetchesNothing)
                                  else Exits(if w.serverHas(asked) then Sender else LostSender, false)
  {
    var text := asked[|asked| - 1];
    Commands(text);
    Unanswered(text);
    assert Classify(text).Download?;
  }

  /** A download, typed while all is at rest: a fork is to send if the server has the
      file, the client fetches if it can create the file and exits otherwise, and the
      shared memory is there. */
  lemma DownloadStarts(w: World, typed: string -> bool, s: State, text: string, file: string) returns (t: State)
    requires Reach(Real(w), typed, s) && Resting(Real(w), s, s.asked)
    requires typed(text) && Words(text) == ["download", file]
    ensures Reach(Real(w), typed, t) && t.made
    ensures var asked := s.asked + [text];
            t == s.(asked := asked, heard := asked, got := s.got + [Response(w.reply(asked))], made := true,
                    client := if w.clientMakes(asked) then Fetches else Gone,
                    senders := if w.serverHas(asked) then 1 else 0)
  {
    var asked := s.asked + [text];
    DownloadCourse(w, asked, file);
    t := AnsweredRuns(w, typed, s, text, CourseOf(w, asked));
  }

  /** If both sides can, one send and one receive bring them back to rest with the
      semaphores as they were. */
  lemma DownloadEnds(w: World, typed: string -> bool, s: State, text: string, file: string) returns (t: State)
    requires Reach(Real(w), typed, s) && Resting(Real(w), s, s.asked) && 0 <= s.ready <= 1
    requires typed(text) && Words(text) == ["download", file]
    requires w.serverHas(s.asked + [text]) && w.clientMakes(s.asked + [text])
    ensures Reach(Real(w), typed, t) && Resting(Real(w), t, s.asked + [text])
    ensures t.room == s.room && t.ready == s.ready
  {
    var asked := s.asked + [text];
    t := DownloadStarts(w, typed, s, text, file);
    t := DownloadNext(Real(w), typed, t);
    SurplusSnoc(Real(w), s.asked, text);
    DownloadCourse(w, asked, file);
    RealAnswers(w, asked);
  }

  // ------------------------------------------------------------ the other commands

  /** The responses that hold names, a line, or the user's own text. */
  predicate FreeText(words: seq<string>) {
    || words == ["list"]
    || (|words| == 3 && words[0] == "readF")
    || (3 <= |words| <= 4 && words[0] == "writeT")
  }

  lemma OtherCourse(w: World, asked: seq<string>)
    requires |asked| > 0 && Answers(w, asked)
    requires Words(asked[|asked| - 1])[0] != "upload" && Words(asked[|asked| - 1])[0] != "download"
    ensures var free, reply := FreeText(Words(asked[|asked| - 1])), w.reply(asked);
            CourseOf(w, asked) == if free && StartsWith(reply, "upload") then (if w.clientHas(asked) then StraySend else Exits(NoFork, true))
                                  else if free && StartsWith(reply, "download") then (if w.clientMakes(asked) then StrayFetch else Exits(NoFork, false))
                                  else Plain
  {
    Commands(asked[|asked| - 1]);
    Unanswered(asked[|asked| - 1]);
  }

  /** Any other command that is answered forks nothing.  If the response is that of list,
      readF or writeT, the client goes by how it starts; otherwise it is ready for the
      next command. */
  lemma OtherCommandRuns(w: World, typed: string -> bool, s: State, text: string) returns (t: State)
    requires Reach(Real(w), typed, s) && Resting(Real(w), s, s.asked) && typed(text)
    requires Answers(w, s.asked + [text]) && Words(text)[0] != "upload" && Words(text)[0] != "download"
    ensures Reach(Real(w), typed, t)
    ensures var asked := s.asked + [text];
            var free, reply := FreeText(Words(text)), w.reply(asked);
            t == s.(asked := asked, heard := asked, got := s.got + [Response(reply)], made := t.made,
                    client := if free && StartsWith(reply, "upload") then (if w.clientHas(asked) then Sends else Gone)
                              else if free && StartsWith(reply, "download") then (if w.clientMakes(asked) then Fetches else Gone)
                              else Composing)
  {
    var asked := s.asked + [text];
    OtherCourse(w, asked);
    t := AnsweredRuns(w, typed, s, text, CourseOf(w, asked));
  }

  /** At the start all is at rest. */
  lemma StartsAtRest(w: World, typed: string -> bool)
    ensures Reach(Real(w), typed, INIT) && Resting(Real(w), INIT, [])
    ensures INIT.room == 1 && INIT.ready == 0 && !INIT.made
  {
    assert Runs(Real(w), typed, INIT, []) && Exec(Real(w), typed, INIT, []) == INIT;
  }
}
