/** Editing a file by line number with byte offsets.

    The server finds the byte offset of a line, spills the rest of the file into
    a temporary one, truncates, appends the new line and copies the rest back. */
module LineFile {
  import opened Lines

  const BUFF_SIZE := 256

  /** An open file: contents, offset, and whether writes go to the end. */
  class File {
    var bytes: string
    var pos: nat
    const append: bool

    constructor (bytes: string, append: bool)
      ensures this.bytes == bytes && pos == 0 && this.append == append
    {
      this.bytes, this.pos, this.append := bytes, 0, append;
    }

    /** Reads some bytes, at least one unless the end is reached. */
    method Read(max: nat) returns (buf: string)
      requires pos <= |bytes| && max > 0
      modifies this`pos
      ensures |buf| <= max && pos == old(pos) + |buf| <= |bytes| && buf == bytes[old(pos)..pos]
      ensures |buf| == 0 <==> old(pos) == |bytes|
    {
      if pos == |bytes| {
        return "";
      }
      var k :| 1 <= k <= max && pos + k <= |bytes|;
      buf := bytes[pos..pos + k];
      pos := pos + k;
    }

    method Write(s: string)
      requires pos <= |bytes|
      modifies this
      ensures append || old(pos) == |old(bytes)| ==> bytes == old(bytes) + s
      ensures pos <= |bytes| && (append || old(pos) == |old(bytes)| ==> pos == |bytes|)
    {
      if append {
        pos := |bytes|;
      }
      bytes := bytes[..pos] + s + if pos + |s| <= |bytes| then bytes[pos + |s|..] else "";
      pos := pos + |s|;
    }

    method Seek(offset: nat)
      requires offset <= |bytes|
      modifies this`pos
      ensures pos == offset
    {
      pos := offset;
    }

    method Truncate(length: nat)
      requires length <= |bytes|
      modifies this`bytes
      ensures bytes == old(bytes)[..length]
    {
      bytes := bytes[..length];
    }
  }

  // ------------------------------------------------------------ what the operations mean

  /** Where line `n` starts, counting from 1; the start of the file when there is no
      such line to insert before. */
  function Offset(s: string, n: int): nat {
    if 1 <= n <= |Parse(s).lines| + 1 then |Unlines(Parse(s).lines[..n - 1], "")| else 0
  }

  lemma OffsetInFile(s: string, n: int)
    ensures Offset(s, n) <= |s|
  {
    if 1 <= n <= |Parse(s).lines| + 1 {
      var d := Parse(s);
      UnlinesConcat(d.lines[..n - 1], d.lines[n - 1..], d.rest);
      assert d.lines[..n - 1] + d.lines[n - 1..] == d.lines;
    }
  }

  /** The file with `text` put in at the offset of line `n`. */
  function Inserted(s: string, n: int, text: string): string {
    OffsetInFile(s, n);
    s[..Offset(s, n)] + text + s[Offset(s, n)..]
  }

  /** What readF returns: the line, or what follows the last newline when there are
      not that many. */
  function LineAt(s: string, k: int): string {
    if 1 <= k <= |Parse(s).lines| then Parse(s).lines[k - 1] else Parse(s).rest
  }

  /** A text made up of lines and a rest reads as just these: line `k` is the `k`-th, and
      any number that none of them has reads the rest, an unterminated last line. */
  lemma ReadsTheLines(lines: seq<string>, rest: string, k: int)
    requires Good(Doc(lines, rest))
    ensures 1 <= k <= |lines| ==> LineAt(Unlines(lines, rest), k) == lines[k - 1]
    ensures !(1 <= k <= |lines|) ==> LineAt(Unlines(lines, rest), k) == rest
  {
    ParseUnlines(Doc(lines, rest));
  }

  /** Text goes in between the lines before `n` and the others; a number that is neither
      that of a line nor the next one puts it at the top. */
  lemma PutsBetweenLines(lines: seq<string>, rest: string, n: int, text: string)
    requires Good(Doc(lines, rest))
    ensures 1 <= n <= |lines| + 1 ==>
              Inserted(Unlines(lines, rest), n, text) == Unlines(lines[..n - 1], "") + text + Unlines(lines[n - 1..], rest)
    ensures !(1 <= n <= |lines| + 1) ==> Inserted(Unlines(lines, rest), n, text) == text + Unlines(lines, rest)
  {
    var s := Unlines(lines, rest);
    ParseUnlines(Doc(lines, rest));
    OffsetCuts(s, n);
  }

  // ------------------------------------------------------------ the operations

  /** The scan for the offset; a newline before the wanted line ends it, and so does
      a first character that is not a newline when line 1 is wanted. */
  method FindOffset(src: File, n: int) returns (nthLineOffset: nat)
    requires src.pos == 0
    modifies src`pos
    ensures nthLineOffset == Offset(src.bytes, n) && src.pos <= |src.bytes|
  {
    nthLineOffset := 0;
    var offset := 0;
    var newlineCount := 0;
    assert Offset(src.bytes, 1) == 0;
    assert src.bytes[..0] == "";
    while true
      invariant offset == src.pos <= |src.bytes| && nthLineOffset == 0
      invariant newlineCount == |Parse(src.bytes[..offset]).lines|
      invariant n >= 2 ==> newlineCount < n - 1
      invariant n == 1 && offset > 0 ==> newlineCount > 0
      decreases |src.bytes| - offset
    {
      var buf := src.Read(1);
      if |buf| == 0 {
        assert src.bytes[..offset] == src.bytes;
        break;
      }
      var c := buf[0];
      assert src.bytes[..offset + 1] == src.bytes[..offset] + [c];
      ParseSnoc(src.bytes[..offset], c);
      if c == '\n' {
        newlineCount := newlineCount + 1;
        if newlineCount == n - 1 {
          nthLineOffset := offset + 1;
          PrefixLines(src.bytes, offset + 1);
          break;
        }
      }
      if newlineCount == n - 1 {
        break;
      }
      offset := offset + 1;
    }
  }

  method CreateTempAndDelete(src: File, dst: File, n: int)
    requires src != dst && src.pos == 0 && dst.bytes == "" && dst.pos == 0
    modifies src, dst
    ensures Offset(old(src.bytes), n) <= |old(src.bytes)|
    ensures src.bytes == old(src.bytes)[..Offset(old(src.bytes), n)]
    ensures dst.bytes == old(src.bytes)[Offset(old(src.bytes), n)..] && dst.pos <= |dst.bytes|
  {
    var nthLineOffset := FindOffset(src, n);
    OffsetInFile(src.bytes, n);
    src.Seek(nthLineOffset);
    while true
      invariant src.bytes == old(src.bytes) && nthLineOffset <= src.pos <= |src.bytes|
      invariant dst.bytes == src.bytes[nthLineOffset..src.pos] && dst.pos == |dst.bytes|
      decreases |src.bytes| - src.pos
    {
      var buf := src.Read(BUFF_SIZE);
      if |buf| == 0 {
        break;
      }
      dst.Write(buf);
    }
    src.Truncate(nthLineOffset);
  }

  method AppendToFile(file: File, text: string)
    modifies file
    ensures file.bytes == old(file.bytes) + text && file.pos == |file.bytes|
  {
    file.Seek(|file.bytes|);
    file.Write(text);
  }

  method CopyTempAndDelete(src: File, dst: File)
    requires src != dst
    modifies src, dst`pos
    ensures src.bytes == old(src.bytes) + dst.bytes
  {
    src.Seek(|src.bytes|);
    dst.Seek(0);
    while true
      invariant dst.pos <= |dst.bytes| && src.bytes == old(src.bytes) + dst.bytes[..dst.pos] && src.pos == |src.bytes|
      decreases |dst.bytes| - dst.pos
    {
      var buf := dst.Read(BUFF_SIZE);
      if |buf| == 0 {
        break;
      }
      src.Write(buf);
    }
    assert dst.bytes[..dst.pos] == dst.bytes;
  }

  method WriteTMiddle(file: File, lineNum: int, text: string)
    requires file.pos == 0
    modifies file
    ensures file.bytes == Inserted(old(file.bytes), lineNum, text)
  {
    var temp := new File("", false);
    CreateTempAndDelete(file, temp, lineNum);
    AppendToFile(file, text);
    CopyTempAndDelete(file, temp);
  }

  const AT_END := -1

  /** writeT: line number -1 stands for a missing one, and appends. */
  method WriteT(file: File, lineNum: int, text: string)
    requires file.pos == 0
    modifies file
    ensures file.bytes == if lineNum == -1 then old(file.bytes) + (text + "\n")
                          else Inserted(old(file.bytes), lineNum, text + "\n")
  {
    if lineNum == AT_END {
      AppendToFile(file, text + "\n");
    } else {
      WriteTMiddle(file, lineNum, text + "\n");
    }
  }

  /** readF: collects characters, and forgets them at the end of every other line. */
  method ReadF(file: File, lineNum: int) returns (line: string)
    requires file.pos == 0
    modifies file`pos
    ensures line == LineAt(file.bytes, lineNum)
  {
    line := "";
    var lineNumber := 1;
    assert file.bytes[..0] == "";
    while true
      invariant file.pos <= |file.bytes|
      invariant line == Parse(file.bytes[..file.pos]).rest
      invariant lineNumber == |Parse(file.bytes[..file.pos]).lines| + 1
      invariant lineNum >= 1 ==> lineNumber <= lineNum
      decreases |file.bytes| - file.pos
    {
      ghost var before := file.pos;
      var buf := file.Read(1);
      if |buf| == 0 {
        assert file.bytes[..file.pos] == file.bytes;
        break;
      }
      assert file.bytes[..file.pos] == file.bytes[..before] + [buf[0]];
      ParseSnoc(file.bytes[..before], buf[0]);
      if buf[0] != '\n' {
        line := line + [buf[0]];
      } else if lineNumber == lineNum {
        PrefixLines(file.bytes, file.pos);
        return;
      } else {
        line := "";
        lineNumber := lineNumber + 1;
      }
    }
  }

  // ------------------------------------------------------------ what they guarantee

  /** The index in the list of lines that line number `n` stands for. */
  function Index(s: string, n: int): nat {
    if 1 <= n <= |Parse(s).lines| + 1 then n - 1 else 0
  }

  lemma OffsetCuts(s: string, n: int)
    ensures var d := Parse(s);
            && Offset(s, n) <= |s| && Index(s, n) <= |d.lines|
            && s[..Offset(s, n)] == Unlines(d.lines[..Index(s, n)], "")
            && s[Offset(s, n)..] == Unlines(d.lines[Index(s, n)..], d.rest)
  {
    var d := Parse(s);
    var a, b := d.lines[..Index(s, n)], d.lines[Index(s, n)..];
    assert d.lines == a + b;
    UnlinesConcat(a, b, d.rest);
  }

  /** Inserting at a byte offset is inserting a line into the list of lines.  A line
      number beyond the one after the last line, or below 1, inserts at the top. */
  lemma InsertRefinesLines(s: string, n: int, t: string)
    requires OneLine(t)
    ensures Index(s, n) <= |Parse(s).lines|
    ensures Parse(Inserted(s, n, t + "\n")) ==
            Doc(Parse(s).lines[..Index(s, n)] + [t] + Parse(s).lines[Index(s, n)..], Parse(s).rest)
  {
    var d, at := Parse(s), Index(s, n);
    OffsetCuts(s, n);
    InsertedText(d.lines[..at], d.lines[at..], d.rest, t);
    ParseUnlines(Doc(d.lines[..at] + [t] + d.lines[at..], d.rest));
  }

  lemma InsertedText(a: seq<string>, b: seq<string>, rest: string, t: string)
    ensures Unlines(a, "") + (t + "\n") + Unlines(b, rest) == Unlines(a + [t] + b, rest)
  {
    UnlinesConcat(a, [t] + b, rest);
    assert a + [t] + b == a + ([t] + b);
    assert ([t] + b)[1..] == b;
  }

  /** After writing line `n`, line `n` reads back, the lines before it are unchanged
      and the others have moved down by one, an unterminated last line included. */
  lemma WriteThenRead(s: string, n: int, t: string, k: int)
    requires OneLine(t) && 1 <= n <= |Parse(s).lines| + 1
    ensures LineAt(Inserted(s, n, t + "\n"), n) == t
    ensures 1 <= k < n ==> LineAt(Inserted(s, n, t + "\n"), k) == LineAt(s, k)
    ensures k >= n ==> LineAt(Inserted(s, n, t + "\n"), k + 1) == LineAt(s, k)
  {
    InsertRefinesLines(s, n, t);
  }

  /** What is written at line `n` reads back as line `n`, whatever it is, if and only
      if the file has at least `n - 1` whole lines. */
  lemma WriteReadsBackExactly(s: string, n: int)
    ensures (forall t :: OneLine(t) ==> LineAt(Inserted(s, n, t + "\n"), n) == t) <==> 1 <= n <= |Parse(s).lines| + 1
  {
    if 1 <= n <= |Parse(s).lines| + 1 {
      forall t | OneLine(t) ensures LineAt(Inserted(s, n, t + "\n"), n) == t {
        WriteThenRead(s, n, t, n);
      }
    } else {
      var t := Parse(s).rest + "x";
      InsertRefinesLines(s, n, t);
      assert LineAt(Inserted(s, n, t + "\n"), n) == Parse(s).rest != t;
    }
  }

  /** Appending finishes an unterminated last line; it adds the text as a line of its
      own if and only if there is none. */
  lemma AppendRefinesLines(s: string, t: string)
    requires OneLine(t)
    ensures Parse(s + (t + "\n")) == Doc(Parse(s).lines + [Parse(s).rest + t], "")
    ensures Parse(s + (t + "\n")).lines == Parse(s).lines + [t] <==> Parse(s).rest == ""
  {
    AppendedText(Parse(s).lines, Parse(s).rest, t);
    ParseUnlines(Doc(Parse(s).lines + [Parse(s).rest + t], ""));
    if Parse(s).rest != "" {
      assert Parse(s + (t + "\n")).lines[|Parse(s).lines|] == Parse(s).rest + t != t;
    } else {
      assert Parse(s).rest + t == t;
    }
  }

  lemma {:induction false} AppendedText(lines: seq<string>, rest: string, t: string)
    ensures Unlines(lines, rest) + (t + "\n") == Unlines(lines + [rest + t], "")
    decreases |lines|
  {
    if |lines| == 0 {
      assert lines + [rest + t] == [rest + t];
      assert Unlines([rest + t], "") == rest + t + "\n" + "";
    } else {
      AppendedText(lines[1..], rest, t);
      assert (lines + [rest + t])[0] == lines[0] && (lines + [rest + t])[1..] == lines[1..] + [rest + t];
      assert Unlines(lines, rest) + (t + "\n") == lines[0] + "\n" + (Unlines(lines[1..], rest) + (t + "\n"));
    }
  }
}
