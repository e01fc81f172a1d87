/** A text as lines: the terminated ones, and what follows the last newline. */
module Lines {

  datatype Doc = Doc(lines: seq<string>, rest: string)

  predicate OneLine(s: string) {
    '\n' !in s
  }

  ghost predicate Good(d: Doc) {
    OneLine(d.rest) && forall i :: 0 <= i < |d.lines| ==> OneLine(d.lines[i])
  }

  function Unlines(lines: seq<string>, rest: string): string {
    if |lines| == 0 then rest else lines[0] + "\n" + Unlines(lines[1..], rest)
  }

  function Parse(s: string): (d: Doc)
    ensures Good(d) && Unlines(d.lines, d.rest) == s
  {
    if |s| == 0 then Doc([], "")
    else
      var d := Parse(s[1..]);
      if s[0] == '\n' then
        Doc([""] + d.lines, d.rest)
      else if |d.lines| == 0 then
        Doc([], [s[0]] + d.rest)
      else
        assert s == [s[0]] + s[1..];
        assert ([[s[0]] + d.lines[0]] + d.lines[1..])[1..] == d.lines[1..];
        Doc([[s[0]] + d.lines[0]] + d.lines[1..], d.rest)
  }

  lemma {:induction false} ParseLine(l: string, y: string)
    requires OneLine(l)
    ensures Parse(l + "\n" + y) == Doc([l] + Parse(y).lines, Parse(y).rest)
    decreases |l|
  {
    var s := l + "\n" + y;
    if |l| == 0 {
      assert s[1..] == y;
    } else {
      assert s[1..] == l[1..] + "\n" + y;
      ParseLine(l[1..], y);
      assert [s[0]] + l[1..] == l;
    }
  }

  lemma {:induction false} ParseRest(r: string)
    requires OneLine(r)
    ensures Parse(r) == Doc([], r)
    decreases |r|
  {
    if |r| > 0 {
      ParseRest(r[1..]);
      assert [r[0]] + r[1..] == r;
    }
  }

  lemma PutFirst(ls: seq<string>, more: seq<string>)
    requires |ls| > 0
    ensures [ls[0]] + (ls[1..] + more) == ls + more
  {
  }

  lemma NothingFirst(more: seq<string>)
    ensures [] + more == more
  {
  }

  /** Whole lines in front of a text are lines of the whole. */
  lemma {:induction false} ParseLines(ls: seq<string>, y: string)
    requires forall i :: 0 <= i < |ls| ==> OneLine(ls[i])
    ensures Parse(Unlines(ls, y)) == Doc(ls + Parse(y).lines, Parse(y).rest)
    decreases |ls|
  {
    if |ls| > 0 {
      var u, d := Unlines(ls[1..], y), Parse(y);
      ParseLines(ls[1..], y);
      ParseLine(ls[0], u);
      PutFirst(ls, d.lines);
    } else {
      NothingFirst(Parse(y).lines);
    }
  }

  /** Lines without newlines are what the text they make up parses into. */
  lemma ParseUnlines(d: Doc)
    requires Good(d)
    ensures Parse(Unlines(d.lines, d.rest)) == d
  {
    ParseRest(d.rest);
    ParseLines(d.lines, d.rest);
    assert d.lines + [] == d.lines;
  }

  lemma {:induction false} UnlinesConcat(a: seq<string>, b: seq<string>, rest: string)
    ensures Unlines(a + b, rest) == Unlines(a, Unlines(b, rest)) == Unlines(a, "") + Unlines(b, rest)
    decreases |a|
  {
    if |a| == 0 {
      assert a + b == b;
    } else {
      assert (a + b)[0] == a[0] && (a + b)[1..] == a[1..] + b;
      UnlinesConcat(a[1..], b, rest);
    }
  }

  /** One more character. */
  lemma {:induction false} ParseSnoc(s: string, c: char)
    ensures Parse(s + [c]) == if c == '\n' then Doc(Parse(s).lines + [Parse(s).rest], "")
                              else Doc(Parse(s).lines, Parse(s).rest + [c])
  {
    var d := Parse(s);
    UnlinesSnoc(d.lines, d.rest, c);
    if c == '\n' {
      ParseLine(d.rest, "");
      ParseLines(d.lines, d.rest + "\n" + "");
      assert d.rest + "\n" + "" == d.rest + ['\n'];
    } else {
      ParseRest(d.rest + [c]);
      ParseLines(d.lines, d.rest + [c]);
      assert d.lines + [] == d.lines;
    }
  }

  lemma {:induction false} UnlinesSnoc(lines: seq<string>, rest: string, c: char)
    ensures Unlines(lines, rest) + [c] == Unlines(lines, rest + [c])
    decreases |lines|
  {
    if |lines| > 0 {
      UnlinesSnoc(lines[1..], rest, c);
      assert lines[0] + "\n" + Unlines(lines[1..], rest) + [c] == lines[0] + "\n" + (Unlines(lines[1..], rest) + [c]);
    }
  }

  /** A prefix that ends in a newline consists of the first lines. */
  lemma PrefixLines(s: string, m: nat)
    requires m <= |s| && Parse(s[..m]).rest == ""
    ensures var k := |Parse(s[..m]).lines|;
            && k <= |Parse(s).lines| && Parse(s).lines[..k] == Parse(s[..m]).lines
            && m == |Unlines(Parse(s).lines[..k], "")|
  {
    var d := Parse(s[..m]);
    UnlinesConcat(d.lines, [], s[m..]);
    assert d.lines + [] == d.lines;
    assert s == s[..m] + s[m..] == Unlines(d.lines, "") + s[m..];
    ParseLines(d.lines, s[m..]);
  }
}
