/** What the processes of hw2_2024 compute together. */
module CodecTheorems {
  import opened Numerals
  import opened Codec

  /** Neither a digit nor a minus sign. */
  predicate Separator(c: char) {
    !IsDigit(c) && c != '-'
  }

  function Printeds(arr: seq<int>): (r: seq<string>)
    ensures |r| == |arr|
  {
    seq(|arr|, i requires 0 <= i < |arr| => PrintInt(arr[i]))
  }

  lemma PrintedsSnoc(arr: seq<int>)
    requires |arr| > 0
    ensures Printeds(arr) == Printeds(arr[..|arr| - 1]) + [PrintInt(arr[|arr| - 1])]
  {
  }

  // ------------------------------------------------------------ splitting undoes printing

  lemma {:induction false} PiecesOne(piece: string, l: string, delim: char, rest: string)
    requires Free(l, delim)
    ensures PiecesAfter(piece, l + [delim] + rest, delim) == [piece + l] + PiecesAfter("", rest, delim)
    decreases |l|
  {
    var s := l + [delim] + rest;
    if |l| == 0 {
      assert s[0] == delim && s[1..] == rest && piece + l == piece;
    } else {
      assert s[0] == l[0] && s[1..] == l[1..] + [delim] + rest;
      PiecesOne(piece + [l[0]], l[1..], delim, rest);
      assert piece + [l[0]] + l[1..] == piece + l;
    }
  }

  lemma {:induction false} PiecesPrinted(arr: seq<int>, delim: char, rest: string)
    requires Separator(delim)
    ensures Pieces(PrintedSome(arr, delim) + rest, delim) == Printeds(arr) + Pieces(rest, delim)
    decreases |arr|
  {
    if |arr| == 0 {
      assert PrintedSome(arr, delim) + rest == rest;
      assert Printeds(arr) + Pieces(rest, delim) == Pieces(rest, delim);
    } else {
      var init, last := arr[..|arr| - 1], arr[|arr| - 1];
      var tail := PrintInt(last) + [delim] + rest;
      assert PrintedSome(arr, delim) + rest == PrintedSome(init, delim) + tail;
      PiecesPrinted(init, delim, tail);
      PiecesNumeral(last, delim, rest);
      assert Printeds(arr) + Pieces(rest, delim) == Printeds(init) + ([PrintInt(last)] + Pieces(rest, delim));
    }
  }

  lemma PiecesNumeral(n: int, delim: char, rest: string)
    requires Separator(delim)
    ensures Pieces(PrintInt(n) + [delim] + rest, delim) == [PrintInt(n)] + Pieces(rest, delim)
  {
    PiecesOne("", PrintInt(n), delim, rest);
    assert "" + PrintInt(n) == PrintInt(n);
  }

  /** Splitting what was printed gives back the numerals, one per number. */
  lemma SplitUndoesPrint(arr: seq<int>, delim: char)
    requires Separator(delim) && |arr| > 0
    ensures Pieces(Printed(arr, delim), delim) == Printeds(arr)
  {
    PiecesPrinted(arr, delim, "");
    assert PrintedSome(arr, delim) + "" == PrintedSome(arr, delim);
    assert Printeds(arr) + [] == Printeds(arr);
  }

  // ------------------------------------------------------------ the sum

  /** The numbers before the first negative one. */
  function UpToNegative(arr: seq<int>): (r: seq<int>)
    ensures |r| <= |arr| && r == arr[..|r|] && (|r| < |arr| ==> arr[|r|] < 0)
    ensures forall i :: 0 <= i < |r| ==> r[i] >= 0
  {
    if |arr| == 0 || arr[0] < 0 then [] else [arr[0]] + UpToNegative(arr[1..])
  }

  lemma {:induction false} SumConcat(a: seq<int>, b: seq<int>)
    ensures SumOf(a + b) == SumOf(a) + SumOf(b)
    decreases |b|
  {
    if |b| == 0 {
      assert a + b == a;
    } else {
      assert (a + b)[..|a + b| - 1] == a + b[..|b| - 1];
      SumConcat(a, b[..|b| - 1]);
    }
  }

  lemma {:induction false} SumZeros(n: nat)
    ensures SumOf(seq(n, _ => 0)) == 0
  {
    if n > 0 {
      SumZeros(n - 1);
      assert seq(n, _ => 0)[..n - 1] == seq(n - 1, _ => 0);
    }
  }

  lemma {:induction false} ConvertedSum(arr: seq<int>)
    ensures SumOf(Converted(Printeds(arr))) == SumOf(UpToNegative(arr))
    decreases |arr|
  {
    if |arr| > 0 {
      ReadBack(arr[0]);
      if arr[0] < 0 {
        SumZeros(|arr|);
      } else {
        assert Printeds(arr)[1..] == Printeds(arr[1..]);
        ConvertedSum(arr[1..]);
        SumConcat([arr[0]], Converted(Printeds(arr[1..])));
        SumConcat([arr[0]], UpToNegative(arr[1..]));
        assert [arr[0]][..0] == [];
      }
    }
  }

  /** Print, send, split, convert, add: the sum of the numbers before the first
      negative one, so the sum of all when none is negative. */
  lemma SumRoundTrip(arr: seq<int>, delim: char)
    requires Separator(delim) && |arr| > 0
    ensures FifoSum(Printed(arr, delim), delim) == SumOf(UpToNegative(arr))
    ensures (forall i :: 0 <= i < |arr| ==> arr[i] >= 0) ==> FifoSum(Printed(arr, delim), delim) == SumOf(arr)
  {
    SplitUndoesPrint(arr, delim);
    ConvertedSum(arr);
    assert |UpToNegative(arr)| == |arr| ==> UpToNegative(arr) == arr;
  }

  /** The empty array prints as a delimiter alone, which is read as one number without
      digits, so that its sum comes out as 1. */
  lemma EmptySum(delim: char)
    requires Separator(delim)
    ensures Printed([], delim) == [delim] && FifoSum(Printed([], delim), delim) == 1
  {
    var s := [delim];
    assert s[0] == delim && s[1..] == "";
    assert Pieces(s, delim) == [""] + PiecesAfter("", "", delim) == [""];
    assert Converted([""]) == [1];
    SumLaws([], 1, []);
    assert [] + [1] + [] == [1];
  }

  // ------------------------------------------------------------ the second message

  /** What the parent writes to the second FIFO, and what the first child writes. */
  function ParentMessage(arr: seq<int>): string {
    Printed(arr, COMMA) + MULTIPLY + [COMMA]
  }

  function ChildMessage(sum: int): string {
    IntoStringWithDelim(sum, BANG)
  }

  lemma {:induction false} SplitsComma(acc: Split, piece: string, l: string, rest: string)
    requires Free(l, COMMA) && Free(l, BANG)
    ensures SplitsAfter(acc, piece, l + [COMMA] + rest) ==
            SplitsAfter(acc.(splitted := acc.splitted + [piece + l]), "", rest)
    decreases |l|
  {
    var s := l + [COMMA] + rest;
    if |l| == 0 {
      assert s[0] == COMMA && s[1..] == rest && piece + l == piece;
    } else {
      assert s[0] == l[0] && s[1..] == l[1..] + [COMMA] + rest;
      SplitsComma(acc, piece + [l[0]], l[1..], rest);
      assert piece + [l[0]] + l[1..] == piece + l;
    }
  }

  lemma {:induction false} SplitsBang(acc: Split, piece: string, l: string, rest: string)
    requires Free(l, COMMA) && Free(l, BANG)
    ensures SplitsAfter(acc, piece, l + [BANG] + rest) == SplitsAfter(acc.(compared := piece + l), "", rest)
    decreases |l|
  {
    var s := l + [BANG] + rest;
    if |l| == 0 {
      assert s[0] == BANG && s[1..] == rest && piece + l == piece;
    } else {
      assert s[0] == l[0] && s[1..] == l[1..] + [BANG] + rest;
      SplitsBang(acc, piece + [l[0]], l[1..], rest);
      assert piece + [l[0]] + l[1..] == piece + l;
    }
  }

  lemma {:induction false} SplitsPrinted(acc: Split, arr: seq<int>, rest: string)
    ensures SplitsAfter(acc, "", PrintedSome(arr, COMMA) + rest) ==
            SplitsAfter(acc.(splitted := acc.splitted + Printeds(arr)), "", rest)
    decreases |arr|
  {
    if |arr| == 0 {
      assert PrintedSome(arr, COMMA) + rest == rest;
      assert acc.splitted + Printeds(arr) == acc.splitted;
    } else {
      var init, last := arr[..|arr| - 1], arr[|arr| - 1];
      var tail := PrintInt(last) + [COMMA] + rest;
      assert PrintedSome(arr, COMMA) + rest == PrintedSome(init, COMMA) + tail;
      SplitsPrinted(acc, init, tail);
      var read := acc.(splitted := acc.splitted + Printeds(init));
      SplitsComma(read, "", PrintInt(last), rest);
      assert "" + PrintInt(last) == PrintInt(last);
      PrintedsSnoc(arr);
      assert read.splitted + [PrintInt(last)] == acc.splitted + Printeds(arr);
    }
  }

  lemma MultiplyIsClean()
    ensures Free(MULTIPLY, COMMA) && Free(MULTIPLY, BANG)
  {
  }

  lemma SplitsParent(acc: Split, arr: seq<int>, rest: string)
    requires |arr| > 0
    ensures SplitsAfter(acc, "", ParentMessage(arr) + rest) ==
            SplitsAfter(acc.(splitted := acc.splitted + (Printeds(arr) + [MULTIPLY])), "", rest)
  {
    var tail := MULTIPLY + [COMMA] + rest;
    assert ParentMessage(arr) + rest == PrintedSome(arr, COMMA) + tail;
    SplitsPrinted(acc, arr, tail);
    MultiplyIsClean();
    var read := acc.(splitted := acc.splitted + Printeds(arr));
    SplitsComma(read, "", MULTIPLY, rest);
    assert "" + MULTIPLY == MULTIPLY;
    assert read.splitted + [MULTIPLY] == acc.splitted + (Printeds(arr) + [MULTIPLY]);
  }

  /** Both orders of arrival split into the same pieces. */
  lemma BothOrdersSplit(arr: seq<int>, sum: int)
    requires |arr| > 0
    ensures Splits(ChildMessage(sum) + ParentMessage(arr)) == Split(PrintInt(sum), Printeds(arr) + [MULTIPLY])
    ensures Splits(ParentMessage(arr) + ChildMessage(sum)) == Split(PrintInt(sum), Printeds(arr) + [MULTIPLY])
  {
    var none, p, c := Split("", []), ParentMessage(arr), ChildMessage(sum);
    assert "" + PrintInt(sum) == PrintInt(sum);
    assert [] + (Printeds(arr) + [MULTIPLY]) == Printeds(arr) + [MULTIPLY];
    SplitsBang(none, "", PrintInt(sum), p);
    SplitsParent(none.(compared := PrintInt(sum)), arr, "");
    assert p + "" == p;
    SplitsParent(none, arr, c);
    SplitsBang(none.(splitted := Printeds(arr) + [MULTIPLY]), "", PrintInt(sum), "");
    assert c + "" == c && PrintInt(sum) + [BANG] + "" == c;
  }

  lemma TotalOfPieces(buffer: string, arr: seq<int>, sum: int)
    requires Splits(buffer) == Split(PrintInt(sum), Printeds(arr) + [MULTIPLY])
    ensures SecondTotal(buffer) == ProductOf(arr) + sum
  {
    var s := Splits(buffer);
    assert StartsWith(s.splitted[|arr|], MULTIPLY);
    assert s.splitted[..|s.splitted| - 1] == Printeds(arr);
    forall i | 0 <= i < |arr| ensures ConvertSingle(Printeds(arr)[i]) == arr[i] {
      ReadBack(arr[i]);
    }
    assert Numbers(Printeds(arr)) == arr;
    ReadBack(sum);
  }

  /** Whichever of the two writers comes first, the second child computes the product
      of the numbers plus the sum it was sent, for any numbers and any sum. */
  lemma OrderDoesNotMatter(arr: seq<int>, sum: int)
    requires |arr| > 0
    ensures SecondTotal(ChildMessage(sum) + ParentMessage(arr)) == ProductOf(arr) + sum
    ensures SecondTotal(ParentMessage(arr) + ChildMessage(sum)) == ProductOf(arr) + sum
  {
    BothOrdersSplit(arr, sum);
    TotalOfPieces(ChildMessage(sum) + ParentMessage(arr), arr, sum);
    TotalOfPieces(ParentMessage(arr) + ChildMessage(sum), arr, sum);
  }

  /** All processes together: for numbers that are not negative the result is their
      product plus their sum, in either order of arrival. */
  lemma ProductPlusSum(arr: seq<int>)
    requires |arr| > 0 && forall i :: 0 <= i < |arr| ==> arr[i] >= 0
    ensures var sum := FifoSum(Printed(arr, COMMA), COMMA);
            && SecondTotal(ChildMessage(sum) + ParentMessage(arr)) == ProductOf(arr) + SumOf(arr)
            && SecondTotal(ParentMessage(arr) + ChildMessage(sum)) == ProductOf(arr) + SumOf(arr)
  {
    SumRoundTrip(arr, COMMA);
    OrderDoesNotMatter(arr, SumOf(arr));
  }

  // ------------------------------------------------------------ what the parts compute

  /** The sum counts every number once, wherever it stands. */
  lemma SumLaws(a: seq<int>, x: int, b: seq<int>)
    ensures SumOf([]) == 0 && SumOf(a + [x] + b) == SumOf(a) + x + SumOf(b)
  {
    SumConcat(a + [x], b);
    SumConcat(a, [x]);
    assert [x][..0] == [];
    assert SumOf([x]) == SumOf([]) + x;
  }

  lemma {:induction false} ProductConcat(a: seq<int>, b: seq<int>)
    ensures ProductOf(a + b) == ProductOf(a) * ProductOf(b)
    decreases |b|
  {
    if |b| == 0 {
      assert a + b == a;
    } else {
      assert (a + b)[..|a + b| - 1] == a + b[..|b| - 1];
      ProductConcat(a, b[..|b| - 1]);
      Associates(ProductOf(a), ProductOf(b[..|b| - 1]), b[|b| - 1]);
    }
  }

  lemma Associates(x: int, y: int, z: int)
    ensures (x * y) * z == x * (y * z)
  {
  }

  /** So does the product; no numbers make 1, and a zero anywhere makes 0. */
  lemma ProductLaws(a: seq<int>, x: int, b: seq<int>)
    ensures ProductOf([]) == 1 && ProductOf(a + [x] + b) == ProductOf(a) * x * ProductOf(b)
    ensures ProductOf(a + [0] + b) == 0
  {
    ProductAround(a, x, b);
    ProductAround(a, 0, b);
  }

  lemma ProductAround(a: seq<int>, x: int, b: seq<int>)
    ensures ProductOf(a + [x] + b) == ProductOf(a) * x * ProductOf(b)
  {
    ProductConcat(a + [x], b);
    ProductConcat(a, [x]);
    assert [x][..0] == [];
    assert ProductOf([x]) == ProductOf([]) * x == x;
  }

  /** The pieces with a delimiter after each, put together. */
  function Glued(pieces: seq<string>, delim: char): string {
    if |pieces| == 0 then "" else pieces[0] + [delim] + Glued(pieces[1..], delim)
  }

  /** The pieces of any text are free of the delimiter and, glued, are the text up to
      the last delimiter. */
  lemma {:induction false} PiecesGlue(piece: string, s: string, delim: char) returns (dropped: string)
    requires Free(piece, delim)
    ensures Free(dropped, delim) && piece + s == Glued(PiecesAfter(piece, s, delim), delim) + dropped
    ensures forall i :: 0 <= i < |PiecesAfter(piece, s, delim)| ==> Free(PiecesAfter(piece, s, delim)[i], delim)
    decreases |s|
  {
    if |s| == 0 {
      dropped := piece;
      assert piece + s == piece;
    } else if s[0] == delim {
      dropped := PiecesGlue("", s[1..], delim);
      var rest := PiecesAfter("", s[1..], delim);
      assert s == [delim] + s[1..] && "" + s[1..] == s[1..];
      assert ([piece] + rest)[1..] == rest;
      assert piece + s == piece + [delim] + (Glued(rest, delim) + dropped);
    } else {
      dropped := PiecesGlue(piece + [s[0]], s[1..], delim);
      assert piece + [s[0]] + s[1..] == piece + s;
    }
  }

  lemma SplitsPieces(s: string, delim: char)
    ensures exists dropped :: Free(dropped, delim) && s == Glued(Pieces(s, delim), delim) + dropped
    ensures forall i :: 0 <= i < |Pieces(s, delim)| ==> Free(Pieces(s, delim)[i], delim)
  {
    var dropped := PiecesGlue("", s, delim);
    assert "" + s == s;
  }

  lemma {:induction false} SplitsConcat(acc: Split, piece: string, a: string, c: char, b: string)
    returns (before: Split, last: string)
    requires c == COMMA || c == BANG
    ensures SplitsAfter(acc, piece, a + [c] + b) == SplitsAfter(before, last, [c] + b)
    decreases |a|
  {
    if |a| == 0 {
      before, last := acc, piece;
      assert a + [c] + b == [c] + b;
    } else {
      assert (a + [c] + b)[0] == a[0] && (a + [c] + b)[1..] == a[1..] + [c] + b;
      if a[0] == BANG {
        before, last := SplitsConcat(acc.(compared := piece), "", a[1..], c, b);
      } else if a[0] == COMMA {
        before, last := SplitsConcat(acc.(splitted := acc.splitted + [piece]), "", a[1..], c, b);
      } else {
        before, last := SplitsConcat(acc, piece + [a[0]], a[1..], c, b);
      }
    }
  }

  /** Of several sums the last one counts. */
  lemma LastSumCounts(before: string, sum: int)
    requires before == "" || before[|before| - 1] == COMMA || before[|before| - 1] == BANG
    ensures Splits(before + ChildMessage(sum)).compared == PrintInt(sum)
  {
    var c := ChildMessage(sum);
    assert c == PrintInt(sum) + [BANG] + "";
    assert "" + PrintInt(sum) == PrintInt(sum);
    if before == "" {
      assert before + c == c;
      SplitsBang(Split("", []), "", PrintInt(sum), "");
    } else {
      var a, d := before[..|before| - 1], before[|before| - 1];
      assert before == a + [d];
      var acc, piece := SplitsConcat(Split("", []), "", a, d, c);
      assert ([d] + c)[1..] == c;
      SplitsBang(if d == BANG then acc.(compared := piece) else acc.(splitted := acc.splitted + [piece]), "", PrintInt(sum), "");
    }
  }

  /** A message without the command word is a failure, and a piece without digits counts
      as 1. */
  lemma BadMessages(buffer: string, piece: string)
    requires forall i :: 0 <= i < |Splits(buffer).splitted| ==> !StartsWith(Splits(buffer).splitted[i], "multiply")
    requires forall i :: 0 <= i < |piece| ==> 'a' <= piece[i] <= 'z'
    ensures SecondTotal(buffer) == -1 && ConvertSingle(piece) == 1
  {
  }

  // ------------------------------------------------------------ how large it gets

  function Pow9(n: nat): nat {
    if n == 0 then 1 else 9 * Pow9(n - 1)
  }

  lemma {:induction false} DigitsBounded(arr: seq<int>)
    requires forall i :: 0 <= i < |arr| ==> 0 <= arr[i] <= 9
    ensures 0 <= SumOf(arr) <= 9 * |arr| && 0 <= ProductOf(arr) <= Pow9(|arr|)
  {
    if |arr| > 0 {
      DigitsBounded(arr[..|arr| - 1]);
      var p, d := ProductOf(arr[..|arr| - 1]), arr[|arr| - 1];
      assert p * d <= p * 9;
    }
  }

  lemma {:induction false} Pow9Monotone(m: nat, n: nat)
    requires m <= n
    ensures Pow9(m) <= Pow9(n)
    decreases n - m
  {
    if m < n {
      Pow9Monotone(m + 1, n);
    }
  }

  /** The product of at most 19 digits, and what is added to it, fit a 64-bit long. */
  lemma NineteenDigitsFit(arr: seq<int>)
    requires |arr| <= 19 && forall i :: 0 <= i < |arr| ==> 0 <= arr[i] <= 9
    ensures 0 <= ProductOf(arr) + SumOf(arr) < 0x8000_0000_0000_0000
  {
    DigitsBounded(arr);
    Pow9Monotone(|arr|, 19);
    assert Pow9(4) == 6561;
    assert Pow9(8) == 6561 * 6561;
    assert Pow9(12) == 6561 * 6561 * 6561;
    assert Pow9(16) == 6561 * 6561 * 6561 * 6561;
    assert Pow9(19) == 729 * Pow9(16);
  }

  // ------------------------------------------------------------ reading byte by byte

  /** One read from the second FIFO: a byte, or nothing because no writer has it open. */
  datatype Event = Byte(c: char) | NoWriter

  datatype Received = StillReading | Message(text: string)

  const NUL := '\0'

  /** The reader goes on through moments without a writer until it has seen both
      delimiters; then such a moment, or a null byte, ends the message. */
  function Receives(events: seq<Event>, comma: bool, bang: bool, text: string): Received
    decreases |events|
  {
    if |events| == 0 then StillReading
    else
      match events[0]
      case NoWriter => if comma && bang then Message(text) else Receives(events[1..], comma, bang, text)
      case Byte(c) =>
        var comma', bang' := comma || c == COMMA, bang || c == BANG;
        if c == NUL && comma' && bang' then Message(text + [c])
        else Receives(events[1..], comma', bang', text + [c])
  }

  method ReadOneByOneCustom(events: seq<Event>) returns (r: Received)
    ensures r == Receives(events, false, false, "")
  {
    var i, comma, bang, text := 0, false, false, "";
    while i < |events|
      invariant i <= |events|
      invariant Receives(events, false, false, "") == Receives(events[i..], comma, bang, text)
    {
      match events[i] {
        case NoWriter =>
          if comma && bang {
            return Message(text);
          }
        case Byte(c) =>
          comma := comma || c == COMMA;
          bang := bang || c == BANG;
          if c == NUL && comma && bang {
            return Message(text + [c]);
          }
          text := text + [c];
      }
      i := i + 1;
    }
    return StillReading;
  }

  function Bytes(s: string): (r: seq<Event>)
    ensures |r| == |s|
  {
    seq(|s|, i requires 0 <= i < |s| => Byte(s[i]))
  }

  lemma {:induction false} ReceivesBytes(s: string, rest: seq<Event>, comma: bool, bang: bool, text: string)
    requires Free(s, NUL)
    ensures Receives(Bytes(s) + rest, comma, bang, text) ==
            Receives(rest, comma || COMMA in s, bang || BANG in s, text + s)
    decreases |s|
  {
    if |s| == 0 {
      assert Bytes(s) + rest == rest && text + s == text;
    } else {
      assert (Bytes(s) + rest)[0] == Byte(s[0]) && (Bytes(s) + rest)[1..] == Bytes(s[1..]) + rest;
      ReceivesBytes(s[1..], rest, comma || s[0] == COMMA, bang || s[0] == BANG, text + [s[0]]);
      assert text + [s[0]] + s[1..] == text + s;
      assert s == [s[0]] + s[1..];
    }
  }

  lemma {:induction false} ReceivesNothing(n: nat, rest: seq<Event>, comma: bool, bang: bool, text: string)
    requires !(comma && bang)
    ensures Receives(seq(n, _ => NoWriter) + rest, comma, bang, text) == Receives(rest, comma, bang, text)
  {
    var events := seq(n, _ => NoWriter) + rest;
    if n == 0 {
      assert events == rest;
    } else {
      assert events[1..] == seq(n - 1, _ => NoWriter) + rest;
      ReceivesNothing(n - 1, rest, comma, bang, text);
    }
  }

  /** What the reader sees when one message is written after the other. */
  function Arrival(first: string, second: string, before: nat, between: nat): seq<Event> {
    seq(before, _ => NoWriter) + (Bytes(first) + (seq(between, _ => NoWriter) + (Bytes(second) + [NoWriter])))
  }

  /** However long the reader finds no writer before, between and after the two
      messages, it receives both, in the order they were written. */
  lemma ReceivesBoth(first: string, second: string, before: nat, between: nat)
    requires Free(first, NUL) && Free(second, NUL)
    requires !(COMMA in first && BANG in first)
    requires COMMA in first + second && BANG in first + second
    ensures Receives(Arrival(first, second, before, between), false, false, "") == Message(first + second)
  {
    var tail := Bytes(second) + [NoWriter];
    var middle := seq(between, _ => NoWriter) + tail;
    ReceivesNothing(before, Bytes(first) + middle, false, false, "");
    ReceivesBytes(first, middle, false, false, "");
    assert "" + first == first;
    ReceivesNothing(between, tail, COMMA in first, BANG in first, first);
    ReceivesBytes(second, [NoWriter], COMMA in first, BANG in first, first);
  }

  /** A null byte ends the message once both delimiters were seen, whatever follows; as
      long as one is missing the reader does not come to an end. */
  lemma NulEnds(first: string, rest: seq<Event>)
    requires Free(first, NUL)
    ensures COMMA in first && BANG in first ==> Receives(Bytes(first) + ([Byte(NUL)] + rest), false, false, "") == Message(first + [NUL])
    ensures !(COMMA in first && BANG in first) ==> Receives(Bytes(first) + [NoWriter], false, false, "") == StillReading
  {
    assert "" + first == first;
    ReceivesBytes(first, [Byte(NUL)] + rest, false, false, "");
    ReceivesBytes(first, [NoWriter], false, false, "");
    var last := [NoWriter];
    assert last[1..] == [];
  }

  lemma {:induction false} PrintedHasNoNul(arr: seq<int>)
    ensures Free(PrintedSome(arr, COMMA), NUL) && (|arr| > 0 ==> COMMA in PrintedSome(arr, COMMA)) && Free(PrintedSome(arr, COMMA), BANG)
  {
    if |arr| > 0 {
      PrintedHasNoNul(arr[..|arr| - 1]);
    }
  }

  lemma ChildMessageClean(sum: int)
    ensures Free(ChildMessage(sum), NUL) && Free(ChildMessage(sum), COMMA) && BANG in ChildMessage(sum)
  {
    var c := ChildMessage(sum);
    assert c[|c| - 1] == BANG;
  }

  lemma ParentMessageClean(arr: seq<int>)
    requires |arr| > 0
    ensures Free(ParentMessage(arr), NUL) && Free(ParentMessage(arr), BANG) && COMMA in ParentMessage(arr)
  {
    PrintedHasNoNul(arr);
    var p := ParentMessage(arr);
    assert p == PrintedSome(arr, COMMA) + MULTIPLY + [COMMA];
    assert p[|p| - 1] == COMMA;
  }

  /** From the bytes to the result: in either order of arrival, with any pauses
      between writers, the second child receives one message and computes product
      plus sum from it. */
  lemma SecondChild(arr: seq<int>, sum: int, before: nat, between: nat)
    requires |arr| > 0
    ensures var r := Receives(Arrival(ChildMessage(sum), ParentMessage(arr), before, between), false, false, "");
            r.Message? && SecondTotal(r.text) == ProductOf(arr) + sum
    ensures var r := Receives(Arrival(ParentMessage(arr), ChildMessage(sum), before, between), false, false, "");
            r.Message? && SecondTotal(r.text) == ProductOf(arr) + sum
  {
    ChildFirst(arr, sum, before, between);
    ParentFirst(arr, sum, before, between);
  }

  lemma ChildFirst(arr: seq<int>, sum: int, before: nat, between: nat)
    requires |arr| > 0
    ensures var r := Receives(Arrival(ChildMessage(sum), ParentMessage(arr), before, between), false, false, "");
            r.Message? && SecondTotal(r.text) == ProductOf(arr) + sum
  {
    ChildMessageClean(sum);
    ParentMessageClean(arr);
    OrderDoesNotMatter(arr, sum);
    ReceivesBoth(ChildMessage(sum), ParentMessage(arr), before, between);
  }

  lemma ParentFirst(arr: seq<int>, sum: int, before: nat, between: nat)
    requires |arr| > 0
    ensures var r := Receives(Arrival(ParentMessage(arr), ChildMessage(sum), before, between), false, false, "");
            r.Message? && SecondTotal(r.text) == ProductOf(arr) + sum
  {
    ChildMessageClean(sum);
    ParentMessageClean(arr);
    OrderDoesNotMatter(arr, sum);
    ReceivesBoth(ParentMessage(arr), ChildMessage(sum), before, between);
  }
}
