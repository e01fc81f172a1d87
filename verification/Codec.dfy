/** The messages between the processes of hw2_2024: numbers separated by commas, a
    sum ended by an exclamation mark, and the command word at the end. */
module Codec {
  import opened Numerals

  const COMMA := ','
  const BANG := '!'
  const MULTIPLY := "multiply"
  const MAX_FACTORS := 32

  // ------------------------------------------------------------ printing

  /** Every number followed by the delimiter; the delimiter alone for no numbers. */
  function Printed(arr: seq<int>, delim: char): string {
    if |arr| == 0 then [delim] else PrintedSome(arr, delim)
  }

  function PrintedSome(arr: seq<int>, delim: char): string {
    if |arr| == 0 then "" else PrintedSome(arr[..|arr| - 1], delim) + PrintInt(arr[|arr| - 1]) + [delim]
  }

  method ConvertIntegerToString(arr: seq<int>, delim: char) returns (str: string)
    ensures str == Printed(arr, delim)
  {
    str := "";
    assert arr[..0] == [];
    for i := 0 to |arr|
      invariant i < |arr| || i == 0 ==> str == PrintedSome(arr[..i], delim)
      invariant i == |arr| > 0 ==> str + [delim] == PrintedSome(arr, delim)
    {
      assert arr[..i + 1][..i] == arr[..i];
      str := str + PrintInt(arr[i]);
      if i < |arr| - 1 {
        str := str + [delim];
      } else {
        assert arr[..i + 1] == arr;
      }
    }
    str := str + [delim];
  }

  /** The sum with its delimiter. */
  function IntoStringWithDelim(sum: int, delim: char): string {
    PrintInt(sum) + [delim]
  }

  // ------------------------------------------------------------ splitting

  predicate Free(s: string, c: char) {
    c !in s
  }

  /** The pieces that a delimiter ends; what follows the last delimiter is dropped. */
  function Pieces(s: string, delim: char): seq<string> {
    PiecesAfter("", s, delim)
  }

  function PiecesAfter(piece: string, s: string, delim: char): seq<string>
    decreases |s|
  {
    if |s| == 0 then []
    else if s[0] == delim then [piece] + PiecesAfter("", s[1..], delim)
    else PiecesAfter(piece + [s[0]], s[1..], delim)
  }

  method CountHowManyElementsWillExtract(str: string, delim: char) returns (count: nat)
    ensures count == |Pieces(str, delim)|
  {
    count := 0;
    var i := 0;
    ghost var piece := "";
    while i < |str|
      invariant i <= |str|
      invariant |Pieces(str, delim)| == count + |PiecesAfter(piece, str[i..], delim)|
    {
      if str[i] == delim {
        count := count + 1;
        piece := "";
      } else {
        piece := piece + [str[i]];
      }
      i := i + 1;
    }
  }

  method SplitStringIntoArrayI(str: string, delim: char) returns (splitted: seq<string>)
    ensures splitted == Pieces(str, delim)
  {
    splitted := [];
    var element := "";
    var i := 0;
    while i < |str|
      invariant i <= |str|
      invariant Pieces(str, delim) == splitted + PiecesAfter(element, str[i..], delim)
    {
      if str[i] == delim {
        splitted := splitted + [element];
        element := "";
      } else {
        element := element + [str[i]];
      }
      i := i + 1;
    }
  }

  /** Pieces that a comma ends, and the last piece that an exclamation mark ends. */
  datatype Split = Split(compared: string, splitted: seq<string>)

  function Splits(s: string): Split {
    SplitsAfter(Split("", []), "", s)
  }

  function SplitsAfter(acc: Split, piece: string, s: string): Split
    decreases |s|
  {
    if |s| == 0 then acc
    else if s[0] == BANG then SplitsAfter(acc.(compared := piece), "", s[1..])
    else if s[0] == COMMA then SplitsAfter(acc.(splitted := acc.splitted + [piece]), "", s[1..])
    else SplitsAfter(acc, piece + [s[0]], s[1..])
  }

  method SplitStringIntoArrayCustom(str: string) returns (compared: string, splitted: seq<string>)
    ensures Split(compared, splitted) == Splits(str)
  {
    compared, splitted := "", [];
    var element := "";
    var i := 0;
    while i < |str|
      invariant i <= |str|
      invariant Splits(str) == SplitsAfter(Split(compared, splitted), element, str[i..])
    {
      if str[i] == COMMA || str[i] == BANG {
        if str[i] == BANG {
          compared := element;
        } else {
          splitted := splitted + [element];
        }
        element := "";
      } else {
        element := element + [str[i]];
      }
      i := i + 1;
    }
  }

  // ------------------------------------------------------------ converting

  /** The number, or 1 for a piece without digits. */
  function ConvertSingle(s: string): int {
    match Strtol(s)
    case NoDigits => 1
    case Number(v) => v
  }

  /** The first negative number ends the conversion; the rest of the array stays zero. */
  function Converted(pieces: seq<string>): (r: seq<int>)
    ensures |r| == |pieces|
  {
    if |pieces| == 0 then []
    else if ConvertSingle(pieces[0]) < 0 then seq(|pieces|, _ => 0)
    else [ConvertSingle(pieces[0])] + Converted(pieces[1..])
  }

  method ConvertStringArrayToInteger(str: seq<string>, arr: array<int>)
    requires arr.Length == |str| && forall i :: 0 <= i < arr.Length ==> arr[i] == 0
    modifies arr
    ensures arr[..] == Converted(str)
  {
    for i := 0 to |str|
      invariant forall k :: i <= k < arr.Length ==> arr[k] == 0
      invariant Converted(str) == arr[..i] + Converted(str[i..])
    {
      var val := ConvertSingle(str[i]);
      if val < 0 {
        assert arr[..] == arr[..i] + seq(|str| - i, _ => 0);
        return;
      }
      ghost var before := arr[..i];
      arr[i] := val;
      assert arr[..i + 1] == before + [val];
      assert str[i..][1..] == str[i + 1..];
    }
    assert arr[..] == arr[..|str|] + Converted(str[|str|..]);
  }

  // ------------------------------------------------------------ sum and product

  function SumOf(xs: seq<int>): int {
    if |xs| == 0 then 0 else SumOf(xs[..|xs| - 1]) + xs[|xs| - 1]
  }

  function ProductOf(xs: seq<int>): int {
    if |xs| == 0 then 1 else ProductOf(xs[..|xs| - 1]) * xs[|xs| - 1]
  }

  method AddValuesInInteger(xs: seq<int>) returns (sum: int)
    ensures sum == SumOf(xs)
  {
    sum := 0;
    for i := 0 to |xs|
      invariant sum == SumOf(xs[..i])
    {
      assert xs[..i + 1][..i] == xs[..i];
      sum := sum + xs[i];
    }
    assert xs[..|xs|] == xs;
  }

  method MultiplyValuesInInteger(xs: seq<int>) returns (result: int)
    ensures result == ProductOf(xs)
  {
    result := 1;
    for i := 0 to |xs|
      invariant result == ProductOf(xs[..i])
    {
      assert xs[..i + 1][..i] == xs[..i];
      result := result * xs[i];
    }
    assert xs[..|xs|] == xs;
  }

  // ------------------------------------------------------------ the two parsers

  function FifoSum(buffer: string, delim: char): int {
    SumOf(Converted(Pieces(buffer, delim)))
  }

  method ParseFifo(buffer: string, delim: char) returns (sum: int)
    ensures sum == FifoSum(buffer, delim)
  {
    var count := CountHowManyElementsWillExtract(buffer, delim);
    var splitted := SplitStringIntoArrayI(buffer, delim);
    var convertedArray := new int[count](_ => 0);
    ConvertStringArrayToInteger(splitted, convertedArray);
    sum := AddValuesInInteger(convertedArray[..]);
  }

  /** The second parser sizes its array by the number of commas. */
  lemma {:induction false} SplitsCount(acc: Split, p: string, q: string, s: string)
    ensures |SplitsAfter(acc, p, s).splitted| == |acc.splitted| + |PiecesAfter(q, s, COMMA)|
    decreases |s|
  {
    if |s| > 0 {
      if s[0] == BANG {
        SplitsCount(acc.(compared := p), "", q + [s[0]], s[1..]);
      } else if s[0] == COMMA {
        SplitsCount(acc.(splitted := acc.splitted + [p]), "", "", s[1..]);
      } else {
        SplitsCount(acc, p + [s[0]], q + [s[0]], s[1..]);
      }
    }
  }

  const FAILURE := -1

  function Numbers(pieces: seq<string>): (r: seq<int>)
    ensures |r| == |pieces|
  {
    seq(|pieces|, i requires 0 <= i < |pieces| => ConvertSingle(pieces[i]))
  }

  /** Product of all pieces but the last, plus the sum; -1 when no piece is the command. */
  function SecondTotal(buffer: string): int {
    var s := Splits(buffer);
    if forall i :: 0 <= i < |s.splitted| ==> !StartsWith(s.splitted[i], MULTIPLY) then FAILURE
    else ProductOf(Numbers(s.splitted[..|s.splitted| - 1])) + Atoi(s.compared)
  }

  /** The array of factors has 32 places; a buffer without a comma is outside the
      contract, as the original then looks before the start of its array. */
  method ParseSecondFifo(buffer: string) returns (total: int)
    requires 1 <= |Splits(buffer).splitted| <= MAX_FACTORS + 1
    ensures total == SecondTotal(buffer)
  {
    var count := CountHowManyElementsWillExtract(buffer, COMMA);
    var compared, splitted := SplitStringIntoArrayCustom(buffer);
    assert Split(compared, splitted) == Splits(buffer);
    SplitsCount(Split("", []), "", "", buffer);
    var flag := false;
    var converted: seq<int> := [];
    for i := 0 to count - 1
      invariant flag <==> exists k :: 0 <= k < i && StartsWith(splitted[k], MULTIPLY)
      invariant converted == Numbers(splitted[..i])
    {
      if StartsWith(splitted[i], MULTIPLY) {
        flag := true;
      }
      converted := converted + [ConvertSingle(splitted[i])];
    }
    if StartsWith(splitted[count - 1], MULTIPLY) {
      flag := true;
    }
    if !flag {
      return FAILURE;
    }
    assert exists k :: 0 <= k < |splitted| && StartsWith(splitted[k], MULTIPLY);
    var res := MultiplyValuesInInteger(converted);
    total := res + Atoi(compared);
  }
}
