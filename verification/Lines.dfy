/** Reading LF-terminated lines from a byte stream (internal/server/session.go,
    readLine; internal/server/transaction.go, discardLine). */
module Lines {
  import opened Options
  import opened Text

  const MAX_COMMAND_LINE: nat := 512
  const MAX_DATA_LINE: nat := 65536

  /** The outcome of one readLine: a line, an over-length line that has already
      been consumed in full, or the end of the stream. */
  datatype LineResult =
    | Line(text: string, rest: string)
    | TooLong(rest: string)
    | Eof

  function ReadLine(input: string, max: nat): (r: LineResult)
    ensures r.Line? ==> IsLine(r.text) && |r.text| <= max && input == r.text + r.rest
    ensures r.Eof? ==> SplitLines(input) == []
  {
    var n := IndexAny(input, {'\n'});
    if n < 0 then
      if |input| > max then TooLong("") else Eof
    else if n + 1 > max then TooLong(input[n + 1..])
    else Line(input[..n + 1], input[n + 1..])
  }

  /** Consumes through the next LF; None when the stream ends first. */
  function DiscardLine(input: string): Option<string> {
    var n := IndexAny(input, {'\n'});
    if n < 0 then None else Some(input[n + 1..])
  }

  /** One LF, at the end. */
  predicate IsLine(l: string) {
    l != [] && l[|l| - 1] == '\n' && Free(l[..|l| - 1], '\n')
  }

  /** The complete lines of a stream, terminators included. */
  function SplitLines(input: string): (ls: seq<string>)
    ensures forall i :: 0 <= i < |ls| ==> IsLine(ls[i])
    decreases |input|
  {
    var n := IndexAny(input, {'\n'});
    if n < 0 then []
    else
      assert IsLine(input[..n + 1]) by {
        hide IndexAny;
        assert input[..n + 1][..n] == input[..n];
      }
      [input[..n + 1]] + SplitLines(input[n + 1..])
  }

  lemma {:induction false} FirstLine(l: string, rest: string)
    requires IsLine(l)
    ensures IndexAny(l + rest, {'\n'}) == |l| - 1
    ensures SplitLines(l + rest) == [l] + SplitLines(rest)
    ensures forall max: nat :: ReadLine(l + rest, max) == if |l| > max then TooLong(rest) else Line(l, rest)
    ensures DiscardLine(l + rest) == Some(rest)
  {
    hide IndexAny;
    var p := l[..|l| - 1];
    assert l == p + "\n";
    IndexAnyAt(l + rest, p, '\n', rest, {'\n'});
    assert (l + rest)[..|l|] == l;
  }

  /** A concatenation of lines is split into exactly those lines. */
  lemma {:induction false} SplitFlatten(ls: seq<string>, rest: string)
    requires forall i :: 0 <= i < |ls| ==> IsLine(ls[i])
    ensures SplitLines(Flatten(ls) + rest) == ls + SplitLines(rest)
  {
    hide IsLine, ReadLine, DiscardLine, SplitLines, IndexAny, Free;
    if ls == [] {
      assert Flatten(ls) + rest == rest;
    } else {
      FirstLine(ls[0], Flatten(ls[1..]) + rest);
      assert Flatten(ls) + rest == ls[0] + (Flatten(ls[1..]) + rest);
      SplitFlatten(ls[1..], rest);
    }
  }
}
