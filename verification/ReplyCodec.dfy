/** Replies in both directions: reply, replyMulti and itoa
    (internal/server/session.go) against the relay's expect
    (internal/dispatch/forward.go). */
module ReplyCodec {
  import opened Text
  import opened Lines
  import opened Options
  import opened Mail

  const MIN_INT64: int := -0x8000_0000_0000_0000
  type int64 = x: int | MIN_INT64 <= x < 0x8000_0000_0000_0000

  // ---- Decimal numbers ----

  function Digit(d: nat): char
    requires d < 10
  {
    ('0' as int + d) as char
  }

  function Digits(n: nat): (s: string)
    ensures s != []
  {
    if n < 10 then [Digit(n)] else Digits(n / 10) + [Digit(n % 10)]
  }

  function Decimal(v: int): string {
    if v < 0 then "-" + Digits(-v) else Digits(v)
  }

  /** The value of a run of digits; None when some octet is not a digit. */
  function Value(s: string): Option<nat> {
    if s == "" then Some(0)
    else
      var c := s[|s| - 1];
      match Value(s[..|s| - 1])
      case Some(v) => if '0' <= c <= '9' then Some(10 * v + (c as int - '0' as int)) else None
      case None => None
  }

  /** strconv.Atoi: an optional sign and at least one digit. */
  function Atoi(s: string): Option<int> {
    if s == "" then None
    else if s[0] == '-' || s[0] == '+' then
      if |s| == 1 then None
      else match Value(s[1..])
        case Some(v) => Some(if s[0] == '-' then -(v as int) else v as int)
        case None => None
    else match Value(s)
      case Some(v) => Some(v as int)
      case None => None
  }

  lemma {:induction false} DigitsValue(n: nat)
    ensures Value(Digits(n)) == Some(n)
    ensures '0' <= Digits(n)[0] <= '9'
    ensures n > 0 ==> Digits(n)[0] != '0'
  {
    var s := Digits(n);
    assert s[..|s| - 1] == if n < 10 then "" else Digits(n / 10);
    if n >= 10 {
      DigitsValue(n / 10);
    }
  }

  /** Printing and parsing an integer are inverse. */
  lemma {:induction false} DecimalRoundTrip(v: int)
    ensures Atoi(Decimal(v)) == Some(v)
  {
    if v < 0 {
      DigitsValue(-v);
      assert ("-" + Digits(-v))[1..] == Digits(-v);
    } else {
      DigitsValue(v);
    }
  }

  function Pow10(n: nat): nat {
    if n == 0 then 1 else 10 * Pow10(n - 1)
  }

  /** The digits already written follow the digits still to come. */
  ghost predicate Splits(whole: nat, v: nat, written: string) {
    Digits(whole) == if v == 0 then written else Digits(v) + written
  }

  lemma {:induction false} SplitsStep(whole: nat, v: nat, written: string)
    requires v > 0 && Splits(whole, v, written)
    ensures Splits(whole, v / 10, [Digit(v % 10)] + written)
  {
    if v >= 10 {
      assert Digits(v) + written == Digits(v / 10) + ([Digit(v % 10)] + written);
    }
  }

  lemma {:induction false} TwentyOctetsSuffice()
    ensures Pow10(19) == 10_000_000_000_000_000_000
  {
    assert Pow10(4) == 10_000;
    assert Pow10(8) == 10000 * Pow10(4);
    assert Pow10(12) == 10000 * Pow10(8);
    assert Pow10(16) == 10000 * Pow10(12);
    assert Pow10(19) == 1000 * Pow10(16);
  }

  /** One octet is written in front of those already there. */
  method PutBefore(buf: array<char>, i: nat, c: char)
    requires 0 < i <= buf.Length
    modifies buf
    ensures buf[i - 1..] == [c] + old(buf[i..])
  {
    buf[i - 1] := c;
  }

  /** The digits of a number, written from the end of the buffer backwards. */
  method PutDigits(buf: array<char>, v: nat) returns (i: nat)
    requires buf.Length == 20 && 0 < v < Pow10(19)
    modifies buf
    ensures 1 <= i <= 20 && buf[i..] == Digits(v)
  {
    hide Digit, Digits, Splits, Pow10;
    var w: nat := v;
    i := 20;
    ghost var written := "";
    SplitsBegin(v, written);
    while w > 0
      invariant 1 <= i <= 20 && w < Pow10(i - 1) && buf[i..] == written && Splits(v, w, written)
    {
      SplitsStep(v, w, written);
      OneDigitLess(w, i);
      var d := Digit(w % 10);
      PutBefore(buf, i, d);
      i, written, w := i - 1, [d] + written, w / 10;
    }
    SplitsEnd(v, written);
  }

  /** itoa over its 20-octet buffer. Negating the least int64 leaves it negative, so the
      loop does not run, and that one value prints as a lone sign. */
  method Itoa(v: int64) returns (s: string)
    ensures v != MIN_INT64 ==> s == Decimal(v)
    ensures v == MIN_INT64 ==> s == "-"
  {
    hide Digit, Digits, Decimal, Pow10;
    if v == 0 {
      ZeroPrints();
      return "0";
    }
    var neg := v < 0;
    var w: int64 := if neg && v != MIN_INT64 then -v else v;
    var buf := new char[20];
    var i := 20;
    TwentyOctetsSuffice();
    if w > 0 {
      i := PutDigits(buf, w);
      DecimalIs(v, w);
    }
    ghost var written := buf[i..];
    if neg {
      PutBefore(buf, i, '-');
      i := i - 1;
      assert buf[i..] == ['-'] + written;
    }
    s := buf[i..];
    assert ['-'] + "" == "-";
  }

  lemma {:induction false} DecimalIs(v: int, whole: nat)
    requires v != 0 && whole == if v < 0 then -v else v
    ensures Decimal(v) == if v < 0 then "-" + Digits(whole) else Digits(whole)
  {
  }

  lemma {:induction false} OneDigitLess(w: nat, i: nat)
    requires i >= 1 && 0 < w < Pow10(i - 1)
    ensures i >= 2 && w / 10 < Pow10(i - 2)
  {
  }

  lemma {:induction false} SplitsBegin(w: nat, written: string)
    requires w > 0 && written == ""
    ensures Splits(w, w, written)
  {
    assert Digits(w) + written == Digits(w);
  }

  lemma {:induction false} SplitsEnd(whole: nat, written: string)
    requires Splits(whole, 0, written)
    ensures Digits(whole) == written
  {
  }

  lemma {:induction false} ZeroPrints()
    ensures Decimal(0) == "0"
  {
  }

  // ---- Replies ----

  function ReplyLine(code: int, last: bool, text: string): string {
    Decimal(code) + ([if last then ' ' else '-'] + (text + CRLF))
  }

  /** What replyMulti writes; reply is the case of one line. */
  function ReplyText(code: int, lines: seq<string>): string {
    if lines == [] then "" else ReplyLine(code, |lines| == 1, lines[0]) + ReplyText(code, lines[1..])
  }

  method ReplyMulti(code: int64, lines: seq<string>) returns (out: string)
    ensures code != MIN_INT64 ==> out == ReplyText(code, lines)
  {
    hide Decimal;
    var c := Itoa(code);
    out := "";
    for i := 0 to |lines|
      invariant code != MIN_INT64 ==> out + ReplyText(code, lines[i..]) == ReplyText(code, lines)
    {
      var line := c + ([if i == |lines| - 1 then ' ' else '-'] + (lines[i] + CRLF));
      assert lines[i..][1..] == lines[i + 1..];
      assert c == Decimal(code) ==> ReplyText(code, lines[i..]) == line + ReplyText(code, lines[i + 1..]);
      out := out + line;
    }
  }

  function Classify(code: int, want: int): Result {
    if code == want then OK else if code >= 500 then PermFail else TempFail
  }

  /** The specification of expect: the result, and what is left unread. */
  function Expected(input: string, want: int): (Result, string)
    decreases |input|
  {
    var n := IndexAny(input, {'\n'});
    if n < 0 then (TempFail, "")
    else
      var line, rest := TrimRight(input[..n + 1], LINE_ENDS), input[n + 1..];
      if |line| < 3 then (TempFail, rest)
      else match Atoi(line[..3])
        case None => (TempFail, rest)
        case Some(code) =>
          if |line| > 3 && line[3] == '-' then Expected(rest, want)
          else (Classify(code, want), rest)
  }

  method Expect(input: string, want: int) returns (res: Result, rest: string)
    ensures (res, rest) == Expected(input, want)
  {
    rest := input;
    while true
      invariant Expected(rest, want) == Expected(input, want)
      decreases |rest|
    {
      var n := IndexAny(rest, {'\n'});
      if n < 0 {
        return TempFail, "";
      }
      var line := TrimRight(rest[..n + 1], LINE_ENDS);
      ghost var before := rest;
      rest := rest[n + 1..];
      if |line| < 3 {
        return TempFail, rest;
      }
      var code := Atoi(line[..3]);
      if code.None? {
        return TempFail, rest;
      }
      if |line| > 3 && line[3] == '-' {
        assert Expected(before, want) == Expected(rest, want);
        continue;
      }
      return Classify(code.value, want), rest;
    }
  }

  predicate ThreeDigits(code: int) {
    100 <= code <= 999
  }

  lemma {:induction false} ThreeDigitsPrint(code: int)
    requires ThreeDigits(code)
    ensures |Decimal(code)| == 3 && Free(Decimal(code), '\n')
  {
    assert Digits(code / 100) == [Digit(code / 100)];
    assert Digits(code / 10) == Digits(code / 100) + [Digit(code / 10 % 10)];
  }

  lemma {:induction false} ReplyLineShape(code: int, last: bool, text: string)
    requires ThreeDigits(code) && Free(text, '\n')
    ensures var l, t := ReplyLine(code, last, text), TrimRight(ReplyLine(code, last, text), LINE_ENDS);
            IsLine(l) && |t| > 3 && t[..3] == Decimal(code) && t[3] == (if last then ' ' else '-')
  {
    hide Decimal, TrimRight;
    ThreeDigitsPrint(code);
    var c, mark, l := Decimal(code), if last then ' ' else '-', ReplyLine(code, last, text);
    assert l[3] == mark && l[..3] == c;
    assert l[..|l| - 1] == c + ([mark] + (text + "\r"));
    TrimRightKeeps(l, LINE_ENDS, 3);
  }

  /** One line of a reply at the head of the input. */
  lemma {:induction false} ExpectsLine(code: int, last: bool, text: string, more: string, want: int)
    requires ThreeDigits(code) && Free(text, '\n')
    ensures Expected(ReplyLine(code, last, text) + more, want) ==
            if last then (Classify(code, want), more) else Expected(more, want)
  {
    hide Decimal, Atoi, TrimRight, IndexAny, ReplyLine, IsLine, Classify, ReadLine, SplitLines;
    var l := ReplyLine(code, last, text);
    ReplyLineShape(code, last, text);
    FirstLine(l, more);
    assert (l + more)[..|l|] == l && (l + more)[|l|..] == more;
    DecimalRoundTrip(code);
  }

  lemma {:induction false} FirstReplyLine(code: int, lines: seq<string>, rest: string)
    requires lines != []
    ensures ReplyText(code, lines) + rest ==
            ReplyLine(code, |lines| == 1, lines[0]) + (ReplyText(code, lines[1..]) + rest)
  {
    hide ReplyLine;
  }

  /** expect consumes exactly one reply, however many lines it has, and judges its code. */
  lemma {:induction false} ExpectReadsReply(code: int, lines: seq<string>, rest: string, want: int)
    requires ThreeDigits(code) && lines != []
    requires forall i :: 0 <= i < |lines| ==> Free(lines[i], '\n')
    ensures Expected(ReplyText(code, lines) + rest, want) ==
            (if code == want then OK else if code >= 500 then PermFail else TempFail, rest)
  {
    hide Expected, ReplyText, ReplyLine, Free;
    FirstReplyLine(code, lines, rest);
    ExpectsLine(code, |lines| == 1, lines[0], ReplyText(code, lines[1..]) + rest, want);
    if |lines| == 1 {
      assert ReplyText(code, lines[1..]) + rest == rest by { NoReply(code, rest); }
    } else {
      ExpectReadsReply(code, lines[1..], rest, want);
    }
  }

  lemma {:induction false} NoReply(code: int, rest: string)
    ensures ReplyText(code, []) + rest == rest
  {
  }

  // ---- Every input ----

  predicate IsDigit(c: char) {
    '0' <= c <= '9'
  }

  function DigitOf(c: char): int
    requires IsDigit(c)
  {
    c as int - '0' as int
  }

  /** The number that three octets stand for: three digits, or a sign and two. */
  function CodeOf(t: string): Option<int>
    requires |t| == 3
  {
    if !IsDigit(t[1]) || !IsDigit(t[2]) then None
    else
      var two := 10 * DigitOf(t[1]) + DigitOf(t[2]);
      if IsDigit(t[0]) then Some(100 * DigitOf(t[0]) + two)
      else if t[0] == '+' then Some(two)
      else if t[0] == '-' then Some(-two)
      else None
  }

  lemma {:induction false} ValueSnoc(s: string, c: char)
    ensures Value(s + [c]) ==
            match Value(s)
            case Some(v) => if IsDigit(c) then Some(10 * v + (c as int - '0' as int)) else None
            case None => None
  {
    assert (s + [c])[..|s|] == s;
  }

  lemma {:induction false} AtoiOfThree(t: string)
    requires |t| == 3
    ensures Atoi(t) == CodeOf(t)
  {
    hide Value;
    assert Value("") == Some(0) by { NoDigits(); }
    assert t[1..] == "" + [t[1]] + [t[2]] && t == "" + [t[0]] + [t[1]] + [t[2]];
    ValueSnoc("", t[0]);
    ValueSnoc("" + [t[0]], t[1]);
    ValueSnoc("" + [t[0]] + [t[1]], t[2]);
    ValueSnoc("", t[1]);
    ValueSnoc("" + [t[1]], t[2]);
  }

  lemma {:induction false} NoDigits()
    ensures Value("") == Some(0)
  {
  }

  /** The code in front of a reply line; None when the line is short or malformed. */
  function LineCode(line: string): Option<int> {
    var t := TrimRight(line, LINE_ENDS);
    if |t| < 3 then None else CodeOf(t[..3])
  }

  predicate Continues(line: string) {
    var t := TrimRight(line, LINE_ENDS);
    LineCode(line).Some? && |t| > 3 && t[3] == '-'
  }

  /** The first line that is not a continuation, or the number of lines. */
  function EndOf(ls: seq<string>): (i: nat)
    ensures i <= |ls| && forall k :: 0 <= k < i ==> Continues(ls[k])
    ensures i < |ls| ==> !Continues(ls[i])
  {
    if ls == [] || !Continues(ls[0]) then 0
    else
      var i := EndOf(ls[1..]);
      assert forall k :: 0 < k < |ls| ==> ls[k] == ls[1..][k - 1];
      i + 1
  }

  /** On every input, expect returns OK iff the first line that is not a continuation is
      there in full with the wanted code in front, a permanent failure iff it is there
      with another code of 500 or more, and a temporary failure in every other case: the
      stream ends first, or the line is short or malformed. It consumes exactly through
      that line. */
  lemma {:induction false} ExpectVerdict(input: string, want: int)
    ensures var (res, rest), ls, i := Expected(input, want), SplitLines(input), EndOf(SplitLines(input));
            && (res == OK <==> i < |ls| && LineCode(ls[i]) == Some(want))
            && (res == PermFail <==> i < |ls| && LineCode(ls[i]).Some? && LineCode(ls[i]).value >= 500
                                     && LineCode(ls[i]).value != want)
            && (res == OK || res == PermFail || res == TempFail)
            && (if i < |ls| then input == Flatten(ls[..i + 1]) + rest else rest == "")
    decreases |input|
  {
    hide IndexAny, Continues, LineCode, Flatten, Expected, SplitLines, EndOf;
    var n := IndexAny(input, {'\n'});
    if n < 0 {
      EmptyReply(input, want);
    } else {
      var l, more := input[..n + 1], input[n + 1..];
      assert input == l + more;
      assert IsLine(l) by { LineCut(input, n); }
      LineAhead(l, more, want);
      var ls, rs := SplitLines(input), SplitLines(more);
      var i, j := EndOf(ls), EndOf(rs);
      assert ls == [l] + rs;
      NextEnd(l, rs);
      if Continues(l) {
        ExpectVerdict(more, want);
        assert i == j + 1 && |ls| == |rs| + 1;
        if i < |ls| {
          assert ls[i] == rs[j];
          assert ls[..i + 1][1..] == rs[..i];
          FlattenFirst(ls[..i + 1]);
        }
      } else {
        assert ls[..1] == [l];
        assert Flatten([l]) == l by { FlattenFirst([l]); FlattenNone(); assert [l][1..] == []; }
      }
    }
  }

  lemma {:induction false} NextEnd(l: string, rs: seq<string>)
    ensures EndOf([l] + rs) == if Continues(l) then EndOf(rs) + 1 else 0
    ensures Continues(l) ==> LineCode(l).Some?
  {
    hide LineCode;
    assert ([l] + rs)[1..] == rs;
  }

  lemma {:induction false} LineCut(input: string, n: nat)
    requires IndexAny(input, {'\n'}) == n
    ensures n < |input| && IsLine(input[..n + 1])
  {
    hide IndexAny;
    assert input[..n + 1][..n] == input[..n];
  }

  lemma {:induction false} FlattenFirst(ls: seq<string>)
    requires ls != []
    ensures Flatten(ls) == ls[0] + Flatten(ls[1..])
  {
  }

  lemma {:induction false} FlattenNone()
    ensures Flatten([]) == ""
  {
  }

  lemma {:induction false} EmptyReply(input: string, want: int)
    requires IndexAny(input, {'\n'}) < 0
    ensures Expected(input, want) == (TempFail, "") && SplitLines(input) == [] && EndOf([]) == 0
  {
    hide IndexAny;
  }

  /** The verdict of one line, or of what follows it. */
  lemma {:induction false} LineAhead(l: string, more: string, want: int)
    requires IsLine(l)
    ensures SplitLines(l + more) == [l] + SplitLines(more)
    ensures Expected(l + more, want) ==
            match LineCode(l)
            case None => (TempFail, more)
            case Some(code) =>
              if Continues(l) then Expected(more, want)
              else (if code == want then OK else if code >= 500 then PermFail else TempFail, more)
  {
    hide IndexAny, TrimRight, IsLine, SplitLines, ReadLine, Atoi, CodeOf;
    FirstLine(l, more);
    var t := TrimRight(l, LINE_ENDS);
    assert (l + more)[..|l|] == l && (l + more)[|l|..] == more;
    if |t| >= 3 {
      AtoiOfThree(t[..3]);
    }
  }

  /** A reply on the wire: its lines in order, each with the code in front, a hyphen on
      all but the last, its text untouched, and CRLF at the end. */
  lemma {:induction false} ReplyOnTheWire(code: int, lines: seq<string>, rest: string)
    requires 100 <= code <= 999 && forall i :: 0 <= i < |lines| ==> Free(lines[i], '\n')
    ensures var ls := SplitLines(ReplyText(code, lines) + rest);
            && |ls| >= |lines| && ls[|lines|..] == SplitLines(rest)
            && forall i :: 0 <= i < |lines| ==>
                 && |ls[i]| >= 3
                 && ls[i] == ls[i][..3] + ((if i == |lines| - 1 then " " else "-") + (lines[i] + "\r\n"))
                 && CodeOf(ls[i][..3]) == Some(code)
  {
    hide ReplyText, ReplyLine, SplitLines, CodeOf, Free;
    if lines == [] {
      assert ReplyText(code, lines) + rest == rest by { NoReply(code, rest); }
    } else {
      FirstReplyLine(code, lines, rest);
      var l, more := ReplyLine(code, |lines| == 1, lines[0]), ReplyText(code, lines[1..]) + rest;
      ReplyLineIs(code, |lines| == 1, lines[0], more);
      ReplyOnTheWire(code, lines[1..], rest);
      var ls, ms := SplitLines(l + more), SplitLines(more);
      assert forall i :: 0 < i < |ls| ==> ls[i] == ms[i - 1];
      assert forall i :: 0 < i < |lines| ==> lines[i] == lines[1..][i - 1];
      assert ls[|lines|..] == ms[|lines| - 1..];
    }
  }

  lemma {:induction false} ReplyLineIs(code: int, last: bool, text: string, more: string)
    requires ThreeDigits(code) && Free(text, '\n')
    ensures var l := ReplyLine(code, last, text);
            && SplitLines(l + more) == [l] + SplitLines(more) && |l| >= 3
            && l == l[..3] + ((if last then " " else "-") + (text + "\r\n")) && CodeOf(l[..3]) == Some(code)
  {
    hide Decimal, TrimRight, SplitLines, IsLine, IndexAny, CodeOf;
    var l := ReplyLine(code, last, text);
    ReplyLineShape(code, last, text);
    ThreeDigitsPrint(code);
    FirstLine(l, more);
    assert l[..3] == Decimal(code);
    AtoiOfThree(l[..3]);
    DecimalRoundTrip(code);
  }
}
