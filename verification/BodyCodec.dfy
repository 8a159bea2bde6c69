/** The DATA stream in both directions: the server's readBody
    (internal/server/transaction.go) and the relay's writeBody
    (internal/dispatch/forward.go). */
module BodyCodec {
  import opened Text
  import opened Lines
  import opened Options

  datatype BodyResult =
    | Body(text: string, rest: string)
    | Oversize(rest: string)
    | Aborted

  function Chomp(line: string): string {
    TrimRight(line, LINE_ENDS)
  }

  predicate IsDot(line: string) {
    Chomp(line) == "."
  }

  predicate IsLong(line: string) {
    |line| > MAX_DATA_LINE
  }

  function Unstuff(piece: string): string {
    if ".." <= piece then piece[1..] else piece
  }

  /** Every piece followed by CRLF. */
  function Terminate(pieces: seq<string>): string {
    if pieces == [] then ""
    else Terminate(pieces[..|pieces| - 1]) + pieces[|pieces| - 1] + CRLF
  }

  // ---- The specification of readBody, on the list of lines ----

  /** What the lines up to the effective dot line decode to. `latched` records
      that an over-length line was met; `used` counts the lines consumed. */
  datatype Scan = Cut | Scan(kept: seq<string>, latched: bool, used: nat)

  /** An over-length line is dropped together with the line after it, whatever
      that line is. */
  function ScanLines(ls: seq<string>): (r: Scan)
    ensures r.Scan? ==> 0 < r.used <= |ls|
  {
    if ls == [] then Cut
    else if IsLong(ls[0]) then
      if |ls| < 2 then Cut
      else match ScanLines(ls[2..])
        case Cut => Cut
        case Scan(k, _, u) => Scan(k, true, u + 2)
    else if IsDot(ls[0]) then Scan([], false, 1)
    else match ScanLines(ls[1..])
      case Cut => Cut
      case Scan(k, l, u) => Scan([Unstuff(Chomp(ls[0]))] + k, l, u + 1)
  }

  function BodySpec(input: string, max: nat): BodyResult {
    var ls := SplitLines(input);
    match ScanLines(ls)
    case Cut => Aborted
    case Scan(kept, latched, used) =>
      var n := |Flatten(ls[..used])|;
      if n > |input| then Aborted
      else if latched || |Terminate(kept)| > max then Oversize(input[n..])
      else Body(Terminate(kept), input[n..])
  }

  // ---- readBody ----

  /** The loop of readBody. `peak` is the largest length the buffer reaches. */
  method ReadBody(input: string, max: nat) returns (r: BodyResult, ghost peak: nat)
    ensures r == BodySpec(input, max)
    ensures peak <= max
  {
    hide IndexAny, SplitLines, ReadLine, DiscardLine, Flatten, Chomp, Unstuff, IsLine, ScanLines, Resumes, BodySpec;
    var buf, total, oversize, rest := "", 0, false, input;
    peak := 0;
    ghost var ls := SplitLines(input);
    ghost var n, kept: seq<string>, latched := 0, [], false;
    ScanBegins(input, ls);
    while true
      invariant 0 <= n <= |ls| && SplitLines(rest) == ls[n..]
      invariant Flatten(ls[..n]) + rest == input
      invariant total == |Terminate(kept)|
      invariant oversize == (latched || total > max)
      invariant !oversize ==> buf == Terminate(kept)
      invariant |buf| <= max && peak <= max
      invariant Resumes(ScanLines(ls), ScanLines(ls[n..]), kept, latched, n)
      decreases |rest|
    {
      match ReadLine(rest, MAX_DATA_LINE) {
        case TooLong(after) =>
          var next := DiscardLine(after);
          if next.None? {
            LongStop(input, max, rest, after, kept, latched, n);
            return Aborted, peak;
          }
          LongStep(rest, after, next.value, ls, n);
          ResumeAfter(ls, kept, latched, n);
          rest, oversize, buf := next.value, true, "";
          n, latched := n + 2, true;
        case Eof =>
          StreamEnds(input, max, kept, latched, n);
          return Aborted, peak;
        case Line(line, after) =>
          LineStep(line, after, input, ls, n);
          rest := after;
          var trimmed := Chomp(line);
          if trimmed == "." {
            DotFound(input, max, ls, n, kept, latched, after);
            return (if oversize then Oversize(after) else Body(buf, after)), peak;
          }
          ResumeAfter(ls, kept, latched, n);
          trimmed := Unstuff(trimmed);
          assert (kept + [trimmed])[..|kept|] == kept;
          n, kept := n + 1, kept + [trimmed];
          total := total + |trimmed| + 2;
          if total > max {
            oversize, buf := true, "";
          } else if !oversize {
            buf := buf + trimmed + CRLF;
            peak := if |buf| > peak then |buf| else peak;
          }
      }
    }
  }

  /** Scanning from line `n` on, after `kept`, gives the result of the whole scan. */
  ghost predicate Resumes(whole: Scan, part: Scan, kept: seq<string>, latched: bool, n: nat) {
    match part
    case Cut => whole.Cut?
    case Scan(k, l, u) => whole == Scan(kept + k, latched || l, n + u)
  }

  lemma {:induction false} LineStep(line: string, after: string, input: string, ls: seq<string>, n: nat)
    requires IsLine(line) && n <= |ls| && SplitLines(line + after) == ls[n..]
    requires Flatten(ls[..n]) + (line + after) == input
    ensures n < |ls| && ls[n] == line && SplitLines(after) == ls[n + 1..]
    ensures Flatten(ls[..n + 1]) + after == input && |line| > 0
  {
    hide SplitLines, ReadLine, DiscardLine, IndexAny;
    FirstLine(line, after);
    assert ls[n..][0] == line;
    assert ls[..n + 1] == ls[..n] + [line];
    FlattenAppend(ls[..n], [line]);
    assert Flatten([line]) == line;
  }

  lemma {:induction false} LongStep(rest: string, after: string, next: string, ls: seq<string>, n: nat)
    requires n <= |ls| && SplitLines(rest) == ls[n..]
    requires ReadLine(rest, MAX_DATA_LINE) == TooLong(after) && DiscardLine(after) == Some(next)
    ensures |next| < |rest| && n + 2 <= |ls| && IsLong(ls[n])
    ensures SplitLines(next) == ls[n + 2..]
    ensures Flatten(ls[..n + 2]) + next == Flatten(ls[..n]) + rest
  {
    var a := LongLine(rest, after, ls[n..]);
    var b := NextLine(after, next);
    FirstLine(b, next);
    LineStep(a, after, Flatten(ls[..n]) + rest, ls, n);
    LineStep(b, next, Flatten(ls[..n]) + rest, ls, n + 1);
  }

  lemma {:induction false} LongLine(rest: string, after: string, ls: seq<string>) returns (a: string)
    requires SplitLines(rest) == ls && ReadLine(rest, MAX_DATA_LINE) == TooLong(after)
    requires DiscardLine(after).Some?
    ensures IsLine(a) && IsLong(a) && rest == a + after
  {
    a := rest[..IndexAny(rest, {'\n'}) + 1];
  }

  lemma {:induction false} NextLine(after: string, next: string) returns (b: string)
    requires DiscardLine(after) == Some(next)
    ensures IsLine(b) && after == b + next
  {
    b := after[..IndexAny(after, {'\n'}) + 1];
  }

  lemma {:induction false} DotFound(
    input: string, max: nat, ls: seq<string>, n: nat, kept: seq<string>, latched: bool, after: string)
    requires ls == SplitLines(input) && n < |ls| && !IsLong(ls[n]) && IsDot(ls[n])
    requires Resumes(ScanLines(ls), ScanLines(ls[n..]), kept, latched, n)
    requires Flatten(ls[..n + 1]) + after == input
    ensures BodySpec(input, max) ==
            if latched || |Terminate(kept)| > max then Oversize(after) else Body(Terminate(kept), after)
  {
    hide SplitLines, Flatten, TrimRight;
    assert ScanLines(ls[n..]) == Scan([], false, 1);
    assert kept + [] == kept;
    assert input[|Flatten(ls[..n + 1])|..] == after;
  }

  lemma {:induction false} ScanBegins(input: string, ls: seq<string>)
    ensures ls[0..] == ls && Flatten(ls[..0]) + input == input
    ensures Resumes(ScanLines(ls), ScanLines(ls[0..]), [], false, 0)
  {
    assert ls[0..] == ls;
    match ScanLines(ls) {
      case Cut =>
      case Scan(k, _, _) => assert [] + k == k;
    }
  }

  /** One line on: the line is kept, or dropped with its successor. */
  lemma {:induction false} ResumeAfter(ls: seq<string>, kept: seq<string>, latched: bool, n: nat)
    requires n < |ls| && Resumes(ScanLines(ls), ScanLines(ls[n..]), kept, latched, n)
    ensures !IsLong(ls[n]) && !IsDot(ls[n]) ==>
              Resumes(ScanLines(ls), ScanLines(ls[n + 1..]), kept + [Unstuff(Chomp(ls[n]))], latched, n + 1)
    ensures IsLong(ls[n]) && n + 2 <= |ls| ==> Resumes(ScanLines(ls), ScanLines(ls[n + 2..]), kept, true, n + 2)
  {
    assert ls[n..][1..] == ls[n + 1..];
    if n + 2 <= |ls| {
      assert ls[n..][2..] == ls[n + 2..];
    }
    match ScanLines(ls[n + 1..]) {
      case Cut =>
      case Scan(k, _, _) =>
        assert kept + ([Unstuff(Chomp(ls[n]))] + k) == (kept + [Unstuff(Chomp(ls[n]))]) + k;
    }
  }

  lemma {:induction false} StreamEnds(input: string, max: nat, kept: seq<string>, latched: bool, n: nat)
    requires n == |SplitLines(input)|
    requires Resumes(ScanLines(SplitLines(input)), ScanLines(SplitLines(input)[n..]), kept, latched, n)
    ensures BodySpec(input, max) == Aborted
  {
    assert SplitLines(input)[n..] == [];
  }

  lemma {:induction false} LongStop(
    input: string, max: nat, rest: string, after: string, kept: seq<string>, latched: bool, n: nat)
    requires n <= |SplitLines(input)| && SplitLines(rest) == SplitLines(input)[n..]
    requires Resumes(ScanLines(SplitLines(input)), ScanLines(SplitLines(input)[n..]), kept, latched, n)
    requires ReadLine(rest, MAX_DATA_LINE) == TooLong(after) && DiscardLine(after).None?
    ensures BodySpec(input, max) == Aborted
  {
    assert SplitLines(after) == [];
    assert ScanLines(SplitLines(rest)) == Cut;
  }

  // ---- readBody against the plain reading of the protocol ----

  function Decoded(ls: seq<string>): (r: seq<string>)
    ensures |r| == |ls|
  {
    seq(|ls|, i requires 0 <= i < |ls| => Unstuff(Chomp(ls[i])))
  }

  /** `d` is the first lone dot. */
  predicate FirstDot(ls: seq<string>, d: nat) {
    d < |ls| && IsDot(ls[d]) && forall i :: 0 <= i < d ==> !IsDot(ls[i])
  }

  predicate NoneLong(ls: seq<string>) {
    forall i :: 0 <= i < |ls| ==> !IsLong(ls[i])
  }

  /** Without over-length lines, reading cuts at the first lone dot, wherever it is. */
  lemma {:induction false} ScanShort(ls: seq<string>, d: nat)
    requires FirstDot(ls, d) && NoneLong(ls[..d + 1])
    ensures ScanLines(ls) == Scan(Decoded(ls[..d]), false, d + 1)
  {
    hide TrimRight, Chomp, Unstuff;
    assert ls[0] == ls[..d + 1][0];
    if d > 0 {
      assert ls[1..][..d] == ls[..d + 1][1..];
      ScanShort(ls[1..], d - 1);
      assert Decoded(ls[..d]) == [Unstuff(Chomp(ls[0]))] + Decoded(ls[1..][..d - 1]);
    } else {
      assert Decoded(ls[..d]) == [];
    }
  }

  lemma {:induction false} ScanWithoutDot(ls: seq<string>)
    requires forall i :: 0 <= i < |ls| ==> !IsDot(ls[i])
    ensures ScanLines(ls) == Cut
    decreases |ls|
  {
    hide TrimRight;
    if ls != [] {
      ScanWithoutDot(ls[1..]);
      if |ls| >= 2 {
        ScanWithoutDot(ls[2..]);
      }
    }
  }

  /** With no over-length line before the dot, readBody consumes exactly through the
      first lone dot, and discards the message iff the decoded text exceeds the limit. */
  lemma {:induction false} ReadBodyIsSimple(before: seq<string>, dot: string, rest: string, max: nat)
    requires forall i :: 0 <= i < |before| ==> IsLine(before[i]) && !IsDot(before[i])
    requires IsLine(dot) && IsDot(dot) && NoneLong(before + [dot])
    ensures BodySpec(Flatten(before) + dot + rest, max) ==
            var text := Terminate(Decoded(before));
            if |text| > max then Oversize(rest) else Body(text, rest)
  {
    hide TrimRight, Chomp, Unstuff, SplitLines, IsLine;
    var ls, d := before + [dot], |before|;
    var input := Flatten(before) + dot + rest;
    FlattenAppend(before, [dot]);
    assert Flatten([dot]) == dot;
    assert Flatten(ls) + rest == input;
    SplitFlatten(ls, rest);
    var all := ls + SplitLines(rest);
    assert all[..d + 1] == ls && all[..d] == before;
    assert all[d] == dot;
    ScanShort(all, d);
    assert input[|Flatten(ls)|..] == rest;
  }

  /** A stream with no lone dot ends the session. */
  lemma {:induction false} ReadBodyWithoutDot(input: string, max: nat)
    requires forall i :: 0 <= i < |SplitLines(input)| ==> !IsDot(SplitLines(input)[i])
    ensures BodySpec(input, max) == Aborted
  {
    ScanWithoutDot(SplitLines(input));
  }

  // ---- Over-length lines ----

  /** How many over-length lines stand in a row just before line `d`. */
  function LongRun(ls: seq<string>, d: nat): (n: nat)
    requires d <= |ls|
    ensures n <= d
  {
    if d > 0 && IsLong(ls[d - 1]) then 1 + LongRun(ls, d - 1) else 0
  }

  lemma {:induction false} LongRunShift(ls: seq<string>, k: nat, d: nat)
    requires k <= d <= |ls|
    ensures LongRun(ls[k..], d - k) == if LongRun(ls, d) <= d - k then LongRun(ls, d) else d - k
    decreases d
  {
    if k < d {
      assert ls[k..][d - k - 1] == ls[d - 1];
      LongRunShift(ls, k, d - 1);
    }
  }

  /** An over-length line also swallows the line after it, so the first lone dot ends
      the body iff the over-length lines just before it are even in number; otherwise
      that dot is taken for text and reading goes on. */
  lemma {:induction false} DotHeeded(ls: seq<string>, d: nat)
    requires FirstDot(ls, d) && !IsLong(ls[d])
    ensures LongRun(ls, d) % 2 == 0 <==> (ScanLines(ls).Scan? && ScanLines(ls).used == d + 1)
    decreases |ls|
  {
    hide IsDot, IsLong, Unstuff, LongRun, ScanLines;
    LongRunMaximal(ls, d);
    ScanHead(ls);
    if d == 0 {
      assert LongRun(ls, 0) == 0 by { NoRun(ls); }
    } else if !IsLong(ls[0]) {
      LongRunShift(ls, 1, d);
      assert FirstDot(ls[1..], d - 1);
      DotHeeded(ls[1..], d - 1);
    } else if d == 1 {
      assert LongRun(ls, 1) == 1 by { OneRun(ls); }
    } else {
      LongRunShift(ls, 2, d);
      assert FirstDot(ls[2..], d - 2);
      DotHeeded(ls[2..], d - 2);
    }
  }

  lemma {:induction false} NoRun(ls: seq<string>)
    ensures LongRun(ls, 0) == 0
  {
  }

  lemma {:induction false} OneRun(ls: seq<string>)
    requires ls != [] && IsLong(ls[0])
    ensures LongRun(ls, 1) == 1
  {
    NoRun(ls);
  }

  /** How the first line moves the count of lines consumed. */
  lemma {:induction false} ScanHead(ls: seq<string>)
    requires ls != []
    ensures var s := ScanLines(ls);
            if IsLong(ls[0]) then
              if |ls| < 2 then s.Cut?
              else s.Scan? == ScanLines(ls[2..]).Scan? && (s.Scan? ==> s.used == ScanLines(ls[2..]).used + 2)
            else if IsDot(ls[0]) then s.Scan? && s.used == 1
            else s.Scan? == ScanLines(ls[1..]).Scan? && (s.Scan? ==> s.used == ScanLines(ls[1..]).used + 1)
  {
    hide IsDot, IsLong, Unstuff;
  }

  /** Whichever dot ends it, the body is discarded as oversize iff an over-length line
      stood before that dot or the text kept exceeds the limit. */
  lemma {:induction false} LatchedByLongLine(ls: seq<string>)
    requires ScanLines(ls).Scan?
    ensures ScanLines(ls).latched <==> !NoneLong(ls[..ScanLines(ls).used])
    decreases |ls|
  {
    hide TrimRight, Chomp, Unstuff;
    var used := ScanLines(ls).used;
    assert ls[..used][0] == ls[0];
    if !IsLong(ls[0]) && !IsDot(ls[0]) {
      LatchedByLongLine(ls[1..]);
      assert ls[..used] == [ls[0]] + ls[1..][..used - 1];
    }
  }

  /** The smallest case: after one over-length line the dot line is dropped, and what
      follows it is taken for the rest of the body, which is discarded when it ends. */
  lemma {:induction false} DotSwallowed(long: string, dot: string, rest: string, max: nat)
    requires IsLine(long) && IsLong(long) && IsLine(dot) && IsDot(dot)
    ensures BodySpec(long + dot + rest, max) ==
            match BodySpec(rest, max)
            case Aborted => Aborted
            case Oversize(tail) => Oversize(tail)
            case Body(_, tail) => Oversize(tail)
  {
    hide IsDot, IsLong, SplitLines, IsLine, Terminate, Flatten;
    var ls, more := [long, dot], SplitLines(rest);
    var input := long + dot + rest;
    assert Flatten(ls) == long + dot by { FlattenTwo(long, dot); }
    SplitFlatten(ls, rest);
    var all := ls + more;
    assert all[2..] == more && all[0] == long && all[1] == dot;
    match ScanLines(more) {
      case Cut =>
      case Scan(_, _, used) =>
        assert all[..used + 2] == ls + more[..used];
        FlattenAppend(ls, more[..used]);
        assert |input| - |rest| == |Flatten(ls)|;
        var n := |Flatten(more[..used])|;
        if n <= |rest| {
          assert input[|Flatten(ls)| + n..] == rest[n..];
        }
    }
  }

  lemma {:induction false} FlattenTwo(a: string, b: string)
    ensures Flatten([a, b]) == a + b
  {
    assert [a, b][1..] == [b] && Flatten([b]) == b;
  }

  lemma {:induction false} LongRunMaximal(ls: seq<string>, d: nat)
    requires d <= |ls|
    ensures LongRun(ls, d) < d ==> !IsLong(ls[d - 1 - LongRun(ls, d)])
    ensures d > 0 && LongRun(ls, d) == d ==> IsLong(ls[0])
  {
    if d > 0 {
      LongRunMaximal(ls, d - 1);
    }
  }

  // ---- writeBody ----

  /** The index of the first CRLF, or -1. */
  function IndexCRLF(s: string): (i: int)
    ensures -1 <= i && (i >= 0 ==> i + 2 <= |s| && s[i] == '\r' && s[i + 1] == '\n')
    ensures forall k :: 0 <= k < (if i < 0 then |s| - 1 else i) ==> s[k] != '\r' || s[k + 1] != '\n'
  {
    if |s| < 2 then -1
    else if s[0] == '\r' && s[1] == '\n' then 0
    else
      var i := IndexCRLF(s[1..]);
      if i < 0 then -1 else i + 1
  }

  /** strings.Split(s, CRLF). */
  function SplitCRLF(s: string): (r: seq<string>)
    ensures r != []
    decreases |s|
  {
    var i := IndexCRLF(s);
    if i < 0 then [s] else [s[..i]] + SplitCRLF(s[i + 2..])
  }

  function Stuff(piece: string): string {
    (if "." <= piece then "." else "") + piece
  }

  function Stuffed(pieces: seq<string>): (r: seq<string>)
    ensures |r| == |pieces|
  {
    seq(|pieces|, i requires 0 <= i < |pieces| => Stuff(pieces[i]) + CRLF)
  }

  const DOT_LINE := ".\r\n"

  function Encode(body: string): string {
    Flatten(Stuffed(SplitCRLF(body))) + DOT_LINE
  }

  method WriteBody(body: string) returns (out: string)
    ensures out == Encode(body)
  {
    hide IndexCRLF, SplitCRLF, Stuff;
    var pieces := SplitCRLF(body);
    out := "";
    for i := 0 to |pieces|
      invariant out == Flatten(Stuffed(pieces)[..i])
    {
      var line := Stuff(pieces[i]) + CRLF;
      assert Stuffed(pieces)[..i + 1] == Stuffed(pieces)[..i] + [line];
      FlattenAppend(Stuffed(pieces)[..i], [line]);
      assert Flatten([line]) == line;
      out := out + line;
    }
    assert Stuffed(pieces)[..|pieces|] == Stuffed(pieces);
    out := out + DOT_LINE;
  }

  // ---- The round trip ----

  /** A piece that survives the line protocol: no LF inside, no CR at the end. */
  predicate CleanPiece(p: string) {
    Free(p, '\n') && (p != [] ==> p[|p| - 1] != '\r')
  }

  predicate Clean(body: string) {
    forall p :: p in SplitCRLF(body) ==> CleanPiece(p)
  }

  /** No line of the relayed body is over-length. */
  predicate LinesFit(body: string) {
    forall p :: p in SplitCRLF(body) ==> |Stuff(p)| + 2 <= MAX_DATA_LINE
  }

  lemma {:induction false} SplitAt(p: string, rest: string)
    requires IndexCRLF(p) < 0
    ensures SplitCRLF(p + CRLF + rest) == [p] + SplitCRLF(rest)
  {
    hide IndexCRLF;
    var s := p + CRLF + rest;
    var i := IndexCRLF(s);
    assert s[|p|] == '\r' && s[|p| + 1] == '\n';
    assert forall k :: 0 <= k < |p| ==> s[k] == p[k];
    assert i == |p|;
    assert s[..i] == p && s[i + 2..] == rest;
  }

  lemma {:induction false} TerminateSnoc(ps: seq<string>, p: string)
    ensures Terminate(ps + [p]) == Terminate(ps) + p + CRLF
  {
    assert (ps + [p])[..|ps|] == ps;
  }

  lemma {:induction false} TerminateCons(p: string, ps: seq<string>)
    ensures Terminate([p] + ps) == p + CRLF + Terminate(ps)
  {
    hide Terminate;
    assert Terminate([]) == "" by { TerminateNone(); }
    if ps == [] {
      assert [p] + ps == [] + [p];
      TerminateSnoc([], p);
    } else {
      var n := |ps| - 1;
      var head, last := ps[..n], ps[n];
      assert ps == head + [last] && [p] + ps == ([p] + head) + [last];
      TerminateSnoc(head, last);
      TerminateSnoc([p] + head, last);
      TerminateCons(p, head);
      Regroup(p, Terminate(head), last);
    }
  }

  lemma {:induction false} Regroup(p: string, q: string, last: string)
    ensures (p + CRLF + q) + last + CRLF == p + CRLF + (q + last + CRLF)
  {
  }

  /** Every piece terminated is the body and one CRLF more. */
  lemma {:induction false} TerminateSplit(body: string)
    ensures Terminate(SplitCRLF(body)) == body + CRLF
    decreases |body|
  {
    hide IndexCRLF, Terminate;
    var i := IndexCRLF(body);
    if i < 0 {
      TerminateCons(body, []);
      assert Terminate([]) == "" by { TerminateNone(); }
      assert [body] + [] == [body];
    } else {
      TerminateCons(body[..i], SplitCRLF(body[i + 2..]));
      TerminateSplit(body[i + 2..]);
      CutCRLF(body, i);
    }
  }

  lemma {:induction false} TerminateNone()
    ensures Terminate([]) == ""
  {
  }

  lemma {:induction false} CutCRLF(body: string, i: nat)
    requires i + 2 <= |body| && body[i] == '\r' && body[i + 1] == '\n'
    ensures body == body[..i] + CRLF + body[i + 2..]
    ensures body + CRLF == body[..i] + CRLF + (body[i + 2..] + CRLF)
  {
    assert body == body[..i] + CRLF + body[i + 2..];
  }

  /** Terminated clean pieces split back into themselves and an empty last piece. */
  lemma {:induction false} SplitTerminate(ps: seq<string>)
    requires forall p :: p in ps ==> CleanPiece(p)
    ensures SplitCRLF(Terminate(ps)) == ps + [""]
  {
    if ps == [] {
    } else {
      assert ps == [ps[0]] + ps[1..];
      TerminateCons(ps[0], ps[1..]);
      assert CleanPiece(ps[0]);
      SplitAt(ps[0], Terminate(ps[1..]));
      SplitTerminate(ps[1..]);
    }
  }

  lemma {:induction false} ChompLine(p: string)
    requires CleanPiece(p)
    ensures IsLine(p + CRLF) && Chomp(p + CRLF) == p
  {
    var l := p + CRLF;
    assert l[..|l| - 1] == p + "\r";
    assert l[..|l| - 1][..|p|] == p;
    if p != [] {
      assert p[|p| - 1] !in LINE_ENDS;
    }
    assert TrimRight(p, LINE_ENDS) == p;
    assert TrimRight(p + "\r", LINE_ENDS) == TrimRight(p, LINE_ENDS);
  }

  lemma {:induction false} ChompBare(p: string)
    requires CleanPiece(p)
    ensures IsLine(p + "\n") && Chomp(p + "\n") == p
  {
    var l := p + "\n";
    assert l[..|l| - 1] == p;
    if p != [] {
      assert p[|p| - 1] !in LINE_ENDS;
    }
    assert TrimRight(p, LINE_ENDS) == p;
  }

  lemma {:induction false} StuffedLine(p: string)
    requires CleanPiece(p)
    ensures IsLine(Stuff(p) + CRLF) && !IsDot(Stuff(p) + CRLF)
    ensures Unstuff(Chomp(Stuff(p) + CRLF)) == p
  {
    hide TrimRight;
    var q := Stuff(p);
    if "." <= p {
      assert q == "." + p && q[1..] == p && q[0] == '.' && q[1] == '.';
      assert ".." <= q;
    } else {
      assert q == p;
    }
    ChompLine(q);
  }

  /** Reading back what writeBody emits: the body gains exactly one CRLF, reading
      stops exactly at the dot, and only the size limit can interfere. */
  lemma {:induction false} RoundTrip(body: string, rest: string, max: nat)
    requires Clean(body) && LinesFit(body)
    ensures BodySpec(Encode(body) + rest, max) ==
            if |body| + 2 > max then Oversize(rest) else Body(body + CRLF, rest)
  {
    hide IndexCRLF, SplitCRLF, BodySpec, IsLine, IsDot, Chomp, Unstuff, Stuff, CleanPiece;
    var ps := SplitCRLF(body);
    var before := Stuffed(ps);
    forall i | 0 <= i < |before|
      ensures IsLine(before[i]) && !IsDot(before[i]) && !IsLong(before[i])
      ensures Unstuff(Chomp(before[i])) == ps[i]
    {
      assert ps[i] in ps;
      StuffedLine(ps[i]);
    }
    assert Decoded(before) == ps;
    assert IsLine(DOT_LINE) && IsDot(DOT_LINE) by { DotLine(); }
    ReadBodyIsSimple(before, DOT_LINE, rest, max);
    TerminateSplit(body);
  }

  lemma {:induction false} DotLine()
    ensures IsLine(DOT_LINE) && IsDot(DOT_LINE)
  {
    ChompLine(".");
    assert "." + CRLF == DOT_LINE;
  }

  /** Every piece that readBody keeps is clean. */
  lemma {:induction false} ScanKeepsClean(ls: seq<string>)
    requires forall i :: 0 <= i < |ls| ==> IsLine(ls[i])
    ensures ScanLines(ls).Scan? ==> forall p :: p in ScanLines(ls).kept ==> CleanPiece(p)
    decreases |ls|
  {
    hide TrimRight, Chomp, Unstuff, IsLine, CleanPiece;
    if |ls| >= 2 && IsLong(ls[0]) {
      ScanKeepsClean(ls[2..]);
    } else if ls != [] && !IsDot(ls[0]) {
      ScanKeepsClean(ls[1..]);
      ChompedIsClean(ls[0]);
    }
  }

  lemma {:induction false} ChompedIsClean(l: string)
    requires IsLine(l)
    ensures CleanPiece(Unstuff(Chomp(l)))
  {
    var c := Chomp(l);
    assert c <= l && (c != [] ==> c[|c| - 1] !in LINE_ENDS);
    assert forall i :: 0 <= i < |c| ==> c[i] == l[i];
    assert forall i :: 0 <= i < |l| - 1 ==> l[..|l| - 1][i] == l[i];
  }

  /** No piece of a body that readBody returns holds an LF or ends in CR. That alone does
      not let a relay carry it: see ReturnedBodyRelays. */
  lemma {:induction false} ReadBodyReturnsClean(input: string, max: nat)
    requires BodySpec(input, max).Body?
    ensures Clean(BodySpec(input, max).text)
  {
    hide SplitCRLF, CleanPiece, SplitLines, Terminate;
    var ls := SplitLines(input);
    ScanKeepsClean(ls);
    SplitTerminate(ScanLines(ls).kept);
    assert CleanPiece("") by { EmptyIsClean(); }
  }

  lemma {:induction false} EmptyIsClean()
    ensures CleanPiece("")
  {
  }

  lemma {:induction false} SplitOneMore(body: string)
    ensures SplitCRLF(body + CRLF) == SplitCRLF(body) + [""]
    decreases |body|
  {
    hide IndexCRLF, SplitCRLF;
    var i := IndexCRLF(body);
    if i < 0 {
      SplitAt(body, "");
      assert body + CRLF + "" == body + CRLF;
      assert SplitCRLF(body) == [body] && SplitCRLF("") == [""] by { OnePiece(body); OnePiece(""); }
    } else {
      var p, q := body[..i], body[i + 2..];
      CutCRLF(body, i);
      assert IndexCRLF(p) < 0 by { BeforeCRLF(body); }
      SplitAt(p, q);
      SplitAt(p, q + CRLF);
      SplitOneMore(q);
    }
  }

  lemma {:induction false} OnePiece(s: string)
    requires IndexCRLF(s) < 0
    ensures SplitCRLF(s) == [s]
  {
  }

  lemma {:induction false} BeforeCRLF(s: string)
    requires IndexCRLF(s) >= 0
    ensures IndexCRLF(s[..IndexCRLF(s)]) < 0
  {
    hide IndexCRLF;
  }

  /** Reading ends at a lone dot and nowhere else. */
  lemma {:induction false} ScanEndsAtDot(ls: seq<string>)
    requires ScanLines(ls).Scan?
    ensures IsDot(ls[ScanLines(ls).used - 1])
    decreases |ls|
  {
    hide IsDot, Unstuff;
    if IsLong(ls[0]) {
      ScanEndsAtDot(ls[2..]);
    } else if !IsDot(ls[0]) {
      ScanEndsAtDot(ls[1..]);
    }
  }

  /** A clean body with a line that is too long never arrives. */
  lemma {:induction false} LongPieceIsLost(body: string, rest: string, max: nat)
    requires Clean(body) && !LinesFit(body)
    ensures !BodySpec(Encode(body) + rest, max).Body?
  {
    hide IndexCRLF, SplitCRLF, SplitLines, IsLine, IsDot, Chomp, Unstuff, Stuff, CleanPiece, ScanLines, Terminate;
    var ps := SplitCRLF(body);
    var before := Stuffed(ps);
    forall i | 0 <= i < |before| ensures IsLine(before[i]) && !IsDot(before[i]) {
      assert ps[i] in ps;
      StuffedLine(ps[i]);
    }
    DotLine();
    var ls := before + [DOT_LINE];
    FlattenAppend(before, [DOT_LINE]);
    assert Flatten([DOT_LINE]) == DOT_LINE;
    SplitFlatten(ls, rest);
    var all := ls + SplitLines(rest);
    var j: nat :| j < |ps| && |Stuff(ps[j])| + 2 > MAX_DATA_LINE;
    if ScanLines(all).Scan? {
      var used := ScanLines(all).used;
      assert forall i :: 0 <= i < |before| ==> all[i] == before[i];
      ScanEndsAtDot(all);
      assert all[..used][j] == before[j];
      LatchedByLongLine(all);
    }
  }

  /** The bodies that a relay carries unharmed but for the extra CRLF are exactly those
      that are clean, have no over-length line and leave room for the CRLF; any other
      body comes back different, is discarded, or does not end. */
  lemma {:induction false} RoundTripIff(body: string, rest: string, max: nat)
    ensures BodySpec(Encode(body) + rest, max) == Body(body + CRLF, rest)
            <==> Clean(body) && LinesFit(body) && |body| + 2 <= max
  {
    hide SplitCRLF, CleanPiece, BodySpec, Encode, LinesFit;
    if BodySpec(Encode(body) + rest, max) == Body(body + CRLF, rest) {
      ReadBodyReturnsClean(Encode(body) + rest, max);
      SplitOneMore(body);
      if !LinesFit(body) {
        LongPieceIsLost(body, rest, max);
      }
    }
    if Clean(body) && LinesFit(body) {
      RoundTrip(body, rest, max);
    }
  }

  /** No body is ever relayed unchanged. */
  lemma {:induction false} NeverUnchanged(body: string, rest: string, max: nat)
    ensures BodySpec(Encode(body) + rest, max) != Body(body, rest)
  {
    hide SplitCRLF, CleanPiece, BodySpec, Encode, LinesFit;
    if BodySpec(Encode(body) + rest, max) == Body(body, rest) {
      ReadBodyReturnsClean(Encode(body) + rest, max);
      if LinesFit(body) {
        RoundTrip(body, rest, max);
      } else {
        LongPieceIsLost(body, rest, max);
      }
    }
  }

  // ---- Accepted here, lost at the next instance ----

  /** The length of the line that the relay writes for an accepted line: a bare LF becomes
      CRLF, and a single leading dot is doubled. */
  function RelayedLength(line: string): nat {
    var c := Chomp(line);
    |c| + 2 + if "." <= c && !(".." <= c) then 1 else 0
  }

  lemma {:induction false} RelayedLengthIs(line: string)
    ensures |Stuff(Unstuff(Chomp(line)))| + 2 == RelayedLength(line)
  {
    hide Chomp;
    var c := Chomp(line);
    if ".." <= c {
      assert c[1..][0] == '.';
    }
  }

  /** The lines that the text of a body comes from. */
  function BodyLines(input: string): seq<string> {
    var ls := SplitLines(input);
    match ScanLines(ls)
    case Cut => []
    case Scan(_, _, used) => ls[..used - 1]
  }

  lemma {:induction false} KeptAreDecoded(ls: seq<string>)
    requires ScanLines(ls).Scan? && !ScanLines(ls).latched
    ensures ScanLines(ls).kept == Decoded(ls[..ScanLines(ls).used - 1])
  {
    hide IsDot, Chomp, Unstuff;
    if !IsDot(ls[0]) {
      KeptAreDecoded(ls[1..]);
      var used := ScanLines(ls).used;
      assert ls[..used - 1] == [ls[0]] + ls[1..][..used - 2];
    }
  }

  /** A body read from the wire can be relayed iff none of its lines grows over-length. */
  lemma {:induction false} FitsOnTheInput(input: string, max: nat)
    requires BodySpec(input, max).Body?
    ensures LinesFit(BodySpec(input, max).text) <==>
            forall l :: l in BodyLines(input) ==> RelayedLength(l) <= MAX_DATA_LINE
  {
    hide SplitCRLF, CleanPiece, SplitLines, Terminate, Stuff, Chomp, Unstuff, RelayedLength;
    var all := SplitLines(input);
    var kept, ls := ScanLines(all).kept, BodyLines(input);
    ScanKeepsClean(all);
    SplitTerminate(kept);
    KeptAreDecoded(all);
    assert Stuff("") == "" by { StuffEmpty(); }
    forall i | 0 <= i < |ls| ensures |Stuff(kept[i])| + 2 == RelayedLength(ls[i]) {
      RelayedLengthIs(ls[i]);
    }
    FitsTogether(kept, ls);
  }

  lemma {:induction false} FitsTogether(kept: seq<string>, ls: seq<string>)
    requires |kept| == |ls| && forall i :: 0 <= i < |ls| ==> |Stuff(kept[i])| + 2 == RelayedLength(ls[i])
    requires Stuff("") == ""
    ensures (forall p :: p in kept + [""] ==> |Stuff(p)| + 2 <= MAX_DATA_LINE)
            <==> forall l :: l in ls ==> RelayedLength(l) <= MAX_DATA_LINE
  {
    hide Stuff, RelayedLength;
    var all := kept + [""];
    if forall p :: p in all ==> |Stuff(p)| + 2 <= MAX_DATA_LINE {
      forall l | l in ls ensures RelayedLength(l) <= MAX_DATA_LINE {
        var i: nat :| i < |ls| && ls[i] == l;
        assert all[i] == kept[i];
      }
    }
    if forall l :: l in ls ==> RelayedLength(l) <= MAX_DATA_LINE {
      forall p | p in all ensures |Stuff(p)| + 2 <= MAX_DATA_LINE {
        var i: nat :| i < |all| && all[i] == p;
        assert i < |kept| ==> ls[i] in ls;
      }
    }
  }

  /** Of the bodies that one instance accepts, the next one reads exactly those with one
      CRLF more whose lines, as they came in, stay within the line limit once relayed and
      whose length stays within its size limit. */
  lemma {:induction false} ReturnedBodyRelays(input: string, max: nat, rest: string, next: nat)
    requires BodySpec(input, max).Body?
    ensures var b := BodySpec(input, max).text;
            BodySpec(Encode(b) + rest, next) == Body(b + CRLF, rest) <==>
            (forall l :: l in BodyLines(input) ==> RelayedLength(l) <= MAX_DATA_LINE) && |b| + 2 <= next
  {
    hide BodySpec, Encode, BodyLines, RelayedLength, Clean, LinesFit;
    ReadBodyReturnsClean(input, max);
    FitsOnTheInput(input, max);
    RoundTripIff(BodySpec(input, max).text, rest, next);
  }

  /** A line that grows over-length is accepted, and never arrives. */
  lemma {:induction false} AcceptedAndLost(line: string, rest: string, max: nat, more: string, next: nat)
    requires IsLine(line) && !IsDot(line) && !IsLong(line) && RelayedLength(line) > MAX_DATA_LINE
    requires |Unstuff(Chomp(line))| + 2 <= max
    ensures var b := Unstuff(Chomp(line)) + CRLF;
            BodySpec(line + DOT_LINE + rest, max) == Body(b, rest)
            && !BodySpec(Encode(b) + more, next).Body?
  {
    hide SplitCRLF, CleanPiece, SplitLines, Stuff, Chomp, Unstuff, RelayedLength, IsLine, BodySpec, Encode, IsDot;
    var p := Unstuff(Chomp(line));
    var b := p + CRLF;
    DotLine();
    assert Flatten([line]) == line;
    assert Decoded([line])[0] == Unstuff(Chomp([line][0])) == p;
    assert Decoded([line]) == [p];
    assert Terminate([p]) == b by { assert Terminate([]) == "" && [p][..0] == []; assert "" + p == p; }
    assert NoneLong([line] + [DOT_LINE]);
    ReadBodyIsSimple([line], DOT_LINE, rest, max);
    ReadBodyReturnsClean(line + DOT_LINE + rest, max);
    assert CleanPiece(p) by { ChompedIsClean(line); }
    SplitTerminate([p]);
    RelayedLengthIs(line);
    assert p in [p] + [""];
    LongPieceIsLost(b, more, next);
  }

  function Letters(n: nat): (s: string)
    ensures |s| == n
  {
    seq(n, _ => 'x')
  }

  lemma {:induction false} LettersAreClean(n: nat)
    ensures CleanPiece(Letters(n)) && CleanPiece("." + Letters(n))
    ensures n > 0 ==> !(".." <= "." + Letters(n)) && !("." <= Letters(n))
  {
    if n > 0 {
      assert ("." + Letters(n))[1] == 'x' && Letters(n)[0] == 'x';
    }
  }

  /** Two such lines of exactly the permitted length: one ended by a bare LF, and one that
      starts with a dot the sender did not double. */
  lemma {:induction false} LinesThatAreLost(max: nat, next: nat, more: string) returns (bare: string, dotted: string)
    requires max >= MAX_DATA_LINE + 2
    ensures |bare| == MAX_DATA_LINE && !HasSuffix(bare, CRLF) && |dotted| == MAX_DATA_LINE && HasSuffix(dotted, CRLF)
    ensures forall l :: l in {bare, dotted} ==>
              var r := BodySpec(l + DOT_LINE + "", max);
              r.Body? && !BodySpec(Encode(r.text) + more, next).Body?
  {
    hide Letters, CleanPiece, IsLine, Chomp, BodySpec, Encode;
    var p, q := Letters(MAX_DATA_LINE - 1), "." + Letters(MAX_DATA_LINE - 3);
    bare, dotted := p + "\n", q + CRLF;
    LettersAreClean(MAX_DATA_LINE - 1);
    LettersAreClean(MAX_DATA_LINE - 3);
    ChompBare(p);
    ChompLine(q);
    assert bare[MAX_DATA_LINE - 2] == p[MAX_DATA_LINE - 2];
    AcceptedAndLost(bare, "", max, more, next);
    AcceptedAndLost(dotted, "", max, more, next);
  }

  /** A stream that ends with a line of one dot, all of it sent, and never answered: the
      dot follows an over-length line. */
  lemma {:induction false} DotNeverSeen(max: nat) returns (input: string)
    ensures HasSuffix(input, CRLF + DOT_LINE) && BodySpec(input, max) == Aborted
  {
    hide Letters, CleanPiece, IsLine, IsDot, BodySpec;
    var p := Letters(MAX_DATA_LINE);
    LettersAreClean(MAX_DATA_LINE);
    ChompLine(p);
    DotLine();
    input := p + CRLF + DOT_LINE + "";
    DotSwallowed(p + CRLF, DOT_LINE, "", max);
    assert BodySpec("", max) == Aborted by { NothingSent(max); }
    assert input[|p|..] == CRLF + DOT_LINE;
  }

  lemma {:induction false} NothingSent(max: nat)
    ensures BodySpec("", max) == Aborted
  {
  }

  /** The body after `n` relays that each read, within `max`, what the last one wrote. */
  function Relayed(body: string, n: nat, max: nat): BodyResult {
    if n == 0 then Body(body, "")
    else match Relayed(body, n - 1, max)
      case Body(text, _) => BodySpec(Encode(text), max)
      case _ => Aborted
  }

  function Repeat(s: string, n: nat): string {
    if n == 0 then "" else Repeat(s, n - 1) + s
  }

  /** `n` relays append exactly `n` CRLFs. */
  lemma {:induction false} RelaysAppend(body: string, n: nat, max: nat)
    requires Clean(body) && LinesFit(body) && |body| + 2 * n <= max
    ensures Relayed(body, n, max) == Body(body + Repeat(CRLF, n), "")
    ensures Clean(body + Repeat(CRLF, n)) && LinesFit(body + Repeat(CRLF, n))
    ensures |Repeat(CRLF, n)| == 2 * n
  {
    hide SplitCRLF, CleanPiece, Stuff, BodySpec, Encode;
    if n == 0 {
      assert body + Repeat(CRLF, 0) == body;
    } else {
      RelaysAppend(body, n - 1, max);
      var prev := body + Repeat(CRLF, n - 1);
      RoundTrip(prev, "", max);
      assert Encode(prev) + "" == Encode(prev);
      SplitOneMore(prev);
      assert prev + CRLF == body + Repeat(CRLF, n);
      assert CleanPiece("") by { EmptyIsClean(); }
      assert Stuff("") == "" by { StuffEmpty(); }
    }
  }

  lemma {:induction false} StuffEmpty()
    ensures Stuff("") == ""
  {
  }

  // ---- Unstuffing against section 4.5.2 of RFC 5321 ----

  /** Section 4.5.2 of RFC 5321: a leading dot on a longer line is deleted. */
  function RfcUnstuff(piece: string): string {
    if "." <= piece && |piece| > 1 then piece[1..] else piece
  }

  /** The two rules agree iff the line is not a dot followed by something else, which
      properly stuffed input never holds. */
  lemma {:induction false} UnstuffAgrees(piece: string)
    ensures Unstuff(piece) == RfcUnstuff(piece) <==> !(|piece| > 1 && piece[0] == '.' && piece[1] != '.')
    ensures Unstuff(Stuff(piece)) == RfcUnstuff(Stuff(piece)) == piece
    ensures Unstuff(piece) == if |piece| > 1 && piece[0] == '.' && piece[1] == '.' then piece[1..] else piece
  {
    if |piece| > 1 && piece[0] == '.' {
      assert piece[1] == '.' ==> ".." <= piece;
      assert |piece[1..]| != |piece|;
    }
    var q := Stuff(piece);
    if "." <= piece {
      assert q == "." + piece && q[1..] == piece && q[0] == q[1] == '.';
    }
  }

  /** A single leading dot, and every line of at most 65536 octets with its ending, comes
      through as it is; one octet more, and the message is discarded. */
  lemma {:induction false} OneLineBody(p: string, rest: string, max: nat)
    requires CleanPiece(p) && p != "." && !(".." <= p)
    ensures BodySpec(p + CRLF + DOT_LINE + DOT_LINE + rest, max) ==
            if |p| + 2 > 65536 then Oversize(rest)
            else if |p| + 2 > max then Oversize(DOT_LINE + rest)
            else Body(p + CRLF, DOT_LINE + rest)
  {
    hide CleanPiece, SplitLines, Chomp, Unstuff, IsLine, IsDot, BodySpec;
    var line, more := p + CRLF, DOT_LINE + rest;
    ChompLine(p);
    DotLine();
    assert !IsDot(line) by { NotDot(line); }
    assert Unstuff(p) == p by { UnstuffAgrees(p); }
    assert p + CRLF + DOT_LINE + DOT_LINE + rest == line + DOT_LINE + more;
    if IsLong(line) {
      DotSwallowed(line, DOT_LINE, more, max);
      assert Flatten([]) + DOT_LINE + rest == more;
      ReadBodyIsSimple([], DOT_LINE, rest, max);
    } else {
      assert Flatten([line]) == line && Decoded([line])[0] == p;
      assert Decoded([line]) == [p];
      assert Terminate([p]) == line by { assert Terminate([]) == "" && [p][..0] == []; assert "" + p == p; }
      assert NoneLong([line] + [DOT_LINE]);
      ReadBodyIsSimple([line], DOT_LINE, more, max);
    }
  }

  lemma {:induction false} NotDot(line: string)
    requires Chomp(line) != "."
    ensures !IsDot(line)
  {
  }
}
