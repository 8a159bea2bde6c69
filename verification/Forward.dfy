/** The relay: one outbound SMTP session per message (internal/dispatch/forward.go). */
module Forward {
  import opened Text
  import opened Mail
  import opened ReplyCodec
  import C = CommandCodec
  import B = BodyCodec

  /** One conversation: what the target sends and is not yet read, and what was written. */
  datatype Talk = Talk(input: string, sent: string)

  function Wrote(t: Talk, bytes: string): Talk {
    t.(sent := t.sent + bytes)
  }

  /** Reads one reply. Anything but OK is an error to the caller. */
  function Await(t: Talk, want: int): (Result, Talk) {
    var (res, rest) := Expected(t.input, want);
    (res, t.(input := rest))
  }

  function Cmd(t: Talk, line: string, want: int): (Result, Talk) {
    Await(Wrote(t, line + CRLF), want)
  }

  function MailLine(m: Message): string { C.PrintPath("MAIL", "FROM:", m.from) }

  function RcptLine(m: Message): string { C.PrintPath("RCPT", "TO:", m.to) }

  function EhloLine(local: string): string { "EHLO" + (" " + local) }

  function HeloLine(local: string): string { "HELO" + (" " + local) }

  /** From the banner through the greeting; HELO is tried when EHLO is not accepted. */
  function Open(t: Talk, local: string): (Result, Talk) {
    var (r0, t0) := Await(t, 220);
    if r0 != OK then (r0, t0)
    else
      var (r1, t1) := Cmd(t0, EhloLine(local), 250);
      if r1 == OK then (OK, t1) else Cmd(t1, HeloLine(local), 250)
  }

  /** From MAIL to the end, each step only if the one before was accepted. */
  function Transmit(t: Talk, m: Message): (Result, Talk) {
    var (r1, t1) := Cmd(t, MailLine(m), 250);
    if r1 != OK then (r1, t1)
    else
      var (r2, t2) := Cmd(t1, RcptLine(m), 250);
      if r2 != OK then (r2, t2)
      else
        var (r3, t3) := Cmd(t2, "DATA", 354);
        if r3 != OK then (r3, t3)
        else
          var (r4, t4) := Await(Wrote(t3, B.Encode(m.body)), 250);
          if r4 != OK then (r4, t4)
          else
            var (_, t5) := Cmd(t4, "QUIT", 221);
            (OK, t5)
  }

  function Relay(t: Talk, local: string, m: Message): (Result, Talk) {
    var (r, u) := Open(t, local);
    if r != OK then (r, u) else Transmit(u, m)
  }

  class Client {
    var input: string
    var sent: string

    constructor (input: string)
      ensures View() == Talk(input, "")
    {
      this.input, sent := input, "";
    }

    function View(): Talk
      reads this
    {
      Talk(input, sent)
    }

    method AwaitReply(want: int) returns (res: Result)
      modifies this
      ensures (res, View()) == Await(old(View()), want)
    {
      res, input := Expect(input, want);
    }

    method Command(line: string, want: int) returns (res: Result)
      modifies this
      ensures (res, View()) == Cmd(old(View()), line, want)
    {
      sent := sent + (line + CRLF);
      res := AwaitReply(want);
    }

    /** One delivery. A target that cannot be dialled is a temporary failure. */
    method Dispatch(dialled: bool, local: string, m: Message) returns (res: Result)
      modifies this
      ensures !dialled ==> res == TempFail && View() == old(View())
      ensures dialled ==> (res, View()) == Relay(old(View()), local, m)
    {
      hide Await, Cmd, MailLine, RcptLine, EhloLine, HeloLine, B.Encode;
      if !dialled {
        return TempFail;
      }
      res := AwaitReply(220);
      if res != OK {
        return;
      }
      res := Command(EhloLine(local), 250);
      if res != OK {
        res := Command(HeloLine(local), 250);
        if res != OK {
          return;
        }
      }
      res := Command(MailLine(m), 250);
      if res != OK {
        return;
      }
      res := Command(RcptLine(m), 250);
      if res != OK {
        return;
      }
      res := Command("DATA", 354);
      if res != OK {
        return;
      }
      var bytes := B.WriteBody(m.body);
      sent := sent + bytes;
      res := AwaitReply(250);
      if res != OK {
        return;
      }
      var _ := Command("QUIT", 221);
      return OK;
    }
  }

  // ---- What the relay may write ----

  /** A whole delivery on the wire. */
  function Script(local: string, m: Message, viaHelo: bool): seq<string> {
    [EhloLine(local) + CRLF] + (if viaHelo then [HeloLine(local) + CRLF] else [])
    + [MailLine(m) + CRLF, RcptLine(m) + CRLF, "DATA" + CRLF, B.Encode(m.body), "QUIT" + CRLF]
  }

  lemma {:induction false} TakeNext(ps: seq<string>, n: nat, before: string)
    requires n < |ps|
    ensures before + Flatten(ps[..n]) + ps[n] == before + Flatten(ps[..n + 1])
  {
    assert ps[..n + 1] == ps[..n] + [ps[n]];
    FlattenAppend(ps[..n], [ps[n]]);
    assert Flatten([ps[n]]) == ps[n];
  }

  /** Whatever the target replies, the relay writes its script in order, nothing else, and
      stops at the first refusal: it has written the whole script iff it reports success. */
  lemma {:induction false} RelayFollowsScript(t: Talk, local: string, m: Message) returns (viaHelo: bool, n: nat)
    ensures n <= |Script(local, m, viaHelo)|
    ensures Relay(t, local, m).1.sent == t.sent + Flatten(Script(local, m, viaHelo)[..n])
    ensures Relay(t, local, m).0 == OK <==> n == |Script(local, m, viaHelo)|
  {
    hide Expected, Flatten, MailLine, RcptLine, EhloLine, HeloLine, B.Encode;
    viaHelo, n := false, 0;
    var ps := Script(local, m, false);
    assert t.sent + Flatten(ps[..0]) == t.sent by { NothingWritten(ps); }
    var (r0, t0) := Await(t, 220);
    if r0 == OK {
      TakeNext(ps, 0, t.sent);
      n := 1;
      var (r1, t1) := Cmd(t0, EhloLine(local), 250);
      if r1 == OK {
        n := TransmitFollowsScript(t1, m, ps, 1, t.sent);
      } else {
        var qs := Script(local, m, true);
        assert qs[..1] == ps[..1];
        TakeNext(qs, 1, t.sent);
        viaHelo, n := true, 2;
        var (r2, t2) := Cmd(t1, HeloLine(local), 250);
        if r2 == OK {
          n := TransmitFollowsScript(t2, m, qs, 2, t.sent);
        }
      }
    }
  }

  lemma {:induction false} NothingWritten(ps: seq<string>)
    ensures Flatten(ps[..0]) == ""
  {
  }

  lemma {:induction false} TransmitFollowsScript(t: Talk, m: Message, ps: seq<string>, k: nat, before: string)
    returns (n: nat)
    requires |ps| == k + 5
    requires ps[k] == MailLine(m) + CRLF && ps[k + 1] == RcptLine(m) + CRLF && ps[k + 2] == "DATA" + CRLF
    requires ps[k + 3] == B.Encode(m.body) && ps[k + 4] == "QUIT" + CRLF
    requires t.sent == before + Flatten(ps[..k])
    ensures n <= |ps| && Transmit(t, m).1.sent == before + Flatten(ps[..n])
    ensures Transmit(t, m).0 == OK <==> n == |ps|
  {
    hide Expected, Flatten, MailLine, RcptLine, B.Encode;
    n := k + 1;
    TakeNext(ps, k, before);
    var (r1, t1) := Cmd(t, MailLine(m), 250);
    if r1 == OK {
      n := k + 2;
      TakeNext(ps, k + 1, before);
      var (r2, t2) := Cmd(t1, RcptLine(m), 250);
      if r2 == OK {
        n := k + 3;
        TakeNext(ps, k + 2, before);
        var (r3, t3) := Cmd(t2, "DATA", 354);
        if r3 == OK {
          n := k + 4;
          TakeNext(ps, k + 3, before);
          var (r4, t4) := Await(Wrote(t3, B.Encode(m.body)), 250);
          if r4 == OK {
            n := k + 5;
            TakeNext(ps, k + 4, before);
          }
        }
      }
    }
  }

  // ---- The verdict of a delivery ----

  /** A reply as the target sends it: a code and its lines. */
  datatype Reply = Reply(code: int, lines: seq<string>)

  ghost predicate WellFormed(r: Reply) {
    100 <= r.code <= 999 && r.lines != [] && forall i :: 0 <= i < |r.lines| ==> Free(r.lines[i], '\n')
  }

  /** What the target sends: these replies, and then it falls silent. */
  function Sends(rs: seq<Reply>): string {
    if rs == [] then "" else ReplyText(rs[0].code, rs[0].lines) + Sends(rs[1..])
  }

  /** The codes wanted one after the other. A refused EHLO is no refusal; HELO follows. */
  function Wanted(rs: seq<Reply>): seq<int> {
    if |rs| > 1 && rs[1].code == 250 then [220, 250, 250, 250, 354, 250] else [220, -1, 250, 250, 250, 354, 250]
  }

  /** The first reply that refuses or is missing, or the number of codes wanted. */
  function Refusal(rs: seq<Reply>, wanted: seq<int>): (i: nat)
    ensures i <= |wanted|
  {
    if wanted == [] then 0
    else if rs == [] || (wanted[0] != -1 && rs[0].code != wanted[0]) then 0
    else 1 + Refusal(rs[1..], wanted[1..])
  }

  /** Every reply before it is there and is the one wanted; it is not. */
  lemma {:induction false} RefusalIs(rs: seq<Reply>, wanted: seq<int>, k: nat)
    ensures var i := Refusal(rs, wanted);
            && (k < i ==> k < |rs| && (wanted[k] == -1 || rs[k].code == wanted[k]))
            && (i < |wanted| && i < |rs| ==> wanted[i] != -1 && rs[i].code != wanted[i])
  {
    if Refusal(rs, wanted) > 0 {
      RefusalIs(rs[1..], wanted[1..], if k == 0 then 0 else k - 1);
      var j := Refusal(rs[1..], wanted[1..]);
      assert j + 1 < |rs| ==> rs[j + 1] == rs[1..][j];
      assert 0 < k < |rs| ==> rs[k] == rs[1..][k - 1];
    }
  }

  lemma {:induction false} HearsNext(rs: seq<Reply>, want: int, sent: string)
    requires forall i :: 0 <= i < |rs| ==> WellFormed(rs[i])
    ensures Await(Talk(Sends(rs), sent), want) ==
            if rs == [] then (TempFail, Talk("", sent))
            else (Classify(rs[0].code, want), Talk(Sends(rs[1..]), sent))
  {
    hide Expected, ReplyText, WellFormed;
    if rs == [] {
      assert Expected("", want) == (TempFail, "") by { SilentTarget(want); }
    } else {
      assert ThreeDigits(rs[0].code) && rs[0].lines != []
        && forall i :: 0 <= i < |rs[0].lines| ==> Free(rs[0].lines[i], '\n') by { Unfold(rs[0]); }
      ExpectReadsReply(rs[0].code, rs[0].lines, Sends(rs[1..]), want);
    }
  }

  lemma {:induction false} Unfold(r: Reply)
    requires WellFormed(r)
    ensures ThreeDigits(r.code) && r.lines != [] && forall i :: 0 <= i < |r.lines| ==> Free(r.lines[i], '\n')
  {
  }

  lemma {:induction false} SilentTarget(want: int)
    ensures Expected("", want) == (TempFail, "")
  {
  }

  /** The verdict on `rs` from the codes `wanted`. */
  function Verdict(rs: seq<Reply>, wanted: seq<int>): Result {
    var i := Refusal(rs, wanted);
    if i == |wanted| then OK else if i < |rs| && rs[i].code >= 500 then PermFail else TempFail
  }

  lemma {:induction false} VerdictStep(rs: seq<Reply>, wanted: seq<int>)
    requires wanted != []
    ensures Verdict(rs, wanted) ==
            if rs == [] then TempFail
            else if wanted[0] == -1 || rs[0].code == wanted[0] then Verdict(rs[1..], wanted[1..])
            else if rs[0].code >= 500 then PermFail else TempFail
    ensures Refusal(rs, wanted) ==
            if rs == [] || (wanted[0] != -1 && rs[0].code != wanted[0]) then 0 else 1 + Refusal(rs[1..], wanted[1..])
  {
  }

  lemma {:induction false} VerdictDone(rs: seq<Reply>)
    ensures Verdict(rs, []) == OK && Refusal(rs, []) == 0
  {
  }

  /** What QUIT leaves written, whatever is replied. */
  lemma {:induction false} QuitWrites(t: Talk, line: string, want: int)
    ensures Cmd(t, line, want).1.sent == t.sent + (line + CRLF)
  {
    hide Expected;
  }

  /** From MAIL on: the verdict, and what has been written, one piece for every reply
      waited for. */
  lemma {:induction false} TransmitVerdict(rs: seq<Reply>, ps: seq<string>, k: nat, m: Message)
    requires forall i :: 0 <= i < |rs| ==> WellFormed(rs[i])
    requires |ps| == k + 5
    requires ps[k] == MailLine(m) + CRLF && ps[k + 1] == RcptLine(m) + CRLF && ps[k + 2] == "DATA" + CRLF
    requires ps[k + 3] == B.Encode(m.body) && ps[k + 4] == "QUIT" + CRLF
    ensures var wanted := [250, 250, 354, 250];
            var (res, t) := Transmit(Talk(Sends(rs), Flatten(ps[..k])), m);
            && res == Verdict(rs, wanted)
            && t.sent == Flatten(ps[..k + Refusal(rs, wanted) + 1])
  {
    hide Await, Sends, WellFormed, Verdict, MailLine, RcptLine, B.Encode, Flatten,
      Refusal;
    var w := [250, 250, 354, 250];
    assert w[1..] == [250, 354, 250] && w[1..][1..] == [354, 250] && w[1..][1..][1..] == [250]
      && w[1..][1..][1..][1..] == [];
    NextPiece(ps, k);
    HearsNext(rs, 250, Flatten(ps[..k + 1]));
    VerdictStep(rs, w);
    if rs != [] && rs[0].code == 250 {
      var r1 := rs[1..];
      NextPiece(ps, k + 1);
      HearsNext(r1, 250, Flatten(ps[..k + 2]));
      VerdictStep(r1, w[1..]);
      if r1 != [] && r1[0].code == 250 {
        var r2 := r1[1..];
        NextPiece(ps, k + 2);
        HearsNext(r2, 354, Flatten(ps[..k + 3]));
        VerdictStep(r2, w[1..][1..]);
        if r2 != [] && r2[0].code == 354 {
          var r3 := r2[1..];
          NextPiece(ps, k + 3);
          HearsNext(r3, 250, Flatten(ps[..k + 4]));
          VerdictStep(r3, [250]);
          if r3 != [] {
            VerdictDone(r3[1..]);
            NextPiece(ps, k + 4);
            QuitWrites(Talk(Sends(r3[1..]), Flatten(ps[..k + 4])), "QUIT", 221);
          }
        }
      }
    }
  }

  lemma {:induction false} NextPiece(ps: seq<string>, k: nat)
    requires k < |ps|
    ensures Flatten(ps[..k]) + ps[k] == Flatten(ps[..k + 1])
  {
    hide Flatten;
    TakeNext(ps, k, "");
    assert "" + Flatten(ps[..k]) == Flatten(ps[..k]) && "" + Flatten(ps[..k + 1]) == Flatten(ps[..k + 1]);
  }

  /** How many pieces have been written when reply `i` of those wanted refuses, or all `n`
      are in: one for each reply waited for after the banner, and HELO after an EHLO that
      is not answered. */
  function PiecesWritten(i: nat, n: nat): nat {
    if i < n && i == 1 then 2 else i
  }

  /** The whole of what is said about a delivery. */
  ghost predicate Delivers(rs: seq<Reply>, local: string, m: Message) {
    var wanted, helo := Wanted(rs), |Wanted(rs)| == 7;
    var (res, t) := Relay(Talk(Sends(rs), ""), local, m);
    var n := PiecesWritten(Refusal(rs, wanted), |wanted|);
    && res == Verdict(rs, wanted)
    && n <= |Script(local, m, helo)| && t.sent == Flatten(Script(local, m, helo)[..n])
  }

  /** Whatever well-formed replies the target sends before it falls silent: the delivery
      succeeds iff the banner, the greeting, MAIL, RCPT, DATA and the body each get the
      code wanted; otherwise the failure is permanent iff the first reply that refuses,
      that to EHLO aside, is 500 or more, and temporary if it is less or missing. Nothing
      is written before the reply to what precedes it has been accepted. */
  lemma {:induction false} RelayVerdict(rs: seq<Reply>, local: string, m: Message)
    requires forall i :: 0 <= i < |rs| ==> WellFormed(rs[i])
    ensures Delivers(rs, local, m)
  {
    hide Delivers, WellFormed;
    if |rs| < 2 || rs[0].code != 220 {
      NotGreeted(rs, local, m);
    } else if rs[1].code == 250 {
      EhloTaken(rs, local, m);
    } else {
      EhloRefused(rs, local, m);
    }
  }

  lemma {:induction false} NotGreeted(rs: seq<Reply>, local: string, m: Message)
    requires forall i :: 0 <= i < |rs| ==> WellFormed(rs[i])
    requires |rs| < 2 || rs[0].code != 220
    ensures Delivers(rs, local, m)
  {
    hide Await, Sends, WellFormed, Verdict, Transmit, EhloLine, HeloLine, MailLine, RcptLine, B.Encode, Flatten,
      Refusal;
    var wanted, qs := Wanted(rs), Script(local, m, true);
    NothingWritten(Script(local, m, |wanted| == 7));
    HearsNext(rs, 220, "");
    VerdictStep(rs, wanted);
    if rs != [] && rs[0].code == 220 {
      assert wanted[1..] == [-1, 250, 250, 250, 354, 250];
      NextPiece(qs, 0);
      NextPiece(qs, 1);
      HearsNext(rs[1..], 250, Flatten(qs[..1]));
      HearsNext([], 250, Flatten(qs[..2]));
      VerdictStep(rs[1..], wanted[1..]);
      assert Sends([]) == "" by { NothingSentYet(); }
      assert "" + qs[0] == qs[0];
    }
  }

  lemma {:induction false} EhloTaken(rs: seq<Reply>, local: string, m: Message)
    requires forall i :: 0 <= i < |rs| ==> WellFormed(rs[i])
    requires |rs| >= 2 && rs[0].code == 220 && rs[1].code == 250
    ensures Delivers(rs, local, m)
  {
    hide Await, Sends, WellFormed, Verdict, Transmit, EhloLine, HeloLine, MailLine, RcptLine, B.Encode, Flatten,
      Refusal;
    var w, ps := [220, 250, 250, 250, 354, 250], Script(local, m, false);
    assert w[1..] == [250, 250, 250, 354, 250] && w[1..][1..] == [250, 250, 354, 250];
    NothingWritten(ps);
    NextPiece(ps, 0);
    assert "" + ps[0] == ps[0];
    HearsNext(rs, 220, "");
    HearsNext(rs[1..], 250, Flatten(ps[..1]));
    VerdictStep(rs, w);
    VerdictStep(rs[1..], w[1..]);
    TransmitVerdict(rs[1..][1..], ps, 1, m);
  }

  lemma {:induction false} EhloRefused(rs: seq<Reply>, local: string, m: Message)
    requires forall i :: 0 <= i < |rs| ==> WellFormed(rs[i])
    requires |rs| >= 2 && rs[0].code == 220 && rs[1].code != 250
    ensures Delivers(rs, local, m)
  {
    hide Await, Sends, WellFormed, Verdict, Transmit, EhloLine, HeloLine, MailLine, RcptLine, B.Encode, Flatten,
      Refusal;
    var w, qs := [220, -1, 250, 250, 250, 354, 250], Script(local, m, true);
    assert w[1..] == [-1, 250, 250, 250, 354, 250] && w[1..][1..] == [250, 250, 250, 354, 250];
    assert w[1..][1..][1..] == [250, 250, 354, 250];
    var r1 := rs[1..];
    var r2 := r1[1..];
    NothingWritten(qs);
    NextPiece(qs, 0);
    NextPiece(qs, 1);
    assert "" + qs[0] == qs[0];
    HearsNext(rs, 220, "");
    HearsNext(r1, 250, Flatten(qs[..1]));
    HearsNext(r2, 250, Flatten(qs[..2]));
    VerdictStep(rs, w);
    VerdictStep(r1, w[1..]);
    VerdictStep(r2, w[1..][1..]);
    if r2 != [] && r2[0].code == 250 {
      TransmitVerdict(r2[1..], qs, 2, m);
    }
  }

  lemma {:induction false} NothingSentYet()
    ensures Sends([]) == ""
  {
  }
}
