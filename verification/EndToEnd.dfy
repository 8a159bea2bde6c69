/** One instance relaying to another: the client of internal/dispatch/forward.go talking
    to the session of internal/server. */
module EndToEnd {
  import opened Text
  import opened Lines
  import opened Options
  import opened Mail
  import opened Policy
  import opened Config
  import opened ReplyCodec
  import opened Session
  import opened Connection
  import C = CommandCodec
  import B = BodyCodec
  import F = Forward
  import W = SessionWords

  // ---- The server's side ----

  lemma {:induction false} EhloParses(local: string)
    requires Trimmed(local)
    ensures Parse(F.EhloLine(local)) == (EHLO, local)
  {
    hide C.SplitCommand;
    C.SplitVerb("EHLO", local);
    assert ToUpper("EHLO") == "EHLO";
  }

  lemma {:induction false} BareParses()
    ensures Parse("DATA") == (DATA, "") && Parse("QUIT") == (QUIT, "")
  {
    hide C.SplitCommand;
    C.SplitBare("DATA");
    C.SplitBare("QUIT");
    assert ToUpper("DATA") == "DATA" && ToUpper("QUIT") == "QUIT";
  }

  /** The printed envelope is understood as it was meant. */
  lemma {:induction false} EnvelopeParses(m: Message)
    requires C.Printable(m.from) && C.Printable(m.to)
    ensures var (v, a) := Parse(F.MailLine(m)); v == MAIL && C.ParsePath(a, "FROM:") == Some(m.from)
    ensures var (v, a) := Parse(F.RcptLine(m)); v == RCPT && C.ParsePath(a, "TO:") == Some(m.to)
  {
    hide C.SplitCommand, C.ParsePath, TrimLeft, TrimRight, TrimSpace, ToLower;
    PathParses("MAIL", "FROM:", m.from);
    PathParses("RCPT", "TO:", m.to);
  }

  lemma {:induction false} PathParses(verb: string, prefix: string, path: string)
    requires C.Known(verb, prefix) && C.Printable(path)
    ensures C.SplitCommand(C.PrintPath(verb, prefix, path)) == (verb, prefix + ("<" + (path + ">")))
    ensures C.ParsePath(prefix + ("<" + (path + ">")), prefix) == Some(path)
  {
    hide C.SplitCommand, C.ParsePath, TrimLeft, TrimRight, TrimSpace;
    var arg := prefix + ("<" + (path + ">"));
    assert arg[0] == prefix[0] && arg[|arg| - 1] == '>';
    C.SplitVerb(verb, arg);
    assert ToUpper(verb) == verb;
    assert path + (">" + "") == path + ">";
    C.ParseBracketed(prefix, path, "");
    TrimmedStays(path);
  }

  /** What a turn leaves alone, and what it reads. */
  ghost predicate Goes(s: Session, t: Session, rest: string) {
    t.cfg == s.cfg && t.peer == s.peer && t.open == s.open && t.input == rest
  }

  lemma {:induction false} StepEhlo(s: Session, local: string, rest: string, w: World)
    requires s.input == F.EhloLine(local) + CRLF + rest && Named(local)
    ensures var t := Turn(s, w);
            && Goes(s, t, rest) && t.helo == local && !t.inTx && t.rcpt == ""
            && t.trace == s.trace + [Read(F.EhloLine(local)), Sent(250, Greeting(local, OffersTls(s)))]
  {
    hide Turn, Obey;
    hide Parse;
    W.TurnOn(s, F.EhloLine(local), rest, w);
    W.ObeysEhlo(Note(s.(input := rest), Read(F.EhloLine(local))), local, w);
    EhloParses(local);
  }

  /** The HELO that the relay falls back to greets the session just as well. */
  lemma {:induction false} StepHelo(s: Session, local: string, rest: string, w: World)
    requires s.input == F.HeloLine(local) + CRLF + rest && Named(local)
    ensures var t := Turn(s, w);
            && Goes(s, t, rest) && t.helo == local && !t.inTx && t.rcpt == ""
            && t.trace == s.trace + [Read(F.HeloLine(local)), Sent(250, HostName)]
  {
    hide Turn, F.EhloLine, F.HeloLine;
    HeloIsTyped(local);
    W.HeloTurn(s, W.WithArg(0, "HELO", false, local), rest, w);
  }

  lemma {:induction false} HeloIsTyped(local: string)
    requires Named(local)
    ensures var t := W.WithArg(0, "HELO", false, local);
            && W.Line(t) == F.HeloLine(local) && W.Arg(t) == local && W.Plain("HELO")
            && Free(F.HeloLine(local), '\n') && |F.HeloLine(local)| + 2 <= 512
  {
    hide TrimSpace;
    TrimmedStays(local);
    assert C.Spaces(0) == "";
    assert "" + F.HeloLine(local) == F.HeloLine(local);
    assert |F.HeloLine(local)| == |F.EhloLine(local)|;
  }

  /** A local name that fits a command line. */
  predicate Named(local: string) {
    local != "" && Trimmed(local) && Free(local, '\n') && |F.EhloLine(local)| + 2 <= MAX_COMMAND_LINE
  }

  /** An envelope that can be printed on command lines. */
  predicate Addressed(m: Message) {
    && C.Printable(m.from) && Free(m.from, '\n') && |F.MailLine(m)| + 2 <= MAX_COMMAND_LINE
    && C.Printable(m.to) && Free(m.to, '\n') && |F.RcptLine(m)| + 2 <= MAX_COMMAND_LINE
  }

  lemma {:induction false} StepMail(s: Session, m: Message, rest: string, w: World)
    requires s.input == F.MailLine(m) + CRLF + rest && Addressed(m) && s.helo != "" && !s.inTx
    requires Decided(w.resolver, s.cfg.rules, s.peer, m.from).outcome.Admit?
    ensures var t := Turn(s, w);
            && Goes(s, t, rest) && t.from == m.from && t.inTx && t.rcpt == s.rcpt
            && t.trace == s.trace + [Read(F.MailLine(m)),
                 Asked(w.resolver, m.from, Decided(w.resolver, s.cfg.rules, s.peer, m.from)), Sent(250, Okay)]
  {
    hide Turn, Obey;
    hide Parse, C.ParsePath, Decided, C.Printable;
    PlainLines(m);
    W.TurnOn(s, F.MailLine(m), rest, w);
    W.ObeysMail(Note(s.(input := rest), Read(F.MailLine(m))), Parse(F.MailLine(m)).1, w);
    EnvelopeParses(m);
  }

  lemma {:induction false} PlainLines(m: Message)
    requires Addressed(m)
    ensures Free(F.MailLine(m), '\n') && Free(F.RcptLine(m), '\n')
  {
    hide C.Printable;
  }

  lemma {:induction false} StepRcpt(s: Session, m: Message, rest: string, w: World, route: Route)
    requires s.input == F.RcptLine(m) + CRLF + rest && Addressed(m) && s.inTx && s.rcpt == ""
    requires LookupRoute(s.cfg, m.to) == Some(route)
    ensures var t := Turn(s, w);
            && Goes(s, t, rest) && t.from == s.from && t.inTx && t.rcpt == m.to && t.route == Some(route)
            && t.trace == s.trace + [Read(F.RcptLine(m)), Routed(m.to, route), Sent(250, Okay)]
  {
    hide Turn, Obey;
    hide Parse, C.ParsePath, LookupRoute, C.Printable;
    W.Three(s.trace, Read(F.RcptLine(m)), Routed(m.to, route), Sent(250, Okay));
    PlainLines(m);
    W.TurnOn(s, F.RcptLine(m), rest, w);
    W.ObeysRcpt(Note(s.(input := rest), Read(F.RcptLine(m))), Parse(F.RcptLine(m)).1, w);
    EnvelopeParses(m);
  }

  lemma {:induction false} StepData(s: Session, body: string, rest: string, w: World)
    requires s.input == "DATA" + CRLF + (B.Encode(body) + rest) && s.inTx && s.rcpt != "" && s.route.Some?
    requires B.Clean(body) && B.LinesFit(body) && |body| + 2 <= s.cfg.maxMessageBytes
    ensures var t, n := Turn(s, w), Message(s.from, s.rcpt, s.route.value, body + CRLF);
            && Goes(s, t, rest)
            && t.trace == s.trace
               + [Read("DATA"), Sent(354, SendData), BodyRead(false), Handed(n, w.res), Sent(250, Okay)]
  {
    hide Turn, Obey;
    hide Parse, B.BodySpec, B.Encode, B.Clean, B.LinesFit;
    W.TurnOn(s, "DATA", B.Encode(body) + rest, w);
    W.ObeysData(Note(s.(input := B.Encode(body) + rest), Read("DATA")), "", w);
    BareParses();
    B.RoundTrip(body, rest, s.cfg.maxMessageBytes);
  }

  /** DATA with the body still to come: the go-ahead is sent before any of it is read. */
  lemma {:induction false} StepDataWaits(s: Session, w: World)
    requires s.input == "DATA" + CRLF + "" && s.inTx && s.rcpt != "" && s.route.Some?
    ensures Turn(s, w).trace == s.trace + [Read("DATA"), Sent(354, SendData), BodyCut] && !Turn(s, w).open
  {
    hide Turn, Obey;
    hide Parse, B.BodySpec;
    W.TurnOn(s, "DATA", "", w);
    W.ObeysData(Note(s.(input := ""), Read("DATA")), "", w);
    BareParses();
    B.NothingSent(s.cfg.maxMessageBytes);
    W.Three(s.trace, Read("DATA"), Sent(354, SendData), BodyCut);
  }

  lemma {:induction false} StepQuit(s: Session, w: World)
    requires s.input == "QUIT" + CRLF + ""
    ensures Turn(s, w).trace == s.trace + [Read("QUIT"), Sent(221, Closing)]
    ensures !Turn(s, w).open && Turn(s, w).input == ""
  {
    hide Turn, Obey;
    hide Parse;
    W.TurnOn(s, "QUIT", "", w);
    W.ObeysQuit(Note(s.(input := ""), Read("QUIT")), "", w);
    BareParses();
  }

  /** Everything the server needs to let the message through, in a form the sender's side
      can check but for the target's own decision and routes. */
  ghost predicate Deliverable(cfg: Config, peer: IP, local: string, m: Message, r: Resolver, route: Route) {
    && Named(local) && Addressed(m) && m.to != "" && Free(cfg.hostname, '\n')
    && B.Clean(m.body) && B.LinesFit(m.body) && |m.body| + 2 <= cfg.maxMessageBytes
    && Decided(r, cfg.rules, peer, m.from).outcome.Admit? && LookupRoute(cfg, m.to) == Some(route)
  }

  /** What the relay writes when every step is accepted, in six pieces. */
  function Pieces(local: string, m: Message): (ps: seq<string>)
    ensures |ps| == 6
  {
    F.Script(local, m, false)
  }

  /** The first `k` pieces. */
  function Written(local: string, m: Message, k: nat): string
    requires k <= 6
  {
    Flatten(Pieces(local, m)[..k])
  }

  /** The replies: the banner, then one for each piece. */
  function Answers(local: string, tls: bool): (r: seq<(int, Phrase)>)
    ensures |r| == 7
  {
    [(220, Banner), (250, Greeting(local, tls)), (250, Okay), (250, Okay), (354, SendData), (250, Okay), (221, Closing)]
  }

  /** What the session records before each reply. */
  ghost function Silent(cfg: Config, peer: IP, local: string, m: Message, r: Resolver, route: Route, res: Result)
    : (q: seq<seq<Event>>)
    ensures |q| == 7
  {
    [[],
     [Read(F.EhloLine(local))],
     [Read(F.MailLine(m)), Asked(r, m.from, Decided(r, cfg.rules, peer, m.from))],
     [Read(F.RcptLine(m)), Routed(m.to, route)],
     [Read("DATA")],
     [BodyRead(false), Handed(Message(m.from, m.to, route, m.body + CRLF), res)],
     [Read("QUIT")]]
  }

  ghost predicate NoReplies(q: seq<seq<Event>>) {
    forall i, e :: 0 <= i < |q| && e in q[i] ==> !e.Sent?
  }

  lemma {:induction false} SilentHasNoReplies(
    cfg: Config, peer: IP, local: string, m: Message, r: Resolver, route: Route, res: Result)
    ensures NoReplies(Silent(cfg, peer, local, m, r, route, res))
  {
    hide Decided, F.EhloLine, F.MailLine, F.RcptLine;
    var q := Silent(cfg, peer, local, m, r, route, res);
    forall i: int, e: Event | 0 <= i < |q| && e in q[i] ensures !e.Sent? {
      assert i == 2 ==> e == q[2][0] || e == q[2][1];
    }
  }

  /** The trace up to and including the first `n` replies. */
  ghost function Trace(quiet: seq<seq<Event>>, answers: seq<(int, Phrase)>, n: nat): seq<Event>
    requires n <= |quiet| && n <= |answers|
  {
    if n == 0 then []
    else Trace(quiet, answers, n - 1) + (quiet[n - 1] + [Sent(answers[n - 1].0, answers[n - 1].1)])
  }

  lemma {:induction false} TurnsStep(s: Session, ws: seq<World>, i: nat)
    requires s.open && i < |ws|
    ensures Turns(s, ws[i..]) == Turns(Turn(s, ws[i]), ws[i + 1..])
  {
    hide Turn;
    assert ws[i..][1..] == ws[i + 1..];
  }

  /** Without input nothing is written any more. */
  lemma {:induction false} NothingMore(s: Session, ws: seq<World>)
    requires s.input == ""
    ensures Turns(s, ws).trace == s.trace
  {
    if ws != [] && s.open {
      assert Turn(s, ws[0]) == Close(s);
    }
  }

  lemma {:induction false} ClosedStays(s: Session, ws: seq<World>)
    requires !s.open
    ensures Turns(s, ws) == s
  {
  }

  /** The next piece of those from `j` on. */
  lemma {:induction false} NextPiece(ps: seq<string>, j: nat, k: nat)
    requires j < k <= |ps|
    ensures Flatten(ps[j..k]) == ps[j] + Flatten(ps[j + 1..k])
  {
    assert ps[j..k][1..] == ps[j + 1..k];
  }

  lemma {:induction false} NoPiece(ps: seq<string>, k: nat)
    requires k <= |ps|
    ensures Flatten(ps[k..k]) == "" && ps[..k] == ps[0..k]
  {
  }

  /** The session before piece `j` of `k`: what it has recorded and what it will read. */
  ghost predicate Stage(s: Session, cfg: Config, peer: IP, ps: seq<string>, j: nat, k: nat, trace: seq<Event>) {
    && j <= k <= |ps|
    && s.cfg == cfg && s.peer == peer && s.open && s.input == Flatten(ps[j..k]) && s.trace == trace
  }

  /** The session fed the first `k` pieces of a delivery has sent its banner and one reply
      for each of them, and nothing else; after all six it has read everything, handed the
      message over and closed. */
  lemma {:induction false} ServerSide(
    cfg: Config, mode: TlsMode, tls: bool, peer: IP, local: string, m: Message, ws: seq<World>, route: Route, k: nat)
    requires |ws| == 5 && k <= 6 && Deliverable(cfg, peer, local, m, ws[1].resolver, route)
    ensures var s := Turns(Connect(cfg, mode, tls, peer, Written(local, m, k)), ws);
            var q := Silent(cfg, peer, local, m, ws[1].resolver, route, ws[3].res);
            && s.trace == Trace(q, Answers(local, mode == StartTls && tls), k + 1) + (if k == 4 then [BodyCut] else [])
            && (k == 6 ==> s.input == "" && !s.open)
  {
    hide Turn, Turns, Decided, LookupRoute, B.Clean, B.LinesFit, B.Encode, Addressed, F.EhloLine, F.MailLine,
      F.RcptLine, Flatten, Trace;
    var ps, offers := Pieces(local, m), mode == StartTls && tls;
    var q, a := Silent(cfg, peer, local, m, ws[1].resolver, route, ws[3].res), Answers(local, offers);
    var s0 := Connect(cfg, mode, tls, peer, Written(local, m, k));
    assert ws[0..] == ws;
    NoPiece(ps, k);
    assert s0.trace == Trace(q, a, 1) by { FirstTrace(q, a); }
    if k == 0 {
      NothingMore(s0, ws);
    } else {
      NextPiece(ps, 0, k);
      StepEhlo(s0, local, Flatten(ps[1..k]), ws[0]);
      TurnsStep(s0, ws, 0);
      NextTrace(q, a, 1);
      AfterEhlo(Turn(s0, ws[0]), cfg, peer, local, m, ws, route, k, offers);
    }
    if k != 4 {
      assert Trace(q, a, k + 1) + [] == Trace(q, a, k + 1);
    }
  }

  lemma {:induction false} FirstTrace(q: seq<seq<Event>>, a: seq<(int, Phrase)>)
    requires |q| == |a| == 7 && q[0] == []
    ensures Trace(q, a, 1) == [Sent(a[0].0, a[0].1)]
  {
  }

  lemma {:induction false} NextTrace(q: seq<seq<Event>>, a: seq<(int, Phrase)>, n: nat)
    requires n < |q| && n < |a|
    ensures Trace(q, a, n + 1) == Trace(q, a, n) + (q[n] + [Sent(a[n].0, a[n].1)])
  {
  }

  /** From the greeting to the recipient. */
  lemma {:induction false} AfterEhlo(
    s1: Session, cfg: Config, peer: IP, local: string, m: Message, ws: seq<World>, route: Route, k: nat, offers: bool)
    requires |ws| == 5 && 1 <= k <= 6 && Deliverable(cfg, peer, local, m, ws[1].resolver, route)
    requires var q := Silent(cfg, peer, local, m, ws[1].resolver, route, ws[3].res);
             Stage(s1, cfg, peer, Pieces(local, m), 1, k, Trace(q, Answers(local, offers), 2))
    requires s1.helo != "" && !s1.inTx && s1.rcpt == ""
    ensures var q := Silent(cfg, peer, local, m, ws[1].resolver, route, ws[3].res);
            var s := Turns(s1, ws[1..]);
            && s.trace == Trace(q, Answers(local, offers), k + 1) + (if k == 4 then [BodyCut] else [])
            && (k == 6 ==> s.input == "" && !s.open)
  {
    hide Turn, Turns, Decided, LookupRoute, B.Clean, B.LinesFit, B.Encode, Addressed, Named, F.EhloLine, F.MailLine,
      F.RcptLine, Flatten, Trace;
    var ps := Pieces(local, m);
    var q, a := Silent(cfg, peer, local, m, ws[1].resolver, route, ws[3].res), Answers(local, offers);
    NoPiece(ps, k);
    if k == 1 {
      NothingMore(s1, ws[1..]);
    } else {
      NextPiece(ps, 1, k);
      StepMail(s1, m, Flatten(ps[2..k]), ws[1]);
      TurnsStep(s1, ws, 1);
      NextTrace(q, a, 2);
      var s2 := Turn(s1, ws[1]);
      if k == 2 {
        NothingMore(s2, ws[2..]);
      } else {
        NextPiece(ps, 2, k);
        StepRcpt(s2, m, Flatten(ps[3..k]), ws[2], route);
        TurnsStep(s2, ws, 2);
        NextTrace(q, a, 3);
        AfterRcpt(Turn(s2, ws[2]), cfg, peer, local, m, ws, route, k, offers);
      }
    }
    if k != 4 {
      assert Trace(q, a, k + 1) + [] == Trace(q, a, k + 1);
    }
  }

  /** From DATA to the end. */
  lemma {:induction false} AfterRcpt(
    s3: Session, cfg: Config, peer: IP, local: string, m: Message, ws: seq<World>, route: Route, k: nat, offers: bool)
    requires |ws| == 5 && 3 <= k <= 6 && Deliverable(cfg, peer, local, m, ws[1].resolver, route)
    requires var q := Silent(cfg, peer, local, m, ws[1].resolver, route, ws[3].res);
             Stage(s3, cfg, peer, Pieces(local, m), 3, k, Trace(q, Answers(local, offers), 4))
    requires s3.inTx && s3.from == m.from && s3.rcpt == m.to && s3.route == Some(route)
    ensures var q := Silent(cfg, peer, local, m, ws[1].resolver, route, ws[3].res);
            var s := Turns(s3, ws[3..]);
            && s.trace == Trace(q, Answers(local, offers), k + 1) + (if k == 4 then [BodyCut] else [])
            && (k == 6 ==> s.input == "" && !s.open)
  {
    hide Turn, Turns, Decided, LookupRoute, B.Clean, B.LinesFit, B.Encode, Addressed, Named, F.EhloLine, F.MailLine,
      F.RcptLine, Flatten, Trace;
    var ps := Pieces(local, m);
    var q, a := Silent(cfg, peer, local, m, ws[1].resolver, route, ws[3].res), Answers(local, offers);
    NoPiece(ps, k);
    NextTrace(q, a, 4);
    if k == 3 {
      NothingMore(s3, ws[3..]);
    } else if k == 4 {
      NextPiece(ps, 3, 4);
      StepDataWaits(s3, ws[3]);
      TurnsStep(s3, ws, 3);
      ClosedStays(Turn(s3, ws[3]), ws[4..]);
    } else {
      NextPiece(ps, 3, k);
      NextPiece(ps, 4, k);
      StepData(s3, m.body, Flatten(ps[5..k]), ws[3]);
      TurnsStep(s3, ws, 3);
      NextTrace(q, a, 5);
      var s4 := Turn(s3, ws[3]);
      assert s4.trace == Trace(q, a, 6);
      if k == 5 {
        NothingMore(s4, ws[4..]);
      } else {
        NextPiece(ps, 5, 6);
        StepQuit(s4, ws[4]);
        TurnsStep(s4, ws, 4);
        NextTrace(q, a, 6);
        ClosedStays(Turn(s4, ws[4]), ws[5..]);
      }
    }
    if k != 4 {
      assert Trace(q, a, k + 1) + [] == Trace(q, a, k + 1);
    }
  }

  // ---- The client's side ----

  function ReplyOf(cfg: Config, code: int, p: Phrase): string {
    ReplyText(code, Wording(cfg, p))
  }

  lemma {:induction false} WireAppend(cfg: Config, a: seq<Event>, b: seq<Event>)
    ensures Wire(cfg, a + b) == Wire(cfg, a) + Wire(cfg, b)
  {
    hide EventBytes;
    if b == [] {
      assert a + b == a;
    } else {
      var n := |b| - 1;
      assert (a + b)[..|a| + n] == a + b[..n];
      WireAppend(cfg, a, b[..n]);
    }
  }

  /** A block that ends with its only reply puts just that reply on the wire. */
  lemma {:induction false} WireOfBlock(cfg: Config, quiet: seq<Event>, code: int, p: Phrase)
    requires forall e :: e in quiet ==> !e.Sent?
    ensures Wire(cfg, quiet + [Sent(code, p)]) == ReplyOf(cfg, code, p)
  {
    hide ReplyText, Wording;
    WireNote(cfg, quiet, Sent(code, p));
    WireOfQuiet(cfg, quiet);
  }

  lemma {:induction false} WireOfQuiet(cfg: Config, quiet: seq<Event>)
    requires forall e :: e in quiet ==> !e.Sent?
    ensures Wire(cfg, quiet) == ""
  {
    if quiet != [] {
      assert quiet[|quiet| - 1] in quiet;
      WireOfQuiet(cfg, quiet[..|quiet| - 1]);
    }
  }

  /** The replies as they are written. */
  function Replies(cfg: Config, answers: seq<(int, Phrase)>): (r: seq<string>)
    ensures |r| == |answers|
  {
    seq(|answers|, i requires 0 <= i < |answers| => ReplyOf(cfg, answers[i].0, answers[i].1))
  }

  lemma {:induction false} WireOfTrace(cfg: Config, quiet: seq<seq<Event>>, answers: seq<(int, Phrase)>, n: nat)
    requires n <= |quiet| == |answers| && NoReplies(quiet)
    ensures Wire(cfg, Trace(quiet, answers, n)) == Flatten(Replies(cfg, answers)[..n])
  {
    hide Wire, ReplyOf, Flatten;
    var rs := Replies(cfg, answers);
    if n == 0 {
      WireOfQuiet(cfg, []);
      assert Flatten([]) == "" by { NoPiece([], 0); }
      assert rs[..0] == [];
    } else {
      var block := quiet[n - 1] + [Sent(answers[n - 1].0, answers[n - 1].1)];
      WireOfTrace(cfg, quiet, answers, n - 1);
      WireOfBlock(cfg, quiet[n - 1], answers[n - 1].0, answers[n - 1].1);
      WireAppend(cfg, Trace(quiet, answers, n - 1), block);
      F.TakeNext(rs, n - 1, "");
      assert "" + Flatten(rs[..n - 1]) == Flatten(rs[..n - 1]) && "" + Flatten(rs[..n]) == Flatten(rs[..n]);
    }
  }

  /** The phrases of a delivery fit on reply lines. */
  lemma {:induction false} PlainWording(cfg: Config, p: Phrase)
    requires Free(cfg.hostname, '\n') && (p.Greeting? ==> Free(p.arg, '\n'))
    requires p.Banner? || p.Greeting? || p.Okay? || p.SendData? || p.Closing?
    ensures forall i :: 0 <= i < |Wording(cfg, p)| ==> Free(Wording(cfg, p)[i], '\n')
  {
    hide Free, Decimal;
    var h := cfg.hostname;
    LiteralsArePlain();
    if p.Greeting? {
      DecimalIsPlain(cfg.maxMessageBytes);
      JoinIsPlain("SIZE ", Decimal(cfg.maxMessageBytes));
      JoinIsPlain(h, " greets ");
      JoinIsPlain(h + " greets ", p.arg);
    }
    JoinIsPlain(h, " ready");
    JoinIsPlain(h, " closing connection");
  }

  lemma {:induction false} JoinIsPlain(a: string, b: string)
    ensures Free(a, '\n') && Free(b, '\n') ==> Free(a + b, '\n')
  {
  }

  lemma {:induction false} LiteralsArePlain()
    ensures Free("8BITMIME", '\n') && Free("PIPELINING", '\n') && Free("STARTTLS", '\n') && Free("OK", '\n')
    ensures Free("Send data, end with a single dot", '\n') && Free("SIZE ", '\n')
    ensures Free(" greets ", '\n') && Free(" ready", '\n') && Free(" closing connection", '\n')
  {
  }

  lemma {:induction false} DecimalIsPlain(n: nat)
    ensures Free(Decimal(n), '\n')
  {
    DigitsArePlain(n);
  }

  lemma {:induction false} DigitsArePlain(n: nat)
    ensures Free(Digits(n), '\n')
  {
    if n >= 10 {
      DigitsArePlain(n / 10);
    }
  }

  lemma {:induction false} AwaitsReply(cfg: Config, code: int, p: Phrase, rest: string, sent: string)
    requires Free(cfg.hostname, '\n') && (p.Greeting? ==> Free(p.arg, '\n')) && ThreeDigits(code)
    requires p.Banner? || p.Greeting? || p.Okay? || p.SendData? || p.Closing?
    ensures F.Await(F.Talk(ReplyOf(cfg, code, p) + rest, sent), code) == (OK, F.Talk(rest, sent))
  {
    hide Expected, ReplyText, Wording;
    PlainWording(cfg, p);
    ExpectReadsReply(code, Wording(cfg, p), rest, code);
  }

  /** The relay reads reply `j` of the first `n`. */
  lemma {:induction false} ReadsReply(cfg: Config, local: string, tls: bool, j: nat, n: nat, sent: string)
    requires Free(cfg.hostname, '\n') && Free(local, '\n') && j < n <= 7
    ensures var a := Answers(local, tls);
            var rs := Replies(cfg, a);
            F.Await(F.Talk(Flatten(rs[j..n]), sent), a[j].0) == (OK, F.Talk(Flatten(rs[j + 1..n]), sent))
  {
    hide F.Await, ReplyOf, Flatten, Free;
    var a := Answers(local, tls);
    var rs := Replies(cfg, a);
    NextPiece(rs, j, n);
    AwaitsReply(cfg, a[j].0, a[j].1, Flatten(rs[j + 1..n]), sent);
  }

  /** Whatever happens, what has been written stays written. */
  lemma {:induction false} TransmitGrows(t: F.Talk, m: Message)
    ensures t.sent <= F.Transmit(t, m).1.sent
    ensures t.sent + (F.MailLine(m) + CRLF) <= F.Transmit(t, m).1.sent
  {
    hide Expected, F.MailLine, F.RcptLine, B.Encode;
  }

  lemma {:induction false} GrowsAfterRcpt(t: F.Talk, m: Message, t1: F.Talk)
    requires F.Cmd(t, F.MailLine(m), 250) == (OK, t1)
    ensures t1.sent + (F.RcptLine(m) + CRLF) <= F.Transmit(t, m).1.sent
  {
    hide Expected, F.MailLine, F.RcptLine, B.Encode;
  }

  /** From MAIL on: with `n` replies to come in all, pieces 1 to `n` - 1 get written. */
  lemma {:induction false} TransmitReaches(cfg: Config, local: string, m: Message, tls: bool, n: nat)
    requires Free(cfg.hostname, '\n') && Free(local, '\n') && 2 <= n <= 7
    ensures var rs, ps := Replies(cfg, Answers(local, tls)), Pieces(local, m);
            var r := F.Transmit(F.Talk(Flatten(rs[2..n]), Flatten(ps[..1])), m);
            && (n <= 6 ==> Flatten(ps[..n]) <= r.1.sent)
            && (n == 7 ==> r == (OK, F.Talk("", Flatten(ps))))
  {
    hide F.Await, Flatten, B.Encode, F.EhloLine, F.MailLine, F.RcptLine, Free, Replies;
    var rs, ps := Replies(cfg, Answers(local, tls)), Pieces(local, m);
    var t := F.Talk(Flatten(rs[2..n]), Flatten(ps[..1]));
    NextSent(local, m, 1);
    if n == 2 {
      TransmitGrows(t, m);
    } else {
      ReadsReply(cfg, local, tls, 2, n, Flatten(ps[..2]));
      NextSent(local, m, 2);
      var t1 := F.Talk(Flatten(rs[3..n]), Flatten(ps[..2]));
      assert F.Cmd(t, F.MailLine(m), 250) == (OK, t1);
      if n == 3 {
        GrowsAfterRcpt(t, m, t1);
      } else {
        ReadsReply(cfg, local, tls, 3, n, Flatten(ps[..3]));
        NextSent(local, m, 3);
        var t2 := F.Talk(Flatten(rs[4..n]), Flatten(ps[..3]));
        assert F.Cmd(t1, F.RcptLine(m), 250) == (OK, t2);
        GrowsAfterData(t, m, t1, t2);
        if n > 4 {
          ReadsReply(cfg, local, tls, 4, n, Flatten(ps[..4]));
          NextSent(local, m, 4);
          var t3 := F.Talk(Flatten(rs[5..n]), Flatten(ps[..4]));
          assert F.Cmd(t2, "DATA", 354) == (OK, t3);
          FinishReaches(cfg, local, m, tls, n, t, t1, t2, t3);
        }
      }
    }
  }

  /** With the go-ahead read, the body is written, and QUIT once that is answered. */
  lemma {:induction false} FinishReaches(
    cfg: Config, local: string, m: Message, tls: bool, n: nat, t: F.Talk, t1: F.Talk, t2: F.Talk, t3: F.Talk)
    requires Free(cfg.hostname, '\n') && Free(local, '\n') && 5 <= n <= 7
    requires t3 == F.Talk(Flatten(Replies(cfg, Answers(local, tls))[5..n]), Flatten(Pieces(local, m)[..4]))
    requires F.Cmd(t, F.MailLine(m), 250) == (OK, t1) && F.Cmd(t1, F.RcptLine(m), 250) == (OK, t2)
    requires F.Cmd(t2, "DATA", 354) == (OK, t3)
    ensures var r, ps := F.Transmit(t, m), Pieces(local, m);
            && (n <= 6 ==> Flatten(ps[..n]) <= r.1.sent)
            && (n == 7 ==> r == (OK, F.Talk("", Flatten(ps))))
  {
    hide F.Await, Flatten, B.Encode, F.EhloLine, F.MailLine, F.RcptLine, Free, Replies;
    var rs, ps := Replies(cfg, Answers(local, tls)), Pieces(local, m);
    NextSent(local, m, 4);
    NextSent(local, m, 5);
    var u := F.Wrote(t3, ps[4]);
    AwaitKeeps(u, 250);
    if n == 5 {
      var t4 := F.Await(u, 250).1;
      AwaitKeeps(F.Wrote(t4, "QUIT" + CRLF), 221);
    } else {
      ReadsReply(cfg, local, tls, 5, n, Flatten(ps[..5]));
      var t4 := F.Talk(Flatten(rs[6..n]), Flatten(ps[..5]));
      AwaitKeeps(F.Wrote(t4, ps[5]), 221);
      assert ps[..6] == ps;
      if n == 7 {
        ReadsReply(cfg, local, tls, 6, 7, Flatten(ps[..6]));
        NoPiece(rs, 7);
      }
    }
  }

  lemma {:induction false} NextSent(local: string, m: Message, j: nat)
    requires j < 6
    ensures var ps := Pieces(local, m); Flatten(ps[..j + 1]) == Flatten(ps[..j]) + ps[j]
  {
    hide Flatten;
    var ps := Pieces(local, m);
    F.TakeNext(ps, j, "");
    assert "" + Flatten(ps[..j]) == Flatten(ps[..j]) && "" + Flatten(ps[..j + 1]) == Flatten(ps[..j + 1]);
  }

  lemma {:induction false} GrowsAfterData(t: F.Talk, m: Message, t1: F.Talk, t2: F.Talk)
    requires F.Cmd(t, F.MailLine(m), 250) == (OK, t1) && F.Cmd(t1, F.RcptLine(m), 250) == (OK, t2)
    ensures t2.sent + ("DATA" + CRLF) <= F.Transmit(t, m).1.sent
  {
    hide Expected, F.MailLine, F.RcptLine, B.Encode;
  }

  lemma {:induction false} AwaitKeeps(t: F.Talk, want: int)
    ensures F.Await(t, want).1.sent == t.sent
  {
  }

  /** The relay, given the first `n` replies and then silence, has written the first `n`
      pieces; given all seven, it has read them all and reports success. */
  lemma {:induction false} ClientSide(cfg: Config, local: string, m: Message, tls: bool, n: nat)
    requires Free(cfg.hostname, '\n') && Free(local, '\n') && 1 <= n <= 7
    ensures var r := F.Relay(F.Talk(Flatten(Replies(cfg, Answers(local, tls))[..n]), ""), local, m);
            && (n <= 6 ==> Written(local, m, n) <= r.1.sent)
            && (n == 7 ==> r == (OK, F.Talk("", Written(local, m, 6))))
  {
    hide F.Await, F.Transmit, Flatten, B.Encode, F.EhloLine, F.HeloLine, F.MailLine, F.RcptLine, Free, Replies;
    var rs, ps := Replies(cfg, Answers(local, tls)), Pieces(local, m);
    assert rs[0..n] == rs[..n] && ps[..6] == ps;
    ReadsReply(cfg, local, tls, 0, n, "");
    var t0 := F.Talk(Flatten(rs[1..n]), "");
    NextSent(local, m, 0);
    assert Flatten(ps[..0]) == "" by { NoPiece(ps, 0); }
    var u := F.Wrote(t0, F.EhloLine(local) + CRLF);
    assert u.sent == Flatten(ps[..1]);
    if n == 1 {
      AwaitKeeps(u, 250);
      var t1 := F.Await(u, 250).1;
      TransmitGrows(t1, m);
      var v := F.Wrote(t1, F.HeloLine(local) + CRLF);
      AwaitKeeps(v, 250);
      TransmitGrows(F.Await(v, 250).1, m);
    } else {
      ReadsReply(cfg, local, tls, 1, n, Flatten(ps[..1]));
      TransmitReaches(cfg, local, m, tls, n);
    }
  }

  // ---- Together ----

  /** Neither side waits for the other: once the session has read the first `k` pieces of
      the delivery, the relay, having read no more than what the session has written by
      then, has written the piece after them. */
  lemma {:induction false} NeitherSideWaits(
    cfg: Config, mode: TlsMode, tls: bool, peer: IP, local: string, m: Message, ws: seq<World>, route: Route, k: nat)
    requires |ws| == 5 && k < 6 && Deliverable(cfg, peer, local, m, ws[1].resolver, route)
    ensures var s := Turns(Connect(cfg, mode, tls, peer, Written(local, m, k)), ws);
            Written(local, m, k + 1) <= F.Relay(F.Talk(Wire(cfg, s.trace), ""), local, m).1.sent
  {
    hide Turns, Wire, F.Relay, Written, Silent, Addressed, Decided, LookupRoute, B.Clean, B.LinesFit, Answers;
    WireOfDelivery(cfg, mode, tls, peer, local, m, ws, route, k);
    ClientSide(cfg, local, m, mode == StartTls && tls, k + 1);
  }

  /** What the session has written after the first `k` pieces: the first `k` + 1 replies. */
  lemma {:induction false} WireOfDelivery(
    cfg: Config, mode: TlsMode, tls: bool, peer: IP, local: string, m: Message, ws: seq<World>, route: Route, k: nat)
    requires |ws| == 5 && k <= 6 && Deliverable(cfg, peer, local, m, ws[1].resolver, route)
    ensures var s := Turns(Connect(cfg, mode, tls, peer, Written(local, m, k)), ws);
            Wire(cfg, s.trace) == Flatten(Replies(cfg, Answers(local, mode == StartTls && tls))[..k + 1])
  {
    hide Turns, Wire, Written, Silent, Deliverable, Answers, Trace, Flatten, Replies;
    ServerSide(cfg, mode, tls, peer, local, m, ws, route, k);
    var q, a := Silent(cfg, peer, local, m, ws[1].resolver, route, ws[3].res), Answers(local, mode == StartTls && tls);
    SilentHasNoReplies(cfg, peer, local, m, ws[1].resolver, route, ws[3].res);
    WireOfTrace(cfg, q, a, k + 1);
    var late := if k == 4 then [BodyCut] else [];
    WireAppend(cfg, Trace(q, a, k + 1), late);
    WireOfQuiet(cfg, late);
    var w := Wire(cfg, Trace(q, a, k + 1));
    assert w + "" == w;
  }

  /** One instance relaying to another. Let the target's session read what the relay
      writes and the relay read what that session writes: then the relay reports success
      and has written exactly what the session read; and the session hands its dispatcher
      the same sender and recipient, under its own route, and the same body with one CRLF
      more. */
  lemma {:induction false} RelayDelivers(
    cfg: Config, mode: TlsMode, tls: bool, peer: IP, local: string, m: Message, ws: seq<World>, route: Route)
    requires |ws| == 5 && Deliverable(cfg, peer, local, m, ws[1].resolver, route)
    ensures var input := Flatten(F.Script(local, m, false));
            var s := Turns(Connect(cfg, mode, tls, peer, input), ws);
            && F.Relay(F.Talk(Wire(cfg, s.trace), ""), local, m) == (OK, F.Talk("", input))
            && Handed(Message(m.from, m.to, route, m.body + CRLF), ws[3].res) in s.trace
            && s.input == "" && !s.open
  {
    hide Turns, Wire, F.Relay, Flatten, Decided, LookupRoute, B.Clean, B.LinesFit, Addressed, Trace, Replies,
      F.EhloLine, F.MailLine, F.RcptLine;
    var ps, offers := Pieces(local, m), mode == StartTls && tls;
    assert ps[..6] == ps;
    WireOfDelivery(cfg, mode, tls, peer, local, m, ws, route, 6);
    ServerSide(cfg, mode, tls, peer, local, m, ws, route, 6);
    ClientSide(cfg, local, m, offers, 7);
    var q := Silent(cfg, peer, local, m, ws[1].resolver, route, ws[3].res);
    HandedOver(q, Answers(local, offers), q[5][1]);
  }

  lemma {:induction false} HandedOver(q: seq<seq<Event>>, a: seq<(int, Phrase)>, e: Event)
    requires |q| == |a| == 7 && e in q[5]
    ensures e in Trace(q, a, 7)
  {
    hide Trace;
    NextTrace(q, a, 6);
    NextTrace(q, a, 5);
  }
}
