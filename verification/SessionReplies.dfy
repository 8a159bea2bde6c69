/** The order of commands, replies and hand-overs in every session
    (internal/server/session.go, internal/server/transaction.go). */
module SessionReplies {
  import opened Options
  import opened Mail
  import opened Policy
  import opened Config
  import opened Session
  import C = CommandCodec
  import B = BodyCodec

  /** What the server owes next. */
  datatype Duty =
    | Greet          // the banner
    | Quiet          // nothing: the next command is read
    | Reply          // one reply to the command just read
    | Handshake      // the handshake announced by 220
    | Body           // 354 was sent: the body is read
    | Call           // a body within the limit: the dispatcher is called
    | Commit         // past the dot: only 250 may follow
    | Last           // an over-length command: 500, then the end
    | Over           // nothing ever again

  /** The protocol. None: the event is not allowed here. */
  function Next(d: Duty, e: Event): Option<Duty> {
    match d
    case Greet => if e.Sent? && e.code == 220 then Some(Quiet) else None
    case Quiet => if e.Read? then Some(Reply) else if e.Overlong? then Some(Last) else None
    case Reply =>
      if e.Asked? || e.Routed? then Some(Reply)
      else if e.Sent? then Some(if e.code == 354 then Body else if e.code == 220 then Handshake else Quiet)
      else None
    case Handshake => if e.Upgraded? then Some(if e.ok then Quiet else Over) else None
    case Body =>
      if e.BodyCut? then Some(Over)
      else if e.BodyRead? then Some(if e.oversize then Commit else Call)
      else None
    case Call => if e.Handed? then Some(Commit) else None
    case Commit => if e.Sent? && e.code == 250 then Some(Quiet) else None
    case Last => if e.Sent? && e.code == 500 then Some(Over) else None
    case Over => None
  }

  function After(trace: seq<Event>): Option<Duty> {
    if trace == [] then Some(Greet)
    else match After(trace[..|trace| - 1])
      case None => None
      case Some(d) => Next(d, trace[|trace| - 1])
  }

  /** The trace follows the protocol and leaves the duty `d`. */
  ghost predicate Leaves(s: Session, d: Duty) {
    After(s.trace) == Some(d)
  }

  ghost predicate Orderly(s: Session) {
    if s.open then Leaves(s, Quiet) else Leaves(s, Quiet) || Leaves(s, Over)
  }

  lemma {:induction false} Then(s: Session, t: Session, e: Event, d: Duty)
    requires Leaves(s, d) && t.trace == s.trace + [e] && Next(d, e).Some?
    ensures Leaves(t, Next(d, e).value)
  {
    assert t.trace[..|t.trace| - 1] == s.trace;
  }

  lemma {:induction false} Says(s: Session, t: Session, code: int, phrase: Phrase)
    requires Leaves(s, Reply) && t.trace == s.trace && code != 354 && code != 220
    ensures Leaves(Say(t, code, phrase), Quiet) && Leaves(Close(Say(t, code, phrase)), Quiet)
    ensures Say(t, code, phrase).open == t.open && !Close(Say(t, code, phrase)).open
  {
    hide After;
    Then(s, Say(t, code, phrase), Sent(code, phrase), Reply);
  }

  lemma {:induction false} GreetingReplies(s: Session, arg: string)
    requires s.open && Leaves(s, Reply)
    ensures Orderly(Ehlo(s, arg)) && Orderly(Helo(s, arg))
  {
    hide Leaves, Say;
    Says(s, s, 501, EhloNeedsDomain);
    Says(s, s, 501, HeloNeedsDomain);
    Says(s, ResetTx(s.(helo := arg)), 250, Greeting(arg, OffersTls(s)));
    Says(s, ResetTx(s.(helo := arg)), 250, HostName);
  }

  lemma {:induction false} StartTlsReplies(s: Session, arg: string, handshake: Option<string>)
    requires s.open && Leaves(s, Reply)
    ensures Orderly(StartTlsCmd(s, arg, handshake))
  {
    hide Leaves;
    Says(s, s, 501, TlsTakesNoArgument);
    Says(s, s, 502, NotImplemented);
    Says(s, s, 503, AlreadyEncrypted);
    var t := Say(s, 220, ReadyForTls);
    Then(s, t, Sent(220, ReadyForTls), Reply);
    Then(t, Close(Note(t, Upgraded(false))), Upgraded(false), Handshake);
    if handshake.Some? {
      var u := ResetTx(t.(encrypted := true, helo := "", input := handshake.value));
      Then(t, Note(u, Upgraded(true)), Upgraded(true), Handshake);
    }
  }

  lemma {:induction false} MailReplies(s: Session, arg: string, r: Resolver)
    requires s.open && Leaves(s, Reply)
    ensures Orderly(MailTurn(s, arg, r))
  {
    hide Leaves, Say, Decided, C.ParsePath;
    Says(s, s, 503, SendEhloFirst);
    Says(s, s, 503, NestedMail);
    Says(s, s, 501, MailSyntax);
    if C.ParsePath(arg, "FROM:").Some? {
      var path := C.ParsePath(arg, "FROM:").value;
      var e := Asked(r, path, Decided(r, s.cfg.rules, s.peer, path));
      var t := Note(s, e);
      Then(s, t, e, Reply);
      Says(t, t.(from := path, inTx := true), 250, Okay);
      Says(t, t, 451, TryLater);
      Says(t, t, 550, SenderRefused);
    }
    CloseLeaves(MailCmd(s, arg, r), Quiet);
  }

  lemma {:induction false} CloseLeaves(s: Session, d: Duty)
    ensures Leaves(Close(s), d) <==> Leaves(s, d)
  {
  }

  lemma {:induction false} RcptReplies(s: Session, arg: string)
    requires s.open && Leaves(s, Reply)
    ensures Orderly(Rcpt(s, arg))
  {
    hide Leaves, Say, Close, LookupRoute, C.ParsePath;
    Says(s, s, 503, SendMailFirst);
    Says(s, s, 452, TooManyRecipients);
    Says(s, s, 501, RcptSyntax);
    Says(s, s, 550, RecipientRefused);
    if C.ParsePath(arg, "TO:").Some? {
      var path := C.ParsePath(arg, "TO:").value;
      if LookupRoute(s.cfg, path).Some? {
        var route := LookupRoute(s.cfg, path).value;
        var t := Note(s.(rcpt := path, route := Some(route)), Routed(path, route));
        Then(s, t, Routed(path, route), Reply);
        Says(t, t, 250, Okay);
      }
    }
  }

  lemma {:induction false} DataReplies(s: Session, arg: string, res: Result)
    requires s.open && Leaves(s, Reply)
    ensures Orderly(Data(s, arg, res))
  {
    hide Leaves, Received;
    Says(s, s, 501, DataTakesNoArgument);
    Says(s, s, 503, SendMailAndRcptFirst);
    if s.route.Some? {
      Then(s, Say(s, 354, SendData), Sent(354, SendData), Reply);
      ReceivedReplies(Say(s, 354, SendData), res);
    }
  }

  lemma {:induction false} ReceivedReplies(t: Session, res: Result)
    requires t.open && Leaves(t, Body) && t.route.Some?
    ensures Orderly(Received(t, res))
  {
    hide Leaves, B.BodySpec;
    match B.BodySpec(t.input, t.cfg.maxMessageBytes) {
      case Aborted => Then(t, Close(Note(t, BodyCut)), BodyCut, Body);
      case Oversize(rest) =>
        var u := Note(t.(input := rest), BodyRead(true));
        Then(t, u, BodyRead(true), Body);
        Then(u, Finish(u), Sent(250, Okay), Commit);
      case Body(text, rest) =>
        var e := Handed(Message(t.from, t.rcpt, t.route.value, text), res);
        var u := Note(t.(input := rest), BodyRead(false));
        Then(t, u, BodyRead(false), Body);
        Then(u, Note(u, e), e, Call);
        Then(Note(u, e), Finish(Note(u, e)), Sent(250, Okay), Commit);
    }
  }

  lemma {:induction false} ObeyReplies(s: Session, verb: Verb, arg: string, w: World)
    requires s.open && Leaves(s, Reply)
    ensures Orderly(Obey(s, verb, arg, w))
  {
    hide Leaves, Say, Close, Ehlo, Helo, StartTlsCmd, MailTurn, Rcpt, Data;
    GreetingReplies(s, arg);
    StartTlsReplies(s, arg, w.handshake);
    MailReplies(s, arg, w.resolver);
    RcptReplies(s, arg);
    DataReplies(s, arg, w.res);
    Says(s, ResetTx(s), 250, Okay);
    Says(s, s, 250, Okay);
    Says(s, s, 221, Closing);
    Says(s, s, 502, NotImplemented);
    Says(s, s, 500, SyntaxError);
    Says(s, s, 500, UnknownCommand);
  }

  /** Every turn follows the protocol. */
  lemma {:induction false} TurnReplies(s: Session, w: World)
    requires s.open && Leaves(s, Quiet)
    ensures Orderly(Turn(s, w))
  {
    hide Leaves, C.ReadCommand, Parse, Obey;
    match C.ReadCommand(s.input) {
      case LineTooLong =>
        Then(s, Note(s, Overlong), Overlong, Quiet);
        Then(Note(s, Overlong), Say(Note(s, Overlong), 500, LongLine), Sent(500, LongLine), Last);
        CloseLeaves(Say(Note(s, Overlong), 500, LongLine), Over);
      case NoCommand => CloseLeaves(s, Quiet);
      case Command(line, rest) =>
        var t := Note(s.(input := rest), Read(line));
        Then(s, t, Read(line), Quiet);
        ObeyReplies(t, Parse(line).0, Parse(line).1, w);
    }
  }

  /** Every session follows the protocol from its banner on. */
  lemma {:induction false} SessionIsOrderly(
    cfg: Config, mode: TlsMode, tls: bool, peer: IP, input: string, ws: seq<World>)
    ensures Orderly(Turns(Connect(cfg, mode, tls, peer, input), ws))
  {
    hide Turn;
    var s := Connect(cfg, mode, tls, peer, input);
    assert Leaves(s, Quiet) by { assert s.trace[..0] == []; }
    TurnsReply(s, ws);
  }

  lemma {:induction false} TurnsReply(s: Session, ws: seq<World>)
    requires Orderly(s)
    ensures Orderly(Turns(s, ws))
    decreases |ws|
  {
    hide Turn, Leaves;
    if ws != [] && s.open {
      TurnReplies(s, ws[0]);
      TurnsReply(Turn(s, ws[0]), ws[1..]);
    }
  }

  // ---- What the protocol implies for any trace ----

  datatype Kind = Sends | Commands | Bodies | Calls

  predicate Counts(k: Kind, e: Event) {
    match k
    case Sends => e.Sent?
    case Commands => e.Read? || e.Overlong?
    case Bodies => e.BodyRead?
    case Calls => e.Handed?
  }

  function Tally(trace: seq<Event>, k: Kind): nat {
    if trace == [] then 0
    else Tally(trace[..|trace| - 1], k) + if Counts(k, trace[|trace| - 1]) then 1 else 0
  }

  /** The bodies that were complete and within the limit. */
  function Accepted(trace: seq<Event>): nat {
    if trace == [] then 0
    else Accepted(trace[..|trace| - 1]) + if trace[|trace| - 1] == BodyRead(false) then 1 else 0
  }

  /** Every command read is answered by exactly one reply, and every completed body by
      one more, besides the banner; the dispatcher is called exactly once for every body
      within the limit, and for nothing else. */
  lemma {:induction false} Balance(trace: seq<Event>)
    requires After(trace).Some?
    ensures var d := After(trace).value;
            && Tally(trace, Sends) + (if d.Greet? || d.Reply? || d.Commit? || d.Call? || d.Last? then 1 else 0)
               == 1 + Tally(trace, Commands) + Tally(trace, Bodies)
            && Tally(trace, Calls) + (if d.Call? then 1 else 0) == Accepted(trace)
  {
    if trace != [] {
      Balance(trace[..|trace| - 1]);
    }
  }

  lemma {:induction false} AfterAt(trace: seq<Event>, k: nat)
    requires After(trace).Some? && k < |trace|
    ensures After(trace[..k]).Some? && Next(After(trace[..k]).value, trace[k]).Some?
    ensures After(trace[..k + 1]) == Next(After(trace[..k]).value, trace[k])
  {
    hide Next;
    var n := |trace| - 1;
    if k < n {
      assert trace[..n][..k] == trace[..k] && trace[..n][..k + 1] == trace[..k + 1];
      AfterAt(trace[..n], k);
    } else {
      assert trace[..k + 1] == trace;
    }
  }

  /** Once the dot of a body is read, the next thing sent is 250, whatever the dispatcher
      returned, and nothing is read before it; only the hand-over may come between. */
  lemma {:induction false} OnlyOkayAfterTheDot(trace: seq<Event>, k: nat)
    requires After(trace).Some? && k < |trace| && trace[k].BodyRead?
    ensures var n := if trace[k].oversize then k + 1 else k + 2;
            && (n < |trace| ==> trace[n].Sent? && trace[n].code == 250)
            && (!trace[k].oversize && k + 1 < |trace| ==> trace[k + 1].Handed?)
            && (k > 0 ==> trace[k - 1].Sent? && trace[k - 1].code == 354)
  {
    hide After;
    AfterAt(trace, k);
    if k + 1 < |trace| {
      AfterAt(trace, k + 1);
      if k + 2 < |trace| {
        AfterAt(trace, k + 2);
      }
    }
    if k > 0 {
      AfterAt(trace, k - 1);
    }
  }
}
