/** What every session keeps, whatever the peer, the resolver, the handshake and the
    dispatcher do. */
module SessionTrace {
  import opened Options
  import opened Mail
  import opened Policy
  import opened Config
  import opened Session
  import C = CommandCodec
  import B = BodyCodec

  // ---- The transaction, read off the trace alone ----

  /** Whether the peer has greeted, the admitted sender and the accepted recipient. */
  datatype View = View(greeted: bool, from: Option<string>, to: Option<(string, Route)>)

  /** A command line that greets: EHLO or HELO with an argument. */
  predicate Greets(line: string) {
    var (verb, arg) := Parse(line);
    (verb.EHLO? || verb.HELO?) && arg != ""
  }

  predicate Resets(line: string) {
    Parse(line).0.RSET?
  }

  predicate Admits(e: Event, path: string) {
    e.Asked? && e.d.outcome.Admit? && e.path == path
  }

  /** Events that end a transaction: a greeting, RSET, an upgrade, a completed DATA. */
  predicate Breaks(e: Event) {
    match e
    case Read(line) => Greets(line) || Resets(line)
    case Upgraded(ok) => ok
    case BodyRead(oversize) => oversize
    case Handed(_, _) => true
    case _ => false
  }

  function Advance(v: View, e: Event): View {
    match e
    case Read(line) =>
      if Greets(line) then View(true, None, None)
      else if Resets(line) then View(v.greeted, None, None)
      else v
    case Asked(_, path, d) => if d.outcome.Admit? then View(v.greeted, Some(path), None) else v
    case Routed(path, route) => v.(to := Some((path, route)))
    case Upgraded(ok) => if ok then View(false, None, None) else v
    case BodyRead(oversize) => if oversize then View(v.greeted, None, None) else v
    case Handed(_, _) => View(v.greeted, None, None)
    case _ => v
  }

  function Fold(trace: seq<Event>): View {
    if trace == [] then View(false, None, None)
    else Advance(Fold(trace[..|trace| - 1]), trace[|trace| - 1])
  }

  function Upgrades(trace: seq<Event>): nat {
    if trace == [] then 0
    else Upgrades(trace[..|trace| - 1]) + if trace[|trace| - 1] == Upgraded(true) then 1 else 0
  }

  /** What each event of a session must be, given the view before it: a sender is asked
      about after a greeting and outside a transaction, and judged by this configuration
      for this peer; a recipient is accepted once per transaction, from this route table;
      a message handed over is exactly the open transaction. */
  ghost predicate Rightful(cfg: Config, peer: IP, v: View, e: Event) {
    match e
    case Asked(r, path, d) => v.greeted && v.from.None? && d == Decided(r, cfg.rules, peer, path)
    case Routed(path, route) => v.from.Some? && v.to.None? && LookupRoute(cfg, path) == Some(route)
    case Handed(m, _) => v == View(true, Some(m.from), Some((m.to, m.route)))
    case _ => true
  }

  ghost predicate Lawful(cfg: Config, peer: IP, trace: seq<Event>) {
    trace == [] ||
    var n := |trace| - 1;
    Lawful(cfg, peer, trace[..n]) && Rightful(cfg, peer, Fold(trace[..n]), trace[n])
  }

  // ---- The invariant ----

  /** Outside a transaction nothing is left of one; rcpt and route go together; without
      STARTTLS the listener alone decides on encryption. */
  ghost predicate Sound(s: Session) {
    && Loaded(s.cfg)
    && (s.mode != StartTls ==> (s.encrypted <==> s.mode == Implicit))
    && (!s.inTx ==> s.from == "" && s.rcpt == "")
    && (s.route.Some? <==> s.rcpt != "")
    && (s.inTx ==> s.helo != "")
  }

  function ViewOf(s: Session): View {
    View(s.helo != "",
         if s.inTx then Some(s.from) else None,
         if s.route.Some? then Some((s.rcpt, s.route.value)) else None)
  }

  ghost predicate Inv(s: Session) {
    && Sound(s)
    && Fold(s.trace) == ViewOf(s)
    && Lawful(s.cfg, s.peer, s.trace)
    && Upgrades(s.trace) == (if s.mode == StartTls && s.encrypted then 1 else 0)
  }

  lemma {:induction false} Noted(s: Session, e: Event)
    ensures Fold(Note(s, e).trace) == Advance(Fold(s.trace), e)
    ensures Lawful(s.cfg, s.peer, Note(s, e).trace) <==>
            Lawful(s.cfg, s.peer, s.trace) && Rightful(s.cfg, s.peer, Fold(s.trace), e)
    ensures Upgrades(Note(s, e).trace) == Upgrades(s.trace) + if e == Upgraded(true) then 1 else 0
  {
    var t := s.trace + [e];
    assert t[..|t| - 1] == s.trace && t[|t| - 1] == e;
  }

  /** A reply changes nothing but the trace. */
  lemma {:induction false} Said(s: Session, code: int, phrase: Phrase)
    requires Inv(s)
    ensures Inv(Note(s, Sent(code, phrase)))
  {
    hide Fold, Lawful, Upgrades, Loaded;
    Noted(s, Sent(code, phrase));
  }

  /** After the line is on the trace, the view is that of a session that has obeyed it. */
  ghost predicate Heard(s: Session, line: string) {
    var (verb, arg) := Parse(line);
    var u := if Greets(line) then ResetTx(s.(helo := arg)) else if Resets(line) then ResetTx(s) else s;
    && Sound(s) && Sound(u)
    && Fold(s.trace) == ViewOf(u)
    && Lawful(s.cfg, s.peer, s.trace)
    && Upgrades(s.trace) == (if s.mode == StartTls && s.encrypted then 1 else 0)
  }

  lemma {:induction false} Hears(s: Session, line: string, rest: string)
    requires Inv(s)
    ensures Heard(Note(s.(input := rest), Read(line)), line)
  {
    hide Fold, Lawful, Upgrades, Loaded, Parse;
    Noted(s.(input := rest), Read(line));
  }

  lemma {:induction false} EhloKeeps(s: Session, line: string)
    requires Heard(s, line) && (Parse(line).0.EHLO? || Parse(line).0.HELO?)
    ensures Inv(Ehlo(s, Parse(line).1)) && Inv(Helo(s, Parse(line).1))
  {
    hide Fold, Lawful, Upgrades, Loaded, Parse;
    var arg := Parse(line).1;
    if arg == "" {
      Said(s, 501, EhloNeedsDomain);
      Said(s, 501, HeloNeedsDomain);
    } else {
      var u := ResetTx(s.(helo := arg));
      Said(u, 250, Greeting(arg, OffersTls(s)));
      Said(u, 250, HostName);
    }
  }

  lemma {:induction false} StartTlsKeeps(s: Session, arg: string, handshake: Option<string>)
    requires Inv(s)
    ensures Inv(StartTlsCmd(s, arg, handshake))
  {
    hide Fold, Lawful, Upgrades, Loaded;
    Said(s, 501, TlsTakesNoArgument);
    Said(s, 502, NotImplemented);
    Said(s, 503, AlreadyEncrypted);
    var t := Say(s, 220, ReadyForTls);
    Said(s, 220, ReadyForTls);
    Noted(t, Upgraded(false));
    Noted(t, Upgraded(true));
  }

  lemma {:induction false} MailKeeps(s: Session, arg: string, r: Resolver)
    requires Inv(s)
    ensures Inv(MailTurn(s, arg, r))
  {
    hide Fold, Lawful, Upgrades, Loaded, Decided, C.ParsePath;
    Said(s, 503, SendEhloFirst);
    Said(s, 503, NestedMail);
    Said(s, 501, MailSyntax);
    if s.helo != "" && !s.inTx && C.ParsePath(arg, "FROM:").Some? {
      var path := C.ParsePath(arg, "FROM:").value;
      var d := Decided(r, s.cfg.rules, s.peer, path);
      Noted(s, Asked(r, path, d));
      var t := Note(s, Asked(r, path, d));
      if d.outcome.Admit? {
        Said(t.(from := path, inTx := true), 250, Okay);
      } else {
        Said(t, 451, TryLater);
        Said(t, 550, SenderRefused);
      }
    }
  }

  lemma {:induction false} RcptKeeps(s: Session, arg: string)
    requires Inv(s)
    ensures Inv(Rcpt(s, arg))
  {
    hide Fold, Lawful, Upgrades, LookupRoute, C.ParsePath, Loaded;
    Said(s, 503, SendMailFirst);
    Said(s, 452, TooManyRecipients);
    Said(s, 501, RcptSyntax);
    Said(s, 550, RecipientRefused);
    if s.inTx && s.rcpt == "" && C.ParsePath(arg, "TO:").Some? {
      var path := C.ParsePath(arg, "TO:").value;
      EmptyPathHasNoRoute(s.cfg);
      if LookupRoute(s.cfg, path).Some? {
        var route := LookupRoute(s.cfg, path).value;
        var t := s.(rcpt := path, route := Some(route));
        Noted(s, Routed(path, route));
        Said(Note(t, Routed(path, route)), 250, Okay);
      }
    }
  }

  lemma {:induction false} DataKeeps(s: Session, arg: string, res: Result)
    requires Inv(s)
    ensures Inv(Data(s, arg, res))
  {
    hide Fold, Lawful, Upgrades, Loaded, Received;
    Said(s, 501, DataTakesNoArgument);
    Said(s, 503, SendMailAndRcptFirst);
    if arg == "" && s.inTx && s.rcpt != "" {
      Said(s, 354, SendData);
      ReceivedKeeps(Say(s, 354, SendData), res);
    }
  }

  lemma {:induction false} ReceivedKeeps(t: Session, res: Result)
    requires Inv(t) && t.inTx && t.route.Some?
    ensures Inv(Received(t, res))
  {
    hide Fold, Lawful, Upgrades, Loaded, B.BodySpec;
    match B.BodySpec(t.input, t.cfg.maxMessageBytes) {
      case Aborted => Noted(t, BodyCut);
      case Oversize(rest) =>
        Noted(t.(input := rest), BodyRead(true));
        Said(ResetTx(Note(t.(input := rest), BodyRead(true))), 250, Okay);
      case Body(text, rest) => HandingKeeps(t.(input := rest), text, res);
    }
  }

  /** A complete body is handed over as the open transaction, and closes it. */
  lemma {:induction false} HandingKeeps(t: Session, text: string, res: Result)
    requires Inv(t) && t.inTx && t.route.Some?
    ensures Inv(Finish(Note(Note(t, BodyRead(false)), Handed(Message(t.from, t.rcpt, t.route.value, text), res))))
  {
    hide Fold, Lawful, Upgrades, Loaded;
    var m, u := Message(t.from, t.rcpt, t.route.value, text), Note(t, BodyRead(false));
    Noted(t, BodyRead(false));
    Noted(u, Handed(m, res));
    Said(ResetTx(Note(u, Handed(m, res))), 250, Okay);
  }

  lemma {:induction false} CommandKeeps(s: Session, line: string, w: World)
    requires Heard(s, line)
    ensures Inv(Obey(s, Parse(line).0, Parse(line).1, w))
  {
    hide Fold, Lawful, Upgrades, Loaded, Parse, Ehlo, Helo, StartTlsCmd, MailTurn, Rcpt, Data;
    var (verb, arg) := Parse(line);
    if verb.EHLO? || verb.HELO? {
      EhloKeeps(s, line);
    } else if verb.RSET? {
      Said(ResetTx(s), 250, Okay);
    } else {
      assert Inv(s);
      StartTlsKeeps(s, arg, w.handshake);
      MailKeeps(s, arg, w.resolver);
      RcptKeeps(s, arg);
      DataKeeps(s, arg, w.res);
      Said(s, 250, Okay);
      Said(s, 221, Closing);
      Said(s, 502, NotImplemented);
      Said(s, 500, SyntaxError);
      Said(s, 500, UnknownCommand);
    }
  }

  /** Every turn of the loop keeps the invariant. */
  lemma {:induction false} TurnKeeps(s: Session, w: World)
    requires Inv(s)
    ensures Inv(Turn(s, w))
  {
    hide Fold, Lawful, Upgrades, Loaded, Parse, C.ReadCommand, Obey;
    match C.ReadCommand(s.input) {
      case LineTooLong =>
        Noted(s, Overlong);
        Said(Note(s, Overlong), 500, LongLine);
      case NoCommand =>
      case Command(line, rest) =>
        Hears(s, line, rest);
        CommandKeeps(Note(s.(input := rest), Read(line)), line, w);
    }
  }

  lemma {:induction false} ConnectKeeps(cfg: Config, mode: TlsMode, tlsConf: bool, peer: IP, input: string)
    requires Loaded(cfg)
    ensures Inv(Connect(cfg, mode, tlsConf, peer, input))
  {
    hide Loaded;
    var s, e := Connect(cfg, mode, tlsConf, peer, input), Sent(220, Banner);
    Noted(s.(trace := []), e);
    assert [] + [e] == s.trace;
  }

  // ---- Sessions among reloads ----

  /** The server's current configuration and one session, once accepted. */
  datatype Server = Server(current: Config, sess: Option<Session>)

  datatype Action =
    | Reload(cfg: Config)
    | Accept(mode: TlsMode, peer: IP, input: string)
    | Serve(w: World)

  function Step(v: Server, tls: bool, a: Action): Server {
    match a
    case Reload(cfg) => v.(current := cfg)
    case Accept(mode, peer, input) =>
      if v.sess.None? then v.(sess := Some(Connect(v.current, mode, tls, peer, input))) else v
    case Serve(w) => if v.sess.Some? && v.sess.value.open then v.(sess := Some(Turn(v.sess.value, w))) else v
  }

  function Exec(cfg: Config, tls: bool, acts: seq<Action>): Server {
    if acts == [] then Server(cfg, None) else Step(Exec(cfg, tls, acts[..|acts| - 1]), tls, acts[|acts| - 1])
  }

  /** Reload is only called with a configuration that Load has accepted. */
  ghost predicate AllLoaded(cfg: Config, acts: seq<Action>) {
    Loaded(cfg) && forall a :: a in acts && a.Reload? ==> Loaded(a.cfg)
  }

  /** What no command changes, and encryption, which none takes away. */
  ghost predicate Frame(s: Session, t: Session) {
    t.cfg == s.cfg && t.peer == s.peer && t.mode == s.mode && t.tlsConf == s.tlsConf && (s.encrypted ==> t.encrypted)
  }

  /** The step kept the frame, wrote something, and did not upgrade last. */
  ghost predicate Ordinary(s: Session, t: Session) {
    Frame(s, t) && t.trace != [] && t.trace[|t.trace| - 1] != Upgraded(true)
  }

  lemma {:induction false} SayIsOrdinary(s: Session, t: Session, code: int, phrase: Phrase)
    requires Frame(s, t)
    ensures Ordinary(s, Say(t, code, phrase)) && Ordinary(s, Close(Say(t, code, phrase)))
    ensures Say(t, code, phrase).inTx == t.inTx && Say(t, code, phrase).from == t.from
  {
  }

  lemma {:induction false} GreetingIsOrdinary(s: Session, arg: string)
    ensures Ordinary(s, Ehlo(s, arg)) && Ordinary(s, Helo(s, arg))
  {
    hide Say, Ordinary;
    SayIsOrdinary(s, s, 501, EhloNeedsDomain);
    SayIsOrdinary(s, s, 501, HeloNeedsDomain);
    SayIsOrdinary(s, ResetTx(s.(helo := arg)), 250, Greeting(arg, OffersTls(s)));
    SayIsOrdinary(s, ResetTx(s.(helo := arg)), 250, HostName);
  }

  lemma {:induction false} MailIsOrdinary(s: Session, arg: string, r: Resolver)
    ensures Ordinary(s, MailTurn(s, arg, r))
  {
    hide Decided, C.ParsePath, Say, Ordinary, Close;
    SayIsOrdinary(s, s, 503, SendEhloFirst);
    SayIsOrdinary(s, s, 503, NestedMail);
    SayIsOrdinary(s, s, 501, MailSyntax);
    if C.ParsePath(arg, "FROM:").Some? {
      var path := C.ParsePath(arg, "FROM:").value;
      var t := Note(s, Asked(r, path, Decided(r, s.cfg.rules, s.peer, path)));
      SayIsOrdinary(s, t.(from := path, inTx := true), 250, Okay);
      SayIsOrdinary(s, t, 451, TryLater);
      SayIsOrdinary(s, t, 550, SenderRefused);
    }
  }

  lemma {:induction false} RcptIsOrdinary(s: Session, arg: string)
    ensures Ordinary(s, Rcpt(s, arg))
  {
    hide LookupRoute, C.ParsePath, Say, Ordinary, Close;
    SayIsOrdinary(s, s, 503, SendMailFirst);
    SayIsOrdinary(s, s, 452, TooManyRecipients);
    SayIsOrdinary(s, s, 501, RcptSyntax);
    SayIsOrdinary(s, s, 550, RecipientRefused);
    if C.ParsePath(arg, "TO:").Some? {
      var path := C.ParsePath(arg, "TO:").value;
      if LookupRoute(s.cfg, path).Some? {
        var route := LookupRoute(s.cfg, path).value;
        SayIsOrdinary(s, Note(s.(rcpt := path, route := Some(route)), Routed(path, route)), 250, Okay);
      }
    }
  }

  lemma {:induction false} DataIsOrdinary(s: Session, arg: string, res: Result)
    ensures Ordinary(s, Data(s, arg, res))
  {
    hide Ordinary, Received;
    SayIsOrdinary(s, s, 501, DataTakesNoArgument);
    SayIsOrdinary(s, s, 503, SendMailAndRcptFirst);
    if s.route.Some? {
      ReceivedIsOrdinary(s, Say(s, 354, SendData), res);
    }
  }

  lemma {:induction false} ReceivedIsOrdinary(s: Session, t: Session, res: Result)
    requires Frame(s, t) && t.route.Some?
    ensures Ordinary(s, Received(t, res))
  {
    hide B.BodySpec, Ordinary, Say, Close;
    match B.BodySpec(t.input, t.cfg.maxMessageBytes) {
      case Aborted => CutIsOrdinary(s, t);
      case Oversize(rest) => SayIsOrdinary(s, ResetTx(Note(t.(input := rest), BodyRead(true))), 250, Okay);
      case Body(text, rest) =>
        var m := Message(t.from, t.rcpt, t.route.value, text);
        SayIsOrdinary(s, ResetTx(Note(Note(t.(input := rest), BodyRead(false)), Handed(m, res))), 250, Okay);
    }
  }

  lemma {:induction false} CutIsOrdinary(s: Session, t: Session)
    requires Frame(s, t)
    ensures Ordinary(s, Close(Note(t, BodyCut)))
  {
  }

  /** Only an accepted STARTTLS upgrades. */
  lemma {:induction false} StartTlsEffect(s: Session, arg: string, handshake: Option<string>)
    ensures var t := StartTlsCmd(s, arg, handshake);
            Ordinary(s, t)
            || (handshake.Some? && Frame(s, t)
                && t == Connect(s.cfg, s.mode, s.tlsConf, s.peer, handshake.value)
                        .(encrypted := true, trace := t.trace, open := s.open))
  {
  }

  lemma {:induction false} ObeyEffect(s: Session, verb: Verb, arg: string, w: World)
    ensures Ordinary(s, Obey(s, verb, arg, w)) || (verb.STARTTLS? && Frame(s, Obey(s, verb, arg, w)))
  {
    hide Ehlo, Helo, MailTurn, Rcpt, Data, StartTlsCmd;
    GreetingIsOrdinary(s, arg);
    MailIsOrdinary(s, arg, w.resolver);
    RcptIsOrdinary(s, arg);
    DataIsOrdinary(s, arg, w.res);
    StartTlsEffect(s, arg, w.handshake);
  }

  lemma {:induction false} TurnFrame(s: Session, w: World)
    ensures Frame(s, Turn(s, w))
  {
    hide C.ReadCommand, Parse, Obey;
    match C.ReadCommand(s.input) {
      case Command(line, rest) =>
        ObeyEffect(Note(s.(input := rest), Read(line)), Parse(line).0, Parse(line).1, w);
      case _ =>
    }
  }

  /** The current configuration is that of the last reload. */
  lemma {:induction false} LastReloadCounts(cfg: Config, tls: bool, acts: seq<Action>, i: nat)
    requires i < |acts| && acts[i].Reload? && forall k :: i < k < |acts| ==> !acts[k].Reload?
    ensures Exec(cfg, tls, acts).current == acts[i].cfg
  {
    hide Turn, Connect;
    var n := |acts| - 1;
    if i < n {
      LastReloadCounts(cfg, tls, acts[..n], i);
    }
  }

  /** `i` is where the session was accepted, under the configuration current then. */
  ghost predicate BegunAt(cfg: Config, tls: bool, acts: seq<Action>, s: Session, i: nat) {
    && i < |acts| && acts[i].Accept? && s.peer == acts[i].peer
    && s.cfg == Exec(cfg, tls, acts[..i]).current
    && forall k :: 0 <= k < i ==> !acts[k].Accept?
  }

  lemma {:induction false} StaysBegun(cfg: Config, tls: bool, acts: seq<Action>, a: Action, s: Session, i: nat)
    requires BegunAt(cfg, tls, acts, s, i)
    ensures BegunAt(cfg, tls, acts + [a], s, i)
  {
    hide Exec;
    assert (acts + [a])[..i] == acts[..i];
  }

  /** However reloads are interleaved, a session lives under the configuration that was
      current when it was accepted, and keeps the invariant. */
  lemma {:induction false} SessionKeepsItsConfig(cfg: Config, tls: bool, acts: seq<Action>)
    requires AllLoaded(cfg, acts)
    ensures var v := Exec(cfg, tls, acts);
            && Loaded(v.current)
            && (v.sess.None? ==> forall i :: 0 <= i < |acts| ==> !acts[i].Accept?)
            && (v.sess.Some? ==> Inv(v.sess.value) && exists i :: BegunAt(cfg, tls, acts, v.sess.value, i))
  {
    hide Turn, Inv, Loaded, Connect, BegunAt;
    if acts != [] {
      var n := |acts| - 1;
      var before, a := Exec(cfg, tls, acts[..n]), acts[n];
      assert acts == acts[..n] + [a];
      assert AllLoaded(cfg, acts[..n]);
      SessionKeepsItsConfig(cfg, tls, acts[..n]);
      if before.sess.Some? {
        var i :| BegunAt(cfg, tls, acts[..n], before.sess.value, i);
        StaysBegun(cfg, tls, acts[..n], a, before.sess.value, i);
        if a.Serve? {
          TurnKeeps(before.sess.value, a.w);
          TurnFrame(before.sess.value, a.w);
          assert before.sess.value.open ==> BegunAt(cfg, tls, acts, Turn(before.sess.value, a.w), i) by {
            SameBeginning(cfg, tls, acts, before.sess.value, Turn(before.sess.value, a.w), i);
          }
        }
      } else if a.Accept? {
        ConnectKeeps(before.current, a.mode, tls, a.peer, a.input);
        AcceptBegins(cfg, tls, acts[..n], a);
      }
    }
  }

  lemma {:induction false} SameBeginning(cfg: Config, tls: bool, acts: seq<Action>, s: Session, t: Session, i: nat)
    requires BegunAt(cfg, tls, acts, s, i) && Frame(s, t)
    ensures BegunAt(cfg, tls, acts, t, i)
  {
  }

  lemma {:induction false} AcceptBegins(cfg: Config, tls: bool, acts: seq<Action>, a: Action)
    requires a.Accept? && forall k :: 0 <= k < |acts| ==> !acts[k].Accept?
    ensures BegunAt(cfg, tls, acts + [a], Connect(Exec(cfg, tls, acts).current, a.mode, tls, a.peer, a.input), |acts|)
  {
    hide Exec, Connect;
    ConnectConfig(Exec(cfg, tls, acts).current, a.mode, tls, a.peer, a.input);
    assert (acts + [a])[..|acts|] == acts;
  }

  lemma {:induction false} ConnectConfig(cfg: Config, mode: TlsMode, tlsConf: bool, peer: IP, input: string)
    ensures Connect(cfg, mode, tlsConf, peer, input).cfg == cfg
    ensures Connect(cfg, mode, tlsConf, peer, input).peer == peer
  {
  }

  // ---- Which messages reach the dispatcher ----

  lemma {:induction false} LawfulAt(cfg: Config, peer: IP, trace: seq<Event>, k: nat)
    requires Lawful(cfg, peer, trace) && k < |trace|
    ensures Lawful(cfg, peer, trace[..k]) && Rightful(cfg, peer, Fold(trace[..k]), trace[k])
  {
    hide Rightful, Fold;
    var n := |trace| - 1;
    if k < n {
      assert trace[..n][..k] == trace[..k];
      LawfulAt(cfg, peer, trace[..n], k);
    }
  }

  /** From position `from` on, nothing ends a transaction. */
  ghost predicate Unbroken(trace: seq<Event>, from: nat) {
    forall x :: from <= x < |trace| ==> !Breaks(trace[x])
  }

  ghost predicate NoUpgrade(trace: seq<Event>, from: nat) {
    forall x :: from <= x < |trace| ==> trace[x] != Upgraded(true)
  }

  /** Where the view comes from: the greeting, the admission and the recipient, in this
      order, with nothing between them and the end that would undo them. */
  ghost predicate Origin(trace: seq<Event>, v: View, g: nat, i: nat, j: nat) {
    && (v.greeted ==> g < |trace| && trace[g].Read? && Greets(trace[g].line) && NoUpgrade(trace, g + 1))
    && (v.from.Some? ==>
          && i < |trace| && Admits(trace[i], v.from.value) && Unbroken(trace, i + 1)
          && (v.greeted ==> g < i)
          && (v.to.Some? ==> i < j < |trace| && trace[j] == Routed(v.to.value.0, v.to.value.1))
          && (forall x :: i < x < |trace| && trace[x].Routed? ==> v.to.Some? && x == j))
  }

  lemma {:induction false} Origins(cfg: Config, peer: IP, trace: seq<Event>) returns (g: nat, i: nat, j: nat)
    requires Lawful(cfg, peer, trace)
    ensures Origin(trace, Fold(trace), g, i, j)
  {
    hide Greets, Resets, Decided, LookupRoute;
    g, i, j := 0, 0, 0;
    if trace != [] {
      var n := |trace| - 1;
      g, i, j := Origins(cfg, peer, trace[..n]);
      var v, e := Fold(trace[..n]), trace[n];
      assert Rightful(cfg, peer, v, e);
      g, i, j := OriginStep(cfg, peer, trace[..n], v, e, g, i, j);
      assert trace == trace[..n] + [e];
    }
  }

  lemma {:induction false} OriginStep(
    cfg: Config, peer: IP, trace: seq<Event>, v: View, e: Event, g0: nat, i0: nat, j0: nat)
    returns (g: nat, i: nat, j: nat)
    requires Origin(trace, v, g0, i0, j0) && Rightful(cfg, peer, v, e)
    ensures Origin(trace + [e], Advance(v, e), g, i, j)
  {
    hide Greets, Resets, Decided, LookupRoute;
    var n := |trace|;
    g, i, j := g0, i0, j0;
    match e {
      case Read(line) => g := if Greets(line) then n else g0;
      case Asked(_, _, d) => i := if d.outcome.Admit? then n else i0;
      case Routed(_, _) => j := n;
      case _ =>
    }
  }

  /** Every message handed to the dispatcher, in every session: its sender was admitted by
      Decide for this peer, and its recipient was accepted by the one successful RCPT
      after that, both under the configuration the session began with; before them the
      peer had greeted; since the admission there was no greeting, RSET, upgrade or
      completed DATA; and every upgrade happened before that greeting. */
  lemma {:induction false} HandedWasAdmitted(s: Session, k: nat) returns (g: nat, i: nat, j: nat)
    requires Inv(s) && k < |s.trace| && s.trace[k].Handed?
    ensures g < i < j < k && s.trace[g].Read? && Greets(s.trace[g].line)
    ensures s.trace[i].Asked? && s.trace[i].path == s.trace[k].m.from && s.trace[i].d.outcome.Admit?
    ensures s.trace[i].d == Decided(s.trace[i].resolver, s.cfg.rules, s.peer, s.trace[i].path)
    ensures s.trace[j] == Routed(s.trace[k].m.to, s.trace[k].m.route)
    ensures LookupRoute(s.cfg, s.trace[k].m.to) == Some(s.trace[k].m.route)
    ensures forall x :: i < x < k ==> !Breaks(s.trace[x]) && (s.trace[x].Routed? ==> x == j)
    ensures forall u :: 0 <= u < k && s.trace[u] == Upgraded(true) ==> u < g
  {
    hide Greets, Resets, Decided, LookupRoute, Fold, Lawful, Upgrades;
    var before, m := s.trace[..k], s.trace[k].m;
    LawfulAt(s.cfg, s.peer, s.trace, k);
    g, i, j := Origins(s.cfg, s.peer, before);
    assert Origin(before, View(true, Some(m.from), Some((m.to, m.route))), g, i, j);
    LawfulAt(s.cfg, s.peer, s.trace, i);
    LawfulAt(s.cfg, s.peer, s.trace, j);
    assert before[g] == s.trace[g] && before[i] == s.trace[i] && before[j] == s.trace[j];
    forall x | i < x < k ensures !Breaks(s.trace[x]) && (s.trace[x].Routed? ==> x == j) {
      assert before[x] == s.trace[x];
    }
    forall u | 0 <= u < k && s.trace[u] == Upgraded(true) ensures u < g {
      assert before[u] == s.trace[u];
    }
  }

  /** The same over every run of the server, however reloads come in between: the rules
      that admitted the sender and the routes that accepted the recipient are those that
      were current when the session was accepted. */
  lemma {:induction false} DispatchedUnderItsConfig(cfg: Config, tls: bool, acts: seq<Action>, k: nat)
    returns (a: nat, g: nat, i: nat, j: nat)
    requires AllLoaded(cfg, acts) && Exec(cfg, tls, acts).sess.Some?
    requires k < |Exec(cfg, tls, acts).sess.value.trace| && Exec(cfg, tls, acts).sess.value.trace[k].Handed?
    ensures a < |acts| && acts[a].Accept? && forall x :: 0 <= x < a ==> !acts[x].Accept?
    ensures var began, trace := Exec(cfg, tls, acts[..a]).current, Exec(cfg, tls, acts).sess.value.trace;
            && g < i < j < k && trace[g].Read? && Greets(trace[g].line)
            && trace[i].Asked? && trace[i].path == trace[k].m.from
            && Decided(trace[i].resolver, began.rules, acts[a].peer, trace[i].path).outcome.Admit?
            && trace[j] == Routed(trace[k].m.to, trace[k].m.route)
            && LookupRoute(began, trace[k].m.to) == Some(trace[k].m.route)
            && (forall x :: i < x < k ==> !Breaks(trace[x]) && (trace[x].Routed? ==> x == j))
            && (forall u :: 0 <= u < k && trace[u] == Upgraded(true) ==> u < g)
  {
    hide Exec, Inv, Loaded, Decided, LookupRoute, Breaks, Greets;
    SessionKeepsItsConfig(cfg, tls, acts);
    var s := Exec(cfg, tls, acts).sess.value;
    a :| BegunAt(cfg, tls, acts, s, a);
    g, i, j := HandedWasAdmitted(s, k);
  }

  // ---- Encryption ----

  lemma {:induction false} UpgradeCounted(trace: seq<Event>, u: nat, v: nat)
    requires u < |trace| && v < |trace| && trace[u] == Upgraded(true) && trace[v] == Upgraded(true)
    ensures Upgrades(trace) >= if u == v then 1 else 2
  {
    var n := |trace| - 1;
    if u < n && v < n {
      UpgradeCounted(trace[..n], u, v);
    } else if u < n {
      UpgradeCounted(trace[..n], u, u);
    } else if v < n {
      UpgradeCounted(trace[..n], v, v);
    }
  }

  lemma {:induction false} UpgradeExists(trace: seq<Event>)
    ensures Upgrades(trace) > 0 <==> Upgraded(true) in trace
  {
    if trace != [] {
      UpgradeExists(trace[..|trace| - 1]);
      assert trace == trace[..|trace| - 1] + [trace[|trace| - 1]];
    }
  }

  lemma {:induction false} TurnsKeep(s: Session, ws: seq<World>)
    requires Inv(s)
    ensures Inv(Turns(s, ws)) && Frame(s, Turns(s, ws))
    decreases |ws|
  {
    hide Inv, Turn, Frame;
    assert Frame(s, s) by { FrameSelf(s); }
    if ws != [] && s.open {
      TurnKeeps(s, ws[0]);
      TurnFrame(s, ws[0]);
      TurnsKeep(Turn(s, ws[0]), ws[1..]);
      FrameChains(s, Turn(s, ws[0]), Turns(s, ws));
    }
  }

  lemma {:induction false} FrameSelf(s: Session)
    ensures Frame(s, s)
  {
  }

  lemma {:induction false} FrameChains(s: Session, t: Session, u: Session)
    requires Frame(s, t) && Frame(t, u)
    ensures Frame(s, u)
  {
  }

  /** Over every run of a session: it is encrypted iff its listener encrypts from the first
      byte or it has been upgraded; it is upgraded at most once, and only on a STARTTLS
      listener; and once encrypted it stays so. */
  lemma {:induction false} EncryptionIsForGood(
    cfg: Config, mode: TlsMode, tls: bool, peer: IP, input: string, ws: seq<World>, more: seq<World>)
    requires Loaded(cfg)
    ensures var s := Turns(Connect(cfg, mode, tls, peer, input), ws);
            && (s.encrypted <==> mode == Implicit || Upgraded(true) in s.trace)
            && (Upgraded(true) in s.trace ==> mode == StartTls)
            && (forall u, v | 0 <= u < |s.trace| && 0 <= v < |s.trace|
                              && s.trace[u] == Upgraded(true) && s.trace[v] == Upgraded(true) :: u == v)
            && (s.encrypted ==> Turns(s, more).encrypted)
  {
    hide Upgrades, Fold, Lawful, Turns, Loaded, Connect;
    var s0 := Connect(cfg, mode, tls, peer, input);
    ConnectKeeps(cfg, mode, tls, peer, input);
    assert s0.mode == mode by { ConnectMode(cfg, mode, tls, peer, input); }
    TurnsKeep(s0, ws);
    var s := Turns(s0, ws);
    TurnsKeep(s, more);
    UpgradeExists(s.trace);
    forall u, v | 0 <= u < |s.trace| && 0 <= v < |s.trace|
                  && s.trace[u] == Upgraded(true) && s.trace[v] == Upgraded(true)
      ensures u == v
    {
      UpgradeCounted(s.trace, u, v);
    }
  }

  lemma {:induction false} ConnectMode(cfg: Config, mode: TlsMode, tls: bool, peer: IP, input: string)
    ensures Connect(cfg, mode, tls, peer, input).mode == mode
  {
  }

  /** A turn that upgrades leaves a session just connected, reading only the secure
      channel: no greeting, no transaction, none of the input sent in the clear. */
  lemma {:induction false} UpgradeStartsAfresh(s: Session, w: World)
    requires s.open && s.trace < Turn(s, w).trace && Turn(s, w).trace[|Turn(s, w).trace| - 1] == Upgraded(true)
    ensures w.handshake.Some?
    ensures Turn(s, w) == Connect(s.cfg, s.mode, s.tlsConf, s.peer, w.handshake.value)
                          .(encrypted := true, trace := Turn(s, w).trace)
  {
    hide C.ReadCommand, Parse, Ehlo, Helo, MailTurn, Rcpt, Data, StartTlsCmd;
    match C.ReadCommand(s.input) {
      case Command(line, rest) =>
        var t := Note(s.(input := rest), Read(line));
        ObeyEffect(t, Parse(line).0, Parse(line).1, w);
        StartTlsEffect(t, Parse(line).1, w.handshake);
      case _ =>
    }
  }

  // ---- MAIL ----

  /** The peer has greeted, the argument parses and Decide admits the path. */
  predicate Admitted(s: Session, arg: string, r: Resolver) {
    s.helo != "" && C.ParsePath(arg, "FROM:").Some?
    && Decided(r, s.cfg.rules, s.peer, C.ParsePath(arg, "FROM:").value).outcome.Admit?
  }

  /** After MAIL the loop goes on iff a transaction is open: one that was open already, or
      one that Decide has just admitted. Every other reply, the 501 and the 503 for a
      missing greeting included, closes the connection. */
  lemma {:induction false} MailClosesUnlessOpen(s: Session, w: World)
    requires Inv(s) && s.open && C.ReadCommand(s.input).Command? && Parse(C.ReadCommand(s.input).line).0.MAIL?
    ensures var t, arg := Turn(s, w), Parse(C.ReadCommand(s.input).line).1;
            && (t.open <==> t.inTx)
            && (t.open <==> (s.inTx || Admitted(s, arg, w.resolver)))
  {
    hide C.ReadCommand, Parse, Decided, C.ParsePath, Loaded, Fold, Lawful, Upgrades;
  }

  // ---- The table of replies ----

  function LastEvent(s: Session): Event
    requires s.trace != []
  {
    s.trace[|s.trace| - 1]
  }

  /** The reply to a well-formed MAIL outside a transaction: 250 iff the first match of the
      admission table skips SPF or SPF passes, 451 iff it asks for SPF and gets a temporary
      error, 550 otherwise; only the 250 leaves the connection open. */
  lemma {:induction false} MailReplyTable(s: Session, w: World)
    requires Inv(s) && s.open && s.helo != "" && !s.inTx && C.ReadCommand(s.input).Command?
    requires var (verb, arg) := Parse(C.ReadCommand(s.input).line); verb.MAIL? && C.ParsePath(arg, "FROM:").Some?
    ensures var t, path := Turn(s, w), C.ParsePath(Parse(C.ReadCommand(s.input).line).1, "FROM:").value;
            var rows, spf := Table(w.resolver, s.cfg.rules, s.peer, path), SPFOf(w.resolver, s.peer, path);
            && t.trace != [] && LastEvent(t).Sent? && LastEvent(t).code in {250, 451, 550}
            && (LastEvent(t).code == 250 <==> FirstAdmits(rows, spf))
            && (LastEvent(t).code == 451 <==> FirstDefers(rows, spf))
            && (t.open <==> LastEvent(t).code == 250)
  {
    hide C.ReadCommand, Parse, Decided, C.ParsePath, Loaded, Fold, Lawful, Upgrades, Table, SPFOf;
    Outcomes(w.resolver, s.cfg.rules, s.peer, C.ParsePath(Parse(C.ReadCommand(s.input).line).1, "FROM:").value);
  }

  /** The reply to RCPT: 503 iff no transaction is open, else 452 iff there is a recipient
      already, else 501 iff the path is malformed, else 550 and the end iff the route list
      serves no such path, else 250 with the route that serves it. */
  lemma {:induction false} RcptReplyTable(s: Session, w: World)
    requires Inv(s) && s.open && C.ReadCommand(s.input).Command? && Parse(C.ReadCommand(s.input).line).0.RCPT?
    ensures var t, path := Turn(s, w), C.ParsePath(Parse(C.ReadCommand(s.input).line).1, "TO:");
            && t.trace != [] && LastEvent(t).Sent?
            && (LastEvent(t).code == 503 <==> !s.inTx)
            && (LastEvent(t).code == 452 <==> s.inTx && s.rcpt != "")
            && (LastEvent(t).code == 501 <==> s.inTx && s.rcpt == "" && path.None?)
            && (LastEvent(t).code == 550 <==>
                  s.inTx && s.rcpt == "" && path.Some? && forall r :: !Serves(s.cfg.routes, path.value, r))
            && (t.open <==> LastEvent(t).code != 550)
            && (LastEvent(t).code == 250 <==>
                  s.inTx && s.rcpt == "" && path.Some? && exists r :: Serves(s.cfg.routes, path.value, r))
            && (LastEvent(t).code == 250 ==>
                  path == Some(t.rcpt) && t.route.Some? && Serves(s.cfg.routes, t.rcpt, t.route.value))
            && LastEvent(t).code in {250, 452, 501, 503, 550}
  {
    hide C.ReadCommand, Parse, LookupRoute, C.ParsePath, Loaded, Fold, Lawful, Upgrades, Serves;
    var path := C.ParsePath(Parse(C.ReadCommand(s.input).line).1, "TO:");
    if path.Some? {
      forall r ensures LookupRoute(s.cfg, path.value) == Some(r) <==> Serves(s.cfg.routes, path.value, r) {
        LookupAgreesWithScan(s.cfg, path.value, r);
      }
      if LookupRoute(s.cfg, path.value).Some? {
        assert Serves(s.cfg.routes, path.value, LookupRoute(s.cfg, path.value).value);
      }
    }
  }

  /** EHLO advertises STARTTLS iff a STARTTLS that follows is accepted; the handshake alone
      then decides whether the session goes on. */
  lemma {:induction false} TlsOfferedIffAccepted(s: Session, arg: string, handshake: Option<string>)
    requires arg != "" && s.open
    ensures var t, u := Ehlo(s, arg), StartTlsCmd(Ehlo(s, arg), "", handshake);
            && t.trace != [] && LastEvent(t).Sent? && LastEvent(t).phrase.Greeting?
            && (LastEvent(t).phrase.offersTls <==>
                  u.trace == t.trace + [Sent(220, ReadyForTls), Upgraded(handshake.Some?)])
            && (LastEvent(t).phrase.offersTls ==> (u.open <==> handshake.Some?) && (u.encrypted <==> handshake.Some?))
  {
    var t := Ehlo(s, arg);
    assert t.trace + [Sent(220, ReadyForTls)] + [Upgraded(handshake.Some?)]
        == t.trace + [Sent(220, ReadyForTls), Upgraded(handshake.Some?)];
  }
}
