/** One SMTP session as a state machine on values (internal/server/session.go and
    internal/server/transaction.go). One step is one turn of the command loop. */
module Session {
  import opened Options
  import opened Mail
  import opened Policy
  import opened Config
  import opened ReplyCodec
  import C = CommandCodec
  import B = BodyCodec

  datatype TlsMode = Plain | StartTls | Implicit

  /** The texts of the replies. */
  datatype Phrase =
    | Banner | Closing | HostName | Okay
    | Greeting(arg: string, offersTls: bool)
    | EhloNeedsDomain | HeloNeedsDomain
    | TlsTakesNoArgument | NotImplemented | AlreadyEncrypted | ReadyForTls
    | SendEhloFirst | NestedMail | MailSyntax | TryLater | SenderRefused
    | SendMailFirst | TooManyRecipients | RcptSyntax | RecipientRefused
    | DataTakesNoArgument | SendMailAndRcptFirst | SendData
    | LongLine | SyntaxError | UnknownCommand

  function Wording(cfg: Config, p: Phrase): (lines: seq<string>)
    ensures lines != []
  {
    match p
    case Banner => [cfg.hostname + " ready"]
    case Closing => [cfg.hostname + " closing connection"]
    case HostName => [cfg.hostname]
    case Greeting(arg, offersTls) =>
      [cfg.hostname + " greets " + arg, "SIZE " + Decimal(cfg.maxMessageBytes), "8BITMIME", "PIPELINING"]
      + if offersTls then ["STARTTLS"] else []
    case Okay => ["OK"]
    case EhloNeedsDomain => ["EHLO requires a domain"]
    case HeloNeedsDomain => ["HELO requires a domain"]
    case TlsTakesNoArgument => ["STARTTLS takes no argument"]
    case NotImplemented => ["Command not implemented"]
    case AlreadyEncrypted => ["Already encrypted"]
    case ReadyForTls => ["Ready to start TLS"]
    case SendEhloFirst => ["Send EHLO first"]
    case NestedMail => ["Nested MAIL command"]
    case MailSyntax => ["Syntax error in MAIL parameters"]
    case TryLater => ["Temporary failure, try again later"]
    case SenderRefused => ["Sender not permitted"]
    case SendMailFirst => ["Send MAIL first"]
    case TooManyRecipients => ["Too many recipients"]
    case RcptSyntax => ["Syntax error in RCPT parameters"]
    case RecipientRefused => ["Recipient not permitted"]
    case DataTakesNoArgument => ["DATA takes no argument"]
    case SendMailAndRcptFirst => ["Send MAIL and RCPT first"]
    case SendData => ["Send data, end with a single dot"]
    case LongLine => ["Line too long"]
    case SyntaxError => ["Syntax error"]
    case UnknownCommand => ["Syntax error, command unrecognised"]
  }

  /** What passes between the session and the world, in order. */
  datatype Event =
    | Read(line: string)
    | Overlong
    | Sent(code: int, phrase: Phrase)
    | Asked(resolver: Resolver, path: string, d: Decision)
    | Routed(path: string, route: Route)
    | Upgraded(ok: bool)
    | BodyRead(oversize: bool)
    | BodyCut
    | Handed(m: Message, res: Result)

  /** `input` is what the peer sends on the current channel, not yet read; `open` is
      whether the loop goes on. */
  datatype Session = Session(
    cfg: Config, mode: TlsMode, tlsConf: bool, peer: IP,
    encrypted: bool, helo: string, from: string, rcpt: string, route: Option<Route>, inTx: bool,
    input: string, open: bool, trace: seq<Event>)

  /** What the world answers during one turn: the resolver, the handshake (the bytes of
      the secure channel, or a failure) and the dispatcher. */
  datatype World = World(resolver: Resolver, handshake: Option<string>, res: Result)

  function Note(s: Session, e: Event): Session {
    s.(trace := s.trace + [e])
  }

  function Say(s: Session, code: int, phrase: Phrase): Session {
    Note(s, Sent(code, phrase))
  }

  function ResetTx(s: Session): Session {
    s.(from := "", rcpt := "", route := None, inTx := false)
  }

  function Close(s: Session): Session {
    s.(open := false)
  }

  /** A session just after the banner. */
  function Connect(cfg: Config, mode: TlsMode, tlsConf: bool, peer: IP, input: string): Session {
    Session(cfg, mode, tlsConf, peer, mode == Implicit, "", "", "", None, false, input, true,
            [Sent(220, Banner)])
  }

  predicate OffersTls(s: Session) {
    s.mode == StartTls && !s.encrypted && s.tlsConf
  }

  function Ehlo(s: Session, arg: string): Session {
    if arg == "" then Say(s, 501, EhloNeedsDomain)
    else Say(ResetTx(s.(helo := arg)), 250, Greeting(arg, OffersTls(s)))
  }

  function Helo(s: Session, arg: string): Session {
    if arg == "" then Say(s, 501, HeloNeedsDomain)
    else Say(ResetTx(s.(helo := arg)), 250, HostName)
  }

  function StartTlsCmd(s: Session, arg: string, handshake: Option<string>): Session {
    if arg != "" then Say(s, 501, TlsTakesNoArgument)
    else if s.mode != StartTls || !s.tlsConf then Say(s, 502, NotImplemented)
    else if s.encrypted then Say(s, 503, AlreadyEncrypted)
    else
      var t := Say(s, 220, ReadyForTls);
      match handshake
      case None => Close(Note(t, Upgraded(false)))
      case Some(secure) =>
        Note(ResetTx(t.(encrypted := true, helo := "", input := secure)), Upgraded(true))
  }

  function MailCmd(s: Session, arg: string, r: Resolver): Session {
    if s.helo == "" then Say(s, 503, SendEhloFirst)
    else if s.inTx then Say(s, 503, NestedMail)
    else match C.ParsePath(arg, "FROM:")
      case None => Say(s, 501, MailSyntax)
      case Some(path) => Judged(s, path, r)
  }

  /** The admission decision and its reply. */
  function Judged(s: Session, path: string, r: Resolver): Session {
    var d := Decided(r, s.cfg.rules, s.peer, path);
    var t := Note(s, Asked(r, path, d));
    match d.outcome
    case Admit => Say(t.(from := path, inTx := true), 250, Okay)
    case RejectTemporary => Say(t, 451, TryLater)
    case RejectPermanent => Say(t, 550, SenderRefused)
  }

  /** The loop closes after a MAIL that leaves no transaction. */
  function MailTurn(s: Session, arg: string, r: Resolver): Session {
    var t := MailCmd(s, arg, r);
    if !t.inTx && t.from == "" then Close(t) else t
  }

  function Rcpt(s: Session, arg: string): Session {
    if !s.inTx then Say(s, 503, SendMailFirst)
    else if s.rcpt != "" then Say(s, 452, TooManyRecipients)
    else match C.ParsePath(arg, "TO:")
      case None => Say(s, 501, RcptSyntax)
      case Some(path) =>
        match LookupRoute(s.cfg, path)
        case None => Close(Say(s, 550, RecipientRefused))
        case Some(route) => Say(Note(s.(rcpt := path, route := Some(route)), Routed(path, route)), 250, Okay)
  }

  function Finish(s: Session): Session {
    Say(ResetTx(s), 250, Okay)
  }

  /** The test for a missing route only makes the function total: route and rcpt are set
      and cleared together (SessionTrace.Sound). */
  function Data(s: Session, arg: string, res: Result): Session {
    if arg != "" then Say(s, 501, DataTakesNoArgument)
    else if !s.inTx || s.rcpt == "" || s.route.None? then Say(s, 503, SendMailAndRcptFirst)
    else Received(Say(s, 354, SendData), res)
  }

  /** The body, and what follows past the commit point. */
  function Received(s: Session, res: Result): Session
    requires s.route.Some?
  {
    match B.BodySpec(s.input, s.cfg.maxMessageBytes)
    case Aborted => Close(Note(s, BodyCut))
    case Oversize(rest) => Finish(Note(s.(input := rest), BodyRead(true)))
    case Body(text, rest) =>
      var m := Message(s.from, s.rcpt, s.route.value, text);
      Finish(Note(Note(s.(input := rest), BodyRead(false)), Handed(m, res)))
  }

  datatype Verb =
    | EHLO | HELO | STARTTLS | MAIL | RCPT | DATA | RSET | NOOP | QUIT
    | Unimplemented | Empty | Unrecognised

  function VerbOf(word: string): Verb {
    if word == "EHLO" then EHLO
    else if word == "HELO" then HELO
    else if word == "STARTTLS" then STARTTLS
    else if word == "MAIL" then MAIL
    else if word == "RCPT" then RCPT
    else if word == "DATA" then DATA
    else if word == "RSET" then RSET
    else if word == "NOOP" then NOOP
    else if word == "QUIT" then QUIT
    else if word in ["AUTH", "VRFY", "EXPN", "ETRN", "HELP"] then Unimplemented
    else if word == "" then Empty
    else Unrecognised
  }

  /** The verb and the argument of a command line. */
  function Parse(line: string): (Verb, string) {
    var (word, arg) := C.SplitCommand(line);
    (VerbOf(word), arg)
  }

  function Obey(s: Session, verb: Verb, arg: string, w: World): Session {
    match verb
    case EHLO => Ehlo(s, arg)
    case HELO => Helo(s, arg)
    case STARTTLS => StartTlsCmd(s, arg, w.handshake)
    case MAIL => MailTurn(s, arg, w.resolver)
    case RCPT => Rcpt(s, arg)
    case DATA => Data(s, arg, w.res)
    case RSET => Say(ResetTx(s), 250, Okay)
    case NOOP => Say(s, 250, Okay)
    case QUIT => Close(Say(s, 221, Closing))
    case Unimplemented => Say(s, 502, NotImplemented)
    case Empty => Say(s, 500, SyntaxError)
    case Unrecognised => Say(s, 500, UnknownCommand)
  }

  /** One turn of the loop. */
  function Turn(s: Session, w: World): Session {
    match C.ReadCommand(s.input)
    case LineTooLong => Close(Say(Note(s, Overlong), 500, LongLine))
    case NoCommand => Close(s)
    case Command(line, rest) =>
      var (verb, arg) := Parse(line);
      Obey(Note(s.(input := rest), Read(line)), verb, arg, w)
  }

  /** The session after some turns; a closed session takes no more. */
  function Turns(s: Session, ws: seq<World>): Session
    decreases |ws|
  {
    if ws == [] || !s.open then s else Turns(Turn(s, ws[0]), ws[1..])
  }
}
