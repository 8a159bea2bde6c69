/** What every command does, by the words on the wire, each letter in either case
    (internal/server/session.go, internal/server/transaction.go). */
module SessionWords {
  import opened Config
  import opened Lines
  import opened Mail
  import opened Options
  import opened Policy
  import opened Session
  import opened Text
  import B = BodyCodec
  import C = CommandCodec
  import R = ReplyCodec

  // ---- A command as it is typed ----

  /** Leading spaces, a word, and perhaps a space or tab and more. */
  datatype Typed =
    | Bare(lead: nat, word: string)
    | WithArg(lead: nat, word: string, tab: bool, raw: string)

  function Line(t: Typed): string {
    match t
    case Bare(n, word) => C.Spaces(n) + word
    case WithArg(n, word, tab, raw) => C.Spaces(n) + (word + ([if tab then '\t' else ' '] + raw))
  }

  function Arg(t: Typed): string {
    match t
    case Bare(_, _) => ""
    case WithArg(_, _, _, raw) => TrimSpace(raw)
  }

  predicate Plain(word: string) {
    word != "" && forall k :: 0 <= k < |word| ==> word[k] != ' ' && word[k] != '\t'
  }

  /** The session is about to read `t` and has `rest` still to read after it. */
  predicate Reads(s: Session, t: Typed, rest: string) {
    && s.input == Line(t) + CRLF + rest && Free(Line(t), '\n') && |Line(t)| + 2 <= 512 && Plain(t.word)
  }

  lemma {:induction false} SplitsTyped(t: Typed)
    requires Plain(t.word)
    ensures C.SplitCommand(Line(t)) == (ToUpper(t.word), Arg(t))
  {
    hide C.SplitCommand, ToUpper, TrimSpace, C.Spaces;
    match t {
      case Bare(n, word) => C.SplitTyped(n, word, false, "");
      case WithArg(n, word, tab, raw) => C.SplitTyped(n, word, tab, raw);
    }
  }

  lemma {:induction false} Upper(word: string, name: string)
    requires SameButCase(word, name) && ToUpper(name) == name
    ensures ToUpper(word) == name
  {
    hide ToUpper;
    CaseFolds(word, name);
  }

  /** A turn on a command line. */
  lemma {:induction false} TurnOn(s: Session, line: string, rest: string, w: World)
    requires s.input == line + CRLF + rest && Free(line, '\n') && |line| + 2 <= MAX_COMMAND_LINE
    ensures Turn(s, w) == Obey(Note(s.(input := rest), Read(line)), Parse(line).0, Parse(line).1, w)
  {
    hide C.ReadCommand, Parse, Obey;
    C.CommandLine(line, rest);
  }

  lemma {:induction false} TypedTurn(s: Session, t: Typed, rest: string, w: World, name: string)
    requires Reads(s, t, rest) && SameButCase(t.word, name) && ToUpper(name) == name
    ensures Turn(s, w) == Obey(Note(s.(input := rest), Read(Line(t))), VerbOf(name), Arg(t), w)
  {
    hide Turn, Obey, C.SplitCommand, ToUpper, Line, Arg, VerbOf;
    SplitsTyped(t);
    Upper(t.word, name);
    TurnOn(s, Line(t), rest, w);
  }

  /** The session after reading the line and sending one reply, otherwise as `u`. */
  function Answered(s: Session, u: Session, t: Typed, rest: string, code: int, phrase: Phrase): Session {
    u.(input := rest, trace := s.trace + [Read(Line(t)), Sent(code, phrase)])
  }

  lemma {:induction false} Two(t: seq<Event>, a: Event, b: Event)
    ensures t + [a] + [b] == t + [a, b]
  {
  }

  lemma {:induction false} Names()
    ensures ToUpper("EHLO") == "EHLO" && ToUpper("HELO") == "HELO" && ToUpper("STARTTLS") == "STARTTLS"
    ensures ToUpper("MAIL") == "MAIL" && ToUpper("RCPT") == "RCPT" && ToUpper("DATA") == "DATA"
    ensures ToUpper("RSET") == "RSET" && ToUpper("NOOP") == "NOOP" && ToUpper("QUIT") == "QUIT"
    ensures ToUpper("AUTH") == "AUTH" && ToUpper("VRFY") == "VRFY" && ToUpper("EXPN") == "EXPN"
    ensures ToUpper("ETRN") == "ETRN" && ToUpper("HELP") == "HELP"
  {
  }

  lemma {:induction false} EhloIsKnown()
    ensures VerbOf("EHLO") == EHLO
  {
  }

  lemma {:induction false} HeloIsKnown()
    ensures VerbOf("HELO") == HELO
  {
  }

  lemma {:induction false} StarttlsIsKnown()
    ensures VerbOf("STARTTLS") == STARTTLS
  {
  }

  lemma {:induction false} MailIsKnown()
    ensures VerbOf("MAIL") == MAIL
  {
  }

  lemma {:induction false} RcptIsKnown()
    ensures VerbOf("RCPT") == RCPT
  {
  }

  lemma {:induction false} DataIsKnown()
    ensures VerbOf("DATA") == DATA
  {
  }

  lemma {:induction false} RsetIsKnown()
    ensures VerbOf("RSET") == RSET
  {
  }

  lemma {:induction false} NoopIsKnown()
    ensures VerbOf("NOOP") == NOOP
  {
  }

  lemma {:induction false} QuitIsKnown()
    ensures VerbOf("QUIT") == QUIT
  {
  }

  lemma {:induction false} ObeysEhlo(s: Session, arg: string, w: World)
    ensures Obey(s, EHLO, arg, w) == Ehlo(s, arg)
  {
    hide Ehlo, Helo, StartTlsCmd, MailTurn, Rcpt, Data, Say, ResetTx;
  }

  lemma {:induction false} ObeysHelo(s: Session, arg: string, w: World)
    ensures Obey(s, HELO, arg, w) == Helo(s, arg)
  {
    hide Ehlo, Helo, StartTlsCmd, MailTurn, Rcpt, Data, Say, ResetTx;
  }

  lemma {:induction false} ObeysStartTls(s: Session, arg: string, w: World)
    ensures Obey(s, STARTTLS, arg, w) == StartTlsCmd(s, arg, w.handshake)
  {
    hide Ehlo, Helo, StartTlsCmd, MailTurn, Rcpt, Data, Say, ResetTx;
  }

  lemma {:induction false} ObeysMail(s: Session, arg: string, w: World)
    ensures Obey(s, MAIL, arg, w) == MailTurn(s, arg, w.resolver)
  {
    hide Ehlo, Helo, StartTlsCmd, MailTurn, Rcpt, Data, Say, ResetTx;
  }

  lemma {:induction false} ObeysRcpt(s: Session, arg: string, w: World)
    ensures Obey(s, RCPT, arg, w) == Rcpt(s, arg)
  {
    hide Ehlo, Helo, StartTlsCmd, MailTurn, Rcpt, Data, Say, ResetTx;
  }

  lemma {:induction false} ObeysData(s: Session, arg: string, w: World)
    ensures Obey(s, DATA, arg, w) == Data(s, arg, w.res)
  {
    hide Ehlo, Helo, StartTlsCmd, MailTurn, Rcpt, Data, Say, ResetTx;
  }

  lemma {:induction false} ObeysRset(s: Session, arg: string, w: World)
    ensures Obey(s, RSET, arg, w) == Say(ResetTx(s), 250, Okay)
  {
    hide Ehlo, Helo, StartTlsCmd, MailTurn, Rcpt, Data, Say, ResetTx;
  }

  lemma {:induction false} ObeysNoop(s: Session, arg: string, w: World)
    ensures Obey(s, NOOP, arg, w) == Say(s, 250, Okay)
  {
    hide Ehlo, Helo, StartTlsCmd, MailTurn, Rcpt, Data, Say, ResetTx;
  }

  lemma {:induction false} ObeysQuit(s: Session, arg: string, w: World)
    ensures Obey(s, QUIT, arg, w) == Close(Say(s, 221, Closing))
  {
    hide Ehlo, Helo, StartTlsCmd, MailTurn, Rcpt, Data, Say, ResetTx;
  }

  lemma {:induction false} ObeysUnimplemented(s: Session, arg: string, w: World)
    ensures Obey(s, Unimplemented, arg, w) == Say(s, 502, NotImplemented)
  {
    hide Ehlo, Helo, StartTlsCmd, MailTurn, Rcpt, Data, Say, ResetTx;
  }

  lemma {:induction false} ObeysEmpty(s: Session, arg: string, w: World)
    ensures Obey(s, Empty, arg, w) == Say(s, 500, SyntaxError)
  {
    hide Ehlo, Helo, StartTlsCmd, MailTurn, Rcpt, Data, Say, ResetTx;
  }

  lemma {:induction false} ObeysUnrecognised(s: Session, arg: string, w: World)
    ensures Obey(s, Unrecognised, arg, w) == Say(s, 500, UnknownCommand)
  {
    hide Ehlo, Helo, StartTlsCmd, MailTurn, Rcpt, Data, Say, ResetTx;
  }

  // ---- Commands that need no state ----

  /** RSET, whatever follows it, leaves no transaction, keeps everything else and sends 250. */
  lemma {:induction false} RsetTurn(s: Session, t: Typed, rest: string, w: World)
    requires Reads(s, t, rest) && SameButCase(t.word, "RSET")
    ensures Turn(s, w) == Answered(s, s.(from := "", rcpt := "", route := None, inTx := false), t, rest, 250, Okay)
  {
    hide Turn, Obey, VerbOf, ToUpper, Line, Arg;
    Names();
    assert VerbOf("RSET") == RSET by { RsetIsKnown(); }
    TypedTurn(s, t, rest, w, "RSET");
    ObeysRset(Note(s.(input := rest), Read(Line(t))), Arg(t), w);
    Two(s.trace, Read(Line(t)), Sent(250, Okay));
  }

  /** NOOP changes nothing and sends 250. */
  lemma {:induction false} NoopTurn(s: Session, t: Typed, rest: string, w: World)
    requires Reads(s, t, rest) && SameButCase(t.word, "NOOP")
    ensures Turn(s, w) == Answered(s, s, t, rest, 250, Okay)
  {
    hide Turn, Obey, VerbOf, ToUpper, Line, Arg;
    Names();
    assert VerbOf("NOOP") == NOOP by { NoopIsKnown(); }
    TypedTurn(s, t, rest, w, "NOOP");
    ObeysNoop(Note(s.(input := rest), Read(Line(t))), Arg(t), w);
    Two(s.trace, Read(Line(t)), Sent(250, Okay));
  }

  /** QUIT sends 221 and ends the session. */
  lemma {:induction false} QuitTurn(s: Session, t: Typed, rest: string, w: World)
    requires Reads(s, t, rest) && SameButCase(t.word, "QUIT")
    ensures Turn(s, w) == Answered(s, s.(open := false), t, rest, 221, Closing)
  {
    hide Turn, Obey, VerbOf, ToUpper, Line, Arg;
    Names();
    assert VerbOf("QUIT") == QUIT by { QuitIsKnown(); }
    TypedTurn(s, t, rest, w, "QUIT");
    ObeysQuit(Note(s.(input := rest), Read(Line(t))), Arg(t), w);
    Two(s.trace, Read(Line(t)), Sent(221, Closing));
  }

  predicate IsKnown(word: string) {
    || SameButCase(word, "EHLO") || SameButCase(word, "HELO") || SameButCase(word, "STARTTLS")
    || SameButCase(word, "MAIL") || SameButCase(word, "RCPT") || SameButCase(word, "DATA")
    || SameButCase(word, "RSET") || SameButCase(word, "NOOP") || SameButCase(word, "QUIT")
  }

  predicate IsUnimplemented(word: string) {
    || SameButCase(word, "AUTH") || SameButCase(word, "VRFY") || SameButCase(word, "EXPN")
    || SameButCase(word, "ETRN") || SameButCase(word, "HELP")
  }

  /** The five commands known but not implemented change nothing and send 502. */
  lemma {:induction false} UnimplementedTurn(s: Session, t: Typed, rest: string, w: World)
    requires Reads(s, t, rest) && IsUnimplemented(t.word)
    ensures Turn(s, w) == Answered(s, s, t, rest, 502, NotImplemented)
  {
    hide Turn, Obey, ToUpper, Line, Arg, SameButCase, Reads, VerbOf;
    Names();
    var name := if SameButCase(t.word, "AUTH") then "AUTH" else if SameButCase(t.word, "VRFY") then "VRFY"
                else if SameButCase(t.word, "EXPN") then "EXPN" else if SameButCase(t.word, "ETRN") then "ETRN"
                else "HELP";
    TypedTurn(s, t, rest, w, name);
    assert VerbOf(name) == Unimplemented by { UnimplementedWords(); }
    ObeysUnimplemented(Note(s.(input := rest), Read(Line(t))), Arg(t), w);
    Two(s.trace, Read(Line(t)), Sent(502, NotImplemented));
  }

  lemma {:induction false} UnimplementedWords()
    ensures VerbOf("AUTH") == VerbOf("VRFY") == VerbOf("EXPN") == VerbOf("ETRN") == VerbOf("HELP") == Unimplemented
  {
    hide VerbOf;
    AuthIsUnimplemented();
    VrfyIsUnimplemented();
    ExpnIsUnimplemented();
    EtrnIsUnimplemented();
    HelpIsUnimplemented();
  }

  lemma {:induction false} AuthIsUnimplemented()
    ensures VerbOf("AUTH") == Unimplemented
  {
    var five := ["AUTH", "VRFY", "EXPN", "ETRN", "HELP"];
    assert five[0] == "AUTH";
  }

  lemma {:induction false} VrfyIsUnimplemented()
    ensures VerbOf("VRFY") == Unimplemented
  {
    var five := ["AUTH", "VRFY", "EXPN", "ETRN", "HELP"];
    assert five[1] == "VRFY";
  }

  lemma {:induction false} ExpnIsUnimplemented()
    ensures VerbOf("EXPN") == Unimplemented
  {
    var five := ["AUTH", "VRFY", "EXPN", "ETRN", "HELP"];
    assert five[2] == "EXPN";
  }

  lemma {:induction false} EtrnIsUnimplemented()
    ensures VerbOf("ETRN") == Unimplemented
  {
    var five := ["AUTH", "VRFY", "EXPN", "ETRN", "HELP"];
    assert five[3] == "ETRN";
  }

  lemma {:induction false} HelpIsUnimplemented()
    ensures VerbOf("HELP") == Unimplemented
  {
    var five := ["AUTH", "VRFY", "EXPN", "ETRN", "HELP"];
    assert five[4] == "HELP";
  }

  /** Any other word changes nothing and sends 500. */
  lemma {:induction false} UnknownTurn(s: Session, t: Typed, rest: string, w: World)
    requires Reads(s, t, rest) && !IsKnown(t.word) && !IsUnimplemented(t.word)
    ensures Turn(s, w) == Answered(s, s, t, rest, 500, UnknownCommand)
  {
    hide Turn, Obey, VerbOf, ToUpper, Line, Arg, C.SplitCommand, IsKnown, IsUnimplemented;
    UnknownWord(t.word);
    SplitsTyped(t);
    TurnOn(s, Line(t), rest, w);
    ObeysUnrecognised(Note(s.(input := rest), Read(Line(t))), Arg(t), w);
    Two(s.trace, Read(Line(t)), Sent(500, UnknownCommand));
  }

  lemma {:induction false} UnknownWord(word: string)
    requires word != "" && !IsKnown(word) && !IsUnimplemented(word)
    ensures VerbOf(ToUpper(word)) == Unrecognised
  {
    hide ToUpper, SameButCase;
    Names();
    forall name: string | ToUpper(word) == ToUpper(name) ensures SameButCase(word, name) {
      CaseFolds(word, name);
    }
    assert |ToUpper(word)| == |word|;
  }

  /** A line of spaces, or an empty one, changes nothing and sends 500. */
  lemma {:induction false} EmptyTurn(s: Session, n: nat, rest: string, w: World)
    requires s.input == C.Spaces(n) + CRLF + rest && n + 2 <= 512
    ensures Turn(s, w) == Answered(s, s, Bare(n, ""), rest, 500, SyntaxError)
  {
    hide Turn, Obey, C.SplitCommand;
    var line := C.Spaces(n);
    C.SplitNothing(n);
    TurnOn(s, line, rest, w);
    ObeysEmpty(Note(s.(input := rest), Read(line)), "", w);
    assert Line(Bare(n, "")) == line;
    Two(s.trace, Read(line), Sent(500, SyntaxError));
  }

  // ---- Greeting and encryption ----

  /** HELO without a domain is refused; with one it greets, drops the transaction and
      answers with the host name. */
  lemma {:induction false} HeloTurn(s: Session, t: Typed, rest: string, w: World)
    requires Reads(s, t, rest) && SameButCase(t.word, "HELO")
    ensures Turn(s, w) ==
            if Arg(t) == "" then Answered(s, s, t, rest, 501, HeloNeedsDomain)
            else Answered(s, s.(helo := Arg(t), from := "", rcpt := "", route := None, inTx := false), t, rest,
                          250, HostName)
  {
    hide Turn, Obey, VerbOf, ToUpper, Line, Arg;
    Names();
    assert VerbOf("HELO") == HELO by { HeloIsKnown(); }
    TypedTurn(s, t, rest, w, "HELO");
    ObeysHelo(Note(s.(input := rest), Read(Line(t))), Arg(t), w);
    Two(s.trace, Read(Line(t)), Sent(501, HeloNeedsDomain));
    Two(s.trace, Read(Line(t)), Sent(250, HostName));
  }

  /** EHLO likewise, with the list of extensions: STARTTLS is offered on a STARTTLS listener
      that has a certificate, while the session is not encrypted. */
  lemma {:induction false} EhloTurn(s: Session, t: Typed, rest: string, w: World)
    requires Reads(s, t, rest) && SameButCase(t.word, "EHLO")
    ensures Turn(s, w) ==
            if Arg(t) == "" then Answered(s, s, t, rest, 501, EhloNeedsDomain)
            else Answered(s, s.(helo := Arg(t), from := "", rcpt := "", route := None, inTx := false), t, rest,
                          250, Greeting(Arg(t), s.mode == StartTls && s.tlsConf && !s.encrypted))
  {
    hide Turn, Obey, VerbOf, ToUpper, Line, Arg;
    Names();
    assert VerbOf("EHLO") == EHLO by { EhloIsKnown(); }
    TypedTurn(s, t, rest, w, "EHLO");
    ObeysEhlo(Note(s.(input := rest), Read(Line(t))), Arg(t), w);
    Two(s.trace, Read(Line(t)), Sent(501, EhloNeedsDomain));
    Two(s.trace, Read(Line(t)), Sent(250, Greeting(Arg(t), s.mode == StartTls && s.tlsConf && !s.encrypted)));
  }

  /** The greeting names the host, gives the size limit as a number that reads back as the
      limit, and lists exactly the extensions. */
  lemma {:induction false} GreetingLines(cfg: Config, arg: string, offersTls: bool)
    ensures var ls := Wording(cfg, Greeting(arg, offersTls));
            && |ls| == (if offersTls then 5 else 4)
            && ls[0] == cfg.hostname + " greets " + arg
            && |ls[1]| >= 5 && ls[1][..5] == "SIZE " && R.Atoi(ls[1][5..]) == Some(cfg.maxMessageBytes)
            && ls[2] == "8BITMIME" && ls[3] == "PIPELINING" && ("STARTTLS" in ls[2..] <==> offersTls)
  {
    hide R.Decimal, R.Atoi;
    R.DecimalRoundTrip(cfg.maxMessageBytes);
    var ls := Wording(cfg, Greeting(arg, offersTls));
    assert ls[1] == "SIZE " + R.Decimal(cfg.maxMessageBytes);
    assert ls[1][5..] == R.Decimal(cfg.maxMessageBytes);
    assert |"8BITMIME"| == |"STARTTLS"| && "8BITMIME"[0] != "STARTTLS"[0] && |"PIPELINING"| != |"STARTTLS"|;
    if offersTls {
      assert ls[2..][2] == "STARTTLS";
    }
  }

  /** The banner, both greetings and the farewell start with the host name. */
  lemma {:induction false} HostNameComesFirst(cfg: Config, arg: string, offersTls: bool, p: Phrase)
    requires p in {Banner, HostName, Greeting(arg, offersTls), Closing}
    ensures cfg.hostname <= Wording(cfg, p)[0]
  {
  }

  /** STARTTLS: an argument, a listener or server without it, and a session already
      encrypted are refused, in this order; else 220, and the handshake decides between
      the state just after connection on the secure channel and the end. */
  lemma {:induction false} StartTlsTurn(s: Session, t: Typed, rest: string, w: World)
    requires Reads(s, t, rest) && SameButCase(t.word, "STARTTLS")
    ensures Turn(s, w) ==
            if Arg(t) != "" then Answered(s, s, t, rest, 501, TlsTakesNoArgument)
            else if s.mode != StartTls || !s.tlsConf then Answered(s, s, t, rest, 502, NotImplemented)
            else if s.encrypted then Answered(s, s, t, rest, 503, AlreadyEncrypted)
            else
              var trace := s.trace + [Read(Line(t)), Sent(220, ReadyForTls), Upgraded(w.handshake.Some?)];
              match w.handshake
              case None => s.(input := rest, open := false, trace := trace)
              case Some(secure) =>
                s.(helo := "", from := "", rcpt := "", route := None, inTx := false, encrypted := true,
                   input := secure, trace := trace)
  {
    hide Turn, Obey, VerbOf, ToUpper, Line, Arg;
    Names();
    assert VerbOf("STARTTLS") == STARTTLS by { StarttlsIsKnown(); }
    TypedTurn(s, t, rest, w, "STARTTLS");
    ObeysStartTls(Note(s.(input := rest), Read(Line(t))), Arg(t), w);
    Two(s.trace, Read(Line(t)), Sent(501, TlsTakesNoArgument));
    Two(s.trace, Read(Line(t)), Sent(502, NotImplemented));
    Two(s.trace, Read(Line(t)), Sent(503, AlreadyEncrypted));
    Three(s.trace, Read(Line(t)), Sent(220, ReadyForTls), Upgraded(w.handshake.Some?));
  }

  lemma {:induction false} Three(t: seq<Event>, a: Event, b: Event, c: Event)
    ensures t + [a] + [b] + [c] == t + [a, b, c]
  {
  }

  // ---- The transaction ----

  /** MAIL: without a greeting, and inside a transaction, 503; without a path, 501; else
      the decision on this path for this peer under this configuration. Whatever leaves
      no transaction open closes the session. */
  lemma {:induction false} MailTurnIs(s: Session, t: Typed, rest: string, w: World)
    requires Reads(s, t, rest) && SameButCase(t.word, "MAIL") && s.open && (!s.inTx ==> s.from == "")
    ensures Turn(s, w) ==
            if s.helo == "" then Answered(s, s.(open := s.inTx), t, rest, 503, SendEhloFirst)
            else if s.inTx then Answered(s, s, t, rest, 503, NestedMail)
            else match C.ParsePath(Arg(t), "FROM:")
              case None => Answered(s, s.(open := false), t, rest, 501, MailSyntax)
              case Some(path) =>
                var d := Decided(w.resolver, s.cfg.rules, s.peer, path);
                var asked := s.trace + [Read(Line(t)), Asked(w.resolver, path, d)];
                match d.outcome
                case Admit => s.(from := path, inTx := true, input := rest, trace := asked + [Sent(250, Okay)])
                case RejectTemporary => s.(open := false, input := rest, trace := asked + [Sent(451, TryLater)])
                case RejectPermanent => s.(open := false, input := rest, trace := asked + [Sent(550, SenderRefused)])
  {
    hide Turn, Obey, VerbOf, ToUpper, Line, Arg, Decided, C.ParsePath;
    Names();
    assert VerbOf("MAIL") == MAIL by { MailIsKnown(); }
    TypedTurn(s, t, rest, w, "MAIL");
    ObeysMail(Note(s.(input := rest), Read(Line(t))), Arg(t), w);
    Two(s.trace, Read(Line(t)), Sent(503, SendEhloFirst));
    Two(s.trace, Read(Line(t)), Sent(503, NestedMail));
    Two(s.trace, Read(Line(t)), Sent(501, MailSyntax));
    if C.ParsePath(Arg(t), "FROM:").Some? {
      var path := C.ParsePath(Arg(t), "FROM:").value;
      Two(s.trace, Read(Line(t)), Asked(w.resolver, path, Decided(w.resolver, s.cfg.rules, s.peer, path)));
    }
  }

  /** RCPT: outside a transaction 503; with a recipient already 452; without a path 501;
      without a route 550 and the end; else the path and its route are kept. */
  lemma {:induction false} RcptTurnIs(s: Session, t: Typed, rest: string, w: World)
    requires Reads(s, t, rest) && SameButCase(t.word, "RCPT")
    ensures Turn(s, w) ==
            if !s.inTx then Answered(s, s, t, rest, 503, SendMailFirst)
            else if s.rcpt != "" then Answered(s, s, t, rest, 452, TooManyRecipients)
            else match C.ParsePath(Arg(t), "TO:")
              case None => Answered(s, s, t, rest, 501, RcptSyntax)
              case Some(path) =>
                match LookupRoute(s.cfg, path)
                case None => Answered(s, s.(open := false), t, rest, 550, RecipientRefused)
                case Some(route) =>
                  s.(rcpt := path, route := Some(route), input := rest,
                     trace := s.trace + [Read(Line(t)), Routed(path, route), Sent(250, Okay)])
  {
    hide Turn, Obey, VerbOf, ToUpper, Line, Arg, LookupRoute, C.ParsePath;
    Names();
    assert VerbOf("RCPT") == RCPT by { RcptIsKnown(); }
    TypedTurn(s, t, rest, w, "RCPT");
    ObeysRcpt(Note(s.(input := rest), Read(Line(t))), Arg(t), w);
    Two(s.trace, Read(Line(t)), Sent(503, SendMailFirst));
    Two(s.trace, Read(Line(t)), Sent(452, TooManyRecipients));
    Two(s.trace, Read(Line(t)), Sent(501, RcptSyntax));
    Two(s.trace, Read(Line(t)), Sent(550, RecipientRefused));
    if C.ParsePath(Arg(t), "TO:").Some? {
      var path := C.ParsePath(Arg(t), "TO:").value;
      if LookupRoute(s.cfg, path).Some? {
        Three(s.trace, Read(Line(t)), Routed(path, LookupRoute(s.cfg, path).value), Sent(250, Okay));
      }
    }
  }

  /** DATA: an argument is refused with 501, a transaction without a recipient with 503;
      else 354 and the body, within the configured size: a body that does not end closes
      without a reply, one that is too large is discarded behind a 250, any other is
      handed over as it is with the open transaction's envelope, behind a 250. */
  lemma {:induction false} DataTurnIs(s: Session, t: Typed, rest: string, w: World)
    requires Reads(s, t, rest) && SameButCase(t.word, "DATA") && (s.rcpt != "" <==> s.route.Some?)
    ensures Turn(s, w) ==
            if Arg(t) != "" then Answered(s, s, t, rest, 501, DataTakesNoArgument)
            else if !s.inTx || s.rcpt == "" then Answered(s, s, t, rest, 503, SendMailAndRcptFirst)
            else
              var asked := s.trace + [Read(Line(t)), Sent(354, SendData)];
              var done := s.(from := "", rcpt := "", route := None, inTx := false);
              match B.BodySpec(rest, s.cfg.maxMessageBytes)
              case Aborted => s.(input := rest, open := false, trace := asked + [BodyCut])
              case Oversize(more) => done.(input := more, trace := asked + [BodyRead(true), Sent(250, Okay)])
              case Body(text, more) =>
                var m := Message(s.from, s.rcpt, s.route.value, text);
                done.(input := more, trace := asked + [BodyRead(false), Handed(m, w.res), Sent(250, Okay)])
  {
    hide Turn, Obey, VerbOf, ToUpper, Line, Arg, B.BodySpec, Received;
    Names();
    assert VerbOf("DATA") == DATA by { DataIsKnown(); }
    TypedTurn(s, t, rest, w, "DATA");
    ObeysData(Note(s.(input := rest), Read(Line(t))), Arg(t), w);
    Two(s.trace, Read(Line(t)), Sent(501, DataTakesNoArgument));
    Two(s.trace, Read(Line(t)), Sent(503, SendMailAndRcptFirst));
    Two(s.trace, Read(Line(t)), Sent(354, SendData));
    if s.route.Some? {
      ReceivedIs(s.(input := rest, trace := s.trace + [Read(Line(t)), Sent(354, SendData)]), w.res);
    }
  }

  /** Past the 354. */
  lemma {:induction false} ReceivedIs(s: Session, res: Result)
    requires s.route.Some?
    ensures Received(s, res) ==
            var done := s.(from := "", rcpt := "", route := None, inTx := false);
            match B.BodySpec(s.input, s.cfg.maxMessageBytes)
            case Aborted => s.(open := false, trace := s.trace + [BodyCut])
            case Oversize(more) => done.(input := more, trace := s.trace + [BodyRead(true), Sent(250, Okay)])
            case Body(text, more) =>
              var m := Message(s.from, s.rcpt, s.route.value, text);
              done.(input := more, trace := s.trace + [BodyRead(false), Handed(m, res), Sent(250, Okay)])
  {
    hide B.BodySpec;
    match B.BodySpec(s.input, s.cfg.maxMessageBytes) {
      case Aborted =>
      case Oversize(_) => Two(s.trace, BodyRead(true), Sent(250, Okay));
      case Body(text, _) =>
        Three(s.trace, BodyRead(false), Handed(Message(s.from, s.rcpt, s.route.value, text), res), Sent(250, Okay));
    }
  }

  // ---- Lines that are no command ----

  /** A line ended by a bare LF, and the end of the stream, end the session without a
      reply; a line of more than 512 octets is answered with 500 and ends it. */
  lemma {:induction false} UnreadableTurn(s: Session, line: string, rest: string, w: World)
    requires Free(line, '\n')
    ensures s.input == line && |line| <= 512 ==> Turn(s, w) == s.(open := false)
    ensures s.input == line + "\n" + rest && |line| < 512 && (line != "" ==> line[|line| - 1] != '\r') ==>
              Turn(s, w) == s.(open := false)
    ensures s.input == line + CRLF + rest && |line| + 2 > 512 ==>
              Turn(s, w) == s.(open := false, trace := s.trace + [Overlong, Sent(500, LongLine)])
  {
    hide C.ReadCommand, Parse, Obey;
    C.CommandLimits(line, rest);
    Two(s.trace, Overlong, Sent(500, LongLine));
  }
}
