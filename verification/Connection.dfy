/** The session object: its fields, changed step by step by the command handlers
    (internal/server/session.go, internal/server/transaction.go). */
module Connection {
  import opened Options
  import opened Mail
  import opened Policy
  import opened Config
  import opened ReplyCodec
  import opened Session
  import C = CommandCodec
  import B = BodyCodec

  /** The bytes of one event on the wire. */
  function EventBytes(cfg: Config, e: Event): string {
    match e
    case Sent(code, phrase) => ReplyText(code, Wording(cfg, phrase))
    case _ => ""
  }

  /** Everything the server has written. */
  function Wire(cfg: Config, trace: seq<Event>): string {
    if trace == [] then "" else Wire(cfg, trace[..|trace| - 1]) + EventBytes(cfg, trace[|trace| - 1])
  }

  lemma {:induction false} WireNote(cfg: Config, trace: seq<Event>, e: Event)
    ensures Wire(cfg, trace + [e]) == Wire(cfg, trace) + EventBytes(cfg, e)
  {
    assert (trace + [e])[..|trace|] == trace;
  }

  class Conn {
    const cfg: Config
    const mode: TlsMode
    const tlsConf: bool
    const peer: IP
    var encrypted: bool
    var helo: string
    var from: string
    var rcpt: string
    var route: Option<Route>
    var inTx: bool
    var input: string
    var open: bool
    var trace: seq<Event>
    var out: string

    function View(): Session
      reads this
    {
      Session(cfg, mode, tlsConf, peer, encrypted, helo, from, rcpt, route, inTx, input, open, trace)
    }

    /** What was written is exactly the replies on the trace, in order. */
    ghost predicate Valid()
      reads this
    {
      out == Wire(cfg, trace)
    }

    constructor (cfg: Config, mode: TlsMode, tlsConf: bool, peer: IP, input: string)
      ensures Valid() && View() == Connect(cfg, mode, tlsConf, peer, input)
    {
      this.cfg, this.mode, this.tlsConf, this.peer := cfg, mode, tlsConf, peer;
      encrypted := mode == Implicit;
      helo, from, rcpt, route, inTx := "", "", "", None, false;
      this.input, open, trace, out := input, true, [], "";
      new;
      Reply(220, Banner);
      assert [] + [Sent(220, Banner)] == [Sent(220, Banner)];
    }

    method Reply(code: int64, phrase: Phrase)
      requires Valid() && code > 0
      modifies this`trace, this`out
      ensures Valid() && View() == Say(old(View()), code, phrase)
    {
      hide Wire, Wording;
      var bytes := ReplyMulti(code, Wording(cfg, phrase));
      WireNote(cfg, trace, Sent(code, phrase));
      out := out + bytes;
      trace := trace + [Sent(code, phrase)];
    }

    /** An event that writes nothing. */
    method Mark(e: Event)
      requires Valid() && !e.Sent?
      modifies this`trace
      ensures Valid() && View() == Note(old(View()), e)
    {
      hide Wire;
      WireNote(cfg, trace, e);
      assert out + "" == out;
      trace := trace + [e];
    }

    method Reset()
      requires Valid()
      modifies this`from, this`rcpt, this`route, this`inTx
      ensures Valid() && View() == ResetTx(old(View()))
    {
      from := "";
      rcpt := "";
      route := None;
      inTx := false;
    }

    method HandleEHLO(arg: string)
      requires Valid()
      modifies this
      ensures Valid() && View() == Ehlo(old(View()), arg)
    {
      if arg == "" {
        Reply(501, EhloNeedsDomain);
        return;
      }
      helo := arg;
      Reset();
      Reply(250, Greeting(arg, OffersTls(View())));
    }

    method HandleHELO(arg: string)
      requires Valid()
      modifies this
      ensures Valid() && View() == Helo(old(View()), arg)
    {
      if arg == "" {
        Reply(501, HeloNeedsDomain);
        return;
      }
      helo := arg;
      Reset();
      Reply(250, HostName);
    }

    method HandleSTARTTLS(arg: string, handshake: Option<string>)
      requires Valid()
      modifies this
      ensures Valid() && View() == StartTlsCmd(old(View()), arg, handshake)
    {
      hide Wire, ResetTx;
      if arg != "" {
        Reply(501, TlsTakesNoArgument);
        return;
      }
      if mode != StartTls || !tlsConf {
        Reply(502, NotImplemented);
        return;
      }
      if encrypted {
        Reply(503, AlreadyEncrypted);
        return;
      }
      Reply(220, ReadyForTls);
      if handshake.None? {
        Mark(Upgraded(false));
        open := false;
      } else {
        Upgrade(handshake.value);
      }
    }

    /** The state after a successful handshake. */
    method Upgrade(secure: string)
      requires Valid()
      modifies this
      ensures Valid()
      ensures View() == Note(ResetTx(old(View()).(encrypted := true, helo := "", input := secure)), Upgraded(true))
    {
      hide Wire;
      input := secure;
      encrypted := true;
      helo := "";
      Reset();
      Mark(Upgraded(true));
    }

    method HandleMail(arg: string, r: Resolver)
      requires Valid()
      modifies this
      ensures Valid() && View() == MailCmd(old(View()), arg, r)
    {
      hide Decided, C.ParsePath, Wire;
      if helo == "" {
        Reply(503, SendEhloFirst);
        return;
      }
      if inTx {
        Reply(503, NestedMail);
        return;
      }
      var path := C.ParsePath(arg, "FROM:");
      if path.None? {
        Reply(501, MailSyntax);
        return;
      }
      Judge(path.value, r);
    }

    /** The admission decision and its reply. */
    method Judge(path: string, r: Resolver)
      requires Valid()
      modifies this
      ensures Valid() && View() == Judged(old(View()), path, r)
    {
      hide Decided, DecideCalls, Wire, Wording;
      var d, _ := Decide(r, cfg.rules, peer, path);
      Mark(Asked(r, path, d));
      match d.outcome {
        case Admit =>
          from := path;
          inTx := true;
          Reply(250, Okay);
        case RejectTemporary => Reply(451, TryLater);
        case RejectPermanent => Reply(550, SenderRefused);
      }
    }

    method HandleRcpt(arg: string)
      requires Valid()
      modifies this
      ensures Valid() && View() == Rcpt(old(View()), arg)
    {
      hide LookupRoute, C.ParsePath, Wire;
      if !inTx {
        Reply(503, SendMailFirst);
        return;
      }
      if rcpt != "" {
        Reply(452, TooManyRecipients);
        return;
      }
      var path := C.ParsePath(arg, "TO:");
      if path.None? {
        Reply(501, RcptSyntax);
        return;
      }
      var found := LookupRoute(cfg, path.value);
      if found.None? {
        Reply(550, RecipientRefused);
        open := false;
        return;
      }
      rcpt := path.value;
      route := found;
      Mark(Routed(path.value, found.value));
      Reply(250, Okay);
    }

    method HandleData(arg: string, res: Result)
      requires Valid()
      modifies this
      ensures Valid() && View() == Data(old(View()), arg, res)
    {
      hide Wire;
      if arg != "" {
        Reply(501, DataTakesNoArgument);
        return;
      }
      if !inTx || rcpt == "" || route.None? {
        Reply(503, SendMailAndRcptFirst);
        return;
      }
      Reply(354, SendData);
      Receive(res);
    }

    /** The body, past the commit point. */
    method Receive(res: Result)
      requires Valid() && route.Some?
      modifies this
      ensures Valid() && View() == Received(old(View()), res)
    {
      hide B.BodySpec, Wire, Finish;
      var body, _ := B.ReadBody(input, cfg.maxMessageBytes);
      match body {
        case Aborted =>
          Mark(BodyCut);
          open := false;
        case Oversize(rest) =>
          input := rest;
          Mark(BodyRead(true));
          Conclude();
        case Body(text, rest) =>
          input := rest;
          Mark(BodyRead(false));
          Mark(Handed(Message(from, rcpt, route.value, text), res));
          Conclude();
      }
    }

    method Conclude()
      requires Valid()
      modifies this
      ensures Valid() && View() == Finish(old(View()))
    {
      Reset();
      Reply(250, Okay);
    }

    /** One turn of the loop: one command read, obeyed and answered. */
    method Serve(w: World)
      requires Valid()
      modifies this
      ensures Valid() && View() == Turn(old(View()), w)
    {
      hide C.ReadCommand, Parse, Ehlo, Helo, StartTlsCmd, MailCmd, Rcpt, Data;
      match C.ReadCommand(input) {
        case LineTooLong =>
          Mark(Overlong);
          Reply(500, LongLine);
          open := false;
        case NoCommand =>
          open := false;
        case Command(line, rest) =>
          input := rest;
          Mark(Read(line));
          var (verb, arg) := Parse(line);
          Dispatch(verb, arg, w);
      }
    }

    method Dispatch(verb: Verb, arg: string, w: World)
      requires Valid()
      modifies this
      ensures Valid() && View() == Obey(old(View()), verb, arg, w)
    {
      hide Ehlo, Helo, StartTlsCmd, MailCmd, Rcpt, Data, Wire;
      match verb {
        case EHLO => HandleEHLO(arg);
        case HELO => HandleHELO(arg);
        case STARTTLS => HandleSTARTTLS(arg, w.handshake);
        case MAIL =>
          HandleMail(arg, w.resolver);
          if !inTx && from == "" {
            open := false;
          }
        case RCPT => HandleRcpt(arg);
        case DATA => HandleData(arg, w.res);
        case RSET =>
          Reset();
          Reply(250, Okay);
        case NOOP => Reply(250, Okay);
        case QUIT =>
          Reply(221, Closing);
          open := false;
        case Unimplemented => Reply(502, NotImplemented);
        case Empty => Reply(500, SyntaxError);
        case Unrecognised => Reply(500, UnknownCommand);
      }
    }

    /** The command loop, for as long as the world answers. */
    method Loop(ws: seq<World>)
      requires Valid()
      modifies this
      ensures Valid() && View() == Turns(old(View()), ws)
    {
      hide Turn;
      var i := 0;
      assert ws[0..] == ws;
      while open && i < |ws|
        invariant 0 <= i <= |ws| && Valid()
        invariant Turns(View(), ws[i..]) == Turns(old(View()), ws)
        decreases |ws| - i
      {
        assert ws[i..][1..] == ws[i + 1..];
        Serve(ws[i]);
        i := i + 1;
      }
    }
  }
}
