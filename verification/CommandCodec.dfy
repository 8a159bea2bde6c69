/** Command lines in both directions: readCommand, splitCommand and parsePath
    (internal/server) against the MAIL and RCPT lines the relay prints
    (internal/dispatch/forward.go). */
module CommandCodec {
  import opened Text
  import opened Lines
  import opened Options

  datatype CommandResult =
    | Command(line: string, rest: string)
    | LineTooLong
    | NoCommand

  /** One command line. A bare LF and the end of the stream both end the session. */
  function ReadCommand(input: string): CommandResult {
    match ReadLine(input, MAX_COMMAND_LINE)
    case TooLong(_) => LineTooLong
    case Eof => NoCommand
    case Line(text, rest) =>
      if HasSuffix(text, CRLF) then Command(text[..|text| - 2], rest) else NoCommand
  }

  /** The verb in upper case, and its argument. */
  function SplitCommand(line: string): (string, string) {
    var l := TrimLeft(line, {' '});
    var i := IndexAny(l, BLANKS);
    if i < 0 then (ToUpper(l), "") else (ToUpper(l[..i]), TrimSpace(l[i + 1..]))
  }

  function ParsePath(arg: string, prefix: string): Option<string> {
    if |arg| < |prefix| || ToLower(arg[..|prefix|]) != ToLower(prefix) then None
    else
      var rest := TrimSpace(arg[|prefix|..]);
      if rest == "" then None
      else if "<" <= rest then
        var end := IndexAny(rest, {'>'});
        if end < 0 then None else Some(ToLower(TrimSpace(rest[1..end])))
      else
        var i := IndexAny(rest, BLANKS);
        Some(ToLower(if i < 0 then rest else rest[..i]))
  }

  /** The line the relay prints, for example MAIL FROM:<p>. */
  function PrintPath(verb: string, prefix: string, path: string): string {
    verb + (" " + (prefix + ("<" + (path + ">"))))
  }

  /** What the server makes of a printed line at the head of its input. */
  function ReadBack(verb: string, prefix: string, input: string): Option<(string, string)> {
    match ReadCommand(input)
    case Command(line, rest) =>
      var (v, arg) := SplitCommand(line);
      if v != verb then None
      else (match ParsePath(arg, prefix)
        case Some(p) => Some((p, rest))
        case None => None)
    case _ => None
  }

  predicate Known(verb: string, prefix: string) {
    (verb == "MAIL" && prefix == "FROM:") || (verb == "RCPT" && prefix == "TO:")
  }

  lemma {:induction false} CommandLine(line: string, rest: string)
    requires Free(line, '\n') && |line| + 2 <= MAX_COMMAND_LINE
    ensures ReadCommand(line + CRLF + rest) == Command(line, rest)
  {
    hide IndexAny, ReadLine, SplitLines;
    var l := line + CRLF;
    assert l[..|l| - 1] == line + "\r";
    FirstLine(l, rest);
    assert l[|l| - 2..] == CRLF && l[..|l| - 2] == line;
  }

  lemma {:induction false} LongCommand(line: string, rest: string)
    requires Free(line, '\n') && |line| + 2 > MAX_COMMAND_LINE
    ensures ReadCommand(line + CRLF + rest) == LineTooLong
  {
    hide IndexAny, ReadLine, SplitLines;
    var l := line + CRLF;
    assert l[..|l| - 1] == line + "\r";
    FirstLine(l, rest);
  }

  /** A verb without blanks is separated from a trimmed argument. */
  lemma {:induction false} SplitVerb(verb: string, arg: string)
    requires verb != [] && (forall k :: 0 <= k < |verb| ==> verb[k] !in BLANKS) && Trimmed(arg)
    ensures SplitCommand(verb + (" " + arg)) == (ToUpper(verb), arg)
  {
    hide SplitCommand, TrimSpace, Trimmed, ToUpper;
    SplitAtBlank(verb, ' ', arg);
    TrimmedStays(arg);
  }

  /** A verb alone has no argument. */
  lemma {:induction false} SplitBare(verb: string)
    requires verb != [] && forall k :: 0 <= k < |verb| ==> verb[k] !in BLANKS
    ensures SplitCommand(verb) == (ToUpper(verb), "")
  {
    hide IndexAny, TrimLeft, ToUpper;
    NothingToTrim(verb, {' '});
  }

  /** The path ends at the first '>', and is then trimmed and lower-cased. */
  lemma {:induction false} ParseBracketed(prefix: string, path: string, tail: string)
    requires Free(path, '>') && (tail != [] ==> tail[|tail| - 1] !in SPACES)
    ensures ParsePath(prefix + ("<" + (path + (">" + tail))), prefix) == Some(ToLower(TrimSpace(path)))
  {
    hide IndexAny, TrimLeft, TrimRight, TrimSpace, ToLower;
    var rest := "<" + (path + (">" + tail));
    var arg := prefix + rest;
    assert arg[..|prefix|] == prefix && arg[|prefix|..] == rest;
    assert Trimmed(rest);
    TrimmedStays(rest);
    assert rest[|path| + 1] == '>' && rest[1..|path| + 1] == path;
    assert forall k :: 0 < k < |path| + 1 ==> rest[k] == path[k - 1];
    assert IndexAny(rest, {'>'}) == |path| + 1;
    assert "<" <= rest;
  }

  lemma {:induction false} ReadsPrinted(verb: string, prefix: string, path: string, tail: string, rest: string)
    requires Known(verb, prefix) && Free(path, '>') && Free(path + (">" + tail), '\n')
    requires tail != [] ==> tail[|tail| - 1] !in SPACES
    requires |verb| + |prefix| + |path| + |tail| + 5 <= MAX_COMMAND_LINE
    ensures ReadBack(verb, prefix, verb + (" " + (prefix + ("<" + (path + (">" + tail))))) + CRLF + rest)
         == Some((ToLower(TrimSpace(path)), rest))
  {
    hide IndexAny, TrimLeft, TrimRight, TrimSpace, ToLower, ReadCommand, SplitCommand, ParsePath;
    var arg := prefix + ("<" + (path + (">" + tail)));
    var line := verb + (" " + arg);
    assert Free(verb, '\n') && Free(prefix, '\n');
    assert Free(line, '\n');
    CommandLine(line, rest);
    assert arg[0] == prefix[0] && arg[|arg| - 1] !in SPACES;
    SplitVerb(verb, arg);
    assert ToUpper(verb) == verb;
    ParseBracketed(prefix, path, tail);
  }

  lemma {:induction false} TrimShortens(s: string)
    ensures |TrimSpace(s)| <= |s|
    ensures |TrimSpace(s)| == |s| ==> TrimSpace(s) == s
  {
    var l := TrimLeft(s, SPACES);
    assert l == s[|s| - |l|..];
  }

  /** A path survives the trip through the relay's MAIL or RCPT line and the next
      server iff it has no '>', no LF, no outer white space and no upper case letter,
      and the line fits. */
  lemma {:induction false} PathRoundTrip(verb: string, prefix: string, path: string, rest: string)
    requires Known(verb, prefix)
    ensures ReadBack(verb, prefix, PrintPath(verb, prefix, path) + CRLF + rest) == Some((path, rest))
            <==> Printable(path) && Free(path, '\n') && |PrintPath(verb, prefix, path)| + 2 <= MAX_COMMAND_LINE
  {
    hide IndexAny, TrimLeft, TrimRight, TrimSpace, ToLower, ReadBack, PrintPath, Printable, Free;
    var line := PrintPath(verb, prefix, path);
    if !Free(path, '\n') {
      ReadsPlain(verb, prefix, line + CRLF + rest);
    } else if |line| + 2 > MAX_COMMAND_LINE {
      PrintedIsPlain(verb, prefix, path);
      LongCommand(line, rest);
      assert ReadBack(verb, prefix, line + CRLF + rest) == None by { NothingRead(verb, prefix, line + CRLF + rest); }
    } else {
      ShortRoundTrip(verb, prefix, path, rest);
    }
  }

  lemma {:induction false} NothingRead(verb: string, prefix: string, input: string)
    requires ReadCommand(input) == LineTooLong
    ensures ReadBack(verb, prefix, input) == None
  {
    hide ReadCommand;
  }

  lemma {:induction false} PrintedIsPlain(verb: string, prefix: string, path: string)
    requires Known(verb, prefix) && Free(path, '\n')
    ensures Free(PrintPath(verb, prefix, path), '\n')
  {
    assert Free(verb, '\n') && Free(prefix, '\n');
  }

  lemma {:induction false} ShortRoundTrip(verb: string, prefix: string, path: string, rest: string)
    requires Known(verb, prefix) && Free(path, '\n')
    requires |PrintPath(verb, prefix, path)| + 2 <= MAX_COMMAND_LINE
    ensures ReadBack(verb, prefix, PrintPath(verb, prefix, path) + CRLF + rest) == Some((path, rest))
            <==> Printable(path)
  {
    hide IndexAny, TrimLeft, TrimRight, TrimSpace, ToLower, ReadBack;
    var e := IndexAny(path, {'>'});
    if e < 0 {
      assert path + (">" + "") == path + ">";
      ReadsPrinted(verb, prefix, path, "", rest);
      TrimShortens(path);
      if Trimmed(path) {
        TrimmedStays(path);
      }
      assert |ToLower(TrimSpace(path))| == |TrimSpace(path)|;
    } else {
      var p, tail := path[..e], path[e + 1..] + ">";
      assert path + ">" == p + (">" + tail);
      ReadsPrinted(verb, prefix, p, tail, rest);
      TrimShortens(p);
      assert |ToLower(TrimSpace(p))| < |path|;
    }
  }

  /** What is read from a command line holds no LF. */
  lemma {:induction false} ReadsPlain(verb: string, prefix: string, input: string)
    ensures ReadCommand(input).Command? ==> Free(ReadCommand(input).line, '\n')
    ensures ReadBack(verb, prefix, input).Some? ==> Free(ReadBack(verb, prefix, input).value.0, '\n')
  {
    hide SplitCommand, ParsePath;
    CommandIsPlain(input);
    match ReadCommand(input) {
      case Command(line, _) =>
        ArgIsPlain(line);
        PathIsPlain(SplitCommand(line).1, prefix);
      case _ =>
    }
  }

  lemma {:induction false} CommandIsPlain(input: string)
    ensures ReadCommand(input).Command? ==>
              var line := ReadCommand(input).line; Free(line, '\n') && |line| + 2 <= MAX_COMMAND_LINE
  {
    hide ReadLine;
    match ReadLine(input, MAX_COMMAND_LINE) {
      case Line(text, _) =>
        if HasSuffix(text, CRLF) {
          assert text[..|text| - 2] == text[..|text| - 1][..|text| - 2];
        }
      case _ =>
    }
  }

  lemma {:induction false} ArgIsPlain(line: string)
    requires Free(line, '\n')
    ensures Free(SplitCommand(line).1, '\n')
  {
    hide IndexAny, TrimLeft, TrimSpace;
    var l := TrimLeft(line, {' '});
    assert l == line[|line| - |l|..];
    var i := IndexAny(l, BLANKS);
    if i >= 0 {
      TrimKeeps(l[i + 1..], '\n');
    }
  }

  lemma {:induction false} PathIsPlain(arg: string, prefix: string)
    requires Free(arg, '\n')
    ensures ParsePath(arg, prefix).Some? ==> Free(ParsePath(arg, prefix).value, '\n')
  {
    hide IndexAny, TrimSpace, ToLower;
    if |arg| >= |prefix| {
      TrimKeeps(arg[|prefix|..], '\n');
      var rest := TrimSpace(arg[|prefix|..]);
      var end, i := IndexAny(rest, {'>'}), IndexAny(rest, BLANKS);
      if end > 0 {
        TrimKeeps(rest[1..end], '\n');
        LowerKeeps(TrimSpace(rest[1..end]));
      }
      LowerKeeps(if i < 0 then rest else rest[..i]);
    }
  }

  predicate Printable(path: string) {
    Free(path, '>') && Trimmed(path) && ToLower(path) == path
  }

  /** Every path taken from a bracketed argument can be relayed. */
  lemma {:induction false} BracketedIsPrintable(arg: string, prefix: string)
    requires Free(arg, '\n') && ParsePath(arg, prefix).Some? && Bracketed(arg, prefix)
    ensures var p := ParsePath(arg, prefix).value; Printable(p) && Free(p, '\n')
  {
    hide IndexAny, TrimLeft, TrimRight;
    var a := arg[|prefix|..];
    var rest := TrimSpace(a);
    TrimKeeps(a, '\n');
    var inner := rest[1..IndexAny(rest, {'>'})];
    assert Free(inner, '>') && Free(inner, '\n');
    TrimKeeps(inner, '>');
    TrimKeeps(inner, '\n');
    LowerKeeps(TrimSpace(inner));
    LowerIdempotent(TrimSpace(inner));
  }

  predicate Bracketed(arg: string, prefix: string) {
    |arg| >= |prefix| && "<" <= TrimSpace(arg[|prefix|..])
  }

  /** Printing a bracketed path takes no more octets than the line it came in. */
  lemma {:induction false} BracketedFits(line: string, arg: string, verb: string, prefix: string)
    requires SplitCommand(line) == (verb, arg) && ParsePath(arg, prefix).Some? && Bracketed(arg, prefix)
    requires Known(verb, prefix)
    ensures |PrintPath(verb, prefix, ParsePath(arg, prefix).value)| <= |line|
  {
    hide IndexAny, TrimLeft, TrimSpace, ToLower;
    var l := TrimLeft(line, {' '});
    var i := IndexAny(l, BLANKS);
    if i >= 0 {
      TrimShortens(l[i + 1..]);
    }
    var a := arg[|prefix|..];
    TrimShortens(a);
    var end := IndexAny(TrimSpace(a), {'>'});
    TrimShortens(TrimSpace(a)[1..end]);
  }

  /** Of the paths that a server accepts in a MAIL or RCPT line, every bracketed one
      reaches the next server as it is; an unbracketed one does iff it has no '>' and
      ends in no white space, and the two brackets still fit the line. */
  lemma {:induction false} AcceptedPathRoundTrip(input: string, arg: string, verb: string, prefix: string, rest: string)
    requires Known(verb, prefix) && ReadCommand(input).Command?
    requires SplitCommand(ReadCommand(input).line) == (verb, arg) && ParsePath(arg, prefix).Some?
    ensures var p := ParsePath(arg, prefix).value;
            ReadBack(verb, prefix, PrintPath(verb, prefix, p) + CRLF + rest) == Some((p, rest))
            <==> Bracketed(arg, prefix)
                 || (Free(p, '>') && Trimmed(p) && |PrintPath(verb, prefix, p)| + 2 <= MAX_COMMAND_LINE)
  {
    hide ReadCommand, SplitCommand, ParsePath, TrimSpace, ToLower, ReadBack, PrintPath, Free, Trimmed;
    var line, p := ReadCommand(input).line, ParsePath(arg, prefix).value;
    CommandIsPlain(input);
    ArgIsPlain(line);
    PathIsPlain(arg, prefix);
    PathRoundTrip(verb, prefix, p, rest);
    PathIsLower(arg, prefix);
    if Bracketed(arg, prefix) {
      BracketedIsPrintable(arg, prefix);
      BracketedFits(line, arg, verb, prefix);
    }
  }

  lemma {:induction false} PathIsLower(arg: string, prefix: string)
    requires ParsePath(arg, prefix).Some?
    ensures ToLower(ParsePath(arg, prefix).value) == ParsePath(arg, prefix).value
  {
    hide IndexAny, TrimSpace, ToLower;
    var rest := TrimSpace(arg[|prefix|..]);
    var end, i := IndexAny(rest, {'>'}), IndexAny(rest, BLANKS);
    if "<" <= rest {
      LowerIdempotent(TrimSpace(rest[1..end]));
    } else {
      LowerIdempotent(if i < 0 then rest else rest[..i]);
    }
  }

  lemma {:induction false} TrimKeeps(s: string, c: char)
    requires Free(s, c)
    ensures Free(TrimSpace(s), c)
  {
    var l := TrimLeft(s, SPACES);
    assert l == s[|s| - |l|..];
    assert Free(l, c);
  }

  lemma {:induction false} LowerKeeps(s: string)
    ensures Trimmed(s) ==> Trimmed(ToLower(s))
    ensures Free(s, '>') ==> Free(ToLower(s), '>')
    ensures Free(s, '\n') ==> Free(ToLower(s), '\n')
  {
  }

  // ---- Every line and every argument ----

  /** What becomes of any stream: a line ended by CRLF is a command iff it is within 512
      octets with its ending; a line ended by a bare LF, and a stream that ends without
      one, end the session; a longer one is answered as too long, whatever ends it. */
  lemma {:induction false} CommandLimits(line: string, rest: string)
    requires Free(line, '\n')
    ensures ReadCommand(line + CRLF + rest) == if |line| + 2 <= 512 then Command(line, rest) else LineTooLong
    ensures (line != [] ==> line[|line| - 1] != '\r') ==>
              ReadCommand(line + "\n" + rest) == if |line| + 1 <= 512 then NoCommand else LineTooLong
    ensures ReadCommand(line) == if |line| <= 512 then NoCommand else LineTooLong
  {
    hide IndexAny, SplitLines, ReadCommand, ReadLine;
    if |line| + 2 <= 512 {
      CommandLine(line, rest);
    } else {
      LongCommand(line, rest);
    }
    BareLineEnds(line, rest);
    assert ReadCommand(line) == if |line| <= 512 then NoCommand else LineTooLong by { UnendedLine(line); }
  }

  lemma {:induction false} BareLineEnds(line: string, rest: string)
    requires Free(line, '\n')
    ensures (line != [] ==> line[|line| - 1] != '\r') ==>
              ReadCommand(line + "\n" + rest) == if |line| + 1 <= 512 then NoCommand else LineTooLong
  {
    hide IndexAny, SplitLines, ReadLine;
    var l := line + "\n";
    assert l[..|l| - 1] == line;
    FirstLine(l, rest);
    if HasSuffix(l, CRLF) {
      assert l[|l| - 2..][0] == l[|l| - 2] == line[|line| - 1];
    }
  }

  lemma {:induction false} UnendedLine(line: string)
    requires Free(line, '\n')
    ensures ReadCommand(line) == if |line| <= 512 then NoCommand else LineTooLong
  {
    hide IndexAny;
  }

  function Spaces(n: nat): string {
    seq(n, _ => ' ')
  }

  lemma {:induction false} LeadingSpaces(n: nat, l: string)
    ensures TrimLeft(Spaces(n) + l, {' '}) == TrimLeft(l, {' '})
  {
    hide TrimLeft;
    DropsLeft(Spaces(n), l, {' '});
  }

  /** Leading spaces do not count; the word ends at the first space or tab, is put in upper
      case, and the trimmed rest is its argument. */
  lemma {:induction false} SplitTyped(n: nat, word: string, tab: bool, raw: string)
    requires word != [] && forall k :: 0 <= k < |word| ==> word[k] != ' ' && word[k] != '\t'
    ensures SplitCommand(Spaces(n) + (word + ([if tab then '\t' else ' '] + raw))) == (ToUpper(word), TrimSpace(raw))
    ensures SplitCommand(Spaces(n) + word) == (ToUpper(word), "")
  {
    hide SplitCommand, TrimSpace, ToUpper, Spaces;
    var c := if tab then '\t' else ' ';
    SpacesDoNotCount(n, word + ([c] + raw));
    SpacesDoNotCount(n, word);
    SplitAtBlank(word, c, raw);
    SplitBare(word);
  }

  lemma {:induction false} SpacesDoNotCount(n: nat, l: string)
    ensures SplitCommand(Spaces(n) + l) == SplitCommand(l)
  {
    hide IndexAny, TrimLeft, TrimSpace, ToUpper, Spaces;
    LeadingSpaces(n, l);
  }

  lemma {:induction false} SplitAtBlank(word: string, c: char, raw: string)
    requires word != [] && (forall k :: 0 <= k < |word| ==> word[k] !in BLANKS) && c in BLANKS
    ensures SplitCommand(word + ([c] + raw)) == (ToUpper(word), TrimSpace(raw))
  {
    hide IndexAny, TrimLeft, TrimSpace, ToUpper, SplitCommand;
    var l := word + ([c] + raw);
    IndexAnyAt(l, word, c, raw, BLANKS);
    assert l[0] == word[0];
    NothingToTrim(l, {' '});
    SplitAt(l, |word|, word, raw);
  }

  lemma {:induction false} SplitAt(l: string, i: nat, word: string, raw: string)
    requires TrimLeft(l, {' '}) == l && IndexAny(l, BLANKS) == i && l[..i] == word && l[i + 1..] == raw
    ensures SplitCommand(l) == (ToUpper(word), TrimSpace(raw))
  {
    hide IndexAny, TrimLeft, TrimSpace, ToUpper;
  }

  lemma {:induction false} SplitNothing(n: nat)
    ensures SplitCommand(Spaces(n)) == ("", "")
  {
    hide TrimLeft, Spaces;
    LeadingSpaces(n, "");
    assert Spaces(n) + "" == Spaces(n);
    NothingToTrim("", {' '});
    assert ToUpper("") == "";
  }

  /** FROM: and TO: may be given in any case; without them there is no path. */
  lemma {:induction false} PrefixInAnyCase(arg: string, prefix: string)
    ensures if |arg| >= |prefix| && SameButCase(arg[..|prefix|], prefix)
            then ParsePath(arg, prefix) == ParsePath(prefix + arg[|prefix|..], prefix)
            else ParsePath(arg, prefix).None?
  {
    hide IndexAny, TrimSpace, ToLower;
    if |arg| >= |prefix| {
      CaseFolds(arg[..|prefix|], prefix);
      var other := prefix + arg[|prefix|..];
      assert other[..|prefix|] == prefix && other[|prefix|..] == arg[|prefix|..];
    }
  }

  /** What follows the prefix: nothing, an unclosed bracket, a bracketed path with its
      parameters, or a path that ends at the first space or tab. */
  lemma {:induction false} PathAfterPrefix(prefix: string, raw: string, path: string, tail: string)
    ensures AllSpace(raw) ==> ParsePath(prefix + raw, prefix).None?
    ensures Free(path, '>') && TrimSpace(raw) == "<" + path ==> ParsePath(prefix + raw, prefix).None?
    ensures Free(path, '>') && TrimSpace(raw) == "<" + (path + (">" + tail)) ==>
              ParsePath(prefix + raw, prefix) == Some(ToLower(TrimSpace(path)))
    ensures path != "" && path[0] != '<' && TrimSpace(raw) == path + tail
            && (forall k :: 0 <= k < |path| ==> path[k] != ' ' && path[k] != '\t')
            && (tail != "" ==> tail[0] == ' ' || tail[0] == '\t') ==>
              ParsePath(prefix + raw, prefix) == Some(ToLower(path))
  {
    hide IndexAny, ToLower, ParsePath, TrimSpace, TrimLeft, TrimRight;
    if AllSpace(raw) {
      assert raw + ("" + "") == raw;
      TrimsBothEnds(raw, "", "");
      NoPath(prefix, raw);
    }
    if Free(path, '>') && TrimSpace(raw) == "<" + path {
      UnclosedPath(prefix, raw, path);
    }
    if Free(path, '>') && TrimSpace(raw) == "<" + (path + (">" + tail)) {
      ClosedPath(prefix, raw, path, tail);
    }
    if path != "" && path[0] != '<' && TrimSpace(raw) == path + tail
       && (forall k :: 0 <= k < |path| ==> path[k] != ' ' && path[k] != '\t')
       && (tail != "" ==> tail[0] == ' ' || tail[0] == '\t')
    {
      BarePath(prefix, raw, path, tail);
    }
  }

  lemma {:induction false} NoPath(prefix: string, raw: string)
    requires TrimSpace(raw) == ""
    ensures ParsePath(prefix + raw, prefix).None?
  {
    hide IndexAny, ToLower, TrimSpace;
    assert (prefix + raw)[|prefix|..] == raw;
  }

  lemma {:induction false} UnclosedPath(prefix: string, raw: string, path: string)
    requires Free(path, '>') && TrimSpace(raw) == "<" + path
    ensures ParsePath(prefix + raw, prefix).None?
  {
    hide IndexAny, ToLower, TrimSpace;
    var rest := "<" + path;
    assert (prefix + raw)[|prefix|..] == raw;
    assert forall k :: 0 <= k < |rest| ==> rest[k] == if k == 0 then '<' else path[k - 1];
  }

  lemma {:induction false} ClosedPath(prefix: string, raw: string, path: string, tail: string)
    requires Free(path, '>') && TrimSpace(raw) == "<" + (path + (">" + tail))
    ensures ParsePath(prefix + raw, prefix) == Some(ToLower(TrimSpace(path)))
  {
    hide IndexAny, ToLower, TrimSpace;
    var rest := "<" + (path + (">" + tail));
    assert (prefix + raw)[|prefix|..] == raw && (prefix + raw)[..|prefix|] == prefix;
    assert rest == ("<" + path) + ([">"[0]] + tail);
    IndexAnyAt(rest, "<" + path, '>', tail, {'>'});
    assert rest[1..|path| + 1] == path;
  }

  lemma {:induction false} BarePath(prefix: string, raw: string, path: string, tail: string)
    requires path != "" && path[0] != '<' && TrimSpace(raw) == path + tail
    requires forall k :: 0 <= k < |path| ==> path[k] != ' ' && path[k] != '\t'
    requires tail != "" ==> tail[0] == ' ' || tail[0] == '\t'
    ensures ParsePath(prefix + raw, prefix) == Some(ToLower(path))
  {
    hide IndexAny, ToLower, TrimSpace;
    var rest := path + tail;
    assert (prefix + raw)[|prefix|..] == raw && (prefix + raw)[..|prefix|] == prefix;
    assert rest[0] == path[0];
    if tail == "" {
      assert rest == path;
    } else {
      assert rest == path + ([tail[0]] + tail[1..]);
      IndexAnyAt(rest, path, tail[0], tail[1..], BLANKS);
    }
  }
}
