# smtpfilter, modelled and proved

A Dafny model of a small SMTP filter server. The server admits senders by rule, accepts
one recipient per message by route table, takes the body to the dot, always answers 250
past that point, hands the message to a disposition and retries temporary failures from an
in-memory queue. The model covers the retry queue as a concurrent protocol, the session
state machine, the three codecs that face each other on the wire, the admission decision
and the route table, and it ends with one theorem that runs the relay of one instance
against the session of another.

`dafny verify dfyconfig.toml` checks everything.

## How to read it

| file | content |
|---|---|
| Options, Text, Lines | a value that may be absent; string operations; reading LF-terminated lines from a byte stream |
| BodyCodec | `readBody` and `writeBody`: specification, loops, round trip, over-length lines, repeated relays, accepted bodies that cannot be relayed |
| CommandCodec | `readCommand`, `splitCommand`, `parsePath` against the printed MAIL and RCPT lines |
| ReplyCodec | `itoa`, `replyMulti` and `expect` |
| Mail, Config | messages, results and routes; key normalisation, route maps, their checks and the lookup |
| Policy | `Decide` as a first match over one table, FCrDNS, dot boundaries |
| Queue | the queue's data, swap-removal, and every lock region in place (class `Store`) |
| QueueProtocol | sessions, worker and Drain as one transition system: conservation, identity, reporting |
| QueueAttempts | one attempt at a time, none after a final result |
| QueueTiming | spacing and number of retries, a retry before expiry |
| QueueCounts | the attempt numbers reported, and what one pass does with the entries it copied |
| QueueDrain | the steps read off the runs: why Drain arms and stops, refusals, results, passes, progress |
| Session | one turn of the command loop on values |
| SessionTrace | which messages may reach the dispatcher, encryption, configuration, the table of replies |
| SessionWords | every command by its word on the wire, in either case |
| SessionReplies | the order of commands, replies and hand-overs |
| Connection | the session object changed step by step (class `Conn`), proved against Session |
| Forward | the relay's conversation (class `Client`) |
| EndToEnd | one instance relaying to another, as whole streams and in lock-step |

Code that changes state step by step is a class or a method with loops (`Store`, `Conn`,
`Client`, `Loader`, `ReadBody`, `WriteBody`, `Itoa`, `Expect`, `Decide`, ...). Each is
proved to compute a function of the old state, and the theorems are about those functions.
The queue's transition system uses the same functions that the methods of `Store` are
proved against, so every lock region is one atomic step. Between two steps any session may
arrive, end its first attempt or enqueue, the clock may advance by any amount and a
dispatcher may return anything.

What the environment answers is a parameter: the resolver, the handshake and the
dispatcher's result are in `World`, network containment is a function in `Network`, clock
readings are integers in nanoseconds, and a message pointer is an identity (`Ref`).

Every lemma switches automatic induction off, so that each induction is written out;
`hide` statements keep definitions that a proof does not need away from the solver.

## Where the code differs from its comments or documents

The model follows the code.

- A relayed body gains one CRLF. `writeBody` terminates every piece of the split body, the
  empty last one included (internal/dispatch/forward.go:138-153). `BodyCodec.RoundTripIff`
  says exactly which bodies arrive that way and `BodyCodec.RelaysAppend` counts the CRLFs.
- An over-length data line also swallows the line after it. `readLine` has already consumed
  the whole line (internal/server/session.go:247-263) when `discardLine` drops another one
  (internal/server/transaction.go:193). `BodyCodec.DotHeeded` says exactly when the dot
  is still seen, and `BodyCodec.DotNeverSeen` is a stream whose dot is not.
- A body can be accepted with a 250 and then never arrive at the next instance. The relay
  writes CRLF where a line came with a bare LF and doubles a leading dot that the sender did
  not double, so a line that just fits on the way in (internal/server/session.go:252) can be
  over-length on the way out (internal/dispatch/forward.go:139-148).
  `BodyCodec.ReturnedBodyRelays` gives the exact condition on the lines as they came in, and
  `BodyCodec.LinesThatAreLost` one line of each kind.
- MAIL closes the connection after every reply that leaves no transaction open, the 501 and
  the 503 for a missing greeting included, although the comment speaks of a refused sender
  only (internal/server/session.go:102-106): `SessionTrace.MailClosesUnlessOpen`.
- A fault in the reverse lookup does not by itself give the 451 that README.md:341 promises
  for a DNS deadline. It falls through to the whitelist
  (internal/policy/policy.go:143-146): `Policy.ReverseFaultDefersIff` gives the exact
  condition and `Policy.ReverseFaultCanRefuse` a sender that is refused with 550.
- Unstuffing fires on two leading dots only (internal/server/transaction.go:215), while
  section 4.5.2 of RFC 5321 deletes any leading dot of a longer line:
  `BodyCodec.UnstuffAgrees` gives the exact condition, which stuffed input always meets.
- An expiry longer than the interval, which is all that `Validate` asks for
  (internal/config/config.go:373-375), does not ensure a retry before expiry:
  `QueueTiming.RetriedBeforeExpiryIff` gives the exact condition.
- `itoa` prints the least int64 as a lone minus sign, because negating it leaves it negative
  (internal/server/session.go:305-325).

## Model

| member | source | states |
|---|---|---|
| BodyCodec.ReadBody | internal/server/transaction.go:180-232 | on every stream the loop returns what the specification on the list of lines gives (split at LF, cut at the effective dot, unstuff, rejoin with CRLF), stops exactly behind that dot, and its buffer never grows past the limit at any iteration |
| BodyCodec.ReadBodyIsSimple | internal/server/transaction.go:180-232 | with no over-length line up to the first lone dot, the stream is consumed exactly through that dot, the text is every line trimmed, unstuffed and terminated, and the message counts as oversize iff that full text exceeds the limit |
| BodyCodec.ReadBodyWithoutDot | internal/server/transaction.go:190-204 | a stream without a lone dot never yields a body |
| BodyCodec.DotHeeded | internal/server/transaction.go:190-204 | with over-length lines, the first lone dot ends the body iff an even number of over-length lines stand in a row just before it |
| BodyCodec.DotSwallowed | internal/server/transaction.go:190-204 | after an over-length line any dot line is dropped, and the answer is that to the rest of the stream with its body discarded as oversize |
| BodyCodec.DotNeverSeen | internal/server/transaction.go:190-204 | a concrete stream that ends with its dot line and is never answered, for every size limit |
| BodyCodec.LatchedByLongLine | internal/server/transaction.go:190-204 | oversize is latched iff some line consumed before the end was over-length, whatever the size of the rest |
| BodyCodec.ScanEndsAtDot | internal/server/transaction.go:206-212 | reading ends at a lone dot and nowhere else |
| BodyCodec.WriteBody | internal/dispatch/forward.go:138-153 | the loop emits every CRLF-separated piece, stuffed and terminated, and then the dot line |
| BodyCodec.TerminateSplit | internal/dispatch/forward.go:138-153 | terminating every piece of the split body gives the body and exactly one CRLF more, for every body |
| BodyCodec.RoundTrip | internal/dispatch/forward.go:138-153 | reading back what writeBody emits for a clean body stops exactly at its dot and gives the body and one CRLF, unless that exceeds the size limit, and then it is oversize |
| BodyCodec.RoundTripIff | internal/dispatch/forward.go:138-153 | for all bodies: the next instance reads the body and one CRLF iff no piece holds an LF or ends in CR, no stuffed line is over-length, and the longer body is within the limit |
| BodyCodec.LongPieceIsLost | internal/server/transaction.go:190-204 | a clean body with an over-length line is never read back as a body |
| BodyCodec.ReadBodyReturnsClean | internal/server/transaction.go:180-232 | no piece of a body that readBody returns holds an LF or ends in CR; that alone does not let a relay carry it |
| BodyCodec.FitsOnTheInput | internal/dispatch/forward.go:138-153 | the lines that a relay writes for an accepted body fit iff every line of it as it came in, its ending made CRLF and a single leading dot doubled, stays within the limit |
| BodyCodec.ReturnedBodyRelays | internal/dispatch/forward.go:138-153 | for every body that readBody returns: the next instance reads it and one CRLF iff no line grows over-length in that way and the longer body is within its size limit |
| BodyCodec.AcceptedAndLost | internal/dispatch/forward.go:138-153 | every line that fits and grows over-length makes a message that is accepted and that no next instance ever reads as a body |
| BodyCodec.LinesThatAreLost | internal/dispatch/forward.go:138-153 | two concrete such lines of exactly the permitted length, one ended by a bare LF and one starting with a single dot |
| BodyCodec.NeverUnchanged | internal/dispatch/forward.go:138-153 | no body whatever is read back unchanged from what writeBody emits for it |
| BodyCodec.RelaysAppend | internal/dispatch/forward.go:138-153 | n relays within the limits append exactly n CRLFs, for every n |
| BodyCodec.UnstuffAgrees | internal/server/transaction.go:214-217 | the unstuffing takes one dot off iff the line starts with two, agrees with section 4.5.2 of RFC 5321 iff the line is not a dot followed by another octet, and both undo the stuffing of every line |
| BodyCodec.OneLineBody | internal/server/transaction.go:190-231 | a line that does not start with two dots comes through as it is iff it has at most 65536 octets and the message is within the limit; one octet more discards the message and the line after it |
| CommandCodec.PathRoundTrip | internal/dispatch/forward.go:66-71 | for every path: the printed MAIL or RCPT line is read back by readCommand, splitCommand and parsePath as exactly that path iff it has no closing bracket, no LF, no outer white space and no upper case letter, and the line is within 512 octets |
| CommandCodec.BracketedIsPrintable | internal/server/transaction.go:251-267 | every path that parsePath takes from a bracketed argument satisfies that condition |
| CommandCodec.BracketedFits | internal/dispatch/forward.go:66-71 | printing a bracketed path takes no more octets than the command line it came in |
| CommandCodec.AcceptedPathRoundTrip | internal/dispatch/forward.go:66-71 | of the paths accepted from a command line, every bracketed one reaches the next server as it is, and an unbracketed one does iff it has no closing bracket, ends in no white space, and the two added brackets still fit the line |
| CommandCodec.ReadsPrinted | internal/server/transaction.go:251-273 | a printed path ends at its first closing bracket, whatever follows it |
| CommandCodec.CommandLine | internal/server/session.go:217-229 | a line of at most 512 octets with its CRLF is read as exactly one command and leaves the rest |
| CommandCodec.CommandLimits | internal/server/session.go:217-263 | every stream: a line ended by CRLF is a command iff it has at most 512 octets; a bare LF, and a stream that ends without LF, end the session; anything longer is reported as too long |
| CommandCodec.SplitVerb | internal/server/session.go:295-302 | a verb without blanks is separated from any trimmed argument, which keeps its case |
| CommandCodec.SplitTyped | internal/server/session.go:295-302 | leading spaces do not count, the word ends at the first space or tab and is put in upper case, and the trimmed rest is the argument |
| CommandCodec.ParseBracketed | internal/server/transaction.go:251-267 | a bracketed argument parses to its content, trimmed and in lower case |
| CommandCodec.PrefixInAnyCase | internal/server/transaction.go:251-255 | there is a path only behind the prefix, which may be given in any case |
| CommandCodec.PathAfterPrefix | internal/server/transaction.go:256-273 | behind the prefix: nothing and an unclosed bracket give no path, a bracketed path ends at its first closing bracket, an unbracketed one at the first space or tab, whatever parameters follow |
| Text.CaseFolds | internal/server/session.go:295-302 | two strings fold to the same upper and to the same lower case iff they differ in the case of letters only |
| Text.TrimsBothEnds | internal/server/transaction.go:256 | trimming takes off exactly the white space at both ends |
| Lines.SplitFlatten | internal/server/session.go:247-263 | reading a concatenation of lines gives those lines back, then the rest |
| Lines.FirstLine | internal/server/session.go:247-263 | for every limit the line at the head is returned iff it fits, and is consumed in full either way |
| ReplyCodec.PutDigits | internal/server/session.go:313-319 | the loop writes the decimal digits of every int64 from the end of the 20-octet buffer backwards and leaves room for a sign |
| ReplyCodec.Itoa | internal/server/session.go:305-325 | the decimal of every int64 but the least, within the 20-octet buffer; the least prints as a lone sign |
| ReplyCodec.DecimalRoundTrip | internal/dispatch/forward.go:118-121 | parsing a printed integer gives the integer back, for every integer |
| ReplyCodec.ReplyMulti | internal/server/session.go:276-290 | the loop writes one line per text, all but the last marked as continuation |
| ReplyCodec.ReplyOnTheWire | internal/server/session.go:276-290 | read back line by line, a reply has one line per text, in order, each with the code in front, a hyphen on all but the last, its text untouched and CRLF at the end |
| ReplyCodec.Expect | internal/dispatch/forward.go:108-134 | on every input the loop returns the verdict and the remainder of which the next row speaks |
| ReplyCodec.ExpectVerdict | internal/dispatch/forward.go:108-134 | on every input: OK iff the first line that is not a continuation is there in full with the wanted code in front, a permanent failure iff it is there with another code of 500 or more, a temporary failure in every other case, a stream that ends first and a short or malformed line included; exactly the input through that line is consumed |
| ReplyCodec.AtoiOfThree | internal/dispatch/forward.go:118-121 | three octets are a code iff they are three digits, or a sign and two |
| ReplyCodec.ExpectReadsReply | internal/dispatch/forward.go:108-134 | on the output of replyMulti for any nonempty list of LF-free lines and any three-digit code, expect consumes exactly that one reply and returns OK iff the code is the wanted one, else a permanent failure iff it is 500 or more |
| Policy.Contains | internal/policy/policy.go:203-210 | the early-return loop decides membership |
| Policy.SuffixMatch | internal/policy/policy.go:194-201 | true iff the name equals or lies under one of the suffixes at a dot |
| Policy.UnderIsLabelSuffix | internal/policy/policy.go:181-201 | the dot-boundary test holds iff the dot-separated labels of the suffix end the labels of the name, so it never matches inside a label |
| Policy.UnderIsOrder | internal/policy/policy.go:181-201 | the test is reflexive and transitive |
| Policy.FCrDNS | internal/policy/policy.go:142-160 | the name returned is the first one whose forward lookup holds the address, none if there is none or the reverse lookup fails, and the lookups made are those up to and including it |
| Policy.Decide | internal/policy/policy.go:75-137 | the three early-return loops compute the first match of one ordered table, networks before providers under the confirmed name before the whitelist, and make exactly the specified resolver calls |
| Policy.DecidedInOrder | internal/policy/policy.go:75-137 | a later table is consulted only when no row of an earlier one matches |
| Policy.Outcomes | internal/policy/policy.go:162-177 | admitted iff the first matching row skips SPF or SPF passes, deferred iff it requires SPF and SPF gives a temporary error |
| Policy.ResolverUse | internal/policy/policy.go:81-114 | a network match admits without any resolver call; otherwise the reverse lookup is made, first and once, iff there are providers; SPF is evaluated at most once, and last |
| Policy.NetworkAlone | internal/policy/policy.go:82-90 | a network on its own admits exactly the peers of its addresses whose sender has a listed domain, every sender if it lists none, and refuses the rest |
| Policy.WhitelistAlone | internal/policy/policy.go:117-129 | a whitelist entry on its own settles exactly its address, or the senders whose domain ends in its labels; SPF decides unless the entry says otherwise, and all others are refused |
| Policy.ProviderAlone | internal/policy/policy.go:93-114 | a provider on its own settles exactly the senders of its domains whose peer has a confirmed name that ends in the labels of one of its suffixes; SPF decides unless the entry says otherwise |
| Policy.ConfirmedNameIs | internal/policy/policy.go:142-160 | the confirmed name is that of the first reverse name whose forward lookup succeeds and holds the address, and there is none if no lookup does |
| Policy.LookupsMade | internal/policy/policy.go:142-160 | the reverse lookup comes first, then one forward lookup for each name up to and including the first that is confirmed |
| Policy.SenderIsFolded | internal/policy/policy.go:78-79 | white space around a sender and the case of its letters do not matter |
| Policy.SPFUse | internal/policy/policy.go:103-129 | SPF is evaluated iff the first matching row requires it |
| Policy.NetworksDecide | internal/policy/policy.go:81-90 | a matching network admits, and without one the decision is that of the same rules without networks |
| Policy.AddingNetworkKeepsAdmission | internal/policy/policy.go:81-90 | a network added anywhere in the list never turns an admission into a refusal |
| Policy.ReverseFaultFallsThrough | internal/policy/policy.go:143-146 | a fault in the reverse lookup gives the decision of the same rules without providers |
| Policy.ReverseFaultDefersIff | internal/policy/policy.go:143-146 | under such a fault the answer is 451 iff no network matches and the first matching whitelist entry requires SPF and that fails temporarily |
| Policy.ReverseFaultCanRefuse | internal/policy/policy.go:143-146 | for every address, every sender and every name that the reverse lookup gives there are rules, a provider listed under that name for that sender, with which a healthy resolver admits and the same resolver without its reverse lookup refuses for good |
| Policy.DomainFollowsLastAt | internal/policy/policy.go:63-71 | the domain of an address is what follows its last at sign, in lower case, and empty without one |
| Policy.HostNameIgnoresDotAndCase | internal/policy/policy.go:147-148 | a reverse name means the host of that name in lower case, with or without its final dot |
| Policy.MatchNetwork | internal/policy/policy.go:82-88 | a network row matches iff it parsed, holds the address and lists no domains or the sender's |
| Policy.MatchProvider | internal/policy/policy.go:96-102 | a provider row matches iff the confirmed name lies under one of its suffixes and the sender's domain is listed |
| Config.Loader.Prepare | internal/config/config.go:275-318 | the in-place rewriting leaves the prepared configuration, of which the lemmas below speak |
| Config.Loader.PrepareRoutes | internal/config/config.go:302-316 | the loop normalises every route in place, and both maps agree with the normalised list |
| Config.Loader.PrepareRules | internal/config/config.go:278-300 | the three loops put every comparison key in normal form and change nothing else |
| Config.PreparedKeysAreLower | internal/config/config.go:278-300 | after Prepare every key that Decide compares is in lower case |
| Config.WrittenAddress | internal/config/config.go:298-300 | a whitelisted address as written in the file settles exactly the sender that differs from it in case only |
| Config.WrittenDomain | internal/config/config.go:298-300 | a whitelisted domain, in whatever case, settles exactly the senders whose domain ends in its labels |
| Config.WrittenNetwork | internal/config/config.go:278-286 | a network with its domains in whatever case admits exactly its peers with a listed domain, or with any if none is listed |
| Config.WrittenProvider | internal/config/config.go:288-296 | a provider as written, domains and suffixes in whatever case and suffixes with or without a leading dot |
| Config.WrittenRest | internal/config/config.go:275-316 | the host name is trimmed and in lower case, the size limit is the one written, every route keeps its kind and time limit, and a missing match type means address |
| Config.LastRouteWins | internal/config/config.go:310-315 | of several routes with one match type and recipient the maps hold the last |
| Config.ValidateRoutes | internal/config/config.go:414-456 | the loop with its seen map reports exactly the specified faults, in order; a duplicate is reported iff an earlier route has the same match type and recipient |
| Config.FaultFreeIsDistinct | internal/config/config.go:417-429 | without faults no two routes share match type and recipient, and no recipient is empty |
| Config.FaultFreeIff | internal/config/config.go:414-456 | the routes pass iff there is one, every route has a recipient, a positive time limit and a sound target for its kind, and no two share match type and recipient |
| Config.ValidRetryIff | internal/config/config.go:369-382 | the retry section passes iff it is switched off, or the interval is positive, the expiry longer, and both limits positive |
| Config.TableLists | internal/config/config.go:302-316 | a key is in a map iff the list has a route for it, and the map then holds one such route |
| Config.LookupAgreesWithScan | internal/config/config.go:463-476 | for a validated configuration the lookup finds a route iff the list has it for the address, or else for the domain after the last at sign, and then it is the only one |
| Config.LookupIgnoresOrder | internal/config/config.go:463-476 | validated configurations with the same routes in any order find the same route for every address |
| Config.EmptyPathHasNoRoute | internal/config/config.go:463-476 | the empty path never has a route |
| Config.AddressRouteIsFound | internal/config/config.go:302-316 | a route listed for an address, in whatever case, is the one found for that address in every case |
| Config.DomainRouteIsFound | internal/config/config.go:463-476 | a route listed for a domain, in whatever case, is the one found for every address of that domain without a route of its own |
| Config.LookupIgnoresCase | internal/config/config.go:463-476 | addresses that differ in case only have the same route |
| Queue.Store.constructor | internal/queue/queue.go:41-49 | the queue starts empty with a byte count of zero |
| Queue.Store.Dispatch | internal/queue/queue.go:56-68 | a result other than a temporary failure is passed on and nothing is held; after a temporary failure Queued is reported iff exactly one more entry is held |
| Queue.Store.Enqueue | internal/queue/queue.go:73-103 | from a state within both limits the message is held iff one entry more and its bytes stay within them, as the last entry, due one interval later; otherwise it is refused with its log entry and nothing held changes |
| Queue.Store.Remove | internal/queue/queue.go:212-218 | the swap-removal in place and the byte count |
| Queue.SwapRemoveContents | internal/queue/queue.go:212-218 | as a multiset exactly the chosen element leaves |
| Queue.Store.IndexOf | internal/queue/queue.go:193-200 | the first position with that identity, or -1 iff there is none |
| Queue.Store.ExpireStale | internal/queue/queue.go:141-150 | the backward loop with swap-removal leaves the entries, the byte count and the log that the sweep specifies |
| Queue.Store.BeginPass | internal/queue/queue.go:136-159 | the first lock region: the sweep, then the copies of what is due; the byte count and both limits are kept |
| Queue.DueInOrder | internal/queue/queue.go:152-158 | the copies are those of the due entries, each exactly when its time has come, in list order |
| Queue.SweepSplits | internal/queue/queue.go:141-150 | the backward pass keeps exactly the entries of age at most the expiry, nothing is lost or duplicated as a multiset or in bytes, and the expired ones come out in backward order, each original position examined once with its original entry |
| Queue.Store.Record | internal/queue/queue.go:167-188 | the second lock region: a final result removes the entry found by identity, any other reschedules it; the byte count and both limits are kept |
| Queue.Store.Arm | internal/queue/queue.go:239-243 | the loop makes every entry due and changes nothing else |
| Queue.Store.Abandon | internal/queue/queue.go:247-254 | the loop reports every held entry once as lost, in order, and removes none |
| QueueProtocol.StepKeepsInv | internal/queue/queue.go:73-255 | every lock region and every step between them keeps the invariant of the next row |
| QueueProtocol.RunKeepsInv | internal/queue/queue.go:73-255 | in every interleaving of sessions, worker and Drain each message that ever arrived is in exactly one place, exactly once: in its first attempt, on its way in, held by one entry, or closed by one event; the byte counter is the sum of the held lengths and both limits hold |
| QueueProtocol.ResultFindsItsEntry | internal/queue/queue.go:161-173 | in every reachable state a message copied for the pass and not yet recorded has exactly one entry, with that very message, however many appends and removals came in between, so the branch for a missing entry is never taken |
| QueueProtocol.QueuedIsHeldOrRetired | internal/queue/queue.go:73-218 | over every run a message enters at most once, and it has entered iff it is held once or exactly one event delivered, expired or failed it; nothing leaves without its event |
| QueueProtocol.HeldAtShutdownIsReported | internal/queue/queue.go:247-254 | over every run what is held at Drain's final lock is reported lost exactly once, nothing is reported before it, and what is held afterwards is that and what was enqueued since |
| QueueProtocol.DrainTriesAll | internal/queue/queue.go:238-245 | whatever sessions do meanwhile, every message held when Drain arms the entries is copied for an attempt by the pass that follows, or has expired |
| QueueAttempts.RunKeepsAttempts | internal/queue/queue.go:56-255 | in every reachable state the attempts begun and not ended on a message are its inline attempt and the one in the tick's hands, and a settled message is in nobody's hands |
| QueueAttempts.NoAttemptAfterFinal | internal/queue/queue.go:161-189 | over every run, after an attempt returned OK or a permanent failure, inline, by the worker or by Drain, the message is never attempted again |
| QueueAttempts.AttemptsDoNotOverlap | internal/queue/queue.go:161-189 | over every run, between the starts of two attempts on one message the first one has ended, without a final result |
| QueueTiming.RunKeepsTime | internal/queue/queue.go:92-189 | in every reachable state the timing invariant holds of every entry until Drain takes over, and of every message |
| QueueTiming.EntriesWait | internal/queue/queue.go:92-97 | until Drain takes over, every entry's next try is at least one interval per attempt made, plus one, after its acceptance |
| QueueTiming.RetriesBounded | internal/queue/queue.go:135-189 | over every run the worker attempts a message at most expiry divided by interval times |
| QueueTiming.RetriesWait | internal/queue/queue.go:184-187 | over every run the worker starts an attempt no sooner than one interval after any earlier attempt on that message ended, the inline one included |
| QueueTiming.RetriedBeforeExpiry | internal/queue/queue.go:136-157 | over every run, Drain included: with passes at most an interval apart and an expiry of at least two intervals, no entry expires untried |
| QueueTiming.UntriedRun | internal/config/config.go:373-375 | for every validated configuration with a shorter expiry there is a concrete run with regular passes in which a message expires untried before Drain begins |
| QueueTiming.RetriedBeforeExpiryIff | internal/config/config.go:369-382 | for validated configurations: over all runs with regular passes, Drain included, every message is retried before it expires iff the expiry is at least two intervals |
| QueueCounts.RunKeepsCounts | internal/queue/queue.go:73-255 | in every reachable state the counter of every held entry is the number of retries begun on its message, but for the one in hand |
| QueueCounts.ReportedAttemptsAreTrue | internal/queue/queue.go:146-187 | over every run, Drain included, the number of attempts reported when a message is delivered, failed, expired or lost is the number of retries begun on it before |
| QueueCounts.PassAttemptsAll | internal/queue/queue.go:161-189 | when a pass of the worker or of Drain is over, every message that it copied has been attempted by it |
| QueueCounts.DrainAttemptsAll | internal/queue/queue.go:238-245 | whatever sessions do meanwhile, every message held when Drain arms the entries has been attempted when the pass that follows is over, or has expired |
| QueueDrain.WhyDrainStops | internal/queue/queue.go:237-238 | over every run the final lock is taken only if the last check of the loop saw no entries, or read the clock at or past the reading at the worker's exit plus the limit |
| QueueDrain.WhyDrainArms | internal/queue/queue.go:237-243 | over every run the entries are made due only after the clock was read before that deadline |
| QueueDrain.HeldBeforeDeadlineIsTried | internal/queue/queue.go:237-255 | when Drain reads the clock before its deadline, every message held then has been attempted or has expired by the time of the final lock |
| QueueDrain.RefusedOnlyWhenFull | internal/queue/queue.go:79-98 | over every run a message on its way in is held iff one entry more and its bytes stay within both limits, as the last entry, untried and due one interval from now; otherwise it is refused and nothing held changes |
| QueueDrain.ResultSettles | internal/queue/queue.go:167-188 | over every run a recorded OK removes its message's entry and reports it delivered, a permanent failure removes and reports it failed, any other result leaves it one attempt older and due one interval from now; every other entry stays as it is |
| QueueDrain.PassTakes | internal/queue/queue.go:136-158 | over every run a pass removes and reports exactly the entries whose age at its clock reading exceeds the expiry, and copies exactly those of the others whose next try had come |
| QueueDrain.PassKeepsItsClock | internal/queue/queue.go:136-138 | a pass uses the clock reading of its start, whatever happens before it gets the lock |
| QueueDrain.AttemptsInOrder | internal/queue/queue.go:161-165 | over every run the next attempt is on the first message of the pass still to be tried, and the others keep their turn |
| QueueDrain.SomeoneCanMove | internal/queue/queue.go:115-255 | in every reachable state of an enabled queue until Drain is done, the worker or Drain can take a step, Drain can begin while the worker runs, and sessions can always arrive, end an attempt and enter |
| SessionTrace.TurnKeeps | internal/server/session.go:80-131 | every turn of the loop keeps: no transaction means no sender, recipient or route; a route is set iff a recipient is; the fields are exactly what the history of events says; that history is lawful; and encryption is what the listener and the upgrades on the history make it |
| SessionTrace.ConnectKeeps | internal/server/session.go:54-77 | every new session starts in that invariant |
| SessionTrace.SessionKeepsItsConfig | internal/server/session.go:57-70 | however reloads are interleaved, a session lives under the configuration that was current when it was accepted, and keeps the invariant |
| SessionTrace.LastReloadCounts | internal/server/server.go:52-54 | the current configuration is that of the last reload |
| SessionTrace.TurnFrame | internal/server/session.go:80-131 | no turn changes configuration, peer or mode, and none takes encryption away |
| SessionTrace.TurnsKeep | internal/server/session.go:80-131 | the invariant and the frame hold over every run of turns |
| SessionTrace.HandedWasAdmitted | internal/server/transaction.go:20-163 | every message handed to the dispatcher has a sender that Decide admitted for this peer and a recipient and route accepted by the one RCPT that succeeded since, after a greeting, with no greeting, RSET, upgrade or completed DATA in between, and with every upgrade before that greeting |
| SessionTrace.DispatchedUnderItsConfig | internal/server/server.go:52-54 | over every run of the server with reloads, for every message handed over: the greeting, the admission by the rules and the recipient by the routes that were current when the session was accepted, in this order, with nothing in between that ends a transaction, and every upgrade before the greeting |
| SessionTrace.Origins | internal/server/transaction.go:20-163 | in every lawful history the open transaction has one admission and at most one recipient after it, unbroken since |
| SessionTrace.EncryptionIsForGood | internal/server/session.go:182-203 | over every run of a session it is encrypted iff its listener encrypts from the first byte or it has been upgraded; it is upgraded at most once and only on a STARTTLS listener; and once encrypted it stays so |
| SessionTrace.UpgradeStartsAfresh | internal/server/session.go:189-203 | a turn that upgrades leaves a session just connected, encrypted, that reads only the secure channel; nothing sent in the clear is left |
| SessionTrace.TlsOfferedIffAccepted | internal/server/session.go:133-187 | EHLO advertises STARTTLS iff a STARTTLS that follows is accepted |
| SessionTrace.MailClosesUnlessOpen | internal/server/session.go:100-106 | after MAIL the connection stays open iff a transaction is open, that is iff one was open already or Decide has just admitted the path |
| SessionTrace.MailReplyTable | internal/server/transaction.go:40-61 | the reply to a well-formed MAIL is 250 iff the first matching rule skips SPF or SPF passes, 451 iff it requires SPF with a temporary error, else 550, and only 250 leaves the connection open |
| SessionTrace.RcptReplyTable | internal/server/transaction.go:70-100 | RCPT is answered with one of 503, 452, 501, 550 and 250, each iff its exact condition on the transaction and the route list holds; 250 sets the path and the route that the list gives for it; only 550 closes |
| SessionWords.RsetTurn | internal/server/session.go:115-117 | a line RSET, in any case and with anything behind it, leaves no transaction, keeps the greeting and everything else, and sends 250 |
| SessionWords.NoopTurn | internal/server/session.go:118-119 | NOOP changes nothing and sends 250 |
| SessionWords.QuitTurn | internal/server/session.go:120-122 | QUIT sends 221 and ends the session |
| SessionWords.UnimplementedTurn | internal/server/session.go:123-124 | AUTH, VRFY, EXPN, ETRN and HELP change nothing and send 502 |
| SessionWords.UnknownTurn | internal/server/session.go:127-128 | a word that is none of these fourteen changes nothing and sends 500 |
| SessionWords.EmptyTurn | internal/server/session.go:125-126 | an empty line, or one of spaces, changes nothing and sends 500 |
| SessionWords.HeloTurn | internal/server/session.go:156-164 | HELO without a domain gets 501; with one it greets, drops the transaction and gets the host name |
| SessionWords.EhloTurn | internal/server/session.go:135-153 | EHLO likewise, with the extensions; STARTTLS is among them iff the listener and the server have it and the session is not encrypted |
| SessionWords.GreetingLines | internal/server/session.go:143-151 | the greeting names the host, gives the size limit as a number that reads back as the limit, and lists exactly the extensions |
| SessionWords.HostNameComesFirst | internal/server/session.go:75-121 | the banner, both greetings and the farewell start with the host name |
| SessionWords.StartTlsTurn | internal/server/session.go:173-204 | STARTTLS: which of 501, 502, 503 and 220, and after the 220 the state just after connection on the secure channel, or the end |
| SessionWords.MailTurnIs | internal/server/transaction.go:20-62 | MAIL read from the wire: its guards in order, the decision on that path for this peer, and the end of the session after whatever leaves no transaction open |
| SessionWords.RcptTurnIs | internal/server/transaction.go:70-100 | RCPT read from the wire: its guards in order, then path and route together or the end |
| SessionWords.DataTurnIs | internal/server/transaction.go:104-163 | DATA read from the wire: its guards, then the body within the configured size: a body that does not end closes without a reply, one too large is discarded behind a 250, any other is handed over as it is with the open envelope, behind a 250 |
| SessionWords.UnreadableTurn | internal/server/session.go:82-88 | a bare LF and the end of the stream end the session without a reply, a line of more than 512 octets with a 500 |
| SessionReplies.TurnReplies | internal/server/session.go:80-131 | every turn follows the reply protocol: one reply per command, 354 leads to a body, a complete body within the limit leads to one call of the dispatcher, and after the dot only 250 |
| SessionReplies.SessionIsOrderly | internal/server/session.go:54-131 | every session follows that protocol from its banner on, whatever the peer, the resolver, the handshake and the dispatcher do |
| SessionReplies.Balance | internal/server/transaction.go:104-170 | in every orderly history the replies are one banner, one per command and one per completed body, and the dispatcher is called once per body within the limit and never otherwise |
| SessionReplies.OnlyOkayAfterTheDot | internal/server/transaction.go:121-170 | a body follows a 354, and the next thing sent after its dot is 250, whatever the dispatcher returned, with nothing read before it |
| Connection.Conn.constructor | internal/server/session.go:62-75 | a new session object has sent its banner and is the initial state |
| Connection.Conn.Reply | internal/server/session.go:266-290 | the bytes written are always the concatenation of the replies on the trace, in order |
| Connection.Conn.Reset | internal/server/session.go:208-213 | clears the transaction and nothing else |
| Connection.Conn.HandleEHLO | internal/server/session.go:135-153 | the object's step is the specified one and keeps output and trace together |
| Connection.Conn.HandleHELO | internal/server/session.go:156-164 | the object's step is the specified one and keeps output and trace together |
| Connection.Conn.HandleSTARTTLS | internal/server/session.go:173-204 | each of the four answers by its condition, and on success the state just after connection |
| Connection.Conn.HandleMail | internal/server/transaction.go:20-62 | the guards in order, then the decision that the loops of Decide compute |
| Connection.Conn.HandleRcpt | internal/server/transaction.go:70-100 | the guards in order, then recipient and route set together, or the end of the session |
| Connection.Conn.HandleData | internal/server/transaction.go:104-163 | the guards in order, then the body that the loop of readBody reads |
| Connection.Conn.Receive | internal/server/transaction.go:116-163 | past the commit point: hand-over of exactly the open transaction, or discarding as oversize, and one 250; or the end without a reply |
| Connection.Conn.Conclude | internal/server/transaction.go:167-170 | the transaction is cleared and 250 is sent |
| Connection.Conn.Dispatch | internal/server/session.go:90-129 | the object obeys every verb as specified |
| Connection.Conn.Serve | internal/server/session.go:81-130 | one iteration of the loop on the object is one turn of the specified session |
| Connection.Conn.Loop | internal/server/session.go:80-131 | the whole loop is the run of turns that the session theorems speak of |
| Forward.Client.constructor | internal/dispatch/forward.go:48-52 | nothing is written before the banner |
| Forward.Client.AwaitReply | internal/dispatch/forward.go:108-134 | one reply is consumed and judged |
| Forward.Client.Command | internal/dispatch/forward.go:95-103 | the line is written with its CRLF before its reply is read |
| Forward.Client.Dispatch | internal/dispatch/forward.go:33-85 | the conversation is the specified one; a failed dial writes nothing and is temporary |
| Forward.RelayFollowsScript | internal/dispatch/forward.go:54-84 | whatever the target replies, what the relay has written is a prefix of its script (EHLO, at most one HELO, MAIL, RCPT, DATA, body, QUIT), and it is the whole script iff success is reported |
| Forward.RelayVerdict | internal/dispatch/forward.go:54-84 | whatever well-formed replies the target sends before it falls silent: success iff each step gets its code, HELO standing in for a refused EHLO; otherwise a permanent failure iff the first refusing reply is 500 or more, and a temporary one if it is less or missing; and exactly the pieces of the script up to that refusal have been written |
| Forward.RefusalIs | internal/dispatch/forward.go:54-84 | every reply before the refusal is there with the code wanted, and the refusing one, if it is there, has another code |
| EndToEnd.ServerSide | internal/server/session.go:80-131 | a session fed the first k of the six pieces of a delivery has sent its banner and one reply for each of them, in order, and nothing else; after all six it has read everything, handed over the envelope with the body and one CRLF more, and closed |
| EndToEnd.StepHelo | internal/dispatch/forward.go:59-64 | the HELO that the relay falls back to greets a session just as well |
| EndToEnd.ClientSide | internal/dispatch/forward.go:54-84 | the relay, given the first n replies and then silence, has written the first n pieces; given all seven it has consumed every reply, written nothing more and reports success |
| EndToEnd.WireOfDelivery | internal/server/session.go:266-290 | after the first k pieces the bytes on the wire are exactly the first k + 1 replies |
| EndToEnd.NeitherSideWaits | internal/dispatch/forward.go:54-84 | in lock-step, for every k: once the session has read the first k pieces, the relay, having read only what the session has written by then, has written the next piece |
| EndToEnd.RelayDelivers | internal/dispatch/forward.go:33-85 | one instance relaying to another that admits the sender and has a route: the relay reports success having written exactly what the session read, the session hands its dispatcher the same sender and recipient, under its own route, and the same body with one CRLF more, and it has read everything and closed |

## Left out

- Sockets, `bufio`, write errors and deadlines: input is a byte sequence and output a trace; a timeout looks like a stream that ends early.
- TLS: a handshake either fails or yields the bytes of the secure channel.
- Octets are characters; case folding and white space are those of ASCII, so the Unicode cases of the Go string functions are not covered.
- Integer widths other than in `itoa`: the attempt counter (int32), the running totals in `readBody` and the queue (int64) and `time.Duration` do not overflow here, and neither does a reply code while `expect` parses it.
- `internal/policy/resolver.go`: the resolver is an oracle. Forward lookups may answer differently each time; a decision makes at most one reverse lookup and one SPF evaluation.
- The `Reason` text of a decision, and log text in general; a log entry is kept only where it marks the fate of a message.
- `internal/dispatch/webhook.go`, `internal/dispatch/command.go` and `internal/dispatch/dispatch.go`: foreign calls and one-switch routing. A disposition may return any result.
- The accept loop and the connection semaphore of `internal/server/server.go`; `Reload` is one interleaved step, and one session is followed at a time.
- JSON decoding, CIDR parsing and the listener, TLS, limit, provider and whitelist checks of `Validate`; the route and retry checks are modelled.
- The ticker and the goroutine of `Start` and `run`: a worker pass may begin at any time; where its period matters it is a hypothesis on the history (`Regular`). That `Drain` waits for the worker and runs once is part of the transition system; signal handling in `cmd/smtpfilter/main.go` is not.
- The zeroing of the vacated slot in `remove`, which only matters to the garbage collector: `entries` is a sequence, so the backing array is not visible.
- The size and timing fields of `Limits` other than the message size.
- The wording of replies after the code, other than the lines of EHLO and the host names: `Session.Wording` has the texts, and nothing is stated of them beyond that.
- EndToEnd.RelayDelivers: follows the greeting by EHLO only; a target that refuses EHLO and accepts HELO is covered by `Forward.RelayFollowsScript`.
