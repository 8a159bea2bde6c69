/** The sender admission decision (internal/policy/policy.go). */
module Policy {
  import opened Text
  import opened Options
  import opened Mail

  type IP = string

  datatype SPF = Pass | Fail | SoftFail | Neutral | NoRecord | TempError | PermError | Skipped | NotEvaluated

  datatype Outcome = Admit | RejectPermanent | RejectTemporary

  /** `contains` is the parsed network, absent when the CIDR did not parse. */
  datatype Network = Network(contains: Option<IP -> bool>, domains: seq<string>)

  datatype Provider = Provider(name: string, ptrSuffixes: seq<string>, domains: seq<string>, requireSPF: Option<bool>)

  datatype WhitelistEntry = WhitelistEntry(match_: MatchType, value: string, requireSPF: Option<bool>)

  /** The three tables that Decide consults. */
  datatype Rules = Rules(networks: seq<Network>, providers: seq<Provider>, whitelist: seq<WhitelistEntry>)

  /** The answers of the resolver during one decision; None is a fault. The number
      given to `lookupIP` counts the forward lookups already made, so that two
      lookups of one name may be answered differently. */
  datatype Resolver = Resolver(
    lookupAddr: IP -> Option<seq<string>>,
    lookupIP: (nat, string) -> Option<seq<IP>>,
    checkSPF: (IP, string, string) -> SPF)

  datatype Call = Reverse(ip: IP) | Forward(host: string) | CheckSPF(ip: IP, domain: string, sender: string)

  datatype Decision = Decision(outcome: Outcome, rule: string, spf: SPF, ptrName: string)

  /** Whether SPF must be evaluated; the default is true. */
  predicate SPFRequired(flag: Option<bool>) {
    flag.None? || flag.value
  }

  function DomainOf(addr: string): string {
    var at := LastIndex(addr, '@');
    if at < 0 then "" else ToLower(addr[at + 1..])
  }

  function MapSPF(res: SPF, rule: string, ptrName: string): Decision {
    Decision(if res.Pass? then Admit else if res.TempError? then RejectTemporary else RejectPermanent,
             rule, res, ptrName)
  }

  // ---- Matching ----

  /** `name` is `s` or lies under it at a dot. */
  predicate Under(name: string, s: string) {
    name == s || HasSuffix(name, "." + s)
  }

  predicate WhitelistMatch(w: WhitelistEntry, sender: string, domain: string) {
    match w.match_
    case Address => sender == w.value
    case Domain => Under(domain, w.value)
    case Unset => false
  }

  predicate NetworkMatch(e: Network, ip: IP, domain: string) {
    e.contains.Some? && e.contains.value(ip) && (e.domains == [] || domain in e.domains)
  }

  predicate ProviderMatch(p: Provider, name: string, domain: string) {
    (exists i :: 0 <= i < |p.ptrSuffixes| && Under(name, p.ptrSuffixes[i])) && domain in p.domains
  }

  method Contains(list: seq<string>, v: string) returns (found: bool)
    ensures found == (v in list)
  {
    for i := 0 to |list|
      invariant v !in list[..i]
    {
      if list[i] == v {
        return true;
      }
    }
    return false;
  }

  method SuffixMatch(name: string, suffixes: seq<string>) returns (found: bool)
    ensures found == exists i :: 0 <= i < |suffixes| && Under(name, suffixes[i])
  {
    for i := 0 to |suffixes|
      invariant forall k :: 0 <= k < i ==> !Under(name, suffixes[k])
    {
      if Under(name, suffixes[i]) {
        return true;
      }
    }
    return false;
  }

  // ---- Forward-confirmed reverse DNS ----

  function HostName(ptr: string): string {
    ToLower(if HasSuffix(ptr, ".") then ptr[..|ptr| - 1] else ptr)
  }

  predicate Confirms(r: Resolver, ip: IP, names: seq<string>, k: nat)
    requires k < |names|
  {
    var addrs := r.lookupIP(k, HostName(names[k]));
    addrs.Some? && ip in addrs.value
  }

  /** The names that the reverse lookup gives; none on a fault. */
  function PtrNames(r: Resolver, ip: IP): seq<string> {
    match r.lookupAddr(ip)
    case Some(names) => names
    case None => []
  }

  /** The index of the first confirmed name from `k` on, or the number of names. */
  function FirstConfirmed(r: Resolver, ip: IP, names: seq<string>, k: nat): (i: nat)
    requires k <= |names|
    ensures k <= i <= |names|
    ensures forall j :: k <= j < i ==> !Confirms(r, ip, names, j)
    ensures i < |names| ==> Confirms(r, ip, names, i)
    decreases |names| - k
  {
    if k == |names| || Confirms(r, ip, names, k) then k else FirstConfirmed(r, ip, names, k + 1)
  }

  function ConfirmedName(r: Resolver, ip: IP): Option<string> {
    var names := PtrNames(r, ip);
    var i := FirstConfirmed(r, ip, names, 0);
    if i < |names| then Some(HostName(names[i])) else None
  }

  function Lookups(names: seq<string>, n: nat): seq<Call>
    requires n <= |names|
  {
    seq(n, i requires 0 <= i < n => Forward(HostName(names[i])))
  }

  /** The calls of FCrDNS: one reverse lookup, then forward lookups in order, up to
      and including the first that confirms. */
  function ConfirmCalls(r: Resolver, ip: IP): seq<Call> {
    var names := PtrNames(r, ip);
    var i := FirstConfirmed(r, ip, names, 0);
    [Reverse(ip)] + Lookups(names, if i < |names| then i + 1 else i)
  }

  method FCrDNS(r: Resolver, ip: IP) returns (name: Option<string>, calls: seq<Call>)
    ensures name == ConfirmedName(r, ip)
    ensures calls == ConfirmCalls(r, ip)
  {
    hide HostName;
    calls := [Reverse(ip)];
    var answer := r.lookupAddr(ip);
    if answer.None? || answer.value == [] {
      return None, calls;
    }
    var names := answer.value;
    for k := 0 to |names|
      invariant calls == [Reverse(ip)] + Lookups(names, k)
      invariant FirstConfirmed(r, ip, names, 0) == FirstConfirmed(r, ip, names, k)
    {
      var n := HostName(names[k]);
      calls := calls + [Forward(n)];
      assert calls == [Reverse(ip)] + Lookups(names, k + 1);
      var addrs := r.lookupIP(k, n);
      if addrs.Some? {
        for j := 0 to |addrs.value|
          invariant ip !in addrs.value[..j]
        {
          if addrs.value[j] == ip {
            return Some(n), calls;
          }
        }
      }
    }
    return None, calls;
  }

  // ---- The decision as one ordered table ----

  /** One row of the combined table. */
  datatype Row = Row(matches: bool, needsSPF: bool, rule: string, ptrName: string)

  function NetworkRows(nets: seq<Network>, ip: IP, domain: string): (rows: seq<Row>)
    ensures |rows| == |nets|
  {
    seq(|nets|, i requires 0 <= i < |nets| => Row(NetworkMatch(nets[i], ip, domain), false, "cidr", ""))
  }

  function ProviderRows(ps: seq<Provider>, name: Option<string>, domain: string): (rows: seq<Row>)
    ensures |rows| == |ps|
  {
    seq(|ps|, i requires 0 <= i < |ps| =>
      match name
      case Some(n) => Row(ProviderMatch(ps[i], n, domain), SPFRequired(ps[i].requireSPF), "provider:" + ps[i].name, n)
      case None => Row(false, false, "", ""))
  }

  function WhitelistRows(ws: seq<WhitelistEntry>, sender: string, domain: string): (rows: seq<Row>)
    ensures |rows| == |ws|
  {
    seq(|ws|, i requires 0 <= i < |ws| =>
      Row(WhitelistMatch(ws[i], sender, domain), SPFRequired(ws[i].requireSPF), "whitelist:" + ws[i].value, ""))
  }

  function SenderOf(path: string): string {
    ToLower(TrimSpace(path))
  }

  /** Networks, then providers under the confirmed name, then the whitelist. */
  function Table(r: Resolver, rules: Rules, ip: IP, path: string): seq<Row> {
    var sender := SenderOf(path);
    var domain := DomainOf(sender);
    NetworkRows(rules.networks, ip, domain)
    + ProviderRows(rules.providers, ConfirmedName(r, ip), domain)
    + WhitelistRows(rules.whitelist, sender, domain)
  }

  /** The first matching row. */
  function FirstMatch(rows: seq<Row>): (hit: Option<Row>)
    ensures hit.None? <==> forall i :: 0 <= i < |rows| ==> !rows[i].matches
    ensures hit.Some? ==> exists i :: 0 <= i < |rows| && rows[i].matches && hit.value == rows[i]
                                      && forall k :: 0 <= k < i ==> !rows[k].matches
  {
    if rows == [] then None
    else if rows[0].matches then Some(rows[0])
    else
      var h := FirstMatch(rows[1..]);
      assert h.Some? ==> exists i :: 0 <= i < |rows[1..]| && rows[1..][i].matches && h.value == rows[1..][i]
                                      && forall k :: 0 <= k < i ==> !rows[1..][k].matches;
      assert forall i :: 0 < i < |rows| ==> rows[i] == rows[1..][i - 1];
      h
  }

  function Judge(hit: Option<Row>, r: Resolver, ip: IP, sender: string): Decision {
    match hit
    case None => Decision(RejectPermanent, "default", NotEvaluated, "")
    case Some(row) =>
      if row.needsSPF then MapSPF(r.checkSPF(ip, DomainOf(sender), sender), row.rule, row.ptrName)
      else Decision(Admit, row.rule, Skipped, row.ptrName)
  }

  function Decided(r: Resolver, rules: Rules, ip: IP, path: string): Decision {
    Judge(FirstMatch(Table(r, rules, ip, path)), r, ip, SenderOf(path))
  }

  function SPFCalls(hit: Option<Row>, ip: IP, sender: string): seq<Call> {
    if hit.Some? && hit.value.needsSPF then [CheckSPF(ip, DomainOf(sender), sender)] else []
  }

  function DecideCalls(r: Resolver, rules: Rules, ip: IP, path: string): seq<Call> {
    var sender := SenderOf(path);
    var hit := FirstMatch(Table(r, rules, ip, path));
    if FirstMatch(NetworkRows(rules.networks, ip, DomainOf(sender))).Some? then []
    else (if rules.providers != [] then ConfirmCalls(r, ip) else []) + SPFCalls(hit, ip, sender)
  }

  /** The three early-return loops of Decide compute the first match of the one table. */
  method Decide(r: Resolver, rules: Rules, ip: IP, path: string) returns (d: Decision, calls: seq<Call>)
    ensures d == Decided(r, rules, ip, path)
    ensures calls == DecideCalls(r, rules, ip, path)
  {
    hide SenderOf, DomainOf, ConfirmedName, ConfirmCalls, WhitelistMatch, FirstMatch, NetworkMatch, ProviderMatch,
      NetworkRows, ProviderRows, WhitelistRows, Decided, DecideCalls, SPFRequired, MapSPF, FirstConfirmed;
    var sender := SenderOf(path);
    var domain := DomainOf(sender);
    DecidedInOrder(r, rules, ip, path);

    for i := 0 to |rules.networks|
      invariant forall k :: 0 <= k < i ==> !NetworkMatch(rules.networks[k], ip, domain)
    {
      var e := rules.networks[i];
      var m := MatchNetwork(e, ip, domain);
      if m {
        FirstNetwork(rules.networks, ip, domain, i);
        return Decision(Admit, "cidr", Skipped, ""), [];
      }
    }
    FirstNetwork(rules.networks, ip, domain, |rules.networks|);

    calls := [];
    var name := None;
    if |rules.providers| > 0 {
      name, calls := FCrDNS(r, ip);
      if name.Some? {
        for i := 0 to |rules.providers|
          invariant forall k :: 0 <= k < i ==> !ProviderMatch(rules.providers[k], name.value, domain)
        {
          var p := rules.providers[i];
          var m := MatchProvider(p, name.value, domain);
          if m {
            FirstProvider(rules.providers, name, domain, i);
            if !SPFRequired(p.requireSPF) {
              return Decision(Admit, "provider:" + p.name, Skipped, name.value), calls;
            }
            calls := calls + [CheckSPF(ip, domain, sender)];
            return MapSPF(r.checkSPF(ip, domain, sender), "provider:" + p.name, name.value), calls;
          }
        }
      }
    }
    FirstProvider(rules.providers, ConfirmedName(r, ip), domain, |rules.providers|);

    for i := 0 to |rules.whitelist|
      invariant forall k :: 0 <= k < i ==> !WhitelistMatch(rules.whitelist[k], sender, domain)
    {
      var w := rules.whitelist[i];
      if WhitelistMatch(w, sender, domain) {
        FirstWhitelisted(rules.whitelist, sender, domain, i);
        if !SPFRequired(w.requireSPF) {
          return Decision(Admit, "whitelist:" + w.value, Skipped, ""), calls;
        }
        calls := calls + [CheckSPF(ip, domain, sender)];
        return MapSPF(r.checkSPF(ip, domain, sender), "whitelist:" + w.value, ""), calls;
      }
    }
    FirstWhitelisted(rules.whitelist, sender, domain, |rules.whitelist|);
    return Decision(RejectPermanent, "default", NotEvaluated, ""), calls;
  }

  /** The first match of a table, given that entry `i` is the first that matches, or that
      none does. */
  lemma {:induction false} FirstNetwork(nets: seq<Network>, ip: IP, domain: string, i: nat)
    requires i <= |nets| && forall k :: 0 <= k < i ==> !NetworkMatch(nets[k], ip, domain)
    requires i < |nets| ==> NetworkMatch(nets[i], ip, domain)
    ensures FirstMatch(NetworkRows(nets, ip, domain)) == if i < |nets| then Some(Row(true, false, "cidr", "")) else None
  {
    hide FirstMatch, NetworkMatch;
    var rows := NetworkRows(nets, ip, domain);
    if i < |nets| {
      FirstAt(rows, i);
    } else {
      FirstAbsent(rows);
    }
  }

  lemma {:induction false} FirstProvider(ps: seq<Provider>, name: Option<string>, domain: string, i: nat)
    requires i <= |ps| && (name.Some? ==> forall k :: 0 <= k < i ==> !ProviderMatch(ps[k], name.value, domain))
    requires i < |ps| ==> name.Some? && ProviderMatch(ps[i], name.value, domain)
    ensures FirstMatch(ProviderRows(ps, name, domain)) ==
            if i < |ps| then Some(Row(true, SPFRequired(ps[i].requireSPF), "provider:" + ps[i].name, name.value))
            else None
  {
    hide FirstMatch, ProviderMatch, SPFRequired;
    var rows := ProviderRows(ps, name, domain);
    if i < |ps| {
      FirstAt(rows, i);
    } else {
      FirstAbsent(rows);
    }
  }

  lemma {:induction false} FirstWhitelisted(ws: seq<WhitelistEntry>, sender: string, domain: string, i: nat)
    requires i <= |ws| && forall k :: 0 <= k < i ==> !WhitelistMatch(ws[k], sender, domain)
    requires i < |ws| ==> WhitelistMatch(ws[i], sender, domain)
    ensures FirstMatch(WhitelistRows(ws, sender, domain)) ==
            if i < |ws| then Some(Row(true, SPFRequired(ws[i].requireSPF), "whitelist:" + ws[i].value, "")) else None
  {
    hide FirstMatch, WhitelistMatch, SPFRequired;
    var rows := WhitelistRows(ws, sender, domain);
    if i < |ws| {
      FirstAt(rows, i);
    } else {
      FirstAbsent(rows);
    }
  }

  method MatchNetwork(e: Network, ip: IP, domain: string) returns (m: bool)
    ensures m == NetworkMatch(e, ip, domain)
  {
    if e.contains.None? || !e.contains.value(ip) {
      return false;
    }
    if |e.domains| > 0 {
      m := Contains(e.domains, domain);
    } else {
      m := true;
    }
  }

  method MatchProvider(p: Provider, name: string, domain: string) returns (m: bool)
    ensures m == ProviderMatch(p, name, domain)
  {
    m := SuffixMatch(name, p.ptrSuffixes);
    if m {
      m := Contains(p.domains, domain);
    }
  }

  lemma {:induction false} FirstAt(rows: seq<Row>, i: nat)
    requires i < |rows| && rows[i].matches && forall k :: 0 <= k < i ==> !rows[k].matches
    ensures FirstMatch(rows) == Some(rows[i])
  {
    if i > 0 {
      FirstAt(rows[1..], i - 1);
    }
  }

  lemma {:induction false} FirstAbsent(rows: seq<Row>)
    requires forall k :: 0 <= k < |rows| ==> !rows[k].matches
    ensures FirstMatch(rows) == None
  {
  }

  lemma {:induction false} FirstOfTwo(a: seq<Row>, b: seq<Row>)
    ensures FirstMatch(a + b) == if FirstMatch(a).Some? then FirstMatch(a) else FirstMatch(b)
  {
    if a == [] {
      assert a + b == b;
    } else {
      assert (a + b)[1..] == a[1..] + b;
      FirstOfTwo(a[1..], b);
    }
  }

  /** The tables are consulted one after the other. */
  lemma {:induction false} DecidedInOrder(r: Resolver, rules: Rules, ip: IP, path: string)
    ensures
      var sender := SenderOf(path);
      var domain := DomainOf(sender);
      var a := FirstMatch(NetworkRows(rules.networks, ip, domain));
      var b := FirstMatch(ProviderRows(rules.providers, ConfirmedName(r, ip), domain));
      var c := FirstMatch(WhitelistRows(rules.whitelist, sender, domain));
      var hit := if a.Some? then a else if b.Some? then b else c;
      Decided(r, rules, ip, path) == Judge(hit, r, ip, sender)
      && DecideCalls(r, rules, ip, path) ==
         (if a.Some? || rules.providers == [] then [] else ConfirmCalls(r, ip)) + SPFCalls(hit, ip, sender)
  {
    hide SenderOf, DomainOf, ConfirmedName, ConfirmCalls, FirstMatch;
    var sender := SenderOf(path);
    var domain := DomainOf(sender);
    var a := NetworkRows(rules.networks, ip, domain);
    var b := ProviderRows(rules.providers, ConfirmedName(r, ip), domain);
    FirstOfTwo(a + b, WhitelistRows(rules.whitelist, sender, domain));
    FirstOfTwo(a, b);
  }

  // ---- What the decision promises ----

  ghost predicate IsFirst(rows: seq<Row>, i: nat) {
    i < |rows| && rows[i].matches && forall k :: 0 <= k < i ==> !rows[k].matches
  }

  ghost predicate FirstAdmits(rows: seq<Row>, spf: SPF) {
    exists i: nat :: IsFirst(rows, i) && (rows[i].needsSPF ==> spf.Pass?)
  }

  ghost predicate FirstDefers(rows: seq<Row>, spf: SPF) {
    exists i: nat :: IsFirst(rows, i) && rows[i].needsSPF && spf.TempError?
  }

  /** A sender is admitted iff the first match skips SPF or SPF passes, and deferred
      iff the first match requires SPF and SPF gives a temporary error. Everything
      else is refused for good. */
  lemma {:induction false} Outcomes(r: Resolver, rules: Rules, ip: IP, path: string)
    ensures Decided(r, rules, ip, path).outcome.Admit? <==> FirstAdmits(Table(r, rules, ip, path), SPFOf(r, ip, path))
    ensures Decided(r, rules, ip, path).outcome.RejectTemporary?
            <==> FirstDefers(Table(r, rules, ip, path), SPFOf(r, ip, path))
  {
    hide Table, SenderOf, DomainOf, FirstMatch;
    var rows := Table(r, rules, ip, path);
    var f := FirstIndex(rows);
    assert forall i: nat :: IsFirst(rows, i) && FirstMatch(rows).Some? ==> i == f;
  }

  function SPFOf(r: Resolver, ip: IP, path: string): SPF {
    r.checkSPF(ip, DomainOf(SenderOf(path)), SenderOf(path))
  }

  lemma {:induction false} FirstIndex(rows: seq<Row>) returns (f: nat)
    ensures FirstMatch(rows).Some? ==> IsFirst(rows, f) && FirstMatch(rows).value == rows[f]
    ensures FirstMatch(rows).None? ==> forall i: nat :: !IsFirst(rows, i)
  {
    f := 0;
    if FirstMatch(rows).Some? {
      f :| f < |rows| && rows[f].matches && FirstMatch(rows).value == rows[f]
           && forall k :: 0 <= k < f ==> !rows[k].matches;
    }
  }

  /** A network match admits without any resolver call. Otherwise the reverse procedure
      runs, first, iff there are providers; SPF is evaluated at most once, last. */
  lemma {:induction false} ResolverUse(r: Resolver, rules: Rules, ip: IP, path: string)
    ensures
      var calls, sender := DecideCalls(r, rules, ip, path), SenderOf(path);
      var near := exists i :: 0 <= i < |rules.networks| && NetworkMatch(rules.networks[i], ip, DomainOf(sender));
      && (near ==> calls == [] && Decided(r, rules, ip, path).outcome.Admit?)
      && (calls != [] && calls[0].Reverse? <==> !near && rules.providers != [])
      && (forall i :: 0 < i < |calls| ==> !calls[i].Reverse?)
      && (forall i :: 0 <= i < |calls| && calls[i].CheckSPF? ==> i == |calls| - 1)
  {
    hide SenderOf, DomainOf, FirstMatch, NetworkMatch, ConfirmedName, FirstConfirmed, HostName;
    DecidedInOrder(r, rules, ip, path);
    NetworkHit(rules.networks, ip, DomainOf(SenderOf(path)));
  }

  /** SPF is evaluated iff the first match asks for it. */
  lemma {:induction false} SPFUse(r: Resolver, rules: Rules, ip: IP, path: string)
    ensures
      var calls, rows := DecideCalls(r, rules, ip, path), Table(r, rules, ip, path);
      calls != [] && calls[|calls| - 1].CheckSPF? <==> exists i: nat :: IsFirst(rows, i) && rows[i].needsSPF
  {
    hide SenderOf, DomainOf, FirstMatch, NetworkMatch, ConfirmedName, NetworkRows, ProviderRows, WhitelistRows,
      FirstConfirmed, HostName;
    var sender, rows := SenderOf(path), Table(r, rules, ip, path);
    var domain := DomainOf(sender);
    var a, b := NetworkRows(rules.networks, ip, domain), ProviderRows(rules.providers, ConfirmedName(r, ip), domain);
    var c := WhitelistRows(rules.whitelist, sender, domain);
    FirstOfTwo(a + b, c);
    FirstOfTwo(a, b);
    NetworkHit(rules.networks, ip, domain);
    var f := FirstIndex(rows);
    assert forall i: nat :: IsFirst(rows, i) && FirstMatch(rows).Some? ==> i == f;
  }

  /** A matching network decides, and asks for no SPF. */
  lemma {:induction false} NetworkHit(nets: seq<Network>, ip: IP, domain: string)
    ensures var rows := NetworkRows(nets, ip, domain);
            && (FirstMatch(rows).Some? ==> !FirstMatch(rows).value.needsSPF)
            && (FirstMatch(rows).None? <==> forall i :: 0 <= i < |nets| ==> !NetworkMatch(nets[i], ip, domain))
  {
    var rows := NetworkRows(nets, ip, domain);
    assert forall i :: 0 <= i < |nets| ==> rows[i].matches == NetworkMatch(nets[i], ip, domain);
  }

  predicate InNetwork(nets: seq<Network>, ip: IP, domain: string) {
    exists i :: 0 <= i < |nets| && NetworkMatch(nets[i], ip, domain)
  }

  /** A matching network admits; without one the networks make no difference. */
  lemma {:induction false} NetworksDecide(r: Resolver, rules: Rules, ip: IP, path: string)
    ensures var d := Decided(r, rules, ip, path);
            if InNetwork(rules.networks, ip, DomainOf(SenderOf(path))) then d.outcome.Admit?
            else d == Decided(r, rules.(networks := []), ip, path)
  {
    hide SenderOf, DomainOf, NetworkMatch, ConfirmedName, Decided, FirstMatch, NetworkRows, DecideCalls;
    DecidedInOrder(r, rules, ip, path);
    DecidedInOrder(r, rules.(networks := []), ip, path);
    NetworkHit(rules.networks, ip, DomainOf(SenderOf(path)));
    NetworkHit([], ip, DomainOf(SenderOf(path)));
  }

  /** Adding a network anywhere in the list never turns an admission into a refusal. */
  lemma {:induction false} AddingNetworkKeepsAdmission(
    r: Resolver, rules: Rules, e: Network, at: nat, ip: IP, path: string)
    requires at <= |rules.networks| && Decided(r, rules, ip, path).outcome.Admit?
    ensures var more := rules.(networks := rules.networks[..at] + [e] + rules.networks[at..]);
            Decided(r, more, ip, path).outcome.Admit?
  {
    hide SenderOf, DomainOf, InNetwork, Decided;
    var more := rules.(networks := rules.networks[..at] + [e] + rules.networks[at..]);
    NetworksDecide(r, rules, ip, path);
    NetworksDecide(r, more, ip, path);
    InMoreNetworks(rules.networks, e, at, ip, DomainOf(SenderOf(path)));
    assert more.(networks := []) == rules.(networks := []);
  }

  lemma {:induction false} InMoreNetworks(nets: seq<Network>, e: Network, at: nat, ip: IP, domain: string)
    requires at <= |nets|
    ensures InNetwork(nets, ip, domain) ==> InNetwork(nets[..at] + [e] + nets[at..], ip, domain)
  {
    hide NetworkMatch;
    var more := nets[..at] + [e] + nets[at..];
    if i :| 0 <= i < |nets| && NetworkMatch(nets[i], ip, domain) {
      assert more[if i < at then i else i + 1] == nets[i];
    }
  }

  /** A fault in the reverse lookup only switches the providers off: the outcome is that
      of the same rules without providers, and a deferral still needs an SPF error. */
  lemma {:induction false} ReverseFaultFallsThrough(r: Resolver, rules: Rules, ip: IP, path: string)
    requires r.lookupAddr(ip).None?
    ensures Decided(r, rules, ip, path) == Decided(r, rules.(providers := []), ip, path)
  {
    hide SenderOf, DomainOf, NetworkMatch;
    DecidedInOrder(r, rules, ip, path);
    DecidedInOrder(r, rules.(providers := []), ip, path);
    FirstAbsent(ProviderRows(rules.providers, None, DomainOf(SenderOf(path))));
  }

  /** Hence the fault gives a 451 iff no network matches and the first matching whitelist
      entry requires an SPF evaluation that itself fails temporarily. */
  lemma {:induction false} ReverseFaultDefersIff(r: Resolver, rules: Rules, ip: IP, path: string)
    requires r.lookupAddr(ip).None?
    ensures var sender := SenderOf(path);
            var domain := DomainOf(sender);
            Decided(r, rules, ip, path).outcome.RejectTemporary? <==>
              (forall i :: 0 <= i < |rules.networks| ==> !NetworkMatch(rules.networks[i], ip, domain))
              && FirstDefers(WhitelistRows(rules.whitelist, sender, domain), SPFOf(r, ip, path))
  {
    hide SenderOf, DomainOf, NetworkMatch, FirstMatch;
    var domain := DomainOf(SenderOf(path));
    DecidedInOrder(r, rules, ip, path);
    NetworkHit(rules.networks, ip, domain);
    FirstAbsent(ProviderRows(rules.providers, None, domain));
    assert ConfirmedName(r, ip) == None;
    var rows := WhitelistRows(rules.whitelist, SenderOf(path), domain);
    var f := FirstIndex(rows);
    assert forall i: nat :: IsFirst(rows, i) && FirstMatch(rows).Some? ==> i == f;
  }

  /** So a sender that a healthy resolver admits can be refused with 550, not deferred,
      while reverse DNS is out: for every address, every sender and every name that the
      reverse lookup gives, a provider listed for that name and that sender's domain. */
  lemma {:induction false} ReverseFaultCanRefuse(ip: IP, path: string, ptr: string)
    returns (healthy: Resolver, faulty: Resolver, rules: Rules)
    ensures healthy.lookupAddr(ip) == Some([ptr]) && healthy.lookupIP(0, HostName(ptr)) == Some([ip])
    ensures faulty == healthy.(lookupAddr := faulty.lookupAddr) && faulty.lookupAddr(ip).None?
    ensures rules == Rules([], [Provider("p", [HostName(ptr)], [DomainOf(SenderOf(path))], Some(false))], [])
    ensures Decided(healthy, rules, ip, path).outcome.Admit?
    ensures Decided(faulty, rules, ip, path).outcome.RejectPermanent?
  {
    hide SenderOf, DomainOf, FirstMatch, Under, HostName;
    healthy := Resolver((i: IP) => Some([ptr]), (k: nat, h: string) => Some([ip]),
                        (i: IP, d: string, m: string) => Fail);
    faulty := healthy.(lookupAddr := (i: IP) => None);
    var domain, name := DomainOf(SenderOf(path)), HostName(ptr);
    var p := Provider("p", [name], [domain], Some(false));
    rules := Rules([], [p], []);
    assert Confirms(healthy, ip, [ptr], 0);
    DecidedInOrder(healthy, rules, ip, path);
    assert Under(name, p.ptrSuffixes[0]) by { UnderIsOrder(name, name, name); }
    FirstAt(ProviderRows([p], Some(name), domain), 0);
    FirstAbsent([]);
    ReverseFaultFallsThrough(faulty, rules, ip, path);
    DecidedInOrder(faulty, Rules([], [], []), ip, path);
  }

  // ---- Names ----

  /** The domain is what follows the last at sign, in lower case. */
  lemma {:induction false} DomainFollowsLastAt(local: string, domain: string)
    requires Free(domain, '@')
    ensures DomainOf(local + ("@" + domain)) == ToLower(domain)
    ensures DomainOf(domain) == ""
  {
    hide LastIndex, ToLower;
    var s := local + ("@" + domain);
    assert s[|local|] == '@' && s[|local| + 1..] == domain;
    assert forall k :: |local| < k < |s| ==> s[k] == domain[k - |local| - 1];
    assert LastIndex(s, '@') == |local|;
  }

  /** A reverse name means the same host in any case, with or without its final dot. */
  lemma {:induction false} HostNameIgnoresDotAndCase(ptr: string)
    requires !HasSuffix(ptr, ".")
    ensures HostName(ptr + ".") == HostName(ptr) == HostName(ToLower(ptr)) == ToLower(ptr)
  {
    assert (ptr + ".")[..|ptr|] == ptr;
    LowerIdempotent(ptr);
    if ptr != [] {
      var n := |ptr| - 1;
      assert ptr[n..] == [ptr[n]];
      assert ToLower(ptr)[n..][0] == LowerChar(ptr[n]) != '.';
    }
  }

  // ---- Dot boundaries ----

  /** The dot-separated labels of a name. */
  function Labels(s: string): (r: seq<string>)
    ensures r != []
    decreases |s|
  {
    var i := IndexAny(s, {'.'});
    if i < 0 then [s] else [s[..i]] + Labels(s[i + 1..])
  }

  function JoinLabels(ls: seq<string>): string
    requires ls != []
  {
    if |ls| == 1 then ls[0] else ls[0] + ("." + JoinLabels(ls[1..]))
  }

  ghost predicate LabelSuffix(a: seq<string>, b: seq<string>) {
    |a| <= |b| && b[|b| - |a|..] == a
  }

  lemma {:induction false} JoinOfLabels(s: string)
    ensures JoinLabels(Labels(s)) == s
    decreases |s|
  {
    var i := IndexAny(s, {'.'});
    if i >= 0 {
      JoinOfLabels(s[i + 1..]);
      assert s == s[..i] + ("." + s[i + 1..]);
      assert Labels(s)[1..] == Labels(s[i + 1..]);
    }
  }

  lemma {:induction false} FirstLabel(p: string, q: string)
    requires Free(p, '.')
    ensures Labels(p + ("." + q)) == [p] + Labels(q)
  {
    hide IndexAny;
    IndexAnyAt(p + ("." + q), p, '.', q, {'.'});
  }

  lemma {:induction false} LabelsOfDotted(x: string, y: string)
    ensures Labels(x + ("." + y)) == Labels(x) + Labels(y)
    decreases |x|
  {
    hide IndexAny, Labels;
    var i := IndexAny(x, {'.'});
    if i < 0 {
      FirstLabel(x, y);
      assert Labels(x) == [x] by { OneLabel(x); }
    } else {
      var p, q := x[..i], x[i + 1..];
      assert x == p + ("." + q) by { assert x[i] == '.'; }
      assert x + ("." + y) == p + ("." + (q + ("." + y)));
      FirstLabel(p, q);
      FirstLabel(p, q + ("." + y));
      LabelsOfDotted(q, y);
    }
  }

  lemma {:induction false} OneLabel(x: string)
    requires Free(x, '.')
    ensures Labels(x) == [x]
  {
    hide IndexAny;
  }

  lemma {:induction false} JoinSplit(a: seq<string>, b: seq<string>)
    requires a != [] && b != []
    ensures JoinLabels(a + b) == JoinLabels(a) + ("." + JoinLabels(b))
  {
    assert (a + b)[1..] == a[1..] + b;
    if |a| > 1 {
      JoinSplit(a[1..], b);
    } else {
      assert a[1..] + b == b;
    }
  }

  /** The dot-boundary test holds iff the labels of `s` end the labels of `name`. */
  lemma {:induction false} UnderIsLabelSuffix(name: string, s: string)
    ensures Under(name, s) <==> LabelSuffix(Labels(s), Labels(name))
  {
    hide Labels, JoinLabels;
    JoinOfLabels(name);
    JoinOfLabels(s);
    var a, b := Labels(s), Labels(name);
    if Under(name, s) && name != s {
      var x := name[..|name| - |s| - 1];
      assert name[|name| - |s| - 1..] == "." + s;
      assert name == x + ("." + s);
      LabelsOfDotted(x, s);
    }
    if LabelSuffix(a, b) {
      var pre := b[..|b| - |a|];
      assert b == pre + a;
      if pre == [] {
        assert b == a;
      } else {
        JoinSplit(pre, a);
        var x := JoinLabels(pre);
        assert name == x + ("." + s);
        assert name[|name| - |s| - 1..] == "." + s;
      }
    }
  }

  /** Hence the test is reflexive and transitive. */
  lemma {:induction false} UnderIsOrder(a: string, b: string, c: string)
    ensures Under(a, a)
    ensures Under(a, b) && Under(b, c) ==> Under(a, c)
  {
    hide Under;
    UnderIsLabelSuffix(a, a);
    UnderIsLabelSuffix(a, b);
    UnderIsLabelSuffix(b, c);
    UnderIsLabelSuffix(a, c);
    var x, y, z := Labels(a), Labels(b), Labels(c);
    assert x[|x| - |x|..] == x;
    if LabelSuffix(y, x) && LabelSuffix(z, y) {
      assert x[|x| - |z|..] == y[|y| - |z|..];
    }
  }

  // ---- What one entry admits ----

  lemma {:induction false} OneRow(r: Resolver, ip: IP, sender: string, row: Row)
    ensures Judge(FirstMatch([row]), r, ip, sender) ==
            if !row.matches then Decision(RejectPermanent, "default", NotEvaluated, "")
            else if row.needsSPF then MapSPF(r.checkSPF(ip, DomainOf(sender), sender), row.rule, row.ptrName)
            else Decision(Admit, row.rule, Skipped, row.ptrName)
  {
    hide DomainOf, MapSPF;
    if row.matches {
      FirstAt([row], 0);
    } else {
      FirstAbsent([row]);
    }
  }

  /** What a matching entry decides: without a flag, or with the flag set, SPF does. */
  predicate Settles(d: Decision, requireSPF: Option<bool>, spf: SPF) {
    if requireSPF == Some(false) then d.outcome == Admit && d.spf == Skipped
    else
      && d.spf == spf
      && (d.outcome == Admit <==> spf == Pass)
      && (d.outcome == RejectTemporary <==> spf == TempError)
  }

  predicate Refuses(d: Decision) {
    d.outcome == RejectPermanent && d.spf == NotEvaluated
  }

  /** A network on its own admits exactly the peers of its addresses whose sender's domain
      it lists; without a list it admits every sender. */
  lemma {:induction false} NetworkAlone(r: Resolver, e: Network, ip: IP, path: string)
    ensures var d := Decided(r, Rules([e], [], []), ip, path);
            if e.contains.Some? && e.contains.value(ip) && (|e.domains| == 0 || DomainOf(SenderOf(path)) in e.domains)
            then d.outcome == Admit && d.spf == Skipped
            else Refuses(d)
  {
    hide SenderOf, DomainOf, FirstMatch, Decided, ConfirmedName, Judge;
    var sender := SenderOf(path);
    DecidedInOrder(r, Rules([e], [], []), ip, path);
    var rows := NetworkRows([e], ip, DomainOf(sender));
    assert rows == [rows[0]];
    OneRow(r, ip, sender, rows[0]);
    FirstAbsent([]);
    if rows[0].matches {
      FirstAt(rows, 0);
    } else {
      FirstAbsent(rows);
    }
    assert Judge(None, r, ip, sender) == Decision(RejectPermanent, "default", NotEvaluated, "") by {
      NoRow(r, ip, sender);
    }
  }

  lemma {:induction false} NoRow(r: Resolver, ip: IP, sender: string)
    ensures Judge(None, r, ip, sender) == Decision(RejectPermanent, "default", NotEvaluated, "")
  {
  }

  /** A whitelist entry on its own: an address entry is for exactly that sender, a domain
      entry for exactly the senders whose domain ends in its labels; SPF is asked for
      unless the entry says otherwise. */
  lemma {:induction false} WhitelistAlone(r: Resolver, w: WhitelistEntry, ip: IP, path: string)
    ensures var d, sender := Decided(r, Rules([], [], [w]), ip, path), SenderOf(path);
            if (w.match_ == Address && sender == w.value)
               || (w.match_ == Domain && LabelSuffix(Labels(w.value), Labels(DomainOf(sender))))
            then Settles(d, w.requireSPF, SPFOf(r, ip, path)) && d.rule == "whitelist:" + w.value
            else Refuses(d)
  {
    hide SenderOf, DomainOf, FirstMatch, Decided, ConfirmedName, Judge, Under, Labels, LabelSuffix;
    var sender := SenderOf(path);
    DecidedInOrder(r, Rules([], [], [w]), ip, path);
    var rows := WhitelistRows([w], sender, DomainOf(sender));
    assert rows == [rows[0]];
    UnderIsLabelSuffix(DomainOf(sender), w.value);
    OneRow(r, ip, sender, rows[0]);
    FirstAbsent([]);
  }

  /** A provider on its own: the confirmed name must end in the labels of one of its
      suffixes, and the sender's domain must be listed. */
  lemma {:induction false} ProviderAlone(r: Resolver, p: Provider, ip: IP, path: string)
    ensures var d, name := Decided(r, Rules([], [p], []), ip, path), ConfirmedName(r, ip);
            if name.Some? && DomainOf(SenderOf(path)) in p.domains
               && (exists i :: 0 <= i < |p.ptrSuffixes| && LabelSuffix(Labels(p.ptrSuffixes[i]), Labels(name.value)))
            then
              && Settles(d, p.requireSPF, SPFOf(r, ip, path))
              && d.rule == "provider:" + p.name && d.ptrName == name.value
            else Refuses(d)
  {
    hide SenderOf, DomainOf, FirstMatch, Decided, ConfirmedName, Judge, Under, Labels, LabelSuffix;
    var sender, name := SenderOf(path), ConfirmedName(r, ip);
    DecidedInOrder(r, Rules([], [p], []), ip, path);
    var rows := ProviderRows([p], name, DomainOf(sender));
    assert rows == [rows[0]];
    OneRow(r, ip, sender, rows[0]);
    FirstAbsent([]);
    if name.Some? {
      forall i | 0 <= i < |p.ptrSuffixes|
        ensures Under(name.value, p.ptrSuffixes[i]) <==> LabelSuffix(Labels(p.ptrSuffixes[i]), Labels(name.value))
      {
        UnderIsLabelSuffix(name.value, p.ptrSuffixes[i]);
      }
    }
  }

  /** The confirmed name is that of the first reverse name whose forward lookup succeeds and
      holds the peer's address. */
  lemma {:induction false} ConfirmedNameIs(r: Resolver, ip: IP, k: nat)
    ensures r.lookupAddr(ip).None? ==> ConfirmedName(r, ip) == None
    ensures r.lookupAddr(ip).Some? && k < |r.lookupAddr(ip).value| ==>
              var names := r.lookupAddr(ip).value;
              (r.lookupIP(k, HostName(names[k])).Some? && ip in r.lookupIP(k, HostName(names[k])).value
               && forall j: nat :: j < k ==>
                    r.lookupIP(j, HostName(names[j])).None? || ip !in r.lookupIP(j, HostName(names[j])).value)
              ==> ConfirmedName(r, ip) == Some(HostName(names[k]))
    ensures r.lookupAddr(ip).Some? ==>
              var names := r.lookupAddr(ip).value;
              (forall j: nat :: j < |names| ==>
                    r.lookupIP(j, HostName(names[j])).None? || ip !in r.lookupIP(j, HostName(names[j])).value)
              ==> ConfirmedName(r, ip) == None
  {
    hide HostName;
    var names := PtrNames(r, ip);
    var i := FirstConfirmed(r, ip, names, 0);
    assert i < |names| ==> Confirms(r, ip, names, i);
    if k < |names| {
      assert i < k ==> !Confirms(r, ip, names, k) || Confirms(r, ip, names, i);
      assert k < i ==> !Confirms(r, ip, names, k);
    }
  }

  /** White space around a sender, and the case of its letters, do not matter. */
  lemma {:induction false} SenderIsFolded(a: string, path: string, b: string, other: string)
    requires AllSpace(a) && AllSpace(b) && SameButCase(path, other)
    requires path != "" ==> !IsSpace(path[0]) && !IsSpace(path[|path| - 1])
    ensures SenderOf(a + (path + b)) == ToLower(other)
  {
    hide TrimSpace, ToLower;
    TrimsBothEnds(a, path, b);
    CaseFolds(path, other);
  }

  /** The lookups of the reverse procedure: the reverse one, then one forward lookup for
      each name up to and including the first that is confirmed. */
  lemma {:induction false} LookupsMade(r: Resolver, ip: IP, names: seq<string>, k: nat)
    requires r.lookupAddr(ip) == Some(names) && k <= |names|
    requires forall j: nat :: j < k ==>
               r.lookupIP(j, HostName(names[j])).None? || ip !in r.lookupIP(j, HostName(names[j])).value
    requires k < |names| ==>
               r.lookupIP(k, HostName(names[k])).Some? && ip in r.lookupIP(k, HostName(names[k])).value
    ensures var calls, n := ConfirmCalls(r, ip), if k < |names| then k + 1 else k;
            && |calls| == n + 1 && calls[0] == Reverse(ip)
            && forall j :: 0 <= j < n ==> calls[j + 1] == Forward(HostName(names[j]))
  {
    hide HostName, FirstConfirmed;
    FirstConfirmedIs(r, ip, names, k);
    var calls, n := ConfirmCalls(r, ip), if k < |names| then k + 1 else k;
    assert calls == [Reverse(ip)] + Lookups(names, n);
  }

  lemma {:induction false} FirstConfirmedIs(r: Resolver, ip: IP, names: seq<string>, k: nat)
    requires k <= |names|
    requires forall j: nat :: j < k ==>
               r.lookupIP(j, HostName(names[j])).None? || ip !in r.lookupIP(j, HostName(names[j])).value
    requires k < |names| ==>
               r.lookupIP(k, HostName(names[k])).Some? && ip in r.lookupIP(k, HostName(names[k])).value
    ensures FirstConfirmed(r, ip, names, 0) == k
  {
    hide HostName;
    var i := FirstConfirmed(r, ip, names, 0);
    assert k < |names| ==> Confirms(r, ip, names, k);
    assert i < |names| ==> Confirms(r, ip, names, i);
  }
}
