/** Key normalisation, the route tables and their checks (internal/config/config.go). */
module Config {
  import opened Text
  import opened Options
  import opened Mail
  import opened Policy

  datatype Retry = Retry(enabled: bool, intervalSec: int, expireSec: int, maxEntries: int, maxBytes: int)

  /** A validated size limit: an int64 that is not negative. */
  type Limit = n: nat | n < 0x8000_0000_0000_0000

  /** The parts of the configuration that a session reads. */
  datatype Config = Config(
    hostname: string,
    maxMessageBytes: Limit,
    rules: Rules,
    routes: seq<Route>,
    routeExact: map<string, Route>,
    routeDomain: map<string, Route>)

  // ---- Prepare ----

  function LowerAll(ss: seq<string>): (r: seq<string>)
    ensures |r| == |ss|
  {
    seq(|ss|, i requires 0 <= i < |ss| => ToLower(ss[i]))
  }

  function NormSuffixes(ss: seq<string>): (r: seq<string>)
    ensures |r| == |ss|
  {
    seq(|ss|, i requires 0 <= i < |ss| => ToLower(if "." <= ss[i] then ss[i][1..] else ss[i]))
  }

  function NormNetworks(ns: seq<Network>): (r: seq<Network>)
    ensures |r| == |ns|
  {
    seq(|ns|, i requires 0 <= i < |ns| => ns[i].(domains := LowerAll(ns[i].domains)))
  }

  function NormProviders(ps: seq<Provider>): (r: seq<Provider>)
    ensures |r| == |ps|
  {
    seq(|ps|, i requires 0 <= i < |ps| =>
      ps[i].(ptrSuffixes := NormSuffixes(ps[i].ptrSuffixes), domains := LowerAll(ps[i].domains)))
  }

  function NormWhitelist(ws: seq<WhitelistEntry>): (r: seq<WhitelistEntry>)
    ensures |r| == |ws|
  {
    seq(|ws|, i requires 0 <= i < |ws| => ws[i].(value := ToLower(ws[i].value)))
  }

  function NormRoute(r: Route): Route {
    r.(match_ := if r.match_.Unset? then Address else r.match_, recipient := ToLower(r.recipient))
  }

  function NormRoutes(rs: seq<Route>): (r: seq<Route>)
    ensures |r| == |rs|
  {
    seq(|rs|, i requires 0 <= i < |rs| => NormRoute(rs[i]))
  }

  /** The routes of one match type by recipient; a later route replaces an earlier one. */
  function RouteTable(rs: seq<Route>, kind: MatchType): map<string, Route> {
    if rs == [] then map[]
    else
      var last, before := rs[|rs| - 1], RouteTable(rs[..|rs| - 1], kind);
      if last.match_ == kind then before[last.recipient := last] else before
  }

  function Prepared(c: Config): Config {
    var routes := NormRoutes(c.routes);
    c.(hostname := ToLower(TrimSpace(c.hostname)),
       rules := Rules(NormNetworks(c.rules.networks), NormProviders(c.rules.providers),
                      NormWhitelist(c.rules.whitelist)),
       routes := routes,
       routeExact := RouteTable(routes, Address),
       routeDomain := RouteTable(routes, Domain))
  }

  lemma {:induction false} RouteTableSnoc(rs: seq<Route>, r: Route, kind: MatchType)
    ensures RouteTable(rs + [r], kind) ==
            if r.match_ == kind then RouteTable(rs, kind)[r.recipient := r] else RouteTable(rs, kind)
  {
    assert (rs + [r])[..|rs|] == rs;
  }

  lemma {:induction false} NoRoutesListed(kind: MatchType)
    ensures RouteTable([], kind) == map[]
  {
  }

  /** The configuration while it is being loaded. */
  class Loader {
    var hostname: string
    var maxMessageBytes: Limit
    var rules: Rules
    var routes: seq<Route>
    var routeExact: map<string, Route>
    var routeDomain: map<string, Route>

    constructor (c: Config)
      ensures View() == c
    {
      hostname, maxMessageBytes, rules, routes := c.hostname, c.maxMessageBytes, c.rules, c.routes;
      routeExact, routeDomain := c.routeExact, c.routeDomain;
    }

    function View(): Config
      reads this
    {
      Config(hostname, maxMessageBytes, rules, routes, routeExact, routeDomain)
    }

    /** Rewrites every comparison key in place and fills the two route maps. */
    method Prepare()
      modifies this
      ensures View() == Prepared(old(View()))
    {
      hide ToLower, TrimSpace, NormRoutes, RouteTable, NormNetworks, NormProviders, NormWhitelist;
      hostname := ToLower(TrimSpace(hostname));
      PrepareRules();
      PrepareRoutes();
    }

    method PrepareRoutes()
      modifies this`routes, this`routeExact, this`routeDomain
      ensures routes == NormRoutes(old(routes))
      ensures routeExact == RouteTable(routes, Address) && routeDomain == RouteTable(routes, Domain)
    {
      hide NormRoute, RouteTable;
      ghost var target := NormRoutes(routes);
      routeExact, routeDomain := map[], map[];
      NoRoutesListed(Address);
      NoRoutesListed(Domain);
      assert target[..0] == [];
      for i := 0 to |routes|
        invariant |routes| == |target|
        invariant forall k :: 0 <= k < |routes| ==> routes[k] == if k < i then target[k] else old(routes)[k]
        invariant routeExact == RouteTable(target[..i], Address)
        invariant routeDomain == RouteTable(target[..i], Domain)
      {
        var r := NormRoute(routes[i]);
        assert r == target[i];
        routes := routes[i := r];
        match r.match_ {
          case Address => routeExact := routeExact[r.recipient := r];
          case Domain => routeDomain := routeDomain[r.recipient := r];
          case Unset =>
        }
        assert target[..i + 1] == target[..i] + [r];
        RouteTableSnoc(target[..i], r, Address);
        RouteTableSnoc(target[..i], r, Domain);
      }
      assert target[..|target|] == target == routes;
    }

    method PrepareRules()
      modifies this`rules
      ensures rules == Prepared(old(View())).rules
    {
      hide ToLower, LowerAll, NormSuffixes, TrimSpace, NormRoutes, RouteTable;
      var nets, provs, whites := rules.networks, rules.providers, rules.whitelist;
      for i := 0 to |nets|
        invariant |nets| == |rules.networks|
        invariant nets == NormNetworks(rules.networks)[..i] + rules.networks[i..]
      {
        nets := nets[i := nets[i].(domains := LowerAll(nets[i].domains))];
      }
      for i := 0 to |provs|
        invariant |provs| == |rules.providers|
        invariant provs == NormProviders(rules.providers)[..i] + rules.providers[i..]
      {
        provs := provs[i := provs[i].(ptrSuffixes := NormSuffixes(provs[i].ptrSuffixes),
                                      domains := LowerAll(provs[i].domains))];
      }
      for i := 0 to |whites|
        invariant |whites| == |rules.whitelist|
        invariant whites == NormWhitelist(rules.whitelist)[..i] + rules.whitelist[i..]
      {
        whites := whites[i := whites[i].(value := ToLower(whites[i].value))];
      }
      assert nets == NormNetworks(rules.networks);
      assert provs == NormProviders(rules.providers);
      assert whites == NormWhitelist(rules.whitelist);
      rules := Rules(nets, provs, whites);
    }
  }

  // ---- Validate: routes and retry ----

  datatype Fault =
    | Duplicate(i: nat)
    | EmptyRecipient(i: nat)
    | BadTimeout(i: nat)
    | BadTarget(i: nat)
    | NoSecret(i: nat)
    | BadPort(i: nat)
    | NoRoutes

  datatype Key = Key(match_: MatchType, recipient: string)

  function KeyOf(r: Route): Key {
    Key(r.match_, r.recipient)
  }

  predicate IsHttp(url: string) {
    "https://" <= url || "http://" <= url
  }

  function TypeFaults(r: Route, i: nat): seq<Fault> {
    match r.kind
    case CommandRoute(path) => if path == "" then [BadTarget(i)] else []
    case WebhookRoute(url, secret) =>
      (if IsHttp(url) then [] else [BadTarget(i)]) + (if secret == "" then [NoSecret(i)] else [])
    case ForwardRoute(host, port) =>
      (if host == "" then [BadTarget(i)] else []) + (if port <= 0 || port > 65535 then [BadPort(i)] else [])
    case Unrouted => [BadTarget(i)]
  }

  /** An earlier route has the same match type and recipient. */
  predicate Repeats(rs: seq<Route>, i: nat)
    requires i < |rs|
  {
    exists j :: 0 <= j < i && KeyOf(rs[j]) == KeyOf(rs[i])
  }

  function FaultsOf(r: Route, i: nat, repeated: bool): seq<Fault> {
    (if repeated then [Duplicate(i)] else [])
    + (if r.recipient == "" then [EmptyRecipient(i)] else [])
    + (if r.timeoutSec <= 0 then [BadTimeout(i)] else [])
    + TypeFaults(r, i)
  }

  function RouteFaults(rs: seq<Route>, n: nat): seq<Fault>
    requires n <= |rs|
  {
    if n == 0 then (if rs == [] then [NoRoutes] else [])
    else RouteFaults(rs, n - 1) + FaultsOf(rs[n - 1], n - 1, Repeats(rs, n - 1))
  }

  method ValidateRoutes(rs: seq<Route>) returns (faults: seq<Fault>)
    ensures faults == RouteFaults(rs, |rs|)
  {
    hide FaultsOf;
    faults := if |rs| == 0 then [NoRoutes] else [];
    var seen: set<Key> := {};
    for i := 0 to |rs|
      invariant forall k :: k in seen <==> exists j :: 0 <= j < i && KeyOf(rs[j]) == k
      invariant faults == RouteFaults(rs, i)
    {
      var r := rs[i];
      faults := faults + FaultsOf(r, i, KeyOf(r) in seen);
      seen := seen + {KeyOf(r)};
    }
  }

  predicate ValidRetry(r: Retry) {
    r.enabled ==> 0 < r.intervalSec < r.expireSec && r.maxEntries > 0 && r.maxBytes > 0
  }

  /** No two routes share match type and recipient, and no recipient is empty. */
  ghost predicate RoutesDistinct(rs: seq<Route>) {
    && (forall i, j :: 0 <= i < j < |rs| ==> KeyOf(rs[i]) != KeyOf(rs[j]))
    && (forall i :: 0 <= i < |rs| ==> rs[i].recipient != "")
  }

  lemma {:induction false} FaultFreeRoute(rs: seq<Route>, n: nat, i: nat)
    requires i < n <= |rs| && RouteFaults(rs, n) == []
    ensures !Repeats(rs, i) && rs[i].recipient != ""
  {
    hide Repeats;
    if i < n - 1 {
      FaultFreeRoute(rs, n - 1, i);
    }
  }

  lemma {:induction false} FaultFreeIsDistinct(rs: seq<Route>)
    requires RouteFaults(rs, |rs|) == []
    ensures RoutesDistinct(rs)
  {
    hide RouteFaults;
    forall i | 0 <= i < |rs| ensures !Repeats(rs, i) && rs[i].recipient != "" {
      FaultFreeRoute(rs, |rs|, i);
    }
  }

  // ---- LookupRoute ----

  function LookupRoute(c: Config, addr: string): Option<Route> {
    var a := ToLower(addr);
    if a in c.routeExact then Some(c.routeExact[a])
    else
      var at := LastIndex(a, '@');
      if at < 0 then None
      else if a[at + 1..] in c.routeDomain then Some(c.routeDomain[a[at + 1..]])
      else None
  }

  /** A configuration that went through Prepare and passed Validate. */
  ghost predicate Loaded(c: Config) {
    && c.routeExact == RouteTable(c.routes, Address)
    && c.routeDomain == RouteTable(c.routes, Domain)
    && RouteFaults(c.routes, |c.routes|) == []
  }

  /** Prepare always leaves tables that match its route list, whatever it started from,
      so what Validate has to check is the list alone. */
  lemma {:induction false} PreparedIsLoaded(c: Config)
    ensures Loaded(Prepared(c)) <==> RouteFaults(Prepared(c).routes, |c.routes|) == []
  {
  }

  ghost predicate Has(rs: seq<Route>, kind: MatchType, recipient: string) {
    exists r :: r in rs && r.match_ == kind && r.recipient == recipient
  }

  /** What the route list says on its own: `r` is listed for the address or, when the
      address has no entry, for its domain. Only membership counts, not order. */
  ghost predicate Serves(rs: seq<Route>, addr: string, r: Route) {
    var a := ToLower(addr);
    && r in rs
    && ((r.match_.Address? && r.recipient == a)
        || (r.match_.Domain? && !Has(rs, Address, a) && LastIndex(a, '@') >= 0
            && r.recipient == a[LastIndex(a, '@') + 1..]))
  }

  lemma {:induction false} TableLists(rs: seq<Route>, kind: MatchType, key: string)
    ensures var t := RouteTable(rs, kind);
            && (key in t ==> t[key] in rs && t[key].match_ == kind && t[key].recipient == key)
            && (key in t <==> Has(rs, kind, key))
  {
    if rs == [] {
    } else {
      var n := |rs| - 1;
      TableLists(rs[..n], kind, key);
      assert rs == rs[..n] + [rs[n]];
      var t := RouteTable(rs[..n], kind);
      if rs[n].match_ == kind && rs[n].recipient == key {
        assert rs[n] in rs;
      } else if key in t {
        assert t[key] in rs;
      }
    }
  }

  lemma {:induction false} KeysUnique(rs: seq<Route>, a: Route, b: Route)
    requires RoutesDistinct(rs) && a in rs && b in rs && KeyOf(a) == KeyOf(b)
    ensures a == b
  {
    var i: nat :| i < |rs| && rs[i] == a;
    var j: nat :| j < |rs| && rs[j] == b;
  }

  /** The two maps agree with a scan of the list: a route is found iff the list holds
      one for the address or else for its domain, and then it is the only one. */
  lemma {:induction false} LookupAgreesWithScan(c: Config, addr: string, r: Route)
    requires Loaded(c)
    ensures LookupRoute(c, addr) == Some(r) <==> Serves(c.routes, addr, r)
  {
    hide RouteTable, RouteFaults;
    var rs, a := c.routes, ToLower(addr);
    FaultFreeIsDistinct(rs);
    TableLists(rs, Address, a);
    var at := LastIndex(a, '@');
    var d := if at < 0 then "" else a[at + 1..];
    TableLists(rs, Domain, d);
    if Serves(rs, addr, r) {
      assert Has(rs, r.match_, r.recipient);
      var f := if r.match_.Address? then c.routeExact[a] else c.routeDomain[d];
      KeysUnique(rs, r, f);
    }
  }

  /** The order of the route list does not matter. */
  lemma {:induction false} LookupIgnoresOrder(c: Config, d: Config, addr: string)
    requires Loaded(c) && Loaded(d) && multiset(c.routes) == multiset(d.routes)
    ensures LookupRoute(c, addr) == LookupRoute(d, addr)
  {
    hide RouteTable, RouteFaults, LookupRoute, Loaded;
    assert forall r :: r in c.routes <==> r in multiset(c.routes);
    assert forall r :: r in d.routes <==> r in multiset(d.routes);
    forall r ensures LookupRoute(c, addr) == Some(r) <==> LookupRoute(d, addr) == Some(r) {
      LookupAgreesWithScan(c, addr, r);
      LookupAgreesWithScan(d, addr, r);
    }
    if LookupRoute(c, addr).Some? {
      assert LookupRoute(d, addr) == Some(LookupRoute(c, addr).value);
    } else if LookupRoute(d, addr).Some? {
      assert LookupRoute(c, addr) == Some(LookupRoute(d, addr).value);
    }
  }

  /** No route is found for an empty path. */
  lemma {:induction false} EmptyPathHasNoRoute(c: Config)
    requires Loaded(c)
    ensures LookupRoute(c, "") == None
  {
    FaultFreeIsDistinct(c.routes);
    TableLists(c.routes, Address, "");
  }

  // ---- Case ----

  ghost predicate Lower(s: string) {
    ToLower(s) == s
  }

  ghost predicate AllLower(ss: seq<string>) {
    forall i :: 0 <= i < |ss| ==> Lower(ss[i])
  }

  lemma {:induction false} LowerAllIsLower(ss: seq<string>)
    ensures AllLower(LowerAll(ss))
  {
    hide ToLower;
    forall i | 0 <= i < |ss| ensures Lower(LowerAll(ss)[i]) {
      LowerIdempotent(ss[i]);
    }
  }

  lemma {:induction false} NormSuffixesAreLower(ss: seq<string>)
    ensures AllLower(NormSuffixes(ss))
  {
    hide ToLower;
    forall i | 0 <= i < |ss| ensures Lower(NormSuffixes(ss)[i]) {
      LowerIdempotent(if "." <= ss[i] then ss[i][1..] else ss[i]);
    }
  }

  /** Every key that Decide compares, with senders, domains and host names that it has
      itself put in lower case, is in lower case. */
  lemma {:induction false} PreparedKeysAreLower(c: Config)
    ensures var r := Prepared(c).rules;
            && (forall i :: 0 <= i < |r.networks| ==> AllLower(r.networks[i].domains))
            && (forall i :: 0 <= i < |r.providers| ==>
                  AllLower(r.providers[i].domains) && AllLower(r.providers[i].ptrSuffixes))
            && (forall i :: 0 <= i < |r.whitelist| ==> Lower(r.whitelist[i].value))
  {
    hide ToLower, LowerAll, NormSuffixes, AllLower, Lower;
    var r := c.rules;
    forall i | 0 <= i < |r.networks| ensures AllLower(NormNetworks(r.networks)[i].domains) {
      LowerAllIsLower(r.networks[i].domains);
    }
    forall i | 0 <= i < |r.providers|
      ensures AllLower(NormProviders(r.providers)[i].domains) && AllLower(NormProviders(r.providers)[i].ptrSuffixes)
    {
      LowerAllIsLower(r.providers[i].domains);
      NormSuffixesAreLower(r.providers[i].ptrSuffixes);
    }
    forall i | 0 <= i < |r.whitelist| ensures Lower(NormWhitelist(r.whitelist)[i].value) {
      ToLowerIsLower(r.whitelist[i].value);
    }
  }

  lemma {:induction false} ToLowerIsLower(s: string)
    ensures Lower(ToLower(s))
  {
    LowerIdempotent(s);
  }

  /** A route listed for an address, in whatever case, serves that address in every case,
      and is the route found. */
  lemma {:induction false} AddressRouteIsFound(c: Config, i: nat, addr: string)
    requires Loaded(Prepared(c)) && i < |c.routes| && !c.routes[i].match_.Domain?
    requires ToLower(addr) == ToLower(c.routes[i].recipient)
    ensures LookupRoute(Prepared(c), addr) == Some(NormRoute(c.routes[i]))
  {
    hide RouteFaults, RouteTable, LookupRoute, ToLower, Loaded;
    var p := Prepared(c);
    assert p.routes[i] == NormRoute(c.routes[i]);
    LookupAgreesWithScan(p, addr, p.routes[i]);
  }

  // ---- Entries as they are written in the file ----

  /** A whitelisted address, in whatever case, is for exactly that sender in every case. */
  lemma {:induction false} WrittenAddress(c: Config, w: WhitelistEntry, r: Resolver, ip: IP, path: string)
    requires c.rules == Rules([], [], [w]) && w.match_ == Address
    ensures var d := Decided(r, Prepared(c).rules, ip, path);
            if SameButCase(TrimSpace(path), w.value) then Settles(d, w.requireSPF, SPFOf(r, ip, path)) else Refuses(d)
  {
    hide ToLower, TrimSpace, Decided, SPFOf, Settles, Refuses, Labels, LabelSuffix;
    var v := w.(value := ToLower(w.value));
    assert Prepared(c).rules == Rules([], [], [v]) by {
      assert NormWhitelist([w]) == [v] && NormNetworks([]) == [] && NormProviders([]) == [];
    }
    WhitelistAlone(r, v, ip, path);
    CaseFolds(TrimSpace(path), w.value);
  }

  /** A whitelisted domain, in whatever case, is for the senders below it. */
  lemma {:induction false} WrittenDomain(c: Config, w: WhitelistEntry, r: Resolver, ip: IP, path: string)
    requires c.rules == Rules([], [], [w]) && w.match_ == Domain
    ensures var d := Decided(r, Prepared(c).rules, ip, path);
            if LabelSuffix(Labels(ToLower(w.value)), Labels(DomainOf(SenderOf(path))))
            then Settles(d, w.requireSPF, SPFOf(r, ip, path)) else Refuses(d)
  {
    hide ToLower, SenderOf, DomainOf, Decided, SPFOf, Settles, Refuses, Labels, LabelSuffix;
    var v := w.(value := ToLower(w.value));
    assert Prepared(c).rules == Rules([], [], [v]) by {
      assert NormWhitelist([w]) == [v] && NormNetworks([]) == [] && NormProviders([]) == [];
    }
    WhitelistAlone(r, v, ip, path);
  }

  ghost predicate Lists(domains: seq<string>, domain: string) {
    exists i :: 0 <= i < |domains| && SameButCase(domains[i], domain)
  }

  lemma {:induction false} ListedInAnyCase(domains: seq<string>, path: string)
    ensures DomainOf(SenderOf(path)) in LowerAll(domains) <==> Lists(domains, DomainOf(SenderOf(path)))
  {
    hide ToLower, SenderOf, DomainOf;
    var d, ls := DomainOf(SenderOf(path)), LowerAll(domains);
    DomainIsLower(SenderOf(path));
    forall i | 0 <= i < |domains| ensures ls[i] == d <==> SameButCase(domains[i], d) {
      CaseFolds(domains[i], d);
    }
  }

  lemma {:induction false} DomainIsLower(addr: string)
    ensures ToLower(DomainOf(addr)) == DomainOf(addr)
  {
    hide ToLower;
    var at := LastIndex(addr, '@');
    LowerIdempotent(if at < 0 then "" else addr[at + 1..]);
    assert ToLower("") == "" by { EmptyIsLower(); }
  }

  lemma {:induction false} EmptyIsLower()
    ensures ToLower("") == ""
  {
  }

  /** A network with its domains, in whatever case. */
  lemma {:induction false} WrittenNetwork(c: Config, e: Network, r: Resolver, ip: IP, path: string)
    requires c.rules == Rules([e], [], [])
    ensures var d := Decided(r, Prepared(c).rules, ip, path);
            if e.contains.Some? && e.contains.value(ip)
               && (e.domains == [] || Lists(e.domains, DomainOf(SenderOf(path))))
            then d.outcome == Admit && d.spf == Skipped else Refuses(d)
  {
    hide ToLower, SenderOf, DomainOf, Decided, Refuses, Lists, LowerAll;
    var v := e.(domains := LowerAll(e.domains));
    assert Prepared(c).rules == Rules([v], [], []) by {
      assert NormNetworks([e]) == [v] && NormWhitelist([]) == [] && NormProviders([]) == [];
    }
    NetworkAlone(r, v, ip, path);
    ListedInAnyCase(e.domains, path);
  }

  /** A suffix as it is written: one leading dot does not matter. */
  function WithoutDot(s: string): string {
    if s != "" && s[0] == '.' then s[1..] else s
  }

  /** A provider with its suffixes and domains, in whatever case, the suffixes with or
      without a leading dot. */
  lemma {:induction false} WrittenProvider(c: Config, p: Provider, r: Resolver, ip: IP, path: string)
    requires c.rules == Rules([], [p], [])
    ensures var d, name := Decided(r, Prepared(c).rules, ip, path), ConfirmedName(r, ip);
            if name.Some? && Lists(p.domains, DomainOf(SenderOf(path)))
               && (exists i :: 0 <= i < |p.ptrSuffixes|
                               && LabelSuffix(Labels(ToLower(WithoutDot(p.ptrSuffixes[i]))), Labels(name.value)))
            then Settles(d, p.requireSPF, SPFOf(r, ip, path)) else Refuses(d)
  {
    hide ToLower, SenderOf, DomainOf, Decided, SPFOf, Settles, Refuses, Lists, LowerAll, ConfirmedName, Labels,
      LabelSuffix;
    var v := p.(ptrSuffixes := NormSuffixes(p.ptrSuffixes), domains := LowerAll(p.domains));
    assert Prepared(c).rules == Rules([], [v], []) by {
      assert NormProviders([p]) == [v] && NormWhitelist([]) == [] && NormNetworks([]) == [];
    }
    ProviderAlone(r, v, ip, path);
    ListedInAnyCase(p.domains, path);
    forall i | 0 <= i < |p.ptrSuffixes| ensures v.ptrSuffixes[i] == ToLower(WithoutDot(p.ptrSuffixes[i])) {
    }
  }

  /** The host name is trimmed and in lower case, the size limit is the one written, and
      every route keeps its kind and its time limit. */
  lemma {:induction false} WrittenRest(c: Config, i: nat)
    ensures Trimmed(Prepared(c).hostname) && SameButCase(Prepared(c).hostname, TrimSpace(c.hostname))
    ensures ToLower(Prepared(c).hostname) == Prepared(c).hostname
    ensures Prepared(c).maxMessageBytes == c.maxMessageBytes && |Prepared(c).routes| == |c.routes|
    ensures i < |c.routes| ==>
              var r := Prepared(c).routes[i];
              && r.kind == c.routes[i].kind && r.timeoutSec == c.routes[i].timeoutSec
              && SameButCase(r.recipient, c.routes[i].recipient) && ToLower(r.recipient) == r.recipient
              && (r.match_ == Domain <==> c.routes[i].match_ == Domain) && r.match_ != Unset
  {
    hide TrimSpace, ToLower, RouteTable, NormNetworks, NormProviders, NormWhitelist;
    var h := TrimSpace(c.hostname);
    FoldsInPlace(h);
    assert Trimmed(ToLower(h)) by { LowerStaysTrimmed(h); }
    if i < |c.routes| {
      FoldsInPlace(c.routes[i].recipient);
    }
  }

  lemma {:induction false} FoldsInPlace(s: string)
    ensures SameButCase(ToLower(s), s) && ToLower(ToLower(s)) == ToLower(s)
  {
    LowerIdempotent(s);
  }

  lemma {:induction false} LowerStaysTrimmed(s: string)
    requires Trimmed(s)
    ensures Trimmed(ToLower(s))
  {
  }

  /** The case of an address does not matter to the lookup. */
  lemma {:induction false} LookupIgnoresCase(c: Config, a: string, b: string)
    requires SameButCase(a, b)
    ensures LookupRoute(c, a) == LookupRoute(c, b)
  {
    hide ToLower;
    CaseFolds(a, b);
  }

  /** A route listed for a domain serves every address of that domain, in every case, that
      has no route of its own. */
  lemma {:induction false} DomainRouteIsFound(c: Config, i: nat, local: string, domain: string)
    requires Loaded(Prepared(c)) && i < |c.routes| && c.routes[i].match_ == Domain
    requires Free(domain, '@') && SameButCase(domain, c.routes[i].recipient)
    requires forall j :: 0 <= j < |c.routes| && c.routes[j].match_ != Domain ==>
               !SameButCase(c.routes[j].recipient, local + ("@" + domain))
    ensures LookupRoute(Prepared(c), local + ("@" + domain)) == Some(NormRoute(c.routes[i]))
  {
    hide RouteFaults, RouteTable, LookupRoute, ToLower, Loaded, Has;
    var p, addr := Prepared(c), local + ("@" + domain);
    var a := ToLower(addr);
    assert p.routes[i] == NormRoute(c.routes[i]);
    CaseFolds(domain, c.routes[i].recipient);
    LoweredAddress(local, domain);
    assert !Has(p.routes, Address, a) by { NoOwnRoute(c, addr); }
    LookupAgreesWithScan(p, addr, p.routes[i]);
  }

  lemma {:induction false} LoweredAddress(local: string, domain: string)
    requires Free(domain, '@')
    ensures var a := ToLower(local + ("@" + domain));
            LastIndex(a, '@') == |local| && a[|local| + 1..] == ToLower(domain)
  {
    hide LastIndex;
    var s := local + ("@" + domain);
    var a := ToLower(s);
    assert a[|local|] == '@' && forall k :: |local| < k < |s| ==> a[k] == LowerChar(domain[k - |local| - 1]);
    assert forall k :: 0 <= k < |domain| ==> LowerChar(domain[k]) != '@';
    assert a[|local| + 1..] == ToLower(domain);
  }

  lemma {:induction false} NoOwnRoute(c: Config, addr: string)
    requires forall j :: 0 <= j < |c.routes| && c.routes[j].match_ != Domain ==>
               !SameButCase(c.routes[j].recipient, addr)
    ensures !Has(Prepared(c).routes, Address, ToLower(addr))
  {
    hide ToLower, RouteTable;
    var rs := Prepared(c).routes;
    if Has(rs, Address, ToLower(addr)) {
      var r :| r in rs && r.match_ == Address && r.recipient == ToLower(addr);
      var j: nat :| j < |rs| && rs[j] == r;
      assert r == NormRoute(c.routes[j]);
      CaseFolds(c.routes[j].recipient, addr);
    }
  }

  // ---- What Validate accepts ----

  /** A route that no check objects to. */
  predicate SoundRoute(r: Route) {
    && r.recipient != "" && r.timeoutSec > 0
    && (match r.kind
        case CommandRoute(path) => path != ""
        case WebhookRoute(url, secret) => ("https://" <= url || "http://" <= url) && secret != ""
        case ForwardRoute(host, port) => host != "" && 1 <= port <= 65535
        case Unrouted => false)
  }

  lemma {:induction false} FaultsOfSound(r: Route, i: nat, repeated: bool)
    ensures FaultsOf(r, i, repeated) == [] <==> !repeated && SoundRoute(r)
  {
  }

  lemma {:induction false} FaultFreeUpTo(rs: seq<Route>, n: nat)
    requires n <= |rs|
    ensures RouteFaults(rs, n) == [] <==> rs != [] && forall i :: 0 <= i < n ==> !Repeats(rs, i) && SoundRoute(rs[i])
  {
    hide FaultsOf, SoundRoute, Repeats;
    if n > 0 {
      FaultFreeUpTo(rs, n - 1);
      FaultsOfSound(rs[n - 1], n - 1, Repeats(rs, n - 1));
    }
  }

  /** The routes pass iff there is one, each is sound, and no two have the same match type
      and recipient. */
  lemma {:induction false} FaultFreeIff(rs: seq<Route>)
    ensures RouteFaults(rs, |rs|) == [] <==>
            rs != [] && (forall i :: 0 <= i < |rs| ==> SoundRoute(rs[i]))
            && forall i, j :: 0 <= i < j < |rs| ==>
                 rs[i].match_ != rs[j].match_ || rs[i].recipient != rs[j].recipient
  {
    hide RouteFaults, SoundRoute;
    FaultFreeUpTo(rs, |rs|);
    forall i, j | 0 <= i < j < |rs|
      ensures KeyOf(rs[i]) == KeyOf(rs[j]) <==> rs[i].match_ == rs[j].match_ && rs[i].recipient == rs[j].recipient
    {
    }
  }

  datatype RetryFault = IntervalNotPositive | ExpiryNotLonger | NoEntries | NoBytes

  /** The checks on the retry section, made only when it is enabled. */
  function RetryFaults(r: Retry): seq<RetryFault> {
    if !r.enabled then []
    else
      (if r.intervalSec <= 0 then [IntervalNotPositive] else [])
      + (if r.expireSec <= r.intervalSec then [ExpiryNotLonger] else [])
      + (if r.maxEntries <= 0 then [NoEntries] else [])
      + (if r.maxBytes <= 0 then [NoBytes] else [])
  }

  /** The retry section passes iff it is switched off, or the interval is positive, the
      expiry is longer, and both limits leave room. */
  lemma {:induction false} ValidRetryIff(r: Retry)
    ensures RetryFaults(r) == [] <==> ValidRetry(r)
  {
  }

  /** Of several routes with one match type and recipient, the maps hold the last. */
  lemma {:induction false} LastRouteWins(rs: seq<Route>, kind: MatchType, i: nat)
    requires i < |rs| && rs[i].match_ == kind
    requires forall j :: i < j < |rs| ==> rs[j].match_ != kind || rs[j].recipient != rs[i].recipient
    ensures rs[i].recipient in RouteTable(rs, kind) && RouteTable(rs, kind)[rs[i].recipient] == rs[i]
  {
    var n := |rs| - 1;
    if i < n {
      LastRouteWins(rs[..n], kind, i);
    }
  }
}
