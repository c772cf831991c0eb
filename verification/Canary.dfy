// Canary Ingresses: which primary each is consolidated into, and that consolidation
// neither loses nor repeats a rule.
module Canary {
  import opened Text
  import opened Sorting
  import opened Routes
  import opened Claims

  // ---------- Footprints ----------

  const NUL: string := "\0"

  function PathOf(p: PathRule): string {
    if p.path == "" then "/" else p.path
  }

  function Footprint(host: string, path: string): string {
    host + NUL + path
  }

  /** Hosts hold no NUL, which is what makes the footprint string unambiguous. */
  predicate NoNul(ing: Routed) {
    forall i | 0 <= i < |ing.rules| :: '\0' !in HostOf(ing.rules[i])
  }

  ghost function PathFootprints(host: string, paths: seq<PathRule>): set<string> {
    set p | p in paths :: Footprint(host, PathOf(p))
  }

  ghost function RuleFootprints(rules: seq<Rule>, n: nat): set<string>
    requires n <= |rules|
  {
    if n == 0 then {}
    else if rules[n - 1].paths.None? then RuleFootprints(rules, n - 1)
    else RuleFootprints(rules, n - 1) + PathFootprints(HostOf(rules[n - 1]), rules[n - 1].paths.value)
  }

  /** The host and path pairs an Ingress declares. */
  ghost function Footprints(ing: Routed): set<string> {
    RuleFootprints(ing.rules, |ing.rules|) + if ing.defaultBackend.Some? then {Footprint("", "/")} else {}
  }

  method RouteFootprints(ing: Routed) returns (result: set<string>)
    ensures result == Footprints(ing)
  {
    result := {};
    for i := 0 to |ing.rules|
      invariant result == RuleFootprints(ing.rules, i)
    {
      if ing.rules[i].paths.None? {
        continue;
      }
      result := AddFootprints(result, Normalise(ing.rules[i].host), ing.rules[i].paths.value);
    }
    if ing.defaultBackend.Some? {
      result := result + {Footprint("", "/")};
    }
  }

  method AddFootprints(before: set<string>, host: string, paths: seq<PathRule>) returns (result: set<string>)
    ensures result == before + PathFootprints(host, paths)
  {
    result := before;
    for j := 0 to |paths|
      invariant result == before + PathFootprints(host, paths[..j])
    {
      FootprintsSnoc(host, paths, j);
      result := result + {Footprint(host, PathOf(paths[j]))};
    }
    assert paths[..|paths|] == paths;
  }

  lemma FootprintsSnoc(host: string, paths: seq<PathRule>, n: nat)
    requires n < |paths|
    ensures PathFootprints(host, paths[..n + 1]) == PathFootprints(host, paths[..n]) + {Footprint(host, PathOf(paths[n]))}
  {
    assert paths[..n + 1] == paths[..n] + [paths[n]];
  }

  // ---------- Assignment ----------

  /** Older first; names break ties. */
  predicate Older(a: Routed, b: Routed) {
    a.created < b.created || (a.created == b.created && Less(a.name, b.name))
  }

  ghost predicate Candidate(ings: seq<Routed>, canary: Routed, primary: Routed) {
    primary in ings && !primary.canary && Footprints(canary) <= Footprints(primary)
  }

  /** The primary of a canary: the oldest one declaring everything the canary declares. */
  ghost predicate PrimaryOf(ings: seq<Routed>, canary: Routed, primary: Routed) {
    && Footprints(canary) != {} && Candidate(ings, canary, primary)
    && forall other | Candidate(ings, canary, other) && other.name != primary.name :: Older(primary, other)
  }

  ghost predicate DistinctIngresses(ings: seq<Routed>) {
    forall i, j | 0 <= i < j < |ings| :: ings[i].name != ings[j].name
  }

  /** Insertion sort by age. */
  function InsertOlder(x: Routed, xs: seq<Routed>): seq<Routed> {
    if xs == [] || Older(x, xs[0]) then [x] + xs else [xs[0]] + InsertOlder(x, xs[1..])
  }

  function ByAge(xs: seq<Routed>): seq<Routed> {
    if xs == [] then [] else InsertOlder(xs[0], ByAge(xs[1..]))
  }

  ghost predicate LeadsByAge(xs: seq<Routed>, first: Routed) {
    first in xs && forall x | x in xs && x.name != first.name :: Older(first, x)
  }

  lemma OlderTotal(a: Routed, b: Routed)
    requires a.name != b.name
    ensures Older(a, b) || Older(b, a)
    ensures !(Older(a, b) && Older(b, a))
  {
    LessTotal(a.name, b.name);
  }

  lemma OlderTransitive(a: Routed, b: Routed, c: Routed)
    requires Older(a, b) && Older(b, c)
    ensures Older(a, c)
  {
    if Less(a.name, b.name) && Less(b.name, c.name) {
      LessTransitive(a.name, b.name, c.name);
    }
  }

  lemma {:induction false} InsertMembers(x: Routed, xs: seq<Routed>)
    ensures forall y :: y in InsertOlder(x, xs) <==> y == x || y in xs
  {
    if xs != [] && !Older(x, xs[0]) {
      InsertMembers(x, xs[1..]);
      assert forall y :: y in xs <==> y == xs[0] || y in xs[1..];
    }
  }

  lemma {:induction false} ByAgeLeads(xs: seq<Routed>)
    requires DistinctIngresses(xs)
    ensures forall y :: y in ByAge(xs) <==> y in xs
    ensures xs != [] ==> ByAge(xs) != [] && LeadsByAge(xs, ByAge(xs)[0])
  {
    if xs != [] {
      var x, rest := xs[0], xs[1..];
      ByAgeLeads(rest);
      InsertMembers(x, ByAge(rest));
      assert forall y :: y in xs <==> y == x || y in rest;
      assert x in ByAge(xs);
      if rest != [] {
        InsertLeads(x, rest, ByAge(rest));
      }
    }
  }

  lemma InsertLeads(x: Routed, rest: seq<Routed>, sorted: seq<Routed>)
    requires sorted != [] && LeadsByAge(rest, sorted[0]) && forall y | y in rest :: y.name != x.name
    requires forall y | y in rest :: y.name == sorted[0].name ==> y == sorted[0]
    ensures LeadsByAge([x] + rest, InsertOlder(x, sorted)[0])
  {
    var first := sorted[0];
    OlderTotal(x, first);
    forall y | y in [x] + rest && y.name != InsertOlder(x, sorted)[0].name ensures Older(InsertOlder(x, sorted)[0], y) {
      if Older(x, first) && y.name != first.name && y in rest {
        OlderTransitive(x, first, y);
      }
    }
  }

  /** The candidates among the first n primaries, in list order. */
  ghost function CandidatesFirst(ings: seq<Routed>, canary: Routed, n: nat): seq<Routed>
    requires n <= |ings|
  {
    if n == 0 then []
    else if Candidate(ings, canary, ings[n - 1]) then CandidatesFirst(ings, canary, n - 1) + [ings[n - 1]]
    else CandidatesFirst(ings, canary, n - 1)
  }

  lemma {:induction false} CandidatesMembers(ings: seq<Routed>, canary: Routed, n: nat)
    requires n <= |ings| && DistinctIngresses(ings)
    ensures DistinctIngresses(CandidatesFirst(ings, canary, n))
    ensures forall x :: x in CandidatesFirst(ings, canary, n) <==> Candidate(ings, canary, x) && x in ings[..n]
  {
    if n > 0 {
      CandidatesMembers(ings, canary, n - 1);
      assert ings[..n] == ings[..n - 1] + [ings[n - 1]];
      var before := CandidatesFirst(ings, canary, n - 1);
      forall i | 0 <= i < |before| ensures before[i].name != ings[n - 1].name {
        assert before[i] in before;
      }
    }
  }

  ghost predicate PrimaryNamed(ings: seq<Routed>, canary: Routed, name: string) {
    exists p :: PrimaryOf(ings, canary, p) && p.name == name
  }

  /** A canary among the first n, by name. */
  ghost predicate CanaryAt(ings: seq<Routed>, n: nat, i: int, name: string)
    requires n <= |ings|
  {
    0 <= i < n && ings[i].canary && ings[i].name == name
  }

  ghost predicate Assigned(ings: seq<Routed>, n: nat, canary: string, name: string)
    requires n <= |ings|
  {
    exists i :: CanaryAt(ings, n, i, canary) && PrimaryNamed(ings, ings[i], name)
  }

  predicate Gives(assignments: map<string, string>, canary: string, name: string) {
    canary in assignments && assignments[canary] == name
  }

  /** Exactly the canaries among the first n that have a primary are assigned, each to its primary. */
  ghost predicate Assigns(ings: seq<Routed>, n: nat, assignments: map<string, string>)
    requires n <= |ings|
  {
    forall c, name :: Assigned(ings, n, c, name) <==> Gives(assignments, c, name)
  }

  method OldestPrimary(ings: seq<Routed>, canary: Routed) returns (primary: Option<Routed>)
    requires DistinctIngresses(ings)
    ensures primary.Some? ==> PrimaryOf(ings, canary, primary.value)
    ensures primary.None? ==> forall p :: !PrimaryOf(ings, canary, p)
  {
    var footprints := RouteFootprints(canary);
    if footprints == {} {
      return None;
    }
    var candidates := [];
    for i := 0 to |ings|
      invariant candidates == CandidatesFirst(ings, canary, i)
    {
      if !ings[i].canary {
        var theirs := RouteFootprints(ings[i]);
        if footprints <= theirs {
          candidates := candidates + [ings[i]];
        }
      }
    }
    CandidatesMembers(ings, canary, |ings|);
    assert ings[..|ings|] == ings;
    ByAgeLeads(candidates);
    primary := if candidates == [] then None else Some(ByAge(candidates)[0]);
  }

  method CanaryAssignments(ings: seq<Routed>) returns (assignments: map<string, string>)
    requires DistinctIngresses(ings)
    ensures Assigns(ings, |ings|, assignments)
  {
    assignments := map[];
    for i := 0 to |ings|
      invariant Assigns(ings, i, assignments)
    {
      var primary := None;
      if ings[i].canary {
        primary := OldestPrimary(ings, ings[i]);
      }
      AssignStep(ings, i, assignments, primary);
      if primary.Some? {
        assignments := assignments[ings[i].name := primary.value.name];
      }
    }
  }

  lemma PrimaryUnique(ings: seq<Routed>, canary: Routed, a: Routed, b: Routed)
    requires DistinctIngresses(ings) && PrimaryOf(ings, canary, a) && PrimaryOf(ings, canary, b)
    ensures a == b
  {
    if a.name != b.name {
      OlderTotal(a, b);
    }
    var i :| 0 <= i < |ings| && ings[i] == a;
    var j :| 0 <= j < |ings| && ings[j] == b;
  }

  lemma NamedUnique(ings: seq<Routed>, canary: Routed, primary: Routed, name: string)
    requires DistinctIngresses(ings) && PrimaryOf(ings, canary, primary)
    ensures PrimaryNamed(ings, canary, name) <==> name == primary.name
  {
    if PrimaryNamed(ings, canary, name) {
      var p :| PrimaryOf(ings, canary, p) && p.name == name;
      PrimaryUnique(ings, canary, p, primary);
    }
  }

  lemma AssignStep(ings: seq<Routed>, n: nat, m: map<string, string>, primary: Option<Routed>)
    requires n < |ings| && DistinctIngresses(ings) && Assigns(ings, n, m)
    requires primary.Some? ==> ings[n].canary && PrimaryOf(ings, ings[n], primary.value)
    requires primary.None? ==> !ings[n].canary || forall p :: !PrimaryOf(ings, ings[n], p)
    ensures Assigns(ings, n + 1, if primary.Some? then m[ings[n].name := primary.value.name] else m)
  {
    var after := if primary.Some? then m[ings[n].name := primary.value.name] else m;
    forall c, name ensures Assigned(ings, n + 1, c, name) <==> Gives(after, c, name) {
      AssignedNext(ings, n, primary, c, name);
      assert Assigned(ings, n, c, name) <==> Gives(m, c, name);
    }
  }

  lemma AssignedNext(ings: seq<Routed>, n: nat, primary: Option<Routed>, c: string, name: string)
    requires n < |ings| && DistinctIngresses(ings)
    requires primary.Some? ==> ings[n].canary && PrimaryOf(ings, ings[n], primary.value)
    requires primary.None? ==> !ings[n].canary || forall p :: !PrimaryOf(ings, ings[n], p)
    ensures Assigned(ings, n + 1, c, name) <==>
            Assigned(ings, n, c, name) || (primary.Some? && c == ings[n].name && name == primary.value.name)
    ensures Assigned(ings, n, c, name) ==> c != ings[n].name
  {
    if Assigned(ings, n, c, name) {
      var i :| CanaryAt(ings, n, i, c) && PrimaryNamed(ings, ings[i], name);
      assert CanaryAt(ings, n + 1, i, c);
    }
    if Assigned(ings, n + 1, c, name) {
      var i :| CanaryAt(ings, n + 1, i, c) && PrimaryNamed(ings, ings[i], name);
      if i < n {
        assert CanaryAt(ings, n, i, c);
      } else {
        NamedUnique(ings, ings[n], primary.value, name);
      }
    }
    if primary.Some? && c == ings[n].name && name == primary.value.name {
      assert CanaryAt(ings, n + 1, n, c);
    }
  }

  lemma SamePrimary(a: seq<Routed>, b: seq<Routed>, canary: Routed, name: string)
    requires Elements(a) == Elements(b) && PrimaryNamed(a, canary, name)
    ensures PrimaryNamed(b, canary, name)
  {
    var p :| PrimaryOf(a, canary, p) && p.name == name;
    forall x ensures Candidate(a, canary, x) <==> Candidate(b, canary, x) {
      assert x in a <==> x in Elements(a);
      assert x in b <==> x in Elements(b);
    }
    assert PrimaryOf(b, canary, p);
  }

  lemma AssignedAlike(a: seq<Routed>, b: seq<Routed>, c: string, name: string)
    requires Elements(a) == Elements(b) && Assigned(a, |a|, c, name)
    ensures Assigned(b, |b|, c, name)
  {
    var i :| CanaryAt(a, |a|, i, c) && PrimaryNamed(a, a[i], name);
    assert a[i] in Elements(a);
    var j :| 0 <= j < |b| && b[j] == a[i];
    SamePrimary(a, b, a[i], name);
    assert CanaryAt(b, |b|, j, c);
  }

  /** The assignment does not depend on the order the Ingresses are listed in. */
  lemma AssignmentOrderIndependent(a: seq<Routed>, b: seq<Routed>, m: map<string, string>, n: map<string, string>)
    requires Elements(a) == Elements(b)
    requires Assigns(a, |a|, m) && Assigns(b, |b|, n)
    ensures m == n
  {
    forall c, name ensures Assigned(a, |a|, c, name) <==> Assigned(b, |b|, c, name) {
      if Assigned(a, |a|, c, name) {
        AssignedAlike(a, b, c, name);
      }
      if Assigned(b, |b|, c, name) {
        AssignedAlike(b, a, c, name);
      }
    }
    forall c
      ensures c in m ==> c in n && n[c] == m[c]
      ensures c in n ==> c in m && m[c] == n[c]
    {
      assert c in m ==> Gives(m, c, m[c]);
      assert c in n ==> Gives(n, c, n[c]);
    }
  }

  // ---------- Consolidation ----------

  /** A canary under its primary's annotations, of which routing reads the aliases and the regex switch. */
  function Inherited(primary: Routed, canary: Routed): Routed {
    canary.(serverAlias := primary.serverAlias, regex := primary.regex)
  }

  datatype PathMatch = MatchExact | MatchPrefix | MatchRegex

  /** A rule of an application route: the Ingress it comes from, what it matches, and its backend. */
  datatype RouteRule = RouteRule(source: string, kind: PathMatch, path: string, header: Option<HeaderMatch>, backend: string)

  datatype AppRoute = AppRoute(hostname: string, rules: seq<RouteRule>)

  function RuleFor(ing: Routed, p: PathRule): RouteRule {
    RouteRule(ing.name, if ing.regex then MatchRegex else if p.pathType.Exact? then MatchExact else MatchPrefix,
              PathOf(p), if ing.canary then ing.header else None, p.backend)
  }

  function RulesOf(ing: Routed, paths: seq<PathRule>): seq<RouteRule> {
    seq(|paths|, i requires 0 <= i < |paths| => RuleFor(ing, paths[i]))
  }

  function RulesAt(ing: Routed, host: string): seq<RouteRule> {
    if host in Hosts(ing) then RulesOf(ing, PathsAt(ing, host)) else []
  }

  function Concat(parts: seq<seq<RouteRule>>, n: nat): seq<RouteRule>
    requires n <= |parts|
  {
    if n == 0 then [] else Concat(parts, n - 1) + parts[n - 1]
  }

  function CanaryParts(primary: Routed, canaries: seq<Routed>, host: string): seq<seq<RouteRule>> {
    seq(|canaries|, i requires 0 <= i < |canaries| => RulesAt(Inherited(primary, canaries[i]), host))
  }

  /** What the first n canaries add to a route. */
  function CanaryRules(primary: Routed, canaries: seq<Routed>, n: nat, host: string): seq<RouteRule>
    requires n <= |canaries|
  {
    Concat(CanaryParts(primary, canaries, host), n)
  }

  function RouteAt(primary: Routed, canaries: seq<Routed>, host: string): AppRoute {
    AppRoute(host, RulesOf(primary, PathsAt(primary, host)) + CanaryRules(primary, canaries, |canaries|, host))
  }

  function AppRoutes(primary: Routed, canaries: seq<Routed>): seq<AppRoute> {
    seq(|Hosts(primary)|, i requires 0 <= i < |Hosts(primary)| => RouteAt(primary, canaries, Hosts(primary)[i]))
  }

  function RulesFor(byHost: map<string, seq<RouteRule>>, host: string): seq<RouteRule> {
    if host in byHost then byHost[host] else []
  }

  method BuildRules(ing: Routed, paths: seq<PathRule>, before: seq<RouteRule>) returns (rules: seq<RouteRule>)
    ensures rules == before + RulesOf(ing, paths)
  {
    rules := before;
    for i := 0 to |paths|
      invariant rules == before + RulesOf(ing, paths[..i])
    {
      rules := rules + [RuleFor(ing, paths[i])];
    }
    assert paths[..|paths|] == paths;
  }

  /** The rules of the first n canaries are under the hosts they route, and their claims are made. */
  ghost predicate Gathered(primary: Routed, canaries: seq<Routed>, n: nat, byHost: map<string, seq<RouteRule>>, claims: Ledger)
    requires n <= |canaries|
  {
    && (forall h :: RulesFor(byHost, h) == CanaryRules(primary, canaries, n, h))
    && claims == ClaimedBy(primary, canaries, n)
  }

  ghost predicate Follows(canary: Routed, before: map<string, seq<RouteRule>>, claims0: Ledger,
                          byHost: map<string, seq<RouteRule>>, claims: Ledger) {
    && (forall h :: RulesFor(byHost, h) == RulesFor(before, h) + RulesAt(canary, h))
    && claims == ClaimAll(claims0, canary.name, CollectedFootprints(canary))
  }

  lemma GatheredNext(primary: Routed, canaries: seq<Routed>, n: nat, before: map<string, seq<RouteRule>>, claims0: Ledger,
                     byHost: map<string, seq<RouteRule>>, claims: Ledger)
    requires n < |canaries| && Gathered(primary, canaries, n, before, claims0)
    requires Follows(Inherited(primary, canaries[n]), before, claims0, byHost, claims)
    ensures Gathered(primary, canaries, n + 1, byHost, claims)
  {
    NextClaims(primary, canaries, n);
    forall h ensures RulesFor(byHost, h) == CanaryRules(primary, canaries, n + 1, h) {
      assert CanaryRules(primary, canaries, n + 1, h) ==
             CanaryRules(primary, canaries, n, h) + RulesAt(Inherited(primary, canaries[n]), h);
    }
  }

  /** Every canary's rules under the hosts it routes, in the order of the canaries, and the clashes among them. */
  method CanariesByHost(primary: Routed, canaries: seq<Routed>, given: Option<set<string>>)
    returns (byHost: map<string, seq<RouteRule>>, claims: Ledger)
    ensures Gathered(primary, canaries, |canaries|, byHost, claims)
  {
    byHost, claims := map[], EMPTY;
    for i := 0 to |canaries|
      invariant Gathered(primary, canaries, i, byHost, claims)
    {
      ghost var before, claims0 := byHost, claims;
      byHost, claims := CollectCanary(Inherited(primary, canaries[i]), byHost, claims, given);
      GatheredNext(primary, canaries, i, before, claims0, byHost, claims);
    }
  }

  method CollectCanary(canary: Routed, before: map<string, seq<RouteRule>>, claims0: Ledger, given: Option<set<string>>)
    returns (byHost: map<string, seq<RouteRule>>, claims: Ledger)
    ensures Follows(canary, before, claims0, byHost, claims)
  {
    var inputs, issues := CollectHosts(canary, given);
    InputsCollected(canary, TLSHostsFor(canary, given));
    byHost := AddCanary(canary, before, inputs);
    claims := ClaimInputs(canary, claims0, inputs);
  }

  /** The inputs are what is collected from the Ingress. */
  ghost predicate CollectedFrom(ing: Routed, inputs: seq<HostInput>) {
    |inputs| == |Hosts(ing)| &&
    forall i | 0 <= i < |inputs| :: inputs[i].hostname == Hosts(ing)[i] && inputs[i].paths == PathsAt(ing, Hosts(ing)[i])
  }

  lemma InputsCollected(ing: Routed, tlsHosts: set<string>)
    ensures CollectedFrom(ing, InputsOf(ing, tlsHosts))
  {
  }

  method AddCanary(canary: Routed, before: map<string, seq<RouteRule>>, inputs: seq<HostInput>)
    returns (byHost: map<string, seq<RouteRule>>)
    requires CollectedFrom(canary, inputs)
    ensures forall h :: RulesFor(byHost, h) == RulesFor(before, h) + RulesAt(canary, h)
  {
    byHost := before;
    for j := 0 to |inputs|
      invariant Added(canary, before, byHost, j)
    {
      var host := inputs[j].hostname;
      var rules := BuildRules(canary, inputs[j].paths, RulesFor(byHost, host));
      AddedStep(canary, before, byHost, j);
      byHost := byHost[host := rules];
    }
    AddedAll(canary, before, byHost);
  }

  // ---------- Clashes ----------

  function FootprintList(host: string, paths: seq<PathRule>): seq<string> {
    seq(|paths|, i requires 0 <= i < |paths| => Footprint(host, PathOf(paths[i])))
  }

  function ListAt(ing: Routed, host: string): seq<string> {
    FootprintList(host, PathsAt(ing, host))
  }

  /** The footprints collected from an Ingress, host by host. */
  function FootprintLists(ing: Routed): seq<seq<string>> {
    seq(|Hosts(ing)|, i requires 0 <= i < |Hosts(ing)| => ListAt(ing, Hosts(ing)[i]))
  }

  function CollectedFootprints(ing: Routed): seq<string> {
    JoinedLists(FootprintLists(ing), |Hosts(ing)|)
  }

  function NamesOf(ings: seq<Routed>): seq<string> {
    seq(|ings|, i requires 0 <= i < |ings| => ings[i].name)
  }

  /** What each canary collects under the primary. */
  function CollectedBy(primary: Routed, canaries: seq<Routed>): seq<seq<string>> {
    seq(|canaries|, i requires 0 <= i < |canaries| => CollectedFootprints(Inherited(primary, canaries[i])))
  }

  /** The first n canaries have claimed their footprints. */
  function ClaimedBy(primary: Routed, canaries: seq<Routed>, n: nat): Ledger
    requires n <= |canaries|
  {
    ClaimLists(NamesOf(canaries), CollectedBy(primary, canaries), n)
  }

  lemma NextClaims(primary: Routed, canaries: seq<Routed>, n: nat)
    requires n < |canaries|
    ensures ClaimedBy(primary, canaries, n + 1) ==
            ClaimAll(ClaimedBy(primary, canaries, n), canaries[n].name, CollectedFootprints(Inherited(primary, canaries[n])))
  {
  }

  /** The ledger after each of the inputs. */
  lemma InputHistory(canary: Routed, before: Ledger, inputs: seq<HostInput>) returns (states: seq<Ledger>)
    requires CollectedFrom(canary, inputs)
    ensures |states| == |inputs| + 1 && states[0] == before
    ensures states[|inputs|] == ClaimAll(before, canary.name, CollectedFootprints(canary))
    ensures forall j | 0 <= j < |inputs| ::
              states[j + 1] == ClaimAll(states[j], canary.name, FootprintList(inputs[j].hostname, inputs[j].paths))
  {
    var lists := FootprintLists(canary);
    states := ClaimHistory(before, canary.name, lists);
    forall j | 0 <= j < |inputs| ensures lists[j] == FootprintList(inputs[j].hostname, inputs[j].paths) {}
  }

  method ClaimInputs(canary: Routed, before: Ledger, inputs: seq<HostInput>) returns (claims: Ledger)
    requires CollectedFrom(canary, inputs)
    ensures claims == ClaimAll(before, canary.name, CollectedFootprints(canary))
  {
    claims := before;
    ghost var states := InputHistory(canary, before, inputs);
    for j := 0 to |inputs|
      invariant claims == states[j]
    {
      claims := ClaimPaths(canary.name, claims, inputs[j]);
    }
  }

  method ClaimPaths(name: string, before: Ledger, input: HostInput) returns (claims: Ledger)
    ensures claims == ClaimAll(before, name, FootprintList(input.hostname, input.paths))
  {
    claims := before;
    ghost var list := FootprintList(input.hostname, input.paths);
    for i := 0 to |input.paths|
      invariant claims == ClaimFirst(before, name, list, i)
    {
      claims := ClaimOne(claims, name, Footprint(input.hostname, PathOf(input.paths[i])));
    }
  }

  // ---------- What the clashes mean ----------

  /** No host of the Ingress holds a NUL. */
  predicate PlainHosts(ing: Routed) {
    forall i | 0 <= i < |Hosts(ing)| :: '\0' !in Hosts(ing)[i]
  }

  /** The Ingress routes the host and has a path for it. */
  ghost predicate Collects(ing: Routed, host: string, path: string) {
    host in Hosts(ing) && exists p :: p in PathsAt(ing, host) && PathOf(p) == path
  }

  lemma ListMembers(host: string, paths: seq<PathRule>, f: string)
    ensures f in FootprintList(host, paths) <==> exists p :: p in paths && Footprint(host, PathOf(p)) == f
  {
    if p :| p in paths && Footprint(host, PathOf(p)) == f {
      var i :| 0 <= i < |paths| && paths[i] == p;
      assert FootprintList(host, paths)[i] == f;
    }
  }

  lemma CollectsFootprint(ing: Routed, host: string, path: string)
    requires Collects(ing, host, path)
    ensures Footprint(host, path) in CollectedFootprints(ing)
  {
    var i :| 0 <= i < |Hosts(ing)| && Hosts(ing)[i] == host;
    ListMembers(host, PathsAt(ing, host), Footprint(host, path));
    JoinedListMembers(FootprintLists(ing), |Hosts(ing)|, Footprint(host, path));
    assert FootprintLists(ing)[i] == ListAt(ing, host);
  }

  lemma FootprintCollected(ing: Routed, f: string) returns (host: string, path: string)
    requires f in CollectedFootprints(ing)
    ensures Collects(ing, host, path) && f == Footprint(host, path)
  {
    JoinedListMembers(FootprintLists(ing), |Hosts(ing)|, f);
    var i :| 0 <= i < |Hosts(ing)| && f in FootprintLists(ing)[i];
    host := Hosts(ing)[i];
    ListMembers(host, PathsAt(ing, host), f);
    var p :| p in PathsAt(ing, host) && Footprint(host, PathOf(p)) == f;
    path := PathOf(p);
  }

  /** Canaries i and j, in this order, both have the path for the host. */
  ghost predicate Contend(primary: Routed, canaries: seq<Routed>, i: int, j: int, host: string, path: string) {
    && 0 <= i < j < |canaries|
    && Collects(Inherited(primary, canaries[i]), host, path) && Collects(Inherited(primary, canaries[j]), host, path)
  }

  lemma PlainHost(ing: Routed, host: string)
    requires PlainHosts(ing) && host in Hosts(ing)
    ensures '\0' !in host
  {
  }

  lemma SharedContend(primary: Routed, canaries: seq<Routed>, i: int, j: int, f: string) returns (host: string, path: string)
    requires Shared(CollectedBy(primary, canaries), |canaries|, i, j, f)
    requires forall k | 0 <= k < |canaries| :: PlainHosts(Inherited(primary, canaries[k]))
    ensures Contend(primary, canaries, i, j, host, path)
  {
    host, path := FootprintCollected(Inherited(primary, canaries[i]), f);
    var h, p := FootprintCollected(Inherited(primary, canaries[j]), f);
    PlainHost(Inherited(primary, canaries[i]), host);
    PlainHost(Inherited(primary, canaries[j]), h);
    FootprintHost(host, path, h, p);
  }

  lemma ContendShared(primary: Routed, canaries: seq<Routed>, i: int, j: int, host: string, path: string)
    requires Contend(primary, canaries, i, j, host, path)
    ensures Shared(CollectedBy(primary, canaries), |canaries|, i, j, Footprint(host, path))
  {
    CollectsFootprint(Inherited(primary, canaries[i]), host, path);
    CollectsFootprint(Inherited(primary, canaries[j]), host, path);
  }

  /** Translation raises a clash exactly when two of the canaries have one path for one host. */
  lemma ClashExactly(primary: Routed, canaries: seq<Routed>)
    requires DistinctIngresses(canaries) && forall k | 0 <= k < |canaries| :: PlainHosts(Inherited(primary, canaries[k]))
    ensures ClaimedBy(primary, canaries, |canaries|).clashes != [] <==>
            exists i, j, host, path :: Contend(primary, canaries, i, j, host, path)
  {
    ClashesExactly(NamesOf(canaries), CollectedBy(primary, canaries), |canaries|);
    if i, j, f :| Shared(CollectedBy(primary, canaries), |canaries|, i, j, f) {
      var host, path := SharedContend(primary, canaries, i, j, f);
    }
    if i, j, host, path :| Contend(primary, canaries, i, j, host, path) {
      ContendShared(primary, canaries, i, j, host, path);
      assert Shared(CollectedBy(primary, canaries), |canaries|, i, j, Footprint(host, path));
    }
  }

  /** A clash names two canaries that have one path for one host, the one listed earlier first. */
  lemma ClashNames(primary: Routed, canaries: seq<Routed>, clash: Clash)
    requires DistinctIngresses(canaries) && forall k | 0 <= k < |canaries| :: PlainHosts(Inherited(primary, canaries[k]))
    requires clash in ClaimedBy(primary, canaries, |canaries|).clashes
    ensures exists i, j, host, path :: Contend(primary, canaries, i, j, host, path) &&
              clash == Clash(canaries[i].name, canaries[j].name)
  {
    var i, j, f := ClashBetween(NamesOf(canaries), CollectedBy(primary, canaries), |canaries|, clash);
    var host, path := SharedContend(primary, canaries, i, j, f);
  }

  // ---------- Collecting the canaries ----------

  /** The rules of the first n hosts have been added. */
  ghost predicate Added(canary: Routed, before: map<string, seq<RouteRule>>, byHost: map<string, seq<RouteRule>>, n: nat)
    requires n <= |Hosts(canary)|
  {
    forall h :: RulesFor(byHost, h) ==
                if h in Hosts(canary)[..n] then RulesFor(before, h) + RulesAt(canary, h) else RulesFor(before, h)
  }

  lemma AddedStep(canary: Routed, before: map<string, seq<RouteRule>>, byHost: map<string, seq<RouteRule>>, n: nat)
    requires n < |Hosts(canary)| && Added(canary, before, byHost, n)
    ensures var host := Hosts(canary)[n];
            Added(canary, before, byHost[host := RulesFor(byHost, host) + RulesOf(canary, PathsAt(canary, host))], n + 1)
  {
    var host := Hosts(canary)[n];
    var rules := RulesFor(byHost, host) + RulesOf(canary, PathsAt(canary, host));
    HostStep(canary, n);
    assert RulesFor(byHost, host) == RulesFor(before, host);
    assert RulesAt(canary, host) == RulesOf(canary, PathsAt(canary, host));
    forall h ensures RulesFor(byHost[host := rules], h) == if h == host then rules else RulesFor(byHost, h) {}
  }

  lemma HostStep(canary: Routed, n: nat)
    requires n < |Hosts(canary)|
    ensures var hosts := Hosts(canary);
            && hosts[n] in hosts && hosts[n] !in hosts[..n]
            && forall h :: h in hosts[..n + 1] <==> h in hosts[..n] || h == hosts[n]
  {
    DistinctMembers(Mentions(canary));
    var hosts := Hosts(canary);
    assert hosts[..n + 1] == hosts[..n] + [hosts[n]];
  }

  lemma AddedAll(canary: Routed, before: map<string, seq<RouteRule>>, byHost: map<string, seq<RouteRule>>)
    requires Added(canary, before, byHost, |Hosts(canary)|)
    ensures forall h :: RulesFor(byHost, h) == RulesFor(before, h) + RulesAt(canary, h)
  {
    assert Hosts(canary)[..|Hosts(canary)|] == Hosts(canary);
  }

  const MAX_RULES: nat := 16

  /** The hosts of the routes among the first n that hold more rules than a route may. */
  function CrowdedFirst(routes: seq<AppRoute>, n: nat): seq<string>
    requires n <= |routes|
  {
    if n == 0 then []
    else CrowdedFirst(routes, n - 1) + if |routes[n - 1].rules| > MAX_RULES then [routes[n - 1].hostname] else []
  }

  /** The routes, the clashes, and the hosts of routes with too many rules; clashes and crowded hosts are Errors. */
  method TranslateRoutes(primary: Routed, canaries: seq<Routed>, given: Option<set<string>>)
    returns (routes: seq<AppRoute>, clashes: seq<Clash>, crowded: seq<string>)
    ensures routes == AppRoutes(primary, canaries)
    ensures clashes == ClaimedBy(primary, canaries, |canaries|).clashes
    ensures crowded == CrowdedFirst(routes, |routes|)
  {
    var byHost, claims := CanariesByHost(primary, canaries, given);
    clashes := claims.clashes;
    var inputs, issues := CollectHosts(primary, given);
    InputsCollected(primary, TLSHostsFor(primary, given));
    forall i | 0 <= i < |inputs| ensures Builds(primary, byHost, inputs[i], AppRoutes(primary, canaries)[i]) {
      assert inputs[i].hostname == Hosts(primary)[i];
    }
    routes, crowded := BuildRoutes(primary, byHost, inputs, AppRoutes(primary, canaries));
  }

  /** The route of a collected host: the primary's rules for it, then what the canaries add. */
  ghost predicate Builds(primary: Routed, byHost: map<string, seq<RouteRule>>, input: HostInput, route: AppRoute) {
    route == AppRoute(input.hostname, RulesOf(primary, input.paths) + RulesFor(byHost, input.hostname))
  }

  method BuildRoutes(primary: Routed, byHost: map<string, seq<RouteRule>>, inputs: seq<HostInput>, ghost expected: seq<AppRoute>)
    returns (routes: seq<AppRoute>, crowded: seq<string>)
    requires |expected| == |inputs| && forall i | 0 <= i < |inputs| :: Builds(primary, byHost, inputs[i], expected[i])
    ensures routes == expected && crowded == CrowdedFirst(expected, |expected|)
  {
    routes, crowded := [], [];
    for i := 0 to |inputs|
      invariant routes == expected[..i] && crowded == CrowdedFirst(expected, i)
    {
      var route := BuildRoute(primary, byHost, inputs[i], expected[i]);
      if |route.rules| > MAX_RULES {
        crowded := crowded + [route.hostname];
      }
      routes := routes + [route];
    }
  }

  method BuildRoute(primary: Routed, byHost: map<string, seq<RouteRule>>, input: HostInput, ghost expected: AppRoute)
    returns (route: AppRoute)
    requires Builds(primary, byHost, input, expected)
    ensures route == expected
  {
    var rules := BuildRules(primary, input.paths, []);
    assert rules == RulesOf(primary, input.paths);
    route := AppRoute(input.hostname, rules + RulesFor(byHost, input.hostname));
  }

  // ---------- Conservation ----------

  function From(rules: seq<RouteRule>, source: string): seq<RouteRule> {
    if rules == [] then []
    else From(rules[..|rules| - 1], source) + if rules[|rules| - 1].source == source then [rules[|rules| - 1]] else []
  }

  lemma {:induction false} FromJoin(a: seq<RouteRule>, b: seq<RouteRule>, source: string)
    ensures From(a + b, source) == From(a, source) + From(b, source)
  {
    if b == [] {
      assert a + b == a;
    } else {
      var front, last := b[..|b| - 1], b[|b| - 1];
      FromJoin(a, front, source);
      assert a + b == (a + front) + [last];
      FromSnoc(a + front, last, source);
    }
  }

  lemma FromSnoc(rules: seq<RouteRule>, last: RouteRule, source: string)
    ensures From(rules + [last], source) == From(rules, source) + if last.source == source then [last] else []
  {
    assert (rules + [last])[..|rules|] == rules;
  }

  lemma {:induction false} FromAll(rules: seq<RouteRule>, source: string)
    requires forall i | 0 <= i < |rules| :: rules[i].source == source
    ensures From(rules, source) == rules
  {
    if rules != [] {
      var front, last := rules[..|rules| - 1], rules[|rules| - 1];
      FromAll(front, source);
      assert rules == front + [last];
    }
  }

  lemma {:induction false} FromNone(rules: seq<RouteRule>, source: string)
    requires forall i | 0 <= i < |rules| :: rules[i].source != source
    ensures From(rules, source) == []
  {
    if rules != [] {
      FromNone(rules[..|rules| - 1], source);
    }
  }

  lemma Before(a: seq<RouteRule>, b: seq<RouteRule>, source: string)
    requires From(a, source) == [] && forall i | 0 <= i < |b| :: b[i].source == source
    ensures From(a + b, source) == b
  {
    FromJoin(a, b, source);
    FromAll(b, source);
  }

  lemma After(a: seq<RouteRule>, b: seq<RouteRule>, source: string)
    requires forall i | 0 <= i < |b| :: b[i].source != source
    ensures From(a + b, source) == From(a, source)
  {
    FromJoin(a, b, source);
    FromNone(b, source);
  }

  /** Part i holds rules of source names[i] only. */
  ghost predicate Sourced(parts: seq<seq<RouteRule>>, names: seq<string>) {
    |names| == |parts| && forall i, j | 0 <= i < |parts| && 0 <= j < |parts[i]| :: parts[i][j].source == names[i]
  }

  lemma {:induction false} NoneFrom(parts: seq<seq<RouteRule>>, names: seq<string>, n: nat, source: string)
    requires n <= |parts| && Sourced(parts, names) && forall i | 0 <= i < n :: names[i] != source
    ensures From(Concat(parts, n), source) == []
  {
    if n > 0 {
      NoneFrom(parts, names, n - 1, source);
      After(Concat(parts, n - 1), parts[n - 1], source);
    }
  }

  lemma {:induction false} OneFrom(parts: seq<seq<RouteRule>>, names: seq<string>, n: nat, k: nat)
    requires k < n <= |parts| && Sourced(parts, names) && NoDuplicates(names)
    ensures From(Concat(parts, n), names[k]) == parts[k]
  {
    if k == n - 1 {
      NoneFrom(parts, names, n - 1, names[k]);
      Before(Concat(parts, n - 1), parts[n - 1], names[k]);
    } else {
      OneFrom(parts, names, n - 1, k);
      After(Concat(parts, n - 1), parts[n - 1], names[k]);
    }
  }

  lemma CanaryRulesFrom(primary: Routed, canaries: seq<Routed>, k: nat, host: string)
    requires k < |canaries| && DistinctIngresses(canaries)
    ensures From(CanaryRules(primary, canaries, |canaries|, host), canaries[k].name) ==
            RulesAt(Inherited(primary, canaries[k]), host)
  {
    var names := seq(|canaries|, i requires 0 <= i < |canaries| => canaries[i].name);
    OneFrom(CanaryParts(primary, canaries, host), names, |canaries|, k);
  }

  /** The route of a host holds, of one canary, exactly the rules collected from it for that host, in order. */
  lemma RouteHoldsCanary(primary: Routed, canaries: seq<Routed>, k: nat, i: nat)
    requires k < |canaries| && i < |Hosts(primary)| && DistinctIngresses(canaries) && primary.name != canaries[k].name
    ensures var route := AppRoutes(primary, canaries)[i];
            From(route.rules, canaries[k].name) == RulesAt(Inherited(primary, canaries[k]), route.hostname)
  {
    var host := Hosts(primary)[i];
    var own := RulesOf(primary, PathsAt(primary, host));
    FromJoin(own, CanaryRules(primary, canaries, |canaries|, host), canaries[k].name);
    FromNone(own, canaries[k].name);
    CanaryRulesFrom(primary, canaries, k, host);
  }

  lemma FootprintHost(h: string, p: string, h': string, p': string)
    requires '\0' !in h && '\0' !in h' && Footprint(h, p) == Footprint(h', p')
    ensures h == h' && p == p'
  {
    var f := Footprint(h, p);
    assert f == h + (NUL + p) && f == h' + (NUL + p');
    assert f[|h|] == '\0' && f[|h'|] == '\0';
    forall i | 0 <= i < |h| ensures f[i] != '\0' {
      assert f[i] == h[i];
    }
    forall i | 0 <= i < |h'| ensures f[i] != '\0' {
      assert f[i] == h'[i];
    }
    assert h == f[..|h|] && h' == f[..|h'|];
    assert p == f[|h| + 1..] && p' == f[|h'| + 1..];
  }

  lemma {:induction false} PathLeavesFootprint(rules: seq<Rule>, n: nat, host: string, p: PathRule)
    requires n <= |rules| && p in RulePaths(rules, n, host)
    ensures Footprint(host, PathOf(p)) in RuleFootprints(rules, n)
  {
    if rules[n - 1].paths.Some? && HostOf(rules[n - 1]) == host && p in rules[n - 1].paths.value {
    } else {
      PathLeavesFootprint(rules, n - 1, host, p);
    }
  }

  lemma {:induction false} FootprintHasHost(rules: seq<Rule>, n: nat, f: string) returns (host: string, path: string)
    requires n <= |rules| && f in RuleFootprints(rules, n)
    ensures host in RuleHosts(rules, n) && f == Footprint(host, path)
  {
    if rules[n - 1].paths.Some? && f in PathFootprints(HostOf(rules[n - 1]), rules[n - 1].paths.value) {
      var p :| p in rules[n - 1].paths.value && f == Footprint(HostOf(rules[n - 1]), PathOf(p));
      host, path := HostOf(rules[n - 1]), PathOf(p);
    } else {
      host, path := FootprintHasHost(rules, n - 1, f);
    }
  }

  lemma {:induction false} HostsHoldNoNul(rules: seq<Rule>, n: nat, host: string)
    requires n <= |rules| && host in RuleHosts(rules, n) && forall i | 0 <= i < |rules| :: '\0' !in HostOf(rules[i])
    ensures '\0' !in host
  {
    if !(rules[n - 1].paths.Some? && HostOf(rules[n - 1]) == host) {
      HostsHoldNoNul(rules, n - 1, host);
    }
  }

  lemma OwnPathLeavesFootprint(ing: Routed, host: string, p: PathRule)
    requires p in OwnPaths(ing, host)
    ensures Footprint(host, PathOf(p)) in Footprints(ing)
  {
    if p in RulePaths(ing.rules, |ing.rules|, host) {
      PathLeavesFootprint(ing.rules, |ing.rules|, host, p);
    }
  }

  lemma FootprintIsMentioned(ing: Routed, f: string) returns (host: string, path: string)
    requires f in Footprints(ing) && NoNul(ing)
    ensures host in OwnMentions(ing) && '\0' !in host && f == Footprint(host, path)
  {
    if f in RuleFootprints(ing.rules, |ing.rules|) {
      host, path := FootprintHasHost(ing.rules, |ing.rules|, f);
      HostsHoldNoNul(ing.rules, |ing.rules|, host);
    } else {
      host, path := "", "/";
    }
  }

  lemma OwnHostHoldsNoNul(ing: Routed, host: string)
    requires NoNul(ing) && host in OwnMentions(ing)
    ensures '\0' !in host
  {
    if host in RuleHosts(ing.rules, |ing.rules|) {
      HostsHoldNoNul(ing.rules, |ing.rules|, host);
    }
  }

  /** A primary routes every host its canary has a rule for, the aliases the canary inherits included. */
  lemma CanaryHostRouted(primary: Routed, canary: Routed, host: string)
    requires NoNul(primary) && NoNul(canary)
    requires Footprints(canary) != {} && Footprints(canary) <= Footprints(primary)
    requires RulesAt(Inherited(primary, canary), host) != []
    ensures host in Hosts(primary)
  {
    var effective := Inherited(primary, canary);
    DistinctMembers(Mentions(effective));
    DistinctMembers(Mentions(primary));
    if host in OwnMentions(canary) {
      var p := OwnPaths(canary, host)[0];
      OwnPathLeavesFootprint(canary, host, p);
      var h, path := FootprintIsMentioned(primary, Footprint(host, PathOf(p)));
      OwnHostHoldsNoNul(canary, host);
      FootprintHost(host, PathOf(p), h, path);
    } else {
      var f :| f in Footprints(canary);
      var h, path := FootprintIsMentioned(primary, f);
      assert host in LowerAll(AliasesOf(primary));
    }
  }

  /** Consolidating a canary into its primary keeps every rule collected from it, exactly once: one route
      has its host, and of this canary holds just these rules, in order. */
  lemma CanaryConserved(ings: seq<Routed>, primary: Routed, canaries: seq<Routed>, k: nat, host: string)
    requires k < |canaries| && DistinctIngresses(canaries) && primary.name != canaries[k].name
    requires NoNul(primary) && NoNul(canaries[k]) && PrimaryOf(ings, canaries[k], primary)
    requires RulesAt(Inherited(primary, canaries[k]), host) != []
    ensures exists i :: 0 <= i < |AppRoutes(primary, canaries)| && AppRoutes(primary, canaries)[i].hostname == host &&
                        From(AppRoutes(primary, canaries)[i].rules, canaries[k].name) ==
                        RulesAt(Inherited(primary, canaries[k]), host)
    ensures forall i, j :: 0 <= i < j < |AppRoutes(primary, canaries)| ==>
                        AppRoutes(primary, canaries)[i].hostname != AppRoutes(primary, canaries)[j].hostname
  {
    CanaryHostRouted(primary, canaries[k], host);
    DistinctMembers(Mentions(primary));
    var i :| 0 <= i < |Hosts(primary)| && Hosts(primary)[i] == host;
    RouteHoldsCanary(primary, canaries, k, i);
    assert AppRoutes(primary, canaries)[i].hostname == host;
  }

  /** A host is refused for its rules exactly when its paths and the canaries' rules for it exceed the limit. */
  lemma CrowdedExactly(primary: Routed, canaries: seq<Routed>, host: string)
    ensures host in CrowdedFirst(AppRoutes(primary, canaries), |AppRoutes(primary, canaries)|) <==>
            host in Hosts(primary) &&
            |PathsAt(primary, host)| + |CanaryRules(primary, canaries, |canaries|, host)| > 16
  {
    var routes := AppRoutes(primary, canaries);
    CrowdedMembers(routes, |routes|, host);
    if i :| CrowdedAt(routes, i, host) {
      assert Hosts(primary)[i] == host;
    }
    if host in Hosts(primary) {
      var i :| 0 <= i < |Hosts(primary)| && Hosts(primary)[i] == host;
      assert routes[i] == RouteAt(primary, canaries, host);
      assert CrowdedAt(routes, i, host) <==> |routes[i].rules| > MAX_RULES;
    }
  }

  predicate CrowdedAt(routes: seq<AppRoute>, i: int, host: string) {
    0 <= i < |routes| && routes[i].hostname == host && |routes[i].rules| > MAX_RULES
  }

  lemma {:induction false} CrowdedMembers(routes: seq<AppRoute>, n: nat, host: string)
    requires n <= |routes|
    ensures host in CrowdedFirst(routes, n) <==> exists i :: i < n && CrowdedAt(routes, i, host)
  {
    if n > 0 {
      CrowdedMembers(routes, n - 1, host);
      assert CrowdedAt(routes, n - 1, host) <==> routes[n - 1].hostname == host && |routes[n - 1].rules| > MAX_RULES;
    }
  }

  // ---------- What a rule holds ----------

  /** The rule an Ingress gives for a path: the path, "/" if it is empty, its backend, the header given, and a
      regular expression if so switched, else an exact match just for an exact path. */
  predicate Matches(r: RouteRule, source: string, p: PathRule, regex: bool, header: Option<HeaderMatch>) {
    && r.source == source && r.backend == p.backend && r.header == header
    && r.path == (if p.path == "" then "/" else p.path)
    && r.kind == (if regex then MatchRegex else if p.pathType == Exact then MatchExact else MatchPrefix)
  }

  /** The paths a canary has for a host under its primary. */
  function CollectedPaths(primary: Routed, canary: Routed, host: string): seq<PathRule> {
    if host in Hosts(Inherited(primary, canary)) then PathsAt(Inherited(primary, canary), host) else []
  }

  function Total(counts: seq<nat>, n: nat): nat
    requires n <= |counts|
  {
    if n == 0 then 0 else Total(counts, n - 1) + counts[n - 1]
  }

  function PathCounts(primary: Routed, canaries: seq<Routed>, host: string): seq<nat> {
    seq(|canaries|, i requires 0 <= i < |canaries| => |CollectedPaths(primary, canaries[i], host)|)
  }

  /** Where the rules of canary k start: after those of the primary and of the canaries before it. */
  function Offset(primary: Routed, canaries: seq<Routed>, k: nat, host: string): nat
    requires k <= |canaries|
  {
    |PathsAt(primary, host)| + Total(PathCounts(primary, canaries, host), k)
  }

  lemma {:induction false} ConcatLength(parts: seq<seq<RouteRule>>, counts: seq<nat>, n: nat)
    requires n <= |parts| == |counts| && forall i | 0 <= i < |parts| :: counts[i] == |parts[i]|
    ensures |Concat(parts, n)| == Total(counts, n)
  {
    if n > 0 {
      ConcatLength(parts, counts, n - 1);
    }
  }

  lemma {:induction false} ConcatAt(parts: seq<seq<RouteRule>>, n: nat, k: nat, b: nat)
    requires k < n <= |parts| && b < |parts[k]|
    ensures |Concat(parts, k)| + b < |Concat(parts, n)| && Concat(parts, n)[|Concat(parts, k)| + b] == parts[k][b]
  {
    if k < n - 1 {
      ConcatAt(parts, n - 1, k, b);
    }
  }

  /** The route of a host first has a rule for each of the primary's paths, with no header match. */
  lemma PrimaryRuleAt(primary: Routed, canaries: seq<Routed>, i: nat, b: nat)
    requires i < |Hosts(primary)| && !primary.canary && b < |PathsAt(primary, Hosts(primary)[i])|
    ensures var host, rules := Hosts(primary)[i], AppRoutes(primary, canaries)[i].rules;
            b < |rules| && Matches(rules[b], primary.name, PathsAt(primary, host)[b], primary.regex, None)
  {
  }

  /** Then, canary by canary, a rule for each path it has for the host, with the canary's header match and the
      primary's regex switch; and nothing else. */
  lemma CanaryRuleAt(primary: Routed, canaries: seq<Routed>, i: nat, k: nat, b: nat)
    requires i < |Hosts(primary)| && k < |canaries| && canaries[k].canary
    requires b < |CollectedPaths(primary, canaries[k], Hosts(primary)[i])|
    ensures var host, rules := Hosts(primary)[i], AppRoutes(primary, canaries)[i].rules;
            var a := Offset(primary, canaries, k, host) + b;
            && a < |rules| == Offset(primary, canaries, |canaries|, host)
            && Matches(rules[a], canaries[k].name, CollectedPaths(primary, canaries[k], host)[b], primary.regex, canaries[k].header)
  {
    var host := Hosts(primary)[i];
    CanaryPartAt(primary, canaries, host, k, b);
    PartRule(primary, canaries[k], host, b);
    RouteSplits(primary, canaries, i);
  }

  lemma RouteSplits(primary: Routed, canaries: seq<Routed>, i: nat)
    requires i < |Hosts(primary)|
    ensures var host := Hosts(primary)[i];
            exists own :: |own| == |PathsAt(primary, host)| &&
                          AppRoutes(primary, canaries)[i].rules == own + CanaryRules(primary, canaries, |canaries|, host)
  {
    var own := RulesOf(primary, PathsAt(primary, Hosts(primary)[i]));
    assert |own| == |PathsAt(primary, Hosts(primary)[i])|;
  }

  lemma ConcatCounted(parts: seq<seq<RouteRule>>, counts: seq<nat>, k: nat, b: nat, part: seq<RouteRule>)
    requires |parts| == |counts| && forall i | 0 <= i < |parts| :: counts[i] == |parts[i]|
    requires k < |parts| && part == parts[k] && b < |part|
    ensures var all := Concat(parts, |parts|);
            |all| == Total(counts, |counts|) && Total(counts, k) + b < |all| && all[Total(counts, k) + b] == part[b]
  {
    ConcatLength(parts, counts, k);
    ConcatLength(parts, counts, |counts|);
    ConcatAt(parts, |parts|, k, b);
  }

  lemma CanaryPartAt(primary: Routed, canaries: seq<Routed>, host: string, k: nat, b: nat)
    requires k < |canaries| && b < |CollectedPaths(primary, canaries[k], host)|
    ensures var rules, counts := CanaryRules(primary, canaries, |canaries|, host), PathCounts(primary, canaries, host);
            && |rules| == Total(counts, |canaries|) && Total(counts, k) + b < |rules|
            && b < |RulesAt(Inherited(primary, canaries[k]), host)|
            && rules[Total(counts, k) + b] == RulesAt(Inherited(primary, canaries[k]), host)[b]
  {
    ConcatCounted(CanaryParts(primary, canaries, host), PathCounts(primary, canaries, host), k, b,
                  RulesAt(Inherited(primary, canaries[k]), host));
  }

  lemma PartRule(primary: Routed, canary: Routed, host: string, b: nat)
    requires canary.canary && b < |CollectedPaths(primary, canary, host)|
    ensures var rules := RulesAt(Inherited(primary, canary), host);
            b < |rules| && Matches(rules[b], canary.name, CollectedPaths(primary, canary, host)[b], primary.regex, canary.header)
  {
  }

  // ---------- Which primary ----------

  /** No primary that declares what the canary does is older than the one it is assigned to, and none of the same
      age has a lesser name. */
  lemma PrimaryIsOldest(ings: seq<Routed>, canary: Routed, primary: Routed, other: Routed)
    requires DistinctIngresses(ings) && PrimaryOf(ings, canary, primary)
    requires other in ings && !other.canary && Footprints(canary) <= Footprints(other)
    ensures primary.created <= other.created
    ensures primary.created == other.created ==> primary.name == other.name || Less(primary.name, other.name)
  {
    assert Candidate(ings, canary, other);
    if other.name == primary.name {
      var i :| 0 <= i < |ings| && ings[i] == primary;
      var j :| 0 <= j < |ings| && ings[j] == other;
    }
  }
}
