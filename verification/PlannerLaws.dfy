// What a plan guarantees: every declared hostname accounted for, the two lookups
// agreeing, exact issues and grants, order independence, stickiness.
module PlannerLaws {
  import opened Text
  import opened Sorting
  import opened Model
  import opened Collect
  import opened Election
  import opened Placing
  import opened PlacingLaws
  import opened Planner

  // ---------- Placements ----------

  /** A plan's placements are the placed listeners, on usable parents within capacity; what is left
      over is left over because the Gateway is full and there is no overflow. */
  lemma PlacementsSound(d: Demand, overflow: bool)
    requires Plain(d)
    ensures var p := PlacementsOf(d, overflow);
            var rest := PlacedOf(d, overflow).rest;
            && WithinCapacity(p, overflow)
            && Listeners(d) == p.Keys + Names(rest) && p.Keys !! Names(rest)
            && (rest != [] ==> !overflow && |Held(p, 0)| == GATEWAY_HTTPS_CAPACITY)
  {
    PlacedAreListeners(d, overflow);
    PlacementSound(InOrder(d), d.current, overflow);
    PartitionNames(InOrder(d), PlacedOf(d, overflow), overflow);
    forall i ensures |Held(PlacementsOf(d, overflow), i)| == |At(PlacedOf(d, overflow).slots.placed, i)| <= Capacity(i) {
      HeldIsAt(d, overflow, i);
    }
  }

  lemma HeldIsAt(d: Demand, overflow: bool, i: int)
    requires Plain(d)
    requires PlacementsOf(d, overflow).Keys == PlacedOf(d, overflow).slots.placed.Keys
    requires Consistent(PlacedOf(d, overflow).slots, overflow)
    ensures |Held(PlacementsOf(d, overflow), i)| == |At(PlacedOf(d, overflow).slots.placed, i)| <= Capacity(i)
  {
    var slots := PlacedOf(d, overflow).slots;
    assert Held(PlacementsOf(d, overflow), i) == At(slots.placed, i);
    assert CountAt(slots.counts, i) == |At(slots.placed, i)|;
  }

  lemma PartitionNames(ls: seq<ProjectedListener>, r: Progress, overflow: bool)
    requires DistinctNames(ls) && Splits(EMPTY, ls, |ls|, r, overflow)
    ensures Names(ls) == r.slots.placed.Keys + Names(r.rest) && r.slots.placed.Keys !! Names(r.rest)
  {
    forall l | l in ls ensures l.hostname in r.slots.placed || l in r.rest {
      var j :| 0 <= j < |ls| && ls[j] == l;
    }
    forall h | h in r.slots.placed ensures h in Names(ls) {
      var j :| 0 <= j < |ls| && ls[j].hostname == h;
      assert ls[j] in ls;
    }
  }

  ghost predicate NonNegative(current: map<string, Placement>) {
    forall h | h in current :: current[h].listenerSet >= 0
  }

  ghost predicate NonNegativeSlots(s: Slots) {
    forall h | h in s.placed :: s.placed[h] >= 0
  }

  lemma {:induction false} PreferNonNegative(pass: Pass, s: Slots, ls: seq<ProjectedListener>, n: nat,
                                             current: map<string, Placement>, overflow: bool)
    requires n <= |ls| && NonNegative(current) && NonNegativeSlots(s)
    ensures NonNegativeSlots(Prefer(pass, s, ls, n, current, overflow).slots)
  {
    if n > 0 {
      PreferNonNegative(pass, s, ls, n - 1, current, overflow);
      PreferredNonNegative(pass, ls[n - 1], current);
    }
  }

  lemma PreferredNonNegative(pass: Pass, l: ProjectedListener, current: map<string, Placement>)
    requires NonNegative(current)
    ensures Preferred(pass, l, current).Some? ==> Preferred(pass, l, current).value >= 0
  {
    if IsWildcard(l.hostname) {
      FirstPlacedNonNegative(SortedStrings(Elements(l.hosts)), 0, l.hostname, current);
    }
  }

  lemma {:induction false} FirstPlacedNonNegative(members: seq<string>, i: nat, hostname: string, current: map<string, Placement>)
    requires i <= |members| && NonNegative(current)
    ensures var index := FirstPlaced(members, i, hostname, current); index.Some? ==> index.value >= 0
    decreases |members| - i
  {
    if i < |members| {
      FirstPlacedNonNegative(members, i + 1, hostname, current);
    }
  }

  lemma {:induction false} FitNonNegative(s: Slots, ls: seq<ProjectedListener>, n: nat, overflow: bool)
    requires n <= |ls| && NonNegativeSlots(s)
    ensures NonNegativeSlots(Fit(s, ls, n, overflow).slots)
  {
    if n > 0 {
      FitNonNegative(s, ls, n - 1, overflow);
    }
  }

  /** Indices stay non-negative from plan to plan. */
  lemma PlacementsNonNegative(d: Demand, overflow: bool)
    requires Plain(d) && NonNegative(d.current)
    ensures NonNegative(PlacementsOf(d, overflow))
  {
    var ls := InOrder(d);
    PreferNonNegative(Own, EMPTY, ls, |ls|, d.current, overflow);
    var own := AfterOwn(ls, d.current, overflow);
    PreferNonNegative(Inherited, own.slots, own.rest, |own.rest|, d.current, overflow);
    var inherited := AfterInherited(ls, d.current, overflow);
    FitNonNegative(inherited.slots, inherited.rest, |inherited.rest|, overflow);
  }

  /** Stickiness of a plan: from an acceptable placement, every listener still projected keeps its parent. */
  lemma PlanSticky(d: Demand, overflow: bool, x: string)
    requires Plain(d) && WithinCapacity(d.current, overflow)
    requires x in Listeners(d) && x in d.current
    ensures x in PlacementsOf(d, overflow) && PlacementsOf(d, overflow)[x].listenerSet == d.current[x].listenerSet
  {
    InOrderDistinct(d);
    var ls := InOrder(d);
    assert Projected(d, x) in Elements(ls);
    var j :| 0 <= j < |ls| && ls[j] == Projected(d, x);
    Sticky(ls, j, d.current, overflow);
  }

  // ---------- The two lookups ----------

  lemma ListenerServesItself(d: Demand, x: string)
    requires Plain(d) && x in d.owner && x in Listeners(d)
    ensures ListenerOf(d, x) == x
  {
    if !IsWildcard(x) {
      ListenerShape(d, x);
      assert x in Served(d, x);
    }
  }

  lemma CollapsedNotListener(d: Demand, host: string)
    requires Plain(d) && host in d.owner && ListenerOf(d, host) != host
    ensures host !in Listeners(d)
    ensures IsWildcard(ListenerOf(d, host)) && WildcardParent(host) == Some(ListenerOf(d, host))
  {
    if host in Listeners(d) {
      ListenerServesItself(d, host);
    }
  }

  /** The lookup by placement finds the listener that serves a host, whenever it is placed. */
  lemma ServingIsListener(d: Demand, overflow: bool, host: string)
    requires Plain(d) && host in d.owner && ListenerOf(d, host) in PlacementsOf(d, overflow)
    ensures ServingHostname(PlacementsOf(d, overflow), host) == Some(ListenerOf(d, host))
  {
    if ListenerOf(d, host) != host {
      CollapsedNotListener(d, host);
    }
  }

  /** listenerRefFor on a plan's placements reproduces the plan's recorded sections. */
  lemma LookupsAgree(d: Demand, o: Options, host: string)
    requires Plain(d)
    requires host in SectionsOf(d, o, PlacementsOf(d, o.overflow))
    ensures ListenerRefFor(o, host, PlacementsOf(d, o.overflow)) == Some(SectionsOf(d, o, PlacementsOf(d, o.overflow))[host])
  {
    ServingIsListener(d, o.overflow, host);
  }

  /** For a host served in two successive plans, the second reports it as changed exactly when its
      listener reference differs. */
  lemma ChangedExactly(before: seq<Ingress>, after: seq<Ingress>, o0: Options, o1: Options, host: string)
    requires PlainIngresses(before) && PlainIngresses(after)
    requires o1 == o0.(current := o1.current, certificates := o1.certificates)
    requires host in BuildPlan(before, o0).tlsSections && host in BuildPlan(after, o1).tlsSections
    ensures host in ChangedOf(BuildPlan(before, o0).placements, BuildPlan(after, o1), o1) <==>
            BuildPlan(before, o0).tlsSections[host] != BuildPlan(after, o1).tlsSections[host]
  {
    CollectedPlain(before, o0);
    var p := BuildPlan(before, o0);
    LookupsAgree(DemandOf(before, o0), o0, host);
    assert ListenerRefFor(o1, host, p.placements) == ListenerRefFor(o0, host, p.placements);
  }

  // ---------- Issues ----------

  lemma {:induction false} SourcesReported(issues: Issues, host: string, sources: seq<NamespacedName>, n: nat,
                                           s: NamespacedName, q: Issue)
    requires n <= |sources|
    ensures q in IssuesOf(ReportSources(issues, host, sources, n), s) <==>
            q in IssuesOf(issues, s) || (q == NoCapacity(host) && s in FirstN(sources, n))
  {
    if n > 0 {
      SourcesReported(issues, host, sources, n - 1, s, q);
      AddIssueMembers(ReportSources(issues, host, sources, n - 1), sources[n - 1], NoCapacity(host));
    }
  }

  lemma {:induction false} HostsReported(issues: Issues, declaredBy: map<string, set<NamespacedName>>, hosts: seq<string>, n: nat,
                                         s: NamespacedName, q: Issue)
    requires n <= |hosts| && PlainDeclarers(declaredBy)
    ensures q in IssuesOf(ReportHosts(issues, declaredBy, hosts, n), s) <==>
            q in IssuesOf(issues, s) ||
            (q.NoCapacity? && q.host in FirstN(hosts, n) && s in Declarers(declaredBy, q.host))
  {
    if n > 0 {
      HostsReported(issues, declaredBy, hosts, n - 1, s, q);
      var sources := SourcesInOrder(declaredBy, hosts[n - 1]);
      FirstNAll(sources);
      SourcesReported(ReportHosts(issues, declaredBy, hosts, n - 1), hosts[n - 1], sources, |sources|, s, q);
    }
  }

  lemma {:induction false} UnplacedReported(issues: Issues, declaredBy: map<string, set<NamespacedName>>,
                                            unplaced: seq<ProjectedListener>, n: nat, s: NamespacedName, q: Issue)
    requires n <= |unplaced| && PlainDeclarers(declaredBy)
    ensures q in IssuesOf(ReportUnplaced(issues, declaredBy, unplaced, n), s) <==>
            q in IssuesOf(issues, s) ||
            (q.NoCapacity? && s in Declarers(declaredBy, q.host) && exists i :: 0 <= i < n && q.host in unplaced[i].hosts)
  {
    if n > 0 {
      UnplacedReported(issues, declaredBy, unplaced, n - 1, s, q);
      var hosts := unplaced[n - 1].hosts;
      FirstNAll(hosts);
      HostsReported(ReportUnplaced(issues, declaredBy, unplaced, n - 1), declaredBy, hosts, |hosts|, s, q);
      if q in IssuesOf(ReportUnplaced(issues, declaredBy, unplaced, n), s) && q !in IssuesOf(issues, s) {
        assert exists i :: 0 <= i < n && q.host in unplaced[i].hosts;
      }
    }
  }

  lemma {:induction false} CollectionNeverReportsCapacity(ds: seq<Declaration>, n: nat, s: NamespacedName, host: string)
    requires n <= |ds|
    ensures NoCapacity(host) !in IssuesOf(AbsorbFirst(NOTHING, ds, n).issues, s)
  {
    if n > 0 {
      CollectionNeverReportsCapacity(ds, n - 1, s, host);
      AbsorbAddsNoCapacity(AbsorbFirst(NOTHING, ds, n - 1), ds[n - 1], s, host);
    }
  }

  lemma AbsorbAddsNoCapacity(c: Collected, d: Declaration, s: NamespacedName, host: string)
    requires NoCapacity(host) !in IssuesOf(c.issues, s)
    ensures NoCapacity(host) !in IssuesOf(Absorb(c, d).issues, s)
  {
  }

  /** The capacity Error reaches exactly the Ingresses that declare a host of an unplaced listener. */
  lemma CapacityErrorsExact(ings: seq<Ingress>, o: Options, s: NamespacedName, host: string)
    requires PlainIngresses(ings)
    ensures var plan := BuildPlan(ings, o);
            NoCapacity(host) in IssuesOf(plan.issues, s) <==>
            host in plan.tlsHosts && host !in plan.tlsSections && s in Declarers(CollectedOf(ings).declaredBy, host)
  {
    CollectedPlain(ings, o);
    var c, d := CollectedOf(ings), DemandOf(ings, o);
    var unplaced := PlacedOf(d, o.overflow).rest;
    var sorted := SortBy(IngressKey, ings);
    var ds := Declarations(sorted, |sorted|);
    CollectionNeverReportsCapacity(ds, |ds|, s, host);
    UnplacedReported(c.issues, c.declaredBy, unplaced, |unplaced|, s, NoCapacity(host));
    UnplacedHosts(d, o, host);
  }

  lemma UnplacedHosts(d: Demand, o: Options, host: string)
    requires Plain(d)
    ensures var unplaced := PlacedOf(d, o.overflow).rest;
            (exists i :: 0 <= i < |unplaced| && host in unplaced[i].hosts) <==>
            host in d.owner && host !in SectionsOf(d, o, PlacementsOf(d, o.overflow))
  {
    var unplaced := PlacedOf(d, o.overflow).rest;
    PlacementsSound(d, o.overflow);
    PlacedAreListeners(d, o.overflow);
    PlacementSound(InOrder(d), d.current, o.overflow);
    InOrderDistinct(d);
    forall i | 0 <= i < |unplaced|
      ensures unplaced[i].hostname in Listeners(d) && unplaced[i] == Projected(d, unplaced[i].hostname)
    {
      assert unplaced[i] in unplaced;
      var j :| 0 <= j < |InOrder(d)| && InOrder(d)[j] == unplaced[i];
      assert InOrder(d)[j] in InOrder(d);
    }
    if host in d.owner && ListenerOf(d, host) !in PlacementsOf(d, o.overflow) {
      assert ListenerOf(d, host) in Names(unplaced);
      var l :| l in unplaced && l.hostname == ListenerOf(d, host);
      var i :| 0 <= i < |unplaced| && unplaced[i] == l;
      assert host in Served(d, l.hostname);
    }
    if i :| 0 <= i < |unplaced| && host in unplaced[i].hosts {
      assert unplaced[i] in unplaced;
      assert unplaced[i].hostname in Names(unplaced);
    }
  }

  // ---------- Every declaration is accounted for ----------

  /** Equal fingerprints are equal certificate chains, hence equal SANs. */
  ghost predicate FingerprintsIdentify(o: Options) {
    o.certificates.Some? ==>
      forall a, b | a in o.certificates.value && b in o.certificates.value &&
                    o.certificates.value[a].fingerprint == o.certificates.value[b].fingerprint ::
        o.certificates.value[a].wildcardSANs == o.certificates.value[b].wildcardSANs
  }

  predicate SameCertificate(o: Options, a: NamespacedName, b: NamespacedName) {
    a == b ||
    (o.certificates.Some? && a in o.certificates.value && b in o.certificates.value &&
     o.certificates.value[a].fingerprint == o.certificates.value[b].fingerprint)
  }

  predicate Covers(o: Options, secret: NamespacedName, wildcard: string) {
    o.certificates.Some? && secret in o.certificates.value && wildcard in o.certificates.value[secret].wildcardSANs
  }

  /** The listener x of a plan serves host with the given Secret's certificate, and is emitted exactly once. */
  ghost predicate ServedBy(o: Options, plan: GatewayPlan, host: string, secret: NamespacedName, x: string) {
    && ServingHostname(plan.placements, host) == Some(x) && EmittedOnce(o, plan, x)
    && host in plan.tlsSections && plan.tlsSections[host] == ListenerRefAt(o, x, plan.placements[x].listenerSet)
    && SameCertificate(o, plan.placements[x].secret, secret)
    && (x != host ==> Covers(o, plan.placements[x].secret, x))
  }

  lemma ServedCertificate(d: Demand, o: Options, host: string)
    requires Plain(d) && host in d.owner && d.certificates == o.certificates && FingerprintsIdentify(o)
    ensures SameCertificate(o, SecretFor(d, ListenerOf(d, host)), d.owner[host])
    ensures ListenerOf(d, host) != host ==>
              WildcardParent(host) == Some(ListenerOf(d, host)) && Covers(o, SecretFor(d, ListenerOf(d, host)), ListenerOf(d, host))
  {
    var x := ListenerOf(d, host);
    ListenerShape(d, x);
    if IsWildcard(x) {
      WildcardIsElected(d, host);
      var key := Elected(d, x);
      var g :| g in ClassHosts(d, x, key) && d.owner[g] == Canonical(d, x);
      SameClass(d.certificates, d.owner[g], d.owner[host]);
    }
  }

  /** Each declaration is either served by exactly one emitted listener, its own or that of the wildcard one
      label up, with its Secret or an identical certificate that covers it; or its Ingress carries an Error for
      that host. */
  lemma DeclarationServedOrReported(ings: seq<Ingress>, o: Options, i: nat)
    requires PlainIngresses(ings) && FingerprintsIdentify(o) && NonNegative(o.current)
    requires var sorted := SortBy(IngressKey, ings);
             i < |Declarations(sorted, |sorted|)| && Declarations(sorted, |sorted|)[i].Declares?
    ensures var sorted := SortBy(IngressKey, ings);
            var said := Declarations(sorted, |sorted|)[i];
            var plan := BuildPlan(ings, o);
            || (exists x :: ServedBy(o, plan, said.host, said.secret, x))
            || NoCapacity(said.host) in IssuesOf(plan.issues, said.source)
            || Flagged(plan.issues, said.source, said.host)
  {
    var sorted := SortBy(IngressKey, ings);
    var ds := Declarations(sorted, |sorted|);
    CollectedPlain(ings, o);
    var c, d := CollectedOf(ings), DemandOf(ings, o);
    DeclarationAccounted(ds, i);
    var host := ds[i].host;
    if d.owner[host] != ds[i].secret {
      FlagKept(c, d, o, ds[i].source, host);
    } else if ListenerOf(d, host) in PlacementsOf(d, o.overflow) {
      OwnerServed(ings, o, host);
    } else {
      assert DeclaresAt(ds, i, host);
      DeclaredByIsDeclarers(ds, |ds|, host, ds[i].source);
      CapacityErrorsExact(ings, o, ds[i].source, host);
    }
  }

  lemma OwnerServed(ings: seq<Ingress>, o: Options, host: string)
    requires PlainIngresses(ings) && FingerprintsIdentify(o) && NonNegative(o.current)
    requires Plain(DemandOf(ings, o)) && host in DemandOf(ings, o).owner
    requires ListenerOf(DemandOf(ings, o), host) in PlacementsOf(DemandOf(ings, o), o.overflow)
    ensures ServedBy(o, BuildPlan(ings, o), host, DemandOf(ings, o).owner[host], ListenerOf(DemandOf(ings, o), host))
  {
    CollectedPlain(ings, o);
    var d := DemandOf(ings, o);
    ServedCertificate(d, o, host);
    ServingIsListener(d, o.overflow, host);
    PlacementsNonNegative(d, o.overflow);
    EmittedOnceExactly(o, BuildPlan(ings, o), ListenerOf(d, host));
  }

  lemma FlagKept(c: Collected, d: Demand, o: Options, s: NamespacedName, host: string)
    requires Plain(d) && PlainDeclarers(c.declaredBy) && Flagged(c.issues, s, host)
    ensures Flagged(PlanFor(c, d, o).issues, s, host)
  {
    var q :| q in IssuesOf(c.issues, s) && q.Conflict? && q.host == host;
    var unplaced := PlacedOf(d, o.overflow).rest;
    UnplacedReported(c.issues, c.declaredBy, unplaced, |unplaced|, s, q);
  }

  // ---------- Emission ----------

  /** The hostnames among the first n that are placed on index. */
  ghost function HeldAmong(p: map<string, Placement>, hostnames: seq<string>, n: nat, index: int): set<string>
    requires n <= |hostnames|
  {
    set x | x in p && x in FirstN(hostnames, n) && p[x].listenerSet == index
  }

  lemma HeldAmongStep(p: map<string, Placement>, hostnames: seq<string>, n: nat, index: int)
    requires 0 < n <= |hostnames| && hostnames[n - 1] in p && NoDuplicates(hostnames)
    ensures var x, before := hostnames[n - 1], HeldAmong(p, hostnames, n - 1, index);
            x !in before && HeldAmong(p, hostnames, n, index) == if p[x].listenerSet == index then before + {x} else before
  {
    FirstNFresh(hostnames, n - 1);
  }

  /** The listeners of a set of placed hostnames. */
  ghost function ListenersFor(o: Options, p: map<string, Placement>, names: set<string>): set<Listener>
    requires names <= p.Keys
  {
    set x | x in names :: HttpsListener(o, x, p[x].secret)
  }

  lemma ListenersForStep(o: Options, p: map<string, Placement>, names: set<string>, x: string)
    requires names <= p.Keys && x in p
    ensures ListenersFor(o, p, names + {x}) == ListenersFor(o, p, names) + {HttpsListener(o, x, p[x].secret)}
  {
  }

  /** Among the first n hostnames, exactly those placed on index are emitted there, each once. */
  lemma {:induction false} EmittedMembers(o: Options, p: map<string, Placement>, hostnames: seq<string>, n: nat, index: int)
    requires n <= |hostnames| && (forall x | x in hostnames :: x in p) && NoDuplicates(hostnames)
    ensures var ls := EmittedUpTo(o, p, hostnames, n, index);
            var held := HeldAmong(p, hostnames, n, index);
            Elements(ls) == ListenersFor(o, p, held) && |ls| == |held|
  {
    if n == 0 {
      assert HeldAmong(p, hostnames, 0, index) == {};
    } else {
      EmittedMembers(o, p, hostnames, n - 1, index);
      var x := hostnames[n - 1];
      assert x in hostnames;
      HeldAmongStep(p, hostnames, n, index);
      ListenersForStep(o, p, HeldAmong(p, hostnames, n - 1, index), x);
      ElementsSnoc(EmittedUpTo(o, p, hostnames, n - 1, index), HttpsListener(o, x, p[x].secret));
    }
  }

  /** Each placed hostname is a listener of exactly one emitted parent, and nothing else is emitted. */
  lemma EmittedExactly(o: Options, p: map<string, Placement>, index: int)
    ensures Elements(EmittedAt(o, p, index)) == ListenersFor(o, p, Held(p, index))
    ensures |EmittedAt(o, p, index)| == |Held(p, index)|
  {
    var hostnames := SortedStrings(p.Keys);
    EmittedMembers(o, p, hostnames, |hostnames|, index);
    FirstNAll(hostnames);
    assert HeldAmong(p, hostnames, |hostnames|, index) == Held(p, index);
  }

  /** The emitted sets ascend, are never empty, and are the used indices from 1 on. */
  lemma {:induction false} SetsExactly(o: Options, p: map<string, Placement>, n: nat)
    ensures forall s | s in SetsUpTo(o, p, n) ::
              && s.index.Some? && 1 <= s.index.value <= n
              && s == ManagedListenerSet(o, s.index.value, EmittedAt(o, p, s.index.value))
              && s.listeners != []
    ensures forall i | 0 <= i < |SetsUpTo(o, p, n)| :: SetsUpTo(o, p, n)[i] in SetsUpTo(o, p, n)
    ensures forall i, j | 0 <= i < j < |SetsUpTo(o, p, n)| :: SetsUpTo(o, p, n)[i].index.value < SetsUpTo(o, p, n)[j].index.value
    ensures forall i | 1 <= i <= n && EmittedAt(o, p, i) != [] :: ManagedListenerSet(o, i, EmittedAt(o, p, i)) in SetsUpTo(o, p, n)
  {
    if n > 0 {
      SetsExactly(o, p, n - 1);
      var before := SetsUpTo(o, p, n - 1);
      forall i | 0 <= i < |before| ensures before[i].index.value < n {
        assert before[i] in before;
      }
    }
  }

  /** The parents of a plan: 0 is the Gateway, k the k-th ListenerSet. */
  function EmittedIn(plan: GatewayPlan, k: nat): seq<Listener>
    requires k <= |plan.listenerSets|
  {
    if k == 0 then plan.gateway.listeners else plan.listenerSets[k - 1].listeners
  }

  /** Listener j of parent k has the hostname. */
  predicate EmitsAt(plan: GatewayPlan, k: int, j: int, x: string) {
    0 <= k <= |plan.listenerSets| && 0 <= j < |EmittedIn(plan, k)| && EmittedIn(plan, k)[j].hostname == Some(x)
  }

  predicate IsParent(plan: GatewayPlan, k: nat, index: int) {
    k <= |plan.listenerSets| && if k == 0 then index == 0 else plan.listenerSets[k - 1].index == Some(index)
  }

  /** Over all parents of the plan exactly one listener has the hostname: it is on the parent the placement
      says and carries the placement's Secret. */
  ghost predicate EmittedOnce(o: Options, plan: GatewayPlan, x: string) {
    x in plan.placements &&
    exists k, j :: EmitsAt(plan, k, j, x)
      && IsParent(plan, k, plan.placements[x].listenerSet)
      && EmittedIn(plan, k)[j] == HttpsListener(o, x, plan.placements[x].secret)
      && forall k', j' :: EmitsAt(plan, k', j', x) ==> k' == k && j' == j
  }

  ghost predicate PlacedListener(o: Options, p: map<string, Placement>, index: int, l: Listener) {
    && l.hostname.Some? && l.hostname.value in Held(p, index)
    && l == HttpsListener(o, l.hostname.value, p[l.hostname.value].secret)
  }

  /** Listeners placed on index, no hostname twice. */
  ghost predicate DistinctPlaced(o: Options, p: map<string, Placement>, index: int, ls: seq<Listener>) {
    && (forall j | 0 <= j < |ls| :: PlacedListener(o, p, index, ls[j]))
    && (forall i, j | 0 <= i < j < |ls| :: ls[i].hostname != ls[j].hostname)
  }

  lemma {:induction false} EmittedDistinct(o: Options, p: map<string, Placement>, hostnames: seq<string>, n: nat, index: int)
    requires n <= |hostnames| && (forall x | x in hostnames :: x in p) && NoDuplicates(hostnames)
    ensures DistinctPlaced(o, p, index, EmittedUpTo(o, p, hostnames, n, index))
    ensures forall l | l in EmittedUpTo(o, p, hostnames, n, index) :: l.hostname.Some? && l.hostname.value in FirstN(hostnames, n)
  {
    if n > 0 {
      EmittedDistinct(o, p, hostnames, n - 1, index);
      FirstNFresh(hostnames, n - 1);
      var before, x := EmittedUpTo(o, p, hostnames, n - 1, index), hostnames[n - 1];
      assert x in hostnames;
      forall i | 0 <= i < |before| ensures before[i].hostname != Some(x) {
        assert before[i] in before;
      }
    }
  }

  lemma EmittedUnique(o: Options, p: map<string, Placement>, index: int)
    ensures DistinctPlaced(o, p, index, EmittedAt(o, p, index))
  {
    var hostnames := SortedStrings(p.Keys);
    EmittedDistinct(o, p, hostnames, |hostnames|, index);
  }

  lemma SetPosition(o: Options, p: map<string, Placement>, k: nat)
    requires 0 < k <= |SetsOf(o, p)|
    ensures var s := SetsOf(o, p)[k - 1];
            s.index.Some? && s.index.value >= 1 && s.listeners == EmittedAt(o, p, s.index.value)
  {
    SetsExactly(o, p, MaxIndex(p));
    assert SetsOf(o, p)[k - 1] in SetsOf(o, p);
  }

  lemma SetPositionUnique(o: Options, p: map<string, Placement>, k: nat, k': nat)
    requires 0 < k <= |SetsOf(o, p)| && 0 < k' <= |SetsOf(o, p)|
    requires SetsOf(o, p)[k - 1].index == SetsOf(o, p)[k' - 1].index
    ensures k == k'
  {
    SetPosition(o, p, k);
    SetPosition(o, p, k');
    SetsExactly(o, p, MaxIndex(p));
  }

  /** Where a hostname is emitted, it is placed. */
  lemma EmitsWherePlaced(o: Options, plan: GatewayPlan, k: int, j: int, x: string)
    requires plan.gateway == GatewayOf(o, plan.placements) && plan.listenerSets == SetsOf(o, plan.placements)
    requires EmitsAt(plan, k, j, x)
    ensures x in plan.placements && IsParent(plan, k, plan.placements[x].listenerSet)
    ensures k == 0 ==> j > 0 && EmittedAt(o, plan.placements, 0)[j - 1].hostname == Some(x)
    ensures k > 0 ==> EmittedIn(plan, k) == EmittedAt(o, plan.placements, plan.placements[x].listenerSet)
    ensures EmittedIn(plan, k)[j] == HttpsListener(o, x, plan.placements[x].secret)
    ensures plan.placements[x].listenerSet >= 0 && (k == 0 <==> plan.placements[x].listenerSet == 0)
  {
    var p := plan.placements;
    if k == 0 {
      EmittedUnique(o, p, 0);
    } else {
      SetPosition(o, p, k);
      EmittedUnique(o, p, plan.listenerSets[k - 1].index.value);
    }
  }

  lemma EmitsUnique(o: Options, plan: GatewayPlan, k: int, j: int, k': int, j': int, x: string)
    requires plan.gateway == GatewayOf(o, plan.placements) && plan.listenerSets == SetsOf(o, plan.placements)
    requires EmitsAt(plan, k, j, x) && EmitsAt(plan, k', j', x)
    ensures k == k' && j == j'
  {
    EmitsWherePlaced(o, plan, k, j, x);
    EmitsWherePlaced(o, plan, k', j', x);
    if k > 0 && k' > 0 {
      SetPositionUnique(o, plan.placements, k, k');
    }
    EmittedUnique(o, plan.placements, plan.placements[x].listenerSet);
  }

  lemma PlacedIsEmitted(o: Options, p: map<string, Placement>, x: string) returns (j: int)
    requires x in p
    ensures 0 <= j < |EmittedAt(o, p, p[x].listenerSet)|
    ensures EmittedAt(o, p, p[x].listenerSet)[j] == HttpsListener(o, x, p[x].secret)
  {
    var ls := EmittedAt(o, p, p[x].listenerSet);
    EmittedExactly(o, p, p[x].listenerSet);
    assert x in Held(p, p[x].listenerSet);
    assert HttpsListener(o, x, p[x].secret) in Elements(ls);
    j :| 0 <= j < |ls| && ls[j] == HttpsListener(o, x, p[x].secret);
  }

  lemma UsedIsASet(o: Options, p: map<string, Placement>, index: int) returns (m: int)
    requires index > 0 && index <= MaxIndex(p) && EmittedAt(o, p, index) != []
    ensures 0 <= m < |SetsOf(o, p)| && SetsOf(o, p)[m] == ManagedListenerSet(o, index, EmittedAt(o, p, index))
  {
    SetsExactly(o, p, MaxIndex(p));
    m :| 0 <= m < |SetsOf(o, p)| && SetsOf(o, p)[m] == ManagedListenerSet(o, index, EmittedAt(o, p, index));
  }

  lemma EmitsSomewhere(o: Options, plan: GatewayPlan, x: string) returns (k: int, j: int)
    requires plan.gateway == GatewayOf(o, plan.placements) && plan.listenerSets == SetsOf(o, plan.placements)
    requires x in plan.placements && plan.placements[x].listenerSet >= 0
    ensures EmitsAt(plan, k, j, x)
  {
    var p, index := plan.placements, plan.placements[x].listenerSet;
    j := PlacedIsEmitted(o, p, x);
    if index == 0 {
      k, j := 0, j + 1;
    } else {
      var m := UsedIsASet(o, p, index);
      k := m + 1;
    }
  }

  /** A placed hostname is emitted exactly once if its index is non-negative, and not at all otherwise. */
  lemma EmittedOnceExactly(o: Options, plan: GatewayPlan, x: string)
    requires plan.gateway == GatewayOf(o, plan.placements) && plan.listenerSets == SetsOf(o, plan.placements)
    requires x in plan.placements
    ensures EmittedOnce(o, plan, x) <==> plan.placements[x].listenerSet >= 0
    ensures (exists k, j :: EmitsAt(plan, k, j, x)) <==> plan.placements[x].listenerSet >= 0
  {
    if k, j :| EmitsAt(plan, k, j, x) {
      EmitsWherePlaced(o, plan, k, j, x);
    }
    if plan.placements[x].listenerSet >= 0 {
      var k, j := EmitsSomewhere(o, plan, x);
      EmitsWherePlaced(o, plan, k, j, x);
      forall k', j' | EmitsAt(plan, k', j', x) ensures k' == k && j' == j {
        EmitsUnique(o, plan, k, j, k', j', x);
      }
    }
  }

  /** Grants are exactly the cross-namespace Secrets of placed listeners, each once. */
  lemma GrantsExact(ings: seq<Ingress>, o: Options)
    requires PlainIngresses(ings)
    ensures var plan := BuildPlan(ings, o);
            && NoDuplicates(plan.grants)
            && forall g :: g in plan.grants <==>
                 g.toListenerSets == o.overflow && g.secret.ns != o.ns &&
                 exists x | x in plan.placements :: plan.placements[x].secret == g.secret
  {
    CollectedPlain(ings, o);
    var plan := BuildPlan(ings, o);
    PlacementsPlain(DemandOf(ings, o), o);
    var secrets := SortedNames(ForeignSecrets(o, plan.placements));
    AscendingNoDuplicates(SlashedKey, secrets);
    GrantsListed(o, secrets);
    forall g: Grant
      ensures g.secret in secrets <==>
              g.secret.ns != o.ns && exists x | x in plan.placements :: plan.placements[x].secret == g.secret
    {
    }
  }

  lemma GrantsListed(o: Options, secrets: seq<NamespacedName>)
    requires NoDuplicates(secrets)
    ensures NoDuplicates(GrantsFor(o, secrets))
    ensures forall g :: g in GrantsFor(o, secrets) <==> g.toListenerSets == o.overflow && g.secret in secrets
  {
    var grants := GrantsFor(o, secrets);
    forall s | s in secrets ensures Grant(s, o.overflow) in grants {
      var i :| 0 <= i < |secrets| && secrets[i] == s;
      assert grants[i] == Grant(s, o.overflow);
    }
  }

  // ---------- Order ----------

  /** The plan depends on which Ingresses there are, not on the order they are listed in. */
  lemma OrderIndependent(a: seq<Ingress>, b: seq<Ingress>, o: Options)
    requires PlainIngresses(a) && PlainIngresses(b)
    requires NoDuplicates(a) && NoDuplicates(b) && DistinctKeys(IngressKey, Elements(a)) && Elements(a) == Elements(b)
    ensures BuildPlan(a, o) == BuildPlan(b, o)
  {
    SortByIsSorted(IngressKey, a);
    SortByIsSorted(IngressKey, b);
  }
}
