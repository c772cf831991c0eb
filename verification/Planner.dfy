// BuildManagedGateway: from the selected Ingresses to the Gateway, its overflow
// ListenerSets, the grants, the TLS sections and the issues.
module Planner {
  import opened Text
  import opened Sorting
  import opened Model
  import opened Collect
  import opened Election
  import opened Projecting
  import opened Placing
  import opened PlacingLaws

  // ---------- Emitted objects ----------

  datatype Protocol = HTTP | HTTPS | OtherProtocol

  datatype SecretRef = SecretRef(ns: Option<string>, name: string)

  /** certificateRefs is None when the listener has no TLS block. */
  datatype Listener = Listener(
    name: string, hostname: Option<string>, port: int, protocol: Protocol, certificateRefs: Option<seq<SecretRef>>)

  /** managed: the object carries the bridge's labels. */
  datatype Gateway = Gateway(managed: bool, listeners: seq<Listener>, allowsListenerSets: bool)

  /** index is the number the index label spells, if it spells one. */
  datatype ListenerSet = ListenerSet(name: string, managed: bool, index: Option<int>, listeners: seq<Listener>)

  /** A ReferenceGrant for one Secret, open to Gateways and possibly to ListenerSets. */
  datatype Grant = Grant(secret: NamespacedName, toListenerSets: bool)

  datatype ParentKind = GatewayKind | ListenerSetKind

  datatype ListenerRef = ListenerRef(kind: ParentKind, name: string, section: string)

  datatype GatewayPlan = GatewayPlan(
    gateway: Gateway,
    listenerSets: seq<ListenerSet>,
    grants: seq<Grant>,
    tlsHosts: set<string>,
    tlsSections: map<string, ListenerRef>,
    placements: map<string, Placement>,
    issues: Issues)

  function Decimal(n: nat): string {
    if n < 10 then [('0' as int + n) as char] else Decimal(n / 10) + [('0' as int + n % 10) as char]
  }

  function SetName(o: Options, index: int): string {
    o.dnsLabel([o.name, if index < 0 then "-" + Decimal(-index) else Decimal(index)])
  }

  function Section(o: Options, hostname: string): string {
    o.dnsLabel([o.httpsSection, hostname])
  }

  function HttpListener(o: Options): Listener {
    Listener(o.httpSection, None, 80, HTTP, None)
  }

  function HttpsListener(o: Options, hostname: string, secret: NamespacedName): Listener {
    Listener(Section(o, hostname), Some(hostname), 443, HTTPS, Some([SecretRef(Some(secret.ns), secret.name)]))
  }

  function ManagedListenerSet(o: Options, index: int, listeners: seq<Listener>): ListenerSet {
    ListenerSet(SetName(o, index), true, Some(index), listeners)
  }

  function ListenerRefAt(o: Options, hostname: string, index: int): ListenerRef {
    if index == 0 then ListenerRef(GatewayKind, o.name, Section(o, hostname))
    else ListenerRef(ListenerSetKind, SetName(o, index), Section(o, hostname))
  }

  /** The hostname of the listener serving a declared host: its own, else its wildcard parent's. */
  function ServingHostname(placements: map<string, Placement>, host: string): Option<string> {
    if host in placements then Some(host)
    else
      match WildcardParent(host)
      case Some(parent) => if parent in placements then Some(parent) else None
      case None => None
  }

  function ListenerRefFor(o: Options, host: string, placements: map<string, Placement>): Option<ListenerRef> {
    match ServingHostname(placements, host)
    case Some(hostname) => Some(ListenerRefAt(o, hostname, placements[hostname].listenerSet))
    case None => None
  }

  /** The hosts of a plan that were served by another listener, or by none, under the previous placements. */
  ghost function ChangedOf(previous: map<string, Placement>, plan: GatewayPlan, o: Options): set<string> {
    set h | h in plan.tlsSections && ListenerRefFor(o, h, previous) != Some(plan.tlsSections[h])
  }

  method ChangedTLSHosts(previous: map<string, Placement>, plan: GatewayPlan, o: Options) returns (changed: set<string>)
    ensures changed == ChangedOf(previous, plan, o)
  {
    changed := {};
    var rest := plan.tlsSections.Keys;
    while rest != {}
      invariant rest <= plan.tlsSections.Keys
      invariant changed == set h | h in plan.tlsSections.Keys - rest && ListenerRefFor(o, h, previous) != Some(plan.tlsSections[h])
      decreases rest
    {
      var host :| host in rest;
      var oldRef := ListenerRefFor(o, host, previous);
      if oldRef.None? || oldRef.value != plan.tlsSections[host] {
        changed := changed + {host};
      }
      rest := rest - {host};
    }
  }

  // ---------- Specification: from Ingresses to placements ----------

  ghost function CollectedOf(ings: seq<Ingress>): Collected {
    var sorted := SortBy(IngressKey, ings);
    AbsorbAll(NOTHING, Declarations(sorted, |sorted|))
  }

  ghost function OwnersOf(c: Collected): map<string, NamespacedName> {
    map h | h in c.owners :: c.owners[h].secret
  }

  ghost function DemandOf(ings: seq<Ingress>, o: Options): Demand {
    Demand(OwnersOf(CollectedOf(ings)), o.certificates, o.current)
  }

  /** The Ingresses live in properly named namespaces. */
  ghost predicate PlainIngresses(ings: seq<Ingress>) {
    forall ing | ing in ings :: PlainNamespace(SourceOf(ing))
  }

  /** The projected listeners in hostname order. */
  ghost function InOrder(d: Demand): (ls: seq<ProjectedListener>)
    requires Plain(d)
    ensures Elements(ls) == ProjectedOf(d, Listeners(d)) && Ascending(HostnameKey, ls)
  {
    Sorted(HostnameKey, ProjectedOf(d, Listeners(d)))
  }

  ghost function PlacedOf(d: Demand, overflow: bool): Progress
    requires Plain(d)
  {
    PlaceAll(InOrder(d), d.current, overflow)
  }

  ghost function PlacementsOf(d: Demand, overflow: bool): map<string, Placement>
    requires Plain(d)
  {
    var placed := PlacedOf(d, overflow).slots.placed;
    map x | x in placed && x in Listeners(d) :: Placement(placed[x], SecretFor(d, x))
  }

  ghost function SectionsOf(d: Demand, o: Options, placements: map<string, Placement>): map<string, ListenerRef>
    requires Plain(d)
  {
    map h | h in d.owner && ListenerOf(d, h) in placements ::
      ListenerRefAt(o, ListenerOf(d, h), placements[ListenerOf(d, h)].listenerSet)
  }

  // ---------- Specification: emission ----------

  /** The listeners of one parent among the first n hostnames. */
  function EmittedUpTo(o: Options, placements: map<string, Placement>, hostnames: seq<string>, n: nat, index: int): seq<Listener>
    requires n <= |hostnames| && forall x | x in hostnames :: x in placements
  {
    if n == 0 then []
    else
      var before := EmittedUpTo(o, placements, hostnames, n - 1, index);
      var x := hostnames[n - 1];
      if placements[x].listenerSet == index then before + [HttpsListener(o, x, placements[x].secret)] else before
  }

  ghost function EmittedAt(o: Options, placements: map<string, Placement>, index: int): seq<Listener> {
    var hostnames := SortedStrings(placements.Keys);
    EmittedUpTo(o, placements, hostnames, |hostnames|, index)
  }

  ghost function SetsUpTo(o: Options, placements: map<string, Placement>, n: nat): seq<ListenerSet> {
    if n == 0 then []
    else if EmittedAt(o, placements, n) == [] then SetsUpTo(o, placements, n - 1)
    else SetsUpTo(o, placements, n - 1) + [ManagedListenerSet(o, n, EmittedAt(o, placements, n))]
  }

  ghost predicate IsMaxIndex(placements: map<string, Placement>, max: nat) {
    && (forall x | x in placements :: placements[x].listenerSet <= max)
    && (max == 0 || exists x | x in placements :: placements[x].listenerSet == max)
  }

  lemma {:induction false} MaxIndexExists(placements: map<string, Placement>, keys: set<string>) returns (max: nat)
    requires keys <= placements.Keys
    ensures forall x | x in keys :: placements[x].listenerSet <= max
    ensures max == 0 || exists x | x in keys :: placements[x].listenerSet == max
  {
    if keys == {} {
      max := 0;
    } else {
      var x :| x in keys;
      max := MaxIndexExists(placements, keys - {x});
      if placements[x].listenerSet > max {
        max := placements[x].listenerSet;
      }
    }
  }

  ghost function MaxIndex(placements: map<string, Placement>): (max: nat)
    ensures IsMaxIndex(placements, max)
  {
    assert exists max: nat :: IsMaxIndex(placements, max) by {
      var max := MaxIndexExists(placements, placements.Keys);
      assert IsMaxIndex(placements, max);
    }
    var max: nat :| IsMaxIndex(placements, max);
    max
  }

  ghost function SetsOf(o: Options, placements: map<string, Placement>): seq<ListenerSet> {
    SetsUpTo(o, placements, MaxIndex(placements))
  }

  ghost function GatewayOf(o: Options, placements: map<string, Placement>): Gateway {
    Gateway(true, [HttpListener(o)] + EmittedAt(o, placements, 0),
            o.allowListenerSets || SetsOf(o, placements) != [])
  }

  /** The Secrets outside the Gateway's namespace that placed listeners use. */
  ghost function ForeignSecrets(o: Options, placements: map<string, Placement>): set<NamespacedName> {
    set x | x in placements && placements[x].secret.ns != o.ns :: placements[x].secret
  }

  function GrantsFor(o: Options, secrets: seq<NamespacedName>): seq<Grant> {
    seq(|secrets|, i requires 0 <= i < |secrets| => Grant(secrets[i], o.overflow))
  }

  // ---------- Specification: capacity issues ----------

  function ReportSources(issues: Issues, host: string, sources: seq<NamespacedName>, n: nat): Issues
    requires n <= |sources|
  {
    if n == 0 then issues else AddIssue(ReportSources(issues, host, sources, n - 1), sources[n - 1], NoCapacity(host))
  }

  ghost predicate PlainDeclarers(declaredBy: map<string, set<NamespacedName>>) {
    forall h | h in declaredBy :: forall s | s in declaredBy[h] :: PlainNamespace(s)
  }

  ghost function SourcesInOrder(declaredBy: map<string, set<NamespacedName>>, host: string): seq<NamespacedName>
    requires PlainDeclarers(declaredBy)
  {
    SortedNames(Declarers(declaredBy, host))
  }

  ghost function ReportHosts(issues: Issues, declaredBy: map<string, set<NamespacedName>>, hosts: seq<string>, n: nat): Issues
    requires n <= |hosts| && PlainDeclarers(declaredBy)
  {
    if n == 0 then issues
    else
      var sources := SourcesInOrder(declaredBy, hosts[n - 1]);
      ReportSources(ReportHosts(issues, declaredBy, hosts, n - 1), hosts[n - 1], sources, |sources|)
  }

  ghost function ReportUnplaced(issues: Issues, declaredBy: map<string, set<NamespacedName>>,
                                unplaced: seq<ProjectedListener>, n: nat): Issues
    requires n <= |unplaced| && PlainDeclarers(declaredBy)
  {
    if n == 0 then issues
    else
      ReportHosts(ReportUnplaced(issues, declaredBy, unplaced, n - 1), declaredBy, unplaced[n - 1].hosts, |unplaced[n - 1].hosts|)
  }

  // ---------- Plain namespaces are kept ----------

  ghost predicate PlainDeclaration(d: Declaration) {
    PlainNamespace(d.source) && (d.Declares? ==> PlainNamespace(d.secret))
  }

  lemma {:induction false} AbsorbPlain(ds: seq<Declaration>, n: nat)
    requires n <= |ds| && forall d | d in ds :: PlainDeclaration(d)
    ensures var c := AbsorbFirst(NOTHING, ds, n);
            && (forall h | h in c.owners :: PlainNamespace(c.owners[h].secret) && PlainNamespace(c.owners[h].source))
            && PlainDeclarers(c.declaredBy)
  {
    if n > 0 {
      AbsorbPlain(ds, n - 1);
      assert ds[n - 1] in ds;
    }
  }

  ghost predicate AllPlain(ds: seq<Declaration>) {
    forall d | d in ds :: PlainDeclaration(d)
  }

  lemma EntryPlain(ing: Ingress, tls: TLSEntry)
    requires PlainNamespace(SourceOf(ing))
    ensures AllPlain(EntryDeclarations(ing, tls))
  {
  }

  lemma AppendPlain(a: seq<Declaration>, b: seq<Declaration>)
    requires AllPlain(a) && AllPlain(b)
    ensures AllPlain(a + b)
  {
  }

  lemma {:induction false} JoinedPlain(parts: seq<seq<Declaration>>, n: nat)
    requires n <= |parts| && forall k | 0 <= k < |parts| :: AllPlain(parts[k])
    ensures AllPlain(Joined(parts, n))
  {
    if n > 0 {
      JoinedPlain(parts, n - 1);
      AppendPlain(Joined(parts, n - 1), parts[n - 1]);
    }
  }

  lemma EntriesPlain(ing: Ingress)
    requires PlainNamespace(SourceOf(ing))
    ensures AllPlain(LiveDeclarations(ing))
  {
    forall k | 0 <= k < |ing.tls| ensures AllPlain(EntryParts(ing)[k]) {
      EntryPlain(ing, ing.tls[k]);
    }
    JoinedPlain(EntryParts(ing), |ing.tls|);
  }

  lemma DeclarationsPlain(ings: seq<Ingress>)
    requires PlainIngresses(ings)
    ensures AllPlain(Declarations(ings, |ings|))
  {
    forall i | 0 <= i < |ings| ensures AllPlain(IngressParts(ings)[i]) {
      assert ings[i] in ings;
      EntriesPlain(ings[i]);
    }
    JoinedPlain(IngressParts(ings), |ings|);
  }

  lemma CollectedPlain(ings: seq<Ingress>, o: Options)
    requires PlainIngresses(ings)
    ensures Plain(DemandOf(ings, o)) && PlainDeclarers(CollectedOf(ings).declaredBy)
  {
    var sorted := SortBy(IngressKey, ings);
    SortByElements(IngressKey, ings);
    forall ing | ing in sorted ensures PlainNamespace(SourceOf(ing)) {
      assert ing in Elements(sorted);
      assert ing in ings;
    }
    DeclarationsPlain(sorted);
    var ds := Declarations(sorted, |sorted|);
    AbsorbPlain(ds, |ds|);
  }

  // ---------- Specification: the plan ----------

  ghost function BuildPlan(ings: seq<Ingress>, o: Options): GatewayPlan
    requires PlainIngresses(ings)
  {
    CollectedPlain(ings, o);
    var c := CollectedOf(ings);
    PlanFor(c, DemandOf(ings, o), o)
  }

  ghost function PlanFor(c: Collected, d: Demand, o: Options): GatewayPlan
    requires Plain(d) && PlainDeclarers(c.declaredBy)
  {
    var placements := PlacementsOf(d, o.overflow);
    var unplaced := PlacedOf(d, o.overflow).rest;
    PlacementsPlain(d, o);
    GatewayPlan(
      GatewayOf(o, placements),
      SetsOf(o, placements),
      GrantsFor(o, SortedNames(ForeignSecrets(o, placements))),
      c.owners.Keys,
      SectionsOf(d, o, placements),
      placements,
      ReportUnplaced(c.issues, c.declaredBy, unplaced, |unplaced|))
  }

  lemma SecretForOwned(d: Demand, listener: string)
    requires Plain(d) && listener in Listeners(d)
    ensures exists h | h in d.owner :: ListenerOf(d, h) == listener && d.owner[h] == SecretFor(d, listener)
  {
    ListenerShape(d, listener);
    if IsWildcard(listener) {
      var key := Elected(d, listener);
      var h :| h in ClassHosts(d, listener, key) && d.owner[h] == Canonical(d, listener);
      assert h in Served(d, listener);
    } else {
      assert listener in Served(d, listener);
    }
  }

  lemma PlacementsPlain(d: Demand, o: Options)
    requires Plain(d)
    ensures forall s | s in ForeignSecrets(o, PlacementsOf(d, o.overflow)) :: PlainNamespace(s)
  {
    var placements := PlacementsOf(d, o.overflow);
    forall x | x in placements ensures PlainNamespace(placements[x].secret) {
      SecretForOwned(d, x);
    }
  }

  // ---------- The code ----------

  method ReportCapacity(issues0: Issues, declaredBy: map<string, set<NamespacedName>>, unplaced: seq<ProjectedListener>)
    returns (issues: Issues)
    requires PlainDeclarers(declaredBy)
    ensures issues == ReportUnplaced(issues0, declaredBy, unplaced, |unplaced|)
  {
    issues := issues0;
    for i := 0 to |unplaced|
      invariant issues == ReportUnplaced(issues0, declaredBy, unplaced, i)
    {
      var hosts := unplaced[i].hosts;
      ghost var issues1 := issues;
      for j := 0 to |hosts|
        invariant issues == ReportHosts(issues1, declaredBy, hosts, j)
      {
        SlashedDistinct(Declarers(declaredBy, hosts[j]));
        var sources := SortSet(SlashedKey, Declarers(declaredBy, hosts[j]));
        ghost var issues2 := issues;
        for k := 0 to |sources|
          invariant issues == ReportSources(issues2, hosts[j], sources, k)
        {
          issues := AddIssue(issues, sources[k], NoCapacity(hosts[j]));
        }
      }
    }
  }

  /** What the emission loop has filled in. */
  datatype Emission = Emission(
    listeners: seq<Listener>,
    setEntries: map<int, seq<Listener>>,
    maxIndex: nat,
    sections: map<string, ListenerRef>,
    placements: map<string, Placement>)

  function EntriesAt(setEntries: map<int, seq<Listener>>, index: int): seq<Listener> {
    if index in setEntries then setEntries[index] else []
  }

  /** The part of the target placement that the first n hostnames cover. */
  ghost function Covered(target: map<string, Placement>, hostnames: seq<string>, n: nat): map<string, Placement>
    requires n <= |hostnames|
  {
    map x | x in FirstN(hostnames, n) && x in target :: target[x]
  }

  /** The listeners of each ListenerSet among the first n hostnames. */
  function EntriesUpTo(o: Options, target: map<string, Placement>, hostnames: seq<string>, n: nat): map<int, seq<Listener>>
    requires n <= |hostnames| && forall x | x in hostnames :: x in target
  {
    if n == 0 then map[]
    else
      var before, p := EntriesUpTo(o, target, hostnames, n - 1), target[hostnames[n - 1]];
      if p.listenerSet == 0 then before
      else before[p.listenerSet := EntriesAt(before, p.listenerSet) + [HttpsListener(o, hostnames[n - 1], p.secret)]]
  }

  lemma {:induction false} EntriesMean(o: Options, target: map<string, Placement>, hostnames: seq<string>, n: nat, i: int)
    requires n <= |hostnames| && (forall x | x in hostnames :: x in target) && i != 0
    ensures EntriesAt(EntriesUpTo(o, target, hostnames, n), i) == EmittedUpTo(o, target, hostnames, n, i)
    ensures i in EntriesUpTo(o, target, hostnames, n) <==> EmittedUpTo(o, target, hostnames, n, i) != []
  {
    if n > 0 {
      EntriesMean(o, target, hostnames, n - 1, i);
    }
  }

  ghost predicate ListenersSoFar(o: Options, target: map<string, Placement>, hostnames: seq<string>, n: nat, e: Emission)
    requires n <= |hostnames| && forall x | x in hostnames :: x in target
  {
    && e.listeners == [HttpListener(o)] + EmittedUpTo(o, target, hostnames, n, 0)
    && e.setEntries == EntriesUpTo(o, target, hostnames, n)
  }

  ghost predicate EmittedSoFar(d: Demand, o: Options, target: map<string, Placement>, hostnames: seq<string>, n: nat, e: Emission)
    requires Plain(d) && n <= |hostnames| && forall x | x in hostnames :: x in target
  {
    && ListenersSoFar(o, target, hostnames, n, e)
    && e.placements == Covered(target, hostnames, n)
    && IsMaxIndex(e.placements, e.maxIndex)
    && e.sections == SectionsOf(d, o, e.placements)
  }

  lemma ListenersStep(o: Options, target: map<string, Placement>, hostnames: seq<string>, n: nat, e: Emission, f: Emission)
    requires n < |hostnames| && forall x | x in hostnames :: x in target
    requires ListenersSoFar(o, target, hostnames, n, e)
    requires var p := target[hostnames[n]];
             var listener := HttpsListener(o, hostnames[n], p.secret);
             if p.listenerSet == 0 then f.listeners == e.listeners + [listener] && f.setEntries == e.setEntries
             else f.listeners == e.listeners &&
                  f.setEntries == e.setEntries[p.listenerSet := EntriesAt(e.setEntries, p.listenerSet) + [listener]]
    ensures ListenersSoFar(o, target, hostnames, n + 1, f)
  {
    assert f.listeners == [HttpListener(o)] + EmittedUpTo(o, target, hostnames, n + 1, 0);
  }

  lemma MaxIndexStep(placements: map<string, Placement>, max: nat, x: string, p: Placement)
    requires IsMaxIndex(placements, max) && x !in placements
    ensures IsMaxIndex(placements[x := p], if p.listenerSet > max then p.listenerSet else max)
  {
    var after := placements[x := p];
    if p.listenerSet > max {
      assert after[x].listenerSet == p.listenerSet;
    } else if max != 0 {
      var y :| y in placements && placements[y].listenerSet == max;
      assert after[y].listenerSet == max;
    }
  }

  lemma SectionsStep(d: Demand, o: Options, placements: map<string, Placement>, x: string, p: Placement,
                     sections: map<string, ListenerRef>)
    requires Plain(d) && x !in placements
    requires sections == SectionsOf(d, o, placements) +
                         (map h | h in Served(d, x) :: ListenerRefAt(o, x, p.listenerSet))
    ensures sections == SectionsOf(d, o, placements[x := p])
  {
  }

  method RecordSections(sections0: map<string, ListenerRef>, hosts: seq<string>, ref: ListenerRef)
    returns (sections: map<string, ListenerRef>)
    ensures sections == sections0 + (map h | h in Elements(hosts) :: ref)
  {
    sections := sections0;
    for j := 0 to |hosts|
      invariant sections == sections0 + (map h | h in FirstN(hosts, j) :: ref)
    {
      sections := sections[hosts[j] := ref];
    }
    FirstNAll(hosts);
  }

  /** One round of the emission loop. */
  method EmitOne(ghost d: Demand, o: Options, ghost target: map<string, Placement>, ghost hostnames: seq<string>,
                 ghost n: nat, e: Emission, l: ProjectedListener, index: int)
    returns (f: Emission)
    requires Plain(d) && n < |hostnames| && (forall x | x in hostnames :: x in target) && NoDuplicates(hostnames)
    requires EmittedSoFar(d, o, target, hostnames, n, e)
    requires l.hostname == hostnames[n] && l.hostname in Listeners(d) && l == Projected(d, l.hostname)
    requires target[hostnames[n]] == Placement(index, l.secret)
    ensures EmittedSoFar(d, o, target, hostnames, n + 1, f)
  {
    var listener := HttpsListener(o, l.hostname, l.secret);
    var listeners, setEntries, maxIndex := e.listeners, e.setEntries, e.maxIndex;
    if index == 0 {
      listeners := listeners + [listener];
    } else {
      setEntries := setEntries[index := EntriesAt(setEntries, index) + [listener]];
      if index > maxIndex {
        maxIndex := index;
      }
    }
    var ref := ListenerRefAt(o, l.hostname, index);
    var sections := RecordSections(e.sections, l.hosts, ref);
    var placements := e.placements[l.hostname := Placement(index, l.secret)];
    f := Emission(listeners, setEntries, maxIndex, sections, placements);
    ListenersStep(o, target, hostnames, n, e, f);
    RestStep(d, o, target, hostnames, n, e, f);
  }

  lemma RestStep(d: Demand, o: Options, target: map<string, Placement>, hostnames: seq<string>, n: nat, e: Emission, f: Emission)
    requires Plain(d) && n < |hostnames| && (forall x | x in hostnames :: x in target) && NoDuplicates(hostnames)
    requires e.placements == Covered(target, hostnames, n)
    requires IsMaxIndex(e.placements, e.maxIndex) && e.sections == SectionsOf(d, o, e.placements)
    requires var x := hostnames[n];
             var p := target[x];
             && f.placements == e.placements[x := p]
             && f.maxIndex == (if p.listenerSet > e.maxIndex then p.listenerSet else e.maxIndex)
             && f.sections == e.sections + (map h | h in Served(d, x) :: ListenerRefAt(o, x, p.listenerSet))
    ensures f.placements == Covered(target, hostnames, n + 1)
    ensures IsMaxIndex(f.placements, f.maxIndex) && f.sections == SectionsOf(d, o, f.placements)
  {
    var x := hostnames[n];
    FirstNFresh(hostnames, n);
    MaxIndexStep(e.placements, e.maxIndex, x, target[x]);
    SectionsStep(d, o, e.placements, x, target[x], f.sections);
    CoveredStep(target, hostnames, n);
  }

  lemma CoveredStep(target: map<string, Placement>, hostnames: seq<string>, n: nat)
    requires n < |hostnames| && hostnames[n] in target
    ensures Covered(target, hostnames, n + 1) == Covered(target, hostnames, n)[hostnames[n] := target[hostnames[n]]]
  {
  }

  method EmitAll(ghost d: Demand, o: Options, ghost target: map<string, Placement>,
                 projected: seq<ProjectedListener>, placed: map<string, int>)
    returns (e: Emission, hostnames: seq<string>)
    requires Plain(d) && Elements(projected) == ProjectedOf(d, Listeners(d)) && NoDuplicates(projected)
    requires placed.Keys == target.Keys <= Listeners(d)
    requires forall x | x in placed :: target[x] == Placement(placed[x], SecretFor(d, x))
    ensures hostnames == SortedStrings(target.Keys)
    ensures EmittedSoFar(d, o, target, hostnames, |hostnames|, e)
  {
    var byHostname := IndexByHostname(d, projected);
    hostnames := SortStringSet(placed.Keys);
    AllEmittable(d, target, placed, byHostname, hostnames);
    e := EmitLoop(d, o, target, hostnames, byHostname, placed);
  }

  lemma AllEmittable(d: Demand, target: map<string, Placement>, placed: map<string, int>,
                     byHostname: map<string, ProjectedListener>, hostnames: seq<string>)
    requires Plain(d) && placed.Keys == target.Keys <= Listeners(d) && hostnames == SortedStrings(placed.Keys)
    requires forall x | x in placed :: target[x] == Placement(placed[x], SecretFor(d, x))
    requires byHostname.Keys == Listeners(d) && forall x | x in byHostname :: byHostname[x] == Projected(d, x)
    ensures Emitting(d, target, placed, byHostname, hostnames)
  {
  }

  method EmitLoop(ghost d: Demand, o: Options, ghost target: map<string, Placement>, hostnames: seq<string>,
                  byHostname: map<string, ProjectedListener>, placed: map<string, int>)
    returns (e: Emission)
    requires Plain(d) && Emitting(d, target, placed, byHostname, hostnames)
    requires forall x | x in hostnames :: x in target
    ensures EmittedSoFar(d, o, target, hostnames, |hostnames|, e)
  {
    e := Emission([HttpListener(o)], map[], 0, map[], map[]);
    NothingEmitted(d, o, target, hostnames);
    for i := 0 to |hostnames|
      invariant EmittedSoFar(d, o, target, hostnames, i, e)
    {
      e := EmitNext(d, o, target, hostnames, i, e, byHostname, placed);
    }
  }

  /** What the emission loop knows throughout. */
  ghost predicate Emitting(d: Demand, target: map<string, Placement>, placed: map<string, int>,
                           byHostname: map<string, ProjectedListener>, hostnames: seq<string>)
    requires Plain(d)
  {
    && NoDuplicates(hostnames) && forall x | x in hostnames :: Emittable(d, target, placed, byHostname, x)
  }

  ghost predicate Emittable(d: Demand, target: map<string, Placement>, placed: map<string, int>,
                            byHostname: map<string, ProjectedListener>, x: string)
    requires Plain(d)
  {
    && x in placed && x in byHostname && x in target && x in Listeners(d)
    && byHostname[x] == Projected(d, x) && target[x] == Placement(placed[x], byHostname[x].secret)
  }

  method EmitNext(ghost d: Demand, o: Options, ghost target: map<string, Placement>, hostnames: seq<string>, i: nat, e: Emission,
                  byHostname: map<string, ProjectedListener>, placed: map<string, int>)
    returns (f: Emission)
    requires Plain(d) && Emitting(d, target, placed, byHostname, hostnames) && i < |hostnames|
    requires forall x | x in hostnames :: x in target
    requires EmittedSoFar(d, o, target, hostnames, i, e)
    ensures EmittedSoFar(d, o, target, hostnames, i + 1, f)
  {
    var hostname := hostnames[i];
    assert Emittable(d, target, placed, byHostname, hostname);
    f := EmitOne(d, o, target, hostnames, i, e, byHostname[hostname], placed[hostname]);
  }

  lemma NothingEmitted(d: Demand, o: Options, target: map<string, Placement>, hostnames: seq<string>)
    requires Plain(d) && forall x | x in hostnames :: x in target
    ensures EmittedSoFar(d, o, target, hostnames, 0, Emission([HttpListener(o)], map[], 0, map[], map[]))
  {
  }

  /** Distinct listeners have distinct hostnames, so the index loses none of them. */
  method IndexByHostname(ghost d: Demand, projected: seq<ProjectedListener>)
    returns (byHostname: map<string, ProjectedListener>)
    requires Plain(d) && Elements(projected) == ProjectedOf(d, Listeners(d))
    ensures byHostname.Keys == Listeners(d)
    ensures forall x | x in byHostname :: byHostname[x] == Projected(d, x)
  {
    byHostname := map[];
    for i := 0 to |projected|
      invariant forall j | 0 <= j < i :: projected[j].hostname in byHostname
      invariant forall x | x in byHostname :: x in Listeners(d) && byHostname[x] == Projected(d, x)
    {
      assert projected[i] in Elements(projected);
      byHostname := byHostname[projected[i].hostname := projected[i]];
    }
    forall x | x in Listeners(d) ensures x in byHostname {
      assert Projected(d, x) in Elements(projected);
    }
  }

  method CollectSets(o: Options, ghost target: map<string, Placement>, ghost hostnames: seq<string>, e: Emission)
    returns (sets: seq<ListenerSet>)
    requires hostnames == SortedStrings(target.Keys)
    requires ListenersSoFar(o, target, hostnames, |hostnames|, e)
    ensures sets == SetsUpTo(o, target, e.maxIndex)
  {
    sets := [];
    for index := 1 to e.maxIndex + 1
      invariant sets == SetsUpTo(o, target, index - 1)
    {
      EntriesMean(o, target, hostnames, |hostnames|, index);
      if index in e.setEntries {
        sets := sets + [ManagedListenerSet(o, index, e.setEntries[index])];
      }
    }
  }

  method CollectGrants(o: Options, placements: map<string, Placement>) returns (grants: seq<Grant>)
    requires forall s | s in ForeignSecrets(o, placements) :: PlainNamespace(s)
    ensures grants == GrantsFor(o, SortedNames(ForeignSecrets(o, placements)))
  {
    var secrets: set<NamespacedName> := {};
    var rest := placements.Keys;
    while rest != {}
      invariant rest <= placements.Keys
      invariant secrets == set x | x in placements.Keys - rest && placements[x].secret.ns != o.ns :: placements[x].secret
      decreases rest
    {
      var x :| x in rest;
      if placements[x].secret.ns != o.ns {
        secrets := secrets + {placements[x].secret};
      }
      rest := rest - {x};
    }
    assert secrets == ForeignSecrets(o, placements);
    SlashedDistinct(secrets);
    var sorted := SortSet(SlashedKey, secrets);
    grants := [];
    for i := 0 to |sorted|
      invariant |grants| == i && forall j | 0 <= j < i :: grants[j] == Grant(sorted[j], o.overflow)
    {
      grants := grants + [Grant(sorted[i], o.overflow)];
    }
  }

  lemma PlacedAreListeners(d: Demand, overflow: bool)
    requires Plain(d)
    ensures DistinctNames(InOrder(d)) && Names(InOrder(d)) == Listeners(d)
    ensures PlacedOf(d, overflow).slots.placed.Keys <= Listeners(d)
    ensures PlacementsOf(d, overflow).Keys == PlacedOf(d, overflow).slots.placed.Keys
  {
    InOrderDistinct(d);
    PlacementSound(InOrder(d), d.current, overflow);
    forall x | x in PlacedOf(d, overflow).slots.placed ensures x in Listeners(d) {
      assert x in Names(InOrder(d));
    }
  }

  lemma InOrderDistinct(d: Demand)
    requires Plain(d)
    ensures DistinctNames(InOrder(d)) && Names(InOrder(d)) == Listeners(d)
    ensures forall l | l in InOrder(d) :: l.hostname in Listeners(d) && l == Projected(d, l.hostname)
  {
    var ls := InOrder(d);
    forall i, j | 0 <= i < j < |ls| ensures ls[i].hostname != ls[j].hostname {
      KeyLessTotal(HostnameKey(ls[i]), HostnameKey(ls[j]));
    }
    forall l | l in ls ensures l.hostname in Listeners(d) && l == Projected(d, l.hostname) {
      assert l in Elements(ls);
    }
    forall x | x in Listeners(d) ensures x in Names(ls) {
      assert Projected(d, x) in Elements(ls);
    }
  }

  /** The whole projection of Ingresses onto the managed Gateway. */
  method BuildManagedGateway(ings: seq<Ingress>, o: Options) returns (plan: GatewayPlan)
    requires PlainIngresses(ings)
    ensures plan == BuildPlan(ings, o)
  {
    var sorted := SortBy(IngressKey, ings);
    var certificates, declaredBy, tlsHosts, issues := CollectDeclarations(sorted);
    ghost var d := DemandOf(ings, o);
    CollectedPlain(ings, o);
    var groups, targets := GroupHosts(d, certificates, o.certificates);
    var projected := ProjectGroups(d, groups, targets, o.certificates, o.current);
    var placed, unplaced := PlaceListeners(projected, o.current, o.overflow);
    SortByIsSorted(HostnameKey, projected);
    issues := ReportCapacity(issues, declaredBy, unplaced);
    PlacedAreListeners(d, o.overflow);
    ghost var target := PlacementsOf(d, o.overflow);
    var e, hostnames := EmitAll(d, o, target, projected, placed);
    EmissionComplete(d, o, target, hostnames, e);
    var sets := CollectSets(o, target, hostnames, e);
    PlacementsPlain(d, o);
    var grants := CollectGrants(o, e.placements);
    plan := GatewayPlan(Gateway(true, e.listeners, o.allowListenerSets || |sets| > 0), sets, grants,
                        tlsHosts, e.sections, e.placements, issues);
  }

  lemma EmissionComplete(d: Demand, o: Options, target: map<string, Placement>, hostnames: seq<string>, e: Emission)
    requires Plain(d) && hostnames == SortedStrings(target.Keys)
    requires EmittedSoFar(d, o, target, hostnames, |hostnames|, e)
    ensures e.placements == target && e.sections == SectionsOf(d, o, target)
    ensures e.listeners == [HttpListener(o)] + EmittedAt(o, target, 0)
    ensures e.maxIndex == MaxIndex(target)
  {
    FirstNAll(hostnames);
    assert e.placements == target;
    MaxIndexUnique(target, e.maxIndex, MaxIndex(target));
  }

  lemma MaxIndexUnique(placements: map<string, Placement>, a: nat, b: nat)
    requires IsMaxIndex(placements, a) && IsMaxIndex(placements, b)
    ensures a == b
  {
  }
}
