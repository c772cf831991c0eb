// A run in which a listener moves, a write fails, the retry completes, and the Ingress
// on the listener is never pushed.
module LostPush {
  import opened Text
  import opened Model
  import opened Collect
  import opened Election
  import opened Planner
  import opened PlannerLaws
  import opened Replan
  import opened SmallDemands
  import opened Observing
  import opened Routes
  import opened Runs
  import opened RunLaws
  import opened Settling

  // ---------- Clusters in which nothing is anybody else's ----------

  predicate AllOwn(c: Cluster) {
    && (c.gateway.Some? ==> c.gateway.value.managed)
    && (forall name | name in c.sets :: c.sets[name].managed)
    && (forall secret | secret in c.grants :: c.grants[secret].managed)
  }

  lemma OwnIsUnobstructed(c: Cluster, plan: GatewayPlan)
    requires AllOwn(c)
    ensures Unobstructed(c, plan) && forall c' :: ForeignKept(c, c')
  {
  }

  lemma CompletedReached(o: Options, c: Cluster, plan: GatewayPlan, c': Cluster)
    requires Completed(o, c, plan, c')
    ensures Reached(o, c, plan, c')
  {
    assert Revoking(o, c, plan, c');
  }

  lemma CompletedOwn(o: Options, c: Cluster, plan: GatewayPlan, c': Cluster)
    requires AllOwn(c) && Emits(o, plan) && Completed(o, c, plan, c')
    ensures AllOwn(c')
  {
    forall name | name in c'.sets ensures c'.sets[name].managed {
      AppliedEntry(c.sets, plan.listenerSets, |plan.listenerSets|, name);
      SetsExactly(o, plan.placements, MaxIndex(plan.placements));
    }
    forall secret | secret in c'.grants ensures c'.grants[secret].managed {
      ForeignWasThere(c.grants, plan.grants, |plan.grants|, secret);
    }
  }

  /** Where a complete reconciliation from c ends. */
  ghost function After(o: Options, c: Cluster, plan: GatewayPlan): Cluster {
    Cluster(Some(plan.gateway), AllSets(c, plan) - AllStale(o, c, plan),
            AllGrants(c, plan) - Undesired(AllGrants(c, plan), DesiredSecrets(plan.grants, |plan.grants|)))
  }

  // ---------- The Ingress and its certificate ----------

  const HOST: string := "a.x"
  const WILDCARD: string := "*.x"
  const SECRET: NamespacedName := NamespacedName("n", "s")

  function Web(): Routed {
    Routed("n", "web", 0, false, [TLSEntry("s", [HOST])], [Rule(HOST, Some([PathRule("/", Prefix, "b")]))], None, "", false, None)
  }

  /** The certificate of the Secret, without and with a wildcard SAN. */
  function Exactly(): Certificates {
    Some(map[SECRET := CertificateInfo([HOST], "exact")])
  }

  function Covering(): Certificates {
    Some(map[SECRET := CertificateInfo([HOST, WILDCARD], "wild")])
  }

  lemma WebPlanned(ings: seq<Ingress>)
    requires ings == PlannedAll([Web()])
    ensures PlainIngresses(ings) && |ings| == 1 && ings[0].ns == "n" && !ings[0].deleting
    ensures ings[0].tls == [TLSEntry("s", [HOST])]
  {
  }

  lemma WebOwner(ings: seq<Ingress>)
    requires ings == PlannedAll([Web()])
    ensures PlainIngresses(ings) && OwnersOf(CollectedOf(ings)) == map[HOST := SECRET]
  {
    WebPlanned(ings);
    assert ings == [ings[0]];
    SoleOwner(ings[0], "s", HOST);
  }

  lemma HostParent()
    ensures WildcardParent(HOST) == Some(WILDCARD)
  {
    assert HOST[1..] == ".x";
    assert FirstDot(HOST[1..]) == 0;
    assert FirstDot(HOST) == 1;
    assert "*" + ".x" == WILDCARD;
  }

  /** Whatever was placed before, the host is on its own listener under the one certificate and on the wildcard's
      under the other. */
  lemma WebTarget(d: Demand)
    requires d.owner == map[HOST := SECRET]
    ensures d.certificates == Exactly() ==> Target(d, HOST) == HOST
    ensures d.certificates == Covering() ==> Target(d, HOST) == WILDCARD
  {
    HostParent();
  }

  /** The plan declares the host alone and serves it by the listener. */
  ghost predicate ServedOn(o: Options, plan: GatewayPlan, host: string, listener: string) {
    && listener in plan.placements && plan.tlsSections.Keys == plan.tlsHosts == {host}
    && plan.tlsSections[host] == ListenerRefAt(o, listener, plan.placements[listener].listenerSet)
  }

  lemma SoleSection(c: Collected, d: Demand, o: Options, host: string)
    requires Plain(d) && PlainDeclarers(c.declaredBy) && d.owner.Keys == {host} && c.owners.Keys == {host}
    ensures ServedOn(o, PlanFor(c, d, o), host, Target(d, host))
  {
    SoleHost(d, host, o.overflow);
  }

  lemma WebServed(o: Options, ings: seq<Ingress>, certificates: Certificates, current: map<string, Placement>, host: string,
                  secret: NamespacedName)
    requires PlainIngresses(ings) && OwnersOf(CollectedOf(ings)) == map[host := secret]
    ensures ServedOn(o, PlanFrom(o, ings, certificates, current), host, Target(DemandFrom(o, ings, certificates, current), host))
  {
    var o' := o.(certificates := certificates, current := current);
    assert CollectedOf(ings).owners.Keys == OwnersOf(CollectedOf(ings)).Keys;
    CollectedPlain(ings, o');
    SoleSection(CollectedOf(ings), DemandOf(ings, o'), o', host);
  }

  lemma ServedElsewhere(o: Options, p: GatewayPlan, q: GatewayPlan, host: string, x: string, y: string)
    requires ServedOn(o, p, host, x) && ServedOn(o, q, host, y) && Section(o, x) != Section(o, y)
    ensures host in p.tlsSections && host in q.tlsSections && p.tlsSections[host] != q.tlsSections[host]
  {
    assert ListenerRefAt(o, x, p.placements[x].listenerSet).section == Section(o, x);
    assert ListenerRefAt(o, y, q.placements[y].listenerSet).section == Section(o, y);
  }

  lemma WebStable(o: Options, ings: seq<Ingress>, certificates: Certificates, current: map<string, Placement>, host: string,
                  secret: NamespacedName)
    requires PlainIngresses(ings) && OwnersOf(CollectedOf(ings)) == map[host := secret]
    ensures Stable(o, ings, certificates, current)
  {
    var d := DemandFrom(o, ings, certificates, current);
    SoleHost(d, host, o.overflow);
    NothingStranded(d, o.overflow);
  }

  lemma WebRoutes(plan: GatewayPlan)
    requires plan.tlsHosts == {HOST}
    ensures RoutesTo([Web()], 0, 0, plan, HOST)
  {
    var ing := Web();
    assert AliasesOf(ing) == [] by {
      assert Split("") == [""];
      assert Items([""], 0) == [];
      assert Items([""], 1) == [];
    }
    assert RuleHosts(ing.rules, 0) == [];
    assert RuleHosts(ing.rules, 1) == [HOST] by {
      assert PlainName(HOST);
      NormalName(HOST);
    }
    assert Mentions(ing) == [HOST];
    DistinctMembers([HOST]);
    assert Hosts(ing)[0] == HOST by {
      FirstMention([HOST]);
    }
  }

  // ---------- The run ----------

  const EMPTY_CLUSTER: Cluster := Cluster(None, map[], map[])

  const START: State := State(None, EMPTY_CLUSTER)

  lemma WebBefore(o: Options, ings: seq<Ingress>)
    requires PlainIngresses(ings) && OwnersOf(CollectedOf(ings)) == map[HOST := SECRET]
    ensures ServedOn(o, PlanFrom(o, ings, Exactly(), map[]), HOST, HOST)
  {
    WebTarget(DemandFrom(o, ings, Exactly(), map[]));
    WebServed(o, ings, Exactly(), map[], HOST, SECRET);
  }

  lemma WebAfter(o: Options, ings: seq<Ingress>, current: map<string, Placement>)
    requires PlainIngresses(ings) && OwnersOf(CollectedOf(ings)) == map[HOST := SECRET]
    ensures ServedOn(o, PlanFrom(o, ings, Covering(), current), HOST, WILDCARD)
  {
    WebTarget(DemandFrom(o, ings, Covering(), current));
    WebServed(o, ings, Covering(), current, HOST, SECRET);
  }

  lemma WholeReached(o: Options, c: Cluster, plan: GatewayPlan)
    ensures Completed(o, c, plan, After(o, c, plan)) && Reached(o, c, plan, After(o, c, plan))
  {
    CompletedReached(o, c, plan, After(o, c, plan));
  }

  lemma NoneReached(o: Options, c: Cluster, plan: GatewayPlan)
    ensures Reached(o, c, plan, c) && !Completes(o, c, plan, 0)
  {
    assert AppliedGrants(c.grants, plan.grants, 0) == c.grants;
    assert Granting(c, plan, c);
  }

  lemma StartShows(o: Options)
    ensures Remembered(o, START, map[]) && Safe(o, START) && AllOwn(START.cluster)
  {
  }

  lemma StartOwn(o: Options, ings: seq<Ingress>, certificates: Certificates, plan: GatewayPlan)
    requires PlainIngresses(ings) && plan == PlanFrom(o, ings, certificates, map[])
    ensures AllOwn(After(o, EMPTY_CLUSTER, plan))
  {
    StartShows(o);
    CurrentOk(o, START, map[]);
    PlanProvides(o, ings, certificates, map[]);
    WholeReached(o, EMPTY_CLUSTER, plan);
    CompletedOwn(o, EMPTY_CLUSTER, plan, After(o, EMPTY_CLUSTER, plan));
  }

  /** Three plans, the states after them, and how many calls succeeded for the first and the third. */
  datatype Story = Story(p: GatewayPlan, q: GatewayPlan, r: GatewayPlan, s: State, t: State, u: State, calls0: nat, calls: nat)

  ghost predicate Plans(o: Options, ings: seq<Ingress>, certificates0: Certificates, certificates: Certificates, x: Story) {
    && PlainIngresses(ings)
    && x.p == PlanFrom(o, ings, certificates0, map[])
    && x.q == PlanFrom(o, ings, certificates, x.p.placements)
    && x.r == PlanFrom(o, ings, certificates, x.q.placements)
  }

  /** From an empty cluster one reconciliation applies a plan whole. The next fails at its first call. The third
      applies its plan whole. Neither of the two pushes anybody. */
  ghost predicate Unpushed(o: Options, ings: seq<Routed>, certificates0: Certificates, certificates: Certificates, x: Story) {
    && Plans(o, PlannedAll(ings), certificates0, certificates, x)
    && Completes(o, EMPTY_CLUSTER, x.p, x.calls0)
    && Attempts(o, START, x.s, ings, certificates0, map[], x.calls0, PushesOf(o, ings, certificates0, map[]))
    && Attempts(o, x.s, x.t, ings, certificates, x.p.placements, 0, [])
    && Completes(o, x.t.cluster, x.r, x.calls)
    && Attempts(o, x.t, x.u, ings, certificates, x.q.placements, x.calls, [])
  }

  /** From the first plan to the second the listener of the host moves, and the first Ingress routes the host. */
  ghost predicate MovesAway(ings: seq<Routed>, host: string, x: Story) {
    && host in x.p.tlsSections && host in x.q.tlsSections && x.p.tlsSections[host] != x.q.tlsSections[host]
    && RoutesTo(ings, 0, 0, x.q, host)
  }

  lemma FirstApplied(o: Options, ings: seq<Routed>, certificates: Certificates, p: GatewayPlan, s: State, calls: nat)
    requires PlainIngresses(PlannedAll(ings)) && p == PlanFrom(o, PlannedAll(ings), certificates, map[])
    requires s == State(Some(p.placements), After(o, EMPTY_CLUSTER, p)) && calls == CallsNeeded(o, EMPTY_CLUSTER, p)
    ensures Completes(o, EMPTY_CLUSTER, p, calls)
    ensures Attempts(o, START, s, ings, certificates, map[], calls, PushesOf(o, ings, certificates, map[]))
  {
    StartShows(o);
    OwnIsUnobstructed(EMPTY_CLUSTER, p);
    WholeReached(o, EMPTY_CLUSTER, p);
    IsAttempt(o, START, s, ings, certificates, map[], calls, p);
  }

  lemma FirstSafe(o: Options, ings: seq<Routed>, certificates: Certificates, p: GatewayPlan, s: State)
    requires PlainIngresses(PlannedAll(ings)) && p == PlanFrom(o, PlannedAll(ings), certificates, map[])
    requires s == State(Some(p.placements), After(o, EMPTY_CLUSTER, p))
    ensures Safe(o, s) && AllOwn(s.cluster)
  {
    StartShows(o);
    StartOwn(o, PlannedAll(ings), certificates, p);
    WholeReached(o, EMPTY_CLUSTER, p);
    OwnIsUnobstructed(EMPTY_CLUSTER, p);
    assert Reconciles(o, START, s, PlannedAll(ings), certificates, map[]);
    StepSafe(o, START, s);
  }

  lemma NothingApplied(o: Options, ings: seq<Routed>, certificates: Certificates, current: map<string, Placement>,
                       q: GatewayPlan, s: State, t: State)
    requires PlainIngresses(PlannedAll(ings)) && s.memory == Some(current)
    requires q == PlanFrom(o, PlannedAll(ings), certificates, current) && t == State(Some(q.placements), s.cluster)
    ensures Attempts(o, s, t, ings, certificates, current, 0, [])
  {
    NoneReached(o, s.cluster, q);
    IsAttempt(o, s, t, ings, certificates, current, 0, q);
  }

  lemma WholeApplied(o: Options, ings: seq<Routed>, certificates: Certificates, r: GatewayPlan, t: State, u: State, calls: nat)
    requires PlainIngresses(PlannedAll(ings)) && t.memory.Some? && AllOwn(t.cluster)
    requires r == PlanFrom(o, PlannedAll(ings), certificates, t.memory.value)
    requires u == State(Some(r.placements), After(o, t.cluster, r)) && calls == CallsNeeded(o, t.cluster, r)
    ensures Completes(o, t.cluster, r, calls)
    ensures Attempts(o, t, u, ings, certificates, t.memory.value, calls, PushesOf(o, ings, certificates, t.memory.value))
  {
    OwnIsUnobstructed(t.cluster, r);
    WholeReached(o, t.cluster, r);
    IsAttempt(o, t, u, ings, certificates, t.memory.value, calls, r);
  }

  ghost function StoryOf(o: Options, ings: seq<Ingress>, certificates0: Certificates, certificates: Certificates): (x: Story)
    requires PlainIngresses(ings)
    ensures Plans(o, ings, certificates0, certificates, x)
    ensures x.s == State(Some(x.p.placements), After(o, EMPTY_CLUSTER, x.p)) && x.t == State(Some(x.q.placements), x.s.cluster)
    ensures x.u == State(Some(x.r.placements), After(o, x.t.cluster, x.r))
    ensures x.calls0 == CallsNeeded(o, EMPTY_CLUSTER, x.p) && x.calls == CallsNeeded(o, x.t.cluster, x.r)
  {
    var p := PlanFrom(o, ings, certificates0, map[]);
    var q := PlanFrom(o, ings, certificates, p.placements);
    var r := PlanFrom(o, ings, certificates, q.placements);
    var c := After(o, EMPTY_CLUSTER, p);
    Story(p, q, r, State(Some(p.placements), c), State(Some(q.placements), c), State(Some(r.placements), After(o, c, r)),
          CallsNeeded(o, EMPTY_CLUSTER, p), CallsNeeded(o, c, r))
  }

  /** The third attempt has nobody to push. */
  lemma RetryUnpushed(o: Options, ings: seq<Routed>, certificates: Certificates, current: map<string, Placement>,
                      q: GatewayPlan, r: GatewayPlan, s: State, t: State, u: State, calls: nat)
    requires PlainIngresses(PlannedAll(ings)) && q == PlanFrom(o, PlannedAll(ings), certificates, current)
    requires Stable(o, PlannedAll(ings), certificates, current) && Safe(o, s) && AllOwn(s.cluster)
    requires s.memory == Some(current) && t == State(Some(q.placements), s.cluster)
    requires r == PlanFrom(o, PlannedAll(ings), certificates, q.placements)
    requires u == State(Some(r.placements), After(o, t.cluster, r)) && calls == CallsNeeded(o, t.cluster, r)
    ensures Completes(o, t.cluster, r, calls) && Attempts(o, t, u, ings, certificates, q.placements, calls, [])
  {
    NothingApplied(o, ings, certificates, current, q, s, t);
    WholeApplied(o, ings, certificates, r, t, u, calls);
    RetryPushesNobody(o, s, t, u, ings, certificates, current, 0, [], q.placements, calls,
                      PushesOf(o, ings, certificates, q.placements));
  }

  lemma StoryRetried(o: Options, ings: seq<Routed>, certificates0: Certificates, certificates: Certificates, x: Story)
    requires PlainIngresses(PlannedAll(ings)) && x == StoryOf(o, PlannedAll(ings), certificates0, certificates)
    requires Stable(o, PlannedAll(ings), certificates, x.p.placements)
    ensures Completes(o, x.t.cluster, x.r, x.calls)
    ensures Attempts(o, x.t, x.u, ings, certificates, x.q.placements, x.calls, [])
  {
    FirstSafe(o, ings, certificates0, x.p, x.s);
    RetryUnpushed(o, ings, certificates, x.p.placements, x.q, x.r, x.s, x.t, x.u, x.calls);
  }

  lemma StoryStarted(o: Options, ings: seq<Routed>, certificates0: Certificates, certificates: Certificates, x: Story)
    requires PlainIngresses(PlannedAll(ings)) && x == StoryOf(o, PlannedAll(ings), certificates0, certificates)
    ensures Completes(o, EMPTY_CLUSTER, x.p, x.calls0)
    ensures Attempts(o, START, x.s, ings, certificates0, map[], x.calls0, PushesOf(o, ings, certificates0, map[]))
  {
    FirstApplied(o, ings, certificates0, x.p, x.s, x.calls0);
  }

  lemma StoryFailed(o: Options, ings: seq<Routed>, certificates0: Certificates, certificates: Certificates, x: Story)
    requires PlainIngresses(PlannedAll(ings)) && x == StoryOf(o, PlannedAll(ings), certificates0, certificates)
    ensures Attempts(o, x.s, x.t, ings, certificates, x.p.placements, 0, [])
  {
    NothingApplied(o, ings, certificates, x.p.placements, x.q, x.s, x.t);
  }

  lemma StoryUnpushed(o: Options, ings: seq<Routed>, certificates0: Certificates, certificates: Certificates, x: Story)
    requires PlainIngresses(PlannedAll(ings)) && x == StoryOf(o, PlannedAll(ings), certificates0, certificates)
    requires Stable(o, PlannedAll(ings), certificates, x.p.placements)
    ensures Unpushed(o, ings, certificates0, certificates, x)
  {
    StoryStarted(o, ings, certificates0, certificates, x);
    StoryFailed(o, ings, certificates0, certificates, x);
    StoryRetried(o, ings, certificates0, certificates, x);
  }

  lemma WebMoves(o: Options, ings: seq<Ingress>, x: Story)
    requires PlainIngresses(ings) && OwnersOf(CollectedOf(ings)) == map[HOST := SECRET]
    requires Section(o, HOST) != Section(o, WILDCARD) && Plans(o, ings, Exactly(), Covering(), x)
    ensures MovesAway([Web()], HOST, x)
  {
    WebBefore(o, ings);
    WebAfter(o, ings, x.p.placements);
    ServedElsewhere(o, x.p, x.q, HOST, HOST, WILDCARD);
    WebRoutes(x.q);
  }

  /** Its certificate gaining a wildcard SAN moves the host of the one Ingress, and the push is lost. */
  lemma PushIsLost(o: Options)
    requires Section(o, HOST) != Section(o, WILDCARD)
    ensures exists x :: Unpushed(o, [Web()], Exactly(), Covering(), x) && MovesAway([Web()], HOST, x)
  {
    var ings := PlannedAll([Web()]);
    WebOwner(ings);
    var x := StoryOf(o, ings, Exactly(), Covering());
    WebStable(o, ings, Covering(), x.p.placements, HOST, SECRET);
    StoryUnpushed(o, [Web()], Exactly(), Covering(), x);
    WebMoves(o, ings, x);
  }
}
