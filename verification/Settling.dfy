// Repeating a reconciliation: when it changes nothing any more, and when the Ingresses
// whose listener moved are pushed.
module Settling {
  import opened Text
  import opened Model
  import opened Election
  import opened Planner
  import opened PlannerLaws
  import opened Replan
  import opened Rebuild
  import opened Observing
  import opened Routes
  import opened Runs
  import opened RunLaws

  // ---------- A cluster that needs no write ----------

  predicate HasSets(sets: map<string, ListenerSet>, desired: seq<ListenerSet>) {
    forall s | s in desired :: s.name in sets && sets[s.name] == s
  }

  predicate HasGrants(grants: Grants, desired: seq<Grant>) {
    forall g | g in desired :: g.secret in grants && grants[g.secret] == CertificateGrant(true, g.toListenerSets)
  }

  /** The cluster holds the plan's objects and no others of the bridge. */
  ghost predicate UpToDate(o: Options, c: Cluster, plan: GatewayPlan) {
    && c.gateway == Some(plan.gateway)
    && HasSets(c.sets, plan.listenerSets) && HasGrants(c.grants, plan.grants)
    && (o.overflow ==> Stale(c.sets, DesiredNames(plan.listenerSets, |plan.listenerSets|)) == {})
    && Undesired(c.grants, DesiredSecrets(plan.grants, |plan.grants|)) == {}
  }

  lemma {:induction false} ApplyAgain(sets: map<string, ListenerSet>, desired: seq<ListenerSet>, n: nat)
    requires n <= |desired| && HasSets(sets, desired)
    ensures AppliedSets(sets, desired, n) == sets
  {
    if n > 0 {
      ApplyAgain(sets, desired, n - 1);
      assert desired[n - 1] in desired;
    }
  }

  lemma {:induction false} GrantAgain(grants: Grants, desired: seq<Grant>, n: nat)
    requires n <= |desired| && HasGrants(grants, desired)
    ensures AppliedGrants(grants, desired, n) == grants
  {
    if n > 0 {
      GrantAgain(grants, desired, n - 1);
      assert desired[n - 1] in desired;
    }
  }

  /** Reconciling a settled cluster towards its plan changes nothing, however far it gets. */
  lemma SettledStays(o: Options, c: Cluster, plan: GatewayPlan, c': Cluster)
    requires UpToDate(o, c, plan) && Reached(o, c, plan, c')
    ensures c' == c
  {
    GrantAgain(c.grants, plan.grants, |plan.grants|);
    ApplyAgain(c.sets, plan.listenerSets, |plan.listenerSets|);
    NothingGone(c.sets);
    NothingGone(c.grants);
    if Granting(c, plan, c') {
      var n :| 0 <= n <= |plan.grants| && c' == c.(grants := AppliedGrants(c.grants, plan.grants, n));
      GrantAgain(c.grants, plan.grants, n);
    } else if Applying(c, plan, c') {
      var n :| 0 <= n <= |plan.listenerSets| &&
        c' == Cluster(Some(plan.gateway), AppliedSets(c.sets, plan.listenerSets, n), AllGrants(c, plan));
      ApplyAgain(c.sets, plan.listenerSets, n);
    }
  }

  // ---------- What a complete reconciliation leaves ----------

  /** Sets of one placement that share a name are the same set. */
  lemma NamedOnce(o: Options, p: map<string, Placement>, s: ListenerSet, s': ListenerSet)
    requires DistinctSetNames(o, p) && s in SetsOf(o, p) && s' in SetsOf(o, p) && s.name == s'.name
    ensures s == s'
  {
    SetsExactly(o, p, MaxIndex(p));
    DesiredIsEmission(o, p, s, s.index.value);
    DesiredIsEmission(o, p, s', s.index.value);
  }

  lemma AppliedHas(o: Options, p: map<string, Placement>, sets: map<string, ListenerSet>)
    requires DistinctSetNames(o, p)
    ensures HasSets(AppliedSets(sets, SetsOf(o, p), |SetsOf(o, p)|), SetsOf(o, p))
  {
    var desired := SetsOf(o, p);
    forall s | s in desired
      ensures s.name in AppliedSets(sets, desired, |desired|) && AppliedSets(sets, desired, |desired|)[s.name] == s
    {
      DesiredNamesMembers(desired, |desired|);
      AppliedEntry(sets, desired, |desired|, s.name);
      NamedOnce(o, p, AppliedSets(sets, desired, |desired|)[s.name], s);
    }
  }

  lemma KeptSets(sets: map<string, ListenerSet>, desired: seq<ListenerSet>, gone: set<string>)
    requires HasSets(sets, desired)
    requires gone == {} || gone == Stale(sets, DesiredNames(desired, |desired|))
    ensures HasSets(sets - gone, desired)
    ensures gone == Stale(sets, DesiredNames(desired, |desired|)) ==> Stale(sets - gone, DesiredNames(desired, |desired|)) == {}
  {
    DesiredNamesMembers(desired, |desired|);
    forall s | s in desired ensures s.name in sets - gone {
      var j :| 0 <= j < |desired| && desired[j] == s;
      assert desired[j].name in DesiredNames(desired, |desired|);
    }
  }

  lemma KeptGrants(o: Options, grants: Grants, desired: seq<Grant>)
    requires GrantsAll(o, DesiredSecrets(desired, |desired|), grants) && forall g | g in desired :: g.toListenerSets == o.overflow
    ensures var keep := DesiredSecrets(desired, |desired|);
            var kept := grants - Undesired(grants, keep);
            HasGrants(kept, desired) && Undesired(kept, keep) == {}
  {
    DesiredSecretsMembers(desired, |desired|);
    var keep := DesiredSecrets(desired, |desired|);
    forall g | g in desired ensures g.secret in keep {
      var j :| 0 <= j < |desired| && desired[j] == g;
    }
  }

  lemma CompletedSettles(o: Options, c: Cluster, plan: GatewayPlan, c': Cluster)
    requires Provides(o, plan) && DistinctSetNames(o, plan.placements) && Completed(o, c, plan, c')
    ensures UpToDate(o, c', plan)
  {
    AppliedHas(o, plan.placements, c.sets);
    KeptSets(AllSets(c, plan), plan.listenerSets, AllStale(o, c, plan));
    AppliedGrantsKept(o, c.grants, plan.grants, |plan.grants|);
    KeptGrants(o, AllGrants(c, plan), plan.grants);
  }

  // ---------- Convergence ----------

  ghost function DemandFrom(o: Options, ings: seq<Ingress>, certificates: Certificates, current: map<string, Placement>): (d: Demand)
    requires PlainIngresses(ings)
    ensures Plain(d)
  {
    CollectedPlain(ings, o.(certificates := certificates, current := current));
    DemandOf(ings, o.(certificates := certificates, current := current))
  }

  /** Every class the plan elects outlasts every other; so it is when every declared host is served. */
  ghost predicate Stable(o: Options, ings: seq<Ingress>, certificates: Certificates, current: map<string, Placement>)
    requires PlainIngresses(ings)
  {
    AllReelected(DemandFrom(o, ings, certificates, current), o.overflow)
  }

  /** The next plan of the same Ingresses and certificates is the same exactly when the first is stable. */
  lemma NextPlanSame(o: Options, ings: seq<Ingress>, certificates: Certificates, current: map<string, Placement>)
    requires PlainIngresses(ings) && MemoryOk(o, current)
    ensures var plan := PlanFrom(o, ings, certificates, current);
            PlanFrom(o, ings, certificates, plan.placements) == plan <==> Stable(o, ings, certificates, current)
  {
    var o' := o.(certificates := certificates, current := current);
    RebuildExactly(ings, o');
    var p := PlanFrom(o, ings, certificates, current).placements;
    assert o'.(current := p) == o.(certificates := certificates, current := p);
  }

  /** It is stable when every declared TLS host got a listener. */
  lemma ServedIsStable(o: Options, ings: seq<Ingress>, certificates: Certificates, current: map<string, Placement>)
    requires PlainIngresses(ings)
    requires var plan := PlanFrom(o, ings, certificates, current); plan.tlsSections.Keys == plan.tlsHosts
    ensures Stable(o, ings, certificates, current)
  {
    var d := DemandFrom(o, ings, certificates, current);
    assert d.owner.Keys == CollectedOf(ings).owners.Keys;
    AllSectioned(d, o.(certificates := certificates, current := current));
    NothingStranded(d, o.overflow);
  }

  /** The cluster is c, and the memory p or lost. */
  ghost predicate RestsAt(o: Options, s: State, p: map<string, Placement>, c: Cluster) {
    s.cluster == c && (s.memory.Some? ==> s.memory.value == p)
  }

  /** A restart, or another reconciliation of the same Ingresses and certificates, as far as it gets. */
  ghost predicate Repeats(o: Options, s: State, t: State, ings: seq<Ingress>, certificates: Certificates) {
    Restarts(s, t) || exists current :: Reconciles(o, s, t, ings, certificates, current)
  }

  lemma CurrentAt(o: Options, s: State, p: map<string, Placement>, c: Cluster, current: map<string, Placement>)
    requires RestsAt(o, s, p, c) && Placeable(o, p) && Reflects(o, c, p) && Remembered(o, s, current)
    ensures current == p
  {
    if s.memory.None? {
      EmitObserveIdentity(o, c, p, current);
    }
  }

  lemma RepeatStays(o: Options, s: State, t: State, ings: seq<Ingress>, certificates: Certificates, plan: GatewayPlan, c: Cluster)
    requires PlainIngresses(ings) && RestsAt(o, s, plan.placements, c) && Repeats(o, s, t, ings, certificates)
    requires Placeable(o, plan.placements) && Reflects(o, c, plan.placements) && UpToDate(o, c, plan)
    requires PlanFrom(o, ings, certificates, plan.placements) == plan
    ensures RestsAt(o, t, plan.placements, c)
  {
    if !Restarts(s, t) {
      var current :| Reconciles(o, s, t, ings, certificates, current);
      CurrentAt(o, s, plan.placements, c, current);
      SettledStays(o, c, plan, t.cluster);
    }
  }

  lemma {:induction false} RepeatsStay(o: Options, states: seq<State>, j: nat, ings: seq<Ingress>, certificates: Certificates,
                                       plan: GatewayPlan, c: Cluster)
    requires j < |states| && forall i | 0 <= i < |states| - 1 :: Repeats(o, states[i], states[i + 1], ings, certificates)
    requires PlainIngresses(ings) && RestsAt(o, states[0], plan.placements, c)
    requires Placeable(o, plan.placements) && Reflects(o, c, plan.placements) && UpToDate(o, c, plan)
    requires PlanFrom(o, ings, certificates, plan.placements) == plan
    ensures RestsAt(o, states[j], plan.placements, c)
  {
    if j > 0 {
      RepeatsStay(o, states, j - 1, ings, certificates, plan, c);
      assert Repeats(o, states[j - 1], states[j], ings, certificates);
      RepeatStays(o, states[j - 1], states[j], ings, certificates, plan, c);
    }
  }

  /** One complete reconciliation of a stable plan reflects it, and after it no further reconciliation of the
      same Ingresses and certificates and no restart, however many and wherever they fail, changes the cluster
      or remembers anything else. */
  lemma Converges(o: Options, s: State, t: State, ings: seq<Ingress>, certificates: Certificates, current: map<string, Placement>,
                  states: seq<State>, j: nat)
    requires Safe(o, s) && Reconciles(o, s, t, ings, certificates, current)
    requires Completed(o, s.cluster, PlanFrom(o, ings, certificates, current), t.cluster)
    requires DistinctSetNames(o, t.memory.value) && Stable(o, ings, certificates, current)
    requires j < |states| && states[0] == t
    requires forall i | 0 <= i < |states| - 1 :: Repeats(o, states[i], states[i + 1], ings, certificates)
    ensures Reflects(o, t.cluster, t.memory.value)
    ensures states[j].cluster == t.cluster && (states[j].memory.Some? ==> states[j].memory == t.memory)
  {
    var plan := PlanFrom(o, ings, certificates, current);
    CurrentOk(o, s, current);
    PlanProvides(o, ings, certificates, current);
    CompletedReflects(o, s.cluster, plan, t.cluster);
    CompletedSettles(o, s.cluster, plan, t.cluster);
    NextPlanSame(o, ings, certificates, current);
    RepeatsStay(o, states, j, ings, certificates, plan, t.cluster);
  }

  // ---------- Who is pushed, and when nobody is ----------

  /** From one plan's placements to another plan, the listener of the declared host moves. */
  ghost predicate HostMoves(o: Options, before: seq<Ingress>, certificates0: Certificates, current0: map<string, Placement>,
                        after: seq<Ingress>, certificates: Certificates, host: string)
    requires PlainIngresses(before) && PlainIngresses(after)
  {
    ListenerMoved(before, after, o.(certificates := certificates0, current := current0),
                  o.(certificates := certificates, current := PlanFrom(o, before, certificates0, current0).placements), host)
  }

  /** The k-th host of the i-th Ingress is matched to the declared host. */
  ghost predicate RoutesTo(ings: seq<Routed>, i: nat, k: nat, plan: GatewayPlan, host: string) {
    i < |ings| && AttachedAt(ings[i], plan.tlsHosts, k, host)
  }

  /** The Ingress whose route is on a moved listener is pushed by the reconciliation that moves it exactly when
      that reconciliation completes, as long as the channel has room. */
  lemma MovedIsPushedExactly(o: Options, s: State, t: State, before: seq<Ingress>, certificates0: Certificates,
                             current0: map<string, Placement>, ings: seq<Routed>, certificates: Certificates,
                             current: map<string, Placement>, calls: nat, pushes: seq<NamespacedName>, host: string,
                             i: nat, k: nat, room: nat)
    requires Attempts(o, s, t, ings, certificates, current, calls, pushes) && PlainIngresses(before)
    requires current == PlanFrom(o, before, certificates0, current0).placements
    requires HostMoves(o, before, certificates0, current0, PlannedAll(ings), certificates, host)
    requires RoutesTo(ings, i, k, PlanFrom(o, PlannedAll(ings), certificates, current), host)
    requires |PushesOf(o, ings, certificates, current)| <= room
    ensures NamespacedName(ings[i].ns, ings[i].name) in FirstOf(pushes, room) <==>
            Completes(o, s.cluster, PlanFrom(o, PlannedAll(ings), certificates, current), calls)
  {
    var plan := PlanFrom(o, PlannedAll(ings), certificates, current);
    var o0 := o.(certificates := certificates0, current := current0);
    var o1 := o.(certificates := certificates, current := current);
    if Completes(o, s.cluster, plan, calls) {
      MovedIsPushed(before, PlannedAll(ings), o0, o1, host, plan.tlsHosts, ChangedOf(current, plan, o1), ings, i, k, room);
    }
  }

  /** A reconciliation compares with the placement committed last, applied or not: a host served by that plan
      and by this is reported exactly when its reference differs between the two. */
  lemma RetryReportsMoves(o: Options, before: seq<Ingress>, certificates0: Certificates, current0: map<string, Placement>,
                          after: seq<Ingress>, certificates: Certificates, host: string)
    requires PlainIngresses(before) && PlainIngresses(after)
    requires var p := PlanFrom(o, before, certificates0, current0);
             host in p.tlsSections && host in PlanFrom(o, after, certificates, p.placements).tlsSections
    ensures var p := PlanFrom(o, before, certificates0, current0);
            var q := PlanFrom(o, after, certificates, p.placements);
            host in ChangedOf(p.placements, q, o.(certificates := certificates, current := p.placements)) <==>
            p.tlsSections[host] != q.tlsSections[host]
  {
    var p := PlanFrom(o, before, certificates0, current0);
    ChangedExactly(before, after, o.(certificates := certificates0, current := current0),
                   o.(certificates := certificates, current := p.placements), host);
  }

  lemma SamePlanUnchanged(o: Options, ings: seq<Ingress>, certificates: Certificates, current: map<string, Placement>)
    requires PlainIngresses(ings)
    requires var plan := PlanFrom(o, ings, certificates, current);
             PlanFrom(o, ings, certificates, plan.placements) == plan
    ensures var plan := PlanFrom(o, ings, certificates, current);
            ChangedOf(plan.placements, plan, o.(certificates := certificates, current := plan.placements)) == {}
  {
    var plan := PlanFrom(o, ings, certificates, current);
    forall h | h in plan.tlsSections
      ensures h !in ChangedOf(plan.placements, plan, o.(certificates := certificates, current := plan.placements))
    {
      RetryReportsMoves(o, ings, certificates, current, ings, certificates, h);
    }
  }

  /** Once a stable plan was committed, reconciling the same Ingresses and certificates again pushes nobody,
      whatever the first attempt moved and however far it got. */
  lemma RetryPushesNobody(o: Options, s: State, t: State, u: State, ings: seq<Routed>, certificates: Certificates,
                          current: map<string, Placement>, calls: nat, pushes: seq<NamespacedName>,
                          again: map<string, Placement>, calls': nat, pushes': seq<NamespacedName>)
    requires Safe(o, s) && Attempts(o, s, t, ings, certificates, current, calls, pushes)
    requires Stable(o, PlannedAll(ings), certificates, current)
    requires Attempts(o, t, u, ings, certificates, again, calls', pushes')
    ensures pushes' == []
  {
    CurrentOk(o, s, current);
    NextPlanSame(o, PlannedAll(ings), certificates, current);
    SamePlanUnchanged(o, PlannedAll(ings), certificates, current);
    NobodyAffected(ings, PlanFrom(o, PlannedAll(ings), certificates, again).tlsHosts);
  }
}
