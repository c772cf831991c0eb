// The reconciler's runs: plan, commit, then apply and prune step by step, with any
// call failing and the process restarting at any time.
module Runs {
  import opened Text
  import opened Model
  import opened Planner
  import opened PlannerLaws
  import opened Observing
  import opened Routes

  // ---------- The writes of one reconciliation ----------

  /** The cluster's sets after the first n desired sets were applied. */
  function AppliedSets(sets: map<string, ListenerSet>, desired: seq<ListenerSet>, n: nat): map<string, ListenerSet>
    requires n <= |desired|
  {
    if n == 0 then sets else AppliedSets(sets, desired, n - 1)[desired[n - 1].name := desired[n - 1]]
  }

  function AppliedGrants(grants: Grants, desired: seq<Grant>, n: nat): Grants
    requires n <= |desired|
  {
    if n == 0 then grants
    else AppliedGrants(grants, desired, n - 1)[desired[n - 1].secret := CertificateGrant(true, desired[n - 1].toListenerSets)]
  }

  function DesiredNames(desired: seq<ListenerSet>, n: nat): set<string>
    requires n <= |desired|
  {
    if n == 0 then {} else DesiredNames(desired, n - 1) + {desired[n - 1].name}
  }

  function DesiredSecrets(desired: seq<Grant>, n: nat): set<NamespacedName>
    requires n <= |desired|
  {
    if n == 0 then {} else DesiredSecrets(desired, n - 1) + {desired[n - 1].secret}
  }

  /** The managed sets a prune would delete. */
  function Stale(sets: map<string, ListenerSet>, keep: set<string>): set<string> {
    set name | name in sets && sets[name].managed && name !in keep
  }

  function Undesired(grants: Grants, keep: set<NamespacedName>): set<NamespacedName> {
    set secret | secret in grants && grants[secret].managed && secret !in keep
  }

  /** c' is one of the states a reconciliation towards plan passes through from c, in the order of its writes. */
  ghost predicate Reached(o: Options, c: Cluster, plan: GatewayPlan, c': Cluster) {
    || Granting(c, plan, c')
    || Applying(c, plan, c')
    || Pruning(o, c, plan, c')
    || Revoking(o, c, plan, c')
  }

  ghost predicate Granting(c: Cluster, plan: GatewayPlan, c': Cluster) {
    exists n :: 0 <= n <= |plan.grants| && c' == c.(grants := AppliedGrants(c.grants, plan.grants, n))
  }

  ghost predicate Applying(c: Cluster, plan: GatewayPlan, c': Cluster) {
    exists n :: 0 <= n <= |plan.listenerSets| &&
      c' == Cluster(Some(plan.gateway), AppliedSets(c.sets, plan.listenerSets, n), AllGrants(c, plan))
  }

  ghost function AllGrants(c: Cluster, plan: GatewayPlan): Grants {
    AppliedGrants(c.grants, plan.grants, |plan.grants|)
  }

  ghost function AllSets(c: Cluster, plan: GatewayPlan): map<string, ListenerSet> {
    AppliedSets(c.sets, plan.listenerSets, |plan.listenerSets|)
  }

  ghost function AllStale(o: Options, c: Cluster, plan: GatewayPlan): set<string> {
    if o.overflow then Stale(AllSets(c, plan), DesiredNames(plan.listenerSets, |plan.listenerSets|)) else {}
  }

  ghost predicate Pruning(o: Options, c: Cluster, plan: GatewayPlan, c': Cluster) {
    exists gone | gone <= AllStale(o, c, plan) ::
      c' == Cluster(Some(plan.gateway), AllSets(c, plan) - gone, AllGrants(c, plan))
  }

  ghost predicate Revoking(o: Options, c: Cluster, plan: GatewayPlan, c': Cluster) {
    exists revoked | revoked <= Undesired(AllGrants(c, plan), DesiredSecrets(plan.grants, |plan.grants|)) ::
      c' == Cluster(Some(plan.gateway), AllSets(c, plan) - AllStale(o, c, plan), AllGrants(c, plan) - revoked)
  }

  /** The state a reconciliation that meets no failure ends in. */
  ghost predicate Completed(o: Options, c: Cluster, plan: GatewayPlan, c': Cluster) {
    c' == Cluster(Some(plan.gateway), AllSets(c, plan) - AllStale(o, c, plan),
                  AllGrants(c, plan) - Undesired(AllGrants(c, plan), DesiredSecrets(plan.grants, |plan.grants|)))
  }

  /** No object in the way of the grants is somebody else's. */
  predicate Grantable(grants: Grants, desired: seq<Grant>) {
    forall i | 0 <= i < |desired| :: desired[i].secret in grants ==> grants[desired[i].secret].managed
  }

  /** No object in the way of the sets is somebody else's. */
  predicate Adoptable(sets: map<string, ListenerSet>, desired: seq<ListenerSet>) {
    forall i | 0 <= i < |desired| :: desired[i].name in sets ==> sets[desired[i].name].managed
  }

  /** Objects that are somebody else's are still there, unchanged. */
  predicate ForeignKept(c: Cluster, c': Cluster) {
    && (c.gateway.Some? && !c.gateway.value.managed ==> c'.gateway == c.gateway)
    && (forall name | name in c.sets && !c.sets[name].managed :: name in c'.sets && c'.sets[name] == c.sets[name])
    && (forall secret | secret in c.grants && !c.grants[secret].managed ::
          secret in c'.grants && c'.grants[secret] == c.grants[secret])
  }

  predicate AllManaged(desired: seq<ListenerSet>) {
    forall s | s in desired :: s.managed
  }

  /** A grant in the way of the next was there before any was applied. */
  lemma {:induction false} ForeignWasThere(grants: Grants, desired: seq<Grant>, n: nat, secret: NamespacedName)
    requires n <= |desired|
    ensures var after := AppliedGrants(grants, desired, n);
            secret in after && !after[secret].managed ==> secret in grants && !grants[secret].managed
    ensures var after := AppliedGrants(grants, desired, n);
            secret in grants && !grants[secret].managed && (forall j | 0 <= j < n :: desired[j].secret != secret) ==>
              secret in after && !after[secret].managed
  {
    if n > 0 {
      ForeignWasThere(grants, desired, n - 1, secret);
    }
  }

  /** Sets applied on the way are the bridge's, so what stands in the way of the next was there before. */
  lemma {:induction false} ObstacleWasThere(sets: map<string, ListenerSet>, desired: seq<ListenerSet>, n: nat, name: string)
    requires n <= |desired| && AllManaged(desired)
    ensures var after := AppliedSets(sets, desired, n);
            name in after && !after[name].managed ==> name in sets && !sets[name].managed
    ensures var after := AppliedSets(sets, desired, n);
            name in sets && !sets[name].managed && (forall j | 0 <= j < n :: desired[j].name != name) ==>
              name in after && !after[name].managed
  {
    if n > 0 {
      ObstacleWasThere(sets, desired, n - 1, name);
      assert desired[n - 1] in desired;
    }
  }

  predicate Unobstructed(c: Cluster, plan: GatewayPlan) {
    && Grantable(c.grants, plan.grants)
    && (c.gateway.Some? ==> c.gateway.value.managed)
    && Adoptable(c.sets, plan.listenerSets)
  }

  /** The API calls a complete reconciliation makes after its first reads: a Get and a Patch for each applied
      object, a List before each prune, and a Delete for each pruned object. */
  ghost function CallsNeeded(o: Options, c: Cluster, plan: GatewayPlan): nat {
    2 * |plan.grants| + 2 + 2 * |plan.listenerSets| + (if o.overflow then 1 + |AllStale(o, c, plan)| else 0) +
    1 + |Undesired(AllGrants(c, plan), DesiredSecrets(plan.grants, |plan.grants|))|
  }

  // ---------- Steps ----------

  datatype State = State(memory: Option<map<string, Placement>>, cluster: Cluster)

  /** The placement a reconciliation plans from: the one in memory, else what the cluster shows. */
  ghost predicate Remembered(o: Options, s: State, current: map<string, Placement>) {
    if s.memory.Some? then current == s.memory.value else Shows(o.ns, Parents(o, s.cluster), current)
  }

  type Certificates = Option<map<NamespacedName, CertificateInfo>>

  ghost function PlanFrom(o: Options, ings: seq<Ingress>, certificates: Certificates, current: map<string, Placement>): GatewayPlan
    requires PlainIngresses(ings)
  {
    BuildPlan(ings, o.(certificates := certificates, current := current))
  }

  /** One reconciliation: plan, commit to memory, then get as far as the API server lets it. */
  ghost predicate Reconciles(o: Options, s: State, t: State, ings: seq<Ingress>, certificates: Certificates,
                             current: map<string, Placement>) {
    && PlainIngresses(ings)
    && Remembered(o, s, current)
    && t.memory == Some(PlanFrom(o, ings, certificates, current).placements)
    && ForeignKept(s.cluster, t.cluster)
    && Reached(o, s.cluster, PlanFrom(o, ings, certificates, current), t.cluster)
  }

  /** The calls get through a whole reconciliation, and nobody else's object is in its way. */
  ghost predicate Completes(o: Options, c: Cluster, plan: GatewayPlan, calls: nat) {
    Unobstructed(c, plan) && calls >= CallsNeeded(o, c, plan)
  }

  /** The Ingresses a reconciliation pushes once it is complete: those with a route on a listener that changed. */
  ghost function PushesOf(o: Options, ings: seq<Routed>, certificates: Certificates, current: map<string, Placement>): seq<NamespacedName>
    requires PlainIngresses(PlannedAll(ings))
  {
    var plan := PlanFrom(o, PlannedAll(ings), certificates, current);
    AffectedOf(ings, plan.tlsHosts, ChangedOf(current, plan, o.(certificates := certificates, current := current)))
  }

  /** One reconciliation of the Ingresses when so many calls succeed before one fails, and what it pushes. */
  ghost predicate Attempts(o: Options, s: State, t: State, ings: seq<Routed>, certificates: Certificates,
                           current: map<string, Placement>, calls: nat, pushes: seq<NamespacedName>) {
    && Reconciles(o, s, t, PlannedAll(ings), certificates, current)
    && var plan := PlanFrom(o, PlannedAll(ings), certificates, current);
       if Completes(o, s.cluster, plan, calls)
       then Completed(o, s.cluster, plan, t.cluster) && pushes == PushesOf(o, ings, certificates, current)
       else pushes == []
  }

  lemma IsAttempt(o: Options, s: State, t: State, ings: seq<Routed>, certificates: Certificates, current: map<string, Placement>,
                  calls: nat, plan: GatewayPlan)
    requires PlainIngresses(PlannedAll(ings)) && plan == PlanFrom(o, PlannedAll(ings), certificates, current)
    requires Remembered(o, s, current) && t.memory == Some(plan.placements)
    requires Reached(o, s.cluster, plan, t.cluster) && ForeignKept(s.cluster, t.cluster)
    requires Completes(o, s.cluster, plan, calls) ==> Completed(o, s.cluster, plan, t.cluster)
    ensures Reconciles(o, s, t, PlannedAll(ings), certificates, current)
    ensures Attempts(o, s, t, ings, certificates, current, calls,
                     if Completes(o, s.cluster, plan, calls) then PushesOf(o, ings, certificates, current) else [])
  {
  }


  ghost predicate Restarts(s: State, t: State) {
    t == s.(memory := None)
  }

  ghost predicate Step(o: Options, s: State, t: State) {
    Restarts(s, t) || exists ings, certificates, current :: Reconciles(o, s, t, ings, certificates, current)
  }

  lemma NothingGone<K, V>(m: map<K, V>)
    ensures m - {} == m
  {
  }

  lemma OneGone<K, V>(m: map<K, V>, stale: set<K>, rest: set<K>, x: K)
    requires x in rest && rest <= stale
    ensures m - (stale - rest) - {x} == m - (stale - rest + {x})
    ensures stale - rest + {x} == stale - (rest - {x}) && |rest - {x}| == |rest| - 1
  {
  }

  // ---------- The reconciler ----------

  /** calls counts how many more API calls, reading or writing, succeed before one fails. */
  class Reconciler {
    const o: Options
    const affected: AffectedIngresses
    var listenerPlacements: Option<map<string, Placement>>
    var cluster: Cluster

    constructor (o: Options, affected: AffectedIngresses, cluster: Cluster)
      ensures this.o == o && this.affected == affected && this.cluster == cluster && listenerPlacements == None
    {
      this.o := o;
      this.affected := affected;
      this.cluster := cluster;
      listenerPlacements := None;
    }

    /** A restart loses the memory and nothing else. */
    method Restart()
      modifies this`listenerPlacements
      ensures listenerPlacements == None
    {
      listenerPlacements := None;
    }

    /** Applying refuses to adopt an object that is not the bridge's. */
    method ApplyGrants(grants: seq<Grant>, calls0: nat) returns (ok: bool, calls: nat)
      modifies this`cluster
      ensures ForeignKept(old(cluster), cluster)
      ensures ok ==> cluster == old(cluster).(grants := AppliedGrants(old(cluster).grants, grants, |grants|))
      ensures ok <==> calls0 >= 2 * |grants| && Grantable(old(cluster).grants, grants)
      ensures ok ==> calls == calls0 - 2 * |grants|
      ensures exists n :: 0 <= n <= |grants| && cluster == old(cluster).(grants := AppliedGrants(old(cluster).grants, grants, n))
    {
      calls := calls0;
      ghost var before := cluster.grants;
      for i := 0 to |grants|
        invariant cluster == old(cluster).(grants := AppliedGrants(before, grants, i))
        invariant calls + 2 * i == calls0 && ForeignKept(old(cluster), cluster)
        invariant forall j | 0 <= j < i && grants[j].secret in before :: before[grants[j].secret].managed
      {
        ForeignWasThere(before, grants, i, grants[i].secret);
        if calls < 2 || (grants[i].secret in cluster.grants && !cluster.grants[grants[i].secret].managed) {
          return false, 0;
        }
        calls := calls - 2;
        cluster := cluster.(grants := cluster.grants[grants[i].secret := CertificateGrant(true, grants[i].toListenerSets)]);
      }
      ok := true;
    }

    method ApplyGateway(gateway: Gateway, calls0: nat) returns (ok: bool, calls: nat)
      modifies this`cluster
      ensures ForeignKept(old(cluster), cluster)
      ensures cluster == if ok then old(cluster).(gateway := Some(gateway)) else old(cluster)
      ensures ok <==> calls0 >= 2 && (old(cluster).gateway.Some? ==> old(cluster).gateway.value.managed)
      ensures ok ==> calls == calls0 - 2
    {
      if calls0 < 2 || (cluster.gateway.Some? && !cluster.gateway.value.managed) {
        return false, 0;
      }
      cluster := cluster.(gateway := Some(gateway));
      return true, calls0 - 2;
    }

    method ApplySets(sets: seq<ListenerSet>, calls0: nat) returns (ok: bool, calls: nat)
      requires AllManaged(sets)
      modifies this`cluster
      ensures ForeignKept(old(cluster), cluster)
      ensures ok ==> cluster == old(cluster).(sets := AppliedSets(old(cluster).sets, sets, |sets|))
      ensures ok <==> calls0 >= 2 * |sets| && Adoptable(old(cluster).sets, sets)
      ensures ok ==> calls == calls0 - 2 * |sets|
      ensures exists n :: 0 <= n <= |sets| && cluster == old(cluster).(sets := AppliedSets(old(cluster).sets, sets, n))
    {
      calls := calls0;
      ghost var before := cluster.sets;
      for i := 0 to |sets|
        invariant cluster == old(cluster).(sets := AppliedSets(before, sets, i))
        invariant calls + 2 * i == calls0 && ForeignKept(old(cluster), cluster)
        invariant forall j | 0 <= j < i && sets[j].name in before :: before[sets[j].name].managed
      {
        ObstacleWasThere(before, sets, i, sets[i].name);
        if calls < 2 || (sets[i].name in cluster.sets && !cluster.sets[sets[i].name].managed) {
          return false, 0;
        }
        calls := calls - 2;
        cluster := cluster.(sets := cluster.sets[sets[i].name := sets[i]]);
      }
      ok := true;
    }

    /** Lists the managed sets and deletes those that are not desired, in the arbitrary order of the list. */
    method PruneListenerSets(desired: set<string>, calls0: nat) returns (ok: bool, calls: nat, ghost gone: set<string>)
      modifies this`cluster
      ensures ForeignKept(old(cluster), cluster)
      ensures gone <= Stale(old(cluster).sets, desired)
      ensures cluster == old(cluster).(sets := old(cluster).sets - gone)
      ensures ok ==> gone == Stale(old(cluster).sets, desired) && calls == calls0 - 1 - |gone|
      ensures ok <==> calls0 > |Stale(old(cluster).sets, desired)|
    {
      gone := {};
      NothingGone(cluster.sets);
      if calls0 == 0 {
        return false, 0, gone;
      }
      ok, calls := true, calls0 - 1;
      var stale := Stale(cluster.sets, desired);
      var rest := stale;
      assert stale - rest == {};
      while rest != {}
        invariant gone == stale - rest && rest <= stale && calls + 1 + |stale| == calls0 + |rest|
        invariant cluster == old(cluster).(sets := old(cluster).sets - gone) && ForeignKept(old(cluster), cluster)
        decreases rest
      {
        if calls == 0 {
          ok := false;
          return;
        }
        var name :| name in rest;
        calls := calls - 1;
        OneGone(old(cluster).sets, stale, rest, name);
        cluster := cluster.(sets := cluster.sets - {name});
        rest := rest - {name};
        gone := gone + {name};
      }
    }

    /** Lists the bridge's grants and deletes those that are not desired. */
    method PruneGrants(desired: set<NamespacedName>, calls0: nat)
      returns (ok: bool, calls: nat, ghost revoked: set<NamespacedName>)
      modifies this`cluster
      ensures ForeignKept(old(cluster), cluster)
      ensures revoked <= Undesired(old(cluster).grants, desired)
      ensures cluster == old(cluster).(grants := old(cluster).grants - revoked)
      ensures ok ==> revoked == Undesired(old(cluster).grants, desired)
      ensures ok <==> calls0 > |Undesired(old(cluster).grants, desired)|
    {
      revoked := {};
      NothingGone(cluster.grants);
      if calls0 == 0 {
        return false, 0, revoked;
      }
      ok, calls := true, calls0 - 1;
      var stale := Undesired(cluster.grants, desired);
      var rest := stale;
      assert stale - rest == {};
      while rest != {}
        invariant revoked == stale - rest && rest <= stale && calls + 1 + |stale| == calls0 + |rest|
        invariant cluster == old(cluster).(grants := old(cluster).grants - revoked) && ForeignKept(old(cluster), cluster)
        decreases rest
      {
        if calls == 0 {
          ok := false;
          return;
        }
        var secret :| secret in rest;
        calls := calls - 1;
        OneGone(old(cluster).grants, stale, rest, secret);
        cluster := cluster.(grants := cluster.grants - {secret});
        rest := rest - {secret};
        revoked := revoked + {secret};
      }
    }

    /** The calls of one reconciliation from its first write on; each failure ends it where it is. */
    method ApplyPlan(plan: GatewayPlan, calls0: nat) returns (ok: bool)
      requires AllManaged(plan.listenerSets)
      modifies this`cluster
      ensures ForeignKept(old(cluster), cluster)
      ensures Reached(o, old(cluster), plan, cluster)
      ensures ok ==> Completed(o, old(cluster), plan, cluster)
      ensures ok <==> Completes(o, old(cluster), plan, calls0)
    {
      ghost var c := cluster;
      var calls;
      ok, calls := ApplyGrants(plan.grants, calls0);
      if !ok {
        assert Granting(c, plan, cluster);
        return;
      }
      ok, calls := ApplyGateway(plan.gateway, calls);
      if !ok {
        assert Granting(c, plan, cluster);
        return;
      }
      ok, calls := ApplySets(plan.listenerSets, calls);
      if !ok {
        assert Applying(c, plan, cluster);
        return;
      }
      var names := DesiredNames(plan.listenerSets, |plan.listenerSets|);
      assert cluster == Cluster(Some(plan.gateway), AllSets(c, plan), AllGrants(c, plan));
      if o.overflow {
        ghost var gone;
        ok, calls, gone := PruneListenerSets(names, calls);
        if !ok {
          assert cluster == Cluster(Some(plan.gateway), AllSets(c, plan) - gone, AllGrants(c, plan));
          assert Pruning(o, c, plan, cluster);
          return;
        }
      }
      assert cluster.sets == AllSets(c, plan) - AllStale(o, c, plan);
      var secrets := DesiredSecrets(plan.grants, |plan.grants|);
      ghost var revoked;
      ok, calls, revoked := PruneGrants(secrets, calls);
      assert cluster == Cluster(Some(plan.gateway), AllSets(c, plan) - AllStale(o, c, plan), AllGrants(c, plan) - revoked);
      assert Revoking(o, c, plan, cluster);
    }

    /** Plans from memory or from the cluster, commits the new placement, and only then writes. */
    method PlanAndApply(selected: seq<Routed>, certificates: Certificates, calls: nat)
      returns (ok: bool, plan: GatewayPlan, changed: set<string>, ghost current: map<string, Placement>,
               ghost pushes: seq<NamespacedName>)
      requires PlainIngresses(PlannedAll(selected))
      modifies this
      ensures Attempts(o, State(old(listenerPlacements), old(cluster)), State(listenerPlacements, cluster),
                       selected, certificates, current, calls, pushes)
      ensures ok <==> Completes(o, old(cluster), PlanFrom(o, PlannedAll(selected), certificates, current), calls)
      ensures pushes == if ok then AffectedOf(selected, plan.tlsHosts, changed) else []
    {
      if listenerPlacements.None? {
        var observed := ObservedListenerPlacements(o, cluster);
        listenerPlacements := Some(observed);
      }
      current := listenerPlacements.value;
      var options := o.(certificates := certificates, current := listenerPlacements.value);
      plan := BuildManagedGateway(PlannedAll(selected), options);
      changed := ChangedTLSHosts(listenerPlacements.value, plan, options);
      listenerPlacements := Some(plan.placements);
      SetsExactly(options, plan.placements, MaxIndex(plan.placements));
      ghost var s := State(old(listenerPlacements), old(cluster));
      ok := ApplyPlan(plan, calls);
      IsAttempt(o, s, State(listenerPlacements, cluster), selected, certificates, current, calls, plan);
      pushes := if ok then PushesOf(o, selected, certificates, current) else [];
    }

    /** One reconciliation of the managed Gateway. The Ingresses whose listener changed are pushed after the
        last write, so by a complete reconciliation only. */
    method ReconcileManagedGateway(selected: seq<Routed>, certificates: Certificates, readable: bool, calls: nat)
      returns (ok: bool, ghost current: map<string, Placement>, ghost pushes: seq<NamespacedName>)
      requires PlainIngresses(PlannedAll(selected)) && |affected.queue| <= affected.capacity
      modifies this, affected
      ensures !readable ==> !ok && listenerPlacements == old(listenerPlacements) && cluster == old(cluster) && pushes == []
      ensures readable ==>
                && Attempts(o, State(old(listenerPlacements), old(cluster)), State(listenerPlacements, cluster),
                            selected, certificates, current, calls, pushes)
                && (ok <==> Completes(o, old(cluster), PlanFrom(o, PlannedAll(selected), certificates, current), calls))
      ensures affected.queue == Queued(old(affected.queue), pushes, affected.capacity)
    {
      current, pushes := map[], [];
      if !readable {
        return false, current, pushes;
      }
      var plan, changed;
      ok, plan, changed, current, pushes := PlanAndApply(selected, certificates, calls);
      if ok {
        affected.Enqueue(selected, plan.tlsHosts, changed);
      }
    }
  }
}
