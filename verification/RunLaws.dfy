// What holds over every run of the reconciler: limits and grants in every reachable
// state, the emit-and-observe round trip, crash safety and stickiness.
module RunLaws {
  import opened Text
  import opened Sorting
  import opened Model
  import opened Naming
  import opened Election
  import opened Placing
  import opened PlacingLaws
  import opened Planner
  import opened PlannerLaws
  import opened Replan
  import opened Observing
  import opened Runs

  // ---------- Emission as the bootstrap sees it ----------

  /** The full listener list of parent i for a placement. */
  ghost function EmissionAt(o: Options, p: map<string, Placement>, i: int): seq<Listener> {
    if i == 0 then [HttpListener(o)] + EmittedAt(o, p, 0) else EmittedAt(o, p, i)
  }

  ghost predicate PlainPlacements(p: map<string, Placement>) {
    forall x | x in p :: PlainNamespace(p[x].secret)
  }

  lemma {:induction false} RecordedUpTo(o: Options, p: map<string, Placement>, hostnames: seq<string>, n: nat, i: int, h: string)
    requires n <= |hostnames| && (forall x | x in hostnames :: x in p) && PlainPlacements(p)
    ensures var ls := EmittedUpTo(o, p, hostnames, n, i);
            Recorded(o.ns, ls, |ls|, h) ==
            if h in HeldAmong(p, hostnames, n, i) then Some(p[h].secret) else None
  {
    if n > 0 {
      RecordedUpTo(o, p, hostnames, n - 1, i, h);
      var x := hostnames[n - 1];
      assert x in hostnames;
      if p[x].listenerSet == i {
        var before := EmittedUpTo(o, p, hostnames, n - 1, i);
        RecordedPrefix(o.ns, before, [HttpsListener(o, x, p[x].secret)], |before|, h);
      }
    }
  }

  lemma {:induction false} RecordedPrefix(ns: string, a: seq<Listener>, b: seq<Listener>, n: nat, h: string)
    requires n <= |a|
    ensures Recorded(ns, a + b, n, h) == Recorded(ns, a, n, h)
  {
    if n > 0 {
      RecordedPrefix(ns, a, b, n - 1, h);
    }
  }

  lemma {:induction false} RecordedCons(ns: string, l: Listener, ls: seq<Listener>, n: nat, h: string)
    requires n <= |ls| && !Recordable(l)
    ensures Recorded(ns, [l] + ls, n + 1, h) == Recorded(ns, ls, n, h)
  {
    if n > 0 {
      RecordedCons(ns, l, ls, n - 1, h);
    }
  }

  lemma RecordedEmitted(o: Options, p: map<string, Placement>, i: int, h: string)
    requires PlainPlacements(p)
    ensures RecordedAll(o.ns, EmittedAt(o, p, i), h) == if h in Held(p, i) then Some(p[h].secret) else None
  {
    var hostnames := SortedStrings(p.Keys);
    RecordedUpTo(o, p, hostnames, |hostnames|, i, h);
    FirstNAll(hostnames);
    assert h in HeldAmong(p, hostnames, |hostnames|, i) <==> h in Held(p, i);
  }

  /** Recording an emitted parent finds exactly the hostnames placed there, with their Secrets. */
  lemma RecordedEmission(o: Options, p: map<string, Placement>, i: int, h: string)
    requires PlainPlacements(p)
    ensures RecordedAll(o.ns, EmissionAt(o, p, i), h) == if h in Held(p, i) then Some(p[h].secret) else None
  {
    RecordedEmitted(o, p, i, h);
    if i == 0 {
      RecordedCons(o.ns, HttpListener(o), EmittedAt(o, p, 0), |EmittedAt(o, p, 0)|, h);
    }
  }

  // ---------- Which parents a reconciliation leaves ----------

  /** The sets a placement uses have distinct names. A name is at most 63 characters, so this can be asked of
      the indices in use only, not of all. */
  ghost predicate DistinctSetNames(o: Options, p: map<string, Placement>) {
    forall i, j | i >= 1 && j >= 1 && Held(p, i) != {} && Held(p, j) != {} && SetName(o, i) == SetName(o, j) :: i == j
  }

  ghost function ParentAt(o: Options, c: Cluster, i: int): Option<seq<Listener>> {
    if i in Parents(o, c) then Some(Parents(o, c)[i]) else None
  }

  lemma ParentsAt(o: Options, c: Cluster, i: int)
    ensures ParentAt(o, c, i) ==
            if c.gateway.None? then None
            else if i == 0 then (if c.gateway.value.managed then Some(c.gateway.value.listeners) else None)
            else if o.overflow && i >= 1 && SetName(o, i) in c.sets && c.sets[SetName(o, i)].managed &&
                    c.sets[SetName(o, i)].index == Some(i)
            then Some(c.sets[SetName(o, i)].listeners)
            else None
  {
  }

  lemma {:induction false} AppliedEntry(sets: map<string, ListenerSet>, desired: seq<ListenerSet>, n: nat, name: string)
    requires n <= |desired|
    ensures var after := AppliedSets(sets, desired, n);
            if name in DesiredNames(desired, n) then name in after && after[name] in desired && after[name].name == name
            else (name in after <==> name in sets) && (name in sets ==> after[name] == sets[name])
  {
    if n > 0 {
      AppliedEntry(sets, desired, n - 1, name);
    }
  }

  lemma {:induction false} DesiredNamesMembers(desired: seq<ListenerSet>, n: nat)
    requires n <= |desired|
    ensures forall name :: name in DesiredNames(desired, n) <==> exists j :: 0 <= j < n && desired[j].name == name
  {
    if n > 0 {
      DesiredNamesMembers(desired, n - 1);
    }
  }

  /** A desired set carrying parent i's name is parent i's emission, or nothing is placed on parent i. */
  lemma DesiredIsEmission(o: Options, p: map<string, Placement>, s: ListenerSet, i: int)
    requires DistinctSetNames(o, p) && s in SetsOf(o, p) && i >= 1 && s.name == SetName(o, i)
    ensures s.managed
    ensures Held(p, i) != {} ==> s.index == Some(i)
    ensures s.index == Some(i) ==> s.listeners == EmissionAt(o, p, i) && Held(p, i) != {}
  {
    SetsExactly(o, p, MaxIndex(p));
    EmittedExactly(o, p, s.index.value);
    assert |Held(p, s.index.value)| > 0;
  }

  /** A parent with listeners is among the desired sets. */
  lemma UsedIsDesired(o: Options, p: map<string, Placement>, i: int)
    requires i >= 1 && Held(p, i) != {}
    ensures SetName(o, i) in DesiredNames(SetsOf(o, p), |SetsOf(o, p)|)
  {
    SetsExactly(o, p, MaxIndex(p));
    EmittedExactly(o, p, i);
    var x :| x in Held(p, i);
    assert i <= MaxIndex(p);
    var s := ManagedListenerSet(o, i, EmittedAt(o, p, i));
    assert |EmittedAt(o, p, i)| > 0 by {
      assert |Held(p, i)| != 0;
    }
    assert s in SetsOf(o, p);
    DesiredNamesMembers(SetsOf(o, p), |SetsOf(o, p)|);
  }

  /** The plan's objects, as far as the cluster is concerned. */
  ghost predicate Emits(o: Options, plan: GatewayPlan) {
    && plan.gateway == GatewayOf(o, plan.placements)
    && plan.listenerSets == SetsOf(o, plan.placements)
    && PlainPlacements(plan.placements)
    && WithinCapacity(plan.placements, o.overflow)
    && NonNegative(plan.placements)
  }

  /** In every state a reconciliation passes through, each parent is as it was, or as planned, or is gone
      because nothing is planned there. */
  lemma ReachedParents(o: Options, c: Cluster, plan: GatewayPlan, c': Cluster, i: int)
    requires Emits(o, plan) && DistinctSetNames(o, plan.placements) && Reached(o, c, plan, c')
    requires c.gateway.Some? && i >= 0
    ensures ParentReached(o, c, plan.placements, c', i)
  {
    if Granting(c, plan, c') {
      assert c'.gateway == c.gateway && c'.sets == c.sets;
      ParentsAt(o, c, i);
      ParentsAt(o, c', i);
    } else {
      WrittenParents(o, c, plan, c', i);
    }
  }

  ghost predicate ParentReached(o: Options, c: Cluster, p: map<string, Placement>, c': Cluster, i: int) {
    || ParentAt(o, c', i) == ParentAt(o, c, i)
    || ParentAt(o, c', i) == Some(EmissionAt(o, p, i))
    || (ParentAt(o, c', i) == None && Held(p, i) == {})
  }

  lemma WrittenParents(o: Options, c: Cluster, plan: GatewayPlan, c': Cluster, i: int)
    requires Emits(o, plan) && DistinctSetNames(o, plan.placements) && i >= 0 && c.gateway.Some?
    requires Applying(c, plan, c') || Pruning(o, c, plan, c') || Revoking(o, c, plan, c')
    ensures ParentReached(o, c, plan.placements, c', i)
  {
    assert c'.gateway == Some(plan.gateway);
    ParentsAt(o, c, i);
    ParentsAt(o, c', i);
    if i >= 1 && o.overflow {
      SetParentReached(o, c, plan, c', i);
    }
  }

  /** The set named for parent i is unchanged, or the planned one; or nothing is planned there and the set is
      gone or another parent's. */
  ghost predicate SetParentOk(o: Options, p: map<string, Placement>, before: map<string, ListenerSet>,
                              after: map<string, ListenerSet>, i: int) {
    var name := SetName(o, i);
    || (name in after && name in before && after[name] == before[name])
    || (name !in after && name !in before)
    || (name in after && after[name].managed && after[name].index == Some(i) &&
        after[name].listeners == EmissionAt(o, p, i))
    || (Held(p, i) == {} && (name in after ==> after[name].index != Some(i)))
  }

  lemma SetParentReached(o: Options, c: Cluster, plan: GatewayPlan, c': Cluster, i: int)
    requires Emits(o, plan) && DistinctSetNames(o, plan.placements) && i >= 1
    requires Applying(c, plan, c') || Pruning(o, c, plan, c') || Revoking(o, c, plan, c')
    ensures SetParentOk(o, plan.placements, c.sets, c'.sets, i)
  {
    var desired := plan.listenerSets;
    if Applying(c, plan, c') {
      var n :| 0 <= n <= |desired| && c'.sets == AppliedSets(c.sets, desired, n);
      SetParentApplied(o, c, plan, n, i);
    } else {
      var gone :| gone <= AllStale(o, c, plan) && c'.sets == AllSets(c, plan) - gone;
      SetParentApplied(o, c, plan, |desired|, i);
      AppliedEntry(c.sets, desired, |desired|, SetName(o, i));
      if Held(plan.placements, i) != {} {
        UsedIsDesired(o, plan.placements, i);
      }
    }
  }

  lemma SetParentApplied(o: Options, c: Cluster, plan: GatewayPlan, n: nat, i: int)
    requires Emits(o, plan) && DistinctSetNames(o, plan.placements) && i >= 1 && n <= |plan.listenerSets|
    ensures SetParentOk(o, plan.placements, c.sets, AppliedSets(c.sets, plan.listenerSets, n), i)
  {
    var name := SetName(o, i);
    AppliedEntry(c.sets, plan.listenerSets, n, name);
    if name in DesiredNames(plan.listenerSets, n) {
      DesiredIsEmission(o, plan.placements, AppliedSets(c.sets, plan.listenerSets, n)[name], i);
    }
  }

  // ---------- Emit, then observe ----------

  /** The cluster holds exactly a placement's emission: the Gateway, and a set for each used index. */
  ghost predicate Reflects(o: Options, c: Cluster, p: map<string, Placement>) {
    forall i :: ParentAt(o, c, i) == if i == 0 || (i >= 1 && Held(p, i) != {}) then Some(EmissionAt(o, p, i)) else None
  }

  ghost predicate Placeable(o: Options, p: map<string, Placement>) {
    PlainPlacements(p) && WithinCapacity(p, o.overflow) && NonNegative(p)
  }

  lemma HoldsEmission(o: Options, c: Cluster, p: map<string, Placement>, i: int, h: string)
    requires PlainPlacements(p) && Reflects(o, c, p) && NonNegative(p)
    ensures Holds(o.ns, Parents(o, c), i, h) <==> h in Held(p, i)
    ensures h in Held(p, i) ==> RecordedAll(o.ns, Parents(o, c)[i], h) == Some(p[h].secret)
  {
    assert ParentAt(o, c, i) == if i == 0 || (i >= 1 && Held(p, i) != {}) then Some(EmissionAt(o, p, i)) else None;
    RecordedEmission(o, p, i, h);
  }

  /** Bootstrapping from a fully applied plan rebuilds exactly the plan's placements. */
  lemma EmitObserveIdentity(o: Options, c: Cluster, p: map<string, Placement>, observed: map<string, Placement>)
    requires Placeable(o, p) && Reflects(o, c, p)
    requires Shows(o.ns, Parents(o, c), observed)
    ensures observed == p
  {
    forall h
      ensures h in p <==> exists i :: Holds(o.ns, Parents(o, c), i, h)
      ensures h in p ==> Holds(o.ns, Parents(o, c), p[h].listenerSet, h) &&
                         RecordedAll(o.ns, Parents(o, c)[p[h].listenerSet], h).value == p[h].secret
      ensures h in p ==> forall i | Holds(o.ns, Parents(o, c), i, h) :: p[h].listenerSet <= i
    {
      forall i ensures Holds(o.ns, Parents(o, c), i, h) <==> h in Held(p, i) {
        HoldsEmission(o, c, p, i, h);
      }
      if h in p {
        HoldsEmission(o, c, p, p[h].listenerSet, h);
        assert h in Held(p, p[h].listenerSet);
      }
    }
    assert Shows(o.ns, Parents(o, c), p);
    ShowsUnique(o.ns, Parents(o, c), observed, p);
  }

  /** A reconciliation without failures leaves the cluster reflecting its plan, exactly when the sets in use
      have distinct names. */
  lemma CompletedReflects(o: Options, c: Cluster, plan: GatewayPlan, c': Cluster)
    requires Emits(o, plan) && Completed(o, c, plan, c')
    ensures Reflects(o, c', plan.placements) <==> DistinctSetNames(o, plan.placements)
  {
    var p := plan.placements;
    if DistinctSetNames(o, p) {
      forall i
        ensures ParentAt(o, c', i) == if i == 0 || (i >= 1 && Held(p, i) != {}) then Some(EmissionAt(o, p, i)) else None
      {
        ParentsAt(o, c', i);
        if i >= 1 {
          CompletedSet(o, c, plan, c', i);
        }
      }
    }
    if Reflects(o, c', p) {
      forall i, j | i >= 1 && j >= 1 && Held(p, i) != {} && Held(p, j) != {} && SetName(o, i) == SetName(o, j) ensures i == j {
        assert ParentAt(o, c', i) == Some(EmissionAt(o, p, i)) && ParentAt(o, c', j) == Some(EmissionAt(o, p, j));
        ParentsAt(o, c', i);
        ParentsAt(o, c', j);
      }
    }
  }

  lemma CompletedSet(o: Options, c: Cluster, plan: GatewayPlan, c': Cluster, i: int)
    requires Emits(o, plan) && DistinctSetNames(o, plan.placements) && Completed(o, c, plan, c') && i >= 1
    ensures ParentAt(o, c', i) == if Held(plan.placements, i) != {} then Some(EmissionAt(o, plan.placements, i)) else None
  {
    var name, desired := SetName(o, i), plan.listenerSets;
    ParentsAt(o, c', i);
    AppliedEntry(c.sets, desired, |desired|, name);
    if !o.overflow {
      forall x | x in Held(plan.placements, i) ensures Usable(i, o.overflow) {}
    } else if name in DesiredNames(desired, |desired|) {
      DesiredIsEmission(o, plan.placements, AllSets(c, plan)[name], i);
    } else if Held(plan.placements, i) != {} {
      UsedIsDesired(o, plan.placements, i);
    }
  }

  /** Digests that tell the indices in use apart make their names distinct. */
  lemma DistinctDigestsSuffice(o: Options, p: map<string, Placement>, base: int -> string, digest: int -> string)
    requires forall i | i >= 1 && Held(p, i) != {} :: IsDigest(digest(i)) && SetName(o, i) == base(i) + "-" + digest(i)
    requires forall i, j | i >= 1 && j >= 1 && Held(p, i) != {} && Held(p, j) != {} && digest(i) == digest(j) :: i == j
    ensures DistinctSetNames(o, p)
  {
    forall i, j | i >= 1 && j >= 1 && Held(p, i) != {} && Held(p, j) != {} && SetName(o, i) == SetName(o, j) ensures i == j {
      DigestsDistinguish(SetName(o, i), SetName(o, j), base(i), base(j), digest(i), digest(j));
    }
  }

  // ---------- Crash safety ----------

  /** p' is a sticky successor of p: shared hostnames keep their parents. */
  ghost predicate Succeeds(p: map<string, Placement>, p': map<string, Placement>) {
    forall h | h in p && h in p' :: p'[h].listenerSet == p[h].listenerSet
  }

  lemma CrashHolds(o: Options, c: Cluster, p: map<string, Placement>, plan: GatewayPlan, c': Cluster, i: int, h: string)
    requires PlainPlacements(p) && NonNegative(p) && Reflects(o, c, p)
    requires Emits(o, plan) && DistinctSetNames(o, plan.placements) && Reached(o, c, plan, c')
    ensures Holds(o.ns, Parents(o, c'), i, h) ==> h in Held(p, i) || h in Held(plan.placements, i)
    ensures h in Held(p, i) && h in Held(plan.placements, i) ==> Holds(o.ns, Parents(o, c'), i, h)
  {
    ParentsAt(o, c, 0);
    assert ParentAt(o, c, 0) == Some(EmissionAt(o, p, 0));
    HoldsEmission(o, c, p, i, h);
    RecordedEmission(o, plan.placements, i, h);
    if i >= 0 {
      ReachedParents(o, c, plan, c', i);
    } else {
      ParentsAt(o, c', i);
    }
  }

  /** If the cluster reflects a plan and the controller dies anywhere while applying its sticky successor,
      the bootstrap gives every hostname of both plans its unchanged parent, and finds every other hostname
      where one of the two plans put it. */
  lemma CrashSafe(o: Options, c: Cluster, p: map<string, Placement>, plan: GatewayPlan, c': Cluster,
                  observed: map<string, Placement>)
    requires PlainPlacements(p) && NonNegative(p) && Reflects(o, c, p)
    requires Emits(o, plan) && DistinctSetNames(o, plan.placements)
    requires Succeeds(p, plan.placements) && Reached(o, c, plan, c')
    requires Shows(o.ns, Parents(o, c'), observed)
    ensures forall h | h in p && h in plan.placements :: h in observed && observed[h].listenerSet == p[h].listenerSet
    ensures forall h | h in observed ::
              || (h in p && observed[h].listenerSet == p[h].listenerSet)
              || (h in plan.placements && observed[h].listenerSet == plan.placements[h].listenerSet)
  {
    forall h | h in observed
      ensures || (h in p && observed[h].listenerSet == p[h].listenerSet)
              || (h in plan.placements && observed[h].listenerSet == plan.placements[h].listenerSet)
    {
      CrashHolds(o, c, p, plan, c', observed[h].listenerSet, h);
    }
    forall h | h in p && h in plan.placements ensures h in observed && observed[h].listenerSet == p[h].listenerSet {
      CrashHolds(o, c, p, plan, c', p[h].listenerSet, h);
      assert Holds(o.ns, Parents(o, c'), p[h].listenerSet, h);
    }
  }

  // ---------- Limits and grants in every reachable state ----------

  /** Parent i may read the Secret: it is in the parents' own namespace, or its grant admits that kind of
      parent. */
  predicate Granted(o: Options, grants: Grants, i: int, secret: NamespacedName) {
    secret.ns == o.ns || (secret in grants && (i >= 1 ==> grants[secret].toListenerSets))
  }

  /** A parent the API accepts, whose certificates it may read: at most 64 listeners, the HTTPS ones
      within capacity, and a grant for every Secret of another namespace. */
  ghost predicate ParentOk(o: Options, grants: Grants, i: int, ls: seq<Listener>) {
    && i >= 0 && |ls| <= 64
    && |RecordableHosts(ls, |ls|)| <= Capacity(i)
    && forall l | l in ls && Recordable(l) :: Granted(o, grants, i, ReferencedSecret(o.ns, l))
  }

  /** Everything granted before is still granted; where there are ListenerSets, to them as well. */
  ghost predicate GrantsKept(o: Options, grants: Grants, more: Grants) {
    forall s | s in grants :: s in more && (o.overflow && grants[s].toListenerSets ==> more[s].toListenerSets)
  }

  ghost predicate GrantsAll(o: Options, secrets: set<NamespacedName>, grants: Grants) {
    forall s | s in secrets :: s in grants && grants[s] == CertificateGrant(true, o.overflow)
  }

  ghost predicate SetOk(o: Options, grants: Grants, name: string, s: ListenerSet) {
    Trusted(o, name, s) ==> ParentOk(o, grants, s.index.value, s.listeners)
  }

  ghost predicate SetsOk(o: Options, grants: Grants, sets: map<string, ListenerSet>) {
    forall name | name in sets :: SetOk(o, grants, name, sets[name])
  }

  ghost predicate ClusterOk(o: Options, c: Cluster) {
    && (c.gateway.Some? && c.gateway.value.managed ==> ParentOk(o, c.grants, 0, c.gateway.value.listeners))
    && SetsOk(o, c.grants, c.sets)
    && (!o.overflow ==> c.sets == map[])
  }

  ghost predicate MemoryOk(o: Options, m: map<string, Placement>) {
    WithinCapacity(m, o.overflow) && NonNegative(m)
  }

  lemma {:induction false} RecordableAtMost(ls: seq<Listener>, n: nat)
    requires n <= |ls|
    ensures |RecordableHosts(ls, n)| <= n
  {
    if n > 0 {
      RecordableAtMost(ls, n - 1);
    }
  }

  lemma {:induction false} RecordableCons(l: Listener, ls: seq<Listener>, n: nat)
    requires n <= |ls| && !Recordable(l)
    ensures RecordableHosts([l] + ls, n + 1) == RecordableHosts(ls, n)
  {
    if n > 0 {
      RecordableCons(l, ls, n - 1);
    }
  }

  /** The emission of a placement within capacity is acceptable wherever its Secrets are granted. */
  lemma EmissionOk(o: Options, p: map<string, Placement>, i: int, grants: Grants)
    requires Placeable(o, p) && i >= 0 && forall x | x in Held(p, i) :: Granted(o, grants, i, p[x].secret)
    ensures ParentOk(o, grants, i, EmissionAt(o, p, i))
  {
    var ls := EmittedAt(o, p, i);
    EmittedExactly(o, p, i);
    assert |Held(p, i)| <= Capacity(i);
    RecordableAtMost(ls, |ls|);
    if i == 0 {
      RecordableCons(HttpListener(o), ls, |ls|);
    }
    forall l | l in EmissionAt(o, p, i) && Recordable(l) ensures Granted(o, grants, i, ReferencedSecret(o.ns, l)) {
      assert l in ls;
      assert l in Elements(ls);
    }
  }

  lemma ParentOkMonotone(o: Options, grants: Grants, more: Grants, i: int, ls: seq<Listener>)
    requires ParentOk(o, grants, i, ls) && GrantsKept(o, grants, more) && (i >= 1 ==> o.overflow)
    ensures ParentOk(o, more, i, ls)
  {
  }

  lemma {:induction false} AppliedGrantsKept(o: Options, grants: Grants, desired: seq<Grant>, n: nat)
    requires n <= |desired| && forall g | g in desired :: g.toListenerSets == o.overflow
    ensures AppliedGrants(grants, desired, n).Keys == grants.Keys + DesiredSecrets(desired, n)
    ensures GrantsKept(o, grants, AppliedGrants(grants, desired, n))
    ensures GrantsAll(o, DesiredSecrets(desired, n), AppliedGrants(grants, desired, n))
  {
    if n > 0 {
      AppliedGrantsKept(o, grants, desired, n - 1);
      assert desired[n - 1] in desired;
    }
  }

  lemma {:induction false} DesiredSecretsMembers(desired: seq<Grant>, n: nat)
    requires n <= |desired|
    ensures forall j | 0 <= j < n :: desired[j].secret in DesiredSecrets(desired, n)
  {
    if n > 0 {
      DesiredSecretsMembers(desired, n - 1);
    }
  }

  /** A plan that also grants what its placements need, to the kinds of parents there are. */
  ghost predicate Provides(o: Options, plan: GatewayPlan) {
    && Emits(o, plan) && Placeable(o, plan.placements)
    && (forall g | g in plan.grants :: g.toListenerSets == o.overflow)
    && (forall x | x in plan.placements && plan.placements[x].secret.ns != o.ns ::
          plan.placements[x].secret in DesiredSecrets(plan.grants, |plan.grants|))
  }

  lemma PlannedGranted(o: Options, plan: GatewayPlan, i: int, grants: Grants)
    requires Provides(o, plan) && GrantsAll(o, DesiredSecrets(plan.grants, |plan.grants|), grants)
    ensures forall x | x in Held(plan.placements, i) :: Granted(o, grants, i, plan.placements[x].secret)
  {
    forall x | x in Held(plan.placements, i) ensures Granted(o, grants, i, plan.placements[x].secret) {
      assert Usable(plan.placements[x].listenerSet, o.overflow);
    }
  }

  lemma AfterGranting(o: Options, c: Cluster, plan: GatewayPlan, c': Cluster)
    requires ClusterOk(o, c) && Provides(o, plan) && Granting(c, plan, c')
    ensures ClusterOk(o, c')
  {
    var n :| 0 <= n <= |plan.grants| && c' == c.(grants := AppliedGrants(c.grants, plan.grants, n));
    AppliedGrantsKept(o, c.grants, plan.grants, n);
    if c.gateway.Some? && c.gateway.value.managed {
      ParentOkMonotone(o, c.grants, c'.grants, 0, c.gateway.value.listeners);
    }
    forall name | name in c.sets ensures SetOk(o, c'.grants, name, c.sets[name]) {
      SetOkMonotone(o, c, c'.grants, name);
    }
  }

  /** A desired set is acceptable wherever the plan's Secrets are granted. */
  lemma DesiredOk(o: Options, plan: GatewayPlan, s: ListenerSet, grants: Grants)
    requires Provides(o, plan) && s in plan.listenerSets
    requires GrantsAll(o, DesiredSecrets(plan.grants, |plan.grants|), grants)
    ensures s.index.Some? && ParentOk(o, grants, s.index.value, s.listeners)
  {
    SetsExactly(o, plan.placements, MaxIndex(plan.placements));
    PlannedGranted(o, plan, s.index.value, grants);
    EmissionOk(o, plan.placements, s.index.value, grants);
  }

  /** Each set after applying is a desired one or was there before. */
  lemma SetsOkApplied(o: Options, c: Cluster, plan: GatewayPlan, n: nat, grants: Grants)
    requires ClusterOk(o, c) && Provides(o, plan) && n <= |plan.listenerSets|
    requires GrantsKept(o, c.grants, grants) && GrantsAll(o, DesiredSecrets(plan.grants, |plan.grants|), grants)
    ensures SetsOk(o, grants, AppliedSets(c.sets, plan.listenerSets, n))
  {
    var sets := AppliedSets(c.sets, plan.listenerSets, n);
    forall name | name in sets ensures SetOk(o, grants, name, sets[name]) {
      AppliedEntry(c.sets, plan.listenerSets, n, name);
      if name in DesiredNames(plan.listenerSets, n) {
        DesiredOk(o, plan, sets[name], grants);
      } else {
        SetOkMonotone(o, c, grants, name);
      }
    }
  }

  lemma SetOkMonotone(o: Options, c: Cluster, more: Grants, name: string)
    requires ClusterOk(o, c) && name in c.sets && GrantsKept(o, c.grants, more)
    ensures SetOk(o, more, name, c.sets[name])
  {
    assert SetOk(o, c.grants, name, c.sets[name]);
    if Trusted(o, name, c.sets[name]) {
      ParentOkMonotone(o, c.grants, more, c.sets[name].index.value, c.sets[name].listeners);
    }
  }

  lemma SetsOkFewer(o: Options, grants: Grants, sets: map<string, ListenerSet>, gone: set<string>)
    requires SetsOk(o, grants, sets)
    ensures SetsOk(o, grants, sets - gone)
  {
  }

  lemma NoSetsWithoutOverflow(o: Options, plan: GatewayPlan)
    requires Emits(o, plan) && !o.overflow
    ensures plan.listenerSets == []
  {
    NoSetsUpTo(o, plan.placements, MaxIndex(plan.placements));
  }

  lemma {:induction false} NoSetsUpTo(o: Options, p: map<string, Placement>, n: nat)
    requires WithinCapacity(p, o.overflow) && !o.overflow
    ensures SetsUpTo(o, p, n) == []
  {
    if n > 0 {
      NoSetsUpTo(o, p, n - 1);
      EmittedExactly(o, p, n);
      UnusedWithoutOverflow(o, p, n);
    }
  }

  lemma UnusedWithoutOverflow(o: Options, p: map<string, Placement>, i: int)
    requires WithinCapacity(p, o.overflow) && !o.overflow && i != 0
    ensures Held(p, i) == {}
  {
    forall x | x in p ensures p[x].listenerSet == 0 {
      assert Usable(p[x].listenerSet, o.overflow);
    }
  }

  lemma GatewayOk(o: Options, plan: GatewayPlan, grants: Grants)
    requires Provides(o, plan) && GrantsAll(o, DesiredSecrets(plan.grants, |plan.grants|), grants)
    ensures ParentOk(o, grants, 0, plan.gateway.listeners)
  {
    PlannedGranted(o, plan, 0, grants);
    EmissionOk(o, plan.placements, 0, grants);
  }

  lemma AfterApplying(o: Options, c: Cluster, plan: GatewayPlan, c': Cluster)
    requires ClusterOk(o, c) && Provides(o, plan) && Applying(c, plan, c')
    ensures ClusterOk(o, c')
  {
    AppliedGrantsKept(o, c.grants, plan.grants, |plan.grants|);
    GatewayOk(o, plan, c'.grants);
    var n :| 0 <= n <= |plan.listenerSets| && c'.sets == AppliedSets(c.sets, plan.listenerSets, n);
    SetsOkApplied(o, c, plan, n, c'.grants);
    if !o.overflow {
      NoSetsWithoutOverflow(o, plan);
    }
  }

  lemma AfterPruning(o: Options, c: Cluster, plan: GatewayPlan, c': Cluster)
    requires ClusterOk(o, c) && Provides(o, plan) && Pruning(o, c, plan, c')
    ensures ClusterOk(o, c')
  {
    AppliedGrantsKept(o, c.grants, plan.grants, |plan.grants|);
    GatewayOk(o, plan, c'.grants);
    var gone :| gone <= AllStale(o, c, plan) && c'.sets == AllSets(c, plan) - gone;
    SetsOkApplied(o, c, plan, |plan.listenerSets|, c'.grants);
    SetsOkFewer(o, c'.grants, AllSets(c, plan), gone);
    if !o.overflow {
      NoSetsWithoutOverflow(o, plan);
      assert AllSets(c, plan) == map[];
    }
  }

  /** Grants are revoked only when every trusted parent is the plan's own. */
  lemma AfterRevoking(o: Options, c: Cluster, plan: GatewayPlan, c': Cluster)
    requires ClusterOk(o, c) && Provides(o, plan) && Revoking(o, c, plan, c')
    ensures ClusterOk(o, c')
  {
    AppliedGrantsKept(o, c.grants, plan.grants, |plan.grants|);
    GatewayOk(o, plan, c'.grants);
    if !o.overflow {
      NoSetsWithoutOverflow(o, plan);
    }
    forall name | name in c'.sets ensures SetOk(o, c'.grants, name, c'.sets[name]) {
      if Trusted(o, name, c'.sets[name]) {
        AppliedEntry(c.sets, plan.listenerSets, |plan.listenerSets|, name);
        DesiredOk(o, plan, c'.sets[name], c'.grants);
      }
    }
  }

  lemma ReachedOk(o: Options, c: Cluster, plan: GatewayPlan, c': Cluster)
    requires ClusterOk(o, c) && Provides(o, plan) && Reached(o, c, plan, c')
    ensures ClusterOk(o, c')
  {
    if Granting(c, plan, c') {
      AfterGranting(o, c, plan, c');
    } else if Revoking(o, c, plan, c') {
      AfterRevoking(o, c, plan, c');
    } else if Applying(c, plan, c') {
      AfterApplying(o, c, plan, c');
    } else {
      AfterPruning(o, c, plan, c');
    }
  }

  /** What the bootstrap rebuilds from an acceptable cluster is itself acceptable. */
  lemma ObservedOk(o: Options, c: Cluster, observed: map<string, Placement>)
    requires ClusterOk(o, c) && Shows(o.ns, Parents(o, c), observed)
    ensures MemoryOk(o, observed)
  {
    forall h | h in observed ensures observed[h].listenerSet >= 0 && Usable(observed[h].listenerSet, o.overflow) {
      assert Holds(o.ns, Parents(o, c), observed[h].listenerSet, h);
      ParentsAt(o, c, observed[h].listenerSet);
    }
    forall i ensures |Held(observed, i)| <= Capacity(i) {
      HeldObserved(o, c, observed, i);
    }
  }

  lemma HeldObserved(o: Options, c: Cluster, observed: map<string, Placement>, i: int)
    requires ClusterOk(o, c) && Shows(o.ns, Parents(o, c), observed)
    ensures |Held(observed, i)| <= Capacity(i)
  {
    ParentsAt(o, c, i);
    if i in Parents(o, c) {
      var ls := Parents(o, c)[i];
      if i != 0 {
        assert SetOk(o, c.grants, SetName(o, i), c.sets[SetName(o, i)]);
      }
      assert ParentOk(o, c.grants, i, ls);
      forall h | h in Held(observed, i) ensures h in RecordableHosts(ls, |ls|) {
        assert Holds(o.ns, Parents(o, c), i, h);
        RecordedHosts(o.ns, ls, |ls|, h);
      }
      SubsetSize(Held(observed, i), RecordableHosts(ls, |ls|));
    } else {
      forall h | h in Held(observed, i) ensures Holds(o.ns, Parents(o, c), i, h) {}
      assert Held(observed, i) == {};
    }
  }

  // ---------- Whole runs ----------

  /** Within the API's limits, every foreign Secret granted, and a memory that fits. */
  ghost predicate Safe(o: Options, s: State) {
    ClusterOk(o, s.cluster) && (s.memory.Some? ==> MemoryOk(o, s.memory.value))
  }

  lemma CurrentOk(o: Options, s: State, current: map<string, Placement>)
    requires Safe(o, s) && Remembered(o, s, current)
    ensures MemoryOk(o, current)
  {
    if s.memory.None? {
      ObservedOk(o, s.cluster, current);
    }
  }

  lemma PlanEmits(o: Options, d: Demand, o': Options)
    requires Plain(d) && MemoryOk(o, d.current) && o' == o.(certificates := o'.certificates, current := o'.current)
    ensures var p := PlacementsOf(d, o.overflow);
            Placeable(o, p) && GatewayOf(o', p) == GatewayOf(o, p) && SetsOf(o', p) == SetsOf(o, p)
  {
    var p := PlacementsOf(d, o.overflow);
    PlacementsSound(d, o.overflow);
    PlacementsNonNegative(d, o.overflow);
    SameEmission(o, o', p);
    forall x | x in p ensures PlainNamespace(p[x].secret) {
      SecretForOwned(d, x);
    }
  }

  lemma PlanGrants(o: Options, ings: seq<Ingress>)
    requires PlainIngresses(ings)
    ensures var plan := BuildPlan(ings, o);
            && (forall g | g in plan.grants :: g.toListenerSets == o.overflow)
            && (forall x | x in plan.placements && plan.placements[x].secret.ns != o.ns ::
                  plan.placements[x].secret in DesiredSecrets(plan.grants, |plan.grants|))
  {
    var plan := BuildPlan(ings, o);
    GrantsExact(ings, o);
    DesiredSecretsMembers(plan.grants, |plan.grants|);
    forall x | x in plan.placements && plan.placements[x].secret.ns != o.ns
      ensures plan.placements[x].secret in DesiredSecrets(plan.grants, |plan.grants|)
    {
      assert Grant(plan.placements[x].secret, o.overflow) in plan.grants;
    }
  }

  /** Every plan emits its placements, within capacity, and grants what they need. */
  lemma PlanProvides(o: Options, ings: seq<Ingress>, certificates: Certificates, current: map<string, Placement>)
    requires PlainIngresses(ings) && MemoryOk(o, current)
    ensures Provides(o, PlanFrom(o, ings, certificates, current))
  {
    var o' := o.(certificates := certificates, current := current);
    CollectedPlain(ings, o');
    PlanEmits(o, DemandOf(ings, o'), o');
    PlanGrants(o', ings);
  }

  lemma StepSafe(o: Options, s: State, t: State)
    requires Safe(o, s) && Step(o, s, t)
    ensures Safe(o, t)
  {
    if !Restarts(s, t) {
      var ings, certificates, current :| Reconciles(o, s, t, ings, certificates, current);
      CurrentOk(o, s, current);
      var plan := PlanFrom(o, ings, certificates, current);
      PlanProvides(o, ings, certificates, current);
      ReachedOk(o, s.cluster, plan, t.cluster);
    }
  }

  ghost predicate Run(o: Options, states: seq<State>) {
    forall i | 0 <= i < |states| - 1 :: Step(o, states[i], states[i + 1])
  }

  /** In every reachable state, whatever Ingresses and certificates came, whatever calls failed and however
      often the process restarted, every managed parent is within the API's limits and may read its Secrets. */
  lemma {:induction false} RunSafe(o: Options, states: seq<State>, i: nat)
    requires i < |states| && Run(o, states) && Safe(o, states[0])
    ensures Safe(o, states[i])
  {
    if i > 0 {
      RunSafe(o, states, i - 1);
      assert Step(o, states[i - 1], states[i]);
      StepSafe(o, states[i - 1], states[i]);
    }
  }

  /** One reconciliation keeps the parent of every hostname it still projects. */
  lemma StepSticky(o: Options, s: State, t: State, ings: seq<Ingress>, certificates: Certificates,
                   current: map<string, Placement>)
    requires Safe(o, s) && Reconciles(o, s, t, ings, certificates, current)
    ensures Succeeds(current, PlanFrom(o, ings, certificates, current).placements)
  {
    var o' := o.(certificates := certificates, current := current);
    var d := DemandOf(ings, o');
    CurrentOk(o, s, current);
    CollectedPlain(ings, o');
    forall h | h in current && h in PlacementsOf(d, o.overflow)
      ensures PlacementsOf(d, o.overflow)[h].listenerSet == current[h].listenerSet
    {
      PlanSticky(d, o.overflow, h);
    }
  }

  lemma StepKeepsIndex(o: Options, s: State, t: State, host: string)
    requires Safe(o, s) && Step(o, s, t) && s.memory.Some? && t.memory.Some?
    requires host in s.memory.value && host in t.memory.value
    ensures t.memory.value[host].listenerSet == s.memory.value[host].listenerSet
  {
    var ings, certificates, current :| Reconciles(o, s, t, ings, certificates, current);
    StepSticky(o, s, t, ings, certificates, current);
  }

  lemma MomentKeepsIndex(o: Options, states: seq<State>, i: nat, host: string)
    requires i + 1 < |states| && Run(o, states) && Safe(o, states[0])
    requires states[i].memory.Some? && host in states[i].memory.value
    requires states[i + 1].memory.Some? && host in states[i + 1].memory.value
    ensures states[i + 1].memory.value[host].listenerSet == states[i].memory.value[host].listenerSet
  {
    RunSafe(o, states, i);
    assert Step(o, states[i], states[i + 1]);
    StepKeepsIndex(o, states[i], states[i + 1], host);
  }

  ghost predicate IndexKept(states: seq<State>, i: nat, host: string)
    requires i + 1 < |states|
  {
    states[i].memory.Some? && states[i + 1].memory.Some? && host in states[i].memory.value && host in states[i + 1].memory.value &&
    states[i + 1].memory.value[host].listenerSet == states[i].memory.value[host].listenerSet
  }

  lemma {:induction false} IndexAlwaysKept(states: seq<State>, j: nat, host: string)
    requires j < |states| && states[0].memory.Some? && host in states[0].memory.value
    requires forall i | 0 <= i < j :: IndexKept(states, i, host)
    ensures states[j].memory.Some? && host in states[j].memory.value
    ensures states[j].memory.value[host].listenerSet == states[0].memory.value[host].listenerSet
  {
    if j > 0 {
      IndexAlwaysKept(states, j - 1, host);
      assert IndexKept(states, j - 1, host);
    }
  }

  /** Along a run without restarts, a hostname that stays in the plan stays on its parent. */
  lemma RunSticky(o: Options, states: seq<State>, j: nat, host: string)
    requires j < |states| && Run(o, states) && Safe(o, states[0])
    requires forall i | 0 <= i <= j :: states[i].memory.Some? && host in states[i].memory.value
    ensures states[j].memory.value[host].listenerSet == states[0].memory.value[host].listenerSet
  {
    forall i: nat | i < j ensures IndexKept(states, i, host) {
      MomentKeepsIndex(o, states, i, host);
    }
    IndexAlwaysKept(states, j, host);
  }

  /** From a fully applied plan: wherever the next reconciliation dies, what the restarted controller
      rebuilds keeps every hostname of both plans on its parent. */
  lemma CrashDuringReconcile(o: Options, s: State, t: State, ings: seq<Ingress>, certificates: Certificates,
                             observed: map<string, Placement>)
    requires Safe(o, s) && s.memory.Some? && PlainPlacements(s.memory.value)
    requires Reflects(o, s.cluster, s.memory.value)
    requires Reconciles(o, s, t, ings, certificates, s.memory.value) && DistinctSetNames(o, t.memory.value)
    requires Remembered(o, t.(memory := None), observed)
    ensures var before, after := s.memory.value, t.memory.value;
            && (forall h | h in before && h in after ::
                  h in observed && observed[h].listenerSet == before[h].listenerSet == after[h].listenerSet)
            && (forall h | h in observed ::
                  || (h in before && observed[h].listenerSet == before[h].listenerSet)
                  || (h in after && observed[h].listenerSet == after[h].listenerSet))
  {
    var plan := PlanFrom(o, ings, certificates, s.memory.value);
    PlanProvides(o, ings, certificates, s.memory.value);
    StepSticky(o, s, t, ings, certificates, s.memory.value);
    CrashSafe(o, s.cluster, s.memory.value, plan, t.cluster, observed);
  }

  /** A reconciliation without failures makes the cluster reflect the memory, and a restart then loses nothing. */
  lemma RestartAfterCompletion(o: Options, s: State, t: State, ings: seq<Ingress>, certificates: Certificates,
                               current: map<string, Placement>, observed: map<string, Placement>)
    requires Safe(o, s) && Reconciles(o, s, t, ings, certificates, current) && DistinctSetNames(o, t.memory.value)
    requires Completed(o, s.cluster, PlanFrom(o, ings, certificates, current), t.cluster)
    requires Remembered(o, t.(memory := None), observed)
    ensures Reflects(o, t.cluster, t.memory.value) && observed == t.memory.value
  {
    var plan := PlanFrom(o, ings, certificates, current);
    CurrentOk(o, s, current);
    PlanProvides(o, ings, certificates, current);
    CompletedReflects(o, s.cluster, plan, t.cluster);
    EmitObserveIdentity(o, t.cluster, plan.placements, observed);
  }

  // ---------- Runs with restarts ----------

  /** The host sits on parent k in memory, and on k alone in the cluster. */
  ghost predicate Anchored(o: Options, s: State, host: string, k: int) {
    && (s.memory.Some? ==> host in s.memory.value && s.memory.value[host].listenerSet == k)
    && s.cluster.gateway.Some?
    && (forall i :: Holds(o.ns, Parents(o, s.cluster), i, host) <==> i == k)
  }

  lemma AnchoredCurrent(o: Options, s: State, host: string, k: int, current: map<string, Placement>)
    requires Anchored(o, s, host, k) && Remembered(o, s, current)
    ensures host in current && current[host].listenerSet == k
  {
    if s.memory.None? {
      assert Holds(o.ns, Parents(o, s.cluster), k, host);
      assert Holds(o.ns, Parents(o, s.cluster), current[host].listenerSet, host);
    }
  }

  lemma ReflectedIsAnchored(o: Options, s: State, p: map<string, Placement>, host: string)
    requires PlainPlacements(p) && NonNegative(p) && Reflects(o, s.cluster, p) && host in p
    requires s.memory.Some? ==> s.memory.value == p
    ensures Anchored(o, s, host, p[host].listenerSet)
  {
    forall i ensures Holds(o.ns, Parents(o, s.cluster), i, host) <==> i == p[host].listenerSet {
      HoldsEmission(o, s.cluster, p, i, host);
    }
    assert Holds(o.ns, Parents(o, s.cluster), p[host].listenerSet, host);
  }

  lemma HoldsParent(o: Options, c: Cluster, i: int, host: string)
    ensures Holds(o.ns, Parents(o, c), i, host) <==>
            ParentAt(o, c, i).Some? && RecordedAll(o.ns, ParentAt(o, c, i).value, host).Some?
  {
  }

  lemma ParentAnchored(o: Options, c: Cluster, p: map<string, Placement>, c': Cluster, host: string, k: int, i: int)
    requires PlainPlacements(p) && host in p && p[host].listenerSet == k && ParentReached(o, c, p, c', i)
    requires Holds(o.ns, Parents(o, c), i, host) <==> i == k
    ensures Holds(o.ns, Parents(o, c'), i, host) <==> i == k
  {
    assert host in Held(p, k);
    HoldsParent(o, c, i, host);
    HoldsParent(o, c', i, host);
    RecordedEmission(o, p, i, host);
  }

  lemma ReachedAnchored(o: Options, c: Cluster, plan: GatewayPlan, c': Cluster, host: string, k: int, i: int)
    requires Emits(o, plan) && DistinctSetNames(o, plan.placements) && Reached(o, c, plan, c') && c.gateway.Some?
    requires host in plan.placements && plan.placements[host].listenerSet == k
    requires Holds(o.ns, Parents(o, c), i, host) <==> i == k
    ensures Holds(o.ns, Parents(o, c'), i, host) <==> i == k
  {
    if i >= 0 {
      ReachedParents(o, c, plan, c', i);
    } else {
      ParentsAt(o, c, i);
      ParentsAt(o, c', i);
    }
    ParentAnchored(o, c, plan.placements, c', host, k, i);
  }

  lemma ReconcileKeepsAnchor(o: Options, s: State, t: State, ings: seq<Ingress>, certificates: Certificates,
                             current: map<string, Placement>, host: string, k: int)
    requires Safe(o, s) && Anchored(o, s, host, k) && Reconciles(o, s, t, ings, certificates, current)
    requires host in t.memory.value && DistinctSetNames(o, t.memory.value)
    ensures Anchored(o, t, host, k)
  {
    var plan := PlanFrom(o, ings, certificates, current);
    AnchoredCurrent(o, s, host, k, current);
    CurrentOk(o, s, current);
    StepSticky(o, s, t, ings, certificates, current);
    PlanProvides(o, ings, certificates, current);
    forall i ensures Holds(o.ns, Parents(o, t.cluster), i, host) <==> i == k {
      ReachedAnchored(o, s.cluster, plan, t.cluster, host, k, i);
    }
  }

  lemma StepKeepsAnchor(o: Options, s: State, t: State, host: string, k: int)
    requires Safe(o, s) && Anchored(o, s, host, k) && Step(o, s, t)
    requires t.memory.Some? ==> host in t.memory.value && DistinctSetNames(o, t.memory.value)
    ensures Anchored(o, t, host, k)
  {
    if !Restarts(s, t) {
      var ings, certificates, current :| Reconciles(o, s, t, ings, certificates, current);
      ReconcileKeepsAnchor(o, s, t, ings, certificates, current, host, k);
    }
  }

  lemma MomentKeepsAnchor(o: Options, states: seq<State>, i: nat, host: string, k: int)
    requires i + 1 < |states| && Run(o, states) && Safe(o, states[0]) && Anchored(o, states[i], host, k)
    requires states[i + 1].memory.Some? ==>
               host in states[i + 1].memory.value && DistinctSetNames(o, states[i + 1].memory.value)
    ensures Anchored(o, states[i + 1], host, k)
  {
    RunSafe(o, states, i);
    assert Step(o, states[i], states[i + 1]);
    StepKeepsAnchor(o, states[i], states[i + 1], host, k);
  }

  lemma {:induction false} RunAnchored(o: Options, states: seq<State>, j: nat, host: string, k: int)
    requires j < |states| && Run(o, states) && Safe(o, states[0]) && Anchored(o, states[0], host, k)
    requires forall i | 0 <= i <= j && states[i].memory.Some? ::
               host in states[i].memory.value && DistinctSetNames(o, states[i].memory.value)
    ensures Anchored(o, states[j], host, k)
  {
    if j > 0 {
      RunAnchored(o, states, j - 1, host, k);
      MomentKeepsAnchor(o, states, j - 1, host, k);
    }
  }

  /** From a cluster that reflects a placement, along any run of partial reconciliations and restarts: a
      hostname in every plan is always placed, and always found by a bootstrap, on the parent it had. */
  lemma RunKeepsParent(o: Options, states: seq<State>, j: nat, p: map<string, Placement>, host: string,
                       current: map<string, Placement>)
    requires j < |states| && Run(o, states) && Safe(o, states[0])
    requires PlainPlacements(p) && NonNegative(p) && Reflects(o, states[0].cluster, p) && host in p
    requires states[0].memory.Some? ==> states[0].memory.value == p
    requires forall i | 0 <= i <= j && states[i].memory.Some? ::
               host in states[i].memory.value && DistinctSetNames(o, states[i].memory.value)
    requires Remembered(o, states[j], current) || Remembered(o, states[j].(memory := None), current)
    ensures host in current && current[host].listenerSet == p[host].listenerSet
  {
    ReflectedIsAnchored(o, states[0], p, host);
    RunAnchored(o, states, j, host, p[host].listenerSet);
    if Remembered(o, states[j], current) {
      AnchoredCurrent(o, states[j], host, p[host].listenerSet, current);
    } else {
      AnchoredCurrent(o, states[j].(memory := None), host, p[host].listenerSet, current);
    }
  }
}
