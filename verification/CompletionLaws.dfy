// What a complete reconciliation leaves in the cluster, and what no reconciliation touches.
module CompletionLaws {
  import opened Model
  import opened PlacingLaws
  import opened Planner
  import opened PlannerLaws
  import opened PlanLaws
  import opened Observing
  import opened Runs
  import opened RunLaws

  // ---------- Grants ----------

  lemma {:induction false} SecretsMembers(desired: seq<Grant>, n: nat, s: NamespacedName)
    requires n <= |desired|
    ensures s in DesiredSecrets(desired, n) <==> exists j :: 0 <= j < n && desired[j].secret == s
  {
    if n > 0 {
      SecretsMembers(desired, n - 1, s);
    }
  }

  /** A grant after applying is the last planned for its Secret, or was there before. */
  lemma {:induction false} AppliedGrant(grants: Grants, desired: seq<Grant>, n: nat, s: NamespacedName)
    requires n <= |desired|
    ensures var after := AppliedGrants(grants, desired, n);
            if s in DesiredSecrets(desired, n)
            then s in after && exists g :: g in desired && g.secret == s && after[s] == CertificateGrant(true, g.toListenerSets)
            else (s in after <==> s in grants) && (s in grants ==> after[s] == grants[s])
  {
    if n > 0 {
      AppliedGrant(grants, desired, n - 1, s);
      assert desired[n - 1] in desired;
    }
  }

  /** After a complete reconciliation the bridge's grants are exactly the plan's, and open to the parents the
      plan says. */
  lemma GrantsLeft(o: Options, c: Cluster, plan: GatewayPlan, c': Cluster, s: NamespacedName)
    requires Completed(o, c, plan, c')
    ensures s in c'.grants && c'.grants[s].managed <==> exists g :: g in plan.grants && g.secret == s
    ensures s in c'.grants && c'.grants[s].managed ==>
              exists g :: g in plan.grants && g.secret == s && c'.grants[s].toListenerSets == g.toListenerSets
  {
    SecretsMembers(plan.grants, |plan.grants|, s);
    AppliedGrant(c.grants, plan.grants, |plan.grants|, s);
    if g :| g in plan.grants && g.secret == s {
      var j :| 0 <= j < |plan.grants| && plan.grants[j] == g;
      assert s in DesiredSecrets(plan.grants, |plan.grants|);
    }
  }

  /** They are for the Secrets of placed listeners outside the Gateway's namespace, and open to ListenerSets where
      there are any. */
  lemma GrantsAreNeeded(o: Options, s: State, t: State, ings: seq<Ingress>, certificates: Certificates,
                        current: map<string, Placement>, secret: NamespacedName)
    requires Reconciles(o, s, t, ings, certificates, current)
    requires Completed(o, s.cluster, PlanFrom(o, ings, certificates, current), t.cluster)
    ensures secret in t.cluster.grants && t.cluster.grants[secret].managed <==>
            secret.ns != o.ns && exists x :: x in t.memory.value && t.memory.value[x].secret == secret
    ensures secret in t.cluster.grants && t.cluster.grants[secret].managed ==> t.cluster.grants[secret].toListenerSets == o.overflow
  {
    var plan := PlanFrom(o, ings, certificates, current);
    GrantsLeft(o, s.cluster, plan, t.cluster, secret);
    GrantsExact(ings, o.(certificates := certificates, current := current));
    if x :| x in plan.placements && plan.placements[x].secret == secret && secret.ns != o.ns {
      assert Grant(secret, o.overflow) in plan.grants;
    }
  }

  // ---------- ListenerSets ----------

  /** After a complete reconciliation the bridge's sets are exactly the plan's. */
  lemma SetsLeft(o: Options, c: Cluster, plan: GatewayPlan, c': Cluster, name: string)
    requires Completed(o, c, plan, c') && o.overflow && AllManaged(plan.listenerSets)
    ensures name in c'.sets && c'.sets[name].managed <==> exists s :: s in plan.listenerSets && s.name == name
    ensures name in c'.sets && c'.sets[name].managed ==> c'.sets[name] in plan.listenerSets && c'.sets[name].name == name
  {
    var desired := plan.listenerSets;
    DesiredNamesMembers(desired, |desired|);
    AppliedEntry(c.sets, desired, |desired|, name);
    if s :| s in desired && s.name == name {
      var j :| 0 <= j < |desired| && desired[j] == s;
      assert desired[j].name in DesiredNames(desired, |desired|);
    }
  }

  /** A Gateway left with ListenerSets of the bridge beside it admits them. */
  lemma SetsAreAdmitted(o: Options, s: State, t: State, ings: seq<Ingress>, certificates: Certificates,
                        current: map<string, Placement>, name: string)
    requires Reconciles(o, s, t, ings, certificates, current) && o.overflow
    requires Completed(o, s.cluster, PlanFrom(o, ings, certificates, current), t.cluster)
    requires name in t.cluster.sets && t.cluster.sets[name].managed
    ensures t.cluster.gateway.Some? && t.cluster.gateway.value.managed && t.cluster.gateway.value.allowsListenerSets
  {
    var o' := o.(certificates := certificates, current := current);
    var plan := PlanFrom(o, ings, certificates, current);
    var p := plan.placements;
    SetsExactly(o', p, MaxIndex(p));
    SetsLeft(o, s.cluster, plan, t.cluster, name);
    var set' := t.cluster.sets[name];
    EmittedExactly(o', p, set'.index.value);
    assert |Held(p, set'.index.value)| > 0;
    var x :| x in Held(p, set'.index.value);
    GatewayAdmitsExactly(ings, o');
  }

  // ---------- Other people's objects ----------

  lemma ForeignStays(a: Cluster, b: Cluster, c: Cluster)
    requires ForeignKept(a, b) && ForeignKept(b, c)
    ensures ForeignKept(a, c)
  {
  }

  /** Along any run nothing that is somebody else's is changed or deleted. */
  lemma {:induction false} RunKeepsForeign(o: Options, states: seq<State>, j: nat)
    requires j < |states| && Run(o, states)
    ensures ForeignKept(states[0].cluster, states[j].cluster)
  {
    if j > 0 {
      RunKeepsForeign(o, states, j - 1);
      StepKeepsForeign(o, states, j - 1);
      ForeignStays(states[0].cluster, states[j - 1].cluster, states[j].cluster);
    }
  }

  lemma StepKeepsForeign(o: Options, states: seq<State>, i: nat)
    requires i + 1 < |states| && Run(o, states)
    ensures ForeignKept(states[i].cluster, states[i + 1].cluster)
  {
    assert Step(o, states[i], states[i + 1]);
  }
}
