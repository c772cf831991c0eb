// What a plan means for the Ingresses it is made from: which hosts it serves with whose Secret, what its
// listeners look like, what it refuses and what it reports.
module PlanLaws {
  import opened Text
  import opened Sorting
  import opened Model
  import opened Election
  import opened Placing
  import opened PlacingLaws
  import opened Planner
  import opened PlannerLaws
  import opened ListenerLaws

  // ---------- ListenerSets are admitted ----------

  lemma UsedMakesSet(o: Options, p: map<string, Placement>, x: string) returns (m: int)
    requires x in p && p[x].listenerSet >= 1
    ensures 0 <= m < |SetsOf(o, p)| && SetsOf(o, p)[m].index == Some(p[x].listenerSet)
  {
    var j := PlacedIsEmitted(o, p, x);
    m := UsedIsASet(o, p, p[x].listenerSet);
  }

  /** The Gateway of a plan admits ListenerSets exactly when it is told to or some listener is on one. */
  lemma GatewayAdmitsExactly(ings: seq<Ingress>, o: Options)
    requires PlainIngresses(ings)
    ensures var plan := BuildPlan(ings, o);
            plan.gateway.allowsListenerSets <==>
            o.allowListenerSets || exists x :: x in plan.placements && plan.placements[x].listenerSet >= 1
  {
    var plan := BuildPlan(ings, o);
    var p := plan.placements;
    if x :| x in p && p[x].listenerSet >= 1 {
      var m := UsedMakesSet(o, p, x);
    }
    if SetsOf(o, p) != [] {
      var s := SetsOf(o, p)[0];
      SetsExactly(o, p, MaxIndex(p));
      EmittedExactly(o, p, s.index.value);
      assert |Held(p, s.index.value)| > 0;
      var x :| x in Held(p, s.index.value);
    }
  }

  // ---------- Listeners and the references to them ----------

  /** The listener of a hostname, field by field. */
  predicate IsHttps(o: Options, l: Listener, x: string, secret: NamespacedName) {
    && l.hostname == Some(x) && l.port == 443 && l.protocol == HTTPS && l.name == o.dnsLabel([o.httpsSection, x])
    && l.certificateRefs == Some([SecretRef(Some(secret.ns), secret.name)])
  }

  predicate HasListener(ls: seq<Listener>, l: Listener) {
    l in ls
  }

  /** The parent a reference names, among the plan's own, has an HTTPS listener of that section name, for the
      hostname the host is looked up by and with its Secret. */
  ghost predicate Resolves(o: Options, plan: GatewayPlan, ref: ListenerRef, x: string) {
    x in plan.placements &&
    exists l: Listener :: l.name == ref.section && IsHttps(o, l, x, plan.placements[x].secret) &&
      match ref.kind
      case GatewayKind => ref.name == o.name && HasListener(plan.gateway.listeners, l)
      case ListenerSetKind => exists s: ListenerSet :: s in plan.listenerSets && s.name == ref.name && s.managed && HasListener(s.listeners, l)
  }

  /** The reference recorded for a host resolves to a listener for the host itself or for the wildcard one label
      up. */
  lemma ReferencesResolve(ings: seq<Ingress>, o: Options, host: string)
    requires PlainIngresses(ings) && NonNegative(o.current) && host in BuildPlan(ings, o).tlsSections
    ensures var plan := BuildPlan(ings, o);
            exists x :: Resolves(o, plan, plan.tlsSections[host], x) && (x == host || WildcardParent(host) == Some(x))
  {
    CollectedPlain(ings, o);
    var d, plan := DemandOf(ings, o), BuildPlan(ings, o);
    var x := ListenerOf(d, host);
    PlacementsNonNegative(d, o.overflow);
    if x != host {
      CollapsedNotListener(d, host);
    }
    ListenerResolves(o, plan, x);
  }

  lemma ListenerResolves(o: Options, plan: GatewayPlan, x: string)
    requires plan.gateway == GatewayOf(o, plan.placements) && plan.listenerSets == SetsOf(o, plan.placements)
    requires x in plan.placements && plan.placements[x].listenerSet >= 0
    ensures Resolves(o, plan, ListenerRefAt(o, x, plan.placements[x].listenerSet), x)
  {
    var p := plan.placements;
    var j := PlacedIsEmitted(o, p, x);
    var l := EmittedAt(o, p, p[x].listenerSet)[j];
    if p[x].listenerSet == 0 {
      assert plan.gateway.listeners[j + 1] == l;
      assert HasListener(plan.gateway.listeners, l);
    } else {
      var m := UsedIsASet(o, p, p[x].listenerSet);
      assert plan.listenerSets[m] in plan.listenerSets && HasListener(plan.listenerSets[m].listeners, l);
    }
    assert IsHttps(o, l, x, p[x].secret);
  }

  /** The plain HTTP listener comes first on the Gateway, and no other is not HTTPS. */
  lemma HttpFirst(ings: seq<Ingress>, o: Options, l: Listener)
    requires PlainIngresses(ings)
    ensures var ls := BuildPlan(ings, o).gateway.listeners;
            |ls| >= 1 && ls[0] == Listener(o.httpSection, None, 80, HTTP, None) && (l in ls[1..] ==> l.protocol == HTTPS)
  {
    var p := BuildPlan(ings, o).placements;
    EmittedExactly(o, p, 0);
    assert l in EmittedAt(o, p, 0) <==> l in Elements(EmittedAt(o, p, 0));
  }

  // ---------- What is reported as changed ----------

  /** A host with a section is reported exactly when, before, neither it nor its wildcard was placed, or the
      one of them looked up has another reference. */
  lemma ReportedExactly(previous: map<string, Placement>, plan: GatewayPlan, o: Options, host: string)
    requires host in plan.tlsSections
    ensures host in ChangedOf(previous, plan, o) <==>
            if host in previous then ListenerRefAt(o, host, previous[host].listenerSet) != plan.tlsSections[host]
            else forall w | w in previous && WildcardParent(host) == Some(w) ::
                   ListenerRefAt(o, w, previous[w].listenerSet) != plan.tlsSections[host]
  {
  }

  lemma NewIsReported(previous: map<string, Placement>, plan: GatewayPlan, o: Options, host: string)
    requires host in plan.tlsSections && host !in previous
    requires forall first, rest, w :: OneLabelUp(host, w, first, rest) ==> w !in previous
    ensures host in ChangedOf(previous, plan, o)
  {
    if w :| w in previous && WildcardParent(host) == Some(w) {
      WildcardParentExactly(host, w);
    }
  }

  // ---------- Secrets and parents in a plan ----------

  /** A wildcard listener that stood before keeps its Secret while a host it serves has that Secret. */
  lemma PlanKeepsSecret(ings: seq<Ingress>, o: Options, x: string, host: string)
    requires PlainIngresses(ings) && Plain(DemandOf(ings, o)) && Serves(DemandOf(ings, o), x, host) && IsWildcard(x)
    requires x in o.current && DemandOf(ings, o).owner[host] == o.current[x].secret && x in BuildPlan(ings, o).placements
    ensures BuildPlan(ings, o).placements[x].secret == o.current[x].secret
  {
    KeepsSecret(DemandOf(ings, o), x, host);
  }

  /** Otherwise it has the Secret of a host it serves that is least by namespace/name. */
  lemma PlanTakesFirstSecret(ings: seq<Ingress>, o: Options, x: string, host: string)
    requires PlainIngresses(ings) && Plain(DemandOf(ings, o)) && Serves(DemandOf(ings, o), x, host)
    requires IsWildcard(x) && x in o.current ==>
               forall h | Serves(DemandOf(ings, o), x, h) :: DemandOf(ings, o).owner[h] != o.current[x].secret
    requires x in BuildPlan(ings, o).placements
    ensures var d, secret := DemandOf(ings, o), BuildPlan(ings, o).placements[x].secret;
            && (exists h :: Serves(d, x, h) && d.owner[h] == secret)
            && (d.owner[host] == secret || Less(Slashed(secret), Slashed(d.owner[host])))
  {
    TakesFirstSecret(DemandOf(ings, o), x, host);
  }

  /** A listener new to the plan takes the parent of its placed relative, unless that parent ends up full. */
  lemma PlanInherits(ings: seq<Ingress>, o: Options, x: string, y: string)
    requires PlainIngresses(ings) && Plain(DemandOf(ings, o)) && x in Listeners(DemandOf(ings, o)) && x !in o.current
    requires Kin(DemandOf(ings, o), x, y) && Usable(o.current[y].listenerSet, o.overflow)
    ensures var p, index := BuildPlan(ings, o).placements, o.current[y].listenerSet;
            (x in p && p[x].listenerSet == index) || |Held(p, index)| == Capacity(index)
  {
    TakesParentOfKin(DemandOf(ings, o), o.overflow, x, y);
  }

  // ---------- Names ----------

  function ValueOf(s: string): int {
    if s == "" then 0 else ValueOf(s[..|s| - 1]) * 10 + (s[|s| - 1] as int - '0' as int)
  }

  lemma {:induction false} DecimalValue(n: nat)
    ensures ValueOf(Decimal(n)) == n
  {
    if n < 10 {
      assert Decimal(n)[..0] == "";
    } else {
      DecimalValue(n / 10);
      assert Decimal(n)[..|Decimal(n)| - 1] == Decimal(n / 10);
    }
  }

  /** The parts that ListenerSets of different indices are named by differ. */
  lemma DecimalsDiffer(a: nat, b: nat)
    requires a != b
    ensures Decimal(a) != Decimal(b)
  {
    DecimalValue(a);
    DecimalValue(b);
  }
}
