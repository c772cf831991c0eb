// Which Ingresses declare a hostname, whose Secret it gets and which TLS entries are refused, said of
// the Ingresses themselves.
module DeclarationLaws {
  import opened Text
  import opened Sorting
  import opened Model
  import opened Collect
  import opened Planner
  import opened PlannerLaws

  // ---------- One TLS entry ----------

  predicate Spells(raws: seq<string>, host: string) {
    exists i :: 0 <= i < |raws| && Normalise(raws[i]) == host
  }

  /** The entry applies to the host: it lists it or, listing nothing, leaves it to the rules of its Ingress. */
  predicate Lists(ing: Ingress, tls: TLSEntry, host: string) {
    host != "" && if tls.hosts != [] then Spells(tls.hosts, host) else Spells(ing.ruleHosts, host)
  }

  /** TLS entry k of a live Ingress names a Secret for the host. */
  predicate EntryFor(ing: Ingress, k: int, host: string) {
    0 <= k < |ing.tls| && !ing.deleting && TrimSpace(ing.tls[k].secretName) != "" && Lists(ing, ing.tls[k], host)
  }

  function SecretNamed(ing: Ingress, k: int): NamespacedName
    requires 0 <= k < |ing.tls|
  {
    NamespacedName(ing.ns, TrimSpace(ing.tls[k].secretName))
  }

  lemma {:induction false} NamedMembers(raws: seq<string>, n: nat, host: string)
    requires n <= |raws|
    ensures host in Named(raws, n) <==> host != "" && exists i :: 0 <= i < n && Normalise(raws[i]) == host
  {
    if n > 0 {
      NamedMembers(raws, n - 1, host);
    }
  }

  lemma EffectiveMembers(ing: Ingress, tls: TLSEntry, host: string)
    ensures host in EffectiveHosts(ing, tls) <==> Lists(ing, tls, host)
  {
    NamedMembers(tls.hosts, |tls.hosts|, host);
    InferredMembers(ing.ruleHosts, |ing.ruleHosts|, host);
  }

  lemma EffectiveNormal(ing: Ingress, tls: TLSEntry, i: nat)
    requires i < |EffectiveHosts(ing, tls)|
    ensures var h := EffectiveHosts(ing, tls)[i]; h != "" && Normalise(h) == h
  {
    var h := EffectiveHosts(ing, tls)[i];
    assert h in EffectiveHosts(ing, tls);
    EffectiveMembers(ing, tls, h);
    var raws := if tls.hosts != [] then tls.hosts else ing.ruleHosts;
    var j :| 0 <= j < |raws| && Normalise(raws[j]) == h;
    NormaliseTwice(raws[j]);
  }

  /** What an entry says: its Secret for each host it lists, or why it says nothing. */
  lemma EntrySays(ing: Ingress, tls: TLSEntry, d: Declaration)
    ensures var named := TrimSpace(tls.secretName) != "";
            d in EntryDeclarations(ing, tls) <==>
            match d
            case Declares(source, secret, host) =>
              named && source == SourceOf(ing) && secret == NamespacedName(ing.ns, TrimSpace(tls.secretName)) && Lists(ing, tls, host)
            case Rejected(source, reason) =>
              source == SourceOf(ing) &&
              ((!named && reason == NoSecretName) || (named && reason == NoHosts && forall h :: !Lists(ing, tls, h)))
  {
    var secret, hosts := TrimSpace(tls.secretName), EffectiveHosts(ing, tls);
    var ds := EntryDeclarations(ing, tls);
    forall h ensures h in hosts <==> Lists(ing, tls, h) {
      EffectiveMembers(ing, tls, h);
    }
    if hosts == [] {
      forall h ensures !Lists(ing, tls, h) {
        assert h !in hosts;
      }
    } else {
      assert hosts[0] in hosts;
      if secret != "" {
        AllDeclare(ing, NamespacedName(ing.ns, secret), tls, d);
      }
    }
  }

  lemma AllDeclare(ing: Ingress, secret: NamespacedName, tls: TLSEntry, d: Declaration)
    ensures var hosts := EffectiveHosts(ing, tls);
            d in HostDeclarations(SourceOf(ing), secret, hosts) <==>
            d.Declares? && d.source == SourceOf(ing) && d.secret == secret && d.host in hosts
  {
    var hosts := EffectiveHosts(ing, tls);
    var ds := HostDeclarations(SourceOf(ing), secret, hosts);
    forall i | 0 <= i < |hosts| ensures ds[i] == Declares(SourceOf(ing), secret, hosts[i]) {
      EffectiveNormal(ing, tls, i);
    }
    if d.Declares? && d.source == SourceOf(ing) && d.secret == secret && d.host in hosts {
      var i :| 0 <= i < |hosts| && hosts[i] == d.host;
      assert ds[i] == d;
    }
  }

  // ---------- All Ingresses ----------

  lemma {:induction false} JoinedMembers(parts: seq<seq<Declaration>>, n: nat, d: Declaration)
    requires n <= |parts|
    ensures d in Joined(parts, n) <==> exists k :: 0 <= k < n && d in parts[k]
  {
    if n > 0 {
      JoinedMembers(parts, n - 1, d);
    }
  }

  lemma IngressSays(ing: Ingress, d: Declaration)
    ensures d in IngressDeclarations(ing, |ing.tls|) <==> exists k :: 0 <= k < |ing.tls| && d in EntryDeclarations(ing, ing.tls[k])
  {
    JoinedMembers(EntryParts(ing), |ing.tls|, d);
    forall k | 0 <= k < |ing.tls| ensures EntryParts(ing)[k] == EntryDeclarations(ing, ing.tls[k]) {}
  }

  /** Entry k of the live Ingress says d. */
  predicate Says(ing: Ingress, k: int, d: Declaration) {
    !ing.deleting && 0 <= k < |ing.tls| && d in EntryDeclarations(ing, ing.tls[k])
  }

  lemma PartSays(ings: seq<Ingress>, i: nat, d: Declaration)
    requires i < |ings|
    ensures d in IngressParts(ings)[i] <==> exists k :: Says(ings[i], k, d)
  {
    assert IngressParts(ings)[i] == LiveDeclarations(ings[i]);
    LiveSays(ings[i], d);
  }

  lemma LiveSays(ing: Ingress, d: Declaration)
    ensures d in LiveDeclarations(ing) <==> exists k :: Says(ing, k, d)
  {
    IngressSays(ing, d);
    if k :| 0 <= k < |ing.tls| && d in EntryDeclarations(ing, ing.tls[k]) && !ing.deleting {
      assert Says(ing, k, d);
    }
  }

  lemma AllSay(ings: seq<Ingress>, d: Declaration)
    ensures d in Declarations(ings, |ings|) <==> exists ing, k :: ing in ings && Says(ing, k, d)
  {
    JoinedMembers(IngressParts(ings), |ings|, d);
    if i :| 0 <= i < |ings| && d in IngressParts(ings)[i] {
      PartSays(ings, i, d);
    }
    if ing, k :| ing in ings && Says(ing, k, d) {
      var i :| 0 <= i < |ings| && ings[i] == ing;
      PartSays(ings, i, d);
    }
  }

  /** What the plan collects, in the order of the Ingresses by namespace and name. */
  ghost function SaidBy(ings: seq<Ingress>): seq<Declaration> {
    var sorted := SortBy(IngressKey, ings);
    Declarations(sorted, |sorted|)
  }

  /** The live Ingress declares the host with entry k. */
  predicate DeclaredBy(ings: seq<Ingress>, ing: Ingress, k: int, host: string) {
    ing in ings && EntryFor(ing, k, host)
  }

  lemma SaidExactly(ings: seq<Ingress>, d: Declaration)
    ensures d in SaidBy(ings) <==> exists ing, k :: ing in ings && Says(ing, k, d)
  {
    var sorted := SortBy(IngressKey, ings);
    SortByElements(IngressKey, ings);
    AllSay(sorted, d);
    forall ing ensures ing in sorted <==> ing in ings {
      assert ing in Elements(sorted) <==> ing in sorted;
      assert ing in Elements(ings) <==> ing in ings;
    }
  }

  lemma SaysDeclares(ing: Ingress, k: int, host: string)
    ensures EntryFor(ing, k, host) <==>
            0 <= k < |ing.tls| && Says(ing, k, Declares(SourceOf(ing), SecretNamed(ing, k), host))
  {
    if 0 <= k < |ing.tls| {
      EntrySays(ing, ing.tls[k], Declares(SourceOf(ing), SecretNamed(ing, k), host));
    }
  }

  lemma SaysWhat(ing: Ingress, k: int, d: Declaration)
    requires Says(ing, k, d) && d.Declares?
    ensures EntryFor(ing, k, d.host) && d == Declares(SourceOf(ing), SecretNamed(ing, k), d.host)
  {
    EntrySays(ing, ing.tls[k], d);
  }

  /** The TLS hosts of a plan are those a live Ingress declares with a named Secret. */
  lemma HostsExactly(ings: seq<Ingress>, o: Options, host: string)
    requires PlainIngresses(ings)
    ensures host in BuildPlan(ings, o).tlsHosts <==> exists ing, k :: DeclaredBy(ings, ing, k, host)
  {
    var ds := SaidBy(ings);
    OwnerIsFirstDeclared(ds, |ds|, host);
    if i :| 0 <= i < |ds| && DeclaresAt(ds, i, host) {
      assert ds[i] in ds;
      SaidExactly(ings, ds[i]);
      var ing, k :| ing in ings && Says(ing, k, ds[i]);
      SaysWhat(ing, k, ds[i]);
      assert DeclaredBy(ings, ing, k, host);
    }
    if ing, k :| DeclaredBy(ings, ing, k, host) {
      SaysDeclares(ing, k, host);
      var d := Declares(SourceOf(ing), SecretNamed(ing, k), host);
      SaidExactly(ings, d);
      var i :| 0 <= i < |ds| && ds[i] == d;
      assert DeclaresAt(ds, i, host);
    }
  }

  // ---------- Refused entries ----------

  ghost predicate Refuses(ings: seq<Ingress>, s: NamespacedName, reason: Reason, ing: Ingress, k: int) {
    && ing in ings && SourceOf(ing) == s && !ing.deleting && 0 <= k < |ing.tls|
    && match reason
       case NoSecretName => TrimSpace(ing.tls[k].secretName) == ""
       case NoHosts => TrimSpace(ing.tls[k].secretName) != "" && forall h :: !Lists(ing, ing.tls[k], h)
       case EmptyHost => false
  }

  lemma {:induction false} UnusableCollected(ds: seq<Declaration>, n: nat, s: NamespacedName, reason: Reason)
    requires n <= |ds|
    ensures Unusable(reason) in IssuesOf(AbsorbFirst(NOTHING, ds, n).issues, s) <==>
            exists j :: 0 <= j < n && ds[j] == Rejected(s, reason)
  {
    if n > 0 {
      UnusableCollected(ds, n - 1, s, reason);
      UnusableNext(AbsorbFirst(NOTHING, ds, n - 1), ds[n - 1], s, reason);
    }
  }

  lemma UnusableNext(c: Collected, d: Declaration, s: NamespacedName, reason: Reason)
    ensures Unusable(reason) in IssuesOf(Absorb(c, d).issues, s) <==>
            Unusable(reason) in IssuesOf(c.issues, s) || d == Rejected(s, reason)
  {
  }

  /** An Ingress carries an Error for a TLS entry exactly when it is live and the entry names no Secret, or no
      host applies to it. */
  lemma RefusedExactly(ings: seq<Ingress>, o: Options, s: NamespacedName, reason: Reason)
    requires PlainIngresses(ings)
    ensures Unusable(reason) in IssuesOf(BuildPlan(ings, o).issues, s) <==> exists ing, k :: Refuses(ings, s, reason, ing, k)
  {
    CollectedPlain(ings, o);
    var c, d := CollectedOf(ings), DemandOf(ings, o);
    var unplaced := PlacedOf(d, o.overflow).rest;
    UnplacedReported(c.issues, c.declaredBy, unplaced, |unplaced|, s, Unusable(reason));
    UnusableCollected(SaidBy(ings), |SaidBy(ings)|, s, reason);
    SaidExactly(ings, Rejected(s, reason));
    RejectsExactly(ings, s, reason);
  }

  lemma RejectsExactly(ings: seq<Ingress>, s: NamespacedName, reason: Reason)
    ensures (exists ing, k :: ing in ings && Says(ing, k, Rejected(s, reason))) <==>
            exists ing, k :: Refuses(ings, s, reason, ing, k)
  {
    forall ing, k ensures ing in ings && Says(ing, k, Rejected(s, reason)) <==> Refuses(ings, s, reason, ing, k) {
      if 0 <= k < |ing.tls| {
        EntrySays(ing, ing.tls[k], Rejected(s, reason));
      }
    }
  }

  // ---------- Whose Secret a host gets ----------

  lemma {:induction false} FirstExists(ds: seq<Declaration>, i: nat, host: string) returns (f: nat)
    requires DeclaresAt(ds, i, host)
    ensures f <= i && FirstAt(ds, f, host)
    decreases i
  {
    if j :| 0 <= j < i && DeclaresAt(ds, j, host) {
      f := FirstExists(ds, j, host);
    } else {
      f := i;
    }
  }

  ghost predicate Silent(ds: seq<Declaration>, host: string) {
    forall i :: !DeclaresAt(ds, i, host)
  }

  lemma {:induction false} JoinedSilent(parts: seq<seq<Declaration>>, n: nat, host: string)
    requires n <= |parts| && forall i | 0 <= i < n :: Silent(parts[i], host)
    ensures Silent(Joined(parts, n), host)
  {
    if n > 0 {
      JoinedSilent(parts, n - 1, host);
      SilentJoin(Joined(parts, n - 1), parts[n - 1], host);
    }
  }

  lemma SilentJoin(a: seq<Declaration>, b: seq<Declaration>, host: string)
    requires Silent(a, host) && Silent(b, host)
    ensures Silent(a + b, host)
  {
    forall i ensures !DeclaresAt(a + b, i, host) {
      assert !DeclaresAt(a, i, host) && !DeclaresAt(b, i - |a|, host);
    }
  }

  lemma FirstAfterSilence(a: seq<Declaration>, b: seq<Declaration>, g: nat, host: string)
    requires Silent(a, host) && FirstAt(b, g, host)
    ensures FirstAt(a + b, |a| + g, host) && (a + b)[|a| + g] == b[g]
  {
    forall j | 0 <= j < |a| + g ensures !DeclaresAt(a + b, j, host) {
      assert !DeclaresAt(a, j, host);
      assert j >= |a| ==> !DeclaresAt(b, j - |a|, host);
    }
  }

  lemma FirstStays(a: seq<Declaration>, b: seq<Declaration>, f: nat, host: string)
    requires FirstAt(a, f, host)
    ensures FirstAt(a + b, f, host) && (a + b)[f] == a[f]
  {
    forall j | 0 <= j < f ensures !DeclaresAt(a + b, j, host) {
      assert !DeclaresAt(a, j, host);
    }
  }

  /** The first declaration of a host comes from the first part that has one. */
  lemma {:induction false} FirstInJoined(parts: seq<seq<Declaration>>, n: nat, k: nat, g: nat, host: string) returns (f: nat)
    requires k < n <= |parts| && FirstAt(parts[k], g, host) && forall i | 0 <= i < k :: Silent(parts[i], host)
    ensures FirstAt(Joined(parts, n), f, host) && Joined(parts, n)[f] == parts[k][g]
  {
    if k == n - 1 {
      JoinedSilent(parts, k, host);
      FirstAfterSilence(Joined(parts, k), parts[k], g, host);
      f := |Joined(parts, k)| + g;
    } else {
      f := FirstInJoined(parts, n - 1, k, g, host);
      FirstStays(Joined(parts, n - 1), parts[n - 1], f, host);
    }
  }

  predicate Precedes(a: Ingress, b: Ingress) {
    Less(a.ns, b.ns) || (a.ns == b.ns && Less(a.name, b.name))
  }

  /** No live Ingress before this one, by namespace and name, and no entry of it before k, declares the host. */
  ghost predicate Earliest(ings: seq<Ingress>, ing: Ingress, k: int, host: string) {
    && DeclaredBy(ings, ing, k, host)
    && (forall other, j | DeclaredBy(ings, other, j, host) :: !Precedes(other, ing))
    && (forall j | 0 <= j < k :: !EntryFor(ing, j, host))
  }

  lemma SilentUnless(ing: Ingress, host: string)
    requires forall k :: !EntryFor(ing, k, host)
    ensures Silent(LiveDeclarations(ing), host)
  {
    forall i ensures !DeclaresAt(LiveDeclarations(ing), i, host) {
      if DeclaresAt(LiveDeclarations(ing), i, host) {
        var d := LiveDeclarations(ing)[i];
        LiveSays(ing, d);
        var k :| Says(ing, k, d);
        SaysWhat(ing, k, d);
      }
    }
  }

  lemma SilentEntry(ing: Ingress, k: nat, host: string)
    requires k < |ing.tls| && !ing.deleting && !EntryFor(ing, k, host)
    ensures Silent(EntryParts(ing)[k], host)
  {
    var ds := EntryDeclarations(ing, ing.tls[k]);
    forall i ensures !DeclaresAt(ds, i, host) {
      if DeclaresAt(ds, i, host) {
        assert Says(ing, k, ds[i]);
        SaysWhat(ing, k, ds[i]);
      }
    }
  }

  lemma FirstOfIngress(ing: Ingress, k: nat, host: string) returns (f: nat)
    requires EntryFor(ing, k, host) && forall j | 0 <= j < k :: !EntryFor(ing, j, host)
    ensures FirstAt(LiveDeclarations(ing), f, host) && LiveDeclarations(ing)[f].secret == SecretNamed(ing, k)
  {
    var ds := EntryDeclarations(ing, ing.tls[k]);
    SaysDeclares(ing, k, host);
    var i :| 0 <= i < |ds| && ds[i] == Declares(SourceOf(ing), SecretNamed(ing, k), host);
    var g := FirstExists(ds, i, host);
    assert Says(ing, k, ds[g]);
    SaysWhat(ing, k, ds[g]);
    forall j | 0 <= j < k ensures Silent(EntryParts(ing)[j], host) {
      SilentEntry(ing, j, host);
    }
    f := FirstInJoined(EntryParts(ing), |ing.tls|, k, g, host);
  }

  lemma FirstOfAll(sorted: seq<Ingress>, i: nat, k: nat, host: string) returns (f: nat)
    requires i < |sorted| && EntryFor(sorted[i], k, host) && forall j | 0 <= j < k :: !EntryFor(sorted[i], j, host)
    requires forall m, j | 0 <= m < i :: !EntryFor(sorted[m], j, host)
    ensures FirstAt(Declarations(sorted, |sorted|), f, host)
    ensures Declarations(sorted, |sorted|)[f].secret == SecretNamed(sorted[i], k)
  {
    var g := FirstOfIngress(sorted[i], k, host);
    forall m | 0 <= m < i ensures Silent(IngressParts(sorted)[m], host) {
      SilentUnless(sorted[m], host);
    }
    f := FirstInJoined(IngressParts(sorted), |sorted|, i, g, host);
  }

  /** A host gets the Secret of the earliest declaration of it. */
  lemma EarliestOwns(ings: seq<Ingress>, o: Options, ing: Ingress, k: int, host: string)
    requires NoDuplicates(ings) && DistinctKeys(IngressKey, Elements(ings)) && Earliest(ings, ing, k, host)
    ensures host in DemandOf(ings, o).owner && DemandOf(ings, o).owner[host] == SecretNamed(ing, k)
  {
    var sorted := SortBy(IngressKey, ings);
    SortByElements(IngressKey, ings);
    SortByAscending(IngressKey, ings);
    assert ing in Elements(ings);
    var i :| 0 <= i < |sorted| && sorted[i] == ing;
    forall m, j | 0 <= m < i ensures !EntryFor(sorted[m], j, host) {
      assert sorted[m] in Elements(sorted);
      assert Precedes(sorted[m], ing);
      assert DeclaredBy(ings, sorted[m], j, host) <==> EntryFor(sorted[m], j, host);
    }
    var f := FirstOfAll(sorted, i, k, host);
    var ds := SaidBy(ings);
    OwnerIsFirstDeclared(ds, |ds|, host);
    forall g | FirstAt(ds, g, host) ensures g == f {
      FirstUnique(ds, f, g, host);
    }
  }
}
