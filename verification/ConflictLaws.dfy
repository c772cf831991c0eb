// Who carries an Error for two Secrets on one hostname in a whole plan, and an
// Ingress of a conflict that carries none.
module ConflictLaws {
  import opened Text
  import opened Sorting
  import opened Model
  import opened Collect
  import opened Election
  import opened Planner
  import opened PlannerLaws
  import opened SmallDemands
  import opened DeclarationLaws

  lemma SameFlags(a: Issues, b: Issues, s: NamespacedName, host: string)
    requires forall q: Issue | q.Conflict? :: q in IssuesOf(a, s) <==> q in IssuesOf(b, s)
    ensures Flagged(a, s, host) <==> Flagged(b, s, host)
  {
    if q: Issue :| q in IssuesOf(a, s) && q.Conflict? && q.host == host {
      assert q in IssuesOf(b, s);
    }
    if q: Issue :| q in IssuesOf(b, s) && q.Conflict? && q.host == host {
      assert q in IssuesOf(a, s);
    }
  }

  /** Capacity Errors neither add nor remove a conflict Error. */
  lemma CapacityKeepsFlags(issues: Issues, declaredBy: map<string, set<NamespacedName>>, unplaced: seq<ProjectedListener>,
                           s: NamespacedName, host: string)
    requires PlainDeclarers(declaredBy)
    ensures Flagged(ReportUnplaced(issues, declaredBy, unplaced, |unplaced|), s, host) <==> Flagged(issues, s, host)
  {
    var after := ReportUnplaced(issues, declaredBy, unplaced, |unplaced|);
    forall q: Issue | q.Conflict? ensures q in IssuesOf(after, s) <==> q in IssuesOf(issues, s) {
      UnplacedReported(issues, declaredBy, unplaced, |unplaced|, s, q);
    }
    SameFlags(after, issues, s, host);
  }

  ghost predicate Blamed(ds: seq<Declaration>, s: NamespacedName, host: string) {
    exists j :: BlamedAt(ds, j, host, s)
  }

  lemma FlaggedIsBlamed(ds: seq<Declaration>, s: NamespacedName, host: string)
    ensures Flagged(AbsorbAll(NOTHING, ds).issues, s, host) <==> Blamed(ds, s, host)
  {
    FlaggedExactly(ds, |ds|, host, s);
  }

  /** A plan carries a conflict Error of an Ingress for a host exactly when the Ingress made a declaration against
      the host's Secret, or was the last to agree with it before one. */
  lemma PlanFlagsExactly(ings: seq<Ingress>, o: Options, s: NamespacedName, host: string)
    requires PlainIngresses(ings)
    ensures Flagged(BuildPlan(ings, o).issues, s, host) <==> Blamed(SaidBy(ings), s, host)
  {
    CollectedPlain(ings, o);
    var c := CollectedOf(ings);
    CapacityKeepsFlags(c.issues, c.declaredBy, PlacedOf(DemandOf(ings, o), o.overflow).rest, s, host);
    FlaggedIsBlamed(SaidBy(ings), s, host);
  }

  // ---------- A party to a conflict that is not told ----------

  function Declaring(name: string, secret: string, host: string): Ingress {
    Ingress("n", name, false, [TLSEntry(secret, [host])], [])
  }

  /** Three Ingresses of one namespace that declare one host, the first and the third with the same Secret. */
  function Parties(host: string, secret: string, rival: string): seq<Ingress> {
    [Declaring("a", secret, host), Declaring("b", rival, host), Declaring("c", secret, host)]
  }

  function PartiesSay(host: string, secret: string, rival: string): seq<Declaration> {
    [Declares(NamespacedName("n", "a"), NamespacedName("n", secret), host),
     Declares(NamespacedName("n", "b"), NamespacedName("n", rival), host),
     Declares(NamespacedName("n", "c"), NamespacedName("n", secret), host)]
  }

  lemma PartiesInOrder(host: string, secret: string, rival: string)
    ensures SortBy(IngressKey, Parties(host, secret, rival)) == Parties(host, secret, rival)
  {
    var xs := Parties(host, secret, rival);
    LessTotal("n", "n");
    assert Less("a", "b") && Less("b", "c");
    assert SortBy(IngressKey, xs[2..]) == [xs[2]] by {
      assert xs[2..] == [xs[2]] && xs[3..] == [];
    }
    assert xs[1..][1..] == xs[2..];
    assert SortBy(IngressKey, xs[1..]) == [xs[1], xs[2]];
  }

  lemma PartiesSaid(host: string, secret: string, rival: string)
    requires PlainName(host) && PlainName(secret) && PlainName(rival)
    ensures SaidBy(Parties(host, secret, rival)) == PartiesSay(host, secret, rival)
  {
    var ings := Parties(host, secret, rival);
    PartiesInOrder(host, secret, rival);
    OneEntry(ings[0], secret, host);
    OneEntry(ings[1], rival, host);
    OneEntry(ings[2], secret, host);
    assert Declarations(ings, 0) == [];
    assert Declarations(ings, 1) == IngressDeclarations(ings[0], |ings[0].tls|);
    assert Declarations(ings, 2) == Declarations(ings, 1) + IngressDeclarations(ings[1], |ings[1].tls|);
  }

  lemma PartiesOwner(host: string, secret: string, rival: string)
    requires PlainName(host) && PlainName(secret) && PlainName(rival) && secret != rival
    ensures OwnersOf(CollectedOf(Parties(host, secret, rival))) == map[host := NamespacedName("n", secret)]
  {
    PartiesSaid(host, secret, rival);
    PartiesAbsorbed(PartiesSay(host, secret, rival), host);
  }

  lemma PartiesAbsorbed(ds: seq<Declaration>, host: string)
    requires |ds| == 3 && ds[0].Declares? && ds[1].Declares? && ds[2].Declares?
    requires ds[0].host == ds[1].host == ds[2].host == host && ds[0].secret == ds[2].secret != ds[1].secret
    ensures OwnersOf(AbsorbAll(NOTHING, ds)) == map[host := ds[0].secret]
  {
    assert AbsorbFirst(NOTHING, ds, 0) == NOTHING;
    var one := AbsorbFirst(NOTHING, ds, 1);
    assert one == Absorb(NOTHING, ds[0]);
    var two := AbsorbFirst(NOTHING, ds, 2);
    assert two == Absorb(one, ds[1]);
    assert AbsorbAll(NOTHING, ds) == Absorb(two, ds[2]);
  }

  lemma PartiesBlamed(host: string, secret: string, rival: string, s: NamespacedName)
    requires secret != rival
    ensures Blamed(PartiesSay(host, secret, rival), s, host) <==> s == NamespacedName("n", "a") || s == NamespacedName("n", "b")
  {
    LateAgreementUnflagged(NamespacedName("n", "a"), NamespacedName("n", "b"), NamespacedName("n", "c"),
                           NamespacedName("n", secret), NamespacedName("n", rival), host);
    FlaggedIsBlamed(PartiesSay(host, secret, rival), s, host);
  }

  /** In the plan of the Ingresses just the first two carry a conflict Error for the host. */
  ghost predicate OnlyFirstTwoTold(ings: seq<Ingress>, o: Options, host: string)
    requires PlainIngresses(ings) && |ings| >= 2
  {
    forall s :: Flagged(BuildPlan(ings, o).issues, s, host) <==> s == SourceOf(ings[0]) || s == SourceOf(ings[1])
  }

  ghost predicate IsServed(ings: seq<Ingress>, o: Options, host: string, secret: NamespacedName)
    requires PlainIngresses(ings)
  {
    exists x :: ServedBy(o, BuildPlan(ings, o), host, secret, x)
  }

  lemma PartiesTold(ings: seq<Ingress>, o: Options, host: string, secret: string, rival: string)
    requires PlainName(host) && PlainName(secret) && PlainName(rival) && secret != rival
    requires ings == Parties(host, secret, rival) && PlainIngresses(ings)
    ensures OnlyFirstTwoTold(ings, o, host)
  {
    PartiesSaid(host, secret, rival);
    forall s ensures Flagged(BuildPlan(ings, o).issues, s, host) <==> s == SourceOf(ings[0]) || s == SourceOf(ings[1]) {
      PlanFlagsExactly(ings, o, s, host);
      PartiesBlamed(host, secret, rival, s);
    }
  }

  lemma PartiesServed(ings: seq<Ingress>, o: Options, host: string, secret: NamespacedName)
    requires PlainIngresses(ings) && OwnersOf(CollectedOf(ings)) == map[host := secret]
    requires FingerprintsIdentify(o) && NonNegative(o.current)
    ensures IsServed(ings, o, host, secret)
  {
    CollectedPlain(ings, o);
    SoleHost(DemandOf(ings, o), host, o.overflow);
    OwnerServed(ings, o, host);
  }

  /** The third Ingress of a conflict names the Secret the host has, is served, and carries no Error, although
      an Ingress before it conflicts with it. */
  lemma LatePartyUnflagged(ings: seq<Ingress>, o: Options, host: string, secret: string, rival: string)
    requires PlainName(host) && PlainName(secret) && PlainName(rival) && secret != rival
    requires ings == Parties(host, secret, rival) && FingerprintsIdentify(o) && NonNegative(o.current)
    ensures PlainIngresses(ings) && OnlyFirstTwoTold(ings, o, host) && IsServed(ings, o, host, NamespacedName("n", secret))
  {
    PartiesOwner(host, secret, rival);
    PartiesTold(ings, o, host, secret, rival);
    PartiesServed(ings, o, host, NamespacedName("n", secret));
  }
}
