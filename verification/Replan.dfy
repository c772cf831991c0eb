// Replanning from a plan's own placements: exactly when the same classes are
// elected again, and that the plan is then a fixpoint.
module Replan {
  import opened Text
  import opened Sorting
  import opened Model
  import opened Collect
  import opened Election
  import opened Projecting
  import opened Placing
  import opened PlacingLaws
  import opened Planner
  import opened PlannerLaws
  import opened ElectionLaws

  /** The same demand, planned again with the first plan's placements as the current ones. */
  ghost function Again(d: Demand, overflow: bool): Demand
    requires Plain(d)
  {
    d.(current := PlacementsOf(d, overflow))
  }

  // ---------- What does not depend on the current placements ----------

  lemma SameGroup(d: Demand, e: Demand, target: string)
    requires d.owner == e.owner && d.certificates == e.certificates
    ensures Group(d, target) == Group(e, target)
  {
    forall h | h in d.owner ensures Target(d, h) == Target(e, h) {}
  }

  lemma SameClasses(d: Demand, e: Demand, target: string, key: string)
    requires d.owner == e.owner && d.certificates == e.certificates
    ensures ClassHosts(d, target, key) == ClassHosts(e, target, key)
    ensures ClassKeys(d, target) == ClassKeys(e, target)
    ensures ClassSecrets(d, target, key) == ClassSecrets(e, target, key)
  {
    SameGroup(d, e, target);
    forall h | h in d.owner ensures KeyOf(d, h) == KeyOf(e, h) {}
    assert ClassHosts(d, target, key) == ClassHosts(e, target, key);
  }

  // ---------- Who is served how after the first plan ----------

  /** Members of a class whose own listener found no room. */
  ghost function Stranded(d: Demand, overflow: bool, target: string, key: string): set<string>
    requires Plain(d)
  {
    ClassHosts(d, target, key) - PlacementsOf(d, overflow).Keys
  }

  ghost function Settled(d: Demand, overflow: bool, target: string, key: string): set<string>
    requires Plain(d)
  {
    ClassHosts(d, target, key) * PlacementsOf(d, overflow).Keys
  }

  /** Hosts of neither class without a listener of their own. */
  ghost function Bystanders(d: Demand, overflow: bool, target: string, a: string, b: string): set<string>
    requires Plain(d)
  {
    Group(d, target) - ClassHosts(d, target, a) - ClassHosts(d, target, b) - PlacementsOf(d, overflow).Keys
  }

  lemma AfterPlan(d: Demand, overflow: bool, target: string, h: string)
    requires Plain(d) && OpenGroup(d, target) && h in Group(d, target)
    ensures var p := PlacementsOf(d, overflow);
            && (KeyOf(d, h) == Elected(d, target) ==> h !in p)
            && Serving(p, h, target) == if h in p then Some(h) else if target in p then Some(target) else None
  {
    OpenMember(d, target, h);
    if KeyOf(d, h) == Elected(d, target) {
      assert ListenerOf(d, h) == target;
      CollapsedNotListener(d, h);
    }
  }

  /** Re-electing the incumbent moves the stranded hosts of the other classes, off the wildcard. */
  lemma IncumbentMoves(d: Demand, overflow: bool, target: string, other: string)
    requires Plain(d) && OpenGroup(d, target) && other != Elected(d, target)
    ensures var w := Elected(d, target);
            Moved(Again(d, overflow), target, w) ==
            if target in PlacementsOf(d, overflow)
            then Stranded(d, overflow, target, other) + Bystanders(d, overflow, target, w, other) else {}
  {
    var w := Elected(d, target);
    var e := Again(d, overflow);
    SameGroup(d, e, target);
    SameClasses(d, e, target, w);
    forall h | h in Group(d, target)
      ensures Moves(e, target, w, h) <==>
              target in e.current && h !in ClassHosts(d, target, w) && h !in e.current
    {
      AfterPlan(d, overflow, target, h);
      OpenMember(d, target, h);
    }
  }

  /** Electing another class moves the incumbent's hosts, the settled hosts of that class, and the
      stranded hosts of the rest. */
  lemma ChallengerMoves(d: Demand, overflow: bool, target: string, other: string)
    requires Plain(d) && OpenGroup(d, target) && other != Elected(d, target)
    ensures var w := Elected(d, target);
            Moved(Again(d, overflow), target, other) ==
            Settled(d, overflow, target, other) +
            (if target in PlacementsOf(d, overflow)
             then ClassHosts(d, target, w) + Bystanders(d, overflow, target, w, other) else {})
  {
    var w := Elected(d, target);
    var e := Again(d, overflow);
    SameGroup(d, e, target);
    SameClasses(d, e, target, other);
    forall h | h in Group(d, target)
      ensures Moves(e, target, other, h) <==>
              if h in ClassHosts(d, target, other) then h in e.current
              else target in e.current && h !in e.current
      ensures h in ClassHosts(d, target, w) ==> h !in e.current
    {
      ChallengerMovesHost(d, overflow, target, other, h);
    }
  }

  lemma ChallengerMovesHost(d: Demand, overflow: bool, target: string, other: string, h: string)
    requires Plain(d) && OpenGroup(d, target) && h in Group(d, target)
    ensures var e := Again(d, overflow);
            && (Moves(e, target, other, h) <==>
                if h in ClassHosts(d, target, other) then h in e.current else target in e.current && h !in e.current)
            && (h in ClassHosts(d, target, Elected(d, target)) ==> h !in e.current)
  {
    var e := Again(d, overflow);
    SameGroup(d, e, target);
    SameClasses(d, e, target, other);
    AfterPlan(d, overflow, target, h);
    OpenMember(d, target, h);
  }

  /** The incumbent survives a challenger when the hosts a change would move outnumber the stranded hosts
      it would rescue, or match them and the incumbent wins the tie. */
  ghost predicate Outlasts(d: Demand, overflow: bool, target: string, other: string)
    requires Plain(d) && Group(d, target) != {} && other in ClassKeys(d, target)
  {
    var w := Elected(d, target);
    var settled := |Settled(d, overflow, target, other)|;
    if target in PlacementsOf(d, overflow) then
      var kept := |ClassHosts(d, target, w)| + settled;
      var rescued := |Stranded(d, overflow, target, other)|;
      kept > rescued || (kept == rescued && WinsTie(d, target, w, other))
    else
      settled > 0 || WinsTie(d, target, w, other)
  }

  lemma DisjointSize<T>(a: set<T>, b: set<T>)
    requires a !! b
    ensures |a + b| == |a| + |b|
  {
  }

  lemma IncumbentChurn(d: Demand, overflow: bool, target: string, other: string)
    requires Plain(d) && OpenGroup(d, target) && other != Elected(d, target)
    ensures var w := Elected(d, target);
            |Moved(Again(d, overflow), target, w)| ==
            if target in PlacementsOf(d, overflow)
            then |Stranded(d, overflow, target, other)| + |Bystanders(d, overflow, target, w, other)| else 0
  {
    IncumbentMoves(d, overflow, target, other);
    DisjointSize(Stranded(d, overflow, target, other), Bystanders(d, overflow, target, Elected(d, target), other));
  }

  lemma ChallengerChurn(d: Demand, overflow: bool, target: string, other: string)
    requires Plain(d) && OpenGroup(d, target) && other != Elected(d, target)
    ensures var w := Elected(d, target);
            |Moved(Again(d, overflow), target, other)| ==
            |Settled(d, overflow, target, other)| +
            if target in PlacementsOf(d, overflow)
            then |ClassHosts(d, target, w)| + |Bystanders(d, overflow, target, w, other)| else 0
  {
    var mine := ClassHosts(d, target, Elected(d, target));
    var bystanders := Bystanders(d, overflow, target, Elected(d, target), other);
    ChallengerMoves(d, overflow, target, other);
    TripleSize(Settled(d, overflow, target, other), mine, bystanders);
    DisjointSize(Settled(d, overflow, target, other), {});
  }

  lemma TripleSize(a: set<string>, b: set<string>, c: set<string>)
    requires a !! b && b !! c && a !! c
    ensures |a + (b + c)| == |a| + |b| + |c|
  {
    DisjointSize(b, c);
    DisjointSize(a, b + c);
  }

  lemma SameTie(d: Demand, e: Demand, target: string, a: string, b: string)
    requires Plain(d) && d.owner == e.owner && d.certificates == e.certificates
    requires a in ClassKeys(d, target) && b in ClassKeys(d, target)
    ensures a in ClassKeys(e, target) && b in ClassKeys(e, target)
    ensures WinsTie(d, target, a, b) == WinsTie(e, target, a, b)
  {
    SameClasses(d, e, target, a);
    SameClasses(d, e, target, b);
    KeyHasHosts(d, target, a);
    KeyHasHosts(d, target, b);
  }

  lemma BeatsAgain(d: Demand, overflow: bool, target: string, other: string)
    requires Plain(d) && OpenGroup(d, target) && other in ClassKeys(d, target) && other != Elected(d, target)
    ensures Beats(Again(d, overflow), target, Elected(d, target), other) <==> Outlasts(d, overflow, target, other)
  {
    var w := Elected(d, target);
    var e := Again(d, overflow);
    SameTie(d, e, target, w, other);
    BeatsByChurn(e, target, w, other);
    IncumbentChurn(d, overflow, target, other);
    ChallengerChurn(d, overflow, target, other);
  }

  /** Replanning elects the same class again exactly when it outlasts every challenger. */
  lemma ReelectedExactly(d: Demand, overflow: bool, target: string)
    requires Plain(d) && OpenGroup(d, target)
    ensures Group(Again(d, overflow), target) != {}
    ensures Elected(Again(d, overflow), target) == Elected(d, target) <==>
            forall other | other in ClassKeys(d, target) && other != Elected(d, target) :: Outlasts(d, overflow, target, other)
  {
    var w := Elected(d, target);
    var e := Again(d, overflow);
    SameGroup(d, e, target);
    SameClasses(d, e, target, w);
    forall other | other in ClassKeys(d, target) && other != w
      ensures Beats(e, target, w, other) <==> Outlasts(d, overflow, target, other)
    {
      BeatsAgain(d, overflow, target, other);
    }
    if Best(e, target, ClassKeys(e, target), w) {
      assert Wins(e, target, w);
      WinnerUnique(e, target, w, Elected(e, target));
    }
    if Elected(e, target) == w {
      assert Best(e, target, ClassKeys(e, target), w);
    }
  }

  // ---------- The fixpoint ----------

  /** Every wildcard group elects the same class again. */
  ghost predicate AllReelected(d: Demand, overflow: bool)
    requires Plain(d)
  {
    forall t | t in Targets(d) && OpenGroup(d, t) ::
      forall other | other in ClassKeys(d, t) && other != Elected(d, t) :: Outlasts(d, overflow, t, other)
  }

  lemma SameElection(d: Demand, overflow: bool, target: string)
    requires Plain(d) && AllReelected(d, overflow) && IsWildcard(target) && Group(d, target) != {}
    ensures Group(Again(d, overflow), target) != {}
    ensures Elected(Again(d, overflow), target) == Elected(d, target)
  {
    var e := Again(d, overflow);
    SameGroup(d, e, target);
    if Pinned(d, target) {
      assert Wins(d, target, Elected(d, target));
      SameClasses(d, e, target, Elected(d, target));
      assert Wins(e, target, Elected(d, target));
      WinnerUnique(e, target, Elected(d, target), Elected(e, target));
    } else {
      var h :| h in Group(d, target);
      assert Target(d, h) in Targets(d);
      ReelectedExactly(d, overflow, target);
    }
  }

  lemma SameListeners(d: Demand, overflow: bool)
    requires Plain(d) && AllReelected(d, overflow)
    ensures forall h | h in d.owner :: ListenerOf(Again(d, overflow), h) == ListenerOf(d, h)
    ensures Listeners(Again(d, overflow)) == Listeners(d)
  {
    var e := Again(d, overflow);
    forall h | h in d.owner ensures ListenerOf(e, h) == ListenerOf(d, h) {
      var target := Target(d, h);
      assert h in Group(d, target) && Target(e, h) == target;
      if IsWildcard(target) {
        SameElection(d, overflow, target);
      }
    }
  }

  lemma SameSecret(d: Demand, overflow: bool, x: string)
    requires Plain(d) && AllReelected(d, overflow) && x in PlacementsOf(d, overflow)
    ensures x in Listeners(Again(d, overflow))
    ensures SecretFor(Again(d, overflow), x) == SecretFor(d, x)
  {
    SameListeners(d, overflow);
    if IsWildcard(x) {
      ListenerShape(d, x);
      SameElection(d, overflow, x);
      SameClasses(d, Again(d, overflow), x, Elected(d, x));
    }
  }

  lemma SameParents(d: Demand, overflow: bool, x: string)
    requires Plain(d) && AllReelected(d, overflow)
    ensures var p, q := PlacementsOf(d, overflow), PlacementsOf(Again(d, overflow), overflow);
            && (x in p <==> x in q)
            && (x in p ==> p[x].listenerSet == q[x].listenerSet)
  {
    var e := Again(d, overflow);
    var p, q := PlacementsOf(d, overflow), PlacementsOf(e, overflow);
    PlacementsSound(d, overflow);
    PlacementsSound(e, overflow);
    SameListeners(d, overflow);
    forall y | y in p ensures y in q && q[y].listenerSet == p[y].listenerSet {
      PlanSticky(e, overflow, y);
    }
    if PlacedOf(d, overflow).rest == [] {
      assert Names(PlacedOf(d, overflow).rest) == {};
    } else {
      FullGatewayUnchanged(p, q);
    }
  }

  /** A full Gateway that keeps everyone takes nobody. */
  lemma FullGatewayUnchanged(p: map<string, Placement>, q: map<string, Placement>)
    requires WithinCapacity(p, false) && WithinCapacity(q, false)
    requires |Held(p, 0)| == GATEWAY_HTTPS_CAPACITY
    requires forall y | y in p :: y in q && q[y].listenerSet == p[y].listenerSet
    ensures q.Keys == p.Keys
  {
    assert |Held(q, 0)| <= Capacity(0);
    assert Held(p, 0) <= Held(q, 0);
    SubsetOfSameSize(Held(p, 0), Held(q, 0));
    assert Held(p, 0) == p.Keys && Held(q, 0) == q.Keys;
  }

  lemma SamePlacements(d: Demand, overflow: bool)
    requires Plain(d) && AllReelected(d, overflow)
    ensures PlacementsOf(Again(d, overflow), overflow) == PlacementsOf(d, overflow)
  {
    var p := PlacementsOf(d, overflow);
    var q := PlacementsOf(Again(d, overflow), overflow);
    forall x
      ensures x in p <==> x in q
      ensures x in p ==> p[x] == q[x]
    {
      SameParents(d, overflow, x);
      if x in p {
        SameSecret(d, overflow, x);
      }
    }
  }

  lemma SameSections(d: Demand, e: Demand, o: Options, o': Options, p: map<string, Placement>)
    requires Plain(d) && Plain(e) && d.owner == e.owner && o' == o.(current := o'.current)
    requires forall h | h in d.owner :: ListenerOf(e, h) == ListenerOf(d, h)
    ensures SectionsOf(e, o', p) == SectionsOf(d, o, p)
  {
  }

  /** When every group re-elects its class, replanning changes no placement and no section, and reports
      no host as changed. */
  lemma ReplanFixpoint(d: Demand, o: Options)
    requires Plain(d) && AllReelected(d, o.overflow)
    ensures var p := PlacementsOf(d, o.overflow);
            var e := Again(d, o.overflow);
            && PlacementsOf(e, o.overflow) == p
            && SectionsOf(e, o, p) == SectionsOf(d, o, p)
            && forall h | h in SectionsOf(e, o, p) :: ListenerRefFor(o, h, p) == Some(SectionsOf(e, o, p)[h])
  {
    var p := PlacementsOf(d, o.overflow);
    var e := Again(d, o.overflow);
    SamePlacements(d, o.overflow);
    SameListeners(d, o.overflow);
    SameSections(d, e, o, o, p);
    forall h | h in SectionsOf(d, o, p) ensures ListenerRefFor(o, h, p) == Some(SectionsOf(d, o, p)[h]) {
      LookupsAgree(d, o, h);
    }
  }

  /** With nothing left unplaced, every incumbent outlasts every challenger. */
  lemma NothingStranded(d: Demand, overflow: bool)
    requires Plain(d) && PlacedOf(d, overflow).rest == []
    ensures AllReelected(d, overflow)
  {
    PlacementsSound(d, overflow);
    assert Names(PlacedOf(d, overflow).rest) == {};
    forall t, other | t in Targets(d) && OpenGroup(d, t) && other in ClassKeys(d, t) && other != Elected(d, t)
      ensures Outlasts(d, overflow, t, other)
    {
      WinnerProjected(d, t);
      KeyHasHosts(d, t, Elected(d, t));
      forall h | h in ClassHosts(d, t, other) ensures h in PlacementsOf(d, overflow) {
        FallbackProjected(d, t, h);
      }
      assert Stranded(d, overflow, t, other) == {};
    }
  }

  /** When every declared TLS host got a listener, rebuilding a plan from its own placements gives the
      same plan again. */
  lemma RebuildIsFixpoint(ings: seq<Ingress>, o: Options)
    requires PlainIngresses(ings)
    requires BuildPlan(ings, o).tlsSections.Keys == BuildPlan(ings, o).tlsHosts
    ensures BuildPlan(ings, o.(current := BuildPlan(ings, o).placements)) == BuildPlan(ings, o)
  {
    CollectedPlain(ings, o);
    RebuildFor(CollectedOf(ings), DemandOf(ings, o), o);
  }

  lemma SamePlanReportsNone(ings: seq<Ingress>, o: Options, o': Options, host: string, p: GatewayPlan, q: GatewayPlan)
    requires PlainIngresses(ings) && o' == o.(current := o'.current)
    requires p == BuildPlan(ings, o) && q == BuildPlan(ings, o') && p == q
    ensures host !in ChangedOf(p.placements, q, o')
  {
    if host in q.tlsSections {
      ChangedExactly(ings, ings, o, o', host);
    }
  }

  /** And then no host is reported as changed. */
  lemma RebuildChangesNothing(ings: seq<Ingress>, o: Options, o': Options, host: string)
    requires PlainIngresses(ings) && o' == o.(current := BuildPlan(ings, o).placements)
    requires BuildPlan(ings, o).tlsSections.Keys == BuildPlan(ings, o).tlsHosts
    ensures host !in ChangedOf(BuildPlan(ings, o).placements, BuildPlan(ings, o'), o')
  {
    RebuildIsFixpoint(ings, o);
    SamePlanReportsNone(ings, o, o', host, BuildPlan(ings, o), BuildPlan(ings, o'));
  }

  lemma RebuildFor(c: Collected, d: Demand, o: Options)
    requires Plain(d) && PlainDeclarers(c.declaredBy) && d == Demand(OwnersOf(c), o.certificates, o.current)
    requires PlanFor(c, d, o).tlsSections.Keys == c.owners.Keys
    ensures var o' := o.(current := PlanFor(c, d, o).placements);
            PlanFor(c, Demand(OwnersOf(c), o'.certificates, o'.current), o') == PlanFor(c, d, o)
  {
    AllSectioned(d, o);
    NothingStranded(d, o.overflow);
    SamePlan(c, d, o);
  }

  lemma SamePlan(c: Collected, d: Demand, o: Options)
    requires Plain(d) && PlainDeclarers(c.declaredBy) && AllReelected(d, o.overflow)
    requires PlacedOf(d, o.overflow).rest == []
    ensures PlanFor(c, Again(d, o.overflow), o.(current := PlacementsOf(d, o.overflow))) == PlanFor(c, d, o)
  {
    var e := Again(d, o.overflow);
    var p := PlacementsOf(d, o.overflow);
    var o' := o.(current := p);
    SamePlacements(d, o.overflow);
    SameListeners(d, o.overflow);
    NothingLeft(d, e, o.overflow);
    SameSections(d, e, o, o', p);
    SameEmission(o, o', p);
    PlacementsPlain(d, o);
  }

  lemma AllSectioned(d: Demand, o: Options)
    requires Plain(d) && SectionsOf(d, o, PlacementsOf(d, o.overflow)).Keys == d.owner.Keys
    ensures PlacedOf(d, o.overflow).rest == []
  {
    if PlacedOf(d, o.overflow).rest != [] {
      UnplacedLeavesHost(d, o);
    }
  }

  lemma UnplacedLeavesHost(d: Demand, o: Options)
    requires Plain(d) && PlacedOf(d, o.overflow).rest != []
    ensures exists h :: h in d.owner && h !in SectionsOf(d, o, PlacementsOf(d, o.overflow))
  {
    var rest := PlacedOf(d, o.overflow).rest;
    PlacementsSound(d, o.overflow);
    NamesNonEmpty(rest);
    ListenerShape(d, rest[0].hostname);
    var h :| h in Served(d, rest[0].hostname);
    assert h in d.owner && h !in SectionsOf(d, o, PlacementsOf(d, o.overflow));
  }

  lemma NamesNonEmpty(ls: seq<ProjectedListener>)
    requires ls != []
    ensures ls[0].hostname in Names(ls)
  {
    assert ls[0] in ls;
  }

  lemma NothingLeft(d: Demand, e: Demand, overflow: bool)
    requires Plain(d) && Plain(e) && PlacedOf(d, overflow).rest == []
    requires Listeners(d) == Listeners(e) && PlacementsOf(d, overflow) == PlacementsOf(e, overflow)
    ensures PlacedOf(e, overflow).rest == []
  {
    PlacementsSound(d, overflow);
    PlacementsSound(e, overflow);
    assert Names(PlacedOf(d, overflow).rest) == {};
    if PlacedOf(e, overflow).rest != [] {
      NamesNonEmpty(PlacedOf(e, overflow).rest);
    }
  }

  /** The emitted objects do not depend on the previous placements. */
  lemma SameEmission(o: Options, o': Options, p: map<string, Placement>)
    requires o' == o.(current := o'.current, certificates := o'.certificates)
    ensures GatewayOf(o', p) == GatewayOf(o, p) && SetsOf(o', p) == SetsOf(o, p)
    ensures forall secrets :: GrantsFor(o', secrets) == GrantsFor(o, secrets)
    ensures ForeignSecrets(o', p) == ForeignSecrets(o, p)
  {
    forall i ensures EmittedAt(o', p, i) == EmittedAt(o, p, i) {
      var hostnames := SortedStrings(p.Keys);
      SameEmitted(o, o', p, hostnames, |hostnames|, i);
    }
    SameSets(o, o', p, MaxIndex(p));
  }

  lemma {:induction false} SameEmitted(o: Options, o': Options, p: map<string, Placement>, hostnames: seq<string>, n: nat, i: int)
    requires o' == o.(current := o'.current, certificates := o'.certificates)
    requires n <= |hostnames| && forall x | x in hostnames :: x in p
    ensures EmittedUpTo(o', p, hostnames, n, i) == EmittedUpTo(o, p, hostnames, n, i)
  {
    if n > 0 {
      SameEmitted(o, o', p, hostnames, n - 1, i);
    }
  }

  lemma {:induction false} SameSets(o: Options, o': Options, p: map<string, Placement>, n: nat)
    requires o' == o.(current := o'.current, certificates := o'.certificates)
    requires forall i :: EmittedAt(o', p, i) == EmittedAt(o, p, i)
    ensures SetsUpTo(o', p, n) == SetsUpTo(o, p, n)
  {
    if n > 0 {
      SameSets(o, o', p, n - 1);
    }
  }

  // ---------- A wildcard that already stands ----------

  /** Hosts of neither class that had no listener of their own before. */
  ghost function Newcomers(d: Demand, target: string, a: string, b: string): set<string> {
    Group(d, target) - ClassHosts(d, target, a) - ClassHosts(d, target, b) - d.current.Keys
  }

  lemma NewcomersSymmetric(d: Demand, target: string, a: string, b: string)
    ensures Newcomers(d, target, a, b) == Newcomers(d, target, b, a)
  {
  }

  lemma StandingMoves(d: Demand, target: string, key: string, other: string)
    requires Plain(d) && OpenGroup(d, target) && target in d.current && key != other
    ensures Moved(d, target, key) ==
            ClassHosts(d, target, key) * d.current.Keys + (ClassHosts(d, target, other) - d.current.Keys) +
            Newcomers(d, target, key, other)
  {
    forall h | h in Group(d, target)
      ensures Moves(d, target, key, h) <==> (h in ClassHosts(d, target, key) <==> h in d.current)
    {
      OpenMember(d, target, h);
    }
  }

  lemma StandingChurn(d: Demand, target: string, key: string, other: string)
    requires Plain(d) && OpenGroup(d, target) && target in d.current && key != other
    ensures |Moved(d, target, key)| ==
            |ClassHosts(d, target, key) * d.current.Keys| + |ClassHosts(d, target, other) - d.current.Keys| +
            |Newcomers(d, target, key, other)|
  {
    StandingMoves(d, target, key, other);
    var mine := ClassHosts(d, target, key) * d.current.Keys;
    var theirs := ClassHosts(d, target, other) - d.current.Keys;
    DisjointSize(mine, theirs);
    DisjointSize(mine + theirs, Newcomers(d, target, key, other));
  }

  lemma SizeSplits(a: set<string>, b: set<string>)
    ensures |a| == |a * b| + |a - b|
  {
    assert a == a * b + (a - b);
  }

  /** What winning means for two classes when the wildcard has a listener. */
  lemma StandingScore(d: Demand, target: string, other: string)
    requires Plain(d) && OpenGroup(d, target) && target in d.current
    requires other in ClassKeys(d, target) && other != Elected(d, target)
    ensures var w, c := Elected(d, target), d.current.Keys;
            var mine, theirs := ClassHosts(d, target, w), ClassHosts(d, target, other);
            var a, b := |mine * c| + |theirs - c|, |theirs * c| + |mine - c|;
            a < b || (a == b && WinsTie(d, target, w, other))
  {
    var w := Elected(d, target);
    assert Beats(d, target, w, other);
    BeatsByChurn(d, target, w, other);
    StandingChurn(d, target, w, other);
    StandingChurn(d, target, other, w);
    NewcomersSymmetric(d, target, w, other);
  }

  lemma StandingKeeps(d: Demand, overflow: bool, target: string, other: string)
    requires Plain(d) && OpenGroup(d, target) && WithinCapacity(d.current, overflow) && target in d.current
    requires other != Elected(d, target)
    ensures target in PlacementsOf(d, overflow)
    ensures |Stranded(d, overflow, target, other)| <= |ClassHosts(d, target, other) - d.current.Keys|
  {
    var theirs := ClassHosts(d, target, other);
    WinnerProjected(d, target);
    PlanSticky(d, overflow, target);
    forall h | h in theirs && h in d.current ensures h in PlacementsOf(d, overflow) {
      FallbackProjected(d, target, h);
      PlanSticky(d, overflow, h);
    }
    SubsetSize(Stranded(d, overflow, target, other), theirs - d.current.Keys);
  }

  /** A class that wins while its wildcard already has a listener wins again, however many hosts of the
      other classes are left without one. */
  lemma StandingIncumbentOutlasts(d: Demand, overflow: bool, target: string, other: string)
    requires Plain(d) && OpenGroup(d, target) && WithinCapacity(d.current, overflow) && target in d.current
    requires other in ClassKeys(d, target) && other != Elected(d, target)
    ensures Outlasts(d, overflow, target, other)
  {
    StandingScore(d, target, other);
    StandingKeeps(d, overflow, target, other);
    SizeSplits(ClassHosts(d, target, Elected(d, target)), d.current.Keys);
    SizeSplits(ClassHosts(d, target, other), d.current.Keys);
    SizeSplits(ClassHosts(d, target, other), PlacementsOf(d, overflow).Keys);
  }
}
