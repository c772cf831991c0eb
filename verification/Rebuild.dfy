// Exactly when rebuilding a plan from its own placements gives the same plan.
module Rebuild {
  import opened Text
  import opened Sorting
  import opened Model
  import opened Collect
  import opened Election
  import opened Projecting
  import opened Placing
  import opened PlacingLaws
  import opened Planner
  import opened PlannerLaws
  import opened ElectionLaws
  import opened Replan

  // ---------- A wildcard without a listener ----------

  lemma UnplacedWasNot(d: Demand, overflow: bool, target: string)
    requires Plain(d) && OpenGroup(d, target) && WithinCapacity(d.current, overflow)
    requires target !in PlacementsOf(d, overflow)
    ensures target !in d.current
  {
    WinnerProjected(d, target);
    if target in d.current {
      PlanSticky(d, overflow, target);
    }
  }

  /** Without a listener for the wildcard, electing a class moves its hosts that have one. */
  lemma MovedWithout(d: Demand, target: string, key: string)
    requires Plain(d) && OpenGroup(d, target) && target !in d.current
    ensures Moved(d, target, key) == ClassHosts(d, target, key) * d.current.Keys
  {
    forall h | h in Group(d, target)
      ensures h in Moved(d, target, key) <==> h in ClassHosts(d, target, key) * d.current.Keys
    {
      OpenMember(d, target, h);
    }
  }

  /** A class whose wildcard found no room is elected again all the same. */
  lemma UnplacedOutlasts(d: Demand, overflow: bool, target: string, other: string)
    requires Plain(d) && OpenGroup(d, target) && WithinCapacity(d.current, overflow)
    requires target !in PlacementsOf(d, overflow)
    requires other in ClassKeys(d, target) && other != Elected(d, target)
    ensures Outlasts(d, overflow, target, other)
  {
    var w := Elected(d, target);
    UnplacedWasNot(d, overflow, target);
    MovedWithout(d, target, w);
    MovedWithout(d, target, other);
    assert Beats(d, target, w, other);
    BeatsByChurn(d, target, w, other);
    if h :| h in ClassHosts(d, target, other) * d.current.Keys {
      FallbackProjected(d, target, h);
      PlanSticky(d, overflow, h);
      assert h in Settled(d, overflow, target, other);
    } else {
      assert ClassHosts(d, target, other) * d.current.Keys == {};
    }
  }

  // ---------- A wildcard with a listener ----------

  /** The same placements and the same sections for every host. */
  ghost predicate Unchanged(d: Demand, o: Options)
    requires Plain(d)
  {
    var p := PlacementsOf(d, o.overflow);
    PlacementsOf(Again(d, o.overflow), o.overflow) == p &&
    SectionsOf(Again(d, o.overflow), o, p).Keys == SectionsOf(d, o, p).Keys
  }

  /** A host of a deposed class would lose its section: it has no listener of its own. */
  lemma KeepsListener(d: Demand, o: Options, target: string, h: string)
    requires Plain(d) && OpenGroup(d, target) && Unchanged(d, o) && target in PlacementsOf(d, o.overflow)
    requires h in ClassHosts(d, target, Elected(d, target))
    ensures h in Again(d, o.overflow).owner && ListenerOf(Again(d, o.overflow), h) == target && h != target
  {
    var p := PlacementsOf(d, o.overflow);
    OpenMember(d, target, h);
    AfterPlan(d, o.overflow, target, h);
    assert ListenerOf(d, h) == target;
    assert h in SectionsOf(d, o, p).Keys;
    assert h in SectionsOf(Again(d, o.overflow), o, p).Keys;
  }

  lemma ListenerMeansElected(e: Demand, target: string, h: string)
    requires Plain(e) && h in e.owner && ListenerOf(e, h) == target && h != target
    ensures h in Group(e, target) && KeyOf(e, h) == Elected(e, target)
  {
    CollapsedNotListener(e, h);
    WildcardIsElected(e, h);
  }

  lemma PlacedIsReelected(d: Demand, o: Options, target: string)
    requires Plain(d) && OpenGroup(d, target) && Unchanged(d, o) && target in PlacementsOf(d, o.overflow)
    ensures Group(Again(d, o.overflow), target) != {}
    ensures Elected(Again(d, o.overflow), target) == Elected(d, target)
  {
    var w := Elected(d, target);
    KeyHasHosts(d, target, w);
    var h :| h in ClassHosts(d, target, w);
    KeepsListener(d, o, target, h);
    ListenerMeansElected(Again(d, o.overflow), target, h);
  }

  lemma UnchangedReelects(d: Demand, o: Options)
    requires Plain(d) && WithinCapacity(d.current, o.overflow) && Unchanged(d, o)
    ensures AllReelected(d, o.overflow)
  {
    forall t, other | t in Targets(d) && OpenGroup(d, t) && other in ClassKeys(d, t) && other != Elected(d, t)
      ensures Outlasts(d, o.overflow, t, other)
    {
      if t in PlacementsOf(d, o.overflow) {
        PlacedIsReelected(d, o, t);
        ReelectedExactly(d, o.overflow, t);
      } else {
        UnplacedOutlasts(d, o.overflow, t, other);
      }
    }
  }

  // ---------- The listeners left over ----------

  lemma SameProjected(d: Demand, overflow: bool, x: string)
    requires Plain(d) && WithinCapacity(d.current, overflow) && AllReelected(d, overflow) && x in Listeners(d)
    ensures x in Listeners(Again(d, overflow)) && Projected(Again(d, overflow), x) == Projected(d, x)
  {
    var e := Again(d, overflow);
    SameListeners(d, overflow);
    assert Served(e, x) == Served(d, x);
    if x in PlacementsOf(d, overflow) {
      SameSecret(d, overflow, x);
    } else if IsWildcard(x) {
      if x in d.current {
        PlanSticky(d, overflow, x);
      }
      ListenerShape(d, x);
      SameElection(d, overflow, x);
      SameClasses(d, e, x, Elected(d, x));
    }
  }

  lemma SameInOrder(d: Demand, overflow: bool)
    requires Plain(d) && WithinCapacity(d.current, overflow) && AllReelected(d, overflow)
    ensures InOrder(Again(d, overflow)) == InOrder(d)
  {
    var e := Again(d, overflow);
    SameListeners(d, overflow);
    forall x | x in Listeners(d) ensures Projected(e, x) == Projected(d, x) {
      SameProjected(d, overflow, x);
    }
    assert ProjectedOf(e, Listeners(e)) == ProjectedOf(d, Listeners(d));
    AscendingUnique(HostnameKey, InOrder(e), InOrder(d));
  }

  /** What is left over is the unplaced part of the listeners, in order. */
  lemma LeftOver(d: Demand, overflow: bool)
    requires Plain(d)
    ensures Ascending(HostnameKey, PlacedOf(d, overflow).rest)
    ensures Elements(PlacedOf(d, overflow).rest) == set l | l in InOrder(d) && l.hostname !in PlacementsOf(d, overflow)
  {
    var ls, r := InOrder(d), PlacedOf(d, overflow);
    PlacedAreListeners(d, overflow);
    PlacementSound(ls, d.current, overflow);
    LeftOverInOrder(ls, d.current, overflow);
    RestIsUnplaced(ls, r, overflow);
  }

  lemma RestIsUnplaced(ls: seq<ProjectedListener>, r: Progress, overflow: bool)
    requires DistinctNames(ls) && Splits(EMPTY, ls, |ls|, r, overflow)
    ensures Elements(r.rest) == set l | l in ls && l.hostname !in r.slots.placed
  {
    forall l ensures l in r.rest <==> l in ls && l.hostname !in r.slots.placed {
      if l in ls {
        var j :| 0 <= j < |ls| && ls[j] == l;
      }
    }
  }

  lemma SameLeftOver(d: Demand, overflow: bool)
    requires Plain(d) && WithinCapacity(d.current, overflow) && AllReelected(d, overflow)
    ensures PlacedOf(Again(d, overflow), overflow).rest == PlacedOf(d, overflow).rest
  {
    var e := Again(d, overflow);
    SameInOrder(d, overflow);
    SamePlacements(d, overflow);
    LeftOver(d, overflow);
    LeftOver(e, overflow);
    AscendingUnique(HostnameKey, PlacedOf(e, overflow).rest, PlacedOf(d, overflow).rest);
  }

  // ---------- The whole plan ----------

  lemma ReelectedGivesPlan(c: Collected, d: Demand, o: Options)
    requires Plain(d) && PlainDeclarers(c.declaredBy) && WithinCapacity(d.current, o.overflow) && AllReelected(d, o.overflow)
    ensures PlanFor(c, Again(d, o.overflow), o.(current := PlacementsOf(d, o.overflow))) == PlanFor(c, d, o)
  {
    var e := Again(d, o.overflow);
    var p := PlacementsOf(d, o.overflow);
    var o' := o.(current := p);
    SamePlacements(d, o.overflow);
    SameListeners(d, o.overflow);
    SameLeftOver(d, o.overflow);
    SameSections(d, e, o, o', p);
    SameEmission(o, o', p);
    PlacementsPlain(d, o);
  }

  lemma PlanGivesReelected(c: Collected, d: Demand, o: Options)
    requires Plain(d) && PlainDeclarers(c.declaredBy) && WithinCapacity(d.current, o.overflow)
    requires var q := PlanFor(c, Again(d, o.overflow), o.(current := PlacementsOf(d, o.overflow)));
             q.placements == PlanFor(c, d, o).placements && q.tlsSections.Keys == PlanFor(c, d, o).tlsSections.Keys
    ensures AllReelected(d, o.overflow)
  {
    UnchangedReelects(d, o);
  }

  /** Rebuilding a plan of given Ingresses from its own placements gives the same plan, listeners, sections,
      grants and issues, exactly when every class elected for a wildcard outlasts every other class. */
  lemma RebuildExactly(ings: seq<Ingress>, o: Options)
    requires PlainIngresses(ings) && WithinCapacity(o.current, o.overflow)
    ensures Plain(DemandOf(ings, o))
    ensures BuildPlan(ings, o.(current := BuildPlan(ings, o).placements)) == BuildPlan(ings, o) <==>
            AllReelected(DemandOf(ings, o), o.overflow)
  {
    CollectedPlain(ings, o);
    var c, d := CollectedOf(ings), DemandOf(ings, o);
    if AllReelected(d, o.overflow) {
      ReelectedGivesPlan(c, d, o);
    }
    RebuiltPlan(ings, o);
    if BuildPlan(ings, o.(current := BuildPlan(ings, o).placements)) == BuildPlan(ings, o) {
      PlanGivesReelected(c, d, o);
    }
  }

  lemma RebuiltPlan(ings: seq<Ingress>, o: Options)
    requires PlainIngresses(ings)
    ensures Plain(DemandOf(ings, o)) && PlainDeclarers(CollectedOf(ings).declaredBy)
    ensures BuildPlan(ings, o) == PlanFor(CollectedOf(ings), DemandOf(ings, o), o)
    ensures BuildPlan(ings, o.(current := BuildPlan(ings, o).placements)) ==
            PlanFor(CollectedOf(ings), Again(DemandOf(ings, o), o.overflow),
                    o.(current := PlacementsOf(DemandOf(ings, o), o.overflow)))
  {
    CollectedPlain(ings, o);
  }
}
