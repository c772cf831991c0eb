// What the three-pass placement guarantees: nothing lost, capacities respected,
// stickiness exactly as far as there is room, and first fit for the rest.
module PlacingLaws {
  import opened Text
  import opened Sorting
  import opened Model
  import opened Election
  import opened Placing

  /** The hostnames placed on one parent. */
  ghost function At(placed: map<string, int>, index: int): set<string> {
    set h | h in placed && placed[h] == index
  }

  /** The running counts are the true occupancies, within capacity, on usable parents only. */
  ghost predicate Consistent(s: Slots, overflow: bool) {
    && (forall i :: CountAt(s.counts, i) == |At(s.placed, i)| <= Capacity(i))
    && (forall h | h in s.placed :: Usable(s.placed[h], overflow))
  }

  ghost predicate DistinctNames(ls: seq<ProjectedListener>) {
    forall i, j | 0 <= i < j < |ls| :: ls[i].hostname != ls[j].hostname
  }

  ghost predicate Fresh(s: Slots, ls: seq<ProjectedListener>) {
    forall l | l in ls :: l.hostname !in s.placed
  }

  ghost predicate Extends(s: Slots, t: Slots) {
    forall h | h in s.placed :: h in t.placed && t.placed[h] == s.placed[h]
  }

  /** p arises from s by placing some of the first n listeners and passing on the others. */
  ghost predicate Splits(s: Slots, ls: seq<ProjectedListener>, n: nat, p: Progress, overflow: bool)
    requires n <= |ls|
  {
    && Consistent(p.slots, overflow)
    && Extends(s, p.slots)
    && (forall j | 0 <= j < n :: ls[j].hostname in p.slots.placed <==> ls[j] !in p.rest)
    && (forall h | h in p.slots.placed :: h in s.placed || exists j :: 0 <= j < n && ls[j].hostname == h)
    && (forall l | l in p.rest :: exists j :: 0 <= j < n && ls[j] == l)
    && DistinctNames(p.rest)
    && Fresh(p.slots, p.rest)
  }

  lemma AtPut(placed: map<string, int>, hostname: string, index: int, i: int)
    requires hostname !in placed
    ensures At(placed[hostname := index], i) == if i == index then At(placed, i) + {hostname} else At(placed, i)
  {
  }

  lemma PutConsistent(s: Slots, hostname: string, index: int, overflow: bool)
    requires Consistent(s, overflow) && hostname !in s.placed && HasRoom(s, index, overflow)
    ensures Consistent(Put(s, hostname, index), overflow)
  {
    var t := Put(s, hostname, index);
    forall i ensures CountAt(t.counts, i) == |At(t.placed, i)| <= Capacity(i) {
      AtPut(s.placed, hostname, index, i);
      assert CountAt(s.counts, i) == |At(s.placed, i)|;
    }
  }

  lemma SplitsNothing(s: Slots, ls: seq<ProjectedListener>, overflow: bool)
    requires Consistent(s, overflow)
    ensures Splits(s, ls, 0, Progress(s, []), overflow)
  {
  }

  lemma NotAmongEarlier(s: Slots, ls: seq<ProjectedListener>, n: nat, p: Progress, overflow: bool)
    requires 0 < n <= |ls| && DistinctNames(ls) && Fresh(s, ls) && Splits(s, ls, n - 1, p, overflow)
    ensures ls[n - 1].hostname !in p.slots.placed
    ensures forall l | l in p.rest :: l.hostname != ls[n - 1].hostname
  {
    assert ls[n - 1] in ls;
  }

  lemma SplitsPlace(s: Slots, ls: seq<ProjectedListener>, n: nat, p: Progress, index: int, overflow: bool)
    requires 0 < n <= |ls| && DistinctNames(ls) && Fresh(s, ls) && Splits(s, ls, n - 1, p, overflow)
    requires HasRoom(p.slots, index, overflow)
    ensures Splits(s, ls, n, p.(slots := Put(p.slots, ls[n - 1].hostname, index)), overflow)
  {
    NotAmongEarlier(s, ls, n, p, overflow);
    PutConsistent(p.slots, ls[n - 1].hostname, index, overflow);
    forall h | h in Put(p.slots, ls[n - 1].hostname, index).placed
      ensures h in s.placed || exists j :: 0 <= j < n && ls[j].hostname == h
    {
      if h == ls[n - 1].hostname {
        assert 0 <= n - 1 < n;
      }
    }
  }

  lemma SplitsSkip(s: Slots, ls: seq<ProjectedListener>, n: nat, p: Progress, overflow: bool)
    requires 0 < n <= |ls| && DistinctNames(ls) && Fresh(s, ls) && Splits(s, ls, n - 1, p, overflow)
    ensures Splits(s, ls, n, p.(rest := p.rest + [ls[n - 1]]), overflow)
  {
    NotAmongEarlier(s, ls, n, p, overflow);
    var rest := p.rest + [ls[n - 1]];
    forall l | l in rest ensures exists j :: 0 <= j < n && ls[j] == l {
      if l !in p.rest {
        assert ls[n - 1] == l;
      }
    }
    forall i, j | 0 <= i < j < |rest| ensures rest[i].hostname != rest[j].hostname {
      if j == |p.rest| {
        assert rest[i] in p.rest;
      }
    }
  }

  lemma {:induction false} PreferSplits(pass: Pass, s: Slots, ls: seq<ProjectedListener>, n: nat,
                                        current: map<string, Placement>, overflow: bool)
    requires n <= |ls| && DistinctNames(ls) && Fresh(s, ls) && Consistent(s, overflow)
    ensures Splits(s, ls, n, Prefer(pass, s, ls, n, current, overflow), overflow)
  {
    if n == 0 {
      SplitsNothing(s, ls, overflow);
    } else {
      PreferSplits(pass, s, ls, n - 1, current, overflow);
      PreferStep(pass, s, ls, n, current, overflow);
    }
  }

  lemma PreferStep(pass: Pass, s: Slots, ls: seq<ProjectedListener>, n: nat, current: map<string, Placement>, overflow: bool)
    requires 0 < n <= |ls| && DistinctNames(ls) && Fresh(s, ls)
    requires Splits(s, ls, n - 1, Prefer(pass, s, ls, n - 1, current, overflow), overflow)
    ensures Splits(s, ls, n, Prefer(pass, s, ls, n, current, overflow), overflow)
  {
    var p := Prefer(pass, s, ls, n - 1, current, overflow);
    var wanted := Preferred(pass, ls[n - 1], current);
    if wanted.Some? && HasRoom(p.slots, wanted.value, overflow) {
      SplitsPlace(s, ls, n, p, wanted.value, overflow);
    } else {
      SplitsSkip(s, ls, n, p, overflow);
    }
  }

  lemma {:induction false} FitSplits(s: Slots, ls: seq<ProjectedListener>, n: nat, overflow: bool)
    requires n <= |ls| && DistinctNames(ls) && Fresh(s, ls) && Consistent(s, overflow)
    ensures Splits(s, ls, n, Fit(s, ls, n, overflow), overflow)
  {
    if n == 0 {
      SplitsNothing(s, ls, overflow);
    } else {
      FitSplits(s, ls, n - 1, overflow);
      var p := Fit(s, ls, n - 1, overflow);
      if HasRoom(p.slots, 0, overflow) {
        SplitsPlace(s, ls, n, p, 0, overflow);
      } else if !overflow {
        SplitsSkip(s, ls, n, p, overflow);
      } else {
        SplitsPlace(s, ls, n, p, FirstFree(p.slots.counts, 1), overflow);
      }
    }
  }

  /** Listeners are left over only without overflow, and only once the Gateway is full. */
  lemma {:induction false} LeftOverMeansFull(s: Slots, ls: seq<ProjectedListener>, n: nat, overflow: bool)
    requires n <= |ls|
    ensures Fit(s, ls, n, overflow).rest != [] ==>
              !overflow && CountAt(Fit(s, ls, n, overflow).slots.counts, 0) >= Capacity(0)
  {
    if n > 0 {
      LeftOverMeansFull(s, ls, n - 1, overflow);
    }
  }

  // ---------- The three passes together ----------

  lemma EmptyConsistent(overflow: bool)
    ensures Consistent(EMPTY, overflow)
  {
    forall i ensures CountAt(EMPTY.counts, i) == |At(EMPTY.placed, i)| <= Capacity(i) {
      assert At(EMPTY.placed, i) == {};
    }
  }

  /** The state between the passes. */
  lemma PassesSplit(ls: seq<ProjectedListener>, current: map<string, Placement>, overflow: bool)
    requires DistinctNames(ls)
    ensures var own := AfterOwn(ls, current, overflow);
            var inherited := AfterInherited(ls, current, overflow);
            var all := PlaceAll(ls, current, overflow);
            && Splits(EMPTY, ls, |ls|, own, overflow)
            && Splits(own.slots, own.rest, |own.rest|, inherited, overflow)
            && Splits(inherited.slots, inherited.rest, |inherited.rest|, all, overflow)
  {
    EmptyConsistent(overflow);
    PreferSplits(Own, EMPTY, ls, |ls|, current, overflow);
    var own := AfterOwn(ls, current, overflow);
    PreferSplits(Inherited, own.slots, own.rest, |own.rest|, current, overflow);
    var inherited := AfterInherited(ls, current, overflow);
    FitSplits(inherited.slots, inherited.rest, |inherited.rest|, overflow);
  }

  lemma SplitsCompose(s: Slots, ls: seq<ProjectedListener>, p: Progress, q: Progress, overflow: bool)
    requires DistinctNames(ls)
    requires Splits(s, ls, |ls|, p, overflow) && Splits(p.slots, p.rest, |p.rest|, q, overflow)
    ensures Splits(s, ls, |ls|, q, overflow)
  {
    forall j | 0 <= j < |ls| ensures ls[j].hostname in q.slots.placed <==> ls[j] !in q.rest {
      if ls[j] in p.rest {
        var i :| 0 <= i < |p.rest| && p.rest[i] == ls[j];
      } else {
        assert ls[j].hostname in p.slots.placed;
        assert forall l | l in q.rest :: exists i :: 0 <= i < |p.rest| && p.rest[i] == l;
      }
    }
    forall h | h in q.slots.placed ensures h in s.placed || exists j :: 0 <= j < |ls| && ls[j].hostname == h {
      if h !in p.slots.placed {
        var i :| 0 <= i < |p.rest| && p.rest[i].hostname == h;
        assert p.rest[i] in p.rest;
      }
    }
    forall l | l in q.rest ensures exists j :: 0 <= j < |ls| && ls[j] == l {
      var i :| 0 <= i < |p.rest| && p.rest[i] == l;
      assert p.rest[i] in p.rest;
    }
  }

  /** No listener is lost or duplicated, every parent is within capacity and usable, and
      listeners stay unplaced only without overflow and with a full Gateway. */
  lemma PlacementSound(ls: seq<ProjectedListener>, current: map<string, Placement>, overflow: bool)
    requires DistinctNames(ls)
    ensures var r := PlaceAll(ls, current, overflow);
            && Splits(EMPTY, ls, |ls|, r, overflow)
            && (r.rest != [] ==> !overflow && |At(r.slots.placed, 0)| == Capacity(0))
  {
    PassesSplit(ls, current, overflow);
    var own := AfterOwn(ls, current, overflow);
    var inherited := AfterInherited(ls, current, overflow);
    var all := PlaceAll(ls, current, overflow);
    SplitsCompose(EMPTY, ls, own, inherited, overflow);
    SplitsCompose(EMPTY, ls, inherited, all, overflow);
    LeftOverMeansFull(inherited.slots, inherited.rest, |inherited.rest|, overflow);
    assert CountAt(all.slots.counts, 0) == |At(all.slots.placed, 0)|;
  }

  ghost function Names(ls: seq<ProjectedListener>): set<string> {
    set l | l in ls :: l.hostname
  }

  lemma {:induction false} NamesCount(ls: seq<ProjectedListener>)
    requires DistinctNames(ls)
    ensures |Names(ls)| == |ls|
  {
    if ls != [] {
      NamesCount(ls[1..]);
      assert Names(ls) == Names(ls[1..]) + {ls[0].hostname};
    }
  }

  /** Without overflow exactly min(n, 63) of n listeners are placed, all on the Gateway. */
  lemma NoOverflowExact(ls: seq<ProjectedListener>, current: map<string, Placement>)
    requires DistinctNames(ls)
    ensures var r := PlaceAll(ls, current, false);
            && |r.slots.placed| == (if |ls| <= 63 then |ls| else 63)
            && |r.slots.placed| + |r.rest| == |ls|
            && forall h | h in r.slots.placed :: r.slots.placed[h] == 0
  {
    PlacementSound(ls, current, false);
    var r := PlaceAll(ls, current, false);
    assert At(r.slots.placed, 0) == r.slots.placed.Keys;
    assert CountAt(r.slots.counts, 0) == |At(r.slots.placed, 0)|;
    NamesPartition(ls, r);
    NamesCount(ls);
    NamesCount(r.rest);
  }

  lemma NamesPartition(ls: seq<ProjectedListener>, r: Progress)
    requires DistinctNames(ls) && Splits(EMPTY, ls, |ls|, r, false)
    ensures Names(ls) == r.slots.placed.Keys + Names(r.rest)
    ensures r.slots.placed.Keys !! Names(r.rest)
  {
    forall l | l in ls ensures l.hostname in r.slots.placed || l in r.rest {
      var j :| 0 <= j < |ls| && ls[j] == l;
    }
    forall h | h in r.slots.placed ensures h in Names(ls) {
      var j :| 0 <= j < |ls| && ls[j].hostname == h;
      assert ls[j] in ls;
    }
  }

  // ---------- Stickiness ----------

  /** How many of the first n listeners were on the given parent before. */
  function Claimants(ls: seq<ProjectedListener>, n: nat, current: map<string, Placement>, index: int): nat
    requires n <= |ls|
  {
    if n == 0 then 0
    else
      Claimants(ls, n - 1, current, index) +
      if ls[n - 1].hostname in current && current[ls[n - 1].hostname].listenerSet == index then 1 else 0
  }

  lemma {:induction false} OwnCounts(ls: seq<ProjectedListener>, n: nat, current: map<string, Placement>,
                                     overflow: bool, index: int)
    requires n <= |ls|
    ensures CountAt(Prefer(Own, EMPTY, ls, n, current, overflow).slots.counts, index) ==
            if Usable(index, overflow) then Min(Claimants(ls, n, current, index), Capacity(index)) else 0
  {
    if n > 0 {
      OwnCounts(ls, n - 1, current, overflow, index);
    }
  }

  lemma {:induction false} OwnPlaces(ls: seq<ProjectedListener>, n: nat, j: nat, current: map<string, Placement>,
                                     overflow: bool)
    requires j < n <= |ls| && DistinctNames(ls) && ls[j].hostname in current
    ensures var placed := Prefer(Own, EMPTY, ls, n, current, overflow).slots.placed;
            var index := current[ls[j].hostname].listenerSet;
            && (ls[j].hostname in placed <==>
                Usable(index, overflow) && Claimants(ls, j, current, index) < Capacity(index))
            && (ls[j].hostname in placed ==> placed[ls[j].hostname] == index)
  {
    if j < n - 1 {
      OwnPlaces(ls, n - 1, j, current, overflow);
    } else {
      OwnPlacesLast(ls, j, current, overflow);
    }
  }

  lemma OwnPlacesLast(ls: seq<ProjectedListener>, j: nat, current: map<string, Placement>, overflow: bool)
    requires j < |ls| && DistinctNames(ls) && ls[j].hostname in current
    ensures var placed := Prefer(Own, EMPTY, ls, j + 1, current, overflow).slots.placed;
            var index := current[ls[j].hostname].listenerSet;
            && (ls[j].hostname in placed <==>
                Usable(index, overflow) && Claimants(ls, j, current, index) < Capacity(index))
            && (ls[j].hostname in placed ==> placed[ls[j].hostname] == index)
  {
    OwnCounts(ls, j, current, overflow, current[ls[j].hostname].listenerSet);
    EmptyConsistent(overflow);
    PreferSplits(Own, EMPTY, ls, j, current, overflow);
    NotAmongEarlier(EMPTY, ls, j + 1, Prefer(Own, EMPTY, ls, j, current, overflow), overflow);
  }

  lemma {:induction false} ClaimantsGrow(ls: seq<ProjectedListener>, j: nat, n: nat, current: map<string, Placement>, index: int)
    requires j <= n <= |ls|
    ensures Claimants(ls, j, current, index) <= Claimants(ls, n, current, index)
  {
    if j < n {
      ClaimantsGrow(ls, j, n - 1, current, index);
    }
  }

  /** A parent that is full, or unusable, takes nobody new. */
  lemma ClosedStays(s: Slots, t: Slots, index: int, overflow: bool)
    requires Consistent(s, overflow) && Consistent(t, overflow) && Extends(s, t)
    requires CountAt(s.counts, index) >= Capacity(index) || !Usable(index, overflow)
    ensures At(t.placed, index) == At(s.placed, index)
  {
    assert CountAt(s.counts, index) == |At(s.placed, index)|;
    assert CountAt(t.counts, index) == |At(t.placed, index)|;
    if Usable(index, overflow) {
      assert At(s.placed, index) <= At(t.placed, index);
      SubsetOfSameSize(At(s.placed, index), At(t.placed, index));
    } else {
      assert At(t.placed, index) == {};
    }
  }

  lemma SubsetOfSameSize(a: set<string>, b: set<string>)
    requires a <= b && |a| >= |b|
    ensures a == b
  {
    assert b == a + (b - a);
    assert |b - a| == 0;
    assert b - a == {};
  }

  /** A listener keeps its parent exactly when that parent is usable and fewer than its capacity
      of the listeners before it, in hostname order, come from there too. */
  lemma StickyExactly(ls: seq<ProjectedListener>, j: nat, current: map<string, Placement>, overflow: bool)
    requires j < |ls| && DistinctNames(ls) && ls[j].hostname in current
    ensures var placed := PlaceAll(ls, current, overflow).slots.placed;
            var index := current[ls[j].hostname].listenerSet;
            ls[j].hostname in placed && placed[ls[j].hostname] == index <==>
            Usable(index, overflow) && Claimants(ls, j, current, index) < Capacity(index)
  {
    var host := ls[j].hostname;
    var index := current[host].listenerSet;
    PassesSplit(ls, current, overflow);
    var own := AfterOwn(ls, current, overflow);
    var inherited := AfterInherited(ls, current, overflow);
    var all := PlaceAll(ls, current, overflow);
    OwnPlaces(ls, |ls|, j, current, overflow);
    if host !in own.slots.placed {
      OwnCounts(ls, |ls|, current, overflow, index);
      ClaimantsGrow(ls, j, |ls|, current, index);
      ClosedStays(own.slots, all.slots, index, overflow);
      assert host in At(all.slots.placed, index) <==> host in At(own.slots.placed, index);
    }
  }

  /** The hostnames a placement keeps on one parent. */
  ghost function Held(current: map<string, Placement>, index: int): set<string> {
    set h | h in current && current[h].listenerSet == index
  }

  /** A placement the API would accept: on usable parents, none of them over capacity. */
  ghost predicate WithinCapacity(current: map<string, Placement>, overflow: bool) {
    && (forall h | h in current :: Usable(current[h].listenerSet, overflow))
    && (forall i :: |Held(current, i)| <= Capacity(i))
  }

  ghost function ClaimantNames(ls: seq<ProjectedListener>, n: nat, current: map<string, Placement>, index: int): set<string>
    requires n <= |ls|
  {
    if n == 0 then {}
    else if ls[n - 1].hostname in Held(current, index)
    then ClaimantNames(ls, n - 1, current, index) + {ls[n - 1].hostname}
    else ClaimantNames(ls, n - 1, current, index)
  }

  lemma {:induction false} ClaimantsAreHeld(ls: seq<ProjectedListener>, n: nat, current: map<string, Placement>, index: int)
    requires n <= |ls| && DistinctNames(ls)
    ensures Claimants(ls, n, current, index) == |ClaimantNames(ls, n, current, index)|
    ensures ClaimantNames(ls, n, current, index) <= Held(current, index)
    ensures forall x | x in ClaimantNames(ls, n, current, index) :: exists i :: 0 <= i < n && ls[i].hostname == x
  {
    if n > 0 {
      ClaimantsAreHeld(ls, n - 1, current, index);
    }
  }

  /** From any acceptable placement, every listener that is still wanted keeps its parent,
      whatever else comes, goes, collapses or inherits. */
  lemma Sticky(ls: seq<ProjectedListener>, j: nat, current: map<string, Placement>, overflow: bool)
    requires j < |ls| && DistinctNames(ls) && ls[j].hostname in current && WithinCapacity(current, overflow)
    ensures var placed := PlaceAll(ls, current, overflow).slots.placed;
            ls[j].hostname in placed && placed[ls[j].hostname] == current[ls[j].hostname].listenerSet
  {
    var index := current[ls[j].hostname].listenerSet;
    StickyExactly(ls, j, current, overflow);
    ClaimantsAreHeld(ls, j, current, index);
    StrictSubsetSmaller(ClaimantNames(ls, j, current, index), Held(current, index), ls[j].hostname);
  }

  lemma StrictSubsetSmaller(a: set<string>, b: set<string>, x: string)
    requires a <= b && x in b && x !in a
    ensures |a| < |b|
  {
    assert a <= b - {x};
    SubsetSize(a, b - {x});
  }

  lemma {:induction false} SubsetSize(a: set<string>, b: set<string>)
    requires a <= b
    ensures |a| <= |b|
  {
    assert b == a + (b - a);
  }

  // ---------- Inheritance and first fit ----------

  lemma {:induction false} PreferHonours(pass: Pass, s: Slots, ls: seq<ProjectedListener>, n: nat, j: nat,
                                         current: map<string, Placement>, overflow: bool)
    requires j < n <= |ls| && DistinctNames(ls) && Fresh(s, ls) && Consistent(s, overflow)
    requires Preferred(pass, ls[j], current).Some? && Usable(Preferred(pass, ls[j], current).value, overflow)
    ensures var p := Prefer(pass, s, ls, n, current, overflow);
            var index := Preferred(pass, ls[j], current).value;
            || (ls[j].hostname in p.slots.placed && p.slots.placed[ls[j].hostname] == index)
            || CountAt(p.slots.counts, index) >= Capacity(index)
  {
    if j < n - 1 {
      PreferHonours(pass, s, ls, n - 1, j, current, overflow);
    }
  }

  /** A listener without a placement of its own goes where its relative is, unless that parent ends up full. */
  lemma InheritsUnlessFull(ls: seq<ProjectedListener>, j: nat, current: map<string, Placement>, overflow: bool)
    requires j < |ls| && DistinctNames(ls) && ls[j].hostname !in current
    requires InheritedIndex(ls[j], current).Some? && Usable(InheritedIndex(ls[j], current).value, overflow)
    ensures var placed := PlaceAll(ls, current, overflow).slots.placed;
            var index := InheritedIndex(ls[j], current).value;
            || (ls[j].hostname in placed && placed[ls[j].hostname] == index)
            || |At(placed, index)| == Capacity(index)
  {
    PassesSplit(ls, current, overflow);
    var own := AfterOwn(ls, current, overflow);
    var inherited := AfterInherited(ls, current, overflow);
    var all := PlaceAll(ls, current, overflow);
    var index := InheritedIndex(ls[j], current).value;
    UnknownNotOwn(ls, |ls|, j, current, overflow);
    var i :| 0 <= i < |own.rest| && own.rest[i] == ls[j];
    PreferHonours(Inherited, own.slots, own.rest, |own.rest|, i, current, overflow);
    OccupancyGrows(inherited.slots, all.slots, index, overflow);
  }

  lemma {:induction false} UnknownNotOwn(ls: seq<ProjectedListener>, n: nat, j: nat, current: map<string, Placement>, overflow: bool)
    requires j < n <= |ls| && ls[j].hostname !in current
    ensures ls[j] in Prefer(Own, EMPTY, ls, n, current, overflow).rest
  {
    if j < n - 1 {
      UnknownNotOwn(ls, n - 1, j, current, overflow);
    }
  }

  lemma OccupancyGrows(s: Slots, t: Slots, index: int, overflow: bool)
    requires Consistent(s, overflow) && Consistent(t, overflow) && Extends(s, t)
    ensures CountAt(s.counts, index) <= CountAt(t.counts, index) == |At(t.placed, index)| <= Capacity(index)
  {
    assert CountAt(s.counts, index) == |At(s.placed, index)|;
    assert CountAt(t.counts, index) == |At(t.placed, index)|;
    assert At(s.placed, index) <= At(t.placed, index);
    SubsetSize(At(s.placed, index), At(t.placed, index));
  }

  lemma {:induction false} FitFillsLower(s: Slots, ls: seq<ProjectedListener>, n: nat, j: nat, overflow: bool, lower: int)
    requires j < n <= |ls| && DistinctNames(ls) && Fresh(s, ls) && Consistent(s, overflow)
    requires var placed := Fit(s, ls, n, overflow).slots.placed;
             ls[j].hostname in placed && 0 <= lower < placed[ls[j].hostname]
    ensures CountAt(Fit(s, ls, n, overflow).slots.counts, lower) >= Capacity(lower)
  {
    if j < n - 1 {
      FitLeavesOthers(s, ls, n, j, overflow);
      FitFillsLower(s, ls, n - 1, j, overflow, lower);
    } else {
      FitSplits(s, ls, n - 1, overflow);
      NotAmongEarlier(s, ls, n, Fit(s, ls, n - 1, overflow), overflow);
      FitLastFillsLower(Fit(s, ls, n - 1, overflow).slots, ls[j].hostname, overflow, lower);
    }
  }

  lemma FitLeavesOthers(s: Slots, ls: seq<ProjectedListener>, n: nat, j: nat, overflow: bool)
    requires j < n - 1 < |ls| && DistinctNames(ls)
    ensures var before, after := Fit(s, ls, n - 1, overflow).slots, Fit(s, ls, n, overflow).slots;
            && (ls[j].hostname in before.placed <==> ls[j].hostname in after.placed)
            && (ls[j].hostname in before.placed ==> before.placed[ls[j].hostname] == after.placed[ls[j].hostname])
            && forall i :: CountAt(before.counts, i) <= CountAt(after.counts, i)
  {
  }

  lemma FitLastFillsLower(s: Slots, hostname: string, overflow: bool, lower: int)
    requires hostname !in s.placed && overflow && !HasRoom(s, 0, overflow)
    requires 0 <= lower < FirstFree(s.counts, 1)
    ensures CountAt(Put(s, hostname, FirstFree(s.counts, 1)).counts, lower) >= Capacity(lower)
  {
  }

  /** A listener that neither keeps nor inherits a parent goes to the first with room: every parent
      before the one it gets is full. */
  lemma FirstFit(ls: seq<ProjectedListener>, l: ProjectedListener, current: map<string, Placement>, overflow: bool, lower: int)
    requires DistinctNames(ls) && l in AfterInherited(ls, current, overflow).rest
    requires var placed := PlaceAll(ls, current, overflow).slots.placed;
             l.hostname in placed && 0 <= lower < placed[l.hostname]
    ensures |At(PlaceAll(ls, current, overflow).slots.placed, lower)| == Capacity(lower)
  {
    PassesSplit(ls, current, overflow);
    var inherited := AfterInherited(ls, current, overflow);
    var all := PlaceAll(ls, current, overflow);
    var j :| 0 <= j < |inherited.rest| && inherited.rest[j] == l;
    FitFillsLower(inherited.slots, inherited.rest, |inherited.rest|, j, overflow, lower);
    OccupancyGrows(all.slots, all.slots, lower, overflow);
  }

  // ---------- Who is turned away ----------

  lemma {:induction false} UnwantedWaits(pass: Pass, s: Slots, ls: seq<ProjectedListener>, n: nat, j: nat,
                                         current: map<string, Placement>, overflow: bool)
    requires j < n <= |ls| && Preferred(pass, ls[j], current) == None
    ensures ls[j] in Prefer(pass, s, ls, n, current, overflow).rest
  {
    if j < n - 1 {
      UnwantedWaits(pass, s, ls, n - 1, j, current, overflow);
    }
  }

  lemma {:induction false} PreferKeepsOrder(pass: Pass, s: Slots, ls: seq<ProjectedListener>, n: nat,
                                            current: map<string, Placement>, overflow: bool)
    requires n <= |ls| && Ascending(HostnameKey, ls)
    ensures var rest := Prefer(pass, s, ls, n, current, overflow).rest;
            && Ascending(HostnameKey, rest)
            && (forall l | l in rest :: exists j :: 0 <= j < n && ls[j] == l)
  {
    if n > 0 {
      PreferKeepsOrder(pass, s, ls, n - 1, current, overflow);
      var before := Prefer(pass, s, ls, n - 1, current, overflow).rest;
      AscendingSnoc(ls, n - 1, before);
    }
  }

  lemma AscendingSnoc(ls: seq<ProjectedListener>, n: nat, before: seq<ProjectedListener>)
    requires n < |ls| && Ascending(HostnameKey, ls) && Ascending(HostnameKey, before)
    requires forall l | l in before :: exists j :: 0 <= j < n && ls[j] == l
    ensures Ascending(HostnameKey, before + [ls[n]])
    ensures forall l | l in before + [ls[n]] :: exists j :: 0 <= j < n + 1 && ls[j] == l
  {
    var after := before + [ls[n]];
    forall i | 0 <= i < |before| ensures KeyLess(HostnameKey(before[i]), HostnameKey(ls[n])) {
      assert before[i] in before;
    }
    forall l | l in after ensures exists j :: 0 <= j < n + 1 && ls[j] == l {
      if l !in before {
        assert ls[n] == l;
      }
    }
  }

  lemma {:induction false} FitKeepsOrder(s: Slots, ls: seq<ProjectedListener>, n: nat, overflow: bool)
    requires n <= |ls| && Ascending(HostnameKey, ls)
    ensures var rest := Fit(s, ls, n, overflow).rest;
            && Ascending(HostnameKey, rest)
            && (forall l | l in rest :: exists j :: 0 <= j < n && ls[j] == l)
  {
    if n > 0 {
      FitKeepsOrder(s, ls, n - 1, overflow);
      AscendingSnoc(ls, n - 1, Fit(s, ls, n - 1, overflow).rest);
    }
  }

  /** The listeners left over are in hostname order. */
  lemma LeftOverInOrder(ls: seq<ProjectedListener>, current: map<string, Placement>, overflow: bool)
    requires Ascending(HostnameKey, ls)
    ensures Ascending(HostnameKey, PlaceAll(ls, current, overflow).rest)
  {
    var inherited := AfterInherited(ls, current, overflow);
    WaitInOrder(ls, current, overflow);
    FitKeepsOrder(inherited.slots, inherited.rest, |inherited.rest|, overflow);
  }

  lemma LastPlacedNoneRefused(s: Slots, ls: seq<ProjectedListener>, n: nat)
    requires 0 < n <= |ls| && ls[n - 1].hostname !in Fit(s, ls, n - 1, false).slots.placed
    requires ls[n - 1].hostname in Fit(s, ls, n, false).slots.placed
    ensures Fit(s, ls, n - 1, false).rest == []
  {
    LeftOverMeansFull(s, ls, n - 1, false);
  }

  lemma {:induction false} FitInOrder(s: Slots, ls: seq<ProjectedListener>, n: nat, i: nat, j: nat)
    requires i < j < n <= |ls| && DistinctNames(ls) && Fresh(s, ls) && Consistent(s, false)
    requires ls[j].hostname in Fit(s, ls, n, false).slots.placed
    ensures ls[i].hostname in Fit(s, ls, n, false).slots.placed
  {
    if j < n - 1 {
      FitLeavesOthers(s, ls, n, j, false);
      FitInOrder(s, ls, n - 1, i, j);
    } else {
      FitSplits(s, ls, n - 1, false);
      NotAmongEarlier(s, ls, n, Fit(s, ls, n - 1, false), false);
      LastPlacedNoneRefused(s, ls, n);
    }
    FitLeavesOthers(s, ls, n, i, false);
  }

  lemma BothWait(ls: seq<ProjectedListener>, i: nat, current: map<string, Placement>, overflow: bool)
    requires i < |ls| && ls[i].hostname !in current && InheritedIndex(ls[i], current) == None
    ensures ls[i] in AfterInherited(ls, current, overflow).rest
  {
    var own := AfterOwn(ls, current, overflow);
    UnwantedWaits(Own, EMPTY, ls, |ls|, i, current, overflow);
    var j :| 0 <= j < |own.rest| && own.rest[j] == ls[i];
    UnwantedWaits(Inherited, own.slots, own.rest, |own.rest|, j, current, overflow);
  }

  lemma WaitInOrder(ls: seq<ProjectedListener>, current: map<string, Placement>, overflow: bool)
    requires Ascending(HostnameKey, ls)
    ensures Ascending(HostnameKey, AfterInherited(ls, current, overflow).rest)
  {
    var own := AfterOwn(ls, current, overflow);
    PreferKeepsOrder(Own, EMPTY, ls, |ls|, current, overflow);
    PreferKeepsOrder(Inherited, own.slots, own.rest, |own.rest|, current, overflow);
  }

  lemma AscendingIndices(ls: seq<ProjectedListener>, i: nat, j: nat)
    requires i < |ls| && j < |ls| && Ascending(HostnameKey, ls)
    requires KeyLess(HostnameKey(ls[i]), HostnameKey(ls[j]))
    ensures i < j
  {
    KeyLessTotal(HostnameKey(ls[i]), HostnameKey(ls[j]));
  }

  /** Without overflow, newcomers are admitted in hostname order: nobody without a claim to a parent gets
      a slot that an earlier one was refused. */
  lemma AdmittedInOrder(ls: seq<ProjectedListener>, i: nat, j: nat, current: map<string, Placement>)
    requires i < j < |ls| && Ascending(HostnameKey, ls)
    requires ls[i].hostname !in current && InheritedIndex(ls[i], current) == None
    requires ls[j].hostname !in current && InheritedIndex(ls[j], current) == None
    requires DistinctNames(ls) && ls[j].hostname in PlaceAll(ls, current, false).slots.placed
    ensures ls[i].hostname in PlaceAll(ls, current, false).slots.placed
  {
    var inherited := AfterInherited(ls, current, false);
    BothWait(ls, i, current, false);
    BothWait(ls, j, current, false);
    WaitInOrder(ls, current, false);
    PassesSplit(ls, current, false);
    AdmittedAmong(inherited, ls[i], ls[j]);
  }

  lemma AdmittedAmong(waiting: Progress, a: ProjectedListener, b: ProjectedListener)
    requires a in waiting.rest && b in waiting.rest && KeyLess(HostnameKey(a), HostnameKey(b))
    requires Ascending(HostnameKey, waiting.rest) && DistinctNames(waiting.rest)
    requires Fresh(waiting.slots, waiting.rest) && Consistent(waiting.slots, false)
    requires b.hostname in Fit(waiting.slots, waiting.rest, |waiting.rest|, false).slots.placed
    ensures a.hostname in Fit(waiting.slots, waiting.rest, |waiting.rest|, false).slots.placed
  {
    var i :| 0 <= i < |waiting.rest| && waiting.rest[i] == a;
    var j :| 0 <= j < |waiting.rest| && waiting.rest[j] == b;
    AscendingIndices(waiting.rest, i, j);
    FitInOrder(waiting.slots, waiting.rest, |waiting.rest|, i, j);
  }

  // ---------- From scratch ----------

  /** Where the k-th listener goes when there is no previous placement. */
  function SlotOf(k: nat): nat {
    if k < 63 then 0 else 1 + (k - 63) / 64
  }

  /** How many of the first n listeners then sit on a parent. */
  function Fill(n: nat, index: int): nat {
    if index < 0 then 0
    else if index == 0 then Min(n, GATEWAY_HTTPS_CAPACITY)
    else
      var before := GATEWAY_HTTPS_CAPACITY + LISTENER_SET_CAPACITY * (index - 1);
      if n <= before then 0 else Min(n - before, LISTENER_SET_CAPACITY)
  }

  lemma FillStep(n: nat, index: int)
    ensures Fill(n + 1, index) == Fill(n, index) + if index == SlotOf(n) then 1 else 0
    ensures index == SlotOf(n) ==> Fill(n, index) < Capacity(index)
    ensures 0 <= index < SlotOf(n) ==> Fill(n, index) == Capacity(index)
  {
  }

  /** The counts after n listeners placed from scratch. */
  ghost predicate Filled(counts: map<int, nat>, n: nat) {
    forall i :: CountAt(counts, i) == Fill(n, i)
  }

  lemma FillNext(s: Slots, n: nat, hostname: string)
    requires Filled(s.counts, n)
    ensures Filled(Put(s, hostname, SlotOf(n)).counts, n + 1)
    ensures HasRoom(s, 0, true) <==> SlotOf(n) == 0
    ensures SlotOf(n) > 0 ==> FirstFree(s.counts, 1) == SlotOf(n)
  {
    forall i ensures CountAt(Put(s, hostname, SlotOf(n)).counts, i) == Fill(n + 1, i) {
      FillStep(n, i);
    }
    FillStep(n, 0);
    if SlotOf(n) > 0 {
      FillStep(n, SlotOf(n));
      forall j | 1 <= j < SlotOf(n) ensures CountAt(s.counts, j) >= Capacity(j) {
        FillStep(n, j);
      }
      FirstFreeUnique(s.counts, 1, SlotOf(n));
    }
  }

  lemma NothingFilled()
    ensures Filled(EMPTY.counts, 0)
  {
  }

  /** The first n listeners sit where SlotOf says. */
  ghost predicate Landed(placed: map<string, int>, ls: seq<ProjectedListener>, n: nat)
    requires n <= |ls|
  {
    forall k | 0 <= k < n :: ls[k].hostname in placed && placed[ls[k].hostname] == SlotOf(k)
  }

  lemma FitNext(s: Slots, ls: seq<ProjectedListener>, n: nat)
    requires n < |ls| && DistinctNames(ls)
    requires s == Fit(EMPTY, ls, n, true).slots && Filled(s.counts, n) && Landed(s.placed, ls, n)
    ensures Fit(EMPTY, ls, n + 1, true).slots == Put(s, ls[n].hostname, SlotOf(n))
    ensures Filled(Put(s, ls[n].hostname, SlotOf(n)).counts, n + 1)
    ensures Landed(Put(s, ls[n].hostname, SlotOf(n)).placed, ls, n + 1)
  {
    FillNext(s, n, ls[n].hostname);
  }

  lemma {:induction false} FitFromScratch(ls: seq<ProjectedListener>, n: nat)
    requires n <= |ls| && DistinctNames(ls)
    ensures var s := Fit(EMPTY, ls, n, true).slots; Filled(s.counts, n) && Landed(s.placed, ls, n)
  {
    if n == 0 {
      NothingFilled();
    } else {
      FitFromScratch(ls, n - 1);
      FitNext(Fit(EMPTY, ls, n - 1, true).slots, ls, n - 1);
    }
  }

  lemma {:induction false} PreferNobody(pass: Pass, ls: seq<ProjectedListener>, n: nat, overflow: bool)
    requires n <= |ls|
    ensures Prefer(pass, EMPTY, ls, n, map[], overflow) == Progress(EMPTY, ls[..n])
  {
    if n > 0 {
      PreferNobody(pass, ls, n - 1, overflow);
      NothingInherited(ls[n - 1]);
      assert ls[..n] == ls[..n - 1] + [ls[n - 1]];
    }
  }

  lemma NothingInherited(l: ProjectedListener)
    ensures InheritedIndex(l, map[]) == None
  {
    if IsWildcard(l.hostname) {
      NothingPlaced(SortedStrings(Elements(l.hosts)), 0, l.hostname);
    }
  }

  lemma {:induction false} NothingPlaced(members: seq<string>, i: nat, hostname: string)
    requires i <= |members|
    ensures FirstPlaced(members, i, hostname, map[]) == None
    decreases |members| - i
  {
    if i < |members| {
      NothingPlaced(members, i + 1, hostname);
    }
  }

  /** Without previous placements, listener k of the hostname order is on the Gateway if k < 63 and on
      ListenerSet 1 + (k - 63) / 64 otherwise. */
  lemma FromScratch(ls: seq<ProjectedListener>)
    requires DistinctNames(ls)
    ensures var r := PlaceAll(ls, map[], true);
            && r.rest == []
            && forall k | 0 <= k < |ls| ::
                 ls[k].hostname in r.slots.placed && r.slots.placed[ls[k].hostname] == SlotOf(k)
  {
    PreferNobody(Own, ls, |ls|, true);
    PreferNobody(Inherited, ls, |ls|, true);
    assert ls[..|ls|] == ls;
    FitFromScratch(ls, |ls|);
    LeftOverMeansFull(EMPTY, ls, |ls|, true);
  }

  /** n listeners then use exactly the ListenerSets 1 to ceil((n - 63) / 64). */
  lemma SetsUsed(ls: seq<ProjectedListener>, index: int)
    requires DistinctNames(ls) && index >= 1
    ensures At(PlaceAll(ls, map[], true).slots.placed, index) != {} <==>
            index <= if |ls| <= 63 then 0 else |ls| / 64
  {
    FromScratch(ls);
    PlacementSound(ls, map[], true);
    var placed := PlaceAll(ls, map[], true).slots.placed;
    var k := GATEWAY_HTTPS_CAPACITY + LISTENER_SET_CAPACITY * (index - 1);
    if k < |ls| {
      assert SlotOf(k) == index;
      assert ls[k].hostname in At(placed, index);
    }
    if At(placed, index) != {} {
      var h :| h in At(placed, index);
      var i :| 0 <= i < |ls| && ls[i].hostname == h;
    }
  }
}
