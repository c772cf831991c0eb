// Exactly which newcomers get the parent they inherit.
module HeirLaws {
  import opened Text
  import opened Model
  import opened Election
  import opened Placing
  import opened PlacingLaws

  /** The listeners among the first n without a previous placement. */
  function Newcomers(ls: seq<ProjectedListener>, n: nat, current: map<string, Placement>): seq<ProjectedListener>
    requires n <= |ls|
  {
    if n == 0 then []
    else if ls[n - 1].hostname in current then Newcomers(ls, n - 1, current)
    else Newcomers(ls, n - 1, current) + [ls[n - 1]]
  }

  /** How many of the first n listeners are newcomers that inherit the given parent. */
  ghost function Heirs(ls: seq<ProjectedListener>, n: nat, current: map<string, Placement>, index: int): nat
    requires n <= |ls|
  {
    if n == 0 then 0
    else
      Heirs(ls, n - 1, current, index) +
      if ls[n - 1].hostname !in current && InheritedIndex(ls[n - 1], current) == Some(index) then 1 else 0
  }

  lemma {:induction false} OnlyNewcomersWait(ls: seq<ProjectedListener>, n: nat, current: map<string, Placement>, overflow: bool)
    requires n <= |ls| && DistinctNames(ls) && WithinCapacity(current, overflow)
    ensures Prefer(Own, EMPTY, ls, n, current, overflow).rest == Newcomers(ls, n, current)
  {
    if n > 0 {
      OnlyNewcomersWait(ls, n - 1, current, overflow);
      if ls[n - 1].hostname in current {
        RoomForOwn(ls, n - 1, current, overflow);
      }
    }
  }

  lemma RoomForOwn(ls: seq<ProjectedListener>, n: nat, current: map<string, Placement>, overflow: bool)
    requires n < |ls| && DistinctNames(ls) && WithinCapacity(current, overflow) && ls[n].hostname in current
    ensures HasRoom(Prefer(Own, EMPTY, ls, n, current, overflow).slots, current[ls[n].hostname].listenerSet, overflow)
    ensures Claimants(ls, n, current, current[ls[n].hostname].listenerSet) < Capacity(current[ls[n].hostname].listenerSet)
  {
    var index := current[ls[n].hostname].listenerSet;
    ClaimantsAreHeld(ls, n, current, index);
    StrictSubsetSmaller(ClaimantNames(ls, n, current, index), Held(current, index), ls[n].hostname);
    OwnCounts(ls, n, current, overflow, index);
  }

  lemma {:induction false} NewcomersGrow(ls: seq<ProjectedListener>, j: nat, n: nat, current: map<string, Placement>)
    requires j <= n <= |ls|
    ensures Newcomers(ls, j, current) <= Newcomers(ls, n, current)
  {
    if j < n {
      NewcomersGrow(ls, j, n - 1, current);
    }
  }

  lemma {:induction false} HeirsAmong(ls: seq<ProjectedListener>, n: nat, current: map<string, Placement>, index: int)
    requires n <= |ls|
    ensures var w := Newcomers(ls, n, current); Heirs(w, |w|, current, index) == Heirs(ls, n, current, index)
  {
    if n > 0 {
      HeirsAmong(ls, n - 1, current, index);
      var w := Newcomers(ls, n - 1, current);
      if ls[n - 1].hostname !in current {
        HeirsSnoc(w, ls[n - 1], current, index);
      }
    }
  }

  lemma {:induction false} HeirsPrefix(a: seq<ProjectedListener>, b: seq<ProjectedListener>, n: nat, current: map<string, Placement>,
                                       index: int)
    requires n <= |a|
    ensures Heirs(a + b, n, current, index) == Heirs(a, n, current, index)
  {
    if n > 0 {
      HeirsPrefix(a, b, n - 1, current, index);
    }
  }

  lemma HeirsSnoc(w: seq<ProjectedListener>, l: ProjectedListener, current: map<string, Placement>, index: int)
    requires l.hostname !in current
    ensures Heirs(w + [l], |w| + 1, current, index) ==
            Heirs(w, |w|, current, index) + if InheritedIndex(l, current) == Some(index) then 1 else 0
  {
    HeirsPrefix(w, [l], |w|, current, index);
  }

  ghost predicate AllNew(w: seq<ProjectedListener>, current: map<string, Placement>) {
    forall i | 0 <= i < |w| :: w[i].hostname !in current
  }

  lemma {:induction false} NewcomersNew(ls: seq<ProjectedListener>, n: nat, current: map<string, Placement>)
    requires n <= |ls|
    ensures AllNew(Newcomers(ls, n, current), current)
  {
    if n > 0 {
      NewcomersNew(ls, n - 1, current);
    }
  }

  lemma {:induction false} InheritedCounts(s: Slots, w: seq<ProjectedListener>, n: nat, current: map<string, Placement>,
                                           overflow: bool, index: int)
    requires n <= |w| && AllNew(w, current) && Usable(index, overflow) && CountAt(s.counts, index) <= Capacity(index)
    ensures CountAt(Prefer(Inherited, s, w, n, current, overflow).slots.counts, index) ==
            Min(CountAt(s.counts, index) + Heirs(w, n, current, index), Capacity(index))
  {
    if n > 0 {
      InheritedCounts(s, w, n - 1, current, overflow, index);
    }
  }

  lemma {:induction false} InheritedPlaces(s: Slots, w: seq<ProjectedListener>, n: nat, j: nat, current: map<string, Placement>,
                                           overflow: bool, index: int)
    requires j < n <= |w| && DistinctNames(w) && Fresh(s, w) && Consistent(s, overflow) && AllNew(w, current)
    requires InheritedIndex(w[j], current) == Some(index) && Usable(index, overflow)
    ensures var placed := Prefer(Inherited, s, w, n, current, overflow).slots.placed;
            w[j].hostname in placed && placed[w[j].hostname] == index <==>
            CountAt(s.counts, index) + Heirs(w, j, current, index) < Capacity(index)
  {
    if j < n - 1 {
      InheritedPlaces(s, w, n - 1, j, current, overflow, index);
      PreferLeavesOthers(s, w, n, j, current, overflow);
    } else {
      LastInherits(s, w, j, current, overflow, index);
    }
  }

  lemma PreferLeavesOthers(s: Slots, w: seq<ProjectedListener>, n: nat, j: nat, current: map<string, Placement>, overflow: bool)
    requires j < n - 1 < |w| && DistinctNames(w)
    ensures var before, after := Prefer(Inherited, s, w, n - 1, current, overflow).slots.placed,
                                 Prefer(Inherited, s, w, n, current, overflow).slots.placed;
            && (w[j].hostname in after <==> w[j].hostname in before)
            && (w[j].hostname in before ==> after[w[j].hostname] == before[w[j].hostname])
  {
  }

  lemma LastInherits(s: Slots, w: seq<ProjectedListener>, j: nat, current: map<string, Placement>, overflow: bool, index: int)
    requires j < |w| && DistinctNames(w) && Fresh(s, w) && Consistent(s, overflow) && AllNew(w, current)
    requires InheritedIndex(w[j], current) == Some(index) && Usable(index, overflow)
    ensures var placed := Prefer(Inherited, s, w, j + 1, current, overflow).slots.placed;
            w[j].hostname in placed && placed[w[j].hostname] == index <==>
            CountAt(s.counts, index) + Heirs(w, j, current, index) < Capacity(index)
  {
    var p := Prefer(Inherited, s, w, j, current, overflow);
    CountBounded(s, index, overflow);
    InheritedCounts(s, w, j, current, overflow, index);
    NotPlacedYet(s, w, j, current, overflow);
    PreferNext(s, w, j, current, overflow, index);
  }

  lemma CountBounded(s: Slots, index: int, overflow: bool)
    requires Consistent(s, overflow)
    ensures CountAt(s.counts, index) <= Capacity(index)
  {
    assert CountAt(s.counts, index) == |At(s.placed, index)|;
  }

  lemma NotPlacedYet(s: Slots, w: seq<ProjectedListener>, j: nat, current: map<string, Placement>, overflow: bool)
    requires j < |w| && DistinctNames(w) && Fresh(s, w) && Consistent(s, overflow)
    ensures w[j].hostname !in Prefer(Inherited, s, w, j, current, overflow).slots.placed
  {
    PreferSplits(Inherited, s, w, j, current, overflow);
    NotAmongEarlier(s, w, j + 1, Prefer(Inherited, s, w, j, current, overflow), overflow);
  }

  lemma PreferNext(s: Slots, w: seq<ProjectedListener>, j: nat, current: map<string, Placement>, overflow: bool, index: int)
    requires j < |w| && InheritedIndex(w[j], current) == Some(index)
    requires w[j].hostname !in Prefer(Inherited, s, w, j, current, overflow).slots.placed
    ensures var before, placed := Prefer(Inherited, s, w, j, current, overflow).slots,
                                  Prefer(Inherited, s, w, j + 1, current, overflow).slots.placed;
            && (w[j].hostname in placed <==> HasRoom(before, index, overflow))
            && (w[j].hostname in placed ==> placed[w[j].hostname] == index)
  {
  }

  lemma PrefixAt<T>(a: seq<T>, x: T, w: seq<T>)
    requires a + [x] <= w
    ensures |a| < |w| && w[|a|] == x && w[..|a|] == a && w == a + w[|a|..]
  {
    assert (a + [x])[|a|] == x;
  }

  lemma NewcomerAt(ls: seq<ProjectedListener>, j: nat, current: map<string, Placement>)
    requires j < |ls| && ls[j].hostname !in current
    ensures var w, m := Newcomers(ls, |ls|, current), |Newcomers(ls, j, current)|;
            m < |w| && w[m] == ls[j] && w == Newcomers(ls, j, current) + w[m..]
  {
    NewcomersGrow(ls, j + 1, |ls|, current);
    PrefixAt(Newcomers(ls, j, current), ls[j], Newcomers(ls, |ls|, current));
  }

  lemma HeirInPass(s: Slots, w: seq<ProjectedListener>, m: nat, current: map<string, Placement>, overflow: bool, index: int)
    requires m < |w| && DistinctNames(w) && Fresh(s, w) && Consistent(s, overflow) && AllNew(w, current)
    requires InheritedIndex(w[m], current) == Some(index) && Usable(index, overflow)
    ensures var after := Prefer(Inherited, s, w, |w|, current, overflow).slots;
            var room := CountAt(s.counts, index) + Heirs(w, m, current, index) < Capacity(index);
            && (w[m].hostname in after.placed && after.placed[w[m].hostname] == index <==> room)
            && (!room ==> CountAt(after.counts, index) >= Capacity(index))
  {
    CountBounded(s, index, overflow);
    InheritedPlaces(s, w, |w|, m, current, overflow, index);
    InheritedCounts(s, w, |w|, current, overflow, index);
    HeirsMonotone(w, m, |w|, current, index);
  }

  lemma AfterOwnIs(ls: seq<ProjectedListener>, current: map<string, Placement>, overflow: bool, index: int)
    requires DistinctNames(ls) && WithinCapacity(current, overflow) && Usable(index, overflow)
    ensures var own := AfterOwn(ls, current, overflow);
            && own.rest == Newcomers(ls, |ls|, current) && CountAt(own.slots.counts, index) == Claimants(ls, |ls|, current, index)
            && DistinctNames(own.rest) && Fresh(own.slots, own.rest) && Consistent(own.slots, overflow)
  {
    PassesSplit(ls, current, overflow);
    OnlyNewcomersWait(ls, |ls|, current, overflow);
    OwnCounts(ls, |ls|, current, overflow, index);
    AtMostCapacity(ls, current, index, overflow);
  }

  /** The inheriting pass, after the listeners that keep their parents. */
  lemma InheritsInPass(ls: seq<ProjectedListener>, j: nat, current: map<string, Placement>, overflow: bool, index: int)
    requires j < |ls| && DistinctNames(ls) && WithinCapacity(current, overflow) && ls[j].hostname !in current
    requires InheritedIndex(ls[j], current) == Some(index) && Usable(index, overflow)
    ensures var slots := AfterInherited(ls, current, overflow).slots;
            var room := Claimants(ls, |ls|, current, index) + Heirs(ls, j, current, index) < Capacity(index);
            && (ls[j].hostname in slots.placed && slots.placed[ls[j].hostname] == index <==> room)
            && (!room ==> CountAt(slots.counts, index) >= Capacity(index))
  {
    AfterOwnIs(ls, current, overflow, index);
    HeirPosition(ls, j, current, index);
    HeirInPass(AfterOwn(ls, current, overflow).slots, Newcomers(ls, |ls|, current), |Newcomers(ls, j, current)|, current, overflow, index);
  }

  lemma HeirPosition(ls: seq<ProjectedListener>, j: nat, current: map<string, Placement>, index: int)
    requires j < |ls| && ls[j].hostname !in current
    ensures var w, m := Newcomers(ls, |ls|, current), |Newcomers(ls, j, current)|;
            AllNew(w, current) && m < |w| && w[m] == ls[j] && Heirs(w, m, current, index) == Heirs(ls, j, current, index)
  {
    var w, a := Newcomers(ls, |ls|, current), Newcomers(ls, j, current);
    NewcomersNew(ls, |ls|, current);
    NewcomerAt(ls, j, current);
    HeirsAmong(ls, j, current, index);
    HeirsPrefix(a, w[|a|..], |a|, current, index);
  }

  lemma NotLater(s: Slots, t: Slots, h: string, index: int, overflow: bool)
    requires Consistent(s, overflow) && Consistent(t, overflow) && Extends(s, t)
    requires CountAt(s.counts, index) >= Capacity(index) || !Usable(index, overflow)
    ensures h in t.placed && t.placed[h] == index <==> h in s.placed && s.placed[h] == index
  {
    ClosedStays(s, t, index, overflow);
    assert h in At(t.placed, index) <==> h in At(s.placed, index);
  }

  /** From an acceptable placement, a newcomer gets the parent it inherits exactly when the listeners that keep it
      and the newcomers before it that inherit it too leave room. */
  lemma InheritsExactly(ls: seq<ProjectedListener>, j: nat, current: map<string, Placement>, overflow: bool, index: int)
    requires j < |ls| && DistinctNames(ls) && WithinCapacity(current, overflow) && ls[j].hostname !in current
    requires InheritedIndex(ls[j], current) == Some(index)
    ensures var placed := PlaceAll(ls, current, overflow).slots.placed;
            ls[j].hostname in placed && placed[ls[j].hostname] == index <==>
            Usable(index, overflow) && Claimants(ls, |ls|, current, index) + Heirs(ls, j, current, index) < Capacity(index)
  {
    var inherited, all := AfterInherited(ls, current, overflow).slots, PlaceAll(ls, current, overflow).slots;
    PassesSplit(ls, current, overflow);
    if Usable(index, overflow) {
      InheritsInPass(ls, j, current, overflow, index);
      if CountAt(inherited.counts, index) >= Capacity(index) {
        NotLater(inherited, all, ls[j].hostname, index, overflow);
      }
    }
  }

  lemma {:induction false} HeirsMonotone(w: seq<ProjectedListener>, m: nat, n: nat, current: map<string, Placement>, index: int)
    requires m <= n <= |w|
    ensures Heirs(w, m, current, index) <= Heirs(w, n, current, index)
  {
    if m < n {
      HeirsMonotone(w, m, n - 1, current, index);
    }
  }

  lemma AtMostCapacity(ls: seq<ProjectedListener>, current: map<string, Placement>, index: int, overflow: bool)
    requires DistinctNames(ls) && WithinCapacity(current, overflow)
    ensures Claimants(ls, |ls|, current, index) <= Capacity(index)
  {
    ClaimantsAreHeld(ls, |ls|, current, index);
    SubsetSize(ClaimantNames(ls, |ls|, current, index), Held(current, index));
  }
}
