// placeListeners: the three-pass sticky placement of listeners onto the Gateway
// and its overflow ListenerSets.
module Placing {
  import opened Text
  import opened Sorting
  import opened Model
  import opened Election

  // ---------- Slots ----------

  function Capacity(index: int): nat {
    if index == 0 then GATEWAY_HTTPS_CAPACITY else LISTENER_SET_CAPACITY
  }

  predicate Usable(index: int, overflow: bool) {
    index == 0 || overflow
  }

  datatype Slots = Slots(placed: map<string, int>, counts: map<int, nat>)

  const EMPTY: Slots := Slots(map[], map[])

  function CountAt(counts: map<int, nat>, index: int): nat {
    if index in counts then counts[index] else 0
  }

  predicate HasRoom(s: Slots, index: int, overflow: bool) {
    Usable(index, overflow) && CountAt(s.counts, index) < Capacity(index)
  }

  function Put(s: Slots, hostname: string, index: int): Slots {
    Slots(s.placed[hostname := index], s.counts[index := CountAt(s.counts, index) + 1])
  }

  /** The parents from start on that are full. */
  function FullFrom(counts: map<int, nat>, start: int): set<int> {
    set i | i in counts && i >= start && counts[i] >= Capacity(i)
  }

  /** The first parent from start on with a free slot. The search ends because each full
      parent it passes leaves one fewer ahead. */
  function FirstFree(counts: map<int, nat>, start: nat): (index: nat)
    requires start >= 1
    ensures index >= start && CountAt(counts, index) < Capacity(index)
    ensures forall j | start <= j < index :: CountAt(counts, j) >= Capacity(j)
    decreases |FullFrom(counts, start)|
  {
    if CountAt(counts, start) < Capacity(start) then start
    else
      FullShrinks(counts, start);
      FirstFree(counts, start + 1)
  }

  lemma FullShrinks(counts: map<int, nat>, start: nat)
    requires CountAt(counts, start) >= Capacity(start)
    ensures |FullFrom(counts, start + 1)| < |FullFrom(counts, start)|
  {
    assert FullFrom(counts, start) == FullFrom(counts, start + 1) + {start};
  }

  lemma FirstFreeUnique(counts: map<int, nat>, start: nat, index: nat)
    requires 1 <= start <= index && CountAt(counts, index) < Capacity(index)
    requires forall j | start <= j < index :: CountAt(counts, j) >= Capacity(j)
    ensures FirstFree(counts, start) == index
  {
  }

  // ---------- Preferences ----------

  /** The first member of members[i..] other than the listener itself that has a placement. */
  function FirstPlaced(members: seq<string>, i: nat, hostname: string, current: map<string, Placement>): Option<int>
    requires i <= |members|
    decreases |members| - i
  {
    if i == |members| then None
    else if members[i] != hostname && members[i] in current then Some(current[members[i]].listenerSet)
    else FirstPlaced(members, i + 1, hostname, current)
  }

  /** The parent of a related hostname: a host a wildcard now serves, or the wildcard of an exact host. */
  ghost function InheritedIndex(l: ProjectedListener, current: map<string, Placement>): Option<int> {
    if IsWildcard(l.hostname) then FirstPlaced(SortedStrings(Elements(l.hosts)), 0, l.hostname, current)
    else
      match WildcardParent(l.hostname)
      case Some(candidate) => if candidate in current then Some(current[candidate].listenerSet) else None
      case None => None
  }

  datatype Pass = Own | Inherited

  ghost function Preferred(pass: Pass, l: ProjectedListener, current: map<string, Placement>): Option<int> {
    match pass
    case Own => if l.hostname in current then Some(current[l.hostname].listenerSet) else None
    case Inherited => InheritedIndex(l, current)
  }

  datatype Progress = Progress(slots: Slots, rest: seq<ProjectedListener>)

  /** One preference pass over the first n listeners: each takes the parent it prefers, if there is room. */
  ghost function Prefer(pass: Pass, s: Slots, ls: seq<ProjectedListener>, n: nat,
                        current: map<string, Placement>, overflow: bool): Progress
    requires n <= |ls|
  {
    if n == 0 then Progress(s, [])
    else
      var p := Prefer(pass, s, ls, n - 1, current, overflow);
      var l := ls[n - 1];
      var wanted := Preferred(pass, l, current);
      if wanted.Some? && HasRoom(p.slots, wanted.value, overflow)
      then p.(slots := Put(p.slots, l.hostname, wanted.value))
      else p.(rest := p.rest + [l])
  }

  /** The last pass: the Gateway, else the first ListenerSet with room, else nowhere. */
  function Fit(s: Slots, ls: seq<ProjectedListener>, n: nat, overflow: bool): Progress
    requires n <= |ls|
  {
    if n == 0 then Progress(s, [])
    else
      var p := Fit(s, ls, n - 1, overflow);
      var l := ls[n - 1];
      if HasRoom(p.slots, 0, overflow) then p.(slots := Put(p.slots, l.hostname, 0))
      else if !overflow then p.(rest := p.rest + [l])
      else p.(slots := Put(p.slots, l.hostname, FirstFree(p.slots.counts, 1)))
  }

  ghost function AfterOwn(ls: seq<ProjectedListener>, current: map<string, Placement>, overflow: bool): Progress {
    Prefer(Own, EMPTY, ls, |ls|, current, overflow)
  }

  ghost function AfterInherited(ls: seq<ProjectedListener>, current: map<string, Placement>, overflow: bool): Progress {
    var p := AfterOwn(ls, current, overflow);
    Prefer(Inherited, p.slots, p.rest, |p.rest|, current, overflow)
  }

  /** The placement of listeners given in hostname order; rest is what stays unplaced. */
  ghost function PlaceAll(ls: seq<ProjectedListener>, current: map<string, Placement>, overflow: bool): Progress {
    var p := AfterInherited(ls, current, overflow);
    Fit(p.slots, p.rest, |p.rest|, overflow)
  }

  // ---------- The code ----------

  method TryPlace(placed: map<string, int>, counts: map<int, nat>, hostname: string, index: int, overflow: bool)
    returns (ok: bool, placed': map<string, int>, counts': map<int, nat>)
    ensures ok == HasRoom(Slots(placed, counts), index, overflow)
    ensures Slots(placed', counts') ==
            if ok then Put(Slots(placed, counts), hostname, index) else Slots(placed, counts)
  {
    if !Usable(index, overflow) || CountAt(counts, index) >= Capacity(index) {
      return false, placed, counts;
    }
    return true, placed[hostname := index], counts[index := CountAt(counts, index) + 1];
  }

  method InheritedPlacement(l: ProjectedListener, current: map<string, Placement>) returns (index: Option<int>)
    ensures index == InheritedIndex(l, current)
  {
    if IsWildcard(l.hostname) {
      var members := SortStringSet(Elements(l.hosts));
      for i := 0 to |members|
        invariant FirstPlaced(members, 0, l.hostname, current) == FirstPlaced(members, i, l.hostname, current)
      {
        if members[i] == l.hostname {
          continue;
        }
        if members[i] in current {
          return Some(current[members[i]].listenerSet);
        }
      }
      return None;
    }
    var dot := FirstDot(l.hostname);
    if dot <= 0 || dot == |l.hostname| - 1 {
      return None;
    }
    var candidate := "*" + l.hostname[dot..];
    if candidate in current {
      return Some(current[candidate].listenerSet);
    }
    return None;
  }

  method PlaceListeners(listeners: seq<ProjectedListener>, current: map<string, Placement>, overflow: bool)
    returns (placed: map<string, int>, unplaced: seq<ProjectedListener>)
    ensures var result := PlaceAll(SortBy(HostnameKey, listeners), current, overflow);
            placed == result.slots.placed && unplaced == result.rest
  {
    var sorted := SortBy(HostnameKey, listeners);
    var counts: map<int, nat>;
    var pass2: seq<ProjectedListener>;
    var pass3: seq<ProjectedListener>;
    placed, counts, pass2 := OwnPass(sorted, current, overflow);
    placed, counts, pass3 := InheritedPass(placed, counts, pass2, current, overflow);
    placed, unplaced := FitPass(placed, counts, pass3, overflow);
  }

  method OwnPass(sorted: seq<ProjectedListener>, current: map<string, Placement>, overflow: bool)
    returns (placed: map<string, int>, counts: map<int, nat>, pass2: seq<ProjectedListener>)
    ensures Progress(Slots(placed, counts), pass2) == AfterOwn(sorted, current, overflow)
  {
    placed, counts, pass2 := map[], map[], [];
    for i := 0 to |sorted|
      invariant Progress(Slots(placed, counts), pass2) == Prefer(Own, EMPTY, sorted, i, current, overflow)
    {
      var l := sorted[i];
      if l.hostname in current {
        var ok: bool;
        ok, placed, counts := TryPlace(placed, counts, l.hostname, current[l.hostname].listenerSet, overflow);
        if ok {
          continue;
        }
      }
      pass2 := pass2 + [l];
    }
  }

  method InheritedPass(placed0: map<string, int>, counts0: map<int, nat>, pass2: seq<ProjectedListener>,
                       current: map<string, Placement>, overflow: bool)
    returns (placed: map<string, int>, counts: map<int, nat>, pass3: seq<ProjectedListener>)
    ensures Progress(Slots(placed, counts), pass3) ==
            Prefer(Inherited, Slots(placed0, counts0), pass2, |pass2|, current, overflow)
  {
    placed, counts, pass3 := placed0, counts0, [];
    for i := 0 to |pass2|
      invariant Progress(Slots(placed, counts), pass3) ==
                Prefer(Inherited, Slots(placed0, counts0), pass2, i, current, overflow)
    {
      var l := pass2[i];
      var index := InheritedPlacement(l, current);
      if index.Some? {
        var ok: bool;
        ok, placed, counts := TryPlace(placed, counts, l.hostname, index.value, overflow);
        if ok {
          continue;
        }
      }
      pass3 := pass3 + [l];
    }
  }

  method FitPass(placed0: map<string, int>, counts0: map<int, nat>, pass3: seq<ProjectedListener>, overflow: bool)
    returns (placed: map<string, int>, unplaced: seq<ProjectedListener>)
    ensures var result := Fit(Slots(placed0, counts0), pass3, |pass3|, overflow);
            placed == result.slots.placed && unplaced == result.rest
  {
    var counts := counts0;
    placed, unplaced := placed0, [];
    for i := 0 to |pass3|
      invariant Progress(Slots(placed, counts), unplaced) == Fit(Slots(placed0, counts0), pass3, i, overflow)
    {
      var l := pass3[i];
      var ok: bool;
      ok, placed, counts := TryPlace(placed, counts, l.hostname, 0, overflow);
      if ok {
        continue;
      }
      if !overflow {
        unplaced := unplaced + [l];
        continue;
      }
      ghost var before := Slots(placed, counts);
      var index := 1;
      ok, placed, counts := TryPlace(placed, counts, l.hostname, index, overflow);
      while !ok
        invariant index >= 1 && FirstFree(before.counts, 1) == FirstFree(before.counts, index)
        invariant ok == (CountAt(before.counts, index) < Capacity(index))
        invariant Slots(placed, counts) == if ok then Put(before, l.hostname, index) else before
        decreases |FullFrom(before.counts, index)|
      {
        FullShrinks(before.counts, index);
        index := index + 1;
        ok, placed, counts := TryPlace(placed, counts, l.hostname, index, overflow);
      }
    }
  }
}
