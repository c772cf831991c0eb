// What the election optimises: the number of hosts whose looked-up listener changes.
module ElectionLaws {
  import opened Text
  import opened Model
  import opened Election
  import opened Planner

  /** A wildcard group nobody declares literally. */
  ghost predicate OpenGroup(d: Demand, target: string) {
    IsWildcard(target) && Group(d, target) != {} && !Pinned(d, target)
  }

  lemma OpenMember(d: Demand, target: string, h: string)
    requires OpenGroup(d, target) && h in Group(d, target)
    ensures !IsWildcard(h) && h != target
  {
  }

  /** With equal churn, the order of size and first Secret decides. */
  ghost predicate WinsTie(d: Demand, target: string, a: string, b: string)
    requires Plain(d) && a in ClassKeys(d, target) && b in ClassKeys(d, target)
  {
    KeyHasHosts(d, target, a);
    KeyHasHosts(d, target, b);
    var na, nb := |ClassHosts(d, target, a)|, |ClassHosts(d, target, b)|;
    na > nb || (na == nb && Less(Slashed(FirstSecret(d, target, a)), Slashed(FirstSecret(d, target, b))))
  }

  lemma BeatsByChurn(d: Demand, target: string, a: string, b: string)
    requires Plain(d) && a in ClassKeys(d, target) && b in ClassKeys(d, target)
    ensures Beats(d, target, a, b) <==>
            || |Moved(d, target, a)| < |Moved(d, target, b)|
            || (|Moved(d, target, a)| == |Moved(d, target, b)| && WinsTie(d, target, a, b))
  {
  }

  // ---------- Churn and the listeners that serve ----------

  /** The listener of a host of the group if the given class were elected. */
  function ListenerIf(d: Demand, target: string, key: string, host: string): string
    requires host in d.owner
  {
    if KeyOf(d, host) == key then target else host
  }

  /** The hosts of the group that a listener serves now, and another would if the given class were elected. */
  ghost function Rerouted(d: Demand, target: string, key: string): set<string> {
    set h | h in Group(d, target) && ServingHostname(d.current, h).Some? &&
            ServingHostname(d.current, h).value != ListenerIf(d, target, key, h)
  }

  lemma ElectedListener(d: Demand, target: string, h: string)
    requires Plain(d) && OpenGroup(d, target) && h in Group(d, target)
    ensures ListenerOf(d, h) == ListenerIf(d, target, Elected(d, target), h)
  {
  }

  lemma LookedUp(d: Demand, target: string, h: string)
    requires OpenGroup(d, target) && h in Group(d, target)
    ensures ServingHostname(d.current, h) == Serving(d.current, h, target)
  {
    OpenMember(d, target, h);
  }

  /** What the election counts for a class is exactly the hosts whose looked-up listener would change. */
  lemma ChurnIsRerouting(d: Demand, target: string, key: string)
    requires OpenGroup(d, target)
    ensures Moved(d, target, key) == Rerouted(d, target, key)
  {
    forall h | h in Group(d, target) ensures h in Moved(d, target, key) <==> h in Rerouted(d, target, key) {
      LookedUp(d, target, h);
    }
  }

  /** For the elected class these are the hosts that the plan's own listeners take from another one. */
  lemma ElectedReroutes(d: Demand, target: string)
    requires Plain(d) && OpenGroup(d, target)
    ensures forall h :: h in Rerouted(d, target, Elected(d, target)) <==>
              h in Group(d, target) && ServingHostname(d.current, h).Some? &&
              ServingHostname(d.current, h) != Some(ListenerOf(d, h))
  {
    forall h | h in Group(d, target) ensures ListenerOf(d, h) == ListenerIf(d, target, Elected(d, target), h) {
      ElectedListener(d, target, h);
    }
  }

  /** No class would reroute fewer hosts than the elected one. */
  lemma ElectedReroutesFewest(d: Demand, target: string, other: string)
    requires Plain(d) && OpenGroup(d, target) && other in ClassKeys(d, target)
    ensures |Rerouted(d, target, Elected(d, target))| <= |Rerouted(d, target, other)|
  {
    var w := Elected(d, target);
    ChurnIsRerouting(d, target, w);
    ChurnIsRerouting(d, target, other);
    if other != w {
      assert Beats(d, target, w, other);
      BeatsByChurn(d, target, w, other);
    }
  }

  /** a reroutes fewer hosts than b, or as many and has more hosts, or as many of these and the first Secret. */
  ghost predicate Preferable(d: Demand, target: string, a: string, b: string)
    requires Plain(d) && a in ClassKeys(d, target) && b in ClassKeys(d, target)
  {
    || |Rerouted(d, target, a)| < |Rerouted(d, target, b)|
    || (|Rerouted(d, target, a)| == |Rerouted(d, target, b)| && WinsTie(d, target, a, b))
  }

  lemma BeatsIsPreferable(d: Demand, target: string, a: string, b: string)
    requires Plain(d) && OpenGroup(d, target) && a in ClassKeys(d, target) && b in ClassKeys(d, target)
    ensures Beats(d, target, a, b) <==> Preferable(d, target, a, b)
  {
    ChurnIsRerouting(d, target, a);
    ChurnIsRerouting(d, target, b);
    BeatsByChurn(d, target, a, b);
  }

  /** The elected class is the one preferable to every other. */
  lemma ElectedExactly(d: Demand, target: string, key: string)
    requires Plain(d) && OpenGroup(d, target) && key in ClassKeys(d, target)
    ensures key == Elected(d, target) <==>
            forall other | other in ClassKeys(d, target) && other != key :: Preferable(d, target, key, other)
  {
    forall other | other in ClassKeys(d, target) && other != key
      ensures Beats(d, target, key, other) <==> Preferable(d, target, key, other)
    {
      BeatsIsPreferable(d, target, key, other);
    }
    if forall other | other in ClassKeys(d, target) && other != key :: Preferable(d, target, key, other) {
      assert Best(d, target, ClassKeys(d, target), key);
      assert Wins(d, target, key);
      WinnerUnique(d, target, key, Elected(d, target));
    }
  }
}
