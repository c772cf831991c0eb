// Grouping the collected hosts and projecting every group onto its listeners.
module Projecting {
  import opened Text
  import opened Sorting
  import opened Model
  import opened Collect
  import opened Election
  import opened Resolve

  ghost function Targets(d: Demand): set<string> {
    set h | h in d.owner :: Target(d, h)
  }

  /** The members of a group among the hosts handled so far. */
  ghost function GroupAmong(d: Demand, target: string, done: set<string>): set<string> {
    Group(d, target) * done
  }

  ghost predicate GroupedAmong(d: Demand, groups: map<string, seq<Claim>>, done: set<string>) {
    && (forall t | t in groups :: ClaimsOf(d, GroupAmong(d, t, done), groups[t]))
    && (forall t :: t in groups <==> GroupAmong(d, t, done) != {})
  }

  lemma GroupedStep(d: Demand, groups: map<string, seq<Claim>>, done: set<string>, host: string)
    requires GroupedAmong(d, groups, done) && host in d.owner && host !in done
    ensures var target := Target(d, host);
            var before := if target in groups then groups[target] else [];
            GroupedAmong(d, groups[target := before + [ClaimOf(d, host)]], done + {host})
  {
    var target := Target(d, host);
    var before := if target in groups then groups[target] else [];
    var after := groups[target := before + [ClaimOf(d, host)]];
    assert GroupAmong(d, target, done + {host}) == GroupAmong(d, target, done) + {host};
    ClaimsOfSnoc(d, GroupAmong(d, target, done), before, host);
    forall t | t != target ensures GroupAmong(d, t, done + {host}) == GroupAmong(d, t, done) {}
  }

  lemma ClaimsOfSnoc(d: Demand, hosts: set<string>, claims: seq<Claim>, host: string)
    requires hosts <= d.owner.Keys && host in d.owner && host !in hosts && ClaimsOf(d, hosts, claims)
    ensures ClaimsOf(d, hosts + {host}, claims + [ClaimOf(d, host)])
  {
    forall i | 0 <= i < |claims| ensures claims[i] != ClaimOf(d, host) {
      assert claims[i] in claims;
    }
  }

  /** One round of the grouping loop. */
  method AddToGroup(ghost d: Demand, groups: map<string, seq<Claim>>, ghost done: set<string>, host: string,
                    secret: NamespacedName, certificates: Certificates)
    returns (grown: map<string, seq<Claim>>)
    requires GroupedAmong(d, groups, done) && host in d.owner && host !in done
    requires secret == d.owner[host] && certificates == d.certificates
    ensures GroupedAmong(d, grown, done + {host})
  {
    var pinned := IsWildcard(host);
    var target := TargetOf(certificates, host, secret);
    GroupedStep(d, groups, done, host);
    var before := if target in groups then groups[target] else [];
    grown := groups[target := before + [Claim(host, secret, pinned)]];
  }

  method GroupAll(ghost d: Demand, hosts: seq<string>, owners: map<string, Owner>, certificates: Certificates)
    returns (groups: map<string, seq<Claim>>)
    requires Owns(d, owners) && certificates == d.certificates
    requires NoDuplicates(hosts) && Elements(hosts) <= owners.Keys
    ensures GroupedAmong(d, groups, Elements(hosts))
  {
    groups := map[];
    NothingGrouped(d);
    for i := 0 to |hosts|
      invariant GroupedAmong(d, groups, FirstN(hosts, i))
    {
      FirstNFresh(hosts, i);
      var secret := SecretOf(d, owners, hosts, i);
      groups := AddToGroup(d, groups, FirstN(hosts, i), hosts[i], secret, certificates);
    }
    FirstNAll(hosts);
  }

  ghost predicate Owns(d: Demand, owners: map<string, Owner>) {
    owners.Keys == d.owner.Keys && forall h | h in owners :: owners[h].secret == d.owner[h]
  }

  method SecretOf(ghost d: Demand, owners: map<string, Owner>, hosts: seq<string>, i: nat) returns (secret: NamespacedName)
    requires Owns(d, owners) && i < |hosts| && Elements(hosts) <= owners.Keys
    ensures hosts[i] in d.owner && secret == d.owner[hosts[i]]
  {
    assert hosts[i] in Elements(hosts);
    secret := owners[hosts[i]].secret;
  }

  method GroupHosts(ghost d: Demand, owners: map<string, Owner>, certificates: Certificates)
    returns (groups: map<string, seq<Claim>>, targets: seq<string>)
    requires Owns(d, owners) && certificates == d.certificates
    ensures groups.Keys == Targets(d) && targets == SortedStrings(Targets(d))
    ensures forall t | t in groups :: Represents(d, t, groups[t])
  {
    var hosts := SortStringSet(owners.Keys);
    groups := GroupAll(d, hosts, owners, certificates);
    AllGrouped(d, groups);
    targets := SortStringSet(groups.Keys);
  }

  lemma NothingGrouped(d: Demand)
    ensures GroupedAmong(d, map[], {})
  {
    forall t ensures GroupAmong(d, t, {}) == {} {}
  }

  lemma AllGrouped(d: Demand, groups: map<string, seq<Claim>>)
    requires GroupedAmong(d, groups, d.owner.Keys)
    ensures groups.Keys == Targets(d)
    ensures forall t | t in groups :: Represents(d, t, groups[t])
  {
    forall t ensures GroupAmong(d, t, d.owner.Keys) == Group(d, t) {}
    forall t ensures t in groups <==> t in Targets(d) {
      if t in Targets(d) {
        TargetHasGroup(d, t);
      }
      if t in groups {
        var h :| h in Group(d, t);
      }
    }
  }

  // ---------- The listeners of one target ----------

  ghost function ListenersOf(d: Demand, target: string): set<string>
    requires Plain(d)
  {
    set h | h in Group(d, target) :: ListenerOf(d, h)
  }

  lemma ListenersOfAreListeners(d: Demand, target: string)
    requires Plain(d)
    ensures ListenersOf(d, target) <= Listeners(d)
  {
  }

  ghost function ProjectedOf(d: Demand, names: set<string>): set<ProjectedListener>
    requires Plain(d) && names <= Listeners(d)
  {
    set x | x in names :: Projected(d, x)
  }

  /** Hosts that share a listener share a target: the projection never merges two groups. */
  lemma SameListenerSameTarget(d: Demand, a: string, b: string)
    requires Plain(d) && a in d.owner && b in d.owner && ListenerOf(d, a) == ListenerOf(d, b)
    ensures Target(d, a) == Target(d, b)
  {
    if IsWildcard(ListenerOf(d, a)) {
      WildcardIsElected(d, a);
      WildcardIsElected(d, b);
    }
  }

  lemma ExactProjected(d: Demand, host: string)
    requires Plain(d) && host in d.owner && ListenerOf(d, host) == host && !IsWildcard(host)
    ensures host in Listeners(d) && Projected(d, host) == Exact(d, host)
  {
    ListenerShape(d, host);
    SingletonSorted(host);
  }

  lemma SingletonSorted(x: string)
    ensures SortedStrings({x}) == [x]
  {
    assert Elements([x]) == {x};
    AscendingUnique(StringKey, SortedStrings({x}), [x]);
  }

  lemma WinnerProjected(d: Demand, target: string)
    requires Plain(d) && Group(d, target) != {} && IsWildcard(target)
    ensures target in ListenersOf(d, target) && target in Listeners(d)
    ensures Projected(d, target) == ProjectedListener(target, Canonical(d, target),
                                                      SortedStrings(ClassHosts(d, target, Elected(d, target))))
  {
    KeyHasHosts(d, target, Elected(d, target));
    var h :| h in ClassHosts(d, target, Elected(d, target));
    assert ListenerOf(d, h) == target;
    ListenerShape(d, target);
  }

  lemma FallbackProjected(d: Demand, target: string, host: string)
    requires Plain(d) && host in Group(d, target) && IsWildcard(target) && KeyOf(d, host) != Elected(d, target)
    ensures ListenerOf(d, host) == host && !IsWildcard(host)
    ensures host in Listeners(d) && Projected(d, host) == Exact(d, host)
  {
    if IsWildcard(host) {
      WildcardIsElected(d, host);
      assert false;
    }
    ExactProjected(d, host);
  }

  /** The code's listeners of one target are the specification's. */
  method ProjectTarget(ghost d: Demand, target: string, claims: seq<Claim>, certificates: Certificates,
                       current: map<string, Placement>)
    returns (ls: seq<ProjectedListener>)
    requires Plain(d) && Group(d, target) != {} && Represents(d, target, claims)
    requires certificates == d.certificates && current == d.current
    ensures NoDuplicates(ls) && ListenersOf(d, target) <= Listeners(d)
    ensures Elements(ls) == ProjectedOf(d, ListenersOf(d, target))
  {
    ListenersOfAreListeners(d, target);
    if !IsWildcard(target) {
      ExactTarget(d, target, claims);
      ls := [ProjectedListener(target, claims[0].secret, [claims[0].host])];
      return;
    }
    var winner, fallbacks := ResolveWildcardGroup(d, target, claims, certificates, current);
    ls := [winner] + fallbacks;
    GroupListeners(d, target, winner, fallbacks);
  }

  lemma ExactTarget(d: Demand, target: string, claims: seq<Claim>)
    requires Plain(d) && Group(d, target) != {} && Represents(d, target, claims) && !IsWildcard(target)
    requires ListenersOf(d, target) <= Listeners(d)
    ensures |claims| == 1
    ensures Elements([ProjectedListener(target, claims[0].secret, [claims[0].host])]) == ProjectedOf(d, ListenersOf(d, target))
  {
    var h :| h in Group(d, target);
    assert h == target;
    assert Group(d, target) == {target};
    assert ClaimOf(d, target) in claims;
    forall i | 0 <= i < |claims| ensures claims[i] == ClaimOf(d, target) {
      assert claims[i] in claims;
    }
    NoDuplicatesLength(claims);
    assert Elements(claims) == {ClaimOf(d, target)};
    assert ListenersOf(d, target) == {target};
    ExactProjected(d, target);
  }

  lemma GroupListeners(d: Demand, target: string, winner: ProjectedListener, fallbacks: seq<ProjectedListener>)
    requires Plain(d) && Group(d, target) != {} && IsWildcard(target) && ListenersOf(d, target) <= Listeners(d)
    requires winner == ProjectedListener(target, Canonical(d, target),
                                         SortedStrings(ClassHosts(d, target, Elected(d, target))))
    requires forall l | l in fallbacks ::
               l.hostname in Group(d, target) && KeyOf(d, l.hostname) != Elected(d, target) && l == Exact(d, l.hostname)
    requires forall h | h in Group(d, target) && KeyOf(d, h) != Elected(d, target) :: Exact(d, h) in fallbacks
    requires Ascending(HostnameKey, fallbacks)
    ensures NoDuplicates([winner] + fallbacks)
    ensures Elements([winner] + fallbacks) == ProjectedOf(d, ListenersOf(d, target))
  {
    WinnerProjected(d, target);
    AscendingNoDuplicates(HostnameKey, fallbacks);
    forall l | l in fallbacks
      ensures l != winner && l.hostname in ListenersOf(d, target) && l == Projected(d, l.hostname)
    {
      FallbackProjected(d, target, l.hostname);
    }
    assert NoDuplicates([winner] + fallbacks) by {
      forall j | 0 <= j < |fallbacks| ensures fallbacks[j] != winner {
        assert fallbacks[j] in fallbacks;
      }
    }
    forall x | x in ListenersOf(d, target) ensures Projected(d, x) in [winner] + fallbacks {
      var h :| h in Group(d, target) && ListenerOf(d, h) == x;
      if KeyOf(d, h) != Elected(d, target) {
        FallbackProjected(d, target, h);
        assert Exact(d, h) in fallbacks;
      }
    }
  }

  // ---------- All targets ----------

  ghost function ListenersAmong(d: Demand, targets: set<string>): set<string>
    requires Plain(d)
  {
    set h | h in d.owner && Target(d, h) in targets :: ListenerOf(d, h)
  }

  method ProjectGroups(ghost d: Demand, groups: map<string, seq<Claim>>, targets: seq<string>,
                       certificates: Certificates, current: map<string, Placement>)
    returns (projected: seq<ProjectedListener>)
    requires Plain(d) && groups.Keys == Targets(d) && targets == SortedStrings(Targets(d))
    requires forall t | t in groups :: Represents(d, t, groups[t])
    requires certificates == d.certificates && current == d.current
    ensures NoDuplicates(projected)
    ensures Elements(projected) == ProjectedOf(d, Listeners(d))
  {
    projected := [];
    for i := 0 to |targets|
      invariant NoDuplicates(projected)
      invariant ListenersAmong(d, FirstN(targets, i)) <= Listeners(d)
      invariant Elements(projected) == ProjectedOf(d, ListenersAmong(d, FirstN(targets, i)))
    {
      var target := targets[i];
      FirstNFresh(targets, i);
      assert target in targets;
      TargetHasGroup(d, target);
      var ls := ProjectTarget(d, target, groups[target], certificates, current);
      JoinTarget(d, FirstN(targets, i), target, projected, ls);
      projected := projected + ls;
    }
    FirstNAll(targets);
    AllTargets(d);
  }

  lemma AllTargets(d: Demand)
    requires Plain(d)
    ensures ListenersAmong(d, Targets(d)) == Listeners(d)
  {
    forall h | h in d.owner ensures Target(d, h) in Targets(d) {}
  }

  lemma TargetHasGroup(d: Demand, target: string)
    requires target in Targets(d)
    ensures Group(d, target) != {}
  {
    var h :| h in d.owner && Target(d, h) == target;
    assert h in Group(d, target);
  }

  lemma JoinTarget(d: Demand, done: set<string>, target: string, projected: seq<ProjectedListener>, ls: seq<ProjectedListener>)
    requires Plain(d) && target !in done
    requires ListenersAmong(d, done) <= Listeners(d) && ListenersOf(d, target) <= Listeners(d)
    requires NoDuplicates(projected) && Elements(projected) == ProjectedOf(d, ListenersAmong(d, done))
    requires NoDuplicates(ls) && Elements(ls) == ProjectedOf(d, ListenersOf(d, target))
    ensures NoDuplicates(projected + ls)
    ensures ListenersAmong(d, done + {target}) <= Listeners(d)
    ensures Elements(projected + ls) == ProjectedOf(d, ListenersAmong(d, done + {target}))
  {
    TargetsDisjoint(d, done, target);
    forall l | l in ls ensures l.hostname in ListenersOf(d, target) {
      assert l in Elements(ls);
    }
    forall l | l in projected ensures l.hostname in ListenersAmong(d, done) {
      assert l in Elements(projected);
    }
    forall l | l in projected ensures l !in ls {
      assert l.hostname !in ListenersAmong(d, done) * ListenersOf(d, target);
    }
    JoinDistinct(projected, ls);
    ListenersAmongStep(d, done, target);
    ElementsJoin(projected, ls);
  }

  lemma TargetsDisjoint(d: Demand, done: set<string>, target: string)
    requires Plain(d) && target !in done
    ensures ListenersAmong(d, done) * ListenersOf(d, target) == {}
  {
    forall a, b | a in d.owner && Target(d, a) in done && b in Group(d, target) ensures ListenerOf(d, a) != ListenerOf(d, b) {
      if ListenerOf(d, a) == ListenerOf(d, b) {
        SameListenerSameTarget(d, a, b);
      }
    }
  }

  lemma ListenersAmongStep(d: Demand, done: set<string>, target: string)
    requires Plain(d)
    ensures ListenersAmong(d, done + {target}) == ListenersAmong(d, done) + ListenersOf(d, target)
  {
    forall h | h in Group(d, target) ensures ListenerOf(d, h) in ListenersAmong(d, done + {target}) {}
    forall h | h in d.owner && Target(d, h) in done + {target}
      ensures ListenerOf(d, h) in ListenersAmong(d, done) + ListenersOf(d, target)
    {
      if Target(d, h) == target {
        assert h in Group(d, target);
      }
    }
  }

  lemma ElementsJoin<T>(a: seq<T>, b: seq<T>)
    ensures Elements(a + b) == Elements(a) + Elements(b)
  {
    assert forall x :: x in a + b <==> x in a || x in b;
  }
}
