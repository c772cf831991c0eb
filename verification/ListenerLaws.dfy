// What becomes of one listener: whom it serves, the Secret it carries and the parent it inherits,
// said of the declared hosts, their certificates and the previous placement alone.
module ListenerLaws {
  import opened Text
  import opened Sorting
  import opened Model
  import opened Election
  import opened Placing
  import opened PlacingLaws
  import opened Planner
  import opened PlannerLaws

  // ---------- The wildcard one label up ----------

  /** host is first.rest, and wild is *.rest. */
  predicate OneLabelUp(host: string, wild: string, first: string, rest: string) {
    && first != "" && '.' !in first && rest != ""
    && host == first + "." + rest && wild == "*." + rest && !IsWildcard(host)
  }

  lemma {:induction false} DotAfter(first: string, rest: string)
    requires '.' !in first
    ensures FirstDot(first + "." + rest) == |first|
  {
    var s := first + "." + rest;
    if first != "" {
      assert s[0] == first[0] && first[0] in first;
      assert s[1..] == first[1..] + "." + rest;
      DotAfter(first[1..], rest);
    }
  }

  lemma ParentIsOneUp(host: string, wild: string, first: string, rest: string)
    requires OneLabelUp(host, wild, first, rest)
    ensures WildcardParent(host) == Some(wild)
  {
    DotAfter(first, rest);
    assert host[|first|..] == "." + rest;
    assert "*" + ("." + rest) == wild;
  }

  lemma ParentLabel(host: string) returns (first: string, rest: string)
    requires WildcardParent(host).Some?
    ensures OneLabelUp(host, WildcardParent(host).value, first, rest)
  {
    var dot := FirstDot(host);
    first, rest := host[..dot], host[dot + 1..];
    assert host == first + "." + rest;
    assert host[dot..] == "." + rest;
  }

  /** A host has the wildcard one label up as its parent, and no other. */
  lemma WildcardParentExactly(host: string, wild: string)
    ensures WildcardParent(host) == Some(wild) <==> exists first, rest :: OneLabelUp(host, wild, first, rest)
  {
    if first, rest :| OneLabelUp(host, wild, first, rest) {
      ParentIsOneUp(host, wild, first, rest);
    }
    if WildcardParent(host) == Some(wild) {
      var first, rest := ParentLabel(host);
    }
  }

  // ---------- Whom a listener serves ----------

  /** The host's certificate is parsed and names the wildcard one label up. */
  predicate Collapses(d: Demand, host: string, wild: string)
    requires host in d.owner
  {
    && WildcardParent(host) == Some(wild) && d.certificates.Some? && d.owner[host] in d.certificates.value
    && wild in d.certificates.value[d.owner[host]].wildcardSANs
  }

  /** Grouped under a wildcard are the hosts whose certificate names it and the wildcard itself. */
  lemma GroupExactly(d: Demand, host: string, wild: string)
    requires host in d.owner && IsWildcard(wild)
    ensures host in Group(d, wild) <==> host == wild || Collapses(d, host, wild)
  {
  }

  predicate SameChain(d: Demand, a: NamespacedName, b: NamespacedName) {
    a == b ||
    (d.certificates.Some? && a in d.certificates.value && b in d.certificates.value &&
     d.certificates.value[a].fingerprint == d.certificates.value[b].fingerprint != "")
  }

  /** Secrets are in one class exactly when they are one or their certificates have one chain. */
  lemma SameClassExactly(d: Demand, a: NamespacedName, b: NamespacedName)
    requires PlainNamespace(a) && PlainNamespace(b)
    ensures ClassKey(d.certificates, a) == ClassKey(d.certificates, b) <==> SameChain(d, a, b)
  {
    if ClassKey(d.certificates, a) == ClassKey(d.certificates, b) {
      SameClass(d.certificates, a, b);
      var ka, kb := ClassKey(d.certificates, a), ClassKey(d.certificates, b);
      if ka[0] == 's' {
        assert ka[7..] == Slashed(a) && kb[7..] == Slashed(b);
        SlashedInjective(a, b);
      }
    }
  }

  /** A host whose certificate names its wildcard is served by that wildcard exactly when its class is elected
      for it; any other host has a listener of its own. */
  lemma ServedByWildcard(d: Demand, host: string, wild: string)
    requires Plain(d) && host in d.owner
    ensures Collapses(d, host, wild) ==>
              Group(d, wild) != {} && (ListenerOf(d, host) == wild <==> KeyOf(d, host) == Elected(d, wild))
    ensures Collapses(d, host, wild) ==> ListenerOf(d, host) in {host, wild}
    ensures (forall w :: !Collapses(d, host, w)) ==> ListenerOf(d, host) == host
  {
    if Collapses(d, host, wild) {
      GroupExactly(d, host, wild);
    }
    if forall w :: !Collapses(d, host, w) {
      if WildcardParent(host).Some? {
        assert !Collapses(d, host, WildcardParent(host).value);
      }
    }
  }

  /** Hosts under one wildcard that share a chain all share its listener, whatever was before; a literal
      declaration of the wildcard decides for its own chain. */
  lemma OneChainCollapses(d: Demand, wild: string, host: string)
    requires Plain(d) && host in d.owner && Collapses(d, host, wild)
    requires forall h | h in d.owner && (h == wild || Collapses(d, h, wild)) :: SameChain(d, d.owner[h], d.owner[host])
    ensures ListenerOf(d, host) == wild
  {
    ServedByWildcard(d, host, wild);
    var key := Elected(d, wild);
    var h :| h in Group(d, wild) && KeyOf(d, h) == key;
    GroupExactly(d, h, wild);
    SameClassExactly(d, d.owner[h], d.owner[host]);
  }

  lemma LiteralDecides(d: Demand, wild: string, host: string)
    requires Plain(d) && host in d.owner && Collapses(d, host, wild) && wild in d.owner
    ensures ListenerOf(d, host) == wild <==> SameChain(d, d.owner[host], d.owner[wild])
    ensures ListenerOf(d, wild) == wild
  {
    ServedByWildcard(d, host, wild);
    GroupExactly(d, wild, wild);
    assert Pinned(d, wild);
    SameClassExactly(d, d.owner[host], d.owner[wild]);
  }

  // ---------- The Secret of a listener ----------

  ghost predicate Serves(d: Demand, x: string, host: string)
    requires Plain(d)
  {
    host in d.owner && ListenerOf(d, host) == x
  }

  lemma ServedIsClass(d: Demand, x: string)
    requires Plain(d) && x in Listeners(d) && IsWildcard(x)
    ensures Group(d, x) != {} && forall h :: h in ClassHosts(d, x, Elected(d, x)) <==> Serves(d, x, h)
  {
    ListenerShape(d, x);
    forall h ensures h in Served(d, x) <==> Serves(d, x, h) {}
  }

  /** A standing wildcard listener keeps its Secret as long as a host it serves has it. */
  lemma KeepsSecret(d: Demand, x: string, host: string)
    requires Plain(d) && IsWildcard(x) && Serves(d, x, host)
    requires x in d.current && d.owner[host] == d.current[x].secret
    ensures x in Listeners(d) && SecretFor(d, x) == d.current[x].secret
  {
    ServedIsClass(d, x);
    assert host in ClassHosts(d, x, Elected(d, x));
  }

  /** Otherwise it takes the first of its hosts' Secrets; an exact listener takes its host's. */
  lemma TakesFirstSecret(d: Demand, x: string, host: string)
    requires Plain(d) && Serves(d, x, host)
    requires IsWildcard(x) && x in d.current ==> forall h | Serves(d, x, h) :: d.owner[h] != d.current[x].secret
    ensures x in Listeners(d) && exists h :: Serves(d, x, h) && d.owner[h] == SecretFor(d, x)
    ensures d.owner[host] == SecretFor(d, x) || Less(Slashed(SecretFor(d, x)), Slashed(d.owner[host]))
  {
    if IsWildcard(x) {
      FirstIsLeastSecret(d, x, host);
    } else {
      ListenerShape(d, x);
      assert host in Served(d, x);
    }
  }

  lemma FirstIsLeastSecret(d: Demand, x: string, host: string)
    requires Plain(d) && Serves(d, x, host) && IsWildcard(x)
    requires x in d.current ==> forall h | Serves(d, x, h) :: d.owner[h] != d.current[x].secret
    ensures x in Listeners(d) && exists h :: Serves(d, x, h) && d.owner[h] == SecretFor(d, x)
    ensures d.owner[host] == SecretFor(d, x) || Less(Slashed(SecretFor(d, x)), Slashed(d.owner[host]))
  {
    assert x in Listeners(d);
    ServedIsClass(d, x);
    var key := Elected(d, x);
    var secrets := ClassSecrets(d, x, key);
    KeyHasHosts(d, x, key);
    FirstSecretExists(d, x, key);
    assert SecretFor(d, x) == FirstSecret(d, x, key);
    assert host in ClassHosts(d, x, key);
    FirstIsLeastName(secrets, d.owner[host]);
    var h :| h in ClassHosts(d, x, key) && d.owner[h] == SecretFor(d, x);
    assert Serves(d, x, h);
  }

  lemma FirstIsLeastName(s: set<NamespacedName>, n: NamespacedName)
    requires n in s && forall m | m in s :: PlainNamespace(m)
    ensures SortedNames(s) != [] && (SortedNames(s)[0] == n || Less(Slashed(SortedNames(s)[0]), Slashed(n)))
  {
    var xs := SortedNames(s);
    assert n in xs;
    var i :| 0 <= i < |xs| && xs[i] == n;
  }

  // ---------- The parent a new listener inherits ----------

  /** y is the relative of the listener x with a previous placement: for a wildcard the least of its hosts that
      has one, for a host the wildcard one label up. */
  ghost predicate Relative(l: ProjectedListener, current: map<string, Placement>, y: string) {
    y in current &&
    if IsWildcard(l.hostname) then
      y in l.hosts && y != l.hostname &&
      forall z | z in l.hosts && z != l.hostname && z in current :: z == y || Less(y, z)
    else exists first, rest :: OneLabelUp(l.hostname, y, first, rest)
  }

  lemma {:induction false} FirstPlacedMeans(members: seq<string>, i: nat, hostname: string, current: map<string, Placement>,
                                            y: string)
    requires i <= |members| && Ascending(StringKey, members) && y in members[i..] && y != hostname && y in current
    requires forall z | z in members[i..] && z != hostname && z in current :: z == y || Less(y, z)
    ensures FirstPlaced(members, i, hostname, current) == Some(current[y].listenerSet)
    decreases |members| - i
  {
    if members[i] != y {
      assert members[i..] == [members[i]] + members[i + 1..];
      var k :| i < k < |members| && members[k] == y;
      LessTotal(members[i], y);
      FirstPlacedMeans(members, i + 1, hostname, current, y);
    }
  }

  lemma {:induction false} NonePlaced(members: seq<string>, i: nat, hostname: string, current: map<string, Placement>)
    requires i <= |members| && forall z | z in members[i..] :: z == hostname || z !in current
    ensures FirstPlaced(members, i, hostname, current) == None
    decreases |members| - i
  {
    if i < |members| {
      assert members[i..] == [members[i]] + members[i + 1..];
      NonePlaced(members, i + 1, hostname, current);
    }
  }

  /** What a listener inherits is the parent of its relative. */
  lemma InheritsFromRelative(l: ProjectedListener, current: map<string, Placement>, y: string)
    requires Relative(l, current, y)
    ensures InheritedIndex(l, current) == Some(current[y].listenerSet)
  {
    if IsWildcard(l.hostname) {
      var members := SortedStrings(Elements(l.hosts));
      assert members[0..] == members;
      FirstPlacedMeans(members, 0, l.hostname, current, y);
    } else {
      WildcardParentExactly(l.hostname, y);
    }
  }

  lemma {:induction false} FirstPlacedIsLeast(members: seq<string>, i: nat, hostname: string, current: map<string, Placement>)
    returns (y: string)
    requires i <= |members| && Ascending(StringKey, members) && FirstPlaced(members, i, hostname, current).Some?
    ensures y in members[i..] && y != hostname && y in current
    ensures FirstPlaced(members, i, hostname, current) == Some(current[y].listenerSet)
    ensures forall z | z in members[i..] && z != hostname && z in current :: z == y || Less(y, z)
    decreases |members| - i
  {
    y := members[i];
    if y == hostname || y !in current {
      y := FirstPlacedIsLeast(members, i + 1, hostname, current);
      assert members[i..] == [members[i]] + members[i + 1..];
    } else {
      forall z | z in members[i..] ensures z == y || Less(y, z) {
        var k :| i <= k < |members| && members[k] == z;
      }
    }
  }

  /** A listener inherits a parent exactly when it has a relative, and then the relative's. */
  lemma InheritedExactly(l: ProjectedListener, current: map<string, Placement>, index: int)
    ensures InheritedIndex(l, current) == Some(index) <==>
            exists y :: Relative(l, current, y) && current[y].listenerSet == index
  {
    if y :| Relative(l, current, y) && current[y].listenerSet == index {
      InheritsFromRelative(l, current, y);
    }
    if InheritedIndex(l, current) == Some(index) {
      if IsWildcard(l.hostname) {
        var members := SortedStrings(Elements(l.hosts));
        assert members[0..] == members;
        var y := FirstPlacedIsLeast(members, 0, l.hostname, current);
        assert Relative(l, current, y);
      } else {
        var y := WildcardParent(l.hostname).value;
        WildcardParentExactly(l.hostname, y);
        assert Relative(l, current, y);
      }
    }
  }

  // ---------- The same of a plan ----------

  /** y is the previously placed relative of x: for a wildcard the least host it serves that was placed, for a host
      the wildcard one label up. */
  ghost predicate Kin(d: Demand, x: string, y: string)
    requires Plain(d)
  {
    y in d.current &&
    if IsWildcard(x) then
      Serves(d, x, y) && y != x && forall z | Serves(d, x, z) && z != x && z in d.current :: z == y || Less(y, z)
    else exists first, rest :: OneLabelUp(x, y, first, rest)
  }

  lemma KinIsRelative(d: Demand, x: string, y: string)
    requires Plain(d) && x in Listeners(d)
    ensures Kin(d, x, y) <==> Relative(Projected(d, x), d.current, y)
  {
    forall h ensures h in Projected(d, x).hosts <==> Serves(d, x, h) {
      assert h in Served(d, x) <==> Serves(d, x, h);
    }
  }

  /** A new listener takes the parent of its placed relative, unless that parent ends up full. */
  lemma TakesParentOfKin(d: Demand, overflow: bool, x: string, y: string)
    requires Plain(d) && x in Listeners(d) && x !in d.current
    requires Kin(d, x, y) && Usable(d.current[y].listenerSet, overflow)
    ensures var p, index := PlacementsOf(d, overflow), d.current[y].listenerSet;
            (x in p && p[x].listenerSet == index) || |Held(p, index)| == Capacity(index)
  {
    var ls := InOrder(d);
    KinIsRelative(d, x, y);
    InOrderDistinct(d);
    assert Projected(d, x) in Elements(ls);
    var j :| 0 <= j < |ls| && ls[j] == Projected(d, x);
    InheritsFromRelative(ls[j], d.current, y);
    InheritsUnlessFull(ls, j, d.current, overflow);
    PlacedAreListeners(d, overflow);
    PlacementSound(ls, d.current, overflow);
    HeldIsAt(d, overflow, d.current[y].listenerSet);
  }
}
