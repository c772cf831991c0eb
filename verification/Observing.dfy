// observedListenerPlacements: rebuilding the listener placement from the objects
// found in the cluster, and the round trip with emission.
module Observing {
  import opened Text
  import opened Model
  import opened Planner

  /** A ReferenceGrant for one Secret; managed says that it carries the bridge's label. */
  datatype CertificateGrant = CertificateGrant(managed: bool, toListenerSets: bool)

  type Grants = map<NamespacedName, CertificateGrant>

  /** The objects of one Gateway as the API server holds them; sets and grants by key. */
  datatype Cluster = Cluster(gateway: Option<Gateway>, sets: map<string, ListenerSet>, grants: Grants)

  // ---------- One parent's listeners ----------

  /** An HTTPS listener on port 443 with a hostname and at least one certificate reference. */
  predicate Recordable(l: Listener) {
    l.protocol == HTTPS && l.port == 443 && l.hostname.Some? && l.certificateRefs.Some? && |l.certificateRefs.value| > 0
  }

  function ReferencedSecret(ns: string, l: Listener): NamespacedName
    requires Recordable(l)
  {
    var ref := l.certificateRefs.value[0];
    NamespacedName(if ref.ns.Some? && ref.ns.value != "" then ref.ns.value else ns, ref.name)
  }

  /** The Secret of the first recordable listener for host among the first n. */
  function Recorded(ns: string, listeners: seq<Listener>, n: nat, host: string): Option<NamespacedName>
    requires n <= |listeners|
  {
    if n == 0 then None
    else
      var before := Recorded(ns, listeners, n - 1, host);
      var l := listeners[n - 1];
      if before.Some? then before
      else if Recordable(l) && l.hostname.value == host then Some(ReferencedSecret(ns, l))
      else None
  }

  function RecordedAll(ns: string, listeners: seq<Listener>, host: string): Option<NamespacedName> {
    Recorded(ns, listeners, |listeners|, host)
  }

  function RecordableHosts(listeners: seq<Listener>, n: nat): set<string>
    requires n <= |listeners|
  {
    if n == 0 then {}
    else
      var before := RecordableHosts(listeners, n - 1);
      if Recordable(listeners[n - 1]) then before + {listeners[n - 1].hostname.value} else before
  }

  lemma {:induction false} RecordedHosts(ns: string, listeners: seq<Listener>, n: nat, host: string)
    requires n <= |listeners|
    ensures Recorded(ns, listeners, n, host).Some? <==> host in RecordableHosts(listeners, n)
  {
    if n > 0 {
      RecordedHosts(ns, listeners, n - 1, host);
    }
  }

  /** placements after recording the first n listeners of parent index; a lower index wins. */
  ghost function Merged(placements: map<string, Placement>, ns: string, index: int, listeners: seq<Listener>, n: nat)
    : map<string, Placement>
    requires n <= |listeners|
  {
    map host | host in placements.Keys + RecordableHosts(listeners, n) ::
      var found := Recorded(ns, listeners, n, host);
      if found.Some? && (host !in placements || index < placements[host].listenerSet)
      then Placement(index, found.value)
      else if host in placements then placements[host]
      else Placement(index, NamespacedName("", ""))
  }

  method RecordObservedListeners(placements0: map<string, Placement>, parentNamespace: string, index: int,
                                 listeners: seq<Listener>)
    returns (placements: map<string, Placement>)
    ensures placements == Merged(placements0, parentNamespace, index, listeners, |listeners|)
  {
    placements := placements0;
    for i := 0 to |listeners|
      invariant placements == Merged(placements0, parentNamespace, index, listeners, i)
    {
      var l := listeners[i];
      if l.protocol != HTTPS || l.port != 443 || l.hostname.None? || l.certificateRefs.None? || |l.certificateRefs.value| == 0 {
        MergedSkip(placements0, parentNamespace, index, listeners, i);
        continue;
      }
      var ref := l.certificateRefs.value[0];
      var secretNamespace := parentNamespace;
      if ref.ns.Some? && ref.ns.value != "" {
        secretNamespace := ref.ns.value;
      }
      var hostname := l.hostname.value;
      var placement := Placement(index, NamespacedName(secretNamespace, ref.name));
      MergedRecord(placements0, parentNamespace, index, listeners, i);
      if hostname !in placements || index < placements[hostname].listenerSet {
        placements := placements[hostname := placement];
      }
    }
  }

  lemma MergedSkip(placements: map<string, Placement>, ns: string, index: int, listeners: seq<Listener>, i: nat)
    requires i < |listeners| && !Recordable(listeners[i])
    ensures Merged(placements, ns, index, listeners, i + 1) == Merged(placements, ns, index, listeners, i)
  {
    forall host ensures Recorded(ns, listeners, i + 1, host) == Recorded(ns, listeners, i, host) {}
  }

  lemma MergedRecord(placements: map<string, Placement>, ns: string, index: int, listeners: seq<Listener>, i: nat)
    requires i < |listeners| && Recordable(listeners[i])
    ensures var before := Merged(placements, ns, index, listeners, i);
            var hostname := listeners[i].hostname.value;
            Merged(placements, ns, index, listeners, i + 1) ==
            if hostname !in before || index < before[hostname].listenerSet
            then before[hostname := Placement(index, ReferencedSecret(ns, listeners[i]))] else before
  {
    var hostname := listeners[i].hostname.value;
    forall host
      ensures Recorded(ns, listeners, i, host).Some? <==> host in RecordableHosts(listeners, i)
      ensures host != hostname ==> Recorded(ns, listeners, i + 1, host) == Recorded(ns, listeners, i, host)
    {
      RecordedHosts(ns, listeners, i, host);
    }
  }

  // ---------- All parents ----------

  /** A set the bootstrap trusts: labelled as the bridge's, with a positive index that matches its name. */
  predicate Trusted(o: Options, name: string, s: ListenerSet) {
    s.managed && s.index.Some? && s.index.value >= 1 && name == SetName(o, s.index.value)
  }

  /** The parents the bootstrap reads: none without a Gateway object, sets only where the API exists. */
  ghost function Parents(o: Options, c: Cluster): map<int, seq<Listener>> {
    if c.gateway.None? then map[]
    else
      var own := if c.gateway.value.managed then map[0 := c.gateway.value.listeners] else map[];
      if !o.overflow then own else own + SetParents(o, c.sets, c.sets.Keys)
  }

  ghost function SetParents(o: Options, sets: map<string, ListenerSet>, names: set<string>): map<int, seq<Listener>> {
    map i | i in TrustedIndices(o, sets, names) :: sets[SetName(o, i)].listeners
  }

  ghost function TrustedIndices(o: Options, sets: map<string, ListenerSet>, names: set<string>): (indices: set<int>)
    ensures forall i :: i in indices <==>
              i >= 1 && SetName(o, i) in names && SetName(o, i) in sets &&
              Trusted(o, SetName(o, i), sets[SetName(o, i)]) && sets[SetName(o, i)].index == Some(i)
  {
    set name | name in names && name in sets && Trusted(o, name, sets[name]) :: sets[name].index.value
  }

  ghost predicate Holds(ns: string, parents: map<int, seq<Listener>>, index: int, host: string) {
    index in parents && RecordedAll(ns, parents[index], host).Some?
  }

  /** p is what the parents show: each hostname at the lowest index that lists it. */
  ghost predicate Shows(ns: string, parents: map<int, seq<Listener>>, p: map<string, Placement>) {
    && (forall h :: h in p <==> exists i :: Holds(ns, parents, i, h))
    && (forall h | h in p ::
          && Holds(ns, parents, p[h].listenerSet, h)
          && RecordedAll(ns, parents[p[h].listenerSet], h).value == p[h].secret
          && forall i | Holds(ns, parents, i, h) :: p[h].listenerSet <= i)
  }

  lemma ShowsUnique(ns: string, parents: map<int, seq<Listener>>, p: map<string, Placement>, q: map<string, Placement>)
    requires Shows(ns, parents, p) && Shows(ns, parents, q)
    ensures p == q
  {
    forall h ensures h in p <==> h in q {}
    forall h | h in p ensures p[h] == q[h] {
      assert Holds(ns, parents, p[h].listenerSet, h) && Holds(ns, parents, q[h].listenerSet, h);
    }
  }

  lemma ShowsMerged(ns: string, parents: map<int, seq<Listener>>, p: map<string, Placement>, index: int, listeners: seq<Listener>)
    requires Shows(ns, parents, p) && index !in parents
    ensures Shows(ns, parents[index := listeners], Merged(p, ns, index, listeners, |listeners|))
  {
    var after := parents[index := listeners];
    var q := Merged(p, ns, index, listeners, |listeners|);
    forall h
      ensures forall i :: Holds(ns, after, i, h) <==> Holds(ns, parents, i, h) || (i == index && RecordedAll(ns, listeners, h).Some?)
      ensures h in q <==> h in p || RecordedAll(ns, listeners, h).Some?
    {
      RecordedHosts(ns, listeners, |listeners|, h);
    }
    forall h | h in q
      ensures Holds(ns, after, q[h].listenerSet, h)
      ensures RecordedAll(ns, after[q[h].listenerSet], h).value == q[h].secret
      ensures forall i | Holds(ns, after, i, h) :: q[h].listenerSet <= i
    {
      MergedEntry(ns, parents, p, index, listeners, h);
    }
  }

  lemma MergedEntry(ns: string, parents: map<int, seq<Listener>>, p: map<string, Placement>, index: int,
                    listeners: seq<Listener>, h: string)
    requires Shows(ns, parents, p) && index !in parents
    requires h in Merged(p, ns, index, listeners, |listeners|)
    ensures var after := parents[index := listeners];
            var q := Merged(p, ns, index, listeners, |listeners|);
            && Holds(ns, after, q[h].listenerSet, h)
            && RecordedAll(ns, after[q[h].listenerSet], h).value == q[h].secret
            && forall i | Holds(ns, after, i, h) :: q[h].listenerSet <= i
  {
    var after := parents[index := listeners];
    RecordedHosts(ns, listeners, |listeners|, h);
    forall i | Holds(ns, after, i, h) ensures i == index || Holds(ns, parents, i, h) {}
    if h in p {
      assert Holds(ns, parents, p[h].listenerSet, h);
      assert Holds(ns, after, p[h].listenerSet, h);
    }
  }

  method ObservedListenerPlacements(o: Options, c: Cluster) returns (placements: map<string, Placement>)
    ensures Shows(o.ns, Parents(o, c), placements)
  {
    placements := map[];
    NothingShown(o.ns);
    if c.gateway.None? {
      return;
    }
    var gateway := c.gateway.value;
    if gateway.managed {
      ShowsMerged(o.ns, map[], placements, 0, gateway.listeners);
      placements := RecordObservedListeners(placements, o.ns, 0, gateway.listeners);
    }
    if !o.overflow {
      return;
    }
    ghost var own := if gateway.managed then map[0 := gateway.listeners] else map[];
    placements := ObserveSets(o, own, c.sets, placements);
  }

  /** The bootstrap's loop over the ListenerSets, in the arbitrary order of a list call. */
  method ObserveSets(o: Options, ghost own: map<int, seq<Listener>>, sets: map<string, ListenerSet>,
                     placements0: map<string, Placement>)
    returns (placements: map<string, Placement>)
    requires Shows(o.ns, own, placements0) && own.Keys <= {0}
    ensures Shows(o.ns, own + SetParents(o, sets, sets.Keys), placements)
  {
    placements := placements0;
    var rest := sets.Keys;
    ghost var done: set<string> := {};
    assert own + SetParents(o, sets, {}) == own;
    while rest != {}
      invariant done + rest == sets.Keys && done !! rest
      invariant Shows(o.ns, own + SetParents(o, sets, done), placements)
      decreases rest
    {
      var name :| name in rest;
      var s := sets[name];
      ObserveStep(o, own, sets, done, name, placements);
      rest := rest - {name};
      done := done + {name};
      if !s.managed || s.index.None? || s.index.value < 1 {
        continue;
      }
      if name != SetName(o, s.index.value) {
        continue;
      }
      placements := RecordObservedListeners(placements, o.ns, s.index.value, s.listeners);
    }
  }

  lemma ObserveStep(o: Options, own: map<int, seq<Listener>>, sets: map<string, ListenerSet>, done: set<string>, name: string,
                    placements: map<string, Placement>)
    requires own.Keys <= {0} && name in sets && name !in done
    requires Shows(o.ns, own + SetParents(o, sets, done), placements)
    ensures Shows(o.ns, own + SetParents(o, sets, done + {name}),
                  if Trusted(o, name, sets[name])
                  then Merged(placements, o.ns, sets[name].index.value, sets[name].listeners, |sets[name].listeners|)
                  else placements)
  {
    SetParentsStep(o, sets, done, name);
    var before := own + SetParents(o, sets, done);
    if Trusted(o, name, sets[name]) {
      var index, listeners := sets[name].index.value, sets[name].listeners;
      ShowsMerged(o.ns, before, placements, index, listeners);
      assert own + SetParents(o, sets, done + {name}) == before[index := listeners];
    }
  }

  lemma NothingShown(ns: string)
    ensures Shows(ns, map[], map[])
  {
  }

  lemma SetParentsStep(o: Options, sets: map<string, ListenerSet>, names: set<string>, name: string)
    requires name in sets && name !in names
    ensures SetParents(o, sets, names + {name}) ==
            if Trusted(o, name, sets[name]) then SetParents(o, sets, names)[sets[name].index.value := sets[name].listeners]
            else SetParents(o, sets, names)
    ensures Trusted(o, name, sets[name]) ==> sets[name].index.value !in SetParents(o, sets, names)
  {
  }

  // ---------- What is read off a listener ----------

  /** An HTTPS listener on port 443 for the host whose first certificate reference, without a namespace of its own
      in the parent's, is the Secret. */
  predicate ServesWith(ns: string, l: Listener, host: string, secret: NamespacedName) {
    && l.protocol == HTTPS && l.port == 443 && l.hostname == Some(host)
    && l.certificateRefs.Some? && |l.certificateRefs.value| > 0
    && secret.name == l.certificateRefs.value[0].name
    && secret.ns == (match l.certificateRefs.value[0].ns case Some(n) => (if n == "" then ns else n) case None => ns)
  }

  lemma ServesIs(ns: string, l: Listener, host: string, secret: NamespacedName)
    ensures ServesWith(ns, l, host, secret) <==> Recordable(l) && l.hostname.value == host && ReferencedSecret(ns, l) == secret
  {
  }

  ghost predicate Serves(ns: string, l: Listener, host: string) {
    exists secret :: ServesWith(ns, l, host, secret)
  }

  lemma ServesSome(ns: string, l: Listener, host: string)
    ensures Serves(ns, l, host) <==> Recordable(l) && l.hostname.value == host
  {
    if Recordable(l) && l.hostname.value == host {
      ServesIs(ns, l, host, ReferencedSecret(ns, l));
    }
  }

  /** The j-th listener is the first to serve the host, and does so with the Secret. */
  ghost predicate FirstServes(ns: string, listeners: seq<Listener>, j: int, host: string, secret: NamespacedName) {
    && 0 <= j < |listeners| && ServesWith(ns, listeners[j], host, secret)
    && forall i | 0 <= i < j :: !Serves(ns, listeners[i], host)
  }

  lemma {:induction false} NoneRecorded(ns: string, listeners: seq<Listener>, n: nat, host: string)
    requires n <= |listeners|
    ensures Recorded(ns, listeners, n, host) == None <==> forall i | 0 <= i < n :: !Serves(ns, listeners[i], host)
  {
    if n > 0 {
      NoneRecorded(ns, listeners, n - 1, host);
      ServesSome(ns, listeners[n - 1], host);
    }
  }

  lemma {:induction false} RecordedFirst(ns: string, listeners: seq<Listener>, n: nat, host: string, secret: NamespacedName)
    requires n <= |listeners|
    ensures Recorded(ns, listeners, n, host) == Some(secret) <==>
            exists j :: j < n && FirstServes(ns, listeners, j, host, secret)
  {
    if n > 0 {
      RecordedFirst(ns, listeners, n - 1, host, secret);
      NoneRecorded(ns, listeners, n - 1, host);
      ServesIs(ns, listeners[n - 1], host, secret);
      if Recorded(ns, listeners, n - 1, host) == None {
        assert ServesWith(ns, listeners[n - 1], host, secret) <==> FirstServes(ns, listeners, n - 1, host, secret);
      } else {
        assert !FirstServes(ns, listeners, n - 1, host, secret);
      }
    }
  }

  /** A parent shows a host with a Secret exactly when the first of its listeners that serves the host does so. */
  lemma RecordedExactly(ns: string, listeners: seq<Listener>, host: string, secret: NamespacedName)
    ensures RecordedAll(ns, listeners, host) == Some(secret) <==> exists j :: FirstServes(ns, listeners, j, host, secret)
  {
    RecordedFirst(ns, listeners, |listeners|, host, secret);
  }
}
