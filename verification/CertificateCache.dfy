// The cache of parsed certificates: filled on demand by every plan, pruned to the
// referenced Secrets, and dropped by the certificate-sync request Secret events queue.
module CertificateCache {
  import opened Text
  import opened Model

  /** What a Secret yields: its certificate, or nothing when it is missing or does not parse. */
  type Entry = Option<CertificateInfo>

  type Cache = map<NamespacedName, Entry>

  /** The outcome of reading one Secret; a missing Secret is read successfully. */
  datatype Read = Failed | Got(entry: Entry)

  datatype Outcome = Disabled | Errored | Infos(infos: map<NamespacedName, CertificateInfo>)

  // ---------- References ----------

  function EntryReference(ing: Ingress, tls: TLSEntry): seq<NamespacedName> {
    var name := TrimSpace(tls.secretName);
    if name == "" then [] else [NamespacedName(ing.ns, name)]
  }

  /** The Secrets the first n TLS entries name, in order. */
  function EntryReferences(ing: Ingress, n: nat): seq<NamespacedName>
    requires n <= |ing.tls|
  {
    if n == 0 then [] else EntryReferences(ing, n - 1) + EntryReference(ing, ing.tls[n - 1])
  }

  function References(ings: seq<Ingress>, n: nat): seq<NamespacedName>
    requires n <= |ings|
  {
    if n == 0 then [] else References(ings, n - 1) + EntryReferences(ings[n - 1], |ings[n - 1].tls|)
  }

  // ---------- Lookups ----------

  /** How far the lookups of a list of references got. */
  datatype Lookup = Lookup(cache: Cache, failed: bool)

  function Resolve(l: Lookup, key: NamespacedName, read: NamespacedName -> Read): Lookup {
    if l.failed || key in l.cache then l
    else
      match read(key)
      case Failed => l.(failed := true)
      case Got(entry) => l.(cache := l.cache[key := entry])
  }

  function ResolveAll(l: Lookup, refs: seq<NamespacedName>, read: NamespacedName -> Read): Lookup {
    if refs == [] then l else Resolve(ResolveAll(l, refs[..|refs| - 1], read), refs[|refs| - 1], read)
  }

  lemma {:induction false} ResolveJoin(l: Lookup, a: seq<NamespacedName>, b: seq<NamespacedName>, read: NamespacedName -> Read)
    ensures ResolveAll(l, a + b, read) == ResolveAll(ResolveAll(l, a, read), b, read)
  {
    if b == [] {
      assert a + b == a;
    } else {
      var front := b[..|b| - 1];
      ResolveJoin(l, a, front, read);
      assert (a + b)[..|a + b| - 1] == a + front;
    }
  }

  /** Lookups fail exactly when a referenced Secret that is not cached cannot be read; otherwise they add
      one entry for each such Secret and change none. */
  lemma {:induction false} ResolveMeaning(cache: Cache, refs: seq<NamespacedName>, read: NamespacedName -> Read)
    ensures var l := ResolveAll(Lookup(cache, false), refs, read);
            && (l.failed <==> exists k :: k in refs && k !in cache && read(k).Failed?)
            && (forall k | k in cache :: k in l.cache && l.cache[k] == cache[k])
            && (forall k | k in l.cache && k !in cache :: k in refs && read(k) == Got(l.cache[k]))
            && (!l.failed ==> forall k | k in refs :: k in l.cache)
  {
    if refs != [] {
      var front, last := refs[..|refs| - 1], refs[|refs| - 1];
      ResolveMeaning(cache, front, read);
      assert forall k :: k in refs <==> k in front || k == last;
    }
  }

  /** The certificates among the entries of the keys given. */
  function Parsed(cache: Cache, keys: set<NamespacedName>): map<NamespacedName, CertificateInfo> {
    map k | k in keys && k in cache && cache[k].Some? :: cache[k].value
  }

  /** What pruning keeps of a cache. */
  function Kept(cache: Cache, keep: set<NamespacedName>): Cache {
    map k | k in cache && k in keep :: cache[k]
  }

  ghost function Named(refs: seq<NamespacedName>): set<NamespacedName> {
    set k | k in refs
  }

  // ---------- The cache ----------

  class CertificateStore {
    var certificates: Option<Cache>

    constructor ()
      ensures certificates == None
    {
      certificates := None;
    }

    ghost function Cached(): Cache
      reads this
    {
      if certificates.Some? then certificates.value else map[]
    }

    /** The start of a certificate-sync request. */
    method Invalidate()
      modifies this
      ensures Cached() == map[]
    {
      certificates := None;
    }

    /** read(key) is what reading that Secret gives, at whatever moment the call comes to it; no Secret
        is read twice in a call. A call that fails keeps what it had read. */
    method CertificateInfos(selected: seq<Ingress>, collapse: bool, read: NamespacedName -> Read) returns (outcome: Outcome)
      modifies this
      ensures !collapse ==> outcome == Disabled && certificates == old(certificates)
      ensures collapse ==>
                var refs := References(selected, |selected|);
                var l := ResolveAll(Lookup(old(Cached()), false), refs, read);
                if l.failed then outcome == Errored && Cached() == l.cache
                else
                  && Cached() == Kept(l.cache, Named(refs))
                  && outcome == Infos(Parsed(l.cache, Named(refs)))
    {
      if !collapse {
        return Disabled;
      }
      if certificates.None? {
        certificates := Some(map[]);
      }
      ghost var start := Lookup(old(Cached()), false);
      var referenced: set<NamespacedName> := {};
      var result: map<NamespacedName, CertificateInfo> := map[];
      for i := 0 to |selected|
        invariant Seen(start, References(selected, i), read, certificates, referenced, result)
      {
        assert Reached(selected, i, 0) == References(selected, i);
        for j := 0 to |selected[i].tls|
          invariant Seen(start, Reached(selected, i, j), read, certificates, referenced, result)
        {
          var name := TrimSpace(selected[i].tls[j].secretName);
          EntryStep(selected, i, j);
          if name == "" {
            continue;
          }
          var key := NamespacedName(selected[i].ns, name);
          var cached := certificates.value;
          var failed, cache := ReadUnlessCached(cached, key, read);
          certificates := Some(cache);
          OneMore(start, Reached(selected, i, j), key, read);
          if failed {
            Stopped(start, selected, i, j + 1, read);
            return Errored;
          }
          SeenStep(start, Reached(selected, i, j), key, read, cached, referenced, result, cache);
          referenced := referenced + {key};
          if cache[key].Some? {
            result := result[key := cache[key].value];
          }
        }
      }
      DropUnreferenced(referenced);
      outcome := Infos(result);
    }

    method DropUnreferenced(referenced: set<NamespacedName>)
      requires certificates.Some?
      modifies this
      ensures certificates == Some(Kept(old(Cached()), referenced))
    {
      var all := certificates.value;
      var rest := all.Keys;
      var kept := all;
      while rest != {}
        invariant rest <= all.Keys
        invariant kept == map k | k in all && (k in rest || k in referenced) :: all[k]
        decreases rest
      {
        var key :| key in rest;
        rest := rest - {key};
        if key !in referenced {
          kept := kept - {key};
        }
      }
      certificates := Some(kept);
      assert kept == Kept(all, referenced);
    }
  }

  /** The loop state after a prefix of the references. */
  ghost predicate Seen(start: Lookup, refs: seq<NamespacedName>, read: NamespacedName -> Read, cached: Option<Cache>,
                       referenced: set<NamespacedName>, result: map<NamespacedName, CertificateInfo>) {
    && cached == Some(ResolveAll(start, refs, read).cache) && !ResolveAll(start, refs, read).failed
    && referenced == Named(refs)
    && result == Parsed(cached.value, referenced)
    && (forall k | k in referenced :: k in cached.value)
  }

  /** The references up to TLS entry n of Ingress i. */
  function Reached(ings: seq<Ingress>, i: nat, n: nat): seq<NamespacedName>
    requires i < |ings| && n <= |ings[i].tls|
  {
    References(ings, i) + EntryReferences(ings[i], n)
  }

  method ReadUnlessCached(cached: Cache, key: NamespacedName, read: NamespacedName -> Read) returns (failed: bool, cache: Cache)
    ensures Lookup(cache, failed) == Resolve(Lookup(cached, false), key, read)
  {
    if key in cached {
      return false, cached;
    }
    match read(key)
    case Failed => return true, cached;
    case Got(entry) => return false, cached[key := entry];
  }

  lemma EntryStep(ings: seq<Ingress>, i: nat, n: nat)
    requires i < |ings| && n < |ings[i].tls|
    ensures var name := TrimSpace(ings[i].tls[n].secretName);
            && (name == "" ==> Reached(ings, i, n + 1) == Reached(ings, i, n))
            && (name != "" ==> Reached(ings, i, n + 1) == Reached(ings, i, n) + [NamespacedName(ings[i].ns, name)])
  {
  }

  /** Where a read failed, the lookups of all references end. */
  lemma Stopped(start: Lookup, ings: seq<Ingress>, i: nat, n: nat, read: NamespacedName -> Read)
    requires i < |ings| && n <= |ings[i].tls|
    requires ResolveAll(start, Reached(ings, i, n), read).failed
    ensures ResolveAll(start, References(ings, |ings|), read) == ResolveAll(start, Reached(ings, i, n), read)
  {
    EntriesGrow(ings[i], n, |ings[i].tls|);
    ReferencesGrow(ings, i + 1, |ings|);
    assert Reached(ings, i, n) <= References(ings, i + 1);
    FailedPrefix(start, Reached(ings, i, n), References(ings, |ings|), read);
  }

  lemma OneMore(l: Lookup, refs: seq<NamespacedName>, key: NamespacedName, read: NamespacedName -> Read)
    ensures ResolveAll(l, refs + [key], read) == Resolve(ResolveAll(l, refs, read), key, read)
  {
    assert (refs + [key])[..|refs|] == refs;
  }

  lemma SeenStep(start: Lookup, refs: seq<NamespacedName>, key: NamespacedName, read: NamespacedName -> Read, cached: Cache,
                 referenced: set<NamespacedName>, result: map<NamespacedName, CertificateInfo>, after: Cache)
    requires Seen(start, refs, read, Some(cached), referenced, result)
    requires !Resolve(Lookup(cached, false), key, read).failed && after == Resolve(Lookup(cached, false), key, read).cache
    ensures key in after
    ensures Seen(start, refs + [key], read, Some(after), referenced + {key},
                 if after[key].Some? then result[key := after[key].value] else result)
  {
    OneMore(start, refs, key, read);
    assert Named(refs + [key]) == Named(refs) + {key};
    ParsedStep(cached, referenced, key, after);
  }

  lemma ParsedStep(cached: Cache, referenced: set<NamespacedName>, key: NamespacedName, after: Cache)
    requires key in after && (if key in cached then after == cached else after == cached[key := after[key]])
    requires forall k | k in referenced :: k in cached
    ensures Parsed(after, referenced + {key}) ==
            if after[key].Some? then Parsed(cached, referenced)[key := after[key].value] else Parsed(cached, referenced)
  {
  }

  lemma {:induction false} FailedStays(l: Lookup, refs: seq<NamespacedName>, read: NamespacedName -> Read)
    requires l.failed
    ensures ResolveAll(l, refs, read) == l
  {
    if refs != [] {
      FailedStays(l, refs[..|refs| - 1], read);
    }
  }

  lemma FailedJoin(start: Lookup, done: seq<NamespacedName>, next: seq<NamespacedName>, read: NamespacedName -> Read)
    requires ResolveAll(start, done, read).failed
    ensures ResolveAll(start, done + next, read) == ResolveAll(start, done, read)
  {
    ResolveJoin(start, done, next, read);
    FailedStays(ResolveAll(start, done, read), next, read);
  }

  lemma FailedPrefix(start: Lookup, a: seq<NamespacedName>, b: seq<NamespacedName>, read: NamespacedName -> Read)
    requires a <= b && ResolveAll(start, a, read).failed
    ensures ResolveAll(start, b, read) == ResolveAll(start, a, read)
  {
    assert b == a + b[|a|..];
    FailedJoin(start, a, b[|a|..], read);
  }

  lemma {:induction false} EntriesGrow(ing: Ingress, m: nat, n: nat)
    requires m <= n <= |ing.tls|
    ensures EntryReferences(ing, m) <= EntryReferences(ing, n)
  {
    if m < n {
      EntriesGrow(ing, m, n - 1);
    }
  }

  lemma {:induction false} ReferencesGrow(ings: seq<Ingress>, m: nat, n: nat)
    requires m <= n <= |ings|
    ensures References(ings, m) <= References(ings, n)
  {
    if m < n {
      ReferencesGrow(ings, m, n - 1);
    }
  }

  // ---------- The cache among changing Secrets ----------

  datatype Change = Created | Deleted | Updated(before: Entry)

  /** An event the Secret informer has yet to deliver, with what the Secret yields after it. */
  datatype Event = Event(key: NamespacedName, change: Change, after: Entry)

  /** Everything coherence depends on. continuous and missed are history: the cached Secrets that stayed
      referenced since they were read, and what each Secret yielded after the last ignored change of it. */
  datatype World = World(
    secrets: map<NamespacedName, Entry>,
    referenced: set<NamespacedName>,
    events: seq<Event>,
    sync: bool,
    cache: Cache,
    continuous: set<NamespacedName>,
    missed: map<NamespacedName, Entry>)

  function Current(w: World, key: NamespacedName): Entry {
    if key in w.secrets then w.secrets[key] else None
  }

  /** The event handler skips only updates that leave the certificate as it was. */
  predicate Matters(e: Event) {
    !(e.change.Updated? && e.change.before == e.after)
  }

  predicate News(w: World, i: int, key: NamespacedName) {
    0 <= i < |w.events| && w.events[i].key == key && Matters(w.events[i])
  }

  ghost predicate Announced(w: World, key: NamespacedName) {
    exists i :: News(w, i, key)
  }

  ghost predicate LastNews(w: World, i: int, key: NamespacedName) {
    News(w, i, key) && forall j | j > i :: !News(w, j, key)
  }

  /** The last undelivered news of a Secret is what the informer's store shows. */
  ghost predicate Truthful(w: World) {
    forall i, key | LastNews(w, i, key) :: w.events[i].after == Current(w, key)
  }

  /** A Secret is written: the informer's store shows it at once, its event comes later. */
  ghost predicate Writes(w: World, w': World, e: Event) {
    && (e.change.Updated? ==> e.change.before == Current(w, e.key))
    && w' == w.(secrets := w.secrets[e.key := e.after], events := w.events + [e])
  }

  /** An event is handled; when the Ingresses cannot be listed, the Secret counts as referenced. */
  ghost predicate Delivers(w: World, w': World, listed: bool) {
    && w.events != []
    && var e := w.events[0];
       var heard := e.key in w.referenced || !listed;
       w' == w.(events := w.events[1..],
                sync := w.sync || (Matters(e) && heard),
                missed := if Matters(e) && !heard then w.missed[e.key := e.after] else w.missed)
  }

  ghost predicate Reselects(w: World, w': World) {
    w' == w.(referenced := w'.referenced, continuous := w.continuous * w'.referenced)
  }

  /** One read of certificateInfos. */
  function Fetched(w: World, key: NamespacedName): World {
    if key in w.cache then w
    else w.(cache := w.cache[key := Current(w, key)],
            continuous := if key in w.referenced then w.continuous + {key} else w.continuous - {key},
            missed := w.missed - {key})
  }

  /** The end of certificateInfos. */
  function Pruned(w: World, keep: set<NamespacedName>): World {
    w.(cache := Kept(w.cache, keep), continuous := w.continuous * keep)
  }

  /** A sync request starts, or the process does. */
  function Invalidated(w: World): World {
    w.(sync := false, cache := map[], continuous := {}, missed := map[])
  }

  ghost predicate Step(w: World, w': World) {
    || (exists e :: Writes(w, w', e))
    || (exists listed :: Delivers(w, w', listed))
    || Reselects(w, w')
    || (exists key :: w' == Fetched(w, key))
    || (exists keep :: w' == Pruned(w, keep))
    || w' == Invalidated(w)
  }

  /** A sync is queued, or a change of the Secret is about to be delivered. */
  ghost predicate Pending(w: World, key: NamespacedName) {
    w.sync || Announced(w, key)
  }

  /** With nothing pending, the Secret yields what it did after the last ignored change, if there is one, and
      otherwise what is cached. */
  ghost predicate Accounted(w: World, key: NamespacedName) {
    || Pending(w, key)
    || (if key in w.missed then w.missed[key] == Current(w, key)
        else key in w.cache ==> w.cache[key] == Current(w, key))
  }

  ghost predicate Coherent(w: World) {
    && w.continuous <= w.cache.Keys * w.referenced && w.continuous !! w.missed.Keys
    && Truthful(w)
    && forall key :: Accounted(w, key)
  }

  ghost predicate Start(w: World) {
    w.cache == map[] && w.continuous == {} && w.missed == map[] && Truthful(w)
  }

  ghost predicate Run(ws: seq<World>) {
    ws != [] && Start(ws[0]) && forall i | 0 <= i < |ws| - 1 :: Step(ws[i], ws[i + 1])
  }

  lemma WriteNews(w: World, w': World, e: Event, i: int, key: NamespacedName)
    requires Writes(w, w', e)
    ensures News(w', i, key) <==> News(w, i, key) || (i == |w.events| && key == e.key && Matters(e))
  {
  }

  lemma WriteLastNews(w: World, w': World, e: Event, i: int, key: NamespacedName)
    requires Truthful(w) && Writes(w, w', e) && LastNews(w', i, key)
    ensures w'.events[i].after == Current(w', key)
  {
    WriteNews(w, w', e, i, key);
    WriteNews(w, w', e, |w.events|, key);
    if i < |w.events| {
      forall j | j > i ensures !News(w, j, key) {
        WriteNews(w, w', e, j, key);
      }
      assert LastNews(w, i, key);
    }
  }

  lemma WriteTruthful(w: World, w': World, e: Event)
    requires Truthful(w) && Writes(w, w', e)
    ensures Truthful(w')
  {
    forall i, key | LastNews(w', i, key) ensures w'.events[i].after == Current(w', key) {
      WriteLastNews(w, w', e, i, key);
    }
  }

  lemma WriteKeeps(w: World, w': World, e: Event)
    requires Coherent(w) && Writes(w, w', e)
    ensures Coherent(w')
  {
    WriteTruthful(w, w', e);
    forall key ensures Accounted(w', key) {
      assert Accounted(w, key);
      if i :| News(w, i, key) {
        WriteNews(w, w', e, i, key);
      }
      WriteNews(w, w', e, |w.events|, key);
    }
  }

  lemma DeliverNews(w: World, w': World, listed: bool, i: int, key: NamespacedName)
    requires Delivers(w, w', listed) && i >= 0
    ensures News(w', i, key) <==> News(w, i + 1, key)
  {
  }

  lemma DeliverLastNews(w: World, w': World, listed: bool, i: int, key: NamespacedName)
    requires Delivers(w, w', listed) && LastNews(w', i, key)
    ensures LastNews(w, i + 1, key)
  {
    DeliverNews(w, w', listed, i, key);
    forall j | j > i + 1 ensures !News(w, j, key) {
      DeliverNews(w, w', listed, j - 1, key);
    }
  }

  lemma DeliverTruthful(w: World, w': World, listed: bool)
    requires Truthful(w) && Delivers(w, w', listed)
    ensures Truthful(w')
  {
    forall i, key | LastNews(w', i, key) ensures w'.events[i].after == Current(w', key) {
      DeliverLastNews(w, w', listed, i, key);
    }
  }

  lemma DeliverKeeps(w: World, w': World, listed: bool)
    requires Coherent(w) && Delivers(w, w', listed)
    ensures Coherent(w')
  {
    DeliverTruthful(w, w', listed);
    forall key ensures Accounted(w', key) {
      DeliverAccounts(w, w', listed, key);
    }
  }

  /** News delivered last and ignored is what the Secret yields now. */
  lemma DeliverAccounts(w: World, w': World, listed: bool, key: NamespacedName)
    requires Truthful(w) && Accounted(w, key) && Delivers(w, w', listed)
    ensures Accounted(w', key)
  {
    if !Pending(w', key) {
      forall j | j > 0 ensures !News(w, j, key) {
        DeliverNews(w, w', listed, j - 1, key);
      }
      assert News(w, 0, key) <==> LastNews(w, 0, key);
      assert Announced(w, key) ==> News(w, 0, key);
    }
  }

  lemma SameNews(w: World, w': World)
    requires Truthful(w) && w'.events == w.events && w'.secrets == w.secrets
    ensures Truthful(w') && forall k :: Announced(w', k) <==> Announced(w, k)
  {
    forall i, k ensures News(w', i, k) <==> News(w, i, k) {}
    forall i, k | LastNews(w', i, k) ensures w'.events[i].after == Current(w', k) {
      assert LastNews(w, i, k);
    }
    forall k ensures Announced(w', k) <==> Announced(w, k) {
      if i :| News(w, i, k) {
        assert News(w', i, k);
      }
    }
  }

  lemma FetchKeeps(w: World, key: NamespacedName)
    requires Coherent(w)
    ensures Coherent(Fetched(w, key))
  {
    var w' := Fetched(w, key);
    SameNews(w, w');
    forall k ensures Accounted(w', k) {
      assert Accounted(w, k);
    }
  }

  lemma OtherStepsKeep(w: World, w': World)
    requires Coherent(w)
    requires Reselects(w, w') || (exists keep :: w' == Pruned(w, keep)) || w' == Invalidated(w)
    ensures Coherent(w')
  {
    SameNews(w, w');
    forall k ensures Accounted(w', k) {
      assert Accounted(w, k);
    }
  }

  lemma StepKeeps(w: World, w': World)
    requires Coherent(w) && Step(w, w')
    ensures Coherent(w')
  {
    if e :| Writes(w, w', e) {
      WriteKeeps(w, w', e);
    } else if listed :| Delivers(w, w', listed) {
      DeliverKeeps(w, w', listed);
    } else if key :| w' == Fetched(w, key) {
      FetchKeeps(w, key);
    } else {
      OtherStepsKeep(w, w');
    }
  }

  lemma {:induction false} AlwaysCoherent(ws: seq<World>, n: nat)
    requires Run(ws) && n < |ws|
    ensures Coherent(ws[n])
  {
    if n > 0 {
      AlwaysCoherent(ws, n - 1);
      StepKeeps(ws[n - 1], ws[n]);
    }
  }

  /** In every reachable state with nothing pending, a cached entry is stale exactly when the last ignored
      change of its Secret left another certificate; one referenced ever since it was read is current. */
  lemma StaleExactly(ws: seq<World>, n: nat, key: NamespacedName)
    requires Run(ws) && n < |ws| && key in ws[n].cache && !Pending(ws[n], key)
    ensures ws[n].cache[key] != Current(ws[n], key) <==> key in ws[n].missed && ws[n].missed[key] != ws[n].cache[key]
    ensures key in ws[n].continuous ==> ws[n].cache[key] == Current(ws[n], key)
  {
    AlwaysCoherent(ws, n);
    assert Accounted(ws[n], key);
  }

  // ---------- Secrets forgotten before they are referenced again ----------

  /** A Secret becomes referenced only while it is not cached. */
  predicate Forgotten(w: World, w': World) {
    forall key | key in w'.referenced && key !in w.referenced :: key !in w.cache
  }

  lemma StepForgets(w: World, w': World)
    requires Step(w, w') && Forgotten(w, w') && w.cache.Keys * w.referenced <= w.continuous
    ensures w'.cache.Keys * w'.referenced <= w'.continuous
  {
  }

  lemma {:induction false} AlwaysContinuous(ws: seq<World>, n: nat)
    requires Run(ws) && n < |ws| && forall i | 0 <= i < n :: Forgotten(ws[i], ws[i + 1])
    ensures ws[n].cache.Keys * ws[n].referenced <= ws[n].continuous
  {
    if n > 0 {
      AlwaysContinuous(ws, n - 1);
      StepForgets(ws[n - 1], ws[n]);
    }
  }

  /** In a run where no Secret is cached at the moment it becomes referenced, every referenced entry is
      current whenever nothing is pending. */
  lemma ForgottenIsCurrent(ws: seq<World>, n: nat, key: NamespacedName)
    requires Run(ws) && n < |ws| && forall i | 0 <= i < n :: Forgotten(ws[i], ws[i + 1])
    requires key in ws[n].cache && key in ws[n].referenced && !Pending(ws[n], key)
    ensures ws[n].cache[key] == Current(ws[n], key)
  {
    AlwaysContinuous(ws, n);
    StaleExactly(ws, n, key);
  }

  /** A step reads nothing into the cache that is not referenced. */
  predicate ReadsReferenced(w: World, w': World) {
    forall key | key in w'.cache && key !in w.cache :: key in w'.referenced
  }

  /** A plan that does not reference the Secret ends, or a sync request starts. */
  ghost predicate Drops(w: World, w': World, key: NamespacedName) {
    w' == Invalidated(w) || exists keep :: key !in keep && w' == Pruned(w, keep)
  }

  ghost predicate Unreferenced(ws: seq<World>, m: nat, n: nat, key: NamespacedName) {
    m <= n < |ws| && forall i | m <= i <= n :: key !in ws[i].referenced
  }

  lemma DropsExactly(w: World, w': World, key: NamespacedName)
    requires Step(w, w') && ReadsReferenced(w, w') && key !in w'.referenced
    ensures key in w'.cache <==> key in w.cache && !Drops(w, w', key)
  {
    if keep :| w' == Pruned(w, keep) {
      assert key !in keep ==> Drops(w, w', key);
    }
  }

  /** The step after the i-th moment drops the Secret. */
  ghost predicate DroppedAt(ws: seq<World>, i: int, key: NamespacedName) {
    0 <= i < |ws| - 1 && Drops(ws[i], ws[i + 1], key)
  }

  lemma DroppedAtExactly(ws: seq<World>, i: nat, key: NamespacedName)
    requires Run(ws) && i < |ws| - 1 && ReadsReferenced(ws[i], ws[i + 1]) && key !in ws[i + 1].referenced
    ensures key in ws[i + 1].cache <==> key in ws[i].cache && !DroppedAt(ws, i, key)
  {
    assert Step(ws[i], ws[i + 1]);
    DropsExactly(ws[i], ws[i + 1], key);
  }

  lemma {:induction false} CachedWhile(ws: seq<World>, m: nat, n: nat, key: NamespacedName)
    requires m <= n < |ws|
    requires forall i | m <= i < n :: key in ws[i + 1].cache <==> key in ws[i].cache && !DroppedAt(ws, i, key)
    ensures key in ws[n].cache <==> key in ws[m].cache && forall i | m <= i < n :: !DroppedAt(ws, i, key)
  {
    if m < n {
      CachedWhile(ws, m, n - 1, key);
    }
  }

  /** While a Secret is unreferenced, it stays cached exactly as long as no plan ends and no sync starts. */
  lemma CachedUntilDropped(ws: seq<World>, m: nat, n: nat, key: NamespacedName)
    requires Run(ws) && Unreferenced(ws, m, n, key) && forall i | m <= i < n :: ReadsReferenced(ws[i], ws[i + 1])
    ensures key in ws[n].cache <==> key in ws[m].cache && forall i | m <= i < n :: !DroppedAt(ws, i, key)
  {
    forall i | m <= i < n ensures key in ws[i + 1].cache <==> key in ws[i].cache && !DroppedAt(ws, i, key) {
      DroppedAtExactly(ws, i, key);
    }
    CachedWhile(ws, m, n, key);
  }

  /** Since the m-th moment, when a plan without the Secret ended, or the process began, it was unreferenced
      up to the n-th. */
  ghost predicate DroppedSince(ws: seq<World>, m: nat, n: nat, key: NamespacedName) {
    Unreferenced(ws, m, n, key) && (m == 0 || Drops(ws[m - 1], ws[m], key))
  }

  /** The Secret becomes referenced by the step after the i-th moment. */
  predicate ReturnsAt(ws: seq<World>, i: int, key: NamespacedName) {
    0 <= i < |ws| - 1 && key in ws[i + 1].referenced && key !in ws[i].referenced
  }

  lemma DroppedIsForgotten(ws: seq<World>, m: nat, n: nat, key: NamespacedName)
    requires Run(ws) && DroppedSince(ws, m, n, key) && forall i | m <= i < n :: ReadsReferenced(ws[i], ws[i + 1])
    ensures key !in ws[n].cache
  {
    assert key !in ws[m].cache;
    CachedUntilDropped(ws, m, n, key);
  }

  /** In a run where, whenever a Secret becomes referenced, a plan has ended since it last was, every referenced
      entry is current whenever nothing is pending. */
  lemma PlanBetweenIsCurrent(ws: seq<World>, n: nat, key: NamespacedName)
    requires Run(ws) && n < |ws| && forall i | 0 <= i < n :: ReadsReferenced(ws[i], ws[i + 1])
    requires forall i, k | ReturnsAt(ws, i, k) && i < n :: exists m :: DroppedSince(ws, m, i, k)
    requires key in ws[n].cache && key in ws[n].referenced && !Pending(ws[n], key)
    ensures ws[n].cache[key] == Current(ws[n], key)
  {
    forall i | 0 <= i < n ensures Forgotten(ws[i], ws[i + 1]) {
      forall k | k in ws[i + 1].referenced && k !in ws[i].referenced ensures k !in ws[i].cache {
        assert ReturnsAt(ws, i, k);
        var m :| DroppedSince(ws, m, i, k);
        DroppedIsForgotten(ws, m, i, k);
      }
    }
    ForgottenIsCurrent(ws, n, key);
  }

  // ---------- What a plan is given ----------

  /** The reads of one call, all Secrets staying as they are meanwhile. */
  function FetchedAll(w: World, refs: seq<NamespacedName>): World {
    if refs == [] then w else Fetched(FetchedAll(w, refs[..|refs| - 1]), refs[|refs| - 1])
  }

  function ReadOf(w: World): NamespacedName -> Read {
    (key: NamespacedName) => Got(Current(w, key))
  }

  /** The method's lookups are a sequence of fetches. */
  lemma {:induction false} LookupsAreFetches(w: World, refs: seq<NamespacedName>)
    ensures var l := ResolveAll(Lookup(w.cache, false), refs, ReadOf(w));
            && !l.failed && FetchedAll(w, refs).cache == l.cache
            && FetchedAll(w, refs) == w.(cache := l.cache, continuous := FetchedAll(w, refs).continuous,
                                         missed := FetchedAll(w, refs).missed)
  {
    if refs != [] {
      LookupsAreFetches(w, refs[..|refs| - 1]);
    }
  }

  lemma {:induction false} FetchesKeep(w: World, refs: seq<NamespacedName>)
    requires Coherent(w)
    ensures Coherent(FetchedAll(w, refs)) && FetchedAll(w, refs).missed.Keys <= w.missed.Keys
  {
    if refs != [] {
      FetchesKeep(w, refs[..|refs| - 1]);
      FetchKeeps(FetchedAll(w, refs[..|refs| - 1]), refs[|refs| - 1]);
    }
  }

  /** A call made when nothing is pending and no change was ignored hands the planner every referenced
      Secret's current certificate and nothing else. */
  lemma PlannerSeesCurrent(ws: seq<World>, n: nat, selected: seq<Ingress>)
    requires Run(ws) && n < |ws|
    requires !ws[n].sync && ws[n].events == [] && ws[n].missed.Keys !! Named(References(selected, |selected|))
    ensures var refs := References(selected, |selected|);
            var l := ResolveAll(Lookup(ws[n].cache, false), refs, ReadOf(ws[n]));
            Parsed(l.cache, Named(refs)) ==
            map k | k in Named(refs) && Current(ws[n], k).Some? :: Current(ws[n], k).value
  {
    var w := ws[n];
    var refs := References(selected, |selected|);
    AlwaysCoherent(ws, n);
    LookupsAreFetches(w, refs);
    FetchesKeep(w, refs);
    ResolveMeaning(w.cache, refs, ReadOf(w));
    forall k | k in Named(refs) ensures k in FetchedAll(w, refs).cache && FetchedAll(w, refs).cache[k] == Current(w, k) {
      QuietIsCurrent(FetchedAll(w, refs), k);
    }
    ParsedCurrent(w, FetchedAll(w, refs).cache, Named(refs));
  }

  lemma ParsedCurrent(w: World, cache: Cache, referenced: set<NamespacedName>)
    requires forall k | k in referenced :: k in cache && cache[k] == Current(w, k)
    ensures Parsed(cache, referenced) == map k | k in referenced && Current(w, k).Some? :: Current(w, k).value
  {
  }

  lemma QuietIsCurrent(w: World, key: NamespacedName)
    requires Coherent(w) && !w.sync && w.events == [] && key !in w.missed && key in w.cache
    ensures w.cache[key] == Current(w, key)
  {
    assert Accounted(w, key);
  }

  // ---------- A Secret unreferenced for a while ----------

  /** Read, unreferenced, changed, referenced again, with no plan in between: the event is ignored and the
      old certificate stays in use, nothing being pending. */
  lemma StaleReuse(key: NamespacedName, old0: CertificateInfo, new0: CertificateInfo)
    requires old0 != new0
    ensures exists ws: seq<World> ::
              && Run(ws)
              && var w := ws[|ws| - 1];
                 && !w.sync && w.events == [] && key in w.referenced
                 && key in w.cache && w.cache[key] == Some(old0) && Current(w, key) == Some(new0)
  {
    var w0 := World(map[key := Some(old0)], {key}, [], false, map[], {}, map[]);
    var w1 := Fetched(w0, key);
    var w2 := w1.(referenced := {}, continuous := {});
    var e := Event(key, Updated(Some(old0)), Some(new0));
    var w3 := w2.(secrets := map[key := Some(new0)], events := [e]);
    var w4 := w3.(events := [], missed := map[key := Some(new0)]);
    var w5 := w4.(referenced := {key});
    var ws := [w0, w1, w2, w3, w4, w5];
    assert Reselects(w1, w2);
    assert Writes(w2, w3, e);
    assert Delivers(w3, w4, true);
    assert Reselects(w4, w5);
    assert Step(w0, w1) && Step(w1, w2) && Step(w2, w3) && Step(w3, w4) && Step(w4, w5);
    assert Run(ws);
    assert ws[|ws| - 1] == w5;
  }

  // ---------- What is referenced ----------

  /** TLS entry k names the Secret. */
  predicate Names(ing: Ingress, k: int, key: NamespacedName) {
    0 <= k < |ing.tls| && key.ns == ing.ns && key.name != "" && TrimSpace(ing.tls[k].secretName) == key.name
  }

  lemma {:induction false} EntryReferenced(ing: Ingress, n: nat, key: NamespacedName)
    requires n <= |ing.tls|
    ensures key in EntryReferences(ing, n) <==> exists k :: k < n && Names(ing, k, key)
  {
    if n > 0 {
      EntryReferenced(ing, n - 1, key);
      assert key in EntryReference(ing, ing.tls[n - 1]) <==> Names(ing, n - 1, key);
    }
  }

  /** Referenced are the Secrets the TLS entries name, in the namespace of their Ingress. */
  lemma {:induction false} ReferencedExactly(ings: seq<Ingress>, n: nat, key: NamespacedName)
    requires n <= |ings|
    ensures key in References(ings, n) <==> exists i, k :: 0 <= i < n && Names(ings[i], k, key)
  {
    if n > 0 {
      ReferencedExactly(ings, n - 1, key);
      IngressReferences(ings, n, ings[n - 1], key);
    }
  }

  lemma IngressReferences(ings: seq<Ingress>, n: nat, ing: Ingress, key: NamespacedName)
    requires 0 < n <= |ings| && ing == ings[n - 1]
    ensures key in References(ings, n) <==> key in References(ings, n - 1) || exists k :: Names(ing, k, key)
  {
    EntryReferenced(ing, |ing.tls|, key);
  }
}
