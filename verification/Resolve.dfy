// resolveWildcardGroup: the loops that build the certificate classes of one
// wildcard target, score them and pick the winner.
module Resolve {
  import opened Text
  import opened Sorting
  import opened Model
  import opened Election

  datatype Claim = Claim(host: string, secret: NamespacedName, pinned: bool)

  datatype WildcardClass = WildcardClass(claims: seq<Claim>, secrets: seq<NamespacedName>, hosts: seq<string>, pinned: bool)

  type Certificates = Option<map<NamespacedName, CertificateInfo>>

  function ClaimOf(d: Demand, host: string): Claim
    requires host in d.owner
  {
    Claim(host, d.owner[host], IsWildcard(host))
  }

  /** The claims of the given hosts, each once. */
  ghost predicate ClaimsOf(d: Demand, hosts: set<string>, claims: seq<Claim>)
    requires hosts <= d.owner.Keys
  {
    && NoDuplicates(claims)
    && (forall c | c in claims :: c.host in hosts && c == ClaimOf(d, c.host))
    && (forall h | h in hosts :: ClaimOf(d, h) in claims)
  }

  /** The claims are the members of the target's group, each once. */
  ghost predicate Represents(d: Demand, target: string, claims: seq<Claim>) {
    ClaimsOf(d, Group(d, target), claims)
  }

  // ---------- Classes ----------

  /** Those of the first n claims whose Secret has the given class key. */
  function ClaimsWithKey(certificates: Certificates, claims: seq<Claim>, n: nat, key: string): seq<Claim>
    requires n <= |claims|
  {
    if n == 0 then []
    else
      var before := ClaimsWithKey(certificates, claims, n - 1, key);
      if ClassKey(certificates, claims[n - 1].secret) == key then before + [claims[n - 1]] else before
  }

  predicate AnyPinned(claims: seq<Claim>) {
    exists c | c in claims :: c.pinned
  }

  lemma OneMoreClaim(claims: seq<Claim>, n: nat)
    requires 0 < n <= |claims|
    ensures forall c :: c in claims[..n] <==> c in claims[..n - 1] || c == claims[n - 1]
  {
    assert claims[..n] == claims[..n - 1] + [claims[n - 1]];
  }

  lemma {:induction false} ClaimsWithKeyMembers(certificates: Certificates, claims: seq<Claim>, n: nat, key: string)
    requires n <= |claims|
    ensures forall c :: c in ClaimsWithKey(certificates, claims, n, key) <==>
                        c in claims[..n] && ClassKey(certificates, c.secret) == key
  {
    if n > 0 {
      ClaimsWithKeyMembers(certificates, claims, n - 1, key);
      OneMoreClaim(claims, n);
    }
  }

  lemma {:induction false} ClaimsWithKeyNoDuplicates(certificates: Certificates, claims: seq<Claim>, n: nat, key: string)
    requires n <= |claims| && NoDuplicates(claims)
    ensures NoDuplicates(ClaimsWithKey(certificates, claims, n, key))
  {
    if n > 0 {
      ClaimsWithKeyNoDuplicates(certificates, claims, n - 1, key);
      LastClaimNew(certificates, claims, n, key);
    }
  }

  lemma LastClaimNew(certificates: Certificates, claims: seq<Claim>, n: nat, key: string)
    requires 0 < n <= |claims| && NoDuplicates(claims)
    ensures claims[n - 1] !in ClaimsWithKey(certificates, claims, n - 1, key)
  {
    ClaimsWithKeyMembers(certificates, claims, n - 1, key);
    var before := claims[..n - 1];
    assert forall j | 0 <= j < |before| :: before[j] != claims[n - 1];
  }

  ghost predicate Classified(certificates: Certificates, claims: seq<Claim>, n: nat,
                             classes: map<string, WildcardClass>, order: seq<string>)
    requires n <= |claims|
  {
    && NoDuplicates(order)
    && Elements(order) == classes.Keys
    && (forall k :: k in classes <==> ClaimsWithKey(certificates, claims, n, k) != [])
    && (forall k | k in classes ::
          classes[k].claims == ClaimsWithKey(certificates, claims, n, k) &&
          classes[k].pinned == AnyPinned(classes[k].claims))
  }

  lemma AnyPinnedSnoc(claims: seq<Claim>, c: Claim)
    ensures AnyPinned(claims + [c]) == (AnyPinned(claims) || c.pinned)
  {
    assert forall x :: x in claims + [c] <==> x in claims || x == c;
  }

  lemma ClassifiedStep(certificates: Certificates, claims: seq<Claim>, i: nat,
                       classes: map<string, WildcardClass>, order: seq<string>, wc: WildcardClass)
    requires i < |claims| && Classified(certificates, claims, i, classes, order)
    requires var key := ClassKey(certificates, claims[i].secret);
             var before := if key in classes then classes[key].claims else [];
             wc.claims == before + [claims[i]] && wc.pinned == AnyPinned(wc.claims)
    ensures var key := ClassKey(certificates, claims[i].secret);
            Classified(certificates, claims, i + 1, classes[key := wc], if key in classes then order else order + [key])
  {
    var key := ClassKey(certificates, claims[i].secret);
    assert key in order <==> key in Elements(order);
    ElementsSnoc(order, key);
    forall k | k != key
      ensures ClaimsWithKey(certificates, claims, i + 1, k) == ClaimsWithKey(certificates, claims, i, k)
    {
    }
    assert key !in classes ==> ClaimsWithKey(certificates, claims, i, key) == [];
    assert ClaimsWithKey(certificates, claims, i + 1, key) == wc.claims;
  }

  method BuildClasses(claims: seq<Claim>, certificates: Certificates)
    returns (classes: map<string, WildcardClass>, order: seq<string>)
    ensures Classified(certificates, claims, |claims|, classes, order)
  {
    classes, order := map[], [];
    for i := 0 to |claims|
      invariant Classified(certificates, claims, i, classes, order)
    {
      var c := claims[i];
      var key := ClassKey(certificates, c.secret);
      var wc := if key in classes then classes[key] else WildcardClass([], [], [], false);
      AnyPinnedSnoc(wc.claims, c);
      var grown := wc.(claims := wc.claims + [c], pinned := wc.pinned || c.pinned);
      ClassifiedStep(certificates, claims, i, classes, order, grown);
      if key !in classes {
        order := order + [key];
      }
      classes := classes[key := grown];
    }
  }

  /** The second loop's work for one class: its distinct Secrets and hosts, sorted. */
  method SecretsAndHosts(claims: seq<Claim>) returns (secrets: seq<NamespacedName>, hosts: seq<string>)
    requires forall c | c in claims :: PlainNamespace(c.secret)
    ensures secrets == SortedNames(set c | c in claims :: c.secret)
    ensures hosts == SortedStrings(set c | c in claims :: c.host)
  {
    var secretSet: set<NamespacedName> := {};
    var hostSet: set<string> := {};
    for i := 0 to |claims|
      invariant secretSet == set c | c in claims[..i] :: c.secret
      invariant hostSet == set c | c in claims[..i] :: c.host
    {
      assert claims[..i + 1] == claims[..i] + [claims[i]];
      secretSet := secretSet + {claims[i].secret};
      hostSet := hostSet + {claims[i].host};
    }
    assert claims[..|claims|] == claims;
    SlashedDistinct(secretSet);
    secrets := SortSet(SlashedKey, secretSet);
    hosts := SortStringSet(hostSet);
  }

  /** The claims are the members of one class, each once. */
  ghost predicate Lists(d: Demand, target: string, key: string, mine: seq<Claim>) {
    && NoDuplicates(mine)
    && (forall c | c in mine :: c.host in ClassHosts(d, target, key) && c == ClaimOf(d, c.host))
    && (forall h | h in ClassHosts(d, target, key) :: ClaimOf(d, h) in mine)
  }

  /** A class record agrees with the specification's class of that key. */
  ghost predicate Describes(d: Demand, target: string, key: string, wc: WildcardClass)
    requires Plain(d)
  {
    && Lists(d, target, key, wc.claims)
    && wc.secrets == SortedNames(ClassSecrets(d, target, key))
    && wc.hosts == SortedStrings(ClassHosts(d, target, key))
    && wc.pinned == (target in ClassHosts(d, target, key) && IsWildcard(target))
  }

  lemma ClassClaims(d: Demand, target: string, claims: seq<Claim>, key: string)
    requires Represents(d, target, claims)
    ensures Lists(d, target, key, ClaimsWithKey(d.certificates, claims, |claims|, key))
    ensures ClaimsWithKey(d.certificates, claims, |claims|, key) != [] <==> key in ClassKeys(d, target)
  {
    var mine := ClaimsWithKey(d.certificates, claims, |claims|, key);
    ClaimsWithKeyMembers(d.certificates, claims, |claims|, key);
    ClaimsWithKeyNoDuplicates(d.certificates, claims, |claims|, key);
    assert claims[..|claims|] == claims;
    KeyHasHosts(d, target, key);
    if mine != [] {
      assert mine[0] in mine;
    }
    if ClassHosts(d, target, key) != {} {
      var h :| h in ClassHosts(d, target, key);
      assert ClaimOf(d, h) in mine;
    }
  }

  lemma ListedHosts(d: Demand, target: string, key: string, mine: seq<Claim>)
    requires Lists(d, target, key, mine)
    ensures (set c | c in mine :: c.host) == ClassHosts(d, target, key)
  {
    forall h | h in ClassHosts(d, target, key) ensures h in (set c | c in mine :: c.host) {
      assert ClaimOf(d, h) in mine;
    }
  }

  lemma ListedSecrets(d: Demand, target: string, key: string, mine: seq<Claim>)
    requires Lists(d, target, key, mine)
    ensures (set c | c in mine :: c.secret) == ClassSecrets(d, target, key)
  {
    forall h | h in ClassHosts(d, target, key) ensures d.owner[h] in (set c | c in mine :: c.secret) {
      assert ClaimOf(d, h) in mine;
    }
  }

  lemma ListedPinned(d: Demand, target: string, key: string, mine: seq<Claim>)
    requires Lists(d, target, key, mine)
    ensures AnyPinned(mine) <==> target in ClassHosts(d, target, key) && IsWildcard(target)
  {
    if target in ClassHosts(d, target, key) && IsWildcard(target) {
      assert ClaimOf(d, target) in mine;
    }
  }

  method DescribeClass(ghost d: Demand, ghost target: string, ghost key: string, built: WildcardClass)
    returns (wc: WildcardClass)
    requires Plain(d) && Lists(d, target, key, built.claims) && built.pinned == AnyPinned(built.claims)
    ensures Describes(d, target, key, wc)
  {
    var secrets, hosts := SecretsAndHosts(built.claims);
    ListedHosts(d, target, key, built.claims);
    ListedSecrets(d, target, key, built.claims);
    ListedPinned(d, target, key, built.claims);
    wc := built.(secrets := secrets, hosts := hosts);
  }

  ghost predicate Listed(d: Demand, target: string, key: string, wc: WildcardClass) {
    Lists(d, target, key, wc.claims) && wc.pinned == AnyPinned(wc.claims)
  }

  lemma ClassesListed(d: Demand, target: string, claims: seq<Claim>, built: map<string, WildcardClass>, order: seq<string>)
    requires Represents(d, target, claims) && Classified(d.certificates, claims, |claims|, built, order)
    ensures built.Keys == ClassKeys(d, target)
    ensures forall k | k in built :: Listed(d, target, k, built[k])
  {
    forall k
      ensures k in built <==> k in ClassKeys(d, target)
      ensures k in built ==> Listed(d, target, k, built[k])
    {
      ClassClaims(d, target, claims, k);
    }
  }

  /** The second loop, in the arbitrary order of a map's keys. */
  method FillClasses(ghost d: Demand, ghost target: string, built: map<string, WildcardClass>)
    returns (classes: map<string, WildcardClass>)
    requires Plain(d)
    requires forall k | k in built :: Listed(d, target, k, built[k])
    ensures classes.Keys == built.Keys
    ensures forall k | k in classes :: Describes(d, target, k, classes[k])
  {
    classes := map[];
    var rest := built.Keys;
    while rest != {}
      invariant rest <= built.Keys && classes.Keys == built.Keys - rest
      invariant forall k | k in classes :: Describes(d, target, k, classes[k])
      decreases rest
    {
      var key :| key in rest;
      var wc := DescribeClass(d, target, key, built[key]);
      classes := classes[key := wc];
      rest := rest - {key};
    }
  }

  // ---------- Scores ----------

  /** The hosts of the first n claims. */
  ghost function ClaimHosts(claims: seq<Claim>, n: nat): set<string>
    requires n <= |claims|
  {
    if n == 0 then {} else ClaimHosts(claims, n - 1) + {claims[n - 1].host}
  }

  lemma {:induction false} ClaimHostsMembers(claims: seq<Claim>, n: nat)
    requires n <= |claims|
    ensures forall h :: h in ClaimHosts(claims, n) <==> exists j :: 0 <= j < n && claims[j].host == h
  {
    if n > 0 {
      ClaimHostsMembers(claims, n - 1);
    }
  }

  lemma FreshHost(d: Demand, target: string, claims: seq<Claim>, i: nat)
    requires Represents(d, target, claims) && i < |claims|
    ensures claims[i].host !in ClaimHosts(claims, i) && claims[i].host in Group(d, target)
  {
    ClaimHostsMembers(claims, i);
    assert claims[i] in claims;
    forall j | 0 <= j < i ensures claims[j].host != claims[i].host {
      assert claims[j] in claims;
    }
  }

  lemma EveryHostClaims(d: Demand, target: string, claims: seq<Claim>)
    requires Represents(d, target, claims)
    ensures ClaimHosts(claims, |claims|) == Group(d, target)
  {
    ClaimHostsMembers(claims, |claims|);
    forall h | h in Group(d, target) ensures h in ClaimHosts(claims, |claims|) {
      assert ClaimOf(d, h) in claims;
    }
    forall j | 0 <= j < |claims| ensures claims[j].host in Group(d, target) {
      assert claims[j] in claims;
    }
  }

  ghost function MovedAmong(d: Demand, target: string, key: string, hosts: set<string>): set<string> {
    set h | h in hosts && Moves(d, target, key, h)
  }

  /** Whether a claim's host would change listener if the class of inClass won. */
  method ClaimMoves(ghost d: Demand, target: string, ghost key: string, c: Claim, inClass: set<string>,
                    current: map<string, Placement>)
    returns (moves: bool)
    requires current == d.current && inClass == ClassHosts(d, target, key)
    ensures moves == Moves(d, target, key, c.host)
  {
    var prev: Option<string> := None;
    if c.host in current {
      prev := Some(c.host);
    } else if target in current {
      prev := Some(target);
    }
    if prev.None? {
      return false;
    }
    var wanted := c.host;
    if c.host in inClass {
      wanted := target;
    }
    moves := prev.value != wanted;
  }

  /** The inner scoring loop: how many claims would change listener. */
  method CountChurn(ghost d: Demand, target: string, ghost key: string, claims: seq<Claim>, inClass: set<string>,
                    current: map<string, Placement>)
    returns (churn: nat)
    requires Represents(d, target, claims) && current == d.current && inClass == ClassHosts(d, target, key)
    ensures churn == |Moved(d, target, key)|
  {
    churn := 0;
    for i := 0 to |claims|
      invariant churn == |MovedAmong(d, target, key, ClaimHosts(claims, i))|
    {
      ChurnStep(d, target, key, claims, i);
      var moves := ClaimMoves(d, target, key, claims[i], inClass, current);
      if moves {
        churn := churn + 1;
      }
    }
    ChurnComplete(d, target, key, claims);
  }

  lemma ChurnStep(d: Demand, target: string, key: string, claims: seq<Claim>, i: nat)
    requires Represents(d, target, claims) && i < |claims|
    ensures |MovedAmong(d, target, key, ClaimHosts(claims, i + 1))| ==
            |MovedAmong(d, target, key, ClaimHosts(claims, i))| + if Moves(d, target, key, claims[i].host) then 1 else 0
  {
    FreshHost(d, target, claims, i);
    MovedStep(d, target, key, ClaimHosts(claims, i), claims[i].host);
  }

  lemma ChurnComplete(d: Demand, target: string, key: string, claims: seq<Claim>)
    requires Represents(d, target, claims)
    ensures MovedAmong(d, target, key, ClaimHosts(claims, |claims|)) == Moved(d, target, key)
  {
    EveryHostClaims(d, target, claims);
  }

  lemma MovedStep(d: Demand, target: string, key: string, hosts: set<string>, host: string)
    requires host !in hosts
    ensures |MovedAmong(d, target, key, hosts + {host})| ==
            |MovedAmong(d, target, key, hosts)| + if Moves(d, target, key, host) then 1 else 0
  {
    var before, after := MovedAmong(d, target, key, hosts), MovedAmong(d, target, key, hosts + {host});
    assert after == if Moves(d, target, key, host) then before + {host} else before;
  }

  // ---------- The winner ----------

  ghost predicate PinsKnown(d: Demand, target: string, classes: map<string, WildcardClass>) {
    forall k | k in classes :: classes[k].pinned == (target in ClassHosts(d, target, k) && IsWildcard(target))
  }

  /** The pinned class, looked up in order of first appearance. */
  method FindPinned(ghost d: Demand, ghost target: string, classes: map<string, WildcardClass>, order: seq<string>)
    returns (found: Option<string>)
    requires Elements(order) == classes.Keys == ClassKeys(d, target) && PinsKnown(d, target, classes)
    ensures found.Some? ==> found.value in classes && target in ClassHosts(d, target, found.value) && IsWildcard(target)
    ensures found.None? ==> !Pinned(d, target)
  {
    for i := 0 to |order|
      invariant forall j | 0 <= j < i :: order[j] in classes && !classes[order[j]].pinned
    {
      var key := order[i];
      assert key in Elements(order);
      if classes[key].pinned {
        return Some(key);
      }
    }
    if Pinned(d, target) {
      PinnedListed(d, target, classes, order);
    }
    return None;
  }

  lemma PinnedListed(d: Demand, target: string, classes: map<string, WildcardClass>, order: seq<string>)
    requires Elements(order) == classes.Keys == ClassKeys(d, target) && PinsKnown(d, target, classes)
    requires Pinned(d, target)
    ensures exists j :: 0 <= j < |order| && order[j] in classes && classes[order[j]].pinned
  {
    var key := KeyOf(d, target);
    assert key in ClassKeys(d, target) && target in ClassHosts(d, target, key);
    assert key in Elements(order);
    var j :| 0 <= j < |order| && order[j] == key;
    assert classes[order[j]].pinned;
  }

  /** Scores every class and keeps the least score: what sorting the scores and taking the first yields. */
  method BestClass(ghost d: Demand, target: string, claims: seq<Claim>, classes: map<string, WildcardClass>,
                   order: seq<string>, current: map<string, Placement>)
    returns (winnerKey: string)
    requires Plain(d) && Represents(d, target, claims) && current == d.current
    requires Elements(order) == classes.Keys == ClassKeys(d, target) && NoDuplicates(order) && order != []
    requires forall k | k in classes :: Describes(d, target, k, classes[k])
    ensures Best(d, target, ClassKeys(d, target), winnerKey)
  {
    winnerKey := order[0];
    var best := ScoreClass(d, target, claims, order[0], classes, order, 0, current);
    FirstSeen(order);
    for i := 1 to |order|
      invariant BestSoFar(d, target, order, i, winnerKey, best)
    {
      var key := order[i];
      var score := ScoreClass(d, target, claims, key, classes, order, i, current);
      BestNext(d, target, order, i, winnerKey, best, score);
      if Better(score, best) {
        winnerKey, best := key, score;
      }
    }
    assert order[..|order|] == order;
  }

  /** The best of the first n classes, and its score. */
  ghost predicate BestSoFar(d: Demand, target: string, order: seq<string>, n: nat, winnerKey: string, best: Score)
    requires Plain(d) && n <= |order|
  {
    Best(d, target, Elements(order[..n]), winnerKey) && ScoredAs(d, target, winnerKey, best)
  }

  lemma FirstSeen(order: seq<string>)
    requires order != []
    ensures Elements(order[..1]) == {order[0]}
  {
  }

  lemma BestNext(d: Demand, target: string, order: seq<string>, n: nat, winnerKey: string, best: Score, score: Score)
    requires Plain(d) && n < |order| && NoDuplicates(order) && Elements(order) == ClassKeys(d, target)
    requires BestSoFar(d, target, order, n, winnerKey, best) && ScoredAs(d, target, order[n], score)
    ensures if Better(score, best) then BestSoFar(d, target, order, n + 1, order[n], score)
            else BestSoFar(d, target, order, n + 1, winnerKey, best)
  {
    NotYetSeen(order, n);
    assert order[n] in Elements(order);
    forall x | x in Elements(order[..n]) ensures x in ClassKeys(d, target) {
      assert x in Elements(order);
    }
    BestStep(d, target, Elements(order[..n]), winnerKey, best, order[n], score);
  }

  ghost predicate ScoredAs(d: Demand, target: string, key: string, score: Score)
    requires Plain(d)
  {
    ClassHosts(d, target, key) != {} && score == ScoreOf(d, target, key)
  }

  lemma BestStep(d: Demand, target: string, seen: set<string>, winnerKey: string, best: Score, key: string, score: Score)
    requires Plain(d) && Best(d, target, seen, winnerKey) && seen <= ClassKeys(d, target)
    requires key !in seen && key in ClassKeys(d, target)
    requires ScoredAs(d, target, winnerKey, best) && ScoredAs(d, target, key, score)
    ensures Best(d, target, seen + {key}, if Better(score, best) then key else winnerKey)
  {
    BestExtends(d, target, seen, winnerKey, key);
    assert Beats(d, target, key, winnerKey) == Better(score, best);
  }

  lemma NotYetSeen(order: seq<string>, i: nat)
    requires i < |order| && NoDuplicates(order)
    ensures order[i] !in Elements(order[..i])
    ensures Elements(order[..i + 1]) == Elements(order[..i]) + {order[i]}
  {
    assert order[..i + 1] == order[..i] + [order[i]];
    ElementsSnoc(order[..i], order[i]);
  }

  method ScoreClass(ghost d: Demand, target: string, claims: seq<Claim>, key: string,
                    classes: map<string, WildcardClass>, ghost order: seq<string>, ghost i: nat,
                    current: map<string, Placement>)
    returns (score: Score)
    requires Plain(d) && Represents(d, target, claims) && current == d.current
    requires i < |order| && key == order[i] && Elements(order) == classes.Keys == ClassKeys(d, target)
    requires forall k | k in classes :: Describes(d, target, k, classes[k])
    ensures key in ClassKeys(d, target) && ScoredAs(d, target, key, score)
  {
    assert key in Elements(order);
    KeyHasHosts(d, target, key);
    var wc := classes[key];
    var inClass := set c | c in wc.claims :: c.host;
    ListedHosts(d, target, key, wc.claims);
    FirstSecretExists(d, target, key);
    var churn := CountChurn(d, target, key, claims, inClass, current);
    score := Score(churn, |wc.hosts|, Slashed(wc.secrets[0]));
  }

  // ---------- The winner's listener and the fallbacks ----------

  ghost function Exact(d: Demand, host: string): ProjectedListener
    requires host in d.owner
  {
    ProjectedListener(host, d.owner[host], [host])
  }

  method PickCanonical(ghost d: Demand, target: string, wc: WildcardClass, current: map<string, Placement>)
    returns (canonical: NamespacedName)
    requires Plain(d) && Group(d, target) != {} && current == d.current
    requires Describes(d, target, Elected(d, target), wc)
    ensures canonical == Canonical(d, target)
  {
    KeyHasHosts(d, target, Elected(d, target));
    FirstSecretExists(d, target, Elected(d, target));
    canonical := wc.secrets[0];
    if target in current && current[target].secret in wc.secrets {
      canonical := current[target].secret;
    }
  }

  method Fallbacks(ghost d: Demand, ghost target: string, classes: map<string, WildcardClass>, order: seq<string>,
                   winnerKey: string)
    returns (fallbacks: seq<ProjectedListener>)
    requires Plain(d) && Elements(order) == classes.Keys == ClassKeys(d, target) && NoDuplicates(order)
    requires forall k | k in classes :: Describes(d, target, k, classes[k])
    ensures forall l | l in fallbacks ::
              l.hostname in Group(d, target) && KeyOf(d, l.hostname) != winnerKey && l == Exact(d, l.hostname)
    ensures forall h | h in Group(d, target) && KeyOf(d, h) != winnerKey :: Exact(d, h) in fallbacks
    ensures NoDuplicates(fallbacks)
  {
    fallbacks := [];
    for i := 0 to |order|
      invariant NoDuplicates(fallbacks)
      invariant forall l | l in fallbacks ::
                  l.hostname in Group(d, target) && KeyOf(d, l.hostname) != winnerKey && l == Exact(d, l.hostname) &&
                  KeyOf(d, l.hostname) in Elements(order[..i])
      invariant forall h | h in Group(d, target) && KeyOf(d, h) != winnerKey && KeyOf(d, h) in Elements(order[..i]) ::
                  Exact(d, h) in fallbacks
    {
      var key := order[i];
      assert key in Elements(order);
      NotYetSeen(order, i);
      if key == winnerKey {
        continue;
      }
      var exact := ExactListeners(d, target, key, classes[key].claims);
      JoinDistinct(fallbacks, exact);
      fallbacks := fallbacks + exact;
    }
    assert order[..|order|] == order;
  }

  lemma JoinDistinct(a: seq<ProjectedListener>, b: seq<ProjectedListener>)
    requires NoDuplicates(a) && NoDuplicates(b) && forall x | x in a :: x !in b
    ensures NoDuplicates(a + b)
  {
    forall i, j | 0 <= i < |a| <= j < |a + b| ensures (a + b)[i] != (a + b)[j] {
      assert a[i] in a && b[j - |a|] in b;
    }
  }

  method ExactListeners(ghost d: Demand, ghost target: string, ghost key: string, claims: seq<Claim>)
    returns (exact: seq<ProjectedListener>)
    requires Lists(d, target, key, claims)
    ensures NoDuplicates(exact)
    ensures forall l | l in exact :: l.hostname in ClassHosts(d, target, key) && l == Exact(d, l.hostname)
    ensures forall h | h in ClassHosts(d, target, key) :: Exact(d, h) in exact
  {
    exact := [];
    for i := 0 to |claims|
      invariant |exact| == i
      invariant forall j | 0 <= j < i :: claims[j].host in ClassHosts(d, target, key) && exact[j] == Exact(d, claims[j].host)
    {
      assert claims[i] in claims;
      exact := exact + [ProjectedListener(claims[i].host, claims[i].secret, [claims[i].host])];
    }
    forall i, j | 0 <= i < j < |exact| ensures exact[i] != exact[j] {
      assert claims[i] in claims && claims[j] in claims;
    }
    forall h | h in ClassHosts(d, target, key) ensures Exact(d, h) in exact {
      assert ClaimOf(d, h) in claims;
      var j :| 0 <= j < |claims| && claims[j] == ClaimOf(d, h);
      assert exact[j] == Exact(d, h);
    }
  }

  /** One wildcard group yields the elected class's listener and an exact listener for everyone else. */
  method ResolveWildcardGroup(ghost d: Demand, target: string, claims: seq<Claim>,
                              certificates: Certificates, current: map<string, Placement>)
    returns (winner: ProjectedListener, fallbacks: seq<ProjectedListener>)
    requires Plain(d) && Represents(d, target, claims) && Group(d, target) != {}
    requires certificates == d.certificates && current == d.current
    ensures winner == ProjectedListener(target, Canonical(d, target),
                                        SortedStrings(ClassHosts(d, target, Elected(d, target))))
    ensures forall l | l in fallbacks ::
              l.hostname in Group(d, target) && KeyOf(d, l.hostname) != Elected(d, target) && l == Exact(d, l.hostname)
    ensures forall h | h in Group(d, target) && KeyOf(d, h) != Elected(d, target) :: Exact(d, h) in fallbacks
    ensures Ascending(HostnameKey, fallbacks)
  {
    var built, order := BuildClasses(claims, certificates);
    ClassesListed(d, target, claims, built, order);
    var classes := FillClasses(d, target, built);
    var winnerKey := ElectClass(d, target, claims, classes, order, current);
    var canonical := PickCanonical(d, target, classes[winnerKey], current);
    winner := ProjectedListener(target, canonical, classes[winnerKey].hosts);
    var unsorted := Fallbacks(d, target, classes, order, winnerKey);
    SortByElements(HostnameKey, unsorted);
    FallbackKeysDistinct(d, unsorted);
    SortByAscending(HostnameKey, unsorted);
    fallbacks := SortBy(HostnameKey, unsorted);
    assert forall l :: l in fallbacks <==> l in Elements(fallbacks);
    assert forall l :: l in unsorted <==> l in Elements(unsorted);
  }

  lemma FallbackKeysDistinct(d: Demand, listeners: seq<ProjectedListener>)
    requires forall l | l in listeners :: l.hostname in d.owner && l == Exact(d, l.hostname)
    ensures DistinctKeys(HostnameKey, Elements(listeners))
  {
  }

  /** A pinned class wins outright; otherwise the best score does. */
  method ElectClass(ghost d: Demand, target: string, claims: seq<Claim>, classes: map<string, WildcardClass>,
                    order: seq<string>, current: map<string, Placement>)
    returns (winnerKey: string)
    requires Plain(d) && Represents(d, target, claims) && current == d.current && Group(d, target) != {}
    requires Elements(order) == classes.Keys == ClassKeys(d, target) && NoDuplicates(order)
    requires forall k | k in classes :: Describes(d, target, k, classes[k])
    ensures winnerKey == Elected(d, target) && winnerKey in classes
  {
    var pinned := FindPinned(d, target, classes, order);
    if pinned.Some? {
      winnerKey := pinned.value;
      assert Wins(d, target, winnerKey);
    } else {
      assert order != [] by {
        var h :| h in Group(d, target);
        assert KeyOf(d, h) in Elements(order);
      }
      winnerKey := BestClass(d, target, claims, classes, order, current);
      assert Wins(d, target, winnerKey);
    }
    WinnerUnique(d, target, winnerKey, Elected(d, target));
  }
}
