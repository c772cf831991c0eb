// Which listener serves each declared hostname: grouping under wildcard targets
// and the election of one certificate class per wildcard.
module Election {
  import opened Text
  import opened Sorting
  import opened Model

  /** What the planner works on once conflicts are settled: the Secret owning each declared
      hostname, the parsed certificates, and the previous placement. */
  datatype Demand = Demand(
    owner: map<string, NamespacedName>,
    certificates: Option<map<NamespacedName, CertificateInfo>>,
    current: map<string, Placement>)

  ghost predicate Plain(d: Demand) {
    forall h | h in d.owner :: PlainNamespace(d.owner[h])
  }

  // ---------- Grouping ----------

  /** The wildcard SAN covering host, or "". */
  function CoveringWildcard(host: string, info: CertificateInfo): string {
    match WildcardParent(host)
    case Some(candidate) => if candidate in info.wildcardSANs then candidate else ""
    case None => ""
  }

  /** The listener hostname a declared host collapses to, given its Secret. */
  function TargetOf(certificates: Option<map<NamespacedName, CertificateInfo>>, host: string, secret: NamespacedName)
    : (target: string)
    ensures IsWildcard(host) ==> target == host
    ensures !IsWildcard(target) ==> target == host
    ensures target != host ==>
              && WildcardParent(host) == Some(target)
              && certificates.Some? && secret in certificates.value
              && target in certificates.value[secret].wildcardSANs
  {
    if IsWildcard(host) || certificates.None? || secret !in certificates.value then host
    else
      var covering := CoveringWildcard(host, certificates.value[secret]);
      if covering == "" then host else covering
  }

  function Target(d: Demand, host: string): string
    requires host in d.owner
  {
    TargetOf(d.certificates, host, d.owner[host])
  }

  ghost function Group(d: Demand, target: string): set<string> {
    set h | h in d.owner && Target(d, h) == target
  }

  // ---------- Certificate classes ----------

  /** Secrets with the same chain share a class; a Secret without a usable certificate is its own class. */
  function ClassKey(certificates: Option<map<NamespacedName, CertificateInfo>>, secret: NamespacedName): string {
    if certificates.Some? && secret in certificates.value && certificates.value[secret].fingerprint != ""
    then "fp:" + certificates.value[secret].fingerprint
    else "secret:" + Slashed(secret)
  }

  lemma SameClass(certificates: Option<map<NamespacedName, CertificateInfo>>, a: NamespacedName, b: NamespacedName)
    requires PlainNamespace(a) && PlainNamespace(b)
    requires ClassKey(certificates, a) == ClassKey(certificates, b)
    ensures a == b || (certificates.Some? && a in certificates.value && b in certificates.value &&
                       certificates.value[a].fingerprint == certificates.value[b].fingerprint)
  {
    var ka, kb := ClassKey(certificates, a), ClassKey(certificates, b);
    assert ka[0] == kb[0];
    if ka[0] == 's' {
      assert ka[7..] == Slashed(a) && kb[7..] == Slashed(b);
      SlashedInjective(a, b);
    } else {
      assert ka[3..] == certificates.value[a].fingerprint && kb[3..] == certificates.value[b].fingerprint;
    }
  }

  function KeyOf(d: Demand, host: string): string
    requires host in d.owner
  {
    ClassKey(d.certificates, d.owner[host])
  }

  ghost function ClassHosts(d: Demand, target: string, key: string): set<string> {
    set h | h in Group(d, target) && KeyOf(d, h) == key
  }

  ghost function ClassKeys(d: Demand, target: string): set<string> {
    set h | h in Group(d, target) :: KeyOf(d, h)
  }

  ghost function ClassSecrets(d: Demand, target: string, key: string): set<NamespacedName> {
    set h | h in ClassHosts(d, target, key) :: d.owner[h]
  }

  ghost function SortedNames(s: set<NamespacedName>): (xs: seq<NamespacedName>)
    requires forall n | n in s :: PlainNamespace(n)
    ensures Ascending(SlashedKey, xs) && Elements(xs) == s
    ensures forall x :: x in xs <==> x in s
  {
    SlashedDistinct(s);
    Sorted(SlashedKey, s)
  }

  lemma FirstSecretExists(d: Demand, target: string, key: string)
    requires Plain(d) && ClassHosts(d, target, key) != {}
    ensures SortedNames(ClassSecrets(d, target, key)) != []
    ensures SortedNames(ClassSecrets(d, target, key))[0] in ClassSecrets(d, target, key)
  {
    var h :| h in ClassHosts(d, target, key);
    assert d.owner[h] in ClassSecrets(d, target, key);
    var xs := SortedNames(ClassSecrets(d, target, key));
    assert d.owner[h] in xs;
    assert xs[0] in xs;
  }

  ghost function FirstSecret(d: Demand, target: string, key: string): (first: NamespacedName)
    requires Plain(d) && ClassHosts(d, target, key) != {}
    ensures first in ClassSecrets(d, target, key)
  {
    FirstSecretExists(d, target, key);
    SortedNames(ClassSecrets(d, target, key))[0]
  }

  // ---------- Scores ----------

  /** The listener serving a host under a placement: its own, else its wildcard's. */
  function Serving(placements: map<string, Placement>, host: string, wildcard: string): Option<string> {
    if host in placements then Some(host)
    else if wildcard in placements then Some(wildcard)
    else None
  }

  /** The listener a host would be served by if the class won. */
  ghost function Wanted(d: Demand, target: string, key: string, host: string): string {
    if host in ClassHosts(d, target, key) then target else host
  }

  /** The class winning would change the listener that serves the host now. */
  ghost predicate Moves(d: Demand, target: string, key: string, host: string) {
    var serving := Serving(d.current, host, target);
    serving.Some? && serving.value != Wanted(d, target, key, host)
  }

  ghost function Moved(d: Demand, target: string, key: string): set<string> {
    set h | h in Group(d, target) && Moves(d, target, key, h)
  }

  datatype Score = Score(churn: nat, hosts: nat, first: string)

  /** Least churn, then most hosts, then first Secret. */
  predicate Better(a: Score, b: Score) {
    a.churn < b.churn ||
    (a.churn == b.churn && (a.hosts > b.hosts || (a.hosts == b.hosts && Less(a.first, b.first))))
  }

  ghost function ScoreOf(d: Demand, target: string, key: string): Score
    requires Plain(d) && ClassHosts(d, target, key) != {}
  {
    Score(|Moved(d, target, key)|, |ClassHosts(d, target, key)|, Slashed(FirstSecret(d, target, key)))
  }

  /** A literal wildcard declaration decides the election for its class. */
  ghost predicate Pinned(d: Demand, target: string) {
    target in Group(d, target) && IsWildcard(target)
  }

  lemma KeyHasHosts(d: Demand, target: string, key: string)
    ensures key in ClassKeys(d, target) <==> ClassHosts(d, target, key) != {}
  {
    if ClassHosts(d, target, key) != {} {
      var h :| h in ClassHosts(d, target, key);
      assert h in Group(d, target) && KeyOf(d, h) == key;
    }
    if key in ClassKeys(d, target) {
      var h :| h in Group(d, target) && KeyOf(d, h) == key;
      assert h in ClassHosts(d, target, key);
    }
  }

  ghost predicate Beats(d: Demand, target: string, a: string, b: string)
    requires Plain(d)
  {
    KeyHasHosts(d, target, a);
    KeyHasHosts(d, target, b);
    a in ClassKeys(d, target) && b in ClassKeys(d, target) &&
    Better(ScoreOf(d, target, a), ScoreOf(d, target, b))
  }

  ghost predicate Best(d: Demand, target: string, keys: set<string>, key: string)
    requires Plain(d)
  {
    key in keys && forall other | other in keys && other != key :: Beats(d, target, key, other)
  }

  /** The specification of the election: the unique best class, or the one holding the literal wildcard. */
  ghost predicate Wins(d: Demand, target: string, key: string)
    requires Plain(d)
  {
    key in ClassKeys(d, target) &&
    if Pinned(d, target) then target in ClassHosts(d, target, key)
    else Best(d, target, ClassKeys(d, target), key)
  }

  lemma BeatsTotal(d: Demand, target: string, a: string, b: string)
    requires Plain(d) && a in ClassKeys(d, target) && b in ClassKeys(d, target) && a != b
    ensures Beats(d, target, a, b) || Beats(d, target, b, a)
    ensures !(Beats(d, target, a, b) && Beats(d, target, b, a))
  {
    KeyHasHosts(d, target, a);
    KeyHasHosts(d, target, b);
    var fa, fb := FirstSecret(d, target, a), FirstSecret(d, target, b);
    var ha :| ha in ClassHosts(d, target, a) && d.owner[ha] == fa;
    var hb :| hb in ClassHosts(d, target, b) && d.owner[hb] == fb;
    if Slashed(fa) == Slashed(fb) {
      SlashedInjective(fa, fb);
    }
    LessTotal(Slashed(fa), Slashed(fb));
  }

  lemma BeatsTransitive(d: Demand, target: string, a: string, b: string, c: string)
    requires Plain(d) && Beats(d, target, a, b) && Beats(d, target, b, c)
    ensures Beats(d, target, a, c)
  {
    KeyHasHosts(d, target, a);
    KeyHasHosts(d, target, b);
    KeyHasHosts(d, target, c);
    var sa, sb, sc := ScoreOf(d, target, a), ScoreOf(d, target, b), ScoreOf(d, target, c);
    if Less(sa.first, sb.first) && Less(sb.first, sc.first) {
      LessTransitive(sa.first, sb.first, sc.first);
    }
  }

  lemma BestExtends(d: Demand, target: string, keys: set<string>, best: string, x: string)
    requires Plain(d) && Best(d, target, keys, best)
    requires x !in keys && x in ClassKeys(d, target) && keys <= ClassKeys(d, target)
    ensures Best(d, target, keys + {x}, if Beats(d, target, x, best) then x else best)
  {
    BeatsTotal(d, target, x, best);
    if Beats(d, target, x, best) {
      forall other | other in keys ensures Beats(d, target, x, other) {
        if other != best {
          BeatsTransitive(d, target, x, best, other);
        }
      }
    }
  }

  lemma {:induction false} BestExists(d: Demand, target: string, keys: set<string>)
    requires Plain(d) && keys != {} && keys <= ClassKeys(d, target)
    ensures exists k :: Best(d, target, keys, k)
  {
    var x :| x in keys;
    var rest := keys - {x};
    if rest == {} {
      assert Best(d, target, keys, x);
    } else {
      BestExists(d, target, rest);
      var best :| Best(d, target, rest, best);
      BestExtends(d, target, rest, best, x);
      assert rest + {x} == keys;
    }
  }

  lemma WinnerExists(d: Demand, target: string)
    requires Plain(d) && Group(d, target) != {}
    ensures exists k :: Wins(d, target, k)
  {
    var h :| h in Group(d, target);
    assert KeyOf(d, h) in ClassKeys(d, target);
    if Pinned(d, target) {
      assert Wins(d, target, KeyOf(d, target));
    } else {
      BestExists(d, target, ClassKeys(d, target));
      var k :| Best(d, target, ClassKeys(d, target), k);
      assert Wins(d, target, k);
    }
  }

  /** The election has one winner, so no iteration order can matter to it. */
  lemma WinnerUnique(d: Demand, target: string, a: string, b: string)
    requires Plain(d) && Wins(d, target, a) && Wins(d, target, b)
    ensures a == b
  {
    if a != b && !Pinned(d, target) {
      assert Beats(d, target, a, b) && Beats(d, target, b, a);
      BeatsTotal(d, target, a, b);
    }
  }

  ghost function Elected(d: Demand, target: string): (key: string)
    requires Plain(d) && Group(d, target) != {}
    ensures Wins(d, target, key)
  {
    WinnerExists(d, target);
    var key :| Wins(d, target, key);
    key
  }

  // ---------- The projection ----------

  /** The Secret of a wildcard listener: the one it already has if that is still in the class, else the first. */
  ghost function Canonical(d: Demand, target: string): (secret: NamespacedName)
    requires Plain(d) && Group(d, target) != {}
    ensures secret in ClassSecrets(d, target, Elected(d, target))
  {
    var key := Elected(d, target);
    KeyHasHosts(d, target, key);
    if target in d.current && d.current[target].secret in ClassSecrets(d, target, key)
    then d.current[target].secret
    else FirstSecret(d, target, key)
  }

  /** The hostname of the one listener that serves a declared host. */
  ghost function ListenerOf(d: Demand, host: string): string
    requires Plain(d) && host in d.owner
  {
    var target := Target(d, host);
    assert host in Group(d, target);
    if IsWildcard(target) && KeyOf(d, host) == Elected(d, target) then target else host
  }

  ghost function Listeners(d: Demand): set<string>
    requires Plain(d)
  {
    set h | h in d.owner :: ListenerOf(d, h)
  }

  ghost function Served(d: Demand, listener: string): set<string>
    requires Plain(d)
  {
    set h | h in d.owner && ListenerOf(d, h) == listener
  }

  datatype ProjectedListener = ProjectedListener(hostname: string, secret: NamespacedName, hosts: seq<string>)

  function HostnameKey(l: ProjectedListener): Key {
    (l.hostname, "")
  }

  /** A listener's hostname is always grouped under a wildcard, or is itself declared. */
  lemma ListenerShape(d: Demand, listener: string)
    requires Plain(d) && listener in Listeners(d)
    ensures IsWildcard(listener) ==> Group(d, listener) != {} && Served(d, listener) == ClassHosts(d, listener, Elected(d, listener))
    ensures !IsWildcard(listener) ==> listener in d.owner && Served(d, listener) == {listener}
    ensures Served(d, listener) != {}
  {
    var h :| h in d.owner && ListenerOf(d, h) == listener;
    assert h in Served(d, listener);
    if IsWildcard(listener) {
      WildcardIsElected(d, h);
      forall g | g in d.owner ensures g in Served(d, listener) <==> g in ClassHosts(d, listener, Elected(d, listener)) {
        if ListenerOf(d, g) == listener {
          WildcardIsElected(d, g);
        }
      }
    } else {
      assert listener == h;
      forall g | g in Served(d, listener) ensures g == listener {}
    }
  }

  lemma WildcardIsElected(d: Demand, host: string)
    requires Plain(d) && host in d.owner && IsWildcard(ListenerOf(d, host))
    ensures host in Group(d, ListenerOf(d, host))
    ensures KeyOf(d, host) == Elected(d, ListenerOf(d, host))
  {
    var target := Target(d, host);
    assert host in Group(d, target);
    if ListenerOf(d, host) == host {
      assert IsWildcard(host) && target == host;
      assert Wins(d, target, Elected(d, target));
      assert Pinned(d, target);
    }
  }

  ghost function SecretFor(d: Demand, listener: string): NamespacedName
    requires Plain(d) && listener in Listeners(d)
  {
    ListenerShape(d, listener);
    if IsWildcard(listener) then Canonical(d, listener) else d.owner[listener]
  }

  ghost function Projected(d: Demand, listener: string): ProjectedListener
    requires Plain(d) && listener in Listeners(d)
  {
    ProjectedListener(listener, SecretFor(d, listener), SortedStrings(Served(d, listener)))
  }
}
