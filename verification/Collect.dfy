// Collecting the declared TLS hostnames: which Secret owns each of them, who
// declared it, and which Ingresses are told about a conflict.
module Collect {
  import opened Text
  import opened Sorting
  import opened Model

  // ---------- The hosts of one TLS entry ----------

  /** Normalised non-empty names among the first n, in order. */
  function Named(raws: seq<string>, n: nat): seq<string>
    requires n <= |raws|
  {
    if n == 0 then []
    else
      var host := Normalise(raws[n - 1]);
      if host == "" then Named(raws, n - 1) else Named(raws, n - 1) + [host]
  }

  /** The distinct members of the first n, each where it first occurs. */
  function FirstOccurrences(xs: seq<string>, n: nat): (r: seq<string>)
    requires n <= |xs|
    ensures NoDuplicates(r)
    ensures forall x :: x in r <==> x in xs[..n]
  {
    if n == 0 then []
    else
      var before := FirstOccurrences(xs, n - 1);
      assert xs[..n] == xs[..n - 1] + [xs[n - 1]];
      if xs[n - 1] in before then before else before + [xs[n - 1]]
  }

  /** The normalised non-empty names among the first n, each where it first occurs. */
  function InferredFirst(ruleHosts: seq<string>, n: nat): seq<string>
    requires n <= |ruleHosts|
  {
    if n == 0 then []
    else
      var before, host := InferredFirst(ruleHosts, n - 1), Normalise(ruleHosts[n - 1]);
      if host == "" || host in before then before else before + [host]
  }

  function InferredFrom(ruleHosts: seq<string>): seq<string> {
    InferredFirst(ruleHosts, |ruleHosts|)
  }

  /** A TLS entry without hosts applies to every named rule of its Ingress. */
  function EffectiveHosts(ing: Ingress, tls: TLSEntry): seq<string> {
    if |tls.hosts| > 0 then Named(tls.hosts, |tls.hosts|) else InferredFrom(ing.ruleHosts)
  }

  method EffectiveTLSHosts(ing: Ingress, tls: TLSEntry) returns (result: seq<string>)
    ensures result == EffectiveHosts(ing, tls)
  {
    if |tls.hosts| > 0 {
      result := [];
      for i := 0 to |tls.hosts|
        invariant result == Named(tls.hosts, i)
      {
        var host := Normalise(tls.hosts[i]);
        if host != "" {
          result := result + [host];
        }
      }
    } else {
      result := InferredHosts(ing.ruleHosts);
    }
  }

  /** The second half of effectiveTLSHosts: the named rules, each once. */
  method InferredHosts(ruleHosts: seq<string>) returns (result: seq<string>)
    ensures result == InferredFrom(ruleHosts)
  {
    var seen: set<string> := {};
    result := [];
    for i := 0 to |ruleHosts|
      invariant result == InferredFirst(ruleHosts, i) && seen == Elements(result)
    {
      var host := Normalise(ruleHosts[i]);
      if host == "" {
        continue;
      }
      if host in seen {
        continue;
      }
      ElementsSnoc(result, host);
      seen := seen + {host};
      result := result + [host];
    }
  }

  /** Inferring gives every named rule host, once. */
  lemma {:induction false} InferredMembers(ruleHosts: seq<string>, n: nat, host: string)
    requires n <= |ruleHosts|
    ensures host in InferredFirst(ruleHosts, n) <==> host != "" && exists i :: 0 <= i < n && Normalise(ruleHosts[i]) == host
    ensures NoDuplicates(InferredFirst(ruleHosts, n))
  {
    if n > 0 {
      InferredMembers(ruleHosts, n - 1, host);
    }
  }

  lemma {:induction false} FirstOccurrencesPrefix(xs: seq<string>, ys: seq<string>, n: nat)
    requires n <= |xs|
    ensures FirstOccurrences(xs + ys, n) == FirstOccurrences(xs, n)
  {
    if n > 0 {
      FirstOccurrencesPrefix(xs, ys, n - 1);
    }
  }

  lemma FirstOccurrencesSnoc(xs: seq<string>, x: string)
    ensures FirstOccurrences(xs + [x], |xs| + 1) ==
            if x in FirstOccurrences(xs, |xs|) then FirstOccurrences(xs, |xs|) else FirstOccurrences(xs, |xs|) + [x]
  {
    FirstOccurrencesPrefix(xs, [x], |xs|);
  }

  // ---------- Declarations ----------

  /** One thing an Ingress says about TLS, or one reason it says nothing. */
  datatype Declaration =
    | Rejected(source: NamespacedName, reason: Reason)
    | Declares(source: NamespacedName, secret: NamespacedName, host: string)

  function HostDeclaration(source: NamespacedName, secret: NamespacedName, raw: string): Declaration {
    var host := Normalise(raw);
    if host == "" then Rejected(source, EmptyHost) else Declares(source, secret, host)
  }

  function HostDeclarations(source: NamespacedName, secret: NamespacedName, hosts: seq<string>): seq<Declaration> {
    seq(|hosts|, i requires 0 <= i < |hosts| => HostDeclaration(source, secret, hosts[i]))
  }

  function EntryDeclarations(ing: Ingress, tls: TLSEntry): seq<Declaration> {
    var source := SourceOf(ing);
    var secret := TrimSpace(tls.secretName);
    var hosts := EffectiveHosts(ing, tls);
    if secret == "" then [Rejected(source, NoSecretName)]
    else if hosts == [] then [Rejected(source, NoHosts)]
    else HostDeclarations(source, NamespacedName(ing.ns, secret), hosts)
  }

  function Joined(parts: seq<seq<Declaration>>, n: nat): seq<Declaration>
    requires n <= |parts|
  {
    if n == 0 then [] else Joined(parts, n - 1) + parts[n - 1]
  }

  function EntryParts(ing: Ingress): seq<seq<Declaration>> {
    seq(|ing.tls|, k requires 0 <= k < |ing.tls| => EntryDeclarations(ing, ing.tls[k]))
  }

  /** What the first n TLS entries of an Ingress declare. */
  function IngressDeclarations(ing: Ingress, n: nat): seq<Declaration>
    requires n <= |ing.tls|
  {
    Joined(EntryParts(ing), n)
  }

  function LiveDeclarations(ing: Ingress): seq<Declaration> {
    if ing.deleting then [] else IngressDeclarations(ing, |ing.tls|)
  }

  function IngressParts(ings: seq<Ingress>): seq<seq<Declaration>> {
    seq(|ings|, i requires 0 <= i < |ings| => LiveDeclarations(ings[i]))
  }

  /** Everything the live Ingresses among the first n declare, in the order they are listed. */
  function Declarations(ings: seq<Ingress>, n: nat): seq<Declaration>
    requires n <= |ings|
  {
    Joined(IngressParts(ings), n)
  }

  // ---------- The collected state ----------

  datatype Owner = Owner(secret: NamespacedName, source: NamespacedName)

  datatype Collected = Collected(
    owners: map<string, Owner>,
    declaredBy: map<string, set<NamespacedName>>,
    issues: Issues)

  function Declarers(declaredBy: map<string, set<NamespacedName>>, host: string): set<NamespacedName> {
    if host in declaredBy then declaredBy[host] else {}
  }

  function Absorb(c: Collected, d: Declaration): Collected {
    match d
    case Rejected(source, reason) => c.(issues := AddIssue(c.issues, source, Unusable(reason)))
    case Declares(source, secret, host) =>
      var declaredBy := c.declaredBy[host := Declarers(c.declaredBy, host) + {source}];
      if host in c.owners && c.owners[host].secret != secret then
        var owner := c.owners[host];
        var conflict := Conflict(host, owner.secret, owner.source);
        Collected(c.owners, declaredBy, AddIssue(AddIssue(c.issues, source, conflict), owner.source, conflict))
      else
        Collected(c.owners[host := Owner(secret, source)], declaredBy, c.issues)
  }

  const NOTHING: Collected := Collected(map[], map[], map[])

  /** Absorbs the first n declarations into c. */
  function AbsorbFirst(c: Collected, ds: seq<Declaration>, n: nat): Collected
    requires n <= |ds|
  {
    if n == 0 then c else Absorb(AbsorbFirst(c, ds, n - 1), ds[n - 1])
  }

  function AbsorbAll(c: Collected, ds: seq<Declaration>): Collected {
    AbsorbFirst(c, ds, |ds|)
  }

  lemma AbsorbOne(c: Collected, d: Declaration)
    ensures AbsorbAll(c, [d]) == Absorb(c, d)
  {
    assert AbsorbFirst(c, [d], 0) == c;
  }

  /** The collection's outer loop, over the sorted Ingresses. */
  method CollectDeclarations(sorted: seq<Ingress>)
    returns (certificates: map<string, Owner>, declaredBy: map<string, set<NamespacedName>>,
             tlsHosts: set<string>, issues: Issues)
    ensures Collected(certificates, declaredBy, issues) == AbsorbAll(NOTHING, Declarations(sorted, |sorted|))
    ensures tlsHosts == certificates.Keys
  {
    certificates, declaredBy, tlsHosts, issues := map[], map[], {}, map[];
    ghost var states := LiveHistory(NOTHING, sorted);
    for i := 0 to |sorted|
      invariant Collected(certificates, declaredBy, issues) == states[i]
      invariant tlsHosts == certificates.Keys
    {
      if sorted[i].deleting {
        continue;
      }
      certificates, declaredBy, tlsHosts, issues :=
        CollectIngress(sorted[i], certificates, declaredBy, tlsHosts, issues);
    }
  }

  lemma AbsorbPart(c: Collected, parts: seq<seq<Declaration>>, i: nat)
    requires i < |parts|
    ensures AbsorbAll(c, Joined(parts, i + 1)) == AbsorbAll(AbsorbAll(c, Joined(parts, i)), parts[i])
  {
    AbsorbAppend(c, Joined(parts, i), parts[i]);
  }

  /** The collected state after each part. */
  lemma AbsorbHistory(c: Collected, parts: seq<seq<Declaration>>) returns (states: seq<Collected>)
    ensures |states| == |parts| + 1 && states[0] == c && states[|parts|] == AbsorbAll(c, Joined(parts, |parts|))
    ensures forall i | 0 <= i < |parts| :: states[i + 1] == AbsorbAll(states[i], parts[i])
  {
    states := seq(|parts| + 1, i requires 0 <= i <= |parts| => AbsorbAll(c, Joined(parts, i)));
    forall i | 0 <= i < |parts| ensures states[i + 1] == AbsorbAll(states[i], parts[i]) {
      AbsorbPart(c, parts, i);
    }
    AbsorbNone(c, Joined(parts, 0));
  }

  lemma EntryHistory(c: Collected, ing: Ingress) returns (states: seq<Collected>)
    ensures |states| == |ing.tls| + 1 && states[0] == c && states[|ing.tls|] == AbsorbAll(c, IngressDeclarations(ing, |ing.tls|))
    ensures forall t | 0 <= t < |ing.tls| :: states[t + 1] == AbsorbAll(states[t], EntryDeclarations(ing, ing.tls[t]))
  {
    states := AbsorbHistory(c, EntryParts(ing));
    forall t | 0 <= t < |ing.tls| ensures states[t + 1] == AbsorbAll(states[t], EntryDeclarations(ing, ing.tls[t])) {
      assert states[t + 1] == AbsorbAll(states[t], EntryParts(ing)[t]);
    }
  }

  lemma LiveHistory(c: Collected, ings: seq<Ingress>) returns (states: seq<Collected>)
    ensures |states| == |ings| + 1 && states[0] == c && states[|ings|] == AbsorbAll(c, Declarations(ings, |ings|))
    ensures forall i | 0 <= i < |ings| :: LiveNext(states[i], ings[i], states[i + 1])
  {
    states := AbsorbHistory(c, IngressParts(ings));
    forall i | 0 <= i < |ings| ensures LiveNext(states[i], ings[i], states[i + 1]) {
      assert states[i + 1] == AbsorbAll(states[i], IngressParts(ings)[i]);
      if ings[i].deleting {
        AbsorbNone(states[i], IngressParts(ings)[i]);
      }
    }
  }

  /** What an Ingress adds: nothing while it is being deleted. */
  predicate LiveNext(before: Collected, ing: Ingress, after: Collected) {
    after == if ing.deleting then before else AbsorbAll(before, IngressDeclarations(ing, |ing.tls|))
  }

  lemma AbsorbNone(c: Collected, part: seq<Declaration>)
    requires part == []
    ensures AbsorbAll(c, part) == c
  {
  }

  /** The middle loop, over one Ingress's TLS entries. */
  method CollectIngress(ing: Ingress,
                        certificates0: map<string, Owner>, declaredBy0: map<string, set<NamespacedName>>,
                        tlsHosts0: set<string>, issues0: Issues)
    returns (certificates: map<string, Owner>, declaredBy: map<string, set<NamespacedName>>,
             tlsHosts: set<string>, issues: Issues)
    requires tlsHosts0 == certificates0.Keys
    ensures Collected(certificates, declaredBy, issues) ==
            AbsorbAll(Collected(certificates0, declaredBy0, issues0), IngressDeclarations(ing, |ing.tls|))
    ensures tlsHosts == certificates.Keys
  {
    certificates, declaredBy, tlsHosts, issues := certificates0, declaredBy0, tlsHosts0, issues0;
    ghost var states := EntryHistory(Collected(certificates0, declaredBy0, issues0), ing);
    for t := 0 to |ing.tls|
      invariant Collected(certificates, declaredBy, issues) == states[t]
      invariant tlsHosts == certificates.Keys
    {
      certificates, declaredBy, tlsHosts, issues :=
        CollectTLS(ing, ing.tls[t], certificates, declaredBy, tlsHosts, issues);
    }
  }

  /** One TLS entry: rejected for lack of a Secret name or of hosts, else collected host by host. */
  method CollectTLS(ing: Ingress, tls: TLSEntry,
                    certificates0: map<string, Owner>, declaredBy0: map<string, set<NamespacedName>>,
                    tlsHosts0: set<string>, issues0: Issues)
    returns (certificates: map<string, Owner>, declaredBy: map<string, set<NamespacedName>>,
             tlsHosts: set<string>, issues: Issues)
    requires tlsHosts0 == certificates0.Keys
    ensures Collected(certificates, declaredBy, issues) ==
            AbsorbAll(Collected(certificates0, declaredBy0, issues0), EntryDeclarations(ing, tls))
    ensures tlsHosts == certificates.Keys
  {
    certificates, declaredBy, tlsHosts, issues := certificates0, declaredBy0, tlsHosts0, issues0;
    var source := SourceOf(ing);
    ghost var before := Collected(certificates0, declaredBy0, issues0);
    var secret := TrimSpace(tls.secretName);
    if secret == "" {
      AbsorbOne(before, Rejected(source, NoSecretName));
      issues := AddIssue(issues, source, Unusable(NoSecretName));
      return;
    }
    var hosts := EffectiveTLSHosts(ing, tls);
    if |hosts| == 0 {
      AbsorbOne(before, Rejected(source, NoHosts));
      issues := AddIssue(issues, source, Unusable(NoHosts));
      return;
    }
    certificates, declaredBy, tlsHosts, issues :=
      CollectEntry(source, NamespacedName(ing.ns, secret), hosts, certificates, declaredBy, tlsHosts, issues);
  }

  /** The inner loop, over one entry's hosts. */
  method CollectEntry(source: NamespacedName, secret: NamespacedName, hosts: seq<string>,
                      certificates0: map<string, Owner>, declaredBy0: map<string, set<NamespacedName>>,
                      tlsHosts0: set<string>, issues0: Issues)
    returns (certificates: map<string, Owner>, declaredBy: map<string, set<NamespacedName>>,
             tlsHosts: set<string>, issues: Issues)
    requires tlsHosts0 == certificates0.Keys
    ensures Collected(certificates, declaredBy, issues) ==
            AbsorbAll(Collected(certificates0, declaredBy0, issues0), HostDeclarations(source, secret, hosts))
    ensures tlsHosts == certificates.Keys
  {
    certificates, declaredBy, tlsHosts, issues := certificates0, declaredBy0, tlsHosts0, issues0;
    ghost var states := AbsorbSteps(Collected(certificates0, declaredBy0, issues0), HostDeclarations(source, secret, hosts));
    for h := 0 to |hosts|
      invariant Collected(certificates, declaredBy, issues) == states[h]
      invariant tlsHosts == certificates.Keys
    {
      assert states[h + 1] == Absorb(states[h], HostDeclaration(source, secret, hosts[h]));
      certificates, declaredBy, tlsHosts, issues :=
        CollectHost(source, secret, hosts[h], certificates, declaredBy, tlsHosts, issues);
    }
  }

  /** The collected state after each declaration. */
  lemma AbsorbSteps(c: Collected, ds: seq<Declaration>) returns (states: seq<Collected>)
    ensures |states| == |ds| + 1 && states[0] == c && states[|ds|] == AbsorbAll(c, ds)
    ensures forall h | 0 <= h < |ds| :: states[h + 1] == Absorb(states[h], ds[h])
  {
    states := seq(|ds| + 1, h requires 0 <= h <= |ds| => AbsorbFirst(c, ds, h));
  }

  /** The body of the inner loop. */
  method CollectHost(source: NamespacedName, secret: NamespacedName, raw: string,
                     certificates0: map<string, Owner>, declaredBy0: map<string, set<NamespacedName>>,
                     tlsHosts0: set<string>, issues0: Issues)
    returns (certificates: map<string, Owner>, declaredBy: map<string, set<NamespacedName>>,
             tlsHosts: set<string>, issues: Issues)
    requires tlsHosts0 == certificates0.Keys
    ensures Collected(certificates, declaredBy, issues) ==
            Absorb(Collected(certificates0, declaredBy0, issues0), HostDeclaration(source, secret, raw))
    ensures tlsHosts == certificates.Keys
  {
    certificates, declaredBy, tlsHosts, issues := certificates0, declaredBy0, tlsHosts0, issues0;
    var host := Normalise(raw);
    if host == "" {
      issues := AddIssue(issues, source, Unusable(EmptyHost));
      return;
    }
    declaredBy := declaredBy[host := Declarers(declaredBy, host) + {source}];
    if host in certificates && certificates[host].secret != secret {
      var existing := certificates[host];
      var conflict := Conflict(host, existing.secret, existing.source);
      issues := AddIssue(issues, source, conflict);
      issues := AddIssue(issues, existing.source, conflict);
      return;
    }
    tlsHosts := tlsHosts + {host};
    certificates := certificates[host := Owner(secret, source)];
  }

  // ---------- Absorbing one list after another ----------

  lemma {:induction false} AbsorbPrefix(c: Collected, a: seq<Declaration>, b: seq<Declaration>, n: nat)
    requires n <= |a|
    ensures AbsorbFirst(c, a + b, n) == AbsorbFirst(c, a, n)
  {
    if n > 0 {
      AbsorbPrefix(c, a, b, n - 1);
    }
  }

  lemma {:induction false} AbsorbFirstAppend(c: Collected, a: seq<Declaration>, b: seq<Declaration>, n: nat)
    requires n <= |b|
    ensures AbsorbFirst(c, a + b, |a| + n) == AbsorbFirst(AbsorbAll(c, a), b, n)
  {
    if n == 0 {
      AbsorbPrefix(c, a, b, |a|);
    } else {
      AbsorbFirstAppend(c, a, b, n - 1);
    }
  }

  lemma AbsorbAppend(c: Collected, a: seq<Declaration>, b: seq<Declaration>)
    ensures AbsorbAll(c, a + b) == AbsorbAll(AbsorbAll(c, a), b)
  {
    AbsorbFirstAppend(c, a, b, |b|);
  }

  // ---------- What the collected state means ----------

  predicate DeclaresAt(ds: seq<Declaration>, i: int, host: string) {
    0 <= i < |ds| && ds[i].Declares? && ds[i].host == host
  }

  /** The first declaration of a host fixes its Secret. */
  ghost predicate FirstAt(ds: seq<Declaration>, i: int, host: string) {
    DeclaresAt(ds, i, host) && forall j | 0 <= j < i :: !DeclaresAt(ds, j, host)
  }

  /** The last of the first n declarations to declare the host with the given Secret. */
  ghost predicate LastAgreeingAt(ds: seq<Declaration>, n: nat, i: int, host: string, secret: NamespacedName) {
    DeclaresAt(ds, i, host) && i < n && ds[i].secret == secret &&
    forall j | i < j < n && DeclaresAt(ds, j, host) :: ds[j].secret != secret
  }

  /** A host is owned exactly when it is declared; its Secret is the first one declared for it,
      and its recorded source is the last Ingress that agreed. */
  lemma {:induction false} OwnerIsFirstDeclared(ds: seq<Declaration>, n: nat, host: string)
    requires n <= |ds|
    ensures host in AbsorbFirst(NOTHING, ds, n).owners <==> exists i :: i < n && DeclaresAt(ds, i, host)
    ensures host in AbsorbFirst(NOTHING, ds, n).owners ==>
              var owner := AbsorbFirst(NOTHING, ds, n).owners[host];
              && (exists i :: i < n && FirstAt(ds, i, host) && ds[i].secret == owner.secret)
              && (exists i :: LastAgreeingAt(ds, n, i, host, owner.secret) && ds[i].source == owner.source)
  {
    if n > 0 {
      OwnerIsFirstDeclared(ds, n - 1, host);
      OwnerNext(ds, n - 1, host);
      if host in AbsorbFirst(NOTHING, ds, n - 1).owners {
        var owner := AbsorbFirst(NOTHING, ds, n - 1).owners[host];
        var l :| LastAgreeingAt(ds, n - 1, l, host, owner.secret) && ds[l].source == owner.source;
        if DeclaresAt(ds, n - 1, host) && ds[n - 1].secret == owner.secret {
          assert LastAgreeingAt(ds, n, n - 1, host, owner.secret);
        } else {
          assert LastAgreeingAt(ds, n, l, host, owner.secret);
        }
      } else if DeclaresAt(ds, n - 1, host) {
        assert FirstAt(ds, n - 1, host);
        assert LastAgreeingAt(ds, n, n - 1, host, ds[n - 1].secret);
      }
    }
  }

  lemma OwnerNext(ds: seq<Declaration>, n: nat, host: string)
    requires n < |ds|
    ensures var owners, after := AbsorbFirst(NOTHING, ds, n).owners, AbsorbFirst(NOTHING, ds, n + 1).owners;
            && (host in after <==> host in owners || DeclaresAt(ds, n, host))
            && var agrees := DeclaresAt(ds, n, host) && (host in owners ==> owners[host].secret == ds[n].secret);
               && (agrees ==> after[host] == Owner(ds[n].secret, ds[n].source))
               && (!agrees && host in owners ==> after[host] == owners[host])
  {
  }

  lemma {:induction false} DeclaredByIsDeclarers(ds: seq<Declaration>, n: nat, host: string, source: NamespacedName)
    requires n <= |ds|
    ensures source in Declarers(AbsorbFirst(NOTHING, ds, n).declaredBy, host) <==>
            exists i :: i < n && DeclaresAt(ds, i, host) && ds[i].source == source
  {
    if n > 0 {
      DeclaredByIsDeclarers(ds, n - 1, host, source);
      if DeclaresAt(ds, n - 1, host) && ds[n - 1].source == source {
      }
    }
  }

  /** The j-th declaration names a Secret other than the one its host already has. */
  ghost predicate ConflictAt(ds: seq<Declaration>, j: int, host: string) {
    DeclaresAt(ds, j, host) && exists f :: f < j && FirstAt(ds, f, host) && ds[f].secret != ds[j].secret
  }

  /** source made the conflicting declaration, or the last earlier one that agreed with the host's Secret. */
  ghost predicate BlamedAt(ds: seq<Declaration>, j: int, host: string, source: NamespacedName) {
    ConflictAt(ds, j, host) &&
    (ds[j].source == source ||
     exists f, l :: FirstAt(ds, f, host) && LastAgreeingAt(ds, j, l, host, ds[f].secret) && ds[l].source == source)
  }

  predicate Flagged(issues: Issues, source: NamespacedName, host: string) {
    exists q | q in IssuesOf(issues, source) :: q.Conflict? && q.host == host
  }

  lemma FirstUnique(ds: seq<Declaration>, f: int, g: int, host: string)
    requires FirstAt(ds, f, host) && FirstAt(ds, g, host)
    ensures f == g
  {
    FirstIsEarliest(ds, f, g, host);
    FirstIsEarliest(ds, g, f, host);
  }

  lemma FirstIsEarliest(ds: seq<Declaration>, f: int, i: int, host: string)
    requires FirstAt(ds, f, host) && DeclaresAt(ds, i, host)
    ensures f <= i
  {
  }

  lemma LastAgreeingUnique(ds: seq<Declaration>, n: nat, k: int, l: int, host: string, secret: NamespacedName)
    requires LastAgreeingAt(ds, n, k, host, secret) && LastAgreeingAt(ds, n, l, host, secret)
    ensures k == l
  {
  }

  /** The owner recorded before the j-th declaration is the one ConflictAt and BlamedAt speak of. */
  lemma ConflictMeansOtherOwner(ds: seq<Declaration>, j: nat, host: string, source: NamespacedName)
    requires j < |ds| && DeclaresAt(ds, j, host)
    ensures var owners := AbsorbFirst(NOTHING, ds, j).owners;
            && (ConflictAt(ds, j, host) <==> host in owners && owners[host].secret != ds[j].secret)
            && (ConflictAt(ds, j, host) ==>
                 (BlamedAt(ds, j, host, source) <==> source == ds[j].source || source == owners[host].source))
  {
    OwnerIsFirstDeclared(ds, j, host);
    var owners := AbsorbFirst(NOTHING, ds, j).owners;
    if host in owners {
      var f :| f < j && FirstAt(ds, f, host) && ds[f].secret == owners[host].secret;
      var l :| LastAgreeingAt(ds, j, l, host, ds[f].secret) && ds[l].source == owners[host].source;
      forall g | FirstAt(ds, g, host) ensures g == f {
        FirstUnique(ds, f, g, host);
      }
      forall k | LastAgreeingAt(ds, j, k, host, ds[f].secret) ensures k == l {
        LastAgreeingUnique(ds, j, k, l, host, ds[f].secret);
      }
    }
  }

  /** Exactly the blamed Ingresses carry a conflict Error for a host. */
  lemma {:induction false} FlaggedExactly(ds: seq<Declaration>, n: nat, host: string, source: NamespacedName)
    requires n <= |ds|
    ensures Flagged(AbsorbFirst(NOTHING, ds, n).issues, source, host) <==>
            exists j :: j < n && BlamedAt(ds, j, host, source)
  {
    if n > 0 {
      FlaggedExactly(ds, n - 1, host, source);
      FlaggedNext(ds, n, host, source);
    }
  }

  lemma FlaggedNext(ds: seq<Declaration>, n: nat, host: string, source: NamespacedName)
    requires 0 < n <= |ds|
    ensures Flagged(AbsorbFirst(NOTHING, ds, n).issues, source, host) <==>
            Flagged(AbsorbFirst(NOTHING, ds, n - 1).issues, source, host) || BlamedAt(ds, n - 1, host, source)
  {
    FlaggedStep(AbsorbFirst(NOTHING, ds, n - 1), ds[n - 1], host, source);
    if DeclaresAt(ds, n - 1, host) {
      ConflictMeansOtherOwner(ds, n - 1, host, source);
    }
  }

  lemma FlaggedStep(c: Collected, d: Declaration, host: string, source: NamespacedName)
    ensures Flagged(Absorb(c, d).issues, source, host) <==>
            || Flagged(c.issues, source, host)
            || (d.Declares? && d.host == host && host in c.owners && c.owners[host].secret != d.secret &&
                (source == d.source || source == c.owners[host].source))
  {
    var after := IssuesOf(Absorb(c, d).issues, source);
    match d
    case Rejected(s, reason) =>
      AddIssueMembers(c.issues, s, Unusable(reason));
    case Declares(s, secret, h) =>
      if h in c.owners && c.owners[h].secret != secret {
        var owner := c.owners[h];
        var conflict := Conflict(h, owner.secret, owner.source);
        AddIssueMembers(c.issues, s, conflict);
        AddIssueMembers(AddIssue(c.issues, s, conflict), owner.source, conflict);
        assert source == s || source == owner.source ==> conflict in after;
      }
  }

  /** Every declaration either got its own Secret or carries an Error. */
  lemma DeclarationAccounted(ds: seq<Declaration>, i: nat)
    requires i < |ds| && ds[i].Declares?
    ensures var c := AbsorbAll(NOTHING, ds);
            && ds[i].host in c.owners
            && (c.owners[ds[i].host].secret == ds[i].secret || Flagged(c.issues, ds[i].source, ds[i].host))
  {
    var host := ds[i].host;
    assert DeclaresAt(ds, i, host);
    OwnerIsFirstDeclared(ds, |ds|, host);
    var owner := AbsorbAll(NOTHING, ds).owners[host];
    if owner.secret != ds[i].secret {
      var f :| FirstAt(ds, f, host) && ds[f].secret == owner.secret;
      FirstIsEarliest(ds, f, i, host);
      assert BlamedAt(ds, i, host, ds[i].source);
      FlaggedExactly(ds, |ds|, host, ds[i].source);
    }
  }

  /** Not every party to a conflict is told: an Ingress that agrees with the owner only after the
      conflicting declaration was seen carries no Error. */
  lemma LateAgreementUnflagged(first: NamespacedName, other: NamespacedName, late: NamespacedName,
                               secret: NamespacedName, rival: NamespacedName, host: string)
    requires secret != rival
    ensures var ds := [Declares(first, secret, host), Declares(other, rival, host), Declares(late, secret, host)];
            forall s :: Flagged(AbsorbAll(NOTHING, ds).issues, s, host) <==> s == first || s == other
  {
    var ds := [Declares(first, secret, host), Declares(other, rival, host), Declares(late, secret, host)];
    var one := AbsorbFirst(NOTHING, ds, 1);
    assert one == Absorb(NOTHING, ds[0]) by { assert AbsorbFirst(NOTHING, ds, 0) == NOTHING; }
    var two := AbsorbFirst(NOTHING, ds, 2);
    assert two == Absorb(one, ds[1]);
    assert AbsorbAll(NOTHING, ds) == Absorb(two, ds[2]);
    forall s ensures Flagged(AbsorbAll(NOTHING, ds).issues, s, host) <==> s == first || s == other {
      FlaggedStep(NOTHING, ds[0], host, s);
      FlaggedStep(one, ds[1], host, s);
      FlaggedStep(two, ds[2], host, s);
    }
  }
}
