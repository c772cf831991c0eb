// Ingresses whose declarations do not conflict, and the plan of a single declared host.
module SmallDemands {
  import opened Text
  import opened Sorting
  import opened Model
  import opened Collect
  import opened Election
  import opened Placing
  import opened PlacingLaws
  import opened Planner
  import opened PlannerLaws

  // ---------- Declarations that agree ----------

  predicate PlainName(s: string) {
    s != "" && forall i | 0 <= i < |s| :: 'a' <= s[i] <= 'z' || s[i] == '.'
  }

  lemma NormalName(s: string)
    requires PlainName(s)
    ensures TrimSpace(s) == s && Normalise(s) == s
  {
    assert !IsSpace(s[0]) && !IsSpace(s[|s| - 1]);
  }

  lemma {:induction false} NamedAll(hosts: seq<string>, n: nat)
    requires n <= |hosts| && forall i | 0 <= i < |hosts| :: PlainName(hosts[i])
    ensures Named(hosts, n) == hosts[..n]
  {
    if n > 0 {
      NamedAll(hosts, n - 1);
      NormalName(hosts[n - 1]);
    }
  }

  /** Every declaration gives its host the Secret the map does. */
  ghost predicate Agree(ds: seq<Declaration>, owner: map<string, NamespacedName>) {
    forall d | d in ds :: d.Declares? && d.host in owner && owner[d.host] == d.secret
  }

  ghost function Declared(ds: seq<Declaration>): set<string> {
    set d | d in ds && d.Declares? :: d.host
  }

  lemma EntryAgrees(ing: Ingress, tls: TLSEntry, owner: map<string, NamespacedName>)
    requires PlainName(tls.secretName) && tls.hosts != [] && forall i | 0 <= i < |tls.hosts| :: PlainName(tls.hosts[i])
    requires forall h | h in tls.hosts :: h in owner && owner[h] == NamespacedName(ing.ns, tls.secretName)
    ensures Agree(EntryDeclarations(ing, tls), owner)
    ensures Declared(EntryDeclarations(ing, tls)) == Elements(tls.hosts)
  {
    var hosts, secret := tls.hosts, NamespacedName(ing.ns, tls.secretName);
    NamedAll(hosts, |hosts|);
    NormalName(tls.secretName);
    var ds := EntryDeclarations(ing, tls);
    forall i | 0 <= i < |hosts| ensures ds[i] == Declares(SourceOf(ing), secret, hosts[i]) {
      NormalName(hosts[i]);
    }
    forall h | h in Elements(hosts) ensures h in Declared(ds) {
      var i :| 0 <= i < |hosts| && hosts[i] == h;
      assert ds[i] in ds;
    }
  }

  lemma OwnersAgree(ds: seq<Declaration>, owner: map<string, NamespacedName>)
    requires Agree(ds, owner) && Declared(ds) == owner.Keys
    ensures OwnersOf(AbsorbAll(NOTHING, ds)) == owner
  {
    var owners := AbsorbAll(NOTHING, ds).owners;
    forall h
      ensures h in owners <==> h in owner
      ensures h in owners ==> owners[h].secret == owner[h]
    {
      OwnerIsFirstDeclared(ds, |ds|, h);
      if h in owner {
        var d :| d in ds && d.Declares? && d.host == h;
        var i :| 0 <= i < |ds| && ds[i] == d;
        assert DeclaresAt(ds, i, h);
      }
      if i :| 0 <= i < |ds| && DeclaresAt(ds, i, h) {
        assert ds[i] in ds;
      }
      if h in owners {
        var i :| 0 <= i < |ds| && FirstAt(ds, i, h) && ds[i].secret == owners[h].secret;
        assert ds[i] in ds;
      }
    }
  }

  /** One Ingress whose only TLS entry names one host. */
  lemma OneEntry(ing: Ingress, secret: string, host: string)
    requires !ing.deleting && ing.tls == [TLSEntry(secret, [host])] && PlainName(secret) && PlainName(host)
    ensures IngressDeclarations(ing, |ing.tls|) == [Declares(SourceOf(ing), NamespacedName(ing.ns, secret), host)]
  {
    NormalName(secret);
    NormalName(host);
    NamedAll([host], 1);
    assert [host][..1] == [host];
    assert IngressDeclarations(ing, 0) == [];
    assert EntryDeclarations(ing, ing.tls[0]) == [Declares(SourceOf(ing), NamespacedName(ing.ns, secret), host)];
  }

  lemma SoleOwner(ing: Ingress, secret: string, host: string)
    requires !ing.deleting && ing.tls == [TLSEntry(secret, [host])] && PlainName(secret) && PlainName(host)
    ensures OwnersOf(CollectedOf([ing])) == map[host := NamespacedName(ing.ns, secret)]
  {
    var said := Declares(SourceOf(ing), NamespacedName(ing.ns, secret), host);
    OneEntry(ing, secret, host);
    assert SortBy(IngressKey, [ing]) == [ing];
    assert Declarations([ing], 0) == [];
    assert Declarations([ing], 1) == [said];
    AbsorbOne(NOTHING, said);
  }

  // ---------- One declared host ----------

  /** A host declared alone is served by the listener it collapses to, which is placed whatever was before. */
  lemma SoleHost(d: Demand, host: string, overflow: bool)
    requires Plain(d) && d.owner.Keys == {host}
    ensures ListenerOf(d, host) == Target(d, host)
    ensures PlacedOf(d, overflow).rest == [] && ListenerOf(d, host) in PlacementsOf(d, overflow)
  {
    SoleListener(d, host);
    PlacementsSound(d, overflow);
    var p, rest := PlacementsOf(d, overflow), PlacedOf(d, overflow).rest;
    assert Listeners(d) == {ListenerOf(d, host)};
    assert Held(p, 0) <= Listeners(d);
    SubsetSize(Held(p, 0), Listeners(d));
    assert rest == [];
    assert Names(rest) == {};
  }

  lemma SoleListener(d: Demand, host: string)
    requires Plain(d) && d.owner.Keys == {host}
    ensures ListenerOf(d, host) == Target(d, host) && Listeners(d) == {ListenerOf(d, host)}
  {
    var target := Target(d, host);
    assert host in Group(d, target);
    assert Elected(d, target) == KeyOf(d, host);
    forall x | x in Listeners(d) ensures x == ListenerOf(d, host) {}
    assert ListenerOf(d, host) in Listeners(d);
  }
}
