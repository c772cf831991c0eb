// First come, first served: lists of strings claimed one owner after another, and which claims clash.
module Claims {

  /** A string claimed by two owners, in the order they claimed it. */
  datatype Clash = Clash(existing: string, later: string)

  datatype Ledger = Ledger(owner: map<string, string>, clashes: seq<Clash>)

  const EMPTY: Ledger := Ledger(map[], [])

  /** The first to claim a string keeps it. */
  function ClaimOne(c: Ledger, name: string, x: string): Ledger {
    if x in c.owner && c.owner[x] != name then c.(clashes := c.clashes + [Clash(c.owner[x], name)])
    else c.(owner := c.owner[x := name])
  }

  function ClaimFirst(c: Ledger, name: string, xs: seq<string>, n: nat): Ledger
    requires n <= |xs|
  {
    if n == 0 then c else ClaimOne(ClaimFirst(c, name, xs, n - 1), name, xs[n - 1])
  }

  function ClaimAll(c: Ledger, name: string, xs: seq<string>): Ledger {
    ClaimFirst(c, name, xs, |xs|)
  }

  /** The first n owners have claimed their lists. */
  function ClaimLists(names: seq<string>, lists: seq<seq<string>>, n: nat): Ledger
    requires n <= |lists| == |names|
  {
    if n == 0 then EMPTY else ClaimAll(ClaimLists(names, lists, n - 1), names[n - 1], lists[n - 1])
  }

  lemma {:induction false} ClaimPrefix(c: Ledger, name: string, a: seq<string>, b: seq<string>, n: nat)
    requires n <= |a|
    ensures ClaimFirst(c, name, a + b, n) == ClaimFirst(c, name, a, n)
  {
    if n > 0 {
      ClaimPrefix(c, name, a, b, n - 1);
    }
  }

  lemma ClaimSnoc(c: Ledger, name: string, a: seq<string>, x: string)
    ensures ClaimAll(c, name, a + [x]) == ClaimOne(ClaimAll(c, name, a), name, x)
  {
    ClaimPrefix(c, name, a, [x], |a|);
  }

  lemma {:induction false} ClaimJoin(c: Ledger, name: string, a: seq<string>, b: seq<string>, n: nat)
    requires n <= |b|
    ensures ClaimFirst(c, name, a + b, |a| + n) == ClaimFirst(ClaimAll(c, name, a), name, b, n)
  {
    if n == 0 {
      ClaimPrefix(c, name, a, b, |a|);
    } else {
      ClaimJoin(c, name, a, b, n - 1);
    }
  }

  function JoinedLists(lists: seq<seq<string>>, n: nat): seq<string>
    requires n <= |lists|
  {
    if n == 0 then [] else JoinedLists(lists, n - 1) + lists[n - 1]
  }

  lemma {:induction false} JoinedListMembers(lists: seq<seq<string>>, n: nat, x: string)
    requires n <= |lists|
    ensures x in JoinedLists(lists, n) <==> exists i :: 0 <= i < n && x in lists[i]
  {
    if n > 0 {
      JoinedListMembers(lists, n - 1, x);
    }
  }

  /** The ledger after each of the lists. */
  lemma ClaimHistory(c: Ledger, name: string, lists: seq<seq<string>>) returns (states: seq<Ledger>)
    ensures |states| == |lists| + 1 && states[0] == c && states[|lists|] == ClaimAll(c, name, JoinedLists(lists, |lists|))
    ensures forall i | 0 <= i < |lists| :: states[i + 1] == ClaimAll(states[i], name, lists[i])
  {
    states := seq(|lists| + 1, i requires 0 <= i <= |lists| => ClaimAll(c, name, JoinedLists(lists, i)));
    forall i | 0 <= i < |lists| ensures states[i + 1] == ClaimAll(states[i], name, lists[i]) {
      ClaimJoin(c, name, JoinedLists(lists, i), lists[i], |lists[i]|);
    }
  }

  predicate Taken(c: Ledger, xs: seq<string>, k: int) {
    0 <= k < |xs| && xs[k] in c.owner
  }

  /** Claiming keeps every earlier claim, adds the new strings, and clashes exactly when one of them was taken. */
  lemma {:induction false} ClaimMeaning(c: Ledger, name: string, xs: seq<string>, n: nat)
    requires n <= |xs| && forall x | x in c.owner :: c.owner[x] != name
    ensures var r := ClaimFirst(c, name, xs, n);
            && (forall x :: x in r.owner <==> x in c.owner || exists i :: 0 <= i < n && xs[i] == x)
            && (forall x | x in c.owner :: r.owner[x] == c.owner[x])
            && (forall x | x in r.owner && x !in c.owner :: r.owner[x] == name)
            && (r.clashes == [] <==> c.clashes == [] && forall i | 0 <= i < n :: !Taken(c, xs, i))
  {
    if n > 0 {
      ClaimMeaning(c, name, xs, n - 1);
      assert Taken(c, xs, n - 1) <==> xs[n - 1] in c.owner;
    }
  }

  // ---------- Owners in turn ----------

  ghost predicate NoTwice(names: seq<string>) {
    forall i, j | 0 <= i < j < |names| :: names[i] != names[j]
  }

  /** The x-th of the lists holds the string. */
  ghost predicate HeldBy(lists: seq<seq<string>>, i: int, x: string) {
    0 <= i < |lists| && x in lists[i]
  }

  /** The owner of a string is the first to list it. */
  ghost predicate FirstHolder(lists: seq<seq<string>>, i: int, x: string) {
    HeldBy(lists, i, x) && forall j | 0 <= j < i :: !HeldBy(lists, j, x)
  }

  ghost predicate Owned(names: seq<string>, lists: seq<seq<string>>, n: nat, x: string, owner: string)
    requires |names| == |lists|
  {
    exists i :: 0 <= i < n && FirstHolder(lists, i, x) && names[i] == owner
  }

  /** One of the first n lists after the i-th repeats a string of it. */
  ghost predicate Shared(lists: seq<seq<string>>, n: nat, i: int, j: int, x: string) {
    i < j < n && HeldBy(lists, i, x) && HeldBy(lists, j, x)
  }

  ghost predicate Overlap(lists: seq<seq<string>>, n: nat) {
    exists i, j, x :: Shared(lists, n, i, j, x)
  }

  ghost predicate OwnersAre(names: seq<string>, lists: seq<seq<string>>, n: nat, r: Ledger)
    requires |names| == |lists|
  {
    && (forall x | x in r.owner :: Owned(names, lists, n, x, r.owner[x]))
    && (forall i, x | 0 <= i < n && HeldBy(lists, i, x) :: x in r.owner)
  }

  lemma OwnedLater(names: seq<string>, lists: seq<seq<string>>, n: nat, x: string, owner: string)
    requires |names| == |lists| && Owned(names, lists, n, x, owner)
    ensures Owned(names, lists, n + 1, x, owner)
  {
  }

  lemma NotYetAnOwner(names: seq<string>, lists: seq<seq<string>>, n: nat, r: Ledger)
    requires n < |names| == |lists| && NoTwice(names) && OwnersAre(names, lists, n, r)
    ensures forall x | x in r.owner :: r.owner[x] != names[n]
  {
    forall x | x in r.owner ensures r.owner[x] != names[n] {
      assert Owned(names, lists, n, x, r.owner[x]);
    }
  }

  lemma OwnersStep(names: seq<string>, lists: seq<seq<string>>, n: nat, c: Ledger)
    requires n < |names| == |lists| && NoTwice(names) && OwnersAre(names, lists, n, c)
    ensures OwnersAre(names, lists, n + 1, ClaimAll(c, names[n], lists[n]))
  {
    var r := ClaimAll(c, names[n], lists[n]);
    NotYetAnOwner(names, lists, n, c);
    ClaimMeaning(c, names[n], lists[n], |lists[n]|);
    forall x | x in r.owner ensures Owned(names, lists, n + 1, x, r.owner[x]) {
      if x in c.owner {
        OwnedLater(names, lists, n, x, c.owner[x]);
      } else {
        assert FirstHolder(lists, n, x);
      }
    }
  }

  lemma {:induction false} OwnersMean(names: seq<string>, lists: seq<seq<string>>, n: nat)
    requires n <= |names| == |lists| && NoTwice(names)
    ensures OwnersAre(names, lists, n, ClaimLists(names, lists, n))
  {
    if n > 0 {
      OwnersMean(names, lists, n - 1);
      OwnersStep(names, lists, n - 1, ClaimLists(names, lists, n - 1));
    }
  }

  /** The n-th list repeats a string of the i-th. */
  ghost predicate Repeats(lists: seq<seq<string>>, n: nat, i: int, x: string) {
    Shared(lists, n + 1, i, n, x)
  }

  ghost predicate RepeatsSome(lists: seq<seq<string>>, n: nat) {
    exists i, x :: Repeats(lists, n, i, x)
  }

  /** A list repeats a string of an earlier one exactly when a string of it has an owner. */
  lemma TakenIsShared(names: seq<string>, lists: seq<seq<string>>, n: nat, c: Ledger)
    requires n < |names| == |lists| && OwnersAre(names, lists, n, c)
    ensures (exists k :: Taken(c, lists[n], k)) <==> RepeatsSome(lists, n)
  {
    if k :| Taken(c, lists[n], k) {
      var x := lists[n][k];
      assert Owned(names, lists, n, x, c.owner[x]);
      var i :| 0 <= i < n && FirstHolder(lists, i, x) && names[i] == c.owner[x];
      assert Repeats(lists, n, i, x);
    }
    if i, x :| Repeats(lists, n, i, x) {
      var k :| 0 <= k < |lists[n]| && lists[n][k] == x;
      assert Taken(c, lists[n], k);
    }
  }

  lemma OverlapStep(lists: seq<seq<string>>, n: nat, m: nat)
    requires m == n + 1
    ensures Overlap(lists, m) <==> Overlap(lists, n) || RepeatsSome(lists, n)
  {
    if i, j, x :| Shared(lists, m, i, j, x) {
      assert if j == n then Repeats(lists, n, i, x) else Shared(lists, n, i, j, x);
    }
    if i, j, x :| Shared(lists, n, i, j, x) {
      assert Shared(lists, m, i, j, x);
    }
    if i, x :| Repeats(lists, n, i, x) {
      assert Shared(lists, m, i, n, x);
    }
  }

  lemma ClashStep(names: seq<string>, lists: seq<seq<string>>, n: nat, c: Ledger)
    requires n < |names| == |lists| && NoTwice(names) && OwnersAre(names, lists, n, c)
    ensures ClaimAll(c, names[n], lists[n]).clashes != [] <==> c.clashes != [] || RepeatsSome(lists, n)
  {
    NotYetAnOwner(names, lists, n, c);
    ClaimMeaning(c, names[n], lists[n], |lists[n]|);
    TakenIsShared(names, lists, n, c);
  }

  /** Some claim clashes exactly when two owners list one string. */
  lemma {:induction false} ClashesExactly(names: seq<string>, lists: seq<seq<string>>, n: nat)
    requires n <= |names| == |lists| && NoTwice(names)
    ensures ClaimLists(names, lists, n).clashes != [] <==> Overlap(lists, n)
  {
    if n > 0 {
      ClashesExactly(names, lists, n - 1);
      OwnersMean(names, lists, n - 1);
      ClashStep(names, lists, n - 1, ClaimLists(names, lists, n - 1));
      OverlapStep(lists, n - 1, n);
    }
  }

  // ---------- Whom a clash names ----------

  /** A clash that claiming a list adds. */
  ghost predicate Adds(c: Ledger, name: string, xs: seq<string>, k: int, clash: Clash) {
    Taken(c, xs, k) && clash == Clash(c.owner[xs[k]], name)
  }

  lemma {:induction false} ClashesAdded(c: Ledger, name: string, xs: seq<string>, n: nat, clash: Clash)
    requires n <= |xs| && (forall x | x in c.owner :: c.owner[x] != name) && clash in ClaimFirst(c, name, xs, n).clashes
    ensures clash in c.clashes || exists k :: Adds(c, name, xs, k, clash)
  {
    if n > 0 {
      var before := ClaimFirst(c, name, xs, n - 1);
      ClaimMeaning(c, name, xs, n - 1);
      if clash in before.clashes {
        ClashesAdded(c, name, xs, n - 1, clash);
      } else {
        assert Adds(c, name, xs, n - 1, clash);
      }
    }
  }

  /** The clash is between the i-th owner, first to list the string, and the j-th, who lists it too. */
  ghost predicate Between(names: seq<string>, lists: seq<seq<string>>, n: nat, i: int, j: int, x: string, clash: Clash)
    requires |names| == |lists|
  {
    FirstHolder(lists, i, x) && Shared(lists, n, i, j, x) && clash == Clash(names[i], names[j])
  }

  /** A clash names the first to list a string and a later one. */
  lemma {:induction false} ClashBetween(names: seq<string>, lists: seq<seq<string>>, n: nat, clash: Clash)
    returns (i: int, j: int, x: string)
    requires n <= |names| == |lists| && NoTwice(names) && clash in ClaimLists(names, lists, n).clashes
    ensures Between(names, lists, n, i, j, x, clash)
  {
    var c := ClaimLists(names, lists, n - 1);
    OwnersMean(names, lists, n - 1);
    NotYetAnOwner(names, lists, n - 1, c);
    ClashesAdded(c, names[n - 1], lists[n - 1], |lists[n - 1]|, clash);
    if clash in c.clashes {
      i, j, x := ClashBetween(names, lists, n - 1, clash);
    } else {
      var k :| Adds(c, names[n - 1], lists[n - 1], k, clash);
      x := lists[n - 1][k];
      assert Owned(names, lists, n - 1, x, c.owner[x]);
      i :| 0 <= i < n - 1 && FirstHolder(lists, i, x) && names[i] == c.owner[x];
      j := n - 1;
    }
  }
}
