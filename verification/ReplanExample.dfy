// When a full Gateway makes replanning flip: the class elected first loses, on the
// next plan, to the one whose hosts it left without a listener. A family of such
// demands, and Ingresses that give rise to one.
module ReplanExample {
  import opened Text
  import opened Sorting
  import opened Model
  import opened Collect
  import opened Election
  import opened Projecting
  import opened Placing
  import opened PlacingLaws
  import opened Planner
  import opened PlannerLaws
  import opened ElectionLaws
  import opened Replan
  import opened Rebuild
  import opened SmallDemands

  // ---------- The contest ----------

  /** Who is in play under one wildcard: sole is alone in the first class; mates is the second, of which
      only keeper has a listener; others is everything else. */
  datatype Cast = Cast(wild: string, sole: string, keeper: string, mates: set<string>, others: set<string>,
                       first: string, second: string)

  ghost predicate Casting(c: Cast) {
    && c.sole !in c.mates && c.sole !in c.others && c.wild !in c.others && c.mates !! c.others
    && c.keeper in c.mates && c.first != c.second
    && |c.others| == 61 && |c.mates| >= 3
    && (forall y | y in c.mates && y != c.keeper :: Less(c.wild, y))
  }

  ghost predicate Classes(d: Demand, c: Cast) {
    && d.owner.Keys == c.others + c.mates + {c.sole}
    && OpenGroup(d, c.wild) && Group(d, c.wild) == c.mates + {c.sole}
    && KeyOf(d, c.sole) == c.first && (forall h | h in c.mates :: KeyOf(d, h) == c.second)
    && (forall h | h in c.others :: Target(d, h) == h)
  }

  /** 62 of the Gateway's 63 slots are taken: by the other listeners and by keeper. */
  ghost predicate Contest(d: Demand, c: Cast) {
    && Plain(d) && Casting(c) && Classes(d, c)
    && d.current.Keys == c.others + {c.keeper}
    && (forall h | h in d.current :: d.current[h].listenerSet == 0)
  }

  lemma FirstClass(d: Demand, c: Cast)
    requires Casting(c) && Classes(d, c)
    ensures ClassHosts(d, c.wild, c.first) == {c.sole}
  {
    assert c.sole in Group(d, c.wild);
  }

  lemma SecondClass(d: Demand, c: Cast)
    requires Casting(c) && Classes(d, c)
    ensures ClassHosts(d, c.wild, c.second) == c.mates
  {
  }

  lemma TwoClasses(d: Demand, c: Cast)
    requires Casting(c) && Classes(d, c)
    ensures ClassKeys(d, c.wild) == {c.first, c.second}
  {
    assert c.sole in Group(d, c.wild) && c.keeper in Group(d, c.wild);
  }

  lemma WildIsNobody(d: Demand, c: Cast)
    requires Casting(c) && Classes(d, c)
    ensures c.wild != c.sole && c.wild !in c.mates && c.wild !in d.owner
  {
    assert c.wild !in Group(d, c.wild);
  }

  lemma ElectedByChurn(d: Demand, target: string, key: string, other: string)
    requires Plain(d) && OpenGroup(d, target) && ClassKeys(d, target) == {key, other}
    requires |Moved(d, target, key)| < |Moved(d, target, other)|
    ensures Elected(d, target) == key
  {
    BeatsByChurn(d, target, key, other);
    OneRival(d, target, {key, other}, key, other);
    WinnerUnique(d, target, key, Elected(d, target));
  }

  lemma OneRival(d: Demand, target: string, keys: set<string>, key: string, other: string)
    requires Plain(d) && keys == {key, other} && Beats(d, target, key, other)
    ensures Best(d, target, keys, key)
  {
  }

  lemma FirstMovesNobody(d: Demand, c: Cast)
    requires Contest(d, c) && c.wild !in d.owner
    ensures Moved(d, c.wild, c.first) == {}
  {
    FirstClass(d, c);
  }

  lemma SecondMoves(d: Demand, c: Cast)
    requires Contest(d, c) && c.wild !in d.owner
    ensures c.keeper in Moved(d, c.wild, c.second)
  {
    SecondClass(d, c);
  }

  /** The first class is elected: it moves nobody, whereas the second would move keeper. */
  lemma FirstElected(d: Demand, c: Cast)
    requires Contest(d, c)
    ensures Elected(d, c.wild) == c.first
  {
    WildIsNobody(d, c);
    FirstMovesNobody(d, c);
    SecondMoves(d, c);
    TwoClasses(d, c);
    assert Moved(d, c.wild, c.second) != {};
    ElectedByChurn(d, c.wild, c.first, c.second);
  }

  lemma ServingInContest(d: Demand, c: Cast, h: string)
    requires Plain(d) && Casting(c) && Classes(d, c) && Elected(d, c.wild) == c.first && h in d.owner
    ensures ListenerOf(d, h) == if h == c.sole then c.wild else h
  {
    if h in c.others {
      assert Target(d, h) == h && h != c.sole;
    } else {
      assert h in Group(d, c.wild);
      assert h == c.sole || h in c.mates;
      OpenMember(d, c.wild, h);
    }
  }

  lemma ListenersAre(d: Demand, c: Cast)
    requires Contest(d, c)
    ensures Listeners(d) == c.others + c.mates + {c.wild} && Served(d, c.wild) == {c.sole}
  {
    FirstElected(d, c);
    WildIsNobody(d, c);
    forall h | h in d.owner ensures ListenerOf(d, h) == if h == c.sole then c.wild else h {
      ServingInContest(d, c, h);
    }
    CollapseOne(d, c.others + c.mates, c.sole, c.wild);
  }

  lemma CollapseOne(d: Demand, rest: set<string>, sole: string, wild: string)
    requires Plain(d) && d.owner.Keys == rest + {sole} && sole !in rest && wild !in d.owner
    requires forall h | h in d.owner :: ListenerOf(d, h) == if h == sole then wild else h
    ensures Listeners(d) == rest + {wild} && Served(d, wild) == {sole}
  {
    forall x ensures x in Listeners(d) <==> x in rest + {wild} {
      if x in rest {
        assert x in d.owner && ListenerOf(d, x) == x;
      }
    }
    forall x ensures x in Served(d, wild) <==> x == sole {}
    assert sole in d.owner && ListenerOf(d, sole) == wild;
  }

  // ---------- The first plan ----------

  lemma OnGatewayFits(current: map<string, Placement>)
    requires |current.Keys| <= 63 && forall h | h in current :: current[h].listenerSet == 0
    ensures WithinCapacity(current, false)
  {
    assert Held(current, 0) == current.Keys;
    forall i ensures |Held(current, i)| <= Capacity(i) {
      assert i != 0 ==> Held(current, i) == {};
    }
  }

  /** A newcomer with nothing to inherit is not placed before one whose hostname precedes it. */
  lemma NewcomerAfter(d: Demand, x: string, y: string)
    requires Plain(d) && x in Listeners(d) && y in Listeners(d) && Less(x, y)
    requires x !in d.current && InheritedIndex(Projected(d, x), d.current) == None
    requires y !in d.current && InheritedIndex(Projected(d, y), d.current) == None
    requires y in PlacementsOf(d, false)
    ensures x in PlacementsOf(d, false)
  {
    var ls := InOrder(d);
    PlacedAreListeners(d, false);
    var i := InOrderAt(d, x);
    var j := InOrderAt(d, y);
    assert KeyLess(HostnameKey(ls[i]), HostnameKey(ls[j]));
    AscendingIndices(ls, i, j);
    AdmittedInOrder(ls, i, j, d.current);
  }

  lemma InOrderAt(d: Demand, x: string) returns (i: nat)
    requires Plain(d) && x in Listeners(d)
    ensures i < |InOrder(d)| && InOrder(d)[i] == Projected(d, x)
  {
    assert Projected(d, x) in Elements(InOrder(d));
    i :| 0 <= i < |InOrder(d)| && InOrder(d)[i] == Projected(d, x);
  }

  lemma WildInheritsNothing(d: Demand, wild: string, sole: string)
    requires Plain(d) && wild in Listeners(d) && Served(d, wild) == {sole} && sole !in d.current && IsWildcard(wild)
    ensures InheritedIndex(Projected(d, wild), d.current) == None
  {
    SingletonSorted(sole);
    var l := Projected(d, wild);
    assert l.hosts == [sole] && Elements(l.hosts) == {sole};
    assert FirstPlaced([sole], 1, wild, d.current) == None;
  }

  lemma ExactInheritsNothing(d: Demand, wild: string, y: string)
    requires Plain(d) && y in Listeners(d) && OpenGroup(d, wild) && y in Group(d, wild) && wild !in d.current
    ensures InheritedIndex(Projected(d, y), d.current) == None
  {
    OpenMember(d, wild, y);
    assert WildcardParent(y) == Some(wild);
  }

  lemma WildBeforeLate(d: Demand, c: Cast, y: string)
    requires Contest(d, c) && y in c.mates && y != c.keeper && y in PlacementsOf(d, false)
    ensures c.wild in PlacementsOf(d, false)
  {
    ListenersAre(d, c);
    WildIsNobody(d, c);
    WildInheritsNothing(d, c.wild, c.sole);
    ExactInheritsNothing(d, c.wild, y);
    NewcomerAfter(d, c.wild, y);
  }

  /** The Gateway keeps the listeners it already had and takes the wildcard: the other mates get nothing. */
  lemma FirstPlan(d: Demand, c: Cast)
    requires Contest(d, c)
    ensures PlacementsOf(d, false).Keys == c.others + {c.keeper} + {c.wild}
  {
    ListenersAre(d, c);
    WildIsNobody(d, c);
    OldStay(d, c);
    WithoutOverflow(d);
    forall y | y in c.mates && y != c.keeper && y in PlacementsOf(d, false) ensures c.wild in PlacementsOf(d, false) {
      WildBeforeLate(d, c, y);
    }
    GatewayFull(c, PlacementsOf(d, false).Keys, Names(PlacedOf(d, false).rest));
  }

  lemma WithoutOverflow(d: Demand)
    requires Plain(d)
    ensures var placed, rest := PlacementsOf(d, false).Keys, Names(PlacedOf(d, false).rest);
            && placed + rest == Listeners(d) && placed !! rest
            && |placed| <= 63 && (rest != {} ==> |placed| == 63)
  {
    var p := PlacementsOf(d, false);
    PlacementsSound(d, false);
    assert Held(p, 0) == p.Keys;
    assert |Held(p, 0)| <= Capacity(0);
    assert PlacedOf(d, false).rest == [] ==> Names(PlacedOf(d, false).rest) == {};
  }

  lemma OldStay(d: Demand, c: Cast)
    requires Contest(d, c) && c.others + {c.keeper} <= Listeners(d)
    ensures c.others + {c.keeper} <= PlacementsOf(d, false).Keys
  {
    assert |c.others + {c.keeper}| == 62;
    OnGatewayFits(d.current);
    forall x | x in c.others + {c.keeper} ensures x in PlacementsOf(d, false) {
      PlanSticky(d, false, x);
    }
  }

  lemma GatewayFull(c: Cast, placed: set<string>, rest: set<string>)
    requires Casting(c) && c.wild !in c.mates && c.others + {c.keeper} <= placed
    requires placed + rest == c.others + c.mates + {c.wild}
    requires |placed| <= 63 && (rest != {} ==> |placed| == 63)
    requires forall y | y in c.mates && y != c.keeper && y in placed :: c.wild in placed
    ensures placed == c.others + {c.keeper} + {c.wild}
  {
    var base := c.others + {c.keeper};
    assert |base| == 62;
    DisjointSize(c.others, c.mates);
    assert rest != {} by {
      assert |c.others + c.mates + {c.wild}| >= 65;
      assert rest == {} ==> placed == c.others + c.mates + {c.wild};
    }
    assert c.wild in placed by {
      assert c.wild !in placed ==> placed == base;
    }
    SubsetOfSameSize(base + {c.wild}, placed);
  }

  // ---------- The second plan ----------

  lemma WinsTieBySize(d: Demand, c: Cast)
    requires Contest(d, c) && c.first in ClassKeys(d, c.wild) && c.second in ClassKeys(d, c.wild)
    requires ClassHosts(d, c.wild, c.first) == {c.sole} && ClassHosts(d, c.wild, c.second) == c.mates
    ensures !WinsTie(d, c.wild, c.first, c.second)
  {
    assert |{c.sole}| == 1;
  }

  lemma KeeperSettled(d: Demand, c: Cast)
    requires Plain(d) && Casting(c) && ClassHosts(d, c.wild, c.second) == c.mates && c.wild !in c.mates
    requires PlacementsOf(d, false).Keys == c.others + {c.keeper} + {c.wild}
    ensures Settled(d, false, c.wild, c.second) == {c.keeper}
    ensures Stranded(d, false, c.wild, c.second) == c.mates - {c.keeper}
  {
  }

  /** One host of each class would lose its listener, two or more would be rescued. */
  lemma FirstDoesNotOutlast(d: Demand, c: Cast)
    requires Contest(d, c) && Elected(d, c.wild) == c.first && ClassKeys(d, c.wild) == {c.first, c.second}
    requires ClassHosts(d, c.wild, c.first) == {c.sole} && ClassHosts(d, c.wild, c.second) == c.mates
    requires |Settled(d, false, c.wild, c.second)| == 1 && |Stranded(d, false, c.wild, c.second)| >= 2
    requires c.wild in PlacementsOf(d, false)
    ensures !Outlasts(d, false, c.wild, c.second)
  {
    WinsTieBySize(d, c);
  }

  /** Replanning a contest from its own placements elects the other class: only sole and keeper would lose
      their listener, for the other mates rescued, at least two, and the larger class wins the tie. */
  lemma ReplanFlips(d: Demand, c: Cast)
    requires Contest(d, c)
    ensures Elected(d, c.wild) == c.first
    ensures Group(Again(d, false), c.wild) != {} && Elected(Again(d, false), c.wild) == c.second
  {
    FirstElected(d, c);
    FirstPlan(d, c);
    FirstClass(d, c);
    SecondClass(d, c);
    TwoClasses(d, c);
    WildIsNobody(d, c);
    KeeperSettled(d, c);
    assert |c.mates - {c.keeper}| == |c.mates| - 1;
    FirstDoesNotOutlast(d, c);
    ReelectedExactly(d, false, c.wild);
    SameClasses(d, Again(d, false), c.wild, c.first);
  }

  // ---------- A contest exists ----------

  const WILD := "*.x.dev"
  const A := "a.x.dev"
  const K := "k.x.dev"
  const L := "l.x.dev"
  const M := "m.x.dev"
  const ALPHA := NamespacedName("n", "alpha")
  const KAPPA := NamespacedName("n", "kappa")
  const OTHER := NamespacedName("n", "other")

  function Filler(i: nat): string {
    seq(i + 1, _ => 'f')
  }

  ghost function Fillers(n: nat): set<string> {
    set i: nat | i < n :: Filler(i)
  }

  ghost function ExampleCast(): Cast {
    Cast(WILD, A, K, {K, L, M}, Fillers(61), "fp:alpha", "fp:kappa")
  }

  /** a.x.dev has one certificate for *.x.dev, the k, l and m of x.dev share another. */
  ghost function ExampleDemand(): Demand {
    Demand(
      map h | h in Fillers(61) + {K, L, M} + {A} :: if h == A then ALPHA else if h in {K, L, M} then KAPPA else OTHER,
      Some(map[ALPHA := CertificateInfo([WILD], "alpha"), KAPPA := CertificateInfo([WILD], "kappa")]),
      map h | h in Fillers(61) + {K} :: Placement(0, if h == K then KAPPA else OTHER))
  }

  lemma {:induction false} FillersCount(n: nat)
    ensures |Fillers(n)| == n
  {
    if n == 0 {
      assert Fillers(0) == {};
    } else {
      FillersCount(n - 1);
      forall i: nat | i < n - 1 ensures Filler(i) != Filler(n - 1) {
        assert |Filler(i)| != |Filler(n - 1)|;
      }
      assert Fillers(n) == Fillers(n - 1) + {Filler(n - 1)};
    }
  }

  lemma StartingWith()
    ensures A[0] == 'a' && K[0] == 'k' && L[0] == 'l' && M[0] == 'm' && WILD[0] == '*'
    ensures forall h | h in Fillers(61) :: h != "" && h[0] == 'f'
  {
  }

  lemma ExampleCasting()
    ensures Casting(ExampleCast())
  {
    StartingWith();
    FillersCount(61);
    assert "fp:alpha"[3] != "fp:kappa"[3];
    ThreeMates(K, L, M);
  }

  lemma ThreeMates(k: string, l: string, m: string)
    requires k != l && l != m && k != m
    ensures |{k, l, m}| == 3
  {
  }

  lemma UnderWild(h: string)
    requires h in {A, K, L, M}
    ensures !IsWildcard(h) && WildcardParent(h) == Some(WILD)
  {
    assert h[0] != '.' && h[0] != '*' && |h| == 7;
    assert h[1..][0] == '.';
    assert FirstDot(h) == 1;
    assert "*" + h[1..] == WILD;
  }

  lemma FillerTarget(h: string)
    requires h in Fillers(61)
    ensures h in ExampleDemand().owner && Target(ExampleDemand(), h) == h
  {
    StartingWith();
    assert ExampleDemand().owner[h] == OTHER;
    assert OTHER.name[0] == 'o' && ALPHA.name[0] == 'a' && KAPPA.name[0] == 'k';
  }

  lemma MemberTarget(h: string)
    requires h in {A, K, L, M}
    ensures h in ExampleDemand().owner && Target(ExampleDemand(), h) == WILD
  {
    UnderWild(h);
    OwnCertificate(h);
  }

  lemma OwnCertificate(h: string)
    requires h in {A, K, L, M}
    ensures h in ExampleDemand().owner
    ensures var d := ExampleDemand();
            var secret := d.owner[h];
            && secret in d.certificates.value && d.certificates.value[secret].wildcardSANs == [WILD]
            && KeyOf(d, h) == if h == A then "fp:alpha" else "fp:kappa"
  {
    StartingWith();
    assert ALPHA.name[0] == 'a' && KAPPA.name[0] == 'k';
    assert "fp:" + "alpha" == "fp:alpha" && "fp:" + "kappa" == "fp:kappa";
  }

  lemma GroupsUnder(d: Demand, wild: string, others: set<string>, members: set<string>)
    requires d.owner.Keys == others + members && wild !in d.owner && members != {} && IsWildcard(wild)
    requires forall h | h in others :: Target(d, h) == h
    requires forall h | h in members :: Target(d, h) == wild
    ensures Group(d, wild) == members && OpenGroup(d, wild)
  {
    forall h | h in d.owner ensures h in Group(d, wild) <==> h in members {
      assert h !in members ==> h in others;
    }
  }

  lemma ExampleMembers(c: Cast)
    requires c == ExampleCast()
    ensures c.mates + {c.sole} == {A, K, L, M}
    ensures ExampleDemand().owner.Keys == c.others + (c.mates + {c.sole}) == c.others + c.mates + {c.sole}
    ensures ExampleDemand().current.Keys == c.others + {c.keeper}
  {
  }

  lemma ExampleKeys(d: Demand, c: Cast)
    requires d == ExampleDemand() && c == ExampleCast()
    ensures c.sole in d.owner && KeyOf(d, c.sole) == c.first
    ensures forall h | h in c.mates :: h in d.owner && KeyOf(d, h) == c.second
  {
    StartingWith();
    forall h | h in {A, K, L, M} ensures h in d.owner && KeyOf(d, h) == if h == A then "fp:alpha" else "fp:kappa" {
      OwnCertificate(h);
    }
  }

  lemma ExampleOthers(d: Demand, c: Cast)
    requires d == ExampleDemand() && c == ExampleCast()
    ensures forall h | h in c.others :: h in d.owner && Target(d, h) == h
  {
    forall h | h in c.others ensures h in d.owner && Target(d, h) == h {
      FillerTarget(h);
    }
  }

  lemma ExampleGroup(d: Demand, c: Cast)
    requires d == ExampleDemand() && c == ExampleCast()
    ensures forall h | h in {A, K, L, M} :: h in d.owner && Target(d, h) == c.wild
  {
    forall h | h in {A, K, L, M} ensures h in d.owner && Target(d, h) == c.wild {
      MemberTarget(h);
    }
  }

  lemma ExampleWild(d: Demand, c: Cast)
    requires d == ExampleDemand() && c == ExampleCast()
    ensures IsWildcard(c.wild) && c.wild !in d.owner
  {
    StartingWith();
    ExampleMembers(c);
    assert c.wild !in c.mates && c.wild !in c.others && c.wild != c.sole;
  }

  lemma ExampleClasses(d: Demand, c: Cast)
    requires d == ExampleDemand() && c == ExampleCast()
    ensures Classes(d, c)
  {
    ExampleMembers(c);
    ExampleOthers(d, c);
    ExampleGroup(d, c);
    ExampleWild(d, c);
    ExampleKeys(d, c);
    Assemble(d, c);
  }

  lemma Assemble(d: Demand, c: Cast)
    requires d.owner.Keys == c.others + (c.mates + {c.sole}) == c.others + c.mates + {c.sole}
    requires IsWildcard(c.wild) && c.wild !in d.owner
    requires forall h | h in c.others :: Target(d, h) == h
    requires forall h | h in c.mates + {c.sole} :: Target(d, h) == c.wild
    requires KeyOf(d, c.sole) == c.first && (forall h | h in c.mates :: KeyOf(d, h) == c.second)
    ensures Classes(d, c)
  {
    GroupsUnder(d, c.wild, c.others, c.mates + {c.sole});
  }

  lemma ExamplePlain()
    ensures Plain(ExampleDemand())
  {
    forall h | h in ExampleDemand().owner ensures PlainNamespace(ExampleDemand().owner[h]) {
      assert ExampleDemand().owner[h] in {ALPHA, KAPPA, OTHER};
    }
  }

  lemma ExampleContest(d: Demand, c: Cast)
    requires d == ExampleDemand() && c == ExampleCast()
    ensures Contest(d, c)
  {
    ExamplePlain();
    ExampleCasting();
    ExampleClasses(d, c);
    ExampleMembers(c);
  }

  lemma NotReelected(d: Demand, c: Cast)
    requires Contest(d, c)
    ensures !AllReelected(d, false)
  {
    ReplanFlips(d, c);
    if AllReelected(d, false) {
      SameElection(d, false, c.wild);
    }
  }

  // ---------- Ingresses that give rise to it ----------

  /** One Ingress with three TLS entries: a host, three hosts, and 61 more, each entry with its own Secret. */
  function ExampleIngress(): Ingress {
    Ingress("n", "web", false,
            [TLSEntry("alpha", [A]), TLSEntry("kappa", [K, L, M]), TLSEntry("other", FillerList())], [])
  }

  function FillerList(): seq<string> {
    seq(61, i requires 0 <= i < 61 => Filler(i))
  }

  lemma ExampleOwner(h: string)
    requires h in ExampleDemand().owner
    ensures ExampleDemand().owner[h] == if h == A then ALPHA else if h in {K, L, M} then KAPPA else OTHER
  {
  }

  lemma SoleEntry(ing: Ingress, owner: map<string, NamespacedName>)
    requires ing == ExampleIngress() && owner == ExampleDemand().owner
    ensures Agree(EntryDeclarations(ing, ing.tls[0]), owner) && Declared(EntryDeclarations(ing, ing.tls[0])) == {A}
  {
    ExampleOwner(A);
    assert ing.tls[0].hosts == [A] && Elements([A]) == {A};
    EntryAgrees(ing, ing.tls[0], owner);
  }

  lemma MatesEntry(ing: Ingress, owner: map<string, NamespacedName>)
    requires ing == ExampleIngress() && owner == ExampleDemand().owner
    ensures Agree(EntryDeclarations(ing, ing.tls[1]), owner) && Declared(EntryDeclarations(ing, ing.tls[1])) == {K, L, M}
  {
    var hosts := [K, L, M];
    MatesOwned(hosts, owner);
    ThreeElements(K, L, M);
    assert ing.tls[1].hosts == hosts;
    EntryAgrees(ing, ing.tls[1], owner);
  }

  lemma MatesOwned(hosts: seq<string>, owner: map<string, NamespacedName>)
    requires hosts == [K, L, M] && owner == ExampleDemand().owner
    ensures forall h | h in hosts :: h in owner && owner[h] == KAPPA
    ensures forall i | 0 <= i < |hosts| :: PlainName(hosts[i])
  {
    StartingWith();
    forall h | h in hosts ensures h in owner && owner[h] == KAPPA {
      ExampleOwner(h);
    }
  }

  lemma ThreeElements(k: string, l: string, m: string)
    ensures Elements([k, l, m]) == {k, l, m}
  {
  }

  lemma FillersEntry(ing: Ingress, owner: map<string, NamespacedName>)
    requires ing == ExampleIngress() && owner == ExampleDemand().owner
    ensures Agree(EntryDeclarations(ing, ing.tls[2]), owner) && Declared(EntryDeclarations(ing, ing.tls[2])) == Fillers(61)
  {
    StartingWith();
    FillersListed();
    forall h | h in FillerList() ensures h in owner && owner[h] == OTHER {
      assert h in Elements(FillerList());
      ExampleOwner(h);
    }
    assert ing.tls[2].hosts == FillerList() && |FillerList()| == 61;
    EntryAgrees(ing, ing.tls[2], owner);
  }

  lemma FillersListed()
    ensures Elements(FillerList()) == Fillers(61)
    ensures forall i | 0 <= i < 61 :: PlainName(FillerList()[i])
  {
    forall h | h in Fillers(61) ensures h in Elements(FillerList()) {
      var i: nat :| i < 61 && Filler(i) == h;
      assert FillerList()[i] == h;
    }
  }

  lemma ExampleOwners(ing: Ingress, owner: map<string, NamespacedName>)
    requires ing == ExampleIngress() && owner == ExampleDemand().owner
    ensures OwnersOf(CollectedOf([ing])) == owner
  {
    SoleEntry(ing, owner);
    MatesEntry(ing, owner);
    FillersEntry(ing, owner);
    OwnerKeys();
    ThreeOwners(ing, owner, {A}, {K, L, M}, Fillers(61));
  }

  lemma OwnerKeys()
    ensures {A} + {K, L, M} + Fillers(61) == ExampleDemand().owner.Keys
  {
  }

  lemma ThreeOwners(ing: Ingress, owner: map<string, NamespacedName>, a: set<string>, b: set<string>, c: set<string>)
    requires !ing.deleting && |ing.tls| == 3 && a + b + c == owner.Keys
    requires Agree(EntryDeclarations(ing, ing.tls[0]), owner) && Declared(EntryDeclarations(ing, ing.tls[0])) == a
    requires Agree(EntryDeclarations(ing, ing.tls[1]), owner) && Declared(EntryDeclarations(ing, ing.tls[1])) == b
    requires Agree(EntryDeclarations(ing, ing.tls[2]), owner) && Declared(EntryDeclarations(ing, ing.tls[2])) == c
    ensures OwnersOf(CollectedOf([ing])) == owner
  {
    JoinedOwners(EntryDeclarations(ing, ing.tls[0]), EntryDeclarations(ing, ing.tls[1]), EntryDeclarations(ing, ing.tls[2]), owner);
    ThreeEntries(ing);
  }

  lemma JoinedOwners(a: seq<Declaration>, b: seq<Declaration>, c: seq<Declaration>, owner: map<string, NamespacedName>)
    requires Agree(a, owner) && Agree(b, owner) && Agree(c, owner)
    requires Declared(a) + Declared(b) + Declared(c) == owner.Keys
    ensures OwnersOf(AbsorbAll(NOTHING, a + b + c)) == owner
  {
    assert Declared(a + b + c) == Declared(a) + Declared(b) + Declared(c);
    OwnersAgree(a + b + c, owner);
  }

  lemma ThreeEntries(ing: Ingress)
    requires !ing.deleting && |ing.tls| == 3
    ensures SortBy(IngressKey, [ing]) == [ing]
    ensures Declarations([ing], 1) ==
            EntryDeclarations(ing, ing.tls[0]) + EntryDeclarations(ing, ing.tls[1]) + EntryDeclarations(ing, ing.tls[2])
  {
    assert IngressDeclarations(ing, 0) == [];
    assert IngressDeclarations(ing, 1) == EntryDeclarations(ing, ing.tls[0]);
    assert IngressDeclarations(ing, 2) == IngressDeclarations(ing, 1) + EntryDeclarations(ing, ing.tls[1]);
    assert Declarations([ing], 0) == [];
  }

  lemma ContestFits(d: Demand, c: Cast)
    requires Contest(d, c)
    ensures WithinCapacity(d.current, false) && NonNegative(d.current)
  {
    assert |c.others + {c.keeper}| == 62;
    OnGatewayFits(d.current);
  }

  /** Rebuilding the plan of the Ingresses from its own placements gives another plan. */
  ghost predicate Unstable(ings: seq<Ingress>, o: Options) {
    PlainIngresses(ings) && BuildPlan(ings, o.(current := BuildPlan(ings, o).placements)) != BuildPlan(ings, o)
  }

  lemma DemandUnstable(ings: seq<Ingress>, o: Options, d: Demand)
    requires PlainIngresses(ings) && DemandOf(ings, o) == d && !o.overflow
    requires Plain(d) && WithinCapacity(d.current, false) && !AllReelected(d, false)
    ensures Unstable(ings, o)
  {
    RebuildExactly(ings, o);
  }

  /** The previous placement of the example is one the API accepts, and its wildcard changes hands. */
  lemma ExampleFacts(d: Demand)
    requires d == ExampleDemand()
    ensures Plain(d) && WithinCapacity(d.current, false) && NonNegative(d.current) && !AllReelected(d, false)
  {
    var c := ExampleCast();
    ExampleContest(d, c);
    ContestFits(d, c);
    NotReelected(d, c);
  }

  lemma ExampleIs(ings: seq<Ingress>, o: Options, d: Demand)
    requires ings == [ExampleIngress()] && d == ExampleDemand()
    requires o.certificates == d.certificates && o.current == d.current
    ensures PlainIngresses(ings) && DemandOf(ings, o) == d
  {
    ExampleOwners(ExampleIngress(), d.owner);
  }

  /** The Ingresses of the example, with its certificates and previous placement, whatever the names and
      sections are called. */
  lemma ExampleUnstable(ings: seq<Ingress>, o: Options)
    requires ings == [ExampleIngress()] && !o.overflow
    requires o.certificates == ExampleDemand().certificates && o.current == ExampleDemand().current
    ensures Unstable(ings, o)
  {
    var d := ExampleDemand();
    ExampleIs(ings, o, d);
    ExampleFacts(d);
    DemandUnstable(ings, o, d);
  }
}
