// The hosts an Ingress routes, the declared TLS host each is matched to, and which
// Ingresses a replan pushes because a listener they attach to moved.
module Routes {
  import opened Text
  import opened Sorting
  import opened Model
  import opened Collect
  import opened Planner
  import opened PlannerLaws

  datatype PathType = Unspecified | Exact | Prefix | ImplementationSpecific

  /** A path of an Ingress rule and the Service it names. */
  datatype PathRule = PathRule(path: string, pathType: PathType, backend: string)

  datatype HeaderMatch = HeaderMatch(name: string, value: string)

  /** A rule without an HTTP section has no paths at all. */
  datatype Rule = Rule(host: string, paths: Option<seq<PathRule>>)

  /** The part of an Ingress routing reads. serverAlias is its comma-separated list of aliases, or ""; regex says
      that its annotations make paths regular expressions; header is what its canary annotations match on. */
  datatype Routed = Routed(ns: string, name: string, created: int, canary: bool, tls: seq<TLSEntry>, rules: seq<Rule>,
                           defaultBackend: Option<string>, serverAlias: string, regex: bool, header: Option<HeaderMatch>)

  // ---------- The alias list ----------

  /** Go's strings.Split at commas. */
  function Split(s: string): (parts: seq<string>)
    ensures |parts| >= 1
  {
    if s == "" then [""]
    else
      var rest := Split(s[1..]);
      if s[0] == ',' then [""] + rest else [[s[0]] + rest[0]] + rest[1..]
  }

  /** The non-empty items among the first n, trimmed. */
  function Items(parts: seq<string>, n: nat): seq<string>
    requires n <= |parts|
  {
    if n == 0 then []
    else if TrimSpace(parts[n - 1]) == "" then Items(parts, n - 1)
    else Items(parts, n - 1) + [TrimSpace(parts[n - 1])]
  }

  function Distinct(xs: seq<string>): seq<string> {
    FirstOccurrences(xs, |xs|)
  }

  function AliasesOf(ing: Routed): seq<string> {
    var parts := Split(ing.serverAlias);
    Distinct(Items(parts, |parts|))
  }

  lemma {:induction false} BlankItems(s: string)
    requires TrimSpace(s) == ""
    ensures forall n | 0 <= n <= |Split(s)| :: Items(Split(s), n) == []
  {
    AllBlank(s);
    NoCommas(s);
    forall n | 0 <= n <= |Split(s)| ensures Items(Split(s), n) == [] {
      assert Items([s], 0) == [];
    }
  }

  lemma {:induction false} AllBlank(s: string)
    requires TrimSpace(s) == ""
    ensures forall i | 0 <= i < |s| :: IsSpace(s[i])
  {
    if s != "" {
      if !IsSpace(s[0]) {
        KeepsFirst(s);
      }
      AllBlank(s[1..]);
      assert s == [s[0]] + s[1..];
    }
  }

  lemma {:induction false} NoCommas(s: string)
    requires forall i | 0 <= i < |s| :: s[i] != ','
    ensures Split(s) == [s]
  {
    if s != "" {
      NoCommas(s[1..]);
      assert s == [s[0]] + s[1..];
    }
  }

  /** The distinct items among the first n parts have been collected. */
  ghost predicate ItemsCollected(parts: seq<string>, n: nat, result: seq<string>, seen: set<string>)
    requires n <= |parts|
  {
    result == Distinct(Items(parts, n)) && seen == Elements(result)
  }

  lemma DistinctNext(items: seq<string>, item: string, result: seq<string>, seen: set<string>)
    requires result == Distinct(items) && seen == Elements(result)
    ensures Distinct(items + [item]) == if item in seen then result else result + [item]
    ensures Elements(result + [item]) == seen + {item}
  {
    FirstOccurrencesSnoc(items, item);
    ElementsSnoc(result, item);
  }

  lemma NextItem(parts: seq<string>, n: nat, item: string)
    requires n < |parts| && item == TrimSpace(parts[n])
    ensures Items(parts, n + 1) == if item == "" then Items(parts, n) else Items(parts, n) + [item]
  {
  }

  lemma ItemsStep(parts: seq<string>, n: nat, item: string, result: seq<string>, seen: set<string>)
    requires n < |parts| && item == TrimSpace(parts[n]) && ItemsCollected(parts, n, result, seen)
    ensures if item == "" || item in seen then ItemsCollected(parts, n + 1, result, seen)
            else ItemsCollected(parts, n + 1, result + [item], seen + {item})
  {
    NextItem(parts, n, item);
    DistinctNext(Items(parts, n), item, result, seen);
  }

  method SplitCSV(value: string) returns (result: seq<string>)
    ensures var parts := Split(value); result == Distinct(Items(parts, |parts|))
  {
    result := [];
    if TrimSpace(value) == "" {
      BlankItems(value);
      return;
    }
    var parts := Split(value);
    var seen: set<string> := {};
    for i := 0 to |parts|
      invariant ItemsCollected(parts, i, result, seen)
    {
      var item := TrimSpace(parts[i]);
      ItemsStep(parts, i, item, result, seen);
      if item == "" {
        continue;
      }
      if item in seen {
        continue;
      }
      seen := seen + {item};
      result := result + [item];
    }
  }

  lemma {:induction false} ItemsTrimmed(parts: seq<string>, n: nat)
    requires n <= |parts|
    ensures forall x | x in Items(parts, n) :: TrimSpace(x) == x
  {
    if n > 0 {
      ItemsTrimmed(parts, n - 1);
      TrimTwice(parts[n - 1]);
    }
  }

  lemma AliasesTrimmed(ing: Routed)
    ensures forall i | 0 <= i < |AliasesOf(ing)| :: TrimSpace(AliasesOf(ing)[i]) == AliasesOf(ing)[i]
  {
    var parts := Split(ing.serverAlias);
    ItemsTrimmed(parts, |parts|);
    DistinctMembers(Items(parts, |parts|));
    forall i | 0 <= i < |AliasesOf(ing)| ensures TrimSpace(AliasesOf(ing)[i]) == AliasesOf(ing)[i] {
      assert AliasesOf(ing)[i] in AliasesOf(ing);
    }
  }

  // ---------- Matching a declared TLS host ----------

  /** The wildcard covers the host, any number of labels down. */
  predicate UnderWildcard(candidate: string, host: string) {
    IsWildcard(candidate) &&
    var suffix := candidate[1..];
    |host| > |suffix| && host[|host| - |suffix|..] == suffix
  }

  /** The longest of the wildcards covering the host, or "" if there is none. */
  ghost predicate Longest(host: string, wildcards: set<string>, best: string) {
    && (best == "" || (best in wildcards && UnderWildcard(best, host)))
    && (forall c | c in wildcards && UnderWildcard(c, host) :: |c| <= |best|)
  }

  lemma {:induction false} LongestExists(host: string, wildcards: set<string>)
    ensures exists best :: Longest(host, wildcards, best)
  {
    if wildcards == {} {
      assert Longest(host, wildcards, "");
    } else {
      var x :| x in wildcards;
      LongestExists(host, wildcards - {x});
      var best :| Longest(host, wildcards - {x}, best);
      assert Longest(host, wildcards, if UnderWildcard(x, host) && |x| > |best| then x else best);
    }
  }

  lemma UnderWildcardSame(a: string, b: string, host: string)
    requires UnderWildcard(a, host) && UnderWildcard(b, host) && |a| == |b|
    ensures a == b
  {
    assert a == ['*'] + a[1..] && b == ['*'] + b[1..];
  }

  /** Two wildcards of one length covering a host are the same, so the order of a map cannot matter. */
  lemma LongestUnique(host: string, wildcards: set<string>, a: string, b: string)
    requires Longest(host, wildcards, a) && Longest(host, wildcards, b)
    ensures a == b
  {
    if UnderWildcard(a, host) && UnderWildcard(b, host) {
      UnderWildcardSame(a, b, host);
    }
  }

  /** The declared host a routed host is matched to: itself, else the longest wildcard covering it. */
  ghost function MatchOf(host: string, tlsHosts: set<string>): (matched: string)
    ensures host != "" && host !in tlsHosts ==> Longest(host, tlsHosts, matched)
  {
    if host == "" then ""
    else if host in tlsHosts then host
    else
      LongestExists(host, tlsHosts);
      var best :| Longest(host, tlsHosts, best);
      best
  }

  method MatchingTLSHost(host: string, tlsHosts: set<string>) returns (matched: string)
    ensures matched == MatchOf(host, tlsHosts)
  {
    if host == "" {
      return "";
    }
    if host in tlsHosts {
      return host;
    }
    var best := "";
    var rest := tlsHosts;
    while rest != {}
      invariant rest <= tlsHosts && Longest(host, tlsHosts - rest, best)
      decreases rest
    {
      var candidate :| candidate in rest;
      rest := rest - {candidate};
      if UnderWildcard(candidate, host) && |candidate| > |best| {
        best := candidate;
      }
    }
    assert tlsHosts - rest == tlsHosts;
    LongestUnique(host, tlsHosts, best, MatchOf(host, tlsHosts));
    matched := best;
  }

  // ---------- The hosts an Ingress routes ----------

  function HostOf(rule: Rule): string {
    Normalise(rule.host)
  }

  /** The hosts of the first n rules that have an HTTP section. */
  function RuleHosts(rules: seq<Rule>, n: nat): seq<string>
    requires n <= |rules|
  {
    if n == 0 then []
    else if rules[n - 1].paths.None? then RuleHosts(rules, n - 1)
    else RuleHosts(rules, n - 1) + [HostOf(rules[n - 1])]
  }

  /** The paths the first n rules give a host, in order. */
  function RulePaths(rules: seq<Rule>, n: nat, host: string): seq<PathRule>
    requires n <= |rules|
  {
    if n == 0 then []
    else if rules[n - 1].paths.Some? && HostOf(rules[n - 1]) == host
    then RulePaths(rules, n - 1, host) + rules[n - 1].paths.value
    else RulePaths(rules, n - 1, host)
  }

  function OwnMentions(ing: Routed): seq<string> {
    RuleHosts(ing.rules, |ing.rules|) + if ing.defaultBackend.Some? then [""] else []
  }

  function OwnPaths(ing: Routed, host: string): seq<PathRule> {
    RulePaths(ing.rules, |ing.rules|, host) +
    if host == "" && ing.defaultBackend.Some? then [PathRule("/", Prefix, ing.defaultBackend.value)] else []
  }

  function LowerAll(xs: seq<string>): seq<string> {
    seq(|xs|, i requires 0 <= i < |xs| => Lower(xs[i]))
  }

  /** Every mention of a host: by a rule, by the default backend, and, unless there are none of these, by
      an alias. */
  function Mentions(ing: Routed): seq<string> {
    OwnMentions(ing) + if OwnMentions(ing) == [] then [] else LowerAll(AliasesOf(ing))
  }

  /** The routed hosts, each once, in the order they are first mentioned. */
  function Hosts(ing: Routed): seq<string> {
    Distinct(Mentions(ing))
  }

  /** An alias has the paths of the first host; every other host has its own. */
  function PathsAt(ing: Routed, host: string): seq<PathRule> {
    if host in OwnMentions(ing) || OwnMentions(ing) == [] then OwnPaths(ing, host) else OwnPaths(ing, OwnMentions(ing)[0])
  }

  datatype HostInput = HostInput(hostname: string, paths: seq<PathRule>, tlsHostname: string)

  // ---------- collectHosts ----------

  datatype HostTable = HostTable(ordered: seq<string>, byHost: map<string, seq<PathRule>>)

  /** The table lists exactly the distinct mentions, in order. */
  ghost predicate Lists(t: HostTable, mentions: seq<string>) {
    t.ordered == Distinct(mentions) && t.byHost.Keys == Elements(mentions)
  }

  lemma ListsSnoc(t: HostTable, mentions: seq<string>, host: string, paths: seq<PathRule>)
    requires Lists(t, mentions)
    ensures Lists(HostTable(if host in t.byHost then t.ordered else t.ordered + [host], t.byHost[host := paths]),
                  mentions + [host])
  {
    FirstOccurrencesSnoc(mentions, host);
    ElementsSnoc(mentions, host);
    DistinctMembers(mentions);
  }

  lemma OrderedInTable(t: HostTable, mentions: seq<string>, i: nat)
    requires Lists(t, mentions) && i < |t.ordered|
    ensures t.ordered[i] in t.byHost
  {
    DistinctMembers(mentions);
    assert t.ordered[i] in Distinct(mentions);
  }

  lemma DistinctMembers(xs: seq<string>)
    ensures NoDuplicates(Distinct(xs)) && forall x :: x in Distinct(xs) <==> x in xs
  {
    assert xs[..|xs|] == xs;
  }

  ghost predicate RulesTabled(t: HostTable, rules: seq<Rule>, n: nat)
    requires n <= |rules|
  {
    Lists(t, RuleHosts(rules, n)) && forall h | h in t.byHost :: t.byHost[h] == RulePaths(rules, n, h)
  }

  /** Add paths to a host's, listing the host if it is new. */
  function Append(t: HostTable, host: string, paths: seq<PathRule>): HostTable {
    HostTable(if host in t.byHost then t.ordered else t.ordered + [host],
              t.byHost[host := (if host in t.byHost then t.byHost[host] else []) + paths])
  }

  method TableRules(rules: seq<Rule>) returns (t: HostTable, issues: seq<RouteIssue>)
    ensures RulesTabled(t, rules, |rules|) && issues == RuleIssuesFirst(rules, |rules|)
  {
    t, issues := HostTable([], map[]), [];
    for i := 0 to |rules|
      invariant RulesTabled(t, rules, i) && issues == RuleIssuesFirst(rules, i)
    {
      if rules[i].paths.None? {
        issues := issues + [RuleWithoutHTTP(rules[i].host)];
        continue;
      }
      RuleStep(t, rules, i);
      t := Append(t, Normalise(rules[i].host), rules[i].paths.value);
    }
  }

  lemma RuleStep(t: HostTable, rules: seq<Rule>, n: nat)
    requires n < |rules| && RulesTabled(t, rules, n) && rules[n].paths.Some?
    ensures RulesTabled(Append(t, HostOf(rules[n]), rules[n].paths.value), rules, n + 1)
  {
    var host := HostOf(rules[n]);
    Unmentioned(rules, n, host);
    ListsSnoc(t, RuleHosts(rules, n), host, Append(t, host, rules[n].paths.value).byHost[host]);
  }

  lemma {:induction false} Unmentioned(rules: seq<Rule>, n: nat, host: string)
    requires n <= |rules|
    ensures host !in RuleHosts(rules, n) ==> RulePaths(rules, n, host) == []
  {
    if n > 0 {
      Unmentioned(rules, n - 1, host);
    }
  }

  method AddDefaultBackend(ing: Routed, rules: HostTable) returns (t: HostTable)
    requires RulesTabled(rules, ing.rules, |ing.rules|)
    ensures Lists(t, OwnMentions(ing)) && forall h | h in t.byHost :: t.byHost[h] == OwnPaths(ing, h)
  {
    t := rules;
    if ing.defaultBackend.None? {
      assert OwnMentions(ing) == RuleHosts(ing.rules, |ing.rules|);
      forall h ensures OwnPaths(ing, h) == RulePaths(ing.rules, |ing.rules|, h) {}
    } else {
      Unmentioned(ing.rules, |ing.rules|, "");
      t := Append(t, "", [PathRule("/", Prefix, ing.defaultBackend.value)]);
      ListsSnoc(rules, RuleHosts(ing.rules, |ing.rules|), "", t.byHost[""]);
    }
  }

  method AddAliases(ing: Routed, own: HostTable, tlsHosts: set<string>) returns (t: HostTable, issues: seq<RouteIssue>)
    requires Lists(own, OwnMentions(ing)) && forall h | h in own.byHost :: own.byHost[h] == OwnPaths(ing, h)
    ensures Lists(t, Mentions(ing)) && forall h | h in t.byHost :: t.byHost[h] == PathsAt(ing, h)
    ensures issues == AliasIssues(ing, tlsHosts)
  {
    t, issues := own, [];
    var aliases := SplitCSV(ing.serverAlias);
    DistinctMembers(OwnMentions(ing));
    if own.ordered == [] {
      NoMentions(OwnMentions(ing));
      issues := if aliases == [] then [] else [AliasWithoutRules];
      return;
    }
    FirstMention(OwnMentions(ing));
    var basePaths := own.byHost[own.ordered[0]];
    assert OwnMentions(ing) + LowerAll(aliases)[..0] == OwnMentions(ing);
    for j := 0 to |aliases|
      invariant AliasesTabled(t, ing, j) && issues == UncoveredFirst(ing, tlsHosts, j)
    {
      var alias := Lower(aliases[j]);
      AliasStep(t, ing, j);
      AliasMentioned(t, ing, j);
      if alias in t.byHost {
        continue;
      }
      t := HostTable(t.ordered + [alias], t.byHost[alias := basePaths]);
      var coveredBy := MatchingTLSHost(alias, tlsHosts);
      if coveredBy == "" && |ing.tls| > 0 {
        issues := issues + [AliasUncovered(alias)];
      }
    }
    assert LowerAll(aliases)[..|aliases|] == LowerAll(aliases);
  }

  lemma AliasMentioned(t: HostTable, ing: Routed, n: nat)
    requires n < |AliasesOf(ing)| && AliasesTabled(t, ing, n)
    ensures Lower(AliasesOf(ing)[n]) in t.byHost <==> MentionedBefore(ing, n)
  {
    var mentions := OwnMentions(ing) + LowerAll(AliasesOf(ing))[..n];
    assert Lower(AliasesOf(ing)[n]) in Elements(mentions) <==> Lower(AliasesOf(ing)[n]) in mentions;
  }

  ghost predicate AliasesTabled(t: HostTable, ing: Routed, n: nat)
    requires n <= |AliasesOf(ing)|
  {
    && Lists(t, OwnMentions(ing) + LowerAll(AliasesOf(ing))[..n])
    && forall h | h in t.byHost :: t.byHost[h] == PathsAt(ing, h)
  }

  lemma AliasStep(t: HostTable, ing: Routed, n: nat)
    requires n < |AliasesOf(ing)| && AliasesTabled(t, ing, n) && OwnMentions(ing) != []
    ensures var alias := Lower(AliasesOf(ing)[n]);
            if alias in t.byHost then AliasesTabled(t, ing, n + 1)
            else AliasesTabled(HostTable(t.ordered + [alias], t.byHost[alias := OwnPaths(ing, OwnMentions(ing)[0])]), ing, n + 1)
  {
    var alias := Lower(AliasesOf(ing)[n]);
    var mentions := OwnMentions(ing) + LowerAll(AliasesOf(ing))[..n];
    assert OwnMentions(ing) + LowerAll(AliasesOf(ing))[..n + 1] == mentions + [alias];
    if alias in t.byHost {
      ListsSnoc(t, mentions, alias, t.byHost[alias]);
      assert t.byHost[alias := t.byHost[alias]] == t.byHost;
    } else {
      ListsSnoc(t, mentions, alias, OwnPaths(ing, OwnMentions(ing)[0]));
      assert alias in OwnMentions(ing) ==> alias in Elements(mentions);
    }
  }

  lemma NoMentions(xs: seq<string>)
    requires Distinct(xs) == []
    ensures xs == []
  {
    if xs != [] {
      FirstIsKept(xs, |xs|);
    }
  }

  lemma {:induction false} FirstMention(xs: seq<string>)
    requires Distinct(xs) != []
    ensures xs != [] && Distinct(xs)[0] == xs[0]
  {
    FirstIsKept(xs, |xs|);
  }

  lemma {:induction false} FirstIsKept(xs: seq<string>, n: nat)
    requires 0 < n <= |xs|
    ensures FirstOccurrences(xs, n) != [] && FirstOccurrences(xs, n)[0] == xs[0]
  {
    if n == 1 {
      assert FirstOccurrences(xs, 0) == [];
    } else {
      FirstIsKept(xs, n - 1);
    }
  }

  /** The hosts of an Ingress with their paths and the declared TLS host each attaches to. */
  ghost function InputsOf(ing: Routed, tlsHosts: set<string>): seq<HostInput> {
    seq(|Hosts(ing)|, i requires 0 <= i < |Hosts(ing)| => InputFor(ing, tlsHosts, Hosts(ing)[i]))
  }

  ghost function InputFor(ing: Routed, tlsHosts: set<string>, host: string): HostInput {
    HostInput(host, PathsAt(ing, host), MatchOf(host, tlsHosts))
  }

  // ---------- The issues raised on the way ----------

  /** Every one but AliasUncovered is an Error. */
  datatype RouteIssue =
    | NoTLSHosts
    | RuleWithoutHTTP(host: string)
    | NothingToRoute
    | AliasWithoutRules
    | AliasUncovered(alias: string)

  /** The Ingress as the listener planner reads it. */
  function PlannedFrom(ing: Routed): Ingress {
    Ingress(ing.ns, ing.name, false, ing.tls,
            seq(|ing.rules|, i requires 0 <= i < |ing.rules| => ing.rules[i].host))
  }

  function PlannedAll(ings: seq<Routed>): seq<Ingress> {
    seq(|ings|, i requires 0 <= i < |ings| => PlannedFrom(ings[i]))
  }

  /** The TLS hosts the first n entries of the Ingress declare. */
  function DeclaredFirst(ing: Routed, n: nat): set<string>
    requires n <= |ing.tls|
  {
    if n == 0 then {} else DeclaredFirst(ing, n - 1) + Elements(EffectiveHosts(PlannedFrom(ing), ing.tls[n - 1]))
  }

  function EntryIssuesFirst(ing: Routed, n: nat): seq<RouteIssue>
    requires n <= |ing.tls|
  {
    if n == 0 then []
    else EntryIssuesFirst(ing, n - 1) + if EffectiveHosts(PlannedFrom(ing), ing.tls[n - 1]) == [] then [NoTLSHosts] else []
  }

  /** Without a managed Gateway the Ingress matches against its own declarations. */
  function TLSHostsFor(ing: Routed, given: Option<set<string>>): set<string> {
    if given.Some? then given.value else DeclaredFirst(ing, |ing.tls|)
  }

  function RuleIssuesFirst(rules: seq<Rule>, n: nat): seq<RouteIssue>
    requires n <= |rules|
  {
    if n == 0 then []
    else RuleIssuesFirst(rules, n - 1) + if rules[n - 1].paths.None? then [RuleWithoutHTTP(rules[n - 1].host)] else []
  }

  /** The n-th alias is a host of its own accord, or repeats an earlier alias. */
  predicate MentionedBefore(ing: Routed, n: nat)
    requires n < |AliasesOf(ing)|
  {
    Lower(AliasesOf(ing)[n]) in OwnMentions(ing) + LowerAll(AliasesOf(ing))[..n]
  }

  ghost function UncoveredFirst(ing: Routed, tlsHosts: set<string>, n: nat): seq<RouteIssue>
    requires n <= |AliasesOf(ing)|
  {
    if n == 0 then []
    else
      var alias := Lower(AliasesOf(ing)[n - 1]);
      UncoveredFirst(ing, tlsHosts, n - 1) +
      if !MentionedBefore(ing, n - 1) && MatchOf(alias, tlsHosts) == "" && |ing.tls| > 0 then [AliasUncovered(alias)] else []
  }

  ghost function AliasIssues(ing: Routed, tlsHosts: set<string>): seq<RouteIssue> {
    if OwnMentions(ing) != [] then UncoveredFirst(ing, tlsHosts, |AliasesOf(ing)|)
    else if AliasesOf(ing) == [] then [] else [AliasWithoutRules]
  }

  ghost function HostIssues(ing: Routed, given: Option<set<string>>): seq<RouteIssue> {
    (if given.Some? then [] else EntryIssuesFirst(ing, |ing.tls|)) +
    RuleIssuesFirst(ing.rules, |ing.rules|) +
    (if OwnMentions(ing) == [] then [NothingToRoute] else []) +
    AliasIssues(ing, TLSHostsFor(ing, given))
  }

  predicate HasError(issues: seq<RouteIssue>) {
    exists i :: 0 <= i < |issues| && !issues[i].AliasUncovered?
  }

  lemma {:induction false} RuleErrors(rules: seq<Rule>, n: nat)
    requires n <= |rules|
    ensures HasError(RuleIssuesFirst(rules, n)) <==> exists i :: 0 <= i < n && rules[i].paths.None?
  {
    if n > 0 {
      RuleErrors(rules, n - 1);
      ErrorJoin(RuleIssuesFirst(rules, n - 1), if rules[n - 1].paths.None? then [RuleWithoutHTTP(rules[n - 1].host)] else []);
    }
  }

  lemma {:induction false} EntryErrors(ing: Routed, n: nat)
    requires n <= |ing.tls|
    ensures HasError(EntryIssuesFirst(ing, n)) <==>
            exists i :: 0 <= i < n && EffectiveHosts(PlannedFrom(ing), ing.tls[i]) == []
  {
    if n > 0 {
      EntryErrors(ing, n - 1);
      ErrorJoin(EntryIssuesFirst(ing, n - 1), if EffectiveHosts(PlannedFrom(ing), ing.tls[n - 1]) == [] then [NoTLSHosts] else []);
    }
  }

  lemma {:induction false} UncoveredWarns(ing: Routed, tlsHosts: set<string>, n: nat)
    requires n <= |AliasesOf(ing)|
    ensures !HasError(UncoveredFirst(ing, tlsHosts, n))
  {
    if n > 0 {
      UncoveredWarns(ing, tlsHosts, n - 1);
    }
  }

  lemma ErrorJoin(a: seq<RouteIssue>, b: seq<RouteIssue>)
    ensures HasError(a + b) <==> HasError(a) || HasError(b)
    ensures b != [] && !b[0].AliasUncovered? ==> HasError(b)
    ensures b == [] ==> !HasError(b)
  {
    if i :| 0 <= i < |a| && !a[i].AliasUncovered? {
      assert (a + b)[i] == a[i];
    }
    if i :| 0 <= i < |b| && !b[i].AliasUncovered? {
      assert (a + b)[|a| + i] == b[i];
    }
  }

  /** Collecting the hosts is fatal exactly for an Ingress with nothing to route, with a rule that has no HTTP
      section, or, left to its own declarations, with a TLS entry that names no host. */
  lemma ErrorsExactly(ing: Routed, given: Option<set<string>>)
    ensures HasError(HostIssues(ing, given)) <==>
            || OwnMentions(ing) == []
            || (exists i :: 0 <= i < |ing.rules| && ing.rules[i].paths.None?)
            || (given.None? && exists i :: 0 <= i < |ing.tls| && EffectiveHosts(PlannedFrom(ing), ing.tls[i]) == [])
  {
    var entries := if given.Some? then [] else EntryIssuesFirst(ing, |ing.tls|);
    var rules := RuleIssuesFirst(ing.rules, |ing.rules|);
    var nothing := if OwnMentions(ing) == [] then [NothingToRoute] else [];
    var aliases := AliasIssues(ing, TLSHostsFor(ing, given));
    RuleErrors(ing.rules, |ing.rules|);
    EntryErrors(ing, |ing.tls|);
    UncoveredWarns(ing, TLSHostsFor(ing, given), |AliasesOf(ing)|);
    ErrorJoin(entries, rules);
    ErrorJoin(entries + rules, nothing);
    ErrorJoin(entries + rules + nothing, aliases);
  }

  method InferTLSHosts(ing: Routed) returns (tlsHosts: set<string>, issues: seq<RouteIssue>)
    ensures tlsHosts == DeclaredFirst(ing, |ing.tls|) && issues == EntryIssuesFirst(ing, |ing.tls|)
  {
    tlsHosts, issues := {}, [];
    var planned := PlannedFrom(ing);
    for i := 0 to |ing.tls|
      invariant tlsHosts == DeclaredFirst(ing, i) && issues == EntryIssuesFirst(ing, i)
    {
      var hosts := EffectiveTLSHosts(planned, ing.tls[i]);
      if |hosts| == 0 {
        issues := issues + [NoTLSHosts];
      }
      tlsHosts := tlsHosts + Elements(hosts);
    }
  }

  method CollectHosts(ing: Routed, given: Option<set<string>>) returns (inputs: seq<HostInput>, issues: seq<RouteIssue>)
    ensures inputs == InputsOf(ing, TLSHostsFor(ing, given)) && issues == HostIssues(ing, given)
  {
    var tlsHosts := {};
    issues := [];
    if given.Some? {
      tlsHosts := given.value;
    } else {
      tlsHosts, issues := InferTLSHosts(ing);
    }
    var rules, ruleIssues := TableRules(ing.rules);
    var own := AddDefaultBackend(ing, rules);
    DistinctMembers(OwnMentions(ing));
    assert own.ordered == [] <==> OwnMentions(ing) == [] by {
      if own.ordered == [] {
        NoMentions(OwnMentions(ing));
      }
    }
    issues := issues + ruleIssues + if |own.ordered| == 0 then [NothingToRoute] else [];
    var t, aliasIssues := AddAliases(ing, own, tlsHosts);
    issues := issues + aliasIssues;
    inputs := MatchHosts(t, ing, tlsHosts);
  }

  method MatchHosts(t: HostTable, ghost ing: Routed, tlsHosts: set<string>) returns (inputs: seq<HostInput>)
    requires Lists(t, Mentions(ing)) && forall h | h in t.byHost :: t.byHost[h] == PathsAt(ing, h)
    ensures inputs == InputsOf(ing, tlsHosts)
  {
    inputs := [];
    ghost var expected := InputsOf(ing, tlsHosts);
    for i := 0 to |t.ordered|
      invariant inputs == expected[..i]
    {
      var host := t.ordered[i];
      assert expected[i] == InputFor(ing, tlsHosts, host);
      OrderedInTable(t, Mentions(ing), i);
      var tlsHostname := MatchingTLSHost(host, tlsHosts);
      inputs := inputs + [HostInput(host, t.byHost[host], tlsHostname)];
    }
  }

  // ---------- The listeners an Ingress attaches to ----------

  /** The raw hosts RouteTLSHostnames looks at: every rule's and every alias. */
  function RawHosts(ing: Routed): seq<string> {
    seq(|ing.rules|, i requires 0 <= i < |ing.rules| => ing.rules[i].host) + AliasesOf(ing)
  }

  ghost function MatchedFirst(raws: seq<string>, n: nat, tlsHosts: set<string>): set<string>
    requires n <= |raws|
  {
    set i | 0 <= i < n && MatchOf(Normalise(raws[i]), tlsHosts) != "" :: MatchOf(Normalise(raws[i]), tlsHosts)
  }

  method RouteTLSHostnames(ing: Routed, tlsHosts: set<string>) returns (result: seq<string>)
    ensures Elements(result) == MatchedFirst(RawHosts(ing), |RawHosts(ing)|, tlsHosts) && NoDuplicates(result)
  {
    var aliases := SplitCSV(ing.serverAlias);
    var raws := seq(|ing.rules|, i requires 0 <= i < |ing.rules| => ing.rules[i].host) + aliases;
    result := [];
    for i := 0 to |raws|
      invariant Elements(result) == MatchedFirst(raws, i, tlsHosts) && NoDuplicates(result)
    {
      var matched := MatchingTLSHost(Normalise(raws[i]), tlsHosts);
      MatchedStep(raws, i, tlsHosts);
      if matched == "" || matched in result {
        continue;
      }
      ElementsSnoc(result, matched);
      result := result + [matched];
    }
  }

  lemma MatchedStep(raws: seq<string>, n: nat, tlsHosts: set<string>)
    requires n < |raws|
    ensures var m := MatchOf(Normalise(raws[n]), tlsHosts);
            MatchedFirst(raws, n + 1, tlsHosts) == MatchedFirst(raws, n, tlsHosts) + if m == "" then {} else {m}
  {
  }

  ghost function Attached(ing: Routed, tlsHosts: set<string>): set<string> {
    MatchedFirst(RawHosts(ing), |RawHosts(ing)|, tlsHosts)
  }

  lemma {:induction false} RuleHostIsRaw(rules: seq<Rule>, n: nat, host: string)
    requires n <= |rules| && host in RuleHosts(rules, n)
    ensures exists i :: 0 <= i < n && Normalise(rules[i].host) == host
  {
    if rules[n - 1].paths.Some? && HostOf(rules[n - 1]) == host {
    } else {
      RuleHostIsRaw(rules, n - 1, host);
    }
  }

  lemma HostIsRaw(ing: Routed, host: string)
    requires host in Mentions(ing) && host != ""
    ensures exists i :: 0 <= i < |RawHosts(ing)| && Normalise(RawHosts(ing)[i]) == host
  {
    if host in RuleHosts(ing.rules, |ing.rules|) {
      RuleHostIsRaw(ing.rules, |ing.rules|, host);
      var i :| 0 <= i < |ing.rules| && Normalise(ing.rules[i].host) == host;
      assert RawHosts(ing)[i] == ing.rules[i].host;
    } else {
      AliasesTrimmed(ing);
      assert host in LowerAll(AliasesOf(ing));
      var j :| 0 <= j < |AliasesOf(ing)| && Lower(AliasesOf(ing)[j]) == host;
      assert RawHosts(ing)[|ing.rules| + j] == AliasesOf(ing)[j];
    }
  }

  /** Every declared host a route of the Ingress attaches to is among its TLS hostnames. */
  lemma AttachedCoversInputs(ing: Routed, tlsHosts: set<string>, i: nat)
    requires i < |InputsOf(ing, tlsHosts)|
    ensures var matched := InputsOf(ing, tlsHosts)[i].tlsHostname; matched != "" ==> matched in Attached(ing, tlsHosts)
  {
    var host := Hosts(ing)[i];
    DistinctMembers(Mentions(ing));
    assert host in Hosts(ing);
    if MatchOf(host, tlsHosts) != "" {
      HostIsRaw(ing, host);
    }
  }

  // ---------- Who is pushed after a replan ----------

  ghost predicate Affected(ing: Routed, tlsHosts: set<string>, changed: set<string>) {
    Attached(ing, tlsHosts) * changed != {}
  }

  /** The names hit among the first n, in order. */
  function Selected(names: seq<NamespacedName>, hits: seq<bool>, n: nat): seq<NamespacedName>
    requires n <= |names| == |hits|
  {
    if n == 0 then [] else Selected(names, hits, n - 1) + if hits[n - 1] then [names[n - 1]] else []
  }

  function FirstOf<T>(xs: seq<T>, n: nat): seq<T> {
    xs[..Min(n, |xs|)]
  }

  lemma FirstOfSnoc<T>(xs: seq<T>, x: T, n: nat)
    ensures FirstOf(xs + [x], n) == if |FirstOf(xs, n)| < n then FirstOf(xs, n) + [x] else FirstOf(xs, n)
  {
  }

  /** The queue once as many of the names as there is room for have joined it. */
  function Queued(queue: seq<NamespacedName>, names: seq<NamespacedName>, capacity: nat): (r: seq<NamespacedName>)
    requires |queue| <= capacity
    ensures |r| <= capacity && (names == [] ==> r == queue)
  {
    queue + FirstOf(names, capacity - |queue|)
  }

  /** A name that is hit joins the queue if there is room. */
  predicate Pushed(name: NamespacedName, hit: bool, capacity: nat, before: seq<NamespacedName>, after: seq<NamespacedName>) {
    after == before + if hit && |before| < capacity then [name] else []
  }

  /** The queue after each of the names. */
  lemma QueueHistory(queue: seq<NamespacedName>, names: seq<NamespacedName>, hits: seq<bool>, capacity: nat)
    returns (history: seq<seq<NamespacedName>>)
    requires |queue| <= capacity && |names| == |hits|
    ensures |history| == |names| + 1 && history[0] == queue
    ensures history[|names|] == queue + FirstOf(Selected(names, hits, |names|), capacity - |queue|)
    ensures forall i | 0 <= i < |names| :: Pushed(names[i], hits[i], capacity, history[i], history[i + 1])
  {
    var room := capacity - |queue|;
    history := seq(|names| + 1, i requires 0 <= i <= |names| => queue + FirstOf(Selected(names, hits, i), room));
    forall i | 0 <= i < |names| ensures Pushed(names[i], hits[i], capacity, history[i], history[i + 1]) {
      FirstOfSnoc(Selected(names, hits, i), names[i], room);
    }
  }

  lemma {:induction false} HitIsSelected(names: seq<NamespacedName>, hits: seq<bool>, n: nat, i: nat)
    requires i < n <= |names| == |hits| && hits[i]
    ensures names[i] in Selected(names, hits, n)
  {
    if i < n - 1 {
      HitIsSelected(names, hits, n - 1, i);
    }
  }

  function RequestsFor(ings: seq<Routed>): seq<NamespacedName> {
    seq(|ings|, i requires 0 <= i < |ings| => NamespacedName(ings[i].ns, ings[i].name))
  }

  ghost function Hits(ings: seq<Routed>, tlsHosts: set<string>, changed: set<string>): seq<bool> {
    seq(|ings|, i requires 0 <= i < |ings| => Affected(ings[i], tlsHosts, changed))
  }

  /** The affected Ingresses, in order. */
  ghost function AffectedOf(ings: seq<Routed>, tlsHosts: set<string>, changed: set<string>): seq<NamespacedName> {
    Selected(RequestsFor(ings), Hits(ings, tlsHosts, changed), |ings|)
  }

  /** The channel high-priority pushes go through; sending to a full channel drops. */
  class AffectedIngresses {
    const capacity: nat
    var queue: seq<NamespacedName>

    constructor (capacity: nat)
      ensures this.capacity == capacity && queue == []
    {
      this.capacity := capacity;
      queue := [];
    }

    method Enqueue(ings: seq<Routed>, tlsHosts: set<string>, changed: set<string>)
      requires |queue| <= capacity
      modifies this
      ensures queue == Queued(old(queue), AffectedOf(ings, tlsHosts, changed), capacity)
    {
      if changed == {} {
        NobodyAffected(ings, tlsHosts);
        return;
      }
      ghost var history := QueueHistory(queue, RequestsFor(ings), Hits(ings, tlsHosts, changed), capacity);
      for i := 0 to |ings|
        invariant queue == history[i] && |queue| <= capacity
      {
        Push(ings[i], tlsHosts, changed);
        assert Pushed(RequestsFor(ings)[i], Hits(ings, tlsHosts, changed)[i], capacity, history[i], history[i + 1]);
      }
    }

    method Push(ing: Routed, tlsHosts: set<string>, changed: set<string>)
      requires |queue| <= capacity
      modifies this
      ensures Pushed(NamespacedName(ing.ns, ing.name), Affected(ing, tlsHosts, changed), capacity, old(queue), queue)
      ensures |queue| <= capacity
    {
      var attached := RouteTLSHostnames(ing, tlsHosts);
      var affected := AnyIn(attached, changed);
      if affected && |queue| < capacity {
        queue := queue + [NamespacedName(ing.ns, ing.name)];
      }
    }
  }

  method AnyIn(xs: seq<string>, s: set<string>) returns (found: bool)
    ensures found <==> Elements(xs) * s != {}
  {
    for i := 0 to |xs|
      invariant forall j | 0 <= j < i :: xs[j] !in s
    {
      if xs[i] in s {
        assert xs[i] in Elements(xs) * s;
        return true;
      }
    }
    found := false;
  }

  lemma {:induction false} NoneSelected(names: seq<NamespacedName>, hits: seq<bool>, n: nat)
    requires n <= |names| == |hits| && forall i | 0 <= i < n :: !hits[i]
    ensures Selected(names, hits, n) == []
  {
    if n > 0 {
      NoneSelected(names, hits, n - 1);
    }
  }

  lemma NobodyAffected(ings: seq<Routed>, tlsHosts: set<string>)
    ensures AffectedOf(ings, tlsHosts, {}) == []
  {
    NoneSelected(RequestsFor(ings), Hits(ings, tlsHosts, {}), |ings|);
  }

  lemma AttachedIsPushed(routed: seq<Routed>, i: nat, k: nat, tlsHosts: set<string>, changed: set<string>, host: string,
                         room: nat)
    requires i < |routed| && AttachedAt(routed[i], tlsHosts, k, host) && host in changed
    requires |AffectedOf(routed, tlsHosts, changed)| <= room
    ensures NamespacedName(routed[i].ns, routed[i].name) in FirstOf(AffectedOf(routed, tlsHosts, changed), room)
  {
    AttachedCoversInputs(routed[i], tlsHosts, k);
    assert host in Attached(routed[i], tlsHosts) * changed;
    HitIsSelected(RequestsFor(routed), Hits(routed, tlsHosts, changed), |routed|, i);
  }

  /** The k-th host of the Ingress is matched to the declared host. */
  ghost predicate AttachedAt(ing: Routed, tlsHosts: set<string>, k: nat, host: string) {
    host != "" && k < |InputsOf(ing, tlsHosts)| && InputsOf(ing, tlsHosts)[k].tlsHostname == host
  }

  /** Two successive plans in which the listener of the declared host moved. */
  ghost predicate ListenerMoved(before: seq<Ingress>, after: seq<Ingress>, o0: Options, o1: Options, host: string)
    requires PlainIngresses(before) && PlainIngresses(after)
  {
    && o1 == o0.(current := o1.current, certificates := o1.certificates)
    && host in BuildPlan(before, o0).tlsSections && host in BuildPlan(after, o1).tlsSections
    && BuildPlan(before, o0).tlsSections[host] != BuildPlan(after, o1).tlsSections[host]
  }

  lemma MovedIsChanged(before: seq<Ingress>, after: seq<Ingress>, o0: Options, o1: Options, host: string)
    requires PlainIngresses(before) && PlainIngresses(after)
    requires ListenerMoved(before, after, o0, o1, host)
    ensures host in ChangedOf(BuildPlan(before, o0).placements, BuildPlan(after, o1), o1)
  {
    ChangedExactly(before, after, o0, o1, host);
  }

  /** When the listener of a declared host moves between two plans, every Ingress with a route attached to
      it is pushed, as long as the channel has room. */
  lemma MovedIsPushed(before: seq<Ingress>, after: seq<Ingress>, o0: Options, o1: Options, host: string, tlsHosts: set<string>,
                      changed: set<string>, routed: seq<Routed>, i: nat, k: nat, room: nat)
    requires PlainIngresses(before) && PlainIngresses(after) && ListenerMoved(before, after, o0, o1, host)
    requires tlsHosts == BuildPlan(after, o1).tlsHosts
    requires changed == ChangedOf(BuildPlan(before, o0).placements, BuildPlan(after, o1), o1)
    requires i < |routed| && AttachedAt(routed[i], tlsHosts, k, host)
    requires |AffectedOf(routed, tlsHosts, changed)| <= room
    ensures NamespacedName(routed[i].ns, routed[i].name) in FirstOf(AffectedOf(routed, tlsHosts, changed), room)
  {
    MovedIsChanged(before, after, o0, o1, host);
    AttachedIsPushed(routed, i, k, tlsHosts, changed, host, room);
  }

  // ---------- Paths, matches and warnings, of the rules themselves ----------

  /** A rule of the Ingress gives the host the path, or its default backend does. */
  predicate GivesPath(ing: Routed, i: int, host: string, p: PathRule) {
    && 0 <= i < |ing.rules| && ing.rules[i].paths.Some? && Normalise(ing.rules[i].host) == host
    && p in ing.rules[i].paths.value
  }

  lemma {:induction false} RulePathMembers(rules: seq<Rule>, n: nat, host: string, p: PathRule)
    requires n <= |rules|
    ensures p in RulePaths(rules, n, host) <==>
            exists i :: 0 <= i < n && rules[i].paths.Some? && Normalise(rules[i].host) == host && p in rules[i].paths.value
  {
    if n > 0 {
      RulePathMembers(rules, n - 1, host, p);
    }
  }

  /** The paths of a host with rules are those its rules give it, and "/" of the default backend. */
  lemma OwnPathsExactly(ing: Routed, host: string, p: PathRule)
    ensures p in OwnPaths(ing, host) <==>
            || (exists i :: GivesPath(ing, i, host, p))
            || (host == "" && ing.defaultBackend.Some? && p == PathRule("/", Prefix, ing.defaultBackend.value))
  {
    RulePathMembers(ing.rules, |ing.rules|, host, p);
    if i :| 0 <= i < |ing.rules| && ing.rules[i].paths.Some? && Normalise(ing.rules[i].host) == host && p in ing.rules[i].paths.value {
      assert GivesPath(ing, i, host, p);
    }
  }

  lemma {:induction false} RulePathsGrow(rules: seq<Rule>, m: nat, n: nat, host: string)
    requires m <= n <= |rules|
    ensures RulePaths(rules, m, host) <= RulePaths(rules, n, host)
  {
    if m < n {
      RulePathsGrow(rules, m, n - 1, host);
    }
  }

  /** The paths of a rule come after those of the rules before it for the host, in their own order. */
  lemma PathsInOrder(ing: Routed, i: nat, b: nat, host: string)
    requires i < |ing.rules| && ing.rules[i].paths.Some? && Normalise(ing.rules[i].host) == host
    requires b < |ing.rules[i].paths.value|
    ensures var a := |RulePaths(ing.rules, i, host)| + b;
            a < |OwnPaths(ing, host)| && OwnPaths(ing, host)[a] == ing.rules[i].paths.value[b]
  {
    RulePathsGrow(ing.rules, i + 1, |ing.rules|, host);
    assert RulePaths(ing.rules, i + 1, host) == RulePaths(ing.rules, i, host) + ing.rules[i].paths.value;
  }

  lemma {:induction false} RuleHostMembers(rules: seq<Rule>, n: nat, host: string)
    requires n <= |rules|
    ensures host in RuleHosts(rules, n) <==> exists i :: 0 <= i < n && rules[i].paths.Some? && Normalise(rules[i].host) == host
  {
    if n > 0 {
      RuleHostMembers(rules, n - 1, host);
    }
  }

  /** Routed are the hosts of rules with an HTTP section, "" for the default backend and, if there is either,
      the aliases; an alias without rules has the paths of the first of them. */
  lemma RoutedExactly(ing: Routed, host: string)
    ensures var own := (exists i :: 0 <= i < |ing.rules| && ing.rules[i].paths.Some? && Normalise(ing.rules[i].host) == host) ||
                       (host == "" && ing.defaultBackend.Some?);
            && (host in Hosts(ing) <==> own || (Hosts(ing) != [] && host in LowerAll(AliasesOf(ing))))
            && (own ==> PathsAt(ing, host) == OwnPaths(ing, host))
            && (!own && host in Hosts(ing) ==> PathsAt(ing, host) == OwnPaths(ing, Hosts(ing)[0]))
  {
    RuleHostMembers(ing.rules, |ing.rules|, host);
    DistinctMembers(Mentions(ing));
    if OwnMentions(ing) != [] {
      FirstIsKept(Mentions(ing), |Mentions(ing)|);
    }
  }

  /** The wildcard is *.rest and the host something.rest. */
  lemma UnderWildcardExactly(candidate: string, host: string)
    ensures UnderWildcard(candidate, host) <==>
            exists front, rest :: front != "" && candidate == "*." + rest && host == front + "." + rest
  {
    if UnderWildcard(candidate, host) {
      var suffix := candidate[1..];
      var front, rest := host[..|host| - |suffix|], candidate[2..];
      assert suffix == "." + rest && candidate == "*." + rest;
      assert host == front + suffix;
      assert host == front + "." + rest;
    }
    if front: string, rest: string :| front != "" && candidate == "*." + rest && host == front + "." + rest {
      assert candidate[1..] == "." + rest;
      assert host == front + ("." + rest);
      assert host[|front|..] == "." + rest;
    }
  }

  /** A host is matched to itself if it is declared, else to a longest declared wildcard above it, else to none. */
  lemma MatchedExactly(host: string, tlsHosts: set<string>)
    requires host != ""
    ensures var m := MatchOf(host, tlsHosts);
            && (host in tlsHosts ==> m == host)
            && (host !in tlsHosts && m != "" ==> m in tlsHosts && UnderWildcard(m, host))
            && (host !in tlsHosts ==> forall c | c in tlsHosts && UnderWildcard(c, host) :: m != "" && |c| <= |m|)
    ensures MatchOf("", tlsHosts) == ""
  {
  }

  lemma UncoveredNext(ing: Routed, tlsHosts: set<string>, n: nat, alias: string, own: string)
    requires 0 < n <= |AliasesOf(ing)| && own == Lower(AliasesOf(ing)[n - 1])
    ensures AliasUncovered(alias) in UncoveredFirst(ing, tlsHosts, n) <==>
            || AliasUncovered(alias) in UncoveredFirst(ing, tlsHosts, n - 1)
            || (alias == own && !MentionedBefore(ing, n - 1) && MatchOf(own, tlsHosts) == "" && |ing.tls| > 0)
  {
  }

  lemma AliasesNext(ing: Routed, n: nat)
    requires 0 < n <= |AliasesOf(ing)|
    ensures LowerAll(AliasesOf(ing))[..n] == LowerAll(AliasesOf(ing))[..n - 1] + [Lower(AliasesOf(ing)[n - 1])]
  {
  }

  lemma {:induction false} UncoveredMembers(ing: Routed, tlsHosts: set<string>, n: nat, alias: string)
    requires n <= |AliasesOf(ing)|
    ensures AliasUncovered(alias) in UncoveredFirst(ing, tlsHosts, n) <==>
            && |ing.tls| > 0 && MatchOf(alias, tlsHosts) == "" && alias !in OwnMentions(ing)
            && alias in LowerAll(AliasesOf(ing))[..n]
  {
    if n > 0 {
      UncoveredMembers(ing, tlsHosts, n - 1, alias);
      UncoveredNext(ing, tlsHosts, n, alias, Lower(AliasesOf(ing)[n - 1]));
      AliasesNext(ing, n);
    }
  }

  /** An Ingress with TLS is warned of exactly the aliases that are no host of its rules and that no declared TLS
      host covers. */
  lemma WarnedExactly(ing: Routed, given: Option<set<string>>, alias: string)
    requires OwnMentions(ing) != []
    ensures AliasUncovered(alias) in HostIssues(ing, given) <==>
            && |ing.tls| > 0 && MatchOf(alias, TLSHostsFor(ing, given)) == ""
            && alias !in OwnMentions(ing) && alias in LowerAll(AliasesOf(ing))
  {
    var aliases := LowerAll(AliasesOf(ing));
    UncoveredMembers(ing, TLSHostsFor(ing, given), |AliasesOf(ing)|, alias);
    assert aliases[..|AliasesOf(ing)|] == aliases;
    EntriesDoNotWarn(ing, |ing.tls|, alias);
    RulesDoNotWarn(ing.rules, |ing.rules|, alias);
  }

  lemma {:induction false} EntriesDoNotWarn(ing: Routed, n: nat, alias: string)
    requires n <= |ing.tls|
    ensures AliasUncovered(alias) !in EntryIssuesFirst(ing, n)
  {
    if n > 0 {
      EntriesDoNotWarn(ing, n - 1, alias);
    }
  }

  lemma {:induction false} RulesDoNotWarn(rules: seq<Rule>, n: nat, alias: string)
    requires n <= |rules|
    ensures AliasUncovered(alias) !in RuleIssuesFirst(rules, n)
  {
    if n > 0 {
      RulesDoNotWarn(rules, n - 1, alias);
    }
  }

  lemma {:induction false} DeclaredMembers(ing: Routed, n: nat, host: string)
    requires n <= |ing.tls|
    ensures host in DeclaredFirst(ing, n) <==> exists k :: 0 <= k < n && host in EffectiveHosts(PlannedFrom(ing), ing.tls[k])
  {
    if n > 0 {
      DeclaredMembers(ing, n - 1, host);
      assert host in Elements(EffectiveHosts(PlannedFrom(ing), ing.tls[n - 1])) <==>
             host in EffectiveHosts(PlannedFrom(ing), ing.tls[n - 1]);
    }
  }

  /** The hosts of an Ingress are matched against the TLS hosts given, and without any against those its own TLS
      entries apply to. */
  lemma MatchedAgainst(ing: Routed, given: Option<set<string>>, host: string)
    ensures host in TLSHostsFor(ing, given) <==>
            if given.Some? then host in given.value
            else exists k :: 0 <= k < |ing.tls| && host in EffectiveHosts(PlannedFrom(ing), ing.tls[k])
  {
    DeclaredMembers(ing, |ing.tls|, host);
  }
}
