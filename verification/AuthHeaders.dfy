// The headers an external-auth location sends: fixed defaults, overridden and extended
// from a ConfigMap whose names are compared without regard to case.
module AuthHeaders {
  import opened Text
  import opened Sorting

  datatype Header = Header(name: string, value: string)

  datatype Merge = Rejected | Merged(headers: seq<Header>)

  /** The value nginx takes for an absent header. */
  const EMPTY_VALUE := "\"\""

  function Defaults(redirect: string): seq<Header> {
    [Header("Content-Length", EMPTY_VALUE), Header("Proxy", EMPTY_VALUE), Header("X-Request-ID", "$request_id"),
     Header("X-Original-URI", "$request_uri"), Header("X-Original-URL", "$scheme://$http_host$request_uri"),
     Header("X-Original-Method", "$request_method"), Header("X-Sent-From", "\"nginx-ingress-controller\""),
     Header("X-Real-IP", "$remote_addr"), Header("X-Forwarded-For", "$proxy_add_x_forwarded_for"),
     Header("X-Forwarded-Host", "$http_host"), Header("X-Forwarded-Port", "$server_port"),
     Header("X-Forwarded-Proto", "$scheme"), Header("X-Forwarded-Scheme", "$scheme"), Header("X-Scheme", "$scheme"),
     Header("Host", "$http_host"), Header("X-Auth-Request-Redirect", redirect)]
  }

  // ---------- What is accepted ----------

  function UnsafeInName(): set<char> {
    {' ', '\t', '\r', '\n', ':'}
  }

  function UnsafeInValue(): set<char> {
    {'\r', '\n', ';', '{', '}'}
  }

  predicate SafeHeader(name: string, value: string) {
    name != "" && (forall c | c in name :: c !in UnsafeInName()) && (forall c | c in value :: c !in UnsafeInValue())
  }

  function Given(value: string): string {
    if TrimSpace(value) == "" then EMPTY_VALUE else value
  }

  ghost predicate Acceptable(given: map<string, string>) {
    && (forall n | n in given :: SafeHeader(n, given[n]))
    && (forall a, b | a in given && b in given && Lower(a) == Lower(b) :: a == b)
  }

  // ---------- Signatures of the default names ----------

  /** Length and last two letters tell the default names apart. */
  function Signature(s: string): (int, int, int)
    requires |s| >= 2
  {
    (|s|, s[|s| - 1] as int, s[|s| - 2] as int)
  }

  function LowerSignature(s: string): (int, int, int)
    requires |s| >= 2
  {
    (|s|, LowerChar(s[|s| - 1]) as int, LowerChar(s[|s| - 2]) as int)
  }

  lemma SignatureOfLower(s: string)
    requires |s| >= 2
    ensures Signature(Lower(s)) == LowerSignature(s)
  {
  }

  const SIGNATURES: seq<(int, int, int)> :=
    [(14, 104, 116), (5, 121, 120), (12, 100, 105), (14, 105, 114), (14, 108, 114), (17, 100, 111), (11, 109, 111),
     (9, 112, 105), (15, 114, 111), (16, 116, 115), (16, 116, 114), (17, 111, 116), (18, 101, 109), (8, 101, 109),
     (4, 116, 115), (23, 116, 99)]

  lemma DefaultSignature(redirect: string, i: nat)
    requires i < 16
    ensures |Defaults(redirect)| == 16 && |Defaults(redirect)[i].name| >= 2
    ensures LowerSignature(Defaults(redirect)[i].name) == SIGNATURES[i]
  {
  }

  lemma SignaturesDiffer(i: nat, j: nat)
    requires i < j < 16
    ensures SIGNATURES[i] != SIGNATURES[j]
  {
  }

  /** No two defaults share a name, whatever the case. */
  lemma DefaultsDistinct(redirect: string)
    ensures var ds := Defaults(redirect);
            |ds| == 16 && forall i, j :: 0 <= i < j < 16 ==> Lower(ds[i].name) != Lower(ds[j].name)
  {
    var ds := Defaults(redirect);
    forall i, j | 0 <= i < j < 16 ensures Lower(ds[i].name) != Lower(ds[j].name) {
      DefaultSignature(redirect, i);
      DefaultSignature(redirect, j);
      SignatureOfLower(ds[i].name);
      SignatureOfLower(ds[j].name);
      SignaturesDiffer(i, j);
    }
  }

  // ---------- The lines ----------

  /** An override under its lower-case name. */
  ghost predicate Overrides(given: map<string, string>, key: string, h: Header) {
    h.name in given && Lower(h.name) == key && h.value == Given(given[h.name])
  }

  ghost function OverrideMap(given: map<string, string>): map<string, Header>
    requires Acceptable(given)
  {
    map n | n in given :: Lower(n) := Header(n, Given(given[n]))
  }

  lemma OverrideMapIs(given: map<string, string>, key: string)
    requires Acceptable(given)
    ensures key in OverrideMap(given) <==> exists n :: n in given && Lower(n) == key
    ensures key in OverrideMap(given) ==> Overrides(given, key, OverrideMap(given)[key])
  {
  }

  /** A default line: its own name, with the override's value if there is one. */
  function Applied(overrides: map<string, Header>, d: Header): Header {
    if Lower(d.name) in overrides then Header(d.name, overrides[Lower(d.name)].value) else d
  }

  function AppliedAll(overrides: map<string, Header>, ds: seq<Header>): seq<Header> {
    seq(|ds|, i requires 0 <= i < |ds| => Applied(overrides, ds[i]))
  }

  ghost function KeysOf(ds: seq<Header>, n: nat): set<string>
    requires n <= |ds|
  {
    set i | 0 <= i < n :: Lower(ds[i].name)
  }

  ghost function Extra(overrides: map<string, Header>, ds: seq<Header>): set<Header> {
    set k | k in overrides && k !in KeysOf(ds, |ds|) :: overrides[k]
  }

  function NameKey(h: Header): Key {
    (h.name, "")
  }

  ghost predicate Filed(overrides: map<string, Header>) {
    forall k | k in overrides :: Lower(overrides[k].name) == k
  }

  lemma ExtraDistinct(overrides: map<string, Header>, ds: seq<Header>)
    requires Filed(overrides)
    ensures DistinctKeys(NameKey, Extra(overrides, ds))
  {
  }

  /** The lines in the order they are written: the defaults, then the other overrides by name. */
  ghost function Lines(given: map<string, string>, redirect: string): seq<Header>
    requires Acceptable(given)
  {
    var overrides := OverrideMap(given);
    ExtraDistinct(overrides, Defaults(redirect));
    AppliedAll(overrides, Defaults(redirect)) + Sorted(NameKey, Extra(overrides, Defaults(redirect)))
  }

  // ---------- The merge ----------

  /** The map the first n names, in order, leave. */
  ghost predicate ReadSoFar(given: map<string, string>, names: seq<string>, n: nat, overrides: map<string, Header>)
    requires n <= |names|
  {
    && (forall k | k in overrides :: Overrides(given, k, overrides[k]) && overrides[k].name in names[..n])
    && (forall j | 0 <= j < n :: names[j] in given && SafeHeader(names[j], given[names[j]])
                                && Lower(names[j]) in overrides && overrides[Lower(names[j])].name == names[j])
  }

  method ReadOverrides(given: map<string, string>) returns (accepted: bool, overrides: map<string, Header>)
    ensures accepted <==> Acceptable(given)
    ensures accepted ==> overrides == OverrideMap(given)
  {
    var names := SortStringSet(given.Keys);
    overrides := map[];
    for i := 0 to |names|
      invariant ReadSoFar(given, names, i, overrides)
    {
      var name := names[i];
      var value := given[name];
      if !SafeHeader(name, value) {
        return false, overrides;
      }
      if Lower(name) in overrides {
        Clash(given, names, i, overrides);
        return false, overrides;
      }
      ReadStep(given, names, i, overrides);
      overrides := overrides[Lower(name) := Header(name, Given(value))];
    }
    accepted := true;
    AllRead(given, names, overrides);
  }

  lemma ReadStep(given: map<string, string>, names: seq<string>, n: nat, overrides: map<string, Header>)
    requires n < |names| && ReadSoFar(given, names, n, overrides) && names[n] in given
    requires SafeHeader(names[n], given[names[n]]) && Lower(names[n]) !in overrides
    ensures ReadSoFar(given, names, n + 1, overrides[Lower(names[n]) := Header(names[n], Given(given[names[n]]))])
  {
    assert names[..n + 1] == names[..n] + [names[n]];
  }

  /** Two of the names differ only in case. */
  lemma Clash(given: map<string, string>, names: seq<string>, n: nat, overrides: map<string, Header>)
    requires n < |names| && ReadSoFar(given, names, n, overrides) && names[n] in given && NoDuplicates(names)
    requires Lower(names[n]) in overrides
    ensures !Acceptable(given)
  {
    var j :| 0 <= j < n && names[j] == overrides[Lower(names[n])].name;
    assert names[j] != names[n] && Lower(names[j]) == Lower(names[n]);
  }

  lemma AllRead(given: map<string, string>, names: seq<string>, overrides: map<string, Header>)
    requires ReadSoFar(given, names, |names|, overrides) && forall n :: n in names <==> n in given
    ensures Acceptable(given) && overrides == OverrideMap(given)
  {
    forall n | n in given
      ensures SafeHeader(n, given[n]) && Lower(n) in overrides && overrides[Lower(n)] == Header(n, Given(given[n]))
    {
      var j :| 0 <= j < |names| && names[j] == n;
    }
    forall k ensures k in overrides <==> k in OverrideMap(given) {
      OverrideMapIs(given, k);
    }
    forall k | k in overrides ensures overrides[k] == OverrideMap(given)[k] {
      OverrideMapIs(given, k);
    }
  }

  /** Write one default header; an override for it is used up. */
  method WriteHeader(d: Header, overrides: map<string, Header>) returns (line: Header, left: map<string, Header>)
    ensures line == Applied(overrides, d) && left == overrides - {Lower(d.name)}
  {
    line, left := d, overrides;
    if Lower(d.name) in overrides {
      line := Header(d.name, overrides[Lower(d.name)].value);
      left := overrides - {Lower(d.name)};
    }
  }

  method MergeHeaders(given: map<string, string>, redirect: string) returns (merge: Merge)
    ensures merge == Rejected <==> !Acceptable(given)
    ensures merge.Merged? ==> merge.headers == Lines(given, redirect)
  {
    var accepted, overrides := ReadOverrides(given);
    if !accepted {
      return Rejected;
    }
    var ds := Defaults(redirect);
    DefaultsDistinct(redirect);
    var lines, left := WriteDefaults(ds, overrides);
    ExtraDistinct(overrides, ds);
    var rest := SortSet(NameKey, left.Values);
    merge := Merged(lines + rest);
  }

  method WriteDefaults(ds: seq<Header>, overrides: map<string, Header>) returns (lines: seq<Header>, left: map<string, Header>)
    requires forall i, j :: 0 <= i < j < |ds| ==> Lower(ds[i].name) != Lower(ds[j].name)
    ensures lines == AppliedAll(overrides, ds) && left.Values == Extra(overrides, ds)
  {
    left, lines := overrides, [];
    for i := 0 to |ds|
      invariant lines == AppliedAll(overrides, ds[..i]) && left == overrides - KeysOf(ds, i)
    {
      StillThere(overrides, ds, i);
      var line;
      line, left := WriteHeader(ds[i], left);
      lines := lines + [line];
      assert KeysOf(ds, i + 1) == KeysOf(ds, i) + {Lower(ds[i].name)};
    }
    assert ds[..|ds|] == ds;
    LeftOver(overrides, ds, left);
  }

  lemma LeftOver(overrides: map<string, Header>, ds: seq<Header>, left: map<string, Header>)
    requires left == overrides - KeysOf(ds, |ds|)
    ensures left.Values == Extra(overrides, ds)
  {
    forall k | k in left ensures left[k] in Extra(overrides, ds) {}
    forall h | h in Extra(overrides, ds) ensures h in left.Values {
      var k :| k in overrides && k !in KeysOf(ds, |ds|) && overrides[k] == h;
      assert k in left.Keys && left[k] == h;
    }
  }

  lemma StillThere(overrides: map<string, Header>, ds: seq<Header>, n: nat)
    requires n < |ds| && forall i, j :: 0 <= i < j < |ds| ==> Lower(ds[i].name) != Lower(ds[j].name)
    ensures Applied(overrides - KeysOf(ds, n), ds[n]) == Applied(overrides, ds[n])
  {
  }

  // ---------- Exactly once ----------

  lemma LinesShape(given: map<string, string>, redirect: string, h: Header)
    requires Acceptable(given)
    ensures var o, ds := OverrideMap(given), Defaults(redirect);
            h in Lines(given, redirect) <==>
            (exists i :: 0 <= i < |ds| && h == Applied(o, ds[i])) || h in Extra(o, ds)
  {
    var o, ds := OverrideMap(given), Defaults(redirect);
    var extra := Sorted(NameKey, Extra(o, ds));
    assert h in extra <==> h in Elements(extra);
    assert forall i :: 0 <= i < |ds| ==> AppliedAll(o, ds)[i] == Applied(o, ds[i]);
  }

  lemma ExtraIsNoDefault(overrides: map<string, Header>, ds: seq<Header>, i: nat, h: Header)
    requires Filed(overrides) && i < |ds| && h in Extra(overrides, ds)
    ensures Lower(ds[i].name) != Lower(h.name)
  {
    assert Lower(ds[i].name) in KeysOf(ds, |ds|);
  }

  lemma ExtraNamesDiffer(overrides: map<string, Header>, ds: seq<Header>, extra: seq<Header>, i: nat, j: nat)
    requires Filed(overrides) && DistinctKeys(NameKey, Extra(overrides, ds))
    requires Ascending(NameKey, extra) && Elements(extra) == Extra(overrides, ds) && i < j < |extra|
    ensures Lower(extra[i].name) != Lower(extra[j].name)
  {
    AscendingNoDuplicates(NameKey, extra);
    assert extra[i] in Elements(extra) && extra[j] in Elements(extra);
  }

  /** No header is sent twice, whatever the case of its name. */
  lemma NamesDistinct(given: map<string, string>, redirect: string, i: nat, j: nat)
    requires Acceptable(given) && i < j < |Lines(given, redirect)|
    ensures Lower(Lines(given, redirect)[i].name) != Lower(Lines(given, redirect)[j].name)
  {
    var o, ds := OverrideMap(given), Defaults(redirect);
    var lines, extra := Lines(given, redirect), Sorted(NameKey, Extra(o, ds));
    DefaultsDistinct(redirect);
    if i >= |ds| {
      ExtraNamesDiffer(o, ds, extra, i - |ds|, j - |ds|);
    } else if j >= |ds| {
      assert extra[j - |ds|] in Elements(extra);
      ExtraIsNoDefault(o, ds, i, extra[j - |ds|]);
    }
  }

  lemma SentIsWanted(given: map<string, string>, redirect: string, h: Header)
    requires Acceptable(given) && h in Lines(given, redirect)
    ensures || (exists n :: n in given && Lower(n) == Lower(h.name) && Given(given[n]) == h.value)
            || ((forall n | n in given :: Lower(n) != Lower(h.name)) && h in Defaults(redirect))
  {
    OverrideMapIs(given, Lower(h.name));
    LinesShape(given, redirect, h);
  }

  lemma GivenIsSent(given: map<string, string>, redirect: string, n: string)
    requires Acceptable(given) && n in given
    ensures exists h :: h in Lines(given, redirect) && Lower(h.name) == Lower(n) && h.value == Given(given[n])
  {
    var o, ds, key := OverrideMap(given), Defaults(redirect), Lower(n);
    assert o[key] == Header(n, Given(given[n]));
    if key in KeysOf(ds, |ds|) {
      var i :| 0 <= i < |ds| && Lower(ds[i].name) == key;
      LinesShape(given, redirect, Applied(o, ds[i]));
    } else {
      LinesShape(given, redirect, o[key]);
    }
  }

  lemma DefaultIsSent(given: map<string, string>, redirect: string, d: Header)
    requires Acceptable(given) && d in Defaults(redirect) && forall n | n in given :: Lower(n) != Lower(d.name)
    ensures d in Lines(given, redirect)
  {
    var ds := Defaults(redirect);
    var i :| 0 <= i < |ds| && ds[i] == d;
    OverrideMapIs(given, Lower(d.name));
    assert Applied(OverrideMap(given), ds[i]) == d;
    LinesShape(given, redirect, d);
  }

  /** Every given header is sent, with its value; every default that is not overridden keeps its own; and
      nothing else is sent. */
  lemma SentExactly(given: map<string, string>, redirect: string, key: string, value: string)
    requires Acceptable(given)
    ensures var ds := Defaults(redirect);
            (exists h :: h in Lines(given, redirect) && Lower(h.name) == key && h.value == value) <==>
            || (exists n :: n in given && Lower(n) == key && Given(given[n]) == value)
            || ((forall n | n in given :: Lower(n) != key) && exists d :: d in ds && Lower(d.name) == key && d.value == value)
  {
    if h :| h in Lines(given, redirect) && Lower(h.name) == key && h.value == value {
      SentIsWanted(given, redirect, h);
    }
    if n :| n in given && Lower(n) == key && Given(given[n]) == value {
      GivenIsSent(given, redirect, n);
    } else if forall n | n in given :: Lower(n) != key {
      if d :| d in Defaults(redirect) && Lower(d.name) == key && d.value == value {
        DefaultIsSent(given, redirect, d);
      }
    }
  }

  /** The defaults come first, under their own names and in their order; then the other headers, under the names
      they were given, in order of these. */
  lemma LinesInOrder(given: map<string, string>, redirect: string, i: nat, j: nat)
    requires Acceptable(given) && i < j < |Lines(given, redirect)|
    ensures var lines, ds := Lines(given, redirect), Defaults(redirect);
            && |lines| >= |ds| && (i < |ds| ==> lines[i].name == ds[i].name)
            && (j >= |ds| ==> lines[j].name in given)
            && (i >= |ds| ==> Less(lines[i].name, lines[j].name))
  {
    var o, ds := OverrideMap(given), Defaults(redirect);
    var lines, extra := Lines(given, redirect), Sorted(NameKey, Extra(o, ds));
    if j >= |ds| {
      assert lines[j] == extra[j - |ds|] && lines[j] in Elements(extra);
      if i >= |ds| {
        assert lines[i] == extra[i - |ds|];
      }
    }
  }

  /** A header given a blank value is sent as absent, any other with the value it was given. */
  lemma GivenValueIsSent(given: map<string, string>, redirect: string, name: string)
    requires Acceptable(given) && name in given
    ensures exists h :: h in Lines(given, redirect) && Lower(h.name) == Lower(name) &&
                        h.value == if TrimSpace(given[name]) == "" then "\"\"" else given[name]
  {
    GivenIsSent(given, redirect, name);
  }
}
