// The values the planner reads and writes.
module Model {
  import opened Text
  import opened Sorting

  const GATEWAY_HTTPS_CAPACITY: nat := 63
  const LISTENER_SET_CAPACITY: nat := 64

  function Min(a: nat, b: nat): nat {
    if a <= b then a else b
  }

  datatype NamespacedName = NamespacedName(ns: string, name: string)

  /** The "namespace/name" form by which Secrets are ordered. */
  function Slashed(n: NamespacedName): string {
    n.ns + "/" + n.name
  }

  function SlashedKey(n: NamespacedName): Key {
    (Slashed(n), "")
  }

  /** Kubernetes namespaces are DNS labels; all the planner needs of that is that they are non-empty
      and contain no slash. */
  predicate PlainNamespace(n: NamespacedName) {
    n.ns != "" && '/' !in n.ns
  }

  lemma {:induction false} SlashedPrefix(a: string, x: string, b: string, y: string)
    requires '/' !in a && '/' !in b
    requires a + "/" + x == b + "/" + y
    ensures a == b && x == y
  {
    if a == "" || b == "" {
      assert (a + "/" + x)[0] == (b + "/" + y)[0];
      assert a == "" && b == "";
      assert x == (a + "/" + x)[1..] && y == (b + "/" + y)[1..];
    } else {
      assert (a + "/" + x)[0] == a[0] && (b + "/" + y)[0] == b[0];
      assert (a + "/" + x)[1..] == a[1..] + "/" + x;
      assert (b + "/" + y)[1..] == b[1..] + "/" + y;
      SlashedPrefix(a[1..], x, b[1..], y);
      assert a == [a[0]] + a[1..] && b == [b[0]] + b[1..];
    }
  }

  lemma SlashedInjective(a: NamespacedName, b: NamespacedName)
    requires PlainNamespace(a) && PlainNamespace(b)
    requires Slashed(a) == Slashed(b)
    ensures a == b
  {
    SlashedPrefix(a.ns, a.name, b.ns, b.name);
  }

  lemma SlashedDistinct(s: set<NamespacedName>)
    requires forall n | n in s :: PlainNamespace(n)
    ensures DistinctKeys(SlashedKey, s)
  {
    forall x, y | x in s && y in s && x != y ensures SlashedKey(x) != SlashedKey(y) {
      if Slashed(x) == Slashed(y) {
        SlashedInjective(x, y);
      }
    }
  }

  datatype TLSEntry = TLSEntry(secretName: string, hosts: seq<string>)

  /** The part of an Ingress the listener planner reads. */
  datatype Ingress = Ingress(ns: string, name: string, deleting: bool, tls: seq<TLSEntry>, ruleHosts: seq<string>)

  function SourceOf(ing: Ingress): NamespacedName {
    NamespacedName(ing.ns, ing.name)
  }

  function IngressKey(ing: Ingress): Key {
    (ing.ns, ing.name)
  }

  /** What the planner knows of a parsed certificate; the fingerprint identifies its chain. */
  datatype CertificateInfo = CertificateInfo(wildcardSANs: seq<string>, fingerprint: string)

  /** listenerSet is 0 for the Gateway and i for the i-th overflow ListenerSet. */
  datatype Placement = Placement(listenerSet: int, secret: NamespacedName)

  /** Why a TLS entry, or one of its hosts, declares nothing. */
  datatype Reason = NoSecretName | NoHosts | EmptyHost

  /** Every issue the planner raises is an Error. */
  datatype Issue =
    | Unusable(reason: Reason)
    | Conflict(host: string, secret: NamespacedName, source: NamespacedName)
    | NoCapacity(host: string)

  type Issues = map<NamespacedName, seq<Issue>>

  function IssuesOf(issues: Issues, source: NamespacedName): seq<Issue> {
    if source in issues then issues[source] else []
  }

  function AddIssue(issues: Issues, source: NamespacedName, issue: Issue): Issues {
    issues[source := IssuesOf(issues, source) + [issue]]
  }

  lemma AddIssueMembers(issues: Issues, source: NamespacedName, issue: Issue)
    ensures forall s, q :: q in IssuesOf(AddIssue(issues, source, issue), s) <==>
                           q in IssuesOf(issues, s) || (s == source && q == issue)
  {
  }

  /** dnsLabel stands for naming.DNSLabel, whose digest is not modelled. */
  datatype Options = Options(
    ns: string,
    name: string,
    allowListenerSets: bool,
    httpSection: string,
    httpsSection: string,
    overflow: bool,
    certificates: Option<map<NamespacedName, CertificateInfo>>,
    current: map<string, Placement>,
    dnsLabel: seq<string> -> string)
}
