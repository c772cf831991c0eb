// Strings as the planner uses them: byte-wise order, trimming, lower-casing and
// the one-label wildcard of a hostname.
module Text {

  datatype Option<+T> = None | Some(value: T)

  // ---------- Order ----------

  /** The order of Go's `<` on strings. */
  predicate Less(a: string, b: string) {
    if b == "" then false
    else if a == "" then true
    else a[0] < b[0] || (a[0] == b[0] && Less(a[1..], b[1..]))
  }

  lemma {:induction false} LessTransitive(a: string, b: string, c: string)
    requires Less(a, b) && Less(b, c)
    ensures Less(a, c)
  {
    if a != "" && a[0] == b[0] && b[0] == c[0] {
      LessTransitive(a[1..], b[1..], c[1..]);
    }
  }

  lemma {:induction false} LessTotal(a: string, b: string)
    ensures !(Less(a, b) && Less(b, a))
    ensures Less(a, b) || a == b || Less(b, a)
    ensures !Less(a, a)
  {
    if a == "" {
    } else {
      LessTotal(a[1..], if b == "" then "" else b[1..]);
      if b != "" {
        LessTotal(a[1..], a[1..]);
        assert a == [a[0]] + a[1..] && b == [b[0]] + b[1..];
      } else {
        LessTotal(a[1..], a[1..]);
      }
    }
  }

  // ---------- Normalisation ----------

  /** The code points Go's unicode.IsSpace accepts. */
  predicate IsSpace(c: char) {
    var n := c as int;
    0x09 <= n <= 0x0D || n == 0x20 || n == 0x85 || n == 0xA0 || n == 0x1680 || 0x2000 <= n <= 0x200A ||
    n == 0x2028 || n == 0x2029 || n == 0x202F || n == 0x205F || n == 0x3000
  }

  function TrimLeft(s: string): string {
    if s != "" && IsSpace(s[0]) then TrimLeft(s[1..]) else s
  }

  function TrimRight(s: string): string {
    if s != "" && IsSpace(s[|s| - 1]) then TrimRight(s[..|s| - 1]) else s
  }

  function TrimSpace(s: string): string {
    TrimRight(TrimLeft(s))
  }

  function LowerChar(c: char): char {
    if 'A' <= c <= 'Z' then c + 32 as char else c
  }

  function Lower(s: string): string {
    seq(|s|, i requires 0 <= i < |s| => LowerChar(s[i]))
  }

  /** A hostname as the planner compares it. */
  function Normalise(raw: string): string {
    Lower(TrimSpace(raw))
  }

  lemma {:induction false} KeepsFirst(s: string)
    requires s != "" && !IsSpace(s[0])
    ensures TrimRight(s) != "" && TrimRight(s)[0] == s[0]
  {
    if IsSpace(s[|s| - 1]) {
      KeepsFirst(s[..|s| - 1]);
    }
  }

  lemma {:induction false} TrimLeftStops(s: string)
    ensures TrimLeft(s) == "" || !IsSpace(TrimLeft(s)[0])
  {
    if s != "" && IsSpace(s[0]) {
      TrimLeftStops(s[1..]);
    }
  }

  lemma {:induction false} TrimRightStops(s: string)
    ensures TrimRight(s) == "" || !IsSpace(TrimRight(s)[|TrimRight(s)| - 1])
  {
    if s != "" && IsSpace(s[|s| - 1]) {
      TrimRightStops(s[..|s| - 1]);
    }
  }

  lemma TrimTwice(s: string)
    ensures TrimSpace(TrimSpace(s)) == TrimSpace(s)
  {
    var left := TrimLeft(s);
    TrimLeftStops(s);
    TrimRightStops(left);
    if left != "" {
      KeepsFirst(left);
    }
  }

  lemma LowerKeepsSpaces(c: char)
    ensures IsSpace(LowerChar(c)) <==> IsSpace(c)
    ensures LowerChar(LowerChar(c)) == LowerChar(c)
  {
  }

  lemma TrimStable(s: string)
    requires s == "" || (!IsSpace(s[0]) && !IsSpace(s[|s| - 1]))
    ensures TrimSpace(s) == s
  {
  }

  lemma TrimStops(s: string)
    ensures var t := TrimSpace(s); t == "" || (!IsSpace(t[0]) && !IsSpace(t[|t| - 1]))
  {
    TrimLeftStops(s);
    TrimRightStops(TrimLeft(s));
    if TrimLeft(s) != "" {
      KeepsFirst(TrimLeft(s));
    }
  }

  lemma {:induction false} TrimLeftSplits(s: string) returns (n: nat)
    ensures n <= |s| && TrimLeft(s) == s[n..] && forall i | 0 <= i < n :: IsSpace(s[i])
  {
    n := 0;
    if s != "" && IsSpace(s[0]) {
      var m := TrimLeftSplits(s[1..]);
      n := m + 1;
      forall i | 0 <= i < n ensures IsSpace(s[i]) {
        assert i > 0 ==> s[1..][i - 1] == s[i];
      }
    }
  }

  lemma {:induction false} TrimRightSplits(s: string) returns (n: nat)
    ensures n <= |s| && TrimRight(s) == s[..n] && forall i | n <= i < |s| :: IsSpace(s[i])
  {
    n := |s|;
    if s != "" && IsSpace(s[|s| - 1]) {
      n := TrimRightSplits(s[..|s| - 1]);
      assert s[..|s| - 1][..n] == s[..n];
      forall i | n <= i < |s| ensures IsSpace(s[i]) {
        assert i < |s| - 1 ==> s[..|s| - 1][i] == s[i];
      }
    }
  }

  /** Normalising drops the spaces at both ends, all of them and nothing else, and lower-cases what is left. */
  lemma NormaliseMeans(raw: string) returns (front: nat, back: nat)
    ensures front <= back <= |raw| && |Normalise(raw)| == back - front
    ensures forall i | 0 <= i < front || back <= i < |raw| :: IsSpace(raw[i])
    ensures front < back ==> !IsSpace(raw[front]) && !IsSpace(raw[back - 1])
    ensures forall i | front <= i < back ::
              Normalise(raw)[i - front] == if 'A' <= raw[i] <= 'Z' then raw[i] + 32 as char else raw[i]
  {
    front := TrimLeftSplits(raw);
    var left := TrimLeft(raw);
    var n := TrimRightSplits(left);
    back := front + n;
    TrimStops(raw);
    assert TrimSpace(raw) == raw[front..back];
    forall i | 0 <= i < front || back <= i < |raw| ensures IsSpace(raw[i]) {
      if i >= back {
        assert left[i - front] == raw[i];
      }
    }
  }

  lemma NormaliseTwice(raw: string)
    ensures Normalise(Normalise(raw)) == Normalise(raw)
  {
    var t := TrimSpace(raw);
    TrimStops(raw);
    if t != "" {
      LowerKeepsSpaces(t[0]);
      LowerKeepsSpaces(t[|t| - 1]);
    }
    TrimStable(Lower(t));
    forall i | 0 <= i < |t| ensures Lower(Lower(t))[i] == Lower(t)[i] {
      LowerKeepsSpaces(t[i]);
    }
  }

  // ---------- Wildcards ----------

  predicate IsWildcard(host: string) {
    |host| >= 2 && host[0] == '*' && host[1] == '.'
  }

  /** Position of the first dot, or -1. */
  function FirstDot(s: string): (dot: int)
    ensures -1 <= dot < |s|
    ensures dot >= 0 ==> s[dot] == '.' && '.' !in s[..dot]
    ensures dot < 0 ==> '.' !in s
  {
    if s == "" then -1
    else if s[0] == '.' then 0
    else
      var rest := FirstDot(s[1..]);
      if rest < 0 then
        assert s == [s[0]] + s[1..];
        -1
      else
        assert s[..rest + 1] == [s[0]] + s[1..][..rest];
        rest + 1
  }

  /** The wildcard one label above host, when host has a non-empty first label and something after its dot. */
  function WildcardParent(host: string): (parent: Option<string>)
    ensures parent.Some? ==> !IsWildcard(host) && IsWildcard(parent.value) && parent.value != host
  {
    if IsWildcard(host) then None
    else
      var dot := FirstDot(host);
      if dot <= 0 || dot == |host| - 1 then None else Some("*" + host[dot..])
  }
}
