// Generated names: the readable part of a text, cut to fit, and a digest of it. A text is a sequence of code
// points; a name is a sequence of bytes, each written as the character with its value.
module Naming {
  import opened Text

  const MAX_LABEL: nat := 63
  const DIGEST_LENGTH: nat := 8

  predicate LabelChar(c: char) {
    'a' <= c <= 'z' || '0' <= c <= '9'
  }

  /** The label syntax of section 2.1 of RFC 1123, in lower case. */
  predicate IsLabel(s: string) {
    && 0 < |s| <= MAX_LABEL
    && (forall c | c in s :: LabelChar(c) || c == '-')
    && LabelChar(s[0]) && LabelChar(s[|s| - 1])
  }

  predicate IsDigest(s: string) {
    |s| == DIGEST_LENGTH && forall c | c in s :: LabelChar(c)
  }

  predicate IsAscii(s: string) {
    forall c | c in s :: c as int < 128
  }

  /** What Go's unicode package and UTF-8 say of a code point: its lower case, whether it is a letter or digit,
      and its encoding. */
  datatype Alphabet = Alphabet(lower: char -> char, letter: char -> bool, utf8: char -> string)

  /** As they are on ASCII; elsewhere lower case has no upper-case ASCII letter, and UTF-8 no ASCII byte. */
  ghost predicate Proper(a: Alphabet) {
    && (forall c | c as int < 128 :: a.lower(c) == LowerChar(c) && a.utf8(c) == [c])
    && (forall c | c as int < 128 :: a.letter(c) <==> LabelChar(LowerChar(c)))
    && (forall c :: !('A' <= a.lower(c) <= 'Z'))
    && (forall c | c as int >= 128 :: a.utf8(c) != "" && forall b | b in a.utf8(c) :: b as int >= 128)
  }

  /** A byte of a letter or digit; outside ASCII only those are ever written. */
  predicate Kept(c: char) {
    LabelChar(c) || c as int >= 128
  }

  /** What a code point contributes: the bytes of a letter or digit, else a separator. */
  function Bytes(a: Alphabet, c: char): string {
    if a.letter(a.lower(c)) then a.utf8(a.lower(c)) else "-"
  }

  function Encoded(a: Alphabet, text: string): string {
    if text == "" then "" else Encoded(a, text[..|text| - 1]) + Bytes(a, text[|text| - 1])
  }

  lemma BytesKept(a: Alphabet, c: char)
    requires Proper(a) && a.letter(a.lower(c))
    ensures Bytes(a, c) != "" && forall b | b in Bytes(a, c) :: Kept(b)
  {
    var l := a.lower(c);
    assert l as int < 128 ==> LowerChar(l) == l;
  }

  /** The letters and digits of s. */
  function Readable(s: string): string {
    if s == "" then ""
    else Readable(s[..|s| - 1]) + if Kept(s[|s| - 1]) then [s[|s| - 1]] else ""
  }

  function TrimDashes(s: string): (t: string)
    ensures t <= s && (t != "" ==> t[|t| - 1] != '-') && Readable(t) == Readable(s)
  {
    if s != "" && s[|s| - 1] == '-' then TrimDashes(s[..|s| - 1]) else s
  }

  lemma ReadableSnoc(s: string, c: char)
    ensures Readable(s + [c]) == Readable(s) + if Kept(c) then [c] else ""
  {
    assert (s + [c])[..|s|] == s;
  }

  lemma {:induction false} ReadablePrefix(t: string, s: string)
    requires t <= s
    ensures Readable(t) <= Readable(s)
  {
    if |t| < |s| {
      ReadablePrefix(t, s[..|s| - 1]);
    } else {
      assert t == s;
    }
  }

  predicate EndsReadable(s: string) {
    s != "" && Kept(s[|s| - 1])
  }

  /** The runs of letters and digits in s, in order. */
  function Words(s: string): (words: seq<string>)
    ensures EndsReadable(s) ==> words != []
  {
    if s == "" then []
    else
      var front, last := s[..|s| - 1], s[|s| - 1];
      var before := Words(front);
      if !Kept(last) then before
      else if EndsReadable(front) then before[..|before| - 1] + [before[|before| - 1] + [last]]
      else before + [[last]]
  }

  function Joined(words: seq<string>): string {
    if words == [] then ""
    else if |words| == 1 then words[0]
    else Joined(words[..|words| - 1]) + "-" + words[|words| - 1]
  }

  lemma JoinedSnoc(words: seq<string>, word: string)
    ensures Joined(words + [word]) == if words == [] then word else Joined(words) + "-" + word
  {
    assert (words + [word])[..|words|] == words;
  }

  lemma JoinedLonger(words: seq<string>, front: seq<string>, last: string, c: char)
    requires words == front + [last]
    ensures Joined(front + [last + [c]]) == Joined(words) + [c]
  {
    JoinedSnoc(front, last + [c]);
    JoinedSnoc(front, last);
  }

  lemma NextWord(s: string, c: char)
    ensures Joined(Words(s + [c])) == if !Kept(c) then Joined(Words(s))
                                      else if EndsReadable(s) || Words(s) == [] then Joined(Words(s)) + [c]
                                      else Joined(Words(s)) + "-" + [c]
    ensures Words(s + [c]) == [] <==> Words(s) == [] && !Kept(c)
  {
    assert (s + [c])[..|s|] == s;
    if Kept(c) {
      if EndsReadable(s) {
        var words := Words(s);
        JoinedLonger(words, words[..|words| - 1], words[|words| - 1], c);
      } else {
        JoinedSnoc(Words(s), [c]);
      }
    }
  }

  /** What joined words look like: no dash at either end and no two in a row. */
  ghost predicate Shaped(j: string) {
    && (forall i | 0 <= i < |j| :: Kept(j[i]) || j[i] == '-')
    && (forall i | 0 <= i < |j| - 1 :: j[i] != '-' || j[i + 1] != '-')
    && (j != "" ==> Kept(j[0]) && Kept(j[|j| - 1]))
  }

  lemma ShapeLetter(j: string, c: char)
    requires Shaped(j) && Kept(c)
    ensures Shaped(j + [c]) && Readable(j + [c]) == Readable(j) + [c]
  {
    ReadableSnoc(j, c);
  }

  lemma ShapeWord(j: string, c: char)
    requires Shaped(j) && Kept(c) && j != ""
    ensures Shaped(j + "-" + [c]) && Readable(j + "-" + [c]) == Readable(j) + [c]
  {
    ReadableSnoc(j, '-');
    ReadableSnoc(j + "-", c);
  }

  lemma {:induction false} JoinedShape(s: string)
    ensures Shaped(Joined(Words(s))) && Readable(Joined(Words(s))) == Readable(s)
    ensures Joined(Words(s)) == "" <==> Words(s) == []
  {
    if s != "" {
      var front, last := s[..|s| - 1], s[|s| - 1];
      JoinedShape(front);
      assert s == front + [last];
      ShapeNext(front, last);
    }
  }

  lemma ShapeNext(s: string, c: char)
    requires Shaped(Joined(Words(s))) && Readable(Joined(Words(s))) == Readable(s)
    requires Joined(Words(s)) == "" <==> Words(s) == []
    ensures var j := Joined(Words(s + [c])); Shaped(j) && Readable(j) == Readable(s + [c]) && (j == "" <==> Words(s + [c]) == [])
  {
    NextWord(s, c);
    ReadableSnoc(s, c);
    var j := Joined(Words(s));
    if Kept(c) {
      if EndsReadable(s) || j == "" {
        ShapeLetter(j, c);
      } else {
        ShapeWord(j, c);
      }
    }
  }

  const MAX_BASE: nat := MAX_LABEL - DIGEST_LENGTH - 1

  /** The readable part of a name: a non-empty prefix of what it stands for, shaped like a label. */
  ghost predicate Base(base: string, readable: string) {
    && base != "" && |base| <= MAX_BASE
    && (forall c | c in base :: Kept(c) || c == '-') && Kept(base[0])
    && if readable == "" then base == "resource" else Readable(base) != "" && Readable(base) <= readable
  }

  /** The words of s joined by single dashes, as far as they fit, without a dash at the end. */
  function BaseFor(s: string): string {
    var joined := Joined(Words(s));
    if joined == "" then "resource"
    else if |joined| <= MAX_BASE then joined
    else joined[..if joined[MAX_BASE - 1] == '-' then MAX_BASE - 1 else MAX_BASE]
  }

  /** The name made of the joined parts raw and the digest of raw: the words of raw in lower case, as many bytes
      as fit, or "resource" when there are none, and the digest. It is a label exactly when none of these bytes
      is of a letter outside ASCII. */
  method DNSLabel(raw: string, digest: string, a: Alphabet) returns (name: string)
    requires Proper(a) && IsDigest(digest)
    ensures name == BaseFor(Encoded(a, raw)) + "-" + digest && |name| <= MAX_LABEL
    ensures Base(BaseFor(Encoded(a, raw)), Readable(Encoded(a, raw)))
    ensures IsLabel(name) <==> IsAscii(BaseFor(Encoded(a, raw)))
  {
    var slug := Slugged(raw, a);
    var base := Cut(slug, Encoded(a, raw));
    name := base + "-" + digest;
    Assembled(base, digest);
  }

  lemma Assembled(base: string, digest: string)
    requires base != "" && |base| <= MAX_BASE && Kept(base[0]) && IsDigest(digest)
    requires forall c | c in base :: Kept(c) || c == '-'
    ensures IsLabel(base + "-" + digest) <==> IsAscii(base)
  {
    var name := base + "-" + digest;
    assert name[|name| - 1] == digest[DIGEST_LENGTH - 1] && digest[DIGEST_LENGTH - 1] in digest;
    if c :| c in base && c as int >= 128 {
      assert c in name;
    }
    assert base[0] in base;
  }

  lemma AsciiPrefix(t: string, s: string)
    requires t <= s && IsAscii(s)
    ensures IsAscii(t)
  {
    forall c | c in t ensures c in s {
      var i :| 0 <= i < |t| && t[i] == c;
      assert s[i] == c;
    }
  }

  lemma {:induction false} AsciiEncoded(a: Alphabet, text: string)
    requires Proper(a) && IsAscii(text)
    ensures IsAscii(Encoded(a, text))
  {
    if text != "" {
      AsciiPrefix(text[..|text| - 1], text);
      AsciiEncoded(a, text[..|text| - 1]);
      var c := text[|text| - 1];
      assert c in text;
      assert a.utf8(LowerChar(c)) == [LowerChar(c)];
    }
  }

  lemma {:induction false} AsciiJoined(s: string)
    requires IsAscii(s)
    ensures IsAscii(Joined(Words(s)))
  {
    if s != "" {
      var front, last := s[..|s| - 1], s[|s| - 1];
      AsciiPrefix(front, s);
      AsciiJoined(front);
      NextWord(front, last);
      assert s == front + [last] && last in s;
    }
  }

  lemma AsciiBase(s: string)
    requires IsAscii(s)
    ensures IsAscii(BaseFor(s))
  {
    AsciiJoined(s);
    if Joined(Words(s)) != "" {
      AsciiPrefix(BaseFor(s), Joined(Words(s)));
    }
  }

  /** ASCII text always gets a label. */
  lemma AsciiGetsLabel(a: Alphabet, raw: string, digest: string)
    requires Proper(a) && IsAscii(raw) && IsDigest(digest)
    ensures IsLabel(BaseFor(Encoded(a, raw)) + "-" + digest)
  {
    AsciiEncoded(a, raw);
    AsciiBase(Encoded(a, raw));
    BaseShape(Encoded(a, raw));
    Assembled(BaseFor(Encoded(a, raw)), digest);
  }

  /** A text that begins with a letter outside ASCII gets none. */
  lemma ForeignGetsNoLabel(a: Alphabet, raw: string, digest: string)
    requires Proper(a) && IsDigest(digest) && raw != "" && a.letter(a.lower(raw[0])) && a.lower(raw[0]) as int >= 128
    ensures !IsLabel(BaseFor(Encoded(a, raw)) + "-" + digest)
  {
    var s := Encoded(a, raw);
    FirstBytes(a, raw);
    FirstByteStays(s);
    BaseShape(s);
    assert BaseFor(s)[0] in BaseFor(s);
    Assembled(BaseFor(s), digest);
  }

  lemma FirstBytes(a: Alphabet, raw: string)
    requires Proper(a) && raw != "" && a.letter(a.lower(raw[0])) && a.lower(raw[0]) as int >= 128
    ensures Encoded(a, raw) != "" && Encoded(a, raw)[0] as int >= 128
  {
    StartsWithBytes(a, raw, 1);
    var bytes := a.utf8(a.lower(raw[0]));
    assert bytes[0] in bytes;
    assert raw[..1][..0] == "" && Encoded(a, "") == "";
    assert Encoded(a, raw[..1]) == bytes;
  }

  lemma FirstByteStays(s: string)
    requires s != "" && s[0] as int >= 128
    ensures BaseFor(s) != "" && BaseFor(s)[0] == s[0]
  {
    FirstByteFirst(s);
  }

  lemma {:induction false} StartsWithBytes(a: Alphabet, text: string, n: nat)
    requires n <= |text|
    ensures Encoded(a, text[..n]) <= Encoded(a, text)
  {
    if n == |text| {
      assert text[..n] == text;
    } else {
      StartsWithBytes(a, text[..|text| - 1], n);
      assert text[..|text| - 1][..n] == text[..n];
    }
  }

  lemma {:induction false} FirstByteFirst(s: string)
    requires s != "" && Kept(s[0])
    ensures Joined(Words(s)) != "" && Joined(Words(s))[0] == s[0]
  {
    var front, last := s[..|s| - 1], s[|s| - 1];
    NextWord(front, last);
    assert s == front + [last];
    if front == "" {
      assert Words(front) == [];
    } else {
      FirstByteFirst(front);
    }
  }

  lemma BaseShape(s: string)
    ensures var base := BaseFor(s);
            base != "" && |base| <= MAX_BASE && Kept(base[0]) && forall c | c in base :: Kept(c) || c == '-'
  {
    JoinedShape(s);
    var joined := Joined(Words(s));
    if joined != "" {
      PrefixShape(joined, BaseFor(s));
    }
  }

  lemma PrefixShape(joined: string, base: string)
    requires Shaped(joined) && base <= joined && base != ""
    ensures Kept(base[0]) && forall c | c in base :: Kept(c) || c == '-'
  {
    forall c | c in base ensures Kept(c) || c == '-' {
      var i :| 0 <= i < |base| && base[i] == c;
      assert joined[i] == c;
    }
  }

  /** Trim the dashes, fall back to a fixed word, and cut to what leaves room for the digest. */
  method Cut(slug: string, ghost s: string) returns (base: string)
    requires SluggedAs(slug, s)
    ensures base == BaseFor(s) && Base(base, Readable(s))
    ensures base != "" && |base| <= MAX_BASE && Kept(base[0]) && forall c | c in base :: Kept(c) || c == '-'
  {
    JoinedShape(s);
    BaseShape(s);
    ghost var joined := Joined(Words(s));
    TrimOne(joined, slug);
    base := TrimDashes(slug);
    if base == "" {
      assert Readable(joined) == "";
      return "resource";
    }
    NotSilent(base);
    if |base| > MAX_BASE {
      CutOnce(joined, MAX_BASE);
      base := TrimDashes(base[..MAX_BASE]);
      ReadablePrefix(base, joined);
      NotSilent(base);
    }
  }

  lemma TrimOne(joined: string, slug: string)
    requires Shaped(joined) && (slug == joined || (slug == joined + "-" && joined != ""))
    ensures TrimDashes(slug) == joined
  {
    assert slug != joined ==> slug[..|slug| - 1] == joined;
    assert TrimDashes(joined) == joined;
  }

  /** Cutting inside joined words leaves at most one dash to trim. */
  lemma CutOnce(joined: string, n: nat)
    requires Shaped(joined) && 1 < n < |joined|
    ensures TrimDashes(joined[..n]) == joined[..if joined[n - 1] == '-' then n - 1 else n]
    ensures TrimDashes(joined[..n]) != ""
  {
    var cut := joined[..n];
    if cut[n - 1] == '-' {
      assert joined[n - 2] != '-';
      assert cut[..n - 1] == joined[..n - 1];
      assert TrimDashes(joined[..n - 1]) == joined[..n - 1];
    }
  }

  lemma NotSilent(s: string)
    requires s != "" && Kept(s[0])
    ensures Readable(s) != ""
  {
    ReadablePrefix(s[..1], s);
    ReadableOne(s[..1]);
  }

  lemma ReadableOne(s: string)
    requires |s| == 1 && Kept(s[0])
    ensures Readable(s) == s
  {
    assert s[..0] == "";
  }

  /** Every run of anything but letters and digits has become one dash, except at the start. */
  ghost predicate SluggedAs(slug: string, s: string) {
    slug == Joined(Words(s)) + if Words(s) != [] && !EndsReadable(s) then "-" else ""
  }

  ghost predicate SlugState(slug: string, lastDash: bool, s: string) {
    SluggedAs(slug, s) && (slug == "" <==> Words(s) == []) && (lastDash <==> slug != "" && !EndsReadable(s))
  }

  method Slugged(text: string, a: Alphabet) returns (slug: string)
    requires Proper(a)
    ensures SluggedAs(slug, Encoded(a, text))
  {
    slug := "";
    var lastDash := false;
    for i := 0 to |text|
      invariant SlugState(slug, lastDash, Encoded(a, text[..i]))
    {
      NextEncoded(a, text, i);
      SlugNext(a, slug, lastDash, Encoded(a, text[..i]), text[i]);
      var r := a.lower(text[i]);
      if a.letter(r) {
        slug := slug + a.utf8(r);
        lastDash := false;
      } else if !lastDash && |slug| > 0 {
        slug := slug + "-";
        lastDash := true;
      }
    }
    assert text[..|text|] == text;
  }

  lemma NextEncoded(a: Alphabet, text: string, i: nat)
    requires i < |text|
    ensures Encoded(a, text[..i + 1]) == Encoded(a, text[..i]) + Bytes(a, text[i])
  {
    assert text[..i + 1][..i] == text[..i];
  }

  lemma SlugNext(a: Alphabet, slug: string, lastDash: bool, s: string, c: char)
    requires Proper(a) && SlugState(slug, lastDash, s)
    ensures a.letter(a.lower(c)) ==> SlugState(slug + a.utf8(a.lower(c)), false, s + Bytes(a, c))
    ensures !a.letter(a.lower(c)) && !lastDash && slug != "" ==> SlugState(slug + "-", true, s + Bytes(a, c))
    ensures !a.letter(a.lower(c)) && (lastDash || slug == "") ==> SlugState(slug, lastDash, s + Bytes(a, c))
  {
    if a.letter(a.lower(c)) {
      BytesKept(a, c);
      SlugBytes(slug, lastDash, s, Bytes(a, c));
    } else {
      SlugStep(slug, lastDash, s, '-');
    }
  }

  lemma {:induction false} SlugBytes(slug: string, lastDash: bool, s: string, bytes: string)
    requires SlugState(slug, lastDash, s) && bytes != "" && forall b | b in bytes :: Kept(b)
    ensures SlugState(slug + bytes, false, s + bytes)
  {
    var front, last := bytes[..|bytes| - 1], bytes[|bytes| - 1];
    assert slug + bytes == (slug + front) + [last] && s + bytes == (s + front) + [last];
    if front == "" {
      assert slug + front == slug && s + front == s;
      SlugStep(slug, lastDash, s, last);
    } else {
      SlugBytes(slug, lastDash, s, front);
      SlugStep(slug + front, false, s + front, last);
    }
  }

  lemma SlugStep(slug: string, lastDash: bool, s: string, c: char)
    requires SlugState(slug, lastDash, s)
    ensures Kept(c) ==> SlugState(slug + [c], false, s + [c])
    ensures !Kept(c) && !lastDash && slug != "" ==> SlugState(slug + "-", true, s + [c])
    ensures !Kept(c) && (lastDash || slug == "") ==> SlugState(slug, lastDash, s + [c])
  {
    NextWord(s, c);
    JoinedShape(s);
  }

  /** Names of texts with different digests differ. */
  lemma DigestsDistinguish(a: string, b: string, base: string, base': string, digest: string, digest': string)
    requires a == base + "-" + digest && b == base' + "-" + digest' && IsDigest(digest) && IsDigest(digest')
    requires a == b
    ensures digest == digest'
  {
    assert a[|a| - DIGEST_LENGTH..] == digest && b[|b| - DIGEST_LENGTH..] == digest';
  }

  /** What fits is kept whole; of anything longer at least 53 bytes are. */
  lemma KeepsWhatFits(s: string)
    requires Words(s) != []
    ensures |Joined(Words(s))| <= 54 ==> BaseFor(s) == Joined(Words(s))
    ensures |Joined(Words(s))| > 54 ==> 53 <= |BaseFor(s)| <= 54 && BaseFor(s) <= Joined(Words(s))
  {
    JoinedShape(s);
  }
}
