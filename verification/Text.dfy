/** Byte strings: the encodings that feed the repository's digests, and the
    small text predicates its validators share. A Go string is modelled as the
    sequence of its bytes, one `char` a byte. */
module Text {
  import opened Wrappers

  predicate IsSpace(c: char) {
    c == ' ' || '\t' <= c <= '\r'
  }

  function TrimLeft(s: string): string {
    if s != [] && IsSpace(s[0]) then TrimLeft(s[1..]) else s
  }

  function TrimRight(s: string): string {
    if s != [] && IsSpace(s[|s| - 1]) then TrimRight(s[..|s| - 1]) else s
  }

  function Trim(s: string): string { TrimRight(TrimLeft(s)) }

  lemma {:induction false} TrimRightKeeps(s: string)
    requires s != [] && !IsSpace(s[0])
    ensures TrimRight(s) != [] && TrimRight(s)[0] == s[0] && !IsSpace(TrimRight(s)[|TrimRight(s)| - 1])
  {
    if IsSpace(s[|s| - 1]) { TrimRightKeeps(s[..|s| - 1]); }
  }

  lemma {:induction false} TrimLeftStarts(s: string)
    ensures TrimLeft(s) == [] || !IsSpace(TrimLeft(s)[0])
  {
    if s != [] && IsSpace(s[0]) { TrimLeftStarts(s[1..]); }
  }

  lemma TrimIdempotent(s: string)
    ensures Trim(Trim(s)) == Trim(s)
  {
    TrimLeftStarts(s);
    if TrimLeft(s) != [] { TrimRightKeeps(TrimLeft(s)); }
  }

  /** Six ASCII characters are white space. */
  lemma SpacesAre(c: char)
    ensures IsSpace(c) <==> c as int in {9, 10, 11, 12, 13, 32}
  {}

  lemma {:induction false} TrimLeftDrops(s: string) returns (spaces: string)
    ensures s == spaces + TrimLeft(s) && forall c | c in spaces :: IsSpace(c)
  {
    if s != [] && IsSpace(s[0]) {
      spaces := TrimLeftDrops(s[1..]);
      spaces := [s[0]] + spaces;
    } else {
      spaces := [];
    }
  }

  lemma {:induction false} TrimRightDrops(s: string) returns (spaces: string)
    ensures s == TrimRight(s) + spaces && forall c | c in spaces :: IsSpace(c)
  {
    if s != [] && IsSpace(s[|s| - 1]) {
      spaces := TrimRightDrops(s[..|s| - 1]);
      spaces := spaces + [s[|s| - 1]];
    } else {
      spaces := [];
    }
  }

  /** Trimming drops white space at both ends, and all of it. */
  lemma TrimIs(s: string) returns (left: string, right: string)
    ensures s == left + Trim(s) + right && forall c | c in left + right :: IsSpace(c)
    ensures Trim(s) == [] || (!IsSpace(Trim(s)[0]) && !IsSpace(Trim(s)[|Trim(s)| - 1]))
  {
    left := TrimLeftDrops(s);
    right := TrimRightDrops(TrimLeft(s));
    TrimLeftStarts(s);
    if TrimLeft(s) != [] { TrimRightKeeps(TrimLeft(s)); }
  }

  function LowerChar(c: char): char {
    if 'A' <= c <= 'Z' then c - 'A' + 'a' else c
  }

  function UpperChar(c: char): char {
    if 'a' <= c <= 'z' then c - 'a' + 'A' else c
  }

  function ToLower(s: string): string { seq(|s|, i requires 0 <= i < |s| => LowerChar(s[i])) }

  function ToUpper(s: string): string { seq(|s|, i requires 0 <= i < |s| => UpperChar(s[i])) }

  predicate IsHex(c: char) { '0' <= c <= '9' || 'a' <= c <= 'f' }

  lemma HexDigitsAre(c: char)
    ensures IsHex(c) <==> c in "0123456789abcdef"
  {}

  /** Sixty-four lower-case hexadecimal digits. */
  predicate IsSHA256(s: string) {
    |s| == 64 && forall i | 0 <= i < |s| :: IsHex(s[i])
  }

  /** What a SHA-256 hex encoder can return. */
  type Digest = s: string | IsSHA256(s) witness seq(64, _ => '0')

  // ---- decimal numerals

  function Digit(d: nat): char
    requires d < 10
  {
    '0' + d as char
  }

  function Decimal(n: nat): string {
    if n < 10 then [Digit(n)] else Decimal(n / 10) + [Digit(n % 10)]
  }

  function DecimalInt(n: int): string {
    if n < 0 then ['-'] + Decimal(-n) else Decimal(n)
  }

  predicate IsNumeral(s: string) {
    s != [] && forall i | 0 <= i < |s| :: '0' <= s[i] <= '9'
  }

  function NumeralValue(s: string): nat
    requires IsNumeral(s)
  {
    var last := (s[|s| - 1] - '0') as nat;
    if |s| == 1 then last else 10 * NumeralValue(s[..|s| - 1]) + last
  }

  lemma {:induction false} DecimalReadsBack(n: nat)
    ensures IsNumeral(Decimal(n)) && NumeralValue(Decimal(n)) == n
  {
    if n >= 10 {
      DecimalReadsBack(n / 10);
      assert Decimal(n)[..|Decimal(n)| - 1] == Decimal(n / 10);
    }
  }

  lemma DecimalIntInjective(m: int, n: int)
    requires DecimalInt(m) == DecimalInt(n)
    ensures m == n
  {
    DecimalReadsBack(if m < 0 then -m else m);
    DecimalReadsBack(if n < 0 then -n else n);
    assert m < 0 <==> DecimalInt(m)[0] == '-';
    assert n < 0 <==> DecimalInt(n)[0] == '-';
    if m < 0 {
      assert DecimalInt(m)[1..] == Decimal(-m);
      assert DecimalInt(n)[1..] == Decimal(-n);
    }
  }

  lemma DecimalIntNonEmpty(n: int)
    ensures DecimalInt(n) != []
  {
    DecimalReadsBack(if n < 0 then -n else n);
  }

  // ---- framing by decimal length and NUL

  const NUL := 0 as char

  function Frame(v: string): string { Decimal(|v|) + [NUL] + v + [NUL] }

  function FrameAll(fields: seq<string>): string {
    if fields == [] then [] else Frame(fields[0]) + FrameAll(fields[1..])
  }

  lemma NumeralEndsAtNul(a: string, x: string, b: string, y: string)
    requires IsNumeral(a) && IsNumeral(b)
    requires a + [NUL] + x == b + [NUL] + y
    ensures a == b && x == y
  {
    var l, r := a + [NUL] + x, b + [NUL] + y;
    assert l[|a|] == NUL && forall i | 0 <= i < |a| :: l[i] == a[i] != NUL;
    assert r[|b|] == NUL && forall i | 0 <= i < |b| :: r[i] == b[i] != NUL;
    assert |a| == |b|;
    assert a == l[..|a|] && b == r[..|b|];
    assert x == l[|a| + 1..] && y == r[|b| + 1..];
  }

  /** The first frame of a byte string determines its field and what follows. */
  lemma FrameIsPrefixFree(u: string, x: string, v: string, y: string)
    requires Frame(u) + x == Frame(v) + y
    ensures u == v && x == y
  {
    DecimalReadsBack(|u|); DecimalReadsBack(|v|);
    assert Frame(u) + x == Decimal(|u|) + [NUL] + (u + [NUL] + x);
    assert Frame(v) + y == Decimal(|v|) + [NUL] + (v + [NUL] + y);
    NumeralEndsAtNul(Decimal(|u|), u + [NUL] + x, Decimal(|v|), v + [NUL] + y);
    assert u == (u + [NUL] + x)[..|u|] && v == (v + [NUL] + y)[..|v|];
    assert x == (u + [NUL] + x)[|u| + 1..] && y == (v + [NUL] + y)[|v| + 1..];
  }

  /** Field lists of any length, with any bytes in the fields, are recovered
      from their framing. */
  lemma {:induction false} FrameAllInjective(a: seq<string>, b: seq<string>)
    requires FrameAll(a) == FrameAll(b)
    ensures a == b
  {
    if a != [] && b != [] {
      FrameIsPrefixFree(a[0], FrameAll(a[1..]), b[0], FrameAll(b[1..]));
      FrameAllInjective(a[1..], b[1..]);
      assert a == [a[0]] + a[1..] && b == [b[0]] + b[1..];
    }
  }

  lemma FrameAllSplits(written: string, values: seq<string>, i: nat)
    requires i < |values|
    ensures written + FrameAll(values[i..])
         == (((written + Decimal(|values[i]|)) + [NUL]) + values[i]) + [NUL] + FrameAll(values[i + 1..])
  {
    assert values[i..][0] == values[i] && values[i..][1..] == values[i + 1..];
  }

  const MAX_FIELD := 0x100_0000

  /** The digest of a domain and its fields, or an error for a blank domain or
      an oversized field. */
  function Canonical(hash: string -> Digest, domain: string, fields: seq<string>): Result<string> {
    var values := [Trim(domain)] + fields;
    if Trim(domain) == [] || exists v :: v in values && |v| > MAX_FIELD then Err else Ok(hash(FrameAll(values)))
  }

  /** Hashing fails exactly for a blank domain, or when the trimmed domain or a field is
      longer than sixteen mebibytes. */
  lemma CanonicalFailsExactlyWhen(hash: string -> Digest, domain: string, fields: seq<string>)
    ensures Canonical(hash, domain, fields).Err? <==>
      Trim(domain) == "" || |Trim(domain)| > 16_777_216 || exists field :: field in fields && |field| > 16_777_216
  {
    assert Trim(domain) in [Trim(domain)] + fields;
  }

  /** Digests computed from the same bytes have the same domain and fields. */
  lemma CanonicalUnambiguous(domain1: string, fields1: seq<string>, domain2: string, fields2: seq<string>)
    requires FrameAll([Trim(domain1)] + fields1) == FrameAll([Trim(domain2)] + fields2)
    ensures Trim(domain1) == Trim(domain2) && fields1 == fields2
  {
    FrameAllInjective([Trim(domain1)] + fields1, [Trim(domain2)] + fields2);
    assert fields1 == ([Trim(domain1)] + fields1)[1..] && fields2 == ([Trim(domain2)] + fields2)[1..];
  }

  method CanonicalDigest(hash: string -> Digest, domain: string, fields: seq<string>) returns (r: Result<string>)
    ensures r == Canonical(hash, domain, fields)
  {
    var trimmed := Trim(domain);
    if trimmed == [] { return Err; }
    var values := [trimmed] + fields;
    var written := "";
    assert values[0..] == values && written + FrameAll(values) == FrameAll(values);
    for i := 0 to |values|
      invariant forall k | 0 <= k < i :: |values[k]| <= MAX_FIELD
      invariant written + FrameAll(values[i..]) == FrameAll(values)
    {
      if |values[i]| > MAX_FIELD { return Err; }
      FrameAllSplits(written, values, i);
      written := written + Decimal(|values[i]|);
      written := written + [NUL];
      written := written + values[i];
      written := written + [NUL];
    }
    assert written == FrameAll(values);
    r := Ok(hash(written));
  }

  // ---- framing by a fixed-width length

  /** The `k` low bytes of `n`, most significant first. */
  function BigEndian(n: nat, k: nat): string {
    if k == 0 then [] else BigEndian(n / 256, k - 1) + [(n % 256) as char]
  }

  function Power256(k: nat): nat { if k == 0 then 1 else 256 * Power256(k - 1) }

  lemma {:induction false} BigEndianInjective(m: nat, n: nat, k: nat)
    requires m < Power256(k) && n < Power256(k)
    requires BigEndian(m, k) == BigEndian(n, k)
    ensures m == n
  {
    if k > 0 {
      var l, r := BigEndian(m, k), BigEndian(n, k);
      assert l[|l| - 1] == (m % 256) as char && r[|r| - 1] == (n % 256) as char;
      assert l[..|l| - 1] == BigEndian(m / 256, k - 1) && r[..|r| - 1] == BigEndian(n / 256, k - 1);
      BigEndianInjective(m / 256, n / 256, k - 1);
    }
  }

  lemma {:induction false} BigEndianLength(n: nat, k: nat)
    ensures |BigEndian(n, k)| == k
  {
    if k > 0 { BigEndianLength(n / 256, k - 1); }
  }

  /** The bytes fixedHash feeds to the hash: eight length bytes before each part. */
  function FixedAll(parts: seq<string>): string {
    if parts == [] then [] else BigEndian(|parts[0]|, 8) + parts[0] + FixedAll(parts[1..])
  }

  /** Every part of a Go slice fits in memory, so its length has 64 bits. */
  ghost predicate Addressable(parts: seq<string>) {
    forall p | p in parts :: |p| < Power256(8)
  }

  lemma FixedAllEmpty(parts: seq<string>)
    ensures FixedAll(parts) == [] <==> parts == []
  {
    if parts != [] { BigEndianLength(|parts[0]|, 8); }
  }

  lemma {:induction false} FixedAllInjective(a: seq<string>, b: seq<string>)
    requires Addressable(a) && Addressable(b)
    requires FixedAll(a) == FixedAll(b)
    ensures a == b
  {
    FixedAllEmpty(a); FixedAllEmpty(b);
    if a != [] && b != [] {
      var l, r := FixedAll(a), FixedAll(b);
      BigEndianLength(|a[0]|, 8); BigEndianLength(|b[0]|, 8);
      assert BigEndian(|a[0]|, 8) == l[..8] && BigEndian(|b[0]|, 8) == r[..8];
      BigEndianInjective(|a[0]|, |b[0]|, 8);
      assert a[0] == l[8..8 + |a[0]|] && b[0] == r[8..8 + |a[0]|];
      assert FixedAll(a[1..]) == l[8 + |a[0]|..] && FixedAll(b[1..]) == r[8 + |a[0]|..];
      FixedAllInjective(a[1..], b[1..]);
      assert a == [a[0]] + a[1..] && b == [b[0]] + b[1..];
    }
  }
}
