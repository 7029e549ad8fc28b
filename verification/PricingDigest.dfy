/** SnapshotDigest: the byte string a frozen snapshot is hashed from, and why two
    snapshots never share one. */
module PricingDigest {
  import opened Wrappers
  import opened PricingModel
  import opened Orders
  import opened Sequences
  import opened Text

  predicate ByBasis(a: Charge, b: Charge) { LexLe(BasisText(a.basis), BasisText(b.basis)) }

  predicate ByText(a: Basis, b: Basis) { LexLe(BasisText(a), BasisText(b)) }

  function BoolText(b: bool): string { if b then "true" else "false" }

  /** The nine parts of a price row. */
  function RowParts(r: Charge): seq<string> {
    [BasisText(r.basis), ApplicabilityText(r.applicability), DecimalInt(r.price), DecimalInt(r.denominator),
     BasisText(r.settlementField),
     match r.includedIn case Some(b) => BasisText(b) case None => "",
     match r.maximum case Some(q) => DecimalInt(q) case None => "",
     r.boundField, BoolText(r.disjoint)]
  }

  function RowsParts(rows: seq<Charge>): seq<string> {
    if rows == [] then [] else RowParts(rows[0]) + RowsParts(rows[1..])
  }

  const INAPPLICABLE := "inapplicable"

  function InapplicableParts(bases: seq<Basis>): seq<string> {
    if bases == [] then [] else [INAPPLICABLE, BasisText(bases[0])] + InapplicableParts(bases[1..])
  }

  function HeaderParts(s: Snapshot): seq<string> {
    ["govar-normalized-pricing-v1", DecimalInt(s.generation), s.version, DecimalInt(s.observedAt),
     DecimalInt(s.validUntil), ToUpper(s.currency), s.completeness, s.adapterVersion, s.evidenceMode,
     s.evidenceSHA256, s.sourceVersion]
  }

  function Parts(s: Snapshot): seq<string> {
    HeaderParts(s) + (RowsParts(Sort(ByBasis, s.charges)) + InapplicableParts(Sort(ByText, s.inapplicable)))
  }

  function SnapshotDigest(hash: string -> Digest, s: Snapshot): Digest {
    hash(FixedAll(Parts(s)))
  }

  method AppendRows(start: seq<string>, rows: seq<Charge>) returns (parts: seq<string>)
    ensures parts == start + RowsParts(rows)
  {
    parts := start;
    for i := 0 to |rows|
      invariant parts + RowsParts(rows[i..]) == start + RowsParts(rows)
    {
      assert rows[i..][0] == rows[i] && rows[i..][1..] == rows[i + 1..];
      ghost var rest := RowsParts(rows[i + 1..]);
      var row := RowParts(rows[i]);
      assert parts + (row + rest) == (parts + row) + rest;
      parts := parts + row;
    }
  }

  method AppendInapplicable(start: seq<string>, bases: seq<Basis>) returns (parts: seq<string>)
    ensures parts == start + InapplicableParts(bases)
  {
    parts := start;
    for i := 0 to |bases|
      invariant parts + InapplicableParts(bases[i..]) == start + InapplicableParts(bases)
    {
      assert bases[i..][0] == bases[i] && bases[i..][1..] == bases[i + 1..];
      ghost var rest := InapplicableParts(bases[i + 1..]);
      var pair := [INAPPLICABLE, BasisText(bases[i])];
      assert parts + (pair + rest) == (parts + pair) + rest;
      parts := parts + pair;
    }
  }

  method ComputeSnapshotDigest(hash: string -> Digest, s: Snapshot) returns (d: Digest)
    ensures d == SnapshotDigest(hash, s)
  {
    var rows, bases := Sort(ByBasis, s.charges), Sort(ByText, s.inapplicable);
    var parts := AppendRows(HeaderParts(s), rows);
    parts := AppendInapplicable(parts, bases);
    Regroup(HeaderParts(s), RowsParts(rows), InapplicableParts(bases));
    d := hash(FixedAll(parts));
  }

  predicate ReadableRow(r: Charge) {
    && IsBasis(r.basis) && ValidApplicability(r.applicability) && IsBasis(r.settlementField)
    && (r.includedIn.Some? ==> IsBasis(r.includedIn.value))
  }

  /** Rows over the closed vocabularies, as every valid snapshot holds them. */
  predicate Readable(rows: seq<Charge>) {
    forall r | r in rows :: ReadableRow(r)
  }

  predicate ReadableBases(bases: seq<Basis>) {
    forall b | b in bases :: IsBasis(b)
  }

  lemma NoBasisIsTheMarker(b: Basis)
    requires IsBasis(b)
    ensures BasisText(b) != INAPPLICABLE && BasisText(b) != ""
  {
    assert BasisText(b) != "";
    assert |BasisText(b)| == |INAPPLICABLE| && BasisText(b)[0] == INAPPLICABLE[0] ==> BasisText(b)[2] != INAPPLICABLE[2];
  }

  lemma IncludedTextInjective(a: Option<Basis>, b: Option<Basis>)
    requires (a.Some? ==> IsBasis(a.value)) && (b.Some? ==> IsBasis(b.value))
    requires (match a case Some(x) => BasisText(x) case None => "") == (match b case Some(x) => BasisText(x) case None => "")
    ensures a == b
  {
    if a.Some? { NoBasisIsTheMarker(a.value); }
    if b.Some? { NoBasisIsTheMarker(b.value); }
    if a.Some? && b.Some? { BasisTextInjective(a.value, b.value); }
  }

  lemma RowPartsInjective(r: Charge, q: Charge)
    requires RowParts(r) == RowParts(q) && ReadableRow(r) && ReadableRow(q)
    ensures r == q
  {
    var a, b := RowParts(r), RowParts(q);
    assert a[0] == b[0] && a[1] == b[1] && a[2] == b[2] && a[3] == b[3] && a[4] == b[4];
    assert a[5] == b[5] && a[6] == b[6] && a[7] == b[7] && a[8] == b[8];
    BasisTextInjective(r.basis, q.basis);
    BasisTextInjective(r.settlementField, q.settlementField);
    ApplicabilityTextInjective(r.applicability, q.applicability);
    IncludedTextInjective(r.includedIn, q.includedIn);
    DecimalIntInjective(r.price, q.price);
    DecimalIntInjective(r.denominator, q.denominator);
    if r.maximum.Some? { DecimalIntNonEmpty(r.maximum.value); }
    if q.maximum.Some? { DecimalIntNonEmpty(q.maximum.value); }
    if r.maximum.Some? && q.maximum.Some? { DecimalIntInjective(r.maximum.value, q.maximum.value); }
    assert r.disjoint == q.disjoint by { assert |"true"| != |"false"|; }
  }

  lemma FirstRowDetermined(r: Charge, u: seq<string>, q: Charge, v: seq<string>)
    requires RowParts(r) + u == RowParts(q) + v && ReadableRow(r) && ReadableRow(q)
    ensures r == q && u == v
  {
    var x, y := RowParts(r), RowParts(q);
    assert |x| == |y| == 9;
    assert x == (x + u)[..9] && y == (y + v)[..9] && u == (x + u)[9..] && v == (y + v)[9..];
    RowPartsInjective(r, q);
  }

  lemma {:induction false} InapplicablePartsInjective(x: seq<Basis>, y: seq<Basis>)
    requires ReadableBases(x) && ReadableBases(y)
    requires InapplicableParts(x) == InapplicableParts(y)
    ensures x == y
  {
    if x != [] && y != [] {
      var l, r := InapplicableParts(x), InapplicableParts(y);
      assert BasisText(x[0]) == l[1] && BasisText(y[0]) == r[1];
      BasisTextInjective(x[0], y[0]);
      assert InapplicableParts(x[1..]) == l[2..] && InapplicableParts(y[1..]) == r[2..];
      InapplicablePartsInjective(x[1..], y[1..]);
      assert x == [x[0]] + x[1..] && y == [y[0]] + y[1..];
    }
  }

  lemma HeadsAgree(a: seq<Charge>, p: seq<string>, b: seq<Charge>, q: seq<string>)
    requires a != [] && b != [] && Readable(a) && Readable(b)
    requires RowsParts(a) + p == RowsParts(b) + q
    ensures a[0] == b[0] && RowsParts(a[1..]) + p == RowsParts(b[1..]) + q
  {
    var x, y := RowParts(a[0]), RowParts(b[0]);
    var s, t := RowsParts(a[1..]), RowsParts(b[1..]);
    Regroup(x, s, p); Regroup(y, t, q);
    FirstRowDetermined(a[0], s + p, b[0], t + q);
  }

  /** Nine-part rows followed by two-part pairs: the marker tells them apart. */
  lemma {:induction false} BodyPartsInjective(a: seq<Charge>, x: seq<Basis>, b: seq<Charge>, y: seq<Basis>)
    requires Readable(a) && Readable(b) && ReadableBases(x) && ReadableBases(y)
    requires RowsParts(a) + InapplicableParts(x) == RowsParts(b) + InapplicableParts(y)
    ensures a == b && x == y
    decreases |a|
  {
    if a != [] && b != [] {
      HeadsAgree(a, InapplicableParts(x), b, InapplicableParts(y));
      BodyPartsInjective(a[1..], x, b[1..], y);
      assert a == [a[0]] + a[1..] && b == [b[0]] + b[1..];
    } else {
      NoRowsLeft(a, x, b, y);
      InapplicablePartsInjective(x, y);
    }
  }

  lemma NoRowsLeft(a: seq<Charge>, x: seq<Basis>, b: seq<Charge>, y: seq<Basis>)
    requires Readable(a) && Readable(b) && (a == [] || b == [])
    requires RowsParts(a) + InapplicableParts(x) == RowsParts(b) + InapplicableParts(y)
    ensures a == [] && b == [] && InapplicableParts(x) == InapplicableParts(y)
  {
    var p, q := InapplicableParts(x), InapplicableParts(y);
    assert [] + p == p && [] + q == q;
    if a != [] {
      MarkerIsNotARow(a, x, y);
    } else if b != [] {
      MarkerIsNotARow(b, y, x);
    }
  }

  lemma MarkerIsNotARow(rows: seq<Charge>, x: seq<Basis>, y: seq<Basis>)
    requires rows != [] && Readable(rows)
    ensures RowsParts(rows) + InapplicableParts(x) != InapplicableParts(y)
  {
    var l, r := RowsParts(rows) + InapplicableParts(x), InapplicableParts(y);
    assert l[0] == BasisText(rows[0].basis) && ReadableRow(rows[0]);
    NoBasisIsTheMarker(rows[0].basis);
    assert y != [] ==> r[0] == INAPPLICABLE;
  }

  /** A snapshot up to what its digest ignores: row order and currency case. */
  function Normal(s: Snapshot): Snapshot {
    s.(charges := Sort(ByBasis, s.charges), inapplicable := Sort(ByText, s.inapplicable),
       currency := ToUpper(s.currency), sha256 := "")
  }

  /** Snapshots with equal digest preimages are the same snapshot. */
  lemma PreimageDeterminesSnapshot(s: Snapshot, t: Snapshot)
    requires Readable(s.charges) && Readable(t.charges) && ReadableBases(s.inapplicable) && ReadableBases(t.inapplicable)
    requires Addressable(Parts(s)) && Addressable(Parts(t))
    requires FixedAll(Parts(s)) == FixedAll(Parts(t))
    ensures Normal(s) == Normal(t)
    ensures multiset(s.charges) == multiset(t.charges) && multiset(s.inapplicable) == multiset(t.inapplicable)
  {
    FixedAllInjective(Parts(s), Parts(t));
    var a, b := Parts(s), Parts(t);
    assert HeaderParts(s) == a[..11] && HeaderParts(t) == b[..11];
    HeaderDetermines(s, t);
    SortPermutes(ByBasis, s.charges); SortPermutes(ByBasis, t.charges);
    SortPermutes(ByText, s.inapplicable); SortPermutes(ByText, t.inapplicable);
    assert RowsParts(Sort(ByBasis, s.charges)) + InapplicableParts(Sort(ByText, s.inapplicable)) == a[11..];
    assert RowsParts(Sort(ByBasis, t.charges)) + InapplicableParts(Sort(ByText, t.inapplicable)) == b[11..];
    BodyPartsInjective(Sort(ByBasis, s.charges), Sort(ByText, s.inapplicable),
                       Sort(ByBasis, t.charges), Sort(ByText, t.inapplicable));
  }

  lemma HeaderDetermines(s: Snapshot, t: Snapshot)
    requires HeaderParts(s) == HeaderParts(t)
    ensures Normal(s).(charges := [], inapplicable := []) == Normal(t).(charges := [], inapplicable := [])
  {
    var a, b := HeaderParts(s), HeaderParts(t);
    assert a[1] == b[1] && a[2] == b[2] && a[3] == b[3] && a[4] == b[4] && a[5] == b[5];
    assert a[6] == b[6] && a[7] == b[7] && a[8] == b[8] && a[9] == b[9] && a[10] == b[10];
    DecimalIntInjective(s.generation, t.generation);
    DecimalIntInjective(s.observedAt, t.observedAt);
    DecimalIntInjective(s.validUntil, t.validUntil);
  }

  /** The digest ignores row order when no basis is priced twice. */
  lemma DigestForgetsRowOrder(hash: string -> Digest, s: Snapshot, t: Snapshot)
    requires UniqueBases(s.charges) && Readable(s.charges) && ReadableBases(s.inapplicable)
    requires multiset(s.charges) == multiset(t.charges) && multiset(s.inapplicable) == multiset(t.inapplicable)
    requires s.(charges := [], inapplicable := []) == t.(charges := [], inapplicable := [])
    ensures SnapshotDigest(hash, s) == SnapshotDigest(hash, t)
  {
    BasisOrders();
    forall x, y | x in s.charges && y in s.charges && ByBasis(x, y) && ByBasis(y, x) ensures x == y {
      LexTotal(BasisText(x.basis), BasisText(y.basis));
      BasisTextInjective(x.basis, y.basis);
      var i :| 0 <= i < |s.charges| && s.charges[i] == x;
      var j :| 0 <= j < |s.charges| && s.charges[j] == y;
    }
    forall x, y | x in s.inapplicable && y in s.inapplicable && ByText(x, y) && ByText(y, x) ensures x == y {
      LexTotal(BasisText(x), BasisText(y));
      BasisTextInjective(x, y);
    }
    SortForgetsOrder(ByBasis, s.charges, t.charges);
    SortForgetsOrder(ByText, s.inapplicable, t.inapplicable);
  }

  lemma BasisOrders()
    ensures TotalPreorder(ByBasis) && TotalPreorder(ByText)
  {
    LexOrders();
  }
}
