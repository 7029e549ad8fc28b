/** Merging findings that share a key and adding up their requests. */
module FindingTally {
  import opened Integers
  import opened Orders
  import opened Sequences

  datatype Severity = Info | Warning | Critical

  datatype Finding = Finding(
    severity: Severity, message: string, namespace: string, application: string, model: string, provider: string,
    zone: string, requests: int64)

  /** The keys of `fs` in the order they first occur. */
  function FirstKeys(key: Finding -> string, fs: seq<Finding>): seq<string>
    decreases |fs|
  {
    if fs == [] then []
    else
      var keys := FirstKeys(key, Front(fs));
      if key(Last(fs)) in keys then keys else keys + [key(Last(fs))]
  }

  /** The first finding with key `k`. */
  function FirstWith(key: Finding -> string, fs: seq<Finding>, k: string): (f: Finding)
    requires k in FirstKeys(key, fs)
    ensures f in fs && key(f) == k
    decreases |fs|
  {
    if k in FirstKeys(key, Front(fs)) then FirstWith(key, Front(fs), k) else Last(fs)
  }

  /** The requests of all findings with key `k`. */
  function Total(key: Finding -> string, fs: seq<Finding>, k: string): int
    decreases |fs|
  {
    if fs == [] then 0 else Total(key, Front(fs), k) + (if key(Last(fs)) == k then Last(fs).requests else 0)
  }

  /** The first finding with key `k`, standing for all of them. */
  function Merged(key: Finding -> string, fs: seq<Finding>, k: string): Finding
    requires k in FirstKeys(key, fs)
  {
    FirstWith(key, fs, k).(requests := Wrap(Total(key, fs, k)))
  }

  /** One finding per key, in order of first occurrence. */
  function Summary(key: Finding -> string, fs: seq<Finding>): seq<Finding> {
    var keys := FirstKeys(key, fs);
    seq(|keys|, i requires 0 <= i < |keys| => Merged(key, fs, keys[i]))
  }

  lemma {:induction false} NoKeyNoTotal(key: Finding -> string, fs: seq<Finding>, k: string)
    requires k !in FirstKeys(key, fs)
    ensures Total(key, fs, k) == 0
  {
    if fs != [] { NoKeyNoTotal(key, Front(fs), k); }
  }

  lemma OneMoreKey(key: Finding -> string, fs: seq<Finding>, f: Finding)
    ensures FirstKeys(key, fs + [f]) ==
      if key(f) in FirstKeys(key, fs) then FirstKeys(key, fs) else FirstKeys(key, fs) + [key(f)]
  {
    assert Front(fs + [f]) == fs;
  }

  lemma OneMoreTotal(key: Finding -> string, fs: seq<Finding>, f: Finding, k: string)
    ensures Total(key, fs + [f], k) == Total(key, fs, k) + (if key(f) == k then f.requests else 0)
  {
    assert Front(fs + [f]) == fs;
  }

  lemma OneMoreFirst(key: Finding -> string, fs: seq<Finding>, f: Finding, k: string)
    requires k in FirstKeys(key, fs) || k == key(f)
    ensures k in FirstKeys(key, fs + [f])
    ensures FirstWith(key, fs + [f], k) == if k in FirstKeys(key, fs) then FirstWith(key, fs, k) else f
  {
    OneMoreKey(key, fs, f);
    assert Front(fs + [f]) == fs;
  }

  /** What one more finding changes: its own key and nothing else. */
  lemma OneMore(key: Finding -> string, fs: seq<Finding>, f: Finding, k: string)
    requires k in FirstKeys(key, fs) || k == key(f)
    ensures k in FirstKeys(key, fs + [f])
    ensures Merged(key, fs + [f], k) ==
      if k !in FirstKeys(key, fs) then f
      else if k == key(f) then Added(Merged(key, fs, k), f)
      else Merged(key, fs, k)
  {
    OneMoreFirst(key, fs, f, k);
    OneMoreTotal(key, fs, f, k);
    if k !in FirstKeys(key, fs) {
      NoKeyNoTotal(key, fs, k);
    } else if k == key(f) {
      WrapAbsorbs(Total(key, fs, k), f.requests);
    }
  }

  function Added(existing: Finding, f: Finding): Finding {
    existing.(requests := Wrap(existing.requests + f.requests))
  }

  /** The findings gathered so far, by key and in order of arrival. */
  class Tally {
    const key: Finding -> string
    var agg: map<string, Finding>
    var order: seq<string>
    ghost var added: seq<Finding>

    ghost predicate Valid()
      reads this
    {
      && order == FirstKeys(key, added)
      && (forall k :: k in agg <==> k in order)
      && (forall k | k in order :: agg[k] == Merged(key, added, k))
    }

    constructor (key: Finding -> string)
      ensures Valid() && added == [] && this.key == key
    {
      this.key := key;
      agg, order, added := map[], [], [];
    }

    method Add(f: Finding)
      requires Valid()
      modifies this
      ensures Valid() && added == old(added) + [f]
    {
      var k := key(f);
      OneMoreKey(key, added, f);
      forall other | other in order || other == k
        ensures other in FirstKeys(key, added + [f])
        ensures Merged(key, added + [f], other) ==
          if other !in order then f else if other == k then Added(agg[other], f) else agg[other]
      {
        OneMore(key, added, f, other);
      }
      if k in agg {
        agg := agg[k := Added(agg[k], f)];
      } else {
        agg := agg[k := f];
        order := order + [k];
      }
      added := added + [f];
    }

    method Findings() returns (found: seq<Finding>)
      requires Valid()
      ensures found == Summary(key, added)
    {
      found := [];
      for i := 0 to |order|
        invariant |found| == i && forall j | 0 <= j < i :: found[j] == Merged(key, added, order[j])
      {
        found := found + [agg[order[i]]];
      }
    }
  }

  // ---- each key once

  /** The key is read off everything but the request count. */
  ghost predicate IgnoresRequests(key: Finding -> string) {
    forall f: Finding, n: int64 :: key(f.(requests := n)) == key(f)
  }

  ghost predicate TellsSeverity(key: Finding -> string) {
    forall f: Finding, g: Finding :: key(f) == key(g) ==> f.severity == g.severity
  }

  lemma {:induction false} FirstKeysAreTheKeys(key: Finding -> string, fs: seq<Finding>)
    ensures Distinct(FirstKeys(key, fs))
    ensures forall k :: k in FirstKeys(key, fs) <==> exists f :: f in fs && key(f) == k
  {
    if fs != [] {
      FirstKeysAreTheKeys(key, Front(fs));
      FrontLast(fs);
      forall k ensures k in FirstKeys(key, fs) <==> exists f :: f in fs && key(f) == k {
        if k in FirstKeys(key, fs) { assert FirstWith(key, fs, k) in fs; }
      }
    }
  }

  /** The summary has the keys of the findings, each exactly once. */
  lemma SummaryKeys(key: Finding -> string, fs: seq<Finding>)
    requires IgnoresRequests(key)
    ensures MapSeq(key, Summary(key, fs)) == FirstKeys(key, fs)
    ensures Distinct(MapSeq(key, Summary(key, fs)))
    ensures forall k :: k in MapSeq(key, Summary(key, fs)) <==> exists f :: f in fs && key(f) == k
  {
    FirstKeysAreTheKeys(key, fs);
    forall i | 0 <= i < |FirstKeys(key, fs)| ensures key(Summary(key, fs)[i]) == FirstKeys(key, fs)[i] {
      var f := FirstWith(key, fs, FirstKeys(key, fs)[i]);
      assert key(f.(requests := Wrap(Total(key, fs, key(f))))) == key(f);
    }
  }

  /** The summary has a finding for every key, carrying the total of that key. */
  lemma StandsFor(key: Finding -> string, fs: seq<Finding>, v: Finding) returns (r: Finding)
    requires IgnoresRequests(key) && v in fs
    ensures r in Summary(key, fs) && key(r) == key(v) && r.requests == Wrap(Total(key, fs, key(v)))
  {
    SummaryKeys(key, fs);
    var keys := MapSeq(key, Summary(key, fs));
    assert key(v) in keys;
    var i :| 0 <= i < |keys| && keys[i] == key(v);
    r := Summary(key, fs)[i];
  }

  /** Whatever is in the summary stands for a finding that was added. */
  lemma StoodFor(key: Finding -> string, fs: seq<Finding>, r: Finding) returns (v: Finding)
    requires IgnoresRequests(key) && r in Summary(key, fs)
    ensures v in fs && key(r) == key(v) && r == v.(requests := Wrap(Total(key, fs, key(v))))
  {
    var i :| 0 <= i < |Summary(key, fs)| && Summary(key, fs)[i] == r;
    v := FirstWith(key, fs, FirstKeys(key, fs)[i]);
    assert key(v.(requests := r.requests)) == key(v);
  }

  // ---- conservation

  function AmountAt(severity: Severity): Finding -> int {
    (f: Finding) => if f.severity == severity then f.requests else 0
  }

  /** The requests reported at a severity. */
  function Volume(severity: Severity, fs: seq<Finding>): int { SumOf(MapSeq(AmountAt(severity), fs)) }

  lemma VolumeSplits(severity: Severity, a: seq<Finding>, b: seq<Finding>)
    ensures Volume(severity, a + b) == Volume(severity, a) + Volume(severity, b)
  {
    var amount := AmountAt(severity);
    assert MapSeq(amount, a + b) == MapSeq(amount, a) + MapSeq(amount, b);
    SumSplits(MapSeq(amount, a), MapSeq(amount, b));
  }

  lemma VolumeOfOne(severity: Severity, f: Finding)
    ensures Volume(severity, [f]) == if f.severity == severity then f.requests else 0
  {
    var amount := AmountAt(severity)(f);
    assert MapSeq(AmountAt(severity), [f]) == [amount];
    SumOfOne(amount);
  }

  /** The share of key `k` in the volume at a severity. */
  function Part(key: Finding -> string, fs: seq<Finding>, k: string, severity: Severity): int
    decreases |fs|
  {
    if fs == [] then 0
    else
      var f := Last(fs);
      Part(key, Front(fs), k, severity) + if key(f) == k && f.severity == severity then f.requests else 0
  }

  function Parts(key: Finding -> string, fs: seq<Finding>, keys: seq<string>, severity: Severity): int
    decreases |keys|
  {
    if keys == [] then 0 else Parts(key, fs, Front(keys), severity) + Part(key, fs, Last(keys), severity)
  }

  lemma {:induction false} AbsentPart(key: Finding -> string, fs: seq<Finding>, k: string, severity: Severity)
    requires k !in FirstKeys(key, fs)
    ensures Part(key, fs, k, severity) == 0
    decreases |fs|
  {
    if fs != [] { AbsentPart(key, Front(fs), k, severity); }
  }

  /** One more finding adds to the share of its own key. */
  lemma {:induction false} PartsGrow(key: Finding -> string, fs: seq<Finding>, f: Finding, keys: seq<string>, severity: Severity)
    requires Distinct(keys)
    ensures Parts(key, fs + [f], keys, severity) == Parts(key, fs, keys, severity)
      + if key(f) in keys && f.severity == severity then f.requests else 0
    decreases |keys|
  {
    if keys != [] {
      PartsGrow(key, fs, f, Front(keys), severity);
      FrontLast(keys);
      assert Front(fs + [f]) == fs;
    }
  }

  lemma {:induction false} PartsAddUp(key: Finding -> string, fs: seq<Finding>, severity: Severity)
    ensures Parts(key, fs, FirstKeys(key, fs), severity) == Volume(severity, fs)
    decreases |fs|
  {
    if fs != [] {
      var done, f := Front(fs), Last(fs);
      FrontLast(fs);
      var keys, k := FirstKeys(key, done), key(f);
      PartsAddUp(key, done, severity);
      FirstKeysAreTheKeys(key, done);
      PartsGrow(key, done, f, keys, severity);
      VolumeSplits(severity, done, [f]); VolumeOfOne(severity, f);
      if k !in keys {
        AbsentPart(key, done, k, severity);
        assert Front(keys + [k]) == keys && Front(done + [f]) == done;
      }
    }
  }

  /** When the key tells the severity, a key has one share only. */
  lemma {:induction false} PartIsTotal(key: Finding -> string, fs: seq<Finding>, f: Finding, severity: Severity)
    requires TellsSeverity(key)
    ensures Part(key, fs, key(f), severity) == if f.severity == severity then Total(key, fs, key(f)) else 0
    decreases |fs|
  {
    if fs != [] { PartIsTotal(key, Front(fs), f, severity); }
  }

  function MergedAll(key: Finding -> string, fs: seq<Finding>, keys: seq<string>): seq<Finding>
    requires forall k | k in keys :: k in FirstKeys(key, fs)
  {
    seq(|keys|, i requires 0 <= i < |keys| => Merged(key, fs, keys[i]))
  }

  /** No key's total leaves int64. */
  ghost predicate TotalsFit(key: Finding -> string, fs: seq<Finding>) {
    forall k :: -MAX_INT64 - 1 <= Total(key, fs, k) <= MAX_INT64
  }

  lemma {:induction false} MergedVolume(key: Finding -> string, fs: seq<Finding>, keys: seq<string>, severity: Severity)
    requires TellsSeverity(key) && forall k | k in keys :: k in FirstKeys(key, fs)
    ensures Congruent(Volume(severity, MergedAll(key, fs, keys)), Parts(key, fs, keys, severity))
    ensures TotalsFit(key, fs) ==> Volume(severity, MergedAll(key, fs, keys)) == Parts(key, fs, keys, severity)
    decreases |keys|
  {
    if keys != [] {
      var k := Last(keys);
      var m := Merged(key, fs, k);
      MergedVolume(key, fs, Front(keys), severity);
      assert MergedAll(key, fs, keys) == MergedAll(key, fs, Front(keys)) + [m];
      VolumeSplits(severity, MergedAll(key, fs, Front(keys)), [m]); VolumeOfOne(severity, m);
      PartIsTotal(key, fs, FirstWith(key, fs, k), severity);
      CongruentAdds(Volume(severity, MergedAll(key, fs, Front(keys))), Parts(key, fs, Front(keys), severity),
                    Volume(severity, [m]), Part(key, fs, k, severity));
    }
  }

  /** Merging neither loses nor double-counts a request at any severity: the counts
      add up modulo 2^64, and exactly unless a total left int64. */
  lemma SummaryConserves(key: Finding -> string, fs: seq<Finding>, severity: Severity)
    requires TellsSeverity(key)
    ensures Congruent(Volume(severity, Summary(key, fs)), Volume(severity, fs))
    ensures TotalsFit(key, fs) ==> Volume(severity, Summary(key, fs)) == Volume(severity, fs)
  {
    MergedVolume(key, fs, FirstKeys(key, fs), severity);
    assert MergedAll(key, fs, FirstKeys(key, fs)) == Summary(key, fs);
    PartsAddUp(key, fs, severity);
  }

  ghost predicate NoneNegative(fs: seq<Finding>) { forall f | f in fs :: f.requests >= 0 }

  lemma {:induction false} TotalNonNegative(key: Finding -> string, fs: seq<Finding>, k: string)
    requires NoneNegative(fs)
    ensures Total(key, fs, k) >= 0
    decreases |fs|
  {
    if fs != [] {
      FrontLast(fs);
      assert Last(fs) in fs;
      TotalNonNegative(key, Front(fs), k);
    }
  }

  /** No key of this severity has a total beyond int64. */
  ghost predicate FitsAt(key: Finding -> string, fs: seq<Finding>, keys: seq<string>, severity: Severity)
    requires forall k | k in keys :: k in FirstKeys(key, fs)
  {
    forall k | k in keys && FirstWith(key, fs, k).severity == severity :: Total(key, fs, k) <= MAX_INT64
  }

  /** An overflowing total can only lose volume, so nothing makes up for it. */
  lemma {:induction false} MergedVolumeExactly(key: Finding -> string, fs: seq<Finding>, keys: seq<string>, severity: Severity)
    requires TellsSeverity(key) && NoneNegative(fs) && forall k | k in keys :: k in FirstKeys(key, fs)
    ensures Volume(severity, MergedAll(key, fs, keys)) <= Parts(key, fs, keys, severity)
    ensures Volume(severity, MergedAll(key, fs, keys)) == Parts(key, fs, keys, severity) <==> FitsAt(key, fs, keys, severity)
    decreases |keys|
  {
    if keys != [] {
      var k := Last(keys);
      var m := Merged(key, fs, k);
      MergedVolumeExactly(key, fs, Front(keys), severity);
      FrontLast(keys);
      assert MergedAll(key, fs, keys) == MergedAll(key, fs, Front(keys)) + [m];
      VolumeSplits(severity, MergedAll(key, fs, Front(keys)), [m]); VolumeOfOne(severity, m);
      PartIsTotal(key, fs, FirstWith(key, fs, k), severity);
      TotalNonNegative(key, fs, k);
      WrapLoses(Total(key, fs, k));
      FitsAtLast(key, fs, keys, severity);
    }
  }

  lemma FitsAtLast(key: Finding -> string, fs: seq<Finding>, keys: seq<string>, severity: Severity)
    requires keys != [] && forall k | k in keys :: k in FirstKeys(key, fs)
    ensures FitsAt(key, fs, keys, severity) <==>
      && FitsAt(key, fs, Front(keys), severity)
      && (FirstWith(key, fs, Last(keys)).severity == severity ==> Total(key, fs, Last(keys)) <= MAX_INT64)
  {
    FrontLast(keys);
    assert Last(keys) in keys && forall k | k in keys :: k in Front(keys) || k == Last(keys);
  }

  ghost predicate KeysFit(key: Finding -> string, fs: seq<Finding>) {
    forall k | k in FirstKeys(key, fs) :: Total(key, fs, k) <= MAX_INT64
  }

  lemma TotalsFitKeys(key: Finding -> string, fs: seq<Finding>)
    requires NoneNegative(fs)
    ensures TotalsFit(key, fs) <==> KeysFit(key, fs)
  {
    forall k ensures 0 <= Total(key, fs, k) && (k in FirstKeys(key, fs) || Total(key, fs, k) == 0) {
      TotalNonNegative(key, fs, k);
      if k !in FirstKeys(key, fs) { NoKeyNoTotal(key, fs, k); }
    }
  }

  ghost predicate SeverityFits(key: Finding -> string, fs: seq<Finding>, severity: Severity) {
    FitsAt(key, fs, FirstKeys(key, fs), severity)
  }

  lemma KeysFitAt(key: Finding -> string, fs: seq<Finding>)
    ensures KeysFit(key, fs) <==> forall severity :: SeverityFits(key, fs, severity)
  {
    if forall severity :: SeverityFits(key, fs, severity) {
      forall k | k in FirstKeys(key, fs) ensures Total(key, fs, k) <= MAX_INT64 {
        assert SeverityFits(key, fs, FirstWith(key, fs, k).severity);
      }
    }
  }

  /** With no negative count the summary is exact at every severity exactly when no
      total leaves int64. */
  lemma SummaryExactlyWhen(key: Finding -> string, fs: seq<Finding>)
    requires TellsSeverity(key) && NoneNegative(fs)
    ensures (forall severity :: Volume(severity, Summary(key, fs)) == Volume(severity, fs)) <==> TotalsFit(key, fs)
  {
    TotalsFitKeys(key, fs); KeysFitAt(key, fs);
    assert MergedAll(key, fs, FirstKeys(key, fs)) == Summary(key, fs);
    forall severity
      ensures Volume(severity, Summary(key, fs)) == Volume(severity, fs) <==> SeverityFits(key, fs, severity)
    {
      MergedVolumeExactly(key, fs, FirstKeys(key, fs), severity);
      PartsAddUp(key, fs, severity);
    }
  }

  /** Reordering the report leaves its volumes alone. */
  lemma VolumeSorted(severity: Severity, le: (Finding, Finding) -> bool, fs: seq<Finding>)
    ensures Volume(severity, Sort(le, fs)) == Volume(severity, fs)
  {
    SortKeepsImage(AmountAt(severity), le, fs);
    SumPermutes(MapSeq(AmountAt(severity), Sort(le, fs)), MapSeq(AmountAt(severity), fs));
  }

  // ---- order of arrival

  function AmountWith(key: Finding -> string, k: string): Finding -> int {
    (f: Finding) => if key(f) == k then f.requests else 0
  }

  lemma {:induction false} TotalIsSum(key: Finding -> string, fs: seq<Finding>, k: string)
    ensures Total(key, fs, k) == SumOf(MapSeq(AmountWith(key, k), fs))
    decreases |fs|
  {
    if fs != [] {
      TotalIsSum(key, Front(fs), k);
      FrontLast(fs);
      SumImageOneMore(AmountWith(key, k), Front(fs), Last(fs));
    }
  }
}
