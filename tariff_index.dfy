/**
 * The tariff side of the analysis: preparing the tariff rows (month key,
 * normalised city, canonical provider, composite and simple tier, numeric
 * rate), the inclusive month-range filter, the two rate indexes keyed by
 * (month, city, tier, provider) and the two provider buckets keyed by
 * (month, city, tier).
 */
module TariffIndex {
  import opened Options
  import opened TextNorm
  import opened StrOrder
  import opened Tiers
  import opened ProviderMatch

  /**
   * One tariff row as fetched: every text cell as its string form (a missing
   * cell reads 'nan'), and the rate after numeric coercion (absent when the
   * cell is not a number).
   */
  datatype TariffRaw = TariffRaw(mes: string, provider: string, city: string, nivel: string, tarifa: Option<real>)

  /** A prepared tariff row. */
  datatype TariffRow = TariffRow(
    mesKey: string, city: string, provider: string, tarifa: real,
    comp: Option<string>, simp: Option<string>)

  /** (month, city, tier, provider), the key of both rate indexes. */
  type Key4 = (string, string, string, string)

  /** (month, city, tier), the key of both provider buckets. */
  type Key3 = (string, string, string)

  /** Which tier column an index or bucket is built on. */
  datatype Level = Comp | Simp

  /** `str[:7]`: the first seven characters, or the whole string when shorter. */
  function Take7(s: string): (r: string)
    ensures |r| <= 7 && r <= s
    ensures |s| >= 7 ==> |r| == 7
    ensures |s| < 7 ==> r == s
  {
    if |s| <= 7 then s else s[..7]
  }

  /** One row of `prep_tariffs`, given its numeric rate and the target list. */
  function PrepRow(x: TariffRaw, rate: real, targets: seq<string>): TariffRow {
    var nivelRaw := CleanSpace(Some(x.nivel));
    TariffRow(
      Take7(x.mes),
      NormText(Some(x.city)),
      CanonProvider(NormText(Some(x.provider)), targets),
      rate,
      CompTier(Some(nivelRaw)),
      SimpleTier(Some(nivelRaw)))
  }

  /** The prepared rows in order, rows without a numeric rate dropped. */
  function PrepRows(xs: seq<TariffRaw>, targets: seq<string>): seq<TariffRow> {
    if xs == [] then []
    else
      var rest := PrepRows(xs[1..], targets);
      match xs[0].tarifa
        case Some(rate) => [PrepRow(xs[0], rate, targets)] + rest
        case None => rest
  }

  /** `prep_tariffs`: the provider targets are the normalised distinct target names, longest first. */
  function PrepTariffs(xs: seq<TariffRaw>, rawTargets: seq<string>): seq<TariffRow> {
    PrepRows(xs, TargetList(rawTargets))
  }

  /** Row `r` is what raw row `x` prepares to. */
  predicate FromRaw(x: TariffRaw, targets: seq<string>, r: TariffRow) {
    x.tarifa.Some? && r == PrepRow(x, x.tarifa.value, targets)
  }

  /**
   * A prepared row comes from a raw row with a numeric rate, carrying that
   * rate, and every raw row with a numeric rate gives one.
   */
  lemma {:induction false} PrepRowsSpec(xs: seq<TariffRaw>, targets: seq<string>)
    ensures forall r :: r in PrepRows(xs, targets) <==> exists k :: 0 <= k < |xs| && FromRaw(xs[k], targets, r)
    ensures |PrepRows(xs, targets)| <= |xs|
  {
    if xs != [] {
      var rest := PrepRows(xs[1..], targets);
      PrepRowsSpec(xs[1..], targets);
      assert forall k :: 0 < k < |xs| ==> xs[k] == xs[1..][k - 1];
      assert PrepRows(xs, targets) == if xs[0].tarifa.Some? then [PrepRow(xs[0], xs[0].tarifa.value, targets)] + rest else rest;
      forall r | r in PrepRows(xs, targets)
        ensures exists k :: 0 <= k < |xs| && FromRaw(xs[k], targets, r)
      {
        if r !in rest {
          assert FromRaw(xs[0], targets, r);
        }
      }
      forall r, k | 0 <= k < |xs| && FromRaw(xs[k], targets, r)
        ensures r in PrepRows(xs, targets)
      {
        if k > 0 {
          assert FromRaw(xs[1..][k - 1], targets, r);
        }
      }
    }
  }

  /**
   * `dropna` keeps the prepared rows in the order of the raw rows, one per
   * raw row with a numeric rate: preparing a concatenation prepares each
   * part, and a single raw row gives its prepared row or nothing.
   */
  lemma PrepRowsConcat(a: seq<TariffRaw>, b: seq<TariffRaw>, targets: seq<string>)
    ensures PrepRows(a + b, targets) == PrepRows(a, targets) + PrepRows(b, targets)
    ensures forall x :: PrepRows([x], targets) == if x.tarifa.Some? then [PrepRow(x, x.tarifa.value, targets)] else []
  {
    PrepRowsAppend(a, b, targets);
    forall x ensures PrepRows([x], targets) == if x.tarifa.Some? then [PrepRow(x, x.tarifa.value, targets)] else [] {
      PrepRowsOne(x, targets);
    }
  }

  /** The concatenation case, by induction on the first part. */
  lemma {:induction false} PrepRowsAppend(a: seq<TariffRaw>, b: seq<TariffRaw>, targets: seq<string>)
    ensures PrepRows(a + b, targets) == PrepRows(a, targets) + PrepRows(b, targets)
  {
    if a == [] {
      assert a + b == b;
    } else {
      assert (a + b)[1..] == a[1..] + b;
      PrepRowsAppend(a[1..], b, targets);
    }
  }



  /** The one-element case. */
  lemma PrepRowsOne(x: TariffRaw, targets: seq<string>)
    ensures PrepRows([x], targets) == if x.tarifa.Some? then [PrepRow(x, x.tarifa.value, targets)] else []
  {
    assert [x][1..] == [];
  }

  /**
   * A prepared row has a month key of at most seven characters, normalised
   * city text, a provider that is its own normalised name or a target, and
   * a composite tier whose digit is the one of its simple tier.
   */
  lemma PrepRowSpec(x: TariffRaw, rate: real, targets: seq<string>)
    ensures var r := PrepRow(x, rate, targets);
      |r.mesKey| <= 7 && r.tarifa == rate &&
      WhitespaceNormal(r.city) &&
      (r.provider == NormText(Some(x.provider)) || r.provider in targets) &&
      (r.comp.Some? ==> r.simp.Some?)
  {
    CanonProviderSpec(NormText(Some(x.provider)), targets);
    CompTierDigit(Some(CleanSpace(Some(x.nivel))));
  }

  // ---------------------------------------------------------------------
  // Month range
  // ---------------------------------------------------------------------

  predicate InRange(r: TariffRow, start: string, end: string) {
    StrLe(start, r.mesKey) && StrLe(r.mesKey, end)
  }

  /** The rows whose month key lies in [start, end], compared as strings; order kept. */
  function FilterRange(rows: seq<TariffRow>, start: string, end: string): (r: seq<TariffRow>)
    ensures forall x :: x in r <==> x in rows && InRange(x, start, end)
    ensures |r| <= |rows|
  {
    if rows == [] then []
    else
      var rest := FilterRange(rows[1..], start, end);
      assert rows == [rows[0]] + rows[1..];
      if InRange(rows[0], start, end) then [rows[0]] + rest else rest
  }

  /**
   * The boolean mask keeps rows in order and duplicates as they are:
   * filtering a concatenation filters each part, and a single row is kept
   * exactly when its month is in range.
   */
  lemma FilterRangeConcat(a: seq<TariffRow>, b: seq<TariffRow>, start: string, end: string)
    ensures FilterRange(a + b, start, end) == FilterRange(a, start, end) + FilterRange(b, start, end)
    ensures forall x :: FilterRange([x], start, end) == if InRange(x, start, end) then [x] else []
  {
    FilterRangeAppend(a, b, start, end);
    forall x ensures FilterRange([x], start, end) == if InRange(x, start, end) then [x] else [] {
      FilterRangeOne(x, start, end);
    }
  }

  /** The concatenation case, by induction on the first part. */
  lemma {:induction false} FilterRangeAppend(a: seq<TariffRow>, b: seq<TariffRow>, start: string, end: string)
    ensures FilterRange(a + b, start, end) == FilterRange(a, start, end) + FilterRange(b, start, end)
  {
    if a == [] {
      assert a + b == b;
    } else {
      assert (a + b)[1..] == a[1..] + b;
      FilterRangeAppend(a[1..], b, start, end);
    }
  }



  /** The one-element case. */
  lemma FilterRangeOne(x: TariffRow, start: string, end: string)
    ensures FilterRange([x], start, end) == if InRange(x, start, end) then [x] else []
  {
    assert [x][1..] == [];
  }

  /** Both boundary months are kept. */
  lemma RangeBoundsIncluded(r: TariffRow, start: string, end: string)
    requires StrLe(start, end)
    requires r.mesKey == start || r.mesKey == end
    ensures InRange(r, start, end)
  {
  }

  /** Filtering twice with the same bounds changes nothing. */
  lemma {:induction false} FilterRangeIdempotent(rows: seq<TariffRow>, start: string, end: string)
    ensures FilterRange(FilterRange(rows, start, end), start, end) == FilterRange(rows, start, end)
  {
    if rows != [] {
      FilterRangeIdempotent(rows[1..], start, end);
    }
  }

  /** `meses_disponibles`: the distinct month keys of the rows, sorted. */
  method Months(rows: seq<TariffRow>) returns (ms: seq<string>)
    ensures StrictlySorted(ms)
    ensures forall m :: m in ms <==> exists i :: 0 <= i < |rows| && rows[i].mesKey == m
  {
    var keys: set<string> := {};
    var i := 0;
    while i < |rows|
      invariant 0 <= i <= |rows|
      invariant forall m :: m in keys <==> exists j :: 0 <= j < i && rows[j].mesKey == m
    {
      keys := keys + {rows[i].mesKey};
      i := i + 1;
    }
    ms := SortStrings(keys);
  }

  // ---------------------------------------------------------------------
  // Indexes and buckets
  // ---------------------------------------------------------------------

  function LevelOf(r: TariffRow, lvl: Level): Option<string> {
    match lvl
      case Comp => r.comp
      case Simp => r.simp
  }

  function KeyOf(r: TariffRow, tier: string): Key4 {
    (r.mesKey, r.city, tier, r.provider)
  }

  /** `build_index_comp` / `build_index_simple` as a value: rows in order, a later row overwriting. */
  function IndexOf(rows: seq<TariffRow>, lvl: Level): map<Key4, real>
    decreases |rows|
  {
    if rows == [] then map[]
    else
      var prev := IndexOf(rows[..|rows| - 1], lvl);
      var r := rows[|rows| - 1];
      match LevelOf(r, lvl)
        case Some(t) => prev[KeyOf(r, t) := r.tarifa]
        case None => prev
  }

  /** Whether row i of `rows` carries a tier on `lvl` and has key `k`. */
  predicate RowHasKey(rows: seq<TariffRow>, lvl: Level, i: int, k: Key4) {
    0 <= i < |rows| && LevelOf(rows[i], lvl).Some? && KeyOf(rows[i], LevelOf(rows[i], lvl).value) == k
  }

  /** `build_index_comp` / `build_index_simple`. */
  method BuildIndex(rows: seq<TariffRow>, lvl: Level) returns (idx: map<Key4, real>)
    ensures idx == IndexOf(rows, lvl)
  {
    idx := map[];
    var i := 0;
    while i < |rows|
      invariant 0 <= i <= |rows|
      invariant idx == IndexOf(rows[..i], lvl)
    {
      var r := rows[i];
      assert rows[..i + 1][..i] == rows[..i];
      match LevelOf(r, lvl) {
        case Some(t) => idx := idx[KeyOf(r, t) := r.tarifa];
        case None =>
      }
      i := i + 1;
    }
    assert rows[..|rows|] == rows;
  }

  /** The index has a key exactly when some row with a tier on that level has it. */
  lemma {:induction false} IndexKeys(rows: seq<TariffRow>, lvl: Level, k: Key4)
    ensures k in IndexOf(rows, lvl) <==> exists i :: RowHasKey(rows, lvl, i, k)
    decreases |rows|
  {
    if rows != [] {
      var init := rows[..|rows| - 1];
      var last := |rows| - 1;
      IndexKeys(init, lvl, k);
      InitRows(rows, lvl, k);
      if RowHasKey(rows, lvl, last, k) {
        assert k in IndexOf(rows, lvl);
      } else {
        assert k in IndexOf(rows, lvl) <==> k in IndexOf(init, lvl);
        if exists i :: RowHasKey(rows, lvl, i, k) {
          var i :| RowHasKey(rows, lvl, i, k);
          assert RowHasKey(init, lvl, i, k);
        }
        if k in IndexOf(init, lvl) {
          var i :| RowHasKey(init, lvl, i, k);
          assert RowHasKey(rows, lvl, i, k);
        }
      }
    }
  }

  /** A row of the prefix without the last row is a row of the whole sequence. */
  lemma InitRows(rows: seq<TariffRow>, lvl: Level, k: Key4)
    requires rows != []
    ensures forall i :: RowHasKey(rows[..|rows| - 1], lvl, i, k) <==> 0 <= i < |rows| - 1 && RowHasKey(rows, lvl, i, k)
  {
    var init := rows[..|rows| - 1];
    forall i
      ensures RowHasKey(init, lvl, i, k) <==> 0 <= i < |rows| - 1 && RowHasKey(rows, lvl, i, k)
    {
      if 0 <= i < |rows| - 1 {
        assert rows[i] == init[i];
      }
    }
  }

  /** Row i is the last row with a tier on that level and key `k`. */
  predicate LastRowWithKey(rows: seq<TariffRow>, lvl: Level, i: int, k: Key4) {
    RowHasKey(rows, lvl, i, k) && forall j :: i < j < |rows| ==> !RowHasKey(rows, lvl, j, k)
  }

  /** The rate stored under a key is the one of the last row with that key. */
  lemma {:induction false} IndexLastWins(rows: seq<TariffRow>, lvl: Level, k: Key4, i: int)
    requires RowHasKey(rows, lvl, i, k)
    requires forall j :: i < j < |rows| ==> !RowHasKey(rows, lvl, j, k)
    ensures k in IndexOf(rows, lvl) && IndexOf(rows, lvl)[k] == rows[i].tarifa
    decreases |rows|
  {
    var last := |rows| - 1;
    if i < last {
      var init := rows[..last];
      InitRows(rows, lvl, k);
      assert !RowHasKey(rows, lvl, last, k);
      assert RowHasKey(init, lvl, i, k);
      forall j | i < j < |init| ensures !RowHasKey(init, lvl, j, k) {
        assert !RowHasKey(rows, lvl, j, k);
      }
      IndexLastWins(init, lvl, k, i);
    }
  }

  /** Every row with a tier on that level has its key in the index. */
  lemma IndexHasEveryRow(rows: seq<TariffRow>, lvl: Level, i: int)
    requires 0 <= i < |rows| && LevelOf(rows[i], lvl).Some?
    ensures KeyOf(rows[i], LevelOf(rows[i], lvl).value) in IndexOf(rows, lvl)
  {
    IndexKeys(rows, lvl, KeyOf(rows[i], LevelOf(rows[i], lvl).value));
    assert RowHasKey(rows, lvl, i, KeyOf(rows[i], LevelOf(rows[i], lvl).value));
  }

  /** The provider sets of `build_bucket` before sorting. */
  function BucketSets(rows: seq<TariffRow>, lvl: Level): map<Key3, set<string>>
    decreases |rows|
  {
    if rows == [] then map[]
    else
      var prev := BucketSets(rows[..|rows| - 1], lvl);
      var r := rows[|rows| - 1];
      match LevelOf(r, lvl)
        case Some(t) =>
          var k := (r.mesKey, r.city, t);
          prev[k := (if k in prev then prev[k] else {}) + {r.provider}]
        case None => prev
  }

  /**
   * The bucket and the index agree: provider p is in the bucket of
   * (m, c, l) exactly when (m, c, l, p) is a key of the index.
   */
  lemma {:induction false} BucketIndexAgree(rows: seq<TariffRow>, lvl: Level, m: string, c: string, l: string, p: string)
    ensures (m, c, l) in BucketSets(rows, lvl) && p in BucketSets(rows, lvl)[(m, c, l)] <==>
      (m, c, l, p) in IndexOf(rows, lvl)
    ensures (m, c, l) in BucketSets(rows, lvl) ==> BucketSets(rows, lvl)[(m, c, l)] != {}
    decreases |rows|
  {
    if rows != [] {
      BucketIndexAgree(rows[..|rows| - 1], lvl, m, c, l, p);
      var r := rows[|rows| - 1];
      if LevelOf(r, lvl).Some? && (r.mesKey, r.city, LevelOf(r, lvl).value) == (m, c, l) && r.provider != p {
        BucketIndexAgree(rows[..|rows| - 1], lvl, m, c, l, r.provider);
      }
    }
  }

  /** A bucket key is present exactly when some index key extends it. */
  lemma BucketKeys(rows: seq<TariffRow>, lvl: Level, m: string, c: string, l: string)
    ensures (m, c, l) in BucketSets(rows, lvl) <==> exists p :: (m, c, l, p) in IndexOf(rows, lvl)
  {
    if (m, c, l) in BucketSets(rows, lvl) {
      BucketIndexAgree(rows, lvl, m, c, l, "");
      var p :| p in BucketSets(rows, lvl)[(m, c, l)];
      BucketIndexAgree(rows, lvl, m, c, l, p);
    }
    if exists p :: (m, c, l, p) in IndexOf(rows, lvl) {
      var p :| (m, c, l, p) in IndexOf(rows, lvl);
      BucketIndexAgree(rows, lvl, m, c, l, p);
    }
  }

  /** `build_bucket`: the provider sets, then each sorted. */
  method BuildBucket(rows: seq<TariffRow>, lvl: Level) returns (bucket: map<Key3, seq<string>>)
    ensures forall k :: k in bucket <==> k in BucketSets(rows, lvl)
    ensures forall k :: k in bucket ==>
      StrictlySorted(bucket[k]) && forall p :: p in bucket[k] <==> p in BucketSets(rows, lvl)[k]
  {
    var sets := CollectProviders(rows, lvl);
    bucket := SortBuckets(sets);
  }

  /** The first loop of `build_bucket`: the set of providers under each month, city and tier. */
  method CollectProviders(rows: seq<TariffRow>, lvl: Level) returns (sets: map<Key3, set<string>>)
    ensures sets == BucketSets(rows, lvl)
  {
    sets := map[];
    var i := 0;
    while i < |rows|
      invariant 0 <= i <= |rows|
      invariant sets == BucketSets(rows[..i], lvl)
    {
      var r := rows[i];
      assert rows[..i + 1][..i] == rows[..i];
      match LevelOf(r, lvl) {
        case Some(t) =>
          var k := (r.mesKey, r.city, t);
          var old_ := if k in sets then sets[k] else {};
          sets := sets[k := old_ + {r.provider}];
        case None =>
      }
      i := i + 1;
    }
    assert rows[..|rows|] == rows;
  }

  /** The second loop of `build_bucket`: every provider set becomes its sorted list. */
  method SortBuckets(sets: map<Key3, set<string>>) returns (bucket: map<Key3, seq<string>>)
    ensures forall k :: k in bucket <==> k in sets
    ensures forall k :: k in bucket ==>
      StrictlySorted(bucket[k]) && forall p :: p in bucket[k] <==> p in sets[k]
  {
    bucket := map[];
    var todo := sets.Keys;
    while todo != {}
      invariant todo <= sets.Keys
      invariant forall k :: k in bucket <==> k in sets.Keys && k !in todo
      invariant forall k :: k in bucket ==>
        StrictlySorted(bucket[k]) && forall p :: p in bucket[k] <==> p in sets[k]
      decreases |todo|
    {
      var k :| k in todo;
      var sorted := SortStrings(sets[k]);
      bucket := bucket[k := sorted];
      todo := todo - {k};
    }
  }

  /**
   * `bucket` is what `build_bucket` gives for these rows: a list under
   * exactly the keys of the provider sets, each the strictly sorted list of
   * that set's providers.
   */
  ghost predicate BucketBuilt(rows: seq<TariffRow>, lvl: Level, bucket: map<Key3, seq<string>>) {
    && (forall k :: k in bucket <==> k in BucketSets(rows, lvl))
    && (forall k :: k in bucket ==>
          StrictlySorted(bucket[k]) && forall p :: p in bucket[k] <==> p in BucketSets(rows, lvl)[k])
  }

  /** Every provider listed in a bucket has its key in the index. */
  predicate BucketSound(idx: map<Key4, real>, bucket: map<Key3, seq<string>>) {
    forall k, p :: k in bucket && p in bucket[k] ==> (k.0, k.1, k.2, p) in idx
  }

  /** Every index key has its provider listed in the bucket of its first three parts. */
  predicate BucketComplete(idx: map<Key4, real>, bucket: map<Key3, seq<string>>) {
    forall k :: k in idx ==> (k.0, k.1, k.2) in bucket && k.3 in bucket[(k.0, k.1, k.2)]
  }

  /**
   * A bucket with the contents `BuildBucket` promises agrees with the index
   * built from the same rows, in both directions.
   */
  lemma BuiltBucketAgrees(rows: seq<TariffRow>, lvl: Level, bucket: map<Key3, seq<string>>)
    requires forall k :: k in bucket <==> k in BucketSets(rows, lvl)
    requires forall k :: k in bucket ==> forall p :: p in bucket[k] <==> p in BucketSets(rows, lvl)[k]
    ensures BucketSound(IndexOf(rows, lvl), bucket)
    ensures BucketComplete(IndexOf(rows, lvl), bucket)
  {
    forall k: Key3, p | k in bucket && p in bucket[k]
      ensures (k.0, k.1, k.2, p) in IndexOf(rows, lvl)
    {
      BucketIndexAgree(rows, lvl, k.0, k.1, k.2, p);
    }
    forall k: Key4 | k in IndexOf(rows, lvl)
      ensures (k.0, k.1, k.2) in bucket && k.3 in bucket[(k.0, k.1, k.2)]
    {
      BucketIndexAgree(rows, lvl, k.0, k.1, k.2, k.3);
    }
  }

  // ---------------------------------------------------------------------
  // Range bounds
  // ---------------------------------------------------------------------

  /** `start = from.strip()[:7]`, and likewise for the end month. */
  function RangeBound(arg: string): (r: string)
    ensures |r| <= 7
  {
    Take7(Strip(arg))
  }

  /** A bound already in `YYYY-MM` form, with no surrounding space, is kept as is. */
  lemma RangeBoundKeeps(arg: string)
    requires |arg| <= 7
    requires |arg| > 0 ==> !IsSpace(arg[0]) && !IsSpace(arg[|arg| - 1])
    ensures RangeBound(arg) == arg
  {
  }
}
