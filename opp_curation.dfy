/**
 * The curation of the opportunity table into one nested record per
 * opportunity: forward-fill of the identity columns, grouping by
 * opportunity, per-group sums and first non-blank values, and one frontera
 * per row with its tier code.
 */
module OppCuration {
  import opened Options
  import opened TextNorm
  import opened StrOrder
  import opened Tiers

  /** A text cell of the table: missing (NaN), or the text `str()` gives for the value. */
  datatype Cell = Nan | Val(text: string)

  /**
   * One row of the opportunity table: the text columns, by position, and
   * the numeric columns, which loading has coerced to numbers with 0 for
   * anything unreadable.
   */
  datatype OppRow = OppRow(text: seq<Cell>, kwh: real, renting: real, opex: real, capex: real, tarifaB: real)

  // The text columns, all of them identity columns.
  const ColOpp := 0          // Oportunidad
  const ColCliente := 1      // Cliente
  const ColCuenta := 2       // Número de Cuenta
  const ColCiudad := 3       // Ciudad
  const ColCiiu := 4         // Ciiu
  const ColRegion := 5       // Region
  const ColNivel := 6        // Nivel Tension
  const ColPropiedad := 7    // Propiedad de Equipos
  const ColOperador := 8     // Operador de Red
  const ColComercial := 9    // Comercializador Actual
  const Width := 10

  /** Every row has all the text columns. */
  predicate WellFormed(rows: seq<OppRow>) {
    forall i :: 0 <= i < |rows| ==> |rows[i].text| == Width
  }

  // ---------------------------------------------------------------------
  // Forward fill
  // ---------------------------------------------------------------------

  /** `Series.ffill()`: each missing cell takes the filled value just before it. */
  function FFilled(xs: seq<Cell>): (r: seq<Cell>)
    ensures |r| == |xs|
    decreases |xs|
  {
    if xs == [] then []
    else
      var p := FFilled(xs[..|xs| - 1]);
      var x := xs[|xs| - 1];
      p + [if x == Nan && p != [] then p[|p| - 1] else x]
  }

  /** Filling a prefix gives the prefix of the filling. */
  lemma {:induction false} FFilledPrefix(xs: seq<Cell>, k: nat)
    requires k <= |xs|
    ensures FFilled(xs[..k]) == FFilled(xs)[..k]
    decreases |xs|
  {
    if k < |xs| {
      assert xs[..|xs| - 1][..k] == xs[..k];
      FFilledPrefix(xs[..|xs| - 1], k);
    } else {
      assert xs[..k] == xs;
    }
  }

  /** One step of the fill: a present cell stays, a missing one takes the previous filled cell. */
  lemma {:induction false} FFilledStep(xs: seq<Cell>, i: nat)
    requires i < |xs|
    ensures FFilled(xs)[i] == if xs[i] == Nan && i > 0 then FFilled(xs)[i - 1] else xs[i]
    decreases |xs|
  {
    var init := xs[..|xs| - 1];
    var p := FFilled(init);
    assert FFilled(xs)[..|p|] == p;
    if i < |xs| - 1 {
      FFilledStep(init, i);
      assert init[i] == xs[i];
    }
  }

  /**
   * A present cell is kept; a missing cell takes the nearest earlier
   * present cell, and stays missing when there is none.
   */
  lemma {:induction false} FFilledSpec(xs: seq<Cell>, i: nat)
    requires i < |xs|
    ensures xs[i] != Nan ==> FFilled(xs)[i] == xs[i]
    ensures FFilled(xs)[i] == Nan <==> forall j :: 0 <= j <= i ==> xs[j] == Nan
    ensures FFilled(xs)[i] != Nan ==>
      exists j :: 0 <= j <= i && xs[j] != Nan && FFilled(xs)[i] == xs[j] && forall q :: j < q <= i ==> xs[q] == Nan
  {
    FFilledStep(xs, i);
    if i > 0 && xs[i] == Nan {
      FFilledSpec(xs, i - 1);
      if FFilled(xs)[i] != Nan {
        var j :| 0 <= j <= i - 1 && xs[j] != Nan && FFilled(xs)[i - 1] == xs[j] && forall q :: j < q <= i - 1 ==> xs[q] == Nan;
        assert forall q :: j < q <= i ==> xs[q] == Nan;
      }
    }
  }

  /** Filling twice is filling once. */
  lemma FFilledIdempotent(xs: seq<Cell>)
    ensures FFilled(FFilled(xs)) == FFilled(xs)
  {
    var f := FFilled(xs);
    var ff := FFilled(f);
    forall i | 0 <= i < |xs| ensures ff[i] == f[i] {
      FFilledNoGap(xs, f, ff, i);
    }
  }

  lemma {:induction false} FFilledNoGap(xs: seq<Cell>, f: seq<Cell>, ff: seq<Cell>, i: nat)
    requires f == FFilled(xs) && ff == FFilled(f) && i < |xs|
    ensures ff[i] == f[i]
  {
    FFilledStep(f, i);
    FFilledStep(xs, i);
    if f[i] == Nan && i > 0 {
      FFilledNoGap(xs, f, ff, i - 1);
    }
  }

  /** Column `c` of the table. */
  function Column(rows: seq<OppRow>, c: nat): (col: seq<Cell>)
    requires WellFormed(rows) && c < Width
    ensures |col| == |rows|
    ensures forall i :: 0 <= i < |rows| ==> col[i] == rows[i].text[c]
  {
    if rows == [] then [] else Column(rows[..|rows| - 1], c) + [rows[|rows| - 1].text[c]]
  }

  /** Two tables of the same length that agree on column `c` have the same column `c`. */
  lemma ColumnsAgree(a: seq<OppRow>, b: seq<OppRow>, c: nat)
    requires WellFormed(a) && WellFormed(b) && c < Width && |a| == |b|
    requires forall j :: 0 <= j < |a| ==> a[j].text[c] == b[j].text[c]
    ensures Column(a, c) == Column(b, c)
  {
  }

  /** The numeric columns of two rows agree. */
  predicate SameNumbers(x: OppRow, y: OppRow) {
    x.kwh == y.kwh && x.renting == y.renting && x.opex == y.opex && x.capex == y.capex && x.tarifaB == y.tarifaB
  }

  /**
   * `cur` is `orig` with column `c` replaced by `ff` in its first `i`
   * rows; the later rows and the numeric columns are untouched.
   */
  predicate ColumnFilledTo(orig: seq<OppRow>, cur: seq<OppRow>, c: nat, ff: seq<Cell>, i: nat)
    requires WellFormed(orig) && c < Width && |ff| == |orig| && i <= |orig|
  {
    && |cur| == |orig|
    && (forall j :: 0 <= j < |orig| ==> SameNumbers(cur[j], orig[j]))
    && (forall j :: 0 <= j < i ==> cur[j].text == orig[j].text[c := ff[j]])
    && (forall j :: i <= j < |orig| ==> cur[j] == orig[j])
  }

  lemma ColumnFilledStep(orig: seq<OppRow>, cur: seq<OppRow>, c: nat, ff: seq<Cell>, i: nat)
    requires WellFormed(orig) && c < Width && |ff| == |orig| && i < |orig|
    requires ColumnFilledTo(orig, cur, c, ff, i)
    ensures ColumnFilledTo(orig, cur[i := cur[i].(text := cur[i].text[c := ff[i]])], c, ff, i + 1)
  {
  }

  /** `df[c] = df[c].ffill()` for one column, in place; the other columns are kept. */
  method ForwardFillColumn(rows: array<OppRow>, c: nat)
    requires WellFormed(rows[..]) && c < Width
    modifies rows
    ensures forall j :: 0 <= j < rows.Length ==> SameNumbers(rows[j], old(rows[j]))
    ensures forall j :: 0 <= j < rows.Length ==>
      rows[j].text == old(rows[j]).text[c := FFilled(Column(old(rows[..]), c))[j]]
  {
    ghost var orig := rows[..];
    ghost var col := Column(orig, c);
    ghost var ff := FFilled(col);
    var last := Nan;
    var i := 0;
    while i < rows.Length
      invariant 0 <= i <= rows.Length
      invariant ColumnFilledTo(orig, rows[..], c, ff, i)
      invariant last == if i == 0 then Nan else ff[i - 1]
    {
      FFilledStep(col, i);
      var cell := rows[i].text[c];
      var filled := if cell == Nan then last else cell;
      assert col[i] == cell;
      ColumnFilledStep(orig, rows[..], c, ff, i);
      rows[i] := rows[i].(text := rows[i].text[c := filled]);
      last := filled;
      i := i + 1;
    }
    assert ColumnFilledTo(orig, rows[..], c, ff, rows.Length);
  }

  /** Cell (j, c) once the first `n` identity columns of `orig` are filled. */
  function CellAfter(orig: seq<OppRow>, n: nat, j: nat, c: nat): Cell
    requires WellFormed(orig) && j < |orig| && c < Width
  {
    if c < n then FFilled(Column(orig, c))[j] else orig[j].text[c]
  }

  /**
   * `cur` is `orig` with its first `n` identity columns forward-filled:
   * each of those is the fill of the original column, the others and the
   * numeric columns are kept.
   */
  predicate FilledUpTo(orig: seq<OppRow>, cur: seq<OppRow>, n: nat)
    requires WellFormed(orig)
  {
    && |cur| == |orig| && WellFormed(cur)
    && (forall j :: 0 <= j < |orig| ==> SameNumbers(cur[j], orig[j]))
    && (forall j, c :: 0 <= j < |orig| && 0 <= c < Width ==>
          cur[j].text[c] == CellAfter(orig, n, j, c))
  }

  /** The table after every identity column is filled. */
  function FilledTable(rows: seq<OppRow>): (r: seq<OppRow>)
    requires WellFormed(rows)
    ensures FilledUpTo(rows, r, Width)
  {
    seq(|rows|, j requires 0 <= j < |rows| =>
      rows[j].(text := seq(Width, c requires 0 <= c < Width => FFilled(Column(rows, c))[j])))
  }

  /** Every identity column filled: the table is the filled table. */
  lemma FilledUpToAll(orig: seq<OppRow>, cur: seq<OppRow>)
    requires WellFormed(orig) && FilledUpTo(orig, cur, Width)
    ensures cur == FilledTable(orig)
  {
    var f := FilledTable(orig);
    forall j | 0 <= j < |orig| ensures cur[j] == f[j] {
      assert cur[j].text == f[j].text;
    }
  }

  /** One more column filled. */
  lemma FillStep(orig: seq<OppRow>, before: seq<OppRow>, after: seq<OppRow>, c: nat)
    requires WellFormed(orig) && c < Width && FilledUpTo(orig, before, c)
    requires |after| == |before|
    requires forall j :: 0 <= j < |before| ==> SameNumbers(after[j], before[j])
    requires forall j :: 0 <= j < |before| ==>
      after[j].text == before[j].text[c := FFilled(Column(before, c))[j]]
    ensures FilledUpTo(orig, after, c + 1)
  {
    forall j | 0 <= j < |before| ensures before[j].text[c] == orig[j].text[c] {
      FilledCell(orig, before, c, j, c);
    }
    ColumnsAgree(before, orig, c);
    forall j | 0 <= j < |after| ensures |after[j].text| == Width {
      assert |before[j].text| == Width;
    }
    forall j, d | 0 <= j < |orig| && 0 <= d < Width
      ensures after[j].text[d] == CellAfter(orig, c + 1, j, d)
    {
      FillCellStep(orig, before, after[j], c, j, d);
    }
  }

  /** One cell of a partly filled table. */
  lemma FilledCell(orig: seq<OppRow>, cur: seq<OppRow>, n: nat, j: nat, d: nat)
    requires WellFormed(orig) && FilledUpTo(orig, cur, n) && j < |orig| && d < Width
    ensures cur[j].text[d] == CellAfter(orig, n, j, d)
  {
  }

  /** One cell of row `j` once column `c` of the partly filled table is filled too. */
  lemma FillCellStep(orig: seq<OppRow>, before: seq<OppRow>, row: OppRow, c: nat, j: nat, d: nat)
    requires WellFormed(orig) && c < Width && FilledUpTo(orig, before, c) && j < |orig| && d < Width
    requires Column(before, c) == Column(orig, c)
    requires row.text == before[j].text[c := FFilled(Column(before, c))[j]]
    ensures row.text[d] == CellAfter(orig, c + 1, j, d)
  {
    if d != c {
      FilledCell(orig, before, c, j, d);
      assert row.text[d] == before[j].text[d];
    }
  }

  /** The forward fill of all identity columns, in place. */
  method ForwardFill(rows: array<OppRow>)
    requires WellFormed(rows[..])
    modifies rows
    ensures rows[..] == FilledTable(old(rows[..]))
  {
    ghost var orig := rows[..];
    var c := 0;
    while c < Width
      invariant 0 <= c <= Width
      invariant FilledUpTo(orig, rows[..], c)
    {
      ghost var before := rows[..];
      ForwardFillColumn(rows, c);
      FillStep(orig, before, rows[..], c);
      c := c + 1;
    }
    FilledUpToAll(orig, rows[..]);
  }

  /**
   * Each identity cell of the filled table is the forward fill of its
   * column alone, and the numeric columns are as they were.
   */
  lemma FilledTableSpec(rows: seq<OppRow>, i: nat, c: nat)
    requires WellFormed(rows) && i < |rows| && c < Width
    ensures FilledTable(rows)[i].text[c] == FFilled(Column(rows, c))[i]
    ensures SameNumbers(FilledTable(rows)[i], rows[i])
  {
  }

  // ---------------------------------------------------------------------
  // First non-blank
  // ---------------------------------------------------------------------

  /** `pd.notna(x) and str(x).strip() != ''`. */
  predicate Usable(x: Cell) {
    x.Val? && Strip(x.text) != ""
  }

  /** The position of the first usable cell, or the length when there is none. */
  function FirstUsable(xs: seq<Cell>): (k: nat)
    ensures k <= |xs|
    ensures forall i :: 0 <= i < k ==> !Usable(xs[i])
    ensures k < |xs| ==> Usable(xs[k])
  {
    if xs == [] || Usable(xs[0]) then 0 else 1 + FirstUsable(xs[1..])
  }

  /** `_first_nonnull`: the first usable cell, or nothing. */
  function FirstNonNull(xs: seq<Cell>): (r: Option<Cell>)
    ensures r.None? <==> forall i :: 0 <= i < |xs| ==> !Usable(xs[i])
    ensures r.Some? ==>
      exists k :: 0 <= k < |xs| && xs[k] == r.value && Usable(xs[k]) && forall i :: 0 <= i < k ==> !Usable(xs[i])
  {
    var k := FirstUsable(xs);
    if k < |xs| then Some(xs[k]) else None
  }

  /** The text a cell contributes to `_clean_str`: 'nan' for a missing cell. */
  function CellText(x: Cell): string {
    match x
      case Nan => "nan"
      case Val(s) => s
  }

  /** `_clean_str(_first_nonnull(..))`: empty when no cell is usable. */
  function CleanFirst(xs: seq<Cell>): string {
    match FirstNonNull(xs)
      case None => CleanSpace(None)
      case Some(x) => CleanSpace(Some(CellText(x)))
  }

  /** `_clean_str(r.get(col, '') or '')` on a present column: blanks become '', NaN reads 'nan'. */
  function CleanCell(x: Cell): string {
    CleanSpace(Some(CellText(x)))
  }

  /** `_first_nonnull` on a coerced numeric column: never NaN and never blank, so its first value. */
  function FirstNum(xs: seq<real>): Option<real> {
    if xs == [] then None else Some(xs[0])
  }

  // ---------------------------------------------------------------------
  // Grouping
  // ---------------------------------------------------------------------

  /** The group key order: texts by string order, the missing key last. */
  predicate KeyLt(a: Cell, b: Cell) {
    match (a, b)
      case (Val(x), Val(y)) => StrLt(x, y)
      case (Val(_), Nan) => true
      case (Nan, _) => false
  }

  function KeyOf(r: OppRow): Cell
    requires |r.text| == Width
  {
    r.text[ColOpp]
  }

  /** The rows of one group, in table order. */
  function Group(rows: seq<OppRow>, key: Cell): (g: seq<OppRow>)
    requires WellFormed(rows)
    ensures WellFormed(g) && |g| <= |rows|
  {
    if rows == [] then []
    else
      assert WellFormed(rows[1..]) by {
        forall i | 0 <= i < |rows[1..]| ensures |rows[1..][i].text| == Width { assert rows[1..][i] == rows[i + 1]; }
      }
      var rest := Group(rows[1..], key);
      if KeyOf(rows[0]) == key then [rows[0]] + rest else rest
  }

  /** A group holds exactly the rows with its key. */
  lemma {:induction false} GroupMembers(rows: seq<OppRow>, key: Cell, r: OppRow)
    requires WellFormed(rows)
    ensures r in Group(rows, key) <==> r in rows && KeyOf(r) == key
  {
    if rows != [] {
      assert WellFormed(rows[1..]) by {
        forall i | 0 <= i < |rows[1..]| ensures |rows[1..][i].text| == Width { assert rows[1..][i] == rows[i + 1]; }
      }
      GroupMembers(rows[1..], key, r);
      assert rows == [rows[0]] + rows[1..];
    }
  }

  /** `groupby('Oportunidad', dropna=False)`: the distinct keys, sorted, the missing key last. */
  method GroupKeys(rows: seq<OppRow>) returns (keys: seq<Cell>)
    requires WellFormed(rows)
    ensures forall q :: 0 <= q < |keys| ==> KeyInTable(rows, keys[q])
    ensures forall i :: 0 <= i < |rows| ==> KeyOf(rows[i]) in keys
    ensures forall i, j :: 0 <= i < j < |keys| ==> KeyLt(keys[i], keys[j])
  {
    var texts: set<string> := {};
    var missing := false;
    var i := 0;
    while i < |rows|
      invariant 0 <= i <= |rows|
      invariant forall s :: s in texts <==> exists j :: 0 <= j < i && KeyOf(rows[j]) == Val(s)
      invariant missing <==> exists j :: 0 <= j < i && KeyOf(rows[j]) == Nan
    {
      match KeyOf(rows[i]) {
        case Val(s) => texts := texts + {s};
        case Nan => missing := true;
      }
      i := i + 1;
    }
    var sorted := SortStrings(texts);
    keys := [];
    var j := 0;
    while j < |sorted|
      invariant 0 <= j <= |sorted|
      invariant |keys| == j
      invariant forall q :: 0 <= q < j ==> keys[q] == Val(sorted[q])
    {
      keys := keys + [Val(sorted[j])];
      j := j + 1;
    }
    forall k | k in keys ensures KeyInTable(rows, k) {
      var q :| 0 <= q < |keys| && keys[q] == k;
      assert sorted[q] in texts;
    }
    forall s | s in texts ensures Val(s) in keys {
      var q :| 0 <= q < |sorted| && sorted[q] == s;
      assert keys[q] == Val(s);
    }
    if missing {
      keys := keys + [Nan];
    }
  }

  // ---------------------------------------------------------------------
  // Records
  // ---------------------------------------------------------------------

  /** One curated frontera. */
  datatype FronteraRec = FronteraRec(
    frontierName: string, consumo: real, renting: real, city: string, ciudad: string,
    nivel: Option<string>, operador: string, providerActual: string, provider: string)

  /** One curated opportunity. */
  datatype OppRecord = OppRecord(
    oportunidad: Cell, cliente: string, inversion: real, tarifaB: real, opex: real, capex: real,
    consumoTotal: real, totalRenting: real, ciudad: string, fronteras: seq<FronteraRec>,
    providerObjetivo: string)

  /** The candidate provider every record names as its target. */
  const ProviderObjetivo: string := "BIA ENERGY"

  /** The frontera of one row: cleaned texts, numbers as they are, and its tier code. */
  function FronteraOf(r: OppRow): FronteraRec
    requires |r.text| == Width
  {
    FronteraRec(
      CleanCell(r.text[ColCuenta]), r.kwh, r.renting,
      CleanCell(r.text[ColRegion]), CleanCell(r.text[ColCiudad]),
      FronteraTier(CleanCell(r.text[ColPropiedad]), CleanCell(r.text[ColNivel])),
      CleanCell(r.text[ColOperador]), CleanCell(r.text[ColComercial]), CleanCell(r.text[ColComercial]))
  }

  /** A numeric column summed over the rows. */
  function SumOf(g: seq<OppRow>, f: OppRow -> real): real {
    if g == [] then 0.0 else SumOf(g[..|g| - 1], f) + f(g[|g| - 1])
  }

  function ConsumoOf(r: OppRow): real { r.kwh }
  function RentingOf(r: OppRow): real { r.renting }
  function OpexOf(r: OppRow): real { r.opex }
  function CapexOf(r: OppRow): real { r.capex }
  function TarifaBOf(r: OppRow): real { r.tarifaB }

  /** A numeric column as a sequence. */
  function NumColumn(g: seq<OppRow>, f: OppRow -> real): (col: seq<real>)
    ensures |col| == |g| && forall i :: 0 <= i < |g| ==> col[i] == f(g[i])
  {
    if g == [] then [] else [f(g[0])] + NumColumn(g[1..], f)
  }

  /** The record of one group, its fronteras given. */
  function RecordOf(key: Cell, g: seq<OppRow>, fronteras: seq<FronteraRec>): OppRecord
    requires WellFormed(g)
  {
    var opex := FirstNum(NumColumn(g, OpexOf));
    var capex := FirstNum(NumColumn(g, CapexOf));
    OppRecord(
      key,
      CleanFirst(Column(g, ColCliente)),
      capex.GetOr(0.0) + opex.GetOr(0.0),
      FirstNum(NumColumn(g, TarifaBOf)).GetOr(0.0),
      opex.GetOr(0.0), capex.GetOr(0.0),
      SumOf(g, ConsumoOf), SumOf(g, RentingOf),
      CleanFirst(Column(g, ColCiudad)),
      fronteras, ProviderObjetivo)
  }

  /** The fronteras of a group, one per row, in row order. */
  function MapFronteras(g: seq<OppRow>): (fs: seq<FronteraRec>)
    requires WellFormed(g)
    ensures |fs| == |g|
  {
    if g == [] then [] else MapFronteras(g[..|g| - 1]) + [FronteraOf(g[|g| - 1])]
  }

  /** The frontera at each position is the one its row gives. */
  lemma {:induction false} MapFronterasAt(g: seq<OppRow>, i: nat)
    requires WellFormed(g) && i < |g|
    ensures MapFronteras(g)[i] == FronteraOf(g[i])
    decreases |g|
  {
    if i < |g| - 1 {
      MapFronterasAt(g[..|g| - 1], i);
    }
  }

  /** The frontera loop of one group. */
  method BuildFronteras(g: seq<OppRow>) returns (fs: seq<FronteraRec>)
    requires WellFormed(g)
    ensures fs == MapFronteras(g)
  {
    fs := [];
    var i := 0;
    while i < |g|
      invariant 0 <= i <= |g|
      invariant fs == MapFronteras(g[..i])
    {
      assert g[..i + 1][..i] == g[..i];
      fs := fs + [FronteraOf(g[i])];
      i := i + 1;
    }
    assert g[..i] == g;
  }

  /** The record the group of `key` gives. */
  function GroupRecord(rows: seq<OppRow>, key: Cell): (rec: OppRecord)
    requires WellFormed(rows)
    ensures rec.oportunidad == key
  {
    var g := Group(rows, key);
    RecordOf(key, g, MapFronteras(g))
  }

  /** The body of the group loop: the fronteras of the group, then its record. */
  method BuildRecord(df: seq<OppRow>, key: Cell) returns (rec: OppRecord)
    requires WellFormed(df)
    ensures rec == GroupRecord(df, key)
  {
    var g := Group(df, key);
    var fs := BuildFronteras(g);
    rec := RecordOf(key, g, fs);
  }

  /** Some row of the table has key `k`. */
  predicate KeyInTable(df: seq<OppRow>, k: Cell)
    requires WellFormed(df)
  {
    exists j :: 0 <= j < |df| && KeyOf(df[j]) == k
  }

  /** Some record is for key `k`. */
  predicate HasRecord(out: seq<OppRecord>, k: Cell) {
    exists i :: 0 <= i < |out| && out[i].oportunidad == k
  }

  /** The group loop: one record per key, in the order of the keys. */
  method BuildRecords(df: seq<OppRow>, keys: seq<Cell>) returns (out: seq<OppRecord>)
    requires WellFormed(df)
    ensures |out| == |keys|
    ensures forall q :: 0 <= q < |keys| ==> out[q] == GroupRecord(df, keys[q])
  {
    out := [];
    var i := 0;
    while i < |keys|
      invariant 0 <= i <= |keys| && |out| == i
      invariant forall q :: 0 <= q < i ==> out[q] == GroupRecord(df, keys[q])
    {
      var rec := BuildRecord(df, keys[i]);
      out := out + [rec];
      i := i + 1;
    }
  }

  /** Records built for a list of keys carry those keys. */
  lemma RecordKeys(df: seq<OppRow>, keys: seq<Cell>, out: seq<OppRecord>)
    requires WellFormed(df) && |out| == |keys|
    requires forall q :: 0 <= q < |keys| ==> out[q] == GroupRecord(df, keys[q])
    ensures forall q :: 0 <= q < |keys| ==> out[q].oportunidad == keys[q]
  {
    forall q | 0 <= q < |keys| ensures out[q].oportunidad == keys[q] {
      assert out[q] == GroupRecord(df, keys[q]);
    }
  }

  /**
   * `main` without the file handling: the identity columns are
   * forward-filled, and each group of the filled table, in key order, gives
   * one record.
   */
  method Curate(rows: seq<OppRow>) returns (out: seq<OppRecord>)
    requires WellFormed(rows)
    ensures forall i :: 0 <= i < |out| ==> KeyInTable(FilledTable(rows), out[i].oportunidad)
    ensures forall j :: 0 <= j < |rows| ==> HasRecord(out, KeyOf(FilledTable(rows)[j]))
    ensures forall i, j :: 0 <= i < j < |out| ==> KeyLt(out[i].oportunidad, out[j].oportunidad)
    ensures forall i :: 0 <= i < |out| ==> out[i] == GroupRecord(FilledTable(rows), out[i].oportunidad)
  {
    var a := new OppRow[|rows|](i requires 0 <= i < |rows| => rows[i]);
    assert a[..] == rows;
    ForwardFill(a);
    var df := a[..];
    var keys := GroupKeys(df);
    out := BuildRecords(df, keys);
    RecordKeys(df, keys, out);
    forall j | 0 <= j < |df| ensures HasRecord(out, KeyOf(df[j])) {
      var q :| 0 <= q < |keys| && keys[q] == KeyOf(df[j]);
      assert out[q].oportunidad == KeyOf(df[j]);
    }
  }

  // ---------------------------------------------------------------------
  // Properties of a record
  // ---------------------------------------------------------------------

  /** The consumptions (or rentings) of a frontera list, summed. */
  function SumFrontera(fs: seq<FronteraRec>, consumo: bool): real {
    if fs == [] then 0.0
    else SumFrontera(fs[..|fs| - 1], consumo) + (if consumo then fs[|fs| - 1].consumo else fs[|fs| - 1].renting)
  }

  /** The group's consumption and renting totals are the sums over its fronteras. */
  lemma {:induction false} SumOfFronteras(g: seq<OppRow>)
    requires WellFormed(g)
    ensures SumOf(g, ConsumoOf) == SumFrontera(MapFronteras(g), true)
    ensures SumOf(g, RentingOf) == SumFrontera(MapFronteras(g), false)
  {
    if g != [] {
      var fs := MapFronteras(g);
      assert fs[..|fs| - 1] == MapFronteras(g[..|g| - 1]);
      SumOfFronteras(g[..|g| - 1]);
    }
  }

  /**
   * A record has one frontera per row of its group, in row order; its
   * consumption and renting totals are the sums of its fronteras'; its
   * investment is capex plus opex; capex, opex and the B tariff come from
   * the group's first row (0 for an empty group); its target provider is
   * "BIA ENERGY".
   */
  lemma RecordSpec(rows: seq<OppRow>, key: Cell)
    requires WellFormed(rows)
    ensures var g := Group(rows, key); var rec := GroupRecord(rows, key);
      && rec.oportunidad == key
      && |rec.fronteras| == |g|
      && (forall i :: 0 <= i < |g| ==> rec.fronteras[i] == FronteraOf(g[i]))
      && rec.consumoTotal == SumFrontera(rec.fronteras, true)
      && rec.totalRenting == SumFrontera(rec.fronteras, false)
      && rec.inversion == rec.capex + rec.opex
      && (g != [] ==> rec.opex == g[0].opex && rec.capex == g[0].capex && rec.tarifaB == g[0].tarifaB)
      && (g == [] ==> rec.opex == 0.0 && rec.capex == 0.0 && rec.tarifaB == 0.0)
      && rec.providerObjetivo == "BIA ENERGY"
  {
    var g := Group(rows, key);
    SumOfFronteras(g);
    forall i | 0 <= i < |g| ensures MapFronteras(g)[i] == FronteraOf(g[i]) {
      MapFronterasAt(g, i);
    }
  }

  /**
   * A record's client and city are the cleaned first usable cells of their
   * columns in the group, or '' when the group has none.
   */
  lemma FirstTextsSpec(rows: seq<OppRow>, key: Cell)
    requires WellFormed(rows)
    ensures var g := Group(rows, key); var rec := GroupRecord(rows, key);
      var cl := Column(g, ColCliente); var ci := Column(g, ColCiudad);
      && (FirstNonNull(cl).None? ==> rec.cliente == "")
      && (FirstNonNull(cl).Some? ==> rec.cliente == CleanSpace(Some(FirstNonNull(cl).value.text)))
      && (FirstNonNull(ci).None? ==> rec.ciudad == "")
      && (FirstNonNull(ci).Some? ==> rec.ciudad == CleanSpace(Some(FirstNonNull(ci).value.text)))
      && WhitespaceNormal(rec.cliente) && WhitespaceNormal(rec.ciudad)
  {
  }

  /**
   * Every key of the table has a non-empty group, and every row is in the
   * group of its own key.
   */
  lemma GroupsCover(rows: seq<OppRow>, i: nat)
    requires WellFormed(rows) && i < |rows|
    ensures rows[i] in Group(rows, KeyOf(rows[i]))
    ensures Group(rows, KeyOf(rows[i])) != []
  {
    GroupMembers(rows, KeyOf(rows[i]), rows[i]);
  }
}
