/**
 * The per-opportunity summary: the monthly costs of the analysis added up
 * per opportunity and month, joined with the header of each curated
 * opportunity, with yearly totals and the saving.
 */
module Summary {
  import opened Options
  import opened Json
  import opened StrOrder

  /** One month of one frontera of the analysis: its month and its two costs, when they are numbers. */
  datatype CostRow = CostRow(mes: string, costoActual: Option<real>, costoBia: Option<real>)

  /** One opportunity of the analysis: its id and, per frontera, its monthly rows. */
  datatype AnalysisOpp = AnalysisOpp(oportunidad: string, fronteras: seq<seq<CostRow>>)

  /** A monthly row tagged with its opportunity. */
  type Entry = (string, CostRow)

  /** The cost of a row on one side: the incumbent's (`actual`) or the candidate's. */
  function Cost(r: CostRow, actual: bool): Option<real> {
    if actual then r.costoActual else r.costoBia
  }

  // ---------------------------------------------------------------------
  // The rows of the analysis, in loop order
  // ---------------------------------------------------------------------

  function RowEntries(opp: string, rows: seq<CostRow>): (es: seq<Entry>)
    ensures |es| == |rows| && forall i :: 0 <= i < |rows| ==> es[i] == (opp, rows[i])
  {
    if rows == [] then [] else RowEntries(opp, rows[..|rows| - 1]) + [(opp, rows[|rows| - 1])]
  }

  function FronteraEntries(opp: string, frs: seq<seq<CostRow>>): seq<Entry> {
    if frs == [] then [] else FronteraEntries(opp, frs[..|frs| - 1]) + RowEntries(opp, frs[|frs| - 1])
  }

  /** Every monthly row of the analysis, opportunity by opportunity and frontera by frontera. */
  function Entries(regs: seq<AnalysisOpp>): seq<Entry> {
    if regs == [] then []
    else
      var r := regs[|regs| - 1];
      Entries(regs[..|regs| - 1]) + FronteraEntries(r.oportunidad, r.fronteras)
  }

  // ---------------------------------------------------------------------
  // Accumulation
  // ---------------------------------------------------------------------

  /**
   * The three accumulators: per opportunity and month, the summed incumbent
   * and candidate costs (a month is present once a number was added), and
   * per opportunity the months seen.
   */
  datatype Acc = Acc(actual: map<string, map<string, real>>, bia: map<string, map<string, real>>, seen: map<string, set<string>>)

  const Empty := Acc(map[], map[], map[])

  /** `d[opp]` of a nested `defaultdict`: empty for a new opportunity. */
  function Inner(d: map<string, map<string, real>>, opp: string): map<string, real> {
    if opp in d then d[opp] else map[]
  }

  /** `months_seen_by_opp[opp]`. */
  function SeenOf(acc: Acc, opp: string): set<string> {
    if opp in acc.seen then acc.seen[opp] else {}
  }

  function Costs(acc: Acc, actual: bool): map<string, map<string, real>> {
    if actual then acc.actual else acc.bia
  }

  /** `d[opp][mes] += c` when `c` is a number; nothing otherwise. */
  function AddCost(d: map<string, map<string, real>>, opp: string, mes: string, c: Option<real>): map<string, map<string, real>> {
    match c
      case None => d
      case Some(v) =>
        var inner := Inner(d, opp);
        d[opp := inner[mes := (if mes in inner then inner[mes] else 0.0) + v]]
  }

  /** The body of the innermost loop. */
  function AddEntry(acc: Acc, e: Entry): Acc {
    Acc(AddCost(acc.actual, e.0, e.1.mes, e.1.costoActual),
        AddCost(acc.bia, e.0, e.1.mes, e.1.costoBia),
        acc.seen[e.0 := SeenOf(acc, e.0) + {e.1.mes}])
  }

  /** The accumulators after the entries, one after the other. */
  function AccFrom(acc: Acc, es: seq<Entry>): Acc {
    if es == [] then acc else AddEntry(AccFrom(acc, es[..|es| - 1]), es[|es| - 1])
  }

  lemma {:induction false} AccFromConcat(acc: Acc, a: seq<Entry>, b: seq<Entry>)
    ensures AccFrom(acc, a + b) == AccFrom(AccFrom(acc, a), b)
    decreases |b|
  {
    if b != [] {
      assert (a + b)[..|a + b| - 1] == a + b[..|b| - 1];
      AccFromConcat(acc, a, b[..|b| - 1]);
    } else {
      assert a + b == a;
    }
  }

  /** The loop over the months of one frontera. */
  method AddRows(acc0: Acc, opp: string, rows: seq<CostRow>) returns (acc: Acc)
    ensures acc == AccFrom(acc0, RowEntries(opp, rows))
  {
    acc := acc0;
    var k := 0;
    while k < |rows|
      invariant 0 <= k <= |rows|
      invariant acc == AccFrom(acc0, RowEntries(opp, rows[..k]))
    {
      assert rows[..k + 1][..k] == rows[..k];
      var row := rows[k];
      var seen := SeenOf(acc, opp) + {row.mes};
      var actual := AddCost(acc.actual, opp, row.mes, row.costoActual);
      var bia := AddCost(acc.bia, opp, row.mes, row.costoBia);
      acc := Acc(actual, bia, acc.seen[opp := seen]);
      k := k + 1;
    }
    assert rows[..k] == rows;
  }

  /** The loop over the fronteras of one opportunity. */
  method AddFronteras(acc0: Acc, opp: string, frs: seq<seq<CostRow>>) returns (acc: Acc)
    ensures acc == AccFrom(acc0, FronteraEntries(opp, frs))
  {
    acc := acc0;
    var j := 0;
    while j < |frs|
      invariant 0 <= j <= |frs|
      invariant acc == AccFrom(acc0, FronteraEntries(opp, frs[..j]))
    {
      assert frs[..j + 1][..j] == frs[..j];
      AccFromConcat(acc0, FronteraEntries(opp, frs[..j]), RowEntries(opp, frs[j]));
      acc := AddRows(acc, opp, frs[j]);
      j := j + 1;
    }
    assert frs[..j] == frs;
  }

  /** Step 2 of the summary: the accumulators over the whole analysis. */
  method Accumulate(regs: seq<AnalysisOpp>) returns (acc: Acc)
    ensures acc == AccFrom(Empty, Entries(regs))
  {
    acc := Empty;
    var i := 0;
    while i < |regs|
      invariant 0 <= i <= |regs|
      invariant acc == AccFrom(Empty, Entries(regs[..i]))
    {
      assert regs[..i + 1][..i] == regs[..i];
      AccFromConcat(Empty, Entries(regs[..i]), FronteraEntries(regs[i].oportunidad, regs[i].fronteras));
      acc := AddFronteras(acc, regs[i].oportunidad, regs[i].fronteras);
      i := i + 1;
    }
    assert regs[..i] == regs;
  }

  // ---------------------------------------------------------------------
  // What the accumulators hold
  // ---------------------------------------------------------------------

  /** Some row of `opp` is for month `m`. */
  predicate HasMonth(es: seq<Entry>, opp: string, m: string) {
    exists i :: 0 <= i < |es| && es[i].0 == opp && es[i].1.mes == m
  }

  /** Some row of `opp` is for an opportunity. */
  predicate HasOpp(es: seq<Entry>, opp: string) {
    exists i :: 0 <= i < |es| && es[i].0 == opp
  }

  /** Some row of `opp` for month `m` has a number on the given side. */
  predicate HasCost(es: seq<Entry>, opp: string, m: string, actual: bool) {
    exists i :: 0 <= i < |es| && es[i].0 == opp && es[i].1.mes == m && Cost(es[i].1, actual).Some?
  }

  /** The numbers on one side of the rows of `opp` for month `m`, added up. */
  function SumCost(es: seq<Entry>, opp: string, m: string, actual: bool): real {
    if es == [] then 0.0
    else
      var e := es[|es| - 1];
      SumCost(es[..|es| - 1], opp, m, actual) +
        (if e.0 == opp && e.1.mes == m && Cost(e.1, actual).Some? then Cost(e.1, actual).value else 0.0)
  }

  /** The numbers on one side of all the rows of `opp`, added up. */
  function SumCostOpp(es: seq<Entry>, opp: string, actual: bool): real {
    if es == [] then 0.0
    else
      var e := es[|es| - 1];
      SumCostOpp(es[..|es| - 1], opp, actual) +
        (if e.0 == opp && Cost(e.1, actual).Some? then Cost(e.1, actual).value else 0.0)
  }

  /** An opportunity has a month set exactly when it has a row, and it holds exactly the months of its rows. */
  lemma {:induction false} SeenSpec(es: seq<Entry>, opp: string, m: string)
    ensures opp in AccFrom(Empty, es).seen <==> HasOpp(es, opp)
    ensures m in SeenOf(AccFrom(Empty, es), opp) <==> HasMonth(es, opp, m)
    decreases |es|
  {
    if es != [] {
      var init := es[..|es| - 1];
      SeenSpec(init, opp, m);
      assert forall i :: 0 <= i < |init| ==> init[i] == es[i];
      if HasMonth(es, opp, m) && !HasMonth(init, opp, m) {
        assert es[|es| - 1].0 == opp && es[|es| - 1].1.mes == m;
      }
      if HasOpp(es, opp) && !HasOpp(init, opp) {
        assert es[|es| - 1].0 == opp;
      }
    }
  }

  /**
   * A month is present in an opportunity's cost map exactly when one of its
   * rows carried a number on that side, and the amount it reads (0 for an
   * absent month) is the sum of those numbers.
   */
  lemma {:induction false} CostSpec(es: seq<Entry>, opp: string, m: string, actual: bool)
    ensures var inner := Inner(Costs(AccFrom(Empty, es), actual), opp);
      && (m in inner <==> HasCost(es, opp, m, actual))
      && (if m in inner then inner[m] else 0.0) == SumCost(es, opp, m, actual)
    decreases |es|
  {
    if es != [] {
      var init := es[..|es| - 1];
      CostSpec(init, opp, m, actual);
      HasCostSnoc(es, opp, m, actual);
      AddEntryCost(AccFrom(Empty, init), es[|es| - 1], opp, m, actual);
    }
  }

  /** Whether the last row of `opp` for month `m` carries a number on that side. */
  predicate Hits(e: Entry, opp: string, m: string, actual: bool) {
    e.0 == opp && e.1.mes == m && Cost(e.1, actual).Some?
  }

  lemma HasCostSnoc(es: seq<Entry>, opp: string, m: string, actual: bool)
    requires es != []
    ensures HasCost(es, opp, m, actual) <==> HasCost(es[..|es| - 1], opp, m, actual) || Hits(es[|es| - 1], opp, m, actual)
  {
    var init := es[..|es| - 1];
    assert forall i :: 0 <= i < |init| ==> init[i] == es[i];
    if HasCost(es, opp, m, actual) && !HasCost(init, opp, m, actual) {
      var i :| 0 <= i < |es| && es[i].0 == opp && es[i].1.mes == m && Cost(es[i].1, actual).Some?;
      assert i == |es| - 1;
    }
  }

  /** One row adds its number, if any, to its own opportunity and month only. */
  lemma AddEntryCost(acc: Acc, e: Entry, opp: string, m: string, actual: bool)
    ensures var before := Inner(Costs(acc, actual), opp);
      var after := Inner(Costs(AddEntry(acc, e), actual), opp);
      && (m in after <==> m in before || Hits(e, opp, m, actual))
      && (if m in after then after[m] else 0.0) ==
         (if m in before then before[m] else 0.0) + (if Hits(e, opp, m, actual) then Cost(e.1, actual).value else 0.0)
  {
  }

  /** A month with a cost is a month seen. */
  lemma CostMonthSeen(es: seq<Entry>, opp: string, m: string, actual: bool)
    requires HasCost(es, opp, m, actual)
    ensures HasMonth(es, opp, m)
  {
  }

  /** A zero cost is a number: the month is present and reads 0, not nothing. */
  lemma ZeroCostCounts(opp: string, m: string)
    ensures var acc := AccFrom(Empty, [(opp, CostRow(m, Some(0.0), None))]);
      && Inner(acc.actual, opp) == map[m := 0.0]
      && Inner(acc.bia, opp) == map[]
  {
    var es := [(opp, CostRow(m, Some(0.0), None))];
    assert es[..0] == [];
  }

  // ---------------------------------------------------------------------
  // Sums over the months
  // ---------------------------------------------------------------------

  /** The amounts of a month map over a list of months, absent months counting 0. */
  function SumOver(ms: seq<string>, inner: map<string, real>): real {
    if ms == [] then 0.0 else (if ms[0] in inner then inner[ms[0]] else 0.0) + SumOver(ms[1..], inner)
  }

  /** `SumCost` added up over a list of months. */
  function SumCostOver(ms: seq<string>, es: seq<Entry>, opp: string, actual: bool): real {
    if ms == [] then 0.0 else SumCost(es, opp, ms[0], actual) + SumCostOver(ms[1..], es, opp, actual)
  }

  predicate Distinct(ms: seq<string>) {
    forall i, j :: 0 <= i < j < |ms| ==> ms[i] != ms[j]
  }

  lemma SortedDistinct(ms: seq<string>)
    requires StrictlySorted(ms)
    ensures Distinct(ms)
  {
    forall i, j | 0 <= i < j < |ms| ensures ms[i] != ms[j] {
      StrLtAsymmetric(ms[i], ms[j]);
    }
  }

  /** Over the months, the map built from the rows sums to the per-month sums of the rows. */
  lemma {:induction false} SumOverCosts(ms: seq<string>, es: seq<Entry>, opp: string, actual: bool)
    ensures SumOver(ms, Inner(Costs(AccFrom(Empty, es), actual), opp)) == SumCostOver(ms, es, opp, actual)
  {
    if ms != [] {
      CostSpec(es, opp, ms[0], actual);
      SumOverCosts(ms[1..], es, opp, actual);
    }
  }

  /** Adding one row to the entries adds its number once, at its own month, when that month is listed once. */
  lemma {:induction false} SumCostOverSnoc(ms: seq<string>, es: seq<Entry>, opp: string, actual: bool)
    requires es != [] && Distinct(ms)
    ensures var e := es[|es| - 1];
      SumCostOver(ms, es, opp, actual) == SumCostOver(ms, es[..|es| - 1], opp, actual) +
        (if e.0 == opp && e.1.mes in ms && Cost(e.1, actual).Some? then Cost(e.1, actual).value else 0.0)
  {
    if ms != [] {
      assert Distinct(ms[1..]) by {
        forall i, j | 0 <= i < j < |ms[1..]| ensures ms[1..][i] != ms[1..][j] {
          assert ms[1..][i] == ms[i + 1] && ms[1..][j] == ms[j + 1];
        }
      }
      SumCostOverSnoc(ms[1..], es, opp, actual);
      var e := es[|es| - 1];
      if e.1.mes == ms[0] {
        assert e.1.mes !in ms[1..] by {
          forall j | 0 <= j < |ms[1..]| ensures ms[1..][j] != ms[0] { assert ms[1..][j] == ms[j + 1]; }
        }
      }
      assert e.1.mes in ms <==> e.1.mes == ms[0] || e.1.mes in ms[1..];
    }
  }

  /**
   * When the months list each month of the opportunity's rows exactly once,
   * adding up the per-month sums gives the sum of all its numbers.
   */
  lemma {:induction false} SumCostOverAll(ms: seq<string>, es: seq<Entry>, opp: string, actual: bool)
    requires Distinct(ms)
    requires forall i :: 0 <= i < |es| && es[i].0 == opp ==> es[i].1.mes in ms
    ensures SumCostOver(ms, es, opp, actual) == SumCostOpp(es, opp, actual)
    decreases |es|
  {
    if es == [] {
      SumCostOverEmpty(ms, opp, actual);
    } else {
      var init := es[..|es| - 1];
      assert forall i :: 0 <= i < |init| ==> init[i] == es[i];
      SumCostOverAll(ms, init, opp, actual);
      SumCostOverSnoc(ms, es, opp, actual);
    }
  }

  lemma {:induction false} SumCostOverEmpty(ms: seq<string>, opp: string, actual: bool)
    ensures SumCostOver(ms, [], opp, actual) == 0.0
  {
    if ms != [] {
      SumCostOverEmpty(ms[1..], opp, actual);
    }
  }

  /**
   * An opportunity none of whose rows carries a number on one side has a
   * total of 0.0 on that side, not an absent one.
   */
  lemma {:induction false} NoCostTotalZero(es: seq<Entry>, opp: string, actual: bool)
    requires forall i :: 0 <= i < |es| && es[i].0 == opp ==> Cost(es[i].1, actual).None?
    ensures SumCostOpp(es, opp, actual) == 0.0
    decreases |es|
  {
    if es != [] {
      var init := es[..|es| - 1];
      forall i | 0 <= i < |init| && init[i].0 == opp
        ensures Cost(init[i].1, actual).None?
      {
        assert init[i] == es[i];
      }
      NoCostTotalZero(init, opp, actual);
    }
  }

  // ---------------------------------------------------------------------
  // Headers
  // ---------------------------------------------------------------------

  /** The header fields kept for an opportunity. */
  datatype Head = Head(
    oportunidad: JVal, cliente: JVal, inversion: JVal, tarifaB: JVal, opex: JVal, capex: JVal,
    consumoTotal: JVal, totalRenting: JVal, ciudad: JVal)

  function HeadOf(reg: Record): Head {
    Head(Get(reg, "oportunidad"), Get(reg, "cliente"), Get(reg, "inversion_cliente"), Get(reg, "tarifa_b"),
         Get(reg, "opex"), Get(reg, "capex"), Get(reg, "consumo_total"), Get(reg, "total_renting"),
         Get(reg, "ciudad"))
  }

  /** The id of a curated opportunity when it is truthy; the ids are texts. */
  function OppId(reg: Record): Option<string> {
    match Get(reg, "oportunidad")
      case JStr(s) => if s != "" then Some(s) else None
      case _ => None
  }

  /** The curated opportunities have text or missing ids. */
  predicate TextIds(opps: seq<Record>) {
    forall i :: 0 <= i < |opps| ==> !Get(opps[i], "oportunidad").JNum?
  }

  /** `head_by_opp`: the header of each id, the last record with that id winning. */
  function HeadsOf(opps: seq<Record>): map<string, Head> {
    if opps == [] then map[]
    else
      var prev := HeadsOf(opps[..|opps| - 1]);
      var reg := opps[|opps| - 1];
      match OppId(reg)
        case None => prev
        case Some(k) => prev[k := HeadOf(reg)]
  }

  /** Step 1 of the summary. */
  method CollectHeads(opps: seq<Record>) returns (heads: map<string, Head>)
    ensures heads == HeadsOf(opps)
  {
    heads := map[];
    var i := 0;
    while i < |opps|
      invariant 0 <= i <= |opps|
      invariant heads == HeadsOf(opps[..i])
    {
      assert opps[..i + 1][..i] == opps[..i];
      var reg := opps[i];
      var opp := Get(reg, "oportunidad");
      if Truthy(opp) && opp.JStr? {
        heads := heads[opp.str := HeadOf(reg)];
      }
      i := i + 1;
    }
    assert opps[..i] == opps;
  }

  /** The record at position `i` has id `k`. */
  predicate IdAt(opps: seq<Record>, i: int, k: string)
    requires 0 <= i < |opps|
  {
    OppId(opps[i]) == Some(k)
  }

  /** An id has a header exactly when some record has it. */
  lemma {:induction false} HeadsKeys(opps: seq<Record>, k: string)
    ensures k in HeadsOf(opps) <==> exists i :: 0 <= i < |opps| && IdAt(opps, i, k)
    decreases |opps|
  {
    if opps != [] {
      var init := opps[..|opps| - 1];
      var last := |opps| - 1;
      HeadsKeys(init, k);
      if !IdAt(opps, last, k) {
        assert k in HeadsOf(opps) <==> k in HeadsOf(init);
        if k in HeadsOf(init) {
          var i :| 0 <= i < |init| && IdAt(init, i, k);
          assert init[i] == opps[i];
          assert IdAt(opps, i, k);
        }
        if exists i :: 0 <= i < |opps| && IdAt(opps, i, k) {
          var i :| 0 <= i < |opps| && IdAt(opps, i, k);
          assert init[i] == opps[i];
          assert IdAt(init, i, k);
        }
      }
    }
  }

  /** The header of an id is the one of the last record with that id. */
  lemma {:induction false} HeadsLastWins(opps: seq<Record>, k: string, i: int)
    requires 0 <= i < |opps| && IdAt(opps, i, k)
    requires forall j :: i < j < |opps| ==> !IdAt(opps, j, k)
    ensures k in HeadsOf(opps) && HeadsOf(opps)[k] == HeadOf(opps[i])
    decreases |opps|
  {
    var init := opps[..|opps| - 1];
    var last := |opps| - 1;
    if i < last {
      assert init[i] == opps[i];
      forall j | i < j < |init| ensures !IdAt(init, j, k) {
        assert init[j] == opps[j];
        assert !IdAt(opps, j, k);
      }
      HeadsLastWins(init, k, i);
      assert !IdAt(opps, last, k);
    }
  }

  // ---------------------------------------------------------------------
  // Output
  // ---------------------------------------------------------------------

  /** One summary row: the header (or just the id), the two month maps, the totals and the saving. */
  datatype OppSummary = OppSummary(
    oportunidad: string, head: Option<Head>,
    costoActualMes: seq<(string, Option<real>)>, costoBiaMes: seq<(string, Option<real>)>,
    totalActual: real, totalBia: real, ahorro: real)

  /** A month map: each month with its amount, or nothing when no number was added for it. */
  method MonthMap(inner: map<string, real>, meses: seq<string>) returns (t: seq<(string, Option<real>)>, total: real)
    ensures |t| == |meses|
    ensures forall i :: 0 <= i < |meses| ==>
      t[i] == (meses[i], if meses[i] in inner then Some(inner[meses[i]]) else None)
    ensures total == SumOver(meses, inner)
  {
    t := [];
    total := 0.0;
    var i := |meses|;
    while i > 0
      invariant 0 <= i <= |meses|
      invariant |t| == |meses| - i
      invariant forall q :: 0 <= q < |t| ==>
        t[q] == (meses[i + q], if meses[i + q] in inner then Some(inner[meses[i + q]]) else None)
      invariant total == SumOver(meses[i..], inner)
    {
      i := i - 1;
      assert meses[i..][1..] == meses[i + 1..];
      var m := meses[i];
      var v := if m in inner then Some(inner[m]) else None;
      t := [(m, v)] + t;
      total := (if m in inner then inner[m] else 0.0) + total;
    }
    assert meses[0..] == meses;
  }

  /** The summary row of one opportunity, from the accumulators and the headers. */
  method SummaryRow(acc: Acc, heads: map<string, Head>, opp: string) returns (s: OppSummary)
    ensures s.oportunidad == opp
    ensures s.head == if opp in heads then Some(heads[opp]) else None
    ensures |s.costoActualMes| == |s.costoBiaMes|
    ensures StrictlySorted(MonthsOf(s.costoActualMes))
    ensures forall m :: m in MonthsOf(s.costoActualMes) <==> m in SeenOf(acc, opp)
    ensures forall i :: 0 <= i < |s.costoActualMes| ==> s.costoBiaMes[i].0 == s.costoActualMes[i].0
    ensures forall i :: 0 <= i < |s.costoActualMes| ==> MonthEntry(acc, opp, s.costoActualMes[i], true)
    ensures forall i :: 0 <= i < |s.costoBiaMes| ==> MonthEntry(acc, opp, s.costoBiaMes[i], false)
    ensures s.totalActual == SumOver(MonthsOf(s.costoActualMes), Inner(acc.actual, opp))
    ensures s.totalBia == SumOver(MonthsOf(s.costoActualMes), Inner(acc.bia, opp))
    ensures s.ahorro == s.totalActual - s.totalBia
  {
    var meses := SortStrings(SeenOf(acc, opp));
    var ta, totalActual := MonthMap(Inner(acc.actual, opp), meses);
    var tb, totalBia := MonthMap(Inner(acc.bia, opp), meses);
    MonthsOfPairs(ta, meses);
    var head := if opp in heads then Some(heads[opp]) else None;
    s := OppSummary(opp, head, ta, tb, totalActual, totalBia, totalActual - totalBia);
  }

  /** The months of a month map. */
  function MonthsOf(t: seq<(string, Option<real>)>): (ms: seq<string>)
    ensures |ms| == |t| && forall i :: 0 <= i < |t| ==> ms[i] == t[i].0
  {
    if t == [] then [] else [t[0].0] + MonthsOf(t[1..])
  }

  lemma MonthsOfPairs(t: seq<(string, Option<real>)>, meses: seq<string>)
    requires |t| == |meses| && forall i :: 0 <= i < |t| ==> t[i].0 == meses[i]
    ensures MonthsOf(t) == meses
  {
  }

  /** A month map entry reads the accumulated amount, or nothing when there is none. */
  predicate MonthEntry(acc: Acc, opp: string, p: (string, Option<real>), actual: bool) {
    var inner := Inner(Costs(acc, actual), opp);
    p.1 == if p.0 in inner then Some(inner[p.0]) else None
  }

  /** Some summary row is for `opp`. */
  predicate HasRow(out: seq<OppSummary>, opp: string) {
    exists i :: 0 <= i < |out| && out[i].oportunidad == opp
  }

  /** Steps 1 to 3: the headers, the accumulators, and one summary row per id, in id order. */
  method Summarize(opps: seq<Record>, analysis: seq<AnalysisOpp>) returns (out: seq<OppSummary>)
    requires TextIds(opps)
    ensures forall i, j :: 0 <= i < j < |out| ==> StrLt(out[i].oportunidad, out[j].oportunidad)
    ensures forall opp :: HasRow(out, opp) <==> opp in HeadsOf(opps) || HasOpp(Entries(analysis), opp)
    ensures RowsFor(opps, Entries(analysis), out)
  {
    var heads := CollectHeads(opps);
    var acc := Accumulate(analysis);
    ghost var es := Entries(analysis);
    var ids := SortStrings(acc.seen.Keys + heads.Keys);
    out := SummaryRows(acc, heads, ids, opps, es);
    forall opp ensures HasRow(out, opp) <==> opp in HeadsOf(opps) || HasOpp(es, opp) {
      SeenSpec(es, opp, "");
      if opp in ids {
        var q :| 0 <= q < |ids| && ids[q] == opp;
        assert out[q].oportunidad == opp;
      }
    }
  }

  /** Step 3: one summary row per id, in the order of `ids`. */
  method SummaryRows(acc: Acc, heads: map<string, Head>, ids: seq<string>, ghost opps: seq<Record>, ghost es: seq<Entry>)
    returns (out: seq<OppSummary>)
    requires acc == AccFrom(Empty, es) && heads == HeadsOf(opps)
    ensures |out| == |ids|
    ensures forall q :: 0 <= q < |ids| ==> out[q].oportunidad == ids[q]
    ensures RowsFor(opps, es, out)
  {
    out := [];
    var i := 0;
    while i < |ids|
      invariant 0 <= i <= |ids| && |out| == i
      invariant forall q :: 0 <= q < i ==> out[q].oportunidad == ids[q]
      invariant RowsFor(opps, es, out)
    {
      var s := SummaryRow(acc, heads, ids[i]);
      SummaryRowFor(opps, es, s);
      RowsForSnoc(opps, es, out, s);
      out := out + [s];
      i := i + 1;
    }
  }

  /** Every row states what `RowFor` says. */
  ghost predicate RowsFor(opps: seq<Record>, es: seq<Entry>, out: seq<OppSummary>) {
    forall i :: 0 <= i < |out| ==> RowFor(opps, es, out[i])
  }

  lemma RowsForSnoc(opps: seq<Record>, es: seq<Entry>, out: seq<OppSummary>, s: OppSummary)
    requires RowsFor(opps, es, out) && RowFor(opps, es, s)
    ensures RowsFor(opps, es, out + [s])
  {
    forall i | 0 <= i < |out + [s]| ensures RowFor(opps, es, (out + [s])[i]) {
      if i < |out| {
        assert (out + [s])[i] == out[i];
      }
    }
  }

  /**
   * What a summary row holds, in terms of the inputs: the header of its id
   * (or none), the months of its rows in order, each month's summed amount
   * on each side (or nothing when no number was seen), the yearly totals as
   * the sums of every number of the id, and the saving as their difference.
   */
  ghost predicate RowFor(opps: seq<Record>, es: seq<Entry>, s: OppSummary) {
    var opp := s.oportunidad;
    var ms := MonthsOf(s.costoActualMes);
    && s.head == (if opp in HeadsOf(opps) then Some(HeadsOf(opps)[opp]) else None)
    && StrictlySorted(ms)
    && (forall m :: m in ms <==> HasMonth(es, opp, m))
    && |s.costoBiaMes| == |ms|
    && (forall i :: 0 <= i < |ms| ==> s.costoBiaMes[i].0 == ms[i])
    && (forall i :: 0 <= i < |ms| ==> MonthAmount(es, opp, s.costoActualMes[i], true))
    && (forall i :: 0 <= i < |ms| ==> MonthAmount(es, opp, s.costoBiaMes[i], false))
    && s.totalActual == SumCostOpp(es, opp, true)
    && s.totalBia == SumCostOpp(es, opp, false)
    && s.ahorro == s.totalActual - s.totalBia
  }

  /** A month's amount on one side: the sum of its numbers, or nothing when it had none. */
  predicate MonthAmount(es: seq<Entry>, opp: string, p: (string, Option<real>), actual: bool) {
    p.1 == if HasCost(es, opp, p.0, actual) then Some(SumCost(es, opp, p.0, actual)) else None
  }

  /** A row built from the accumulators of the entries states what `RowFor` says. */
  lemma SummaryRowFor(opps: seq<Record>, es: seq<Entry>, s: OppSummary)
    requires var acc := AccFrom(Empty, es); var opp := s.oportunidad;
      && s.head == (if opp in HeadsOf(opps) then Some(HeadsOf(opps)[opp]) else None)
      && |s.costoActualMes| == |s.costoBiaMes|
      && StrictlySorted(MonthsOf(s.costoActualMes))
      && (forall m :: m in MonthsOf(s.costoActualMes) <==> m in SeenOf(acc, opp))
      && (forall i :: 0 <= i < |s.costoActualMes| ==> s.costoBiaMes[i].0 == s.costoActualMes[i].0)
      && (forall i :: 0 <= i < |s.costoActualMes| ==> MonthEntry(acc, opp, s.costoActualMes[i], true))
      && (forall i :: 0 <= i < |s.costoBiaMes| ==> MonthEntry(acc, opp, s.costoBiaMes[i], false))
      && s.totalActual == SumOver(MonthsOf(s.costoActualMes), Inner(acc.actual, opp))
      && s.totalBia == SumOver(MonthsOf(s.costoActualMes), Inner(acc.bia, opp))
      && s.ahorro == s.totalActual - s.totalBia
    ensures RowFor(opps, es, s)
  {
    var acc := AccFrom(Empty, es);
    var opp := s.oportunidad;
    var ms := MonthsOf(s.costoActualMes);
    forall m ensures m in ms <==> HasMonth(es, opp, m) {
      SeenSpec(es, opp, m);
    }
    forall i | 0 <= i < |ms| ensures MonthAmount(es, opp, s.costoActualMes[i], true) {
      CostSpec(es, opp, ms[i], true);
    }
    forall i | 0 <= i < |ms| ensures MonthAmount(es, opp, s.costoBiaMes[i], false) {
      CostSpec(es, opp, ms[i], false);
    }
    SortedDistinct(ms);
    forall k | 0 <= k < |es| && es[k].0 == opp ensures es[k].1.mes in ms {
      SeenSpec(es, opp, es[k].1.mes);
    }
    SumOverCosts(ms, es, opp, true);
    SumOverCosts(ms, es, opp, false);
    SumCostOverAll(ms, es, opp, true);
    SumCostOverAll(ms, es, opp, false);
  }
}
