/**
 * The per-frontera, per-month rate resolution of the tariff analysis:
 * join keys of a frontera record, the BIA rate (composite key, then simple
 * key), the incumbent rate (composite key, then simple key, then a fuzzy
 * provider match inside the bucket of the tier used), and the costs, unit
 * delta and savings, each absent when one of its operands is.
 */
module RateResolver {
  import opened Options
  import opened TextNorm
  import opened Tiers
  import opened ProviderMatch
  import opened TariffIndex
  import opened StrOrder
  import opened Json

  /** The candidate provider whose tariff is compared against the incumbent's. */
  const ProviderBia: string := "BIA ENERGY"

  /** The candidate provider's name is already in normalised form. */
  lemma ProviderBiaNormal()
    ensures NormText(Some(ProviderBia)) == ProviderBia
  {
    AsciiWhitespaceNormal(ProviderBia);
    forall i | 0 <= i < |ProviderBia| ensures NormChar(ProviderBia[i]) == ProviderBia[i] {
      NormCharAscii(ProviderBia[i]);
    }
    NormTextFixed(ProviderBia);
  }

  // ---------------------------------------------------------------------
  // Join keys of a frontera
  // ---------------------------------------------------------------------

  /** The join keys and the consumption of one frontera. */
  datatype Keys = Keys(
    cityCalc: string, city: string, provCalc: string, prov: string, bia: string,
    comp: Option<string>, simp: Option<string>, consumo: Option<real>)

  /** `m.get(k, k)`: an alias when there is one, the name itself otherwise. */
  function Alias(m: map<string, string>, k: string): string {
    if k in m then m[k] else k
  }

  /** The raw city: 'city', then 'region', 'ciudad', 'market'. */
  function CityRaw(f: Record): JVal {
    Coalesce([Get(f, "city"), Get(f, "region"), Get(f, "ciudad"), Get(f, "market")])
  }

  /** The raw incumbent provider, from its five possible fields. */
  function ProvRaw(f: Record): JVal {
    Coalesce([Get(f, "provider_actual"), Get(f, "provider"), Get(f, "comercializador actual"),
              Get(f, "comercializador_actual"), Get(f, "comercializador")])
  }

  /** `f.get('consumo_kwh') or f.get('consumo') or f.get('kwh_mes')`. */
  function ConsumoRaw(f: Record): JVal {
    Or(Or(Get(f, "consumo_kwh"), Get(f, "consumo")), Get(f, "kwh_mes"))
  }

  /**
   * `float(consumo_rw)` when it is neither null nor the empty text, absent
   * otherwise. A text is read by `parse`, which stands for Python's float
   * parser and gives nothing where `float()` raises.
   */
  function Consumption(raw: JVal, parse: string -> Option<real>): (r: Option<real>)
    ensures Blank(raw) ==> r.None?
    ensures raw.JNum? ==> r == Some(raw.num)
  {
    match raw
      case JNull => None
      case JNum(x, _) => Some(x)
      case JStr(s) => if s == "" then None else parse(s)
  }

  /** `nivel_comp_f`: the composite code of the raw tier text, or else of its normalised form. */
  function FronteraComp(nivel: Option<string>): Option<string> {
    var c := CompTier(nivel);
    if c.Some? && c.value != "" then c else CompTier(Some(NormText(nivel)))
  }

  /**
   * With the corrected normaliser, which is idempotent, the retry on the
   * normalised text never changes the composite code.
   */
  lemma FronteraCompSpec(nivel: Option<string>)
    ensures FronteraComp(nivel) == CompTier(nivel)
  {
    CompTierOfNormText(nivel);
  }

  /** `nivel_comp_f` with `norm_text` as written. */
  function FronteraCompAsWritten(nivel: Option<string>): Option<string> {
    var c := CompTierAsWritten(nivel);
    if c.Some? && c.value != "" then c else CompTierAsWritten(Some(NormTextAsWritten(nivel)))
  }

  /**
   * As written, the retry matters: for "NIVEL 1 ºPERADOR" the first try
   * finds no composite code and the retry finds 'nivel_1_operator', the
   * code the corrected normaliser gives on its first try.
   */
  lemma FronteraCompAsWrittenRetry()
    ensures CompTierAsWritten(Some(TierText(OrdinalOperador))) == None
    ensures FronteraCompAsWritten(Some(TierText(OrdinalOperador))) == Some(CompLabel('1', "operator"))
    ensures FronteraComp(Some(TierText(OrdinalOperador))) == FronteraCompAsWritten(Some(TierText(OrdinalOperador)))
  {
    OrdinalOperatorAsWritten();
    OrdinalOperatorCorrected();
    FronteraCompSpec(Some(TierText(OrdinalOperador)));
  }

  /** The keys of a frontera record under the city and provider alias tables. */
  function KeysOf(f: Record, cityMap: map<string, string>, provMap: map<string, string>,
                  parse: string -> Option<real>): Keys
  {
    var cityCalc := NormText(TextOf(CityRaw(f)));
    var provCalc := NormText(TextOf(ProvRaw(f)));
    var biaN := NormText(Some(ProviderBia));
    var nivel := TextOf(Get(f, "nivel_de_tension"));
    Keys(cityCalc, Alias(cityMap, cityCalc), provCalc, Alias(provMap, provCalc), Alias(provMap, biaN),
         FronteraComp(nivel), SimpleTier(nivel), Consumption(ConsumoRaw(f), parse))
  }

  /**
   * The computed city and provider of a frontera are normalised text,
   * replaced by their aliases when the tables have them, and the BIA key is
   * the alias of "BIA ENERGY" or that name itself.
   */
  lemma KeysOfNames(f: Record, cityMap: map<string, string>, provMap: map<string, string>,
                    parse: string -> Option<real>)
    ensures var k := KeysOf(f, cityMap, provMap, parse);
      && WhitespaceNormal(k.cityCalc) && WhitespaceNormal(k.provCalc)
      && (k.cityCalc in cityMap ==> k.city == cityMap[k.cityCalc])
      && (k.cityCalc !in cityMap ==> k.city == k.cityCalc)
      && (k.provCalc in provMap ==> k.prov == provMap[k.provCalc])
      && (k.provCalc !in provMap ==> k.prov == k.provCalc)
      && k.bia == Alias(provMap, ProviderBia)
  {
    ProviderBiaNormal();
  }

  /**
   * The composite tier of a frontera is the composite code of its tier
   * text, and comes with a simple tier of the same digit.
   */
  lemma KeysOfTiers(f: Record, cityMap: map<string, string>, provMap: map<string, string>,
                    parse: string -> Option<real>)
    ensures var k := KeysOf(f, cityMap, provMap, parse);
      && k.comp == CompTier(TextOf(Get(f, "nivel_de_tension")))
      && k.simp == SimpleTier(TextOf(Get(f, "nivel_de_tension")))
      && (k.comp.Some? ==> k.simp.Some? && k.comp.value[6] == k.simp.value[6])
  {
    var nivel := TextOf(Get(f, "nivel_de_tension"));
    var k := KeysOf(f, cityMap, provMap, parse);
    assert k.comp == FronteraComp(nivel) && k.simp == SimpleTier(nivel);
    TierPair(nivel);
  }

  /** The two tiers a frontera's tier text gives agree on the digit. */
  lemma TierPair(nivel: Option<string>)
    ensures FronteraComp(nivel) == CompTier(nivel)
    ensures FronteraComp(nivel).Some? ==> SimpleTier(nivel).Some? && FronteraComp(nivel).value[6] == SimpleTier(nivel).value[6]
  {
    FronteraCompSpec(nivel);
    CompTierDigit(nivel);
  }

  /**
   * A consumption of 0 under 'consumo_kwh' or 'consumo' is falsy, so when no
   * later alias holds a value the frontera has no consumption at all, and no
   * costs.
   */
  lemma ZeroConsumptionIsAbsent(f: Record, t: string, parse: string -> Option<real>)
    requires Get(f, "consumo_kwh") == JNum(0.0, t) || Get(f, "consumo") == JNum(0.0, t)
    requires !Truthy(Get(f, "consumo_kwh")) && !Truthy(Get(f, "consumo"))
    requires "kwh_mes" !in f
    ensures Consumption(ConsumoRaw(f), parse) == None
  {
  }

  // ---------------------------------------------------------------------
  // Lookups
  // ---------------------------------------------------------------------

  /** The two rate indexes and the two provider buckets of the filtered tariff rows. */
  datatype Indexes = Indexes(
    comp: map<Key4, real>, simp: map<Key4, real>,
    bucketComp: map<Key3, seq<string>>, bucketSimp: map<Key3, seq<string>>)

  /** Both buckets agree with their indexes in both directions. */
  predicate Consistent(ix: Indexes) {
    && BucketSound(ix.comp, ix.bucketComp) && BucketComplete(ix.comp, ix.bucketComp)
    && BucketSound(ix.simp, ix.bucketSimp) && BucketComplete(ix.simp, ix.bucketSimp)
  }

  function IndexAt(ix: Indexes, lvl: Level): map<Key4, real> {
    match lvl
      case Comp => ix.comp
      case Simp => ix.simp
  }

  function BucketAt(ix: Indexes, lvl: Level): map<Key3, seq<string>> {
    match lvl
      case Comp => ix.bucketComp
      case Simp => ix.bucketSimp
  }

  function TierAt(k: Keys, lvl: Level): Option<string> {
    match lvl
      case Comp => k.comp
      case Simp => k.simp
  }

  /** `idx.get((mes, city, tier, prov))`; a missing tier is never a key. */
  function Lookup(idx: map<Key4, real>, mes: string, city: string, tier: Option<string>, prov: string): (r: Option<real>)
    ensures r.Some? <==> tier.Some? && (mes, city, tier.value, prov) in idx
    ensures r.Some? ==> r.value == idx[(mes, city, tier.value, prov)]
  {
    if tier.Some? && (mes, city, tier.value, prov) in idx then Some(idx[(mes, city, tier.value, prov)]) else None
  }

  /**
   * A lookup in an index built from tariff rows misses exactly when no row
   * with a tier on that level has the key, and otherwise finds the rate of
   * the last row that has it.
   */
  lemma LookupOfRows(rows: seq<TariffRow>, lvl: Level, mes: string, city: string, tier: string, prov: string)
    ensures Lookup(IndexOf(rows, lvl), mes, city, Some(tier), prov).None? <==>
      forall i :: 0 <= i < |rows| ==> !RowHasKey(rows, lvl, i, (mes, city, tier, prov))
    ensures forall i :: LastRowWithKey(rows, lvl, i, (mes, city, tier, prov)) ==>
      Lookup(IndexOf(rows, lvl), mes, city, Some(tier), prov) == Some(rows[i].tarifa)
  {
    var k := (mes, city, tier, prov);
    IndexKeys(rows, lvl, k);
    forall i | LastRowWithKey(rows, lvl, i, k)
      ensures Lookup(IndexOf(rows, lvl), mes, city, Some(tier), prov) == Some(rows[i].tarifa)
    {
      IndexLastWins(rows, lvl, k, i);
    }
  }

  /** `bucket.get((mes, city, tier), [])`. */
  function BucketGet(b: map<Key3, seq<string>>, mes: string, city: string, tier: Option<string>): seq<string> {
    if tier.Some? && (mes, city, tier.value) in b then b[(mes, city, tier.value)] else []
  }

  /** The exact lookup of `prov` on one tier level for this month and city. */
  function Exact(ix: Indexes, lvl: Level, mes: string, k: Keys, prov: string): Option<real> {
    Lookup(IndexAt(ix, lvl), mes, k.city, TierAt(k, lvl), prov)
  }

  /** The fuzzy match looks in the composite bucket when the frontera has a composite tier. */
  function FuzzyLevel(k: Keys): Level {
    if k.comp.Some? then Comp else Simp
  }

  /** The providers in the bucket the fuzzy match searches. */
  function FuzzyCandidates(ix: Indexes, mes: string, k: Keys): seq<string> {
    var lvl := FuzzyLevel(k);
    BucketGet(BucketAt(ix, lvl), mes, k.city, TierAt(k, lvl))
  }

  // ---------------------------------------------------------------------
  // One month
  // ---------------------------------------------------------------------

  /** Which exact lookup found the incumbent rate. */
  datatype Variant = Compuesto | Simple

  /** The rates of one month together with the audit fields. */
  datatype Resolution = Resolution(
    tBia: Option<real>, tAct: Option<real>, usedProvider: string,
    variant: Option<Variant>, usedFallback: bool, fallbackScore: Option<real>)

  /** The first of two lookups that finds something. */
  function OrElse(a: Option<real>, b: Option<real>): Option<real> {
    if a.Some? then a else b
  }

  /**
   * The resolution policy as an ordered list of strategies: the BIA rate
   * by composite then simple key; the incumbent rate by composite key, then
   * simple key, then the best token match in the bucket of the fuzzy level
   * when it scores at least the threshold.
   */
  function Resolve(ix: Indexes, mes: string, k: Keys): Resolution {
    var bia := OrElse(Exact(ix, Comp, mes, k, k.bia), Exact(ix, Simp, mes, k, k.bia));
    var c := Exact(ix, Comp, mes, k, k.prov);
    var s := Exact(ix, Simp, mes, k, k.prov);
    if c.Some? then Resolution(bia, c, k.prov, Some(Compuesto), false, None)
    else if s.Some? then Resolution(bia, s, k.prov, Some(Simple), false, None)
    else
      var here := FuzzyCandidates(ix, mes, k);
      var m := BestMatch(k.prov, here);
      if here != [] && m.best.Some? && m.score >= MatchThreshold then
        Resolution(bia, Exact(ix, FuzzyLevel(k), mes, k, m.best.value), m.best.value, None, true, Some(m.score))
      else Resolution(bia, None, k.prov, None, false, None)
  }

  /** The body of the month loop: lookups tried in turn, each only while nothing is found. */
  method ResolveMonth(ix: Indexes, mes: string, k: Keys) returns (res: Resolution)
    ensures res == Resolve(ix, mes, k)
  {
    // BIA: composite, then simple.
    var tBia := if k.comp.Some? then Lookup(ix.comp, mes, k.city, k.comp, k.bia) else None;
    if tBia.None? && k.simp.Some? {
      tBia := Lookup(ix.simp, mes, k.city, k.simp, k.bia);
    }
    assert tBia == OrElse(Exact(ix, Comp, mes, k, k.bia), Exact(ix, Simp, mes, k, k.bia));
    // Incumbent: composite.
    var tAct := if k.comp.Some? then Lookup(ix.comp, mes, k.city, k.comp, k.prov) else None;
    var usedProvider := k.prov;
    var variant: Option<Variant> := if tAct.Some? then Some(Compuesto) else None;
    var usedFallback := false;
    var fallbackScore: Option<real> := None;
    // Incumbent: simple.
    if tAct.None? && k.simp.Some? {
      tAct := Lookup(ix.simp, mes, k.city, k.simp, k.prov);
      variant := if tAct.Some? then Some(Simple) else None;
    }
    // Incumbent: fuzzy provider match in the bucket of the tier at hand.
    if tAct.None? {
      var useComp := variant == Some(Compuesto) || (variant.None? && k.comp.Some?);
      var here := if useComp then BucketGet(ix.bucketComp, mes, k.city, k.comp) else BucketGet(ix.bucketSimp, mes, k.city, k.simp);
      if here != [] {
        var cand, score := BestTokenMatch(usedProvider, here);
        if cand.Some? && score >= MatchThreshold {
          tAct := if useComp then Lookup(ix.comp, mes, k.city, k.comp, cand.value) else Lookup(ix.simp, mes, k.city, k.simp, cand.value);
          usedProvider := cand.value;
          usedFallback := true;
          fallbackScore := Some(score);
        }
      }
    }
    res := Resolution(tBia, tAct, usedProvider, variant, usedFallback, fallbackScore);
  }

  /**
   * The BIA rate is the composite entry for the BIA key when there is one
   * and the simple entry otherwise; it is absent exactly when neither exists.
   */
  lemma BiaRateSpec(ix: Indexes, mes: string, k: Keys)
    ensures var r := Resolve(ix, mes, k).tBia;
      && (k.comp.Some? && (mes, k.city, k.comp.value, k.bia) in ix.comp ==> r == Some(ix.comp[(mes, k.city, k.comp.value, k.bia)]))
      && (!(k.comp.Some? && (mes, k.city, k.comp.value, k.bia) in ix.comp) && k.simp.Some? && (mes, k.city, k.simp.value, k.bia) in ix.simp ==>
            r == Some(ix.simp[(mes, k.city, k.simp.value, k.bia)]))
      && (r.None? <==> !(k.comp.Some? && (mes, k.city, k.comp.value, k.bia) in ix.comp) &&
                        !(k.simp.Some? && (mes, k.city, k.simp.value, k.bia) in ix.simp))
  {
  }

  /**
   * The BIA rate never comes from a fuzzy match: it depends neither on the
   * buckets nor on the incumbent provider.
   */
  lemma BiaIgnoresFallback(ix: Indexes, ix2: Indexes, mes: string, k: Keys, prov2: string)
    requires ix2.comp == ix.comp && ix2.simp == ix.simp
    ensures Resolve(ix2, mes, k.(prov := prov2)).tBia == Resolve(ix, mes, k).tBia
  {
    var k2 := k.(prov := prov2);
    assert Resolve(ix2, mes, k2).tBia == OrElse(Exact(ix2, Comp, mes, k2, k2.bia), Exact(ix2, Simp, mes, k2, k2.bia));
    assert Resolve(ix, mes, k).tBia == OrElse(Exact(ix, Comp, mes, k, k.bia), Exact(ix, Simp, mes, k, k.bia));
  }

  /**
   * The incumbent rate takes the composite entry when there is one, the
   * simple entry otherwise, and only then the fuzzy match; the variant
   * records which exact lookup found it, and the provider used is the
   * incumbent's own unless the fuzzy match fired.
   */
  lemma IncumbentOrder(ix: Indexes, mes: string, k: Keys)
    ensures var r := Resolve(ix, mes, k);
      && (r.variant == Some(Compuesto) <==> Exact(ix, Comp, mes, k, k.prov).Some?)
      && (r.variant == Some(Compuesto) ==> r.tAct == Exact(ix, Comp, mes, k, k.prov))
      && (r.variant == Some(Simple) <==> Exact(ix, Comp, mes, k, k.prov).None? && Exact(ix, Simp, mes, k, k.prov).Some?)
      && (r.variant == Some(Simple) ==> r.tAct == Exact(ix, Simp, mes, k, k.prov))
      && (r.usedFallback ==> r.variant.None? && Exact(ix, Comp, mes, k, k.prov).None? && Exact(ix, Simp, mes, k, k.prov).None?)
      && (!r.usedFallback ==> r.usedProvider == k.prov && r.fallbackScore.None?)
      && (r.variant.None? && !r.usedFallback ==> r.tAct.None?)
  {
  }

  /** When the fuzzy match fires, its candidate and score are the best match in the fuzzy bucket. */
  lemma FallbackShape(ix: Indexes, mes: string, k: Keys)
    requires Resolve(ix, mes, k).usedFallback
    ensures var m := BestMatch(k.prov, FuzzyCandidates(ix, mes, k));
      && m.best.Some? && m.score >= MatchThreshold
      && Resolve(ix, mes, k).usedProvider == m.best.value
      && Resolve(ix, mes, k).fallbackScore == Some(m.score)
  {
  }

  /**
   * When the fuzzy match fires, the provider used is one of the bucket's,
   * it scores at least the threshold and at most 1, no provider of the
   * bucket scores higher, and the score recorded is its score.
   */
  lemma FallbackChoice(ix: Indexes, mes: string, k: Keys)
    requires Resolve(ix, mes, k).usedFallback
    ensures var r := Resolve(ix, mes, k);
      var here := FuzzyCandidates(ix, mes, k);
      && r.usedProvider in here
      && r.fallbackScore == Some(Score(TokenSet(k.prov), TokenSet(r.usedProvider)))
      && MatchThreshold <= r.fallbackScore.value <= 1.0
      && forall c :: c in here ==> Score(TokenSet(k.prov), TokenSet(c)) <= r.fallbackScore.value
  {
    FallbackShape(ix, mes, k);
    BestOfBucket(k.prov, FuzzyCandidates(ix, mes, k));
  }

  /** The best match of a non-empty result is a candidate with that score, scoring at least every candidate. */
  lemma BestOfBucket(target: string, here: seq<string>)
    requires BestMatch(target, here).best.Some?
    ensures var m := BestMatch(target, here);
      && m.best.value in here
      && m.score == Score(TokenSet(target), TokenSet(m.best.value))
      && m.score <= 1.0
      && forall c :: c in here ==> Score(TokenSet(target), TokenSet(c)) <= m.score
  {
    BestMatchSpec(target, here);
    var m := BestMatch(target, here);
    var j :| FirstAt(TokenSet(target), TokenSet, here, j, m.best.value, m.score);
    forall c | c in here ensures Score(TokenSet(target), TokenSet(c)) <= m.score {
      var i :| 0 <= i < |here| && here[i] == c;
    }
  }

  /**
   * With buckets that agree with their indexes, a fuzzy match that fires
   * always finds a rate, under a provider other than the incumbent's.
   */
  lemma FallbackFindsRate(ix: Indexes, mes: string, k: Keys)
    requires Consistent(ix)
    requires Resolve(ix, mes, k).usedFallback
    ensures var r := Resolve(ix, mes, k);
      && r.tAct.Some?
      && r.tAct == Exact(ix, FuzzyLevel(k), mes, k, r.usedProvider)
      && r.usedProvider != k.prov
  {
    var r := Resolve(ix, mes, k);
    FallbackChoice(ix, mes, k);
    FallbackMissedExact(ix, mes, k);
    BucketHit(ix, FuzzyLevel(k), mes, k, r.usedProvider);
  }

  /** The fuzzy match fires only after both exact lookups of the incumbent missed. */
  lemma FallbackMissedExact(ix: Indexes, mes: string, k: Keys)
    requires Resolve(ix, mes, k).usedFallback
    ensures Exact(ix, FuzzyLevel(k), mes, k, k.prov).None?
    ensures Resolve(ix, mes, k).tAct == Exact(ix, FuzzyLevel(k), mes, k, Resolve(ix, mes, k).usedProvider)
  {
  }

  /** A provider the bucket lists for this month, city and tier has a rate there. */
  lemma BucketHit(ix: Indexes, lvl: Level, mes: string, k: Keys, p: string)
    requires Consistent(ix)
    requires p in BucketGet(BucketAt(ix, lvl), mes, k.city, TierAt(k, lvl))
    ensures Exact(ix, lvl, mes, k, p).Some?
  {
    var tier := TierAt(k, lvl);
    var b := BucketAt(ix, lvl);
    assert tier.Some? && (mes, k.city, tier.value) in b;
    assert (mes, k.city, tier.value, p) in IndexAt(ix, lvl);
  }

  /**
   * With consistent buckets, no incumbent rate means: no exact entry on
   * either level, and the fuzzy bucket is empty or has no candidate scoring
   * at least the threshold.
   */
  lemma IncumbentMissing(ix: Indexes, mes: string, k: Keys)
    requires Consistent(ix)
    requires Resolve(ix, mes, k).tAct.None?
    ensures Exact(ix, Comp, mes, k, k.prov).None? && Exact(ix, Simp, mes, k, k.prov).None?
    ensures !Resolve(ix, mes, k).usedFallback
    ensures forall c :: c in FuzzyCandidates(ix, mes, k) ==> Score(TokenSet(k.prov), TokenSet(c)) < MatchThreshold
  {
    var here := FuzzyCandidates(ix, mes, k);
    if Resolve(ix, mes, k).usedFallback {
      FallbackFindsRate(ix, mes, k);
    }
    BestMatchSpec(k.prov, here);
    forall c | c in here ensures Score(TokenSet(k.prov), TokenSet(c)) < MatchThreshold {
      var i :| 0 <= i < |here| && here[i] == c;
    }
  }

  // ---------------------------------------------------------------------
  // Costs
  // ---------------------------------------------------------------------

  /** Cost, unit delta and savings of one month. */
  datatype Costs = Costs(costoBia: Option<real>, costoAct: Option<real>, delta: Option<real>, ahorro: Option<real>)

  function Times(a: Option<real>, b: Option<real>): Option<real> {
    if a.Some? && b.Some? then Some(a.value * b.value) else None
  }

  function Minus(a: Option<real>, b: Option<real>): Option<real> {
    if a.Some? && b.Some? then Some(a.value - b.value) else None
  }

  /** `consumo * t`, `t_act - t_bia`, `costo_act - costo_bia`, each only with both operands present. */
  function CostsOf(consumo: Option<real>, tBia: Option<real>, tAct: Option<real>): Costs {
    var cb := Times(consumo, tBia);
    var ca := Times(consumo, tAct);
    Costs(cb, ca, Minus(tAct, tBia), Minus(ca, cb))
  }

  /**
   * Absence propagates and is never taken as zero: each figure is absent
   * exactly when one of the inputs it needs is, and the savings are the
   * consumption times the unit delta.
   */
  lemma CostsSpec(consumo: Option<real>, tBia: Option<real>, tAct: Option<real>)
    ensures var c := CostsOf(consumo, tBia, tAct);
      && (c.costoBia.None? <==> consumo.None? || tBia.None?)
      && (c.costoAct.None? <==> consumo.None? || tAct.None?)
      && (c.delta.None? <==> tAct.None? || tBia.None?)
      && (c.ahorro.None? <==> consumo.None? || tAct.None? || tBia.None?)
      && (c.costoBia.Some? ==> c.costoBia.value == consumo.value * tBia.value)
      && (c.costoAct.Some? ==> c.costoAct.value == consumo.value * tAct.value)
      && (c.delta.Some? ==> c.delta.value == tAct.value - tBia.value)
      && (c.ahorro.Some? ==> c.ahorro.value == consumo.value * c.delta.value)
  {
    if consumo.Some? && tAct.Some? && tBia.Some? {
      calc {
        consumo.value * tAct.value - consumo.value * tBia.value;
        consumo.value * (tAct.value - tBia.value);
      }
    }
  }

  // ---------------------------------------------------------------------
  // Fronteras and opportunities
  // ---------------------------------------------------------------------

  /** One entry of `analisis_mensual` (amounts before rounding). */
  datatype MonthRow = MonthRow(mes: string, tarifaBia: Option<real>, tarifaAct: Option<real>, consumo: Option<real>, costs: Costs)

  /** One audit row. */
  datatype DebugRow = DebugRow(
    oportunidad: JVal, frontierName: JVal, mes: string, city: string,
    comp: Option<string>, simp: Option<string>, variant: Option<Variant>,
    provCalc: string, provTar: string, provUsed: Option<string>,
    usedFallback: bool, fallbackScore: Option<real>, foundBia: bool, foundAct: bool)

  /** One entry of the frontera list of an opportunity. */
  datatype FronteraOut = FronteraOut(
    frontierName: JVal, cityCalc: string, cityTar: string, nivel: Option<string>,
    provCalc: string, provTar: string, mensual: seq<MonthRow>)

  /** An opportunity as read from the curated document; missing 'fronteras' reads as empty. */
  datatype OppIn = OppIn(oportunidad: JVal, cliente: JVal, fronteras: seq<Record>)

  /** One opportunity of the analysis document. */
  datatype OppOut = OppOut(oportunidad: JVal, cliente: JVal, fronteras: seq<FronteraOut>)

  /** Everything the per-frontera loop reads besides the frontera. */
  datatype Context = Context(ix: Indexes, cityMap: map<string, string>, provMap: map<string, string>, parse: string -> Option<real>)

  function MonthRowOf(mes: string, k: Keys, r: Resolution): MonthRow {
    MonthRow(mes, r.tBia, r.tAct, k.consumo, CostsOf(k.consumo, r.tBia, r.tAct))
  }

  function DebugOf(opp: JVal, f: Record, mes: string, k: Keys, r: Resolution): DebugRow {
    DebugRow(opp, Get(f, "frontier_name"), mes, k.city, k.comp, k.simp, r.variant, k.provCalc, k.prov,
             if r.tAct.Some? then Some(r.usedProvider) else None,
             r.usedFallback, r.fallbackScore, r.tBia.Some?, r.tAct.Some?)
  }

  /** `nivel_comp_f or nivel_simp_f`. */
  function ShownTier(k: Keys): Option<string> {
    if k.comp.Some? && k.comp.value != "" then k.comp else k.simp
  }

  function FronteraOutOf(f: Record, k: Keys, mensual: seq<MonthRow>): FronteraOut {
    FronteraOut(Get(f, "frontier_name"), k.cityCalc, k.city, ShownTier(k), k.provCalc, k.prov, mensual)
  }

  /** The month rows and audit rows under keys `k`, one of each per month, in month order. */
  predicate MonthsResolved(ix: Indexes, opp: JVal, f: Record, k: Keys, meses: seq<string>, mensual: seq<MonthRow>, debug: seq<DebugRow>) {
    && |mensual| == |meses| && |debug| == |meses|
    && (forall i :: 0 <= i < |meses| ==> mensual[i] == MonthRowOf(meses[i], k, Resolve(ix, meses[i], k)))
    && (forall i :: 0 <= i < |meses| ==> debug[i] == DebugOf(opp, f, meses[i], k, Resolve(ix, meses[i], k)))
  }

  /** The entry and the audit rows of one frontera. */
  predicate FronteraResolved(ctx: Context, opp: JVal, f: Record, meses: seq<string>, fo: FronteraOut, debug: seq<DebugRow>) {
    var k := KeysOf(f, ctx.cityMap, ctx.provMap, ctx.parse);
    && fo == FronteraOutOf(f, k, fo.mensual)
    && MonthsResolved(ctx.ix, opp, f, k, meses, fo.mensual, debug)
  }

  /** One more month resolved. */
  lemma MonthsSnoc(ix: Indexes, opp: JVal, f: Record, k: Keys, meses: seq<string>, i: nat, mensual: seq<MonthRow>, debug: seq<DebugRow>,
                   r: Resolution)
    requires i < |meses| && MonthsResolved(ix, opp, f, k, meses[..i], mensual, debug)
    requires r == Resolve(ix, meses[i], k)
    ensures MonthsResolved(ix, opp, f, k, meses[..i + 1], mensual + [MonthRowOf(meses[i], k, r)], debug + [DebugOf(opp, f, meses[i], k, r)])
  {
    assert meses[..i + 1] == meses[..i] + [meses[i]];
  }

  /** The month loop of one frontera, under its keys `k`. */
  method ResolveMonths(ix: Indexes, opp: JVal, f: Record, k: Keys, meses: seq<string>) returns (mensual: seq<MonthRow>, debug: seq<DebugRow>)
    ensures MonthsResolved(ix, opp, f, k, meses, mensual, debug)
  {
    mensual := [];
    debug := [];
    var i := 0;
    while i < |meses|
      invariant 0 <= i <= |meses|
      invariant MonthsResolved(ix, opp, f, k, meses[..i], mensual, debug)
    {
      var r := ResolveMonth(ix, meses[i], k);
      MonthsSnoc(ix, opp, f, k, meses, i, mensual, debug, r);
      mensual := mensual + [MonthRowOf(meses[i], k, r)];
      debug := debug + [DebugOf(opp, f, meses[i], k, r)];
      i := i + 1;
    }
    assert meses[..|meses|] == meses;
  }

  /** One frontera: its keys, then the month loop. */
  method ResolveFrontera(ctx: Context, opp: JVal, f: Record, meses: seq<string>) returns (fo: FronteraOut, debug: seq<DebugRow>)
    ensures FronteraResolved(ctx, opp, f, meses, fo, debug)
  {
    var k := KeysOf(f, ctx.cityMap, ctx.provMap, ctx.parse);
    var mensual;
    mensual, debug := ResolveMonths(ctx.ix, opp, f, k, meses);
    fo := FronteraOutOf(f, k, mensual);
  }

  /** The entries and audit rows of a frontera list, position by position. */
  predicate FronterasResolved(ctx: Context, opp: JVal, fs: seq<Record>, meses: seq<string>, filas: seq<FronteraOut>, debug: seq<seq<DebugRow>>) {
    && |filas| == |fs| && |debug| == |fs|
    && forall j :: 0 <= j < |fs| ==> FronteraResolved(ctx, opp, fs[j], meses, filas[j], debug[j])
  }

  /** One more frontera resolved. */
  lemma FronterasSnoc(ctx: Context, opp: JVal, all: seq<Record>, j: nat, meses: seq<string>, filas: seq<FronteraOut>, debug: seq<seq<DebugRow>>,
                      fo: FronteraOut, d: seq<DebugRow>)
    requires j < |all| && FronterasResolved(ctx, opp, all[..j], meses, filas, debug)
    requires FronteraResolved(ctx, opp, all[j], meses, fo, d)
    ensures FronterasResolved(ctx, opp, all[..j + 1], meses, filas + [fo], debug + [d])
  {
    var fs := all[..j];
    var fs2, filas2, debug2 := all[..j + 1], filas + [fo], debug + [d];
    forall j | 0 <= j < |fs2| ensures FronteraResolved(ctx, opp, fs2[j], meses, filas2[j], debug2[j]) {
      if j < |fs| {
        assert fs2[j] == fs[j] && filas2[j] == filas[j] && debug2[j] == debug[j];
      }
    }
  }

  /** The frontera loop of one opportunity. */
  method ResolveOpp(ctx: Context, o: OppIn, meses: seq<string>) returns (out: OppOut, debug: seq<seq<DebugRow>>)
    ensures out.oportunidad == o.oportunidad && out.cliente == o.cliente
    ensures FronterasResolved(ctx, o.oportunidad, o.fronteras, meses, out.fronteras, debug)
  {
    var filas: seq<FronteraOut> := [];
    debug := [];
    var j := 0;
    while j < |o.fronteras|
      invariant 0 <= j <= |o.fronteras|
      invariant FronterasResolved(ctx, o.oportunidad, o.fronteras[..j], meses, filas, debug)
    {
      var fo, d := ResolveFrontera(ctx, o.oportunidad, o.fronteras[j], meses);
      FronterasSnoc(ctx, o.oportunidad, o.fronteras, j, meses, filas, debug, fo, d);
      filas := filas + [fo];
      debug := debug + [d];
      j := j + 1;
    }
    assert o.fronteras[..|o.fronteras|] == o.fronteras;
    out := OppOut(o.oportunidad, o.cliente, filas);
  }

  /** The opportunities' entries, and their audit rows grouped by opportunity and frontera. */
  predicate OppsResolved(ctx: Context, opps: seq<OppIn>, meses: seq<string>, salida: seq<OppOut>, debug: seq<seq<seq<DebugRow>>>) {
    && |salida| == |opps| && |debug| == |opps|
    && forall i :: 0 <= i < |opps| ==>
      && salida[i].oportunidad == opps[i].oportunidad && salida[i].cliente == opps[i].cliente
      && FronterasResolved(ctx, opps[i].oportunidad, opps[i].fronteras, meses, salida[i].fronteras, debug[i])
  }

  /** One more opportunity resolved. */
  lemma OppsSnoc(ctx: Context, all: seq<OppIn>, i: nat, meses: seq<string>, salida: seq<OppOut>, debug: seq<seq<seq<DebugRow>>>,
                 out: OppOut, d: seq<seq<DebugRow>>)
    requires i < |all| && OppsResolved(ctx, all[..i], meses, salida, debug)
    requires out.oportunidad == all[i].oportunidad && out.cliente == all[i].cliente
    requires FronterasResolved(ctx, all[i].oportunidad, all[i].fronteras, meses, out.fronteras, d)
    ensures OppsResolved(ctx, all[..i + 1], meses, salida + [out], debug + [d])
  {
    var opps := all[..i];
    var opps2, salida2, debug2 := all[..i + 1], salida + [out], debug + [d];
    forall i | 0 <= i < |opps2|
      ensures salida2[i].oportunidad == opps2[i].oportunidad && salida2[i].cliente == opps2[i].cliente
      ensures FronterasResolved(ctx, opps2[i].oportunidad, opps2[i].fronteras, meses, salida2[i].fronteras, debug2[i])
    {
      if i < |opps| {
        assert opps2[i] == opps[i] && salida2[i] == salida[i] && debug2[i] == debug[i];
      }
    }
  }

  /**
   * The tariff side of `main`: the rows prepared against the alias values
   * followed by "BIA ENERGY", kept within the month range, indexed and
   * bucketed on both tier levels, and the months they cover, in order. The
   * buckets it builds always agree with the indexes.
   * The caller supplies `aliasValues` as the values of the provider alias
   * table in its insertion order (`list(prov_map.values())`).
   */
  method PrepareTariffs(raw: seq<TariffRaw>, aliasValues: seq<string>, fromArg: string, toArg: string)
    returns (ix: Indexes, meses: seq<string>)
    ensures var rows := PreparedRows(raw, aliasValues, fromArg, toArg);
      && ix.comp == IndexOf(rows, Comp) && ix.simp == IndexOf(rows, Simp)
      && BucketBuilt(rows, Comp, ix.bucketComp) && BucketBuilt(rows, Simp, ix.bucketSimp)
      && StrictlySorted(meses) && (forall m :: m in meses <==> exists i :: 0 <= i < |rows| && rows[i].mesKey == m)
    ensures Consistent(ix)
  {
    var rows := PreparedRows(raw, aliasValues, fromArg, toArg);
    var comp := BuildIndex(rows, Comp);
    var simp := BuildIndex(rows, Simp);
    var bucketComp := BuildBucket(rows, Comp);
    var bucketSimp := BuildBucket(rows, Simp);
    BuiltBucketAgrees(rows, Comp, bucketComp);
    BuiltBucketAgrees(rows, Simp, bucketSimp);
    ix := Indexes(comp, simp, bucketComp, bucketSimp);
    meses := Months(rows);
  }

  /** The tariff rows the indexes are built from: prepared, then kept within the month range. */
  function PreparedRows(raw: seq<TariffRaw>, aliasValues: seq<string>, fromArg: string, toArg: string): seq<TariffRow> {
    FilterRange(PrepTariffs(raw, aliasValues + [ProviderBia]), RangeBound(fromArg), RangeBound(toArg))
  }

  /**
   * The outer loop of the analysis: one entry per opportunity in input
   * order, one per frontera in each, one month row per available month.
   * The audit rows are grouped by opportunity and frontera; the flat audit
   * list is their concatenation in this order.
   */
  method Analyse(ctx: Context, opps: seq<OppIn>, meses: seq<string>) returns (salida: seq<OppOut>, debug: seq<seq<seq<DebugRow>>>)
    ensures OppsResolved(ctx, opps, meses, salida, debug)
  {
    salida := [];
    debug := [];
    var i := 0;
    while i < |opps|
      invariant 0 <= i <= |opps|
      invariant OppsResolved(ctx, opps[..i], meses, salida, debug)
    {
      var o, d := ResolveOpp(ctx, opps[i], meses);
      OppsSnoc(ctx, opps, i, meses, salida, debug, o, d);
      salida := salida + [o];
      debug := debug + [d];
      i := i + 1;
    }
    assert opps[..|opps|] == opps;
  }
}
