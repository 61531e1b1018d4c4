# Tariff resolution engine — a Dafny model

This project models the tariff-resolution engine of an energy-savings
pipeline. The pipeline compares, month by month, what each metered service
point ("frontera") of a customer opportunity costs with its current
provider against what it would cost with the candidate provider BIA ENERGY.
It proves properties of that model in Dafny.

It has three stages, each a script of the repository:

- **Curation** (`run_opps_sql.py`). A flat table of opportunity rows is
  forward-filled column by column. It is then grouped by opportunity, in
  sorted key order, with the missing key last. Each group becomes one record:
  first non-empty texts, summed consumption and renting, first numeric
  figures, investment = capex + opex, one frontera per row, and a composite
  tier code `nivel_<d>_<kind>` (or `nivel_<d>`).
- **Analysis** (`run_tariff_analysis.py`). Tariff rows are prepared:
  - the month key is the first 7 characters of the month;
  - city and provider names are normalised;
  - the provider is canonicalised by token similarity against the alias
    targets;
  - composite and simple tier codes are read from the tier text;
  - rows without a numeric rate are dropped.

  The rows are then filtered to an inclusive month range. Next, two rate
  indexes keyed by (month, city, tier, provider) and two provider buckets
  keyed by (month, city, tier) are built. For every frontera and month, the
  BIA rate is looked up by composite then simple key. The incumbent rate is
  looked up by composite key, then simple key, then a best token match in
  the bucket, accepted at a score of 0.45 or more. Costs, unit delta and
  savings follow, each absent when one of its operands is. One audit row is
  written per lookup.
- **Summary** (`run_summary.py`). Costs are accumulated per opportunity
  and month:
  - only numbers are counted;
  - a month with no number stays absent, not zero;
  - a month where only some rows have numbers gets the sum of those.

  Opportunity headers are taken from the curated records, the last record
  winning. One summary row is produced per opportunity, in sorted order.
  Each row has its two month maps, the two totals and the saving.

Modules and their files:

| Module | File | Contents |
|---|---|---|
| `Options` | `options.dfy` | The option type. |
| `Json` | `json.dfy` | JSON values, Python truthiness, `or` and `coalesce`. |
| `TextNorm` | `text_norm.dfy` | Text normalisation, `split`/`join` and `strip`. |
| `StrOrder` | `str_order.dfy` | Python's string order and a sort of string sets. |
| `Tiers` | `tiers.dfy` | Simple and composite tier codes on both sides. |
| `Mappings` | `mappings.dfy` | The alias tables. |
| `ProviderMatch` | `provider_match.dfy` | Provider tokens, Jaccard score, best match, canonical provider, target list. |
| `TariffIndex` | `tariff_index.dfy` | Tariff preparation, range filter, indexes, buckets. |
| `RateResolver` | `rate_resolver.dfy` | Join keys, the lookup strategy, costs and the analysis loops. |
| `OppCuration` | `opp_curation.dfy` | Forward fill, grouping and records. |
| `Summary` | `summary.dfy` | Accumulation and the summary rows. |

Facts about the code that a reader might not expect:

- **`norm_text` is not idempotent.** It upper-cases before the
  compatibility decomposition, so 'ª' and 'º' come out as lower-case
  letters and a second pass changes them (see Findings). The rest of the
  model normalises with the corrected order; "## Left out" names what that
  changes.
- **Keyword priority differs by side.** On the tariff side the composite
  tier keywords rank operator, then user, then shared. The curation side
  ranks user before operator (`Tiers.KindPriorityDiffers`).
- **The "NIVEL then digit" loop never decides.** The first detection loop
  of `canonical_comp_from_tokens` already finds any digit that loop could
  find (`Tiers.NivelThenDigitInConcat`).
- **Tier codes are spelled `nivel_…`.** The code writes `nivel_<d>_<kind>`
  and `nivel_<d>`, and so does the model.
- **Totals over no numbers are 0.0.** A month with no number stays absent,
  but the opportunity totals are sums and start at 0.0. An opportunity
  where no month resolves therefore has a numeric saving, not null
  (`Summary.NoCostTotalZero`).
- **Only missing rates are dropped.** `dropna` removes NaN rates and keeps
  every other number, infinities included. The model keeps every numeric
  rate.

## Model

| member | source | states |
|---|---|---|
| TextNorm.NormTextAsWritten | run_tariff_analysis.py:25-31 | `norm_text` as written (upper-case, then drop combining marks, then collapse): absent input gives "", the result is trimmed with single ASCII spaces |
| TextNorm.NormTextAsWrittenNotIdempotent | run_tariff_analysis.py:28-29 | as written, 'ª' normalises to "a" and "a" to "A", so applying `norm_text` twice differs from once |
| TextNorm.NormText | run_tariff_analysis.py:25-31 | the normaliser the rest of the model uses (marks dropped, then upper-cased): absent input gives "", the result is trimmed with single ASCII spaces |
| TextNorm.NormTextIdempotent | run_tariff_analysis.py:25-31 | normalising a normalised text leaves it unchanged |
| TextNorm.NormTextOrdinal | run_tariff_analysis.py:28-29 | with the corrected order, 'ª' normalises to "A" directly |
| TextNorm.NormTextHas | run_tariff_analysis.py:28-30 | a non-blank character occurs in the normalised text exactly when some input character normalises to it |
| TextNorm.NormTextChars | run_tariff_analysis.py:28-29 | every character of a normalised text is a fixed point of the character map |
| TextNorm.NormTextFixed | run_tariff_analysis.py:25-31 | a whitespace-normal text whose characters are all fixed points normalises to itself |
| TextNorm.NormCharFixed | run_tariff_analysis.py:28-29 | the character map sends blanks to blanks, non-blanks to non-blanks, and is idempotent |
| TextNorm.CleanSpace | run_tariff_analysis.py:33-34 | `clean_space`/`_clean_str`: absent input gives "", the result is trimmed with single ASCII spaces |
| TextNorm.CleanSpaceIdempotent | run_tariff_analysis.py:33-34 | cleaning a cleaned text leaves it unchanged |
| TextNorm.Collapse | run_tariff_analysis.py:30 | `' '.join(s.split())` is trimmed with single ASCII spaces |
| TextNorm.CollapseIdempotent | run_tariff_analysis.py:30 | collapsing twice is collapsing once |
| TextNorm.CollapseNormalFixed | run_tariff_analysis.py:30 | a text already in that shape is kept |
| TextNorm.CollapseHas | run_tariff_analysis.py:30 | a non-blank character survives collapsing exactly when it is in the input |
| TextNorm.CollapseMap | run_tariff_analysis.py:28-30 | a character map that keeps blanks commutes with collapsing, so the leading `strip()` adds nothing |
| TextNorm.WordsJoin | run_tariff_analysis.py:30 | splitting the space-join of words gives back those words |
| TextNorm.Strip | run_opps_sql.py:65 | `str.strip()`: the input without its leading and trailing whitespace, empty exactly when the input is all whitespace |
| Tiers.FirstTierDigit | run_tariff_analysis.py:39-41 | the digit found is a tier digit present in the text with no smaller tier digit present, and none is found exactly when no tier digit occurs |
| Tiers.SimpleTier | run_tariff_analysis.py:36-45 | `canonical_simple`/`_nivel_simple` gives a label "NIVEL d" with d in 1..3 |
| Tiers.SimpleTierSpec | run_tariff_analysis.py:36-45 | the simple tier is present exactly when the normalised text has a tier digit, and is the label of the first one in the order 1, 2, 3 |
| Tiers.ScanTierDigitFinds | run_tariff_analysis.py:42-44 | the trailing character scan only finds tier digits that occur in the text |
| Tiers.SimpleTierPriorityExample | run_tariff_analysis.py:39-41 | "nivel 2 1" is tier 1: digit priority beats position |
| Tiers.TierTokensHave | run_tariff_analysis.py:52-53 | a tier digit is in the concatenated tokens exactly when it is in the normalised text |
| Tiers.DigitInConcat | run_tariff_analysis.py:57 | the four token tests of the first detection loop together equal the substring test on the concatenated tokens |
| Tiers.NivelThenDigitInConcat | run_tariff_analysis.py:60-64 | a digit the second loop would find is already found by the first, so the second loop never decides |
| Tiers.CompTierDigit | run_tariff_analysis.py:47-78 | the composite code is present exactly when there is a tier digit and a kind keyword; it is `nivel_<first digit>_<kind>`, and the simple tier has the same digit |
| Tiers.CompTierOfNormText | run_tariff_analysis.py:52 | with the corrected normaliser, the composite code of a normalised text equals that of the raw text |
| Tiers.OrdinalOperatorAsWritten | run_tariff_analysis.py:25-31 | with `norm_text` as written, "NIVEL 1 ºPERADOR" has no composite code, and its normalised form has 'nivel_1_operator' |
| Tiers.OrdinalOperatorCorrected | run_tariff_analysis.py:47-78 | with the corrected normaliser, "NIVEL 1 ºPERADOR" has the composite code 'nivel_1_operator' |
| Tiers.CompTierFixedPoint | run_tariff_analysis.py:47-78 | a curated composite code `nivel_d_kind` reads back as itself on the analysis side |
| Tiers.FallbackCodeIsSimpleOnly | run_opps_sql.py:108-111 | the curated fallback `nivel_d` has no composite code on the analysis side, but simple tier "NIVEL d" |
| Tiers.NivelCompuestoSpec | run_opps_sql.py:41-61 | `_nivel_compuesto` is absent exactly when the tier text has no tier digit or the ownership text none of the keywords; otherwise it is `nivel_<first digit>_<kind>` |
| Tiers.KindPriorityDiffers | run_opps_sql.py:52-57 | "USUARIO OPERADOR" is 'user' in curation but 'operator' on the tariff side |
| Tiers.FronteraTierSpec | run_opps_sql.py:105-111 | a frontera's tier is the composite code when there is one, else `nivel_<digit>`, and absent exactly when the tier text has no tier digit |
| Json.Or | run_tariff_analysis.py:259 | Python `a or b` gives one of its operands, truthy exactly when either is: the first when it is truthy, the last when neither is |
| Json.OrChain | run_tariff_analysis.py:259 | `a or b or c` is the first truthy operand, else the last one, however it is grouped |
| Json.Coalesce | run_tariff_analysis.py:80-84 | the result is null exactly when every value is null or ""; otherwise it is one of the non-blank values |
| Json.CoalesceFirst | run_tariff_analysis.py:80-84 | the result is the first value that is neither null nor "" |
| Json.CoalesceTakesZero | run_tariff_analysis.py:82 | a numeric 0 is not blank, so `coalesce` returns it |
| Mappings.DictEntries | run_tariff_analysis.py:111-113 | an object yields its members in order, key and value normalised |
| Mappings.RowEntries | run_tariff_analysis.py:116-119 | a list yields exactly the normalised pairs of its rows that have both 'key' and 'value' (order and count: `Mappings.RowEntriesConcat`) |
| Mappings.RowEntriesConcat | run_tariff_analysis.py:116-119 | rows are read in document order, one entry per usable row: the entries of a concatenation are those of each part |
| Mappings.InsertEntries | run_tariff_analysis.py:112-121 | the insertion loop builds `MappingOf` of the entries |
| Mappings.BuildMapping | run_tariff_analysis.py:110-122 | the table built from a decoded document is `MappingOf` its entries; any other document gives the empty table |
| Mappings.MappingOfSpec | run_tariff_analysis.py:114-121 | a key is mapped exactly when it is non-empty and some entry has it, and it maps to the value of the last such entry |
| Mappings.ListMappingLastWins | run_tariff_analysis.py:116-121 | a list document maps a key to the value of the last usable row with that normalised key |
| Mappings.MappingNormalised | run_tariff_analysis.py:113-121 | every key of a table is non-empty and normalised, and so is every value |
| Mappings.EntriesNormal | run_tariff_analysis.py:113-119 | every entry's key and value are normalised texts |
| ProviderMatch.DropStops | run_tariff_analysis.py:128-129 | the kept tokens are exactly the non-empty words outside the stop set |
| ProviderMatch.ProviderTokensSpec | run_tariff_analysis.py:125-130 | a provider token is a word of the normalised name (with '.', '/', '-' as separators) that is not a stop token, and each such word is one |
| ProviderMatch.ToSetSpec | run_tariff_analysis.py:133-138 | the token set holds exactly the tokens of the list |
| ProviderMatch.Score | run_tariff_analysis.py:141-143 | the Jaccard score lies in [0, 1] and is positive exactly when the sets share a token |
| ProviderMatch.ScoreOne | run_tariff_analysis.py:141-143 | the score is 1 exactly when the two token sets are equal and non-empty |
| ProviderMatch.ThresholdIntegral | run_tariff_analysis.py:143 | a score of at least 0.45 means exactly 100·|a∩b| ≥ 45·|a∪b| |
| ProviderMatch.BestUpToNone | run_tariff_analysis.py:136-146 | the scan chooses nothing exactly when no candidate shares a token with the target |
| ProviderMatch.BestUpToMax | run_tariff_analysis.py:136-146 | no candidate scores above the chosen score |
| ProviderMatch.BestUpToFirst | run_tariff_analysis.py:136-146 | the chosen candidate is the first to reach the chosen score: every earlier candidate scores strictly less |
| ProviderMatch.BestTokenMatch | run_tariff_analysis.py:132-146 | `best_token_match` computes the result of the scan `BestMatch` |
| ProviderMatch.BestMatchSpec | run_tariff_analysis.py:132-146 | no match (score 0) exactly when the target has no tokens or shares none with any candidate; otherwise the first candidate with the highest score in (0, 1] |
| ProviderMatch.NormTargets | run_tariff_analysis.py:169 | the normalised targets are exactly the normalised forms of the non-empty raw targets |
| ProviderMatch.Dedup | run_tariff_analysis.py:169 | removing duplicates keeps the same elements, each once |
| ProviderMatch.SortByLenDesc | run_tariff_analysis.py:169 | sorting by length keeps the elements and their count |
| ProviderMatch.SortByLenDescSorted | run_tariff_analysis.py:169 | the sort puts longer names first and keeps a duplicate-free list duplicate-free |
| ProviderMatch.SortByLenDescStable | run_tariff_analysis.py:169 | the sort is stable: for every length, the names of that length come out in their order in the input, as Python's `sorted` keeps ties |
| ProviderMatch.TargetListSpec | run_tariff_analysis.py:169 | the target list holds each normalised non-empty raw target exactly once, longest first |
| ProviderMatch.CanonProviderSpec | run_tariff_analysis.py:170-173 | the canonical provider is the input or a target. It is the input whenever the input is a target or has no tokens. When it differs, it is the best match and scores at least 0.45 |
| StrOrder.StrLtIrreflexive | run_tariff_analysis.py:235 | no string is below itself in Python's order |
| StrOrder.StrLtTransitive | run_tariff_analysis.py:235 | the order is transitive |
| StrOrder.StrLtTotal | run_tariff_analysis.py:235 | any two distinct strings are ordered one way |
| StrOrder.MinOf | run_summary.py:88 | the least element of a non-empty set is in it and below or equal to all others |
| StrOrder.SortStrings | run_summary.py:88 | `sorted(set)`: strictly increasing, with exactly the set's elements |
| StrOrder.SortedUnique | run_summary.py:88-90 | two strictly sorted lists with the same elements are equal, so the sorted order is determined |
| TariffIndex.Take7 | run_tariff_analysis.py:158 | `[:7]`: a prefix of at most 7 characters, exactly 7 when the input is that long, the whole input otherwise |
| TariffIndex.PrepRowSpec | run_tariff_analysis.py:157-174 | a prepared row has a month key of at most 7 characters, the row's rate and a whitespace-normal city. Its provider is the normalised name or one of the targets. A composite tier implies a simple one |
| TariffIndex.PrepRowsSpec | run_tariff_analysis.py:176 | the prepared rows are exactly the prepared forms of the raw rows that have a numeric rate, and there are no more of them than raw rows (order and count: `TariffIndex.PrepRowsConcat`) |
| TariffIndex.PrepRowsConcat | run_tariff_analysis.py:176 | `dropna` keeps the rows in order, one per raw row with a numeric rate: preparing a concatenation prepares each part |
| TariffIndex.RangeBound | run_tariff_analysis.py:233-234 | a range bound is at most 7 characters long |
| TariffIndex.RangeBoundKeeps | run_tariff_analysis.py:233-234 | a bound already in `YYYY-MM` form without surrounding space is kept |
| TariffIndex.FilterRange | run_tariff_analysis.py:235 | a row is kept exactly when its month key lies between the bounds, both included (order and count: `TariffIndex.FilterRangeConcat`) |
| TariffIndex.FilterRangeConcat | run_tariff_analysis.py:235 | the mask keeps order and duplicates: filtering a concatenation filters each part, and one row is kept exactly when it is in range |
| TariffIndex.RangeBoundsIncluded | run_tariff_analysis.py:235 | rows dated at either bound of a non-empty range are kept |
| TariffIndex.FilterRangeIdempotent | run_tariff_analysis.py:235 | filtering twice is filtering once |
| TariffIndex.Months | run_tariff_analysis.py:243 | the available months are strictly increasing and exactly the month keys of the rows |
| TariffIndex.BuildIndex | run_tariff_analysis.py:179-193 | `build_index_comp`/`build_index_simple` computes `IndexOf`, the rows written in order |
| TariffIndex.IndexKeys | run_tariff_analysis.py:179-193 | a key is in an index exactly when some row with that tier level has it |
| TariffIndex.IndexLastWins | run_tariff_analysis.py:184 | a key maps to the rate of the last row with that key |
| TariffIndex.IndexHasEveryRow | run_tariff_analysis.py:182-192 | looking up the exact key a row was inserted with always finds a rate |
| TariffIndex.BucketIndexAgree | run_tariff_analysis.py:195-205 | a provider is in a bucket exactly when its four-part key is in the index, and buckets are never empty |
| TariffIndex.BucketKeys | run_tariff_analysis.py:195-205 | a bucket exists exactly when the index has some provider under its three-part key |
| TariffIndex.CollectProviders | run_tariff_analysis.py:200-204 | the collection loop computes the provider sets `BucketSets` |
| TariffIndex.SortBuckets | run_tariff_analysis.py:205 | each provider set becomes a strictly sorted list with the same elements |
| TariffIndex.BuildBucket | run_tariff_analysis.py:195-205 | the buckets have the keys of `BucketSets`, each a strictly sorted list of that set's providers |
| TariffIndex.BuiltBucketAgrees | run_tariff_analysis.py:195-205 | such buckets agree with the index built from the same rows in both directions |
| RateResolver.PrepareTariffs | run_tariff_analysis.py:229-243 | the indexes are those of the prepared, range-filtered rows; each bucket list is the strictly sorted list of the providers `build_bucket` collects under its key; the months are the rows' sorted month keys; the buckets agree with the indexes |
| RateResolver.ProviderBiaNormal | run_tariff_analysis.py:271 | "BIA ENERGY" is already normalised |
| RateResolver.ZeroConsumptionIsAbsent | run_tariff_analysis.py:259 | a consumption of 0 is falsy for `or`, so with no later alias the frontera has no consumption |
| RateResolver.FronteraCompSpec | run_tariff_analysis.py:274 | with the corrected normaliser, the retry on the normalised text never changes the frontera's composite code |
| RateResolver.FronteraCompAsWrittenRetry | run_tariff_analysis.py:274 | with `norm_text` as written, the retry matters: for "NIVEL 1 ºPERADOR" the first try finds nothing and the retry finds 'nivel_1_operator', which the corrected normaliser finds at once |
| RateResolver.TierPair | run_tariff_analysis.py:274-275 | a frontera with a composite tier also has a simple tier with the same digit |
| RateResolver.KeysOfNames | run_tariff_analysis.py:257-271 | the computed city and provider are normalised and replaced by their aliases when the tables have them; the BIA key is the alias of "BIA ENERGY" or that name |
| RateResolver.KeysOfTiers | run_tariff_analysis.py:274-275 | the frontera's tiers are the composite and simple codes of its tier text |
| RateResolver.LookupOfRows | run_tariff_analysis.py:179-192 | a lookup in an index built from tariff rows misses exactly when no row has the key, and otherwise finds the rate of the last row that has it |
| RateResolver.ResolveMonth | run_tariff_analysis.py:283-320 | the month loop body computes `Resolve`, the ordered lookup strategy whose properties the lemmas below state |
| RateResolver.BiaRateSpec | run_tariff_analysis.py:284-289 | the BIA rate is the composite rate when that key exists, else the simple rate, and absent exactly when neither key exists |
| RateResolver.BiaIgnoresFallback | run_tariff_analysis.py:284-289 | the BIA rate depends on neither the incumbent provider nor the buckets |
| RateResolver.IncumbentOrder | run_tariff_analysis.py:291-301 | 'compuesto' exactly when the composite lookup hits; 'simple' exactly when only the simple one does; the fuzzy match runs only after both miss; otherwise the mapped provider is the one used |
| RateResolver.FallbackShape | run_tariff_analysis.py:311-320 | a fuzzy fallback means the best match was found and scored at least 0.45; the used provider and score are that match's |
| RateResolver.FallbackChoice | run_tariff_analysis.py:303-320 | a fallback provider comes from the bucket searched, its score lies between 0.45 and 1, and no provider of that bucket scores higher |
| RateResolver.BestOfBucket | run_tariff_analysis.py:312 | a best match is a member of the candidates with the maximal score |
| RateResolver.FallbackMissedExact | run_tariff_analysis.py:304-317 | when the fallback fires, the exact key at the fuzzy level misses, and the rate is the lookup of the matched provider |
| RateResolver.BucketHit | run_tariff_analysis.py:307-317 | a provider listed in a bucket always has a rate on that level |
| RateResolver.FallbackFindsRate | run_tariff_analysis.py:311-320 | with consistent buckets, a fired fallback always finds a rate, for a provider other than the mapped one |
| RateResolver.IncumbentMissing | run_tariff_analysis.py:291-320 | with consistent buckets, no incumbent rate means both exact lookups missed, no fallback fired, and every provider in the bucket scores below 0.45 |
| RateResolver.CostsSpec | run_tariff_analysis.py:322-326 | each figure is absent exactly when an operand it needs is absent, never zero; costs are consumption times rate; the delta is the difference of rates; the saving is consumption times delta |
| RateResolver.ResolveMonths | run_tariff_analysis.py:282-354 | one month row and one audit row per available month, in order, each built from `Resolve` |
| RateResolver.ResolveFrontera | run_tariff_analysis.py:256-364 | the frontera entry carries the computed keys, the shown tier and the month rows of its keys |
| RateResolver.ResolveOpp | run_tariff_analysis.py:249-370 | one entry per frontera in order, with the opportunity's id and client |
| RateResolver.Analyse | run_tariff_analysis.py:249-370 | one entry per opportunity in input order, each fully resolved, with the audit rows grouped in the same order |
| OppCuration.FFilledSpec | run_opps_sql.py:85-87 | a forward-filled cell keeps a present value and is missing exactly when every cell up to it is. Otherwise it is the last present value at or before it |
| OppCuration.FFilledIdempotent | run_opps_sql.py:85-87 | filling a filled column changes nothing |
| OppCuration.FFilledNoGap | run_opps_sql.py:85-87 | the same, cell by cell |
| OppCuration.ForwardFillColumn | run_opps_sql.py:85-87 | in place, the column becomes its forward fill; every other cell and number is unchanged |
| OppCuration.ForwardFill | run_opps_sql.py:76-87 | in place, the table becomes `FilledTable` of the old one |
| OppCuration.FilledTableSpec | run_opps_sql.py:76-87 | each identity cell of the filled table is the forward fill of its column; the numbers are unchanged |
| OppCuration.FirstUsable | run_opps_sql.py:63-67 | the position of the first cell that is present and not blank after stripping |
| OppCuration.FirstNonNull | run_opps_sql.py:63-67 | absent exactly when no cell is usable; otherwise the first usable cell |
| OppCuration.GroupMembers | run_opps_sql.py:91 | a row is in a key's group exactly when it is in the table with that key |
| OppCuration.GroupsCover | run_opps_sql.py:91 | every row is in the non-empty group of its own key |
| OppCuration.GroupKeys | run_opps_sql.py:91 | the keys are strictly ordered with the missing key last, each occurs in the table, and every row's key is among them |
| OppCuration.MapFronterasAt | run_opps_sql.py:104-123 | the i-th frontera of a group is built from the group's i-th row |
| OppCuration.BuildFronteras | run_opps_sql.py:103-123 | the frontera loop builds one frontera per row, in order |
| OppCuration.BuildRecord | run_opps_sql.py:91-137 | one group's record is `GroupRecord`, whose contents `RecordSpec` states |
| OppCuration.BuildRecords | run_opps_sql.py:90-138 | one record per key, in key order |
| OppCuration.SumOfFronteras | run_opps_sql.py:92-93 | the group's consumption and renting totals equal the sums over its fronteras |
| OppCuration.RecordSpec | run_opps_sql.py:91-137 | a record has its key and one frontera per group row. Totals are the sums over its fronteras, investment is capex + opex, the figures are the group's first (0 for an empty group), and the target is "BIA ENERGY" |
| OppCuration.FirstTextsSpec | run_opps_sql.py:96-100 | the client and city are the cleaned first usable texts of their columns, or "" when none is; both are whitespace-normal |
| OppCuration.Curate | run_opps_sql.py:76-138 | every record's key occurs in the filled table and every row's key has a record. Records are strictly ordered by key, each the record of its group |
| Summary.AddRows | run_summary.py:75-84 | the month-row loop adds the rows' entries to the accumulators |
| Summary.AddFronteras | run_summary.py:74-84 | the frontera loop adds the fronteras' entries in order |
| Summary.Accumulate | run_summary.py:68-84 | the accumulators are those of all entries of the analysis, in order |
| Summary.SeenSpec | run_summary.py:77 | an opportunity is seen exactly when it has an entry, and a month is seen for it exactly when one of its entries has that month |
| Summary.CostSpec | run_summary.py:78-84 | a month has an amount on a side exactly when one of its entries has a number there, and the amount is the sum of those numbers |
| Summary.CostMonthSeen | run_summary.py:77-84 | a month with an amount is a seen month |
| Summary.ZeroCostCounts | run_summary.py:81-82 | a real cost of 0 is recorded as 0, not as missing |
| Summary.SumCostOverAll | run_summary.py:112-113 | summing the monthly amounts over a list holding every month of the opportunity gives the sum of all its numbers |
| Summary.SumCostOverEmpty | run_summary.py:112-113 | with no entries the total is 0 |
| Summary.NoCostTotalZero | run_summary.py:112-114 | an opportunity with no number on a side has total 0.0 on that side, not an absent total |
| Summary.CollectHeads | run_summary.py:48-63 | the header loop builds `HeadsOf` the records |
| Summary.HeadsKeys | run_summary.py:49-53 | an id has a header exactly when some record has that non-empty id |
| Summary.HeadsLastWins | run_summary.py:53-63 | an id's header is that of its last record |
| Summary.MonthMap | run_summary.py:93-109 | one pair per month in order, its amount when one was added and absent otherwise; the total is their sum |
| Summary.SummaryRow | run_summary.py:88-123 | the row has the opportunity's header and its seen months in order. Its amounts come from the accumulators; totals sum them; the saving is total actual − total BIA |
| Summary.SummaryRowFor | run_summary.py:88-123 | such a row states `RowFor`: months, amounts and totals as sums over the analysis entries |
| Summary.SummaryRows | run_summary.py:88-123 | one row per id, in the given order, each satisfying `RowFor` |
| Summary.Summarize | run_summary.py:47-123 | ids are strictly increasing; an id has a row exactly when it has a header or an analysis entry; every row satisfies `RowFor` |

## Left out

- File and network I/O is not modelled: argument parsing, JSON reading and writing, `print` and `os.makedirs`, the tariff fetch, and the file search in `load_mapping_json`. Inputs are parameters and outputs are results.
- Opportunity loading (`src/srcload.py`) is not part of this model. It coerces the numeric columns with `fillna(0)` (src/srcload.py:69-79), so they never hold NaN. For that reason the model's numeric columns are plain numbers, and the forward fill of 'Tarifa B', 'Costo Total Opex Oportunity' and 'Costo Total Capex Oportunity' (run_opps_sql.py:83-87) does nothing.
- `run.py`, `src/db.py`, `src/export.py` and `src/compute.py` are not part of this model.
- Floating point is not modelled: amounts are exact reals. `r2` rounding at output is left out; the model reports the unrounded values.
- The summary total is summed over the seen months in sorted order, not in dictionary insertion order. The two agree on exact reals.
- Floating-point parsing of a text consumption is a parameter (`parse`), and `pd.to_numeric` on the tariff rate is represented by an optional rate.
- TextNorm.NormText: the model normalises every text with the corrected order (fold, then upper-case), not with `norm_text` / `_norm_text` as written (run_tariff_analysis.py:28-29, run_opps_sql.py:26-27). The two differ only on texts with characters that decompose to a lower-case letter, such as 'ª' and 'º'. On such texts the program's join keys keep a lower-case letter where the model's have a capital: city, provider and alias keys, and the frontera keys. Exact lookups that the model hits can then miss in the program, and the fuzzy fallback or no rate at all takes their place. The tier codes differ too: `canonical_comp_from_tokens` can miss a keyword ("NIVEL 1 USUARIO OPERADºR" gives 'nivel_1_user' in the program and 'nivel_1_operator' here), and `_nivel_compuesto` can miss one ("USUARIº" gives no composite code in the program, so the frontera tier falls back to 'nivel_d'). Tiers.OrdinalOperatorAsWritten and RateResolver.FronteraCompAsWrittenRetry show one such case on the as-written normaliser.
- Tiers.CompTierOfNormText: holds for the corrected normaliser only. With `norm_text` as written, normalising first can change the composite code (Tiers.OrdinalOperatorAsWritten).
- RateResolver.FronteraCompSpec: holds for the corrected normaliser only. With `norm_text` as written, the retry at run_tariff_analysis.py:274 can turn no code into a code (RateResolver.FronteraCompAsWrittenRetry).
- TextNorm.FoldChar: the Unicode NFKD table is stood in for by the Latin-1 letters with diacritics, 'Ÿ', the ordinal indicators and the superscript digits. Other characters pass through unchanged. Two Latin-1 groups that NFKD does change are therefore not modelled. The spacing accents '¨' '¯' '´' '¸' (U+00A8, U+00AF, U+00B4, U+00B8) decompose to a space and a mark, so `norm_text` splits a word there and the model does not. The fractions '¼' '½' '¾' decompose to "1⁄4", "1⁄2" and "3⁄4", whose digits `canonical_simple` can take as a tier digit; the model sees no digit.
- TextNorm.UpperChar: upper-casing covers ASCII and Latin-1 only. 'ß' is left unchanged rather than becoming "SS".
- ProviderMatch.SortByLenDesc: names of equal length keep their first-occurrence order (ProviderMatch.SortByLenDescStable). The source sorts a set, whose iteration order Python leaves unspecified, so its order among equal-length names is not fixed.
- A missing text cell reads "nan" (`str(NaN)`). Columns absent from the table are not modelled, so `r.get` defaults are not either: every column is taken to be present.
- Non-text ids are not modelled: Summary.Summarize requires that no header id is a number. The analysis ids are strings, and a missing `fronteras` list is an empty one. OppCuration.GroupKeys orders keys as strings; pandas sorts an all-numeric 'Oportunidad' column by number instead.
- A curated group whose key is missing is written with a NaN id. `json.dump` writes it as NaN, and NaN is truthy, so `run_summary.py` takes it as an id (run_summary.py:51) and sorts it together with the text ids (run_summary.py:88), which raises a TypeError in Python when there are other ids. Summary.Summarize requires text ids, so the model does not reach that case.
- The group-level `frontier_name` of run_opps_sql.py:95 is not computed, since the source never reads it. The Ciiu column is carried but never read, as in the source.
- JSON values other than null, numbers and strings are not modelled (Json.JVal). A boolean or nested value in a frontera field or a mapping file is outside the model; in Python `true` is truthy and `float(True)` is 1.0.
- OppCuration.CleanCell: text cells are taken in their string form. The source's `r.get(col, '') or ''` (run_opps_sql.py:105-121) turns a falsy non-NaN cell, such as a numeric 0, into ""; the model reads such a cell as its text ("0").
- Mappings.BuildMapping: a document that is neither an object nor a list gives the empty table. The decoding of the file itself is left out.
- Mappings.DictEntries: an object's members are taken in document order with the last value winning. A decoded Python dict keeps a duplicated raw key at its first position with its last value, so when two raw keys normalise alike and one of them is duplicated in the file, the program's winner can differ from the model's (run_tariff_analysis.py:111-113).
- `_normalize_path` and the interactive prompt of run_opps_sql.py are I/O and left out.

## Findings

| source | as written | input that shows it | evidently intended | confidence | as-written member | corrected member |
|---|---|---|---|---|---|---|
| run_tariff_analysis.py:28-29 | `norm_text` upper-cases before the NFKD decomposition, so a character that decomposes to a lower-case letter stays lower case | 'ª' (U+00AA) normalises to "a", and "a" normalises to "A", so `norm_text` is not idempotent (the same holds for `_norm_text`, run_opps_sql.py:26-27) | decompose and drop marks first, then upper-case, making normalisation idempotent | not executed | TextNorm.NormTextAsWritten, TextNorm.NormTextAsWrittenNotIdempotent, Tiers.OrdinalOperatorAsWritten | TextNorm.NormText, TextNorm.NormTextIdempotent, Tiers.OrdinalOperatorCorrected |
