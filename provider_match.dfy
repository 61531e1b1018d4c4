/**
 * Provider-name matching on the tariff side: the token set of a provider
 * name, the Jaccard score of two token sets, the best-match scan with its
 * strict-greater tie rule, and the canonicalisation of a tariff provider to
 * one of the target names under the 0.45 threshold.
 */
module ProviderMatch {
  import opened Options
  import opened TextNorm

  /** Tokens dropped as legal-form noise ('S.A.S.', 'E.S.P.' and their pieces). */
  const StopTokens: set<string> := {"S", "A", "SA", "SAS", "ESP", "E", "P", "ES", "EP"}

  /** The Jaccard threshold of the tariff-side canonicalisation. */
  const MatchThreshold: real := 0.45

  /** '.', '/' and '-' separate tokens of a provider name. */
  function ProvSep(c: char): char {
    if c == '.' || c == '/' || c == '-' then ' ' else c
  }

  /** The tokens kept by the comprehension: non-empty and not a stop token. */
  function DropStops(ws: seq<string>): (r: seq<string>)
    ensures forall t :: t in r <==> t in ws && t != "" && t !in StopTokens
  {
    if ws == [] then []
    else if ws[0] != "" && ws[0] !in StopTokens then [ws[0]] + DropStops(ws[1..])
    else DropStops(ws[1..])
  }

  /** `provider_tokens`: the words of the normalised name, '.', '/', '-' splitting too, stop tokens removed. */
  function ProviderTokens(name: string): seq<string> {
    DropStops(Words(MapChars(ProvSep, NormText(Some(name)))))
  }

  /**
   * A provider token is a word of the normalised name (with '.', '/', '-'
   * as separators too) that is not a stop token, and every such word is one.
   */
  lemma ProviderTokensSpec(name: string, t: string)
    ensures t in ProviderTokens(name) <==>
      t in Words(MapChars(ProvSep, NormText(Some(name)))) && t !in StopTokens
    ensures t in ProviderTokens(name) ==> IsWord(t) && t !in StopTokens
  {
  }

  /** `set(provider_tokens(name))`. */
  function TokenSet(name: string): set<string> {
    ToSet(ProviderTokens(name))
  }

  /** The elements of a list, as a set. */
  function ToSet(xs: seq<string>): set<string> {
    if xs == [] then {} else {xs[0]} + ToSet(xs[1..])
  }

  lemma {:induction false} ToSetSpec(xs: seq<string>)
    ensures forall x :: x in ToSet(xs) <==> x in xs
  {
    if xs != [] {
      ToSetSpec(xs[1..]);
      assert xs == [xs[0]] + xs[1..];
    }
  }

  /** Jaccard similarity |a ∩ b| / |a ∪ b|, 0 when both are empty. */
  function Score(a: set<string>, b: set<string>): (r: real)
    ensures 0.0 <= r <= 1.0
    ensures r > 0.0 <==> a * b != {}
  {
    SubsetCard(a * b, a + b);
    if |a + b| == 0 then 0.0
    else
      Ratio(|a * b|, |a + b|);
      |a * b| as real / |a + b| as real
  }

  lemma Ratio(i: nat, u: nat)
    requires 0 < u && i <= u
    ensures 0.0 <= i as real / u as real <= 1.0
    ensures i as real / u as real > 0.0 <==> i > 0
  {
    var q := i as real / u as real;
    assert q * u as real == i as real;
    if q > 1.0 {
      MulMono(1.0, q, u as real);
    }
    if q < 0.0 {
      MulMono(q, 0.0, u as real);
    }
  }

  /** A subset is no larger, and only as large when it is the whole set. */
  lemma {:induction false} SubsetCard(x: set<string>, y: set<string>)
    requires x <= y
    ensures |x| <= |y|
    ensures |x| == |y| ==> x == y
    decreases |x|
  {
    if x != {} {
      var e :| e in x;
      SubsetCard(x - {e}, y - {e});
      assert x == (x - {e}) + {e} && y == (y - {e}) + {e};
    }
  }

  /** The score is 1 exactly for two equal, non-empty token sets. */
  lemma ScoreOne(a: set<string>, b: set<string>)
    ensures Score(a, b) == 1.0 <==> a == b && a != {}
  {
    SubsetCard(a * b, a + b);
    if |a + b| != 0 {
      var i := |a * b| as real;
      var u := |a + b| as real;
      assert Score(a, b) == i / u;
      if Score(a, b) == 1.0 {
        assert 1.0 * u == i;
        assert |a * b| == |a + b|;
        assert a * b == a + b;
        assert a <= a + b && b <= a + b;
      }
      if a == b {
        assert a * b == a && a + b == a;
        assert i == u;
        assert i / u == 1.0;
      }
    }
  }

  /** The score a candidate name gets against the target token set. */
  function CandScore(tgt: set<string>, toks: string -> set<string>, c: string): real {
    Score(tgt, toks(c))
  }

  /** The outcome of a best-match scan: the chosen candidate (if any) and its score. */
  datatype Match = Match(best: Option<string>, score: real)

  /**
   * The scan over a prefix `cs` of the candidates for a non-empty target
   * token set `tgt`: a candidate with no tokens is skipped, and a candidate
   * replaces the best so far only when its score is strictly greater.
   */
  function BestUpTo(tgt: set<string>, cs: seq<string>, toks: string -> set<string>): Match
    decreases |cs|
  {
    if cs == [] then Match(None, 0.0)
    else
      var prev := BestUpTo(tgt, cs[..|cs| - 1], toks);
      var c := cs[|cs| - 1];
      if toks(c) == {} then prev
      else if CandScore(tgt, toks, c) > prev.score then Match(Some(c), CandScore(tgt, toks, c))
      else prev
  }

  /** `best_token_match` as a value: no match for a target without tokens, else the scan. */
  function BestMatch(target: string, candidates: seq<string>): Match {
    var tgt := TokenSet(target);
    if tgt == {} then Match(None, 0.0) else BestUpTo(tgt, candidates, TokenSet)
  }

  /** `best_token_match`. */
  method BestTokenMatch(target: string, candidates: seq<string>) returns (best: Option<string>, bestScore: real)
    ensures Match(best, bestScore) == BestMatch(target, candidates)
  {
    var tgt := TokenSet(target);
    if tgt == {} {
      return None, 0.0;
    }
    best, bestScore := None, 0.0;
    var i := 0;
    while i < |candidates|
      invariant 0 <= i <= |candidates|
      invariant Match(best, bestScore) == BestUpTo(tgt, candidates[..i], TokenSet)
    {
      var c := candidates[i];
      var cand := TokenSet(c);
      BestUpToNext(tgt, candidates, i, TokenSet);
      if cand != {} {
        var score := Score(tgt, cand);
        if score > bestScore {
          best, bestScore := Some(c), score;
        }
      }
      i := i + 1;
    }
    assert candidates[..|candidates|] == candidates;
  }

  /** The scan extended by the next candidate. */
  lemma BestUpToNext(tgt: set<string>, cs: seq<string>, i: nat, toks: string -> set<string>)
    requires i < |cs|
    ensures BestUpTo(tgt, cs[..i + 1], toks) ==
      if toks(cs[i]) == {} then BestUpTo(tgt, cs[..i], toks)
      else if CandScore(tgt, toks, cs[i]) > BestUpTo(tgt, cs[..i], toks).score then Match(Some(cs[i]), CandScore(tgt, toks, cs[i]))
      else BestUpTo(tgt, cs[..i], toks)
  {
    assert cs[..i + 1][..i] == cs[..i];
  }

  /** The scan's score lies in [0, 1], is 0 when nothing was chosen and positive otherwise. */
  lemma {:induction false} BestUpToScore(tgt: set<string>, cs: seq<string>, toks: string -> set<string>)
    ensures 0.0 <= BestUpTo(tgt, cs, toks).score <= 1.0
    ensures BestUpTo(tgt, cs, toks).best.None? <==> BestUpTo(tgt, cs, toks).score == 0.0
    decreases |cs|
  {
    if cs != [] {
      BestUpToScore(tgt, cs[..|cs| - 1], toks);
    }
  }

  /** No candidate scores above the scan's result. */
  lemma {:induction false} BestUpToMax(tgt: set<string>, cs: seq<string>, toks: string -> set<string>)
    requires tgt != {}
    ensures AllAtMost(tgt, toks, cs, BestUpTo(tgt, cs, toks).score)
    decreases |cs|
  {
    if cs != [] {
      var init := cs[..|cs| - 1];
      BestUpToMax(tgt, init, toks);
      BestUpToStep(tgt, cs, toks);
      AllAtMostExtend(tgt, toks, cs, BestUpTo(tgt, init, toks).score, BestUpTo(tgt, cs, toks).score);
    }
  }

  /** No candidate of `cs` scores above `x`. */
  predicate AllAtMost(tgt: set<string>, toks: string -> set<string>, cs: seq<string>, x: real) {
    forall k :: 0 <= k < |cs| ==> CandScore(tgt, toks, cs[k]) <= x
  }

  lemma AllAtMostExtend(tgt: set<string>, toks: string -> set<string>, cs: seq<string>, p: real, m: real)
    requires cs != [] && AllAtMost(tgt, toks, cs[..|cs| - 1], p) && p <= m && CandScore(tgt, toks, cs[|cs| - 1]) <= m
    ensures AllAtMost(tgt, toks, cs, m)
  {
    var init := cs[..|cs| - 1];
    forall k | 0 <= k < |cs| ensures CandScore(tgt, toks, cs[k]) <= m {
      if k < |init| {
        assert cs[k] == init[k];
      }
    }
  }

  /** One step of the scan never lowers the best score and reaches the new candidate's. */
  lemma BestUpToStep(tgt: set<string>, cs: seq<string>, toks: string -> set<string>)
    requires cs != []
    ensures BestUpTo(tgt, cs[..|cs| - 1], toks).score <= BestUpTo(tgt, cs, toks).score
    ensures CandScore(tgt, toks, cs[|cs| - 1]) <= BestUpTo(tgt, cs, toks).score
  {
    var c := cs[|cs| - 1];
    BestUpToScore(tgt, cs[..|cs| - 1], toks);
    if toks(c) == {} {
      assert tgt * toks(c) == {};
    }
  }

  /** `k` is the first index of the candidates at which `score` is reached, and `c` stands there. */
  predicate FirstAt(tgt: set<string>, toks: string -> set<string>, cs: seq<string>, k: int, c: string, score: real) {
    0 <= k < |cs| && cs[k] == c && CandScore(tgt, toks, c) == score &&
    forall j :: 0 <= j < k ==> CandScore(tgt, toks, cs[j]) < score
  }

  lemma FirstAtExtend(tgt: set<string>, toks: string -> set<string>, cs: seq<string>, k: int, c: string, score: real)
    requires cs != [] && FirstAt(tgt, toks, cs[..|cs| - 1], k, c, score)
    ensures FirstAt(tgt, toks, cs, k, c, score)
  {
    assert forall j :: 0 <= j <= k ==> cs[j] == cs[..|cs| - 1][j];
  }

  /** A chosen candidate stands at the first index reaching the best score. */
  lemma {:induction false} BestUpToFirst(tgt: set<string>, cs: seq<string>, toks: string -> set<string>)
    requires tgt != {}
    ensures BestUpTo(tgt, cs, toks).best.Some? ==>
      exists k :: FirstAt(tgt, toks, cs, k, BestUpTo(tgt, cs, toks).best.value, BestUpTo(tgt, cs, toks).score)
    decreases |cs|
  {
    if cs != [] {
      var init := cs[..|cs| - 1];
      var prev := BestUpTo(tgt, init, toks);
      var c := cs[|cs| - 1];
      BestUpToFirst(tgt, init, toks);
      if toks(c) == {} || CandScore(tgt, toks, c) <= prev.score {
        assert BestUpTo(tgt, cs, toks) == prev;
        if prev.best.Some? {
          var k :| FirstAt(tgt, toks, init, k, prev.best.value, prev.score);
          FirstAtExtend(tgt, toks, cs, k, prev.best.value, prev.score);
        }
      } else {
        assert BestUpTo(tgt, cs, toks) == Match(Some(c), CandScore(tgt, toks, c));
        NewBestFirst(tgt, cs, toks);
      }
    }
  }

  /** A candidate that beats every earlier one stands first at its score. */
  lemma NewBestFirst(tgt: set<string>, cs: seq<string>, toks: string -> set<string>)
    requires tgt != {} && cs != []
    requires CandScore(tgt, toks, cs[|cs| - 1]) > BestUpTo(tgt, cs[..|cs| - 1], toks).score
    ensures FirstAt(tgt, toks, cs, |cs| - 1, cs[|cs| - 1], CandScore(tgt, toks, cs[|cs| - 1]))
  {
    var init := cs[..|cs| - 1];
    BestUpToMax(tgt, init, toks);
    forall j | 0 <= j < |cs| - 1 ensures CandScore(tgt, toks, cs[j]) < CandScore(tgt, toks, cs[|cs| - 1]) {
      assert cs[j] == init[j];
    }
  }

  /** Without a shared token anywhere, the scan chooses nothing; a shared token makes it choose. */
  lemma {:induction false} BestUpToNone(tgt: set<string>, cs: seq<string>, toks: string -> set<string>)
    requires tgt != {}
    ensures BestUpTo(tgt, cs, toks).best.None? <==> forall k :: 0 <= k < |cs| ==> tgt * toks(cs[k]) == {}
    decreases |cs|
  {
    BestUpToScore(tgt, cs, toks);
    BestUpToMax(tgt, cs, toks);
    if cs != [] {
      var init := cs[..|cs| - 1];
      BestUpToNone(tgt, init, toks);
      BestUpToScore(tgt, init, toks);
      assert forall k :: 0 <= k < |init| ==> cs[k] == init[k];
      BestUpToFirst(tgt, cs, toks);
    }
  }

  /**
   * `best_token_match`: no match when the target has no tokens left after
   * removing stop tokens or when no candidate shares a token with it;
   * otherwise a candidate of maximal score in (0, 1], standing first among
   * the candidates reaching that score.
   */
  lemma BestMatchSpec(target: string, candidates: seq<string>)
    ensures BestMatch(target, candidates).best.None? <==>
      TokenSet(target) == {} || forall k :: 0 <= k < |candidates| ==> TokenSet(target) * TokenSet(candidates[k]) == {}
    ensures BestMatch(target, candidates).best.None? ==> BestMatch(target, candidates).score == 0.0
    ensures BestMatch(target, candidates).best.Some? ==>
      0.0 < BestMatch(target, candidates).score <= 1.0 &&
      exists k :: FirstAt(TokenSet(target), TokenSet, candidates, k, BestMatch(target, candidates).best.value, BestMatch(target, candidates).score)
    ensures TokenSet(target) != {} ==>
      forall k :: 0 <= k < |candidates| ==> CandScore(TokenSet(target), TokenSet, candidates[k]) <= BestMatch(target, candidates).score
  {
    var tgt := TokenSet(target);
    if tgt != {} {
      BestUpToScore(tgt, candidates, TokenSet);
      BestUpToMax(tgt, candidates, TokenSet);
      BestUpToFirst(tgt, candidates, TokenSet);
      BestUpToNone(tgt, candidates, TokenSet);
    }
  }

  /** `score >= 0.45` is the integer comparison 100·|a ∩ b| >= 45·|a ∪ b|. */
  lemma ThresholdIntegral(a: set<string>, b: set<string>)
    requires a + b != {}
    ensures Score(a, b) >= MatchThreshold <==> 100 * |a * b| >= 45 * |a + b|
  {
    var i := |a * b| as real;
    var u := |a + b| as real;
    var r := Score(a, b);
    assert u > 0.0;
    assert r * u == i;
    if r >= MatchThreshold {
      MulMono(MatchThreshold, r, u);
    } else {
      MulMono(r, MatchThreshold, u);
    }
  }

  lemma MulMono(x: real, y: real, u: real)
    requires x <= y && u > 0.0
    ensures x * u <= y * u
  {
  }

  /**
   * `canon_provider_tar_side`: a provider already among the targets stays;
   * otherwise the best-matching target replaces it when the match is a
   * non-empty name scoring at least 0.45.
   */
  function CanonProvider(p: string, targets: seq<string>): string {
    if p in targets then p
    else
      var m := BestMatch(p, targets);
      if m.best.Some? && m.best.value != "" && m.score >= MatchThreshold then m.best.value else p
  }

  /**
   * The canonical provider is the input or one of the targets; it differs
   * from the input only when the input is not a target and the replacement
   * is the best match, scoring at least 0.45.
   */
  lemma CanonProviderSpec(p: string, targets: seq<string>)
    ensures CanonProvider(p, targets) == p || CanonProvider(p, targets) in targets
    ensures p in targets ==> CanonProvider(p, targets) == p
    ensures CanonProvider(p, targets) != p ==>
      p !in targets && BestMatch(p, targets).best == Some(CanonProvider(p, targets)) &&
      Score(TokenSet(p), TokenSet(CanonProvider(p, targets))) >= MatchThreshold
    ensures TokenSet(p) == {} ==> CanonProvider(p, targets) == p
  {
    BestMatchSpec(p, targets);
  }

  // ---------------------------------------------------------------------
  // The target list
  // ---------------------------------------------------------------------

  /** The normalised names of the non-empty raw targets, in order. */
  function NormTargets(raw: seq<string>): (r: seq<string>)
    ensures forall x :: x in r <==> exists k :: 0 <= k < |raw| && raw[k] != "" && NormText(Some(raw[k])) == x
  {
    if raw == [] then []
    else
      assert forall k :: 0 < k < |raw| ==> raw[k] == raw[1..][k - 1];
      (if raw[0] == "" then [] else [NormText(Some(raw[0]))]) + NormTargets(raw[1..])
  }

  /** The distinct elements of `xs`, each at its first occurrence. */
  function Dedup(xs: seq<string>): (r: seq<string>)
    ensures forall x :: x in r <==> x in xs
    ensures Distinct(r)
  {
    if xs == [] then []
    else
      var r := Dedup(xs[..|xs| - 1]);
      assert xs == xs[..|xs| - 1] + [xs[|xs| - 1]];
      if xs[|xs| - 1] in r then r else r + [xs[|xs| - 1]]
  }

  /**
   * Insert `x` after every strictly longer name, so before the names of its
   * own length: the insertion step of a stable longest-first sort.
   */
  function InsertByLen(x: string, xs: seq<string>): (r: seq<string>)
    ensures |r| == |xs| + 1
    ensures forall y :: y in r <==> y == x || y in xs
  {
    if xs == [] then [x]
    else if |xs[0]| > |x| then
      assert xs == [xs[0]] + xs[1..];
      [xs[0]] + InsertByLen(x, xs[1..])
    else [x] + xs
  }

  /**
   * `sorted(..., key=len, reverse=True)`, stable: names of equal length keep
   * their order in `xs` (SortByLenDescStable).
   */
  function SortByLenDesc(xs: seq<string>): (r: seq<string>)
    ensures |r| == |xs|
    ensures forall y :: y in r <==> y in xs
  {
    if xs == [] then []
    else
      assert xs == [xs[0]] + xs[1..];
      InsertByLen(xs[0], SortByLenDesc(xs[1..]))
  }

  predicate LongestFirst(xs: seq<string>) {
    forall i, j :: 0 <= i < j < |xs| ==> |xs[i]| >= |xs[j]|
  }

  predicate Distinct(xs: seq<string>) {
    forall i, j :: 0 <= i < j < |xs| ==> xs[i] != xs[j]
  }

  lemma {:induction false} InsertByLenSorted(x: string, xs: seq<string>)
    requires LongestFirst(xs)
    ensures LongestFirst(InsertByLen(x, xs))
  {
    if xs != [] && |xs[0]| > |x| {
      InsertByLenSorted(x, xs[1..]);
      var r := InsertByLen(x, xs[1..]);
      forall y | y in r ensures |xs[0]| >= |y| {
        if y != x {
          var k :| 0 <= k < |xs[1..]| && xs[1..][k] == y;
          assert xs[k + 1] == y;
        }
      }
      ConsLongest(xs[0], r);
    }
  }

  /** A name at least as long as every name of a longest-first list can go in front. */
  lemma ConsLongest(x: string, r: seq<string>)
    requires LongestFirst(r) && forall y :: y in r ==> |x| >= |y|
    ensures LongestFirst([x] + r)
  {
    var r' := [x] + r;
    forall i, j | 0 <= i < j < |r'| ensures |r'[i]| >= |r'[j]| {
      assert r'[j] == r[j - 1];
      if i > 0 { assert r'[i] == r[i - 1]; } else { assert r[j - 1] in r; }
    }
  }

  lemma {:induction false} InsertByLenDistinct(x: string, xs: seq<string>)
    requires Distinct(xs) && x !in xs
    ensures Distinct(InsertByLen(x, xs))
  {
    if xs != [] && |xs[0]| > |x| {
      assert xs[0] !in xs[1..] by {
        forall k | 0 <= k < |xs[1..]| ensures xs[1..][k] != xs[0] {
          assert xs[1..][k] == xs[k + 1];
        }
      }
      assert Distinct(xs[1..]) by {
        forall i, j | 0 <= i < j < |xs[1..]| ensures xs[1..][i] != xs[1..][j] {
          assert xs[1..][i] == xs[i + 1] && xs[1..][j] == xs[j + 1];
        }
      }
      InsertByLenDistinct(x, xs[1..]);
      var r := InsertByLen(x, xs[1..]);
      var r' := [xs[0]] + r;
      forall i, j | 0 <= i < j < |r'| ensures r'[i] != r'[j] {
        assert r'[j] == r[j - 1];
        if i > 0 { assert r'[i] == r[i - 1]; } else { assert r[j - 1] in r; }
      }
    } else if xs != [] {
      var r' := [x] + xs;
      forall i, j | 0 <= i < j < |r'| ensures r'[i] != r'[j] {
        assert r'[j] == xs[j - 1];
        if i > 0 { assert r'[i] == xs[i - 1]; }
      }
    }
  }

  /** The names of `xs` whose length is `n`, in order. */
  function OfLen(xs: seq<string>, n: nat): seq<string> {
    if xs == [] then []
    else (if |xs[0]| == n then [xs[0]] else []) + OfLen(xs[1..], n)
  }

  /** `OfLen` of a list with a name in front. */
  lemma OfLenCons(a: string, rest: seq<string>, n: nat)
    ensures OfLen([a] + rest, n) == (if |a| == n then [a] else []) + OfLen(rest, n)
  {
    assert ([a] + rest)[1..] == rest;
  }

  /** Inserting `x` puts it in front of the names of its own length and moves no other name of any length. */
  lemma {:induction false} InsertByLenOfLen(x: string, xs: seq<string>, n: nat)
    ensures OfLen(InsertByLen(x, xs), n) == (if |x| == n then [x] else []) + OfLen(xs, n)
  {
    if xs == [] {
      OfLenCons(x, [], n);
    } else if |xs[0]| > |x| {
      var rest := InsertByLen(x, xs[1..]);
      InsertByLenOfLen(x, xs[1..], n);
      OfLenCons(xs[0], rest, n);
      if |x| == n {
        assert OfLen(InsertByLen(x, xs), n) == [x] + OfLen(xs[1..], n);
      }
    } else {
      OfLenCons(x, xs, n);
    }
  }

  /** The sort is stable: for every length, the names of that length keep their order in `xs`. */
  lemma {:induction false} SortByLenDescStable(xs: seq<string>, n: nat)
    ensures OfLen(SortByLenDesc(xs), n) == OfLen(xs, n)
  {
    if xs != [] {
      SortByLenDescStable(xs[1..], n);
      InsertByLenOfLen(xs[0], SortByLenDesc(xs[1..]), n);
    }
  }

  lemma {:induction false} SortByLenDescSorted(xs: seq<string>)
    ensures LongestFirst(SortByLenDesc(xs))
    ensures Distinct(xs) ==> Distinct(SortByLenDesc(xs))
  {
    if xs != [] {
      SortByLenDescSorted(xs[1..]);
      InsertByLenSorted(xs[0], SortByLenDesc(xs[1..]));
      if Distinct(xs) {
        assert Distinct(xs[1..]) by {
          forall i, j | 0 <= i < j < |xs[1..]| ensures xs[1..][i] != xs[1..][j] {
            assert xs[1..][i] == xs[i + 1] && xs[1..][j] == xs[j + 1];
          }
        }
        assert xs[0] !in xs[1..] by {
          forall k | 0 <= k < |xs[1..]| ensures xs[1..][k] != xs[0] {
            assert xs[1..][k] == xs[k + 1];
          }
        }
        InsertByLenDistinct(xs[0], SortByLenDesc(xs[1..]));
      }
    }
  }

  /** The targets the tariff providers are canonicalised to. */
  function TargetList(raw: seq<string>): seq<string> {
    SortByLenDesc(Dedup(NormTargets(raw)))
  }

  /**
   * The target list holds each normalised non-empty raw target exactly
   * once, longest names first.
   */
  lemma TargetListSpec(raw: seq<string>)
    ensures forall x :: x in TargetList(raw) <==> exists k :: 0 <= k < |raw| && raw[k] != "" && NormText(Some(raw[k])) == x
    ensures Distinct(TargetList(raw))
    ensures LongestFirst(TargetList(raw))
  {
    SortByLenDescSorted(Dedup(NormTargets(raw)));
  }
}
