/**
 * Voltage-tier canonicalisation: the simple tier label 'NIVEL d', the
 * composite tier code 'nivel_d_kind' derived from tariff text, and the
 * composite code the opportunity curation derives from an ownership
 * descriptor plus a tier descriptor.
 */
module Tiers {
  import opened Options
  import opened TextNorm

  /** The tier digits, in the priority order every extractor tries them. */
  predicate IsTierDigit(d: char) {
    d == '1' || d == '2' || d == '3'
  }

  /** The three ownership kinds of a composite tier code. */
  predicate IsKind(k: string) {
    k == "operator" || k == "user" || k == "shared"
  }

  /** 'NIVEL d', the simple tier label. */
  function SimpleLabel(d: char): string {
    "NIVEL " + [d]
  }

  /** 'nivel_d_kind', the composite tier code. */
  function CompLabel(d: char, kind: string): string {
    "nivel_" + [d] + "_" + kind
  }

  /** The first tier digit, in the fixed priority 1, 2, 3, that occurs anywhere in `s`. */
  function FirstTierDigit(s: string): (d: Option<char>)
    ensures d.Some? ==> IsTierDigit(d.value) && d.value in s
    ensures d.Some? ==> forall e :: IsTierDigit(e) && e < d.value ==> e !in s
    ensures d.None? <==> forall e :: IsTierDigit(e) ==> e !in s
  {
    if '1' in s then Some('1')
    else if '2' in s then Some('2')
    else if '3' in s then Some('3')
    else None
  }

  /** The character scan at the end of `canonical_simple`: first character among '1', '2', '3'. */
  function ScanTierDigit(s: string): Option<char> {
    if s == [] then None
    else if IsTierDigit(s[0]) then Some(s[0])
    else ScanTierDigit(s[1..])
  }

  /**
   * `canonical_simple` (run_tariff_analysis.py) and `_nivel_simple`
   * (run_opps_sql.py), whose bodies are the same: 'NIVEL 1', 'NIVEL 2' or
   * 'NIVEL 3' by the first of those digits found in the normalised text,
   * else the trailing character scan.
   */
  function SimpleTier(n: Option<string>): (r: Option<string>)
    ensures r.Some? ==> |r.value| == 7 && IsTierDigit(r.value[6]) && r.value == SimpleLabel(r.value[6])
  {
    var nrm := NormText(n);
    ScanTierDigitFinds(nrm);
    if '1' in nrm then Some(SimpleLabel('1'))
    else if '2' in nrm then Some(SimpleLabel('2'))
    else if '3' in nrm then Some(SimpleLabel('3'))
    else match ScanTierDigit(nrm)
      case Some(ch) => Some(SimpleLabel(ch))
      case None => None
  }

  /** The scan finds a tier digit only when the text has one. */
  lemma {:induction false} ScanTierDigitFinds(s: string)
    ensures ScanTierDigit(s).Some? ==> IsTierDigit(ScanTierDigit(s).value) && ScanTierDigit(s).value in s
  {
    if s != [] && !IsTierDigit(s[0]) {
      ScanTierDigitFinds(s[1..]);
    }
  }

  /**
   * The simple tier is 'NIVEL d' for the highest-priority tier digit d that
   * occurs anywhere in the normalised text (priority by digit, not by
   * position), and absent when none does; the trailing scan never decides.
   */
  lemma SimpleTierSpec(n: Option<string>)
    ensures SimpleTier(n).Some? <==> FirstTierDigit(NormText(n)).Some?
    ensures SimpleTier(n).Some? ==> SimpleTier(n) == Some(SimpleLabel(FirstTierDigit(NormText(n)).value))
  {
    ScanTierDigitFinds(NormText(n));
  }

  /** 'NIVEL 2 1' is tier 1: the digit priority outranks position in the text. */
  lemma SimpleTierPriorityExample()
    ensures SimpleTier(Some("nivel 2 1")) == Some("NIVEL 1")
  {
    NormExample();
    assert "NIVEL 2 1"[8] == '1';
    assert '1' in NormText(Some("nivel 2 1"));
    assert SimpleLabel('1') == "NIVEL 1";
  }

  lemma NormExample()
    ensures NormText(Some("nivel 2 1")) == "NIVEL 2 1"
  {
    AsciiNorm("nivel 2 1", "NIVEL 2 1");
    AsciiWhitespaceNormal("NIVEL 2 1");
    CollapseNormalFixed("NIVEL 2 1");
  }

  // ---------------------------------------------------------------------
  // canonical_comp_from_tokens
  // ---------------------------------------------------------------------

  /** The separators '-', '/', '.', '_' become spaces before tokenising. */
  function SepToSpace(c: char): char {
    if c == '-' || c == '/' || c == '.' || c == '_' then ' ' else c
  }

  /** Does `w` occur in `s` at position 0? */
  predicate StartsWith(s: string, w: string) {
    |w| <= |s| && s[..|w|] == w
  }

  /** Python's `w in s` for strings: `w` is a substring of `s`. */
  predicate Contains(s: string, w: string)
    decreases |s|
  {
    StartsWith(s, w) || (s != [] && Contains(s[1..], w))
  }

  /** The digit test of the first detection loop, for one candidate digit. */
  predicate DigitIn(toks: seq<string>, d: char) {
    [d] in toks || "NIVEL" + [d] in toks || "BT" + [d] in toks || d in Concat(toks)
  }

  /** The first detection loop: digits 1, 2, 3 in that order. */
  function DetectDigit(toks: seq<string>): Option<char> {
    if DigitIn(toks, '1') then Some('1')
    else if DigitIn(toks, '2') then Some('2')
    else if DigitIn(toks, '3') then Some('3')
    else None
  }

  /** The second detection loop: a token containing 'NIVEL' followed by a digit token. */
  function NivelThenDigit(toks: seq<string>): Option<char> {
    if |toks| < 2 then None
    else if Contains(toks[0], "NIVEL") && (toks[1] == "1" || toks[1] == "2" || toks[1] == "3") then Some(toks[1][0])
    else NivelThenDigit(toks[1..])
  }

  /** The ownership kind read from the re-joined tokens: operator first, then user, then shared. */
  function TariffKind(joined: string): Option<string> {
    if Contains(joined, "OPERADOR") || Contains(joined, "OPERATOR") then Some("operator")
    else if Contains(joined, "USUARIO") || Contains(joined, "USER") then Some("user")
    else if Contains(joined, "COMPARTID") || Contains(joined, "SHARED") then Some("shared")
    else None
  }

  /** The tokens of a normalised text, separators replaced by spaces. */
  function TokensOf(nrm: string): seq<string> {
    Words(MapChars(SepToSpace, nrm))
  }

  /** The tokens `canonical_comp_from_tokens` works on. */
  function TierTokens(txt: Option<string>): seq<string> {
    TokensOf(NormText(txt))
  }

  /** The rest of `canonical_comp_from_tokens`, once the text is normalised. */
  function CompTierOfText(nrm: string): Option<string> {
    var toks := TokensOf(nrm);
    var dig := match DetectDigit(toks)
      case Some(d) => Some(d)
      case None => NivelThenDigit(toks);
    if dig.None? then None
    else match TariffKind(Join(toks))
      case Some(kind) => Some(CompLabel(dig.value, kind))
      case None => None
  }

  /**
   * `canonical_comp_from_tokens`: 'nivel_d_kind' from tariff or opportunity
   * tier text, or absent when no digit or no ownership keyword is found.
   */
  function CompTier(txt: Option<string>): Option<string> {
    CompTierOfText(NormText(txt))
  }

  /** `canonical_comp_from_tokens` with `norm_text` as written. */
  function CompTierAsWritten(txt: Option<string>): Option<string> {
    CompTierOfText(NormTextAsWritten(txt))
  }

  /** A digit token found by the second loop also occurs in the concatenated tokens. */
  lemma {:induction false} NivelThenDigitInConcat(toks: seq<string>)
    ensures NivelThenDigit(toks).Some? ==> IsTierDigit(NivelThenDigit(toks).value)
    ensures NivelThenDigit(toks).Some? ==> NivelThenDigit(toks).value in Concat(toks)
  {
    if |toks| >= 2 {
      var d := NivelThenDigit(toks);
      if !(Contains(toks[0], "NIVEL") && (toks[1] == "1" || toks[1] == "2" || toks[1] == "3")) {
        NivelThenDigitInConcat(toks[1..]);
      } else {
        assert Concat(toks) == toks[0] + (toks[1] + Concat(toks[2..]));
        assert toks[1][0] in toks[1];
      }
    }
  }

  /** A token of the list contributes its characters to the concatenation. */
  lemma {:induction false} TokenInConcat(toks: seq<string>, k: nat, c: char)
    requires k < |toks| && c in toks[k]
    ensures c in Concat(toks)
  {
    if k > 0 { TokenInConcat(toks[1..], k - 1, c); }
  }

  /** Each disjunct of the digit test implies the last one, a digit of the concatenated tokens. */
  lemma DigitInConcat(toks: seq<string>, d: char)
    ensures DigitIn(toks, d) <==> d in Concat(toks)
  {
    if [d] in toks {
      var k :| 0 <= k < |toks| && toks[k] == [d];
      TokenInConcat(toks, k, d);
    }
    if "NIVEL" + [d] in toks {
      var k :| 0 <= k < |toks| && toks[k] == "NIVEL" + [d];
      assert toks[k][5] == d;
      TokenInConcat(toks, k, d);
    }
    if "BT" + [d] in toks {
      var k :| 0 <= k < |toks| && toks[k] == "BT" + [d];
      assert toks[k][2] == d;
      TokenInConcat(toks, k, d);
    }
  }

  /** A tier digit occurs in the tokens exactly when it occurs in the normalised text. */
  lemma TierTokensHave(txt: Option<string>, d: char)
    requires IsTierDigit(d)
    ensures d in Concat(TierTokens(txt)) <==> d in NormText(txt)
  {
    var nrm := NormText(txt);
    var t := MapChars(SepToSpace, nrm);
    ConcatWordsHas(t, d);
    if d in nrm {
      var i :| 0 <= i < |nrm| && nrm[i] == d;
      assert t[i] == d;
    }
  }

  /**
   * The digit of a composite code is always the digit the simple extractor
   * picks for the same text; the 'NIVEL'-followed-by-digit loop never
   * decides. A composite code exists exactly when a tier digit and an
   * ownership keyword are both present.
   */
  lemma CompTierDigit(txt: Option<string>)
    ensures CompTier(txt).Some? <==>
      FirstTierDigit(NormText(txt)).Some? && TariffKind(Join(TierTokens(txt))).Some?
    ensures CompTier(txt).Some? ==>
      CompTier(txt) == Some(CompLabel(FirstTierDigit(NormText(txt)).value, TariffKind(Join(TierTokens(txt))).value))
    ensures CompTier(txt).Some? ==> SimpleTier(txt) == Some(SimpleLabel(FirstTierDigit(NormText(txt)).value))
  {
    var toks := TierTokens(txt);
    DigitInConcat(toks, '1');
    DigitInConcat(toks, '2');
    DigitInConcat(toks, '3');
    TierTokensHave(txt, '1');
    TierTokensHave(txt, '2');
    TierTokensHave(txt, '3');
    NivelThenDigitInConcat(toks);
    SimpleTierSpec(txt);
  }

  /**
   * With the corrected normaliser, which is idempotent, the composite code
   * depends only on the normalised text, so normalising first changes
   * nothing.
   */
  lemma CompTierOfNormText(txt: Option<string>)
    ensures CompTier(Some(NormText(txt))) == CompTier(txt)
  {
    NormTextIdempotent(txt);
  }

  // ---------------------------------------------------------------------
  // The composite codes are fixed points
  // ---------------------------------------------------------------------

  /** A string without 'c' does not contain any word that starts with 'c'. */
  lemma {:induction false} ContainsFirst(s: string, w: string)
    requires w != [] && Contains(s, w)
    ensures w[0] in s
    decreases |s|
  {
    if !StartsWith(s, w) {
      ContainsFirst(s[1..], w);
    } else {
      assert s[0] == w[0];
    }
  }

  /** The upper-case spelling of a kind, as it reads after normalisation. */
  function KindUpper(kind: string): string {
    if kind == "operator" then "OPERATOR" else if kind == "user" then "USER" else "SHARED"
  }

  /** The kind names upper-case to their keyword spelling, which is all capital letters. */
  lemma NormKind(kind: string)
    requires IsKind(kind)
    ensures MapChars(NormChar, kind) == KindUpper(kind)
    ensures forall i :: 0 <= i < |KindUpper(kind)| ==> 'A' <= KindUpper(kind)[i] <= 'Z'
  {
    if kind == "operator" {
      AsciiNorm(kind, "OPERATOR");
    } else if kind == "user" {
      AsciiNorm(kind, "USER");
    } else {
      AsciiNorm(kind, "SHARED");
    }
  }

  /** Capital letters are left alone by the separator replacement. */
  lemma SepCapitals(w: string)
    requires forall i :: 0 <= i < |w| ==> 'A' <= w[i] <= 'Z'
    ensures MapChars(SepToSpace, w) == w
  {
  }

  /** The characters of a composite code, normalised one by one. */
  lemma NormCompChars(d: char, kind: string)
    requires IsTierDigit(d) && IsKind(kind)
    ensures MapChars(NormChar, CompLabel(d, kind)) == "NIVEL_" + [d] + "_" + KindUpper(kind)
  {
    MapCharsAppend(NormChar, "nivel_" + [d] + "_", kind);
    NormCompPrefix(d);
    NormKind(kind);
  }

  lemma NormCompPrefix(d: char)
    requires IsTierDigit(d)
    ensures MapChars(NormChar, "nivel_" + [d] + "_") == "NIVEL_" + [d] + "_"
  {
    AsciiNorm("nivel_" + [d] + "_", "NIVEL_" + [d] + "_");
  }

  /** Normalising a composite code upper-cases it. */
  lemma NormCompLabel(d: char, kind: string)
    requires IsTierDigit(d) && IsKind(kind)
    ensures NormText(Some(CompLabel(d, kind))) == "NIVEL_" + [d] + "_" + KindUpper(kind)
  {
    var upper := KindUpper(kind);
    NormCompChars(d, kind);
    NormKind(kind);
    assert IsWord("NIVEL_" + [d] + "_");
    WordAppend("NIVEL_" + [d] + "_", upper);
    WordIsNormal("NIVEL_" + [d] + "_" + upper);
    CollapseNormalFixed("NIVEL_" + [d] + "_" + upper);
  }

  /** Replacing the separators of a normalised composite code. */
  lemma SepCompLabel(d: char, kind: string)
    requires IsTierDigit(d) && IsKind(kind)
    ensures MapChars(SepToSpace, "NIVEL_" + [d] + "_" + KindUpper(kind)) == Join(["NIVEL", [d], KindUpper(kind)])
  {
    var upper := KindUpper(kind);
    assert "NIVEL_" + [d] + "_" + upper == "NIVEL_" + ([d] + ("_" + upper));
    MapCharsAppend(SepToSpace, "NIVEL_", [d] + ("_" + upper));
    MapCharsAppend(SepToSpace, [d], "_" + upper);
    MapCharsAppend(SepToSpace, "_", upper);
    assert MapChars(SepToSpace, "NIVEL_") == "NIVEL ";
    assert MapChars(SepToSpace, [d]) == [d];
    assert MapChars(SepToSpace, "_") == " ";
    NormKind(kind);
    SepCapitals(upper);
    JoinThree("NIVEL", [d], upper);
  }

  lemma JoinThree(a: string, b: string, c: string)
    ensures Join([a, b, c]) == a + " " + b + " " + c
  {
    assert [a, b, c][1..] == [b, c];
    assert [b, c][1..] == [c];
    assert Join([c]) == c;
    assert Join([b, c]) == b + " " + c;
  }

  /** The tokens of a composite code: 'NIVEL', the digit, the upper-cased kind. */
  lemma CompLabelTokens(d: char, kind: string)
    requires IsTierDigit(d) && IsKind(kind)
    ensures TierTokens(Some(CompLabel(d, kind))) == ["NIVEL", [d], KindUpper(kind)]
  {
    NormCompLabel(d, kind);
    SepCompLabel(d, kind);
    NormKind(kind);
    WordsJoin(["NIVEL", [d], KindUpper(kind)]);
  }

  /** `w` occurring at position i of `s` makes it a substring. */
  lemma {:induction false} ContainsAt(s: string, w: string, i: nat)
    requires i <= |s| && StartsWith(s[i..], w)
    ensures Contains(s, w)
    decreases i
  {
    if i > 0 {
      assert s[1..][i - 1..] == s[i..];
      ContainsAt(s[1..], w, i - 1);
    } else {
      assert s[0..] == s;
    }
  }

  /** A substring starts at a position from which it still fits. */
  lemma {:induction false} ContainsWhere(s: string, w: string)
    requires w != [] && Contains(s, w)
    ensures exists i :: 0 <= i <= |s| - |w| && s[i] == w[0]
    decreases |s|
  {
    if StartsWith(s, w) {
      assert s[0] == w[0];
    } else {
      ContainsWhere(s[1..], w);
      var i :| 0 <= i <= |s[1..]| - |w| && s[1..][i] == w[0];
      assert s[i + 1] == w[0];
    }
  }

  /** A string without the first letter of `w` does not contain `w`. */
  lemma Lacks(s: string, w: string)
    requires w != [] && w[0] !in s
    ensures !Contains(s, w)
  {
    if Contains(s, w) {
      ContainsFirst(s, w);
    }
  }

  /** The only tier digit in a normalised composite code is its own. */
  lemma FirstDigitOfCompLabel(d: char, kind: string)
    requires IsTierDigit(d) && IsKind(kind)
    ensures FirstTierDigit("NIVEL_" + [d] + "_" + KindUpper(kind)) == Some(d)
  {
    var upper := KindUpper(kind);
    var t := "NIVEL_" + [d] + "_" + upper;
    NormKind(kind);
    assert t[6] == d;
    forall i | 0 <= i < |t| && i != 6 ensures !IsTierDigit(t[i]) {
      if i >= 8 { assert t[i] == upper[i - 8]; }
    }
    forall e | IsTierDigit(e) && e in t ensures e == d {
      var i :| 0 <= i < |t| && t[i] == e;
    }
  }

  /** The kind keyword read back from the joined tokens of a composite code. */
  lemma KindOfCompLabel(d: char, kind: string)
    requires IsTierDigit(d) && IsKind(kind)
    ensures TariffKind(Join(["NIVEL", [d], KindUpper(kind)])) == Some(kind)
  {
    var upper := KindUpper(kind);
    JoinThree("NIVEL", [d], upper);
    assert Join(["NIVEL", [d], upper]) == "NIVEL " + [d] + " " + upper;
    if kind == "operator" {
      OperatorLabelKind(d);
    } else if kind == "user" {
      UserLabelKind(d);
    } else {
      SharedLabelKind(d);
    }
  }

  lemma OperatorLabelKind(d: char)
    requires IsTierDigit(d)
    ensures TariffKind("NIVEL " + [d] + " " + "OPERATOR") == Some("operator")
  {
    var joined := "NIVEL " + [d] + " " + "OPERATOR";
    assert joined[8..] == "OPERATOR";
    ContainsAt(joined, "OPERATOR", 8);
  }

  lemma UserLabelKind(d: char)
    requires IsTierDigit(d)
    ensures TariffKind("NIVEL " + [d] + " " + "USER") == Some("user")
  {
    var joined := "NIVEL " + [d] + " " + "USER";
    assert joined[8..] == "USER";
    assert 'O' !in joined && "OPERADOR"[0] == 'O' && "OPERATOR"[0] == 'O';
    Lacks(joined, "OPERADOR");
    Lacks(joined, "OPERATOR");
    ContainsAt(joined, "USER", 8);
  }

  lemma SharedLabelKind(d: char)
    requires IsTierDigit(d)
    ensures TariffKind("NIVEL " + [d] + " " + "SHARED") == Some("shared")
  {
    var joined := "NIVEL " + [d] + " " + "SHARED";
    assert joined[8..] == "SHARED";
    assert 'O' !in joined && "OPERADOR"[0] == 'O' && "OPERATOR"[0] == 'O';
    assert 'U' !in joined && "USUARIO"[0] == 'U' && "USER"[0] == 'U';
    Lacks(joined, "OPERADOR");
    Lacks(joined, "OPERATOR");
    Lacks(joined, "USUARIO");
    Lacks(joined, "USER");
    ContainsAt(joined, "SHARED", 8);
  }

  /**
   * The composite codes are their own canonical form: reading
   * 'nivel_d_kind' back through `canonical_comp_from_tokens` gives
   * 'nivel_d_kind' again, so opportunity-side codes meet tariff-side codes.
   */
  lemma CompTierFixedPoint(d: char, kind: string)
    requires IsTierDigit(d) && IsKind(kind)
    ensures CompTier(Some(CompLabel(d, kind))) == Some(CompLabel(d, kind))
  {
    var txt := Some(CompLabel(d, kind));
    CompLabelTokens(d, kind);
    NormCompLabel(d, kind);
    FirstDigitOfCompLabel(d, kind);
    KindOfCompLabel(d, kind);
    CompTierDigit(txt);
  }

  // ---------------------------------------------------------------------
  // An ordinal indicator in the tier text
  // ---------------------------------------------------------------------

  /** The tier text "NIVEL 1 <w>". */
  function TierText(w: string): string {
    "NIVEL" + " " + "1" + " " + w
  }

  /** An operator keyword whose first letter is the masculine ordinal indicator 'º'. */
  const OrdinalOperador: string := "\U{ba}PERADOR"

  /** A character map that keeps "NIVEL", "1" and the space maps the tier text word by word. */
  lemma MapTierText(f: char -> char, w: string)
    requires f(' ') == ' ' && MapChars(f, "NIVEL") == "NIVEL" && MapChars(f, "1") == "1"
    ensures MapChars(f, TierText(w)) == TierText(MapChars(f, w))
  {
    MapCharsAppend(f, "NIVEL" + " " + "1" + " ", w);
    MapCharsAppend(f, "NIVEL" + " " + "1", " ");
    MapCharsAppend(f, "NIVEL" + " ", "1");
    MapCharsAppend(f, "NIVEL", " ");
    assert MapChars(f, " ") == " ";
  }

  /** The tokens of the tier text are "NIVEL", "1" and the word, and re-joining them gives it back. */
  lemma TierTextTokens(w: string)
    requires IsWord(w) && MapChars(SepToSpace, w) == w
    ensures TokensOf(TierText(w)) == ["NIVEL", "1", w]
    ensures Join(["NIVEL", "1", w]) == TierText(w)
  {
    assert MapChars(SepToSpace, "NIVEL") == "NIVEL";
    assert MapChars(SepToSpace, "1") == "1";
    MapTierText(SepToSpace, w);
    JoinThree("NIVEL", "1", w);
    WordsJoin(["NIVEL", "1", w]);
  }

  /** Collapsing leaves the tier text of a word as it is. */
  lemma TierTextCollapsed(w: string)
    requires IsWord(w)
    ensures Collapse(TierText(w)) == TierText(w)
  {
    JoinThree("NIVEL", "1", w);
    WordsJoin(["NIVEL", "1", w]);
  }

  /** The composite code of "NIVEL 1 <w>" has digit 1 and the kind the keyword search finds. */
  lemma CompTierOfTierText(w: string)
    requires IsWord(w) && MapChars(SepToSpace, w) == w
    ensures CompTierOfText(TierText(w)) ==
      match TariffKind(TierText(w))
        case Some(kind) => Some(CompLabel('1', kind))
        case None => None
  {
    TierTextTokens(w);
    assert ["NIVEL", "1", w][1] == ['1'];
  }

  /** "NIVEL 1 OPERADOR" reads as the operator kind. */
  lemma OperadorKind()
    ensures TariffKind(TierText("OPERADOR")) == Some("operator")
  {
    assert TierText("OPERADOR")[8..] == "OPERADOR";
    ContainsAt(TierText("OPERADOR"), "OPERADOR", 8);
  }

  /** With a lower-case first letter the keyword is not recognised, and no other keyword is there. */
  lemma LowerOperadorNoKind()
    ensures TariffKind(TierText("oPERADOR")) == None
  {
    var t := TierText("oPERADOR");
    NoCapitalO(t);
    if Contains(t, "OPERADOR") { ContainsWhere(t, "OPERADOR"); }
    if Contains(t, "OPERATOR") { ContainsWhere(t, "OPERATOR"); }
    LowerOperadorLacks();
  }

  /** The first nine characters of "NIVEL 1 oPERADOR" hold no capital 'O'. */
  lemma NoCapitalO(t: string)
    requires t == TierText("oPERADOR")
    ensures forall i :: 0 <= i <= 8 ==> t[i] != 'O'
  {
    forall i | 0 <= i <= 8 ensures t[i] != 'O' {
      if i < 5 {
        assert t[i] == "NIVEL"[i];
      }
    }
  }

  /** "NIVEL 1 oPERADOR" has no 'U', 'C' or 'S', so none of the other keywords. */
  lemma LowerOperadorLacks()
    ensures !Contains(TierText("oPERADOR"), "USUARIO") && !Contains(TierText("oPERADOR"), "USER")
    ensures !Contains(TierText("oPERADOR"), "COMPARTID") && !Contains(TierText("oPERADOR"), "SHARED")
  {
    var t := TierText("oPERADOR");
    assert 'U' !in t && 'C' !in t && 'S' !in t;
    Lacks(t, "USUARIO");
    Lacks(t, "USER");
    Lacks(t, "COMPARTID");
    Lacks(t, "SHARED");
  }

  /** The words the normalisers do not change in the tier text. */
  lemma TierTextFixedWords()
    ensures MapChars(UpperChar, "NIVEL") == "NIVEL" && MapChars(UpperChar, "1") == "1"
    ensures MapChars(FoldChar, "NIVEL") == "NIVEL" && MapChars(FoldChar, "1") == "1"
    ensures MapChars(NormChar, "NIVEL") == "NIVEL" && MapChars(NormChar, "1") == "1"
  {
  }

  /** The keyword under each character map: 'º' folds to a lower-case 'o', which upper-cases to 'O'. */
  lemma OperadorChars()
    ensures MapChars(UpperChar, OrdinalOperador) == OrdinalOperador
    ensures MapChars(FoldChar, OrdinalOperador) == "oPERADOR"
    ensures MapChars(UpperChar, "oPERADOR") == "OPERADOR"
    ensures MapChars(FoldChar, "OPERADOR") == "OPERADOR"
    ensures MapChars(NormChar, OrdinalOperador) == "OPERADOR"
  {
  }

  /** `norm_text` as written turns "NIVEL 1 ºPERADOR" into "NIVEL 1 oPERADOR". */
  lemma OrdinalNormAsWritten()
    ensures NormTextAsWritten(Some(TierText(OrdinalOperador))) == TierText("oPERADOR")
  {
    TierTextFixedWords();
    OperadorChars();
    MapTierText(UpperChar, OrdinalOperador);
    MapTierText(FoldChar, OrdinalOperador);
    TierTextCollapsed("oPERADOR");
  }

  /** A second pass of `norm_text` as written upper-cases the 'o'. */
  lemma OrdinalNormTwice()
    ensures NormTextAsWritten(Some(TierText("oPERADOR"))) == TierText("OPERADOR")
  {
    TierTextFixedWords();
    OperadorChars();
    MapTierText(UpperChar, "oPERADOR");
    MapTierText(FoldChar, "OPERADOR");
    TierTextCollapsed("OPERADOR");
  }

  /** The corrected normaliser turns "NIVEL 1 ºPERADOR" into "NIVEL 1 OPERADOR" at once. */
  lemma OrdinalNormCorrected()
    ensures NormText(Some(TierText(OrdinalOperador))) == TierText("OPERADOR")
  {
    TierTextFixedWords();
    OperadorChars();
    MapTierText(NormChar, OrdinalOperador);
    TierTextCollapsed("OPERADOR");
  }

  /** "NIVEL 1 oPERADOR" has no composite code, and "NIVEL 1 OPERADOR" is 'nivel_1_operator'. */
  lemma OperadorCodes()
    ensures CompTierOfText(TierText("oPERADOR")) == None
    ensures CompTierOfText(TierText("OPERADOR")) == Some(CompLabel('1', "operator"))
  {
    LowerOperadorCode();
    UpperOperadorCode();
  }

  lemma LowerOperadorCode()
    ensures CompTierOfText(TierText("oPERADOR")) == None
  {
    assert MapChars(SepToSpace, "oPERADOR") == "oPERADOR";
    CompTierOfTierText("oPERADOR");
    LowerOperadorNoKind();
  }

  lemma UpperOperadorCode()
    ensures CompTierOfText(TierText("OPERADOR")) == Some(CompLabel('1', "operator"))
  {
    assert MapChars(SepToSpace, "OPERADOR") == "OPERADOR";
    CompTierOfTierText("OPERADOR");
    OperadorKind();
  }

  /**
   * As written, `norm_text` leaves 'º' as a lower-case 'o', so
   * `canonical_comp_from_tokens` finds no keyword in "NIVEL 1 ºPERADOR";
   * run on its own normalised output it finds 'nivel_1_operator'.
   */
  lemma OrdinalOperatorAsWritten()
    ensures CompTierAsWritten(Some(TierText(OrdinalOperador))) == None
    ensures CompTierAsWritten(Some(NormTextAsWritten(Some(TierText(OrdinalOperador))))) == Some(CompLabel('1', "operator"))
  {
    OrdinalNormAsWritten();
    OrdinalNormTwice();
    OperadorCodes();
  }

  /** The corrected normaliser finds 'nivel_1_operator' in "NIVEL 1 ºPERADOR" at once. */
  lemma OrdinalOperatorCorrected()
    ensures CompTier(Some(TierText(OrdinalOperador))) == Some(CompLabel('1', "operator"))
  {
    OrdinalNormCorrected();
    OperadorCodes();
  }

  // ---------------------------------------------------------------------
  // The opportunity side: _nivel_compuesto and the frontera tier
  // ---------------------------------------------------------------------

  /** The ownership kind read from the normalised ownership text: user first, then operator, then shared. */
  function OppKind(p: string): Option<string> {
    if Contains(p, "USUARIO") then Some("user")
    else if Contains(p, "OPERADOR") then Some("operator")
    else if Contains(p, "COMPARTID") || Contains(p, "SHARED") then Some("shared")
    else None
  }

  /**
   * `_nivel_compuesto`: the digit is the last character of the simple tier
   * of the tier text, the kind comes from the ownership text.
   */
  function NivelCompuesto(prop: string, nivel: string): Option<string> {
    var p := NormText(Some(prop));
    match SimpleTier(Some(nivel))
      case None => None
      case Some(n) =>
        var dig := n[|n| - 1];
        match OppKind(p)
          case Some(kind) => Some(CompLabel(dig, kind))
          case None => None
  }

  /**
   * `_nivel_compuesto` is absent exactly when the tier text has no tier digit
   * or the ownership text none of the four keywords; otherwise its digit is
   * the simple tier's and its kind the ownership kind, user taking priority.
   */
  lemma NivelCompuestoSpec(prop: string, nivel: string)
    ensures NivelCompuesto(prop, nivel).None? <==>
      FirstTierDigit(NormText(Some(nivel))).None? || OppKind(NormText(Some(prop))).None?
    ensures NivelCompuesto(prop, nivel).Some? ==>
      NivelCompuesto(prop, nivel) ==
        Some(CompLabel(FirstTierDigit(NormText(Some(nivel))).value, OppKind(NormText(Some(prop))).value))
  {
    SimpleTierSpec(Some(nivel));
  }

  /**
   * The two composite extractors rank the keywords in opposite orders: an
   * ownership text naming both the operator and the user is 'user' for the
   * opportunity but 'operator' for the tariff side.
   */
  lemma KindPriorityDiffers()
    ensures OppKind("USUARIO OPERADOR") == Some("user")
    ensures TariffKind("USUARIO OPERADOR") == Some("operator")
  {
    var t := "USUARIO OPERADOR";
    ContainsAt(t, "USUARIO", 0);
    ContainsAt(t, "OPERADOR", 8);
  }

  /** ASCII lower-casing, enough for the simple labels. */
  function LowerChar(c: char): char {
    if 'A' <= c <= 'Z' then (c as int + 32) as char else c
  }

  /** `.lower().replace(' ', '_')` on one character. */
  function SnakeChar(c: char): char {
    if c == ' ' then '_' else LowerChar(c)
  }

  /**
   * The tier written to a frontera: the composite code when it exists, else
   * the simple label lower-cased with '_' for its space.
   */
  function FronteraTier(prop: string, nivel: string): Option<string> {
    match NivelCompuesto(prop, nivel)
      case Some(c) => Some(c)
      case None =>
        match SimpleTier(Some(nivel))
          case Some(ns) => Some(MapChars(SnakeChar, ns))
          case None => None
  }

  /** The simple label in snake case is 'nivel_d'. */
  lemma SnakeSimpleLabel(d: char)
    requires IsTierDigit(d)
    ensures MapChars(SnakeChar, SimpleLabel(d)) == "nivel_" + [d]
  {
    var r := MapChars(SnakeChar, SimpleLabel(d));
    assert |r| == 7;
    assert r[0] == 'n' && r[1] == 'i' && r[2] == 'v' && r[3] == 'e' && r[4] == 'l' && r[5] == '_' && r[6] == d;
  }

  /**
   * A frontera's tier is the composite code when there is one, 'nivel_d' for
   * the simple tier's digit when only the tier text parses, and absent when
   * the tier text has no tier digit.
   */
  lemma FronteraTierSpec(prop: string, nivel: string)
    ensures NivelCompuesto(prop, nivel).Some? ==> FronteraTier(prop, nivel) == NivelCompuesto(prop, nivel)
    ensures NivelCompuesto(prop, nivel).None? && FirstTierDigit(NormText(Some(nivel))).Some? ==>
      FronteraTier(prop, nivel) == Some("nivel_" + [FirstTierDigit(NormText(Some(nivel))).value])
    ensures FronteraTier(prop, nivel).None? <==> FirstTierDigit(NormText(Some(nivel))).None?
  {
    SimpleTierSpec(Some(nivel));
    NivelCompuestoSpec(prop, nivel);
    var f := FirstTierDigit(NormText(Some(nivel)));
    if f.Some? {
      SnakeSimpleLabel(f.value);
    }
  }

  /**
   * A fallback code 'nivel_d' carries no kind: the composite extractor finds
   * nothing in it, while the simple extractor still reads 'NIVEL d'.
   */
  lemma FallbackCodeIsSimpleOnly(d: char)
    requires IsTierDigit(d)
    ensures CompTier(Some("nivel_" + [d])) == None
    ensures SimpleTier(Some("nivel_" + [d])) == Some(SimpleLabel(d))
  {
    var txt := Some("nivel_" + [d]);
    FallbackJoined(d);
    FallbackNoKind(d);
    CompTierDigit(txt);
    FallbackSimple(d);
  }

  lemma FallbackSimple(d: char)
    requires IsTierDigit(d)
    ensures SimpleTier(Some("nivel_" + [d])) == Some(SimpleLabel(d))
  {
    NormFallback(d);
    SimpleTierSpec(Some("nivel_" + [d]));
    FirstDigitOfFallback(d);
  }

  lemma FirstDigitOfFallback(d: char)
    requires IsTierDigit(d)
    ensures FirstTierDigit("NIVEL_" + [d]) == Some(d)
  {
    var t := "NIVEL_" + [d];
    assert t[6] == d;
    forall e | IsTierDigit(e) && e in t ensures e == d { }
  }

  lemma NormFallback(d: char)
    requires IsTierDigit(d)
    ensures NormText(Some("nivel_" + [d])) == "NIVEL_" + [d]
  {
    var t := "NIVEL_" + [d];
    AsciiNorm("nivel_" + [d], t);
    assert IsWord(t);
    WordIsNormal(t);
    CollapseNormalFixed(t);
  }

  /** The joined tokens of 'NIVEL_d' are 'NIVEL d'. */
  lemma FallbackJoined(d: char)
    requires IsTierDigit(d)
    ensures Join(TierTokens(Some("nivel_" + [d]))) == "NIVEL " + [d]
  {
    NormFallback(d);
    var m := MapChars(SepToSpace, "NIVEL_" + [d]);
    assert m == "NIVEL " + [d];
    WordsJoin(["NIVEL", [d]]);
    assert Join(["NIVEL", [d]]) == "NIVEL " + [d];
  }

  /** 'NIVEL d' names no ownership kind. */
  lemma FallbackNoKind(d: char)
    requires IsTierDigit(d)
    ensures TariffKind("NIVEL " + [d]) == None
  {
    var joined := "NIVEL " + [d];
    assert 'O' !in joined && 'U' !in joined && 'C' !in joined && 'S' !in joined;
    assert "OPERADOR"[0] == 'O' && "OPERATOR"[0] == 'O' && "USUARIO"[0] == 'U' && "USER"[0] == 'U';
    assert "COMPARTID"[0] == 'C' && "SHARED"[0] == 'S';
    Lacks(joined, "OPERADOR");
    Lacks(joined, "OPERATOR");
    Lacks(joined, "USUARIO");
    Lacks(joined, "USER");
    Lacks(joined, "COMPARTID");
    Lacks(joined, "SHARED");
  }
}
