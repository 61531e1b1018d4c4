/**
 * Text canonicalisation shared by the three pipeline stages:
 * whitespace collapsing (Python's `' '.join(s.split())`), ASCII and Latin-1
 * upper-casing, diacritic folding, and the `norm_text` / `clean_space`
 * normalisers built from them.
 */
module TextNorm {
  import opened Options

  /** The characters Python's `str.split()` (no argument) splits on. */
  predicate IsSpace(c: char) {
    || c == ' ' || '\t' <= c <= '\r' || '\U{1c}' <= c <= '\U{1f}'
    || c == '\U{85}' || c == '\U{a0}' || c == '\U{1680}'
    || '\U{2000}' <= c <= '\U{200a}' || c == '\U{2028}' || c == '\U{2029}'
    || c == '\U{202f}' || c == '\U{205f}' || c == '\U{3000}'
  }

  /** Applies a character map to every character of `s`. */
  function MapChars(f: char -> char, s: string): (r: string)
    ensures |r| == |s|
    ensures forall i :: 0 <= i < |s| ==> r[i] == f(s[i])
  {
    seq(|s|, i requires 0 <= i < |s| => f(s[i]))
  }

  /** One word of `str.split()`: non-empty and free of whitespace. */
  predicate IsWord(w: string) {
    w != [] && forall i :: 0 <= i < |w| ==> !IsSpace(w[i])
  }

  /**
   * A string in the shape `' '.join(x.split())` produces: its only blank is
   * the ASCII space, with no space at either end and no two spaces in a row.
   */
  predicate WhitespaceNormal(t: string) {
    && (forall i :: 0 <= i < |t| && IsSpace(t[i]) ==> t[i] == ' ')
    && (|t| > 0 ==> t[0] != ' ' && t[|t| - 1] != ' ')
    && (forall i :: 0 <= i < |t| - 1 && t[i] == ' ' ==> t[i + 1] != ' ')
  }

  /** Length of the longest whitespace-free prefix of `s`. */
  function WordLen(s: string): (n: nat)
    ensures n <= |s|
    ensures forall i :: 0 <= i < n ==> !IsSpace(s[i])
    ensures n < |s| ==> IsSpace(s[n])
  {
    if s == [] || IsSpace(s[0]) then 0 else 1 + WordLen(s[1..])
  }

  /** Python's `s.split()`: the maximal runs of non-whitespace, in order. */
  function Words(s: string): (ws: seq<string>)
    ensures forall k :: 0 <= k < |ws| ==> IsWord(ws[k])
    decreases |s|
  {
    if s == [] then []
    else if IsSpace(s[0]) then Words(s[1..])
    else
      var n := WordLen(s);
      [s[..n]] + Words(s[n..])
  }

  /** Python's `' '.join(ws)`. */
  function Join(ws: seq<string>): string {
    if |ws| == 0 then ""
    else if |ws| == 1 then ws[0]
    else ws[0] + " " + Join(ws[1..])
  }

  /** Python's `''.join(ws)`. */
  function Concat(ws: seq<string>): string {
    if ws == [] then "" else ws[0] + Concat(ws[1..])
  }

  /** `' '.join(s.split())`: trims and collapses every whitespace run to one space. */
  function Collapse(s: string): (r: string)
    ensures WhitespaceNormal(r)
  {
    JoinNormal(Words(s));
    Join(Words(s))
  }

  /** Python's `str.upper()` on ASCII and Latin-1 letters ('ß' is not remapped: Python widens it to "SS"). */
  function UpperChar(c: char): char {
    if 'a' <= c <= 'z' then (c as int - 32) as char
    else if '\U{e0}' <= c <= '\U{fe}' && c != '\U{f7}' then (c as int - 32) as char
    else if c == '\U{b5}' then '\U{39c}'
    else if c == '\U{ff}' then '\U{178}'
    else c
  }

  /**
   * NFKD decomposition followed by dropping combining marks, on the Latin-1
   * letters with diacritics, 'Ÿ', the ordinal indicators 'ª' 'º' (which
   * decompose to a lower-case letter) and the superscript digits.
   */
  function FoldChar(c: char): char {
    if '\U{c0}' <= c <= '\U{c5}' then 'A'
    else if c == '\U{c7}' then 'C'
    else if '\U{c8}' <= c <= '\U{cb}' then 'E'
    else if '\U{cc}' <= c <= '\U{cf}' then 'I'
    else if c == '\U{d1}' then 'N'
    else if '\U{d2}' <= c <= '\U{d6}' then 'O'
    else if '\U{d9}' <= c <= '\U{dc}' then 'U'
    else if c == '\U{dd}' || c == '\U{178}' then 'Y'
    else if '\U{e0}' <= c <= '\U{e5}' || c == '\U{aa}' then 'a'
    else if c == '\U{e7}' then 'c'
    else if '\U{e8}' <= c <= '\U{eb}' then 'e'
    else if '\U{ec}' <= c <= '\U{ef}' then 'i'
    else if c == '\U{f1}' then 'n'
    else if '\U{f2}' <= c <= '\U{f6}' || c == '\U{ba}' then 'o'
    else if '\U{f9}' <= c <= '\U{fc}' then 'u'
    else if c == '\U{fd}' || c == '\U{ff}' then 'y'
    else if c == '\U{b9}' then '1'
    else if c == '\U{b2}' then '2'
    else if c == '\U{b3}' then '3'
    else c
  }

  /** One character through the corrected normaliser: fold first, then upper-case. */
  function NormChar(c: char): char {
    UpperChar(FoldChar(c))
  }

  /**
   * `norm_text` exactly as written: upper-case, then fold, then collapse
   * (the leading `strip()` is subsumed by the final split/join, since both
   * character maps send whitespace to whitespace).
   */
  function NormTextAsWritten(s: Option<string>): (r: string)
    ensures s.None? ==> r == ""
    ensures WhitespaceNormal(r)
  {
    match s
    case None => ""
    case Some(x) => Collapse(MapChars(FoldChar, MapChars(UpperChar, x)))
  }

  /**
   * `norm_text` / `_norm_text` with folding moved before upper-casing, so
   * that letters the folding produces are upper-cased too. The rest of the
   * model normalises text with this one.
   */
  function NormText(s: Option<string>): (r: string)
    ensures s.None? ==> r == ""
    ensures WhitespaceNormal(r)
  {
    match s
    case None => ""
    case Some(x) => Collapse(MapChars(NormChar, x))
  }

  /** `clean_space` / `_clean_str`: collapse whitespace; no text gives "". */
  function CleanSpace(s: Option<string>): (r: string)
    ensures s.None? ==> r == ""
    ensures WhitespaceNormal(r)
  {
    Collapse(s.GetOr(""))
  }

  // ---------------------------------------------------------------------
  // Lemmas about split and join
  // ---------------------------------------------------------------------

  /** Joining words gives a whitespace-normal string that starts and ends with a non-blank. */
  lemma {:induction false} JoinNormal(ws: seq<string>)
    requires forall k :: 0 <= k < |ws| ==> IsWord(ws[k])
    ensures WhitespaceNormal(Join(ws))
    ensures ws != [] ==> |Join(ws)| > 0 && !IsSpace(Join(ws)[0]) && !IsSpace(Join(ws)[|Join(ws)| - 1])
  {
    if |ws| == 0 {
    } else if |ws| == 1 {
    } else {
      var w, r := ws[0], Join(ws[1..]);
      JoinNormal(ws[1..]);
      var t := w + " " + r;
      assert Join(ws) == t;
      forall i | 0 <= i < |t| - 1 && t[i] == ' '
        ensures t[i + 1] != ' '
      {
        if i >= |w| + 1 {
          assert t[i] == r[i - |w| - 1] && t[i + 1] == r[i - |w|];
        }
      }
      forall i | 0 <= i < |t| && IsSpace(t[i])
        ensures t[i] == ' '
      {
        if i > |w| { assert t[i] == r[i - |w| - 1]; }
      }
    }
  }

  /** The longest whitespace-free prefix is pinned down by where the first blank sits. */
  lemma WordLenAt(s: string, n: nat)
    requires n <= |s|
    requires forall i :: 0 <= i < n ==> !IsSpace(s[i])
    requires n < |s| ==> IsSpace(s[n])
    ensures WordLen(s) == n
  {
  }

  /** A whitespace-free word followed by a blank (or nothing) splits off as one word. */
  lemma WordsCons(w: string, rest: string)
    requires IsWord(w)
    requires rest == [] || IsSpace(rest[0])
    ensures Words(w + rest) == [w] + Words(rest)
  {
    var s := w + rest;
    assert forall i :: 0 <= i < |w| ==> s[i] == w[i];
    assert rest != [] ==> s[|w|] == rest[0];
    WordLenAt(s, |w|);
    assert s[..|w|] == w && s[|w|..] == rest;
  }

  /** Split undoes join: `(' '.join(ws)).split() == ws` for any list of words. */
  lemma {:induction false} WordsJoin(ws: seq<string>)
    requires forall k :: 0 <= k < |ws| ==> IsWord(ws[k])
    ensures Words(Join(ws)) == ws
  {
    if |ws| == 0 {
    } else if |ws| == 1 {
      WordsCons(ws[0], "");
      assert ws[0] + "" == ws[0];
    } else {
      var r := Join(ws[1..]);
      WordsJoin(ws[1..]);
      WordsCons(ws[0], " " + r);
      assert ws[0] + " " + r == ws[0] + (" " + r);
      assert (" " + r)[1..] == r;
    }
  }

  /** Collapsing a string that is already whitespace-normal changes nothing. */
  lemma CollapseNormalFixed(t: string)
    requires WhitespaceNormal(t)
    ensures Collapse(t) == t
  {
    JoinWordsFixed(t);
  }

  lemma {:induction false} JoinWordsFixed(t: string)
    requires WhitespaceNormal(t)
    ensures Join(Words(t)) == t
    decreases |t|
  {
    if t != [] {
      var n := WordLen(t);
      if n == |t| {
        JoinWordsOne(t);
      } else {
        NormalTail(t, n);
        JoinWordsFixed(t[n + 1..]);
        JoinWordsStep(t, n);
      }
    }
  }

  /** A string that is one word splits into itself. */
  lemma JoinWordsOne(t: string)
    requires t != [] && WordLen(t) == |t|
    ensures Join(Words(t)) == t
  {
    WordsTake(t);
    assert t[|t|..] == [] && t[..|t|] == t;
  }

  /** A first word, one space, and a rest that split-and-join leaves alone. */
  lemma JoinWordsStep(t: string, n: nat)
    requires n == WordLen(t) && 0 < n && n + 1 < |t|
    requires t[n] == ' ' && !IsSpace(t[n + 1])
    requires Join(Words(t[n + 1..])) == t[n + 1..]
    ensures Join(Words(t)) == t
  {
    var w, rest := t[..n], t[n + 1..];
    WordsSplitAt(t, n);
    JoinCons(w, Words(rest));
    SpaceSplit(t, n);
  }

  lemma SpaceSplit(t: string, n: nat)
    requires n < |t| && t[n] == ' '
    ensures t[..n] + " " + t[n + 1..] == t
  {
  }

  lemma JoinCons(w: string, ws: seq<string>)
    requires ws != []
    ensures Join([w] + ws) == w + " " + Join(ws)
  {
    assert ([w] + ws)[1..] == ws;
  }

  /** In a whitespace-normal string, the first word is followed by one space and a whitespace-normal rest. */
  lemma NormalTail(t: string, n: nat)
    requires WhitespaceNormal(t) && t != [] && n == WordLen(t) && n < |t|
    ensures t[n] == ' ' && n > 0 && n + 1 < |t|
    ensures WhitespaceNormal(t[n + 1..])
    ensures !IsSpace(t[n + 1])
  {
    NormalSuffix(t, n + 1);
  }

  /** A suffix of a whitespace-normal string that starts after a space is whitespace-normal. */
  lemma NormalSuffix(t: string, k: nat)
    requires WhitespaceNormal(t) && 0 < k < |t| && t[k - 1] == ' '
    ensures WhitespaceNormal(t[k..])
  {
    var t' := t[k..];
    assert forall i :: 0 <= i < |t'| ==> t'[i] == t[k + i];
  }

  /** A first word followed by one space and a non-blank: the split continues on the rest. */
  lemma WordsSplitAt(t: string, n: nat)
    requires t != [] && n == WordLen(t) && 0 < n && n + 1 < |t|
    requires t[n] == ' ' && !IsSpace(t[n + 1])
    ensures Words(t) == [t[..n]] + Words(t[n + 1..])
    ensures Words(t[n + 1..]) != []
  {
    assert !IsSpace(t[0]);
    assert t[n..][1..] == t[n + 1..];
    assert Words(t[n..]) == Words(t[n + 1..]);
    assert t[n + 1..][0] == t[n + 1];
  }

  /** `' '.join(s.split())` is idempotent. */
  lemma CollapseIdempotent(s: string)
    ensures Collapse(Collapse(s)) == Collapse(s)
  {
    CollapseNormalFixed(Collapse(s));
  }

  /** Mapping every character of every word. */
  function MapWords(f: char -> char, ws: seq<string>): (r: seq<string>)
    ensures |r| == |ws|
    ensures forall k :: 0 <= k < |ws| ==> r[k] == MapChars(f, ws[k])
  {
    seq(|ws|, k requires 0 <= k < |ws| => MapChars(f, ws[k]))
  }

  /** A character map that keeps blanks blank and non-blanks non-blank, and fixes the space. */
  ghost predicate KeepsBlanks(f: char -> char) {
    f(' ') == ' ' && forall c :: IsSpace(f(c)) <==> IsSpace(c)
  }

  lemma {:induction false} WordsMap(f: char -> char, s: string)
    requires KeepsBlanks(f)
    ensures Words(MapChars(f, s)) == MapWords(f, Words(s))
    decreases |s|
  {
    var m := MapChars(f, s);
    if s == [] {
    } else if IsSpace(s[0]) {
      MapCharsSlice(f, s, 1);
      MapBlank(f, s[0]);
      WordsSkip(m);
      WordsSkip(s);
      WordsMap(f, s[1..]);
    } else {
      var n := WordLen(s);
      MapBlank(f, s[0]);
      MapWordLen(f, s);
      MapCharsSlice(f, s, n);
      WordsMap(f, s[n..]);
      WordsTake(m);
      WordsTake(s);
      MapWordsCons(f, s[..n], Words(s[n..]));
    }
  }

  /** A leading blank is skipped by the split. */
  lemma WordsSkip(t: string)
    requires t != [] && IsSpace(t[0])
    ensures Words(t) == Words(t[1..])
  {
  }

  /** A leading word is split off. */
  lemma WordsTake(t: string)
    requires t != [] && !IsSpace(t[0])
    ensures Words(t) == [t[..WordLen(t)]] + Words(t[WordLen(t)..])
  {
  }

  lemma MapWordsCons(f: char -> char, w: string, ws: seq<string>)
    ensures MapWords(f, [w] + ws) == [MapChars(f, w)] + MapWords(f, ws)
  {
    var l := MapWords(f, [w] + ws);
    var r := [MapChars(f, w)] + MapWords(f, ws);
    assert |l| == |r|;
    forall k | 0 <= k < |l| ensures l[k] == r[k] {
      if k > 0 { assert ([w] + ws)[k] == ws[k - 1]; }
    }
  }

  lemma MapBlank(f: char -> char, c: char)
    requires KeepsBlanks(f)
    ensures IsSpace(f(c)) <==> IsSpace(c)
  {
  }

  /** Mapped prefix and suffix at a cut point. */
  lemma MapCharsSlice(f: char -> char, s: string, n: nat)
    requires n <= |s|
    ensures MapChars(f, s)[n..] == MapChars(f, s[n..])
    ensures MapChars(f, s)[..n] == MapChars(f, s[..n])
  {
  }

  /** A blank-preserving map keeps the length of the first word. */
  lemma MapWordLen(f: char -> char, s: string)
    requires KeepsBlanks(f)
    ensures WordLen(MapChars(f, s)) == WordLen(s)
  {
    var m := MapChars(f, s);
    var n := WordLen(s);
    forall i | 0 <= i < n ensures !IsSpace(m[i]) {
      MapBlank(f, s[i]);
    }
    if n < |s| {
      MapBlank(f, s[n]);
    }
    WordLenAt(m, n);
  }

  lemma {:induction false} JoinMap(f: char -> char, ws: seq<string>)
    requires KeepsBlanks(f)
    ensures Join(MapWords(f, ws)) == MapChars(f, Join(ws))
  {
    if |ws| >= 2 {
      JoinMap(f, ws[1..]);
      assert MapWords(f, ws)[1..] == MapWords(f, ws[1..]);
      assert MapChars(f, ws[0] + " " + Join(ws[1..]))
          == MapChars(f, ws[0]) + " " + MapChars(f, Join(ws[1..]));
    }
  }

  /** A blank-preserving character map commutes with collapsing. */
  lemma CollapseMap(f: char -> char, s: string)
    requires KeepsBlanks(f)
    ensures Collapse(MapChars(f, s)) == MapChars(f, Collapse(s))
  {
    WordsMap(f, s);
    JoinMap(f, Words(s));
  }

  /** A non-blank character occurs in the concatenated words exactly when it occurs in the text. */
  lemma {:induction false} ConcatWordsHas(s: string, c: char)
    requires !IsSpace(c)
    ensures c in Concat(Words(s)) <==> c in s
    decreases |s|
  {
    if s == [] {
    } else if IsSpace(s[0]) {
      ConcatWordsHas(s[1..], c);
      assert s == [s[0]] + s[1..];
    } else {
      var n := WordLen(s);
      ConcatWordsHas(s[n..], c);
      assert s == s[..n] + s[n..];
    }
  }

  /** Upper-casing keeps blanks blank. */
  lemma UpperKeepsBlanks()
    ensures KeepsBlanks(UpperChar)
  {
  }

  /** Folding keeps blanks blank. */
  lemma FoldKeepsBlanks()
    ensures KeepsBlanks(FoldChar)
  {
  }

  /** Normalising one character twice is the same as once. */
  lemma NormCharIdempotent(c: char)
    ensures NormChar(NormChar(c)) == NormChar(c)
  {
    UpperFoldedStable(FoldChar(c));
    UpperIdempotent(FoldChar(c));
  }

  /** Upper-casing twice is upper-casing once. */
  lemma UpperIdempotent(c: char)
    ensures UpperChar(UpperChar(c)) == UpperChar(c)
  {
  }

  /** Folding leaves alone what upper-casing a folded character gives. */
  lemma UpperFoldedStable(d: char)
    requires FoldChar(d) == d
    ensures FoldChar(UpperChar(d)) == UpperChar(d)
  {
  }

  /** The corrected character normaliser keeps blanks blank and is idempotent. */
  lemma NormCharFixed()
    ensures KeepsBlanks(NormChar)
    ensures forall c :: NormChar(NormChar(c)) == NormChar(c)
  {
    UpperKeepsBlanks();
    FoldKeepsBlanks();
    forall c ensures NormChar(NormChar(c)) == NormChar(c) {
      NormCharIdempotent(c);
    }
  }

  /** On ASCII, the normaliser only upper-cases the letters a-z. */
  lemma NormCharAscii(c: char)
    requires c < '\U{80}'
    ensures NormChar(c) == if 'a' <= c <= 'z' then (c as int - 32) as char else c
  {
  }

  /** ASCII text whose characters normalise to those of `y`, position by position. */
  lemma AsciiNorm(x: string, y: string)
    requires |x| == |y|
    requires forall i :: 0 <= i < |x| ==> x[i] < '\U{80}' && y[i] == if 'a' <= x[i] <= 'z' then (x[i] as int - 32) as char else x[i]
    ensures MapChars(NormChar, x) == y
  {
    forall i | 0 <= i < |x| ensures NormChar(x[i]) == y[i] {
      NormCharAscii(x[i]);
    }
  }

  /** ASCII text with single inner spaces and no control characters is whitespace-normal. */
  lemma AsciiWhitespaceNormal(t: string)
    requires forall i :: 0 <= i < |t| ==> ' ' <= t[i] < '\U{80}'
    requires |t| > 0 ==> t[0] != ' ' && t[|t| - 1] != ' '
    requires forall i :: 0 <= i < |t| - 1 && t[i] == ' ' ==> t[i + 1] != ' '
    ensures WhitespaceNormal(t)
  {
  }

  /** A single word is whitespace-normal. */
  lemma WordIsNormal(w: string)
    requires IsWord(w)
    ensures WhitespaceNormal(w)
  {
  }

  /** Two words glued together make one word. */
  lemma WordAppend(a: string, b: string)
    requires IsWord(a) && IsWord(b)
    ensures IsWord(a + b)
  {
  }

  /** Mapping characters distributes over concatenation. */
  lemma MapCharsAppend(f: char -> char, a: string, b: string)
    ensures MapChars(f, a + b) == MapChars(f, a) + MapChars(f, b)
  {
  }

  // ---------------------------------------------------------------------
  // Lemmas about norm_text
  // ---------------------------------------------------------------------

  /** norm_text is idempotent, so normalising already-normalised text is redundant. */
  lemma NormTextIdempotent(s: Option<string>)
    ensures NormText(Some(NormText(s))) == NormText(s)
  {
    var t := NormText(s);
    NormTextChars(s);
    assert MapChars(NormChar, t) == t;
    CollapseNormalFixed(t);
  }

  /** Every character of norm_text's result is already normalised. */
  lemma NormTextChars(s: Option<string>)
    ensures forall i :: 0 <= i < |NormText(s)| ==> NormChar(NormText(s)[i]) == NormText(s)[i]
  {
    if s.Some? {
      NormCharFixed();
      CollapseMap(NormChar, s.value);
    }
  }

  /** Text that is whitespace-normal and made of normalised characters is its own norm_text. */
  lemma NormTextFixed(t: string)
    requires WhitespaceNormal(t)
    requires forall i :: 0 <= i < |t| ==> NormChar(t[i]) == t[i]
    ensures NormText(Some(t)) == t
  {
    assert MapChars(NormChar, t) == t;
    CollapseNormalFixed(t);
  }

  /**
   * As written, norm_text is not idempotent: 'ª' upper-cases to itself and
   * then decomposes to a lower-case 'a', which a second pass upper-cases.
   */
  lemma NormTextAsWrittenNotIdempotent()
    ensures NormTextAsWritten(Some("\U{aa}")) == "a"
    ensures NormTextAsWritten(Some(NormTextAsWritten(Some("\U{aa}")))) == "A"
  {
    assert MapChars(FoldChar, MapChars(UpperChar, "\U{aa}")) == "a";
    CollapseNormalFixed("a");
    assert MapChars(FoldChar, MapChars(UpperChar, "a")) == "A";
    CollapseNormalFixed("A");
  }

  /** The corrected norm_text upper-cases that same character. */
  lemma NormTextOrdinal()
    ensures NormText(Some("\U{aa}")) == "A"
  {
    NormTextFixed("A");
    assert MapChars(NormChar, "\U{aa}") == "A";
    CollapseNormalFixed("A");
  }

  /** clean_space is idempotent and maps no text to "". */
  lemma CleanSpaceIdempotent(s: Option<string>)
    ensures CleanSpace(Some(CleanSpace(s))) == CleanSpace(s)
  {
    CollapseIdempotent(s.GetOr(""));
  }

  /** A non-blank character survives norm_text exactly when some input character normalises to it. */
  lemma NormTextHas(x: string, c: char)
    requires !IsSpace(c)
    ensures c in NormText(Some(x)) <==> exists i :: 0 <= i < |x| && NormChar(x[i]) == c
  {
    NormCharFixed();
    CollapseMap(NormChar, x);
    CollapseHas(MapChars(NormChar, x), c);
    var m := MapChars(NormChar, x);
    if c in m {
      var i :| 0 <= i < |m| && m[i] == c;
      assert NormChar(x[i]) == c;
    }
  }

  /** A non-blank character occurs in the collapsed text exactly when it occurs in the text. */
  lemma {:induction false} CollapseHas(s: string, c: char)
    requires !IsSpace(c)
    ensures c in Collapse(s) <==> c in s
  {
    ConcatWordsHas(s, c);
    JoinConcatHas(Words(s), c);
  }

  lemma {:induction false} JoinConcatHas(ws: seq<string>, c: char)
    requires c != ' '
    ensures c in Join(ws) <==> c in Concat(ws)
  {
    if |ws| == 1 {
      assert Concat(ws) == ws[0] + "";
    } else if |ws| >= 2 {
      JoinConcatHas(ws[1..], c);
      assert Join(ws) == ws[0] + (" " + Join(ws[1..]));
    }
  }

  // ---------------------------------------------------------------------
  // str.strip()
  // ---------------------------------------------------------------------

  /** The number of leading whitespace characters of `s`. */
  function LeadingSpace(s: string): (n: nat)
    ensures n <= |s|
    ensures forall k :: 0 <= k < n ==> IsSpace(s[k])
    ensures n < |s| ==> !IsSpace(s[n])
  {
    if s == [] || !IsSpace(s[0]) then 0 else 1 + LeadingSpace(s[1..])
  }

  /** The index just past the last non-whitespace character of `s`. */
  function TrailingEnd(s: string): (n: nat)
    ensures n <= |s|
    ensures forall k :: n <= k < |s| ==> IsSpace(s[k])
    ensures n > 0 ==> !IsSpace(s[n - 1])
  {
    if s == [] || !IsSpace(s[|s| - 1]) then |s| else TrailingEnd(s[..|s| - 1])
  }

  /**
   * `str.strip()`: the part of `s` between its leading and its trailing
   * whitespace; empty when `s` is all whitespace.
   */
  function Strip(s: string): (r: string)
    ensures |r| > 0 ==> !IsSpace(r[0]) && !IsSpace(r[|r| - 1])
    ensures LeadingSpace(s) < TrailingEnd(s) ==> r == s[LeadingSpace(s)..TrailingEnd(s)]
    ensures LeadingSpace(s) >= TrailingEnd(s) ==> r == "" && forall k :: 0 <= k < |s| ==> IsSpace(s[k])
  {
    var i := LeadingSpace(s);
    var j := TrailingEnd(s);
    if i < j then s[i..j] else ""
  }
}
