/**
 * The JSON values the analysis reads out of frontera records and mapping
 * files, with the few Python operations applied to them: `dict.get`,
 * `str()`, truthiness, `or` and `coalesce`.
 */
module Json {
  import opened Options

  /**
   * A JSON scalar: null, a number together with the text Python's `str()`
   * gives for it, or a text.
   */
  datatype JVal = JNull | JNum(num: real, text: string) | JStr(str: string)

  /** A JSON object. */
  type Record = map<string, JVal>

  /** `f.get(key)`: a missing key reads as null. */
  function Get(f: Record, key: string): JVal {
    if key in f then f[key] else JNull
  }

  /** The argument the text normaliser sees: nothing for null, `str(v)` otherwise. */
  function TextOf(v: JVal): Option<string> {
    match v
      case JNull => None
      case JNum(_, t) => Some(t)
      case JStr(s) => Some(s)
  }

  /** `v in (None, '')`. */
  predicate Blank(v: JVal) {
    v == JNull || v == JStr("")
  }

  /** Python truthiness: null, zero and the empty text are false. */
  predicate Truthy(v: JVal) {
    match v
      case JNull => false
      case JNum(x, _) => x != 0.0
      case JStr(s) => s != ""
  }

  /**
   * `a or b`: one of the two operands, truthy exactly when either is; the
   * first when it is truthy, and the last when neither is.
   */
  function Or(a: JVal, b: JVal): (r: JVal)
    ensures r == a || r == b
    ensures Truthy(r) <==> Truthy(a) || Truthy(b)
    ensures Truthy(a) ==> r == a
    ensures !Truthy(a) && !Truthy(b) ==> r == b
  {
    if Truthy(a) then a else b
  }

  /** The first truthy value of a non-empty chain of operands, else the last one. */
  function FirstTruthy(vs: seq<JVal>): JVal
    requires vs != []
  {
    if |vs| == 1 || Truthy(vs[0]) then vs[0] else FirstTruthy(vs[1..])
  }

  /**
   * A chain `a or b or c`, which Python groups to the left, is the first
   * truthy operand, else the last one, and grouping it to the right gives
   * the same value.
   */
  lemma OrChain(a: JVal, b: JVal, c: JVal)
    ensures Or(Or(a, b), c) == FirstTruthy([a, b, c])
    ensures Or(Or(a, b), c) == Or(a, Or(b, c))
  {
    assert [a, b, c][1..] == [b, c];
    assert [b, c][1..] == [c];
    assert FirstTruthy([b, c]) == Or(b, c);
  }

  /** `coalesce(*vals)`: the first value that is neither null nor the empty text, else null. */
  function Coalesce(vs: seq<JVal>): (r: JVal)
    ensures r == JNull || (r in vs && !Blank(r))
    ensures r == JNull <==> forall i :: 0 <= i < |vs| ==> Blank(vs[i])
  {
    if vs == [] then JNull
    else
      assert forall i :: 0 < i < |vs| ==> vs[i] == vs[1..][i - 1];
      if !Blank(vs[0]) then vs[0] else Coalesce(vs[1..])
  }

  /** The value `coalesce` picks is the first non-blank one. */
  lemma {:induction false} CoalesceFirst(vs: seq<JVal>, k: int)
    requires 0 <= k < |vs| && !Blank(vs[k])
    requires forall i :: 0 <= i < k ==> Blank(vs[i])
    ensures Coalesce(vs) == vs[k]
  {
    if k > 0 {
      assert Blank(vs[0]);
      assert forall i :: 0 <= i < k - 1 ==> vs[1..][i] == vs[i + 1];
      CoalesceFirst(vs[1..], k - 1);
    }
  }

  /** A number, zero included, is never blank, so `coalesce` takes it. */
  lemma CoalesceTakesZero(t: string, rest: seq<JVal>)
    ensures Coalesce([JNum(0.0, t)] + rest) == JNum(0.0, t)
  {
    CoalesceFirst([JNum(0.0, t)] + rest, 0);
  }
}
