/**
 * The alias tables (city aliases, provider aliases): the key/value
 * normalisation of `load_mapping_json`, once the JSON document is read.
 */
module Mappings {
  import opened Options
  import opened TextNorm
  import opened Json

  /** The decoded document: an object, a list of `{key, value}` rows, or anything else. */
  datatype RawMapping =
    | DictForm(pairs: seq<(string, JVal)>)
    | ListForm(rows: seq<Record>)
    | OtherForm

  /** A mapping row is used when it has both a 'key' and a 'value'. */
  predicate UsableRow(row: Record) {
    "key" in row && "value" in row
  }

  /** The normalised (key, value) entries in document order, before empty keys are dropped. */
  function Entries(raw: RawMapping): seq<(string, string)> {
    match raw
      case DictForm(pairs) => DictEntries(pairs)
      case ListForm(rows) => RowEntries(rows)
      case OtherForm => []
  }

  /** One object member, key and value normalised. */
  function DictEntry(p: (string, JVal)): (string, string) {
    (NormText(Some(p.0)), NormText(TextOf(p.1)))
  }

  function DictEntries(pairs: seq<(string, JVal)>): (r: seq<(string, string)>)
    ensures |r| == |pairs|
    ensures forall i :: 0 <= i < |pairs| ==> r[i] == DictEntry(pairs[i])
  {
    if pairs == [] then []
    else [DictEntry(pairs[0])] + DictEntries(pairs[1..])
  }

  /** One usable row, key and value normalised. */
  function RowEntry(row: Record): (string, string)
    requires UsableRow(row)
  {
    (NormText(TextOf(row["key"])), NormText(TextOf(row["value"])))
  }

  function RowEntries(rows: seq<Record>): (r: seq<(string, string)>)
    ensures forall e :: e in r <==> exists i :: 0 <= i < |rows| && UsableRow(rows[i]) && e == RowEntry(rows[i])
  {
    if rows == [] then []
    else
      assert forall i :: 0 < i < |rows| ==> rows[i] == rows[1..][i - 1];
      var rest := RowEntries(rows[1..]);
      if UsableRow(rows[0]) then [RowEntry(rows[0])] + rest
      else rest
  }

  /**
   * The rows are read in document order, one entry per usable row: the
   * entries of a concatenation are those of each part, and a single row
   * gives its entry or nothing.
   */
  lemma RowEntriesConcat(a: seq<Record>, b: seq<Record>)
    ensures RowEntries(a + b) == RowEntries(a) + RowEntries(b)
    ensures forall row :: RowEntries([row]) == if UsableRow(row) then [RowEntry(row)] else []
  {
    RowEntriesAppend(a, b);
    forall row ensures RowEntries([row]) == if UsableRow(row) then [RowEntry(row)] else [] {
      RowEntriesOne(row);
    }
  }

  /** The concatenation case, by induction on the first part. */
  lemma {:induction false} RowEntriesAppend(a: seq<Record>, b: seq<Record>)
    ensures RowEntries(a + b) == RowEntries(a) + RowEntries(b)
  {
    if a == [] {
      assert a + b == b;
    } else {
      assert (a + b)[1..] == a[1..] + b;
      RowEntriesAppend(a[1..], b);
    }
  }



  /** The one-element case. */
  lemma RowEntriesOne(row: Record)
    ensures RowEntries([row]) == if UsableRow(row) then [RowEntry(row)] else []
  {
    assert [row][1..] == [];
  }

  /** Row i is the last usable row whose normalised key is `k`. */
  predicate LastRowWith(rows: seq<Record>, i: int, k: string) {
    && 0 <= i < |rows| && UsableRow(rows[i]) && RowEntry(rows[i]).0 == k
    && forall j :: i < j < |rows| && UsableRow(rows[j]) ==> RowEntry(rows[j]).0 != k
  }

  /** The mapping the entries give: empty keys skipped, a later entry overwriting. */
  function MappingOf(es: seq<(string, string)>): map<string, string>
    decreases |es|
  {
    if es == [] then map[]
    else
      var prev := MappingOf(es[..|es| - 1]);
      var e := es[|es| - 1];
      if e.0 != "" then prev[e.0 := e.1] else prev
  }

  /** `load_mapping_json` after the document is read. */
  method BuildMapping(raw: RawMapping) returns (m: map<string, string>)
    ensures m == MappingOf(Entries(raw))
  {
    m := InsertEntries(Entries(raw));
  }

  /** The insertion loop of `load_mapping_json`: each entry with a non-empty key overwrites. */
  method InsertEntries(es: seq<(string, string)>) returns (m: map<string, string>)
    ensures m == MappingOf(es)
  {
    m := map[];
    var i := 0;
    while i < |es|
      invariant 0 <= i <= |es|
      invariant m == MappingOf(es[..i])
    {
      assert es[..i + 1][..i] == es[..i];
      var (k, v) := es[i];
      if k != "" {
        m := m[k := v];
      }
      i := i + 1;
    }
    assert es[..|es|] == es;
  }

  /** Entry `i` is the last one with key `k`. */
  predicate LastWith(es: seq<(string, string)>, i: int, k: string) {
    0 <= i < |es| && es[i].0 == k && forall j :: i < j < |es| ==> es[j].0 != k
  }

  /**
   * A key is mapped exactly when some entry has it and it is not empty, and
   * it maps to the value of the last entry with that key.
   */
  lemma {:induction false} MappingOfSpec(es: seq<(string, string)>, k: string)
    ensures k in MappingOf(es) <==> k != "" && exists i :: 0 <= i < |es| && es[i].0 == k
    ensures k in MappingOf(es) ==> exists i :: LastWith(es, i, k) && MappingOf(es)[k] == es[i].1
    decreases |es|
  {
    if es != [] {
      var init := es[..|es| - 1];
      var last := |es| - 1;
      MappingOfSpec(init, k);
      if es[last].0 == k && k != "" {
        assert LastWith(es, last, k) && MappingOf(es)[k] == es[last].1;
      } else {
        assert k in MappingOf(es) <==> k in MappingOf(init);
        if k in MappingOf(init) {
          var i :| LastWith(init, i, k) && MappingOf(init)[k] == init[i].1;
          assert init[i] == es[i];
          assert LastWith(es, i, k);
        }
        if k != "" && exists i :: 0 <= i < |es| && es[i].0 == k {
          var i :| 0 <= i < |es| && es[i].0 == k;
          assert init[i] == es[i];
        }
      }
    }
  }

  /**
   * A list document maps a key to the value of the last usable row with
   * that normalised key.
   */
  lemma {:induction false} ListMappingLastWins(rows: seq<Record>, k: string)
    requires k in MappingOf(RowEntries(rows))
    ensures exists i :: LastRowWith(rows, i, k) && MappingOf(RowEntries(rows))[k] == RowEntry(rows[i]).1
    decreases |rows|
  {
    var n := |rows| - 1;
    var init, row := rows[..n], rows[n];
    assert rows == init + [row];
    MappingOfRowsSnoc(init, row);
    if UsableRow(row) && RowEntry(row).0 == k {
      MappingOfSpec(RowEntries(rows), k);
      assert LastRowWith(rows, n, k);
    } else {
      ListMappingLastWins(init, k);
      var i :| LastRowWith(init, i, k) && MappingOf(RowEntries(init))[k] == RowEntry(init[i]).1;
      LastRowExtend(init, row, i, k);
    }
  }

  /** Adding one entry to the end overwrites its key, unless the key is empty. */
  lemma MappingOfSnoc(es: seq<(string, string)>, e: (string, string))
    ensures MappingOf(es + [e]) == if e.0 != "" then MappingOf(es)[e.0 := e.1] else MappingOf(es)
  {
    assert (es + [e])[..|es|] == es;
  }

  /** Adding one row to the end of a list document. */
  lemma MappingOfRowsSnoc(init: seq<Record>, row: Record)
    ensures MappingOf(RowEntries(init + [row])) ==
      if UsableRow(row) && RowEntry(row).0 != "" then MappingOf(RowEntries(init))[RowEntry(row).0 := RowEntry(row).1]
      else MappingOf(RowEntries(init))
  {
    RowEntriesConcat(init, [row]);
    if UsableRow(row) {
      MappingOfSnoc(RowEntries(init), RowEntry(row));
    } else {
      assert RowEntries(init) + [] == RowEntries(init);
    }
  }

  /** The last row with a key stays the last one when a row with another key follows. */
  lemma LastRowExtend(init: seq<Record>, row: Record, i: int, k: string)
    requires LastRowWith(init, i, k) && !(UsableRow(row) && RowEntry(row).0 == k)
    ensures LastRowWith(init + [row], i, k) && (init + [row])[i] == init[i]
  {
    var rows := init + [row];
    forall j | i < j < |rows| && UsableRow(rows[j]) ensures RowEntry(rows[j]).0 != k {
      if j < |init| {
        assert rows[j] == init[j];
      }
    }
  }

  /** Every key and value of a built mapping is normalised text, and no key is empty. */
  lemma MappingNormalised(raw: RawMapping, k: string)
    requires k in MappingOf(Entries(raw))
    ensures k != "" && NormText(Some(k)) == k
    ensures NormText(Some(MappingOf(Entries(raw))[k])) == MappingOf(Entries(raw))[k]
  {
    var es := Entries(raw);
    MappingOfSpec(es, k);
    var i :| LastWith(es, i, k) && MappingOf(es)[k] == es[i].1;
    EntriesNormal(raw, es[i]);
  }

  /** Both halves of every entry are outputs of the normaliser. */
  lemma EntriesNormal(raw: RawMapping, e: (string, string))
    requires e in Entries(raw)
    ensures NormText(Some(e.0)) == e.0 && NormText(Some(e.1)) == e.1
  {
    match raw
      case DictForm(pairs) =>
        var i :| 0 <= i < |pairs| && DictEntries(pairs)[i] == e;
        NormTextIdempotent(Some(pairs[i].0));
        NormTextIdempotent(TextOf(pairs[i].1));
      case ListForm(rows) =>
        var i :| 0 <= i < |rows| && UsableRow(rows[i]) && e == RowEntry(rows[i]);
        NormTextIdempotent(TextOf(rows[i]["key"]));
        NormTextIdempotent(TextOf(rows[i]["value"]));
      case OtherForm =>
  }
}
