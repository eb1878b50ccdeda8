/** The climate chart's data preparation (src/pages/Visualization.tsx): the
    `climate_data` rows, sorted by `recorded_at` by the query, are folded into
    one record per date label holding the latest value of each data type. */
module Visualization {
  import opened Js

  /** A `climate_data` row: `recorded_at`, `data_type` and `value`. */
  datatype ClimateRow = ClimateRow(recordedAt: int, dataType: string, value: real)

  /** One chart record: `date` and one field per data type. */
  datatype Entry = Entry(date: string, fields: map<string, real>)

  /** The record key the source stores the label under; a data type of that
      name would overwrite the label. */
  const DateKey: string := "date"

  /** No row's data type collides with the `date` key. */
  predicate NoDateType(data: seq<ClimateRow>)
  {
    forall i :: 0 <= i < |data| ==> data[i].dataType != DateKey
  }

  predicate Distinct(s: seq<string>)
  {
    forall i, j :: 0 <= i < j < |s| ==> s[i] != s[j]
  }

  /** The labels of `data`, each once, in order of first occurrence.
      `dateLabel` stands for `toLocaleDateString` of a timestamp. */
  function Dates(data: seq<ClimateRow>, dateLabel: int -> string): seq<string>
  {
    if data == [] then []
    else
      var ds := Dates(data[..|data| - 1], dateLabel);
      var x := dateLabel(data[|data| - 1].recordedAt);
      if x in ds then ds else ds + [x]
  }

  /** The fields of the record for `date`: each data type seen under that
      label, with the value of its latest row. */
  function FieldsFor(data: seq<ClimateRow>, dateLabel: int -> string, date: string): map<string, real>
  {
    if data == [] then map[]
    else
      var m := FieldsFor(data[..|data| - 1], dateLabel, date);
      var r := data[|data| - 1];
      if dateLabel(r.recordedAt) == date then m[r.dataType := r.value] else m
  }

  /** The result of the `reduce`: one record per label. */
  function Grouped(data: seq<ClimateRow>, dateLabel: int -> string): seq<Entry>
  {
    var ds := Dates(data, dateLabel);
    seq(|ds|, i requires 0 <= i < |ds| => Entry(ds[i], FieldsFor(data, dateLabel, ds[i])))
  }

  /** The index of the first row labelled `date`, or `|data|` if none is. */
  function FirstIndex(data: seq<ClimateRow>, dateLabel: int -> string, date: string): (k: nat)
    ensures k <= |data|
    ensures k < |data| ==> dateLabel(data[k].recordedAt) == date
    ensures forall i :: 0 <= i < k ==> dateLabel(data[i].recordedAt) != date
  {
    if data == [] then 0
    else
      var n := |data| - 1;
      var k := FirstIndex(data[..n], dateLabel, date);
      if k < n then k
      else if dateLabel(data[n].recordedAt) == date then n
      else |data|
  }

  /** The labels are pairwise distinct, and a label is listed exactly when some
      row carries it. */
  lemma {:induction false} DatesSpec(data: seq<ClimateRow>, dateLabel: int -> string)
    ensures Distinct(Dates(data, dateLabel))
    ensures forall d :: d in Dates(data, dateLabel) <==> exists i :: 0 <= i < |data| && dateLabel(data[i].recordedAt) == d
  {
    if data != [] {
      var n := |data| - 1;
      var p := data[..n];
      DatesSpec(p, dateLabel);
      forall d ensures d in Dates(data, dateLabel) <==> exists i :: 0 <= i < |data| && dateLabel(data[i].recordedAt) == d
      {
        if d in Dates(data, dateLabel) {
          if d in Dates(p, dateLabel) {
            var i :| 0 <= i < |p| && dateLabel(p[i].recordedAt) == d;
            assert data[i] == p[i];
          } else {
            assert dateLabel(data[n].recordedAt) == d;
          }
        } else {
          forall i | 0 <= i < |data| ensures dateLabel(data[i].recordedAt) != d {
            if i < n {
              assert data[i] == p[i];
            }
          }
        }
      }
    }
  }

  /** `ds` lists labels in the order their first rows in `data` appear. */
  predicate InFirstOccurrenceOrder(data: seq<ClimateRow>, dateLabel: int -> string, ds: seq<string>)
  {
    forall p, q :: 0 <= p < q < |ds| ==> FirstIndex(data, dateLabel, ds[p]) < FirstIndex(data, dateLabel, ds[q])
  }

  /** The labels are listed in the order their first rows appear. */
  lemma {:induction false} DatesInFirstOccurrenceOrder(data: seq<ClimateRow>, dateLabel: int -> string)
    ensures InFirstOccurrenceOrder(data, dateLabel, Dates(data, dateLabel))
  {
    if data != [] {
      var n := |data| - 1;
      var pre := data[..n];
      DatesInFirstOccurrenceOrder(pre, dateLabel);
      DatesSpec(pre, dateLabel);
      var ds := Dates(pre, dateLabel);
      // Every label already seen keeps its first index, which lies inside the prefix.
      forall d | d in ds
        ensures FirstIndex(pre, dateLabel, d) < n && FirstIndex(data, dateLabel, d) == FirstIndex(pre, dateLabel, d)
      {
        var i :| 0 <= i < |pre| && dateLabel(pre[i].recordedAt) == d;
        assert FirstIndex(pre, dateLabel, d) <= i;
      }
      var x := dateLabel(data[n].recordedAt);
      if x !in ds {
        assert FirstIndex(pre, dateLabel, x) == n by {
          forall i | 0 <= i < n ensures dateLabel(pre[i].recordedAt) != x {
            assert dateLabel(pre[i].recordedAt) in ds;
          }
        }
        var ds' := Dates(data, dateLabel);
        assert FirstIndex(data, dateLabel, x) == n;
        forall p, q | 0 <= p < q < |ds'|
          ensures FirstIndex(data, dateLabel, ds'[p]) < FirstIndex(data, dateLabel, ds'[q])
        {
          assert ds'[p] == ds[p] && ds[p] in ds;
          assert FirstIndex(data, dateLabel, ds[p]) == FirstIndex(pre, dateLabel, ds[p]) < n;
          if q < |ds| {
            assert ds'[q] == ds[q] && ds[q] in ds;
            assert FirstIndex(data, dateLabel, ds[q]) == FirstIndex(pre, dateLabel, ds[q]);
            assert FirstIndex(pre, dateLabel, ds[p]) < FirstIndex(pre, dateLabel, ds[q]);
          } else {
            assert ds'[q] == x;
          }
        }
      } else {
        forall p, q | 0 <= p < q < |ds|
          ensures FirstIndex(data, dateLabel, ds[p]) < FirstIndex(data, dateLabel, ds[q])
        {
          assert ds[p] in ds && ds[q] in ds;
        }
      }
    }
  }

  /** A record holds a field exactly for the data types of the rows under its
      label, and each field the value of the latest such row. */
  lemma {:induction false} FieldsForSpec(data: seq<ClimateRow>, dateLabel: int -> string, date: string)
    ensures forall t :: t in FieldsFor(data, dateLabel, date) <==>
      exists i :: 0 <= i < |data| && dateLabel(data[i].recordedAt) == date && data[i].dataType == t
    ensures forall i :: (0 <= i < |data| && dateLabel(data[i].recordedAt) == date &&
      (forall k :: i < k < |data| ==> dateLabel(data[k].recordedAt) != date || data[k].dataType != data[i].dataType)) ==>
      data[i].dataType in FieldsFor(data, dateLabel, date) && FieldsFor(data, dateLabel, date)[data[i].dataType] == data[i].value
  {
    if data != [] {
      var n := |data| - 1;
      var p := data[..n];
      FieldsForSpec(p, dateLabel, date);
      var m := FieldsFor(data, dateLabel, date);
      forall t ensures t in m <==>
        exists i :: 0 <= i < |data| && dateLabel(data[i].recordedAt) == date && data[i].dataType == t
      {
        if t in FieldsFor(p, dateLabel, date) {
          var i :| 0 <= i < |p| && dateLabel(p[i].recordedAt) == date && p[i].dataType == t;
          assert data[i] == p[i];
        }
        if exists i :: 0 <= i < |data| && dateLabel(data[i].recordedAt) == date && data[i].dataType == t {
          var i :| 0 <= i < |data| && dateLabel(data[i].recordedAt) == date && data[i].dataType == t;
          if i < n {
            assert p[i] == data[i];
          }
        }
      }
      forall i | 0 <= i < |data| && dateLabel(data[i].recordedAt) == date &&
        (forall k :: i < k < |data| ==> dateLabel(data[k].recordedAt) != date || data[k].dataType != data[i].dataType)
        ensures data[i].dataType in m && m[data[i].dataType] == data[i].value
      {
        if i < n {
          assert p[i] == data[i];
          forall k | i < k < |p| ensures dateLabel(p[k].recordedAt) != date || p[k].dataType != p[i].dataType {
            assert p[k] == data[k];
          }
        }
      }
    }
  }

  /** A label no row carries has no fields. */
  lemma {:induction false} FieldsForUnseen(data: seq<ClimateRow>, dateLabel: int -> string, date: string)
    requires date !in Dates(data, dateLabel)
    ensures FieldsFor(data, dateLabel, date) == map[]
  {
    if data != [] {
      FieldsForUnseen(data[..|data| - 1], dateLabel, date);
    }
  }

  /** A sequence without duplicates has as many elements as its set. */
  lemma {:induction false} DistinctCardinality(s: seq<string>)
    requires Distinct(s)
    ensures |set x | x in s| == |s|
  {
    if s != [] {
      var n := |s| - 1;
      DistinctCardinality(s[..n]);
      assert s[n] !in s[..n];
      assert (set x | x in s) == (set x | x in s[..n]) + {s[n]};
    }
  }

  /** The records' labels are distinct, every row's label has a record, and
      the records come in first-occurrence order with the fields of
      `FieldsFor`. */
  lemma GroupedSpec(data: seq<ClimateRow>, dateLabel: int -> string)
    ensures var g := Grouped(data, dateLabel);
      && (forall p, q :: 0 <= p < q < |g| ==> g[p].date != g[q].date)
      && (forall i :: 0 <= i < |data| ==> exists k :: 0 <= k < |g| && g[k].date == dateLabel(data[i].recordedAt))
      && (forall p, q :: 0 <= p < q < |g| ==> FirstIndex(data, dateLabel, g[p].date) < FirstIndex(data, dateLabel, g[q].date))
      && (forall k :: 0 <= k < |g| ==> g[k].fields == FieldsFor(data, dateLabel, g[k].date))
  {
    var ds := Dates(data, dateLabel);
    DatesSpec(data, dateLabel);
    DatesInFirstOccurrenceOrder(data, dateLabel);
    var g := Grouped(data, dateLabel);
    assert forall k :: 0 <= k < |g| ==> g[k].date == ds[k];
    forall p, q | 0 <= p < q < |g|
      ensures FirstIndex(data, dateLabel, g[p].date) < FirstIndex(data, dateLabel, g[q].date)
    {
      assert g[p].date == ds[p] && g[q].date == ds[q];
    }
    forall i | 0 <= i < |data| ensures exists k :: 0 <= k < |g| && g[k].date == dateLabel(data[i].recordedAt) {
      var d := dateLabel(data[i].recordedAt);
      assert exists j :: 0 <= j < |data| && dateLabel(data[j].recordedAt) == d;
      assert d in ds;
      var k :| 0 <= k < |ds| && ds[k] == d;
      assert g[k].date == d;
    }
  }

  /** There are as many records as distinct labels among the rows. */
  lemma GroupedCount(data: seq<ClimateRow>, dateLabel: int -> string)
    ensures |Grouped(data, dateLabel)| == |set i | 0 <= i < |data| :: dateLabel(data[i].recordedAt)|
  {
    var ds := Dates(data, dateLabel);
    DatesSpec(data, dateLabel);
    DistinctCardinality(ds);
    assert (set i | 0 <= i < |data| :: dateLabel(data[i].recordedAt)) == (set x | x in ds);
  }

  /** One row whose label already has a record at index `k` sets one field of
      that record. */
  lemma GroupedUpdate(p: seq<ClimateRow>, r: ClimateRow, dateLabel: int -> string, k: nat)
    requires k < |Grouped(p, dateLabel)| && Grouped(p, dateLabel)[k].date == dateLabel(r.recordedAt)
    ensures var g := Grouped(p, dateLabel);
      Grouped(p + [r], dateLabel) == g[k := Entry(g[k].date, g[k].fields[r.dataType := r.value])]
  {
    assert (p + [r])[..|p|] == p;
    var g := Grouped(p, dateLabel);
    var g' := Grouped(p + [r], dateLabel);
    var ds := Dates(p, dateLabel);
    assert ds[k] == dateLabel(r.recordedAt);
    assert Dates(p + [r], dateLabel) == ds;
    assert |g'| == |g|;
    forall j | 0 <= j < |g| ensures g'[j] == g[k := Entry(g[k].date, g[k].fields[r.dataType := r.value])][j] {
      assert g'[j] == Entry(ds[j], FieldsFor(p + [r], dateLabel, ds[j]));
      assert g[j] == Entry(ds[j], FieldsFor(p, dateLabel, ds[j]));
      if j == k {
        assert FieldsFor(p + [r], dateLabel, ds[j]) == FieldsFor(p, dateLabel, ds[j])[r.dataType := r.value];
      } else {
        DatesSpec(p, dateLabel);
        assert ds[j] != ds[k];
        assert FieldsFor(p + [r], dateLabel, ds[j]) == FieldsFor(p, dateLabel, ds[j]);
      }
    }
  }

  /** One row with a new label adds a record holding that row's field. */
  lemma GroupedAppend(p: seq<ClimateRow>, r: ClimateRow, dateLabel: int -> string)
    requires forall k :: 0 <= k < |Grouped(p, dateLabel)| ==> Grouped(p, dateLabel)[k].date != dateLabel(r.recordedAt)
    ensures Grouped(p + [r], dateLabel) == Grouped(p, dateLabel) + [Entry(dateLabel(r.recordedAt), map[r.dataType := r.value])]
  {
    assert (p + [r])[..|p|] == p;
    var x := dateLabel(r.recordedAt);
    var ds := Dates(p, dateLabel);
    forall k | 0 <= k < |ds| ensures ds[k] != x {
      assert Grouped(p, dateLabel)[k].date == ds[k];
    }
    FieldsForUnseen(p, dateLabel, x);
    var g := Grouped(p, dateLabel);
    var g' := Grouped(p + [r], dateLabel);
    forall j | 0 <= j < |g'| ensures g'[j] == (g + [Entry(x, map[r.dataType := r.value])])[j] {
      if j < |g| {
        assert ds[j] != x;
      }
    }
  }

  /** `acc.find(d => d.date === date)`: the first record with that label. */
  method FindByDate(acc: seq<Entry>, date: string) returns (found: Option<nat>)
    ensures found.Some? ==>
      found.value < |acc| && acc[found.value].date == date &&
      forall k :: 0 <= k < found.value ==> acc[k].date != date
    ensures found.None? ==> forall k :: 0 <= k < |acc| ==> acc[k].date != date
  {
    var k := 0;
    while k < |acc|
      invariant 0 <= k <= |acc|
      invariant forall j :: 0 <= j < k ==> acc[j].date != date
    {
      if acc[k].date == date {
        return Some(k);
      }
      k := k + 1;
    }
    return None;
  }

  /** The `reduce` callback over all rows: an existing record gets the row's
      field set in place, a new label pushes a record. */
  method GroupByDate(data: seq<ClimateRow>, dateLabel: int -> string) returns (acc: seq<Entry>)
    requires NoDateType(data)
    ensures acc == Grouped(data, dateLabel)
  {
    acc := [];
    var i := 0;
    while i < |data|
      invariant 0 <= i <= |data|
      invariant acc == Grouped(data[..i], dateLabel)
    {
      var item := data[i];
      var date := dateLabel(item.recordedAt);
      var existing := FindByDate(acc, date);
      assert data[..i + 1] == data[..i] + [item];
      if existing.Some? {
        var k := existing.value;
        GroupedUpdate(data[..i], item, dateLabel, k);
        acc := acc[k := Entry(acc[k].date, acc[k].fields[item.dataType := item.value])];
      } else {
        GroupedAppend(data[..i], item, dateLabel);
        acc := acc + [Entry(date, map[item.dataType := item.value])];
      }
      i := i + 1;
    }
    assert data[..i] == data;
  }

  /** The chart page's state. */
  class VisualizationPage {
    var climateData: seq<Entry>

    constructor ()
      ensures climateData == []
    {
      climateData := [];
    }

    /** `loadClimateData`: `data` are the rows the query returned (`None` for
        `null`); on an error or without data the chart keeps its records. */
    method LoadClimateData(queryFailed: bool, data: Option<seq<ClimateRow>>, dateLabel: int -> string)
      requires data.Some? ==> NoDateType(data.value)
      modifies this
      ensures !queryFailed && data.Some? ==> climateData == Grouped(data.value, dateLabel)
      ensures queryFailed || data.None? ==> climateData == old(climateData)
    {
      if !queryFailed && data.Some? {
        climateData := GroupByDate(data.value, dateLabel);
      }
    }
  }
}
