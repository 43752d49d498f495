/**
 The per-watershed aggregation `calculate_avg`: the rows are grouped by
 watershed (`Nama_DAS`), and each group's value is the SUM of the selected
 parameter over the group divided by the NUMBER OF DISTINCT segments
 (`Bagian_DAS`) in the group. This is not the arithmetic mean of the rows.
 The result has one row per watershed, in ascending order of the watershed
 name, as pandas' `groupby` sorts its keys.
 */
module Aggregate {
  import opened StringOrder

  /** One row of the renamed frame, reduced to the three columns the aggregation reads. */
  datatype Record = Record(group: string, segment: string, value: real)

  /** One row of the result: a watershed and its aggregate. */
  datatype AggregateRow = AggregateRow(group: string, average: real)

  /** The watersheds present in the rows. */
  function Groups(rs: seq<Record>): set<string>
  {
    set r | r in rs :: r.group
  }

  /** The rows of watershed `g`, in their original order. */
  function GroupRows(rs: seq<Record>, g: string): (out: seq<Record>)
    ensures |out| <= |rs|
    ensures forall r :: r in out <==> r in rs && r.group == g
    ensures forall r {:trigger multiset(out)[r]} :: multiset(out)[r] == if r.group == g then multiset(rs)[r] else 0
  {
    if rs == [] then []
    else
      assert rs == [rs[0]] + rs[1..];
      if rs[0].group == g then [rs[0]] + GroupRows(rs[1..], g)
      else GroupRows(rs[1..], g)
  }

  /** The sum of the values of the rows. */
  function Total(rs: seq<Record>): real
  {
    if rs == [] then 0.0 else rs[0].value + Total(rs[1..])
  }

  lemma {:induction false} TotalNonNegative(rows: seq<Record>)
    ensures (forall r :: r in rows ==> r.value >= 0.0) ==> Total(rows) >= 0.0
  {
    if rows != [] {
      assert rows[0] in rows;
      assert forall r :: r in rows[1..] ==> r in rows;
      TotalNonNegative(rows[1..]);
    }
  }

  /**
   `x[parameter_name].sum()` over the group of `g`, every row counted as often
   as it occurs: zero for an absent watershed, never negative when the
   watershed's readings are not.
   */
  function GroupSum(rs: seq<Record>, g: string): (s: real)
    ensures g !in Groups(rs) ==> s == 0.0
    ensures (forall r :: r in rs && r.group == g ==> r.value >= 0.0) ==> s >= 0.0
  {
    GroupPresent(rs, g);
    TotalNonNegative(GroupRows(rs, g));
    Total(GroupRows(rs, g))
  }

  /** The segments that occur in the rows. */
  function Segments(rows: seq<Record>): set<string>
  {
    set r | r in rows :: r.segment
  }

  lemma SegmentsCons(rows: seq<Record>)
    requires rows != []
    ensures Segments(rows) == {rows[0].segment} + Segments(rows[1..])
  {
    assert rows == [rows[0]] + rows[1..];
  }

  lemma {:induction false} SegmentsAtMostRows(rows: seq<Record>)
    ensures |Segments(rows)| <= |rows|
  {
    if rows != [] {
      SegmentsAtMostRows(rows[1..]);
      SegmentsCons(rows);
    }
  }

  /**
   The distinct segments of the group of `g`; `x['Bagian_DAS'].nunique()` is
   its size. It holds exactly the segments of the watershed's rows, and there
   are at most as many as rows.
   */
  function DistinctSegments(rs: seq<Record>, g: string): (segs: set<string>)
    ensures forall s :: s in segs <==> exists r :: r in rs && r.group == g && r.segment == s
    ensures |segs| <= |GroupRows(rs, g)|
  {
    SegmentsAtMostRows(GroupRows(rs, g));
    Segments(GroupRows(rs, g))
  }

  /** A watershed is present exactly when it has rows. */
  lemma GroupPresent(rs: seq<Record>, g: string)
    ensures g in Groups(rs) <==> GroupRows(rs, g) != []
  {
    if g in Groups(rs) {
      var r :| r in rs && r.group == g;
      assert r in GroupRows(rs, g);
    }
    if GroupRows(rs, g) != [] {
      assert GroupRows(rs, g)[0] in GroupRows(rs, g);
    }
  }

  /** A present watershed has at least one segment, so the division is defined. */
  lemma SegmentsNonEmpty(rs: seq<Record>, g: string)
    requires g in Groups(rs)
    ensures |DistinctSegments(rs, g)| > 0
  {
    GroupPresent(rs, g);
    assert GroupRows(rs, g)[0].segment in DistinctSegments(rs, g);
  }

  /**
   The lambda of `calculate_avg` for one watershed: the value that, times the
   number of distinct segments, gives the watershed's sum.
   */
  function GroupAverage(rs: seq<Record>, g: string): (avg: real)
    requires g in Groups(rs)
    ensures avg * (|DistinctSegments(rs, g)| as real) == GroupSum(rs, g)
  {
    SegmentsNonEmpty(rs, g);
    GroupSum(rs, g) / (|DistinctSegments(rs, g)| as real)
  }

  lemma GroupsCons(rs: seq<Record>)
    requires rs != []
    ensures Groups(rs) == {rs[0].group} + Groups(rs[1..])
  {
    assert rs == [rs[0]] + rs[1..];
    forall k | k in Groups(rs) ensures k in {rs[0].group} + Groups(rs[1..]) {
      var r :| r in rs && r.group == k;
      if r != rs[0] {
        assert r in rs[1..];
      }
    }
  }

  /** Inserts `g` into an ascending key list, unless it is there already. */
  function InsertKey(ks: seq<string>, g: string): (out: seq<string>)
    requires StrictlyAscending(ks)
    ensures StrictlyAscending(out)
    ensures forall k :: k in out <==> k in ks || k == g
  {
    if ks == [] then [g]
    else if g == ks[0] then ks
    else if Below(g, ks[0]) then
      PrependBelowHead(g, ks);
      [g] + ks
    else
      BelowTotal(g, ks[0]);
      var rest := InsertKey(ks[1..], g);
      TailAscending(ks);
      assert forall k :: k in ks[1..] ==> Below(ks[0], k);
      AscendingCons(ks[0], rest);
      [ks[0]] + rest
  }

  lemma PrependBelowHead(g: string, ks: seq<string>)
    requires StrictlyAscending(ks) && ks != [] && Below(g, ks[0])
    ensures StrictlyAscending([g] + ks)
  {
    forall k | k in ks ensures Below(g, k) {
      if k != ks[0] {
        var j :| 0 <= j < |ks| && ks[j] == k;
        BelowTransitive(g, ks[0], k);
      }
    }
    AscendingCons(g, ks);
  }

  lemma TailAscending(ks: seq<string>)
    requires StrictlyAscending(ks) && ks != []
    ensures StrictlyAscending(ks[1..])
    ensures forall k :: k in ks[1..] ==> Below(ks[0], k)
  {
    var tl := ks[1..];
    forall i, j | 0 <= i < j < |tl| ensures Below(tl[i], tl[j]) {
      assert tl[i] == ks[i + 1] && tl[j] == ks[j + 1];
    }
    forall k | k in tl ensures Below(ks[0], k) {
      var j :| 0 <= j < |tl| && tl[j] == k;
      assert k == ks[j + 1];
    }
  }

  /** The watersheds of the rows, ascending and without repetition. */
  function SortedGroups(rs: seq<Record>): (ks: seq<string>)
    ensures StrictlyAscending(ks)
    ensures forall k :: k in ks <==> k in Groups(rs)
  {
    if rs == [] then []
    else
      GroupsCons(rs);
      InsertKey(SortedGroups(rs[1..]), rs[0].group)
  }

  /** One result row per key, in the order of the keys. */
  function Tabulate(rs: seq<Record>, ks: seq<string>): (out: seq<AggregateRow>)
    requires forall k :: k in ks ==> k in Groups(rs)
    ensures |out| == |ks|
    ensures forall i :: 0 <= i < |ks| ==> out[i].group == ks[i] && out[i].average == GroupAverage(rs, ks[i])
  {
    if ks == [] then [] else [AggregateRow(ks[0], GroupAverage(rs, ks[0]))] + Tabulate(rs, ks[1..])
  }

  lemma TabulateGroups(rs: seq<Record>, ks: seq<string>, out: seq<AggregateRow>)
    requires |out| == |ks|
    requires forall i :: 0 <= i < |ks| ==> out[i].group == ks[i]
    ensures (set row | row in out :: row.group) == set k | k in ks
  {
    forall k | k in ks ensures k in (set row | row in out :: row.group) {
      var i :| 0 <= i < |ks| && ks[i] == k;
      assert out[i] in out;
    }
  }

  /**
   `calculate_avg`: one row per watershed present, ascending by name, each
   holding the group's sum divided by its number of distinct segments.
   */
  function CalculateAvg(rs: seq<Record>): (out: seq<AggregateRow>)
    ensures |out| == |Groups(rs)|
    ensures (set row | row in out :: row.group) == Groups(rs)
    ensures forall i, j :: 0 <= i < j < |out| ==> Below(out[i].group, out[j].group)
    ensures forall i :: 0 <= i < |out| ==>
              out[i].group in Groups(rs) && |DistinctSegments(rs, out[i].group)| > 0 &&
              out[i].average == GroupSum(rs, out[i].group) / (|DistinctSegments(rs, out[i].group)| as real)
  {
    var ks := SortedGroups(rs);
    AscendingCardinality(ks);
    assert (set k | k in ks) == Groups(rs);
    var out := Tabulate(rs, ks);
    TabulateGroups(rs, ks, out);
    assert forall i :: 0 <= i < |out| ==> |DistinctSegments(rs, out[i].group)| > 0 by {
      forall i | 0 <= i < |out| ensures |DistinctSegments(rs, out[i].group)| > 0 {
        SegmentsNonEmpty(rs, ks[i]);
      }
    }
    out
  }
}
