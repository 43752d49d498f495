/**
 Properties of `calculate_avg`: the result read as a map from watershed to
 aggregate, the locality of each watershed's value, and how the
 sum-over-distinct-segments rule relates to the plain mean of the rows.
 */
module AggregateFacts {
  import opened Wrappers
  import opened StringOrder
  import opened Aggregate

  /** The value the result table holds for watershed `g`: that of its first row for `g`. */
  function Lookup(table: seq<AggregateRow>, g: string): (r: Option<real>)
    ensures r.None? <==> forall i :: 0 <= i < |table| ==> table[i].group != g
    ensures r.Some? ==> exists i :: 0 <= i < |table| && table[i].group == g && table[i].average == r.value
  {
    if table == [] then None
    else if table[0].group == g then
      Some(table[0].average)
    else
      var r := Lookup(table[1..], g);
      assert forall i :: 0 < i < |table| ==> table[i] == table[1..][i - 1];
      r
  }

  lemma {:induction false} LookupUnique(table: seq<AggregateRow>, i: nat)
    requires i < |table|
    requires forall a, b :: 0 <= a < b < |table| ==> table[a].group != table[b].group
    ensures Lookup(table, table[i].group) == Some(table[i].average)
  {
    if i > 0 {
      assert table[0].group != table[i].group;
      var tl := table[1..];
      assert tl[i - 1] == table[i];
      LookupUnique(tl, i - 1);
    }
  }

  /**
   Read as a map, the result holds exactly the watersheds of the input, and
   for each the sum of its values over its number of distinct segments.
   */
  lemma {:induction false} LookupCalculateAvg(rs: seq<Record>, g: string)
    ensures Lookup(CalculateAvg(rs), g) == if g in Groups(rs) then Some(GroupAverage(rs, g)) else None
  {
    var out := CalculateAvg(rs);
    if g in Groups(rs) {
      assert g in (set row | row in out :: row.group);
      var row :| row in out && row.group == g;
      var i :| 0 <= i < |out| && out[i] == row;
      forall a, b | 0 <= a < b < |out| ensures out[a].group != out[b].group {
        BelowIrreflexive(out[a].group);
      }
      LookupUnique(out, i);
    }
  }

  lemma {:induction false} GroupRowsAppend(a: seq<Record>, b: seq<Record>, g: string)
    ensures GroupRows(a + b, g) == GroupRows(a, g) + GroupRows(b, g)
  {
    if a == [] {
      assert a + b == b;
    } else {
      assert (a + b)[0] == a[0];
      assert (a + b)[1..] == a[1..] + b;
      GroupRowsAppend(a[1..], b, g);
      if a[0].group == g {
        calc {
          GroupRows(a + b, g);
          [a[0]] + GroupRows(a[1..] + b, g);
          [a[0]] + (GroupRows(a[1..], g) + GroupRows(b, g));
          ([a[0]] + GroupRows(a[1..], g)) + GroupRows(b, g);
        }
      } else {
        calc {
          GroupRows(a + b, g);
          GroupRows(a[1..] + b, g);
        }
      }
    }
  }

  lemma {:induction false} AllRowsOfGroup(rs: seq<Record>, g: string)
    requires forall r :: r in rs ==> r.group == g
    ensures GroupRows(rs, g) == rs
  {
    if rs != [] {
      assert rs[0] in rs;
      forall r | r in rs[1..] ensures r.group == g {
        assert r in rs;
      }
      AllRowsOfGroup(rs[1..], g);
      assert rs == [rs[0]] + rs[1..];
    }
  }

  lemma {:induction false} NoRowsOfGroup(rs: seq<Record>, g: string)
    requires forall r :: r in rs ==> r.group != g
    ensures GroupRows(rs, g) == []
  {
    if rs != [] {
      assert rs[0] in rs;
      forall r | r in rs[1..] ensures r.group != g {
        assert r in rs;
      }
      NoRowsOfGroup(rs[1..], g);
    }
  }

  /** A watershed's value depends on its own rows only. */
  lemma OwnRowsDecide(a: seq<Record>, b: seq<Record>, g: string)
    requires GroupRows(a, g) == GroupRows(b, g)
    ensures Lookup(CalculateAvg(a), g) == Lookup(CalculateAvg(b), g)
  {
    GroupPresent(a, g);
    GroupPresent(b, g);
    LookupCalculateAvg(a, g);
    LookupCalculateAvg(b, g);
  }

  /** Rows of other watersheds, inserted anywhere, leave the value of `g` unchanged. */
  lemma OtherWatershedsIgnored(a: seq<Record>, extra: seq<Record>, b: seq<Record>, g: string)
    requires forall r :: r in extra ==> r.group != g
    ensures Lookup(CalculateAvg(a + extra + b), g) == Lookup(CalculateAvg(a + b), g)
  {
    GroupRowsAppend(a + extra, b, g);
    GroupRowsAppend(a, extra, g);
    GroupRowsAppend(a, b, g);
    NoRowsOfGroup(extra, g);
    assert GroupRows(a + extra + b, g) == GroupRows(a + b, g);
    OwnRowsDecide(a + extra + b, a + b, g);
  }

  /** The plain arithmetic mean of a watershed's values, for comparison. */
  function PlainMean(rs: seq<Record>, g: string): real
    requires g in Groups(rs)
  {
    GroupPresent(rs, g);
    GroupSum(rs, g) / (|GroupRows(rs, g)| as real)
  }

  /**
   A watershed whose rows all lie in one segment gets the plain sum of its
   values, not their mean.
   */
  lemma SingleSegmentGivesSum(rs: seq<Record>, g: string, s: string)
    requires g in Groups(rs)
    requires forall r :: r in rs && r.group == g ==> r.segment == s
    ensures DistinctSegments(rs, g) == {s}
    ensures GroupAverage(rs, g) == GroupSum(rs, g)
  {
    GroupPresent(rs, g);
    SingleSegment(GroupRows(rs, g), s);
  }

  /** In that case the plain mean is the aggregate divided by the number of rows. */
  lemma SingleSegmentScalesMean(rs: seq<Record>, g: string, s: string)
    requires g in Groups(rs)
    requires forall r :: r in rs && r.group == g ==> r.segment == s
    ensures PlainMean(rs, g) == GroupAverage(rs, g) / (|GroupRows(rs, g)| as real)
    ensures |GroupRows(rs, g)| > 1 && GroupSum(rs, g) != 0.0 ==> GroupAverage(rs, g) != PlainMean(rs, g)
  {
    SingleSegmentGivesSum(rs, g, s);
    if |GroupRows(rs, g)| > 1 && GroupSum(rs, g) != 0.0 {
      DivisionDiffers(GroupAverage(rs, g), |GroupRows(rs, g)| as real);
    }
  }

  /** Dividing a non-zero value by more than one changes it. */
  lemma DivisionDiffers(x: real, k: real)
    requires x != 0.0 && k > 1.0
    ensures x / k != x
  {
    var q := x / k;
    assert q * k == x;
    assert q * (k - 1.0) == x - q;
    if q > 0.0 {
      assert q * (k - 1.0) > 0.0;
    } else if q < 0.0 {
      assert q * (k - 1.0) < 0.0;
    }
    assert q != x;
  }

  lemma {:induction false} SingleSegment(rows: seq<Record>, s: string)
    requires rows != []
    requires forall r :: r in rows ==> r.segment == s
    ensures Segments(rows) == {s}
  {
    SegmentsCons(rows);
    assert rows[0] in rows;
    if rows[1..] != [] {
      forall r | r in rows[1..] ensures r.segment == s {
        assert r in rows;
      }
      SingleSegment(rows[1..], s);
    }
  }

  lemma {:induction false} SegmentsOnePerRow(rows: seq<Record>)
    requires forall i, j :: 0 <= i < j < |rows| ==> rows[i].segment != rows[j].segment
    ensures |Segments(rows)| == |rows|
  {
    if rows != [] {
      var tl := rows[1..];
      forall i, j | 0 <= i < j < |tl| ensures tl[i].segment != tl[j].segment {
        assert tl[i] == rows[i + 1] && tl[j] == rows[j + 1];
      }
      SegmentsOnePerRow(tl);
      assert rows[0].segment !in Segments(tl) by {
        forall r | r in tl ensures r.segment != rows[0].segment {
          var j :| 0 <= j < |tl| && tl[j] == r;
          assert r == rows[j + 1];
        }
      }
      SegmentsCons(rows);
    }
  }

  /**
   For non-negative readings the aggregate is never below the plain mean,
   since a watershed has at most as many distinct segments as rows.
   */
  lemma AverageAtLeastMean(rs: seq<Record>, g: string)
    requires g in Groups(rs)
    requires forall r :: r in rs && r.group == g ==> r.value >= 0.0
    ensures GroupAverage(rs, g) >= PlainMean(rs, g)
  {
    var rows := GroupRows(rs, g);
    SegmentsAtMostRows(rows);
    SegmentsNonEmpty(rs, g);
    TotalNonNegative(rows);
    DivisionAntitone(GroupSum(rs, g), |DistinctSegments(rs, g)| as real, |rows| as real);
  }

  lemma DivisionAntitone(s: real, small: real, large: real)
    requires s >= 0.0 && 0.0 < small <= large
    ensures s / small >= s / large
  {
    var a, b := s / small, s / large;
    assert a * small == s && b * large == s;
    assert a >= 0.0;
    assert a * small <= a * large;
    assert (b - a) * large <= 0.0;
  }

  /** When every row of a watershed has its own segment, the aggregate is the plain mean. */
  lemma OneSegmentPerRowGivesMean(rs: seq<Record>, g: string)
    requires g in Groups(rs)
    requires forall i, j :: 0 <= i < j < |GroupRows(rs, g)| ==> GroupRows(rs, g)[i].segment != GroupRows(rs, g)[j].segment
    ensures GroupAverage(rs, g) == PlainMean(rs, g)
  {
    SegmentsOnePerRow(GroupRows(rs, g));
  }

  /** One row in front of the rest, unfolded once for groups, sums and segments. */
  lemma RowInFront(r: Record, rest: seq<Record>, g: string)
    ensures Groups([r] + rest) == {r.group} + Groups(rest)
    ensures GroupRows([r] + rest, g) == (if r.group == g then [r] else []) + GroupRows(rest, g)
    ensures Total([r] + rest) == r.value + Total(rest)
    ensures Segments([r] + rest) == {r.segment} + Segments(rest)
  {
    var rs := [r] + rest;
    assert rs[0] == r && rs[1..] == rest;
    GroupsCons(rs);
    SegmentsCons(rs);
  }

  /** The watersheds, sum and segments of a three-row input, row by row. */
  lemma ThreeRows(a: Record, b: Record, c: Record)
    ensures Groups([a, b, c]) == {a.group, b.group, c.group}
    ensures Total([a, b, c]) == a.value + b.value + c.value
    ensures Segments([a, b, c]) == {a.segment, b.segment, c.segment}
  {
    assert [a, b, c] == [a] + [b, c];
    RowInFront(a, [b, c], "");
    TwoRows(b, c);
  }

  /** The same for two rows. */
  lemma TwoRows(a: Record, b: Record)
    ensures Groups([a, b]) == {a.group, b.group}
    ensures Total([a, b]) == a.value + b.value
    ensures Segments([a, b]) == {a.segment, b.segment}
  {
    assert [a, b] == [a] + [b] && [b] == [b] + [];
    RowInFront(a, [b], "");
    RowInFront(b, [], "");
    assert Groups([]) == {};
  }

  /** Three rows of one watershed in two segments: (10 + 20 + 5) / 2, not 35 / 3. */
  lemma WorkedExample(rs: seq<Record>)
    requires rs == [Record("A", "S1", 10.0), Record("A", "S1", 20.0), Record("A", "S2", 5.0)]
    ensures CalculateAvg(rs) == [AggregateRow("A", 17.5)]
    ensures PlainMean(rs, "A") == 35.0 / 3.0
  {
    var a, b, c := rs[0], rs[1], rs[2];
    ThreeRows(a, b, c);
    assert Groups(rs) == {"A"};
    AllRowsOfGroup(rs, "A");
    assert GroupSum(rs, "A") == 35.0;
    assert "S1" != "S2" by {
      assert "S1"[1] != "S2"[1];
    }
    assert DistinctSegments(rs, "A") == {"S1", "S2"};
    TwoElements("S1", "S2");
    var out := CalculateAvg(rs);
    assert |out| == 1;
    assert out[0].group == "A";
    assert out[0].average == 35.0 / 2.0;
    assert out == [out[0]];
  }

  lemma TwoElements(x: string, y: string)
    requires x != y
    ensures |{x, y}| == 2
  {
  }

  /** The groups of the second example: "B" holds the first row, "A" the other two. */
  lemma AscendingExampleRows(rs: seq<Record>)
    requires rs == [Record("B", "S1", 42.0), Record("A", "S1", 10.0), Record("A", "S2", 5.0)]
    ensures Groups(rs) == {"A", "B"}
    ensures GroupRows(rs, "A") == rs[1..] && GroupRows(rs, "B") == [rs[0]]
  {
    var a, b, c := rs[0], rs[1], rs[2];
    assert "A" != "B" by {
      assert "A"[0] != "B"[0];
    }
    assert rs == [a] + [b, c] && rs[1..] == [b, c];
    assert Groups(rs) == {"A", "B"} by {
      ThreeRows(a, b, c);
    }
    assert GroupRows(rs, "A") == [b, c] by {
      RowInFront(a, [b, c], "A");
      AllRowsOfGroup([b, c], "A");
    }
    assert GroupRows(rs, "B") == [a] by {
      RowInFront(a, [b, c], "B");
      NoRowsOfGroup([b, c], "B");
      assert [a] + [] == [a];
    }
  }

  /** The sums and segment counts of the second example, worked out row by row. */
  lemma AscendingExampleGroups(rs: seq<Record>)
    requires rs == [Record("B", "S1", 42.0), Record("A", "S1", 10.0), Record("A", "S2", 5.0)]
    ensures Groups(rs) == {"A", "B"}
    ensures GroupSum(rs, "A") == 15.0 && |DistinctSegments(rs, "A")| == 2
    ensures GroupSum(rs, "B") == 42.0 && |DistinctSegments(rs, "B")| == 1
  {
    AscendingExampleRows(rs);
    var a, b, c := rs[0], rs[1], rs[2];
    TwoRows(b, c);
    assert [a] == [a] + [];
    RowInFront(a, [], "B");
    assert Segments([a]) == {"S1"};
    assert "S1" != "S2" by {
      assert "S1"[1] != "S2"[1];
    }
    assert DistinctSegments(rs, "A") == {"S1", "S2"};
    TwoElements("S1", "S2");
  }

  /** With two watersheds, the one that sorts first is the first row. */
  lemma TwoWatershedsKeys(rs: seq<Record>, x: string, y: string)
    requires Groups(rs) == {x, y} && Below(x, y)
    ensures |CalculateAvg(rs)| == 2 && CalculateAvg(rs)[0].group == x && CalculateAvg(rs)[1].group == y
  {
    BelowIrreflexive(x);
    assert x != y;
    assert |{x, y}| == 2;
    var out := CalculateAvg(rs);
    assert |out| == 2;
    var g0, g1 := out[0].group, out[1].group;
    assert g0 in {x, y} && g1 in {x, y};
    assert Below(g0, g1);
    BelowAsymmetric(x, y);
    BelowIrreflexive(y);
  }

  /**
   With two watersheds, the result is the one that sorts first and then the
   other, each with its aggregate, whatever the input order.
   */
  lemma TwoWatershedsOrder(rs: seq<Record>, x: string, y: string)
    requires Groups(rs) == {x, y} && Below(x, y)
    ensures CalculateAvg(rs) == [AggregateRow(x, GroupAverage(rs, x)), AggregateRow(y, GroupAverage(rs, y))]
  {
    TwoWatershedsKeys(rs, x, y);
    var out := CalculateAvg(rs);
    assert out[0].average == GroupAverage(rs, x);
    assert out[1].average == GroupAverage(rs, y);
    assert out == [out[0], out[1]];
  }

  /** Input order does not decide output order: watershed "A" comes before "B". */
  lemma AscendingExample(rs: seq<Record>)
    requires rs == [Record("B", "S1", 42.0), Record("A", "S1", 10.0), Record("A", "S2", 5.0)]
    ensures CalculateAvg(rs) == [AggregateRow("A", 7.5), AggregateRow("B", 42.0)]
  {
    AscendingExampleGroups(rs);
    assert Below("A", "B");
    TwoWatershedsOrder(rs, "A", "B");
    assert GroupAverage(rs, "A") * 2.0 == 15.0;
    assert GroupAverage(rs, "B") * 1.0 == 42.0;
  }
}
