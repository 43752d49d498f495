/**
 The order Python uses to compare two `str` values: code point by code point,
 a proper prefix coming first. pandas' `groupby` sorts its string keys by it.
 */
module StringOrder {

  /** True iff `a` sorts strictly before `b`. */
  predicate Below(a: string, b: string)
    decreases |a|
  {
    |b| > 0 && (|a| == 0 || a[0] < b[0] || (a[0] == b[0] && Below(a[1..], b[1..])))
  }

  lemma {:induction false} BelowIrreflexive(a: string)
    ensures !Below(a, a)
    decreases |a|
  {
    if |a| > 0 {
      BelowIrreflexive(a[1..]);
    }
  }

  lemma {:induction false} BelowTransitive(a: string, b: string, c: string)
    requires Below(a, b) && Below(b, c)
    ensures Below(a, c)
    decreases |a|
  {
    if |a| > 0 && a[0] == b[0] && b[0] == c[0] {
      BelowTransitive(a[1..], b[1..], c[1..]);
    }
  }

  lemma {:induction false} BelowTotal(a: string, b: string)
    requires a != b
    ensures Below(a, b) || Below(b, a)
    decreases |a|
  {
    if |a| > 0 && |b| > 0 && a[0] == b[0] {
      assert a == [a[0]] + a[1..] && b == [b[0]] + b[1..];
      BelowTotal(a[1..], b[1..]);
    }
  }

  lemma BelowAsymmetric(a: string, b: string)
    requires Below(a, b)
    ensures !Below(b, a)
  {
    if Below(b, a) {
      BelowTransitive(a, b, a);
      BelowIrreflexive(a);
    }
  }

  /** Strictly ascending, hence also free of duplicates. */
  ghost predicate StrictlyAscending(ks: seq<string>)
  {
    forall i, j :: 0 <= i < j < |ks| ==> Below(ks[i], ks[j])
  }

  lemma AscendingCons(x: string, ks: seq<string>)
    requires StrictlyAscending(ks)
    requires forall k :: k in ks ==> Below(x, k)
    ensures StrictlyAscending([x] + ks)
  {
    var s := [x] + ks;
    forall i, j | 0 <= i < j < |s| ensures Below(s[i], s[j]) {
      if i == 0 {
        assert s[j] == ks[j - 1];
      } else {
        assert s[i] == ks[i - 1] && s[j] == ks[j - 1];
      }
    }
  }

  /** An ascending sequence has as many elements as the set of its elements. */
  lemma {:induction false} AscendingCardinality(ks: seq<string>)
    requires StrictlyAscending(ks)
    ensures |set k | k in ks| == |ks|
  {
    if ks != [] {
      var tl := ks[1..];
      assert StrictlyAscending(tl) by {
        forall i, j | 0 <= i < j < |tl| ensures Below(tl[i], tl[j]) {
          assert tl[i] == ks[i + 1] && tl[j] == ks[j + 1];
        }
      }
      AscendingCardinality(tl);
      assert ks[0] !in tl by {
        forall j | 0 <= j < |tl| ensures tl[j] != ks[0] {
          assert Below(ks[0], ks[j + 1]);
          BelowIrreflexive(ks[0]);
        }
      }
      assert (set k | k in ks) == {ks[0]} + (set k | k in tl) by {
        assert ks == [ks[0]] + tl;
      }
    }
  }
}
