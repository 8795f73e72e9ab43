/**
  The master agent's view of its integrations: the performance metrics it
  holds (one score per integration id, in dict insertion order), the aggregate
  health computed from them, and the weak integrations picked out of them.
 */
module Metrics {
  import opened Sequences

  /** Integrations whose score is strictly below this are weak. */
  const WeaknessThreshold: real := 0.7

  /** One entry of `performance_metrics`: an integration id and its score. */
  datatype Entry = Entry(id: string, score: real)

  /** `performance_metrics` as its `items()` in insertion order. */
  type PerformanceMetrics = seq<Entry>

  /** The keys of the metrics, in insertion order. */
  function Ids(m: PerformanceMetrics): (ids: seq<string>)
    ensures |ids| == |m|
    ensures forall i :: 0 <= i < |m| ==> ids[i] == m[i].id
  {
    seq(|m|, i requires 0 <= i < |m| => m[i].id)
  }

  /** Dict keys are unique. */
  predicate DistinctIds(m: PerformanceMetrics) {
    NoDuplicates(Ids(m))
  }

  /** `w` names an integration whose score is below the weakness threshold. */
  ghost predicate IsWeak(m: PerformanceMetrics, w: string) {
    exists i :: 0 <= i < |m| && m[i].id == w && m[i].score < WeaknessThreshold
  }

  // ---------------------------------------------------------------------------
  // Weakness detection
  // ---------------------------------------------------------------------------

  lemma IsWeakCons(m: PerformanceMetrics, w: string)
    requires |m| > 0
    ensures IsWeak(m, w) <==> (m[0].id == w && m[0].score < WeaknessThreshold) || IsWeak(m[1..], w)
  {
    if IsWeak(m[1..], w) {
      var i :| 0 <= i < |m[1..]| && m[1..][i].id == w && m[1..][i].score < WeaknessThreshold;
      assert m[i + 1] == m[1..][i];
    }
    if IsWeak(m, w) && m[0].id != w {
      var i :| 0 <= i < |m| && m[i].id == w && m[i].score < WeaknessThreshold;
      assert m[1..][i - 1] == m[i];
    }
  }

  /**
    The ids whose score is strictly below the weakness threshold, kept in the
    metrics' own order: exactly the weak ids, each taken from the key order.
   */
  function Weaknesses(m: PerformanceMetrics): (ws: seq<string>)
    ensures forall w :: w in ws <==> IsWeak(m, w)
    ensures IsSubsequence(ws, Ids(m))
  {
    if |m| == 0 then []
    else
      var rest := Weaknesses(m[1..]);
      assert Ids(m)[1..] == Ids(m[1..]);
      assert forall w :: IsWeak(m, w) <==> (m[0].id == w && m[0].score < WeaknessThreshold) || IsWeak(m[1..], w) by {
        forall w ensures IsWeak(m, w) <==> (m[0].id == w && m[0].score < WeaknessThreshold) || IsWeak(m[1..], w) {
          IsWeakCons(m, w);
        }
      }
      if m[0].score < WeaknessThreshold then [m[0].id] + rest else rest
  }

  /** Because dict keys are unique, no id is reported weak twice. */
  lemma WeaknessesDistinct(m: PerformanceMetrics)
    requires DistinctIds(m)
    ensures NoDuplicates(Weaknesses(m))
  {
    SubsequenceOfDistinct(Weaknesses(m), Ids(m));
  }

  /**
    The three properties of `Weaknesses` pin it down: any list of ids that is
    taken in key order from the metrics and holds exactly the weak ids is the
    weakness list.
   */
  lemma {:induction false} WeaknessesUnique(m: PerformanceMetrics, s: seq<string>)
    requires DistinctIds(m)
    requires IsSubsequence(s, Ids(m))
    requires forall w :: w in s <==> IsWeak(m, w)
    ensures s == Weaknesses(m)
    decreases |m|
  {
    if |m| == 0 {
      assert |s| == 0;
    } else {
      var e, r := m[0], m[1..];
      assert Ids(m)[1..] == Ids(r);
      assert Ids(m)[0] == e.id;
      assert DistinctIds(r) by {
        forall i, j | 0 <= i < j < |r| ensures Ids(r)[i] != Ids(r)[j] {
          assert Ids(r)[i] == Ids(m)[i + 1] && Ids(r)[j] == Ids(m)[j + 1];
        }
      }
      assert e.id !in Ids(r) by {
        forall k | 0 <= k < |Ids(r)| ensures Ids(r)[k] != e.id {
          assert Ids(r)[k] == Ids(m)[k + 1];
        }
      }
      assert !IsWeak(r, e.id) by {
        forall i | 0 <= i < |r| ensures r[i].id != e.id {
          assert Ids(r)[i] == r[i].id;
        }
      }
      forall w ensures IsWeak(m, w) <==> (e.id == w && e.score < WeaknessThreshold) || IsWeak(r, w) {
        IsWeakCons(m, w);
      }
      if e.score < WeaknessThreshold {
        assert e.id in s;
        if !(s[0] == e.id && IsSubsequence(s[1..], Ids(r))) {
          assert IsSubsequence(s, Ids(r));
          SubsequenceMembers(s, Ids(r));
          assert false;
        }
        SubsequenceMembers(s[1..], Ids(r));
        forall w ensures w in s[1..] <==> IsWeak(r, w) {
          if w in s[1..] {
            assert w in Ids(r);
            assert w in s;
          }
          if IsWeak(r, w) {
            assert w in s && w != e.id;
            assert w == s[0] || w in s[1..];
          }
        }
        WeaknessesUnique(r, s[1..]);
        assert s == [s[0]] + s[1..];
      } else {
        assert !IsWeak(m, e.id);
        assert e.id !in s;
        if |s| > 0 {
          assert IsSubsequence(s, Ids(r));
        }
        WeaknessesUnique(r, s);
      }
    }
  }

  // ---------------------------------------------------------------------------
  // Aggregate health
  // ---------------------------------------------------------------------------

  /** `sum(performance_metrics.values())`. */
  function Sum(m: PerformanceMetrics): real {
    if |m| == 0 then 0.0 else m[0].score + Sum(m[1..])
  }

  /** The lowest score in non-empty metrics. */
  function MinScore(m: PerformanceMetrics): (lo: real)
    requires |m| > 0
    ensures forall i :: 0 <= i < |m| ==> lo <= m[i].score
    ensures exists i :: 0 <= i < |m| && m[i].score == lo
  {
    if |m| == 1 then m[0].score
    else
      var r := MinScore(m[1..]);
      assert forall i :: 1 <= i < |m| ==> m[i] == m[1..][i - 1];
      if m[0].score <= r then m[0].score else r
  }

  /** The highest score in non-empty metrics. */
  function MaxScore(m: PerformanceMetrics): (hi: real)
    requires |m| > 0
    ensures forall i :: 0 <= i < |m| ==> m[i].score <= hi
    ensures exists i :: 0 <= i < |m| && m[i].score == hi
  {
    if |m| == 1 then m[0].score
    else
      var r := MaxScore(m[1..]);
      assert forall i :: 1 <= i < |m| ==> m[i] == m[1..][i - 1];
      if m[0].score >= r then m[0].score else r
  }

  /** A sum of `n` scores each in `[lo, hi]` lies in `[n * lo, n * hi]`. */
  lemma {:induction false} SumBounds(m: PerformanceMetrics, lo: real, hi: real)
    requires forall i :: 0 <= i < |m| ==> lo <= m[i].score <= hi
    ensures (|m| as real) * lo <= Sum(m) <= (|m| as real) * hi
    decreases |m|
  {
    if |m| > 0 {
      assert forall i :: 0 <= i < |m[1..]| ==> m[1..][i] == m[i + 1];
      SumBounds(m[1..], lo, hi);
    }
  }

  /** Dividing a total in `[n * lo, n * hi]` by `n` gives a value in `[lo, hi]`. */
  lemma MeanBounds(total: real, n: real, lo: real, hi: real)
    requires n > 0.0
    requires n * lo <= total <= n * hi
    ensures lo <= total / n <= hi
  {
    assert (total / n) * n == total;
  }

  /**
    `_get_current_health`: the arithmetic mean of the scores. It lies between
    the lowest and the highest score, so it is in `[0, 1]` whenever every score
    is. Python divides by `len(performance_metrics)`, which raises on empty
    metrics; hence the precondition.
   */
  function Health(m: PerformanceMetrics): (h: real)
    requires |m| > 0
    ensures exists i :: 0 <= i < |m| && m[i].score <= h
    ensures exists j :: 0 <= j < |m| && h <= m[j].score
    ensures (forall i :: 0 <= i < |m| ==> 0.0 <= m[i].score <= 1.0) ==> 0.0 <= h <= 1.0
  {
    var n := |m| as real;
    SumBounds(m, MinScore(m), MaxScore(m));
    MeanBounds(Sum(m), n, MinScore(m), MaxScore(m));
    Sum(m) / n
  }

  /** Splitting the metrics splits the sum. */
  lemma {:induction false} SumAppend(a: PerformanceMetrics, b: PerformanceMetrics)
    ensures Sum(a + b) == Sum(a) + Sum(b)
    decreases |a|
  {
    if |a| > 0 {
      assert (a + b)[1..] == a[1..] + b;
      SumAppend(a[1..], b);
    } else {
      assert a + b == b;
    }
  }

  /** The sum of the scores does not depend on the order of the entries. */
  lemma {:induction false} SumPermutation(m: PerformanceMetrics, m': PerformanceMetrics)
    requires multiset(m) == multiset(m')
    ensures Sum(m) == Sum(m')
    decreases |m|
  {
    if |m| == 0 {
      assert |m'| == |multiset(m')|;
    } else {
      assert m[0] in multiset(m');
      var k :| 0 <= k < |m'| && m'[k] == m[0];
      var rest' := m'[..k] + m'[k + 1..];
      assert m' == m'[..k] + ([m'[k]] + m'[k + 1..]);
      SumAppend(m'[..k], [m'[k]] + m'[k + 1..]);
      assert ([m'[k]] + m'[k + 1..])[1..] == m'[k + 1..];
      SumAppend(m'[..k], m'[k + 1..]);
      assert m == [m[0]] + m[1..];
      assert multiset(m) == multiset{m[0]} + multiset(m[1..]);
      assert multiset(m') == multiset(m'[..k]) + multiset{m'[k]} + multiset(m'[k + 1..]);
      assert multiset(rest') == multiset(m'[..k]) + multiset(m'[k + 1..]);
      assert multiset(m[1..]) == multiset(m) - multiset{m[0]};
      assert multiset(rest') == multiset(m') - multiset{m'[k]};
      assert multiset(m[1..]) == multiset(rest');
      SumPermutation(m[1..], rest');
    }
  }

  /** Aggregate health is invariant under reordering the metrics. */
  lemma HealthPermutation(m: PerformanceMetrics, m': PerformanceMetrics)
    requires |m| > 0
    requires multiset(m) == multiset(m')
    ensures |m'| > 0 && Health(m) == Health(m')
  {
    assert |m| == |multiset(m)| == |multiset(m')| == |m'|;
    SumPermutation(m, m');
  }
}
