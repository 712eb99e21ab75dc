/** Term proximity: how close together a document has the words of a query, in query order. */
module Proximity {
  import opened Wrappers

  const PENALTY := 50
  const MAX_INT := 0x7FFF_FFFF_FFFF_FFFF

  // For each term of the query its positions in the document.
  type Positions = seq<seq<int>>

  ghost predicate Sorted(s: seq<int>) {
    forall p, q :: 0 <= p < q < |s| ==> s[p] <= s[q]
  }

  // ---------- What is minimised ----------

  // The first term at or after `j` that the document does not have, or `n`.
  function FirstMissing(positions: Positions, n: nat, j: nat): (r: nat)
    requires n <= |positions| && j <= n
    ensures j <= r <= n
    ensures forall k :: j <= k < r ==> positions[k] != []
    ensures r < n ==> positions[r] == []
    decreases n - j
  {
    if j == n || positions[j] == [] then j else FirstMissing(positions, n, j + 1)
  }

  // `c` picks one position for each of the terms i, i + 1, ..., in increasing order.
  ghost predicate IsPartialChain(positions: Positions, i: nat, c: seq<int>) {
    && 0 < |c| && i + |c| <= |positions|
    && (forall k :: 0 <= k < |c| ==> c[k] in positions[i + k])
    && (forall k :: 0 < k < |c| ==> c[k - 1] < c[k])
  }

  // ... and goes as far as the terms are present.
  ghost predicate IsChain(positions: Positions, n: nat, i: nat, c: seq<int>)
    requires n <= |positions|
  {
    && i < n
    && IsPartialChain(positions, i, c)
    && i + |c| == FirstMissing(positions, n, i + 1)
  }

  // The span of a chain, plus 50 for every query term it leaves out.
  function Cost(n: nat, i: nat, c: seq<int>): int
    requires c != []
  {
    c[|c| - 1] - c[0] + (if i + |c| < n then n - |c| else i) * PENALTY
  }

  // The fast search against its definition: no chain is cheaper, and some chain costs just that.
  ghost predicate IsMinimum(positions: Positions, n: nat, r: int)
    requires n <= |positions|
  {
    && r <= MAX_INT
    && (forall i: nat, c :: IsChain(positions, n, i, c) ==> r <= Cost(n, i, c))
    && (r == MAX_INT || exists i: nat, c :: IsChain(positions, n, i, c) && Cost(n, i, c) == r)
  }

  // ---------- The search ----------

  method FirstGreater(arr: seq<int>, target: int) returns (l: nat)
    requires Sorted(arr)
    ensures l <= |arr|
    ensures forall k :: 0 <= k < l ==> arr[k] <= target
    ensures forall k :: l <= k < |arr| ==> target < arr[k]
  {
    l := 0;
    var r := |arr|;
    while l < r
      invariant l <= r <= |arr|
      invariant forall k :: 0 <= k < l ==> arr[k] <= target
      invariant forall k :: r <= k < |arr| ==> target < arr[k]
    {
      var m := (l + r) / 2;
      if arr[m] <= target {
        l := m + 1;
      } else {
        r := m;
      }
    }
  }

  // Of all partial chains of this length from this start, `best` ends first.
  ghost predicate EndsFirst(positions: Positions, i: nat, best: seq<int>) {
    && IsPartialChain(positions, i, best)
    && forall c :: IsPartialChain(positions, i, c) && |c| == |best| && c[0] == best[0] ==> best[|best| - 1] <= c[|c| - 1]
  }

  // Taking the nearest next position loses nothing: the longer chain again ends first.
  lemma GreedyStaysFirst(positions: Positions, i: nat, best: seq<int>, p: nat)
    requires EndsFirst(positions, i, best) && i + |best| < |positions|
    requires var arr := positions[i + |best|];
      p < |arr| && Sorted(arr) && best[|best| - 1] < arr[p] && forall k :: 0 <= k < p ==> arr[k] <= best[|best| - 1]
    ensures EndsFirst(positions, i, best + [positions[i + |best|][p]])
  {
    var arr := positions[i + |best|];
    var longer := best + [arr[p]];
    assert IsPartialChain(positions, i, longer);
    forall c | IsPartialChain(positions, i, c) && |c| == |longer| && c[0] == longer[0]
      ensures arr[p] <= c[|c| - 1]
    {
      assert IsPartialChain(positions, i, c[..|best|]);
      var q :| 0 <= q < |arr| && arr[q] == c[|c| - 1];
      assert c[|best| - 1] < c[|best|];
      assert q >= p;
    }
  }

  lemma PrefixIsPartialChain(positions: Positions, i: nat, c: seq<int>, m: nat)
    requires IsPartialChain(positions, i, c) && 1 <= m < |c|
    ensures IsPartialChain(positions, i, c[..m])
    ensures i + m < |positions| && c[m - 1] < c[m] && c[m] in positions[i + m]
  {
  }

  // ... and where there is no next position, there is no longer chain at all.
  lemma GreedyDeadEnd(positions: Positions, i: nat, best: seq<int>, c: seq<int>)
    requires EndsFirst(positions, i, best) && i + |best| < |positions|
    requires var arr := positions[i + |best|];
      forall k :: 0 <= k < |arr| ==> arr[k] <= best[|best| - 1]
    requires IsPartialChain(positions, i, c) && c[0] == best[0]
    ensures |c| <= |best|
  {
    if |c| > |best| {
      PrefixIsPartialChain(positions, i, c, |best|);
    }
  }

  // The inner loop of the search: chains from term `i` that start at `cur`.
  method FromStart(positions: Positions, n: nat, i: nat, cur: int) returns (best: Option<int>)
    requires n <= |positions| && i < n && cur in positions[i]
    requires forall j :: 0 <= j < n ==> Sorted(positions[j])
    ensures forall c :: IsChain(positions, n, i, c) && c[0] == cur ==> best.Some? && best.value <= Cost(n, i, c)
    ensures best.Some? ==> exists c :: IsChain(positions, n, i, c) && Cost(n, i, c) == best.value
  {
    var last := cur;
    ghost var chain := [cur];
    for j := i + 1 to n
      invariant |chain| == j - i && chain[0] == cur && chain[|chain| - 1] == last
      invariant EndsFirst(positions, i, chain)
      invariant FirstMissing(positions, n, i + 1) == FirstMissing(positions, n, j)
    {
      var arr := positions[j];
      if |arr| == 0 {
        var penalty := (n - (j - i)) * PENALTY;
        assert IsChain(positions, n, i, chain);
        return Some(penalty + last - cur);
      }
      var position := FirstGreater(arr, last);
      if position >= |arr| {
        forall c | IsChain(positions, n, i, c) && c[0] == cur
          ensures false
        {
          GreedyDeadEnd(positions, i, chain, c);
        }
        return None;
      }
      GreedyStaysFirst(positions, i, chain, position);
      chain := chain + [arr[position]];
      last := arr[position];
    }
    assert IsChain(positions, n, i, chain);
    return Some(i * PENALTY + last - cur);
  }

  method MinQueryDistInDoc(positions: Positions, lenQuery: nat) returns (minDensity: int)
    requires lenQuery <= |positions|
    requires forall j :: 0 <= j < lenQuery ==> Sorted(positions[j])
    ensures IsMinimum(positions, lenQuery, minDensity)
  {
    minDensity := MAX_INT;
    for i := 0 to lenQuery
      invariant minDensity <= MAX_INT
      invariant forall h: nat, c :: h < i && IsChain(positions, lenQuery, h, c) ==> minDensity <= Cost(lenQuery, h, c)
      invariant minDensity == MAX_INT || exists h: nat, c :: IsChain(positions, lenQuery, h, c) && Cost(lenQuery, h, c) == minDensity
    {
      for s := 0 to |positions[i]|
        invariant minDensity <= MAX_INT
        invariant forall h: nat, c :: h < i && IsChain(positions, lenQuery, h, c) ==> minDensity <= Cost(lenQuery, h, c)
        invariant forall c :: IsChain(positions, lenQuery, i, c) && c[0] in positions[i][..s] ==> minDensity <= Cost(lenQuery, i, c)
        invariant minDensity == MAX_INT || exists h: nat, c :: IsChain(positions, lenQuery, h, c) && Cost(lenQuery, h, c) == minDensity
      {
        var best := FromStart(positions, lenQuery, i, positions[i][s]);
        if best.Some? && best.value < minDensity {
          minDensity := best.value;
        }
        assert positions[i][..s + 1] == positions[i][..s] + [positions[i][s]];
      }
      assert positions[i][..|positions[i]|] == positions[i];
    }
  }

  // ---------- What the minimum means ----------

  // A chain costs its span, and 50 for each word of the query that is not in it, whether it is missing or
  // comes before the first one.
  lemma CostIsSpanAndMissing(positions: Positions, n: nat, i: nat, c: seq<int>)
    requires n <= |positions| && IsChain(positions, n, i, c)
    ensures Cost(n, i, c) == c[|c| - 1] - c[0] + 50 * (n - |c|)
  {
  }

  lemma {:induction false} SpanIsLong(positions: Positions, i: nat, c: seq<int>)
    requires IsPartialChain(positions, i, c)
    ensures c[|c| - 1] - c[0] >= |c| - 1
    ensures c[|c| - 1] - c[0] == |c| - 1 ==> forall k :: 0 <= k < |c| ==> c[k] == c[0] + k
  {
    if |c| > 1 {
      PrefixIsPartialChain(positions, i, c, |c| - 1);
      SpanIsLong(positions, i, c[..|c| - 1]);
    }
  }

  ghost predicate SideBySide(positions: Positions, n: nat, p: int)
    requires n <= |positions|
  {
    forall j :: 0 <= j < n ==> p + j in positions[j]
  }

  lemma {:induction false} ChainsAreLong(positions: Positions, n: nat, i: nat, c: seq<int>)
    requires n <= |positions| && IsChain(positions, n, i, c)
    ensures Cost(n, i, c) >= n - 1
    ensures Cost(n, i, c) == n - 1 ==> SideBySide(positions, n, c[0])
  {
    CostIsSpanAndMissing(positions, n, i, c);
    SpanIsLong(positions, i, c);
    if Cost(n, i, c) == n - 1 {
      forall j | 0 <= j < n
        ensures c[0] + j in positions[j]
      {
        assert c[j] in positions[i + j];
      }
    }
  }

  lemma {:induction false} SideBySideIsChain(positions: Positions, n: nat, p: int) returns (c: seq<int>)
    requires 0 < n <= |positions| && SideBySide(positions, n, p)
    ensures IsChain(positions, n, 0, c) && Cost(n, 0, c) == n - 1
  {
    c := seq(n, k => p + k);
    forall j | 0 <= j < n
      ensures positions[j] != []
    {
      assert p + j in positions[j];
    }
  }

  // The answer is never less than the words of the query need, and it is that exactly where the document
  // has them side by side.
  lemma {:induction false} LeastWhereSideBySide(positions: Positions, n: nat, r: int)
    requires 0 < n <= |positions| && n <= MAX_INT && IsMinimum(positions, n, r)
    ensures r >= n - 1
    ensures r == n - 1 <==> exists p :: SideBySide(positions, n, p)
  {
    if i: nat, c :| IsChain(positions, n, i, c) && Cost(n, i, c) == r {
      ChainsAreLong(positions, n, i, c);
    }
    if p :| SideBySide(positions, n, p) {
      var c := SideBySideIsChain(positions, n, p);
    }
  }

  // ---------- When there is no answer ----------

  // The answer is MaxInt exactly when every chain costs that much.  For documents and queries of any
  // practical size that means there is none at all.
  lemma MaxIntMeansNoChain(positions: Positions, n: nat, r: int)
    requires n <= |positions| && IsMinimum(positions, n, r)
    ensures r == MAX_INT <==> forall i: nat, c :: IsChain(positions, n, i, c) ==> Cost(n, i, c) >= MAX_INT
    ensures IsPractical(positions, n) ==> (r == MAX_INT <==> forall i: nat, c :: !IsChain(positions, n, i, c))
  {
    if IsPractical(positions, n) {
      forall i: nat, c | IsChain(positions, n, i, c)
        ensures Cost(n, i, c) < MAX_INT
      {
        assert c[0] in positions[i] && c[|c| - 1] in positions[i + |c| - 1];
      }
    }
  }

  ghost predicate IsPractical(positions: Positions, n: nat)
    requires n <= |positions|
  {
    n < 0x1_0000_0000 && forall j, p :: 0 <= j < n && 0 <= p < |positions[j]| ==> 0 <= positions[j][p] < 0x1000_0000_0000_0000
  }
}
