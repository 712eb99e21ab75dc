/** Bounded edit distance: a one-row dynamic program with an early cut-off. */
module EditDistance {
  import opened Wrappers

  function Min(x: int, y: int): int {
    if x < y then x else y
  }

  // ---------- What an edit distance is ----------

  // A script is read from the end of the word to its beginning.
  datatype Edit = Keep | Replace(c: char) | Delete | Insert(c: char)

  // The word that `script` makes of the first `i` letters of `a`, if it fits them.
  function Apply(script: seq<Edit>, a: string, i: nat): Option<string>
    requires i <= |a|
  {
    if script == [] then (if i == 0 then Some([]) else None)
    else
      var rest := script[..|script| - 1];
      match script[|script| - 1]
      case Keep => if i == 0 then None else Append(Apply(rest, a, i - 1), a[i - 1])
      case Replace(c) => if i == 0 then None else Append(Apply(rest, a, i - 1), c)
      case Delete => if i == 0 then None else Apply(rest, a, i - 1)
      case Insert(c) => Append(Apply(rest, a, i), c)
  }

  function Append(w: Option<string>, c: char): Option<string> {
    if w.Some? then Some(w.value + [c]) else None
  }

  // How many letters a script changes.
  function Edits(script: seq<Edit>): nat {
    if script == [] then 0
    else Edits(script[..|script| - 1]) + (if script[|script| - 1] == Keep then 0 else 1)
  }

  // ---------- The recursive definition ----------

  // Levenshtein distance of the first `i` letters of `a` and the first `j` letters of `b`.
  function Dist(a: string, b: string, i: nat, j: nat): nat
    requires i <= |a| && j <= |b|
  {
    if i == 0 then j
    else if j == 0 then i
    else if a[i - 1] == b[j - 1] then Dist(a, b, i - 1, j - 1)
    else Min(Dist(a, b, i, j - 1), Min(Dist(a, b, i - 1, j - 1), Dist(a, b, i - 1, j))) + 1
  }

  // One letter more on either side changes the distance by at most one.
  lemma {:induction false} Lipschitz(a: string, b: string, i: nat, j: nat)
    requires i <= |a| && j <= |b|
    ensures i > 0 ==> Dist(a, b, i - 1, j) - 1 <= Dist(a, b, i, j) <= Dist(a, b, i - 1, j) + 1
    ensures j > 0 ==> Dist(a, b, i, j - 1) - 1 <= Dist(a, b, i, j) <= Dist(a, b, i, j - 1) + 1
  {
    if i > 0 && j > 0 {
      Lipschitz(a, b, i - 1, j);
      Lipschitz(a, b, i, j - 1);
    }
  }

  // What one edit at the end can do.
  lemma {:induction false} OneEdit(a: string, b: string, i: nat, j: nat)
    requires i <= |a| && j <= |b|
    ensures i > 0 ==> Dist(a, b, i, j) <= Dist(a, b, i - 1, j) + 1
    ensures j > 0 ==> Dist(a, b, i, j) <= Dist(a, b, i, j - 1) + 1
    ensures i > 0 && j > 0 ==> Dist(a, b, i, j) <= Dist(a, b, i - 1, j - 1) + if a[i - 1] == b[j - 1] then 0 else 1
  {
    Lipschitz(a, b, i, j);
  }

  // No script is cheaper than the recursive definition says.
  lemma {:induction false} DistIsLowerBound(a: string, b: string, i: nat, j: nat, script: seq<Edit>)
    requires i <= |a| && j <= |b| && Apply(script, a, i) == Some(b[..j])
    ensures Dist(a, b, i, j) <= Edits(script)
    decreases |script|
  {
    if script != [] {
      var rest, e := script[..|script| - 1], script[|script| - 1];
      OneEdit(a, b, i, j);
      match e
      case Delete =>
        DistIsLowerBound(a, b, i - 1, j, rest);
      case Insert(_) =>
        assert Apply(rest, a, i).value == b[..j][..j - 1] == b[..j - 1];
        DistIsLowerBound(a, b, i, j - 1, rest);
      case _ =>
        assert Apply(rest, a, i - 1).value == b[..j][..j - 1] == b[..j - 1];
        DistIsLowerBound(a, b, i - 1, j - 1, rest);
    }
  }

  // ... and some script is as cheap.
  lemma {:induction false} DistIsReached(a: string, b: string, i: nat, j: nat) returns (script: seq<Edit>)
    requires i <= |a| && j <= |b|
    ensures Apply(script, a, i) == Some(b[..j])
    ensures Edits(script) == Dist(a, b, i, j)
    decreases i + j
  {
    if i == 0 && j == 0 {
      script := [];
    } else {
      var e: Edit, rest: seq<Edit>;
      if i == 0 {
        e := Insert(b[j - 1]);
        rest := DistIsReached(a, b, i, j - 1);
      } else if j == 0 {
        e := Delete;
        rest := DistIsReached(a, b, i - 1, j);
      } else if a[i - 1] == b[j - 1] {
        e := Keep;
        rest := DistIsReached(a, b, i - 1, j - 1);
      } else if Dist(a, b, i, j) == Dist(a, b, i, j - 1) + 1 {
        e := Insert(b[j - 1]);
        rest := DistIsReached(a, b, i, j - 1);
      } else if Dist(a, b, i, j) == Dist(a, b, i - 1, j - 1) + 1 {
        e := Replace(b[j - 1]);
        rest := DistIsReached(a, b, i - 1, j - 1);
      } else {
        e := Delete;
        rest := DistIsReached(a, b, i - 1, j);
      }
      script := rest + [e];
      assert script[..|script| - 1] == rest;
      assert j > 0 ==> b[..j] == b[..j - 1] + [b[j - 1]];
    }
  }

  function Distance(a: string, b: string): nat {
    Dist(a, b, |a|, |b|)
  }

  // The distance is the least number of changed letters over all scripts.
  lemma {:induction false} DistanceIsLeast(a: string, b: string)
    ensures forall script :: Apply(script, a, |a|) == Some(b) ==> Distance(a, b) <= Edits(script)
    ensures exists script :: Apply(script, a, |a|) == Some(b) && Edits(script) == Distance(a, b)
  {
    assert b[..|b|] == b;
    forall script | Apply(script, a, |a|) == Some(b)
      ensures Distance(a, b) <= Edits(script)
    {
      DistIsLowerBound(a, b, |a|, |b|, script);
    }
    var script := DistIsReached(a, b, |a|, |b|);
  }

  // ---------- It is a metric ----------

  lemma {:induction false} DistIsSymmetric(a: string, b: string, i: nat, j: nat)
    requires i <= |a| && j <= |b|
    ensures Dist(a, b, i, j) == Dist(b, a, j, i)
  {
    if i > 0 && j > 0 {
      DistIsSymmetric(a, b, i, j - 1);
      DistIsSymmetric(a, b, i - 1, j);
      DistIsSymmetric(a, b, i - 1, j - 1);
    }
  }

  lemma {:induction false} ZeroMeansEqual(a: string, b: string, i: nat, j: nat)
    requires i <= |a| && j <= |b|
    ensures Dist(a, b, i, j) == 0 <==> a[..i] == b[..j]
  {
    if i > 0 && j > 0 {
      ZeroMeansEqual(a, b, i - 1, j - 1);
      assert a[..i] == a[..i - 1] + [a[i - 1]] && b[..j] == b[..j - 1] + [b[j - 1]];
    }
  }

  lemma {:induction false} ApplyToPrefix(script: seq<Edit>, a: string, b: string, i: nat)
    requires i <= |a| && i <= |b| && a[..i] == b[..i]
    ensures Apply(script, a, i) == Apply(script, b, i)
  {
    if script != [] {
      var rest := script[..|script| - 1];
      ApplyToPrefix(rest, a, b, i);
      if i > 0 {
        assert a[..i - 1] == a[..i][..i - 1] && b[..i - 1] == b[..i][..i - 1] && a[..i][i - 1] == b[..i][i - 1];
        ApplyToPrefix(rest, a, b, i - 1);
      }
    }
  }

  // What the last edits of two scripts, one after the other, come to.
  function Both(first: Edit, second: Edit): Edit {
    match second
    case Insert(_) => second
    case Delete => Delete
    case Keep => first
    case Replace(c) => if first.Insert? then Insert(c) else second
  }

  lemma {:induction false} AfterLast(script: seq<Edit>, e: Edit)
    ensures (script + [e])[..|script|] == script && (script + [e])[|script|] == e
    ensures Edits(script + [e]) == Edits(script) + if e == Keep then 0 else 1
  {
  }

  // One script can do what two do one after the other.
  lemma {:induction false} Compose(first: seq<Edit>, second: seq<Edit>, a: string, i: nat) returns (script: seq<Edit>)
    requires i <= |a| && Apply(first, a, i).Some?
    requires var b := Apply(first, a, i).value; Apply(second, b, |b|).Some?
    ensures var b := Apply(first, a, i).value; Apply(script, a, i) == Apply(second, b, |b|)
    ensures Edits(script) <= Edits(first) + Edits(second)
    decreases |first| + |second|
  {
    var b := Apply(first, a, i).value;
    if second != [] && second[|second| - 1].Insert? {
      var e := second[|second| - 1];
      script := Compose(first, second[..|second| - 1], a, i);
      AfterLast(script, e);
      script := script + [e];
    } else if first != [] && first[|first| - 1].Delete? {
      script := Compose(first[..|first| - 1], second, a, i - 1);
      AfterLast(script, Delete);
      script := script + [Delete];
    } else if first == [] {
      script := [];
    } else {
      script := ComposeLast(first, second, a, i);
    }
  }

  lemma {:induction false} ComposeLast(first: seq<Edit>, second: seq<Edit>, a: string, i: nat) returns (script: seq<Edit>)
    requires i <= |a| && Apply(first, a, i).Some? && first != [] && !first[|first| - 1].Delete?
    requires var b := Apply(first, a, i).value; Apply(second, b, |b|).Some?
    requires second != [] ==> !second[|second| - 1].Insert?
    ensures var b := Apply(first, a, i).value; Apply(script, a, i) == Apply(second, b, |b|)
    ensures Edits(script) <= Edits(first) + Edits(second)
    decreases |first| + |second|, 0
  {
    var b := Apply(first, a, i).value;
    var x, y := first[|first| - 1], second[|second| - 1];
    var rest1, rest2 := first[..|first| - 1], second[..|second| - 1];
    var j := if x.Insert? then i else i - 1;
    assert b[..|b| - 1] == Apply(rest1, a, j).value;
    ApplyToPrefix(rest2, b, b[..|b| - 1], |b| - 1);
    script := Compose(rest1, rest2, a, j);
    if !(x.Insert? && y.Delete?) {
      AfterLast(script, Both(x, y));
      script := script + [Both(x, y)];
    }
  }

  lemma NoDetour(a: string, b: string, c: string)
    ensures Distance(a, c) <= Distance(a, b) + Distance(b, c)
  {
    assert b[..|b|] == b && c[..|c|] == c;
    var first := DistIsReached(a, b, |a|, |b|);
    var second := DistIsReached(b, c, |b|, |c|);
    var script := Compose(first, second, a, |a|);
    DistIsLowerBound(a, c, |a|, |c|, script);
  }

  // Only equal words are at distance 0, both directions are as far, and no detour is shorter.
  lemma DistanceIsMetric(a: string, b: string, c: string)
    ensures Distance(a, b) == 0 <==> a == b
    ensures Distance(a, b) == Distance(b, a)
    ensures Distance(a, c) <= Distance(a, b) + Distance(b, c)
  {
    ZeroMeansEqual(a, b, |a|, |b|);
    DistIsSymmetric(a, b, |a|, |b|);
    NoDetour(a, b, c);
    assert a[..|a|] == a && b[..|b|] == b;
  }

  // ---------- The early cut-off ----------

  ghost predicate RowAbove(a: string, b: string, i: nat, m: int)
    requires i <= |a|
  {
    forall k: nat :: k <= |b| ==> Dist(a, b, i, k) > m
  }

  // The least value of a row never falls from one row to the next.
  lemma {:induction false} NextRowAbove(a: string, b: string, i: nat, j: nat, m: int)
    requires i < |a| && j <= |b| && RowAbove(a, b, i, m)
    ensures Dist(a, b, i + 1, j) > m
  {
    assert Dist(a, b, i, j) > m;
    if j > 0 {
      assert Dist(a, b, i, j - 1) > m;
      NextRowAbove(a, b, i, j - 1, m);
    }
  }

  lemma {:induction false} LaterRowsAbove(a: string, b: string, i: nat, h: nat, m: int)
    requires i <= h <= |a| && RowAbove(a, b, i, m)
    ensures RowAbove(a, b, h, m)
    decreases h - i
  {
    if i < h {
      var next := i + 1;
      forall k: nat | k <= |b|
        ensures Dist(a, b, next, k) > m
      {
        NextRowAbove(a, b, i, k, m);
      }
      LaterRowsAbove(a, b, next, h, m);
    }
  }

  // Entries lo..hi of the row are those of row `i` of the table.
  ghost predicate RowIs(row: seq<int>, a: string, b: string, i: nat, lo: nat, hi: nat)
    requires i <= |a| && hi <= |row| <= |b| + 1
  {
    forall k: nat :: lo <= k < hi ==> row[k] == Dist(a, b, i, k)
  }

  // Overwrites row `i` with row `i + 1`, from left to right.  Entry 0 of a row is never right for
  // i > 0, but it is only used where it does not matter.
  method NextRow(dp: array<int>, word1: string, word2: string, i: nat) returns (minRow: int)
    requires i < |word1| && dp.Length == |word2| + 1
    requires RowIs(dp[..], word1, word2, i, 1, |word2| + 1)
    modifies dp
    ensures RowIs(dp[..], word1, word2, i + 1, 1, |word2| + 1)
    ensures minRow <= i && forall k :: 1 <= k <= |word2| ==> minRow <= dp[k]
  {
    var l2 := |word2|;
    dp[0] := i;
    var upLeft := dp[0];
    minRow := i;
    for j := 1 to l2 + 1
      invariant dp[0] == i
      invariant upLeft == Dist(word1, word2, i, j - 1)
      invariant RowIs(dp[..], word1, word2, i + 1, 1, j)
      invariant RowIs(dp[..], word1, word2, i, j, l2 + 1)
      invariant minRow <= i && forall k :: 1 <= k < j ==> minRow <= dp[k]
    {
      var nextUpLeft := dp[j];
      assert dp[..][j] == Dist(word1, word2, i, j);
      assert j > 1 ==> dp[..][j - 1] == Dist(word1, word2, i + 1, j - 1);
      if word1[i] == word2[j - 1] {
        dp[j] := upLeft;
      } else {
        dp[j] := Min(dp[j - 1], Min(upLeft, dp[j])) + 1;
      }
      assert dp[j] == Dist(word1, word2, i + 1, j);
      upLeft := nextUpLeft;
      minRow := Min(minRow, dp[j]);
    }
  }

  // The result is the distance, unless a whole row exceeded `maxTypo`, as then the distance does.
  method LevenshteinDistance(word1: string, word2: string, maxTypo: int) returns (r: int)
    ensures r == Distance(word1, word2) || (Distance(word1, word2) > maxTypo && r == maxTypo + 1)
  {
    var l1, l2 := |word1|, |word2|;
    if l1 == 0 {
      return l2;
    }
    if l2 == 0 {
      return l1;
    }
    var dp := new int[l2 + 1];
    for i := 0 to l2 + 1
      invariant RowIs(dp[..], word1, word2, 0, 0, i)
    {
      dp[i] := i;
    }
    for i := 0 to l1
      invariant RowIs(dp[..], word1, word2, i, 1, l2 + 1)
    {
      var minRow := NextRow(dp, word1, word2, i);
      if minRow > maxTypo {
        var next := i + 1;
        forall k: nat | k <= l2
          ensures Dist(word1, word2, next, k) > maxTypo
        {
          assert k > 0 ==> dp[..][k] == Dist(word1, word2, next, k);
        }
        LaterRowsAbove(word1, word2, next, l1, maxTypo);
        return maxTypo + 1;
      }
    }
    return dp[l2];
  }
}
