/** Replacing a query word that no document has by the best candidate, or by two of them. */
module SpellChecker {
  import opened EditDistance

  // Lower than every score: -math.MaxFloat32.
  const LOWEST := -340282346638528859811704183484516925440.0

  // The constants of the noisy channel.
  const LEFT_WEIGHT := 2.0
  const RIGHT_WEIGHT := 3.0
  const BASE := 2.0
  const FLOOR := 0.00001

  // For each candidate how well it goes with the word on its left and on its right.
  type Scores = seq<(real, real)>

  function Max(x: real, y: real): real {
    if x > y then x else y
  }

  function Power(n: nat): (r: real)
    ensures r > 0.0
  {
    if n == 0 then 1.0 else BASE * Power(n - 1)
  }

  // The noisy channel score of a candidate at distance `d`.
  function ChannelScore(d: nat, left: real, right: real): (r: real)
    ensures r > 0.0 > LOWEST
  {
    assert Max(LEFT_WEIGHT * left + RIGHT_WEIGHT * right, FLOOR) > 0.0;
    Max(LEFT_WEIGHT * left + RIGHT_WEIGHT * right, FLOOR) / Power(d)
  }

  // Without edits it is the weighted sum of how well both neighbours go with it, from the floor on.
  lemma ScoreWithoutEdits(left: real, right: real)
    ensures ChannelScore(0, left, right) == if 2.0 * left + 3.0 * right > 0.00001 then 2.0 * left + 3.0 * right else 0.00001
  {
  }

  // One more edit halves it.
  lemma OneMoreEdit(d: nat, left: real, right: real)
    ensures ChannelScore(d, left, right) == 2.0 * ChannelScore(d + 1, left, right)
  {
    assert Power(d + 1) == 2.0 * Power(d);
  }

  // So of two candidates that go equally well with the neighbours the nearer one scores higher.
  lemma {:induction false} FartherIsLower(d: nat, e: nat, left: real, right: real)
    requires d < e
    ensures ChannelScore(e, left, right) < ChannelScore(d, left, right)
    decreases e
  {
    OneMoreEdit(e - 1, left, right);
    if d < e - 1 {
      FartherIsLower(d, e - 1, left, right);
    }
  }

  // The right neighbour weighs one and a half times as much as the left one.
  lemma {:induction false} NeighboursWeigh(d: nat, left: real, right: real, x: real)
    ensures ChannelScore(d, left + 3.0 * x, right) == ChannelScore(d, left, right + 2.0 * x)
  {
    assert LEFT_WEIGHT * (left + 3.0 * x) + RIGHT_WEIGHT * right == LEFT_WEIGHT * left + RIGHT_WEIGHT * (right + 2.0 * x);
  }

  // Above the floor the score rises with either neighbour.
  lemma {:induction false} ScoreRises(d: nat, left: real, right: real, x: real)
    requires x > 0.0 && 2.0 * left + 3.0 * right > 0.00001
    ensures ChannelScore(d, left, right) < ChannelScore(d, left + x, right)
    ensures ChannelScore(d, left, right) < ChannelScore(d, left, right + x)
    decreases d
  {
    if d == 0 {
      ScoreWithoutEdits(left, right);
      ScoreWithoutEdits(left + x, right);
      ScoreWithoutEdits(left, right + x);
    } else {
      ScoreRises(d - 1, left, right, x);
      OneMoreEdit(d - 1, left, right);
      OneMoreEdit(d - 1, left + x, right);
      OneMoreEdit(d - 1, left, right + x);
    }
  }

  function Score(word: string, candidate: string, score: (real, real)): real {
    ChannelScore(Distance(word, candidate), score.0, score.1)
  }

  // ---------- What the best replacement is ----------

  predicate IsNear(word: string, candidate: string, maxTypo: int) {
    Distance(word, candidate) < maxTypo
  }

  // Candidate `k` is the first one of highest score among those near the word.
  ghost predicate IsBest(word: string, candidates: seq<string>, scores: Scores, maxTypo: int, k: nat)
    requires |candidates| <= |scores|
  {
    && k < |candidates| && IsNear(word, candidates[k], maxTypo)
    && forall h: nat :: h < |candidates| && IsNear(word, candidates[h], maxTypo) ==>
         && Score(word, candidates[h], scores[h]) <= Score(word, candidates[k], scores[k])
         && (h < k ==> Score(word, candidates[h], scores[h]) < Score(word, candidates[k], scores[k]))
  }

  // Of those that go equally well with the neighbours none is nearer.
  lemma NearestIsBest(word: string, candidates: seq<string>, scores: Scores, maxTypo: int, k: nat, h: nat)
    requires |candidates| <= |scores| && IsBest(word, candidates, scores, maxTypo, k)
    requires h < |candidates| && Distance(word, candidates[h]) < maxTypo && scores[h] == scores[k]
    ensures Distance(word, candidates[k]) <= Distance(word, candidates[h])
    ensures h < k ==> Distance(word, candidates[k]) < Distance(word, candidates[h])
  {
    assert IsNear(word, candidates[h], maxTypo);
    if Distance(word, candidates[h]) < Distance(word, candidates[k]) {
      FartherIsLower(Distance(word, candidates[h]), Distance(word, candidates[k]), scores[k].0, scores[k].1);
    }
  }

  lemma BestIsRight(word: string, candidates: seq<string>, scores: Scores, maxTypo: int, k: nat)
    requires |candidates| <= |scores| && IsBest(word, candidates, scores, maxTypo, k)
    ensures Distance(word, candidates[k]) < maxTypo
    ensures forall h :: 0 <= h < |candidates| && Distance(word, candidates[h]) < maxTypo ==>
      && ChannelScore(Distance(word, candidates[h]), scores[h].0, scores[h].1)
         <= ChannelScore(Distance(word, candidates[k]), scores[k].0, scores[k].1)
      && (scores[h] == scores[k] ==> Distance(word, candidates[k]) <= Distance(word, candidates[h]))
      && (scores[h] == scores[k] && h < k ==> Distance(word, candidates[k]) < Distance(word, candidates[h]))
  {
    forall h | 0 <= h < |candidates| && Distance(word, candidates[h]) < maxTypo
      ensures Score(word, candidates[h], scores[h]) <= Score(word, candidates[k], scores[k])
      ensures scores[h] == scores[k] ==> Distance(word, candidates[k]) <= Distance(word, candidates[h])
      ensures scores[h] == scores[k] && h < k ==> Distance(word, candidates[k]) < Distance(word, candidates[h])
    {
      assert IsNear(word, candidates[h], maxTypo);
      if scores[h] == scores[k] {
        NearestIsBest(word, candidates, scores, maxTypo, k, h);
      }
    }
  }

  // The word falls into two candidates, of at least three letters each.
  ghost predicate IsSplit(word: string, candidates: seq<string>, i: int) {
    3 <= i < |word| - 2 && word[..i] in candidates && word[i..] in candidates
  }

  // Where `w` occurs last.
  function LastIndex(candidates: seq<string>, w: string): (k: nat)
    requires w in candidates
    ensures k < |candidates| && candidates[k] == w
    ensures forall h :: k < h < |candidates| ==> candidates[h] != w
  {
    if candidates[|candidates| - 1] == w then |candidates| - 1 else LastIndex(candidates[..|candidates| - 1], w)
  }

  // `log` stands for the natural logarithm.
  function SplitScore(log: real -> real, word: string, candidates: seq<string>, scores: Scores, i: nat): real
    requires |candidates| <= |scores|
    requires i <= |word| && word[..i] in candidates && word[i..] in candidates
  {
    log(Max(LEFT_WEIGHT * scores[LastIndex(candidates, word[..i])].0
            + RIGHT_WEIGHT * scores[LastIndex(candidates, word[i..])].1, FLOOR))
  }

  // How well the two parts go with the neighbours.
  function Weight(word: string, candidates: seq<string>, scores: Scores, i: nat): real
    requires |candidates| <= |scores|
    requires i <= |word| && word[..i] in candidates && word[i..] in candidates
  {
    2.0 * scores[LastIndex(candidates, word[..i])].0 + 3.0 * scores[LastIndex(candidates, word[i..])].1
  }

  // Cutting at `i` is the first best way to cut.
  ghost predicate IsBestSplit(log: real -> real, word: string, candidates: seq<string>, scores: Scores, i: int)
    requires |candidates| <= |scores|
  {
    && IsSplit(word, candidates, i)
    && forall h :: IsSplit(word, candidates, h) ==>
         && SplitScore(log, word, candidates, scores, h) <= SplitScore(log, word, candidates, scores, i)
         && (h < i ==> SplitScore(log, word, candidates, scores, h) < SplitScore(log, word, candidates, scores, i))
  }

  // The parts with the neighbours they go best with are chosen, if the logarithm rises.
  lemma BestSplitWeighsMost(log: real -> real, word: string, candidates: seq<string>, scores: Scores, i: nat, h: nat)
    requires |candidates| <= |scores| && IsBestSplit(log, word, candidates, scores, i) && IsSplit(word, candidates, h)
    requires forall x, y :: FLOOR <= x < y ==> log(x) < log(y)
    ensures Weight(word, candidates, scores, h) <= Weight(word, candidates, scores, i)
         || Weight(word, candidates, scores, h) <= 0.00001
    ensures h < i ==> Weight(word, candidates, scores, h) < Weight(word, candidates, scores, i)
  {
    var x, y := Max(Weight(word, candidates, scores, h), FLOOR), Max(Weight(word, candidates, scores, i), FLOOR);
    assert SplitScore(log, word, candidates, scores, h) == log(x);
    assert SplitScore(log, word, candidates, scores, i) == log(y);
  }

  // ---------- The search ----------

  datatype Choice = Nothing | Chosen(index: nat)

  method BestNear(word: string, candidates: seq<string>, scores: Scores, maxTypo: int) returns (r: Choice)
    requires |candidates| <= |scores|
    ensures r.Chosen? ==> IsBest(word, candidates, scores, maxTypo, r.index)
    ensures r.Nothing? ==> forall k :: 0 <= k < |candidates| ==> !IsNear(word, candidates[k], maxTypo)
  {
    var bscore := LOWEST;
    r := Nothing;
    for i := 0 to |candidates|
      invariant r.Nothing? <==> bscore == LOWEST
      invariant r.Nothing? ==> forall k :: 0 <= k < i ==> !IsNear(word, candidates[k], maxTypo)
      invariant r.Chosen? ==> r.index < i && bscore == Score(word, candidates[r.index], scores[r.index])
      invariant r.Chosen? ==> IsBest(word, candidates[..i], scores, maxTypo, r.index)
    {
      var distance := LevenshteinDistance(word, candidates[i], maxTypo);
      if distance < maxTypo && ChannelScore(distance, scores[i].0, scores[i].1) > bscore {
        r := Chosen(i);
        bscore := ChannelScore(distance, scores[i].0, scores[i].1);
      }
    }
    assert candidates[..|candidates|] == candidates;
  }

  method Places(candidates: seq<string>) returns (places: map<string, nat>)
    ensures forall w :: w in places <==> w in candidates
    ensures forall w :: w in places ==> places[w] == LastIndex(candidates, w)
  {
    places := map[];
    for i := 0 to |candidates|
      invariant forall w :: w in places <==> w in candidates[..i]
      invariant forall w :: w in places ==> places[w] == LastIndex(candidates[..i], w)
    {
      places := places[candidates[i] := i];
      assert candidates[..i + 1] == candidates[..i] + [candidates[i]];
      assert candidates[..i + 1][..i] == candidates[..i];
    }
    assert candidates[..|candidates|] == candidates;
  }

  method BestCut(log: real -> real, word: string, candidates: seq<string>, scores: Scores) returns (r: Choice)
    requires |candidates| <= |scores|
    requires forall x :: x >= FLOOR ==> log(x) > LOWEST
    ensures r.Chosen? ==> IsBestSplit(log, word, candidates, scores, r.index)
    ensures r.Nothing? ==> forall i :: !IsSplit(word, candidates, i)
  {
    var places := Places(candidates);
    var bscore := LOWEST;
    r := Nothing;
    for i := 3 to if |word| - 2 > 3 then |word| - 2 else 3
      invariant r.Nothing? <==> bscore == LOWEST
      invariant r.Nothing? ==> forall h :: h < i ==> !IsSplit(word, candidates, h)
      invariant r.Chosen? ==> r.index < i && IsSplit(word, candidates, r.index)
      invariant r.Chosen? ==> bscore == SplitScore(log, word, candidates, scores, r.index)
      invariant r.Chosen? ==> forall h :: h < i && IsSplit(word, candidates, h) ==>
        && SplitScore(log, word, candidates, scores, h) <= bscore
        && (h < r.index ==> SplitScore(log, word, candidates, scores, h) < bscore)
    {
      var part1 := word[..i];
      if part1 !in places {
        continue;
      }
      var part2 := word[i..];
      if part2 !in places {
        continue;
      }
      var score := log(Max(LEFT_WEIGHT * scores[places[part1]].0 + RIGHT_WEIGHT * scores[places[part2]].1, FLOOR));
      assert score == SplitScore(log, word, candidates, scores, i);
      if score > bscore {
        bscore := score;
        r := Chosen(i);
      }
    }
  }

  // The query with word `index` cut at `i`.
  function Cut(words: seq<string>, index: nat, i: nat): seq<string>
    requires index < |words| && i <= |words[index]|
  {
    words[..index] + [words[index][..i], words[index][i..]] + words[index + 1..]
  }

  method BestReplacement(words: seq<string>, index: nat, candidates: seq<string>, scores: Scores,
                         maxTypo: int, log: real -> real) returns (out: seq<string>)
    requires index < |words| && |candidates| <= |scores|
    requires forall x :: x >= FLOOR ==> log(x) > LOWEST
    ensures var word := words[index];
      if exists k :: 0 <= k < |candidates| && Distance(word, candidates[k]) < maxTypo then
        exists k :: 0 <= k < |candidates| && Distance(word, candidates[k]) < maxTypo && out == words[index := candidates[k]]
          && forall h :: 0 <= h < |candidates| && Distance(word, candidates[h]) < maxTypo ==>
               && ChannelScore(Distance(word, candidates[h]), scores[h].0, scores[h].1)
                  <= ChannelScore(Distance(word, candidates[k]), scores[k].0, scores[k].1)
               && (scores[h] == scores[k] ==> Distance(word, candidates[k]) <= Distance(word, candidates[h]))
               && (scores[h] == scores[k] && h < k ==> Distance(word, candidates[k]) < Distance(word, candidates[h]))
      else if exists i :: 3 <= i <= |word| - 3 && word[..i] in candidates && word[i..] in candidates then
        exists i: nat :: IsBestSplit(log, word, candidates, scores, i)
          && out == words[..index] + [word[..i], word[i..]] + words[index + 1..]
      else
        out == words
  {
    if |candidates| == 0 {
      return words;
    }
    var best := BestNear(words[index], candidates, scores, maxTypo);
    if best.Chosen? {
      BestIsRight(words[index], candidates, scores, maxTypo, best.index);
      return words[index := candidates[best.index]];
    }
    assert forall k :: 0 <= k < |candidates| ==> !IsNear(words[index], candidates[k], maxTypo);
    var cut := BestCut(log, words[index], candidates, scores);
    if cut.Nothing? {
      forall i | 3 <= i <= |words[index]| - 3
        ensures words[index][..i] !in candidates || words[index][i..] !in candidates
      {
        assert !IsSplit(words[index], candidates, i);
      }
      return words;
    }
    return Cut(words, index, cut.index);
  }

  // ---------- Cutting keeps the text ----------

  function Text(words: seq<string>): string {
    if words == [] then "" else words[0] + Text(words[1..])
  }

  lemma {:induction false} CutKeepsText(words: seq<string>, index: nat, i: nat)
    requires index < |words| && i <= |words[index]|
    ensures Text(Cut(words, index, i)) == Text(words) && |Cut(words, index, i)| == |words| + 1
  {
    var cut := Cut(words, index, i);
    if index == 0 {
      assert cut[1..][1..] == words[1..];
      assert words[0] == words[0][..i] + words[0][i..];
    } else {
      CutKeepsText(words[1..], index - 1, i);
      assert cut[1..] == Cut(words[1..], index - 1, i);
    }
  }
}
