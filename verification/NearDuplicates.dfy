/** The near-duplicate filter: pages whose signature shares a band of eight rows with a stored one
    are compared row by row, and rejected if they are too similar. */
module NearDuplicates {
  import opened MinHash

  const WIDTH := 8     // rows in a band
  const BANDS := 16
  const CHUNKS := 512  // files the bands are spread over

  function Band(s: Signature, b: nat): seq<Word64>
    requires b < BANDS
  {
    s[WIDTH * b..WIDTH * b + WIDTH]
  }

  // ---------- Agreement of two signatures ----------

  function Agreement(s: Signature, t: Signature, n: nat): (r: nat)
    requires n <= ROWS
    ensures r <= n
  {
    if n == 0 then 0 else Agreement(s, t, n - 1) + (if s[n - 1] == t[n - 1] then 1 else 0)
  }

  function Rows(s: Signature, t: Signature): nat {
    Agreement(s, t, ROWS)
  }

  lemma {:induction false} RowsAreSymmetric(s: Signature, t: Signature, n: nat)
    requires n <= ROWS
    ensures Agreement(s, t, n) == Agreement(t, s, n)
  {
    if n > 0 {
      RowsAreSymmetric(s, t, n - 1);
    }
  }

  // The rows where both have the same value, counted.
  lemma {:induction false} AgreementCounts(s: Signature, t: Signature, n: nat)
    requires n <= ROWS
    ensures Agreement(s, t, n) == |set i | 0 <= i < n && s[i] == t[i]|
  {
    if n > 0 {
      AgreementCounts(s, t, n - 1);
      var before, equal := set i | 0 <= i < n - 1 && s[i] == t[i], set i | 0 <= i < n && s[i] == t[i];
      assert equal == before + if s[n - 1] == t[n - 1] then {n - 1} else {};
    }
  }

  // The bands make up the signature.
  lemma BandsMakeUp(s: Signature, t: Signature)
    ensures forall i :: 0 <= i < 128 ==> Band(s, i / 8)[i % 8] == s[i]
    ensures (forall b :: 0 <= b < BANDS ==> Band(s, b) == Band(t, b)) ==> s == t
  {
    if forall b :: 0 <= b < BANDS ==> Band(s, b) == Band(t, b) {
      forall i | 0 <= i < ROWS
        ensures s[i] == t[i]
      {
        assert Band(s, i / 8)[i % 8] == Band(t, i / 8)[i % 8];
      }
    }
  }

  ghost predicate HasBand(t: Signature, band: seq<Word64>) {
    exists c :: 0 <= c < BANDS && band == Band(t, c)
  }

  // One of the first `n` bands of `s` occurs in `t`, at whatever place.
  ghost predicate SharesAmong(s: Signature, t: Signature, n: nat)
    requires n <= BANDS
  {
    exists b :: 0 <= b < n && HasBand(t, Band(s, b))
  }

  ghost predicate SharesBand(s: Signature, t: Signature) {
    SharesAmong(s, t, BANDS)
  }

  // A stretch with a row where the two differ has at least one row less in agreement.
  lemma {:induction false} DifferenceCosts(s: Signature, t: Signature, lo: nat, hi: nat, i: nat)
    requires lo <= i < hi <= ROWS && s[i] != t[i]
    ensures Agreement(s, t, hi) <= Agreement(s, t, lo) + (hi - lo) - 1
    decreases hi
  {
    if i < hi - 1 {
      DifferenceCosts(s, t, lo, hi - 1, i);
    } else {
      AgreementGrows(s, t, lo, hi - 1);
    }
  }

  lemma {:induction false} AgreementGrows(s: Signature, t: Signature, lo: nat, hi: nat)
    requires lo <= hi <= ROWS
    ensures Agreement(s, t, lo) <= Agreement(s, t, hi) <= Agreement(s, t, lo) + hi - lo
  {
    if lo < hi {
      AgreementGrows(s, t, lo, hi - 1);
    }
  }

  lemma {:induction false} NoBandNoAgreement(s: Signature, t: Signature, b: nat)
    requires b <= BANDS && forall c :: 0 <= c < b ==> Band(s, c) != Band(t, c)
    ensures Agreement(s, t, WIDTH * b) <= (WIDTH - 1) * b
  {
    if b > 0 {
      NoBandNoAgreement(s, t, b - 1);
      var k :| 0 <= k < WIDTH && Band(s, b - 1)[k] != Band(t, b - 1)[k];
      DifferenceCosts(s, t, WIDTH * (b - 1), WIDTH * b, WIDTH * (b - 1) + k);
    }
  }

  // Pigeonhole: sixteen bands cannot all contain one of at most fifteen differences.
  lemma CloseSharesBand(s: Signature, t: Signature)
    requires Rows(s, t) >= 113
    ensures SharesBand(s, t)
  {
    if c :| 0 <= c < BANDS && Band(s, c) == Band(t, c) {
      assert HasBand(t, Band(s, c));
    } else {
      NoBandNoAgreement(s, t, BANDS);
    }
  }

  // The bound is sharp: 112 equal rows may leave no band equal.
  lemma {:induction false} AgreementOfEveryEighth(s: Signature, t: Signature, n: nat)
    requires n <= ROWS
    requires forall i :: 0 <= i < ROWS ==> (s[i] == t[i] <==> i % WIDTH != 0)
    ensures Agreement(s, t, n) == n - (n + WIDTH - 1) / WIDTH
  {
    if n > 0 {
      AgreementOfEveryEighth(s, t, n - 1);
    }
  }

  // At 112 equal rows it is no longer certain that the two meet in any file.
  lemma BoundIsSharp()
    ensures exists s: Signature, t: Signature :: Rows(s, t) == 112 && !SharesBand(s, t)
  {
    var s: Signature := seq(ROWS, i requires 0 <= i < ROWS => i);
    var t: Signature := seq(ROWS, i requires 0 <= i < ROWS => if i % WIDTH == 0 then 1000 + i else i);
    AgreementOfEveryEighth(s, t, ROWS);
    forall b | 0 <= b < BANDS
      ensures !HasBand(t, Band(s, b))
    {
      forall c | 0 <= c < BANDS
        ensures Band(s, b) != Band(t, c)
      {
        assert Band(s, b)[0] == s[WIDTH * b] && Band(t, c)[0] == t[WIDTH * c];
      }
    }
    assert Rows(s, t) == 112 && !SharesBand(s, t);
  }

  // ---------- The chunk files ----------

  datatype Record = Record(band: seq<Word64>, sign: Signature)

  // A file as the sequence of 64-bit words its records consist of.
  function Flat(records: seq<Record>): seq<Word64> {
    if records == [] then [] else records[0].band + records[0].sign + Flat(records[1..])
  }

  lemma {:induction false} FlatAppend(records: seq<Record>, r: Record)
    ensures Flat(records + [r]) == Flat(records) + r.band + r.sign
  {
    if records == [] {
      assert (records + [r])[1..] == [];
    } else {
      FlatAppend(records[1..], r);
      assert (records + [r])[1..] == records[1..] + [r];
    }
  }

  // Records are 136 words long: the band, and then the signature.
  lemma {:induction false} FlatAt(records: seq<Record>, k: nat)
    requires k < |records| && forall i :: 0 <= i < |records| ==> |records[i].band| == WIDTH
    ensures |Flat(records)| == 136 * |records|
    ensures Flat(records)[136 * k..136 * k + 8] == records[k].band
    ensures Flat(records)[136 * k + 8..136 * k + 136] == records[k].sign
  {
    var first, rest := records[0].band + records[0].sign, Flat(records[1..]);
    assert Flat(records) == first + rest && |first| == 136;
    if k > 0 {
      FlatAt(records[1..], k - 1);
      SliceBehind(first, rest, 136 * (k - 1), 136 * (k - 1) + 8);
      SliceBehind(first, rest, 136 * (k - 1) + 8, 136 * (k - 1) + 136);
    } else if |records| > 1 {
      FlatAt(records[1..], 0);
    }
  }

  lemma SliceBehind<T>(x: seq<T>, y: seq<T>, lo: nat, hi: nat)
    requires lo <= hi <= |y|
    ensures (x + y)[|x| + lo..|x| + hi] == y[lo..hi]
  {
  }

  function KeySum(band: seq<Word64>): nat {
    if band == [] then 0 else KeySum(band[..|band| - 1]) + band[|band| - 1] % CHUNKS
  }

  // The file that a band belongs to.
  function Key(band: seq<Word64>): (k: nat)
    ensures k < CHUNKS
  {
    KeySum(band) % CHUNKS
  }

  function Total(band: seq<Word64>): nat {
    if band == [] then 0 else Total(band[..|band| - 1]) + band[|band| - 1]
  }

  // It is the sum of the rows, modulo the number of files.
  lemma {:induction false} KeyIsTotal(band: seq<Word64>)
    ensures Key(band) == Total(band) % 512
  {
    KeySumIsTotal(band);
  }

  lemma {:induction false} KeySumIsTotal(band: seq<Word64>)
    ensures KeySum(band) % CHUNKS == Total(band) % CHUNKS
  {
    if band != [] {
      var rest, x := band[..|band| - 1], band[|band| - 1];
      KeySumIsTotal(rest);
      assert (KeySum(rest) + x % CHUNKS) % CHUNKS == (KeySum(rest) % CHUNKS + x % CHUNKS) % CHUNKS;
      assert (Total(rest) + x) % CHUNKS == (Total(rest) % CHUNKS + x % CHUNKS) % CHUNKS;
    }
  }

  // The sum is taken in 16 bits, which eight such terms cannot exceed.
  method MakeShingleKey(band: seq<Word64>) returns (key: nat)
    requires |band| == WIDTH
    ensures key == Key(band)
  {
    key := 0;
    for i := 0 to WIDTH
      invariant key == KeySum(band[..i]) <= i * (CHUNKS - 1)
    {
      key := (key + band[i] % CHUNKS) % 0x1_0000;
      assert band[..i + 1][..i] == band[..i];
    }
    assert band[..WIDTH] == band;
    key := key % CHUNKS;
  }

  function Matching(records: seq<Record>, band: seq<Word64>): seq<Signature> {
    if records == [] then []
    else Matching(records[..|records| - 1], band)
         + if records[|records| - 1].band == band then [records[|records| - 1].sign] else []
  }

  lemma {:induction false} MatchingFinds(records: seq<Record>, band: seq<Word64>)
    ensures forall t :: t in Matching(records, band) <==> Record(band, t) in records
  {
    if records != [] {
      var rest, last := records[..|records| - 1], records[|records| - 1];
      MatchingFinds(rest, band);
      assert records == rest + [last];
    }
  }

  ghost predicate WellFormed(records: seq<Record>) {
    forall i :: 0 <= i < |records| ==> |records[i].band| == WIDTH
  }

  lemma {:induction false} FlatIsLong(records: seq<Record>)
    requires WellFormed(records)
    ensures records == [] || |Flat(records)| >= WIDTH
  {
  }

  // What the file holds at the beginning of a record.
  lemma RecordAt(file: seq<Word64>, pos: nat, records: seq<Record>, k: nat)
    requires WellFormed(records) && k < |records| && pos <= |file| && file[pos..] == Flat(records[k..])
    ensures pos + WIDTH + ROWS <= |file|
    ensures file[pos..pos + WIDTH] == records[k].band
    ensures file[pos + WIDTH..pos + WIDTH + ROWS] == records[k].sign
    ensures file[pos + WIDTH + ROWS..] == Flat(records[k + 1..])
  {
    var r := records[k];
    var tail, rest := file[pos..], Flat(records[k + 1..]);
    assert records[k..][1..] == records[k + 1..] && records[k..][0] == r;
    assert tail == r.band + r.sign + rest;
    assert file[pos..pos + WIDTH] == tail[..WIDTH];
    assert file[pos + WIDTH..pos + WIDTH + ROWS] == tail[WIDTH..WIDTH + ROWS];
    assert file[pos + WIDTH + ROWS..] == tail[WIDTH + ROWS..];
  }

  lemma {:induction false} MatchingOneMore(records: seq<Record>, k: nat, band: seq<Word64>)
    requires k < |records|
    ensures Matching(records[..k + 1], band) == Matching(records[..k], band) + if records[k].band == band then [records[k].sign] else []
  {
    assert records[..k + 1][..k] == records[..k];
  }

  // Reads one file from start to end, skipping over the signatures of other bands.
  method ScanChunk(file: seq<Word64>, band: seq<Word64>, ghost records: seq<Record>) returns (signs: seq<Signature>)
    requires file == Flat(records) && WellFormed(records) && |band| == WIDTH
    ensures signs == Matching(records, band)
  {
    signs := [];
    var pos := 0;
    ghost var k := 0;
    while pos + WIDTH <= |file|
      invariant 0 <= k <= |records| && 0 <= pos <= |file| && file[pos..] == Flat(records[k..])
      invariant signs == Matching(records[..k], band)
      decreases |file| - pos
    {
      RecordAt(file, pos, records, k);
      MatchingOneMore(records, k, band);
      var key := file[pos..pos + WIDTH];
      pos := pos + WIDTH;
      if key == band {
        signs := signs + [file[pos..pos + ROWS]];
      }
      pos := pos + ROWS;
      k := k + 1;
    }
    FlatIsLong(records[k..]);
    assert records[..k] == records;
  }

  // ---------- The index of signatures ----------

  // Every record belongs to a stored signature ...
  ghost predicate Sound(records: seq<seq<Record>>, stored: seq<Signature>) {
    forall c, i :: 0 <= c < |records| && 0 <= i < |records[c]| ==> IsRecordOf(records[c][i], stored)
  }

  ghost predicate IsRecordOf(r: Record, stored: seq<Signature>) {
    r.sign in stored && HasBand(r.sign, r.band)
  }

  // ... and the first `n` bands of signature `s` each have theirs.
  ghost predicate Present(records: seq<seq<Record>>, s: Signature, n: nat)
    requires |records| == CHUNKS && n <= BANDS
  {
    forall b :: 0 <= b < n ==> Record(Band(s, b), s) in records[Key(Band(s, b))]
  }

  lemma SharesOneMore(s: Signature, t: Signature, b: nat)
    requires b < BANDS
    ensures SharesAmong(s, t, b + 1) <==> SharesAmong(s, t, b) || HasBand(t, Band(s, b))
  {
  }

  lemma GrowingStaysSound(records: seq<seq<Record>>, stored: seq<Signature>, s: Signature)
    requires Sound(records, stored)
    ensures Sound(records, stored + [s])
  {
  }

  lemma AppendKeepsSound(records: seq<seq<Record>>, stored: seq<Signature>, key: nat, r: Record)
    requires key < |records| && Sound(records, stored) && IsRecordOf(r, stored)
    ensures Sound(records[key := records[key] + [r]], stored)
  {
  }

  lemma AppendKeepsPresent(records: seq<seq<Record>>, s: Signature, n: nat, key: nat, r: Record)
    requires |records| == CHUNKS && n <= BANDS && key < CHUNKS && Present(records, s, n)
    ensures Present(records[key := records[key] + [r]], s, n)
  {
  }

  class ShingleIndex {
    var chunks: seq<seq<Word64>>
    ghost var records: seq<seq<Record>>
    ghost var stored: seq<Signature>

    ghost predicate IsFlat()
      reads this
    {
      && |chunks| == |records| == CHUNKS
      && forall c :: 0 <= c < CHUNKS ==> chunks[c] == Flat(records[c])
    }

    ghost predicate Valid()
      reads this
    {
      && IsFlat()
      && Sound(records, stored)
      && forall s :: s in stored ==> Present(records, s, BANDS)
    }

    constructor ()
      ensures Valid() && stored == []
    {
      chunks := seq(CHUNKS, _ => []);
      records := seq(CHUNKS, _ => []);
      stored := [];
    }

    // One record goes to the end of one file.
    method Append(key: nat, band: seq<Word64>, sign: Signature)
      requires IsFlat() && key < CHUNKS
      modifies this`chunks, this`records
      ensures IsFlat() && records == old(records)[key := old(records)[key] + [Record(band, sign)]]
    {
      FlatAppend(records[key], Record(band, sign));
      chunks := chunks[key := chunks[key] + band + sign];
      records := records[key := records[key] + [Record(band, sign)]];
    }

    // One turn of the loop of IndexDocShingles.
    method IndexBand(sign: Signature, b: nat, ghost others: seq<Signature>)
      requires b < BANDS && IsFlat() && Sound(records, stored) && sign in stored
      requires Present(records, sign, b) && forall s :: s in others ==> Present(records, s, BANDS)
      modifies this`chunks, this`records
      ensures IsFlat() && Sound(records, stored)
      ensures Present(records, sign, b + 1) && forall s :: s in others ==> Present(records, s, BANDS)
    {
      var signChunk := Band(sign, b);
      var chunkKey := MakeShingleKey(signChunk);
      ghost var r, before := Record(signChunk, sign), records;
      Append(chunkKey, signChunk, sign);
      assert IsRecordOf(r, stored);
      AppendKeepsSound(before, stored, chunkKey, r);
      forall s | s in others
        ensures Present(records, s, BANDS)
      {
        AppendKeepsPresent(before, s, BANDS, chunkKey, r);
      }
      AppendKeepsPresent(before, sign, b, chunkKey, r);
    }

    method IndexDocShingles(sign: Signature)
      requires Valid()
      modifies this
      ensures Valid() && stored == old(stored) + [sign]
    {
      stored := stored + [sign];
      GrowingStaysSound(records, old(stored), sign);
      for b := 0 to BANDS
        invariant stored == old(stored) + [sign]
        invariant IsFlat() && Sound(records, stored)
        invariant Present(records, sign, b) && forall s :: s in old(stored) ==> Present(records, s, BANDS)
      {
        IndexBand(sign, b, old(stored));
      }
    }

    lemma RecordsAreWellFormed(c: nat)
      requires Valid() && c < CHUNKS
      ensures WellFormed(records[c])
    {
      forall i | 0 <= i < |records[c]|
        ensures |records[c][i].band| == WIDTH
      {
        assert IsRecordOf(records[c][i], stored);
      }
    }

    // The signatures found for one band of the query: those with that band, wherever they have it.
    lemma {:induction false} FoundForBand(band: seq<Word64>)
      requires Valid()
      ensures forall t :: t in Matching(records[Key(band)], band) <==>
        t in stored && HasBand(t, band)
    {
      var list := records[Key(band)];
      MatchingFinds(list, band);
      forall t
        ensures Record(band, t) in list <==> t in stored && HasBand(t, band)
      {
        if Record(band, t) in list {
          var i :| 0 <= i < |list| && list[i] == Record(band, t);
          assert IsRecordOf(list[i], stored);
        }
        if t in stored && HasBand(t, band) {
          assert Present(records, t, BANDS);
        }
      }
    }

    // Exactly the stored signatures that share a band with `sign`, at whatever place.
    method GetSimilarSigns(sign: Signature) returns (signs: seq<Signature>)
      requires Valid()
      ensures forall t :: t in signs <==> t in stored && SharesBand(sign, t)
    {
      signs := [];
      for b := 0 to BANDS
        invariant forall t :: t in signs <==> t in stored && SharesAmong(sign, t, b)
      {
        var signChunk := Band(sign, b);
        var chunkKey := MakeShingleKey(signChunk);
        RecordsAreWellFormed(chunkKey);
        var found := ScanChunk(chunks[chunkKey], signChunk, records[chunkKey]);
        FoundForBand(signChunk);
        ghost var before := signs;
        signs := signs + found;
        forall t
          ensures t in signs <==> t in stored && SharesAmong(sign, t, b + 1)
        {
          SharesOneMore(sign, t, b);
          assert t in before <==> t in stored && SharesAmong(sign, t, b);
          assert t in found <==> t in stored && HasBand(t, signChunk);
        }
      }
    }
  }

  // ---------- The filter ----------

  // The highest share of equal rows among the candidates.
  method CalcSim(curSign: Signature, candidates: seq<Signature>) returns (result: real)
    ensures result >= 0.0
    ensures forall c :: c in candidates ==> Rows(curSign, c) as real / 128.0 <= result
    ensures result > 0.0 ==> exists c :: c in candidates && result == Rows(curSign, c) as real / 128.0
  {
    result := 0.0;
    for i := 0 to |candidates|
      invariant result >= 0.0
      invariant forall k :: 0 <= k < i ==> Rows(curSign, candidates[k]) as real / 128.0 <= result
      invariant result > 0.0 ==> exists c :: c in candidates && result == Rows(curSign, c) as real / 128.0
    {
      var sum := 0;
      for j := 0 to ROWS
        invariant sum == Agreement(curSign, candidates[i], j)
      {
        if curSign[j] == candidates[i][j] {
          sum := sum + 1;
        }
      }
      var sim := sum as real / 128.0;
      assert sim == Rows(curSign, candidates[i]) as real / 128.0;
      if sim > result {
        result := sim;
      }
    }
  }

  // No two stored signatures agree in 113 or more rows.
  ghost predicate NoNearDuplicates(stored: seq<Signature>) {
    forall i, j :: 0 <= i < j < |stored| ==> Rows(stored[i], stored[j]) < 113
  }

  datatype Verdict = Unchecked | Duplicate | Stored

  // The check of one page.  `skip` is the decision of the model not to index it.
  method CheckDocument(index: ShingleIndex, mh: Hasher, tokens: seq<string>, skip: bool)
    returns (verdict: Verdict, ghost sign: Signature)
    requires index.Valid() && NoNearDuplicates(index.stored)
    modifies index
    ensures index.Valid() && NoNearDuplicates(index.stored)
    ensures verdict == Unchecked <==> skip || |tokens| <= 4
    ensures verdict != Unchecked ==> IsSignature(mh, Shingles(tokens[..if |tokens| < 5000 then |tokens| else 5000]), sign)
    // exactly the pages similar to a stored one that shares a band are rejected, and sharing a band
    // makes no difference if they are similar enough
    ensures verdict != Unchecked ==>
      (verdict == Duplicate <==> exists t :: t in old(index.stored) && Rows(sign, t) >= 103 && SharesBand(sign, t))
    ensures verdict != Unchecked && (exists t :: t in old(index.stored) && Rows(sign, t) >= 113) ==> verdict == Duplicate
    ensures index.stored == old(index.stored) + if verdict == Stored then [sign] else []
  {
    verdict, sign := Unchecked, seq(ROWS, _ => 0);
    var l := |tokens|;
    if !skip && l > 4 {
      var cur := CreateSignature(mh, tokens[..if l < 5000 then l else 5000]);
      sign := cur;
      var conds := index.GetSimilarSigns(cur);
      var sim := CalcSim(cur, conds);
      forall t | t in index.stored && Rows(cur, t) >= 113
        ensures sim > 0.8
      {
        CloseSharesBand(cur, t);
      }
      if sim > 0.8 {
        verdict := Duplicate;
      } else {
        forall t | t in index.stored
          ensures Rows(t, cur) < 113
        {
          RowsAreSymmetric(cur, t, ROWS);
        }
        index.IndexDocShingles(cur);
        verdict := Stored;
      }
    }
  }

  // A page as it comes to the check: its words, and whether the model skips it.
  datatype Page = Page(tokens: seq<string>, skip: bool)

  // A whole run on a new index: whatever the pages are, no two that are stored agree in 113 rows.
  method CheckDocuments(pages: seq<Page>, mh: Hasher) returns (index: ShingleIndex, verdicts: seq<Verdict>)
    ensures fresh(index) && index.Valid() && NoNearDuplicates(index.stored)
    ensures |verdicts| == |pages| && |index.stored| == Count(verdicts, Stored)
    ensures forall i :: 0 <= i < |pages| ==> (verdicts[i] == Unchecked <==> pages[i].skip || |pages[i].tokens| <= 4)
  {
    index := new ShingleIndex();
    verdicts := [];
    for i := 0 to |pages|
      invariant fresh(index) && index.Valid() && NoNearDuplicates(index.stored)
      invariant |verdicts| == i && |index.stored| == Count(verdicts, Stored)
      invariant forall j :: 0 <= j < i ==> (verdicts[j] == Unchecked <==> pages[j].skip || |pages[j].tokens| <= 4)
    {
      var verdict, sign := CheckDocument(index, mh, pages[i].tokens, pages[i].skip);
      assert (verdicts + [verdict])[..i] == verdicts;
      verdicts := verdicts + [verdict];
    }
  }

  function Count(verdicts: seq<Verdict>, v: Verdict): nat {
    if verdicts == [] then 0 else Count(verdicts[..|verdicts| - 1], v) + if verdicts[|verdicts| - 1] == v then 1 else 0
  }
}
