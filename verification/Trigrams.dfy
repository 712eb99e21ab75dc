/** The trigram index behind spelling correction: one posting file for each pair of first letters,
    whose entries pack a word id and a third letter into 32 bits. */
module Trigrams {

  const CHUNKS := 676
  const BUFFER := 16  // entries read at a time

  predicate IsLetter(c: char) {
    'a' <= c <= 'z'
  }

  predicate IsWord(w: string) {
    forall i :: 0 <= i < |w| ==> IsLetter(w[i])
  }

  // ---------- Keys and entries ----------

  // The number of a letter of either case, computed on bytes.
  function Letter(c: char): nat
    requires c < 256 as char
  {
    (if c > 'Z' then c as int - 'a' as int else c as int - 'A' as int) % 0x100
  }

  function BiGramKey(ng: string): nat
    requires |ng| >= 2 && ng[0] < 256 as char && ng[1] < 256 as char
  {
    Letter(ng[0]) * 26 + Letter(ng[1])
  }

  // (id << 8) | letter in 32 bits.
  function Encode(id: nat, last: char): nat {
    (id * 0x100) % 0x1_0000_0000 + last as int % 0x100
  }

  function Decode(data: nat): (nat, char) {
    (data / 0x100, (data % 0x100) as char)
  }

  // Packing is faithful exactly for ids that fit into 24 bits.
  lemma PackingRoundTrip(id: nat, last: char)
    requires last < 256 as char
    ensures Decode(Encode(id, last)) == (id, last) <==> id < 0x100_0000
  {
    assert (id * 0x100) % 0x1_0000_0000 == (id % 0x100_0000) * 0x100;
  }

  // The id is above the low byte, which is the letter.
  lemma EntryIsSplit(e: nat)
    ensures Decode(e).1 < 256 as char && Decode(e).0 * 256 + Decode(e).1 as int == e
  {
  }

  // The files are numbered by pairs of letters in alphabetical order, whatever the case.
  lemma {:induction false} KeysAreInOrder(s: string, t: string)
    requires |s| >= 2 && |t| >= 2 && IsWord(s) && IsWord(t)
    ensures BiGramKey(s) < BiGramKey(t) <==> s[0] < t[0] || (s[0] == t[0] && s[1] < t[1])
    ensures BiGramKey("aa") == 0 && BiGramKey("zz") == 675
  {
    assert Letter(s[1]) < 26 && Letter(t[1]) < 26;
    LettersAreInOrder(s[0], t[0]);
    LettersAreInOrder(t[0], s[0]);
    LettersAreInOrder(s[1], t[1]);
  }

  lemma LettersAreInOrder(c: char, d: char)
    requires IsLetter(c) && IsLetter(d)
    ensures Letter(c) < Letter(d) <==> c < d
    ensures Letter((c as int - 32) as char) == Letter(c)
  {
  }

  lemma KeyIsInjective(s: string, t: string)
    requires |s| == |t| == 3 && IsWord(s) && IsWord(t)
    ensures BiGramKey(s) < CHUNKS
    ensures BiGramKey(s) == BiGramKey(t) && s[2] == t[2] <==> s == t
  {
    assert Letter(s[0]) < 26 && Letter(s[1]) < 26 && Letter(t[0]) < 26 && Letter(t[1]) < 26;
    if BiGramKey(s) == BiGramKey(t) && s[2] == t[2] {
      assert Letter(s[0]) == Letter(t[0]) && Letter(s[1]) == Letter(t[1]);
      assert s == [s[0], s[1], s[2]] == t;
    }
  }

  // ---------- Trigrams of a word ----------

  function At(w: string, i: nat): string
    requires i + 3 <= |w|
  {
    w[i..i + 3]
  }

  ghost predicate HasTrigram(w: string, t: string) {
    exists i: nat :: i + 3 <= |w| && At(w, i) == t
  }

  // Any three letters in a row.
  lemma TrigramIsPart(w: string, t: string)
    ensures HasTrigram(w, t) <==> |t| == 3 && exists x: string, y: string :: w == x + t + y
  {
    if i: nat :| i + 3 <= |w| && At(w, i) == t {
      assert w == w[..i] + t + w[i + 3..];
    }
    if x: string, y: string :| |t| == 3 && w == x + t + y {
      assert At(w, |x|) == t;
    }
  }

  ghost predicate Shares(v: string, w: string) {
    exists t :: HasTrigram(v, t) && HasTrigram(w, t)
  }

  ghost predicate NoRepeats<T>(s: seq<T>) {
    forall i, j :: 0 <= i < j < |s| ==> s[i] != s[j]
  }

  // The trigrams at the first `n` places of the word, each once, in the order they first appear.
  function FirstTGrams(w: string, n: nat): seq<string>
    requires n > 0 ==> n + 2 <= |w|
  {
    if n == 0 then []
    else
      var before := FirstTGrams(w, n - 1);
      if At(w, n - 1) in before then before else before + [At(w, n - 1)]
  }

  function AllTGrams(w: string): seq<string> {
    if |w| < 3 then [] else FirstTGrams(w, |w| - 2)
  }

  lemma {:induction false} FirstTGramsAre(w: string, n: nat)
    requires n > 0 ==> n + 2 <= |w|
    ensures NoRepeats(FirstTGrams(w, n))
    ensures forall t :: t in FirstTGrams(w, n) <==> exists k: nat :: k < n && At(w, k) == t
  {
    if n > 0 {
      FirstTGramsAre(w, n - 1);
    }
  }

  // At place `p` there is `t`, and up to there nowhere `u`.
  ghost predicate ComesFirst(w: string, p: nat, t: string, u: string) {
    p + 3 <= |w| && At(w, p) == t && forall q: nat :: q <= p ==> At(w, q) != u
  }

  lemma {:induction false} FirstTGramsInOrder(w: string, n: nat, i: nat, j: nat)
    requires n > 0 ==> n + 2 <= |w|
    requires i < j < |FirstTGrams(w, n)|
    ensures exists p: nat :: p < n && ComesFirst(w, p, FirstTGrams(w, n)[i], FirstTGrams(w, n)[j])
  {
    var before := FirstTGrams(w, n - 1);
    FirstTGramsAre(w, n - 1);
    if j < |before| {
      FirstTGramsInOrder(w, n - 1, i, j);
      var p: nat :| p < n - 1 && ComesFirst(w, p, before[i], before[j]);
      assert ComesFirst(w, p, FirstTGrams(w, n)[i], FirstTGrams(w, n)[j]);
    } else {
      assert before[i] in before;
      var p: nat :| p < n - 1 && At(w, p) == before[i];
      assert forall q: nat :: q <= p ==> At(w, q) in before;
      assert ComesFirst(w, p, FirstTGrams(w, n)[i], FirstTGrams(w, n)[j]);
    }
  }

  // Of two trigrams the one listed first occurs in front of the other.
  lemma TGramsInOrder(w: string, i: nat, j: nat)
    requires i < j < |AllTGrams(w)|
    ensures exists p: nat :: ComesFirst(w, p, AllTGrams(w)[i], AllTGrams(w)[j])
  {
    FirstTGramsInOrder(w, |w| - 2, i, j);
    var p: nat :| p < |w| - 2 && ComesFirst(w, p, FirstTGrams(w, |w| - 2)[i], FirstTGrams(w, |w| - 2)[j]);
  }

  lemma AllTGramsAre(w: string)
    ensures NoRepeats(AllTGrams(w))
    ensures forall t :: t in AllTGrams(w) <==> HasTrigram(w, t)
  {
    if |w| >= 3 {
      FirstTGramsAre(w, |w| - 2);
    }
  }

  method ExtractTGrams(word: string) returns (out: seq<string>)
    ensures out == AllTGrams(word)
    ensures forall t :: t in out <==> HasTrigram(word, t)
    ensures NoRepeats(out)
  {
    AllTGramsAre(word);
    out := [];
    var seen: set<string> := {};
    if |word| < 3 {
      return;
    }
    for i := 0 to |word| - 2
      invariant forall t :: t in seen <==> t in out
      invariant out == FirstTGrams(word, i)
    {
      var ng := At(word, i);
      if ng !in seen {
        seen := seen + {ng};
        out := out + [ng];
      }
    }
  }

  // A trigram of letters whose posting is letter `c` in file `k`.
  predicate Belongs(t: string, k: nat, c: char) {
    |t| == 3 && IsWord(t) && BiGramKey(t) == k && t[2] == c
  }

  ghost predicate HasGroup(word: string, k: nat, c: char) {
    exists t :: HasTrigram(word, t) && Belongs(t, k, c)
  }

  ghost predicate Grouped(list: seq<string>, k: nat, c: char) {
    exists t :: t in list && Belongs(t, k, c)
  }

  lemma GroupedStep(list: seq<string>, ng: string, k: nat, c: char)
    ensures Grouped(list + [ng], k, c) <==> Grouped(list, k, c) || Belongs(ng, k, c)
  {
    if t :| t in list && Belongs(t, k, c) {
      assert t in list + [ng];
    }
    assert ng in list + [ng];
  }

  lemma TrigramIsWord(word: string, t: string)
    requires IsWord(word) && HasTrigram(word, t)
    ensures |t| == 3 && IsWord(t) && BiGramKey(t) < CHUNKS
  {
    KeyIsInjective(t, t);
  }

  predicate Has(groups: map<nat, seq<char>>, k: nat, c: char) {
    k in groups && c in groups[k]
  }

  // The query's trigrams, grouped by the file their postings are in.
  method ExtractTGramsByBGram(word: string) returns (out: map<nat, seq<char>>)
    requires IsWord(word)
    ensures forall k :: k in out ==> k < CHUNKS
    ensures forall k, c :: Has(out, k, c) <==> HasGroup(word, k, c)
  {
    out := map[];
    var tgrams := ExtractTGrams(word);
    for i := 0 to |tgrams|
      invariant forall k :: k in out ==> k < CHUNKS
      invariant forall k, c :: Has(out, k, c) <==> Grouped(tgrams[..i], k, c)
    {
      var ng := tgrams[i];
      assert ng in tgrams;
      TrigramIsWord(word, ng);
      var bkey := BiGramKey(ng);
      ghost var before := out;
      out := out[bkey := (if bkey in out then out[bkey] else []) + [ng[2]]];
      assert tgrams[..i + 1] == tgrams[..i] + [ng];
      forall k, c
        ensures Has(out, k, c) <==> Grouped(tgrams[..i + 1], k, c)
      {
        GroupedStep(tgrams[..i], ng, k, c);
        assert Has(before, k, c) <==> Grouped(tgrams[..i], k, c);
        assert Belongs(ng, k, c) <==> k == bkey && c == ng[2];
        assert k != bkey ==> (k in out <==> k in before);
      }
    }
    assert tgrams[..|tgrams|] == tgrams;
    assert forall k, c :: Grouped(tgrams, k, c) <==> HasGroup(word, k, c);
  }

  // ---------- The index ----------

  // Word `w` with its id has posting `e` in file `k`.
  ghost predicate IsPosting(w: string, id: nat, k: nat, e: nat) {
    exists c :: HasGroup(w, k, c) && e == Encode(id, c)
  }

  ghost predicate IsListed(list: seq<string>, id: nat, k: nat, e: nat) {
    exists c :: Grouped(list, k, c) && e == Encode(id, c)
  }

  lemma ListedStep(list: seq<string>, ng: string, id: nat, k: nat, e: nat)
    requires |ng| == 3 && IsWord(ng)
    ensures IsListed(list + [ng], id, k, e) <==> IsListed(list, id, k, e) || (k == BiGramKey(ng) && e == Encode(id, ng[2]))
  {
    forall c
      ensures Grouped(list + [ng], k, c) <==> Grouped(list, k, c) || Belongs(ng, k, c)
    {
      GroupedStep(list, ng, k, c);
    }
    if k == BiGramKey(ng) {
      assert Belongs(ng, k, ng[2]);
    }
  }

  lemma ListedIsPosting(w: string, id: nat, k: nat, e: nat)
    ensures IsListed(AllTGrams(w), id, k, e) <==> IsPosting(w, id, k, e)
  {
    AllTGramsAre(w);
    assert forall c :: Grouped(AllTGrams(w), k, c) <==> HasGroup(w, k, c);
  }

  // Entry `e` is in file `k` because of a trigram of an indexed word.
  ghost predicate Posted(ids: map<string, nat>, k: nat, e: nat) {
    exists w :: w in ids && IsPosting(w, ids[w], k, e)
  }

  // Words and ids are in one-to-one correspondence.
  ghost predicate AreMutual(ids: map<string, nat>, names: map<nat, string>, counter: nat) {
    && (forall w :: w in ids ==> IsWord(w) && ids[w] <= counter && ids[w] in names && names[ids[w]] == w)
    && (forall n :: n in names ==> names[n] in ids && ids[names[n]] == n)
    && counter < 0x100_0000
  }

  // The files hold exactly the postings of the words.
  ghost predicate AreExact(chunks: seq<seq<nat>>, ids: map<string, nat>) {
    && |chunks| == CHUNKS
    && forall k: nat, e :: k < CHUNKS ==> (e in chunks[k] <==> Posted(ids, k, e))
  }

  datatype Result<T> = Ok(value: T) | InvalidId

  class NGramIndex {
    var chunks: seq<seq<nat>>
    var ids: map<string, nat>    // word -> id
    var names: map<nat, string>  // id -> word
    var counter: nat

    ghost predicate Mutual()
      reads this
    {
      AreMutual(ids, names, counter)
    }

    ghost predicate Exact()
      reads this
    {
      AreExact(chunks, ids)
    }

    ghost predicate Valid()
      reads this
    {
      Mutual() && Exact()
    }

    constructor ()
      ensures Valid() && ids == map[] && counter == 0
    {
      chunks, ids, names, counter := seq(CHUNKS, _ => []), map[], map[], 0;
    }

    // The index over files and a store that are there.
    constructor Open(chunks: seq<seq<nat>>, ids: map<string, nat>, names: map<nat, string>, counter: nat)
      requires AreMutual(ids, names, counter) && AreExact(chunks, ids)
      ensures Valid()
      ensures this.chunks == chunks && this.ids == ids && this.names == names && this.counter == counter
    {
      this.chunks, this.ids, this.names, this.counter := chunks, ids, names, counter;
    }

    // The allocator: a new word gets the next id.
    method Alloc(word: string) returns (id: nat, loaded: bool)
      requires Mutual() && IsWord(word) && counter + 1 < 0x100_0000
      modifies this`ids, this`names, this`counter
      ensures Mutual() && counter <= old(counter) + 1
      ensures loaded <==> word in old(ids)
      ensures ids == old(ids)[word := id] && (loaded ==> ids == old(ids))
    {
      if word in ids {
        return ids[word], true;
      }
      counter := counter + 1;
      id := counter;
      ids := ids[word := id];
      names := names[id := word];
      return id, false;
    }

    // The postings of one new word.
    method Post(word: string, id: nat)
      requires |chunks| == CHUNKS && IsWord(word)
      modifies this`chunks
      ensures |chunks| == CHUNKS
      ensures forall k: nat, e :: k < CHUNKS ==> (e in chunks[k] <==> e in old(chunks)[k] || IsPosting(word, id, k, e))
    {
      var tgrams := ExtractTGrams(word);
      for i := 0 to |tgrams|
        invariant |chunks| == CHUNKS
        invariant forall k: nat, e :: k < CHUNKS ==> (e in chunks[k] <==> e in old(chunks)[k] || IsListed(tgrams[..i], id, k, e))
      {
        var ng := tgrams[i];
        assert ng in tgrams;
        TrigramIsWord(word, ng);
        var bkey := BiGramKey(ng);
        ghost var before := chunks;
        chunks := chunks[bkey := chunks[bkey] + [Encode(id, ng[2])]];
        assert tgrams[..i + 1] == tgrams[..i] + [ng];
        forall k: nat, e | k < CHUNKS
          ensures e in chunks[k] <==> e in old(chunks)[k] || IsListed(tgrams[..i + 1], id, k, e)
        {
          ListedStep(tgrams[..i], ng, id, k, e);
          assert e in before[k] <==> e in old(chunks)[k] || IsListed(tgrams[..i], id, k, e);
        }
      }
      assert tgrams[..|tgrams|] == tgrams;
      forall k: nat, e | k < CHUNKS
        ensures IsListed(tgrams, id, k, e) <==> IsPosting(word, id, k, e)
      {
        ListedIsPosting(word, id, k, e);
      }
    }

    method IndexTriGrams(words: seq<string>)
      requires Valid() && (forall w :: w in words ==> IsWord(w))
      requires counter + |words| < 0x100_0000
      modifies this
      ensures Valid()
      ensures forall w :: w in ids <==> w in old(ids) || (w in words && |w| >= 2)
      ensures forall w :: w in old(ids) ==> ids[w] == old(ids)[w]
    {
      for i := 0 to |words|
        invariant Valid() && counter <= old(counter) + i
        invariant forall w :: w in ids <==> w in old(ids) || (w in words[..i] && |w| >= 2)
        invariant forall w :: w in old(ids) ==> ids[w] == old(ids)[w]
      {
        var word := words[i];
        assert words[..i + 1] == words[..i] + [word];
        if |word| < 2 {
          continue;
        }
        IndexWord(word);
      }
      assert words[..|words|] == words;
    }

    // One turn of that loop.
    method IndexWord(word: string)
      requires Valid() && IsWord(word) && counter + 1 < 0x100_0000
      modifies this
      ensures Valid() && counter <= old(counter) + 1
      ensures ids.Keys == old(ids).Keys + {word}
      ensures forall w :: w in old(ids) ==> ids[w] == old(ids)[w]
    {
      var id, loaded := Alloc(word);
      if !loaded {
        Post(word, id);
        forall k: nat, e | k < CHUNKS
          ensures e in chunks[k] <==> Posted(ids, k, e)
        {
          PostedStep(old(ids), word, id, k, e);
          assert e in old(chunks)[k] <==> Posted(old(ids), k, e);
        }
      }
    }

    // The words of the ids found, in the order they were found.
    method GetWordsFromSeq(nums: seq<nat>) returns (r: Result<seq<string>>)
      ensures (r == InvalidId) <==> exists i :: 0 <= i < |nums| && nums[i] !in names
      ensures r.Ok? ==> |r.value| == |nums| && forall i :: 0 <= i < |nums| ==> r.value[i] == names[nums[i]]
    {
      var words: seq<string> := [];
      for i := 0 to |nums|
        invariant forall k :: 0 <= k < i ==> nums[k] in names
        invariant |words| == i && forall k :: 0 <= k < i ==> words[k] == names[nums[k]]
      {
        if nums[i] !in names {
          return InvalidId;
        }
        words := words + [names[nums[i]]];
      }
      return Ok(words);
    }

    // The ids found are those of the indexed words that share a trigram with the query.
    method FindIds(word: string) returns (result: seq<nat>)
      requires Valid() && IsWord(word)
      ensures NoRepeats(result)
      ensures forall id :: id in result <==> exists w :: w in ids && ids[w] == id && Shares(w, word)
    {
      result := [];
      var ngs := ExtractTGramsByBGram(word);
      var keys := ngs.Keys;
      ghost var done: set<nat> := {};
      while keys != {}
        invariant keys <= ngs.Keys && done == ngs.Keys - keys
        invariant NoRepeats(result)
        invariant forall id :: id in result <==> FoundIn(chunks, ngs, done, id)
      {
        var bkey :| bkey in keys;
        ghost var before := result;
        result := ScanPostings(chunks[bkey], ngs[bkey], result);
        forall id
          ensures id in result <==> FoundIn(chunks, ngs, done + {bkey}, id)
        {
          assert id in before <==> FoundIn(chunks, ngs, done, id);
        }
        done := done + {bkey};
        keys := keys - {bkey};
      }
      assert done == ngs.Keys;
      forall id
        ensures id in result <==> exists w :: w in ids && ids[w] == id && Shares(w, word)
      {
        if FoundIn(chunks, ngs, ngs.Keys, id) {
          var w := FoundShares(word, ngs, id);
        }
        if w :| w in ids && ids[w] == id && Shares(w, word) {
          SharesIsFound(word, ngs, w);
        }
      }
    }

    // An entry found in one of the query's files, with one of its letters there, is that of an
    // indexed word that shares a trigram with the query ...
    lemma FoundShares(word: string, ngs: map<nat, seq<char>>, id: nat) returns (w: string)
      requires Valid() && IsWord(word)
      requires forall k :: k in ngs ==> k < CHUNKS
      requires forall k, c :: Has(ngs, k, c) <==> HasGroup(word, k, c)
      requires FoundIn(chunks, ngs, ngs.Keys, id)
      ensures w in ids && ids[w] == id && Shares(w, word)
    {
      var k :| k in ngs && IsHit(chunks[k], ngs[k], id);
      var e :| e in chunks[k] && Decode(e).1 in ngs[k] && Decode(e).0 == id;
      assert Posted(ids, k, e);
      w :| w in ids && IsPosting(w, ids[w], k, e);
      var c :| HasGroup(w, k, c) && e == Encode(ids[w], c);
      PackingRoundTrip(ids[w], c);
      assert Has(ngs, k, c);
      GroupIsShared(w, word, k, c);
    }

    // ... and every such word is found.
    lemma SharesIsFound(word: string, ngs: map<nat, seq<char>>, w: string)
      requires Valid() && IsWord(word)
      requires forall k :: k in ngs ==> k < CHUNKS
      requires forall k, c :: Has(ngs, k, c) <==> HasGroup(word, k, c)
      requires w in ids && Shares(w, word)
      ensures FoundIn(chunks, ngs, ngs.Keys, ids[w])
    {
      var t :| HasTrigram(w, t) && HasTrigram(word, t);
      TrigramIsWord(word, t);
      var k, c, id := BiGramKey(t), t[2], ids[w];
      assert Belongs(t, k, c);
      assert HasGroup(word, k, c) && HasGroup(w, k, c);
      PackingRoundTrip(id, c);
      assert IsPosting(w, id, k, Encode(id, c));
      assert Posted(ids, k, Encode(id, c));
      assert Has(ngs, k, c);
      assert IsHit(chunks[k], ngs[k], id);
    }

    // Exactly the indexed words that share a trigram with the query, each once, and never an
    // invalid id.
    method GetWordsByTGrams(word: string) returns (r: Result<seq<string>>)
      requires Valid() && IsWord(word)
      ensures r.Ok? && NoRepeats(r.value)
      ensures forall w :: w in r.value <==> w in ids && Shares(w, word)
    {
      var result := FindIds(word);
      forall i | 0 <= i < |result|
        ensures result[i] in names && names[result[i]] in ids && ids[names[result[i]]] == result[i]
        ensures Shares(names[result[i]], word)
      {
        assert result[i] in result;
        var w :| w in ids && ids[w] == result[i] && Shares(w, word);
      }
      r := GetWordsFromSeq(result);
      forall w | w in ids && Shares(w, word)
        ensures w in r.value
      {
        assert ids[w] in result;
        var i :| 0 <= i < |result| && result[i] == ids[w];
        assert r.value[i] == w;
      }
    }
  }

  lemma PostedStep(ids: map<string, nat>, word: string, id: nat, k: nat, e: nat)
    requires word !in ids
    ensures Posted(ids[word := id], k, e) <==> Posted(ids, k, e) || IsPosting(word, id, k, e)
  {
    var wider := ids[word := id];
    if w :| w in ids && IsPosting(w, ids[w], k, e) {
      assert w in wider && wider[w] == ids[w];
    }
    assert word in wider && wider[word] == id;
  }

  lemma GroupIsShared(v: string, w: string, k: nat, c: char)
    requires HasGroup(v, k, c) && HasGroup(w, k, c)
    ensures Shares(v, w)
  {
    var s :| HasTrigram(v, s) && Belongs(s, k, c);
    var t :| HasTrigram(w, t) && Belongs(t, k, c);
    KeyIsInjective(s, t);
  }

  // File `file` has an entry of `id` with one of the letters.
  ghost predicate IsHit(file: seq<nat>, letters: seq<char>, id: nat) {
    exists e :: e in file && Decode(e).1 in letters && Decode(e).0 == id
  }

  ghost predicate FoundIn(chunks: seq<seq<nat>>, ngs: map<nat, seq<char>>, keys: set<nat>, id: nat)
    requires keys <= ngs.Keys && forall k :: k in ngs ==> k < |chunks|
  {
    exists k :: k in keys && IsHit(chunks[k], ngs[k], id)
  }

  // Adds the ids found in one file, a buffer of entries at a time.
  method ScanPostings(file: seq<nat>, letters: seq<char>, found: seq<nat>) returns (result: seq<nat>)
    requires NoRepeats(found)
    ensures NoRepeats(result)
    ensures forall id :: id in result <==> id in found || IsHit(file, letters, id)
  {
    result := found;
    var pos := 0;
    while pos < |file|
      invariant 0 <= pos <= |file|
      invariant NoRepeats(result)
      invariant forall id :: id in result <==> id in found || IsHit(file[..pos], letters, id)
    {
      var n := if |file| - pos < BUFFER then |file| - pos else BUFFER;
      for i := 0 to n
        invariant NoRepeats(result)
        invariant forall id :: id in result <==> id in found || IsHit(file[..pos + i], letters, id)
      {
        var (seq_, last) := Decode(file[pos + i]);
        ghost var before := result;
        if last in letters && seq_ !in result {
          result := result + [seq_];
        }
        forall id
          ensures id in result <==> id in found || IsHit(file[..pos + i + 1], letters, id)
        {
          HitStep(file, pos + i, letters, id);
          assert id in before <==> id in found || IsHit(file[..pos + i], letters, id);
        }
      }
      pos := pos + n;
    }
    assert file[..pos] == file;
  }

  lemma HitStep(file: seq<nat>, i: nat, letters: seq<char>, id: nat)
    requires i < |file|
    ensures IsHit(file[..i + 1], letters, id) <==>
      IsHit(file[..i], letters, id) || (Decode(file[i]).1 in letters && Decode(file[i]).0 == id)
  {
    assert file[..i + 1] == file[..i] + [file[i]];
    assert file[i] in file[..i + 1];
    if e :| e in file[..i] && Decode(e).1 in letters && Decode(e).0 == id {
      assert e in file[..i + 1];
    }
  }
}
