/** Reading all postings of a word: a range scan over the ordered store, from the word's key prefix
    up to the least byte string above everything with that prefix. */
module PrefixScan {
  import opened Wrappers

  // The order of the store's keys.
  predicate Less(a: Bytes, b: Bytes) {
    if a == [] then b != []
    else b != [] && (a[0] < b[0] || (a[0] == b[0] && Less(a[1..], b[1..])))
  }

  // Keys the scan from `lower` to `upper` visits; no upper bound means to the end.
  predicate InRange(k: Bytes, lower: Bytes, upper: Option<Bytes>) {
    !Less(k, lower) && (upper == None || Less(k, upper.value))
  }

  // ---------- The upper bound of a prefix ----------

  predicate AllMax(p: Bytes) {
    forall i :: 0 <= i < |p| ==> p[i] == 0xFF
  }

  // Nothing above a run of 0xFF fails to start with it.
  lemma {:induction false} MaxRun(p: Bytes, k: Bytes)
    requires AllMax(p)
    ensures !Less(k, p) <==> p <= k
  {
    if p != [] && k != [] && k[0] == p[0] {
      MaxRun(p[1..], k[1..]);
      assert p <= k <==> p[1..] <= k[1..];
    }
  }

  // Raising the last byte that is not 0xFF and dropping the rest gives a bound that fits exactly.
  lemma {:induction false} RaisedBound(head: Bytes, last: Byte, tail: Bytes, k: Bytes)
    requires last < 0xFF && AllMax(tail)
    ensures InRange(k, head + [last] + tail, Some(head + [last + 1])) <==> head + [last] + tail <= k
  {
    var prefix := head + [last] + tail;
    if head == [] {
      assert prefix[1..] == tail;
      if k != [] {
        MaxRun(tail, k[1..]);
        assert prefix <= k <==> k[0] == last && tail <= k[1..];
        assert !Less(k[1..], []);
      }
    } else {
      assert prefix[1..] == head[1..] + [last] + tail;
      assert (head + [last + 1])[1..] == head[1..] + [last + 1];
      if k != [] {
        RaisedBound(head[1..], last, tail, k[1..]);
        assert prefix <= k <==> k[0] == head[0] && prefix[1..] <= k[1..];
      }
    }
  }

  // For every key: it is in the range exactly if it starts with the prefix.
  method PrefixUpperBound(prefix: Bytes) returns (upper: Option<Bytes>)
    ensures forall k :: InRange(k, prefix, upper) <==> prefix <= k
  {
    var bytes := prefix;
    var i := |bytes| - 1;
    while i >= 0
      invariant -1 <= i < |bytes| == |prefix|
      invariant bytes[..i + 1] == prefix[..i + 1] && AllMax(prefix[i + 1..])
    {
      bytes := bytes[i := if bytes[i] == 0xFF then 0 else bytes[i] + 1];
      if bytes[i] != 0 {
        assert prefix == prefix[..i] + [prefix[i]] + prefix[i + 1..];
        var bound := bytes[..i + 1];
        assert bound == prefix[..i] + [prefix[i] + 1];
        forall k
          ensures InRange(k, prefix, Some(bound)) <==> prefix <= k
        {
          RaisedBound(prefix[..i], prefix[i], prefix[i + 1..], k);
        }
        return Some(bound);
      }
      assert prefix[i..] == [prefix[i]] + prefix[i + 1..];
      i := i - 1;
    }
    assert prefix[0..] == prefix;
    forall k
      ensures InRange(k, prefix, None) <==> prefix <= k
    {
      MaxRun(prefix, k);
    }
    return None;
  }

  // ---------- Keys of postings ----------

  const RI: Bytes := [114, 105, 58]  // "ri:"
  const UNDERSCORE: Byte := 95
  const ID_LENGTH := 32

  function HexDigit(n: int): (r: Byte)
    requires 0 <= n < 16
    ensures r != UNDERSCORE
  {
    if n < 10 then (48 + n) as Byte else (87 + n) as Byte
  }

  function HexValue(c: Byte): Option<int> {
    if 48 <= c <= 57 then Some(c as int - 48)
    else if 97 <= c <= 102 then Some(c as int - 87)
    else if 65 <= c <= 70 then Some(c as int - 55)
    else None
  }

  function Hex(b: Bytes): (r: Bytes)
    ensures |r| == 2 * |b| && UNDERSCORE !in r
  {
    if b == [] then [] else [HexDigit(b[0] as int / 16), HexDigit(b[0] as int % 16)] + Hex(b[1..])
  }

  function DecodeHex(s: Bytes): Option<Bytes> {
    if s == [] then Some([])
    else if |s| == 1 then None
    else
      var hi, lo, rest := HexValue(s[0]), HexValue(s[1]), DecodeHex(s[2..]);
      if hi == None || lo == None || rest == None then None
      else Some([(16 * hi.value + lo.value) as Byte] + rest.value)
  }

  lemma HexDigitRoundTrip(v: int)
    requires 0 <= v < 16
    ensures HexValue(HexDigit(v)) == Some(v)
  {
  }

  lemma {:induction false} HexRoundTrip(b: Bytes)
    ensures DecodeHex(Hex(b)) == Some(b)
  {
    if b != [] {
      HexRoundTrip(b[1..]);
      assert Hex(b)[2..] == Hex(b[1..]);
      HexDigitRoundTrip(b[0] as int / 16);
      HexDigitRoundTrip(b[0] as int % 16);
      assert [b[0]] + b[1..] == b;
    }
  }

  const DIGITS: Bytes := [48, 49, 50, 51, 52, 53, 54, 55, 56, 57, 97, 98, 99, 100, 101, 102]  // "0123456789abcdef"

  // Two digits for each byte, the high one first.
  lemma {:induction false} HexAt(b: Bytes, i: nat)
    requires i < |b|
    ensures Hex(b)[2 * i] == DIGITS[b[i] as int / 16] && Hex(b)[2 * i + 1] == DIGITS[b[i] as int % 16]
  {
    if i > 0 {
      HexAt(b[1..], i - 1);
      assert Hex(b)[2..] == Hex(b[1..]);
      assert Hex(b)[2 * i] == Hex(b[1..])[2 * (i - 1)] && Hex(b)[2 * i + 1] == Hex(b[1..])[2 * (i - 1) + 1];
    }
  }

  lemma {:induction false} UnderscoreIsNoHex(s: Bytes)
    requires UNDERSCORE in s
    ensures DecodeHex(s) == None
  {
    var i :| 0 <= i < |s| && s[i] == UNDERSCORE;
    assert HexValue(UNDERSCORE) == None;
    if i >= 2 {
      assert s[2..][i - 2] == UNDERSCORE;
      UnderscoreIsNoHex(s[2..]);
      assert DecodeHex(s[2..]) == None;
    }
  }

  function WordPrefix(word: Bytes): Bytes {
    RI + word + [UNDERSCORE]
  }

  function Key(word: Bytes, id: Bytes): Bytes {
    WordPrefix(word) + Hex(id)
  }

  // Which keys a scan for `word` meets: those of the word, and those of any stored word that goes
  // on with an underscore.
  lemma PrefixOfKey(word: Bytes, stored: Bytes, id: Bytes)
    ensures WordPrefix(word) <= Key(stored, id) <==> stored == word || word + [UNDERSCORE] <= stored
  {
    var p, k, n := WordPrefix(word), Key(stored, id), |word|;
    if p <= k {
      assert p[|RI| + n] == UNDERSCORE == k[|RI| + n];
      assert word == p[|RI|..|RI| + n] == k[|RI|..|RI| + n];
      assert forall h :: 0 <= h < |Hex(id)| ==> Hex(id)[h] != UNDERSCORE;
      assert k[|RI| + n] == UNDERSCORE ==> n <= |stored|;
      assert k[|RI|..|RI| + n] == stored[..n];
    }
    if word + [UNDERSCORE] <= stored {
      assert stored == word + [UNDERSCORE] + stored[n + 1..];
      assert k == p + (stored[n + 1..] + [UNDERSCORE] + Hex(id));
    }
  }

  // What is left of a met key decodes to the id, unless the key is another word's.
  lemma RestOfKey(word: Bytes, stored: Bytes, id: Bytes)
    requires WordPrefix(word) <= Key(stored, id)
    ensures DecodeHex(Key(stored, id)[|WordPrefix(word)|..]) == if stored == word then Some(id) else None
  {
    PrefixOfKey(word, stored, id);
    var rest := Key(stored, id)[|WordPrefix(word)|..];
    if stored == word {
      assert rest == Hex(id);
      HexRoundTrip(id);
    } else {
      assert rest == stored[|word| + 1..] + [UNDERSCORE] + Hex(id);
      assert rest[|stored| - |word| - 1] == UNDERSCORE;
      UnderscoreIsNoHex(rest);
    }
  }

  lemma KeyIsInjective(v: Bytes, w: Bytes, i: Bytes, j: Bytes)
    requires Key(v, i) == Key(w, j) && |i| == |j|
    ensures v == w && i == j
  {
    assert Key(v, i) == RI + v + [UNDERSCORE] + Hex(i);
    assert |v| == |w|;
    assert v == Key(v, i)[|RI|..|RI| + |v|] == Key(w, j)[|RI|..|RI| + |w|] == w;
    assert Hex(i) == Key(v, i)[|RI| + |v| + 1..] == Key(w, j)[|RI| + |w| + 1..] == Hex(j);
    HexRoundTrip(i);
    HexRoundTrip(j);
  }

  // ---------- The posting store ----------

  datatype Result<T> = Ok(value: T) | DecodeError

  // What is kept for a word in a document.
  datatype WordCount<P> = WordCount(count: nat, positions: seq<P>)

  const MAX_POSITIONS := 500
  const MAX_SIZE := 1024 * 1024

  // How often a word occurs, and where, but not all of it for very frequent words.
  function Counted<P>(sequence: map<Bytes, nat>, pos: map<Bytes, seq<P>>, word: Bytes): (r: WordCount<P>)
    requires word in sequence
    ensures r.count == sequence[word]
    ensures word !in pos ==> r.positions == []
    ensures word in pos ==> r.positions <= pos[word] && (|r.positions| < 500 ==> r.positions == pos[word])
    ensures |r.positions| <= 500
  {
    var positions := if word in pos then pos[word] else [];
    WordCount(sequence[word], if |positions| > MAX_POSITIONS then positions[..MAX_POSITIONS] else positions)
  }

  // The words that are stored: not those whose serialised count would be too large.
  ghost predicate IsStored<P>(sequence: map<Bytes, nat>, pos: map<Bytes, seq<P>>, size: WordCount<P> -> nat, word: Bytes) {
    word in sequence && size(Counted(sequence, pos, word)) <= MAX_SIZE
  }

  // The store is an ordered map.  It may hold other keys too, none of which starts with "ri:".
  class PostingStore<P> {
    var db: map<Bytes, WordCount<P>>
    ghost var postings: map<(Bytes, Bytes), WordCount<P>>

    constructor ()
      ensures Valid() && db == map[] && postings == map[]
    {
      db, postings := map[], map[];
    }

    ghost predicate Valid()
      reads this
    {
      && (forall w, d :: (w, d) in postings ==> |d| == ID_LENGTH && Key(w, d) in db && db[Key(w, d)] == postings[(w, d)])
      && (forall k :: k in db && RI <= k ==> IsPosting(k))
    }

    ghost predicate IsPosting(k: Bytes)
      reads this
    {
      exists w, d :: (w, d) in postings && k == Key(w, d)
    }

    // Stores what one document has for each of its words; `size` is that of the serialised form.
    method IndexDocumentWords(doc: Bytes, sequence: map<Bytes, nat>, pos: map<Bytes, seq<P>>, size: WordCount<P> -> nat)
      requires Valid() && |doc| == ID_LENGTH
      modifies this
      ensures Valid()
      ensures forall w, d :: (w, d) in postings <==> (w, d) in old(postings) || (d == doc && IsStored(sequence, pos, size, w))
      ensures forall w, d :: (w, d) in postings ==>
        postings[(w, d)] == if d == doc && IsStored(sequence, pos, size, w) then Counted(sequence, pos, w) else old(postings)[(w, d)]
    {
      var words := sequence.Keys;
      while words != {}
        invariant words <= sequence.Keys && Valid()
        invariant forall w, d :: (w, d) in postings <==>
          (w, d) in old(postings) || (d == doc && w !in words && IsStored(sequence, pos, size, w))
        invariant forall w, d :: (w, d) in postings ==>
          postings[(w, d)] == if d == doc && w !in words && IsStored(sequence, pos, size, w)
                              then Counted(sequence, pos, w) else old(postings)[(w, d)]
      {
        var word :| word in words;
        var wcp := Counted(sequence, pos, word);
        words := words - {word};
        if size(wcp) > MAX_SIZE {
          continue;
        }
        Set(word, doc, wcp);
      }
    }

    method Set(word: Bytes, doc: Bytes, value: WordCount<P>)
      requires Valid() && |doc| == ID_LENGTH
      modifies this
      ensures Valid() && postings == old(postings)[(word, doc) := value]
    {
      db := db[Key(word, doc) := value];
      postings := postings[(word, doc) := value];
      forall w, d | (w, d) in postings
        ensures |d| == ID_LENGTH && Key(w, d) in db && db[Key(w, d)] == postings[(w, d)]
      {
        if Key(w, d) == Key(word, doc) {
          KeyIsInjective(w, word, d, doc);
        }
      }
      forall k | k in db && RI <= k
        ensures IsPosting(k)
      {
        if k == Key(word, doc) {
          assert (word, doc) in postings;
        } else {
          var w, d :| (w, d) in old(postings) && k == Key(w, d);
          assert (w, d) in postings;
        }
      }
    }

    // Some stored word goes on behind `word` with an underscore.
    ghost predicate Shadowed(word: Bytes)
      reads this
    {
      exists w, d :: (w, d) in postings && word + [UNDERSCORE] <= w
    }

    // A key the scan meets is one of this word's, or shadows it.
    lemma KeyInRange(word: Bytes, upper: Option<Bytes>, k: Bytes) returns (w: Bytes, d: Bytes)
      requires Valid() && k in db && InRange(k, WordPrefix(word), upper)
      requires forall k :: InRange(k, WordPrefix(word), upper) <==> WordPrefix(word) <= k
      ensures (w, d) in postings && k == Key(w, d)
      ensures w != word ==> Shadowed(word)
      ensures DecodeHex(k[|WordPrefix(word)|..]) == if w == word then Some(d) else None
    {
      assert RI <= WordPrefix(word) <= k;
      w, d :| (w, d) in postings && k == Key(w, d);
      PrefixOfKey(word, w, d);
      RestOfKey(word, w, d);
    }

    // `found` is what the keys in `met` say about the word.
    ghost predicate Collected(found: map<Bytes, WordCount<P>>, word: Bytes, met: set<Bytes>)
      reads this
    {
      && (forall d :: d in found <==> (word, d) in postings && Key(word, d) in met)
      && (forall d :: d in found ==> found[d] == postings[(word, d)])
    }

    lemma CollectOne(found: map<Bytes, WordCount<P>>, word: Bytes, met: set<Bytes>, d: Bytes)
      requires Valid() && Collected(found, word, met) && (word, d) in postings
      ensures Collected(found[d := db[Key(word, d)]], word, met + {Key(word, d)})
    {
      forall e | (word, e) in postings && Key(word, e) == Key(word, d)
        ensures e == d
      {
        KeyIsInjective(word, word, e, d);
      }
    }

    // The keys of the word's documents are met, and so is every key that shadows the word.
    lemma KeysAreMet(word: Bytes, upper: Option<Bytes>, met: set<Bytes>)
      requires Valid() && met == set k | k in db && InRange(k, WordPrefix(word), upper)
      requires forall k :: InRange(k, WordPrefix(word), upper) <==> WordPrefix(word) <= k
      ensures forall d :: (word, d) in postings ==> Key(word, d) in met
      ensures Shadowed(word) ==> exists k :: k in met && DecodeHex(k[|WordPrefix(word)|..]) == None
    {
      forall d | (word, d) in postings
        ensures Key(word, d) in met
      {
        PrefixOfKey(word, word, d);
      }
      if w, d :| (w, d) in postings && word + [UNDERSCORE] <= w {
        PrefixOfKey(word, w, d);
        RestOfKey(word, w, d);
        assert Key(w, d) in met;
      }
    }

    ghost predicate AllDecode(word: Bytes, keys: set<Bytes>) {
      forall k :: k in keys ==> |WordPrefix(word)| <= |k| && DecodeHex(k[|WordPrefix(word)|..]) != None
    }

    // Takes one key into account, if it decodes.
    method CollectKey(word: Bytes, upper: Option<Bytes>, k: Bytes, found: map<Bytes, WordCount<P>>, ghost done: set<Bytes>)
      returns (r: Result<map<Bytes, WordCount<P>>>)
      requires Valid() && k in db && InRange(k, WordPrefix(word), upper)
      requires forall k :: InRange(k, WordPrefix(word), upper) <==> WordPrefix(word) <= k
      requires Collected(found, word, done) && AllDecode(word, done)
      ensures r == DecodeError ==> Shadowed(word)
      ensures r.Ok? ==> Collected(r.value, word, done + {k}) && AllDecode(word, done + {k})
    {
      ghost var w, d := KeyInRange(word, upper, k);
      var decoded := DecodeHex(k[|WordPrefix(word)|..]);
      if decoded == None {
        return DecodeError;
      }
      CollectOne(found, word, done, d);
      r := Ok(found[decoded.value := db[k]]);
    }

    // Decodes the keys met one by one, up to the first that does not decode.
    method Collect(word: Bytes, upper: Option<Bytes>, keys: set<Bytes>) returns (r: Result<map<Bytes, WordCount<P>>>)
      requires Valid() && forall k :: k in keys ==> k in db && InRange(k, WordPrefix(word), upper)
      requires forall k :: InRange(k, WordPrefix(word), upper) <==> WordPrefix(word) <= k
      ensures r == DecodeError ==> Shadowed(word)
      ensures r.Ok? ==> Collected(r.value, word, keys) && AllDecode(word, keys)
    {
      r := Ok(map[]);
      var pending := keys;
      ghost var done: set<Bytes> := {};
      while pending != {}
        invariant done + pending == keys
        invariant r.Ok? && Collected(r.value, word, done) && AllDecode(word, done)
      {
        var k :| k in pending;
        r := CollectKey(word, upper, k, r.value, done);
        if r == DecodeError {
          return;
        }
        done := done + {k};
        pending := pending - {k};
      }
      assert done == keys;
    }

    // The documents of a word and what is kept for it in each.
    ghost predicate IsAnswer(word: Bytes, found: map<Bytes, WordCount<P>>)
      reads this
    {
      && (forall d :: d in found <==> (word, d) in postings)
      && (forall d :: d in found ==> found[d] == postings[(word, d)])
    }

    // The answer is right, unless some stored word goes on behind this one with an underscore;
    // exactly then it is an error.
    method GetDocumentsByWord(word: Bytes) returns (r: Result<map<Bytes, WordCount<P>>>)
      requires Valid()
      ensures r == DecodeError <==> Shadowed(word)
      ensures r.Ok? ==> IsAnswer(word, r.value)
    {
      var wprefix := WordPrefix(word);
      var upper := PrefixUpperBound(wprefix);
      var keys := set k | k in db && InRange(k, wprefix, upper);
      KeysAreMet(word, upper, keys);
      r := Collect(word, upper, keys);
    }

    // What is looked up is what was indexed: the count of the word, and its positions or the first 500
    // of them, unless its serialised form is larger than 1 MiB.
    method LookUpIndexed(doc: Bytes, sequence: map<Bytes, nat>, pos: map<Bytes, seq<P>>, size: WordCount<P> -> nat, word: Bytes)
      returns (r: Result<map<Bytes, WordCount<P>>>)
      requires Valid() && |doc| == ID_LENGTH
      modifies this
      ensures Valid()
      ensures r.Ok? && word in sequence ==>
        var all := if word in pos then pos[word] else [];
        var kept := WordCount(sequence[word], if |all| > 500 then all[..500] else all);
        if size(kept) <= 1048576 then doc in r.value && r.value[doc] == kept
        else doc in r.value <==> (word, doc) in old(postings)
      ensures r.Ok? ==> forall d :: d != doc || word !in sequence ==>
        (d in r.value <==> (word, d) in old(postings)) && (d in r.value ==> r.value[d] == old(postings)[(word, d)])
    {
      IndexDocumentWords(doc, sequence, pos, size);
      r := GetDocumentsByWord(word);
    }
  }

  // The failure on real words: a document with the word "__" makes every lookup of "_" fail.
  method UnderscoreHidesUnderscore(doc: Bytes) returns (r: Result<map<Bytes, WordCount<int>>>)
    requires |doc| == ID_LENGTH
    ensures r == DecodeError
  {
    var store := new PostingStore<int>();
    var word := [UNDERSCORE, UNDERSCORE];
    store.IndexDocumentWords(doc, map[word := 1], map[word := [0]], _ => 0);
    assert IsStored(map[word := 1], map[word := [0]], _ => 0, word);
    assert (word, doc) in store.postings && [UNDERSCORE] + [UNDERSCORE] <= word;
    r := store.GetDocumentsByWord([UNDERSCORE]);
  }
}
