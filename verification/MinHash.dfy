/** MinHash signatures of a page: per row, the least hash of the page's four-word shingles. */
module MinHash {

  const ROWS := 128
  const NGRAM := 4
  const PRIME := 0x1FFF_FFFF_FFFF_FFFF  // 2^61 - 1
  const TWO64 := 0x1_0000_0000_0000_0000

  type Word64 = w: int | 0 <= w < TWO64

  type Signature = s: seq<Word64> | |s| == ROWS witness seq(ROWS, _ => 0)

  // The salts of the rows; `hash` stands for the 64-bit FNV hash of a string.
  datatype Hasher = Hasher(a: Signature, b: Signature, hash: string -> Word64)

  // What row `i` makes of a hash, in arithmetic that wraps around at 64 bits.
  function Row(mh: Hasher, i: nat, h: Word64): (r: Word64)
    requires i < ROWS
    ensures r < PRIME
  {
    ((mh.a[i] * h + mh.b[i]) % TWO64) % PRIME
  }

  // The row is what is left modulo the prime of what is left modulo 2^64 of a * h + b.
  lemma RowIs(mh: Hasher, i: nat, h: Word64, q: int, k: int, r: int)
    requires i < ROWS && 0 <= r < PRIME && 0 <= k * PRIME + r < TWO64
    requires mh.a[i] * h + mh.b[i] == q * TWO64 + (k * PRIME + r)
    ensures Row(mh, i, h) == r
  {
    var w := k * PRIME + r;
    LeftOver(q, TWO64, w);
    LeftOver(k, PRIME, r);
  }

  lemma LeftOver(q: int, d: int, w: int)
    requires 0 <= w < d
    ensures (q * d + w) % d == w
  {
    var m := q * d + w;
    Multiples(q - m / d, d);
    assert m == d * (m / d) + m % d;
    assert (q - m / d) * d == m % d - w;
  }

  lemma Multiples(t: int, d: int)
    requires d > 0
    ensures t >= 1 ==> t * d >= d
    ensures t <= -1 ==> t * d <= -d
  {
  }

  // Where the hash grows by one, a row moves on by its factor, unless it wraps around.
  lemma RowMoves(mh: Hasher, i: nat, h: Word64)
    requires i < ROWS && mh.a[i] * h + mh.b[i] + mh.a[i] < PRIME && h + 1 < TWO64
    ensures Row(mh, i, h + 1) == Row(mh, i, h) + mh.a[i]
    ensures mh.b[i] < PRIME ==> Row(mh, i, 0) == mh.b[i]
  {
    var a, b := mh.a[i], mh.b[i];
    assert a * (h + 1) + b == a * h + b + a;
    assert a * h >= 0;
    RowIs(mh, i, h, 0, 0, a * h + b);
    RowIs(mh, i, h + 1, 0, 0, a * (h + 1) + b);
    if b < PRIME {
      RowIs(mh, i, 0, 0, 0, b);
    }
  }

  // ---------- Shingles ----------

  function Join(words: seq<string>): string {
    if words == [] then ""
    else if |words| == 1 then words[0]
    else words[0] + " " + Join(words[1..])
  }

  // One blank goes between two words, wherever the list is taken apart.
  lemma {:induction false} JoinApart(x: seq<string>, y: seq<string>)
    requires x != [] && y != []
    ensures Join(x + y) == Join(x) + " " + Join(y)
  {
    if |x| == 1 {
      assert (x + y)[1..] == y;
    } else {
      JoinApart(x[1..], y);
      assert (x + y)[1..] == x[1..] + y;
    }
  }

  // The four words from word `i` on.
  function Gram(tokens: seq<string>, i: nat): string
    requires i <= |tokens| - NGRAM
  {
    Join(tokens[i..i + NGRAM])
  }

  ghost function Shingles(tokens: seq<string>): set<string> {
    set i: nat | i <= |tokens| - NGRAM :: Gram(tokens, i)
  }

  predicate IsFourFrom(tokens: seq<string>, i: int, s: string) {
    0 <= i <= |tokens| - 4 && s == tokens[i] + " " + tokens[i + 1] + " " + tokens[i + 2] + " " + tokens[i + 3]
  }

  // A shingle is any four words in a row, with one blank between them.
  lemma {:induction false} ShinglesAre(tokens: seq<string>, s: string)
    ensures s in Shingles(tokens) <==> exists i :: IsFourFrom(tokens, i, s)
  {
    forall i: nat | i <= |tokens| - 4
      ensures Gram(tokens, i) == tokens[i] + " " + tokens[i + 1] + " " + tokens[i + 2] + " " + tokens[i + 3]
    {
      JoinOfFour(tokens[i], tokens[i + 1], tokens[i + 2], tokens[i + 3]);
      assert tokens[i..i + 4] == [tokens[i], tokens[i + 1], tokens[i + 2], tokens[i + 3]];
    }
    if s in Shingles(tokens) {
      var i: nat :| i <= |tokens| - 4 && s == Gram(tokens, i);
      assert IsFourFrom(tokens, i, s);
    }
    if i :| IsFourFrom(tokens, i, s) {
      assert s == Gram(tokens, i);
    }
  }

  lemma {:induction false} JoinOfFour(a: string, b: string, c: string, d: string)
    ensures Join([a, b, c, d]) == a + " " + b + " " + c + " " + d
  {
    assert [a, b, c, d] == [a, b] + [c, d];
    JoinApart([a, b], [c, d]);
    JoinApart([a], [b]);
    JoinApart([c], [d]);
    assert [a] + [b] == [a, b] && [c] + [d] == [c, d];
  }

  // Words without blanks are not lost in it.
  lemma {:induction false} JoinIsInjective(v: seq<string>, w: seq<string>)
    requires |v| == |w| && Join(v) == Join(w)
    requires forall i :: 0 <= i < |v| ==> ' ' !in v[i] && ' ' !in w[i]
    ensures v == w
  {
    if |v| > 1 {
      FirstBlank(v[0], Join(v[1..]), w[0], Join(w[1..]));
      JoinIsInjective(v[1..], w[1..]);
      assert v == [v[0]] + v[1..] && w == [w[0]] + w[1..];
    } else if |v| == 1 {
      assert v == [v[0]] && w == [w[0]];
    }
  }

  lemma FirstBlank(a: string, x: string, b: string, y: string)
    requires a + " " + x == b + " " + y && ' ' !in a && ' ' !in b
    ensures a == b && x == y
  {
    var s := a + " " + x;
    BlankAfter(a, x);
    BlankAfter(b, y);
    assert a == s[..|a|] && b == s[..|b|];
    assert x == s[|a| + 1..] && y == s[|b| + 1..];
  }

  lemma BlankAfter(a: string, x: string)
    requires ' ' !in a
    ensures var s := a + " " + x; s[|a|] == ' ' && forall i :: 0 <= i < |a| ==> s[i] != ' '
  {
  }

  method GetWordNGrams(tokens: seq<string>) returns (result: seq<string>)
    ensures forall s :: s in result <==> s in Shingles(tokens)
    ensures |result| == if |tokens| < NGRAM then 0 else |tokens| - NGRAM + 1
  {
    result := [];
    var i := 0;
    while i <= |tokens| - NGRAM
      invariant 0 <= i && |result| == i && (i == 0 || i <= |tokens| - NGRAM + 1)
      invariant forall k :: 0 <= k < i ==> result[k] == Gram(tokens, k)
    {
      result := result + [Gram(tokens, i)];
      i := i + 1;
    }
  }

  // ---------- Signatures ----------

  // Row by row the minimum over a set of shingles, and 2^64 - 1 for the empty set.
  ghost predicate IsSignature(mh: Hasher, shingles: set<string>, sign: Signature) {
    forall i :: 0 <= i < ROWS ==>
      && (forall s :: s in shingles ==> sign[i] <= Row(mh, i, mh.hash(s)))
      && (if shingles == {} then sign[i] == TWO64 - 1
          else exists s :: s in shingles && sign[i] == Row(mh, i, mh.hash(s)))
  }

  // The lowering of all rows by one shingle, in place.
  method LowerRows(mh: Hasher, sign: array<Word64>, hash: Word64)
    requires sign.Length == ROWS
    modifies sign
    ensures forall i :: 0 <= i < ROWS ==>
      sign[i] == if Row(mh, i, hash) < old(sign[i]) then Row(mh, i, hash) else old(sign[i])
  {
    for i := 0 to ROWS
      invariant forall k :: 0 <= k < i ==>
        sign[k] == if Row(mh, k, hash) < old(sign[k]) then Row(mh, k, hash) else old(sign[k])
      invariant forall k :: i <= k < ROWS ==> sign[k] == old(sign[k])
    {
      var x := (mh.a[i] * hash + mh.b[i]) % TWO64;
      x := x % PRIME;
      if x < sign[i] {
        sign[i] := x;
      }
    }
  }

  // One more shingle in the set: each row is lowered where the shingle is lower.
  lemma AddShingle(mh: Hasher, shingles: set<string>, sign: Signature, s: string, lowered: Signature)
    requires IsSignature(mh, shingles, sign)
    requires forall i :: 0 <= i < ROWS ==>
      lowered[i] == if Row(mh, i, mh.hash(s)) < sign[i] then Row(mh, i, mh.hash(s)) else sign[i]
    ensures IsSignature(mh, shingles + {s}, lowered)
  {
    forall i | 0 <= i < ROWS
      ensures forall t :: t in shingles + {s} ==> lowered[i] <= Row(mh, i, mh.hash(t))
      ensures exists t :: t in shingles + {s} && lowered[i] == Row(mh, i, mh.hash(t))
    {
      if lowered[i] == Row(mh, i, mh.hash(s)) {
        assert s in shingles + {s};
      } else {
        var t :| t in shingles && sign[i] == Row(mh, i, mh.hash(t));
        assert t in shingles + {s};
      }
    }
  }

  method CreateSignature(mh: Hasher, tokens: seq<string>) returns (r: Signature)
    ensures IsSignature(mh, Shingles(tokens), r)
  {
    var shingles := GetWordNGrams(tokens);
    var sign := new Word64[ROWS](_ => TWO64 - 1);
    ghost var seen: set<string> := {};
    for k := 0 to |shingles|
      invariant seen == set s | s in shingles[..k]
      invariant IsSignature(mh, seen, sign[..])
    {
      ghost var before := sign[..];
      LowerRows(mh, sign, mh.hash(shingles[k]));
      AddShingle(mh, seen, before, shingles[k], sign[..]);
      seen := seen + {shingles[k]};
      assert shingles[..k + 1] == shingles[..k] + [shingles[k]];
    }
    assert shingles[..|shingles|] == shingles;
    assert seen == Shingles(tokens);
    return sign[..];
  }

  // The signature depends on the set of shingles only: neither their order nor how often each
  // occurs in the page matters.
  lemma SignatureIsUnique(mh: Hasher, shingles: set<string>, s: Signature, t: Signature)
    requires IsSignature(mh, shingles, s) && IsSignature(mh, shingles, t)
    ensures s == t
  {
    forall i | 0 <= i < ROWS
      ensures s[i] == t[i]
    {
      if shingles != {} {
        var x :| x in shingles && s[i] == Row(mh, i, mh.hash(x));
        var y :| y in shingles && t[i] == Row(mh, i, mh.hash(y));
      }
    }
  }

  function PointwiseMin(s: Signature, t: Signature): Signature {
    seq(ROWS, i requires 0 <= i < ROWS => if s[i] < t[i] then s[i] else t[i])
  }

  // The signature of a union is the pointwise minimum of the signatures.
  lemma SignatureOfUnion(mh: Hasher, left: set<string>, right: set<string>, s: Signature, t: Signature)
    requires IsSignature(mh, left, s) && IsSignature(mh, right, t)
    ensures IsSignature(mh, left + right, PointwiseMin(s, t))
  {
    var m := PointwiseMin(s, t);
    forall i | 0 <= i < ROWS
      ensures forall x :: x in left + right ==> m[i] <= Row(mh, i, mh.hash(x))
      ensures if left + right == {} then m[i] == TWO64 - 1
              else exists x :: x in left + right && m[i] == Row(mh, i, mh.hash(x))
    {
      if left != {} {
        var x :| x in left && s[i] == Row(mh, i, mh.hash(x));
        assert x in left + right;
      }
      if right != {} {
        var y :| y in right && t[i] == Row(mh, i, mh.hash(y));
        assert y in left + right;
      }
    }
  }
}
