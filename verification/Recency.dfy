/** What a least-recently-used cache holds: a list of entries, most recently used first. */
module Recency {
  import opened Wrappers

  datatype Entry<K, V> = Entry(key: K, value: V)

  type Recent<K, V> = seq<Entry<K, V>>

  ghost predicate Has<K, V>(list: Recent<K, V>, k: K) {
    exists i :: 0 <= i < |list| && list[i].key == k
  }

  ghost predicate Distinct<K, V>(list: Recent<K, V>) {
    forall i, j :: 0 <= i < j < |list| ==> list[i].key != list[j].key
  }

  function Lookup<K(==), V>(list: Recent<K, V>, k: K): Option<V> {
    if list == [] then None
    else if list[0].key == k then Some(list[0].value)
    else Lookup(list[1..], k)
  }

  function Without<K(==), V>(list: Recent<K, V>, k: K): Recent<K, V> {
    if list == [] then []
    else if list[0].key == k then Without(list[1..], k)
    else [list[0]] + Without(list[1..], k)
  }

  // A hit moves the entry to the front, a miss changes nothing.
  function AfterGet<K(==), V>(list: Recent<K, V>, k: K): Recent<K, V> {
    var v := Lookup(list, k);
    if v.Some? then [Entry(k, v.value)] + Without(list, k) else list
  }

  function Room<K, V>(capacity: nat, list: Recent<K, V>): Recent<K, V> {
    if |list| == capacity && list != [] then list[..|list| - 1] else list
  }

  // The new entry goes to the front; the last one goes if the cache is full without the old one.
  function AfterPut<K(==), V>(capacity: nat, list: Recent<K, V>, k: K, v: V): Recent<K, V> {
    [Entry(k, v)] + Room(capacity, Without(list, k))
  }

  lemma {:induction false} LookupFinds<K, V>(list: Recent<K, V>, i: nat)
    requires Distinct(list) && i < |list|
    ensures Lookup(list, list[i].key) == Some(list[i].value)
    ensures Without(list, list[i].key) == list[..i] + list[i + 1..]
  {
    var k := list[i].key;
    if i == 0 {
      LookupMisses(list[1..], k);
    } else {
      LookupFinds(list[1..], i - 1);
      assert list[..i] + list[i + 1..] == [list[0]] + (list[1..][..i - 1] + list[1..][i..]);
    }
  }

  lemma {:induction false} LookupMisses<K, V>(list: Recent<K, V>, k: K)
    requires forall i :: 0 <= i < |list| ==> list[i].key != k
    ensures Lookup(list, k) == None && Without(list, k) == list
  {
    if list != [] {
      LookupMisses(list[1..], k);
    }
  }

  lemma {:induction false} WithoutKeepsOthers<K, V>(list: Recent<K, V>, k: K, other: K)
    ensures Lookup(Without(list, k), other) == if other == k then None else Lookup(list, other)
    ensures |Without(list, k)| <= |list|
  {
    if list != [] {
      WithoutKeepsOthers(list[1..], k, other);
    }
  }

  lemma {:induction false} RoomKeepsOthers<K, V>(list: Recent<K, V>, k: K)
    requires list != [] && Distinct(list)
    ensures Lookup(list[..|list| - 1], k) == if k == list[|list| - 1].key then None else Lookup(list, k)
  {
    var last := |list| - 1;
    if k == list[last].key {
      LookupMisses(list[..last], k);
    } else if last > 0 && list[0].key != k {
      RoomKeepsOthers(list[1..], k);
      assert list[..last][1..] == list[1..][..last - 1];
    }
  }

  lemma {:induction false} WithoutMembers<K, V>(list: Recent<K, V>, k: K)
    ensures forall e :: e in Without(list, k) ==> e in list && e.key != k
  {
    if list != [] {
      WithoutMembers(list[1..], k);
    }
  }

  lemma {:induction false} WithoutLength<K, V>(list: Recent<K, V>, k: K)
    requires Distinct(list)
    ensures |Without(list, k)| == if Lookup(list, k).Some? then |list| - 1 else |list|
    ensures Lookup(list, k) == None ==> Without(list, k) == list
  {
    if list != [] {
      WithoutLength(list[1..], k);
      if list[0].key == k {
        LookupMisses(list[1..], k);
      }
    }
  }

  lemma {:induction false} WithoutIsDistinct<K, V>(list: Recent<K, V>, k: K)
    requires Distinct(list)
    ensures Distinct(Without(list, k))
    ensures forall i :: 0 <= i < |Without(list, k)| ==> Without(list, k)[i] in list && Without(list, k)[i].key != k
  {
    WithoutMembers(list, k);
    if list != [] {
      WithoutIsDistinct(list[1..], k);
      WithoutMembers(list[1..], k);
    }
  }

  // A Put loses a key only if the cache was full, the key put was new, and then only the key that
  // was used longest ago; every other key keeps its value.
  lemma {:induction false} PutEvictsOnlyTheOldest<K, V>(capacity: nat, list: Recent<K, V>, k: K, v: V, other: K)
    requires Distinct(list) && |list| <= capacity && other != k
    ensures var after := Lookup(AfterPut(capacity, list, k, v), other);
      if |list| == capacity && capacity > 0 && Lookup(list, k) == None && other == list[capacity - 1].key
      then after == None
      else after == Lookup(list, other)
    ensures Lookup(AfterPut(capacity, list, k, v), k) == Some(v)
  {
    AfterPutIsCons(capacity, list, k, v);
    if |list| == capacity && list != [] && Lookup(list, k) == None {
      LookupOfCons(Entry(k, v), list[..|list| - 1], other);
      LookupOfCons(Entry(k, v), list[..|list| - 1], k);
      RoomKeepsOthers(list, other);
    } else {
      LookupOfCons(Entry(k, v), Without(list, k), other);
      LookupOfCons(Entry(k, v), Without(list, k), k);
      WithoutKeepsOthers(list, k, other);
    }
  }

  lemma {:induction false} AfterPutIsCons<K, V>(capacity: nat, list: Recent<K, V>, k: K, v: V)
    requires |list| <= capacity && Distinct(list)
    ensures AfterPut(capacity, list, k, v) == [Entry(k, v)] +
      if |list| == capacity && list != [] && Lookup(list, k) == None then list[..|list| - 1] else Without(list, k)
  {
    WithoutIsDistinct(list, k);
    WithoutLength(list, k);
  }

  lemma {:induction false} LookupOfCons<K, V>(e: Entry<K, V>, list: Recent<K, V>, other: K)
    ensures Lookup([e] + list, other) == if e.key == other then Some(e.value) else Lookup(list, other)
  {
  }

  // ---------- Inclusion: a smaller cache holds part of what a larger one holds ----------

  ghost predicate Within<T>(s: seq<T>, l: seq<T>) {
    s == [] || (l != [] && ((s[0] == l[0] && Within(s[1..], l[1..])) || Within(s, l[1..])))
  }

  lemma {:induction false} WithinBounds<T>(s: seq<T>, l: seq<T>)
    requires Within(s, l)
    ensures |s| <= |l| && (|s| == |l| ==> s == l)
    ensures s != [] ==> Within(s[..|s| - 1], l) && Within(s[..|s| - 1], l[..|l| - 1])
  {
    if s != [] {
      assert s[..|s| - 1] != [] ==> s[..|s| - 1][1..] == s[1..][..|s| - 2];
      assert |l| > 1 ==> l[..|l| - 1][1..] == l[1..][..|l| - 2];
      if s[0] == l[0] && Within(s[1..], l[1..]) {
        WithinBounds(s[1..], l[1..]);
      } else {
        WithinBounds(s, l[1..]);
      }
    }
  }

  lemma {:induction false} WithinWithout<K, V>(s: Recent<K, V>, l: Recent<K, V>, k: K)
    requires Within(s, l)
    ensures Within(Without(s, k), Without(l, k))
  {
    if s != [] {
      if s[0] == l[0] && Within(s[1..], l[1..]) {
        WithinWithout(s[1..], l[1..], k);
        WithinWider(Without(s[1..], k), Without(l[1..], k), l[0]);
      } else {
        WithinWithout(s, l[1..], k);
        WithinWider(Without(s, k), Without(l[1..], k), l[0]);
      }
    }
  }

  lemma {:induction false} WithinWider<T>(s: seq<T>, l: seq<T>, x: T)
    requires Within(s, l)
    ensures Within(s, [x] + l) && Within([x] + s, [x] + l)
  {
    assert ([x] + l)[1..] == l && ([x] + s)[1..] == s;
  }

  lemma {:induction false} WithinLookup<K, V>(s: Recent<K, V>, l: Recent<K, V>, k: K)
    requires Within(s, l) && Distinct(l)
    ensures Lookup(s, k).Some? ==> Lookup(l, k) == Lookup(s, k)
  {
    if s != [] {
      if s[0] == l[0] && Within(s[1..], l[1..]) {
        WithinLookup(s[1..], l[1..], k);
      } else {
        WithinLookup(s, l[1..], k);
        if l[0].key == k {
          LookupMisses(l[1..], k);
        }
      }
    }
  }

  datatype Op<K, V> = Get(key: K) | Put(key: K, value: V)

  function After<K(==), V>(capacity: nat, list: Recent<K, V>, op: Op<K, V>): Recent<K, V> {
    match op
    case Get(k) => AfterGet(list, k)
    case Put(k, v) => AfterPut(capacity, list, k, v)
  }

  function Run<K(==), V>(capacity: nat, ops: seq<Op<K, V>>): Recent<K, V> {
    if ops == [] then [] else After(capacity, Run(capacity, ops[..|ops| - 1]), ops[|ops| - 1])
  }

  // The smaller cache is part of the larger one, and unless it is full it is all of it.
  ghost predicate Included<K, V>(n: nat, small: Recent<K, V>, m: nat, large: Recent<K, V>) {
    && Distinct(small) && Distinct(large)
    && Within(small, large)
    && |small| <= n && |large| <= m
    && (|small| < n ==> small == large)
  }

  lemma GetKeepsIncluded<K, V>(n: nat, small: Recent<K, V>, m: nat, large: Recent<K, V>, k: K)
    requires n <= m && Included(n, small, m, large)
    ensures Included(n, AfterGet(small, k), m, AfterGet(large, k))
  {
    WithoutIsDistinct(small, k);
    WithoutLength(small, k);
    WithoutIsDistinct(large, k);
    WithoutLength(large, k);
    WithinLookup(small, large, k);
    WithinWithout(small, large, k);
    if Lookup(large, k).Some? {
      WithinWider(Without(small, k), Without(large, k), Entry(k, Lookup(large, k).value));
    }
  }

  lemma RoomKeepsWithin<T>(n: nat, s: seq<T>, m: nat, l: seq<T>)
    requires 1 <= n && Within(s, l) && (|l| == m ==> |s| == n)
    ensures Within(if |s| == n && s != [] then s[..|s| - 1] else s, if |l| == m && l != [] then l[..|l| - 1] else l)
  {
    WithinBounds(s, l);
  }

  lemma {:induction false} AfterPutIsDistinct<K, V>(capacity: nat, list: Recent<K, V>, k: K, v: V)
    requires Distinct(list) && |list| <= capacity && capacity >= 1
    ensures Distinct(AfterPut(capacity, list, k, v))
    ensures |AfterPut(capacity, list, k, v)|
         == if Lookup(list, k) == None && |list| < capacity then |list| + 1 else |list|
  {
    WithoutIsDistinct(list, k);
    WithoutLength(list, k);
  }

  lemma PutKeepsWithin<K, V>(n: nat, small: Recent<K, V>, m: nat, large: Recent<K, V>, k: K, v: V)
    requires 1 <= n <= m && Included(n, small, m, large)
    ensures Within(AfterPut(n, small, k, v), AfterPut(m, large, k, v))
  {
    var s, l := Without(small, k), Without(large, k);
    WithoutIsDistinct(small, k);
    WithoutLength(small, k);
    WithoutIsDistinct(large, k);
    WithoutLength(large, k);
    WithinLookup(small, large, k);
    WithinWithout(small, large, k);
    WithinBounds(small, large);
    RoomKeepsWithin(n, s, m, l);
    WithinWider(Room(n, s), Room(m, l), Entry(k, v));
  }

  lemma PutKeepsIncluded<K, V>(n: nat, small: Recent<K, V>, m: nat, large: Recent<K, V>, k: K, v: V)
    requires 1 <= n <= m && Included(n, small, m, large)
    ensures Included(n, AfterPut(n, small, k, v), m, AfterPut(m, large, k, v))
  {
    AfterPutIsDistinct(n, small, k, v);
    AfterPutIsDistinct(m, large, k, v);
    PutKeepsWithin(n, small, m, large, k, v);
    WithinBounds(small, large);
    WithinLookup(small, large, k);
    WithoutIsDistinct(small, k);
    WithoutLength(small, k);
  }

  // The same Gets and Puts on a smaller and on a larger cache: what the smaller one holds, the
  // larger one holds too, with the same values and in the same order.
  lemma {:induction false} SmallerIsIncluded<K, V>(n: nat, m: nat, ops: seq<Op<K, V>>)
    requires 1 <= n <= m
    ensures Included(n, Run(n, ops), m, Run(m, ops))
  {
    if ops != [] {
      var before, op := ops[..|ops| - 1], ops[|ops| - 1];
      SmallerIsIncluded(n, m, before);
      match op
      case Get(k) => GetKeepsIncluded(n, Run(n, before), m, Run(m, before), k);
      case Put(k, v) => PutKeepsIncluded(n, Run(n, before), m, Run(m, before), k, v);
    }
  }

  // ---------- The order is that of the last uses ----------

  // When a key was used last, by a Get or a Put; -1 if never.
  function LastUse<K(==), V>(ops: seq<Op<K, V>>, k: K): (n: int)
    ensures -1 <= n < |ops|
    ensures n >= 0 ==> ops[n].key == k
    ensures forall i :: n < i < |ops| ==> ops[i].key != k
  {
    if ops == [] then -1
    else if ops[|ops| - 1].key == k then |ops| - 1
    else LastUse(ops[..|ops| - 1], k)
  }

  // Entries nearer to the front were used later.
  ghost predicate ByUse<K, V>(ops: seq<Op<K, V>>, list: Recent<K, V>) {
    forall i, j :: 0 <= i < j < |list| ==> LastUse(ops, list[i].key) > LastUse(ops, list[j].key)
  }

  lemma {:induction false} WithoutKeepsOrder<K, V>(ops: seq<Op<K, V>>, list: Recent<K, V>, k: K)
    requires ByUse(ops, list)
    ensures ByUse(ops, Without(list, k))
  {
    if list != [] {
      WithoutKeepsOrder(ops, list[1..], k);
      WithoutMembers(list[1..], k);
    }
  }

  lemma {:induction false} LastUseAfter<K, V>(ops: seq<Op<K, V>>, op: Op<K, V>, k: K)
    ensures LastUse(ops + [op], k) == if k == op.key then |ops| else LastUse(ops, k)
  {
    assert (ops + [op])[..|ops|] == ops;
  }

  // One operation later the key it used is in front of all others.
  lemma {:induction false} FrontIsLatest<K, V>(ops: seq<Op<K, V>>, op: Op<K, V>, front: Recent<K, V>, rest: Recent<K, V>)
    requires ByUse(ops, rest) && (forall e :: e in rest ==> e.key != op.key)
    requires |front| <= 1 && forall e :: e in front ==> e.key == op.key
    ensures ByUse(ops + [op], front + rest)
  {
    var list := front + rest;
    forall i, j | 0 <= i < j < |list|
      ensures LastUse(ops + [op], list[i].key) > LastUse(ops + [op], list[j].key)
    {
      LastUseAfter(ops, op, list[i].key);
      LastUseAfter(ops, op, list[j].key);
      assert list[j] == rest[j - |front|];
      assert i >= |front| ==> list[i] == rest[i - |front|];
    }
  }

  lemma {:induction false} StepKeepsOrder<K, V>(capacity: nat, ops: seq<Op<K, V>>, list: Recent<K, V>, op: Op<K, V>)
    requires ByUse(ops, list)
    ensures ByUse(ops + [op], After(capacity, list, op))
  {
    WithoutKeepsOrder(ops, list, op.key);
    WithoutMembers(list, op.key);
    match op
    case Get(k) =>
      if Lookup(list, k).Some? {
        FrontIsLatest(ops, op, [Entry(k, Lookup(list, k).value)], Without(list, k));
      } else {
        HeldHasEntry(list, k);
        FrontIsLatest(ops, op, [], list);
        assert [] + list == list;
      }
    case Put(k, v) =>
      FrontIsLatest(ops, op, [Entry(k, v)], Room(capacity, Without(list, k)));
  }

  lemma {:induction false} HeldHasEntry<K, V>(list: Recent<K, V>, k: K)
    ensures Lookup(list, k).Some? <==> exists i :: 0 <= i < |list| && list[i].key == k
  {
    if list != [] {
      HeldHasEntry(list[1..], k);
      if i :| 0 <= i < |list| && list[i].key == k {
        assert i > 0 ==> list[1..][i - 1].key == k;
      }
    }
  }

  // The entries are at all times in the order in which their keys were used last.
  lemma {:induction false} RunIsByUse<K, V>(capacity: nat, ops: seq<Op<K, V>>)
    ensures ByUse(ops, Run(capacity, ops))
  {
    if ops != [] {
      var before, op := ops[..|ops| - 1], ops[|ops| - 1];
      RunIsByUse(capacity, before);
      StepKeepsOrder(capacity, before, Run(capacity, before), op);
      assert before + [op] == ops;
    }
  }

  // A held key that no other held key was used before.
  ghost predicate IsOldest<K(!new), V>(ops: seq<Op<K, V>>, list: Recent<K, V>, key: K) {
    && Lookup(list, key).Some?
    && forall other :: Lookup(list, other).Some? ==> LastUse(ops, key) <= LastUse(ops, other)
  }

  lemma {:induction false} LastIsOldest<K(!new), V>(ops: seq<Op<K, V>>, list: Recent<K, V>, key: K)
    requires ByUse(ops, list) && list != []
    ensures IsOldest(ops, list, key) <==> key == list[|list| - 1].key
  {
    var last := |list| - 1;
    HeldHasEntry(list, list[last].key);
    if key == list[last].key {
      forall other | Lookup(list, other).Some?
        ensures LastUse(ops, key) <= LastUse(ops, other)
      {
        HeldHasEntry(list, other);
      }
    } else if Lookup(list, key).Some? {
      HeldHasEntry(list, key);
      var i :| 0 <= i < |list| && list[i].key == key;
      assert LastUse(ops, key) > LastUse(ops, list[last].key);
    }
  }

  lemma {:induction false} GetKeepsAll<K, V>(list: Recent<K, V>, k: K, key: K)
    ensures Lookup(AfterGet(list, k), key) == Lookup(list, key)
  {
    if Lookup(list, k).Some? {
      LookupOfCons(Entry(k, Lookup(list, k).value), Without(list, k), key);
      WithoutKeepsOthers(list, k, key);
    }
  }

  // What one more operation does to what is held, after any others: the key put has its value, and a key
  // is lost exactly if a new one was put on a full cache and it was the one used longest ago.
  lemma {:induction false} LosesLeastRecentlyUsed<K(!new), V>(capacity: nat, ops: seq<Op<K, V>>, op: Op<K, V>, key: K)
    requires capacity >= 1
    ensures var before, after := Run(capacity, ops), Run(capacity, ops + [op]);
      Lookup(after, key) ==
        if op.Put? && key == op.key then Some(op.value)
        else if op.Put? && |before| == capacity && Lookup(before, op.key) == None && IsOldest(ops, before, key) then None
        else Lookup(before, key)
  {
    var before := Run(capacity, ops);
    assert (ops + [op])[..|ops|] == ops;
    SmallerIsIncluded(capacity, capacity, ops);
    RunIsByUse(capacity, ops);
    match op
    case Get(k) => GetKeepsAll(before, k, key);
    case Put(k, v) =>
      if |before| == capacity {
        LastIsOldest(ops, before, key);
      }
      if key == k {
        LookupOfCons(Entry(k, v), Room(capacity, Without(before, k)), k);
      } else {
        PutEvictsOnlyTheOldest(capacity, before, k, v, key);
      }
  }
}
