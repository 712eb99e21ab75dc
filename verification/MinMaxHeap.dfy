/** The double-ended priority queue of the scheduler: levels of a complete binary tree alternate
    between "least of its subtree" (even levels) and "greatest of its subtree" (odd levels). */
module MinMaxHeap {
  import opened Tasks
  import opened Wrappers

  // ---------- Shape of the tree ----------

  function Parent(i: nat): nat
    requires i >= 1
  {
    (i - 1) / 2
  }

  function Grandparent(i: nat): nat
    requires i >= 3
  {
    (i - 3) / 4
  }

  // Depth of node `i`, the integer form of the source's floor(log2(i + 1)).
  function Level(i: nat): nat {
    if i == 0 then 0 else 1 + Level(Parent(i))
  }

  predicate IsMinLevel(i: nat) {
    Level(i) % 2 == 0
  }

  predicate IsGrandchild(i: nat, j: nat) {
    j >= 4 * i + 3
  }

  function Pow2(n: nat): nat {
    if n == 0 then 1 else 2 * Pow2(n - 1)
  }

  lemma {:induction false} LevelIsFloorLog2(i: nat)
    ensures Pow2(Level(i)) <= i + 1 < Pow2(Level(i) + 1)
  {
    if i > 0 {
      LevelIsFloorLog2(Parent(i));
    }
  }

  lemma ParentAlternates(i: nat)
    requires i >= 1
    ensures IsMinLevel(Parent(i)) == !IsMinLevel(i)
  {
    assert Level(i) == 1 + Level(Parent(i));
  }

  // The levels of parent and grandparent, wherever `i` has them.
  lemma Alternates(i: nat)
    ensures i >= 1 ==> IsMinLevel(Parent(i)) == !IsMinLevel(i)
    ensures i >= 3 ==> Grandparent(i) == Parent(Parent(i)) && IsMinLevel(Grandparent(i)) == IsMinLevel(i)
  {
    if i >= 1 {
      ParentAlternates(i);
    }
    if i >= 3 {
      ParentAlternates(Parent(i));
    }
  }

  ghost predicate Ancestor(a: nat, j: nat) {
    j >= 1 && (a == Parent(j) || Ancestor(a, Parent(j)))
  }

  // ---------- Ordering ----------

  // `d[j]` is on the right side of `d[a]`, given the kind of level `a` is on.
  ghost predicate Ordered(d: seq<Task>, a: nat, j: nat)
    requires a < |d| && j < |d|
  {
    !Better(IsMinLevel(a), d[j], d[a])
  }

  // The property the queue is for: every node bounds ALL its descendants.
  ghost predicate MinMax(d: seq<Task>) {
    forall a: nat, j: nat :: a < |d| && j < |d| && Ancestor(a, j) ==> Ordered(d, a, j)
  }

  // Node `j` agrees with its parent and its grandparent, unless `skip` is the one in question.
  ghost predicate LocalAt(d: seq<Task>, j: nat, skip: int)
    requires j < |d|
  {
    && (j >= 1 && Parent(j) != skip ==> Ordered(d, Parent(j), j))
    && (j >= 3 && Grandparent(j) != skip ==> Ordered(d, Grandparent(j), j))
  }

  ghost predicate Local(d: seq<Task>, skip: int) {
    forall j: nat :: j < |d| ==> LocalAt(d, j, skip)
  }

  lemma {:induction false} LocalBoundsAncestor(d: seq<Task>, a: nat, j: nat)
    requires Local(d, -1)
    requires a < |d| && j < |d| && Ancestor(a, j)
    ensures Ordered(d, a, j)
  {
    assert LocalAt(d, j, -1);
    if a != Parent(j) && a != Parent(Parent(j)) {
      Alternates(j);
      Alternates(Grandparent(j));
      var g := Grandparent(j);
      LocalBoundsAncestor(d, a, g);
      LocalBoundsAncestor(d, a, Parent(j));
      assert LocalAt(d, Parent(j), -1);
    }
  }

  function Swap(d: seq<Task>, i: nat, j: nat): (r: seq<Task>)
    requires i < |d| && j < |d|
    ensures |r| == |d| && r[i] == d[j] && r[j] == d[i]
    ensures forall k :: 0 <= k < |d| && k != i && k != j ==> r[k] == d[k]
  {
    d[i := d[j]][j := d[i]]
  }

  lemma SwapPermutes(d: seq<Task>, i: nat, j: nat)
    requires i < |d| && j < |d|
    ensures multiset(Swap(d, i, j)) == multiset(d)
  {
  }

  // `j` is a child or a grandchild of `i`.
  ghost predicate Below(i: nat, j: nat) {
    j >= 1 && (Parent(j) == i || (j >= 3 && Grandparent(j) == i))
  }

  // ---------- Bubbling up ----------

  // Only `i` may still be out of order, and only with ancestors of its own kind; what lies
  // below `i` already agrees with the grandparent that `i` may be exchanged with.
  ghost predicate Bubbling(d: seq<Task>, i: nat, min: bool) {
    && i < |d|
    && IsMinLevel(i) == min
    && (forall j: nat :: j < |d| && j != i ==> LocalAt(d, j, -1))
    && (i >= 1 ==> Ordered(d, Parent(i), i))
    && (i >= 3 ==> forall j: nat :: j < |d| && Below(i, j) ==> Ordered(d, Grandparent(i), j))
  }

  lemma BubbleStepAt(d: seq<Task>, i: nat, min: bool, j: nat)
    requires Bubbling(d, i, min) && i >= 3 && Better(min, d[i], d[Grandparent(i)])
    requires j < |d| && j != Grandparent(i)
    ensures LocalAt(Swap(d, i, Grandparent(i)), j, -1)
  {
    Alternates(i);
    Alternates(j);
    Alternates(Grandparent(i));
    assert LocalAt(d, Grandparent(i), -1) && LocalAt(d, Parent(i), -1);
    assert j != i ==> LocalAt(d, j, -1);
    assert Below(i, j) ==> Ordered(d, Grandparent(i), j);
  }

  lemma BubbleStep(d: seq<Task>, i: nat, min: bool)
    requires Bubbling(d, i, min) && i >= 3 && Better(min, d[i], d[Grandparent(i)])
    ensures Bubbling(Swap(d, i, Grandparent(i)), Grandparent(i), min)
  {
    var g := Grandparent(i);
    var e := Swap(d, i, g);
    Alternates(i);
    Alternates(g);
    assert LocalAt(d, g, -1);
    forall j: nat | j < |d| && j != g
      ensures LocalAt(e, j, -1)
    {
      BubbleStepAt(d, i, min, j);
    }
    forall j: nat | g >= 3 && j < |d| && Below(g, j)
      ensures Ordered(e, Grandparent(g), j)
    {
      Alternates(j);
      assert j != i ==> LocalAt(d, j, -1);
    }
  }

  lemma BubbleDone(d: seq<Task>, i: nat, min: bool)
    requires Bubbling(d, i, min)
    requires i >= 3 ==> !Better(min, d[i], d[Grandparent(i)])
    ensures Local(d, -1)
  {
    Alternates(i);
  }

  // A new last leaf, and what to do with it first.
  lemma BubbleStart(d: seq<Task>, i: nat, min: bool)
    requires i + 1 == |d| && i >= 1 && IsMinLevel(i) == min
    requires forall j: nat :: j < i ==> LocalAt(d, j, -1)
    ensures Better(!min, d[i], d[Parent(i)]) ==> Bubbling(Swap(d, i, Parent(i)), Parent(i), !min)
    ensures !Better(!min, d[i], d[Parent(i)]) ==> Bubbling(d, i, min)
  {
    var p := Parent(i);
    Alternates(i);
    assert LocalAt(d, p, -1);
    if Better(!min, d[i], d[p]) {
      var e := Swap(d, i, p);
      Alternates(p);
      forall j: nat | j < |d| && j != p
        ensures LocalAt(e, j, -1)
      {
        Alternates(j);
        assert j != i ==> LocalAt(d, j, -1);
      }
      forall j: nat | p >= 3 && j < |d| && Below(p, j)
        ensures Ordered(e, Grandparent(p), j)
      {
        Alternates(j);
        assert j != i ==> LocalAt(d, j, -1);
      }
    }
  }

  // ---------- Trickling down ----------

  // Only what `i` itself says about its children and grandchildren may be wrong; those still
  // agree with the grandparent of `i`.
  ghost predicate Trickling(d: seq<Task>, i: nat, min: bool) {
    && i < |d|
    && IsMinLevel(i) == min
    && Local(d, i)
    && (i >= 3 ==> forall j: nat :: j < |d| && Below(i, j) ==> Ordered(d, Grandparent(i), j))
  }

  // `m` is the extreme node among the children and grandchildren of `i`.
  ghost predicate Extreme(d: seq<Task>, i: nat, m: nat, min: bool) {
    && m < |d|
    && Below(i, m)
    && forall j: nat :: j < |d| && Below(i, j) ==> !Better(min, d[j], d[m])
  }

  lemma TrickleNone(d: seq<Task>, i: nat, min: bool)
    requires Trickling(d, i, min)
    requires forall j: nat :: j < |d| && Below(i, j) ==> !Better(min, d[j], d[i])
    ensures Local(d, -1)
  {
    forall j: nat | j < |d|
      ensures LocalAt(d, j, -1)
    {
      assert LocalAt(d, j, i);
    }
  }

  // The extreme node is a child that must change places with `i`.
  lemma TrickleChild(d: seq<Task>, i: nat, m: nat, min: bool)
    requires Trickling(d, i, min) && Extreme(d, i, m, min)
    requires !IsGrandchild(i, m) && Better(min, d[m], d[i])
    ensures Local(Swap(d, i, m), -1)
  {
    var e := Swap(d, i, m);
    Alternates(i);
    Alternates(m);
    forall j: nat | j < |d|
      ensures LocalAt(e, j, -1)
    {
      Alternates(j);
      assert LocalAt(d, j, i) && LocalAt(d, i, i) && LocalAt(d, m, i);
    }
  }

  // The state after `i` and its grandchild `m` have changed places, before the item now at `m` is
  // compared with its parent: that comparison is the only one missing above `m`.
  ghost predicate HalfSunk(e: seq<Task>, i: nat, m: nat, min: bool) {
    && 3 <= m < |e| && Grandparent(m) == i
    && IsMinLevel(m) == min
    && (forall j: nat :: j < |e| && j != m ==> LocalAt(e, j, m))
    && Ordered(e, i, m)
    && (i >= 1 ==> Ordered(e, Parent(i), m))
    && (forall j: nat :: j < |e| && Below(m, j) ==> Ordered(e, i, j))
  }

  lemma TrickleSwapAt(d: seq<Task>, i: nat, m: nat, min: bool, j: nat)
    requires Trickling(d, i, min) && Extreme(d, i, m, min) && j < |d| && j != m
    requires IsGrandchild(i, m) && Better(min, d[m], d[i])
    ensures LocalAt(Swap(d, i, m), j, m)
  {
    Alternates(i);
    Alternates(m);
    Alternates(j);
    assert LocalAt(d, i, i) && LocalAt(d, j, i);
    if j == i {
      assert LocalAt(d, m, i) && LocalAt(d, Parent(m), i);
      Alternates(Parent(m));
    }
  }

  lemma TrickleSwap(d: seq<Task>, i: nat, m: nat, min: bool)
    requires Trickling(d, i, min) && Extreme(d, i, m, min)
    requires IsGrandchild(i, m) && Better(min, d[m], d[i])
    ensures HalfSunk(Swap(d, i, m), i, m, min)
  {
    var e := Swap(d, i, m);
    Alternates(m);
    forall j: nat | j < |d| && j != m
      ensures LocalAt(e, j, m)
    {
      TrickleSwapAt(d, i, m, min, j);
    }
    assert LocalAt(d, i, i);
    Alternates(i);
    forall j: nat | j < |d| && Below(m, j)
      ensures Ordered(e, i, j)
    {
      Alternates(j);
      assert LocalAt(d, j, i);
    }
  }

  lemma TrickleParentAt(e: seq<Task>, i: nat, m: nat, min: bool, j: nat)
    requires HalfSunk(e, i, m, min) && j < |e| && Better(!min, e[m], e[Parent(m)])
    ensures LocalAt(Swap(e, m, Parent(m)), j, m)
  {
    var p := Parent(m);
    Alternates(m);
    Alternates(p);
    Alternates(j);
    assert LocalAt(e, p, m);
    assert j != m ==> LocalAt(e, j, m);
  }

  // The second exchange, where it is needed, restores the order above `m`.
  lemma TrickleParent(e: seq<Task>, i: nat, m: nat, min: bool)
    requires HalfSunk(e, i, m, min)
    ensures Better(!min, e[m], e[Parent(m)]) ==> Trickling(Swap(e, m, Parent(m)), m, min)
    ensures !Better(!min, e[m], e[Parent(m)]) ==> Trickling(e, m, min)
  {
    Alternates(m);
    if Better(!min, e[m], e[Parent(m)]) {
      forall j: nat | j < |e|
        ensures LocalAt(Swap(e, m, Parent(m)), j, m)
      {
        TrickleParentAt(e, i, m, min, j);
      }
    }
  }

  lemma LocalIffMinMax(d: seq<Task>)
    ensures MinMax(d) <==> Local(d, -1)
  {
    if Local(d, -1) {
      forall a: nat, j: nat | a < |d| && j < |d| && Ancestor(a, j)
        ensures Ordered(d, a, j)
      {
        LocalBoundsAncestor(d, a, j);
      }
    }
    if MinMax(d) {
      forall j: nat | j < |d|
        ensures LocalAt(d, j, -1)
      {
        Alternates(j);
        assert j >= 1 ==> Ancestor(Parent(j), j);
        assert j >= 3 ==> Ancestor(Grandparent(j), j);
      }
    }
  }

  // ---------- Where the extremes are ----------

  // Index of the item that GetMax returns and DeleteMax removes.
  function MaxIndex(d: seq<Task>): nat
    requires d != []
  {
    if |d| == 1 then 0
    else if |d| == 2 || d[1].priority > d[2].priority then 1
    else 2
  }

  ghost predicate IsLeast(t: Task, s: multiset<Task>) {
    t in s && forall u :: u in s ==> t.priority <= u.priority
  }

  ghost predicate IsGreatest(t: Task, s: multiset<Task>) {
    t in s && forall u :: u in s ==> u.priority <= t.priority
  }

  lemma {:induction false} RootIsAncestor(j: nat)
    requires j >= 1
    ensures Ancestor(0, j)
  {
    if j > 2 {
      RootIsAncestor(Parent(j));
    }
  }

  lemma {:induction false} FirstChildrenCover(j: nat)
    requires j >= 3
    ensures Ancestor(1, j) || Ancestor(2, j)
  {
    if Parent(j) > 2 {
      FirstChildrenCover(Parent(j));
    }
  }

  lemma RootIsLeast(d: seq<Task>)
    requires MinMax(d) && d != []
    ensures IsLeast(d[0], multiset(d))
  {
    forall u | u in multiset(d)
      ensures d[0].priority <= u.priority
    {
      var j :| 0 <= j < |d| && d[j] == u;
      if j > 0 {
        RootIsAncestor(j);
        assert Ordered(d, 0, j);
      }
    }
  }

  lemma MaxIndexIsGreatest(d: seq<Task>)
    requires MinMax(d) && d != []
    ensures MaxIndex(d) < |d| && IsGreatest(d[MaxIndex(d)], multiset(d))
  {
    forall u | u in multiset(d)
      ensures u.priority <= d[MaxIndex(d)].priority
    {
      var j :| 0 <= j < |d| && d[j] == u;
      if j == 0 && |d| > 1 {
        RootIsAncestor(1);
        assert Ordered(d, 0, 1);
      } else if j >= 3 {
        FirstChildrenCover(j);
        assert !IsMinLevel(1) && !IsMinLevel(2);
        assert Ancestor(1, j) ==> Ordered(d, 1, j);
        assert Ancestor(2, j) ==> Ordered(d, 2, j);
      }
    }
  }

  // `d` with the last item moved into place `i` and the last place dropped.
  function RemovedAt(d: seq<Task>, i: nat): seq<Task>
    requires i < |d|
  {
    d[i := d[|d| - 1]][..|d| - 1]
  }

  lemma RemovedAtPermutes(d: seq<Task>, i: nat)
    requires i < |d|
    ensures multiset(RemovedAt(d, i)) == multiset(d) - multiset{d[i]}
  {
    var last := |d| - 1;
    var e := d[i := d[last]];
    assert e == e[..last] + [d[last]];
    calc {
      multiset(e[..last]);
      multiset(e) - multiset{d[last]};
      multiset(d) - multiset{d[i]} + multiset{d[last]} - multiset{d[last]};
      multiset(d) - multiset{d[i]};
    }
  }

  // After such a removal at the root or just below it, only the replaced place can be wrong.
  lemma RemovedAtIsTrickling(d: seq<Task>, i: nat)
    requires MinMax(d) && i <= 2 && i < |d|
    ensures i + 1 < |d| ==> Trickling(RemovedAt(d, i), i, IsMinLevel(i))
    ensures i + 1 == |d| ==> Local(RemovedAt(d, i), -1)
  {
    var last := |d| - 1;
    var e := RemovedAt(d, i);
    LocalIffMinMax(d);
    if last >= 1 {
      RootIsAncestor(last);
      assert Ordered(d, 0, last);
    }
    var skip := if i < last then i else -1;
    forall j: nat | j < |e|
      ensures LocalAt(e, j, skip)
    {
      assert LocalAt(d, j, -1);
    }
  }

  // ---------- The queue ----------

  function Taken(r: Option<Task>): multiset<Task> {
    if r.Some? then multiset{r.value} else multiset{}
  }

  // What `tokens` lists: as many empty entries as there are items, and then the items.
  function Listing(d: seq<Task>): seq<Option<Task>> {
    seq(|d|, _ => None) + seq(|d|, i requires 0 <= i < |d| => Some(d[i]))
  }

  // The list is the contents of the heap, without empty entries, exactly when the heap is empty.
  lemma ListingIsContents(d: seq<Task>)
    ensures (forall v :: v in Listing(d) ==> v.Some?) <==> d == []
    ensures |Listing(d)| == |d| <==> d == []
  {
    if d == [] {
      assert Listing(d) == [];
    } else {
      assert Listing(d)[0] == None && None in Listing(d);
    }
  }

  class MinMaxHeap {
    var len: nat
    var data: seq<Task>

    ghost predicate Valid()
      reads this
    {
      len == |data| && MinMax(data)
    }

    constructor ()
      ensures Valid() && data == []
    {
      len, data := 0, [];
    }

    method Tokens() returns (values: seq<Option<Task>>)
      requires Valid()
      ensures values == Listing(data)
      ensures forall i :: 0 <= i < len ==> values[i] == None && values[len + i] == Some(data[i])
    {
      values := seq(len, _ => None);
      for i := 0 to len
        invariant values == Listing(data)[..len + i]
      {
        values := values + [Some(data[i])];
      }
    }

    method Insert(v: Task)
      requires Valid()
      modifies this
      ensures Valid()
      ensures multiset(data) == multiset(old(data)) + multiset{v}
      ensures |data| == |old(data)| + 1
    {
      LocalIffMinMax(data);
      data := data + [v];
      forall j: nat | j < |data| - 1
        ensures LocalAt(data, j, -1)
      {
        assert LocalAt(old(data), j, -1);
      }
      BubbleUp(|data| - 1);
      len := len + 1;
      LocalIffMinMax(data);
    }

    method GetMin() returns (r: Option<Task>)
      requires Valid()
      ensures r == if data == [] then None else Some(data[0])
      ensures r.Some? ==> IsLeast(r.value, multiset(data))
    {
      if |data| == 0 {
        return None;
      }
      RootIsLeast(data);
      return Some(data[0]);
    }

    method GetMax() returns (r: Option<Task>)
      requires Valid()
      ensures r == if data == [] then None else Some(data[MaxIndex(data)])
      ensures r.Some? ==> IsGreatest(r.value, multiset(data))
    {
      var n := |data|;
      if n == 0 {
        return None;
      }
      MaxIndexIsGreatest(data);
      if n == 1 {
        return Some(data[0]);
      }
      if n == 2 || data[1].priority > data[2].priority {
        return Some(data[1]);
      }
      return Some(data[2]);
    }

    method DeleteMin() returns (r: Option<Task>)
      requires Valid()
      modifies this
      ensures Valid()
      ensures r == if old(data) == [] then None else Some(old(data)[0])
      ensures r.Some? ==> IsLeast(r.value, multiset(old(data)))
      ensures multiset(data) == multiset(old(data)) - Taken(r)
      ensures |data| == if r.Some? then |old(data)| - 1 else 0
    {
      if len == 0 {
        return None;
      }
      RootIsLeast(data);
      var min := RemoveAt(0);
      return Some(min);
    }

    method DeleteMax() returns (r: Option<Task>)
      requires Valid()
      modifies this
      ensures Valid()
      ensures r == if old(data) == [] then None else Some(old(data)[MaxIndex(old(data))])
      ensures r.Some? ==> IsGreatest(r.value, multiset(old(data)))
      ensures multiset(data) == multiset(old(data)) - Taken(r)
      ensures |data| == if r.Some? then |old(data)| - 1 else 0
    {
      var n := len;
      if n == 0 {
        return None;
      }
      MaxIndexIsGreatest(data);
      var idx;
      if n == 1 {
        idx := 0;
      } else if n == 2 || data[1].priority > data[2].priority {
        idx := 1;
      } else {
        idx := 2;
      }

      var max := RemoveAt(idx);
      return Some(max);
    }

    // The common end of both deletions: the last item fills the gap and sinks to its place.
    method RemoveAt(i: nat) returns (t: Task)
      requires Valid() && i < |data| && i <= 2
      modifies this
      ensures Valid() && |data| == |old(data)| - 1
      ensures t == old(data)[i] && multiset(data) == multiset(old(data)) - multiset{t}
    {
      RemovedAtPermutes(data, i);
      RemovedAtIsTrickling(data, i);
      t := data[i];
      len := len - 1;
      data := data[i := data[len]];
      data := data[..len];
      assert data == RemovedAt(old(data), i);
      if i < |data| {
        TrickleDown(i);
      }
      LocalIffMinMax(data);
    }

    method SwapItems(i: nat, j: nat)
      requires i < |data| && j < |data|
      modifies this`data
      ensures data == Swap(old(data), i, j) && multiset(data) == multiset(old(data))
    {
      data := data[i := data[j]][j := data[i]];
      SwapPermutes(old(data), i, j);
    }

    method BubbleUp(i: nat)
      requires i + 1 == |data|
      requires forall j: nat :: j < i ==> LocalAt(data, j, -1)
      modifies this`data
      ensures Local(data, -1)
      ensures |data| == |old(data)| && multiset(data) == multiset(old(data))
    {
      if i == 0 {
        return;
      }
      var p := Parent(i);
      BubbleStart(data, i, IsMinLevel(i));
      if IsMinLevel(i) {
        if data[i].priority > data[p].priority {
          SwapItems(i, p);
          BubbleUpMax(p);
        } else {
          BubbleUpMin(i);
        }
      } else {
        if data[i].priority < data[p].priority {
          SwapItems(i, p);
          BubbleUpMin(p);
        } else {
          BubbleUpMax(i);
        }
      }
    }

    method BubbleUpMin(start: nat)
      requires Bubbling(data, start, true)
      modifies this`data
      ensures Local(data, -1)
      ensures |data| == |old(data)| && multiset(data) == multiset(old(data))
    {
      var i := start;
      while i >= 3
        invariant Bubbling(data, i, true)
        invariant |data| == |old(data)| && multiset(data) == multiset(old(data))
      {
        var gp := Grandparent(i);
        if data[i].priority < data[gp].priority {
          BubbleStep(data, i, true);
          SwapItems(i, gp);
          i := gp;
        } else {
          break;
        }
      }
      BubbleDone(data, i, true);
    }

    method BubbleUpMax(start: nat)
      requires Bubbling(data, start, false)
      modifies this`data
      ensures Local(data, -1)
      ensures |data| == |old(data)| && multiset(data) == multiset(old(data))
    {
      var i := start;
      while i >= 3
        invariant Bubbling(data, i, false)
        invariant |data| == |old(data)| && multiset(data) == multiset(old(data))
      {
        var gp := Grandparent(i);
        if data[i].priority > data[gp].priority {
          BubbleStep(data, i, false);
          SwapItems(i, gp);
          i := gp;
        } else {
          break;
        }
      }
      BubbleDone(data, i, false);
    }

    method TrickleDown(i: nat)
      requires len == |data| && Trickling(data, i, IsMinLevel(i))
      modifies this`data
      ensures Local(data, -1)
      ensures |data| == |old(data)| && multiset(data) == multiset(old(data))
    {
      if IsMinLevel(i) {
        TrickleDownMin(i);
      } else {
        TrickleDownMax(i);
      }
    }

    method TrickleDownMin(start: nat)
      requires len == |data| && Trickling(data, start, true)
      modifies this`data
      ensures Local(data, -1)
      ensures |data| == |old(data)| && multiset(data) == multiset(old(data))
    {
      var i: nat := start;
      while true
        invariant Trickling(data, i, true)
        invariant |data| == |old(data)| && multiset(data) == multiset(old(data))
        decreases |data| - i
      {
        var m := ExtremeDescendant(i, true);
        if m == -1 {
          TrickleNone(data, i, true);
          return;
        }
        if IsGrandchild(i, m) {
          if data[m].priority < data[i].priority {
            TrickleSwap(data, i, m, true);
            SwapItems(i, m);
            TrickleParent(data, i, m, true);
            var p := Parent(m);
            if data[m].priority > data[p].priority {
              SwapItems(m, p);
            }
            i := m;
          } else {
            TrickleNone(data, i, true);
            return;
          }
        } else {
          if data[m].priority < data[i].priority {
            TrickleChild(data, i, m, true);
            SwapItems(i, m);
          } else {
            TrickleNone(data, i, true);
          }
          return;
        }
      }
    }

    method TrickleDownMax(start: nat)
      requires len == |data| && Trickling(data, start, false)
      modifies this`data
      ensures Local(data, -1)
      ensures |data| == |old(data)| && multiset(data) == multiset(old(data))
    {
      var i: nat := start;
      while true
        invariant Trickling(data, i, false)
        invariant |data| == |old(data)| && multiset(data) == multiset(old(data))
        decreases |data| - i
      {
        var m := ExtremeDescendant(i, false);
        if m == -1 {
          TrickleNone(data, i, false);
          return;
        }
        if IsGrandchild(i, m) {
          if data[m].priority > data[i].priority {
            TrickleSwap(data, i, m, false);
            SwapItems(i, m);
            TrickleParent(data, i, m, false);
            var p := Parent(m);
            if data[m].priority < data[p].priority {
              SwapItems(m, p);
            }
            i := m;
          } else {
            TrickleNone(data, i, false);
            return;
          }
        } else {
          if data[m].priority > data[i].priority {
            TrickleChild(data, i, m, false);
            SwapItems(i, m);
          } else {
            TrickleNone(data, i, false);
          }
          return;
        }
      }
    }

    // Index of the extreme node among the children and grandchildren of `i`, or -1.
    method ExtremeDescendant(i: nat, min: bool) returns (best: int)
      requires len == |data|
      ensures best == -1 ==> forall j: nat :: j < |data| ==> !Below(i, j)
      ensures best != -1 ==> 0 <= best && Extreme(data, i, best, min)
    {
      var n := len;
      best := -1;
      var below := [2 * i + 1, 2 * i + 2, 4 * i + 3, 4 * i + 4, 4 * i + 5, 4 * i + 6];
      for k := 0 to |below|
        invariant best == -1 ==> forall h :: 0 <= h < k ==> below[h] >= n
        invariant best != -1 ==> best in below[..k] && 0 <= best < n
        invariant best != -1 ==> forall h :: 0 <= h < k && below[h] < n ==> !Better(min, data[below[h]], data[best])
      {
        var idx := below[k];
        if idx >= n {
          continue;
        }
        if || best == -1
           || (min && data[idx].priority < data[best].priority)
           || (!min && data[idx].priority > data[best].priority)
        {
          best := idx;
        }
      }
      forall j: nat | Below(i, j)
        ensures exists h :: 0 <= h < 6 && below[h] == j
      {
        assert below[0] == j || below[1] == j || below[2] == j || below[3] == j || below[4] == j || below[5] == j;
      }
    }
  }

  // ---------- Whole runs ----------

  datatype Op = Insert(v: Task) | DeleteMin | DeleteMax

  // What a double-ended priority queue holding `s` may answer to `op`, and what it then holds.
  ghost predicate Answers(s: multiset<Task>, op: Op, out: Option<Task>, s': multiset<Task>) {
    match op
    case Insert(v) => out == None && s' == s + multiset{v}
    case DeleteMin => (if |s| == 0 then out == None else out.Some? && IsLeast(out.value, s)) && s' == s - Taken(out)
    case DeleteMax => (if |s| == 0 then out == None else out.Some? && IsGreatest(out.value, s)) && s' == s - Taken(out)
  }

  ghost predicate IsRun(states: seq<multiset<Task>>, ops: seq<Op>, outs: seq<Option<Task>>) {
    && |states| == |ops| + 1 && |outs| == |ops|
    && forall i :: 0 <= i < |ops| ==> Answers(states[i], ops[i], outs[i], states[i + 1])
  }

  method Apply(h: MinMaxHeap, op: Op) returns (out: Option<Task>)
    requires h.Valid()
    modifies h
    ensures h.Valid()
    ensures Answers(multiset(old(h.data)), op, out, multiset(h.data))
  {
    out := None;
    match op {
      case Insert(v) => h.Insert(v);
      case DeleteMin => out := h.DeleteMin();
      case DeleteMax => out := h.DeleteMax();
    }
  }

  lemma ExtendRun(states: seq<multiset<Task>>, ops: seq<Op>, outs: seq<Option<Task>>, op: Op, out: Option<Task>, s': multiset<Task>)
    requires IsRun(states, ops, outs) && Answers(states[|ops|], op, out, s')
    ensures IsRun(states + [s'], ops + [op], outs + [out])
  {
  }

  // Any sequence of operations on a heap is a run of the abstract queue.
  method RunOps(h: MinMaxHeap, ops: seq<Op>) returns (outs: seq<Option<Task>>, ghost states: seq<multiset<Task>>)
    requires h.Valid()
    modifies h
    ensures h.Valid()
    ensures IsRun(states, ops, outs)
    ensures states[0] == multiset(old(h.data)) && states[|ops|] == multiset(h.data)
  {
    outs, states := [], [multiset(h.data)];
    for k := 0 to |ops|
      invariant h.Valid()
      invariant IsRun(states, ops[..k], outs)
      invariant states[0] == multiset(old(h.data)) && states[k] == multiset(h.data)
    {
      var out := Apply(h, ops[k]);
      ExtendRun(states, ops[..k], outs, ops[k], out, multiset(h.data));
      assert ops[..k + 1] == ops[..k] + [ops[k]];
      outs, states := outs + [out], states + [multiset(h.data)];
    }
    assert ops[..|ops|] == ops;
  }

  ghost predicate OnlyDeletes(ops: seq<Op>) {
    forall i :: 0 <= i < |ops| ==> !ops[i].Insert?
  }

  lemma {:induction false} DeletesShrink(states: seq<multiset<Task>>, ops: seq<Op>, outs: seq<Option<Task>>, i: nat, j: nat)
    requires IsRun(states, ops, outs) && OnlyDeletes(ops) && i <= j <= |ops|
    ensures states[j] <= states[i]
    ensures |states[0]| >= |ops| ==> |states[j]| == |states[0]| - j
    decreases i + j
  {
    if j > 0 {
      assert Answers(states[j - 1], ops[j - 1], outs[j - 1], states[j]);
      DeletesShrink(states, ops, outs, if i == j then i - 1 else i, j - 1);
    }
  }

  // Draining a queue from either end in any alternation: each deletion bounds every later one,
  // so deletions from one end alone come out in order.
  lemma DrainIsOrdered(states: seq<multiset<Task>>, ops: seq<Op>, outs: seq<Option<Task>>, i: nat, j: nat)
    requires IsRun(states, ops, outs) && OnlyDeletes(ops) && |states[0]| >= |ops|
    requires i < j < |ops|
    ensures outs[i].Some? && outs[j].Some?
    ensures ops[i].DeleteMax? ==> outs[j].value.priority <= outs[i].value.priority
    ensures ops[i].DeleteMin? ==> outs[i].value.priority <= outs[j].value.priority
  {
    DeletesShrink(states, ops, outs, i, j);
    DeletesShrink(states, ops, outs, 0, i);
    assert Answers(states[i], ops[i], outs[i], states[i + 1]);
    assert Answers(states[j], ops[j], outs[j], states[j + 1]);
  }

  function Values(outs: seq<Option<Task>>): multiset<Task> {
    if outs == [] then multiset{} else Values(outs[..|outs| - 1]) + Taken(outs[|outs| - 1])
  }

  lemma TakenComesBack(s: multiset<Task>, op: Op, out: Option<Task>, s': multiset<Task>, before: multiset<Task>)
    requires Answers(s, op, out, s') && !op.Insert?
    ensures before + Taken(out) + s' == before + s
  {
    assert Taken(out) <= s;
  }

  // What comes out is what was there, each item once.
  lemma {:induction false} DrainIsPermutation(states: seq<multiset<Task>>, ops: seq<Op>, outs: seq<Option<Task>>)
    requires IsRun(states, ops, outs) && OnlyDeletes(ops)
    ensures Values(outs) + states[|ops|] == states[0]
    ensures |ops| == |states[0]| ==> Values(outs) == states[0]
    decreases |ops|
  {
    var n := |ops|;
    if n > 0 {
      TakenComesBack(states[n - 1], ops[n - 1], outs[n - 1], states[n], Values(outs[..n - 1]));
      DrainIsPermutation(states[..n], ops[..n - 1], outs[..n - 1]);
      DeletesShrink(states, ops, outs, 0, n);
      if n == |states[0]| {
        assert states[n] == multiset{};
      }
    }
  }

  // The whole run: what was inserted into a new queue comes out of it greatest first, each item once.
  method InsertThenDrain(xs: seq<Task>) returns (out: seq<Task>)
    ensures multiset(out) == multiset(xs)
    ensures forall i, j :: 0 <= i < j < |out| ==> out[j].priority <= out[i].priority
  {
    var h := new MinMaxHeap();
    for i := 0 to |xs|
      invariant h.Valid() && multiset(h.data) == multiset(xs[..i])
    {
      h.Insert(xs[i]);
      assert xs[..i + 1] == xs[..i] + [xs[i]];
    }
    assert xs[..|xs|] == xs;
    out := Drain(h);
  }

  // What has come out is in order, and bounds what is left.
  ghost predicate Descends(out: seq<Task>, left: multiset<Task>) {
    && (forall i, j :: 0 <= i < j < |out| ==> out[j].priority <= out[i].priority)
    && (forall i, t :: 0 <= i < |out| && t in left ==> t.priority <= out[i].priority)
  }

  lemma DescendOn(out: seq<Task>, before: multiset<Task>, after: multiset<Task>, t: Task)
    requires Descends(out, before) && IsGreatest(t, before) && after <= before
    ensures Descends(out + [t], after)
  {
  }

  method Drain(h: MinMaxHeap) returns (out: seq<Task>)
    requires h.Valid()
    modifies h
    ensures multiset(out) == multiset(old(h.data))
    ensures forall i, j :: 0 <= i < j < |out| ==> out[j].priority <= out[i].priority
  {
    out := [];
    while h.len > 0
      invariant h.Valid() && multiset(out) + multiset(h.data) == multiset(old(h.data))
      invariant Descends(out, multiset(h.data))
      decreases h.len
    {
      ghost var before := multiset(h.data);
      var max := h.DeleteMax();
      MoveOver(multiset(out), before, multiset(h.data), max.value);
      DescendOn(out, before, multiset(h.data), max.value);
      out := out + [max.value];
    }
  }

  lemma MoveOver(out: multiset<Task>, before: multiset<Task>, after: multiset<Task>, t: Task)
    requires t in before && after == before - multiset{t}
    ensures out + multiset{t} + after == out + before && after <= before
  {
  }
}
