/** The cache itself: a map into a doubly linked list between two sentinels, most recent first. */
module LruCache {
  import opened Recency
  import opened Wrappers

  class Node<K, V> {
    var prev: Node?<K, V>
    var next: Node?<K, V>
    const key: K
    const value: V

    constructor (key: K, value: V)
      ensures this.key == key && this.value == value && prev == null && next == null
    {
      this.key, this.value := key, value;
      prev, next := null, null;
    }
  }

  // The map sends each key to the one node between the sentinels that has it.
  ghost predicate Indexed<K, V>(mp: map<K, Node<K, V>>, all: seq<Node<K, V>>) {
    && |all| >= 2
    && |mp| == |all| - 2
    && (forall i :: 0 < i < |all| - 1 ==> all[i].key in mp && mp[all[i].key] == all[i])
    && (forall k :: k in mp ==> mp[k].key == k && IsInner(all, mp[k]))
  }

  ghost predicate IsInner<K, V>(all: seq<Node<K, V>>, n: Node<K, V>) {
    exists i :: 0 < i < |all| - 1 && all[i] == n
  }

  ghost predicate NoRepeats<K, V>(all: seq<Node<K, V>>) {
    forall i, j :: 0 <= i < j < |all| ==> all[i] != all[j]
  }

  ghost function Entries<K, V>(all: seq<Node<K, V>>): Recent<K, V>
    requires |all| >= 2
  {
    seq(|all| - 2, i requires 0 <= i < |all| - 2 => Entry(all[i + 1].key, all[i + 1].value))
  }

  ghost function WithoutNode<K, V>(all: seq<Node<K, V>>, i: nat): seq<Node<K, V>>
    requires i < |all|
  {
    all[..i] + all[i + 1..]
  }

  lemma RemoveKeepsIndexed<K, V>(mp: map<K, Node<K, V>>, all: seq<Node<K, V>>, i: nat)
    requires Indexed(mp, all) && NoRepeats(all) && 0 < i < |all| - 1
    ensures Indexed(mp - {all[i].key}, WithoutNode(all, i))
  {
    var key := all[i].key;
    var rest, left := mp - {key}, WithoutNode(all, i);
    assert rest.Keys == mp.Keys - {key};
    forall j | 0 < j < |left| - 1
      ensures left[j].key in rest && rest[left[j].key] == left[j]
    {
      var h := if j < i then j else j + 1;
      assert left[j] == all[h] && all[h] != all[i];
      assert mp[all[h].key] == all[h];
    }
    forall k | k in rest
      ensures IsInner(left, rest[k])
    {
      var j :| 0 < j < |all| - 1 && all[j] == mp[k];
      assert left[if j < i then j else j - 1] == mp[k];
    }
  }

  lemma EntriesWithoutNode<K, V>(all: seq<Node<K, V>>, i: nat)
    requires 0 < i < |all| - 1
    ensures Entries(WithoutNode(all, i)) == Entries(all)[..i - 1] + Entries(all)[i..]
  {
  }

  lemma InsertKeepsIndexed<K, V>(mp: map<K, Node<K, V>>, all: seq<Node<K, V>>, node: Node<K, V>)
    requires Indexed(mp, all) && node.key !in mp
    ensures Indexed(mp[node.key := node], [all[0], node] + all[1..])
    ensures Entries([all[0], node] + all[1..]) == [Entry(node.key, node.value)] + Entries(all)
  {
    var longer, wider := mp[node.key := node], [all[0], node] + all[1..];
    forall k | k in longer
      ensures IsInner(wider, longer[k])
    {
      if k == node.key {
        assert wider[1] == node;
      } else {
        var j :| 0 < j < |all| - 1 && all[j] == mp[k];
        assert wider[j + 1] == mp[k];
      }
    }
  }

  lemma KeysAreDistinct<K, V>(mp: map<K, Node<K, V>>, all: seq<Node<K, V>>)
    requires Indexed(mp, all) && NoRepeats(all)
    ensures Distinct(Entries(all))
  {
    forall i, j | 0 <= i < j < |all| - 2
      ensures Entries(all)[i].key != Entries(all)[j].key
    {
      assert mp[all[i + 1].key] == all[i + 1] && mp[all[j + 1].key] == all[j + 1];
    }
  }

  // Where the node for a held key is.
  lemma IndexFinds<K, V>(mp: map<K, Node<K, V>>, all: seq<Node<K, V>>, key: K) returns (i: nat)
    requires Indexed(mp, all) && NoRepeats(all) && key in mp
    ensures 0 < i < |all| - 1 && all[i] == mp[key]
    ensures Lookup(Entries(all), key) == Some(mp[key].value)
    ensures Without(Entries(all), key) == Entries(all)[..i - 1] + Entries(all)[i..]
  {
    i :| 0 < i < |all| - 1 && all[i] == mp[key];
    KeysAreDistinct(mp, all);
    LookupFinds(Entries(all), i - 1);
  }

  lemma IndexMisses<K, V>(mp: map<K, Node<K, V>>, all: seq<Node<K, V>>, key: K)
    requires Indexed(mp, all) && key !in mp
    ensures Lookup(Entries(all), key) == None
    ensures Without(Entries(all), key) == Entries(all)
  {
    LookupMisses(Entries(all), key);
  }

  class LruCache<K(==), V> {
    var mp: map<K, Node<K, V>>
    const head: Node<K, V>
    const tail: Node<K, V>
    const capacity: nat
    ghost var all: seq<Node<K, V>>  // the nodes from head to tail
    ghost var repr: set<Node<K, V>> // every node the cache may touch

    // The forward and the backward chain between the sentinels mirror each other.
    ghost predicate Linked()
      reads this, repr
    {
      && (forall n :: n in all ==> n in repr)
      && |all| >= 2 && all[0] == head && all[|all| - 1] == tail && head.prev == null
      && NoRepeats(all)
      && (forall i {:trigger all[i].next} :: 0 <= i < |all| - 1 ==> all[i].next == all[i + 1])
      && (forall i {:trigger all[i].prev} :: 0 < i < |all| ==> all[i].prev == all[i - 1])
    }

    ghost predicate Valid()
      reads this, repr
    {
      Linked() && Indexed(mp, all) && |mp| <= capacity
    }

    ghost function Contents(): Recent<K, V>
      reads this
      requires |all| >= 2
    {
      Entries(all)
    }

    // The sentinels carry a key and a value that nobody looks at.
    constructor (capacity: nat, key: K, value: V)
      ensures Valid() && Contents() == [] && this.capacity == capacity && fresh(repr)
    {
      var h := new Node(key, value);
      var t := new Node(key, value);
      h.next := t;
      t.prev := h;
      mp, head, tail, this.capacity := map[], h, t, capacity;
      all, repr := [h, t], {h, t};
    }

    // Takes the `i`-th node out of the chains.
    method Unlink(node: Node<K, V>, ghost i: nat)
      requires Linked() && 0 < i < |all| - 1 && all[i] == node
      modifies this`all, repr
      ensures Linked() && all == WithoutNode(old(all), i)
    {
      assert node.prev == all[i - 1] && node.next == all[i + 1];
      node.prev.next := node.next;
      node.next.prev := node.prev;
      all := WithoutNode(all, i);
    }

    lemma KeyGoes(m: map<K, Node<K, V>>, k: K)
      requires k in m
      ensures |m - {k}| == |m| - 1
    {
      assert (m - {k}).Keys == m.Keys - {k};
    }

    method Remove(node: Node<K, V>, ghost i: nat)
      requires Linked() && Indexed(mp, all) && 0 < i < |all| - 1 && all[i] == node
      modifies this, repr
      ensures Linked() && Indexed(mp, all) && |mp| == |old(mp)| - 1 && repr == old(repr)
      ensures all == WithoutNode(old(all), i)
      ensures mp == old(mp) - {node.key}
      ensures Contents() == old(Contents())[..i - 1] + old(Contents())[i..]
    {
      RemoveKeepsIndexed(mp, all, i);
      EntriesWithoutNode(all, i);
      KeyGoes(mp, node.key);
      Unlink(node, i);
      mp := mp - {node.key};
    }

    // Chains a node in right behind the head.
    method LinkFirst(node: Node<K, V>)
      requires Linked() && node !in all
      modifies this`all, this`repr, repr, node
      ensures Linked() && repr == old(repr) + {node} && all == [head, node] + old(all)[1..]
    {
      var next := head.next;
      head.next := node;
      node.prev := head;
      next.prev := node;
      node.next := next;
      all, repr := [head, node] + all[1..], repr + {node};
    }

    method Insert(node: Node<K, V>)
      requires Linked() && Indexed(mp, all) && node !in all && node.key !in mp
      modifies this, repr, node
      ensures repr == old(repr) + {node}
      ensures Linked() && Indexed(mp, all) && |mp| == |old(mp)| + 1
      ensures all == [head, node] + old(all)[1..]
      ensures mp == old(mp)[node.key := node]
      ensures Contents() == [Entry(node.key, node.value)] + old(Contents())
    {
      InsertKeepsIndexed(mp, all, node);
      mp := mp[node.key := node];
      LinkFirst(node);
    }

    // Moves a node to the front.
    method Touch(node: Node<K, V>)
      requires Valid() && node.key in mp && mp[node.key] == node
      modifies this, repr
      ensures Valid() && repr == old(repr)
      ensures Lookup(old(Contents()), node.key) == Some(node.value)
      ensures Contents() == [Entry(node.key, node.value)] + Without(old(Contents()), node.key)
    {
      ghost var i := IndexFinds(mp, all, node.key);
      Remove(node, i);
      Insert(node);
    }

    method Get(key: K) returns (r: Option<V>)
      requires Valid()
      modifies this, repr
      ensures Valid() && repr == old(repr)
      ensures r == Lookup(old(Contents()), key)
      ensures Contents() == AfterGet(old(Contents()), key)
      ensures r.Some? ==> Contents() != [] && Contents()[0] == Entry(key, r.value)
    {
      if key in mp {
        var v := mp[key];
        Touch(v);
        return Some(v.value);
      }
      IndexMisses(mp, all, key);
      return None;
    }

    // The first half of Put: an older entry for the key goes.
    method Forget(key: K)
      requires Valid()
      modifies this, repr
      ensures Valid() && key !in mp && repr == old(repr)
      ensures Contents() == Without(old(Contents()), key)
    {
      if key in mp {
        ghost var i := IndexFinds(mp, all, key);
        Remove(mp[key], i);
      } else {
        IndexMisses(mp, all, key);
      }
    }

    // The second half: a full cache loses its last entry.  If it is full without having one, the node
    // before the tail is the head, whose missing neighbour makes the removal panic.
    method MakeRoom() returns (panicked: bool)
      requires Valid()
      modifies this, repr
      ensures Valid() && repr == old(repr) && (panicked <==> capacity == 0)
      ensures panicked ==> Contents() == old(Contents())
      ensures !panicked ==> |mp| < capacity && mp.Keys <= old(mp).Keys && Contents() == Room(capacity, old(Contents()))
    {
      if |mp| == capacity {
        var last := tail.prev;
        assert last == all[|all| - 2];
        if last.prev == null {
          return true;
        }
        Remove(last, |all| - 2);
      }
      return false;
    }

    method Put(key: K, value: V) returns (panicked: bool)
      requires Valid()
      modifies this, repr
      ensures Valid() && fresh(repr - old(repr)) && (panicked <==> capacity == 0)
      ensures Contents() == if panicked then old(Contents()) else AfterPut(capacity, old(Contents()), key, value)
    {
      Forget(key);
      panicked := MakeRoom();
      if !panicked {
        var node := new Node(key, value);
        Insert(node);
      }
    }
  }

  method Do<K(==), V>(c: LruCache<K, V>, op: Op<K, V>) returns (panicked: bool)
    requires c.Valid()
    modifies c, c.repr
    ensures c.Valid() && fresh(c.repr - old(c.repr)) && (panicked <==> c.capacity == 0 && op.Put?)
    ensures !panicked ==> c.Contents() == After(c.capacity, old(c.Contents()), op)
  {
    panicked := false;
    match op {
      case Get(k) => var _ := c.Get(k);
      case Put(k, v) => panicked := c.Put(k, v);
    }
  }

  // Any sequence of Gets and Puts on a new cache, up to the first panic, which is the first Put if the
  // capacity is zero.
  method Replay<K(==), V>(c: LruCache<K, V>, ops: seq<Op<K, V>>) returns (panicked: bool)
    requires c.Valid() && c.Contents() == []
    modifies c, c.repr
    ensures c.Valid() && (panicked <==> c.capacity == 0 && exists i :: 0 <= i < |ops| && ops[i].Put?)
    ensures !panicked ==> c.Contents() == Run(c.capacity, ops)
  {
    for i := 0 to |ops|
      invariant c.Valid() && c.Contents() == Run(c.capacity, ops[..i])
      invariant c.capacity == 0 ==> forall j :: 0 <= j < i ==> !ops[j].Put?
      invariant fresh(c.repr - old(c.repr))
    {
      panicked := Do(c, ops[i]);
      if panicked {
        return;
      }
      assert ops[..i + 1][..i] == ops[..i];
    }
    assert ops[..|ops|] == ops;
    panicked := false;
  }
}
