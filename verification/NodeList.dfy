/** The hand-written doubly linked list that the LFU, LRU and FIFO caches thread their nodes on. */
module NodeLists {
  import opened Common

  class Node<K, T> {
    const key: K
    var value: T
    var freq: int
    var expiration: nat
    var prev: Node?<K, T>
    var next: Node?<K, T>

    constructor (key: K, value: T, freq: int, expiration: nat)
      ensures this.key == key && this.value == value && this.freq == freq && this.expiration == expiration
    {
      this.key := key;
      this.value := value;
      this.freq := freq;
      this.expiration := expiration;
      prev := null;
      next := null;
    }
  }

  /** Every node points at its neighbours in `nodes`, and the two ends point nowhere. */
  ghost predicate Linked<K, T>(nodes: seq<Node<K, T>>)
    reads nodes`prev, nodes`next
  {
    && (forall i {:trigger nodes[i].prev} :: 0 <= i < |nodes| ==>
            nodes[i].prev == (if i == 0 then null else nodes[i - 1]))
    && (forall i {:trigger nodes[i].next} :: 0 <= i < |nodes| ==>
            nodes[i].next == (if i == |nodes| - 1 then null else nodes[i + 1]))
  }

  /** The links of `was` once the neighbours of `was[i]` point past it. */
  ghost predicate Bridged<K, T>(was: seq<Node<K, T>>, i: nat)
    reads was`prev, was`next
  {
    && (forall j {:trigger was[j].prev} :: 0 <= j < |was| && j != i ==>
          was[j].prev == var p := if j == i + 1 then i - 1 else j - 1; if p < 0 then null else was[p])
    && (forall j {:trigger was[j].next} :: 0 <= j < |was| && j != i ==>
          was[j].next == var n := if j == i - 1 then i + 1 else j + 1; if n >= |was| then null else was[n])
  }

  /** Bridging the gap around `was[i]` leaves the remaining nodes properly linked. */
  lemma BridgedIsLinked<K, T>(was: seq<Node<K, T>>, i: nat)
    requires i < |was| && Distinct(was) && Bridged(was, i)
    ensures Linked(Without(was, was[i]))
  {
    WithoutAt(was, i);
    var rest := Without(was, was[i]);
    forall j | 0 <= j < |rest|
      ensures rest[j].prev == if j == 0 then null else rest[j - 1]
      ensures rest[j].next == if j == |rest| - 1 then null else rest[j + 1]
    {
      var k := if j < i then j else j + 1;
      assert rest[j] == was[k];
    }
  }

  /** The map names every node by its own key. */
  ghost predicate Keyed<K, T>(live: map<K, Node<K, T>>) {
    forall k :: k in live ==> live[k].key == k
  }

  /** `nodes` are the nodes that `live` keeps under `keys`, in the same order. */
  ghost predicate Threads<K, T>(live: map<K, Node<K, T>>, nodes: seq<Node<K, T>>, keys: seq<K>) {
    && |nodes| == |keys|
    && (forall i :: 0 <= i < |keys| ==> keys[i] in live && nodes[i] == live[keys[i]])
  }

  lemma {:induction false} ThreadsWithout<K, T>(live: map<K, Node<K, T>>, nodes: seq<Node<K, T>>, keys: seq<K>, k: K)
    requires Keyed(live) && Threads(live, nodes, keys) && Distinct(nodes) && k in live
    ensures Threads(live - {k}, Without(nodes, live[k]), Without(keys, k))
  {
    if keys != [] && keys[0] == k {
      assert nodes[0] == live[k];
    } else if keys != [] {
      assert nodes[0].key == keys[0];
      ThreadsWithout(live, nodes[1..], keys[1..], k);
    }
  }

  lemma ThreadsNamed<K, T>(live: map<K, Node<K, T>>, nodes: seq<Node<K, T>>, keys: seq<K>)
    requires Keyed(live) && Threads(live, nodes, keys)
    ensures forall n :: n in nodes ==> n.key in keys && n.key in live && live[n.key] == n
  {
    forall n | n in nodes
      ensures n.key in keys && n.key in live && live[n.key] == n
    {
      var i :| 0 <= i < |nodes| && nodes[i] == n;
      assert keys[i] in keys;
    }
  }

  class NodeList<K, T> {
    var head: Node?<K, T>
    var tail: Node?<K, T>
    var len: int
    ghost var nodes: seq<Node<K, T>>

    ghost predicate Valid()
      reads this, nodes`prev, nodes`next
    {
      && len == |nodes|
      && Distinct(nodes)
      && head == (if nodes == [] then null else nodes[0])
      && tail == (if nodes == [] then null else nodes[|nodes| - 1])
      && Linked(nodes)
    }

    constructor ()
      ensures Valid() && nodes == []
    {
      head, tail, len, nodes := null, null, 0, [];
    }

    method PushFront(node: Node<K, T>)
      requires Valid() && node !in nodes
      modifies this, node`prev, node`next, nodes`prev
      ensures Valid() && nodes == [node] + old(nodes)
    {
      node.prev := null;
      node.next := head;
      if head != null {
        head.prev := node;
      }
      head := node;
      if tail == null {
        tail := node;
      }
      len := len + 1;
      nodes := [node] + nodes;
      assert forall i :: 0 < i < |nodes| ==> nodes[i] == old(nodes)[i - 1];
      assert forall i :: 0 <= i < |old(nodes)| ==> old(nodes)[i].next == old(nodes[i].next);
    }

    method Remove(node: Node<K, T>)
      requires Valid() && node in nodes
      modifies this, nodes`prev, nodes`next
      ensures Valid() && nodes == Without(old(nodes), node)
      ensures node.prev == null && node.next == null
    {
      hide Without;
      ghost var i :| 0 <= i < |nodes| && nodes[i] == node;
      ghost var was, rest := nodes, Without(nodes, node);
      WithoutAt(was, i);
      ghost var before := if i == 0 then null else was[i - 1];
      ghost var after := if i == |was| - 1 then null else was[i + 1];
      assert node.prev == before && node.next == after;
      if node.prev != null {
        node.prev.next := node.next;
      } else {
        head := node.next;
      }
      if node.next != null {
        node.next.prev := node.prev;
      } else {
        tail := node.prev;
      }
      node.prev := null;
      node.next := null;
      len := len - 1;
      nodes := rest;
      BridgedIsLinked(was, i);
    }
  }

  ghost predicate HeldAt<K, T>(l: NodeList<K, T>, nodes: seq<Node<K, T>>, pool: set<Node<K, T>>)
    reads l, pool`prev, pool`next
  {
    l.nodes == nodes && (forall n :: n in nodes ==> n in pool) && l.Valid()
  }

  /** Separate well-formed lists of `shelf`, list `f` holding exactly `seqs[f]`, with all nodes taken from `pool`. */
  ghost predicate Held<K, T>(lists: map<int, NodeList<K, T>>, seqs: map<int, seq<Node<K, T>>>,
                             shelf: set<NodeList<K, T>>, pool: set<Node<K, T>>)
    reads shelf, pool`prev, pool`next
  {
    && lists.Keys == seqs.Keys
    && (forall f, g :: f in lists && g in lists && f != g ==> lists[f] != lists[g])
    && (forall f :: f in lists ==> lists[f] in shelf && HeldAt(lists[f], seqs[f], pool))
  }

  ghost predicate Disjoint<K, T>(seqs: map<int, seq<Node<K, T>>>) {
    forall f, g, n :: f in seqs && g in seqs && f != g && n in seqs[f] ==> n !in seqs[g]
  }

  /** Removal from one of several disjoint lists leaves the others as they were. */
  method Detach<K, T>(lists: map<int, NodeList<K, T>>, f: int, node: Node<K, T>,
                      ghost seqs: map<int, seq<Node<K, T>>>,
                      ghost shelf: set<NodeList<K, T>>, ghost pool: set<Node<K, T>>)
    requires Held(lists, seqs, shelf, pool) && Disjoint(seqs) && f in lists && node in seqs[f]
    modifies lists[f], seqs[f]`prev, seqs[f]`next
    ensures Held(lists, seqs[f := Without(seqs[f], node)], shelf, pool)
  {
    hide Without, Linked, Distinct;
    assert HeldAt(lists[f], seqs[f], pool);
    ghost var left := Without(seqs[f], node);
    WithoutMembers(seqs[f], node);
    assert forall n :: n in left ==> n in seqs[f];
    lists[f].Remove(node);
    assert HeldAt(lists[f], left, pool);
    forall g | g in lists && g != f
      ensures HeldAt(lists[g], seqs[g], pool)
    {
      assert old(HeldAt(lists[g], seqs[g], pool));
      forall i | 0 <= i < |seqs[g]|
        ensures seqs[g][i].prev == old(seqs[g][i].prev) && seqs[g][i].next == old(seqs[g][i].next)
      {
        assert seqs[g][i] in seqs[g];
      }
    }
  }

  /** Likewise for pushing a node that none of the lists holds. */
  method Attach<K, T>(lists: map<int, NodeList<K, T>>, f: int, node: Node<K, T>,
                      ghost seqs: map<int, seq<Node<K, T>>>,
                      ghost shelf: set<NodeList<K, T>>, ghost pool: set<Node<K, T>>)
    requires Held(lists, seqs, shelf, pool) && Disjoint(seqs) && f in lists && node in pool
    requires forall g :: g in seqs ==> node !in seqs[g]
    modifies lists[f], node`prev, node`next, seqs[f]`prev
    ensures Held(lists, seqs[f := [node] + seqs[f]], shelf, pool)
  {
    hide Linked, Distinct;
    assert HeldAt(lists[f], seqs[f], pool);
    lists[f].PushFront(node);
    forall g | g in lists && g != f
      ensures HeldAt(lists[g], seqs[g], pool)
    {
      assert old(HeldAt(lists[g], seqs[g], pool));
      forall i | 0 <= i < |seqs[g]|
        ensures seqs[g][i].prev == old(seqs[g][i].prev) && seqs[g][i].next == old(seqs[g][i].next)
      {
        assert seqs[g][i] in seqs[g];
      }
    }
  }
}
