/** The LRU and FIFO caches as the program keeps them: a map of nodes threaded on one linked list. */
module QueueCache {
  import opened Common
  import opened NodeLists
  import M = QueueModel
  import N = NaiveCache

  ghost predicate NodeOk<K, T>(n: Node<K, T>, i: M.Slot<T>)
    reads n`value, n`expiration
  {
    i == M.Slot(n.value, n.expiration)
  }

  /** The nodes come from `pool`, and their fields are what `items` says. */
  ghost predicate Fields<K, T>(live: map<K, Node<K, T>>, items: map<K, M.Slot<T>>, pool: set<Node<K, T>>)
    reads pool`value, pool`expiration
  {
    live.Keys == items.Keys && forall k :: k in live ==> live[k] in pool && NodeOk(live[k], items[k])
  }

  lemma FieldsPlus<K, T>(live: map<K, Node<K, T>>, items: map<K, M.Slot<T>>, pool: set<Node<K, T>>, node: Node<K, T>)
    requires Fields(live, items, pool) && node in pool
    ensures Fields(live[node.key := node], items[node.key := M.Slot(node.value, node.expiration)], pool)
  {
  }

  lemma FieldsMinus<K, T>(live: map<K, Node<K, T>>, items: map<K, M.Slot<T>>, pool: set<Node<K, T>>, k: K)
    requires Fields(live, items, pool)
    ensures Fields(live - {k}, items - {k}, pool)
    ensures Keyed(live) && k in live ==> Fields(live - {k}, items - {k}, pool - {live[k]})
  {
  }

  lemma FieldsWiden<K, T>(live: map<K, Node<K, T>>, items: map<K, M.Slot<T>>, pool: set<Node<K, T>>,
                          pool': set<Node<K, T>>)
    requires Fields(live, items, pool) && pool <= pool'
    ensures Fields(live, items, pool')
  {
  }

  /** `recency` is true for the LRU cache and false for the FIFO cache; the two differ in nothing else. */
  class Cache<K(==), T> {
    const recency: bool
    const capacity: nat
    const list: NodeList<K, T>
    var items: map<K, Node<K, T>>
    ghost var model: M.Queue<K, T>
    ghost var pool: set<Node<K, T>>

    ghost predicate Rep(live: map<K, Node<K, T>>, m: M.Queue<K, T>)
      reads this`pool, list, pool
    {
      && m.recency == recency && m.capacity == capacity
      && Keyed(live) && Fields(live, m.items, pool)
      && Threads(live, list.nodes, m.order)
      && HeldAt(list, list.nodes, pool)
    }

    ghost predicate Valid()
      reads this, list, pool
    {
      Rep(items, model) && M.Valid(model)
    }

    constructor (recency: bool, capacity: int)
      ensures Valid() && model == M.Empty(recency, if capacity <= 0 then 128 else capacity)
      ensures pool == {} && fresh(list)
    {
      this.recency := recency;
      this.capacity := if capacity <= 0 then 128 else capacity;
      list := new NodeList();
      items := map[];
      pool := {};
      model := M.Empty(recency, if capacity <= 0 then 128 else capacity);
    }

    lemma RepKeys(live: map<K, Node<K, T>>, m: M.Queue<K, T>)
      requires Rep(live, m)
      ensures m.items.Keys == live.Keys && m.recency == recency && m.capacity == capacity
    {
    }

    lemma RepAt(live: map<K, Node<K, T>>, m: M.Queue<K, T>, k: K)
      requires Rep(live, m) && M.Lists(m) && k in live
      ensures k in m.items && live[k] in pool && live[k].key == k && live[k] in list.nodes
      ensures m.items[k] == M.Slot(live[k].value, live[k].expiration)
    {
      assert NodeOk(live[k], m.items[k]);
      var i :| 0 <= i < |m.order| && m.order[i] == k;
      assert list.nodes[i] == live[k];
    }

    /** Takes the node off the list; the map still names it. */
    method RemoveNode(node: Node<K, T>)
      requires Rep(items, model) && M.Lists(model) && node.key in items && items[node.key] == node
      modifies list, pool`prev, pool`next
      ensures Rep(items - {node.key}, M.Remove(model, node.key))
    {
      hide M.Lists, Fields, Threads, Without;
      ghost var k := node.key;
      RepAt(items, model, k);
      FieldsMinus(items, model.items, pool, k);
      ThreadsWithout(items, list.nodes, model.order, k);
      WithoutMembers(list.nodes, node);
      list.Remove(node);
    }

    method AddToFront(node: Node<K, T>, ghost live: map<K, Node<K, T>>, ghost m: M.Queue<K, T>)
      requires Rep(live, m) && node.key !in live && node in pool
      modifies list, pool`prev, pool`next
      ensures Rep(live[node.key := node], M.Insert(m, node.key, node.value, node.expiration))
    {
      hide Fields, Linked;
      FieldsPlus(live, m.items, pool, node);
      ThreadsNamed(live, list.nodes, m.order);
      list.PushFront(node);
    }

    method MoveToFront(node: Node<K, T>)
      requires Rep(items, model) && M.Lists(model) && node.key in items && items[node.key] == node && recency
      modifies list, pool`prev, pool`next
      ensures Rep(items, M.Touch(model, node.key))
    {
      hide Linked, Without, Fields;
      ghost var k := node.key;
      RepAt(items, model, k);
      if list.head == node {
        assert model.order[0] == k;
        AlreadyFirst(model, k);
        return;
      }
      ghost var live := items - {k};
      assert items == live[k := node];
      assert model.items == (model.items - {k})[k := model.items[k]];
      RemoveNode(node);
      AddToFront(node, live, M.Remove(model, k));
    }

    lemma AlreadyFirst(m: M.Queue<K, T>, k: K)
      requires m.order != [] && m.order[0] == k && M.Lists(m)
      ensures M.Touch(m, k) == m
    {
      assert m.order == [k] + m.order[1..];
    }

    method EvictOldest()
      requires Rep(items, model) && M.Lists(model)
      modifies this`items, list, pool`prev, pool`next
      ensures Rep(items, M.Evict(model)) && items.Keys <= old(items.Keys)
    {
      hide M.Remove;
      if list.tail == null {
        return;
      }
      var oldest: Node<K, T> := list.tail;
      assert oldest.key == model.order[|model.order| - 1];
      RemoveNode(oldest);
      items := items - {oldest.key};
    }

    method Get(key: K, now: nat) returns (value: Option<T>)
      requires Valid()
      modifies this, list, pool
      ensures Valid() && (model, value) == M.Step(old(model), N.Get(key, now))
      ensures pool == old(pool)
    {
      hide M.Lists, M.Remove, Rep;
      M.StepValid(model, N.Get(key, now));
      RepKeys(items, model);
      if key !in items {
        return None;
      }
      var node := items[key];
      RepAt(items, model, key);
      if node.expiration > 0 && node.expiration <= now {
        RemoveNode(node);
        items, model := items - {key}, M.Remove(model, key);
        return None;
      }
      if recency {
        MoveToFront(node);
      }
      model := M.Touch(model, key);
      return Some(node.value);
    }

    method Overwrite(node: Node<K, T>, value: T, expiration: nat)
      requires Rep(items, model) && M.Lists(model) && node.key in items && items[node.key] == node
      modifies this`model, node`value, node`expiration
      ensures Rep(items, model) && model == M.Overwrite(old(model), node.key, value, expiration)
    {
      hide Fields, Threads, HeldAt, M.Lists;
      RepAt(items, model, node.key);
      ghost var k, live := node.key, items - {node.key};
      ghost var rest := model.items - {k};
      assert items == live[k := node];
      FieldsMinus(items, model.items, pool, k);
      node.value := value;
      node.expiration := expiration;
      FieldsWiden(live, rest, pool - {node}, pool);
      FieldsPlus(live, rest, pool, node);
      model := M.Overwrite(model, k, value, expiration);
      assert model.items == rest[k := M.Slot(value, expiration)];
    }

    method Set(key: K, value: T, ttl: int, now: nat)
      requires Valid()
      modifies this, list, pool
      ensures Valid() && (model, None) == M.Step(old(model), N.Set(key, value, ttl, now))
      ensures fresh(pool - old(pool))
    {
      hide M.Lists, M.Evict, Rep;
      var expiration := N.Expiry(ttl, now);
      M.StepValid(model, N.Set(key, value, ttl, now));
      RepKeys(items, model);
      if key in items {
        RepAt(items, model, key);
        M.OverwriteLists(model, key, value, expiration);
        Overwrite(items[key], value, expiration);
        if recency {
          MoveToFront(items[key]);
        }
        model := M.Touch(model, key);
        return;
      }
      assert |items| == |items.Keys| == |model.items.Keys| == |model.items|;
      if |items| >= capacity {
        M.EvictLists(model);
        EvictOldest();
        model := M.Evict(model);
      }
      Insert(key, value, expiration);
    }

    method Insert(key: K, value: T, expiration: nat)
      requires Rep(items, model) && key !in items
      modifies this, list, pool`prev, pool`next
      ensures Rep(items, model) && model == M.Insert(old(model), key, value, expiration)
      ensures key in items && fresh(items[key]) && pool == old(pool) + {items[key]}
    {
      hide M.Insert, Fields, Threads;
      var newNode := new Node(key, value, 0, expiration);
      FieldsWiden(items, model.items, pool, pool + {newNode});
      pool := pool + {newNode};
      AddToFront(newNode, items, model);
      items, model := items[key := newNode], M.Insert(model, key, value, expiration);
    }

    method Delete(key: K)
      requires Valid()
      modifies this, list, pool
      ensures Valid() && (model, None) == M.Step(old(model), N.Delete(key))
      ensures pool == old(pool)
    {
      hide M.Lists, M.Remove, Rep;
      M.StepValid(model, N.Delete(key));
      RepKeys(items, model);
      if key in items {
        RepAt(items, model, key);
        RemoveNode(items[key]);
        items, model := items - {key}, M.Remove(model, key);
      }
    }

    method Len() returns (n: nat)
      requires Valid()
      ensures n == |model.items| && n <= capacity
    {
      n := |items|;
      assert |items| == |items.Keys| == |model.items.Keys| == |model.items|;
    }
  }
}
