/** The linked caches, driven through any list of calls, answer as the scanning reference does. */
module CacheReplay {
  import opened Common
  import N = NaiveCache
  import L = LfuCache
  import LM = LfuModel
  import LR = LfuRefinement
  import Q = QueueCache
  import QM = QueueModel
  import QR = QueueRefinement
  import Mem = CacheMemory

  function Effective(capacity: int): (c: nat)
    ensures 1 <= c
  {
    if capacity <= 0 then 128 else capacity
  }

  lemma LfuRunFrom<K, T>(s: LM.Lfu<K, T>, ops: seq<N.Op<K, T>>, i: nat)
    requires i <= |ops|
    ensures i == |ops| ==> LM.Run(s, ops[i..]) == (s, [])
    ensures i < |ops| ==>
              var (t, answer) := LM.Step(s, ops[i]);
              var rest := LM.Run(t, ops[i + 1..]);
              LM.Run(s, ops[i..]) == (rest.0, [answer] + rest.1)
  {
    hide LM.Step;
    if i < |ops| {
      assert ops[i..][1..] == ops[i + 1..];
    }
  }

  method DoLfu<K(==), T>(c: L.Cache<K, T>, op: N.Op<K, T>) returns (answer: Option<T>)
    requires c.Valid()
    modifies c, c.shelf, c.pool
    ensures c.Valid() && (c.model, answer) == LM.Step(old(c.model), op)
    ensures fresh(c.shelf - old(c.shelf)) && fresh(c.pool - old(c.pool))
  {
    hide LM.Step;
    answer := None;
    match op {
      case Get(k, now) => answer := c.Get(k, now);
      case Set(k, v, ttl, now) => c.Set(k, v, ttl, now);
      case Delete(k) => c.Delete(k);
    }
  }

  method ReplayLfu<K(==), T>(capacity: int, ops: seq<N.Op<K, T>>) returns (answers: seq<Option<T>>, len: nat)
    ensures var end := N.Run(N.Empty<K, T>(N.LeastFrequent, Effective(capacity)), ops);
            answers == end.1 && len == |end.0.entries| && len <= Effective(capacity)
  {
    hide LM.Step, LM.Run, LM.Valid, N.Step, N.Run, LR.Agrees, LM.MinFreqSound;
    var c := new L.Cache<K, T>(capacity);
    answers := [];
    ghost var start := LM.Empty<K, T>(Effective(capacity));
    assert ops[0..] == ops;
    for i := 0 to |ops|
      invariant c.Valid() && fresh(c) && fresh(c.shelf) && fresh(c.pool)
      invariant LM.Run(start, ops).0 == LM.Run(c.model, ops[i..]).0
      invariant LM.Run(start, ops).1 == answers + LM.Run(c.model, ops[i..]).1
    {
      LfuRunFrom(c.model, ops, i);
      var answer := DoLfu(c, ops[i]);
      answers := answers + [answer];
    }
    LfuRunFrom(c.model, ops, |ops|);
    LR.LfuRefinesScan<K, T>(Effective(capacity), ops);
    len := c.Len();
  }

  lemma QueueRunFrom<K, T>(s: QM.Queue<K, T>, ops: seq<N.Op<K, T>>, i: nat)
    requires i <= |ops|
    ensures i == |ops| ==> QM.Run(s, ops[i..]) == (s, [])
    ensures i < |ops| ==>
              var (t, answer) := QM.Step(s, ops[i]);
              var rest := QM.Run(t, ops[i + 1..]);
              QM.Run(s, ops[i..]) == (rest.0, [answer] + rest.1)
  {
    hide QM.Step;
    if i < |ops| {
      assert ops[i..][1..] == ops[i + 1..];
    }
  }

  method DoQueue<K(==), T>(c: Q.Cache<K, T>, op: N.Op<K, T>) returns (answer: Option<T>)
    requires c.Valid()
    modifies c, c.list, c.pool
    ensures c.Valid() && (c.model, answer) == QM.Step(old(c.model), op)
    ensures fresh(c.pool - old(c.pool))
  {
    hide QM.Step;
    answer := None;
    match op {
      case Get(k, now) => answer := c.Get(k, now);
      case Set(k, v, ttl, now) => c.Set(k, v, ttl, now);
      case Delete(k) => c.Delete(k);
    }
  }

  /** `recency` selects the LRU cache; otherwise it is the FIFO cache. */
  method ReplayQueue<K(==), T>(recency: bool, capacity: int, ops: seq<N.Op<K, T>>)
    returns (answers: seq<Option<T>>, len: nat)
    ensures var end := N.Run(N.Empty<K, T>(QR.PolicyOf(recency), Effective(capacity)), ops);
            answers == end.1 && len == |end.0.entries| && len <= Effective(capacity)
  {
    hide QM.Step, QM.Run, QM.Valid, QM.Lists, N.Step, N.Run, N.Dates, QR.Agrees;
    var c := new Q.Cache<K, T>(recency, capacity);
    answers := [];
    ghost var start := QM.Empty<K, T>(recency, Effective(capacity));
    assert ops[0..] == ops;
    for i := 0 to |ops|
      invariant c.Valid() && fresh(c) && fresh(c.list) && fresh(c.pool)
      invariant QM.Run(start, ops).0 == QM.Run(c.model, ops[i..]).0
      invariant QM.Run(start, ops).1 == answers + QM.Run(c.model, ops[i..]).1
    {
      QueueRunFrom(c.model, ops, i);
      var answer := DoQueue(c, ops[i]);
      answers := answers + [answer];
    }
    QueueRunFrom(c.model, ops, |ops|);
    QR.QueueRefinesScan<K, T>(recency, Effective(capacity), ops);
    len := c.Len();
  }

  /** The linked LFU cache gives back what was set last, until its time is up, as long as it is not evicted. */
  method AskLfu<K(==), T>(capacity: int, before: seq<N.Op<K, T>>, k: K, v: T, ttl: int, t: nat,
                          between: seq<N.Op<K, T>>, u: nat)
    returns (answer: Option<T>)
    requires Mem.Undisturbed(N.LeastFrequent, Effective(capacity), before, k, v, ttl, t, between, u)
    ensures answer == if ttl <= 0 || u < t + ttl then Some(v) else None
  {
    hide Mem.Undisturbed, N.Run;
    var ops := Mem.SetThenGet(before, k, v, ttl, t, between, u);
    Mem.LastAnswer(N.LeastFrequent, Effective(capacity), before, k, v, ttl, t, between, u);
    var answers, _ := ReplayLfu(capacity, ops);
    answer := answers[|ops| - 1];
  }

  /** So do the linked LRU and FIFO caches. */
  method AskQueue<K(==), T>(recency: bool, capacity: int, before: seq<N.Op<K, T>>, k: K, v: T, ttl: int, t: nat,
                            between: seq<N.Op<K, T>>, u: nat)
    returns (answer: Option<T>)
    requires Mem.Undisturbed(QR.PolicyOf(recency), Effective(capacity), before, k, v, ttl, t, between, u)
    ensures answer == if ttl <= 0 || u < t + ttl then Some(v) else None
  {
    hide Mem.Undisturbed, N.Run;
    var ops := Mem.SetThenGet(before, k, v, ttl, t, between, u);
    Mem.LastAnswer(QR.PolicyOf(recency), Effective(capacity), before, k, v, ttl, t, between, u);
    var answers, _ := ReplayQueue(recency, capacity, ops);
    answer := answers[|ops| - 1];
  }
}
