/**
 What a Get is answered, told from the calls alone: the last value set, until it expires, is deleted or is evicted.
 */
module CacheMemory {
  import opened Common
  import opened NaiveCache

  /** No call sets or deletes `k`. */
  ghost predicate LeftAlone<K, T>(ops: seq<Op<K, T>>, k: K) {
    forall i :: 0 <= i < |ops| && !ops[i].Get? ==> ops[i].key != k
  }

  /** Whoever asks for `k` in between does so no later than `until`. */
  ghost predicate AskedBy<K, T>(ops: seq<Op<K, T>>, k: K, until: nat) {
    forall i :: 0 <= i < |ops| && ops[i].Get? && ops[i].key == k ==> ops[i].now <= until
  }

  /** Setting another key drops `k` to make room. */
  ghost predicate Drops<K, T>(c: Naive<K, T>, op: Op<K, T>, k: K) {
    op.Set? && op.key != k && k in c.entries && k !in Step(c, op).0.entries
  }

  ghost predicate NeverDropped<K, T>(c: Naive<K, T>, ops: seq<Op<K, T>>, k: K)
    decreases |ops|
  {
    ops == [] || (!Drops(c, ops[0], k) && NeverDropped(Step(c, ops[0]).0, ops[1..], k))
  }

  /** What a Get at `u` should say of a value that was set at `t`. */
  ghost function Expected<T>(v: T, ttl: int, t: nat, u: nat): Option<T> {
    if ttl <= 0 || u < t + ttl then Some(v) else None
  }

  /** `k` is stored with `v` and dies when it should, or it is gone and should be dead by `until`. */
  ghost predicate Keeps<K, T>(c: Naive<K, T>, k: K, v: T, ttl: int, t: nat, until: nat) {
    if k in c.entries then
      c.entries[k].value == v && c.entries[k].expiration == (if ttl > 0 then t + ttl else 0)
    else ttl > 0 && t + ttl <= until
  }

  lemma SetKeeps<K, T>(c: Naive<K, T>, k: K, v: T, ttl: int, t: nat, until: nat)
    ensures Keeps(Step(c, Set(k, v, ttl, t)).0, k, v, ttl, t, until)
  {
  }

  lemma StepKeeps<K, T>(c: Naive<K, T>, op: Op<K, T>, k: K, v: T, ttl: int, t: nat, until: nat)
    requires Keeps(c, k, v, ttl, t, until) && !Drops(c, op, k) && LeftAlone([op], k) && AskedBy([op], k, until)
    ensures Keeps(Step(c, op).0, k, v, ttl, t, until)
  {
    assert [op][0] == op;
    var d := Step(c, op).0;
    if op.Set? && op.key !in c.entries && k !in c.entries {
      EvictKeepsOut(c, k);
    } else if op.Set? && k in c.entries {
      EvictKeepsEntries(c, k);
    }
  }

  lemma EvictKeepsOut<K, T>(c: Naive<K, T>, k: K)
    requires k !in c.entries
    ensures k !in Evict(c).entries
  {
  }

  lemma EvictKeepsEntries<K, T>(c: Naive<K, T>, k: K)
    requires k in c.entries
    ensures k in Evict(c).entries ==> Evict(c).entries[k] == c.entries[k]
  {
  }

  lemma {:induction false} RunKeeps<K, T>(c: Naive<K, T>, ops: seq<Op<K, T>>, k: K, v: T, ttl: int, t: nat, until: nat)
    requires Keeps(c, k, v, ttl, t, until)
    requires LeftAlone(ops, k) && AskedBy(ops, k, until) && NeverDropped(c, ops, k)
    ensures Keeps(Run(c, ops).0, k, v, ttl, t, until)
    decreases |ops|
  {
    hide Keeps, Step, Drops;
    if ops != [] {
      StepKeeps(c, ops[0], k, v, ttl, t, until);
      RunKeeps(Step(c, ops[0]).0, ops[1..], k, v, ttl, t, until);
    }
  }

  lemma {:induction false} RunAppend<K, T>(c: Naive<K, T>, x: seq<Op<K, T>>, y: seq<Op<K, T>>)
    ensures Run(c, x + y).0 == Run(Run(c, x).0, y).0
    ensures Run(c, x + y).1 == Run(c, x).1 + Run(Run(c, x).0, y).1 && |Run(c, x).1| == |x|
    decreases |x|
  {
    hide Step;
    if x == [] {
      assert x + y == y;
    } else {
      assert (x + y)[1..] == x[1..] + y;
      RunAppend(Step(c, x[0]).0, x[1..], y);
    }
  }

  lemma RunOne<K, T>(c: Naive<K, T>, op: Op<K, T>)
    ensures Run(c, [op]) == (Step(c, op).0, [Step(c, op).1])
  {
    hide Step;
    assert [op][1..] == [];
    assert Run(Step(c, op).0, []) == (Step(c, op).0, []);
    assert [Step(c, op).1] + [] == [Step(c, op).1];
  }

  /** A run that sets `k`, leaves it alone, and asks for it. */
  function SetThenGet<K, T>(before: seq<Op<K, T>>, k: K, v: T, ttl: int, t: nat, between: seq<Op<K, T>>, u: nat)
    : (ops: seq<Op<K, T>>)
    ensures |ops| == |before| + |between| + 2
  {
    before + [Set(k, v, ttl, t)] + between + [Get(k, u)]
  }

  /** The calls in between neither touch `k` nor have it evicted, and the clock does not run backward. */
  ghost predicate Undisturbed<K, T>(policy: Policy, capacity: nat, before: seq<Op<K, T>>, k: K, v: T, ttl: int, t: nat,
                                    between: seq<Op<K, T>>, u: nat)
  {
    var c := Run(Empty<K, T>(policy, capacity), before + [Set(k, v, ttl, t)]).0;
    LeftAlone(between, k) && AskedBy(between, k, u) && NeverDropped(c, between, k)
  }

  /** Under every policy and after any run: the last answer is the value that was set, until its time is up. */
  lemma LastAnswer<K, T>(policy: Policy, capacity: nat, before: seq<Op<K, T>>, k: K, v: T, ttl: int, t: nat,
                         between: seq<Op<K, T>>, u: nat)
    requires Undisturbed(policy, capacity, before, k, v, ttl, t, between, u)
    ensures var ops := SetThenGet(before, k, v, ttl, t, between, u);
            var answers := Run(Empty<K, T>(policy, capacity), ops).1;
            |answers| == |ops| && answers[|ops| - 1] == Expected(v, ttl, t, u)
  {
    hide Run, Step;
    var start, put := Empty<K, T>(policy, capacity), Set(k, v, ttl, t);
    var c := Run(start, before).0;
    RunOne(c, put);
    RunAppend(start, before, [put]);
    SetKeeps(c, k, v, ttl, t, u);
    var d := Step(c, put).0;
    RunKeeps(d, between, k, v, ttl, t, u);
    RunAppend(start, before + [put], between);
    var e := Run(d, between).0;
    AskKept(e, k, v, ttl, t, u);
    RunOne(e, Get(k, u));
    RunAppend(start, before + [put] + between, [Get(k, u)]);
  }

  /** In particular right after it was set in an empty cache. */
  lemma SetGet<K, T>(policy: Policy, capacity: nat, k: K, v: T, ttl: int, t: nat, u: nat)
    ensures Run(Empty<K, T>(policy, capacity), [Set(k, v, ttl, t), Get(k, u)]).1 ==
            [None, if ttl <= 0 || u < t + ttl then Some(v) else None]
  {
    hide Run, Step;
    var start, put := Empty<K, T>(policy, capacity), Set(k, v, ttl, t);
    var c := Step(start, put).0;
    SetKeeps(start, k, v, ttl, t, u);
    SetSaysNothing(start, k, v, ttl, t);
    AskKept(c, k, v, ttl, t, u);
    RunOne(start, put);
    RunOne(c, Get(k, u));
    RunAppend(start, [put], [Get(k, u)]);
    assert [put] + [Get(k, u)] == [put, Get(k, u)];
  }

  lemma SetSaysNothing<K, T>(c: Naive<K, T>, k: K, v: T, ttl: int, t: nat)
    ensures Step(c, Set(k, v, ttl, t)).1 == None
  {
  }

  lemma AskKept<K, T>(c: Naive<K, T>, k: K, v: T, ttl: int, t: nat, u: nat)
    requires Keeps(c, k, v, ttl, t, u)
    ensures Step(c, Get(k, u)).1 == Expected(v, ttl, t, u)
  {
  }

  /** A key that has been deleted, or was never set, is not found until it is set again. */
  lemma {:induction false} GoneStaysGone<K, T>(c: Naive<K, T>, ops: seq<Op<K, T>>, k: K, u: nat)
    requires k !in c.entries && forall i :: 0 <= i < |ops| && ops[i].Set? ==> ops[i].key != k
    ensures k !in Run(c, ops).0.entries && Step(Run(c, ops).0, Get(k, u)).1 == None
    decreases |ops|
  {
    if ops != [] {
      var op := ops[0];
      if op.Set? && op.key !in c.entries {
        EvictKeepsOut(c, k);
      }
      GoneStaysGone(Step(c, op).0, ops[1..], k, u);
    }
  }

  lemma DeleteForgets<K, T>(policy: Policy, capacity: nat, before: seq<Op<K, T>>, k: K, between: seq<Op<K, T>>, u: nat)
    requires forall i :: 0 <= i < |between| && between[i].Set? ==> between[i].key != k
    ensures var ops := before + [Delete(k)] + between + [Get(k, u)];
            var answers := Run(Empty<K, T>(policy, capacity), ops).1;
            |answers| == |ops| && answers[|ops| - 1] == None
  {
    hide Run, Step;
    var start, del := Empty<K, T>(policy, capacity), Delete(k);
    var c := Run(start, before).0;
    RunOne(c, del);
    RunAppend(start, before, [del]);
    DeleteDrops(c, k);
    GoneStaysGone(Step(c, del).0, between, k, u);
    RunAppend(start, before + [del], between);
    RunOne(Run(Step(c, del).0, between).0, Get(k, u));
    RunAppend(start, before + [del] + between, [Get(k, u)]);
  }

  lemma DeleteDrops<K, T>(c: Naive<K, T>, k: K)
    ensures k !in Step(c, Delete(k)).0.entries
  {
  }
}
