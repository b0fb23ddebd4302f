/** Runs of the registry put together call by call, and the runs in which a collection shows. */
module RegistryRuns {
  import opened Registry

  // ----- runs in pieces -----

  lemma {:induction false} RunAppend<Id, B>(p: Policy<B>, gc: bool, s: State<Id, B>, x: seq<Action<Id>>,
                                            y: seq<Action<Id>>)
    ensures var t := Run(p, gc, s, x);
            && Run(p, gc, s, x + y) == Run(p, gc, t, y)
            && |Answers(p, gc, s, x)| == |x|
            && Answers(p, gc, s, x + y) == Answers(p, gc, s, x) + Answers(p, gc, t, y)
    decreases |x|
  {
    hide Step;
    if x == [] {
      assert x + y == y;
    } else {
      assert (x + y)[1..] == x[1..] + y;
      RunAppend(p, gc, Step(p, gc, s, x[0]).0, x[1..], y);
    }
  }

  lemma {:induction false} DisciplineAppend<Id, B>(p: Policy<B>, sch: Schedule, s: State<Id, B>,
                                                   x: seq<Action<Id>>, y: seq<Action<Id>>)
    requires DisciplinedRun(p, sch, s, x) && DisciplinedRun(p, sch, Run(p, true, s, x), y)
    ensures DisciplinedRun(p, sch, s, x + y)
    decreases |x|
  {
    hide Step, Permitted, Disciplined;
    if x == [] {
      assert x + y == y;
    } else {
      assert (x + y)[1..] == x[1..] + y;
      DisciplineAppend(p, sch, Step(p, true, s, x[0]).0, x[1..], y);
    }
  }

  lemma RunOne<Id, B>(p: Policy<B>, gc: bool, s: State<Id, B>, a: Action<Id>)
    ensures Run(p, gc, s, [a]) == Step(p, gc, s, a).0 && Answers(p, gc, s, [a]) == [Step(p, gc, s, a).1]
  {
    hide Step;
    assert [a][1..] == [];
    assert Run(p, gc, Step(p, gc, s, a).0, []) == Step(p, gc, s, a).0;
    assert Answers(p, gc, Step(p, gc, s, a).0, []) == [];
  }

  lemma RunTwo<Id, B>(p: Policy<B>, gc: bool, s: State<Id, B>, a: Action<Id>, b: Action<Id>)
    ensures var (t, x) := Step(p, gc, s, a);
            var (v, y) := Step(p, gc, t, b);
            Run(p, gc, s, [a, b]) == v && Answers(p, gc, s, [a, b]) == [x, y]
  {
    hide Step, Run, Answers;
    RunOne(p, gc, s, a);
    RunOne(p, gc, Step(p, gc, s, a).0, b);
    RunAppend(p, gc, s, [a], [b]);
    assert [a] + [b] == [a, b];
  }

  lemma {:induction false} FittingAppend<Id, B>(p: Policy<B>, gc: bool, s: State<Id, B>,
                                               x: seq<Action<Id>>, y: seq<Action<Id>>)
    requires FittingRun(p, gc, s, x) && FittingRun(p, gc, Run(p, gc, s, x), y)
    ensures FittingRun(p, gc, s, x + y)
    decreases |x|
  {
    hide Step, Fits;
    if x == [] {
      assert x + y == y;
    } else {
      assert (x + y)[1..] == x[1..] + y;
      FittingAppend(p, gc, Step(p, gc, s, x[0]).0, x[1..], y);
    }
  }

  lemma {:induction false} LapseAfter<Id, B>(p: Policy<B>, s: State<Id, B>, x: seq<Action<Id>>, y: seq<Action<Id>>,
                                             i: nat)
    requires DisciplinedRun(p, ANY, s, x) && OneLapse(p, Run(p, true, s, x), y, i)
    ensures OneLapse(p, s, x + y, |x| + i)
    decreases |x|
  {
    hide Step, Disciplined, Permitted;
    if x == [] {
      assert x + y == y;
    } else {
      assert (x + y)[1..] == x[1..] + y;
      LapseAfter(p, Step(p, true, s, x[0]).0, x[1..], y, i);
    }
  }

  lemma LapseThen<Id, B>(p: Policy<B>, s: State<Id, B>, a: Action<Id>, y: seq<Action<Id>>)
    requires Fits(s, a) && !Disciplined(p, s, a) && DisciplinedRun(p, ANY, Step(p, true, s, a).0, y)
    ensures OneLapse(p, s, [a] + y, 0)
  {
    hide Step, Fits, Disciplined;
    assert ([a] + y)[1..] == y;
  }

  lemma FittingOne<Id, B>(p: Policy<B>, gc: bool, s: State<Id, B>, a: Action<Id>)
    requires Fits(s, a)
    ensures FittingRun(p, gc, s, [a])
  {
    hide Fits, Step;
    assert [a][1..] == [];
    assert FittingRun(p, gc, Step(p, gc, s, a).0, []);
  }

  // ----- a call with nobody in between -----

  function Call<Id>(c: nat, key: string, op: Op, id: Id): seq<Action<Id>> {
    [Look(c, key, op), Make(c, id), Use(c)]
  }

  /** Its three sections in a row are one call on the store. If the key is found, the second is skipped. */
  lemma CallRuns<Id, B>(p: Policy<B>, gc: bool, s: State<Id, B>, c: nat, key: string, op: Op, id: Id)
    requires At(s, c).Idle? && !Free(op)
    ensures var (t, answer) := WholeCall(p, gc, s.store, key, op, id, s.clock);
            && Run(p, gc, s, Call(c, key, op, id)) == Put(s.(store := t), c, Idle)
            && Answers(p, gc, s, Call(c, key, op, id)) == [Nothing, Nothing, answer]
  {
    hide Run, Answers, Collect;
    var s1 := Step(p, gc, s, Look(c, key, op)).0;
    var s2 := Step(p, gc, s1, Make(c, id)).0;
    var s3 := Step(p, gc, s2, Use(c)).0;
    RunTwo(p, gc, s, Look(c, key, op), Make(c, id));
    RunOne(p, gc, s2, Use(c));
    RunAppend(p, gc, s, [Look(c, key, op), Make(c, id)], [Use(c)]);
    assert [Look(c, key, op), Make(c, id)] + [Use(c)] == Call(c, key, op, id);
    assert s2.clients[c].Found? && s2.clients[c].op == op;
    assert s3.clients == s.clients[c := Idle];
  }

  lemma FoundRuns<Id, B>(p: Policy<B>, gc: bool, s: State<Id, B>, c: nat, key: string, op: Op)
    requires At(s, c).Idle? && !Free(op) && key in s.store.table
    ensures var (t, answer) := UseCell(p, s.store, s.store.table[key], op, s.clock);
            && Run(p, gc, s, [Look(c, key, op), Use(c)]) == Put(s.(store := t), c, Idle)
            && Answers(p, gc, s, [Look(c, key, op), Use(c)]) == [Nothing, answer]
  {
    hide Run, Answers;
    RunTwo(p, gc, s, Look(c, key, op), Use(c));
    var s2 := Step(p, gc, Step(p, gc, s, Look(c, key, op)).0, Use(c)).0;
    assert s2.clients == s.clients[c := Idle];
  }

  lemma CallDisciplined<Id, B>(p: Policy<B>, sch: Schedule, s: State<Id, B>, c: nat, key: string, op: Op, id: Id)
    requires AllIdle(s) && !Free(op) && key !in s.store.table && id !in s.store.cells && (op.Read? ==> sch.peeks)
    ensures DisciplinedRun(p, sch, s, Call(c, key, op, id))
  {
    var s1 := Step(p, true, s, Look(c, key, op)).0;
    var s2 := Step(p, true, s1, Make(c, id)).0;
    var last: seq<Action<Id>> := [Use(c)];
    assert last[1..] == [] && [Make(c, id), Use(c)][1..] == [Use(c)];
    assert Call(c, key, op, id)[1..] == [Make(c, id), Use(c)];
    assert forall d: nat :: d != c ==> At(s1, d) == At(s, d);
    assert forall d: nat :: !At(s1, d).Found?;
    assert DisciplinedRun(p, sch, Step(p, true, s2, Use(c)).0, []);
    assert DisciplinedRun(p, sch, s2, [Use(c)]);
    assert DisciplinedRun(p, sch, s1, [Make(c, id), Use(c)]);
  }

  lemma CallFits<Id, B>(p: Policy<B>, gc: bool, s: State<Id, B>, c: nat, key: string, op: Op, id: Id)
    requires At(s, c).Idle? && !Free(op) && id !in s.store.cells
    ensures FittingRun(p, gc, s, Call(c, key, op, id))
  {
    hide MakeCell;
    var s1 := Step(p, gc, s, Look(c, key, op)).0;
    var s2 := Step(p, gc, s1, Make(c, id)).0;
    var last: seq<Action<Id>> := [Use(c)];
    assert Call(c, key, op, id)[1..] == [Make(c, id), Use(c)] && [Make(c, id), Use(c)][1..] == last;
    assert At(s2, c).Found?;
    FittingOne(p, gc, s2, Use(c));
    assert FittingRun(p, gc, s1, [Make(c, id), Use(c)]);
  }

  /** A call amid others, when no collection is due. */
  lemma CallAmongOthers<Id, B>(p: Policy<B>, s: State<Id, B>, c: nat, key: string, op: Op, id: Id)
    requires At(s, c).Idle? && !Free(op) && id !in s.store.cells && s.clock - s.store.lastGC < p.gcInterval
    ensures DisciplinedRun(p, ANY, s, Call(c, key, op, id))
  {
    hide MakeCell, NothingHeldIsStale;
    var s1 := Step(p, true, s, Look(c, key, op)).0;
    var s2 := Step(p, true, s1, Make(c, id)).0;
    var last: seq<Action<Id>> := [Use(c)];
    assert Call(c, key, op, id)[1..] == [Make(c, id), Use(c)] && [Make(c, id), Use(c)][1..] == last;
    assert At(s2, c).Found?;
    OneDisciplined(p, ANY, s2, Use(c));
    assert DisciplinedRun(p, ANY, s1, [Make(c, id), Use(c)]);
  }

  lemma FoundDisciplined<Id, B>(p: Policy<B>, sch: Schedule, s: State<Id, B>, c: nat, key: string, op: Op)
    requires AllIdle(s) && !Free(op) && key in s.store.table && (op.Read? ==> sch.peeks)
    ensures DisciplinedRun(p, sch, s, [Look(c, key, op), Use(c)])
  {
    var s1 := Step(p, true, s, Look(c, key, op)).0;
    var last: seq<Action<Id>> := [Use(c)];
    assert last[1..] == [] && [Look(c, key, op), Use(c)][1..] == last;
    assert DisciplinedRun(p, sch, Step(p, true, s1, Use(c)).0, []);
    assert DisciplinedRun(p, sch, s1, [Use(c)]);
  }

  lemma OneDisciplined<Id, B>(p: Policy<B>, sch: Schedule, s: State<Id, B>, a: Action<Id>)
    requires Permitted(sch, s, a) && Disciplined(p, s, a)
    ensures DisciplinedRun(p, sch, s, [a])
  {
    hide Permitted, Disciplined;
    assert [a][1..] == [];
    assert DisciplinedRun(p, sch, Step(p, true, s, a).0, []);
  }

  // ----- a key that is used up, left alone, and collected -----

  /** The cell after `n` events at `t`, when it was new. */
  ghost function Spent<B>(p: Policy<B>, t: int, n: int): B {
    p.serve(p.blank(t), Allow(n), t).0
  }

  function Opening(wait: nat, gap: nat, n: int): seq<Action<nat>> {
    [Tick(wait)] + Call(0, "a", Allow(n), 0) + [Tick(gap)]
  }

  function Ready<B>(b: B, start: int, now: int): State<nat, B> {
    State(now, Store(map["a" := 0], map[0 := b], start), map[0 := Idle])
  }

  lemma OpeningRuns<B>(p: Policy<B>, gc: bool, sch: Schedule, start: int, wait: nat, gap: nat, n: int)
    requires 0 < n && wait < p.gcInterval
    ensures Run(p, gc, Start<nat, B>(start), Opening(wait, gap, n)) ==
            Ready(Spent(p, start + wait, n), start, start + wait + gap)
    ensures DisciplinedRun(p, sch, Start<nat, B>(start), Opening(wait, gap, n))
  {
    hide Run, Answers, DisciplinedRun;
    var x, y, z: seq<Action<nat>> := [Tick(wait)], Call(0, "a", Allow(n), 0), [Tick(gap)];
    var s := Start<nat, B>(start);
    var t := s.(clock := start + wait);
    var v := Ready(Spent(p, start + wait, n), start, start + wait);
    OpeningCall(p, gc, start, start + wait, n);
    OpeningCall(p, true, start, start + wait, n);
    RunOne(p, gc, s, Tick(wait));
    RunOne(p, true, s, Tick(wait));
    RunOne(p, gc, v, Tick(gap));
    RunAppend(p, gc, s, x, y);
    RunAppend(p, true, s, x, y);
    RunAppend(p, gc, s, x + y, z);
    OneDisciplined(p, sch, s, Tick(wait));
    CallDisciplined(p, sch, t, 0, "a", Allow(n), 0);
    OneDisciplined(p, sch, v, Tick(gap));
    DisciplineAppend(p, sch, s, x, y);
    DisciplineAppend(p, sch, s, x + y, z);
  }

  lemma OpeningCall<B>(p: Policy<B>, gc: bool, start: int, now: int, n: int)
    requires 0 < n && now - start < p.gcInterval
    ensures Run(p, gc, Start<nat, B>(start).(clock := now), Call(0, "a", Allow(n), 0)) ==
            Ready(Spent(p, now, n), start, now)
  {
    var s := Start<nat, B>(start).(clock := now);
    CallRuns(p, gc, s, 0, "a", Allow(n), 0);
    assert map[0 := p.blank(now)][0 := Spent(p, now, n)] == map[0 := Spent(p, now, n)];
  }

  /** The state after another key has come up: in the collecting limiter "a" is no longer found. */
  ghost function Swept<B>(p: Policy<B>, gc: bool, b: B, start: int, now: int, op: Op): State<nat, B> {
    State(now,
          Store(if gc then map["b" := 1] else map["a" := 0, "b" := 1],
                map[0 := b, 1 := p.serve(p.blank(now), op, now).0],
                if gc then now else start),
          map[0 := Idle, 1 := Idle])
  }

  ghost predicate Collectable<B>(p: Policy<B>, b: B, start: int, now: int) {
    p.gcInterval <= now - start && p.idle(b, now)
  }

  lemma SweepRuns<B>(p: Policy<B>, gc: bool, b: B, start: int, now: int, op: Op)
    requires Collectable(p, b, start, now) && !Free(op)
    ensures Run(p, gc, Ready(b, start, now), Call(1, "b", op, 1)) == Swept(p, gc, b, start, now, op)
  {
    var s := Ready(b, start, now);
    CallRuns(p, gc, s, 1, "b", op, 1);
    var c := Collect(p, s.store, now);
    assert Stale(p, s.store, "a", now);
    assert c.table == map[];
    var made := MakeCell(p, gc, s.store, "b", 1, now);
    assert made.1 == 1 && made.0.table == Swept(p, gc, b, start, now, op).store.table;
    assert UseCell(p, made.0, 1, op, now).0.cells == Swept(p, gc, b, start, now, op).store.cells;
  }

  function Prefix(wait: nat, gap: nat, n: int, op: Op): seq<Action<nat>> {
    Opening(wait, gap, n) + Call(1, "b", op, 1)
  }

  lemma PrefixRuns<B>(p: Policy<B>, gc: bool, sch: Schedule, start: int, wait: nat, gap: nat, n: int, op: Op)
    requires 0 < n && wait < p.gcInterval && !Free(op) && (op.Read? ==> sch.peeks)
    requires Collectable(p, Spent(p, start + wait, n), start, start + wait + gap)
    ensures Run(p, gc, Start<nat, B>(start), Prefix(wait, gap, n, op)) ==
            Swept(p, gc, Spent(p, start + wait, n), start, start + wait + gap, op)
    ensures DisciplinedRun(p, sch, Start<nat, B>(start), Prefix(wait, gap, n, op))
  {
    hide Run, Answers, DisciplinedRun, Swept, Opening, Spent, Collectable;
    var b, now := Spent(p, start + wait, n), start + wait + gap;
    OpeningRuns(p, gc, sch, start, wait, gap, n);
    OpeningRuns(p, true, sch, start, wait, gap, n);
    SweepRuns(p, gc, b, start, now, op);
    RunAppend(p, gc, Start<nat, B>(start), Opening(wait, gap, n), Call(1, "b", op, 1));
    CallDisciplined(p, sch, Ready(b, start, now), 1, "b", op, 1);
    DisciplineAppend(p, sch, Start<nat, B>(start), Opening(wait, gap, n), Call(1, "b", op, 1));
  }

  /** A disciplined run whose last part is answered differently. */
  lemma Shows<B>(p: Policy<B>, sch: Schedule, start: int, x: seq<Action<nat>>, y: seq<Action<nat>>)
    requires DisciplinedRun(p, sch, Start<nat, B>(start), x)
    requires DisciplinedRun(p, sch, Run(p, true, Start<nat, B>(start), x), y)
    requires Answers(p, true, Run(p, true, Start<nat, B>(start), x), y)
             != Answers(p, false, Run(p, false, Start<nat, B>(start), x), y)
    ensures !UnnoticedFrom(p, sch, start)
  {
    hide Run, Answers, DisciplinedRun;
    var s := Start<nat, B>(start);
    RunAppend(p, true, s, x, y);
    RunAppend(p, false, s, x, y);
    DisciplineAppend(p, sch, s, x, y);
    assert Answers(p, true, s, x + y)[|x|..] == Answers(p, true, Run(p, true, s, x), y);
    assert Answers(p, false, s, x + y)[|x|..] == Answers(p, false, Run(p, false, s, x), y);
    assert Answers(p, true, s, x + y) != Answers(p, false, s, x + y);
  }

  /** A cell that is collected while it still counts: the key comes back as new, on every kind of schedule. */
  lemma EarlyShows<B>(p: Policy<B>, sch: Schedule, start: int, wait: nat, gap: nat, n: int)
    requires 0 < n && wait < p.gcInterval && Collectable(p, Spent(p, start + wait, n), start, start + wait + gap)
    requires var now := start + wait + gap;
             p.serve(p.blank(now), Allow(n), now).1 != p.serve(Spent(p, start + wait, n), Allow(n), now).1
    ensures !UnnoticedFrom(p, sch, start)
  {
    hide Run, Answers, DisciplinedRun, Spent, Prefix;
    var b, now := Spent(p, start + wait, n), start + wait + gap;
    var x, y: seq<Action<nat>> := Prefix(wait, gap, n, Allow(1)), Call(2, "a", Allow(n), 2);
    PrefixRuns(p, true, sch, start, wait, gap, n, Allow(1));
    PrefixRuns(p, false, sch, start, wait, gap, n, Allow(1));
    var g, u := Swept(p, true, b, start, now, Allow(1)), Swept(p, false, b, start, now, Allow(1));
    CallDisciplined(p, sch, g, 2, "a", Allow(n), 2);
    CallRuns(p, true, g, 2, "a", Allow(n), 2);
    CallRuns(p, false, u, 2, "a", Allow(n), 2);
    AskAgain(p, b, start, now, n);
    assert Answers(p, true, g, y)[2] != Answers(p, false, u, y)[2];
    Shows(p, sch, start, x, y);
  }

  /** Asking for the swept key: a new cell, or the old one. */
  lemma AskAgain<B>(p: Policy<B>, b: B, start: int, now: int, n: int)
    requires 0 < n
    ensures var g := Swept(p, true, b, start, now, Allow(1)).store;
            WholeCall(p, true, g, "a", Allow(n), 2, now).1 == p.serve(p.blank(now), Allow(n), now).1
    ensures var u := Swept(p, false, b, start, now, Allow(1)).store;
            WholeCall(p, false, u, "a", Allow(n), 2, now).1 == p.serve(b, Allow(n), now).1
  {
    var g := Swept(p, true, b, start, now, Allow(1)).store;
    assert "a" !in Collect(p, g, now).table;
  }

  // ----- what differs only later -----

  /** Nobody is under way, and "a" leads to the cell `id` with contents `b`. */
  ghost predicate Settled<B>(s: State<nat, B>, id: nat, b: B, now: int) {
    AllIdle(s) && s.clock == now
    && "a" in s.store.table && s.store.table["a"] == id && id in s.store.cells && s.store.cells[id] == b
  }

  /** Time passes and "a" is used once more. */
  function Later(d: nat, c: nat, n: int): seq<Action<nat>> {
    [Tick(d)] + [Look(c, "a", Allow(n)), Use(c)]
  }

  lemma LaterRuns<B>(p: Policy<B>, gc: bool, sch: Schedule, s: State<nat, B>, id: nat, b: B, now: int, d: nat, c: nat,
                     n: int)
    requires Settled(s, id, b, now) && 0 < n
    ensures Settled(Run(p, gc, s, Later(d, c, n)), id, p.serve(b, Allow(n), now + d).0, now + d)
    ensures Answers(p, gc, s, Later(d, c, n)) == [Nothing, Nothing, p.serve(b, Allow(n), now + d).1]
    ensures DisciplinedRun(p, sch, s, Later(d, c, n))
  {
    hide Run, Answers, DisciplinedRun;
    var t := s.(clock := now + d);
    assert forall e: nat :: At(t, e) == At(s, e);
    assert AllIdle(t);
    RunOne(p, gc, s, Tick(d));
    RunOne(p, true, s, Tick(d));
    FoundRuns(p, gc, t, c, "a", Allow(n));
    var v := Run(p, gc, t, [Look(c, "a", Allow(n)), Use(c)]);
    assert forall e: nat :: e != c ==> At(v, e) == At(t, e);
    assert AllIdle(v);
    RunAppend(p, gc, s, [Tick(d)], [Look(c, "a", Allow(n)), Use(c)]);
    OneDisciplined(p, sch, s, Tick(d));
    FoundDisciplined(p, sch, t, c, "a", Allow(n));
    DisciplineAppend(p, sch, s, [Tick(d)], [Look(c, "a", Allow(n)), Use(c)]);
  }

  /** Runs that leave "a" on cells from which the second of two later uses is answered differently. */
  lemma DiffersLater<B>(p: Policy<B>, sch: Schedule, start: int, x: seq<Action<nat>>,
                        i: nat, j: nat, a: B, b: B, now: int, d: nat, n: int)
    requires DisciplinedRun(p, sch, Start<nat, B>(start), x) && 0 < n
    requires Settled(Run(p, true, Start<nat, B>(start), x), i, a, now)
    requires Settled(Run(p, false, Start<nat, B>(start), x), j, b, now)
    requires p.serve(a, Allow(n), now + d).1 != p.serve(b, Allow(n), now + d).1
    ensures !UnnoticedFrom(p, sch, start)
  {
    hide Run, Answers, DisciplinedRun, Settled;
    var g, u := Run(p, true, Start<nat, B>(start), x), Run(p, false, Start<nat, B>(start), x);
    LaterRuns(p, true, sch, g, i, a, now, d, 4, n);
    LaterRuns(p, false, sch, u, j, b, now, d, 4, n);
    assert Answers(p, true, g, Later(d, 4, n))[2] != Answers(p, false, u, Later(d, 4, n))[2];
    Shows(p, sch, start, x, Later(d, 4, n));
  }

  /** Reading a swept key. */
  lemma ReviveRuns<B>(p: Policy<B>, sch: Schedule, b: B, start: int, now: int)
    requires sch.peeks && 0 < p.gcInterval
    ensures var g, u := Swept(p, true, b, start, now, Allow(1)), Swept(p, false, b, start, now, Allow(1));
            && Settled(Run(p, true, g, Call(2, "a", Read, 2)), 2, p.serve(p.blank(now), Read, now).0, now)
            && Settled(Run(p, false, u, Call(2, "a", Read, 2)), 0, p.serve(b, Read, now).0, now)
            && DisciplinedRun(p, sch, g, Call(2, "a", Read, 2))
  {
    hide Run, Answers, DisciplinedRun;
    var g, u := Swept(p, true, b, start, now, Allow(1)), Swept(p, false, b, start, now, Allow(1));
    CallDisciplined(p, sch, g, 2, "a", Read, 2);
    CallRuns(p, true, g, 2, "a", Read, 2);
    CallRuns(p, false, u, 2, "a", Read, 2);
  }

  /** Reading a collected key dates its new cell, which two later uses can tell from the old one. */
  lemma PeekShows<B>(p: Policy<B>, sch: Schedule, start: int, wait: nat, gap: nat, n: int, e: nat, d: nat, m: int)
    requires 0 < n && 0 < m && wait < p.gcInterval && sch.peeks
    requires Collectable(p, Spent(p, start + wait, n), start, start + wait + gap)
    requires var now := start + wait + gap;
             var a, b := p.serve(p.blank(now), Read, now).0, p.serve(Spent(p, start + wait, n), Read, now).0;
             p.serve(p.serve(a, Allow(n), now + e).0, Allow(m), now + e + d).1
             != p.serve(p.serve(b, Allow(n), now + e).0, Allow(m), now + e + d).1
    ensures !UnnoticedFrom(p, sch, start)
  {
    hide Run, Answers, DisciplinedRun, Spent, Prefix, Settled, Swept;
    var s, c, now := Start<nat, B>(start), Spent(p, start + wait, n), start + wait + gap;
    var a, b := p.serve(p.blank(now), Read, now).0, p.serve(c, Read, now).0;
    var x, y, z: seq<Action<nat>> := Prefix(wait, gap, n, Allow(1)), Call(2, "a", Read, 2), Later(e, 3, n);
    PrefixRuns(p, true, sch, start, wait, gap, n, Allow(1));
    PrefixRuns(p, false, sch, start, wait, gap, n, Allow(1));
    ReviveRuns(p, sch, c, start, now);
    RunAppend(p, true, s, x, y);
    RunAppend(p, false, s, x, y);
    DisciplineAppend(p, sch, s, x, y);
    LaterRuns(p, true, sch, Run(p, true, s, x + y), 2, a, now, e, 3, n);
    LaterRuns(p, false, sch, Run(p, false, s, x + y), 0, b, now, e, 3, n);
    RunAppend(p, true, s, x + y, z);
    RunAppend(p, false, s, x + y, z);
    DisciplineAppend(p, sch, s, x + y, z);
    DiffersLater(p, sch, start, x + y + z, 2, 0, p.serve(a, Allow(n), now + e).0, p.serve(b, Allow(n), now + e).0,
                 now + e, d, m);
  }

  /** A call that makes its cell and uses it only after some time. */
  function Slow(e: nat, n: int): seq<Action<nat>> {
    [Look(2, "a", Allow(n)), Make(2, 2)] + [Tick(e), Use(2)]
  }

  lemma SlowRuns<B>(p: Policy<B>, peeks: bool, b: B, start: int, now: int, e: nat, n: int)
    requires 0 < n && 0 < p.gcInterval
    ensures var g, u := Swept(p, true, b, start, now, Allow(1)), Swept(p, false, b, start, now, Allow(1));
            && Settled(Run(p, true, g, Slow(e, n)), 2, p.serve(p.blank(now), Allow(n), now + e).0, now + e)
            && Settled(Run(p, false, u, Slow(e, n)), 0, p.serve(b, Allow(n), now + e).0, now + e)
            && DisciplinedRun(p, Schedule(Freely, peeks), g, Slow(e, n))
  {
    SlowRun(p, true, b, start, now, e, n);
    SlowRun(p, false, b, start, now, e, n);
    var g, sch := Swept(p, true, b, start, now, Allow(1)), Schedule(Freely, peeks);
    var g1 := Step(p, true, g, Look(2, "a", Allow(n))).0;
    var g2 := Step(p, true, g1, Make(2, 2)).0;
    var g3 := Step(p, true, g2, Tick(e)).0;
    assert Slow(e, n)[1..] == [Make(2, 2), Tick(e), Use(2)] && Slow(e, n)[1..][1..] == [Tick(e), Use(2)];
    var last: seq<Action<nat>> := [Use(2)];
    assert [Tick(e), Use(2)][1..] == last;
    assert At(g3, 2).Found?;
    OneDisciplined(p, sch, g3, Use(2));
    assert DisciplinedRun(p, sch, g2, [Tick(e), Use(2)]);
    assert DisciplinedRun(p, sch, g1, [Make(2, 2), Tick(e), Use(2)]);
  }

  lemma SlowRun<B>(p: Policy<B>, gc: bool, b: B, start: int, now: int, e: nat, n: int)
    requires 0 < n && 0 < p.gcInterval
    ensures var s := Swept(p, gc, b, start, now, Allow(1));
            var id, c := if gc then 2 else 0, if gc then p.blank(now) else b;
            Settled(Run(p, gc, s, Slow(e, n)), id, p.serve(c, Allow(n), now + e).0, now + e)
  {
    hide Run, Answers;
    var s := Swept(p, gc, b, start, now, Allow(1));
    var s1 := Step(p, gc, s, Look(2, "a", Allow(n))).0;
    var s2 := Step(p, gc, s1, Make(2, 2)).0;
    RunTwo(p, gc, s, Look(2, "a", Allow(n)), Make(2, 2));
    RunTwo(p, gc, s2, Tick(e), Use(2));
    RunAppend(p, gc, s, [Look(2, "a", Allow(n)), Make(2, 2)], [Tick(e), Use(2)]);
    assert At(s2, 2) == Found("a", if gc then 2 else 0, Allow(n));
    assert s2.store.table["a"] == At(s2, 2).id;
  }

  /** When calls may take time, making the cell and using it later shows too. */
  lemma LateShows<B>(p: Policy<B>, peeks: bool, start: int, wait: nat, gap: nat, n: int, e: nat, d: nat, m: int)
    requires 0 < n && 0 < m && wait < p.gcInterval
    requires Collectable(p, Spent(p, start + wait, n), start, start + wait + gap)
    requires var now := start + wait + gap;
             p.serve(p.serve(p.blank(now), Allow(n), now + e).0, Allow(m), now + e + d).1
             != p.serve(p.serve(Spent(p, start + wait, n), Allow(n), now + e).0, Allow(m), now + e + d).1
    ensures !UnnoticedFrom(p, Schedule(Freely, peeks), start)
  {
    hide Run, Answers, DisciplinedRun, Spent, Prefix, Settled, Swept;
    var s, c, now, sch := Start<nat, B>(start), Spent(p, start + wait, n), start + wait + gap, Schedule(Freely, peeks);
    var x, y := Prefix(wait, gap, n, Allow(1)), Slow(e, n);
    PrefixRuns(p, true, sch, start, wait, gap, n, Allow(1));
    PrefixRuns(p, false, sch, start, wait, gap, n, Allow(1));
    SlowRuns(p, peeks, c, start, now, e, n);
    RunAppend(p, true, s, x, y);
    RunAppend(p, false, s, x, y);
    DisciplineAppend(p, sch, s, x, y);
    DiffersLater(p, sch, start, x + y, 2, 0, p.serve(p.blank(now), Allow(n), now + e).0,
                 p.serve(c, Allow(n), now + e).0, now + e, d, m);
  }

  // ----- runs without the discipline -----

  /** What a run of `actions` grants on `key` in all. */
  ghost function Total<Id, B>(p: Policy<B>, gc: bool, s: State<Id, B>, actions: seq<Action<Id>>, key: string): nat {
    GrantedTo(p, gc, s, actions, key, _ => true)
  }

  lemma {:induction false} TotalAppend<Id, B>(p: Policy<B>, gc: bool, s: State<Id, B>,
                                              x: seq<Action<Id>>, y: seq<Action<Id>>, key: string)
    ensures Total(p, gc, s, x + y, key) == Total(p, gc, s, x, key) + Total(p, gc, Run(p, gc, s, x), y, key)
    decreases |x|
  {
    hide Step, Gain;
    if x == [] {
      assert x + y == y;
    } else {
      assert (x + y)[1..] == x[1..] + y;
      TotalAppend(p, gc, Step(p, gc, s, x[0]).0, x[1..], y, key);
    }
  }

  lemma TotalOne<Id, B>(p: Policy<B>, gc: bool, s: State<Id, B>, a: Action<Id>, key: string)
    ensures Total(p, gc, s, [a], key) == Gain(s, a, Step(p, gc, s, a).1, key)
  {
    hide Step, Gain;
    assert [a][1..] == [];
    assert GrantedTo(p, gc, Step(p, gc, s, a).0, [], key, _ => true) == 0;
  }

  lemma CallTotal<Id, B>(p: Policy<B>, gc: bool, s: State<Id, B>, c: nat, key: string, n: int, id: Id, k: string)
    requires At(s, c).Idle? && 0 < n
    ensures Total(p, gc, s, Call(c, key, Allow(n), id), k) ==
            if k == key && WholeCall(p, gc, s.store, key, Allow(n), id, s.clock).1 == Granted(true) then n else 0
  {
    hide Run, Answers, Collect, Total;
    var s1 := Step(p, gc, s, Look(c, key, Allow(n))).0;
    var s2 := Step(p, gc, s1, Make(c, id)).0;
    RunTwo(p, gc, s, Look(c, key, Allow(n)), Make(c, id));
    RunOne(p, gc, s, Look(c, key, Allow(n)));
    TotalOne(p, gc, s, Look(c, key, Allow(n)), k);
    TotalOne(p, gc, s1, Make(c, id), k);
    TotalOne(p, gc, s2, Use(c), k);
    TotalAppend(p, gc, s, [Look(c, key, Allow(n))], [Make(c, id)], k);
    assert [Look(c, key, Allow(n))] + [Make(c, id)] == [Look(c, key, Allow(n)), Make(c, id)];
    TotalAppend(p, gc, s, [Look(c, key, Allow(n)), Make(c, id)], [Use(c)], k);
    assert [Look(c, key, Allow(n)), Make(c, id)] + [Use(c)] == Call(c, key, Allow(n), id);
    assert s2.clients[c].Found? && s2.clients[c].op == Allow(n) && s2.clients[c].key == key;
  }

  /** The key is used up, left alone until it is collected, and used up again. */
  function Refill(gap: nat, n: int): seq<Action<nat>> {
    Call(0, "a", Allow(n), 0) + [Tick(gap)] + Call(1, "b", Allow(1), 1) + Call(2, "a", Allow(n), 2)
  }

  lemma RefillRuns<B>(p: Policy<B>, sch: Schedule, start: int, from: int, gap: nat, n: int)
    requires 0 < n && from - start < p.gcInterval && Collectable(p, Spent(p, from, n), start, from + gap)
    ensures var s := Start<nat, B>(start).(clock := from);
            && Settled(Run(p, true, s, Refill(gap, n)), 2, Spent(p, from + gap, n), from + gap)
            && DisciplinedRun(p, sch, s, Refill(gap, n))
  {
    hide Run, Answers, DisciplinedRun, Spent, Swept, Collectable;
    var s, b, now := Start<nat, B>(start).(clock := from), Spent(p, from, n), from + gap;
    var w, x: seq<Action<nat>> := Call(0, "a", Allow(n), 0), [Tick(gap)];
    var y, z: seq<Action<nat>> := Call(1, "b", Allow(1), 1), Call(2, "a", Allow(n), 2);
    var r, g := Ready(b, start, from), Swept(p, true, b, start, now, Allow(1));
    OpeningCall(p, true, start, from, n);
    RunOne(p, true, r, Tick(gap));
    SweepRuns(p, true, b, start, now, Allow(1));
    AskSettles(p, b, start, now, n);
    RunAppend(p, true, s, w, x);
    RunAppend(p, true, s, w + x, y);
    RunAppend(p, true, s, w + x + y, z);
    CallDisciplined(p, sch, s, 0, "a", Allow(n), 0);
    OneDisciplined(p, sch, r, Tick(gap));
    CallDisciplined(p, sch, Ready(b, start, now), 1, "b", Allow(1), 1);
    SweptIdle(p, b, start, now);
    CallDisciplined(p, sch, g, 2, "a", Allow(n), 2);
    DisciplineAppend(p, sch, s, w, x);
    DisciplineAppend(p, sch, s, w + x, y);
    DisciplineAppend(p, sch, s, w + x + y, z);
  }

  lemma SweptIdle<B>(p: Policy<B>, b: B, start: int, now: int)
    ensures var g := Swept(p, true, b, start, now, Allow(1));
            AllIdle(g) && "a" !in g.store.table && 2 !in g.store.cells && g.clock == now
  {
  }

  lemma AskSettles<B>(p: Policy<B>, b: B, start: int, now: int, n: int)
    requires 0 < n
    ensures var g := Swept(p, true, b, start, now, Allow(1));
            Settled(Run(p, true, g, Call(2, "a", Allow(n), 2)), 2, Spent(p, now, n), now)
  {
    hide Run, Answers;
    var g := Swept(p, true, b, start, now, Allow(1));
    CallRuns(p, true, g, 2, "a", Allow(n), 2);
    assert "a" !in Collect(p, g.store, now).table;
  }

  lemma RefillTotal<B>(p: Policy<B>, start: int, from: int, gap: nat, n: int)
    requires 0 < n && from - start < p.gcInterval && Collectable(p, Spent(p, from, n), start, from + gap)
    requires p.serve(p.blank(from), Allow(n), from).1 == Granted(true)
    requires p.serve(p.blank(from + gap), Allow(n), from + gap).1 == Granted(true)
    ensures Total(p, true, Start<nat, B>(start).(clock := from), Refill(gap, n), "a") == 2 * n
  {
    hide Run, Answers, Total, Spent, Swept, Collectable, WholeCall;
    var s, b, now := Start<nat, B>(start).(clock := from), Spent(p, from, n), from + gap;
    var w, x: seq<Action<nat>> := Call(0, "a", Allow(n), 0), [Tick(gap)];
    var y, z: seq<Action<nat>> := Call(1, "b", Allow(1), 1), Call(2, "a", Allow(n), 2);
    var r, g := Ready(b, start, from), Swept(p, true, b, start, now, Allow(1));
    OpeningCall(p, true, start, from, n);
    RunOne(p, true, r, Tick(gap));
    SweepRuns(p, true, b, start, now, Allow(1));
    RunAppend(p, true, s, w, x);
    RunAppend(p, true, s, w + x, y);
    SweptIdle(p, b, start, now);
    CallTotal(p, true, s, 0, "a", n, 0, "a");
    TotalOne(p, true, r, Tick(gap), "a");
    CallTotal(p, true, Ready(b, start, now), 1, "b", 1, 1, "a");
    CallTotal(p, true, g, 2, "a", n, 2, "a");
    FirstAsk(p, start, from, n);
    AskAgain(p, b, start, now, n);
    TotalAppend(p, true, s, w, x, "a");
    TotalAppend(p, true, s, w + x, y, "a");
    TotalAppend(p, true, s, w + x + y, z, "a");
  }

  lemma FirstAsk<B>(p: Policy<B>, start: int, now: int, n: int)
    requires 0 < n
    ensures WholeCall(p, true, Start<nat, B>(start).store, "a", Allow(n), 0, now).1 ==
            p.serve(p.blank(now), Allow(n), now).1
  {
    assert "a" !in Collect(p, Start<nat, B>(start).store, now).table;
  }

  lemma LaterTotal<B>(p: Policy<B>, s: State<nat, B>, id: nat, b: B, now: int, d: nat, c: nat, n: int)
    requires Settled(s, id, b, now) && 0 < n
    ensures Total(p, true, s, Later(d, c, n), "a") ==
            if p.serve(b, Allow(n), now + d).1 == Granted(true) then n else 0
  {
    hide Run, Total;
    var t := s.(clock := now + d);
    assert At(t, c) == At(s, c);
    RunOne(p, true, s, Tick(d));
    TotalOne(p, true, s, Tick(d), "a");
    TwoTotal(p, true, t, Look(c, "a", Allow(n)), Use(c), "a");
    TotalAppend(p, true, s, [Tick(d)], [Look(c, "a", Allow(n)), Use(c)], "a");
  }

  /** While `when` holds all along, nothing of the total is left out. */
  lemma {:induction false} AllWithin<Id, B>(p: Policy<B>, s: State<Id, B>, actions: seq<Action<Id>>, key: string,
                                           when: int -> bool)
    requires forall t :: s.clock <= t <= Run(p, true, s, actions).clock ==> when(t)
    ensures s.clock <= Run(p, true, s, actions).clock
    ensures GrantedTo(p, true, s, actions, key, when) == Total(p, true, s, actions, key)
    decreases |actions|
  {
    hide Gain, Step;
    if actions != [] {
      ClockStep(p, s, actions[0]);
      AllWithin(p, Step(p, true, s, actions[0]).0, actions[1..], key, when);
    }
  }

  lemma ClockStep<Id, B>(p: Policy<B>, s: State<Id, B>, a: Action<Id>)
    ensures s.clock <= Step(p, true, s, a).0.clock
  {
  }

  /**
   Caller 1 finds the cell of "a"; caller 2's new key has it collected; caller 3 uses up a new one; caller 1 goes on.
   */
  function OrphanRun(n: int): seq<Action<nat>> {
    [Look(1, "a", Allow(n))] + Call(2, "b", Allow(1), 1) + Call(3, "a", Allow(n), 2) + [Use(1)]
  }

  /** The collecting limiter grants both of them; the other one grants only the first. All of this takes no time. */
  lemma OrphanShows<B>(p: Policy<B>, b: B, start: int, now: int, n: int)
    requires Collectable(p, b, start, now) && 0 < n && 0 < p.gcInterval
    requires p.serve(p.blank(now), Allow(n), now).1 == Granted(true) && p.serve(b, Allow(n), now).1 == Granted(true)
    requires p.serve(p.serve(b, Allow(n), now).0, Allow(n), now).1 == Granted(false)
    ensures Total(p, true, Ready(b, start, now), OrphanRun(n), "a") == 2 * n
    ensures Total(p, false, Ready(b, start, now), OrphanRun(n), "a") == n
    ensures Run(p, true, Ready(b, start, now), OrphanRun(n)).clock == now
    ensures OneLapse(p, Ready(b, start, now), OrphanRun(n), 2) && OrphanRun(n)[2] == Make(2, 1)
    ensures FittingRun(p, false, Ready(b, start, now), OrphanRun(n))
  {
    OrphanTotal(p, true, b, start, now, n);
    OrphanTotal(p, false, b, start, now, n);
    OrphanLapse(p, b, start, now, n);
    OrphanFits(p, b, start, now, n);
  }

  /** The state in which caller 2 has missed its key and caller 1 holds the cell of "a". */
  function Straddling<B>(b: B, start: int, now: int, n: int): State<nat, B> {
    State(now, Store(map["a" := 0], map[0 := b], start),
          map[0 := Idle, 1 := Found("a", 0, Allow(n)), 2 := Missed("b", Allow(1))])
  }

  lemma StraddlingRuns<B>(p: Policy<B>, gc: bool, b: B, start: int, now: int, n: int)
    requires 0 < n
    ensures Run(p, gc, Ready(b, start, now), [Look(1, "a", Allow(n)), Look(2, "b", Allow(1))]) ==
            Straddling(b, start, now, n)
    ensures DisciplinedRun(p, ANY, Ready(b, start, now), [Look(1, "a", Allow(n)), Look(2, "b", Allow(1))])
  {
    var s, y := Ready(b, start, now), Look(2, "b", Allow(1));
    var t := Step(p, gc, s, Look(1, "a", Allow(n))).0;
    RunTwo(p, gc, s, Look(1, "a", Allow(n)), y);
    assert Step(p, gc, t, y).0.clients == Straddling(b, start, now, n).clients;
    assert [Look(1, "a", Allow(n)), y][1..] == [y];
    OneDisciplined(p, ANY, t, y);
  }

  lemma OrphanLapse<B>(p: Policy<B>, b: B, start: int, now: int, n: int)
    requires Collectable(p, b, start, now) && 0 < n && 0 < p.gcInterval
    ensures OneLapse(p, Ready(b, start, now), OrphanRun(n), 2)
  {
    hide Run, DisciplinedRun, OneLapse;
    var s, m := Ready(b, start, now), Straddling(b, start, now, n);
    var w, x: seq<Action<nat>> := [Look(1, "a", Allow(n)), Look(2, "b", Allow(1))], [Use(2)];
    var y: seq<Action<nat>> := Call(3, "a", Allow(n), 2);
    var m1 := Step(p, true, m, Make(2, 1)).0;
    StraddlingRuns(p, true, b, start, now, n);
    assert Stale(p, m.store, "a", now) && At(m, 1).id == m.store.table["a"];
    assert TakesHeldCell(p, m, Make(2, 1)) && Fits(m, Make(2, 1));
    assert At(m1, 2).Found? && At(m1, 1) == At(m, 1) && At(m1, 3).Idle?;
    assert m1.store.lastGC == now && 2 !in m1.store.cells;
    OrphanTail(p, m1, n);
    LapseThen(p, m, Make(2, 1), x + y + [Use(1)]);
    LapseAfter(p, s, w, [Make(2, 1)] + (x + y + [Use(1)]), 0);
    assert w + ([Make(2, 1)] + (x + y + [Use(1)])) == OrphanRun(n);
  }

  /** After the collection everybody goes on. */
  lemma OrphanTail<B>(p: Policy<B>, s: State<nat, B>, n: int)
    requires At(s, 2).Found? && At(s, 1).Found? && At(s, 3).Idle? && 2 !in s.store.cells && 0 < n
    requires s.clock - s.store.lastGC < p.gcInterval && At(s, 2).id in s.store.cells
    ensures var x: seq<Action<nat>>, y := [Use(2)], Call(3, "a", Allow(n), 2);
            DisciplinedRun(p, ANY, s, x + y + [Use(1)])
  {
    hide Run, DisciplinedRun, WholeCall;
    var x, y: seq<Action<nat>> := [Use(2)], Call(3, "a", Allow(n), 2);
    var t := Step(p, true, s, Use(2)).0;
    RunOne(p, true, s, Use(2));
    OneDisciplined(p, ANY, s, Use(2));
    CallAmongOthers(p, t, 3, "a", Allow(n), 2);
    CallRuns(p, true, t, 3, "a", Allow(n), 2);
    DisciplineAppend(p, ANY, s, x, y);
    RunAppend(p, true, s, x, y);
    var v := Run(p, true, t, y);
    assert At(v, 1) == At(s, 1);
    OneDisciplined(p, ANY, v, Use(1));
    DisciplineAppend(p, ANY, s, x + y, [Use(1)]);
  }

  lemma OrphanFits<B>(p: Policy<B>, b: B, start: int, now: int, n: int)
    requires 0 < n
    ensures FittingRun(p, false, Ready(b, start, now), OrphanRun(n))
  {
    hide Run, FittingRun, WholeCall;
    var s := Ready(b, start, now);
    var w: seq<Action<nat>> := [Look(1, "a", Allow(n))];
    var x, y: seq<Action<nat>> := Call(2, "b", Allow(1), 1), Call(3, "a", Allow(n), 2);
    var s1 := Holding(s, n);
    RunOne(p, false, s, Look(1, "a", Allow(n)));
    CallRuns(p, false, s1, 2, "b", Allow(1), 1);
    var s2 := Run(p, false, s1, x);
    BystanderStore(p, s.store, now);
    CallRuns(p, false, s2, 3, "a", Allow(n), 2);
    FittingOne(p, false, s, Look(1, "a", Allow(n)));
    CallFits(p, false, s1, 2, "b", Allow(1), 1);
    CallFits(p, false, s2, 3, "a", Allow(n), 2);
    FittingOne(p, false, Run(p, false, s2, y), Use(1));
    RunAppend(p, false, s, w, x);
    RunAppend(p, false, s, w + x, y);
    FittingAppend(p, false, s, w, x);
    FittingAppend(p, false, s, w + x, y);
    FittingAppend(p, false, s, w + x + y, [Use(1)]);
  }

  lemma BystanderStore<B>(p: Policy<B>, s: Store<nat, B>, now: int)
    requires "b" !in s.table && 2 !in s.cells
    ensures 2 !in WholeCall(p, false, s, "b", Allow(1), 1, now).0.cells
  {
  }

  ghost function Holding<B>(s: State<nat, B>, n: int): State<nat, B> {
    Put(s, 1, Found("a", 0, Allow(n)))
  }

  lemma OrphanTotal<B>(p: Policy<B>, gc: bool, b: B, start: int, now: int, n: int)
    requires Collectable(p, b, start, now) && 0 < n
    requires p.serve(p.blank(now), Allow(n), now).1 == Granted(true) && p.serve(b, Allow(n), now).1 == Granted(true)
    requires p.serve(p.serve(b, Allow(n), now).0, Allow(n), now).1 == Granted(false)
    ensures Total(p, gc, Ready(b, start, now), OrphanRun(n), "a") == if gc then 2 * n else n
    ensures Run(p, gc, Ready(b, start, now), OrphanRun(n)).clock == now
  {
    hide Run, Answers, Total, MakeCell, UseCell, WholeCall;
    var w: seq<Action<nat>> := [Look(1, "a", Allow(n))];
    var x, y: seq<Action<nat>> := Call(2, "b", Allow(1), 1), Call(3, "a", Allow(n), 2);
    var s := Ready(b, start, now);
    var s1 := Holding(s, n);
    RunOne(p, gc, s, Look(1, "a", Allow(n)));
    TotalOne(p, gc, s, Look(1, "a", Allow(n)), "a");
    CallRuns(p, gc, s1, 2, "b", Allow(1), 1);
    CallTotal(p, gc, s1, 2, "b", 1, 1, "a");
    var s2 := Run(p, gc, s1, x);
    CallRuns(p, gc, s2, 3, "a", Allow(n), 2);
    CallTotal(p, gc, s2, 3, "a", n, 2, "a");
    var s3 := Run(p, gc, s2, y);
    RunOne(p, gc, s3, Use(1));
    TotalOne(p, gc, s3, Use(1), "a");
    TotalAppend(p, gc, s, w, x, "a");
    TotalAppend(p, gc, s, w + x, y, "a");
    TotalAppend(p, gc, s, w + x + y, [Use(1)], "a");
    RunAppend(p, gc, s, w, x);
    RunAppend(p, gc, s, w + x, y);
    RunAppend(p, gc, s, w + x + y, [Use(1)]);
    OrphanStores(p, gc, b, start, now, n);
    assert At(s3, 1) == Found("a", 0, Allow(n));
    OrphanUse(p, gc, s3, b, now, n);
  }

  lemma OrphanStores<B>(p: Policy<B>, gc: bool, b: B, start: int, now: int, n: int)
    requires Collectable(p, b, start, now) && 0 < n
    ensures var t := WholeCall(p, gc, Ready(b, start, now).store, "b", Allow(1), 1, now).0;
            var (v, answer) := WholeCall(p, gc, t, "a", Allow(n), 2, now);
            && answer == p.serve(if gc then p.blank(now) else b, Allow(n), now).1
            && 0 in v.cells && v.cells[0] == if gc then b else p.serve(b, Allow(n), now).0
  {
    var s := Ready(b, start, now).store;
    assert Stale(p, s, "a", now);
    var t := WholeCall(p, gc, s, "b", Allow(1), 1, now).0;
    assert t.cells[0] == b && ("a" in t.table <==> !gc);
    assert gc ==> "a" !in Collect(p, t, now).table;
  }

  lemma OrphanUse<B>(p: Policy<B>, gc: bool, s: State<nat, B>, b: B, now: int, n: int)
    requires At(s, 1) == Found("a", 0, Allow(n)) && s.clock == now && 0 in s.store.cells
    requires s.store.cells[0] == if gc then b else p.serve(b, Allow(n), now).0
    ensures Step(p, gc, s, Use(1)).1 == p.serve(if gc then b else p.serve(b, Allow(n), now).0, Allow(n), now).1
    ensures Step(p, gc, s, Use(1)).0.clock == now
  {
  }

  /** Between a caller's failed look-up of a collected key and the making of its cell, the key is reset. */
  function ResetRun(n: int): seq<Action<nat>> {
    [Look(2, "a", Allow(n)), Reset("a")] + [Make(2, 2), Use(2)] + Call(3, "a", Allow(n), 3)
  }

  /** In the other limiter the caller had found its key, so the Reset clears the way for one more. */
  lemma ResetShows<B>(p: Policy<B>, b: B, start: int, now: int, n: int)
    requires 0 < n && 0 < p.gcInterval
    requires p.serve(p.blank(now), Allow(n), now).1 == Granted(true) && p.serve(b, Allow(n), now).1 == Granted(true)
    requires p.serve(p.serve(p.blank(now), Allow(n), now).0, Allow(n), now).1 == Granted(false)
    ensures var g, u := Swept(p, true, b, start, now, Allow(1)), Swept(p, false, b, start, now, Allow(1));
            && Total(p, true, g, ResetRun(n), "a") == n && Total(p, false, u, ResetRun(n), "a") == 2 * n
            && OneLapse(p, g, ResetRun(n), 1) && ResetRun(n)[1] == Reset("a") && FittingRun(p, false, u, ResetRun(n))
  {
    ResetTotal(p, true, b, start, now, n);
    ResetTotal(p, false, b, start, now, n);
    ResetLapse(p, b, start, now, n);
    ResetFits(p, b, start, now, n);
  }

  lemma ResetLapse<B>(p: Policy<B>, b: B, start: int, now: int, n: int)
    requires 0 < n && 0 < p.gcInterval
    ensures OneLapse(p, Swept(p, true, b, start, now, Allow(1)), ResetRun(n), 1)
  {
    hide Run, DisciplinedRun, OneLapse;
    var x: seq<Action<nat>>, y := [Make(2, 2), Use(2)], Call(3, "a", Allow(n), 3);
    var s := Swept(p, true, b, start, now, Allow(1));
    var s1 := Step(p, true, s, Look(2, "a", Allow(n))).0;
    var s2 := Step(p, true, s1, Reset("a")).0;
    RunOne(p, true, s, Look(2, "a", Allow(n)));
    OneDisciplined(p, ANY, s, Look(2, "a", Allow(n)));
    assert At(s1, 2).Missed? && At(s1, 2).key == "a" && ResetsMissedKey(s1, Reset("a"));
    assert At(s2, 2) == At(s1, 2) && At(s2, 3).Idle? && s2.store.lastGC == now == s2.clock;
    ResetTail(p, s2, n);
    LapseThen(p, s1, Reset("a"), x + y);
    LapseAfter(p, s, [Look(2, "a", Allow(n))], [Reset("a")] + (x + y), 0);
    assert [Look(2, "a", Allow(n))] + ([Reset("a")] + (x + y)) == ResetRun(n);
  }

  lemma ResetTail<B>(p: Policy<B>, s: State<nat, B>, n: int)
    requires At(s, 2).Missed? && At(s, 3).Idle? && 2 !in s.store.cells && 3 !in s.store.cells && 0 < n
    requires s.clock - s.store.lastGC < p.gcInterval
    ensures var x: seq<Action<nat>>, y := [Make(2, 2), Use(2)], Call(3, "a", Allow(n), 3);
            DisciplinedRun(p, ANY, s, x + y)
  {
    hide Run, NothingHeldIsStale;
    var x: seq<Action<nat>>, y := [Make(2, 2), Use(2)], Call(3, "a", Allow(n), 3);
    var s1 := Step(p, true, s, Make(2, 2)).0;
    var s2 := Step(p, true, s1, Use(2)).0;
    assert x[1..] == [Use(2)] && At(s1, 2).Found?;
    OneDisciplined(p, ANY, s1, Use(2));
    RunTwo(p, true, s, Make(2, 2), Use(2));
    assert At(s2, 3).Idle? && s2.store.lastGC == s.store.lastGC && 3 !in s2.store.cells;
    CallAmongOthers(p, s2, 3, "a", Allow(n), 3);
    DisciplineAppend(p, ANY, s, x, y);
  }

  lemma ResetFits<B>(p: Policy<B>, b: B, start: int, now: int, n: int)
    requires 0 < n
    ensures FittingRun(p, false, Swept(p, false, b, start, now, Allow(1)), ResetRun(n))
  {
    hide Run;
    var w, x: seq<Action<nat>> := [Look(2, "a", Allow(n)), Reset("a")], [Make(2, 2), Use(2)];
    var y: seq<Action<nat>> := Call(3, "a", Allow(n), 3);
    var s := Swept(p, false, b, start, now, Allow(1));
    var s1 := Step(p, false, s, Look(2, "a", Allow(n))).0;
    var s2 := Step(p, false, s1, Reset("a")).0;
    var s4 := Step(p, false, Step(p, false, s2, Make(2, 2)).0, Use(2)).0;
    RunTwo(p, false, s, Look(2, "a", Allow(n)), Reset("a"));
    RunTwo(p, false, s2, Make(2, 2), Use(2));
    assert w[1..] == [Reset("a")] && x[1..] == [Use(2)];
    assert At(s2, 2).Found? && Step(p, false, s2, Make(2, 2)).0 == s2;
    FittingOne(p, false, s1, Reset("a"));
    FittingOne(p, false, s2, Use(2));
    assert At(s4, 3).Idle? && 3 !in s4.store.cells;
    CallFits(p, false, s4, 3, "a", Allow(n), 3);
    FittingAppend(p, false, s, w, x);
    RunAppend(p, false, s, w, x);
    FittingAppend(p, false, s, w + x, y);
  }

  lemma ResetTotal<B>(p: Policy<B>, gc: bool, b: B, start: int, now: int, n: int)
    requires 0 < n && 0 < p.gcInterval
    requires p.serve(p.blank(now), Allow(n), now).1 == Granted(true) && p.serve(b, Allow(n), now).1 == Granted(true)
    requires p.serve(p.serve(p.blank(now), Allow(n), now).0, Allow(n), now).1 == Granted(false)
    ensures Total(p, gc, Swept(p, gc, b, start, now, Allow(1)), ResetRun(n), "a") == if gc then n else 2 * n
  {
    hide Run, Answers, Total, WholeCall;
    var w, x: seq<Action<nat>> := [Look(2, "a", Allow(n)), Reset("a")], [Make(2, 2), Use(2)];
    var y: seq<Action<nat>> := Call(3, "a", Allow(n), 3);
    var s := Swept(p, gc, b, start, now, Allow(1));
    var s1 := Step(p, gc, s, Look(2, "a", Allow(n))).0;
    var s2 := Step(p, gc, s1, Reset("a")).0;
    var s3 := Step(p, gc, s2, Make(2, 2)).0;
    var s4 := Step(p, gc, s3, Use(2)).0;
    RunTwo(p, gc, s, Look(2, "a", Allow(n)), Reset("a"));
    RunTwo(p, gc, s2, Make(2, 2), Use(2));
    TwoTotal(p, gc, s, Look(2, "a", Allow(n)), Reset("a"), "a");
    TwoTotal(p, gc, s2, Make(2, 2), Use(2), "a");
    assert At(s3, 2) == Found("a", if gc then 2 else 0, Allow(n));
    assert s3.store.cells[At(s3, 2).id] == if gc then p.blank(now) else b;
    assert "a" in s4.store.table <==> gc;
    CallTotal(p, gc, s4, 3, "a", n, 3, "a");
    AskAfterReset(p, gc, s4.store, now, n);
    TotalAppend(p, gc, s, w, x, "a");
    TotalAppend(p, gc, s, w + x, y, "a");
    RunAppend(p, gc, s, w, x);
  }

  lemma TwoTotal<Id, B>(p: Policy<B>, gc: bool, s: State<Id, B>, a: Action<Id>, b: Action<Id>, key: string)
    ensures var (t, x) := Step(p, gc, s, a);
            Total(p, gc, s, [a, b], key) == Gain(s, a, x, key) + Gain(t, b, Step(p, gc, t, b).1, key)
  {
    hide Step, Gain, Total, Run;
    TotalOne(p, gc, s, a, key);
    TotalOne(p, gc, Step(p, gc, s, a).0, b, key);
    RunOne(p, gc, s, a);
    TotalAppend(p, gc, s, [a], [b], key);
    assert [a] + [b] == [a, b];
  }

  lemma AskAfterReset<B>(p: Policy<B>, gc: bool, s: Store<nat, B>, now: int, n: int)
    requires 0 < n && ("a" in s.table <==> gc)
    requires gc ==> s.table["a"] in s.cells && s.cells[s.table["a"]] == p.serve(p.blank(now), Allow(n), now).0
    ensures WholeCall(p, gc, s, "a", Allow(n), 3, now).1 ==
            if gc then p.serve(p.serve(p.blank(now), Allow(n), now).0, Allow(n), now).1
            else p.serve(p.blank(now), Allow(n), now).1
  {
  }
}
