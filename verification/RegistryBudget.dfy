/** What a key of the collecting limiter can be granted: a budget that every possible step keeps. */
module RegistryBudget {
  import opened Registry
  import opened RegistrySimulation
  import opened RegistryBounds

  /**
   `pot` is what a cell is worth, `rest` what a key without a cell is worth. A granted event costs `cost` while `when`
   holds of the clock, and each unit of time brings in at most `tick`. `good` holds of the cells of a key.
   */
  datatype Budget<!B> = Budget(
    pot: (B, int) -> int,
    rest: int -> int,
    cost: nat,
    tick: nat,
    when: int -> bool,
    good: (B, int) -> bool)

  ghost predicate Charges<B>(p: Policy<B>, w: Budget<B>, b: B, op: Op, now: int) {
    w.good(b, now) && Proper(op) ==>
      var (c, answer) := p.serve(b, op, now);
      w.cost * (if w.when(now) then Worth(Request(now, op), answer) else 0) + w.pot(c, now) <= w.pot(b, now)
  }

  ghost predicate Earns<B>(w: Budget<B>, b: B, now: int, elapsed: nat) {
    && (w.good(b, now) ==> w.pot(b, now + elapsed) <= w.pot(b, now) + w.tick * elapsed)
    && w.rest(now + elapsed) <= w.rest(now) + w.tick * elapsed
  }

  /** A new cell is worth no more than no cell, and no cell no more than one that is collected. */
  ghost predicate Replaces<B>(p: Policy<B>, w: Budget<B>, b: B, now: int) {
    && w.pot(p.blank(now), now) <= w.rest(now)
    && (w.good(b, now) && p.idle(b, now) ==> w.rest(now) <= w.pot(b, now))
  }

  ghost predicate Sound<B(!new)>(p: Policy<B>, w: Budget<B>) {
    && Keeps(p, w.good)
    && (forall b, op, now :: Charges(p, w, b, op, now))
    && (forall b, now, elapsed :: Earns(w, b, now, elapsed))
    && (forall b, now :: Replaces(p, w, b, now))
  }

  ghost function Funds<Id, B>(w: Budget<B>, s: State<Id, B>, key: string): int
    requires KeyWf(s, key)
  {
    if key in s.store.table then w.pot(CellOf(s, key), s.clock) else w.rest(s.clock)
  }

  /** Whoever holds a cell of `key` holds the one in the table, since none that is held is collected. */
  lemma CollectingOneCell<Id, B>(p: Policy<B>, s: State<Id, B>, a: Action<Id>, key: string)
    requires Wf(s) && OneCell(s, key) && Disciplined(p, s, a) && (a.Reset? ==> a.key != key)
    ensures var t := Step(p, true, s, a).0;
            Wf(t) && OneCell(t, key) && s.clock <= t.clock
  {
    StepWf(p, true, s, a);
    var t := Step(p, true, s, a).0;
    forall c: nat | At(t, c).Found? && At(t, c).key == key
      ensures key in t.store.table && At(t, c).id == t.store.table[key]
    {
      assert At(s, c).Found? && At(s, c).key == key ==> key in s.store.table && At(s, c).id == s.store.table[key];
    }
  }

  /** A step that neither takes time nor uses a cell. */
  predicate Stays<Id>(a: Action<Id>) {
    !a.Tick? && !a.Use?
  }

  /** Looking up, making and resetting leave the cell of `key` as it is, or drop a stale one, or put a new one. */
  lemma CellStaysOrIsReplaced<Id, B>(p: Policy<B>, s: State<Id, B>, a: Action<Id>, key: string)
    requires Wf(s) && NewName(s, a) && Stays(a) && (a.Reset? ==> a.key != key)
    ensures var t := Step(p, true, s, a).0;
            && KeyWf(s, key) && KeyWf(t, key) && t.clock == s.clock
            && (|| (key in s.store.table && key in t.store.table && CellOf(t, key) == CellOf(s, key))
                || ((key in s.store.table ==> p.idle(CellOf(s, key), s.clock))
                    && (key in t.store.table ==> CellOf(t, key) == p.blank(s.clock))))
  {
    assert KeyWf(s, key);
    StepWf(p, true, s, a);
    var t := Step(p, true, s, a).0;
    assert KeyWf(t, key);
  }

  lemma UseOnCell<Id, B>(p: Policy<B>, s: State<Id, B>, c: nat, key: string)
    requires Wf(s) && OneCell(s, key) && At(s, c).Found?
    ensures var (t, answer) := Step(p, true, s, Use(c));
            && KeyWf(s, key) && KeyWf(t, key) && t.store.table == s.store.table && t.clock == s.clock
            && Proper(At(s, c).op)
            && (At(s, c).key == key ==>
                  key in s.store.table && (CellOf(t, key), answer) == p.serve(CellOf(s, key), At(s, c).op, s.clock))
            && (At(s, c).key != key && key in s.store.table ==> CellOf(t, key) == CellOf(s, key))
  {
    assert KeyWf(s, key) && ClientWf(s, c) && OwnKey(s, c, key);
  }

  lemma StepFunds<Id, B(!new)>(p: Policy<B>, w: Budget<B>, s: State<Id, B>, a: Action<Id>, key: string)
    requires Sound(p, w) && Wf(s) && OneCell(s, key) && GoodKey(s, w.good, key)
    requires Disciplined(p, s, a) && (a.Reset? ==> a.key != key)
    ensures var (t, answer) := Step(p, true, s, a);
            var gain := if w.when(s.clock) then Gain(s, a, answer, key) else 0;
            && KeyWf(s, key) && KeyWf(t, key) && GoodKey(t, w.good, key)
            && w.cost * gain + Funds(w, t, key) <= Funds(w, s, key) + w.tick * (t.clock - s.clock)
  {
    hide Wf, OneCell;
    KeyThere(s, key);
    var (t, answer) := Step(p, true, s, a);
    if a.Tick? {
      if key in s.store.table {
        assert Earns(w, CellOf(s, key), s.clock, a.elapsed);
        assert KeepsAt(p, w.good, CellOf(s, key), Read, s.clock, t.clock);
      } else {
        assert Earns(w, p.blank(s.clock), s.clock, a.elapsed);
      }
    } else if a.Use? {
      UseOnCell(p, s, a.c, key);
      if At(s, a.c).key == key {
        assert Charges(p, w, CellOf(s, key), At(s, a.c).op, s.clock);
        assert KeepsAt(p, w.good, CellOf(s, key), At(s, a.c).op, s.clock, s.clock);
      }
    } else {
      CellStaysOrIsReplaced(p, s, a, key);
      var b := if key in s.store.table then CellOf(s, key) else p.blank(s.clock);
      assert Replaces(p, w, b, s.clock) && KeepsAt(p, w.good, b, Read, s.clock, s.clock);
    }
  }

  /** What a key is granted over a disciplined run is paid for by its funds at the start and the time that passes. */
  lemma {:induction false} GrantsArePaid<Id, B(!new)>(p: Policy<B>, w: Budget<B>, sch: Schedule, s: State<Id, B>,
                                                     actions: seq<Action<Id>>, key: string)
    requires Sound(p, w) && Wf(s) && OneCell(s, key) && GoodKey(s, w.good, key)
    requires DisciplinedRun(p, sch, s, actions) && NoReset(actions, key)
    ensures var t := Run(p, true, s, actions);
            && KeyWf(s, key) && KeyWf(t, key)
            && Wf(t) && OneCell(t, key) && GoodKey(t, w.good, key) && s.clock <= t.clock
            && w.cost * GrantedTo(p, true, s, actions, key, w.when) + Funds(w, t, key) <=
               Funds(w, s, key) + w.tick * (t.clock - s.clock)
    decreases |actions|
  {
    hide Sound, Wf, OneCell, GoodKey, Funds, Step, Permitted, Disciplined, Gain;
    KeyThere(s, key);
    if actions != [] {
      var (t, answer) := Step(p, true, s, actions[0]);
      CollectingOneCell(p, s, actions[0], key);
      StepFunds(p, w, s, actions[0], key);
      GrantsArePaid(p, w, sch, t, actions[1..], key);
      var end := Run(p, true, t, actions[1..]);
      var gain := if w.when(s.clock) then Gain(s, actions[0], answer, key) else 0;
      Distribute(w.cost, gain, GrantedTo(p, true, t, actions[1..], key, w.when));
      Distribute(w.tick, t.clock - s.clock, end.clock - t.clock);
    }
  }

  lemma Distribute(c: int, x: int, y: int)
    ensures c * (x + y) == c * x + c * y
  {
  }
}
