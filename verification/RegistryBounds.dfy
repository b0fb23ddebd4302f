/** Without collection and Reset, all callers of a key work on one cell, whatever the interleaving. */
module RegistryBounds {
  import opened Registry
  import opened RegistrySimulation

  /** A use of a cell: when, and for what. */
  datatype Request = Request(at: int, op: Op)

  ghost predicate OnKey<Id, B>(s: State<Id, B>, a: Action<Id>, key: string) {
    a.Use? && At(s, a.c).Found? && At(s, a.c).key == key
  }

  /** The uses that a run makes on behalf of `key`, in their order. */
  ghost function UsesOf<Id, B>(p: Policy<B>, s: State<Id, B>, actions: seq<Action<Id>>, key: string): seq<Request>
    decreases |actions|
  {
    if actions == [] then []
    else
      var rest := UsesOf(p, Step(p, false, s, actions[0]).0, actions[1..], key);
      if OnKey(s, actions[0], key) then [Request(s.clock, At(s, actions[0].c).op)] + rest else rest
  }

  ghost function Worth(q: Request, answer: Answer): nat {
    if q.op.Allow? && 0 < q.op.n && answer == Granted(true) then q.op.n else 0
  }

  /** What a cell grants to a sequence of uses while `when` holds. */
  ghost function CellGrants<B>(p: Policy<B>, b: B, requests: seq<Request>, when: int -> bool): nat
    decreases |requests|
  {
    if requests == [] then 0
    else
      var q := requests[0];
      var (c, answer) := p.serve(b, q.op, q.at);
      (if when(q.at) then Worth(q, answer) else 0) + CellGrants(p, c, requests[1..], when)
  }

  ghost predicate Ordered(requests: seq<Request>, from: int, to: int)
    decreases |requests|
  {
    if requests == [] then from <= to
    else from <= requests[0].at && Proper(requests[0].op) && Ordered(requests[1..], requests[0].at, to)
  }

  /** Cells are made under new names, and `key` is not reset. */
  ghost predicate Undisturbed<Id, B>(p: Policy<B>, s: State<Id, B>, actions: seq<Action<Id>>, key: string)
    decreases |actions|
  {
    actions == [] ||
    (NewName(s, actions[0]) && (actions[0].Reset? ==> actions[0].key != key)
     && Undisturbed(p, Step(p, false, s, actions[0]).0, actions[1..], key))
  }

  /** Whoever has found a cell for `key` has found the one in the table. */
  ghost predicate OneCell<Id, B>(s: State<Id, B>, key: string) {
    forall c :: At(s, c).Found? && At(s, c).key == key ==>
                  key in s.store.table && At(s, c).id == s.store.table[key]
  }

  lemma StepOneCell<Id, B>(p: Policy<B>, s: State<Id, B>, a: Action<Id>, key: string)
    requires Wf(s) && OneCell(s, key)
    requires NewName(s, a) && (a.Reset? ==> a.key != key)
    ensures var t := Step(p, false, s, a).0;
            && Wf(t) && OneCell(t, key) && s.clock <= t.clock
            && (key in s.store.table ==> key in t.store.table && t.store.table[key] == s.store.table[key])
  {
    hide Wf;
    StepWf(p, false, s, a);
    var t := Step(p, false, s, a).0;
    forall c: nat | At(t, c).Found? && At(t, c).key == key
      ensures key in t.store.table && At(t, c).id == t.store.table[key]
    {
      assert At(s, c).Found? && At(s, c).key == key ==> key in s.store.table && At(s, c).id == s.store.table[key];
    }
  }

  /** A step on behalf of `key` works on its cell, and no other step touches that cell. */
  lemma StepOnCell<Id, B>(p: Policy<B>, s: State<Id, B>, a: Action<Id>, key: string)
    requires Wf(s) && OneCell(s, key) && key in s.store.table
    requires NewName(s, a) && (a.Reset? ==> a.key != key)
    ensures var (t, answer) := Step(p, false, s, a);
            && Wf(t) && KeyWf(s, key) && KeyWf(t, key) && key in t.store.table
            && (OnKey(s, a, key) ==>
                  Proper(At(s, a.c).op) && (CellOf(t, key), answer) == p.serve(CellOf(s, key), At(s, a.c).op, s.clock))
            && (!OnKey(s, a, key) ==> CellOf(t, key) == CellOf(s, key))
  {
    StepOneCell(p, s, a, key);
    assert KeyWf(s, key);
    if a.Use? {
      assert ClientWf(s, a.c) && OwnKey(s, a.c, key);
    }
  }

  /** A key of the registry is granted what its cell grants to the same uses alone. */
  lemma {:induction false} KeyRunsAlone<Id, B>(p: Policy<B>, s: State<Id, B>, actions: seq<Action<Id>>, key: string,
                                              when: int -> bool)
    requires Wf(s) && OneCell(s, key) && key in s.store.table && Undisturbed(p, s, actions, key)
    ensures var uses := UsesOf(p, s, actions, key);
            && KeyWf(s, key) && Ordered(uses, s.clock, Run(p, false, s, actions).clock)
            && GrantedTo(p, false, s, actions, key, when) == CellGrants(p, CellOf(s, key), uses, when)
    decreases |actions|
  {
    hide Wf, Step, OneCell, Proper;
    KeyThere(s, key);
    if actions != [] {
      var a := actions[0];
      StepOneCell(p, s, a, key);
      StepOnCell(p, s, a, key);
      KeyRunsAlone(p, Step(p, false, s, a).0, actions[1..], key, when);
      var rest := UsesOf(p, Step(p, false, s, a).0, actions[1..], key);
      if OnKey(s, a, key) {
        var q := Request(s.clock, At(s, a.c).op);
        assert ([q] + rest)[1..] == rest;
        OrderedFrom(rest, s.clock, Step(p, false, s, a).0.clock, Run(p, false, s, actions).clock);
      } else {
        OrderedFrom(rest, s.clock, Step(p, false, s, a).0.clock, Run(p, false, s, actions).clock);
      }
    }
  }

  lemma KeyThere<Id, B>(s: State<Id, B>, key: string)
    requires Wf(s)
    ensures KeyWf(s, key)
  {
  }

  lemma OrderedFrom(requests: seq<Request>, from: int, later: int, to: int)
    requires Ordered(requests, later, to) && from <= later
    ensures Ordered(requests, from, to)
  {
  }

  /** A key that is new starts from a new cell, at the time it is made. */
  lemma {:induction false} NewKeyRunsAlone<Id, B>(p: Policy<B>, s: State<Id, B>, actions: seq<Action<Id>>, key: string,
                                                 when: int -> bool)
    returns (born: int, uses: seq<Request>)
    requires Wf(s) && OneCell(s, key) && key !in s.store.table && Undisturbed(p, s, actions, key)
    ensures s.clock <= born && Ordered(uses, born, Run(p, false, s, actions).clock)
    ensures GrantedTo(p, false, s, actions, key, when) == CellGrants(p, p.blank(born), uses, when)
    decreases |actions|
  {
    hide Wf, Step, OneCell, Proper;
    if actions == [] {
      born, uses := s.clock, [];
    } else {
      var a := actions[0];
      var t := Step(p, false, s, a).0;
      StepOneCell(p, s, a, key);
      NotYet(p, s, a, key);
      if key in t.store.table {
        KeyRunsAlone(p, t, actions[1..], key, when);
        born, uses := s.clock, UsesOf(p, t, actions[1..], key);
      } else {
        born, uses := NewKeyRunsAlone(p, t, actions[1..], key, when);
      }
    }
  }

  lemma NotYet<Id, B>(p: Policy<B>, s: State<Id, B>, a: Action<Id>, key: string)
    requires OneCell(s, key) && key !in s.store.table
    ensures var (t, answer) := Step(p, false, s, a);
            && Gain(s, a, answer, key) == 0
            && (key in t.store.table ==>
                  t.clock == s.clock && KeyWf(t, key) && CellOf(t, key) == p.blank(s.clock))
  {
  }

  // ----- what holds of the cell of a key in every reachable state -----

  ghost predicate KeepsAt<B>(p: Policy<B>, good: (B, int) -> bool, b: B, op: Op, now: int, later: int) {
    && good(p.blank(now), now)
    && (good(b, now) && Proper(op) ==> good(p.serve(b, op, now).0, now))
    && (good(b, now) && now <= later ==> good(b, later))
  }

  ghost predicate Keeps<B(!new)>(p: Policy<B>, good: (B, int) -> bool) {
    forall b, op, now, later :: KeepsAt(p, good, b, op, now, later)
  }

  ghost predicate GoodKey<Id, B>(s: State<Id, B>, good: (B, int) -> bool, key: string) {
    key in s.store.table ==> KeyWf(s, key) && good(CellOf(s, key), s.clock)
  }

  lemma StepGood<Id, B(!new)>(p: Policy<B>, good: (B, int) -> bool, s: State<Id, B>, a: Action<Id>, key: string)
    requires Keeps(p, good) && Wf(s) && OneCell(s, key) && GoodKey(s, good, key)
    requires NewName(s, a) && (a.Reset? ==> a.key != key)
    ensures GoodKey(Step(p, false, s, a).0, good, key)
  {
    hide Wf, Step, OneCell;
    var t := Step(p, false, s, a).0;
    StepOneCell(p, s, a, key);
    if key in s.store.table {
      StepOnCell(p, s, a, key);
      var op := if a.Use? && At(s, a.c).Found? then At(s, a.c).op else Read;
      assert KeepsAt(p, good, CellOf(s, key), op, s.clock, t.clock);
      assert KeepsAt(p, good, CellOf(t, key), op, s.clock, t.clock);
    } else {
      NotYet(p, s, a, key);
      if key in t.store.table {
        assert KeepsAt(p, good, CellOf(t, key), Read, s.clock, t.clock);
      }
    }
  }

  lemma {:induction false} RunGood<Id, B(!new)>(p: Policy<B>, good: (B, int) -> bool, s: State<Id, B>,
                                              actions: seq<Action<Id>>, key: string)
    requires Keeps(p, good) && Wf(s) && OneCell(s, key) && GoodKey(s, good, key) && Undisturbed(p, s, actions, key)
    ensures var t := Run(p, false, s, actions);
            Wf(t) && OneCell(t, key) && GoodKey(t, good, key) && s.clock <= t.clock
    decreases |actions|
  {
    hide Keeps, Wf, Step, OneCell, GoodKey;
    if actions != [] {
      StepGood(p, good, s, actions[0], key);
      StepOneCell(p, s, actions[0], key);
      RunGood(p, good, Step(p, false, s, actions[0]).0, actions[1..], key);
    }
  }

  lemma StartOneCell<Id, B>(clock: int, key: string)
    ensures Wf(Start<Id, B>(clock)) && OneCell(Start<Id, B>(clock), key) && key !in Start<Id, B>(clock).store.table
  {
  }

  /**
   A run that is disciplined for the collecting limiter, with no Reset of `key`, does not disturb it in the other one.
   */
  ghost predicate NoReset<Id>(actions: seq<Action<Id>>, key: string) {
    forall i :: 0 <= i < |actions| ==> !(actions[i].Reset? && actions[i].key == key)
  }

  lemma {:induction false} DisciplinedIsUndisturbed<Id, B(!new)>(p: Policy<B>, r: Likeness<B>, loose: bool,
      sch: Schedule, g: State<Id, B>, u: State<Id, B>, actions: seq<Action<Id>>, key: string)
    requires Lawful(p, r, loose) && Agree(r, loose, g, u) && Suits(sch, loose)
    requires DisciplinedRun(p, sch, g, actions) && NoReset(actions, key)
    ensures Undisturbed(p, u, actions, key)
    decreases |actions|
  {
    hide Lawful, Wf, Agree, Step, Permitted;
    if actions != [] {
      AgreeAt(r, loose, g, u, if actions[0].Make? then actions[0].c else 0, key);
      StepAgrees(p, r, loose, sch, g, u, actions[0]);
      DisciplinedIsUndisturbed(p, r, loose, sch, Step(p, true, g, actions[0]).0, Step(p, false, u, actions[0]).0,
                               actions[1..], key);
    }
  }
}
