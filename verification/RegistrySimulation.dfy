/** When a limiter that collects idle keys answers as one that never does: a simulation between the two. */
module RegistrySimulation {
  import opened Registry

  /**
   How the cells of the two limiters may differ, always the collecting one first. `rel` pairs cannot be told apart at
   this instant and `firm` pairs at no later one. A `gone` cell has nothing left to remember.
   */
  datatype Likeness<!B> = Likeness(rel: (B, B, int) -> bool, firm: (B, B, int) -> bool, gone: (B, int) -> bool)

  predicate Proper(op: Op) {
    op.Read? || 0 < op.n
  }

  /**
   `loose` pairs may be related without being firm, as long as nobody reads them and they are used before time passes.
   */
  ghost predicate ServesAlike<B>(p: Policy<B>, r: Likeness<B>, loose: bool, a: B, b: B, op: Op, now: int) {
    r.rel(a, b, now) && Proper(op) && (loose ==> op.Allow?) ==>
      && p.serve(a, op, now).1 == p.serve(b, op, now).1
      && r.firm(p.serve(a, op, now).0, p.serve(b, op, now).0, now)
  }

  ghost predicate Lasts<B>(r: Likeness<B>, loose: bool, a: B, b: B, now: int, later: int) {
    && (r.firm(a, b, now) ==> r.rel(a, b, now))
    && (r.firm(a, b, now) && now <= later ==> r.firm(a, b, later))
    && (r.gone(b, now) && now <= later ==> r.gone(b, later))
    && (!loose && r.rel(a, b, now) ==> r.firm(a, b, now))
  }

  ghost predicate Forgets<B>(p: Policy<B>, r: Likeness<B>, a: B, b: B, now: int) {
    && (r.rel(a, b, now) && p.idle(a, now) ==> r.gone(b, now))
    && (r.gone(b, now) ==> r.rel(p.blank(now), b, now))
    && r.firm(p.blank(now), p.blank(now), now)
  }

  ghost predicate Lawful<B(!new)>(p: Policy<B>, r: Likeness<B>, loose: bool) {
    && (forall a, b, op, now :: ServesAlike(p, r, loose, a, b, op, now))
    && (forall a, b, now, later :: Lasts(r, loose, a, b, now, later))
    && (forall a, b, now :: Forgets(p, r, a, b, now))
  }

  // ----- one limiter -----

  /** Look-ups lead to cells, distinct keys to distinct cells, and callers hold cells of their own key. */
  ghost predicate KeyWf<Id, B>(s: State<Id, B>, k: string) {
    k in s.store.table ==> s.store.table[k] in s.store.cells
  }

  ghost predicate Apart<Id, B>(s: State<Id, B>, j: string, k: string) {
    j in s.store.table && k in s.store.table && s.store.table[j] == s.store.table[k] ==> j == k
  }

  ghost predicate ClientWf<Id, B>(s: State<Id, B>, c: nat) {
    && (At(s, c).Found? ==> At(s, c).id in s.store.cells)
    && (!At(s, c).Idle? ==> Proper(At(s, c).op))
  }

  ghost predicate OwnKey<Id, B>(s: State<Id, B>, c: nat, k: string) {
    At(s, c).Found? && k in s.store.table && s.store.table[k] == At(s, c).id ==> k == At(s, c).key
  }

  ghost predicate Wf<Id, B>(s: State<Id, B>) {
    && (forall k :: KeyWf(s, k)) && (forall j, k :: Apart(s, j, k))
    && (forall c :: ClientWf(s, c)) && (forall c, k :: OwnKey(s, c, k))
  }

  // ----- the two side by side -----

  ghost function CellOf<Id, B>(s: State<Id, B>, k: string): B
    requires KeyWf(s, k) && k in s.store.table
  {
    s.store.cells[s.store.table[k]]
  }

  ghost predicate HeldKey<Id, B>(s: State<Id, B>, k: string) {
    k in s.store.table && exists c :: At(s, c).Found? && At(s, c).id == s.store.table[k]
  }

  /** `g` collects and `u` does not: what `g` has, `u` has alike; what only `u` has is gone. */
  ghost predicate KeyAlike<Id, B>(r: Likeness<B>, g: State<Id, B>, u: State<Id, B>, k: string)
    requires KeyWf(g, k) && KeyWf(u, k)
  {
    && (k in g.store.table ==>
          k in u.store.table && r.rel(CellOf(g, k), CellOf(u, k), g.clock)
          && (r.firm(CellOf(g, k), CellOf(u, k), g.clock) || HeldKey(g, k)))
    && (k in u.store.table && k !in g.store.table ==> r.gone(CellOf(u, k), g.clock))
  }

  /** Callers stand at the same point, except that one may have missed in `g` what it found in `u`. */
  ghost predicate ClientAlike<Id, B>(r: Likeness<B>, loose: bool, g: State<Id, B>, u: State<Id, B>, c: nat)
    requires ClientWf(g, c) && ClientWf(u, c)
  {
    var x, y := At(g, c), At(u, c);
    && (x.Idle? <==> y.Idle?)
    && (!x.Idle? ==> x.key == y.key && x.op == y.op && (loose ==> x.op.Allow?))
    && (x.Found? ==> y.Found? && r.rel(g.store.cells[x.id], u.store.cells[y.id], g.clock))
    && (x.Missed? && y.Found? ==> y.key in u.store.table && u.store.table[y.key] == y.id)
  }

  /** Callers share cells with the table, and with each other, in `g` exactly as in `u`. */
  ghost predicate SharesKey<Id, B>(g: State<Id, B>, u: State<Id, B>, c: nat, k: string) {
    At(g, c).Found? && At(u, c).Found? && k in u.store.table ==>
      (u.store.table[k] == At(u, c).id <==> k in g.store.table && g.store.table[k] == At(g, c).id)
  }

  ghost predicate SharesCell<Id, B>(g: State<Id, B>, u: State<Id, B>, c: nat, d: nat) {
    At(g, c).Found? && At(u, c).Found? && At(g, d).Found? && At(u, d).Found? ==>
      (At(u, c).id == At(u, d).id <==> At(g, c).id == At(g, d).id)
  }

  ghost predicate Paired<Id, B>(r: Likeness<B>, loose: bool, g: State<Id, B>, u: State<Id, B>)
    requires Wf(g) && Wf(u)
  {
    && g.clock == u.clock && u.store.cells.Keys <= g.store.cells.Keys
    && (forall k :: KeyAlike(r, g, u, k))
    && (forall c :: ClientAlike(r, loose, g, u, c))
    && (forall c, k :: SharesKey(g, u, c, k))
    && (forall c, d :: SharesCell(g, u, c, d))
  }

  ghost predicate Agree<Id, B>(r: Likeness<B>, loose: bool, g: State<Id, B>, u: State<Id, B>) {
    Wf(g) && Wf(u) && Paired(r, loose, g, u)
  }

  /** A loose likeness is for schedules in which nobody reads and a call takes no time. */
  ghost predicate Suits(sch: Schedule, loose: bool) {
    loose ==> !sch.peeks && !sch.overlap.Freely?
  }

  // ----- each step keeps one limiter in order -----

  lemma CollectWf<Id, B>(p: Policy<B>, s: State<Id, B>)
    requires Wf(s)
    ensures Wf(s.(store := Collect(p, s.store, s.clock)))
  {
    var t := s.(store := Collect(p, s.store, s.clock));
    forall k
      ensures KeyWf(t, k)
    {
      assert KeyWf(s, k);
    }
    forall j, k
      ensures Apart(t, j, k)
    {
      assert Apart(s, j, k);
    }
    forall c: nat
      ensures ClientWf(t, c)
    {
      assert ClientWf(s, c);
    }
    forall c: nat, k
      ensures OwnKey(t, c, k)
    {
      assert OwnKey(s, c, k);
    }
  }

  /** The caller gets the cell of its key. */
  lemma GrabWf<Id, B>(s: State<Id, B>, c: nat, key: string, op: Op)
    requires Wf(s) && key in s.store.table && Proper(op)
    ensures Wf(Put(s, c, Found(key, s.store.table[key], op)))
  {
    var t := Put(s, c, Found(key, s.store.table[key], op));
    forall k
      ensures KeyWf(t, k)
    {
      assert KeyWf(s, k);
    }
    forall j, k
      ensures Apart(t, j, k)
    {
      assert Apart(s, j, k);
    }
    forall d: nat
      ensures ClientWf(t, d)
    {
      assert ClientWf(s, d) && KeyWf(s, key);
    }
    forall d: nat, k
      ensures OwnKey(t, d, k)
    {
      assert ClientWf(s, d) && OwnKey(s, d, k) && KeyWf(s, key) && Apart(s, key, k);
    }
  }

  function Filed<Id, B>(s: State<Id, B>, key: string, id: Id, b: B): State<Id, B> {
    s.(store := s.store.(table := s.store.table[key := id], cells := s.store.cells[id := b]))
  }

  lemma FileWf<Id, B>(s: State<Id, B>, key: string, id: Id, b: B)
    requires Wf(s) && key !in s.store.table && id !in s.store.cells
    ensures Wf(Filed(s, key, id, b))
  {
    var t := Filed(s, key, id, b);
    forall k
      ensures KeyWf(t, k)
    {
      assert KeyWf(s, k);
    }
    forall j, k
      ensures Apart(t, j, k)
    {
      assert KeyWf(s, j) && KeyWf(s, k) && Apart(s, j, k);
    }
    forall c: nat
      ensures ClientWf(t, c)
    {
      assert ClientWf(s, c);
    }
    forall c: nat, k
      ensures OwnKey(t, c, k)
    {
      assert ClientWf(s, c) && OwnKey(s, c, k) && KeyWf(s, k);
    }
  }

  /** The caller moves to a position where it holds nothing, and no key is added. */
  lemma QuietWf<Id, B>(s: State<Id, B>, t: State<Id, B>, c: nat)
    requires Wf(s) && t.store.cells.Keys >= s.store.cells.Keys && t.store.table.Keys <= s.store.table.Keys
    requires forall k :: k in t.store.table ==> t.store.table[k] == s.store.table[k]
    requires forall d: nat :: d != c ==> At(t, d) == At(s, d)
    requires At(t, c) == At(s, c) || At(t, c).Idle? || (At(t, c).Missed? && Proper(At(t, c).op))
    ensures Wf(t)
  {
    forall k
      ensures KeyWf(t, k)
    {
      assert KeyWf(s, k);
    }
    forall j, k
      ensures Apart(t, j, k)
    {
      assert Apart(s, j, k);
    }
    forall d: nat
      ensures ClientWf(t, d)
    {
      assert ClientWf(s, d);
    }
    forall d: nat, k
      ensures OwnKey(t, d, k)
    {
      assert OwnKey(s, d, k);
    }
  }

  lemma StepWf<Id, B>(p: Policy<B>, gc: bool, s: State<Id, B>, a: Action<Id>)
    requires Wf(s) && NewName(s, a)
    ensures Wf(Step(p, gc, s, a).0)
  {
    hide Wf, Collect;
    var t := Step(p, gc, s, a).0;
    match a {
      case Tick(_) => QuietWf(s, t, 0);
      case Reset(_) => QuietWf(s, t, 0);
      case Look(c, key, op) =>
        if At(s, c).Idle? && !Free(op) && key in s.store.table {
          GrabWf(s, c, key, op);
        } else {
          QuietWf(s, t, c);
        }
      case Use(c) => QuietWf(s, t, c);
      case Make(c, id) =>
        if At(s, c).Missed? {
          MakeWf(p, gc, s, c, id);
        }
    }
  }

  lemma MakeWf<Id, B>(p: Policy<B>, gc: bool, s: State<Id, B>, c: nat, id: Id)
    requires Wf(s) && id !in s.store.cells && At(s, c).Missed?
    ensures Wf(Step(p, gc, s, Make(c, id)).0)
  {
    hide Wf, Collect, Proper;
    var key, op := At(s, c).key, At(s, c).op;
    ProperOp(s, c);
    var h := s.(store := if gc then Collect(p, s.store, s.clock) else s.store);
    CollectWf(p, s);
    CollectKeepsCells(p, s);
    var f := if key in h.store.table then h else Filed(h, key, id, p.blank(s.clock));
    if key !in h.store.table {
      FileWf(h, key, id, p.blank(s.clock));
    }
    GrabWf(f, c, key, op);
  }

  lemma ProperOp<Id, B>(s: State<Id, B>, c: nat)
    requires Wf(s) && !At(s, c).Idle?
    ensures Proper(At(s, c).op)
  {
    assert ClientWf(s, c);
  }

  lemma CollectKeepsCells<Id, B>(p: Policy<B>, s: State<Id, B>)
    ensures Collect(p, s.store, s.clock).cells == s.store.cells
  {
  }

  // ----- each step keeps the agreement -----

  lemma TickAgrees<Id, B(!new)>(p: Policy<B>, r: Likeness<B>, loose: bool, g: State<Id, B>, u: State<Id, B>,
                                elapsed: nat)
    requires Lawful(p, r, loose) && Agree(r, loose, g, u) && (loose ==> AllIdle(g))
    ensures Agree(r, loose, g.(clock := g.clock + elapsed), u.(clock := u.clock + elapsed))
  {
    var h, v := g.(clock := g.clock + elapsed), u.(clock := u.clock + elapsed);
    QuietWf(g, h, 0);
    QuietWf(u, v, 0);
    forall k
      ensures KeyAlike(r, h, v, k)
    {
      assert KeyAlike(r, g, u, k);
      if k in g.store.table {
        assert Lasts(r, loose, CellOf(g, k), CellOf(u, k), g.clock, h.clock);
        assert Lasts(r, loose, CellOf(g, k), CellOf(u, k), h.clock, h.clock);
      } else if k in u.store.table {
        assert Lasts(r, loose, CellOf(u, k), CellOf(u, k), g.clock, h.clock);
      }
    }
    forall c: nat
      ensures ClientAlike(r, loose, h, v, c)
    {
      assert ClientAlike(r, loose, g, u, c) && ClientWf(g, c) && ClientWf(u, c);
      var x, y := At(g, c), At(u, c);
      if x.Found? {
        assert Lasts(r, loose, g.store.cells[x.id], u.store.cells[y.id], g.clock, h.clock);
        assert Lasts(r, loose, g.store.cells[x.id], u.store.cells[y.id], h.clock, h.clock);
      }
    }
    SameSharing(g, u, h, v);
  }

  /** Sharing depends on the tables and the callers only. */
  lemma SameSharing<Id, B>(g: State<Id, B>, u: State<Id, B>, h: State<Id, B>, v: State<Id, B>)
    requires h.store.table == g.store.table && v.store.table == u.store.table
    requires forall c: nat :: At(h, c) == At(g, c) && At(v, c) == At(u, c)
    requires (forall c, k :: SharesKey(g, u, c, k)) && (forall c, d :: SharesCell(g, u, c, d))
    ensures (forall c, k :: SharesKey(h, v, c, k)) && (forall c, d :: SharesCell(h, v, c, d))
  {
    forall c: nat, k
      ensures SharesKey(h, v, c, k)
    {
      assert SharesKey(g, u, c, k);
    }
    forall c: nat, d: nat
      ensures SharesCell(h, v, c, d)
    {
      assert SharesCell(g, u, c, d);
    }
  }

  /** In both limiters the caller gets the cell of its key. */
  lemma GrabAgrees<Id, B>(r: Likeness<B>, loose: bool, g: State<Id, B>, u: State<Id, B>, c: nat, key: string, op: Op)
    requires Agree(r, loose, g, u) && !At(g, c).Found? && key in g.store.table && key in u.store.table
    requires Proper(op) && (loose ==> op.Allow?)
    ensures Agree(r, loose, Put(g, c, Found(key, g.store.table[key], op)),
            Put(u, c, Found(key, u.store.table[key], op)))
  {
    var h, v := Put(g, c, Found(key, g.store.table[key], op)), Put(u, c, Found(key, u.store.table[key], op));
    GrabWf(g, c, key, op);
    GrabWf(u, c, key, op);
    assert KeyAlike(r, g, u, key);
    forall k
      ensures KeyAlike(r, h, v, k)
    {
      assert KeyAlike(r, g, u, k);
      StillHeld(g, h, c, k);
    }
    forall d: nat
      ensures ClientAlike(r, loose, h, v, d)
    {
      assert ClientAlike(r, loose, g, u, d);
    }
    forall d: nat, k
      ensures SharesKey(h, v, d, k)
    {
      assert SharesKey(g, u, d, k) && Apart(g, key, k) && Apart(u, key, k) && KeyAlike(r, g, u, k);
    }
    forall d: nat, e: nat
      ensures SharesCell(h, v, d, e)
    {
      assert SharesCell(g, u, d, e) && SharesKey(g, u, d, key) && SharesKey(g, u, e, key);
    }
  }

  lemma StillHeld<Id, B>(g: State<Id, B>, h: State<Id, B>, c: nat, k: string)
    requires h.store.table == g.store.table && !At(g, c).Found? && forall d: nat :: d != c ==> At(h, d) == At(g, d)
    ensures HeldKey(g, k) ==> HeldKey(h, k)
  {
    if HeldKey(g, k) {
      var d: nat :| At(g, d).Found? && At(g, d).id == g.store.table[k];
      assert At(h, d).Found? && At(h, d).id == h.store.table[k];
    }
  }

  /** The caller misses its key in `g`; in `u` it finds it or misses it too. */
  lemma MissAgrees<Id, B>(r: Likeness<B>, loose: bool, g: State<Id, B>, u: State<Id, B>, c: nat, key: string, op: Op)
    requires Agree(r, loose, g, u) && At(g, c).Idle? && Proper(op) && (loose ==> op.Allow?)
    ensures key in u.store.table ==>
              Agree(r, loose, Put(g, c, Missed(key, op)), Put(u, c, Found(key, u.store.table[key], op)))
    ensures key !in u.store.table ==> Agree(r, loose, Put(g, c, Missed(key, op)), Put(u, c, Missed(key, op)))
  {
    var h := Put(g, c, Missed(key, op));
    var v := Put(u, c, if key in u.store.table then Found(key, u.store.table[key], op) else Missed(key, op));
    QuietWf(g, h, c);
    if key in u.store.table {
      GrabWf(u, c, key, op);
    } else {
      QuietWf(u, v, c);
    }
    forall k
      ensures KeyAlike(r, h, v, k)
    {
      assert KeyAlike(r, g, u, k);
      StillHeld(g, h, c, k);
    }
    forall d: nat
      ensures ClientAlike(r, loose, h, v, d)
    {
      assert ClientAlike(r, loose, g, u, d);
    }
    forall d: nat, k
      ensures SharesKey(h, v, d, k)
    {
      assert SharesKey(g, u, d, k);
    }
    forall d: nat, e: nat
      ensures SharesCell(h, v, d, e)
    {
      assert SharesCell(g, u, d, e);
    }
  }

  /** A collection that takes no held cell. */
  lemma CollectAgrees<Id, B(!new)>(p: Policy<B>, r: Likeness<B>, loose: bool, g: State<Id, B>, u: State<Id, B>)
    requires Lawful(p, r, loose) && Agree(r, loose, g, u)
    requires g.clock - g.store.lastGC < p.gcInterval || NothingHeldIsStale(p, g)
    ensures Agree(r, loose, g.(store := Collect(p, g.store, g.clock)), u)
  {
    var h := g.(store := Collect(p, g.store, g.clock));
    CollectWf(p, g);
    forall k
      ensures KeyAlike(r, h, u, k)
    {
      assert KeyAlike(r, g, u, k);
      if k in g.store.table {
        assert Forgets(p, r, CellOf(g, k), CellOf(u, k), g.clock);
        if k in h.store.table && HeldKey(g, k) {
          var d: nat :| At(g, d).Found? && At(g, d).id == g.store.table[k];
          assert At(h, d).Found? && At(h, d).id == h.store.table[k];
        }
      }
    }
    forall c: nat
      ensures ClientAlike(r, loose, h, u, c)
    {
      assert ClientAlike(r, loose, g, u, c);
    }
    forall c: nat, k
      ensures SharesKey(h, u, c, k)
    {
      assert SharesKey(g, u, c, k);
    }
    forall c: nat, d: nat
      ensures SharesCell(h, u, c, d)
    {
      assert SharesCell(g, u, c, d);
    }
  }

  /** Neither limiter has the key: both make the same new cell. */
  lemma FileAgrees<Id, B(!new)>(p: Policy<B>, r: Likeness<B>, loose: bool, g: State<Id, B>, u: State<Id, B>,
                                key: string, id: Id)
    requires Lawful(p, r, loose) && Agree(r, loose, g, u)
    requires key !in g.store.table && key !in u.store.table && id !in g.store.cells
    ensures Agree(r, loose, Filed(g, key, id, p.blank(g.clock)), Filed(u, key, id, p.blank(g.clock)))
  {
    var b := p.blank(g.clock);
    var h, v := Filed(g, key, id, b), Filed(u, key, id, b);
    FileWf(g, key, id, b);
    FileWf(u, key, id, b);
    assert Forgets(p, r, b, b, g.clock) && Lasts(r, loose, b, b, g.clock, g.clock);
    forall k
      ensures KeyAlike(r, h, v, k)
    {
      assert KeyAlike(r, g, u, k) && KeyWf(g, k) && KeyWf(u, k);
      if k != key && HeldKey(g, k) {
        var d: nat :| At(g, d).Found? && At(g, d).id == g.store.table[k];
        assert At(h, d).Found? && At(h, d).id == h.store.table[k];
      }
    }
    forall c: nat
      ensures ClientAlike(r, loose, h, v, c)
    {
      assert ClientAlike(r, loose, g, u, c) && ClientWf(g, c) && ClientWf(u, c);
    }
    forall c: nat, k
      ensures SharesKey(h, v, c, k)
    {
      assert SharesKey(g, u, c, k) && ClientWf(g, c) && ClientWf(u, c);
    }
    forall c: nat, d: nat
      ensures SharesCell(h, v, c, d)
    {
      assert SharesCell(g, u, c, d);
    }
  }

  /** The key was collected: `g` makes a new cell for the caller, which gets the old one in `u`. */
  lemma ReviveAgrees<Id, B(!new)>(p: Policy<B>, r: Likeness<B>, loose: bool, g: State<Id, B>, u: State<Id, B>,
                                  c: nat, key: string, op: Op, id: Id)
    requires Lawful(p, r, loose) && Agree(r, loose, g, u) && !At(g, c).Found? && Proper(op) && (loose ==> op.Allow?)
    requires key !in g.store.table && key in u.store.table && id !in g.store.cells
    ensures Agree(r, loose, Put(Filed(g, key, id, p.blank(g.clock)), c, Found(key, id, op)),
                  Put(u, c, Found(key, u.store.table[key], op)))
  {
    var b := p.blank(g.clock);
    var f := Filed(g, key, id, b);
    var h, v := Put(f, c, Found(key, id, op)), Put(u, c, Found(key, u.store.table[key], op));
    FileWf(g, key, id, b);
    GrabWf(f, c, key, op);
    GrabWf(u, c, key, op);
    assert KeyAlike(r, g, u, key) && Forgets(p, r, b, CellOf(u, key), g.clock);
    forall k
      ensures KeyAlike(r, h, v, k)
    {
      assert KeyAlike(r, g, u, k) && KeyWf(g, k);
      if k == key {
        assert At(h, c).Found? && At(h, c).id == h.store.table[k];
      } else if HeldKey(g, k) {
        var d: nat :| At(g, d).Found? && At(g, d).id == g.store.table[k];
        assert At(h, d).Found? && At(h, d).id == h.store.table[k];
      }
    }
    forall d: nat
      ensures ClientAlike(r, loose, h, v, d)
    {
      assert ClientAlike(r, loose, g, u, d) && ClientWf(g, d);
    }
    ReviveShares(g, u, c, key, op, id, b);
  }

  lemma ReviveShares<Id, B>(g: State<Id, B>, u: State<Id, B>, c: nat, key: string, op: Op, id: Id, b: B)
    requires Wf(g) && Wf(u) && key !in g.store.table && key in u.store.table && id !in g.store.cells
    requires (forall d, k :: SharesKey(g, u, d, k)) && (forall d, e :: SharesCell(g, u, d, e))
    ensures var h := Put(Filed(g, key, id, b), c, Found(key, id, op));
            var v := Put(u, c, Found(key, u.store.table[key], op));
            (forall d, k :: SharesKey(h, v, d, k)) && (forall d, e :: SharesCell(h, v, d, e))
  {
    var h := Put(Filed(g, key, id, b), c, Found(key, id, op));
    var v := Put(u, c, Found(key, u.store.table[key], op));
    forall d: nat, k
      ensures SharesKey(h, v, d, k)
    {
      assert SharesKey(g, u, d, k) && ClientWf(g, d) && Apart(u, key, k) && KeyWf(g, k);
    }
    forall d: nat, e: nat
      ensures SharesCell(h, v, d, e)
    {
      assert SharesCell(g, u, d, e) && ClientWf(g, d) && ClientWf(g, e);
      assert SharesKey(g, u, d, key) && SharesKey(g, u, e, key);
    }
  }

  /** The state after `c` has used its cell, which then is `b`. */
  function Released<Id, B>(s: State<Id, B>, c: nat, b: B): State<Id, B>
    requires At(s, c).Found?
  {
    Put(s.(store := s.store.(cells := s.store.cells[At(s, c).id := b])), c, Idle)
  }

  /** In both limiters the caller leaves its cell, with contents that will stay alike. */
  lemma UseAgrees<Id, B(!new)>(p: Policy<B>, r: Likeness<B>, loose: bool, g: State<Id, B>, u: State<Id, B>, c: nat,
                               a: B, b: B)
    requires Lawful(p, r, loose) && Agree(r, loose, g, u) && At(g, c).Found? && At(u, c).Found? && r.firm(a, b, g.clock)
    ensures Agree(r, loose, Released(g, c, a), Released(u, c, b))
  {
    var h, v := Released(g, c, a), Released(u, c, b);
    assert ClientWf(g, c) && ClientWf(u, c);
    QuietWf(g, h, c);
    QuietWf(u, v, c);
    assert Lasts(r, loose, a, b, g.clock, g.clock);
    forall k
      ensures KeyAlike(r, h, v, k)
    {
      assert KeyAlike(r, g, u, k) && SharesKey(g, u, c, k);
      if k in g.store.table && g.store.table[k] != At(g, c).id && HeldKey(g, k) {
        var d: nat :| At(g, d).Found? && At(g, d).id == g.store.table[k];
        assert At(h, d).Found? && At(h, d).id == h.store.table[k];
      }
    }
    forall d: nat
      ensures ClientAlike(r, loose, h, v, d)
    {
      assert ClientAlike(r, loose, g, u, d) && SharesCell(g, u, c, d);
    }
    forall d: nat, k
      ensures SharesKey(h, v, d, k)
    {
      assert SharesKey(g, u, d, k);
    }
    forall d: nat, e: nat
      ensures SharesCell(h, v, d, e)
    {
      assert SharesCell(g, u, d, e);
    }
  }

  lemma ResetAgrees<Id, B>(r: Likeness<B>, loose: bool, g: State<Id, B>, u: State<Id, B>, key: string)
    requires Agree(r, loose, g, u) && NobodyMissed(g, key)
    ensures Agree(r, loose, g.(store := DropKey(g.store, key)), u.(store := DropKey(u.store, key)))
  {
    var h, v := g.(store := DropKey(g.store, key)), u.(store := DropKey(u.store, key));
    QuietWf(g, h, 0);
    QuietWf(u, v, 0);
    forall k
      ensures KeyAlike(r, h, v, k)
    {
      assert KeyAlike(r, g, u, k);
      if k != key && HeldKey(g, k) {
        var d: nat :| At(g, d).Found? && At(g, d).id == g.store.table[k];
        assert At(h, d).Found? && At(h, d).id == h.store.table[k];
      }
    }
    forall c: nat
      ensures ClientAlike(r, loose, h, v, c)
    {
      assert ClientAlike(r, loose, g, u, c);
    }
    forall c: nat, k
      ensures SharesKey(h, v, c, k)
    {
      assert SharesKey(g, u, c, k);
    }
    forall c: nat, d: nat
      ensures SharesCell(h, v, c, d)
    {
      assert SharesCell(g, u, c, d);
    }
  }

  // ----- every step, every run -----

  lemma LookAgrees<Id, B(!new)>(p: Policy<B>, r: Likeness<B>, loose: bool, g: State<Id, B>, u: State<Id, B>,
                                c: nat, key: string, op: Op)
    requires Agree(r, loose, g, u) && At(g, c).Idle? && (loose ==> op.Allow?)
    ensures var (h, x) := Step(p, true, g, Look(c, key, op));
            var (v, y) := Step(p, false, u, Look(c, key, op));
            x == y && Agree(r, loose, h, v)
  {
    hide Wf, Agree;
    AgreeAt(r, loose, g, u, c, key);
    if !Free(op) {
      if key in g.store.table {
        GrabAgrees(r, loose, g, u, c, key, op);
      } else {
        MissAgrees(r, loose, g, u, c, key, op);
      }
    }
  }

  /** What agreement says of one caller and one key. */
  lemma AgreeAt<Id, B>(r: Likeness<B>, loose: bool, g: State<Id, B>, u: State<Id, B>, c: nat, key: string)
    requires Agree(r, loose, g, u)
    ensures g.clock == u.clock && u.store.cells.Keys <= g.store.cells.Keys
    ensures ClientWf(g, c) && ClientWf(u, c) && ClientAlike(r, loose, g, u, c)
    ensures KeyWf(g, key) && KeyWf(u, key) && KeyAlike(r, g, u, key)
  {
  }

  lemma MakeAgrees<Id, B(!new)>(p: Policy<B>, r: Likeness<B>, loose: bool, g: State<Id, B>, u: State<Id, B>, c: nat,
                                id: Id)
    requires Lawful(p, r, loose) && Agree(r, loose, g, u) && Disciplined(p, g, Make(c, id))
    ensures var (h, x) := Step(p, true, g, Make(c, id));
            var (v, y) := Step(p, false, u, Make(c, id));
            x == y && Agree(r, loose, h, v)
  {
    hide Wf, Agree, Lawful, Collect, KeyAlike, NothingHeldIsStale, Proper;
    AgreeAt(r, loose, g, u, c, "");
    if At(g, c).Found? {
      return;
    }
    var key, op := At(g, c).key, At(g, c).op;
    var f := g.(store := Collect(p, g.store, g.clock));
    CollectAgrees(p, r, loose, g, u);
    CollectKeepsCells(p, g);
    ProperMissed(r, loose, g, u, c);
    AgreeAt(r, loose, f, u, c, key);
    KeyKept(r, f, u, key);
    var v := Step(p, false, u, Make(c, id)).0;
    if key in f.store.table {
      GrabAgrees(r, loose, f, u, c, key, op);
      assert v.clients[c] == Found(key, u.store.table[key], op);
      assert v == Put(u, c, Found(key, u.store.table[key], op));
    } else if key in u.store.table {
      ReviveAgrees(p, r, loose, f, u, c, key, op, id);
      assert v == Put(u, c, Found(key, u.store.table[key], op));
    } else {
      FileAgrees(p, r, loose, f, u, key, id);
      GrabAgrees(r, loose, Filed(f, key, id, p.blank(g.clock)), Filed(u, key, id, p.blank(g.clock)), c, key, op);
    }
  }

  lemma ProperMissed<Id, B>(r: Likeness<B>, loose: bool, g: State<Id, B>, u: State<Id, B>, c: nat)
    requires Agree(r, loose, g, u) && At(g, c).Missed?
    ensures Proper(At(g, c).op) && (loose ==> At(g, c).op.Allow?)
  {
    assert ClientWf(g, c) && ClientAlike(r, loose, g, u, c);
  }

  lemma KeyKept<Id, B>(r: Likeness<B>, g: State<Id, B>, u: State<Id, B>, key: string)
    requires KeyWf(g, key) && KeyWf(u, key) && KeyAlike(r, g, u, key)
    ensures key in g.store.table ==> key in u.store.table
  {
  }

  lemma ServeAgrees<Id, B(!new)>(p: Policy<B>, r: Likeness<B>, loose: bool, g: State<Id, B>, u: State<Id, B>, c: nat)
    requires Lawful(p, r, loose) && Agree(r, loose, g, u) && At(g, c).Found?
    ensures var (h, x) := Step(p, true, g, Use(c));
            var (v, y) := Step(p, false, u, Use(c));
            x == y && Agree(r, loose, h, v)
  {
    hide Wf, Agree;
    AgreeAt(r, loose, g, u, c, "");
    var a, b, op := g.store.cells[At(g, c).id], u.store.cells[At(u, c).id], At(g, c).op;
    assert ServesAlike(p, r, loose, a, b, op, g.clock);
    UseAgrees(p, r, loose, g, u, c, p.serve(a, op, g.clock).0, p.serve(b, op, g.clock).0);
  }

  lemma StepAgrees<Id, B(!new)>(p: Policy<B>, r: Likeness<B>, loose: bool, sch: Schedule, g: State<Id, B>,
                                u: State<Id, B>, a: Action<Id>)
    requires Lawful(p, r, loose) && Agree(r, loose, g, u) && Suits(sch, loose)
    requires Permitted(sch, g, a) && Disciplined(p, g, a)
    ensures var (h, x) := Step(p, true, g, a);
            var (v, y) := Step(p, false, u, a);
            x == y && Agree(r, loose, h, v) && g.clock == u.clock
                && forall key :: Gain(g, a, x, key) == Gain(u, a, y, key)
  {
    hide Wf, Agree, Lawful, MakeCell, UseCell, AllIdle, NothingHeldIsStale, NobodyMissed;
    AgreeAt(r, loose, g, u, if a.Use? then a.c else 0, "");
    match a {
      case Tick(elapsed) => TickAgrees(p, r, loose, g, u, elapsed);
      case Look(c, key, op) => LookAgrees(p, r, loose, g, u, c, key, op);
      case Make(c, id) => MakeAgrees(p, r, loose, g, u, c, id);
      case Use(c) => ServeAgrees(p, r, loose, g, u, c);
      case Reset(key) => ResetAgrees(r, loose, g, u, key);
    }
  }

  /** On every disciplined run the two limiters give the same answers and grant the same amounts. */
  lemma {:induction false} RunAgrees<Id, B(!new)>(p: Policy<B>, r: Likeness<B>, loose: bool, sch: Schedule,
                                                  g: State<Id, B>, u: State<Id, B>, actions: seq<Action<Id>>)
    requires Lawful(p, r, loose) && Agree(r, loose, g, u) && Suits(sch, loose) && DisciplinedRun(p, sch, g, actions)
    ensures Agree(r, loose, Run(p, true, g, actions), Run(p, false, u, actions))
    ensures Answers(p, true, g, actions) == Answers(p, false, u, actions)
    ensures forall key, when ::
              GrantedTo(p, true, g, actions, key, when) == GrantedTo(p, false, u, actions, key, when)
    decreases |actions|
  {
    hide Wf, Agree, Lawful, Step, Permitted, Disciplined, Gain;
    if actions != [] {
      StepAgrees(p, r, loose, sch, g, u, actions[0]);
      RunAgrees(p, r, loose, sch, Step(p, true, g, actions[0]).0, Step(p, false, u, actions[0]).0, actions[1..]);
    }
  }

  lemma StartAgrees<Id, B>(r: Likeness<B>, loose: bool, clock: int)
    ensures Agree(r, loose, Start<Id, B>(clock), Start<Id, B>(clock))
  {
  }

  /** A lawful likeness that suits the schedule makes collection unnoticeable on it. */
  lemma LawfulIsUnnoticed<B(!new)>(p: Policy<B>, r: Likeness<B>, loose: bool, sch: Schedule, start: int)
    requires Lawful(p, r, loose) && Suits(sch, loose)
    ensures UnnoticedFrom(p, sch, start)
  {
    hide Lawful, DisciplinedRun, Answers;
    forall actions: seq<Action<nat>> | DisciplinedRun(p, sch, Start<nat, B>(start), actions)
      ensures Answers(p, true, Start<nat, B>(start), actions) == Answers(p, false, Start<nat, B>(start), actions)
    {
      StartAgrees<nat, B>(r, loose, start);
      RunAgrees(p, r, loose, sch, Start<nat, B>(start), Start<nat, B>(start), actions);
    }
  }
}
