/**
 What the two in-process limiters share: a registry of cells, one per key, used by many callers at once.
 A call is up to three critical sections. It looks its key up under the read lock; if the key is missing it takes
 the write lock, collects idle keys and makes a cell; then it works on the cell it found, under that cell's own lock.
 Between these sections the cell may have been collected or reset, and the call goes on with the cell it holds.
 */
module Registry {

  /** Remaining is Read. */
  datatype Op = Allow(n: int) | Read

  datatype Answer = Nothing | Granted(ok: bool) | Left(n: int)

  /** How a limiter treats its cells: a new one, one operation at a time, and whether it is idle. */
  datatype Policy<!B> = Policy(
    blank: int -> B,
    serve: (B, Op, int) -> (B, Answer),
    idle: (B, int) -> bool,
    gcInterval: int)

  // ----- the critical sections -----

  /** `cells` holds every cell there has been, `table` those that can still be looked up. */
  datatype Store<Id, B> = Store(table: map<string, Id>, cells: map<Id, B>, lastGC: int)

  ghost predicate Stale<Id, B>(p: Policy<B>, s: Store<Id, B>, key: string, now: int)
    requires key in s.table
  {
    s.table[key] in s.cells && p.idle(s.cells[s.table[key]], now)
  }

  ghost function Collect<Id, B>(p: Policy<B>, s: Store<Id, B>, now: int): Store<Id, B> {
    if now - s.lastGC < p.gcInterval then s
    else s.(table := map k | k in s.table && !Stale(p, s, k, now) :: s.table[k], lastGC := now)
  }

  /** The section under the write lock; `id` names the cell if one has to be made. Without `gc` nothing is collected. */
  ghost function MakeCell<Id, B>(p: Policy<B>, gc: bool, s: Store<Id, B>, key: string, id: Id, now: int)
    : (Store<Id, B>, Id)
  {
    var t := if gc then Collect(p, s, now) else s;
    if key in t.table then (t, t.table[key])
    else (t.(table := t.table[key := id], cells := t.cells[id := p.blank(now)]), id)
  }

  ghost function UseCell<Id, B>(p: Policy<B>, s: Store<Id, B>, id: Id, op: Op, now: int): (Store<Id, B>, Answer) {
    if id in s.cells then
      var (b, answer) := p.serve(s.cells[id], op, now);
      (s.(cells := s.cells[id := b]), answer)
    else (s, Nothing)
  }

  function DropKey<Id, B>(s: Store<Id, B>, key: string): Store<Id, B> {
    s.(table := s.table - {key})
  }

  /** The three sections of one call with nobody in between. */
  ghost function WholeCall<Id, B>(p: Policy<B>, gc: bool, s: Store<Id, B>, key: string, op: Op, id: Id, now: int)
    : (Store<Id, B>, Answer)
  {
    if Free(op) then (s, Granted(true))
    else if key in s.table then UseCell(p, s, s.table[key], op, now)
    else
      var (t, made) := MakeCell(p, gc, s, key, id, now);
      UseCell(p, t, made, op, now)
  }

  /** A request for nothing is granted without looking. */
  predicate Free(op: Op) {
    op.Allow? && op.n <= 0
  }

  // ----- many callers -----

  /** Where a caller stands in its current call. */
  datatype Client<Id> = Idle | Missed(key: string, op: Op) | Found(key: string, id: Id, op: Op)

  datatype State<Id, B> = State(clock: int, store: Store<Id, B>, clients: map<nat, Client<Id>>)

  datatype Action<Id> =
    | Tick(elapsed: nat)
    | Look(c: nat, key: string, op: Op)
    | Make(c: nat, id: Id)
    | Use(c: nat)
    | Reset(key: string)

  function At<Id, B>(s: State<Id, B>, c: nat): Client<Id> {
    if c in s.clients then s.clients[c] else Idle
  }

  function Put<Id, B>(s: State<Id, B>, c: nat, x: Client<Id>): State<Id, B> {
    s.(clients := s.clients[c := x])
  }

  /** One critical section; an action that does not fit the caller's position changes nothing. */
  ghost function Step<Id, B>(p: Policy<B>, gc: bool, s: State<Id, B>, a: Action<Id>): (State<Id, B>, Answer) {
    match a
    case Tick(elapsed) => (s.(clock := s.clock + elapsed), Nothing)
    case Look(c, key, op) =>
      if !At(s, c).Idle? then (s, Nothing)
      else if Free(op) then (s, Granted(true))
      else if key in s.store.table then (Put(s, c, Found(key, s.store.table[key], op)), Nothing)
      else (Put(s, c, Missed(key, op)), Nothing)
    case Make(c, id) =>
      (match At(s, c)
       case Missed(key, op) =>
         var (t, made) := MakeCell(p, gc, s.store, key, id, s.clock);
         (Put(s.(store := t), c, Found(key, made, op)), Nothing)
       case _ => (s, Nothing))
    case Use(c) =>
      (match At(s, c)
       case Found(key, id, op) =>
         var (t, answer) := UseCell(p, s.store, id, op, s.clock);
         (Put(s.(store := t), c, Idle), answer)
       case _ => (s, Nothing))
    case Reset(key) => (s.(store := DropKey(s.store, key)), Nothing)
  }

  ghost function Answers<Id, B>(p: Policy<B>, gc: bool, s: State<Id, B>, actions: seq<Action<Id>>): seq<Answer>
    decreases |actions|
  {
    if actions == [] then []
    else
      var (t, answer) := Step(p, gc, s, actions[0]);
      [answer] + Answers(p, gc, t, actions[1..])
  }

  /** Asking for nothing is granted at once, and nobody can tell that it was asked. */
  lemma NothingAsked<Id, B>(p: Policy<B>, gc: bool, s: State<Id, B>, c: nat, key: string, n: int, id: Id)
    requires n <= 0 && At(s, c).Idle?
    ensures Step(p, gc, s, Look(c, key, Allow(n))) == (s, Granted(true))
    ensures WholeCall(p, gc, s.store, key, Allow(n), id, s.clock) == (s.store, Granted(true))
  {
  }

  ghost function Run<Id, B>(p: Policy<B>, gc: bool, s: State<Id, B>, actions: seq<Action<Id>>): State<Id, B>
    decreases |actions|
  {
    if actions == [] then s else Run(p, gc, Step(p, gc, s, actions[0]).0, actions[1..])
  }

  /** What a step grants on `key`. */
  ghost function Gain<Id, B>(s: State<Id, B>, a: Action<Id>, answer: Answer, key: string): nat {
    if a.Use? && At(s, a.c).Found? && At(s, a.c).key == key && At(s, a.c).op.Allow? && 0 < At(s, a.c).op.n
       && answer == Granted(true) then At(s, a.c).op.n
    else 0
  }

  /** What a run grants on `key` while `when` holds of the clock. */
  ghost function GrantedTo<Id, B>(p: Policy<B>, gc: bool, s: State<Id, B>, actions: seq<Action<Id>>, key: string,
                                  when: int -> bool): nat
    decreases |actions|
  {
    if actions == [] then 0
    else
      var (t, answer) := Step(p, gc, s, actions[0]);
      (if when(s.clock) then Gain(s, actions[0], answer, key) else 0) + GrantedTo(p, gc, t, actions[1..], key, when)
  }

  function Start<Id, B>(clock: int): State<Id, B> {
    State(clock, Store(map[], map[], clock), map[])
  }

  // ----- which runs are compared -----

  /** How calls may overlap: not at all, only within one reading of the clock, or freely. */
  datatype Overlap = OneAtATime | WithinAnInstant | Freely

  datatype Schedule = Schedule(overlap: Overlap, peeks: bool)

  ghost predicate AllIdle<Id, B>(s: State<Id, B>) {
    forall c :: At(s, c).Idle?
  }

  ghost predicate Permitted<Id, B>(sch: Schedule, s: State<Id, B>, a: Action<Id>) {
    && (a.Look? && a.op.Read? ==> sch.peeks)
    && (!sch.overlap.Freely? && a.Tick? ==> AllIdle(s))
    && (sch.overlap.OneAtATime? && (a.Look? || a.Reset?) ==> AllIdle(s))
  }

  /** Nobody is between a failed look-up of `key` and the making of its cell. */
  ghost predicate NobodyMissed<Id, B>(s: State<Id, B>, key: string) {
    forall c :: At(s, c).Missed? ==> At(s, c).key != key
  }

  /** A collection now would take no cell that a caller holds. */
  ghost predicate NothingHeldIsStale<Id, B>(p: Policy<B>, s: State<Id, B>) {
    forall c, k :: At(s, c).Found? && k in s.store.table && s.store.table[k] == At(s, c).id ==>
                     !Stale(p, s.store, k, s.clock)
  }

  /** A cell that is made gets a new name. */
  ghost predicate NewName<Id, B>(s: State<Id, B>, a: Action<Id>) {
    a.Make? && At(s, a.c).Missed? ==> a.id !in s.store.cells
  }

  /**
   The step fits the caller's position, and a cell is made under a new name. Who has found a cell skips the making.
   */
  ghost predicate Fits<Id, B>(s: State<Id, B>, a: Action<Id>) {
    match a
    case Tick(_) => true
    case Look(c, _, _) => At(s, c).Idle?
    case Make(c, _) => !At(s, c).Idle? && NewName(s, a)
    case Use(c) => At(s, c).Found?
    case Reset(_) => true
  }

  ghost predicate FittingRun<Id, B>(p: Policy<B>, gc: bool, s: State<Id, B>, actions: seq<Action<Id>>)
    decreases |actions|
  {
    actions == [] || (Fits(s, actions[0]) && FittingRun(p, gc, Step(p, gc, s, actions[0]).0, actions[1..]))
  }

  /** A collection under the write lock would take a cell that a caller holds. */
  ghost predicate TakesHeldCell<Id, B>(p: Policy<B>, s: State<Id, B>, a: Action<Id>) {
    a.Make? && At(s, a.c).Missed? && s.clock - s.store.lastGC >= p.gcInterval && !NothingHeldIsStale(p, s)
  }

  /** A key is reset while a caller that has missed it has not made its cell yet. */
  ghost predicate ResetsMissedKey<Id, B>(s: State<Id, B>, a: Action<Id>) {
    a.Reset? && !NobodyMissed(s, a.key)
  }

  /**
   A possible step in which no call straddles the collection of its cell, or a Reset of the key it has just missed.
   */
  ghost predicate Disciplined<Id, B>(p: Policy<B>, s: State<Id, B>, a: Action<Id>) {
    Fits(s, a) && !TakesHeldCell(p, s, a) && !ResetsMissedKey(s, a)
  }

  ghost predicate DisciplinedRun<Id, B>(p: Policy<B>, sch: Schedule, s: State<Id, B>, actions: seq<Action<Id>>)
    decreases |actions|
  {
    actions == [] ||
    (Permitted(sch, s, actions[0]) && Disciplined(p, s, actions[0])
     && DisciplinedRun(p, sch, Step(p, true, s, actions[0]).0, actions[1..]))
  }

  /** However calls overlap, and with Remaining among them. */
  const ANY := Schedule(Freely, true)

  /** A possible run of the collecting limiter in which step `i` and no other breaks the discipline. */
  ghost predicate OneLapse<Id, B>(p: Policy<B>, s: State<Id, B>, actions: seq<Action<Id>>, i: nat)
    decreases |actions|
  {
    i < |actions| &&
    var t := Step(p, true, s, actions[0]).0;
    if i == 0 then
      Fits(s, actions[0]) && !Disciplined(p, s, actions[0]) && DisciplinedRun(p, ANY, t, actions[1..])
    else Disciplined(p, s, actions[0]) && OneLapse(p, t, actions[1..], i - 1)
  }

  /** On every disciplined run of the schedule that begins at `start`, collecting changes no answer. */
  ghost predicate UnnoticedFrom<B>(p: Policy<B>, sch: Schedule, start: int) {
    forall actions: seq<Action<nat>> :: DisciplinedRun(p, sch, Start<nat, B>(start), actions) ==>
      Answers(p, true, Start<nat, B>(start), actions) == Answers(p, false, Start<nat, B>(start), actions)
  }

  ghost predicate Unnoticed<B>(p: Policy<B>, sch: Schedule) {
    forall start :: UnnoticedFrom(p, sch, start)
  }
}
