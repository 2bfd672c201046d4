/**
 Thread-local variable vectors (posix-threads.c).

 Every thread owns a vector of variable values, registered in a list under a lock.
 Allocating a variable may replace all vectors by larger ones while other threads read
 and write theirs without the lock: writers only bracket their store between an atomic
 increment and decrement of a counter, and a grower moves that counter far below zero.
 Each atomic operation, and each access to a vector or to a thread's vector pointer, is
 one step.  Accesses that only ever happen under the lock are taken together with
 acquiring or releasing it.
 */
module ThreadVariables {
  import opened Options

  type Tid = nat
  type Addr = nat      // position of a vector among all vectors ever made
  type Handle = nat    // offset of a variable inside a vector
  type Value = int

  const TLV_GROW: int := -2000000
  const INITIAL_SIZE: nat := 20
  const HEADER: nat := 2           // the class and size words; variables start behind them
  const UNBOUND: Value := 0

  datatype Pc =
    | Idle
    // primitive_allocate_thread_variable and grow_all_tlv_vectors
    | AllocLock(v: Value)
    | AllocSpin(v: Value, off: Handle)
    | CopyDefault(v: Value, off: Handle, dst: Addr, i: nat)
    | NextCell(v: Value, off: Handle, k: nat)
    | CopyCell(v: Value, off: Handle, k: nat, dst: Addr, i: nat)
    | SetTeb(v: Value, off: Handle, k: nat)
    | EndGrow(v: Value, off: Handle)
    | StoreDefault(v: Value, off: Handle)
    | Propagate(v: Value, off: Handle, k: nat)
    // primitive_write_thread_variable and its blocked loop
    | WriteInc(h: Handle, nv: Value)
    | BlockedDec(h: Handle, nv: Value)
    | BlockedWait(h: Handle, nv: Value)
    | BlockedInc(h: Handle, nv: Value)
    | WriteLoad(h: Handle, nv: Value)
    | WriteStore(h: Handle, nv: Value, p: Addr)
    | WriteDec
    // primitive_read_thread_variable
    | ReadLoad(h: Handle)
    | ReadFetch(h: Handle, p: Addr)
    // setup_tlv_vector
    | StartLock
    | StartCopy(dst: Addr, i: nat)

  datatype Cell = Cell(tid: Tid, vec: Addr)

  datatype Event =
    | Allocated(tid: Tid, h: Handle, v: Value)
    | Wrote(tid: Tid, h: Handle, v: Value)
    | Read(tid: Tid, h: Handle, v: Value)

  /** Everything but the counter, the lock and the program points. */
  datatype Memory = Memory(
    next: Handle,               // TLV_vector_offset
    dflt: Addr,                 // default_tlv_vector
    vecs: seq<seq<Value>>,      // contents of every vector, header included
    cells: seq<Cell>,           // tlv_vector_list
    teb: map<Tid, Addr>,        // each thread's own pointer to its vector
    published: Handle,          // handles below this one have been returned to a caller
    owner: seq<Option<Tid>>,    // whose vector each one is; None for default vectors
    log: seq<Event>)

  datatype State = State(counter: int, lock: Option<Tid>, pcs: map<Tid, Pc>, mem: Memory)

  // ---------------------------------------------------------------- what a read should return

  /** The default a variable was allocated with. */
  function Default(log: seq<Event>, h: Handle): Value {
    if log == [] then UNBOUND
    else
      var e := log[|log| - 1];
      if e.Allocated? && e.h == h then e.v else Default(log[..|log| - 1], h)
  }

  /** A private map per thread: its own last write, or the variable's default. */
  function Private(log: seq<Event>, t: Tid, h: Handle): Value {
    if log == [] then UNBOUND
    else
      var e := log[|log| - 1];
      if (e.Allocated? && e.h == h) || (e.Wrote? && e.tid == t && e.h == h) then e.v
      else Private(log[..|log| - 1], t, h)
  }

  /** Every read in the log returned the reader's private value at that time. */
  ghost predicate ReadsPrivate(log: seq<Event>) {
    forall i | 0 <= i < |log| && log[i].Read? :: log[i].v == Private(log[..i], log[i].tid, log[i].h)
  }

  // ---------------------------------------------------------------- steps

  function Put(m: Memory, a: Addr, i: nat, v: Value): Memory {
    if a < |m.vecs| && i < |m.vecs[a]| then m.(vecs := m.vecs[a := m.vecs[a][i := v]]) else m
  }

  function Get(m: Memory, a: Addr, i: nat): Value {
    if a < |m.vecs| && i < |m.vecs[a]| then m.vecs[a][i] else UNBOUND
  }

  function Length(m: Memory, a: Addr): nat {
    if a < |m.vecs| then |m.vecs[a]| else 0
  }

  /** make_dylan_vector: a fresh vector of `length` words, header included. */
  function Make(m: Memory, length: nat, who: Option<Tid>): Memory {
    m.(vecs := m.vecs + [seq(length, _ => UNBOUND)], owner := m.owner + [who])
  }

  function Log(m: Memory, e: Event): Memory { m.(log := m.log + [e]) }

  function Goto(s: State, t: Tid, pc: Pc, m: Memory): State { s.(pcs := s.pcs[t := pc], mem := m) }

  function TebOf(m: Memory, t: Tid): Addr { if t in m.teb then m.teb[t] else |m.vecs| }

  /** The next step of thread `t`.  A step that leaves the state as it was is a failed spin
      or a wait for the lock. */
  function Advance(s: State, t: Tid): State
    requires t in s.pcs
  {
    var pc := s.pcs[t];
    if InAllocation(pc) then AllocationStep(s, t)
    else if Grows(pc) then GrowthStep(s, t)
    else if InWrite(pc) then WriterStep(s, t)
    else if pc.ReadLoad? || pc.ReadFetch? then ReaderStep(s, t)
    else if pc.StartLock? || pc.StartCopy? then StartStep(s, t)
    else s
  }

  predicate InAllocation(pc: Pc) { pc.AllocLock? || pc.AllocSpin? || pc.StoreDefault? || pc.Propagate? }
  predicate InWrite(pc: Pc) {
    pc.WriteInc? || pc.BlockedDec? || pc.BlockedWait? || pc.BlockedInc? || pc.WriteLoad? || pc.WriteStore? ||
    pc.WriteDec?
  }

  /** primitive_allocate_thread_variable, outside grow_all_tlv_vectors. */
  function AllocationStep(s: State, t: Tid): State
    requires t in s.pcs && InAllocation(s.pcs[t])
  {
    var m := s.mem;
    match s.pcs[t]
    case AllocLock(v) =>
      if s.lock != None then s
      else
        Goto(s.(lock := Some(t)), t,
             if m.next >= Length(m, m.dflt) then AllocSpin(v, m.next) else StoreDefault(v, m.next),
             m.(next := m.next + 1))
    case AllocSpin(v, off) =>
      if s.counter != 0 then s
      else
        var size := Length(m, m.dflt) - HEADER;
        Goto(s.(counter := TLV_GROW), t, CopyDefault(v, off, |m.vecs|, HEADER),
             Make(m, if size < 0 then HEADER else size + size + HEADER, None))
    case StoreDefault(v, off) => Goto(s, t, Propagate(v, off, 0), Put(m, m.dflt, off, v))
    case Propagate(v, off, k) =>
      if k < |m.cells| then Goto(s, t, Propagate(v, off, k + 1), Put(m, m.cells[k].vec, off, v))
      else Goto(s.(lock := None), t, Idle, Log(m.(published := off + 1), Allocated(t, off, v)))
  }

  /** grow_all_tlv_vectors, once its first compare-and-swap has succeeded. */
  function GrowthStep(s: State, t: Tid): State
    requires t in s.pcs && Grows(s.pcs[t])
  {
    match s.pcs[t]
    case EndGrow(v, off) =>
      if s.counter != TLV_GROW then s else Goto(s.(counter := 0), t, StoreDefault(v, off), s.mem)
    case pc => var (to, m) := Grow(s.mem, pc); Goto(s, t, to, m)
  }

  /** The replacement of the default vector and of every registered one. */
  function Grow(m: Memory, pc: Pc): (Pc, Memory) {
    match pc
    case CopyDefault(v, off, dst, i) =>
      if i < Length(m, m.dflt) then (CopyDefault(v, off, dst, i + 1), Put(m, dst, i, Get(m, m.dflt, i)))
      else (NextCell(v, off, 0), m.(dflt := dst))
    case NextCell(v, off, k) =>
      if k < |m.cells| then
        (CopyCell(v, off, k, |m.vecs|, HEADER), Make(m, Length(m, m.dflt), Some(m.cells[k].tid)))
      else (EndGrow(v, off), m)
    case CopyCell(v, off, k, dst, i) =>
      if k >= |m.cells| then (pc, m)
      else if i < Length(m, m.cells[k].vec) then
        (CopyCell(v, off, k, dst, i + 1), Put(m, dst, i, Get(m, m.cells[k].vec, i)))
      else (SetTeb(v, off, k), m.(cells := m.cells[k := m.cells[k].(vec := dst)]))
    case SetTeb(v, off, k) =>
      if k >= |m.cells| then (pc, m)
      else (NextCell(v, off, k + 1), m.(teb := m.teb[m.cells[k].tid := m.cells[k].vec]))
    case _ => (pc, m)
  }

  /** primitive_write_thread_variable. */
  function WriterStep(s: State, t: Tid): State
    requires t in s.pcs && InWrite(s.pcs[t])
  {
    var m := s.mem;
    match s.pcs[t]
    case WriteInc(h, nv) =>
      Goto(s.(counter := s.counter + 1), t, if s.counter + 1 < 0 then BlockedDec(h, nv) else WriteLoad(h, nv), m)
    case BlockedDec(h, nv) =>
      Goto(s.(counter := s.counter - 1), t, if s.counter - 1 < 0 then BlockedWait(h, nv) else BlockedInc(h, nv), m)
    case BlockedWait(h, nv) =>
      if s.lock != None then s else Goto(s, t, BlockedInc(h, nv), m)
    case BlockedInc(h, nv) =>
      Goto(s.(counter := s.counter + 1), t, if s.counter + 1 < 0 then BlockedDec(h, nv) else WriteLoad(h, nv), m)
    case WriteLoad(h, nv) => Goto(s, t, WriteStore(h, nv, TebOf(m, t)), m)
    case WriteStore(h, nv, p) => Goto(s, t, WriteDec, Log(Put(m, p, h, nv), Wrote(t, h, nv)))
    case WriteDec => Goto(s.(counter := s.counter - 1), t, Idle, m)
  }

  /** primitive_read_thread_variable. */
  function ReaderStep(s: State, t: Tid): State
    requires t in s.pcs && (s.pcs[t].ReadLoad? || s.pcs[t].ReadFetch?)
  {
    var m := s.mem;
    match s.pcs[t]
    case ReadLoad(h) => Goto(s, t, ReadFetch(h, TebOf(m, t)), m)
    case ReadFetch(h, p) => Goto(s, t, Idle, Log(m, Read(t, h, Get(m, p, h))))
  }

  /** setup_tlv_vector. */
  function StartStep(s: State, t: Tid): State
    requires t in s.pcs && (s.pcs[t].StartLock? || s.pcs[t].StartCopy?)
  {
    var m := s.mem;
    match s.pcs[t]
    case StartLock =>
      if s.lock != None then s
      else if t in m.teb then Goto(s, t, Idle, m)
      else
        Goto(s.(lock := Some(t)), t, StartCopy(|m.vecs|, HEADER),
             Make(m, Length(m, m.dflt), Some(t)).(teb := m.teb[t := |m.vecs|]))
    case StartCopy(dst, i) =>
      if i < Length(m, m.dflt) then Goto(s, t, StartCopy(dst, i + 1), Put(m, dst, i, Get(m, m.dflt, i)))
      else Goto(s.(lock := None), t, Idle, m.(cells := [Cell(t, dst)] + m.cells))
  }

  datatype Call = Allocate(v: Value) | Write(h: Handle, nv: Value) | Fetch(h: Handle) | Reinitialize

  /** Handles come from completed allocations. */
  predicate CallOk(s: State, c: Call) {
    match c
    case Write(h, _) => HEADER <= h < s.mem.published
    case Fetch(h) => HEADER <= h < s.mem.published
    case _ => true
  }

  function Entry(c: Call): Pc {
    match c
    case Allocate(v) => AllocLock(v)
    case Write(h, nv) => WriteInc(h, nv)
    case Fetch(h) => ReadLoad(h)
    case Reinitialize => StartLock
  }

  datatype Label = Spawn(t: Tid) | Begin(t: Tid, c: Call) | Run(t: Tid)

  predicate Step(s: State, l: Label, n: State) {
    match l
    case Spawn(t) => t !in s.pcs && |s.pcs| + 1 < -TLV_GROW && n == Goto(s, t, StartLock, s.mem)
    case Begin(t, c) => t in s.pcs && s.pcs[t] == Idle && CallOk(s, c) && n == Goto(s, t, Entry(c), s.mem)
    case Run(t) => t in s.pcs && n == Advance(s, t)
  }

  predicate Init(s: State) {
    s == State(0, None, map[],
               Memory(HEADER, 0, [seq(INITIAL_SIZE + HEADER, _ => UNBOUND)], [], map[], HEADER, [None], []))
  }

  // ---------------------------------------------------------------- classes of program points

  predicate HoldsLock(pc: Pc) {
    pc.AllocSpin? || Grows(pc) || pc.StoreDefault? || pc.Propagate? || pc.StartCopy?
  }

  /** Between the two compare-and-swaps of grow_all_tlv_vectors. */
  predicate Grows(pc: Pc) {
    pc.CopyDefault? || pc.NextCell? || pc.CopyCell? || pc.SetTeb? || pc.EndGrow?
  }

  /** Between an increment and a decrement that cleared it for writing. */
  predicate Writing(pc: Pc) { pc.WriteLoad? || pc.WriteStore? || pc.WriteDec? }

  /** Between an increment and the decrement that undoes it. */
  predicate Counted(pc: Pc) { Writing(pc) || pc.BlockedDec? }

  function CountedIn(pcs: map<Tid, Pc>): set<Tid> { set t | t in pcs && Counted(pcs[t]) }
  function CountedSet(s: State): set<Tid> { CountedIn(s.pcs) }

  predicate Growing(s: State) {
    s.lock.Some? && s.lock.value in s.pcs && Grows(s.pcs[s.lock.value])
  }

  // ---------------------------------------------------------------- invariant: lock and counter

  ghost predicate Mutex(s: State) {
    (forall t <- s.pcs :: HoldsLock(s.pcs[t]) <==> s.lock == Some(t)) &&
    (s.lock.Some? ==> s.lock.value in s.pcs)
  }

  ghost predicate Counts(s: State) {
    |s.pcs| < -TLV_GROW &&
    s.counter == (if Growing(s) then TLV_GROW else 0) + |CountedSet(s)| &&
    forall t <- s.pcs ::
      (Writing(s.pcs[t]) ==> !Growing(s)) && (s.pcs[t].BlockedDec? ==> Growing(s))
  }

  lemma CountedBound(s: State)
    ensures |CountedSet(s)| <= |s.pcs|
  {
    assert CountedSet(s) <= s.pcs.Keys;
    SubsetSize(CountedSet(s), s.pcs.Keys);
  }

  lemma {:induction false} SubsetSize<T>(a: set<T>, b: set<T>)
    requires a <= b
    ensures |a| <= |b|
  {
    if a != {} {
      var x :| x in a;
      SubsetSize(a - {x}, b - {x});
    }
  }

  /** One thread moves: the counted threads change by at most that one. */
  lemma CountedMoves(pcs: map<Tid, Pc>, t: Tid, pc: Pc)
    requires t in pcs
    ensures |CountedIn(pcs[t := pc])| ==
            |CountedIn(pcs)| + (if Counted(pc) then 1 else 0) - (if Counted(pcs[t]) then 1 else 0)
    ensures |pcs[t := pc]| == |pcs|
  {
    var a := CountedIn(pcs) - {t};
    assert CountedIn(pcs) == if Counted(pcs[t]) then a + {t} else a;
    assert CountedIn(pcs[t := pc]) == if Counted(pc) then a + {t} else a;
    assert pcs[t := pc].Keys == pcs.Keys;
  }

  /** What a step of `t` does to the lock, the counter and its own program point. */
  predicate Effect(s: State, t: Tid, pc: Pc, n: State)
    requires t in s.pcs
  {
    var before := s.pcs[t];
    n.pcs == s.pcs[t := pc] &&
    if HoldsLock(before) then
      if Grows(before) != Grows(pc) then
        HoldsLock(pc) && n.lock == s.lock && s.counter == (if Grows(pc) then 0 else TLV_GROW) &&
        n.counter == (if Grows(pc) then TLV_GROW else 0)
      else
        n.counter == s.counter && !Counted(pc) && n.lock == (if HoldsLock(pc) then s.lock else None)
    else if HoldsLock(pc) then
      s.lock == None && n.lock == Some(t) && n.counter == s.counter && !Counted(before) && !Grows(pc)
    else
      n.lock == s.lock &&
      if Counted(before) == Counted(pc) then n.counter == s.counter && Writing(before) == Writing(pc)
      else if Counted(pc) then n.counter == s.counter + 1 && (Writing(pc) <==> n.counter >= 0)
      else n.counter == s.counter - 1
  }

  lemma StepEffect(s: State, t: Tid, n: State)
    requires t in s.pcs && n == Advance(s, t) && n != s
    ensures t in n.pcs && Effect(s, t, n.pcs[t], n)
  {
    var pc := s.pcs[t];
    if InAllocation(pc) { AllocationEffect(s, t, n); }
    else if Grows(pc) { GrowthEffect(s, t, n); }
    else if InWrite(pc) { WriterEffect(s, t, n); }
  }

  lemma AllocationEffect(s: State, t: Tid, n: State)
    requires t in s.pcs && InAllocation(s.pcs[t]) && n == AllocationStep(s, t) && n != s
    ensures t in n.pcs && Effect(s, t, n.pcs[t], n)
  {}

  lemma GrowthEffect(s: State, t: Tid, n: State)
    requires t in s.pcs && Grows(s.pcs[t]) && n == GrowthStep(s, t) && n != s
    ensures t in n.pcs && Effect(s, t, n.pcs[t], n)
  {}

  lemma WriterEffect(s: State, t: Tid, n: State)
    requires t in s.pcs && InWrite(s.pcs[t]) && n == WriterStep(s, t) && n != s
    ensures t in n.pcs && Effect(s, t, n.pcs[t], n)
  {}

  lemma EffectKeeps(s: State, t: Tid, pc: Pc, n: State)
    requires Mutex(s) && Counts(s) && t in s.pcs && Effect(s, t, pc, n)
    ensures Mutex(n) && Counts(n)
  {
    CountedBound(n);
    CountedMoves(s.pcs, t, pc);
    if |CountedSet(s)| == 0 { NobodyCounted(s); }
  }

  lemma SpawnCounts(s: State, t: Tid, n: State)
    requires Mutex(s) && Counts(s) && Step(s, Spawn(t), n)
    ensures Mutex(n) && Counts(n)
  {
    ThreadAdded(s.pcs, t);
    assert Growing(n) == Growing(s);
  }

  lemma ThreadAdded(pcs: map<Tid, Pc>, t: Tid)
    requires t !in pcs
    ensures CountedIn(pcs[t := StartLock]) == CountedIn(pcs) && |pcs[t := StartLock]| == |pcs| + 1
  {
    assert pcs[t := StartLock].Keys == pcs.Keys + {t};
  }

  lemma BeginCounts(s: State, t: Tid, c: Call, n: State)
    requires Mutex(s) && Counts(s) && Step(s, Begin(t, c), n)
    ensures Mutex(n) && Counts(n)
  {
    CountedMoves(s.pcs, t, Entry(c));
  }

  lemma MutexAndCounts(s: State, l: Label, n: State)
    requires Mutex(s) && Counts(s) && Step(s, l, n)
    ensures Mutex(n) && Counts(n)
  {
    match l
    case Spawn(t) => SpawnCounts(s, t, n);
    case Begin(t, c) => BeginCounts(s, t, c, n);
    case Run(t) =>
      if n != s {
        StepEffect(s, t, n);
        EffectKeeps(s, t, n.pcs[t], n);
      }
  }

  lemma NobodyCounted(s: State)
    requires |CountedSet(s)| == 0
    ensures forall t <- s.pcs :: !Counted(s.pcs[t])
  {
    forall t <- s.pcs ensures !Counted(s.pcs[t]) {
      assert t !in CountedSet(s);
    }
  }

  // ---------------------------------------------------------------- invariant: vectors and values

  function Holder(s: State): Pc {
    if s.lock.Some? && s.lock.value in s.pcs then s.pcs[s.lock.value] else Idle
  }

  /** An allocation that has taken its offset and not yet returned it. */
  predicate Pending(pc: Pc) { HoldsLock(pc) && !pc.StartCopy? }

  /** How many registered vectors a grower has replaced so far. */
  function Replaced(pc: Pc, all: nat): nat {
    match pc
    case NextCell(_, _, k) => k
    case CopyCell(_, _, k, _, _) => k
    case SetTeb(_, _, k) => k + 1
    case _ => all
  }

  predicate Registered(cells: seq<Cell>, t: Tid) { exists j :: 0 <= j < |cells| && cells[j].tid == t }

  predicate IsVec(m: Memory, a: Addr, who: Option<Tid>) {
    a < |m.vecs| && |m.owner| == |m.vecs| && m.owner[a] == who
  }

  /** Vector `a` belongs to `t` and holds `t`'s private value of every published variable. */
  ghost predicate Agrees(m: Memory, a: Addr, t: Tid) {
    IsVec(m, a, Some(t)) && m.published <= |m.vecs[a]| &&
    forall h | HEADER <= h < m.published :: m.vecs[a][h] == Private(m.log, t, h)
  }

  ghost predicate DefaultsAgree(m: Memory) {
    IsVec(m, m.dflt, None) && INITIAL_SIZE + HEADER <= |m.vecs[m.dflt]| &&
    HEADER <= m.published <= |m.vecs[m.dflt]| &&
    forall h | HEADER <= h < m.published :: m.vecs[m.dflt][h] == Default(m.log, h)
  }

  ghost predicate CellAgrees(m: Memory, c: Cell) {
    c.tid in m.teb && Agrees(m, c.vec, c.tid) && Agrees(m, m.teb[c.tid], c.tid) && |m.vecs[c.vec]| <= Length(m, m.dflt)
  }

  ghost predicate CellsAgree(m: Memory) {
    (forall j | 0 <= j < |m.cells| :: CellAgrees(m, m.cells[j])) &&
    (forall i, j | 0 <= i < j < |m.cells| :: m.cells[i].tid != m.cells[j].tid)
  }

  /** How far a growth has come, seen from the registered vectors. */
  ghost predicate CellsReplaced(m: Memory, pc: Pc) {
    m.next == m.published + (if Pending(pc) then 1 else 0) &&
    forall j | 0 <= j < |m.cells| ::
      (TebOf(m, m.cells[j].tid) == m.cells[j].vec || (pc.SetTeb? && pc.k == j)) &&
      (j < Replaced(pc, |m.cells|) ==> Length(m, m.cells[j].vec) == Length(m, m.dflt))
  }

  ghost predicate TebsOwned(m: Memory, pcs: map<Tid, Pc>) {
    (forall t <- m.teb :: t in pcs && IsVec(m, m.teb[t], Some(t)) && (Registered(m.cells, t) || pcs[t].StartCopy?)) &&
    (forall t: Tid, h: Handle | !Registered(m.cells, t) :: Private(m.log, t, h) == Default(m.log, h))
  }

  /** `dst` is being filled from `src`, as far as index `i`. */
  ghost predicate Copied(m: Memory, dst: Addr, src: Addr, i: nat) {
    dst < |m.vecs| && src < |m.vecs| && dst != src && HEADER <= i <= |m.vecs[src]| <= |m.vecs[dst]| &&
    forall x | HEADER <= x < i :: m.vecs[dst][x] == m.vecs[src][x]
  }

  /** What holds at the program points of a lock holder. */
  ghost predicate HolderAt(m: Memory, t: Tid, pc: Pc) {
    var room := Length(m, m.dflt);
    if pc.StartCopy? then
      t in m.teb && m.teb[t] == pc.dst && IsVec(m, pc.dst, Some(t)) && !Registered(m.cells, t) &&
      Copied(m, pc.dst, m.dflt, pc.i) && Length(m, pc.dst) == room
    else
      Registered(m.cells, t) &&
      (Pending(pc) ==> pc.off == m.published && (pc.off < room || pc.AllocSpin? || pc.CopyDefault?)) &&
      match pc
      case AllocSpin(_, off) => off == room
      case CopyDefault(_, off, dst, i) =>
        off == room && IsVec(m, dst, None) && Copied(m, dst, m.dflt, i) && Length(m, dst) == room + room - HEADER
      case NextCell(_, off, k) => k <= |m.cells|
      case CopyCell(_, off, k, dst, i) =>
        k < |m.cells| && IsVec(m, dst, Some(m.cells[k].tid)) && Copied(m, dst, m.cells[k].vec, i) &&
        Length(m, dst) == room
      case SetTeb(_, off, k) => k < |m.cells|
      case Propagate(v, off, k) =>
        k <= |m.cells| && Get(m, m.dflt, off) == v && forall j | 0 <= j < k :: Get(m, m.cells[j].vec, off) == v
      case _ => true
  }

  /** What holds at every other program point. */
  ghost predicate FreeAt(m: Memory, t: Tid, pc: Pc) {
    if pc.StartLock? then t in m.teb ==> Registered(m.cells, t)
    else
      Registered(m.cells, t) &&
      match pc
      case WriteStore(h, _, p) => HEADER <= h < m.published && t in m.teb && p == m.teb[t]
      case ReadFetch(h, p) =>
        HEADER <= h < m.published && IsVec(m, p, Some(t)) && h < |m.vecs[p]| && m.vecs[p][h] == Private(m.log, t, h)
      case WriteInc(h, _) => HEADER <= h < m.published
      case BlockedDec(h, _) => HEADER <= h < m.published
      case BlockedWait(h, _) => HEADER <= h < m.published
      case BlockedInc(h, _) => HEADER <= h < m.published
      case WriteLoad(h, _) => HEADER <= h < m.published
      case ReadLoad(h) => HEADER <= h < m.published
      case _ => true
  }

  ghost predicate At(m: Memory, t: Tid, pc: Pc) {
    if HoldsLock(pc) then HolderAt(m, t, pc) else FreeAt(m, t, pc)
  }

  ghost predicate Vectors(m: Memory, pcs: map<Tid, Pc>, holder: Pc) {
    DefaultsAgree(m) && CellsAgree(m) && CellsReplaced(m, holder) && TebsOwned(m, pcs) &&
    forall t <- pcs :: At(m, t, pcs[t])
  }

  ghost predicate Inv(s: State) {
    Mutex(s) && Counts(s) && Vectors(s.mem, s.pcs, Holder(s)) && ReadsPrivate(s.mem.log)
  }

  /** The part of the invariant that speaks of the lock holder's program point only. */
  ghost predicate Registry(m: Memory, holder: Pc) {
    DefaultsAgree(m) && CellsAgree(m) && CellsReplaced(m, holder)
  }

  /** A step that leaves the memory alone. */
  lemma MoveKeeps(s: State, t: Tid, pc: Pc, n: State)
    requires Inv(s) && t in s.pcs && n.pcs == s.pcs[t := pc] && n.mem == s.mem
    requires At(s.mem, t, pc) && (s.pcs[t].StartCopy? ==> Registered(s.mem.cells, t))
    requires CellsReplaced(s.mem, Holder(n))
    ensures Vectors(n.mem, n.pcs, Holder(n))
  {
    forall u <- n.pcs ensures At(n.mem, u, n.pcs[u]) {
      assert u == t || At(s.mem, u, s.pcs[u]);
    }
  }

  /** What a step of the lock holder must not do to the others.  While vectors are being
      replaced nobody is about to store. */
  ghost predicate Spares(m: Memory, n: Memory, growing: bool) {
    (forall u, p | !HoldsLock(p) && FreeAt(m, u, p) && !(growing && p.WriteStore?) :: FreeAt(n, u, p)) &&
    (forall pcs | TebsOwned(m, pcs) :: TebsOwned(n, pcs))
  }

  /** Writing the value that the owner of the vector is due anyway, or past the published
      variables, disturbs nobody. */
  predicate Harmless(m: Memory, a: Addr, i: nat, v: Value) {
    a < |m.vecs| && |m.owner| == |m.vecs| && i < |m.vecs[a]| &&
    (HEADER <= i < m.published ==>
      v == match m.owner[a] case Some(t) => Private(m.log, t, i) case None => Default(m.log, i))
  }

  lemma PutKeeps(m: Memory, a: Addr, i: nat, v: Value, pc: Pc)
    requires Registry(m, pc) && Harmless(m, a, i, v)
    ensures Registry(Put(m, a, i, v), pc)
  {
    var n := Put(m, a, i, v);
    assert forall b | 0 <= b < |m.vecs| :: |n.vecs[b]| == |m.vecs[b]|;
    assert DefaultsAgree(n);
    forall b, t | Agrees(m, b, t) ensures Agrees(n, b, t) { PutAgrees(m, a, i, v, b, t); }
    forall j | 0 <= j < |n.cells| ensures CellAgrees(n, n.cells[j]) {
      assert CellAgrees(m, m.cells[j]);
    }
  }

  lemma PutAgrees(m: Memory, a: Addr, i: nat, v: Value, b: Addr, t: Tid)
    requires Harmless(m, a, i, v) && Agrees(m, b, t)
    ensures Agrees(Put(m, a, i, v), b, t)
  {}

  lemma PutSpares(m: Memory, a: Addr, i: nat, v: Value)
    requires Harmless(m, a, i, v)
    ensures Spares(m, Put(m, a, i, v), false)
  {}

  lemma MakeKeeps(m: Memory, length: nat, who: Option<Tid>, pc: Pc)
    requires Registry(m, pc)
    ensures Registry(Make(m, length, who), pc)
    ensures forall b | 0 <= b < |m.vecs| :: Make(m, length, who).vecs[b] == m.vecs[b]
    ensures IsVec(Make(m, length, who), |m.vecs|, who) && Length(Make(m, length, who), |m.vecs|) == length
  {
    var n := Make(m, length, who);
    forall b, t | Agrees(m, b, t) ensures Agrees(n, b, t) {}
    forall j | 0 <= j < |n.cells| ensures CellAgrees(n, n.cells[j]) {
      assert CellAgrees(m, m.cells[j]);
    }
  }

  lemma MakeSpares(m: Memory, length: nat, who: Option<Tid>)
    ensures Spares(m, Make(m, length, who), false)
  {}

  /** One step of a growth keeps the registry and spares everyone else. */
  lemma GrowKeeps(m: Memory, t: Tid, pc: Pc)
    requires Grows(pc) && !pc.EndGrow? && Registry(m, pc) && HolderAt(m, t, pc)
    ensures var (to, n) := Grow(m, pc); Grows(to) && Registry(n, to) && HolderAt(n, t, to) && Spares(m, n, true)
  {
    match pc
    case CopyDefault(_, _, _, _) => CopyDefaultKeeps(m, t, pc);
    case NextCell(_, _, _) => NextCellKeeps(m, t, pc);
    case CopyCell(_, _, _, _, _) => CopyCellKeeps(m, t, pc);
    case SetTeb(_, _, _) => SetTebKeeps(m, t, pc);
  }

  lemma CopyDefaultKeeps(m: Memory, t: Tid, pc: Pc)
    requires pc.CopyDefault? && Registry(m, pc) && HolderAt(m, t, pc)
    ensures var (to, n) := Grow(m, pc); Registry(n, to) && HolderAt(n, t, to) && Spares(m, n, true)
  {
    var (to, n) := Grow(m, pc);
    if pc.i < Length(m, m.dflt) {
      var v := Get(m, m.dflt, pc.i);
      PutKeeps(m, pc.dst, pc.i, v, pc);
      PutSpares(m, pc.dst, pc.i, v);
    } else {
      forall j | 0 <= j < |m.cells| ensures CellAgrees(n, m.cells[j]) {
        assert CellAgrees(m, m.cells[j]);
      }
    }
  }

  lemma NextCellKeeps(m: Memory, t: Tid, pc: Pc)
    requires pc.NextCell? && Registry(m, pc) && HolderAt(m, t, pc)
    ensures var (to, n) := Grow(m, pc); Registry(n, to) && HolderAt(n, t, to) && Spares(m, n, true)
  {
    if pc.k < |m.cells| {
      var who := Some(m.cells[pc.k].tid);
      MakeKeeps(m, Length(m, m.dflt), who, pc);
      MakeSpares(m, Length(m, m.dflt), who);
      assert CellAgrees(m, m.cells[pc.k]);
    }
  }

  lemma CopyCellKeeps(m: Memory, t: Tid, pc: Pc)
    requires pc.CopyCell? && Registry(m, pc) && HolderAt(m, t, pc)
    ensures var (to, n) := Grow(m, pc); Registry(n, to) && HolderAt(n, t, to) && Spares(m, n, true)
  {
    assert CellAgrees(m, m.cells[pc.k]);
    if pc.i < Length(m, m.cells[pc.k].vec) {
      CopyWord(m, t, pc);
    } else {
      SwapCell(m, pc.k, pc.dst, Grow(m, pc).1);
    }
  }

  lemma CopyWord(m: Memory, t: Tid, pc: Pc)
    requires pc.CopyCell? && Registry(m, pc) && HolderAt(m, t, pc) && pc.i < Length(m, m.cells[pc.k].vec)
    ensures var (to, n) := Grow(m, pc); Registry(n, to) && HolderAt(n, t, to) && Spares(m, n, true)
  {
    var v := Get(m, m.cells[pc.k].vec, pc.i);
    assert CellAgrees(m, m.cells[pc.k]);
    PutKeeps(m, pc.dst, pc.i, v, pc);
    PutSpares(m, pc.dst, pc.i, v);
  }

  /** A registered vector is replaced by a finished copy. */
  lemma SwapCell(m: Memory, k: nat, dst: Addr, n: Memory)
    requires CellsAgree(m) && DefaultsAgree(m) && k < |m.cells|
    requires n == m.(cells := m.cells[k := m.cells[k].(vec := dst)])
    requires IsVec(m, dst, Some(m.cells[k].tid)) && m.cells[k].vec < |m.vecs|
    requires Copied(m, dst, m.cells[k].vec, |m.vecs[m.cells[k].vec]|)
    requires Length(m, dst) == Length(m, m.dflt)
    ensures CellsAgree(n) && DefaultsAgree(n) && Spares(m, n, true)
    ensures forall t :: Registered(n.cells, t) <==> Registered(m.cells, t)
  {
    forall j | 0 <= j < |n.cells| ensures CellAgrees(n, n.cells[j]) {
      assert CellAgrees(m, m.cells[j]);
    }
    forall t ensures Registered(n.cells, t) <==> Registered(m.cells, t) {
      if j :| 0 <= j < |m.cells| && m.cells[j].tid == t { assert n.cells[j].tid == t; }
      if j :| 0 <= j < |n.cells| && n.cells[j].tid == t { assert m.cells[j].tid == t; }
    }
  }

  lemma SetTebKeeps(m: Memory, t: Tid, pc: Pc)
    requires pc.SetTeb? && Registry(m, pc) && HolderAt(m, t, pc)
    ensures var (to, n) := Grow(m, pc); Registry(n, to) && HolderAt(n, t, to) && Spares(m, n, true)
  {
    var (to, n) := Grow(m, pc);
    forall j | 0 <= j < |m.cells| ensures CellAgrees(n, m.cells[j]) {
      assert CellAgrees(m, m.cells[j]);
    }
    forall pcs | TebsOwned(m, pcs) ensures TebsOwned(n, pcs) {
      assert m.cells[pc.k].tid in m.teb && CellAgrees(m, m.cells[pc.k]);
      assert n.teb.Keys == m.teb.Keys;
    }
  }

  // ---- allocation outside a growth

  lemma AllocLockKeeps(m: Memory, t: Tid, pc: Pc, to: Pc)
    requires !HoldsLock(pc) && FreeAt(m, t, pc) && !pc.StartLock? && Registry(m, Idle)
    requires to.AllocSpin? || to.StoreDefault?
    requires to.off == m.next && (to.AllocSpin? <==> m.next >= Length(m, m.dflt))
    ensures Registry(m.(next := m.next + 1), to) && HolderAt(m.(next := m.next + 1), t, to)
    ensures Spares(m, m.(next := m.next + 1), false)
  {
    var n := m.(next := m.next + 1);
    forall j | 0 <= j < |m.cells| ensures CellAgrees(n, m.cells[j]) {
      assert CellAgrees(m, m.cells[j]);
    }
  }

  lemma AllocSpinKeeps(m: Memory, t: Tid, pc: Pc)
    requires pc.AllocSpin? && Registry(m, pc) && HolderAt(m, t, pc)
    ensures var size := Length(m, m.dflt) - HEADER;
            size >= 0 &&
            var n := Make(m, size + size + HEADER, None);
            var to := CopyDefault(pc.v, pc.off, |m.vecs|, HEADER);
            Registry(n, to) && HolderAt(n, t, to) && Spares(m, n, false)
  {
    var size := Length(m, m.dflt) - HEADER;
    var n := Make(m, size + size + HEADER, None);
    MakeKeeps(m, size + size + HEADER, None, pc);
    MakeSpares(m, size + size + HEADER, None);
    SpinCopies(m, t, pc, n);
    assert Replaced(pc, |m.cells|) == Replaced(CopyDefault(pc.v, pc.off, |m.vecs|, HEADER), |m.cells|);
  }

  lemma SpinCopies(m: Memory, t: Tid, pc: Pc, n: Memory)
    requires pc.AllocSpin? && HolderAt(m, t, pc) && DefaultsAgree(m) && Length(m, m.dflt) >= HEADER
    requires n == Make(m, Length(m, m.dflt) + Length(m, m.dflt) - HEADER, None)
    ensures HolderAt(n, t, CopyDefault(pc.v, pc.off, |m.vecs|, HEADER))
  {}

  lemma StoreDefaultKeeps(m: Memory, t: Tid, pc: Pc)
    requires pc.StoreDefault? && Registry(m, pc) && HolderAt(m, t, pc)
    ensures var n := Put(m, m.dflt, pc.off, pc.v);
            var to := Propagate(pc.v, pc.off, 0);
            Registry(n, to) && HolderAt(n, t, to) && Spares(m, n, false)
  {
    PutKeeps(m, m.dflt, pc.off, pc.v, pc);
    PutSpares(m, m.dflt, pc.off, pc.v);
  }

  lemma PropagateKeeps(m: Memory, t: Tid, pc: Pc)
    requires pc.Propagate? && pc.k < |m.cells| && Registry(m, pc) && HolderAt(m, t, pc)
    ensures var n := Put(m, m.cells[pc.k].vec, pc.off, pc.v);
            var to := Propagate(pc.v, pc.off, pc.k + 1);
            Registry(n, to) && HolderAt(n, t, to) && Spares(m, n, false)
  {
    assert CellAgrees(m, m.cells[pc.k]);
    PutKeeps(m, m.cells[pc.k].vec, pc.off, pc.v, pc);
    PutSpares(m, m.cells[pc.k].vec, pc.off, pc.v);
  }

  lemma LogAllocated(log: seq<Event>, who: Tid, off: Handle, v: Value)
    ensures forall t, h {:trigger Private(log + [Allocated(who, off, v)], t, h)} ::
              Private(log + [Allocated(who, off, v)], t, h) == if h == off then v else Private(log, t, h)
    ensures forall h {:trigger Default(log + [Allocated(who, off, v)], h)} ::
              Default(log + [Allocated(who, off, v)], h) == if h == off then v else Default(log, h)
  {
    assert (log + [Allocated(who, off, v)])[..|log|] == log;
  }

  /** The variable is returned to its caller: from now on every vector answers for it. */
  lemma PublishKeeps(m: Memory, t: Tid, pc: Pc)
    requires pc.Propagate? && pc.k >= |m.cells| && Registry(m, pc) && HolderAt(m, t, pc)
    ensures var n := Log(m.(published := pc.off + 1), Allocated(t, pc.off, pc.v));
            Registry(n, Idle) && FreeAt(n, t, Idle) && Spares(m, n, false)
  {
    var n := Log(m.(published := pc.off + 1), Allocated(t, pc.off, pc.v));
    LogAllocated(m.log, t, pc.off, pc.v);
    forall j | 0 <= j < |n.cells| ensures CellAgrees(n, n.cells[j]) {
      assert CellAgrees(m, m.cells[j]);
      assert Get(m, m.cells[j].vec, pc.off) == pc.v;
      assert TebOf(m, m.cells[j].tid) == m.cells[j].vec;
    }
  }

  // ---- thread start

  lemma StartLockKeeps(m: Memory, t: Tid, pcs: map<Tid, Pc>)
    requires Registry(m, Idle) && t !in m.teb && TebsOwned(m, pcs) && t in pcs
    ensures var n := Make(m, Length(m, m.dflt), Some(t)).(teb := m.teb[t := |m.vecs|]);
            var to := StartCopy(|m.vecs|, HEADER);
            Registry(n, to) && HolderAt(n, t, to) && TebsOwned(n, pcs[t := to]) &&
            forall u, p | u != t && !HoldsLock(p) && FreeAt(m, u, p) :: FreeAt(n, u, p)
  {
    var length := Length(m, m.dflt);
    MakeKeeps(m, length, Some(t), Idle);
    MakeSpares(m, length, Some(t));
    var k := Make(m, length, Some(t));
    var n := k.(teb := m.teb[t := |m.vecs|]);
    forall j | 0 <= j < |n.cells| ensures CellAgrees(n, n.cells[j]) && n.cells[j].tid != t {
      assert CellAgrees(k, k.cells[j]);
    }
    forall u, p | u != t && !HoldsLock(p) && FreeAt(m, u, p) ensures FreeAt(n, u, p) {
      assert FreeAt(k, u, p);
    }
  }

  lemma StartCopyKeeps(m: Memory, t: Tid, pc: Pc, pcs: map<Tid, Pc>)
    requires pc.StartCopy? && pc.i < Length(m, m.dflt) && Registry(m, pc) && HolderAt(m, t, pc) && TebsOwned(m, pcs)
    ensures var n := Put(m, pc.dst, pc.i, Get(m, m.dflt, pc.i));
            var to := StartCopy(pc.dst, pc.i + 1);
            Registry(n, to) && HolderAt(n, t, to) && Spares(m, n, false)
  {
    PutKeeps(m, pc.dst, pc.i, Get(m, m.dflt, pc.i), pc);
    PutSpares(m, pc.dst, pc.i, Get(m, m.dflt, pc.i));
  }

  lemma StartAddKeeps(m: Memory, t: Tid, pc: Pc)
    requires pc.StartCopy? && pc.i >= Length(m, m.dflt) && Registry(m, pc) && HolderAt(m, t, pc)
    requires forall h: Handle :: Private(m.log, t, h) == Default(m.log, h)
    ensures var n := m.(cells := [Cell(t, pc.dst)] + m.cells); Registry(n, Idle) && FreeAt(n, t, Idle)
  {
    var n := m.(cells := [Cell(t, pc.dst)] + m.cells);
    Enrolled(m.cells, Cell(t, pc.dst));
    forall j | 0 <= j < |n.cells| ensures CellAgrees(n, n.cells[j]) {
      if j > 0 { assert CellAgrees(m, m.cells[j - 1]); }
    }
  }

  lemma StartAddSpares(m: Memory, t: Tid, pc: Pc, pcs: map<Tid, Pc>)
    requires TebsOwned(m, pcs) && t in pcs && pc.StartCopy?
    ensures var n := m.(cells := [Cell(t, pc.dst)] + m.cells);
            TebsOwned(n, pcs[t := Idle]) &&
            forall u, p | !HoldsLock(p) && FreeAt(m, u, p) :: FreeAt(n, u, p)
  {
    Enrolled(m.cells, Cell(t, pc.dst));
  }

  lemma Enrolled(cells: seq<Cell>, c: Cell)
    ensures forall u :: Registered([c] + cells, u) <==> u == c.tid || Registered(cells, u)
  {
    var n := [c] + cells;
    forall u ensures Registered(n, u) <==> u == c.tid || Registered(cells, u) {
      assert n[0] == c;
      if j :| 0 <= j < |cells| && cells[j].tid == u { assert n[j + 1].tid == u; }
      if j :| 0 <= j < |n| && n[j].tid == u && u != c.tid { assert cells[j - 1].tid == u; }
    }
  }

  // ---- readers and writers

  lemma LogRead(log: seq<Event>, t: Tid, h: Handle, v: Value)
    requires ReadsPrivate(log) && v == Private(log, t, h)
    ensures var n := log + [Read(t, h, v)];
            ReadsPrivate(n) && (forall u, x :: Private(n, u, x) == Private(log, u, x)) &&
            forall x :: Default(n, x) == Default(log, x)
  {
    var n := log + [Read(t, h, v)];
    assert n[..|log|] == log;
    forall i | 0 <= i < |n| && n[i].Read? ensures n[i].v == Private(n[..i], n[i].tid, n[i].h) {
      if i < |log| { assert n[..i] == log[..i]; }
    }
  }

  lemma ReadFetchKeeps(m: Memory, t: Tid, pc: Pc, holder: Pc)
    requires pc.ReadFetch? && Registry(m, holder) && FreeAt(m, t, pc) && ReadsPrivate(m.log)
    ensures var n := Log(m, Read(t, pc.h, Get(m, pc.p, pc.h))); Registry(n, holder) && ReadsPrivate(n.log)
  {
    var n := Log(m, Read(t, pc.h, Get(m, pc.p, pc.h)));
    LogRead(m.log, t, pc.h, Get(m, pc.p, pc.h));
    forall j | 0 <= j < |n.cells| ensures CellAgrees(n, n.cells[j]) {
      assert CellAgrees(m, m.cells[j]);
    }
  }

  lemma ReadFetchSpares(m: Memory, t: Tid, pc: Pc, u: Tid, p: Pc)
    requires pc.ReadFetch? && FreeAt(m, t, pc) && ReadsPrivate(m.log) && At(m, u, p)
    ensures At(Log(m, Read(t, pc.h, Get(m, pc.p, pc.h))), u, p)
  {
    LogRead(m.log, t, pc.h, Get(m, pc.p, pc.h));
  }

  lemma ReadFetchTebs(m: Memory, t: Tid, pc: Pc, pcs: map<Tid, Pc>)
    requires pc.ReadFetch? && FreeAt(m, t, pc) && ReadsPrivate(m.log) && TebsOwned(m, pcs)
    ensures TebsOwned(Log(m, Read(t, pc.h, Get(m, pc.p, pc.h))), pcs)
  {
    LogRead(m.log, t, pc.h, Get(m, pc.p, pc.h));
  }

  lemma LogWrote(log: seq<Event>, t: Tid, h: Handle, v: Value)
    requires ReadsPrivate(log)
    ensures var n := log + [Wrote(t, h, v)];
            ReadsPrivate(n) &&
            (forall u, x :: Private(n, u, x) == if u == t && x == h then v else Private(log, u, x)) &&
            forall x :: Default(n, x) == Default(log, x)
  {
    var n := log + [Wrote(t, h, v)];
    assert n[..|log|] == log;
    forall i | 0 <= i < |n| && n[i].Read? ensures n[i].v == Private(n[..i], n[i].tid, n[i].h) {
      if i < |log| { assert n[..i] == log[..i]; }
    }
  }

  /** A store outside a growth reaches the vector that is registered, and nobody else's. */
  lemma WriteStoreKeeps(m: Memory, t: Tid, pc: Pc, holder: Pc)
    requires pc.WriteStore? && Registry(m, holder) && !Grows(holder) && FreeAt(m, t, pc) && ReadsPrivate(m.log)
    ensures var n := Log(Put(m, pc.p, pc.h, pc.nv), Wrote(t, pc.h, pc.nv));
            Registry(n, holder) && ReadsPrivate(n.log) && FreeAt(n, t, WriteDec) &&
            IsVec(m, pc.p, Some(t)) && pc.h < |m.vecs[pc.p]| && pc.p != m.dflt
  {
    var n := Log(Put(m, pc.p, pc.h, pc.nv), Wrote(t, pc.h, pc.nv));
    LogWrote(m.log, t, pc.h, pc.nv);
    var k :| 0 <= k < |m.cells| && m.cells[k].tid == t;
    assert CellAgrees(m, m.cells[k]) && m.cells[k].vec == pc.p;
    forall j | 0 <= j < |n.cells| ensures CellAgrees(n, n.cells[j]) {
      assert CellAgrees(m, m.cells[j]);
    }
  }

  lemma WriteStoreSpares(m: Memory, t: Tid, pc: Pc, u: Tid, p: Pc)
    requires pc.WriteStore? && IsVec(m, pc.p, Some(t)) && pc.h < |m.vecs[pc.p]| && IsVec(m, m.dflt, None)
    requires ReadsPrivate(m.log) && HEADER <= pc.h < m.published && u != t && !Grows(p) && At(m, u, p)
    ensures At(Log(Put(m, pc.p, pc.h, pc.nv), Wrote(t, pc.h, pc.nv)), u, p)
  {
    LogWrote(m.log, t, pc.h, pc.nv);
  }

  lemma WriteStoreTebs(m: Memory, t: Tid, pc: Pc, pcs: map<Tid, Pc>)
    requires pc.WriteStore? && TebsOwned(m, pcs) && Registered(m.cells, t) && ReadsPrivate(m.log)
    ensures TebsOwned(Log(Put(m, pc.p, pc.h, pc.nv), Wrote(t, pc.h, pc.nv)), pcs)
  {
    LogWrote(m.log, t, pc.h, pc.nv);
  }

  // ---- putting the steps together

  /** A step of `t` without the lock: what is to be shown of the registry, of `t` and of the others. */
  lemma Assembled(m: Memory, pcs: map<Tid, Pc>, t: Tid, to: Pc, holder: Pc)
    requires Registry(m, holder) && TebsOwned(m, pcs) && Registered(m.cells, t) && At(m, t, to)
    requires forall u <- pcs | u != t :: At(m, u, pcs[u])
    ensures Vectors(m, pcs[t := to], holder)
  {}

  /** The lock holder's step: everyone else is at a program point without the lock. */
  lemma HolderKeeps(s: State, t: Tid, to: Pc, n: State)
    requires Inv(s) && t in s.pcs && s.lock == Some(t) && n.pcs == s.pcs[t := to]
    requires !s.pcs[t].StartCopy? || to.StartCopy?
    requires Registry(n.mem, Holder(n)) && At(n.mem, t, to) && Spares(s.mem, n.mem, Growing(s))
    ensures Vectors(n.mem, n.pcs, Holder(n))
  {
    assert TebsOwned(n.mem, s.pcs);
    forall u <- n.pcs ensures At(n.mem, u, n.pcs[u]) {
      if u != t { assert At(s.mem, u, s.pcs[u]); }
    }
  }

  lemma GrowthKeeps(s: State, t: Tid, n: State)
    requires Inv(s) && t in s.pcs && Grows(s.pcs[t]) && n == GrowthStep(s, t) && n != s
    ensures Vectors(n.mem, n.pcs, Holder(n)) && ReadsPrivate(n.mem.log)
  {
    assert At(s.mem, t, s.pcs[t]) && Holder(s) == s.pcs[t];
    if s.pcs[t].EndGrow? {
      MoveKeeps(s, t, n.pcs[t], n);
    } else {
      GrowKeeps(s.mem, t, s.pcs[t]);
      GrowLog(s.mem, s.pcs[t]);
      var (to, m) := Grow(s.mem, s.pcs[t]);
      GrowthMoves(s, t, to, m, n);
    }
  }

  lemma GrowLog(m: Memory, pc: Pc)
    ensures Grow(m, pc).1.log == m.log
  {}

  lemma GrowthMoves(s: State, t: Tid, to: Pc, m: Memory, n: State)
    requires Inv(s) && t in s.pcs && s.lock == Some(t) && Growing(s) && n == Goto(s, t, to, m) && m.log == s.mem.log
    requires Grows(to) && Registry(m, to) && HolderAt(m, t, to) && Spares(s.mem, m, true)
    ensures Vectors(n.mem, n.pcs, Holder(n)) && ReadsPrivate(n.mem.log)
  {
    HolderKeeps(s, t, to, n);
  }

  lemma AllocationKeeps(s: State, t: Tid, n: State)
    requires Inv(s) && t in s.pcs && InAllocation(s.pcs[t]) && n == AllocationStep(s, t) && n != s
    ensures Vectors(n.mem, n.pcs, Holder(n)) && ReadsPrivate(n.mem.log)
  {
    assert At(s.mem, t, s.pcs[t]);
    if s.pcs[t].AllocLock? {
      AllocLockStep(s, t, n);
    } else {
      assert s.lock == Some(t);
      HeldAllocation(s, s.mem, t, s.pcs[t], n.pcs[t], n);
    }
  }

  lemma AllocLockStep(s: State, t: Tid, n: State)
    requires Inv(s) && t in s.pcs && s.pcs[t].AllocLock? && n == AllocationStep(s, t) && n != s
    ensures Vectors(n.mem, n.pcs, Holder(n)) && ReadsPrivate(n.mem.log)
  {
    assert At(s.mem, t, s.pcs[t]);
    AllocLockMemory(s, t, n);
    AcquireKeeps(s, t, n.pcs[t], n);
  }

  lemma AllocLockMemory(s: State, t: Tid, n: State)
    requires t in s.pcs && s.pcs[t].AllocLock? && n == AllocationStep(s, t) && n != s
    requires Registry(s.mem, Idle) && FreeAt(s.mem, t, s.pcs[t])
    ensures t in n.pcs && n.pcs == s.pcs[t := n.pcs[t]] && n.lock == Some(t) && s.lock == None
    ensures Registry(n.mem, n.pcs[t]) && At(n.mem, t, n.pcs[t]) && Spares(s.mem, n.mem, false)
    ensures n.mem.log == s.mem.log
  {
    AllocLockKeeps(s.mem, t, s.pcs[t], n.pcs[t]);
  }

  lemma HeldAllocation(s: State, m: Memory, t: Tid, pc: Pc, to: Pc, n: State)
    requires Inv(s) && t in s.pcs && m == s.mem && pc == s.pcs[t] && s.lock == Some(t) && HolderAt(m, t, pc)
    requires pc.AllocSpin? || pc.StoreDefault? || pc.Propagate?
    requires n == AllocationStep(s, t) && n != s && to == n.pcs[t]
    ensures Vectors(n.mem, n.pcs, Holder(n)) && ReadsPrivate(n.mem.log)
  {
    AllocationMemory(s, t, n);
    HolderKeeps(s, t, to, n);
  }

  lemma AllocationMemory(s: State, t: Tid, n: State)
    requires t in s.pcs && (s.pcs[t].AllocSpin? || s.pcs[t].StoreDefault? || s.pcs[t].Propagate?)
    requires s.lock == Some(t) && n == AllocationStep(s, t) && n != s
    requires Registry(s.mem, s.pcs[t]) && HolderAt(s.mem, t, s.pcs[t]) && ReadsPrivate(s.mem.log)
    ensures Registry(n.mem, Holder(n)) && At(n.mem, t, n.pcs[t]) && Spares(s.mem, n.mem, false) &&
            ReadsPrivate(n.mem.log)
  {
    var pc := s.pcs[t];
    if pc.AllocSpin? { SpinMemory(s, t, n); }
    else if pc.StoreDefault? { StoreDefaultMemory(s, t, n); }
    else if pc.k < |s.mem.cells| { PropagateMemory(s, t, n); }
    else { PublishMemory(s, t, n); }
  }

  lemma SpinMemory(s: State, t: Tid, n: State)
    requires t in s.pcs && s.pcs[t].AllocSpin?
    requires s.lock == Some(t) && n == AllocationStep(s, t) && n != s
    requires Registry(s.mem, s.pcs[t]) && HolderAt(s.mem, t, s.pcs[t]) && ReadsPrivate(s.mem.log)
    ensures Registry(n.mem, Holder(n)) && At(n.mem, t, n.pcs[t]) && Spares(s.mem, n.mem, false) &&
            ReadsPrivate(n.mem.log)
  {
    AllocSpinKeeps(s.mem, t, s.pcs[t]);
    SpinStep(s, t);
  }

  lemma SpinStep(s: State, t: Tid)
    requires t in s.pcs && s.pcs[t].AllocSpin? && s.lock == Some(t) && AllocationStep(s, t) != s
    requires Length(s.mem, s.mem.dflt) >= HEADER
    ensures var n := AllocationStep(s, t); var size := Length(s.mem, s.mem.dflt) - HEADER;
            n.mem == Make(s.mem, size + size + HEADER, None) && Holder(n) == n.pcs[t] &&
            n.pcs[t] == CopyDefault(s.pcs[t].v, s.pcs[t].off, |s.mem.vecs|, HEADER)
  {}

  lemma StoreDefaultMemory(s: State, t: Tid, n: State)
    requires t in s.pcs && s.pcs[t].StoreDefault?
    requires s.lock == Some(t) && n == AllocationStep(s, t) && n != s
    requires Registry(s.mem, s.pcs[t]) && HolderAt(s.mem, t, s.pcs[t]) && ReadsPrivate(s.mem.log)
    ensures Registry(n.mem, Holder(n)) && At(n.mem, t, n.pcs[t]) && Spares(s.mem, n.mem, false) &&
            ReadsPrivate(n.mem.log)
  {
    StoreDefaultKeeps(s.mem, t, s.pcs[t]);
  }

  lemma PropagateMemory(s: State, t: Tid, n: State)
    requires t in s.pcs && s.pcs[t].Propagate? && s.pcs[t].k < |s.mem.cells|
    requires s.lock == Some(t) && n == AllocationStep(s, t) && n != s
    requires Registry(s.mem, s.pcs[t]) && HolderAt(s.mem, t, s.pcs[t]) && ReadsPrivate(s.mem.log)
    ensures Registry(n.mem, Holder(n)) && At(n.mem, t, n.pcs[t]) && Spares(s.mem, n.mem, false) &&
            ReadsPrivate(n.mem.log)
  {
    PropagateKeeps(s.mem, t, s.pcs[t]);
  }

  lemma PublishMemory(s: State, t: Tid, n: State)
    requires t in s.pcs && s.pcs[t].Propagate? && s.pcs[t].k >= |s.mem.cells|
    requires s.lock == Some(t) && n == AllocationStep(s, t) && n != s
    requires Registry(s.mem, s.pcs[t]) && HolderAt(s.mem, t, s.pcs[t]) && ReadsPrivate(s.mem.log)
    ensures Registry(n.mem, Holder(n)) && At(n.mem, t, n.pcs[t]) && Spares(s.mem, n.mem, false) &&
            ReadsPrivate(n.mem.log)
  {
    PublishKeeps(s.mem, t, s.pcs[t]);
    PublishReads(s.mem.log, t, s.pcs[t].off, s.pcs[t].v);
  }

  lemma PublishReads(log: seq<Event>, who: Tid, off: Handle, v: Value)
    requires ReadsPrivate(log)
    ensures ReadsPrivate(log + [Allocated(who, off, v)])
  {
    var n := log + [Allocated(who, off, v)];
    forall i | 0 <= i < |n| && n[i].Read? ensures n[i].v == Private(n[..i], n[i].tid, n[i].h) {
      assert n[..i] == log[..i];
    }
  }

  lemma AcquireKeeps(s: State, t: Tid, to: Pc, n: State)
    requires Inv(s) && t in s.pcs && s.lock == None && n.pcs == s.pcs[t := to] && n.lock == Some(t)
    requires !s.pcs[t].StartCopy?
    requires Registry(n.mem, to) && At(n.mem, t, to) && Spares(s.mem, n.mem, false)
    ensures Vectors(n.mem, n.pcs, Holder(n))
  {
    assert TebsOwned(n.mem, s.pcs);
    forall u <- n.pcs ensures At(n.mem, u, n.pcs[u]) {
      if u != t { assert At(s.mem, u, s.pcs[u]); }
    }
  }

  lemma StartKeeps(s: State, t: Tid, n: State)
    requires Inv(s) && t in s.pcs && (s.pcs[t].StartLock? || s.pcs[t].StartCopy?) && n == StartStep(s, t) && n != s
    ensures Vectors(n.mem, n.pcs, Holder(n)) && ReadsPrivate(n.mem.log)
  {
    assert At(s.mem, t, s.pcs[t]);
    if s.pcs[t].StartCopy? {
      StartCopyStep(s, t, n);
    } else if t in s.mem.teb {
      MoveKeeps(s, t, Idle, n);
    } else {
      StartLockKeeps(s.mem, t, s.pcs);
      OthersKeep(s, t, n.pcs[t], n);
    }
  }

  lemma StartCopyStep(s: State, t: Tid, n: State)
    requires Inv(s) && t in s.pcs && s.pcs[t].StartCopy? && n == StartStep(s, t) && n != s
    ensures Vectors(n.mem, n.pcs, Holder(n)) && ReadsPrivate(n.mem.log)
  {
    var pc := s.pcs[t];
    assert At(s.mem, t, pc) && Holder(s) == pc;
    if pc.i < Length(s.mem, s.mem.dflt) {
      StartCopyKeeps(s.mem, t, pc, s.pcs);
      HolderKeeps(s, t, n.pcs[t], n);
    } else {
      StartAddKeeps(s.mem, t, pc);
      StartAddSpares(s.mem, t, pc, s.pcs);
      OthersKeep(s, t, Idle, n);
    }
  }

  /** The parts of the invariant come together when the others' program points are kept. */
  lemma OthersKeep(s: State, t: Tid, to: Pc, n: State)
    requires Inv(s) && t in s.pcs && (s.lock == None || s.lock == Some(t)) && n.pcs == s.pcs[t := to]
    requires Registry(n.mem, Holder(n)) && At(n.mem, t, to) && TebsOwned(n.mem, n.pcs)
    requires forall u, p | u != t && !HoldsLock(p) && FreeAt(s.mem, u, p) :: FreeAt(n.mem, u, p)
    ensures Vectors(n.mem, n.pcs, Holder(n))
  {
    forall u <- n.pcs ensures At(n.mem, u, n.pcs[u]) {
      if u != t { assert At(s.mem, u, s.pcs[u]); }
    }
  }

  lemma WriterKeeps(s: State, t: Tid, n: State)
    requires Inv(s) && t in s.pcs && InWrite(s.pcs[t]) && n == WriterStep(s, t) && n != s
    ensures Vectors(n.mem, n.pcs, Holder(n)) && ReadsPrivate(n.mem.log)
  {
    assert At(s.mem, t, s.pcs[t]);
    if s.pcs[t].WriteStore? {
      WriteStoreStep(s, t, n);
    } else {
      WriterMoves(s, t, n);
      MoveKeeps(s, t, n.pcs[t], n);
    }
  }

  lemma WriterMoves(s: State, t: Tid, n: State)
    requires t in s.pcs && InWrite(s.pcs[t]) && !s.pcs[t].WriteStore? && n == WriterStep(s, t) && n != s
    requires CellsAgree(s.mem) && FreeAt(s.mem, t, s.pcs[t]) && (s.lock.Some? ==> s.lock.value != t)
    ensures n.pcs == s.pcs[t := n.pcs[t]] && n.mem == s.mem && At(s.mem, t, n.pcs[t]) && Holder(n) == Holder(s)
  {
    RegisteredTeb(s.mem, t);
  }

  lemma WriteStoreStep(s: State, t: Tid, n: State)
    requires Inv(s) && t in s.pcs && s.pcs[t].WriteStore? && n == WriterStep(s, t)
    ensures Vectors(n.mem, n.pcs, Holder(n)) && ReadsPrivate(n.mem.log)
  {
    var pc := s.pcs[t];
    assert At(s.mem, t, pc) && Holder(n) == Holder(s) && !Grows(Holder(s));
    WriteStoreKeeps(s.mem, t, pc, Holder(s));
    WriteStoreTebs(s.mem, t, pc, s.pcs);
    forall u <- s.pcs | u != t ensures At(n.mem, u, s.pcs[u]) { WriteStoreOthers(s, t, n.mem, u); }
    Assembled(n.mem, s.pcs, t, WriteDec, Holder(n));
  }

  lemma WriteStoreOthers(s: State, t: Tid, m: Memory, u: Tid)
    requires Inv(s) && t in s.pcs && u in s.pcs && u != t && s.pcs[t].WriteStore?
    requires m == Log(Put(s.mem, s.pcs[t].p, s.pcs[t].h, s.pcs[t].nv), Wrote(t, s.pcs[t].h, s.pcs[t].nv))
    ensures At(m, u, s.pcs[u])
  {
    assert At(s.mem, t, s.pcs[t]) && At(s.mem, u, s.pcs[u]) && !Grows(s.pcs[u]);
    WriteStoreKeeps(s.mem, t, s.pcs[t], Holder(s));
    WriteStoreSpares(s.mem, t, s.pcs[t], u, s.pcs[u]);
  }

  lemma RegisteredTeb(m: Memory, t: Tid)
    requires CellsAgree(m) && Registered(m.cells, t)
    ensures t in m.teb && Agrees(m, m.teb[t], t)
  {
    var j :| 0 <= j < |m.cells| && m.cells[j].tid == t;
    assert CellAgrees(m, m.cells[j]);
  }

  lemma ReaderKeeps(s: State, t: Tid, n: State)
    requires Inv(s) && t in s.pcs && (s.pcs[t].ReadLoad? || s.pcs[t].ReadFetch?) && n == ReaderStep(s, t)
    ensures Vectors(n.mem, n.pcs, Holder(n)) && ReadsPrivate(n.mem.log)
  {
    assert At(s.mem, t, s.pcs[t]) && Holder(n) == Holder(s);
    if s.pcs[t].ReadLoad? {
      RegisteredTeb(s.mem, t);
      MoveKeeps(s, t, n.pcs[t], n);
    } else {
      ReadFetchStep(s, t, n);
    }
  }

  lemma ReadFetchOthers(s: State, t: Tid, m: Memory, u: Tid)
    requires Inv(s) && t in s.pcs && u in s.pcs && s.pcs[t].ReadFetch?
    requires m == Log(s.mem, Read(t, s.pcs[t].h, Get(s.mem, s.pcs[t].p, s.pcs[t].h)))
    ensures At(m, u, s.pcs[u])
  {
    assert At(s.mem, t, s.pcs[t]) && At(s.mem, u, s.pcs[u]);
    ReadFetchSpares(s.mem, t, s.pcs[t], u, s.pcs[u]);
  }

  lemma ReadFetchStep(s: State, t: Tid, n: State)
    requires Inv(s) && t in s.pcs && s.pcs[t].ReadFetch? && n == ReaderStep(s, t)
    ensures Vectors(n.mem, n.pcs, Holder(n)) && ReadsPrivate(n.mem.log)
  {
    assert At(s.mem, t, s.pcs[t]) && Holder(n) == Holder(s);
    ReadFetchMoves(s, t, n.mem);
  }

  lemma ReadFetchMoves(s: State, t: Tid, m: Memory)
    requires Inv(s) && t in s.pcs && s.pcs[t].ReadFetch?
    requires m == Log(s.mem, Read(t, s.pcs[t].h, Get(s.mem, s.pcs[t].p, s.pcs[t].h)))
    ensures Vectors(m, s.pcs[t := Idle], Holder(s)) && ReadsPrivate(m.log)
  {
    assert At(s.mem, t, s.pcs[t]);
    ReadFetchKeeps(s.mem, t, s.pcs[t], Holder(s));
    ReadFetchTebs(s.mem, t, s.pcs[t], s.pcs);
    forall u <- s.pcs | u != t ensures At(m, u, s.pcs[u]) { ReadFetchOthers(s, t, m, u); }
    Assembled(m, s.pcs, t, Idle, Holder(s));
  }

  lemma AdvanceKeeps(s: State, t: Tid, n: State)
    requires Inv(s) && t in s.pcs && n == Advance(s, t)
    ensures Vectors(n.mem, n.pcs, Holder(n)) && ReadsPrivate(n.mem.log)
  {
    var pc := s.pcs[t];
    if n != s {
      if InAllocation(pc) { AllocationKeeps(s, t, n); }
      else if Grows(pc) { GrowthKeeps(s, t, n); }
      else if InWrite(pc) { WriterKeeps(s, t, n); }
      else if pc.ReadLoad? || pc.ReadFetch? { ReaderKeeps(s, t, n); }
      else { StartKeeps(s, t, n); }
    }
  }

  /** Every step of every thread keeps the invariant. */
  lemma StepKeeps(s: State, l: Label, n: State)
    requires Inv(s) && Step(s, l, n)
    ensures Inv(n)
  {
    MutexAndCounts(s, l, n);
    match l
    case Spawn(t) => SpawnKeeps(s, t, n);
    case Begin(t, c) => BeginKeeps(s, t, c, n);
    case Run(t) => AdvanceKeeps(s, t, n);
  }

  lemma EntryAt(s: State, t: Tid, c: Call)
    requires CallOk(s, c) && At(s.mem, t, Idle)
    ensures At(s.mem, t, Entry(c)) && !HoldsLock(Entry(c))
  {}

  lemma BeginKeeps(s: State, t: Tid, c: Call, n: State)
    requires Inv(s) && Step(s, Begin(t, c), n)
    ensures Vectors(n.mem, n.pcs, Holder(n)) && ReadsPrivate(n.mem.log)
  {
    assert At(s.mem, t, Idle);
    EntryAt(s, t, c);
    MoveKeeps(s, t, Entry(c), n);
  }

  lemma SpawnKeeps(s: State, t: Tid, n: State)
    requires Inv(s) && Step(s, Spawn(t), n)
    ensures Vectors(n.mem, n.pcs, Holder(n)) && ReadsPrivate(n.mem.log)
  {
    forall u <- n.pcs ensures At(n.mem, u, n.pcs[u]) {
      if u != t { assert At(s.mem, u, s.pcs[u]); }
    }
  }

  lemma InitKeeps(s: State)
    requires Init(s)
    ensures Inv(s)
  {
    assert CountedSet(s) == {};
  }

  // ---------------------------------------------------------------- what every run guarantees

  /** A run: states joined by steps. */
  ghost predicate IsRun(states: seq<State>, labels: seq<Label>) {
    |states| == |labels| + 1 && Init(states[0]) &&
    forall i | 0 <= i < |labels| :: Step(states[i], labels[i], states[i + 1])
  }

  lemma {:induction false} RunInv(states: seq<State>, labels: seq<Label>)
    requires IsRun(states, labels)
    ensures Inv(states[|labels|])
  {
    if labels == [] {
      InitKeeps(states[0]);
    } else {
      var k := |labels| - 1;
      RunInv(states[..k + 1], labels[..k]);
      StepKeeps(states[k], labels[k], states[k + 1]);
    }
  }

  /** In every run, each read of a thread variable returned the value that the same thread last
      wrote, or the variable's default if it never wrote; each handle is inside every
      registered vector; and the counter is what the threads between an increment and a
      decrement add to the grower's mark. */
  lemma ThreadVariablesArePrivate(states: seq<State>, labels: seq<Label>)
    requires IsRun(states, labels)
    ensures var s := states[|labels|];
            ReadsPrivate(s.mem.log) &&
            (forall j | 0 <= j < |s.mem.cells| ::
              s.mem.cells[j].tid in s.mem.teb && s.mem.published <= Length(s.mem, s.mem.cells[j].vec) &&
              s.mem.published <= Length(s.mem, s.mem.teb[s.mem.cells[j].tid])) &&
            s.counter == (if Growing(s) then TLV_GROW else 0) + |CountedSet(s)|
  {
    RunInv(states, labels);
    var s := states[|labels|];
    forall j | 0 <= j < |s.mem.cells|
      ensures s.mem.cells[j].tid in s.mem.teb && s.mem.published <= Length(s.mem, s.mem.cells[j].vec) &&
              s.mem.published <= Length(s.mem, s.mem.teb[s.mem.cells[j].tid])
    {
      assert CellAgrees(s.mem, s.mem.cells[j]);
    }
  }

  // ---------------------------------------------------------------- calls and their effects

  /** The calls that a thread has made, thread starts aside. */
  function CallsOf(labels: seq<Label>, t: Tid): seq<Call> {
    if labels == [] then []
    else
      var l := labels[|labels| - 1];
      CallsOf(labels[..|labels| - 1], t) + MadeBy(l, t)
  }

  function MadeBy(l: Label, t: Tid): seq<Call> { if l.Begin? && l.t == t && !l.c.Reinitialize? then [l.c] else [] }

  function CallOf(e: Event): Call {
    match e
    case Allocated(_, _, v) => Allocate(v)
    case Wrote(_, h, v) => Write(h, v)
    case Read(_, h, _) => Fetch(h)
  }

  /** The calls that the events of a thread are the effects of. */
  function EffectsOf(log: seq<Event>, t: Tid): seq<Call> {
    if log == [] then []
    else
      var e := log[|log| - 1];
      EffectsOf(log[..|log| - 1], t) + if e.tid == t then [CallOf(e)] else []
  }

  /** The call in progress at a program point that has not had its effect yet. */
  function InFlight(pc: Pc): seq<Call> {
    if InAllocation(pc) || Grows(pc) then [Allocate(pc.v)]
    else if InWrite(pc) && !pc.WriteDec? then [Write(pc.h, pc.nv)]
    else if pc.ReadLoad? || pc.ReadFetch? then [Fetch(pc.h)]
    else []
  }

  ghost predicate Effective(labels: seq<Label>, s: State, t: Tid) {
    CallsOf(labels, t) == EffectsOf(s.mem.log, t) + FlightOf(s, t)
  }

  /** Handles are given out one after the other, and only those given out are written. */
  function Allocations(log: seq<Event>): nat {
    if log == [] then 0 else Allocations(log[..|log| - 1]) + if log[|log| - 1].Allocated? then 1 else 0
  }

  ghost predicate Ordered(log: seq<Event>) {
    log != [] ==>
      var before, e := log[..|log| - 1], log[|log| - 1];
      Ordered(before) && match e {
        case Allocated(_, h, _) => h == HEADER + Allocations(before)
        case Wrote(_, h, _) => h < HEADER + Allocations(before)
        case Read(_, _, _) => true
      }
  }

  ghost predicate History(s: State) {
    Ordered(s.mem.log) && s.mem.published == HEADER + Allocations(s.mem.log)
  }

  /** The event that a step of `t` logs. */
  function Logged(s: State, t: Tid): seq<Event>
    requires t in s.pcs
  {
    match s.pcs[t]
    case Propagate(v, off, k) => if k < |s.mem.cells| then [] else [Allocated(t, off, v)]
    case WriteStore(h, nv, _) => [Wrote(t, h, nv)]
    case ReadFetch(h, p) => [Read(t, h, Get(s.mem, p, h))]
    case _ => []
  }

  lemma AdvanceLogs(s: State, t: Tid, n: State)
    requires t in s.pcs && n == Advance(s, t)
    ensures n.mem.log == s.mem.log + Logged(s, t)
    ensures n.mem.published == if s.pcs[t].Propagate? && Logged(s, t) != [] then s.pcs[t].off + 1 else s.mem.published
    ensures t in n.pcs && n.pcs == s.pcs[t := n.pcs[t]]
  {
    if Grows(s.pcs[t]) { GrowLog(s.mem, s.pcs[t]); GrowPublishes(s.mem, s.pcs[t]); }
  }

  lemma GrowPublishes(m: Memory, pc: Pc)
    ensures Grow(m, pc).1.published == m.published
  {}

  /** The call in progress stays the one that was made, until its effect is logged. */
  lemma AdvanceFlies(s: State, t: Tid, n: State)
    requires t in s.pcs && n == Advance(s, t) && t in n.pcs
    ensures InFlight(s.pcs[t]) == (if Logged(s, t) == [] then [] else [CallOf(Logged(s, t)[0])]) + InFlight(n.pcs[t])
  {}

  lemma NextEffect(log: seq<Event>, e: Event, t: Tid)
    ensures EffectsOf(log + [e], t) == EffectsOf(log, t) + if e.tid == t then [CallOf(e)] else []
  {
    assert (log + [e])[..|log|] == log;
  }

  lemma EffectsAdded(log: seq<Event>, es: seq<Event>, u: Tid, t: Tid)
    requires |es| <= 1 && forall e <- es :: e.tid == u
    ensures EffectsOf(log + es, t) == EffectsOf(log, t) + if es == [] || t != u then [] else [CallOf(es[0])]
  {
    if es == [] {
      assert log + es == log;
    } else {
      assert log + es == log + [es[0]];
      NextEffect(log, es[0], t);
    }
  }

  lemma Reassociate(a: seq<Call>, b: seq<Call>, c: seq<Call>)
    ensures a + (b + c) == (a + b) + c
  {}

  /** A thread moves and logs at most one event of its own. */
  lemma FlightMoves(calls: seq<Call>, log: seq<Event>, u: Tid, before: seq<Call>, after: seq<Call>, es: seq<Event>)
    requires |es| <= 1 && forall e <- es :: e.tid == u
    requires calls == EffectsOf(log, u) + before && before == (if es == [] then [] else [CallOf(es[0])]) + after
    ensures calls == EffectsOf(log + es, u) + after
  {
    var x := if es == [] then [] else [CallOf(es[0])];
    EffectsAdded(log, es, u, u);
    Reassociate(EffectsOf(log, u), x, after);
  }

  lemma OwnRun(labels: seq<Label>, s: State, u: Tid, n: State, es: seq<Event>)
    requires u in s.pcs && u in n.pcs && |es| <= 1 && (forall e <- es :: e.tid == u) && n.mem.log == s.mem.log + es
    requires InFlight(s.pcs[u]) == (if es == [] then [] else [CallOf(es[0])]) + InFlight(n.pcs[u])
    requires Effective(labels, s, u)
    ensures CallsOf(labels, u) == EffectsOf(n.mem.log, u) + InFlight(n.pcs[u])
  {
    FlightMoves(CallsOf(labels, u), s.mem.log, u, InFlight(s.pcs[u]), InFlight(n.pcs[u]), es);
  }

  lemma OthersRun(labels: seq<Label>, s: State, u: Tid, n: State, es: seq<Event>, t: Tid)
    requires u != t && |es| <= 1 && (forall e <- es :: e.tid == u) && n.mem.log == s.mem.log + es
    requires (t in s.pcs <==> t in n.pcs) && (t in s.pcs ==> n.pcs[t] == s.pcs[t])
    requires Effective(labels, s, t)
    ensures CallsOf(labels, t) == EffectsOf(n.mem.log, t) + FlightOf(n, t)
  {
    EffectsAdded(s.mem.log, es, u, t);
  }

  lemma LoggedIsOwn(s: State, t: Tid)
    requires t in s.pcs
    ensures |Logged(s, t)| <= 1 && forall e <- Logged(s, t) :: e.tid == t
  {}

  lemma RunKeepsEffective(labels: seq<Label>, s: State, u: Tid, n: State, t: Tid)
    requires u in s.pcs && n == Advance(s, u) && Effective(labels, s, t)
    ensures CallsOf(labels, t) == EffectsOf(n.mem.log, t) + FlightOf(n, t)
  {
    AdvanceLogs(s, u, n);
    LoggedIsOwn(s, u);
    if t == u {
      AdvanceFlies(s, u, n);
      OwnRun(labels, s, u, n, Logged(s, u));
    } else {
      OthersRun(labels, s, u, n, Logged(s, u), t);
    }
  }

  function FlightOf(s: State, t: Tid): seq<Call> { if t in s.pcs then InFlight(s.pcs[t]) else [] }

  lemma NextCall(labels: seq<Label>, l: Label, t: Tid)
    ensures CallsOf(labels + [l], t) == CallsOf(labels, t) + MadeBy(l, t)
  {
    assert (labels + [l])[..|labels|] == labels;
  }

  lemma StepEffective(labels: seq<Label>, s: State, l: Label, n: State, t: Tid)
    requires Step(s, l, n) && Effective(labels, s, t)
    ensures Effective(labels + [l], n, t)
  {
    NextCall(labels, l, t);
    if l.Run? {
      RunKeepsEffective(labels, s, l.t, n, t);
    } else {
      StartFlies(s, l, n, t);
      Reassociate(EffectsOf(s.mem.log, t), FlightOf(s, t), MadeBy(l, t));
    }
  }

  /** What is started is in progress. */
  lemma StartFlies(s: State, l: Label, n: State, t: Tid)
    requires Step(s, l, n) && !l.Run?
    ensures n.mem == s.mem && FlightOf(n, t) == FlightOf(s, t) + MadeBy(l, t)
  {}

  /** What a thread logs fits the handles given out so far. */
  ghost predicate Fits(e: Event, published: Handle) {
    match e
    case Allocated(_, h, _) => h == published
    case Wrote(_, h, _) => h < published
    case Read(_, _, _) => true
  }

  lemma LoggedFits(s: State, t: Tid)
    requires t in s.pcs && At(s.mem, t, s.pcs[t])
    ensures Logged(s, t) != [] ==> Fits(Logged(s, t)[0], s.mem.published)
    ensures Logged(s, t) != [] && Logged(s, t)[0].Allocated? ==> s.pcs[t].off == s.mem.published
    ensures Logged(s, t) != [] ==> (Logged(s, t)[0].Allocated? <==> s.pcs[t].Propagate?)
  {}

  lemma NextHistory(log: seq<Event>, e: Event)
    requires Ordered(log) && Fits(e, HEADER + Allocations(log))
    ensures Ordered(log + [e]) && Allocations(log + [e]) == Allocations(log) + if e.Allocated? then 1 else 0
  {
    assert (log + [e])[..|log|] == log;
  }

  lemma RunKeepsHistory(s: State, t: Tid, n: State)
    requires t in s.pcs && At(s.mem, t, s.pcs[t]) && n == Advance(s, t) && History(s)
    ensures History(n)
  {
    AdvanceLogs(s, t, n);
    LoggedFits(s, t);
    LoggedIsOwn(s, t);
    MoreHistory(s, n, Logged(s, t));
  }

  lemma MoreHistory(s: State, n: State, es: seq<Event>)
    requires History(s) && |es| <= 1 && n.mem.log == s.mem.log + es
    requires es != [] ==> Fits(es[0], s.mem.published)
    requires n.mem.published == if es != [] && es[0].Allocated? then s.mem.published + 1 else s.mem.published
    ensures History(n)
  {
    if es == [] {
      assert n.mem.log == s.mem.log;
    } else {
      assert n.mem.log == s.mem.log + [es[0]];
      NextHistory(s.mem.log, es[0]);
    }
  }

  lemma StepHistory(s: State, l: Label, n: State)
    requires Inv(s) && Step(s, l, n) && History(s)
    ensures History(n)
  {
    if l.Run? {
      assert At(s.mem, l.t, s.pcs[l.t]);
      RunKeepsHistory(s, l.t, n);
    } else {
      StartFlies(s, l, n, l.t);
    }
  }

  lemma {:induction false} RunHistory(states: seq<State>, labels: seq<Label>)
    requires IsRun(states, labels)
    ensures History(states[|labels|])
  {
    if labels != [] {
      var k := |labels| - 1;
      RunHistory(states[..k + 1], labels[..k]);
      RunInv(states[..k + 1], labels[..k]);
      StepHistory(states[k], labels[k], states[k + 1]);
    }
  }

  lemma {:induction false} RunEffective(states: seq<State>, labels: seq<Label>, i: nat, t: Tid)
    requires IsRun(states, labels) && i <= |labels|
    ensures Effective(labels[..i], states[i], t)
  {
    if i > 0 {
      RunEffective(states, labels, i - 1, t);
      assert labels[..i] == labels[..i - 1] + [labels[i - 1]];
      StepEffective(labels[..i - 1], states[i - 1], labels[i - 1], states[i], t);
    }
  }

  /** The value of the latest write to `h` among these calls. */
  function LastWrite(calls: seq<Call>, h: Handle): Option<Value> {
    if calls == [] then None
    else
      var c := calls[|calls| - 1];
      if c.Write? && c.h == h then Some(c.nv) else LastWrite(calls[..|calls| - 1], h)
  }

  lemma LastWriteNext(calls: seq<Call>, c: Call, h: Handle)
    ensures LastWrite(calls + [c], h) == if c.Write? && c.h == h then Some(c.nv) else LastWrite(calls, h)
  {
    assert (calls + [c])[..|calls|] == calls;
  }

  lemma EffectsUpTo(log: seq<Event>, t: Tid)
    requires log != []
    ensures var before, e := log[..|log| - 1], log[|log| - 1];
            EffectsOf(log, t) == if e.tid == t then EffectsOf(before, t) + [CallOf(e)] else EffectsOf(before, t)
  {}

  lemma {:induction false} NeverWritten(log: seq<Event>, t: Tid, h: Handle)
    requires Ordered(log) && h >= HEADER + Allocations(log)
    ensures LastWrite(EffectsOf(log, t), h) == None
  {
    if log != [] {
      var before, e := log[..|log| - 1], log[|log| - 1];
      NeverWritten(before, t, h);
      EffectsUpTo(log, t);
      LastWriteNext(EffectsOf(before, t), CallOf(e), h);
    }
  }

  /** A thread's private value is what it wrote last, or else the default. */
  lemma {:induction false} PrivateIsLastWrite(log: seq<Event>, t: Tid, h: Handle)
    requires Ordered(log)
    ensures Private(log, t, h) ==
            match LastWrite(EffectsOf(log, t), h) { case Some(v) => v case None => Default(log, h) }
  {
    if log != [] {
      var before, e := log[..|log| - 1], log[|log| - 1];
      PrivateIsLastWrite(before, t, h);
      EffectsUpTo(log, t);
      LastWriteNext(EffectsOf(before, t), CallOf(e), h);
      if e.Allocated? && e.h == h { NeverWritten(before, t, h); }
    }
  }

  /** What a thread's calls do: each takes effect exactly once, in order and with its own
      arguments, and the only one that has not yet is the one in progress. */
  lemma CallsTakeEffect(states: seq<State>, labels: seq<Label>, t: Tid)
    requires IsRun(states, labels)
    ensures Effective(labels, states[|labels|], t)
    ensures t in states[|labels|].pcs && states[|labels|].pcs[t] == Idle ==>
            CallsOf(labels, t) == EffectsOf(states[|labels|].mem.log, t)
  {
    RunEffective(states, labels, |labels|, t);
    assert labels[..|labels|] == labels;
    if t in states[|labels|].pcs && states[|labels|].pcs[t] == Idle { NothingInFlight(states[|labels|], t); }
  }

  lemma NothingInFlight(s: State, t: Tid)
    requires t in s.pcs ==> s.pcs[t] == Idle
    ensures EffectsOf(s.mem.log, t) + FlightOf(s, t) == EffectsOf(s.mem.log, t)
  {}

  /** What a fetch should return to a thread that has made these calls. */
  function Due(calls: seq<Call>, log: seq<Event>, h: Handle): Value {
    match LastWrite(calls, h)
    case Some(v) => v
    case None => Default(log, h)
  }

  lemma FetchIsDue(m: Memory, t: Tid, pc: Pc, calls: seq<Call>)
    requires pc.ReadFetch? && FreeAt(m, t, pc) && Ordered(m.log) && calls == EffectsOf(m.log, t) + [Fetch(pc.h)]
    ensures Get(m, pc.p, pc.h) == Due(calls, m.log, pc.h)
  {
    PrivateIsLastWrite(m.log, t, pc.h);
    LastWriteNext(EffectsOf(m.log, t), Fetch(pc.h), pc.h);
  }

  /** A fetch returns the value that the same thread gave to its latest write of that variable, or
      the value with which the variable was allocated if it made none. */
  lemma FetchReturnsLastWrite(states: seq<State>, labels: seq<Label>, t: Tid)
    requires IsRun(states, labels) && t in states[|labels|].pcs && states[|labels|].pcs[t].ReadFetch?
    ensures var s := states[|labels|]; var h := s.pcs[t].h; var calls := CallsOf(labels, t);
            calls != [] && calls[|calls| - 1] == Fetch(h) &&
            Advance(s, t).mem.log == s.mem.log + [Read(t, h, Due(calls, s.mem.log, h))]
  {
    var s := states[|labels|];
    RunEffective(states, labels, |labels|, t);
    assert labels[..|labels|] == labels;
    RunHistory(states, labels);
    RunInv(states, labels);
    FetchAdvances(s, t, CallsOf(labels, t));
  }

  lemma FetchAdvances(s: State, t: Tid, calls: seq<Call>)
    requires t in s.pcs && s.pcs[t].ReadFetch? && At(s.mem, t, s.pcs[t]) && Ordered(s.mem.log)
    requires calls == EffectsOf(s.mem.log, t) + FlightOf(s, t)
    ensures calls != [] && calls[|calls| - 1] == Fetch(s.pcs[t].h)
    ensures Advance(s, t).mem.log == s.mem.log + [Read(t, s.pcs[t].h, Due(calls, s.mem.log, s.pcs[t].h))]
  {
    FetchIsDue(s.mem, t, s.pcs[t], calls);
  }

  /** No store overlaps a replacement of the vectors, a growth ends only when no increment is
      outstanding, and the decrement of a blocked writer always finds the grower's mark. */
  lemma GrowthExcludesWriters(s: State, t: Tid)
    requires Inv(s) && t in s.pcs
    ensures Growing(s) ==> !Writing(s.pcs[t])
    ensures Growing(s) && Holder(s).EndGrow? && AdvanceLeaves(s, s.lock.value) ==> !Counted(s.pcs[t])
    ensures s.pcs[t].BlockedDec? ==> s.counter - 1 < 0 && Advance(s, t).pcs[t].BlockedWait?
  {
    CountedBound(s);
    if |CountedSet(s)| == 0 { NobodyCounted(s); }
  }

  /** Thread `t` can do something other than spin or wait. */
  predicate AdvanceLeaves(s: State, t: Tid)
    requires t in s.pcs
  {
    Advance(s, t) != s
  }

  /** As long as some thread is inside a primitive, some thread inside one can move on:
      neither spin loop and no wait for the lock can block everybody. */
  lemma SomebodyMoves(s: State, t: Tid) returns (u: Tid)
    requires Inv(s) && t in s.pcs && s.pcs[t] != Idle
    ensures u in s.pcs && s.pcs[u] != Idle && AdvanceLeaves(s, u)
  {
    u := t;
    if s.lock.Some? {
      u := s.lock.value;
      if (s.pcs[u].AllocSpin? && s.counter != 0) || (s.pcs[u].EndGrow? && s.counter != TLV_GROW) {
        u :| u in CountedSet(s);
      }
    }
    assert At(s.mem, u, s.pcs[u]);
    Unblocked(s, u);
  }

  lemma Unblocked(s: State, u: Tid)
    requires u in s.pcs && s.pcs[u] != Idle && At(s.mem, u, s.pcs[u])
    requires s.lock.Some? ==> !s.pcs[u].AllocLock? && !s.pcs[u].BlockedWait? && !s.pcs[u].StartLock?
    requires (s.pcs[u].AllocSpin? ==> s.counter == 0) && (s.pcs[u].EndGrow? ==> s.counter == TLV_GROW)
    ensures AdvanceLeaves(s, u)
  {
    var pc := s.pcs[u];
    if InAllocation(pc) { assert AllocationStep(s, u).pcs[u] != pc; }
    else if Grows(pc) { assert GrowthStep(s, u).pcs[u] != pc; }
    else if InWrite(pc) { assert WriterStep(s, u).pcs[u] != pc; }
  }
}
