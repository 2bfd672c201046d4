/**
 The lock-free finalization queue of boehm-collector.c: a linked list whose head is moved
 by compare-and-swap.  Every load and store of a shared word is one step.  The collector
 hands each cons cell to `mps_finalization_proc` at most once.
 */
module FinalizationQueue {
  import opened Options

  type Tid = nat
  type Node = nat
  type Obj = int

  datatype Cons = Cons(first: Obj, rest: Option<Node>)

  datatype Pc =
    | Idle
    | SetFirst(cons: Node, obj: Obj)                   // cons->first = obj
    | SetRest(cons: Node)                              // cons->rest = queue
    | PushSwap(cons: Node)                             // CAS(queue, cons->rest -> cons)
    | LoadQueue                                        // queue = mps_finalization_queue
    | LoadRest(q: Node)                                // queue->rest
    | PopSwap(q: Node, rest: Option<Node>)             // CAS(queue, queue -> rest)
    | LoadFirst(q: Node, due: Obj)                     // return queue->first

  /** The order in which the operations take effect, each with its thread; a `Pop` of nothing found
      the queue empty. */
  datatype Event = Push(tid: Tid, obj: Obj) | Pop(tid: Tid, taken: Option<Obj>)

  /** A finalization call's thread and object. */
  datatype Issue = Issue(tid: Tid, obj: Obj)

  /** A pop that has returned: its thread, the cell it took off the queue, what was in it then, and
      what the call returned. */
  datatype Answer = Answer(tid: Tid, cell: Node, taken: Obj, returned: Obj)

  /** `linked` lists the cells reachable from the queue, first the head; `issued`, `popped`,
      `log` and `answers` record what has happened.  None of these is in the program. */
  datatype State = State(
    queue: Option<Node>,
    cells: map<Node, Cons>,
    pcs: map<Tid, Pc>,
    linked: seq<Node>,
    issued: map<Node, Issue>,   // the call that each cell was handed to
    popped: set<Node>,
    log: seq<Event>,
    answers: seq<Answer>)

  function CellOf(s: State, n: Node): Cons { if n in s.cells then s.cells[n] else Cons(0, None) }

  function Goto(s: State, t: Tid, pc: Pc): State { s.(pcs := s.pcs[t := pc]) }

  function Advance(s: State, t: Tid): State
    requires t in s.pcs
  {
    match s.pcs[t]
    case Idle => s
    case SetFirst(c, obj) => Goto(s.(cells := s.cells[c := CellOf(s, c).(first := obj)]), t, SetRest(c))
    case SetRest(c) => Goto(s.(cells := s.cells[c := CellOf(s, c).(rest := s.queue)]), t, PushSwap(c))
    case PushSwap(c) =>
      if s.queue == CellOf(s, c).rest then
        Goto(s.(queue := Some(c), linked := [c] + s.linked, log := s.log + [Push(t, CellOf(s, c).first)]), t, Idle)
      else Goto(s, t, SetRest(c))
    case LoadQueue =>
      if s.queue.Some? then Goto(s, t, LoadRest(s.queue.value)) else Goto(s.(log := s.log + [Pop(t, None)]), t, Idle)
    case LoadRest(q) => Goto(s, t, PopSwap(q, CellOf(s, q).rest))
    case PopSwap(q, rest) =>
      if s.queue == Some(q) then
        Goto(s.(queue := rest, linked := if s.linked == [] then [] else s.linked[1..], popped := s.popped + {q},
                log := s.log + [Pop(t, Some(CellOf(s, q).first))]), t, LoadFirst(q, CellOf(s, q).first))
      else Goto(s, t, LoadQueue)
    case LoadFirst(q, due) => Goto(s.(answers := s.answers + [Answer(t, q, due, CellOf(s, q).first)]), t, Idle)
  }

  datatype Label = Finalize(t: Tid, cons: Node, obj: Obj) | Take(t: Tid) | Run(t: Tid)

  predicate Step(s: State, l: Label, n: State) {
    match l
    case Finalize(t, c, obj) =>
      (t in s.pcs ==> s.pcs[t] == Idle) && c !in s.issued &&
      n == Goto(s.(issued := s.issued[c := Issue(t, obj)]), t, SetFirst(c, obj))
    case Take(t) => (t in s.pcs ==> s.pcs[t] == Idle) && n == Goto(s, t, LoadQueue)
    case Run(t) => t in s.pcs && n == Advance(s, t)
  }

  const EMPTY: State := State(None, map[], map[], [], map[], {}, [], [])

  // ---------------------------------------------------------------- a sequential stack

  /** Playing the events on an ordinary stack; `None` if some pop does not get its top. */
  function Replay(log: seq<Event>): Option<seq<Obj>> {
    if log == [] then Some([])
    else
      var before := Replay(log[..|log| - 1]);
      if before.None? then None
      else
        match log[|log| - 1]
        case Push(_, obj) => Some([obj] + before.value)
        case Pop(_, None) => if before.value == [] then before else None
        case Pop(_, Some(obj)) =>
          if before.value != [] && before.value[0] == obj then Some(before.value[1..]) else None
  }

  function Objects(s: State): seq<Obj> {
    seq(|s.linked|, i requires 0 <= i < |s.linked| => CellOf(s, s.linked[i]).first)
  }

  /** The objects that the events push, and those that they pop. */
  function Pushed(log: seq<Event>): multiset<Obj> {
    if log == [] then multiset{}
    else
      var e := log[|log| - 1];
      Pushed(log[..|log| - 1]) + if e.Push? then multiset{e.obj} else multiset{}
  }

  function Popped(log: seq<Event>): multiset<Obj> {
    if log == [] then multiset{}
    else
      var e := log[|log| - 1];
      Popped(log[..|log| - 1]) + if e.Pop? && e.taken.Some? then multiset{e.taken.value} else multiset{}
  }

  lemma TopTaken(stack: seq<Obj>)
    requires stack != []
    ensures multiset(stack) == multiset{stack[0]} + multiset(stack[1..])
  {
    assert stack == [stack[0]] + stack[1..];
  }

  /** A stack conserves what is pushed on it. */
  lemma {:induction false} StackConserves(log: seq<Event>)
    requires Replay(log).Some?
    ensures Pushed(log) == Popped(log) + multiset(Replay(log).value)
  {
    if log != [] {
      var before := Replay(log[..|log| - 1]);
      StackConserves(log[..|log| - 1]);
      match log[|log| - 1]
      case Push(_, obj) => TopTaken([obj] + before.value);
      case Pop(_, None) =>
      case Pop(_, Some(obj)) => TopTaken(before.value);
    }
  }

  // ---------------------------------------------------------------- invariant

  predicate Private(pc: Pc) { pc.SetFirst? || pc.SetRest? || pc.PushSwap? }

  /** The object that a cell was handed out with. */
  function ObjectOf(s: State, n: Node): Obj { if n in s.issued then s.issued[n].obj else 0 }

  /** The cell holds the object it was handed out with. */
  predicate Holds(s: State, n: Node) { CellOf(s, n).first == ObjectOf(s, n) }

  ghost predicate LinkedAt(s: State, i: nat)
    requires i < |s.linked|
  {
    s.linked[i] in s.issued && s.linked[i] !in s.popped && Holds(s, s.linked[i]) &&
    CellOf(s, s.linked[i]).rest == if i + 1 < |s.linked| then Some(s.linked[i + 1]) else None
  }

  ghost predicate Chained(s: State) {
    (s.queue == if s.linked == [] then None else Some(s.linked[0])) &&
    (forall i | 0 <= i < |s.linked| :: LinkedAt(s, i)) &&
    (forall i, j | 0 <= i < j < |s.linked| :: s.linked[i] != s.linked[j])
  }

  /** A cell that is being pushed is its pusher's own, and gets the object it was handed out with. */
  ghost predicate Owned(s: State) {
    s.popped <= s.issued.Keys && (forall m <- s.popped :: Holds(s, m)) &&
    forall t <- s.pcs | Private(s.pcs[t]) ::
      s.pcs[t].cons in s.issued && s.issued[s.pcs[t].cons].tid == t &&
      s.pcs[t].cons !in s.popped && s.pcs[t].cons !in s.linked && Fills(s, s.pcs[t])
  }

  predicate Fills(s: State, pc: Pc)
    requires Private(pc)
  {
    if pc.SetFirst? then pc.obj == ObjectOf(s, pc.cons) else Holds(s, pc.cons)
  }

  ghost predicate PoppingAt(s: State, pc: Pc) {
    match pc
    case LoadRest(q) => q in s.linked || q in s.popped
    case PopSwap(q, rest) => (q in s.linked || q in s.popped) && CellOf(s, q).rest == rest
    case LoadFirst(q, due) => q in s.popped && CellOf(s, q).first == due
    case _ => true
  }

  ghost predicate Popping(s: State) { forall t <- s.pcs :: PoppingAt(s, s.pcs[t]) }

  /** Every cell is on its way in, linked, or popped; the events make a sequential history that
      ends with the linked objects; each pop returned what it took, the cell's own object. */
  ghost predicate Accounted(s: State) {
    (forall n <- s.issued :: n in s.linked || n in s.popped || InHand(s, n)) &&
    Replay(s.log) == Some(Objects(s)) &&
    forall r <- s.answers :: r.cell in s.popped && r.returned == r.taken == ObjectOf(s, r.cell)
  }

  ghost predicate InHand(s: State, n: Node)
    requires n in s.issued
  {
    var t := s.issued[n].tid;
    t in s.pcs && Private(s.pcs[t]) && s.pcs[t].cons == n
  }

  ghost predicate Inv(s: State) { Chained(s) && Owned(s) && Popping(s) && Accounted(s) }

  lemma ReplayNext(log: seq<Event>, e: Event)
    ensures (log + [e])[..|log|] == log && (log + [e])[|log|] == e
  {}

  /** A step that moves no cell and changes at most one that its thread has in hand. */
  lemma StillKeeps(s: State, t: Tid, pc: Pc, c: Node, n: State)
    requires Inv(s) && n == s.(pcs := s.pcs[t := pc], cells := n.cells)
    requires forall m | m != c || !(t in s.pcs && Private(s.pcs[t]) && s.pcs[t].cons == c) ::
             CellOf(n, m) == CellOf(s, m)
    requires if t in s.pcs && Private(s.pcs[t]) then Private(pc) && pc.cons == s.pcs[t].cons else !Private(pc)
    requires PoppingAt(n, pc) && (Private(pc) ==> Fills(n, pc))
    ensures Inv(n)
  {
    SameLinked(s, n);
    forall u <- n.pcs ensures PoppingAt(n, n.pcs[u]) { if u != t { assert PoppingAt(s, s.pcs[u]); } }
  }

  lemma LinkedCells(s: State)
    requires Chained(s)
    ensures forall m <- s.linked :: m in s.issued && m !in s.popped
  {
    forall m <- s.linked ensures m in s.issued && m !in s.popped {
      var i :| 0 <= i < |s.linked| && s.linked[i] == m;
      assert LinkedAt(s, i);
    }
  }

  lemma SameLinked(s: State, n: State)
    requires Chained(s) && n.queue == s.queue && n.linked == s.linked && n.popped == s.popped
    requires forall m | m in s.linked :: CellOf(n, m) == CellOf(s, m)
    requires forall m | m in s.issued :: m in n.issued && n.issued[m] == s.issued[m]
    ensures Chained(n) && Objects(n) == Objects(s)
  {
    forall i | 0 <= i < |n.linked| ensures LinkedAt(n, i) && CellOf(n, n.linked[i]) == CellOf(s, s.linked[i]) {
      assert LinkedAt(s, i) && s.linked[i] in s.linked;
    }
  }

  lemma SwapIn(s: State, t: Tid, n: State)
    requires Inv(s) && t in s.pcs && s.pcs[t].PushSwap? && s.queue == CellOf(s, s.pcs[t].cons).rest &&
             n == Advance(s, t)
    ensures Inv(n)
  {
    LinkIn(s, t, s.pcs[t].cons, n);
    forall m <- n.issued ensures m in n.linked || m in n.popped || InHand(n, m) {
      assert m in s.linked || m in s.popped || InHand(s, m);
    }
    forall u <- n.pcs ensures PoppingAt(n, n.pcs[u]) { if u != t { assert PoppingAt(s, s.pcs[u]); } }
  }

  lemma LinkIn(s: State, t: Tid, c: Node, n: State)
    requires Chained(s) && c in s.issued && c !in s.linked && c !in s.popped && s.queue == CellOf(s, c).rest &&
             Holds(s, c)
    requires n.queue == Some(c) && n.linked == [c] + s.linked && n.cells == s.cells && n.popped == s.popped &&
             n.issued == s.issued
    requires n.log == s.log + [Push(t, CellOf(s, c).first)] && Replay(s.log) == Some(Objects(s))
    ensures Chained(n) && Replay(n.log) == Some(Objects(n))
    ensures forall m :: m in n.linked <==> m == c || m in s.linked
  {
    ReplayNext(s.log, Push(t, CellOf(s, c).first));
    assert Objects(n) == [CellOf(s, c).first] + Objects(s);
    forall i | 0 <= i < |n.linked| ensures LinkedAt(n, i) { if i > 0 { assert LinkedAt(s, i - 1); } }
  }

  lemma SwapOut(s: State, t: Tid, n: State)
    requires Inv(s) && t in s.pcs && s.pcs[t].PopSwap? && s.queue == Some(s.pcs[t].q) && n == Advance(s, t)
    ensures Inv(n)
  {
    assert PoppingAt(s, s.pcs[t]);
    LinkOut(s, t, s.pcs[t].q, n);
    forall m <- n.issued ensures m in n.linked || m in n.popped || InHand(n, m) {
      assert m in s.linked || m in s.popped || InHand(s, m);
    }
    forall u <- n.pcs ensures PoppingAt(n, n.pcs[u]) { if u != t { assert PoppingAt(s, s.pcs[u]); } }
  }

  lemma LinkOut(s: State, t: Tid, q: Node, n: State)
    requires Chained(s) && s.queue == Some(q) && n.queue == CellOf(s, q).rest && n.linked == s.linked[1..]
    requires n.cells == s.cells && n.popped == s.popped + {q} && n.issued == s.issued
    requires n.log == s.log + [Pop(t, Some(CellOf(s, q).first))] && Replay(s.log) == Some(Objects(s))
    ensures Chained(n) && Replay(n.log) == Some(Objects(n)) && q in n.issued && Holds(n, q)
    ensures forall m :: m in s.linked <==> m == q || m in n.linked
  {
    ReplayNext(s.log, Pop(t, Some(CellOf(s, q).first)));
    assert LinkedAt(s, 0) && s.linked == [q] + n.linked;
    assert Objects(n) == Objects(s)[1..];
    forall i | 0 <= i < |n.linked| ensures LinkedAt(n, i) { assert LinkedAt(s, i + 1); }
  }

  lemma RecordKeeps(s: State, t: Tid, n: State)
    requires Inv(s) && t in s.pcs && n == Advance(s, t)
    requires s.pcs[t].LoadFirst? || (s.pcs[t].LoadQueue? && s.queue.None?)
    ensures Inv(n)
  {
    assert PoppingAt(s, s.pcs[t]);
    if s.pcs[t].LoadQueue? { ReplayNext(s.log, Pop(t, None)); }
    SameLinked(s, n);
    forall u <- n.pcs ensures PoppingAt(n, n.pcs[u]) { if u != t { assert PoppingAt(s, s.pcs[u]); } }
  }

  lemma RunKeeps(s: State, t: Tid, n: State)
    requires Inv(s) && t in s.pcs && n == Advance(s, t)
    ensures Inv(n)
  {
    var pc := s.pcs[t];
    assert PoppingAt(s, pc);
    if pc.PushSwap? && s.queue == CellOf(s, pc.cons).rest { SwapIn(s, t, n); }
    else if pc.PopSwap? && s.queue == Some(pc.q) { SwapOut(s, t, n); }
    else if pc.LoadFirst? || (pc.LoadQueue? && s.queue.None?) { RecordKeeps(s, t, n); }
    else if pc != Idle { StillKeeps(s, t, n.pcs[t], if Private(pc) then pc.cons else 0, n); }
  }

  lemma FinalizeKeeps(s: State, t: Tid, c: Node, obj: Obj, n: State)
    requires Inv(s) && Step(s, Finalize(t, c, obj), n)
    ensures Inv(n)
  {
    LinkedCells(s);
    SameLinked(s, n);
    forall u <- n.pcs ensures PoppingAt(n, n.pcs[u]) { if u != t { assert PoppingAt(s, s.pcs[u]); } }
    forall m <- n.issued ensures m in n.linked || m in n.popped || InHand(n, m) {
      assert m != c ==> m in s.linked || m in s.popped || InHand(s, m);
    }
  }

  lemma StepKeeps(s: State, l: Label, n: State)
    requires Inv(s) && Step(s, l, n)
    ensures Inv(n)
  {
    match l
    case Run(t) => RunKeeps(s, t, n);
    case Finalize(t, c, obj) => FinalizeKeeps(s, t, c, obj, n);
    case Take(t) => StillKeeps(s, t, LoadQueue, 0, n);
  }

  // ---------------------------------------------------------------- every run

  ghost predicate IsRun(states: seq<State>, labels: seq<Label>) {
    |states| == |labels| + 1 && states[0] == EMPTY &&
    forall i | 0 <= i < |labels| :: Step(states[i], labels[i], states[i + 1])
  }

  lemma {:induction false} RunInv(states: seq<State>, labels: seq<Label>)
    requires IsRun(states, labels)
    ensures Inv(states[|labels|])
  {
    if labels != [] {
      var k := |labels| - 1;
      RunInv(states[..k + 1], labels[..k]);
      StepKeeps(states[k], labels[k], states[k + 1]);
    } else {
      assert Objects(EMPTY) == [];
    }
  }

  // ---------------------------------------------------------------- what goes in comes out

  /** The objects of the finalization calls. */
  function Finalized(labels: seq<Label>): multiset<Obj> {
    if labels == [] then multiset{}
    else
      var l := labels[|labels| - 1];
      Finalized(labels[..|labels| - 1]) + if l.Finalize? then multiset{l.obj} else multiset{}
  }

  /** What the pops that are over returned. */
  function Returned(answers: seq<Answer>): multiset<Obj> {
    if answers == [] then multiset{}
    else Returned(answers[..|answers| - 1]) + multiset{answers[|answers| - 1].returned}
  }

  /** The threads that have `obj` in hand on its way in, and on its way out. */
  function Incoming(s: State, obj: Obj): set<Tid> {
    set t | t in s.pcs && Private(s.pcs[t]) && ObjectOf(s, s.pcs[t].cons) == obj
  }

  function Outgoing(s: State, obj: Obj): set<Tid> {
    set t | t in s.pcs && s.pcs[t].LoadFirst? && s.pcs[t].due == obj
  }

  ghost predicate Conserved(labels: seq<Label>, s: State) {
    forall obj ::
      Finalized(labels)[obj] == Pushed(s.log)[obj] + |Incoming(s, obj)| &&
      Popped(s.log)[obj] == Returned(s.answers)[obj] + |Outgoing(s, obj)|
  }

  lemma OneMoves(a: set<Tid>, b: set<Tid>, t: Tid)
    requires a - {t} == b - {t}
    ensures |b| == |a| + (if t in b then 1 else 0) - (if t in a then 1 else 0)
  {
    var c := a - {t};
    assert a == if t in a then c + {t} else c;
    assert b == if t in b then c + {t} else c;
  }

  predicate Brings(s: State, pc: Pc, obj: Obj) { Private(pc) && ObjectOf(s, pc.cons) == obj }

  predicate Takes(pc: Pc, obj: Obj) { pc.LoadFirst? && pc.due == obj }

  /** One thread moves; which objects the others have in hand does not change. */
  lemma HandsMove(s: State, t: Tid, n: State, pc: Pc, obj: Obj)
    requires n.pcs == s.pcs[t := pc]
    requires forall u <- s.pcs | u != t && Private(s.pcs[u]) :: ObjectOf(n, s.pcs[u].cons) == ObjectOf(s, s.pcs[u].cons)
    ensures |Incoming(n, obj)| == |Incoming(s, obj)| + (if Brings(n, pc, obj) then 1 else 0)
                                                     - (if t in s.pcs && Brings(s, s.pcs[t], obj) then 1 else 0)
    ensures |Outgoing(n, obj)| == |Outgoing(s, obj)| + (if Takes(pc, obj) then 1 else 0)
                                                     - (if t in s.pcs && Takes(s.pcs[t], obj) then 1 else 0)
  {
    assert Incoming(s, obj) - {t} == Incoming(n, obj) - {t};
    assert Outgoing(s, obj) - {t} == Outgoing(n, obj) - {t};
    OneMoves(Incoming(s, obj), Incoming(n, obj), t);
    OneMoves(Outgoing(s, obj), Outgoing(n, obj), t);
  }

  lemma LastEvent(log: seq<Event>, e: Event)
    ensures Pushed(log + [e]) == Pushed(log) + if e.Push? then multiset{e.obj} else multiset{}
    ensures Popped(log + [e]) == Popped(log) + if e.Pop? && e.taken.Some? then multiset{e.taken.value} else multiset{}
  {
    ReplayNext(log, e);
  }

  /** What a thread relies on when it moves. */
  ghost predicate Ready(s: State, t: Tid) {
    t in s.pcs && PoppingAt(s, s.pcs[t]) && (Private(s.pcs[t]) ==> Fills(s, s.pcs[t]))
  }

  ghost predicate Balances(s: State, n: State, obj: Obj) {
    Pushed(n.log)[obj] + |Incoming(n, obj)| == Pushed(s.log)[obj] + |Incoming(s, obj)| &&
    Popped(n.log)[obj] + Returned(s.answers)[obj] + |Outgoing(s, obj)|
      == Popped(s.log)[obj] + Returned(n.answers)[obj] + |Outgoing(n, obj)|
  }

  lemma PlainMove(s: State, t: Tid, pc: Pc, n: State, obj: Obj)
    requires t in s.pcs && n.pcs == s.pcs[t := pc] && n.issued == s.issued && n.log == s.log && n.answers == s.answers
    requires Private(pc) == Private(s.pcs[t]) && (Private(pc) ==> pc.cons == s.pcs[t].cons)
    requires !pc.LoadFirst? && !s.pcs[t].LoadFirst?
    ensures Balances(s, n, obj)
  {
    HandsMove(s, t, n, pc, obj);
  }

  lemma EventMove(s: State, t: Tid, pc: Pc, e: Event, n: State, obj: Obj)
    requires t in s.pcs && n.pcs == s.pcs[t := pc] && n.issued == s.issued && n.log == s.log + [e] &&
             n.answers == s.answers
    requires e.Push? <==> Private(s.pcs[t])
    requires e.Push? ==> ObjectOf(s, s.pcs[t].cons) == e.obj
    requires (e.Pop? && e.taken.Some?) <==> pc.LoadFirst?
    requires pc.LoadFirst? ==> pc.due == e.taken.value
    requires !Private(pc) && !s.pcs[t].LoadFirst?
    ensures Balances(s, n, obj)
  {
    HandsMove(s, t, n, pc, obj);
    LastEvent(s.log, e);
  }

  lemma AnswerMove(s: State, t: Tid, a: Answer, n: State, obj: Obj)
    requires t in s.pcs && n.pcs == s.pcs[t := Idle] && n.issued == s.issued && n.log == s.log &&
             n.answers == s.answers + [a]
    requires s.pcs[t].LoadFirst? && s.pcs[t].due == a.returned
    ensures Balances(s, n, obj)
  {
    HandsMove(s, t, n, Idle, obj);
    assert n.answers[..|s.answers|] == s.answers;
  }

  lemma RunBalances(s: State, t: Tid, n: State, obj: Obj)
    requires Ready(s, t) && n == Advance(s, t)
    ensures Balances(s, n, obj)
  {
    var pc := s.pcs[t];
    if pc.PushSwap? && s.queue == CellOf(s, pc.cons).rest {
      EventMove(s, t, Idle, Push(t, CellOf(s, pc.cons).first), n, obj);
    } else if pc.LoadQueue? && s.queue.None? {
      EventMove(s, t, Idle, Pop(t, None), n, obj);
    } else if pc.PopSwap? && s.queue == Some(pc.q) {
      EventMove(s, t, n.pcs[t], Pop(t, Some(CellOf(s, pc.q).first)), n, obj);
    } else if pc.LoadFirst? {
      AnswerMove(s, t, Answer(t, pc.q, pc.due, CellOf(s, pc.q).first), n, obj);
    } else if pc != Idle {
      PlainMove(s, t, n.pcs[t], n, obj);
    }
  }

  lemma RunConserves(labels: seq<Label>, s: State, t: Tid, n: State)
    requires Conserved(labels, s) && Ready(s, t) && n == Advance(s, t)
    ensures Conserved(labels + [Run(t)], n)
  {
    assert (labels + [Run(t)])[..|labels|] == labels;
    forall obj
      ensures Finalized(labels)[obj] == Pushed(n.log)[obj] + |Incoming(n, obj)|
      ensures Popped(n.log)[obj] == Returned(n.answers)[obj] + |Outgoing(n, obj)|
    {
      RunBalances(s, t, n, obj);
    }
  }

  lemma CallMoves(s: State, l: Label, n: State, obj: Obj)
    requires Owned(s) && Step(s, l, n) && !l.Run?
    ensures |Incoming(n, obj)| == |Incoming(s, obj)| + if l.Finalize? && l.obj == obj then 1 else 0
    ensures |Outgoing(n, obj)| == |Outgoing(s, obj)| && n.log == s.log && n.answers == s.answers
  {
    HandsMove(s, l.t, n, n.pcs[l.t], obj);
  }

  lemma CallConserves(labels: seq<Label>, s: State, l: Label, n: State)
    requires Owned(s) && Conserved(labels, s) && Step(s, l, n) && !l.Run?
    ensures Conserved(labels + [l], n)
  {
    assert (labels + [l])[..|labels|] == labels;
    forall obj
      ensures Finalized(labels + [l])[obj] == Pushed(n.log)[obj] + |Incoming(n, obj)|
      ensures Popped(n.log)[obj] == Returned(n.answers)[obj] + |Outgoing(n, obj)|
    {
      CallMoves(s, l, n, obj);
    }
  }

  lemma {:induction false} RunConserved(states: seq<State>, labels: seq<Label>)
    requires IsRun(states, labels)
    ensures Conserved(labels, states[|labels|])
  {
    if labels == [] {
      assert forall obj :: Incoming(EMPTY, obj) == {} && Outgoing(EMPTY, obj) == {};
    } else {
      var k := |labels| - 1;
      RunConserved(states[..k + 1], labels[..k]);
      RunInv(states[..k + 1], labels[..k]);
      assert labels == labels[..k] + [labels[k]];
      assert Step(states[k], labels[k], states[k + 1]);
      if labels[k].Run? { RunConserves(labels[..k], states[k], labels[k].t, states[k + 1]); }
      else { CallConserves(labels[..k], states[k], labels[k], states[k + 1]); }
    }
  }

  // ---------------------------------------------------------------- whose events they are

  datatype Op = Finalizing(obj: Obj) | Taking

  function MadeBy(l: Label, t: Tid): seq<Op> {
    if l.t != t then []
    else
      match l
      case Finalize(_, _, obj) => [Finalizing(obj)]
      case Take(_) => [Taking]
      case Run(_) => []
  }

  /** The calls that a thread has made. */
  function CallsOf(labels: seq<Label>, t: Tid): seq<Op> {
    if labels == [] then [] else CallsOf(labels[..|labels| - 1], t) + MadeBy(labels[|labels| - 1], t)
  }

  function OpOf(e: Event): Op {
    match e
    case Push(_, obj) => Finalizing(obj)
    case Pop(_, _) => Taking
  }

  /** The calls that the events of a thread are the effects of. */
  function EffectsOf(log: seq<Event>, t: Tid): seq<Op> {
    if log == [] then []
    else
      var e := log[|log| - 1];
      EffectsOf(log[..|log| - 1], t) + if e.tid == t then [OpOf(e)] else []
  }

  /** What a thread took off the queue, and what its calls have returned of that. */
  function TakenBy(log: seq<Event>, t: Tid): seq<Obj> {
    if log == [] then []
    else
      var e := log[|log| - 1];
      TakenBy(log[..|log| - 1], t) + if e.tid == t && e.Pop? && e.taken.Some? then [e.taken.value] else []
  }

  function ReturnedTo(answers: seq<Answer>, t: Tid): seq<Obj> {
    if answers == [] then []
    else
      var a := answers[|answers| - 1];
      ReturnedTo(answers[..|answers| - 1], t) + if a.tid == t then [a.returned] else []
  }

  /** The call in progress that has not had its effect yet. */
  function FlightOf(s: State, t: Tid): seq<Op> {
    if t !in s.pcs then []
    else if Private(s.pcs[t]) then [Finalizing(ObjectOf(s, s.pcs[t].cons))]
    else if s.pcs[t].LoadQueue? || s.pcs[t].LoadRest? || s.pcs[t].PopSwap? then [Taking]
    else []
  }

  /** The object that a call has taken and not returned yet. */
  function HandOf(s: State, t: Tid): seq<Obj> {
    if t in s.pcs && s.pcs[t].LoadFirst? then [s.pcs[t].due] else []
  }

  ghost predicate Effective(labels: seq<Label>, s: State, t: Tid) {
    CallsOf(labels, t) == EffectsOf(s.log, t) + FlightOf(s, t) &&
    TakenBy(s.log, t) == ReturnedTo(s.answers, t) + HandOf(s, t)
  }

  /** What a step of `t` logs and answers. */
  function LoggedBy(s: State, t: Tid): seq<Event>
    requires t in s.pcs
  {
    match s.pcs[t]
    case PushSwap(c) => if s.queue == CellOf(s, c).rest then [Push(t, CellOf(s, c).first)] else []
    case LoadQueue => if s.queue.None? then [Pop(t, None)] else []
    case PopSwap(q, _) => if s.queue == Some(q) then [Pop(t, Some(CellOf(s, q).first))] else []
    case _ => []
  }

  function AnsweredBy(s: State, t: Tid): seq<Answer>
    requires t in s.pcs
  {
    match s.pcs[t]
    case LoadFirst(q, due) => [Answer(t, q, due, CellOf(s, q).first)]
    case _ => []
  }

  lemma AdvanceRecords(s: State, t: Tid, n: State)
    requires t in s.pcs && n == Advance(s, t)
    ensures n.log == s.log + LoggedBy(s, t) && n.answers == s.answers + AnsweredBy(s, t) && n.issued == s.issued
  {}

  lemma AdvanceMovesOne(s: State, t: Tid, n: State, u: Tid)
    requires t in s.pcs && n == Advance(s, t) && u != t
    ensures (u in n.pcs <==> u in s.pcs) && (u in s.pcs ==> n.pcs[u] == s.pcs[u])
  {}

  lemma OneRecord(e: Event, r: Answer, t: Tid)
    ensures EffectsOf([e], t) == if e.tid == t then [OpOf(e)] else []
    ensures TakenBy([e], t) == if e.tid == t && e.Pop? && e.taken.Some? then [e.taken.value] else []
    ensures ReturnedTo([r], t) == if r.tid == t then [r.returned] else []
  {
    assert [e][..0] == [] && [r][..0] == [];
  }

  lemma PushFlies(s: State, t: Tid, n: State)
    requires t in s.pcs && Private(s.pcs[t]) && Fills(s, s.pcs[t]) && n == Advance(s, t)
    ensures FlightOf(s, t) == EffectsOf(LoggedBy(s, t), t) + FlightOf(n, t)
    ensures HandOf(s, t) + TakenBy(LoggedBy(s, t), t) == ReturnedTo(AnsweredBy(s, t), t) + HandOf(n, t)
  {}

  lemma PopMoves(s: State, t: Tid, n: State)
    requires t in s.pcs && !Private(s.pcs[t]) && n == Advance(s, t)
    ensures FlightOf(n, t) == if LoggedBy(s, t) == [] then FlightOf(s, t) else []
    ensures LoggedBy(s, t) != [] ==> FlightOf(s, t) == [Taking] && LoggedBy(s, t)[0].Pop? && LoggedBy(s, t)[0].tid == t
  {}

  lemma PopFlies(s: State, t: Tid, n: State)
    requires t in s.pcs && !Private(s.pcs[t]) && n == Advance(s, t)
    ensures FlightOf(s, t) == EffectsOf(LoggedBy(s, t), t) + FlightOf(n, t)
  {
    PopMoves(s, t, n);
    FlightsAgree(FlightOf(s, t), FlightOf(n, t), LoggedBy(s, t), t);
  }

  lemma FlightsAgree(before: seq<Op>, after: seq<Op>, es: seq<Event>, t: Tid)
    requires |es| <= 1 && after == if es == [] then before else []
    requires es != [] ==> es[0].tid == t && before == [OpOf(es[0])]
    ensures before == EffectsOf(es, t) + after
  {
    if es != [] {
      assert es == [es[0]];
      OneRecord(es[0], Answer(t, 0, 0, 0), t);
    }
  }

  lemma PopHands(s: State, t: Tid, n: State)
    requires t in s.pcs && !Private(s.pcs[t]) && PoppingAt(s, s.pcs[t]) && n == Advance(s, t)
    ensures HandOf(s, t) + TakenBy(LoggedBy(s, t), t) == ReturnedTo(AnsweredBy(s, t), t) + HandOf(n, t)
  {
    if LoggedBy(s, t) != [] { OneRecord(LoggedBy(s, t)[0], Answer(t, 0, 0, 0), t); }
    if AnsweredBy(s, t) != [] { OneRecord(Push(t, 0), AnsweredBy(s, t)[0], t); }
  }

  /** The call in progress stays the one that was made, until its event; what it has taken then is
      what it has in hand until it returns it. */
  lemma AdvanceFlies(s: State, t: Tid, n: State)
    requires Ready(s, t) && n == Advance(s, t)
    ensures FlightOf(s, t) == EffectsOf(LoggedBy(s, t), t) + FlightOf(n, t)
    ensures HandOf(s, t) + TakenBy(LoggedBy(s, t), t) == ReturnedTo(AnsweredBy(s, t), t) + HandOf(n, t)
  {
    if Private(s.pcs[t]) { PushFlies(s, t, n); } else { PopFlies(s, t, n); PopHands(s, t, n); }
  }

  lemma {:induction false} RecordsAdded(log: seq<Event>, es: seq<Event>, answers: seq<Answer>, rs: seq<Answer>, t: Tid)
    requires |es| <= 1 && |rs| <= 1
    ensures EffectsOf(log + es, t) == EffectsOf(log, t) + EffectsOf(es, t)
    ensures TakenBy(log + es, t) == TakenBy(log, t) + TakenBy(es, t)
    ensures ReturnedTo(answers + rs, t) == ReturnedTo(answers, t) + ReturnedTo(rs, t)
  {
    if es == [] { assert log + es == log; } else { assert (log + es)[..|log|] == log && es[..0] == []; }
    if rs == [] {
      assert answers + rs == answers;
    } else {
      assert (answers + rs)[..|answers|] == answers && rs[..0] == [];
    }
  }

  lemma OthersRecord(s: State, t: Tid, u: Tid)
    requires t in s.pcs && u != t
    ensures EffectsOf(LoggedBy(s, t), u) == [] && TakenBy(LoggedBy(s, t), u) == [] &&
            ReturnedTo(AnsweredBy(s, t), u) == []
  {}

  lemma Reassociate<T>(a: seq<T>, b: seq<T>, c: seq<T>)
    ensures a + (b + c) == (a + b) + c
  {}

  lemma RunEffective(labels: seq<Label>, s: State, t: Tid, n: State, u: Tid)
    requires Ready(s, t) && n == Advance(s, t) && Effective(labels, s, u)
    ensures CallsOf(labels, u) == EffectsOf(n.log, u) + FlightOf(n, u)
    ensures TakenBy(n.log, u) == ReturnedTo(n.answers, u) + HandOf(n, u)
  {
    AdvanceRecords(s, t, n);
    RecordsAdded(s.log, LoggedBy(s, t), s.answers, AnsweredBy(s, t), u);
    if u == t {
      AdvanceFlies(s, t, n);
      OwnRun(labels, s, t, n, LoggedBy(s, t), AnsweredBy(s, t));
    } else {
      OthersRecord(s, t, u);
      AdvanceMovesOne(s, t, n, u);
      Nothing(EffectsOf(s.log, u), EffectsOf(LoggedBy(s, t), u));
      Nothing(TakenBy(s.log, u), TakenBy(LoggedBy(s, t), u));
      Nothing(ReturnedTo(s.answers, u), ReturnedTo(AnsweredBy(s, t), u));
      OthersRun(labels, s, u, n);
    }
  }

  lemma Nothing<T>(a: seq<T>, x: seq<T>)
    requires x == []
    ensures a + x == a
  {}

  lemma OthersRun(labels: seq<Label>, s: State, u: Tid, n: State)
    requires Effective(labels, s, u) && n.issued == s.issued
    requires (u in n.pcs <==> u in s.pcs) && (u in s.pcs ==> n.pcs[u] == s.pcs[u])
    requires EffectsOf(n.log, u) == EffectsOf(s.log, u) && TakenBy(n.log, u) == TakenBy(s.log, u)
    requires ReturnedTo(n.answers, u) == ReturnedTo(s.answers, u)
    ensures CallsOf(labels, u) == EffectsOf(n.log, u) + FlightOf(n, u)
    ensures TakenBy(n.log, u) == ReturnedTo(n.answers, u) + HandOf(n, u)
  {
    assert FlightOf(n, u) == FlightOf(s, u) && HandOf(n, u) == HandOf(s, u);
  }

  lemma OwnRun(labels: seq<Label>, s: State, t: Tid, n: State, es: seq<Event>, rs: seq<Answer>)
    requires Effective(labels, s, t)
    requires FlightOf(s, t) == EffectsOf(es, t) + FlightOf(n, t)
    requires HandOf(s, t) + TakenBy(es, t) == ReturnedTo(rs, t) + HandOf(n, t)
    requires EffectsOf(n.log, t) == EffectsOf(s.log, t) + EffectsOf(es, t)
    requires TakenBy(n.log, t) == TakenBy(s.log, t) + TakenBy(es, t)
    requires ReturnedTo(n.answers, t) == ReturnedTo(s.answers, t) + ReturnedTo(rs, t)
    ensures CallsOf(labels, t) == EffectsOf(n.log, t) + FlightOf(n, t)
    ensures TakenBy(n.log, t) == ReturnedTo(n.answers, t) + HandOf(n, t)
  {
    MovesOn(EffectsOf(s.log, t), FlightOf(s, t), EffectsOf(es, t), FlightOf(n, t));
    PassesOn(ReturnedTo(s.answers, t), HandOf(s, t), TakenBy(es, t), ReturnedTo(rs, t), HandOf(n, t));
  }

  lemma MovesOn<T>(done: seq<T>, before: seq<T>, x: seq<T>, after: seq<T>)
    requires before == x + after
    ensures done + before == (done + x) + after
  {}

  lemma PassesOn<T>(done: seq<T>, before: seq<T>, taken: seq<T>, returned: seq<T>, after: seq<T>)
    requires before + taken == returned + after
    ensures (done + before) + taken == (done + returned) + after
  {
    Reassociate(done, before, taken);
    Reassociate(done, returned, after);
  }

  lemma StartFlies(s: State, l: Label, n: State, u: Tid)
    requires Owned(s) && Step(s, l, n) && !l.Run?
    ensures n.log == s.log && n.answers == s.answers && HandOf(n, u) == HandOf(s, u)
    ensures FlightOf(n, u) == FlightOf(s, u) + MadeBy(l, u)
  {}

  lemma StepEffective(labels: seq<Label>, s: State, l: Label, n: State, u: Tid)
    requires Inv(s) && Step(s, l, n) && Effective(labels, s, u)
    ensures Effective(labels + [l], n, u)
  {
    assert (labels + [l])[..|labels|] == labels;
    if l.Run? {
      assert PoppingAt(s, s.pcs[l.t]);
      RunEffective(labels, s, l.t, n, u);
    } else {
      StartFlies(s, l, n, u);
      Reassociate(EffectsOf(s.log, u), FlightOf(s, u), MadeBy(l, u));
    }
  }

  /** At every moment the events of a thread are its own calls, in the order in which it made them,
      but for the one in progress that has not had its effect: so each call takes effect between
      its beginning and its end.  Its pops have returned what these events took, in order, but
      for one object that a call may have in hand. */
  lemma {:induction false} CallsTakeEffect(states: seq<State>, labels: seq<Label>, i: nat, t: Tid)
    requires IsRun(states, labels) && i <= |labels|
    ensures Effective(labels[..i], states[i], t)
  {
    if i > 0 {
      CallsTakeEffect(states, labels, i - 1, t);
      RunInv(states[..i], labels[..i - 1]);
      assert labels[..i] == labels[..i - 1] + [labels[i - 1]];
      StepEffective(labels[..i - 1], states[i - 1], labels[i - 1], states[i], t);
    }
  }

  /** In every run the objects given to finalization calls are, each as often as it was given,
      those pushed and those still in a pusher's hand; and those popped are those returned and
      those still in a popper's hand. */
  lemma ObjectsConserved(states: seq<State>, labels: seq<Label>, obj: Obj)
    requires IsRun(states, labels)
    ensures var s := states[|labels|];
            Finalized(labels)[obj] == Popped(s.log)[obj] + multiset(Objects(s))[obj] + |Incoming(s, obj)| &&
            Popped(s.log)[obj] == Returned(s.answers)[obj] + |Outgoing(s, obj)|
  {
    RunConserved(states, labels);
    RunInv(states, labels);
    StackConserves(states[|labels|].log);
  }

  /** Once no push is in progress, the objects of all finalization calls are exactly those popped
      and those linked; once no pop is either, those returned and those linked. */
  lemma WhatGoesInComesOut(states: seq<State>, labels: seq<Label>)
    requires IsRun(states, labels)
    requires forall t <- states[|labels|].pcs :: !Private(states[|labels|].pcs[t])
    ensures var s := states[|labels|];
            Finalized(labels) == Popped(s.log) + multiset(Objects(s))
    ensures var s := states[|labels|];
            (forall t <- s.pcs :: !s.pcs[t].LoadFirst?) ==>
            Finalized(labels) == Returned(s.answers) + multiset(Objects(s))
  {
    var s := states[|labels|];
    forall obj
      ensures Finalized(labels)[obj] == Popped(s.log)[obj] + multiset(Objects(s))[obj]
      ensures (forall t <- s.pcs :: !s.pcs[t].LoadFirst?) ==> Popped(s.log)[obj] == Returned(s.answers)[obj]
    {
      ObjectsConserved(states, labels, obj);
      assert Incoming(s, obj) == {};
      if forall t <- s.pcs :: !s.pcs[t].LoadFirst? { assert Outgoing(s, obj) == {}; }
    }
  }

  /** Under any interleaving the queue is a stack: its events, in the order of the successful
      swaps, make a sequential history that leaves exactly the linked objects, and every pop
      returns what it took off, which is the object that the cell was handed out with. */
  lemma QueueIsLinearizable(states: seq<State>, labels: seq<Label>)
    requires IsRun(states, labels)
    ensures var s := states[|labels|];
            Replay(s.log) == Some(Objects(s)) &&
            forall r <- s.answers :: r.cell in s.popped && r.cell in s.issued &&
                                     r.returned == r.taken == s.issued[r.cell].obj
    ensures forall i | 0 <= i < |states[|labels|].linked| ::
              states[|labels|].linked[i] in states[|labels|].issued &&
              Objects(states[|labels|])[i] == states[|labels|].issued[states[|labels|].linked[i]].obj
  {
    RunInv(states, labels);
    var s := states[|labels|];
    forall i | 0 <= i < |s.linked| ensures s.linked[i] in s.issued && Objects(s)[i] == s.issued[s.linked[i]].obj {
      assert LinkedAt(s, i);
    }
  }

  /** No cell is lost and none is taken twice: once every pusher is done, each cell handed out
      is either linked or popped, not both, and is linked at one place only. */
  lemma NothingLostOrDoubled(states: seq<State>, labels: seq<Label>, n: Node)
    requires IsRun(states, labels) && n in states[|labels|].issued
    requires forall t <- states[|labels|].pcs :: !Private(states[|labels|].pcs[t])
    ensures var s := states[|labels|];
            (n in s.linked <==> n !in s.popped) &&
            forall i, j | 0 <= i < j < |s.linked| :: s.linked[i] != s.linked[j]
  {
    RunInv(states, labels);
    var s := states[|labels|];
    LinkedCells(s);
    assert n in s.linked || n in s.popped || InHand(s, n);
  }

  /** A cell is popped by at most one swap: the swap that pops it finds it not popped before. */
  lemma PoppedOnce(s: State, t: Tid)
    requires Inv(s) && t in s.pcs && s.pcs[t].PopSwap? && Advance(s, t).pcs[t].LoadFirst?
    ensures s.pcs[t].q !in s.popped && s.pcs[t].q in Advance(s, t).popped
    ensures s.linked != [] && s.pcs[t].q == s.linked[0] && Advance(s, t).linked == s.linked[1..]
  {
    LinkedCells(s);
    assert PoppingAt(s, s.pcs[t]);
  }

  // ---------------------------------------------------------------- somebody always succeeds

  predicate Own(l: Label, t: Tid) { l == Run(t) }

  /** How many steps `t` makes from `a` up to `b`. */
  function OwnSteps(labels: seq<Label>, a: nat, b: nat, t: Tid): nat
    requires a <= b <= |labels|
    decreases b - a
  {
    if a == b then 0 else OwnSteps(labels, a, b - 1, t) + if Own(labels[b - 1], t) then 1 else 0
  }

  /** How many steps a thread can make without an event before it returns or causes one; it is put
      back by a head of the queue that is no longer the one it loaded. */
  function StepsLeft(s: State, pc: Pc): nat {
    match pc
    case Idle => 0
    case LoadFirst(_, _) => 1
    case PushSwap(c) => if s.queue == CellOf(s, c).rest then 0 else 2
    case SetRest(_) => 1
    case SetFirst(_, _) => 2
    case LoadQueue => if s.queue.None? then 0 else 2
    case LoadRest(q) => if s.queue == Some(q) then 1 else 4
    case PopSwap(q, _) => if s.queue == Some(q) then 0 else 3
  }

  /** Step `k` is an event, or brings `t` nearer to one if it is its own and no farther from it otherwise. */
  predicate Nearer(states: seq<State>, labels: seq<Label>, k: nat, t: Tid)
    requires k < |labels| < |states|
  {
    t in states[k].pcs && t in states[k + 1].pcs &&
    (|states[k + 1].log| > |states[k].log| ||
     (|states[k + 1].log| == |states[k].log| &&
      StepsLeft(states[k + 1], states[k + 1].pcs[t]) + (if Own(labels[k], t) then 1 else 0) <=
        StepsLeft(states[k], states[k].pcs[t])))
  }

  lemma OwnStepCounts(s: State, t: Tid, n: State)
    requires t in s.pcs && s.pcs[t] != Idle && n == Advance(s, t)
    ensures t in n.pcs
    ensures |n.log| > |s.log| || (|n.log| == |s.log| && StepsLeft(n, n.pcs[t]) < StepsLeft(s, s.pcs[t]))
  {}

  lemma OthersPass(s: State, l: Label, n: State, t: Tid)
    requires Inv(s) && Step(s, l, n) && t in s.pcs && s.pcs[t] != Idle && !Own(l, t)
    ensures t in n.pcs && n.pcs[t] == s.pcs[t]
    ensures |n.log| > |s.log| || (|n.log| == |s.log| && StepsLeft(n, n.pcs[t]) == StepsLeft(s, s.pcs[t]))
  {
    assert PoppingAt(s, s.pcs[t]);
    if l.Run? { assert PoppingAt(s, s.pcs[l.t]); }
  }

  lemma ComesNearer(states: seq<State>, labels: seq<Label>, k: nat, t: Tid)
    requires IsRun(states, labels) && k < |labels| && t in states[k].pcs && states[k].pcs[t] != Idle
    ensures Nearer(states, labels, k, t)
  {
    RunInv(states[..k + 1], labels[..k]);
    assert Step(states[k], labels[k], states[k + 1]);
    if Own(labels[k], t) {
      OwnStepCounts(states[k], t, states[k + 1]);
    } else {
      OthersPass(states[k], labels[k], states[k + 1], t);
    }
  }

  predicate BusyBetween(states: seq<State>, a: nat, b: nat, t: Tid)
    requires b <= |states|
  {
    forall k | a <= k < b :: t in states[k].pcs && states[k].pcs[t] != Idle
  }

  predicate AllNearer(states: seq<State>, labels: seq<Label>, a: nat, b: nat, t: Tid)
    requires b <= |labels| < |states|
  {
    forall k | a <= k < b :: Nearer(states, labels, k, t)
  }

  lemma EachNearer(states: seq<State>, labels: seq<Label>, a: nat, b: nat, t: Tid)
    requires IsRun(states, labels) && a <= b <= |labels| && BusyBetween(states, a, b, t)
    ensures AllNearer(states, labels, a, b, t)
  {
    forall k | a <= k < b ensures Nearer(states, labels, k, t) { ComesNearer(states, labels, k, t); }
  }

  lemma {:induction false} StepsAddUp(states: seq<State>, labels: seq<Label>, a: nat, b: nat, t: Tid)
    requires a <= b <= |labels| < |states| && t in states[a].pcs && AllNearer(states, labels, a, b, t)
    ensures t in states[b].pcs && |states[b].log| >= |states[a].log|
    ensures |states[b].log| == |states[a].log| ==>
              OwnSteps(labels, a, b, t) + StepsLeft(states[b], states[b].pcs[t]) <=
                StepsLeft(states[a], states[a].pcs[t])
  {
    if a < b {
      StepsAddUp(states, labels, a, b - 1, t);
      assert Nearer(states, labels, b - 1, t);
    }
  }

  /** The queue is lock-free: when a thread in a call has made five steps and the call has not ended,
      some push or pop has taken effect meanwhile, its own or another thread's. */
  lemma SomebodySucceeds(states: seq<State>, labels: seq<Label>, a: nat, b: nat, t: Tid)
    requires IsRun(states, labels) && a <= b <= |labels| && BusyBetween(states, a, b, t)
    requires OwnSteps(labels, a, b, t) >= 5
    ensures |states[b].log| > |states[a].log|
  {
    EachNearer(states, labels, a, b, t);
    StepsAddUp(states, labels, a, b, t);
  }
}
