/**
 Non-local exits of the C run-time.

 Bind-exit and unwind-protect frames live on the C stack; the thread's TEB points at
 the innermost unwind-protect frame.  The primitives below update those frames, and
 `longjmp` transfers control to the frame that a primitive names.  A small language of
 blocks, exits and unwind-protects is run on that machine in the way the C back end
 emits it, and compared with an ordinary exception semantics.
 */
module NonLocalExit {
  import opened Options

  type Value = int
  const VALUES_MAX: nat := 64
  const DFALSE: Value := 0

  /** The `MV` structure: a count and a fixed buffer of which only a prefix is meaningful. */
  datatype Buffer = MV(count: nat, value: seq<Value>)
  type MV = b: Buffer | b.count <= VALUES_MAX && |b.value| == VALUES_MAX
    witness MV(0, seq(VALUES_MAX, _ => DFALSE))

  type Values = s: seq<Value> | |s| <= VALUES_MAX

  /** A frame is named by its position on the stack; position 0 holds no frame, so that it can
      serve as NULL for the frame links.  `None` stands for a NULL destination. */
  datatype Frame =
    | NoFrame
    | ExitFrame(returnValues: MV, present: nat)
    | UnwindFrame(returnValues: MV, ultimate: Option<nat>, previous: nat)
  {
    function Holding(values: MV): Frame {
      match this
      case NoFrame => NoFrame
      case ExitFrame(_, p) => ExitFrame(values, p)
      case UnwindFrame(_, u, p) => UnwindFrame(values, u, p)
    }
  }

  datatype State = State(rv: MV, uwp: nat, stack: seq<Frame>, trace: seq<nat>)

  /** How a piece of code ends: it falls through with a first value, it has called
      `longjmp` on a frame, or it has followed a wild frame pointer. */
  datatype Control = Falls(v: Value) | LongJump(frame: nat) | Crash

  // ---------------------------------------------------------------- programs

  datatype Stmt =
    | Act(event: nat, vs: Values)
    | Seq(first: Stmt, second: Stmt)
    | Branch(test: Stmt, key: Value, yes: Stmt, no: Stmt)
    | Block(name: nat, body: Stmt)
    | Exit(target: nat, vs: Values)
    | Protect(body: Stmt, cleanup: Stmt)

  /** Exits name an enclosing block. */
  predicate WellFormed(s: Stmt, scope: set<nat>) {
    match s
    case Act(_, _) => true
    case Seq(a, b) => WellFormed(a, scope) && WellFormed(b, scope)
    case Branch(t, _, y, n) => WellFormed(t, scope) && WellFormed(y, scope) && WellFormed(n, scope)
    case Block(l, b) => WellFormed(b, scope + {l})
    case Exit(l, _) => l in scope
    case Protect(b, c) => WellFormed(b, scope) && WellFormed(c, scope)
  }

  // ---------------------------------------------------------------- exception semantics

  datatype Outcome = Done(vs: Values) | Raise(target: nat, vs: Values)
  datatype Behaviour = Behaviour(events: seq<nat>, outcome: Outcome)

  function First(vs: seq<Value>): Value {
    if vs == [] then DFALSE else vs[0]
  }

  /** What a program means: events in order, then values or an exit still in flight. */
  function Eval(s: Stmt): Behaviour {
    match s
    case Act(e, vs) => Behaviour([e], Done(vs))
    case Seq(a, b) =>
      var ra := Eval(a);
      if ra.outcome.Raise? then ra
      else var rb := Eval(b); Behaviour(ra.events + rb.events, rb.outcome)
    case Branch(t, k, y, n) =>
      var rt := Eval(t);
      if rt.outcome.Raise? then rt
      else
        var rb := if First(rt.outcome.vs) == k then Eval(y) else Eval(n);
        Behaviour(rt.events + rb.events, rb.outcome)
    case Block(l, b) =>
      var rb := Eval(b);
      if rb.outcome.Raise? && rb.outcome.target == l
      then Behaviour(rb.events, Done(rb.outcome.vs)) else rb
    case Exit(l, vs) => Behaviour([], Raise(l, vs))
    case Protect(b, c) =>
      var rb := Eval(b);
      var rc := Eval(c);
      Behaviour(rb.events + rc.events, if rc.outcome.Done? then rb.outcome else rc.outcome)
  }

  // ---------------------------------------------------------------- the primitives

  predicate IsUnwind(stack: seq<Frame>, f: nat) { f < |stack| && stack[f].UnwindFrame? }
  predicate IsExit(stack: seq<Frame>, f: nat) { f < |stack| && stack[f].ExitFrame? }

  /** Spilling values: `count` words, the first of them taken from the argument. */
  function Spill(dst: MV, src: MV, argument: Value): MV {
    MV(src.count,
       if src.count > 1 then [argument] + src.value[1..src.count] + dst.value[src.count..]
       else dst.value[0 := argument])
  }

  /** Copying the first `count` words of one buffer over another. */
  function Refill(dst: MV, src: MV): MV {
    MV(src.count, src.value[..src.count] + dst.value[src.count..])
  }

  /** An expression returning `vs`: the first value is the C result, the others go to the TEB. */
  function ReturnValues(rv: MV, vs: Values): MV {
    MV(|vs|, if |vs| > 1 then [rv.value[0]] + vs[1..] + rv.value[|vs|..] else rv.value)
  }

  /** The multiple values that a C result and the TEB stand for. */
  function Result(v: Value, rv: MV): Values {
    if rv.count == 0 then [] else [v] + rv.value[1..rv.count]
  }

  function NlxStep(m: State, dest: nat): (State, Control) {
    if !IsExit(m.stack, dest) || !IsUnwind(m.stack, m.uwp) then (m, Crash)
    else if m.uwp == m.stack[dest].present then
      (m.(stack := m.stack[m.uwp := m.stack[m.uwp].(ultimate := None)]), LongJump(dest))
    else
      var prev := m.stack[m.uwp].previous;
      if !IsUnwind(m.stack, prev) then (m, Crash)
      else
        (m.(uwp := prev, stack := m.stack[prev := m.stack[prev].(ultimate := Some(dest))]),
         LongJump(m.uwp))
  }

  function FallThroughUnwind(m: State, argument: Value): State
    requires IsUnwind(m.stack, m.uwp)
  {
    var f := m.stack[m.uwp];
    m.(stack := m.stack[m.uwp := f.Holding(Spill(f.returnValues, m.rv, argument)).(ultimate := None)])
  }

  function ContinueUnwind(m: State): (State, Control)
  {
    if !IsUnwind(m.stack, m.uwp) then (m, Crash)
    else
      var f := m.stack[m.uwp];
      if f.ultimate.Some? then NlxStep(m, f.ultimate.value)
      else
        var rv := Refill(m.rv, f.returnValues);
        (m.(rv := rv, uwp := f.previous), Falls(if rv.count == 0 then DFALSE else rv.value[0]))
  }

  function Nlx(m: State, target: nat, argument: Value): (State, Control) {
    if !IsExit(m.stack, target) then (m, Crash)
    else
      var f := m.stack[target];
      NlxStep(m.(stack := m.stack[target := f.Holding(Spill(f.returnValues, m.rv, argument))]), target)
  }

  function FrameRetval(m: State, frame: nat): (State, Control) {
    if !IsExit(m.stack, frame) then (m, Crash)
    else
      var f := m.stack[frame];
      (m.(rv := Refill(m.rv, f.returnValues)), Falls(f.returnValues.value[0]))
  }

  /** ENTER_EXIT_FRAME and ENTER_UNWIND_FRAME: a stack frame with uninitialised values is set up. */
  function SetupExitFrame(m: State, junk: MV): State {
    m.(stack := m.stack + [ExitFrame(junk, m.uwp)])
  }

  function SetupUnwindFrame(m: State, junk: MV): State {
    m.(stack := m.stack + [UnwindFrame(junk, None, m.uwp)], uwp := |m.stack|)
  }

  /** A protected body that completed calls FALL_THROUGH_UNWIND before its cleanup. */
  predicate FallsIn(r: (State, Control)) {
    r.1.Falls? && IsUnwind(r.0.stack, r.0.uwp)
  }

  function CleanupStart(r: (State, Control)): State {
    if FallsIn(r) then FallThroughUnwind(r.0, r.1.v) else r.0
  }

  /** Leaving the C scope that declared the frame at `base`. */
  function Leave(r: (State, Control), base: nat): (State, Control) {
    (if base <= |r.0.stack| then r.0.(stack := r.0.stack[..base]) else r.0, r.1)
  }

  // ---------------------------------------------------------------- running a program

  /** The emitted code.  A `LongJump` to a frame set up here resumes at its `setjmp`; any
      other one abandons this scope. */
  function Exec(s: Stmt, env: map<nat, nat>, m: State, junk: MV): (State, Control)
    decreases s, 1
  {
    match s
    case Act(e, vs) =>
      (m.(rv := ReturnValues(m.rv, vs), trace := m.trace + [e]), Falls(First(vs)))
    case Seq(a, b) =>
      var r := Exec(a, env, m, junk);
      if r.1.Falls? then Exec(b, env, r.0, junk) else r
    case Branch(t, k, y, n) =>
      var r := Exec(t, env, m, junk);
      if !r.1.Falls? then r
      else if r.1.v == k then Exec(y, env, r.0, junk) else Exec(n, env, r.0, junk)
    case Block(l, b) =>
      var base := |m.stack|;
      var r := Exec(b, env[l := base], SetupExitFrame(m, junk), junk);
      Leave(if r.1 == LongJump(base) then FrameRetval(r.0, base) else r, base)
    case Exit(l, vs) =>
      if l !in env then (m, Crash)
      else Nlx(m.(rv := ReturnValues(m.rv, vs)), env[l], First(vs))
    case Protect(b, c) =>
      var base := |m.stack|;
      var r := Exec(b, env, SetupUnwindFrame(m, junk), junk);
      Leave(if r.1 == LongJump(base) || FallsIn(r) then EnterCleanup(c, env, CleanupStart(r), base, junk)
            else if r.1.Falls? then (r.0, Crash) else r,
            base)
  }

  /** A jump to the frame at `base` out of its own cleanup resumes at the same `setjmp`. */
  function EnterCleanup(c: Stmt, env: map<nat, nat>, m: State, base: nat, junk: MV): (State, Control)
    decreases c, 3
  {
    var r := ExecCleanup(c, env, m, junk);
    if r.1 == LongJump(base) then ExecCleanup(c, env, r.0, junk) else r
  }

  /** A cleanup clause followed by CONTINUE_UNWIND. */
  function ExecCleanup(c: Stmt, env: map<nat, nat>, m: State, junk: MV): (State, Control)
    decreases c, 2
  {
    var r := Exec(c, env, m, junk);
    if r.1.Falls? then ContinueUnwind(r.0) else r
  }

  // ---------------------------------------------------------------- well-behaved cleanups

  /** Some exit arrives at, or passes out of, the unwind-protect level that runs `s`. */
  predicate Disturbs(s: Stmt) {
    match s
    case Act(_, _) => false
    case Seq(a, b) => Disturbs(a) || (Eval(a).outcome.Done? && Disturbs(b))
    case Branch(t, k, y, n) =>
      var r := Eval(t).outcome;
      Disturbs(t) || (r.Done? && if First(r.vs) == k then Disturbs(y) else Disturbs(n))
    case Block(_, b) => Disturbs(b)
    case Exit(_, _) => true
    case Protect(b, c) => Eval(b).outcome.Raise? || Eval(c).outcome.Raise?
  }

  /** The exits that are given up because a cleanup on their way exits as well: the block of each
      and the values it would have delivered last. */
  function Abandons(s: Stmt): map<nat, Values> {
    match s
    case Act(_, _) => map[]
    case Seq(a, b) => if Eval(a).outcome.Done? then Abandons(a) + Abandons(b) else Abandons(a)
    case Branch(t, k, y, n) =>
      var r := Eval(t).outcome;
      if r.Raise? then Abandons(t) else Abandons(t) + if First(r.vs) == k then Abandons(y) else Abandons(n)
    case Block(l, b) => Abandons(b) - {l}
    case Exit(_, _) => map[]
    case Protect(b, c) => GivenUp(b, c, Abandons(b)) + Abandons(c)
  }

  /** With the exit of `b`, if that of its cleanup supersedes it. */
  function GivenUp(b: Stmt, c: Stmt, kept: map<nat, Values>): map<nat, Values> {
    match Eval(b).outcome
    case Raise(l, vs) => if Eval(c).outcome.Raise? then kept[l := vs] else kept
    case Done(_) => kept
  }

  /** An unwind-protect of well-behaved parts goes right.  A cleanup that is fallen into and exits
      must do so silently, for it is run again.  A cleanup that completes while an exit is
      unwound through it must not let any exit arrive at its own level, nor give up one to the
      same block with other values, which would take the place of those on their way.  A
      cleanup that exits while an exit is unwound through it is always all right. */
  predicate GoesRight(b: Stmt, c: Stmt) {
    match Eval(b).outcome
    case Done(_) => Eval(c).outcome.Done? || Eval(c).events == []
    case Raise(l, vs) => Eval(c).outcome.Raise? || (!Disturbs(c) && Delivers(c, l, vs) == vs)
  }

  /** The values that an exit to `l` delivers after `c` has run on its way. */
  function Delivers(c: Stmt, l: nat, vs: Values): Values { if l in Abandons(c) then Abandons(c)[l] else vs }

  predicate Tame(s: Stmt) {
    match s
    case Act(_, _) => true
    case Seq(a, b) => Tame(a) && (Eval(a).outcome.Done? ==> Tame(b))
    case Branch(t, k, y, n) =>
      var r := Eval(t).outcome;
      Tame(t) && (r.Done? ==> if First(r.vs) == k then Tame(y) else Tame(n))
    case Block(_, b) => Tame(b)
    case Exit(_, _) => true
    case Protect(b, c) => Tame(b) && Tame(c) && GoesRight(b, c)
  }

  /** No exit appears anywhere in `s`. */
  predicate ExitFree(s: Stmt) {
    match s
    case Act(_, _) => true
    case Seq(a, b) => ExitFree(a) && ExitFree(b)
    case Branch(t, _, y, n) => ExitFree(t) && ExitFree(y) && ExitFree(n)
    case Block(_, b) => ExitFree(b)
    case Exit(_, _) => false
    case Protect(b, c) => ExitFree(b) && ExitFree(c)
  }

  predicate CleanupsExitFree(s: Stmt) {
    match s
    case Act(_, _) => true
    case Seq(a, b) => CleanupsExitFree(a) && CleanupsExitFree(b)
    case Branch(t, _, y, n) => CleanupsExitFree(t) && CleanupsExitFree(y) && CleanupsExitFree(n)
    case Block(_, b) => CleanupsExitFree(b)
    case Exit(_, _) => true
    case Protect(b, c) => CleanupsExitFree(b) && ExitFree(c)
  }

  lemma {:induction false} ExitFreeCompletes(s: Stmt)
    requires ExitFree(s)
    ensures Eval(s).outcome.Done? && !Disturbs(s) && Abandons(s) == map[] && Tame(s)
  {
    match s
    case Act(_, _) =>
    case Seq(a, b) => ExitFreeCompletes(a); ExitFreeCompletes(b);
    case Branch(t, _, y, n) => ExitFreeCompletes(t); ExitFreeCompletes(y); ExitFreeCompletes(n);
    case Block(_, b) => ExitFreeCompletes(b);
    case Protect(b, c) => ExitFreeCompletes(b); ExitFreeCompletes(c);
  }

  lemma {:induction false} ExitFreeCleanupsAreTame(s: Stmt)
    requires CleanupsExitFree(s)
    ensures Tame(s)
  {
    match s
    case Act(_, _) =>
    case Seq(a, b) => ExitFreeCleanupsAreTame(a); ExitFreeCleanupsAreTame(b);
    case Branch(t, _, y, n) =>
      ExitFreeCleanupsAreTame(t); ExitFreeCleanupsAreTame(y); ExitFreeCleanupsAreTame(n);
    case Block(_, b) => ExitFreeCleanupsAreTame(b);
    case Exit(_, _) =>
    case Protect(b, c) => ExitFreeCleanupsAreTame(b); ExitFreeCompletes(c);
  }

  // ---------------------------------------------------------------- the frame chain

  /** `to` is on the chain of unwind-protect frames that starts at `from`. */
  ghost predicate Reaches(stack: seq<Frame>, from: nat, to: nat) {
    IsUnwind(stack, from) &&
    (from == to || (stack[from].previous < from && Reaches(stack, stack[from].previous, to)))
  }

  /** Every block in scope has a frame of its own, whose level is on the chain. */
  ghost predicate Linked(m: State, env: map<nat, nat>) {
    IsUnwind(m.stack, m.uwp) &&
    (forall l <- env :: IsExit(m.stack, env[l]) && Reaches(m.stack, m.uwp, m.stack[env[l]].present)) &&
    Injective(env)
  }

  /** Stacks whose frames have the same kinds and links. */
  ghost predicate SameLinks(s: seq<Frame>, t: seq<Frame>) {
    |s| <= |t| &&
    (forall i {:trigger t[i]} | 0 <= i < |s| ::
      (s[i].ExitFrame? ==> t[i].ExitFrame? && t[i].present == s[i].present) &&
      (s[i].UnwindFrame? ==> t[i].UnwindFrame? && t[i].previous == s[i].previous))
  }

  lemma {:induction false} ReachesKept(s: seq<Frame>, t: seq<Frame>, from: nat, to: nat)
    requires SameLinks(s, t) && Reaches(s, from, to)
    ensures Reaches(t, from, to)
    decreases from
  {
    assert t[from].UnwindFrame?;
    if from != to { ReachesKept(s, t, s[from].previous, to); }
  }

  lemma LinkedKept(m: State, env: map<nat, nat>, n: State)
    requires Linked(m, env) && SameLinks(m.stack, n.stack) && n.uwp == m.uwp
    ensures Linked(n, env)
  {
    assert n.stack[n.uwp].UnwindFrame?;
    forall l <- env ensures IsExit(n.stack, env[l]) && Reaches(n.stack, n.uwp, n.stack[env[l]].present) {
      ReachesKept(m.stack, n.stack, m.uwp, m.stack[env[l]].present);
      assert n.stack[env[l]].ExitFrame?;
    }
  }

  lemma {:induction false} ReachesBelow(stack: seq<Frame>, from: nat, to: nat)
    requires Reaches(stack, from, to)
    ensures to <= from < |stack|
    decreases from
  {
    if from != to { ReachesBelow(stack, stack[from].previous, to); }
  }

  // ---------------------------------------------------------------- frames but for idle values

  /** A frame holds `vs` for delivery. */
  ghost predicate Holds(f: Frame, vs: Values) {
    !f.NoFrame? && f.returnValues.count == |vs| && f.returnValues.value[..|vs|] == vs &&
    f.returnValues.value[0] == First(vs)
  }

  /** The same frame, except that the frame of a block to which an exit was given up holds that
      exit's values. */
  ghost predicate FrameAlike(f: Frame, g: Frame, i: nat, kept: map<nat, Values>) {
    if i in kept then f.ExitFrame? && g.ExitFrame? && g.present == f.present && Holds(g, kept[i]) else g == f
  }

  ghost predicate AlikeBelow(s: seq<Frame>, t: seq<Frame>, base: nat, kept: map<nat, Values>) {
    base <= |s| && base <= |t| && forall i | 0 <= i < base :: FrameAlike(s[i], t[i], i, kept)
  }

  ghost predicate Alike(s: seq<Frame>, t: seq<Frame>, kept: map<nat, Values>) {
    |s| == |t| && AlikeBelow(s, t, |s|, kept)
  }

  predicate Injective(env: map<nat, nat>) { forall l, k | l in env && k in env && env[l] == env[k] :: l == k }

  /** The values kept for these blocks, by frame. */
  function Frames(env: map<nat, nat>, kept: map<nat, Values>): map<nat, Values>
    requires Injective(env)
  {
    map l | l in kept && l in env :: env[l] := kept[l]
  }

  predicate SameAt(a: map<nat, Values>, b: map<nat, Values>, i: nat) {
    (i in a <==> i in b) && (i in a ==> a[i] == b[i])
  }

  // ---------------------------------------------------------------- the simulation

  function Cleared(stack: seq<Frame>, f: nat): seq<Frame>
    requires IsUnwind(stack, f)
  {
    stack[f := stack[f].(ultimate := None)]
  }

  /** A statement completed with `vs`: the frame chain and every frame are as they were, except that an
      exit that arrived at this level has cleared the pending destination of its frame, and
      that the frames of blocks whose exits were given up hold their values. */
  ghost predicate Completed(m: State, disturbed: bool, kept: map<nat, Values>, r: (State, Control), vs: Values)
    requires IsUnwind(m.stack, m.uwp)
  {
    r.1 == Falls(First(vs)) && Result(First(vs), r.0.rv) == vs && r.0.uwp == m.uwp &&
    Alike(if disturbed then Cleared(m.stack, m.uwp) else m.stack, r.0.stack, kept)
  }

  /** The frame below has been told that an exit to `b` is on its way, and the frame above it is
      off the chain. */
  function Told(m: State, b: nat, popped: Frame): seq<Frame>
    requires IsUnwind(m.stack, m.uwp) && IsUnwind(m.stack, m.stack[m.uwp].previous)
  {
    var prev := m.stack[m.uwp].previous;
    m.stack[prev := m.stack[prev].(ultimate := Some(b))][m.uwp := popped]
  }

  /** An exit to frame `b` has left the code that started in `m`: the values are in `b`; control
      is at `b` if its level is the current one, and otherwise at the innermost unwind-protect,
      which has been popped and whose predecessor knows the destination. */
  ghost predicate Escaped(m: State, kept: map<nat, Values>, r: (State, Control), b: nat, vs: Values)
    requires IsUnwind(m.stack, m.uwp) && IsExit(m.stack, b)
  {
    if m.stack[b].present == m.uwp then
      r.1 == LongJump(b) && r.0.uwp == m.uwp && Alike(Cleared(m.stack, m.uwp), r.0.stack, kept[b := vs])
    else
      var prev := m.stack[m.uwp].previous;
      r.1 == LongJump(m.uwp) && r.0.uwp == prev && prev < m.uwp && IsUnwind(m.stack, prev) &&
      IsUnwind(r.0.stack, m.uwp) && r.0.stack[m.uwp].previous == prev &&
      Alike(Told(m, b, r.0.stack[m.uwp]), r.0.stack, kept[b := vs])
  }

  ghost predicate Realizes(e: Behaviour, disturbed: bool, kept: map<nat, Values>, env: map<nat, nat>, m: State,
                           r: (State, Control))
    requires Linked(m, env)
  {
    r.0.trace == m.trace + e.events &&
    match e.outcome
    case Done(vs) => Completed(m, disturbed, kept, r, vs)
    case Raise(l, vs) => l in env && Escaped(m, kept, r, env[l], vs)
  }

  /** The machine did in `r` what the exception semantics says `s` does. */
  ghost predicate Simulates(s: Stmt, env: map<nat, nat>, m: State, r: (State, Control))
    requires Linked(m, env)
  {
    Realizes(Eval(s), Disturbs(s), Frames(env, Abandons(s)), env, m, r)
  }

  lemma RaisesInScope(s: Stmt, scope: set<nat>)
    requires WellFormed(s, scope)
    ensures Eval(s).outcome.Raise? ==> Eval(s).outcome.target in scope
  {}

  lemma ReturnedValues(rv: MV, vs: Values)
    ensures Result(First(vs), ReturnValues(rv, vs)) == vs
  {}

  lemma SpilledValues(dst: MV, rv: MV, vs: Values)
    requires Result(First(vs), rv) == vs
    ensures Spill(dst, rv, First(vs)).count == |vs|
    ensures Spill(dst, rv, First(vs)).value[..|vs|] == vs
    ensures Spill(dst, rv, First(vs)).value[0] == First(vs)
  {
    if |vs| > 1 {
      assert vs == [First(vs)] + rv.value[1..|vs|];
    }
  }

  lemma RefilledValues(dst: MV, src: MV, vs: Values)
    requires src.count == |vs| && src.value[..|vs|] == vs
    ensures Result(First(vs), Refill(dst, src)) == vs
    ensures Refill(dst, src).count > 0 ==> Refill(dst, src).value[0] == First(vs)
  {
    if |vs| > 0 {
      assert Refill(dst, src).value[1..|vs|] == vs[1..];
    }
  }

  /** One step towards a destination, once the frames the exit was raised under are gone. */
  lemma StepEscapes(m: State, n: State, kept: map<nat, Values>, b: nat, vs: Values)
    requires IsUnwind(m.stack, m.uwp) && IsExit(m.stack, b)
    requires Reaches(m.stack, m.uwp, m.stack[b].present)
    requires n.uwp == m.uwp && |n.stack| == |m.stack|
    requires IsUnwind(n.stack, m.uwp) && n.stack[m.uwp] == m.stack[m.uwp].(ultimate := n.stack[m.uwp].ultimate)
    requires m.uwp !in kept
    requires forall i | 0 <= i < |m.stack| && i != m.uwp :: FrameAlike(m.stack[i], n.stack[i], i, kept[b := vs])
    ensures Escaped(m, kept, NlxStep(n, b), b, vs) && NlxStep(n, b).0.trace == n.trace
  {
    assert b != m.uwp && FrameAlike(m.stack[b], n.stack[b], b, kept[b := vs]);
    if m.stack[b].present != m.uwp {
      var prev := m.stack[m.uwp].previous;
      assert Reaches(m.stack, prev, m.stack[b].present);
      assert prev != b && prev != m.uwp;
      assert FrameAlike(m.stack[prev], n.stack[prev], prev, kept[b := vs]);
    }
  }

  lemma {:induction false} SimulateExit(l: nat, vs: Values, env: map<nat, nat>, m: State, junk: MV)
    requires Linked(m, env) && l in env
    ensures Simulates(Exit(l, vs), env, m, Exec(Exit(l, vs), env, m, junk))
  {
    var b := env[l];
    var rv := ReturnValues(m.rv, vs);
    ReturnedValues(m.rv, vs);
    SpilledValues(m.stack[b].returnValues, rv, vs);
    var n := m.(rv := rv,
                stack := m.stack[b := m.stack[b].Holding(Spill(m.stack[b].returnValues, rv, First(vs)))]);
    assert Frames(env, map[]) == map[];
    StepEscapes(m, n, map[], b, vs);
  }

  /** Entering a block or an unwind-protect keeps every outer block reachable. */
  lemma EnterBlock(l: nat, env: map<nat, nat>, m: State, junk: MV)
    requires Linked(m, env)
    ensures Linked(SetupExitFrame(m, junk), env[l := |m.stack|])
  {
    var n := SetupExitFrame(m, junk);
    LinkedKept(m, env, n);
    assert Reaches(n.stack, n.uwp, n.stack[|m.stack|].present);
  }

  lemma EnterProtect(env: map<nat, nat>, m: State, junk: MV)
    requires Linked(m, env)
    ensures Linked(SetupUnwindFrame(m, junk), env)
  {
    var n := SetupUnwindFrame(m, junk);
    LinkedKept(m, env, m.(stack := n.stack));
    forall l <- env ensures IsExit(n.stack, env[l]) && Reaches(n.stack, n.uwp, n.stack[env[l]].present) {
      assert Reaches(n.stack, m.uwp, n.stack[env[l]].present);
    }
  }

  lemma AlikeLinks(s: seq<Frame>, t: seq<Frame>, kept: map<nat, Values>)
    requires Alike(s, t, kept)
    ensures SameLinks(s, t)
  {
    forall i | 0 <= i < |s|
      ensures s[i].ExitFrame? ==> t[i].ExitFrame? && t[i].present == s[i].present
      ensures s[i].UnwindFrame? ==> t[i].UnwindFrame? && t[i].previous == s[i].previous
    {
      assert FrameAlike(s[i], t[i], i, kept);
    }
  }

  /** Completing a statement leaves the chain in place for the next one. */
  lemma CompletedLinks(disturbed: bool, kept: map<nat, Values>, env: map<nat, nat>, m: State, r: (State, Control),
                       vs: Values)
    requires Linked(m, env) && Completed(m, disturbed, kept, r, vs)
    ensures Linked(r.0, env)
  {
    AlikeLinks(if disturbed then Cleared(m.stack, m.uwp) else m.stack, r.0.stack, kept);
    LinkedKept(m, env, r.0);
  }

  lemma SimulateAct(e: nat, vs: Values, env: map<nat, nat>, m: State, junk: MV)
    requires Linked(m, env)
    ensures Simulates(Act(e, vs), env, m, Exec(Act(e, vs), env, m, junk))
  {
    ReturnedValues(m.rv, vs);
    assert Frames(env, map[]) == map[];
  }

  /** The machine agrees with the exception semantics on every tame program. */
  lemma {:induction false} Simulation(s: Stmt, env: map<nat, nat>, m: State, junk: MV)
    requires WellFormed(s, env.Keys) && Tame(s) && Linked(m, env)
    ensures Simulates(s, env, m, Exec(s, env, m, junk))
    decreases s, 2
  {
    match s
    case Act(e, vs) => SimulateAct(e, vs, env, m, junk);
    case Seq(a, b) =>
      Simulation(a, env, m, junk);
      if Eval(a).outcome.Done? { SimulateNext(a, b, env, m, junk); }
    case Branch(t, k, y, n) =>
      Simulation(t, env, m, junk);
      if Eval(t).outcome.Done? {
        SimulateNext(t, if First(Eval(t).outcome.vs) == k then y else n, env, m, junk);
      }
    case Block(l, b) => SimulateBlock(l, b, env, m, junk);
    case Exit(l, vs) => SimulateExit(l, vs, env, m, junk);
    case Protect(b, c) => SimulateProtect(b, c, env, m, junk);
  }

  lemma AlikeTwice(s: seq<Frame>, t: seq<Frame>, u: seq<Frame>, a: map<nat, Values>, b: map<nat, Values>)
    requires Alike(s, t, a) && Alike(t, u, b)
    ensures Alike(s, u, a + b)
  {
    forall i | 0 <= i < |s| ensures FrameAlike(s[i], u[i], i, a + b) {
      assert FrameAlike(s[i], t[i], i, a) && FrameAlike(t[i], u[i], i, b);
    }
  }

  /** A frame of an unwind-protect stays the same, and its destination may change on both sides. */
  lemma AlikeAfter(s: seq<Frame>, t: seq<Frame>, kept: map<nat, Values>, i: nat, f: Frame)
    requires Alike(s, t, kept) && IsUnwind(s, i)
    ensures t[i] == s[i] && i !in kept
    ensures Alike(s[i := f], t[i := f], kept)
  {
    assert FrameAlike(s[i], t[i], i, kept);
    var u, v := s[i := f], t[i := f];
    forall j | 0 <= j < |u| ensures FrameAlike(u[j], v[j], j, kept) {
      assert FrameAlike(s[j], t[j], j, kept);
    }
  }

  /** An exit out of the second of two statements has left both. */
  lemma EscapedAfter(m: State, n: State, d: bool, a: map<nat, Values>, c: map<nat, Values>, r: (State, Control),
                     b: nat, vs: Values)
    requires IsUnwind(m.stack, m.uwp) && IsExit(m.stack, b) && n.uwp == m.uwp
    requires Alike(if d then Cleared(m.stack, m.uwp) else m.stack, n.stack, a)
    requires IsUnwind(n.stack, n.uwp) && IsExit(n.stack, b) && Escaped(n, c, r, b, vs)
    ensures Escaped(m, a + c, r, b, vs)
  {
    var s := if d then Cleared(m.stack, m.uwp) else m.stack;
    AlikeAfter(s, n.stack, a, m.uwp, s[m.uwp].(ultimate := None));
    assert FrameAlike(s[b], n.stack[b], b, a);
    assert (a + c)[b := vs] == a + c[b := vs];
    if m.stack[b].present == m.uwp {
      AlikeTwice(Cleared(m.stack, m.uwp), Cleared(n.stack, m.uwp), r.0.stack, a, c[b := vs]);
    } else {
      var prev, popped := m.stack[m.uwp].previous, r.0.stack[m.uwp];
      AlikeAfter(s, n.stack, a, prev, s[prev].(ultimate := Some(b)));
      var x, y := s[prev := s[prev].(ultimate := Some(b))], n.stack[prev := n.stack[prev].(ultimate := Some(b))];
      AlikeAfter(x, y, a, m.uwp, popped);
      assert Told(m, b, popped) == x[m.uwp := popped];
      AlikeTwice(x[m.uwp := popped], y[m.uwp := popped], r.0.stack, a, c[b := vs]);
    }
  }

  lemma CompletedTwice(m: State, da: bool, db: bool, a: map<nat, Values>, b: map<nat, Values>,
                       ra: (State, Control), rb: (State, Control), va: Values, vb: Values)
    requires IsUnwind(m.stack, m.uwp) && IsUnwind(ra.0.stack, ra.0.uwp)
    requires Completed(m, da, a, ra, va) && Completed(ra.0, db, b, rb, vb)
    ensures Completed(m, da || db, a + b, rb, vb)
  {
    var s, t := if da then Cleared(m.stack, m.uwp) else m.stack, ra.0.stack;
    AlikeAfter(s, t, a, m.uwp, s[m.uwp].(ultimate := None));
    if db {
      assert Cleared(s, m.uwp) == Cleared(m.stack, m.uwp);
      AlikeTwice(Cleared(m.stack, m.uwp), Cleared(t, m.uwp), rb.0.stack, a, b);
    } else {
      AlikeTwice(s, t, rb.0.stack, a, b);
    }
  }

  /** `b` runs after `a` has completed. */
  lemma {:induction false} SimulateNext(a: Stmt, b: Stmt, env: map<nat, nat>, m: State, junk: MV)
    requires WellFormed(b, env.Keys) && Tame(b) && Linked(m, env)
    requires Eval(a).outcome.Done? && Simulates(a, env, m, Exec(a, env, m, junk))
    ensures Realizes(Behaviour(Eval(a).events + Eval(b).events, Eval(b).outcome), Disturbs(a) || Disturbs(b),
                     Frames(env, Abandons(a) + Abandons(b)), env, m, Exec(b, env, Exec(a, env, m, junk).0, junk))
    decreases b, 3
  {
    var ra := Exec(a, env, m, junk);
    CompletedLinks(Disturbs(a), Frames(env, Abandons(a)), env, m, ra, Eval(a).outcome.vs);
    Simulation(b, env, ra.0, junk);
    RealizesNext(a, b, env, m, ra, Exec(b, env, ra.0, junk));
  }

  lemma FramesAt(env: map<nat, nat>, kept: map<nat, Values>, l: nat)
    requires Injective(env) && l in env
    ensures env[l] in Frames(env, kept) <==> l in kept
    ensures l in kept ==> Frames(env, kept)[env[l]] == kept[l]
  {}

  lemma FramesUnion(env: map<nat, nat>, a: map<nat, Values>, b: map<nat, Values>)
    requires Injective(env)
    ensures Frames(env, a + b) == Frames(env, a) + Frames(env, b)
  {
    var whole, parts := Frames(env, a + b), Frames(env, a) + Frames(env, b);
    forall i: nat ensures SameAt(whole, parts, i) {
      if l :| l in env && env[l] == i {
        FramesAt(env, a + b, l);
        FramesAt(env, a, l);
        FramesAt(env, b, l);
      }
    }
    SameEverywhere(whole, parts);
  }

  lemma SameEverywhere(a: map<nat, Values>, b: map<nat, Values>)
    requires forall i: nat :: SameAt(a, b, i)
    ensures a == b
  {
    forall i: nat ensures i in a <==> i in b { assert SameAt(a, b, i); }
    forall i: nat | i in a ensures a[i] == b[i] { assert SameAt(a, b, i); }
  }

  lemma FramesOne(env: map<nat, nat>, kept: map<nat, Values>, l: nat, vs: Values)
    requires Injective(env) && l in env
    ensures Frames(env, kept[l := vs]) == Frames(env, kept)[env[l] := vs]
  {
    var one, other := Frames(env, kept[l := vs]), Frames(env, kept)[env[l] := vs];
    forall i: nat ensures SameAt(one, other, i) {
      if k :| k in env && env[k] == i {
        FramesAt(env, kept[l := vs], k);
        FramesAt(env, kept, k);
      }
    }
    SameEverywhere(one, other);
  }

  lemma RealizesNext(a: Stmt, b: Stmt, env: map<nat, nat>, m: State, ra: (State, Control), rb: (State, Control))
    requires Linked(m, env) && Linked(ra.0, env) && Eval(a).outcome.Done?
    requires Simulates(a, env, m, ra) && Simulates(b, env, ra.0, rb)
    ensures Realizes(Behaviour(Eval(a).events + Eval(b).events, Eval(b).outcome), Disturbs(a) || Disturbs(b),
                     Frames(env, Abandons(a) + Abandons(b)), env, m, rb)
  {
    FramesUnion(env, Abandons(a), Abandons(b));
    RealizesBoth(Eval(a), Disturbs(a), Frames(env, Abandons(a)),
                 Eval(b), Disturbs(b), Frames(env, Abandons(b)), env, m, ra, rb);
  }

  lemma RealizesBoth(ea: Behaviour, da: bool, ka: map<nat, Values>, eb: Behaviour, db: bool, kb: map<nat, Values>,
                     env: map<nat, nat>, m: State, ra: (State, Control), rb: (State, Control))
    requires Linked(m, env) && Linked(ra.0, env) && ea.outcome.Done?
    requires Realizes(ea, da, ka, env, m, ra) && Realizes(eb, db, kb, env, ra.0, rb)
    ensures Realizes(Behaviour(ea.events + eb.events, eb.outcome), da || db, ka + kb, env, m, rb)
  {
    assert (m.trace + ea.events) + eb.events == m.trace + (ea.events + eb.events);
    match eb.outcome
    case Raise(l, vs) => EscapedAfter(m, ra.0, da, ka, kb, rb, env[l], vs);
    case Done(vs) => CompletedTwice(m, da, db, ka, kb, ra, rb, ea.outcome.vs, vs);
  }

  /** An exit that escaped from a scope set up on top of `m`, where `below` was kept before, has
      escaped from `m`. */
  lemma EscapedOutside(m: State, n: State, below: map<nat, Values>, above: map<nat, Values>, kept: map<nat, Values>,
                       r: (State, Control), f: nat, vs: Values)
    requires |n.stack| == |m.stack| + 1 && n.uwp == m.uwp && IsUnwind(m.stack, m.uwp) && IsExit(m.stack, f)
    requires forall i | 0 <= i < |m.stack| && i != m.uwp :: FrameAlike(m.stack[i], n.stack[i], i, below)
    requires IsUnwind(n.stack, m.uwp) && n.stack[m.uwp] == m.stack[m.uwp].(ultimate := n.stack[m.uwp].ultimate)
    requires forall i | 0 <= i < |m.stack| && i != f :: SameAt(kept, below + above, i)
    requires m.uwp !in below && IsExit(n.stack, f) && Escaped(n, above, r, f, vs)
    ensures Escaped(m, kept, Leave(r, |m.stack|), f, vs)
  {
    var base, out := |m.stack|, Leave(r, |m.stack|);
    assert FrameAlike(m.stack[f], n.stack[f], f, below);
    if m.stack[f].present == m.uwp {
      forall i | 0 <= i < base ensures FrameAlike(Cleared(m.stack, m.uwp)[i], out.0.stack[i], i, kept[f := vs]) {
        assert FrameAlike(Cleared(n.stack, m.uwp)[i], r.0.stack[i], i, above[f := vs]);
        if i != m.uwp { assert FrameAlike(m.stack[i], n.stack[i], i, below); }
        if i != f { assert SameAt(kept, below + above, i); }
      }
    } else {
      var prev := m.stack[m.uwp].previous;
      assert prev < base && FrameAlike(m.stack[prev], n.stack[prev], prev, below);
      ToldOutside(m, n, below, above, kept, r, f, vs);
    }
  }

  lemma ToldOutside(m: State, n: State, below: map<nat, Values>, above: map<nat, Values>, kept: map<nat, Values>,
                    r: (State, Control), f: nat, vs: Values)
    requires |n.stack| == |m.stack| + 1 == |r.0.stack| && n.uwp == m.uwp
    requires IsUnwind(m.stack, m.uwp) && IsUnwind(n.stack, m.uwp)
    requires var prev := m.stack[m.uwp].previous;
             n.stack[m.uwp].previous == prev && prev < m.uwp && IsUnwind(n.stack, prev) &&
             m.stack[prev] == n.stack[prev]
    requires forall i | 0 <= i < |m.stack| && i != m.uwp :: FrameAlike(m.stack[i], n.stack[i], i, below)
    requires forall i | 0 <= i < |m.stack| && i != f :: SameAt(kept, below + above, i)
    requires m.uwp !in below && f != m.uwp && Alike(Told(n, f, r.0.stack[m.uwp]), r.0.stack, above[f := vs])
    ensures Alike(Told(m, f, r.0.stack[m.uwp]), r.0.stack[..|m.stack|], kept[f := vs])
  {
    var told := Told(m, f, r.0.stack[m.uwp]);
    forall i | 0 <= i < |m.stack| ensures FrameAlike(told[i], r.0.stack[i], i, kept[f := vs]) {
      assert FrameAlike(Told(n, f, r.0.stack[m.uwp])[i], r.0.stack[i], i, above[f := vs]);
      if i != m.uwp { assert FrameAlike(m.stack[i], n.stack[i], i, below); }
      if i != f { assert SameAt(kept, below + above, i); }
    }
  }

  lemma BlockFrames(l: nat, kept: map<nat, Values>, env: map<nat, nat>, base: nat, i: nat)
    requires Injective(env) && (forall k <- env :: env[k] < base) && i < base
    ensures Injective(env[l := base]) && SameAt(Frames(env, kept - {l}), Frames(env[l := base], kept), i)
  {
    var inner := env[l := base];
    if i in Frames(inner, kept) {
      var k :| k in kept && k in inner && inner[k] == i;
      FramesAt(inner, kept, k);
      FramesAt(env, kept - {l}, k);
    } else {
      forall k | k in kept && k != l && k in env ensures env[k] != i { FramesAt(inner, kept, k); }
    }
  }

  lemma AllBlockFrames(l: nat, kept: map<nat, Values>, env: map<nat, nat>, base: nat, below: map<nat, Values>,
                       above: map<nat, Values>)
    requires Injective(env) && (forall k <- env :: env[k] < base) && Injective(env[l := base])
    requires below == Frames(env, kept - {l}) && above == Frames(env[l := base], kept)
    ensures forall i: nat | i < base :: SameAt(below, above, i)
  {
    forall i: nat | i < base ensures SameAt(below, above, i) {
      BlockFrames(l, kept, env, base, i);
    }
  }

  lemma BlockUnfolds(l: nat, b: Stmt, env: map<nat, nat>, m: State, junk: MV)
    ensures var base := |m.stack|; var r := Exec(b, env[l := base], SetupExitFrame(m, junk), junk);
            Exec(Block(l, b), env, m, junk) == Leave(if r.1 == LongJump(base) then FrameRetval(r.0, base) else r, base)
  {}

  lemma {:induction false} SimulateBlock(l: nat, b: Stmt, env: map<nat, nat>, m: State, junk: MV)
    requires WellFormed(b, env.Keys + {l}) && Tame(b) && Linked(m, env)
    ensures Simulates(Block(l, b), env, m, Exec(Block(l, b), env, m, junk))
    decreases Block(l, b), 1
  {
    var n, inner := SetupExitFrame(m, junk), env[l := |m.stack|];
    assert inner.Keys == env.Keys + {l};
    EnterBlock(l, env, m, junk);
    Simulation(b, inner, n, junk);
    BlockUnfolds(l, b, env, m, junk);
    FinishBlock(l, b, env, m, n, Exec(b, inner, n, junk), junk);
  }

  lemma FinishBlock(l: nat, b: Stmt, env: map<nat, nat>, m: State, n: State, r: (State, Control), junk: MV)
    requires Linked(m, env) && n == SetupExitFrame(m, junk) && Linked(n, env[l := |m.stack|])
    requires Simulates(b, env[l := |m.stack|], n, r)
    ensures Simulates(Block(l, b), env, m,
                      Leave(if r.1 == LongJump(|m.stack|) then FrameRetval(r.0, |m.stack|) else r, |m.stack|))
  {
    var out := Leave(if r.1 == LongJump(|m.stack|) then FrameRetval(r.0, |m.stack|) else r, |m.stack|);
    var above, kept := Frames(env[l := |m.stack|], Abandons(b)), Frames(env, Abandons(b) - {l});
    AllBlockFrames(l, Abandons(b), env, |m.stack|, kept, above);
    if Eval(b).outcome.Raise? { LandingDisturbs(b); }
    BlockMeans(l, Eval(b), Disturbs(b), above, kept, env, m, n, r, junk);
    BlockIs(l, b);
    SimulatesBy(Block(l, b), env, m, out, Catch(l, Eval(b)), Disturbs(b), Abandons(b) - {l});
  }

  lemma BlockIs(l: nat, b: Stmt)
    ensures Eval(Block(l, b)) == Catch(l, Eval(b)) && Disturbs(Block(l, b)) == Disturbs(b)
    ensures Abandons(Block(l, b)) == Abandons(b) - {l}
  {}

  lemma SimulatesBy(s: Stmt, env: map<nat, nat>, m: State, r: (State, Control), e: Behaviour, d: bool,
                    kept: map<nat, Values>)
    requires Linked(m, env) && Eval(s) == e && Disturbs(s) == d && Abandons(s) == kept
    requires Realizes(e, d, Frames(env, kept), env, m, r)
    ensures Simulates(s, env, m, r)
  {}

  /** What a block makes of a body that behaves like `e`. */
  function Catch(l: nat, e: Behaviour): Behaviour {
    match e.outcome
    case Raise(k, vs) => if k == l then Behaviour(e.events, Done(vs)) else e
    case Done(_) => e
  }

  lemma BlockMeans(l: nat, e: Behaviour, d: bool, above: map<nat, Values>, kept: map<nat, Values>, env: map<nat, nat>,
                   m: State, n: State, r: (State, Control), junk: MV)
    requires Linked(m, env) && n == SetupExitFrame(m, junk) && Linked(n, env[l := |m.stack|])
    requires Realizes(e, d, above, env[l := |m.stack|], n, r) && (e.outcome.Raise? ==> d)
    requires forall i: nat | i < |m.stack| :: SameAt(kept, above, i)
    ensures Realizes(Catch(l, e), d, kept, env, m,
                     Leave(if r.1 == LongJump(|m.stack|) then FrameRetval(r.0, |m.stack|) else r, |m.stack|))
  {
    var base := |m.stack|;
    match e.outcome
    case Done(vs) => CompletedOutside(m, n, d, above, kept, r, vs);
    case Raise(k, vs) =>
      if k == l {
        LandsInBlock(m, n, above, kept, r, vs);
      } else {
        assert map[] + above == above;
        EscapedOutside(m, n, map[], above, kept, r, env[k], vs);
        ReachesBelow(m.stack, m.uwp, m.stack[env[k]].present);
      }
  }

  lemma CompletedOutside(m: State, n: State, d: bool, above: map<nat, Values>, kept: map<nat, Values>,
                         r: (State, Control), vs: Values)
    requires IsUnwind(m.stack, m.uwp) && |n.stack| == |m.stack| + 1 && n.stack[..|m.stack|] == m.stack && n.uwp == m.uwp
    requires IsUnwind(n.stack, n.uwp) && Completed(n, d, above, r, vs)
    requires forall i: nat | i < |m.stack| :: SameAt(kept, above, i)
    ensures Completed(m, d, kept, Leave(r, |m.stack|), vs)
  {
    var out := Leave(r, |m.stack|);
    var was := if d then Cleared(m.stack, m.uwp) else m.stack;
    forall i | 0 <= i < |m.stack| ensures FrameAlike(was[i], out.0.stack[i], i, kept) {
      assert n.stack[i] == n.stack[..|m.stack|][i];
      assert FrameAlike((if d then Cleared(n.stack, n.uwp) else n.stack)[i], r.0.stack[i], i, above) &&
             SameAt(kept, above, i);
    }
  }

  /** An exit that has reached the block it names delivers its values there. */
  lemma LandsInBlock(m: State, n: State, above: map<nat, Values>, kept: map<nat, Values>, r: (State, Control),
                     vs: Values)
    requires IsUnwind(m.stack, m.uwp) && |n.stack| == |m.stack| + 1 && n.stack[..|m.stack|] == m.stack && n.uwp == m.uwp
    requires IsUnwind(n.stack, n.uwp) && IsExit(n.stack, |m.stack|) && n.stack[|m.stack|].present == m.uwp
    requires Escaped(n, above, r, |m.stack|, vs)
    requires forall i: nat | i < |m.stack| :: SameAt(kept, above, i)
    ensures Completed(m, true, kept, Leave(FrameRetval(r.0, |m.stack|), |m.stack|), vs)
    ensures r.1 == LongJump(|m.stack|) && Leave(FrameRetval(r.0, |m.stack|), |m.stack|).0.trace == r.0.trace
  {
    var base := |m.stack|;
    assert FrameAlike(Cleared(n.stack, m.uwp)[base], r.0.stack[base], base, above[base := vs]);
    RefilledValues(r.0.rv, r.0.stack[base].returnValues, vs);
    var out := Leave(FrameRetval(r.0, base), base);
    forall i | 0 <= i < base ensures FrameAlike(Cleared(m.stack, m.uwp)[i], out.0.stack[i], i, kept) {
      assert n.stack[i] == n.stack[..base][i];
      assert FrameAlike(Cleared(n.stack, m.uwp)[i], r.0.stack[i], i, above[base := vs]) && SameAt(kept, above, i);
    }
  }

  /** An exit that is in flight has disturbed the level it started at. */
  lemma {:induction false} LandingDisturbs(b: Stmt)
    requires Eval(b).outcome.Raise?
    ensures Disturbs(b)
  {
    match b
    case Seq(a, c) => if Eval(a).outcome.Raise? { LandingDisturbs(a); } else { LandingDisturbs(c); }
    case Branch(t, k, y, n) =>
      if Eval(t).outcome.Raise? { LandingDisturbs(t); }
      else if First(Eval(t).outcome.vs) == k { LandingDisturbs(y); } else { LandingDisturbs(n); }
    case Block(_, c) => LandingDisturbs(c);
    case Exit(_, _) =>
    case Protect(_, _) =>
  }

  // ---------------------------------------------------------------- unwind-protect

  /** The body completed: its values are saved in the frame, which is still on the chain. */
  ghost predicate Fallen(m: State, kept: map<nat, Values>, n: State, vs: Values) {
    n.uwp == |m.stack| && |n.stack| == |m.stack| + 1 && AlikeBelow(m.stack, n.stack, |m.stack|, kept) &&
    IsUnwind(n.stack, n.uwp) && n.stack[n.uwp].ultimate == None && n.stack[n.uwp].previous == m.uwp &&
    Holds(n.stack[n.uwp], vs)
  }

  /** An exit left the body: the frame is off the chain and its predecessor knows the destination. */
  ghost predicate Unwound(m: State, kept: map<nat, Values>, n: State, f: nat, vs: Values)
    requires IsUnwind(m.stack, m.uwp) && IsExit(m.stack, f)
  {
    n.uwp == m.uwp && |n.stack| == |m.stack| + 1 && m.uwp !in kept &&
    n.stack[m.uwp] == m.stack[m.uwp].(ultimate := Some(f)) &&
    forall i | 0 <= i < |m.stack| && i != m.uwp :: FrameAlike(m.stack[i], n.stack[i], i, kept[f := vs])
  }

  lemma ProtectUnfolds(b: Stmt, c: Stmt, env: map<nat, nat>, m: State, junk: MV)
    requires var r := Exec(b, env, SetupUnwindFrame(m, junk), junk); r.1 == LongJump(|m.stack|) || FallsIn(r)
    ensures Exec(Protect(b, c), env, m, junk)
         == Leave(EnterCleanup(c, env, CleanupStart(Exec(b, env, SetupUnwindFrame(m, junk), junk)), |m.stack|, junk),
                  |m.stack|)
  {
  }

  lemma UnwoundLinks(m: State, kept: map<nat, Values>, n: State, f: nat, vs: Values, env: map<nat, nat>)
    requires Linked(m, env) && IsExit(m.stack, f) && Unwound(m, kept, n, f, vs)
    ensures Linked(n, env) && IsExit(n.stack, f) && n.stack[f].present == m.stack[f].present && Holds(n.stack[f], vs)
  {
    forall i | 0 <= i < |m.stack|
      ensures m.stack[i].ExitFrame? ==> n.stack[i].ExitFrame? && n.stack[i].present == m.stack[i].present
      ensures m.stack[i].UnwindFrame? ==> n.stack[i].UnwindFrame? && n.stack[i].previous == m.stack[i].previous
    {
      if i != m.uwp { assert FrameAlike(m.stack[i], n.stack[i], i, kept[f := vs]); }
    }
    assert SameLinks(m.stack, n.stack);
    LinkedKept(m, env, n);
    assert FrameAlike(m.stack[f], n.stack[f], f, kept[f := vs]);
  }

  /** The body has run; what the cleanup finds. */
  lemma {:induction false} BodyFalls(b: Stmt, env: map<nat, nat>, m: State, junk: MV)
    requires WellFormed(b, env.Keys) && Tame(b) && Linked(m, env) && Eval(b).outcome.Done?
    ensures var r := Exec(b, env, SetupUnwindFrame(m, junk), junk);
            FallsIn(r) && CleanupStart(r).trace == m.trace + Eval(b).events &&
            Fallen(m, Frames(env, Abandons(b)), CleanupStart(r), Eval(b).outcome.vs) && Linked(CleanupStart(r), env)
    decreases b, 3
  {
    var n := SetupUnwindFrame(m, junk);
    EnterProtect(env, m, junk);
    Simulation(b, env, n, junk);
    BodyFell(Disturbs(b), Frames(env, Abandons(b)), env, m, n, Exec(b, env, n, junk), Eval(b).outcome.vs, junk);
  }

  lemma BodyFell(d: bool, kept: map<nat, Values>, env: map<nat, nat>, m: State, n: State, r: (State, Control),
                 vs: Values, junk: MV)
    requires Linked(m, env) && Linked(n, env) && n == SetupUnwindFrame(m, junk) && Completed(n, d, kept, r, vs)
    ensures FallsIn(r) && CleanupStart(r).trace == r.0.trace
    ensures Fallen(m, kept, CleanupStart(r), vs) && Linked(CleanupStart(r), env)
  {
    CompletedLinks(d, kept, env, n, r, vs);
    var was, base := if d then Cleared(n.stack, n.uwp) else n.stack, |m.stack|;
    AlikeAfter(was, r.0.stack, kept, base, was[base]);
    SpilledValues(r.0.stack[base].returnValues, r.0.rv, vs);
    var entered := CleanupStart(r);
    LinkedKept(r.0, env, entered);
    forall i | 0 <= i < base ensures FrameAlike(m.stack[i], entered.stack[i], i, kept) {
      assert FrameAlike(was[i], r.0.stack[i], i, kept);
    }
  }

  lemma {:induction false} BodyEscapes(b: Stmt, env: map<nat, nat>, m: State, junk: MV)
    requires WellFormed(b, env.Keys) && Tame(b) && Linked(m, env) && Eval(b).outcome.Raise?
    ensures var r := Exec(b, env, SetupUnwindFrame(m, junk), junk);
            Eval(b).outcome.target in env && r.1 == LongJump(|m.stack|) && r.0.trace == m.trace + Eval(b).events &&
            Unwound(m, Frames(env, Abandons(b)), r.0, env[Eval(b).outcome.target], Eval(b).outcome.vs) &&
            Linked(r.0, env)
    decreases b, 3
  {
    var n := SetupUnwindFrame(m, junk);
    EnterProtect(env, m, junk);
    Simulation(b, env, n, junk);
    var f := env[Eval(b).outcome.target];
    NoUnwindKept(env, Abandons(b), m);
    ReachesBelow(m.stack, m.uwp, m.stack[f].present);
    BodyEscaped(Frames(env, Abandons(b)), env, m, n, Exec(b, env, n, junk), f, Eval(b).outcome.vs, junk);
  }

  /** Values are kept in the frames of blocks only. */
  lemma NoUnwindKept(env: map<nat, nat>, kept: map<nat, Values>, m: State)
    requires Linked(m, env)
    ensures m.uwp !in Frames(env, kept)
  {}

  lemma BodyEscaped(kept: map<nat, Values>, env: map<nat, nat>, m: State, n: State, r: (State, Control), f: nat,
                    vs: Values, junk: MV)
    requires Linked(m, env) && n == SetupUnwindFrame(m, junk)
    requires IsExit(m.stack, f) && m.stack[f].present <= m.uwp && m.uwp !in kept
    requires n.uwp == |m.stack| && IsExit(n.stack, f) && IsUnwind(n.stack, n.uwp) && Escaped(n, kept, r, f, vs)
    ensures r.1 == LongJump(|m.stack|) && Unwound(m, kept, r.0, f, vs) && Linked(r.0, env)
  {
    var told := Told(n, f, r.0.stack[|m.stack|]);
    assert FrameAlike(told[m.uwp], r.0.stack[m.uwp], m.uwp, kept[f := vs]);
    forall i | 0 <= i < |m.stack| && i != m.uwp ensures FrameAlike(m.stack[i], r.0.stack[i], i, kept[f := vs]) {
      assert FrameAlike(told[i], r.0.stack[i], i, kept[f := vs]) && told[i] == m.stack[i];
    }
    UnwoundLinks(m, kept, r.0, f, vs, env);
  }

  lemma {:induction false} SimulateProtect(b: Stmt, c: Stmt, env: map<nat, nat>, m: State, junk: MV)
    requires WellFormed(b, env.Keys) && WellFormed(c, env.Keys) && Linked(m, env)
    requires Tame(b) && Tame(c) && GoesRight(b, c)
    ensures Simulates(Protect(b, c), env, m, Exec(Protect(b, c), env, m, junk))
    decreases Protect(b, c), 1
  {
    if Eval(b).outcome.Done? { ProtectFalls(b, c, env, m, junk); }
    else if Eval(c).outcome.Done? { ProtectUnwinds(b, c, env, m, junk); }
    else { ProtectSupersedes(b, c, env, m, junk); }
    ProtectMeans(Eval(b), Eval(c), Frames(env, Abandons(Protect(b, c))), env, m, Exec(Protect(b, c), env, m, junk));
  }

  /** How an unwind-protect ends, and what it leaves behind. */
  function Protected(b: Behaviour, c: Behaviour): Behaviour {
    Behaviour(b.events + c.events, if c.outcome.Done? then b.outcome else c.outcome)
  }

  /** What remains to be shown of an unwind-protect. */
  lemma ProtectMeans(b: Behaviour, c: Behaviour, kept: map<nat, Values>, env: map<nat, nat>, m: State,
                     r: (State, Control))
    requires Linked(m, env)
    requires r.0.trace == (m.trace + b.events) + c.events
    requires match Protected(b, c).outcome
             case Done(vs) => Completed(m, false, kept, r, vs)
             case Raise(l, vs) => l in env && Escaped(m, kept, r, env[l], vs)
    ensures Realizes(Protected(b, c), b.outcome.Raise? || c.outcome.Raise?, kept, env, m, r)
  {
    assert r.0.trace == m.trace + (b.events + c.events);
  }

  lemma ProtectKeeps(b: Stmt, c: Stmt, env: map<nat, nat>)
    requires Injective(env) && (Eval(b).outcome.Done? || Eval(c).outcome.Done?)
    ensures Frames(env, Abandons(Protect(b, c))) == Frames(env, Abandons(b)) + Frames(env, Abandons(c))
  {
    FramesUnion(env, Abandons(b), Abandons(c));
  }

  lemma ProtectGivesUp(b: Stmt, c: Stmt, env: map<nat, nat>, l: nat, vs: Values)
    requires Injective(env) && Eval(b).outcome == Raise(l, vs) && Eval(c).outcome.Raise? && l in env
    ensures Frames(env, Abandons(Protect(b, c))) == Frames(env, Abandons(b))[env[l] := vs] + Frames(env, Abandons(c))
  {
    FramesUnion(env, Abandons(b)[l := vs], Abandons(c));
    FramesOne(env, Abandons(b), l, vs);
  }

  /** The body completes: so does the cleanup, or it runs twice and its exit goes on. */
  lemma {:induction false} ProtectFalls(b: Stmt, c: Stmt, env: map<nat, nat>, m: State, junk: MV)
    requires WellFormed(b, env.Keys) && WellFormed(c, env.Keys) && Linked(m, env)
    requires Tame(b) && Tame(c) && Eval(b).outcome.Done?
    ensures var r := Exec(Protect(b, c), env, m, junk); var kept := Frames(env, Abandons(Protect(b, c)));
            match Eval(c).outcome {
              case Done(_) =>
                r.0.trace == (m.trace + Eval(b).events) + Eval(c).events &&
                Completed(m, false, kept, r, Eval(b).outcome.vs)
              case Raise(l, vs) =>
                r.0.trace == ((m.trace + Eval(b).events) + Eval(c).events) + Eval(c).events &&
                l in env && Escaped(m, kept, r, env[l], vs)
            }
    decreases Protect(b, c), 0
  {
    var entered := CleanupStart(Exec(b, env, SetupUnwindFrame(m, junk), junk));
    BodyFalls(b, env, m, junk);
    ProtectKeeps(b, c, env);
    ProtectUnfolds(b, c, env, m, junk);
    RunFallen(c, env, m, Frames(env, Abandons(b)), entered, Eval(b).outcome.vs, junk);
  }

  lemma {:induction false} RunFallen(c: Stmt, env: map<nat, nat>, m: State, kept: map<nat, Values>, entered: State,
                                     vs: Values, junk: MV)
    requires WellFormed(c, env.Keys) && Tame(c) && Linked(m, env) && Linked(entered, env)
    requires Fallen(m, kept, entered, vs)
    ensures var r := Leave(EnterCleanup(c, env, entered, |m.stack|, junk), |m.stack|);
            var all := kept + Frames(env, Abandons(c));
            match Eval(c).outcome {
              case Done(_) => r.0.trace == entered.trace + Eval(c).events && Completed(m, false, all, r, vs)
              case Raise(l, ws) =>
                r.0.trace == (entered.trace + Eval(c).events) + Eval(c).events && l in env &&
                Escaped(m, all, r, env[l], ws)
            }
    decreases c, 5
  {
    if Eval(c).outcome.Done? { FallenCleanup(c, env, m, kept, entered, vs, junk); }
    else { CleanupRepeats(c, env, m, kept, entered, vs, junk); }
  }

  /** The body exits and the cleanup completes: the exit goes on with what its frame holds then,
      or is forgotten. */
  lemma {:induction false} ProtectUnwinds(b: Stmt, c: Stmt, env: map<nat, nat>, m: State, junk: MV)
    requires WellFormed(b, env.Keys) && WellFormed(c, env.Keys) && Linked(m, env) && Tame(b) && Tame(c)
    requires Eval(b).outcome.Raise? && Eval(c).outcome.Done?
    ensures Eval(b).outcome.target in env
    ensures var r := Exec(Protect(b, c), env, m, junk); var l := Eval(b).outcome.target;
            if Disturbs(c) then r.1.Falls?
            else r.0.trace == (m.trace + Eval(b).events) + Eval(c).events &&
                 Escaped(m, Frames(env, Abandons(Protect(b, c))), r, env[l], Delivers(c, l, Eval(b).outcome.vs))
    decreases Protect(b, c), 0
  {
    var entered := Exec(b, env, SetupUnwindFrame(m, junk), junk).0;
    ProtectKeeps(b, c, env);
    BodyEscapes(b, env, m, junk);
    ProtectUnfolds(b, c, env, m, junk);
    var l, vs := Eval(b).outcome.target, Eval(b).outcome.vs;
    FramesAt(env, Abandons(c), l);
    UnwoundCleanup(c, env, m, Frames(env, Abandons(b)), entered, env[l], vs, Delivers(c, l, vs), junk);
  }

  /** Both exit: the cleanup's exit goes on. */
  lemma {:induction false} ProtectSupersedes(b: Stmt, c: Stmt, env: map<nat, nat>, m: State, junk: MV)
    requires WellFormed(b, env.Keys) && WellFormed(c, env.Keys) && Linked(m, env) && Tame(b) && Tame(c)
    requires Eval(b).outcome.Raise? && Eval(c).outcome.Raise?
    ensures Eval(c).outcome.target in env
    ensures var r := Exec(Protect(b, c), env, m, junk);
            r.0.trace == (m.trace + Eval(b).events) + Eval(c).events &&
            Escaped(m, Frames(env, Abandons(Protect(b, c))), r, env[Eval(c).outcome.target], Eval(c).outcome.vs)
    decreases Protect(b, c), 0
  {
    var entered := Exec(b, env, SetupUnwindFrame(m, junk), junk).0;
    BodyEscapes(b, env, m, junk);
    ProtectGivesUp(b, c, env, Eval(b).outcome.target, Eval(b).outcome.vs);
    ProtectUnfolds(b, c, env, m, junk);
    SupersedingExit(c, env, m, Frames(env, Abandons(b)), entered,
                    env[Eval(b).outcome.target], Eval(b).outcome.vs, junk);
  }

  /** A cleanup that was fallen into completes: the values that were saved come back. */
  lemma {:induction false} FallenCleanup(c: Stmt, env: map<nat, nat>, m: State, kept: map<nat, Values>,
                                         entered: State, vs: Values, junk: MV)
    requires WellFormed(c, env.Keys) && Tame(c) && Eval(c).outcome.Done?
    requires IsUnwind(m.stack, m.uwp) && Fallen(m, kept, entered, vs) && Linked(entered, env)
    ensures var out := Leave(EnterCleanup(c, env, entered, |m.stack|, junk), |m.stack|);
            Completed(m, false, kept + Frames(env, Abandons(c)), out, vs) &&
            out.0.trace == entered.trace + Eval(c).events
    decreases c, 3
  {
    Simulation(c, env, entered, junk);
    FallenBack(m, kept, Frames(env, Abandons(c)), entered, Exec(c, env, entered, junk),
               vs, Eval(c).outcome.vs, Disturbs(c));
    assert ExecCleanup(c, env, entered, junk) == ContinueUnwind(Exec(c, env, entered, junk).0);
  }

  lemma FallenBack(m: State, kept: map<nat, Values>, above: map<nat, Values>, entered: State, rc: (State, Control),
                   vs: Values, ws: Values, d: bool)
    requires IsUnwind(m.stack, m.uwp) && Fallen(m, kept, entered, vs) && Completed(entered, d, above, rc, ws)
    ensures ContinueUnwind(rc.0).1.Falls? && ContinueUnwind(rc.0).0.trace == rc.0.trace
    ensures Completed(m, false, kept + above, Leave(ContinueUnwind(rc.0), |m.stack|), vs)
  {
    assert Cleared(entered.stack, entered.uwp) == entered.stack;
    AlikeAfter(entered.stack, rc.0.stack, above, entered.uwp, entered.stack[entered.uwp]);
    RefilledValues(rc.0.rv, entered.stack[entered.uwp].returnValues, vs);
    var out := Leave(ContinueUnwind(rc.0), |m.stack|);
    forall i | 0 <= i < |m.stack| ensures FrameAlike(m.stack[i], out.0.stack[i], i, kept + above) {
      assert FrameAlike(m.stack[i], entered.stack[i], i, kept) && FrameAlike(entered.stack[i], rc.0.stack[i], i, above);
    }
  }

  /** A cleanup completes while an exit to `f` is unwound through it: the exit goes on if its
      destination is still known, with what is in `f` then. */
  lemma {:induction false} UnwoundCleanup(c: Stmt, env: map<nat, nat>, m: State, kept: map<nat, Values>, entered: State,
                                          f: nat, vs: Values, ws: Values, junk: MV)
    requires WellFormed(c, env.Keys) && Tame(c) && Eval(c).outcome.Done?
    requires Linked(m, env) && Linked(entered, env)
    requires IsExit(m.stack, f) && Reaches(m.stack, m.uwp, m.stack[f].present) && Unwound(m, kept, entered, f, vs)
    requires ws == if f in Frames(env, Abandons(c)) then Frames(env, Abandons(c))[f] else vs
    ensures var out := Leave(EnterCleanup(c, env, entered, |m.stack|, junk), |m.stack|);
            if Disturbs(c) then out.1.Falls?
            else
              Escaped(m, kept + Frames(env, Abandons(c)), out, f, ws) &&
              out.0.trace == entered.trace + Eval(c).events
    decreases c, 3
  {
    Simulation(c, env, entered, junk);
    NoUnwindKept(env, Abandons(c), entered);
    var rc := Exec(c, env, entered, junk);
    UnwoundEnds(m, kept, Frames(env, Abandons(c)), entered, rc, Disturbs(c), f, vs, ws, Eval(c).outcome.vs);
    assert ExecCleanup(c, env, entered, junk) == ContinueUnwind(rc.0);
  }

  lemma UnwoundEnds(m: State, kept: map<nat, Values>, above: map<nat, Values>, entered: State,
                    rc: (State, Control), d: bool, f: nat, vs: Values, ws: Values, cs: Values)
    requires IsUnwind(m.stack, m.uwp) && IsExit(m.stack, f) && Reaches(m.stack, m.uwp, m.stack[f].present)
    requires Unwound(m, kept, entered, f, vs)
    requires IsUnwind(entered.stack, entered.uwp) && Completed(entered, d, above, rc, cs)
    requires m.uwp !in above && ws == if f in above then above[f] else vs
    ensures var out := ContinueUnwind(rc.0);
            out.0.trace == rc.0.trace && out.1 != LongJump(|m.stack|) &&
            if d then out.1.Falls? else Escaped(m, kept + above, Leave(out, |m.stack|), f, ws)
  {
    var was := if d then Cleared(entered.stack, entered.uwp) else entered.stack;
    AlikeAfter(was, rc.0.stack, above, m.uwp, was[m.uwp]);
    if !d { UnwoundOn(m, kept, above, entered, rc.0, f, vs, ws); }
  }

  lemma UnwoundOn(m: State, kept: map<nat, Values>, above: map<nat, Values>, entered: State, n: State, f: nat,
                  vs: Values, ws: Values)
    requires IsUnwind(m.stack, m.uwp) && IsExit(m.stack, f) && Reaches(m.stack, m.uwp, m.stack[f].present)
    requires Unwound(m, kept, entered, f, vs)
    requires Alike(entered.stack, n.stack, above) && n.uwp == m.uwp && m.uwp !in above
    requires ws == if f in above then above[f] else vs
    ensures Escaped(m, kept + above, Leave(NlxStep(n, f), |m.stack|), f, ws) && NlxStep(n, f).1 != LongJump(|m.stack|)
    ensures NlxStep(n, f).0.trace == n.trace
  {
    assert FrameAlike(entered.stack[m.uwp], n.stack[m.uwp], m.uwp, above);
    forall i | 0 <= i < |m.stack| && i != m.uwp
      ensures FrameAlike(m.stack[i], n.stack[i], i, (kept + above)[f := ws])
    {
      assert FrameAlike(m.stack[i], entered.stack[i], i, kept[f := vs]) &&
             FrameAlike(entered.stack[i], n.stack[i], i, above);
    }
    UnwindStep(m, n, kept + above, f, ws);
  }

  /** The cleanup is over (`n`) and left what matters alone; the exit goes on. */
  lemma UnwindStep(m: State, n: State, kept: map<nat, Values>, f: nat, vs: Values)
    requires IsUnwind(m.stack, m.uwp) && IsExit(m.stack, f) && Reaches(m.stack, m.uwp, m.stack[f].present)
    requires n.uwp == m.uwp && |n.stack| == |m.stack| + 1 && m.uwp !in kept
    requires n.stack[m.uwp] == m.stack[m.uwp].(ultimate := Some(f))
    requires forall i | 0 <= i < |m.stack| && i != m.uwp :: FrameAlike(m.stack[i], n.stack[i], i, kept[f := vs])
    ensures Escaped(m, kept, Leave(NlxStep(n, f), |m.stack|), f, vs) && NlxStep(n, f).1 != LongJump(|m.stack|)
    ensures NlxStep(n, f).0.trace == n.trace
  {
    var base := |m.stack|;
    var cut := n.(stack := n.stack[..base]);
    StepEscapes(m, cut, kept, f, vs);
    assert FrameAlike(m.stack[f], n.stack[f], f, kept[f := vs]);
    if m.stack[f].present != m.uwp {
      var prev := m.stack[m.uwp].previous;
      assert Reaches(m.stack, prev, m.stack[f].present);
      assert FrameAlike(m.stack[prev], n.stack[prev], prev, kept[f := vs]);
    }
    StepIgnoresTop(m, n, f, base);
  }

  /** Frames above `base` play no part in a step that starts below it. */
  lemma StepIgnoresTop(m: State, n: State, b: nat, base: nat)
    requires base == |m.stack| <= |n.stack| && IsUnwind(m.stack, m.uwp) && IsExit(m.stack, b)
    requires n.uwp == m.uwp && IsExit(n.stack, b) && n.stack[b].present == m.stack[b].present
    requires IsUnwind(n.stack, m.uwp) && n.stack[m.uwp].previous == m.stack[m.uwp].previous
    requires m.stack[b].present != m.uwp ==>
             m.stack[m.uwp].previous < base && IsUnwind(n.stack, m.stack[m.uwp].previous)
    ensures Leave(NlxStep(n, b), base) == NlxStep(n.(stack := n.stack[..base]), b)
  {
    var cut := n.(stack := n.stack[..base]);
    assert Leave(NlxStep(n, b), base).0.stack == NlxStep(cut, b).0.stack;
  }

  /** A cleanup that exits while an exit to `f` is unwound through it: its own exit goes on. */
  lemma {:induction false} SupersedingExit(c: Stmt, env: map<nat, nat>, m: State, kept: map<nat, Values>,
                                           entered: State, f: nat, vs: Values, junk: MV)
    requires WellFormed(c, env.Keys) && Tame(c) && Eval(c).outcome.Raise? && Linked(m, env) && Linked(entered, env)
    requires IsExit(m.stack, f) && Unwound(m, kept, entered, f, vs)
    ensures var out := Leave(EnterCleanup(c, env, entered, |m.stack|, junk), |m.stack|);
            Eval(c).outcome.target in env && out.0.trace == entered.trace + Eval(c).events &&
            Escaped(m, kept[f := vs] + Frames(env, Abandons(c)), out, env[Eval(c).outcome.target], Eval(c).outcome.vs)
    decreases c, 3
  {
    Simulation(c, env, entered, junk);
    var once := Exec(c, env, entered, junk);
    var g := env[Eval(c).outcome.target];
    ReachesBelow(m.stack, m.uwp, m.stack[g].present);
    Supersedes(m, kept, Frames(env, Abandons(c)), entered, once, f, vs, g, Eval(c).outcome.vs);
  }

  lemma Supersedes(m: State, kept: map<nat, Values>, above: map<nat, Values>, entered: State, once: (State, Control),
                   f: nat, vs: Values, g: nat, ws: Values)
    requires IsUnwind(m.stack, m.uwp) && IsExit(m.stack, f) && IsExit(m.stack, g) && Unwound(m, kept, entered, f, vs)
    requires IsUnwind(entered.stack, entered.uwp) && IsExit(entered.stack, g) && Escaped(entered, above, once, g, ws)
    ensures Escaped(m, kept[f := vs] + above, Leave(once, |m.stack|), g, ws)
    ensures once.1.LongJump? && once.1 != LongJump(|m.stack|)
  {
    EscapedOutside(m, entered, kept[f := vs], above, kept[f := vs] + above, once, g, ws);
  }

  /** A cleanup that is fallen into exits for the first time: control is at its own frame again. */
  lemma {:induction false} FallenExit(c: Stmt, env: map<nat, nat>, m: State, kept: map<nat, Values>, entered: State,
                                      vs: Values, junk: MV)
    requires WellFormed(c, env.Keys) && Tame(c) && Eval(c).outcome.Raise? && Linked(m, env) && Linked(entered, env)
    requires Fallen(m, kept, entered, vs)
    ensures var once := Exec(c, env, entered, junk);
            Eval(c).outcome.target in env && once.0.trace == entered.trace + Eval(c).events &&
            once.1 == LongJump(|m.stack|) &&
            Unwound(m, kept + Frames(env, Abandons(c)), once.0, env[Eval(c).outcome.target], Eval(c).outcome.vs)
    decreases c, 3
  {
    Simulation(c, env, entered, junk);
    var f := env[Eval(c).outcome.target];
    ReachesBelow(m.stack, m.uwp, m.stack[f].present);
    NoUnwindKept(env, Abandons(c), m);
    FirstTime(m, kept, Frames(env, Abandons(c)), entered, vs, Exec(c, env, entered, junk), f, Eval(c).outcome.vs);
  }

  /** It is run again from its own `setjmp`, and then its exit goes on. */
  lemma {:induction false} CleanupRepeats(c: Stmt, env: map<nat, nat>, m: State, kept: map<nat, Values>,
                                          entered: State, vs: Values, junk: MV)
    requires WellFormed(c, env.Keys) && Tame(c) && Eval(c).outcome.Raise? && Linked(m, env) && Linked(entered, env)
    requires Fallen(m, kept, entered, vs)
    ensures var out := Leave(EnterCleanup(c, env, entered, |m.stack|, junk), |m.stack|);
            out.0.trace == (entered.trace + Eval(c).events) + Eval(c).events && Eval(c).outcome.target in env &&
            Escaped(m, kept + Frames(env, Abandons(c)), out, env[Eval(c).outcome.target], Eval(c).outcome.vs)
    decreases c, 4
  {
    FallenExit(c, env, m, kept, entered, vs, junk);
    var once := Exec(c, env, entered, junk);
    var f, ws := env[Eval(c).outcome.target], Eval(c).outcome.vs;
    UnwoundLinks(m, kept + Frames(env, Abandons(c)), once.0, f, ws, env);
    Simulation(c, env, once.0, junk);
    SecondTime(m, kept, Frames(env, Abandons(c)), once.0, Exec(c, env, once.0, junk), f, ws);
  }

  lemma SecondTime(m: State, kept: map<nat, Values>, above: map<nat, Values>, again: State, twice: (State, Control),
                   f: nat, ws: Values)
    requires IsUnwind(m.stack, m.uwp) && IsExit(m.stack, f) && Unwound(m, kept + above, again, f, ws)
    requires IsExit(again.stack, f) && IsUnwind(again.stack, again.uwp) && Escaped(again, above, twice, f, ws)
    ensures Escaped(m, kept + above, Leave(twice, |m.stack|), f, ws) && twice.1.LongJump?
  {
    EscapedOutside(m, again, (kept + above)[f := ws], above, kept + above, twice, f, ws);
  }

  lemma FirstTime(m: State, kept: map<nat, Values>, above: map<nat, Values>, entered: State, vs: Values,
                  once: (State, Control), f: nat, ws: Values)
    requires IsUnwind(m.stack, m.uwp) && IsExit(m.stack, f) && m.stack[f].present <= m.uwp && m.uwp !in above
    requires Fallen(m, kept, entered, vs) && IsExit(entered.stack, f) && Escaped(entered, above, once, f, ws)
    ensures once.1 == LongJump(|m.stack|) && Unwound(m, kept + above, once.0, f, ws)
  {
    assert FrameAlike(m.stack[f], entered.stack[f], f, kept) &&
           FrameAlike(m.stack[m.uwp], entered.stack[m.uwp], m.uwp, kept);
    var told := Told(entered, f, once.0.stack[|m.stack|]);
    assert FrameAlike(told[m.uwp], once.0.stack[m.uwp], m.uwp, above[f := ws]);
    forall i | 0 <= i < |m.stack| && i != m.uwp
      ensures FrameAlike(m.stack[i], once.0.stack[i], i, (kept + above)[f := ws])
    {
      assert FrameAlike(m.stack[i], entered.stack[i], i, kept);
      assert FrameAlike(told[i], once.0.stack[i], i, above[f := ws]) && told[i] == entered.stack[i];
    }
  }

  // ---------------------------------------------------------------- consequences

  /** A fresh TEB: zeroed, with only the frame embedded in it on the chain. */
  const ZEROED: MV := MV(0, seq(VALUES_MAX, _ => 0))
  const TOP: nat := 1
  const FRESH: State := State(ZEROED, TOP, [NoFrame, UnwindFrame(ZEROED, None, 0)], [])

  /** A whole tame program behaves as the exception semantics says: every exit is caught, each
      cleanup it crosses has run once in order, and the values arrive.  Nothing is left behind. */
  lemma ProgramSimulation(s: Stmt, junk: MV)
    requires WellFormed(s, {}) && Tame(s)
    ensures Eval(s).outcome.Done?
    ensures var r := Exec(s, map[], FRESH, junk);
            r.0.trace == Eval(s).events && r.1 == Falls(First(Eval(s).outcome.vs)) &&
            Result(r.1.v, r.0.rv) == Eval(s).outcome.vs && r.0.uwp == TOP && r.0.stack == FRESH.stack
  {
    RaisesInScope(s, {});
    var none: map<nat, nat> := map[];
    assert none.Keys == {};
    Simulation(s, none, FRESH, junk);
    assert Frames(none, Abandons(s)) == map[];
    FreshAgain(Disturbs(s), Exec(s, none, FRESH, junk), Eval(s).outcome.vs);
  }

  lemma FreshAgain(d: bool, r: (State, Control), vs: Values)
    requires Completed(FRESH, d, map[], r, vs)
    ensures r.0.stack == FRESH.stack
  {
    assert Cleared(FRESH.stack, TOP) == FRESH.stack;
    forall i | 0 <= i < 2 ensures r.0.stack[i] == FRESH.stack[i] {
      assert FrameAlike(FRESH.stack[i], r.0.stack[i], i, map[]);
    }
  }

  /** In particular every program whose cleanups do not exit. */
  lemma ExitFreeProgram(s: Stmt, junk: MV)
    requires WellFormed(s, {}) && CleanupsExitFree(s)
    ensures var r := Exec(s, map[], FRESH, junk);
            Eval(s).outcome.Done? && r.0.trace == Eval(s).events && r.1 == Falls(First(Eval(s).outcome.vs)) &&
            Result(r.1.v, r.0.rv) == Eval(s).outcome.vs && r.0.uwp == TOP && r.0.stack == FRESH.stack
  {
    ExitFreeCleanupsAreTame(s);
    ProgramSimulation(s, junk);
  }

  /** `cleanups` wrapped around an exit, the first one innermost. */
  function Nested(target: nat, vs: Values, cleanups: seq<Stmt>): Stmt {
    if cleanups == [] then Exit(target, vs)
    else Protect(Nested(target, vs, cleanups[..|cleanups| - 1]), cleanups[|cleanups| - 1])
  }

  function AllEvents(cleanups: seq<Stmt>): seq<nat> {
    if cleanups == [] then [] else AllEvents(cleanups[..|cleanups| - 1]) + Eval(cleanups[|cleanups| - 1]).events
  }

  lemma {:induction false} NestedOutcome(target: nat, vs: Values, cleanups: seq<Stmt>)
    requires forall c <- cleanups :: ExitFree(c) && WellFormed(c, {target})
    ensures WellFormed(Nested(target, vs, cleanups), {target}) && CleanupsExitFree(Nested(target, vs, cleanups))
    ensures Eval(Nested(target, vs, cleanups)) == Behaviour(AllEvents(cleanups), Raise(target, vs))
  {
    if cleanups != [] {
      var last := |cleanups| - 1;
      assert cleanups[last] in cleanups;
      ExitFreeCompletes(cleanups[last]);
      NestedOutcome(target, vs, cleanups[..last]);
    }
  }

  /** An exit across any number of unwind-protects runs each cleanup once, innermost first,
      and delivers its values whatever the cleanups returned. */
  lemma CrossedCleanups(target: nat, vs: Values, cleanups: seq<Stmt>, junk: MV)
    requires forall c <- cleanups :: ExitFree(c) && WellFormed(c, {target})
    ensures var r := Exec(Block(target, Nested(target, vs, cleanups)), map[], FRESH, junk);
            r.0.trace == AllEvents(cleanups) && Result(First(vs), r.0.rv) == vs &&
            r.1 == Falls(First(vs)) && r.0.uwp == TOP
  {
    NestedOutcome(target, vs, cleanups);
    assert {} + {target} == {target};
    ExitFreeProgram(Block(target, Nested(target, vs, cleanups)), junk);
  }

  /** An exit in progress goes on after a cleanup exactly when the cleanup let no exit arrive at
      its own level; otherwise CONTINUE_UNWIND takes the cleanup for one that was fallen into. */
  lemma PendingExitSurvives(c: Stmt, env: map<nat, nat>, m: State, junk: MV)
    requires WellFormed(c, env.Keys) && Tame(c) && Eval(c).outcome.Done? && Linked(m, env)
    requires m.stack[m.uwp].ultimate.Some? && IsExit(m.stack, m.stack[m.uwp].ultimate.value)
    requires Reaches(m.stack, m.uwp, m.stack[m.stack[m.uwp].ultimate.value].present)
    ensures ExecCleanup(c, env, m, junk).1.LongJump? <==> !Disturbs(c)
    ensures ExecCleanup(c, env, m, junk).1.Falls? <==> Disturbs(c)
  {
    Simulation(c, env, m, junk);
    var r := Exec(c, env, m, junk);
    var dest := m.stack[m.uwp].ultimate.value;
    var was := if Disturbs(c) then Cleared(m.stack, m.uwp) else m.stack;
    AlikeAfter(was, r.0.stack, Frames(env, Abandons(c)), m.uwp, was[m.uwp]);
    assert FrameAlike(was[dest], r.0.stack[dest], dest, Frames(env, Abandons(c)));
    if !Disturbs(c) && m.uwp != m.stack[dest].present {
      assert Reaches(m.stack, m.stack[m.uwp].previous, m.stack[dest].present);
      AlikeAfter(was, r.0.stack, Frames(env, Abandons(c)), m.stack[m.uwp].previous, m.stack[m.stack[m.uwp].previous]);
    }
  }

  /** Exactly when an unwind-protect of tame parts does what it should. */
  lemma {:induction false} ProtectExactly(b: Stmt, c: Stmt, env: map<nat, nat>, m: State, junk: MV)
    requires WellFormed(Protect(b, c), env.Keys) && Tame(b) && Tame(c) && Linked(m, env)
    ensures Simulates(Protect(b, c), env, m, Exec(Protect(b, c), env, m, junk)) <==> GoesRight(b, c)
  {
    if GoesRight(b, c) { SimulateProtect(b, c, env, m, junk); }
    else if Eval(b).outcome.Done? { RepeatGoesWrong(b, c, env, m, junk); }
    else { UnwindGoesWrong(b, c, env, m, junk); }
  }

  lemma RepeatGoesWrong(b: Stmt, c: Stmt, env: map<nat, nat>, m: State, junk: MV)
    requires WellFormed(b, env.Keys) && WellFormed(c, env.Keys) && Tame(b) && Tame(c) && Linked(m, env)
    requires Eval(b).outcome.Done? && Eval(c).outcome.Raise? && Eval(c).events != []
    ensures !Simulates(Protect(b, c), env, m, Exec(Protect(b, c), env, m, junk))
  {
    ProtectFalls(b, c, env, m, junk);
    var out := Exec(Protect(b, c), env, m, junk);
    assert |out.0.trace| == |m.trace| + |Eval(Protect(b, c)).events| + |Eval(c).events|;
  }

  lemma UnwindGoesWrong(b: Stmt, c: Stmt, env: map<nat, nat>, m: State, junk: MV)
    requires WellFormed(b, env.Keys) && WellFormed(c, env.Keys) && Tame(b) && Tame(c) && Linked(m, env)
    requires Eval(b).outcome.Raise? && Eval(c).outcome.Done?
    requires Disturbs(c) || Delivers(c, Eval(b).outcome.target, Eval(b).outcome.vs) != Eval(b).outcome.vs
    ensures !Simulates(Protect(b, c), env, m, Exec(Protect(b, c), env, m, junk))
  {
    ProtectUnwinds(b, c, env, m, junk);
    var out, l, vs := Exec(Protect(b, c), env, m, junk), Eval(b).outcome.target, Eval(b).outcome.vs;
    var kept := Frames(env, Abandons(Protect(b, c)));
    if Disturbs(c) {
      assert !Escaped(m, kept, out, env[l], vs);
    } else if Escaped(m, kept, out, env[l], vs) {
      OneDelivery(m, kept, out, env[l], vs, Delivers(c, l, vs));
    }
  }

  lemma OneDelivery(m: State, kept: map<nat, Values>, r: (State, Control), b: nat, vs: Values, ws: Values)
    requires IsUnwind(m.stack, m.uwp) && IsExit(m.stack, b) && Escaped(m, kept, r, b, vs) && Escaped(m, kept, r, b, ws)
    ensures vs == ws
  {
    var was := if m.stack[b].present == m.uwp then Cleared(m.stack, m.uwp) else Told(m, b, r.0.stack[m.uwp]);
    assert FrameAlike(was[b], r.0.stack[b], b, kept[b := vs]);
    assert FrameAlike(was[b], r.0.stack[b], b, kept[b := ws]);
  }

  /** A cleanup that is fallen into and then exits is run twice. */
  lemma {:induction false} RaisingCleanupRunsTwice(b: Stmt, c: Stmt, env: map<nat, nat>, m: State, junk: MV)
    requires WellFormed(Protect(b, c), env.Keys) && Tame(b) && Tame(c) && Linked(m, env)
    requires Eval(b).outcome.Done? && Eval(c).outcome.Raise?
    ensures Exec(Protect(b, c), env, m, junk).0.trace == m.trace + Eval(b).events + Eval(c).events + Eval(c).events
  {
    ProtectFalls(b, c, env, m, junk);
  }

  // ---------------------------------------------------------------- programs that go wrong

  /** The state inside one block, called 1, of a fresh thread. */
  lemma InsideBlock(junk: MV)
    ensures Linked(SetupExitFrame(FRESH, junk), map[1 := 2]) && map[1 := 2].Keys == {1}
  {
    var none: map<nat, nat> := map[];
    EnterBlock(1, none, FRESH, junk);
    assert none[1 := 2] == map[1 := 2];
  }

  /** The cleanup of an unwind-protect being unwound runs a block that exits to itself.  The outer
      block should get 7, but the exit to it is forgotten. */
  lemma LostExit(junk: MV)
    ensures var s := Protect(Exit(1, [7]), Block(2, Exit(2, [8])));
            var m := SetupExitFrame(FRESH, junk);
            Eval(Block(1, s)).outcome == Done([7]) && Linked(m, map[1 := 2]) && WellFormed(s, {1}) &&
            Exec(s, map[1 := 2], m, junk).1.Falls?
  {
    InsideBlock(junk);
    ProtectUnwinds(Exit(1, [7]), Block(2, Exit(2, [8])), map[1 := 2], SetupExitFrame(FRESH, junk), junk);
  }

  /** The cleanup, inside an unwind-protect of its own, gives up an exit with 9 to the block that
      should get 7: it gets 9. */
  lemma WrongValues(junk: MV)
    ensures var c := Protect(Block(2, Protect(Exit(1, [9]), Exit(2, []))), Act(0, []));
            var s := Protect(Exit(1, [7]), c);
            var m := SetupExitFrame(FRESH, junk);
            Eval(Block(1, s)).outcome == Done([7]) && Linked(m, map[1 := 2]) && WellFormed(s, {1}) &&
            Escaped(m, Frames(map[1 := 2], Abandons(s)), Exec(s, map[1 := 2], m, junk), 2, [9])
  {
    var inner := Protect(Exit(1, [9]), Exit(2, []));
    var c := Protect(Block(2, inner), Act(0, []));
    InsideBlock(junk);
    assert Eval(inner) == Behaviour([], Raise(2, [])) && Abandons(inner) == map[1 := [9]];
    assert Eval(Block(2, inner)).outcome.Done? && Abandons(Block(2, inner)) == map[1 := [9]];
    assert Abandons(c) == map[1 := [9]] && Eval(c).outcome.Done? && !Disturbs(c) && Tame(c);
    assert WellFormed(Exit(1, [9]), {1} + {2}) && WellFormed(Exit(2, []), {1} + {2});
    assert WellFormed(inner, {1} + {2});
    assert WellFormed(Block(2, inner), {1});
    assert WellFormed(c, {1});
    ProtectUnwinds(Exit(1, [7]), c, map[1 := 2], SetupExitFrame(FRESH, junk), junk);
  }

  /** A cleanup that is fallen into and exits after its event 1, which happens twice. */
  lemma RepeatedCleanup(junk: MV)
    ensures var s := Protect(Act(0, []), Seq(Act(1, []), Exit(1, [])));
            var m := SetupExitFrame(FRESH, junk);
            Eval(Block(1, s)).events == [0, 1] && Linked(m, map[1 := 2]) && WellFormed(s, {1}) &&
            Exec(s, map[1 := 2], m, junk).0.trace == [0, 1, 1]
  {
    InsideBlock(junk);
    RaisingCleanupRunsTwice(Act(0, []), Seq(Act(1, []), Exit(1, [])), map[1 := 2], SetupExitFrame(FRESH, junk), junk);
  }
}
