/**
 The thread environment block and the frame stack it points into, as objects that the
 run-time updates in place.  Each primitive is proved against its specification in
 `NonLocalExit`, and so is the code that the C back end emits for a program.
 */
module ThreadBlock {
  import opened Options
  import opened NonLocalExit

  /** The TEB and the C stack it points into, updated in place. */
  class Teb {
    const value: array<Value>
    var count: nat
    var uwpFrame: nat
    var stack: seq<Frame>
    var trace: seq<nat>

    ghost predicate Valid() reads this, value {
      value.Length == VALUES_MAX && count <= VALUES_MAX
    }

    function State(): State
      requires Valid()
      reads this, value
    {
      NonLocalExit.State(MV(count, value[..]), uwpFrame, stack, trace)
    }

    constructor ()
      ensures Valid() && fresh(value) && State() == FRESH
    {
      value := new Value[VALUES_MAX](_ => 0);
      count, uwpFrame, stack, trace := 0, TOP, [NoFrame, UnwindFrame(ZEROED, None, 0)], [];
      new;
      assert value[..] == ZEROED.value;
    }

    method NlxStep(dest: nat) returns (c: Control)
      requires Valid()
      modifies this
      ensures Valid() && (State(), c) == NonLocalExit.NlxStep(old(State()), dest)
    {
      if !IsExit(stack, dest) || !IsUnwind(stack, uwpFrame) { return Crash; }
      if uwpFrame == stack[dest].present {
        stack := stack[uwpFrame := stack[uwpFrame].(ultimate := None)];
        return LongJump(dest);
      }
      var nextFrame := uwpFrame;
      if !IsUnwind(stack, stack[nextFrame].previous) { return Crash; }
      uwpFrame := stack[nextFrame].previous;
      stack := stack[uwpFrame := stack[uwpFrame].(ultimate := Some(dest))];
      return LongJump(nextFrame);
    }

    /** The values of a frame after the current ones are stored there: the count, the first value
        from the argument, and a copy of the other words if there are any. */
    method SpillValues(frame: MV, argument: Value) returns (spilled: MV)
      requires Valid()
      ensures spilled == Spill(frame, State().rv, argument)
    {
      var words := frame.value[0 := argument];
      if count > 1 {
        for i := 1 to count
          invariant |words| == VALUES_MAX && words[0] == argument
          invariant words[1..i] == value[1..i] && words[i..] == frame.value[i..]
        {
          words := words[i := value[i]];
          assert words[1..i + 1] == words[1..i] + [value[i]];
          assert value[1..i + 1] == value[1..i] + [value[i]];
        }
        assert words == [words[0]] + words[1..count] + words[count..];
      }
      spilled := MV(count, words);
    }

    method FallThroughUnwind(argument: Value)
      requires Valid() && IsUnwind(stack, uwpFrame)
      modifies this
      ensures Valid() && State() == NonLocalExit.FallThroughUnwind(old(State()), argument)
    {
      var f := stack[uwpFrame];
      var spilled := SpillValues(f.returnValues, argument);
      f := f.Holding(spilled);
      stack := stack[uwpFrame := f.(ultimate := None)];
    }

    method ContinueUnwind() returns (c: Control)
      requires Valid()
      modifies this, value
      ensures Valid() && (State(), c) == NonLocalExit.ContinueUnwind(old(State()))
    {
      if !IsUnwind(stack, uwpFrame) { return Crash; }
      var f := stack[uwpFrame];
      if f.ultimate.Some? {
        c := NlxStep(f.ultimate.value);
        return;
      }
      var n := f.returnValues.count;
      count := n;
      for i := 0 to n
        invariant value.Length == VALUES_MAX && count == n
        invariant uwpFrame == old(uwpFrame) && stack == old(stack) && trace == old(trace)
        invariant forall k | 0 <= k < VALUES_MAX ::
          value[k] == if k < i then f.returnValues.value[k] else old(value[k])
      {
        value[i] := f.returnValues.value[i];
      }
      assert value[..] == Refill(old(MV(count, value[..])), f.returnValues).value;
      uwpFrame := f.previous;
      return Falls(if n == 0 then DFALSE else value[0]);
    }

    method Nlx(target: nat, argument: Value) returns (c: Control)
      requires Valid()
      modifies this
      ensures Valid() && (State(), c) == NonLocalExit.Nlx(old(State()), target, argument)
    {
      if !IsExit(stack, target) { return Crash; }
      var f := stack[target];
      var spilled := SpillValues(f.returnValues, argument);
      stack := stack[target := f.Holding(spilled)];
      c := NlxStep(target);
    }

    method FrameRetval(frame: nat) returns (c: Control)
      requires Valid()
      modifies this, value
      ensures Valid() && (State(), c) == NonLocalExit.FrameRetval(old(State()), frame)
    {
      if !IsExit(stack, frame) { return Crash; }
      var rv := stack[frame].returnValues;
      forall i | 0 <= i < rv.count { value[i] := rv.value[i]; }
      count := rv.count;
      assert value[..] == rv.value[..count] + old(value[..])[count..];
      return Falls(rv.value[0]);
    }

    /** A function call that returns `vs`. */
    method Return(vs: Values)
      requires Valid()
      modifies this, value
      ensures Valid() && State() == old(State()).(rv := ReturnValues(old(State()).rv, vs))
    {
      forall i | 1 <= i < |vs| { value[i] := vs[i]; }
      count := |vs|;
      assert |vs| > 1 ==> value[..] == [old(value[..])[0]] + vs[1..] + old(value[..])[|vs|..];
      assert |vs| <= 1 ==> value[..] == old(value[..]);
    }

    /** Leaving the C scope whose frame is at `base`. */
    method Pop(base: nat)
      requires Valid()
      modifies this
      ensures Valid() && (State(), Crash) == Leave((old(State()), Crash), base)
    {
      if base <= |stack| { stack := stack[..base]; }
    }

    /** The code the C back end emits for `s`. */
    method Run(s: Stmt, env: map<nat, nat>, junk: MV) returns (c: Control)
      requires Valid()
      modifies this, value
      ensures Valid() && (State(), c) == Exec(s, env, old(State()), junk)
      decreases s, 1
    {
      match s
      case Act(e, vs) =>
        Return(vs);
        trace := trace + [e];
        c := Falls(First(vs));
      case Seq(a, b) =>
        c := Run(a, env, junk);
        if c.Falls? { c := Run(b, env, junk); }
      case Branch(t, k, y, n) =>
        c := Run(t, env, junk);
        if c.Falls? {
          if c.v == k { c := Run(y, env, junk); } else { c := Run(n, env, junk); }
        }
      case Block(l, b) =>
        var frame := |stack|;
        stack := stack + [ExitFrame(junk, uwpFrame)];
        c := Run(b, env[l := frame], junk);
        if c == LongJump(frame) { c := FrameRetval(frame); }
        Pop(frame);
      case Exit(l, vs) =>
        if l !in env { return Crash; }
        Return(vs);
        c := Nlx(env[l], First(vs));
      case Protect(b, d) =>
        var frame := |stack|;
        stack, uwpFrame := stack + [UnwindFrame(junk, None, uwpFrame)], frame;
        c := Run(b, env, junk);
        if c == LongJump(frame) || (c.Falls? && IsUnwind(stack, uwpFrame)) {
          if c.Falls? { FallThroughUnwind(c.v); }
          c := RunCleanup(d, env, junk);
          if c == LongJump(frame) { c := RunCleanup(d, env, junk); } // the same setjmp again
        } else if c.Falls? {
          c := Crash;
        }
        Pop(frame);
    }

    method RunCleanup(s: Stmt, env: map<nat, nat>, junk: MV) returns (c: Control)
      requires Valid()
      modifies this, value
      ensures Valid() && (State(), c) == ExecCleanup(s, env, old(State()), junk)
      decreases s, 2
    {
      c := Run(s, env, junk);
      if c.Falls? { c := ContinueUnwind(); }
    }

    /** A whole program run in place: what a caller of the run-time can rely on. */
    method RunProgram(s: Stmt, junk: MV) returns (v: Value)
      requires Valid() && State() == FRESH && WellFormed(s, {}) && Tame(s)
      modifies this, value
      ensures Valid() && trace == Eval(s).events && uwpFrame == TOP && stack == FRESH.stack
      ensures Eval(s).outcome == Done(Result(v, MV(count, value[..])))
    {
      ProgramSimulation(s, junk);
      var c := Run(s, map[], junk);
      v := c.v;
    }
  }
}
