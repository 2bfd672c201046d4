/**
 Thread states and joins of llvm-posix-threads.c.  All of it happens under one mutex, so a
 step of the protocol is one critical section: from taking the mutex to giving it up, by
 unlocking it or by sleeping on the exit event.
 */
module ThreadJoin {

  type Tid = nat        // a thread that calls a join
  type Obj = nat        // a thread object that can be joined

  datatype Flags = Flags(completed: bool, wantToJoin: bool, joined: bool)

  type Registry = map<Obj, Flags>

  const NEW_THREAD: Flags := Flags(false, false, false)

  /** How a critical section of a join ends. */
  datatype Outcome = Refused | Sleep | Joined(obj: Obj)

  // ---------------------------------------------------------------- one critical section

  predicate Known(f: Registry, v: seq<Obj>) { forall o <- v :: o in f }

  predicate Taken(f: Registry, o: Obj)
    requires o in f
  {
    f[o].wantToJoin || f[o].joined
  }

  predicate AnyTaken(f: Registry, v: seq<Obj>)
    requires Known(f, v)
  {
    exists o <- v :: Taken(f, o)
  }

  /** The index of the first completed thread, or `|v|`. */
  function First(f: Registry, v: seq<Obj>): (k: nat)
    requires Known(f, v)
    ensures k <= |v|
    ensures forall i | 0 <= i < k :: !f[v[i]].completed
    ensures k < |v| ==> f[v[k]].completed
  {
    if v == [] then 0
    else if f[v[0]].completed then 0
    else
      assert forall i | 0 < i < |v| :: v[i] == v[1..][i - 1];
      1 + First(f, v[1..])
  }

  function Want(f: Registry, v: seq<Obj>): Registry {
    map o | o in f :: if o in v then f[o].(wantToJoin := true) else f[o]
  }

  function Unwant(f: Registry, v: seq<Obj>): Registry {
    map o | o in f :: if o in v then f[o].(wantToJoin := false) else f[o]
  }

  function MarkJoined(f: Registry, o: Obj): Registry
    requires o in f
  {
    f[o := f[o].(joined := true)]
  }

  function Settle(f: Registry, v: seq<Obj>, o: Obj): Registry
    requires o in f
  {
    Unwant(MarkJoined(f, o), v)
  }

  function Begin(f: Registry, v: seq<Obj>): (Registry, Outcome)
    requires Known(f, v)
  {
    if AnyTaken(f, v) then (f, Refused)
    else
      var k := First(f, v);
      if k < |v| then (Settle(f, v, v[k]), Joined(v[k])) else (Want(f, v), Sleep)
  }

  /** Once woken. */
  function Resume(f: Registry, v: seq<Obj>): (Registry, Outcome)
    requires Known(f, v)
  {
    var k := First(f, v);
    if k < |v| then (Settle(f, v, v[k]), Joined(v[k])) else (f, Sleep)
  }

  class Threads {
    var flags: Registry

    method JoinSingle(t: Obj) returns (r: Outcome)
      requires t in flags
      modifies this
      ensures (flags, r) == Begin(old(flags), [t])
    {
      var state := flags[t];
      assert [t][0] == t;
      if state.wantToJoin || state.joined {
        assert Taken(flags, t);
        return Refused;
      }
      flags := flags[t := state.(wantToJoin := true)];
      if !state.completed {
        assert flags == Want(old(flags), [t]);
        return Sleep;
      }
      r := ResumeSingle(t);
      assert flags == Settle(old(flags), [t], t);
    }

    method ResumeSingle(t: Obj) returns (r: Outcome)
      requires t in flags
      modifies this
      ensures (flags, r) == Resume(old(flags), [t])
    {
      var state := flags[t];
      assert [t][0] == t;
      if !state.completed { return Sleep; }
      flags := flags[t := state.(wantToJoin := false, joined := true)];
      assert flags == Settle(old(flags), [t], t);
      return Joined(t);
    }

    method JoinMultiple(v: seq<Obj>) returns (r: Outcome)
      requires Known(flags, v)
      modifies this
      ensures (flags, r) == Begin(old(flags), v)
    {
      var refuse := CheckAll(v);
      if refuse { return Refused; }
      var k := MarkUntilCompleted(v);
      if k == |v| { return Sleep; }
      ClearWants(v);
      assert flags == Settle(old(flags), v, v[k]);
      r := Joined(v[k]);
    }

    /** The first loop: is some thread wanted or joined already? */
    method CheckAll(v: seq<Obj>) returns (refuse: bool)
      requires Known(flags, v)
      ensures refuse == AnyTaken(flags, v)
    {
      for i := 0 to |v|
        invariant forall k | 0 <= k < i :: !Taken(flags, v[k])
      {
        if flags[v[i]].wantToJoin || flags[v[i]].joined {
          assert v[i] in v && Taken(flags, v[i]);
          return true;
        }
      }
      refuse := false;
    }

    /** The second loop: threads are marked as wanted up to the first completed one, which is
        marked as joined; `k` is its index, or `|v|`. */
    method MarkUntilCompleted(v: seq<Obj>) returns (k: nat)
      requires Known(flags, v)
      modifies this
      ensures k == First(old(flags), v)
      ensures flags == if k < |v| then MarkJoined(Want(old(flags), v[..k]), v[k]) else Want(old(flags), v)
    {
      for i := 0 to |v|
        invariant flags == Want(old(flags), v[..i])
        invariant forall j | 0 <= j < i :: !old(flags)[v[j]].completed
      {
        if flags[v[i]].completed {
          FirstIs(old(flags), v, i);
          flags := MarkJoined(flags, v[i]);
          return i;
        }
        assert v[..i + 1] == v[..i] + [v[i]];
        flags := flags[v[i] := flags[v[i]].(wantToJoin := true)];
      }
      FirstIs(old(flags), v, |v|);
      assert v[..|v|] == v;
      k := |v|;
    }

    method ResumeMultiple(v: seq<Obj>) returns (r: Outcome)
      requires Known(flags, v)
      modifies this
      ensures (flags, r) == Resume(old(flags), v)
    {
      for i := 0 to |v|
        invariant flags == old(flags)
        invariant forall k | 0 <= k < i :: !flags[v[k]].completed
      {
        if flags[v[i]].completed {
          FirstIs(flags, v, i);
          flags := MarkJoined(flags, v[i]);
          ClearWants(v);
          return Joined(v[i]);
        }
      }
      FirstIs(flags, v, |v|);
      return Sleep;
    }

    method ClearWants(v: seq<Obj>)
      requires Known(flags, v)
      modifies this
      ensures flags == Unwant(old(flags), v)
    {
      for i := 0 to |v|
        invariant flags == Unwant(old(flags), v[..i])
      {
        assert v[..i + 1] == v[..i] + [v[i]];
        flags := flags[v[i] := flags[v[i]].(wantToJoin := false)];
      }
      assert v[..|v|] == v;
    }
  }

  lemma FirstIs(f: Registry, v: seq<Obj>, k: nat)
    requires Known(f, v) && k <= |v|
    requires forall i | 0 <= i < k :: !f[v[i]].completed
    requires k < |v| ==> f[v[k]].completed
    ensures First(f, v) == k
  {
    assert First(f, v) >= k;
  }

  // ---------------------------------------------------------------- the protocol

  datatype Pc =
    | Idle(last: Outcome)
    | Calling(v: seq<Obj>)
    | Asleep(v: seq<Obj>)
    | Woken(v: seq<Obj>)

  datatype State = State(flags: Registry, pcs: map<Tid, Pc>)

  datatype Label = Create(o: Obj) | Complete(o: Obj) | Join(c: Tid, v: seq<Obj>) | Run(c: Tid) | Spurious(c: Tid)

  function WakeAll(pcs: map<Tid, Pc>): map<Tid, Pc> {
    map c | c in pcs :: if pcs[c].Asleep? then Woken(pcs[c].v) else pcs[c]
  }

  function Section(s: State, c: Tid): (Registry, Outcome)
    requires c in s.pcs && (s.pcs[c].Calling? || s.pcs[c].Woken?) && Known(s.flags, s.pcs[c].v)
  {
    if s.pcs[c].Calling? then Begin(s.flags, s.pcs[c].v) else Resume(s.flags, s.pcs[c].v)
  }

  predicate Runs(s: State, c: Tid, n: State) {
    c in s.pcs && (s.pcs[c].Calling? || s.pcs[c].Woken?) && Known(s.flags, s.pcs[c].v) &&
    var (f, r) := Section(s, c);
    n == State(f, s.pcs[c := if r.Sleep? then Asleep(s.pcs[c].v) else Idle(r)])
  }

  predicate Step(s: State, l: Label, n: State) {
    match l
    case Create(o) => o !in s.flags && n == s.(flags := s.flags[o := NEW_THREAD])
    case Complete(o) =>
      o in s.flags && n == State(s.flags[o := s.flags[o].(completed := true)], WakeAll(s.pcs))
    case Join(c, v) =>
      (c in s.pcs ==> s.pcs[c].Idle?) && Known(s.flags, v) && n == s.(pcs := s.pcs[c := Calling(v)])
    case Run(c) => Runs(s, c, n)
    case Spurious(c) => c in s.pcs && s.pcs[c].Asleep? && n == s.(pcs := s.pcs[c := Woken(s.pcs[c].v)])
  }

  predicate IsRun(states: seq<State>, labels: seq<Label>) {
    |states| == |labels| + 1 && states[0] == State(map[], map[]) &&
    forall i | 0 <= i < |labels| :: Step(states[i], labels[i], states[i + 1])
  }

  predicate Waiting(pc: Pc) { pc.Asleep? || pc.Woken? }

  /** The call of `c` is waiting for `o`, among others. */
  predicate Awaits(s: State, c: Tid, o: Obj) { c in s.pcs && Waiting(s.pcs[c]) && o in s.pcs[c].v }

  ghost predicate Awaited(s: State, o: Obj) { exists c :: Awaits(s, c, o) }

  ghost predicate FlagsInv(s: State) {
    (forall o <- s.flags :: s.flags[o].joined ==> s.flags[o].completed && !s.flags[o].wantToJoin) &&
    (forall o <- s.flags :: s.flags[o].wantToJoin ==> Awaited(s, o))
  }

  ghost predicate WaitersInv(s: State) {
    (forall c <- s.pcs | !s.pcs[c].Idle? :: Known(s.flags, s.pcs[c].v)) &&
    (forall c, o | Awaits(s, c, o) :: o in s.flags && s.flags[o].wantToJoin) &&
    (forall c, d, o | Awaits(s, c, o) && Awaits(s, d, o) :: c == d) &&
    (forall c <- s.pcs, o | s.pcs[c].Asleep? && Awaits(s, c, o) :: !s.flags[o].completed)
  }

  ghost predicate Inv(s: State) { FlagsInv(s) && WaitersInv(s) }

  lemma CreateKeeps(s: State, o: Obj, n: State)
    requires Inv(s) && Step(s, Create(o), n)
    ensures Inv(n)
  {
    assert forall c, p :: Awaits(n, c, p) == Awaits(s, c, p);
    assert forall p :: Awaited(s, p) ==> Awaited(n, p);
  }

  lemma CompleteKeeps(s: State, o: Obj, n: State)
    requires Inv(s) && Step(s, Complete(o), n)
    ensures Inv(n)
  {
    assert forall c, p :: Awaits(n, c, p) == Awaits(s, c, p);
    assert forall p :: Awaited(s, p) ==> Awaited(n, p);
  }

  lemma CallKeeps(s: State, c: Tid, v: seq<Obj>, n: State)
    requires Inv(s) && Step(s, Join(c, v), n)
    ensures Inv(n)
  {
    assert forall d, p :: Awaits(n, d, p) == Awaits(s, d, p);
    assert forall p :: Awaited(s, p) ==> Awaited(n, p);
  }

  lemma SpuriousKeeps(s: State, c: Tid, n: State)
    requires Inv(s) && Step(s, Spurious(c), n)
    ensures Inv(n)
  {
    assert forall d, p :: Awaits(n, d, p) == Awaits(s, d, p);
    assert forall p :: Awaited(s, p) ==> Awaited(n, p);
  }

  /** The call goes on waiting, or begins to. */
  lemma SleepKeeps(s: State, c: Tid, n: State)
    requires Inv(s) && Step(s, Run(c), n) && Section(s, c).1.Sleep?
    ensures Inv(n)
  {
    var v := s.pcs[c].v;
    assert forall d, p | d != c :: Awaits(n, d, p) == Awaits(s, d, p);
    assert forall p :: Awaits(n, c, p) <==> p in v;
    assert n.flags == if s.pcs[c].Calling? then Want(s.flags, v) else s.flags;
    if s.pcs[c].Calling? {
      assert forall o <- v :: !Taken(s.flags, o);
      forall d, o | d != c && Awaits(s, d, o) ensures o !in v { assert Taken(s.flags, o); }
    }
    forall o | o in v ensures !s.flags[o].completed { var i :| 0 <= i < |v| && v[i] == o; }
    forall o | o in n.flags && n.flags[o].wantToJoin ensures Awaited(n, o) {
      if o in v {
        assert Awaits(n, c, o);
      } else {
        var d :| Awaits(s, d, o);
        assert Awaits(n, d, o);
      }
    }
  }

  lemma JoinKeeps(s: State, c: Tid, n: State)
    requires Inv(s) && Step(s, Run(c), n) && Section(s, c).1.Joined?
    ensures Inv(n)
  {
    var v, o := s.pcs[c].v, Section(s, c).1.obj;
    assert n.flags == Settle(s.flags, v, o) && o in v && s.flags[o].completed;
    assert forall d, p :: Awaits(n, d, p) == (d != c && Awaits(s, d, p));
    forall d, p | Awaits(n, d, p) ensures p !in v {
      assert Awaits(s, d, p) && d != c;
      if s.pcs[c].Calling? { assert Taken(s.flags, p); } else { assert p in v ==> Awaits(s, c, p); }
    }
    forall p | p in n.flags && n.flags[p].wantToJoin ensures Awaited(n, p) {
      var d :| Awaits(s, d, p);
      assert Awaits(n, d, p);
    }
  }

  lemma RefusalKeeps(s: State, c: Tid, n: State)
    requires Inv(s) && Step(s, Run(c), n) && Section(s, c).1.Refused?
    ensures Inv(n)
  {
    assert forall d, p :: Awaits(n, d, p) == Awaits(s, d, p);
    assert forall p :: Awaited(s, p) ==> Awaited(n, p);
  }

  lemma StepKeeps(s: State, l: Label, n: State)
    requires Inv(s) && Step(s, l, n)
    ensures Inv(n)
  {
    match l
    case Create(o) => CreateKeeps(s, o, n);
    case Complete(o) => CompleteKeeps(s, o, n);
    case Join(c, v) => CallKeeps(s, c, v, n);
    case Run(c) =>
      var r := Section(s, c).1;
      if r.Sleep? { SleepKeeps(s, c, n); } else if r.Joined? { JoinKeeps(s, c, n); } else { RefusalKeeps(s, c, n); }
    case Spurious(c) => SpuriousKeeps(s, c, n);
  }

  lemma {:induction false} RunInv(states: seq<State>, labels: seq<Label>, i: nat)
    requires IsRun(states, labels) && i <= |labels|
    ensures Inv(states[i])
  {
    if i > 0 {
      RunInv(states, labels, i - 1);
      StepKeeps(states[i - 1], labels[i - 1], states[i]);
    }
  }

  // ---------------------------------------------------------------- joined once

  /** Step `i` is the end of a call of `c` that joined `o`. */
  predicate JoinsAt(states: seq<State>, labels: seq<Label>, i: nat, c: Tid, o: Obj)
    requires IsRun(states, labels) && i < |labels|
  {
    labels[i] == Run(c) && Runs(states[i], c, states[i + 1]) && Section(states[i], c).1 == Joined(o)
  }

  lemma JoinSets(states: seq<State>, labels: seq<Label>, i: nat, c: Tid, o: Obj)
    requires IsRun(states, labels) && i < |labels| && JoinsAt(states, labels, i, c, o)
    ensures o in states[i].flags && !states[i].flags[o].joined && states[i].flags[o].completed
    ensures o in states[i + 1].flags && states[i + 1].flags[o].joined
  {
    RunInv(states, labels, i);
    var s := states[i];
    var v := s.pcs[c].v;
    assert o in v && Step(s, labels[i], states[i + 1]);
    if s.pcs[c].Woken? { assert Awaits(s, c, o); } else { assert !Taken(s.flags, o); }
  }

  lemma {:induction false} JoinedStays(states: seq<State>, labels: seq<Label>, i: nat, j: nat, o: Obj)
    requires IsRun(states, labels) && i <= j <= |labels| && o in states[i].flags && states[i].flags[o].joined
    ensures o in states[j].flags && states[j].flags[o].joined
  {
    if i < j {
      JoinedStays(states, labels, i, j - 1, o);
      assert Step(states[j - 1], labels[j - 1], states[j]);
    }
  }

  /** In every run a thread is returned by at most one join, and only once it has completed. */
  lemma JoinedOnce(states: seq<State>, labels: seq<Label>, i: nat, j: nat, c: Tid, d: Tid, o: Obj)
    requires IsRun(states, labels) && i < |labels| && j < |labels|
    requires JoinsAt(states, labels, i, c, o) && JoinsAt(states, labels, j, d, o)
    ensures i == j && c == d && states[i].flags[o].completed
  {
    JoinSets(states, labels, i, c, o);
    JoinSets(states, labels, j, d, o);
    if i < j { JoinedStays(states, labels, i + 1, j, o); }
    if j < i { JoinedStays(states, labels, j + 1, i, o); }
  }

  /** A thread is marked as wanted exactly when one call, and no other, waits for it. */
  lemma WantedByOne(states: seq<State>, labels: seq<Label>, o: Obj)
    requires IsRun(states, labels) && o in states[|labels|].flags
    ensures var s := states[|labels|];
            (s.flags[o].wantToJoin <==> Awaited(s, o)) &&
            forall c, d | Awaits(s, c, o) && Awaits(s, d, o) :: c == d
  {
    RunInv(states, labels, |labels|);
  }

  /** A call is refused exactly when one of its threads has been joined or another call waits
      for it; nothing changes then. */
  lemma RefusedExactly(states: seq<State>, labels: seq<Label>, i: nat, c: Tid)
    requires IsRun(states, labels) && i < |labels| && labels[i] == Run(c)
    requires Runs(states[i], c, states[i + 1]) && states[i].pcs[c].Calling?
    ensures var s := states[i];
            (Section(s, c).1.Refused? <==> exists o <- s.pcs[c].v :: s.flags[o].joined || Awaited(s, o)) &&
            (Section(s, c).1.Refused? ==> states[i + 1].flags == s.flags)
  {
    RunInv(states, labels, i);
    var s := states[i];
    assert Step(s, labels[i], states[i + 1]);
    forall o | o in s.pcs[c].v ensures Taken(s.flags, o) <==> s.flags[o].joined || Awaited(s, o) {}
  }

  /** A join that succeeds takes the first completed thread of its vector and joins no other; the
      others can be joined again if they could before the call, for no flag of theirs is left. */
  lemma OthersJoinable(states: seq<State>, labels: seq<Label>, i: nat, c: Tid, o: Obj, p: Obj)
    requires IsRun(states, labels) && i < |labels| && JoinsAt(states, labels, i, c, o)
    requires p in states[i].pcs[c].v && p != o
    ensures var f := states[i + 1].flags;
            p in f && f[p] == Flags(states[i].flags[p].completed, false, false) && !Begin(f, [p]).1.Refused?
    ensures var v := states[i].pcs[c].v; var k := First(states[i].flags, v);
            k < |v| && v[k] == o
    ensures forall q | q in states[i].flags && q !in states[i].pcs[c].v :: states[i + 1].flags[q] == states[i].flags[q]
  {
    RunInv(states, labels, i);
    var s := states[i];
    assert Step(s, labels[i], states[i + 1]);
    if s.pcs[c].Woken? { assert Awaits(s, c, p); } else { assert !Taken(s.flags, p); }
    assert states[i + 1].flags == Settle(s.flags, s.pcs[c].v, o);
  }

  /** No exit is missed: a call that waits for a completed thread is awake, and its next
      step joins a thread. */
  lemma NoMissedExit(states: seq<State>, labels: seq<Label>, c: Tid, o: Obj)
    requires IsRun(states, labels) && Awaits(states[|labels|], c, o)
    requires o in states[|labels|].flags && states[|labels|].flags[o].completed
    ensures var s := states[|labels|];
            s.pcs[c].Woken? && Known(s.flags, s.pcs[c].v) && Section(s, c).1.Joined?
  {
    var s := states[|labels|];
    RunInv(states, labels, |labels|);
    var v := s.pcs[c].v;
    var k := First(s.flags, v);
    var i :| 0 <= i < |v| && v[i] == o;
    assert k <= i;
  }

  // ---------------------------------------------------------------- a call from beginning to end

  /** From step `i`, at which `c` calls a join, up to `j`: `c` has not been idle in between. */
  ghost predicate InCall(states: seq<State>, labels: seq<Label>, i: nat, j: nat, c: Tid, v: seq<Obj>) {
    IsRun(states, labels) && i < j <= |labels| && labels[i] == Join(c, v) &&
    forall k | i < k < j :: c in states[k].pcs && !states[k].pcs[c].Idle?
  }

  predicate NoneOf(labels: seq<Label>, i: nat, j: nat, c: Tid)
    requires j <= |labels|
  {
    forall k | i < k < j :: labels[k] != Run(c)
  }

  /** The first critical section of the call at `i`. */
  predicate FirstSection(labels: seq<Label>, i: nat, k: nat, c: Tid)
    requires k < |labels|
  {
    i < k && labels[k] == Run(c) && NoneOf(labels, i, k, c)
  }

  /** Some thread has been joined already or is awaited. */
  ghost predicate Contested(s: State, v: seq<Obj>) {
    exists o <- v :: o in s.flags && (s.flags[o].joined || Awaited(s, o))
  }

  /** `v[m]` is the first completed thread of `v`. */
  predicate FirstCompleted(f: Registry, v: seq<Obj>, m: nat)
    requires m < |v|
  {
    v[m] in f && f[v[m]].completed && forall l | 0 <= l < m :: v[l] in f && !f[v[l]].completed
  }

  /** Thread `o` is now joined, no mark is left on the threads of `v`, and that is all that changes. */
  predicate JoinsOnly(f: Registry, n: Registry, v: seq<Obj>, o: Obj) {
    n.Keys == f.Keys &&
    forall p <- f :: n[p].completed == f[p].completed && n[p].joined == (f[p].joined || p == o) &&
                     n[p].wantToJoin == (f[p].wantToJoin && p !in v)
  }

  ghost predicate TakesFirst(f: Registry, n: Registry, v: seq<Obj>, r: Outcome) {
    exists m | 0 <= m < |v| :: FirstCompleted(f, v, m) && r == Joined(v[m]) && JoinsOnly(f, n, v, v[m])
  }

  /** The threads of `v` are marked, and that is all. */
  predicate MarksOnly(f: Registry, n: Registry, v: seq<Obj>) {
    n.Keys == f.Keys &&
    forall o <- f :: n[o].completed == f[o].completed && n[o].joined == f[o].joined &&
                     n[o].wantToJoin == (f[o].wantToJoin || o in v)
  }

  ghost predicate Unrefused(states: seq<State>, labels: seq<Label>, i: nat, j: nat, c: Tid, v: seq<Obj>)
    requires |states| == |labels| + 1 && j <= |labels|
  {
    exists k | i < k < j :: FirstSection(labels, i, k, c) && !Contested(states[k], v)
  }

  /** The answer: a refusal at the first section, if that finds a thread contested, or else the
      first thread that the last section finds completed. */
  ghost predicate Answers(states: seq<State>, labels: seq<Label>, i: nat, j: nat, c: Tid, v: seq<Obj>, r: Outcome)
    requires |states| == |labels| + 1 && i < j <= |labels|
  {
    labels[j - 1] == Run(c) && i < j - 1 &&
    if r.Refused? then
      FirstSection(labels, i, j - 1, c) && Contested(states[j - 1], v) && states[j].flags == states[j - 1].flags
    else Unrefused(states, labels, i, j, c, v) && TakesFirst(states[j - 1].flags, states[j].flags, v, r)
  }

  ghost predicate JoinAt(states: seq<State>, labels: seq<Label>, i: nat, j: nat, c: Tid, v: seq<Obj>)
    requires |states| == |labels| + 1 && i < j <= |labels|
  {
    c in states[j].pcs &&
    match states[j].pcs[c]
    case Calling(x) => x == v && NoneOf(labels, i, j, c)
    case Asleep(x) => x == v && Unrefused(states, labels, i, j, c, v)
    case Woken(x) => x == v && Unrefused(states, labels, i, j, c, v)
    case Idle(r) => Answers(states, labels, i, j, c, v, r)
  }

  lemma TakenIsContested(s: State, v: seq<Obj>)
    requires Inv(s) && Known(s.flags, v)
    ensures AnyTaken(s.flags, v) <==> Contested(s, v)
  {
    forall o | o in v ensures Taken(s.flags, o) <==> s.flags[o].joined || Awaited(s, o) {}
  }

  lemma SettleTakes(f: Registry, v: seq<Obj>)
    requires Known(f, v) && First(f, v) < |v|
    ensures TakesFirst(f, Settle(f, v, v[First(f, v)]), v, Joined(v[First(f, v)]))
  {
    var m := First(f, v);
    SettleJoins(f, v, v[m]);
    assert FirstCompleted(f, v, m);
  }

  lemma SettleJoins(f: Registry, v: seq<Obj>, o: Obj)
    requires o in f
    ensures JoinsOnly(f, Settle(f, v, o), v, o)
  {}

  lemma UnrefusedStays(states: seq<State>, labels: seq<Label>, i: nat, j: nat, c: Tid, v: seq<Obj>)
    requires |states| == |labels| + 1 && j < |labels| && Unrefused(states, labels, i, j, c, v)
    ensures Unrefused(states, labels, i, j + 1, c, v)
  {
    var k :| i < k < j && FirstSection(labels, i, k, c) && !Contested(states[k], v);
    assert FirstSection(labels, i, k, c);
  }

  lemma SectionAnswers(states: seq<State>, labels: seq<Label>, i: nat, j: nat, c: Tid, v: seq<Obj>)
    requires |states| == |labels| + 1 && i < j < |labels| && labels[j] == Run(c)
    requires Inv(states[j]) && Runs(states[j], c, states[j + 1])
    requires JoinAt(states, labels, i, j, c, v) && !states[j].pcs[c].Idle?
    ensures JoinAt(states, labels, i, j + 1, c, v)
    ensures states[j + 1].pcs[c].Asleep? ==> MarksOnly(states[j].flags, states[j + 1].flags, v)
  {
    var s := states[j];
    if s.pcs[c].Calling? {
      TakenIsContested(s, v);
      assert FirstSection(labels, i, j, c);
    } else {
      UnrefusedStays(states, labels, i, j, c, v);
      assert forall o <- v :: Awaits(s, c, o);
    }
    if First(s.flags, v) < |v| { SettleTakes(s.flags, v); }
  }

  /** The steps of others leave a caller where it is, or wake it. */
  lemma OthersLeave(s: State, l: Label, n: State, c: Tid)
    requires Step(s, l, n) && l != Run(c) && c in s.pcs && !s.pcs[c].Idle?
    ensures c in n.pcs && (n.pcs[c] == s.pcs[c] || (s.pcs[c].Asleep? && n.pcs[c] == Woken(s.pcs[c].v)))
  {}

  lemma JoinStepped(states: seq<State>, labels: seq<Label>, i: nat, j: nat, c: Tid, v: seq<Obj>)
    requires IsRun(states, labels) && i < j < |labels| && JoinAt(states, labels, i, j, c, v) && !states[j].pcs[c].Idle?
    ensures JoinAt(states, labels, i, j + 1, c, v)
  {
    RunInv(states, labels, j);
    assert Step(states[j], labels[j], states[j + 1]);
    if labels[j] == Run(c) {
      SectionAnswers(states, labels, i, j, c, v);
    } else {
      OthersLeave(states[j], labels[j], states[j + 1], c);
      if !states[j].pcs[c].Calling? { UnrefusedStays(states, labels, i, j, c, v); }
    }
  }

  lemma {:induction false} JoinProgress(states: seq<State>, labels: seq<Label>, i: nat, j: nat, c: Tid, v: seq<Obj>)
    requires InCall(states, labels, i, j, c, v)
    ensures JoinAt(states, labels, i, j, c, v)
  {
    if j == i + 1 {
      assert Step(states[i], labels[i], states[j]);
    } else {
      JoinProgress(states, labels, i, j - 1, c, v);
      JoinStepped(states, labels, i, j - 1, c, v);
    }
  }

  /** A join from its call to its return.  It is refused if and only if its first critical section finds
      one of its threads joined or awaited already, and then it ends with that section, which
      changes nothing; a call past its first section is never refused.  Otherwise its last
      section joins the first thread that is completed, with no mark of the call left. */
  lemma JoinAnswers(states: seq<State>, labels: seq<Label>, i: nat, j: nat, c: Tid, v: seq<Obj>)
    requires InCall(states, labels, i, j, c, v) && c in states[j].pcs && states[j].pcs[c].Idle?
    ensures exists k | i < k < j :: FirstSection(labels, i, k, c) &&
              (states[j].pcs[c].last.Refused? <==> Contested(states[k], v)) &&
              (states[j].pcs[c].last.Refused? ==> k == j - 1 && states[j].flags == states[k].flags)
    ensures labels[j - 1] == Run(c)
    ensures !states[j].pcs[c].last.Refused? ==>
              TakesFirst(states[j - 1].flags, states[j].flags, v, states[j].pcs[c].last)
  {
    JoinProgress(states, labels, i, j, c, v);
    AnswersMean(states, labels, i, j, c, v, states[j].pcs[c].last);
  }

  lemma AnswersMean(states: seq<State>, labels: seq<Label>, i: nat, j: nat, c: Tid, v: seq<Obj>, r: Outcome)
    requires |states| == |labels| + 1 && i < j <= |labels| && Answers(states, labels, i, j, c, v, r)
    ensures exists k | i < k < j :: FirstSection(labels, i, k, c) && (r.Refused? <==> Contested(states[k], v)) &&
                                    (r.Refused? ==> k == j - 1 && states[j].flags == states[k].flags)
    ensures labels[j - 1] == Run(c)
  {
    if r.Refused? { assert FirstSection(labels, i, j - 1, c); }
  }

  /** While no thread completes and it is not woken otherwise, a sleeper sleeps. */
  lemma {:induction false} SleepsOn(states: seq<State>, labels: seq<Label>, a: nat, b: nat, c: Tid)
    requires IsRun(states, labels) && a <= b <= |labels| && c in states[a].pcs && states[a].pcs[c].Asleep?
    requires forall k | a <= k < b :: !labels[k].Complete? && labels[k] != Spurious(c)
    ensures c in states[b].pcs && states[b].pcs[c].Asleep?
  {
    if a < b {
      SleepsOn(states, labels, a, b - 1, c);
      assert Step(states[b - 1], labels[b - 1], states[b]);
    }
  }

  /** A call does not go round in circles: between two of its sections some thread has completed, or
      its thread has been woken spuriously. */
  lemma SectionsAreApart(states: seq<State>, labels: seq<Label>, k: nat, m: nat, c: Tid)
    requires IsRun(states, labels) && k < m < |labels| && labels[k] == labels[m] == Run(c)
    requires forall l | k < l < m :: !(labels[l].Join? && labels[l].c == c)
    ensures exists l | k < l < m :: labels[l].Complete? || labels[l] == Spurious(c)
  {
    assert Step(states[k], labels[k], states[k + 1]);
    if forall l | k + 1 <= l < m :: !labels[l].Complete? && labels[l] != Spurious(c) {
      assert Step(states[m], labels[m], states[m + 1]);
      if states[k + 1].pcs[c].Asleep? {
        SleepsOn(states, labels, k + 1, m, c);
      } else {
        StaysIdle(states, labels, k + 1, m, c);
      }
    }
  }

  lemma {:induction false} StaysIdle(states: seq<State>, labels: seq<Label>, a: nat, b: nat, c: Tid)
    requires IsRun(states, labels) && a <= b <= |labels| && c in states[a].pcs && states[a].pcs[c].Idle?
    requires forall k | a <= k < b :: !(labels[k].Join? && labels[k].c == c)
    ensures c in states[b].pcs && states[b].pcs[c].Idle?
  {
    if a < b {
      StaysIdle(states, labels, a, b - 1, c);
      assert Step(states[b - 1], labels[b - 1], states[b]);
    }
  }

  /** A section after which the caller sleeps marks its threads and does nothing else; later ones find
      them marked. */
  lemma SleepingMarks(states: seq<State>, labels: seq<Label>, i: nat, k: nat, c: Tid, v: seq<Obj>)
    requires InCall(states, labels, i, k, c, v) && k < |labels| && labels[k] == Run(c)
    requires c in states[k].pcs && !states[k].pcs[c].Idle? && c in states[k + 1].pcs && states[k + 1].pcs[c].Asleep?
    ensures MarksOnly(states[k].flags, states[k + 1].flags, v)
    ensures forall o <- v :: o in states[k].flags && !states[k].flags[o].completed
  {
    JoinProgress(states, labels, i, k, c, v);
    RunInv(states, labels, k);
    assert Step(states[k], labels[k], states[k + 1]);
    SectionAnswers(states, labels, i, k, c, v);
    forall o | o in v ensures o in states[k].flags && !states[k].flags[o].completed {
      var m :| 0 <= m < |v| && v[m] == o;
    }
  }
}
