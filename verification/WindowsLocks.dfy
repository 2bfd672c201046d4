/**
 Simple and recursive locks of windows-threads-primitives.c: a counter that is incremented
 and decremented atomically, and a semaphore on which losers of the increment wait.

 Every access to a shared field is one step.  The re-entry error path of a simple lock
 decrements the counter without atomicity, as a load and a store; a timed wait may give up
 without undoing its increment.
 */
module WindowsLocks {
  import opened Options

  type Tid = nat

  /** How a thread's latest call ended. */
  datatype Outcome = Nothing | Acquired | AlreadyLocked | TimedOut | Released | NotLocked | GeneralError

  datatype Pc =
    | Idle(last: Outcome)
    | CheckOwner(timed: bool)     // wait-for-recursive-lock: do we own it already?
    | Bump                        // recursion_count++
    | Increment(timed: bool)
    | Slow(timed: bool)           // wait-for-simple-lock-internal: do we own it already?
    | ReentryLoad                 // lock_count--, first half
    | ReentryStore(r: int)        // lock_count--, second half
    | Wait(timed: bool)
    | TakeOwner
    | SetRecursion
    | Release                     // release: do we own it?
    | Unbump                      // --recursion_count
    | ClearOwner
    | Decrement
    | Post

  /** `holder` names the thread that has acquired the lock and not yet given its right away;
      `lost` counts increments overwritten by a re-entry's store; `abandoned` counts waits that
      timed out.  These three are not in the program; `BookkeepingIsTrue` says what the last two
      are in terms of the steps taken. */
  datatype State = State(
    recursive: bool,
    owner: Option<Tid>,
    lockCount: int,
    semaphore: nat,
    recursion: int,
    pcs: map<Tid, Pc>,
    holder: Option<Tid>,
    lost: int,
    abandoned: nat)

  const SEMAPHORE_MAX: nat := 1

  function Goto(s: State, t: Tid, pc: Pc): State { s.(pcs := s.pcs[t := pc]) }

  /** Acquiring: the next step of a thread, which stays put while it must wait. */
  function AcquireStep(s: State, t: Tid, pc: Pc): State {
    match pc
    case CheckOwner(timed) => Goto(s, t, if s.owner == Some(t) then Bump else Increment(timed))
    case Bump => Goto(s.(recursion := s.recursion + 1), t, Idle(Acquired))
    case Increment(timed) =>
      var n := s.(lockCount := s.lockCount + 1);
      if n.lockCount == 0 then Goto(n.(holder := Some(t)), t, TakeOwner)
      else Goto(n, t, if s.recursive then Wait(timed) else Slow(timed))
    case Slow(timed) => Goto(s, t, if s.owner == Some(t) then ReentryLoad else Wait(timed))
    case ReentryLoad => Goto(s, t, ReentryStore(s.lockCount))
    case ReentryStore(r) => Goto(s.(lockCount := r - 1, lost := s.lost + (s.lockCount - r)), t, Idle(AlreadyLocked))
    case Wait(_) =>
      if s.semaphore == 0 then s
      else Goto(s.(semaphore := s.semaphore - 1, holder := Some(t)), t, TakeOwner)
    case TakeOwner =>
      if s.recursive then Goto(s.(owner := Some(t)), t, SetRecursion)
      else Goto(s.(owner := Some(t)), t, Idle(Acquired))
    case SetRecursion => Goto(s.(recursion := 1), t, Idle(Acquired))
    case _ => s
  }

  /** Releasing. */
  function ReleaseStep(s: State, t: Tid, pc: Pc): State {
    match pc
    case Release =>
      Goto(s, t, if s.owner != Some(t) then Idle(NotLocked) else if s.recursive then Unbump else ClearOwner)
    case Unbump =>
      Goto(s.(recursion := s.recursion - 1), t, if s.recursion - 1 == 0 then ClearOwner else Idle(Released))
    case ClearOwner => Goto(s.(owner := None), t, Decrement)
    case Decrement =>
      var n := s.(lockCount := s.lockCount - 1);
      if n.lockCount >= 0 then Goto(n, t, Post) else Goto(n.(holder := None), t, Idle(Released))
    case Post =>
      // ReleaseSemaphore fails above its maximum
      if s.semaphore >= SEMAPHORE_MAX then Goto(s, t, Idle(GeneralError))
      else Goto(s.(semaphore := s.semaphore + 1, holder := None), t, Idle(Released))
    case _ => s
  }

  predicate Acquiring(pc: Pc) {
    !pc.Idle? && !pc.Release? && !pc.Unbump? && !pc.ClearOwner? && !pc.Decrement? && !pc.Post?
  }

  function Advance(s: State, t: Tid): State
    requires t in s.pcs
  {
    if Acquiring(s.pcs[t]) then AcquireStep(s, t, s.pcs[t]) else ReleaseStep(s, t, s.pcs[t])
  }

  datatype Label = Lock(t: Tid, timed: bool) | Unlock(t: Tid) | Run(t: Tid) | TimeOut(t: Tid)

  predicate Step(s: State, l: Label, n: State) {
    match l
    case Lock(t, timed) =>
      (t in s.pcs ==> s.pcs[t].Idle?) &&
      n == Goto(s, t, if s.recursive then CheckOwner(timed) else Increment(timed))
    case Unlock(t) => (t in s.pcs ==> s.pcs[t].Idle?) && n == Goto(s, t, Release)
    case Run(t) => t in s.pcs && n == Advance(s, t)
    case TimeOut(t) =>
      t in s.pcs && s.pcs[t] == Wait(true) && n == Goto(s.(abandoned := s.abandoned + 1), t, Idle(TimedOut))
  }

  function Fresh(recursive: bool): State {
    State(recursive, None, -1, 0, 0, map[], None, 0, 0)
  }

  // ---------------------------------------------------------------- one token

  /** The thread at this point has the right to the lock although `owner` does not name it. */
  predicate Entitled(pc: Pc) { pc.TakeOwner? || pc.Decrement? || pc.Post? }

  /** `owner` must name the thread at this point. */
  predicate MustOwn(pc: Pc) {
    pc.Bump? || pc.ReentryLoad? || pc.ReentryStore? || pc.SetRecursion? || pc.Unbump? || pc.ClearOwner?
  }

  predicate MayOwn(pc: Pc) {
    MustOwn(pc) || pc.Idle? || pc.CheckOwner? || pc.Increment? || pc.Slow? || pc.Release?
  }

  /** What an answer says of who has the lock; after a release of a recursive lock the caller may
      still have it. */
  predicate AnswerOk(last: Outcome, recursive: bool, owns: bool) {
    match last
    case Acquired => owns
    case AlreadyLocked => owns && !recursive
    case TimedOut | NotLocked | Nothing => !owns
    case Released => owns ==> recursive
    case GeneralError => false
  }

  ghost predicate TokenInv(s: State) {
    s.semaphore <= SEMAPHORE_MAX && s.lockCount >= -1 &&
    (s.lockCount >= 0 <==> s.holder.Some? || s.semaphore == 1) &&
    (s.holder.Some? ==> s.semaphore == 0 && s.holder.value in s.pcs) &&
    (s.owner.Some? ==> s.owner == s.holder && MayOwn(s.pcs[s.owner.value])) &&
    (forall t <- s.pcs ::
      (Entitled(s.pcs[t]) || s.owner == Some(t) <==> s.holder == Some(t)) &&
      (MustOwn(s.pcs[t]) ==> s.owner == Some(t)) &&
      (s.pcs[t].Idle? ==> AnswerOk(s.pcs[t].last, s.recursive, s.owner == Some(t))) &&
      (s.pcs[t].Slow? && s.owner == Some(t) ==> s.lockCount >= 1) &&
      (s.pcs[t].ReentryLoad? ==> s.lockCount >= 1) &&
      (s.pcs[t].ReentryStore? ==> 1 <= s.pcs[t].r <= s.lockCount) &&
      (s.recursive ==> !s.pcs[t].Slow? && !s.pcs[t].ReentryLoad? && !s.pcs[t].ReentryStore?) &&
      (s.pcs[t].Increment? && s.recursive ==> s.owner != Some(t)) &&
      (s.pcs[t].Wait? ==> s.owner != Some(t)) &&
      (!s.recursive ==> !s.pcs[t].CheckOwner? && !s.pcs[t].Bump? && !s.pcs[t].SetRecursion? && !s.pcs[t].Unbump?))
  }

  lemma EntryKeepsToken(s: State, t: Tid, n: State)
    requires TokenInv(s) && t in s.pcs && (s.pcs[t].CheckOwner? || s.pcs[t].Bump? || s.pcs[t].Increment?)
    requires n == AcquireStep(s, t, s.pcs[t])
    ensures TokenInv(n)
  {}

  lemma ReentryKeepsToken(s: State, t: Tid, n: State)
    requires TokenInv(s) && t in s.pcs && (s.pcs[t].Slow? || s.pcs[t].ReentryLoad? || s.pcs[t].ReentryStore?)
    requires n == AcquireStep(s, t, s.pcs[t])
    ensures TokenInv(n)
  {}

  lemma TakingKeepsToken(s: State, t: Tid, n: State)
    requires TokenInv(s) && t in s.pcs && (s.pcs[t].Wait? || s.pcs[t].TakeOwner? || s.pcs[t].SetRecursion?)
    requires n == AcquireStep(s, t, s.pcs[t])
    ensures TokenInv(n)
  {}

  lemma ReleaseKeepsToken(s: State, t: Tid, n: State)
    requires TokenInv(s) && t in s.pcs
    requires (s.pcs[t].Idle? || s.pcs[t].Release? || s.pcs[t].Unbump? || s.pcs[t].ClearOwner?)
    requires n == ReleaseStep(s, t, s.pcs[t])
    ensures TokenInv(n)
  {}

  lemma GivingKeepsToken(s: State, t: Tid, n: State)
    requires TokenInv(s) && t in s.pcs && (s.pcs[t].Decrement? || s.pcs[t].Post?) && n == ReleaseStep(s, t, s.pcs[t])
    ensures TokenInv(n)
  {}

  lemma RunKeepsToken(s: State, t: Tid, n: State)
    requires TokenInv(s) && t in s.pcs && n == Advance(s, t)
    ensures TokenInv(n)
  {
    var pc := s.pcs[t];
    if pc.Decrement? || pc.Post? { GivingKeepsToken(s, t, n); }
    else if !Acquiring(pc) { ReleaseKeepsToken(s, t, n); }
    else if pc.CheckOwner? || pc.Bump? || pc.Increment? { EntryKeepsToken(s, t, n); }
    else if pc.Slow? || pc.ReentryLoad? || pc.ReentryStore? { ReentryKeepsToken(s, t, n); }
    else { TakingKeepsToken(s, t, n); }
  }

  lemma CallKeepsToken(s: State, l: Label, n: State)
    requires TokenInv(s) && Step(s, l, n) && !l.Run?
    ensures TokenInv(n)
  {}

  lemma StepKeepsToken(s: State, l: Label, n: State)
    requires TokenInv(s) && Step(s, l, n)
    ensures TokenInv(n)
  {
    if l.Run? { RunKeepsToken(s, l.t, n); } else { CallKeepsToken(s, l, n); }
  }

  // ---------------------------------------------------------------- accounting for the counter

  /** An increment of this thread is outstanding although it does not have the lock through it. */
  predicate Waiting(pc: Pc) { pc.Slow? || pc.Wait? || pc.ReentryLoad? || pc.ReentryStore? }

  function WaitingIn(pcs: map<Tid, Pc>): set<Tid> { set t | t in pcs && Waiting(pcs[t]) }

  /** The holder's increment has not been undone yet. */
  predicate HolderCounted(s: State) {
    s.holder.Some? && s.holder.value in s.pcs && !s.pcs[s.holder.value].Post?
  }

  ghost predicate Account(s: State) {
    s.lockCount + 1 + s.lost == (if HolderCounted(s) then 1 else 0) + |WaitingIn(s.pcs)| + s.abandoned
  }

  lemma WaitingMoves(pcs: map<Tid, Pc>, t: Tid, pc: Pc)
    ensures |WaitingIn(pcs[t := pc])| == |WaitingIn(pcs)| + (if Waiting(pc) then 1 else 0)
                                         - (if t in pcs && Waiting(pcs[t]) then 1 else 0)
  {
    var a := WaitingIn(pcs) - {t};
    assert WaitingIn(pcs) == if t in pcs && Waiting(pcs[t]) then a + {t} else a;
    assert WaitingIn(pcs[t := pc]) == if Waiting(pc) then a + {t} else a;
  }

  lemma AcquireKeepsAccount(s: State, t: Tid, n: State)
    requires TokenInv(s) && Account(s) && t in s.pcs && Acquiring(s.pcs[t]) && n == AcquireStep(s, t, s.pcs[t]) &&
             n != s
    ensures Account(n)
  {
    WaitingMoves(s.pcs, t, n.pcs[t]);
  }

  lemma ReleaseKeepsAccount(s: State, t: Tid, n: State)
    requires TokenInv(s) && Account(s) && t in s.pcs && !Acquiring(s.pcs[t]) && n == ReleaseStep(s, t, s.pcs[t]) &&
             n != s
    ensures Account(n)
  {
    WaitingMoves(s.pcs, t, n.pcs[t]);
  }

  lemma StepKeepsAccount(s: State, l: Label, n: State)
    requires TokenInv(s) && Account(s) && Step(s, l, n)
    ensures Account(n)
  {
    match l
    case Lock(t, _) => WaitingMoves(s.pcs, t, n.pcs[t]);
    case Unlock(t) => WaitingMoves(s.pcs, t, n.pcs[t]);
    case Run(t) =>
      if n != s { if Acquiring(s.pcs[t]) { AcquireKeepsAccount(s, t, n); } else { ReleaseKeepsAccount(s, t, n); } }
    case TimeOut(t) => WaitingMoves(s.pcs, t, Idle(TimedOut));
  }

  // ---------------------------------------------------------------- acquisitions and releases

  /** The recursion count is positive while the lock is had. */
  ghost predicate Depth(s: State) {
    forall t <- s.pcs | s.recursive && s.owner == Some(t) && !s.pcs[t].SetRecursion? ::
      if s.pcs[t].ClearOwner? then s.recursion == 0 else s.recursion >= 1
  }

  lemma AcquireKeepsDepth(s: State, t: Tid, n: State)
    requires TokenInv(s) && Depth(s) && t in s.pcs && Acquiring(s.pcs[t]) && n == AcquireStep(s, t, s.pcs[t])
    ensures Depth(n)
  {}

  lemma ReleaseKeepsDepth(s: State, t: Tid, n: State)
    requires TokenInv(s) && Depth(s) && t in s.pcs && !Acquiring(s.pcs[t]) && n == ReleaseStep(s, t, s.pcs[t])
    ensures Depth(n)
  {}

  lemma StepKeepsDepth(s: State, l: Label, n: State)
    requires TokenInv(s) && Depth(s) && Step(s, l, n)
    ensures Depth(n)
  {
    match l
    case Run(t) => if Acquiring(s.pcs[t]) { AcquireKeepsDepth(s, t, n); } else { ReleaseKeepsDepth(s, t, n); }
    case _ =>
  }

  /** What a step of `t` that ends a call adds to the count of its answers. */
  function NetAfter(net: int, s: State, n: State, t: Tid): int {
    if t in s.pcs && t in n.pcs && !s.pcs[t].Idle? && n.pcs[t].Idle? then
      match n.pcs[t].last
      case Acquired => net + 1
      case Released => net - 1
      case _ => net
    else net
  }

  /** The calls of `t` that answered with an acquisition, less those that answered with a release. */
  function Net(states: seq<State>, t: Tid): int {
    if |states| < 2 then 0
    else NetAfter(Net(states[..|states| - 1], t), states[|states| - 2], states[|states| - 1], t)
  }

  /** A release has taken effect and not been answered. */
  predicate Owed(pc: Pc, recursive: bool) { (pc.ClearOwner? && recursive) || pc.Decrement? || pc.Post? }

  function Worth(s: State, t: Tid): int
    requires t in s.pcs
  {
    (if s.owner != Some(t) || s.pcs[t].SetRecursion? then 0 else if s.recursive then s.recursion else 1) +
    (if Owed(s.pcs[t], s.recursive) then 1 else 0)
  }

  ghost predicate NetOk(s: State, t: Tid, net: int) { net == if t in s.pcs then Worth(s, t) else 0 }

  lemma AcquireKeepsNet(s: State, u: Tid, n: State, t: Tid, net: int)
    requires TokenInv(s) && Depth(s) && u in s.pcs && Acquiring(s.pcs[u]) && n == AcquireStep(s, u, s.pcs[u])
    requires NetOk(s, t, net)
    ensures NetOk(n, t, NetAfter(net, s, n, t))
  {}

  lemma ReleaseKeepsNet(s: State, u: Tid, n: State, t: Tid, net: int)
    requires TokenInv(s) && Depth(s) && u in s.pcs && !Acquiring(s.pcs[u]) && n == ReleaseStep(s, u, s.pcs[u])
    requires NetOk(s, t, net)
    ensures NetOk(n, t, NetAfter(net, s, n, t))
  {}

  lemma StepKeepsNet(s: State, l: Label, n: State, t: Tid, net: int)
    requires TokenInv(s) && Depth(s) && Step(s, l, n) && NetOk(s, t, net)
    ensures NetOk(n, t, NetAfter(net, s, n, t))
  {
    match l
    case Run(u) =>
      if Acquiring(s.pcs[u]) {
        AcquireKeepsNet(s, u, n, t, net);
      } else {
        ReleaseKeepsNet(s, u, n, t, net);
      }
    case _ =>
  }

  // ---------------------------------------------------------------- every run

  ghost predicate Inv(s: State) { TokenInv(s) && Account(s) && Depth(s) }

  ghost predicate IsRun(recursive: bool, states: seq<State>, labels: seq<Label>) {
    |states| == |labels| + 1 && states[0] == Fresh(recursive) &&
    forall i | 0 <= i < |labels| :: Step(states[i], labels[i], states[i + 1])
  }

  lemma {:induction false} RunInv(recursive: bool, states: seq<State>, labels: seq<Label>)
    requires IsRun(recursive, states, labels)
    ensures Inv(states[|labels|])
  {
    if labels == [] {
      assert WaitingIn(map[]) == {};
    } else {
      var k := |labels| - 1;
      RunInv(recursive, states[..k + 1], labels[..k]);
      StepKeepsToken(states[k], labels[k], states[k + 1]);
      StepKeepsAccount(states[k], labels[k], states[k + 1]);
      StepKeepsDepth(states[k], labels[k], states[k + 1]);
    }
  }

  lemma {:induction false} NetCounts(recursive: bool, states: seq<State>, labels: seq<Label>, t: Tid)
    requires IsRun(recursive, states, labels)
    ensures NetOk(states[|labels|], t, Net(states, t))
  {
    if labels != [] {
      var k := |labels| - 1;
      NetCounts(recursive, states[..k + 1], labels[..k], t);
      RunInv(recursive, states[..k + 1], labels[..k]);
      assert states[..|states| - 1] == states[..k + 1];
      StepKeepsNet(states[k], labels[k], states[k + 1], t, Net(states[..k + 1], t));
    }
  }

  /** In every run, time-outs and re-entries included: at most one thread has the lock, the
      counter is non-negative exactly when somebody has it or the semaphore is posted, and a
      release never finds the semaphore at its maximum. */
  lemma OneHolder(recursive: bool, states: seq<State>, labels: seq<Label>, t: Tid, u: Tid)
    requires IsRun(recursive, states, labels)
    ensures var s := states[|labels|];
            (s.lockCount >= 0 <==> s.holder.Some? || s.semaphore == 1) && s.lockCount >= -1 &&
            (t in s.pcs && s.pcs[t].Post? ==> s.semaphore == 0) &&
            (s.owner == Some(t) ==> s.holder == Some(t)) &&
            (t in s.pcs && s.pcs[t].Idle? && Net(states, t) > 0 &&
             u in s.pcs && s.pcs[u].Idle? && Net(states, u) > 0 ==>
               t == u)
  {
    RunInv(recursive, states, labels);
    NetCounts(recursive, states, labels, t);
    NetCounts(recursive, states, labels, u);
  }

  /** Every answer is true: who was told that it acquired the lock or had it already has it; who
      was told that it timed out or does not have it does not.  Counting by these answers, an idle
      thread has the lock exactly when its acquisitions outnumber its releases, and the
      recursion count is the difference. */
  lemma CallsAnswerTruly(recursive: bool, states: seq<State>, labels: seq<Label>, t: Tid)
    requires IsRun(recursive, states, labels) && t in states[|labels|].pcs && states[|labels|].pcs[t].Idle?
    ensures var s := states[|labels|]; var last := s.pcs[t].last;
            (last == Acquired || last == AlreadyLocked ==> s.owner == Some(t) && s.holder == Some(t)) &&
            (last == TimedOut || last == NotLocked || (last == Released && !recursive) ==>
             s.owner != Some(t) && s.holder != Some(t)) &&
            last != GeneralError
    ensures var s := states[|labels|];
            Net(states, t) >= 0 && (Net(states, t) > 0 <==> s.owner == Some(t)) &&
            (Net(states, t) > 0 ==> Net(states, t) == if recursive then s.recursion else 1)
  {
    RunInv(recursive, states, labels);
    NetCounts(recursive, states, labels, t);
    RecursiveStays(states, labels, |labels|, recursive);
  }

  /** A thread waits on a lock that nobody has and that nobody has posted. */
  ghost predicate Stranded(s: State) {
    (exists t :: t in s.pcs && s.pcs[t].Wait?) && s.holder.None? && s.semaphore == 0
  }

  /** How many increments the step `l` overwrites: those made between the load and the store of
      a re-entry's decrement. */
  function Overwritten(s: State, l: Label): int {
    if l.Run? && l.t in s.pcs && s.pcs[l.t].ReentryStore? then s.lockCount - s.pcs[l.t].r else 0
  }

  function AllOverwritten(states: seq<State>, labels: seq<Label>): int
    requires |states| == |labels| + 1
  {
    if labels == [] then 0
    else
      var k := |labels| - 1;
      AllOverwritten(states[..k + 1], labels[..k]) + Overwritten(states[k], labels[k])
  }

  function TimeOuts(labels: seq<Label>): nat {
    if labels == [] then 0
    else TimeOuts(labels[..|labels| - 1]) + if labels[|labels| - 1].TimeOut? then 1 else 0
  }

  lemma {:induction false} BookkeepingIsTrue(recursive: bool, states: seq<State>, labels: seq<Label>)
    requires IsRun(recursive, states, labels)
    ensures states[|labels|].lost == AllOverwritten(states, labels)
    ensures states[|labels|].abandoned == TimeOuts(labels)
  {
    if labels != [] {
      var k := |labels| - 1;
      BookkeepingIsTrue(recursive, states[..k + 1], labels[..k]);
      StepBooks(states[k], labels[k], states[k + 1]);
    }
  }

  lemma StepBooks(s: State, l: Label, n: State)
    requires Step(s, l, n)
    ensures n.lost == s.lost + Overwritten(s, l) && n.abandoned == s.abandoned + if l.TimeOut? then 1 else 0
  {}

  /** When nobody has the lock, the waiters are stranded exactly when the steps of the run have
      overwritten at least as many increments as there are waits outstanding or timed out. */
  lemma StrandedWhenLost(recursive: bool, states: seq<State>, labels: seq<Label>, t: Tid)
    requires IsRun(recursive, states, labels)
    requires t in states[|labels|].pcs && states[|labels|].pcs[t].Wait? && states[|labels|].holder.None?
    ensures var s := states[|labels|];
            Stranded(s) <==> AllOverwritten(states, labels) >= |WaitingIn(s.pcs)| + TimeOuts(labels)
  {
    RunInv(recursive, states, labels);
    BookkeepingIsTrue(recursive, states, labels);
  }

  /** A store never gives an increment back. */
  lemma OverwrittenIsNatural(recursive: bool, states: seq<State>, labels: seq<Label>, i: nat)
    requires IsRun(recursive, states, labels) && i < |labels|
    ensures Overwritten(states[i], labels[i]) >= 0
  {
    RunInv(recursive, states[..i + 1], labels[..i]);
  }

  lemma {:induction false} AllOverwrittenIsNatural(recursive: bool, states: seq<State>, labels: seq<Label>)
    requires IsRun(recursive, states, labels)
    ensures AllOverwritten(states, labels) >= 0
    ensures AllOverwritten(states, labels) == 0 <==>
            forall i | 0 <= i < |labels| :: Overwritten(states[i], labels[i]) == 0
  {
    if labels != [] {
      var k := |labels| - 1;
      AllOverwrittenIsNatural(recursive, states[..k + 1], labels[..k]);
      OverwrittenIsNatural(recursive, states, labels, k);
      if forall i | 0 <= i < k :: Overwritten(states[..k + 1][i], labels[..k][i]) == 0 {
        forall i | 0 <= i < k ensures Overwritten(states[i], labels[i]) == 0 {
          assert Overwritten(states[..k + 1][i], labels[..k][i]) == 0;
        }
      } else {
        var i :| 0 <= i < k && Overwritten(states[..k + 1][i], labels[..k][i]) != 0;
        assert Overwritten(states[i], labels[i]) != 0;
      }
    }
  }

  /** Nobody has the lock, and no wakeup for it is on its way. */
  predicate Deserted(s: State) { s.holder.None? && s.semaphore == 0 }

  /** How many are left behind on a deserted lock: exactly as many as increments have been
      overwritten and not made up for by waits that timed out. */
  lemma LeftBehind(recursive: bool, states: seq<State>, labels: seq<Label>)
    requires IsRun(recursive, states, labels) && Deserted(states[|labels|])
    ensures |WaitingIn(states[|labels|].pcs)| == AllOverwritten(states, labels) - TimeOuts(labels)
  {
    RunInv(recursive, states, labels);
    BookkeepingIsTrue(recursive, states, labels);
  }

  /** Exactly when a run never leaves anybody behind on a deserted lock: whenever the lock is
      deserted, as many waits have timed out as increments have been overwritten. */
  lemma NobodyLeftBehind(recursive: bool, states: seq<State>, labels: seq<Label>)
    requires IsRun(recursive, states, labels)
    ensures (forall i | 0 <= i <= |labels| && Deserted(states[i]) :: WaitingIn(states[i].pcs) == {}) <==>
            (forall i | 0 <= i <= |labels| && Deserted(states[i]) ::
               AllOverwritten(states[..i + 1], labels[..i]) == TimeOuts(labels[..i]))
  {
    forall i | 0 <= i <= |labels| && Deserted(states[i])
      ensures |WaitingIn(states[i].pcs)| == AllOverwritten(states[..i + 1], labels[..i]) - TimeOuts(labels[..i])
    {
      LeftBehind(recursive, states[..i + 1], labels[..i]);
    }
  }

  lemma {:induction false} LostGrowsByStores(recursive: bool, states: seq<State>, labels: seq<Label>)
    requires IsRun(recursive, states, labels)
    requires forall i, t | 0 <= i < |labels| && labels[i] == Run(t) &&
                           t in states[i].pcs && states[i].pcs[t].ReentryStore? ::
               states[i].lockCount == states[i].pcs[t].r
    ensures states[|labels|].lost == 0
  {
    if labels != [] {
      var k := |labels| - 1;
      LostGrowsByStores(recursive, states[..k + 1], labels[..k]);
    }
  }

  /** No waiter is stranded in a run in which nobody increments the counter between the two
      halves of a re-entry's decrement; in particular in a run without re-entries, and in
      every run of a recursive lock. */
  lemma NobodyStranded(recursive: bool, states: seq<State>, labels: seq<Label>)
    requires IsRun(recursive, states, labels)
    requires forall i, t | 0 <= i < |labels| && labels[i] == Run(t) &&
                           t in states[i].pcs && states[i].pcs[t].ReentryStore? ::
               states[i].lockCount == states[i].pcs[t].r
    ensures !Stranded(states[|labels|])
  {
    LostGrowsByStores(recursive, states, labels);
    RunInv(recursive, states, labels);
    var s := states[|labels|];
    forall t | t in s.pcs && s.pcs[t].Wait? ensures s.lockCount >= 0 {
      assert t in WaitingIn(s.pcs);
    }
  }

  lemma {:induction false} RecursiveNeverReenters(states: seq<State>, labels: seq<Label>)
    requires IsRun(true, states, labels)
    ensures !Stranded(states[|labels|])
  {
    forall i, t | 0 <= i < |labels| && t in states[i].pcs ensures !states[i].pcs[t].ReentryStore? {
      RecursiveStays(states, labels, i, true);
      RunInv(true, states[..i + 1], labels[..i]);
    }
    NobodyStranded(true, states, labels);
  }

  lemma {:induction false} RecursiveStays(states: seq<State>, labels: seq<Label>, i: nat, recursive: bool)
    requires IsRun(recursive, states, labels) && i <= |labels|
    ensures states[i].recursive == recursive
  {
    if i > 0 {
      RecursiveStays(states, labels, i - 1, recursive);
      KindStays(states[i - 1], labels[i - 1], states[i]);
    }
  }

  lemma KindStays(s: State, l: Label, n: State)
    requires Step(s, l, n)
    ensures n.recursive == s.recursive
  {}

  // ---------------------------------------------------------------- a lost waiter

  lemma Then(states: seq<State>, labels: seq<Label>, l: Label) returns (states': seq<State>, labels': seq<Label>)
    requires IsRun(false, states, labels)
    requires match l
             case Run(t) => t in states[|labels|].pcs
             case TimeOut(t) => t in states[|labels|].pcs && states[|labels|].pcs[t] == Wait(true)
             case Lock(t, _) => t in states[|labels|].pcs ==> states[|labels|].pcs[t].Idle?
             case Unlock(t) => t in states[|labels|].pcs ==> states[|labels|].pcs[t].Idle?
    ensures IsRun(false, states', labels') && labels' == labels + [l] && states' == states + [states'[|labels'|]]
    ensures Step(states[|labels|], l, states'[|labels'|])
  {
    var s := states[|labels|];
    var n := match l
      case Lock(t, timed) => Goto(s, t, if s.recursive then CheckOwner(timed) else Increment(timed))
      case Unlock(t) => Goto(s, t, Release)
      case Run(t) => Advance(s, t)
      case TimeOut(t) => Goto(s.(abandoned := s.abandoned + 1), t, Idle(TimedOut));
    states', labels' := states + [n], labels + [l];
  }

  /** Thread 1 has the lock, asks for it again, and has loaded the counter for its decrement. */
  lemma ReentryLoads() returns (states: seq<State>, labels: seq<Label>)
    ensures IsRun(false, states, labels)
    ensures states[|labels|] == State(false, Some(1), 1, 0, 0, map[1 := ReentryStore(1)], Some(1), 0, 0)
  {
    states, labels := [Fresh(false)], [];
    states, labels := Then(states, labels, Lock(1, false));
    states, labels := Then(states, labels, Run(1));
    states, labels := Then(states, labels, Run(1));
    states, labels := Then(states, labels, Lock(1, false));
    states, labels := Then(states, labels, Run(1));
    states, labels := Then(states, labels, Run(1));
    states, labels := Then(states, labels, Run(1));
    assert states[|labels|].pcs == map[1 := ReentryStore(1)];
  }

  /** Thread 2 increments and waits; then the decrement stores over its increment. */
  lemma WaiterOverwritten(timed: bool) returns (states: seq<State>, labels: seq<Label>)
    ensures IsRun(false, states, labels)
    ensures states[|labels|] ==
            State(false, Some(1), 0, 0, 0, map[1 := Idle(AlreadyLocked), 2 := Wait(timed)], Some(1), 1, 0)
  {
    states, labels := ReentryLoads();
    states, labels := Then(states, labels, Lock(2, timed));
    states, labels := Then(states, labels, Run(2));
    states, labels := Then(states, labels, Run(2));
    states, labels := Then(states, labels, Run(1));
    assert states[|labels|].pcs == map[1 := Idle(AlreadyLocked), 2 := Wait(timed)];
  }

  /** Thread 1 releases a simple lock on which, by the counter, nobody waits. */
  lemma Unlocks(states: seq<State>, labels: seq<Label>) returns (states': seq<State>, labels': seq<Label>)
    requires IsRun(false, states, labels) && !states[|labels|].recursive
    requires var s := states[|labels|]; s.owner == Some(1) && s.lockCount == 0 && 1 in s.pcs && s.pcs[1].Idle?
    ensures IsRun(false, states', labels')
    ensures var s := states[|labels|];
            states'[|labels'|] == Goto(s.(owner := None, lockCount := -1, holder := None), 1, Idle(Released))
  {
    states', labels' := Then(states, labels, Unlock(1));
    states', labels' := Then(states', labels', Run(1));
    states', labels' := Then(states', labels', Run(1));
    states', labels' := Then(states', labels', Run(1));
  }

  /** What the unprotected decrement can do: thread 1 re-enters while thread 2 arrives, then releases
      the lock, and thread 2 is left waiting on a free lock. */
  lemma LostWaiter() returns (states: seq<State>, labels: seq<Label>)
    ensures IsRun(false, states, labels) && Stranded(states[|labels|])
  {
    states, labels := WaiterOverwritten(false);
    states, labels := Unlocks(states, labels);
    assert states[|labels|].pcs[2] == Wait(false);
  }

  /** If thread 2 waits with a time limit and gives up before that, the lock is deserted and nobody
      is left behind, although an increment was overwritten: that none is, is enough for
      nobody to be stranded, but not necessary. */
  lemma CompensatedLoss() returns (states: seq<State>, labels: seq<Label>)
    ensures IsRun(false, states, labels) && Deserted(states[|labels|]) && WaitingIn(states[|labels|].pcs) == {}
    ensures AllOverwritten(states, labels) == 1 == TimeOuts(labels)
  {
    states, labels := WaiterOverwritten(true);
    states, labels := Then(states, labels, TimeOut(2));
    states, labels := Unlocks(states, labels);
    BookkeepingIsTrue(false, states, labels);
  }
}
