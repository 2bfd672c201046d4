/**
 Simple and recursive locks of unix-threads-primitives.c: an error-checking mutex and, beside
 it, an owner and a count that the calls read and write on their own.  Every access to a
 shared field and every call of the POSIX library is one step; `owner` is read without the
 mutex.  A failed assertion sends its thread to `Failed`, an error from a mutex operation
 ends the call with `GeneralError`.
 */
module UnixLocks {
  import opened Options

  type Tid = nat

  /** How a thread's latest call ended; `Unlocked` and `UnlockRefused` are the answers of the loop in
      `primitive_unlock_recursive_lock`, and of a call that finds nothing to unlock. */
  datatype Outcome =
    | Nothing | Acquired | AlreadyLocked | TimedOut | Released | NotLocked | Notified | Waited | WaitTimedOut
    | Unlocked | UnlockRefused | GeneralError

  datatype Pc =
    | Idle(last: Outcome)
    | Failed(line: nat)
    // acquiring; `timeout` is what the caller gave, `left` what is left of it
    | CheckOwner(timeout: Option<int>)
    | AssertPositive(timed: bool)
    | Bump
    | LockMutex
    | TryLock(left: int)
    | AssertZero(timed: bool)
    | SetCount
    | SetOwner
    // waiting for a notification
    | WaitCheck(timed: bool)
    | DropOwner(timed: bool)
    | CondWait(timed: bool)
    | Asleep(timed: bool)
    | WantMutex(timed: bool, expired: bool)
    | AssertFree(timed: bool, expired: bool)
    | RetakeOwner(expired: bool)
    // notifying
    | SignalCheck(all: bool)
    | Signal(all: bool)
    // releasing; `again` when called in the loop of primitive_unlock_recursive_lock
    | ReleaseCheck(again: bool)
    | Decrement(again: bool)
    | ClearOwner(again: bool)
    | UnlockMutex(again: bool)
    // primitive_unlock_simple_lock and primitive_unlock_recursive_lock
    | UnlockCheck
    | UnlockAssert
    | UnlockLoop

  datatype State = State(
    recursive: bool,
    owner: Option<Tid>,
    count: int,
    mutex: Option<Tid>,
    pcs: map<Tid, Pc>)

  const SLEEP_TIME := 100

  function Fresh(recursive: bool): State { State(recursive, None, 0, None, map[]) }

  function Goto(s: State, t: Tid, pc: Pc): State { s.(pcs := s.pcs[t := pc]) }

  // ---------------------------------------------------------------- steps

  function AcquireStep(s: State, t: Tid, pc: Pc): State {
    match pc
    case CheckOwner(timeout) =>
      if s.owner == Some(t) then Goto(s, t, if s.recursive then AssertPositive(timeout.Some?) else Idle(AlreadyLocked))
      else Goto(s, t, if timeout.Some? then TryLock(timeout.value) else LockMutex)
    case AssertPositive(timed) => Goto(s, t, if s.count > 0 then Bump else Failed(if timed then 477 else 338))
    case Bump => Goto(s.(count := s.count + 1), t, Idle(Acquired))
    case LockMutex =>
      // an error-checking mutex refuses its holder; anybody else must wait
      if s.mutex == Some(t) then Goto(s, t, Idle(GeneralError))
      else if s.mutex.Some? then s
      else Goto(s.(mutex := Some(t)), t, if s.recursive then AssertZero(false) else SetOwner)
    case TryLock(left) =>
      if s.mutex.None? then Goto(s.(mutex := Some(t)), t, if s.recursive then AssertZero(true) else SetOwner)
      else Goto(s, t, if left <= 0 then Idle(TimedOut) else TryLock(left - SLEEP_TIME))
    case AssertZero(timed) => Goto(s, t, if s.count == 0 then SetCount else Failed(if timed then 499 else 349))
    case SetCount => Goto(s.(count := 1), t, SetOwner)
    case SetOwner => Goto(s.(owner := Some(t)), t, Idle(Acquired))
    case _ => s
  }

  function WaitStep(s: State, t: Tid, pc: Pc): State {
    match pc
    case WaitCheck(timed) => Goto(s, t, if s.owner != Some(t) then Idle(NotLocked) else DropOwner(timed))
    case DropOwner(timed) => Goto(s.(owner := None), t, CondWait(timed))
    case CondWait(timed) =>
      if s.mutex != Some(t) then Goto(s, t, Idle(GeneralError)) else Goto(s.(mutex := None), t, Asleep(timed))
    case WantMutex(timed, expired) =>
      if s.mutex.Some? then s else Goto(s.(mutex := Some(t)), t, AssertFree(timed, expired))
    case AssertFree(timed, expired) =>
      Goto(s, t,
           if s.owner.None? then RetakeOwner(expired)
           else Failed(if !timed then 406 else if expired then 588 else 583))
    case RetakeOwner(expired) =>
      Goto(s.(owner := Some(t)), t, Idle(if expired then WaitTimedOut else Waited))
    case SignalCheck(all) => Goto(s, t, if s.owner != Some(t) then Idle(NotLocked) else Signal(all))
    case _ => s
  }

  function ReleaseStep(s: State, t: Tid, pc: Pc): State {
    match pc
    case ReleaseCheck(again) =>
      Goto(s, t,
           if s.owner != Some(t) then Idle(if again then UnlockRefused else NotLocked)
           else if s.recursive then Decrement(again)
           else ClearOwner(again))
    case Decrement(again) =>
      Goto(s.(count := s.count - 1), t,
           if s.count - 1 == 0 then ClearOwner(again) else if again then UnlockLoop else Idle(Released))
    case ClearOwner(again) =>
      Goto(s.(owner := None), t, UnlockMutex(again))
    case UnlockMutex(again) =>
      if s.mutex != Some(t) then Goto(s, t, Idle(GeneralError))
      else Goto(s.(mutex := None), t, if again then UnlockLoop else Idle(Released))
    case UnlockCheck =>
      Goto(s, t, if s.owner.None? then (if s.recursive then UnlockAssert else Idle(Unlocked))
                 else if s.recursive then UnlockLoop else ReleaseCheck(false))
    case UnlockAssert => Goto(s, t, if s.count == 0 then Idle(Unlocked) else Failed(1302))
    case UnlockLoop => Goto(s, t, if s.count > 0 then ReleaseCheck(true) else Idle(Unlocked))
    case _ => s
  }

  predicate Acquires(pc: Pc) {
    pc.CheckOwner? || pc.AssertPositive? || pc.Bump? || pc.LockMutex? || pc.TryLock? || pc.AssertZero? ||
    pc.SetCount? || pc.SetOwner?
  }

  predicate Waits(pc: Pc) {
    pc.WaitCheck? || pc.DropOwner? || pc.CondWait? || pc.WantMutex? || pc.AssertFree? || pc.RetakeOwner? ||
    pc.SignalCheck?
  }

  predicate Releases(pc: Pc) {
    pc.ReleaseCheck? || pc.Decrement? || pc.ClearOwner? || pc.UnlockMutex? || pc.UnlockCheck? || pc.UnlockAssert? ||
    pc.UnlockLoop?
  }

  function Advance(s: State, t: Tid, pc: Pc): State {
    if Acquires(pc) then AcquireStep(s, t, pc) else if Waits(pc) then WaitStep(s, t, pc) else ReleaseStep(s, t, pc)
  }

  function WakeAll(pcs: map<Tid, Pc>): map<Tid, Pc> {
    map t | t in pcs :: if pcs[t].Asleep? then WantMutex(pcs[t].timed, false) else pcs[t]
  }

  predicate Sleeps(s: State, w: Tid) { w in s.pcs && s.pcs[w].Asleep? }

  ghost predicate SomeSleeps(s: State) { exists w :: Sleeps(s, w) }

  /** A broadcast wakes every sleeper, a signal one of them. */
  ghost predicate Signals(s: State, t: Tid, w: Tid, n: State)
    requires t in s.pcs && s.pcs[t].Signal?
  {
    var m := Goto(s, t, Idle(Notified));
    if s.pcs[t].all then n == m.(pcs := WakeAll(m.pcs))
    else if SomeSleeps(s) then Sleeps(s, w) && n == Goto(m, w, WantMutex(s.pcs[w].timed, false))
    else n == m
  }

  /** `Wake` is a wakeup without a signal, or the end of a timed wait. */
  datatype Label =
    | Lock(t: Tid, timeout: Option<int>) | Await(t: Tid, timed: bool) | Notify(t: Tid, all: bool)
    | Release(t: Tid) | Unlock(t: Tid) | Run(t: Tid, w: Tid) | Wake(t: Tid, expired: bool)

  predicate Free(s: State, t: Tid) { t in s.pcs ==> s.pcs[t].Idle? }

  /** Notifications belong to simple locks. */
  function Entry(s: State, l: Label): Option<(Tid, Pc)> {
    match l
    case Lock(t, timeout) => Some((t, CheckOwner(timeout)))
    case Await(t, timed) => if s.recursive then None else Some((t, WaitCheck(timed)))
    case Notify(t, all) => if s.recursive then None else Some((t, SignalCheck(all)))
    case Release(t) => Some((t, ReleaseCheck(false)))
    case Unlock(t) => Some((t, UnlockCheck))
    case _ => None
  }

  predicate Enabled(s: State, t: Tid) {
    t in s.pcs && !s.pcs[t].Idle? && !s.pcs[t].Failed? && !s.pcs[t].Asleep? &&
    !(s.pcs[t].LockMutex? && s.mutex.Some? && s.mutex != Some(t)) && !(s.pcs[t].WantMutex? && s.mutex.Some?)
  }

  ghost predicate Step(s: State, l: Label, n: State) {
    match l
    case Run(t, w) => Enabled(s, t) && if s.pcs[t].Signal? then Signals(s, t, w, n) else n == Advance(s, t, s.pcs[t])
    case Wake(t, expired) =>
      Sleeps(s, t) && (expired ==> s.pcs[t].timed) && n == Goto(s, t, WantMutex(s.pcs[t].timed, expired))
    case _ =>
      Entry(s, l).Some? && Free(s, Entry(s, l).value.0) && n == Goto(s, Entry(s, l).value.0, Entry(s, l).value.1)
  }

  ghost predicate IsRun(recursive: bool, states: seq<State>, labels: seq<Label>) {
    |states| == |labels| + 1 && states[0] == Fresh(recursive) &&
    forall i | 0 <= i < |labels| :: Step(states[i], labels[i], states[i + 1])
  }

  // ---------------------------------------------------------------- invariant

  /** `owner` names the thread at this point; or it does not although the thread has the mutex;
      or it may. */
  predicate MustOwn(pc: Pc) {
    pc.AssertPositive? || pc.Bump? || pc.DropOwner? || pc.Signal? || pc.Decrement? || pc.ClearOwner?
  }

  predicate HasMutexOnly(pc: Pc) {
    pc.AssertZero? || pc.SetCount? || pc.SetOwner? || pc.CondWait? || pc.AssertFree? || pc.RetakeOwner? ||
    pc.UnlockMutex?
  }

  predicate MayOwn(pc: Pc) {
    MustOwn(pc) || pc.Idle? || pc.CheckOwner? || pc.WaitCheck? || pc.SignalCheck? || pc.ReleaseCheck? ||
    pc.UnlockCheck? || pc.UnlockLoop?
  }

  predicate OnlySimple(pc: Pc) {
    pc.WaitCheck? || pc.DropOwner? || pc.CondWait? || pc.Asleep? || pc.WantMutex? || pc.AssertFree? ||
    pc.RetakeOwner? || pc.SignalCheck? || pc.Signal?
  }

  predicate OnlyRecursive(pc: Pc) {
    pc.AssertPositive? || pc.Bump? || pc.AssertZero? || pc.SetCount? || pc.Decrement? || pc.UnlockAssert? ||
    pc.UnlockLoop? || pc.Failed? || pc == ReleaseCheck(true) || pc == ClearOwner(true) || pc == UnlockMutex(true)
  }

  /** What the count is while the mutex is with a thread at this point. */
  predicate CountAt(pc: Pc, recursive: bool, count: int) {
    if recursive && (pc.SetOwner? || (MayOwn(pc) && !pc.ClearOwner?)) then count >= 1 else count == 0
  }

  /** What an answer says of who has the lock; after a release of a recursive lock the caller may
      still have it. */
  predicate AnswerOk(last: Outcome, recursive: bool, owns: bool) {
    match last
    case Acquired | Waited | WaitTimedOut | Notified => owns
    case AlreadyLocked => owns && !recursive
    case TimedOut | NotLocked | Unlocked | UnlockRefused | Nothing => !owns
    case Released => owns ==> recursive
    case GeneralError => false
  }

  predicate PcOk(pc: Pc, recursive: bool, owns: bool, hasMutex: bool, count: int) {
    (pc.Failed? ==> pc.line == 1302) && (pc.Idle? ==> AnswerOk(pc.last, recursive, owns)) &&
    (recursive ==> !OnlySimple(pc)) && (!recursive ==> !OnlyRecursive(pc)) &&
    (MustOwn(pc) ==> owns) && (owns ==> MayOwn(pc)) && (hasMutex <==> owns || HasMutexOnly(pc)) &&
    (hasMutex ==> CountAt(pc, recursive, count)) && (pc.SetOwner? ==> count == if recursive then 1 else 0)
  }

  ghost predicate ThreadOk(s: State, t: Tid)
    requires t in s.pcs
  {
    PcOk(s.pcs[t], s.recursive, s.owner == Some(t), s.mutex == Some(t), s.count)
  }

  ghost predicate Inv(s: State) {
    (s.owner.Some? ==> s.mutex == s.owner) && (s.mutex.Some? ==> s.mutex.value in s.pcs) &&
    (s.mutex.None? ==> s.count == 0) &&
    forall t <- s.pcs :: ThreadOk(s, t)
  }

  /** The step changes nothing that another thread could rely on. */
  predicate Minds(s: State, t: Tid, n: State) {
    t in s.pcs && t in n.pcs && n.pcs == s.pcs[t := n.pcs[t]] && n.recursive == s.recursive &&
    (s.owner == n.owner || (s.owner.None? && n.owner == Some(t)) || (s.owner == Some(t) && n.owner.None?)) &&
    (s.mutex == n.mutex || (s.mutex.None? && n.mutex == Some(t)) || (s.mutex == Some(t) && n.mutex.None?)) &&
    (s.count == n.count || s.mutex == Some(t)) && (n.mutex.None? ==> n.count == 0) &&
    (n.owner.Some? ==> n.mutex == n.owner)
  }

  lemma OthersKept(s: State, t: Tid, n: State)
    requires Inv(s) && Minds(s, t, n) && ThreadOk(n, t)
    ensures Inv(n) && n.recursive == s.recursive
  {
    forall u | u in n.pcs && u != t ensures ThreadOk(n, u) { assert ThreadOk(s, u); }
  }

  /** What the invariant says of one thread, without its quantifier. */
  ghost predicate Local(s: State, t: Tid) {
    t in s.pcs && ThreadOk(s, t) && (s.owner.Some? ==> s.mutex == s.owner) && (s.mutex.None? ==> s.count == 0)
  }

  lemma AcquireMover(s: State, t: Tid, n: State)
    requires Local(s, t) && Enabled(s, t) && Acquires(s.pcs[t]) && n == AcquireStep(s, t, s.pcs[t])
    ensures Minds(s, t, n) && ThreadOk(n, t)
  {}

  lemma WaitMover(s: State, t: Tid, n: State)
    requires Local(s, t) && Enabled(s, t) && Waits(s.pcs[t]) && n == WaitStep(s, t, s.pcs[t])
    ensures Minds(s, t, n) && ThreadOk(n, t)
  {}

  lemma ReleaseMover(s: State, t: Tid, n: State)
    requires Local(s, t) && Enabled(s, t) && Releases(s.pcs[t]) && n == ReleaseStep(s, t, s.pcs[t])
    ensures Minds(s, t, n) && ThreadOk(n, t)
  {}

  lemma RunKeeps(s: State, t: Tid, n: State)
    requires Inv(s) && Enabled(s, t) && !s.pcs[t].Signal? && n == Advance(s, t, s.pcs[t])
    ensures Inv(n) && n.recursive == s.recursive
  {
    var pc := s.pcs[t];
    assert ThreadOk(s, t);
    if Acquires(pc) { AcquireMover(s, t, n); } else if Waits(pc) { WaitMover(s, t, n); } else { ReleaseMover(s, t, n); }
    OthersKept(s, t, n);
  }

  lemma WakeKeeps(s: State, t: Tid, expired: bool, n: State)
    requires Inv(s) && Sleeps(s, t) && n == Goto(s, t, WantMutex(s.pcs[t].timed, expired))
    ensures Inv(n) && n.recursive == s.recursive
  {
    assert ThreadOk(s, t);
    OthersKept(s, t, n);
  }

  lemma WakeAllKeeps(s: State, n: State)
    requires Inv(s) && n == s.(pcs := WakeAll(s.pcs))
    ensures Inv(n) && n.recursive == s.recursive
  {
    forall u | u in n.pcs ensures ThreadOk(n, u) { assert ThreadOk(s, u); }
  }

  lemma SignalKeeps(s: State, t: Tid, w: Tid, n: State)
    requires Inv(s) && Enabled(s, t) && s.pcs[t].Signal? && Signals(s, t, w, n)
    ensures Inv(n) && n.recursive == s.recursive
  {
    var m := Goto(s, t, Idle(Notified));
    assert ThreadOk(s, t);
    OthersKept(s, t, m);
    if s.pcs[t].all {
      WakeAllKeeps(m, n);
    } else if SomeSleeps(s) {
      WakeKeeps(m, w, false, n);
    }
  }

  lemma EntryKeeps(s: State, l: Label, n: State)
    requires Inv(s) && Step(s, l, n) && !l.Run? && !l.Wake?
    ensures Inv(n) && n.recursive == s.recursive
  {
    var (t, pc) := Entry(s, l).value;
    forall u | u in n.pcs ensures ThreadOk(n, u) {
      if u in s.pcs { assert ThreadOk(s, u); }
    }
  }

  lemma StepKeeps(s: State, l: Label, n: State)
    requires Inv(s) && Step(s, l, n)
    ensures Inv(n) && n.recursive == s.recursive
  {
    match l
    case Run(t, w) => if s.pcs[t].Signal? { SignalKeeps(s, t, w, n); } else { RunKeeps(s, t, n); }
    case Wake(t, expired) => WakeKeeps(s, t, expired, n);
    case _ => EntryKeeps(s, l, n);
  }

  lemma {:induction false} RunInv(recursive: bool, states: seq<State>, labels: seq<Label>, i: nat)
    requires IsRun(recursive, states, labels) && i <= |labels|
    ensures Inv(states[i]) && states[i].recursive == recursive
  {
    if i > 0 {
      RunInv(recursive, states, labels, i - 1);
      StepKeeps(states[i - 1], labels[i - 1], states[i]);
    }
  }

  // ---------------------------------------------------------------- what every run keeps

  /** In every run: `owner` names only the thread with the mutex; while nobody has the mutex
      there is no owner and the count is zero; and no mutex operation is ever refused. */
  lemma OwnerHasMutex(recursive: bool, states: seq<State>, labels: seq<Label>, t: Tid)
    requires IsRun(recursive, states, labels)
    ensures var s := states[|labels|];
            (s.owner == Some(t) ==> s.mutex == Some(t)) &&
            (s.mutex.None? ==> s.owner.None? && s.count == 0) &&
            (t in s.pcs ==> s.pcs[t] != Idle(GeneralError))
  {
    RunInv(recursive, states, labels, |labels|);
    if t in states[|labels|].pcs { assert ThreadOk(states[|labels|], t); }
  }

  /** None of the seven ownership assertions ever fails; only the one of
      `primitive_unlock_recursive_lock` can. */
  lemma AssertionsHold(recursive: bool, states: seq<State>, labels: seq<Label>, t: Tid)
    requires IsRun(recursive, states, labels) && t in states[|labels|].pcs
    ensures states[|labels|].pcs[t].Failed? ==> recursive && states[|labels|].pcs[t] == Failed(1302)
  {
    RunInv(recursive, states, labels, |labels|);
    assert ThreadOk(states[|labels|], t);
  }

  // ---------------------------------------------------------------- what calls answer

  /** Every answer is true: who was told that it acquired the lock, had it already, or waited for a
      notification, in time or not, has the lock; who was told that it timed out, does not have
      the lock or has unlocked it, does not. */
  lemma CallsAnswerTruly(recursive: bool, states: seq<State>, labels: seq<Label>, t: Tid)
    requires IsRun(recursive, states, labels) && t in states[|labels|].pcs && states[|labels|].pcs[t].Idle?
    ensures var s := states[|labels|]; var last := s.pcs[t].last;
            (last == Acquired || last == AlreadyLocked || last == Waited || last == WaitTimedOut || last == Notified ==>
              s.owner == Some(t) && s.mutex == Some(t)) &&
            (last == TimedOut || last == NotLocked || last == Unlocked || last == UnlockRefused ||
             (last == Released && !recursive) ==>
              s.owner != Some(t) && s.mutex != Some(t)) &&
            last != GeneralError
  {
    RunInv(recursive, states, labels, |labels|);
    assert ThreadOk(states[|labels|], t);
  }

  /** Woken from a notification wait, by a signal or because the time was over. */
  predicate Returning(pc: Pc, expired: bool) {
    (pc.WantMutex? && pc.expired == expired) || (pc.AssertFree? && pc.expired == expired) || pc == RetakeOwner(expired)
  }

  lemma ReturningStep(s: State, l: Label, n: State, t: Tid, expired: bool)
    requires Inv(s) && Step(s, l, n) && t in s.pcs && Returning(s.pcs[t], expired)
    ensures t in n.pcs && (Returning(n.pcs[t], expired) || n.pcs[t] == Idle(if expired then WaitTimedOut else Waited))
  {
    assert ThreadOk(s, t);
    match l
    case Run(u, w) => if u != t && !s.pcs[u].Signal? { AdvanceMovesOne(s, u, t); }
    case Wake(u, _) =>
    case _ =>
  }

  lemma WokenHow(s: State, l: Label, n: State, t: Tid)
    requires Step(s, l, n) && Sleeps(s, t) && !Sleeps(n, t)
    ensures t in n.pcs && Returning(n.pcs[t], l == Wake(t, true))
  {
    if l.Run? && !s.pcs[l.t].Signal? { AdvanceMovesOne(s, l.t, t); }
  }

  lemma AdvanceMovesOne(s: State, u: Tid, t: Tid)
    requires u in s.pcs && t in s.pcs && u != t
    ensures t in Advance(s, u, s.pcs[u]).pcs && Advance(s, u, s.pcs[u]).pcs[t] == s.pcs[t]
  {}

  /** A notification wait that is woken at step `i` ends with a time-out if its time was then over,
      and otherwise with success. */
  lemma {:induction false} WaitAnswers(recursive: bool, states: seq<State>, labels: seq<Label>, i: nat, j: nat, t: Tid)
    requires IsRun(recursive, states, labels) && i < j <= |labels| && Sleeps(states[i], t) && !Sleeps(states[i + 1], t)
    requires forall k | i < k < j :: t in states[k].pcs && !states[k].pcs[t].Idle?
    ensures var expired := labels[i] == Wake(t, true);
            t in states[j].pcs &&
            (Returning(states[j].pcs[t], expired) || states[j].pcs[t] == Idle(if expired then WaitTimedOut else Waited))
  {
    if j == i + 1 {
      WokenHow(states[i], labels[i], states[j], t);
    } else {
      WaitAnswers(recursive, states, labels, i, j - 1, t);
      RunInv(recursive, states, labels, j - 1);
      assert Step(states[j - 1], labels[j - 1], states[j]);
      ReturningStep(states[j - 1], labels[j - 1], states[j], t, labels[i] == Wake(t, true));
    }
  }

  /** Counting by the answers alone: what a step of `t` that ends a call adds to the count. */
  function NetAfter(net: int, s: State, n: State, t: Tid): int {
    if t in s.pcs && t in n.pcs && !s.pcs[t].Idle? && n.pcs[t].Idle? then
      match n.pcs[t].last
      case Acquired => net + 1
      case Released => net - 1
      case Unlocked | UnlockRefused => 0
      case _ => net
    else net
  }

  /** The calls of `t` that answered with an acquisition, less those that answered with a release,
      since it last unlocked the lock for good. */
  function Net(states: seq<State>, t: Tid): int {
    if |states| < 2 then 0
    else NetAfter(Net(states[..|states| - 1], t), states[|states| - 2], states[|states| - 1], t)
  }

  /** In the middle of giving the lock up one by one. */
  predicate Unlocking(pc: Pc) {
    pc.UnlockLoop? || pc == ReleaseCheck(true) || pc == Decrement(true) || pc == ClearOwner(true) ||
    pc == UnlockMutex(true)
  }

  /** A release that has taken effect and not been answered, or a wait that has given up the lock. */
  predicate Owed(pc: Pc, recursive: bool) {
    (pc == ClearOwner(false) && recursive) || pc == UnlockMutex(false) ||
    pc.CondWait? || pc.Asleep? || pc.WantMutex? || pc.AssertFree? || pc.RetakeOwner?
  }

  function Worth(s: State, t: Tid): int
    requires t in s.pcs
  {
    (if s.owner != Some(t) then 0 else if s.recursive then s.count else 1) +
    (if Owed(s.pcs[t], s.recursive) then 1 else 0)
  }

  ghost predicate NetOk(s: State, t: Tid, net: int) {
    if t in s.pcs then Unlocking(s.pcs[t]) || net == Worth(s, t) else net == 0
  }

  lemma OthersNet(s: State, u: Tid, n: State, t: Tid)
    requires Inv(s) && u != t && t in s.pcs && t in n.pcs && n.pcs[t] == s.pcs[t] && Minds(s, u, n)
    ensures Worth(n, t) == Worth(s, t)
  {
    assert ThreadOk(s, t);
  }

  lemma MoverNet(s: State, t: Tid, n: State, net: int)
    requires Local(s, t) && Enabled(s, t) && !s.pcs[t].Signal? && n == Advance(s, t, s.pcs[t]) && NetOk(s, t, net)
    ensures NetOk(n, t, NetAfter(net, s, n, t))
  {}

  lemma RunNet(s: State, u: Tid, n: State, t: Tid, net: int)
    requires Inv(s) && Enabled(s, u) && !s.pcs[u].Signal? && n == Advance(s, u, s.pcs[u]) && NetOk(s, t, net)
    ensures NetOk(n, t, NetAfter(net, s, n, t))
  {
    var pc := s.pcs[u];
    assert ThreadOk(s, u);
    if u == t {
      MoverNet(s, t, n, net);
    } else {
      if Acquires(pc) {
        AcquireMover(s, u, n);
      } else if Waits(pc) {
        WaitMover(s, u, n);
      } else {
        ReleaseMover(s, u, n);
      }
      if t in s.pcs { OthersNet(s, u, n, t); }
    }
  }

  /** Calls, wakeups and signals leave the lock alone. */
  lemma QuietNet(s: State, l: Label, n: State, t: Tid, net: int)
    requires Inv(s) && Step(s, l, n) && NetOk(s, t, net)
    requires l.Run? ==> s.pcs[l.t].Signal?
    ensures NetOk(n, t, NetAfter(net, s, n, t))
  {}

  lemma StepNet(s: State, l: Label, n: State, t: Tid, net: int)
    requires Inv(s) && Step(s, l, n) && NetOk(s, t, net)
    ensures NetOk(n, t, NetAfter(net, s, n, t))
  {
    if l.Run? && !s.pcs[l.t].Signal? { RunNet(s, l.t, n, t, net); } else { QuietNet(s, l, n, t, net); }
  }

  lemma {:induction false} NetCounts(recursive: bool, states: seq<State>, labels: seq<Label>, t: Tid)
    requires IsRun(recursive, states, labels)
    ensures NetOk(states[|labels|], t, Net(states, t))
  {
    if labels != [] {
      var k := |labels| - 1;
      NetCounts(recursive, states[..k + 1], labels[..k], t);
      RunInv(recursive, states, labels, k);
      assert states[..|states| - 1] == states[..k + 1];
      StepNet(states[k], labels[k], states[k + 1], t, Net(states[..k + 1], t));
    }
  }

  /** Releases undo acquisitions, one for one, as the calls answered them: an idle thread has the
      mutex exactly when its acquisitions outnumber its releases, the recursion count is the
      difference, and no other idle thread then has an acquisition outstanding. */
  lemma ReleasesUndoAcquires(recursive: bool, states: seq<State>, labels: seq<Label>, t: Tid, u: Tid)
    requires IsRun(recursive, states, labels)
    requires t in states[|labels|].pcs && states[|labels|].pcs[t].Idle?
    ensures var s := states[|labels|];
            Net(states, t) >= 0 && (Net(states, t) > 0 <==> s.mutex == Some(t)) &&
            (s.owner == Some(t) <==> s.mutex == Some(t)) &&
            (Net(states, t) > 0 ==> Net(states, t) == if recursive then s.count else 1) &&
            (Net(states, t) > 0 && u != t && u in s.pcs && s.pcs[u].Idle? ==> Net(states, u) == 0)
  {
    RunInv(recursive, states, labels, |labels|);
    assert ThreadOk(states[|labels|], t);
    NetCounts(recursive, states, labels, t);
    NetCounts(recursive, states, labels, u);
  }

  // ---------------------------------------------------------------- notifications

  /** Only the lock's owner signals; so no waiter is then between giving up the lock and
      sleeping, and every wait that has begun but not been woken is asleep and is found. */
  lemma SignalMissesNobody(states: seq<State>, labels: seq<Label>, t: Tid, u: Tid)
    requires IsRun(false, states, labels) && t in states[|labels|].pcs && u in states[|labels|].pcs
    requires states[|labels|].pcs[u].Signal?
    ensures var s := states[|labels|];
            s.owner == Some(u) && !s.pcs[t].CondWait? && (t != u ==> !s.pcs[t].DropOwner?)
    ensures states[|labels|].pcs[u].all ==>
              forall w, n | Step(states[|labels|], Run(u, w), n) :: !Sleeps(n, t)
  {
    var s := states[|labels|];
    RunInv(false, states, labels, |labels|);
    assert ThreadOk(s, t) && ThreadOk(s, u);
  }

  /** If no thread can move and no sleeper wakes, every thread is idle, asleep until notified,
      stopped at the assertion of `primitive_unlock_recursive_lock`, or waits for a mutex whose
      owner is idle. */
  lemma NoDeadlock(recursive: bool, states: seq<State>, labels: seq<Label>, t: Tid)
    requires IsRun(recursive, states, labels) && t in states[|labels|].pcs
    requires forall u :: !Enabled(states[|labels|], u)
    ensures var s := states[|labels|];
            s.pcs[t].Idle? || s.pcs[t].Asleep? || s.pcs[t] == Failed(1302) ||
            (s.owner.Some? && s.owner != Some(t) && s.owner.value in s.pcs && s.pcs[s.owner.value].Idle?)
  {
    var s := states[|labels|];
    RunInv(recursive, states, labels, |labels|);
    assert ThreadOk(s, t);
    if s.mutex.Some? {
      assert ThreadOk(s, s.mutex.value);
      assert !Enabled(s, s.mutex.value);
    }
    assert !Enabled(s, t);
  }

  // ---------------------------------------------------------------- the unlocking assertion

  /** The mutex is with a thread that has set the count and not yet brought it back to zero. */
  ghost predicate CountInUse(s: State) {
    s.mutex.Some? && s.mutex.value in s.pcs &&
    var pc := s.pcs[s.mutex.value];
    pc.SetOwner? || (s.owner == s.mutex && !pc.ClearOwner?)
  }

  /** The assertion that follows the unlocked test `owner == 0` fails exactly when, between
      the two, another thread is acquiring or has acquired the lock. */
  lemma UnlockAssertion(states: seq<State>, labels: seq<Label>, t: Tid, w: Tid, n: State)
    requires IsRun(true, states, labels) && t in states[|labels|].pcs && states[|labels|].pcs[t].UnlockAssert?
    requires Step(states[|labels|], Run(t, w), n)
    ensures n.pcs[t].Failed? <==> CountInUse(states[|labels|])
  {
    var s := states[|labels|];
    RunInv(true, states, labels, |labels|);
    if s.mutex.Some? { assert ThreadOk(s, s.mutex.value); }
  }


  /** It does fail: thread 1 has set the count but not yet the owner. */
  lemma UnlockAssertionFails() returns (states: seq<State>, labels: seq<Label>)
    ensures IsRun(true, states, labels) && 2 in states[|labels|].pcs && states[|labels|].pcs[2] == Failed(1302)
  {
    states, labels := [Fresh(true)], [];
    states, labels := Enter(states, labels, Lock(1, None));
    states, labels := Then(states, labels, 1);
    states, labels := Then(states, labels, 1);
    states, labels := Then(states, labels, 1);
    states, labels := Then(states, labels, 1);
    states, labels := Enter(states, labels, Unlock(2));
    states, labels := Then(states, labels, 2);
    states, labels := Then(states, labels, 2);
  }

  lemma Enter(states: seq<State>, labels: seq<Label>, l: Label) returns (states': seq<State>, labels': seq<Label>)
    requires IsRun(true, states, labels) && Entry(states[|labels|], l).Some?
    requires Free(states[|labels|], Entry(states[|labels|], l).value.0)
    ensures IsRun(true, states', labels')
    ensures var e := Entry(states[|labels|], l).value; states'[|labels'|] == Goto(states[|labels|], e.0, e.1)
  {
    var e := Entry(states[|labels|], l).value;
    labels' := labels + [l];
    states' := states + [Goto(states[|labels|], e.0, e.1)];
    assert Step(states[|labels|], l, states'[|labels'|]);
  }

  lemma Then(states: seq<State>, labels: seq<Label>, t: Tid) returns (states': seq<State>, labels': seq<Label>)
    requires IsRun(true, states, labels) && Enabled(states[|labels|], t) && !states[|labels|].pcs[t].Signal?
    ensures IsRun(true, states', labels')
    ensures states'[|labels'|] == Advance(states[|labels|], t, states[|labels|].pcs[t])
  {
    labels' := labels + [Run(t, 0)];
    states' := states + [Advance(states[|labels|], t, states[|labels|].pcs[t])];
    assert Step(states[|labels|], Run(t, 0), states'[|labels'|]);
  }
}
