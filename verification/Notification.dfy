/**
 A simple lock and a notification associated with it, as in llvm-posix-threads.c: each is a
 mutex with a condition variable.  Every call of the POSIX library is one step, and so is
 what a call does between them while it has a mutex.  A thread that waits on a condition
 variable is at `LockAsleep` or `NotifAsleep`; it may also wake up without a signal.
 */
module Notification {
  import opened Options

  type Tid = nat

  /** How a thread's latest call ended. */
  datatype Outcome = Nothing | Locked | AlreadyLocked | Released | NotLocked | Waited | Notified

  datatype Pc =
    | Idle(last: Outcome)
    // primitive_wait_for_simple_lock; `back` when called at the end of a notification wait
    | WantLock(back: bool)                       // at the call, or woken in pthread_cond_wait
    | Test(back: bool)                           // while (slock->locked)
    | LockAsleep(back: bool)
    | UnlockLock(back: bool, end: Outcome)
    // primitive_release_simple_lock; `waiting` when called by a notification wait
    | WantRelease(waiting: bool)
    | ReleaseTest(waiting: bool)
    | SignalLock(waiting: bool)
    | UnlockRelease(waiting: bool, end: Outcome)
    // primitive_wait_for_notification
    | WantNotif
    | CondWait
    | Refuse
    | NotifAsleep
    | NotifWoken
    | UnlockWoken
    // primitive_release_notification and primitive_release_all_notification
    | NotifyWant(all: bool)
    | NotifySignal(all: bool)
    | NotifyUnlock

  datatype State = State(
    locked: bool,
    owner: Tid,                   // meaningful only while locked
    lockMutex: Option<Tid>,
    notifMutex: Option<Tid>,
    pcs: map<Tid, Pc>)

  const FRESH: State := State(false, 0, None, None, map[])

  function Goto(s: State, t: Tid, pc: Pc): State { s.(pcs := s.pcs[t := pc]) }

  // ---------------------------------------------------------------- steps

  /** Waiting for a mutex that somebody has. */
  predicate Blocked(s: State, pc: Pc) {
    ((pc.WantLock? || pc.WantRelease?) && s.lockMutex.Some?) ||
    ((pc.WantNotif? || pc.NotifWoken? || pc.NotifyWant?) && s.notifMutex.Some?)
  }

  predicate Asleep(pc: Pc) { pc.LockAsleep? || pc.NotifAsleep? }

  predicate Enabled(s: State, t: Tid) {
    t in s.pcs && !s.pcs[t].Idle? && !Asleep(s.pcs[t]) && !Blocked(s, s.pcs[t])
  }

  function LockStep(s: State, t: Tid, pc: Pc): State {
    match pc
    case WantLock(back) => Goto(s.(lockMutex := Some(t)), t, Test(back))
    case Test(back) =>
      if !s.locked then Goto(s.(owner := t, locked := true), t, UnlockLock(back, if back then Waited else Locked))
      else if s.owner == t then Goto(s, t, UnlockLock(back, AlreadyLocked))
      else Goto(s.(lockMutex := None), t, LockAsleep(back))
    case UnlockLock(_, end) => Goto(s.(lockMutex := None), t, Idle(end))
    case WantRelease(waiting) => Goto(s.(lockMutex := Some(t)), t, ReleaseTest(waiting))
    case ReleaseTest(waiting) =>
      if !s.locked || s.owner != t then Goto(s, t, UnlockRelease(waiting, NotLocked))
      else Goto(s.(locked := false), t, SignalLock(waiting))
    case UnlockRelease(waiting, end) =>
      Goto(s.(lockMutex := None), t, if !waiting then Idle(end) else if end == Released then CondWait else Refuse)
    case _ => s
  }

  function NotifStep(s: State, t: Tid, pc: Pc): State {
    match pc
    case WantNotif => Goto(s.(notifMutex := Some(t)), t, WantRelease(true))
    case CondWait => Goto(s.(notifMutex := None), t, NotifAsleep)
    case Refuse => Goto(s.(notifMutex := None), t, Idle(NotLocked))
    case NotifWoken => Goto(s.(notifMutex := Some(t)), t, UnlockWoken)
    case UnlockWoken => Goto(s.(notifMutex := None), t, WantLock(true))
    case NotifyWant(all) => Goto(s.(notifMutex := Some(t)), t, NotifySignal(all))
    case NotifyUnlock => Goto(s.(notifMutex := None), t, Idle(Notified))
    case _ => s
  }

  /** A thread leaves the condition variable it sleeps on and wants the mutex back. */
  function Woken(pc: Pc): Pc {
    match pc
    case LockAsleep(back) => WantLock(back)
    case NotifAsleep => NotifWoken
    case _ => pc
  }

  function WakeNotified(pcs: map<Tid, Pc>): map<Tid, Pc> {
    map t | t in pcs :: if pcs[t].NotifAsleep? then Woken(pcs[t]) else pcs[t]
  }

  predicate OnLock(s: State, w: Tid) { w in s.pcs && s.pcs[w].LockAsleep? }
  predicate OnNotif(s: State, w: Tid) { w in s.pcs && s.pcs[w].NotifAsleep? }

  ghost predicate SomeOnLock(s: State) { exists w :: OnLock(s, w) }
  ghost predicate SomeOnNotif(s: State) { exists w :: OnNotif(s, w) }

  /** `Run(t, w)`: one step of `t`; if it signals, `w` is the sleeper the library picks. */
  datatype Label =
    | Lock(t: Tid) | Unlock(t: Tid) | Await(t: Tid) | Notify(t: Tid, all: bool) | Run(t: Tid, w: Tid) | Spurious(t: Tid)

  predicate Free(s: State, t: Tid) { t in s.pcs ==> s.pcs[t].Idle? }

  ghost predicate SignalsLock(s: State, t: Tid, w: Tid, n: State)
    requires t in s.pcs && s.pcs[t].SignalLock?
  {
    var m := Goto(s, t, UnlockRelease(s.pcs[t].waiting, Released));
    if SomeOnLock(s) then OnLock(s, w) && n == Goto(m, w, Woken(s.pcs[w])) else n == m
  }

  ghost predicate SignalsNotif(s: State, t: Tid, w: Tid, n: State)
    requires t in s.pcs && s.pcs[t].NotifySignal?
  {
    var m := Goto(s, t, NotifyUnlock);
    if s.pcs[t].all then n == m.(pcs := WakeNotified(m.pcs))
    else if SomeOnNotif(s) then OnNotif(s, w) && n == Goto(m, w, NotifWoken)
    else n == m
  }

  ghost predicate Moves(s: State, t: Tid, w: Tid, n: State) {
    Enabled(s, t) &&
    match s.pcs[t]
    case SignalLock(_) => SignalsLock(s, t, w, n)
    case NotifySignal(_) => SignalsNotif(s, t, w, n)
    case WantNotif | CondWait | Refuse | NotifWoken | UnlockWoken | NotifyWant(_) | NotifyUnlock =>
      n == NotifStep(s, t, s.pcs[t])
    case pc => n == LockStep(s, t, pc)
  }

  ghost predicate Step(s: State, l: Label, n: State) {
    match l
    case Lock(t) => Free(s, t) && n == Goto(s, t, WantLock(false))
    case Unlock(t) => Free(s, t) && n == Goto(s, t, WantRelease(false))
    case Await(t) => Free(s, t) && n == Goto(s, t, WantNotif)
    case Notify(t, all) => Free(s, t) && n == Goto(s, t, NotifyWant(all))
    case Run(t, w) => Moves(s, t, w, n)
    case Spurious(t) => t in s.pcs && Asleep(s.pcs[t]) && n == Goto(s, t, Woken(s.pcs[t]))
  }

  ghost predicate IsRun(states: seq<State>, labels: seq<Label>) {
    |states| == |labels| + 1 && states[0] == FRESH &&
    forall i | 0 <= i < |labels| :: Step(states[i], labels[i], states[i + 1])
  }

  // ---------------------------------------------------------------- invariant

  predicate HasLockMutex(pc: Pc) {
    pc.Test? || pc.UnlockLock? || pc.ReleaseTest? || pc.SignalLock? || pc.UnlockRelease?
  }

  /** The part of a notification wait between taking the notification's mutex and sleeping. */
  predicate Preparing(pc: Pc) {
    pc == WantRelease(true) || pc == ReleaseTest(true) || pc == SignalLock(true) ||
    (pc.UnlockRelease? && pc.waiting) || pc.CondWait? || pc.Refuse?
  }

  predicate HasNotifMutex(pc: Pc) { Preparing(pc) || pc.UnlockWoken? || pc.NotifySignal? || pc.NotifyUnlock? }

  /** The thread has the lock at this point, or must not have it, or either. */
  predicate Holding(pc: Pc) {
    pc == Idle(Locked) || pc == Idle(Waited) || pc == Idle(AlreadyLocked) || pc.UnlockLock?
  }

  predicate NotHolding(pc: Pc) {
    pc == Idle(Released) || pc == Idle(NotLocked) || pc == Idle(Nothing) || pc == WantLock(true) || pc == Test(true) ||
    pc.LockAsleep? || pc.SignalLock? || pc.UnlockRelease? || pc.CondWait? || pc.Refuse? ||
    pc.NotifAsleep? || pc.NotifWoken? || pc.UnlockWoken?
  }

  predicate Has(s: State, t: Tid) { s.locked && s.owner == t }

  predicate Sound(pc: Pc) {
    (pc.UnlockLock? ==> pc.end == Locked || pc.end == Waited || (pc.end == AlreadyLocked && !pc.back)) &&
    (pc.UnlockLock? && pc.end == Locked ==> !pc.back) && (pc.UnlockLock? && pc.end == Waited ==> pc.back) &&
    (pc.UnlockRelease? ==> pc.end == Released || pc.end == NotLocked)
  }

  predicate PcOk(pc: Pc, lockMutex: bool, notifMutex: bool, has: bool) {
    Sound(pc) && HasLockMutex(pc) == lockMutex && HasNotifMutex(pc) == notifMutex &&
    (Holding(pc) ==> has) && (NotHolding(pc) ==> !has)
  }

  ghost predicate ThreadOk(s: State, t: Tid)
    requires t in s.pcs
  {
    PcOk(s.pcs[t], s.lockMutex == Some(t), s.notifMutex == Some(t), Has(s, t))
  }

  /** Some thread will look at the lock, or is about to wake a thread that will. */
  predicate Carries(pc: Pc) { pc.WantLock? || pc.Test? || pc.SignalLock? }

  ghost predicate Carried(s: State) { exists t :: t in s.pcs && Carries(s.pcs[t]) }

  ghost predicate Inv(s: State) {
    (s.lockMutex.Some? ==> s.lockMutex.value in s.pcs) && (s.notifMutex.Some? ==> s.notifMutex.value in s.pcs) &&
    (s.locked ==> s.owner in s.pcs) &&
    (forall t <- s.pcs :: ThreadOk(s, t)) &&
    (!s.locked && SomeOnLock(s) ==> Carried(s))
  }

  /** A step that leaves every other thread where it is keeps the lock's sleepers cared for, if
      it sends nobody to sleep on a free lock and does not take the last carrier away. */
  lemma CarriedOn(s: State, t: Tid, n: State)
    requires Inv(s) && t in s.pcs && t in n.pcs && n.pcs == s.pcs[t := n.pcs[t]]
    requires !n.locked ==> Carries(n.pcs[t]) || (!s.locked && !Carries(s.pcs[t]) && !n.pcs[t].LockAsleep?)
    ensures !n.locked && SomeOnLock(n) ==> Carried(n)
  {
    if !n.locked && SomeOnLock(n) {
      if Carries(n.pcs[t]) {
        assert Carried(n);
      } else {
        var w :| OnLock(n, w);
        assert OnLock(s, w);
        var c :| c in s.pcs && Carries(s.pcs[c]);
        assert c in n.pcs && Carries(n.pcs[c]);
      }
    }
  }

  predicate Handover(a: Option<Tid>, b: Option<Tid>, t: Tid) {
    a == b || ((a.None? || a == Some(t)) && (b.None? || b == Some(t)))
  }

  /** Thread `t` may only give and take what nobody else has. */
  ghost predicate Minds(s: State, t: Tid, n: State) {
    Handover(s.lockMutex, n.lockMutex, t) && Handover(s.notifMutex, n.notifMutex, t) &&
    ((n.locked == s.locked && n.owner == s.owner) || ((s.locked ==> s.owner == t) && (n.locked ==> n.owner == t)))
  }

  lemma OthersKept(s: State, t: Tid, n: State)
    requires Inv(s) && t in s.pcs && t in n.pcs && n.pcs == s.pcs[t := n.pcs[t]] && Minds(s, t, n)
    ensures forall u <- n.pcs | u != t :: ThreadOk(n, u)
  {
    forall u | u in n.pcs && u != t ensures ThreadOk(n, u) { assert ThreadOk(s, u); }
  }

  lemma MoverKept(s: State, t: Tid, n: State)
    requires Inv(s) && t in s.pcs && t in n.pcs && n.pcs == s.pcs[t := n.pcs[t]] && Minds(s, t, n) && ThreadOk(n, t)
    requires !n.locked ==> Carries(n.pcs[t]) || (!s.locked && !Carries(s.pcs[t]) && !n.pcs[t].LockAsleep?)
    ensures Inv(n)
  {
    OthersKept(s, t, n);
    CarriedOn(s, t, n);
  }

  lemma CallKeeps(s: State, t: Tid, pc: Pc, n: State)
    requires Inv(s) && Free(s, t) && n == Goto(s, t, pc)
    requires pc == WantLock(false) || pc == WantRelease(false) || pc == WantNotif || pc.NotifyWant?
    ensures Inv(n)
  {
    forall u | u in n.pcs ensures ThreadOk(n, u) { CallerOk(s, t, pc, n, u); }
    if !s.locked && SomeOnLock(n) {
      var w :| OnLock(n, w);
      assert OnLock(s, w);
      var c :| c in s.pcs && Carries(s.pcs[c]);
      assert c in n.pcs && Carries(n.pcs[c]);
    }
  }

  lemma CallerOk(s: State, t: Tid, pc: Pc, n: State, u: Tid)
    requires Inv(s) && Free(s, t) && n == Goto(s, t, pc) && u in n.pcs
    requires pc == WantLock(false) || pc == WantRelease(false) || pc == WantNotif || pc.NotifyWant?
    ensures ThreadOk(n, u)
  {
    if u in s.pcs { assert ThreadOk(s, u); }
    else { assert s.lockMutex != Some(u) && s.notifMutex != Some(u) && !Has(s, u); }
  }

  lemma LockMover(s: State, t: Tid, n: State)
    requires Enabled(s, t) && ThreadOk(s, t) && n == LockStep(s, t, s.pcs[t]) && n != s
    ensures Minds(s, t, n) && ThreadOk(n, t)
    ensures !n.locked ==> Carries(n.pcs[t]) || (!s.locked && !Carries(s.pcs[t]) && !n.pcs[t].LockAsleep?)
  {}

  lemma NotifMover(s: State, t: Tid, n: State)
    requires Enabled(s, t) && ThreadOk(s, t) && n == NotifStep(s, t, s.pcs[t]) && n != s
    ensures Minds(s, t, n) && ThreadOk(n, t) && n.locked == s.locked && n.owner == s.owner
    ensures !n.locked ==> Carries(n.pcs[t]) || (!s.locked && !Carries(s.pcs[t]) && !n.pcs[t].LockAsleep?)
  {}

  lemma LockStepKeeps(s: State, t: Tid, n: State)
    requires Inv(s) && Enabled(s, t) && n == LockStep(s, t, s.pcs[t]) && n != s
    ensures Inv(n)
  {
    assert ThreadOk(s, t);
    LockMover(s, t, n);
    MoverKept(s, t, n);
  }

  lemma NotifStepKeeps(s: State, t: Tid, n: State)
    requires Inv(s) && Enabled(s, t) && n == NotifStep(s, t, s.pcs[t]) && n != s
    ensures Inv(n)
  {
    assert ThreadOk(s, t);
    NotifMover(s, t, n);
    MoverKept(s, t, n);
  }

  lemma LockSignalKeeps(s: State, t: Tid, w: Tid, n: State)
    requires Inv(s) && Enabled(s, t) && s.pcs[t].SignalLock? && SignalsLock(s, t, w, n)
    ensures Inv(n)
  {
    var m := Goto(s, t, UnlockRelease(s.pcs[t].waiting, Released));
    assert ThreadOk(s, t);
    OthersKept(s, t, m);
    if SomeOnLock(s) {
      LockSleeperWakes(m, w, n);
    } else {
      forall u ensures !OnLock(n, u) { assert !OnLock(s, u); }
    }
  }

  /** The woken thread is the one that carries. */
  lemma LockSleeperWakes(m: State, w: Tid, n: State)
    requires OnLock(m, w) && n == Goto(m, w, Woken(m.pcs[w])) && forall u <- m.pcs :: ThreadOk(m, u)
    requires (m.lockMutex.Some? ==> m.lockMutex.value in m.pcs) && (m.notifMutex.Some? ==> m.notifMutex.value in m.pcs)
    requires m.locked ==> m.owner in m.pcs
    ensures Inv(n)
  {
    assert ThreadOk(m, w);
    forall u | u in n.pcs ensures ThreadOk(n, u) { assert ThreadOk(m, u); }
    assert Carries(n.pcs[w]);
  }

  lemma SpuriousKeeps(s: State, t: Tid, n: State)
    requires Inv(s) && t in s.pcs && Asleep(s.pcs[t]) && n == Goto(s, t, Woken(s.pcs[t]))
    ensures Inv(n)
  {
    assert ThreadOk(s, t);
    MoverKept(s, t, n);
  }

  lemma WakeAllKeeps(s: State, n: State)
    requires Inv(s) && n == s.(pcs := WakeNotified(s.pcs))
    ensures Inv(n)
  {
    forall u | u in n.pcs ensures ThreadOk(n, u) { assert ThreadOk(s, u); }
    if !s.locked && SomeOnLock(n) {
      var v :| OnLock(n, v);
      assert OnLock(s, v);
      var c :| c in s.pcs && Carries(s.pcs[c]);
      assert c in n.pcs && Carries(n.pcs[c]);
    }
  }

  lemma NotifSignalKeeps(s: State, t: Tid, w: Tid, n: State)
    requires Inv(s) && Enabled(s, t) && s.pcs[t].NotifySignal? && SignalsNotif(s, t, w, n)
    ensures Inv(n)
  {
    var m := Goto(s, t, NotifyUnlock);
    assert ThreadOk(s, t);
    MoverKept(s, t, m);
    if s.pcs[t].all {
      WakeAllKeeps(m, n);
    } else if SomeOnNotif(s) {
      SpuriousKeeps(m, w, n);
    }
  }

  lemma StepKeeps(s: State, l: Label, n: State)
    requires Inv(s) && Step(s, l, n)
    ensures Inv(n)
  {
    match l
    case Lock(t) => CallKeeps(s, t, WantLock(false), n);
    case Unlock(t) => CallKeeps(s, t, WantRelease(false), n);
    case Await(t) => CallKeeps(s, t, WantNotif, n);
    case Notify(t, all) => CallKeeps(s, t, NotifyWant(all), n);
    case Run(t, w) =>
      var pc := s.pcs[t];
      if pc.SignalLock? { LockSignalKeeps(s, t, w, n); }
      else if pc.NotifySignal? { NotifSignalKeeps(s, t, w, n); }
      else if n == s { }
      else if n == LockStep(s, t, pc) { LockStepKeeps(s, t, n); }
      else { NotifStepKeeps(s, t, n); }
    case Spurious(t) => SpuriousKeeps(s, t, n);
  }

  lemma {:induction false} RunInv(states: seq<State>, labels: seq<Label>, i: nat)
    requires IsRun(states, labels) && i <= |labels|
    ensures Inv(states[i])
  {
    if i > 0 {
      RunInv(states, labels, i - 1);
      StepKeeps(states[i - 1], labels[i - 1], states[i]);
    }
  }

  // ---------------------------------------------------------------- what calls promise

  /** A wait or an acquisition that returned successfully has the lock; a release that did, or
      a refusal, does not; a notification wait is never told that it has the lock already. */
  lemma CallsAnswerTruly(states: seq<State>, labels: seq<Label>, t: Tid)
    requires IsRun(states, labels) && t in states[|labels|].pcs
    ensures var s := states[|labels|]; var pc := s.pcs[t];
            (pc == Idle(Waited) || pc == Idle(Locked) || pc == Idle(AlreadyLocked) ==> Has(s, t)) &&
            (pc == Idle(Released) || pc == Idle(NotLocked) ==> !Has(s, t)) &&
            !(pc == UnlockLock(true, AlreadyLocked))
  {
    RunInv(states, labels, |labels|);
    assert ThreadOk(states[|labels|], t);
  }

  /** Waiter `t` is between giving up the lock and sleeping. */
  predicate Window(pc: Pc) { pc == SignalLock(true) || pc == UnlockRelease(true, Released) || pc.CondWait? }

  /** Step `k` takes `t` off the notification's condition variable. */
  predicate WakesAt(states: seq<State>, k: nat, t: Tid)
    requires k + 1 < |states|
  {
    OnNotif(states[k], t) && !OnNotif(states[k + 1], t)
  }

  ghost predicate WokenBetween(states: seq<State>, i: nat, j: nat, t: Tid)
    requires i <= j < |states|
  {
    exists k | i <= k < j :: WakesAt(states, k, t)
  }

  lemma WindowSteps(s: State, l: Label, n: State, t: Tid)
    requires Inv(s) && Step(s, l, n) && t in s.pcs && Window(s.pcs[t])
    ensures t in n.pcs && (Window(n.pcs[t]) || OnNotif(n, t))
  {
    assert ThreadOk(s, t);
    match l
    case Run(u, w) => if u != t { assert n.pcs[t] == s.pcs[t]; }
    case _ =>
  }

  lemma SleeperSteps(s: State, l: Label, n: State, t: Tid)
    requires Step(s, l, n) && OnNotif(s, t)
    ensures t in n.pcs
  {}

  lemma {:induction false} AfterGivingUp(states: seq<State>, labels: seq<Label>, i: nat, j: nat, t: Tid)
    requires IsRun(states, labels) && i <= j <= |labels| && t in states[i].pcs && Window(states[i].pcs[t])
    ensures (t in states[j].pcs && Window(states[j].pcs[t])) || OnNotif(states[j], t) || WokenBetween(states, i, j, t)
  {
    if i < j {
      AfterGivingUp(states, labels, i, j - 1, t);
      var s := states[j - 1];
      if WokenBetween(states, i, j - 1, t) {
        var k :| i <= k < j - 1 && WakesAt(states, k, t);
        assert WakesAt(states, k, t);
      } else if OnNotif(s, t) {
        SleeperSteps(s, labels[j - 1], states[j], t);
        if !OnNotif(states[j], t) { assert WakesAt(states, j - 1, t); }
      } else {
        RunInv(states, labels, j - 1);
        WindowSteps(s, labels[j - 1], states[j], t);
      }
    }
  }

  /** No wakeup is lost.  Once a waiter has given up the lock, at step `i`, every signal or
      broadcast finds it asleep on the condition variable, or woken since; in particular one
      by a thread that took the lock after that.  A broadcast wakes it if it is asleep, and a
      signal wakes some sleeper and nobody else. */
  lemma NoLostWakeup(states: seq<State>, labels: seq<Label>, i: nat, j: nat, t: Tid, u: Tid, w: Tid)
    requires IsRun(states, labels) && i <= j < |labels|
    requires t in states[i].pcs && states[i].pcs[t] == SignalLock(true)
    requires labels[j] == Run(u, w) && u in states[j].pcs && states[j].pcs[u].NotifySignal?
    ensures OnNotif(states[j], t) || WokenBetween(states, i, j, t)
    ensures states[j].pcs[u].all ==> !OnNotif(states[j + 1], t)
    ensures !states[j].pcs[u].all && OnNotif(states[j], t) ==>
              WakesAt(states, j, w) && forall v | v != w && OnNotif(states[j], v) :: OnNotif(states[j + 1], v)
  {
    AfterGivingUp(states, labels, i, j, t);
    RunInv(states, labels, j);
    var s := states[j];
    assert ThreadOk(s, u);
    if t in s.pcs { assert ThreadOk(s, t); }
    assert Step(s, labels[j], states[j + 1]);
  }

  // ---------------------------------------------------------------- progress

  ghost predicate SomebodyEnabled(s: State) { exists t :: Enabled(s, t) }

  /** The two mutexes are always taken in the same order, so a thread that is neither idle nor
      asleep never has to wait for a circle of others. */
  lemma SomebodyMoves(s: State, t: Tid)
    requires Inv(s) && t in s.pcs && !s.pcs[t].Idle? && !Asleep(s.pcs[t])
    ensures SomebodyEnabled(s)
  {
    if !Enabled(s, t) {
      if s.lockMutex.Some? {
        assert ThreadOk(s, s.lockMutex.value);
        assert Enabled(s, s.lockMutex.value);
      } else {
        assert ThreadOk(s, s.notifMutex.value);
        assert Enabled(s, s.notifMutex.value);
      }
    }
  }

  lemma EnabledCanStep(s: State, t: Tid) returns (w: Tid, n: State)
    requires Enabled(s, t)
    ensures Step(s, Run(t, w), n)
  {
    w := 0;
    var pc := s.pcs[t];
    if pc.SignalLock? {
      n := Goto(s, t, UnlockRelease(pc.waiting, Released));
      if SomeOnLock(s) {
        w :| OnLock(s, w);
        n := Goto(n, w, Woken(s.pcs[w]));
      }
    } else if pc.NotifySignal? {
      n := Goto(s, t, NotifyUnlock);
      if pc.all {
        n := n.(pcs := WakeNotified(n.pcs));
      } else if SomeOnNotif(s) {
        w :| OnNotif(s, w);
        n := Goto(n, w, NotifWoken);
      }
    } else if pc.WantNotif? || pc.CondWait? || pc.Refuse? || pc.NotifWoken? || pc.UnlockWoken? ||
              pc.NotifyWant? || pc.NotifyUnlock? {
      n := NotifStep(s, t, pc);
    } else {
      n := LockStep(s, t, pc);
    }
  }

  /** Waiters, notifiers and lockers cannot deadlock: if no thread can move, every thread is
      idle, waits to be notified, or waits for a lock whose owner is idle. */
  lemma NoDeadlock(states: seq<State>, labels: seq<Label>, t: Tid)
    requires IsRun(states, labels) && t in states[|labels|].pcs
    requires forall l, n | Step(states[|labels|], l, n) :: !l.Run?
    ensures var s := states[|labels|];
            s.pcs[t].Idle? || s.pcs[t].NotifAsleep? ||
            (s.pcs[t].LockAsleep? && s.locked && s.owner in s.pcs && s.pcs[s.owner].Idle? && s.owner != t)
  {
    var s := states[|labels|];
    RunInv(states, labels, |labels|);
    forall u | u in s.pcs ensures s.pcs[u].Idle? || Asleep(s.pcs[u]) {
      if !s.pcs[u].Idle? && !Asleep(s.pcs[u]) {
        SomebodyMoves(s, u);
        var v :| Enabled(s, v);
        var w, n := EnabledCanStep(s, v);
      }
    }
    assert ThreadOk(s, t) && !Carried(s);
    if s.pcs[t].LockAsleep? {
      assert OnLock(s, t);
      assert s.locked;
      assert ThreadOk(s, s.owner);
    }
  }
}
