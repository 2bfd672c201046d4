/**
 The calls of `UnixLocks` from beginning to end, in every run: what each answers, how long a
 timed acquisition polls, and what a notification does to the waiters.
 */
module UnixLockCalls {
  import opened Options
  import opened UnixLocks

  /** From step `i`, at which `t` begins a call, up to `j`: `t` has not been idle in between. */
  ghost predicate InCall(recursive: bool, states: seq<State>, labels: seq<Label>, i: nat, j: nat, t: Tid) {
    IsRun(recursive, states, labels) && i < j <= |labels| && !labels[i].Run? && !labels[i].Wake? && labels[i].t == t &&
    forall k | i < k < j :: t in states[k].pcs && !states[k].pcs[t].Idle?
  }

  lemma StepAt(recursive: bool, states: seq<State>, labels: seq<Label>, k: nat)
    requires IsRun(recursive, states, labels) && k < |labels|
    ensures Step(states[k], labels[k], states[k + 1]) && Inv(states[k]) && states[k].recursive == recursive
  {
    RunInv(recursive, states, labels, k);
  }

  /** A step that `t` itself makes. */
  predicate Own(l: Label, t: Tid) { l.Run? && l.t == t }

  predicate Owns(s: State, t: Tid) { s.owner == Some(t) }

  /** Others neither move a thread that is awake nor take the lock from it or give it to it. */
  lemma OthersStay(s: State, l: Label, n: State, t: Tid)
    requires Inv(s) && Step(s, l, n) && t in s.pcs && !s.pcs[t].Idle? && !Own(l, t)
    ensures t in n.pcs && Owns(n, t) == Owns(s, t) && (Owns(s, t) ==> n.count == s.count)
    ensures n.recursive == s.recursive
    ensures n.pcs[t] == s.pcs[t] || (Sleeps(s, t) && n.pcs[t].WantMutex?)
    ensures n.pcs[t].WantMutex? && n.pcs[t].expired ==> s.pcs[t].WantMutex? || (s.pcs[t].Asleep? && s.pcs[t].timed)
  {
    if l.Run? && !s.pcs[l.t].Signal? {
      assert ThreadOk(s, l.t);
      OtherAdvances(s, l.t, n, t);
    }
  }

  lemma OtherAdvances(s: State, u: Tid, n: State, t: Tid)
    requires Inv(s) && Enabled(s, u) && !s.pcs[u].Signal? && n == Advance(s, u, s.pcs[u]) && t in s.pcs && t != u
    ensures t in n.pcs && Owns(n, t) == Owns(s, t) && (Owns(s, t) ==> n.count == s.count)
    ensures n.pcs[t] == s.pcs[t] && n.recursive == s.recursive
  {
    assert ThreadOk(s, u);
    AdvanceMovesOne(s, u, t);
    if Acquires(s.pcs[u]) {
      AcquireMover(s, u, n);
    } else if Waits(s.pcs[u]) {
      WaitMover(s, u, n);
    } else {
      ReleaseMover(s, u, n);
    }
  }

  // ---------------------------------------------------------------- acquiring and releasing

  /** Where a call to acquire the lock is, by whether its thread had the lock. */
  predicate LockAt(s: State, t: Tid, had: bool, timeout: Option<int>) {
    t in s.pcs &&
    match s.pcs[t]
    case CheckOwner(limit) => limit == timeout && Owns(s, t) == had
    case AssertPositive(_) => had && s.recursive
    case Bump => had && s.recursive
    case LockMutex => !had && timeout.None?
    case TryLock(_) => !had && timeout.Some?
    case AssertZero(_) => !had
    case SetCount => !had
    case SetOwner => !had
    case Idle(Acquired) => !had || s.recursive
    case Idle(AlreadyLocked) => had && !s.recursive
    case Idle(TimedOut) => !had && timeout.Some?
    case _ => false
  }

  lemma LockStep(s: State, l: Label, n: State, t: Tid, had: bool, timeout: Option<int>)
    requires Inv(s) && Step(s, l, n) && LockAt(s, t, had, timeout) && !s.pcs[t].Idle?
    ensures LockAt(n, t, had, timeout)
  {
    if Own(l, t) { assert ThreadOk(s, t); } else { OthersStay(s, l, n, t); }
  }

  lemma {:induction false} LockProgress(recursive: bool, states: seq<State>, labels: seq<Label>, i: nat, j: nat, t: Tid)
    requires InCall(recursive, states, labels, i, j, t) && labels[i].Lock?
    ensures LockAt(states[j], t, Owns(states[i], t), labels[i].timeout)
  {
    StepAt(recursive, states, labels, j - 1);
    if j > i + 1 {
      LockProgress(recursive, states, labels, i, j - 1, t);
      LockStep(states[j - 1], labels[j - 1], states[j], t, Owns(states[i], t), labels[i].timeout);
    }
  }

  /** Where a release is. */
  predicate ReleaseAt(s: State, t: Tid, had: bool) {
    t in s.pcs &&
    match s.pcs[t]
    case ReleaseCheck(false) => Owns(s, t) == had
    case Decrement(false) => had
    case ClearOwner(false) => had
    case UnlockMutex(false) => had
    case Idle(last) => last == if had then Released else NotLocked
    case _ => false
  }

  /** A step of `t` since the call has found the lock with somebody else. */
  ghost predicate FoundOwner(states: seq<State>, labels: seq<Label>, i: nat, j: nat, t: Tid)
    requires j <= |labels| < |states|
  {
    exists k | i < k < j :: Own(labels[k], t) && states[k].owner.Some? && !Owns(states[k], t)
  }

  /** A step of `t` since the call has found a count that is not its own. */
  ghost predicate FoundCount(states: seq<State>, labels: seq<Label>, i: nat, j: nat, t: Tid)
    requires j <= |labels| < |states|
  {
    exists k | i < k < j :: Own(labels[k], t) && states[k].count > 0 && !Owns(states[k], t)
  }

  /** Where a call to unlock is. */
  ghost predicate UnlockAt(states: seq<State>, labels: seq<Label>, i: nat, j: nat, t: Tid, had: bool)
    requires i < j <= |labels| < |states|
  {
    var s := states[j];
    t in s.pcs &&
    match s.pcs[t]
    case UnlockCheck => Owns(s, t) == had
    case Idle(Unlocked) => if s.recursive then states[j - 1].count == 0 else !had && states[j - 1].owner.None?
    case Idle(NotLocked) => !had && !s.recursive && FoundOwner(states, labels, i, j, t)
    case Idle(UnlockRefused) => s.recursive && FoundCount(states, labels, i, j, t)
    case Idle(Released) => had && !s.recursive
    case ReleaseCheck(again) =>
      if again then s.recursive && (Owns(s, t) || FoundCount(states, labels, i, j, t))
      else !s.recursive && Owns(s, t) == had && (had || FoundOwner(states, labels, i, j, t))
    case Decrement(again) => again && s.recursive
    case ClearOwner(again) => (again && s.recursive) || (!again && !s.recursive && had)
    case UnlockMutex(again) => (again && s.recursive) || (!again && !s.recursive && had)
    case UnlockAssert => s.recursive && !had
    case UnlockLoop => s.recursive
    case Failed(_) => s.recursive && !had
    case _ => false
  }

  lemma ReleaseStepped(s: State, l: Label, n: State, t: Tid, had: bool)
    requires Inv(s) && Step(s, l, n) && ReleaseAt(s, t, had) && !s.pcs[t].Idle?
    ensures ReleaseAt(n, t, had)
  {
    if Own(l, t) { assert ThreadOk(s, t); } else { OthersStay(s, l, n, t); }
  }

  lemma {:induction false} ReleaseProgress(recursive: bool, states: seq<State>, labels: seq<Label>, i: nat, j: nat,
                                           t: Tid)
    requires InCall(recursive, states, labels, i, j, t) && labels[i].Release?
    ensures ReleaseAt(states[j], t, Owns(states[i], t))
  {
    StepAt(recursive, states, labels, j - 1);
    if j > i + 1 {
      ReleaseProgress(recursive, states, labels, i, j - 1, t);
      ReleaseStepped(states[j - 1], labels[j - 1], states[j], t, Owns(states[i], t));
    }
  }

  lemma FindingsStay(states: seq<State>, labels: seq<Label>, i: nat, j: nat, t: Tid)
    requires i < j < |labels| < |states|
    ensures FoundOwner(states, labels, i, j, t) ==> FoundOwner(states, labels, i, j + 1, t)
    ensures FoundCount(states, labels, i, j, t) ==> FoundCount(states, labels, i, j + 1, t)
    ensures Own(labels[j], t) && states[j].owner.Some? && !Owns(states[j], t) ==>
            FoundOwner(states, labels, i, j + 1, t)
    ensures Own(labels[j], t) && states[j].count > 0 && !Owns(states[j], t) ==> FoundCount(states, labels, i, j + 1, t)
  {
    if FoundOwner(states, labels, i, j, t) {
      var k :| i < k < j && Own(labels[k], t) && states[k].owner.Some? && !Owns(states[k], t);
      assert Own(labels[k], t);
    }
    if FoundCount(states, labels, i, j, t) {
      var k :| i < k < j && Own(labels[k], t) && states[k].count > 0 && !Owns(states[k], t);
      assert Own(labels[k], t);
    }
  }

  lemma UnlockOwn(states: seq<State>, labels: seq<Label>, i: nat, j: nat, t: Tid, had: bool)
    requires i < j < |labels| < |states| && Inv(states[j]) && Own(labels[j], t) && t in states[j].pcs
    requires Enabled(states[j], t) && states[j + 1] == ReleaseStep(states[j], t, states[j].pcs[t])
    requires UnlockAt(states, labels, i, j, t, had)
    ensures UnlockAt(states, labels, i, j + 1, t, had)
  {
    FindingsStay(states, labels, i, j, t);
    CountNatural(states[j]);
    assert ThreadOk(states[j], t);
  }

  lemma UnlockOther(states: seq<State>, labels: seq<Label>, i: nat, j: nat, t: Tid, had: bool)
    requires i < j < |labels| < |states| && Inv(states[j]) && Step(states[j], labels[j], states[j + 1])
    requires !Own(labels[j], t) && UnlockAt(states, labels, i, j, t, had) && !states[j].pcs[t].Idle?
    ensures UnlockAt(states, labels, i, j + 1, t, had)
  {
    FindingsStay(states, labels, i, j, t);
    OthersStay(states[j], labels[j], states[j + 1], t);
  }

  lemma UnlockStepped(states: seq<State>, labels: seq<Label>, i: nat, j: nat, t: Tid, had: bool)
    requires i < j < |labels| < |states| && Inv(states[j]) && Step(states[j], labels[j], states[j + 1])
    requires UnlockAt(states, labels, i, j, t, had) && !states[j].pcs[t].Idle?
    ensures UnlockAt(states, labels, i, j + 1, t, had)
  {
    if Own(labels[j], t) {
      UnlockOwn(states, labels, i, j, t, had);
    } else {
      UnlockOther(states, labels, i, j, t, had);
    }
  }

  lemma UnlockKept(recursive: bool, states: seq<State>, labels: seq<Label>, i: nat, j: nat, t: Tid, had: bool)
    requires IsRun(recursive, states, labels) && i < j < |labels|
    requires UnlockAt(states, labels, i, j, t, had) && !states[j].pcs[t].Idle?
    ensures UnlockAt(states, labels, i, j + 1, t, had)
  {
    StepAt(recursive, states, labels, j);
    UnlockStepped(states, labels, i, j, t, had);
  }

  lemma {:induction false} UnlockProgress(recursive: bool, states: seq<State>, labels: seq<Label>, i: nat, j: nat,
                                          t: Tid)
    requires InCall(recursive, states, labels, i, j, t) && labels[i].Unlock?
    ensures UnlockAt(states, labels, i, j, t, Owns(states[i], t))
  {
    if j == i + 1 {
      StepAt(recursive, states, labels, i);
    } else {
      UnlockProgress(recursive, states, labels, i, j - 1, t);
      UnlockKept(recursive, states, labels, i, j - 1, t, Owns(states[i], t));
    }
  }

  /** The answers, by whether the thread had the lock when it called: an acquisition without a time
      limit succeeds, or says that a simple lock is had already; one with a limit may also
      time out, if the lock was not had.  A release succeeds exactly for the thread with the
      lock.  Unlocking a simple lock does too, or finds that nobody has it.  Unlocking a recursive
      lock ends when it finds the count at zero, and is refused when it finds one that is not
      the caller's. */
  lemma LockingAnswers(recursive: bool, states: seq<State>, labels: seq<Label>, i: nat, j: nat, t: Tid)
    requires InCall(recursive, states, labels, i, j, t) && t in states[j].pcs && states[j].pcs[t].Idle?
    requires labels[i].Lock? || labels[i].Release? || labels[i].Unlock?
    ensures var had := Owns(states[i], t); var last := states[j].pcs[t].last;
            (labels[i].Lock? && had ==> last == if recursive then Acquired else AlreadyLocked) &&
            (labels[i].Lock? && !had ==> last == Acquired || (last == TimedOut && labels[i].timeout.Some?)) &&
            (labels[i].Release? ==> last == if had then Released else NotLocked) &&
            (labels[i].Unlock? && !recursive && had ==> last == Released) &&
            (labels[i].Unlock? && !recursive && !had ==> last == Unlocked || last == NotLocked) &&
            (labels[i].Unlock? && recursive ==> last == Unlocked || last == UnlockRefused) &&
            (last == Unlocked ==> if recursive then states[j - 1].count == 0 else states[j - 1].owner.None?) &&
            (labels[i].Unlock? && last == NotLocked ==> FoundOwner(states, labels, i, j, t)) &&
            (last == UnlockRefused ==> FoundCount(states, labels, i, j, t))
  {
    KindAt(recursive, states, labels, j);
    match labels[i]
    case Lock(_, _) => LockProgress(recursive, states, labels, i, j, t);
    case Release(_) => ReleaseProgress(recursive, states, labels, i, j, t);
    case Unlock(_) => UnlockProgress(recursive, states, labels, i, j, t);
    case _ =>
  }

  lemma KindAt(recursive: bool, states: seq<State>, labels: seq<Label>, k: nat)
    requires IsRun(recursive, states, labels) && k <= |labels|
    ensures states[k].recursive == recursive
  {
    RunInv(recursive, states, labels, k);
  }

  // ---------------------------------------------------------------- the time limit

  /** How many steps `t` makes from `a` up to `b`. */
  function OwnSteps(labels: seq<Label>, a: nat, b: nat, t: Tid): nat
    requires a <= b <= |labels|
    decreases b - a
  {
    if a == b then 0 else OwnSteps(labels, a, b - 1, t) + if Own(labels[b - 1], t) then 1 else 0
  }

  /** Step `k` polls the mutex, if nothing has been acquired yet: it is a step of the caller, and not
      its first one after the call at `i`, which looks at the owner. */
  predicate Polls(labels: seq<Label>, i: nat, k: nat, t: Tid)
    requires i < k < |labels|
  {
    Own(labels[k], t) && OwnSteps(labels, i + 1, k, t) >= 1
  }

  /** Every poll before `j` found the mutex taken. */
  predicate AllTaken(states: seq<State>, labels: seq<Label>, i: nat, j: nat, t: Tid)
    requires i < j <= |labels| < |states|
  {
    forall k | i < k < j && Polls(labels, i, k, t) :: states[k].mutex.Some?
  }

  function PollCount(labels: seq<Label>, i: nat, j: nat, t: Tid): nat
    requires i < j <= |labels|
  {
    var n := OwnSteps(labels, i + 1, j, t); if n == 0 then 0 else n - 1
  }

  /** How often a limit of so many milliseconds lets a call poll: at once, and after every sleep of
      100 milliseconds until the limit has passed. */
  function Limit(ms: int): nat { if ms <= 0 then 1 else 1 + (ms + 99) / 100 }

  /** The poll `k` found the mutex free and took it, after fewer polls than the limit allows. */
  predicate TookAt(states: seq<State>, labels: seq<Label>, i: nat, t: Tid, ms: int, k: nat)
    requires i < k < |labels| < |states|
  {
    Polls(labels, i, k, t) && states[k].mutex.None? && states[k + 1].mutex == Some(t) &&
    AllTaken(states, labels, i, k, t) && PollCount(labels, i, k, t) < Limit(ms)
  }

  ghost predicate Took(states: seq<State>, labels: seq<Label>, i: nat, j: nat, t: Tid, ms: int)
    requires i < j <= |labels| < |states|
  {
    exists k | i < k < j :: TookAt(states, labels, i, t, ms, k)
  }

  ghost predicate PollAt(states: seq<State>, labels: seq<Label>, i: nat, j: nat, t: Tid, ms: int)
    requires i < j <= |labels| < |states|
  {
    var s := states[j]; var n := OwnSteps(labels, i + 1, j, t);
    t in s.pcs &&
    match s.pcs[t]
    case CheckOwner(timeout) => timeout == Some(ms) && n == 0 && !Owns(s, t)
    case TryLock(left) =>
      n >= 1 && left == ms - 100 * (n - 1) && (n == 1 || left > -100) && AllTaken(states, labels, i, j, t)
    case Idle(TimedOut) =>
      n >= 2 && ms <= 100 * (n - 2) && (n == 2 || ms > 100 * (n - 3)) && AllTaken(states, labels, i, j, t)
    case AssertZero(_) => Took(states, labels, i, j, t, ms)
    case SetCount => Took(states, labels, i, j, t, ms)
    case SetOwner => Took(states, labels, i, j, t, ms)
    case Idle(Acquired) => Took(states, labels, i, j, t, ms)
    case _ => false
  }

  lemma TookStays(states: seq<State>, labels: seq<Label>, i: nat, j: nat, t: Tid, ms: int)
    requires i < j < |labels| < |states| && Took(states, labels, i, j, t, ms)
    ensures Took(states, labels, i, j + 1, t, ms)
  {
    var k :| i < k < j && TookAt(states, labels, i, t, ms, k);
    assert TookAt(states, labels, i, t, ms, k);
  }

  lemma PollOwn(states: seq<State>, labels: seq<Label>, i: nat, j: nat, t: Tid, ms: int)
    requires i < j < |labels| < |states| && Inv(states[j]) && Own(labels[j], t)
    requires Step(states[j], labels[j], states[j + 1])
    requires PollAt(states, labels, i, j, t, ms) && !states[j].pcs[t].Idle?
    ensures PollAt(states, labels, i, j + 1, t, ms)
  {
    assert ThreadOk(states[j], t);
    if states[j].pcs[t].TryLock? {
      assert Polls(labels, i, j, t);
      if states[j].mutex.None? { assert TookAt(states, labels, i, t, ms, j); }
    } else if !states[j].pcs[t].CheckOwner? {
      TookStays(states, labels, i, j, t, ms);
    } else {
      NoPollYet(labels, i, j, t);
    }
  }

  lemma {:induction false} NoPollYet(labels: seq<Label>, i: nat, j: nat, t: Tid)
    requires i < j < |labels| && OwnSteps(labels, i + 1, j, t) == 0
    ensures forall k | i < k <= j :: !Polls(labels, i, k, t)
    decreases j
  {
    if i + 1 < j { NoPollYet(labels, i, j - 1, t); }
  }

  lemma PollOther(states: seq<State>, labels: seq<Label>, i: nat, j: nat, t: Tid, ms: int)
    requires i < j < |labels| < |states| && Inv(states[j]) && !Own(labels[j], t)
    requires Step(states[j], labels[j], states[j + 1])
    requires PollAt(states, labels, i, j, t, ms) && !states[j].pcs[t].Idle?
    ensures PollAt(states, labels, i, j + 1, t, ms)
  {
    OthersStay(states[j], labels[j], states[j + 1], t);
    if Took(states, labels, i, j, t, ms) { TookStays(states, labels, i, j, t, ms); }
  }

  lemma PollKept(recursive: bool, states: seq<State>, labels: seq<Label>, i: nat, j: nat, t: Tid, ms: int)
    requires IsRun(recursive, states, labels) && i < j < |labels|
    requires PollAt(states, labels, i, j, t, ms) && !states[j].pcs[t].Idle?
    ensures PollAt(states, labels, i, j + 1, t, ms)
  {
    StepAt(recursive, states, labels, j);
    if Own(labels[j], t) {
      PollOwn(states, labels, i, j, t, ms);
    } else {
      PollOther(states, labels, i, j, t, ms);
    }
  }

  lemma PollBegins(states: seq<State>, labels: seq<Label>, i: nat, t: Tid, ms: int)
    requires i < |labels| < |states| && labels[i] == Lock(t, Some(ms)) && Step(states[i], labels[i], states[i + 1])
    requires !Owns(states[i], t)
    ensures PollAt(states, labels, i, i + 1, t, ms)
  {}

  lemma {:induction false} PollProgress(recursive: bool, states: seq<State>, labels: seq<Label>, i: nat, j: nat,
                                        t: Tid, ms: int)
    requires InCall(recursive, states, labels, i, j, t) && labels[i] == Lock(t, Some(ms)) && !Owns(states[i], t)
    ensures PollAt(states, labels, i, j, t, ms)
  {
    if j == i + 1 {
      StepAt(recursive, states, labels, i);
      PollBegins(states, labels, i, t, ms);
    } else {
      PollProgress(recursive, states, labels, i, j - 1, t, ms);
      PollKept(recursive, states, labels, i, j - 1, t, ms);
    }
  }

  /** A timed acquisition by a thread that does not have the lock.  It answers with a time-out if and
      only if each of its polls found the mutex taken and they are as many as the limit lets it
      make.  It never makes more.  A poll that finds the mutex free takes it, and then the call
      answers that it acquired the lock. */
  lemma TimedAcquire(recursive: bool, states: seq<State>, labels: seq<Label>, i: nat, j: nat, t: Tid, ms: int)
    requires InCall(recursive, states, labels, i, j, t) && labels[i] == Lock(t, Some(ms)) && !Owns(states[i], t)
    ensures t in states[j].pcs
    ensures states[j].pcs[t] == Idle(TimedOut) <==>
            AllTaken(states, labels, i, j, t) && PollCount(labels, i, j, t) == Limit(ms)
    ensures AllTaken(states, labels, i, j, t) ==> PollCount(labels, i, j, t) <= Limit(ms)
    ensures !AllTaken(states, labels, i, j, t) ==>
            exists k | i < k < j :: TookAt(states, labels, i, t, ms, k)
    ensures !AllTaken(states, labels, i, j, t) && states[j].pcs[t].Idle? ==> states[j].pcs[t].last == Acquired
    ensures AllTaken(states, labels, i, j, t) && states[j].pcs[t].Idle? ==> states[j].pcs[t].last == TimedOut
  {
    PollProgress(recursive, states, labels, i, j, t, ms);
    PollsMean(states, labels, i, j, t, ms);
  }

  lemma PollsMean(states: seq<State>, labels: seq<Label>, i: nat, j: nat, t: Tid, ms: int)
    requires i < j <= |labels| < |states| && PollAt(states, labels, i, j, t, ms)
    ensures states[j].pcs[t] == Idle(TimedOut) <==>
            AllTaken(states, labels, i, j, t) && PollCount(labels, i, j, t) == Limit(ms)
    ensures AllTaken(states, labels, i, j, t) ==> PollCount(labels, i, j, t) <= Limit(ms)
    ensures !AllTaken(states, labels, i, j, t) ==> Took(states, labels, i, j, t, ms)
    ensures states[j].pcs[t].Idle? ==>
            states[j].pcs[t].last == if AllTaken(states, labels, i, j, t) then TimedOut else Acquired
  {
    if Took(states, labels, i, j, t, ms) {
      var k :| i < k < j && TookAt(states, labels, i, t, ms, k);
      assert !AllTaken(states, labels, i, j, t);
    } else if states[j].pcs[t].CheckOwner? {
      if j - 1 > i { NoPollYet(labels, i, j - 1, t); }
    }
  }

  // ---------------------------------------------------------------- waiting

  /** Step `k` takes `t` off the condition variable. */
  predicate WakesAt(states: seq<State>, k: nat, t: Tid)
    requires k + 1 < |states|
  {
    Sleeps(states[k], t) && !Sleeps(states[k + 1], t)
  }

  ghost predicate Slept(states: seq<State>, i: nat, j: nat, t: Tid)
    requires i <= j < |states|
  {
    exists k | i <= k < j :: WakesAt(states, k, t)
  }

  /** Where a wait is: before it slept, asleep, and after. */
  ghost predicate WaitAt(states: seq<State>, i: nat, j: nat, t: Tid, had: bool, timed: bool)
    requires i <= j < |states|
  {
    var s := states[j];
    t in s.pcs &&
    match s.pcs[t]
    case WaitCheck(limited) => limited == timed && Owns(s, t) == had
    case DropOwner(limited) => limited == timed && had
    case CondWait(limited) => limited == timed && had
    case Asleep(limited) => limited == timed && had
    case WantMutex(_, expired) => had && Slept(states, i, j, t) && (expired ==> timed)
    case AssertFree(_, expired) => had && Slept(states, i, j, t) && (expired ==> timed)
    case RetakeOwner(expired) => had && Slept(states, i, j, t) && (expired ==> timed)
    case Idle(Waited) => had && Slept(states, i, j, t)
    case Idle(WaitTimedOut) => had && Slept(states, i, j, t) && timed
    case Idle(NotLocked) => !had
    case _ => false
  }

  lemma SleptStays(states: seq<State>, i: nat, j: nat, t: Tid)
    requires i <= j < |states| - 1
    ensures Slept(states, i, j, t) || WakesAt(states, j, t) ==> Slept(states, i, j + 1, t)
  {
    if k :| i <= k < j && WakesAt(states, k, t) { assert WakesAt(states, k, t); }
  }

  lemma WaitStepped(states: seq<State>, l: Label, i: nat, j: nat, t: Tid, had: bool, timed: bool)
    requires i <= j < |states| - 1 && Inv(states[j]) && Step(states[j], l, states[j + 1])
    requires WaitAt(states, i, j, t, had, timed) && !states[j].pcs[t].Idle?
    ensures WaitAt(states, i, j + 1, t, had, timed)
  {
    SleptStays(states, i, j, t);
    if Own(l, t) { assert ThreadOk(states[j], t); } else { OthersStay(states[j], l, states[j + 1], t); }
  }

  lemma WaitKept(recursive: bool, states: seq<State>, labels: seq<Label>, i: nat, j: nat, t: Tid, had: bool,
                 timed: bool)
    requires IsRun(recursive, states, labels) && i <= j < |labels|
    requires WaitAt(states, i, j, t, had, timed) && !states[j].pcs[t].Idle?
    ensures WaitAt(states, i, j + 1, t, had, timed)
  {
    StepAt(recursive, states, labels, j);
    WaitStepped(states, labels[j], i, j, t, had, timed);
  }

  lemma {:induction false} WaitProgress(recursive: bool, states: seq<State>, labels: seq<Label>, i: nat, j: nat, t: Tid)
    requires InCall(recursive, states, labels, i, j, t) && labels[i].Await?
    ensures WaitAt(states, i, j, t, Owns(states[i], t), labels[i].timed)
  {
    if j == i + 1 {
      StepAt(recursive, states, labels, i);
    } else {
      WaitProgress(recursive, states, labels, i, j - 1, t);
      WaitKept(recursive, states, labels, i, j - 1, t, Owns(states[i], t), labels[i].timed);
    }
  }

  /** A wait by a thread without the lock is refused.  One by the thread with the lock has slept and been
      woken when it returns; it times out only if it has a time limit. */
  lemma WaitingAnswers(recursive: bool, states: seq<State>, labels: seq<Label>, i: nat, j: nat, t: Tid)
    requires InCall(recursive, states, labels, i, j, t) && labels[i].Await?
    requires t in states[j].pcs && states[j].pcs[t].Idle?
    ensures var last := states[j].pcs[t].last;
            if Owns(states[i], t) then last == Waited || (last == WaitTimedOut && labels[i].timed)
            else last == NotLocked
    ensures Owns(states[i], t) ==> exists k | i < k < j :: WakesAt(states, k, t)
    ensures !Owns(states[i], t) ==> forall k | i < k < j :: !Sleeps(states[k], t)
  {
    WaitProgress(recursive, states, labels, i, j, t);
    if Owns(states[i], t) {
      StepAt(recursive, states, labels, i);
      var k :| i <= k < j && WakesAt(states, k, t);
      assert WakesAt(states, k, t);
    } else {
      forall k | i < k < j ensures !Sleeps(states[k], t) { WaitProgress(recursive, states, labels, i, k, t); }
    }
  }

  // ---------------------------------------------------------------- notifying

  ghost predicate WakesNobody(states: seq<State>, k: nat)
    requires k + 1 < |states|
  {
    forall w | Sleeps(states[k], w) :: Sleeps(states[k + 1], w)
  }

  /** Step `k` wakes every sleeper, or exactly one if there is any. */
  ghost predicate WakesThem(states: seq<State>, k: nat, all: bool)
    requires k + 1 < |states|
  {
    if all then forall w | Sleeps(states[k], w) :: !Sleeps(states[k + 1], w)
    else
      (exists w :: Sleeps(states[k], w)) ==>
        exists w :: WakesAt(states, k, w) && forall v | v != w && Sleeps(states[k], v) :: Sleeps(states[k + 1], v)
  }

  /** The steps of `u` between `i` and `j` wake nobody, except perhaps `but`. */
  ghost predicate Quiet(states: seq<State>, labels: seq<Label>, i: nat, j: nat, u: Tid, but: nat)
    requires |states| == |labels| + 1 && j <= |labels|
  {
    forall k | i < k < j && Own(labels[k], u) && k != but :: WakesNobody(states, k)
  }

  /** The last step before `j` wakes the sleepers, by the thread with the lock, and no other does. */
  ghost predicate NotifiedLast(states: seq<State>, labels: seq<Label>, i: nat, j: nat, u: Tid, all: bool)
    requires |states| == |labels| + 1 && i < j <= |labels|
  {
    i < j - 1 && Own(labels[j - 1], u) && Owns(states[j - 1], u) && WakesThem(states, j - 1, all) &&
    Quiet(states, labels, i, j, u, j - 1)
  }

  ghost predicate NotifyAt(states: seq<State>, labels: seq<Label>, i: nat, j: nat, u: Tid, all: bool, had: bool)
    requires |states| == |labels| + 1 && i < j <= |labels|
  {
    u in states[j].pcs &&
    match states[j].pcs[u]
    case SignalCheck(a) => a == all && Owns(states[j], u) == had && Quiet(states, labels, i, j, u, i)
    case Signal(a) => a == all && had && Quiet(states, labels, i, j, u, i)
    case Idle(Notified) => had && NotifiedLast(states, labels, i, j, u, all)
    case Idle(NotLocked) => !had && Quiet(states, labels, i, j, u, i)
    case _ => false
  }

  lemma SignalWakes(states: seq<State>, labels: seq<Label>, i: nat, j: nat, u: Tid, w: Tid, all: bool)
    requires |states| == |labels| + 1 && i < j < |labels| && labels[j] == Run(u, w) && Inv(states[j])
    requires Step(states[j], labels[j], states[j + 1])
    requires u in states[j].pcs && states[j].pcs[u] == Signal(all) && Quiet(states, labels, i, j, u, i)
    ensures NotifyAt(states, labels, i, j + 1, u, all, true)
  {
    assert ThreadOk(states[j], u);
    if !all && SomeSleeps(states[j]) { assert WakesAt(states, j, w); }
  }

  lemma NotifyStepped(states: seq<State>, labels: seq<Label>, i: nat, j: nat, u: Tid, all: bool, had: bool)
    requires |states| == |labels| + 1 && i < j < |labels| && Inv(states[j])
    requires Step(states[j], labels[j], states[j + 1])
    requires NotifyAt(states, labels, i, j, u, all, had) && !states[j].pcs[u].Idle?
    ensures NotifyAt(states, labels, i, j + 1, u, all, had)
  {
    if !Own(labels[j], u) {
      OthersStay(states[j], labels[j], states[j + 1], u);
    } else if states[j].pcs[u].Signal? {
      SignalWakes(states, labels, i, j, u, labels[j].w, all);
    } else {
      assert WakesNobody(states, j);
    }
  }

  lemma NotifyKept(recursive: bool, states: seq<State>, labels: seq<Label>, i: nat, j: nat, u: Tid, all: bool,
                   had: bool)
    requires IsRun(recursive, states, labels) && i < j < |labels|
    requires NotifyAt(states, labels, i, j, u, all, had) && !states[j].pcs[u].Idle?
    ensures NotifyAt(states, labels, i, j + 1, u, all, had)
  {
    StepAt(recursive, states, labels, j);
    NotifyStepped(states, labels, i, j, u, all, had);
  }

  lemma {:induction false} NotifyProgress(recursive: bool, states: seq<State>, labels: seq<Label>, i: nat, j: nat,
                                          u: Tid)
    requires InCall(recursive, states, labels, i, j, u) && labels[i].Notify?
    ensures NotifyAt(states, labels, i, j, u, labels[i].all, Owns(states[i], u))
  {
    if j == i + 1 {
      StepAt(recursive, states, labels, i);
    } else {
      NotifyProgress(recursive, states, labels, i, j - 1, u);
      NotifyKept(recursive, states, labels, i, j - 1, u, labels[i].all, Owns(states[i], u));
    }
  }

  /** A release of the notification, from the call of it to its return.  Without the lock it is refused
      and none of its steps wakes anybody.  With the lock exactly one step does: all who sleep
      then if the caller asked for all, and otherwise one of them if there is any. */
  lemma ReleaseWakes(recursive: bool, states: seq<State>, labels: seq<Label>, i: nat, j: nat, u: Tid, all: bool)
    requires InCall(recursive, states, labels, i, j, u) && labels[i] == Notify(u, all)
    requires u in states[j].pcs && states[j].pcs[u].Idle?
    ensures states[j].pcs[u].last == if Owns(states[i], u) then Notified else NotLocked
    ensures !Owns(states[i], u) ==> forall m | i < m < j && Own(labels[m], u) :: WakesNobody(states, m)
    ensures Owns(states[i], u) ==> exists k | i < k < j ::
              Own(labels[k], u) &&
              (all ==> forall w | Sleeps(states[k], w) :: !Sleeps(states[k + 1], w)) &&
              (!all && (exists w :: Sleeps(states[k], w)) ==>
                 exists w :: WakesAt(states, k, w) &&
                             forall v | v != w && Sleeps(states[k], v) :: Sleeps(states[k + 1], v)) &&
              forall m | i < m < j && m != k && Own(labels[m], u) :: WakesNobody(states, m)
  {
    NotifyProgress(recursive, states, labels, i, j, u);
    NotifyMeans(states, labels, i, j, u, all, Owns(states[i], u));
  }

  lemma NotifyMeans(states: seq<State>, labels: seq<Label>, i: nat, j: nat, u: Tid, all: bool, had: bool)
    requires |states| == |labels| + 1 && i < j <= |labels|
    requires NotifyAt(states, labels, i, j, u, all, had) && states[j].pcs[u].Idle?
    ensures had ==> exists k | i < k < j :: Own(labels[k], u) && WakesThem(states, k, all) &&
                                            Quiet(states, labels, i, j, u, k)
    ensures !had ==> Quiet(states, labels, i, j, u, i)
  {
    if had { assert Own(labels[j - 1], u); }
  }

  // ---------------------------------------------------------------- no call goes round

  /** How many polls are left to a timed acquisition. */
  function PollsLeft(left: int): nat { if left <= 0 then 1 else 1 + (left + 99) / 100 }

  /** How many steps a thread can make until it returns or sleeps. */
  function StepsLeft(s: State, t: Tid): int
    requires t in s.pcs
  {
    var levels := if Owns(s, t) then 3 * s.count else 0;
    match s.pcs[t]
    case Idle(_) => 0
    case Failed(_) => 0
    case CheckOwner(timeout) => if timeout.Some? then 4 + PollsLeft(timeout.value) else 5
    case AssertPositive(_) => 2
    case Bump => 1
    case LockMutex => 4
    case TryLock(left) => 3 + PollsLeft(left)
    case AssertZero(_) => 3
    case SetCount => 2
    case SetOwner => 1
    case WaitCheck(_) => 3
    case DropOwner(_) => 2
    case CondWait(_) => 1
    case Asleep(_) => 4
    case WantMutex(_, _) => 3
    case AssertFree(_, _) => 2
    case RetakeOwner(_) => 1
    case SignalCheck(_) => 2
    case Signal(_) => 1
    case ReleaseCheck(again) => if !again then 4 else if Owns(s, t) then levels + 3 else 1
    case Decrement(again) => if again then levels + 2 else 3
    case ClearOwner(again) => if again then 4 else 2
    case UnlockMutex(again) => if again then 3 else 1
    case UnlockCheck => levels + 5
    case UnlockAssert => 1
    case UnlockLoop => if Owns(s, t) then levels + 4 else 2
  }

  /** In a call, and able to go on with it. */
  predicate Awake(pc: Pc) { !pc.Idle? && !pc.Asleep? && !pc.Failed? }

  predicate AwakeBetween(states: seq<State>, a: nat, b: nat, t: Tid)
    requires b <= |states|
  {
    forall k | a <= k < b :: t in states[k].pcs && Awake(states[k].pcs[t])
  }

  /** Step `k` brings `t` nearer to its end if it is its own, and no farther from it otherwise. */
  predicate Nearer(states: seq<State>, labels: seq<Label>, k: nat, t: Tid)
    requires k < |labels| < |states|
  {
    t in states[k].pcs && t in states[k + 1].pcs &&
    StepsLeft(states[k], t) >= 1 &&
    (states[k + 1].pcs[t].Asleep? || StepsLeft(states[k + 1], t) >= 0) &&
    (states[k + 1].pcs[t].Asleep? ||
     StepsLeft(states[k + 1], t) + (if Own(labels[k], t) then 1 else 0) <= StepsLeft(states[k], t))
  }

  predicate AllNearerBetween(states: seq<State>, labels: seq<Label>, a: nat, b: nat, t: Tid)
    requires b <= |labels| < |states|
  {
    forall k | a <= k < b :: Nearer(states, labels, k, t) && Awake(states[k].pcs[t])
  }

  lemma ComesNearer(recursive: bool, states: seq<State>, labels: seq<Label>, k: nat, t: Tid)
    requires IsRun(recursive, states, labels) && k < |labels|
    requires t in states[k].pcs && Awake(states[k].pcs[t])
    ensures Nearer(states, labels, k, t)
  {
    StepAt(recursive, states, labels, k);
    assert ThreadOk(states[k], t);
    if Own(labels[k], t) {
      OwnStepCounts(states[k], t, labels[k].w, states[k + 1]);
    } else {
      OthersStay(states[k], labels[k], states[k + 1], t);
    }
  }

  lemma OwnStepCounts(s: State, t: Tid, w: Tid, n: State)
    requires Local(s, t) && Step(s, Run(t, w), n)
    ensures t in n.pcs && StepsLeft(s, t) >= 1
    ensures n.pcs[t].Asleep? || 0 <= StepsLeft(n, t) < StepsLeft(s, t)
  {
    if s.pcs[t].Signal? {
      assert n.pcs[t] == Idle(Notified);
    } else if Acquires(s.pcs[t]) {
      AcquireCounts(s, t, n);
    } else if Waits(s.pcs[t]) {
    } else {
      ReleaseCounts(s, t, n);
    }
  }

  lemma AcquireCounts(s: State, t: Tid, n: State)
    requires Local(s, t) && Enabled(s, t) && Acquires(s.pcs[t]) && n == AcquireStep(s, t, s.pcs[t])
    ensures t in n.pcs && 0 <= StepsLeft(n, t) < StepsLeft(s, t)
  {}

  lemma ReleaseCounts(s: State, t: Tid, n: State)
    requires Local(s, t) && Enabled(s, t) && Releases(s.pcs[t]) && n == ReleaseStep(s, t, s.pcs[t])
    ensures t in n.pcs && 0 <= StepsLeft(n, t) < StepsLeft(s, t)
  {}

  lemma {:induction false} StepsAddUp(states: seq<State>, labels: seq<Label>, a: nat, b: nat, t: Tid)
    requires a <= b <= |labels| < |states| && t in states[a].pcs && StepsLeft(states[a], t) >= 0
    requires AllNearerBetween(states, labels, a, b, t)
    ensures t in states[b].pcs
    ensures states[b].pcs[t].Asleep? ||
            (OwnSteps(labels, a, b, t) + StepsLeft(states[b], t) <= StepsLeft(states[a], t) &&
             StepsLeft(states[b], t) >= 0)
    ensures OwnSteps(labels, a, b, t) <= StepsLeft(states[a], t)
  {
    if a < b {
      StepsAddUp(states, labels, a, b - 1, t);
      assert Nearer(states, labels, b - 1, t);
    }
  }

  /** A few steps; and the polls that a time limit allows, and three for every level of the lock that
      is unlocked. */
  function Enough(s: State, l: Label): int {
    match l
    case Lock(_, timeout) => if timeout.Some? then 4 + Limit(timeout.value) else 5
    case Unlock(t) => 5 + if Owns(s, t) then 3 * s.count else 0
    case _ => 4
  }

  lemma EnoughAtFirst(s: State, l: Label, n: State)
    requires Step(s, l, n) && !l.Run? && !l.Wake?
    ensures l.t in n.pcs && StepsLeft(n, l.t) <= Enough(s, l)
  {}

  lemma EnoughAfter(states: seq<State>, labels: seq<Label>, i: nat, j: nat, t: Tid)
    requires i < j <= |labels| < |states| && AllNearerBetween(states, labels, i + 1, j, t)
    requires t in states[i + 1].pcs && StepsLeft(states[i + 1], t) <= Enough(states[i], labels[i])
    requires Enough(states[i], labels[i]) >= 0
    ensures OwnSteps(labels, i + 1, j, t) <= Enough(states[i], labels[i])
  {
    if i + 1 < j {
      assert Nearer(states, labels, i + 1, t);
      StepsAddUp(states, labels, i + 1, j, t);
    }
  }

  /** While it is awake a thread comes nearer to the end of its call with every step that it makes. */
  lemma StepsAreBounded(recursive: bool, states: seq<State>, labels: seq<Label>, i: nat, j: nat, t: Tid)
    requires IsRun(recursive, states, labels) && i < j <= |labels|
    requires !labels[i].Run? && !labels[i].Wake? && labels[i].t == t && AwakeBetween(states, i + 1, j, t)
    ensures OwnSteps(labels, i + 1, j, t) <= Enough(states[i], labels[i])
  {
    EnoughToBegin(recursive, states, labels, i);
    AllNearer(recursive, states, labels, i + 1, j, t);
    EnoughAfter(states, labels, i, j, t);
  }

  lemma EnoughToBegin(recursive: bool, states: seq<State>, labels: seq<Label>, i: nat)
    requires IsRun(recursive, states, labels) && i < |labels| && !labels[i].Run? && !labels[i].Wake?
    ensures labels[i].t in states[i + 1].pcs
    ensures StepsLeft(states[i + 1], labels[i].t) <= Enough(states[i], labels[i]) && Enough(states[i], labels[i]) >= 0
  {
    StepAt(recursive, states, labels, i);
    EnoughAtFirst(states[i], labels[i], states[i + 1]);
    CountNatural(states[i]);
  }

  lemma AllNearer(recursive: bool, states: seq<State>, labels: seq<Label>, a: nat, b: nat, t: Tid)
    requires IsRun(recursive, states, labels) && a <= b <= |labels|
    requires AwakeBetween(states, a, b, t)
    ensures AllNearerBetween(states, labels, a, b, t)
  {
    forall k | a <= k < b ensures Nearer(states, labels, k, t) && Awake(states[k].pcs[t]) {
      ComesNearer(recursive, states, labels, k, t);
    }
  }

  lemma CountNatural(s: State)
    requires Inv(s)
    ensures s.count >= 0
  {
    if s.mutex.Some? { assert ThreadOk(s, s.mutex.value); }
  }
}
