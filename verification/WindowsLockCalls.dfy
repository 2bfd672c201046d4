/**
 The calls of `WindowsLocks` from beginning to end, in every run: what each answers, and what it
 has done to the counter and the semaphore.
 */
module WindowsLockCalls {
  import opened Options
  import opened WindowsLocks

  /** From step `i`, at which `t` begins a call, up to `j`: `t` has not been idle in between. */
  ghost predicate InCall(recursive: bool, states: seq<State>, labels: seq<Label>, i: nat, j: nat, t: Tid) {
    IsRun(recursive, states, labels) && i < j <= |labels| &&
    (labels[i].Lock? || labels[i].Unlock?) && labels[i].t == t &&
    forall k | i < k < j :: t in states[k].pcs && !states[k].pcs[t].Idle?
  }

  lemma StepAt(recursive: bool, states: seq<State>, labels: seq<Label>, k: nat)
    requires IsRun(recursive, states, labels) && k < |labels|
    ensures Step(states[k], labels[k], states[k + 1]) && TokenInv(states[k]) && states[k].recursive == recursive
  {
    RunInv(recursive, states[..k + 1], labels[..k]);
    RecursiveStays(states, labels, k, recursive);
  }

  predicate Owns(s: State, t: Tid) { s.owner == Some(t) }

  /** A step that `t` itself makes. */
  predicate Own(l: Label, t: Tid) { l == Run(t) }

  lemma OthersStay(s: State, l: Label, n: State, t: Tid)
    requires TokenInv(s) && Step(s, l, n) && t in s.pcs && !s.pcs[t].Idle? && !Own(l, t) && l != TimeOut(t)
    ensures t in n.pcs && n.pcs[t] == s.pcs[t] && Owns(n, t) == Owns(s, t) && n.recursive == s.recursive
  {
    if l.Run? { OtherAdvances(s, l.t, n, t); }
  }

  lemma OtherAdvances(s: State, u: Tid, n: State, t: Tid)
    requires TokenInv(s) && u in s.pcs && n == Advance(s, u) && t in s.pcs && t != u
    ensures t in n.pcs && n.pcs[t] == s.pcs[t] && Owns(n, t) == Owns(s, t) && n.recursive == s.recursive
  {}

  // ---------------------------------------------------------------- what a call has done

  /** Step `k` adds to the counter. */
  predicate Increments(states: seq<State>, k: nat)
    requires k + 1 < |states|
  {
    states[k + 1].lockCount == states[k].lockCount + 1
  }

  /** The steps of `t` between `i` and `j` add nothing to the counter, except perhaps `but`. */
  predicate NoIncrement(states: seq<State>, labels: seq<Label>, i: nat, j: nat, t: Tid, but: nat)
    requires j <= |labels| < |states|
  {
    forall k | i < k < j && Own(labels[k], t) && k != but :: !Increments(states, k)
  }

  /** Step `k` of `t` adds to the counter, which says that the lock is taken or is not, and no other does. */
  predicate IncrementsAt(states: seq<State>, labels: seq<Label>, i: nat, j: nat, t: Tid, taken: bool, k: nat)
    requires i < k < j <= |labels| < |states|
  {
    Own(labels[k], t) && Increments(states, k) && (states[k].lockCount >= 0 <==> taken) &&
    NoIncrement(states, labels, i, j, t, k)
  }

  ghost predicate IncrementsOnce(states: seq<State>, labels: seq<Label>, i: nat, j: nat, t: Tid, taken: bool)
    requires j <= |labels| < |states|
  {
    exists k | i < k < j :: IncrementsAt(states, labels, i, j, t, taken, k)
  }

  /** A step of `t` has taken the semaphore. */
  ghost predicate TookSemaphore(states: seq<State>, labels: seq<Label>, i: nat, j: nat, t: Tid)
    requires j <= |labels| < |states|
  {
    exists k | i < k < j :: Own(labels[k], t) && states[k].semaphore == 1 && states[k + 1].semaphore == 0
  }

  /** It got the lock by finding it free, or by waiting for it. */
  ghost predicate Got(states: seq<State>, labels: seq<Label>, i: nat, j: nat, t: Tid)
    requires j <= |labels| < |states|
  {
    IncrementsOnce(states, labels, i, j, t, false) ||
    (IncrementsOnce(states, labels, i, j, t, true) && TookSemaphore(states, labels, i, j, t))
  }

  lemma IncrementStays(states: seq<State>, labels: seq<Label>, i: nat, j: nat, t: Tid)
    requires i < j < |labels| < |states| && (Own(labels[j], t) ==> !Increments(states, j))
    ensures NoIncrement(states, labels, i, j, t, i) ==> NoIncrement(states, labels, i, j + 1, t, i)
    ensures forall taken | IncrementsOnce(states, labels, i, j, t, taken) ::
              IncrementsOnce(states, labels, i, j + 1, t, taken)
  {
    forall taken | IncrementsOnce(states, labels, i, j, t, taken)
      ensures IncrementsOnce(states, labels, i, j + 1, t, taken)
    {
      var k :| i < k < j && IncrementsAt(states, labels, i, j, t, taken, k);
      assert IncrementsAt(states, labels, i, j + 1, t, taken, k);
    }
  }

  lemma TookStays(states: seq<State>, labels: seq<Label>, i: nat, j: nat, t: Tid)
    requires i < j < |labels| < |states|
    ensures TookSemaphore(states, labels, i, j, t) ==> TookSemaphore(states, labels, i, j + 1, t)
  {
    if k :| i < k < j && Own(labels[k], t) && states[k].semaphore == 1 && states[k + 1].semaphore == 0 {
      assert Own(labels[k], t) && states[k].semaphore == 1 && states[k + 1].semaphore == 0;
    }
  }

  // ---------------------------------------------------------------- acquiring

  ghost predicate LockAt(states: seq<State>, labels: seq<Label>, i: nat, j: nat, t: Tid, had: bool, timed: bool)
    requires i < j <= |labels| < |states|
  {
    var s := states[j];
    t in s.pcs &&
    match s.pcs[t]
    case CheckOwner(x) => x == timed && Owns(s, t) == had && s.recursive && NoIncrement(states, labels, i, j, t, i)
    case Bump => had && s.recursive && NoIncrement(states, labels, i, j, t, i)
    case Increment(x) =>
      x == timed && Owns(s, t) == had && (s.recursive ==> !had) && NoIncrement(states, labels, i, j, t, i)
    case Slow(x) => x == timed && Owns(s, t) == had && !s.recursive && IncrementsOnce(states, labels, i, j, t, true)
    case ReentryLoad => had && !s.recursive && IncrementsOnce(states, labels, i, j, t, true)
    case ReentryStore(_) => had && !s.recursive && IncrementsOnce(states, labels, i, j, t, true)
    case Wait(x) => x == timed && !had && IncrementsOnce(states, labels, i, j, t, true)
    case TakeOwner => !had && Got(states, labels, i, j, t)
    case SetRecursion => !had && Got(states, labels, i, j, t)
    case Idle(last) => LockAnswer(states, labels, i, j, t, had, timed, s.recursive, last)
    case _ => false
  }

  /** What an answer says of the call. */
  ghost predicate LockAnswer(states: seq<State>, labels: seq<Label>, i: nat, j: nat, t: Tid, had: bool, timed: bool,
                             recursive: bool, last: Outcome)
    requires i < j <= |labels| < |states|
  {
    match last
    case Acquired =>
      if had then recursive && NoIncrement(states, labels, i, j, t, i) else Got(states, labels, i, j, t)
    case AlreadyLocked => had && !recursive && IncrementsOnce(states, labels, i, j, t, true)
    case TimedOut => !had && timed && labels[j - 1] == TimeOut(t) && IncrementsOnce(states, labels, i, j, t, true)
    case _ => false
  }

  lemma IncrementStep(states: seq<State>, labels: seq<Label>, i: nat, j: nat, t: Tid, had: bool, timed: bool)
    requires i < j < |labels| < |states| && TokenInv(states[j]) && Own(labels[j], t)
    requires t in states[j].pcs && states[j + 1] == AcquireStep(states[j], t, states[j].pcs[t])
    requires LockAt(states, labels, i, j, t, had, timed) && states[j].pcs[t].Increment?
    ensures LockAt(states, labels, i, j + 1, t, had, timed)
  {
    assert IncrementsAt(states, labels, i, j + 1, t, states[j].lockCount >= 0, j);
  }

  lemma WaitStep(states: seq<State>, labels: seq<Label>, i: nat, j: nat, t: Tid, had: bool, timed: bool)
    requires i < j < |labels| < |states| && TokenInv(states[j]) && Own(labels[j], t)
    requires t in states[j].pcs && states[j + 1] == AcquireStep(states[j], t, states[j].pcs[t])
    requires LockAt(states, labels, i, j, t, had, timed) && states[j].pcs[t].Wait?
    ensures LockAt(states, labels, i, j + 1, t, had, timed)
  {
    IncrementStays(states, labels, i, j, t);
    if states[j].semaphore > 0 {
      assert Own(labels[j], t) && states[j].semaphore == 1 && states[j + 1].semaphore == 0;
    }
  }

  lemma OtherLockStep(states: seq<State>, labels: seq<Label>, i: nat, j: nat, t: Tid, had: bool, timed: bool)
    requires i < j < |labels| < |states| && TokenInv(states[j]) && Own(labels[j], t)
    requires t in states[j].pcs && states[j + 1] == AcquireStep(states[j], t, states[j].pcs[t])
    requires LockAt(states, labels, i, j, t, had, timed)
    requires !states[j].pcs[t].Idle? && !states[j].pcs[t].Increment? && !states[j].pcs[t].Wait?
    ensures LockAt(states, labels, i, j + 1, t, had, timed)
  {
    IncrementStays(states, labels, i, j, t);
    TookStays(states, labels, i, j, t);
  }

  lemma LockUndisturbed(states: seq<State>, labels: seq<Label>, i: nat, j: nat, t: Tid, had: bool, timed: bool)
    requires i < j < |labels| < |states| && TokenInv(states[j]) && !Own(labels[j], t)
    requires Step(states[j], labels[j], states[j + 1])
    requires LockAt(states, labels, i, j, t, had, timed) && !states[j].pcs[t].Idle?
    ensures LockAt(states, labels, i, j + 1, t, had, timed)
  {
    IncrementStays(states, labels, i, j, t);
    TookStays(states, labels, i, j, t);
    if labels[j] != TimeOut(t) { OthersStay(states[j], labels[j], states[j + 1], t); }
  }

  lemma LockKept(recursive: bool, states: seq<State>, labels: seq<Label>, i: nat, j: nat, t: Tid, had: bool,
                 timed: bool)
    requires IsRun(recursive, states, labels) && i < j < |labels|
    requires LockAt(states, labels, i, j, t, had, timed) && !states[j].pcs[t].Idle?
    ensures LockAt(states, labels, i, j + 1, t, had, timed)
  {
    StepAt(recursive, states, labels, j);
    if !Own(labels[j], t) {
      LockUndisturbed(states, labels, i, j, t, had, timed);
    } else if states[j].pcs[t].Increment? {
      IncrementStep(states, labels, i, j, t, had, timed);
    } else if states[j].pcs[t].Wait? {
      WaitStep(states, labels, i, j, t, had, timed);
    } else {
      OtherLockStep(states, labels, i, j, t, had, timed);
    }
  }

  lemma {:induction false} LockProgress(recursive: bool, states: seq<State>, labels: seq<Label>, i: nat, j: nat, t: Tid)
    requires InCall(recursive, states, labels, i, j, t) && labels[i].Lock?
    ensures LockAt(states, labels, i, j, t, Owns(states[i], t), labels[i].timed)
  {
    if j == i + 1 {
      StepAt(recursive, states, labels, i);
    } else {
      LockProgress(recursive, states, labels, i, j - 1, t);
      LockKept(recursive, states, labels, i, j - 1, t, Owns(states[i], t), labels[i].timed);
    }
  }

  /** An acquisition, from the call of it to its return.  A thread that had a recursive lock gets it once
      more and does not touch the counter; one that had a simple lock is told so.  Any other
      increments the counter once: if that finds the lock free it gets it, and otherwise it
      gets it by taking the semaphore, or times out if it has a time limit that has passed. */
  lemma AcquiringAnswers(recursive: bool, states: seq<State>, labels: seq<Label>, i: nat, j: nat, t: Tid)
    requires InCall(recursive, states, labels, i, j, t) && labels[i].Lock?
    requires t in states[j].pcs && states[j].pcs[t].Idle?
    ensures var had := Owns(states[i], t); var last := states[j].pcs[t].last;
            (had ==> last == if recursive then Acquired else AlreadyLocked) &&
            (!had ==> last == Acquired || last == TimedOut) &&
            (had && recursive ==> NoIncrement(states, labels, i, j, t, i)) &&
            (last == TimedOut ==>
               labels[i].timed && labels[j - 1] == TimeOut(t) && IncrementsOnce(states, labels, i, j, t, true)) &&
            (!had && last == Acquired ==>
               IncrementsOnce(states, labels, i, j, t, false) ||
               (IncrementsOnce(states, labels, i, j, t, true) && TookSemaphore(states, labels, i, j, t)))
  {
    LockProgress(recursive, states, labels, i, j, t);
    RecursiveStays(states, labels, j, recursive);
  }

  // ---------------------------------------------------------------- releasing

  predicate UnlockAt(s: State, t: Tid, had: bool) {
    t in s.pcs &&
    match s.pcs[t]
    case Release => Owns(s, t) == had
    case Unbump => had
    case ClearOwner => had
    case Decrement => had
    case Post => had
    case Idle(last) => last == if had then Released else NotLocked
    case _ => false
  }

  lemma UnlockKept(recursive: bool, states: seq<State>, labels: seq<Label>, k: nat, t: Tid, had: bool)
    requires IsRun(recursive, states, labels) && k < |labels| && UnlockAt(states[k], t, had)
    requires !states[k].pcs[t].Idle?
    ensures UnlockAt(states[k + 1], t, had)
  {
    StepAt(recursive, states, labels, k);
    UnlockStepped(states[k], labels[k], states[k + 1], t, had);
  }

  lemma UnlockStepped(s: State, l: Label, n: State, t: Tid, had: bool)
    requires TokenInv(s) && Step(s, l, n) && UnlockAt(s, t, had) && !s.pcs[t].Idle?
    ensures UnlockAt(n, t, had)
  {
    if !Own(l, t) { OthersStay(s, l, n, t); }
  }

  lemma {:induction false} UnlockProgress(recursive: bool, states: seq<State>, labels: seq<Label>, i: nat, j: nat,
                                          t: Tid)
    requires InCall(recursive, states, labels, i, j, t) && labels[i].Unlock?
    ensures UnlockAt(states[j], t, Owns(states[i], t))
  {
    if j == i + 1 {
      StepAt(recursive, states, labels, i);
    } else {
      UnlockProgress(recursive, states, labels, i, j - 1, t);
      UnlockKept(recursive, states, labels, j - 1, t, Owns(states[i], t));
    }
  }

  /** A release succeeds exactly for the thread that had the lock. */
  lemma ReleasingAnswers(recursive: bool, states: seq<State>, labels: seq<Label>, i: nat, j: nat, t: Tid)
    requires InCall(recursive, states, labels, i, j, t) && labels[i].Unlock?
    requires t in states[j].pcs && states[j].pcs[t].Idle?
    ensures states[j].pcs[t].last == if Owns(states[i], t) then Released else NotLocked
  {
    UnlockProgress(recursive, states, labels, i, j, t);
  }

  // ---------------------------------------------------------------- no call goes round

  /** How many steps `t` makes from `a` up to `b` that change anything. */
  function Changes(states: seq<State>, labels: seq<Label>, a: nat, b: nat, t: Tid): nat
    requires a <= b <= |labels| < |states|
    decreases b - a
  {
    if a == b then 0
    else
      Changes(states, labels, a, b - 1, t) + if Own(labels[b - 1], t) && states[b] != states[b - 1] then 1 else 0
  }

  /** How many steps besides waiting a thread can make until it returns. */
  function StepsLeft(pc: Pc): nat {
    match pc
    case Idle(_) => 0
    case Bump => 1
    case SetRecursion => 1
    case ReentryStore(_) => 1
    case TakeOwner => 2
    case ReentryLoad => 2
    case Wait(_) => 3
    case Slow(_) => 4
    case Increment(_) => 5
    case CheckOwner(_) => 6
    case Post => 1
    case Decrement => 2
    case ClearOwner => 3
    case Unbump => 4
    case Release => 5
  }

  predicate Nearer(states: seq<State>, labels: seq<Label>, k: nat, t: Tid)
    requires k < |labels| < |states|
  {
    t in states[k].pcs && t in states[k + 1].pcs &&
    StepsLeft(states[k + 1].pcs[t]) + (if Own(labels[k], t) && states[k + 1] != states[k] then 1 else 0) <=
      StepsLeft(states[k].pcs[t])
  }

  predicate BusyBetween(states: seq<State>, a: nat, b: nat, t: Tid)
    requires b <= |states|
  {
    forall k | a <= k < b :: t in states[k].pcs && !states[k].pcs[t].Idle?
  }

  predicate AllNearer(states: seq<State>, labels: seq<Label>, a: nat, b: nat, t: Tid)
    requires b <= |labels| < |states|
  {
    forall k | a <= k < b :: Nearer(states, labels, k, t)
  }

  lemma OwnStepCounts(s: State, t: Tid, n: State)
    requires t in s.pcs && n == Advance(s, t) && !s.pcs[t].Idle?
    ensures t in n.pcs
    ensures if n == s then s.pcs[t].Wait? && s.semaphore == 0 else StepsLeft(n.pcs[t]) < StepsLeft(s.pcs[t])
  {
    assert n.pcs[t] == s.pcs[t] ==> s.pcs[t].Wait? && s.semaphore == 0;
  }

  lemma ComesNearer(recursive: bool, states: seq<State>, labels: seq<Label>, k: nat, t: Tid)
    requires IsRun(recursive, states, labels) && k < |labels| && t in states[k].pcs && !states[k].pcs[t].Idle?
    ensures Nearer(states, labels, k, t)
  {
    StepAt(recursive, states, labels, k);
    if Own(labels[k], t) {
      OwnStepCounts(states[k], t, states[k + 1]);
    } else if labels[k] != TimeOut(t) {
      OthersStay(states[k], labels[k], states[k + 1], t);
    }
  }

  lemma {:induction false} ChangesAddUp(states: seq<State>, labels: seq<Label>, a: nat, b: nat, t: Tid)
    requires a <= b <= |labels| < |states| && t in states[a].pcs && AllNearer(states, labels, a, b, t)
    ensures t in states[b].pcs
    ensures Changes(states, labels, a, b, t) + StepsLeft(states[b].pcs[t]) <= StepsLeft(states[a].pcs[t])
  {
    if a < b {
      ChangesAddUp(states, labels, a, b - 1, t);
      assert Nearer(states, labels, b - 1, t);
    }
  }

  lemma EachNearer(recursive: bool, states: seq<State>, labels: seq<Label>, a: nat, b: nat, t: Tid)
    requires IsRun(recursive, states, labels) && a <= b <= |labels| && BusyBetween(states, a, b, t)
    ensures AllNearer(states, labels, a, b, t)
  {
    forall k | a <= k < b ensures Nearer(states, labels, k, t) { ComesNearer(recursive, states, labels, k, t); }
  }

  /** With every step that changes anything a thread comes nearer to the end of its call: six are enough. */
  lemma StepsAreBounded(recursive: bool, states: seq<State>, labels: seq<Label>, a: nat, b: nat, t: Tid)
    requires IsRun(recursive, states, labels) && a <= b <= |labels| && t in states[a].pcs
    requires BusyBetween(states, a, b, t)
    ensures Changes(states, labels, a, b, t) <= 6
  {
    EachNearer(recursive, states, labels, a, b, t);
    ChangesAddUp(states, labels, a, b, t);
  }

  /** A step of a thread in a call that changes nothing waits for the semaphore. */
  lemma OnlyWaitingStands(recursive: bool, states: seq<State>, labels: seq<Label>, k: nat, t: Tid)
    requires IsRun(recursive, states, labels) && k < |labels| && labels[k] == Run(t)
    requires t in states[k].pcs && !states[k].pcs[t].Idle? && states[k + 1] == states[k]
    ensures states[k].semaphore == 0 && states[k].holder != Some(t)
  {
    StepAt(recursive, states, labels, k);
    OwnStepCounts(states[k], t, states[k + 1]);
  }
}
