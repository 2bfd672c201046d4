/**
 The calls of `Notification` from beginning to end, in every run: what each answers, and what
 a release of the notification does to those who wait for it.
 */
module NotificationCalls {
  import opened Options
  import opened Notification

  /** From step `i`, at which `t` begins a call, up to `j`: `t` has not been idle in between. */
  ghost predicate InCall(states: seq<State>, labels: seq<Label>, i: nat, j: nat, t: Tid) {
    IsRun(states, labels) && i < j <= |labels| && !labels[i].Run? && !labels[i].Spurious? && labels[i].t == t &&
    forall k | i < k < j :: t in states[k].pcs && !states[k].pcs[t].Idle?
  }

  lemma StepAt(states: seq<State>, labels: seq<Label>, k: nat)
    requires IsRun(states, labels) && k < |labels|
    ensures Step(states[k], labels[k], states[k + 1])
  {}

  /** A step that `t` itself makes. */
  predicate Own(l: Label, t: Tid) { l.Run? && l.t == t }

  /** Others neither move a thread that is awake nor take the lock from it or give it to it. */
  lemma OthersStay(s: State, l: Label, n: State, t: Tid)
    requires Inv(s) && Step(s, l, n) && t in s.pcs && !s.pcs[t].Idle? && !Own(l, t)
    ensures t in n.pcs && Has(n, t) == Has(s, t)
    ensures n.pcs[t] == s.pcs[t] || (Asleep(s.pcs[t]) && n.pcs[t] == Woken(s.pcs[t]))
  {
    match l
    case Run(u, w) =>
      assert ThreadOk(s, u) && ThreadOk(s, t);
      OtherMoves(s, u, w, n, t);
    case _ =>
  }

  lemma OtherMoves(s: State, u: Tid, w: Tid, n: State, t: Tid)
    requires Inv(s) && Moves(s, u, w, n) && t in s.pcs && t != u && ThreadOk(s, u) && ThreadOk(s, t)
    ensures t in n.pcs && Has(n, t) == Has(s, t)
    ensures n.pcs[t] == s.pcs[t] || (Asleep(s.pcs[t]) && n.pcs[t] == Woken(s.pcs[t]))
  {}

  // ---------------------------------------------------------------- locking and unlocking

  /** Where a call to acquire or release the lock is, by whether its thread had the lock. */
  ghost predicate LockAt(s: State, t: Tid, had: bool) {
    t in s.pcs &&
    match s.pcs[t]
    case WantLock(false) => Has(s, t) == had
    case Test(false) => Has(s, t) == had
    case LockAsleep(false) => !had
    case UnlockLock(false, end) => end == if had then AlreadyLocked else Locked
    case Idle(last) => last == if had then AlreadyLocked else Locked
    case _ => false
  }

  ghost predicate UnlockAt(s: State, t: Tid, had: bool) {
    t in s.pcs &&
    match s.pcs[t]
    case WantRelease(false) => Has(s, t) == had
    case ReleaseTest(false) => Has(s, t) == had
    case SignalLock(false) => had
    case UnlockRelease(false, end) => end == if had then Released else NotLocked
    case Idle(last) => last == if had then Released else NotLocked
    case _ => false
  }

  lemma LockOwn(s: State, t: Tid, w: Tid, n: State, had: bool)
    requires Inv(s) && Moves(s, t, w, n) && LockAt(s, t, had)
    ensures LockAt(n, t, had)
  {
    assert ThreadOk(s, t);
  }

  lemma UnlockOwn(s: State, t: Tid, w: Tid, n: State, had: bool)
    requires Inv(s) && Moves(s, t, w, n) && UnlockAt(s, t, had)
    ensures UnlockAt(n, t, had)
  {
    assert ThreadOk(s, t);
  }

  lemma {:induction false} LockProgress(states: seq<State>, labels: seq<Label>, i: nat, j: nat, t: Tid)
    requires InCall(states, labels, i, j, t) && (labels[i].Lock? || labels[i].Unlock?)
    ensures labels[i].Lock? ==> LockAt(states[j], t, Has(states[i], t))
    ensures labels[i].Unlock? ==> UnlockAt(states[j], t, Has(states[i], t))
  {
    assert Step(states[j - 1], labels[j - 1], states[j]);
    if j > i + 1 {
      LockProgress(states, labels, i, j - 1, t);
      RunInv(states, labels, j - 1);
      if Own(labels[j - 1], t) {
        if labels[i].Lock? {
          LockOwn(states[j - 1], t, labels[j - 1].w, states[j], Has(states[i], t));
        } else {
          UnlockOwn(states[j - 1], t, labels[j - 1].w, states[j], Has(states[i], t));
        }
      } else {
        OthersStay(states[j - 1], labels[j - 1], states[j], t);
      }
    }
  }

  /** An acquisition tells a thread that had the lock so, and anybody else, once it returns, that it
      has it now; a release succeeds exactly for a thread that had the lock. */
  lemma LockingAnswers(states: seq<State>, labels: seq<Label>, i: nat, j: nat, t: Tid)
    requires InCall(states, labels, i, j, t) && t in states[j].pcs && states[j].pcs[t].Idle?
    ensures labels[i].Lock? ==> states[j].pcs[t].last == if Has(states[i], t) then AlreadyLocked else Locked
    ensures labels[i].Unlock? ==> states[j].pcs[t].last == if Has(states[i], t) then Released else NotLocked
  {
    if labels[i].Lock? || labels[i].Unlock? { LockProgress(states, labels, i, j, t); }
  }

  // ---------------------------------------------------------------- waiting

  /** `t` slept on the notification and was taken off it between `i` and `j`. */
  ghost predicate Slept(states: seq<State>, i: nat, j: nat, t: Tid)
    requires i <= j < |states|
  {
    exists k | i <= k < j :: WakesAt(states, k, t)
  }

  /** Where a wait is: before it slept, asleep, and after. */
  ghost predicate WaitAt(states: seq<State>, i: nat, j: nat, t: Tid, had: bool)
    requires i <= j < |states|
  {
    var s := states[j];
    t in s.pcs &&
    match s.pcs[t]
    case WantNotif => Has(s, t) == had
    case WantRelease(true) => Has(s, t) == had
    case ReleaseTest(true) => Has(s, t) == had
    case SignalLock(true) => had
    case UnlockRelease(true, end) => end == if had then Released else NotLocked
    case CondWait => had
    case Refuse => !had
    case NotifAsleep => had
    case Idle(NotLocked) => !had
    case NotifWoken => had && Slept(states, i, j, t)
    case UnlockWoken => had && Slept(states, i, j, t)
    case WantLock(true) => had && Slept(states, i, j, t)
    case Test(true) => had && Slept(states, i, j, t)
    case LockAsleep(true) => had && Slept(states, i, j, t)
    case UnlockLock(true, Waited) => had && Slept(states, i, j, t)
    case Idle(Waited) => had && Slept(states, i, j, t)
    case _ => false
  }

  lemma WaitOwn(states: seq<State>, i: nat, j: nat, t: Tid, w: Tid, had: bool)
    requires i <= j < |states| - 1 && Inv(states[j]) && Moves(states[j], t, w, states[j + 1])
    requires WaitAt(states, i, j, t, had) && (Slept(states, i, j, t) ==> Slept(states, i, j + 1, t))
    ensures WaitAt(states, i, j + 1, t, had)
  {
    assert ThreadOk(states[j], t);
  }

  lemma SleptStays(states: seq<State>, i: nat, j: nat, t: Tid)
    requires i <= j < |states| - 1
    ensures Slept(states, i, j, t) ==> Slept(states, i, j + 1, t)
    ensures WakesAt(states, j, t) ==> Slept(states, i, j + 1, t)
  {
    if k :| i <= k < j && WakesAt(states, k, t) { assert WakesAt(states, k, t); }
  }

  lemma WaitStep(states: seq<State>, l: Label, i: nat, j: nat, t: Tid, had: bool)
    requires i <= j < |states| - 1 && Inv(states[j]) && Step(states[j], l, states[j + 1])
    requires WaitAt(states, i, j, t, had) && !states[j].pcs[t].Idle?
    ensures WaitAt(states, i, j + 1, t, had)
  {
    SleptStays(states, i, j, t);
    if Own(l, t) {
      WaitOwn(states, i, j, t, l.w, had);
    } else {
      OthersStay(states[j], l, states[j + 1], t);
    }
  }

  lemma WaitBegins(states: seq<State>, l: Label, i: nat, t: Tid)
    requires i + 1 < |states| && l == Await(t) && Step(states[i], l, states[i + 1])
    ensures WaitAt(states, i, i + 1, t, Has(states[i], t))
  {}

  lemma WaitKept(states: seq<State>, labels: seq<Label>, i: nat, j: nat, t: Tid, had: bool)
    requires IsRun(states, labels) && i <= j < |labels| && WaitAt(states, i, j, t, had) && !states[j].pcs[t].Idle?
    ensures WaitAt(states, i, j + 1, t, had)
  {
    StepAt(states, labels, j);
    RunInv(states, labels, j);
    WaitStep(states, labels[j], i, j, t, had);
  }

  lemma {:induction false} WaitProgress(states: seq<State>, labels: seq<Label>, i: nat, j: nat, t: Tid)
    requires InCall(states, labels, i, j, t) && labels[i].Await?
    ensures WaitAt(states, i, j, t, Has(states[i], t))
  {
    if j == i + 1 {
      StepAt(states, labels, i);
      WaitBegins(states, labels[i], i, t);
    } else {
      WaitProgress(states, labels, i, j - 1, t);
      WaitKept(states, labels, i, j - 1, t, Has(states[i], t));
    }
  }

  /** A wait by a thread without the lock is refused, and it has not slept; one by the thread with the
      lock sleeps on the notification, is taken off it, and returns with success. */
  lemma WaitingAnswers(states: seq<State>, labels: seq<Label>, i: nat, j: nat, t: Tid)
    requires InCall(states, labels, i, j, t) && labels[i].Await? && t in states[j].pcs && states[j].pcs[t].Idle?
    ensures states[j].pcs[t].last == if Has(states[i], t) then Waited else NotLocked
    ensures Has(states[i], t) ==> exists k | i < k < j :: WakesAt(states, k, t)
    ensures !Has(states[i], t) ==> forall k | i < k < j :: !OnNotif(states[k], t)
  {
    WaitProgress(states, labels, i, j, t);
    if Has(states[i], t) {
      var k :| i <= k < j && WakesAt(states, k, t);
      assert Step(states[i], labels[i], states[i + 1]);
      assert WakesAt(states, k, t);
    } else {
      forall k | i < k < j ensures !OnNotif(states[k], t) { WaitProgress(states, labels, i, k, t); }
    }
  }

  // ---------------------------------------------------------------- notifying

  ghost predicate WakesNobody(states: seq<State>, k: nat)
    requires k + 1 < |states|
  {
    forall w | OnNotif(states[k], w) :: OnNotif(states[k + 1], w)
  }

  /** Step `k` takes every sleeper off the notification, or exactly one if there is any. */
  ghost predicate WakesThem(states: seq<State>, k: nat, all: bool)
    requires k + 1 < |states|
  {
    if all then forall w | OnNotif(states[k], w) :: !OnNotif(states[k + 1], w)
    else
      (exists w :: OnNotif(states[k], w)) ==>
        exists w :: WakesAt(states, k, w) && forall v | v != w && OnNotif(states[k], v) :: OnNotif(states[k + 1], v)
  }

  /** The steps of `u` between `i` and `j` wake nobody, except perhaps `but`. */
  ghost predicate Quiet(states: seq<State>, labels: seq<Label>, i: nat, j: nat, u: Tid, but: nat)
    requires |states| == |labels| + 1 && j <= |labels|
  {
    forall k | i < k < j && Own(labels[k], u) && k != but :: WakesNobody(states, k)
  }

  /** Step `k` of `u`, made with the notification's mutex, wakes the sleepers, and no other does. */
  ghost predicate NotifiesAt(states: seq<State>, labels: seq<Label>, i: nat, j: nat, u: Tid, all: bool, k: nat)
    requires |states| == |labels| + 1 && i < k < j <= |labels|
  {
    Own(labels[k], u) && states[k].notifMutex == Some(u) && WakesThem(states, k, all) &&
    Quiet(states, labels, i, j, u, k)
  }

  ghost predicate NotifiesOnce(states: seq<State>, labels: seq<Label>, i: nat, j: nat, u: Tid, all: bool)
    requires |states| == |labels| + 1 && j <= |labels|
  {
    exists k | i < k < j :: NotifiesAt(states, labels, i, j, u, all, k)
  }

  ghost predicate NotifyAt(states: seq<State>, labels: seq<Label>, i: nat, j: nat, u: Tid, all: bool)
    requires |states| == |labels| + 1 && j <= |labels|
  {
    u in states[j].pcs &&
    match states[j].pcs[u]
    case NotifyWant(a) => a == all && Quiet(states, labels, i, j, u, i)
    case NotifySignal(a) => a == all && Quiet(states, labels, i, j, u, i)
    case NotifyUnlock => NotifiesOnce(states, labels, i, j, u, all)
    case Idle(last) => last == Notified && NotifiesOnce(states, labels, i, j, u, all)
    case _ => false
  }

  /** The step in which the sleepers are woken. */
  lemma SignalWakes(states: seq<State>, labels: seq<Label>, i: nat, j: nat, u: Tid, w: Tid, all: bool)
    requires |states| == |labels| + 1 && i < j < |labels| && labels[j] == Run(u, w)
    requires Inv(states[j]) && Moves(states[j], u, w, states[j + 1])
    requires u in states[j].pcs && states[j].pcs[u] == NotifySignal(all) && Quiet(states, labels, i, j, u, i)
    ensures NotifyAt(states, labels, i, j + 1, u, all)
  {
    assert ThreadOk(states[j], u);
    if !all && SomeOnNotif(states[j]) { assert WakesAt(states, j, w); }
    assert NotifiesAt(states, labels, i, j + 1, u, all, j);
  }

  /** A step of the caller that wakes nobody leaves the account as it is. */
  lemma QuietStep(states: seq<State>, labels: seq<Label>, i: nat, j: nat, u: Tid, all: bool)
    requires |states| == |labels| + 1 && i < j < |labels| && (Own(labels[j], u) ==> WakesNobody(states, j))
    ensures Quiet(states, labels, i, j, u, i) ==> Quiet(states, labels, i, j + 1, u, i)
    ensures NotifiesOnce(states, labels, i, j, u, all) ==> NotifiesOnce(states, labels, i, j + 1, u, all)
  {
    if NotifiesOnce(states, labels, i, j, u, all) {
      var k :| i < k < j && NotifiesAt(states, labels, i, j, u, all, k);
      assert NotifiesAt(states, labels, i, j + 1, u, all, k);
    }
  }

  lemma NotifyOwn(s: State, u: Tid, w: Tid, n: State)
    requires Moves(s, u, w, n) && (s.pcs[u].NotifyWant? || s.pcs[u].NotifyUnlock?)
    ensures forall v | OnNotif(s, v) :: OnNotif(n, v)
    ensures u in n.pcs && n.pcs[u] == if s.pcs[u].NotifyWant? then NotifySignal(s.pcs[u].all) else Idle(Notified)
  {}

  lemma NotifyStep(states: seq<State>, labels: seq<Label>, i: nat, j: nat, u: Tid, all: bool)
    requires |states| == |labels| + 1 && i < j < |labels| && Inv(states[j])
    requires Step(states[j], labels[j], states[j + 1])
    requires NotifyAt(states, labels, i, j, u, all) && !states[j].pcs[u].Idle?
    ensures NotifyAt(states, labels, i, j + 1, u, all)
  {
    if !Own(labels[j], u) {
      OthersStay(states[j], labels[j], states[j + 1], u);
      QuietStep(states, labels, i, j, u, all);
    } else if states[j].pcs[u].NotifySignal? {
      SignalWakes(states, labels, i, j, u, labels[j].w, all);
    } else {
      NotifyOwn(states[j], u, labels[j].w, states[j + 1]);
      QuietStep(states, labels, i, j, u, all);
    }
  }

  lemma NotifyBegins(states: seq<State>, labels: seq<Label>, i: nat, u: Tid)
    requires |states| == |labels| + 1 && i < |labels| && Step(states[i], labels[i], states[i + 1])
    requires labels[i].Notify? && labels[i].t == u
    ensures NotifyAt(states, labels, i, i + 1, u, labels[i].all)
  {}

  lemma NotifyKept(states: seq<State>, labels: seq<Label>, i: nat, j: nat, u: Tid, all: bool)
    requires IsRun(states, labels) && i < j < |labels| && NotifyAt(states, labels, i, j, u, all)
    requires !states[j].pcs[u].Idle?
    ensures NotifyAt(states, labels, i, j + 1, u, all)
  {
    StepAt(states, labels, j);
    RunInv(states, labels, j);
    NotifyStep(states, labels, i, j, u, all);
  }

  lemma {:induction false} NotifyProgress(states: seq<State>, labels: seq<Label>, i: nat, j: nat, u: Tid)
    requires InCall(states, labels, i, j, u) && labels[i].Notify?
    ensures NotifyAt(states, labels, i, j, u, labels[i].all)
  {
    if j == i + 1 {
      StepAt(states, labels, i);
      NotifyBegins(states, labels, i, u);
    } else {
      NotifyProgress(states, labels, i, j - 1, u);
      NotifyKept(states, labels, i, j - 1, u, labels[i].all);
    }
  }

  /** A release of the notification, from the call of it to its return: exactly one of its steps takes
      sleepers off the notification.  That one takes all who are asleep then if the caller
      asked for all, and otherwise one of them if there is any. */
  lemma ReleaseWakes(states: seq<State>, labels: seq<Label>, i: nat, j: nat, u: Tid, all: bool)
    requires InCall(states, labels, i, j, u) && labels[i] == Notify(u, all)
    requires u in states[j].pcs && states[j].pcs[u].Idle?
    ensures states[j].pcs[u].last == Notified
    ensures exists k | i < k < j ::
              Own(labels[k], u) &&
              (all ==> forall w | OnNotif(states[k], w) :: !OnNotif(states[k + 1], w)) &&
              (!all && (exists w :: OnNotif(states[k], w)) ==>
                 exists w :: WakesAt(states, k, w) &&
                             forall v | v != w && OnNotif(states[k], v) :: OnNotif(states[k + 1], v)) &&
              forall m | i < m < j && m != k && Own(labels[m], u) :: WakesNobody(states, m)
  {
    NotifyProgress(states, labels, i, j, u);
    NotifiesMeans(states, labels, i, j, u, all);
  }

  lemma NotifiesMeans(states: seq<State>, labels: seq<Label>, i: nat, j: nat, u: Tid, all: bool)
    requires |states| == |labels| + 1 && j <= |labels| && NotifiesOnce(states, labels, i, j, u, all)
    ensures exists k | i < k < j :: Own(labels[k], u) && WakesThem(states, k, all) && Quiet(states, labels, i, j, u, k)
  {}

  // ---------------------------------------------------------------- no call goes round

  /** How many steps `t` makes from `a` up to `b`. */
  function OwnSteps(labels: seq<Label>, a: nat, b: nat, t: Tid): nat
    requires a <= b <= |labels|
    decreases b - a
  {
    if a == b then 0 else OwnSteps(labels, a, b - 1, t) + if Own(labels[b - 1], t) then 1 else 0
  }

  /** How many steps a thread can make until it returns or sleeps. */
  function StepsLeft(pc: Pc): nat {
    match pc
    case Idle(_) => 0
    case UnlockLock(_, _) => 1
    case Test(_) => 2
    case WantLock(_) => 3
    case LockAsleep(_) => 4
    case UnlockWoken => 4
    case NotifWoken => 5
    case NotifAsleep => 6
    case CondWait => 7
    case Refuse => 7
    case UnlockRelease(_, _) => 8
    case SignalLock(_) => 9
    case ReleaseTest(_) => 10
    case WantRelease(_) => 11
    case WantNotif => 12
    case NotifyUnlock => 1
    case NotifySignal(_) => 2
    case NotifyWant(_) => 3
  }

  lemma OwnStepCounts(s: State, t: Tid, w: Tid, n: State)
    requires Moves(s, t, w, n)
    ensures t in n.pcs && (Asleep(n.pcs[t]) || StepsLeft(n.pcs[t]) < StepsLeft(s.pcs[t]))
  {}

  predicate Awake(pc: Pc) { !pc.Idle? && !Asleep(pc) }

  /** Step `k` brings `t` nearer to its end if it is its own, and no farther from it otherwise. */
  predicate Nearer(states: seq<State>, labels: seq<Label>, k: nat, t: Tid)
    requires k < |labels| < |states|
  {
    t in states[k].pcs && t in states[k + 1].pcs &&
    (Asleep(states[k + 1].pcs[t]) ||
     StepsLeft(states[k + 1].pcs[t]) + (if Own(labels[k], t) then 1 else 0) <= StepsLeft(states[k].pcs[t]))
  }

  lemma ComesNearer(states: seq<State>, labels: seq<Label>, k: nat, t: Tid)
    requires IsRun(states, labels) && k < |labels|
    requires t in states[k].pcs && Awake(states[k].pcs[t])
    ensures Nearer(states, labels, k, t)
  {
    StepAt(states, labels, k);
    RunInv(states, labels, k);
    if Own(labels[k], t) {
      OwnStepCounts(states[k], t, labels[k].w, states[k + 1]);
    } else {
      OthersStay(states[k], labels[k], states[k + 1], t);
    }
  }

  lemma {:induction false} StepsAddUp(states: seq<State>, labels: seq<Label>, a: nat, b: nat, t: Tid)
    requires a <= b <= |labels| < |states| && t in states[a].pcs
    requires forall k | a <= k < b :: Nearer(states, labels, k, t) && Awake(states[k].pcs[t])
    ensures t in states[b].pcs &&
            (Asleep(states[b].pcs[t]) || OwnSteps(labels, a, b, t) + StepsLeft(states[b].pcs[t]) <= 12)
    ensures OwnSteps(labels, a, b, t) <= 12
  {
    if a < b {
      StepsAddUp(states, labels, a, b - 1, t);
      assert Nearer(states, labels, b - 1, t);
    }
  }

  /** While it is awake a thread comes nearer to the end of its call with every step that it makes:
      after twelve at most it has returned or sleeps. */
  lemma StepsAreBounded(states: seq<State>, labels: seq<Label>, a: nat, b: nat, t: Tid)
    requires IsRun(states, labels) && a <= b <= |labels| && t in states[a].pcs
    requires forall k | a <= k < b :: t in states[k].pcs && Awake(states[k].pcs[t])
    ensures OwnSteps(labels, a, b, t) <= 12
  {
    forall k | a <= k < b ensures Nearer(states, labels, k, t) { ComesNearer(states, labels, k, t); }
    StepsAddUp(states, labels, a, b, t);
  }
}
