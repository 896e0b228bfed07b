/**
 * The cancellation token's protocol as a state machine: any number of threads calling `cancel` and
 * any number waiting in `cancelled`, interleaved one step at a time.
 *
 * The notifier is known only by its rule: a notification wakes every waiter that registered before
 * it. Counting notifications, a waiter that registered when `seen` had been sent is awake once more
 * than `seen` have been.
 */
module Cancellation {
  /** A thread inside `cancel`: store the flag, notify, return. */
  datatype Canceller = Starting | Stored | Returned

  /** A thread inside `cancelled`: check, register, check again, await, and around. */
  datatype Waiter = Checking | Registering | Rechecking(seen: nat) | Awaiting(seen: nat) | Done

  datatype Token = Token(flag: bool, notifications: nat, cancellers: seq<Canceller>, waiters: seq<Waiter>)

  datatype Action = CancelStep(canceller: nat) | WaitStep(waiter: nat)

  ghost predicate Initial(s: Token) {
    && !s.flag
    && s.notifications == 0
    && (forall i :: 0 <= i < |s.cancellers| ==> s.cancellers[i] == Starting)
    && (forall j :: 0 <= j < |s.waiters| ==> s.waiters[j] == Checking)
  }

  /** A waiter that its own next step cannot move. */
  predicate Blocked(s: Token, w: Waiter) {
    w.Awaiting? && s.notifications <= w.seen
  }

  function StepWaiter(s: Token, w: Waiter): Waiter {
    match w
    case Checking => if s.flag then Done else Registering
    case Registering => Rechecking(s.notifications)
    case Rechecking(seen) => if s.flag then Done else Awaiting(seen)
    case Awaiting(seen) => if Blocked(s, w) then w else Checking
    case Done => Done
  }

  /** One step of one thread; a thread that is blocked, finished or absent changes nothing. */
  function Step(s: Token, action: Action): Token {
    match action
    case CancelStep(i) =>
      if i >= |s.cancellers| || s.cancellers[i] == Returned then s
      else if s.cancellers[i] == Starting then s.(flag := true, cancellers := s.cancellers[i := Stored])
      else s.(notifications := s.notifications + 1, cancellers := s.cancellers[i := Returned])
    case WaitStep(j) =>
      if j >= |s.waiters| then s
      else s.(waiters := s.waiters[j := StepWaiter(s, s.waiters[j])])
  }

  function Run(s: Token, actions: seq<Action>): Token
    decreases |actions|
  {
    if actions == [] then s else Run(Step(s, actions[0]), actions[1..])
  }

  ghost predicate Reachable(s: Token) {
    exists start, actions :: Initial(start) && Run(start, actions) == s
  }

  // ---------------------------------------------------------------------------------------------
  // The invariant
  // ---------------------------------------------------------------------------------------------

  /**
   * The flag is up exactly when some canceller has stored it, a notification follows a store, and a
   * waiter only awaits if it registered before any notification.
   */
  ghost predicate Inv(s: Token) {
    && (s.flag <==> exists i :: 0 <= i < |s.cancellers| && s.cancellers[i] != Starting)
    && (s.notifications > 0 <==> exists i :: 0 <= i < |s.cancellers| && s.cancellers[i] == Returned)
    && (forall j :: 0 <= j < |s.waiters| && s.waiters[j].Rechecking? ==> s.waiters[j].seen <= s.notifications)
    && (forall j :: 0 <= j < |s.waiters| && s.waiters[j].Awaiting? ==> s.waiters[j].seen == 0)
    && (forall j :: 0 <= j < |s.waiters| && s.waiters[j].Done? ==> s.flag)
  }

  lemma StepKeepsInv(s: Token, action: Action)
    requires Inv(s)
    ensures Inv(Step(s, action))
  {
    var t := Step(s, action);
    if action.CancelStep? && action.canceller < |s.cancellers| && s.cancellers[action.canceller] != Returned {
      assert t.cancellers[action.canceller] != Starting;
      forall i | 0 <= i < |s.cancellers| && s.cancellers[i] == Returned
        ensures t.cancellers[i] == Returned
      {}
    }
    if s.flag {
      var i :| 0 <= i < |s.cancellers| && s.cancellers[i] != Starting;
      assert t.cancellers[i] != Starting;
    }
  }

  lemma {:induction false} RunKeepsInv(s: Token, actions: seq<Action>)
    requires Inv(s)
    ensures Inv(Run(s, actions))
    decreases |actions|
  {
    if actions != [] {
      StepKeepsInv(s, actions[0]);
      RunKeepsInv(Step(s, actions[0]), actions[1..]);
    }
  }

  lemma ReachableKeepsInv(s: Token)
    requires Reachable(s)
    ensures Inv(s)
  {
    var start, actions :| Initial(start) && Run(start, actions) == s;
    RunKeepsInv(start, actions);
  }

  // ---------------------------------------------------------------------------------------------
  // Safety and progress
  // ---------------------------------------------------------------------------------------------

  /** A waiter returns only after the flag was set, that is, after some `cancel` began. */
  lemma NoEarlyReturn(s: Token, j: nat)
    requires Reachable(s) && j < |s.waiters| && s.waiters[j] == Done
    ensures s.flag && exists i :: 0 <= i < |s.cancellers| && s.cancellers[i] != Starting
  {
    ReachableKeepsInv(s);
  }

  /**
   * No wakeup is lost: once some `cancel` has returned, no waiter is blocked, wherever it was when
   * the notification went out.
   */
  lemma NoLostWakeup(s: Token, i: nat, j: nat)
    requires Reachable(s) && i < |s.cancellers| && j < |s.waiters|
    requires s.cancellers[i] == Returned
    ensures !Blocked(s, s.waiters[j])
  {
    ReachableKeepsInv(s);
  }

  /** A waiter that sleeps although the flag is up has a canceller about to notify, whose next step wakes it. */
  lemma SleepersWillBeWoken(s: Token, j: nat)
    requires Reachable(s) && s.flag && j < |s.waiters| && Blocked(s, s.waiters[j])
    ensures exists i :: 0 <= i < |s.cancellers| && s.cancellers[i] == Stored
                        && !Blocked(Step(s, CancelStep(i)), s.waiters[j])
  {
    ReachableKeepsInv(s);
    var i :| 0 <= i < |s.cancellers| && s.cancellers[i] != Starting;
    assert s.cancellers[i] == Stored && !Blocked(Step(s, CancelStep(i)), s.waiters[j]);
  }

  /** How many of its own steps a waiter still needs once it cannot block and the flag is up. */
  function Remaining(w: Waiter): nat {
    match w
    case Done => 0
    case Checking => 1
    case Rechecking(_) => 1
    case Registering => 2
    case Awaiting(_) => 2
  }

  function OwnSteps(actions: seq<Action>, j: nat): nat {
    if actions == [] then 0 else (if actions[0] == WaitStep(j) then 1 else 0) + OwnSteps(actions[1..], j)
  }

  ghost predicate Cancelled(s: Token) {
    exists i :: 0 <= i < |s.cancellers| && s.cancellers[i] == Returned
  }

  lemma StepProgresses(s: Token, action: Action, j: nat)
    requires Inv(s) && Cancelled(s) && j < |s.waiters|
    ensures Inv(Step(s, action)) && Cancelled(Step(s, action)) && |Step(s, action).waiters| == |s.waiters|
    ensures action == WaitStep(j) ==> Remaining(Step(s, action).waiters[j]) <= Remaining(s.waiters[j]) - 1
                                      || s.waiters[j] == Step(s, action).waiters[j] == Done
    ensures action != WaitStep(j) ==> Step(s, action).waiters[j] == s.waiters[j]
  {
    StepKeepsInv(s, action);
    var i :| 0 <= i < |s.cancellers| && s.cancellers[i] == Returned;
    assert Step(s, action).cancellers[i] == Returned;
  }

  lemma {:induction false} RunProgresses(s: Token, actions: seq<Action>, j: nat)
    requires Inv(s) && Cancelled(s) && j < |s.waiters|
    ensures |Run(s, actions).waiters| == |s.waiters|
    ensures OwnSteps(actions, j) >= Remaining(s.waiters[j]) ==> Run(s, actions).waiters[j] == Done
    decreases |actions|
  {
    if actions != [] {
      StepProgresses(s, actions[0], j);
      RunProgresses(Step(s, actions[0]), actions[1..], j);
    }
  }

  /**
   * Once some `cancel` has returned, every waiter returns within two of its own steps, however the
   * steps of all other threads fall between them.
   */
  lemma WaitersReturnPromptly(s: Token, actions: seq<Action>, i: nat, j: nat)
    requires Reachable(s) && i < |s.cancellers| && s.cancellers[i] == Returned && j < |s.waiters|
    requires OwnSteps(actions, j) >= 2
    ensures j < |Run(s, actions).waiters| && Run(s, actions).waiters[j] == Done
  {
    ReachableKeepsInv(s);
    RunProgresses(s, actions, j);
  }

  /** Where a waiter is after so many of its own steps, while nobody cancels: asleep from the third on. */
  function Position(steps: nat): Waiter {
    if steps == 0 then Checking
    else if steps == 1 then Registering
    else if steps == 2 then Rechecking(0)
    else Awaiting(0)
  }

  lemma {:induction false} UncancelledRun(s: Token, actions: seq<Action>, j: nat, taken: nat)
    requires !s.flag && s.notifications == 0 && j < |s.waiters| && s.waiters[j] == Position(taken)
    requires forall action <- actions :: action.WaitStep?
    ensures
      var t := Run(s, actions);
      && !t.flag && t.notifications == 0 && |t.waiters| == |s.waiters|
      && t.waiters[j] == Position(taken + OwnSteps(actions, j))
    decreases |actions|
  {
    if actions != [] {
      assert actions[0] in actions;
      var mine := actions[0] == WaitStep(j);
      UncancelledRun(Step(s, actions[0]), actions[1..], j, if mine then taken + 1 else taken);
    }
  }

  /**
   * While nobody cancels, a waiter is asleep after three steps of its own and its further steps change
   * nothing: it waits for a notification and does not poll the flag.
   */
  lemma UncancelledWaitersSleep(start: Token, actions: seq<Action>, j: nat)
    requires Initial(start) && j < |start.waiters|
    requires (forall action <- actions :: action.WaitStep?) && OwnSteps(actions, j) >= 3
    ensures
      var t := Run(start, actions);
      j < |t.waiters| && t.waiters[j].Awaiting? && Step(t, WaitStep(j)) == t
  {
    UncancelledRun(start, actions, j, 0);
    var t := Run(start, actions);
    assert t.waiters[j := t.waiters[j]] == t.waiters;
  }

  /** The flag never comes down and a waiter that returned stays returned: cancelling is permanent. */
  lemma {:induction false} CancellingIsPermanent(s: Token, actions: seq<Action>)
    ensures s.flag ==> Run(s, actions).flag
    ensures s.notifications <= Run(s, actions).notifications
    ensures |Run(s, actions).waiters| == |s.waiters|
    ensures forall j :: 0 <= j < |s.waiters| && s.waiters[j] == Done ==> Run(s, actions).waiters[j] == Done
    decreases |actions|
  {
    if actions != [] {
      CancellingIsPermanent(Step(s, actions[0]), actions[1..]);
    }
  }
}
