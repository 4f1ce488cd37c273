/**
 The counting semaphore of ConcurrentRunner, used as a limit by Run and as a
 barrier by Wait, in every interleaving of the driver and the callbacks.
 */
module Barrier {

  // A callback goroutine exists from the moment its slot was taken.
  datatype Callback = Active | Ended | Released

  // The driver dispatches events 0, 1, ... and then waits.
  datatype Driver = Dispatching(next: nat) | Waiting(taken: nat) | Done

  datatype State = State(slots: nat, callbacks: seq<Callback>, driver: Driver)

  datatype Step =
    | Dispatch         // Run: take a slot, start the goroutine
    | LastDispatched   // the loop is over
    | End(i: nat)      // the callback returns
    | Release(i: nat)  // its deferred receive frees the slot
    | TakeSlot         // Wait: one more slot
    | WaitReturns

  const INITIAL := State(0, [], Dispatching(0))

  predicate Enabled(limit: nat, events: nat, s: State, step: Step) {
    match step
    case Dispatch => s.driver.Dispatching? && s.driver.next < events && s.slots < limit
    case LastDispatched => s.driver.Dispatching? && s.driver.next == events
    case End(i) => i < |s.callbacks| && s.callbacks[i].Active?
    case Release(i) => i < |s.callbacks| && s.callbacks[i].Ended? && s.slots > 0
    case TakeSlot => s.driver.Waiting? && s.driver.taken < limit && s.slots < limit
    case WaitReturns => s.driver.Waiting? && s.driver.taken == limit
  }

  function Apply(limit: nat, events: nat, s: State, step: Step): State
    requires Enabled(limit, events, s, step)
  {
    match step
    case Dispatch => State(s.slots + 1, s.callbacks + [Active], Dispatching(s.driver.next + 1))
    case LastDispatched => s.(driver := Waiting(0))
    case End(i) => s.(callbacks := s.callbacks[i := Ended])
    case Release(i) => s.(slots := s.slots - 1, callbacks := s.callbacks[i := Released])
    case TakeSlot => s.(slots := s.slots + 1, driver := Waiting(s.driver.taken + 1))
    case WaitReturns => s.(driver := Done)
  }

  function Count(callbacks: seq<Callback>, which: Callback): nat {
    if callbacks == [] then 0
    else Count(callbacks[..|callbacks| - 1], which) + if callbacks[|callbacks| - 1] == which then 1 else 0
  }

  lemma {:induction false} CountUpdate(callbacks: seq<Callback>, i: nat, now: Callback, which: Callback)
    requires i < |callbacks|
    ensures Count(callbacks[i := now], which) + (if callbacks[i] == which then 1 else 0)
         == Count(callbacks, which) + (if now == which then 1 else 0)
  {
    var n := |callbacks| - 1;
    if i < n {
      CountUpdate(callbacks[..n], i, now, which);
      assert callbacks[i := now][..n] == callbacks[..n][i := now];
    } else {
      assert callbacks[i := now][..n] == callbacks[..n];
    }
  }

  // Callbacks that hold a slot: still active, or over but not yet released.
  function Unreleased(s: State): nat {
    Count(s.callbacks, Active) + Count(s.callbacks, Ended)
  }

  function TakenByWait(limit: nat, driver: Driver): nat {
    match driver
    case Dispatching(_) => 0
    case Waiting(taken) => taken
    case Done => limit
  }

  // Occupied slots are unreleased callbacks and slots taken by Wait.
  ghost predicate Inv(limit: nat, events: nat, s: State) {
    && s.slots <= limit
    && s.slots == Unreleased(s) + TakenByWait(limit, s.driver)
    && |s.callbacks| <= events
    && (s.driver.Dispatching? ==> |s.callbacks| == s.driver.next)
    && (!s.driver.Dispatching? ==> |s.callbacks| == events)
    && (s.driver.Waiting? ==> s.driver.taken <= limit)
  }

  lemma InvStep(limit: nat, events: nat, s: State, step: Step)
    requires Inv(limit, events, s) && Enabled(limit, events, s, step)
    ensures Inv(limit, events, Apply(limit, events, s, step))
  {
    match step
    case Dispatch =>
      assert (s.callbacks + [Active])[..|s.callbacks|] == s.callbacks;
    case End(i) =>
      CountUpdate(s.callbacks, i, Ended, Active);
      CountUpdate(s.callbacks, i, Ended, Ended);
    case Release(i) =>
      CountUpdate(s.callbacks, i, Released, Active);
      CountUpdate(s.callbacks, i, Released, Ended);
    case _ =>
  }

  ghost predicate Next(limit: nat, events: nat, s: State, t: State) {
    exists step :: Enabled(limit, events, s, step) && t == Apply(limit, events, s, step)
  }

  ghost predicate Stuck(limit: nat, events: nat, s: State) {
    forall step :: !Enabled(limit, events, s, step)
  }

  ghost predicate IsRun(limit: nat, events: nat, run: seq<State>) {
    && run != [] && run[0] == INITIAL
    && forall i | 0 < i < |run| :: Next(limit, events, run[i - 1], run[i])
  }

  lemma StepAt(limit: nat, events: nat, run: seq<State>, n: nat) returns (step: Step)
    requires IsRun(limit, events, run) && 0 < n < |run|
    ensures Enabled(limit, events, run[n - 1], step) && run[n] == Apply(limit, events, run[n - 1], step)
  {
    var s, t := run[n - 1], run[n];
    assert Next(limit, events, s, t);
    step :| Enabled(limit, events, s, step) && t == Apply(limit, events, s, step);
  }

  lemma {:induction false} RunInv(limit: nat, events: nat, run: seq<State>, n: nat)
    requires IsRun(limit, events, run) && n < |run|
    ensures Inv(limit, events, run[n])
  {
    if n == 0 {
    } else {
      RunInv(limit, events, run, n - 1);
      var step := StepAt(limit, events, run, n);
      InvStep(limit, events, run[n - 1], step);
    }
  }

  lemma {:induction false} NoneCounted(callbacks: seq<Callback>, which: Callback)
    requires Count(callbacks, which) == 0
    ensures forall i | 0 <= i < |callbacks| :: callbacks[i] != which
  {
    if callbacks == [] {
    } else {
      NoneCounted(callbacks[..|callbacks| - 1], which);
    }
  }

  /**
   At every moment at most `limit` callbacks are active, and when Wait has
   returned every dispatched event's callback has ended and freed its slot.
   */
  lemma BarrierHolds(limit: nat, events: nat, run: seq<State>, n: nat)
    requires IsRun(limit, events, run) && n < |run|
    ensures Count(run[n].callbacks, Active) <= limit
    ensures run[n].driver.Done? ==>
              |run[n].callbacks| == events && forall i | 0 <= i < events :: run[n].callbacks[i] == Released
  {
    RunInv(limit, events, run, n);
    if run[n].driver.Done? {
      NoneCounted(run[n].callbacks, Active);
      NoneCounted(run[n].callbacks, Ended);
    }
  }

  // The callback of event i returns between moment n and the next.
  ghost predicate EndsAt(run: seq<State>, n: nat, i: nat) {
    && n + 1 < |run| && i < |run[n].callbacks| && i < |run[n + 1].callbacks|
    && run[n].callbacks[i].Active? && !run[n + 1].callbacks[i].Active?
  }

  lemma {:induction false} EndedStaysEnded(limit: nat, events: nat, run: seq<State>, m: nat, n: nat, i: nat)
    requires IsRun(limit, events, run) && m <= n < |run|
    requires i < |run[m].callbacks| && !run[m].callbacks[i].Active?
    ensures i < |run[n].callbacks| && !run[n].callbacks[i].Active?
    decreases n
  {
    if m == n {
    } else {
      EndedStaysEnded(limit, events, run, m, n - 1, i);
      var step := StepAt(limit, events, run, n);
    }
  }

  /**
   Each callback runs once.
   */
  lemma EndsOnce(limit: nat, events: nat, run: seq<State>, m: nat, n: nat, i: nat)
    requires IsRun(limit, events, run) && EndsAt(run, m, i) && EndsAt(run, n, i)
    ensures m == n
  {
    if m < n {
      EndedStaysEnded(limit, events, run, m + 1, n, i);
    } else if n < m {
      EndedStaysEnded(limit, events, run, n + 1, m, i);
    }
  }

  // -------- Wait is reached and returns --------

  function ToGo(limit: nat, events: nat, s: State): int {
    (match s.driver
     case Dispatching(next) => 3 * (events - next) + limit + 2
     case Waiting(taken) => limit - taken + 1
     case Done => 0)
    + 2 * Count(s.callbacks, Active) + Count(s.callbacks, Ended)
  }

  lemma UnreleasedMoves(limit: nat, events: nat, s: State) returns (step: Step)
    requires Inv(limit, events, s) && Unreleased(s) > 0
    ensures Enabled(limit, events, s, step)
  {
    if i: nat :| i < |s.callbacks| && s.callbacks[i].Active? {
      return End(i);
    }
    if forall i | 0 <= i < |s.callbacks| :: s.callbacks[i].Released? {
      AllReleased(s.callbacks);
    }
    var i: nat :| i < |s.callbacks| && !s.callbacks[i].Released?;
    step := Release(i);
  }

  /**
   Until Wait returns some step is possible.
   */
  lemma AlwaysMoves(limit: nat, events: nat, s: State) returns (step: Step)
    requires Inv(limit, events, s) && limit >= 1 && !s.driver.Done?
    ensures Enabled(limit, events, s, step)
  {
    if s.driver.Dispatching? && s.driver.next == events {
      step := LastDispatched;
    } else if s.driver.Waiting? && s.driver.taken == limit {
      step := WaitReturns;
    } else if s.slots < limit {
      step := if s.driver.Dispatching? then Dispatch else TakeSlot;
    } else {
      step := UnreleasedMoves(limit, events, s);
    }
  }

  lemma {:induction false} AllReleased(callbacks: seq<Callback>)
    requires forall i | 0 <= i < |callbacks| :: callbacks[i].Released?
    ensures Count(callbacks, Active) == 0 && Count(callbacks, Ended) == 0
  {
    if callbacks == [] {
    } else {
      AllReleased(callbacks[..|callbacks| - 1]);
    }
  }

  /**
   Every step brings the end nearer.
   */
  lemma StepsAreProgress(limit: nat, events: nat, s: State, step: Step)
    requires Inv(limit, events, s) && Enabled(limit, events, s, step)
    ensures 0 <= ToGo(limit, events, Apply(limit, events, s, step)) < ToGo(limit, events, s)
  {
    InvStep(limit, events, s, step);
    match step
    case Dispatch =>
      assert (s.callbacks + [Active])[..|s.callbacks|] == s.callbacks;
    case End(i) =>
      CountUpdate(s.callbacks, i, Ended, Active);
      CountUpdate(s.callbacks, i, Ended, Ended);
    case Release(i) =>
      CountUpdate(s.callbacks, i, Released, Active);
      CountUpdate(s.callbacks, i, Released, Ended);
    case _ =>
  }

  lemma {:induction false} RunToGo(limit: nat, events: nat, run: seq<State>, n: nat)
    requires IsRun(limit, events, run) && n < |run|
    ensures ToGo(limit, events, run[n]) + n <= 3 * events + limit + 2
  {
    if n == 0 {
    } else {
      RunToGo(limit, events, run, n - 1);
      RunInv(limit, events, run, n - 1);
      var step := StepAt(limit, events, run, n);
      StepsAreProgress(limit, events, run[n - 1], step);
    }
  }

  /**
   A run has at most 3 * events + limit + 2 steps, and one that cannot be
   continued has returned from Wait.
   */
  lemma WaitReturnsAtLast(limit: nat, events: nat, run: seq<State>)
    requires limit >= 1 && IsRun(limit, events, run)
    ensures |run| - 1 <= 3 * events + limit + 2
    ensures Stuck(limit, events, run[|run| - 1]) ==> run[|run| - 1].driver.Done?
  {
    var n := |run| - 1;
    RunInv(limit, events, run, n);
    RunToGo(limit, events, run, n);
    assert ToGo(limit, events, run[n]) >= 0;
    if !run[n].driver.Done? {
      var step := AlwaysMoves(limit, events, run[n]);
    }
  }
}
