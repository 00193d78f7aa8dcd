/** One wave of `n` requests on a thread pool, as the interleaving of its atomic steps: the caller
    submits, waits, collects or (after the wave timeout) cancels, registers late callbacks and
    gathers; the workers start, count themselves and resolve their futures at any moment. */
module Wave {
  import opened Options
  import opened Progress

  /** What `session.observe` did: a native, allowed, not overloaded observation; any other
      observation; an ordinary error; or an exception that the handlers do not catch. */
  datatype Result = Good | Bad | Raised | Interrupted

  predicate Answered(r: Result) {
    r.Good? || r.Bad?
  }

  /** A future together with how far its worker got. */
  datatype Future =
    | Unsubmitted
    | Queued
    | Started
    | Attempted
    | Observed(r: Result)
    | Tallied(r: Result)
    | Done(r: Result)
    | Cancelled

  /** `callback`: the late callback is registered and has not run yet.
      `credited`: the caller or a late callback took the observation over. */
  datatype Request = Request(future: Future, callback: bool, credited: bool)

  datatype Caller =
    | Submitting(next: nat)
    | Waiting
    | Collecting(next: nat, good: nat, bad: nat, errors: nat)
    | Cancelling(late: set<nat>, todo: set<nat>, count: nat)
    | Registering(late: set<nat>, todo: set<nat>)
    | Gathering(late: set<nat>, todo: set<nat>, good: nat, bad: nat)
    | Returned
    | TimedOut
    | Aborted(good: nat, bad: nat)

  /** `deferred` is the `capacity_prewarm` wiring: workers do not count their own success. */
  datatype State = State(deferred: bool, requests: seq<Request>, caller: Caller, stage: Stage)

  datatype Action =
    | Start(i: nat)
    | Attempt(i: nat)
    | Observe(i: nat, outcome: Result)
    | Tally(i: nat)
    | Resolve(i: nat)
    | LateCallback(i: nat)
    | Submit
    | AnnounceSubmitted
    | AllDone
    | Timeout(late: set<nat>)
    | Collect
    | Settle
    | Cancel(i: nat)
    | AnnounceCancelled
    | Register(i: nat)
    | Registered
    | Gather(i: nat)
    | Flush

  // ---- Steps ------------------------------------------------------------------------------

  predicate IsDone(r: Request) {
    r.future.Done?
  }

  predicate AllAreDone(s: State) {
    forall i :: 0 <= i < |s.requests| ==> IsDone(s.requests[i])
  }

  predicate Enabled(s: State, a: Action) {
    var n := |s.requests|;
    match a
    case Start(i) => i < n && s.requests[i].future.Queued?
    case Attempt(i) => i < n && s.requests[i].future.Started?
    case Observe(i, _) => i < n && s.requests[i].future.Attempted?
    case Tally(i) => i < n && s.requests[i].future.Observed?
    case Resolve(i) => i < n && s.requests[i].future.Tallied?
    case LateCallback(i) => i < n && IsDone(s.requests[i]) && s.requests[i].callback
    case Submit => s.caller.Submitting? && s.caller.next < n
    case AnnounceSubmitted => s.caller.Submitting? && s.caller.next == n
    case AllDone => s.caller.Waiting? && AllAreDone(s)
    case Timeout(late) => s.caller.Waiting? && Unfinished(s) <= late <= Indices(s) && late != {}
    case Collect => s.caller.Collecting? && s.caller.next < n && IsDone(s.requests[s.caller.next])
    case Settle => s.caller.Collecting? && s.caller.next == n
    case Cancel(i) => s.caller.Cancelling? && i < n && i in s.caller.todo
    case AnnounceCancelled => s.caller.Cancelling? && s.caller.todo == {}
    case Register(i) => s.caller.Registering? && i < n && i in s.caller.todo
    case Registered => s.caller.Registering? && s.caller.todo == {}
    case Gather(i) => s.caller.Gathering? && i < n && i in s.caller.todo && IsDone(s.requests[i])
    case Flush => s.caller.Gathering? && s.caller.todo == {}
  }

  function WithFuture(s: State, i: nat, f: Future): State
    requires i < |s.requests|
  {
    s.(requests := s.requests[i := s.requests[i].(future := f)])
  }

  /** `record_deferred` on `good` acceptable and `bad` other observations. */
  function RecordDeferred(stage: Stage, good: nat, bad: nat): Stage {
    AddCompleted(AddFailed(stage, bad), good)
  }

  /** `record_late`: an exception is dropped, an observation is passed to `record_deferred`. An exception
      that is not an ordinary error leaves the callback too, and counts nothing. */
  function RecordLate(s: State, i: nat): State
    requires i < |s.requests| && IsDone(s.requests[i])
  {
    match s.requests[i].future.r
    case Raised => s.(requests := s.requests[i := s.requests[i].(callback := false)])
    case Interrupted => s.(requests := s.requests[i := s.requests[i].(callback := false)])
    case Good => s.(requests := s.requests[i := s.requests[i].(callback := false, credited := true)],
                    stage := RecordDeferred(s.stage, 1, 0))
    case Bad => s.(requests := s.requests[i := s.requests[i].(callback := false, credited := true)],
                   stage := RecordDeferred(s.stage, 0, 1))
  }

  function Credit(s: State, i: nat): State
    requires i < |s.requests|
  {
    s.(requests := s.requests[i := s.requests[i].(credited := true)])
  }

  function UpTo(n: nat): (r: set<nat>)
    ensures forall i: nat :: i in r <==> i < n
  {
    if n == 0 then {} else UpTo(n - 1) + {n - 1}
  }

  function Indices(s: State): set<nat> {
    UpTo(|s.requests|)
  }

  function Unfinished(s: State): set<nat> {
    set i: nat | i < |s.requests| && !IsDone(s.requests[i])
  }

  function Step(s: State, a: Action): State
    requires Enabled(s, a)
  {
    match a
    case Start(i) => WithFuture(s, i, Started)
    case Attempt(i) => WithFuture(s, i, Attempted).(stage := AddAttempted(s.stage, 1))
    case Observe(i, outcome) => WithFuture(s, i, Observed(outcome))
    case Tally(i) =>
      var r := s.requests[i].future.r;
      var t := WithFuture(s, i, Tallied(r));
      if r.Raised? then t.(stage := AddFailed(s.stage, 1))
      else if r.Interrupted? || s.deferred then t
      else t.(stage := AddCompleted(s.stage, 1))
    case Resolve(i) => WithFuture(s, i, Done(s.requests[i].future.r))
    case LateCallback(i) => RecordLate(s, i)
    case Submit => WithFuture(s, s.caller.next, Queued).(caller := Submitting(s.caller.next + 1))
    case AnnounceSubmitted => s.(caller := Waiting, stage := AddSubmitted(s.stage, |s.requests|))
    case AllDone => s.(caller := Collecting(0, 0, 0, 0))
    case Timeout(late) => s.(caller := Cancelling(late, late, 0))
    case Collect =>
      var Collecting(k, good, bad, errors) := s.caller;
      match s.requests[k].future.r {
        case Good => Credit(s, k).(caller := Collecting(k + 1, good + 1, bad, errors))
        case Bad => Credit(s, k).(caller := Collecting(k + 1, good, bad + 1, errors))
        case Raised => s.(caller := Collecting(k + 1, good, bad, errors + 1))
        case Interrupted => s.(caller := Aborted(good, bad))
      }
    case Settle =>
      var Collecting(k, good, bad, errors) := s.caller;
      var t := s.(caller := Returned);
      if !s.deferred then t
      else if errors == 0 && good + bad == |s.requests| && bad == 0 then t.(stage := AddCompleted(s.stage, good + bad))
      else t.(stage := RecordDeferred(s.stage, good, bad))
    case Cancel(i) =>
      var Cancelling(late, todo, count) := s.caller;
      if s.requests[i].future.Queued?
      then WithFuture(s, i, Cancelled).(caller := Cancelling(late, todo - {i}, count + 1))
      else s.(caller := Cancelling(late, todo - {i}, count))
    case AnnounceCancelled =>
      var Cancelling(late, _, count) := s.caller;
      s.(stage := AddCancelled(s.stage, count),
         caller := if s.deferred then Registering(late, late) else Gathering(late, Indices(s) - late, 0, 0))
    case Register(i) =>
      var Registering(late, todo) := s.caller;
      var t := s.(caller := Registering(late, todo - {i}));
      if s.requests[i].future.Cancelled? then t
      else if s.requests[i].future == Done(Interrupted) then s.(caller := Aborted(0, 0))
      else if IsDone(s.requests[i]) then RecordLate(t, i)
      else t.(requests := s.requests[i := s.requests[i].(callback := true)])
    case Registered => s.(caller := Gathering(s.caller.late, Indices(s) - s.caller.late, 0, 0))
    case Gather(i) =>
      var Gathering(late, todo, good, bad) := s.caller;
      match s.requests[i].future.r {
        case Good => Credit(s, i).(caller := Gathering(late, todo - {i}, good + 1, bad))
        case Bad => Credit(s, i).(caller := Gathering(late, todo - {i}, good, bad + 1))
        case Raised => s.(caller := Gathering(late, todo - {i}, good, bad))
        case Interrupted => s.(caller := Aborted(good, bad))
      }
    case Flush =>
      var Gathering(_, _, good, bad) := s.caller;
      s.(caller := TimedOut, stage := if s.deferred then RecordDeferred(s.stage, good, bad) else s.stage)
  }

  function Initial(n: nat, deferred: bool): State {
    State(deferred, seq(n, _ => Request(Unsubmitted, false, false)), Submitting(0), Fresh(Some(n)))
  }

  /** `run` is a schedule: from `s`, every action is enabled when its turn comes. */
  ghost predicate Schedule(s: State, run: seq<Action>)
    decreases |run|
  {
    run == [] || (Enabled(s, run[0]) && Schedule(Step(s, run[0]), run[1..]))
  }

  ghost function After(s: State, run: seq<Action>): State
    requires Schedule(s, run)
    decreases |run|
  {
    if run == [] then s else After(Step(s, run[0]), run[1..])
  }

  // ---- Where each request is counted -------------------------------------------------------

  datatype Bucket = InAttempted | InCompleted | InFailed | InCancelled

  /** A request is past its own success or failure count. */
  predicate SelfCounted(f: Future) {
    f.Tallied? || f.Done?
  }

  predicate CountedIn(deferred: bool, b: Bucket, q: Request) {
    match b
    case InAttempted => q.future.Attempted? || q.future.Observed? || SelfCounted(q.future)
    case InCompleted =>
      if deferred then q.credited && q.future == Done(Good)
      else SelfCounted(q.future) && Answered(q.future.r)
    case InFailed =>
      || (SelfCounted(q.future) && q.future.r.Raised?)
      || (deferred && q.credited && q.future == Done(Bad))
    case InCancelled => q.future.Cancelled?
  }

  function Count(deferred: bool, b: Bucket, qs: seq<Request>): nat {
    if qs == [] then 0
    else Count(deferred, b, qs[..|qs| - 1]) + (if CountedIn(deferred, b, qs[|qs| - 1]) then 1 else 0)
  }

  lemma {:induction false} CountUpdate(deferred: bool, b: Bucket, qs: seq<Request>, i: nat, q: Request)
    requires i < |qs|
    ensures Count(deferred, b, qs[i := q]) + (if CountedIn(deferred, b, qs[i]) then 1 else 0)
            == Count(deferred, b, qs) + (if CountedIn(deferred, b, q) then 1 else 0)
  {
    var last := |qs| - 1;
    var changed := qs[i := q];
    if i == last {
      assert changed[..last] == qs[..last];
    } else {
      CountUpdate(deferred, b, qs[..last], i, q);
      assert changed[..last] == qs[..last][i := q];
    }
  }

  /** What the caller has taken over but not reported yet, or lost when it was aborted. */
  function HeldGood(s: State): nat {
    if s.deferred && (s.caller.Collecting? || s.caller.Gathering? || s.caller.Aborted?) then s.caller.good else 0
  }

  function HeldBad(s: State): nat {
    if s.deferred && (s.caller.Collecting? || s.caller.Gathering? || s.caller.Aborted?) then s.caller.bad else 0
  }

  function HeldCancelled(s: State): nat {
    if s.caller.Cancelling? then s.caller.count else 0
  }

  /** The stage counters are exactly the requests counted in each bucket, less what is held. */
  ghost predicate Balanced(s: State) {
    && s.stage.attempted == s.stage.started == Count(s.deferred, InAttempted, s.requests)
    && s.stage.completed + HeldGood(s) == Count(s.deferred, InCompleted, s.requests)
    && s.stage.failed + HeldBad(s) == Count(s.deferred, InFailed, s.requests)
    && s.stage.cancelled + HeldCancelled(s) == Count(s.deferred, InCancelled, s.requests)
    && s.stage.submitted == (if s.caller.Submitting? then 0 else |s.requests|)
    && s.stage.planned == Some(|s.requests|)
  }

  predicate Untouched(q: Request) {
    !q.callback && !q.credited
  }

  /** The request ended and its observation, if any, was taken over exactly then. */
  predicate Settled(q: Request) {
    q.future.Done? && !q.callback && (q.credited <==> Answered(q.future.r))
  }

  /** A request that was unfinished at the timeout, after the caller dealt with it. */
  predicate LateHandled(deferred: bool, q: Request) {
    && !q.future.Queued? && !q.future.Unsubmitted?
    && if q.future.Cancelled? || !deferred then Untouched(q) else (q.callback && !q.credited) || Settled(q)
  }

  /** How the caller's position constrains request `i`. */
  ghost predicate Placed(s: State, i: nat)
    requires i < |s.requests|
  {
    var q := s.requests[i];
    match s.caller
    case Submitting(next) => Untouched(q) && !q.future.Cancelled? && (q.future.Unsubmitted? <==> i >= next)
    case Waiting => Untouched(q) && !q.future.Cancelled? && !q.future.Unsubmitted?
    case Collecting(next, _, _, _) => q.future.Done? && if i < next then Settled(q) else Untouched(q)
    case Cancelling(late, todo, _) =>
      && Untouched(q) && !q.future.Unsubmitted?
      && (i !in late ==> q.future.Done?)
      && (q.future.Cancelled? ==> i !in todo)
      && (i !in todo ==> !q.future.Queued?)
    case Registering(late, todo) =>
      if i in todo then Untouched(q) && !q.future.Queued? && !q.future.Unsubmitted?
      else if i in late then LateHandled(s.deferred, q)
      else q.future.Done? && Untouched(q)
    case Gathering(late, todo, _, _) =>
      if i in late then LateHandled(s.deferred, q)
      else if i in todo then q.future.Done? && Untouched(q)
      else Settled(q)
    case Returned => Settled(q)
    case TimedOut => Settled(q) || LateHandled(s.deferred, q)
    case Aborted(_, _) =>
      && !q.future.Queued? && !q.future.Unsubmitted?
      && (q.callback ==> s.deferred && !q.credited && !q.future.Cancelled?)
      && (q.credited ==> q.future.Done? && Answered(q.future.r))
  }

  ghost predicate AnyInterrupted(s: State) {
    exists i :: 0 <= i < |s.requests| && s.requests[i].future == Done(Interrupted)
  }

  ghost predicate WellPlaced(s: State) {
    && (s.caller.Submitting? || s.caller.Collecting? ==> s.caller.next <= |s.requests|)
    && (s.caller.Cancelling? || s.caller.Registering? ==> s.caller.todo <= s.caller.late <= Indices(s))
    && (s.caller.Gathering? ==> s.caller.late <= Indices(s) && s.caller.todo <= Indices(s) - s.caller.late)
    && (s.caller.Registering? ==> s.deferred)
    && (s.caller.Aborted? ==> AnyInterrupted(s))
    && forall i :: 0 <= i < |s.requests| ==> Placed(s, i)
  }

  ghost predicate Invariant(s: State) {
    WellPlaced(s) && Balanced(s)
  }

  // ---- Every step keeps the invariant ------------------------------------------------------

  lemma {:induction false} NothingCounted(deferred: bool, b: Bucket, qs: seq<Request>)
    requires forall i :: 0 <= i < |qs| ==> qs[i].future.Unsubmitted?
    ensures Count(deferred, b, qs) == 0
  {
    if qs != [] {
      NothingCounted(deferred, b, qs[..|qs| - 1]);
    }
  }

  lemma {:induction false} InitialHolds(n: nat, deferred: bool)
    ensures Invariant(Initial(n, deferred))
  {
    var qs := Initial(n, deferred).requests;
    NothingCounted(deferred, InAttempted, qs);
    NothingCounted(deferred, InCompleted, qs);
    NothingCounted(deferred, InFailed, qs);
    NothingCounted(deferred, InCancelled, qs);
  }

  /** The request an action works on, when it changes one. */
  function Touched(s: State, a: Action): (i: nat)
    requires Enabled(s, a) && |s.requests| > 0
    ensures i < |s.requests|
  {
    match a
    case Start(i) => i
    case Attempt(i) => i
    case Observe(i, _) => i
    case Tally(i) => i
    case Resolve(i) => i
    case LateCallback(i) => i
    case Cancel(i) => i
    case Register(i) => i
    case Gather(i) => i
    case Submit => s.caller.next
    case Collect => s.caller.next
    case _ => 0
  }

  lemma {:induction false} StepTouchesOne(s: State, a: Action)
    requires Enabled(s, a) && |s.requests| > 0
    ensures var i := Touched(s, a); Step(s, a).requests == s.requests[i := Step(s, a).requests[i]]
    ensures Step(s, a).deferred == s.deferred
  {
  }

  lemma {:induction false} StepPlacesTouched(s: State, a: Action)
    requires WellPlaced(s) && Enabled(s, a) && |s.requests| > 0
    ensures Placed(Step(s, a), Touched(s, a))
  {
    assert Placed(s, Touched(s, a));
  }

  lemma {:induction false} StepPlacesOther(s: State, a: Action, i: nat)
    requires WellPlaced(s) && Enabled(s, a) && i < |s.requests| && i != Touched(s, a)
    ensures i < |Step(s, a).requests| && Placed(Step(s, a), i)
  {
    StepTouchesOne(s, a);
    assert Placed(s, i);
    assert Step(s, a).requests[i] == s.requests[i];
  }

  lemma {:induction false} StepKeepsBounds(s: State, a: Action)
    requires WellPlaced(s) && Enabled(s, a)
    ensures var t := Step(s, a);
            && |t.requests| == |s.requests|
            && (t.caller.Submitting? || t.caller.Collecting? ==> t.caller.next <= |t.requests|)
            && (t.caller.Cancelling? || t.caller.Registering? ==> t.caller.todo <= t.caller.late <= Indices(t))
            && (t.caller.Gathering? ==> t.caller.late <= Indices(t) && t.caller.todo <= Indices(t) - t.caller.late)
            && (t.caller.Registering? ==> t.deferred)
  {
    hide Placed;
  }

  lemma {:induction false} DoneStays(s: State, a: Action, i: nat)
    requires WellPlaced(s) && Enabled(s, a) && i < |s.requests| && s.requests[i].future.Done?
    ensures |Step(s, a).requests| == |s.requests| && Step(s, a).requests[i].future == s.requests[i].future
  {
    assert Placed(s, i);
  }

  /** Only an interrupted request aborts the caller. */
  lemma {:induction false} AbortNeedsInterrupt(s: State, a: Action)
    requires WellPlaced(s) && Enabled(s, a)
    ensures Step(s, a).caller.Aborted? ==> AnyInterrupted(Step(s, a))
  {
    hide Placed;
    if Step(s, a).caller.Aborted? {
      var i: nat;
      if s.caller.Aborted? {
        i :| i < |s.requests| && s.requests[i].future == Done(Interrupted);
      } else {
        i := Touched(s, a);
      }
      DoneStays(s, a, i);
      assert Step(s, a).requests[i].future == Done(Interrupted);
    }
  }

  lemma {:induction false} StepKeepsPlaces(s: State, a: Action)
    requires WellPlaced(s) && Enabled(s, a)
    ensures WellPlaced(Step(s, a))
  {
    hide Step, Placed;
    var t := Step(s, a);
    StepKeepsBounds(s, a);
    AbortNeedsInterrupt(s, a);
    forall i | 0 <= i < |t.requests| ensures Placed(t, i) {
      if i == Touched(s, a) {
        StepPlacesTouched(s, a);
      } else {
        StepPlacesOther(s, a, i);
      }
    }
  }

  /** Whether a request is counted, as a number. */
  function In(deferred: bool, b: Bucket, q: Request): nat {
    if CountedIn(deferred, b, q) then 1 else 0
  }

  /** What a step adds to a counter, held or reported, is what its request newly counts for. */
  lemma {:induction false} AttemptsMove(s: State, a: Action)
    requires Enabled(s, a) && |s.requests| > 0 && Placed(s, Touched(s, a)) && s.stage.attempted == s.stage.started
    ensures var i, t := Touched(s, a), Step(s, a);
            && i < |t.requests| && t.stage.attempted == t.stage.started
            && t.stage.attempted + In(s.deferred, InAttempted, s.requests[i])
               == s.stage.attempted + In(s.deferred, InAttempted, t.requests[i])
  {
  }

  lemma {:induction false} CompletionsMove(s: State, a: Action)
    requires WellPlaced(s) && Enabled(s, a) && |s.requests| > 0
    ensures var i, t := Touched(s, a), Step(s, a);
            && i < |t.requests|
            && t.stage.completed + HeldGood(t) + In(s.deferred, InCompleted, s.requests[i])
               == s.stage.completed + HeldGood(s) + In(s.deferred, InCompleted, t.requests[i])
  {
    hide AnyInterrupted;
    assert Placed(s, Touched(s, a));
  }

  lemma {:induction false} FailuresMove(s: State, a: Action)
    requires WellPlaced(s) && Enabled(s, a) && |s.requests| > 0
    ensures var i, t := Touched(s, a), Step(s, a);
            && i < |t.requests|
            && t.stage.failed + HeldBad(t) + In(s.deferred, InFailed, s.requests[i])
               == s.stage.failed + HeldBad(s) + In(s.deferred, InFailed, t.requests[i])
  {
    hide AnyInterrupted;
    assert Placed(s, Touched(s, a));
  }

  lemma {:induction false} CancellationsMove(s: State, a: Action)
    requires WellPlaced(s) && Enabled(s, a) && |s.requests| > 0
    ensures var i, t := Touched(s, a), Step(s, a);
            && i < |t.requests|
            && t.stage.cancelled + HeldCancelled(t) + In(s.deferred, InCancelled, s.requests[i])
               == s.stage.cancelled + HeldCancelled(s) + In(s.deferred, InCancelled, t.requests[i])
  {
    hide AnyInterrupted;
    assert Placed(s, Touched(s, a));
  }

  lemma {:induction false} AttemptsBalance(s: State, a: Action)
    requires Invariant(s) && Enabled(s, a) && |s.requests| > 0
    ensures var t := Step(s, a); t.stage.attempted == t.stage.started == Count(t.deferred, InAttempted, t.requests)
  {
    hide Step, Enabled, Placed, CountedIn, HeldGood, HeldBad, HeldCancelled;
    var i, t := Touched(s, a), Step(s, a);
    StepTouchesOne(s, a);
    AttemptsMove(s, a);
    CountUpdate(s.deferred, InAttempted, s.requests, i, t.requests[i]);
  }

  lemma {:induction false} CompletionsBalance(s: State, a: Action)
    requires Invariant(s) && Enabled(s, a) && |s.requests| > 0
    ensures var t := Step(s, a); t.stage.completed + HeldGood(t) == Count(t.deferred, InCompleted, t.requests)
  {
    hide Step, Enabled, Placed, CountedIn, HeldGood, HeldBad, HeldCancelled;
    var i, t := Touched(s, a), Step(s, a);
    StepTouchesOne(s, a);
    CompletionsMove(s, a);
    CountUpdate(s.deferred, InCompleted, s.requests, i, t.requests[i]);
  }

  lemma {:induction false} FailuresBalance(s: State, a: Action)
    requires Invariant(s) && Enabled(s, a) && |s.requests| > 0
    ensures var t := Step(s, a); t.stage.failed + HeldBad(t) == Count(t.deferred, InFailed, t.requests)
  {
    hide Step, Enabled, Placed, CountedIn, HeldGood, HeldBad, HeldCancelled;
    var i, t := Touched(s, a), Step(s, a);
    StepTouchesOne(s, a);
    FailuresMove(s, a);
    CountUpdate(s.deferred, InFailed, s.requests, i, t.requests[i]);
  }

  lemma {:induction false} CancellationsBalance(s: State, a: Action)
    requires Invariant(s) && Enabled(s, a) && |s.requests| > 0
    ensures var t := Step(s, a); t.stage.cancelled + HeldCancelled(t) == Count(t.deferred, InCancelled, t.requests)
  {
    hide Step, Enabled, Placed, CountedIn, HeldGood, HeldBad, HeldCancelled;
    var i, t := Touched(s, a), Step(s, a);
    StepTouchesOne(s, a);
    CancellationsMove(s, a);
    CountUpdate(s.deferred, InCancelled, s.requests, i, t.requests[i]);
  }

  lemma {:induction false} SubmissionsBalance(s: State, a: Action)
    requires Balanced(s) && Enabled(s, a)
    ensures var t := Step(s, a);
            t.stage.submitted == (if t.caller.Submitting? then 0 else |t.requests|)
              && t.stage.planned == Some(|t.requests|)
  {
  }

  /** A wave without requests has nothing to count. */
  lemma {:induction false} EmptyWaveBalance(s: State, a: Action)
    requires Invariant(s) && Enabled(s, a) && s.requests == []
    ensures Balanced(Step(s, a))
  {
    SubmissionsBalance(s, a);
  }

  lemma {:induction false} BalancedIs(t: State)
    requires t.stage.attempted == t.stage.started == Count(t.deferred, InAttempted, t.requests)
    requires t.stage.completed + HeldGood(t) == Count(t.deferred, InCompleted, t.requests)
    requires t.stage.failed + HeldBad(t) == Count(t.deferred, InFailed, t.requests)
    requires t.stage.cancelled + HeldCancelled(t) == Count(t.deferred, InCancelled, t.requests)
    requires t.stage.submitted == (if t.caller.Submitting? then 0 else |t.requests|)
             && t.stage.planned == Some(|t.requests|)
    ensures Balanced(t)
  {
  }

  lemma {:induction false} StepKeepsBalance(s: State, a: Action)
    requires Invariant(s) && Enabled(s, a)
    ensures Balanced(Step(s, a))
  {
    if s.requests == [] {
      EmptyWaveBalance(s, a);
    } else {
      AttemptsBalance(s, a);
      CompletionsBalance(s, a);
      FailuresBalance(s, a);
      CancellationsBalance(s, a);
      SubmissionsBalance(s, a);
      BalancedIs(Step(s, a));
    }
  }

  lemma {:induction false} StepKeepsSize(s: State, a: Action)
    requires Enabled(s, a)
    ensures |Step(s, a).requests| == |s.requests| && Step(s, a).deferred == s.deferred
  {
  }

  lemma {:induction false} InvariantHolds(s: State, run: seq<Action>)
    requires Invariant(s) && Schedule(s, run)
    ensures Invariant(After(s, run))
    ensures |After(s, run).requests| == |s.requests| && After(s, run).deferred == s.deferred
    decreases |run|
  {
    hide Step, WellPlaced, Balanced;
    if run != [] {
      StepKeepsPlaces(s, run[0]);
      StepKeepsBalance(s, run[0]);
      StepKeepsSize(s, run[0]);
      InvariantHolds(Step(s, run[0]), run[1..]);
    }
  }

  // ---- Exactly-once accounting ---------------------------------------------------------------

  predicate Ended(q: Request) {
    (q.future.Done? || q.future.Cancelled?) && !q.callback
  }

  /** The caller is back and every submitted request has ended, callbacks included. */
  ghost predicate Quiet(s: State) {
    && (s.caller.Returned? || s.caller.TimedOut? || s.caller.Aborted?)
    && forall i :: 0 <= i < |s.requests| ==> Ended(s.requests[i])
  }

  /** Where the outcome of a request has to end up; an interrupted one has no place. */
  function Destination(deferred: bool, f: Future): Option<Bucket> {
    match f
    case Cancelled => Some(InCancelled)
    case Done(Raised) => Some(InFailed)
    case Done(Good) => Some(InCompleted)
    case Done(Bad) => Some(if deferred then InFailed else InCompleted)
    case _ => None
  }

  predicate Resolved(deferred: bool, q: Request) {
    CountedIn(deferred, InCompleted, q) || CountedIn(deferred, InFailed, q) || CountedIn(deferred, InCancelled, q)
  }

  ghost predicate AllResolved(deferred: bool, qs: seq<Request>) {
    forall i :: 0 <= i < |qs| ==> Resolved(deferred, qs[i])
  }

  /** No request is in two buckets. */
  lemma {:induction false} BucketsAreDisjoint(deferred: bool, q: Request)
    ensures In(deferred, InCompleted, q) + In(deferred, InFailed, q) + In(deferred, InCancelled, q)
            == if Resolved(deferred, q) then 1 else 0
    ensures !(CountedIn(deferred, InAttempted, q) && CountedIn(deferred, InCancelled, q))
  {
  }

  lemma {:induction false} ResolvedOnce(deferred: bool, qs: seq<Request>)
    ensures Count(deferred, InCompleted, qs) + Count(deferred, InFailed, qs) + Count(deferred, InCancelled, qs) <= |qs|
    ensures Count(deferred, InCompleted, qs) + Count(deferred, InFailed, qs) + Count(deferred, InCancelled, qs) == |qs|
            <==> AllResolved(deferred, qs)
  {
    hide CountedIn, Resolved;
    if qs != [] {
      var front, q := qs[..|qs| - 1], qs[|qs| - 1];
      ResolvedOnce(deferred, front);
      BucketsAreDisjoint(deferred, q);
      AllButLast(deferred, qs);
    }
  }

  lemma {:induction false} AllButLast(deferred: bool, qs: seq<Request>)
    requires qs != []
    ensures AllResolved(deferred, qs) <==> AllResolved(deferred, qs[..|qs| - 1]) && Resolved(deferred, qs[|qs| - 1])
  {
    hide Resolved;
    var front := qs[..|qs| - 1];
    if AllResolved(deferred, front) && Resolved(deferred, qs[|qs| - 1]) {
      forall i | 0 <= i < |qs| ensures Resolved(deferred, qs[i]) {
        assert i < |front| ==> front[i] == qs[i];
      }
    }
  }

  lemma {:induction false} AttemptedOrCancelled(deferred: bool, qs: seq<Request>)
    ensures Count(deferred, InAttempted, qs) + Count(deferred, InCancelled, qs) <= |qs|
    ensures (forall i :: 0 <= i < |qs| ==> Ended(qs[i])) ==>
              Count(deferred, InAttempted, qs) + Count(deferred, InCancelled, qs) == |qs|
  {
    if qs != [] {
      AttemptedOrCancelled(deferred, qs[..|qs| - 1]);
    }
  }

  /** A request of a quiet wave is counted exactly where its outcome belongs, if the caller came back. */
  lemma {:induction false} EndsInPlace(s: State, i: nat)
    requires WellPlaced(s) && Quiet(s) && i < |s.requests| && !s.caller.Aborted?
    ensures forall b :: b != InAttempted ==>
              (CountedIn(s.deferred, b, s.requests[i]) <==> Destination(s.deferred, s.requests[i].future) == Some(b))
  {
    assert Placed(s, i);
  }

  lemma {:induction false} InterruptedIsNotResolved(deferred: bool, q: Request)
    ensures q.future == Done(Interrupted) ==> !Resolved(deferred, q)
    ensures forall b :: b != InAttempted && CountedIn(deferred, b, q) ==> Resolved(deferred, q)
  {
  }

  lemma {:induction false} QuietIsResolved(s: State)
    requires WellPlaced(s) && Quiet(s)
    ensures AllResolved(s.deferred, s.requests) <==> !AnyInterrupted(s)
  {
    hide Placed, CountedIn, Resolved;
    forall i | 0 <= i < |s.requests|
      ensures s.requests[i].future == Done(Interrupted) ==> !Resolved(s.deferred, s.requests[i])
      ensures !AnyInterrupted(s) ==> Resolved(s.deferred, s.requests[i])
    {
      InterruptedIsNotResolved(s.deferred, s.requests[i]);
      if !AnyInterrupted(s) {
        assert s.requests[i].future != Done(Interrupted);
        EndsInPlace(s, i);
        var place := Destination(s.deferred, s.requests[i].future).value;
        assert CountedIn(s.deferred, place, s.requests[i]);
      }
    }
  }

  /** How many requests of a quiet wave had an outcome that belongs in `b`. */
  function Outcomes(deferred: bool, b: Bucket, qs: seq<Request>): nat {
    if qs == [] then 0
    else
      Outcomes(deferred, b, qs[..|qs| - 1])
      + (if Destination(deferred, qs[|qs| - 1].future) == Some(b) then 1 else 0)
  }

  lemma {:induction false} OutcomesAreCounted(deferred: bool, b: Bucket, qs: seq<Request>)
    requires forall i :: 0 <= i < |qs| ==>
             (CountedIn(deferred, b, qs[i]) <==> Destination(deferred, qs[i].future) == Some(b))
    ensures Outcomes(deferred, b, qs) == Count(deferred, b, qs)
  {
    hide CountedIn;
    if qs != [] {
      OutcomesAreCounted(deferred, b, qs[..|qs| - 1]);
    }
  }

  lemma {:induction false} OutcomesOf(s: State, b: Bucket)
    requires WellPlaced(s) && Quiet(s) && !s.caller.Aborted? && b != InAttempted
    ensures Outcomes(s.deferred, b, s.requests) == Count(s.deferred, b, s.requests)
  {
    hide CountedIn, Placed;
    forall i | 0 <= i < |s.requests|
      ensures CountedIn(s.deferred, b, s.requests[i]) <==> Destination(s.deferred, s.requests[i].future) == Some(b)
    {
      EndsInPlace(s, i);
    }
    OutcomesAreCounted(s.deferred, b, s.requests);
  }

  /** A request that ended and is in none of the three counts: interrupted, or with an answer that was to be
      counted later and that nobody took over. */
  predicate Lost(deferred: bool, q: Request) {
    q.future == Done(Interrupted) || (deferred && q.future.Done? && Answered(q.future.r) && !q.credited)
  }

  function CountLost(deferred: bool, qs: seq<Request>): nat {
    if qs == [] then 0 else CountLost(deferred, qs[..|qs| - 1]) + if Lost(deferred, qs[|qs| - 1]) then 1 else 0
  }

  function CountInterrupted(qs: seq<Request>): nat {
    if qs == [] then 0
    else CountInterrupted(qs[..|qs| - 1]) + if qs[|qs| - 1].future == Done(Interrupted) then 1 else 0
  }

  lemma {:induction false} LostIsUnresolved(deferred: bool, q: Request)
    requires Ended(q)
    ensures In(deferred, InCompleted, q) + In(deferred, InFailed, q) + In(deferred, InCancelled, q)
            == if Lost(deferred, q) then 0 else 1
  {
  }

  lemma {:induction false} LostAreMissing(deferred: bool, qs: seq<Request>)
    requires forall i :: 0 <= i < |qs| ==> Ended(qs[i])
    ensures Count(deferred, InCompleted, qs) + Count(deferred, InFailed, qs) + Count(deferred, InCancelled, qs)
            + CountLost(deferred, qs) == |qs|
  {
    hide CountedIn, Lost;
    if qs != [] {
      LostAreMissing(deferred, qs[..|qs| - 1]);
      LostIsUnresolved(deferred, qs[|qs| - 1]);
    }
  }

  lemma {:induction false} OnlyInterruptedAreLost(deferred: bool, qs: seq<Request>)
    requires forall i :: 0 <= i < |qs| ==> (Lost(deferred, qs[i]) <==> qs[i].future == Done(Interrupted))
    ensures CountLost(deferred, qs) == CountInterrupted(qs)
  {
    hide Lost;
    if qs != [] {
      OnlyInterruptedAreLost(deferred, qs[..|qs| - 1]);
    }
  }

  /** Unless an abort lost answers that were to be counted later, exactly the interrupted requests are. */
  lemma {:induction false} LostAreInterrupted(s: State)
    requires WellPlaced(s) && Quiet(s) && (!s.caller.Aborted? || !s.deferred)
    ensures CountLost(s.deferred, s.requests) == CountInterrupted(s.requests) && HeldGood(s) == HeldBad(s) == 0
  {
    forall i | 0 <= i < |s.requests|
      ensures Lost(s.deferred, s.requests[i]) <==> s.requests[i].future == Done(Interrupted)
    {
      assert Placed(s, i);
    }
    OnlyInterruptedAreLost(s.deferred, s.requests);
  }

  /** Exactly what is missing at the end: lost requests, and answers that an aborted caller still held. */
  lemma {:induction false} MissingOf(s: State)
    requires Invariant(s) && Quiet(s)
    ensures Missing(s.stage) == Some(CountLost(s.deferred, s.requests) + HeldGood(s) + HeldBad(s))
    ensures !s.caller.Aborted? || !s.deferred ==> Missing(s.stage) == Some(CountInterrupted(s.requests))
  {
    hide CountedIn, Placed, Lost, Count;
    LostAreMissing(s.deferred, s.requests);
    if !s.caller.Aborted? || !s.deferred {
      LostAreInterrupted(s);
    }
  }

  /** What holds of a state that a wave can reach. */
  lemma {:induction false} AccountingOf(s: State)
    requires Invariant(s)
    ensures s.stage.completed + s.stage.failed + s.stage.cancelled <= |s.requests|
    ensures s.stage.attempted + s.stage.cancelled <= |s.requests|
    ensures Quiet(s) ==> s.stage.attempted + s.stage.cancelled == |s.requests| == s.stage.submitted
    ensures Quiet(s) ==>
            (s.stage.completed + s.stage.failed + s.stage.cancelled == |s.requests| <==> !AnyInterrupted(s))
    ensures Quiet(s) && !s.caller.Aborted? ==>
              && s.stage.completed == Outcomes(s.deferred, InCompleted, s.requests)
              && s.stage.failed == Outcomes(s.deferred, InFailed, s.requests)
              && s.stage.cancelled == Outcomes(s.deferred, InCancelled, s.requests)
  {
    hide CountedIn, Placed, Resolved;
    ResolvedOnce(s.deferred, s.requests);
    AttemptedOrCancelled(s.deferred, s.requests);
    if Quiet(s) {
      QuietIsResolved(s);
      if !s.caller.Aborted? {
        OutcomesOf(s, InCompleted);
        OutcomesOf(s, InFailed);
        OutcomesOf(s, InCancelled);
      }
    }
  }

  /** In every schedule of every wave, at every moment, no request has been counted twice. Once all have
      ended, each was attempted or cancelled, and nothing is missing exactly when no request was ended by an
      exception that the handlers do not catch: then each is counted in the bucket its outcome calls for. What
      is missing is exactly the lost requests, which are the interrupted ones unless an abort lost answers that
      were to be counted later. */
  lemma {:induction false} ExactlyOnceAccounting(n: nat, deferred: bool, run: seq<Action>)
    requires Schedule(Initial(n, deferred), run)
    ensures var s := After(Initial(n, deferred), run);
            && s.stage.completed + s.stage.failed + s.stage.cancelled <= n
            && s.stage.attempted + s.stage.cancelled <= n
    ensures var s := After(Initial(n, deferred), run);
            Quiet(s) ==>
              && s.stage.attempted + s.stage.cancelled == n == s.stage.submitted
              && (s.stage.completed + s.stage.failed + s.stage.cancelled == n <==> !AnyInterrupted(s))
              && (Missing(s.stage) == Some(0) <==> !AnyInterrupted(s))
              && (!AnyInterrupted(s) ==>
                    && s.stage.completed == Outcomes(deferred, InCompleted, s.requests)
                    && s.stage.failed == Outcomes(deferred, InFailed, s.requests)
                    && s.stage.cancelled == Outcomes(deferred, InCancelled, s.requests))
              && Missing(s.stage) == Some(CountLost(deferred, s.requests) + HeldGood(s) + HeldBad(s))
              && (!s.caller.Aborted? || !deferred ==> Missing(s.stage) == Some(CountInterrupted(s.requests)))
  {
    hide Step, Enabled, Placed, Count, Schedule, After;
    InitialHolds(n, deferred);
    InvariantHolds(Initial(n, deferred), run);
    var s := After(Initial(n, deferred), run);
    AccountingOf(s);
    if Quiet(s) {
      MissingOf(s);
    }
  }

  /** `run` is a schedule from `s` that ends in `t`. */
  ghost predicate Leads(s: State, run: seq<Action>, t: State) {
    Schedule(s, run) && After(s, run) == t
  }

  lemma {:induction false} Prepend(s: State, a: Action, rest: seq<Action>, t: State)
    requires Enabled(s, a) && Leads(Step(s, a), rest, t)
    ensures Leads(s, [a] + rest, t)
  {
    assert ([a] + rest)[1..] == rest;
  }

  /** A wave of one request and its counters, in a given position. */
  function One(f: Future, caller: Caller, submitted: nat, attempted: nat): State {
    State(false, [Request(f, false, false)], caller, Stage(Some(1), submitted, attempted, attempted, 0, 0, 0, false))
  }

  lemma {:induction false} CallerFindsInterrupt()
    ensures Leads(One(Done(Interrupted), Waiting, 1, 1), [AllDone] + ([Collect] + []),
            One(Done(Interrupted), Aborted(0, 0), 1, 1))
  {
    var s, t := One(Done(Interrupted), Waiting, 1, 1), One(Done(Interrupted), Aborted(0, 0), 1, 1);
    var collecting := One(Done(Interrupted), Collecting(0, 0, 0, 0), 1, 1);
    assert Step(collecting, Collect) == t && Leads(t, [], t);
    hide Schedule, After;
    Prepend(collecting, Collect, [], t);
    assert Step(s, AllDone) == collecting;
    Prepend(s, AllDone, [Collect] + [], t);
  }

  lemma {:induction false} WorkerIsInterrupted(rest: seq<Action>, t: State)
    requires Leads(One(Done(Interrupted), Waiting, 1, 1), rest, t)
    ensures Leads(One(Attempted, Waiting, 1, 1), [Observe(0, Interrupted)] + ([Tally(0)] + ([Resolve(0)] + rest)), t)
  {
    hide Schedule, After;
    var tallied, observed := One(Tallied(Interrupted), Waiting, 1, 1), One(Observed(Interrupted), Waiting, 1, 1);
    assert Step(tallied, Resolve(0)) == One(Done(Interrupted), Waiting, 1, 1);
    Prepend(tallied, Resolve(0), rest, t);
    assert Step(observed, Tally(0)) == tallied;
    Prepend(observed, Tally(0), [Resolve(0)] + rest, t);
    assert Step(One(Attempted, Waiting, 1, 1), Observe(0, Interrupted)) == observed;
    Prepend(One(Attempted, Waiting, 1, 1), Observe(0, Interrupted), [Tally(0)] + ([Resolve(0)] + rest), t);
  }

  lemma {:induction false} RequestIsAttempted(rest: seq<Action>, t: State)
    requires Leads(One(Attempted, Waiting, 1, 1), rest, t)
    ensures Leads(Initial(1, false), [Submit] + ([AnnounceSubmitted] + ([Start(0)] + ([Attempt(0)] + rest))), t)
  {
    hide Schedule, After;
    var started, queued := One(Started, Waiting, 1, 0), One(Queued, Waiting, 1, 0);
    assert Step(started, Attempt(0)) == One(Attempted, Waiting, 1, 1);
    Prepend(started, Attempt(0), rest, t);
    assert Step(queued, Start(0)) == started;
    Prepend(queued, Start(0), [Attempt(0)] + rest, t);
    assert Step(One(Queued, Submitting(1), 0, 0), AnnounceSubmitted) == queued;
    Prepend(One(Queued, Submitting(1), 0, 0), AnnounceSubmitted, [Start(0)] + ([Attempt(0)] + rest), t);
    assert Initial(1, false) == One(Unsubmitted, Submitting(0), 0, 0);
    assert Step(Initial(1, false), Submit) == One(Queued, Submitting(1), 0, 0);
    Prepend(Initial(1, false), Submit, [AnnounceSubmitted] + ([Start(0)] + ([Attempt(0)] + rest)), t);
  }

  /** The smallest wave that loses a request: it is attempted, and in no other counter. */
  lemma {:induction false} InterruptedRequestIsLost() returns (run: seq<Action>, s: State)
    ensures Leads(Initial(1, false), run, s) && Quiet(s) && s.stage.attempted == 1 && Missing(s.stage) == Some(1)
  {
    s := One(Done(Interrupted), Aborted(0, 0), 1, 1);
    CallerFindsInterrupt();
    WorkerIsInterrupted([AllDone] + ([Collect] + []), s);
    var observed := [Observe(0, Interrupted)] + ([Tally(0)] + ([Resolve(0)] + ([AllDone] + ([Collect] + []))));
    RequestIsAttempted(observed, s);
    run := [Submit] + ([AnnounceSubmitted] + ([Start(0)] + ([Attempt(0)] + observed)));
    hide Schedule, After;
  }

  // ---- Every schedule ends -------------------------------------------------------------------

  /** No wave gets stuck: short of the quiet end some step is always possible. */
  lemma {:induction false} AlwaysAStep(s: State) returns (a: Action)
    requires WellPlaced(s) && !Quiet(s)
    ensures Enabled(s, a)
  {
    var n := |s.requests|;
    match s.caller
    case Submitting(next) => a := if next < n then Submit else AnnounceSubmitted;
    case Waiting => a := WaitStep(s);
    case Collecting(next, _, _, _) =>
      if next < n {
        assert Placed(s, next);
      }
      a := if next < n then Collect else Settle;
    case Cancelling(_, todo, _) =>
      if todo == {} { a := AnnounceCancelled; } else { var i :| i in todo; a := Cancel(i); }
    case Registering(_, todo) =>
      if todo == {} { a := Registered; } else { var i :| i in todo; a := Register(i); }
    case Gathering(late, todo, _, _) =>
      if todo == {} { a := Flush; } else { var i :| i in todo; assert Placed(s, i); a := Gather(i); }
    case _ =>
      var i: nat :| i < n && !Ended(s.requests[i]);
      a := WorkerStep(s, i);
  }

  lemma {:induction false} WaitStep(s: State) returns (a: Action)
    requires s.caller.Waiting?
    ensures Enabled(s, a)
  {
    if AllAreDone(s) {
      a := AllDone;
    } else {
      var i: nat :| i < |s.requests| && !IsDone(s.requests[i]);
      assert i in Unfinished(s);
      a := Timeout(Unfinished(s));
    }
  }

  lemma {:induction false} WorkerStep(s: State, i: nat) returns (a: Action)
    requires WellPlaced(s) && (s.caller.Returned? || s.caller.TimedOut? || s.caller.Aborted?)
    requires i < |s.requests| && !Ended(s.requests[i])
    ensures Enabled(s, a)
  {
    assert Placed(s, i);
    a := match s.requests[i].future
      case Started => Attempt(i)
      case Attempted => Observe(i, Good)
      case Observed(_) => Tally(i)
      case Tallied(_) => Resolve(i)
      case _ => LateCallback(i);
  }

  /** How many steps a request can still take part in. */
  function Ahead(q: Request): nat {
    (match q.future
     case Unsubmitted => 6
     case Queued => 5
     case Started => 4
     case Attempted => 3
     case Observed(_) => 2
     case Tallied(_) => 1
     case Done(_) => 0
     case Cancelled => 0)
    + if q.callback then 1 else 0
  }

  function AllAhead(qs: seq<Request>): nat {
    if qs == [] then 0 else AllAhead(qs[..|qs| - 1]) + Ahead(qs[|qs| - 1])
  }

  lemma {:induction false} AheadUpdate(qs: seq<Request>, i: nat, q: Request)
    requires i < |qs|
    ensures AllAhead(qs[i := q]) + Ahead(qs[i]) == AllAhead(qs) + Ahead(q)
  {
    var last := |qs| - 1;
    if i == last {
      assert qs[i := q][..last] == qs[..last];
    } else {
      AheadUpdate(qs[..last], i, q);
      assert qs[i := q][..last] == qs[..last][i := q];
    }
  }

  /** How far the caller is from coming back. */
  function CallerAhead(c: Caller, n: nat): nat {
    match c
    case Submitting(next) => 4 * n + 7 + if next <= n then n - next else 0
    case Waiting => 4 * n + 6
    case Collecting(next, _, _, _) => 1 + if next <= n then n - next else 0
    case Cancelling(_, todo, _) => 2 * n + 3 + |todo|
    case Registering(_, todo) => n + 2 + |todo|
    case Gathering(_, todo, _, _) => 1 + |todo|
    case Returned => 0
    case TimedOut => 0
    case Aborted(_, _) => 0
  }

  /** Registering a callback adds one step for the worker, so the caller's steps weigh two. */
  function Remaining(s: State): nat {
    AllAhead(s.requests) + 2 * CallerAhead(s.caller, |s.requests|)
  }

  lemma {:induction false} IndicesCount(n: nat)
    ensures |UpTo(n)| == n
  {
    if n > 0 {
      IndicesCount(n - 1);
      assert n - 1 !in UpTo(n - 1);
    }
  }

  lemma {:induction false} SubsetsAreSmaller(a: set<nat>, b: set<nat>)
    requires a <= b
    ensures |a| <= |b|
  {
    if a != {} {
      var x :| x in a;
      SubsetsAreSmaller(a - {x}, b - {x});
    }
  }

  lemma {:induction false} AtMostAll(s: State, a: set<nat>)
    requires a <= Indices(s)
    ensures |a| <= |s.requests|
  {
    IndicesCount(|s.requests|);
    SubsetsAreSmaller(a, Indices(s));
  }

  lemma {:induction false} OneLess(todo: set<nat>, i: nat)
    requires i in todo
    ensures |todo - {i}| == |todo| - 1
  {
  }

  predicate ByWorker(a: Action) {
    a.Start? || a.Attempt? || a.Observe? || a.Tally? || a.Resolve? || a.LateCallback?
  }

  lemma {:induction false} WorkersLeaveTheCaller(s: State, a: Action)
    requires Enabled(s, a) && ByWorker(a)
    ensures Step(s, a).caller == s.caller && |s.requests| > 0
  {
  }

  /** The caller takes one index off its list. */
  lemma {:induction false} CallerTakesOne(s: State, a: Action)
    requires Enabled(s, a) && (a.Cancel? || a.Register? || a.Gather?)
    ensures CallerAhead(Step(s, a).caller, |s.requests|) < CallerAhead(s.caller, |s.requests|)
  {
    OneLess(s.caller.todo, a.i);
  }

  lemma {:induction false} CallerTurns(s: State, a: Action)
    requires WellPlaced(s) && Enabled(s, a) && (a.Timeout? || a.AnnounceCancelled? || a.Registered?)
    ensures CallerAhead(Step(s, a).caller, |s.requests|) < CallerAhead(s.caller, |s.requests|)
  {
    hide Placed, AnyInterrupted, UpTo, Unfinished, AllAreDone;
    if a.Timeout? {
      AtMostAll(s, a.late);
    } else {
      AtMostAll(s, s.caller.late);
      AtMostAll(s, Indices(s) - s.caller.late);
    }
  }

  lemma {:induction false} CallerGoesOn(s: State, a: Action)
    requires Enabled(s, a) && (a.Submit? || a.AnnounceSubmitted? || a.AllDone? || a.Collect? || a.Settle? || a.Flush?)
    ensures CallerAhead(Step(s, a).caller, |s.requests|) < CallerAhead(s.caller, |s.requests|)
  {
  }

  /** The request gets nearer its end, except where a callback is registered for it. */
  lemma {:induction false} RequestMoves(s: State, a: Action)
    requires WellPlaced(s) && Enabled(s, a) && |s.requests| > 0
    ensures var i, t := Touched(s, a), Step(s, a);
            && i < |t.requests|
            && if ByWorker(a) then Ahead(t.requests[i]) < Ahead(s.requests[i])
               else Ahead(t.requests[i]) <= Ahead(s.requests[i]) + 1
  {
    hide AnyInterrupted;
    assert Placed(s, Touched(s, a));
  }

  /** Every step lowers what remains. */
  lemma {:induction false} StepsRunOut(s: State, a: Action)
    requires WellPlaced(s) && Enabled(s, a)
    ensures Remaining(Step(s, a)) < Remaining(s)
  {
    hide Step, Enabled, Placed, WellPlaced, Ahead, CallerAhead;
    StepKeepsSize(s, a);
    if ByWorker(a) {
      WorkersLeaveTheCaller(s, a);
    } else if a.Cancel? || a.Register? || a.Gather? {
      CallerTakesOne(s, a);
    } else if a.Timeout? || a.AnnounceCancelled? || a.Registered? {
      CallerTurns(s, a);
    } else {
      CallerGoesOn(s, a);
    }
    if |s.requests| > 0 {
      var i, t := Touched(s, a), Step(s, a);
      StepTouchesOne(s, a);
      RequestMoves(s, a);
      AheadUpdate(s.requests, i, t.requests[i]);
    } else {
      assert Step(s, a).requests == s.requests;
    }
  }

  /** No schedule is longer than what remained when it began. */
  lemma {:induction false} SchedulesAreShort(s: State, run: seq<Action>)
    requires WellPlaced(s) && Schedule(s, run)
    ensures |run| + Remaining(After(s, run)) <= Remaining(s) && WellPlaced(After(s, run))
    decreases |run|
  {
    hide Step, Enabled, WellPlaced, Remaining;
    if run != [] {
      StepKeepsPlaces(s, run[0]);
      StepsRunOut(s, run[0]);
      SchedulesAreShort(Step(s, run[0]), run[1..]);
    }
  }

  lemma {:induction false} AheadOfUnsubmitted(qs: seq<Request>)
    requires forall i :: 0 <= i < |qs| ==> qs[i] == Request(Unsubmitted, false, false)
    ensures AllAhead(qs) == 6 * |qs|
  {
    if qs != [] {
      AheadOfUnsubmitted(qs[..|qs| - 1]);
    }
  }

  /** Every wave of `n` requests is over after at most `16 n + 14` steps, whatever the schedule; and where no
      step is left, the wave is quiet. */
  lemma {:induction false} EveryWaveEnds(n: nat, deferred: bool, run: seq<Action>)
    requires Schedule(Initial(n, deferred), run)
    ensures |run| <= 16 * n + 14
    ensures (forall a :: !Enabled(After(Initial(n, deferred), run), a)) ==> Quiet(After(Initial(n, deferred), run))
  {
    hide Step, Enabled, Schedule, After;
    InitialHolds(n, deferred);
    SchedulesAreShort(Initial(n, deferred), run);
    AheadOfUnsubmitted(Initial(n, deferred).requests);
    var s := After(Initial(n, deferred), run);
    if !Quiet(s) {
      var a := AlwaysAStep(s);
      assert Enabled(s, a);
    }
  }
}
