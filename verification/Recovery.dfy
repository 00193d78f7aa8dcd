/** The recovery loop: each sample is a resident observation, a contained stop and a recovered
    observation, with exception paths that must neither lose nor double an entry. The handlers catch
    ordinary errors only; an interrupt passes them by and leaves its stage open. */
module Recovery {
  import opened Options
  import opened Progress

  /** How a call into outside code ended, apart from its value. */
  datatype Exit = Normally | Raising(category: string) | Interrupting

  /** A call; an observation is `good` when it was allowed on the native route, a stop when it was
      contained. */
  datatype Call = Raises(category: string) | Interrupts | Returns(good: bool)

  /** Everything the outside world decides during one iteration; `report` is how writing the sample to
      the diagnostic stream ended. */
  datatype Sample = Sample(warm: Call, stop: Call, recovered: Call, report: Exit)

  function ExitOf(call: Call): Exit {
    match call
    case Raises(category) => Raising(category)
    case Interrupts => Interrupting
    case Returns(_) => Normally
  }

  // ---- What a run means, from the samples alone ---------------------------------------------

  /** Where a sample stopped, and whether an interrupt stopped it. */
  datatype Stop = Stop(stage: StageName, interrupted: bool)

  /** How the recovered observation and its report end: the report is written before the observation is
      looked at. */
  function ReportExit(w: Sample): Exit {
    if !w.recovered.Returns? then ExitOf(w.recovered) else w.report
  }

  function SampleStop(w: Sample): Option<Stop> {
    if w.warm != Returns(true) then Some(Stop(RecoveryPrecondition, w.warm.Interrupts?))
    else if w.stop != Returns(true) then Some(Stop(RecoveryStop, w.stop.Interrupts?))
    else if w.recovered != Returns(true) || !w.report.Normally? then Some(Stop(Recovery, ReportExit(w).Interrupting?))
    else None
  }

  /** The first sample that stops the run, and where. */
  function FirstStop(world: seq<Sample>): (r: Option<(nat, Stop)>)
    ensures r.Some? ==> r.value.0 < |world| && SampleStop(world[r.value.0]) == Some(r.value.1)
    ensures forall i :: 0 <= i < (if r.Some? then r.value.0 else |world|) ==> SampleStop(world[i]) == None
  {
    if world == [] then None
    else
      var last := |world| - 1;
      var before := FirstStop(world[..last]);
      if before.Some? then before
      else match SampleStop(world[last])
        case None => None
        case Some(stop) => Some((last, stop))
  }

  /** The order in which one sample enters the stages. */
  function Rank(c: StageName): nat {
    match c case RecoveryPrecondition => 0 case RecoveryStop => 1 case Recovery => 2 case Labelled(_) => 3
  }

  /** How an entry of a stage was left. */
  datatype Mark = Resolved | Failed | Open

  function Times(n: nat): (r: seq<Mark>)
    ensures |r| == n && forall i :: 0 <= i < n ==> r[i] == Resolved
  {
    seq(n, _ => Resolved)
  }

  /** The entries of stage `c` in `n` samples of which the first to stop is `first`: one in every sample
      that reached the stage, resolved but for the one that stopped there. */
  function MarksOf(n: nat, first: Option<(nat, Stop)>, c: StageName): seq<Mark> {
    if c.Labelled? then []
    else match first
      case None => Times(n)
      case Some((k, stop)) => Times(k) + LastMark(stop, c)
  }

  function LastMark(stop: Stop, c: StageName): seq<Mark> {
    if Rank(c) < Rank(stop.stage) then [Resolved]
    else if c == stop.stage then [if stop.interrupted then Open else Failed]
    else []
  }

  /** What one entry makes of a stage that may not exist yet. */
  type Entering = (Option<Stage>, StageName, Mark) -> Stage

  /** The stage after these entries. */
  function After(enter: Entering, before: Option<Stage>, marks: seq<Mark>, c: StageName): Option<Stage> {
    if marks == [] then before
    else Some(enter(After(enter, before, marks[..|marks| - 1], c), c, marks[|marks| - 1]))
  }

  /** Each recovery stage gained its entries and no other stage moved. */
  ghost predicate AccountedStages(enter: Entering, before: Stages, after: Stages, n: nat, first: Option<(nat, Stop)>) {
    forall c :: At(after, c) == After(enter, At(before, c), MarksOf(n, first, c), c)
  }

  // ---- The code --------------------------------------------------------------------------------

  /** The stage counters after `_observe_with_progress`. */
  function ObservedStage(before: Stage, exit: Exit, recordSubmission: bool, complete: bool): Stage {
    var attempted := AddAttempted(if recordSubmission then AddSubmitted(before, 1) else before, 1);
    match exit
    case Raising(_) => AddFailed(attempted, 1)
    case Interrupting => attempted
    case Normally => if complete then AddCompleted(attempted, 1) else attempted
  }

  /** `_observe_with_progress`; the exit of the observation is also its own. */
  method ObserveWithProgress(progress: SloProgress, stage: StageName, call: Call,
                             fatal: bool := true, recordSubmission: bool := true, complete: bool := true)
    returns (exit: Exit)
    modifies progress
    ensures exit == ExitOf(call)
    ensures Only(old(progress.stages), progress.stages, stage)
    ensures At(progress.stages, stage)
            == Some(ObservedStage(Counter(old(progress.stages), stage), exit, recordSubmission, complete))
    ensures progress.failure ==
            if call.Raises? && fatal && old(progress.failure).None? then Some(Failure(stage, call.category))
              else old(progress.failure)
  {
    progress.Activate(stage);
    if recordSubmission {
      progress.Submit(stage);
    }
    progress.Attempt(stage);
    match call {
      case Raises(category) =>
        progress.FailRequest(stage);
        if fatal {
          progress.RecordFailure(category, stage);
        }
      case Interrupts =>
      case Returns(_) =>
        if complete {
          progress.Complete(stage);
        }
    }
    return ExitOf(call);
  }

  /** One entry of a stage: submitted and attempted once, then left with `mark`. */
  function Marked(s: Stage, mark: Mark): Stage {
    Stage(s.planned, s.submitted + 1, s.started + 1, s.attempted + 1,
          s.completed + (if mark.Resolved? then 1 else 0), s.failed + (if mark.Failed? then 1 else 0), s.cancelled,
            s.skipped)
  }

  /** The stage of `c` as a sample finds it: nobody need have planned it, and the stop plans itself. */
  function Found(before: Option<Stage>, c: StageName): Stage {
    if c.RecoveryStop? then PlannedOnce(before)
    else match before
      case None => Fresh(None)
      case Some(s) => s
  }

  function Entry(before: Option<Stage>, c: StageName, mark: Mark): Stage {
    Marked(Found(before, c), mark)
  }

  /** Stage `c`, and no other, gained one entry on top of `base` that was left with `mark`. */
  ghost predicate Gained(base: Stage, before: Stages, after: Stages, c: StageName, mark: Mark) {
    Only(before, after, c) && At(after, c) == Some(Marked(base, mark))
  }

  ghost predicate EnteredOnce(enter: Entering, before: Stages, after: Stages, c: StageName, mark: Mark) {
    Only(before, after, c) && At(after, c) == Some(enter(At(before, c), c, mark))
  }

  lemma {:induction false} Opened(s: Stage, submitted: Stage, attempted: Stage)
    requires submitted == s.(submitted := s.submitted + 1)
    requires attempted == submitted.(started := submitted.started + 1, attempted := submitted.attempted + 1)
    ensures attempted == Marked(s, Open)
  {
  }

  lemma {:induction false} Closed(s: Stage, open: Stage, closed: Stage)
    requires open == Marked(s, Open)
    ensures closed == open.(failed := open.failed + 1) ==> closed == Marked(s, Failed)
    ensures closed == open.(completed := open.completed + 1) ==> closed == Marked(s, Resolved)
  {
  }

  /** An observation that is completed later leaves its entry open, unless it raises. */
  lemma {:induction false} ObservedIsMarked(s: Stage, exit: Exit)
    ensures ObservedStage(s, exit, true, false) == Marked(s, if exit.Raising? then Failed else Open)
  {
  }

  function MarkOf(exit: Exit): Mark {
    match exit case Normally => Resolved case Raising(_) => Failed case Interrupting => Open
  }

  /** Submits and attempts one request. */
  method OpenEntry(progress: SloProgress, stage: StageName)
    modifies progress`stages
    ensures Gained(Counter(old(progress.stages), stage), old(progress.stages), progress.stages, stage, Open)
  {
    hide Marked;
    progress.Submit(stage);
    ghost var submitted := progress.stages[stage];
    progress.Attempt(stage);
    Opened(Counter(old(progress.stages), stage), submitted, progress.stages[stage]);
  }

  /** Completes or fails the request that is open. */
  method CloseEntry(progress: SloProgress, stage: StageName, ok: bool, ghost base: Stage, ghost before: Stages)
    requires Gained(base, before, progress.stages, stage, Open)
    modifies progress`stages
    ensures Gained(base, before, progress.stages, stage, if ok then Resolved else Failed)
  {
    hide Marked;
    ghost var open := progress.stages[stage];
    if ok {
      progress.Complete(stage);
    } else {
      progress.FailRequest(stage);
    }
    Closed(base, open, progress.stages[stage]);
  }

  /** `preflight_operation` around an operation that ended with `exit`. */
  method PreflightOperation(progress: SloProgress, stage: StageName, exit: Exit)
    modifies progress
    ensures Gained(PlannedOnce(At(old(progress.stages), stage)), old(progress.stages), progress.stages, stage,
            MarkOf(exit))
    ensures progress.failure ==
            if exit.Raising? && old(progress.failure).None? then Some(Failure(stage, exit.category))
              else old(progress.failure)
  {
    hide Marked;
    progress.PlanOperation(stage);
    ghost var planned := progress.stages;
    progress.Activate(stage);
    OpenEntry(progress, stage);
    match exit {
      case Raising(category) =>
        CloseEntry(progress, stage, false, planned[stage], planned);
        progress.RecordFailure(category, stage);
      case Interrupting =>
      case Normally =>
        CloseEntry(progress, stage, true, planned[stage], planned);
    }
  }

  const CONTRACT := "benchmark_contract"

  /** `_require` of a value that a call returned. */
  function Required(call: Call): Exit {
    if call == Returns(false) then Raising(CONTRACT) else ExitOf(call)
  }

  predicate StopsAt(stop: Option<Stop>, c: StageName) {
    stop.Some? && stop.value.stage == c
  }

  /** The entry of stage `c` in one sample, if the sample reached it. */
  function SampleMarks(stop: Option<Stop>, c: StageName): seq<Mark> {
    if c.Labelled? then [] else if stop.None? then [Resolved] else LastMark(stop.value, c)
  }

  /** What a sample does to one stage. */
  function SampleStage(enter: Entering, before: Option<Stage>, stop: Option<Stop>, c: StageName): Option<Stage> {
    var marks := SampleMarks(stop, c);
    if marks == [] then before else Some(enter(before, c, marks[0]))
  }

  ghost predicate Sampled(enter: Entering, before: Stages, after: Stages, stop: Option<Stop>) {
    forall c :: At(after, c) == SampleStage(enter, At(before, c), stop, c)
  }

  function MarkAt(stop: Option<Stop>, c: StageName): Mark {
    if !StopsAt(stop, c) then Resolved else if stop.value.interrupted then Open else Failed
  }

  /** The failure of an ordinary error; an interrupt records nothing. */
  ghost predicate FailureKept(before: Option<Failure>, after: Option<Failure>, stop: Option<Stop>) {
    if before.Some? || stop.None? || stop.value.interrupted then after == before
    else after.Some? && after.value.stage == stop.value.stage
  }

  /** The part of an iteration up to the recovered observation's report: an observation in `stage` that
      is completed only once it was looked at. `pending` is whether the handler has to fail it. */
  method ObserveInStage(progress: SloProgress, stage: StageName, call: Call, report: Exit)
    returns (exit: Exit, pending: bool)
    requires stage.RecoveryPrecondition? || stage.Recovery?
    modifies progress
    ensures exit == if !call.Returns? then ExitOf(call) else if !report.Normally? then report else Required(call)
    ensures EnteredOnce(Entry, old(progress.stages), progress.stages, stage,
            if pending || exit.Interrupting? then Open else MarkOf(exit))
    ensures pending ==> call.Returns? && !exit.Normally?
    ensures call.Returns? && exit.Raising? ==> pending
    ensures FailureKept(old(progress.failure), progress.failure,
            if call.Raises? then Some(Stop(stage, false)) else None)
  {
    hide Marked, ObservedStage;
    pending := false;
    exit := ObserveWithProgress(progress, stage, call, complete := false);
    ObservedIsMarked(Counter(old(progress.stages), stage), exit);
    if exit.Normally? {
      pending := true;
      exit := if !report.Normally? then report else Required(call);
      if exit.Normally? {
        CloseEntry(progress, stage, true, Counter(old(progress.stages), stage), old(progress.stages));
        pending := false;
      }
    }
  }

  /** The stages of a sample that stopped, or ended, at its first, second or third stage. */
  lemma {:induction false} SampledOne(enter: Entering, before: Stages, after: Stages, stop: Option<Stop>)
    requires StopsAt(stop, RecoveryPrecondition)
    requires EnteredOnce(enter, before, after, RecoveryPrecondition, MarkAt(stop, RecoveryPrecondition))
    ensures Sampled(enter, before, after, stop)
  {
  }

  lemma {:induction false} SampledTwo(enter: Entering, before: Stages, middle: Stages, after: Stages,
      stop: Option<Stop>)
    requires StopsAt(stop, RecoveryStop)
    requires EnteredOnce(enter, before, middle, RecoveryPrecondition, Resolved)
    requires EnteredOnce(enter, middle, after, RecoveryStop, MarkAt(stop, RecoveryStop))
    ensures Sampled(enter, before, after, stop)
  {
  }

  lemma {:induction false} SampledThree(enter: Entering, before: Stages, middle: Stages, late: Stages, after: Stages,
      stop: Option<Stop>)
    requires stop.None? || StopsAt(stop, Recovery)
    requires EnteredOnce(enter, before, middle, RecoveryPrecondition, Resolved)
    requires EnteredOnce(enter, middle, late, RecoveryStop, Resolved)
    requires EnteredOnce(enter, late, after, Recovery, MarkAt(stop, Recovery))
    ensures Sampled(enter, before, after, stop)
  {
  }

  /** One iteration of the loop, exception handler included. */
  method RecoverySample(progress: SloProgress, w: Sample) returns (exit: Exit)
    modifies progress
    ensures exit.Normally? <==> SampleStop(w).None?
    ensures exit.Interrupting? <==> SampleStop(w).Some? && SampleStop(w).value.interrupted
    ensures Sampled(Entry, old(progress.stages), progress.stages, SampleStop(w))
    ensures FailureKept(old(progress.failure), progress.failure, SampleStop(w))
  {
    hide Marked;
    var preconditionPending, observationPending := false, false;
    var failureStage := RecoveryPrecondition;
    ghost var before := progress.stages;
    exit, preconditionPending := ObserveInStage(progress, RecoveryPrecondition, w.warm, Normally);
    ghost var middle, late := progress.stages, progress.stages;
    if exit.Normally? {
      progress.Activate(Recovery);
      failureStage := RecoveryStop;
      exit := Required(w.stop);
      PreflightOperation(progress, RecoveryStop, exit);
      late := progress.stages;
      if exit.Normally? {
        failureStage := Recovery;
        exit, observationPending := ObserveInStage(progress, Recovery, w.recovered, w.report);
      }
    }
    if exit.Raising? {
      if preconditionPending {
        CloseEntry(progress, RecoveryPrecondition, false, Found(At(before, RecoveryPrecondition), RecoveryPrecondition),
          before);
      }
      if observationPending {
        CloseEntry(progress, Recovery, false, Found(At(late, Recovery), Recovery), late);
      }
      progress.RecordFailure(exit.category, failureStage);
    }
    if failureStage.RecoveryPrecondition? {
      SampledOne(Entry, before, progress.stages, SampleStop(w));
    } else if failureStage.RecoveryStop? {
      SampledTwo(Entry, before, middle, progress.stages, SampleStop(w));
    } else {
      SampledThree(Entry, before, middle, late, progress.stages, SampleStop(w));
    }
  }

  /** `_run_recovery`: samples until the first one that fails or is interrupted. */
  method RunRecovery(progress: SloProgress, world: seq<Sample>) returns (exit: Exit)
    modifies progress
    ensures exit.Normally? <==> FirstStop(world).None?
    ensures exit.Interrupting? <==> FirstStop(world).Some? && FirstStop(world).value.1.interrupted
    ensures AccountedStages(Entry, old(progress.stages), progress.stages, |world|, FirstStop(world))
    ensures FailureKept(old(progress.failure), progress.failure,
            if FirstStop(world).Some? then Some(FirstStop(world).value.1) else None)
  {
    hide Marked;
    for index := 0 to |world|
      invariant FirstStop(world[..index]) == None
      invariant AccountedStages(Entry, old(progress.stages), progress.stages, index, None)
      invariant progress.failure == old(progress.failure)
    {
      ghost var before := progress.stages;
      exit := RecoverySample(progress, world[index]);
      OneMoreSample(world, index);
      AccountingGrows(Entry, old(progress.stages), before, progress.stages, index, SampleStop(world[index]), |world|);
      if !exit.Normally? {
        StopsAtFirst(world, index + 1);
        return;
      }
    }
    assert world[..|world|] == world;
    exit := Normally;
  }

  /** The first stop after one more sample. */
  function OneMore(index: nat, stop: Option<Stop>): Option<(nat, Stop)> {
    match stop case None => None case Some(s) => Some((index, s))
  }

  lemma {:induction false} OneMoreSample(world: seq<Sample>, index: nat)
    requires index < |world| && FirstStop(world[..index]) == None
    ensures FirstStop(world[..index + 1]) == OneMore(index, SampleStop(world[index]))
  {
    assert world[..index + 1][..index] == world[..index];
  }

  predicate Sensible(stop: Option<Stop>) {
    stop.Some? ==> !stop.value.stage.Labelled?
  }

  /** One more sample adds its entry to those before. */
  lemma {:induction false} MarksGrow(index: nat, stop: Option<Stop>, n: nat, c: StageName)
    requires Sensible(stop)
    ensures MarksOf(if stop.None? then index + 1 else n, OneMore(index, stop), c)
            == MarksOf(index, None, c) + SampleMarks(stop, c)
  {
  }

  lemma {:induction false} AfterOneMore(enter: Entering, before: Option<Stage>, marks: seq<Mark>, more: seq<Mark>,
      c: StageName)
    requires |more| <= 1
    ensures After(enter, before, marks + more, c)
            == if more == [] then After(enter, before, marks, c)
              else Some(enter(After(enter, before, marks, c), c, more[0]))
  {
    if more == [] {
      assert marks + more == marks;
    } else {
      assert (marks + more)[..|marks|] == marks;
    }
  }

  lemma {:induction false} AccountingGrows(enter: Entering, first: Stages, middle: Stages, last: Stages, index: nat,
      stop: Option<Stop>, n: nat)
    requires AccountedStages(enter, first, middle, index, None) && Sampled(enter, middle, last, stop) && Sensible(stop)
    ensures AccountedStages(enter, first, last, if stop.None? then index + 1 else n, OneMore(index, stop))
  {
    forall c ensures At(last, c)
      == After(enter, At(first, c), MarksOf(if stop.None? then index + 1 else n, OneMore(index, stop), c), c) {
      assert At(middle, c) == After(enter, At(first, c), MarksOf(index, None, c), c);
      MarksGrow(index, stop, n, c);
      AfterOneMore(enter, At(first, c), MarksOf(index, None, c), SampleMarks(stop, c), c);
    }
  }

  lemma {:induction false} StopsAtFirst(world: seq<Sample>, k: nat)
    requires k <= |world| && FirstStop(world[..k]).Some?
    ensures FirstStop(world) == FirstStop(world[..k])
    decreases |world|
  {
    if k == |world| {
      assert world[..k] == world;
    } else {
      var last := |world| - 1;
      assert world[..last][..k] == world[..k];
      StopsAtFirst(world[..last], k);
    }
  }

  /** The run was interrupted in stage `c`. */
  predicate InterruptedIn(world: seq<Sample>, c: StageName) {
    FirstStop(world).Some? && FirstStop(world).value.1 == Stop(c, true)
  }

  function CountMarks(marks: seq<Mark>, mark: Mark): nat {
    if marks == [] then 0
    else CountMarks(marks[..|marks| - 1], mark) + if marks[|marks| - 1] == mark then 1 else 0
  }

  lemma {:induction false} CountTimes(n: nat, more: seq<Mark>, mark: Mark)
    requires |more| <= 1
    ensures CountMarks(Times(n) + more, mark) == (if mark.Resolved? then n else 0) + (if more == [mark] then 1 else 0)
    decreases n, |more|
  {
    var marks := Times(n) + more;
    if more != [] {
      assert marks[..|marks| - 1] == Times(n) + [];
      CountTimes(n, [], mark);
    } else if n > 0 {
      assert marks[..|marks| - 1] == Times(n - 1) + [];
      CountTimes(n - 1, [], mark);
    }
  }

  /** The counters of a planned stage after its entries. */
  lemma {:induction false} PlannedAfter(n: nat, marks: seq<Mark>, c: StageName)
    ensures var s := After(Entry, Some(Fresh(Some(n))), marks, c);
            s == Some(Stage(Some(n), |marks|, |marks|, |marks|, CountMarks(marks, Resolved), CountMarks(marks, Failed),
              0, false))
  {
    if marks != [] {
      PlannedAfter(n, marks[..|marks| - 1], c);
    }
  }

  /** What the accounting guarantees at every exit of a run planned for `|world|` samples: entries are
      resolved exactly once, except the one an interrupt left open. */
  lemma {:induction false} RecoveryBalances(before: Stages, after: Stages, world: seq<Sample>, c: StageName)
    requires AccountedStages(Entry, before, after, |world|, FirstStop(world)) && !c.Labelled?
    requires At(before, c) == Some(Fresh(Some(|world|)))
    ensures At(after, c).Some?
    ensures var s := At(after, c).value;
            && s.attempted == s.submitted == s.completed + s.failed + (if InterruptedIn(world, c) then 1 else 0)
            && s.failed <= 1
            && Missing(s) == Some(|world| - s.completed - s.failed)
            && (FirstStop(world).None? ==> s.completed == |world|)
  {
    hide Entry, CountMarks, After;
    var n, first := |world|, FirstStop(world);
    var marks := MarksOf(n, first, c);
    assert At(after, c) == After(Entry, At(before, c), marks, c);
    PlannedAfter(n, marks, c);
    RunMarks(n, first, c);
  }

  lemma {:induction false} RunMarks(n: nat, first: Option<(nat, Stop)>, c: StageName)
    requires !c.Labelled? && (first.Some? ==> first.value.0 < n && !first.value.1.stage.Labelled?)
    ensures var marks := MarksOf(n, first, c);
            && |marks| <= n
            && |marks| == CountMarks(marks, Resolved) + CountMarks(marks, Failed)
               + (if first.Some? && first.value.1 == Stop(c, true) then 1 else 0)
            && CountMarks(marks, Failed) <= 1
            && (first.None? ==> CountMarks(marks, Resolved) == n)
  {
    match first
    case None =>
      assert Times(n) + [] == Times(n);
      CountTimes(n, [], Resolved);
      CountTimes(n, [], Failed);
    case Some((k, stop)) =>
      CountTimes(k, LastMark(stop, c), Resolved);
      CountTimes(k, LastMark(stop, c), Failed);
  }

  /** Every stage has each of its entries resolved exactly when no interrupt ended the run. */
  lemma {:induction false} BalancedUnlessInterrupted(before: Stages, after: Stages, world: seq<Sample>)
    requires AccountedStages(Entry, before, after, |world|, FirstStop(world))
    requires forall c :: c in {RecoveryPrecondition, RecoveryStop, Recovery} ==>
             At(before, c) == Some(Fresh(Some(|world|)))
    ensures (forall c :: c in {RecoveryPrecondition, RecoveryStop, Recovery} ==>
               At(after, c).Some?
                 && At(after, c).value.attempted == At(after, c).value.completed + At(after, c).value.failed)
            <==> !(FirstStop(world).Some? && FirstStop(world).value.1.interrupted)
  {
    RecoveryBalances(before, after, world, RecoveryPrecondition);
    RecoveryBalances(before, after, world, RecoveryStop);
    RecoveryBalances(before, after, world, Recovery);
    if FirstStop(world).Some? {
      assert !FirstStop(world).value.1.stage.Labelled?;
    }
  }

  /** The smallest run that leaves an entry open: an interrupt in the first observation. */
  lemma {:induction false} InterruptLeavesAnEntryOpen(stop: Call, recovered: Call, report: Exit, before: Stages,
      after: Stages)
    requires At(before, RecoveryPrecondition) == Some(Fresh(Some(1)))
    requires var world := [Sample(Interrupts, stop, recovered, report)];
             AccountedStages(Entry, before, after, 1, FirstStop(world))
    ensures InterruptedIn([Sample(Interrupts, stop, recovered, report)], RecoveryPrecondition)
    ensures At(after, RecoveryPrecondition).Some?
    ensures var s := At(after, RecoveryPrecondition).value;
            s.attempted == 1 && s.attempted == s.completed + s.failed + 1
  {
    hide AccountedStages;
    var world := [Sample(Interrupts, stop, recovered, report)];
    assert SampleStop(world[0]) == Some(Stop(RecoveryPrecondition, true));
    assert world[..0] == [] && FirstStop(world[..0]) == None;
    assert FirstStop(world) == Some((0, Stop(RecoveryPrecondition, true)));
    RecoveryBalances(before, after, world, RecoveryPrecondition);
    OneEntry(before, after, world);
  }

  lemma {:induction false} OneEntry(before: Stages, after: Stages, world: seq<Sample>)
    requires At(before, RecoveryPrecondition) == Some(Fresh(Some(1)))
    requires FirstStop(world) == Some((0, Stop(RecoveryPrecondition, true)))
             && AccountedStages(Entry, before, after, 1, FirstStop(world))
    ensures At(after, RecoveryPrecondition).Some? && At(after, RecoveryPrecondition).value.attempted == 1
  {
    var marks := MarksOf(1, FirstStop(world), RecoveryPrecondition);
    assert At(after, RecoveryPrecondition)
           == After(Entry, At(before, RecoveryPrecondition), marks, RecoveryPrecondition);
    assert marks == [Open];
    PlannedAfter(1, marks, RecoveryPrecondition);
  }
}
