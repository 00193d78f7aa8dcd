/** Counters of one benchmark stage, and the progress object that holds them for a run that may
    fail early. Every method of the source holds one lock, so each is one atomic step. */
module Progress {
  import opened Options

  datatype Stage = Stage(
    planned: Option<int>, submitted: nat, started: nat, attempted: nat,
    completed: nat, failed: nat, cancelled: nat, skipped: bool)

  function Fresh(planned: Option<int>, skipped: bool := false): Stage {
    Stage(planned, 0, 0, 0, 0, 0, 0, skipped)
  }

  function NonNegative(count: int): nat {
    if count < 0 then 0 else count
  }

  function AddSubmitted(s: Stage, count: int): Stage {
    s.(submitted := s.submitted + NonNegative(count))
  }

  function AddAttempted(s: Stage, count: int): Stage {
    s.(started := s.started + NonNegative(count), attempted := s.attempted + NonNegative(count))
  }

  function AddCompleted(s: Stage, count: int): Stage {
    s.(completed := s.completed + NonNegative(count))
  }

  function AddFailed(s: Stage, count: int): Stage {
    s.(failed := s.failed + NonNegative(count))
  }

  function AddCancelled(s: Stage, count: int): Stage {
    s.(cancelled := s.cancelled + NonNegative(count))
  }

  /** The `missing` entry of a stage snapshot. */
  function Missing(s: Stage): Option<nat> {
    match s.planned
    case None => None
    case Some(p) => Some(NonNegative(p - s.completed - s.failed - s.cancelled))
  }

  /** The stages the recovery loop works on, and every other one by its label. */
  datatype StageName = RecoveryPrecondition | RecoveryStop | Recovery | Labelled(text: string)

  type Stages = map<StageName, Stage>

  /** The counters of a stage; a stage nobody planned counts from zero. */
  function Counter(stages: Stages, name: StageName): Stage {
    if name in stages then stages[name] else Fresh(None)
  }

  function At(stages: Stages, name: StageName): Option<Stage> {
    if name in stages then Some(stages[name]) else None
  }

  /** No stage but `name` moved. */
  ghost predicate Only(before: Stages, after: Stages, name: StageName) {
    forall c :: c != name ==> At(after, c) == At(before, c)
  }

  /** The stage after `plan_operation`. */
  function PlannedOnce(before: Option<Stage>): Stage {
    match before
    case None => Fresh(Some(1))
    case Some(s) => if s.planned.None? then s.(planned := Some(1), skipped := false) else s
  }

  /** The first recorded failure: the stage it happened in and its category. */
  datatype Failure = Failure(stage: StageName, category: string)

  class SloProgress {
    var stages: Stages
    var failure: Option<Failure>
    var activeStage: StageName

    constructor (stages: Stages)
      ensures this.stages == stages && failure == None
    {
      this.stages := stages;
      failure := None;
      activeStage := Labelled("unknown");
    }

    method Activate(stage: StageName)
      modifies `activeStage
      ensures activeStage == stage
    {
      activeStage := stage;
    }

    /** A stage that nobody planned, or without a denominator, gets the denominator one; a planned one
        keeps its own. */
    method PlanOperation(stage: StageName)
      modifies `stages
      ensures Only(old(stages), stages, stage) && At(stages, stage) == Some(PlannedOnce(At(old(stages), stage)))
    {
      if stage !in stages {
        stages := stages[stage := Fresh(Some(1))];
      } else if stages[stage].planned.None? {
        stages := stages[stage := stages[stage].(planned := Some(1), skipped := false)];
      }
    }

    /** Only the submissions of this stage grow, and never shrink. */
    method Submit(stage: StageName, count: int := 1)
      modifies `stages
      ensures Only(old(stages), stages, stage) && stage in stages
      ensures var was := Counter(old(stages), stage);
              stages[stage].submitted == was.submitted + NonNegative(count)
              && stages[stage] == was.(submitted := stages[stage].submitted)
    {
      stages := stages[stage := AddSubmitted(Counter(stages, stage), count)];
    }

    /** Starts and attempts grow together. */
    method Attempt(stage: StageName, count: int := 1)
      modifies `stages
      ensures Only(old(stages), stages, stage) && stage in stages
      ensures var was := Counter(old(stages), stage);
              stages[stage].started == was.started + NonNegative(count)
                && stages[stage].attempted == was.attempted + NonNegative(count)
              && stages[stage] == was.(started := stages[stage].started, attempted := stages[stage].attempted)
    {
      stages := stages[stage := AddAttempted(Counter(stages, stage), count)];
    }

    /** Only the completions of this stage grow. */
    method Complete(stage: StageName, count: int := 1)
      modifies `stages
      ensures Only(old(stages), stages, stage) && stage in stages
      ensures var was := Counter(old(stages), stage);
              stages[stage].completed == was.completed + NonNegative(count)
              && stages[stage] == was.(completed := stages[stage].completed)
    {
      stages := stages[stage := AddCompleted(Counter(stages, stage), count)];
    }

    /** Only the failures of this stage grow. */
    method FailRequest(stage: StageName, count: int := 1)
      modifies `stages
      ensures Only(old(stages), stages, stage) && stage in stages
      ensures var was := Counter(old(stages), stage);
              stages[stage].failed == was.failed + NonNegative(count)
              && stages[stage] == was.(failed := stages[stage].failed)
    {
      stages := stages[stage := AddFailed(Counter(stages, stage), count)];
    }

    /** Only the first failure is kept. */
    method RecordFailure(category: string, stage: StageName)
      modifies `failure
      ensures old(failure).Some? ==> failure == old(failure)
      ensures old(failure).None? ==> failure == Some(Failure(stage, category))
    {
      if failure.Some? {
        return;
      }
      failure := Some(Failure(stage, category));
    }
  }
}
