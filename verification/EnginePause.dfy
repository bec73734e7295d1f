/** What a pause stops. */
module EnginePause {
  import opened Types
  import opened EngineModel

  /** The steps that pause trading. */
  predicate IsPause(step: Step) {
    step.PauseTrading? || step.PanicClose? || step.CriticalPause?
  }

  predicate NeverResumed(steps: seq<Step>) {
    forall i :: 0 <= i < |steps| ==> !steps[i].ResumeTrading?
  }

  /** The pause flag is set by the three pausing steps, cleared by resume, and touched by nothing else. */
  lemma PausedAfter(config: EngineConfig, m: Machine, step: Step)
    ensures Next(config, m, step).engine.settings.paused
       <==> IsPause(step) || (m.engine.settings.paused && !step.ResumeTrading?)
  {
  }

  function ExecutedFills(log: seq<Observation>): seq<SourceFillEvent> {
    if log == [] then []
    else (if log[0].OrderExecuted? then [log[0].fill] else []) + ExecutedFills(log[1..])
  }

  function CommittedSignals(log: seq<Observation>): seq<CopySignal> {
    if log == [] then []
    else (if log[0].FillCommitted? then [log[0].signal] else []) + CommittedSignals(log[1..])
  }

  /** The fill that a running phase may still execute: one snapshotted while trading was not paused. */
  function Executable(phase: Phase): seq<SourceFillEvent> {
    match phase
    case Snapshotted(fill, snap) => if snap.settings.paused then [] else [fill]
    case Ordering(fill, _, _, _) => [fill]
    case _ => []
  }

  /** The fill that a running phase may still commit. */
  function Committable(phase: Phase): seq<SourceFillEvent> {
    if phase.Executed? then [phase.fill] else Executable(phase)
  }

  lemma {:induction false} ObservedStep(config: EngineConfig, m: Machine, step: Step, rest: seq<Observation>)
    ensures ExecutedFills(Observe(config, m, step) + rest)
         == (if step.Execute? && m.phase.Ordering? then [m.phase.fill] else []) + ExecutedFills(rest)
    ensures CommittedSignals(Observe(config, m, step) + rest)
         == (if step.Commit? && m.phase.Executed? then [m.phase.signal] else []) + CommittedSignals(rest)
  {
    var now := Observe(config, m, step);
    if now == [] {
      assert now + rest == rest;
    } else {
      assert (now + rest)[1..] == rest;
    }
  }

  lemma PausedStep(config: EngineConfig, m: Machine, step: Step)
    requires Decided(config, m) && m.engine.settings.paused && !step.ResumeTrading?
    ensures var m' := Next(config, m, step);
            && Decided(config, m') && m'.engine.settings.paused
            && (if step.Execute? && m.phase.Ordering? then Executable(m'.phase) == []
                else Executable(m'.phase) == Executable(m.phase) || Executable(m'.phase) == [])
            && (if step.Commit? && m.phase.Executed? then Committable(m'.phase) == []
                else Committable(m'.phase) == Committable(m.phase) || Committable(m'.phase) == [])
  {
    NextDecided(config, m, step);
    PausedAfter(config, m, step);
    if m.phase.Snapshotted? && DecideFill(config, m.phase.fill, m.phase.snap).Order? {
      OrderedSignal(config, m.phase.fill, m.phase.snap);
    }
  }

  /**
   * While trading stays paused, whatever else happens, at most one fill is executed and at most one is committed: the
   * one that was already in flight when the pause took effect. With no fill in flight, none is.
   */
  lemma {:induction false} PauseLetsOneThrough(config: EngineConfig, m: Machine, steps: seq<Step>)
    requires Decided(config, m) && m.engine.settings.paused && NeverResumed(steps)
    ensures ExecutedFills(Log(config, m, steps)) == Executable(m.phase)
         || ExecutedFills(Log(config, m, steps)) == []
    ensures var committed := CommittedSignals(Log(config, m, steps));
            committed == []
            || (|committed| == 1 && |Committable(m.phase)| == 1
                && committed[0].executionId == Committable(m.phase)[0].executionId)
    decreases |steps|
  {
    if steps != [] {
      var m' := Next(config, m, steps[0]);
      assert !steps[0].ResumeTrading? && NeverResumed(steps[1..]);
      PausedStep(config, m, steps[0]);
      ObservedStep(config, m, steps[0], Log(config, m', steps[1..]));
      PauseLetsOneThrough(config, m', steps[1..]);
      if steps[0].Commit? && m.phase.Executed? {
        OrderedSignal(config, m.phase.fill, m.phase.snap);
      }
    }
  }

  /** A phase carries at most one fill. */
  lemma CarriesOne(phase: Phase)
    ensures Executable(phase) == [] || (InFlight(phase) && Executable(phase) == [phase.fill])
    ensures Committable(phase) == [] || (InFlight(phase) && Committable(phase) == [phase.fill])
  {
  }

  lemma PauseTaken(config: EngineConfig, m: Machine, pause: Step)
    requires IsPause(pause)
    ensures Next(config, m, pause).phase == m.phase && Next(config, m, pause).engine.settings.paused
  {
  }

  /**
   * After any pausing step, until the next resume: at most one fill is executed and at most one committed, and that
   * fill was in flight, with its snapshot already taken, when the pausing step ran.
   */
  lemma {:induction false} AfterAnyPause(config: EngineConfig, m: Machine, pause: Step, steps: seq<Step>)
    requires Decided(config, m) && IsPause(pause) && NeverResumed(steps)
    ensures var log := Log(config, Next(config, m, pause), steps);
            && |ExecutedFills(log)| <= 1 && |CommittedSignals(log)| <= 1
            && (ExecutedFills(log) != [] ==> InFlight(m.phase) && ExecutedFills(log) == [m.phase.fill])
            && (CommittedSignals(log) != [] ==>
                InFlight(m.phase) && CommittedSignals(log)[0].executionId == m.phase.fill.executionId)
            && (!InFlight(m.phase) ==> ExecutedFills(log) == [] && CommittedSignals(log) == [])
  {
    PauseTaken(config, m, pause);
    NextDecided(config, m, pause);
    PauseLetsOneThrough(config, Next(config, m, pause), steps);
    CarriesOne(m.phase);
  }
}
