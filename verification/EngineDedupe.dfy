/** Deduplication over whole runs: an execution id is not executed again within a cache's worth of accepted fills. */
module EngineDedupe {
  import opened Types
  import opened EngineModel
  import opened Execution

  /** How many fills the log accepted as new. */
  function CountAccepted(log: seq<Observation>): (n: nat)
    ensures n <= |log|
  {
    if log == [] then 0
    else (if log[0].SnapshotTaken? && !log[0].snap.duplicate then 1 else 0) + CountAccepted(log[1..])
  }

  /** `id` was accepted `age` accepted fills ago, counting from zero. */
  ghost predicate Aged(e: Engine, config: EngineConfig, id: string, age: nat) {
    age < |e.recentIds| && |e.recentIds| <= config.dedupeSize && e.recentIds[|e.recentIds| - 1 - age] == id
  }

  /** The phase is not on its way to executing a fill with this id. */
  ghost predicate NotPending(phase: Phase, id: string) {
    && (phase.Snapshotted? && phase.fill.executionId == id ==> phase.snap.duplicate)
    && (phase.Ordering? ==> phase.fill.executionId != id)
  }

  predicate Executes(o: Observation, id: string) {
    o.OrderExecuted? && o.fill.executionId == id
  }

  lemma NotPendingStep(config: EngineConfig, m: Machine, step: Step, id: string)
    requires Decided(config, m) && NotPending(m.phase, id)
    requires !Accepts(m, step, id)
    ensures NotPending(Next(config, m, step).phase, id)
    ensures forall i :: 0 <= i < |Observe(config, m, step)| ==> !Executes(Observe(config, m, step)[i], id)
  {
    if m.phase.Snapshotted? && DecideFill(config, m.phase.fill, m.phase.snap).Order? {
      OrderedSignal(config, m.phase.fill, m.phase.snap);
    }
  }

  /** Every other step leaves the cache alone and moves the fill no closer to its order. */
  lemma OtherStep(config: EngineConfig, m: Machine, step: Step)
    requires !(step.TakeSnapshot? && m.phase.Idle?) && !(step.Decide? && m.phase.Snapshotted?)
    ensures Next(config, m, step).engine.recentIds == m.engine.recentIds
    ensures var next := Next(config, m, step).phase;
            next == m.phase || next.Idle? || next.Executed?
    ensures CountAccepted(Observe(config, m, step)) == 0
  {
    var now := Observe(config, m, step);
    assert now == [] || now[1..] == [];
  }

  /** Accepting a fill ages every remembered id by one, and a duplicate by none. */
  lemma AgedSnapshot(config: EngineConfig, m: Machine, fill: SourceFillEvent, id: string, age: nat)
    requires Aged(m.engine, config, id, age) && m.phase.Idle?
    ensures var e' := Next(config, m, TakeSnapshot(fill)).engine;
            var n := CountAccepted(Observe(config, m, TakeSnapshot(fill)));
            && n <= 1
            && (age + n < config.dedupeSize ==> Aged(e', config, id, age + n))
  {
    assert Observe(config, m, TakeSnapshot(fill))[1..] == [];
  }

  lemma AgedStep(config: EngineConfig, m: Machine, step: Step, id: string, age: nat)
    requires Aged(m.engine, config, id, age)
    ensures var e', n := Next(config, m, step).engine, CountAccepted(Observe(config, m, step));
            && n <= 1
            && (age + n < config.dedupeSize ==> Aged(e', config, id, age + n))
  {
    if step.TakeSnapshot? && m.phase.Idle? {
      AgedSnapshot(config, m, step.fill, id, age);
    } else if !(step.Decide? && m.phase.Snapshotted?) {
      OtherStep(config, m, step);
    }
  }

  lemma {:induction false} CountAppend(x: seq<Observation>, y: seq<Observation>)
    ensures CountAccepted(x + y) == CountAccepted(x) + CountAccepted(y)
  {
    if x == [] {
      assert x + y == y;
    } else {
      CountAppend(x[1..], y);
      assert (x + y)[1..] == x[1..] + y;
    }
  }

  /** An execution that is not in the first part of a log is in the second. */
  lemma {:induction false} ExecutedLater(now: seq<Observation>, rest: seq<Observation>, id: string, b: nat)
    requires b < |now + rest| && Executes((now + rest)[b], id)
    requires forall i :: 0 <= i < |now| ==> !Executes(now[i], id)
    ensures |now| <= b && Executes(rest[b - |now|], id)
    ensures CountAccepted((now + rest)[..b]) == CountAccepted(now) + CountAccepted(rest[..b - |now|])
  {
    assert (now + rest)[..b] == now + rest[..b - |now|];
    CountAppend(now, rest[..b - |now|]);
  }

  /** One step with the id remembered: it is not executed, and stays remembered while few fills are accepted. */
  lemma RememberedStep(config: EngineConfig, m: Machine, step: Step, id: string, age: nat)
    requires Decided(config, m) && NotPending(m.phase, id) && Aged(m.engine, config, id, age)
    ensures var m', now := Next(config, m, step), Observe(config, m, step);
            && Decided(config, m') && NotPending(m'.phase, id)
            && (forall i :: 0 <= i < |now| ==> !Executes(now[i], id))
            && CountAccepted(now) <= 1
            && (age + CountAccepted(now) < config.dedupeSize ==>
                Aged(m'.engine, config, id, age + CountAccepted(now)))
  {
    assert id in m.engine.recentIds;
    NextDecided(config, m, step);
    NotPendingStep(config, m, step, id);
    AgedStep(config, m, step, id, age);
  }

  /** While the id is still remembered, it can only be executed after enough other fills have been accepted. */
  lemma {:induction false} RememberedNotExecuted(config: EngineConfig, m: Machine, steps: seq<Step>, id: string,
                                                 age: nat, b: nat)
    requires Decided(config, m) && NotPending(m.phase, id) && Aged(m.engine, config, id, age)
    requires b < |Log(config, m, steps)| && Executes(Log(config, m, steps)[b], id)
    ensures age + CountAccepted(Log(config, m, steps)[..b]) > config.dedupeSize
    decreases |steps|
  {
    var now, m' := Observe(config, m, steps[0]), Next(config, m, steps[0]);
    var rest, n := Log(config, m', steps[1..]), CountAccepted(now);
    assert Log(config, m, steps) == now + rest;
    RememberedStep(config, m, steps[0], id, age);
    ExecutedLater(now, rest, id, b);
    var k := b - |now|;
    assert CountAccepted(Log(config, m, steps)[..b]) == n + CountAccepted(rest[..k]);
    if age + n < config.dedupeSize {
      RememberedNotExecuted(config, m', steps[1..], id, age + n, k);
    } else {
      ForgottenNeedsAccept(config, m', steps[1..], id, k);
    }
  }

  /** The step accepts a fill with this id as new. */
  predicate Accepts(m: Machine, step: Step, id: string) {
    step.TakeSnapshot? && m.phase.Idle? && step.fill.executionId == id && id !in m.engine.recentIds
  }

  lemma {:induction false} AcceptedObservation(config: EngineConfig, m: Machine, step: Step, id: string)
    requires Accepts(m, step, id)
    ensures var now := Observe(config, m, step);
            CountAccepted(now) == 1 && forall i :: 0 <= i < |now| ==> !Executes(now[i], id)
  {
    assert Observe(config, m, step)[1..] == [];
  }

  /** Executing an id that is not pending takes at least one more accepted fill. */
  lemma {:induction false} ForgottenNeedsAccept(config: EngineConfig, m: Machine, steps: seq<Step>, id: string, b: nat)
    requires Decided(config, m) && NotPending(m.phase, id)
    requires b < |Log(config, m, steps)| && Executes(Log(config, m, steps)[b], id)
    ensures CountAccepted(Log(config, m, steps)[..b]) >= 1
    decreases |steps|
  {
    var now, m' := Observe(config, m, steps[0]), Next(config, m, steps[0]);
    if Accepts(m, steps[0], id) {
      AcceptedObservation(config, m, steps[0], id);
      ExecutedLater(now, Log(config, m', steps[1..]), id, b);
    } else {
      NextDecided(config, m, steps[0]);
      NotPendingStep(config, m, steps[0], id);
      ExecutedLater(now, Log(config, m', steps[1..]), id, b);
      ForgottenNeedsAccept(config, m', steps[1..], id, b - |now|);
    }
  }

  /** The last accepted fill is the one in flight. */
  ghost predicate LastAcceptedInFlight(config: EngineConfig, m: Machine) {
    && Decided(config, m)
    && |m.engine.recentIds| <= config.dedupeSize
    && ((m.phase.Snapshotted? && !m.phase.snap.duplicate) || m.phase.Ordering? ==>
        config.dedupeSize > 0 ==> Aged(m.engine, config, m.phase.fill.executionId, 0))
  }

  lemma AcceptedSnapshot(config: EngineConfig, m: Machine, fill: SourceFillEvent)
    requires LastAcceptedInFlight(config, m) && m.phase.Idle?
    ensures LastAcceptedInFlight(config, Next(config, m, TakeSnapshot(fill)))
  {
  }

  lemma AcceptedDecision(config: EngineConfig, m: Machine)
    requires LastAcceptedInFlight(config, m) && m.phase.Snapshotted?
    ensures LastAcceptedInFlight(config, Next(config, m, Decide))
  {
    NextDecided(config, m, Decide);
    if DecideFill(config, m.phase.fill, m.phase.snap).Order? {
      OrderedSignal(config, m.phase.fill, m.phase.snap);
    }
  }

  lemma LastAcceptedStep(config: EngineConfig, m: Machine, step: Step)
    requires LastAcceptedInFlight(config, m)
    ensures LastAcceptedInFlight(config, Next(config, m, step))
  {
    if step.TakeSnapshot? && m.phase.Idle? {
      AcceptedSnapshot(config, m, step.fill);
    } else if step.Decide? && m.phase.Snapshotted? {
      AcceptedDecision(config, m);
    } else {
      NextDecided(config, m, step);
      OtherStep(config, m, step);
    }
  }

  /** Between two executions of the same id more fills are accepted than the cache holds. */
  ghost predicate ExecutionsSpaced(log: seq<Observation>, size: nat) {
    forall a, b :: 0 <= a < b < |log| && log[a].OrderExecuted? && Executes(log[b], log[a].fill.executionId) ==>
      CountAccepted(log[a..b]) > size
  }

  lemma SpacedCons(o: Observation, rest: seq<Observation>, size: nat)
    requires ExecutionsSpaced(rest, size)
    requires forall b :: 0 <= b < |rest| && o.OrderExecuted? && Executes(rest[b], o.fill.executionId) ==>
               CountAccepted(rest[..b]) > size
    ensures ExecutionsSpaced([o] + rest, size)
  {
    var log := [o] + rest;
    forall a, b | 0 <= a < b < |log| && log[a].OrderExecuted? && Executes(log[b], log[a].fill.executionId)
      ensures CountAccepted(log[a..b]) > size
    {
      assert log[b] == rest[b - 1];
      ConsSlice(o, rest, a, b);
      if a == 0 {
        assert log[a] == o && CountAccepted(rest[..b - 1]) > size;
      } else {
        assert log[a] == rest[a - 1] && CountAccepted(rest[a - 1..b - 1]) > size;
      }
    }
  }

  lemma ConsSlice(o: Observation, rest: seq<Observation>, a: nat, b: nat)
    requires a < b <= |rest|
    ensures a > 0 ==> ([o] + rest)[a..b] == rest[a - 1..b - 1]
    ensures a == 0 ==> CountAccepted(([o] + rest)[a..b]) >= CountAccepted(rest[..b - 1])
  {
    if a == 0 {
      assert ([o] + rest)[0..b] == [o] + rest[..b - 1];
      CountAppend([o], rest[..b - 1]);
    }
  }

  /** After an execution, the next one of the same id is far enough away. */
  lemma {:induction false} NextExecution(config: EngineConfig, m: Machine, replies: seq<VenueReply>, steps: seq<Step>,
                                         b: nat)
    requires LastAcceptedInFlight(config, m) && m.phase.Ordering?
    requires var log := Log(config, Next(config, m, Execute(replies)), steps);
             b < |log| && Executes(log[b], m.phase.fill.executionId)
    ensures CountAccepted(Log(config, Next(config, m, Execute(replies)), steps)[..b]) > config.dedupeSize
  {
    var m' := Next(config, m, Execute(replies));
    NextDecided(config, m, Execute(replies));
    if config.dedupeSize > 0 {
      RememberedNotExecuted(config, m', steps, m.phase.fill.executionId, 0, b);
    } else {
      ForgottenNeedsAccept(config, m', steps, m.phase.fill.executionId, b);
    }
  }

  /**
   * In every run, executions of the same id are spaced further apart than the cache holds. So among any
   * `dedupeSize + 1` consecutive accepted fills each id reaches the execution at most once.
   */
  lemma {:induction false} NoRepeatWithinWindow(config: EngineConfig, m: Machine, steps: seq<Step>)
    requires LastAcceptedInFlight(config, m)
    ensures ExecutionsSpaced(Log(config, m, steps), config.dedupeSize)
    decreases |steps|
  {
    if steps != [] {
      var m' := Next(config, m, steps[0]);
      LastAcceptedStep(config, m, steps[0]);
      NoRepeatWithinWindow(config, m', steps[1..]);
      PrependStep(config, m, steps);
    }
  }

  lemma {:induction false} PrependStep(config: EngineConfig, m: Machine, steps: seq<Step>)
    requires steps != [] && LastAcceptedInFlight(config, m)
    requires ExecutionsSpaced(Log(config, Next(config, m, steps[0]), steps[1..]), config.dedupeSize)
    ensures ExecutionsSpaced(Log(config, m, steps), config.dedupeSize)
  {
    var now, rest := Observe(config, m, steps[0]), Log(config, Next(config, m, steps[0]), steps[1..]);
    if now == [] {
      assert now + rest == rest;
    } else {
      SingleObservation(config, m, steps[0]);
      if steps[0].Execute? {
        forall b | 0 <= b < |rest| && Executes(rest[b], m.phase.fill.executionId)
          ensures CountAccepted(rest[..b]) > config.dedupeSize
        {
          NextExecution(config, m, steps[0].replies, steps[1..], b);
        }
      }
      SpacedCons(now[0], rest, config.dedupeSize);
    }
  }

  lemma SingleObservation(config: EngineConfig, m: Machine, step: Step)
    ensures Observe(config, m, step) == [] || Observe(config, m, step) == [Observe(config, m, step)[0]]
    ensures Observe(config, m, step) != [] ==>
              (Observe(config, m, step)[0].OrderExecuted? <==> step.Execute?)
    ensures step.Execute? && Observe(config, m, step) != [] ==>
              m.phase.Ordering? && Observe(config, m, step)[0].fill == m.phase.fill
  {
  }
}
