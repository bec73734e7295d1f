/** What the engine knows of a wallet after a run: the outcomes of its committed copies, and so when it is stopped. */
module EngineHistory {
  import opened Types
  import opened Collections
  import opened Performance
  import opened EngineModel

  /** The profits of a wallet's commits, in order. */
  function PnlsOf(log: seq<Observation>, wallet: string): seq<real> {
    if log == [] then []
    else
      (if log[0].FillCommitted? && log[0].signal.sourceWallet == wallet then [log[0].pnl] else [])
      + PnlsOf(log[1..], wallet)
  }

  /** The wallet's record is that of these outcomes; without any there is none. */
  ghost predicate Remembers(t: Tracker, wallet: string, h: seq<real>) {
    && (wallet in t.records <==> h != [])
    && (wallet in t.records ==> t.records[wallet] == RecordOf(h))
  }

  lemma {:induction false} PnlsOfStep(config: EngineConfig, m: Machine, step: Step, rest: seq<Observation>,
                                      wallet: string)
    ensures PnlsOf(Observe(config, m, step) + rest, wallet)
         == PnlsOf(Observe(config, m, step), wallet) + PnlsOf(rest, wallet)
  {
    var now := Observe(config, m, step);
    if now == [] {
      assert now + rest == rest;
    } else {
      assert |now| == 1 && now[1..] == [] && (now + rest)[1..] == rest;
    }
  }

  lemma {:induction false} RecordGrows(h: seq<real>, x: real)
    ensures RecordOf(h + [x]) == WithTrade(RecordOf(h), x)
  {
    assert (h + [x])[..|h|] == h;
  }

  lemma {:induction false} RemembersStep(config: EngineConfig, m: Machine, step: Step, wallet: string, h: seq<real>)
    requires Remembers(m.engine.tracker, wallet, h)
    ensures Remembers(Next(config, m, step).engine.tracker, wallet, h + PnlsOf(Observe(config, m, step), wallet))
  {
    RecordsUntouched(config, m, step);
    var now := Observe(config, m, step);
    if Commits(m, step) && m.phase.signal.sourceWallet == wallet {
      assert now[1..] == [] && PnlsOf(now, wallet) == [now[0].pnl];
      RecordGrows(h, now[0].pnl);
    } else {
      assert PnlsOf(now, wallet) == [] by { if now != [] { assert now[1..] == []; } }
      assert h + [] == h;
    }
  }

  lemma {:induction false} RemembersRun(config: EngineConfig, m: Machine, steps: seq<Step>, wallet: string,
                                        h: seq<real>)
    requires Remembers(m.engine.tracker, wallet, h)
    ensures Remembers(Run(config, m, steps).engine.tracker, wallet, h + PnlsOf(Log(config, m, steps), wallet))
    decreases |steps|
  {
    if steps == [] {
      assert h + [] == h;
    } else {
      var now, later := Observe(config, m, steps[0]), Log(config, Next(config, m, steps[0]), steps[1..]);
      RemembersStep(config, m, steps[0], wallet, h);
      RemembersRun(config, Next(config, m, steps[0]), steps[1..], wallet, h + PnlsOf(now, wallet));
      PnlsOfStep(config, m, steps[0], later, wallet);
      Associative(h, PnlsOf(now, wallet), PnlsOf(later, wallet));
    }
  }

  /**
   * After any run of an engine that started without records, the next snapshot of a wallet's fill finds it stopped
   * exactly if the stop is enabled, the wallet has been copied at least once and often enough, and the profits of
   * these copies, in the order of their commits, win too seldom or have fallen too far at some time.
   */
  lemma {:induction false} StoppedByItsCommits(config: EngineConfig, m: Machine, steps: seq<Step>,
                                               fill: SourceFillEvent)
    requires m.engine.tracker.records == map[]
    ensures var e := Run(config, m, steps).engine;
            var h := PnlsOf(Log(config, m, steps), fill.sourceWallet);
            var stop := Snap(e, config, fill).1.autoStop;
            && (stop.Some? <==>
                && e.tracker.config.enabled && h != [] && |h| >= e.tracker.config.minTradesBeforeStop
                && (WinsTooSeldom(h, e.tracker.config) || FallsTooFar(h, e.tracker.config)))
            && (stop.Some? ==> Explains(stop.value, h, e.tracker.config))
  {
    var h := PnlsOf(Log(config, m, steps), fill.sourceWallet);
    RemembersRun(config, m, steps, fill.sourceWallet, []);
    assert [] + h == h;
    StopFiresExactly(Run(config, m, steps).engine.tracker, fill.sourceWallet, h);
  }
}
