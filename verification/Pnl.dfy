/** The profit-and-loss ledger: open positions, realized records, daily buckets, fees and drawdown. */
module Pnl {
  import opened Types
  import opened Collections
  import opened Drawdown

  datatype PositionSide = Long | Short

  datatype OpenPosition = OpenPosition(side: PositionSide, entryPrice: real, size: real, feesPaidEntry: real)

  /** A realized record; `closedDay` is the calendar day of its closing time. */
  datatype RealizedPnL = RealizedPnL(marketSlug: string, grossPnl: real, fees: real, netPnl: real, closedDay: int)

  datatype DailyPnL = DailyPnL(
    realizedPnl: real, fees: real, netPnl: real, tradeCount: nat, winCount: nat, lossCount: nat)

  const QUIET_DAY := DailyPnL(0.0, 0.0, 0.0, 0, 0, 0)

  /** The tracker's contents. `marks.total` is the re-summed net profit, which the tracker does not store. */
  datatype Ledger = Ledger(
    realized: seq<RealizedPnL>,
    open: map<string, OpenPosition>,
    daily: map<int, DailyPnL>,
    totalFeesPaid: real,
    marks: Water)

  const NEW_LEDGER := Ledger([], map[], map[], 0.0, DRY)

  function GrossPnl(pos: OpenPosition, price: real): real {
    match pos.side
    case Long => (price - pos.entryPrice) * pos.size
    case Short => (pos.entryPrice - price) * pos.size
  }

  /** A long gains sale less purchase, so exactly on a rise; a short of the same terms gains what the long loses. */
  lemma GrossPnlSign(entryPrice: real, size: real, fees: real, price: real)
    requires size > 0.0
    ensures var long, short := OpenPosition(Long, entryPrice, size, fees), OpenPosition(Short, entryPrice, size, fees);
            && GrossPnl(long, price) == size * price - size * entryPrice
            && (GrossPnl(long, price) > 0.0 <==> price > entryPrice)
            && GrossPnl(short, price) == -GrossPnl(long, price)
  {
    var move := price - entryPrice;
    if move > 0.0 { assert move * size > 0.0; } else { assert -move * size >= 0.0; }
  }

  function Net(r: RealizedPnL): real { r.netPnl }

  predicate Won(r: RealizedPnL) { r.netPnl > 0.0 }

  /** A record that does not win counts as a loss, even at zero. */
  predicate Lost(r: RealizedPnL) { r.netPnl <= 0.0 }

  /** `total_realized_pnl`. */
  function TotalRealized(rs: seq<RealizedPnL>): real {
    Sum(rs, Net)
  }

  function Close(market: string, pos: OpenPosition, price: real, exitFees: real, today: int): RealizedPnL {
    var gross := GrossPnl(pos, price);
    var fees := pos.feesPaidEntry + exitFees;
    RealizedPnL(market, gross, fees, gross - fees, today)
  }

  function WithRecord(d: DailyPnL, r: RealizedPnL): DailyPnL {
    DailyPnL(d.realizedPnl + r.grossPnl, d.fees + r.fees, d.netPnl + r.netPnl, d.tradeCount + 1,
             d.winCount + (if Won(r) then 1 else 0), d.lossCount + (if Won(r) then 0 else 1))
  }

  function Entry(l: Ledger, market: string, pos: OpenPosition): Ledger {
    l.(open := l.open[market := pos], totalFeesPaid := l.totalFeesPaid + pos.feesPaidEntry)
  }

  function Exit(l: Ledger, market: string, price: real, exitFees: real, today: int): Ledger {
    if market !in l.open then l
    else
      var r := Close(market, l.open[market], price, exitFees, today);
      var bucket := if today in l.daily then l.daily[today] else QUIET_DAY;
      Ledger(l.realized + [r], l.open - {market}, l.daily[today := WithRecord(bucket, r)],
             l.totalFeesPaid + exitFees, Observe(l.marks, TotalRealized(l.realized + [r])))
  }

  class PnLTracker {
    var realizedPnls: seq<RealizedPnL>
    var openPositions: map<string, OpenPosition>
    var dailyPnls: map<int, DailyPnL>
    var totalFeesPaid: real
    var highWaterMark: real
    var currentDrawdown: real
    var maxDrawdown: real

    ghost function View(): Ledger
      reads this
    {
      Ledger(realizedPnls, openPositions, dailyPnls, totalFeesPaid,
             Water(TotalRealized(realizedPnls), highWaterMark, currentDrawdown, maxDrawdown))
    }

    constructor ()
      ensures View() == NEW_LEDGER
    {
      realizedPnls, openPositions, dailyPnls, totalFeesPaid := [], map[], map[], 0.0;
      highWaterMark, currentDrawdown, maxDrawdown := 0.0, 0.0, 0.0;
    }

    method RecordEntry(market: string, side: PositionSide, price: real, size: real, fees: real)
      modifies this
      ensures View() == Entry(old(View()), market, OpenPosition(side, price, size, fees))
    {
      var position := OpenPosition(side, price, size, fees);
      openPositions := openPositions[market := position];
      totalFeesPaid := totalFeesPaid + fees;
    }

    method RecordExit(market: string, exitPrice: real, exitFees: real, today: int)
      returns (realized: Option<RealizedPnL>)
      modifies this
      ensures View() == Exit(old(View()), market, exitPrice, exitFees, today)
      ensures realized == if market in old(openPositions)
                          then Some(Close(market, old(openPositions)[market], exitPrice, exitFees, today))
                          else None
    {
      if market !in openPositions {
        return None;
      }
      var position := openPositions[market];
      openPositions := openPositions - {market};
      var grossPnl := GrossPnl(position, exitPrice);
      var totalFees := position.feesPaidEntry + exitFees;
      var netPnl := grossPnl - totalFees;
      var record := RealizedPnL(market, grossPnl, totalFees, netPnl, today);
      realizedPnls := realizedPnls + [record];
      totalFeesPaid := totalFeesPaid + exitFees;

      var daily := if today in dailyPnls then dailyPnls[today] else QUIET_DAY;
      ghost var bucket := daily;
      daily := daily.(realizedPnl := daily.realizedPnl + grossPnl, fees := daily.fees + totalFees,
                      netPnl := daily.netPnl + netPnl, tradeCount := daily.tradeCount + 1);
      if netPnl > 0.0 {
        daily := daily.(winCount := daily.winCount + 1);
      } else {
        daily := daily.(lossCount := daily.lossCount + 1);
      }
      assert daily == WithRecord(bucket, record);
      dailyPnls := dailyPnls[today := daily];

      var cumulative := TotalRealized(realizedPnls);
      if cumulative > highWaterMark {
        highWaterMark := cumulative;
        currentDrawdown := 0.0;
      } else {
        currentDrawdown := highWaterMark - cumulative;
        if currentDrawdown > maxDrawdown {
          maxDrawdown := currentDrawdown;
        }
      }
      return Some(record);
    }
  }

  // ---------------------------------------------------------------------------------------------
  // Agreement of the ledger with its realized records, after any run
  // ---------------------------------------------------------------------------------------------

  datatype LedgerStep =
    | Enter(market: string, position: OpenPosition)
    | Leave(market: string, price: real, exitFees: real, today: int)

  function Apply(l: Ledger, step: LedgerStep): Ledger {
    match step
    case Enter(market, position) => Entry(l, market, position)
    case Leave(market, price, exitFees, today) => Exit(l, market, price, exitFees, today)
  }

  function RunLedger(l: Ledger, steps: seq<LedgerStep>): Ledger
    decreases |steps|
  {
    if steps == [] then l else RunLedger(Apply(l, steps[0]), steps[1..])
  }

  /** Entry fees of positions replaced by a later entry in the same market, which are never realized. */
  function LostEntryFees(l: Ledger, steps: seq<LedgerStep>): real
    decreases |steps|
  {
    if steps == [] then 0.0
    else
      (if steps[0].Enter? && steps[0].market in l.open then l.open[steps[0].market].feesPaidEntry else 0.0)
      + LostEntryFees(Apply(l, steps[0]), steps[1..])
  }

  function OnDay(rs: seq<RealizedPnL>, day: int): seq<RealizedPnL> {
    if rs == [] then []
    else
      var r := rs[|rs| - 1];
      OnDay(rs[..|rs| - 1], day) + (if r.closedDay == day then [r] else [])
  }

  /** A day's figures recomputed from that day's records. */
  function Recomputed(rs: seq<RealizedPnL>): DailyPnL {
    DailyPnL(Sum(rs, (r: RealizedPnL) => r.grossPnl), Sum(rs, FeesOf), TotalRealized(rs),
             |rs|, Count(rs, Won), |rs| - Count(rs, Won))
  }

  function Nets(rs: seq<RealizedPnL>): (h: seq<real>)
    ensures |h| == |rs|
  {
    seq(|rs|, i requires 0 <= i < |rs| => rs[i].netPnl)
  }

  /** A figure of the open positions, added up in one iteration order of the map. */
  function OverOpen(open: map<string, OpenPosition>, order: seq<string>, figure: OpenPosition -> real): real {
    Sum(order, m => if m in open then figure(open[m]) else 0.0)
  }

  /** The figure adds up to the total in every iteration order. */
  ghost predicate OpenTotal(open: map<string, OpenPosition>, figure: OpenPosition -> real, total: real) {
    forall order :: Enumerates(order, open.Keys) ==> OverOpen(open, order, figure) == total
  }

  function EntryFee(pos: OpenPosition): real { pos.feesPaidEntry }

  function OpenEntryFees(open: map<string, OpenPosition>, order: seq<string>): real {
    OverOpen(open, order, EntryFee)
  }

  function FeesOf(r: RealizedPnL): real { r.fees }

  /** Exactly the days with records have a bucket, and each bucket is recomputed from its day's records. */
  ghost predicate DailyAgrees(rs: seq<RealizedPnL>, daily: map<int, DailyPnL>) {
    && (forall i :: 0 <= i < |rs| ==> rs[i].closedDay in daily)
    && (forall d :: d in daily ==> OnDay(rs, d) != [] && daily[d] == Recomputed(OnDay(rs, d)))
  }

  /** The fees paid are those of the records, those of the open positions' entries, and the lost ones. */
  ghost predicate FeesAgree(l: Ledger, lost: real) {
    OpenTotal(l.open, EntryFee, l.totalFeesPaid - Sum(l.realized, FeesOf) - lost)
  }

  lemma RecomputedAppend(rs: seq<RealizedPnL>, r: RealizedPnL)
    ensures Recomputed(rs + [r]) == WithRecord(Recomputed(rs), r)
  {
    SumAppend(rs, r, (x: RealizedPnL) => x.grossPnl);
    SumAppend(rs, r, FeesOf);
    SumAppend(rs, r, Net);
    assert (rs + [r])[..|rs|] == rs;
  }

  lemma {:induction false} OnDayAppend(rs: seq<RealizedPnL>, r: RealizedPnL, day: int)
    ensures OnDay(rs + [r], day) == if r.closedDay == day then OnDay(rs, day) + [r] else OnDay(rs, day)
  {
    assert (rs + [r])[..|rs|] == rs;
  }

  lemma {:induction false} OnDayEmpty(rs: seq<RealizedPnL>, day: int)
    requires forall i :: 0 <= i < |rs| ==> rs[i].closedDay != day
    ensures OnDay(rs, day) == []
  {
    if rs != [] {
      OnDayEmpty(rs[..|rs| - 1], day);
    }
  }

  lemma DailyStep(rs: seq<RealizedPnL>, daily: map<int, DailyPnL>, r: RealizedPnL)
    requires DailyAgrees(rs, daily)
    ensures var bucket := if r.closedDay in daily then daily[r.closedDay] else QUIET_DAY;
            DailyAgrees(rs + [r], daily[r.closedDay := WithRecord(bucket, r)])
  {
    var bucket := if r.closedDay in daily then daily[r.closedDay] else QUIET_DAY;
    var daily' := daily[r.closedDay := WithRecord(bucket, r)];
    BucketStep(rs, daily, r);
    forall d | d in daily' ensures OnDay(rs + [r], d) != [] && daily'[d] == Recomputed(OnDay(rs + [r], d)) {
      OnDayAppend(rs, r, d);
    }
  }

  /** The bucket of the record's own day. */
  lemma {:induction false} BucketStep(rs: seq<RealizedPnL>, daily: map<int, DailyPnL>, r: RealizedPnL)
    requires DailyAgrees(rs, daily)
    ensures var bucket := if r.closedDay in daily then daily[r.closedDay] else QUIET_DAY;
            WithRecord(bucket, r) == Recomputed(OnDay(rs, r.closedDay) + [r])
  {
    RecomputedAppend(OnDay(rs, r.closedDay), r);
    if r.closedDay !in daily {
      OnDayEmpty(rs, r.closedDay);
    }
  }

  /** Entering a market adds the figure of its new position and takes out that of the one it overwrites. */
  lemma EnterTotal(open: map<string, OpenPosition>, market: string, pos: OpenPosition, figure: OpenPosition -> real,
                   total: real)
    requires OpenTotal(open, figure, total)
    ensures OpenTotal(open[market := pos], figure,
                      total + figure(pos) - if market in open then figure(open[market]) else 0.0)
  {
    var open' := open[market := pos];
    forall order | Enumerates(order, open'.Keys)
      ensures OverOpen(open', order, figure)
           == total + figure(pos) - if market in open then figure(open[market]) else 0.0
    {
      assert market in order;
      var k :| 0 <= k < |order| && order[k] == market;
      WithoutEnumerates(order, open'.Keys, k);
      var rest := Without(order, k);
      OpenSplit(open', order, k, figure);
      OpenCongruent(open, open', rest, figure);
      if market in open {
        OpenSplit(open, order, k, figure);
        assert Enumerates(order, open.Keys);
      } else {
        assert open'.Keys - {market} == open.Keys;
      }
    }
  }

  /** Leaving a market takes the figure of its position out. */
  lemma LeaveTotal(open: map<string, OpenPosition>, market: string, figure: OpenPosition -> real, total: real)
    requires OpenTotal(open, figure, total) && market in open
    ensures OpenTotal(open - {market}, figure, total - figure(open[market]))
  {
    forall order | Enumerates(order, (open - {market}).Keys)
      ensures OverOpen(open - {market}, order, figure) == total - figure(open[market])
    {
      Closed(open, market, order, figure);
    }
  }

  lemma Closed(open: map<string, OpenPosition>, market: string, order: seq<string>, figure: OpenPosition -> real)
    requires market in open && Enumerates(order, (open - {market}).Keys)
    ensures Enumerates([market] + order, open.Keys)
    ensures OverOpen(open, [market] + order, figure) == figure(open[market]) + OverOpen(open - {market}, order, figure)
  {
    var longer := [market] + order;
    ConsEnumerates(market, order, open.Keys);
    assert Without(longer, 0) == order;
    OpenSplit(open, longer, 0, figure);
    OpenCongruent(open, open - {market}, order, figure);
  }

  lemma OpenSplit(open: map<string, OpenPosition>, order: seq<string>, k: nat, figure: OpenPosition -> real)
    requires k < |order|
    ensures OverOpen(open, order, figure)
         == (if order[k] in open then figure(open[order[k]]) else 0.0) + OverOpen(open, Without(order, k), figure)
  {
    SumWithout(order, (m: string) => if m in open then figure(open[m]) else 0.0, k);
  }

  lemma OpenCongruent(a: map<string, OpenPosition>, b: map<string, OpenPosition>, order: seq<string>,
                      figure: OpenPosition -> real)
    requires forall m :: m in order ==> m in a && m in b && a[m] == b[m]
    ensures OverOpen(a, order, figure) == OverOpen(b, order, figure)
  {
    SumCongruent(order, (m: string) => if m in a then figure(a[m]) else 0.0,
                 (m: string) => if m in b then figure(b[m]) else 0.0);
  }

  lemma LeaveFees(l: Ledger, market: string, price: real, exitFees: real, today: int, lost: real)
    requires FeesAgree(l, lost) && market in l.open
    ensures FeesAgree(Exit(l, market, price, exitFees, today), lost)
  {
    SumAppend(l.realized, Close(market, l.open[market], price, exitFees, today), FeesOf);
    LeaveTotal(l.open, market, EntryFee, l.totalFeesPaid - Sum(l.realized, FeesOf) - lost);
  }

  lemma ConsEnumerates<T>(x: T, order: seq<T>, xs: set<T>)
    requires x in xs && Enumerates(order, xs - {x})
    ensures Enumerates([x] + order, xs)
  {
    var longer := [x] + order;
    forall i, j | 0 <= i < j < |longer| ensures longer[i] != longer[j] {
      assert longer[j] == order[j - 1] && order[j - 1] in order;
      if i > 0 { assert longer[i] == order[i - 1]; }
    }
    forall y | y in xs ensures y in longer {
      if y == x { assert longer[0] == y; } else { assert y in order; }
    }
  }

  lemma {:induction false} NetsTotal(rs: seq<RealizedPnL>)
    ensures Total(Nets(rs)) == TotalRealized(rs)
  {
    if rs != [] {
      var init, r := rs[..|rs| - 1], rs[|rs| - 1];
      NetsTotal(init);
      assert Nets(rs)[..|rs| - 1] == Nets(init);
      SumAppend(init, r, Net);
      assert rs == init + [r];
    }
  }

  lemma MarksStep(l: Ledger, market: string, price: real, exitFees: real, today: int)
    requires Exact(Nets(l.realized), l.marks) && market in l.open
    ensures var l' := Exit(l, market, price, exitFees, today);
            Exact(Nets(l'.realized), l'.marks)
  {
    var r := Close(market, l.open[market], price, exitFees, today);
    NetsTotal(l.realized);
    NetsTotal(l.realized + [r]);
    assert Nets(l.realized + [r]) == Nets(l.realized) + [r.netPnl];
    TrackAppend(Nets(l.realized), r.netPnl);
    ExactStep(Nets(l.realized), r.netPnl, l.marks);
  }

  ghost predicate LedgerAgrees(l: Ledger, lost: real) {
    DailyAgrees(l.realized, l.daily) && FeesAgree(l, lost) && Exact(Nets(l.realized), l.marks)
  }

  lemma {:induction false} RunAgrees(l: Ledger, steps: seq<LedgerStep>, lost: real)
    requires LedgerAgrees(l, lost)
    ensures LedgerAgrees(RunLedger(l, steps), lost + LostEntryFees(l, steps))
    decreases |steps|
  {
    if steps != [] {
      match steps[0] {
        case Enter(market, position) =>
          EnterTotal(l.open, market, position, EntryFee, l.totalFeesPaid - Sum(l.realized, FeesOf) - lost);
          RunAgrees(Apply(l, steps[0]), steps[1..],
                    lost + if market in l.open then l.open[market].feesPaidEntry else 0.0);
        case Leave(market, price, exitFees, today) =>
          if market in l.open {
            DailyStep(l.realized, l.daily, Close(market, l.open[market], price, exitFees, today));
            LeaveFees(l, market, price, exitFees, today, lost);
            MarksStep(l, market, price, exitFees, today);
          }
          RunAgrees(Apply(l, steps[0]), steps[1..], lost);
      }
    }
  }

  /**
   * After any run from an empty tracker: each day's bucket is the recomputation from that day's records, the
   * drawdown figures are exact for the whole history, and the fees paid are the realized fees, the entry fees of
   * open positions, and the entry fees lost to overwritten positions.
   */
  lemma {:induction false} LedgerAgreement(steps: seq<LedgerStep>)
    ensures LedgerAgrees(RunLedger(NEW_LEDGER, steps), LostEntryFees(NEW_LEDGER, steps))
  {
    NewLedgerAgrees();
    RunAgrees(NEW_LEDGER, steps, 0.0);
  }

  /** The step enters a market whose open position has paid an entry fee. */
  predicate OverwritesPaid(l: Ledger, step: LedgerStep) {
    step.Enter? && step.market in l.open && l.open[step.market].feesPaidEntry > 0.0
  }

  predicate NeverOverwritesPaid(l: Ledger, steps: seq<LedgerStep>)
    decreases |steps|
  {
    steps == [] || (!OverwritesPaid(l, steps[0]) && NeverOverwritesPaid(Apply(l, steps[0]), steps[1..]))
  }

  /** No entry fee is a rebate. */
  predicate NoRebates(l: Ledger, steps: seq<LedgerStep>) {
    && (forall m :: m in l.open ==> l.open[m].feesPaidEntry >= 0.0)
    && (forall i :: 0 <= i < |steps| && steps[i].Enter? ==> steps[i].position.feesPaidEntry >= 0.0)
  }

  /** Without rebates, entry fees are lost exactly if some entry overwrites a position that has paid one. */
  lemma {:induction false} NothingLost(l: Ledger, steps: seq<LedgerStep>)
    requires NoRebates(l, steps)
    ensures LostEntryFees(l, steps) >= 0.0
    ensures LostEntryFees(l, steps) == 0.0 <==> NeverOverwritesPaid(l, steps)
    decreases |steps|
  {
    if steps != [] {
      var l' := Apply(l, steps[0]);
      assert NoRebates(l', steps[1..]) by {
        forall m | m in l'.open ensures l'.open[m].feesPaidEntry >= 0.0 {
          assert (m in l.open && l'.open[m] == l.open[m]) || (steps[0].Enter? && l'.open[m] == steps[0].position);
        }
      }
      NothingLost(l', steps[1..]);
    }
  }

  /**
   * After any run from an empty tracker, the fees paid are the realized fees plus the open positions' entry fees
   * exactly if nothing was lost; without rebates, exactly if no entry overwrote a position that had paid an entry fee.
   */
  lemma {:induction false} FeesAddUpExactly(steps: seq<LedgerStep>)
    ensures FeesAgree(RunLedger(NEW_LEDGER, steps), 0.0) <==> LostEntryFees(NEW_LEDGER, steps) == 0.0
    ensures NoRebates(NEW_LEDGER, steps) ==>
              (FeesAgree(RunLedger(NEW_LEDGER, steps), 0.0) <==> NeverOverwritesPaid(NEW_LEDGER, steps))
  {
    LedgerAgreement(steps);
    var order := Enumeration(RunLedger(NEW_LEDGER, steps).open.Keys);
    assert FeesAgree(RunLedger(NEW_LEDGER, steps), 0.0) ==> LostEntryFees(NEW_LEDGER, steps) == 0.0 by {
      assert Enumerates(order, RunLedger(NEW_LEDGER, steps).open.Keys);
    }
    if NoRebates(NEW_LEDGER, steps) {
      NothingLost(NEW_LEDGER, steps);
    }
  }

  /** Entering a market twice in a row, with a fee the first time, loses that fee. */
  lemma OverwritingLosesFee()
    ensures var first, second := OpenPosition(Long, 0.5, 10.0, 1.0), OpenPosition(Long, 0.6, 10.0, 0.0);
            var steps := [Enter("m", first), Enter("m", second)];
            LostEntryFees(NEW_LEDGER, steps) == 1.0 && !FeesAgree(RunLedger(NEW_LEDGER, steps), 0.0)
  {
    var first := Enter("m", OpenPosition(Long, 0.5, 10.0, 1.0));
    var second := Enter("m", OpenPosition(Long, 0.6, 10.0, 0.0));
    var steps := [first, second];
    var l := Apply(NEW_LEDGER, first);
    assert steps[1..] == [second] && steps[1..][1..] == [];
    assert LostEntryFees(l, [second]) == 1.0 by {
      assert LostEntryFees(Apply(l, second), [second][1..]) == 0.0;
    }
    FeesAddUpExactly(steps);
  }

  lemma NewLedgerAgrees()
    ensures LedgerAgrees(NEW_LEDGER, 0.0)
  {
    forall order | Enumerates(order, NEW_LEDGER.open.Keys) ensures order == [] {
      assert NEW_LEDGER.open.Keys == {};
      FirstEnumerated(order, {});
    }
    assert Nets([]) == [];
    EmptyCurve();
  }

  lemma {:induction false} SumBump<T>(s: seq<T>, f: T -> real, g: T -> real, at: T, x: real)
    requires Distinct(s) && at in s
    requires g(at) == f(at) + x && forall y :: y in s && y != at ==> g(y) == f(y)
    ensures Sum(s, g) == Sum(s, f) + x
  {
    var k :| 0 <= k < |s| && s[k] == at;
    SumWithout(s, f, k);
    SumWithout(s, g, k);
    forall y | y in Without(s, k) ensures f(y) == g(y) {
      var i :| 0 <= i < |Without(s, k)| && Without(s, k)[i] == y;
      assert y == s[if i < k then i else i + 1];
    }
    SumCongruent(Without(s, k), f, g);
  }

  /** Summing any figure day by day gives the sum over all records. */
  lemma {:induction false} DaysPartition(rs: seq<RealizedPnL>, days: seq<int>, figure: RealizedPnL -> real)
    requires Distinct(days) && forall i :: 0 <= i < |rs| ==> rs[i].closedDay in days
    ensures Sum(days, d => Sum(OnDay(rs, d), figure)) == Sum(rs, figure)
  {
    var f := (d: int) => Sum(OnDay(rs, d), figure);
    if rs == [] {
      AllZero(days, f);
    } else {
      var init, r := rs[..|rs| - 1], rs[|rs| - 1];
      var g := (d: int) => Sum(OnDay(init, d), figure);
      DaysPartition(init, days, figure);
      assert rs == init + [r];
      SumAppend(init, r, figure);
      SumAppend(OnDay(init, r.closedDay), r, figure);
      forall d ensures f(d) == g(d) + if d == r.closedDay then figure(r) else 0.0 {
        OnDayAppend(init, r, d);
      }
      assert r.closedDay in days;
      SumBump(days, g, f, r.closedDay, figure(r));
    }
  }

  lemma {:induction false} AllZero<T>(s: seq<T>, f: T -> real)
    requires forall x :: x in s ==> f(x) == 0.0
    ensures Sum(s, f) == 0.0
  {
    if s != [] {
      assert s[0] in s;
      AllZero(s[1..], f);
    }
  }

  lemma {:induction false} WinsAsSum(rs: seq<RealizedPnL>)
    ensures Count(rs, Won) as real == Sum(rs, (r: RealizedPnL) => if Won(r) then 1.0 else 0.0)
  {
    if rs != [] {
      var init, r := rs[..|rs| - 1], rs[|rs| - 1];
      WinsAsSum(init);
      assert rs == init + [r];
      SumAppend(init, r, (x: RealizedPnL) => if Won(x) then 1.0 else 0.0);
    }
  }

  /** The counts and sums of `generate_summary`, for one iteration order of the open positions. */
  datatype Summary = Summary(totalRealized: real, totalUnrealized: real, netPnl: real, winCount: nat, lossCount: nat)

  function GenerateSummary(l: Ledger, prices: map<string, real>, feeBps: real, order: seq<string>): Summary {
    var unrealized := TotalUnrealized(l.open, prices, feeBps, order);
    Summary(TotalRealized(l.realized), unrealized, TotalRealized(l.realized) + unrealized,
            Count(l.realized, Won), Count(l.realized, Lost))
  }

  lemma {:induction false} WinsAndLosses(rs: seq<RealizedPnL>)
    ensures Count(rs, Won) + Count(rs, Lost) == |rs|
  {
    if rs != [] {
      WinsAndLosses(rs[..|rs| - 1]);
    }
  }

  function NetOf(d: DailyPnL): real { d.netPnl }

  function WinsOf(d: DailyPnL): real { d.winCount as real }

  function LossesOf(d: DailyPnL): real { d.lossCount as real }

  /** A figure of the daily buckets, added up. */
  function OverDays(daily: map<int, DailyPnL>, days: seq<int>, figure: DailyPnL -> real): real {
    Sum(days, d => if d in daily then figure(daily[d]) else 0.0)
  }

  /** If a figure agrees with the records of each day, its total agrees with all records. */
  lemma {:induction false} OverDaysIsSum(rs: seq<RealizedPnL>, daily: map<int, DailyPnL>, days: seq<int>,
                                         figure: DailyPnL -> real, perRecord: RealizedPnL -> real)
    requires DailyAgrees(rs, daily) && Enumerates(days, daily.Keys)
    requires forall d :: d in daily ==> figure(daily[d]) == Sum(OnDay(rs, d), perRecord)
    ensures OverDays(daily, days, figure) == Sum(rs, perRecord)
  {
    forall i | 0 <= i < |rs| ensures rs[i].closedDay in days {
      assert rs[i].closedDay in daily.Keys;
    }
    DaysPartition(rs, days, perRecord);
    SumCongruent(days, d => if d in daily then figure(daily[d]) else 0.0, d => Sum(OnDay(rs, d), perRecord));
  }

  /** After any run the daily buckets, in any order, add up to the summary. */
  lemma {:induction false} DailySumsMatchSummary(steps: seq<LedgerStep>, days: seq<int>, prices: map<string, real>,
                                                 feeBps: real, order: seq<string>)
    requires Enumerates(days, RunLedger(NEW_LEDGER, steps).daily.Keys)
    ensures var l := RunLedger(NEW_LEDGER, steps);
            var summary := GenerateSummary(l, prices, feeBps, order);
            && OverDays(l.daily, days, NetOf) == summary.totalRealized
            && OverDays(l.daily, days, WinsOf) == summary.winCount as real
            && OverDays(l.daily, days, LossesOf) == summary.lossCount as real
            && summary.winCount == Count(l.realized, (r: RealizedPnL) => r.netPnl > 0.0)
            && summary.lossCount == Count(l.realized, (r: RealizedPnL) => r.netPnl <= 0.0)
            && summary.totalRealized == Sum(l.realized, (r: RealizedPnL) => r.netPnl)
  {
    LedgerAgreement(steps);
    var rs := RunLedger(NEW_LEDGER, steps).realized;
    SummaryOfDays(RunLedger(NEW_LEDGER, steps), days, prices, feeBps, order);
    CountCongruent(rs, Won, (r: RealizedPnL) => r.netPnl > 0.0);
    CountCongruent(rs, Lost, (r: RealizedPnL) => r.netPnl <= 0.0);
    SumCongruent(rs, Net, (r: RealizedPnL) => r.netPnl);
  }

  lemma SummaryOfDays(l: Ledger, days: seq<int>, prices: map<string, real>, feeBps: real, order: seq<string>)
    requires DailyAgrees(l.realized, l.daily) && Enumerates(days, l.daily.Keys)
    ensures var summary := GenerateSummary(l, prices, feeBps, order);
            && OverDays(l.daily, days, NetOf) == summary.totalRealized
            && OverDays(l.daily, days, WinsOf) == summary.winCount as real
            && OverDays(l.daily, days, LossesOf) == summary.lossCount as real
  {
    SummedDays(l.realized, l.daily, days);
    WinsAndLosses(l.realized);
  }

  lemma {:induction false} SummedDays(rs: seq<RealizedPnL>, daily: map<int, DailyPnL>, days: seq<int>)
    requires DailyAgrees(rs, daily) && Enumerates(days, daily.Keys)
    ensures OverDays(daily, days, NetOf) == TotalRealized(rs)
    ensures OverDays(daily, days, WinsOf) == Count(rs, Won) as real
    ensures OverDays(daily, days, LossesOf) == (|rs| - Count(rs, Won)) as real
  {
    forall d | d in daily
      ensures WinsOf(daily[d]) == Sum(OnDay(rs, d), (r: RealizedPnL) => if Won(r) then 1.0 else 0.0)
      ensures LossesOf(daily[d]) == Sum(OnDay(rs, d), (r: RealizedPnL) => if Won(r) then 0.0 else 1.0)
    {
      WinsAsSum(OnDay(rs, d));
      LossesAsSum(OnDay(rs, d));
    }
    OverDaysIsSum(rs, daily, days, NetOf, Net);
    OverDaysIsSum(rs, daily, days, WinsOf, (r: RealizedPnL) => if Won(r) then 1.0 else 0.0);
    OverDaysIsSum(rs, daily, days, LossesOf, (r: RealizedPnL) => if Won(r) then 0.0 else 1.0);
    WinsAsSum(rs);
    LossesAsSum(rs);
  }

  lemma {:induction false} LossesAsSum(rs: seq<RealizedPnL>)
    ensures (|rs| - Count(rs, Won)) as real == Sum(rs, (r: RealizedPnL) => if Won(r) then 0.0 else 1.0)
  {
    if rs != [] {
      var init, r := rs[..|rs| - 1], rs[|rs| - 1];
      LossesAsSum(init);
      assert rs == init + [r];
      SumAppend(init, r, (x: RealizedPnL) => if Won(x) then 0.0 else 1.0);
    }
  }

  // ---------------------------------------------------------------------------------------------
  // Cash: what is realized is what came in less what went out
  // ---------------------------------------------------------------------------------------------

  /** What entering a position pays out, its fee included; a short one takes its price in. */
  function Outlay(pos: OpenPosition): real {
    match pos.side
    case Long => pos.size * pos.entryPrice + pos.feesPaidEntry
    case Short => pos.feesPaidEntry - pos.size * pos.entryPrice
  }

  /** What leaving it brings in, after the fee. */
  function Proceeds(pos: OpenPosition, price: real, exitFees: real): real {
    match pos.side
    case Long => pos.size * price - exitFees
    case Short => -(pos.size * price) - exitFees
  }

  /** Cash that comes in less cash that goes out over a run. */
  function CashFlow(l: Ledger, steps: seq<LedgerStep>): real
    decreases |steps|
  {
    if steps == [] then 0.0
    else
      (match steps[0]
       case Enter(_, position) => -Outlay(position)
       case Leave(market, price, exitFees, _) =>
         if market in l.open then Proceeds(l.open[market], price, exitFees) else 0.0)
      + CashFlow(Apply(l, steps[0]), steps[1..])
  }

  /** What was paid for positions replaced by a later entry in the same market, which never comes back. */
  function LostOutlay(l: Ledger, steps: seq<LedgerStep>): real
    decreases |steps|
  {
    if steps == [] then 0.0
    else
      (if steps[0].Enter? && steps[0].market in l.open then Outlay(l.open[steps[0].market]) else 0.0)
      + LostOutlay(Apply(l, steps[0]), steps[1..])
  }

  /** A record's net profit is what the exit brings in less what the entry paid out. */
  lemma NetIsCash(market: string, pos: OpenPosition, price: real, exitFees: real, today: int)
    ensures Close(market, pos, price, exitFees, today).netPnl == Proceeds(pos, price, exitFees) - Outlay(pos)
  {
    GrossInCash(pos, price);
  }

  /** The gross profit is sale less purchase, of the whole size. */
  lemma GrossInCash(pos: OpenPosition, price: real)
    ensures pos.side.Long? ==> GrossPnl(pos, price) == pos.size * price - pos.size * pos.entryPrice
    ensures pos.side.Short? ==> GrossPnl(pos, price) == pos.size * pos.entryPrice - pos.size * price
  {
  }

  /** Realized profit, cash and lost outlays leave exactly what the open positions have tied up. */
  ghost predicate CashAgrees(l: Ledger, cash: real, lost: real) {
    OpenTotal(l.open, Outlay, TotalRealized(l.realized) - cash - lost)
  }

  lemma LeaveCash(l: Ledger, market: string, price: real, exitFees: real, today: int, cash: real, lost: real)
    requires CashAgrees(l, cash, lost) && market in l.open
    ensures CashAgrees(Exit(l, market, price, exitFees, today), cash + Proceeds(l.open[market], price, exitFees), lost)
  {
    var pos := l.open[market];
    SumAppend(l.realized, Close(market, pos, price, exitFees, today), Net);
    NetIsCash(market, pos, price, exitFees, today);
    LeaveTotal(l.open, market, Outlay, TotalRealized(l.realized) - cash - lost);
  }

  lemma {:induction false} RunCash(l: Ledger, steps: seq<LedgerStep>, cash: real, lost: real)
    requires CashAgrees(l, cash, lost)
    ensures CashAgrees(RunLedger(l, steps), cash + CashFlow(l, steps), lost + LostOutlay(l, steps))
    decreases |steps|
  {
    if steps != [] {
      match steps[0] {
        case Enter(market, position) =>
          var replaced := if market in l.open then Outlay(l.open[market]) else 0.0;
          EnterTotal(l.open, market, position, Outlay, TotalRealized(l.realized) - cash - lost);
          RunCash(Apply(l, steps[0]), steps[1..], cash - Outlay(position), lost + replaced);
        case Leave(market, price, exitFees, today) =>
          if market in l.open {
            LeaveCash(l, market, price, exitFees, today, cash, lost);
            RunCash(Apply(l, steps[0]), steps[1..], cash + Proceeds(l.open[market], price, exitFees), lost);
          } else {
            RunCash(l, steps[1..], cash, lost);
          }
      }
    }
  }

  /**
   * After any run from an empty tracker the realized profit is the cash that came in less the cash that went out, with
   * what the open positions have tied up and what overwritten ones had paid added back.
   */
  lemma {:induction false} CashIsConserved(steps: seq<LedgerStep>, order: seq<string>)
    requires Enumerates(order, RunLedger(NEW_LEDGER, steps).open.Keys)
    ensures var l := RunLedger(NEW_LEDGER, steps);
            TotalRealized(l.realized)
            == CashFlow(NEW_LEDGER, steps) + OverOpen(l.open, order, Outlay) + LostOutlay(NEW_LEDGER, steps)
  {
    forall order' | Enumerates(order', NEW_LEDGER.open.Keys) ensures order' == [] {
      FirstEnumerated(order', {});
    }
    RunCash(NEW_LEDGER, steps, 0.0, 0.0);
  }

  /** One trip in and out of a market realizes sale less purchase less both fees, and leaves no position. */
  lemma OneTrip(l: Ledger, market: string, pos: OpenPosition, price: real, exitFees: real, today: int)
    ensures var after := Exit(Entry(l, market, pos), market, price, exitFees, today);
            var gross := if pos.side.Long? then pos.size * price - pos.size * pos.entryPrice
                         else pos.size * pos.entryPrice - pos.size * price;
            && TotalRealized(after.realized) == TotalRealized(l.realized) + gross - pos.feesPaidEntry - exitFees
            && after.realized == l.realized + [RealizedPnL(market, gross, pos.feesPaidEntry + exitFees,
                                                           gross - pos.feesPaidEntry - exitFees, today)]
            && after.totalFeesPaid == l.totalFeesPaid + pos.feesPaidEntry + exitFees
            && after.open == l.open - {market}
  {
    GrossInCash(pos, price);
    SumAppend(l.realized, Close(market, pos, price, exitFees, today), Net);
  }

  // ---------------------------------------------------------------------------------------------
  // Mark to market
  // ---------------------------------------------------------------------------------------------

  datatype UnrealizedPnL = UnrealizedPnL(marketSlug: string, grossPnl: real, feesEstimate: real, netPnlEstimate: real)

  function FeesEstimate(pos: OpenPosition, price: real, feeBps: real): real {
    price * pos.size * (feeBps / 10000.0)
  }

  function MarkPosition(market: string, pos: OpenPosition, price: real, feeBps: real): UnrealizedPnL {
    var gross, fees := GrossPnl(pos, price), FeesEstimate(pos, price, feeBps);
    UnrealizedPnL(market, gross, fees, gross - fees)
  }

  /** A mark is what leaving at the price would bring in over the purchase, less the fee rate on its value. */
  lemma MarkedValue(market: string, pos: OpenPosition, price: real, feeBps: real)
    ensures var u := MarkPosition(market, pos, price, feeBps);
            var gross := if pos.side.Long? then pos.size * price - pos.size * pos.entryPrice
                         else pos.size * pos.entryPrice - pos.size * price;
            && u.grossPnl == gross
            && u.feesEstimate * 10000.0 == price * pos.size * feeBps
            && u.netPnlEstimate == gross - u.feesEstimate
  {
    GrossInCash(pos, price);
    var rate := feeBps / 10000.0;
    assert rate * 10000.0 == feeBps;
    assert price * pos.size * rate * 10000.0 == price * pos.size * (rate * 10000.0);
  }

  /** `calculate_unrealized_pnls`: the priced positions, in one iteration order of the map. */
  function CalculateUnrealized(open: map<string, OpenPosition>, prices: map<string, real>, feeBps: real,
                               order: seq<string>): seq<UnrealizedPnL> {
    if order == [] then []
    else
      var rest := CalculateUnrealized(open, prices, feeBps, order[1..]);
      if order[0] in open && order[0] in prices then
        [MarkPosition(order[0], open[order[0]], prices[order[0]], feeBps)] + rest
      else rest
  }

  function TotalUnrealized(open: map<string, OpenPosition>, prices: map<string, real>, feeBps: real,
                           order: seq<string>): real {
    Sum(CalculateUnrealized(open, prices, feeBps, order), (u: UnrealizedPnL) => u.netPnlEstimate)
  }

  /** The net estimate of a market's position, or nothing if it is closed or unpriced. */
  function Estimate(open: map<string, OpenPosition>, prices: map<string, real>, feeBps: real, market: string): real {
    if market in open && market in prices
    then MarkPosition(market, open[market], prices[market], feeBps).netPnlEstimate
    else 0.0
  }

  lemma {:induction false} TotalUnrealizedIsSum(open: map<string, OpenPosition>, prices: map<string, real>,
                                                feeBps: real, order: seq<string>)
    ensures TotalUnrealized(open, prices, feeBps, order) == Sum(order, m => Estimate(open, prices, feeBps, m))
  {
    if order != [] {
      TotalUnrealizedIsSum(open, prices, feeBps, order[1..]);
      var rest := CalculateUnrealized(open, prices, feeBps, order[1..]);
      if order[0] in open && order[0] in prices {
        var u := MarkPosition(order[0], open[order[0]], prices[order[0]], feeBps);
        assert ([u] + rest)[1..] == rest;
      }
    }
  }

  function Priced(open: map<string, OpenPosition>, prices: map<string, real>): set<string> {
    set m | m in open && m in prices
  }

  /** Exits every listed market at its mark, paying the estimated fee. */
  function CloseAll(l: Ledger, prices: map<string, real>, feeBps: real, closing: seq<string>, day: string -> int)
    : Ledger
    requires forall m :: m in closing ==> m in l.open && m in prices
    requires Distinct(closing)
    decreases |closing|
  {
    if closing == [] then l
    else
      var m := closing[0];
      assert forall i :: 0 < i < |closing| ==> closing[i] != m;
      CloseAll(Exit(l, m, prices[m], FeesEstimate(l.open[m], prices[m], feeBps), day(m)), prices, feeBps,
               closing[1..], day)
  }

  lemma {:induction false} CloseAllNets(l: Ledger, prices: map<string, real>, feeBps: real, closing: seq<string>,
                                        day: string -> int)
    requires forall m :: m in closing ==> m in l.open && m in prices
    requires Distinct(closing)
    ensures var after := CloseAll(l, prices, feeBps, closing, day);
            && TotalRealized(after.realized)
               == TotalRealized(l.realized) + Sum(closing, m => Estimate(l.open, prices, feeBps, m))
                  - OpenEntryFees(l.open, closing)
            && after.open == l.open - (set m | m in closing)
    decreases |closing|
  {
    if closing != [] {
      var m, rest := closing[0], closing[1..];
      var l' := Exit(l, m, prices[m], FeesEstimate(l.open[m], prices[m], feeBps), day(m));
      assert forall i :: 0 < i < |closing| ==> closing[i] != m;
      CloseOneNets(l, prices, feeBps, m, day(m));
      CloseAllNets(l', prices, feeBps, rest, day);
      RestUntouched(l.open, l'.open, prices, feeBps, closing);
      assert l'.open - (set x | x in rest) == l.open - (set x | x in closing);
    }
  }

  lemma CloseOneNets(l: Ledger, prices: map<string, real>, feeBps: real, m: string, day: int)
    requires m in l.open && m in prices
    ensures TotalRealized(Exit(l, m, prices[m], FeesEstimate(l.open[m], prices[m], feeBps), day).realized)
         == TotalRealized(l.realized) + Estimate(l.open, prices, feeBps, m) - l.open[m].feesPaidEntry
  {
    SumAppend(l.realized, Close(m, l.open[m], prices[m], FeesEstimate(l.open[m], prices[m], feeBps), day), Net);
  }

  /** Closing the first listed market leaves the others' estimates and entry fees as they were. */
  lemma {:induction false} RestUntouched(open: map<string, OpenPosition>, open': map<string, OpenPosition>,
                                         prices: map<string, real>, feeBps: real, closing: seq<string>)
    requires closing != [] && closing[0] in open && open' == open - {closing[0]}
    requires forall i :: 0 < i < |closing| ==> closing[i] != closing[0] && closing[i] in open
    ensures Sum(closing, m => Estimate(open, prices, feeBps, m))
         == Estimate(open, prices, feeBps, closing[0]) + Sum(closing[1..], m => Estimate(open', prices, feeBps, m))
    ensures OpenEntryFees(open, closing) == open[closing[0]].feesPaidEntry + OpenEntryFees(open', closing[1..])
  {
    var rest := closing[1..];
    SumCongruent(rest, x => Estimate(open', prices, feeBps, x), x => Estimate(open, prices, feeBps, x));
    OpenCongruent(open', open, rest, EntryFee);
    assert Without(closing, 0) == rest;
    OpenSplit(open, closing, 0, EntryFee);
  }

  lemma {:induction false} SumRestrict<T>(s: seq<T>, xs: set<T>, f: T -> real) returns (t: seq<T>)
    requires Distinct(s) && (forall x :: x in xs ==> x in s) && (forall x :: x in s && x !in xs ==> f(x) == 0.0)
    ensures Enumerates(t, xs) && Sum(s, f) == Sum(t, f)
    decreases |s|
  {
    if s == [] {
      t := [];
    } else {
      assert forall i :: 0 < i < |s| ==> s[i] != s[0];
      assert s[0] in s;
      var rest := SumRestrict(s[1..], xs - {s[0]}, f);
      if s[0] in xs {
        t := [s[0]] + rest;
        assert t[1..] == rest;
        ConsEnumerates(s[0], rest, xs);
      } else {
        assert xs - {s[0]} == xs;
        t := rest;
      }
    }
  }

  /**
   * Closing every priced position at its mark with the estimated fee, in any order and on any days, realizes the
   * total unrealized profit less those positions' entry fees, and leaves nothing unrealized.
   */
  lemma {:induction false} MarkToMarket(l: Ledger, prices: map<string, real>, feeBps: real, closing: seq<string>,
                                        day: string -> int, order: seq<string>, order': seq<string>)
    requires Enumerates(order, l.open.Keys) && Enumerates(closing, Priced(l.open, prices))
    requires Enumerates(order', (l.open - Priced(l.open, prices)).Keys)
    ensures var after := CloseAll(l, prices, feeBps, closing, day);
            && TotalRealized(after.realized) - TotalRealized(l.realized)
               == TotalUnrealized(l.open, prices, feeBps, order) - OpenEntryFees(l.open, closing)
            && after.open == l.open - Priced(l.open, prices)
            && TotalUnrealized(after.open, prices, feeBps, order') == 0.0
            && GenerateSummary(after, prices, feeBps, order').netPnl
               == GenerateSummary(l, prices, feeBps, order).netPnl - OpenEntryFees(l.open, closing)
  {
    var priced := Priced(l.open, prices);
    CloseAllNets(l, prices, feeBps, closing, day);
    assert (set m | m in closing) == priced;
    var f := m => Estimate(l.open, prices, feeBps, m);
    TotalUnrealizedIsSum(l.open, prices, feeBps, order);
    var t := SumRestrict(order, priced, f);
    SumOrderFree(t, closing, priced, f);
    var after := CloseAll(l, prices, feeBps, closing, day);
    TotalUnrealizedIsSum(after.open, prices, feeBps, order');
    AllZero(order', m => Estimate(after.open, prices, feeBps, m));
  }
}
