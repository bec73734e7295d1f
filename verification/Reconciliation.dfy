/** Reconciling the exchange's positions with the engine's exposure map, pausing on critical findings, auto-correct. */
module Reconciliation {
  import opened Collections
  import opened Rounding

  datatype PositionSide = Yes | No

  datatype ExchangePosition = ExchangePosition(marketSlug: string, side: PositionSide, size: real, currentPrice: real)

  datatype InternalPosition = InternalPosition(side: PositionSide, size: real)

  datatype DiscrepancyType = SizeMismatch | SideMismatch | MissingOnExchange | MissingInternally

  datatype Severity = Critical | Warning | Minor

  datatype Discrepancy = Discrepancy(
    marketSlug: string, kind: DiscrepancyType, exchangeValue: real, internalValue: real, severity: Severity)

  datatype PositionMatch = PositionMatch(
    marketSlug: string, exchangeSize: real, internalSize: real, sizeDiff: real, sizeDiffPct: real)

  datatype Report = Report(
    matched: seq<PositionMatch>,
    discrepancies: seq<Discrepancy>,
    exchangeOnly: seq<ExchangePosition>,
    internalOnly: seq<string>)

  datatype ReconciliationConfig = ReconciliationConfig(
    warningThresholdPct: real, criticalThresholdPct: real, autoCorrect: bool, pauseOnCritical: bool)

  /** The engine estimates every position as a Yes position whose size is its dollar exposure. */
  function BuildInternalPositions(exposure: map<string, real>): map<string, InternalPosition> {
    map m | m in exposure :: InternalPosition(Yes, exposure[m])
  }

  function SizeDiffPct(exchangeSize: real, internalSize: real): real {
    if internalSize > 0.0 then Abs(exchangeSize - internalSize) / internalSize * 100.0
    else if exchangeSize > 0.0 then 100.0
    else 0.0
  }

  function SeverityOf(pct: real, config: ReconciliationConfig): Severity {
    if pct >= config.criticalThresholdPct then Critical
    else if pct >= config.warningThresholdPct then Warning
    else Minor
  }

  function SideValue(side: PositionSide): real { if side.Yes? then 1.0 else 0.0 }

  datatype Class = Matched | WrongSide | Untracked

  /** The class of one exchange entry. */
  function Classify(e: ExchangePosition, internal: map<string, InternalPosition>): Class {
    if e.marketSlug !in internal then Untracked
    else if e.side != internal[e.marketSlug].side then WrongSide
    else Matched
  }

  function MatchOf(e: ExchangePosition, i: InternalPosition): PositionMatch {
    PositionMatch(e.marketSlug, e.size, i.size, Abs(e.size - i.size), SizeDiffPct(e.size, i.size))
  }

  /** What one exchange entry adds to the discrepancies. */
  function FindingsOf(e: ExchangePosition, internal: map<string, InternalPosition>, config: ReconciliationConfig)
    : seq<Discrepancy>
  {
    match Classify(e, internal)
    case Untracked => [Discrepancy(e.marketSlug, MissingInternally, e.size, 0.0, Critical)]
    case WrongSide =>
      [Discrepancy(e.marketSlug, SideMismatch, SideValue(e.side), SideValue(internal[e.marketSlug].side), Critical)]
    case Matched =>
      var severity := SeverityOf(SizeDiffPct(e.size, internal[e.marketSlug].size), config);
      if severity.Minor? then []
      else [Discrepancy(e.marketSlug, SizeMismatch, e.size, internal[e.marketSlug].size, severity)]
  }

  function MissingFinding(market: string): Discrepancy {
    Discrepancy(market, MissingOnExchange, 0.0, 1.0, Warning)
  }

  // ---------------------------------------------------------------------------------------------
  // The report over a whole list, entry by entry
  // ---------------------------------------------------------------------------------------------

  function MatchesIn(es: seq<ExchangePosition>, internal: map<string, InternalPosition>): seq<PositionMatch> {
    if es == [] then []
    else
      var e := es[|es| - 1];
      MatchesIn(es[..|es| - 1], internal)
      + (if Classify(e, internal).Matched? then [MatchOf(e, internal[e.marketSlug])] else [])
  }

  function EntriesOf(es: seq<ExchangePosition>, internal: map<string, InternalPosition>, sort: Class)
    : seq<ExchangePosition>
  {
    if es == [] then []
    else
      var e := es[|es| - 1];
      EntriesOf(es[..|es| - 1], internal, sort) + (if Classify(e, internal) == sort then [e] else [])
  }

  function FindingsIn(es: seq<ExchangePosition>, internal: map<string, InternalPosition>, config: ReconciliationConfig)
    : seq<Discrepancy>
  {
    if es == [] then []
    else FindingsIn(es[..|es| - 1], internal, config) + FindingsOf(es[|es| - 1], internal, config)
  }

  function Markets(es: seq<ExchangePosition>): set<string> {
    set e | e in es :: e.marketSlug
  }

  function MissingIn(internalOnly: seq<string>): seq<Discrepancy> {
    seq(|internalOnly|, i requires 0 <= i < |internalOnly| => MissingFinding(internalOnly[i]))
  }

  ghost predicate IsReport(r: Report, es: seq<ExchangePosition>, internal: map<string, InternalPosition>,
                           config: ReconciliationConfig) {
    && r.matched == MatchesIn(es, internal)
    && r.exchangeOnly == EntriesOf(es, internal, Untracked)
    && Enumerates(r.internalOnly, internal.Keys - Markets(es))
    && r.discrepancies == FindingsIn(es, internal, config) + MissingIn(r.internalOnly)
  }

  lemma {:induction false} ReportGrows(es: seq<ExchangePosition>, i: nat, internal: map<string, InternalPosition>,
                                       config: ReconciliationConfig)
    requires i < |es|
    ensures MatchesIn(es[..i + 1], internal)
         == MatchesIn(es[..i], internal)
            + (if Classify(es[i], internal).Matched? then [MatchOf(es[i], internal[es[i].marketSlug])] else [])
    ensures EntriesOf(es[..i + 1], internal, Untracked)
         == EntriesOf(es[..i], internal, Untracked) + (if Classify(es[i], internal).Untracked? then [es[i]] else [])
    ensures FindingsIn(es[..i + 1], internal, config)
         == FindingsIn(es[..i], internal, config) + FindingsOf(es[i], internal, config)
    ensures Markets(es[..i + 1]) == Markets(es[..i]) + {es[i].marketSlug}
  {
    assert es[..i + 1][..i] == es[..i];
    assert es[..i + 1] == es[..i] + [es[i]];
  }

  method ReconcilePositions(es: seq<ExchangePosition>, internal: map<string, InternalPosition>,
                            config: ReconciliationConfig) returns (report: Report)
    ensures IsReport(report, es, internal, config)
  {
    var matched: seq<PositionMatch>, discrepancies: seq<Discrepancy> := [], [];
    var exchangeOnly: seq<ExchangePosition> := [];
    var matchedMarkets: set<string> := {};
    for i := 0 to |es|
      invariant matched == MatchesIn(es[..i], internal)
      invariant exchangeOnly == EntriesOf(es[..i], internal, Untracked)
      invariant discrepancies == FindingsIn(es[..i], internal, config)
      invariant matchedMarkets == Markets(es[..i])
    {
      var e := es[i];
      ReportGrows(es, i, internal, config);
      matchedMarkets := matchedMarkets + {e.marketSlug};
      if e.marketSlug !in internal {
        exchangeOnly := exchangeOnly + [e];
        discrepancies := discrepancies + [Discrepancy(e.marketSlug, MissingInternally, e.size, 0.0, Critical)];
      } else if e.side != internal[e.marketSlug].side {
        var sides := (SideValue(e.side), SideValue(internal[e.marketSlug].side));
        discrepancies := discrepancies + [Discrepancy(e.marketSlug, SideMismatch, sides.0, sides.1, Critical)];
      } else {
        var found := MatchOf(e, internal[e.marketSlug]);
        var severity := SeverityOf(found.sizeDiffPct, config);
        if severity != Minor {
          discrepancies := discrepancies
            + [Discrepancy(e.marketSlug, SizeMismatch, e.size, found.internalSize, severity)];
        }
        matched := matched + [found];
      }
    }
    assert es[..|es|] == es;
    var internalOnly, missing := FindInternalOnly(internal.Keys, matchedMarkets);
    report := Report(matched, discrepancies + missing, exchangeOnly, internalOnly);
  }

  /** The second loop: the tracked markets the exchange did not show, in some iteration order of the map. */
  method FindInternalOnly(tracked: set<string>, matchedMarkets: set<string>)
    returns (internalOnly: seq<string>, missing: seq<Discrepancy>)
    ensures Enumerates(internalOnly, tracked - matchedMarkets)
    ensures missing == MissingIn(internalOnly)
  {
    internalOnly, missing := [], [];
    var left := tracked;
    while left != {}
      invariant left <= tracked
      invariant Enumerates(internalOnly, tracked - left - matchedMarkets)
      invariant missing == MissingIn(internalOnly)
      decreases left
    {
      var market :| market in left;
      if market !in matchedMarkets {
        ghost var before := internalOnly;
        assert market !in internalOnly;
        internalOnly := internalOnly + [market];
        missing := missing + [MissingFinding(market)];
        assert internalOnly[|before|] == market;
        assert missing == MissingIn(internalOnly);
      }
      left := left - {market};
    }
  }

  /** The pause rule of the reconciliation loop. */
  method ShouldPause(report: Report, config: ReconciliationConfig) returns (pause: bool)
    ensures pause <==> config.pauseOnCritical && HasCritical(report.discrepancies)
  {
    var criticalCount := 0;
    for i := 0 to |report.discrepancies|
      invariant criticalCount > 0 <==> exists k :: 0 <= k < i && report.discrepancies[k].severity.Critical?
    {
      if report.discrepancies[i].severity.Critical? {
        criticalCount := criticalCount + 1;
      }
    }
    pause := criticalCount > 0 && config.pauseOnCritical;
  }

  // ---------------------------------------------------------------------------------------------
  // What a report means
  // ---------------------------------------------------------------------------------------------

  /** An entry calls for a pause: unknown to the engine, on the wrong side, or off by the critical percentage. */
  predicate Alarming(e: ExchangePosition, internal: map<string, InternalPosition>, config: ReconciliationConfig) {
    || e.marketSlug !in internal
    || e.side != internal[e.marketSlug].side
    || SizeDiffPct(e.size, internal[e.marketSlug].size) >= config.criticalThresholdPct
  }

  lemma {:induction false} EntriesPartition(es: seq<ExchangePosition>, internal: map<string, InternalPosition>)
    ensures multiset(es) == multiset(EntriesOf(es, internal, Matched)) + multiset(EntriesOf(es, internal, WrongSide))
                            + multiset(EntriesOf(es, internal, Untracked))
  {
    if es != [] {
      var init, e := es[..|es| - 1], es[|es| - 1];
      EntriesPartition(init, internal);
      assert es == init + [e];
      EntriesAppend(es, internal, Matched);
      EntriesAppend(es, internal, WrongSide);
      EntriesAppend(es, internal, Untracked);
      PartitionAppend(init, e, Classify(e, internal), EntriesOf(init, internal, Matched),
                      EntriesOf(init, internal, WrongSide), EntriesOf(init, internal, Untracked));
    }
  }

  function AddIf(s: seq<ExchangePosition>, e: ExchangePosition, wanted: bool): seq<ExchangePosition> {
    if wanted then s + [e] else s
  }

  lemma PartitionAppend(init: seq<ExchangePosition>, e: ExchangePosition, sort: Class, matched: seq<ExchangePosition>,
                        wrongSide: seq<ExchangePosition>, untracked: seq<ExchangePosition>)
    requires multiset(init) == multiset(matched) + multiset(wrongSide) + multiset(untracked)
    ensures multiset(init + [e]) == multiset(AddIf(matched, e, sort.Matched?))
                                    + multiset(AddIf(wrongSide, e, sort.WrongSide?))
                                    + multiset(AddIf(untracked, e, sort.Untracked?))
  {
  }

  lemma {:induction false} EntriesAppend(es: seq<ExchangePosition>, internal: map<string, InternalPosition>, c: Class)
    requires es != []
    ensures EntriesOf(es, internal, c)
         == AddIf(EntriesOf(es[..|es| - 1], internal, c), es[|es| - 1], Classify(es[|es| - 1], internal) == c)
  {
  }

  lemma {:induction false} EntriesClassified(es: seq<ExchangePosition>, internal: map<string, InternalPosition>,
                                             c: Class)
    ensures forall e :: e in EntriesOf(es, internal, c) <==> e in es && Classify(e, internal) == c
  {
    if es != [] {
      EntriesClassified(es[..|es| - 1], internal, c);
      assert es == es[..|es| - 1] + [es[|es| - 1]];
    }
  }

  /** The i-th match describes the i-th matched entry. */
  lemma {:induction false} MatchesDescribeEntries(es: seq<ExchangePosition>, internal: map<string, InternalPosition>)
    ensures |MatchesIn(es, internal)| == |EntriesOf(es, internal, Matched)|
    ensures forall i :: 0 <= i < |MatchesIn(es, internal)| ==>
              var e := EntriesOf(es, internal, Matched)[i];
              e.marketSlug in internal && MatchesIn(es, internal)[i] == MatchOf(e, internal[e.marketSlug])
  {
    if es != [] {
      MatchesDescribeEntries(es[..|es| - 1], internal);
    }
  }

  lemma {:induction false} SideMismatchesAre(es: seq<ExchangePosition>, internal: map<string, InternalPosition>,
                                             config: ReconciliationConfig)
    ensures |SideMismatches(FindingsIn(es, internal, config))| == |EntriesOf(es, internal, WrongSide)|
    ensures forall i :: 0 <= i < |EntriesOf(es, internal, WrongSide)| ==>
              SideMismatches(FindingsIn(es, internal, config))[i].marketSlug
              == EntriesOf(es, internal, WrongSide)[i].marketSlug
  {
    if es != [] {
      var init, e := es[..|es| - 1], es[|es| - 1];
      SideMismatchesAre(init, internal, config);
      SideMismatchesAppend(FindingsIn(init, internal, config), FindingsOf(e, internal, config));
    }
  }

  function SideMismatches(ds: seq<Discrepancy>): seq<Discrepancy> {
    if ds == [] then []
    else SideMismatches(ds[..|ds| - 1]) + (if ds[|ds| - 1].kind.SideMismatch? then [ds[|ds| - 1]] else [])
  }

  lemma SideMismatchesAppend(ds: seq<Discrepancy>, more: seq<Discrepancy>)
    requires |more| <= 1
    ensures SideMismatches(ds + more)
         == SideMismatches(ds) + (if more != [] && more[0].kind.SideMismatch? then more else [])
  {
    if more == [] {
      assert ds + more == ds;
    } else {
      assert (ds + more)[..|ds|] == ds;
      assert more == [more[0]];
    }
  }

  lemma {:induction false} SideMismatchesSkip(ds: seq<Discrepancy>, more: seq<Discrepancy>)
    requires forall d :: d in more ==> !d.kind.SideMismatch?
    ensures SideMismatches(ds + more) == SideMismatches(ds)
  {
    if more == [] {
      assert ds + more == ds;
    } else {
      var init := more[..|more| - 1];
      SideMismatchesSkip(ds, init);
      assert more[|more| - 1] in more;
      assert (ds + more)[..|ds + more| - 1] == ds + init;
    }
  }

  predicate HasCritical(ds: seq<Discrepancy>) {
    exists d :: d in ds && d.severity.Critical?
  }

  predicate SomeAlarming(es: seq<ExchangePosition>, internal: map<string, InternalPosition>,
                         config: ReconciliationConfig) {
    exists e :: e in es && Alarming(e, internal, config)
  }

  lemma CriticalJoin(a: seq<Discrepancy>, b: seq<Discrepancy>)
    ensures HasCritical(a + b) <==> HasCritical(a) || HasCritical(b)
  {
    assert forall d :: d in a + b <==> d in a || d in b;
  }

  lemma AlarmingAppend(es: seq<ExchangePosition>, e: ExchangePosition, internal: map<string, InternalPosition>,
                       config: ReconciliationConfig)
    ensures SomeAlarming(es + [e], internal, config)
       <==> SomeAlarming(es, internal, config) || Alarming(e, internal, config)
  {
    assert forall x :: x in es + [e] <==> x in es || x == e;
  }

  lemma CriticalEntry(e: ExchangePosition, internal: map<string, InternalPosition>, config: ReconciliationConfig)
    ensures HasCritical(FindingsOf(e, internal, config)) <==> Alarming(e, internal, config)
  {
    if Alarming(e, internal, config) {
      assert FindingsOf(e, internal, config)[0] in FindingsOf(e, internal, config);
    }
  }

  lemma {:induction false} CriticalFindings(es: seq<ExchangePosition>, internal: map<string, InternalPosition>,
                                            config: ReconciliationConfig)
    ensures HasCritical(FindingsIn(es, internal, config)) <==> SomeAlarming(es, internal, config)
  {
    if es != [] {
      var init, e := es[..|es| - 1], es[|es| - 1];
      CriticalFindings(init, internal, config);
      CriticalEntry(e, internal, config);
      CriticalJoin(FindingsIn(init, internal, config), FindingsOf(e, internal, config));
      AlarmingAppend(init, e, internal, config);
      assert es == init + [e];
    }
  }

  /**
   * A report partitions the exchange's list: each entry is matched, on the wrong side or unknown, never two of these;
   * `internal_only` lists the markets the exchange does not show, once each; and trading pauses, when configured to,
   * exactly if some entry is alarming.
   */
  lemma {:induction false} ReportMeaning(r: Report, es: seq<ExchangePosition>, internal: map<string, InternalPosition>,
                                         config: ReconciliationConfig)
    requires IsReport(r, es, internal, config)
    ensures multiset(es) == multiset(EntriesOf(es, internal, Matched)) + multiset(EntriesOf(es, internal, WrongSide))
                            + multiset(r.exchangeOnly)
    ensures |r.matched| == |EntriesOf(es, internal, Matched)|
    ensures |SideMismatches(r.discrepancies)| == |EntriesOf(es, internal, WrongSide)|
    ensures |es| == |r.matched| + |SideMismatches(r.discrepancies)| + |r.exchangeOnly|
    ensures forall m :: m in r.internalOnly <==> m in internal && forall e :: e in es ==> e.marketSlug != m
    ensures Distinct(r.internalOnly)
    ensures HasCritical(r.discrepancies) <==> SomeAlarming(es, internal, config)
  {
    EntriesPartition(es, internal);
    MatchesDescribeEntries(es, internal);
    PartitionCounts(es, internal);
    InternalOnlyMeaning(r.internalOnly, es, internal);
    SideMismatchesAre(es, internal, config);
    CriticalFindings(es, internal, config);
    MissingAddsWarnings(FindingsIn(es, internal, config), r.internalOnly);
  }

  /** The findings about unshown markets are neither side mismatches nor critical. */
  lemma {:induction false} MissingAddsWarnings(ds: seq<Discrepancy>, internalOnly: seq<string>)
    ensures SideMismatches(ds + MissingIn(internalOnly)) == SideMismatches(ds)
    ensures HasCritical(ds + MissingIn(internalOnly)) <==> HasCritical(ds)
  {
    assert forall d :: d in MissingIn(internalOnly) ==> d.severity.Warning? && !d.kind.SideMismatch?;
    CriticalJoin(ds, MissingIn(internalOnly));
    SideMismatchesSkip(ds, MissingIn(internalOnly));
  }

  lemma {:induction false} PartitionCounts(es: seq<ExchangePosition>, internal: map<string, InternalPosition>)
    ensures |es| == |EntriesOf(es, internal, Matched)| + |EntriesOf(es, internal, WrongSide)|
                    + |EntriesOf(es, internal, Untracked)|
  {
    EntriesPartition(es, internal);
    assert |multiset(es)| == |es|;
  }

  lemma InternalOnlyMeaning(internalOnly: seq<string>, es: seq<ExchangePosition>,
                            internal: map<string, InternalPosition>)
    requires Enumerates(internalOnly, internal.Keys - Markets(es))
    ensures forall m :: m in internalOnly <==> m in internal && forall e :: e in es ==> e.marketSlug != m
  {
    assert forall e :: e in es ==> e.marketSlug in Markets(es);
  }

  // ---------------------------------------------------------------------------------------------
  // Every finding, in the figures of its entry
  // ---------------------------------------------------------------------------------------------

  /** The sizes differ by this percentage of the tracked one; against nothing tracked, any size differs by all of it. */
  predicate OffBy(exchangeSize: real, internalSize: real, threshold: real) {
    if internalSize > 0.0 then Abs(exchangeSize - internalSize) * 100.0 >= threshold * internalSize
    else (if exchangeSize > 0.0 then 100.0 else 0.0) >= threshold
  }

  /** The finding one entry calls for: critical if unknown or on the wrong side, else as far as its size is off. */
  predicate CallsFor(e: ExchangePosition, internal: map<string, InternalPosition>, config: ReconciliationConfig,
                     d: Discrepancy) {
    if e.marketSlug !in internal then
      d == Discrepancy(e.marketSlug, MissingInternally, e.size, 0.0, Critical)
    else
      var i := internal[e.marketSlug];
      if e.side != i.side then
        d == Discrepancy(e.marketSlug, SideMismatch, if e.side.Yes? then 1.0 else 0.0, if i.side.Yes? then 1.0 else 0.0,
                         Critical)
      else
        && d == Discrepancy(e.marketSlug, SizeMismatch, e.size, i.size, d.severity)
        && (d.severity.Critical? <==> OffBy(e.size, i.size, config.criticalThresholdPct))
        && (d.severity.Warning? <==>
            !OffBy(e.size, i.size, config.criticalThresholdPct) && OffBy(e.size, i.size, config.warningThresholdPct))
        && !d.severity.Minor?
  }

  lemma PctExactly(exchangeSize: real, internalSize: real, threshold: real)
    ensures SizeDiffPct(exchangeSize, internalSize) >= threshold <==> OffBy(exchangeSize, internalSize, threshold)
  {
    if internalSize > 0.0 { CrossPct(Abs(exchangeSize - internalSize), internalSize, threshold); }
  }

  lemma CrossPct(gap: real, size: real, threshold: real)
    requires size > 0.0
    ensures gap / size * 100.0 * size == gap * 100.0
    ensures gap / size * 100.0 >= threshold <==> gap * 100.0 >= threshold * size
  {
    var ratio := gap / size;
    assert ratio * size == gap;
    var pct := ratio * 100.0;
    assert pct * size == 100.0 * (ratio * size);
    ScaleComparison(pct, threshold, size);
  }

  lemma EntryFinding(e: ExchangePosition, internal: map<string, InternalPosition>, config: ReconciliationConfig,
                     d: Discrepancy)
    ensures d in FindingsOf(e, internal, config) <==> CallsFor(e, internal, config, d)
  {
    if e.marketSlug in internal {
      PctExactly(e.size, internal[e.marketSlug].size, config.criticalThresholdPct);
      PctExactly(e.size, internal[e.marketSlug].size, config.warningThresholdPct);
    }
  }

  lemma {:induction false} EntryFindings(es: seq<ExchangePosition>, internal: map<string, InternalPosition>,
                                         config: ReconciliationConfig, d: Discrepancy)
    ensures d in FindingsIn(es, internal, config) <==> exists e :: e in es && CallsFor(e, internal, config, d)
  {
    if es != [] {
      var init, e := es[..|es| - 1], es[|es| - 1];
      EntryFindings(init, internal, config, d);
      EntryFinding(e, internal, config, d);
      assert es == init + [e];
    }
  }

  /** A report finds exactly what its entries call for, and a warning for each tracked market no entry shows. */
  lemma {:induction false} FindingsExactly(r: Report, es: seq<ExchangePosition>,
                                           internal: map<string, InternalPosition>, config: ReconciliationConfig,
                                           d: Discrepancy)
    requires IsReport(r, es, internal, config)
    ensures d in r.discrepancies <==>
              || (exists e :: e in es && CallsFor(e, internal, config, d))
              || (&& d == Discrepancy(d.marketSlug, MissingOnExchange, 0.0, 1.0, Warning)
                  && d.marketSlug in internal && forall e :: e in es ==> e.marketSlug != d.marketSlug)
  {
    EntryFindings(es, internal, config, d);
    InternalOnlyMeaning(r.internalOnly, es, internal);
    MissingMember(r.internalOnly, d);
  }

  lemma MissingMember(internalOnly: seq<string>, d: Discrepancy)
    ensures d in MissingIn(internalOnly)
       <==> d == Discrepancy(d.marketSlug, MissingOnExchange, 0.0, 1.0, Warning) && d.marketSlug in internalOnly
  {
    if d.marketSlug in internalOnly {
      var i :| 0 <= i < |internalOnly| && internalOnly[i] == d.marketSlug;
      assert MissingIn(internalOnly)[i] == MissingFinding(d.marketSlug);
    }
  }

  /** The figures of a match: both sizes, their difference, and that difference as a percentage of the tracked size. */
  lemma MatchFigures(e: ExchangePosition, i: InternalPosition)
    ensures var m := MatchOf(e, i);
            && m.marketSlug == e.marketSlug && m.exchangeSize == e.size && m.internalSize == i.size
            && m.sizeDiff == (if e.size >= i.size then e.size - i.size else i.size - e.size)
            && (i.size > 0.0 ==> m.sizeDiffPct * i.size == m.sizeDiff * 100.0)
            && (i.size <= 0.0 ==> m.sizeDiffPct == if e.size > 0.0 then 100.0 else 0.0)
  {
    if i.size > 0.0 { CrossPct(Abs(e.size - i.size), i.size, 0.0); }
  }

  // ---------------------------------------------------------------------------------------------
  // Auto-correct
  // ---------------------------------------------------------------------------------------------

  function DollarValue(e: ExchangePosition): real { e.size * e.currentPrice }

  /** The exposure map after auto-correct: for each market, the last entry's dollar value. */
  function Corrected(es: seq<ExchangePosition>): map<string, real> {
    if es == [] then map[]
    else
      var e := es[|es| - 1];
      Corrected(es[..|es| - 1])[e.marketSlug := DollarValue(e)]
  }

  lemma CorrectedGrows(es: seq<ExchangePosition>, i: nat)
    requires i < |es|
    ensures Corrected(es[..i + 1]) == Corrected(es[..i])[es[i].marketSlug := DollarValue(es[i])]
  {
    assert es[..i + 1][..i] == es[..i];
  }

  lemma {:induction false} CorrectedKeys(es: seq<ExchangePosition>)
    ensures Corrected(es).Keys == Markets(es)
  {
    if es != [] {
      CorrectedKeys(es[..|es| - 1]);
      assert es == es[..|es| - 1] + [es[|es| - 1]];
    }
  }

  /** Re-running on the same list after auto-correct finds nothing on one side only. */
  lemma {:induction false} AutoCorrectClosesGaps(es: seq<ExchangePosition>, config: ReconciliationConfig, r: Report)
    requires IsReport(r, es, BuildInternalPositions(Corrected(es)), config)
    ensures r.exchangeOnly == [] && r.internalOnly == []
  {
    var internal := BuildInternalPositions(Corrected(es));
    CorrectedKeys(es);
    EntriesClassified(es, internal, Untracked);
    assert forall e :: e in es ==> e.marketSlug in Markets(es);
    assert internal.Keys - Markets(es) == {};
    FirstEnumerated(r.internalOnly, {});
    FirstElement(r.exchangeOnly);
  }

  lemma FirstElement<T>(s: seq<T>)
    ensures s != [] ==> s[0] in s
  {
  }

  /** The last entry of a market. */
  function LastFor(es: seq<ExchangePosition>, market: string): ExchangePosition
    requires market in Markets(es)
  {
    var init, e := es[..|es| - 1], es[|es| - 1];
    assert es == init + [e];
    if e.marketSlug == market then e else LastFor(init, market)
  }

  lemma {:induction false} CorrectedIsLast(es: seq<ExchangePosition>, market: string)
    requires market in Markets(es)
    ensures market in Corrected(es) && Corrected(es)[market] == DollarValue(LastFor(es, market))
  {
    assert es == es[..|es| - 1] + [es[|es| - 1]];
    if es[|es| - 1].marketSlug != market {
      CorrectedIsLast(es[..|es| - 1], market);
    }
  }

  /** After auto-correct an entry is off: a No position, or too far from its market's last entry in dollars. */
  predicate OffCorrected(e: ExchangePosition, es: seq<ExchangePosition>, config: ReconciliationConfig)
    requires e in es
  {
    e.side.No? || SizeDiffPct(e.size, DollarValue(LastFor(es, e.marketSlug))) >= config.criticalThresholdPct
  }

  /** Re-running after auto-correct still has a critical finding exactly if some entry is off in this sense. */
  lemma {:induction false} AutoCorrectConvergesExactly(es: seq<ExchangePosition>, config: ReconciliationConfig,
                                                       r: Report)
    requires IsReport(r, es, BuildInternalPositions(Corrected(es)), config)
    ensures HasCritical(r.discrepancies) <==> exists e :: e in es && OffCorrected(e, es, config)
  {
    ReportMeaning(r, es, BuildInternalPositions(Corrected(es)), config);
    forall e | e in es
      ensures Alarming(e, BuildInternalPositions(Corrected(es)), config) <==> OffCorrected(e, es, config)
    {
      CorrectedIsLast(es, e.marketSlug);
    }
  }

  /**
   * The condition for an entry that is its market's last: a No position; or one priced away from a dollar by the
   * critical percentage or more; or, if it is worth nothing, one that any threshold up to all or nothing catches.
   */
  predicate OffUnit(e: ExchangePosition, config: ReconciliationConfig) {
    || e.side.No?
    || (if DollarValue(e) > 0.0 then
          Abs(1.0 - e.currentPrice) * 100.0 >= config.criticalThresholdPct * Abs(e.currentPrice)
        else
          (if e.size > 0.0 then 100.0 else 0.0) >= config.criticalThresholdPct)
  }

  /**
   * The two sides of the comparison are in different units: after auto-correct, an entry that is the last of its market
   * is off by its price alone, whatever its size. With one entry per market this decides the whole re-run.
   */
  lemma {:induction false} AutoCorrectNeedsUnitPrices(es: seq<ExchangePosition>, config: ReconciliationConfig,
                                                      r: Report)
    requires IsReport(r, es, BuildInternalPositions(Corrected(es)), config)
    ensures forall e :: e in es && LastFor(es, e.marketSlug) == e ==>
              (OffCorrected(e, es, config) <==> OffUnit(e, config))
    ensures (forall e :: e in es ==> LastFor(es, e.marketSlug) == e) ==>
              (HasCritical(r.discrepancies) <==> exists e :: e in es && OffUnit(e, config))
  {
    AutoCorrectConvergesExactly(es, config, r);
    forall e | e in es && LastFor(es, e.marketSlug) == e ensures OffCorrected(e, es, config) <==> OffUnit(e, config) {
      OffOwnValue(e, config);
    }
  }

  lemma OffOwnValue(e: ExchangePosition, config: ReconciliationConfig)
    ensures e.side.No? || SizeDiffPct(e.size, DollarValue(e)) >= config.criticalThresholdPct <==> OffUnit(e, config)
  {
    GapAtValue(e.size, e.currentPrice, DollarValue(e), config.criticalThresholdPct);
  }

  lemma GapAtValue(s: real, p: real, value: real, threshold: real)
    requires value == s * p
    ensures SizeDiffPct(s, value) >= threshold <==>
              if value > 0.0 then Abs(1.0 - p) * 100.0 >= threshold * Abs(p)
              else (if s > 0.0 then 100.0 else 0.0) >= threshold
  {
    if value > 0.0 {
      RelativeGap(s, p, value, threshold);
    }
  }

  /** The size difference of `s` shares against `s * p` dollars, as a percentage of the latter, depends on `p` alone. */
  lemma RelativeGap(s: real, p: real, value: real, threshold: real)
    requires value == s * p > 0.0
    ensures SizeDiffPct(s, value) >= threshold <==> Abs(1.0 - p) * 100.0 >= threshold * Abs(p)
  {
    var size, price := Abs(s), Abs(p);
    AbsProduct(s, p);
    AbsProduct(s, 1.0 - p);
    assert s - value == s * (1.0 - p);
    var ratio := Abs(s - value) / value;
    assert ratio * value == size * Abs(1.0 - p);
    assert ratio * price == Abs(1.0 - p) by {
      assert size * (ratio * price) == ratio * value;
      CancelFactor(size, ratio * price, Abs(1.0 - p));
    }
    ScaleComparison(ratio * 100.0, threshold, price);
  }

  lemma AbsProduct(a: real, b: real)
    ensures Abs(a * b) == Abs(a) * Abs(b)
    ensures a * b > 0.0 ==> Abs(a) > 0.0 && Abs(b) > 0.0
  {
    if a >= 0.0 && b >= 0.0 {
      assert a * b >= 0.0;
    } else if a >= 0.0 {
      assert a * -b >= 0.0;
    } else if b >= 0.0 {
      assert -a * b >= 0.0;
    } else {
      assert -a * -b >= 0.0;
    }
  }

  lemma CancelFactor(s: real, a: real, b: real)
    requires s > 0.0 && s * a == s * b
    ensures a == b
  {
    assert s * a / s == a && s * b / s == b;
  }

  lemma ScaleComparison(a: real, b: real, k: real)
    requires k > 0.0
    ensures a >= b <==> a * k >= b * k
  {
    if a >= b { assert (a - b) * k >= 0.0; } else { assert (b - a) * k > 0.0; }
  }
}
