/** The control bot's event notifier: polling a bounded tail with a set of seen ids that is itself truncated. */
module Notifier {
  import opened Types
  import opened Collections
  import opened EventLog

  const POLL_LIMIT: nat := 120
  const MAX_SEEN: nat := 5000

  predicate Notable(e: Event) { !e.kind.Info? }

  function Ids(events: seq<Event>): set<nat> {
    set e | e in events :: e.id
  }

  datatype NotifierState = NotifierState(seen: set<nat>, primed: bool)

  /** The outcome of walking a window: the first failed send aborts the walk, its id already marked as seen. */
  datatype Delivery = Delivery(seen: set<nat>, sent: seq<Event>, failedAt: Option<nat>)

  function Deliver(seen: set<nat>, events: seq<Event>, failing: set<nat>): Delivery
    decreases |events|
  {
    if events == [] then Delivery(seen, [], None)
    else
      var e := events[0];
      if e.id in seen then Deliver(seen, events[1..], failing)
      else if !Notable(e) then Deliver(seen + {e.id}, events[1..], failing)
      else if e.id in failing then Delivery(seen + {e.id}, [], Some(e.id))
      else
        var rest := Deliver(seen + {e.id}, events[1..], failing);
        rest.(sent := [e] + rest.sent)
  }

  function Poll(n: NotifierState, window: seq<Event>, failing: set<nat>): (NotifierState, Delivery) {
    if !n.primed then (NotifierState(n.seen + Ids(window), true), Delivery(n.seen + Ids(window), [], None))
    else
      var d := Deliver(n.seen, window, failing);
      var seen := if d.failedAt.None? && |d.seen| > MAX_SEEN then Ids(window) else d.seen;
      (NotifierState(seen, true), d)
  }

  class EventNotifier {
    var seenEventIds: set<nat>
    var notifierPrimed: bool

    ghost function View(): NotifierState
      reads this
    {
      NotifierState(seenEventIds, notifierPrimed)
    }

    constructor ()
      ensures View() == NotifierState({}, false)
    {
      seenEventIds, notifierPrimed := {}, false;
    }

    /** One poll; `failing` are the ids whose message the chat service refuses this time. */
    method PollOnce(window: seq<Event>, failing: set<nat>) returns (sent: seq<Event>)
      modifies this
      ensures View() == Poll(old(View()), window, failing).0
      ensures sent == Poll(old(View()), window, failing).1.sent
    {
      sent := [];
      if !notifierPrimed {
        for i := 0 to |window|
          invariant seenEventIds == old(seenEventIds) + Ids(window[..i])
          invariant notifierPrimed == old(notifierPrimed)
        {
          assert window[..i + 1] == window[..i] + [window[i]];
          seenEventIds := seenEventIds + {window[i].id};
        }
        assert window[..|window|] == window;
        notifierPrimed := true;
        return;
      }
      ghost var all := Deliver(seenEventIds, window, failing);
      for i := 0 to |window|
        invariant notifierPrimed
        invariant var rest := Deliver(seenEventIds, window[i..], failing);
                  all.seen == rest.seen && all.sent == sent + rest.sent && all.failedAt == rest.failedAt
      {
        var event := window[i];
        assert window[i..][1..] == window[i + 1..];
        if event.id !in seenEventIds {
          seenEventIds := seenEventIds + {event.id};
          if Notable(event) {
            if event.id in failing {
              return;
            }
            sent := sent + [event];
          }
        }
      }
      if |seenEventIds| > MAX_SEEN {
        seenEventIds := Ids(window);
      }
    }
  }

  // ---------------------------------------------------------------------------------------------
  // Runs of one engine and one bot
  // ---------------------------------------------------------------------------------------------

  /**
   * The engine's log, the archive of earlier runs, the bot, and what the bot has sent. `primedAt`, `polledAt` and
   * `frontier` remember the log's length at priming and at the last poll, and how far that poll got; `lost` are the
   * ids whose send failed.
   */
  datatype World = World(
    archive: seq<Event>,
    log: seq<Event>,
    bot: NotifierState,
    sent: seq<Event>,
    primedAt: nat,
    polledAt: nat,
    frontier: nat,
    lost: set<nat>)

  datatype WorldStep = Append(kind: EventClass) | PollNow(failing: set<nat>)

  function Window(w: World): seq<Event> {
    TailOf(w.log, w.archive, POLL_LIMIT)
  }

  function NextWorld(w: World, step: WorldStep): World {
    match step
    case Append(c) => w.(log := w.log + [Event(|w.archive| + |w.log|, c)])
    case PollNow(failing) =>
      var (bot, d) := Poll(w.bot, Window(w), failing);
      var reached := if d.failedAt.Some? && |w.archive| <= d.failedAt.value < |w.archive| + |w.log|
                     then d.failedAt.value - |w.archive| + 1 else |w.log|;
      w.(bot := bot, sent := w.sent + d.sent, primedAt := if w.bot.primed then w.primedAt else |w.log|,
         polledAt := |w.log|, frontier := reached,
         lost := if d.failedAt.Some? then w.lost + {d.failedAt.value} else w.lost)
  }

  function RunWorld(w: World, steps: seq<WorldStep>): World
    decreases |steps|
  {
    if steps == [] then w else RunWorld(NextWorld(w, steps[0]), steps[1..])
  }

  function NewWorld(archive: seq<Event>): World {
    World(archive, [], NotifierState({}, false), [], 0, 0, 0, {})
  }

  /** The notable events at positions `a` up to `b` of the log. */
  function NotableBetween(log: seq<Event>, a: nat, b: nat): seq<Event>
    requires b <= |log|
    decreases b - a
  {
    if a >= b then []
    else if Notable(log[a]) then [log[a]] + NotableBetween(log, a + 1, b)
    else NotableBetween(log, a + 1, b)
  }

  lemma {:induction false} NotableSplit(log: seq<Event>, a: nat, b: nat, c: nat)
    requires a <= b <= c <= |log|
    ensures NotableBetween(log, a, c) == NotableBetween(log, a, b) + NotableBetween(log, b, c)
    decreases b - a
  {
    if a < b {
      NotableSplit(log, a + 1, b, c);
    }
  }

  lemma {:induction false} NotableOfLongerLog(log: seq<Event>, e: Event, a: nat, b: nat)
    requires b <= |log|
    ensures NotableBetween(log + [e], a, b) == NotableBetween(log, a, b)
    decreases b - a
  {
    if a < b {
      NotableOfLongerLog(log, e, a + 1, b);
    }
  }

  /** Fresh ids: archived events come first, and the log continues the numbering. */
  ghost predicate Numbered(w: World) {
    && (forall e :: e in w.archive ==> e.id < |w.archive|)
    && (forall i :: 0 <= i < |w.log| ==> w.log[i].id == |w.archive| + i)
  }

  function WindowStart(w: World, len: nat): nat {
    if len <= POLL_LIMIT then 0 else len - POLL_LIMIT
  }

  /**
   * Nothing past the frontier has been seen, and everything below it that a later window can still show has been.
   */
  ghost predicate Tracked(w: World) {
    && Numbered(w)
    && w.primedAt <= w.frontier <= w.polledAt <= |w.log|
    && (forall id :: id in w.bot.seen ==> id < |w.archive| + w.frontier)
    && (w.bot.primed ==>
        && (forall id :: |w.archive| + WindowStart(w, w.polledAt) <= id < |w.archive| + w.frontier ==> id in w.bot.seen)
        && (w.log == [] ==> Ids(LastN(w.archive, POLL_LIMIT)) <= w.bot.seen))
    && (!w.bot.primed ==> w.bot.seen == {} && w.sent == [])
  }

  /** The walk sends the notable events from position `from` on and marks all it passes, up to a failed send. */
  ghost predicate Walked(d: Delivery, log: seq<Event>, base: nat, seen: set<nat>, from: nat, failing: set<nat>) {
    match d.failedAt
    case None =>
      && d.sent == NotableBetween(log, from, |log|)
      && (forall id :: id in d.seen <==> id in seen || base + from <= id < base + |log|)
    case Some(f) =>
      && base + from <= f < base + |log| && f in failing && Notable(log[f - base])
      && d.sent == NotableBetween(log, from, f - base)
      && (forall id :: id in d.seen <==> id in seen || base + from <= id <= f)
  }

  /** Walking the log from position `k`, everything below `p` already seen and nothing from `p` on. */
  lemma {:induction false} DeliverFrom(log: seq<Event>, base: nat, seen: set<nat>, k: nat, p: nat, failing: set<nat>)
    requires forall i :: 0 <= i < |log| ==> log[i].id == base + i
    requires k <= |log| && p <= |log|
    requires forall id :: base + k <= id < base + p ==> id in seen
    requires forall id :: id in seen ==> id < base + p
    ensures Walked(Deliver(seen, log[k..], failing), log, base, seen, if k < p then p else k, failing)
    decreases |log| - k
  {
    if k < |log| {
      assert log[k..][0] == log[k] && log[k..][1..] == log[k + 1..];
      if k < p {
        DeliverFrom(log, base, seen, k + 1, p, failing);
      } else if Notable(log[k]) && base + k in failing {
        assert Walked(Delivery(seen + {base + k}, [], Some(base + k)), log, base, seen, k, failing);
      } else {
        DeliverFrom(log, base, seen + {base + k}, k + 1, k + 1, failing);
        WalkedOneMore(Deliver(seen + {base + k}, log[k + 1..], failing), log, base, seen, k, failing);
      }
    }
  }

  lemma WalkedOneMore(d: Delivery, log: seq<Event>, base: nat, seen: set<nat>, k: nat, failing: set<nat>)
    requires k < |log| && Walked(d, log, base, seen + {base + k}, k + 1, failing)
    ensures Walked(if Notable(log[k]) then d.(sent := [log[k]] + d.sent) else d, log, base, seen, k, failing)
  {
  }

  lemma {:induction false} DeliverNothingNew(seen: set<nat>, window: seq<Event>, failing: set<nat>)
    requires Ids(window) <= seen
    ensures Deliver(seen, window, failing) == Delivery(seen, [], None)
  {
    if window != [] {
      assert window[0].id in Ids(window);
      assert Ids(window[1..]) <= Ids(window);
      DeliverNothingNew(seen, window[1..], failing);
    }
  }

  /** Where a poll starts sending: at the frontier, or at the window's start if the frontier has fallen out. */
  function SendFrom(w: World): nat {
    if WindowStart(w, |w.log|) < w.frontier then w.frontier else WindowStart(w, |w.log|)
  }

  lemma WindowIds(w: World)
    requires Numbered(w) && w.log != []
    ensures forall id :: id in Ids(Window(w)) <==>
              |w.archive| + WindowStart(w, |w.log|) <= id < |w.archive| + |w.log|
  {
    var base, k := |w.archive|, WindowStart(w, |w.log|);
    assert Window(w) == w.log[k..];
    forall id | base + k <= id < base + |w.log| ensures id in Ids(Window(w)) {
      assert w.log[id - base] == Window(w)[id - base - k];
    }
    forall e | e in Window(w) ensures base + k <= e.id < base + |w.log| {
      var i :| 0 <= i < |Window(w)| && Window(w)[i] == e;
      assert e == w.log[k + i];
    }
  }

  /** One poll of a primed bot sends exactly the notable events of its part of the log, up to a failed send. */
  lemma {:induction false} PollSendsExactly(w: World, failing: set<nat>)
    requires Tracked(w) && w.bot.primed
    ensures SendFrom(w) <= |w.log|
    ensures Walked(Deliver(w.bot.seen, Window(w), failing), w.log, |w.archive|, w.bot.seen, SendFrom(w), failing)
  {
    if w.log == [] {
      DeliverNothingNew(w.bot.seen, Window(w), failing);
    } else {
      assert Window(w) == w.log[WindowStart(w, |w.log|)..];
      DeliverFrom(w.log, |w.archive|, w.bot.seen, WindowStart(w, |w.log|), w.frontier, failing);
    }
  }

  lemma PollTracked(w: World, failing: set<nat>)
    requires Tracked(w) && w.bot.primed
    ensures Tracked(NextWorld(w, PollNow(failing)))
  {
    PollSendsExactly(w, failing);
    if w.log == [] {
      DeliverNothingNew(w.bot.seen, Window(w), failing);
    } else {
      WindowIds(w);
    }
  }

  lemma PrimingTracked(w: World, failing: set<nat>)
    requires Tracked(w) && !w.bot.primed
    ensures Tracked(NextWorld(w, PollNow(failing)))
  {
    if w.log != [] {
      WindowIds(w);
    } else {
      forall e | e in Window(w) ensures e in w.archive {}
    }
  }

  lemma StepTracked(w: World, step: WorldStep)
    requires Tracked(w)
    ensures Tracked(NextWorld(w, step))
  {
    match step
    case Append(_) =>
    case PollNow(failing) =>
      if w.bot.primed { PollTracked(w, failing); } else { PrimingTracked(w, failing); }
  }

  // ---------------------------------------------------------------------------------------------
  // The set of seen ids
  // ---------------------------------------------------------------------------------------------

  lemma IdsSize(events: seq<Event>)
    ensures |Ids(events)| <= |events|
  {
    if events != [] {
      var init, e := events[..|events| - 1], events[|events| - 1];
      IdsSize(init);
      assert events == init + [e];
      assert Ids(events) == Ids(init) + {e.id};
    }
  }

  lemma {:induction false} DeliverSees(seen: set<nat>, events: seq<Event>, failing: set<nat>)
    ensures Deliver(seen, events, failing).failedAt.None? ==> Deliver(seen, events, failing).seen == seen + Ids(events)
    decreases |events|
  {
    if events == [] {
      assert seen + Ids(events) == seen;
    } else {
      var e, rest := events[0], events[1..];
      assert events == [e] + rest;
      assert Ids(events) == {e.id} + Ids(rest);
      DeliverSees(if e.id in seen then seen else seen + {e.id}, rest, failing);
    }
  }

  /**
   * A poll that no failed send cuts short leaves at most 5000 ids seen: all it had seen and all it was shown, unless
   * these are more than 5000, and then those it was shown.
   */
  lemma SeenAfterPoll(n: NotifierState, window: seq<Event>, failing: set<nat>)
    requires |window| <= POLL_LIMIT && n.primed && Poll(n, window, failing).1.failedAt.None?
    ensures var seen := Poll(n, window, failing).0.seen;
            && |seen| <= 5000
            && seen == if |n.seen + Ids(window)| <= 5000 then n.seen + Ids(window) else Ids(window)
  {
    DeliverSees(n.seen, window, failing);
    IdsSize(window);
  }

  // ---------------------------------------------------------------------------------------------
  // At most once, in order
  // ---------------------------------------------------------------------------------------------

  /** `s` lists notable events of `log` from positions in `[a, b)`, in log order, none repeated. */
  ghost predicate OrderedPick(s: seq<Event>, log: seq<Event>, base: nat, a: nat, b: nat) {
    && b <= |log|
    && (forall i :: 0 <= i < |s| ==> base + a <= s[i].id < base + b && s[i] == log[s[i].id - base] && Notable(s[i]))
    && (forall i, j :: 0 <= i < j < |s| ==> s[i].id < s[j].id)
  }

  lemma PickJoin(s: seq<Event>, t: seq<Event>, log: seq<Event>, base: nat, a: nat, b: nat, c: nat)
    requires OrderedPick(s, log, base, a, b) && OrderedPick(t, log, base, b, c) && a <= b <= c
    ensures OrderedPick(s + t, log, base, a, c)
  {
  }

  lemma {:induction false} NotableShape(log: seq<Event>, base: nat, a: nat, b: nat)
    requires a <= b <= |log| && forall i :: 0 <= i < |log| ==> log[i].id == base + i
    ensures OrderedPick(NotableBetween(log, a, b), log, base, a, b)
    decreases b - a
  {
    if a < b {
      var rest := NotableBetween(log, a + 1, b);
      NotableShape(log, base, a + 1, b);
      if Notable(log[a]) {
        PickCons(log, base, a, b, rest);
      } else {
        PickEarlier(log, base, a, b, rest);
      }
    }
  }

  lemma PickCons(log: seq<Event>, base: nat, a: nat, b: nat, rest: seq<Event>)
    requires a < b <= |log| && log[a].id == base + a && Notable(log[a]) && OrderedPick(rest, log, base, a + 1, b)
    ensures OrderedPick([log[a]] + rest, log, base, a, b)
  {
    var s := [log[a]] + rest;
    forall i | 0 <= i < |s|
      ensures base + a <= s[i].id < base + b && s[i] == log[s[i].id - base] && Notable(s[i])
    {
      assert i == 0 || s[i] == rest[i - 1];
    }
    forall i, j | 0 <= i < j < |s| ensures s[i].id < s[j].id {
      assert s[j] == rest[j - 1] && (i == 0 || s[i] == rest[i - 1]);
    }
  }

  lemma PickEarlier(log: seq<Event>, base: nat, a: nat, b: nat, rest: seq<Event>)
    requires OrderedPick(rest, log, base, a + 1, b)
    ensures OrderedPick(rest, log, base, a, b)
  {
  }

  /** Sent messages are notable log events from after priming, in log order, none repeated. */
  ghost predicate SentInOrderOnce(w: World) {
    OrderedPick(w.sent, w.log, |w.archive|, w.primedAt, w.frontier)
  }

  lemma StepInOrderOnce(w: World, step: WorldStep)
    requires Tracked(w) && SentInOrderOnce(w)
    ensures SentInOrderOnce(NextWorld(w, step))
  {
    match step
    case PollNow(failing) =>
      if w.bot.primed { PollInOrderOnce(w, failing); }
    case Append(c) =>
      PickOfLongerLog(w.sent, w.log, Event(|w.archive| + |w.log|, c), |w.archive|, w.primedAt, w.frontier);
  }

  lemma PollInOrderOnce(w: World, failing: set<nat>)
    requires Tracked(w) && SentInOrderOnce(w) && w.bot.primed
    ensures SentInOrderOnce(NextWorld(w, PollNow(failing)))
  {
    PollSendsExactly(w, failing);
    WalkInOrder(Deliver(w.bot.seen, Window(w), failing), w.sent, w.log, |w.archive|, w.bot.seen, w.primedAt, w.frontier,
                SendFrom(w), failing);
  }

  lemma WalkInOrder(d: Delivery, sent: seq<Event>, log: seq<Event>, base: nat, seen: set<nat>, a: nat, b: nat,
                    from: nat, failing: set<nat>)
    requires OrderedPick(sent, log, base, a, b) && a <= b <= from <= |log|
    requires forall i :: 0 <= i < |log| ==> log[i].id == base + i
    requires Walked(d, log, base, seen, from, failing)
    ensures OrderedPick(sent + d.sent, log, base, a,
                        if d.failedAt.None? then |log| else d.failedAt.value - base + 1)
  {
    var end := if d.failedAt.None? then |log| else d.failedAt.value - base;
    PickExtend(sent, log, base, a, b, from, end, if d.failedAt.None? then |log| else end + 1);
  }

  /** Sent so far up to the frontier, then every notable event of a later stretch. */
  lemma {:induction false} PickExtend(sent: seq<Event>, log: seq<Event>, base: nat, a: nat, b: nat, from: nat, end: nat,
                                      reached: nat)
    requires OrderedPick(sent, log, base, a, b) && a <= b <= from <= end <= reached <= |log|
    requires forall i :: 0 <= i < |log| ==> log[i].id == base + i
    ensures OrderedPick(sent + NotableBetween(log, from, end), log, base, a, reached)
  {
    NotableShape(log, base, from, end);
    PickWiden(sent, log, base, a, b, from);
    PickJoin(sent, NotableBetween(log, from, end), log, base, a, from, end);
    PickWiden(sent + NotableBetween(log, from, end), log, base, a, end, reached);
  }

  lemma PickWiden(s: seq<Event>, log: seq<Event>, base: nat, a: nat, b: nat, b': nat)
    requires OrderedPick(s, log, base, a, b) && b <= b' <= |log|
    ensures OrderedPick(s, log, base, a, b')
  {
  }

  lemma PickOfLongerLog(s: seq<Event>, log: seq<Event>, e: Event, base: nat, a: nat, b: nat)
    requires OrderedPick(s, log, base, a, b)
    ensures OrderedPick(s, log + [e], base, a, b)
  {
  }

  lemma {:induction false} RunInOrderOnce(w: World, steps: seq<WorldStep>)
    requires Tracked(w) && SentInOrderOnce(w)
    ensures Tracked(RunWorld(w, steps)) && SentInOrderOnce(RunWorld(w, steps))
    decreases |steps|
  {
    if steps != [] {
      StepTracked(w, steps[0]);
      StepInOrderOnce(w, steps[0]);
      RunInOrderOnce(NextWorld(w, steps[0]), steps[1..]);
    }
  }

  /** Over every run of a fresh bot, whatever sends fail and however often the seen set is cut, nothing is repeated. */
  lemma {:induction false} AtMostOnce(archive: seq<Event>, steps: seq<WorldStep>)
    requires forall e :: e in archive ==> e.id < |archive|
    ensures SentInOrderOnce(RunWorld(NewWorld(archive), steps))
  {
    RunInOrderOnce(NewWorld(archive), steps);
  }

  // ---------------------------------------------------------------------------------------------
  // Which events are lost
  // ---------------------------------------------------------------------------------------------

  /** The events whose id is not among the lost ones. */
  function Except(s: seq<Event>, lost: set<nat>): seq<Event> {
    if s == [] then []
    else Except(s[..|s| - 1], lost) + (if s[|s| - 1].id in lost then [] else [s[|s| - 1]])
  }

  lemma {:induction false} ExceptJoin(s: seq<Event>, t: seq<Event>, lost: set<nat>)
    ensures Except(s + t, lost) == Except(s, lost) + Except(t, lost)
  {
    if t == [] {
      assert s + t == s;
    } else {
      var init, last := t[..|t| - 1], if t[|t| - 1].id in lost then [] else [t[|t| - 1]];
      ExceptJoin(s, init, lost);
      assert (s + t)[..|s + t| - 1] == s + init && (s + t)[|s + t| - 1] == t[|t| - 1];
      Associative(Except(s, lost), Except(init, lost), last);
    }
  }

  lemma {:induction false} ExceptElsewhere(s: seq<Event>, lost: set<nat>, lost': set<nat>)
    requires forall i :: 0 <= i < |s| ==> (s[i].id in lost <==> s[i].id in lost')
    ensures Except(s, lost) == Except(s, lost')
  {
    if s != [] {
      ExceptElsewhere(s[..|s| - 1], lost, lost');
    }
  }

  lemma {:induction false} ExceptNothing(s: seq<Event>)
    ensures Except(s, {}) == s
  {
    if s != [] {
      ExceptNothing(s[..|s| - 1]);
      assert s == s[..|s| - 1] + [s[|s| - 1]];
    }
  }

  /** Whenever the primed bot polls, at most one window's worth of events lies past its frontier. */
  predicate Prompt(w: World, steps: seq<WorldStep>)
    decreases |steps|
  {
    steps == [] ||
    (&& (steps[0].PollNow? && w.bot.primed ==> |w.log| - w.frontier <= 120)
     && Prompt(NextWorld(w, steps[0]), steps[1..]))
  }

  /** What has been sent is what was notable up to the frontier, except the failed sends. */
  ghost predicate SentAllButLost(w: World) {
    && w.frontier <= |w.log|
    && w.sent == Except(NotableBetween(w.log, w.primedAt, w.frontier), w.lost)
    && (forall id :: id in w.lost ==> |w.archive| <= id < |w.archive| + w.frontier)
    && (!w.bot.primed ==> w.lost == {} && w.primedAt == w.frontier)
  }

  lemma {:induction false} IdsBetween(log: seq<Event>, base: nat, a: nat, b: nat)
    requires a <= b <= |log| && (forall i :: 0 <= i < |log| ==> log[i].id == base + i)
    ensures forall i :: 0 <= i < |NotableBetween(log, a, b)| ==> base + a <= NotableBetween(log, a, b)[i].id < base + b
  {
    NotableShape(log, base, a, b);
  }

  /** A walk from the frontier extends what has been sent. */
  lemma {:induction false} SendFurther(log: seq<Event>, base: nat, lost: set<nat>, a: nat, b: nat, c: nat)
    requires a <= b <= c <= |log| && (forall i :: 0 <= i < |log| ==> log[i].id == base + i)
    requires forall id :: id in lost ==> id < base + b
    ensures Except(NotableBetween(log, a, b), lost) + NotableBetween(log, b, c)
         == Except(NotableBetween(log, a, c), lost)
  {
    NotableSplit(log, a, b, c);
    IdsBetween(log, base, b, c);
    ExceptElsewhere(NotableBetween(log, b, c), lost, {});
    ExceptNothing(NotableBetween(log, b, c));
    ExceptJoin(NotableBetween(log, a, b), NotableBetween(log, b, c), lost);
  }

  /** A failed send adds its event to the stretch and to the lost ones. */
  lemma {:induction false} LoseNext(log: seq<Event>, base: nat, lost: set<nat>, a: nat, c: nat)
    requires a <= c < |log| && (forall i :: 0 <= i < |log| ==> log[i].id == base + i) && Notable(log[c])
    ensures Except(NotableBetween(log, a, c + 1), lost + {base + c}) == Except(NotableBetween(log, a, c), lost)
  {
    NotableSplit(log, a, c, c + 1);
    assert NotableBetween(log, c, c + 1) == [log[c]];
    ExceptLast(NotableBetween(log, a, c), log[c], lost + {base + c});
    IdsBetween(log, base, a, c);
    ExceptElsewhere(NotableBetween(log, a, c), lost, lost + {base + c});
  }

  lemma {:induction false} ExceptLast(s: seq<Event>, e: Event, lost: set<nat>)
    requires e.id in lost
    ensures Except(s + [e], lost) == Except(s, lost)
  {
    assert (s + [e])[..|s|] == s;
  }

  lemma {:induction false} WalkExtends(d: Delivery, sent: seq<Event>, log: seq<Event>, base: nat, seen: set<nat>,
                                       lost: set<nat>, a: nat, b: nat, failing: set<nat>)
    requires a <= b <= |log| && (forall i :: 0 <= i < |log| ==> log[i].id == base + i)
    requires (forall id :: id in lost ==> id < base + b) && sent == Except(NotableBetween(log, a, b), lost)
    requires Walked(d, log, base, seen, b, failing)
    ensures d.failedAt.None? ==> sent + d.sent == Except(NotableBetween(log, a, |log|), lost)
    ensures d.failedAt.Some? ==>
              sent + d.sent
              == Except(NotableBetween(log, a, d.failedAt.value - base + 1), lost + {d.failedAt.value})
  {
    var end := if d.failedAt.None? then |log| else d.failedAt.value - base;
    SendFurther(log, base, lost, a, b, end);
    if d.failedAt.Some? {
      LoseNext(log, base, lost, a, end);
    }
  }

  lemma {:induction false} PollAllButLost(w: World, failing: set<nat>)
    requires Tracked(w) && SentAllButLost(w) && w.bot.primed && |w.log| - w.frontier <= POLL_LIMIT
    ensures SentAllButLost(NextWorld(w, PollNow(failing)))
  {
    PollSendsExactly(w, failing);
    assert SendFrom(w) == w.frontier;
    AllButLostAfter(w, Deliver(w.bot.seen, Window(w), failing), NextWorld(w, PollNow(failing)), failing);
  }

  lemma {:induction false} AllButLostAfter(w: World, d: Delivery, w': World, failing: set<nat>)
    requires Tracked(w) && SentAllButLost(w)
    requires Walked(d, w.log, |w.archive|, w.bot.seen, w.frontier, failing)
    requires w' == w.(bot := w'.bot, sent := w.sent + d.sent, polledAt := w'.polledAt, frontier := w'.frontier,
                      lost := w'.lost) && w'.bot.primed
    requires d.failedAt.None? ==> w'.frontier == |w.log| && w'.lost == w.lost
    requires d.failedAt.Some? ==>
               w'.frontier == d.failedAt.value - |w.archive| + 1 && w'.lost == w.lost + {d.failedAt.value}
    ensures SentAllButLost(w')
  {
    WalkExtends(d, w.sent, w.log, |w.archive|, w.bot.seen, w.lost, w.primedAt, w.frontier, failing);
  }

  lemma {:induction false} PromptRun(w: World, steps: seq<WorldStep>)
    requires Tracked(w) && SentAllButLost(w) && Prompt(w, steps)
    ensures SentAllButLost(RunWorld(w, steps))
    decreases |steps|
  {
    if steps != [] {
      var w' := NextWorld(w, steps[0]);
      StepTracked(w, steps[0]);
      if steps[0].Append? {
        NotableOfLongerLog(w.log, w'.log[|w.log|], w.primedAt, w.frontier);
      } else if w.bot.primed {
        PollAllButLost(w, steps[0].failing);
      }
      PromptRun(w', steps[1..]);
    }
  }

  /**
   * A failed send is never retried: from a fresh bot, as long as at most a window's worth of events lies past the
   * frontier at each poll, what has been sent is exactly the notable events between priming and the frontier, in order,
   * except those whose send failed.
   */
  lemma {:induction false} FailedSendsAreLost(archive: seq<Event>, steps: seq<WorldStep>)
    requires forall e :: e in archive ==> e.id < |archive|
    requires Prompt(NewWorld(archive), steps)
    ensures var w := RunWorld(NewWorld(archive), steps);
            && w.primedAt <= w.frontier <= |w.log|
            && w.sent == Except(NotableBetween(w.log, w.primedAt, w.frontier), w.lost)
            && SentInOrderOnce(w)
  {
    PromptRun(NewWorld(archive), steps);
    RunInOrderOnce(NewWorld(archive), steps);
  }

  lemma {:induction false} NotableMember(log: seq<Event>, a: nat, b: nat, e: Event)
    requires b <= |log|
    ensures e in NotableBetween(log, a, b) <==> Notable(e) && exists p :: a <= p < b && log[p] == e
    decreases b - a
  {
    if a < b {
      NotableMember(log, a + 1, b, e);
    }
  }

  lemma {:induction false} ExceptMember(s: seq<Event>, lost: set<nat>, e: Event)
    ensures e in Except(s, lost) <==> e in s && e.id !in lost
  {
    if s != [] {
      ExceptMember(s[..|s| - 1], lost, e);
      assert s == s[..|s| - 1] + [s[|s| - 1]];
    }
  }

  /**
   * Event by event: under the same condition, one logged between priming and the frontier has been sent exactly if it
   * is of one of the four classes that matter and its own send did not fail, and no other event has been sent.
   */
  lemma {:induction false} EventSentExactly(archive: seq<Event>, steps: seq<WorldStep>, e: Event)
    requires forall x :: x in archive ==> x.id < |archive|
    requires Prompt(NewWorld(archive), steps)
    ensures var w := RunWorld(NewWorld(archive), steps);
            && w.primedAt <= w.frontier <= |w.log|
            && (e in w.sent <==>
                && (exists p :: w.primedAt <= p < w.frontier && w.log[p] == e)
                && e.kind in {Critical, Trade, Risk, Rotation}
                && e.id !in w.lost)
  {
    var w := RunWorld(NewWorld(archive), steps);
    FailedSendsAreLost(archive, steps);
    NotableMember(w.log, w.primedAt, w.frontier, e);
    ExceptMember(NotableBetween(w.log, w.primedAt, w.frontier), w.lost, e);
  }

  // ---------------------------------------------------------------------------------------------
  // Exactly once
  // ---------------------------------------------------------------------------------------------

  /** Every send succeeds and at most one window's worth of events arrives between polls. */
  predicate Timely(w: World, steps: seq<WorldStep>)
    decreases |steps|
  {
    steps == [] ||
    (&& (steps[0].PollNow? ==> steps[0].failing == {} && (w.bot.primed ==> |w.log| - w.polledAt <= 120))
     && Timely(NextWorld(w, steps[0]), steps[1..]))
  }

  /** A timely run is prompt, loses nothing, and leaves no frontier behind. */
  lemma {:induction false} TimelyRun(w: World, steps: seq<WorldStep>)
    requires Tracked(w) && w.frontier == w.polledAt && w.lost == {} && Timely(w, steps)
    ensures Prompt(w, steps)
    ensures RunWorld(w, steps).frontier == RunWorld(w, steps).polledAt && RunWorld(w, steps).lost == {}
    decreases |steps|
  {
    if steps != [] {
      StepTracked(w, steps[0]);
      if steps[0].PollNow? && w.bot.primed {
        PollSendsExactly(w, {});
      }
      TimelyRun(NextWorld(w, steps[0]), steps[1..]);
    }
  }

  /** From a fresh bot, a timely run sends exactly the notable events between priming and the last poll, in order. */
  lemma {:induction false} ExactlyOnce(archive: seq<Event>, steps: seq<WorldStep>)
    requires forall e :: e in archive ==> e.id < |archive|
    requires Timely(NewWorld(archive), steps)
    ensures var w := RunWorld(NewWorld(archive), steps);
            && w.primedAt <= w.polledAt <= |w.log|
            && w.sent == NotableBetween(w.log, w.primedAt, w.polledAt)
            && SentInOrderOnce(w)
  {
    var w := RunWorld(NewWorld(archive), steps);
    TimelyRun(NewWorld(archive), steps);
    FailedSendsAreLost(archive, steps);
    ExceptNothing(NotableBetween(w.log, w.primedAt, w.polledAt));
  }
}
