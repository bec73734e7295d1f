/** Wallet rotation: suggesting, approving and rejecting, with the tables the engine mirrors its state into. */
module Rotation {
  import opened Types
  import opened Collections

  datatype Suggestion = Suggestion(id: nat, wallet: string, score: real)

  datatype Status = Pending | Approved | Rejected

  datatype Row = Row(suggestion: Suggestion, status: Status)

  datatype RotationConfig = RotationConfig(
    maxActiveWallets: nat, rankDeltaThreshold: real, confidenceFloor: real, cooldown: nat)

  /** In-memory state (`tracked`, `pending`, `lastRotationAt`) and the tables (`active`, `rows`, `scores`). */
  datatype Desk = Desk(
    tracked: set<string>,
    pending: map<nat, Suggestion>,
    lastRotationAt: Option<int>,
    active: map<string, bool>,
    rows: map<nat, Row>,
    scores: map<string, real>)

  function Score(scores: map<string, real>, wallet: string): real {
    if wallet in scores then scores[wallet] else 0.0
  }

  /** The first wallet of least score, in the given order. */
  function Weakest(order: seq<string>, scores: map<string, real>): (w: string)
    requires order != []
    ensures w in order
    ensures forall v :: v in order ==> Score(scores, w) <= Score(scores, v)
  {
    if |order| == 1 then order[0]
    else
      var best, last := Weakest(order[..|order| - 1], scores), order[|order| - 1];
      assert order == order[..|order| - 1] + [last];
      if Score(scores, last) < Score(scores, best) then last else best
  }

  /** A sorted listing of the score table, highest first; ties fall in any order. */
  ghost predicate IsRanking(ranked: seq<string>, scores: map<string, real>) {
    && Enumerates(ranked, scores.Keys)
    && forall i, j :: 0 <= i < j < |ranked| ==> Score(scores, ranked[j]) <= Score(scores, ranked[i])
  }

  function FirstEligible(ranked: seq<string>, tracked: set<string>, scores: map<string, real>, floor: real)
    : (r: Option<string>)
    ensures r.Some? ==> r.value in ranked && r.value !in tracked && Score(scores, r.value) >= floor
    ensures r.None? ==> forall w :: w in ranked && w !in tracked ==> Score(scores, w) < floor
  {
    if ranked == [] then None
    else if ranked[0] !in tracked && Score(scores, ranked[0]) >= floor then Some(ranked[0])
    else FirstEligible(ranked[1..], tracked, scores, floor)
  }

  predicate CoolingDown(lastRotationAt: Option<int>, now: int, cooldown: nat) {
    lastRotationAt.Some? && (if now >= lastRotationAt.value then now - lastRotationAt.value else 0) < cooldown
  }

  /** `maybe_create_rotation_suggestion`; `order` and `ranked` are the iteration order and the sort it uses. */
  function MaybeSuggest(d: Desk, scores: map<string, real>, ranked: seq<string>, order: seq<string>, now: int,
                        config: RotationConfig, freshId: nat): Option<Suggestion>
    requires Enumerates(order, d.tracked)
  {
    if d.pending != map[] || CoolingDown(d.lastRotationAt, now, config.cooldown) then None
    else
      match FirstEligible(ranked, d.tracked, scores, config.confidenceFloor)
      case None => None
      case Some(candidate) =>
        var s := Suggestion(freshId, candidate, Score(scores, candidate));
        if |d.tracked| < config.maxActiveWallets then Some(s)
        else if order == [] || s.score - Score(scores, Weakest(order, scores)) < config.rankDeltaThreshold then None
        else Some(s)
  }

  function Rotate(d: Desk, scores: map<string, real>, ranked: seq<string>, order: seq<string>, now: int,
                  config: RotationConfig, freshId: nat): Desk
    requires Enumerates(order, d.tracked)
  {
    if scores == map[] then d
    else
      var upserted := d.(scores := d.scores + scores);
      match MaybeSuggest(d, scores, ranked, order, now, config, freshId)
      case None => upserted
      case Some(s) =>
        upserted.(rows := d.rows[s.id := Row(s, Pending)], pending := d.pending[s.id := s], lastRotationAt := Some(now))
  }

  function AddWallet(d: Desk, w: string, config: RotationConfig): Desk {
    if |d.tracked| >= config.maxActiveWallets || w in d.tracked then d
    else d.(tracked := d.tracked + {w}, active := d.active[w := true])
  }

  function RemoveWallet(d: Desk, w: string): Desk {
    if w !in d.tracked then d else d.(tracked := d.tracked - {w}, active := d.active[w := false])
  }

  /** The wallet an approval displaces, if the tracked set is full. */
  function Displaced(d: Desk, order: seq<string>, config: RotationConfig): Option<string> {
    if |d.tracked| >= config.maxActiveWallets && order != [] then Some(Weakest(order, d.scores)) else None
  }

  function Approve(d: Desk, id: nat, order: seq<string>, now: int, config: RotationConfig): Desk
    requires Enumerates(order, d.tracked)
  {
    if id !in d.pending then d
    else
      var s := d.pending[id];
      var out := Displaced(d, order, config);
      var kept := if out.Some? then d.tracked - {out.value} else d.tracked;
      var cleared := if out.Some? then d.active[out.value := false] else d.active;
      Desk(kept + {s.wallet}, d.pending - {id}, Some(now), cleared[s.wallet := true], Decide(d.rows, s.id, Approved),
           d.scores)
  }

  function Reject(d: Desk, id: nat): Desk {
    if id !in d.pending then d
    else d.(pending := d.pending - {id}, rows := Decide(d.rows, d.pending[id].id, Rejected))
  }

  /** The status update touches an existing row only. */
  function Decide(rows: map<nat, Row>, id: nat, status: Status): map<nat, Row> {
    if id in rows then rows[id := rows[id].(status := status)] else rows
  }

  /** What a restart loads back. */
  function ReloadTracked(active: map<string, bool>): set<string> {
    set w | w in active && active[w]
  }

  function ReloadPending(rows: map<nat, Row>): map<nat, Suggestion> {
    map id | id in rows && rows[id].status.Pending? :: rows[id].suggestion
  }

  /** The handlers, working on the state in place. */
  class RotationDesk {
    const config: RotationConfig
    var tracked: set<string>
    var pending: map<nat, Suggestion>
    var lastRotationAt: Option<int>
    var active: map<string, bool>
    var rows: map<nat, Row>
    var scores: map<string, real>

    ghost function View(): Desk
      reads this
    {
      Desk(tracked, pending, lastRotationAt, active, rows, scores)
    }

    constructor (config: RotationConfig, active: map<string, bool>, rows: map<nat, Row>, scores: map<string, real>)
      ensures View() == Desk(ReloadTracked(active), ReloadPending(rows), None, active, rows, scores)
      ensures this.config == config
    {
      this.config, this.active, this.rows, this.scores := config, active, rows, scores;
      tracked, pending, lastRotationAt := ReloadTracked(active), ReloadPending(rows), None;
    }

    method Add(w: string) returns (inserted: bool)
      modifies this
      ensures View() == AddWallet(old(View()), w, config)
      ensures inserted <==> w !in old(tracked) && w in tracked
    {
      if |tracked| >= config.maxActiveWallets {
        return false;
      }
      inserted := w !in tracked;
      tracked := tracked + {w};
      if inserted {
        active := active[w := true];
      } else {
        assert tracked == old(tracked);
      }
    }

    method Remove(w: string) returns (removed: bool)
      modifies this
      ensures View() == RemoveWallet(old(View()), w)
      ensures removed <==> w in old(tracked)
    {
      removed := w in tracked;
      tracked := tracked - {w};
      if removed {
        active := active[w := false];
      } else {
        assert tracked == old(tracked);
      }
    }

    method Acknowledge(id: nat, order: seq<string>, now: int) returns (known: bool, replaced: Option<string>)
      requires Enumerates(order, tracked)
      modifies this
      ensures View() == Approve(old(View()), id, order, now, config)
      ensures known <==> id in old(pending)
      ensures known ==> replaced == Displaced(old(View()), order, config)
    {
      if id !in pending {
        return false, None;
      }
      var suggestion := pending[id];
      pending := pending - {id};
      replaced := None;
      if |tracked| >= config.maxActiveWallets && order != [] {
        var wallet := Weakest(order, scores);
        replaced := Some(wallet);
        tracked := tracked - {wallet};
      }
      tracked := tracked + {suggestion.wallet};
      if replaced.Some? {
        active := active[replaced.value := false];
      }
      active := active[suggestion.wallet := true];
      rows := Decide(rows, suggestion.id, Approved);
      lastRotationAt := Some(now);
      known := true;
    }

    method Decline(id: nat) returns (known: bool)
      modifies this
      ensures View() == Reject(old(View()), id)
      ensures known <==> id in old(pending)
    {
      if id !in pending {
        return false;
      }
      var suggestion := pending[id];
      pending := pending - {id};
      rows := Decide(rows, suggestion.id, Rejected);
      known := true;
    }

    /** One pass of the rotation loop. */
    method RotateOnce(fetched: map<string, real>, ranked: seq<string>, order: seq<string>, now: int, freshId: nat)
      requires Enumerates(order, tracked)
      modifies this
      ensures View() == Rotate(old(View()), fetched, ranked, order, now, config, freshId)
    {
      if fetched == map[] {
        return;
      }
      scores := scores + fetched;
      if pending != map[] || CoolingDown(lastRotationAt, now, config.cooldown) {
        return;
      }
      var candidate := FirstEligible(ranked, tracked, fetched, config.confidenceFloor);
      if candidate.None? {
        return;
      }
      var suggestion := Suggestion(freshId, candidate.value, Score(fetched, candidate.value));
      if |tracked| >= config.maxActiveWallets {
        if order == [] {
          return;
        }
        var worst := Score(fetched, Weakest(order, fetched));
        if suggestion.score - worst < config.rankDeltaThreshold {
          return;
        }
      }
      rows := rows[suggestion.id := Row(suggestion, Pending)];
      pending := pending[suggestion.id := suggestion];
      lastRotationAt := Some(now);
    }
  }

  // ---------------------------------------------------------------------------------------------
  // Every run of handlers
  // ---------------------------------------------------------------------------------------------

  datatype RotationStep =
    | Add(wallet: string)
    | Remove(wallet: string)
    | Acknowledge(id: nat, order: seq<string>, now: int)
    | Decline(id: nat)
    | RotateOnce(fetched: map<string, real>, ranked: seq<string>, order: seq<string>, now: int, freshId: nat)

  /** What the environment guarantees of a step: iteration orders enumerate, sorts sort, ids are fresh. */
  ghost predicate Legal(d: Desk, step: RotationStep) {
    match step
    case Acknowledge(_, order, _) => Enumerates(order, d.tracked)
    case RotateOnce(fetched, ranked, order, _, freshId) =>
      Enumerates(order, d.tracked) && IsRanking(ranked, fetched) && freshId !in d.rows
    case _ => true
  }

  ghost function NextDesk(d: Desk, step: RotationStep, config: RotationConfig): Desk
    requires Legal(d, step)
  {
    match step
    case Add(w) => AddWallet(d, w, config)
    case Remove(w) => RemoveWallet(d, w)
    case Acknowledge(id, order, now) => Approve(d, id, order, now, config)
    case Decline(id) => Reject(d, id)
    case RotateOnce(fetched, ranked, order, now, freshId) => Rotate(d, fetched, ranked, order, now, config, freshId)
  }

  ghost predicate LegalRun(d: Desk, steps: seq<RotationStep>, config: RotationConfig)
    decreases |steps|
  {
    steps == [] || (Legal(d, steps[0]) && LegalRun(NextDesk(d, steps[0], config), steps[1..], config))
  }

  ghost function RunDesk(d: Desk, steps: seq<RotationStep>, config: RotationConfig): Desk
    requires LegalRun(d, steps, config)
    decreases |steps|
  {
    if steps == [] then d else RunDesk(NextDesk(d, steps[0], config), steps[1..], config)
  }

  /** A restart would load back exactly what is in memory. */
  ghost predicate Mirrored(d: Desk) {
    && d.tracked == ReloadTracked(d.active)
    && d.pending == ReloadPending(d.rows)
    && (forall id :: id in d.rows ==> d.rows[id].suggestion.id == id)
  }

  lemma StepMirrored(d: Desk, step: RotationStep, config: RotationConfig)
    requires Mirrored(d) && Legal(d, step)
    ensures Mirrored(NextDesk(d, step, config))
  {
    match step
    case Add(w) =>
      ActivateMirrored(d.active, w, true);
    case Remove(w) =>
      ActivateMirrored(d.active, w, false);
    case Acknowledge(id, order, now) =>
      if id in d.pending {
        DecideMirrored(d.rows, id, Approved);
        var out, w := Displaced(d, order, config), d.pending[id].wallet;
        if out.Some? {
          ActivateMirrored(d.active, out.value, false);
          ActivateMirrored(d.active[out.value := false], w, true);
        } else {
          ActivateMirrored(d.active, w, true);
        }
      }
    case Decline(id) =>
      if id in d.pending { DecideMirrored(d.rows, id, Rejected); }
    case RotateOnce(fetched, ranked, order, now, freshId) =>
      if fetched != map[] {
        var s := MaybeSuggest(d, fetched, ranked, order, now, config, freshId);
        if s.Some? {
          assert ReloadPending(d.rows[freshId := Row(s.value, Pending)]) == ReloadPending(d.rows)[freshId := s.value];
        }
      }
  }

  lemma ActivateMirrored(active: map<string, bool>, w: string, on: bool)
    ensures ReloadTracked(active[w := on]) == if on then ReloadTracked(active) + {w} else ReloadTracked(active) - {w}
  {
  }

  lemma DecideMirrored(rows: map<nat, Row>, id: nat, status: Status)
    requires id in rows && !status.Pending?
    ensures ReloadPending(Decide(rows, id, status)) == ReloadPending(rows) - {id}
  {
  }

  lemma StepBounds(d: Desk, step: RotationStep, config: RotationConfig)
    requires Mirrored(d) && Legal(d, step) && config.maxActiveWallets >= 1
    ensures var d' := NextDesk(d, step, config);
            && (|d'.tracked| <= |d.tracked| || |d'.tracked| <= config.maxActiveWallets)
            && (|d'.pending| <= |d.pending| || |d'.pending| == 1)
  {
    match step
    case Add(w) => ReplaceSize(d.tracked, w, None);
    case Remove(w) => assert d.tracked - {w} <= d.tracked;
    case Acknowledge(id, order, now) => ApproveBounds(d, id, order, now, config);
    case Decline(id) =>
      if id in d.pending { PendingShrinks(d.pending, id); }
    case RotateOnce(fetched, ranked, order, now, freshId) =>
      RotateBounds(d, fetched, ranked, order, now, config, freshId);
  }

  lemma RotateBounds(d: Desk, scores: map<string, real>, ranked: seq<string>, order: seq<string>, now: int,
                     config: RotationConfig, freshId: nat)
    requires Enumerates(order, d.tracked)
    ensures var d' := Rotate(d, scores, ranked, order, now, config, freshId);
            && d'.tracked == d.tracked
            && (d'.pending == d.pending || |d'.pending| == 1)
  {
    var s := MaybeSuggest(d, scores, ranked, order, now, config, freshId);
    if s.Some? {
      assert map[][freshId := s.value].Keys == {freshId};
    }
  }

  lemma ApproveBounds(d: Desk, id: nat, order: seq<string>, now: int, config: RotationConfig)
    requires Enumerates(order, d.tracked) && config.maxActiveWallets >= 1
    ensures var d' := Approve(d, id, order, now, config);
            && (|d'.tracked| <= |d.tracked| || |d'.tracked| <= config.maxActiveWallets)
            && |d'.pending| <= |d.pending|
  {
    if id in d.pending {
      PendingShrinks(d.pending, id);
      ReplaceSize(d.tracked, d.pending[id].wallet, Displaced(d, order, config));
      if order == [] {
        assert d.tracked == {};
      }
    }
  }

  lemma ReplaceSize(tracked: set<string>, w: string, out: Option<string>)
    ensures out.Some? && out.value in tracked ==> |tracked - {out.value} + {w}| <= |tracked|
    ensures |tracked + {w}| <= |tracked| + 1
  {
  }

  lemma PendingShrinks(pending: map<nat, Suggestion>, id: nat)
    requires id in pending
    ensures |pending - {id}| <= |pending|
  {
    assert (pending - {id}).Keys == pending.Keys - {id};
    assert |(pending - {id}).Keys| <= |pending.Keys|;
  }

  /**
   * Whatever handlers run, one at a time: the tracked set never outgrows its initial size or the maximum, at most one
   * suggestion is pending, and a restart would restore both.
   */
  lemma {:induction false} RotationRun(d: Desk, steps: seq<RotationStep>, config: RotationConfig, size: nat)
    requires Mirrored(d) && LegalRun(d, steps, config) && config.maxActiveWallets >= 1
    requires |d.tracked| <= size && config.maxActiveWallets <= size && |d.pending| <= 1
    ensures var after := RunDesk(d, steps, config);
            Mirrored(after) && |after.tracked| <= size && |after.pending| <= 1
    decreases |steps|
  {
    if steps != [] {
      StepMirrored(d, steps[0], config);
      StepBounds(d, steps[0], config);
      RotationRun(NextDesk(d, steps[0], config), steps[1..], config, size);
    }
  }

  // ---------------------------------------------------------------------------------------------
  // What each handler does
  // ---------------------------------------------------------------------------------------------

  /** An added wallet is tracked exactly if there is room or it was tracked before; nobody else's place changes. */
  lemma AddTracks(d: Desk, w: string, config: RotationConfig)
    ensures var after := AddWallet(d, w, config);
            && (w in after.tracked <==> w in d.tracked || |d.tracked| < config.maxActiveWallets)
            && (w in after.tracked && w !in d.tracked ==> w in after.active && after.active[w])
            && after.tracked - {w} == d.tracked - {w}
            && after.pending == d.pending && after.lastRotationAt == d.lastRotationAt && after.rows == d.rows
  {
  }

  /** A removed wallet is tracked no longer, in memory or table; nobody else's place changes. */
  lemma RemoveDrops(d: Desk, w: string)
    ensures var after := RemoveWallet(d, w);
            && after.tracked == d.tracked - {w}
            && (w in d.tracked ==> w in after.active && !after.active[w])
            && after.pending == d.pending && after.lastRotationAt == d.lastRotationAt && after.rows == d.rows
  {
  }

  /**
   * Approving a pending suggestion tracks its wallet, starts the cooldown, and marks its row; a full tracked set loses
   * one wallet of least stored score for it, and one with room loses none.
   */
  lemma ApproveSwaps(d: Desk, id: nat, order: seq<string>, now: int, config: RotationConfig)
    requires Mirrored(d) && Enumerates(order, d.tracked) && id in d.pending
    ensures var after := Approve(d, id, order, now, config);
            var w := d.pending[id].wallet;
            && w in after.tracked && after.lastRotationAt == Some(now)
            && after.pending == d.pending - {id}
            && id in after.rows && after.rows[id].status.Approved?
            && (|d.tracked| < config.maxActiveWallets ==> after.tracked == d.tracked + {w})
            && (|d.tracked| >= config.maxActiveWallets && d.tracked != {} ==>
                exists out :: && out in d.tracked && after.tracked == d.tracked - {out} + {w}
                              && forall v :: v in d.tracked ==> Score(d.scores, out) <= Score(d.scores, v))
  {
    if order == [] {
      assert d.tracked == {};
    } else {
      var out := Weakest(order, d.scores);
      assert out in d.tracked && forall v :: v in d.tracked ==> v in order;
      assert |d.tracked| >= config.maxActiveWallets ==>
        Approve(d, id, order, now, config).tracked == d.tracked - {out} + {d.pending[id].wallet};
    }
  }

  /** Rejecting one marks its row and changes nothing else in memory, the cooldown included. */
  lemma RejectKeeps(d: Desk, id: nat)
    requires Mirrored(d) && id in d.pending
    ensures var after := Reject(d, id);
            && after.tracked == d.tracked && after.lastRotationAt == d.lastRotationAt
            && after.pending == d.pending - {id}
            && id in after.rows && after.rows[id].status.Rejected?
  {
  }

  /**
   * One pass of the rotation loop that fetched something stores its scores over the old ones, and a suggestion, if
   * there is one, under its fresh id in memory and table, starting the cooldown; it never touches who is tracked.
   */
  lemma RotateStores(d: Desk, scores: map<string, real>, ranked: seq<string>, order: seq<string>, now: int,
                     config: RotationConfig, freshId: nat, w: string)
    requires Enumerates(order, d.tracked) && scores != map[]
    ensures var after := Rotate(d, scores, ranked, order, now, config, freshId);
            var s := MaybeSuggest(d, scores, ranked, order, now, config, freshId);
            && Score(after.scores, w) == (if w in scores then scores[w] else Score(d.scores, w))
            && after.tracked == d.tracked && after.active == d.active
            && (if s.Some? then
                  && after.pending == map[freshId := s.value] && s.value.id == freshId
                  && after.rows == d.rows[freshId := Row(s.value, Pending)] && after.lastRotationAt == Some(now)
                else
                  after.pending == d.pending && after.rows == d.rows && after.lastRotationAt == d.lastRotationAt)
  {
  }

  /** A rotation that starts the cooldown: a suggestion made, or one approved. */
  datatype Rotation = Rotation(at: int, suggested: bool)

  ghost function RotationOf(d: Desk, step: RotationStep, config: RotationConfig): seq<Rotation>
    requires Legal(d, step)
  {
    match step
    case RotateOnce(_, _, _, now, freshId) =>
      if freshId in NextDesk(d, step, config).rows then [Rotation(now, true)] else []
    case Acknowledge(id, _, now) => if id in d.pending then [Rotation(now, false)] else []
    case _ => []
  }

  ghost function RotationsIn(d: Desk, steps: seq<RotationStep>, config: RotationConfig): seq<Rotation>
    requires LegalRun(d, steps, config)
    decreases |steps|
  {
    if steps == [] then []
    else RotationOf(d, steps[0], config) + RotationsIn(NextDesk(d, steps[0], config), steps[1..], config)
  }

  function LastOf(last: Option<int>, rotations: seq<Rotation>): Option<int> {
    if rotations == [] then last else Some(rotations[|rotations| - 1].at)
  }

  /** Each suggestion comes at least the cooldown after the rotation before it. */
  ghost predicate Spaced(last: Option<int>, rotations: seq<Rotation>, cooldown: nat) {
    forall j :: 0 <= j < |rotations| && rotations[j].suggested && cooldown > 0 ==>
      var before := LastOf(last, rotations[..j]);
      before.Some? ==> rotations[j].at >= before.value + cooldown
  }

  lemma RotationStepSpaced(d: Desk, step: RotationStep, config: RotationConfig)
    requires Legal(d, step)
    ensures var now := RotationOf(d, step, config);
            && |now| <= 1
            && NextDesk(d, step, config).lastRotationAt == LastOf(d.lastRotationAt, now)
            && Spaced(d.lastRotationAt, now, config.cooldown)
  {
  }

  lemma SpacedJoin(last: Option<int>, now: seq<Rotation>, later: seq<Rotation>, cooldown: nat)
    requires |now| <= 1 && Spaced(last, now, cooldown) && Spaced(LastOf(last, now), later, cooldown)
    ensures Spaced(last, now + later, cooldown)
    ensures LastOf(last, now + later) == LastOf(LastOf(last, now), later)
  {
    var all := now + later;
    if now == [] {
      assert all == later;
    } else {
      forall j | 0 <= j < |all| && all[j].suggested && cooldown > 0
        ensures var before := LastOf(last, all[..j]);
                before.Some? ==> all[j].at >= before.value + cooldown
      {
        if j == 0 {
          assert all[..0] == now[..0];
        } else {
          assert all[..j] == now + later[..j - 1];
        }
      }
    }
  }

  /**
   * Over every run of handlers, no suggestion comes before the cooldown has passed since the rotation before it,
   * whether that was a suggestion or an approval, and however the clock runs.
   */
  lemma {:induction false} SuggestionsSpaced(d: Desk, steps: seq<RotationStep>, config: RotationConfig)
    requires LegalRun(d, steps, config)
    ensures Spaced(d.lastRotationAt, RotationsIn(d, steps, config), config.cooldown)
    ensures RunDesk(d, steps, config).lastRotationAt == LastOf(d.lastRotationAt, RotationsIn(d, steps, config))
    decreases |steps|
  {
    if steps != [] {
      var d' := NextDesk(d, steps[0], config);
      RotationStepSpaced(d, steps[0], config);
      SuggestionsSpaced(d', steps[1..], config);
      SpacedJoin(d.lastRotationAt, RotationOf(d, steps[0], config), RotationsIn(d', steps[1..], config),
                 config.cooldown);
    }
  }

  // ---------------------------------------------------------------------------------------------
  // The choice
  // ---------------------------------------------------------------------------------------------

  lemma {:induction false} FirstEligibleIsBest(ranked: seq<string>, tracked: set<string>, scores: map<string, real>,
                                               floor: real)
    requires forall i, j :: 0 <= i < j < |ranked| ==> Score(scores, ranked[j]) <= Score(scores, ranked[i])
    ensures var r := FirstEligible(ranked, tracked, scores, floor);
            r.Some? ==> forall w :: w in ranked && w !in tracked ==> Score(scores, w) <= Score(scores, r.value)
  {
    if ranked != [] {
      assert forall w :: w in ranked <==> w == ranked[0] || w in ranked[1..];
      if ranked[0] !in tracked && Score(scores, ranked[0]) >= floor {
        forall w | w in ranked ensures Score(scores, w) <= Score(scores, ranked[0]) {
          var k :| 0 <= k < |ranked| && ranked[k] == w;
        }
      } else {
        FirstEligibleIsBest(ranked[1..], tracked, scores, floor);
      }
    }
  }

  /** A suggestion names a highest-scored untracked wallet, at or above the floor; and when one is made at all. */
  lemma SuggestionIsBest(d: Desk, scores: map<string, real>, ranked: seq<string>, order: seq<string>, now: int,
                         config: RotationConfig, freshId: nat)
    requires Enumerates(order, d.tracked) && IsRanking(ranked, scores)
    ensures var r := MaybeSuggest(d, scores, ranked, order, now, config, freshId);
            && (r.Some? ==>
                && r.value.wallet in scores && r.value.wallet !in d.tracked
                && r.value.score == scores[r.value.wallet] >= config.confidenceFloor
                && forall w :: w in scores && w !in d.tracked ==> scores[w] <= r.value.score)
            && (r.Some? <==>
                && d.pending == map[]
                && (d.lastRotationAt.None? || config.cooldown == 0 || now >= d.lastRotationAt.value + config.cooldown)
                && exists w :: w in scores && w !in d.tracked && scores[w] >= config.confidenceFloor
                     && (|d.tracked| < config.maxActiveWallets
                         || exists v :: v in d.tracked && scores[w] - Score(scores, v) >= config.rankDeltaThreshold))
  {
    FirstEligibleIsBest(ranked, d.tracked, scores, config.confidenceFloor);
    var r := FirstEligible(ranked, d.tracked, scores, config.confidenceFloor);
    if r.Some? && order != [] {
      assert Weakest(order, scores) in d.tracked;
    }
  }

  function TotalScore(order: seq<string>, scores: map<string, real>): real {
    Sum(order, w => Score(scores, w))
  }

  /**
   * An approval that displaces a wallet changes the tracked total by exactly the newcomer less the weakest; a newcomer
   * that is tracked already brings nothing, unless it is the one displaced.
   */
  lemma ApprovalGain(d: Desk, id: nat, order: seq<string>, order': seq<string>, now: int, config: RotationConfig)
    requires Enumerates(order, d.tracked) && id in d.pending && Displaced(d, order, config).Some?
    requires Enumerates(order', Approve(d, id, order, now, config).tracked)
    ensures var newcomer, out := d.pending[id].wallet, Displaced(d, order, config).value;
            TotalScore(order', d.scores) - TotalScore(order, d.scores)
            == (if newcomer in d.tracked && newcomer != out then 0.0 else Score(d.scores, newcomer))
               - Score(d.scores, out)
  {
    var f := w => Score(d.scores, w);
    var newcomer, out := d.pending[id].wallet, Displaced(d, order, config).value;
    var kept := d.tracked - {out};
    var i :| 0 <= i < |order| && order[i] == out;
    WithoutEnumerates(order, d.tracked, i);
    SumWithout(order, f, i);
    if newcomer in kept {
      assert kept + {newcomer} == kept;
      SumOrderFree(Without(order, i), order', kept, f);
    } else {
      assert newcomer in order';
      var j :| 0 <= j < |order'| && order'[j] == newcomer;
      WithoutEnumerates(order', kept + {newcomer}, j);
      SumWithout(order', f, j);
      assert kept + {newcomer} - {newcomer} == kept;
      SumOrderFree(Without(order, i), Without(order', j), kept, f);
    }
  }

  /**
   * A suggestion is weighed against the latest fetch, its approval against every score stored by then. Approving it
   * over the same full tracked set raises the tracked total by at least the threshold exactly if some tracked wallet's
   * stored score is that far below the suggested one.
   */
  lemma ApprovalMeetsThreshold(d: Desk, scores: map<string, real>, ranked: seq<string>, order: seq<string>,
                               suggestedAt: int, freshId: nat, approvedAt: int, order': seq<string>,
                               config: RotationConfig)
    requires Enumerates(order, d.tracked) && IsRanking(ranked, scores)
    requires |d.tracked| >= config.maxActiveWallets && scores != map[]
    requires MaybeSuggest(d, scores, ranked, order, suggestedAt, config, freshId).Some?
    requires var d' := Rotate(d, scores, ranked, order, suggestedAt, config, freshId);
             Enumerates(order', Approve(d', freshId, order, approvedAt, config).tracked)
    ensures var table := d.scores + scores;
            var s := MaybeSuggest(d, scores, ranked, order, suggestedAt, config, freshId).value;
            TotalScore(order', table) >= TotalScore(order, table) + config.rankDeltaThreshold
            <==> exists v :: v in d.tracked && Score(table, v) <= s.score - config.rankDeltaThreshold
  {
    var d' := Rotate(d, scores, ranked, order, suggestedAt, config, freshId);
    ApprovalGain(d', freshId, order, order', approvedAt, config);
    assert Weakest(order, d'.scores) in d.tracked;
    assert forall v :: v in d.tracked ==> v in order;
  }

  /** So it does whenever the fetch scores every tracked wallet as the table then does. */
  lemma SameScoresMeetThreshold(d: Desk, scores: map<string, real>, ranked: seq<string>, order: seq<string>,
                                suggestedAt: int, freshId: nat, approvedAt: int, order': seq<string>,
                                config: RotationConfig)
    requires Enumerates(order, d.tracked) && IsRanking(ranked, scores)
    requires |d.tracked| >= config.maxActiveWallets && scores != map[]
    requires forall v :: v in d.tracked ==> Score(d.scores + scores, v) == Score(scores, v)
    requires MaybeSuggest(d, scores, ranked, order, suggestedAt, config, freshId).Some?
    requires var d' := Rotate(d, scores, ranked, order, suggestedAt, config, freshId);
             Enumerates(order', Approve(d', freshId, order, approvedAt, config).tracked)
    ensures TotalScore(order', d.scores + scores)
         >= TotalScore(order, d.scores + scores) + config.rankDeltaThreshold
  {
    ApprovalMeetsThreshold(d, scores, ranked, order, suggestedAt, freshId, approvedAt, order', config);
    assert Weakest(order, scores) in d.tracked;
  }

  /**
   * The two score tables can differ: a suggestion reads the latest fetch, where a tracked wallet that was not fetched
   * counts as zero, while an approval reads every score ever stored. Then an approval can lower the total.
   */
  lemma ApprovalCanLowerTotal()
    returns (d: Desk, fetched: map<string, real>, ranked: seq<string>, order: seq<string>, order': seq<string>,
             config: RotationConfig)
    ensures Enumerates(order, d.tracked) && IsRanking(ranked, fetched) && config.rankDeltaThreshold > 0.0
    ensures MaybeSuggest(d, fetched, ranked, order, 0, config, 7).Some?
    ensures var after := Approve(Rotate(d, fetched, ranked, order, 0, config, 7), 7, order, 0, config);
            && Enumerates(order', after.tracked)
            && TotalScore(order', after.scores) < TotalScore(order, after.scores)
  {
    d := Desk({"a"}, map[], None, map["a" := true], map[], map["a" := 90.0]);
    fetched, ranked, order, order' := map["b" := 60.0], ["b"], ["a"], ["b"];
    config := RotationConfig(1, 8.0, 52.0, 0);
    var s := Suggestion(7, "b", 60.0);
    assert MaybeSuggest(d, fetched, ranked, order, 0, config, 7) == Some(s);
    var rotated := Rotate(d, fetched, ranked, order, 0, config, 7);
    assert rotated.pending == map[7 := s];
    assert Displaced(rotated, order, config) == Some("a");
    var after := Approve(rotated, 7, order, 0, config);
    assert after.tracked == {"b"};
    ApprovalGain(rotated, 7, order, order', 0, config);
  }
}
