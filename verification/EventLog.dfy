/** The engine's ring buffer of events and the `tail_events` query over it. */
module EventLog {
  import opened Collections

  datatype EventClass = Critical | Trade | Risk | Rotation | Info

  /** Ids are fresh random identifiers; they are modelled as numbers. */
  datatype Event = Event(id: nat, kind: EventClass)

  const BUFFER_SIZE: nat := 5000
  const MAX_TAIL: nat := 500

  /** The limit `tail_events` applies: absent or zero means the default, and never above the maximum. */
  function EffectiveLimit(requested: nat, defaultLimit: nat): (n: nat)
    ensures 1 <= requested <= 500 ==> n == requested
    ensures requested > 500 ==> n == 500
    ensures requested == 0 ==> n <= 500 && n <= defaultLimit && (n == 500 || n == defaultLimit)
  {
    var n := if requested > 0 then requested else defaultLimit;
    if n <= MAX_TAIL then n else MAX_TAIL
  }

  class EventBuffer {
    var events: seq<Event>
    /** Every event ever pushed, oldest first. */
    ghost var log: seq<Event>

    ghost predicate Valid()
      reads this
    {
      events == LastN(log, BUFFER_SIZE)
    }

    constructor ()
      ensures Valid() && log == []
    {
      events, log := [], [];
    }

    method Push(event: Event)
      requires Valid()
      modifies this
      ensures Valid() && log == old(log) + [event]
      ensures |events| <= 5000 && (|log| <= 5000 ==> events == log)
    {
      events := events + [event];
      log := log + [event];
      ghost var full := events;
      while |events| > BUFFER_SIZE
        invariant |events| <= |full| && events == full[|full| - |events|..]
        invariant |full| > BUFFER_SIZE ==> |events| >= BUFFER_SIZE
        invariant |full| <= BUFFER_SIZE ==> events == full
        invariant log == old(log) + [event]
      {
        events := events[1..];
      }
      assert events == LastN(full, BUFFER_SIZE);
      LastNAppend(old(log), event, BUFFER_SIZE);
    }

    /**
     * `tail_events`: a non-empty buffer answers with the tail of the whole log, for every request; an empty one
     * falls back to the archive.
     */
    method Tail(requested: nat, defaultLimit: nat, archive: seq<Event>) returns (tail: seq<Event>)
      requires Valid()
      ensures tail == TailOf(log, archive, EffectiveLimit(requested, defaultLimit))
    {
      var limit := EffectiveLimit(requested, defaultLimit);
      if events != [] && limit > 0 {
        var newestFirst: seq<Event> := [];
        var taken := 0;
        while taken < limit && taken < |events|
          invariant 0 <= taken <= limit && taken <= |events| && |newestFirst| == taken
          invariant forall i :: 0 <= i < taken ==> newestFirst[i] == events[|events| - 1 - i]
        {
          newestFirst := newestFirst + [events[|events| - 1 - taken]];
          taken := taken + 1;
        }
        tail := [];
        var k := 0;
        while k < |newestFirst|
          invariant 0 <= k <= |newestFirst| && |tail| == k
          invariant forall i :: 0 <= i < k ==> tail[i] == newestFirst[k - 1 - i]
        {
          tail := [newestFirst[k]] + tail;
          k := k + 1;
        }
        assert tail == LastN(events, limit);
        LastOfLast(log, BUFFER_SIZE, limit);
        return;
      }
      tail := LastN(archive, limit);
    }
  }

  /** What a tail query returns, over the unbounded log. A zero limit finds no buffered events either. */
  function TailOf(log: seq<Event>, archive: seq<Event>, limit: nat): seq<Event> {
    if log != [] && limit > 0 then LastN(log, limit) else LastN(archive, limit)
  }

  /**
   * A query gets as many of the newest events as it asks for, or as the default says, up to 500 and oldest first: those
   * of the log, or of the archive while the log is empty.
   */
  lemma TailServes(log: seq<Event>, archive: seq<Event>, requested: nat, defaultLimit: nat)
    ensures var tail := TailOf(log, archive, EffectiveLimit(requested, defaultLimit));
            var wanted := if requested > 0 then requested else defaultLimit;
            var source := if log != [] then log else archive;
            && |tail| == (if |source| <= wanted && |source| <= 500 then |source|
                          else if wanted <= 500 then wanted else 500)
            && forall i :: 0 <= i < |tail| ==> tail[i] == source[|source| - |tail| + i]
  {
  }

  lemma LastOfLast<T>(s: seq<T>, n: nat, k: nat)
    requires k <= n
    ensures LastN(LastN(s, n), k) == LastN(s, k)
  {
  }
}
