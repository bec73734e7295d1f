/** The bounded cache of execution ids, refined from the unbounded list of accepted ids. */
module Dedupe {
  import opened Collections

  /** The cache's answer, and its queue afterwards, as functions of the queue. */
  function Admit(queue: seq<string>, maxSize: nat, key: string): (r: (bool, seq<string>))
    ensures r.0 <==> key !in queue
  {
    if key in queue then (false, queue) else (true, LastN(queue + [key], maxSize))
  }

  class DedupeCache {
    const maxSize: nat
    var seen: set<string>
    var queue: seq<string>
    /** Every key ever accepted, oldest first. */
    ghost var accepted: seq<string>

    ghost predicate Valid()
      reads this
    {
      && queue == LastN(accepted, maxSize)
      && Distinct(queue)
      && (forall k :: k in seen <==> k in queue)
    }

    constructor (maxSize: nat)
      ensures Valid() && accepted == [] && queue == [] && this.maxSize == maxSize
    {
      this.maxSize, seen, queue, accepted := maxSize, {}, [], [];
    }

    /** A key is fresh exactly when it is not among the last `maxSize` accepted keys. */
    method Add(key: string) returns (isNew: bool)
      requires Valid()
      modifies this
      ensures Valid()
      ensures isNew <==> key !in LastN(old(accepted), maxSize)
      ensures accepted == if isNew then old(accepted) + [key] else old(accepted)
      ensures (isNew, queue) == Admit(old(queue), maxSize, key)
    {
      if key in seen {
        return false;
      }
      seen := seen + {key};
      queue := queue + [key];
      accepted := accepted + [key];
      ghost var full := queue;
      assert full == old(queue) + [key];
      assert Distinct(full);
      while |queue| > maxSize
        invariant |queue| <= |full| && queue == full[|full| - |queue|..]
        invariant |full| > maxSize ==> |queue| >= maxSize
        invariant |full| <= maxSize ==> queue == full
        invariant Distinct(queue)
        invariant forall k :: k in seen <==> k in queue
        invariant accepted == old(accepted) + [key]
      {
        var oldest := queue[0];
        queue := queue[1..];
        seen := seen - {oldest};
        assert oldest !in queue;
      }
      assert queue == LastN(full, maxSize);
      LastNAppend(old(accepted), key, maxSize);
      return true;
    }
  }

  /** The keys accepted from a stream of requests. */
  function Accepted(requests: seq<string>, maxSize: nat): seq<string> {
    if requests == [] then []
    else
      var before, key := Accepted(requests[..|requests| - 1], maxSize), requests[|requests| - 1];
      if key in LastN(before, maxSize) then before else before + [key]
  }

  /** Any `maxSize + 1` consecutive keys are distinct. */
  ghost predicate DistinctInWindow(acc: seq<string>, maxSize: nat) {
    forall i, j :: 0 <= i < j < |acc| && j - i <= maxSize ==> acc[i] != acc[j]
  }

  /** So it is for the accepted keys, whatever the requests. */
  lemma {:induction false} AcceptedWindowDistinct(requests: seq<string>, maxSize: nat)
    ensures DistinctInWindow(Accepted(requests, maxSize), maxSize)
  {
    if requests != [] {
      var before, key := Accepted(requests[..|requests| - 1], maxSize), requests[|requests| - 1];
      AcceptedWindowDistinct(requests[..|requests| - 1], maxSize);
      if key !in LastN(before, maxSize) {
        WindowStep(before, key, maxSize);
      }
    }
  }

  lemma WindowStep(before: seq<string>, key: string, maxSize: nat)
    requires key !in LastN(before, maxSize) && DistinctInWindow(before, maxSize)
    ensures DistinctInWindow(before + [key], maxSize)
  {
    var window := LastN(before, maxSize);
    forall i | 0 <= i < |before| && |before| - i <= maxSize ensures before[i] != key {
      assert before[i] == window[i - (|before| - |window|)];
    }
  }

  /** The queue alone tells the same story: `Admit` run over the requests keeps the tail of what was accepted. */
  lemma {:induction false} AdmitRefinesAccepted(requests: seq<string>, maxSize: nat, key: string)
    ensures var acc := Accepted(requests, maxSize);
            Admit(LastN(acc, maxSize), maxSize, key)
            == (key !in LastN(acc, maxSize), LastN(Accepted(requests + [key], maxSize), maxSize))
  {
    assert (requests + [key])[..|requests|] == requests;
    LastNAppend(Accepted(requests, maxSize), key, maxSize);
  }
}
