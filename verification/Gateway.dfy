/** The gateway's per-key concurrency counter, as a map it updates in place. */
module Gateway {
  import opened Ledger
  import opened Protocol

  lemma BeginAddsOne(requests: map<int, Request>, r: int, id: Id, other: Id)
    requires r !in requests
    ensures |ActiveOf(requests[r := Request(id, Begun)], other)| ==
      |ActiveOf(requests, other)| + if other == id then 1 else 0
  {
    var before, after := ActiveOf(requests, other), ActiveOf(requests[r := Request(id, Begun)], other);
    assert after == before + if other == id then {r} else {};
  }

  lemma EndTakesOne(requests: map<int, Request>, r: int, other: Id)
    requires r in requests
    ensures |ActiveOf(requests - {r}, other)| == |ActiveOf(requests, other)| - if other == requests[r].id then 1 else 0
  {
    var before, after := ActiveOf(requests, other), ActiveOf(requests - {r}, other);
    assert after == before - if other == requests[r].id then {r} else {};
  }

  /** Admitting and recording a request leave the number of active requests alone. */
  lemma StagesDoNotCount(requests: map<int, Request>, r: int, stage: Stage, id: Id)
    requires r in requests
    ensures ActiveOf(requests[r := Request(requests[r].id, stage)], id) == ActiveOf(requests, id)
  {
  }

  class Gateway {
    const maxConcurrentPerKey: int
    var concurrent: map<Id, int>
    ghost var requests: map<int, Request>

    /** The counter of a key is the number of its requests in progress, it never exceeds the
        limit, and idle keys have no entry. */
    ghost predicate Valid()
      reads this
    {
      && (forall id :: id in concurrent ==> concurrent[id] == |ActiveOf(requests, id)| > 0)
      && (forall id :: id !in concurrent ==> |ActiveOf(requests, id)| == 0)
      && forall id :: |ActiveOf(requests, id)| <= Limit()
    }

    /** The limit of the step system, for a configuration with this maximum. */
    function Limit(): int {
      ConcurrencyLimit(Config(map[], 0, maxConcurrentPerKey))
    }

    constructor (maxConcurrentPerKey: int)
      ensures Valid() && requests == map[] && this.maxConcurrentPerKey == maxConcurrentPerKey
    {
      this.maxConcurrentPerKey := maxConcurrentPerKey;
      concurrent, requests := map[], map[];
      new;
      forall id ensures ActiveOf(requests, id) == {} {
      }
    }

    method BeginKeyRequest(ghost r: int, id: Id) returns (ok: bool)
      requires Valid() && r !in requests
      modifies this
      ensures Valid()
      ensures ok <==> |ActiveOf(old(requests), id)| < if maxConcurrentPerKey <= 0 then 16 else maxConcurrentPerKey
      ensures requests == if ok then old(requests)[r := Request(id, Begun)] else old(requests)
    {
      var limit := maxConcurrentPerKey;
      if limit <= 0 {
        limit := 16;
      }
      var active := if id in concurrent then concurrent[id] else 0;
      if active >= limit {
        return false;
      }
      assert limit == Limit() && active == |ActiveOf(requests, id)|;
      ghost var more := requests[r := Request(id, Begun)];
      forall other: Id ensures |ActiveOf(more, other)| == |ActiveOf(requests, other)| + if other == id then 1 else 0 {
        BeginAddsOne(requests, r, id, other);
      }
      hide ActiveOf;
      concurrent := concurrent[id := active + 1];
      requests := more;
      ok := true;
    }

    /** Admitting and recording a request move it to another stage and nothing else. */
    ghost method Advance(r: int, stage: Stage)
      requires Valid() && r in requests
      modifies this`requests
      ensures Valid() && requests == old(requests)[r := Request(old(requests)[r].id, stage)]
    {
      var more := requests[r := Request(requests[r].id, stage)];
      forall id ensures ActiveOf(more, id) == ActiveOf(requests, id) {
        StagesDoNotCount(requests, r, stage, id);
      }
      hide ActiveOf;
      requests := more;
    }

    method EndKeyRequest(ghost r: int, id: Id)
      requires Valid() && r in requests && requests[r].id == id
      modifies this
      ensures Valid() && requests == old(requests) - {r}
    {
      assert r in ActiveOf(requests, id);
      forall other {
        EndTakesOne(requests, r, other);
      }
      hide ActiveOf;
      concurrent := concurrent[id := concurrent[id] - 1];
      if concurrent[id] <= 0 {
        concurrent := concurrent - {id};
      }
      requests := requests - {r};
    }
  }
}
