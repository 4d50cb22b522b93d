/**
 * The three sub-queues together, with curl_submit_total: which class a
 * request waits in, which one is popped next, and what a cancel sweep and the
 * shutdown splice take off.
 */
module CurlScheduler {
  import opened CurlQueues

  class Scheduler {
    const urgent: SubQueue
    const normal: SubQueue
    const bulk: SubQueue
    var total: nat

    /** Each sub-queue is well linked and holds the requests of one priority; the total agrees. */
    ghost predicate Valid()
      reads this, urgent, normal, bulk, urgent.repr, normal.repr, bulk.repr
    {
      Separate() && total == |urgent.nodes| + |normal.nodes| + |bulk.nodes|
    }

    ghost predicate Separate()
      reads urgent, normal, bulk, urgent.repr, normal.repr, bulk.repr
    {
      && urgent.Valid() && normal.Valid() && bulk.Valid()
      && urgent.prio == Transactional && normal.prio == Normal && bulk.prio == Bulk
      && urgent.repr !! normal.repr && urgent.repr !! bulk.repr && normal.repr !! bulk.repr
    }

    /** curl_submit_qs[i]. */
    function Q(i: nat): SubQueue {
      if i == 0 then urgent else if i == 1 then normal else bulk
    }

    constructor ()
      ensures Valid() && urgent.nodes == [] && normal.nodes == [] && bulk.nodes == []
    {
      urgent := new SubQueue(Transactional);
      normal := new SubQueue(Normal);
      bulk := new SubQueue(Bulk);
      total := 0;
    }

    /** Every queued request, by class. */
    ghost function Queues(): seq<seq<Request>>
      reads urgent, normal, bulk
    {
      [urgent.nodes, normal.nodes, bulk.nodes]
    }

    method PopFrom(i: nat) returns (r: Request)
      requires Valid() && i < 3 && Q(i).head != null
      modifies this`total, Q(i), Q(i).repr`next
      ensures Valid() && r.next == null && old(Q(i).nodes) == [r] + Q(i).nodes
    {
      r := Q(i).Pop();
      total := total - 1;
    }

    /** curl_submit_pop_highest: the oldest request of the most urgent waiting class. */
    method PopHighest() returns (r: Request?, ghost i: nat)
      requires Valid()
      modifies this, urgent, normal, bulk, urgent.repr`next, normal.repr`next, bulk.repr`next
      ensures Valid()
      ensures i <= 3 && forall j :: 0 <= j < i ==> old(Queues())[j] == []
      ensures r == null ==> i == 3 && Queues() == old(Queues())
      ensures r != null ==> i < 3 && r.next == null && old(Queues()) == Queues()[i := [r] + Queues()[i]]
    {
      r, i := null, 0;
      var k := 0;
      while k < 3
        invariant i == k <= 3 && forall j :: 0 <= j < i ==> Queues()[j] == []
      {
        if Q(k).head != null {
          r := PopFrom(k);
          return;
        }
        k := k + 1;
        i := k;
      }
    }

    /** The enqueue section of curl_request_submit: refused when full, else last in its own class. */
    method Enqueue(r: Request, limit: nat) returns (ok: bool)
      requires Valid() && r !in urgent.repr && r !in normal.repr && r !in bulk.repr
      modifies this, r`next, Q(Index(r.prio)), Q(Index(r.prio)).repr`next
      ensures Valid() && (ok <==> old(total) < limit)
      ensures !ok ==> Queues() == old(Queues())
      ensures ok ==> var i := Index(r.prio); Queues() == old(Queues())[i := old(Queues())[i] + [r]]
    {
      ok := total < limit;
      if ok {
        Q(Index(r.prio)).Push(r);
        total := total + 1;
      }
    }

    /** curl_sweep_cancelled, queued half: flagged requests go, survivors keep their order. */
    method SweepQueued(ghost hit: set<Request>) returns (rest: Request?)
      requires Valid()
      requires Flagged(urgent.nodes, hit) && Flagged(normal.nodes, hit) && Flagged(bulk.nodes, hit)
      modifies this, urgent, normal, bulk, urgent.repr`next, normal.repr`next, bulk.repr`next
      ensures Valid()
      ensures Queues() == var q := old(Queues()); [Kept(q[0], hit), Kept(q[1], hit), Kept(q[2], hit)]
      ensures Linked(rest, var q := old(Queues()); Swept(q[2], hit, Swept(q[1], hit, Swept(q[0], hit, []))))
    {
      ghost var u, n, b := urgent.nodes, normal.nodes, bulk.nodes;
      ClassesApart();
      SweptApart(n, u, hit, []);
      SweptApart(b, u, hit, []);
      SweptApart(b, n, hit, Swept(u, hit, []));
      rest := SweepOne(urgent, null, hit, []);
      rest := SweepOne(normal, rest, hit, Swept(u, hit, []));
      rest := SweepOne(bulk, rest, hit, Swept(n, hit, Swept(u, hit, [])));
    }

    lemma ClassesApart()
      requires Valid()
      ensures Apart(normal.nodes, urgent.nodes) && Apart(bulk.nodes, urgent.nodes) && Apart(bulk.nodes, normal.nodes)
    {
      assert forall r :: r in normal.nodes ==> r in normal.repr;
      assert forall r :: r in bulk.nodes ==> r in bulk.repr;
    }

    /** Sweeping one queue leaves the other two as they are. */
    method SweepIn(q: SubQueue, list: Request?, ghost hit: set<Request>, ghost out: seq<Request>) returns (rest: Request?)
      requires Separate() && (q == urgent || q == normal || q == bulk)
      requires Linked(list, out) && Apart(q.nodes, out) && Flagged(q.nodes, hit)
      modifies q, q.repr`next
      ensures Separate() && q.nodes == Kept(old(q.nodes), hit)
      ensures Linked(rest, Swept(old(q.nodes), hit, out))
    {
      rest := q.Sweep(list, hit, out);
    }

    method SweepOne(q: SubQueue, list: Request?, ghost hit: set<Request>, ghost out: seq<Request>) returns (rest: Request?)
      requires Valid() && (q == urgent || q == normal || q == bulk)
      requires Linked(list, out) && Apart(q.nodes, out) && Flagged(q.nodes, hit)
      modifies this, q, q.repr`next
      ensures Valid() && q.nodes == Kept(old(q.nodes), hit)
      ensures Linked(rest, Swept(old(q.nodes), hit, out))
    {
      var was := q.count;
      rest := SweepIn(q, list, hit, out);
      total := total - (was - q.count);
    }

    /** One turn of the drain's splice loop: the TRANSACTIONAL queue is told by its head, and skipped. */
    method SpliceOne(q: SubQueue, list: Request?, ghost out: seq<Request>) returns (rest: Request?)
      requires Valid() && (q == urgent || q == normal || q == bulk)
      requires Linked(list, out) && Apart(q.nodes, out)
      modifies this, q, q.repr`next
      ensures Valid()
      ensures q.prio == Transactional ==> q.nodes == old(q.nodes) && rest == list && Linked(rest, out)
      ensures q.prio != Transactional ==> q.nodes == [] && Linked(rest, old(q.nodes) + out)
    {
      rest := list;
      if q.head != null && q.head.prio != Transactional {
        total := total - q.count;
        rest := q.SpliceOnto(list, out);
      } else {
        assert q.nodes == [] ==> q.nodes + out == out;
        assert q.nodes != [] ==> q.head in q.repr;
      }
    }

    /** Step 1 of curl_run_shutdown_drain: every queued request but the TRANSACTIONAL ones, spliced off. */
    method SpliceRest() returns (rest: Request?)
      requires Valid()
      modifies this, urgent, normal, bulk, urgent.repr`next, normal.repr`next, bulk.repr`next
      ensures Valid() && Queues() == [old(Queues())[0], [], []]
      ensures Linked(rest, old(Queues())[2] + old(Queues())[1])
    {
      ghost var n := normal.nodes;
      ClassesApart();
      rest := SpliceOne(urgent, null, []);
      rest := SpliceOne(normal, rest, []);
      assert n + [] == n;
      rest := SpliceOne(bulk, rest, n);
    }
  }
}
