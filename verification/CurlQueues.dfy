/**
 * The submit queues of core/curl.c: three singly linked sub-queues, one per
 * priority class, each with a head, a tail and a count. The methods
 * relink nodes in place and are proved against sequences.
 */
module CurlQueues {
  import opened Seqs

  datatype Prio = Transactional | Normal | Bulk

  /** curl_prio_to_idx: the drain order, most urgent first. */
  function Index(p: Prio): (i: nat) ensures i < 3 {
    match p case Transactional => 0 case Normal => 1 case Bulk => 2
  }

  /** The classes have distinct places in the drain order. */
  lemma IndexOrder(p: Prio, q: Prio)
    ensures Index(Transactional) < Index(Normal) < Index(Bulk)
    ensures Index(p) == Index(q) <==> p == q
  {
  }

  class Request {
    var prio: Prio
    var cancelled: bool
    var next: Request?
    constructor (p: Prio)
      ensures prio == p && !cancelled && next == null
    { prio, cancelled, next := p, false, null; }
  }

  /** `s` is threaded through `next`, and its last node points at `last`. */
  ghost predicate Chained(s: seq<Request>, last: Request?)
    reads s
  {
    && (forall i, j :: 0 <= i < |s| && j == i + 1 < |s| ==> s[i].next == s[j])
    && (|s| > 0 ==> s[|s| - 1].next == last)
  }

  ghost function Front(s: seq<Request>, last: Request?): Request? { if |s| == 0 then last else s[0] }

  ghost function Back(s: seq<Request>): Request? { if |s| == 0 then null else s[|s| - 1] }

  /** A null-terminated list of distinct nodes starting at `head`. */
  ghost predicate Linked(head: Request?, s: seq<Request>)
    reads s
  {
    NoDup(s) && Chained(s, null) && head == Front(s, null)
  }

  lemma ChainedJoin(s: seq<Request>, t: seq<Request>, last: Request?)
    ensures Chained(s + t, last) <==> Chained(s, Front(t, last)) && Chained(t, last)
    ensures Front(s + t, last) == Front(s, Front(t, last))
  {
    var u := s + t;
    assert forall i :: 0 <= i < |s| ==> u[i] == s[i];
    assert forall i :: 0 <= i < |t| ==> u[|s| + i] == t[i];
    if Chained(u, last) {
      forall i, j | 0 <= i < |t| && j == i + 1 < |t| ensures t[i].next == t[j] {
        assert u[|s| + i].next == u[|s| + j];
      }
    }
  }

  ghost predicate Apart(s: seq<Request>, t: seq<Request>) { forall r :: r in s ==> r !in t }

  /** The nodes a sweep leaves queued, in order. */
  ghost function Kept(s: seq<Request>, hit: set<Request>): seq<Request> {
    if |s| == 0 then [] else (if s[0] in hit then [] else [s[0]]) + Kept(s[1..], hit)
  }

  /** The cancel list after a sweep: each flagged node is pushed on its front. */
  ghost function Swept(s: seq<Request>, hit: set<Request>, out: seq<Request>): seq<Request> {
    if |s| == 0 then out else Swept(s[1..], hit, if s[0] in hit then [s[0]] + out else out)
  }

  /** A sweep splits a queue: survivors stay, flagged requests go to the cancel list, none is lost. */
  lemma {:induction false} SweepSplits(s: seq<Request>, hit: set<Request>, out: seq<Request>)
    ensures forall r :: r in Kept(s, hit) <==> r in s && r !in hit
    ensures forall r :: r in Swept(s, hit, out) <==> (r in s && r in hit) || r in out
    ensures |Kept(s, hit)| + |Swept(s, hit, out)| == |s| + |out|
  {
    if |s| > 0 {
      assert s == [s[0]] + s[1..];
      SweepSplits(s[1..], hit, if s[0] in hit then [s[0]] + out else out);
    }
  }

  lemma SweptApart(t: seq<Request>, s: seq<Request>, hit: set<Request>, out: seq<Request>)
    requires Apart(t, s) && Apart(t, out)
    ensures Apart(t, Swept(s, hit, out))
  {
    SweepSplits(s, hit, out);
  }

  /** `hit` holds exactly the nodes of `s` a caller has cancelled. */
  ghost predicate Flagged(s: seq<Request>, hit: set<Request>)
    reads s
  {
    forall r :: r in s ==> (r.cancelled <==> r in hit)
  }

  class SubQueue {
    const prio: Prio
    var head: Request?
    var tail: Request?
    var count: nat
    ghost var nodes: seq<Request>
    ghost var repr: set<Request>

    ghost predicate Valid()
      reads this, repr
    {
      && repr == (set r | r in nodes)
      && Linked(head, nodes) && tail == Back(nodes) && count == |nodes|
      && forall r :: r in repr ==> r.prio == prio
    }

    constructor (p: Prio)
      ensures Valid() && nodes == [] && prio == p
    { prio, head, tail, count, nodes, repr := p, null, null, 0, [], {}; }

    /** The enqueue half of curl_request_submit. */
    method Push(r: Request)
      requires Valid() && r !in nodes && r.prio == prio
      modifies this, r`next, repr`next
      ensures Valid() && nodes == old(nodes) + [r]
    {
      r.next := null;
      if tail != null { tail.next := r; } else { head := r; }
      tail := r;
      count := count + 1;
      nodes, repr := nodes + [r], repr + {r};
    }

    method Pop() returns (r: Request)
      requires Valid() && head != null
      modifies this, repr`next
      ensures Valid() && old(nodes) == [r] + nodes && r.next == null
    {
      r := head;
      assert r == nodes[0];
      head := r.next;
      if head == null { tail := null; }
      count := count - 1;
      r.next := null;
      nodes, repr := nodes[1..], repr - {r};
    }

    /** Splice the whole queue in front of `list`, as the shutdown drain does. */
    method SpliceOnto(list: Request?, ghost out: seq<Request>) returns (rest: Request)
      requires Valid() && head != null
      requires Linked(list, out) && Apart(nodes, out)
      modifies this, repr`next
      ensures Valid() && nodes == []
      ensures Linked(rest, old(nodes) + out)
    {
      ghost var was := nodes;
      NoDupSplit(was, out);
      assert tail in was && tail !in out;
      tail.next := list;
      assert Chained(was, list) && Chained(out, null);
      rest := head;
      head, tail, count, nodes, repr := null, null, 0, [], {};
      ChainedJoin(was, out, null);
    }

    /** Take the node after `prev` off the queue and push it on the cancel list. */
    method Unlink(prev: Request?, r: Request, rest: Request?, ghost left: seq<Request>, ghost gone: seq<Request>)
      requires Sweeping(r, left, rest, gone) && prev == Back(nodes) && count > 0
      modifies this`head, this`count, (if prev == null then {} else {prev})`next, r`next
      ensures Sweeping(old(r.next), left[1..], r, [r] + gone) && count == old(count) - 1
    {
      assert left == [r] + left[1..];
      ChainedJoin([r], left[1..], null);
      NoDupSplit([r], left[1..]);
      NoDupSplit([r], gone);
      assert r in left && r !in nodes && r !in gone;
      assert prev != null ==> prev in nodes;
      var n := r.next;
      if prev == null { head := n; } else { prev.next := n; }
      count := count - 1;
      r.next := rest;
      ChainedJoin([r], gone, null);
    }

    /** Leave the node after the tail on the queue. */
    method Stay(r: Request, ghost rest: Request?, ghost left: seq<Request>, ghost gone: seq<Request>)
      requires Sweeping(r, left, rest, gone)
      modifies this`tail, this`nodes
      ensures Sweeping(r.next, left[1..], rest, gone) && nodes == old(nodes) + [r] && tail == r
    {
      assert left == [r] + left[1..];
      ChainedJoin([r], left[1..], null);
      NoDupSplit([r], left[1..]);
      assert r in left && r !in nodes && r !in gone;
      NoDupSplit(nodes, [r]);
      ChainedJoin(nodes, [r], r.next);
      tail := r;
      nodes := nodes + [r];
    }

    /** Mid-sweep: kept nodes, the nodes still to visit and the cancel list, threaded and apart. */
    ghost predicate Sweeping(r: Request?, left: seq<Request>, rest: Request?, gone: seq<Request>)
      reads this, nodes, left, gone
    {
      && NoDup(nodes) && Chained(nodes, r) && head == Front(nodes, r)
      && Linked(r, left) && Linked(rest, gone)
      && Apart(nodes, left) && Apart(nodes, gone) && Apart(left, gone)
    }

    /** Visit one node: the loop body of the sweep, over `hit`, the flagged requests. */
    method Visit(r: Request, list: Request?, ghost hit: set<Request>, ghost left: seq<Request>, ghost gone: seq<Request>)
      returns (rest: Request?, ghost out: seq<Request>)
      requires Sweeping(r, left, list, gone) && tail == Back(nodes) && count == |nodes| + |left|
      requires r.cancelled <==> r in hit
      modifies this`head, this`tail, this`count, this`nodes, r`next, (if tail == null then {} else {tail})`next
      ensures Sweeping(old(r.next), left[1..], rest, out) && tail == Back(nodes) && count == |nodes| + |left| - 1
      ensures nodes + Kept(left[1..], hit) == old(nodes) + Kept(left, hit)
      ensures Swept(left[1..], hit, out) == Swept(left, hit, gone)
      ensures nodes == old(nodes) || nodes == old(nodes) + [r]
    {
      assert r == left[0];
      if r.cancelled {
        Unlink(tail, r, list, left, gone);
        rest, out := r, [r] + gone;
      } else {
        assert nodes + [r] + Kept(left[1..], hit) == nodes + Kept(left, hit);
        Stay(r, list, left, gone);
        rest, out := list, gone;
      }
    }

    /** The traversal of the sweep: unlink every flagged request, rebuild the tail on the way past. */
    method SweepNodes(list: Request?, ghost hit: set<Request>, ghost out: seq<Request>) returns (rest: Request?)
      requires Linked(head, nodes) && Linked(list, out) && Apart(nodes, out) && Flagged(nodes, hit)
      requires count == |nodes| && forall r :: r in nodes ==> r in repr
      modifies this`head, this`tail, this`count, this`nodes, repr`next
      ensures Linked(head, nodes) && tail == Back(nodes) && count == |nodes|
      ensures nodes == Kept(old(nodes), hit)
      ensures Linked(rest, Swept(old(nodes), hit, out))
    {
      ghost var was := nodes;
      ghost var left: seq<Request>, gone: seq<Request> := nodes, out;
      rest := list;
      var r := head;
      tail, nodes := null, [];
      while r != null
        invariant Sweeping(r, left, rest, gone) && tail == Back(nodes) && count == |nodes| + |left|
        invariant nodes + Kept(left, hit) == Kept(was, hit) && Swept(left, hit, gone) == Swept(was, hit, out)
        invariant Flagged(left, hit) && (forall x :: x in left ==> x in repr) && (tail != null ==> tail in repr)
        decreases |left|
      {
        assert r == left[0] && r in repr;
        var n := r.next;
        rest, gone := Visit(r, rest, hit, left, gone);
        left := left[1..];
        r := n;
      }
    }

    /** One sub-queue of curl_sweep_cancelled: flagged requests move to the cancel list. */
    method Sweep(list: Request?, ghost hit: set<Request>, ghost out: seq<Request>) returns (rest: Request?)
      requires Valid() && Linked(list, out) && Apart(nodes, out) && Flagged(nodes, hit)
      modifies this, repr`next
      ensures Valid() && nodes == Kept(old(nodes), hit)
      ensures Linked(rest, Swept(old(nodes), hit, out)) && repr <= old(repr)
    {
      ghost var was, cut := nodes, Swept(nodes, hit, out);
      rest := SweepNodes(list, hit, out);
      SweepSplits(was, hit, out);
      assert forall r :: r in nodes ==> r in was;
      repr := set x | x in nodes;
      assert Linked(head, nodes) && Linked(rest, cut);
    }
  }
}
