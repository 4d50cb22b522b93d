/**
 * curl_run_shutdown_drain on the multi-loop thread: splice and abort what is
 * queued, abort what is in flight, let TRANSACTIONAL transfers finish until
 * the deadline, then abort those too. The linked lists are the sequences that
 * the queue methods refine; libcurl reports completions from an oracle.
 * Wherever the drain holds no lock, other threads may submit: a submitter that
 * read curl_shutting_down in time still enqueues after the splice.
 */
module CurlDrain {
  import opened Seqs
  import opened CurlQueues

  datatype Transfer = Transfer(id: int, prio: Prio)
  datatype Callback = Callback(req: Transfer, aborted: bool)

  function Count(s: seq<Transfer>, p: Prio): nat {
    if |s| == 0 then 0 else (if s[0].prio == p then 1 else 0) + Count(s[1..], p)
  }

  function Requests(calls: seq<Callback>): seq<Transfer> {
    seq(|calls|, i requires 0 <= i < |calls| => calls[i].req)
  }

  ghost predicate AllOf(s: seq<Transfer>, i: nat) { forall r :: r in s ==> Index(r.prio) == i }

  lemma {:induction false} CountRemove(s: seq<Transfer>, r: Transfer, p: Prio)
    requires r in s
    ensures Count(Remove(s, r), p) == Count(s, p) - if r.prio == p then 1 else 0
  {
    if s[0] != r { CountRemove(s[1..], r, p); }
  }

  lemma {:induction false} CountNone(s: seq<Transfer>, p: Prio)
    ensures Count(s, p) == 0 <==> forall r :: r in s ==> r.prio != p
  {
    if |s| > 0 {
      CountNone(s[1..], p);
      assert s == [s[0]] + s[1..];
    }
  }

  /** The requests of one class, in order. */
  function OfClass(s: seq<Transfer>, i: nat): seq<Transfer> {
    if |s| == 0 then []
    else OfClass(s[..|s| - 1], i) + if Index(s[|s| - 1].prio) == i then [s[|s| - 1]] else []
  }

  lemma {:induction false} OfClassOnly(s: seq<Transfer>, i: nat)
    ensures AllOf(OfClass(s, i), i) && forall r :: r in OfClass(s, i) ==> r in s
  {
    if |s| > 0 { OfClassOnly(s[..|s| - 1], i); }
  }

  /** One queue, as `r` arrives in its class or another. */
  lemma OneMore(queue: seq<Transfer>, kept: seq<Transfer>, arrived: seq<Transfer>, r: Transfer, i: nat)
    requires queue == kept + OfClass(arrived, i)
    ensures (if Index(r.prio) == i then queue + [r] else queue) == kept + OfClass(arrived + [r], i)
  {
    assert (arrived + [r])[..|arrived|] == arrived;
    Assoc(kept, OfClass(arrived, i), [r]);
  }

  /** The first `n` submissions: those a queue with room for `n` takes. */
  function Taken(s: seq<Transfer>, n: int): seq<Transfer> {
    if n <= 0 then [] else if |s| <= n then s else s[..n]
  }

  lemma TakenOne(s: seq<Transfer>, r: Transfer, n: int)
    ensures Taken(s + [r], n) == if |Taken(s, n)| >= n then Taken(s, n) else Taken(s, n) + [r]
  {
  }

  function Flat<T>(batches: seq<seq<T>>): seq<T> {
    if |batches| == 0 then [] else batches[0] + Flat(batches[1..])
  }

  lemma NextOf<T>(before: seq<T>, s: seq<T>, k: nat)
    requires k < |s|
    ensures before + s[..k + 1] == before + s[..k] + [s[k]]
  {
    assert s[..k + 1] == s[..k] + [s[k]];
  }

  lemma {:induction false} FlatMore<T>(batches: seq<seq<T>>, n: nat)
    requires n < |batches|
    ensures Flat(batches[..n + 1]) == Flat(batches[..n]) + batches[n]
    decreases n
  {
    var more := batches[..n + 1];
    assert more[0] == batches[0] && more[1..] == batches[1..][..n];
    if n == 0 {
      assert Flat(more[1..]) == [] && Flat(batches[..0]) == [];
    } else {
      assert batches[..n][0] == batches[0] && batches[..n][1..] == batches[1..][..n - 1];
      FlatMore(batches[1..], n - 1);
      Assoc(batches[0], Flat(batches[1..][..n - 1]), batches[n]);
    }
  }

  // Who is called back, in which order, and how

  function Aborts(s: seq<Transfer>): (r: seq<Callback>)
    ensures |r| == |s|
  {
    seq(|s|, i requires 0 <= i < |s| => Callback(s[i], true))
  }

  /** The requests outside TRANSACTIONAL, in order. */
  function Others(s: seq<Transfer>): seq<Transfer> {
    if |s| == 0 then []
    else Others(s[..|s| - 1]) + if s[|s| - 1].prio != Transactional then [s[|s| - 1]] else []
  }

  predicate Reported(reports: seq<Callback>, r: Transfer) {
    exists i :: 0 <= i < |reports| && reports[i].req == r
  }

  /** The reports that are the first about a request of `s`, in order. */
  function FirstReports(reports: seq<Callback>, s: seq<Transfer>): seq<Callback> {
    if |reports| == 0 then []
    else
      var n := |reports| - 1;
      FirstReports(reports[..n], s) +
      if reports[n].req in s && !Reported(reports[..n], reports[n].req) then [reports[n]] else []
  }

  /** The requests of `s` that no report is about, in order. */
  function Unreported(s: seq<Transfer>, reports: seq<Callback>): seq<Transfer> {
    if |s| == 0 then []
    else (if Reported(reports, s[0]) then [] else [s[0]]) + Unreported(s[1..], reports)
  }

  /** How a request is called back: as its first report says, and aborted if there is none. */
  function Outcome(reports: seq<Callback>, r: Transfer): bool {
    if |reports| == 0 then true else if reports[0].req == r then reports[0].aborted else Outcome(reports[1..], r)
  }

  lemma InReports(reports: seq<Callback>, c: Callback, r: Transfer)
    ensures Reported(reports + [c], r) <==> Reported(reports, r) || r == c.req
  {
    var all := reports + [c];
    assert all[|reports|] == c;
    if Reported(reports, r) { var i :| 0 <= i < |reports| && reports[i].req == r; assert all[i].req == r; }
  }

  lemma RemoveHead(x: Transfer, rest: seq<Transfer>, y: Transfer)
    ensures Remove([x] + rest, y) == if x == y then rest else [x] + Remove(rest, y)
  {
    assert ([x] + rest)[1..] == rest;
  }

  lemma {:induction false} UnreportedMembers(s: seq<Transfer>, reports: seq<Callback>)
    ensures forall r :: r in Unreported(s, reports) <==> r in s && !Reported(reports, r)
    ensures NoDup(s) ==> NoDup(Unreported(s, reports))
  {
    if |s| > 0 {
      assert s == [s[0]] + s[1..];
      NoDupSplit([s[0]], s[1..]);
      UnreportedMembers(s[1..], reports);
      NoDupSplit([s[0]], Unreported(s[1..], reports));
    }
  }

  /** A report about nobody left changes nothing. */
  lemma {:induction false} UnreportedSame(s: seq<Transfer>, reports: seq<Callback>, c: Callback)
    requires c.req !in Unreported(s, reports)
    ensures Unreported(s, reports + [c]) == Unreported(s, reports)
  {
    if |s| > 0 {
      UnreportedMembers(s, reports);
      UnreportedMembers(s[1..], reports);
      InReports(reports, c, s[0]);
      UnreportedSame(s[1..], reports, c);
    }
  }

  lemma UnreportedCons(x: Transfer, s: seq<Transfer>, reports: seq<Callback>)
    ensures Unreported([x] + s, reports) == if Reported(reports, x) then Unreported(s, reports) else [x] + Unreported(s, reports)
  {
    assert ([x] + s)[1..] == s;
  }

  lemma {:induction false} UnreportedLess(s: seq<Transfer>, reports: seq<Callback>, c: Callback)
    requires NoDup(s) && c.req in Unreported(s, reports)
    ensures Unreported(s, reports + [c]) == Remove(Unreported(s, reports), c.req)
  {
    var x, rest := s[0], s[1..];
    assert s == [x] + rest;
    UnreportedCons(x, rest, reports);
    UnreportedCons(x, rest, reports + [c]);
    InReports(reports, c, x);
    RemoveHead(x, Unreported(rest, reports), c.req);
    NoDupSplit([x], rest);
    UnreportedMembers(rest, reports);
    if x == c.req {
      UnreportedMembers(s, reports);
      UnreportedSame(rest, reports, c);
    } else {
      UnreportedLess(rest, reports, c);
    }
  }

  lemma FirstReportsStep(reports: seq<Callback>, c: Callback, s: seq<Transfer>)
    ensures c.req in Unreported(s, reports) ==> FirstReports(reports + [c], s) == FirstReports(reports, s) + [c]
    ensures c.req !in Unreported(s, reports) ==> FirstReports(reports + [c], s) == FirstReports(reports, s)
  {
    assert (reports + [c])[..|reports|] == reports;
    UnreportedMembers(s, reports);
  }

  lemma {:induction false} NobodyReported(s: seq<Transfer>)
    ensures Unreported(s, []) == s && FirstReports([], s) == []
  {
    if |s| > 0 { NobodyReported(s[1..]); }
  }

  lemma AbortsMore(s: seq<Transfer>, r: Transfer)
    ensures Aborts(s + [r]) == Aborts(s) + [Callback(r, true)]
  {
  }

  // What that adds up to

  lemma RequestsConcat(a: seq<Callback>, b: seq<Callback>)
    ensures Requests(a + b) == Requests(a) + Requests(b)
  {
  }

  lemma AbortsRequests(s: seq<Transfer>)
    ensures Requests(Aborts(s)) == s
  {
  }

  lemma {:induction false} SplitBag(s: seq<Transfer>)
    ensures multiset(s) == multiset(Others(s)) + multiset(OfClass(s, 0))
  {
    if |s| > 0 {
      var n := |s| - 1;
      SplitBag(s[..n]);
      assert s == s[..n] + [s[n]];
      IndexOrder(s[n].prio, Transactional);
    }
  }

  lemma {:induction false} UrgentMembers(s: seq<Transfer>)
    ensures forall r :: r in OfClass(s, 0) <==> r in s && r.prio == Transactional
  {
    if |s| > 0 {
      var n := |s| - 1;
      UrgentMembers(s[..n]);
      assert s == s[..n] + [s[n]];
      IndexOrder(s[n].prio, Transactional);
    }
  }

  lemma {:induction false} UrgentOnce(s: seq<Transfer>)
    requires NoDup(s)
    ensures NoDup(OfClass(s, 0))
  {
    if |s| > 0 {
      var n := |s| - 1;
      assert s == s[..n] + [s[n]];
      NoDupSplit(s[..n], [s[n]]);
      UrgentOnce(s[..n]);
      OfClassOnly(s[..n], 0);
      NoDupSplit(OfClass(s[..n], 0), [s[n]]);
    }
  }

  /** Each request is reported first or not at all. */
  lemma {:induction false} ReportBag(reports: seq<Callback>, s: seq<Transfer>)
    requires NoDup(s)
    ensures multiset(Requests(FirstReports(reports, s))) + multiset(Unreported(s, reports)) == multiset(s)
    decreases |reports|
  {
    if |reports| == 0 {
      assert reports == [];
      NobodyReported(s);
    } else {
      var n := |reports| - 1;
      var c := reports[n];
      assert reports == reports[..n] + [c];
      ReportBag(reports[..n], s);
      FirstReportsStep(reports[..n], c, s);
      if c.req in Unreported(s, reports[..n]) {
        RequestsConcat(FirstReports(reports[..n], s), [c]);
        assert Requests([c]) == [c.req];
        UnreportedLess(s, reports[..n], c);
        RemoveBag(Unreported(s, reports[..n]), c.req);
      } else {
        UnreportedSame(s, reports[..n], c);
      }
    }
  }

  lemma {:induction false} RemoveBag(s: seq<Transfer>, r: Transfer)
    requires r in s
    ensures multiset(s) == multiset(Remove(s, r)) + multiset{r}
  {
    assert s == [s[0]] + s[1..];
    if s[0] != r { RemoveBag(s[1..], r); }
  }

  lemma ReportedFirst(reports: seq<Callback>, r: Transfer)
    requires |reports| > 0
    ensures Reported(reports, r) <==> reports[0].req == r || Reported(reports[1..], r)
  {
    if Reported(reports[1..], r) {
      var i :| 0 <= i < |reports[1..]| && reports[1..][i].req == r;
      assert reports[i + 1].req == r;
    }
    if Reported(reports, r) && reports[0].req != r {
      var i :| 0 <= i < |reports| && reports[i].req == r;
      assert reports[1..][i - 1].req == r;
    }
  }

  lemma {:induction false} OutcomeAppend(reports: seq<Callback>, c: Callback, r: Transfer)
    ensures Outcome(reports + [c], r) == if Reported(reports, r) || r != c.req then Outcome(reports, r) else c.aborted
    decreases |reports|
  {
    if |reports| > 0 {
      assert (reports + [c])[1..] == reports[1..] + [c];
      OutcomeAppend(reports[1..], c, r);
      ReportedFirst(reports, r);
    }
  }

  lemma {:induction false} OutcomeWithout(reports: seq<Callback>, r: Transfer)
    requires !Reported(reports, r)
    ensures Outcome(reports, r)
  {
    if |reports| > 0 {
      ReportedFirst(reports, r);
      OutcomeWithout(reports[1..], r);
    }
  }

  /** A reported request is among the first reports with the flag of its first one. */
  lemma {:induction false} FirstReportIs(reports: seq<Callback>, s: seq<Transfer>, r: Transfer)
    requires r in s && Reported(reports, r)
    ensures Callback(r, Outcome(reports, r)) in FirstReports(reports, s)
    decreases |reports|
  {
    var n := |reports| - 1;
    var c := reports[n];
    assert reports == reports[..n] + [c];
    InReports(reports[..n], c, r);
    OutcomeAppend(reports[..n], c, r);
    if Reported(reports[..n], r) {
      FirstReportIs(reports[..n], s, r);
    } else {
      OutcomeWithout(reports[..n], r);
    }
  }

  lemma {:induction false} FirstReportsOf(reports: seq<Callback>, s: seq<Transfer>)
    ensures forall c :: c in FirstReports(reports, s) ==> c.req in s
  {
    if |reports| > 0 { FirstReportsOf(reports[..|reports| - 1], s); }
  }

  /** The callbacks of a drain: the spliced requests, those aborted in flight, the reported, the overdue. */
  ghost function DrainCalls(spliced: seq<Transfer>, active: seq<Transfer>, reports: seq<Callback>): seq<Callback> {
    Aborts(spliced) + Aborts(Others(active)) + FirstReports(reports, OfClass(active, 0))
    + Aborts(Unreported(OfClass(active, 0), reports))
  }

  /** They reach the spliced and the in-flight requests, once each. */
  lemma DrainReaches(spliced: seq<Transfer>, active: seq<Transfer>, reports: seq<Callback>)
    requires NoDup(active)
    ensures multiset(Requests(DrainCalls(spliced, active, reports))) == multiset(spliced) + multiset(active)
  {
    var a, b := Aborts(spliced), Aborts(Others(active));
    var c, d := FirstReports(reports, OfClass(active, 0)), Aborts(Unreported(OfClass(active, 0), reports));
    SplitBag(active);
    UrgentOnce(active);
    ReportBag(reports, OfClass(active, 0));
    RequestsConcat(a, b);
    RequestsConcat(a + b, c);
    RequestsConcat(a + b + c, d);
    AbortsRequests(spliced);
    AbortsRequests(Others(active));
    AbortsRequests(Unreported(OfClass(active, 0), reports));
  }

  /** Outside TRANSACTIONAL they say aborted; in flight, TRANSACTIONAL ones say what was reported first. */
  lemma DrainSays(spliced: seq<Transfer>, active: seq<Transfer>, reports: seq<Callback>)
    ensures forall c :: c in DrainCalls(spliced, active, reports) && c.req.prio != Transactional ==> c.aborted
    ensures forall r :: r in active && r.prio == Transactional ==>
      Callback(r, Outcome(reports, r)) in DrainCalls(spliced, active, reports)
  {
    var all := DrainCalls(spliced, active, reports);
    var urgent := OfClass(active, 0);
    UrgentMembers(active);
    FirstReportsOf(reports, urgent);
    UnreportedMembers(urgent, reports);
    forall r | r in active && r.prio == Transactional ensures Callback(r, Outcome(reports, r)) in all {
      if Reported(reports, r) {
        FirstReportIs(reports, urgent, r);
      } else {
        OutcomeWithout(reports, r);
        var i :| 0 <= i < |Unreported(urgent, reports)| && Unreported(urgent, reports)[i] == r;
        assert Aborts(Unreported(urgent, reports))[i] == Callback(r, true);
      }
    }
  }

  /** Every queue is what was kept, then what arrived in its class; the first to come have arrived. */
  ghost predicate Standing(queues: seq<seq<Transfer>>, total: int, kept: seq<seq<Transfer>>, most: int,
                           tried: seq<Transfer>, arrived: seq<Transfer>)
  {
    && |queues| == 3 && total == |queues[0]| + |queues[1]| + |queues[2]|
    && |kept| == 3 && queues[0] == kept[0] + OfClass(arrived, 0)
    && queues[1] == kept[1] + OfClass(arrived, 1) && queues[2] == kept[2] + OfClass(arrived, 2)
    && total == |kept[0]| + |kept[1]| + |kept[2]| + |arrived|
    && arrived == Taken(tried, most - |kept[0]| - |kept[1]| - |kept[2]|)
  }

  lemma Accepted(queues: seq<seq<Transfer>>, total: int, kept: seq<seq<Transfer>>, most: int,
                 tried: seq<Transfer>, arrived: seq<Transfer>, r: Transfer)
    requires Standing(queues, total, kept, most, tried, arrived) && total < most
    ensures var i := Index(r.prio);
      Standing(queues[i := queues[i] + [r]], total + 1, kept, most, tried + [r], arrived + [r])
  {
    TakenOne(tried, r, most - |kept[0]| - |kept[1]| - |kept[2]|);
    OneMore(queues[0], kept[0], arrived, r, 0);
    OneMore(queues[1], kept[1], arrived, r, 1);
    OneMore(queues[2], kept[2], arrived, r, 2);
  }

  lemma Full(queues: seq<seq<Transfer>>, total: int, kept: seq<seq<Transfer>>, most: int,
             tried: seq<Transfer>, arrived: seq<Transfer>, r: Transfer)
    requires Standing(queues, total, kept, most, tried, arrived) && total >= most
    ensures Standing(queues, total, kept, most, tried + [r], arrived)
  {
    TakenOne(tried, r, most - |kept[0]| - |kept[1]| - |kept[2]|);
  }

  /** The walk of step 2 has passed the first `m` of `all` and kept `i` of them. */
  ghost predicate Passed(all: seq<Transfer>, m: nat, i: nat, active: seq<Transfer>) {
    m <= |all| && active == OfClass(all[..m], 0) + all[m..] && i == |OfClass(all[..m], 0)|
  }

  lemma PassOne(all: seq<Transfer>, m: nat, i: nat, active: seq<Transfer>)
    requires Passed(all, m, i, active) && i < |active|
    ensures m < |all| && active[i] == all[m]
    ensures if all[m].prio == Transactional then Passed(all, m + 1, i + 1, active) && Others(all[..m + 1]) == Others(all[..m])
            else Passed(all, m + 1, i, active[..i] + active[i + 1..]) && Others(all[..m + 1]) == Others(all[..m]) + [all[m]]
  {
    assert all[..m + 1][..m] == all[..m];
    assert all[m..] == [all[m]] + all[m + 1..];
    Assoc(OfClass(all[..m], 0), [all[m]], all[m + 1..]);
    IndexOrder(all[m].prio, Transactional);
  }

  /** The rounds that ran: all of them, or as many as it takes until every one of `urgent` is reported. */
  ghost predicate Ran(rounds: seq<seq<Callback>>, urgent: seq<Transfer>, ran: nat) {
    Needed(rounds, urgent, ran) && (ran < |rounds| ==> Unreported(urgent, Flat(rounds[..ran])) == [])
  }

  /** Before the last of the first `n` rounds one of `urgent` was still unreported. */
  ghost predicate Needed(rounds: seq<seq<Callback>>, urgent: seq<Transfer>, n: nat) {
    n <= |rounds| && (n > 0 ==> Unreported(urgent, Flat(rounds[..n - 1])) != [])
  }

  /** The callbacks since `from` reach exactly `owed`, once each. */
  ghost predicate Paid(from: seq<Callback>, calls: seq<Callback>, owed: multiset<Transfer>) {
    from <= calls && multiset(Requests(calls[|from|..])) == owed
  }

  /** The callbacks since `from` to requests outside TRANSACTIONAL say aborted. */
  ghost predicate Aborting(from: seq<Callback>, calls: seq<Callback>) {
    forall i :: |from| <= i < |calls| && calls[i].req.prio != Transactional ==> calls[i].aborted
  }

  /** A TRANSACTIONAL request that was in flight is called back as it was first reported. */
  ghost predicate Answered(from: seq<Callback>, calls: seq<Callback>, active: seq<Transfer>, reports: seq<Callback>) {
    from <= calls && forall r :: r in active && r.prio == Transactional ==> Callback(r, Outcome(reports, r)) in calls[|from|..]
  }

  /** What steps 2 to 4 append. */
  ghost predicate Finished(from: seq<Callback>, calls: seq<Callback>, active: seq<Transfer>, reports: seq<Callback>) {
    var urgent := OfClass(active, 0);
    calls == from + Aborts(Others(active)) + FirstReports(reports, urgent) + Aborts(Unreported(urgent, reports))
  }

  lemma DrainCallsAre(from: seq<Callback>, spliced: seq<Transfer>, active: seq<Transfer>, reports: seq<Callback>, calls: seq<Callback>)
    requires NoDup(active)
    requires Finished(from + Aborts(spliced), calls, active, reports)
    ensures calls == from + DrainCalls(spliced, active, reports)
    ensures Paid(from, calls, multiset(spliced) + multiset(active))
    ensures Aborting(from, calls) && Answered(from, calls, active, reports)
  {
    var all := DrainCalls(spliced, active, reports);
    assert calls == from + all by {
      var a, b := Aborts(spliced), Aborts(Others(active));
      var c, d := FirstReports(reports, OfClass(active, 0)), Aborts(Unreported(OfClass(active, 0), reports));
      Assoc(from, a, b);
      Assoc(from, a + b, c);
      Assoc(from, a + b + c, d);
    }
    assert calls[|from|..] == all;
    DrainReaches(spliced, active, reports);
    DrainSays(spliced, active, reports);
    forall i | |from| <= i < |calls| && calls[i].req.prio != Transactional ensures calls[i].aborted {
      assert calls[i] == all[i - |from|] && all[i - |from|] in all;
    }
  }

  class Multi {
    var queues: seq<seq<Transfer>>
    var total: int
    var maxQueued: int
    var active: seq<Transfer>
    var counts: seq<int>
    var calls: seq<Callback>
    var script: seq<seq<Transfer>>         // what other threads are still to submit, batch by batch
    ghost var whole: seq<seq<Transfer>>    // the script as the drain began
    ghost var kept: seq<seq<Transfer>>     // the queues as the splice left them
    ghost var tried: seq<Transfer>         // what was submitted since, in order
    ghost var arrived: seq<Transfer>       // what of that was queued
    ghost var moments: nat                 // how often the drain gave others a moment since

    /** Each queue holds requests of its class; the total agrees. */
    ghost predicate Typed()
      reads this
    {
      && |queues| == 3 && total == |queues[0]| + |queues[1]| + |queues[2]|
      && forall i :: 0 <= i < 3 ==> AllOf(queues[i], i)
    }

    /** The queues since the splice. */
    ghost predicate Queued()
      reads this
    {
      Standing(queues, total, kept, maxQueued, tried, arrived)
    }

    /** Each moment submits one batch of the script. */
    ghost predicate Fed()
      reads this
    {
      tried + Flat(script) == Flat(whole) && (script == [] || |whole| - |script| == moments)
    }

    ghost predicate Grown()
      reads this
    {
      Queued() && Fed()
    }

    ghost predicate Counted()
      reads this
    {
      |counts| == 3 && NoDup(active) && forall p: Prio :: counts[Index(p)] == Count(active, p)
    }

    /** curl_request_submit past its unlocked tests: last in its class, or refused when full. */
    method Submit(r: Transfer)
      requires Queued()
      modifies this`queues, this`total, this`tried, this`arrived
      ensures Queued() && tried == old(tried) + [r]
      ensures arrived == if old(total) >= maxQueued then old(arrived) else old(arrived) + [r]
    {
      if total >= maxQueued {
        Full(queues, total, kept, maxQueued, tried, arrived, r);
        tried := tried + [r];
        return;
      }
      Accepted(queues, total, kept, maxQueued, tried, arrived, r);
      var i := Index(r.prio);
      queues := queues[i := queues[i] + [r]];
      total := total + 1;
      tried, arrived := tried + [r], arrived + [r];
    }

    /** A batch is queued in order, as far as there is room. */
    method SubmitAll(batch: seq<Transfer>)
      requires Queued()
      modifies this`queues, this`total, this`tried, this`arrived
      ensures Queued() && tried == old(tried) + batch
    {
      for k := 0 to |batch|
        invariant Queued() && tried == old(tried) + batch[..k]
      {
        Submit(batch[k]);
        Assoc(old(tried), batch[..k], [batch[k]]);
        assert batch[..k + 1] == batch[..k] + [batch[k]];
      }
      assert batch[..|batch|] == batch;
    }

    /** A moment without the lock: other threads submit their next batch. */
    method Yield()
      requires Grown()
      modifies this`queues, this`total, this`tried, this`arrived, this`script, this`moments
      ensures Grown() && moments == old(moments) + 1
    {
      moments := moments + 1;
      if script == [] { return; }
      var batch := script[0];
      script := script[1..];
      SubmitAll(batch);
      Assoc(old(tried), batch, Flat(script));
    }

    /** One completion callback, run with no lock held. */
    method Fire(r: Transfer, aborted: bool)
      requires Grown()
      modifies this`calls, this`queues, this`total, this`tried, this`arrived, this`script, this`moments
      ensures Grown() && calls == old(calls) + [Callback(r, aborted)] && moments == old(moments) + 1
    {
      calls := calls + [Callback(r, aborted)];
      Yield();
    }

    /** curl_finish_request: the callback, the count, then the unlink from the in-flight list. */
    method Finish(r: Transfer, aborted: bool)
      requires Grown() && Counted() && r in active
      modifies this`calls, this`counts, this`active, this`queues, this`total, this`tried, this`arrived, this`script, this`moments
      ensures Grown() && Counted() && active == Remove(old(active), r)
      ensures calls == old(calls) + [Callback(r, aborted)] && moments == old(moments) + 1
    {
      Fire(r, aborted);
      Unlink(r);
    }

    /** The class count down, and the request off the in-flight list. */
    method Unlink(r: Transfer)
      requires Counted() && r in active
      modifies this`counts, this`active
      ensures Counted() && active == Remove(old(active), r)
    {
      RemoveMembers(active, r);
      forall p: Prio { CountRemove(active, r, p); }
      counts := counts[Index(r.prio) := counts[Index(r.prio)] - 1];
      active := Remove(active, r);
    }

    /** The loop of step 1: every sub-queue whose head is not TRANSACTIONAL goes. */
    method SpliceOff() returns (list: seq<Transfer>)
      requires Typed()
      modifies this`queues, this`total
      ensures Typed() && queues == [old(queues)[0], [], []] && list == old(queues)[2] + old(queues)[1]
    {
      ghost var was := queues;
      list := [];
      for i := 0 to 3
        invariant Typed()
        invariant queues[0] == was[0] && forall j :: 0 < j < 3 ==> queues[j] == if j < i then [] else was[j]
        invariant list == (if i > 2 then was[2] else []) + if i > 1 then was[1] else []
      {
        if queues[i] != [] && queues[i][0].prio != Transactional {
          list := queues[i] + list;
          total := total - |queues[i]|;
          queues := queues[i := []];
        } else {
          assert queues[i] == [] || Index(queues[i][0].prio) == i;
        }
      }
    }

    /** The locked part of step 1. */
    method Splice() returns (list: seq<Transfer>)
      requires Typed()
      modifies this`queues, this`total, this`whole, this`kept, this`tried, this`arrived, this`moments
      ensures Grown() && moments == 0 && whole == script && kept == [old(queues)[0], [], []]
      ensures list == old(queues)[2] + old(queues)[1]
    {
      list := SpliceOff();
      whole, kept, tried, arrived, moments := script, queues, [], [], 0;
    }

    /** Step 1 with its callbacks, between which other threads may submit. */
    method SpliceAndAbort()
      requires Typed()
      modifies this`queues, this`total, this`calls, this`tried, this`arrived, this`script, this`moments, this`whole, this`kept
      ensures Grown() && whole == old(script) && kept == [old(queues)[0], [], []]
      ensures calls == old(calls) + Aborts(old(queues)[2] + old(queues)[1]) && moments > |calls| - |old(calls)|
    {
      var list := Splice();
      Yield();
      AbortAll(list);
    }

    method AbortAll(list: seq<Transfer>)
      requires Grown()
      modifies this`calls, this`queues, this`total, this`tried, this`arrived, this`script, this`moments
      ensures Grown() && calls == old(calls) + Aborts(list) && moments - |calls| == old(moments - |calls|)
    {
      var i := 0;
      while i < |list|
        invariant i <= |list| && Grown() && calls == old(calls) + Aborts(list[..i])
        invariant moments - |calls| == old(moments - |calls|)
      {
        AbortsMore(list[..i], list[i]);
        Assoc(old(calls), Aborts(list[..i]), [Callback(list[i], true)]);
        assert list[..i + 1] == list[..i] + [list[i]];
        Fire(list[i], true);
        i := i + 1;
      }
      assert list[..i] == list;
    }

    /** Step 2: abort every in-flight request outside TRANSACTIONAL, with the successor cached. */
    method AbortInFlight()
      requires Grown() && Counted()
      modifies this`calls, this`counts, this`active, this`queues, this`total, this`tried, this`arrived, this`script, this`moments
      ensures Grown() && Counted() && active == OfClass(old(active), 0)
      ensures calls == old(calls) + Aborts(Others(old(active))) && moments - |calls| == old(moments - |calls|)
    {
      ghost var all, m := active, 0;
      var i: nat := 0;
      WalkStarts();
      while i < |active|
        invariant Grown() && Counted() && Walked(all, old(calls), m, i)
        invariant moments - |calls| == old(moments - |calls|)
        decreases |active| - i
      {
        i := AbortOrPass(all, old(calls), m, i);
        m := m + 1;
      }
      WalkEnds(all, old(calls), m, i);
    }

    lemma WalkStarts()
      ensures Walked(active, calls, 0, 0)
    {
      assert active[0..] == active;
      assert calls + Aborts(Others(active[..0])) == calls;
    }

    lemma WalkEnds(all: seq<Transfer>, from: seq<Callback>, m: nat, i: nat)
      requires Walked(all, from, m, i) && i >= |active|
      ensures active == OfClass(all, 0) && calls == from + Aborts(Others(all))
    {
      assert all[..m] == all;
    }

    /** The walk stands behind the first `m` of `all`, `i` of which it kept; the others are aborted. */
    ghost predicate Walked(all: seq<Transfer>, from: seq<Callback>, m: nat, i: nat)
      reads this
    {
      Passed(all, m, i, active) && calls == from + Aborts(Others(all[..m]))
    }

    /** One request of the walk: a TRANSACTIONAL one is passed over, any other aborted. */
    method AbortOrPass(ghost all: seq<Transfer>, ghost from: seq<Callback>, ghost m: nat, i: nat) returns (next: nat)
      requires Grown() && Counted() && Walked(all, from, m, i) && i < |active|
      modifies this`calls, this`counts, this`active, this`queues, this`total, this`tried, this`arrived, this`script, this`moments
      ensures Grown() && Counted() && Walked(all, from, m + 1, next) && |active| - next < old(|active|) - i
      ensures moments - |calls| == old(moments - |calls|)
    {
      PassOne(all, m, i, active);
      next := i;
      if active[i].prio != Transactional {
        AbortsMore(Others(all[..m]), all[m]);
        Assoc(from, Aborts(Others(all[..m])), [Callback(all[m], true)]);
        RemoveFirst(active, i);
        Finish(active[i], true);
      } else {
        next := i + 1;
      }
    }

    /** Step 3: finish what libcurl reports, round by round, until TRANSACTIONAL drains or time is up. */
    method Pump(rounds: seq<seq<Callback>>) returns (ghost ran: nat)
      requires Grown() && Counted() && forall x :: x in active ==> x.prio == Transactional
      modifies this`calls, this`counts, this`active, this`queues, this`total, this`tried, this`arrived, this`script, this`moments
      ensures Grown() && Counted() && Ran(rounds, old(active), ran)
      ensures Pumped(old(active), old(calls), Flat(rounds[..ran]))
      ensures moments - |calls| >= old(moments - |calls|)
    {
      ghost var all, from, spare := active, calls, moments - |calls|;
      var n: nat := 0;
      PumpStarts(rounds);
      while counts[0] > 0 && n < |rounds|
        invariant Grown() && Counted() && PumpedTo(rounds, n, all, from) && moments - |calls| >= spare
        decreases |rounds| - n
      {
        PumpRound(rounds, n, all, from);
        n := n + 1;
      }
      ran := n;
      PumpEnds(rounds, n, all, from);
    }

    /** `n` rounds were needed so far, and what they reported is passed on. */
    ghost predicate PumpedTo(rounds: seq<seq<Callback>>, n: nat, all: seq<Transfer>, from: seq<Callback>)
      reads this
    {
      Needed(rounds, all, n) && Pumped(all, from, Flat(rounds[..n]))
    }

    lemma PumpStarts(rounds: seq<seq<Callback>>)
      ensures PumpedTo(rounds, 0, active, calls)
    {
      NobodyReported(active);
      assert Flat(rounds[..0]) == [] && calls + [] == calls;
    }

    lemma PumpEnds(rounds: seq<seq<Callback>>, n: nat, all: seq<Transfer>, from: seq<Callback>)
      requires Counted() && PumpedTo(rounds, n, all, from) && (forall x :: x in all ==> x.prio == Transactional)
      requires counts[0] <= 0 || n >= |rounds|
      ensures Ran(rounds, all, n) && Pumped(all, from, Flat(rounds[..n]))
    {
      StillUrgent(all, Flat(rounds[..n]));
    }

    /** One round: other threads have a moment while the transfers run, then the completions. */
    method PumpRound(rounds: seq<seq<Callback>>, n: nat, ghost all: seq<Transfer>, ghost from: seq<Callback>)
      requires Grown() && Counted() && n < |rounds| && counts[0] > 0
      requires NoDup(all) && PumpedTo(rounds, n, all, from) && forall x :: x in all ==> x.prio == Transactional
      modifies this`calls, this`counts, this`active, this`queues, this`total, this`tried, this`arrived, this`script, this`moments
      ensures Grown() && Counted() && PumpedTo(rounds, n + 1, all, from)
      ensures moments - |calls| >= old(moments - |calls|)
    {
      StillUrgent(all, Flat(rounds[..n]));
      FlatMore(rounds, n);
      Yield();
      FinishRound(rounds[n], all, from, Flat(rounds[..n]));
    }

    /** The reports so far have been passed on as they came, each request's first one. */
    ghost predicate Pumped(all: seq<Transfer>, from: seq<Callback>, reports: seq<Callback>)
      reads this
    {
      active == Unreported(all, reports) && calls == from + FirstReports(reports, all)
    }

    /** While TRANSACTIONAL requests are counted, some are in flight. */
    lemma StillUrgent(all: seq<Transfer>, reports: seq<Callback>)
      requires Counted() && active == Unreported(all, reports) && forall x :: x in all ==> x.prio == Transactional
      ensures counts[0] > 0 <==> active != []
    {
      UnreportedMembers(all, reports);
      CountNone(active, Transactional);
      assert Index(Transactional) == 0;
      if active != [] { assert active[0] in active; }
    }

    /** The completions of one curl_multi_perform. */
    method FinishRound(done: seq<Callback>, ghost all: seq<Transfer>, ghost from: seq<Callback>, ghost reports: seq<Callback>)
      requires Grown() && Counted() && NoDup(all) && Pumped(all, from, reports)
      modifies this`calls, this`counts, this`active, this`queues, this`total, this`tried, this`arrived, this`script, this`moments
      ensures Grown() && Counted() && Pumped(all, from, reports + done)
      ensures moments - |calls| == old(moments - |calls|)
    {
      assert reports + done[..0] == reports;
      for k := 0 to |done|
        invariant Grown() && Counted() && Pumped(all, from, reports + done[..k])
        invariant moments - |calls| == old(moments - |calls|)
      {
        NextOf(reports, done, k);
        FinishOne(done[k], all, from, reports + done[..k]);
      }
      assert done[..|done|] == done;
    }

    /** One completion: passed on with its result if the request is still in flight. */
    method FinishOne(c: Callback, ghost all: seq<Transfer>, ghost from: seq<Callback>, ghost reports: seq<Callback>)
      requires Grown() && Counted() && NoDup(all) && Pumped(all, from, reports)
      modifies this`calls, this`counts, this`active, this`queues, this`total, this`tried, this`arrived, this`script, this`moments
      ensures Grown() && Counted() && Pumped(all, from, reports + [c])
      ensures moments - |calls| == old(moments - |calls|)
    {
      FirstReportsStep(reports, c, all);
      if c.req in active {
        UnreportedLess(all, reports, c);
        Assoc(from, FirstReports(reports, all), [c]);
        Finish(c.req, c.aborted);
      } else {
        UnreportedSame(all, reports, c);
      }
    }

    /** Step 4: past the deadline, abort whatever is left in flight. */
    method ForceAbort()
      requires Grown() && Counted() && forall x :: x in active ==> x.prio == Transactional
      modifies this`calls, this`counts, this`active, this`queues, this`total, this`tried, this`arrived, this`script, this`moments
      ensures Grown() && Counted() && active == []
      ensures calls == old(calls) + Aborts(old(active)) && moments - |calls| == old(moments - |calls|)
    {
      ghost var all, m := active, 0;
      NobodyReported(active);
      StillUrgent(active, []);
      if counts[0] > 0 {
        while active != []
          invariant Grown() && Counted() && Forced(all, old(calls), m)
          invariant moments - |calls| == old(moments - |calls|)
          decreases |active|
        {
          ForceNext(all, old(calls), m);
          m := m + 1;
        }
        assert all[..m] == all;
      }
    }

    /** The first `m` of `all` are aborted and the rest still in flight. */
    ghost predicate Forced(all: seq<Transfer>, from: seq<Callback>, m: nat)
      reads this
    {
      m <= |all| && active == all[m..] && calls == from + Aborts(all[..m])
    }

    method ForceNext(ghost all: seq<Transfer>, ghost from: seq<Callback>, ghost m: nat)
      requires Grown() && Counted() && Forced(all, from, m) && active != []
      modifies this`calls, this`counts, this`active, this`queues, this`total, this`tried, this`arrived, this`script, this`moments
      ensures Grown() && Counted() && Forced(all, from, m + 1) && |active| < old(|active|)
      ensures moments - |calls| == old(moments - |calls|)
    {
      AbortsMore(all[..m], all[m]);
      Assoc(from, Aborts(all[..m]), [Callback(all[m], true)]);
      assert all[..m + 1] == all[..m] + [all[m]];
      RemoveFirst(active, 0);
      Finish(active[0], true);
    }

    /** Steps 2 to 4: every request in flight is called back once. */
    method FinishAll(rounds: seq<seq<Callback>>) returns (ghost ran: nat)
      requires Grown() && Counted()
      modifies this`calls, this`counts, this`active, this`queues, this`total, this`tried, this`arrived, this`script, this`moments
      ensures Grown() && Counted() && active == [] && moments - |calls| >= old(moments - |calls|)
      ensures Ran(rounds, OfClass(old(active), 0), ran)
      ensures Finished(old(calls), calls, old(active), Flat(rounds[..ran]))
    {
      UrgentMembers(active);
      UrgentOnce(active);
      AbortInFlight();
      ran := Pump(rounds);
      UnreportedMembers(OfClass(old(active), 0), Flat(rounds[..ran]));
      ForceAbort();
    }

    /**
     * The whole drain, whatever other threads submit meanwhile. Every request
     * queued outside TRANSACTIONAL and every request in flight is called back
     * once, and nobody else is: aborted, but for the TRANSACTIONAL requests in
     * flight, which are called back as the rounds that ran reported them first
     * and aborted only if none did. The rounds go on until all of those are
     * reported or time is up. Nothing stays in flight; queued TRANSACTIONAL
     * requests stay in front, in order. Behind them stand exactly the first
     * submissions made since the splice for which there was room, and others
     * had a moment before and after each callback.
     */
    method Drain(rounds: seq<seq<Callback>>) returns (ghost ran: nat)
      requires Typed() && Counted()
      modifies this
      ensures Typed() && active == [] && counts == [0, 0, 0] && maxQueued == old(maxQueued)
      ensures queues == [old(queues)[0] + OfClass(arrived, 0), OfClass(arrived, 1), OfClass(arrived, 2)]
      ensures arrived == Taken(tried, maxQueued - |old(queues)[0]|)
      ensures tried + Flat(script) == Flat(old(script))
      ensures script == [] || |old(script)| - |script| == moments
      ensures Ran(rounds, OfClass(old(active), 0), ran)
      ensures calls == old(calls) + DrainCalls(old(queues)[2] + old(queues)[1], old(active), Flat(rounds[..ran]))
      ensures Paid(old(calls), calls, multiset(old(queues)[2] + old(queues)[1]) + multiset(old(active)))
      ensures Aborting(old(calls), calls) && Answered(old(calls), calls, old(active), Flat(rounds[..ran]))
      ensures moments > |calls| - |old(calls)|
    {
      ghost var urgent := queues[0];
      SpliceAndAbort();
      ran := FinishAll(rounds);
      QueuesAre(urgent);
      ZeroCounts();
      DrainCallsAre(old(calls), old(queues[2] + queues[1]), old(active), Flat(rounds[..ran]), calls);
    }

    lemma QueuesAre(urgent: seq<Transfer>)
      requires Grown() && kept == [urgent, [], []] && AllOf(urgent, 0)
      ensures Typed() && queues == [urgent + OfClass(arrived, 0), OfClass(arrived, 1), OfClass(arrived, 2)]
    {
      OfClassOnly(arrived, 0);
      OfClassOnly(arrived, 1);
      OfClassOnly(arrived, 2);
      assert queues[1] == [] + OfClass(arrived, 1) == OfClass(arrived, 1);
      assert queues[2] == [] + OfClass(arrived, 2) == OfClass(arrived, 2);
    }

    lemma ZeroCounts()
      requires Counted() && active == []
      ensures counts == [0, 0, 0]
    {
      assert forall p: Prio :: counts[Index(p)] == 0;
      assert Index(Transactional) == 0 && Index(Normal) == 1 && Index(Bulk) == 2;
    }
  }

  /**
   * A drain with nothing to do but one late submitter: whatever its class, the
   * request is queued when the drain ends and has not been called back.
   */
  method LateSubmitStays(r: Transfer) returns (queues: seq<seq<Transfer>>, calls: seq<Callback>)
    ensures queues == [OfClass([r], 0), OfClass([r], 1), OfClass([r], 2)] && queues[Index(r.prio)] == [r]
    ensures calls == []
  {
    var m := IdleMulti(r);
    ghost var _ := m.Drain([]);
    queues, calls := m.queues, m.calls;
    NoCalls(calls);
    OneLate(r, m.script, m.tried, m.moments);
    assert [] + OfClass([r], 0) == OfClass([r], 0);
  }

  /** Nothing queued, nothing in flight, and one thread about to submit `r`. */
  method IdleMulti(r: Transfer) returns (m: Multi)
    ensures fresh(m) && m.Typed() && m.Counted()
    ensures m.queues == [[], [], []] && m.maxQueued == 1 && m.active == [] && m.calls == [] && m.script == [[r]]
  {
    m := new Multi;
    m.queues, m.total, m.maxQueued := [[], [], []], 0, 1;
    m.active, m.counts, m.calls, m.script := [], [0, 0, 0], [], [[r]];
  }

  lemma OneLate(r: Transfer, script: seq<seq<Transfer>>, tried: seq<Transfer>, moments: nat)
    requires tried + Flat(script) == Flat([[r]]) && (script == [] || 1 - |script| == moments) && moments > 0
    ensures tried == [r] && Taken(tried, 1) == [r] && OfClass([r], Index(r.prio)) == [r]
  {
    assert Flat([[r]]) == [r] + Flat([[r]][1..]) == [r];
    assert [r][..0] == [];
  }

  lemma NoCalls(calls: seq<Callback>)
    requires Paid([], calls, multiset([] + []) + multiset([]))
    ensures calls == []
  {
    assert calls[0..] == calls;
    assert |Requests(calls)| == |multiset(Requests(calls))|;
  }
}
