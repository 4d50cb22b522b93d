/**
 * The order in which queued requests are started, over every run (core/curl.c):
 * oldest first within a class, no class before a more urgent one, and each in
 * the class its caller chose.
 */
module CurlOrder {
  import opened Seqs
  import opened CurlQueues
  import opened CurlLife
  import opened CurlLedger
  import opened CurlSteps
  import opened CurlTheorems

  ghost predicate Goes(s: State, step: Step, t: State) { Inv(s) && Enabled(s, step) && t == Apply(s, step) }

  lemma RunGoes(tr: seq<State>, k: nat) returns (step: Step)
    requires Run(tr) && k + 1 < |tr|
    ensures Goes(tr[k], step, tr[k + 1])
  {
    RunInv(tr, k);
    assert Next(tr[k], tr[k + 1]);
    step :| Enabled(tr[k], step) && tr[k + 1] == Apply(tr[k], step);
  }

  function Queue(s: State, p: Prio): seq<Addr> { if SubQueue(p) in s.at then s.at[SubQueue(p)] else [] }

  /** `a` stands before `b`. */
  predicate Ahead(q: seq<Addr>, a: Addr, b: Addr) {
    |q| > 0 && ((q[0] == a && b in q[1..]) || Ahead(q[1..], a, b))
  }

  lemma {:induction false} AheadBoth(q: seq<Addr>, a: Addr, b: Addr)
    requires Ahead(q, a, b)
    ensures a in q && b in q[1..]
  {
    if !(q[0] == a && b in q[1..]) { AheadBoth(q[1..], a, b); }
  }

  lemma {:induction false} AheadAppend(q: seq<Addr>, x: Addr, a: Addr, b: Addr)
    requires Ahead(q, a, b)
    ensures Ahead(q + [x], a, b)
  {
    assert (q + [x])[1..] == q[1..] + [x];
    if !(q[0] == a && b in q[1..]) { AheadAppend(q[1..], x, a, b); }
  }

  lemma {:induction false} RemoveOther(q: seq<Addr>, x: Addr, b: Addr)
    requires b in q && b != x
    ensures b in Remove(q, x)
  {
    if q[0] != x && q[0] != b { RemoveOther(q[1..], x, b); }
  }

  lemma {:induction false} AheadRemove(q: seq<Addr>, x: Addr, a: Addr, b: Addr)
    requires Ahead(q, a, b) && x != a && x != b
    ensures Ahead(Remove(q, x), a, b)
  {
    if q[0] != x {
      assert Remove(q, x)[1..] == Remove(q[1..], x);
      if q[0] == a && b in q[1..] { RemoveOther(q[1..], x, b); } else { AheadRemove(q[1..], x, a, b); }
    }
  }

  /** What a step does to one sub-queue: nothing, one more at the end, or one less. */
  ghost predicate QueueMoves(q: seq<Addr>, q': seq<Addr>) {
    || q' == q
    || (exists x :: q' == q + [x])
    || (exists x :: x in q && q' == Remove(q, x))
  }

  lemma MovedQueue(at: map<Place, seq<Addr>>, a: Addr, from: Place, to: Place, p: Prio)
    requires Whole(at) && a in at[from] && from != to
    ensures QueueMoves(at[SubQueue(p)], Moved(at, a, from, to)[SubQueue(p)])
  {
  }

  lemma StepAt(s: State, step: Step)
    requires Typed(s) && Partition(s.at, s.req.Keys) && Fields(s) && Enabled(s, step) && !step.Cancel? && !step.Create?
    ensures var from, to := Source(s, step), Target(s, step);
      Apply(s, step).at == if from == to then s.at else Moved(s.at, Touched(s, step), from, to)
  {
  }

  lemma CreateAt(s: State, a: Addr, p: Prio)
    requires Whole(s.at)
    ensures SubQueue(p) in CreateStep(s, a).at && CreateStep(s, a).at[SubQueue(p)] == s.at[SubQueue(p)]
  {
  }

  lemma StepMoves(s: State, step: Step, p: Prio)
    requires Typed(s) && Partition(s.at, s.req.Keys) && Fields(s) && Enabled(s, step)
    ensures NoDup(Queue(s, p)) && QueueMoves(Queue(s, p), Queue(Apply(s, step), p))
  {
    if step.Create? {
      CreateAt(s, step.a, p);
    } else if !step.Cancel? {
      StepAt(s, step);
      SourceHolds(s, step);
      if Source(s, step) != Target(s, step) { MovedQueue(s.at, Touched(s, step), Source(s, step), Target(s, step), p); }
    }
  }

  lemma RunMoves(tr: seq<State>, k: nat, p: Prio)
    requires Run(tr) && k + 1 < |tr|
    ensures MovesOn(Queue(tr[k], p), Queue(tr[k + 1], p))
  {
    var step := RunGoes(tr, k);
    StepMoves(tr[k], step, p);
  }

  lemma AheadStays(q: seq<Addr>, q': seq<Addr>, a: Addr, b: Addr)
    requires MovesOn(q, q') && Ahead(q, a, b) && a in q' && b in q'
    ensures Ahead(q', a, b)
  {
    if q' != q {
      if x :| q' == q + [x] {
        AheadAppend(q, x, a, b);
      } else {
        var x :| x in q && q' == Remove(q, x);
        RemoveMembers(q, x);
        AheadRemove(q, x, a, b);
      }
    }
  }

  ghost predicate MovesOn(q: seq<Addr>, q': seq<Addr>) { NoDup(q) && QueueMoves(q, q') }

  /** A sub-queue from moment to moment. */
  ghost predicate History(qs: seq<seq<Addr>>) {
    forall i, j :: 0 <= i < |qs| && j == i + 1 < |qs| ==> MovesOn(qs[i], qs[j])
  }

  lemma {:induction false} AheadAlong(qs: seq<seq<Addr>>, i: nat, k: nat, a: Addr, b: Addr)
    requires i <= k < |qs| && History(qs) && Ahead(qs[i], a, b)
    requires forall m :: i <= m <= k ==> a in qs[m] && b in qs[m]
    ensures Ahead(qs[k], a, b)
  {
    if i < k {
      AheadAlong(qs, i, k - 1, a, b);
      AheadStays(qs[k - 1], qs[k], a, b);
    }
  }

  lemma HistoryMore(qs: seq<seq<Addr>>, q: seq<Addr>)
    requires |qs| > 0 && History(qs) && MovesOn(qs[|qs| - 1], q)
    ensures History(qs + [q])
  {
  }

  lemma {:induction false} RunHistory(tr: seq<State>, n: nat, p: Prio) returns (qs: seq<seq<Addr>>)
    requires Run(tr) && n < |tr|
    ensures |qs| == n + 1 && History(qs) && forall m {:trigger qs[m]} :: 0 <= m <= n ==> qs[m] == Queue(tr[m], p)
  {
    if n == 0 {
      qs := [Queue(tr[0], p)];
    } else {
      qs := RunHistory(tr, n - 1, p);
      RunMoves(tr, n - 1, p);
      HistoryMore(qs, Queue(tr[n], p));
      qs := qs + [Queue(tr[n], p)];
    }
  }

  /** A queued request is started as the oldest of its class, with nobody waiting in a more urgent one. */
  lemma StartedOldest(s: State, step: Step, t: State, p: Prio, b: Addr)
    requires Goes(s, step, t) && b in Queue(s, p) && Whole(t.at) && b in t.at[Starting]
    ensures Queue(s, p)[0] == b && forall q :: Index(q) < Index(p) ==> Queue(s, q) == []
  {
    assert b in s.at[SubQueue(p)];
    TouchedIs(s, step, b, SubQueue(p), Starting);
  }

  /** A request that is on another list after a step is the one the step moved. */
  lemma TouchedIs(s: State, step: Step, a: Addr, from: Place, to: Place)
    requires Typed(s) && Partition(s.at, s.req.Keys) && Fields(s) && Enabled(s, step) && from != to && from != Free
    requires a in s.at[from] && Whole(Apply(s, step).at) && a in Apply(s, step).at[to]
    ensures !step.Cancel? && !step.Create? && Touched(s, step) == a && Source(s, step) == from && Target(s, step) == to
  {
    if !step.Cancel? {
      StepTouches(s, step);
      if !step.Create? { SourceHolds(s, step); }
    }
  }

  /**
   * In every run, within a class no request is started while one that was
   * queued before it is still waiting.
   */
  lemma NeverOvertaken(tr: seq<State>, i: nat, k: nat, p: Prio, a: Addr, b: Addr)
    requires Run(tr) && i <= k && k + 1 < |tr| && Ahead(Queue(tr[i], p), a, b)
    requires forall m :: i <= m <= k ==> b in Queue(tr[m], p)
    requires Whole(tr[k + 1].at) && b in tr[k + 1].at[Starting]
    ensures exists m :: i <= m <= k && a !in Queue(tr[m], p)
  {
    if forall m :: i <= m <= k ==> a in Queue(tr[m], p) {
      var qs := RunHistory(tr, k, p);
      AheadAlong(qs, i, k, a, b);
      RunStarts(tr, k, p, b);
      NobodyAheadOfFirst(Queue(tr[k], p), a);
    }
  }

  lemma RunStarts(tr: seq<State>, k: nat, p: Prio, b: Addr)
    requires Run(tr) && k + 1 < |tr| && b in Queue(tr[k], p) && Whole(tr[k + 1].at) && b in tr[k + 1].at[Starting]
    ensures NoDup(Queue(tr[k], p)) && Queue(tr[k], p)[0] == b
    ensures forall q :: Index(q) < Index(p) ==> Queue(tr[k], q) == []
  {
    RunMoves(tr, k, p);
    var step := RunGoes(tr, k);
    StartedOldest(tr[k], step, tr[k + 1], p, b);
  }

  lemma NobodyAheadOfFirst(q: seq<Addr>, a: Addr)
    requires NoDup(q) && |q| > 0
    ensures !Ahead(q, a, q[0])
  {
    if Ahead(q, a, q[0]) { AheadBoth(q, a, q[0]); }
  }

  /** Nor is one started while a more urgent class has somebody waiting. */
  lemma UrgentFirst(tr: seq<State>, k: nat, p: Prio, b: Addr, q: Prio)
    requires Run(tr) && k + 1 < |tr| && b in Queue(tr[k], p) && Whole(tr[k + 1].at) && b in tr[k + 1].at[Starting]
    requires Index(q) < Index(p)
    ensures Queue(tr[k], q) == []
  {
    RunStarts(tr, k, p, b);
  }

  /**
   * A queued request that nobody cancelled leaves its queue only to be
   * started, when the loop ends, or, outside TRANSACTIONAL, to be aborted.
   */
  lemma LeavesQueue(tr: seq<State>, k: nat, p: Prio, a: Addr)
    requires Run(tr) && k + 1 < |tr| && a in Queue(tr[k], p) && a !in Queue(tr[k + 1], p)
    requires a in tr[k].req && !tr[k].req[a].cancelled
    ensures Whole(tr[k + 1].at)
    ensures || a in tr[k + 1].at[Starting]
            || (p != Transactional && a in tr[k + 1].at[Cancelling])
            || tr[k + 1].exits == tr[k].exits + [Exit(tr[k].req[a].id, LoopEnded)]
  {
    var step := RunGoes(tr, k);
    RunInv(tr, k + 1);
    var to := NowOn(tr[k], step, a);
    TouchedIs(tr[k], step, a, SubQueue(p), to);
    LeavingStep(tr[k], step, p, a);
  }

  lemma NowOn(s: State, step: Step, a: Addr) returns (to: Place)
    requires Inv(s) && Enabled(s, step) && Inv(Apply(s, step)) && a in s.req
    ensures a in Apply(s, step).at[to]
  {
    KeysGrow(s, step);
    assert OnSome(Apply(s, step).at, a);
    to :| to in Apply(s, step).at && a in Apply(s, step).at[to];
  }

  lemma KeysGrow(s: State, step: Step)
    requires Typed(s) && Enabled(s, step)
    ensures s.req.Keys <= Apply(s, step).req.Keys
  {
  }

  lemma LeavingStep(s: State, step: Step, p: Prio, a: Addr)
    requires Typed(s) && Partition(s.at, s.req.Keys) && Fields(s) && Enabled(s, step) && !step.Cancel? && !step.Create?
    requires Touched(s, step) == a && Source(s, step) == SubQueue(p) && Target(s, step) != SubQueue(p)
    requires Whole(Apply(s, step).at) && a in s.at[SubQueue(p)] && a in Apply(s, step).at[Target(s, step)] && !s.req[a].cancelled
    ensures var t := Apply(s, step);
      || a in t.at[Starting]
      || (p != Transactional && a in t.at[Cancelling])
      || t.exits == s.exits + [Exit(s.req[a].id, LoopEnded)]
  {
    assert step == Pop(p) || step == Take(a) || step == EndLoop(a);
  }

  // The class a caller chose

  /** The request is still the caller's, with the priority `p`. */
  ghost predicate Chosen(s: State, a: Addr, p: Prio) {
    Whole(s.at) && a in s.at[Caller] && a in s.req && s.req[a].prio == p
  }

  lemma ChosenStep(s: State, step: Step, t: State, a: Addr, p: Prio)
    requires Goes(s, step, t) && Chosen(s, a, p)
    requires step != Submit(a) && !(step.SetPrio? && step.a == a) && !(step.Refuse? && step.a == a)
    ensures Chosen(t, a, p)
  {
    if step.Cancel? {
    } else {
      StepTouches(s, step);
      OthersTouched(s, step, a);
    }
  }

  lemma OthersTouched(s: State, step: Step, a: Addr)
    requires Typed(s) && Partition(s.at, s.req.Keys) && Fields(s) && Enabled(s, step) && !step.Cancel? && a in s.at[Caller]
    requires step != Submit(a) && !(step.SetPrio? && step.a == a) && !(step.Refuse? && step.a == a)
    ensures Touched(s, step) != a
  {
    assert OnSome(s.at, a);
    if step.Create? { assert s.at[Free] != [] ==> s.at[Free][0] in s.at[Free]; } else { SourceHolds(s, step); }
  }

  lemma {:induction false} ChosenAlong(tr: seq<State>, steps: seq<Step>, a: Addr, p: Prio)
    requires |tr| == |steps| + 1 && Chosen(tr[0], a, p)
    requires forall i, j :: 0 <= i < |steps| && j == i + 1 ==> Goes(tr[i], steps[i], tr[j])
    requires forall i :: 0 <= i < |steps| ==>
      steps[i] != Submit(a) && !(steps[i].SetPrio? && steps[i].a == a) && !(steps[i].Refuse? && steps[i].a == a)
    ensures Chosen(tr[|steps|], a, p)
  {
    if |steps| > 0 {
      ChosenStep(tr[0], steps[0], tr[1], a, p);
      ChosenAlong(tr[1..], steps[1..], a, p);
    }
  }

  /**
   * A request is queued last in the class its caller last chose for it,
   * whatever the others did between the choice and the submission.
   */
  lemma QueuedAsChosen(s: State, tr: seq<State>, steps: seq<Step>, a: Addr, p: Prio, t: State)
    requires |tr| == |steps| + 1 && Goes(s, SetPrio(a, p), tr[0])
    requires forall i, j :: 0 <= i < |steps| && j == i + 1 ==> Goes(tr[i], steps[i], tr[j])
    requires forall i :: 0 <= i < |steps| ==>
      steps[i] != Submit(a) && !(steps[i].SetPrio? && steps[i].a == a) && !(steps[i].Refuse? && steps[i].a == a)
    requires Goes(tr[|steps|], Submit(a), t)
    ensures Queue(t, p) == Queue(tr[|steps|], p) + [a]
  {
    ChosenAlong(tr, steps, a, p);
  }
}
