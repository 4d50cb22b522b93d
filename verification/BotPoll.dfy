/**
 * What the poll behind a plugin unload sees of the deliveries that still run
 * code of that plugin, and exactly which of them it misses (core/bot.c).
 */
module BotPoll {
  import opened Options
  import opened BotRegistry
  import opened BotProtocol
  import opened BotMemory
  import opened BotHandles
  import opened BotTheorems
  import opened BotTeardown

  predicate Between(at: nat, lo: nat, hi: nat) { lo <= at < hi }

  /** The vtable the poll looks at: the attached driver, else the one parked. */
  function Vtable(i: Inst): Option<Driver> { if i.driver.Some? then i.driver else i.dyingDrv }

  /** Delivery `t` is inside its driver, or runs a teardown, within [lo, hi). */
  ghost predicate Executing(s: State, t: Tid, lo: nat, hi: nat) {
    t in s.threads &&
    match s.threads[t].pc
    case Inside => Between(s.threads[t].drv.at, lo, hi)
    case Leaving(Some(owed)) => Between(owed.drv.at, lo, hi)
    case _ => false
  }

  /** The instance of delivery `t` adds one to the poll. */
  ghost predicate Counted(s: State, t: Tid, lo: nat, hi: nat)
    requires t in s.threads
  {
    var a := s.threads[t].at;
    a in s.sh.list && a in s.sh.heap && CountsFor(s.sh.heap[a], lo, hi)
  }

  /** The driver attached to `a` last, `first` if none was since. */
  ghost function LastAttached(steps: seq<Step>, a: Addr, first: Driver): Driver {
    if steps == [] then first
    else
      var n := |steps| - 1;
      if steps[n].Resume? && steps[n].a == a then steps[n].drv else LastAttached(steps[..n], a, first)
  }

  /** A delivery holds a reference; its instance shows the last vtable attached, or none. */
  ghost predicate Shows(s: State, t: Tid, a: Addr, last: Driver) {
    && t in s.threads && s.threads[t].at == a && !s.threads[t].pc.Freeing? && a in s.sh.heap
    && (Vtable(s.sh.heap[a]) == Some(last) || (!s.threads[t].pc.Inside? && Vtable(s.sh.heap[a]).None?))
  }

  lemma Holding(s: State, t: Tid)
    requires MemInv(s) && t in s.threads && !s.threads[t].pc.Freeing?
    ensures s.threads[t].at in s.sh.heap && s.sh.heap[s.threads[t].at].refs > 0
    ensures s.sh.heap[s.threads[t].at].refs == 1 ==>
      forall u :: u in s.threads && s.threads[u].at == s.threads[t].at && !s.threads[u].pc.Freeing? ==> u == t
  {
    var a := s.threads[t].at;
    assert InstOk(s.sh.heap[a], s.threads, s.frees, a) && t in Holders(s.threads, a);
    if s.sh.heap[a].refs == 1 {
      OnlyMember(Holders(s.threads, a), t);
      forall u | u in s.threads && s.threads[u].at == a && !s.threads[u].pc.Freeing? ensures u == t {
        assert u in Holders(s.threads, a);
      }
    }
  }

  /** A delivery that is neither freeing nor gone was that before the step, at the same instance. */
  lemma StillHolding(s: State, step: Step, t: Tid)
    requires Enabled(s, step) && t in s.threads && !s.threads[t].pc.Freeing?
    requires t in Apply(s, step).threads && !Apply(s, step).threads[t].pc.Freeing?
    ensures var d := Apply(s, step).threads[t];
      && d.at == s.threads[t].at && d.drv == s.threads[t].drv && (d.pc.Inside? ==> s.threads[t].pc.Inside?)
  {
  }

  /** While somebody holds a reference, only attaching and its own claim change what the instance shows. */
  lemma ShowsStep(s: State, step: Step, t: Tid, a: Addr, last: Driver)
    requires Inv(s) && Enabled(s, step) && Shows(s, t, a, last)
    requires t in Apply(s, step).threads && !Apply(s, step).threads[t].pc.Freeing?
    ensures Shows(Apply(s, step), t, a, if step.Resume? && step.a == a then step.drv else last)
  {
    Holding(s, t);
    StillHolding(s, step, t);
    if step.DetachNext? {
      if s.life.rest != [] { DetachShows(s, s.life.rest[0], s.life.stops[0], Apply(s, step).life, a); }
    } else if step.DestroyDetach? {
      DetachShows(s, s.life.a, false, Apply(s, step).life, a);
    } else if step.Claim? {
      ClaimShows(s, step.t, t, a);
    } else {
      SectionShows(s, step, t, a);
    }
  }

  lemma DetachShows(s: State, b: Addr, stop: bool, next: Life, a: Addr)
    requires a in s.sh.heap && s.sh.heap[a].refs > 0
    ensures var s' := DetachAt(s, b, stop, next); a in s'.sh.heap && Vtable(s'.sh.heap[a]) == Vtable(s.sh.heap[a])
  {
  }

  lemma ClaimShows(s: State, u: Tid, t: Tid, a: Addr)
    requires Inv(s) && Enabled(s, Claim(u)) && a in s.sh.heap
    requires t in s.threads && s.threads[t].at == a && !s.threads[t].pc.Freeing?
    ensures var s' := Apply(s, Claim(u)); a in s'.sh.heap && s'.sh.heap[a].driver == s.sh.heap[a].driver
    ensures var s' := Apply(s, Claim(u));
      || Vtable(s'.sh.heap[a]) == Vtable(s.sh.heap[a])
      || (Vtable(s'.sh.heap[a]).None? && !s'.threads[t].pc.Inside?)
  {
    Holding(s, t);
    assert u in s.threads;
  }

  lemma SectionShows(s: State, step: Step, t: Tid, a: Addr)
    requires Inv(s) && Enabled(s, step) && !step.DetachNext? && !step.DestroyDetach? && !step.Claim?
    requires a in s.sh.heap && s.sh.heap[a].refs > 0
    ensures var s' := Apply(s, step);
      && a in s'.sh.heap
      && Vtable(s'.sh.heap[a]) == if step.Resume? && step.a == a then Some(step.drv) else Vtable(s.sh.heap[a])
  {
    assert InstOk(s.sh.heap[a], s.threads, s.frees, a);
    if step.Free? {
      assert step.t in Freers(s.threads, s.threads[step.t].at);
    } else {
      PlainShows(s, step, a);
    }
  }

  lemma PlainShows(s: State, step: Step, a: Addr)
    requires Enabled(s, step) && !step.DetachNext? && !step.DestroyDetach? && !step.Claim? && !step.Free?
    requires a in s.sh.heap && (step.DestroyFree? ==> step.a != a)
    ensures var s' := Apply(s, step);
      && a in s'.sh.heap
      && Vtable(s'.sh.heap[a]) == if step.Resume? && step.a == a then Some(step.drv) else Vtable(s.sh.heap[a])
  {
  }

  /** The delivery stays in the protocol, as a holder, up to the end of the fragment. */
  ghost predicate Holds(tr: seq<State>, t: Tid) {
    forall i :: 0 <= i < |tr| ==> t in tr[i].threads && !tr[i].threads[t].pc.Freeing?
  }

  /** One step of the induction below. */
  lemma ShowsNext(s: State, step: Step, s': State, t: Tid, a: Addr, last: Driver)
    requires Inv(s) && Enabled(s, step) && s' == Apply(s, step) && Shows(s, t, a, last)
    requires t in s'.threads && !s'.threads[t].pc.Freeing?
    ensures Inv(s') && s'.threads[t].drv == s.threads[t].drv
    ensures Shows(s', t, a, if step.Resume? && step.a == a then step.drv else last)
  {
    ShowsStep(s, step, t, a, last);
    StillHolding(s, step, t);
    StepInv(s, step);
  }

  lemma {:induction false} ShowsAlong(tr: seq<State>, steps: seq<Step>, t: Tid, n: nat, a: Addr, first: Driver)
    requires Fragment(tr, steps) && Holds(tr, t) && n <= |steps|
    requires Inv(tr[0]) && Shows(tr[0], t, a, first) && tr[0].threads[t].drv == first
    ensures Inv(tr[n]) && tr[n].threads[t].drv == first && Shows(tr[n], t, a, LastAttached(steps[..n], a, first))
  {
    if n > 0 {
      var m := n - 1;
      ShowsAlong(tr, steps, t, m, a, first);
      AttachedNext(steps, m, a, first);
      ShowsNext(tr[m], steps[m], tr[n], t, a, LastAttached(steps[..m], a, first));
    }
  }

  lemma AttachedNext(steps: seq<Step>, m: nat, a: Addr, first: Driver)
    requires m < |steps|
    ensures LastAttached(steps[..m + 1], a, first) ==
      if steps[m].Resume? && steps[m].a == a then steps[m].drv else LastAttached(steps[..m], a, first)
  {
    assert steps[..m + 1][..m] == steps[..m];
  }

  /**
   * Why the poll can miss a delivery that has been in the protocol for `steps`:
   * its instance is off the list; or it has claimed a teardown and nothing is
   * attached or parked; or the driver attached last lies outside the range.
   */
  ghost predicate Missed(s: State, steps: seq<Step>, t: Tid, lo: nat, hi: nat)
    requires t in s.threads
  {
    var d := s.threads[t];
    || d.at !in s.sh.list
    || (d.pc.Leaving? && d.pc.owed.Some? && d.at in s.sh.heap && Vtable(s.sh.heap[d.at]).None?)
    || !Between(LastAttached(steps, d.at, d.drv).at, lo, hi)
  }

  /**
   * From its acquire on, at every moment at which a delivery executes in
   * [lo, hi): its instance is left out of the poll exactly when it is missed
   * for one of those reasons, and otherwise the poll does not read zero.
   */
  lemma PollMissesIff(before: State, id: Id, tr: seq<State>, steps: seq<Step>, t: Tid, lo: nat, hi: nat)
    requires Inv(before) && Enabled(before, Acquire(t, id)) && tr != [] && tr[0] == Apply(before, Acquire(t, id))
    requires Fragment(tr, steps) && Holds(tr, t) && Executing(tr[|steps|], t, lo, hi)
    ensures !Counted(tr[|steps|], t, lo, hi) <==> Missed(tr[|steps|], steps, t, lo, hi)
    ensures Linked(tr[|steps|].sh.heap, tr[|steps|].sh.list)
    ensures !Missed(tr[|steps|], steps, t, lo, hi) ==> InflightOwned(tr[|steps|].sh.heap, tr[|steps|].sh.list, lo, hi) > 0
  {
    StepInv(before, Acquire(t, id));
    AcquiredShows(before, t, id);
    ShowsAlong(tr, steps, t, |steps|, tr[0].threads[t].at, tr[0].threads[t].drv);
    assert steps[..|steps|] == steps;
    ShownIsCounted(tr[|steps|], steps, t, lo, hi);
  }

  lemma ShownIsCounted(s: State, steps: seq<Step>, t: Tid, lo: nat, hi: nat)
    requires Inv(s) && Executing(s, t, lo, hi)
    requires Shows(s, t, s.threads[t].at, LastAttached(steps, s.threads[t].at, s.threads[t].drv))
    ensures !Counted(s, t, lo, hi) <==> Missed(s, steps, t, lo, hi)
    ensures Linked(s.sh.heap, s.sh.list)
    ensures Counted(s, t, lo, hi) ==> InflightOwned(s.sh.heap, s.sh.list, lo, hi) > 0
  {
    Holding(s, t);
    ListLinked(s.sh.heap, s.sh.list);
    if Counted(s, t, lo, hi) { CountedIsSeen(s, s.threads[t].at, lo, hi); }
  }

  lemma AcquiredShows(s: State, t: Tid, id: Id)
    requires Inv(s) && Enabled(s, Acquire(t, id)) && t in Apply(s, Acquire(t, id)).threads
    ensures var s' := Apply(s, Acquire(t, id)); Shows(s', t, s'.threads[t].at, s'.threads[t].drv)
  {
    ListLinked(s.sh.heap, s.sh.list);
  }

  lemma CountedIsSeen(s: State, a: Addr, lo: nat, hi: nat)
    requires Linked(s.sh.heap, s.sh.list) && a in s.sh.list && CountsFor(s.sh.heap[a], lo, hi)
    ensures InflightOwned(s.sh.heap, s.sh.list, lo, hi) > 0
  {
    InflightNonZeroIff(s.sh.heap, s.sh.list, lo, hi);
    var i :| 0 <= i < |s.sh.list| && s.sh.list[i] == a;
  }
}
