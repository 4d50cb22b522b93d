/**
 * What a detach promises about stop(): the teardown it leaves carries the flag
 * it was given, a suspend gives it exactly to the bots that were running, and
 * such a driver is never destroyed before it was stopped (core/bot.c).
 */
module BotStops {
  import opened Options
  import opened Seqs
  import opened BotRegistry
  import opened BotProtocol
  import opened BotMemory
  import opened BotHandles
  import opened BotTheorems
  import opened BotTeardown

  /** The stop flag of the detach that comes next: that of the suspended bot; none for a destroy. */
  ghost function StopFlag(life: Life): bool {
    life.Suspending? && life.stops != [] && life.stops[0]
  }

  /** A suspend stops exactly the bots that were running when it took them. */
  ghost predicate FlagsOk(s: State) {
    s.life.Suspending? ==>
      && |s.life.rest| == |s.life.stops|
      && forall i :: 0 <= i < |s.life.rest| ==>
           s.life.rest[i] in s.sh.heap && s.life.stops[i] == s.sh.heap[s.life.rest[i]].running
  }

  lemma StepFlags(s: State, step: Step)
    requires Inv(s) && Enabled(s, step) && FlagsOk(s)
    ensures FlagsOk(Apply(s, step))
  {
    var s' := Apply(s, step);
    if step.Suspend? {
      SuspendFlags(s, step.name);
    } else if s'.life.Suspending? {
      forall i | 0 <= i < |s'.life.rest|
        ensures s'.life.rest[i] in s'.sh.heap && s'.life.stops[i] == s'.sh.heap[s'.life.rest[i]].running
      {
        RunningKept(s, step, s'.life.rest[i]);
      }
    }
  }

  lemma SuspendFlags(s: State, name: string)
    requires Inv(s) && Enabled(s, Suspend(name))
    ensures FlagsOk(Apply(s, Suspend(name)))
  {
    ListLinked(s.sh.heap, s.sh.list);
    BoundInList(s.sh.heap, s.sh.list, name, SUSPEND_MAX);
  }

  /** A suspend takes every user of the driver when there are at most 64, and else the first 64. */
  lemma SuspendTakesUsers(s: State, name: string)
    requires Inv(s) && Enabled(s, Suspend(name)) && Linked(s.sh.heap, s.sh.list)
    ensures var s', all := Apply(s, Suspend(name)), Users(s.sh.heap, s.sh.list, name);
      && s'.life.Suspending? && s'.life.rest == all[..if SUSPEND_MAX < |all| then SUSPEND_MAX else |all|]
      && s'.sh.heap.Keys == s.sh.heap.Keys
      && forall a :: a in s.sh.heap ==>
           s'.sh.heap[a] == s.sh.heap[a].(suspended := if a in s'.life.rest then Some(name) else s.sh.heap[a].suspended)
  {
    BoundIsFirst(s.sh.heap, s.sh.list, name, SUSPEND_MAX);
  }

  lemma RunningKept(s: State, step: Step, a: Addr)
    requires Inv(s) && Enabled(s, step) && s.life.Suspending? && a in s.life.rest
    ensures a in Apply(s, step).sh.heap && Apply(s, step).sh.heap[a].running == s.sh.heap[a].running
  {
    assert InstOk(s.sh.heap[a], s.threads, s.frees, a) && !s.sh.heap[a].doomed;
    if step.Free? { assert step.t in Freers(s.threads, s.threads[step.t].at); }
    SuspendingKeeps(s, step, a);
  }

  lemma SuspendingKeeps(s: State, step: Step, a: Addr)
    requires Enabled(s, step) && s.life.Suspending? && a in s.sh.heap && !Frees(s, step, a)
    ensures a in Apply(s, step).sh.heap && Apply(s, step).sh.heap[a].running == s.sh.heap[a].running
  {
  }

  lemma {:induction false} RunFlags(tr: seq<State>, k: nat)
    requires Run(tr) && k < |tr|
    ensures FlagsOk(tr[k])
  {
    if k > 0 {
      RunFlags(tr, k - 1);
      RunInv(tr, k - 1);
      assert Next(tr[k - 1], tr[k]);
      var step :| Enabled(tr[k - 1], step) && tr[k] == Apply(tr[k - 1], step);
      StepFlags(tr[k - 1], step);
    }
  }

  /** A detach leaves its teardown to the caller when nobody is inside, and else parked. */
  lemma DetachOwes(s: State, step: Step, a: Addr, drv: Driver)
    requires Inv(s) && Enabled(s, step) && (step.DestroyDetach? || step.DetachNext?) && DetachesNow(s.life, a)
    requires a in s.sh.heap && s.sh.heap[a].driver == Some(drv)
    ensures var td, s' := Teardown(drv, s.sh.heap[a].handle, StopFlag(s.life)), Apply(s, step);
      if Holders(s.threads, a) == {} then s'.pending == Some(td) else Parked(s', a, td)
  {
    assert InstOk(s.sh.heap[a], s.threads, s.frees, a);
  }

  /**
   * A driver with stop() and destroy() is detached, in whatever step of
   * whatever run. The teardown calls stop() on the handle only if the detach
   * asked for it; and if it did, destroy() is not called without stop(), nor
   * before it.
   */
  lemma DetachedStopsFirst(tr: seq<State>, steps: seq<Step>, a: Addr, drv: Driver, h: Handle)
    requires Fragment(tr, steps) && Inv(tr[0]) && steps != []
    requires (steps[0].DestroyDetach? || steps[0].DetachNext?) && DetachesNow(tr[0].life, a)
    requires a in tr[0].sh.heap && tr[0].sh.heap[a].driver == Some(drv) && tr[0].sh.heap[a].handle == Some(h)
    requires drv.stop && drv.destroy
    ensures Ended(tr[|steps|].log, h, StopFlag(tr[0].life))
  {
    var td := Teardown(drv, Some(h), StopFlag(tr[0].life));
    InvAlong(tr, steps, |steps|);
    DetachedFate(tr, steps, a, td);
    Settled(tr[|steps|], a, td);
  }

  /** What the log may say about a handle detached with the given stop flag. */
  ghost predicate Ended(log: seq<Event>, h: Handle, stop: bool) {
    && (Stopped(Some(h)) in log ==> stop)
    && (Destroyed(h) in log && stop ==> Stopped(Some(h)) in log)
    && (forall i, j :: 0 <= i < |log| && 0 <= j < |log| && log[i] == Stopped(Some(h)) && log[j] == Destroyed(h) ==> i < j)
  }

  /** So over a suspend, stop() goes to exactly the bots that were running, and first. */
  lemma SuspendStopsRunning(run: seq<State>, tr: seq<State>, steps: seq<Step>, drv: Driver, h: Handle)
    requires Run(run) && Fragment(tr, steps) && tr[0] == run[|run| - 1]
    requires steps != [] && steps[0] == DetachNext && tr[0].life.Suspending? && tr[0].life.rest != []
    requires var a := tr[0].life.rest[0];
      a in tr[0].sh.heap && tr[0].sh.heap[a].driver == Some(drv) && tr[0].sh.heap[a].handle == Some(h)
    requires drv.stop && drv.destroy
    ensures Ended(tr[|steps|].log, h, tr[0].sh.heap[tr[0].life.rest[0]].running)
  {
    RunInv(run, |run| - 1);
    RunFlags(run, |run| - 1);
    DetachedStopsFirst(tr, steps, tr[0].life.rest[0], drv, h);
  }

  lemma DetachedFate(tr: seq<State>, steps: seq<Step>, a: Addr, td: Teardown)
    requires Fragment(tr, steps) && Inv(tr[0]) && steps != [] && Due(td)
    requires (steps[0].DestroyDetach? || steps[0].DetachNext?) && DetachesNow(tr[0].life, a)
    requires a in tr[0].sh.heap && tr[0].sh.heap[a].driver == Some(td.drv) && tr[0].sh.heap[a].handle == td.handle
    requires td.stop == StopFlag(tr[0].life)
    ensures Somewhere(tr[|steps|], a, td)
  {
    DetachOwes(tr[0], steps[0], a, td.drv);
    StepInv(tr[0], steps[0]);
    Tail(tr, steps);
    FateFrom(tr[1..], steps[1..], a, td);
  }

  lemma Tail(tr: seq<State>, steps: seq<Step>)
    requires Fragment(tr, steps) && steps != []
    ensures Fragment(tr[1..], steps[1..]) && tr[1..][0] == tr[1] && tr[1..][|steps[1..]|] == tr[|steps|]
  {
  }

  lemma FateFrom(tr: seq<State>, steps: seq<Step>, a: Addr, td: Teardown)
    requires Fragment(tr, steps) && Inv(tr[0]) && Due(td) && (tr[0].pending == Some(td) || Parked(tr[0], a, td))
    ensures Somewhere(tr[|steps|], a, td)
  {
    if tr[0].pending == Some(td) {
      PendingFate(tr, steps, td);
    } else {
      TeardownLostIff(tr, steps, a, td);
    }
  }

  ghost predicate Somewhere(s: State, a: Addr, td: Teardown)
    requires td.handle.Some?
  {
    s.pending == Some(td) || Lost(s, td) || Taken(s, td) || Parked(s, a, td)
  }

  lemma {:induction false} PendingFate(tr: seq<State>, steps: seq<Step>, td: Teardown)
    requires Fragment(tr, steps) && Inv(tr[0]) && td.handle.Some? && (tr[0].pending == Some(td) || Finished(tr[0], td))
    ensures tr[|steps|].pending == Some(td) || Finished(tr[|steps|], td)
  {
    if steps != [] {
        PendingStep(tr[0], steps[0], td);
      Tail(tr, steps);
      PendingFate(tr[1..], steps[1..], td);
    }
  }

  lemma PendingStep(s: State, step: Step, td: Teardown)
    requires Inv(s) && Enabled(s, step) && td.handle.Some? && (s.pending == Some(td) || Finished(s, td))
    ensures var s' := Apply(s, step); Inv(s') && (s'.pending == Some(td) || Finished(s', td))
  {
    StepInv(s, step);
    if Finished(s, td) {
      GoneStays(s, step, td.handle.value);
    } else if step == LifeTeardown {
      RunFinishes(s, Apply(s, step), OwedByLife, td);
    }
  }

  /** Wherever the teardown stands, the log says about its handle what it should. */
  lemma Settled(s: State, a: Addr, td: Teardown)
    requires Inv(s) && td.handle.Some? && td.drv.stop && td.drv.destroy && Somewhere(s, a, td)
    ensures Ended(s.log, td.handle.value, td.stop)
  {
    StopsFirst(s.log, td.handle.value);
    if s.pending == Some(td) {
      assert HandleAt(s, OwedByLife) == td.handle;
    } else if Parked(s, a, td) {
      assert HandleAt(s, Dying(a)) == td.handle;
    } else if t :| Owes(s, t, td) {
      assert HandleAt(s, Owed(t)) == td.handle;
    }
  }

  lemma StopsFirst(log: seq<Event>, h: Handle)
    requires LogOk(log)
    ensures forall i, j :: 0 <= i < |log| && 0 <= j < |log| && log[i] == Stopped(Some(h)) && log[j] == Destroyed(h) ==> i < j
  {
    forall i, j | 0 <= j <= i < |log| && log[j] == Destroyed(h) ensures log[i] != Stopped(Some(h)) {
      if j < i { assert InOrder(log[j], log[i]); }
    }
  }
}
