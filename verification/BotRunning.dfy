/**
 * A driver whose bot is running is never destroyed without being stopped
 * first, in any run (core/bot.c): bot_stop and bot_destroy call stop()
 * themselves, and a suspend leaves it to the teardown.
 */
module BotRunning {
  import opened Options
  import opened Seqs
  import opened BotRegistry
  import opened BotProtocol
  import opened BotMemory
  import opened BotHandles
  import opened BotTheorems
  import opened BotTeardown
  import opened BotStops

  /** A bot being destroyed is not running any more. */
  ghost predicate DestroyingOk(s: State) {
    s.life.Destroying? ==> s.life.a in s.sh.heap && !s.sh.heap[s.life.a].running
  }

  ghost predicate Steady(s: State) { Inv(s) && FlagsOk(s) && DestroyingOk(s) }

  lemma DestroyingKeeps(s: State, step: Step, a: Addr)
    requires Enabled(s, step) && s.life.Destroying? && a in s.sh.heap && !Frees(s, step, a)
    ensures a in Apply(s, step).sh.heap && Apply(s, step).sh.heap[a].running == s.sh.heap[a].running
  {
  }

  lemma StepSteady(s: State, step: Step)
    requires Steady(s) && Enabled(s, step)
    ensures Steady(Apply(s, step))
  {
    StepInv(s, step);
    StepFlags(s, step);
    if s.life.Destroying? {
      ListedNotFreed(s, step, s.life.a);
      DestroyingKeeps(s, step, s.life.a);
    }
  }

  lemma ListedNotFreed(s: State, step: Step, a: Addr)
    requires Inv(s) && Enabled(s, step) && a in s.sh.list
    ensures a in s.sh.heap && !Frees(s, step, a)
  {
    assert InstOk(s.sh.heap[a], s.threads, s.frees, a) && !s.sh.heap[a].doomed;
    if step.Free? { assert step.t in Freers(s.threads, s.threads[step.t].at); }
  }

  lemma {:induction false} RunSteady(tr: seq<State>, k: nat)
    requires Run(tr) && k < |tr|
    ensures Steady(tr[k])
  {
    if k > 0 {
      RunSteady(tr, k - 1);
      assert Next(tr[k - 1], tr[k]);
      var step :| Enabled(tr[k - 1], step) && tr[k] == Apply(tr[k - 1], step);
      StepSteady(tr[k - 1], step);
    }
  }

  /** bot_start takes only a bot whose driver is attached; nothing else makes a bot run. */
  lemma StartNeedsDriver(s: State, step: Step, a: Addr)
    requires Enabled(s, step) && a in s.sh.heap && a in Apply(s, step).sh.heap
    requires !s.sh.heap[a].running && Apply(s, step).sh.heap[a].running
    ensures step == SetRunning(a, true) && s.sh.heap[a].driver.Some?
  {
  }

  // Where a running handle can go

  /** Since position `n` of the log, stop() was called on `h`. */
  ghost predicate StoppedSince(log: seq<Event>, h: Handle, n: nat) {
    n <= |log| && exists i :: n <= i < |log| && (log[i] == Halted(Some(h)) || log[i] == Stopped(Some(h)))
  }

  ghost predicate RunsOn(s: State, a: Addr, h: Handle) {
    && a in s.sh.heap && s.sh.heap[a].handle == Some(h) && s.sh.heap[a].running
    && s.sh.heap[a].driver.Some? && s.sh.heap[a].driver.value.stop
  }

  /** A teardown of `h` that will call stop(). */
  ghost predicate Stops(td: Teardown, h: Handle) { td.handle == Some(h) && td.stop && td.drv.stop }

  ghost predicate WillStop(s: State, h: Handle) {
    exists td :: Stops(td, h) && (s.pending == Some(td) || (exists t :: Owes(s, t, td)) || (exists a :: Parked(s, a, td)))
  }

  ghost predicate Guarded(s: State, h: Handle, n: nat) {
    && n <= |s.log|
    && (|| StoppedSince(s.log, h, n) || (exists a :: RunsOn(s, a, h)) || WillStop(s, h)
        || (Gone(s, h) && Destroyed(h) !in s.log))
  }

  lemma LogPrefix(s: State, step: Step)
    requires Enabled(s, step)
    ensures s.log <= Apply(s, step).log
  {
  }

  lemma StillStopped(log: seq<Event>, log': seq<Event>, h: Handle, n: nat)
    requires StoppedSince(log, h, n) && log <= log'
    ensures StoppedSince(log', h, n)
  {
    var i :| n <= i < |log| && (log[i] == Halted(Some(h)) || log[i] == Stopped(Some(h)));
    assert log'[i] == log[i];
  }

  lemma NewlyStopped(log: seq<Event>, log': seq<Event>, h: Handle, n: nat)
    requires n <= |log| && log <= log' && Stopped(Some(h)) !in log && Stopped(Some(h)) in log'
    ensures StoppedSince(log', h, n)
  {
    var i :| 0 <= i < |log'| && log'[i] == Stopped(Some(h));
  }

  /** A running bot that is stopped, and what a detach makes of one. */
  lemma RunningStep(s: State, step: Step, a: Addr, h: Handle, n: nat)
    requires Steady(s) && Enabled(s, step) && RunsOn(s, a, h) && n <= |s.log|
    ensures Guarded(Apply(s, step), h, n)
  {
    var s' := Apply(s, step);
    assert HandleAt(s, Attached(a)) == Some(h);
    LogPrefix(s, step);
    if step == SetRunning(a, false) || step == Destroy(a) {
      assert s'.log[|s.log|] == Halted(Some(h));
    } else if (step.DestroyDetach? || step.DetachNext?) && DetachesNow(s.life, a) {
      DetachOwes(s, step, a, s.sh.heap[a].driver.value);
      assert Stops(Teardown(s.sh.heap[a].driver.value, Some(h), true), h);
    } else if Frees(s, step, a) {
      FreedIsGone(s, step, a, h);
    } else {
      NotResumed(s, step, a);
      KeepsRunning(s, step, a, h);
      assert RunsOn(s', a, h);
    }
  }

  lemma NotResumed(s: State, step: Step, a: Addr)
    requires Inv(s) && Enabled(s, step) && a in s.sh.heap && s.sh.heap[a].driver.Some?
    ensures !(step.Resume? && step.a == a)
  {
  }

  lemma KeepsRunning(s: State, step: Step, a: Addr, h: Handle)
    requires Enabled(s, step) && RunsOn(s, a, h) && !Frees(s, step, a)
    requires step != SetRunning(a, false) && step != Destroy(a) && !(step.Resume? && step.a == a)
    requires !((step.DestroyDetach? || step.DetachNext?) && DetachesNow(s.life, a))
    ensures RunsOn(Apply(s, step), a, h)
  {
  }

  lemma FreedIsGone(s: State, step: Step, a: Addr, h: Handle)
    requires Inv(s) && Enabled(s, step) && Frees(s, step, a) && a in s.sh.heap && HandleAt(s, Attached(a)) == Some(h)
    ensures Gone(Apply(s, step), h) && Destroyed(h) !in Apply(s, step).log
  {
    FreedHolder(s, Apply(s, step), a, h, s.sh.heap[a].id);
  }

  lemma FreedHolder(s: State, s': State, a: Addr, h: Handle, n: Id)
    requires HandlesOk(s) && HandleAt(s, Attached(a)) == Some(h)
    requires s'.sh.heap == s.sh.heap - {a} && s'.pending == s.pending && s'.nextHandle == s.nextHandle
    requires s'.log == s.log + [Freed(n)]
    requires forall t :: t in s'.threads ==> t in s.threads && s'.threads[t] == s.threads[t]
    ensures Gone(s', h) && Destroyed(h) !in s'.log
  {
    assert Unended(s.log, h);
    forall w ensures HandleAt(s', w) != Some(h) {
      assert HandleAt(s', w).Some? ==> HandleAt(s', w) == HandleAt(s, w) && w != Attached(a);
    }
  }

  /** `td` is somewhere on its way, run, or lost. */
  ghost predicate Fated(s: State, td: Teardown)
    requires td.handle.Some?
  {
    || s.pending == Some(td) || (exists t :: Owes(s, t, td)) || (exists a :: Parked(s, a, td))
    || Finished(s, td) || Lost(s, td)
  }

  lemma FatedStep(s: State, step: Step, td: Teardown)
    requires Inv(s) && Enabled(s, step) && td.handle.Some?
    requires s.pending == Some(td) || (exists t :: Owes(s, t, td)) || (exists a :: Parked(s, a, td))
    ensures Unended(s.log, td.handle.value) && Fated(Apply(s, step), td)
  {
    if s.pending == Some(td) {
      assert HandleAt(s, OwedByLife) == td.handle;
      PendingStep(s, step, td);
    } else if t :| Owes(s, t, td) {
      assert HandleAt(s, Owed(t)) == td.handle;
      TakenStays(s, step, td);
    } else {
      var a :| Parked(s, a, td);
      assert HandleAt(s, Dying(a)) == td.handle;
      ParkedStep(s, step, a, td);
    }
  }

  /** A teardown that will call stop() does, is handed on, or is lost with its handle. */
  lemma WillStopStep(s: State, step: Step, h: Handle, n: nat)
    requires Inv(s) && Enabled(s, step) && WillStop(s, h) && n <= |s.log|
    ensures Guarded(Apply(s, step), h, n)
  {
    var td :| Stops(td, h) && (s.pending == Some(td) || (exists t :: Owes(s, t, td)) || (exists a :: Parked(s, a, td)));
    LogPrefix(s, step);
    FatedStep(s, step, td);
    FatedIsGuarded(s.log, Apply(s, step), td, h, n);
  }

  lemma FatedIsGuarded(log: seq<Event>, s: State, td: Teardown, h: Handle, n: nat)
    requires n <= |log| && log <= s.log && Stops(td, h) && Unended(log, h) && Fated(s, td)
    ensures Guarded(s, h, n)
  {
    if Finished(s, td) { NewlyStopped(log, s.log, h, n); }
  }

  lemma GuardedStep(s: State, step: Step, h: Handle, n: nat)
    requires Steady(s) && Enabled(s, step) && Guarded(s, h, n)
    ensures Guarded(Apply(s, step), h, n)
  {
    LogPrefix(s, step);
    if StoppedSince(s.log, h, n) {
      StillStopped(s.log, Apply(s, step).log, h, n);
    } else if WillStop(s, h) {
      WillStopStep(s, step, h, n);
    } else if a :| RunsOn(s, a, h) {
      RunningStep(s, step, a, h, n);
    } else {
      GoneStays(s, step, h);
    }
  }

  lemma {:induction false} GuardedAlong(tr: seq<State>, steps: seq<Step>, h: Handle, n: nat)
    requires Fragment(tr, steps) && Steady(tr[0]) && Guarded(tr[0], h, n)
    ensures Steady(tr[|steps|]) && Guarded(tr[|steps|], h, n)
  {
    if steps != [] {
      StepSteady(tr[0], steps[0]);
      GuardedStep(tr[0], steps[0], h, n);
      Tail(tr, steps);
      GuardedAlong(tr[1..], steps[1..], h, n);
    }
  }

  /**
   * In every run, a driver whose bot was running at some moment is not
   * destroyed unless stop() was called on its handle after that moment, and
   * before destroy().
   */
  lemma RunningStoppedFirst(run: seq<State>, tr: seq<State>, steps: seq<Step>, a: Addr, h: Handle)
    requires Run(run) && Fragment(tr, steps) && tr[0] == run[|run| - 1] && RunsOn(tr[0], a, h)
    ensures var log := tr[|steps|].log;
      forall j :: 0 <= j < |log| && log[j] == Destroyed(h) ==>
        exists i :: |tr[0].log| <= i < j && (log[i] == Halted(Some(h)) || log[i] == Stopped(Some(h)))
  {
    var end, n := tr[|steps|], |tr[0].log|;
    RunSteady(run, |run| - 1);
    GuardedAlong(tr, steps, h, n);
    forall j | 0 <= j < |end.log| && end.log[j] == Destroyed(h)
      ensures exists i :: n <= i < j && (end.log[i] == Halted(Some(h)) || end.log[i] == Stopped(Some(h)))
    {
      DestroyedWasStopped(end, h, n, j);
    }
  }

  lemma DestroyedWasStopped(s: State, h: Handle, n: nat, j: nat)
    requires Inv(s) && Guarded(s, h, n) && j < |s.log| && s.log[j] == Destroyed(h)
    ensures exists i :: n <= i < j && (s.log[i] == Halted(Some(h)) || s.log[i] == Stopped(Some(h)))
  {
    assert Destroyed(h) in s.log;
    if a :| RunsOn(s, a, h) { assert HandleAt(s, Attached(a)) == Some(h); }
    if WillStop(s, h) { WillStopUnended(s, h); }
    var i :| n <= i < |s.log| && (s.log[i] == Halted(Some(h)) || s.log[i] == Stopped(Some(h)));
    NothingAfter(s.log, h, j);
  }

  lemma NothingAfter(log: seq<Event>, h: Handle, j: nat)
    requires LogOk(log) && j < |log| && log[j] == Destroyed(h)
    ensures forall i :: j < i < |log| ==> !Calls(log[i], h)
  {
    forall i | j < i < |log| ensures !Calls(log[i], h) { assert InOrder(log[j], log[i]); }
  }

  lemma WillStopUnended(s: State, h: Handle)
    requires Inv(s) && WillStop(s, h)
    ensures Destroyed(h) !in s.log
  {
    var td :| Stops(td, h) && (s.pending == Some(td) || (exists t :: Owes(s, t, td)) || (exists a :: Parked(s, a, td)));
    if s.pending == Some(td) {
      assert HandleAt(s, OwedByLife) == Some(h);
    } else if t :| Owes(s, t, td) {
      assert HandleAt(s, Owed(t)) == Some(h);
    } else {
      var a :| Parked(s, a, td);
      assert HandleAt(s, Dying(a)) == Some(h);
    }
  }
}
