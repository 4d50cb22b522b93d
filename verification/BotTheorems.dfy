/** The guarantees of the bot driver reference protocol, over whole runs. */
module BotTheorems {
  import opened Options
  import opened BotRegistry
  import opened BotProtocol
  import opened BotMemory
  import opened BotHandles

  lemma StepInv(s: State, step: Step)
    requires Inv(s) && Enabled(s, step)
    ensures Inv(Apply(s, step))
  {
    StepMem(s, step);
    StepHandles(s, step);
  }

  lemma {:induction false} RunInv(tr: seq<State>, k: nat)
    requires Run(tr) && k < |tr|
    ensures Inv(tr[k])
  {
    if k > 0 {
      RunInv(tr, k - 1);
      assert Next(tr[k - 1], tr[k]);
      var step :| Enabled(tr[k - 1], step) && tr[k] == Apply(tr[k - 1], step);
      StepInv(tr[k - 1], step);
    }
  }

  /** In every run an instance has a handle exactly while a driver with create() is attached to it. */
  lemma HandleIffCreated(tr: seq<State>, k: nat, a: Addr)
    requires Run(tr) && k < |tr| && a in tr[k].sh.heap
    ensures tr[k].sh.heap[a].handle.Some? <==> exists drv :: tr[k].sh.heap[a].driver == Some(drv) && drv.create
  {
    RunInv(tr, k);
  }

  /** In every run, destroy() is called at most once on each handle. */
  lemma DestroyAtMostOnce(tr: seq<State>, h: Handle)
    requires Run(tr)
    ensures var log := tr[|tr| - 1].log;
      forall i, j :: 0 <= i < |log| && 0 <= j < |log| && log[i] == log[j] == Destroyed(h) ==> i == j
  {
    RunInv(tr, |tr| - 1);
  }

  /**
   * In every run a teardown calls stop() on a handle at most once, and always
   * before destroy(); no other call on the handle comes after either.
   */
  lemma StopBeforeDestroy(tr: seq<State>, h: Handle)
    requires Run(tr)
    ensures var log := tr[|tr| - 1].log;
      forall i, j :: 0 <= i < |log| && 0 <= j < |log| && log[i] == Stopped(Some(h)) ==>
        && (log[j] == Destroyed(h) ==> i < j)
        && (log[j] == Stopped(Some(h)) ==> i == j)
        && (log[j] == Halted(Some(h)) ==> j < i)
    ensures var log := tr[|tr| - 1].log;
      forall i, j :: 0 <= i < |log| && 0 <= j < |log| && log[i] == Destroyed(h) && log[j] == Halted(Some(h)) ==> j < i
  {
    RunInv(tr, |tr| - 1);
    var log := tr[|tr| - 1].log;
    forall i, j | 0 <= i < |log| && 0 <= j < |log| && Calls(log[i], h) && Calls(log[j], h) && i != j
      ensures InOrder(log[if i < j then i else j], log[if i < j then j else i]) {}
  }

  /**
   * When destroy() runs on a handle, no delivery that acquired the handle has
   * yet to enter bot_release, and none is inside at any later time either.
   */
  lemma DestroyNeverUnderDelivery(tr: seq<State>, k: nat, h: Handle, t: Tid)
    requires Run(tr) && k + 1 < |tr|
    requires Destroyed(h) in tr[k + 1].log
    requires t in tr[k].threads && tr[k].threads[t].pc.Inside?
    ensures tr[k].threads[t].handle != Some(h)
  {
    RunInv(tr, k);
    assert Next(tr[k], tr[k + 1]);
    var step :| Enabled(tr[k], step) && tr[k + 1] == Apply(tr[k], step);
    DestroyedWasCommitted(tr[k], step, h);
  }

  lemma DestroyedWasCommitted(s: State, step: Step, h: Handle)
    requires Enabled(s, step) && Destroyed(h) in Apply(s, step).log
    ensures Committed(s, h)
  {
    if step.RunOwed? { assert Destroyed(h) in s.log || HandleAt(s, Owed(step.t)) == Some(h); }
  }

  /** No step of any run touches an instance after it was freed, and each is freed at most once. */
  lemma FreedOnceNeverTouched(tr: seq<State>, n: Id)
    requires Run(tr)
    ensures !tr[|tr| - 1].fault
    ensures var log := tr[|tr| - 1].log;
      forall i, j :: 0 <= i < |log| && 0 <= j < |log| && log[i] == log[j] == Freed(n) ==> i == j
    ensures Freed(n) in tr[|tr| - 1].log ==>
      var heap := tr[|tr| - 1].sh.heap; forall a :: a in heap ==> heap[a].id != n
  {
    RunInv(tr, |tr| - 1);
  }

  /** An instance leaves memory only doomed, off the list and with no holder left. */
  lemma FreedOnlyWhenUnreachable(tr: seq<State>, k: nat, a: Addr)
    requires Run(tr) && k + 1 < |tr|
    requires a in tr[k].sh.heap && a !in tr[k + 1].sh.heap
    ensures tr[k].sh.heap[a].doomed && a !in tr[k].sh.list && Holders(tr[k].threads, a) == {}
  {
    RunInv(tr, k);
    assert Next(tr[k], tr[k + 1]);
    var step :| Enabled(tr[k], step) && tr[k + 1] == Apply(tr[k], step);
    OnlyFreesShrink(tr[k], step, a);
    assert InstOk(tr[k].sh.heap[a], tr[k].threads, tr[k].frees, a);
    if step.Free? { assert step.t in Freers(tr[k].threads, a); }
  }

  lemma OnlyFreesShrink(s: State, step: Step, a: Addr)
    requires Enabled(s, step) && a in s.sh.heap && a !in Apply(s, step).sh.heap
    ensures step == DestroyFree(a) || (step.Free? && s.threads[step.t].at == a)
  {
  }

  /** Once the lifecycle thread and the deliveries of `a` are done, a destroyed `a` is gone. */
  lemma QuiescentMeansFreed(tr: seq<State>, a: Addr)
    requires Run(tr)
    requires var s := tr[|tr| - 1]; s.frees == {} && (forall t :: t in s.threads ==> s.threads[t].at != a)
    ensures var s := tr[|tr| - 1]; a in s.sh.heap ==> !s.sh.heap[a].doomed && a in s.sh.list
  {
    var s := tr[|tr| - 1];
    RunInv(tr, |tr| - 1);
    assert Holders(s.threads, a) == {};
    assert Freers(s.threads, a) == {};
  }

  /**
   * bot_deferred_frees counts the doomed instances that still have holders;
   * so when bot_exit_drain reads zero, every delivery left on a doomed
   * instance has taken bot_mutex for the last time.
   */
  lemma DrainReadsZero(tr: seq<State>)
    requires Run(tr)
    ensures var s := tr[|tr| - 1];
      && s.sh.deferred == |set a | a in s.sh.heap && s.sh.heap[a].doomed && s.sh.heap[a].refs > 0|
      && (s.sh.deferred == 0 ==> forall t :: t in s.threads ==>
            && s.threads[t].at in s.sh.heap
            && (s.sh.heap[s.threads[t].at].doomed ==> s.threads[t].pc.Freeing?))
  {
    var s := tr[|tr| - 1];
    RunInv(tr, |tr| - 1);
    assert Deferred(s.sh.heap) == set a | a in s.sh.heap && s.sh.heap[a].doomed && s.sh.heap[a].refs > 0;
    if s.sh.deferred == 0 {
      forall t | t in s.threads && s.sh.heap[s.threads[t].at].doomed ensures s.threads[t].pc.Freeing? {
        assert s.threads[t].at !in Deferred(s.sh.heap);
        assert t !in Holders(s.threads, s.threads[t].at);
      }
    }
  }
}
