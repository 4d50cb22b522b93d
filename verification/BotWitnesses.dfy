/** Runs of the bot protocol in which a documented guarantee does not hold. */
module BotWitnesses {
  import opened Options
  import opened BotRegistry
  import opened BotProtocol
  import opened BotPoll

  const DRV := Driver(100, "chat", true, true, true)
  const BOT := Addr(1)
  const T1 := Tid(1)
  const T2 := Tid(2)

  /** Created, with one delivery inside. */
  function Occupied(): Inst { Inst(1, Some(DRV), Some(0), false, None, 1, None, None, false, false) }

  function Entered(): State {
    Empty.(sh := Shared(map[BOT := Occupied()], [BOT], 0),
           threads := map[T1 := Delivery(BOT, 1, DRV, Some(0), Inside)], nextId := 1, nextHandle := 1)
  }

  ghost predicate Reachable(s: State) {
    exists tr :: Run(tr) && tr[|tr| - 1] == s
  }

  lemma Reached(s: State, step: Step)
    requires Reachable(s) && Enabled(s, step)
    ensures Reachable(Apply(s, step))
  {
    var tr :| Run(tr) && tr[|tr| - 1] == s;
    var tr' := tr + [Apply(s, step)];
    assert Next(s, Apply(s, step));
    forall i | 0 <= i < |tr'| - 1 ensures Next(tr'[i], tr'[i + 1]) {
      if i < |tr| - 1 { assert tr'[i] == tr[i] && tr'[i + 1] == tr[i + 1]; }
    }
    assert Run(tr') && tr'[|tr'| - 1] == Apply(s, step);
  }

  lemma EnteredReachable()
    ensures Reachable(Entered())
  {
    assert Run([Empty]);
    assert Reachable(Empty) by { var tr := [Empty]; assert Run(tr) && tr[|tr| - 1] == Empty; }
    var s1 := Apply(Empty, Create(BOT, DRV));
    Reached(Empty, Create(BOT, DRV));
    assert s1.sh.list == [BOT] && FindBot(s1.sh.heap, s1.sh.list, 1) == Some(BOT);
    Reached(s1, Acquire(T1, 1));
    assert Apply(s1, Acquire(T1, 1)) == Entered();
  }

  /** Both deliveries inside a destroyed bot, the teardown owed to the last one out. */
  function Doomed(): State {
    var d := Delivery(BOT, 1, DRV, Some(0), Inside);
    Entered().(sh := Shared(map[BOT := Inst(1, None, None, false, None, 2, Some(DRV), Some(0), false, true)], [], 1),
               threads := map[T1 := d, T2 := d])
  }

  /** Two deliveries inside. */
  function Crowded(): State {
    var d := Delivery(BOT, 1, DRV, Some(0), Inside);
    Entered().(sh := Shared(map[BOT := Occupied().(refs := 2)], [BOT], 0), threads := map[T1 := d, T2 := d])
  }

  lemma CrowdedReachable()
    ensures Reachable(Crowded())
  {
    EnteredReachable();
    var s0 := Entered();
    assert FindBot(s0.sh.heap, s0.sh.list, 1) == Some(BOT);
    Reached(s0, Acquire(T2, 1));
    assert Apply(s0, Acquire(T2, 1)) == Crowded();
  }

  lemma DoomedReachable()
    ensures Reachable(Doomed())
  {
    CrowdedReachable();
    var s1 := Crowded();
    Reached(s1, Destroy(BOT));
    var s2 := Apply(s1, Destroy(BOT));
    Reached(s2, DestroyDetach);
    var s3 := Apply(s2, DestroyDetach);
    Reached(s3, DestroyUnlink);
    assert Apply(s3, DestroyUnlink) == Doomed();
  }

  /**
   * Two releases that both pass their first section while the other still
   * holds its reference leave the owed teardown to nobody: the instance is
   * freed and the handle is never destroyed.
   */
  lemma OverlappingReleasesStrandTeardown()
    ensures exists s :: Reachable(s) && s.sh.heap == map[] && s.threads == map[] && s.log == [Freed(1)]
  {
    DoomedReachable();
    var s4 := Doomed();
    Reached(s4, Claim(T1));
    var s5 := Apply(s4, Claim(T1));
    Reached(s5, Claim(T2));
    var s6 := Apply(s5, Claim(T2));
    Reached(s6, Drop(T1));
    var s7 := Apply(s6, Drop(T1));
    Reached(s7, Drop(T2));
    var s8 := Apply(s7, Drop(T2));
    Reached(s8, Free(T2));
    var s9 := Apply(s8, Free(T2));
    assert s9.threads == map[];
  }

  /** Detached by a suspend and re-attached at once, with the first delivery still inside. */
  function Reattached(): State {
    Entered().(sh := Shared(map[BOT := Inst(1, Some(DRV), Some(1), false, None, 1, Some(DRV), Some(0), false, false)], [BOT], 0),
               nextHandle := 2)
  }

  lemma ReattachedReachable()
    ensures Reachable(Reattached())
  {
    EnteredReachable();
    var s0 := Entered();
    assert Bound(s0.sh.heap, s0.sh.list, "chat", SUSPEND_MAX) == [BOT];
    Reached(s0, Suspend("chat"));
    var s1 := Apply(s0, Suspend("chat"));
    Reached(s1, DetachNext);
    var s2 := Apply(s1, DetachNext);
    Reached(s2, DetachNext);
    var s3 := Apply(s2, DetachNext);
    Reached(s3, Resume(BOT, DRV));
    assert Apply(s3, Resume(BOT, DRV)) == Reattached();
  }

  /** The re-attached bot destroyed: the handle of the second attachment lies over the first. */
  function Overwritten(): State {
    Reattached().(sh := Shared(map[BOT := Inst(1, None, None, false, None, 1, Some(DRV), Some(1), false, true)], [], 1))
  }

  lemma OverwrittenReachable()
    ensures Reachable(Overwritten())
  {
    ReattachedReachable();
    var s0 := Reattached();
    Reached(s0, Destroy(BOT));
    var s1 := Apply(s0, Destroy(BOT));
    Reached(s1, DestroyDetach);
    var s2 := Apply(s1, DestroyDetach);
    Reached(s2, DestroyUnlink);
    assert Apply(s2, DestroyUnlink) == Overwritten();
  }

  /**
   * A second detach under the same delivery replaces the teardown parked by
   * the first. No two releases overlap, the lone delivery runs the second
   * teardown, and handle 0 is never destroyed.
   */
  lemma SecondDetachOverwritesTeardown()
    ensures exists s :: Reachable(s) && s.sh.heap == map[] && s.threads == map[] && s.log == [Destroyed(1), Freed(1)]
  {
    OverwrittenReachable();
    var s0 := Overwritten();
    Reached(s0, Claim(T1));
    var s1 := Apply(s0, Claim(T1));
    Reached(s1, RunOwed(T1));
    var s2 := Apply(s1, RunOwed(T1));
    Reached(s2, Drop(T1));
    var s3 := Apply(s2, Drop(T1));
    Reached(s3, Free(T1));
    assert Apply(s3, Free(T1)).threads == map[];
  }

  /** Suspended while running with nobody inside: the detaching thread calls stop(), then destroy(). */
  lemma SuspendStopsThenDestroys()
    ensures exists s :: Reachable(s) && s.log == [Stopped(Some(0)), Destroyed(0)]
  {
    assert Run([Empty]);
    assert Reachable(Empty) by { var tr := [Empty]; assert Run(tr) && tr[|tr| - 1] == Empty; }
    Reached(Empty, Create(BOT, DRV));
    var s1 := Apply(Empty, Create(BOT, DRV));
    assert s1.sh.list == [BOT];
    Reached(s1, SetRunning(BOT, true));
    var s2 := Apply(s1, SetRunning(BOT, true));
    assert Bound(s2.sh.heap, s2.sh.list, "chat", SUSPEND_MAX) == [BOT];
    Reached(s2, Suspend("chat"));
    var s3 := Apply(s2, Suspend("chat"));
    Reached(s3, DetachNext);
    var s4 := Apply(s3, DetachNext);
    Reached(s4, LifeTeardown);
    assert Apply(s4, LifeTeardown).log == [Stopped(Some(0)), Destroyed(0)];
  }

  /** Destroyed between the two sections of its only release. */
  function Stranded(): State {
    Entered().(sh := Shared(map[BOT := Inst(1, None, None, false, None, 1, Some(DRV), Some(0), false, true)], [], 1),
               threads := map[T1 := Delivery(BOT, 1, DRV, Some(0), Leaving(None))])
  }

  lemma StrandedReachable()
    ensures Reachable(Stranded())
  {
    EnteredReachable();
    var s0 := Entered();
    Reached(s0, Claim(T1));
    var s1 := Apply(s0, Claim(T1));
    Reached(s1, Destroy(BOT));
    var s2 := Apply(s1, Destroy(BOT));
    Reached(s2, DestroyDetach);
    var s3 := Apply(s2, DestroyDetach);
    Reached(s3, DestroyUnlink);
    assert Apply(s3, DestroyUnlink) == Stranded();
  }

  /**
   * A detach that falls between the two sections of the only release parks a
   * teardown that this release no longer looks for.
   */
  lemma DetachInsideReleaseStrands()
    ensures exists s :: Reachable(s) && s.sh.heap == map[] && s.threads == map[] && s.log == [Freed(1)]
  {
    StrandedReachable();
    var s0 := Stranded();
    Reached(s0, Drop(T1));
    var s1 := Apply(s0, Drop(T1));
    Reached(s1, Free(T1));
    assert Apply(s1, Free(T1)).threads == map[];
  }

  /**
   * Between claiming a teardown and dropping its reference a delivery runs
   * destroy() inside the driver's mapping, yet bot_driver_inflight_owned
   * counts nothing: the claim has already cleared the vtable it looks at.
   */
  lemma PollMissesClaimedTeardown()
    ensures exists s :: Reachable(s) && Linked(s.sh.heap, s.sh.list) && T1 in s.threads && s.threads[T1].pc.Leaving? &&
                        Executing(s, T1, 0, 1000) &&
                        InflightOwned(s.sh.heap, s.sh.list, 0, 1000) == 0
  {
    EnteredReachable();
    var s0 := Entered();
    assert Bound(s0.sh.heap, s0.sh.list, "chat", SUSPEND_MAX) == [BOT];
    Reached(s0, Suspend("chat"));
    var s1 := Apply(s0, Suspend("chat"));
    Reached(s1, DetachNext);
    var s2 := Apply(s1, DetachNext);
    Reached(s2, Claim(T1));
    var s3 := Apply(s2, Claim(T1));
    assert s3.threads[T1].pc.Leaving? && Executing(s3, T1, 0, 1000);
    assert Linked(s3.sh.heap, s3.sh.list) && s3.sh.list[..0] == [];
    assert !CountsFor(s3.sh.heap[BOT], 0, 1000);
    assert InflightOwned(s3.sh.heap, s3.sh.list, 0, 1000) == 0;
  }

  /** The poll walks the list only: deliveries inside a destroyed bot are not on it. */
  lemma PollMissesUnlinked()
    ensures exists s :: Reachable(s) && Linked(s.sh.heap, s.sh.list) && T1 in s.threads && s.threads[T1].pc.Inside? &&
                        Executing(s, T1, 0, 1000) && InflightOwned(s.sh.heap, s.sh.list, 0, 1000) == 0
  {
    DoomedReachable();
    var s := Doomed();
    assert Executing(s, T1, 0, 1000) && s.sh.list == [];
  }
}
