/**
 * Exactly when the teardown a detach leaves to the last delivery out is run,
 * and exactly when it is lost (core/bot.c).
 */
module BotTeardown {
  import opened Options
  import opened Seqs
  import opened BotRegistry
  import opened BotProtocol
  import opened BotMemory
  import opened BotHandles
  import opened BotTheorems

  ghost function Insiders(s: State, a: Addr): set<Tid> {
    set t | t in s.threads && s.threads[t].at == a && s.threads[t].pc.Inside?
  }

  ghost function Leavers(s: State, a: Addr): set<Tid> {
    set t | t in s.threads && s.threads[t].at == a && s.threads[t].pc.Leaving?
  }

  /** `td` was detached from `a` under deliveries, and is still to be claimed. */
  ghost predicate Parked(s: State, a: Addr, td: Teardown) {
    && a in s.sh.heap && s.sh.heap[a].dyingDrv == Some(td.drv)
    && s.sh.heap[a].dyingHandle == td.handle && s.sh.heap[a].dyingStop == td.stop
  }

  /** Delivery `t` has to run `td` on its way out. */
  ghost predicate Owes(s: State, t: Tid, td: Teardown) {
    t in s.threads && s.threads[t].pc == Leaving(Some(td))
  }

  /** There is a handle, and something to call on it. */
  ghost predicate Due(td: Teardown) { td.handle.Some? && (td.drv.destroy || (td.stop && td.drv.stop)) }

  /** Nobody holds `h` any more. */
  ghost predicate Gone(s: State, h: Handle) {
    h < s.nextHandle && forall w :: HandleAt(s, w) != Some(h)
  }

  /** `td` was run: stop() if it was asked for, and destroy(), as far as the driver has them. */
  ghost predicate Finished(s: State, td: Teardown)
    requires td.handle.Some?
  {
    && Gone(s, td.handle.value)
    && (Stopped(td.handle) in s.log <==> td.stop && td.drv.stop)
    && (Destroyed(td.handle.value) in s.log <==> td.drv.destroy)
  }

  /** A release has taken over `td`, or has run it. */
  ghost predicate Taken(s: State, td: Teardown)
    requires td.handle.Some?
  {
    Finished(s, td) || exists t :: Owes(s, t, td)
  }

  /** Nobody holds the handle any more, and neither stop() nor destroy() of a teardown was called on it. */
  ghost predicate Lost(s: State, td: Teardown)
    requires td.handle.Some?
  {
    Gone(s, td.handle.value) && Unended(s.log, td.handle.value)
  }

  ghost predicate DetachesNow(life: Life, a: Addr) {
    life == Destroying(a) || (life.Suspending? && life.rest != [] && life.rest[0] == a)
  }

  /** The section detaches a driver from `a` while somebody holds a reference. */
  ghost predicate Overwrites(s: State, step: Step, a: Addr) {
    && (step.DestroyDetach? || step.DetachNext?) && DetachesNow(s.life, a)
    && a in s.sh.heap && s.sh.heap[a].driver.Some? && s.sh.heap[a].refs > 0
  }

  ghost predicate Frees(s: State, step: Step, a: Addr) {
    step == DestroyFree(a) || (step.Free? && step.t in s.threads && s.threads[step.t].at == a)
  }

  /** The first section of a release by the only delivery holding `a`. */
  ghost predicate ClaimsAlone(s: State, step: Step, a: Addr) {
    step.Claim? && Insiders(s, a) == {step.t} && Leavers(s, a) == {}
  }

  /** A release claims the owed teardown exactly when nobody else is in the protocol. */
  lemma ClaimsIffAlone(s: State, t: Tid)
    requires Inv(s) && Enabled(s, Claim(t))
    requires s.sh.heap[s.threads[t].at].dyingDrv.Some?
    ensures var a := s.threads[t].at;
      Apply(s, Claim(t)).threads[t].pc.owed.Some? <==> Insiders(s, a) == {t} && Leavers(s, a) == {}
  {
    var a := s.threads[t].at;
    assert InstOk(s.sh.heap[a], s.threads, s.frees, a);
    assert Holders(s.threads, a) == Insiders(s, a) + Leavers(s, a);
    assert t in Insiders(s, a) && t !in Leavers(s, a);
    if s.sh.heap[a].refs == 1 {
      OnlyMember(Holders(s.threads, a), t);
    }
  }

  ghost predicate Fragment(tr: seq<State>, steps: seq<Step>) {
    && |tr| == |steps| + 1
    && forall i :: 0 <= i < |steps| ==> Enabled(tr[i], steps[i]) && tr[i + 1] == Apply(tr[i], steps[i])
  }

  // ---- One step -----------------------------------------------------------

  /** What one step does to a parked handle: lost, taken over, or still parked, and exactly when. */
  lemma ParkedStep(s: State, step: Step, a: Addr, td: Teardown)
    requires Inv(s) && Enabled(s, step) && Parked(s, a, td) && td.handle.Some?
    ensures var s' := Apply(s, step);
      if Overwrites(s, step, a) || Frees(s, step, a) then Lost(s', td)
      else if ClaimsAlone(s, step, a) then Taken(s', td)
      else Parked(s', a, td)
  {
    assert HandleAt(s, Dying(a)) == td.handle;
    if Overwrites(s, step, a) {
      OverwrittenIsLost(s, step, a, td);
    } else if Frees(s, step, a) {
      FreedIsLost(s, step, a, td);
    } else if step.Claim? && s.threads[step.t].at == a {
      ClaimOfParked(s, step.t, a, td);
    } else {
      assert !ClaimsAlone(s, step, a) by { if step.Claim? { assert step.t !in Insiders(s, a); } }
      StaysParked(s, step, a);
    }
  }

  lemma OverwrittenIsLost(s: State, step: Step, a: Addr, td: Teardown)
    requires Inv(s) && Enabled(s, step) && Overwrites(s, step, a) && td.handle.Some? && HandleAt(s, Dying(a)) == td.handle
    ensures Lost(Apply(s, step), td)
  {
    OverwrittenSlot(s, Apply(s, step), a, td);
  }

  lemma OverwrittenSlot(s: State, s': State, a: Addr, td: Teardown)
    requires HandlesOk(s) && a in s.sh.heap && td.handle.Some? && HandleAt(s, Dying(a)) == td.handle
    requires a in s'.sh.heap && s'.sh.heap == s.sh.heap[a := s'.sh.heap[a]]
    requires s'.sh.heap[a].handle.None? && s'.sh.heap[a].dyingHandle == s.sh.heap[a].handle
    requires s'.threads == s.threads && s'.pending.None? && s'.log == s.log && s'.nextHandle == s.nextHandle
    ensures Lost(s', td)
  {
    assert Unended(s.log, td.handle.value);
    forall w ensures HandleAt(s', w) != td.handle {
      assert HandleAt(s', w).Some? ==> HandleAt(s', w) == HandleAt(s, if w == Dying(a) then Attached(a) else w);
    }
  }

  lemma FreedIsLost(s: State, step: Step, a: Addr, td: Teardown)
    requires Inv(s) && Enabled(s, step) && Frees(s, step, a) && td.handle.Some? && HandleAt(s, Dying(a)) == td.handle
    ensures Lost(Apply(s, step), td)
  {
    GoneIsLost(s, Apply(s, step), a, td, s.sh.heap[a].id);
  }

  lemma GoneIsLost(s: State, s': State, a: Addr, td: Teardown, n: Id)
    requires HandlesOk(s) && td.handle.Some? && HandleAt(s, Dying(a)) == td.handle
    requires s'.sh.heap == s.sh.heap - {a} && s'.pending == s.pending && s'.nextHandle == s.nextHandle
    requires s'.log == s.log + [Freed(n)]
    requires forall t :: t in s'.threads ==> t in s.threads && s'.threads[t] == s.threads[t]
    ensures Lost(s', td)
  {
    assert Unended(s.log, td.handle.value);
    forall w ensures HandleAt(s', w) != td.handle {
      assert HandleAt(s', w).Some? ==> HandleAt(s', w) == HandleAt(s, w) && w != Dying(a);
    }
  }

  lemma ClaimOfParked(s: State, t: Tid, a: Addr, td: Teardown)
    requires Inv(s) && Enabled(s, Claim(t)) && s.threads[t].at == a && Parked(s, a, td) && td.handle.Some?
    ensures var s' := Apply(s, Claim(t)); if ClaimsAlone(s, Claim(t), a) then Taken(s', td) else Parked(s', a, td)
  {
    ClaimsIffAlone(s, t);
    assert ClaimsAlone(s, Claim(t), a) ==> Owes(Apply(s, Claim(t)), t, td);
  }

  lemma StaysParked(s: State, step: Step, a: Addr)
    requires Inv(s) && Enabled(s, step) && a in s.sh.heap && !Overwrites(s, step, a) && !Frees(s, step, a)
    requires step.Claim? ==> s.threads[step.t].at != a
    ensures a in Apply(s, step).sh.heap
    ensures SameDying(s.sh.heap[a], Apply(s, step).sh.heap[a])
  {
    assert InstOk(s.sh.heap[a], s.threads, s.frees, a);
    if step.DetachNext? {
      if s.life.rest != [] { DetachSpares(s, s.life.rest[0], s.life.stops[0], Apply(s, step).life, a); }
    } else if step.DestroyDetach? {
      DetachSpares(s, s.life.a, false, Apply(s, step).life, a);
    } else {
      SectionSpares(s, step, a);
    }
  }

  ghost predicate SameDying(i: Inst, i': Inst) { i'.dyingDrv == i.dyingDrv && i'.dyingHandle == i.dyingHandle && i'.dyingStop == i.dyingStop }

  lemma DetachSpares(s: State, b: Addr, stop: bool, next: Life, a: Addr)
    requires a in s.sh.heap && s.sh.heap[a].refs >= 0
    requires a == b ==> s.sh.heap[a].driver.None? || s.sh.heap[a].refs == 0
    ensures var s' := DetachAt(s, b, stop, next); a in s'.sh.heap && SameDying(s.sh.heap[a], s'.sh.heap[a])
  {
  }

  lemma SectionSpares(s: State, step: Step, a: Addr)
    requires Enabled(s, step) && a in s.sh.heap && !Frees(s, step, a) && !step.DetachNext? && !step.DestroyDetach?
    requires step.Claim? ==> s.threads[step.t].at != a
    requires step.Create? ==> step.a != a
    ensures a in Apply(s, step).sh.heap && SameDying(s.sh.heap[a], Apply(s, step).sh.heap[a])
  {
  }

  /** A handle is nowhere after a step unless it was somewhere before, or is new. */
  lemma HandleOrigin(s: State, step: Step, w: Slot)
    requires Inv(s) && Enabled(s, step) && HandleAt(Apply(s, step), w).Some?
    ensures var h := HandleAt(Apply(s, step), w); h.value == s.nextHandle || exists v :: HandleAt(s, v) == h
  {
    match w
    case Attached(a) => AttachedOrigin(s, step, a);
    case Dying(a) => DyingOrigin(s, step, a);
    case Owed(t) => OwedOrigin(s, step, t);
    case OwedByLife => PendingOrigin(s, step);
  }

  lemma AttachedOrigin(s: State, step: Step, a: Addr)
    requires Enabled(s, step) && HandleAt(Apply(s, step), Attached(a)).Some?
    ensures var h := HandleAt(Apply(s, step), Attached(a)); h == Some(s.nextHandle) || HandleAt(s, Attached(a)) == h
  {
  }

  lemma DyingOrigin(s: State, step: Step, a: Addr)
    requires Enabled(s, step) && HandleAt(Apply(s, step), Dying(a)).Some?
    ensures var h := HandleAt(Apply(s, step), Dying(a)); HandleAt(s, Dying(a)) == h || HandleAt(s, Attached(a)) == h
  {
  }

  lemma OwedOrigin(s: State, step: Step, t: Tid)
    requires Enabled(s, step) && HandleAt(Apply(s, step), Owed(t)).Some?
    ensures var h := HandleAt(Apply(s, step), Owed(t));
      t in s.threads && (HandleAt(s, Owed(t)) == h || HandleAt(s, Dying(s.threads[t].at)) == h)
  {
  }

  lemma PendingOrigin(s: State, step: Step)
    requires Enabled(s, step) && HandleAt(Apply(s, step), OwedByLife).Some?
    ensures exists v :: HandleAt(s, v) == HandleAt(Apply(s, step), OwedByLife)
  {
    var s' := Apply(s, step);
    if step.DetachNext? && s.life.rest != [] && s.life.stops != [] {
      assert HandleAt(s', OwedByLife) == HandleAt(s, Attached(s.life.rest[0]));
    } else if step.DestroyDetach? {
      assert HandleAt(s', OwedByLife) == HandleAt(s, Attached(s.life.a));
    } else {
      assert HandleAt(s', OwedByLife) == HandleAt(s, OwedByLife);
    }
  }

  /** What nobody holds nobody gets, and no teardown calls anything on it. */
  lemma GoneStays(s: State, step: Step, h: Handle)
    requires Inv(s) && Enabled(s, step) && Gone(s, h)
    ensures Gone(Apply(s, step), h)
    ensures Stopped(Some(h)) in Apply(s, step).log <==> Stopped(Some(h)) in s.log
    ensures Destroyed(h) in Apply(s, step).log <==> Destroyed(h) in s.log
  {
    var s' := Apply(s, step);
    forall w ensures HandleAt(s', w) != Some(h) {
      if HandleAt(s', w) == Some(h) { HandleOrigin(s, step, w); }
    }
    NoCallsOnGone(s, step, h);
  }

  lemma NoCallsOnGone(s: State, step: Step, h: Handle)
    requires Enabled(s, step) && forall w :: HandleAt(s, w) != Some(h)
    ensures Stopped(Some(h)) in Apply(s, step).log <==> Stopped(Some(h)) in s.log
    ensures Destroyed(h) in Apply(s, step).log <==> Destroyed(h) in s.log
  {
    if step.RunOwed? {
      assert HandleAt(s, Owed(step.t)) != Some(h);
    } else if step.LifeTeardown? {
      assert HandleAt(s, OwedByLife) != Some(h);
    }
  }

  lemma TakenStays(s: State, step: Step, td: Teardown)
    requires Inv(s) && Enabled(s, step) && td.handle.Some? && Taken(s, td)
    ensures Taken(Apply(s, step), td)
  {
    if Finished(s, td) {
      GoneStays(s, step, td.handle.value);
    } else {
      var t :| Owes(s, t, td);
      if step != RunOwed(t) {
        OwedStays(s, step, t, td);
      } else {
        OwedRuns(s, t, td);
      }
    }
  }

  lemma OwedRuns(s: State, t: Tid, td: Teardown)
    requires Inv(s) && Owes(s, t, td) && td.handle.Some?
    ensures Finished(Apply(s, RunOwed(t)), td)
  {
    RunFinishes(s, Apply(s, RunOwed(t)), Owed(t), td);
  }

  /** Running the teardown that slot `w` holds. */
  lemma RunFinishes(s: State, s': State, w: Slot, td: Teardown)
    requires HandlesOk(s) && td.handle.Some? && HandleAt(s, w) == td.handle && HandleAt(s', w).None?
    requires Fewer(s, s') && s'.nextHandle == s.nextHandle && s'.log == s.log + TeardownEvents(td)
    ensures Finished(s', td)
  {
    assert Unended(s.log, td.handle.value);
    forall v ensures HandleAt(s', v) != td.handle {
      assert HandleAt(s', v).Some? ==> HandleAt(s, v) == HandleAt(s', v) && v != w;
    }
  }

  lemma OwedStays(s: State, step: Step, t: Tid, td: Teardown)
    requires Enabled(s, step) && step != RunOwed(t) && Owes(s, t, td)
    ensures Owes(Apply(s, step), t, td)
  {
  }

  // ---- Whole runs ---------------------------------------------------------

  lemma {:induction false} InvAlong(tr: seq<State>, steps: seq<Step>, n: nat)
    requires Fragment(tr, steps) && Inv(tr[0]) && n <= |steps|
    ensures Inv(tr[n])
  {
    if n > 0 {
      InvAlong(tr, steps, n - 1);
      StepInv(tr[n - 1], steps[n - 1]);
    }
  }

  lemma {:induction false} LostForGood(tr: seq<State>, steps: seq<Step>, n: nat, td: Teardown)
    requires Fragment(tr, steps) && n <= |steps| && Inv(tr[n]) && td.handle.Some? && Lost(tr[n], td)
    ensures Lost(tr[|steps|], td)
    decreases |steps| - n
  {
    if n < |steps| {
      GoneStays(tr[n], steps[n], td.handle.value);
      StepInv(tr[n], steps[n]);
      LostForGood(tr, steps, n + 1, td);
    }
  }

  lemma {:induction false} TakenForGood(tr: seq<State>, steps: seq<Step>, n: nat, td: Teardown)
    requires Fragment(tr, steps) && n <= |steps| && Inv(tr[n]) && td.handle.Some? && Taken(tr[n], td)
    ensures Inv(tr[|steps|]) && Taken(tr[|steps|], td)
    decreases |steps| - n
  {
    if n < |steps| {
      TakenStays(tr[n], steps[n], td);
      StepInv(tr[n], steps[n]);
      TakenForGood(tr, steps, n + 1, td);
    }
  }

  /** Step `n` parks another teardown over `td`. */
  ghost predicate OverwrittenAt(tr: seq<State>, steps: seq<Step>, a: Addr, td: Teardown, n: int) {
    0 <= n < |steps| < |tr| && Parked(tr[n], a, td) && Overwrites(tr[n], steps[n], a)
  }

  /**
   * Nobody is inside `a` at point `k`: nobody was from the start, or the claim
   * that has just taken the only delivery out overlapped another release.
   */
  ghost predicate Unattended(tr: seq<State>, steps: seq<Step>, a: Addr, k: int)
    requires 0 <= k <= |steps| < |tr|
  {
    && Insiders(tr[k], a) == {}
    && (k > 0 ==> steps[k - 1].Claim? && Insiders(tr[k - 1], a) == {steps[k - 1].t} && Leavers(tr[k - 1], a) != {})
  }

  /** Left unattended at `k`, with nobody inside since, `a` is freed by step `n`. */
  ghost predicate FreedUnattended(tr: seq<State>, steps: seq<Step>, a: Addr, td: Teardown, k: int, n: int) {
    && 0 <= k <= n < |steps| < |tr| && Parked(tr[k], a, td) && Unattended(tr, steps, a, k)
    && (forall i :: k <= i <= n ==> Insiders(tr[i], a) == {})
    && Frees(tr[n], steps[n], a)
  }

  /**
   * A parked teardown is lost exactly when another detach under deliveries
   * overwrites it, or when the instance is left with nobody inside, by a
   * release that overlaps another or from the start, and is freed like that.
   * Otherwise it is still parked, or a release has taken it over or run it.
   */
  lemma TeardownLostIff(tr: seq<State>, steps: seq<Step>, a: Addr, td: Teardown)
    requires Fragment(tr, steps) && Inv(tr[0]) && Parked(tr[0], a, td) && Due(td)
    ensures Lost(tr[|steps|], td) <==>
      || (exists n :: OverwrittenAt(tr, steps, a, td, n))
      || (exists k, n :: FreedUnattended(tr, steps, a, td, k, n))
    ensures Lost(tr[|steps|], td) || Taken(tr[|steps|], td) || Parked(tr[|steps|], a, td)
  {
    forall n | OverwrittenAt(tr, steps, a, td, n) ensures Lost(tr[|steps|], td) { OverwrittenLoses(tr, steps, a, td, n); }
    forall k, n | FreedUnattended(tr, steps, a, td, k, n) ensures Lost(tr[|steps|], td) {
      UnattendedLoses(tr, steps, a, td, k, n);
    }
    var n := Fate(tr, steps, a, td);
    if Lost(tr[|steps|], td) && !OverwrittenAt(tr, steps, a, td, n) {
      var k := LastEmptied(tr, steps, a, td, n);
      assert FreedUnattended(tr, steps, a, td, k, n);
    }
  }

  lemma OverwrittenLoses(tr: seq<State>, steps: seq<Step>, a: Addr, td: Teardown, n: int)
    requires Fragment(tr, steps) && Inv(tr[0]) && OverwrittenAt(tr, steps, a, td, n) && td.handle.Some?
    ensures Lost(tr[|steps|], td)
  {
    InvAlong(tr, steps, n);
    InvAlong(tr, steps, n + 1);
    ParkedStep(tr[n], steps[n], a, td);
    LostForGood(tr, steps, n + 1, td);
  }

  lemma UnattendedLoses(tr: seq<State>, steps: seq<Step>, a: Addr, td: Teardown, k: int, n: int)
    requires Fragment(tr, steps) && Inv(tr[0]) && FreedUnattended(tr, steps, a, td, k, n) && td.handle.Some?
    ensures Lost(tr[|steps|], td)
  {
    StillUnattended(tr, steps, a, td, k, n);
    InvAlong(tr, steps, n);
    assert Insiders(tr[n], a) == {};
    UnattendedStep(tr[n], steps[n], a, td);
    StepInv(tr[n], steps[n]);
    LostForGood(tr, steps, n + 1, td);
  }

  ghost predicate Adrift(s: State, a: Addr, td: Teardown)
    requires td.handle.Some?
  {
    Lost(s, td) || Parked(s, a, td)
  }

  /** With nobody inside, nobody claims: the handle stays parked or is lost. */
  lemma {:induction false} StillUnattended(tr: seq<State>, steps: seq<Step>, a: Addr, td: Teardown, k: nat, i: nat)
    requires Fragment(tr, steps) && k <= i <= |steps| && Inv(tr[0]) && td.handle.Some? && Adrift(tr[k], a, td)
    requires forall j :: k <= j < i ==> Insiders(tr[j], a) == {}
    ensures Adrift(tr[i], a, td)
  {
    if i > k {
      StillUnattended(tr, steps, a, td, k, i - 1);
      InvAlong(tr, steps, i - 1);
      AdriftStep(tr[i - 1], steps[i - 1], a, td);
    }
  }

  lemma AdriftStep(s: State, step: Step, a: Addr, td: Teardown)
    requires Inv(s) && Enabled(s, step) && Insiders(s, a) == {} && td.handle.Some? && Adrift(s, a, td)
    ensures Adrift(Apply(s, step), a, td)
  {
    UnattendedStep(s, step, a, td);
  }

  lemma UnattendedStep(s: State, step: Step, a: Addr, td: Teardown)
    requires Inv(s) && Enabled(s, step) && Insiders(s, a) == {} && td.handle.Some? && (Lost(s, td) || Parked(s, a, td))
    ensures Lost(Apply(s, step), td) || (Parked(Apply(s, step), a, td) && !Frees(s, step, a))
  {
    if Lost(s, td) { GoneStays(s, step, td.handle.value); } else { ParkedStep(s, step, a, td); }
  }

  /** How long the teardown stays parked, and what ends that. */
  lemma Fate(tr: seq<State>, steps: seq<Step>, a: Addr, td: Teardown) returns (n: nat)
    requires Fragment(tr, steps) && Inv(tr[0]) && Parked(tr[0], a, td) && Due(td)
    ensures n <= |steps| && ParkedUntil(tr, steps, a, td, n)
    ensures n == |steps| ==> !Lost(tr[n], td)
    ensures n < |steps| ==>
      if Overwrites(tr[n], steps[n], a) || Frees(tr[n], steps[n], a) then Lost(tr[|steps|], td)
      else Taken(tr[|steps|], td) && !Lost(tr[|steps|], td)
  {
    n := 0;
    while n < |steps|
      invariant n <= |steps| && ParkedUntil(tr, steps, a, td, n)
    {
      FateStep(tr, steps, a, td, n);
      if Overwrites(tr[n], steps[n], a) || Frees(tr[n], steps[n], a) || ClaimsAlone(tr[n], steps[n], a) { return; }
      n := n + 1;
    }
    assert HandleAt(tr[n], Dying(a)) == td.handle;
  }

  lemma FateStep(tr: seq<State>, steps: seq<Step>, a: Addr, td: Teardown, n: nat)
    requires Fragment(tr, steps) && n < |steps| && ParkedUntil(tr, steps, a, td, n) && Due(td)
    ensures
      if Overwrites(tr[n], steps[n], a) || Frees(tr[n], steps[n], a) then Lost(tr[|steps|], td)
      else if ClaimsAlone(tr[n], steps[n], a) then Taken(tr[|steps|], td) && !Lost(tr[|steps|], td)
      else ParkedUntil(tr, steps, a, td, n + 1)
  {
    ParkedStep(tr[n], steps[n], a, td);
    StepInv(tr[n], steps[n]);
    if Overwrites(tr[n], steps[n], a) || Frees(tr[n], steps[n], a) {
      LostForGood(tr, steps, n + 1, td);
    } else if ClaimsAlone(tr[n], steps[n], a) {
      TakenForGood(tr, steps, n + 1, td);
      TakenIsNotLost(tr[|steps|], td);
    }
  }

  lemma TakenIsNotLost(s: State, td: Teardown)
    requires Inv(s) && Due(td) && Taken(s, td)
    ensures !Lost(s, td)
  {
    if !Finished(s, td) {
      var t :| Owes(s, t, td);
      assert HandleAt(s, Owed(t)) == td.handle;
    }
  }

  ghost predicate ParkedUntil(tr: seq<State>, steps: seq<Step>, a: Addr, td: Teardown, n: nat)
    requires n <= |steps| < |tr|
  {
    && (forall i :: 0 <= i <= n ==> Parked(tr[i], a, td) && Inv(tr[i]))
    && (forall i :: 0 <= i < n ==> !ClaimsAlone(tr[i], steps[i], a))
  }

  /** The point from which on nobody was inside the instance that step `n` frees. */
  lemma LastEmptied(tr: seq<State>, steps: seq<Step>, a: Addr, td: Teardown, n: nat) returns (k: nat)
    requires Fragment(tr, steps) && n < |steps| && ParkedUntil(tr, steps, a, td, n) && Frees(tr[n], steps[n], a)
    ensures FreedUnattended(tr, steps, a, td, k, n)
  {
    FreedAlone(tr[n], steps[n], a);
    k := n;
    while k > 0 && Insiders(tr[k - 1], a) == {}
      invariant k <= n
      invariant forall i :: k <= i <= n ==> Insiders(tr[i], a) == {}
    {
      k := k - 1;
    }
    if k > 0 {
      assert tr[k - 1 + 1] == Apply(tr[k - 1], steps[k - 1]);
      EmptiedByClaim(tr[k - 1], steps[k - 1], a);
      assert !ClaimsAlone(tr[k - 1], steps[k - 1], a);
    }
  }

  lemma FreedAlone(s: State, step: Step, a: Addr)
    requires Inv(s) && Enabled(s, step) && Frees(s, step, a) && a in s.sh.heap
    ensures Insiders(s, a) == {}
  {
    assert InstOk(s.sh.heap[a], s.threads, s.frees, a);
    assert Insiders(s, a) <= Holders(s.threads, a);
    if step.Free? { assert step.t in Freers(s.threads, a); }
  }

  /** The step that empties the inside of `a` is the claim of the last delivery in it. */
  lemma EmptiedByClaim(s: State, step: Step, a: Addr)
    requires Enabled(s, step) && Insiders(s, a) != {} && Insiders(Apply(s, step), a) == {}
    ensures step.Claim? && Insiders(s, a) == {step.t}
  {
    var t := Pick(Insiders(s, a));
    forall u | u in Insiders(s, a) ensures step == Claim(u) {
      assert u !in Insiders(Apply(s, step), a);
    }
  }

  /** Every call `td` asks for is in the log. */
  ghost predicate Carried(log: seq<Event>, td: Teardown) {
    && (td.stop && td.drv.stop ==> Stopped(td.handle) in log)
    && (td.drv.destroy && td.handle.Some? ==> Destroyed(td.handle.value) in log)
  }

  /** A claimed teardown is run before the claiming delivery drops its reference. */
  lemma {:induction false} ClaimedIsRun(tr: seq<State>, steps: seq<Step>, t: Tid, td: Teardown)
    requires Fragment(tr, steps) && Owes(tr[0], t, td) && !Owes(tr[|steps|], t, td)
    ensures Carried(tr[|steps|].log, td)
  {
    if steps[0] == RunOwed(t) && tr[0].threads[t].at in tr[0].sh.heap {
      CarriedOn(tr[1..], steps[1..], td);
    } else {
      assert Owes(tr[1], t, td);
      ClaimedIsRun(tr[1..], steps[1..], t, td);
    }
  }

  /** So is a teardown that the detaching thread has kept for itself. */
  lemma {:induction false} PendingIsRun(tr: seq<State>, steps: seq<Step>, td: Teardown)
    requires Fragment(tr, steps) && tr[0].pending == Some(td) && tr[|steps|].pending != Some(td)
    ensures Carried(tr[|steps|].log, td)
  {
    if steps[0] == LifeTeardown {
      CarriedOn(tr[1..], steps[1..], td);
    } else {
      assert tr[1].pending == Some(td);
      PendingIsRun(tr[1..], steps[1..], td);
    }
  }

  lemma CarriedOn(tr: seq<State>, steps: seq<Step>, td: Teardown)
    requires Fragment(tr, steps) && Carried(tr[0].log, td)
    ensures Carried(tr[|steps|].log, td)
  {
    if td.stop && td.drv.stop { LogGrows(tr, steps, Stopped(td.handle)); }
    if td.drv.destroy && td.handle.Some? { LogGrows(tr, steps, Destroyed(td.handle.value)); }
  }

  lemma {:induction false} LogGrows(tr: seq<State>, steps: seq<Step>, e: Event)
    requires Fragment(tr, steps) && e in tr[0].log
    ensures e in tr[|steps|].log
  {
    if steps != [] {
      LogGrows(tr[1..], steps[1..], e);
    }
  }
}
