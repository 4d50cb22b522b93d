/**
 * What every step of the bot protocol keeps about handles: a handle that has
 * not been destroyed is owed by at most one party, and no delivery is inside
 * a handle whose destroy() is committed.
 */
module BotHandles {
  import opened Options
  import opened BotRegistry
  import opened BotProtocol
  import opened BotMemory

  /** The places a handle that still owes its destroy() can be. */
  datatype Slot = Attached(a: Addr) | Dying(a: Addr) | Owed(t: Tid) | OwedByLife

  ghost function HandleAt(s: State, w: Slot): Option<Handle> {
    match w
    case Attached(a) => if a in s.sh.heap then s.sh.heap[a].handle else None
    case Dying(a) => if a in s.sh.heap then s.sh.heap[a].dyingHandle else None
    case Owed(t) =>
      if t in s.threads && s.threads[t].pc.Leaving? && s.threads[t].pc.owed.Some?
      then s.threads[t].pc.owed.value.handle else None
    case OwedByLife => if s.pending.Some? then s.pending.value.handle else None
  }

  /** `h` is about to have its destroy() called, or has had it. */
  ghost predicate Committed(s: State, h: Handle) {
    || Destroyed(h) in s.log
    || HandleAt(s, OwedByLife) == Some(h)
    || exists t :: HandleAt(s, Owed(t)) == Some(h)
  }

  /** A handle is there exactly while a driver with create() is. */
  ghost predicate DriverOk(heap: map<Addr, Inst>) {
    forall a :: a in heap ==>
      && (heap[a].handle.Some? <==> heap[a].driver.Some? && heap[a].driver.value.create)
      && (heap[a].dyingHandle.Some? <==> heap[a].dyingDrv.Some? && heap[a].dyingDrv.value.create)
  }

  ghost predicate HandlesOk(s: State) {
    && (forall w, w' :: HandleAt(s, w).Some? && HandleAt(s, w) == HandleAt(s, w') ==> w == w')
    && (forall w :: HandleAt(s, w).Some? ==> HandleAt(s, w).value < s.nextHandle && Unended(s.log, HandleAt(s, w).value))
    && (forall e, h :: e in s.log && Calls(e, h) ==> h < s.nextHandle)
  }

  /** `e` is a call into the driver with handle `h`. */
  predicate Calls(e: Event, h: Handle) {
    e == Halted(Some(h)) || e == Stopped(Some(h)) || e == Destroyed(h)
  }

  /** No teardown of `h` has begun. */
  predicate Unended(log: seq<Event>, h: Handle) {
    Stopped(Some(h)) !in log && Destroyed(h) !in log
  }

  /** A delivery's handle belongs to its own instance, and is not committed while it is inside. */
  ghost predicate LiveThread(s: State, d: Delivery)
    requires d.handle.Some?
  {
    && d.handle.value < s.nextHandle
    && (forall a :: HandleAt(s, Attached(a)) == d.handle || HandleAt(s, Dying(a)) == d.handle ==> a == d.at)
    && (d.pc.Inside? ==> !Committed(s, d.handle.value))
  }

  ghost predicate LiveOk(s: State) {
    forall t :: t in s.threads && s.threads[t].handle.Some? ==> LiveThread(s, s.threads[t])
  }

  /** `e` may come before `f`: destroy() is the last call on a handle, and the stop() of a teardown the last but it. */
  predicate InOrder(e: Event, f: Event) {
    match e
    case Destroyed(h) => !Calls(f, h)
    case Stopped(h) => h.Some? && Calls(f, h.value) ==> f.Destroyed?
    case Freed(_) => f != e
    case Halted(_) => true
  }

  ghost predicate LogOk(log: seq<Event>) {
    forall i, j :: 0 <= i < j < |log| ==> InOrder(log[i], log[j])
  }

  lemma LogMore(log: seq<Event>, e: Event)
    requires LogOk(log) && (e.Freed? ==> e !in log) && forall h :: Calls(e, h) ==> Destroyed(h) !in log
    requires forall h :: Calls(e, h) && !e.Destroyed? ==> Stopped(Some(h)) !in log
    ensures LogOk(log + [e])
  {
    forall i | 0 <= i < |log| ensures InOrder(log[i], e) { assert log[i] in log; }
  }

  ghost predicate HandleInv(s: State) {
    DriverOk(s.sh.heap) && HandlesOk(s) && LiveOk(s) && LogOk(s.log)
  }

  ghost predicate Inv(s: State) { MemInv(s) && HandleInv(s) }

  // ---- Ways a step can move a handle --------------------------------------

  /** From `s` to `s'` only slot `to` gained a handle, the one `from` gave up. */
  ghost predicate Moved(s: State, s': State, from: Slot, to: Slot) {
    && from != to
    && HandleAt(s', to) == HandleAt(s, from) && HandleAt(s', from).None?
    && (forall w :: w != from && w != to && HandleAt(s', w).Some? ==> HandleAt(s', w) == HandleAt(s, w))
  }

  ghost predicate Fewer(s: State, s': State) {
    forall w :: HandleAt(s', w).Some? ==> HandleAt(s', w) == HandleAt(s, w)
  }

  /** Every delivery was already there, and has not gone back inside. */
  ghost predicate NoNewcomers(threads: map<Tid, Delivery>, threads': map<Tid, Delivery>) {
    forall t :: t in threads' ==>
      && t in threads && threads'[t].handle == threads[t].handle && threads'[t].at == threads[t].at
      && (threads'[t].pc.Inside? ==> threads[t].pc.Inside?)
  }

  lemma MovedKeeps(s: State, s': State, from: Slot, to: Slot)
    requires HandlesOk(s) && Moved(s, s', from, to)
    requires s'.log == s.log && s'.nextHandle == s.nextHandle
    ensures HandlesOk(s')
  {
    forall w, w' | HandleAt(s', w).Some? && HandleAt(s', w) == HandleAt(s', w') ensures w == w' {
      var v := if w == to then from else w;
      var v' := if w' == to then from else w';
      assert HandleAt(s, v) == HandleAt(s, v');
    }
  }

  /** The instance giving up its handle has no delivery still inside. */
  lemma LiveAfterMove(s: State, s': State, from: Slot, to: Slot, a: Addr)
    requires LiveOk(s) && Moved(s, s', from, to) && s'.log == s.log && s'.nextHandle == s.nextHandle
    requires from == Dying(a) || from == Attached(a)
    requires to == Dying(a) || to.OwedByLife? || to.Owed?
    requires NoNewcomers(s.threads, s'.threads)
    requires to != Dying(a) ==> forall u :: u in s'.threads && s'.threads[u].pc.Inside? ==> s'.threads[u].at != a
    ensures LiveOk(s')
  {
    forall t | t in s'.threads && s'.threads[t].handle.Some? ensures LiveThread(s', s'.threads[t]) {
      assert LiveThread(s, s.threads[t]);
      var d := s'.threads[t];
      forall b | HandleAt(s', Attached(b)) == d.handle || HandleAt(s', Dying(b)) == d.handle ensures b == d.at {
        if HandleAt(s', Attached(b)) == d.handle {
          assert HandleAt(s, Attached(b)) == d.handle;
        } else if Dying(b) == to {
          assert HandleAt(s, Attached(b)) == d.handle || HandleAt(s, Dying(b)) == d.handle;
        } else {
          assert HandleAt(s, Dying(b)) == d.handle;
        }
      }
    }
  }

  /** A step that commits nothing and moves no handle; it may log a call on one that is attached. */
  lemma Unmoved(s: State, s': State)
    requires HandlesOk(s) && LiveOk(s) && Fewer(s, s') && NoNewcomers(s.threads, s'.threads)
    requires s.nextHandle <= s'.nextHandle && Harmless(s, s'.log)
    ensures HandlesOk(s') && LiveOk(s')
  {
    assert forall h :: Destroyed(h) in s'.log <==> Destroyed(h) in s.log;
    assert forall h :: Stopped(Some(h)) in s'.log <==> Stopped(Some(h)) in s.log;
    forall h | Committed(s', h) ensures Committed(s, h) {}
  }

  /** Nothing new in the log but a free, or stop() of a bot that stays attached. */
  ghost predicate Harmless(s: State, log: seq<Event>) {
    || log == s.log
    || (exists n :: log == s.log + [Freed(n)] && Freed(n) !in s.log)
    || (exists a :: log == s.log + [Halted(HandleAt(s, Attached(a)))])
  }

  lemma HarmlessLog(s: State, log: seq<Event>)
    requires HandlesOk(s) && LogOk(s.log) && Harmless(s, log)
    ensures LogOk(log)
  {
    if n :| log == s.log + [Freed(n)] && Freed(n) !in s.log {
      LogMore(s.log, Freed(n));
    } else if a :| log == s.log + [Halted(HandleAt(s, Attached(a)))] {
      LogMore(s.log, Halted(HandleAt(s, Attached(a))));
    }
  }

  /** Running a teardown turns an owed handle into a destroyed one. */
  lemma TeardownHandles(s: State, s': State, w: Slot, td: Teardown)
    requires HandlesOk(s) && LiveOk(s) && LogOk(s.log)
    requires (w.Owed? || w.OwedByLife?) && HandleAt(s, w) == td.handle && HandleAt(s', w).None?
    requires Fewer(s, s') && NoNewcomers(s.threads, s'.threads) && s'.nextHandle == s.nextHandle
    requires s'.log == s.log + TeardownEvents(td)
    ensures HandlesOk(s') && LiveOk(s') && LogOk(s'.log)
  {
    TeardownCalls(s.log, td);
    TeardownLog(s.log, td);
    forall v | HandleAt(s', v).Some? ensures HandleAt(s', v) != td.handle { assert HandleAt(s, v) == HandleAt(s', v); }
    forall h | Committed(s', h) ensures Committed(s, h) {}
  }

  lemma TeardownCalls(log: seq<Event>, td: Teardown)
    ensures forall e, h :: e in log + TeardownEvents(td) && Calls(e, h) ==> e in log || td.handle == Some(h)
  {
  }

  /** A teardown calls stop() before destroy(). */
  lemma TeardownLog(log: seq<Event>, td: Teardown)
    requires LogOk(log) && (td.handle.Some? ==> Unended(log, td.handle.value))
    ensures LogOk(log + TeardownEvents(td))
  {
    var first := if td.stop && td.drv.stop then log + [Stopped(td.handle)] else log;
    if td.stop && td.drv.stop { LogMore(log, Stopped(td.handle)); }
    if td.drv.destroy && td.handle.Some? {
      LogMore(first, Destroyed(td.handle.value));
      assert log + TeardownEvents(td) == first + [Destroyed(td.handle.value)];
    } else {
      assert log + TeardownEvents(td) == first;
    }
  }

  /** A fresh handle is attached where there was none. */
  lemma FreshHandles(s: State, s': State, a: Addr)
    requires HandlesOk(s) && LiveOk(s) && s'.threads == s.threads && s'.log == s.log
    requires s'.nextHandle == s.nextHandle + 1
    requires HandleAt(s, Attached(a)).None? && HandleAt(s', Attached(a)) in {None, Some(s.nextHandle)}
    requires forall w :: w != Attached(a) && HandleAt(s', w).Some? ==> HandleAt(s', w) == HandleAt(s, w)
    ensures HandlesOk(s') && LiveOk(s')
  {
    var n := s.nextHandle;
    assert Calls(Stopped(Some(n)), n) && Calls(Destroyed(n), n);
    forall h | h < n && Committed(s', h) ensures Committed(s, h) {}
  }

  // ---- Every step ---------------------------------------------------------

  lemma AcquireHandles(s: State, t: Tid, id: Id)
    requires Inv(s) && Enabled(s, Acquire(t, id))
    ensures HandleInv(Apply(s, Acquire(t, id)))
  {
    ListLinked(s.sh.heap, s.sh.list);
    var s' := Apply(s, Acquire(t, id));
    var found := FindBot(s.sh.heap, s.sh.list, id);
    if found.Some? { AcquiredHandles(s, s', t, found.value); }
  }

  lemma AcquiredHandles(s: State, s': State, t: Tid, a: Addr)
    requires HandlesOk(s) && LiveOk(s) && a in s.sh.heap && s.sh.heap[a].driver.Some? && t !in s.threads
    requires s'.sh == AcquireSection(s.sh, a) && s'.pending == s.pending
    requires s'.log == s.log && s'.nextHandle == s.nextHandle
    requires s'.threads == s.threads[t := Delivery(a, s.sh.heap[a].id, s.sh.heap[a].driver.value, s.sh.heap[a].handle, Inside)]
    ensures HandlesOk(s') && LiveOk(s')
  {
    assert Fewer(s, s') && Fewer(s', s);
    forall u | u in s'.threads && s'.threads[u].handle.Some? ensures LiveThread(s', s'.threads[u]) {
      if u in s.threads {
        assert LiveThread(s, s.threads[u]);
      } else {
        assert HandleAt(s, Attached(a)) == s'.threads[t].handle;
      }
    }
  }

  lemma ClaimHandles(s: State, t: Tid)
    requires Inv(s) && Enabled(s, Claim(t))
    ensures HandleInv(Apply(s, Claim(t)))
  {
    var a := s.threads[t].at;
    if s.sh.heap[a].refs == 1 && s.sh.heap[a].dyingDrv.Some? {
      LastHolder(s.sh.heap, s.threads, s.frees, t);
      ClaimedHandles(s, t);
    } else {
      UnclaimedHandles(s, t);
    }
  }

  lemma LastHolder(heap: map<Addr, Inst>, threads: map<Tid, Delivery>, frees: set<Addr>, t: Tid)
    requires RefsOk(heap, threads, frees) && t in threads && threads[t].pc.Inside?
    requires threads[t].at in heap && heap[threads[t].at].refs == 1
    ensures forall u :: u in threads && threads[u].at == threads[t].at && !threads[u].pc.Freeing? ==> u == t
  {
    var a := threads[t].at;
    assert InstOk(heap[a], threads, frees, a) && t in Holders(threads, a);
    OnlyMember(Holders(threads, a), t);
    forall u | u in threads && threads[u].at == a && !threads[u].pc.Freeing? ensures u == t {
      assert u in Holders(threads, a);
    }
  }

  lemma UnclaimedHandles(s: State, t: Tid)
    requires HandleInv(s) && Enabled(s, Claim(t)) && s.threads[t].at in s.sh.heap
    requires var a := s.threads[t].at; s.sh.heap[a].refs != 1 || s.sh.heap[a].dyingDrv.None?
    ensures HandleInv(Apply(s, Claim(t)))
  {
    Unmoved(s, Apply(s, Claim(t)));
  }

  lemma ClaimedHandles(s: State, t: Tid)
    requires HandleInv(s) && Enabled(s, Claim(t)) && s.threads[t].at in s.sh.heap
    requires var a := s.threads[t].at; s.sh.heap[a].refs == 1 && s.sh.heap[a].dyingDrv.Some?
    requires forall u :: u in s.threads && u != t && s.threads[u].pc.Inside? ==> s.threads[u].at != s.threads[t].at
    ensures HandleInv(Apply(s, Claim(t)))
  {
    var s' := Apply(s, Claim(t));
    var a := s.threads[t].at;
    MovedKeeps(s, s', Dying(a), Owed(t));
    LiveAfterMove(s, s', Dying(a), Owed(t), a);
  }

  lemma DetachHandles(s: State, a: Addr, stop: bool, next: Life)
    requires Inv(s) && a in s.sh.list && s.pending.None?
    ensures HandleInv(DetachAt(s, a, stop, next))
  {
    if s.sh.heap[a].driver.None? {
      Unmoved(s, DetachAt(s, a, stop, next));
    } else if s.sh.heap[a].refs == 0 {
      assert InstOk(s.sh.heap[a], s.threads, s.frees, a);
      forall u | u in s.threads && s.threads[u].pc.Inside? ensures s.threads[u].at != a {
        assert u !in Holders(s.threads, a);
      }
      HandedOut(s, a, stop, next);
    } else {
      ParkedHandles(s, a, stop, next);
    }
  }

  lemma HandedOut(s: State, a: Addr, stop: bool, next: Life)
    requires HandleInv(s) && s.pending.None?
    requires a in s.sh.heap && s.sh.heap[a].driver.Some? && s.sh.heap[a].refs == 0
    requires forall u :: u in s.threads && s.threads[u].pc.Inside? ==> s.threads[u].at != a
    ensures HandleInv(DetachAt(s, a, stop, next))
  {
    var s' := DetachAt(s, a, stop, next);
    MovedKeeps(s, s', Attached(a), OwedByLife);
    LiveAfterMove(s, s', Attached(a), OwedByLife, a);
  }

  lemma ParkedHandles(s: State, a: Addr, stop: bool, next: Life)
    requires HandleInv(s) && s.pending.None?
    requires a in s.sh.heap && s.sh.heap[a].driver.Some? && s.sh.heap[a].refs != 0
    ensures HandleInv(DetachAt(s, a, stop, next))
  {
    var s' := DetachAt(s, a, stop, next);
    MovedKeeps(s, s', Attached(a), Dying(a));
    LiveAfterMove(s, s', Attached(a), Dying(a), a);
  }

  /** A step that leaves both handle fields of every instance alone. */
  lemma PlainHandles(s: State, s': State)
    requires HandleInv(s) && NoNewcomers(s.threads, s'.threads)
    requires forall t :: t in s'.threads && s'.threads[t].pc.Leaving? ==> s'.threads[t].pc == s.threads[t].pc
    requires s'.pending == s.pending && s'.nextHandle == s.nextHandle
    requires forall a :: a in s'.sh.heap ==> a in s.sh.heap && SameHandles(s.sh.heap[a], s'.sh.heap[a])
    requires Harmless(s, s'.log)
    ensures HandleInv(s')
  {
    Unmoved(s, s');
    HarmlessLog(s, s'.log);
  }

  ghost predicate SameHandles(i: Inst, i': Inst) {
    && i'.driver == i.driver && i'.handle == i.handle
    && i'.dyingDrv == i.dyingDrv && i'.dyingHandle == i.dyingHandle
  }

  lemma CreateHandles(s: State, a: Addr, drv: Driver)
    requires Inv(s) && Enabled(s, Create(a, drv))
    ensures HandleInv(Apply(s, Create(a, drv)))
  {
    FreshHandles(s, Apply(s, Create(a, drv)), a);
  }

  lemma ResumeHandles(s: State, a: Addr, drv: Driver)
    requires Inv(s) && Enabled(s, Resume(a, drv))
    ensures HandleInv(Apply(s, Resume(a, drv)))
  {
    FreshHandles(s, Apply(s, Resume(a, drv)), a);
  }

  lemma DeliveryHandles(s: State, step: Step)
    requires Inv(s) && Enabled(s, step)
    requires step.Acquire? || step.Claim? || step.RunOwed? || step.Drop? || step.Free?
    ensures HandleInv(Apply(s, step))
  {
    match step
    case Acquire(t, id) => AcquireHandles(s, t, id);
    case Claim(t) => ClaimHandles(s, t);
    case RunOwed(t) => RunOwedHandles(s, t);
    case Drop(t) => DropHandles(s, t);
    case Free(t) => FreeHandles(s, t);
  }

  lemma RunOwedHandles(s: State, t: Tid)
    requires Inv(s) && Enabled(s, RunOwed(t))
    ensures HandleInv(Apply(s, RunOwed(t)))
  {
    TeardownHandles(s, Apply(s, RunOwed(t)), Owed(t), s.threads[t].pc.owed.value);
  }

  lemma FreeHandles(s: State, t: Tid)
    requires Inv(s) && Enabled(s, Free(t))
    ensures HandleInv(Apply(s, Free(t)))
  {
    PlainHandles(s, Apply(s, Free(t)));
  }

  lemma DropHandles(s: State, t: Tid)
    requires HandleInv(s) && Enabled(s, Drop(t)) && s.threads[t].at in s.sh.heap
    ensures HandleInv(Apply(s, Drop(t)))
  {
    PlainHandles(s, Apply(s, Drop(t)));
  }

  lemma SectionHandles(s: State, step: Step)
    requires HandleInv(s) && Enabled(s, step)
    requires step.Suspend? || step.DestroyUnlink? || (step.SetRunning? && step.on)
    ensures HandleInv(Apply(s, step))
  {
    PlainHandles(s, Apply(s, step));
  }

  lemma HaltHandles(s: State, a: Addr, next: Life)
    requires HandleInv(s) && a in s.sh.heap
    ensures HandleInv(HaltAt(s, a, next))
  {
    var s' := HaltAt(s, a, next);
    assert HandleAt(s, Attached(a)) == s.sh.heap[a].handle;
    assert s'.log == s.log || s'.log == s.log + [Halted(HandleAt(s, Attached(a)))];
    PlainHandles(s, s');
  }

  lemma StepHandles(s: State, step: Step)
    requires Inv(s) && Enabled(s, step)
    ensures HandleInv(Apply(s, step))
  {
    var s' := Apply(s, step);
    match step
    case LifeTeardown => TeardownHandles(s, s', OwedByLife, s.pending.value);
    case Create(a, drv) => CreateHandles(s, a, drv);
    case Resume(a, drv) => ResumeHandles(s, a, drv);
    case DetachNext =>
      if s.life.rest == [] { PlainHandles(s, s'); }
      else { DetachHandles(s, s.life.rest[0], s.life.stops[0], s'.life); }
    case DestroyDetach => DetachHandles(s, s.life.a, false, s'.life);
    case DestroyFree(a) => PlainHandles(s, s');
    case Acquire(_, _) => DeliveryHandles(s, step);
    case Claim(_) => DeliveryHandles(s, step);
    case RunOwed(_) => DeliveryHandles(s, step);
    case Drop(_) => DeliveryHandles(s, step);
    case Free(_) => DeliveryHandles(s, step);
    case Destroy(a) => HaltHandles(s, a, Destroying(a));
    case SetRunning(a, on) => if on { SectionHandles(s, step); } else { HaltHandles(s, a, s.life); }
    case _ => SectionHandles(s, step);
  }
}
