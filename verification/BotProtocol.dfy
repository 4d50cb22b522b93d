/**
 * Every interleaving of the deliveries and the lifecycle operations of
 * core/bot.c. A step is one critical section, or one of the pieces of work
 * done between two of them with no lock held: running a teardown, freeing.
 */
module BotProtocol {
  import opened Options
  import opened Seqs
  import opened BotRegistry

  datatype Tid = Tid(n: int)

  const SUSPEND_MAX: nat := 64

  /** Where a delivery stands between bot_driver_acquire and leaving bot_release. */
  datatype Pc =
    | Inside                                  // holds (driver, handle), not yet in bot_release
    | Leaving(owed: Option<Teardown>)         // past the claim section, before the drop section
    | Freeing                                 // past the drop section, owes mem_free

  /** What bot_driver_acquire handed out, and how far the delivery has come since. */
  datatype Delivery = Delivery(at: Addr, id: Id, drv: Driver, handle: Option<Handle>, pc: Pc)

  /** The lifecycle thread holding bot_life_mutex, between its critical sections. */
  datatype Life =
    | Idle
    | Suspending(rest: seq<Addr>, stops: seq<bool>)
    | Destroying(a: Addr)
    | Unlinking(a: Addr)

  /** Calls into a driver: stop() of a running bot, stop() and destroy() of a teardown; and mem_free. */
  datatype Event = Halted(h: Option<Handle>) | Stopped(h: Option<Handle>) | Destroyed(handle: Handle) | Freed(id: Id)

  datatype State = State(
    sh: Shared,
    threads: map<Tid, Delivery>,
    life: Life,
    pending: Option<Teardown>,     // teardown the detaching thread must run itself
    frees: set<Addr>,              // frees bot_destroy kept for itself
    log: seq<Event>,
    nextId: Id,
    nextHandle: Handle,
    fault: bool)                   // a freed instance was touched

  datatype Step =
    | Acquire(t: Tid, id: Id)
    | Claim(t: Tid)
    | RunOwed(t: Tid)
    | Drop(t: Tid)
    | Free(t: Tid)
    | Create(a: Addr, drv: Driver)
    | SetRunning(a: Addr, on: bool)
    | Suspend(name: string)
    | DetachNext
    | LifeTeardown
    | Resume(a: Addr, drv: Driver)
    | Destroy(a: Addr)
    | DestroyDetach
    | DestroyUnlink
    | DestroyFree(a: Addr)

  /** bot_driver_teardown: stop() when asked, then destroy() when there is a handle. */
  function TeardownEvents(td: Teardown): seq<Event> {
    (if td.stop && td.drv.stop then [Stopped(td.handle)] else []) +
    (if td.drv.destroy && td.handle.Some? then [Destroyed(td.handle.value)] else [])
  }

  /** bot_stop and bot_destroy: stop() on a running bot whose driver is attached and has one. */
  function HaltEvents(i: Inst): seq<Event> {
    if i.running && i.driver.Some? && i.driver.value.stop then [Halted(i.handle)] else []
  }

  predicate LifeFree(s: State) { s.life.Idle? && s.pending.None? }

  predicate Enabled(s: State, step: Step) {
    match step
    case Acquire(t, _) => t !in s.threads
    case Claim(t) => t in s.threads && s.threads[t].pc.Inside?
    case RunOwed(t) => t in s.threads && s.threads[t].pc.Leaving? && s.threads[t].pc.owed.Some?
    case Drop(t) => t in s.threads && s.threads[t].pc == Leaving(None)
    case Free(t) => t in s.threads && s.threads[t].pc.Freeing?
    case Create(a, _) => LifeFree(s) && a !in s.sh.heap
    case SetRunning(a, _) => LifeFree(s) && a in s.sh.list
    case Suspend(_) => LifeFree(s)
    case DetachNext => s.pending.None? && s.life.Suspending?
    case LifeTeardown => s.pending.Some?
    case Resume(a, drv) => LifeFree(s) && a in s.sh.list && (a in s.sh.heap ==> s.sh.heap[a].suspended == Some(drv.name))
    case Destroy(a) => LifeFree(s) && a in s.sh.list
    case DestroyDetach => s.pending.None? && s.life.Destroying?
    case DestroyUnlink => s.pending.None? && s.life.Unlinking?
    case DestroyFree(a) => a in s.frees
  }

  /** A handle made by create(): fresh, or absent when the driver has no create(). */
  function NewHandle(s: State, drv: Driver): Option<Handle> {
    if drv.create then Some(s.nextHandle) else None
  }

  function Fault(s: State): State { s.(fault := true) }

  function DeliveryStep(s: State, step: Step): State
    requires Enabled(s, step) && (step.Claim? || step.RunOwed? || step.Drop? || step.Free?)
  {
    var d := s.threads[step.t];
    if d.at !in s.sh.heap then Fault(s)
    else if step.RunOwed? then
      s.(threads := s.threads[step.t := d.(pc := Leaving(None))],
         log := s.log + TeardownEvents(d.pc.owed.value))
    else if step.Claim? then
      var (sh, owed) := ClaimSection(s.sh, d.at);
      s.(sh := sh, threads := s.threads[step.t := d.(pc := Leaving(owed))])
    else if step.Drop? then
      var (sh, free) := DropSection(s.sh, d.at);
      s.(sh := sh, threads := if free then s.threads[step.t := d.(pc := Freeing)] else s.threads - {step.t})
    else
      s.(sh := s.sh.(heap := s.sh.heap - {d.at}), threads := s.threads - {step.t},
         log := s.log + [Freed(s.sh.heap[d.at].id)])
  }

  function DetachAt(s: State, a: Addr, stop: bool, next: Life): State {
    if a !in s.sh.heap then Fault(s)
    else
      var (sh, now) := DetachSection(s.sh, a, stop);
      s.(sh := sh, pending := now, life := next)
  }

  /** bot_start: only a bot that is not running and has its driver. */
  function StartAt(s: State, a: Addr): State {
    if a !in s.sh.heap then Fault(s)
    else if s.sh.heap[a].running || s.sh.heap[a].driver.None? then s
    else s.(sh := s.sh.(heap := s.sh.heap[a := s.sh.heap[a].(running := true)]))
  }

  function HaltAt(s: State, a: Addr, next: Life): State {
    if a !in s.sh.heap then Fault(s)
    else
      s.(sh := s.sh.(heap := s.sh.heap[a := s.sh.heap[a].(running := false)]),
         life := next, log := s.log + HaltEvents(s.sh.heap[a]))
  }

  function SuspendStep(s: State, name: string): State {
    if !Linked(s.sh.heap, s.sh.list) then Fault(s)
    else
      var det := Bound(s.sh.heap, s.sh.list, name, SUSPEND_MAX);
      BoundInList(s.sh.heap, s.sh.list, name, SUSPEND_MAX);
      var stops := seq(|det|, i requires 0 <= i < |det| => s.sh.heap[det[i]].running);
      s.(sh := SuspendSection(s.sh, det, name), life := Suspending(det, stops))
  }

  function Apply(s: State, step: Step): State
    requires Enabled(s, step)
  {
    match step
    case Acquire(t, id) =>
      if !Linked(s.sh.heap, s.sh.list) then Fault(s)
      else
        var found := FindBot(s.sh.heap, s.sh.list, id);
        if found.None? then s
        else
          var i := s.sh.heap[found.value];
          s.(sh := AcquireSection(s.sh, found.value),
             threads := s.threads[t := Delivery(found.value, id, i.driver.value, i.handle, Inside)])
    case Create(a, drv) =>
      var h := NewHandle(s, drv);
      s.(sh := s.sh.(
           heap := s.sh.heap[a := Inst(s.nextId + 1, Some(drv), h, false, None, 0, None, None, false, false)],
           list := [a] + s.sh.list),
         nextId := s.nextId + 1,
         nextHandle := s.nextHandle + 1)
    case SetRunning(a, on) => if on then StartAt(s, a) else HaltAt(s, a, s.life)
    case Suspend(name) => SuspendStep(s, name)
    case DetachNext =>
      if s.life.rest == [] || s.life.stops == [] then s.(life := Idle)
      else DetachAt(s, s.life.rest[0], s.life.stops[0], Suspending(s.life.rest[1..], s.life.stops[1..]))
    case LifeTeardown => s.(pending := None, log := s.log + TeardownEvents(s.pending.value))
    case Resume(a, drv) =>
      if a !in s.sh.heap then Fault(s)
      else s.(sh := ResumeSection(s.sh, a, drv, NewHandle(s, drv)), nextHandle := s.nextHandle + 1)
    case Destroy(a) => HaltAt(s, a, Destroying(a))
    case DestroyDetach => DetachAt(s, s.life.a, false, Unlinking(s.life.a))
    case DestroyUnlink =>
      var a := s.life.a;
      if a !in s.sh.heap then Fault(s)
      else
        var (sh, now) := UnlinkSection(s.sh, a);
        s.(sh := sh, life := Idle, frees := if now then s.frees + {a} else s.frees)
    case DestroyFree(a) =>
      if a !in s.sh.heap then Fault(s)
      else
        s.(sh := s.sh.(heap := s.sh.heap - {a}), frees := s.frees - {a},
           log := s.log + [Freed(s.sh.heap[a].id)])
    case _ => DeliveryStep(s, step)
  }

  lemma {:induction false} BoundInList(heap: map<Addr, Inst>, list: seq<Addr>, name: string, cap: nat)
    requires Linked(heap, list)
    ensures forall a <- Bound(heap, list, name, cap) :: a in list
    ensures Linked(heap, Bound(heap, list, name, cap))
    ensures NoDup(list) ==> NoDup(Bound(heap, list, name, cap))
  {
    if list != [] && cap > 0 {
      assert list == [list[0]] + list[1..];
      NoDupSplit([list[0]], list[1..]);
      BoundInList(heap, list[1..], name, cap - 1);
      BoundInList(heap, list[1..], name, cap);
      NoDupSplit([list[0]], Bound(heap, list[1..], name, cap - 1));
    }
  }

  const Empty := State(Shared(map[], [], 0), map[], Idle, None, {}, [], 0, 0, false)

  ghost predicate Next(s: State, s': State) {
    exists step :: Enabled(s, step) && s' == Apply(s, step)
  }

  /** A run of the subsystem from an empty registry. */
  ghost predicate Run(tr: seq<State>) {
    && |tr| > 0 && tr[0] == Empty
    && forall i :: 0 <= i < |tr| - 1 ==> Next(tr[i], tr[i + 1])
  }
}
