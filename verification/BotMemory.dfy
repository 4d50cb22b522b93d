/**
 * What every step of the bot protocol keeps about memory: the list, the
 * reference counts, and which single party owes the free of a dead instance.
 */
module BotMemory {
  import opened Options
  import opened Seqs
  import opened BotRegistry
  import opened BotProtocol

  ghost predicate ListOk(sh: Shared) {
    && NoDup(sh.list)
    && (forall a :: a in sh.list <==> a in sh.heap && !sh.heap[a].doomed)
  }

  ghost predicate IdsOk(heap: map<Addr, Inst>, log: seq<Event>, nextId: Id) {
    && (forall a :: a in heap ==> heap[a].id <= nextId && Freed(heap[a].id) !in log)
    && (forall a, b :: a in heap && b in heap && heap[a].id == heap[b].id ==> a == b)
    && (forall n :: Freed(n) in log ==> n <= nextId)
  }

  /** A delivery's instance is in memory, and is the one it acquired. */
  ghost predicate ThreadsOk(heap: map<Addr, Inst>, threads: map<Tid, Delivery>) {
    forall t :: t in threads ==> threads[t].at in heap && heap[threads[t].at].id == threads[t].id
  }

  ghost function Holders(threads: map<Tid, Delivery>, a: Addr): set<Tid> {
    set t | t in threads && threads[t].at == a && !threads[t].pc.Freeing?
  }

  ghost function Freers(threads: map<Tid, Delivery>, a: Addr): set<Tid> {
    set t | t in threads && threads[t].at == a && threads[t].pc.Freeing?
  }

  /** The reference count is the number of holders; a dead instance has one party to free it. */
  ghost predicate InstOk(i: Inst, threads: map<Tid, Delivery>, frees: set<Addr>, a: Addr) {
    && i.refs == |Holders(threads, a)|
    && (if i.doomed && i.refs == 0
        then (if a in frees then Freers(threads, a) == {} else |Freers(threads, a)| == 1)
        else a !in frees && Freers(threads, a) == {})
  }

  ghost predicate RefsOk(heap: map<Addr, Inst>, threads: map<Tid, Delivery>, frees: set<Addr>) {
    && (forall a :: a in frees ==> a in heap)
    && (forall a :: a in heap ==> InstOk(heap[a], threads, frees, a))
  }

  ghost function Deferred(heap: map<Addr, Inst>): set<Addr> {
    set a | a in heap && heap[a].doomed && heap[a].refs > 0
  }

  ghost predicate LifeOk(sh: Shared, life: Life) {
    && (life.Suspending? ==>
          |life.rest| == |life.stops| && NoDup(life.rest) && forall a :: a in life.rest ==> a in sh.list)
    && (life.Destroying? || life.Unlinking? ==> life.a in sh.list)
    && (forall a :: a in sh.heap && sh.heap[a].suspended.Some? && sh.heap[a].driver.Some? ==>
          life.Suspending? && a in life.rest)
    && (life.Unlinking? && life.a in sh.heap ==> sh.heap[life.a].driver.None?)
  }

  ghost predicate MemInv(s: State) {
    && !s.fault
    && ListOk(s.sh) && IdsOk(s.sh.heap, s.log, s.nextId) && ThreadsOk(s.sh.heap, s.threads)
    && RefsOk(s.sh.heap, s.threads, s.frees) && LifeOk(s.sh, s.life)
    && s.sh.deferred == |Deferred(s.sh.heap)|
  }

  lemma HoldersSet(threads: map<Tid, Delivery>, t: Tid, d: Delivery, a: Addr)
    ensures Holders(threads[t := d], a) ==
            if d.at == a && !d.pc.Freeing? then Holders(threads, a) + {t} else Holders(threads, a) - {t}
    ensures Freers(threads[t := d], a) ==
            if d.at == a && d.pc.Freeing? then Freers(threads, a) + {t} else Freers(threads, a) - {t}
  {
  }

  lemma HoldersDel(threads: map<Tid, Delivery>, t: Tid, a: Addr)
    ensures Holders(threads - {t}, a) == Holders(threads, a) - {t}
    ensures Freers(threads - {t}, a) == Freers(threads, a) - {t}
  {
  }

  /** Rewriting fields of one instance that the list and the ids do not look at. */
  lemma Rewrite(s: State, a: Addr, i: Inst)
    requires ListOk(s.sh) && IdsOk(s.sh.heap, s.log, s.nextId) && ThreadsOk(s.sh.heap, s.threads)
    requires a in s.sh.heap && i.id == s.sh.heap[a].id && i.doomed == s.sh.heap[a].doomed
    ensures var heap := s.sh.heap[a := i];
      ListOk(s.sh.(heap := heap)) && IdsOk(heap, s.log, s.nextId) && ThreadsOk(heap, s.threads)
  {
  }

  lemma LifeKept(sh: Shared, life: Life, a: Addr, i: Inst, deferred: int)
    requires LifeOk(sh, life) && a in sh.heap
    requires i.suspended == sh.heap[a].suspended && i.driver == sh.heap[a].driver
    ensures LifeOk(sh.(heap := sh.heap[a := i], deferred := deferred), life)
  {
  }

  lemma DeferredKept(heap: map<Addr, Inst>, a: Addr, i: Inst)
    requires a in heap ==> (heap[a].doomed && heap[a].refs > 0 <==> i.doomed && i.refs > 0)
    requires a !in heap ==> !i.doomed
    ensures Deferred(heap[a := i]) == Deferred(heap)
  {
  }

  lemma AcquireMem(s: State, t: Tid, id: Id)
    requires MemInv(s) && Enabled(s, Acquire(t, id))
    ensures MemInv(Apply(s, Acquire(t, id)))
  {
    ListLinked(s.sh.heap, s.sh.list);
    var found := FindBot(s.sh.heap, s.sh.list, id);
    if found.Some? {
      var a := found.value;
      AcquireAt(s, Apply(s, Acquire(t, id)), a, t, Delivery(a, id, s.sh.heap[a].driver.value, s.sh.heap[a].handle, Inside));
    }
  }

  /** `u` is `s` with one more delivery at the linked instance `a`. */
  lemma AcquireAt(s: State, u: State, a: Addr, t: Tid, d: Delivery)
    requires MemInv(s) && t !in s.threads && a in s.sh.heap && !s.sh.heap[a].doomed
    requires d.at == a && d.id == s.sh.heap[a].id && d.pc.Inside?
    requires u == s.(sh := s.sh.(heap := s.sh.heap[a := s.sh.heap[a].(refs := s.sh.heap[a].refs + 1)]),
                     threads := s.threads[t := d])
    ensures MemInv(u)
  {
    var i := s.sh.heap[a].(refs := s.sh.heap[a].refs + 1);
    Rewrite(s, a, i);
    DeferredKept(s.sh.heap, a, i);
    AcquireRefs(s.sh.heap, s.threads, s.frees, a, t, d);
    AcquireThreads(s.sh.heap[a := i], s.threads, t, d);
    LifeKept(s.sh, s.life, a, i, s.sh.deferred);
  }

  lemma AcquireThreads(heap: map<Addr, Inst>, threads: map<Tid, Delivery>, t: Tid, d: Delivery)
    requires ThreadsOk(heap, threads) && d.at in heap && heap[d.at].id == d.id && !d.pc.Freeing?
    ensures ThreadsOk(heap, threads[t := d])
  {
  }

  lemma AcquireRefs(heap: map<Addr, Inst>, threads: map<Tid, Delivery>, frees: set<Addr>, a: Addr, t: Tid, d: Delivery)
    requires RefsOk(heap, threads, frees) && t !in threads && a in heap && !heap[a].doomed
    requires d.at == a && d.pc.Inside?
    ensures RefsOk(heap[a := heap[a].(refs := heap[a].refs + 1)], threads[t := d], frees)
  {
    forall b | b in heap ensures InstOk(heap[b].(refs := heap[b].refs + if b == a then 1 else 0), threads[t := d], frees, b) {
      assert InstOk(heap[b], threads, frees, b);
      HoldersSet(threads, t, d, b);
      assert t !in Holders(threads, b) && t !in Freers(threads, b);
    }
  }

  /** A delivery moves from one point outside Freeing to another: nobody's count changes. */
  lemma PcRefs(heap: map<Addr, Inst>, threads: map<Tid, Delivery>, frees: set<Addr>, t: Tid, pc: Pc)
    requires RefsOk(heap, threads, frees) && t in threads && !threads[t].pc.Freeing? && !pc.Freeing?
    ensures RefsOk(heap, threads[t := threads[t].(pc := pc)], frees)
    ensures ThreadsOk(heap, threads) ==> ThreadsOk(heap, threads[t := threads[t].(pc := pc)])
  {
    forall b | b in heap ensures InstOk(heap[b], threads[t := threads[t].(pc := pc)], frees, b) {
      assert InstOk(heap[b], threads, frees, b);
      HoldersSet(threads, t, threads[t].(pc := pc), b);
      assert Holders(threads[t := threads[t].(pc := pc)], b) == Holders(threads, b);
    }
  }

  lemma RewriteRefs(heap: map<Addr, Inst>, threads: map<Tid, Delivery>, frees: set<Addr>, a: Addr, i: Inst)
    requires RefsOk(heap, threads, frees) && a in heap && i.refs == heap[a].refs && i.doomed == heap[a].doomed
    ensures RefsOk(heap[a := i], threads, frees)
  {
  }

  lemma ClaimMem(s: State, t: Tid)
    requires MemInv(s) && Enabled(s, Claim(t))
    ensures MemInv(Apply(s, Claim(t)))
  {
    var a := s.threads[t].at;
    var (sh, owed) := ClaimSection(s.sh, a);
    var i := sh.heap[a];
    assert sh == s.sh.(heap := s.sh.heap[a := i]);
    LifeKept(s.sh, s.life, a, i, s.sh.deferred);
    LifeRewrite(s, a, i, s.life);
    PcRefs(sh.heap, s.threads, s.frees, t, Leaving(owed));
  }

  lemma RunOwedMem(s: State, t: Tid)
    requires MemInv(s) && Enabled(s, RunOwed(t))
    ensures MemInv(Apply(s, RunOwed(t)))
  {
    PcRefs(s.sh.heap, s.threads, s.frees, t, Leaving(None));
    TeardownIds(s, s.threads[t].pc.owed.value);
  }

  lemma TeardownIds(s: State, td: Teardown)
    requires IdsOk(s.sh.heap, s.log, s.nextId)
    ensures IdsOk(s.sh.heap, s.log + TeardownEvents(td), s.nextId)
  {
    assert forall n :: Freed(n) !in TeardownEvents(td);
  }

  lemma DropMem(s: State, t: Tid)
    requires MemInv(s) && Enabled(s, Drop(t))
    ensures MemInv(Apply(s, Drop(t)))
  {
    var a := s.threads[t].at;
    var (sh, free) := DropSection(s.sh, a);
    assert InstOk(s.sh.heap[a], s.threads, s.frees, a) && t in Holders(s.threads, a);
    Rewrite(s, a, sh.heap[a]);
    LifeKept(s.sh, s.life, a, sh.heap[a], sh.deferred);
    DropRefs(s.sh.heap, s.threads, s.frees, t);
    DropDeferred(s.sh, a);
  }

  lemma DropDeferred(sh: Shared, a: Addr)
    requires a in sh.heap && sh.heap[a].refs > 0 && sh.deferred == |Deferred(sh.heap)|
    ensures var sh' := DropSection(sh, a).0; sh'.deferred == |Deferred(sh'.heap)|
  {
    var sh' := DropSection(sh, a).0;
    if sh.heap[a].doomed && sh.heap[a].refs == 1 {
      assert Deferred(sh'.heap) == Deferred(sh.heap) - {a};
    } else {
      DeferredKept(sh.heap, a, sh'.heap[a]);
    }
  }

  lemma DropRefs(heap: map<Addr, Inst>, threads: map<Tid, Delivery>, frees: set<Addr>, t: Tid)
    requires RefsOk(heap, threads, frees) && t in threads && threads[t].pc.Leaving? && threads[t].at in heap
    ensures var a := threads[t].at; var i := heap[a].(refs := heap[a].refs - 1);
      RefsOk(heap[a := i],
             if i.refs == 0 && i.doomed then threads[t := threads[t].(pc := Freeing)] else threads - {t}, frees)
  {
    var a := threads[t].at;
    var i := heap[a].(refs := heap[a].refs - 1);
    var threads' := if i.refs == 0 && i.doomed then threads[t := threads[t].(pc := Freeing)] else threads - {t};
    forall b | b in heap ensures InstOk(heap[a := i][b], threads', frees, b) {
      assert InstOk(heap[b], threads, frees, b);
      DropOne(heap[b], threads, threads', frees, t, b);
    }
  }

  /** One instance, as the delivery `t` drops its reference to it or to another. */
  lemma DropOne(i: Inst, threads: map<Tid, Delivery>, threads': map<Tid, Delivery>, frees: set<Addr>, t: Tid, b: Addr)
    requires InstOk(i, threads, frees, b) && t in threads && threads[t].pc.Leaving?
    requires threads' == (if threads'.Keys == threads.Keys then threads[t := threads[t].(pc := Freeing)] else threads - {t})
    requires threads[t].at == b ==> (threads'.Keys == threads.Keys <==> i.refs == 1 && i.doomed)
    ensures InstOk(if threads[t].at == b then i.(refs := i.refs - 1) else i, threads', frees, b)
  {
    HoldersSet(threads, t, threads[t].(pc := Freeing), b);
    HoldersDel(threads, t, b);
    assert t !in Freers(threads, b);
    assert threads[t].at == b ==> t in Holders(threads, b);
  }

  /** Taking a dead instance out of memory. */
  lemma FreedMem(s: State, a: Addr)
    requires MemInv(s) && a in s.sh.heap && s.sh.heap[a].doomed && s.sh.heap[a].refs == 0
    ensures var heap := s.sh.heap - {a};
      && ListOk(s.sh.(heap := heap)) && LifeOk(s.sh.(heap := heap), s.life)
      && IdsOk(heap, s.log + [Freed(s.sh.heap[a].id)], s.nextId)
      && Deferred(heap) == Deferred(s.sh.heap)
  {
    var log := s.log + [Freed(s.sh.heap[a].id)];
    assert forall n :: Freed(n) in log <==> Freed(n) in s.log || n == s.sh.heap[a].id;
  }

  lemma FreeMem(s: State, t: Tid)
    requires MemInv(s) && Enabled(s, Free(t))
    ensures MemInv(Apply(s, Free(t)))
  {
    var a := s.threads[t].at;
    assert InstOk(s.sh.heap[a], s.threads, s.frees, a);
    assert t in Freers(s.threads, a);
    FreedMem(s, a);
    FreeRefs(s.sh.heap, s.threads, s.frees, t);
  }

  lemma FreeRefs(heap: map<Addr, Inst>, threads: map<Tid, Delivery>, frees: set<Addr>, t: Tid)
    requires RefsOk(heap, threads, frees) && ThreadsOk(heap, threads) && t in threads && threads[t].pc.Freeing?
    ensures RefsOk(heap - {threads[t].at}, threads - {t}, frees)
    ensures ThreadsOk(heap - {threads[t].at}, threads - {t})
  {
    var a := threads[t].at;
    FreerAlone(heap, threads, frees, t);
    forall b | b in heap && b != a ensures InstOk(heap[b], threads - {t}, frees, b) {
      assert InstOk(heap[b], threads, frees, b);
      HoldersDel(threads, t, b);
      assert t !in Holders(threads, b) && t !in Freers(threads, b);
    }
  }

  lemma FreerAlone(heap: map<Addr, Inst>, threads: map<Tid, Delivery>, frees: set<Addr>, t: Tid)
    requires RefsOk(heap, threads, frees) && t in threads && threads[t].pc.Freeing? && threads[t].at in heap
    ensures threads[t].at !in frees && forall u :: u in threads && u != t ==> threads[u].at != threads[t].at
  {
    var a := threads[t].at;
    assert InstOk(heap[a], threads, frees, a) && t in Freers(threads, a);
    OnlyMember(Freers(threads, a), t);
    forall u | u in threads && u != t ensures threads[u].at != a {
      assert u !in Holders(threads, a) && u !in Freers(threads, a);
    }
  }

  lemma OnlyMember<T>(x: set<T>, e: T)
    requires |x| == 1 && e in x
    ensures x == {e}
  {
    assert |x - {e}| == 0;
  }

  lemma DestroyFreeMem(s: State, a: Addr)
    requires MemInv(s) && Enabled(s, DestroyFree(a))
    ensures MemInv(Apply(s, DestroyFree(a)))
  {
    assert InstOk(s.sh.heap[a], s.threads, s.frees, a);
    FreedMem(s, a);
    assert Holders(s.threads, a) == {} && Freers(s.threads, a) == {};
    forall u | u in s.threads ensures s.threads[u].at != a {
      assert u !in Holders(s.threads, a) && u !in Freers(s.threads, a);
    }
    forall b | b in s.sh.heap && b != a ensures InstOk(s.sh.heap[b], s.threads, s.frees - {a}, b) {
      assert InstOk(s.sh.heap[b], s.threads, s.frees, b);
    }
  }

  lemma CreateMem(s: State, a: Addr, drv: Driver)
    requires MemInv(s) && Enabled(s, Create(a, drv))
    ensures MemInv(Apply(s, Create(a, drv)))
  {
    var s' := Apply(s, Create(a, drv));
    NoDupSplit([a], s.sh.list);
    DeferredKept(s.sh.heap, a, s'.sh.heap[a]);
    assert Holders(s.threads, a) == {} && Freers(s.threads, a) == {};
    forall b | b in s.sh.heap ensures InstOk(s.sh.heap[b], s.threads, s.frees, b) {}
  }

  /** One instance rewritten by a lifecycle section. */
  lemma LifeRewrite(s: State, a: Addr, i: Inst, life: Life)
    requires MemInv(s) && a in s.sh.heap
    requires i.id == s.sh.heap[a].id && i.doomed == s.sh.heap[a].doomed && i.refs == s.sh.heap[a].refs
    requires LifeOk(s.sh.(heap := s.sh.heap[a := i]), life)
    ensures MemInv(s.(sh := s.sh.(heap := s.sh.heap[a := i]), life := life))
  {
    Rewrite(s, a, i);
    RewriteRefs(s.sh.heap, s.threads, s.frees, a, i);
    DeferredKept(s.sh.heap, a, i);
  }

  lemma SuspendMem(s: State, name: string)
    requires MemInv(s) && Enabled(s, Suspend(name))
    ensures MemInv(Apply(s, Suspend(name)))
  {
    var s' := Apply(s, Suspend(name));
    ListLinked(s.sh.heap, s.sh.list);
    BoundInList(s.sh.heap, s.sh.list, name, SUSPEND_MAX);
    assert Deferred(s'.sh.heap) == Deferred(s.sh.heap);
    forall b | b in s.sh.heap ensures InstOk(s'.sh.heap[b], s.threads, s.frees, b) {
      assert InstOk(s.sh.heap[b], s.threads, s.frees, b);
    }
  }

  lemma DetachMem(s: State, a: Addr, stop: bool, next: Life)
    requires MemInv(s) && a in s.sh.list
    requires LifeOk(DetachSection(s.sh, a, stop).0, next)
    ensures MemInv(DetachAt(s, a, stop, next))
  {
    var sh := DetachSection(s.sh, a, stop).0;
    assert sh.heap == s.sh.heap[a := sh.heap[a]];
    LifeRewrite(s, a, sh.heap[a], next);
  }

  lemma DetachNextMem(s: State)
    requires MemInv(s) && Enabled(s, DetachNext)
    ensures MemInv(Apply(s, DetachNext))
  {
    var rest := s.life.rest;
    if rest != [] {
      assert rest == [rest[0]] + rest[1..];
      NoDupSplit([rest[0]], rest[1..]);
      DetachMem(s, rest[0], s.life.stops[0], Suspending(rest[1..], s.life.stops[1..]));
    }
  }

  lemma UnlinkMem(s: State)
    requires MemInv(s) && Enabled(s, DestroyUnlink)
    ensures MemInv(Apply(s, DestroyUnlink))
  {
    UnlinkRefs(s.sh.heap, s.threads, s.frees, s.life.a);
    UnlinkDeferred(s.sh, s.life.a);
    UnlinkList(s.sh, s.life);
    UnlinkIds(s.sh.heap, s.threads, s.log, s.nextId, s.life.a);
  }

  lemma UnlinkIds(heap: map<Addr, Inst>, threads: map<Tid, Delivery>, log: seq<Event>, nextId: Id, a: Addr)
    requires IdsOk(heap, log, nextId) && ThreadsOk(heap, threads) && a in heap
    ensures var heap' := heap[a := heap[a].(doomed := true)]; IdsOk(heap', log, nextId) && ThreadsOk(heap', threads)
  {
  }

  lemma UnlinkList(sh: Shared, life: Life)
    requires ListOk(sh) && LifeOk(sh, life) && life.Unlinking?
    ensures ListOk(UnlinkSection(sh, life.a).0) && LifeOk(UnlinkSection(sh, life.a).0, Idle)
  {
    RemoveMembers(sh.list, life.a);
  }

  lemma UnlinkDeferred(sh: Shared, a: Addr)
    requires a in sh.heap && !sh.heap[a].doomed && sh.heap[a].refs >= 0 && sh.deferred == |Deferred(sh.heap)|
    ensures var sh' := UnlinkSection(sh, a).0; sh'.deferred == |Deferred(sh'.heap)|
  {
    var sh' := UnlinkSection(sh, a).0;
    if sh.heap[a].refs == 0 {
      assert Deferred(sh'.heap) == Deferred(sh.heap);
    } else {
      assert Deferred(sh'.heap) == Deferred(sh.heap) + {a};
    }
  }

  lemma UnlinkRefs(heap: map<Addr, Inst>, threads: map<Tid, Delivery>, frees: set<Addr>, a: Addr)
    requires RefsOk(heap, threads, frees) && a in heap && !heap[a].doomed
    ensures heap[a].refs >= 0
    ensures RefsOk(heap[a := heap[a].(doomed := true)], threads, if heap[a].refs == 0 then frees + {a} else frees)
  {
    forall b | b in heap ensures InstOk(heap[b], threads, frees, b) {}
  }

  lemma StartMem(s: State, a: Addr)
    requires MemInv(s) && Enabled(s, SetRunning(a, true))
    ensures MemInv(Apply(s, SetRunning(a, true)))
  {
    LifeRewrite(s, a, s.sh.heap[a].(running := true), s.life);
  }

  lemma HaltMem(s: State, a: Addr, next: Life)
    requires MemInv(s) && LifeFree(s) && a in s.sh.list && (next == s.life || next == Destroying(a))
    ensures MemInv(HaltAt(s, a, next))
  {
    var i := s.sh.heap[a].(running := false);
    LifeRewrite(s, a, i, next);
    HaltIds(s.sh.heap[a := i], s.log, s.nextId, s.sh.heap[a]);
  }

  lemma HaltIds(heap: map<Addr, Inst>, log: seq<Event>, nextId: Id, i: Inst)
    requires IdsOk(heap, log, nextId)
    ensures IdsOk(heap, log + HaltEvents(i), nextId)
  {
    assert forall n :: Freed(n) !in HaltEvents(i);
  }

  lemma ResumeMem(s: State, a: Addr, drv: Driver)
    requires MemInv(s) && Enabled(s, Resume(a, drv))
    ensures MemInv(Apply(s, Resume(a, drv)))
  {
    LifeRewrite(s, a, Apply(s, Resume(a, drv)).sh.heap[a], s.life);
  }

  lemma LifeTeardownMem(s: State)
    requires MemInv(s) && Enabled(s, LifeTeardown)
    ensures MemInv(Apply(s, LifeTeardown))
  {
    TeardownIds(s, s.pending.value);
  }

  lemma StepMem(s: State, step: Step)
    requires MemInv(s) && Enabled(s, step)
    ensures MemInv(Apply(s, step))
  {
    match step
    case Acquire(t, id) => AcquireMem(s, t, id);
    case Claim(t) => ClaimMem(s, t);
    case RunOwed(t) => RunOwedMem(s, t);
    case Drop(t) => DropMem(s, t);
    case Free(t) => FreeMem(s, t);
    case Create(a, drv) => CreateMem(s, a, drv);
    case SetRunning(a, on) => if on { StartMem(s, a); } else { HaltMem(s, a, s.life); }
    case Suspend(name) => SuspendMem(s, name);
    case DetachNext => DetachNextMem(s);
    case Resume(a, drv) => ResumeMem(s, a, drv);
    case DestroyDetach => DetachMem(s, s.life.a, false, Unlinking(s.life.a));
    case DestroyUnlink => UnlinkMem(s);
    case DestroyFree(a) => DestroyFreeMem(s, a);
    case LifeTeardown => LifeTeardownMem(s);
    case Destroy(a) => HaltMem(s, a, Destroying(a));
  }
}
