/** The reference counts of method instances, over every run. */
module MethodTheorems {
  import opened Options
  import opened Seqs
  import opened MethodProtocol

  ghost function Deliveries(s: State, a: Addr): set<Tid> { set t | t in s.out && s.out[t].a == a }

  /** One for the registry until it gives it back, and one for each handout. */
  ghost function Owed(s: State, a: Addr): int {
    (if a in s.list || a in s.leaving then 1 else 0) + s.held[a] + s.caps[a] + |Deliveries(s, a)|
  }

  /** What holds of each address: exact references while allocated, no trace once freed. */
  ghost predicate AddrOk(s: State, a: Addr) {
    if a in s.heap then
      && s.heap[a].refs == Owed(s, a)
      && (a in s.doomed <==> s.heap[a].refs == 0)
      && (a in s.list ==> a !in s.leaving)
      && |s.heap[a].subs| <= MAX_SUBS
    else
      a !in s.doomed && Owed(s, a) == 0
  }

  /** A delivery calls what it copied, in order, and it copied the whole list. */
  ghost predicate DeliveryOk(d: Delivery) {
    d.plan == d.present && |d.called| <= |d.plan| && d.called == d.plan[..|d.called|]
  }

  ghost predicate SerialsOk(s: State) {
    && s.lastSerial >= 0
    && (forall a :: a in s.heap ==> 1 <= s.heap[a].serial <= s.lastSerial)
    && (forall a, b :: a in s.heap && b in s.heap && s.heap[a].serial == s.heap[b].serial ==> a == b)
    && (forall i :: 0 <= i < |s.freed| ==> 1 <= s.freed[i] <= s.lastSerial)
    && (forall i, j :: 0 <= i < j < |s.freed| ==> s.freed[i] != s.freed[j])
    && (forall a, i :: a in s.heap && 0 <= i < |s.freed| ==> s.heap[a].serial != s.freed[i])
  }

  ghost predicate Inv(s: State) {
    && !s.fault && NoDup(s.list)
    && (forall a {:trigger AddrOk(s, a)} :: AddrOk(s, a))
    && (forall t :: t in s.out ==> DeliveryOk(s.out[t]))
    && SerialsOk(s)
  }

  /** Nothing about `b` changed. */
  ghost predicate SameAt(s: State, t: State, b: Addr) {
    && (b in t.heap <==> b in s.heap) && (b in s.heap ==> t.heap[b] == s.heap[b])
    && (b in t.list <==> b in s.list) && (b in t.leaving <==> b in s.leaving)
    && t.held[b] == s.held[b] && t.caps[b] == s.caps[b] && Deliveries(t, b) == Deliveries(s, b)
    && (b in t.doomed <==> b in s.doomed)
  }

  /** A step that changes one address, and gets that one right, keeps them all. */
  lemma OnlyOne(s: State, t: State, a: Addr)
    requires forall b {:trigger AddrOk(s, b)} :: AddrOk(s, b)
    requires forall b {:trigger SameAt(s, t, b)} :: b != a ==> SameAt(s, t, b)
    requires AddrOk(t, a)
    ensures forall b {:trigger AddrOk(t, b)} :: AddrOk(t, b)
  {
    forall b ensures AddrOk(t, b) {
      if b != a { assert AddrOk(s, b) && SameAt(s, t, b); }
    }
  }

  /** A handout of any kind is counted. */
  lemma HandedOutIsOwed(s: State, a: Addr)
    requires HandedOut(s, a)
    ensures Owed(s, a) > 0
  {
    if s.held[a] == 0 && s.caps[a] == 0 {
      var t :| t in s.out && s.out[t].a == a;
      assert t in Deliveries(s, a);
    }
  }

  lemma ReferencedIsThere(s: State, a: Addr)
    requires AddrOk(s, a) && Owed(s, a) > 0
    ensures a in s.heap && s.heap[a].refs > 0 && a !in s.doomed
  {
  }

  // The sections

  lemma DropKeeps(s: State, mid: State, a: Addr)
    requires forall b {:trigger AddrOk(s, b)} :: AddrOk(s, b)
    requires forall b {:trigger SameAt(s, mid, b)} :: b != a ==> SameAt(s, mid, b)
    requires mid.heap == s.heap && mid.doomed == s.doomed && a in s.heap && s.heap[a].refs > 0
    requires (a in mid.list ==> a !in mid.leaving) && Owed(mid, a) == Owed(s, a) - 1
    ensures forall b {:trigger AddrOk(Dropped(mid, a), b)} :: AddrOk(Dropped(mid, a), b)
  {
    var t := Dropped(mid, a);
    assert AddrOk(s, a);
    assert Owed(t, a) == Owed(mid, a) by { assert Deliveries(t, a) == Deliveries(mid, a); }
    forall b | b != a ensures SameAt(s, t, b) {
      assert SameAt(s, mid, b);
      assert Deliveries(t, b) == Deliveries(mid, b);
    }
    OnlyOne(s, t, a);
  }

  lemma RaiseKeeps(s: State, mid: State, a: Addr)
    requires forall b {:trigger AddrOk(s, b)} :: AddrOk(s, b)
    requires forall b {:trigger SameAt(s, mid, b)} :: b != a ==> SameAt(s, mid, b)
    requires mid.heap == s.heap && mid.doomed == s.doomed && a in s.heap && s.heap[a].refs > 0
    requires (a in mid.list ==> a !in mid.leaving) && Owed(mid, a) == Owed(s, a) + 1
    ensures forall b {:trigger AddrOk(Raised(mid, a), b)} :: AddrOk(Raised(mid, a), b)
  {
    var t := Raised(mid, a);
    assert AddrOk(s, a);
    assert Owed(t, a) == Owed(mid, a) by { assert Deliveries(t, a) == Deliveries(mid, a); }
    forall b | b != a ensures SameAt(s, t, b) {
      assert SameAt(s, mid, b);
      assert Deliveries(t, b) == Deliveries(mid, b);
    }
    OnlyOne(s, t, a);
  }

  lemma SubsKeep(s: State, mid: State, a: Addr, subs: seq<Sub>)
    requires forall b {:trigger AddrOk(s, b)} :: AddrOk(s, b)
    requires forall b {:trigger SameAt(s, mid, b)} :: b != a ==> SameAt(s, mid, b)
    requires mid.heap == s.heap && mid.doomed == s.doomed && a in s.heap && |subs| <= MAX_SUBS
    requires (a in mid.list ==> a !in mid.leaving) && Owed(mid, a) == Owed(s, a)
    ensures forall b {:trigger AddrOk(Resubscribed(mid, a, subs), b)} :: AddrOk(Resubscribed(mid, a, subs), b)
  {
    var t := Resubscribed(mid, a, subs);
    assert AddrOk(s, a);
    assert Owed(t, a) == Owed(mid, a) by { assert Deliveries(t, a) == Deliveries(mid, a); }
    forall b | b != a ensures SameAt(s, t, b) {
      assert SameAt(s, mid, b);
      assert Deliveries(t, b) == Deliveries(mid, b);
    }
    OnlyOne(s, t, a);
  }

  lemma Drops(s: State, step: Step)
    requires Inv(s) && Enabled(s, step)
    requires step.GiveBack? || step.Release? || step.CaptureDone? || step.EndDelivery?
    ensures forall b {:trigger AddrOk(Apply(s, step), b)} :: AddrOk(Apply(s, step), b)
  {
    var a := if step.EndDelivery? then s.out[step.t].a else step.a;
    var mid := match step
      case GiveBack(_) => s.(leaving := s.leaving - {a})
      case Release(_) => s.(held := s.held - multiset{a})
      case CaptureDone(_) => s.(caps := s.caps - multiset{a})
      case EndDelivery(t) => s.(out := s.out - {t})
      case _ => s;
    assert AddrOk(s, a);
    DeliveriesAfter(s, mid, a, step);
    ReferencedIsThere(s, a);
    DropKeeps(s, mid, a);
  }

  /** Ending a delivery takes one thread off the instance it held; the other drops take none. */
  lemma DeliveriesAfter(s: State, mid: State, a: Addr, step: Step)
    requires step.EndDelivery? ==> step.t in s.out && s.out[step.t].a == a && mid.out == s.out - {step.t}
    requires !step.EndDelivery? ==> mid.out == s.out
    ensures |Deliveries(mid, a)| == |Deliveries(s, a)| - (if step.EndDelivery? then 1 else 0)
    ensures |Deliveries(s, a)| >= if step.EndDelivery? then 1 else 0
    ensures forall b :: b != a ==> Deliveries(mid, b) == Deliveries(s, b)
  {
    if step.EndDelivery? {
      assert Deliveries(mid, a) == Deliveries(s, a) - {step.t};
      assert step.t in Deliveries(s, a);
    } else {
      assert Deliveries(mid, a) == Deliveries(s, a);
    }
    forall b | b != a ensures Deliveries(mid, b) == Deliveries(s, b) {}
  }

  lemma Raises(s: State, step: Step, a: Addr, mid: State)
    requires Inv(s) && Enabled(s, step) && Owed(s, a) > 0
    requires
      || (step.Find? && FindName(s.heap, s.list, step.name) == Some(a) && mid == s.(held := s.held + multiset{a}))
      || (step == Hold(a) && mid == s.(held := s.held + multiset{a}))
      || (step == Capture(a) && mid == s.(caps := s.caps + multiset{a}))
    ensures Apply(s, step) == Raised(mid, a)
    ensures forall b {:trigger AddrOk(Raised(mid, a), b)} :: AddrOk(Raised(mid, a), b)
  {
    assert AddrOk(s, a);
    forall b ensures Deliveries(mid, b) == Deliveries(s, b) {}
    ReferencedIsThere(s, a);
    RaiseKeeps(s, mid, a);
  }

  lemma Delivers(s: State, step: Step)
    requires Inv(s) && Enabled(s, step) && step.Deliver?
    ensures forall b {:trigger AddrOk(Apply(s, step), b)} :: AddrOk(Apply(s, step), b)
  {
    var a, t := step.a, step.t;
    var mid := s.(out := s.out[t := Delivery(a, Snapshot(SubsOf(s, a)), [], SubsOf(s, a))]);
    assert AddrOk(s, a);
    HandedOutIsOwed(s, a);
    ReferencedIsThere(s, a);
    assert Deliveries(mid, a) == Deliveries(s, a) + {t};
    assert t !in Deliveries(s, a);
    forall b | b != a ensures Deliveries(mid, b) == Deliveries(s, b) {}
    RaiseKeeps(s, mid, a);
  }

  lemma Resubscribes(s: State, step: Step)
    requires Inv(s) && Enabled(s, step) && (step.Subscribe? || step.Unsubscribe? || step.Unlink?)
    ensures forall b {:trigger AddrOk(Apply(s, step), b)} :: AddrOk(Apply(s, step), b)
  {
    if step.Unlink? {
      var a := FindName(s.heap, s.list, step.name).value;
      var mid := s.(list := Remove(s.list, a), leaving := s.leaving + {a});
      RemoveMembers(s.list, a);
      assert AddrOk(s, a);
      forall b ensures Deliveries(mid, b) == Deliveries(s, b) {}
      SubsKeep(s, mid, a, []);
      assert Apply(s, step) == Resubscribed(mid, a, []);
    } else {
      var a := step.a;
      assert AddrOk(s, a);
      HandedOutIsOwed(s, a);
      ReferencedIsThere(s, a);
      SubsKeep(s, s, a,
        if step.Subscribe? then SubscribeSubs(SubsOf(s, a), step.sub) else UnsubscribeSubs(SubsOf(s, a), step.name));
    }
  }

  lemma Registers(s: State, step: Step)
    requires Inv(s) && Enabled(s, step) && step.Register?
    ensures forall b {:trigger AddrOk(Apply(s, step), b)} :: AddrOk(Apply(s, step), b)
  {
    var a, t := step.a, Apply(s, step);
    assert AddrOk(s, a);
    forall b ensures Deliveries(t, b) == Deliveries(s, b) {}
    OnlyOne(s, t, a);
  }

  lemma Frees(s: State, step: Step)
    requires Inv(s) && Enabled(s, step) && step.Free?
    ensures forall b {:trigger AddrOk(Apply(s, step), b)} :: AddrOk(Apply(s, step), b)
  {
    var a, t := step.a, Apply(s, step);
    assert AddrOk(s, a);
    forall b ensures Deliveries(t, b) == Deliveries(s, b) {}
    OnlyOne(s, t, a);
  }

  lemma Calls(s: State, step: Step)
    requires Inv(s) && Enabled(s, step) && step.CallNext?
    ensures forall b {:trigger AddrOk(Apply(s, step), b)} :: AddrOk(Apply(s, step), b)
  {
    var t := Apply(s, step);
    forall b ensures AddrOk(t, b) {
      assert AddrOk(s, b);
      assert Deliveries(t, b) == Deliveries(s, b);
    }
  }

  lemma StepAddrs(s: State, step: Step)
    requires Inv(s) && Enabled(s, step)
    ensures forall b {:trigger AddrOk(Apply(s, step), b)} :: AddrOk(Apply(s, step), b)
  {
    match step
    case Register(_, _) => Registers(s, step);
    case Free(_) => Frees(s, step);
    case CallNext(_) => Calls(s, step);
    case Deliver(_, _) => Delivers(s, step);
    case Hold(a) => HandedOutIsOwed(s, a); Raises(s, step, a, s.(held := s.held + multiset{a}));
    case Capture(a) => HandedOutIsOwed(s, a); Raises(s, step, a, s.(caps := s.caps + multiset{a}));
    case Find(name) =>
      var r := FindName(s.heap, s.list, name);
      if r.Some? { Raises(s, step, r.value, s.(held := s.held + multiset{r.value})); }
    case Subscribe(_, _) => Resubscribes(s, step);
    case Unsubscribe(_, _) => Resubscribes(s, step);
    case Unlink(_) => Resubscribes(s, step);
    case _ => Drops(s, step);
  }

  /** The instance a step works on. */
  function Subject(s: State, step: Step): Option<Addr>
    requires Enabled(s, step)
  {
    match step
    case Unlink(name) => FindName(s.heap, s.list, name)
    case Find(name) => FindName(s.heap, s.list, name)
    case EndDelivery(t) => Some(s.out[t].a)
    case CallNext(t) => Some(s.out[t].a)
    case Register(_, _) => None
    case _ => Some(step.a)
  }

  /** It is still there: something keeps it alive, or its one free is due. */
  lemma SubjectIsThere(s: State, step: Step)
    requires Inv(s) && Enabled(s, step)
    ensures Subject(s, step).Some? ==> Subject(s, step).value in s.heap
  {
    var a := Subject(s, step);
    if a.Some? {
      assert AddrOk(s, a.value);
      if step.EndDelivery? || step.CallNext? { assert step.t in Deliveries(s, a.value); }
      else if HandedOut(s, a.value) { HandedOutIsOwed(s, a.value); }
    }
  }

  lemma StepRest(s: State, step: Step)
    requires Inv(s) && Enabled(s, step)
    ensures !Apply(s, step).fault && NoDup(Apply(s, step).list)
    ensures forall t :: t in Apply(s, step).out ==> DeliveryOk(Apply(s, step).out[t])
  {
    SubjectIsThere(s, step);
    match step
    case Register(a, _) => assert AddrOk(s, a); NoDupSplit([a], s.list);
    case Unlink(name) => RemoveMembers(s.list, FindName(s.heap, s.list, name).value);
    case Deliver(_, a) => assert AddrOk(s, a);
    case _ =>
  }

  /** No instance came, went or changed its number. */
  ghost predicate SameSerials(s: State, t: State) {
    && t.freed == s.freed && t.lastSerial == s.lastSerial && t.heap.Keys == s.heap.Keys
    && forall a :: a in s.heap ==> t.heap[a].serial == s.heap[a].serial
  }

  lemma SerialsStay(s: State, t: State)
    requires SerialsOk(s) && SameSerials(s, t)
    ensures SerialsOk(t)
  {
  }

  lemma SerialsAdd(s: State, t: State, a: Addr, i: Inst)
    requires SerialsOk(s) && a !in s.heap && i.serial == s.lastSerial + 1
    requires t.heap == s.heap[a := i] && t.lastSerial == i.serial && t.freed == s.freed
    ensures SerialsOk(t)
  {
  }

  lemma SerialsFree(s: State, t: State, a: Addr)
    requires SerialsOk(s) && a in s.heap && t.heap == s.heap - {a}
    requires t.lastSerial == s.lastSerial && t.freed == s.freed + [s.heap[a].serial]
    ensures SerialsOk(t)
  {
  }

  lemma SectionsSame(s: State, mid: State, a: Addr, subs: seq<Sub>)
    requires mid.heap == s.heap && mid.freed == s.freed && mid.lastSerial == s.lastSerial
    ensures SameSerials(s, Dropped(mid, a)) && SameSerials(s, Raised(mid, a)) && SameSerials(s, Resubscribed(mid, a, subs))
  {
  }

  lemma QuietStep(s: State, step: Step)
    requires Enabled(s, step) && !step.Register? && !(step.Free? && step.a in s.heap)
    ensures SameSerials(s, Apply(s, step))
  {
    match step
    case Unlink(name) =>
      var a := FindName(s.heap, s.list, name).value;
      SectionsSame(s, s, a, []);
    case Find(name) =>
      var r := FindName(s.heap, s.list, name);
      if r.Some? { SectionsSame(s, s.(held := s.held + multiset{r.value}), r.value, []); }
    case GiveBack(a) => SectionsSame(s, s.(leaving := s.leaving - {a}), a, []);
    case Hold(a) => SectionsSame(s, s.(held := s.held + multiset{a}), a, []);
    case Release(a) => SectionsSame(s, s.(held := s.held - multiset{a}), a, []);
    case Subscribe(a, sub) => SectionsSame(s, s, a, SubscribeSubs(SubsOf(s, a), sub));
    case Unsubscribe(a, name) => SectionsSame(s, s, a, UnsubscribeSubs(SubsOf(s, a), name));
    case Deliver(t, a) =>
      SectionsSame(s, s.(out := s.out[t := Delivery(a, Snapshot(SubsOf(s, a)), [], SubsOf(s, a))]), a, []);
    case EndDelivery(t) => SectionsSame(s, s.(out := s.out - {t}), s.out[t].a, []);
    case Capture(a) => SectionsSame(s, s.(caps := s.caps + multiset{a}), a, []);
    case CaptureDone(a) => SectionsSame(s, s.(caps := s.caps - multiset{a}), a, []);
    case _ =>
  }

  lemma StepSerials(s: State, step: Step)
    requires SerialsOk(s) && Enabled(s, step)
    ensures SerialsOk(Apply(s, step))
  {
    var t := Apply(s, step);
    if step.Register? { SerialsAdd(s, t, step.a, t.heap[step.a]); }
    else if step.Free? && step.a in s.heap { SerialsFree(s, t, step.a); }
    else { QuietStep(s, step); SerialsStay(s, t); }
  }

  /** Every step keeps the invariant. */
  lemma StepInv(s: State, step: Step)
    requires Inv(s) && Enabled(s, step)
    ensures Inv(Apply(s, step))
  {
    StepAddrs(s, step);
    StepRest(s, step);
    StepSerials(s, step);
  }

  lemma EmptyInv()
    ensures Inv(Empty)
  {
    forall a ensures AddrOk(Empty, a) { assert Deliveries(Empty, a) == {}; }
  }

  lemma {:induction false} RunInv(tr: seq<State>, k: nat)
    requires Run(tr) && k < |tr|
    ensures Inv(tr[k])
  {
    if k == 0 {
      EmptyInv();
    } else {
      RunInv(tr, k - 1);
      assert Next(tr[k - 1], tr[k]);
      var step :| Enabled(tr[k - 1], step) && tr[k] == Apply(tr[k - 1], step);
      StepInv(tr[k - 1], step);
    }
  }

  // What a caller may rely on

  /** The count is the registry's reference plus the handouts, at every moment. */
  lemma RefsAreExact(tr: seq<State>, k: nat, a: Addr)
    requires Run(tr) && k < |tr| && a in tr[k].heap
    ensures tr[k].heap[a].refs == Owed(tr[k], a)
    ensures tr[k].heap[a].refs == 0 <==> a in tr[k].doomed
  {
    RunInv(tr, k);
    assert AddrOk(tr[k], a);
  }

  /** An instance is freed with nothing left to reach it: not linked, not being unregistered, no handout. */
  lemma FreedAlone(tr: seq<State>, k: nat, a: Addr)
    requires Run(tr) && k < |tr| && a in tr[k].doomed
    ensures a in tr[k].heap && a !in tr[k].list && a !in tr[k].leaving
    ensures tr[k].held[a] == 0 && tr[k].caps[a] == 0 && Deliveries(tr[k], a) == {}
  {
    RunInv(tr, k);
    assert AddrOk(tr[k], a);
  }

  /** No instance is freed twice, and none is touched after it is freed. */
  lemma FreedOnceNeverTouched(tr: seq<State>, k: nat)
    requires Run(tr) && k < |tr|
    ensures !tr[k].fault
    ensures forall i, j :: 0 <= i < j < |tr[k].freed| ==> tr[k].freed[i] != tr[k].freed[j]
    ensures forall a, i :: a in tr[k].heap && 0 <= i < |tr[k].freed| ==> tr[k].heap[a].serial != tr[k].freed[i]
  {
    RunInv(tr, k);
  }

  /** Nothing leaks: an instance with no reference left is on its way to free(). */
  lemma NothingLeaks(tr: seq<State>, k: nat, a: Addr)
    requires Run(tr) && k < |tr| && a in tr[k].heap && Owed(tr[k], a) == 0
    ensures a in tr[k].doomed
  {
    RunInv(tr, k);
    assert AddrOk(tr[k], a);
  }

  /** When a delivery ends, every subscriber on its list at the snapshot was called once, in order. */
  lemma DeliveryCallsAll(tr: seq<State>, k: nat, t: Tid)
    requires Run(tr) && k < |tr| && Enabled(tr[k], EndDelivery(t))
    ensures tr[k].out[t].called == tr[k].out[t].present
  {
    RunInv(tr, k);
  }

  /** A delivery alone keeps its instance usable: holds and captures can be taken, and it is not on its way to free(). */
  lemma DeliveryKeepsAlive(tr: seq<State>, k: nat, t: Tid)
    requires Run(tr) && k < |tr| && t in tr[k].out
    ensures var a := tr[k].out[t].a;
      && a in tr[k].heap && a !in tr[k].doomed && tr[k].heap[a].refs > 0
      && Enabled(tr[k], Hold(a)) && Enabled(tr[k], Capture(a))
  {
    var a := tr[k].out[t].a;
    RunInv(tr, k);
    assert HandedOut(tr[k], a) && AddrOk(tr[k], a);
    HandedOutIsOwed(tr[k], a);
  }
}
