/**
 * What a name and a subscription are good for (core/method.c): a registered
 * instance is found by its name, linked names stay apart, and a subscriber is
 * called by every delivery until it unsubscribes.
 */
module MethodNames {
  import opened Ascii
  import opened Options
  import opened Seqs
  import opened MethodProtocol
  import opened MethodTheorems

  ghost predicate Fragment(tr: seq<State>, steps: seq<Step>) {
    && |tr| == |steps| + 1
    && forall i, j :: 0 <= i < |steps| && j == i + 1 ==> Goes(tr[i], steps[i], tr[j])
  }

  ghost predicate Goes(s: State, step: Step, t: State) { Enabled(s, step) && t == Apply(s, step) }

  lemma GoesInv(s: State, step: Step, t: State)
    requires Inv(s) && Goes(s, step, t)
    ensures Inv(t)
  {
    StepInv(s, step);
  }

  lemma {:induction false} InvAlong(tr: seq<State>, steps: seq<Step>, n: nat)
    requires Fragment(tr, steps) && Inv(tr[0]) && n <= |steps|
    ensures Inv(tr[n])
  {
    if n > 0 {
      InvAlong(tr, steps, n - 1);
      GoesInv(tr[n - 1], steps[n - 1], tr[n]);
    }
  }

  lemma Part(tr: seq<State>, steps: seq<Step>, i: nat, j: nat)
    requires Fragment(tr, steps) && i <= j <= |steps|
    ensures Fragment(tr[i..j + 1], steps[i..j])
  {
    var us, ops := tr[i..j + 1], steps[i..j];
    forall m, n | 0 <= m < |ops| && n == m + 1 ensures Goes(us[m], ops[m], us[n]) {
      assert us[m] == tr[i + m] && us[n] == tr[i + n] && ops[m] == steps[i + m];
    }
  }

  // Names

  lemma SameLaws(a: string, b: string, c: string)
    ensures Same(a, a) && (Same(a, b) ==> Same(b, a)) && (Same(a, b) && Same(b, c) ==> Same(a, c))
  {
  }

  /** A stored name compares equal to the name it was cut from exactly when nothing was cut. */
  lemma StoredSameIff(name: string)
    ensures Same(Stored(name), name) <==> |name| < NAME_SZ
    ensures |name| < NAME_SZ ==> Stored(name) == name
  {
  }

  /** A new instance is found by the name it was registered under exactly when the name fits its buffer. */
  lemma RegisteredIsFoundIff(s: State, a: Addr, name: string)
    requires Inv(s) && Enabled(s, Register(a, name))
    ensures var t := Apply(s, Register(a, name));
      FindName(t.heap, t.list, name) == if |name| < NAME_SZ then Some(a) else None
  {
    var t := Apply(s, Register(a, name));
    StoredSameIff(name);
    assert AddrOk(s, a) && a !in s.list;
    assert t.list[0] == a && t.list[1..] == s.list;
    FindUnchanged(s.heap, t.heap, s.list, name);
  }

  lemma {:induction false} FindUnchanged(heap: map<Addr, Inst>, heap': map<Addr, Inst>, list: seq<Addr>, name: string)
    requires forall a :: a in list ==> (a in heap' <==> a in heap) && (a in heap ==> heap'[a] == heap[a])
    ensures FindName(heap', list, name) == FindName(heap, list, name)
  {
    if |list| > 0 { FindUnchanged(heap, heap', list[1..], name); }
  }

  /** No two linked instances have names that compare equal. */
  ghost predicate NamesApart(s: State) {
    forall a, b :: a in s.list && b in s.list && a in s.heap && b in s.heap && a != b ==> !Same(s.heap[a].name, s.heap[b].name)
  }

  /** A registration keeps the names apart exactly when the name is free in its stored form as well. */
  lemma RegisterApartIff(s: State, a: Addr, name: string)
    requires Inv(s) && Enabled(s, Register(a, name)) && NamesApart(s)
    ensures NamesApart(Apply(s, Register(a, name))) <==> FindName(s.heap, s.list, Stored(name)).None?
  {
    var t := Apply(s, Register(a, name));
    assert AddrOk(s, a) && a !in s.list;
    var hit := FindName(s.heap, s.list, Stored(name));
    if hit.Some? {
      assert a in t.list && hit.value in t.list;
      SameLaws(s.heap[hit.value].name, Stored(name), "");
    } else {
      forall b | b in s.list && b in s.heap ensures !Same(s.heap[b].name, Stored(name)) && !Same(Stored(name), s.heap[b].name) {
        var i :| 0 <= i < |s.list| && s.list[i] == b;
        SameLaws(Stored(name), s.heap[b].name, "");
      }
    }
  }

  /** No instance came or was renamed. */
  ghost predicate SameNames(s: State, t: State) {
    forall a :: a in t.heap ==> a in s.heap && t.heap[a].name == s.heap[a].name
  }

  ghost predicate SameSubs(s: State, t: State, a: Addr) { a in s.heap ==> a in t.heap && t.heap[a].subs == s.heap[a].subs }

  lemma SectionsKeep(s: State, mid: State, b: Addr, subs: seq<Sub>, a: Addr)
    requires mid.heap == s.heap
    ensures SameNames(s, Dropped(mid, b)) && SameNames(s, Raised(mid, b)) && SameNames(s, Resubscribed(mid, b, subs))
    ensures SameSubs(s, Dropped(mid, b), a) && SameSubs(s, Raised(mid, b), a)
    ensures a != b ==> SameSubs(s, Resubscribed(mid, b, subs), a)
  {
  }

  /** A step other than a registration renames nobody, and leaves the subscribers of `a` alone unless it is about them. */
  lemma StepKeeps(s: State, step: Step, a: Addr)
    requires Enabled(s, step) && !step.Register?
    ensures SameNames(s, Apply(s, step))
    ensures !About(s, step, a) ==> SameSubs(s, Apply(s, step), a)
  {
    match step
    case Unlink(name) => SectionsKeep(s, s, FindName(s.heap, s.list, name).value, [], a);
    case Find(name) =>
      var r := FindName(s.heap, s.list, name);
      if r.Some? { SectionsKeep(s, s.(held := s.held + multiset{r.value}), r.value, [], a); }
    case GiveBack(b) => SectionsKeep(s, s.(leaving := s.leaving - {b}), b, [], a);
    case Hold(b) => SectionsKeep(s, s.(held := s.held + multiset{b}), b, [], a);
    case Release(b) => SectionsKeep(s, s.(held := s.held - multiset{b}), b, [], a);
    case Subscribe(b, sub) => SectionsKeep(s, s, b, SubscribeSubs(SubsOf(s, b), sub), a);
    case Unsubscribe(b, name) => SectionsKeep(s, s, b, UnsubscribeSubs(SubsOf(s, b), name), a);
    case Deliver(t, b) =>
      SectionsKeep(s, s.(out := s.out[t := Delivery(b, Snapshot(SubsOf(s, b)), [], SubsOf(s, b))]), b, [], a);
    case EndDelivery(t) => SectionsKeep(s, s.(out := s.out - {t}), s.out[t].a, [], a);
    case Capture(b) => SectionsKeep(s, s.(caps := s.caps + multiset{b}), b, [], a);
    case CaptureDone(b) => SectionsKeep(s, s.(caps := s.caps - multiset{b}), b, [], a);
    case _ =>
  }

  ghost predicate About(s: State, step: Step, a: Addr) {
    || ((step.Subscribe? || step.Unsubscribe? || step.Free?) && step.a == a)
    || (step.Unlink? && FindName(s.heap, s.list, step.name) == Some(a))
  }

  lemma NobodyLinked(s: State, step: Step)
    requires NoDup(s.list) && Enabled(s, step) && !step.Register?
    ensures forall a :: a in Apply(s, step).list ==> a in s.list
    ensures step.Unlink? ==> FindName(s.heap, s.list, step.name).value !in Apply(s, step).list
  {
    if step.Unlink? { RemoveMembers(s.list, FindName(s.heap, s.list, step.name).value); }
  }

  lemma ApartStep(s: State, step: Step, t: State)
    requires Inv(s) && Goes(s, step, t) && NamesApart(s) && (step.Register? ==> |step.name| < NAME_SZ)
    ensures NamesApart(t)
  {
    if step.Register? {
      StoredSameIff(step.name);
      RegisterApartIff(s, step.a, step.name);
    } else {
      StepKeeps(s, step, Addr(0));
      NobodyLinked(s, step);
    }
  }

  /** Over every run whose registered names all fit their buffer, linked names stay apart. */
  lemma {:induction false} FittingNamesStayApart(tr: seq<State>, steps: seq<Step>, n: nat)
    requires Fragment(tr, steps) && tr[0] == Empty && n <= |steps|
    requires forall i :: 0 <= i < |steps| && steps[i].Register? ==> |steps[i].name| < NAME_SZ
    ensures Inv(tr[n]) && NamesApart(tr[n])
  {
    if n == 0 {
      EmptyInv();
    } else {
      FittingNamesStayApart(tr, steps, n - 1);
      GoesInv(tr[n - 1], steps[n - 1], tr[n]);
      ApartStep(tr[n - 1], steps[n - 1], tr[n]);
    }
  }

  /** A name too long for its buffer can be registered again and again. */
  lemma LongNameRegistersTwice(s: State, a: Addr, b: Addr, name: string)
    requires Inv(s) && Enabled(s, Register(a, name)) && |name| >= NAME_SZ && b !in s.heap && b != a
    ensures var t := Apply(s, Register(a, name)); Enabled(t, Register(b, name)) && !NamesApart(Apply(t, Register(b, name)))
  {
    var t := Apply(s, Register(a, name));
    RegisteredIsFoundIff(s, a, name);
    StepInv(s, Register(a, name));
    assert AddrOk(t, b);
    var u := Apply(t, Register(b, name));
    assert a in u.list && b in u.list && u.heap[a].name == u.heap[b].name;
    SameLaws(u.heap[a].name, u.heap[b].name, "");
  }

  // Subscriptions

  /** A subscription adds one, and an unsubscription takes one of that name: nobody else's place changes. */
  lemma SubsChange(subs: seq<Sub>, sub: Sub, name: string, x: Sub)
    ensures x in subs ==> x in SubscribeSubs(subs, sub)
    ensures x in subs && !Same(x.name, name) ==> x in UnsubscribeSubs(subs, name)
    ensures x in UnsubscribeSubs(subs, name) ==> x in subs
  {
    if x in subs { var i :| 0 <= i < |subs| && subs[i] == x; assert ([sub.(name := Stored(sub.name))] + subs)[i + 1] == x; }
    var i := FindSub(subs, name);
    if i >= 0 { assert subs == subs[..i] + [subs[i]] + subs[i + 1..]; }
  }

  /** `x` stays subscribed to the linked instance `a` over a step that does not unsubscribe its name. */
  lemma SubscribedStep(s: State, step: Step, t: State, a: Addr, x: Sub)
    requires Inv(s) && Goes(s, step, t) && a in s.list && a in t.list && a in s.heap && x in s.heap[a].subs
    requires step.Unsubscribe? && step.a == a ==> !Same(x.name, step.name)
    ensures a in t.heap && x in t.heap[a].subs
  {
    assert AddrOk(s, a);
    if step.Subscribe? && step.a == a {
      SubsChange(s.heap[a].subs, step.sub, "", x);
    } else if step.Unsubscribe? && step.a == a {
      SubsChange(s.heap[a].subs, x, step.name, x);
    } else if !step.Register? {
      NobodyLinked(s, step);
      StepKeeps(s, step, a);
    }
  }

  lemma {:induction false} StaysSubscribed(tr: seq<State>, steps: seq<Step>, a: Addr, x: Sub, n: nat)
    requires Fragment(tr, steps) && Inv(tr[0]) && a in tr[0].heap && x in tr[0].heap[a].subs && n <= |steps|
    requires forall i :: 0 <= i <= |steps| ==> a in tr[i].list
    requires forall i :: 0 <= i < |steps| && steps[i].Unsubscribe? && steps[i].a == a ==> !Same(x.name, steps[i].name)
    ensures Inv(tr[n]) && a in tr[n].heap && x in tr[n].heap[a].subs
  {
    if n > 0 {
      StaysSubscribed(tr, steps, a, x, n - 1);
      GoesInv(tr[n - 1], steps[n - 1], tr[n]);
      SubscribedStep(tr[n - 1], steps[n - 1], tr[n], a, x);
    }
  }

  /** While it is in its callbacks a delivery's list is the subscriber list it found. */
  lemma {:induction false} SnapshotStays(tr: seq<State>, steps: seq<Step>, t: Tid, n: nat)
    requires Fragment(tr, steps) && n <= |steps|
    requires forall i :: 0 <= i <= |steps| ==> t in tr[i].out
    ensures tr[n].out[t].present == tr[0].out[t].present
  {
    if n > 0 {
      SnapshotStays(tr, steps, t, n - 1);
      SnapshotStep(tr[n - 1], steps[n - 1], tr[n], t);
    }
  }

  lemma SnapshotStep(s: State, step: Step, s': State, t: Tid)
    requires Goes(s, step, s') && t in s.out && t in s'.out
    ensures s'.out[t].present == s.out[t].present
  {
  }

  lemma SnapshotTaken(s: State, s': State, t: Tid, a: Addr)
    requires Inv(s) && Goes(s, Deliver(t, a), s')
    ensures a in s.heap && t in s'.out && s'.out[t].present == s.heap[a].subs
  {
    assert AddrOk(s, a);
    HandedOutIsOwed(s, a);
    ReferencedIsThere(s, a);
  }

  /** A delivery that ends has called exactly the subscribers its instance had when it began, in list order. */
  lemma DeliveryCallsSubscribers(tr: seq<State>, steps: seq<Step>, t: Tid, a: Addr)
    requires Fragment(tr, steps) && Inv(tr[0]) && |steps| > 0 && steps[0] == Deliver(t, a)
    requires (forall i :: 1 <= i <= |steps| ==> t in tr[i].out) && Enabled(tr[|steps|], EndDelivery(t))
    ensures a in tr[0].heap && tr[|steps|].out[t].called == tr[0].heap[a].subs
  {
    SnapshotTaken(tr[0], tr[1], t, a);
    Part(tr, steps, 1, |steps|);
    SnapshotStays(tr[1..|steps| + 1], steps[1..|steps|], t, |steps| - 1);
    InvAlong(tr, steps, |steps|);
    assert DeliveryOk(tr[|steps|].out[t]);
  }

  lemma SubscribedNow(s: State, t: State, a: Addr, sub: Sub)
    requires Inv(s) && Goes(s, Subscribe(a, sub), t) && a in s.heap
    requires FindSub(s.heap[a].subs, sub.name) < 0 && |s.heap[a].subs| < MAX_SUBS
    ensures Inv(t) && a in t.heap && Sub(Stored(sub.name), sub.cb) in t.heap[a].subs
  {
    StepInv(s, Subscribe(a, sub));
    assert t.heap[a].subs[0] == Sub(Stored(sub.name), sub.cb);
  }

  /**
   * A subscriber that was taken in is called by every delivery that begins
   * while its instance stays registered and nobody unsubscribes its name.
   */
  lemma SubscriberIsCalled(tr: seq<State>, steps: seq<Step>, a: Addr, sub: Sub, j: nat, k: nat, t: Tid)
    requires Fragment(tr, steps) && Inv(tr[0]) && 0 < j < k <= |steps|
    requires steps[0] == Subscribe(a, sub) && a in tr[0].heap
    requires FindSub(tr[0].heap[a].subs, sub.name) < 0 && |tr[0].heap[a].subs| < MAX_SUBS
    requires forall i :: 0 <= i <= j ==> a in tr[i].list
    requires forall i :: 0 < i < j && steps[i].Unsubscribe? && steps[i].a == a ==> !Same(Stored(sub.name), steps[i].name)
    requires steps[j] == Deliver(t, a) && (forall i :: j < i <= k ==> t in tr[i].out) && Enabled(tr[k], EndDelivery(t))
    ensures Sub(Stored(sub.name), sub.cb) in tr[k].out[t].called
  {
    StillSubscribed(tr, steps, a, sub, j);
    Part(tr, steps, j, k);
    DeliveryCallsSubscribers(tr[j..k + 1], steps[j..k], t, a);
  }

  lemma StillSubscribed(tr: seq<State>, steps: seq<Step>, a: Addr, sub: Sub, j: nat)
    requires Fragment(tr, steps) && Inv(tr[0]) && 0 < j <= |steps|
    requires steps[0] == Subscribe(a, sub) && a in tr[0].heap
    requires FindSub(tr[0].heap[a].subs, sub.name) < 0 && |tr[0].heap[a].subs| < MAX_SUBS
    requires forall i :: 0 <= i <= j ==> a in tr[i].list
    requires forall i :: 0 < i < j && steps[i].Unsubscribe? && steps[i].a == a ==> !Same(Stored(sub.name), steps[i].name)
    ensures Inv(tr[j]) && a in tr[j].heap && Sub(Stored(sub.name), sub.cb) in tr[j].heap[a].subs
  {
    SubscribedNow(tr[0], tr[1], a, sub);
    Part(tr, steps, 1, j);
    StaysSubscribed(tr[1..j + 1], steps[1..j], a, Sub(Stored(sub.name), sub.cb), j - 1);
  }
}
