/**
 * Method instances in core/method.c as a state machine: a registry reference
 * plus a reference per handout, each lock-protected section one step. A step
 * that touches an instance that is no longer there is a fault.
 */
module MethodProtocol {
  import opened Ascii
  import opened Options
  import opened Seqs

  const MAX_SUBS := 32
  const NAME_SZ := 64    // METHOD_NAME_SZ and METHOD_SUB_NAME_SZ

  datatype Addr = Addr(n: int)
  datatype Tid = Tid(n: int)
  datatype Sub = Sub(name: string, cb: int)
  datatype Inst = Inst(serial: int, name: string, refs: int, subs: seq<Sub>)

  /** A delivery past its snapshot: the callbacks copied, those already called, and the list it saw. */
  datatype Delivery = Delivery(a: Addr, plan: seq<Sub>, called: seq<Sub>, present: seq<Sub>)

  datatype State = State(
    heap: map<Addr, Inst>,
    list: seq<Addr>,           // linked instances
    leaving: set<Addr>,        // unlinked, registry reference not yet given back
    held: multiset<Addr>,      // references handed to callers
    caps: multiset<Addr>,      // references held by airborne captures
    out: map<Tid, Delivery>,   // deliveries in their callbacks, a reference each
    doomed: set<Addr>,         // references at zero, free() still to come
    freed: seq<int>,
    lastSerial: int,
    fault: bool)

  /** strncasecmp over the name bound. */
  predicate Same(a: string, b: string) { SameFold(Upto(a, NAME_SZ), Upto(b, NAME_SZ)) }

  /** The stored form of a name: cut to fit its buffer. */
  function Stored(name: string): string { Upto(name, NAME_SZ - 1) }

  function FindName(heap: map<Addr, Inst>, list: seq<Addr>, name: string): (r: Option<Addr>)
    ensures r.Some? ==> r.value in list && r.value in heap && Same(heap[r.value].name, name)
    ensures r.None? ==> forall i :: 0 <= i < |list| && list[i] in heap ==> !Same(heap[list[i]].name, name)
  {
    if |list| == 0 then None
    else if list[0] in heap && Same(heap[list[0]].name, name) then Some(list[0])
    else FindName(heap, list[1..], name)
  }

  function FindSub(subs: seq<Sub>, name: string): (i: int)
    ensures i < |subs|
    ensures i >= 0 ==> Same(subs[i].name, name)
    ensures i < 0 ==> forall j :: 0 <= j < |subs| ==> !Same(subs[j].name, name)
  {
    if |subs| == 0 then -1
    else if Same(subs[0].name, name) then 0
    else
      var j := FindSub(subs[1..], name);
      if j < 0 then -1 else j + 1
  }

  function Fault(s: State): State { s.(fault := true) }

  /** The decrement section of method_release. */
  function Dropped(s: State, a: Addr): State {
    if a !in s.heap then Fault(s)
    else
      var i := s.heap[a].(refs := s.heap[a].refs - 1);
      s.(heap := s.heap[a := i], doomed := if i.refs == 0 then s.doomed + {a} else s.doomed)
  }

  function Raised(s: State, a: Addr): State {
    if a !in s.heap then Fault(s) else s.(heap := s.heap[a := s.heap[a].(refs := s.heap[a].refs + 1)])
  }

  function Resubscribed(s: State, a: Addr, subs: seq<Sub>): State {
    if a !in s.heap then Fault(s) else s.(heap := s.heap[a := s.heap[a].(subs := subs)])
  }

  function SubsOf(s: State, a: Addr): seq<Sub> { if a in s.heap then s.heap[a].subs else [] }

  datatype Step =
    | Register(a: Addr, name: string)
    | Unlink(name: string)
    | GiveBack(a: Addr)
    | Find(name: string)
    | Hold(a: Addr)
    | Release(a: Addr)
    | Free(a: Addr)
    | Subscribe(a: Addr, sub: Sub)
    | Unsubscribe(a: Addr, name: string)
    | Deliver(t: Tid, a: Addr)
    | CallNext(t: Tid)
    | EndDelivery(t: Tid)
    | Capture(a: Addr)
    | CaptureDone(a: Addr)

  /** Somebody outside the registry holds a reference: a caller, a capture, or a delivery in its callbacks. */
  predicate HandedOut(s: State, a: Addr) {
    s.held[a] > 0 || s.caps[a] > 0 || exists t :: t in s.out && s.out[t].a == a
  }

  /** Code outside the registry uses an instance only on the strength of some handout. */
  predicate Enabled(s: State, step: Step) {
    match step
    case Register(a, name) => a !in s.heap && name != "" && FindName(s.heap, s.list, name).None?
    case Unlink(name) => FindName(s.heap, s.list, name).Some?
    case GiveBack(a) => a in s.leaving
    case Find(_) => true
    case Hold(a) => HandedOut(s, a)
    case Release(a) => s.held[a] > 0
    case Free(a) => a in s.doomed
    case Subscribe(a, sub) => HandedOut(s, a) && sub.name != ""
    case Unsubscribe(a, _) => HandedOut(s, a)
    case Deliver(t, a) => HandedOut(s, a) && t !in s.out
    case CallNext(t) => t in s.out && |s.out[t].called| < |s.out[t].plan|
    case EndDelivery(t) => t in s.out && |s.out[t].called| == |s.out[t].plan|
    case Capture(a) => HandedOut(s, a)
    case CaptureDone(a) => s.caps[a] > 0
  }

  /** method_subscribe: no duplicate name, and never more than the snapshot array holds. */
  function SubscribeSubs(subs: seq<Sub>, sub: Sub): seq<Sub> {
    if FindSub(subs, sub.name) >= 0 || |subs| >= MAX_SUBS then subs else [sub.(name := Stored(sub.name))] + subs
  }

  function UnsubscribeSubs(subs: seq<Sub>, name: string): seq<Sub> {
    var i := FindSub(subs, name);
    if i < 0 then subs else subs[..i] + subs[i + 1..]
  }

  /** The snapshot of method_deliver stops at the array's end. */
  function Snapshot(subs: seq<Sub>): seq<Sub> { if |subs| <= MAX_SUBS then subs else subs[..MAX_SUBS] }

  function Apply(s: State, step: Step): State
    requires Enabled(s, step)
  {
    match step
    case Register(a, name) =>
      s.(heap := s.heap[a := Inst(s.lastSerial + 1, Stored(name), 2, [])], list := [a] + s.list,
         held := s.held + multiset{a}, lastSerial := s.lastSerial + 1)
    case Unlink(name) =>
      var a := FindName(s.heap, s.list, name).value;
      Resubscribed(s, a, []).(list := Remove(s.list, a), leaving := s.leaving + {a})
    case GiveBack(a) => Dropped(s.(leaving := s.leaving - {a}), a)
    case Find(name) =>
      var r := FindName(s.heap, s.list, name);
      if r.None? then s else Raised(s.(held := s.held + multiset{r.value}), r.value)
    case Hold(a) => Raised(s.(held := s.held + multiset{a}), a)
    case Release(a) => Dropped(s.(held := s.held - multiset{a}), a)
    case Free(a) =>
      if a !in s.heap then Fault(s)
      else s.(heap := s.heap - {a}, doomed := s.doomed - {a}, freed := s.freed + [s.heap[a].serial])
    case Subscribe(a, sub) => Resubscribed(s, a, SubscribeSubs(SubsOf(s, a), sub))
    case Unsubscribe(a, name) => Resubscribed(s, a, UnsubscribeSubs(SubsOf(s, a), name))
    case Deliver(t, a) =>
      Raised(s.(out := s.out[t := Delivery(a, Snapshot(SubsOf(s, a)), [], SubsOf(s, a))]), a)
    case CallNext(t) =>
      var d := s.out[t];
      s.(out := s.out[t := d.(called := d.called + [d.plan[|d.called|]])])
    case EndDelivery(t) => Dropped(s.(out := s.out - {t}), s.out[t].a)
    case Capture(a) => Raised(s.(caps := s.caps + multiset{a}), a)
    case CaptureDone(a) => Dropped(s.(caps := s.caps - multiset{a}), a)
  }

  const Empty := State(map[], [], {}, multiset{}, multiset{}, map[], {}, [], 0, false)

  ghost predicate Next(s: State, t: State) { exists step :: Enabled(s, step) && t == Apply(s, step) }

  ghost predicate Run(tr: seq<State>) {
    && |tr| > 0 && tr[0] == Empty
    && forall i :: 0 <= i < |tr| - 1 ==> Next(tr[i], tr[i + 1])
  }
}
