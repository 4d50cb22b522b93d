/** Each step of the request life keeps the invariant, shape by shape. */
module CurlSteps {
  import opened CurlQueues
  import opened CurlLife
  import opened CurlLedger

  // Each step but a cancel moves or changes one request

  ghost function Touched(s: State, step: Step): Addr
    requires Whole(s.at) && Enabled(s, step)
  {
    match step
    case Cancel(_, _) => Addr(0)
    case Pop(prio) => s.at[SubQueue(prio)][0]
    case Unlink => s.loop.a
    case Release => s.loop.a
    case _ => step.a
  }

  ghost function Target(s: State, step: Step): Place
    requires Partition(s.at, s.req.Keys) && Fields(s) && Enabled(s, step) && !step.Cancel?
  {
    match step
    case Create(_) => Caller
    case SetPrio(_, _) => Caller
    case Submit(a) => SubQueue(s.req[a].prio)
    case Pop(_) => Starting
    case Start(_) => InFlight
    case Take(_) => Cancelling
    case Finish(a, _, _) => if a in s.at[InFlight] then InFlight else Cancelling
    case Unlink => Retiring
    case _ => Free
  }

  ghost function Source(s: State, step: Step): Place
    requires Partition(s.at, s.req.Keys) && Fields(s) && Enabled(s, step) && !step.Cancel?
  {
    match step
    case Create(_) => Free
    case Submit(_) => Caller
    case Refuse(_, _) => Caller
    case Pop(prio) => SubQueue(prio)
    case Start(_) => Starting
    case FailStart(_) => Starting
    case Take(a) => SubQueue(s.req[a].prio)
    case EndLoop(a) => SubQueue(s.req[a].prio)
    case Unlink => if s.loop.a in s.at[InFlight] then InFlight else Cancelling
    case Release => Retiring
    case _ => Target(s, step)
  }

  lemma SourceHolds(s: State, step: Step)
    requires Partition(s.at, s.req.Keys) && Fields(s) && Enabled(s, step) && !step.Cancel? && !step.Create?
    ensures Touched(s, step) in s.at[Source(s, step)]
  {
  }

  lemma MoveTouches(s: State, t: State, a: Addr, from: Place, to: Place)
    requires Partition(s.at, s.req.Keys) && a in s.at[from]
    requires t.at == if from == to then s.at else Moved(s.at, a, from, to)
    requires t.req.Keys == s.req.Keys && forall x :: x in s.req && x != a ==> t.req[x] == s.req[x]
    requires t.loop == s.loop || (Mine(s.loop, a) && Mine(t.loop, a))
    ensures Partition(t.at, t.req.Keys) && OnlyTouched(s, t, a, to)
  {
    assert OnSome(s.at, a) && t.req.Keys == s.req.Keys + {a};
    if from != to { MovedKeeps(s.at, s.req.Keys, a, from, to); }
  }

  lemma StepTouches(s: State, step: Step)
    requires Typed(s) && Partition(s.at, s.req.Keys) && Fields(s) && Enabled(s, step) && !step.Cancel?
    ensures Partition(Apply(s, step).at, Apply(s, step).req.Keys)
    ensures OnlyTouched(s, Apply(s, step), Touched(s, step), Target(s, step))
  {
    if step.Create? {
      CreatePartition(s, step.a);
    } else {
      SourceHolds(s, step);
      MoveTouches(s, Apply(s, step), Touched(s, step), Source(s, step), Target(s, step));
    }
  }

  lemma StepFields(s: State, step: Step)
    requires Typed(s) && Partition(s.at, s.req.Keys) && Fields(s) && Enabled(s, step) && !step.Cancel?
    ensures Fields(Apply(s, step))
  {
    StepTouches(s, step);
    TargetOk(s, step);
    LoopStays(s, step);
    FieldsKept(s, Apply(s, step), Touched(s, step), Target(s, step));
  }

  /** The request a step moves is in the right phase where it arrives. */
  lemma TargetOk(s: State, step: Step)
    requires Typed(s) && Partition(s.at, s.req.Keys) && Fields(s) && Enabled(s, step) && !step.Cancel?
    ensures FieldsOk(Apply(s, step), Target(s, step), Touched(s, step))
  {
    if !step.Create? { SourceHolds(s, step); }
  }

  lemma LoopStays(s: State, step: Step)
    requires Typed(s) && Partition(s.at, s.req.Keys) && Fields(s) && Enabled(s, step) && !step.Cancel?
    requires Whole(Apply(s, step).at) && OnlyTouched(s, Apply(s, step), Touched(s, step), Target(s, step))
    ensures LoopOk(Apply(s, step))
  {
    if !step.Create? { SourceHolds(s, step); } else { CreatePartition(s, step.a); }
  }

  predicate Silent(step: Step) {
    step.SetPrio? || step.Submit? || step.Pop? || step.Start? || step.Take? || step.Unlink?
  }

  lemma SilentBooks(s: State, t: State, a: Addr, to: Place)
    requires Whole(s.at) && Whole(t.at) && Ledger(s) && OnlyTouched(s, t, a, to)
    requires a in s.req && a !in s.at[Free] && to != Free
    requires t.owner == s.owner && t.lastId == s.lastId && t.calls == s.calls && t.exits == s.exits
    requires t.req[a].id == s.req[a].id && (t.req[a].phase.Done? <==> s.req[a].phase.Done?)
    requires t.loop == s.loop || (s.loop.Called? && t.loop == Unlinked(s.loop.a, s.loop.path))
    ensures Ledger(t)
  {
    assert t.req.Keys == s.req.Keys;
    SameBooks(s, t);
  }

  /** A request that is not on the freelist, before a step that is not its creation. */
  lemma TouchedLive(s: State, step: Step)
    requires Partition(s.at, s.req.Keys) && Fields(s) && Enabled(s, step) && !step.Cancel? && !step.Create?
    ensures Touched(s, step) in s.req && Touched(s, step) !in s.at[Free]
  {
    SourceHolds(s, step);
  }

  lemma SilentLedger(s: State, step: Step)
    requires Typed(s) && Partition(s.at, s.req.Keys) && Fields(s) && Ledger(s) && Enabled(s, step) && Silent(step)
    ensures Ledger(Apply(s, step))
  {
    TouchedLive(s, step);
    StepTouches(s, step);
    SilentStep(s, step);
    SilentBooks(s, Apply(s, step), Touched(s, step), Target(s, step));
  }

  /** A silent step writes nothing into the books. */
  lemma SilentStep(s: State, step: Step)
    requires Typed(s) && Partition(s.at, s.req.Keys) && Fields(s) && Enabled(s, step) && Silent(step)
    ensures var t := Apply(s, step); t.owner == s.owner && t.lastId == s.lastId && t.calls == s.calls && t.exits == s.exits
    ensures var t, a := Apply(s, step), Touched(s, step);
      a in s.req && a in t.req && t.req[a].id == s.req[a].id && (t.req[a].phase.Done? <==> s.req[a].phase.Done?)
    ensures var t := Apply(s, step); t.loop == s.loop || (s.loop.Called? && t.loop == Unlinked(s.loop.a, s.loop.path))
    ensures Target(s, step) != Free
  {
    SourceHolds(s, step);
  }

  lemma ExitLedger(s: State, step: Step)
    requires Typed(s) && Partition(s.at, s.req.Keys) && Fields(s) && Ledger(s) && Enabled(s, step)
    requires step.Refuse? || step.FailStart? || step.Release? || step.EndLoop?
    ensures Ledger(Apply(s, step))
  {
    SourceHolds(s, step);
    match step
    case Refuse(a, path) => ExitAt(s, a, Caller, path, s.loop);
    case FailStart(a) => ExitAt(s, a, Starting, StartFailed, s.loop);
    case Release => ExitAt(s, s.loop.a, Retiring, s.loop.path, Idle);
    case EndLoop(a) => ExitAt(s, a, SubQueue(s.req[a].prio), LoopEnded, s.loop);
  }

  lemma ExitAt(s: State, a: Addr, from: Place, path: Path, loop: Loop)
    requires Partition(s.at, s.req.Keys) && Ledger(s) && a in s.at[from] && from != Free && a in s.req
    requires s.req[a].phase.Done? <==> Delivers(path)
    requires path.Swept? || path.Drained? ==> AllAborted(s.calls, s.req[a].id)
    requires loop.Idle? || loop == s.loop
    ensures Ledger(GiveBack(s, a, from, path).(loop := loop))
  {
    MovedKeeps(s.at, s.req.Keys, a, from, Free);
    ExitBooks(s, GiveBack(s, a, from, path).(loop := loop), a, path);
  }

  lemma FinishLedger(s: State, step: Step)
    requires Typed(s) && Partition(s.at, s.req.Keys) && Fields(s) && Ledger(s) && Enabled(s, step) && step.Finish?
    ensures Ledger(Apply(s, step))
  {
    SourceHolds(s, step);
    TouchedLive(s, step);
    FinishBooks(s, Apply(s, step), step.a, step.path, step.aborted);
  }

  lemma StepLedger(s: State, step: Step)
    requires Typed(s) && Partition(s.at, s.req.Keys) && Fields(s) && Ledger(s) && Enabled(s, step)
    ensures Ledger(Apply(s, step))
  {
    match step
    case Cancel(id, from) => CancelLedger(s, id, from);
    case Create(a) => CreateLedger(s, a);
    case Finish(_, _, _) => FinishLedger(s, step);
    case _ => if Silent(step) { SilentLedger(s, step); } else { ExitLedger(s, step); }
  }

  lemma CancelLedger(s: State, id: Id, from: Place)
    requires Typed(s) && Ledger(s) && Enabled(s, Cancel(id, from))
    ensures Ledger(Apply(s, Cancel(id, from)))
  {
    SameBooks(s, Apply(s, Cancel(id, from)));
  }

  lemma CreateLedger(s: State, a: Addr)
    requires Typed(s) && Partition(s.at, s.req.Keys) && Fields(s) && Ledger(s) && Enabled(s, Create(a))
    ensures Ledger(Apply(s, Create(a)))
  {
    CreatePartition(s, a);
    CreateBooks(s, Apply(s, Create(a)), a);
  }

  lemma CountsSame(s: State, t: State, a: Addr, to: Place)
    requires Whole(s.at) && Whole(t.at) && OnlyTouched(s, t, a, to) && Counts(s) && t.active == s.active
    requires a in s.at[InFlight] <==> to == InFlight
    requires to == InFlight ==> a in s.req && t.req[a].prio == s.req[a].prio
    ensures Counts(t)
  {
    forall p: Prio ensures ActiveOf(t, p) == ActiveOf(s, p) { ActiveKept(s, t, a, to, p); }
  }

  /** Starting a transfer and unlinking it are the two steps that change curl_active_qs. */
  predicate Recounts(s: State, step: Step) {
    step.Start? || (step.Unlink? && s.loop.Called? && InFlight in s.at && s.loop.a in s.at[InFlight])
  }

  lemma CountsUp(s: State, t: State, a: Addr)
    requires Whole(s.at) && Whole(t.at) && OnlyTouched(s, t, a, InFlight) && Counts(s) && a !in s.at[InFlight]
    requires t.active == s.active[t.req[a].prio := s.active[t.req[a].prio] + 1]
    ensures Counts(t)
  {
    forall p: Prio ensures p in t.active && t.active[p] == |ActiveOf(t, p)| { CountUp(s, t, a, p); }
  }

  lemma CountUp(s: State, t: State, a: Addr, p: Prio)
    requires Whole(s.at) && Whole(t.at) && OnlyTouched(s, t, a, InFlight) && a !in s.at[InFlight]
    ensures |ActiveOf(t, p)| == |ActiveOf(s, p)| + if t.req[a].prio == p then 1 else 0
  {
    ActiveKept(s, t, a, InFlight, p);
    assert a !in ActiveOf(s, p) && ActiveOf(s, p) - {a} == ActiveOf(s, p);
  }

  lemma CountsDown(s: State, t: State, a: Addr, to: Place)
    requires Whole(s.at) && Whole(t.at) && OnlyTouched(s, t, a, to) && Counts(s)
    requires to != InFlight && a in s.at[InFlight] && a in s.req
    requires t.active == s.active[s.req[a].prio := s.active[s.req[a].prio] - 1]
    ensures Counts(t)
  {
    forall p: Prio ensures p in t.active && t.active[p] == |ActiveOf(t, p)| {
      ActiveKept(s, t, a, to, p);
      assert a in ActiveOf(s, p) <==> s.req[a].prio == p;
    }
  }

  lemma NotBoth(at: map<Place, seq<Addr>>, all: set<Addr>, a: Addr, p: Place, q: Place)
    requires Partition(at, all) && a in at[p] && p != q
    ensures a !in at[q]
  {
  }

  lemma RecountStep(s: State, step: Step)
    requires Typed(s) && Partition(s.at, s.req.Keys) && Fields(s) && Counts(s) && Enabled(s, step) && Recounts(s, step)
    ensures Counts(Apply(s, step))
  {
    StepTouches(s, step);
    if step.Start? {
      NotBoth(s.at, s.req.Keys, step.a, Starting, InFlight);
      CountsUp(s, Apply(s, step), step.a);
    } else {
      CountsDown(s, Apply(s, step), s.loop.a, Retiring);
    }
  }

  lemma StepCounts(s: State, step: Step)
    requires Typed(s) && Partition(s.at, s.req.Keys) && Fields(s) && Counts(s) && Enabled(s, step)
    ensures Counts(Apply(s, step))
  {
    var t := Apply(s, step);
    if step.Cancel? {
      forall p: Prio ensures ActiveOf(t, p) == ActiveOf(s, p) {}
    } else if Recounts(s, step) {
      RecountStep(s, step);
    } else {
      if !step.Create? { SourceHolds(s, step); }
      StepTouches(s, step);
      CountsSame(s, t, Touched(s, step), Target(s, step));
    }
  }

  /** Every step keeps the whole invariant. */
  lemma StepInv(s: State, step: Step)
    requires Inv(s) && Enabled(s, step)
    ensures Inv(Apply(s, step))
  {
    StepLedger(s, step);
    StepCounts(s, step);
    if step.Cancel? { CancelFields(s, step.id, step.from); }
    else { StepTouches(s, step); StepFields(s, step); }
  }
}
