/**
 * The life of a request in core/curl.c as a state machine. Callers create,
 * submit, abandon and cancel; the multi-loop thread pops, starts, completes,
 * sweeps and drains. Every critical section is one step, libcurl may complete
 * any active request at any time, and callers may step between a callback and
 * the unlink that follows it.
 */
module CurlLife {
  import opened Seqs
  import opened CurlQueues

  datatype Addr = Addr(n: int)
  datatype Id = Id(n: int)
  datatype Phase = Created | Queued | Active | Done
  datatype Req = Req(id: Id, prio: Prio, phase: Phase, cancelled: bool)

  /** Where a request struct is: with a caller, on a list, in the loop's hands, or on the freelist. */
  datatype Place = Caller | SubQueue(prio: Prio) | Starting | Cancelling | InFlight | Retiring | Free

  /** How a request is given back. Only the last three have a callback. */
  datatype Path = Rejected | Abandoned | StartFailed | LoopEnded | Completed | Swept | Drained

  datatype Call = Call(id: Id, aborted: bool)
  datatype Exit = Exit(id: Id, path: Path)

  /** The loop thread: free, past the callback of a request, or about to release it. */
  datatype Loop = Idle | Called(a: Addr, path: Path) | Unlinked(a: Addr, path: Path)

  datatype State = State(
    at: map<Place, seq<Addr>>,
    req: map<Addr, Req>,
    owner: map<Id, Addr>,
    lastId: int,
    loop: Loop,
    active: map<Prio, int>,
    calls: seq<Call>,
    exits: seq<Exit>)

  predicate Delivers(p: Path) { p.Completed? || p.Swept? || p.Drained? }

  function Fired(calls: seq<Call>, id: Id): (n: int)
    ensures n >= 0
  {
    if |calls| == 0 then 0
    else Fired(calls[..|calls| - 1], id) + if calls[|calls| - 1].id == id then 1 else 0
  }

  function Exits(exits: seq<Exit>, id: Id): (n: int)
    ensures n >= 0
  {
    if |exits| == 0 then 0
    else Exits(exits[..|exits| - 1], id) + if exits[|exits| - 1].id == id then 1 else 0
  }

  lemma FiredAppend(calls: seq<Call>, c: Call, id: Id)
    ensures Fired(calls + [c], id) == Fired(calls, id) + if c.id == id then 1 else 0
  {
    assert (calls + [c])[..|calls|] == calls;
  }

  lemma ExitsAppend(exits: seq<Exit>, e: Exit, id: Id)
    ensures Exits(exits + [e], id) == Exits(exits, id) + if e.id == id then 1 else 0
  {
    assert (exits + [e])[..|exits|] == exits;
  }

  // The lists

  ghost predicate Whole(at: map<Place, seq<Addr>>) { forall p: Place :: p in at }

  /** Every struct is on exactly one list, once. */
  ghost predicate Partition(at: map<Place, seq<Addr>>, all: set<Addr>) {
    && Whole(at)
    && (forall p :: p in at ==> NoDup(at[p]))
    && (forall p, q, a {:trigger a in at[p], a in at[q]} ::
          p in at && q in at && a in at[p] && a in at[q] ==> p == q)
    && (forall a :: a in all <==> OnSome(at, a))
  }

  ghost predicate OnSome(at: map<Place, seq<Addr>>, a: Addr) { exists p :: p in at && a in at[p] }

  /** Unlink `a` from one list and put it on another, at the front or the back. */
  function Moved(at: map<Place, seq<Addr>>, a: Addr, from: Place, to: Place): map<Place, seq<Addr>>
    requires from in at && to in at
  {
    at[from := Remove(at[from], a)][to := if to.SubQueue? then at[to] + [a] else [a] + at[to]]
  }

  /** `at'` is `at` with `a` put on the list `to`, and off any other. */
  ghost predicate Put(at: map<Place, seq<Addr>>, at': map<Place, seq<Addr>>, a: Addr, to: Place)
    requires Whole(at) && Whole(at')
  {
    forall p, x {:trigger x in at'[p]} :: x in at'[p] <==> if x == a then p == to else x in at[p]
  }

  lemma PutKeeps(at: map<Place, seq<Addr>>, at': map<Place, seq<Addr>>, all: set<Addr>, a: Addr, to: Place)
    requires Partition(at, all) && Whole(at') && Put(at, at', a, to)
    requires forall p :: p in at' ==> NoDup(at'[p])
    ensures Partition(at', all + {a})
  {
    forall x ensures x in all + {a} <==> OnSome(at', x) {
      assert a in at'[to];
      if x in all && x != a { var p :| p in at && x in at[p]; assert x in at'[p]; }
      if OnSome(at', x) && x != a { var p :| p in at' && x in at'[p]; assert x in at[p]; }
    }
  }

  lemma MovedKeeps(at: map<Place, seq<Addr>>, all: set<Addr>, a: Addr, from: Place, to: Place)
    requires Partition(at, all) && a in at[from] && from != to
    ensures Partition(Moved(at, a, from, to), all) && Put(at, Moved(at, a, from, to), a, to)
  {
    RemoveMembers(at[from], a);
    NoDupSplit([a], at[to]);
    NoDupSplit(at[to], [a]);
    assert OnSome(at, a) && all + {a} == all;
    PutKeeps(at, Moved(at, a, from, to), all, a, to);
  }

  // The steps

  datatype Step =
    | Create(a: Addr)
    | SetPrio(a: Addr, prio: Prio)
    | Submit(a: Addr)
    | Refuse(a: Addr, path: Path)
    | Cancel(id: Id, from: Place)
    | Pop(prio: Prio)
    | Start(a: Addr)
    | FailStart(a: Addr)
    | Take(a: Addr)
    | Finish(a: Addr, path: Path, aborted: bool)
    | Unlink
    | Release
    | EndLoop(a: Addr)

  ghost predicate Enabled(s: State, step: Step)
    requires Whole(s.at)
  {
    match step
    case Create(a) => if s.at[Free] == [] then a !in s.req else a == s.at[Free][0]
    case SetPrio(a, _) => a in s.at[Caller]
    case Submit(a) => a in s.at[Caller]
    case Refuse(a, path) => a in s.at[Caller] && (path.Rejected? || path.Abandoned?)
    case Cancel(_, from) => from.SubQueue? || from.InFlight?
    case Pop(prio) =>
      && s.loop.Idle? && s.at[Starting] == [] && s.at[SubQueue(prio)] != []
      && forall p :: Index(p) < Index(prio) ==> s.at[SubQueue(p)] == []
    case Start(a) => a in s.at[Starting]
    case FailStart(a) => a in s.at[Starting]
    case Take(a) =>
      && s.loop.Idle? && a in s.req && a in s.at[SubQueue(s.req[a].prio)]
      && (s.req[a].cancelled || s.req[a].prio != Transactional)
    case Finish(a, path, aborted) =>
      && s.loop.Idle? && a in s.req && Delivers(path) && (path.Completed? || aborted)
      && if path.Completed? then a in s.at[InFlight]
         else a in s.at[Cancelling] || (a in s.at[InFlight] && (path.Swept? ==> s.req[a].cancelled))
    case Unlink => s.loop.Called?
    case Release => s.loop.Unlinked?
    case EndLoop(a) => s.loop.Idle? && a in s.req && a in s.at[SubQueue(s.req[a].prio)]
  }

  function Flag(req: map<Addr, Req>, list: seq<Addr>, id: Id): map<Addr, Req> {
    map a | a in req :: if a in list && req[a].id == id then req[a].(cancelled := true) else req[a]
  }

  /** Move a struct and set its phase. */
  function Advance(s: State, a: Addr, from: Place, to: Place, phase: Phase): State
    requires from in s.at && to in s.at && a in s.req
  {
    s.(at := Moved(s.at, a, from, to), req := s.req[a := s.req[a].(phase := phase)])
  }

  /** curl_request_release: back on the freelist, with the reason on record. */
  function GiveBack(s: State, a: Addr, from: Place, path: Path): State
    requires from in s.at && Free in s.at && a in s.req
  {
    s.(at := Moved(s.at, a, from, Free), exits := s.exits + [Exit(s.req[a].id, path)])
  }

  function CreateStep(s: State, a: Addr): State
    requires Free in s.at && Caller in s.at
  {
    var id := Id(s.lastId + 1);
    s.(at := if s.at[Free] == [] then s.at[Caller := [a] + s.at[Caller]] else Moved(s.at, a, Free, Caller),
       req := s.req[a := Req(id, Normal, Created, false)],
       owner := s.owner[id := a],
       lastId := s.lastId + 1)
  }

  /** Every list entry is an allocated struct: what a step may dereference. */
  ghost predicate Typed(s: State) {
    && Whole(s.at) && (forall p: Prio :: p in s.active)
    && (forall p, a {:trigger a in s.at[p]} :: p in s.at && a in s.at[p] ==> a in s.req)
    && (s.loop.Idle? || s.loop.a in s.req)
  }

  ghost function Apply(s: State, step: Step): State
    requires Typed(s) && Enabled(s, step)
  {
    match step
    case Create(a) => CreateStep(s, a)
    case SetPrio(a, prio) => s.(req := s.req[a := s.req[a].(prio := prio)])
    case Submit(a) => Advance(s, a, Caller, SubQueue(s.req[a].prio), Queued)
    case Refuse(a, path) => GiveBack(s, a, Caller, path)
    case Cancel(id, from) => s.(req := Flag(s.req, s.at[from], id))
    case Pop(prio) =>
      var a := s.at[SubQueue(prio)][0];
      assert a in s.at[SubQueue(prio)];
      Advance(s, a, SubQueue(prio), Starting, Queued)
    case Start(a) =>
      var p := s.req[a].prio;
      Advance(s, a, Starting, InFlight, Active).(active := s.active[p := s.active[p] + 1])
    case FailStart(a) => GiveBack(s, a, Starting, StartFailed)
    case Take(a) => Advance(s, a, SubQueue(s.req[a].prio), Cancelling, Queued)
    case Finish(a, path, aborted) =>
      s.(req := s.req[a := s.req[a].(phase := Done)],
         calls := s.calls + [Call(s.req[a].id, aborted)],
         loop := Called(a, path))
    case Unlink =>
      var a, p := s.loop.a, s.req[s.loop.a].prio;
      if a in s.at[InFlight] then
        Advance(s, a, InFlight, Retiring, Done).(loop := Unlinked(a, s.loop.path),
                                                 active := s.active[p := s.active[p] - 1])
      else Advance(s, a, Cancelling, Retiring, Done).(loop := Unlinked(a, s.loop.path))
    case Release => GiveBack(s, s.loop.a, Retiring, s.loop.path).(loop := Idle)
    case EndLoop(a) => GiveBack(s, a, SubQueue(s.req[a].prio), LoopEnded)
  }

  // The invariant

  ghost predicate FieldsOk(s: State, p: Place, a: Addr) {
    a in s.req &&
    var r := s.req[a];
    match p
    case Caller => r.phase.Created?
    case SubQueue(q) => r.phase.Queued? && r.prio == q
    case Starting => r.phase.Queued?
    case Cancelling => r.phase == if s.loop.Called? && s.loop.a == a then Done else Queued
    case InFlight => r.phase == if s.loop.Called? && s.loop.a == a then Done else Active
    case Retiring => r.phase.Done? && s.loop.Unlinked? && s.loop.a == a
    case Free => true
  }

  /** A list holds requests in its own phase, and a sub-queue those of its own priority. */
  ghost predicate Fields(s: State)
    requires Whole(s.at)
  {
    && (forall p, a {:trigger a in s.at[p]} :: p in s.at && a in s.at[p] ==> FieldsOk(s, p, a))
    && LoopOk(s)
  }

  ghost predicate LoopOk(s: State)
    requires Whole(s.at)
  {
    && (s.loop.Called? ==> Delivers(s.loop.path) && (s.loop.a in s.at[InFlight] || s.loop.a in s.at[Cancelling]))
    && (s.loop.Unlinked? ==> Delivers(s.loop.path) && s.loop.a in s.at[Retiring])
  }

  /** The request numbered `id` has been created and not yet given back. */
  ghost predicate Live(s: State, id: Id) {
    && Free in s.at && id in s.owner && s.owner[id] in s.req
    && s.owner[id] !in s.at[Free] && s.req[s.owner[id]].id == id
  }

  /** Callbacks fired for `id` and its number of exits, as its life so far demands. */
  ghost predicate Booked(s: State, id: Id) {
    && Exits(s.exits, id) == (if id in s.owner && !Live(s, id) then 1 else 0)
    && (Live(s, id) ==> Fired(s.calls, id) == if s.req[s.owner[id]].phase.Done? then 1 else 0)
    && (id !in s.owner ==> Fired(s.calls, id) == 0)
  }

  ghost predicate ExitOk(s: State, e: Exit) {
    && Fired(s.calls, e.id) == (if Delivers(e.path) then 1 else 0)
    && (e.path.Swept? || e.path.Drained? ==> AllAborted(s.calls, e.id))
  }

  ghost predicate AllAborted(calls: seq<Call>, id: Id) { forall c :: c in calls && c.id == id ==> c.aborted }

  ghost predicate Ledger(s: State)
    requires Whole(s.at)
  {
    && (forall id :: id in s.owner <==> 1 <= id.n <= s.lastId)
    && s.lastId >= 0
    && (forall id :: id in s.owner ==> s.owner[id] in s.req)
    && (forall a :: a in s.req && a !in s.at[Free] ==> s.req[a].id in s.owner && s.owner[s.req[a].id] == a)
    && (forall id {:trigger Booked(s, id)} :: Booked(s, id))
    && (forall e :: e in s.exits ==> ExitOk(s, e))
    && (!s.loop.Idle? && !s.loop.path.Completed? ==> s.loop.a in s.req && AllAborted(s.calls, s.req[s.loop.a].id))
  }

  ghost function ActiveOf(s: State, p: Prio): set<Addr>
    requires InFlight in s.at
  {
    set a | a in s.at[InFlight] && a in s.req && s.req[a].prio == p
  }

  /** curl_active_qs holds the number of in-flight requests of each class. */
  ghost predicate Counts(s: State) {
    && InFlight in s.at
    && forall p: Prio :: p in s.active && s.active[p] == |ActiveOf(s, p)|
  }

  ghost predicate Inv(s: State) {
    Typed(s) && Partition(s.at, s.req.Keys) && Fields(s) && Ledger(s) && Counts(s)
  }
}
