/** What holds of every curl request over every run. */
module CurlTheorems {
  import opened Seqs
  import opened CurlQueues
  import opened CurlLife
  import opened CurlLedger
  import opened CurlSteps

  const PLACES := {Caller, SubQueue(Transactional), SubQueue(Normal), SubQueue(Bulk),
                   Starting, Cancelling, InFlight, Retiring, Free}

  const Empty := State(map p | p in PLACES :: [], map[], map[], 0, Idle,
                       map[Transactional := 0, Normal := 0, Bulk := 0], [], [])

  ghost predicate Next(s: State, t: State) {
    Typed(s) && exists step :: Enabled(s, step) && t == Apply(s, step)
  }

  ghost predicate Run(tr: seq<State>) {
    && |tr| > 0 && tr[0] == Empty
    && forall i :: 0 <= i < |tr| - 1 ==> Next(tr[i], tr[i + 1])
  }

  lemma EmptyInv()
    ensures Inv(Empty)
  {
    forall p: Place ensures p in Empty.at {
      match p { case SubQueue(q) => match q { case Transactional => case Normal => case Bulk => } case _ => }
    }
    forall p: Prio ensures p in Empty.active && Empty.active[p] == 0 {
      match p { case Transactional => case Normal => case Bulk => }
    }
    forall p: Prio ensures ActiveOf(Empty, p) == {} {}
    forall id ensures Booked(Empty, id) {}
  }

  lemma {:induction false} RunInv(tr: seq<State>, k: nat)
    requires Run(tr) && k < |tr|
    ensures Inv(tr[k])
  {
    if k == 0 {
      EmptyInv();
    } else {
      RunInv(tr, k - 1);
      assert Next(tr[k - 1], tr[k]);
      var step :| Enabled(tr[k - 1], step) && tr[k] == Apply(tr[k - 1], step);
      StepInv(tr[k - 1], step);
    }
  }

  /** In every reachable state a request struct is in one place, and there once. */
  lemma OnePlace(tr: seq<State>, k: nat, a: Addr) returns (p: Place)
    requires Run(tr) && k < |tr| && a in tr[k].req
    ensures Whole(tr[k].at) && a in tr[k].at[p] && NoDup(tr[k].at[p])
    ensures forall q: Place :: a in tr[k].at[q] ==> q == p
    ensures p.SubQueue? ==> tr[k].req[a].prio == p.prio
  {
    RunInv(tr, k);
    assert OnSome(tr[k].at, a);
    p :| p in tr[k].at && a in tr[k].at[p];
  }

  /** No request is called back twice, in any run. */
  lemma CalledAtMostOnce(tr: seq<State>, k: nat, id: Id)
    requires Run(tr) && k < |tr|
    ensures Fired(tr[k].calls, id) <= 1
  {
    var s := tr[k];
    RunInv(tr, k);
    assert Booked(s, id);
    if id in s.owner && !Live(s, id) { GoneHasExit(s, id); }
  }

  lemma GoneHasExit(s: State, id: Id)
    requires Whole(s.at) && Ledger(s) && Exits(s.exits, id) == 1
    ensures Fired(s.calls, id) <= 1
  {
    var e := SomeExit(s.exits, id);
    assert ExitOk(s, e);
  }

  lemma {:induction false} SomeExit(exits: seq<Exit>, id: Id) returns (e: Exit)
    requires Exits(exits, id) >= 1
    ensures e in exits && e.id == id
  {
    var n := |exits| - 1;
    if exits[n].id == id { e := exits[n]; } else { e := SomeExit(exits[..n], id); }
  }

  /**
   * A request given back was given back once. It was called back exactly once
   * if it completed, was swept or was drained (aborted, in the last two
   * cases), and never if it was refused, abandoned, failed to start, or was
   * left in a queue when the loop ended.
   */
  lemma CalledOnceIffDelivered(tr: seq<State>, k: nat, e: Exit)
    requires Run(tr) && k < |tr| && e in tr[k].exits
    ensures Exits(tr[k].exits, e.id) == 1
    ensures Fired(tr[k].calls, e.id) == if Delivers(e.path) then 1 else 0
    ensures e.path.Swept? || e.path.Drained? ==> AllAborted(tr[k].calls, e.id)
  {
    RunInv(tr, k);
    ExitedIsGone(tr[k], e);
    assert ExitOk(tr[k], e);
  }

  /** A cancel by id flags the live request of that id if it is on the list, and changes nothing else. */
  lemma CancelHitsItsRequest(tr: seq<State>, k: nat, id: Id, from: Place, a: Addr)
    requires Run(tr) && k < |tr| && (from.SubQueue? || from.InFlight?) && a in tr[k].req
    ensures Typed(tr[k])
    ensures var s := tr[k];
      Apply(s, Cancel(id, from)).req[a] ==
      if Live(s, id) && s.owner[id] == a && a in s.at[from] then s.req[a].(cancelled := true) else s.req[a]
  {
    RunInv(tr, k);
    var s := tr[k];
    if a in s.at[from] { NotBoth(s.at, s.req.Keys, a, from, Free); }
  }

  lemma StepExits(s: State, step: Step, id: Id)
    requires Typed(s) && Enabled(s, step)
    ensures Exits(s.exits, id) <= Exits(Apply(s, step).exits, id)
  {
    var t := Apply(s, step);
    match step
    case Refuse(a, path) => ExitsAppend(s.exits, Exit(s.req[a].id, path), id);
    case FailStart(a) => ExitsAppend(s.exits, Exit(s.req[a].id, StartFailed), id);
    case Release => ExitsAppend(s.exits, Exit(s.req[s.loop.a].id, s.loop.path), id);
    case EndLoop(a) => ExitsAppend(s.exits, Exit(s.req[a].id, LoopEnded), id);
    case _ =>
  }

  lemma {:induction false} ExitsStay(tr: seq<State>, j: nat, k: nat, id: Id)
    requires Run(tr) && j <= k < |tr|
    ensures Exits(tr[j].exits, id) <= Exits(tr[k].exits, id)
  {
    if j < k {
      ExitsStay(tr, j, k - 1, id);
      assert Next(tr[k - 1], tr[k]);
      var step :| Enabled(tr[k - 1], step) && tr[k] == Apply(tr[k - 1], step);
      StepExits(tr[k - 1], step, id);
    }
  }

  /** Once a request is given back, a cancel of its id does nothing, even after its struct is reused. */
  lemma CancelAfterExit(tr: seq<State>, j: nat, k: nat, id: Id, from: Place)
    requires Run(tr) && j <= k < |tr| && Exits(tr[j].exits, id) >= 1
    requires from.SubQueue? || from.InFlight?
    ensures Typed(tr[k]) && Apply(tr[k], Cancel(id, from)) == tr[k]
  {
    var s := tr[k];
    RunInv(tr, k);
    ExitsStay(tr, j, k, id);
    assert Booked(s, id);
    forall a | a in s.req ensures Flag(s.req, s.at[from], id)[a] == s.req[a] {
      CancelHitsItsRequest(tr, k, id, from, a);
    }
    assert Flag(s.req, s.at[from], id) == s.req;
  }

  /** curl_active_qs always holds the number of requests of each class on the in-flight list. */
  lemma ActiveCounted(tr: seq<State>, k: nat, p: Prio)
    requires Run(tr) && k < |tr|
    ensures InFlight in tr[k].at && p in tr[k].active && tr[k].active[p] == |ActiveOf(tr[k], p)|
  {
    RunInv(tr, k);
  }
}
