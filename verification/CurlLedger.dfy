/** Every step of the request life keeps the lists, the fields, the ledger and the counts. */
module CurlLedger {
  import opened Seqs
  import opened CurlQueues
  import opened CurlLife

  /** A step that changes no identity, no Done flag, no freelist and no log keeps the ledger. */
  lemma SameBooks(s: State, t: State)
    requires Whole(s.at) && Ledger(s) && Whole(t.at)
    requires t.owner == s.owner && t.lastId == s.lastId && t.calls == s.calls && t.exits == s.exits
    requires t.req.Keys == s.req.Keys
    requires forall a :: a in s.req ==> t.req[a].id == s.req[a].id && (t.req[a].phase.Done? <==> s.req[a].phase.Done?)
    requires forall a :: a in t.at[Free] <==> a in s.at[Free]
    requires t.loop == s.loop || (s.loop.Called? && t.loop == Unlinked(s.loop.a, s.loop.path))
    ensures Ledger(t)
  {
    forall id ensures Booked(t, id) {
      assert Booked(s, id);
      assert Live(t, id) <==> Live(s, id);
    }
    forall e | e in t.exits ensures ExitOk(t, e) { assert ExitOk(s, e); }
  }

  /** `t` is `s` with the callback of `a` fired. */
  lemma FinishBooks(s: State, t: State, a: Addr, path: Path, aborted: bool)
    requires Whole(s.at) && Ledger(s) && a in s.req && a !in s.at[Free] && !s.req[a].phase.Done?
    requires path.Completed? || aborted
    requires t.at == s.at && t.owner == s.owner && t.lastId == s.lastId && t.exits == s.exits
    requires t.req == s.req[a := s.req[a].(phase := Done)] && t.loop == Called(a, path)
    requires t.calls == s.calls + [Call(s.req[a].id, aborted)]
    ensures Ledger(t)
  {
    var id0 := s.req[a].id;
    var c := Call(id0, aborted);
    assert Live(s, id0) && Booked(s, id0);
    forall id ensures Booked(t, id) {
      assert Booked(s, id);
      FiredAppend(s.calls, c, id);
      assert Live(t, id) <==> Live(s, id);
    }
    forall e | e in t.exits ensures ExitOk(t, e) {
      assert ExitOk(s, e);
      ExitedIsGone(s, e);
      FiredAppend(s.calls, c, e.id);
    }
    FiredZero(s.calls, id0);
  }

  lemma {:induction false} FiredZero(calls: seq<Call>, id: Id)
    ensures Fired(calls, id) == 0 <==> forall c :: c in calls ==> c.id != id
  {
    if |calls| > 0 {
      var n := |calls| - 1;
      FiredZero(calls[..n], id);
      assert calls == calls[..n] + [calls[n]];
    }
  }

  lemma {:induction false} ExitsCount(exits: seq<Exit>, e: Exit)
    requires e in exits
    ensures Exits(exits, e.id) >= 1
  {
    var n := |exits| - 1;
    assert exits == exits[..n] + [exits[n]];
    if exits[n] != e { ExitsCount(exits[..n], e); }
  }

  lemma ExitedIsGone(s: State, e: Exit)
    requires Whole(s.at) && Ledger(s) && e in s.exits
    ensures e.id in s.owner && !Live(s, e.id) && Exits(s.exits, e.id) == 1
  {
    ExitsCount(s.exits, e);
    assert Booked(s, e.id);
  }

  /** `t` is `s` with `a` on the freelist and its exit on record. */
  lemma ExitBooks(s: State, t: State, a: Addr, path: Path)
    requires Whole(s.at) && Whole(t.at) && Ledger(s) && a in s.req && a !in s.at[Free]
    requires t.req == s.req && t.owner == s.owner && t.lastId == s.lastId && t.calls == s.calls
    requires t.exits == s.exits + [Exit(s.req[a].id, path)]
    requires forall x :: x in t.at[Free] <==> x in s.at[Free] || x == a
    requires t.loop.Idle? || t.loop == s.loop
    requires s.req[a].phase.Done? <==> Delivers(path)
    requires path.Swept? || path.Drained? ==> AllAborted(s.calls, s.req[a].id)
    ensures Ledger(t)
  {
    var id0 := s.req[a].id;
    assert Live(s, id0) && Booked(s, id0);
    forall id ensures Booked(t, id) {
      assert Booked(s, id);
      ExitsAppend(s.exits, Exit(id0, path), id);
      assert id != id0 ==> (Live(t, id) <==> Live(s, id));
    }
    forall e | e in t.exits ensures ExitOk(t, e) {
      if e in s.exits { assert ExitOk(s, e); }
    }
  }

  /** `t` is `s` with `a`, new or off the freelist, carrying the next id. */
  lemma CreateBooks(s: State, t: State, a: Addr)
    requires Whole(s.at) && Whole(t.at) && Ledger(s) && (a in s.req ==> a in s.at[Free])
    requires t.lastId == s.lastId + 1 && t.owner == s.owner[Id(t.lastId) := a]
    requires t.req == s.req[a := Req(Id(t.lastId), Normal, Created, false)]
    requires t.calls == s.calls && t.exits == s.exits && t.loop == s.loop && (!s.loop.Idle? ==> s.loop.a != a)
    requires forall x :: x in t.at[Free] <==> x in s.at[Free] && x != a
    ensures Ledger(t)
  {
    var id0 := Id(t.lastId);
    assert id0 !in s.owner;
    forall id ensures Booked(t, id) {
      assert Booked(s, id);
      assert id != id0 ==> (Live(t, id) <==> Live(s, id));
    }
    forall e | e in t.exits ensures ExitOk(t, e) { assert ExitOk(s, e); }
  }

  lemma CreatePartition(s: State, a: Addr)
    requires Partition(s.at, s.req.Keys) && Enabled(s, Create(a))
    ensures Partition(CreateStep(s, a).at, CreateStep(s, a).req.Keys)
    ensures Put(s.at, CreateStep(s, a).at, a, Caller) && (a in s.req ==> a in s.at[Free])
  {
    if s.at[Free] == [] {
      NoDupSplit([a], s.at[Caller]);
      assert !OnSome(s.at, a);
      PutKeeps(s.at, CreateStep(s, a).at, s.req.Keys, a, Caller);
    } else {
      MovedKeeps(s.at, s.req.Keys, a, Free, Caller);
      assert OnSome(s.at, a) by { assert a in s.at[Free]; }
      assert CreateStep(s, a).req.Keys == s.req.Keys;
    }
  }

  // Fields

  predicate Mine(l: Loop, a: Addr) { l.Idle? || l.a == a }

  /** Only `a` moved or changed, and the loop did not change hands between other requests. */
  ghost predicate OnlyTouched(s: State, t: State, a: Addr, to: Place)
    requires Whole(s.at) && Whole(t.at)
  {
    && Put(s.at, t.at, a, to)
    && a in t.req && t.req.Keys == s.req.Keys + {a}
    && (forall x :: x in s.req && x != a ==> t.req[x] == s.req[x])
    && (t.loop == s.loop || (Mine(s.loop, a) && Mine(t.loop, a)))
  }

  lemma FieldsKept(s: State, t: State, a: Addr, to: Place)
    requires Whole(s.at) && Whole(t.at) && Fields(s) && OnlyTouched(s, t, a, to)
    requires FieldsOk(t, to, a) && LoopOk(t)
    ensures Fields(t)
  {
    forall p, x | p in t.at && x in t.at[p] ensures FieldsOk(t, p, x) {
      if x != a { assert x in s.at[p] && FieldsOk(s, p, x); }
    }
  }

  lemma CancelFields(s: State, id: Id, from: Place)
    requires Whole(s.at) && Fields(s)
    ensures Fields(s.(req := Flag(s.req, s.at[from], id)))
  {
    var t := s.(req := Flag(s.req, s.at[from], id));
    forall p, x | p in t.at && x in t.at[p] ensures FieldsOk(t, p, x) {
      assert FieldsOk(s, p, x);
    }
  }

  // Counts

  lemma ActiveKept(s: State, t: State, a: Addr, to: Place, p: Prio)
    requires Whole(s.at) && Whole(t.at) && OnlyTouched(s, t, a, to)
    ensures ActiveOf(t, p) == ActiveOf(s, p) - {a} + if to == InFlight && t.req[a].prio == p then {a} else {}
  {
  }
}
