/**
 * The shared half of the bot registry: one function per critical section of
 * core/bot.c that runs under bot_mutex, and a class whose methods carry the
 * same sections out in place. Memory is an explicit map from addresses to
 * instances, so that a freed instance is an address that is no longer there.
 */
module BotRegistry {
  import opened Options
  import opened Seqs

  datatype Addr = Addr(n: int)
  type Id = int
  type Handle = int

  /** A driver vtable: where it lives, its name, and which callbacks it has. */
  datatype Driver = Driver(at: nat, name: string, create: bool, stop: bool, destroy: bool)

  /** What a detached driver still owes: the arguments of bot_driver_teardown. */
  datatype Teardown = Teardown(drv: Driver, handle: Option<Handle>, stop: bool)

  datatype Inst = Inst(
    id: Id,
    driver: Option<Driver>,
    handle: Option<Handle>,
    running: bool,
    suspended: Option<string>,   // driver to re-attach after a reload
    refs: int,
    dyingDrv: Option<Driver>,
    dyingHandle: Option<Handle>,
    dyingStop: bool,
    doomed: bool)

  datatype Shared = Shared(heap: map<Addr, Inst>, list: seq<Addr>, deferred: int)

  /** Every node of a list is an instance in memory. */
  predicate Linked(heap: map<Addr, Inst>, list: seq<Addr>) {
    forall i :: 0 <= i < |list| ==> list[i] in heap
  }

  lemma ListLinked(heap: map<Addr, Inst>, list: seq<Addr>)
    requires forall a :: a in list ==> a in heap
    ensures Linked(heap, list)
  {
    AllIndices(list, heap);
  }

  /** The first instance on the list carrying `id` with a driver attached. */
  function FindBot(heap: map<Addr, Inst>, list: seq<Addr>, id: Id): (r: Option<Addr>)
    requires Linked(heap, list)
    ensures r.Some? ==> r.value in list && heap[r.value].id == id && heap[r.value].driver.Some?
    ensures r.None? ==> forall i :: 0 <= i < |list| ==> heap[list[i]].id != id || heap[list[i]].driver.None?
  {
    if list == [] then None
    else if heap[list[0]].id == id && heap[list[0]].driver.Some? then Some(list[0])
    else FindBot(heap, list[1..], id)
  }

  function AcquireSection(sh: Shared, a: Addr): Shared
    requires a in sh.heap
  {
    sh.(heap := sh.heap[a := sh.heap[a].(refs := sh.heap[a].refs + 1)])
  }

  function ClaimSection(sh: Shared, a: Addr): (Shared, Option<Teardown>)
    requires a in sh.heap
  {
    var i := sh.heap[a];
    if i.refs == 1 && i.dyingDrv.Some? then
      (sh.(heap := sh.heap[a := i.(dyingDrv := None, dyingHandle := None, dyingStop := false)]),
       Some(Teardown(i.dyingDrv.value, i.dyingHandle, i.dyingStop)))
    else
      (sh, None)
  }

  function DropSection(sh: Shared, a: Addr): (Shared, bool)
    requires a in sh.heap
  {
    var i := sh.heap[a].(refs := sh.heap[a].refs - 1);
    var free := i.refs == 0 && i.doomed;
    (Shared(sh.heap[a := i], sh.list, if free then sh.deferred - 1 else sh.deferred), free)
  }

  function DetachSection(sh: Shared, a: Addr, stop: bool): (Shared, Option<Teardown>)
    requires a in sh.heap
  {
    var i := sh.heap[a];
    var off := i.(driver := None, handle := None);
    if i.driver.None? then
      (sh.(heap := sh.heap[a := off]), None)
    else if i.refs == 0 then
      (sh.(heap := sh.heap[a := off]), Some(Teardown(i.driver.value, i.handle, stop)))
    else
      (sh.(heap := sh.heap[a := off.(dyingDrv := i.driver, dyingHandle := i.handle, dyingStop := stop)]), None)
  }

  function UnlinkSection(sh: Shared, a: Addr): (Shared, bool)
    requires a in sh.heap
  {
    var i := sh.heap[a].(doomed := true);
    var now := i.refs == 0;
    (Shared(sh.heap[a := i], Remove(sh.list, a), if now then sh.deferred else sh.deferred + 1), now)
  }

  function ResumeSection(sh: Shared, a: Addr, drv: Driver, handle: Option<Handle>): Shared
    requires a in sh.heap
  {
    sh.(heap := sh.heap[a := sh.heap[a].(driver := Some(drv), handle := handle, suspended := None)])
  }

  /** The instances bot_suspend_driver takes: bound to `name`, in list order, at most `cap`. */
  function Bound(heap: map<Addr, Inst>, list: seq<Addr>, name: string, cap: nat): seq<Addr>
    requires Linked(heap, list)
  {
    if list == [] || cap == 0 then []
    else if heap[list[0]].driver.Some? && heap[list[0]].driver.value.name == name then
      [list[0]] + Bound(heap, list[1..], name, cap - 1)
    else Bound(heap, list[1..], name, cap)
  }

  ghost predicate Uses(i: Inst, name: string) { exists drv :: i.driver == Some(drv) && drv.name == name }

  /** The listed instances whose driver has the name. */
  ghost function Users(heap: map<Addr, Inst>, list: seq<Addr>, name: string): (r: seq<Addr>)
    requires Linked(heap, list)
    ensures forall a :: a in r <==> a in list && Uses(heap[a], name)
  {
    if list == [] then []
    else (if Uses(heap[list[0]], name) then [list[0]] else []) + Users(heap, list[1..], name)
  }

  /** bot_suspend_driver takes the first `cap` users of the driver, in list order. */
  lemma {:induction false} BoundIsFirst(heap: map<Addr, Inst>, list: seq<Addr>, name: string, cap: nat)
    requires Linked(heap, list)
    ensures var all := Users(heap, list, name);
      Bound(heap, list, name, cap) == all[..if cap < |all| then cap else |all|]
  {
    if list != [] && cap > 0 {
      var rest := Users(heap, list[1..], name);
      if heap[list[0]].driver.Some? && heap[list[0]].driver.value.name == name {
        assert Uses(heap[list[0]], name);
        BoundIsFirst(heap, list[1..], name, cap - 1);
        assert ([list[0]] + rest)[..if cap < |rest| + 1 then cap else |rest| + 1]
            == [list[0]] + rest[..if cap - 1 < |rest| then cap - 1 else |rest|];
      } else {
        assert !Uses(heap[list[0]], name);
        BoundIsFirst(heap, list[1..], name, cap);
        assert [] + rest == rest;
      }
    }
  }

  function SuspendSection(sh: Shared, targets: seq<Addr>, name: string): Shared
  {
    sh.(heap := map a | a in sh.heap ::
      if a in targets then sh.heap[a].(suspended := Some(name)) else sh.heap[a])
  }

  /** bot_driver_inflight_owned: instances with holders whose vtable lies in [lo, hi). */
  predicate CountsFor(i: Inst, lo: nat, hi: nat) {
    i.refs != 0 &&
    var drv := if i.driver.Some? then i.driver else i.dyingDrv;
    drv.Some? && lo <= drv.value.at < hi
  }

  function InflightOwned(heap: map<Addr, Inst>, list: seq<Addr>, lo: nat, hi: nat): nat
    requires Linked(heap, list)
  {
    if list == [] then 0
    else InflightOwned(heap, list[..|list| - 1], lo, hi)
         + (if CountsFor(heap[list[|list| - 1]], lo, hi) then 1 else 0)
  }

  /** The poll reads non-zero exactly when some listed instance counts. */
  lemma {:induction false} InflightNonZeroIff(heap: map<Addr, Inst>, list: seq<Addr>, lo: nat, hi: nat)
    requires Linked(heap, list)
    ensures InflightOwned(heap, list, lo, hi) > 0 <==> exists i :: 0 <= i < |list| && CountsFor(heap[list[i]], lo, hi)
  {
    if list != [] {
      var n := |list| - 1;
      InflightNonZeroIff(heap, list[..n], lo, hi);
      assert forall i :: 0 <= i < n ==> list[..n][i] == list[i];
    }
  }

  /** bot_list, bot_deferred_frees and the instances, changed in place under bot_mutex. */
  class Registry {
    var heap: map<Addr, Inst>
    var list: seq<Addr>
    var deferred: int

    ghost function Snapshot(): Shared
      reads this
    {
      Shared(heap, list, deferred)
    }

    /** bot_driver_acquire. */
    method Acquire(id: Id) returns (found: Option<Addr>, handle: Option<Handle>)
      requires Linked(heap, list)
      modifies this
      ensures found == FindBot(old(heap), old(list), id)
      ensures found.None? ==> Snapshot() == old(Snapshot())
      ensures found.Some? ==> Snapshot() == AcquireSection(old(Snapshot()), found.value)
      ensures found.Some? ==> handle == old(heap)[found.value].handle
    {
      found, handle := None, None;
      var i := 0;
      while i < |list|
        invariant 0 <= i <= |list|
        invariant Snapshot() == old(Snapshot())
        invariant FindBot(heap, list, id) == FindBot(heap, list[i..], id)
      {
        var b := list[i];
        if heap[b].id == id && heap[b].driver.Some? {
          found, handle := Some(b), heap[b].handle;
          heap := heap[b := heap[b].(refs := heap[b].refs + 1)];
          return;
        }
        i := i + 1;
      }
    }

    /** The first section of bot_release. */
    method Claim(a: Addr) returns (owed: Option<Teardown>)
      requires a in heap
      modifies this
      ensures (Snapshot(), owed) == ClaimSection(old(Snapshot()), a)
    {
      owed := None;
      if heap[a].refs == 1 && heap[a].dyingDrv.Some? {
        owed := Some(Teardown(heap[a].dyingDrv.value, heap[a].dyingHandle, heap[a].dyingStop));
        heap := heap[a := heap[a].(dyingDrv := None, dyingHandle := None, dyingStop := false)];
      }
    }

    /** The second section of bot_release. */
    method Drop(a: Addr) returns (free: bool)
      requires a in heap
      modifies this
      ensures (Snapshot(), free) == DropSection(old(Snapshot()), a)
    {
      heap := heap[a := heap[a].(refs := heap[a].refs - 1)];
      free := heap[a].refs == 0 && heap[a].doomed;
      if free { deferred := deferred - 1; }
    }

    /** The section of bot_driver_detach. */
    method Detach(a: Addr, stop: bool) returns (now: Option<Teardown>)
      requires a in heap
      modifies this
      ensures (Snapshot(), now) == DetachSection(old(Snapshot()), a, stop)
    {
      var drv, handle, held := heap[a].driver, heap[a].handle, heap[a].refs;
      now := None;
      heap := heap[a := heap[a].(driver := None, handle := None)];
      if drv.Some? {
        if held == 0 {
          now := Some(Teardown(drv.value, handle, stop));
        } else {
          heap := heap[a := heap[a].(dyingDrv := drv, dyingHandle := handle, dyingStop := stop)];
          assert heap == old(heap)[a := heap[a]];
        }
      }
    }

    /** The unlink section of bot_destroy. */
    method UnlinkDoomed(a: Addr) returns (now: bool)
      requires a in heap
      modifies this
      ensures (Snapshot(), now) == UnlinkSection(old(Snapshot()), a)
    {
      var i := 0;
      while i < |list| && list[i] != a
        invariant 0 <= i <= |list|
        invariant a !in list[..i]
      {
        i := i + 1;
      }
      if i < |list| {
        RemoveFirst(list, i);
        list := list[..i] + list[i + 1..];
      }
      heap := heap[a := heap[a].(doomed := true)];
      now := heap[a].refs == 0;
      if !now { deferred := deferred + 1; }
    }

    /** bot_driver_inflight_owned. */
    method CountInflight(lo: nat, hi: nat) returns (n: nat)
      requires Linked(heap, list)
      ensures n == if lo >= hi then 0 else InflightOwned(heap, list, lo, hi)
    {
      n := 0;
      if lo >= hi { return; }
      var i := 0;
      while i < |list|
        invariant 0 <= i <= |list|
        invariant n == InflightOwned(heap, list[..i], lo, hi)
      {
        assert list[..i + 1][..i] == list[..i];
        if CountsFor(heap[list[i]], lo, hi) { n := n + 1; }
        i := i + 1;
      }
      assert list[..i] == list;
    }
  }
}
