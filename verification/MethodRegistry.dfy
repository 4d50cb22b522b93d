/** The list walks of core/method.c, each proved against the section it implements. */
module MethodRegistry {
  import opened Ascii
  import opened Options
  import opened MethodProtocol

  class Registry {
    var heap: map<Addr, Inst>
    var list: seq<Addr>

    /** The lookup shared by method_register, method_unregister and method_find. */
    method Lookup(name: string) returns (r: Option<Addr>)
      ensures r == FindName(heap, list, name)
    {
      var i := 0;
      while i < |list|
        invariant 0 <= i <= |list| && FindName(heap, list[i..], name) == FindName(heap, list, name)
      {
        assert list[i..][0] == list[i] && list[i..][1..] == list[i + 1..];
        if list[i] in heap && Same(heap[list[i]].name, name) { return Some(list[i]); }
        i := i + 1;
      }
      r := None;
    }

    /** method_find: the instance, with a reference taken under the lock that publishes the list. */
    method Find(name: string) returns (r: Option<Addr>)
      modifies this`heap
      ensures r == if name == "" then None else FindName(old(heap), list, name)
      ensures heap == if r.None? then old(heap)
                      else old(heap)[r.value := old(heap)[r.value].(refs := old(heap)[r.value].refs + 1)]
    {
      if name == "" { return None; }
      r := Lookup(name);
      if r.Some? { heap := heap[r.value := heap[r.value].(refs := heap[r.value].refs + 1)]; }
    }

    static method SubIndex(subs: seq<Sub>, name: string) returns (i: int)
      ensures i == FindSub(subs, name)
    {
      var k := 0;
      while k < |subs|
        invariant 0 <= k <= |subs|
        invariant FindSub(subs, name) == var j := FindSub(subs[k..], name); if j < 0 then -1 else k + j
      {
        assert subs[k..][0] == subs[k] && subs[k..][1..] == subs[k + 1..];
        if Same(subs[k].name, name) { return k; }
        k := k + 1;
      }
      i := -1;
    }

    /** method_subscribe: refused for a name already there or a full list, else first in line. */
    method Subscribe(a: Addr, sub: Sub) returns (ok: bool)
      requires a in heap
      modifies this`heap
      ensures ok <==> sub.name != "" && FindSub(old(heap)[a].subs, sub.name) < 0 && |old(heap)[a].subs| < MAX_SUBS
      ensures heap == if ok then old(heap)[a := old(heap)[a].(subs := SubscribeSubs(old(heap)[a].subs, sub))] else old(heap)
      ensures ok ==> heap[a].subs == [Sub(Upto(sub.name, NAME_SZ - 1), sub.cb)] + old(heap)[a].subs
    {
      if sub.name == "" { return false; }
      var i := SubIndex(heap[a].subs, sub.name);
      if i >= 0 || |heap[a].subs| >= MAX_SUBS { return false; }
      heap := heap[a := heap[a].(subs := [sub.(name := Stored(sub.name))] + heap[a].subs)];
      ok := true;
    }

    /** One subscriber that answers to the name is gone, the others are where they were. */
    static ghost predicate TakenOut(before: seq<Sub>, after: seq<Sub>, name: string) {
      exists i :: 0 <= i < |before| && Same(before[i].name, name) && after == before[..i] + before[i + 1..]
    }

    /** method_unsubscribe: the first subscriber of that name goes, the others keep their order. */
    method Unsubscribe(a: Addr, name: string) returns (ok: bool)
      requires a in heap
      modifies this`heap
      ensures ok <==> name != "" && FindSub(old(heap)[a].subs, name) >= 0
      ensures heap == if ok then old(heap)[a := old(heap)[a].(subs := UnsubscribeSubs(old(heap)[a].subs, name))] else old(heap)
      ensures ok ==> TakenOut(old(heap)[a].subs, heap[a].subs, name)
    {
      if name == "" { return false; }
      var subs := heap[a].subs;
      var i := SubIndex(subs, name);
      if i < 0 { return false; }
      heap := heap[a := heap[a].(subs := subs[..i] + subs[i + 1..])];
      ok := true;
    }

    /** The snapshot loop of method_deliver, into its fixed array. */
    method Copy(a: Addr, cbs: array<Sub>) returns (n: nat)
      requires a in heap && cbs.Length == MAX_SUBS
      modifies cbs
      ensures n <= MAX_SUBS && cbs[..n] == Snapshot(heap[a].subs)
    {
      var subs := heap[a].subs;
      n := 0;
      while n < |subs| && n < MAX_SUBS
        invariant n <= |subs| && n <= MAX_SUBS && cbs[..n] == subs[..n]
      {
        cbs[n] := subs[n];
        n := n + 1;
      }
    }
  }
}
