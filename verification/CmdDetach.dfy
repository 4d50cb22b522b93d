/** Taking a subtree out of the command forest, and what stays the same for the rest. */
module CmdDetach {
  import opened Options
  import opened Seqs
  import opened CmdForest
  import opened CmdSubtree

  function Without(list: seq<Addr>, gone: set<Addr>): (r: seq<Addr>)
    ensures forall x :: x in r <==> x in list && x !in gone
  {
    if |list| == 0 then []
    else
      assert list == [list[0]] + list[1..];
      (if list[0] in gone then [] else [list[0]]) + Without(list[1..], gone)
  }

  lemma {:induction false} WithoutKeeps(list: seq<Addr>, gone: set<Addr>)
    requires NoDup(list)
    ensures NoDup(Without(list, gone))
    ensures (forall x :: x in gone ==> x in list) ==> |Without(list, gone)| == |list| - |gone|
    decreases |list|
  {
    if |list| == 0 {
      if forall x :: x in gone ==> x in list { assert gone == {}; }
    } else {
      var h, rest := list[0], list[1..];
      assert list == [h] + rest;
      NoDupSplit([h], rest);
      WithoutKeeps(rest, gone - {h});
      assert h !in rest;
      SameWithout(rest, gone, h);
      NoDupSplit([h], Without(rest, gone));
      if forall x :: x in gone ==> x in list {
        assert forall x :: x in gone - {h} ==> x in rest;
      }
    }
  }

  lemma {:induction false} SameWithout(list: seq<Addr>, gone: set<Addr>, h: Addr)
    requires h !in list
    ensures Without(list, gone - {h}) == Without(list, gone)
  {
    if |list| > 0 {
      assert list == [list[0]] + list[1..];
      SameWithout(list[1..], gone, h);
    }
  }

  ghost function Victims(s: State, a: Addr): set<Addr> { set b | b in s.defs && Under(s, b, a) }

  /** def_detach_subtree_locked: the subtree leaves the tree and the list. */
  ghost function Detached(s: State, a: Addr): State
    requires a in s.defs
  {
    var gone := Victims(s, a);
    State(
      map b | b in s.defs && b !in gone ::
        if s.defs[a].parent == Some(b) then s.defs[b].(kids := Remove(s.defs[b].kids, a)) else s.defs[b],
      Without(s.list, gone),
      s.last)
  }

  lemma DetachedLinked(s: State, a: Addr, b: Addr)
    requires Forest(s) && a in s.defs && b in Detached(s, a).defs
    ensures LinkedOk(Detached(s, a), b)
  {
    var t, d := Detached(s, a), s.defs[b];
    assert LinkedOk(s, b) && LinkedOk(s, a);
    RemoveMembers(d.kids, a);
    forall c | c in t.defs[b].kids ensures c in t.defs && t.defs[c].parent == Some(b) {
      assert c in d.kids && c != a;
      assert LinkedOk(s, c);
    }
    if d.parent.Some? {
      var p := d.parent.value;
      assert p in t.defs;
      assert LinkedOk(s, p);
      RemoveMembers(s.defs[p].kids, a);
    }
  }

  lemma DetachedForest(s: State, a: Addr)
    requires Forest(s) && a in s.defs
    ensures Forest(Detached(s, a)) && |Detached(s, a).list| == |s.list| - |Victims(s, a)|
    ensures |Victims(s, a)| >= 1
  {
    WithoutKeeps(s.list, Victims(s, a));
    forall b | b in Detached(s, a).defs ensures LinkedOk(Detached(s, a), b) { DetachedLinked(s, a, b); }
    assert a in Victims(s, a);
  }

  // What the rest keeps

  /** `t` is `s` with some definitions gone, along with everything below them. */
  ghost predicate Pruned(s: State, t: State) {
    && (forall b :: b in t.defs ==> b in s.defs)
    && (forall b :: b in t.defs ==> t.defs[b].parent == s.defs[b].parent && t.defs[b].serial == s.defs[b].serial
                                    && t.defs[b].owner == s.defs[b].owner)
    && (forall b :: b in t.defs && s.defs[b].parent.Some? ==> s.defs[b].parent.value in t.defs)
  }

  lemma PrunedSelf(s: State)
    requires Forest(s)
    ensures Pruned(s, s)
  {
    forall b | b in s.defs && s.defs[b].parent.Some? ensures s.defs[b].parent.value in s.defs { assert LinkedOk(s, b); }
  }

  lemma DetachedPruned(s: State, a: Addr)
    requires Forest(s) && a in s.defs
    ensures Pruned(s, Detached(s, a))
  {
    var t := Detached(s, a);
    forall b | b in t.defs && s.defs[b].parent.Some? ensures s.defs[b].parent.value in t.defs {
      assert LinkedOk(s, b);
      assert LinkedOk(s, s.defs[b].parent.value);
    }
  }

  lemma PrunedTrans(s: State, t: State, u: State)
    requires Pruned(s, t) && Pruned(t, u)
    ensures Pruned(s, u)
  {
  }

  lemma {:induction false} UnderStays(s: State, t: State, b: Addr, a: Addr)
    requires Pruned(s, t) && b in t.defs
    ensures Under(t, b, a) <==> Under(s, b, a)
    ensures Under(s, b, a) && a in s.defs ==> a in t.defs
    decreases s.defs[b].serial
  {
    var p := s.defs[b].parent;
    if p.Some? && 0 < s.defs[p.value].serial < s.defs[b].serial { UnderStays(s, t, p.value, a); }
  }

  /** The collected subtree has as many members as there are victims. */
  lemma CollectSize(s: State, a: Addr)
    requires Forest(s) && a in s.defs
    ensures |Collect(s, a)| == |Victims(s, a)| && Elements(Collect(s, a)) == Victims(s, a)
  {
    CollectIs(s, a);
    SameMembers(Collect(s, a), Victims(s, a));
  }

  lemma SameMembers(q: seq<Addr>, v: set<Addr>)
    requires NoDup(q) && forall x :: x in q <==> x in v
    ensures |q| == |v| && Elements(q) == v
  {
    SeqSize(q);
    assert Elements(q) == v;
  }

  function Elements(q: seq<Addr>): set<Addr> { set x | x in q }

  lemma {:induction false} SeqSize(q: seq<Addr>)
    requires NoDup(q)
    ensures |Elements(q)| == |q|
  {
    if |q| > 0 {
      var h, rest := q[0], q[1..];
      assert q == [h] + rest;
      NoDupSplit([h], rest);
      SeqSize(rest);
      assert Elements(q) == {h} + Elements(rest);
    }
  }
}
