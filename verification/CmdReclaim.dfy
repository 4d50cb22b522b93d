/** Registering, detaching and reclaiming commands in place, as core/cmd.c does under its lock. */
module CmdReclaim {
  import opened Ascii
  import opened Options
  import opened Seqs
  import opened CmdForest
  import opened CmdSubtree
  import opened CmdDetach
  import opened CmdOwned

  /** def_collect_subtree_locked into a fixed array: the subtree after the first `n`, or 0 when it does not fit. */
  method CollectInto(s: State, a: Addr, out: array<Addr>, n: nat) returns (n': nat)
    requires Forest(s) && a in s.defs && n <= out.Length
    modifies out
    ensures n' == 0 <==> n + |Collect(s, a)| > out.Length
    ensures n' > 0 ==> n' == n + |Collect(s, a)| && out[..n'] == old(out[..n]) + Collect(s, a)
    decreases Height(s, s.defs[a].serial), 1
  {
    var kids, low := s.defs[a].kids, s.defs[a].serial;
    n' := n;
    var i := 0;
    while i < |kids|
      invariant 0 <= i <= |kids| && n <= n' <= out.Length
      invariant out[..n'] + CollectKids(s, kids[i..], low) == old(out[..n]) + CollectKids(s, kids, low)
    {
      KidIsUnder(s, kids[i], a);
      KidsSplit(s, kids, i, low);
      Assoc(out[..n'], Collect(s, kids[i]), CollectKids(s, kids[i + 1..], low));
      var m := CollectInto(s, kids[i], out, n');
      if m == 0 { return 0; }
      n' := m;
      i := i + 1;
    }
    if n' >= out.Length { return 0; }
    ghost var done := out[..n'];
    assert done == old(out[..n]) + CollectKids(s, kids, low);
    out[n'] := a;
    n' := n' + 1;
    assert out[..n'] == done + [a] == old(out[..n]) + (CollectKids(s, kids, low) + [a]);
  }

  lemma KidsSplit(s: State, kids: seq<Addr>, i: nat, low: int)
    requires i < |kids| && kids[i] in s.defs && low < s.defs[kids[i]].serial <= s.last
    ensures CollectKids(s, kids[i..], low) == Collect(s, kids[i]) + CollectKids(s, kids[i + 1..], low)
  {
    assert kids[i..][0] == kids[i] && kids[i..][1..] == kids[i + 1..];
  }

  /** kind_filters_overlap. */
  method KindsOverlap(a: Option<seq<string>>, b: Option<seq<string>>) returns (hit: bool)
    ensures hit <==> Overlap(a, b)
  {
    if a.None? || b.None? { return true; }
    var i := 0;
    while i < |a.value| && i < KINDS_MAX
      invariant 0 <= i
      invariant forall k, j :: 0 <= k < i && k < |a.value| && 0 <= j < |b.value| && j < KINDS_MAX ==>
                  !SameFold(a.value[k], b.value[j])
    {
      var j := 0;
      while j < |b.value| && j < KINDS_MAX
        invariant 0 <= j
        invariant forall k :: 0 <= k < j && k < |b.value| ==> !SameFold(a.value[i], b.value[k])
      {
        if SameFold(a.value[i], b.value[j]) { return true; }
        j := j + 1;
      }
      i := i + 1;
    }
    hit := false;
  }

  /** Unlink a child from its parent's chain. */
  method Unchain(kids: seq<Addr>, a: Addr) returns (r: seq<Addr>)
    ensures r == Remove(kids, a)
  {
    var i := 0;
    while i < |kids| && kids[i] != a
      invariant 0 <= i <= |kids| && a !in kids[..i]
    {
      i := i + 1;
    }
    if i < |kids| {
      RemoveFirst(kids, i);
      r := kids[..i] + kids[i + 1..];
    } else {
      assert kids[..i] == kids;
      r := kids;
    }
  }

  lemma WithoutSplit(list: seq<Addr>, i: nat, gone: set<Addr>)
    requires i < |list|
    ensures Without(list[i..], gone) == (if list[i] in gone then [] else [list[i]]) + Without(list[i + 1..], gone)
  {
    assert list[i..][0] == list[i] && list[i..][1..] == list[i + 1..];
  }

  /** The single pass over the global list that drops every victim. */
  method DropAll(list: seq<Addr>, gone: set<Addr>) returns (r: seq<Addr>)
    ensures r == Without(list, gone)
  {
    r := [];
    var i := 0;
    while i < |list|
      invariant 0 <= i <= |list| && r + Without(list[i..], gone) == Without(list, gone)
    {
      var one := if list[i] in gone then [] else [list[i]];
      WithoutSplit(list, i, gone);
      Assoc(r, one, Without(list[i + 1..], gone));
      r := r + one;
      i := i + 1;
    }
  }

  /** The tree and the list as the two unlinking passes leave them. */
  lemma DetachedIs(s: State, a: Addr, gone: set<Addr>, kids: seq<Addr>, list: seq<Addr>, t: State)
    requires a in s.defs && gone == Victims(s, a) && list == Without(s.list, gone)
    requires s.defs[a].parent.Some? && s.defs[a].parent.value in s.defs ==>
               kids == Remove(s.defs[s.defs[a].parent.value].kids, a)
    requires t.list == list && t.last == s.last && t.defs ==
      map b | b in s.defs && b !in gone :: if s.defs[a].parent == Some(b) then s.defs[b].(kids := kids) else s.defs[b]
    ensures t == Detached(s, a)
  {
    assert t.defs == Detached(s, a).defs;
  }

  class Commands {
    var s: State
    var count: int

    ghost predicate Valid()
      reads this
    {
      Forest(s) && NewestFirst(s) && count == |s.list|
    }

    constructor ()
      ensures Valid() && s == State(map[], [], 0)
    {
      s, count := State(map[], [], 0), 0;
    }

    /** def_name_collides_for_kind_locked: a walk of the global list. */
    method Clashes(parent: Option<Addr>, str: string, kinds: Option<seq<string>>) returns (hit: bool)
      requires Valid()
      ensures hit <==> Collides(s, parent, str, kinds)
    {
      var i := 0;
      while i < |s.list|
        invariant 0 <= i <= |s.list|
        invariant forall j :: 0 <= j < i ==> s.list[j] in s.defs && !Hits(s.defs[s.list[j]], parent, str, kinds)
      {
        assert s.list[i] in s.list;
        var d := s.defs[s.list[i]];
        if d.parent == parent && Answers(d, str) {
          var over := KindsOverlap(d.kinds, kinds);
          if over { return true; }
        }
        i := i + 1;
      }
      hit := false;
      forall a | a in s.defs ensures !Hits(s.defs[a], parent, str, kinds) { assert a in s.list; }
    }

    /** reg_check_collisions_locked. */
    method CheckCollisions(parent: Option<Addr>, d: Decl) returns (ok: bool)
      requires Valid()
      ensures ok <==> Clear(s, parent, d)
    {
      var hit := Clashes(parent, d.name, d.kinds);
      if !hit && d.abbrev != "" { hit := Clashes(parent, d.abbrev, d.kinds); }
      ok := !hit;
    }

    /** cmd_register past its validation: refused on a collision, else linked in place. */
    method Register(a: Addr, parent: Option<Addr>, d: Decl) returns (ok: bool)
      requires Valid() && a !in s.defs && (parent.Some? ==> parent.value in s.defs)
      modifies this
      ensures Valid() && (ok <==> Clear(old(s), parent, d))
      ensures s == if ok then Added(old(s), a, parent, d) else old(s)
      ensures ok ==> AsDeclared(s, a, parent, d) && forall b :: b in old(s).defs && Some(b) != parent ==> b in s.defs && s.defs[b] == old(s).defs[b]
    {
      ok := CheckCollisions(parent, d);
      if ok {
        AddedForest(s, a, parent, d);
        AddedNewest(s, a, parent, d);
        s := Added(s, a, parent, d);
        count := count + 1;
      }
    }

    /** def_detach_subtree_locked: the whole subtree, or nothing when it is larger than the array. */
    method Detach(a: Addr, out: array<Addr>) returns (n: nat)
      requires Valid() && a in s.defs
      modifies this, out
      ensures Valid()
      ensures n == 0 <==> |Victims(old(s), a)| > out.Length
      ensures n == 0 ==> s == old(s) && count == old(count)
      ensures n > 0 ==> s == Detached(old(s), a) && n == |Victims(old(s), a)| && out[..n] == Collect(old(s), a)
    {
      n := CollectInto(s, a, out, 0);
      CollectSize(s, a);
      if n == 0 { return; }
      assert out[..n] == Collect(s, a);
      Cut(a, Elements(out[..n]));
    }

    /** Unlink the top node from its parent, and every victim from the list. */
    method Cut(a: Addr, gone: set<Addr>)
      requires Valid() && a in s.defs && gone == Victims(s, a)
      modifies this
      ensures Valid() && s == Detached(old(s), a)
    {
      DetachedKeeps(s, a);
      var list := DropAll(s.list, gone);
      var p := s.defs[a].parent;
      var kids: seq<Addr> := [];
      if p.Some? && p.value in s.defs { kids := Unchain(s.defs[p.value].kids, a); }
      count := count - (|s.list| - |list|);
      var t := State(
        map b | b in s.defs && b !in gone :: if p == Some(b) then s.defs[b].(kids := kids) else s.defs[b],
        list, s.last);
      DetachedIs(s, a, gone, kids, list, t);
      s := t;
    }

    /** def_next_owned_root_locked. */
    method NextRoot(lo: int, hi: int) returns (r: Option<Addr>)
      requires Valid()
      ensures r.Some? ==> r.value in s.defs && OwnedRoot(s, r.value, lo, hi) && Lowest(s, r.value, lo, hi)
      ensures r.None? ==> forall a :: a in s.defs ==> !OwnedBy(s.defs[a], lo, hi)
    {
      var i := 0;
      while i < |s.list|
        invariant 0 <= i <= |s.list|
        invariant forall j :: 0 <= j < i ==> s.list[j] in s.defs && !OwnedRoot(s, s.list[j], lo, hi)
      {
        assert s.list[i] in s.list;
        if OwnedRoot(s, s.list[i], lo, hi) {
          FirstIsLowest(s, i, lo, hi);
          return Some(s.list[i]);
        }
        i := i + 1;
      }
      r := None;
      forall a | a in s.defs ensures !OwnedRoot(s, a, lo, hi) { assert a in s.list; }
      NoRootNoneOwned(s, lo, hi);
    }

    /**
     * cmd_reclaim_owned: one owned subtree per pass until none is left. It
     * always ends, takes nothing that is not below a definition of the owner,
     * and takes all of that exactly when every owned root fits the victims
     * array without the owned roots below it, which go first.
     */
    method ReclaimOwned(lo: int, hi: int) returns (total: int)
      requires Valid()
      modifies this
      ensures Valid() && Pruned(old(s), s) && total == old(count) - count
      ensures forall b :: b in old(s).defs && b !in s.defs ==> b in Reclaimable(old(s), lo, hi)
      ensures s.defs.Keys == old(s).defs.Keys - Reclaimable(old(s), lo, hi) <==> RootsFit(old(s), lo, hi)
    {
      ghost var was := s;
      PrunedSelf(s);
      var victims := new Addr[MAX_SUBTREE];
      total := 0;
      var root := NextRoot(lo, hi);
      while root.Some?
        invariant Valid() && Reclaiming(was, s, lo, hi) && total == old(count) - count
        invariant root.Some? ==> root.value in s.defs && OwnedRoot(s, root.value, lo, hi) && Lowest(s, root.value, lo, hi)
        invariant root.None? ==> forall a :: a in s.defs ==> !OwnedBy(s.defs[a], lo, hi)
        decreases |s.list|
      {
        ReclaimStep(was, s, root.value, lo, hi);
        DetachedForest(s, root.value);
        var n := Detach(root.value, victims);
        if n == 0 {
          ReclaimStuck(was, s, root.value, lo, hi);
          return;
        }
        total := total + n;
        root := NextRoot(lo, hi);
      }
      ReclaimDone(was, s, lo, hi);
    }
  }
}
