/**
 * Which definitions cmd_reclaim_owned of core/cmd.c takes, and exactly when it
 * gets all of them: the owned roots go newest first, so each goes without the
 * owned roots below it.
 */
module CmdOwned {
  import opened Options
  import opened Seqs
  import opened CmdForest
  import opened CmdSubtree
  import opened CmdDetach

  const MAX_SUBTREE := 64

  predicate OwnedBy(d: Def, lo: int, hi: int) { lo <= d.owner < hi }

  /** Owned, under a parent that is not: where a whole subtree can be taken. */
  predicate OwnedRoot(s: State, a: Addr, lo: int, hi: int)
    requires a in s.defs
  {
    OwnedBy(s.defs[a], lo, hi) &&
    (s.defs[a].parent.None? || s.defs[a].parent.value !in s.defs || !OwnedBy(s.defs[s.defs[a].parent.value], lo, hi))
  }

  /** While anything is owned there is a root to take. */
  lemma {:induction false} SomeRoot(s: State, a: Addr, lo: int, hi: int) returns (r: Addr)
    requires Forest(s) && a in s.defs && OwnedBy(s.defs[a], lo, hi)
    ensures r in s.defs && OwnedRoot(s, r, lo, hi)
    decreases s.defs[a].serial
  {
    assert LinkedOk(s, a);
    if OwnedRoot(s, a, lo, hi) { r := a; } else { r := SomeRoot(s, s.defs[a].parent.value, lo, hi); }
  }

  lemma NoRootNoneOwned(s: State, lo: int, hi: int)
    requires Forest(s) && forall a :: a in s.defs ==> !OwnedRoot(s, a, lo, hi)
    ensures forall a :: a in s.defs ==> !OwnedBy(s.defs[a], lo, hi)
  {
    forall a | a in s.defs ensures !OwnedBy(s.defs[a], lo, hi) {
      if OwnedBy(s.defs[a], lo, hi) { var b := SomeRoot(s, a, lo, hi); }
    }
  }

  // The list is newest first

  ghost predicate NewestFirst(s: State) {
    forall i, j :: 0 <= i < j < |s.list| ==>
      s.list[i] in s.defs && s.list[j] in s.defs && s.defs[s.list[i]].serial > s.defs[s.list[j]].serial
  }

  lemma AddedNewest(s: State, a: Addr, parent: Option<Addr>, d: Decl)
    requires Forest(s) && NewestFirst(s) && a !in s.defs && (parent.Some? ==> parent.value in s.defs)
    ensures NewestFirst(Added(s, a, parent, d))
  {
    var t := Added(s, a, parent, d);
    forall i, j | 0 <= i < j < |t.list|
      ensures t.list[i] in t.defs && t.list[j] in t.defs && t.defs[t.list[i]].serial > t.defs[t.list[j]].serial
    {
      assert t.list[j] == s.list[j - 1] && s.list[j - 1] in s.list && LinkedOk(s, s.list[j - 1]);
      assert i > 0 ==> t.list[i] == s.list[i - 1];
    }
  }

  /** Dropping members keeps the order of the rest. */
  lemma {:induction false} WithoutOrder(list: seq<Addr>, gone: set<Addr>, x: nat, y: nat) returns (a: nat, b: nat)
    requires x < y < |Without(list, gone)|
    ensures a < b < |list| && list[a] == Without(list, gone)[x] && list[b] == Without(list, gone)[y]
  {
    var rest := Without(list[1..], gone);
    if list[0] in gone {
      a, b := WithoutOrder(list[1..], gone, x, y);
      a, b := a + 1, b + 1;
    } else if x == 0 {
      assert rest[y - 1] in list[1..];
      var m :| 0 <= m < |list[1..]| && list[1..][m] == rest[y - 1];
      a, b := 0, m + 1;
    } else {
      a, b := WithoutOrder(list[1..], gone, x - 1, y - 1);
      a, b := a + 1, b + 1;
    }
  }

  lemma DetachedNewest(s: State, a: Addr)
    requires Forest(s) && NewestFirst(s) && a in s.defs
    ensures NewestFirst(Detached(s, a))
  {
    var t := Detached(s, a);
    forall i, j | 0 <= i < j < |t.list|
      ensures t.list[i] in t.defs && t.list[j] in t.defs && t.defs[t.list[i]].serial > t.defs[t.list[j]].serial
    {
      var x, y := WithoutOrder(s.list, Victims(s, a), i, j);
      assert t.list[i] in t.list && t.list[j] in t.list;
      assert s.list[x] in s.list && s.list[y] in s.list;
    }
  }

  /** A detach keeps everything there is to keep. */
  lemma DetachedKeeps(s: State, a: Addr)
    requires Forest(s) && NewestFirst(s) && a in s.defs
    ensures var t := Detached(s, a); Forest(t) && NewestFirst(t) && |t.list| == |s.list| - |Victims(s, a)|
  {
    DetachedForest(s, a);
    DetachedNewest(s, a);
  }

  // One owned root

  /** No owned root lies strictly below `a`. */
  ghost predicate Lowest(s: State, a: Addr, lo: int, hi: int) {
    forall r :: r in s.defs && OwnedRoot(s, r, lo, hi) && Under(s, r, a) ==> r == a
  }

  lemma NotLater(s: State, i: nat, j: nat)
    requires NewestFirst(s) && i < |s.list| && j < |s.list| && s.list[i] in s.defs && s.list[j] in s.defs
    requires s.defs[s.list[i]].serial <= s.defs[s.list[j]].serial
    ensures j <= i
  {
  }

  /** The first owned root on the list has none below it. */
  lemma FirstIsLowest(s: State, i: nat, lo: int, hi: int)
    requires Forest(s) && NewestFirst(s) && i < |s.list|
    requires forall j :: 0 <= j < i ==> s.list[j] in s.defs && !OwnedRoot(s, s.list[j], lo, hi)
    ensures Lowest(s, s.list[i], lo, hi)
  {
    forall r | r in s.defs && OwnedRoot(s, r, lo, hi) && Under(s, r, s.list[i]) ensures r == s.list[i] {
      assert r in s.list;
      var j :| 0 <= j < |s.list| && s.list[j] == r;
      UnderSerial(s, r, s.list[i]);
      NotLater(s, i, j);
    }
  }

  /** Two nodes above the same node lie one above the other. */
  lemma {:induction false} Comparable(s: State, b: Addr, a: Addr, c: Addr)
    requires Under(s, b, a) && Under(s, b, c)
    ensures Under(s, a, c) || Under(s, c, a)
    decreases if b in s.defs then s.defs[b].serial else 0
  {
    if b != a && b != c { Comparable(s, s.defs[b].parent.value, a, c); }
  }

  /** `b` goes with an owned root strictly below `a`, before `a` does. */
  ghost predicate Shadowed(s: State, b: Addr, a: Addr, lo: int, hi: int) {
    exists r :: r in s.defs && r != a && OwnedRoot(s, r, lo, hi) && Under(s, r, a) && Under(s, b, r)
  }

  /** What goes with `a` itself. */
  ghost function Own(s: State, a: Addr, lo: int, hi: int): set<Addr> {
    set b | b in s.defs && Under(s, b, a) && !Shadowed(s, b, a, lo, hi)
  }

  /** Every owned root, without the owned roots below it, fits the victims array. */
  ghost predicate RootsFit(s: State, lo: int, hi: int) {
    forall a :: a in s.defs && OwnedRoot(s, a, lo, hi) ==> |Own(s, a, lo, hi)| <= MAX_SUBTREE
  }

  /** In particular when no owned subtree is larger than the array. */
  lemma SmallSubtreesFit(s: State, lo: int, hi: int)
    requires forall a :: a in s.defs && OwnedRoot(s, a, lo, hi) ==> |Victims(s, a)| <= MAX_SUBTREE
    ensures RootsFit(s, lo, hi)
  {
    forall a | a in s.defs && OwnedRoot(s, a, lo, hi) ensures |Own(s, a, lo, hi)| <= MAX_SUBTREE {
      SubsetSize(Own(s, a, lo, hi), Victims(s, a));
    }
  }

  // The whole reclaim

  /** Everything below a definition of the owner. */
  ghost function Reclaimable(s: State, lo: int, hi: int): set<Addr> {
    set b | b in s.defs && exists a :: a in s.defs && OwnedBy(s.defs[a], lo, hi) && Under(s, b, a)
  }

  /** `b` is below an owned root that is gone. */
  ghost predicate TakenBy(s: State, t: State, b: Addr, lo: int, hi: int) {
    exists r :: r in s.defs && r !in t.defs && OwnedRoot(s, r, lo, hi) && Under(s, b, r)
  }

  /** `t` is `s` with some owned roots taken out, each of which fitted. */
  ghost predicate Reclaiming(s: State, t: State, lo: int, hi: int) {
    && Pruned(s, t)
    && (forall b :: b in s.defs && b !in t.defs ==> TakenBy(s, t, b, lo, hi))
    && (forall r :: r in s.defs && r !in t.defs && OwnedRoot(s, r, lo, hi) ==> |Own(s, r, lo, hi)| <= MAX_SUBTREE)
  }

  lemma RootStays(s: State, t: State, r: Addr, lo: int, hi: int)
    requires Pruned(s, t) && r in t.defs
    ensures OwnedRoot(t, r, lo, hi) <==> OwnedRoot(s, r, lo, hi)
  {
  }

  /** When its turn comes, a root has exactly its own left below it. */
  lemma OwnIsLeft(s: State, t: State, root: Addr, lo: int, hi: int)
    requires Reclaiming(s, t, lo, hi) && root in t.defs && OwnedRoot(t, root, lo, hi) && Lowest(t, root, lo, hi)
    ensures Victims(t, root) == Own(s, root, lo, hi)
  {
    forall b | b in Victims(t, root) ensures b in Own(s, root, lo, hi) { LeftIsOwn(s, t, root, b, lo, hi); }
    forall b | b in Own(s, root, lo, hi) ensures b in Victims(t, root) { OwnIsStill(s, t, root, b, lo, hi); }
  }

  lemma OwnIsStill(s: State, t: State, root: Addr, b: Addr, lo: int, hi: int)
    requires Reclaiming(s, t, lo, hi) && root in t.defs && b in Own(s, root, lo, hi)
    ensures b in Victims(t, root)
  {
    forall r | r in s.defs && OwnedRoot(s, r, lo, hi) && Under(s, b, r) ensures r in t.defs {
      if r != root {
        assert !Under(s, r, root);
        Comparable(s, b, r, root);
        UnderStays(s, t, root, r);
      }
    }
    UnderStays(s, t, b, root);
  }

  lemma LeftIsOwn(s: State, t: State, root: Addr, b: Addr, lo: int, hi: int)
    requires Pruned(s, t) && root in t.defs && Lowest(t, root, lo, hi) && b in Victims(t, root)
    ensures b in Own(s, root, lo, hi)
  {
    UnderStays(s, t, b, root);
    forall r | r in s.defs && OwnedRoot(s, r, lo, hi) && Under(s, r, root) && Under(s, b, r) ensures r == root {
      UnderStays(s, t, b, r);
      RootStays(s, t, r, lo, hi);
      UnderStays(s, t, r, root);
    }
  }

  lemma ReclaimStep(s: State, t: State, root: Addr, lo: int, hi: int)
    requires Reclaiming(s, t, lo, hi) && Forest(t) && root in t.defs
    requires OwnedRoot(t, root, lo, hi) && Lowest(t, root, lo, hi)
    ensures |Victims(t, root)| <= MAX_SUBTREE ==> Reclaiming(s, Detached(t, root), lo, hi)
  {
    var u := Detached(t, root);
    DetachedPruned(t, root);
    PrunedTrans(s, t, u);
    OwnIsLeft(s, t, root, lo, hi);
    assert Under(t, root, root);
    forall b | b in s.defs && b !in u.defs ensures TakenBy(s, u, b, lo, hi) {
      StepTakes(s, t, u, root, b, lo, hi);
    }
    forall r | r in t.defs && r !in u.defs && OwnedRoot(s, r, lo, hi) ensures r == root { RootStays(s, t, r, lo, hi); }
  }

  lemma StepTakes(s: State, t: State, u: State, root: Addr, b: Addr, lo: int, hi: int)
    requires Reclaiming(s, t, lo, hi) && root in t.defs && OwnedRoot(t, root, lo, hi) && b in s.defs
    requires (forall x :: x in u.defs ==> x in t.defs) && root !in u.defs
    requires b in t.defs ==> Under(t, b, root)
    ensures TakenBy(s, u, b, lo, hi)
  {
    RootStays(s, t, root, lo, hi);
    if b in t.defs {
      UnderStays(s, t, b, root);
    } else {
      var r :| r in s.defs && r !in t.defs && OwnedRoot(s, r, lo, hi) && Under(s, b, r);
      assert r !in u.defs;
    }
  }

  /** When nothing owned is left, everything that had to go is gone. */
  lemma ReclaimDone(s: State, t: State, lo: int, hi: int)
    requires Reclaiming(s, t, lo, hi) && forall a :: a in t.defs ==> !OwnedBy(t.defs[a], lo, hi)
    ensures t.defs.Keys == s.defs.Keys - Reclaimable(s, lo, hi) && RootsFit(s, lo, hi)
  {
    forall b | b in t.defs ensures b !in Reclaimable(s, lo, hi) { LeftIsForeign(s, t, b, lo, hi); }
    forall b | b in s.defs && b !in t.defs ensures b in Reclaimable(s, lo, hi) { TakenIsBelow(s, t, b, lo, hi); }
    TakenFit(s, t, lo, hi);
  }

  lemma TakenFit(s: State, t: State, lo: int, hi: int)
    requires Reclaiming(s, t, lo, hi) && forall a :: a in t.defs ==> !OwnedBy(t.defs[a], lo, hi)
    ensures RootsFit(s, lo, hi)
  {
    forall a | a in s.defs && OwnedRoot(s, a, lo, hi) ensures a !in t.defs {}
  }

  lemma TakenIsBelow(s: State, t: State, b: Addr, lo: int, hi: int)
    requires b in s.defs && TakenBy(s, t, b, lo, hi)
    ensures b in Reclaimable(s, lo, hi)
  {
    var r :| r in s.defs && r !in t.defs && OwnedRoot(s, r, lo, hi) && Under(s, b, r);
    assert OwnedBy(s.defs[r], lo, hi);
  }

  lemma LeftIsForeign(s: State, t: State, b: Addr, lo: int, hi: int)
    requires Pruned(s, t) && b in t.defs && forall a :: a in t.defs ==> !OwnedBy(t.defs[a], lo, hi)
    ensures b !in Reclaimable(s, lo, hi)
  {
    forall a | a in s.defs && OwnedBy(s.defs[a], lo, hi) ensures !Under(s, b, a) { UnderStays(s, t, b, a); }
  }

  /** When a root does not fit, it stays, and it would not have fitted at the start either. */
  lemma ReclaimStuck(s: State, t: State, root: Addr, lo: int, hi: int)
    requires Reclaiming(s, t, lo, hi) && root in t.defs && OwnedRoot(t, root, lo, hi) && Lowest(t, root, lo, hi)
    requires |Victims(t, root)| > MAX_SUBTREE
    ensures forall b :: b in s.defs && b !in t.defs ==> b in Reclaimable(s, lo, hi)
    ensures t.defs.Keys != s.defs.Keys - Reclaimable(s, lo, hi) && !RootsFit(s, lo, hi)
  {
    forall b | b in s.defs && b !in t.defs ensures b in Reclaimable(s, lo, hi) { TakenIsBelow(s, t, b, lo, hi); }
    OwnIsLeft(s, t, root, lo, hi);
    RootStays(s, t, root, lo, hi);
    assert Under(s, root, root) && root in Reclaimable(s, lo, hi) && root in t.defs.Keys;
  }
}
