/**
 * Which child a bot reaches by a name: cmd_find_child_for_bot of
 * core/bot_cmd.c over the forest of core/cmd.c, and exactly when the answer
 * is unique.
 */
module CmdLookup {
  import opened Ascii
  import opened Options
  import opened CmdForest
  import opened CmdDetach

  /** bot_admits_child: no filter, or one filter entry names a kind the bot has bound. */
  predicate Admits(kinds: seq<string>, d: Def) {
    d.kinds.None? ||
    exists i, j :: 0 <= i < |d.kinds.value| && i < KINDS_MAX && 0 <= j < |kinds| &&
      d.kinds.value[i] != "" && SameFold(kinds[j], d.kinds.value[i])
  }

  /** No two siblings that one kind can reach answer to the same string. */
  ghost predicate Unambiguous(s: State) {
    forall a, b {:trigger Apart(s, a, b)} :: a in s.defs && b in s.defs && a != b ==> Apart(s, a, b)
  }

  ghost predicate Apart(s: State, a: Addr, b: Addr)
    requires a in s.defs && b in s.defs
  {
    s.defs[a].parent == s.defs[b].parent && Overlap(s.defs[a].kinds, s.defs[b].kinds) ==>
      forall str :: Answers(s.defs[a], str) ==> !Answers(s.defs[b], str)
  }

  // Strings that compare equal

  lemma FoldLaws(a: string, b: string, c: string)
    requires SameFold(a, c) && SameFold(b, c)
    ensures SameFold(a, b)
  {
  }

  lemma SameJoin(a: string, b: string, str: string)
    requires Same(a, str) && Same(b, str)
    ensures Same(a, b)
  {
    FoldLaws(Upto(a, NAME_SZ), Upto(b, NAME_SZ), Upto(str, NAME_SZ));
  }

  lemma SameLaws(a: string, b: string)
    requires Same(a, b)
    ensures Same(b, a) && Same(a, a)
  {
  }

  /** The declared strings fit their buffers whole. */
  predicate Fits(d: Decl) { |d.name| < NAME_SZ && |d.abbrev| < NAME_SZ }

  /** If a new definition and a sibling answered to one string, the sibling would answer to a declared one. */
  lemma SharedIsDeclared(d: Decl, def: Def, sib: Def, str: string)
    requires def.name == d.name && def.abbrev == d.abbrev
    requires Answers(def, str) && Answers(sib, str)
    ensures Answers(sib, d.name) || (d.abbrev != "" && Answers(sib, d.abbrev))
  {
    var mine := if Same(d.name, str) then d.name else d.abbrev;
    if Same(sib.name, str) { SameJoin(sib.name, mine, str); } else { SameJoin(sib.abbrev, mine, str); }
  }

  lemma OverlapFlips(a: Option<seq<string>>, b: Option<seq<string>>)
    requires Overlap(a, b)
    ensures Overlap(b, a)
  {
    if a.Some? && b.Some? {
      var i, j :| 0 <= i < |a.value| && i < KINDS_MAX && 0 <= j < |b.value| && j < KINDS_MAX &&
        SameFold(a.value[i], b.value[j]);
      FoldLaws(b.value[j], a.value[i], b.value[j]);
    }
  }

  /** The declaration as it is stored: the strings cut to their buffers. */
  function Cut(d: Decl): Decl { d.(name := Stored(d.name), abbrev := Stored(d.abbrev)) }

  /** A sibling of the new definition, before and after it was linked. */
  lemma SiblingKept(s: State, a: Addr, parent: Option<Addr>, d: Decl, b: Addr)
    requires a !in s.defs && (parent.Some? ==> parent.value in s.defs) && b in s.defs
    ensures var t := Added(s, a, parent, d);
      && t.defs[b].(kids := s.defs[b].kids) == s.defs[b]
      && t.defs[a].name == Cut(d).name && t.defs[a].abbrev == Cut(d).abbrev
      && t.defs[a].kinds == d.kinds && t.defs[a].parent == parent
  {
  }

  lemma NewApart(s: State, a: Addr, parent: Option<Addr>, d: Decl, b: Addr)
    requires a !in s.defs && (parent.Some? ==> parent.value in s.defs) && b in s.defs
    requires Clear(s, parent, Cut(d))
    ensures Apart(Added(s, a, parent, d), a, b) && Apart(Added(s, a, parent, d), b, a)
  {
    var t := Added(s, a, parent, d);
    var def, sib := t.defs[a], t.defs[b];
    SiblingKept(s, a, parent, d, b);
    if sib.parent == parent && (Overlap(sib.kinds, def.kinds) || Overlap(def.kinds, sib.kinds)) {
      if !Overlap(sib.kinds, def.kinds) { OverlapFlips(def.kinds, sib.kinds); }
      assert !Hits(s.defs[b], parent, Cut(d).name, d.kinds);
      assert Cut(d).abbrev != "" ==> !Hits(s.defs[b], parent, Cut(d).abbrev, d.kinds);
      forall str | Answers(def, str) ensures !Answers(sib, str) {
        if Answers(sib, str) { SharedIsDeclared(Cut(d), def, sib, str); }
      }
    }
  }

  /** A sibling hit by a stored string is one the new definition shares that string with. */
  lemma HitIsNotApart(s: State, a: Addr, parent: Option<Addr>, d: Decl, b: Addr, str: string)
    requires a !in s.defs && (parent.Some? ==> parent.value in s.defs) && b in s.defs
    requires str == Cut(d).name || (str == Cut(d).abbrev && str != "")
    requires Hits(s.defs[b], parent, str, d.kinds)
    ensures !Apart(Added(s, a, parent, d), b, a)
  {
    SiblingKept(s, a, parent, d, b);
    assert Answers(Added(s, a, parent, d).defs[a], str);
  }

  /** Registering keeps the names unambiguous exactly when the stored strings are clear. */
  lemma AddedUnambiguousIff(s: State, a: Addr, parent: Option<Addr>, d: Decl)
    requires Unambiguous(s) && a !in s.defs && (parent.Some? ==> parent.value in s.defs)
    ensures Unambiguous(Added(s, a, parent, d)) <==> Clear(s, parent, Cut(d))
  {
    var t := Added(s, a, parent, d);
    if Clear(s, parent, Cut(d)) {
      forall x, y | x in t.defs && y in t.defs && x != y ensures Apart(t, x, y) {
        if x == a { NewApart(s, a, parent, d, y); }
        else if y == a { NewApart(s, a, parent, d, x); }
        else { assert Apart(s, x, y); SiblingKept(s, a, parent, d, x); SiblingKept(s, a, parent, d, y); }
      }
    } else {
      var str := if Collides(s, parent, Cut(d).name, d.kinds) then Cut(d).name else Cut(d).abbrev;
      var b :| b in s.defs && Hits(s.defs[b], parent, str, d.kinds);
      HitIsNotApart(s, a, parent, d, b, str);
    }
  }

  lemma DetachedUnambiguous(s: State, a: Addr)
    requires Unambiguous(s) && a in s.defs
    ensures Unambiguous(Detached(s, a))
  {
    var t := Detached(s, a);
    forall x, y | x in t.defs && y in t.defs && x != y ensures Apart(t, x, y) { assert Apart(s, x, y); }
  }

  // Over every run of registrations and removals

  datatype Op = Add(a: Addr, parent: Option<Addr>, d: Decl) | Take(a: Addr)

  ghost predicate Enabled(s: State, op: Op) {
    match op
    case Add(a, parent, d) => a !in s.defs && (parent.Some? ==> parent.value in s.defs) && Clear(s, parent, d)
    case Take(a) => a in s.defs
  }

  ghost function Apply(s: State, op: Op): State
    requires Enabled(s, op)
  {
    match op
    case Add(a, parent, d) => Added(s, a, parent, d)
    case Take(a) => Detached(s, a)
  }

  ghost predicate Runs(s: State, ops: seq<Op>, t: State)
    decreases |ops|
  {
    if |ops| == 0 then t == s else Enabled(s, ops[0]) && Runs(Apply(s, ops[0]), ops[1..], t)
  }

  /** Every state of the run is unambiguous. */
  ghost predicate StaysUnambiguous(s: State, ops: seq<Op>, t: State)
    requires Runs(s, ops, t)
    decreases |ops|
  {
    Unambiguous(s) && (|ops| > 0 ==> StaysUnambiguous(Apply(s, ops[0]), ops[1..], t))
  }

  /** Every registration of the run is clear in its stored form as well. */
  ghost predicate StoredClear(s: State, ops: seq<Op>, t: State)
    requires Runs(s, ops, t)
    decreases |ops|
  {
    |ops| > 0 ==>
      && (ops[0].Add? ==> Clear(s, ops[0].parent, Cut(ops[0].d)))
      && StoredClear(Apply(s, ops[0]), ops[1..], t)
  }

  predicate AllFit(ops: seq<Op>) { forall i :: 0 <= i < |ops| && ops[i].Add? ==> Fits(ops[i].d) }

  lemma OpKeeps(s: State, op: Op)
    requires Enabled(s, op)
    ensures Forest(s) ==> Forest(Apply(s, op))
    ensures Unambiguous(s) ==> (Unambiguous(Apply(s, op)) <==> (op.Add? ==> Clear(s, op.parent, Cut(op.d))))
  {
    match op
    case Add(a, parent, d) =>
      if Forest(s) { AddedForest(s, a, parent, d); }
      if Unambiguous(s) { AddedUnambiguousIff(s, a, parent, d); }
    case Take(a) =>
      if Forest(s) { DetachedForest(s, a); }
      if Unambiguous(s) { DetachedUnambiguous(s, a); }
  }

  /**
   * The forest, the list and the masks stay consistent in every run. The names
   * stay unambiguous throughout exactly when every registration was clear as
   * stored, which it is whenever the declared strings fit.
   */
  lemma {:induction false} RunKeeps(s: State, ops: seq<Op>, t: State)
    requires Runs(s, ops, t) && Forest(s)
    ensures Forest(t)
    ensures Unambiguous(s) ==> (StaysUnambiguous(s, ops, t) <==> StoredClear(s, ops, t))
    ensures StaysUnambiguous(s, ops, t) ==> Unambiguous(t)
    ensures AllFit(ops) ==> StoredClear(s, ops, t)
    decreases |ops|
  {
    if |ops| > 0 {
      OpKeeps(s, ops[0]);
      RunKeeps(Apply(s, ops[0]), ops[1..], t);
    }
  }

  // The lookup

  lemma OneKindOverlaps(kind: string, a: Def, b: Def)
    requires Admits([kind], a) && Admits([kind], b)
    ensures Overlap(a.kinds, b.kinds)
  {
    if a.kinds.Some? && b.kinds.Some? {
      var i :| 0 <= i < |a.kinds.value| && i < KINDS_MAX && SameFold(kind, a.kinds.value[i]);
      var j :| 0 <= j < |b.kinds.value| && j < KINDS_MAX && SameFold(kind, b.kinds.value[j]);
      FoldLaws(a.kinds.value[i], kind, a.kinds.value[i]);
      FoldLaws(b.kinds.value[j], kind, b.kinds.value[j]);
      FoldLaws(a.kinds.value[i], b.kinds.value[j], kind);
    }
  }

  /** A bot with one method kind finds at most one child under any string. */
  lemma OneMatch(s: State, kind: string, a: Addr, b: Addr, str: string)
    requires Unambiguous(s) && a in s.defs && b in s.defs && s.defs[a].parent == s.defs[b].parent
    requires Admits([kind], s.defs[a]) && Admits([kind], s.defs[b])
    requires Answers(s.defs[a], str) && Answers(s.defs[b], str)
    ensures a == b
  {
    OneKindOverlaps(kind, s.defs[a], s.defs[b]);
    assert a != b ==> Apart(s, a, b);
  }

  // More than one match

  /** The strings a definition answers to, without the empty one. */
  predicate Named(d: Def, str: string) { str != "" && (str == d.name || str == d.abbrev) }

  /** A string of the one compares equal to a string of the other. */
  ghost predicate Shares(d: Def, e: Def) {
    exists x, y :: Named(d, x) && Named(e, y) && Same(x, y)
  }

  lemma SharesIff(d: Def, e: Def)
    ensures Shares(d, e) <==> exists str :: str != "" && Answers(d, str) && Answers(e, str)
  {
    if Shares(d, e) {
      var x, y :| Named(d, x) && Named(e, y) && Same(x, y);
      SameLaws(x, y);
      assert Answers(d, x) && Answers(e, x);
    }
    forall str | str != "" && Answers(d, str) && Answers(e, str) ensures Shares(d, e) {
      var x := if Same(d.name, str) then d.name else d.abbrev;
      var y := if Same(e.name, str) then e.name else e.abbrev;
      SameJoin(x, y, str);
      assert Named(d, x) && Named(e, y);
    }
  }

  /**
   * A bot reaches two children by one string exactly when it is admitted to
   * both, they share a string, and their filters have no kind in common.
   */
  lemma TwoMatchIff(s: State, kinds: seq<string>, parent: Addr, a: Addr, b: Addr)
    requires Forest(s) && Unambiguous(s) && parent in s.defs
    requires a in s.defs[parent].kids && b in s.defs[parent].kids && a != b
    ensures a in s.defs && b in s.defs
    ensures (exists str :: str != "" && Reaches(s, kinds, a, str) && Reaches(s, kinds, b, str)) <==>
      && Admits(kinds, s.defs[a]) && Admits(kinds, s.defs[b])
      && Shares(s.defs[a], s.defs[b]) && !Overlap(s.defs[a].kinds, s.defs[b].kinds)
  {
    assert LinkedOk(s, parent);
    assert Apart(s, a, b);
    SharesIff(s.defs[a], s.defs[b]);
    if Admits(kinds, s.defs[a]) && Admits(kinds, s.defs[b]) && Shares(s.defs[a], s.defs[b]) {
      var str :| str != "" && Answers(s.defs[a], str) && Answers(s.defs[b], str);
      assert Reaches(s, kinds, a, str) && Reaches(s, kinds, b, str);
    }
  }

  predicate Reaches(s: State, kinds: seq<string>, c: Addr, str: string) {
    c in s.defs && Admits(kinds, s.defs[c]) && Answers(s.defs[c], str)
  }

  /** For a bot with one kind there is only one child that could be meant. */
  lemma OnlyOne(s: State, parent: Addr, str: string, kinds: seq<string>, r: Addr)
    requires Forest(s) && Unambiguous(s) && parent in s.defs && |kinds| == 1
    requires r in s.defs[parent].kids && Reaches(s, kinds, r, str)
    ensures forall c :: c in s.defs[parent].kids && Reaches(s, kinds, c, str) ==> c == r
  {
    assert LinkedOk(s, parent) && kinds == [kinds[0]];
    forall c | c in s.defs[parent].kids && Reaches(s, kinds, c, str) ensures c == r {
      OneMatch(s, kinds[0], r, c, str);
    }
  }

  /** Of the children that are reached the same way, by name or by abbreviation, `c` is the first. */
  ghost predicate FirstOf(s: State, kids: seq<Addr>, str: string, kinds: seq<string>, c: Addr) {
    exists i :: 0 <= i < |kids| && kids[i] == c && c in s.defs &&
      forall j :: 0 <= j < i && Reaches(s, kinds, kids[j], str) ==> Same(s.defs[c].name, str) && !Same(s.defs[kids[j]].name, str)
  }

  /** cmd_find_child_for_bot: an exact name wins, else the first abbreviation. */
  method FindChild(s: State, parent: Addr, str: string, kinds: seq<string>) returns (r: Option<Addr>)
    requires Forest(s) && parent in s.defs
    ensures str == "" ==> r.None?
    ensures r.Some? ==> r.value in s.defs[parent].kids && Reaches(s, kinds, r.value, str)
    ensures r.None? && str != "" ==> forall c :: c in s.defs[parent].kids ==> !Reaches(s, kinds, c, str)
    ensures r.Some? && !Same(s.defs[r.value].name, str) ==>
      forall c :: c in s.defs[parent].kids && Reaches(s, kinds, c, str) ==> !Same(s.defs[c].name, str)
    ensures r.Some? ==> FirstOf(s, s.defs[parent].kids, str, kinds, r.value)
    ensures |kinds| == 1 && Unambiguous(s) && r.Some? ==>
      forall c :: c in s.defs[parent].kids && Reaches(s, kinds, c, str) ==> c == r.value
  {
    if str == "" { return None; }
    var kids := s.defs[parent].kids;
    assert LinkedOk(s, parent);
    var abbrev: Option<Addr> := None;
    var i := 0;
    while i < |kids|
      invariant 0 <= i <= |kids|
      invariant abbrev.Some? ==> abbrev.value in kids && Reaches(s, kinds, abbrev.value, str)
      invariant abbrev.Some? ==> !Same(s.defs[abbrev.value].name, str) && FirstOf(s, kids, str, kinds, abbrev.value)
      invariant forall j :: 0 <= j < i && Reaches(s, kinds, kids[j], str) ==>
                  abbrev.Some? && !Same(s.defs[kids[j]].name, str)
    {
      assert kids[i] in kids;
      var d := s.defs[kids[i]];
      if Admits(kinds, d) {
        if Same(d.name, str) {
          if |kinds| == 1 && Unambiguous(s) { OnlyOne(s, parent, str, kinds, kids[i]); }
          return Some(kids[i]);
        }
        if abbrev.None? && d.abbrev != "" && Same(d.abbrev, str) { abbrev := Some(kids[i]); }
      }
      i := i + 1;
    }
    r := abbrev;
    if |kinds| == 1 && Unambiguous(s) && r.Some? { OnlyOne(s, parent, str, kinds, r.value); }
  }

  // Where it stops holding

  const IRC := Decl("x", "", Some(["irc"]), METHOD_ANY, 0)
  const REACHY := Decl("x", "", Some(["reachy"]), METHOD_ANY, 0)

  lemma KindsDisjoint()
    ensures !Overlap(IRC.kinds, REACHY.kinds)
  {
    assert |"irc"| != |"reachy"|;
  }

  const ROOT := Decl("bot", "", None, METHOD_ANY, 0)

  ghost function Root(p: Addr): State { Added(State(map[], [], 0), p, None, ROOT) }

  /** A bot with two method kinds can reach two children of one registered parent by one name. */
  lemma TwoKindsClash(p: Addr, a: Addr, b: Addr)
    requires p != a && a != b && b != p
    ensures var s := Added(Root(p), a, Some(p), IRC);
      var t := Added(s, b, Some(p), REACHY);
      && Clear(State(map[], [], 0), None, ROOT) && Clear(Root(p), Some(p), IRC) && Clear(s, Some(p), REACHY)
      && a in t.defs[p].kids && b in t.defs[p].kids
      && Reaches(t, ["irc", "reachy"], a, "x") && Reaches(t, ["irc", "reachy"], b, "x")
  {
    var s := Added(Root(p), a, Some(p), IRC);
    var t := Added(s, b, Some(p), REACHY);
    KindsDisjoint();
    assert s.defs[a].kinds == IRC.kinds && s.defs[p].parent == None;
    var kinds := ["irc", "reachy"];
    assert SameFold(kinds[0], IRC.kinds.value[0]) && SameFold(kinds[1], REACHY.kinds.value[0]);
    assert Admits(kinds, t.defs[a]) && Admits(kinds, t.defs[b]);
  }

  /**
   * Two declared names that differ only past the buffer do not collide, yet
   * are stored alike: the second one is then hidden behind an equal.
   */
  lemma LongNamesClash(a: Addr, b: Addr, stem: string, owner: int)
    requires a != b && |stem| == NAME_SZ - 1
    ensures var one := Decl(stem + "1", "", None, METHOD_ANY, owner);
      var two := Decl(stem + "2", "", None, METHOD_ANY, owner);
      var s := Added(State(map[], [], 0), a, None, one);
      var t := Added(s, b, None, two);
      && Clear(State(map[], [], 0), None, one) && Clear(s, None, two)
      && Answers(t.defs[a], stem) && Answers(t.defs[b], stem) && !Unambiguous(t)
  {
    var one := Decl(stem + "1", "", None, METHOD_ANY, owner);
    var two := Decl(stem + "2", "", None, METHOD_ANY, owner);
    var s := Added(State(map[], [], 0), a, None, one);
    var t := Added(s, b, None, two);
    assert Stored(one.name) == stem && Stored(two.name) == stem;
    assert !Answers(s.defs[a], two.name);
    assert Answers(t.defs[a], stem) && Answers(t.defs[b], stem);
    assert Overlap(t.defs[a].kinds, t.defs[b].kinds) && !Apart(t, a, b);
  }
}
