/**
 * The command definitions of core/cmd.c: a forest of parents and children
 * beside a global list, newest first. The intrusive sibling and next chains
 * are sequences here.
 */
module CmdForest {
  import opened Ascii
  import opened Options
  import opened Seqs

  const NAME_SZ := 32
  const KINDS_MAX := 8

  /** One bit of a method_type_t mask; a mask is the set of its bits. */
  type BitNo = n: int | 0 <= n < 32
  datatype Bit = Bit(n: BitNo)

  const METHOD_ANY := set n: int | 0 <= n < 32 :: Bit(n)

  datatype Addr = Addr(n: int)

  datatype Def = Def(
    serial: int,
    name: string,
    abbrev: string,
    kinds: Option<seq<string>>,
    methods: set<Bit>,
    owner: int,
    parent: Option<Addr>,
    kids: seq<Addr>)

  /** What a caller declares. The abbreviation may be empty, the kinds may be absent. */
  datatype Decl = Decl(name: string, abbrev: string, kinds: Option<seq<string>>, methods: set<Bit>, owner: int)

  datatype State = State(defs: map<Addr, Def>, list: seq<Addr>, last: int)

  /** The stored form of a name: cut to fit its buffer. */
  function Stored(s: string): string { Upto(s, NAME_SZ - 1) }

  /** strncasecmp over the name bound. */
  predicate Same(a: string, b: string) { SameFold(Upto(a, NAME_SZ), Upto(b, NAME_SZ)) }

  /** kind_filters_overlap: an absent filter overlaps everything. */
  predicate Overlap(a: Option<seq<string>>, b: Option<seq<string>>) {
    a.None? || b.None? ||
    exists i, j :: 0 <= i < |a.value| && i < KINDS_MAX && 0 <= j < |b.value| && j < KINDS_MAX &&
      SameFold(a.value[i], b.value[j])
  }

  /** `d` answers to `str`. */
  predicate Answers(d: Def, str: string) { Same(d.name, str) || (d.abbrev != "" && Same(d.abbrev, str)) }

  predicate Hits(d: Def, parent: Option<Addr>, str: string, kinds: Option<seq<string>>) {
    d.parent == parent && Answers(d, str) && Overlap(d.kinds, kinds)
  }

  /** def_name_collides_for_kind_locked over the children of one parent. */
  predicate Collides(s: State, parent: Option<Addr>, str: string, kinds: Option<seq<string>>) {
    exists a :: a in s.defs && Hits(s.defs[a], parent, str, kinds)
  }

  /** reg_check_collisions_locked. */
  predicate Clear(s: State, parent: Option<Addr>, d: Decl) {
    !Collides(s, parent, d.name, d.kinds) && (d.abbrev == "" || !Collides(s, parent, d.abbrev, d.kinds))
  }

  /** Methods a new definition is offered on: never more than its parent. */
  function MaskUnder(s: State, parent: Option<Addr>, methods: set<Bit>): (r: set<Bit>)
    requires parent.Some? ==> parent.value in s.defs
    ensures forall b :: b in r <==> b in methods && (parent.Some? ==> b in s.defs[parent.value].methods)
  {
    assert forall b: Bit :: b == Bit(b.n) && b in METHOD_ANY;
    if parent.None? then methods
    else if methods == METHOD_ANY then s.defs[parent.value].methods
    else methods * s.defs[parent.value].methods
  }

  /** reg_populate_def: link under the parent and at the head of the list. */
  function Added(s: State, a: Addr, parent: Option<Addr>, d: Decl): State
    requires parent.Some? ==> parent.value in s.defs
  {
    var def := Def(s.last + 1, Stored(d.name), Stored(d.abbrev), d.kinds, MaskUnder(s, parent, d.methods), d.owner, parent, []);
    var defs := if parent.None? then s.defs
                else s.defs[parent.value := s.defs[parent.value].(kids := [a] + s.defs[parent.value].kids)];
    State(defs[a := def], [a] + s.list, s.last + 1)
  }

  /** The definition says what was declared, and is offered on what it and its parent are. */
  ghost predicate AsDeclared(s: State, a: Addr, parent: Option<Addr>, d: Decl) {
    && a in s.defs && s.defs[a].parent == parent && s.defs[a].owner == d.owner && s.defs[a].kinds == d.kinds
    && s.defs[a].name == Upto(d.name, NAME_SZ - 1) && s.defs[a].abbrev == Upto(d.abbrev, NAME_SZ - 1) && s.defs[a].kids == []
    && (parent.Some? ==>
          parent.value in s.defs && |s.defs[parent.value].kids| > 0 && s.defs[parent.value].kids[0] == a)
    && forall b :: b in s.defs[a].methods <==> b in d.methods && (parent.Some? ==> b in s.defs[parent.value].methods)
  }

  // What every operation keeps

  /** One definition is linked both ways, younger than its parent, and offered no wider. */
  ghost predicate LinkedOk(s: State, a: Addr)
    requires a in s.defs
  {
    var d := s.defs[a];
    && 1 <= d.serial <= s.last
    && NoDup(d.kids)
    && (forall c :: c in d.kids ==> c in s.defs && s.defs[c].parent == Some(a))
    && (d.parent.Some? ==>
          && d.parent.value in s.defs && a in s.defs[d.parent.value].kids
          && s.defs[d.parent.value].serial < d.serial
          && d.methods <= s.defs[d.parent.value].methods)
  }

  /** The list holds every definition once, and the links form a forest. */
  ghost predicate Forest(s: State) {
    && NoDup(s.list) && s.last >= 0
    && (forall a :: a in s.list <==> a in s.defs)
    && (forall a {:trigger LinkedOk(s, a)} :: a in s.defs ==> LinkedOk(s, a))
  }

  lemma AddedNew(s: State, a: Addr, parent: Option<Addr>, d: Decl)
    requires Forest(s) && a !in s.defs && (parent.Some? ==> parent.value in s.defs)
    ensures LinkedOk(Added(s, a, parent, d), a)
  {
    assert parent.Some? ==> LinkedOk(s, parent.value);
  }

  lemma AddedOld(s: State, a: Addr, parent: Option<Addr>, d: Decl, b: Addr)
    requires Forest(s) && a !in s.defs && (parent.Some? ==> parent.value in s.defs) && b in s.defs
    ensures LinkedOk(Added(s, a, parent, d), b)
  {
    var t, old' := Added(s, a, parent, d), s.defs[b];
    assert LinkedOk(s, b);
    assert a !in old'.kids;
    NoDupSplit([a], old'.kids);
    if parent == Some(b) {
      assert t.defs[b] == old'.(kids := [a] + old'.kids);
    } else {
      assert t.defs[b] == old';
    }
    forall c | c in t.defs[b].kids ensures c in t.defs && t.defs[c].parent == Some(b) {
      if c != a { assert c in old'.kids; }
    }
  }

  lemma AddedForest(s: State, a: Addr, parent: Option<Addr>, d: Decl)
    requires Forest(s) && a !in s.defs && (parent.Some? ==> parent.value in s.defs)
    ensures Forest(Added(s, a, parent, d))
  {
    var t := Added(s, a, parent, d);
    NoDupSplit([a], s.list);
    forall b | b in t.defs ensures LinkedOk(t, b) {
      if b == a { AddedNew(s, a, parent, d); } else { AddedOld(s, a, parent, d, b); }
    }
  }
}
