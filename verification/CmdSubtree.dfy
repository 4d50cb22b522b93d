/** A definition and its descendants: by the parent links, and as the walk of the children collects them. */
module CmdSubtree {
  import opened Options
  import opened Seqs
  import opened CmdForest

  /** `b` is `a` or below it, following parents up. */
  predicate Under(s: State, b: Addr, a: Addr)
    decreases if b in s.defs then s.defs[b].serial else 0
  {
    || b == a
    || (&& b in s.defs && s.defs[b].parent.Some?
        && var p := s.defs[b].parent.value;
           p in s.defs && 0 < s.defs[p].serial < s.defs[b].serial && Under(s, p, a))
  }

  function Height(s: State, serial: int): nat { if serial <= s.last then s.last - serial else 0 }

  /** def_collect_subtree_locked: children first, newest first, then the node. */
  function Collect(s: State, a: Addr): seq<Addr>
    requires a in s.defs
    decreases Height(s, s.defs[a].serial), |s.defs[a].kids| + 1
  {
    CollectKids(s, s.defs[a].kids, s.defs[a].serial) + [a]
  }

  function CollectKids(s: State, kids: seq<Addr>, above: int): seq<Addr>
    decreases Height(s, above), |kids|
  {
    if |kids| == 0 then []
    else
      (if kids[0] in s.defs && above < s.defs[kids[0]].serial <= s.last then Collect(s, kids[0]) else [])
      + CollectKids(s, kids[1..], above)
  }

  // The two agree

  lemma {:induction false} UnderSerial(s: State, b: Addr, a: Addr)
    requires Forest(s) && b in s.defs && Under(s, b, a)
    ensures a in s.defs && s.defs[a].serial <= s.defs[b].serial
    ensures a != b ==> s.defs[a].serial < s.defs[b].serial
    decreases s.defs[b].serial
  {
    assert LinkedOk(s, b);
    if b != a { UnderSerial(s, s.defs[b].parent.value, a); }
  }

  lemma {:induction false} UnderTrans(s: State, c: Addr, b: Addr, a: Addr)
    requires Under(s, c, b) && Under(s, b, a)
    ensures Under(s, c, a)
    decreases if c in s.defs then s.defs[c].serial else 0
  {
    if c != b { UnderTrans(s, s.defs[c].parent.value, b, a); }
  }

  lemma KidIsUnder(s: State, c: Addr, a: Addr)
    requires Forest(s) && a in s.defs && c in s.defs[a].kids
    ensures c in s.defs && s.defs[a].serial < s.defs[c].serial <= s.last && Under(s, c, a) && s.defs[c].parent == Some(a)
  {
    assert LinkedOk(s, a) && LinkedOk(s, c);
    assert Under(s, a, a);
  }

  /** Below a node means below exactly one of its children. */
  lemma {:induction false} UnderKid(s: State, b: Addr, a: Addr) returns (c: Addr)
    requires Forest(s) && a in s.defs && b in s.defs && Under(s, b, a) && b != a
    ensures c in s.defs[a].kids && Under(s, b, c)
    decreases s.defs[b].serial
  {
    assert LinkedOk(s, b);
    var p := s.defs[b].parent.value;
    if p == a {
      c := b;
    } else {
      c := UnderKid(s, p, a);
      assert LinkedOk(s, p);
    }
  }

  lemma {:induction false} OneKid(s: State, b: Addr, c: Addr, d: Addr)
    requires Forest(s) && b in s.defs && Under(s, b, c) && Under(s, b, d)
    requires c in s.defs && d in s.defs && s.defs[c].parent == s.defs[d].parent
    ensures c == d
    decreases s.defs[b].serial
  {
    assert LinkedOk(s, b) && LinkedOk(s, c) && LinkedOk(s, d);
    if b == c && b != d {
      UnderSerial(s, s.defs[b].parent.value, d);
    } else if b == d && b != c {
      UnderSerial(s, s.defs[b].parent.value, c);
    } else if b != c {
      OneKid(s, s.defs[b].parent.value, c, d);
    }
  }

  /** The walk collects the definition and its descendants, each once. */
  lemma {:induction false} CollectIs(s: State, a: Addr)
    requires Forest(s) && a in s.defs
    ensures forall b :: b in Collect(s, a) <==> b in s.defs && Under(s, b, a)
    ensures NoDup(Collect(s, a))
    decreases Height(s, s.defs[a].serial), |s.defs[a].kids| + 1
  {
    var kids, low := s.defs[a].kids, s.defs[a].serial;
    assert LinkedOk(s, a);
    forall c | c in kids ensures c in s.defs && low < s.defs[c].serial <= s.last && s.defs[c].parent == Some(a) {
      KidIsUnder(s, c, a);
    }
    CollectKidsIs(s, kids, low, a);
    var below := CollectKids(s, kids, low);
    forall b ensures b in below + [a] <==> b in s.defs && Under(s, b, a) {
      if b in s.defs && Under(s, b, a) && b != a { var c := UnderKid(s, b, a); assert UnderSome(s, b, kids); }
      if b in below {
        var i :| 0 <= i < |kids| && Under(s, b, kids[i]);
        KidIsUnder(s, kids[i], a);
        UnderTrans(s, b, kids[i], a);
      }
    }
    assert a !in below by {
      forall i | 0 <= i < |kids| ensures !Under(s, a, kids[i]) { NotUnderKid(s, a, kids[i]); }
    }
    NoDupSplit(below, [a]);
  }

  lemma NotUnderKid(s: State, a: Addr, c: Addr)
    requires Forest(s) && a in s.defs && c in s.defs && s.defs[a].serial < s.defs[c].serial
    ensures !Under(s, a, c)
  {
    if Under(s, a, c) { UnderSerial(s, a, c); }
  }

  ghost predicate UnderSome(s: State, b: Addr, kids: seq<Addr>) {
    exists i :: 0 <= i < |kids| && Under(s, b, kids[i])
  }

  lemma {:induction false} CollectKidsIs(s: State, kids: seq<Addr>, above: int, a: Addr)
    requires Forest(s) && NoDup(kids)
    requires forall c :: c in kids ==> c in s.defs && above < s.defs[c].serial <= s.last && s.defs[c].parent == Some(a)
    ensures forall b :: b in CollectKids(s, kids, above) <==> b in s.defs && UnderSome(s, b, kids)
    ensures NoDup(CollectKids(s, kids, above))
    decreases Height(s, above), |kids|
  {
    if |kids| > 0 {
      var c, rest := kids[0], kids[1..];
      assert c in kids && kids == [c] + rest;
      NoDupSplit([c], rest);
      CollectIs(s, c);
      CollectKidsIs(s, rest, above, a);
      var x, y := Collect(s, c), CollectKids(s, rest, above);
      assert CollectKids(s, kids, above) == x + y;
      forall b ensures b in x + y <==> b in s.defs && UnderSome(s, b, kids) {
        SomeSplit(s, b, c, rest);
      }
      forall b | b in x ensures b !in y {
        if UnderSome(s, b, rest) {
          var i :| 0 <= i < |rest| && Under(s, b, rest[i]);
          assert rest[i] in kids && rest[i] != c;
          OneKid(s, b, c, rest[i]);
        }
      }
      NoDupSplit(x, y);
    }
  }

  lemma SomeSplit(s: State, b: Addr, c: Addr, rest: seq<Addr>)
    ensures UnderSome(s, b, [c] + rest) <==> Under(s, b, c) || UnderSome(s, b, rest)
  {
    var kids := [c] + rest;
    if Under(s, b, c) { assert kids[0] == c; }
    if UnderSome(s, b, rest) { var i :| 0 <= i < |rest| && Under(s, b, rest[i]); assert kids[i + 1] == rest[i]; }
    if UnderSome(s, b, kids) {
      var i :| 0 <= i < |kids| && Under(s, b, kids[i]);
      assert i > 0 ==> kids[i] == rest[i - 1];
    }
  }
}
