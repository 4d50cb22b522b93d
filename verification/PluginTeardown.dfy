/**
 * Taking a closure down in reverse list order: when the dependency refusal of
 * plugin_unload_locked can trip, and what the registry looks like after every
 * unload, after a rollback and after a full reload (core/plugin.c).
 */
module PluginTeardown {
  import opened Seqs
  import opened PluginGraph
  import opened PluginReload

  lemma {:induction false} MinusMembers(list: seq<Plugin>, gone: seq<Plugin>)
    ensures forall p :: p in Minus(list, gone) <==> p in list && p !in gone
    ensures NoDup(list) ==> NoDup(Minus(list, gone))
  {
    if list != [] {
      assert list == [list[0]] + list[1..];
      NoDupSplit([list[0]], list[1..]);
      MinusMembers(list[1..], gone);
      NoDupSplit([list[0]], Minus(list[1..], gone));
    }
  }

  lemma {:induction false} MinusNothing(list: seq<Plugin>)
    ensures Minus(list, []) == list
  {
    if list != [] { MinusNothing(list[1..]); }
  }

  lemma {:induction false} MinusAbsent(list: seq<Plugin>, t: Plugin, gone: seq<Plugin>)
    requires t !in list
    ensures Minus(list, [t] + gone) == Minus(list, gone)
  {
    if list != [] { MinusAbsent(list[1..], t, gone); }
  }

  lemma RemoveCons(x: Plugin, rest: seq<Plugin>, t: Plugin)
    ensures Remove([x] + rest, t) == if x == t then rest else [x] + Remove(rest, t)
  {
    assert ([x] + rest)[1..] == rest;
  }

  lemma NoDupTail(list: seq<Plugin>)
    requires NoDup(list) && list != []
    ensures NoDup(list[1..]) && list[0] !in list[1..]
  {
  }

  lemma MinusCons(list: seq<Plugin>, gone: seq<Plugin>)
    requires list != []
    ensures Minus(list, gone) == if list[0] in gone then Minus(list[1..], gone) else [list[0]] + Minus(list[1..], gone)
  {
  }

  lemma {:induction false} MinusRemove(list: seq<Plugin>, t: Plugin, gone: seq<Plugin>)
    requires NoDup(list) && t !in gone
    ensures Remove(Minus(list, gone), t) == Minus(list, [t] + gone)
  {
    if list == [] { return; }
    var x, tail := list[0], list[1..];
    var rest := Minus(tail, gone);
    NoDupTail(list);
    MinusCons(list, gone);
    MinusCons(list, [t] + gone);
    if x == t {
      MinusAbsent(tail, t, gone);
      RemoveCons(x, rest, t);
    } else {
      MinusRemove(tail, t, gone);
      assert x in [t] + gone <==> x in gone;
      if x !in gone { RemoveCons(x, rest, t); }
    }
  }

  /** List order survives the restriction. */
  lemma {:induction false} RestrictOrder(list: seq<Plugin>, keep: seq<Plugin>, x: nat, y: nat) returns (a: nat, b: nat)
    requires x < y < |Restrict(list, keep)|
    ensures a < b < |list| && list[a] == Restrict(list, keep)[x] && list[b] == Restrict(list, keep)[y]
  {
    var rest := Restrict(list[1..], keep);
    if list[0] !in keep {
      a, b := RestrictOrder(list[1..], keep, x, y);
      a, b := a + 1, b + 1;
    } else if x == 0 {
      RestrictMembers(list[1..], keep);
      assert rest[y - 1] in list[1..];
      var m :| 0 <= m < |list[1..]| && list[1..][m] == rest[y - 1];
      a, b := 0, m + 1;
    } else {
      a, b := RestrictOrder(list[1..], keep, x - 1, y - 1);
      a, b := a + 1, b + 1;
    }
  }

  /** A later member of the closure provides nothing an earlier one requires. */
  ghost predicate ForwardOnly(out: seq<Plugin>) {
    forall i, j {:trigger Needs(out[i], out[j])} :: 0 <= i < j < |out| ==> !Needs(out[i], out[j])
  }

  /** An earlier member of the closure requires a feature of member `i`. */
  ghost predicate Depended(out: seq<Plugin>, i: nat)
    requires i < |out|
  {
    exists k :: 0 <= k < i && Needs(out[k], out[i])
  }

  ghost predicate ClosedIn(list: seq<Plugin>, have: seq<Plugin>) {
    forall p, q {:trigger Needs(p, q)} :: p in list && q in have && Needs(p, q) ==> p in have
  }

  /** `have` is the least set holding `target` and every plugin that requires a feature of a member. */
  ghost predicate LeastClosure(list: seq<Plugin>, target: Plugin, have: seq<Plugin>) {
    && target in have && ClosedIn(list, have)
    && (forall p :: p in have ==> p in list)
    && (forall s: iset<Plugin>, p {:trigger Inductive(list, target, s), p in have} ::
          Inductive(list, target, s) && p in have ==> p in s)
  }

  /** The dependency refusal of plugin_unload_locked. */
  ghost predicate Refused(list: seq<Plugin>, target: Plugin) {
    exists q {:trigger Needs(q, target)} :: q in list && q != target && Needs(q, target)
  }

  /**
   * With the members after `i` already down, unloading member `i` is refused
   * exactly when an earlier member of the closure requires a feature of it.
   */
  lemma RefusedIff(list: seq<Plugin>, have: seq<Plugin>, i: nat)
    requires NoDup(list) && ClosedIn(list, have) && i < |Restrict(list, have)|
    ensures var out := Restrict(list, have);
      Refused(Minus(list, out[i + 1..]), out[i]) <==> Depended(out, i)
  {
    var out := Restrict(list, have);
    var gone := out[i + 1..];
    RestrictMembers(list, have);
    MinusMembers(list, gone);
    assert out[i] in out;
    if Refused(Minus(list, gone), out[i]) {
      var q :| q in Minus(list, gone) && q != out[i] && Needs(q, out[i]);
      var k := InPrefix(out, i, q);
    }
    if k :| 0 <= k < i && Needs(out[k], out[i]) {
      NotInSuffix(out, k, i);
      assert out[k] in out && out[k] in Minus(list, gone);
    }
  }

  /** A resolved list with one provider per feature never trips the refusal. */
  lemma ResolvedForwardOnly(list: seq<Plugin>, have: seq<Plugin>)
    requires NoDup(list) && Resolved(list) && OneProvider(list)
    ensures ForwardOnly(Restrict(list, have))
  {
    var out := Restrict(list, have);
    forall i, j | 0 <= i < j < |out| ensures !Needs(out[i], out[j]) {
      var a, b := RestrictOrder(list, have, i, j);
      assert Met(list[a], list[..a]);
      forall f | f in list[a].needs ensures f !in list[b].offers {
        assert Provided(list[..a], f);
        var m :| 0 <= m < a && f in list[..a][m].offers;
        assert list[m] == list[..a][m];
      }
    }
  }

  /** Removing a plugin nobody else requires keeps the list in dependency order. */
  lemma RemoveKeepsResolved(list: seq<Plugin>, t: Plugin)
    requires NoDup(list) && Resolved(list) && t in list && !Refused(list, t)
    ensures Resolved(Remove(list, t))
  {
    var k :| 0 <= k < |list| && list[k] == t;
    RemoveFirst(list, k);
    var r := list[..k] + list[k + 1..];
    forall i | 0 <= i < |r| ensures Met(r[i], r[..i]) {
      var o := if i < k then i else i + 1;
      RemovedPrefix(list, k, i);
      assert Met(list[o], list[..o]) && list[o] in list && !Needs(list[o], t);
      MetWithout(list[o], list[..o], r[..i], t);
    }
  }

  lemma RemovedPrefix(list: seq<Plugin>, k: nat, i: nat)
    requires NoDup(list) && k < |list| && i < |list| - 1
    ensures var o := if i < k then i else i + 1; var r := list[..k] + list[k + 1..];
      && list[o] == r[i] && list[o] != list[k]
      && forall m :: 0 <= m < o && list[..o][m] != list[k] ==> list[..o][m] in r[..i]
  {
    var o := if i < k then i else i + 1;
    var r := list[..k] + list[k + 1..];
    forall m | 0 <= m < o && list[..o][m] != list[k] ensures list[..o][m] in r[..i] {
      assert r[..i][if m < k then m else m - 1] == list[m];
    }
  }

  lemma MetWithout(p: Plugin, before: seq<Plugin>, after: seq<Plugin>, t: Plugin)
    requires Met(p, before) && !Needs(p, t)
    requires forall i :: 0 <= i < |before| && before[i] != t ==> before[i] in after
    ensures Met(p, after)
  {
    forall f | f in p.needs ensures Provided(after, f) {
      assert Provided(before, f);
      var m :| 0 <= m < |before| && f in before[m].offers;
      assert before[m] in after;
      var n :| 0 <= n < |after| && after[n] == before[m];
    }
  }

  const X := Plugin("x", ["f"], [], true, "x.so")
  const T := Plugin("t", ["t"], [], true, "t.so")
  const P := Plugin("p", ["p"], ["t", "f"], true, "p.so")
  const Q := Plugin("q", ["f", "q"], ["t"], true, "q.so")

  /**
   * Two plugins providing one feature can make the refusal trip although the
   * list is resolved and the closure of `T` is whole: taking down `Q` first is
   * refused because `P` requires `f`, although `X` outside the closure has it.
   */
  lemma TwoProvidersTrip()
    ensures NoDup([X, T, P, Q]) && Resolved([X, T, P, Q])
    ensures LeastClosure([X, T, P, Q], T, [T, P, Q]) && Restrict([X, T, P, Q], [T, P, Q]) == [T, P, Q]
    ensures Refused([X, T, P, Q], Q)
  {
    assert "f" in X.offers && "t" in T.offers && "f" in P.needs && "f" in Q.offers;
    assert Needs(P, Q) && P in [X, T, P, Q];
    TripResolved();
    TripLeast();
    TripRestrict();
  }

  lemma TripRestrict()
    ensures Restrict([X, T, P, Q], [T, P, Q]) == [T, P, Q]
  {
    var have := [T, P, Q];
    assert Restrict([Q], have) == [Q] by { assert [Q][1..] == []; }
    assert Restrict([P, Q], have) == [P, Q] by { assert [P, Q][1..] == [Q]; }
    assert Restrict([T, P, Q], have) == [T, P, Q] by { assert [T, P, Q][1..] == [P, Q]; }
    assert [X, T, P, Q][1..] == [T, P, Q];
  }

  lemma TripLeast()
    ensures LeastClosure([X, T, P, Q], T, [T, P, Q])
  {
    var list, have := [X, T, P, Q], [T, P, Q];
    assert "t" in T.offers && "t" in P.needs && "t" in Q.needs;
    assert Needs(P, T) && Needs(Q, T) && T in list && P in list && Q in list;
    assert forall q :: !Needs(X, q);
  }

  lemma TripResolved()
    ensures Resolved([X, T, P, Q])
  {
    var list := [X, T, P, Q];
    assert "f" in X.offers && "t" in T.offers;
    assert list[..2] == [X, T] && list[..3] == [X, T, P];
    assert [X, T][0] == X && [X, T][1] == T && [X, T, P][1] == T;
    assert Provided([X, T], "f") && Provided([X, T], "t") && Provided([X, T, P], "t");
    assert Met(P, [X, T]) && Met(Q, [X, T, P]);
  }
}
