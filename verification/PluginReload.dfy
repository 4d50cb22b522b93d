/**
 * Reloading a plugin: the closure of what depends on it, taking the closure
 * down deepest dependent first, and bringing it back up (core/plugin.c).
 */
module PluginReload {
  import opened Options
  import opened Seqs
  import opened PluginGraph
  import opened PluginResolve

  const MAX_CLOSURE: nat := 64

  /** `members` holds the target and everything that requires a feature of a member. */
  ghost predicate Inductive(list: seq<Plugin>, target: Plugin, members: iset<Plugin>) {
    && target in members
    && forall p, q :: p in list && q in list && q in members && Needs(p, q) ==> p in members
  }

  /** `p` is in every set that holds the target and whoever requires a feature of a member. */
  ghost predicate Forced(list: seq<Plugin>, target: Plugin, p: Plugin) {
    forall s: iset<Plugin> :: Inductive(list, target, s) ==> p in s
  }

  /** The members of `list` that are in `keep`, in list order. */
  ghost function Restrict(list: seq<Plugin>, keep: seq<Plugin>): seq<Plugin> {
    if list == [] then []
    else (if list[0] in keep then [list[0]] else []) + Restrict(list[1..], keep)
  }

  lemma {:induction false} RestrictMembers(list: seq<Plugin>, keep: seq<Plugin>)
    ensures forall p :: p in Restrict(list, keep) <==> p in list && p in keep
    ensures NoDup(list) ==> NoDup(Restrict(list, keep))
  {
    if list != [] {
      assert list == [list[0]] + list[1..];
      NoDupSplit([list[0]], list[1..]);
      RestrictMembers(list[1..], keep);
      NoDupSplit([list[0]], Restrict(list[1..], keep));
    }
  }

  /** The members of `list` that are not in `gone`, in list order. */
  ghost function Minus(list: seq<Plugin>, gone: seq<Plugin>): seq<Plugin> {
    if list == [] then []
    else (if list[0] in gone then [] else [list[0]]) + Minus(list[1..], gone)
  }

  ghost predicate OneProvider(list: seq<Plugin>) {
    forall i, j, f :: 0 <= i < |list| && 0 <= j < |list| && f in list[i].offers && f in list[j].offers ==> i == j
  }

  ghost predicate SameName(p: Plugin, q: Plugin) { p.name == q.name }

  /** validate_desc refuses a second plugin of the same name. */
  ghost predicate UniqueNames(list: seq<Plugin>) {
    && NoDup(list)
    && forall p, q {:trigger SameName(p, q)} :: p in list && q in list && SameName(p, q) ==> p == q
  }

  // ---- The closure ----------------------------------------------------------

  /** No member already in provides `f`. */
  ghost predicate NoneOffers(list: seq<Plugin>, inn: seq<bool>, f: string) {
    forall j :: 0 <= j < |list| && j < |inn| && inn[j] ==> f !in list[j].offers
  }

  /** Some member already in provides a feature `p` requires. */
  method Joins(p: Plugin, list: seq<Plugin>, inn: array<bool>) returns (r: bool)
    requires inn.Length == |list|
    ensures r <==> exists j :: 0 <= j < |list| && inn[j] && Needs(p, list[j])
  {
    for k := 0 to |p.needs|
      invariant forall m :: 0 <= m < k ==> NoneOffers(list, inn[..], p.needs[m])
    {
      for j := 0 to |list|
        invariant forall m :: 0 <= m < j && inn[m] ==> p.needs[k] !in list[m].offers
      {
        if inn[j] {
          var hit := Offers(list[j], p.needs[k]);
          if hit { return true; }
        }
      }
    }
    return false;
  }

  /** The flags mark exactly `have`, nobody of which any inductive set can leave out. */
  ghost predicate Joined(list: seq<Plugin>, target: Plugin, inn: seq<bool>, have: seq<Plugin>) {
    && |inn| == |list| && NoDup(have) && target in have
    && (forall i :: 0 <= i < |list| ==> (inn[i] <==> list[i] in have))
    && (forall i :: 0 <= i < |have| ==> have[i] in list)
    && (forall s: iset<Plugin>, i :: Inductive(list, target, s) && 0 <= i < |have| ==> have[i] in s)
  }

  lemma JoinOne(list: seq<Plugin>, target: Plugin, inn: seq<bool>, have: seq<Plugin>, i: nat, j: nat)
    requires NoDup(list) && Joined(list, target, inn, have) && i < |list| && j < |list|
    requires !inn[i] && inn[j] && Needs(list[i], list[j])
    ensures Joined(list, target, inn[i := true], have + [list[i]])
    ensures |have| < |list|
  {
    var h := have + [list[i]];
    NoDupSplit(have, [list[i]]);
    ChainFits(list, h);
    forall s: iset<Plugin>, k | Inductive(list, target, s) && 0 <= k < |h| ensures h[k] in s {
      if k == |have| {
        var m :| 0 <= m < |have| && have[m] == list[j];
        assert list[j] in s;
      }
    }
  }

  /** Nobody outside the flags requires a feature of somebody inside. */
  ghost predicate Settled(list: seq<Plugin>, inn: seq<bool>, upto: nat)
    requires |inn| == |list| && upto <= |list|
  {
    forall i, j {:trigger Needs(list[i], list[j])} ::
      0 <= i < upto && 0 <= j < |list| && inn[j] && Needs(list[i], list[j]) ==> inn[i]
  }

  method ClosurePass(list: seq<Plugin>, target: Plugin, inn: array<bool>, ghost have0: seq<Plugin>)
    returns (progress: bool, ghost have: seq<Plugin>)
    requires NoDup(list) && inn.Length == |list| && Joined(list, target, inn[..], have0)
    modifies inn
    ensures Joined(list, target, inn[..], have) && |have| <= |list|
    ensures if progress then |have| > |have0| else have == have0 && Settled(list, inn[..], |list|)
  {
    progress, have := false, have0;
    ChainFits(list, have);
    for i := 0 to |list|
      invariant Joined(list, target, inn[..], have) && |have| <= |list|
      invariant if progress then |have| > |have0| else have == have0 && Settled(list, inn[..], i)
    {
      if !inn[i] {
        var join := Joins(list[i], list, inn);
        if join {
          ghost var j :| 0 <= j < |list| && inn[j] && Needs(list[i], list[j]);
          JoinOne(list, target, inn[..], have, i, j);
          inn[i] := true;
          progress, have := true, have + [list[i]];
        }
      }
    }
  }

  /** plugin_closure, up to its cap: the least inductive set, in list order. */
  method Closure(list: seq<Plugin>, target: Plugin, cap: nat) returns (out: Option<seq<Plugin>>, ghost have: seq<Plugin>)
    requires NoDup(list) && target in list
    ensures target in have && (forall p :: p in have ==> p in list)
    ensures forall p, q :: p in list && q in have && Needs(p, q) ==> p in have
    ensures forall s: iset<Plugin>, p :: Inductive(list, target, s) && p in have ==> p in s
    ensures out == if |Restrict(list, have)| > cap then None else Some(Restrict(list, have))
    ensures out.Some? ==> |out.value| <= cap && NoDup(out.value)
    ensures out.Some? ==> forall p :: p in out.value <==> p in list && Forced(list, target, p)
  {
    var inn := new bool[|list|](i requires 0 <= i < |list| => list[i] == target);
    have := [target];
    var progress := true;
    while progress
      invariant inn.Length == |list| && fresh(inn) && Joined(list, target, inn[..], have)
      invariant !progress ==> Settled(list, inn[..], |list|)
      decreases |list| - |have|, progress
    {
      progress, have := ClosurePass(list, target, inn, have);
    }
    SettledIsClosed(list, inn[..], have);
    var snap := CopyOut(list, inn, have);
    out := if |snap| > cap then None else Some(snap);
    RestrictMembers(list, have);
    ForcedIffHad(list, target, have);
  }

  /** A closed set that every inductive set includes holds exactly the forced plugins. */
  lemma ForcedIffHad(list: seq<Plugin>, target: Plugin, have: seq<Plugin>)
    requires target in have
    requires forall p, q :: p in list && q in have && Needs(p, q) ==> p in have
    requires forall s: iset<Plugin>, p :: Inductive(list, target, s) && p in have ==> p in s
    ensures forall p :: p in have <==> Forced(list, target, p)
  {
    var mine := iset p | p in have;
    assert Inductive(list, target, mine);
    forall p ensures p in have <==> Forced(list, target, p) {
      if Forced(list, target, p) { assert p in mine; }
    }
  }

  lemma SettledIsClosed(list: seq<Plugin>, inn: seq<bool>, have: seq<Plugin>)
    requires |inn| == |list| && Settled(list, inn, |list|)
    requires forall i :: 0 <= i < |list| ==> (inn[i] <==> list[i] in have)
    requires forall i :: 0 <= i < |have| ==> have[i] in list
    ensures forall p, q :: p in list && q in have && Needs(p, q) ==> p in have
  {
    forall p, q | p in list && q in have && Needs(p, q) ensures p in have {
      var i :| 0 <= i < |list| && list[i] == p;
      assert q in list;
      var j :| 0 <= j < |list| && list[j] == q;
    }
  }

  method CopyOut(list: seq<Plugin>, inn: array<bool>, ghost have: seq<Plugin>) returns (snap: seq<Plugin>)
    requires inn.Length == |list| && forall i :: 0 <= i < |list| ==> (inn[i] <==> list[i] in have)
    ensures snap == Restrict(list, have)
  {
    snap := [];
    for i := 0 to |list|
      invariant Restrict(list, have) == snap + Restrict(list[i..], have)
    {
      assert list[i..][1..] == list[i + 1..];
      if inn[i] { snap := snap + [list[i]]; }
    }
  }
}
