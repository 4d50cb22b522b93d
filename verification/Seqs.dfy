/** Sequences used as the singly linked lists of the C source. */
module Seqs {
  predicate NoDup<T(==)>(s: seq<T>) {
    forall i, j :: 0 <= i < j < |s| ==> s[i] != s[j]
  }

  /** Unlink the first node equal to `x`. */
  function Remove<T(==)>(s: seq<T>, x: T): (r: seq<T>)
    ensures x !in s ==> r == s
    ensures x in s ==> |r| == |s| - 1
  {
    if s == [] then []
    else if s[0] == x then s[1..]
    else
      assert s == [s[0]] + s[1..];
      [s[0]] + Remove(s[1..], x)
  }

  lemma NoDupSplit<T>(s: seq<T>, t: seq<T>)
    ensures NoDup(s + t) <==> NoDup(s) && NoDup(t) && (forall x :: x in s ==> x !in t)
  {
    var u := s + t;
    assert forall i :: 0 <= i < |s| ==> u[i] == s[i];
    assert forall i :: 0 <= i < |t| ==> u[|s| + i] == t[i];
    if NoDup(u) {
      forall x | x in s ensures x !in t {
        var i :| 0 <= i < |s| && s[i] == x;
        assert forall j :: 0 <= j < |t| ==> t[j] == u[|s| + j] != u[i];
      }
    } else {
      var i, j :| 0 <= i < j < |u| && u[i] == u[j];
      assert j >= |s| ==> u[j] in t;
    }
  }

  lemma {:induction false} RemoveMembers<T>(s: seq<T>, x: T)
    requires NoDup(s)
    ensures NoDup(Remove(s, x))
    ensures forall y :: y in Remove(s, x) <==> y in s && y != x
  {
    if s != [] {
      assert s == [s[0]] + s[1..];
      NoDupSplit([s[0]], s[1..]);
      RemoveMembers(s[1..], x);
      NoDupSplit([s[0]], Remove(s[1..], x));
    }
  }

  lemma AllIndices<T, U>(s: seq<T>, m: map<T, U>)
    requires forall x :: x in s ==> x in m
    ensures forall i :: 0 <= i < |s| ==> s[i] in m
  {
  }

  lemma Pick<T>(s: set<T>) returns (x: T)
    requires s != {}
    ensures x in s
  {
    x :| x in s;
  }

  lemma {:induction false} SubsetSize<T>(x: set<T>, y: set<T>)
    requires x <= y
    ensures |x| <= |y|
  {
    if x != {} {
      var e :| e in x;
      SubsetSize(x - {e}, y - {e});
    }
  }

  lemma InPrefix<T>(s: seq<T>, i: nat, x: T) returns (k: nat)
    requires i < |s| && x in s && x != s[i] && x !in s[i + 1..]
    ensures k < i && s[k] == x
  {
    k :| 0 <= k < |s| && s[k] == x;
    forall m | i < m < |s| ensures s[m] != x { assert s[i + 1..][m - i - 1] == s[m]; }
  }

  lemma NotInSuffix<T>(s: seq<T>, k: nat, i: nat)
    requires NoDup(s) && k < i < |s|
    ensures s[k] != s[i] && s[k] !in s[i + 1..] && s[i] !in s[i + 1..]
  {
  }

  lemma {:induction false} RemoveFirst<T>(s: seq<T>, i: nat)
    requires i < |s| && s[i] !in s[..i]
    ensures Remove(s, s[i]) == s[..i] + s[i + 1..]
  {
    if i > 0 {
      assert s[..i][0] == s[0] && s[1..][..i - 1] == s[1..i];
      RemoveFirst(s[1..], i - 1);
      assert s[..i] + s[i + 1..] == [s[0]] + (s[1..][..i - 1] + s[1..][i..]);
    }
  }

  lemma Assoc<T>(a: seq<T>, b: seq<T>, c: seq<T>)
    ensures a + b + c == a + (b + c)
  {
  }
}
