/**
 * The string intern table of core/kv.c: one immortal copy per distinct
 * string, so that comparing two stored strings by pointer is comparing them
 * by value.
 */
module KvIntern {
  import opened KvTable

  const INTERN_BUCKETS := 128

  class StrNode {
    const s: string
    constructor (text: string)
      ensures s == text
    { s := text; }
  }

  class Pool {
    const table: array<seq<StrNode>>

    ghost predicate Valid()
      reads this, table
    {
      table.Length == INTERN_BUCKETS && forall b :: 0 <= b < INTERN_BUCKETS ==> ChainOk(table[b], b)
    }

    ghost predicate Has(n: StrNode)
      requires Valid()
      reads this, table
    {
      n in table[Djb2(n.s) % INTERN_BUCKETS]
    }

    constructor ()
      ensures Valid() && fresh(table)
    {
      table := new seq<StrNode>[INTERN_BUCKETS](_ => []);
    }

    /** intern_bytes: the copy already held, or a new one at the head of its chain. */
    method Intern(s: string) returns (n: StrNode)
      requires Valid()
      modifies table
      ensures Valid() && Has(n) && n.s == s
      ensures forall b, m :: 0 <= b < INTERN_BUCKETS && m in old(table[b]) ==> m in table[b]
      ensures forall b, m :: 0 <= b < INTERN_BUCKETS && m in table[b] ==> m in old(table[b]) || m == n
    {
      var b := Djb2(s) % INTERN_BUCKETS;
      var chain := table[b];
      var i := 0;
      while i < |chain|
        invariant 0 <= i <= |chain| && forall j :: 0 <= j < i ==> chain[j].s != s
      {
        if chain[i].s == s { return chain[i]; }
        i := i + 1;
      }
      n := new StrNode(s);
      table[b] := [n] + chain;
    }

    /** Two interned strings are the same pointer iff they are the same bytes. */
    lemma PointerIsValue(a: StrNode, b: StrNode)
      requires Valid() && Has(a) && Has(b)
      ensures a == b <==> a.s == b.s
    {
      var chain := table[Djb2(a.s) % INTERN_BUCKETS];
      var i :| 0 <= i < |chain| && chain[i] == a;
      if a.s == b.s { var j :| 0 <= j < |chain| && chain[j] == b; assert i == j; }
    }
  }

  ghost predicate ChainOk(s: seq<StrNode>, b: int) {
    && (forall i :: 0 <= i < |s| ==> Djb2(s[i].s) % INTERN_BUCKETS == b)
    && (forall i, j :: 0 <= i < j < |s| ==> s[i].s != s[j].s)
  }
}
