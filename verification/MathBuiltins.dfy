/** The built-in table of core/math_expr.c and the binary search over it. */
module MathBuiltins {
  /** strncmp on identifiers, which are shorter than its bound. */
  function Compare(a: string, b: string): int
    decreases |a|
  {
    if |a| == 0 then (if |b| == 0 then 0 else -1)
    else if |b| == 0 then 1
    else if a[0] != b[0] then (if a[0] < b[0] then -1 else 1)
    else Compare(a[1..], b[1..])
  }

  lemma {:induction false} CompareLaws(a: string, b: string)
    ensures Compare(a, b) == 0 <==> a == b
    ensures Compare(a, b) == -Compare(b, a)
    decreases |a|
  {
    if |a| > 0 && |b| > 0 {
      CompareLaws(a[1..], b[1..]);
      assert a == [a[0]] + a[1..] && b == [b[0]] + b[1..];
    }
  }

  lemma {:induction false} CompareTrans(a: string, b: string, c: string)
    requires Compare(a, b) < 0 && Compare(b, c) < 0
    ensures Compare(a, c) < 0
    decreases |a|
  {
    if |a| > 0 && |b| > 0 && |c| > 0 && a[0] == b[0] == c[0] { CompareTrans(a[1..], b[1..], c[1..]); }
  }

  predicate Sorted(names: seq<string>) { forall i, j :: 0 <= i < j < |names| ==> Compare(names[i], names[j]) < 0 }

  /** find_builtin: finds a name exactly when the table has it. */
  method Find(names: seq<string>, name: string) returns (at: int)
    requires Sorted(names)
    ensures at >= 0 ==> at < |names| && names[at] == name
    ensures at < 0 ==> name !in names
  {
    var lo, hi := 0, |names| - 1;
    while lo <= hi
      invariant 0 <= lo <= |names| && -1 <= hi < |names|
      invariant forall i :: 0 <= i < |names| && !(lo <= i <= hi) ==> names[i] != name
    {
      var mid := lo + (hi - lo) / 2;
      var c := Compare(name, names[mid]);
      CompareLaws(name, names[mid]);
      if c == 0 { return mid; }
      if c < 0 {
        forall i | mid <= i <= hi ensures names[i] != name { CompareLaws(names[mid], names[i]); }
        hi := mid - 1;
      } else {
        forall i | lo <= i <= mid ensures names[i] != name { CompareLaws(names[i], names[mid]); }
        lo := mid + 1;
      }
    }
    at := -1;
  }

  const NAMES := ["abs", "acos", "asin", "atan", "atan2", "ceil", "cos", "cosh", "e", "exp", "fac", "floor",
                  "ln", "log", "log10", "ncr", "npr", "pi", "pow", "sin", "sinh", "sqrt", "tan", "tanh"]

  lemma {:induction false} AdjacentSorts(names: seq<string>)
    requires forall i :: 0 <= i < |names| - 1 ==> Compare(names[i], names[i + 1]) < 0
    ensures Sorted(names)
  {
    forall i, j | 0 <= i < j < |names| ensures Compare(names[i], names[j]) < 0 { Chain(names, i, j); }
  }

  lemma {:induction false} Chain(names: seq<string>, i: nat, j: nat)
    requires i < j < |names| && forall k :: 0 <= k < |names| - 1 ==> Compare(names[k], names[k + 1]) < 0
    ensures Compare(names[i], names[j]) < 0
    decreases j
  {
    if i + 1 < j {
      Chain(names, i, j - 1);
      CompareTrans(names[i], names[j - 1], names[j]);
    }
  }

  /** The table is in the order the search needs. */
  lemma BuiltinsSorted()
    ensures Sorted(NAMES)
  {
    forall i | 0 <= i < |NAMES| - 1 ensures Compare(NAMES[i], NAMES[i + 1]) < 0 {
      if i < 8 { LowSorted(i); } else if i < 16 { MidSorted(i); } else { HighSorted(i); }
    }
    AdjacentSorts(NAMES);
  }

  lemma LowSorted(i: nat)
    requires i < 8
    ensures Compare(NAMES[i], NAMES[i + 1]) < 0
  {
    assert Compare("abs", "acos") < 0 && Compare("acos", "asin") < 0 && Compare("asin", "atan") < 0;
    assert Compare("atan", "atan2") < 0 && Compare("atan2", "ceil") < 0 && Compare("ceil", "cos") < 0;
    assert Compare("cos", "cosh") < 0 && Compare("cosh", "e") < 0;
  }

  lemma MidSorted(i: nat)
    requires 8 <= i < 16
    ensures Compare(NAMES[i], NAMES[i + 1]) < 0
  {
    assert Compare("e", "exp") < 0 && Compare("exp", "fac") < 0 && Compare("fac", "floor") < 0;
    assert Compare("floor", "ln") < 0 && Compare("ln", "log") < 0 && Compare("log", "log10") < 0;
    assert Compare("log10", "ncr") < 0 && Compare("ncr", "npr") < 0;
  }

  lemma HighSorted(i: nat)
    requires 16 <= i < 23
    ensures Compare(NAMES[i], NAMES[i + 1]) < 0
  {
    assert Compare("npr", "pi") < 0 && Compare("pi", "pow") < 0 && Compare("pow", "sin") < 0;
    assert Compare("sin", "sinh") < 0 && Compare("sinh", "sqrt") < 0 && Compare("sqrt", "tan") < 0;
    assert Compare("tan", "tanh") < 0;
  }
}
