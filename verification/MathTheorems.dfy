/** Reading back a printed tree, level by level of the grammar. */
module MathTheorems {
  import opened Seqs
  import opened MathParser
  import opened MathPrint

  /** The tokens `p` stand at `i`. */
  ghost predicate At<N>(ts: seq<Token<N>>, i: int, p: seq<Token<N>>) {
    0 <= i && i + |p| <= |ts| && forall k {:trigger p[k]} :: 0 <= k < |p| ==> ts[i + k] == p[k]
  }

  lemma AtConcat<N>(ts: seq<Token<N>>, i: int, a: seq<Token<N>>, b: seq<Token<N>>)
    requires At(ts, i, a + b)
    ensures At(ts, i, a) && At(ts, i + |a|, b)
  {
    var p := a + b;
    forall k | 0 <= k < |a| ensures ts[i + k] == a[k] { assert p[k] == a[k]; }
    forall k | 0 <= k < |b| ensures ts[i + |a| + k] == b[k] { assert p[|a| + k] == b[k]; }
  }

  lemma AtOne<N>(ts: seq<Token<N>>, i: int, x: Token<N>)
    requires At(ts, i, [x])
    ensures i < |ts| && ts[i] == x && !x.End? && !x.Bad? ==> Cur(ts, Pos(i, false)) == x
    ensures 0 <= i < |ts| && ts[i] == x
  {
    assert ts[i + 0] == [x][0];
  }

  lemma Infix<N>(ts: seq<Token<N>>, i: int, l: seq<Token<N>>, op: Token<N>, r: seq<Token<N>>)
    requires At(ts, i, l + [op] + r)
    ensures At(ts, i, l) && i + |l| < |ts| && ts[i + |l|] == op && At(ts, i + |l| + 1, r)
  {
    AtConcat(ts, i, l + [op], r);
    AtConcat(ts, i, l, [op]);
    AtOne(ts, i + |l|, op);
  }

  lemma Prefixed<N>(ts: seq<Token<N>>, i: int, x: Token<N>, r: seq<Token<N>>)
    requires At(ts, i, [x] + r) && |r| > 0
    ensures i + 1 < |ts| && ts[i] == x && At(ts, i + 1, r) && ts[i + 1] == r[0]
  {
    AtConcat(ts, i, [x], r);
    AtOne(ts, i, x);
    assert ts[i + 1 + 0] == r[0];
  }

  /** What may come after a tree printed at level `k` without being drawn into it. */
  predicate Ends<N>(k: int, x: Token<N>) {
    || x.End? || x.RParen? || x.Comma?
    || (AddOp(x) && k >= 1) || (MulOp(x) && k >= 2) || (x.Caret? && k >= 4)
  }

  /** The reader returns the value and stops at `j`, or fails. */
  ghost predicate Reads<N>(r: Out<N>, v: N, j: int, fits: bool) {
    if fits then r == Out(v, Pos(j, false)) else r.s.err
  }

  /** A tree stands at `i` where level `k` is expected, and ends there. */
  ghost predicate Stands<N>(g: Algebra<N>, ts: seq<Token<N>>, i: int, k: int, t: Tree<N>, after: int)
    requires 0 <= k <= 4
  {
    && WellFormed(g, t) && At(ts, i, Print(k, t))
    && Ends(after, Cur(ts, Pos(i + |Print(k, t)|, false)))
  }

  // What reading `t` at each level comes to: its value and its end, or an error where the nesting does not fit

  ghost predicate SumOk<N>(g: Algebra<N>, ts: seq<Token<N>>, i: int, t: Tree<N>, d: int) {
    0 <= i && i + |Print(0, t)| <= |ts| &&
    var s := Sum(g, ts, Pos(i, false), d);
    if d + Need(0, t) <= DEPTH_MAX then s == SumRest(g, ts, Eval(g, t), Pos(i + |Print(0, t)|, false), d) else s.s.err
  }

  ghost predicate TermOk<N>(g: Algebra<N>, ts: seq<Token<N>>, i: int, t: Tree<N>, d: int) {
    0 <= i && i + |Print(1, t)| <= |ts| &&
    var s := Term(g, ts, Pos(i, false), d);
    if d + Need(1, t) <= DEPTH_MAX then s == TermRest(g, ts, Eval(g, t), Pos(i + |Print(1, t)|, false), d) else s.s.err
  }

  ghost predicate UnaryOk<N>(g: Algebra<N>, ts: seq<Token<N>>, i: int, t: Tree<N>, d: int) {
    0 <= i <= |ts| &&
    Reads(Unary(g, ts, Pos(i, false), false, d), Eval(g, t), i + |Print(2, t)|, d + Need(2, t) <= DEPTH_MAX)
  }

  ghost predicate PowerOk<N>(g: Algebra<N>, ts: seq<Token<N>>, i: int, t: Tree<N>, d: int) {
    0 <= i <= |ts| && Reads(Power(g, ts, Pos(i, false), d), Eval(g, t), i + |Print(3, t)|, d + Need(3, t) <= DEPTH_MAX)
  }

  ghost predicate CallOk<N>(g: Algebra<N>, ts: seq<Token<N>>, i: int, t: Tree<N>, d: int) {
    0 <= i <= |ts| && Reads(Call(g, ts, Pos(i, false), d), Eval(g, t), i + |Print(4, t)|, d + Need(4, t) <= DEPTH_MAX)
  }

  lemma {:induction false} ReadExpr<N>(g: Algebra<N>, ts: seq<Token<N>>, i: int, t: Tree<N>, d: int)
    requires Stands(g, ts, i, 0, t, 0) && d <= DEPTH_MAX
    ensures Reads(Expr(g, ts, Pos(i, false), d), Eval(g, t), i + |Print(0, t)|, d + 1 + Need(0, t) <= DEPTH_MAX)
    decreases t, Rank(0, t), 2
  {
    if d < DEPTH_MAX { ReadSum(g, ts, i, t, d + 1); }
  }

  lemma {:induction false} ReadSum<N>(g: Algebra<N>, ts: seq<Token<N>>, i: int, t: Tree<N>, d: int)
    requires Stands(g, ts, i, 0, t, 1) && d <= DEPTH_MAX
    ensures SumOk(g, ts, i, t, d)
    decreases t, Rank(0, t), 1
  {
    if t.Sum2? { ReadSum2(g, ts, i, t, d); } else { ReadTermWhole(g, ts, i, t, d); }
  }

  lemma {:induction false} ReadSum2<N>(g: Algebra<N>, ts: seq<Token<N>>, i: int, t: Tree<N>, d: int)
    requires t.Sum2? && Stands(g, ts, i, 0, t, 1) && d <= DEPTH_MAX
    ensures SumOk(g, ts, i, t, d)
    decreases t, Rank(0, t), 0
  {
    var n := |Print(0, t.left)|;
    SumStands(g, ts, i, t);
    ReadSum(g, ts, i, t.left, d);
    ReadTermWhole(g, ts, i + n + 1, t.right, d);
    GlueSum(g, ts, i, t, n, d);
  }

  lemma GlueSum<N>(g: Algebra<N>, ts: seq<Token<N>>, i: int, t: Tree<N>, n: int, d: int)
    requires t.Sum2? && WellFormed(g, t) && n == |Print(0, t.left)| && |Print(0, t)| == n + 1 + |Print(1, t.right)|
    requires i + |Print(0, t)| <= |ts| && SumOk(g, ts, i, t.left, d) && ts[i + n] == t.op && AddOp(t.op)
    requires Reads(Term(g, ts, Pos(i + n + 1, false), d), Eval(g, t.right), i + |Print(0, t)|, d + Need(1, t.right) <= DEPTH_MAX)
    ensures SumOk(g, ts, i, t, d)
  {
    InfixNeeds(g, t);
    JoinSum(g, ts, i, d, Eval(g, t.left), Eval(g, t.right), i + n, i + |Print(0, t)|,
            d + Need(0, t.left) <= DEPTH_MAX, d + Need(1, t.right) <= DEPTH_MAX);
  }

  lemma InfixNeeds<N>(g: Algebra<N>, t: Tree<N>)
    ensures t.Sum2? ==> Need(0, t) == Max(Need(0, t.left), Need(1, t.right))
    ensures t.Product? ==> Need(1, t) == Max(Need(1, t.left), Need(2, t.right))
    ensures WellFormed(g, t) && (t.Sum2? || t.Product?) ==> Eval(g, t) == Combine(g, t.op, Eval(g, t.left), Eval(g, t.right))
  {
  }

  /** A term that no product operator follows. */
  lemma {:induction false} ReadTermWhole<N>(g: Algebra<N>, ts: seq<Token<N>>, i: int, t: Tree<N>, d: int)
    requires Stands(g, ts, i, 1, t, 1) && d <= DEPTH_MAX
    ensures Reads(Term(g, ts, Pos(i, false), d), Eval(g, t), i + |Print(1, t)|, d + Need(1, t) <= DEPTH_MAX)
    decreases t, Rank(1, t), 2
  {
    ReadTerm(g, ts, i, t, d);
  }

  lemma {:induction false} ReadTerm<N>(g: Algebra<N>, ts: seq<Token<N>>, i: int, t: Tree<N>, d: int)
    requires Stands(g, ts, i, 1, t, 2) && d <= DEPTH_MAX
    ensures TermOk(g, ts, i, t, d)
    decreases t, Rank(1, t), 1
  {
    if t.Product? { ReadProduct(g, ts, i, t, d); } else { ReadUnary(g, ts, i, t, d); }
  }

  lemma {:induction false} ReadProduct<N>(g: Algebra<N>, ts: seq<Token<N>>, i: int, t: Tree<N>, d: int)
    requires t.Product? && Stands(g, ts, i, 1, t, 2) && d <= DEPTH_MAX
    ensures TermOk(g, ts, i, t, d)
    decreases t, Rank(1, t), 0
  {
    var n := |Print(1, t.left)|;
    ProductStands(g, ts, i, t);
    ReadTerm(g, ts, i, t.left, d);
    ReadUnary(g, ts, i + n + 1, t.right, d);
    InfixNeeds(g, t);
    JoinTerm(g, ts, i, d, Eval(g, t.left), Eval(g, t.right), i + n, i + |Print(1, t)|,
             d + Need(1, t.left) <= DEPTH_MAX, d + Need(2, t.right) <= DEPTH_MAX);
  }

  /** A term so far, an operator and one more factor. */
  lemma JoinTerm<N>(g: Algebra<N>, ts: seq<Token<N>>, i: int, d: int, l: N, r: N, at: int, end: int, lfits: bool, rfits: bool)
    requires 0 <= i <= at < |ts| && MulOp(ts[at]) && at < end <= |ts|
    requires if lfits then Term(g, ts, Pos(i, false), d) == TermRest(g, ts, l, Pos(at, false), d)
             else Term(g, ts, Pos(i, false), d).s.err
    requires Reads(Unary(g, ts, Pos(at + 1, false), false, d), r, end, rfits)
    ensures if lfits && rfits
            then Term(g, ts, Pos(i, false), d) == TermRest(g, ts, Combine(g, ts[at], l, r), Pos(end, false), d)
            else Term(g, ts, Pos(i, false), d).s.err
  {
  }

  lemma JoinSum<N>(g: Algebra<N>, ts: seq<Token<N>>, i: int, d: int, l: N, r: N, at: int, end: int, lfits: bool, rfits: bool)
    requires 0 <= i <= at < |ts| && AddOp(ts[at]) && at < end <= |ts|
    requires if lfits then Sum(g, ts, Pos(i, false), d) == SumRest(g, ts, l, Pos(at, false), d)
             else Sum(g, ts, Pos(i, false), d).s.err
    requires Reads(Term(g, ts, Pos(at + 1, false), d), r, end, rfits)
    ensures if lfits && rfits
            then Sum(g, ts, Pos(i, false), d) == SumRest(g, ts, Combine(g, ts[at], l, r), Pos(end, false), d)
            else Sum(g, ts, Pos(i, false), d).s.err
  {
  }

  lemma ProductStands<N>(g: Algebra<N>, ts: seq<Token<N>>, i: int, t: Tree<N>)
    requires t.Product? && Stands(g, ts, i, 1, t, 2)
    ensures var n := |Print(1, t.left)|;
      && Stands(g, ts, i, 1, t.left, 2) && Stands(g, ts, i + n + 1, 2, t.right, 2)
      && i + n < |ts| && ts[i + n] == t.op && |Print(1, t)| == n + 1 + |Print(2, t.right)|
  {
    Infix(ts, i, Print(1, t.left), t.op, Print(2, t.right));
  }

  lemma SumStands<N>(g: Algebra<N>, ts: seq<Token<N>>, i: int, t: Tree<N>)
    requires t.Sum2? && Stands(g, ts, i, 0, t, 1)
    ensures var n := |Print(0, t.left)|;
      && Stands(g, ts, i, 0, t.left, 1) && Stands(g, ts, i + n + 1, 1, t.right, 1)
      && i + n < |ts| && ts[i + n] == t.op && |Print(0, t)| == n + 1 + |Print(1, t.right)|
  {
    Infix(ts, i, Print(0, t.left), t.op, Print(1, t.right));
  }

  lemma {:induction false} ReadSigns<N>(g: Algebra<N>, ts: seq<Token<N>>, i: int, signs: seq<bool>, minus: bool, d: int)
    requires At(ts, i, SignTokens(signs))
    ensures Unary(g, ts, Pos(i, false), minus, d) == Unary(g, ts, Pos(i + |signs|, false), minus != Odd(signs), d)
    decreases |signs|
  {
    if |signs| > 0 {
      var first: Token<N> := if signs[0] then Minus else Plus;
      AtConcat(ts, i, [first], SignTokens(signs[1..]));
      AtOne(ts, i, first);
      ReadSigns(g, ts, i + 1, signs[1..], minus != signs[0], d);
    }
  }

  lemma {:induction false} ReadUnary<N>(g: Algebra<N>, ts: seq<Token<N>>, i: int, t: Tree<N>, d: int)
    requires Stands(g, ts, i, 2, t, 2) && d <= DEPTH_MAX
    ensures UnaryOk(g, ts, i, t, d)
    decreases t, Rank(2, t), 0
  {
    if t.Signed? {
      SignedStands(g, ts, i, t);
      ReadSigns(g, ts, i, t.signs, false, d);
      ReadPower(g, ts, i + |t.signs|, t.body, d);
      NoSign(g, ts, i + |t.signs|, t.body);
      GlueSigns(g, ts, i, t, i + |t.signs|, d);
    } else {
      ReadPower(g, ts, i, t, d);
      NoSign(g, ts, i, t);
      UnaryIs(g, ts, i, false, d);
    }
  }

  lemma GlueSigns<N>(g: Algebra<N>, ts: seq<Token<N>>, i: int, t: Tree<N>, at: int, d: int)
    requires t.Signed? && 0 <= i && at == i + |t.signs| && |Print(2, t)| == |t.signs| + |Print(3, t.body)|
    requires PowerOk(g, ts, at, t.body, d) && !AddOp(Cur(ts, Pos(at, false)))
    requires Unary(g, ts, Pos(i, false), false, d) == Unary(g, ts, Pos(at, false), Odd(t.signs), d)
    ensures UnaryOk(g, ts, i, t, d)
  {
    JoinSigns(g, ts, i, t.signs, at, Eval(g, t.body), i + |Print(2, t)|, d, d + Need(2, t) <= DEPTH_MAX);
  }

  lemma SignedStands<N>(g: Algebra<N>, ts: seq<Token<N>>, i: int, t: Tree<N>)
    requires t.Signed? && Stands(g, ts, i, 2, t, 2)
    ensures At(ts, i, SignTokens(t.signs)) && Stands(g, ts, i + |t.signs|, 3, t.body, 2)
    ensures |Print(2, t)| == |t.signs| + |Print(3, t.body)| && Need(2, t) == Need(3, t.body)
  {
    AtConcat(ts, i, SignTokens(t.signs), Print(3, t.body));
  }

  /** Signs read off, then the power they apply to. */
  lemma JoinSigns<N>(g: Algebra<N>, ts: seq<Token<N>>, i: int, signs: seq<bool>, at: int, v: N, end: int, d: int, fits: bool)
    requires 0 <= i <= at <= |ts| && !AddOp(Cur(ts, Pos(at, false)))
    requires Unary(g, ts, Pos(i, false), false, d) == Unary(g, ts, Pos(at, false), Odd(signs), d)
    requires Reads(Power(g, ts, Pos(at, false), d), v, end, fits)
    ensures Reads(Unary(g, ts, Pos(i, false), false, d), if Odd(signs) then g.neg(v) else v, end, fits)
  {
    UnaryIs(g, ts, at, Odd(signs), d);
  }

  lemma UnaryIs<N>(g: Algebra<N>, ts: seq<Token<N>>, i: int, minus: bool, d: int)
    requires 0 <= i <= |ts| && !AddOp(Cur(ts, Pos(i, false)))
    ensures Unary(g, ts, Pos(i, false), minus, d) ==
      var p := Power(g, ts, Pos(i, false), d); Out(if minus then g.neg(p.val) else p.val, p.s)
  {
  }

  /** A power never opens with a sign. */
  lemma {:induction false} FirstToken<N>(k: int, t: Tree<N>)
    requires 3 <= k <= 4
    ensures !AddOp(Print(k, t)[0]) && !Print(k, t)[0].Bad? && !Print(k, t)[0].End?
    decreases t, Rank(k, t)
  {
    if k == 3 {
      if t.Pow? { FirstToken(4, t.left); }
      else if !(t.Apply? && Bare(t)) { FirstToken(4, t); }
    }
  }

  lemma NoSign<N>(g: Algebra<N>, ts: seq<Token<N>>, i: int, t: Tree<N>)
    requires At(ts, i, Print(3, t))
    ensures !AddOp(Cur(ts, Pos(i, false)))
  {
    FirstToken(3, t);
    assert ts[i..i + |Print(3, t)|][0] == ts[i];
  }

  lemma {:induction false} ReadPower<N>(g: Algebra<N>, ts: seq<Token<N>>, i: int, t: Tree<N>, d: int)
    requires Stands(g, ts, i, 3, t, 2) && d <= DEPTH_MAX
    ensures PowerOk(g, ts, i, t, d)
    decreases t, Rank(3, t), 2
  {
    if d < DEPTH_MAX {
      if t.Pow? { ReadPow(g, ts, i, t, d); }
      else if t.Apply? && Bare(t) { ReadBare(g, ts, i, t, d); }
      else { ReadCall(g, ts, i, t, d + 1); }
    }
  }

  lemma {:induction false} ReadPow<N>(g: Algebra<N>, ts: seq<Token<N>>, i: int, t: Tree<N>, d: int)
    requires t.Pow? && Stands(g, ts, i, 3, t, 2) && d < DEPTH_MAX
    ensures PowerOk(g, ts, i, t, d)
    decreases t, Rank(3, t), 1
  {
    var n := |Print(4, t.left)|;
    PowStands(g, ts, i, t);
    ReadCall(g, ts, i, t.left, d + 1);
    ReadPower(g, ts, i + n + 1, t.right, d + 1);
    GluePow(g, ts, i, t, n, d);
  }

  lemma GluePow<N>(g: Algebra<N>, ts: seq<Token<N>>, i: int, t: Tree<N>, n: int, d: int)
    requires t.Pow? && n == |Print(4, t.left)| && |Print(3, t)| == n + 1 + |Print(3, t.right)| && d < DEPTH_MAX
    requires CallOk(g, ts, i, t.left, d + 1) && i + n < |ts| && ts[i + n].Caret? && PowerOk(g, ts, i + n + 1, t.right, d + 1)
    ensures PowerOk(g, ts, i, t, d)
  {
    PowNeeds(g, t);
    JoinPow(g, ts, i, d, Eval(g, t.left), Eval(g, t.right), i + n, i + |Print(3, t)|,
            d + 1 + Need(4, t.left) <= DEPTH_MAX, d + 1 + Need(3, t.right) <= DEPTH_MAX);
  }

  lemma PowNeeds<N>(g: Algebra<N>, t: Tree<N>)
    requires t.Pow?
    ensures Need(3, t) == 1 + Max(Need(4, t.left), Need(3, t.right))
    ensures Eval(g, t) == g.pow(Eval(g, t.left), Eval(g, t.right))
  {
  }

  /** Base, caret and exponent put together: the outcome of each is the outcome of the whole. */
  lemma JoinPow<N>(g: Algebra<N>, ts: seq<Token<N>>, i: int, d: int, l: N, r: N, at: int, end: int, lfits: bool, rfits: bool)
    requires 0 <= i <= at < |ts| && d < DEPTH_MAX && ts[at].Caret?
    requires Reads(Call(g, ts, Pos(i, false), d + 1), l, at, lfits)
    requires Reads(Power(g, ts, Pos(at + 1, false), d + 1), r, end, rfits)
    ensures Reads(Power(g, ts, Pos(i, false), d), g.pow(l, r), end, lfits && rfits)
  {
    PowerIs(g, ts, i, d);
  }

  lemma PowStands<N>(g: Algebra<N>, ts: seq<Token<N>>, i: int, t: Tree<N>)
    requires t.Pow? && Stands(g, ts, i, 3, t, 2)
    ensures var n := |Print(4, t.left)|;
      && Stands(g, ts, i, 4, t.left, 4) && Stands(g, ts, i + n + 1, 3, t.right, 2)
      && i + n < |ts| && ts[i + n].Caret? && |Print(3, t)| == n + 1 + |Print(3, t.right)|
  {
    Infix(ts, i, Print(4, t.left), Caret, Print(3, t.right));
  }

  lemma PowerIs<N>(g: Algebra<N>, ts: seq<Token<N>>, i: int, d: int)
    requires 0 <= i <= |ts| && d < DEPTH_MAX
    ensures Power(g, ts, Pos(i, false), d) ==
      var b := Call(g, ts, Pos(i, false), d + 1);
      if !Cur(ts, b.s).Caret? then b
      else var e := Power(g, ts, Advance(b.s), d + 1); Out(g.pow(b.val, e.val), e.s)
  {
  }

  /** A call with a bare argument, inside a power. */
  lemma {:induction false} ReadBare<N>(g: Algebra<N>, ts: seq<Token<N>>, i: int, t: Tree<N>, d: int)
    requires t.Apply? && Bare(t) && Stands(g, ts, i, 3, t, 2) && d < DEPTH_MAX
    ensures PowerOk(g, ts, i, t, d)
    decreases t, Rank(3, t), 1
  {
    BareStands(g, ts, i, t);
    ReadPower(g, ts, i + 1, t.arg, d + 1);
    JoinBare(g, ts, i, t.name, d, Eval(g, t.arg), i + |Print(3, t)|, d + Need(3, t) <= DEPTH_MAX);
  }

  lemma BareStands<N>(g: Algebra<N>, ts: seq<Token<N>>, i: int, t: Tree<N>)
    requires t.Apply? && Bare(t) && Stands(g, ts, i, 3, t, 2)
    ensures 0 <= i && i + 1 < |ts| && ts[i] == Ident(t.name) && !ts[i + 1].LParen? && g.arity(t.name) == 1
    ensures Stands(g, ts, i + 1, 3, t.arg, 2) && |Print(3, t)| == 1 + |Print(3, t.arg)|
    ensures Need(3, t) == 1 + Need(3, t.arg) && Eval(g, t) == g.call1(t.name, Eval(g, t.arg))
    ensures !Cur(ts, Pos(i + |Print(3, t)|, false)).Caret?
  {
    Prefixed(ts, i, Ident(t.name), Print(3, t.arg));
  }

  lemma JoinBare<N>(g: Algebra<N>, ts: seq<Token<N>>, i: int, name: string, d: int, v: N, end: int, fits: bool)
    requires 0 <= i && i + 1 < |ts| && ts[i] == Ident(name) && g.arity(name) == 1 && !ts[i + 1].LParen? && d < DEPTH_MAX
    requires Reads(Power(g, ts, Pos(i + 1, false), d + 1), v, end, fits) && 0 <= end <= |ts| && !Cur(ts, Pos(end, false)).Caret?
    ensures Reads(Power(g, ts, Pos(i, false), d), g.call1(name, v), end, fits)
  {
    CallBareIs(g, ts, i, name, d + 1);
    PowerIs(g, ts, i, d);
  }

  lemma CallBareIs<N>(g: Algebra<N>, ts: seq<Token<N>>, i: int, name: string, d: int)
    requires 0 <= i && i + 1 < |ts| && ts[i] == Ident(name) && g.arity(name) == 1 && !ts[i + 1].LParen?
    ensures Call(g, ts, Pos(i, false), d) ==
      var a := Power(g, ts, Pos(i + 1, false), d); Out(g.call1(name, a.val), a.s)
  {
  }

  /** An expression and the parenthesis that closes it. */
  lemma {:induction false} ReadClosed<N>(g: Algebra<N>, ts: seq<Token<N>>, i: int, t: Tree<N>, d: int)
    requires WellFormed(g, t) && At(ts, i, Print(0, t) + [RParen]) && d <= DEPTH_MAX
    ensures Reads(Closed(g, ts, Pos(i, false), d), Eval(g, t), i + |Print(0, t)| + 1, d + 1 + Need(0, t) <= DEPTH_MAX)
    decreases t, Rank(0, t), 3
  {
    AtConcat(ts, i, Print(0, t), [RParen]);
    AtOne(ts, i + |Print(0, t)|, RParen);
    ReadExpr(g, ts, i, t, d);
  }

  lemma {:induction false} ReadCall<N>(g: Algebra<N>, ts: seq<Token<N>>, i: int, t: Tree<N>, d: int)
    requires Stands(g, ts, i, 4, t, 4) && d <= DEPTH_MAX
    ensures CallOk(g, ts, i, t, d)
    decreases t, Rank(4, t), 4
  {
    match t
    case Leaf(v) => AtOne(ts, i, Num(v));
    case Const(_, _) => ReadConst(g, ts, i, t, d);
    case Apply(_, _, _) => ReadApply(g, ts, i, t, d);
    case Apply2(_, _, _) => ReadCall2(g, ts, i, t, d);
    case Paren(_) => ReadParen(g, ts, i, t, d);
    case _ => ReadParens(g, ts, i, t, d);
  }

  /** Parentheses that are part of the tree. */
  lemma {:induction false} ReadParen<N>(g: Algebra<N>, ts: seq<Token<N>>, i: int, t: Tree<N>, d: int)
    requires t.Paren? && Stands(g, ts, i, 4, t, 4) && d <= DEPTH_MAX
    ensures CallOk(g, ts, i, t, d)
    decreases t, 0, 0
  {
    var inner := Print(0, t.body) + [RParen];
    assert Print(4, t) == [LParen] + inner;
    AtConcat(ts, i, [LParen], inner);
    AtOne(ts, i, LParen);
    ReadClosed(g, ts, i + 1, t.body, d);
    assert Call(g, ts, Pos(i, false), d) == Closed(g, ts, Pos(i + 1, false), d);
  }

  lemma {:induction false} ReadParens<N>(g: Algebra<N>, ts: seq<Token<N>>, i: int, t: Tree<N>, d: int)
    requires Own(t) < 4 && Stands(g, ts, i, 4, t, 4) && d <= DEPTH_MAX
    ensures CallOk(g, ts, i, t, d)
    decreases t, Rank(0, t), 4
  {
    var inner := Print(0, t) + [RParen];
    assert Print(4, t) == [LParen] + inner;
    AtConcat(ts, i, [LParen], inner);
    AtOne(ts, i, LParen);
    ReadClosed(g, ts, i + 1, t, d);
    assert Call(g, ts, Pos(i, false), d) == Closed(g, ts, Pos(i + 1, false), d);
  }

  lemma {:induction false} ReadApply<N>(g: Algebra<N>, ts: seq<Token<N>>, i: int, t: Tree<N>, d: int)
    requires t.Apply? && Stands(g, ts, i, 4, t, 4) && d <= DEPTH_MAX
    ensures CallOk(g, ts, i, t, d)
    decreases t, 0, 0
  {
    var inner := Print(0, t.arg) + [RParen];
    assert Print(4, t) == [Ident(t.name)] + ([LParen] + inner);
    AtConcat(ts, i, [Ident(t.name)], [LParen] + inner);
    AtConcat(ts, i + 1, [LParen], inner);
    AtOne(ts, i, Ident(t.name));
    AtOne(ts, i + 1, LParen);
    ReadClosed(g, ts, i + 2, t.arg, d);
    CallParenIs(g, ts, i, t.name, d);
  }

  lemma CallParenIs<N>(g: Algebra<N>, ts: seq<Token<N>>, i: int, name: string, d: int)
    requires 0 <= i && i + 1 < |ts| && ts[i] == Ident(name) && g.arity(name) == 1 && ts[i + 1].LParen?
    ensures Call(g, ts, Pos(i, false), d) ==
      var a := Closed(g, ts, Pos(i + 2, false), d); if a.s.err then a else Out(g.call1(name, a.val), a.s)
  {
  }

  lemma ReadConst<N>(g: Algebra<N>, ts: seq<Token<N>>, i: int, t: Tree<N>, d: int)
    requires t.Const? && Stands(g, ts, i, 4, t, 4)
    ensures Call(g, ts, Pos(i, false), d) == Out(Eval(g, t), Pos(i + |Print(4, t)|, false))
  {
    var open: seq<Token<N>> := [LParen];
    var close: seq<Token<N>> := [RParen];
    if t.parens {
      assert Print(4, t) == [Ident(t.name)] + (open + close);
      AtConcat(ts, i, [Ident(t.name)], open + close);
      AtConcat(ts, i + 1, open, close);
      AtOne(ts, i + 1, LParen);
      AtOne(ts, i + 2, RParen);
    } else {
      assert Print(4, t) == [Ident(t.name)];
    }
    AtConcat(ts, i, [Ident(t.name)], Print(4, t)[1..]);
    AtOne(ts, i, Ident(t.name));
  }

  lemma Call2Tokens<N>(ts: seq<Token<N>>, i: int, name: string, a: seq<Token<N>>, b: seq<Token<N>>)
    requires At(ts, i, [Ident(name), LParen] + a + [Comma] + b + [RParen])
    ensures i + 2 + |a| < |ts| && ts[i] == Ident(name) && ts[i + 1] == LParen && ts[i + 2 + |a|] == Comma
    ensures At(ts, i + 2, a) && At(ts, i + 3 + |a|, b + [RParen])
  {
    var head: seq<Token<N>> := [Ident(name), LParen];
    Assoc(head + a + [Comma], b, [RParen]);
    AtConcat(ts, i, head + a + [Comma], b + [RParen]);
    AtConcat(ts, i, head + a, [Comma]);
    AtConcat(ts, i, head, a);
    AtOne(ts, i + 2 + |a|, Comma);
    assert ts[i + 0] == head[0] && ts[i + 1] == head[1];
  }

  lemma Call2Is<N>(g: Algebra<N>, ts: seq<Token<N>>, i: int, name: string, d: int)
    requires 0 <= i && i + 1 < |ts| && ts[i] == Ident(name) && g.arity(name) >= 2 && ts[i + 1].LParen?
    ensures Call(g, ts, Pos(i, false), d) ==
      var a := Expr(g, ts, Pos(i + 2, false), d);
      if !Cur(ts, a.s).Comma? then Fail(g, a.s)
      else
        var b := Closed(g, ts, Advance(a.s), d);
        if b.s.err then b else Out(g.call2(name, a.val, b.val), b.s)
  {
  }

  lemma {:induction false} ReadCall2<N>(g: Algebra<N>, ts: seq<Token<N>>, i: int, t: Tree<N>, d: int)
    requires t.Apply2? && Stands(g, ts, i, 4, t, 4) && d <= DEPTH_MAX
    ensures CallOk(g, ts, i, t, d)
    decreases t, 0, 0
  {
    var at := i + 2 + |Print(0, t.left)|;
    Call2Stands(g, ts, i, t, at);
    ReadExpr(g, ts, i + 2, t.left, d);
    ReadClosed(g, ts, at + 1, t.right, d);
    JoinCall2(g, ts, i, t.name, d, Eval(g, t.left), Eval(g, t.right), at, i + |Print(4, t)|,
              d + 1 + Need(0, t.left) <= DEPTH_MAX, d + 1 + Need(0, t.right) <= DEPTH_MAX);
  }

  lemma Call2Stands<N>(g: Algebra<N>, ts: seq<Token<N>>, i: int, t: Tree<N>, at: int)
    requires t.Apply2? && Stands(g, ts, i, 4, t, 4) && at == i + 2 + |Print(0, t.left)|
    ensures 0 <= i && at < |ts| && ts[i] == Ident(t.name) && ts[i + 1] == LParen && ts[at] == Comma && g.arity(t.name) >= 2
    ensures Stands(g, ts, i + 2, 0, t.left, 0) && WellFormed(g, t.right) && At(ts, at + 1, Print(0, t.right) + [RParen])
    ensures i + |Print(4, t)| == at + 2 + |Print(0, t.right)|
  {
    Call2Tokens(ts, i, t.name, Print(0, t.left), Print(0, t.right));
  }

  lemma JoinCall2<N>(g: Algebra<N>, ts: seq<Token<N>>, i: int, name: string, d: int, l: N, r: N, at: int, end: int,
                     lfits: bool, rfits: bool)
    requires 0 <= i && i + 1 < at < |ts| && ts[i] == Ident(name) && ts[i + 1].LParen? && ts[at].Comma? && g.arity(name) >= 2
    requires Reads(Expr(g, ts, Pos(i + 2, false), d), l, at, lfits)
    requires Reads(Closed(g, ts, Pos(at + 1, false), d), r, end, rfits)
    ensures Reads(Call(g, ts, Pos(i, false), d), g.call2(name, l, r), end, lfits && rfits)
  {
    Call2Is(g, ts, i, name, d);
  }

  /**
   * Printing a tree in the grammar and evaluating the tokens gives the value
   * of the tree if its nesting fits the depth limit, and an error if not.
   */
  lemma PrintThenEvaluate<N>(g: Algebra<N>, t: Tree<N>)
    requires WellFormed(g, t)
    ensures Evaluate(g, Print(0, t)) == if 1 + Need(0, t) <= DEPTH_MAX then Value(Eval(g, t)) else Error
  {
    var ts := Print(0, t);
    ReadExpr(g, ts, 0, t, 0);
  }

  /** Each operator between two numbers does the operation it is named for, in every algebra. */
  lemma OperatorValues<N>(g: Algebra<N>, a: N, b: N)
    ensures Evaluate(g, [Num(a), Plus, Num(b)]) == Value(g.add(a, b))
    ensures Evaluate(g, [Num(a), Minus, Num(b)]) == Value(g.sub(a, b))
    ensures Evaluate(g, [Num(a), Star, Num(b)]) == Value(g.mul(a, b))
    ensures Evaluate(g, [Num(a), Slash, Num(b)]) == Value(g.div(a, b))
    ensures Evaluate(g, [Num(a), Percent, Num(b)]) == Value(g.mod(a, b))
    ensures Evaluate(g, [Num(a), Caret, Num(b)]) == Value(g.pow(a, b))
  {
    SumValue(g, Plus, a, b);
    SumValue(g, Minus, a, b);
    ProductValue(g, Star, a, b);
    ProductValue(g, Slash, a, b);
    ProductValue(g, Percent, a, b);
    PowValue(g, a, b);
  }

  lemma SumValue<N>(g: Algebra<N>, op: Token<N>, a: N, b: N)
    requires AddOp(op)
    ensures Evaluate(g, [Num(a), op, Num(b)]) == Value(if op.Plus? then g.add(a, b) else g.sub(a, b))
  {
    var t := Sum2(op, Leaf(a), Leaf(b));
    LeafPrints(a);
    LeafPrints(b);
    assert Print(0, t) == [Num(a)] + [op] + [Num(b)] == [Num(a), op, Num(b)];
    LeafValue(g, a);
    LeafValue(g, b);
    assert Need(0, t) == 1 && WellFormed(g, t);
    PrintThenEvaluate(g, t);
  }

  lemma ProductValue<N>(g: Algebra<N>, op: Token<N>, a: N, b: N)
    requires MulOp(op)
    ensures Evaluate(g, [Num(a), op, Num(b)]) ==
      Value(if op.Star? then g.mul(a, b) else if op.Slash? then g.div(a, b) else g.mod(a, b))
  {
    var t := Product(op, Leaf(a), Leaf(b));
    LeafPrints(a);
    LeafPrints(b);
    assert Print(1, t) == [Num(a)] + [op] + [Num(b)] == [Num(a), op, Num(b)];
    assert Need(1, t) == 1 && Print(0, t) == Print(1, t) && Need(0, t) == Need(1, t);
    LeafValue(g, a);
    LeafValue(g, b);
    assert WellFormed(g, t);
    PrintThenEvaluate(g, t);
  }

  lemma PowValue<N>(g: Algebra<N>, a: N, b: N)
    ensures Evaluate(g, [Num(a), Caret, Num(b)]) == Value(g.pow(a, b))
  {
    var t := Tree.Pow(Leaf(a), Leaf(b));
    LeafPrints(a);
    LeafPrints(b);
    assert Print(3, t) == [Num(a)] + [Caret] + [Num(b)] == [Num(a), Caret, Num(b)];
    assert Print(2, t) == Print(3, t) && Print(1, t) == Print(2, t) && Print(0, t) == Print(1, t);
    assert Need(3, t) == 2 && Need(2, t) == 2 && Need(1, t) == 2 && Need(0, t) == 2;
    LeafValue(g, a);
    LeafValue(g, b);
    assert WellFormed(g, t);
    PrintThenEvaluate(g, t);
  }

  lemma LeafValue<N>(g: Algebra<N>, v: N)
    ensures WellFormed(g, Leaf(v)) && Eval(g, Leaf(v)) == v
  {
  }

  lemma LeafPrints<N>(v: N)
    ensures Print(4, Leaf(v)) == [Num(v)] && Print(3, Leaf(v)) == [Num(v)] && Print(2, Leaf(v)) == [Num(v)]
    ensures Print(1, Leaf(v)) == [Num(v)] && Print(0, Leaf(v)) == [Num(v)]
    ensures Need<N>(4, Leaf(v)) == 0 && Need<N>(3, Leaf(v)) == 1 && Need<N>(2, Leaf(v)) == 1
    ensures Need<N>(1, Leaf(v)) == 1 && Need<N>(0, Leaf(v)) == 1
  {
    assert Print(3, Leaf(v)) == Print(4, Leaf(v));
    assert Print(2, Leaf(v)) == Print(3, Leaf(v));
    assert Print(1, Leaf(v)) == Print(2, Leaf(v));
    assert Print(0, Leaf(v)) == Print(1, Leaf(v));
    assert Need<N>(3, Leaf(v)) == 1 + Need<N>(4, Leaf(v));
  }
}
