/**
 * What the evaluator of core/math_expr.c accepts: every token stream it gives
 * a value for is the print of a tree with that value, and there are no others.
 */
module MathSound {
  import opened MathParser
  import opened MathPrint
  import opened MathTheorems

  /** From `i` up to `j` stand the tokens `p`. */
  predicate Spans<N(==)>(ts: seq<Token<N>>, i: int, j: int, p: seq<Token<N>>) {
    0 <= i <= j <= |ts| && ts[i..j] == p
  }

  lemma SpansJoin<N>(ts: seq<Token<N>>, i: int, j: int, k: int, p: seq<Token<N>>, q: seq<Token<N>>)
    requires Spans(ts, i, j, p) && Spans(ts, j, k, q)
    ensures Spans(ts, i, k, p + q)
  {
  }

  lemma SpansOne<N>(ts: seq<Token<N>>, i: int)
    requires 0 <= i < |ts|
    ensures Spans(ts, i, i + 1, [ts[i]])
  {
  }

  /** A tree that stands at `i` where level `k` is expected, with the value and the end of `r`. */
  ghost predicate Reading<N>(g: Algebra<N>, ts: seq<Token<N>>, i: int, k: int, t: Tree<N>, r: Out<N>)
    requires 0 <= k <= 4
  {
    WellFormed(g, t) && Eval(g, t) == r.val && Spans(ts, i, r.s.i, Print(k, t))
  }

  lemma SoundExpr<N>(g: Algebra<N>, ts: seq<Token<N>>, i: int, d: int) returns (t: Tree<N>)
    requires 0 <= i <= |ts| && !Expr(g, ts, Pos(i, false), d).s.err
    ensures Reading(g, ts, i, 0, t, Expr(g, ts, Pos(i, false), d))
    decreases |ts| - i, 8
  {
    t := SoundSum(g, ts, i, d + 1);
  }

  lemma SoundSum<N>(g: Algebra<N>, ts: seq<Token<N>>, i: int, d: int) returns (t: Tree<N>)
    requires 0 <= i <= |ts| && !Sum(g, ts, Pos(i, false), d).s.err
    ensures Reading(g, ts, i, 0, t, Sum(g, ts, Pos(i, false), d))
    decreases |ts| - i, 7
  {
    var u := Term(g, ts, Pos(i, false), d);
    var left := SoundTerm(g, ts, i, d);
    assert Print(0, left) == Print(1, left);
    t := SoundSumRest(g, ts, i, left, u, d);
  }

  /** The tree read so far, with each further operator and term put on top. */
  lemma SoundSumRest<N>(g: Algebra<N>, ts: seq<Token<N>>, i: int, left: Tree<N>, u: Out<N>, d: int) returns (t: Tree<N>)
    requires Reading(g, ts, i, 0, left, u) && !SumRest(g, ts, u.val, u.s, d).s.err
    ensures Reading(g, ts, i, 0, t, SumRest(g, ts, u.val, u.s, d))
    decreases |ts| - u.s.i, 6
  {
    var at := u.s.i;
    if !AddOp(Cur(ts, u.s)) { return left; }
    var r := Term(g, ts, Pos(at + 1, false), d);
    var right := SoundTerm(g, ts, at + 1, d);
    var sum := Sum2(ts[at], left, right);
    SpansOne(ts, at);
    SpansJoin(ts, i, at, at + 1, Print(0, left), [ts[at]]);
    SpansJoin(ts, i, at + 1, r.s.i, Print(0, left) + [ts[at]], Print(1, right));
    t := SoundSumRest(g, ts, i, sum, Out(Combine(g, ts[at], u.val, r.val), r.s), d);
  }

  lemma SoundTerm<N>(g: Algebra<N>, ts: seq<Token<N>>, i: int, d: int) returns (t: Tree<N>)
    requires 0 <= i <= |ts| && !Term(g, ts, Pos(i, false), d).s.err
    ensures Reading(g, ts, i, 1, t, Term(g, ts, Pos(i, false), d)) && !t.Sum2?
    decreases |ts| - i, 5
  {
    var u := Unary(g, ts, Pos(i, false), false, d);
    var left := SoundUnary(g, ts, i, i, [], d);
    assert Print(1, left) == Print(2, left);
    t := SoundTermRest(g, ts, i, left, u, d);
  }

  lemma SoundTermRest<N>(g: Algebra<N>, ts: seq<Token<N>>, i: int, left: Tree<N>, u: Out<N>, d: int) returns (t: Tree<N>)
    requires Reading(g, ts, i, 1, left, u) && !left.Sum2? && !TermRest(g, ts, u.val, u.s, d).s.err
    ensures Reading(g, ts, i, 1, t, TermRest(g, ts, u.val, u.s, d)) && !t.Sum2?
    decreases |ts| - u.s.i, 4
  {
    var at := u.s.i;
    if !MulOp(Cur(ts, u.s)) { return left; }
    var r := Unary(g, ts, Pos(at + 1, false), false, d);
    var right := SoundUnary(g, ts, at + 1, at + 1, [], d);
    var product := Product(ts[at], left, right);
    SpansOne(ts, at);
    SpansJoin(ts, i, at, at + 1, Print(1, left), [ts[at]]);
    SpansJoin(ts, i, at + 1, r.s.i, Print(1, left) + [ts[at]], Print(2, right));
    t := SoundTermRest(g, ts, i, product, Out(Combine(g, ts[at], u.val, r.val), r.s), d);
  }

  /** The signs read so far stand from `i` up to `j`. */
  lemma SoundUnary<N>(g: Algebra<N>, ts: seq<Token<N>>, i: int, j: int, signs: seq<bool>, d: int) returns (t: Tree<N>)
    requires 0 <= j <= |ts| && Spans(ts, i, j, SignTokens(signs))
    requires !Unary(g, ts, Pos(j, false), Odd(signs), d).s.err
    ensures Reading(g, ts, i, 2, t, Unary(g, ts, Pos(j, false), Odd(signs), d)) && t.Signed?
    decreases |ts| - j, 4
  {
    if AddOp(Cur(ts, Pos(j, false))) {
      SpansOne(ts, j);
      SpansJoin(ts, i, j, j + 1, SignTokens(signs), [ts[j]]);
      SignAppend<N>(signs, ts[j].Minus?);
      t := SoundUnary(g, ts, i, j + 1, signs + [ts[j].Minus?], d);
    } else {
      var body := SoundPower(g, ts, j, d);
      t := Signed(signs, body);
      SpansJoin(ts, i, j, Power(g, ts, Pos(j, false), d).s.i, SignTokens(signs), Print(3, body));
    }
  }

  lemma {:induction false} SignAppend<N>(signs: seq<bool>, minus: bool)
    ensures SignTokens<N>(signs + [minus]) == SignTokens<N>(signs) + [if minus then Minus else Plus]
    ensures Odd(signs + [minus]) == (Odd(signs) != minus)
    decreases |signs|
  {
    var all := signs + [minus];
    if |signs| == 0 {
      assert all[1..] == [];
      assert SignTokens<N>(all[1..]) == [];
    } else {
      assert all[1..] == signs[1..] + [minus];
      SignAppend<N>(signs[1..], minus);
    }
  }

  lemma SoundPower<N>(g: Algebra<N>, ts: seq<Token<N>>, i: int, d: int) returns (t: Tree<N>)
    requires 0 <= i <= |ts| && !Power(g, ts, Pos(i, false), d).s.err
    ensures Reading(g, ts, i, 3, t, Power(g, ts, Pos(i, false), d))
    ensures !Cur(ts, Power(g, ts, Pos(i, false), d).s).Caret?
    decreases |ts| - i, 3
  {
    PowerIs(g, ts, i, d);
    var b := Call(g, ts, Pos(i, false), d + 1);
    var base := SoundCall(g, ts, i, d + 1);
    var at := b.s.i;
    if !Cur(ts, b.s).Caret? {
      if base.Apply? && Bare(base) { return base; }
      assert Print(3, base) == Print(4, base);
      return base;
    }
    var e := Power(g, ts, Pos(at + 1, false), d + 1);
    var exponent := SoundPower(g, ts, at + 1, d + 1);
    t := Tree.Pow(base, exponent);
    SpansOne(ts, at);
    SpansJoin(ts, i, at, at + 1, Print(4, base), [ts[at]]);
    SpansJoin(ts, i, at + 1, e.s.i, Print(4, base) + [ts[at]], Print(3, exponent));
  }

  /** A call or a primary: an atom, or a call with a bare argument, which no caret follows. */
  lemma SoundCall<N>(g: Algebra<N>, ts: seq<Token<N>>, i: int, d: int) returns (t: Tree<N>)
    requires 0 <= i <= |ts| && !Call(g, ts, Pos(i, false), d).s.err
    ensures var r := Call(g, ts, Pos(i, false), d);
      if t.Apply? && Bare(t) then Reading(g, ts, i, 3, t, r) && !Cur(ts, r.s).Caret?
      else Own(t) == 4 && Reading(g, ts, i, 4, t, r)
    decreases |ts| - i, 2
  {
    var tok := Cur(ts, Pos(i, false));
    if !tok.Ident? {
      t := SoundPrimary(g, ts, i, d);
    } else if g.arity(tok.name) == 0 {
      t := SoundConst(g, ts, i, d);
    } else if g.arity(tok.name) >= 2 {
      t := SoundCall2(g, ts, i, d);
    } else if Cur(ts, Pos(i + 1, false)).LParen? {
      t := SoundApply(g, ts, i, d);
    } else {
      t := SoundBare(g, ts, i, d);
    }
  }

  lemma SoundPrimary<N>(g: Algebra<N>, ts: seq<Token<N>>, i: int, d: int) returns (t: Tree<N>)
    requires 0 <= i <= |ts| && !Primary(g, ts, Pos(i, false), d).s.err
    ensures Reading(g, ts, i, 4, t, Primary(g, ts, Pos(i, false), d)) && (t.Leaf? || t.Paren?)
    decreases |ts| - i, 1
  {
    SpansOne(ts, i);
    if ts[i].Num? { return Leaf(ts[i].v); }
    var body := SoundClosed(g, ts, i + 1, d);
    t := Paren(body);
    SpansJoin(ts, i, i + 1, Closed(g, ts, Pos(i + 1, false), d).s.i, [LParen], Print(0, body) + [RParen]);
    assert Print(4, t) == [LParen] + (Print(0, body) + [RParen]);
  }

  /** An expression and the parenthesis that closes it. */
  lemma SoundClosed<N>(g: Algebra<N>, ts: seq<Token<N>>, i: int, d: int) returns (t: Tree<N>)
    requires 0 <= i <= |ts| && !Closed(g, ts, Pos(i, false), d).s.err
    ensures var r := Closed(g, ts, Pos(i, false), d);
      WellFormed(g, t) && Eval(g, t) == r.val && Spans(ts, i, r.s.i, Print(0, t) + [RParen])
    decreases |ts| - i, 9
  {
    var e := Expr(g, ts, Pos(i, false), d);
    t := SoundExpr(g, ts, i, d);
    SpansOne(ts, e.s.i);
    SpansJoin(ts, i, e.s.i, e.s.i + 1, Print(0, t), [RParen]);
  }

  lemma SoundConst<N>(g: Algebra<N>, ts: seq<Token<N>>, i: int, d: int) returns (t: Tree<N>)
    requires 0 <= i < |ts| && ts[i].Ident? && g.arity(ts[i].name) == 0 && !Call(g, ts, Pos(i, false), d).s.err
    ensures Reading(g, ts, i, 4, t, Call(g, ts, Pos(i, false), d)) && t.Const?
  {
    SpansOne(ts, i);
    t := Const(ts[i].name, i + 1 < |ts| && ts[i + 1].LParen?);
    if t.parens {
      assert ts[i + 1..i + 3] == [LParen, RParen];
      SpansJoin(ts, i, i + 1, i + 3, [ts[i]], [LParen, RParen]);
    }
  }

  lemma SoundApply<N>(g: Algebra<N>, ts: seq<Token<N>>, i: int, d: int) returns (t: Tree<N>)
    requires 0 <= i && i + 1 < |ts| && ts[i].Ident? && g.arity(ts[i].name) == 1 && ts[i + 1].LParen?
    requires !Call(g, ts, Pos(i, false), d).s.err
    ensures Reading(g, ts, i, 4, t, Call(g, ts, Pos(i, false), d)) && t.Apply? && !t.bare
    decreases |ts| - i, 1
  {
    CallParenIs(g, ts, i, ts[i].name, d);
    var arg := SoundClosed(g, ts, i + 2, d);
    t := Apply(ts[i].name, arg, false);
    assert Spans(ts, i, i + 2, [ts[i], LParen]);
    SpansJoin(ts, i, i + 2, Closed(g, ts, Pos(i + 2, false), d).s.i, [ts[i], LParen], Print(0, arg) + [RParen]);
    assert Print(4, t) == [ts[i], LParen] + (Print(0, arg) + [RParen]);
  }

  lemma SoundBare<N>(g: Algebra<N>, ts: seq<Token<N>>, i: int, d: int) returns (t: Tree<N>)
    requires 0 <= i < |ts| && ts[i].Ident? && g.arity(ts[i].name) == 1 && !Cur(ts, Pos(i + 1, false)).LParen?
    requires !Call(g, ts, Pos(i, false), d).s.err
    ensures var r := Call(g, ts, Pos(i, false), d);
      t.Apply? && Bare(t) && Reading(g, ts, i, 3, t, r) && !Cur(ts, r.s).Caret?
    decreases |ts| - i, 1
  {
    var a := Power(g, ts, Pos(i + 1, false), d);
    assert Call(g, ts, Pos(i, false), d) == Out(g.call1(ts[i].name, a.val), a.s);
    var arg := SoundPower(g, ts, i + 1, d);
    t := Apply(ts[i].name, arg, true);
    assert Print(3, arg)[0] == ts[i + 1];
    SpansOne(ts, i);
    SpansJoin(ts, i, i + 1, a.s.i, [ts[i]], Print(3, arg));
  }

  lemma SoundCall2<N>(g: Algebra<N>, ts: seq<Token<N>>, i: int, d: int) returns (t: Tree<N>)
    requires 0 <= i < |ts| && ts[i].Ident? && g.arity(ts[i].name) >= 2 && !Call(g, ts, Pos(i, false), d).s.err
    ensures Reading(g, ts, i, 4, t, Call(g, ts, Pos(i, false), d)) && t.Apply2?
    decreases |ts| - i, 1
  {
    assert Cur(ts, Pos(i + 1, false)).LParen?;
    Call2Is(g, ts, i, ts[i].name, d);
    var a := Expr(g, ts, Pos(i + 2, false), d);
    var at := a.s.i;
    var b := Closed(g, ts, Pos(at + 1, false), d);
    var left := SoundExpr(g, ts, i + 2, d);
    var right := SoundClosed(g, ts, at + 1, d);
    t := Apply2(ts[i].name, left, right);
    Call2Spans(ts, i, at, b.s.i, Print(0, left), Print(0, right));
  }

  lemma Call2Spans<N>(ts: seq<Token<N>>, i: int, at: int, end: int, a: seq<Token<N>>, b: seq<Token<N>>)
    requires 0 <= i && i + 1 < |ts| && ts[i].Ident? && ts[i + 1].LParen?
    requires Spans(ts, i + 2, at, a) && at < |ts| && ts[at].Comma? && Spans(ts, at + 1, end, b + [RParen])
    ensures Spans(ts, i, end, [Ident(ts[i].name), LParen] + a + [Comma] + b + [RParen])
  {
    var head: seq<Token<N>> := [Ident(ts[i].name), LParen];
    assert Spans(ts, i, i + 2, head);
    SpansJoin(ts, i, i + 2, at, head, a);
    SpansOne(ts, at);
    SpansJoin(ts, i, at, at + 1, head + a, [Comma]);
    SpansJoin(ts, i, at + 1, end, head + a + [Comma], b + [RParen]);
    assert head + a + [Comma] + (b + [RParen]) == head + a + [Comma] + b + [RParen];
  }

  /** What the tokenizer delivers: the end token only stands for the end. */
  predicate NoEnd<N>(ts: seq<Token<N>>) { forall i :: 0 <= i < |ts| ==> !ts[i].End? }

  /**
   * A token stream has a value exactly when it is the print of a tree whose
   * nesting fits the limit, and the value is that of the tree.
   */
  lemma EvaluatesIff<N(!new)>(g: Algebra<N>, ts: seq<Token<N>>, v: N)
    requires NoEnd(ts)
    ensures Evaluate(g, ts) == Value(v) <==>
      exists t :: WellFormed(g, t) && Print(0, t) == ts && Eval(g, t) == v && 1 + Need(0, t) <= DEPTH_MAX
  {
    if Evaluate(g, ts) == Value(v) {
      var t := SoundExpr(g, ts, 0, 0);
      assert ts[0..|ts|] == ts;
      PrintThenEvaluate(g, t);
    }
    forall t | WellFormed(g, t) && Print(0, t) == ts && Eval(g, t) == v && 1 + Need(0, t) <= DEPTH_MAX
      ensures Evaluate(g, ts) == Value(v)
    {
      PrintThenEvaluate(g, t);
    }
  }
}
