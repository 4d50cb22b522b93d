/**
 * The evaluator of core/math_expr.c in its own form: one parser object whose
 * position, error flag and depth the mutually recursive methods update, with
 * loops for the operator chains. Each method computes what its production
 * says, and the whole terminates on every token stream.
 */
module MathEvaluator {
  import opened MathParser

  lemma SumRestIs<N>(g: Algebra<N>, ts: seq<Token<N>>, v: N, s: Pos, d: int)
    requires In(ts, s) && AddOp(Cur(ts, s))
    ensures SumRest(g, ts, v, s, d) ==
      var t := Term(g, ts, Advance(s), d); SumRest(g, ts, Combine(g, Cur(ts, s), v, t.val), t.s, d)
  {
  }

  lemma TermRestIs<N>(g: Algebra<N>, ts: seq<Token<N>>, v: N, s: Pos, d: int)
    requires In(ts, s) && MulOp(Cur(ts, s))
    ensures TermRest(g, ts, v, s, d) ==
      var u := Unary(g, ts, Advance(s), false, d); TermRest(g, ts, Combine(g, Cur(ts, s), v, u.val), u.s, d)
  {
  }

  /** A base with the exponent that follows it, if any. */
  ghost function Raised<N>(g: Algebra<N>, ts: seq<Token<N>>, b: Out<N>, d: int): Out<N>
    requires In(ts, b.s)
  {
    if !Cur(ts, b.s).Caret? then b
    else
      var e := Power(g, ts, Advance(b.s), d);
      Out(g.pow(b.val, e.val), e.s)
  }

  lemma PowerUnfolds<N>(g: Algebra<N>, ts: seq<Token<N>>, s: Pos, d: int)
    requires In(ts, s) && d < DEPTH_MAX
    ensures Power(g, ts, s, d) == Raised(g, ts, Call(g, ts, s, d + 1), d + 1)
  {
  }

  class Parser<N> {
    const g: Algebra<N>
    const ts: seq<Token<N>>
    var pos: int
    var err: bool
    var depth: int

    ghost predicate Valid()
      reads this
    {
      0 <= pos <= |ts|
    }

    ghost function S(): Pos
      reads this
    {
      Pos(pos, err)
    }

    constructor (algebra: Algebra<N>, tokens: seq<Token<N>>)
      ensures g == algebra && ts == tokens && S() == Pos(0, false) && depth == 0
    {
      g, ts, pos, err, depth := algebra, tokens, 0, false, 0;
    }

    method Tok() returns (t: Token<N>)
      requires Valid()
      ensures t == Cur(ts, S())
    {
      t := if err then Bad else if pos < |ts| then ts[pos] else End;
    }

    /** Where a method leaves the parser: as the production says, with the depth restored unless it failed. */
    twostate predicate Left(new r: Out<N>, new val: N)
      reads this
    {
      Valid() && S() == r.s && val == r.val && pos >= old(pos) && (!err ==> depth == old(depth))
    }

    method ParseExpr() returns (val: N)
      requires Valid()
      modifies this
      ensures Left(Expr(g, ts, old(S()), old(depth)), val)
      decreases |ts| - pos, 8
    {
      depth := depth + 1;
      if depth > DEPTH_MAX {
        err := true;
        return g.nan;
      }
      val := ParseSum();
      depth := depth - 1;
    }

    /** The operator loop of parse_expr. */
    method ParseSum() returns (val: N)
      requires Valid()
      modifies this
      ensures Left(Sum(g, ts, old(S()), old(depth)), val)
      decreases |ts| - pos, 7
    {
      val := ParseTerm();
      var t := Tok();
      while AddOp(t)
        invariant Valid() && pos >= old(pos) && t == Cur(ts, S()) && (!err ==> depth == old(depth))
        invariant SumRest(g, ts, val, S(), old(depth)) == Sum(g, ts, old(S()), old(depth))
        decreases |ts| - pos
      {
        val, t := SumTurn(t, val);
      }
    }

    /** One turn of that loop: the operator and the term after it. */
    method SumTurn(op: Token<N>, lhs: N) returns (val: N, t: Token<N>)
      requires Valid() && op == Cur(ts, S()) && AddOp(op)
      modifies this
      ensures Valid() && pos > old(pos) && t == Cur(ts, S()) && (!err ==> depth == old(depth))
      ensures SumRest(g, ts, val, S(), old(depth)) == SumRest(g, ts, lhs, old(S()), old(depth))
      decreases |ts| - pos, 6
    {
      SumRestIs(g, ts, lhs, S(), depth);
      pos := pos + 1;
      var rhs := ParseTerm();
      val := Combine(g, op, lhs, rhs);
      t := Tok();
    }

    method ParseTerm() returns (val: N)
      requires Valid()
      modifies this
      ensures Left(Term(g, ts, old(S()), old(depth)), val)
      decreases |ts| - pos, 5
    {
      val := ParseUnary();
      var t := Tok();
      while MulOp(t)
        invariant Valid() && pos >= old(pos) && t == Cur(ts, S()) && (!err ==> depth == old(depth))
        invariant TermRest(g, ts, val, S(), old(depth)) == Term(g, ts, old(S()), old(depth))
        decreases |ts| - pos
      {
        val, t := TermTurn(t, val);
      }
    }

    /** One turn of that loop: the operator and the factor after it. */
    method TermTurn(op: Token<N>, lhs: N) returns (val: N, t: Token<N>)
      requires Valid() && op == Cur(ts, S()) && MulOp(op)
      modifies this
      ensures Valid() && pos > old(pos) && t == Cur(ts, S()) && (!err ==> depth == old(depth))
      ensures TermRest(g, ts, val, S(), old(depth)) == TermRest(g, ts, lhs, old(S()), old(depth))
      decreases |ts| - pos, 4
    {
      TermRestIs(g, ts, lhs, S(), depth);
      pos := pos + 1;
      var rhs := ParseUnary();
      val := Combine(g, op, lhs, rhs);
      t := Tok();
    }

    method ParseUnary() returns (val: N)
      requires Valid()
      modifies this
      ensures Left(Unary(g, ts, old(S()), false, old(depth)), val)
      decreases |ts| - pos, 4
    {
      var minus := false;
      var t := Tok();
      while AddOp(t)
        invariant Valid() && pos >= old(pos) && t == Cur(ts, S()) && depth == old(depth)
        invariant Unary(g, ts, S(), minus, depth) == Unary(g, ts, old(S()), false, old(depth))
        decreases |ts| - pos
      {
        if t.Minus? { minus := !minus; }
        pos := pos + 1;
        t := Tok();
      }
      val := ParsePower();
      if minus { val := g.neg(val); }
    }

    method ParsePower() returns (val: N)
      requires Valid()
      modifies this
      ensures Left(Power(g, ts, old(S()), old(depth)), val)
      decreases |ts| - pos, 3
    {
      depth := depth + 1;
      if depth > DEPTH_MAX {
        err := true;
        return g.nan;
      }
      PowerUnfolds(g, ts, S(), old(depth));
      val := ParseCall();
      val := ParseExponent(val);
      depth := depth - 1;
    }

    /** The caret after a base, and the power to its right. */
    method ParseExponent(base: N) returns (val: N)
      requires Valid()
      modifies this
      ensures Left(Raised(g, ts, Out(base, old(S())), old(depth)), val)
      decreases |ts| - pos, 2
    {
      val := base;
      var t := Tok();
      if t.Caret? {
        pos := pos + 1;
        var exponent := ParsePower();
        val := g.pow(val, exponent);
      }
    }

    /** An expression and its closing parenthesis. */
    method ParseClosed() returns (val: N)
      requires Valid()
      modifies this
      ensures Left(Closed(g, ts, old(S()), old(depth)), val)
      decreases |ts| - pos, 9
    {
      val := ParseExpr();
      var t := Tok();
      if !t.RParen? {
        err := true;
        return g.nan;
      }
      pos := pos + 1;
    }

    method ParseCall() returns (val: N)
      requires Valid()
      modifies this
      ensures Left(Call(g, ts, old(S()), old(depth)), val)
      decreases |ts| - pos, 2
    {
      var t := Tok();
      if !t.Ident? {
        val := ParsePrimary();
        return;
      }
      var k := g.arity(t.name);
      if k < 0 {
        err := true;
        return g.nan;
      }
      pos := pos + 1;
      if k == 0 { val := ParseConstant(t.name); }
      else if k == 1 { val := ParseArgument(t.name); }
      else { val := ParseArguments(t.name); }
    }

    method ParseConstant(name: string) returns (val: N)
      requires Valid() && pos > 0 && !err && ts[pos - 1] == Ident(name) && g.arity(name) == 0
      modifies this
      ensures Left(Call(g, ts, Pos(old(pos) - 1, false), old(depth)), val)
    {
      var t := Tok();
      if t.LParen? {
        pos := pos + 1;
        t := Tok();
        if !t.RParen? {
          err := true;
          return g.nan;
        }
        pos := pos + 1;
      }
      val := g.call0(name);
    }

    method ParseArgument(name: string) returns (val: N)
      requires Valid() && pos > 0 && !err && ts[pos - 1] == Ident(name) && g.arity(name) == 1
      modifies this
      ensures Left(Call(g, ts, Pos(old(pos) - 1, false), old(depth)), val)
      decreases |ts| - pos, 10
    {
      var t := Tok();
      if t.LParen? {
        pos := pos + 1;
        var arg := ParseClosed();
        return if err then arg else g.call1(name, arg);
      }
      var arg := ParsePower();
      val := g.call1(name, arg);
    }

    method ParseArguments(name: string) returns (val: N)
      requires Valid() && pos > 0 && !err && ts[pos - 1] == Ident(name) && g.arity(name) > 1
      modifies this
      ensures Left(Call(g, ts, Pos(old(pos) - 1, false), old(depth)), val)
      decreases |ts| - pos, 10
    {
      var t := Tok();
      if !t.LParen? {
        err := true;
        return g.nan;
      }
      pos := pos + 1;
      var a := ParseExpr();
      t := Tok();
      if !t.Comma? {
        err := true;
        return g.nan;
      }
      pos := pos + 1;
      var b := ParseClosed();
      val := if err then b else g.call2(name, a, b);
    }

    method ParsePrimary() returns (val: N)
      requires Valid()
      modifies this
      ensures Left(Primary(g, ts, old(S()), old(depth)), val)
      decreases |ts| - pos, 1
    {
      var t := Tok();
      if t.Num? {
        pos := pos + 1;
        return t.v;
      }
      if t.LParen? {
        pos := pos + 1;
        val := ParseClosed();
        return;
      }
      err := true;
      val := g.nan;
    }
  }

  /** math_eval past the length check. */
  method MathEval<N>(g: Algebra<N>, ts: seq<Token<N>>) returns (r: Answer<N>)
    ensures r == Evaluate(g, ts)
  {
    var p := new Parser(g, ts);
    var val := p.ParseExpr();
    var t := p.Tok();
    r := if t.End? then Value(val) else Error;
  }
}
