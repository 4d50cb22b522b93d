/**
 * The recursive-descent evaluator of core/math_expr.c over tokens, for any
 * number algebra. A value is computed while parsing; an error is sticky; two
 * productions count nesting against a fixed limit.
 */
module MathParser {
  const DEPTH_MAX := 64

  datatype Token<N> =
    | Num(v: N) | Ident(name: string)
    | Plus | Minus | Star | Slash | Percent | Caret | LParen | RParen | Comma | Bad | End

  /** The operations on numbers and the built-in table, by name; an unknown name has arity -1. */
  datatype Algebra<!N> = Algebra(
    nan: N,
    neg: N -> N,
    add: (N, N) -> N,
    sub: (N, N) -> N,
    mul: (N, N) -> N,
    div: (N, N) -> N,
    mod: (N, N) -> N,
    pow: (N, N) -> N,
    arity: string -> int,
    call0: string -> N,
    call1: (string, N) -> N,
    call2: (string, N, N) -> N)

  datatype Pos = Pos(i: int, err: bool)
  datatype Out<N> = Out(val: N, s: Pos)

  ghost predicate In<N>(ts: seq<Token<N>>, s: Pos) { 0 <= s.i <= |ts| }

  /** The current token; after an error there is no way on. */
  function Cur<N>(ts: seq<Token<N>>, s: Pos): Token<N>
    requires In(ts, s)
  {
    if s.err then Bad else if s.i < |ts| then ts[s.i] else End
  }

  function Advance(s: Pos): Pos { s.(i := s.i + 1) }

  function Fail<N>(g: Algebra<N>, s: Pos): Out<N> { Out(g.nan, s.(err := true)) }

  predicate AddOp<N>(t: Token<N>) { t.Plus? || t.Minus? }

  predicate MulOp<N>(t: Token<N>) { t.Star? || t.Slash? || t.Percent? }

  function Combine<N>(g: Algebra<N>, op: Token<N>, a: N, b: N): N {
    match op
    case Plus => g.add(a, b)
    case Minus => g.sub(a, b)
    case Star => g.mul(a, b)
    case Slash => g.div(a, b)
    case _ => g.mod(a, b)
  }

  function Expr<N>(g: Algebra<N>, ts: seq<Token<N>>, s: Pos, d: int): (r: Out<N>)
    requires In(ts, s)
    ensures In(ts, r.s) && r.s.i >= s.i && (s.err ==> r.s.err)
    decreases |ts| - s.i, 8
  {
    if d >= DEPTH_MAX then Fail(g, s) else Sum(g, ts, s, d + 1)
  }

  /** The body of parse_expr, past the depth test. */
  function Sum<N>(g: Algebra<N>, ts: seq<Token<N>>, s: Pos, d: int): (r: Out<N>)
    requires In(ts, s)
    ensures In(ts, r.s) && r.s.i >= s.i && (s.err ==> r.s.err)
    decreases |ts| - s.i, 7
  {
    var t := Term(g, ts, s, d);
    SumRest(g, ts, t.val, t.s, d)
  }

  function SumRest<N>(g: Algebra<N>, ts: seq<Token<N>>, v: N, s: Pos, d: int): (r: Out<N>)
    requires In(ts, s)
    ensures In(ts, r.s) && r.s.i >= s.i && (s.err ==> r.s.err)
    decreases |ts| - s.i, 6
  {
    if !AddOp(Cur(ts, s)) then Out(v, s)
    else
      var t := Term(g, ts, Advance(s), d);
      SumRest(g, ts, Combine(g, Cur(ts, s), v, t.val), t.s, d)
  }

  function Term<N>(g: Algebra<N>, ts: seq<Token<N>>, s: Pos, d: int): (r: Out<N>)
    requires In(ts, s)
    ensures In(ts, r.s) && r.s.i >= s.i && (s.err ==> r.s.err)
    decreases |ts| - s.i, 5
  {
    var u := Unary(g, ts, s, false, d);
    TermRest(g, ts, u.val, u.s, d)
  }

  function TermRest<N>(g: Algebra<N>, ts: seq<Token<N>>, v: N, s: Pos, d: int): (r: Out<N>)
    requires In(ts, s)
    ensures In(ts, r.s) && r.s.i >= s.i && (s.err ==> r.s.err)
    decreases |ts| - s.i, 4
  {
    if !MulOp(Cur(ts, s)) then Out(v, s)
    else
      var u := Unary(g, ts, Advance(s), false, d);
      TermRest(g, ts, Combine(g, Cur(ts, s), v, u.val), u.s, d)
  }

  function Unary<N>(g: Algebra<N>, ts: seq<Token<N>>, s: Pos, minus: bool, d: int): (r: Out<N>)
    requires In(ts, s)
    ensures In(ts, r.s) && r.s.i >= s.i && (s.err ==> r.s.err)
    decreases |ts| - s.i, 4
  {
    if AddOp(Cur(ts, s)) then Unary(g, ts, Advance(s), minus != Cur(ts, s).Minus?, d)
    else
      var p := Power(g, ts, s, d);
      Out(if minus then g.neg(p.val) else p.val, p.s)
  }

  function Power<N>(g: Algebra<N>, ts: seq<Token<N>>, s: Pos, d: int): (r: Out<N>)
    requires In(ts, s)
    ensures In(ts, r.s) && r.s.i >= s.i && (s.err ==> r.s.err)
    decreases |ts| - s.i, 3
  {
    if d >= DEPTH_MAX then Fail(g, s)
    else
      var b := Call(g, ts, s, d + 1);
      if !Cur(ts, b.s).Caret? then b
      else
        var e := Power(g, ts, Advance(b.s), d + 1);
        Out(g.pow(b.val, e.val), e.s)
  }

  /** An expression up to a closing parenthesis, which is consumed. */
  function Closed<N>(g: Algebra<N>, ts: seq<Token<N>>, s: Pos, d: int): (r: Out<N>)
    requires In(ts, s)
    ensures In(ts, r.s) && r.s.i >= s.i && (s.err ==> r.s.err)
    decreases |ts| - s.i, 9
  {
    var e := Expr(g, ts, s, d);
    if Cur(ts, e.s).RParen? then Out(e.val, Advance(e.s)) else Fail(g, e.s)
  }

  function Call<N>(g: Algebra<N>, ts: seq<Token<N>>, s: Pos, d: int): (r: Out<N>)
    requires In(ts, s)
    ensures In(ts, r.s) && r.s.i >= s.i && (s.err ==> r.s.err)
    decreases |ts| - s.i, 2
  {
    var t := Cur(ts, s);
    if !t.Ident? then Primary(g, ts, s, d)
    else
      var k, n := g.arity(t.name), Advance(s);
      if k < 0 then Fail(g, s)
      else if k == 0 then
        if !Cur(ts, n).LParen? then Out(g.call0(t.name), n)
        else if Cur(ts, Advance(n)).RParen? then Out(g.call0(t.name), Advance(Advance(n)))
        else Fail(g, Advance(n))
      else if k == 1 then
        var a := if Cur(ts, n).LParen? then Closed(g, ts, Advance(n), d) else Power(g, ts, n, d);
        if Cur(ts, n).LParen? && a.s.err then a else Out(g.call1(t.name, a.val), a.s)
      else if !Cur(ts, n).LParen? then Fail(g, n)
      else
        var a := Expr(g, ts, Advance(n), d);
        if !Cur(ts, a.s).Comma? then Fail(g, a.s)
        else
          var b := Closed(g, ts, Advance(a.s), d);
          if b.s.err then b else Out(g.call2(t.name, a.val, b.val), b.s)
  }

  function Primary<N>(g: Algebra<N>, ts: seq<Token<N>>, s: Pos, d: int): (r: Out<N>)
    requires In(ts, s)
    ensures In(ts, r.s) && r.s.i >= s.i && (s.err ==> r.s.err)
    decreases |ts| - s.i, 1
  {
    match Cur(ts, s)
    case Num(v) => Out(v, Advance(s))
    case LParen => Closed(g, ts, Advance(s), d)
    case _ => Fail(g, s)
  }

  datatype Answer<N> = Value(v: N) | Error

  /** math_eval past the length check: the whole input must be one expression. */
  function Evaluate<N>(g: Algebra<N>, ts: seq<Token<N>>): Answer<N> {
    var r := Expr(g, ts, Pos(0, false), 0);
    if Cur(ts, r.s).End? then Value(r.val) else Error
  }
}
