/**
 * Expression trees, their value, and their printed form in the grammar of
 * core/math_expr.c. Evaluating the printed tokens gives the value of the tree
 * exactly when the nesting fits the depth limit.
 */
module MathPrint {
  import opened MathParser

  /**
   * A tree. Signs pile up in front of a power; a call may leave out the
   * parentheses of its one argument; parentheses may stand where none are
   * needed.
   */
  datatype Tree<N> =
    | Leaf(v: N)
    | Const(name: string, parens: bool)
    | Apply(name: string, arg: Tree<N>, bare: bool)
    | Apply2(name: string, left: Tree<N>, right: Tree<N>)
    | Paren(body: Tree<N>)
    | Signed(signs: seq<bool>, body: Tree<N>)
    | Pow(left: Tree<N>, right: Tree<N>)
    | Product(op: Token<N>, left: Tree<N>, right: Tree<N>)
    | Sum2(op: Token<N>, left: Tree<N>, right: Tree<N>)

  /** Names carry their table arity, operators sit at their own level. */
  predicate WellFormed<N>(g: Algebra<N>, t: Tree<N>) {
    match t
    case Leaf(_) => true
    case Const(name, _) => g.arity(name) == 0
    case Apply(name, a, _) => g.arity(name) == 1 && WellFormed(g, a)
    case Apply2(name, a, b) => g.arity(name) >= 2 && WellFormed(g, a) && WellFormed(g, b)
    case Paren(b) => WellFormed(g, b)
    case Signed(_, b) => WellFormed(g, b)
    case Pow(a, b) => WellFormed(g, a) && WellFormed(g, b)
    case Product(op, a, b) => MulOp(op) && WellFormed(g, a) && WellFormed(g, b)
    case Sum2(op, a, b) => AddOp(op) && WellFormed(g, a) && WellFormed(g, b)
  }

  function Odd(signs: seq<bool>): bool { |signs| > 0 && (signs[0] != Odd(signs[1..])) }

  /** The value of a tree, operator by operator. */
  function Eval<N>(g: Algebra<N>, t: Tree<N>): N {
    match t
    case Leaf(v) => v
    case Const(name, _) => g.call0(name)
    case Apply(name, a, _) => g.call1(name, Eval(g, a))
    case Apply2(name, a, b) => g.call2(name, Eval(g, a), Eval(g, b))
    case Paren(b) => Eval(g, b)
    case Signed(signs, b) => if Odd(signs) then g.neg(Eval(g, b)) else Eval(g, b)
    case Pow(a, b) => g.pow(Eval(g, a), Eval(g, b))
    case Product(op, a, b) =>
      if op.Star? then g.mul(Eval(g, a), Eval(g, b))
      else if op.Slash? then g.div(Eval(g, a), Eval(g, b))
      else g.mod(Eval(g, a), Eval(g, b))
    case Sum2(op, a, b) =>
      if op.Plus? then g.add(Eval(g, a), Eval(g, b)) else g.sub(Eval(g, a), Eval(g, b))
  }

  /** The level a tree prints at without parentheses: sum, product, sign, power, atom. */
  function Own<N>(t: Tree<N>): int {
    match t
    case Sum2(_, _, _) => 0
    case Product(_, _, _) => 1
    case Signed(_, _) => 2
    case Pow(_, _) => 3
    case _ => 4
  }

  /** Orders the printing of one tree: down its levels, in parentheses where its own is passed. */
  function Rank<N>(k: int, t: Tree<N>): int { if k <= Own(t) then 4 - k else 14 - k }

  function SignTokens<N>(signs: seq<bool>): (r: seq<Token<N>>)
    ensures |r| == |signs|
  {
    if |signs| == 0 then [] else [if signs[0] then Minus else Plus] + SignTokens(signs[1..])
  }

  /** The tokens of a tree where the grammar expects level `k`. */
  function Print<N>(k: int, t: Tree<N>): (r: seq<Token<N>>)
    requires 0 <= k <= 4
    ensures |r| > 0
    decreases t, Rank(k, t)
  {
    if k == 0 then
      if t.Sum2? then Print(0, t.left) + [t.op] + Print(1, t.right) else Print(1, t)
    else if k == 1 then
      if t.Product? then Print(1, t.left) + [t.op] + Print(2, t.right) else Print(2, t)
    else if k == 2 then
      if t.Signed? then SignTokens(t.signs) + Print(3, t.body) else Print(3, t)
    else if k == 3 then
      if t.Pow? then Print(4, t.left) + [Caret] + Print(3, t.right)
      else if t.Apply? && Bare(t) then [Ident(t.name)] + Print(3, t.arg)
      else Print(4, t)
    else
      match t
      case Leaf(v) => [Num(v)]
      case Const(name, parens) => [Ident(name)] + if parens then [LParen, RParen] else []
      case Apply(name, a, _) => [Ident(name), LParen] + Print(0, a) + [RParen]
      case Apply2(name, a, b) => [Ident(name), LParen] + Print(0, a) + [Comma] + Print(0, b) + [RParen]
      case Paren(b) => [LParen] + Print(0, b) + [RParen]
      case _ => [LParen] + Print(0, t) + [RParen]
  }

  /** An argument can go without parentheses unless its own text opens with one. */
  predicate Bare<N>(t: Tree<N>)
    requires t.Apply?
    decreases t, 0
  {
    t.bare && !Print(3, t.arg)[0].LParen?
  }

  function Max(a: int, b: int): int { if a > b then a else b }

  /** The nesting the evaluator counts below level `k` while it reads the tree. */
  function Need<N>(k: int, t: Tree<N>): (n: int)
    requires 0 <= k <= 4
    ensures n >= 0
    decreases t, Rank(k, t)
  {
    if k == 0 then
      if t.Sum2? then Max(Need(0, t.left), Need(1, t.right)) else Need(1, t)
    else if k == 1 then
      if t.Product? then Max(Need(1, t.left), Need(2, t.right)) else Need(2, t)
    else if k == 2 then
      if t.Signed? then Need(3, t.body) else Need(3, t)
    else if k == 3 then
      1 + (if t.Pow? then Max(Need(4, t.left), Need(3, t.right))
           else if t.Apply? && Bare(t) then Need(3, t.arg)
           else Need(4, t))
    else
      match t
      case Leaf(_) => 0
      case Const(_, _) => 0
      case Apply(_, a, _) => 1 + Need(0, a)
      case Apply2(_, a, b) => 1 + Max(Need(0, a), Need(0, b))
      case Paren(b) => 1 + Need(0, b)
      case _ => 1 + Need(0, t)
  }
}
