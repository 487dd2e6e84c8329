/**
 * The arithmetic grammar both the postfix translator and the stack-machine
 * front end parse:
 *
 *   expression   -> term more-terms
 *   more-terms   -> + term more-terms | - term more-terms | e
 *   term         -> factor more-factors
 *   more-factors -> * factor more-factors | / factor more-factors
 *                 | % factor more-factors | e
 *   factor       -> ( expression ) | id | int | float
 *
 * Its derivation trees, the tokens each one spells, and the value the
 * parsers compute for one while they parse it.
 */
module Arith {
  import opened JavaInt
  import opened Exceptions
  import opened Tokens

  datatype Op = Plus | Minus | Times | Over | Mod

  type AddOp = op: Op | op == Plus || op == Minus witness Plus

  type MulOp = op: Op | op == Times || op == Over || op == Mod witness Times

  /** The name of the token that spells an operator. */
  function OpKind(op: Op): Kind {
    match op
    case Plus => Add
    case Minus => Subtract
    case Times => Multiply
    case Over => Divide
    case Mod => Remainder
  }

  predicate IsAddKind(k: Kind) { k == Add || k == Subtract }

  predicate IsMulKind(k: Kind) { k == Multiply || k == Divide || k == Remainder }

  /** A token that would let `more-terms` or `more-factors` go on. */
  predicate ContinuesExpression(k: Kind) { IsAddKind(k) || IsMulKind(k) }

  function AddOpOf(k: Kind): (op: AddOp)
    requires IsAddKind(k)
    ensures OpKind(op) == k
  {
    if k == Add then Plus else Minus
  }

  function MulOpOf(k: Kind): (op: MulOp)
    requires IsMulKind(k)
    ensures OpKind(op) == k
  {
    if k == Multiply then Times else if k == Divide then Over else Mod
  }

  /** A value on an evaluation stack: a boxed `Integer`, or a real literal's `Double`. */
  datatype Value = IntV(i: Int32) | RealV(text: string)

  /** `left op right` in Java `int` arithmetic; the divisor is checked by the JVM. */
  function Compute(op: Op, left: Int32, right: Int32): Int32
    requires op == Over || op == Mod ==> right != 0
  {
    match op
    case Plus => JavaInt.IAdd(left, right)
    case Minus => JavaInt.ISub(left, right)
    case Times => JavaInt.IMul(left, right)
    case Over => JavaInt.IDiv(left, right)
    case Mod => JavaInt.IRem(left, right)
  }

  /**
   * One binary step on boxed stack values: both operands are cast with
   * `(int)` (a `Double` does not cast), then the operator is applied.
   */
  function Apply(op: Op, left: Value, right: Value): (r: Result<Value>)
    ensures r.Success? <==> left.IntV? && right.IntV? && (op == Over || op == Mod ==> right.i != 0)
    ensures r.Success? ==> r.value == IntV(Compute(op, left.i, right.i))
    ensures r.Failure? && (!left.IntV? || !right.IntV?) ==> r.fault == ClassCast
    ensures r.Failure? && left.IntV? && right.IntV? ==> r.fault == DivisionByZero
  {
    if !right.IntV? || !left.IntV? then Failure(ClassCast)
    else if (op == Over || op == Mod) && right.i == 0 then Failure(DivisionByZero)
    else Success(IntV(Compute(op, left.i, right.i)))
  }

  // Derivation trees, one constructor per alternative of the grammar.

  datatype Expr = Expr(first: Term, more: MoreTerms)

  datatype MoreTerms = NoTerms | MoreTerm(op: AddOp, term: Term, rest: MoreTerms)

  datatype Term = Term(first: Factor, more: MoreFactors)

  datatype MoreFactors = NoFactors | MoreFactor(op: MulOp, factor: Factor, rest: MoreFactors)

  datatype Factor = Paren(inner: Expr) | Var(name: string) | Num(n: Int32) | Real(text: string)

  // The tokens a derivation tree spells.

  function SpellExpr(e: Expr): seq<Token>
    decreases e, 1
  {
    SpellTerm(e.first) + SpellMoreTerms(e.more)
  }

  function SpellMoreTerms(m: MoreTerms): seq<Token>
    decreases m, 1
  {
    match m
    case NoTerms => []
    case MoreTerm(op, t, rest) => [Word(OpKind(op))] + SpellTerm(t) + SpellMoreTerms(rest)
  }

  function SpellTerm(t: Term): seq<Token>
    decreases t, 1
  {
    SpellFactor(t.first) + SpellMoreFactors(t.more)
  }

  function SpellMoreFactors(m: MoreFactors): seq<Token>
    decreases m, 1
  {
    match m
    case NoFactors => []
    case MoreFactor(op, f, rest) => [Word(OpKind(op))] + SpellFactor(f) + SpellMoreFactors(rest)
  }

  function SpellFactor(f: Factor): seq<Token>
    decreases f, 1
  {
    match f
    case Paren(e) => [Word(OpenParenthesis)] + SpellExpr(e) + [Word(ClosedParenthesis)]
    case Var(x) => [Identifier(x)]
    case Num(n) => [IntegerNumber(n)]
    case Real(t) => [RealNumber(t)]
  }

  // Evaluation in an environment of boxed values, left to right, each
  // operator applied as soon as its right operand is complete.

  function EvalExpr(e: Expr, env: map<string, Value>): Result<Value>
    decreases e, 1
  {
    var v :- EvalTerm(e.first, env);
    EvalMoreTerms(v, e.more, env)
  }

  function EvalMoreTerms(acc: Value, m: MoreTerms, env: map<string, Value>): Result<Value>
    decreases m, 1
  {
    match m
    case NoTerms => Success(acc)
    case MoreTerm(op, t, rest) =>
      var v :- EvalTerm(t, env);
      var r :- Apply(op, acc, v);
      EvalMoreTerms(r, rest, env)
  }

  function EvalTerm(t: Term, env: map<string, Value>): Result<Value>
    decreases t, 1
  {
    var v :- EvalFactor(t.first, env);
    EvalMoreFactors(v, t.more, env)
  }

  function EvalMoreFactors(acc: Value, m: MoreFactors, env: map<string, Value>): Result<Value>
    decreases m, 1
  {
    match m
    case NoFactors => Success(acc)
    case MoreFactor(op, f, rest) =>
      var v :- EvalFactor(f, env);
      var r :- Apply(op, acc, v);
      EvalMoreFactors(r, rest, env)
  }

  /** A variable's value is `(int) values.get(name)`: a missing entry unboxes `null`. */
  function EvalFactor(f: Factor, env: map<string, Value>): Result<Value>
    decreases f, 1
  {
    match f
    case Paren(e) => EvalExpr(e, env)
    case Var(x) =>
      if x !in env then Failure(NullUnboxing)
      else if env[x].RealV? then Failure(ClassCast)
      else Success(env[x])
    case Num(n) => Success(IntV(n))
    case Real(t) => Success(RealV(t))
  }

  // Trees over integer literals only: the translator's sub-language.

  predicate IntegersOnly(e: Expr)
    decreases e, 1
  {
    IntegersOnlyTerm(e.first) && IntegersOnlyMoreTerms(e.more)
  }

  predicate IntegersOnlyMoreTerms(m: MoreTerms)
    decreases m, 1
  {
    m.MoreTerm? ==> IntegersOnlyTerm(m.term) && IntegersOnlyMoreTerms(m.rest)
  }

  predicate IntegersOnlyTerm(t: Term)
    decreases t, 1
  {
    IntegersOnlyFactor(t.first) && IntegersOnlyMoreFactors(t.more)
  }

  predicate IntegersOnlyMoreFactors(m: MoreFactors)
    decreases m, 1
  {
    m.MoreFactor? ==> IntegersOnlyFactor(m.factor) && IntegersOnlyMoreFactors(m.rest)
  }

  predicate IntegersOnlyFactor(f: Factor)
    decreases f, 1
  {
    match f
    case Paren(e) => IntegersOnly(e)
    case Num(_) => true
    case _ => false
  }

  // What may come right after each kind of phrase without extending it.

  predicate EndsExpression(ts: seq<Token>, q: nat) { q < |ts| && !ContinuesExpression(ts[q].Name()) }

  predicate EndsTerm(ts: seq<Token>, q: nat) { q < |ts| && !IsMulKind(ts[q].Name()) }

  /** A term ends where its `more-terms` begin: at a `+`, a `-`, or the end of the expression. */
  lemma {:induction false} TermEnds(ts: seq<Token>, m: nat, q: nat, more: MoreTerms)
    requires At(ts, m, SpellMoreTerms(more)) && q == m + |SpellMoreTerms(more)| && EndsExpression(ts, q)
    ensures EndsTerm(ts, m)
  {
    if more.MoreTerm? {
      assert SpellMoreTerms(more)[0] == Word(OpKind(more.op));
      AtHead(ts, m, SpellMoreTerms(more));
    }
  }

  /** Where the first term and the `more-terms` of an expression sit. */
  lemma {:induction false} ExpressionAt(ts: seq<Token>, p: nat, e: Expr)
    requires At(ts, p, SpellExpr(e))
    ensures At(ts, p, SpellTerm(e.first))
    ensures At(ts, p + |SpellTerm(e.first)|, SpellMoreTerms(e.more))
    ensures |SpellExpr(e)| == |SpellTerm(e.first)| + |SpellMoreTerms(e.more)|
  {
    AtAppend(ts, p, SpellTerm(e.first), SpellMoreTerms(e.more));
  }

  /** Where the first factor and the `more-factors` of a term sit. */
  lemma {:induction false} TermAt(ts: seq<Token>, p: nat, t: Term)
    requires At(ts, p, SpellTerm(t))
    ensures At(ts, p, SpellFactor(t.first))
    ensures At(ts, p + |SpellFactor(t.first)|, SpellMoreFactors(t.more))
    ensures |SpellTerm(t)| == |SpellFactor(t.first)| + |SpellMoreFactors(t.more)|
  {
    AtAppend(ts, p, SpellFactor(t.first), SpellMoreFactors(t.more));
  }

  /** An operator followed by its operand and the rest: where each piece sits. */
  lemma {:induction false} OperatorAt(ts: seq<Token>, p: nat, k: Kind, a: seq<Token>, b: seq<Token>)
    requires At(ts, p, [Word(k)] + a + b)
    ensures p < |ts| && ts[p] == Word(k)
    ensures At(ts, p + 1, a) && At(ts, p + 1 + |a|, b)
  {
    AtAppend(ts, p, [Word(k)] + a, b);
    AtAppend(ts, p, [Word(k)], a);
    AtHead(ts, p, [Word(k)]);
  }
}
