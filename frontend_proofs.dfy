/**
 * What the front end does with a well-formed arithmetic expression: it
 * consumes exactly the expression's tokens, appends the expression's
 * stack-machine code (operands before their operator, and after every `%`
 * a `push` of the remainder just computed), leaves the expression's value
 * on top of the stack -- evaluated against the values assigned so far --
 * and appends no message; or it throws what evaluating the expression
 * throws.
 *
 * Each lemma is told where its phrase starts (`p`) and where it ends (`q`)
 * in the token stream `ts`.
 */
module FrontendProofs {
  import opened JavaInt
  import opened Exceptions
  import opened Tokens
  import opened Arith
  import opened Frontend

  // The code a derivation tree compiles to, given the values of the variables.
  // Where evaluation fails the code is cut short; the theorems only use the
  // code of phrases that evaluate.

  function CodeExpr(e: Expr, env: map<string, Value>): seq<Instr>
    decreases e, 1
  {
    CodeTerm(e.first, env) + CodeMoreTerms(e.more, env)
  }

  function CodeMoreTerms(m: MoreTerms, env: map<string, Value>): seq<Instr>
    decreases m, 1
  {
    match m
    case NoTerms => []
    case MoreTerm(op, t, rest) => CodeTerm(t, env) + [Arithmetic(op)] + CodeMoreTerms(rest, env)
  }

  function CodeTerm(t: Term, env: map<string, Value>): seq<Instr>
    decreases t, 1
  {
    CodeFactor(t.first, env) +
    match EvalFactor(t.first, env)
    case Failure(_) => []
    case Success(v) => CodeMoreFactors(v, t.more, env)
  }

  /** After a `%` the remainder, the new accumulated value, is written as a `push`. */
  function CodeMoreFactors(acc: Value, m: MoreFactors, env: map<string, Value>): seq<Instr>
    decreases m, 1
  {
    match m
    case NoFactors => []
    case MoreFactor(op, f, rest) =>
      CodeFactor(f, env) + [Arithmetic(op)] +
      match EvalFactor(f, env)
      case Failure(_) => []
      case Success(v) =>
        match Apply(op, acc, v)
        case Failure(_) => []
        case Success(r) => (if op == Mod then [PushInt(r.i)] else []) + CodeMoreFactors(r, rest, env)
  }

  function CodeFactor(f: Factor, env: map<string, Value>): seq<Instr>
    decreases f, 1
  {
    match f
    case Paren(e) => CodeExpr(e, env)
    case Var(x) => [Rvalue(x)]
    case Num(n) => [PushInt(n)]
    case Real(t) => [PushReal(t)]
  }

  /**
   * `r` is what parsing a phrase from `s` must give when the phrase evaluates
   * to `value`: on success the position is `q`, just past the phrase, the
   * stack is `base` with the value on top, `code` was appended and no
   * message was; on failure the same exception was thrown.
   */
  predicate Yields(s: State, r: Outcome<State>, value: Result<Value>, q: nat, code: seq<Instr>, base: seq<Value>)
  {
    && (value.Success? ==>
          && r.Ok?
          && r.st.pos == q
          && r.st.stack == base + [value.value]
          && r.st.code == s.code + code
          && r.st.diags == s.diags)
    && (value.Failure? ==> r.Thrown? && r.fault == value.fault)
  }

  /** A part parsed from where an earlier part, with its code, left off. */
  lemma {:induction false} Compose(s: State, s1: State, r: Outcome<State>, value: Result<Value>, q: nat,
                                   c1: seq<Instr>, c2: seq<Instr>, base: seq<Value>)
    requires s1.code == s.code + c1 && s1.diags == s.diags
    requires Yields(s1, r, value, q, c2, base)
    ensures Yields(s, r, value, q, c1 + c2, base)
  {
    assert s.code + c1 + c2 == s.code + (c1 + c2);
  }

  lemma {:induction false} Assoc(a: seq<Instr>, b: seq<Instr>, c: seq<Instr>)
    ensures a + b + c == a + (b + c)
  {
  }

  /** The binary step on a stack whose two top entries are `left` and then `right` is `Apply`. */
  lemma {:induction false} ApplyTopOnTwo(s: State, base: seq<Value>, left: Value, right: Value, op: Op)
    requires s.stack == base + [left] + [right]
    ensures Apply(op, left, right).Failure? ==>
              ApplyTop(s, op).Thrown? && ApplyTop(s, op).fault == Apply(op, left, right).fault
    ensures Apply(op, left, right).Success? ==>
              && ApplyTop(s, op).Ok?
              && ApplyTop(s, op).st == s.(stack := base + [Apply(op, left, right).value])
  {
    assert s.stack[..|s.stack| - 1] == base + [left];
    assert (base + [left])[..|base|] == base;
  }

  /** The expression theorem. */
  lemma {:induction false} ExpressionCompiles(ts: seq<Token>, s: State, p: nat, q: nat, e: Expr)
    requires s.Valid(ts) && s.pos == p
    requires At(ts, p, SpellExpr(e)) && q == p + |SpellExpr(e)| && EndsExpression(ts, q)
    ensures Yields(s, ParseExpression(ts, s), EvalExpr(e, s.values), q, CodeExpr(e, s.values), s.stack)
    decreases e, 1
  {
    var m := p + |SpellTerm(e.first)|;
    ExpressionAt(ts, p, e);
    TermEnds(ts, m, q, e.more);
    TermCompiles(ts, s, p, m, e.first);
    var r1 := ParseTerm(ts, s);
    var v1 := EvalTerm(e.first, s.values);
    if v1.Success? {
      ExpressionRest(ts, s, r1.st, m, q, e, v1.value);
    }
  }

  /** The `more-terms` of an expression, once its first term has been parsed into `s1`. */
  lemma {:induction false} ExpressionRest(ts: seq<Token>, s: State, s1: State, m: nat, q: nat, e: Expr, v: Value)
    requires s1.Valid(ts) && s1.pos == m && s1.values == s.values && s1.diags == s.diags
    requires s1.stack == s.stack + [v] && s1.code == s.code + CodeTerm(e.first, s.values)
    requires At(ts, m, SpellMoreTerms(e.more)) && q == m + |SpellMoreTerms(e.more)| && EndsExpression(ts, q)
    ensures Yields(s, ParseMoreTerms(ts, s1), EvalMoreTerms(v, e.more, s.values), q, CodeExpr(e, s.values), s.stack)
    decreases e, 0
  {
    MoreTermsCompile(ts, s1, m, q, s.stack, v, e.more);
    Compose(s, s1, ParseMoreTerms(ts, s1), EvalMoreTerms(v, e.more, s.values), q,
            CodeTerm(e.first, s.values), CodeMoreTerms(e.more, s.values), s.stack);
  }

  lemma {:induction false} MoreTermsCompile(ts: seq<Token>, s: State, p: nat, q: nat, base: seq<Value>,
                                            acc: Value, m: MoreTerms)
    requires s.Valid(ts) && s.pos == p && s.stack == base + [acc]
    requires At(ts, p, SpellMoreTerms(m)) && q == p + |SpellMoreTerms(m)| && EndsExpression(ts, q)
    ensures Yields(s, ParseMoreTerms(ts, s), EvalMoreTerms(acc, m, s.values), q, CodeMoreTerms(m, s.values), base)
    decreases m, 3
  {
    if m.NoTerms? {
      NoTermsCompile(ts, s, p, q, base, acc, m);
    } else {
      MoreTermAt(ts, s, p, q, base, acc, m);
    }
  }

  lemma {:induction false} NoTermsCompile(ts: seq<Token>, s: State, p: nat, q: nat, base: seq<Value>, acc: Value,
                                          m: MoreTerms)
    requires m.NoTerms?
    requires s.Valid(ts) && s.pos == p && s.stack == base + [acc]
    requires q == p + |SpellMoreTerms(m)| && EndsExpression(ts, q)
    ensures Yields(s, ParseMoreTerms(ts, s), EvalMoreTerms(acc, m, s.values), q, CodeMoreTerms(m, s.values), base)
  {
    assert s.code + [] == s.code;
  }

  lemma {:induction false} MoreTermAt(ts: seq<Token>, s: State, p: nat, q: nat, base: seq<Value>, acc: Value,
                                      m: MoreTerms)
    requires m.MoreTerm?
    requires s.Valid(ts) && s.pos == p && s.stack == base + [acc]
    requires At(ts, p, SpellMoreTerms(m)) && q == p + |SpellMoreTerms(m)| && EndsExpression(ts, q)
    ensures Yields(s, ParseMoreTerms(ts, s), EvalMoreTerms(acc, m, s.values), q, CodeMoreTerms(m, s.values), base)
    decreases m, 2
  {
    OperatorAt(ts, p, OpKind(m.op), SpellTerm(m.term), SpellMoreTerms(m.rest));
    MoreTermCompiles(ts, s, p, q, base, acc, m.op, m.term, m.rest);
  }

  lemma {:induction false} MoreTermCompiles(ts: seq<Token>, s: State, p: nat, q: nat, base: seq<Value>,
                                            acc: Value, op: AddOp, t: Term, more: MoreTerms)
    requires s.Valid(ts) && s.pos == p && s.stack == base + [acc]
    requires p < |ts| && ts[p] == Word(OpKind(op))
    requires At(ts, p + 1, SpellTerm(t)) && At(ts, p + 1 + |SpellTerm(t)|, SpellMoreTerms(more))
    requires q == p + 1 + |SpellTerm(t)| + |SpellMoreTerms(more)| && EndsExpression(ts, q)
    ensures Yields(s, ParseMoreTerms(ts, s), EvalMoreTerms(acc, MoreTerm(op, t, more), s.values), q,
                   CodeTerm(t, s.values) + [Arithmetic(op)] + CodeMoreTerms(more, s.values), base)
    decreases MoreTerm(op, t, more), 1
  {
    var k := OpKind(op);
    assert AddOpOf(k) == op;
    var s0 := MatchToken(ts, s, k);
    assert s0.pos == p + 1;
    var m := p + 1 + |SpellTerm(t)|;
    TermEnds(ts, m, q, more);
    TermCompiles(ts, s0, p + 1, m, t);
    match EvalTerm(t, s.values)
    case Failure(f) =>
    case Success(v) =>
      var s1 := ParseTerm(ts, s0).st;
      MoreTermTail(ts, s, s1, m, q, base, acc, op, t, more, v);
  }

  /** The rest of a `+ term more-terms` step, once the term has been parsed into `s1`. */
  lemma {:induction false} MoreTermTail(ts: seq<Token>, s: State, s1: State, m: nat, q: nat, base: seq<Value>,
                                        acc: Value, op: AddOp, t: Term, more: MoreTerms, v: Value)
    requires s1.Valid(ts) && s.pos < m && s1.pos == m && s1.values == s.values && s1.diags == s.diags
    requires s.stack == base + [acc] && s1.stack == s.stack + [v] && s1.code == s.code + CodeTerm(t, s.values)
    requires At(ts, m, SpellMoreTerms(more)) && q == m + |SpellMoreTerms(more)| && EndsExpression(ts, q)
    ensures Yields(s, MoreTermsRest(ts, s, s1, op), (var r :- Apply(op, acc, v); EvalMoreTerms(r, more, s.values)),
                   q, CodeTerm(t, s.values) + [Arithmetic(op)] + CodeMoreTerms(more, s.values), base)
    decreases MoreTerm(op, t, more), 0
  {
    var s2 := Emit(s1, Arithmetic(op));
    ApplyTopOnTwo(s2, base, acc, v, op);
    if Apply(op, acc, v).Success? {
      var w := Apply(op, acc, v).value;
      var s3 := ApplyTop(s2, op).st;
      MoreTermsCompile(ts, s3, m, q, base, w, more);
      Assoc(s.code, CodeTerm(t, s.values), [Arithmetic(op)]);
      Compose(s, s3, ParseMoreTerms(ts, s3), EvalMoreTerms(w, more, s.values), q,
              CodeTerm(t, s.values) + [Arithmetic(op)], CodeMoreTerms(more, s.values), base);
    }
  }

  lemma {:induction false} TermCompiles(ts: seq<Token>, s: State, p: nat, q: nat, t: Term)
    requires s.Valid(ts) && s.pos == p
    requires At(ts, p, SpellTerm(t)) && q == p + |SpellTerm(t)| && EndsTerm(ts, q)
    ensures Yields(s, ParseTerm(ts, s), EvalTerm(t, s.values), q, CodeTerm(t, s.values), s.stack)
    decreases t, 2
  {
    var m := p + |SpellFactor(t.first)|;
    TermAt(ts, p, t);
    FactorCompiles(ts, s, p, m, t.first);
    if EvalFactor(t.first, s.values).Success? {
      TermRest(ts, s, ParseFactor(ts, s).st, m, q, t, EvalFactor(t.first, s.values).value);
    }
  }

  /** The `more-factors` of a term, once its first factor has been parsed into `s1`. */
  lemma {:induction false} TermRest(ts: seq<Token>, s: State, s1: State, m: nat, q: nat, t: Term, v: Value)
    requires s1.Valid(ts) && s1.pos == m && s1.values == s.values && s1.diags == s.diags
    requires EvalFactor(t.first, s.values) == Success(v)
    requires s1.stack == s.stack + [v] && s1.code == s.code + CodeFactor(t.first, s.values)
    requires At(ts, m, SpellMoreFactors(t.more)) && q == m + |SpellMoreFactors(t.more)| && EndsTerm(ts, q)
    ensures Yields(s, ParseMoreFactors(ts, s1), EvalMoreFactors(v, t.more, s.values), q, CodeTerm(t, s.values), s.stack)
    decreases t, 0
  {
    MoreFactorsCompile(ts, s1, m, q, s.stack, v, t.more);
    Compose(s, s1, ParseMoreFactors(ts, s1), EvalMoreFactors(v, t.more, s.values), q,
            CodeFactor(t.first, s.values), CodeMoreFactors(v, t.more, s.values), s.stack);
  }

  lemma {:induction false} MoreFactorsCompile(ts: seq<Token>, s: State, p: nat, q: nat, base: seq<Value>,
                                              acc: Value, m: MoreFactors)
    requires s.Valid(ts) && s.pos == p && s.stack == base + [acc]
    requires At(ts, p, SpellMoreFactors(m)) && q == p + |SpellMoreFactors(m)| && EndsTerm(ts, q)
    ensures Yields(s, ParseMoreFactors(ts, s), EvalMoreFactors(acc, m, s.values), q,
                   CodeMoreFactors(acc, m, s.values), base)
    decreases m, 3
  {
    if m.NoFactors? {
      NoFactorsCompile(ts, s, p, q, base, acc, m);
    } else {
      MoreFactorAt(ts, s, p, q, base, acc, m);
    }
  }

  lemma {:induction false} NoFactorsCompile(ts: seq<Token>, s: State, p: nat, q: nat, base: seq<Value>, acc: Value,
                                            m: MoreFactors)
    requires m.NoFactors?
    requires s.Valid(ts) && s.pos == p && s.stack == base + [acc]
    requires q == p + |SpellMoreFactors(m)| && EndsTerm(ts, q)
    ensures Yields(s, ParseMoreFactors(ts, s), EvalMoreFactors(acc, m, s.values), q,
                   CodeMoreFactors(acc, m, s.values), base)
  {
    assert s.code + [] == s.code;
  }

  lemma {:induction false} MoreFactorAt(ts: seq<Token>, s: State, p: nat, q: nat, base: seq<Value>, acc: Value,
                                        m: MoreFactors)
    requires m.MoreFactor?
    requires s.Valid(ts) && s.pos == p && s.stack == base + [acc]
    requires At(ts, p, SpellMoreFactors(m)) && q == p + |SpellMoreFactors(m)| && EndsTerm(ts, q)
    ensures Yields(s, ParseMoreFactors(ts, s), EvalMoreFactors(acc, m, s.values), q,
                   CodeMoreFactors(acc, m, s.values), base)
    decreases m, 2
  {
    OperatorAt(ts, p, OpKind(m.op), SpellFactor(m.factor), SpellMoreFactors(m.rest));
    MoreFactorCompiles(ts, s, p, q, base, acc, m.op, m.factor, m.rest);
  }

  lemma {:induction false} MoreFactorCompiles(ts: seq<Token>, s: State, p: nat, q: nat, base: seq<Value>,
                                              acc: Value, op: MulOp, f: Factor, more: MoreFactors)
    requires s.Valid(ts) && s.pos == p && s.stack == base + [acc]
    requires p < |ts| && ts[p] == Word(OpKind(op))
    requires At(ts, p + 1, SpellFactor(f)) && At(ts, p + 1 + |SpellFactor(f)|, SpellMoreFactors(more))
    requires q == p + 1 + |SpellFactor(f)| + |SpellMoreFactors(more)| && EndsTerm(ts, q)
    ensures Yields(s, ParseMoreFactors(ts, s), EvalMoreFactors(acc, MoreFactor(op, f, more), s.values), q,
                   CodeMoreFactors(acc, MoreFactor(op, f, more), s.values), base)
    decreases MoreFactor(op, f, more), 1
  {
    var k := OpKind(op);
    assert MulOpOf(k) == op;
    var s0 := MatchToken(ts, s, k);
    assert s0.pos == p + 1;
    var m := p + 1 + |SpellFactor(f)|;
    FactorCompiles(ts, s0, p + 1, m, f);
    match EvalFactor(f, s.values)
    case Failure(x) =>
    case Success(v) =>
      var s1 := ParseFactor(ts, s0).st;
      MoreFactorTail(ts, s, s1, m, q, base, acc, op, f, more, v);
  }

  /** The rest of a `* factor more-factors` step, once the factor has been parsed into `s1`. */
  lemma {:induction false} MoreFactorTail(ts: seq<Token>, s: State, s1: State, m: nat, q: nat, base: seq<Value>,
                                          acc: Value, op: MulOp, f: Factor, more: MoreFactors, v: Value)
    requires s1.Valid(ts) && s.pos < m && s1.pos == m && s1.values == s.values && s1.diags == s.diags
    requires EvalFactor(f, s.values) == Success(v)
    requires s.stack == base + [acc] && s1.stack == s.stack + [v] && s1.code == s.code + CodeFactor(f, s.values)
    requires At(ts, m, SpellMoreFactors(more)) && q == m + |SpellMoreFactors(more)| && EndsTerm(ts, q)
    ensures Yields(s, MoreFactorsRest(ts, s, s1, op),
                   (var r :- Apply(op, acc, v); EvalMoreFactors(r, more, s.values)),
                   q, CodeMoreFactors(acc, MoreFactor(op, f, more), s.values), base)
    decreases MoreFactor(op, f, more), 0
  {
    var s2 := Emit(s1, Arithmetic(op));
    ApplyTopOnTwo(s2, base, acc, v, op);
    if Apply(op, acc, v).Success? {
      var w := Apply(op, acc, v).value;
      var s3 := ApplyTop(s2, op).st;
      var s4 := if op == Mod then Emit(s3, PushInt(w.i)) else s3;
      assert MoreFactorsRest(ts, s, s1, op) == ParseMoreFactors(ts, s4);
      MoreFactorEcho(ts, s, s4, m, q, base, acc, op, f, more, v, w);
    }
  }

  /** The code so far, with the `push` that follows a `%`, and the factors after it. */
  lemma {:induction false} MoreFactorEcho(ts: seq<Token>, s: State, s4: State, m: nat, q: nat, base: seq<Value>,
                                          acc: Value, op: MulOp, f: Factor, more: MoreFactors, v: Value, w: Value)
    requires s4.Valid(ts) && s4.pos == m && s4.values == s.values && s4.diags == s.diags
    requires EvalFactor(f, s.values) == Success(v) && Apply(op, acc, v) == Success(w)
    requires s4.stack == base + [w]
    requires s4.code == s.code + CodeFactor(f, s.values) + [Arithmetic(op)] + (if op == Mod then [PushInt(w.i)] else [])
    requires At(ts, m, SpellMoreFactors(more)) && q == m + |SpellMoreFactors(more)| && EndsTerm(ts, q)
    ensures Yields(s, ParseMoreFactors(ts, s4), EvalMoreFactors(w, more, s.values),
                   q, CodeMoreFactors(acc, MoreFactor(op, f, more), s.values), base)
    decreases more, 4
  {
    var head := CodeFactor(f, s.values) + [Arithmetic(op)] + (if op == Mod then [PushInt(w.i)] else []);
    CodeMoreFactorStep(acc, op, f, more, s.values, v, w);
    MoreFactorsCompile(ts, s4, m, q, base, w, more);
    Compose(s, s4, ParseMoreFactors(ts, s4), EvalMoreFactors(w, more, s.values), q,
            head, CodeMoreFactors(w, more, s.values), base);
  }

  /** The code of `op f more` after `acc`, when `f` evaluates to `v` and the step to `w`. */
  lemma {:induction false} CodeMoreFactorStep(acc: Value, op: MulOp, f: Factor, more: MoreFactors,
                                              env: map<string, Value>, v: Value, w: Value)
    requires EvalFactor(f, env) == Success(v) && Apply(op, acc, v) == Success(w)
    ensures CodeMoreFactors(acc, MoreFactor(op, f, more), env) ==
              CodeFactor(f, env) + [Arithmetic(op)] + (if op == Mod then [PushInt(w.i)] else []) +
              CodeMoreFactors(w, more, env)
  {
    var echo: seq<Instr> := if op == Mod then [PushInt(w.i)] else [];
    assert CodeMoreFactors(acc, MoreFactor(op, f, more), env) ==
             CodeFactor(f, env) + [Arithmetic(op)] + (echo + CodeMoreFactors(w, more, env));
  }

  lemma {:induction false} FactorCompiles(ts: seq<Token>, s: State, p: nat, q: nat, f: Factor)
    requires s.Valid(ts) && s.pos == p
    requires At(ts, p, SpellFactor(f)) && q == p + |SpellFactor(f)| && q < |ts|
    ensures Yields(s, ParseFactor(ts, s), EvalFactor(f, s.values), q, CodeFactor(f, s.values), s.stack)
    decreases f, 1
  {
    if f.Paren? {
      ParenCompiles(ts, s, p, q, f);
    } else {
      LeafCompiles(ts, s, p, q, f);
    }
  }

  /** A variable, an integer or a real literal. */
  lemma {:induction false} LeafCompiles(ts: seq<Token>, s: State, p: nat, q: nat, f: Factor)
    requires !f.Paren?
    requires s.Valid(ts) && s.pos == p
    requires At(ts, p, SpellFactor(f)) && q == p + |SpellFactor(f)| && q < |ts|
    ensures Yields(s, ParseFactor(ts, s), EvalFactor(f, s.values), q, CodeFactor(f, s.values), s.stack)
  {
    AtHead(ts, p, SpellFactor(f));
  }

  lemma {:induction false} ParenCompiles(ts: seq<Token>, s: State, p: nat, q: nat, f: Factor)
    requires f.Paren?
    requires s.Valid(ts) && s.pos == p
    requires At(ts, p, SpellFactor(f)) && q == p + |SpellFactor(f)| && q < |ts|
    ensures Yields(s, ParseFactor(ts, s), EvalFactor(f, s.values), q, CodeFactor(f, s.values), s.stack)
    decreases f, 0
  {
    var e := f.inner;
    OperatorAt(ts, p, OpenParenthesis, SpellExpr(e), [Word(ClosedParenthesis)]);
    var s0 := MatchToken(ts, s, OpenParenthesis);
    assert s0.pos == p + 1;
    var m := p + 1 + |SpellExpr(e)|;
    AtHead(ts, m, [Word(ClosedParenthesis)]);
    ExpressionCompiles(ts, s0, p + 1, m, e);
  }

  // Expressions in the places the statements use them.

  /** What may follow a relational expression without extending it: no arithmetic or relational operator. */
  predicate EndsRelational(ts: seq<Token>, q: nat) {
    EndsExpression(ts, q) && !IsRelKind(ts[q].Name())
  }

  /** What may follow a condition without extending it: no operator of any level. */
  predicate EndsCondition(ts: seq<Token>, q: nat) {
    EndsRelational(ts, q) && ts[q].Name() != And && ts[q].Name() != Or
  }

  /** An expression starts with `(`, an identifier or a number: never with `!`, `true` or `false`. */
  lemma {:induction false} ExpressionStart(ts: seq<Token>, p: nat, e: Expr)
    requires At(ts, p, SpellExpr(e))
    ensures p < |ts| && ts[p].Name() in {OpenParenthesis, Id, Int, Float}
  {
    ExpressionAt(ts, p, e);
    TermAt(ts, p, e.first);
    var f := e.first.first;
    if f.Paren? {
      assert SpellFactor(f)[0] == Word(OpenParenthesis);
    }
    AtHead(ts, p, SpellFactor(f));
  }

  /**
   * A condition that is a plain arithmetic expression compiles as that
   * expression: the logic layer around it adds nothing.
   */
  lemma {:induction false} ConditionCompiles(ts: seq<Token>, s: State, p: nat, q: nat, e: Expr)
    requires s.Valid(ts) && s.pos == p
    requires At(ts, p, SpellExpr(e)) && q == p + |SpellExpr(e)| && EndsCondition(ts, q)
    ensures Yields(s, ParseLogicExpression(ts, s), EvalExpr(e, s.values), q, CodeExpr(e, s.values), s.stack)
  {
    ExpressionStart(ts, p, e);
    ExpressionCompiles(ts, s, p, q, e);
    RelationalIsExpression(ts, s, q);
    assert ParseLogicFactor(ts, s) == ParseRelational(ts, s);
    LogicTermIsFactor(ts, s, q);
    LogicExpressionIsTerm(ts, s, q);
  }

  lemma {:induction false} RelationalIsExpression(ts: seq<Token>, s: State, q: nat)
    requires s.Valid(ts) && EndsRelational(ts, q)
    requires ParseExpression(ts, s).Ok? ==> ParseExpression(ts, s).st.pos == q
    ensures ParseRelational(ts, s) == ParseExpression(ts, s)
  {
  }

  lemma {:induction false} LogicTermIsFactor(ts: seq<Token>, s: State, q: nat)
    requires s.Valid(ts) && EndsCondition(ts, q)
    requires ParseLogicFactor(ts, s).Ok? ==> ParseLogicFactor(ts, s).st.pos == q
    ensures ParseLogicTerm(ts, s) == ParseLogicFactor(ts, s)
  {
  }

  lemma {:induction false} LogicExpressionIsTerm(ts: seq<Token>, s: State, q: nat)
    requires s.Valid(ts) && EndsCondition(ts, q)
    requires ParseLogicTerm(ts, s).Ok? ==> ParseLogicTerm(ts, s).st.pos == q
    ensures ParseLogicExpression(ts, s) == ParseLogicTerm(ts, s)
  {
  }

  /**
   * A logic factor that is an arithmetic expression followed by no
   * relational operator compiles as that expression.
   */
  lemma {:induction false} LogicFactorCompiles(ts: seq<Token>, s: State, p: nat, q: nat, e: Expr)
    requires s.Valid(ts) && s.pos == p
    requires At(ts, p, SpellExpr(e)) && q == p + |SpellExpr(e)| && EndsRelational(ts, q)
    ensures Yields(s, ParseLogicFactor(ts, s), EvalExpr(e, s.values), q, CodeExpr(e, s.values), s.stack)
  {
    ExpressionStart(ts, p, e);
    ExpressionCompiles(ts, s, p, q, e);
    RelationalIsExpression(ts, s, q);
    assert ParseLogicFactor(ts, s) == ParseRelational(ts, s);
  }

  /**
   * `e1 || e2` and `e1 && e2` over arithmetic operands: the code of both
   * operands and nothing else -- no instruction for the operator -- and both
   * values stay on the stack; no truth value is computed.
   */
  lemma {:induction false} LogicPairCompiles(ts: seq<Token>, s: State, p: nat, e1: Expr, k: Kind, e2: Expr)
    requires k == And || k == Or
    requires s.Valid(ts) && s.pos == p
    requires At(ts, p, SpellExpr(e1) + [Word(k)] + SpellExpr(e2))
    requires EndsCondition(ts, p + |SpellExpr(e1)| + 1 + |SpellExpr(e2)|)
    ensures EvalExpr(e1, s.values).Failure? ==>
              ParseLogicExpression(ts, s).Thrown? && ParseLogicExpression(ts, s).fault == EvalExpr(e1, s.values).fault
    ensures EvalExpr(e1, s.values).Success? && EvalExpr(e2, s.values).Failure? ==>
              ParseLogicExpression(ts, s).Thrown? && ParseLogicExpression(ts, s).fault == EvalExpr(e2, s.values).fault
    ensures EvalExpr(e1, s.values).Success? && EvalExpr(e2, s.values).Success? ==>
              ParseLogicExpression(ts, s) ==
                Ok(s.(pos := p + |SpellExpr(e1)| + 1 + |SpellExpr(e2)|,
                      stack := s.stack + [EvalExpr(e1, s.values).value, EvalExpr(e2, s.values).value],
                      code := s.code + CodeExpr(e1, s.values) + CodeExpr(e2, s.values)))
  {
    var m := p + |SpellExpr(e1)|;
    var q := m + 1 + |SpellExpr(e2)|;
    OperandsAt(ts, p, e1, k, e2);
    LogicFactorCompiles(ts, s, p, m, e1);
    if EvalExpr(e1, s.values).Success? {
      var s1 := ParseLogicFactor(ts, s).st;
      if k == Or {
        OrPair(ts, s, s1, m, q, e1, e2);
      } else {
        AndOperand(ts, s, s1, m, q, e1, e2);
        LogicExpressionIsTerm(ts, s, q);
      }
    } else {
      FirstFactorThrows(ts, s);
    }
  }

  /** A logic factor that throws ends the whole logic expression. */
  lemma {:induction false} FirstFactorThrows(ts: seq<Token>, s: State)
    requires s.Valid(ts) && ParseLogicFactor(ts, s).Thrown?
    ensures ParseLogicExpression(ts, s) == ParseLogicFactor(ts, s)
  {
  }

  /** `e1 || e2`: the first term is `e1` alone, then `|| e2` follows. */
  lemma {:induction false} OrPair(ts: seq<Token>, s: State, s1: State, m: nat, q: nat, e1: Expr, e2: Expr)
    requires s.Valid(ts) && EvalExpr(e1, s.values).Success?
    requires Yields(s, ParseLogicFactor(ts, s), EvalExpr(e1, s.values), m, CodeExpr(e1, s.values), s.stack)
    requires s1 == ParseLogicFactor(ts, s).st && Quiet(s, s1)
    requires m < |ts| && ts[m] == Word(Or) && At(ts, m + 1, SpellExpr(e2))
    requires q == m + 1 + |SpellExpr(e2)| && EndsCondition(ts, q)
    ensures EvalExpr(e2, s.values).Failure? ==>
              ParseLogicExpression(ts, s).Thrown? && ParseLogicExpression(ts, s).fault == EvalExpr(e2, s.values).fault
    ensures EvalExpr(e2, s.values).Success? ==>
              ParseLogicExpression(ts, s) ==
                Ok(s.(pos := q,
                      stack := s.stack + [EvalExpr(e1, s.values).value, EvalExpr(e2, s.values).value],
                      code := s.code + CodeExpr(e1, s.values) + CodeExpr(e2, s.values)))
  {
    assert ParseLogicTerm(ts, s) == Ok(s1);
    OrOperand(ts, s, s1, m, q, e1, e2);
  }

  /** After `e1`: `|| e2` and the end of the condition. */
  lemma {:induction false} OrOperand(ts: seq<Token>, s: State, s1: State, m: nat, q: nat, e1: Expr, e2: Expr)
    requires s.Valid(ts) && EvalExpr(e1, s.values).Success?
    requires Yields(s, ParseLogicFactor(ts, s), EvalExpr(e1, s.values), m, CodeExpr(e1, s.values), s.stack)
    requires s1 == ParseLogicFactor(ts, s).st && Quiet(s, s1)
    requires m < |ts| && ts[m] == Word(Or) && At(ts, m + 1, SpellExpr(e2))
    requires q == m + 1 + |SpellExpr(e2)| && EndsCondition(ts, q)
    ensures EvalExpr(e2, s.values).Failure? ==>
              ParseMoreLogicTerms(ts, s1).Thrown? && ParseMoreLogicTerms(ts, s1).fault == EvalExpr(e2, s.values).fault
    ensures EvalExpr(e2, s.values).Success? ==>
              ParseMoreLogicTerms(ts, s1) ==
                Ok(s.(pos := q,
                      stack := s.stack + [EvalExpr(e1, s.values).value, EvalExpr(e2, s.values).value],
                      code := s.code + CodeExpr(e1, s.values) + CodeExpr(e2, s.values)))
  {
    NotLast(ts, s1);
    var s2 := MatchToken(ts, s1, Or);
    assert s2 == s1.(pos := m + 1);
    LogicFactorCompiles(ts, s2, m + 1, q, e2);
    LogicTermIsFactor(ts, s2, q);
    if EvalExpr(e2, s.values).Success? {
      var s3 := ParseLogicTerm(ts, s2).st;
      assert ParseMoreLogicTerms(ts, s3) == Ok(s3);
      assert s3.stack == s.stack + [EvalExpr(e1, s.values).value, EvalExpr(e2, s.values).value];
      assert s3.code == s.code + CodeExpr(e1, s.values) + CodeExpr(e2, s.values);
      assert s3.diags == s.diags && s3.pos == q;
      assert s3.table == s.table && s3.values == s.values && s3.nextLabel == s.nextLabel;
    }
  }

  /** After `e1`: `&& e2` and the end of the condition. */
  lemma {:induction false} AndOperand(ts: seq<Token>, s: State, s1: State, m: nat, q: nat, e1: Expr, e2: Expr)
    requires s.Valid(ts) && EvalExpr(e1, s.values).Success?
    requires Yields(s, ParseLogicFactor(ts, s), EvalExpr(e1, s.values), m, CodeExpr(e1, s.values), s.stack)
    requires s1 == ParseLogicFactor(ts, s).st && Quiet(s, s1)
    requires m < |ts| && ts[m] == Word(And) && At(ts, m + 1, SpellExpr(e2))
    requires q == m + 1 + |SpellExpr(e2)| && EndsCondition(ts, q)
    ensures EvalExpr(e2, s.values).Failure? ==>
              ParseLogicTerm(ts, s).Thrown? && ParseLogicTerm(ts, s).fault == EvalExpr(e2, s.values).fault
    ensures EvalExpr(e2, s.values).Success? ==>
              ParseLogicTerm(ts, s) ==
                Ok(s.(pos := q,
                      stack := s.stack + [EvalExpr(e1, s.values).value, EvalExpr(e2, s.values).value],
                      code := s.code + CodeExpr(e1, s.values) + CodeExpr(e2, s.values)))
  {
    NotLast(ts, s1);
    var s2 := MatchToken(ts, s1, And);
    assert s2 == s1.(pos := m + 1);
    LogicFactorCompiles(ts, s2, m + 1, q, e2);
    if EvalExpr(e2, s.values).Success? {
      var s3 := ParseLogicFactor(ts, s2).st;
      assert ParseMoreLogicFactors(ts, s3) == Ok(s3);
      assert s3.stack == s.stack + [EvalExpr(e1, s.values).value, EvalExpr(e2, s.values).value];
      assert s3.code == s.code + CodeExpr(e1, s.values) + CodeExpr(e2, s.values);
      assert s3.diags == s.diags && s3.pos == q;
      assert s3.table == s.table && s3.values == s.values && s3.nextLabel == s.nextLabel;
    }
  }

  /**
   * A run of `n` negations before a logic factor leaves no trace: the
   * factor compiles as if they were not there.
   */
  lemma {:induction false} NegationsIgnored(ts: seq<Token>, s: State, n: nat)
    requires s.Valid(ts) && s.pos + n < |ts|
    requires forall i | s.pos <= i < s.pos + n :: ts[i] == Word(Not)
    ensures ParseLogicFactor(ts, s) == ParseLogicFactor(ts, s.(pos := s.pos + n))
    decreases n
  {
    if n > 0 {
      assert s.Current(ts).Name() == Not;
      NotLast(ts, s);
      var s1 := s.(pos := s.pos + 1);
      assert MatchToken(ts, s, Not) == s1;
      NegationsIgnored(ts, s1, n - 1);
    } else {
      assert s.(pos := s.pos + n) == s;
    }
  }

  /** `x = e ;` */
  function SpellAssignment(x: string, e: Expr): seq<Token> {
    [Identifier(x), Word(Assignment)] + SpellExpr(e) + [Word(Semicolon)]
  }

  lemma {:induction false} AssignmentAt(ts: seq<Token>, p: nat, x: string, e: Expr)
    requires At(ts, p, SpellAssignment(x, e))
    ensures p + 2 < |ts| && ts[p] == Identifier(x) && ts[p + 1] == Word(Assignment)
    ensures At(ts, p + 2, SpellExpr(e))
    ensures p + 2 + |SpellExpr(e)| < |ts| && ts[p + 2 + |SpellExpr(e)|] == Word(Semicolon)
  {
    var w := SpellAssignment(x, e);
    AtAppend(ts, p, [Identifier(x), Word(Assignment)] + SpellExpr(e), [Word(Semicolon)]);
    AtAppend(ts, p, [Identifier(x), Word(Assignment)], SpellExpr(e));
    assert Tok(ts, p, 0) == w[0];
    assert Tok(ts, p, 1) == w[1];
    AtHead(ts, p + 2 + |SpellExpr(e)|, [Word(Semicolon)]);
  }

  /**
   * What an assignment of `value` to `x` leaves, with `code` the code up to
   * and including its `=`: an exception if `value` is one, or, when the
   * value is `cast` to `int`, if it is not an `int`; otherwise the value stored when `x` is declared (and a "not declared"
   * message when it is not), the stack as before, the position `q`.
   */
  predicate Assigns(s: State, r: Outcome<State>, x: string, value: Result<Value>, code: seq<Instr>, q: nat, cast: bool) {
    && (value.Failure? ==> r.Thrown? && r.fault == value.fault)
    && (value.Success? && value.value.RealV? && cast ==> r.Thrown? && r.fault == ClassCast)
    && (value.Success? && (value.value.IntV? || !cast) ==>
          && r.Ok?
          && r.st == s.(pos := q,
                        values := if x in s.table then s.values[x := value.value] else s.values,
                        code := code,
                        diags := if x in s.table then s.diags else s.diags + [NotDeclared(x)]))
  }

  /**
   * The assignment instruction `x = e ;`: `lvalue x`, the code of `e` and
   * `=` are written, and the value of `e` must be an `int`; it is stored
   * when `x` is declared, and otherwise a "not declared" message is added.
   */
  lemma {:induction false} AssignmentCompiles(ts: seq<Token>, s: State, p: nat, x: string, e: Expr)
    requires s.Valid(ts) && s.pos == p && At(ts, p, SpellAssignment(x, e))
    ensures Assigns(s, ParseInstruction(ts, s), x, EvalExpr(e, s.values),
                    s.code + [Lvalue(x)] + CodeExpr(e, s.values) + [Assign], p + |SpellAssignment(x, e)|, true)
  {
    AssignmentAt(ts, p, x, e);
    assert ParseInstruction(ts, s) == ParseAssignment(ts, s);
    AssignmentParses(ts, s, p, x, e);
  }

  lemma {:induction false} AssignmentParses(ts: seq<Token>, s: State, p: nat, x: string, e: Expr)
    requires s.Valid(ts) && s.pos == p && ts[p] == Identifier(x) && ts[p + 1] == Word(Assignment)
    requires At(ts, p + 2, SpellExpr(e))
    requires p + 2 + |SpellExpr(e)| < |ts| && ts[p + 2 + |SpellExpr(e)|] == Word(Semicolon)
    ensures Assigns(s, ParseAssignment(ts, s), x, EvalExpr(e, s.values),
                    s.code + [Lvalue(x)] + CodeExpr(e, s.values) + [Assign], p + 3 + |SpellExpr(e)|, true)
  {
    var q := p + 2 + |SpellExpr(e)|;
    var s1 := MatchToken(ts, Emit(MatchToken(ts, s, Id), Lvalue(x)), Assignment);
    assert s1 == s.(pos := p + 2, code := s.code + [Lvalue(x)]);
    assert ts[q].Name() == Semicolon;
    ConditionCompiles(ts, s1, p + 2, q, e);
    var v := EvalExpr(e, s.values);
    if v.Success? {
      var s2 := ParseLogicExpression(ts, s1).st;
      AssignmentTail(ts, s, s2, q, x, s.code + [Lvalue(x)] + CodeExpr(e, s.values), v.value);
    }
  }

  lemma {:induction false} AssignmentTail(ts: seq<Token>, s: State, s2: State, q: nat, x: string, code: seq<Instr>, v: Value)
    requires s2.Valid(ts) && s2.pos == q && q > s.pos && Follows(ts, s, s2) && q < |ts| && ts[q] == Word(Semicolon)
    requires s2.stack == s.stack + [v] && s2.code == code && s2.diags == s.diags
    requires s2.table == s.table && s2.values == s.values && s2.nextLabel == s.nextLabel
    ensures Assigns(s, AssignmentEnd(ts, s, s2, x), x, Success(v), code + [Assign], q + 1, true)
  {
    assert s2.stack[..|s2.stack| - 1] == s.stack;
    assert Terminated(ts) && ts[q].Name() != EndProgram;
  }

  /**
   * An initializer `= e` in a declaration: `lvalue x`, the code of `e` and
   * `=` are written, and the value of `e` is stored as it is -- a real
   * value too, since here it is not cast.
   */
  lemma {:induction false} InitializerCompiles(ts: seq<Token>, s: State, p: nat, x: string, e: Expr)
    requires s.Valid(ts) && s.pos == p && ts[p] == Word(Assignment)
    requires At(ts, p + 1, SpellExpr(e)) && EndsCondition(ts, p + 1 + |SpellExpr(e)|)
    ensures Assigns(s, ParseOptionalAssignment(ts, s, x), x, EvalExpr(e, s.values),
                    s.code + [Lvalue(x)] + CodeExpr(e, s.values) + [Assign], p + 1 + |SpellExpr(e)|, false)
  {
    var q := p + 1 + |SpellExpr(e)|;
    var s1 := MatchToken(ts, Emit(s, Lvalue(x)), Assignment);
    assert s1 == s.(pos := p + 1, code := s.code + [Lvalue(x)]);
    ConditionCompiles(ts, s1, p + 1, q, e);
    var v := EvalExpr(e, s.values);
    if v.Success? {
      var s2 := ParseLogicExpression(ts, s1).st;
      assert s2.stack[..|s2.stack| - 1] == s.stack;
    }
  }

  /** `print ( x ) ;` */
  function SpellPrint(x: string): seq<Token> {
    [Word(Print), Word(OpenParenthesis), Identifier(x), Word(ClosedParenthesis), Word(Semicolon)]
  }

  /**
   * The print instruction `print ( x ) ;` writes `print x` and nothing
   * else; `x` need not be declared, and no value, stack entry or message
   * changes.
   */
  lemma {:induction false} PrintCompiles(ts: seq<Token>, s: State, x: string)
    requires s.Valid(ts) && At(ts, s.pos, SpellPrint(x))
    ensures ParseInstruction(ts, s) == Ok(s.(pos := s.pos + 5, code := s.code + [PrintId(x)]))
  {
    var p := s.pos;
    assert Tok(ts, p, 0) == Word(Print) && Tok(ts, p, 1) == Word(OpenParenthesis);
    assert Tok(ts, p, 2) == Identifier(x) && Tok(ts, p, 3) == Word(ClosedParenthesis);
    assert Tok(ts, p, 4) == Word(Semicolon);
    assert ParseInstruction(ts, s) == ParsePrint(ts, s);
  }

  /**
   * `print ( t` with `t` not an identifier: the unchecked cast of `t` to an
   * identifier throws, with nothing written and the position on `t`.
   */
  lemma {:induction false} PrintCastFails(ts: seq<Token>, s: State)
    requires s.Valid(ts) && s.pos + 2 < |ts|
    requires ts[s.pos] == Word(Print) && ts[s.pos + 1] == Word(OpenParenthesis) && !ts[s.pos + 2].Identifier?
    ensures ParseInstruction(ts, s) == Thrown(ClassCast, s.(pos := s.pos + 2))
  {
    assert ParseInstruction(ts, s) == ParsePrint(ts, s);
  }

  /** The text a comparison operator is written as. */
  function ComparisonText(k: Kind): string {
    if k == LessThan then "<" else if k == LessEquals then "<=" else if k == GreaterThan then ">" else ">="
  }

  /**
   * A comparison `e1 op e2` with `op` one of `<`, `<=`, `>`, `>=`: the code
   * of both operands, then the operator; both values stay on the stack and
   * no truth value is computed.
   */
  lemma {:induction false} ComparisonCompiles(ts: seq<Token>, s: State, p: nat, e1: Expr, k: Kind, e2: Expr)
    requires k in {LessThan, LessEquals, GreaterThan, GreaterEquals}
    requires s.Valid(ts) && s.pos == p
    requires At(ts, p, SpellExpr(e1) + [Word(k)] + SpellExpr(e2))
    requires EndsCondition(ts, p + |SpellExpr(e1)| + 1 + |SpellExpr(e2)|)
    ensures EvalExpr(e1, s.values).Failure? ==>
              ParseLogicExpression(ts, s).Thrown? && ParseLogicExpression(ts, s).fault == EvalExpr(e1, s.values).fault
    ensures EvalExpr(e1, s.values).Success? && EvalExpr(e2, s.values).Failure? ==>
              ParseLogicExpression(ts, s).Thrown? && ParseLogicExpression(ts, s).fault == EvalExpr(e2, s.values).fault
    ensures EvalExpr(e1, s.values).Success? && EvalExpr(e2, s.values).Success? ==>
              ParseLogicExpression(ts, s) ==
                Ok(s.(pos := p + |SpellExpr(e1)| + 1 + |SpellExpr(e2)|,
                      stack := s.stack + [EvalExpr(e1, s.values).value, EvalExpr(e2, s.values).value],
                      code := s.code + CodeExpr(e1, s.values) + CodeExpr(e2, s.values) + [Relation(ComparisonText(k))]))
  {
    var m := p + |SpellExpr(e1)|;
    var q := m + 1 + |SpellExpr(e2)|;
    OperandsAt(ts, p, e1, k, e2);
    ExpressionStart(ts, p, e1);
    ExpressionCompiles(ts, s, p, m, e1);
    if EvalExpr(e1, s.values).Success? {
      var s1 := ParseExpression(ts, s).st;
      SecondOperand(ts, s, s1, m, e1, k, e2);
    }
    assert ParseLogicFactor(ts, s) == ParseRelational(ts, s);
    LogicTermIsFactor(ts, s, q);
    LogicExpressionIsTerm(ts, s, q);
  }

  lemma {:induction false} OperandsAt(ts: seq<Token>, p: nat, e1: Expr, k: Kind, e2: Expr)
    requires At(ts, p, SpellExpr(e1) + [Word(k)] + SpellExpr(e2))
    ensures At(ts, p, SpellExpr(e1)) && At(ts, p + |SpellExpr(e1)| + 1, SpellExpr(e2))
    ensures p + |SpellExpr(e1)| < |ts| && ts[p + |SpellExpr(e1)|] == Word(k)
  {
    AtAppend(ts, p, SpellExpr(e1) + [Word(k)], SpellExpr(e2));
    AtAppend(ts, p, SpellExpr(e1), [Word(k)]);
    AtHead(ts, p + |SpellExpr(e1)|, [Word(k)]);
  }

  /** After the first operand: the operator and the second operand. */
  lemma {:induction false} SecondOperand(ts: seq<Token>, s: State, s1: State, m: nat, e1: Expr, k: Kind, e2: Expr)
    requires k in {LessThan, LessEquals, GreaterThan, GreaterEquals}
    requires s.Valid(ts) && EvalExpr(e1, s.values).Success?
    requires Yields(s, ParseExpression(ts, s), EvalExpr(e1, s.values), m, CodeExpr(e1, s.values), s.stack)
    requires s1 == ParseExpression(ts, s).st && Quiet(s, s1)
    requires m < |ts| && ts[m] == Word(k) && At(ts, m + 1, SpellExpr(e2)) && EndsCondition(ts, m + 1 + |SpellExpr(e2)|)
    ensures EvalExpr(e2, s.values).Failure? ==>
              ParseRelational(ts, s).Thrown? && ParseRelational(ts, s).fault == EvalExpr(e2, s.values).fault
    ensures EvalExpr(e2, s.values).Success? ==>
              ParseRelational(ts, s) ==
                Ok(s.(pos := m + 1 + |SpellExpr(e2)|,
                      stack := s.stack + [EvalExpr(e1, s.values).value, EvalExpr(e2, s.values).value],
                      code := s.code + CodeExpr(e1, s.values) + CodeExpr(e2, s.values) + [Relation(ComparisonText(k))]))
  {
    var (text, s2) := ParseRelationalOperator(ts, s1);
    assert text == ComparisonText(k) && s2 == s1.(pos := m + 1);
    ExpressionCompiles(ts, s2, m + 1, m + 1 + |SpellExpr(e2)|, e2);
    if EvalExpr(e2, s.values).Success? {
      var v1 := EvalExpr(e1, s.values).value;
      var v2 := EvalExpr(e2, s.values).value;
      var s3 := ParseExpression(ts, s2).st;
      assert s3.stack == s.stack + [v1, v2];
      assert s3.table == s.table && s3.values == s.values && s3.nextLabel == s.nextLabel;
    }
  }

  /**
   * `e1 == ...` or `e1 != ...`: the operator is never recognised, so a
   * "relational operator expected" message is added, the operator token is
   * left in place, and an empty relation is written after `e1`'s code.
   */
  lemma {:induction false} EqualityRejected(ts: seq<Token>, s: State, p: nat, e1: Expr, k: Kind)
    requires k == Equals || k == NotEquals
    requires s.Valid(ts) && s.pos == p
    requires At(ts, p, SpellExpr(e1) + [Word(k)])
    ensures EvalExpr(e1, s.values).Success? ==>
              ParseRelational(ts, s) ==
                Ok(s.(pos := p + |SpellExpr(e1)|,
                      stack := s.stack + [EvalExpr(e1, s.values).value],
                      code := s.code + CodeExpr(e1, s.values) + [Relation("")],
                      diags := s.diags + [RelationalOperatorExpected]))
  {
    var m := p + |SpellExpr(e1)|;
    AtAppend(ts, p, SpellExpr(e1), [Word(k)]);
    AtHead(ts, m, [Word(k)]);
    ExpressionCompiles(ts, s, p, m, e1);
    if EvalExpr(e1, s.values).Success? {
      var s1 := ParseExpression(ts, s).st;
      var s2 := Complain(s1, RelationalOperatorExpected);
      assert ParseRelationalOperator(ts, s1) == ("", s2);
      assert s2.Current(ts) == Word(k);
      assert ParseFactor(ts, s2) == Ok(s2) && ParseMoreFactors(ts, s2) == Ok(s2);
      assert ParseTerm(ts, s2) == Ok(s2) && ParseMoreTerms(ts, s2) == Ok(s2);
      assert ParseExpression(ts, s2) == Ok(s2);
    }
  }

  // The layout of the control-flow instructions, for a condition that is an
  // arithmetic expression. Its value is left on the stack: nothing pops it.

  /** `k ( e )`, the head of an `if` or a `while`. */
  function SpellHead(k: Kind, e: Expr): seq<Token> {
    [Word(k), Word(OpenParenthesis)] + SpellExpr(e) + [Word(ClosedParenthesis)]
  }

  /** `r` with `tail` appended to its code when it completed normally. */
  function Then(r: Outcome<State>, tail: seq<Instr>): Outcome<State> {
    if r.Ok? then Ok(r.st.(code := r.st.code + tail)) else r
  }

  lemma {:induction false} HeadAt(ts: seq<Token>, p: nat, k: Kind, e: Expr)
    requires Terminated(ts) && At(ts, p, SpellHead(k, e))
    ensures p + 2 + |SpellExpr(e)| < |ts| - 1 && |SpellHead(k, e)| == 3 + |SpellExpr(e)|
    ensures ts[p] == Word(k) && ts[p + 1] == Word(OpenParenthesis) && At(ts, p + 2, SpellExpr(e))
    ensures ts[p + 2 + |SpellExpr(e)|] == Word(ClosedParenthesis)
  {
    var w := SpellHead(k, e);
    AtAppend(ts, p, [Word(k), Word(OpenParenthesis)] + SpellExpr(e), [Word(ClosedParenthesis)]);
    AtAppend(ts, p, [Word(k), Word(OpenParenthesis)], SpellExpr(e));
    assert Tok(ts, p, 0) == w[0];
    assert Tok(ts, p, 1) == w[1];
    AtHead(ts, p + 2 + |SpellExpr(e)|, [Word(ClosedParenthesis)]);
  }

  /**
   * `while ( e ) S` writes `label_T`, the code of `e`, `gofalse label_O`, then
   * S's code, then `goto label_T` and `label_O`, with `T` the next label and
   * `O = T + 1`; S is parsed with both labels taken.
   */
  lemma {:induction false} WhileLayout(ts: seq<Token>, s: State, p: nat, e: Expr)
    requires s.Valid(ts) && s.pos == p && At(ts, p, SpellHead(While, e))
    ensures p + |SpellHead(While, e)| < |ts|
    ensures EvalExpr(e, s.values).Failure? ==>
              ParseInstruction(ts, s).Thrown? && ParseInstruction(ts, s).fault == EvalExpr(e, s.values).fault
    ensures EvalExpr(e, s.values).Success? ==>
              var t := s.nextLabel;
              var body := s.(pos := p + |SpellHead(While, e)|,
                             stack := s.stack + [EvalExpr(e, s.values).value],
                             code := s.code + [Label(t)] + CodeExpr(e, s.values) + [GoFalseLower(t + 1)],
                             nextLabel := t + 2);
              ParseInstruction(ts, s) == Then(ParseInstruction(ts, body), [Goto(t), Label(t + 1)])
  {
    HeadAt(ts, p, While, e);
    if EvalExpr(e, s.values).Success? {
      WhileRuns(ts, s, p, e);
    } else {
      WhileThrows(ts, s, p, e);
    }
  }

  lemma {:induction false} WhileRuns(ts: seq<Token>, s: State, p: nat, e: Expr)
    requires s.Valid(ts) && s.pos == p && At(ts, p, SpellHead(While, e)) && EvalExpr(e, s.values).Success?
    requires p + |SpellHead(While, e)| < |ts|
    ensures var t := s.nextLabel;
            var body := s.(pos := p + |SpellHead(While, e)|,
                           stack := s.stack + [EvalExpr(e, s.values).value],
                           code := s.code + [Label(t)] + CodeExpr(e, s.values) + [GoFalseLower(t + 1)],
                           nextLabel := t + 2);
            ParseInstruction(ts, s) == Then(ParseInstruction(ts, body), [Goto(t), Label(t + 1)])
  {
    var s2, s3, body := WhilePieces(ts, s, p, e);
    WhileBody(ts, s, s2, s3, s.nextLabel, body);
  }

  /** Where the parser stands after `while ( e )`, and the state its body starts from. */
  lemma {:induction false} WhilePieces(ts: seq<Token>, s: State, p: nat, e: Expr) returns (s2: State, s3: State, body: State)
    requires s.Valid(ts) && s.pos == p && At(ts, p, SpellHead(While, e)) && EvalExpr(e, s.values).Success?
    requires p + |SpellHead(While, e)| < |ts|
    ensures s.Current(ts).Name() == While
    ensures s2 == Emit(MatchToken(ts, MatchToken(ts, TakeLabel(s).1, While), OpenParenthesis), Label(s.nextLabel))
    ensures s3.Valid(ts) && s3.pos < |ts| - 1 && s3.Current(ts) == Word(ClosedParenthesis) && s3.nextLabel == s.nextLabel + 1
    ensures ParseLogicExpression(ts, s2) == Ok(s3)
    ensures body == s3.(pos := s3.pos + 1, code := s3.code + [GoFalseLower(s.nextLabel + 1)], nextLabel := s.nextLabel + 2)
    ensures body == s.(pos := p + |SpellHead(While, e)|,
                       stack := s.stack + [EvalExpr(e, s.values).value],
                       code := s.code + [Label(s.nextLabel)] + CodeExpr(e, s.values) + [GoFalseLower(s.nextLabel + 1)],
                       nextLabel := s.nextLabel + 2)
  {
    HeadAt(ts, p, While, e);
    var q := p + 2 + |SpellExpr(e)|;
    ClosedParenthesisEnds(ts, q);
    s2 := WhileStart(ts, s, p);
    s3 := ConditionState(ts, s2, p + 2, q, e);
    body := s3.(pos := s3.pos + 1, code := s3.code + [GoFalseLower(s.nextLabel + 1)], nextLabel := s.nextLabel + 2);
  }

  /** A closing parenthesis ends a condition. */
  lemma {:induction false} ClosedParenthesisEnds(ts: seq<Token>, q: nat)
    requires q < |ts| && ts[q] == Word(ClosedParenthesis)
    ensures EndsCondition(ts, q)
  {
  }

  /** A condition whose evaluation throws: the parse throws the same. */
  lemma {:induction false} ConditionThrows(ts: seq<Token>, s: State, p: nat, q: nat, e: Expr)
    requires s.Valid(ts) && s.pos == p
    requires At(ts, p, SpellExpr(e)) && q == p + |SpellExpr(e)| && EndsCondition(ts, q)
    requires EvalExpr(e, s.values).Failure?
    ensures ParseLogicExpression(ts, s).Thrown? && ParseLogicExpression(ts, s).fault == EvalExpr(e, s.values).fault
  {
    ConditionCompiles(ts, s, p, q, e);
  }

  /** A condition that evaluates: where it leaves the parser. */
  lemma {:induction false} ConditionState(ts: seq<Token>, s: State, p: nat, q: nat, e: Expr) returns (s1: State)
    requires s.Valid(ts) && s.pos == p
    requires At(ts, p, SpellExpr(e)) && q == p + |SpellExpr(e)| && EndsCondition(ts, q)
    requires EvalExpr(e, s.values).Success?
    ensures s1 == s.(pos := q, stack := s.stack + [EvalExpr(e, s.values).value], code := s.code + CodeExpr(e, s.values))
    ensures ParseLogicExpression(ts, s) == Ok(s1)
  {
    ConditionCompiles(ts, s, p, q, e);
    s1 := s.(pos := q, stack := s.stack + [EvalExpr(e, s.values).value], code := s.code + CodeExpr(e, s.values));
  }

  lemma {:induction false} WhileThrows(ts: seq<Token>, s: State, p: nat, e: Expr)
    requires s.Valid(ts) && s.pos == p && At(ts, p, SpellHead(While, e)) && EvalExpr(e, s.values).Failure?
    ensures ParseInstruction(ts, s).Thrown? && ParseInstruction(ts, s).fault == EvalExpr(e, s.values).fault
  {
    WhileHeadThrows(ts, s, p, e);
    WhileDispatch(ts, s);
    WhileConditionThrows(ts, s);
  }

  /** A `while` whose condition throws: the condition's parse throws the same. */
  lemma {:induction false} WhileHeadThrows(ts: seq<Token>, s: State, p: nat, e: Expr)
    requires s.Valid(ts) && s.pos == p && At(ts, p, SpellHead(While, e)) && EvalExpr(e, s.values).Failure?
    ensures s.Current(ts).Name() == While
    ensures var r := ParseLogicExpression(ts, Emit(MatchToken(ts, MatchToken(ts, TakeLabel(s).1, While), OpenParenthesis), Label(s.nextLabel)));
            r.Thrown? && r.fault == EvalExpr(e, s.values).fault
  {
    HeadAt(ts, p, While, e);
    ClosedParenthesisEnds(ts, p + 2 + |SpellExpr(e)|);
    var s2 := WhileStart(ts, s, p);
    assert s2.values == s.values;
    ConditionThrows(ts, s2, p + 2, p + 2 + |SpellExpr(e)|, e);
  }

  lemma {:induction false} WhileConditionThrows(ts: seq<Token>, s: State)
    requires s.Valid(ts) && s.Current(ts).Name() == While
    requires ParseLogicExpression(ts, Emit(MatchToken(ts, MatchToken(ts, TakeLabel(s).1, While), OpenParenthesis), Label(s.nextLabel))).Thrown?
    ensures ParseWhile(ts, s) ==
              ParseLogicExpression(ts, Emit(MatchToken(ts, MatchToken(ts, TakeLabel(s).1, While), OpenParenthesis), Label(s.nextLabel)))
  {
  }

  lemma {:induction false} WhileDispatch(ts: seq<Token>, s: State)
    requires s.Valid(ts) && s.Current(ts).Name() == While
    ensures ParseInstruction(ts, s) == ParseWhile(ts, s)
  {
  }

  /** `while (` matched and `label_T` written. */
  lemma {:induction false} WhileStart(ts: seq<Token>, s: State, p: nat) returns (s2: State)
    requires s.Valid(ts) && s.pos == p && p + 2 < |ts| && ts[p] == Word(While) && ts[p + 1] == Word(OpenParenthesis)
    ensures s2 == s.(pos := p + 2, code := s.code + [Label(s.nextLabel)], nextLabel := s.nextLabel + 1)
    ensures s2 == Emit(MatchToken(ts, MatchToken(ts, TakeLabel(s).1, While), OpenParenthesis), Label(s.nextLabel))
  {
    s2 := s.(pos := p + 2, code := s.code + [Label(s.nextLabel)], nextLabel := s.nextLabel + 1);
  }

  /** The rest of a `while` once its condition is on the stack. */
  lemma {:induction false} WhileBody(ts: seq<Token>, s: State, s2: State, s3: State, t: nat, body: State)
    requires s.Valid(ts) && s.Current(ts).Name() == While && t == s.nextLabel
    requires s2 == Emit(MatchToken(ts, MatchToken(ts, TakeLabel(s).1, While), OpenParenthesis), Label(t))
    requires s3.Valid(ts) && s3.pos < |ts| - 1 && s3.Current(ts) == Word(ClosedParenthesis) && s3.nextLabel == t + 1
    requires ParseLogicExpression(ts, s2) == Ok(s3)
    requires body == s3.(pos := s3.pos + 1, code := s3.code + [GoFalseLower(t + 1)], nextLabel := t + 2)
    ensures body.Valid(ts)
    ensures ParseInstruction(ts, s) == Then(ParseInstruction(ts, body), [Goto(t), Label(t + 1)])
  {
    WhileDispatch(ts, s);
    assert MatchToken(ts, Emit(TakeLabel(s3).1, GoFalseLower(t + 1)), ClosedParenthesis) == body;
    var r := ParseInstruction(ts, body);
    if r.Ok? {
      assert r.st.code + [Goto(t)] + [Label(t + 1)] == r.st.code + [Goto(t), Label(t + 1)];
      assert ParseWhile(ts, s) == Ok(Emit(Emit(r.st, Goto(t)), Label(t + 1)));
    }
  }

  /**
   * What follows the "then" branch of an `if` whose jump-over label is `out`:
   * with an `else`, `goto label_M` and `label_L` (M the next free label),
   * the "else" branch and `label_M`; without one, `label L`.
   */
  function IfRest(ts: seq<Token>, r: Outcome<State>, out: nat): Outcome<State>
    requires r.st.Valid(ts)
  {
    if r.Thrown? then r
    else if r.st.Current(ts).Name() == Else then
      NotLast(ts, r.st);
      var m := r.st.nextLabel;
      Then(ParseInstruction(ts, r.st.(pos := r.st.pos + 1, code := r.st.code + [Goto(m), Label(out)], nextLabel := m + 1)),
           [Label(m)])
    else
      Ok(r.st.(code := r.st.code + [LabelSpaced(out)]))
  }

  /**
   * `if ( e ) S [else T]` writes the code of `e`, `goFalse label_L` with `L`
   * the next label, then S's code and what `IfRest` adds; the label of the
   * `else` jump comes after every label S takes, so it is greater than `L`.
   */
  lemma {:induction false} IfLayout(ts: seq<Token>, s: State, p: nat, e: Expr)
    requires s.Valid(ts) && s.pos == p && At(ts, p, SpellHead(If, e))
    ensures p + |SpellHead(If, e)| < |ts|
    ensures EvalExpr(e, s.values).Failure? ==>
              ParseInstruction(ts, s).Thrown? && ParseInstruction(ts, s).fault == EvalExpr(e, s.values).fault
    ensures EvalExpr(e, s.values).Success? ==>
              var t := s.nextLabel;
              var body := s.(pos := p + |SpellHead(If, e)|,
                             stack := s.stack + [EvalExpr(e, s.values).value],
                             code := s.code + CodeExpr(e, s.values) + [GoFalse(t)],
                             nextLabel := t + 1);
              && ParseInstruction(ts, s) == IfRest(ts, ParseInstruction(ts, body), t)
              && ParseInstruction(ts, body).st.nextLabel > t
  {
    HeadAt(ts, p, If, e);
    if EvalExpr(e, s.values).Success? {
      IfRuns(ts, s, p, e);
    } else {
      IfThrows(ts, s, p, e);
    }
  }

  lemma {:induction false} IfRuns(ts: seq<Token>, s: State, p: nat, e: Expr)
    requires s.Valid(ts) && s.pos == p && At(ts, p, SpellHead(If, e)) && EvalExpr(e, s.values).Success?
    requires p + |SpellHead(If, e)| < |ts|
    ensures var t := s.nextLabel;
            var body := s.(pos := p + |SpellHead(If, e)|,
                           stack := s.stack + [EvalExpr(e, s.values).value],
                           code := s.code + CodeExpr(e, s.values) + [GoFalse(t)],
                           nextLabel := t + 1);
            && ParseInstruction(ts, s) == IfRest(ts, ParseInstruction(ts, body), t)
            && ParseInstruction(ts, body).st.nextLabel > t
  {
    var s1, s2, body := IfPieces(ts, s, p, e);
    IfBody(ts, s, s1, s2, s.nextLabel, body);
  }

  /** Where the parser stands after `if ( e )`, and the state its "then" branch starts from. */
  lemma {:induction false} IfPieces(ts: seq<Token>, s: State, p: nat, e: Expr) returns (s1: State, s2: State, body: State)
    requires s.Valid(ts) && s.pos == p && At(ts, p, SpellHead(If, e)) && EvalExpr(e, s.values).Success?
    requires p + |SpellHead(If, e)| < |ts|
    ensures s.Current(ts).Name() == If
    ensures s1 == MatchToken(ts, MatchToken(ts, s, If), OpenParenthesis)
    ensures s2.Valid(ts) && s2.pos < |ts| - 1 && s2.Current(ts) == Word(ClosedParenthesis) && s2.nextLabel == s.nextLabel
    ensures ParseLogicExpression(ts, s1) == Ok(s2)
    ensures body == s2.(pos := s2.pos + 1, code := s2.code + [GoFalse(s.nextLabel)], nextLabel := s.nextLabel + 1)
    ensures body == s.(pos := p + |SpellHead(If, e)|,
                       stack := s.stack + [EvalExpr(e, s.values).value],
                       code := s.code + CodeExpr(e, s.values) + [GoFalse(s.nextLabel)],
                       nextLabel := s.nextLabel + 1)
  {
    HeadAt(ts, p, If, e);
    var q := p + 2 + |SpellExpr(e)|;
    ClosedParenthesisEnds(ts, q);
    s1 := IfStart(ts, s, p);
    s2 := ConditionState(ts, s1, p + 2, q, e);
    body := s2.(pos := s2.pos + 1, code := s2.code + [GoFalse(s.nextLabel)], nextLabel := s.nextLabel + 1);
  }

  lemma {:induction false} IfThrows(ts: seq<Token>, s: State, p: nat, e: Expr)
    requires s.Valid(ts) && s.pos == p && At(ts, p, SpellHead(If, e)) && EvalExpr(e, s.values).Failure?
    ensures ParseInstruction(ts, s).Thrown? && ParseInstruction(ts, s).fault == EvalExpr(e, s.values).fault
  {
    IfHeadThrows(ts, s, p, e);
    IfDispatch(ts, s);
    IfConditionThrows(ts, s);
  }

  /** An `if` whose condition throws: the condition's parse throws the same. */
  lemma {:induction false} IfHeadThrows(ts: seq<Token>, s: State, p: nat, e: Expr)
    requires s.Valid(ts) && s.pos == p && At(ts, p, SpellHead(If, e)) && EvalExpr(e, s.values).Failure?
    ensures s.Current(ts).Name() == If
    ensures var r := ParseLogicExpression(ts, MatchToken(ts, MatchToken(ts, s, If), OpenParenthesis));
            r.Thrown? && r.fault == EvalExpr(e, s.values).fault
  {
    HeadAt(ts, p, If, e);
    ClosedParenthesisEnds(ts, p + 2 + |SpellExpr(e)|);
    var s1 := IfStart(ts, s, p);
    assert s1.values == s.values;
    ConditionThrows(ts, s1, p + 2, p + 2 + |SpellExpr(e)|, e);
  }

  lemma {:induction false} IfConditionThrows(ts: seq<Token>, s: State)
    requires s.Valid(ts) && s.Current(ts).Name() == If
    requires ParseLogicExpression(ts, MatchToken(ts, MatchToken(ts, s, If), OpenParenthesis)).Thrown?
    ensures ParseIf(ts, s) == ParseLogicExpression(ts, MatchToken(ts, MatchToken(ts, s, If), OpenParenthesis))
  {
  }

  lemma {:induction false} IfDispatch(ts: seq<Token>, s: State)
    requires s.Valid(ts) && s.Current(ts).Name() == If
    ensures ParseInstruction(ts, s) == ParseIf(ts, s)
  {
  }

  /** `if (` matched. */
  lemma {:induction false} IfStart(ts: seq<Token>, s: State, p: nat) returns (s1: State)
    requires s.Valid(ts) && s.pos == p && p + 2 < |ts| && ts[p] == Word(If) && ts[p + 1] == Word(OpenParenthesis)
    ensures s1 == s.(pos := p + 2)
    ensures s1 == MatchToken(ts, MatchToken(ts, s, If), OpenParenthesis)
  {
    s1 := s.(pos := p + 2);
  }

  /** The rest of an `if` once its condition is on the stack. */
  lemma {:induction false} IfBody(ts: seq<Token>, s: State, s1: State, s2: State, t: nat, body: State)
    requires s.Valid(ts) && s.Current(ts).Name() == If && t == s.nextLabel
    requires s1 == MatchToken(ts, MatchToken(ts, s, If), OpenParenthesis)
    requires s2.Valid(ts) && s2.pos < |ts| - 1 && s2.Current(ts) == Word(ClosedParenthesis) && s2.nextLabel == t
    requires ParseLogicExpression(ts, s1) == Ok(s2)
    requires body == s2.(pos := s2.pos + 1, code := s2.code + [GoFalse(t)], nextLabel := t + 1)
    ensures body.Valid(ts)
    ensures ParseInstruction(ts, s) == IfRest(ts, ParseInstruction(ts, body), t)
    ensures ParseInstruction(ts, body).st.nextLabel > t
  {
    IfDispatch(ts, s);
    assert Emit(TakeLabel(MatchToken(ts, s2, ClosedParenthesis)).1, GoFalse(t)) == body;
    var r := ParseInstruction(ts, body);
    if r.Ok? && r.st.Current(ts).Name() == Else {
      IfElse(ts, s, s1, s2, t, body, r.st);
    } else {
      IfNoElse(ts, s, s1, s2, t, body);
    }
  }

  lemma {:induction false} IfNoElse(ts: seq<Token>, s: State, s1: State, s2: State, t: nat, body: State)
    requires s.Valid(ts) && s.Current(ts).Name() == If && t == s.nextLabel
    requires s1 == MatchToken(ts, MatchToken(ts, s, If), OpenParenthesis)
    requires s2.Valid(ts) && s2.pos < |ts| - 1 && s2.nextLabel == t
    requires ParseLogicExpression(ts, s1) == Ok(s2)
    requires body == Emit(TakeLabel(MatchToken(ts, s2, ClosedParenthesis)).1, GoFalse(t)) && body.Valid(ts)
    requires ParseInstruction(ts, body).Ok? ==> ParseInstruction(ts, body).st.Current(ts).Name() != Else
    ensures ParseIf(ts, s) == IfRest(ts, ParseInstruction(ts, body), t)
  {
  }

  lemma {:induction false} IfElse(ts: seq<Token>, s: State, s1: State, s2: State, t: nat, body: State, s4: State)
    requires s.Valid(ts) && s.Current(ts).Name() == If && t == s.nextLabel
    requires s1 == MatchToken(ts, MatchToken(ts, s, If), OpenParenthesis)
    requires s2.Valid(ts) && s2.pos < |ts| - 1 && s2.nextLabel == t
    requires ParseLogicExpression(ts, s1) == Ok(s2)
    requires body == Emit(TakeLabel(MatchToken(ts, s2, ClosedParenthesis)).1, GoFalse(t)) && body.Valid(ts)
    requires ParseInstruction(ts, body) == Ok(s4) && s4.Current(ts).Name() == Else
    ensures ParseIf(ts, s) == IfRest(ts, Ok(s4), t)
  {
    assert ParseIf(ts, s) == IfEnd(ts, s, s4, t);
    IfElseEnd(ts, s, s4, t);
  }

  lemma {:induction false} IfElseEnd(ts: seq<Token>, s0: State, s4: State, t: nat)
    requires s4.Valid(ts) && s4.pos > s0.pos && Follows(ts, s0, s4) && s4.Current(ts).Name() == Else
    ensures IfEnd(ts, s0, s4, t) == IfRest(ts, Ok(s4), t)
  {
    var s5 := ElseStart(ts, s4, t);
  }

  /** `goto label_M` and `label_L` written, `else` matched and `M` taken. */
  lemma {:induction false} ElseStart(ts: seq<Token>, s4: State, t: nat) returns (s5: State)
    requires s4.Valid(ts) && s4.Current(ts).Name() == Else
    ensures s5 == MatchToken(ts, Emit(Emit(TakeLabel(s4).1, Goto(s4.nextLabel)), Label(t)), Else)
    ensures s5 == s4.(pos := s4.pos + 1, code := s4.code + [Goto(s4.nextLabel), Label(t)], nextLabel := s4.nextLabel + 1)
  {
    var m := s4.nextLabel;
    NotLast(ts, s4);
    s5 := s4.(pos := s4.pos + 1, code := s4.code + [Goto(m), Label(t)], nextLabel := m + 1);
    assert s4.code + [Goto(m)] + [Label(t)] == s4.code + [Goto(m), Label(t)];
  }

  /** The state a `do` loop's body starts from: `do` matched, `label_T` written, `T` taken. */
  function DoStart(s: State): State {
    s.(pos := s.pos + 1, code := s.code + [Label(s.nextLabel)], nextLabel := s.nextLabel + 1)
  }

  /**
   * `do S while ( e ) ;` writes `label_T` with `T` the next label, S's code
   * (S leaving the parser in `b`), the code of `e` evaluated with the values
   * S left, `gofalse label_O`, `goto label_T` and `label_O`, with `O` the
   * next label after S, so `T < O`.
   */
  lemma {:induction false} DoLayout(ts: seq<Token>, s: State, p: nat, e: Expr, b: State)
    requires s.Valid(ts) && s.pos == p && ts[p] == Word(Do)
    requires ParseInstruction(ts, DoStart(s)) == Ok(b)
    requires At(ts, b.pos, SpellHead(While, e) + [Word(Semicolon)])
    ensures b.nextLabel > s.nextLabel
    ensures EvalExpr(e, b.values).Failure? ==>
              ParseInstruction(ts, s).Thrown? && ParseInstruction(ts, s).fault == EvalExpr(e, b.values).fault
    ensures EvalExpr(e, b.values).Success? ==>
              var o := b.nextLabel;
              ParseInstruction(ts, s) ==
                Ok(b.(pos := b.pos + |SpellHead(While, e)| + 1,
                      stack := b.stack + [EvalExpr(e, b.values).value],
                      code := b.code + CodeExpr(e, b.values) + [GoFalseLower(o), Goto(s.nextLabel), Label(o)],
                      nextLabel := o + 1))
  {
    NotLast(ts, s);
    DoSplit(ts, s);
    if EvalExpr(e, b.values).Success? {
      DoRuns(ts, s, b, e);
    } else {
      DoThrows(ts, s, b, e);
    }
  }

  /** A `do` loop whose body throws throws the same. */
  lemma {:induction false} DoBodyThrows(ts: seq<Token>, s: State, p: nat)
    requires s.Valid(ts) && s.pos == p && ts[p] == Word(Do)
    requires ParseInstruction(ts, DoStart(s)).Thrown?
    ensures ParseInstruction(ts, s) == ParseInstruction(ts, DoStart(s))
  {
    NotLast(ts, s);
    DoSplit(ts, s);
  }

  lemma {:induction false} DoRuns(ts: seq<Token>, s: State, b: State, e: Expr)
    requires s.Valid(ts) && b.Valid(ts) && b.pos > s.pos && Follows(ts, s, b) && b.nextLabel > s.nextLabel
    requires ParseInstruction(ts, s) == DoEnd(ts, s, b, s.nextLabel)
    requires At(ts, b.pos, SpellHead(While, e) + [Word(Semicolon)]) && EvalExpr(e, b.values).Success?
    ensures var o := b.nextLabel;
            ParseInstruction(ts, s) ==
              Ok(b.(pos := b.pos + |SpellHead(While, e)| + 1,
                    stack := b.stack + [EvalExpr(e, b.values).value],
                    code := b.code + CodeExpr(e, b.values) + [GoFalseLower(o), Goto(s.nextLabel), Label(o)],
                    nextLabel := o + 1))
  {
    DoEndRuns(ts, s, b, e, s.nextLabel);
  }

  lemma {:induction false} DoThrows(ts: seq<Token>, s: State, b: State, e: Expr)
    requires s.Valid(ts) && b.Valid(ts) && b.pos > s.pos && Follows(ts, s, b)
    requires ParseInstruction(ts, s) == DoEnd(ts, s, b, s.nextLabel)
    requires At(ts, b.pos, SpellHead(While, e) + [Word(Semicolon)]) && EvalExpr(e, b.values).Failure?
    ensures ParseInstruction(ts, s).Thrown? && ParseInstruction(ts, s).fault == EvalExpr(e, b.values).fault
  {
    DoEndThrows(ts, s, b, e, s.nextLabel);
  }

  /** `do`, the body, then `DoEnd`. */
  lemma {:induction false} DoSplit(ts: seq<Token>, s: State)
    requires s.Valid(ts) && s.Current(ts).Name() == Do && s.pos < |ts| - 1
    ensures DoStart(s).Valid(ts)
    ensures ParseInstruction(ts, DoStart(s)).Thrown? ==> ParseInstruction(ts, s) == ParseInstruction(ts, DoStart(s))
    ensures ParseInstruction(ts, DoStart(s)).Ok? ==>
              && ParseInstruction(ts, DoStart(s)).st.pos > s.pos
              && Follows(ts, s, ParseInstruction(ts, DoStart(s)).st)
              && ParseInstruction(ts, DoStart(s)).st.nextLabel > s.nextLabel
              && ParseInstruction(ts, s) == DoEnd(ts, s, ParseInstruction(ts, DoStart(s)).st, s.nextLabel)
  {
    assert ParseInstruction(ts, s) == ParseDo(ts, s);
    assert Emit(TakeLabel(MatchToken(ts, s, Do)).1, Label(s.nextLabel)) == DoStart(s);
  }

  /** Where `while ( e ) ;` sits after a `do` loop's body, which left the parser in `b`. */
  lemma {:induction false} DoTailAt(ts: seq<Token>, b: State, e: Expr) returns (s1: State)
    requires b.Valid(ts) && At(ts, b.pos, SpellHead(While, e) + [Word(Semicolon)])
    ensures s1 == b.(pos := b.pos + 2) && s1 == MatchToken(ts, MatchToken(ts, b, While), OpenParenthesis)
    ensures At(ts, b.pos + 2, SpellExpr(e)) && EndsCondition(ts, b.pos + 2 + |SpellExpr(e)|)
    ensures b.pos + 3 + |SpellExpr(e)| < |ts| && ts[b.pos + 2 + |SpellExpr(e)|] == Word(ClosedParenthesis)
    ensures ts[b.pos + 3 + |SpellExpr(e)|] == Word(Semicolon) && |SpellHead(While, e)| == 3 + |SpellExpr(e)|
  {
    var p := b.pos;
    AtAppend(ts, p, SpellHead(While, e), [Word(Semicolon)]);
    HeadAt(ts, p, While, e);
    AtHead(ts, p + 3 + |SpellExpr(e)|, [Word(Semicolon)]);
    s1 := b.(pos := p + 2);
  }

  lemma {:induction false} DoEndRuns(ts: seq<Token>, s0: State, b: State, e: Expr, t: nat)
    requires b.Valid(ts) && b.pos > s0.pos && Follows(ts, s0, b)
    requires At(ts, b.pos, SpellHead(While, e) + [Word(Semicolon)]) && EvalExpr(e, b.values).Success?
    ensures var o := b.nextLabel;
            DoEnd(ts, s0, b, t) ==
              Ok(b.(pos := b.pos + |SpellHead(While, e)| + 1,
                    stack := b.stack + [EvalExpr(e, b.values).value],
                    code := b.code + CodeExpr(e, b.values) + [GoFalseLower(o), Goto(t), Label(o)],
                    nextLabel := o + 1))
  {
    var s1 := DoTailAt(ts, b, e);
    var q := b.pos + 2 + |SpellExpr(e)|;
    var s2 := ConditionState(ts, s1, b.pos + 2, q, e);
    var r := DoEndState(ts, s2, b.nextLabel, t);
  }

  /** After a `do` loop's condition: `)`, the jumps, the exit label and `;`. */
  lemma {:induction false} DoEndState(ts: seq<Token>, s2: State, o: nat, t: nat) returns (r: State)
    requires s2.Valid(ts) && s2.pos + 1 < |ts| && s2.nextLabel == o
    requires ts[s2.pos] == Word(ClosedParenthesis) && ts[s2.pos + 1] == Word(Semicolon)
    ensures r == MatchToken(ts, Emit(Emit(Emit(TakeLabel(MatchToken(ts, s2, ClosedParenthesis)).1, GoFalseLower(o)), Goto(t)), Label(o)), Semicolon)
    ensures r == s2.(pos := s2.pos + 2, code := s2.code + [GoFalseLower(o), Goto(t), Label(o)], nextLabel := o + 1)
  {
    assert s2.code + [GoFalseLower(o)] + [Goto(t)] + [Label(o)] == s2.code + [GoFalseLower(o), Goto(t), Label(o)];
    r := s2.(pos := s2.pos + 2, code := s2.code + [GoFalseLower(o), Goto(t), Label(o)], nextLabel := o + 1);
  }

  lemma {:induction false} DoEndThrows(ts: seq<Token>, s0: State, b: State, e: Expr, t: nat)
    requires b.Valid(ts) && b.pos > s0.pos && Follows(ts, s0, b)
    requires At(ts, b.pos, SpellHead(While, e) + [Word(Semicolon)]) && EvalExpr(e, b.values).Failure?
    ensures DoEnd(ts, s0, b, t).Thrown? && DoEnd(ts, s0, b, t).fault == EvalExpr(e, b.values).fault
  {
    var s1 := DoTailAt(ts, b, e);
    ConditionThrows(ts, s1, b.pos + 2, b.pos + 2 + |SpellExpr(e)|, e);
  }
}
