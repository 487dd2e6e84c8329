/**
 * What the translator computes for a well-formed integer expression: it
 * consumes exactly the expression's tokens, appends the postfix text of its
 * derivation tree (operands before their operator, no parentheses) and
 * leaves the expression's value (left-associative, `* / %` before `+ -`,
 * Java `int` arithmetic) on top of the stack -- or throws the exception the
 * evaluation throws.
 *
 * Each lemma is told where its phrase starts (`p`) and where it ends (`q`)
 * in the token stream `ts`.
 */
module TranslatorProofs {
  import opened JavaInt
  import opened Exceptions
  import opened Tokens
  import opened Arith
  import opened Translator

  /**
   * `r` is what parsing a phrase from `s` must give when the phrase evaluates
   * to `value`: on success the position is `q`, just past the phrase, the stack
   * is `base` with the value on top, and `text` was appended; on failure the
   * same exception was thrown.
   */
  predicate Yields(s: State, r: Outcome<State>, value: Result<Value>, q: nat, text: string, base: seq<Int32>)
  {
    && (value.Success? ==>
          && value.value.IntV?
          && r.Ok?
          && r.st.pos == q
          && r.st.stack == base + [value.value.i]
          && r.st.postfix == s.postfix + text)
    && (value.Failure? ==> r.Thrown? && r.fault == value.fault)
  }

  /** A part parsed from where an earlier part, with its text, left off. */
  lemma {:induction false} Compose(s: State, s1: State, r: Outcome<State>, value: Result<Value>, q: nat, t1: string, t2: string,
                base: seq<Int32>)
    requires s1.postfix == s.postfix + t1
    requires Yields(s1, r, value, q, t2, base)
    ensures Yields(s, r, value, q, t1 + t2, base)
  {
    assert s.postfix + t1 + t2 == s.postfix + (t1 + t2);
  }

  lemma {:induction false} Assoc(a: string, b: string, c: string)
    ensures a + b + c == a + (b + c)
  {
  }

  /** The binary step on a stack whose two top entries are `left` and then `right`. */
  lemma {:induction false} ApplyTopOnTwo(s: State, base: seq<Int32>, left: Int32, right: Int32, op: Op)
    requires s.stack == base + [left] + [right]
    ensures (op == Over || op == Mod) && right == 0 ==>
              ApplyTop(s, op).Thrown? && ApplyTop(s, op).fault == DivisionByZero
    ensures !((op == Over || op == Mod) && right == 0) ==>
              && ApplyTop(s, op).Ok?
              && ApplyTop(s, op).st.stack == base + [Compute(op, left, right)]
  {
    assert s.stack[..|s.stack| - 1] == base + [left];
    assert (base + [left])[..|base|] == base;
  }

  lemma {:induction false} ExpressionTranslates(ts: seq<Token>, s: State, p: nat, q: nat, e: Expr)
    requires s.Valid(ts) && s.pos == p && IntegersOnly(e)
    requires At(ts, p, SpellExpr(e)) && q == p + |SpellExpr(e)| && EndsExpression(ts, q)
    ensures Yields(s, ParseExpression(ts, s), EvalExpr(e, map[]), q, PostfixExpr(e), s.stack)
    decreases e, 1
  {
    var m := p + |SpellTerm(e.first)|;
    ExpressionAt(ts, p, e);
    TermEnds(ts, m, q, e.more);
    TermTranslates(ts, s, p, m, e.first);
    var r1 := ParseTerm(ts, s);
    var v1 := EvalTerm(e.first, map[]);
    if v1.Success? {
      ExpressionRest(ts, s, r1.st, m, q, e, v1.value.i);
    }
  }

  /** The `more-terms` of an expression, once its first term has been parsed into `s1`. */
  lemma {:induction false} ExpressionRest(ts: seq<Token>, s: State, s1: State, m: nat, q: nat, e: Expr, v: Int32)
    requires s1.Valid(ts) && s1.pos == m && IntegersOnly(e)
    requires s1.stack == s.stack + [v] && s1.postfix == s.postfix + PostfixTerm(e.first)
    requires At(ts, m, SpellMoreTerms(e.more)) && q == m + |SpellMoreTerms(e.more)| && EndsExpression(ts, q)
    ensures Yields(s, ParseMoreTerms(ts, s1), EvalMoreTerms(IntV(v), e.more, map[]), q, PostfixExpr(e), s.stack)
    decreases e, 0
  {
    MoreTermsTranslates(ts, s1, m, q, s.stack, v, e.more);
    Compose(s, s1, ParseMoreTerms(ts, s1), EvalMoreTerms(IntV(v), e.more, map[]), q,
            PostfixTerm(e.first), PostfixMoreTerms(e.more), s.stack);
  }

  lemma {:induction false} MoreTermsTranslates(ts: seq<Token>, s: State, p: nat, q: nat, base: seq<Int32>,
                                               acc: Int32, m: MoreTerms)
    requires s.Valid(ts) && s.pos == p && IntegersOnlyMoreTerms(m) && s.stack == base + [acc]
    requires At(ts, p, SpellMoreTerms(m)) && q == p + |SpellMoreTerms(m)| && EndsExpression(ts, q)
    ensures Yields(s, ParseMoreTerms(ts, s), EvalMoreTerms(IntV(acc), m, map[]), q, PostfixMoreTerms(m), base)
    decreases m, 3
  {
    if m.NoTerms? {
      NoTermsTranslates(ts, s, p, q, base, acc, m);
    } else {
      MoreTermAt(ts, s, p, q, base, acc, m);
    }
  }

  lemma {:induction false} NoTermsTranslates(ts: seq<Token>, s: State, p: nat, q: nat, base: seq<Int32>, acc: Int32, m: MoreTerms)
    requires m.NoTerms?
    requires s.Valid(ts) && s.pos == p && s.stack == base + [acc]
    requires q == p + |SpellMoreTerms(m)| && EndsExpression(ts, q)
    ensures Yields(s, ParseMoreTerms(ts, s), EvalMoreTerms(IntV(acc), m, map[]), q, PostfixMoreTerms(m), base)
  {
    assert s.postfix + "" == s.postfix;
  }

  lemma {:induction false} MoreTermAt(ts: seq<Token>, s: State, p: nat, q: nat, base: seq<Int32>, acc: Int32,
                                      m: MoreTerms)
    requires m.MoreTerm?
    requires s.Valid(ts) && s.pos == p && IntegersOnlyMoreTerms(m) && s.stack == base + [acc]
    requires At(ts, p, SpellMoreTerms(m)) && q == p + |SpellMoreTerms(m)| && EndsExpression(ts, q)
    ensures Yields(s, ParseMoreTerms(ts, s), EvalMoreTerms(IntV(acc), m, map[]), q, PostfixMoreTerms(m), base)
    decreases m, 2
  {
    OperatorAt(ts, p, OpKind(m.op), SpellTerm(m.term), SpellMoreTerms(m.rest));
    MoreTermTranslates(ts, s, p, q, base, acc, m.op, m.term, m.rest);
  }

  lemma {:induction false} MoreTermTranslates(ts: seq<Token>, s: State, p: nat, q: nat, base: seq<Int32>,
                                              acc: Int32, op: AddOp, t: Term, more: MoreTerms)
    requires s.Valid(ts) && s.pos == p && s.stack == base + [acc]
    requires IntegersOnlyTerm(t) && IntegersOnlyMoreTerms(more)
    requires p < |ts| && ts[p] == Word(OpKind(op))
    requires At(ts, p + 1, SpellTerm(t)) && At(ts, p + 1 + |SpellTerm(t)|, SpellMoreTerms(more))
    requires q == p + 1 + |SpellTerm(t)| + |SpellMoreTerms(more)| && EndsExpression(ts, q)
    ensures Yields(s, ParseMoreTerms(ts, s), EvalMoreTerms(IntV(acc), MoreTerm(op, t, more), map[]), q,
                   PostfixTerm(t) + OpText(op) + PostfixMoreTerms(more), base)
    decreases MoreTerm(op, t, more), 1
  {
    var k := OpKind(op);
    assert AddOpOf(k) == op;
    var s0 := MatchToken(ts, s, k);
    assert s0.pos == p + 1;
    var m := p + 1 + |SpellTerm(t)|;
    TermEnds(ts, m, q, more);
    TermTranslates(ts, s0, p + 1, m, t);
    match EvalTerm(t, map[])
    case Failure(f) =>
    case Success(v) =>
      var s1 := ParseTerm(ts, s0).st;
      MoreTermTail(ts, s, s1, m, q, base, acc, op, t, more, v.i);
  }

  /** The rest of a `+ term more-terms` step, once the term has been parsed into `s1`. */
  lemma {:induction false} MoreTermTail(ts: seq<Token>, s: State, s1: State, m: nat, q: nat, base: seq<Int32>,
                                        acc: Int32, op: AddOp, t: Term, more: MoreTerms, v: Int32)
    requires s1.Valid(ts) && s.pos < m && s1.pos == m
    requires s.stack == base + [acc] && s1.stack == s.stack + [v] && s1.postfix == s.postfix + PostfixTerm(t)
    requires IntegersOnlyMoreTerms(more)
    requires At(ts, m, SpellMoreTerms(more)) && q == m + |SpellMoreTerms(more)| && EndsExpression(ts, q)
    ensures Yields(s, MoreTermsRest(ts, s, s1, op), (var r :- Apply(op, IntV(acc), IntV(v)); EvalMoreTerms(r, more, map[])),
                   q, PostfixTerm(t) + OpText(op) + PostfixMoreTerms(more), base)
    decreases MoreTerm(op, t, more), 0
  {
    var s2 := s1.(postfix := s1.postfix + OpText(op));
    ApplyTopOnTwo(s2, base, acc, v, op);
    if !((op == Over || op == Mod) && v == 0) {
      var s3 := ApplyTop(s2, op).st;
      MoreTermsTranslates(ts, s3, m, q, base, Compute(op, acc, v), more);
      Assoc(s.postfix, PostfixTerm(t), OpText(op));
      Compose(s, s3, ParseMoreTerms(ts, s3), EvalMoreTerms(IntV(Compute(op, acc, v)), more, map[]), q,
              PostfixTerm(t) + OpText(op), PostfixMoreTerms(more), base);
    }
  }

  lemma {:induction false} TermTranslates(ts: seq<Token>, s: State, p: nat, q: nat, t: Term)
    requires s.Valid(ts) && s.pos == p && IntegersOnlyTerm(t)
    requires At(ts, p, SpellTerm(t)) && q == p + |SpellTerm(t)| && EndsTerm(ts, q)
    ensures Yields(s, ParseTerm(ts, s), EvalTerm(t, map[]), q, PostfixTerm(t), s.stack)
    decreases t, 3
  {
    var m := p + |SpellFactor(t.first)|;
    TermAt(ts, p, t);
    assert m <= q < |ts|;
    FactorTranslates(ts, s, p, m, t.first);
    TermAfterFactor(ts, s, m, q, t);
  }

  /** A term once its first factor has been parsed: it fails with the factor or goes on. */
  lemma {:induction false} TermAfterFactor(ts: seq<Token>, s: State, m: nat, q: nat, t: Term)
    requires s.Valid(ts) && IntegersOnlyTerm(t)
    requires Yields(s, ParseFactor(ts, s), EvalFactor(t.first, map[]), m, PostfixFactor(t.first), s.stack)
    requires At(ts, m, SpellMoreFactors(t.more)) && q == m + |SpellMoreFactors(t.more)| && EndsTerm(ts, q)
    ensures Yields(s, ParseTerm(ts, s), EvalTerm(t, map[]), q, PostfixTerm(t), s.stack)
    decreases t, 2
  {
    if EvalFactor(t.first, map[]).Failure? {
      TermFails(ts, s, m, q, t);
    } else {
      TermGoesOn(ts, s, m, q, t);
    }
  }

  lemma {:induction false} TermFails(ts: seq<Token>, s: State, m: nat, q: nat, t: Term)
    requires s.Valid(ts) && EvalFactor(t.first, map[]).Failure?
    requires Yields(s, ParseFactor(ts, s), EvalFactor(t.first, map[]), m, PostfixFactor(t.first), s.stack)
    ensures Yields(s, ParseTerm(ts, s), EvalTerm(t, map[]), q, PostfixTerm(t), s.stack)
  {
  }

  lemma {:induction false} TermGoesOn(ts: seq<Token>, s: State, m: nat, q: nat, t: Term)
    requires s.Valid(ts) && EvalFactor(t.first, map[]).Success? && IntegersOnlyTerm(t)
    requires Yields(s, ParseFactor(ts, s), EvalFactor(t.first, map[]), m, PostfixFactor(t.first), s.stack)
    requires At(ts, m, SpellMoreFactors(t.more)) && q == m + |SpellMoreFactors(t.more)| && EndsTerm(ts, q)
    ensures Yields(s, ParseTerm(ts, s), EvalTerm(t, map[]), q, PostfixTerm(t), s.stack)
    decreases t, 1
  {
    TermRest(ts, s, ParseFactor(ts, s).st, m, q, t, EvalFactor(t.first, map[]).value.i);
  }

  /** The `more-factors` of a term, once its first factor has been parsed into `s1`. */
  lemma {:induction false} TermRest(ts: seq<Token>, s: State, s1: State, m: nat, q: nat, t: Term, v: Int32)
    requires s1.Valid(ts) && s1.pos == m && IntegersOnlyTerm(t)
    requires s1.stack == s.stack + [v] && s1.postfix == s.postfix + PostfixFactor(t.first)
    requires At(ts, m, SpellMoreFactors(t.more)) && q == m + |SpellMoreFactors(t.more)| && EndsTerm(ts, q)
    ensures Yields(s, ParseMoreFactors(ts, s1), EvalMoreFactors(IntV(v), t.more, map[]), q, PostfixTerm(t), s.stack)
    decreases t, 0
  {
    MoreFactorsTranslates(ts, s1, m, q, s.stack, v, t.more);
    Compose(s, s1, ParseMoreFactors(ts, s1), EvalMoreFactors(IntV(v), t.more, map[]), q,
            PostfixFactor(t.first), PostfixMoreFactors(t.more), s.stack);
  }

  lemma {:induction false} MoreFactorsTranslates(ts: seq<Token>, s: State, p: nat, q: nat, base: seq<Int32>,
                                                 acc: Int32, m: MoreFactors)
    requires s.Valid(ts) && s.pos == p && IntegersOnlyMoreFactors(m) && s.stack == base + [acc]
    requires At(ts, p, SpellMoreFactors(m)) && q == p + |SpellMoreFactors(m)| && EndsTerm(ts, q)
    ensures Yields(s, ParseMoreFactors(ts, s), EvalMoreFactors(IntV(acc), m, map[]), q, PostfixMoreFactors(m), base)
    decreases m, 3
  {
    if m.NoFactors? {
      NoFactorsTranslates(ts, s, p, q, base, acc, m);
    } else {
      MoreFactorAt(ts, s, p, q, base, acc, m);
    }
  }

  lemma {:induction false} NoFactorsTranslates(ts: seq<Token>, s: State, p: nat, q: nat, base: seq<Int32>, acc: Int32,
                            m: MoreFactors)
    requires m.NoFactors?
    requires s.Valid(ts) && s.pos == p && s.stack == base + [acc]
    requires q == p + |SpellMoreFactors(m)| && EndsTerm(ts, q)
    ensures Yields(s, ParseMoreFactors(ts, s), EvalMoreFactors(IntV(acc), m, map[]), q, PostfixMoreFactors(m), base)
  {
    assert s.postfix + "" == s.postfix;
  }

  lemma {:induction false} MoreFactorAt(ts: seq<Token>, s: State, p: nat, q: nat, base: seq<Int32>, acc: Int32,
                                        m: MoreFactors)
    requires m.MoreFactor?
    requires s.Valid(ts) && s.pos == p && IntegersOnlyMoreFactors(m) && s.stack == base + [acc]
    requires At(ts, p, SpellMoreFactors(m)) && q == p + |SpellMoreFactors(m)| && EndsTerm(ts, q)
    ensures Yields(s, ParseMoreFactors(ts, s), EvalMoreFactors(IntV(acc), m, map[]), q, PostfixMoreFactors(m), base)
    decreases m, 2
  {
    OperatorAt(ts, p, OpKind(m.op), SpellFactor(m.factor), SpellMoreFactors(m.rest));
    MoreFactorTranslates(ts, s, p, q, base, acc, m.op, m.factor, m.rest);
  }

  lemma {:induction false} MoreFactorTranslates(ts: seq<Token>, s: State, p: nat, q: nat, base: seq<Int32>,
                                                acc: Int32, op: MulOp, f: Factor, more: MoreFactors)
    requires s.Valid(ts) && s.pos == p && s.stack == base + [acc]
    requires IntegersOnlyFactor(f) && IntegersOnlyMoreFactors(more)
    requires p < |ts| && ts[p] == Word(OpKind(op))
    requires At(ts, p + 1, SpellFactor(f)) && At(ts, p + 1 + |SpellFactor(f)|, SpellMoreFactors(more))
    requires q == p + 1 + |SpellFactor(f)| + |SpellMoreFactors(more)| && EndsTerm(ts, q)
    ensures Yields(s, ParseMoreFactors(ts, s), EvalMoreFactors(IntV(acc), MoreFactor(op, f, more), map[]), q,
                   PostfixFactor(f) + OpText(op) + PostfixMoreFactors(more), base)
    decreases MoreFactor(op, f, more), 1
  {
    var k := OpKind(op);
    assert MulOpOf(k) == op;
    var s0 := MatchToken(ts, s, k);
    assert s0.pos == p + 1;
    var m := p + 1 + |SpellFactor(f)|;
    FactorTranslates(ts, s0, p + 1, m, f);
    match EvalFactor(f, map[])
    case Failure(x) =>
    case Success(v) =>
      var s1 := ParseFactor(ts, s0).st;
      MoreFactorTail(ts, s, s1, m, q, base, acc, op, f, more, v.i);
  }

  /** The rest of a `* factor more-factors` step, once the factor has been parsed into `s1`. */
  lemma {:induction false} MoreFactorTail(ts: seq<Token>, s: State, s1: State, m: nat, q: nat, base: seq<Int32>,
                                          acc: Int32, op: MulOp, f: Factor, more: MoreFactors, v: Int32)
    requires s1.Valid(ts) && s.pos < m && s1.pos == m
    requires s.stack == base + [acc] && s1.stack == s.stack + [v] && s1.postfix == s.postfix + PostfixFactor(f)
    requires IntegersOnlyMoreFactors(more)
    requires At(ts, m, SpellMoreFactors(more)) && q == m + |SpellMoreFactors(more)| && EndsTerm(ts, q)
    ensures Yields(s, MoreFactorsRest(ts, s, s1, op),
                   (var r :- Apply(op, IntV(acc), IntV(v)); EvalMoreFactors(r, more, map[])),
                   q, PostfixFactor(f) + OpText(op) + PostfixMoreFactors(more), base)
    decreases MoreFactor(op, f, more), 0
  {
    var s2 := s1.(postfix := s1.postfix + OpText(op));
    ApplyTopOnTwo(s2, base, acc, v, op);
    if !((op == Over || op == Mod) && v == 0) {
      var s3 := ApplyTop(s2, op).st;
      MoreFactorsTranslates(ts, s3, m, q, base, Compute(op, acc, v), more);
      Assoc(s.postfix, PostfixFactor(f), OpText(op));
      Compose(s, s3, ParseMoreFactors(ts, s3), EvalMoreFactors(IntV(Compute(op, acc, v)), more, map[]), q,
              PostfixFactor(f) + OpText(op), PostfixMoreFactors(more), base);
    }
  }

  lemma {:induction false} FactorTranslates(ts: seq<Token>, s: State, p: nat, q: nat, f: Factor)
    requires s.Valid(ts) && s.pos == p && IntegersOnlyFactor(f)
    requires At(ts, p, SpellFactor(f)) && q == p + |SpellFactor(f)| && q < |ts|
    ensures Yields(s, ParseFactor(ts, s), EvalFactor(f, map[]), q, PostfixFactor(f), s.stack)
    decreases f, 1
  {
    if f.Num? {
      NumTranslates(ts, s, p, q, f);
    } else {
      ParenTranslates(ts, s, p, q, f);
    }
  }

  lemma {:induction false} NumTranslates(ts: seq<Token>, s: State, p: nat, q: nat, f: Factor)
    requires f.Num?
    requires s.Valid(ts) && s.pos == p
    requires At(ts, p, SpellFactor(f)) && q == p + |SpellFactor(f)| && q < |ts|
    ensures Yields(s, ParseFactor(ts, s), EvalFactor(f, map[]), q, PostfixFactor(f), s.stack)
  {
    AtHead(ts, p, SpellFactor(f));
  }

  lemma {:induction false} ParenTranslates(ts: seq<Token>, s: State, p: nat, q: nat, f: Factor)
    requires f.Paren?
    requires s.Valid(ts) && s.pos == p && IntegersOnlyFactor(f)
    requires At(ts, p, SpellFactor(f)) && q == p + |SpellFactor(f)| && q < |ts|
    ensures Yields(s, ParseFactor(ts, s), EvalFactor(f, map[]), q, PostfixFactor(f), s.stack)
    decreases f, 0
  {
    var e := f.inner;
    OperatorAt(ts, p, OpenParenthesis, SpellExpr(e), [Word(ClosedParenthesis)]);
    var s0 := MatchToken(ts, s, OpenParenthesis);
    assert s0.pos == p + 1;
    var m := p + 1 + |SpellExpr(e)|;
    AtHead(ts, m, [Word(ClosedParenthesis)]);
    ExpressionTranslates(ts, s0, p + 1, m, e);
  }

  /** A whole input: the tokens of an expression, then `end_program`. */
  function Program(e: Expr): (ts: seq<Token>)
    ensures Terminated(ts) && |ts| == |SpellExpr(e)| + 1
  {
    SpellExpr(e) + [Word(EndProgram)]
  }

  /**
   * `translate()` on a whole input: it stops at `end_program` with the
   * postfix text of the expression and the expression's value as the only
   * entry of the stack, or throws what evaluating the expression throws.
   */
  lemma TranslatesProgram(e: Expr)
    requires IntegersOnly(e)
    ensures Yields(Start(), ParseExpression(Program(e), Start()), EvalExpr(e, map[]), |SpellExpr(e)|,
                   PostfixExpr(e), [])
  {
    var ts := Program(e);
    AtInside([], SpellExpr(e), [Word(EndProgram)]);
    assert [] + SpellExpr(e) + [Word(EndProgram)] == ts;
    assert ts[|SpellExpr(e)|] == Word(EndProgram);
    ExpressionTranslates(ts, Start(), 0, |SpellExpr(e)|, e);
  }

  // The expression of the test program, `((10 * 3) + (50 / 5)) * 2 / 4`.

  function Product(a: Int32, op: MulOp, b: Int32): Expr {
    Expr(Term(Num(a), MoreFactor(op, Num(b), NoFactors)), NoTerms)
  }

  /** `(10 * 3) + (50 / 5)` */
  function SampleSum(): Expr {
    Expr(Term(Paren(Product(10, Times, 3)), NoFactors),
         MoreTerm(Plus, Term(Paren(Product(50, Over, 5)), NoFactors), NoTerms))
  }

  function SampleExpr(): Expr {
    Expr(Term(Paren(SampleSum()), MoreFactor(Times, Num(2), MoreFactor(Over, Num(4), NoFactors))), NoTerms)
  }

  /** The test program's token stream. */
  lemma SampleTokens()
    ensures Program(SampleExpr()) ==
              [Word(OpenParenthesis), Word(OpenParenthesis), IntegerNumber(10), Word(Multiply), IntegerNumber(3),
               Word(ClosedParenthesis), Word(Add), Word(OpenParenthesis), IntegerNumber(50), Word(Divide),
               IntegerNumber(5), Word(ClosedParenthesis), Word(ClosedParenthesis), Word(Multiply),
               IntegerNumber(2), Word(Divide), IntegerNumber(4), Word(EndProgram)]
  {
    ProductSpelling(10, Times, 3);
    ProductSpelling(50, Over, 5);
    var sum := SpellExpr(SampleSum());
    assert sum == [Word(OpenParenthesis), IntegerNumber(10), Word(Multiply), IntegerNumber(3), Word(ClosedParenthesis),
                   Word(Add), Word(OpenParenthesis), IntegerNumber(50), Word(Divide), IntegerNumber(5),
                   Word(ClosedParenthesis)];
    assert SpellExpr(SampleExpr()) == [Word(OpenParenthesis)] + sum + [Word(ClosedParenthesis)] +
             [Word(Multiply), IntegerNumber(2), Word(Divide), IntegerNumber(4)];
  }

  lemma ProductSpelling(a: Int32, op: MulOp, b: Int32)
    ensures SpellExpr(Product(a, op, b)) == [IntegerNumber(a), Word(OpKind(op)), IntegerNumber(b)]
  {
    var t := Term(Num(a), MoreFactor(op, Num(b), NoFactors));
    assert SpellMoreFactors(t.more) == [Word(OpKind(op))] + [IntegerNumber(b)] + [];
    assert SpellTerm(t) == [IntegerNumber(a)] + SpellMoreFactors(t.more);
    assert SpellExpr(Product(a, op, b)) == SpellTerm(t) + [];
  }

  /** The postfix text the test program prints. */
  lemma SamplePostfix()
    ensures PostfixExpr(SampleExpr()) == " 10  3  *  50  5  /  +  2  *  4  / "
  {
    LiteralTexts();
    SumPostfix();
    assert PostfixExpr(SampleExpr()) == PostfixExpr(SampleSum()) + (" 2 " + " * " + (" 4 " + " / " + ""));
  }

  lemma SumPostfix()
    ensures PostfixExpr(SampleSum()) == " 10  3  *  50  5  /  + "
  {
    LiteralTexts();
    ProductPostfix(10, Times, 3);
    ProductPostfix(50, Over, 5);
    assert PostfixExpr(SampleSum()) == " 10  3  * " + (" 50  5  / " + " + " + "");
  }

  lemma LiteralTexts()
    ensures LiteralText(2) == " 2 " && LiteralText(3) == " 3 " && LiteralText(4) == " 4 " && LiteralText(5) == " 5 "
    ensures LiteralText(10) == " 10 " && LiteralText(50) == " 50 "
  {
    assert NatText(10) == NatText(1) + [Digit(0)];
    assert NatText(50) == NatText(5) + [Digit(0)];
  }

  lemma ProductPostfix(a: Int32, op: MulOp, b: Int32)
    ensures PostfixExpr(Product(a, op, b)) == LiteralText(a) + LiteralText(b) + OpText(op)
  {
    var t := Term(Num(a), MoreFactor(op, Num(b), NoFactors));
    assert PostfixMoreFactors(t.more) == LiteralText(b) + OpText(op) + "";
    assert PostfixTerm(t) == LiteralText(a) + PostfixMoreFactors(t.more);
    assert PostfixExpr(Product(a, op, b)) == PostfixTerm(t) + "";
  }

  /** The value the test program prints. */
  lemma SampleValue()
    ensures IntegersOnly(SampleExpr())
    ensures EvalExpr(SampleExpr(), map[]) == Success(IntV(20))
  {
    SumValue();
  }

  lemma SumValue()
    ensures IntegersOnly(SampleSum())
    ensures EvalExpr(SampleSum(), map[]) == Success(IntV(40))
  {
    assert EvalExpr(Product(10, Times, 3), map[]) == Success(IntV(30));
    assert EvalExpr(Product(50, Over, 5), map[]) == Success(IntV(10));
  }

  /**
   * A fresh translator over a whole input, asked to `translate()` and then to
   * `evaluate()`: the postfix text and the value of the expression, or the
   * exception that evaluating it throws.
   */
  method TranslateAndEvaluate(e: Expr) returns (c: Completion, text: string, value: Int32)
    requires IntegersOnly(e)
    ensures EvalExpr(e, map[]).Success? ==>
              c == Normal && text == PostfixExpr(e) && EvalExpr(e, map[]).value == IntV(value)
    ensures EvalExpr(e, map[]).Failure? ==> c == Threw(EvalExpr(e, map[]).fault)
  {
    TranslatesProgram(e);
    var translator := new PostfixTranslator(Program(e));
    c, text := translator.Translate();
    value := 0;
    if c.Normal? {
      assert text == "" + PostfixExpr(e) == PostfixExpr(e);
      assert translator.stack == [] + [EvalExpr(e, map[]).value.i];
      ghost var before := translator.stack;
      c, value := translator.Evaluate();
      assert before[|before| - 1] == value;
    }
  }

  /** The test program: translate the sample expression, then pop its value. */
  method RunSample() returns (text: string, value: Int32)
    ensures text == " 10  3  *  50  5  /  +  2  *  4  / " && value == 20
  {
    SampleValue();
    SamplePostfix();
    var c;
    c, text, value := TranslateAndEvaluate(SampleExpr());
  }
}
