/**
 * The infix-to-postfix translator: a recursive-descent parser over
 * integer expressions that, while it parses, appends the postfix form to a
 * string and evaluates the expression on a stack of `int`s.
 *
 * `State` and the functions over it are the specification: one function
 * per method of the Java class, threading the fields. The class
 * `PostfixTranslator` holds those fields and its methods are proved to
 * have exactly the effect of the corresponding functions.
 */
module Translator {
  import opened JavaInt
  import opened Exceptions
  import opened Tokens
  import opened Arith

  /**
   * The fields of a translator that change while it parses the token stream
   * (which never changes, and is passed alongside): token position,
   * evaluation stack (top last), postfix text.
   */
  datatype State = State(pos: nat, stack: seq<Int32>, postfix: string) {
    predicate Valid(ts: seq<Token>) { Terminated(ts) && pos < |ts| }

    function Current(ts: seq<Token>): Token
      requires Valid(ts)
    {
      ts[pos]
    }
  }


  /** Every parsing step stays inside the stream and never moves backwards. */
  predicate Follows(ts: seq<Token>, s: State, r: State) {
    r.Valid(ts) && r.pos >= s.pos
  }

  /** What the constructor sets up: the first token current, empty stack and text. */
  function Start(): State {
    State(0, [], "")
  }

  /** The text appended for an operator. */
  function OpText(op: Op): string {
    match op
    case Plus => " + "
    case Minus => " - "
    case Times => " * "
    case Over => " / "
    case Mod => " % "
  }

  /** The text appended for an integer literal. */
  function LiteralText(n: Int32): string {
    " " + IntText(n) + " "
  }

  /** `match(k)`: consume the current token if its name is `k`; otherwise only print. */
  function MatchToken(ts: seq<Token>, s: State, k: Kind): (r: State)
    requires s.Valid(ts)
    ensures Follows(ts, s, r) && r.stack == s.stack && r.postfix == s.postfix
  {
    if s.Current(ts).Name() == k then s.(pos := Next(ts, s.pos)) else s
  }

  /**
   * `num1 = stack.pop(); num2 = stack.pop(); stack.push(num2 op num1)`:
   * either pop can find the stack empty, and `/` and `%` throw on a zero divisor.
   */
  function ApplyTop(s: State, op: Op): (r: Outcome<State>)
    ensures r.st.pos == s.pos && r.st.postfix == s.postfix
  {
    if |s.stack| == 0 then Thrown(EmptyStack, s)
    else
      var num1 := s.stack[|s.stack| - 1];
      var s1 := s.(stack := s.stack[..|s.stack| - 1]);
      if |s1.stack| == 0 then Thrown(EmptyStack, s1)
      else
        var num2 := s1.stack[|s1.stack| - 1];
        var s2 := s1.(stack := s1.stack[..|s1.stack| - 1]);
        if (op == Over || op == Mod) && num1 == 0 then Thrown(DivisionByZero, s2)
        else Ok(s2.(stack := s2.stack + [Compute(op, num2, num1)]))
  }

  /** `expression -> term more-terms` */
  function ParseExpression(ts: seq<Token>, s: State): (r: Outcome<State>)
    requires s.Valid(ts)
    ensures Follows(ts, s, r.st)
    decreases |ts| - s.pos, 3
  {
    var s1 :- ParseTerm(ts, s);
    ParseMoreTerms(ts, s1)
  }

  /** `more-terms -> + term more-terms | - term more-terms | e` */
  function ParseMoreTerms(ts: seq<Token>, s: State): (r: Outcome<State>)
    requires s.Valid(ts)
    ensures Follows(ts, s, r.st)
    decreases |ts| - s.pos, 2
  {
    var k := s.Current(ts).Name();
    if IsAddKind(k) then
      var s1 :- ParseTerm(ts, MatchToken(ts, s, k));
      MoreTermsRest(ts, s, s1, AddOpOf(k))
    else
      Ok(s)
  }

  function MoreTermsRest(ts: seq<Token>, s0: State, s1: State, op: AddOp): (r: Outcome<State>)
    requires s1.Valid(ts) && s1.pos > s0.pos
    ensures Follows(ts, s1, r.st)
    decreases |ts| - s0.pos, 0
  {
    var s2 :- ApplyTop(s1.(postfix := s1.postfix + OpText(op)), op);
    ParseMoreTerms(ts, s2)
  }

  /** `term -> factor more-factors` */
  function ParseTerm(ts: seq<Token>, s: State): (r: Outcome<State>)
    requires s.Valid(ts)
    ensures Follows(ts, s, r.st)
    decreases |ts| - s.pos, 2
  {
    var s1 :- ParseFactor(ts, s);
    ParseMoreFactors(ts, s1)
  }

  /** `more-factors -> * factor more-factors | / factor ... | % factor ... | e` */
  function ParseMoreFactors(ts: seq<Token>, s: State): (r: Outcome<State>)
    requires s.Valid(ts)
    ensures Follows(ts, s, r.st)
    decreases |ts| - s.pos, 1
  {
    var k := s.Current(ts).Name();
    if IsMulKind(k) then
      var s1 :- ParseFactor(ts, MatchToken(ts, s, k));
      MoreFactorsRest(ts, s, s1, MulOpOf(k))
    else
      Ok(s)
  }

  function MoreFactorsRest(ts: seq<Token>, s0: State, s1: State, op: MulOp): (r: Outcome<State>)
    requires s1.Valid(ts) && s1.pos > s0.pos
    ensures Follows(ts, s1, r.st)
    decreases |ts| - s0.pos, 0
  {
    var s2 :- ApplyTop(s1.(postfix := s1.postfix + OpText(op)), op);
    ParseMoreFactors(ts, s2)
  }

  /**
   * `factor -> ( expression ) | num`. A token named `int` is cast to
   * `IntegerNumber`; any other token only prints an error.
   */
  function ParseFactor(ts: seq<Token>, s: State): (r: Outcome<State>)
    requires s.Valid(ts)
    ensures Follows(ts, s, r.st)
    decreases |ts| - s.pos, 1
  {
    var k := s.Current(ts).Name();
    if k == OpenParenthesis then
      var s1 :- ParseExpression(ts, MatchToken(ts, s, OpenParenthesis));
      Ok(MatchToken(ts, s1, ClosedParenthesis))
    else if k == Int then
      if !s.Current(ts).IntegerNumber? then Thrown(ClassCast, s)
      else
        var n := s.Current(ts).value;
        Ok(MatchToken(ts, PushLiteral(s, n), Int))
    else
      Ok(s)
  }

  /** `stack.push(n)` with the literal appended to the postfix text. */
  function PushLiteral(s: State, n: Int32): State {
    s.(postfix := s.postfix + LiteralText(n), stack := s.stack + [n])
  }

  // The postfix text of a derivation tree.

  function PostfixExpr(e: Expr): string
    decreases e, 1
  {
    PostfixTerm(e.first) + PostfixMoreTerms(e.more)
  }

  function PostfixMoreTerms(m: MoreTerms): string
    decreases m, 1
  {
    match m
    case NoTerms => ""
    case MoreTerm(op, t, rest) => PostfixTerm(t) + OpText(op) + PostfixMoreTerms(rest)
  }

  function PostfixTerm(t: Term): string
    decreases t, 1
  {
    PostfixFactor(t.first) + PostfixMoreFactors(t.more)
  }

  function PostfixMoreFactors(m: MoreFactors): string
    decreases m, 1
  {
    match m
    case NoFactors => ""
    case MoreFactor(op, f, rest) => PostfixFactor(f) + OpText(op) + PostfixMoreFactors(rest)
  }

  function PostfixFactor(f: Factor): string
    decreases f, 1
  {
    match f
    case Paren(e) => PostfixExpr(e)
    case Num(n) => LiteralText(n)
    case _ => ""
  }

  /** The translator object: the Java fields, updated in place by its methods. */
  class PostfixTranslator {
    const tokens: seq<Token>
    var pos: nat
    var stack: seq<Int32>
    var postfix: string

    function AsState(): State
      reads this
    {
      State(pos, stack, postfix)
    }

    ghost predicate Valid()
      reads this
    {
      Terminated(tokens) && pos < |tokens|
    }

    /** The fields after a method returned `c`, in the shape the specification uses. */
    function Report(c: Completion): Outcome<State>
      reads this
    {
      if c.Normal? then Ok(AsState()) else Thrown(c.fault, AsState())
    }

    constructor (lex: seq<Token>)
      requires Terminated(lex)
      ensures Valid() && tokens == lex && AsState() == Start()
    {
      tokens := lex;
      pos := 0;
      stack := [];
      postfix := "";
    }

    /** Parses the expression and returns its postfix text. */
    method Translate() returns (c: Completion, text: string)
      requires Valid()
      modifies this
      ensures Valid()
      ensures Report(c) == ParseExpression(tokens, old(AsState()))
      ensures c.Normal? ==> text == postfix
    {
      text := "";
      c := Expression();
      if c.Normal? {
        text := postfix;
      }
    }

    /** Pops the value the parse left on the stack. */
    method Evaluate() returns (c: Completion, v: Int32)
      requires Valid()
      modifies this`stack
      ensures Valid()
      ensures old(stack) == [] ==> c == Threw(EmptyStack) && stack == []
      ensures old(stack) != [] ==> c == Normal && old(stack) == stack + [v]
    {
      v := 0;
      if stack == [] {
        c := Threw(EmptyStack);
      } else {
        c := Normal;
        v := stack[|stack| - 1];
        stack := stack[..|stack| - 1];
      }
    }

    method Match(k: Kind)
      requires Valid()
      modifies this`pos
      ensures Valid()
      ensures AsState() == MatchToken(tokens, old(AsState()), k)
      ensures tokens[old(pos)].Name() == k ==> pos == Next(tokens, old(pos))
      ensures tokens[old(pos)].Name() != k ==> pos == old(pos)
    {
      if tokens[pos].Name() == k {
        pos := Next(tokens, pos);
      }
    }

    method Pop2Push(op: Op) returns (c: Completion)
      requires Valid()
      modifies this`stack
      ensures Valid()
      ensures Report(c) == ApplyTop(old(AsState()), op)
    {
      c := Normal;
      if stack == [] {
        return Threw(EmptyStack);
      }
      var num1 := stack[|stack| - 1];
      stack := stack[..|stack| - 1];
      if stack == [] {
        return Threw(EmptyStack);
      }
      var num2 := stack[|stack| - 1];
      stack := stack[..|stack| - 1];
      if (op == Over || op == Mod) && num1 == 0 {
        return Threw(DivisionByZero);
      }
      stack := stack + [Compute(op, num2, num1)];
    }

    method Expression() returns (c: Completion)
      requires Valid()
      modifies this
      ensures Valid()
      ensures Report(c) == ParseExpression(tokens, old(AsState()))
      decreases |tokens| - pos, 3
    {
      c := Term();
      if c.Threw? { return; }
      c := MoreTerms();
    }

    method MoreTerms() returns (c: Completion)
      requires Valid()
      modifies this
      ensures Valid()
      ensures Report(c) == ParseMoreTerms(tokens, old(AsState()))
      decreases |tokens| - pos, 2
    {
      c := Normal;
      var k := tokens[pos].Name();
      if IsAddKind(k) {
        var op := AddOpOf(k);
        Match(k);
        c := Term();
        if c.Threw? { return; }
        postfix := postfix + OpText(op);
        c := Pop2Push(op);
        if c.Threw? { return; }
        c := MoreTerms();
      }
    }

    method Term() returns (c: Completion)
      requires Valid()
      modifies this
      ensures Valid()
      ensures Report(c) == ParseTerm(tokens, old(AsState()))
      decreases |tokens| - pos, 2
    {
      c := Factor();
      if c.Threw? { return; }
      c := MoreFactors();
    }

    method MoreFactors() returns (c: Completion)
      requires Valid()
      modifies this
      ensures Valid()
      ensures Report(c) == ParseMoreFactors(tokens, old(AsState()))
      decreases |tokens| - pos, 1
    {
      c := Normal;
      var k := tokens[pos].Name();
      if IsMulKind(k) {
        var op := MulOpOf(k);
        Match(k);
        c := Factor();
        if c.Threw? { return; }
        postfix := postfix + OpText(op);
        c := Pop2Push(op);
        if c.Threw? { return; }
        c := MoreFactors();
      }
    }

    method Factor() returns (c: Completion)
      requires Valid()
      modifies this
      ensures Valid()
      ensures Report(c) == ParseFactor(tokens, old(AsState()))
      decreases |tokens| - pos, 1
    {
      c := Normal;
      var k := tokens[pos].Name();
      if k == OpenParenthesis {
        Match(OpenParenthesis);
        c := Expression();
        if c.Threw? { return; }
        Match(ClosedParenthesis);
      } else if k == Int {
        if !tokens[pos].IntegerNumber? {
          return Threw(ClassCast);
        }
        var n := tokens[pos].value;
        postfix := postfix + LiteralText(n);
        stack := stack + [n];
        Match(Int);
      }
    }
  }
}
