/**
 * The stack-machine front end: a recursive-descent parser for
 *
 *   program     -> void main { declarations instructions }
 *   instruction -> declaration | id = logic-expression ;
 *                | if ( logic-expression ) instruction [ else instruction ]
 *                | while ( logic-expression ) instruction
 *                | do instruction while ( logic-expression ) ;
 *                | print ( id ) ; | { instructions }
 *
 * that, while it parses, fills a symbol table, appends stack-machine
 * instructions, allocates labels for jumps, evaluates every expression on a
 * stack against the values assigned so far, and collects error messages.
 *
 * `State` and the functions over it are the specification, one function per
 * method of the Java class; the class `SyntaxAnalyzer` holds the fields and
 * its methods are proved to have exactly the effect of those functions.
 */
module Frontend {
  import opened JavaInt
  import opened Exceptions
  import opened Tokens
  import opened Arith
  import opened SymbolTables

  /** An intermediate instruction; `Text` gives the line the front end writes for it. */
  datatype Instr =
    | PushInt(n: Int32)
    | PushReal(text: string)
    | Rvalue(name: string)
    | Lvalue(name: string)
    | Assign
    | Arithmetic(op: Op)
    | Relation(text: string)
    | Label(target: nat)          // `label_L`
    | LabelSpaced(target: nat)    // `label L`, written after an `if` without `else`
    | Goto(target: nat)
    | GoFalse(target: nat)        // `goFalse label_L`, written by `if`
    | GoFalseLower(target: nat)   // `gofalse label_L`, written by `while` and `do`
    | PrintId(name: string)
    | Halt
  {
    /** The instruction names a label: as a jump target or as a marker. */
    predicate UsesLabel() {
      Label? || LabelSpaced? || Goto? || GoFalse? || GoFalseLower?
    }

    function Text(): string {
      match this
      case PushInt(n) => "push " + IntText(n)
      case PushReal(t) => "push " + t
      case Rvalue(x) => "rvalue " + x
      case Lvalue(x) => "lvalue " + x
      case Assign => "="
      case Arithmetic(op) => OpSymbol(op)
      case Relation(t) => t
      case Label(l) => "label_" + IntText(l)
      case LabelSpaced(l) => "label " + IntText(l)
      case Goto(l) => "goto label_" + IntText(l)
      case GoFalse(l) => "goFalse label_" + IntText(l)
      case GoFalseLower(l) => "gofalse label_" + IntText(l)
      case PrintId(x) => "print " + x
      case Halt => "halt"
    }
  }

  function OpSymbol(op: Op): string {
    match op
    case Plus => "+"
    case Minus => "-"
    case Times => "*"
    case Over => "/"
    case Mod => "%"
  }

  /**
   * A message appended to the `compile` string. Every message is non-empty,
   * so the string is empty exactly when no message was appended.
   */
  datatype Diagnostic =
    | Expected(kind: Kind)          // from `match`
    | AlreadyDeclared(name: string) // from `addSymbol`
    | NotDeclared(name: string)     // from `addValue`
    | InstructionError              // no instruction starts with the current token
    | RelationalOperatorExpected    // from `relational_operator`

  /**
   * The fields that change while the front end reads the stream: token
   * position, symbol table, assigned values, evaluation stack (top last),
   * instructions, next label, messages.
   */
  datatype State = State(pos: nat, table: SymbolTable, values: map<string, Value>, stack: seq<Value>,
                         code: seq<Instr>, nextLabel: nat, diags: seq<Diagnostic>)
  {
    predicate Valid(ts: seq<Token>) { Terminated(ts) && pos < |ts| }

    function Current(ts: seq<Token>): Token
      requires Valid(ts)
    {
      ts[pos]
    }
  }

  /** What the constructor sets up: the first token current, everything else empty, labels from 0. */
  function Start(): State {
    State(0, map[], map[], [], [], 0, [])
  }

  /**
   * Every step stays inside the stream, never moves backwards, only appends
   * instructions and messages, and never moves the label counter back.
   */
  predicate Follows(ts: seq<Token>, s: State, r: State) {
    && r.Valid(ts) && r.pos >= s.pos
    && s.code <= r.code && s.diags <= r.diags && s.nextLabel <= r.nextLabel
  }

  /** The instructions from index `from` on name no label. */
  predicate NoLabels(code: seq<Instr>, from: nat) {
    forall j | from <= j < |code| :: !code[j].UsesLabel()
  }

  /** An expression step: no symbol, value or label changes, and no label is named. */
  predicate Quiet(s: State, r: State) {
    r.table == s.table && r.values == s.values && r.nextLabel == s.nextLabel && NoLabels(r.code, |s.code|)
  }

  predicate IsRelKind(k: Kind) { LessThan <= k <= NotEquals }

  /** The tokens `instructions()` accepts as the start of an instruction. */
  predicate StartsInstruction(k: Kind) {
    IsTypeName(k) || k == Id || k == If || k == While || k == Do || k == Print || k == OpenCurlyBracket
  }

  /** `code.add(i)` */
  function Emit(s: State, i: Instr): (r: State)
    ensures r.code == s.code + [i]
  {
    s.(code := s.code + [i])
  }

  /** `compile += message` */
  function Complain(s: State, d: Diagnostic): (r: State)
    ensures r.diags == s.diags + [d]
  {
    s.(diags := s.diags + [d])
  }

  /**
   * `match(k)`: consume the current token if its name is `k`; otherwise
   * append an "expected" message and stay.
   */
  function MatchToken(ts: seq<Token>, s: State, k: Kind): (r: State)
    requires s.Valid(ts)
    ensures r.Valid(ts) && r.pos >= s.pos
    ensures r.table == s.table && r.values == s.values && r.stack == s.stack && r.code == s.code
    ensures r.nextLabel == s.nextLabel
    ensures s.Current(ts).Name() == k ==> r.diags == s.diags && r.pos == Next(ts, s.pos)
    ensures s.Current(ts).Name() != k ==> r.diags == s.diags + [Expected(k)] && r.pos == s.pos
  {
    if s.Current(ts).Name() == k then s.(pos := Next(ts, s.pos)) else Complain(s, Expected(k))
  }

  /** `newLabel()`: the current counter, which is then incremented. */
  function TakeLabel(s: State): (r: (nat, State))
    ensures r.0 == s.nextLabel && r.1 == s.(nextLabel := s.nextLabel + 1)
  {
    (s.nextLabel, s.(nextLabel := s.nextLabel + 1))
  }

  /**
   * `addSymbol(id, type)`: an undeclared name is entered with `type`; a
   * declared one keeps its type and an "already declared" message is appended.
   */
  function Declare(s: State, name: string, k: Kind): (r: State)
    ensures r.table == WithSymbol(s.table, name, k)
    ensures name !in s.table ==> r.diags == s.diags
    ensures name in s.table ==> r.diags == s.diags + [AlreadyDeclared(name)]
  {
    if name !in s.table then s.(table := s.table[name := k]) else Complain(s, AlreadyDeclared(name))
  }

  /**
   * `addValue(id, v)`: the value is stored only for a declared name;
   * otherwise a "not declared" message is appended.
   */
  function Store(s: State, name: string, v: Value): (r: State)
    ensures name in s.table ==> r.values == s.values[name := v] && r.diags == s.diags
    ensures name !in s.table ==> r.values == s.values && r.diags == s.diags + [NotDeclared(name)]
  {
    if name in s.table then s.(values := s.values[name := v]) else Complain(s, NotDeclared(name))
  }

  /** A current token that is not `end_program` is not the last one. */
  lemma NotLast(ts: seq<Token>, s: State)
    requires s.Valid(ts) && s.Current(ts).Name() != EndProgram
    ensures s.pos < |ts| - 1
  {
  }

  // Program structure.

  /** `program -> void main { declarations instructions }`, then `halt`. */
  function ParseProgram(ts: seq<Token>, s: State): (r: Outcome<State>)
    requires s.Valid(ts)
    ensures Follows(ts, s, r.st)
    ensures r.Ok? ==> |r.st.code| > 0 && r.st.code[|r.st.code| - 1] == Halt
    decreases |ts| - s.pos, 15
  {
    var s1 := MatchToken(ts, MatchToken(ts, MatchToken(ts, s, Void), KwMain), OpenCurlyBracket);
    var s2 :- ParseDeclarations(ts, s1);
    ProgramBody(ts, s2)
  }

  /** The instructions of a program, its closing bracket and `halt`. */
  function ProgramBody(ts: seq<Token>, s: State): (r: Outcome<State>)
    requires s.Valid(ts)
    ensures Follows(ts, s, r.st)
    ensures r.Ok? ==> |r.st.code| > 0 && r.st.code[|r.st.code| - 1] == Halt
    decreases |ts| - s.pos, 14
  {
    var s1 :- ParseInstructions(ts, s);
    Ok(Emit(MatchToken(ts, s1, ClosedCurlyBracket), Halt))
  }

  /** `declarations -> declaration declarations | e`, read while the current token is a type. */
  function ParseDeclarations(ts: seq<Token>, s: State): (r: Outcome<State>)
    requires s.Valid(ts)
    ensures Follows(ts, s, r.st)
    ensures !IsTypeName(s.Current(ts).Name()) ==> r == Ok(s)
    ensures r.Ok? ==> !IsTypeName(r.st.Current(ts).Name())
    decreases |ts| - s.pos, 13
  {
    if IsTypeName(s.Current(ts).Name()) then
      var s1 :- ParseDeclaration(ts, s);
      ParseDeclarations(ts, s1)
    else
      Ok(s)
  }

  /** `declaration -> type identifiers ;` */
  function ParseDeclaration(ts: seq<Token>, s: State): (r: Outcome<State>)
    requires s.Valid(ts)
    ensures Follows(ts, s, r.st)
    ensures IsTypeName(s.Current(ts).Name()) ==> r.st.pos > s.pos
    decreases |ts| - s.pos, 11
  {
    var (k, s1) := ParseType(ts, s);
    var s2 :- ParseIdentifiers(ts, s1, k);
    Ok(MatchToken(ts, s2, Semicolon))
  }

  /** `type -> int | float | boolean`: the current token's name, consumed when it is a type. */
  function ParseType(ts: seq<Token>, s: State): (r: (Kind, State))
    requires s.Valid(ts)
    ensures r.0 == s.Current(ts).Name()
    ensures IsTypeName(r.0) ==> r.1 == s.(pos := s.pos + 1)
    ensures !IsTypeName(r.0) ==> r.1 == s
  {
    var k := s.Current(ts).Name();
    if IsTypeName(k) then (k, MatchToken(ts, s, k)) else (k, s)
  }

  /**
   * `identifiers -> id optional-assignment more-identifiers`: the name is
   * entered before its initializer is parsed.
   */
  function ParseIdentifiers(ts: seq<Token>, s: State, k: Kind): (r: Outcome<State>)
    requires s.Valid(ts)
    ensures Follows(ts, s, r.st)
    ensures Enters(s.table, r.st.table, k)
    decreases |ts| - s.pos, 10
  {
    if s.Current(ts).Name() == Id then
      if !s.Current(ts).Identifier? then Thrown(ClassCast, s)
      else
        var x := s.Current(ts).lexeme;
        var s1 := MatchToken(ts, Declare(s, x, k), Id);
        var s2 :- ParseOptionalAssignment(ts, s1, x);
        var r := ParseMoreIdentifiers(ts, s2, k);
        EntersStep(s.table, s2.table, r.st.table, x, k);
        r
    else
      Ok(s)
  }

  /**
   * `more-identifiers -> , id optional-assignment more-identifiers | e`:
   * the token after the comma is cast to `Identifier` unchecked.
   */
  function ParseMoreIdentifiers(ts: seq<Token>, s: State, k: Kind): (r: Outcome<State>)
    requires s.Valid(ts)
    ensures Follows(ts, s, r.st)
    ensures Enters(s.table, r.st.table, k)
    ensures s.Current(ts).Name() != Comma ==> r == Ok(s)
    decreases |ts| - s.pos, 9
  {
    if s.Current(ts).Name() == Comma then
      NotLast(ts, s);
      var s1 := MatchToken(ts, s, Comma);
      if !s1.Current(ts).Identifier? then Thrown(ClassCast, s1)
      else
        var x := s1.Current(ts).lexeme;
        var s2 := MatchToken(ts, Declare(s1, x, k), Id);
        var s3 :- ParseOptionalAssignment(ts, s2, x);
        var r := ParseMoreIdentifiers(ts, s3, k);
        EntersStep(s.table, s3.table, r.st.table, x, k);
        r
    else
      Ok(s)
  }

  /**
   * `optional-assignment -> = logic-expression | e`: writes `lvalue x`, the
   * expression's code and `=`, then pops the value (whatever it is) into `x`.
   */
  function ParseOptionalAssignment(ts: seq<Token>, s: State, x: string): (r: Outcome<State>)
    requires s.Valid(ts)
    ensures Follows(ts, s, r.st)
    ensures r.st.table == s.table && r.st.nextLabel == s.nextLabel
    ensures s.Current(ts).Name() != Assignment ==> r == Ok(s)
    decreases |ts| - s.pos, 9
  {
    if s.Current(ts).Name() == Assignment then
      var s1 := MatchToken(ts, Emit(s, Lvalue(x)), Assignment);
      var s2 :- ParseLogicExpression(ts, s1);
      var s3 := Emit(s2, Assign);
      if s3.stack == [] then Thrown(EmptyStack, s3)
      else
        var v := s3.stack[|s3.stack| - 1];
        Ok(Store(s3.(stack := s3.stack[..|s3.stack| - 1]), x, v))
    else
      Ok(s)
  }

  /** `instructions -> instruction instructions | e`, read while an instruction can start. */
  function ParseInstructions(ts: seq<Token>, s: State): (r: Outcome<State>)
    requires s.Valid(ts)
    ensures Follows(ts, s, r.st)
    ensures !StartsInstruction(s.Current(ts).Name()) ==> r == Ok(s)
    ensures r.Ok? ==> !StartsInstruction(r.st.Current(ts).Name())
    decreases |ts| - s.pos, 13
  {
    if StartsInstruction(s.Current(ts).Name()) then
      var s1 :- ParseInstruction(ts, s);
      ParseInstructions(ts, s1)
    else
      Ok(s)
  }

  /** One instruction, chosen by the current token; any other token only adds a message. */
  function ParseInstruction(ts: seq<Token>, s: State): (r: Outcome<State>)
    requires s.Valid(ts)
    ensures Follows(ts, s, r.st)
    ensures StartsInstruction(s.Current(ts).Name()) && r.Ok? ==> r.st.pos > s.pos
    ensures !StartsInstruction(s.Current(ts).Name()) ==> r == Ok(Complain(s, InstructionError))
    decreases |ts| - s.pos, 12
  {
    var k := s.Current(ts).Name();
    if IsTypeName(k) then ParseDeclaration(ts, s)
    else if k == Id then ParseAssignment(ts, s)
    else if k == If then ParseIf(ts, s)
    else if k == While then ParseWhile(ts, s)
    else if k == Do then ParseDo(ts, s)
    else if k == Print then ParsePrint(ts, s)
    else if k == OpenCurlyBracket then
      NotLast(ts, s);
      var s1 :- ParseInstructions(ts, MatchToken(ts, s, OpenCurlyBracket));
      Ok(MatchToken(ts, s1, ClosedCurlyBracket))
    else
      Ok(Complain(s, InstructionError))
  }

  /**
   * `id = logic-expression ;`: writes `lvalue id`, the expression's code and
   * `=`; the popped value must be an `int` and is stored through `addValue`.
   */
  function ParseAssignment(ts: seq<Token>, s: State): (r: Outcome<State>)
    requires s.Valid(ts) && s.Current(ts).Name() == Id
    ensures Follows(ts, s, r.st) && (r.Ok? ==> r.st.pos > s.pos)
    decreases |ts| - s.pos, 11
  {
    if !s.Current(ts).Identifier? then Thrown(ClassCast, s)
    else
      NotLast(ts, s);
      var x := s.Current(ts).lexeme;
      var s1 := MatchToken(ts, Emit(MatchToken(ts, s, Id), Lvalue(x)), Assignment);
      var s2 :- ParseLogicExpression(ts, s1);
      AssignmentEnd(ts, s, s2, x)
  }

  /** The end of an assignment: pop, cast to `int`, store, write `=`, match `;`. */
  function AssignmentEnd(ts: seq<Token>, s0: State, s: State, x: string): (r: Outcome<State>)
    requires s.Valid(ts) && s.pos > s0.pos && Follows(ts, s0, s)
    ensures Follows(ts, s0, r.st) && r.st.pos > s0.pos
  {
    if s.stack == [] then Thrown(EmptyStack, s)
    else
      var v := s.stack[|s.stack| - 1];
      var s1 := s.(stack := s.stack[..|s.stack| - 1]);
      if !v.IntV? then Thrown(ClassCast, s1)
      else Ok(MatchToken(ts, Emit(Store(s1, x, v), Assign), Semicolon))
  }

  /**
   * `if ( c ) S` writes `c; goFalse label_L; S; label L`, and
   * `if ( c ) S else T` writes `c; goFalse label_L; S; goto label_M; label_L; T; label_M`.
   */
  function ParseIf(ts: seq<Token>, s: State): (r: Outcome<State>)
    requires s.Valid(ts) && s.Current(ts).Name() == If
    ensures Follows(ts, s, r.st) && r.st.pos > s.pos
    decreases |ts| - s.pos, 11
  {
    NotLast(ts, s);
    var s1 := MatchToken(ts, MatchToken(ts, s, If), OpenParenthesis);
    var s2 :- ParseLogicExpression(ts, s1);
    var (out, s3) := TakeLabel(MatchToken(ts, s2, ClosedParenthesis));
    var s4 :- ParseInstruction(ts, Emit(s3, GoFalse(out)));
    IfEnd(ts, s, s4, out)
  }

  /** The end of an `if`, after its "then" branch: an optional `else` branch and the labels. */
  function IfEnd(ts: seq<Token>, s0: State, s: State, out: nat): (r: Outcome<State>)
    requires s.Valid(ts) && s.pos > s0.pos && Follows(ts, s0, s)
    ensures Follows(ts, s0, r.st) && r.st.pos > s0.pos
    decreases |ts| - s0.pos, 10
  {
    if s.Current(ts).Name() == Else then
      NotLast(ts, s);
      var (other, s1) := TakeLabel(s);
      var s2 :- ParseInstruction(ts, MatchToken(ts, Emit(Emit(s1, Goto(other)), Label(out)), Else));
      Ok(Emit(s2, Label(other)))
    else
      Ok(Emit(s, LabelSpaced(out)))
  }

  /** `while ( c ) S` writes `label_T; c; gofalse label_O; S; goto label_T; label_O`. */
  function ParseWhile(ts: seq<Token>, s: State): (r: Outcome<State>)
    requires s.Valid(ts) && s.Current(ts).Name() == While
    ensures Follows(ts, s, r.st) && r.st.pos > s.pos
    decreases |ts| - s.pos, 11
  {
    NotLast(ts, s);
    var (test, s1) := TakeLabel(s);
    var s2 := Emit(MatchToken(ts, MatchToken(ts, s1, While), OpenParenthesis), Label(test));
    var s3 :- ParseLogicExpression(ts, s2);
    var (out, s4) := TakeLabel(s3);
    var s5 :- ParseInstruction(ts, MatchToken(ts, Emit(s4, GoFalseLower(out)), ClosedParenthesis));
    Ok(Emit(Emit(s5, Goto(test)), Label(out)))
  }

  /** `do S while ( c ) ;` writes `label_T; S; c; gofalse label_O; goto label_T; label_O`. */
  function ParseDo(ts: seq<Token>, s: State): (r: Outcome<State>)
    requires s.Valid(ts) && s.Current(ts).Name() == Do
    ensures Follows(ts, s, r.st) && r.st.pos > s.pos
    decreases |ts| - s.pos, 11
  {
    NotLast(ts, s);
    var (test, s1) := TakeLabel(MatchToken(ts, s, Do));
    var s2 :- ParseInstruction(ts, Emit(s1, Label(test)));
    DoEnd(ts, s, s2, test)
  }

  /** The end of a `do` loop, after its body: `while ( c ) ;` and the jumps. */
  function DoEnd(ts: seq<Token>, s0: State, s: State, test: nat): (r: Outcome<State>)
    requires s.Valid(ts) && s.pos > s0.pos && Follows(ts, s0, s)
    ensures Follows(ts, s0, r.st) && r.st.pos > s0.pos
    decreases |ts| - s0.pos, 10
  {
    var s1 :- ParseLogicExpression(ts, MatchToken(ts, MatchToken(ts, s, While), OpenParenthesis));
    var (out, s2) := TakeLabel(MatchToken(ts, s1, ClosedParenthesis));
    Ok(MatchToken(ts, Emit(Emit(Emit(s2, GoFalseLower(out)), Goto(test)), Label(out)), Semicolon))
  }

  /** `print ( id ) ;` writes `print id`; the token after `(` is cast to `Identifier` unchecked. */
  function ParsePrint(ts: seq<Token>, s: State): (r: Outcome<State>)
    requires s.Valid(ts) && s.Current(ts).Name() == Print
    ensures Follows(ts, s, r.st) && r.st.pos > s.pos
    ensures Quiet(s, r.st) && r.st.stack == s.stack
    decreases |ts| - s.pos, 11
  {
    NotLast(ts, s);
    var s1 := MatchToken(ts, MatchToken(ts, s, Print), OpenParenthesis);
    if !s1.Current(ts).Identifier? then Thrown(ClassCast, s1)
    else
      var s2 := Emit(s1, PrintId(s1.Current(ts).lexeme));
      Ok(MatchToken(ts, MatchToken(ts, MatchToken(ts, s2, Id), ClosedParenthesis), Semicolon))
  }

  // The logic layer: parsed, but it writes no instruction and computes nothing.

  /** `logic-expression -> logic-term more-logic-terms` */
  function ParseLogicExpression(ts: seq<Token>, s: State): (r: Outcome<State>)
    requires s.Valid(ts)
    ensures Follows(ts, s, r.st) && Quiet(s, r.st)
    decreases |ts| - s.pos, 8
  {
    var s1 :- ParseLogicTerm(ts, s);
    ParseMoreLogicTerms(ts, s1)
  }

  /** `more-logic-terms -> || logic-term more-logic-terms | e` */
  function ParseMoreLogicTerms(ts: seq<Token>, s: State): (r: Outcome<State>)
    requires s.Valid(ts)
    ensures Follows(ts, s, r.st) && Quiet(s, r.st)
    ensures s.Current(ts).Name() != Or ==> r == Ok(s)
    decreases |ts| - s.pos, 7
  {
    if s.Current(ts).Name() == Or then
      NotLast(ts, s);
      var s1 :- ParseLogicTerm(ts, MatchToken(ts, s, Or));
      ParseMoreLogicTerms(ts, s1)
    else
      Ok(s)
  }

  /** `logic-term -> logic-factor more-logic-factors` */
  function ParseLogicTerm(ts: seq<Token>, s: State): (r: Outcome<State>)
    requires s.Valid(ts)
    ensures Follows(ts, s, r.st) && Quiet(s, r.st)
    decreases |ts| - s.pos, 6
  {
    var s1 :- ParseLogicFactor(ts, s);
    ParseMoreLogicFactors(ts, s1)
  }

  /** `more-logic-factors -> && logic-factor more-logic-factors | e` */
  function ParseMoreLogicFactors(ts: seq<Token>, s: State): (r: Outcome<State>)
    requires s.Valid(ts)
    ensures Follows(ts, s, r.st) && Quiet(s, r.st)
    ensures s.Current(ts).Name() != And ==> r == Ok(s)
    decreases |ts| - s.pos, 5
  {
    if s.Current(ts).Name() == And then
      NotLast(ts, s);
      var s1 :- ParseLogicFactor(ts, MatchToken(ts, s, And));
      ParseMoreLogicFactors(ts, s1)
    else
      Ok(s)
  }

  /** `logic-factor -> ! logic-factor | true | false | relational-expression` */
  function ParseLogicFactor(ts: seq<Token>, s: State): (r: Outcome<State>)
    requires s.Valid(ts)
    ensures Follows(ts, s, r.st) && Quiet(s, r.st)
    ensures s.Current(ts).Name() in {True, False} ==> r == Ok(s.(pos := s.pos + 1))
    decreases |ts| - s.pos, 5
  {
    var k := s.Current(ts).Name();
    if k == Not then
      NotLast(ts, s);
      ParseLogicFactor(ts, MatchToken(ts, s, Not))
    else if k == True || k == False then
      NotLast(ts, s);
      Ok(MatchToken(ts, s, k))
    else ParseRelational(ts, s)
  }

  /**
   * `relational-expression -> expression [relational-operator expression]`:
   * the operator is written after both operands, and both operand values
   * stay on the stack.
   */
  function ParseRelational(ts: seq<Token>, s: State): (r: Outcome<State>)
    requires s.Valid(ts)
    ensures Follows(ts, s, r.st) && Quiet(s, r.st)
    decreases |ts| - s.pos, 4
  {
    var s1 :- ParseExpression(ts, s);
    if IsRelKind(s1.Current(ts).Name()) then
      var (text, s2) := ParseRelationalOperator(ts, s1);
      var s3 :- ParseExpression(ts, s2);
      Ok(Emit(s3, Relation(text)))
    else
      Ok(s1)
  }

  /**
   * `relational-operator`: `<`, `<=`, `>`, `>=` are matched by name. The
   * `==` and `!=` alternatives compare the token object itself with a string,
   * which is never equal, so for them the message is appended, nothing is
   * consumed, and the operator text is empty.
   */
  function ParseRelationalOperator(ts: seq<Token>, s: State): (r: (string, State))
    requires s.Valid(ts)
    ensures Follows(ts, s, r.1) && Quiet(s, r.1) && r.1.code == s.code && r.1.stack == s.stack
    ensures s.Current(ts).Name() == Equals || s.Current(ts).Name() == NotEquals ==>
              r == ("", Complain(s, RelationalOperatorExpected))
  {
    var k := s.Current(ts).Name();
    if k == LessThan then ("<", MatchToken(ts, s, k))
    else if k == LessEquals then ("<=", MatchToken(ts, s, k))
    else if k == GreaterThan then (">", MatchToken(ts, s, k))
    else if k == GreaterEquals then (">=", MatchToken(ts, s, k))
    else ("", Complain(s, RelationalOperatorExpected))
  }

  // Arithmetic: postfix code, evaluated on the stack as it is parsed.

  /** `expression -> term more-terms` */
  function ParseExpression(ts: seq<Token>, s: State): (r: Outcome<State>)
    requires s.Valid(ts)
    ensures Follows(ts, s, r.st) && Quiet(s, r.st)
    decreases |ts| - s.pos, 3
  {
    var s1 :- ParseTerm(ts, s);
    ParseMoreTerms(ts, s1)
  }

  /** `more-terms -> + term more-terms | - term more-terms | e` */
  function ParseMoreTerms(ts: seq<Token>, s: State): (r: Outcome<State>)
    requires s.Valid(ts)
    ensures Follows(ts, s, r.st) && Quiet(s, r.st)
    decreases |ts| - s.pos, 2
  {
    var k := s.Current(ts).Name();
    if IsAddKind(k) then
      NotLast(ts, s);
      var s1 :- ParseTerm(ts, MatchToken(ts, s, k));
      MoreTermsRest(ts, s, s1, AddOpOf(k))
    else
      Ok(s)
  }

  function MoreTermsRest(ts: seq<Token>, s0: State, s1: State, op: AddOp): (r: Outcome<State>)
    requires s1.Valid(ts) && s1.pos > s0.pos
    ensures Follows(ts, s1, r.st) && Quiet(s1, r.st)
    decreases |ts| - s0.pos, 0
  {
    var s2 :- ApplyTop(Emit(s1, Arithmetic(op)), op);
    ParseMoreTerms(ts, s2)
  }

  /** `term -> factor more-factors` */
  function ParseTerm(ts: seq<Token>, s: State): (r: Outcome<State>)
    requires s.Valid(ts)
    ensures Follows(ts, s, r.st) && Quiet(s, r.st)
    decreases |ts| - s.pos, 2
  {
    var s1 :- ParseFactor(ts, s);
    ParseMoreFactors(ts, s1)
  }

  /** `more-factors -> * factor more-factors | / factor ... | % factor ... | e` */
  function ParseMoreFactors(ts: seq<Token>, s: State): (r: Outcome<State>)
    requires s.Valid(ts)
    ensures Follows(ts, s, r.st) && Quiet(s, r.st)
    decreases |ts| - s.pos, 1
  {
    var k := s.Current(ts).Name();
    if IsMulKind(k) then
      NotLast(ts, s);
      var s1 :- ParseFactor(ts, MatchToken(ts, s, k));
      MoreFactorsRest(ts, s, s1, MulOpOf(k))
    else
      Ok(s)
  }

  /** After a `%`, the remainder is also written as a `push`. */
  function MoreFactorsRest(ts: seq<Token>, s0: State, s1: State, op: MulOp): (r: Outcome<State>)
    requires s1.Valid(ts) && s1.pos > s0.pos
    ensures Follows(ts, s1, r.st) && Quiet(s1, r.st)
    decreases |ts| - s0.pos, 0
  {
    var s2 :- ApplyTop(Emit(s1, Arithmetic(op)), op);
    var s3 := if op == Mod then Emit(s2, PushInt(s2.stack[|s2.stack| - 1].i)) else s2;
    ParseMoreFactors(ts, s3)
  }

  /**
   * `factor -> ( expression ) | id | int | float`. An identifier's value is
   * `(int) values.get(name)`; a literal is pushed as it is.
   */
  function ParseFactor(ts: seq<Token>, s: State): (r: Outcome<State>)
    requires s.Valid(ts)
    ensures Follows(ts, s, r.st) && Quiet(s, r.st)
    decreases |ts| - s.pos, 1
  {
    var k := s.Current(ts).Name();
    var t := s.Current(ts);
    if k == OpenParenthesis then
      NotLast(ts, s);
      var s1 :- ParseExpression(ts, MatchToken(ts, s, OpenParenthesis));
      Ok(MatchToken(ts, s1, ClosedParenthesis))
    else if k == Id then
      if !t.Identifier? then Thrown(ClassCast, s)
      else if t.lexeme !in s.values then Thrown(NullUnboxing, s)
      else if !s.values[t.lexeme].IntV? then Thrown(ClassCast, s)
      else
        var s1 := MatchToken(ts, s, Id);
        Ok(Emit(s1.(stack := s1.stack + [s.values[t.lexeme]]), Rvalue(t.lexeme)))
    else if k == Int then
      if !t.IntegerNumber? then Thrown(ClassCast, s)
      else Ok(MatchToken(ts, Emit(s.(stack := s.stack + [IntV(t.value)]), PushInt(t.value)), Int))
    else if k == Float then
      if !t.RealNumber? then Thrown(ClassCast, s)
      else Ok(MatchToken(ts, Emit(s.(stack := s.stack + [RealV(t.text)]), PushReal(t.text)), Float))
    else
      Ok(s)
  }

  /**
   * `num1 = (int) stack.pop(); num2 = (int) stack.pop(); stack.push(num2 op num1)`:
   * either pop can find the stack empty, either cast can meet a `Double`, and
   * `/` and `%` throw on a zero divisor.
   */
  function ApplyTop(s: State, op: Op): (r: Outcome<State>)
    ensures r.st.(stack := s.stack) == s
    ensures r.Ok? ==> |r.st.stack| > 0 && r.st.stack[|r.st.stack| - 1].IntV?
  {
    if s.stack == [] then Thrown(EmptyStack, s)
    else
      var num1 := s.stack[|s.stack| - 1];
      var s1 := s.(stack := s.stack[..|s.stack| - 1]);
      if !num1.IntV? then Thrown(ClassCast, s1)
      else if s1.stack == [] then Thrown(EmptyStack, s1)
      else
        var num2 := s1.stack[|s1.stack| - 1];
        var s2 := s1.(stack := s1.stack[..|s1.stack| - 1]);
        if !num2.IntV? then Thrown(ClassCast, s2)
        else if (op == Over || op == Mod) && num1.i == 0 then Thrown(DivisionByZero, s2)
        else Ok(s2.(stack := s2.stack + [IntV(Compute(op, num2.i, num1.i))]))
  }

  /** `intermediateCode()`: every instruction's line followed by a line break, in order. */
  function CodeText(code: seq<Instr>): string {
    if code == [] then ""
    else CodeText(code[..|code| - 1]) + code[|code| - 1].Text() + "\n"
  }

  /** The front-end object: the Java fields, updated in place by its methods. */
  class SyntaxAnalyzer {
    const tokens: seq<Token>
    var pos: nat
    var table: SymbolTable
    var values: map<string, Value>
    var stack: seq<Value>
    var code: seq<Instr>
    var nextLabel: nat
    var diags: seq<Diagnostic>

    function AsState(): State
      reads this
    {
      State(pos, table, values, stack, code, nextLabel, diags)
    }

    ghost predicate Valid()
      reads this
    {
      Terminated(tokens) && pos < |tokens|
    }

    /** The fields after a method returned `c`, in the shape the specification uses. */
    function Report(c: Completion): Outcome<State>
      reads this
    {
      if c.Normal? then Ok(AsState()) else Thrown(c.fault, AsState())
    }

    constructor (lex: seq<Token>)
      requires Terminated(lex)
      ensures Valid() && tokens == lex && AsState() == Start()
    {
      tokens := lex;
      pos := 0;
      table := map[];
      values := map[];
      stack := [];
      code := [];
      nextLabel := 0;
      diags := [];
    }

    /** `compile()`: parses the program; it succeeds when no message was appended. */
    method Compile() returns (c: Completion, ok: bool)
      requires Valid()
      modifies this
      ensures Valid()
      ensures Report(c) == ParseProgram(tokens, old(AsState()))
      ensures ok <==> c.Normal? && diags == []
    {
      c := Program();
      ok := c.Normal? && diags == [];
    }

    /** `intermediateCode()` */
    method IntermediateCode() returns (text: string)
      ensures text == CodeText(code)
    {
      text := "";
      var i := 0;
      while i < |code|
        invariant 0 <= i <= |code|
        invariant text == CodeText(code[..i])
      {
        assert code[..i + 1][..i] == code[..i];
        text := text + code[i].Text() + "\n";
        i := i + 1;
      }
      assert code[..i] == code;
    }

    /** `symbolTable()`, with the table's entries enumerated in the order the caller supplies. */
    method SymbolTableText(order: seq<string>) returns (text: string)
      requires Enumerates(order, table)
      ensures text == Listing(order, table)
    {
      text := ListingText(order, table);
    }

    /** `newLabel()` */
    method NewLabel() returns (l: nat)
      modifies this`nextLabel
      ensures (l, AsState()) == TakeLabel(old(AsState()))
    {
      l := nextLabel;
      nextLabel := nextLabel + 1;
    }

    method Program() returns (c: Completion)
      requires Valid()
      modifies this
      ensures Valid()
      ensures Report(c) == ParseProgram(tokens, old(AsState()))
      decreases |tokens| - pos, 15
    {
      Match(Void);
      Match(KwMain);
      Match(OpenCurlyBracket);
      c := Declarations();
      if c.Threw? { return; }
      c := Instructions();
      if c.Threw? { return; }
      Match(ClosedCurlyBracket);
      code := code + [Halt];
      c := Normal;
    }

    method Declarations() returns (c: Completion)
      requires Valid()
      modifies this
      ensures Valid()
      ensures Report(c) == ParseDeclarations(tokens, old(AsState()))
      decreases |tokens| - pos, 13
    {
      c := Normal;
      if IsTypeName(tokens[pos].Name()) {
        c := Declaration();
        if c.Threw? { return; }
        c := Declarations();
      }
    }

    method Declaration() returns (c: Completion)
      requires Valid()
      modifies this
      ensures Valid()
      ensures Report(c) == ParseDeclaration(tokens, old(AsState()))
      decreases |tokens| - pos, 11
    {
      var k := Type();
      c := Identifiers(k);
      if c.Threw? { return; }
      Match(Semicolon);
      c := Normal;
    }

    method Type() returns (k: Kind)
      requires Valid()
      modifies this`pos, this`diags
      ensures Valid()
      ensures (k, AsState()) == ParseType(tokens, old(AsState()))
    {
      k := tokens[pos].Name();
      if k == Int {
        Match(Int);
      } else if k == Float {
        Match(Float);
      } else if k == Boolean {
        Match(Boolean);
      }
    }

    method Identifiers(k: Kind) returns (c: Completion)
      requires Valid()
      modifies this
      ensures Valid()
      ensures Report(c) == ParseIdentifiers(tokens, old(AsState()), k)
      decreases |tokens| - pos, 10
    {
      c := Normal;
      if tokens[pos].Name() == Id {
        if !tokens[pos].Identifier? {
          return Threw(ClassCast);
        }
        var x := tokens[pos].lexeme;
        AddSymbol(x, k);
        Match(Id);
        c := OptionalAssignment(x);
        if c.Threw? { return; }
        c := MoreIdentifiers(k);
      }
    }

    method MoreIdentifiers(k: Kind) returns (c: Completion)
      requires Valid()
      modifies this
      ensures Valid()
      ensures Report(c) == ParseMoreIdentifiers(tokens, old(AsState()), k)
      decreases |tokens| - pos, 9
    {
      c := Normal;
      if tokens[pos].Name() == Comma {
        NotLast(tokens, AsState());
        Match(Comma);
        if !tokens[pos].Identifier? {
          return Threw(ClassCast);
        }
        var x := tokens[pos].lexeme;
        AddSymbol(x, k);
        Match(Id);
        c := OptionalAssignment(x);
        if c.Threw? { return; }
        c := MoreIdentifiers(k);
      }
    }

    method OptionalAssignment(x: string) returns (c: Completion)
      requires Valid()
      modifies this
      ensures Valid()
      ensures Report(c) == ParseOptionalAssignment(tokens, old(AsState()), x)
      decreases |tokens| - pos, 9
    {
      c := Normal;
      if tokens[pos].Name() == Assignment {
        code := code + [Lvalue(x)];
        Match(Assignment);
        c := LogicExpression();
        if c.Threw? { return; }
        code := code + [Assign];
        if stack == [] {
          return Threw(EmptyStack);
        }
        var a := stack[|stack| - 1];
        stack := stack[..|stack| - 1];
        AddValue(x, a);
      }
    }

    method Instructions() returns (c: Completion)
      requires Valid()
      modifies this
      ensures Valid()
      ensures Report(c) == ParseInstructions(tokens, old(AsState()))
      decreases |tokens| - pos, 13
    {
      c := Normal;
      if StartsInstruction(tokens[pos].Name()) {
        c := Instruction();
        if c.Threw? { return; }
        c := Instructions();
      }
    }

    /** `instruction()`: each alternative of the Java method is a method of its own here. */
    method Instruction() returns (c: Completion)
      requires Valid()
      modifies this
      ensures Valid()
      ensures Report(c) == ParseInstruction(tokens, old(AsState()))
      decreases |tokens| - pos, 12
    {
      c := Normal;
      var k := tokens[pos].Name();
      if IsTypeName(k) {
        c := Declaration();
      } else if k == Id {
        c := AssignInstruction();
      } else if k == If {
        c := IfInstruction();
      } else if k == While {
        c := WhileInstruction();
      } else if k == Do {
        c := DoInstruction();
      } else if k == Print {
        c := PrintInstruction();
      } else if k == OpenCurlyBracket {
        NotLast(tokens, AsState());
        Match(OpenCurlyBracket);
        c := Instructions();
        if c.Threw? { return; }
        Match(ClosedCurlyBracket);
      } else {
        diags := diags + [InstructionError];
      }
    }

    method AssignInstruction() returns (c: Completion)
      requires Valid() && tokens[pos].Name() == Id
      modifies this
      ensures Valid()
      ensures Report(c) == ParseAssignment(tokens, old(AsState()))
      decreases |tokens| - pos, 11
    {
      c := Normal;
      if !tokens[pos].Identifier? {
        return Threw(ClassCast);
      }
      NotLast(tokens, AsState());
      ghost var s0 := AsState();
      var x := tokens[pos].lexeme;
      Match(Id);
      code := code + [Lvalue(x)];
      Match(Assignment);
      c := LogicExpression();
      if c.Threw? { return; }
      c := FinishAssignment(s0, x);
    }

    method FinishAssignment(ghost s0: State, x: string) returns (c: Completion)
      requires Valid() && pos > s0.pos && Follows(tokens, s0, AsState())
      modifies this
      ensures Valid()
      ensures Report(c) == AssignmentEnd(tokens, s0, old(AsState()), x)
    {
      c := Normal;
      if stack == [] {
        return Threw(EmptyStack);
      }
      var v := stack[|stack| - 1];
      stack := stack[..|stack| - 1];
      if !v.IntV? {
        return Threw(ClassCast);
      }
      AddValue(x, v);
      code := code + [Assign];
      Match(Semicolon);
    }

    method IfInstruction() returns (c: Completion)
      requires Valid() && tokens[pos].Name() == If
      modifies this
      ensures Valid()
      ensures Report(c) == ParseIf(tokens, old(AsState()))
      decreases |tokens| - pos, 11
    {
      NotLast(tokens, AsState());
      Match(If);
      Match(OpenParenthesis);
      c := LogicExpression();
      if c.Threw? { return; }
      Match(ClosedParenthesis);
      var out := NewLabel();
      code := code + [GoFalse(out)];
      c := Instruction();
      if c.Threw? { return; }
      if tokens[pos].Name() == Else {
        var other := NewLabel();
        code := code + [Goto(other)];
        code := code + [Label(out)];
        Match(Else);
        c := Instruction();
        if c.Threw? { return; }
        code := code + [Label(other)];
      } else {
        code := code + [LabelSpaced(out)];
      }
      c := Normal;
    }

    method WhileInstruction() returns (c: Completion)
      requires Valid() && tokens[pos].Name() == While
      modifies this
      ensures Valid()
      ensures Report(c) == ParseWhile(tokens, old(AsState()))
      decreases |tokens| - pos, 11
    {
      NotLast(tokens, AsState());
      var test := NewLabel();
      Match(While);
      Match(OpenParenthesis);
      code := code + [Label(test)];
      c := LogicExpression();
      if c.Threw? { return; }
      var out := NewLabel();
      code := code + [GoFalseLower(out)];
      Match(ClosedParenthesis);
      c := Instruction();
      if c.Threw? { return; }
      code := code + [Goto(test)];
      code := code + [Label(out)];
      c := Normal;
    }

    method DoInstruction() returns (c: Completion)
      requires Valid() && tokens[pos].Name() == Do
      modifies this
      ensures Valid()
      ensures Report(c) == ParseDo(tokens, old(AsState()))
      decreases |tokens| - pos, 11
    {
      NotLast(tokens, AsState());
      Match(Do);
      var test := NewLabel();
      code := code + [Label(test)];
      c := Instruction();
      if c.Threw? { return; }
      Match(While);
      Match(OpenParenthesis);
      c := LogicExpression();
      if c.Threw? { return; }
      Match(ClosedParenthesis);
      var out := NewLabel();
      code := code + [GoFalseLower(out)];
      code := code + [Goto(test)];
      code := code + [Label(out)];
      Match(Semicolon);
      c := Normal;
    }

    method PrintInstruction() returns (c: Completion)
      requires Valid() && tokens[pos].Name() == Print
      modifies this
      ensures Valid()
      ensures Report(c) == ParsePrint(tokens, old(AsState()))
      decreases |tokens| - pos, 11
    {
      NotLast(tokens, AsState());
      Match(Print);
      Match(OpenParenthesis);
      if !tokens[pos].Identifier? {
        return Threw(ClassCast);
      }
      code := code + [PrintId(tokens[pos].lexeme)];
      Match(Id);
      Match(ClosedParenthesis);
      Match(Semicolon);
      c := Normal;
    }

    method LogicExpression() returns (c: Completion)
      requires Valid()
      modifies this
      ensures Valid()
      ensures Report(c) == ParseLogicExpression(tokens, old(AsState()))
      decreases |tokens| - pos, 8
    {
      c := LogicTerm();
      if c.Threw? { return; }
      c := MoreLogicTerms();
    }

    method MoreLogicTerms() returns (c: Completion)
      requires Valid()
      modifies this
      ensures Valid()
      ensures Report(c) == ParseMoreLogicTerms(tokens, old(AsState()))
      decreases |tokens| - pos, 7
    {
      c := Normal;
      if tokens[pos].Name() == Or {
        NotLast(tokens, AsState());
        Match(Or);
        c := LogicTerm();
        if c.Threw? { return; }
        c := MoreLogicTerms();
      }
    }

    method LogicTerm() returns (c: Completion)
      requires Valid()
      modifies this
      ensures Valid()
      ensures Report(c) == ParseLogicTerm(tokens, old(AsState()))
      decreases |tokens| - pos, 6
    {
      c := LogicFactor();
      if c.Threw? { return; }
      c := MoreLogicFactors();
    }

    method MoreLogicFactors() returns (c: Completion)
      requires Valid()
      modifies this
      ensures Valid()
      ensures Report(c) == ParseMoreLogicFactors(tokens, old(AsState()))
      decreases |tokens| - pos, 5
    {
      c := Normal;
      if tokens[pos].Name() == And {
        NotLast(tokens, AsState());
        Match(And);
        c := LogicFactor();
        if c.Threw? { return; }
        c := MoreLogicFactors();
      }
    }

    method LogicFactor() returns (c: Completion)
      requires Valid()
      modifies this
      ensures Valid()
      ensures Report(c) == ParseLogicFactor(tokens, old(AsState()))
      decreases |tokens| - pos, 5
    {
      c := Normal;
      var k := tokens[pos].Name();
      if k == Not {
        NotLast(tokens, AsState());
        Match(Not);
        c := LogicFactor();
      } else if k == True {
        Match(True);
      } else if k == False {
        Match(False);
      } else {
        c := RelationalExpression();
      }
    }

    method RelationalExpression() returns (c: Completion)
      requires Valid()
      modifies this
      ensures Valid()
      ensures Report(c) == ParseRelational(tokens, old(AsState()))
      decreases |tokens| - pos, 4
    {
      c := Expression();
      if c.Threw? { return; }
      if IsRelKind(tokens[pos].Name()) {
        var operator := RelationalOperator();
        c := Expression();
        if c.Threw? { return; }
        code := code + [Relation(operator)];
      }
      c := Normal;
    }

    method RelationalOperator() returns (text: string)
      requires Valid()
      modifies this
      ensures Valid()
      ensures (text, AsState()) == ParseRelationalOperator(tokens, old(AsState()))
    {
      var k := tokens[pos].Name();
      if k == LessThan {
        Match(LessThan);
        return "<";
      } else if k == LessEquals {
        Match(LessEquals);
        return "<=";
      } else if k == GreaterThan {
        Match(GreaterThan);
        return ">";
      } else if k == GreaterEquals {
        Match(GreaterEquals);
        return ">=";
      } else {
        diags := diags + [RelationalOperatorExpected];
      }
      return "";
    }

    method Expression() returns (c: Completion)
      requires Valid()
      modifies this
      ensures Valid()
      ensures Report(c) == ParseExpression(tokens, old(AsState()))
      decreases |tokens| - pos, 3
    {
      c := Term();
      if c.Threw? { return; }
      c := MoreTerms();
    }

    method MoreTerms() returns (c: Completion)
      requires Valid()
      modifies this
      ensures Valid()
      ensures Report(c) == ParseMoreTerms(tokens, old(AsState()))
      decreases |tokens| - pos, 2
    {
      c := Normal;
      var k := tokens[pos].Name();
      if IsAddKind(k) {
        var op := AddOpOf(k);
        NotLast(tokens, AsState());
        Match(k);
        c := Term();
        if c.Threw? { return; }
        code := code + [Arithmetic(op)];
        c := Combine(op);
        if c.Threw? { return; }
        c := MoreTerms();
      }
    }

    method Term() returns (c: Completion)
      requires Valid()
      modifies this
      ensures Valid()
      ensures Report(c) == ParseTerm(tokens, old(AsState()))
      decreases |tokens| - pos, 2
    {
      c := Factor();
      if c.Threw? { return; }
      c := MoreFactors();
    }

    method MoreFactors() returns (c: Completion)
      requires Valid()
      modifies this
      ensures Valid()
      ensures Report(c) == ParseMoreFactors(tokens, old(AsState()))
      decreases |tokens| - pos, 1
    {
      c := Normal;
      var k := tokens[pos].Name();
      if IsMulKind(k) {
        var op := MulOpOf(k);
        NotLast(tokens, AsState());
        Match(k);
        c := Factor();
        if c.Threw? { return; }
        code := code + [Arithmetic(op)];
        c := Combine(op);
        if c.Threw? { return; }
        if op == Mod {
          code := code + [PushInt(stack[|stack| - 1].i)];
        }
        c := MoreFactors();
      }
    }

    method Factor() returns (c: Completion)
      requires Valid()
      modifies this
      ensures Valid()
      ensures Report(c) == ParseFactor(tokens, old(AsState()))
      decreases |tokens| - pos, 1
    {
      c := Normal;
      var k := tokens[pos].Name();
      if k == OpenParenthesis {
        NotLast(tokens, AsState());
        Match(OpenParenthesis);
        c := Expression();
        if c.Threw? { return; }
        Match(ClosedParenthesis);
      } else if k == Id {
        if !tokens[pos].Identifier? {
          return Threw(ClassCast);
        }
        var x := tokens[pos].lexeme;
        if x !in values {
          return Threw(NullUnboxing);
        }
        var number := values[x];
        if !number.IntV? {
          return Threw(ClassCast);
        }
        Match(Id);
        stack := stack + [number];
        code := code + [Rvalue(x)];
      } else if k == Int {
        if !tokens[pos].IntegerNumber? {
          return Threw(ClassCast);
        }
        var n := tokens[pos].value;
        stack := stack + [IntV(n)];
        code := code + [PushInt(n)];
        Match(Int);
      } else if k == Float {
        if !tokens[pos].RealNumber? {
          return Threw(ClassCast);
        }
        var t := tokens[pos].text;
        stack := stack + [RealV(t)];
        code := code + [PushReal(t)];
        Match(Float);
      }
    }

    /** The two pops, casts and push that follow every arithmetic operator. */
    method Combine(op: Op) returns (c: Completion)
      modifies this`stack
      ensures Report(c) == ApplyTop(old(AsState()), op)
    {
      c := Normal;
      if stack == [] {
        return Threw(EmptyStack);
      }
      var num1 := stack[|stack| - 1];
      stack := stack[..|stack| - 1];
      if !num1.IntV? {
        return Threw(ClassCast);
      }
      if stack == [] {
        return Threw(EmptyStack);
      }
      var num2 := stack[|stack| - 1];
      stack := stack[..|stack| - 1];
      if !num2.IntV? {
        return Threw(ClassCast);
      }
      if (op == Over || op == Mod) && num1.i == 0 {
        return Threw(DivisionByZero);
      }
      stack := stack + [IntV(Compute(op, num2.i, num1.i))];
    }

    method AddValue(x: string, v: Value)
      modifies this`values, this`diags
      ensures AsState() == Store(old(AsState()), x, v)
    {
      if x in table {
        values := values[x := v];
      } else {
        diags := diags + [NotDeclared(x)];
      }
    }

    method AddSymbol(x: string, k: Kind)
      modifies this`table, this`diags
      ensures AsState() == Declare(old(AsState()), x, k)
    {
      if x !in table {
        table := table[x := k];
      } else {
        diags := diags + [AlreadyDeclared(x)];
      }
    }

    method Match(k: Kind)
      requires Valid()
      modifies this`pos, this`diags
      ensures Valid()
      ensures AsState() == MatchToken(tokens, old(AsState()), k)
    {
      if tokens[pos].Name() == k {
        pos := Next(tokens, pos);
      } else {
        diags := diags + [Expected(k)];
      }
    }
  }
}
