/**
 * What the front end does with a well-formed declaration: every listed name
 * is entered with the declaration's type unless it is already there (the
 * first declaration wins, and an "already declared" message is added for
 * each repeat), and an initializer is compiled and its value stored under
 * the name just entered.
 *
 * Each lemma is told where its phrase starts (`p`) in the token stream `ts`.
 */
module FrontendDeclarations {
  import opened Exceptions
  import opened Tokens
  import opened Arith
  import opened SymbolTables
  import opened Frontend
  import opened FrontendProofs

  /** The "already declared" messages for `ns`, entered in order after the names `known`. */
  function Redeclared(known: set<string>, ns: seq<string>): seq<Diagnostic>
    decreases |ns|
  {
    if ns == [] then []
    else (if ns[0] in known then [AlreadyDeclared(ns[0])] else []) + Redeclared(known + {ns[0]}, ns[1..])
  }

  /** A name list is entered without a message exactly when its names are new and distinct. */
  lemma {:induction false} RedeclaredNone(known: set<string>, ns: seq<string>)
    ensures Redeclared(known, ns) == [] <==>
              (forall i | 0 <= i < |ns| :: ns[i] !in known) && (forall i, j | 0 <= i < j < |ns| :: ns[i] != ns[j])
    decreases |ns|
  {
    if ns != [] {
      RedeclaredNone(known + {ns[0]}, ns[1..]);
      var isNew := (forall i | 0 <= i < |ns| :: ns[i] !in known) && (forall i, j | 0 <= i < j < |ns| :: ns[i] != ns[j]);
      var rest := ns[1..];
      var restFresh := (forall i | 0 <= i < |rest| :: rest[i] !in known + {ns[0]})
                       && (forall i, j | 0 <= i < j < |rest| :: rest[i] != rest[j]);
      if isNew {
        forall i | 0 <= i < |rest| ensures rest[i] !in known + {ns[0]} {
          assert rest[i] == ns[i + 1];
        }
        forall i, j | 0 <= i < j < |rest| ensures rest[i] != rest[j] {
          assert rest[i] == ns[i + 1] && rest[j] == ns[j + 1];
        }
      }
      if ns[0] !in known && restFresh {
        forall i | 0 <= i < |ns| ensures ns[i] !in known {
          if i > 0 { assert ns[i] == rest[i - 1]; }
        }
        forall i, j | 0 <= i < j < |ns| ensures ns[i] != ns[j] {
          assert ns[j] == rest[j - 1];
          if i > 0 { assert ns[i] == rest[i - 1]; }
        }
      }
    }
  }

  /** Where a name list ends: at a token that neither continues the list nor starts an initializer. */
  predicate EndsNames(ts: seq<Token>, q: nat) {
    q < |ts| && ts[q].Name() != Comma && ts[q].Name() != Assignment
  }

  /**
   * `, x1 , x2 ...` without initializers: the names are entered with type
   * `k` as `Adds` says, one message is added per name already known, and no
   * code, value or stack entry changes.
   */
  lemma {:induction false} MoreNamesDeclare(ts: seq<Token>, s: State, ns: seq<string>, k: Kind)
    requires s.Valid(ts) && At(ts, s.pos, SpellMoreNames(ns)) && EndsNames(ts, s.pos + |SpellMoreNames(ns)|)
    ensures ParseMoreIdentifiers(ts, s, k).Ok?
    ensures Adds(s.table, ns, k, ParseMoreIdentifiers(ts, s, k).st.table)
    ensures ParseMoreIdentifiers(ts, s, k).st ==
              s.(pos := s.pos + |SpellMoreNames(ns)|,
                 table := ParseMoreIdentifiers(ts, s, k).st.table,
                 diags := s.diags + Redeclared(s.table.Keys, ns))
    decreases ns
  {
    if ns != [] {
      var s2 := MoreNamesStep(ts, s, ns, k);
      MoreNamesDeclare(ts, s2, ns[1..], k);
      AddsStep(s.table, ns, k, ParseMoreIdentifiers(ts, s2, k).st.table);
      RedeclaredStep(s.diags, s.table, ns, k);
    }
  }

  /** The first `, x` of a name list, and what is left of the list after it. */
  lemma {:induction false} MoreNamesStep(ts: seq<Token>, s: State, ns: seq<string>, k: Kind) returns (s2: State)
    requires ns != []
    requires s.Valid(ts) && At(ts, s.pos, SpellMoreNames(ns)) && EndsNames(ts, s.pos + |SpellMoreNames(ns)|)
    ensures s2 == s.(pos := s.pos + 2, table := WithSymbol(s.table, ns[0], k),
                     diags := s.diags + (if ns[0] in s.table then [AlreadyDeclared(ns[0])] else []))
    ensures s2.Valid(ts) && At(ts, s2.pos, SpellMoreNames(ns[1..]))
    ensures s2.pos + |SpellMoreNames(ns[1..])| == s.pos + |SpellMoreNames(ns)|
    ensures ParseMoreIdentifiers(ts, s, k) == ParseMoreIdentifiers(ts, s2, k)
  {
    var p := s.pos;
    TwoAt(ts, p, Word(Comma), Identifier(ns[0]), SpellMoreNames(ns[1..]));
    s2 := NameEntered(ts, s, ns[0], k);
    if ns[1..] != [] {
      AtHead(ts, p + 2, SpellMoreNames(ns[1..]));
    }
    assert ParseOptionalAssignment(ts, s2, ns[0]) == Ok(s2);
  }

  /** The messages of a name list: those of its first name, then those of the rest. */
  lemma {:induction false} RedeclaredStep(diags: seq<Diagnostic>, t: SymbolTable, ns: seq<string>, k: Kind)
    requires ns != []
    ensures diags + Redeclared(t.Keys, ns) ==
              diags + (if ns[0] in t then [AlreadyDeclared(ns[0])] else []) + Redeclared(WithSymbol(t, ns[0], k).Keys, ns[1..])
  {
    assert WithSymbol(t, ns[0], k).Keys == t.Keys + {ns[0]};
  }

  /** `, x` read and `x` entered: the state the initializer starts from. */
  lemma {:induction false} NameEntered(ts: seq<Token>, s: State, x: string, k: Kind) returns (s2: State)
    requires s.Valid(ts) && s.pos + 1 < |ts| && ts[s.pos] == Word(Comma) && ts[s.pos + 1] == Identifier(x)
    ensures s2 == s.(pos := s.pos + 2, table := WithSymbol(s.table, x, k),
                     diags := s.diags + (if x in s.table then [AlreadyDeclared(x)] else []))
    ensures s2 == MatchToken(ts, Declare(MatchToken(ts, s, Comma), x, k), Id)
  {
    NotLast(ts, s);
    var s1 := MatchToken(ts, s, Comma);
    assert s1 == s.(pos := s.pos + 1);
    NotLast(ts, s1);
    s2 := MatchToken(ts, Declare(s1, x, k), Id);
  }

  /**
   * `x1 , x2 ...` without initializers: as for `MoreNamesDeclare`, with the
   * first name entered too.
   */
  lemma {:induction false} NamesDeclare(ts: seq<Token>, s: State, ns: seq<string>, k: Kind)
    requires ns != []
    requires s.Valid(ts) && At(ts, s.pos, SpellNames(ns)) && EndsNames(ts, s.pos + |SpellNames(ns)|)
    ensures ParseIdentifiers(ts, s, k).Ok?
    ensures Adds(s.table, ns, k, ParseIdentifiers(ts, s, k).st.table)
    ensures ParseIdentifiers(ts, s, k).st ==
              s.(pos := s.pos + |SpellNames(ns)|,
                 table := ParseIdentifiers(ts, s, k).st.table,
                 diags := s.diags + Redeclared(s.table.Keys, ns))
  {
    var s2 := FirstNameStep(ts, s, ns, k);
    MoreNamesDeclare(ts, s2, ns[1..], k);
    AddsStep(s.table, ns, k, ParseMoreIdentifiers(ts, s2, k).st.table);
    RedeclaredStep(s.diags, s.table, ns, k);
  }

  /** The first name of a list, and the rest of the list after it. */
  lemma {:induction false} FirstNameStep(ts: seq<Token>, s: State, ns: seq<string>, k: Kind) returns (s2: State)
    requires ns != []
    requires s.Valid(ts) && At(ts, s.pos, SpellNames(ns)) && EndsNames(ts, s.pos + |SpellNames(ns)|)
    ensures s2 == s.(pos := s.pos + 1, table := WithSymbol(s.table, ns[0], k),
                     diags := s.diags + (if ns[0] in s.table then [AlreadyDeclared(ns[0])] else []))
    ensures s2.Valid(ts) && At(ts, s2.pos, SpellMoreNames(ns[1..]))
    ensures s2.pos + |SpellMoreNames(ns[1..])| == s.pos + |SpellNames(ns)|
    ensures EndsNames(ts, s2.pos + |SpellMoreNames(ns[1..])|)
    ensures ParseIdentifiers(ts, s, k) == ParseMoreIdentifiers(ts, s2, k)
  {
    var p := s.pos;
    AtAppend(ts, p, [Identifier(ns[0])], SpellMoreNames(ns[1..]));
    AtHead(ts, p, [Identifier(ns[0])]);
    NotLast(ts, s);
    s2 := MatchToken(ts, Declare(s, ns[0], k), Id);
    if ns[1..] != [] {
      AtHead(ts, p + 1, SpellMoreNames(ns[1..]));
    }
    assert ParseOptionalAssignment(ts, s2, ns[0]) == Ok(s2);
  }

  /** `type x1 , x2 ... ;` */
  function SpellDeclaration(k: Kind, ns: seq<string>): seq<Token>
    requires ns != []
  {
    [Word(k)] + SpellNames(ns) + [Word(Semicolon)]
  }

  /**
   * A declaration `type x1 , x2 ... ;` without initializers, read as an
   * instruction: every name not yet in the table is entered with the
   * declared type, every name already there keeps its first type and adds
   * an "already declared" message, and nothing else changes.
   */
  lemma {:induction false} DeclarationDeclares(ts: seq<Token>, s: State, k: Kind, ns: seq<string>)
    requires IsTypeName(k) && ns != []
    requires s.Valid(ts) && At(ts, s.pos, SpellDeclaration(k, ns))
    ensures ParseInstruction(ts, s).Ok?
    ensures Adds(s.table, ns, k, ParseInstruction(ts, s).st.table)
    ensures ParseInstruction(ts, s).st ==
              s.(pos := s.pos + |SpellDeclaration(k, ns)|,
                 table := ParseInstruction(ts, s).st.table,
                 diags := s.diags + Redeclared(s.table.Keys, ns))
  {
    var p := s.pos;
    var q := p + 1 + |SpellNames(ns)|;
    AtAppend(ts, p, [Word(k)] + SpellNames(ns), [Word(Semicolon)]);
    AtAppend(ts, p, [Word(k)], SpellNames(ns));
    AtHead(ts, p, [Word(k)]);
    AtHead(ts, q, [Word(Semicolon)]);
    NotLast(ts, s);
    var s1 := s.(pos := p + 1);
    assert ParseType(ts, s) == (k, s1);
    NamesDeclare(ts, s1, ns, k);
    var s2 := ParseIdentifiers(ts, s1, k).st;
    assert s2.Current(ts).Name() == Semicolon;
    NotLast(ts, s2);
    assert ParseInstruction(ts, s) == ParseDeclaration(ts, s);
  }

  /**
   * What a declaration `type x = …` with an initializer of value `value`
   * leaves, with `code` the code up to its `=`: an exception if `value` is
   * one; otherwise `x` entered with type `k` as `WithSymbol` enters it (with
   * an "already declared" message when it was there), and `value` stored
   * under `x`, with the position at `end`.
   */
  predicate Initializes(s: State, r: Outcome<State>, k: Kind, x: string, value: Result<Value>, code: seq<Instr>, end: nat) {
    && (value.Failure? ==> r.Thrown? && r.fault == value.fault)
    && (value.Success? ==>
          r == Ok(s.(pos := end,
                     table := if x in s.table then s.table else s.table[x := k],
                     values := s.values[x := value.value],
                     code := code,
                     diags := s.diags + (if x in s.table then [AlreadyDeclared(x)] else []))))
  }

  /**
   * A declaration `type x = e ;`: `x` is entered as for any declaration,
   * `lvalue x`, the code of `e` and `=` are written,
   * and the value of `e` -- a real one too, as it is not cast -- is stored
   * under `x`. A new name thus gets its initial value and no "not declared"
   * message; a repeated one keeps its type but takes the value.
   */
  lemma {:induction false} InitializedDeclaration(ts: seq<Token>, s: State, k: Kind, x: string, e: Expr)
    requires IsTypeName(k) && s.Valid(ts)
    requires s.pos + 2 < |ts| && ts[s.pos] == Word(k) && ts[s.pos + 1] == Identifier(x) && ts[s.pos + 2] == Word(Assignment)
    requires At(ts, s.pos + 3, SpellExpr(e))
    requires s.pos + 3 + |SpellExpr(e)| < |ts| && ts[s.pos + 3 + |SpellExpr(e)|] == Word(Semicolon)
    ensures Initializes(s, ParseDeclaration(ts, s), k, x, EvalExpr(e, s.values),
                        s.code + [Lvalue(x)] + CodeExpr(e, s.values) + [Assign], s.pos + 4 + |SpellExpr(e)|)
  {
    var p := s.pos;
    var q := p + 3 + |SpellExpr(e)|;
    var s1, s2 := DeclarationHead(ts, s, k, x);
    SemicolonEnds(ts, q);
    InitializerCompiles(ts, s2, p + 2, x, e);
    IdentifiersAfterInitializer(ts, s1, s2, k, x);
    DeclarationAfterIdentifiers(ts, s, s1, k);
    var a := ParseOptionalAssignment(ts, s2, x);
    if a.Ok? && EvalExpr(e, s.values).Success? {
      NamesEnd(ts, a.st, k);
    }
    InitializedEnd(ts, s, s2, q, k, x, e, a, ParseIdentifiers(ts, s1, k), ParseDeclaration(ts, s));
  }

  /** Nothing that extends a condition is a `;`. */
  lemma {:induction false} SemicolonEnds(ts: seq<Token>, q: nat)
    requires q < |ts| && ts[q] == Word(Semicolon)
    ensures EndsCondition(ts, q)
  {
  }

  /** A name list ends at `;`. */
  lemma {:induction false} NamesEnd(ts: seq<Token>, s: State, k: Kind)
    requires s.Valid(ts) && s.Current(ts) == Word(Semicolon)
    ensures ParseMoreIdentifiers(ts, s, k) == Ok(s)
  {
  }

  /** `type x` read and `x` entered: the state the initializer starts from. */
  lemma {:induction false} DeclarationHead(ts: seq<Token>, s: State, k: Kind, x: string) returns (s1: State, s2: State)
    requires IsTypeName(k) && s.Valid(ts) && s.pos + 1 < |ts| && ts[s.pos] == Word(k) && ts[s.pos + 1] == Identifier(x)
    ensures s1 == s.(pos := s.pos + 1) && s1.Valid(ts) && ParseType(ts, s) == (k, s1)
    ensures s2 == MatchToken(ts, Declare(s1, x, k), Id) && s2.Valid(ts)
    ensures s2 == s.(pos := s.pos + 2, table := if x in s.table then s.table else s.table[x := k],
                     diags := s.diags + (if x in s.table then [AlreadyDeclared(x)] else []))
  {
    NotLast(ts, s);
    s1 := s.(pos := s.pos + 1);
    NotLast(ts, s1);
    s2 := MatchToken(ts, Declare(s1, x, k), Id);
  }

  /** An identifier list whose first name has an initializer: the initializer, then the rest of the list. */
  lemma {:induction false} IdentifiersAfterInitializer(ts: seq<Token>, s1: State, s2: State, k: Kind, x: string)
    requires s1.Valid(ts) && s1.Current(ts) == Identifier(x) && s2 == MatchToken(ts, Declare(s1, x, k), Id)
    ensures ParseOptionalAssignment(ts, s2, x).Thrown? ==> ParseIdentifiers(ts, s1, k) == ParseOptionalAssignment(ts, s2, x)
    ensures ParseOptionalAssignment(ts, s2, x).Ok? ==>
              ParseIdentifiers(ts, s1, k) == ParseMoreIdentifiers(ts, ParseOptionalAssignment(ts, s2, x).st, k)
  {
  }

  /** A declaration: the type, the identifier list, then `;`. */
  lemma {:induction false} DeclarationAfterIdentifiers(ts: seq<Token>, s: State, s1: State, k: Kind)
    requires IsTypeName(k) && s.Valid(ts) && s.Current(ts) == Word(k) && ParseType(ts, s) == (k, s1) && s1.Valid(ts)
    ensures ParseIdentifiers(ts, s1, k).Thrown? ==> ParseDeclaration(ts, s) == ParseIdentifiers(ts, s1, k)
    ensures ParseIdentifiers(ts, s1, k).Ok? ==>
              ParseDeclaration(ts, s) == Ok(MatchToken(ts, ParseIdentifiers(ts, s1, k).st, Semicolon))
  {
  }

  /**
   * After the initializer: the list ends at `;`, which is matched. `a` is
   * what the initializer leaves, `ids` what the identifier list leaves and
   * `r` what the whole declaration leaves.
   */
  lemma {:induction false} InitializedEnd(ts: seq<Token>, s: State, s2: State, q: nat, k: Kind, x: string, e: Expr,
                                          a: Outcome<State>, ids: Outcome<State>, r: Outcome<State>)
    requires s.Valid(ts) && q < |ts| && ts[q] == Word(Semicolon)
    requires s2 == s.(pos := s.pos + 2, table := if x in s.table then s.table else s.table[x := k],
                      diags := s.diags + (if x in s.table then [AlreadyDeclared(x)] else []))
    requires Assigns(s2, a, x, EvalExpr(e, s.values), s.code + [Lvalue(x)] + CodeExpr(e, s.values) + [Assign], q, false)
    requires a.Thrown? ==> ids == a
    requires a.Ok? && EvalExpr(e, s.values).Success? ==> ids == Ok(a.st)
    requires ids.Thrown? ==> r == ids
    requires ids.Ok? && a.Ok? && EvalExpr(e, s.values).Success? ==> a.st.Valid(ts) && r == Ok(MatchToken(ts, ids.st, Semicolon))
    ensures Initializes(s, r, k, x, EvalExpr(e, s.values), s.code + [Lvalue(x)] + CodeExpr(e, s.values) + [Assign], q + 1)
  {
    if EvalExpr(e, s.values).Success? {
      assert Terminated(ts) && ts[q].Name() != EndProgram;
    }
  }
}
