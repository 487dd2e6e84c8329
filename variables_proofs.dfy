/**
 * What the declarations parser computes for a well-formed program: it
 * consumes the whole program and leaves a symbol table holding exactly the
 * declared names, each with the type of the first declaration that names
 * it; and the listing `symbolTable()` builds has one line per entry.
 *
 * Each lemma is told where its phrase starts (`p`) in the token stream `ts`.
 */
module VariablesProofs {
  import opened Exceptions
  import opened Tokens
  import opened SymbolTables
  import opened Variables

  /** One declaration `type id, id, ... ;`. */
  datatype Decl = Decl(ty: Kind, names: seq<string>)

  predicate WellFormed(d: Decl) { IsTypeName(d.ty) && d.names != [] }

  predicate AllWellFormed(ds: seq<Decl>) { forall i | 0 <= i < |ds| :: WellFormed(ds[i]) }

  // The tokens of a declaration list.

  function SpellDecl(d: Decl): seq<Token>
    requires WellFormed(d)
  {
    [Word(d.ty)] + SpellNames(d.names) + [Word(Semicolon)]
  }

  function SpellDecls(ds: seq<Decl>): seq<Token>
    requires AllWellFormed(ds)
  {
    if ds == [] then [] else SpellDecl(ds[0]) + SpellDecls(ds[1..])
  }

  /** `void main { declarations }` and the final `end_program`. */
  function ProgramTokens(ds: seq<Decl>): (ts: seq<Token>)
    requires AllWellFormed(ds)
    ensures Terminated(ts)
  {
    [Word(Void), Word(KwMain), Word(OpenCurlyBracket)] + SpellDecls(ds) + [Word(ClosedCurlyBracket), Word(EndProgram)]
  }

  // The table a declaration list should produce.

  /** Some declaration of `ds` names `n`. */
  predicate Declares(ds: seq<Decl>, n: string) {
    ds != [] && (n in ds[0].names || Declares(ds[1..], n))
  }

  /** The type of the first declaration of `ds` that names `n`. */
  function FirstType(ds: seq<Decl>, n: string): Kind
    requires Declares(ds, n)
  {
    if n in ds[0].names then ds[0].ty else FirstType(ds[1..], n)
  }

  /** `u` is `t` with every name `ds` declares and `t` lacked entered with its first declared type. */
  ghost predicate Declared(t: SymbolTable, ds: seq<Decl>, u: SymbolTable) {
    && (forall n :: n in u <==> n in t || Declares(ds, n))
    && (forall n | n in u :: u[n] == if n in t then t[n] else FirstType(ds, n))
  }

  /** Entering one declaration, then the rest. */
  lemma {:induction false} DeclaredStep(t: SymbolTable, ds: seq<Decl>, t1: SymbolTable, u: SymbolTable)
    requires ds != []
    requires Adds(t, ds[0].names, ds[0].ty, t1)
    requires Declared(t1, ds[1..], u)
    ensures Declared(t, ds, u)
  {
  }

  /** `more-identifiers` reads `, id` pairs up to the first token that is not a comma. */
  lemma {:induction false} MoreIdentifiersParse(ts: seq<Token>, p: nat, t: SymbolTable, ns: seq<string>, k: Kind)
    requires Terminated(ts) && At(ts, p, SpellMoreNames(ns))
    requires p + |SpellMoreNames(ns)| < |ts| && ts[p + |SpellMoreNames(ns)|].Name() != Comma
    ensures ParseMoreIdentifiers(ts, State(p, t), k).Ok?
    ensures ParseMoreIdentifiers(ts, State(p, t), k).st.pos == p + |SpellMoreNames(ns)|
    ensures Adds(t, ns, k, ParseMoreIdentifiers(ts, State(p, t), k).st.table)
    decreases ns
  {
    if ns != [] {
      TwoAt(ts, p, Word(Comma), Identifier(ns[0]), SpellMoreNames(ns[1..]));
      var t1 := WithSymbol(t, ns[0], k);
      MoreIdentifiersParse(ts, p + 2, t1, ns[1..], k);
      assert ParseMoreIdentifiers(ts, State(p, t), k) == ParseMoreIdentifiers(ts, State(p + 2, t1), k);
      AddsStep(t, ns, k, ParseMoreIdentifiers(ts, State(p + 2, t1), k).st.table);
    }
  }

  /** `identifiers` reads a whole list and enters every name with type `k`. */
  lemma {:induction false} IdentifiersParse(ts: seq<Token>, p: nat, t: SymbolTable, ns: seq<string>, k: Kind)
    requires ns != []
    requires Terminated(ts) && At(ts, p, SpellNames(ns))
    requires p + |SpellNames(ns)| < |ts| && ts[p + |SpellNames(ns)|].Name() != Comma
    ensures ParseIdentifiers(ts, State(p, t), k).Ok?
    ensures ParseIdentifiers(ts, State(p, t), k).st.pos == p + |SpellNames(ns)|
    ensures Adds(t, ns, k, ParseIdentifiers(ts, State(p, t), k).st.table)
  {
    AtAppend(ts, p, [Identifier(ns[0])], SpellMoreNames(ns[1..]));
    AtHead(ts, p, [Identifier(ns[0])]);
    var t1 := WithSymbol(t, ns[0], k);
    MoreIdentifiersParse(ts, p + 1, t1, ns[1..], k);
    assert ParseIdentifiers(ts, State(p, t), k) == ParseMoreIdentifiers(ts, State(p + 1, t1), k);
    AddsStep(t, ns, k, ParseMoreIdentifiers(ts, State(p + 1, t1), k).st.table);
  }

  /** `declaration` reads `type names ;` and enters the names with that type. */
  lemma {:induction false} DeclarationParse(ts: seq<Token>, p: nat, t: SymbolTable, d: Decl)
    requires WellFormed(d)
    requires Terminated(ts) && At(ts, p, SpellDecl(d)) && p + |SpellDecl(d)| < |ts|
    ensures ParseDeclaration(ts, State(p, t)).Ok?
    ensures ParseDeclaration(ts, State(p, t)).st.pos == p + |SpellDecl(d)|
    ensures Adds(t, d.names, d.ty, ParseDeclaration(ts, State(p, t)).st.table)
  {
    var m := p + 1 + |SpellNames(d.names)|;
    AtAppend(ts, p, [Word(d.ty)] + SpellNames(d.names), [Word(Semicolon)]);
    AtAppend(ts, p, [Word(d.ty)], SpellNames(d.names));
    AtHead(ts, p, [Word(d.ty)]);
    AtHead(ts, m, [Word(Semicolon)]);
    IdentifiersParse(ts, p + 1, t, d.names, d.ty);
  }

  lemma {:induction false} WellFormedTail(ds: seq<Decl>)
    requires AllWellFormed(ds) && ds != []
    ensures AllWellFormed(ds[1..])
  {
    forall i | 0 <= i < |ds[1..]| ensures WellFormed(ds[1..][i]) {
      assert ds[1..][i] == ds[i + 1];
    }
  }

  /** `declarations` reads every declaration and stops at the first token that is not a type. */
  lemma {:induction false} DeclarationsParse(ts: seq<Token>, p: nat, t: SymbolTable, ds: seq<Decl>)
    requires AllWellFormed(ds)
    requires Terminated(ts) && At(ts, p, SpellDecls(ds))
    requires p + |SpellDecls(ds)| < |ts| && !IsTypeName(ts[p + |SpellDecls(ds)|].Name())
    ensures ParseDeclarations(ts, State(p, t)).Ok?
    ensures ParseDeclarations(ts, State(p, t)).st.pos == p + |SpellDecls(ds)|
    ensures Declared(t, ds, ParseDeclarations(ts, State(p, t)).st.table)
    decreases ds
  {
    if ds != [] {
      AtAppend(ts, p, SpellDecl(ds[0]), SpellDecls(ds[1..]));
      AtHead(ts, p, SpellDecl(ds[0]));
      DeclarationParse(ts, p, t, ds[0]);
      var s1 := ParseDeclaration(ts, State(p, t)).st;
      WellFormedTail(ds);
      DeclarationsParse(ts, s1.pos, s1.table, ds[1..]);
      DeclaredStep(t, ds, s1.table, ParseDeclarations(ts, s1).st.table);
    }
  }

  /**
   * A program `void main { declarations }` parses completely, and the table
   * holds exactly the declared names, each with its first declared type.
   */
  lemma {:induction false} ProgramParse(ds: seq<Decl>)
    requires AllWellFormed(ds)
    ensures ParseProgram(ProgramTokens(ds), Start()).Ok?
    ensures ParseProgram(ProgramTokens(ds), Start()).st.pos == |ProgramTokens(ds)| - 1
    ensures forall n :: n in ParseProgram(ProgramTokens(ds), Start()).st.table <==> Declares(ds, n)
    ensures forall n | n in ParseProgram(ProgramTokens(ds), Start()).st.table ::
              ParseProgram(ProgramTokens(ds), Start()).st.table[n] == FirstType(ds, n)
  {
    var ts := ProgramTokens(ds);
    var pre := [Word(Void), Word(KwMain), Word(OpenCurlyBracket)];
    var post := [Word(ClosedCurlyBracket), Word(EndProgram)];
    var q := 3 + |SpellDecls(ds)|;
    assert ts[0] == Word(Void) && ts[1] == Word(KwMain) && ts[2] == Word(OpenCurlyBracket);
    assert ts[q] == Word(ClosedCurlyBracket) by {
      assert ts == pre + SpellDecls(ds) + post;
    }
    AtInside(pre, SpellDecls(ds), post);
    DeclarationsParse(ts, 3, map[], ds);
  }

  // The sample program `void main { int a, b, c, d; float x, y, z; }`.

  function SampleDecls(): (ds: seq<Decl>)
    ensures AllWellFormed(ds)
  {
    [Decl(Int, ["a", "b", "c", "d"]), Decl(Float, ["x", "y", "z"])]
  }

  /** The sample's tokens as the lexical analyzer delivers them. */
  lemma SampleTokens()
    ensures ProgramTokens(SampleDecls()) ==
      [Word(Void), Word(KwMain), Word(OpenCurlyBracket),
       Word(Int), Identifier("a"), Word(Comma), Identifier("b"), Word(Comma), Identifier("c"), Word(Comma), Identifier("d"),
       Word(Semicolon),
       Word(Float), Identifier("x"), Word(Comma), Identifier("y"), Word(Comma), Identifier("z"), Word(Semicolon),
       Word(ClosedCurlyBracket), Word(EndProgram)]
  {
  }

  /** A program of two declarations: the first one's type wins for a name both declare. */
  lemma {:induction false} TwoDeclarations(d0: Decl, d1: Decl)
    requires WellFormed(d0) && WellFormed(d1)
    ensures AllWellFormed([d0, d1])
    ensures ParseProgram(ProgramTokens([d0, d1]), Start()).Ok?
    ensures forall n :: n in ParseProgram(ProgramTokens([d0, d1]), Start()).st.table <==> n in d0.names || n in d1.names
    ensures forall n | n in ParseProgram(ProgramTokens([d0, d1]), Start()).st.table ::
              ParseProgram(ProgramTokens([d0, d1]), Start()).st.table[n] == if n in d0.names then d0.ty else d1.ty
  {
    var ds := [d0, d1];
    assert ds[1..] == [d1] && ds[1..][1..] == [];
    forall n ensures Declares(ds, n) <==> n in d0.names || n in d1.names {
      assert !Declares([], n);
    }
    forall n | Declares(ds, n) ensures FirstType(ds, n) == if n in d0.names then d0.ty else d1.ty {
    }
    ProgramParse(ds);
  }

  /** The sample's table maps `a` to `d` to `int` and `x` to `z` to `float`, and holds nothing else. */
  lemma SampleTable()
    ensures ParseProgram(ProgramTokens(SampleDecls()), Start()).Ok?
    ensures forall n :: n in ParseProgram(ProgramTokens(SampleDecls()), Start()).st.table <==>
              n in ["a", "b", "c", "d"] || n in ["x", "y", "z"]
    ensures forall n | n in ["a", "b", "c", "d"] :: ParseProgram(ProgramTokens(SampleDecls()), Start()).st.table[n] == Int
    ensures forall n | n in ["x", "y", "z"] :: ParseProgram(ProgramTokens(SampleDecls()), Start()).st.table[n] == Float
  {
    TwoDeclarations(Decl(Int, ["a", "b", "c", "d"]), Decl(Float, ["x", "y", "z"]));
  }

  /** `int a; float a, b;`: the second declaration of `a` changes nothing. */
  lemma FirstDeclarationWins()
    ensures AllWellFormed([Decl(Int, ["a"]), Decl(Float, ["a", "b"])])
    ensures "a" in ParseProgram(ProgramTokens([Decl(Int, ["a"]), Decl(Float, ["a", "b"])]), Start()).st.table
    ensures "b" in ParseProgram(ProgramTokens([Decl(Int, ["a"]), Decl(Float, ["a", "b"])]), Start()).st.table
    ensures ParseProgram(ProgramTokens([Decl(Int, ["a"]), Decl(Float, ["a", "b"])]), Start()).st.table["a"] == Int
    ensures ParseProgram(ProgramTokens([Decl(Int, ["a"]), Decl(Float, ["a", "b"])]), Start()).st.table["b"] == Float
  {
    TwoDeclarations(Decl(Int, ["a"]), Decl(Float, ["a", "b"]));
  }
}
