/**
 * The declarations parser: `void main { (type id (, id)* ;)* }` read by
 * recursive descent into a symbol table that maps each identifier to the
 * type of its first declaration.
 *
 * As in the translator, `State` and the functions over it are the
 * specification, one function per method of the Java class, and the class
 * `SyntaxAnalyzer` holds the fields and is proved to have exactly their
 * effect. Error messages are printed and change no field, so they are not
 * part of the state.
 */
module Variables {
  import opened Exceptions
  import opened Tokens
  import opened SymbolTables

  /** The fields that change while the parser reads the stream: token position, symbol table. */
  datatype State = State(pos: nat, table: SymbolTable) {
    predicate Valid(ts: seq<Token>) { Terminated(ts) && pos < |ts| }

    function Current(ts: seq<Token>): Token
      requires Valid(ts)
    {
      ts[pos]
    }
  }

  /** What the constructor sets up: the first token current, an empty table. */
  function Start(): State {
    State(0, map[])
  }

  /** Every parsing step stays inside the stream, never moves backwards and keeps every entry. */
  predicate Follows(ts: seq<Token>, s: State, r: State) {
    r.Valid(ts) && r.pos >= s.pos && Extends(s.table, r.table)
  }

  /**
   * `match(k)`: consume the current token if its name is `k`; otherwise
   * print an error and stay. Only the final `end_program` is never left.
   */
  function MatchToken(ts: seq<Token>, s: State, k: Kind): (r: State)
    requires s.Valid(ts)
    ensures r.Valid(ts) && r.table == s.table
    ensures s.pos < |ts| - 1 ==> (r.pos == s.pos + 1 <==> s.Current(ts).Name() == k)
    ensures s.Current(ts).Name() != k ==> r.pos == s.pos
  {
    if s.Current(ts).Name() == k then s.(pos := Next(ts, s.pos)) else s
  }

  /** A token that is not the last one is not `end_program`. */
  lemma NotLast(ts: seq<Token>, s: State)
    requires s.Valid(ts) && s.Current(ts).Name() != EndProgram
    ensures s.pos < |ts| - 1
  {
  }

  /** `program -> void main { declarations }` */
  function ParseProgram(ts: seq<Token>, s: State): (r: Outcome<State>)
    requires s.Valid(ts)
    ensures Follows(ts, s, r.st)
    ensures Typed(s.table) ==> Typed(r.st.table)
    decreases |ts| - s.pos, 4
  {
    var s1 := MatchToken(ts, MatchToken(ts, MatchToken(ts, s, Void), KwMain), OpenCurlyBracket);
    var s2 :- ParseDeclarations(ts, s1);
    Ok(MatchToken(ts, s2, ClosedCurlyBracket))
  }

  /**
   * `declarations -> declaration declarations | e`: declarations are read
   * exactly while the current token is a type name, and each one consumes
   * at least that token.
   */
  function ParseDeclarations(ts: seq<Token>, s: State): (r: Outcome<State>)
    requires s.Valid(ts)
    ensures Follows(ts, s, r.st)
    ensures Typed(s.table) ==> Typed(r.st.table)
    ensures !IsTypeName(s.Current(ts).Name()) ==> r == Ok(s)
    ensures IsTypeName(s.Current(ts).Name()) ==> r.st.pos > s.pos
    ensures r.Ok? ==> !IsTypeName(r.st.Current(ts).Name())
    decreases |ts| - s.pos, 3
  {
    if IsTypeName(s.Current(ts).Name()) then
      var s1 :- ParseDeclaration(ts, s);
      ParseDeclarations(ts, s1)
    else
      Ok(s)
  }

  /** `declaration -> type identifiers ;` */
  function ParseDeclaration(ts: seq<Token>, s: State): (r: Outcome<State>)
    requires s.Valid(ts)
    ensures Follows(ts, s, r.st)
    ensures IsTypeName(s.Current(ts).Name()) ==> r.st.pos > s.pos
    ensures IsTypeName(s.Current(ts).Name()) && Typed(s.table) ==> Typed(r.st.table)
    decreases |ts| - s.pos, 2
  {
    var (k, s1) := ParseType(ts, s);
    var s2 :- ParseIdentifiers(ts, s1, k);
    Ok(MatchToken(ts, s2, Semicolon))
  }

  /**
   * `type -> int | float | boolean`: returns the current token's name, and
   * consumes the token when it is one of the three (else only prints).
   */
  function ParseType(ts: seq<Token>, s: State): (r: (Kind, State))
    requires s.Valid(ts)
    ensures r.0 == s.Current(ts).Name()
    ensures r.1.Valid(ts) && r.1.table == s.table
    ensures IsTypeName(r.0) ==> r.1.pos == s.pos + 1
    ensures !IsTypeName(r.0) ==> r.1.pos == s.pos
  {
    var k := s.Current(ts).Name();
    if IsTypeName(k) then (k, MatchToken(ts, s, k)) else (k, s)
  }

  /**
   * `identifiers -> id more-identifiers`: the token named `id` is cast to
   * `Identifier` and its lexeme entered with type `k`. Every name the list
   * adds gets `k`.
   */
  function ParseIdentifiers(ts: seq<Token>, s: State, k: Kind): (r: Outcome<State>)
    requires s.Valid(ts)
    ensures Follows(ts, s, r.st)
    ensures forall n :: n in r.st.table && n !in s.table ==> r.st.table[n] == k
    decreases |ts| - s.pos, 1
  {
    if s.Current(ts).Name() == Id then
      if !s.Current(ts).Identifier? then Thrown(ClassCast, s)
      else
        var s1 := s.(table := WithSymbol(s.table, s.Current(ts).lexeme, k));
        ParseMoreIdentifiers(ts, MatchToken(ts, s1, Id), k)
    else
      Ok(s)
  }

  /**
   * `more-identifiers -> , id more-identifiers | e`: after the comma the
   * current token is cast to `Identifier` without checking its name, so any
   * other token throws.
   */
  function ParseMoreIdentifiers(ts: seq<Token>, s: State, k: Kind): (r: Outcome<State>)
    requires s.Valid(ts)
    ensures Follows(ts, s, r.st)
    ensures forall n :: n in r.st.table && n !in s.table ==> r.st.table[n] == k
    decreases |ts| - s.pos, 0
  {
    if s.Current(ts).Name() == Comma then
      NotLast(ts, s);
      var s1 := MatchToken(ts, s, Comma);
      if !s1.Current(ts).Identifier? then Thrown(ClassCast, s1)
      else
        var s2 := s1.(table := WithSymbol(s1.table, s1.Current(ts).lexeme, k));
        ParseMoreIdentifiers(ts, MatchToken(ts, s2, Id), k)
    else
      Ok(s)
  }

  /** The parser object: the Java fields, updated in place by its methods. */
  class SyntaxAnalyzer {
    const tokens: seq<Token>
    var pos: nat
    var table: SymbolTable

    function AsState(): State
      reads this
    {
      State(pos, table)
    }

    ghost predicate Valid()
      reads this
    {
      Terminated(tokens) && pos < |tokens|
    }

    /** The fields after a method returned `c`, in the shape the specification uses. */
    function Report(c: Completion): Outcome<State>
      reads this
    {
      if c.Normal? then Ok(AsState()) else Thrown(c.fault, AsState())
    }

    constructor (lex: seq<Token>)
      requires Terminated(lex)
      ensures Valid() && tokens == lex && AsState() == Start()
    {
      tokens := lex;
      pos := 0;
      table := map[];
    }

    /**
     * `symbolTable()`: one line per entry, in the order the table's entries
     * are enumerated, which the caller supplies.
     */
    method SymbolTableText(order: seq<string>) returns (text: string)
      requires Enumerates(order, table)
      ensures text == Listing(order, table)
    {
      text := ListingText(order, table);
    }

    /** `compile()` */
    method Compile() returns (c: Completion)
      requires Valid()
      modifies this
      ensures Valid()
      ensures Report(c) == ParseProgram(tokens, old(AsState()))
    {
      c := Program();
    }

    method Program() returns (c: Completion)
      requires Valid()
      modifies this
      ensures Valid()
      ensures Report(c) == ParseProgram(tokens, old(AsState()))
      decreases |tokens| - pos, 4
    {
      Match(Void);
      Match(KwMain);
      Match(OpenCurlyBracket);
      c := Declarations();
      if c.Threw? { return; }
      Match(ClosedCurlyBracket);
      c := Normal;
    }

    method Declarations() returns (c: Completion)
      requires Valid()
      modifies this
      ensures Valid()
      ensures Report(c) == ParseDeclarations(tokens, old(AsState()))
      decreases |tokens| - pos, 3
    {
      c := Normal;
      var k := tokens[pos].Name();
      if IsTypeName(k) {
        c := Declaration();
        if c.Threw? { return; }
        c := Declarations();
      }
    }

    method Declaration() returns (c: Completion)
      requires Valid()
      modifies this
      ensures Valid()
      ensures Report(c) == ParseDeclaration(tokens, old(AsState()))
      decreases |tokens| - pos, 2
    {
      var k := Type();
      c := Identifiers(k);
      if c.Threw? { return; }
      Match(Semicolon);
      c := Normal;
    }

    method Type() returns (k: Kind)
      requires Valid()
      modifies this`pos
      ensures Valid()
      ensures (k, AsState()) == ParseType(tokens, old(AsState()))
    {
      k := tokens[pos].Name();
      if k == Int {
        Match(Int);
      } else if k == Float {
        Match(Float);
      } else if k == Boolean {
        Match(Boolean);
      }
    }

    method Identifiers(k: Kind) returns (c: Completion)
      requires Valid()
      modifies this
      ensures Valid()
      ensures Report(c) == ParseIdentifiers(tokens, old(AsState()), k)
      decreases |tokens| - pos, 1
    {
      c := Normal;
      if tokens[pos].Name() == Id {
        if !tokens[pos].Identifier? {
          return Threw(ClassCast);
        }
        AddSymbol(tokens[pos].lexeme, k);
        Match(Id);
        c := MoreIdentifiers(k);
      }
    }

    method MoreIdentifiers(k: Kind) returns (c: Completion)
      requires Valid()
      modifies this
      ensures Valid()
      ensures Report(c) == ParseMoreIdentifiers(tokens, old(AsState()), k)
      decreases |tokens| - pos, 0
    {
      c := Normal;
      if tokens[pos].Name() == Comma {
        NotLast(tokens, AsState());
        Match(Comma);
        if !tokens[pos].Identifier? {
          return Threw(ClassCast);
        }
        AddSymbol(tokens[pos].lexeme, k);
        Match(Id);
        c := MoreIdentifiers(k);
      }
    }

    method AddSymbol(name: string, k: Kind)
      modifies this`table
      ensures table == WithSymbol(old(table), name, k)
    {
      if name !in table {
        table := table[name := k];
      }
    }

    method Match(k: Kind)
      requires Valid()
      modifies this`pos
      ensures Valid()
      ensures AsState() == MatchToken(tokens, old(AsState()), k)
    {
      if tokens[pos].Name() == k {
        pos := Next(tokens, pos);
      }
    }
  }
}
