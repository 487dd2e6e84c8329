/**
 * The token stream the parsers read. The lexical analyzer is not part of
 * this model: its output is a sequence of tokens that ends with the
 * `end_program` token, and the parsers keep an index into it.
 */
module Tokens {
  import opened JavaInt

  /**
   * Token names: `getName()` returns one of a fixed set of strings, and the
   * model numbers them, one named constant per string.
   */
  newtype Kind = k: int | 0 <= k < 35
  const Void: Kind := 0
  const KwMain: Kind := 1
  const OpenCurlyBracket: Kind := 2
  const ClosedCurlyBracket: Kind := 3
  const Int: Kind := 4
  const Float: Kind := 5
  const Boolean: Kind := 6
  const Id: Kind := 7
  const Comma: Kind := 8
  const Semicolon: Kind := 9
  const Assignment: Kind := 10
  const If: Kind := 11
  const Else: Kind := 12
  const While: Kind := 13
  const Do: Kind := 14
  const Print: Kind := 15
  const OpenParenthesis: Kind := 16
  const ClosedParenthesis: Kind := 17
  const Or: Kind := 18
  const And: Kind := 19
  const Not: Kind := 20
  const True: Kind := 21
  const False: Kind := 22
  const LessThan: Kind := 23
  const LessEquals: Kind := 24
  const GreaterThan: Kind := 25
  const GreaterEquals: Kind := 26
  const Equals: Kind := 27
  const NotEquals: Kind := 28
  const Add: Kind := 29
  const Subtract: Kind := 30
  const Multiply: Kind := 31
  const Divide: Kind := 32
  const Remainder: Kind := 33
  const EndProgram: Kind := 34

  /**
   * A token object. Identifiers and numbers are subclasses that carry a
   * payload; every other token is known by its name only.
   */
  datatype Token =
    | Word(kind: Kind)
    | Identifier(lexeme: string)
    | IntegerNumber(value: Int32)
    | RealNumber(text: string)   // the double's printed form
  {
    /** `getName()` */
    function Name(): Kind {
      match this
      case Word(k) => k
      case Identifier(_) => Id
      case IntegerNumber(_) => Int
      case RealNumber(_) => Float
    }
  }

  /** What the lexical analyzer hands over: a non-empty stream ending with `end_program`. */
  predicate Terminated(ts: seq<Token>) {
    |ts| > 0 && ts[|ts| - 1].Name() == EndProgram
  }

  /** The position after `getToken()`: one further on, except at the final `end_program`. */
  function Next(ts: seq<Token>, pos: nat): (r: nat)
    requires pos < |ts|
    ensures r < |ts|
    ensures pos < |ts| - 1 ==> r == pos + 1
    ensures pos == |ts| - 1 ==> r == pos
  {
    if pos + 1 < |ts| then pos + 1 else pos
  }

  predicate IsTypeName(k: Kind) { k == Int || k == Float || k == Boolean }

  // Where a spelling sits in a token stream.

  /** The token `i` places after `pos`, or a placeholder past the end. */
  function Tok(ts: seq<Token>, pos: nat, i: nat): Token {
    if pos + i < |ts| then ts[pos + i] else Word(EndProgram)
  }

  /** The tokens of `w` appear in `ts` one after another from position `pos`. */
  predicate At(ts: seq<Token>, pos: nat, w: seq<Token>) {
    pos + |w| <= |ts| && forall i: nat {:trigger Tok(ts, pos, i)} :: i < |w| ==> Tok(ts, pos, i) == w[i]
  }

  lemma AtAppend(ts: seq<Token>, pos: nat, a: seq<Token>, b: seq<Token>)
    ensures At(ts, pos, a + b) <==> At(ts, pos, a) && At(ts, pos + |a|, b)
  {
    if At(ts, pos, a) && At(ts, pos + |a|, b) {
      forall i: nat | i < |a + b| ensures Tok(ts, pos, i) == (a + b)[i] {
        if i < |a| {
          assert Tok(ts, pos, i) == a[i];
        } else {
          assert Tok(ts, pos + |a|, i - |a|) == b[i - |a|];
        }
      }
    }
    if At(ts, pos, a + b) {
      forall i: nat | i < |a| ensures Tok(ts, pos, i) == a[i] {
        assert Tok(ts, pos, i) == (a + b)[i];
      }
      forall i: nat | i < |b| ensures Tok(ts, pos + |a|, i) == b[i] {
        assert Tok(ts, pos, |a| + i) == (a + b)[|a| + i];
      }
    }
  }

  /** The first token of a spelling sits at its position. */
  lemma AtHead(ts: seq<Token>, pos: nat, w: seq<Token>)
    requires At(ts, pos, w) && w != []
    ensures pos < |ts| && ts[pos] == w[0]
  {
    assert Tok(ts, pos, 0) == w[0];
  }

  lemma AtInside(pre: seq<Token>, w: seq<Token>, post: seq<Token>)
    ensures At(pre + w + post, |pre|, w)
  {
    forall i: nat | i < |w| ensures Tok(pre + w + post, |pre|, i) == w[i] {
      assert (pre + w + post)[|pre| + i] == (pre + w)[|pre| + i];
    }
  }

  /** The first two tokens of a phrase. */
  lemma {:induction false} TwoAt(ts: seq<Token>, p: nat, a: Token, b: Token, rest: seq<Token>)
    requires At(ts, p, [a, b] + rest)
    ensures p + 1 < |ts| && ts[p] == a && ts[p + 1] == b
    ensures At(ts, p + 2, rest)
  {
    AtAppend(ts, p, [a, b], rest);
    assert Tok(ts, p, 0) == [a, b][0];
    assert Tok(ts, p, 1) == [a, b][1];
  }

  // The tokens of a list of declared names.

  /** `, id` for every name. */
  function SpellMoreNames(ns: seq<string>): seq<Token> {
    if ns == [] then [] else [Word(Comma), Identifier(ns[0])] + SpellMoreNames(ns[1..])
  }

  function SpellNames(ns: seq<string>): seq<Token>
    requires ns != []
  {
    [Identifier(ns[0])] + SpellMoreNames(ns[1..])
  }
}
