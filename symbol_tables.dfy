/**
 * The symbol table both declaration parsers build, the rule by which a name
 * is entered (the first declaration wins), and the listing their
 * `symbolTable()` methods write.
 */
module SymbolTables {
  import opened Tokens

  /** Each declared name with its type's token name. */
  type SymbolTable = map<string, Kind>

  /** No entry of `t` is ever removed or given another type. */
  predicate Extends(t: SymbolTable, u: SymbolTable) {
    forall n :: n in t ==> n in u && u[n] == t[n]
  }

  /** Every entry's type is one of `int`, `float`, `boolean`. */
  predicate Typed(t: SymbolTable) {
    forall n :: n in t ==> IsTypeName(t[n])
  }

  /** The table after entering `name` with type `k`: a name already there keeps its first type. */
  function WithSymbol(t: SymbolTable, name: string, k: Kind): (u: SymbolTable)
    ensures Extends(t, u)
    ensures u.Keys == t.Keys + {name}
    ensures u[name] == if name in t then t[name] else k
  {
    if name !in t then t[name := k] else t
  }

  /** `u` keeps every entry of `t`, and every name it adds has type `k`. */
  predicate Enters(t: SymbolTable, u: SymbolTable, k: Kind) {
    Extends(t, u) && forall n :: n in u && n !in t ==> u[n] == k
  }

  /** Entering one name with type `k` and then more names with type `k` enters only names of type `k`. */
  lemma EntersStep(t: SymbolTable, m: SymbolTable, u: SymbolTable, name: string, k: Kind)
    requires m == WithSymbol(t, name, k) && Enters(m, u, k)
    ensures Enters(t, u, k)
  {
  }

  /** `u` is `t` with every name of `ns` it lacked entered with type `k`. */
  ghost predicate Adds(t: SymbolTable, ns: seq<string>, k: Kind, u: SymbolTable) {
    && (forall n :: n in u <==> n in t || n in ns)
    && (forall n | n in u :: u[n] == if n in t then t[n] else k)
  }

  /** Entering one name, then the rest of the list. */
  lemma {:induction false} AddsStep(t: SymbolTable, ns: seq<string>, k: Kind, u: SymbolTable)
    requires ns != []
    requires Adds(WithSymbol(t, ns[0], k), ns[1..], k, u)
    ensures Adds(t, ns, k, u)
  {
    var t1 := WithSymbol(t, ns[0], k);
    forall n ensures n in u <==> n in t || n in ns {
      assert n in ns <==> n == ns[0] || n in ns[1..] by {
        assert ns == [ns[0]] + ns[1..];
      }
    }
  }

  // The text `symbolTable()` builds.

  /** The type's printed form: the name of its type token. */
  function TypeText(k: Kind): string {
    if k == Int then "int"
    else if k == Float then "float"
    else if k == Boolean then "boolean"
    else ""
  }

  /** One entry of the listing: `<'name', type> ` and a line break. */
  function Line(name: string, k: Kind): string {
    "<'" + name + "', " + TypeText(k) + "> \n"
  }

  /** `order` lists every entry of the table exactly once: the iteration order of `entrySet()`. */
  predicate Enumerates(order: seq<string>, t: SymbolTable) {
    && (forall i, j | 0 <= i < j < |order| :: order[i] != order[j])
    && (forall n | n in t :: n in order)
    && (forall n | n in order :: n in t)
  }

  /** The lines of the entries named by `order`, in that order. */
  function Listing(order: seq<string>, t: SymbolTable): string
    requires forall n | n in order :: n in t
  {
    if order == [] then ""
    else Listing(order[..|order| - 1], t) + Line(order[|order| - 1], t[order[|order| - 1]])
  }

  /** The loop both `symbolTable()` methods run over the entries of `t`, in the order `order`. */
  method ListingText(order: seq<string>, t: SymbolTable) returns (text: string)
    requires Enumerates(order, t)
    ensures text == Listing(order, t)
  {
    text := "";
    var i := 0;
    while i < |order|
      invariant 0 <= i <= |order|
      invariant text == Listing(order[..i], t)
    {
      assert order[..i + 1][..i] == order[..i];
      text := text + Line(order[i], t[order[i]]);
      i := i + 1;
    }
    assert order[..i] == order;
  }

  /** How often `c` occurs in `s`. */
  function Count(s: string, c: char): nat {
    if s == [] then 0 else (if s[0] == c then 1 else 0) + Count(s[1..], c)
  }

  lemma {:induction false} CountAppend(a: string, b: string, c: char)
    ensures Count(a + b, c) == Count(a, c) + Count(b, c)
    decreases a
  {
    if a != [] {
      assert (a + b)[0] == a[0] && (a + b)[1..] == a[1..] + b;
      CountAppend(a[1..], b, c);
      assert Count(a + b, c) == (if a[0] == c then 1 else 0) + Count(a[1..] + b, c);
    } else {
      assert a + b == b;
    }
  }

  lemma {:induction false} CountAbsent(s: string, c: char)
    requires c !in s
    ensures Count(s, c) == 0
    decreases s
  {
    if s != [] {
      CountAbsent(s[1..], c);
    }
  }

  /** An entry's line holds exactly one line break when its name holds none. */
  lemma {:induction false} LineBreaks(name: string, k: Kind)
    requires '\n' !in name
    ensures Count(Line(name, k), '\n') == 1
  {
    var ty := TypeText(k);
    assert '\n' !in ty;
    CountAbsent(name, '\n');
    CountAbsent(ty, '\n');
    CountAbsent("<'", '\n');
    CountAbsent("', ", '\n');
    CountAppend("<'", name, '\n');
    CountAppend("<'" + name, "', ", '\n');
    CountAppend("<'" + name + "', ", ty, '\n');
    CountAppend("<'" + name + "', " + ty, "> \n", '\n');
  }

  /** The listing of the entries `order` names has one line per name. */
  lemma {:induction false} ListingBreaks(order: seq<string>, t: SymbolTable)
    requires forall n | n in order :: n in t && '\n' !in n
    ensures Count(Listing(order, t), '\n') == |order|
    decreases |order|
  {
    if order != [] {
      var last := order[|order| - 1];
      var init := order[..|order| - 1];
      assert forall n | n in init :: n in order;
      ListingBreaks(init, t);
      LineBreaks(last, t[last]);
      CountAppend(Listing(init, t), Line(last, t[last]), '\n');
    }
  }

  /** A sequence without repetitions has as many elements as its set. */
  lemma {:induction false} DistinctCard(order: seq<string>)
    requires forall i, j | 0 <= i < j < |order| :: order[i] != order[j]
    ensures |set n | n in order| == |order|
    decreases |order|
  {
    if order != [] {
      var last := order[|order| - 1];
      var init := order[..|order| - 1];
      DistinctCard(init);
      assert last !in init;
      assert (set n | n in order) == (set n | n in init) + {last};
    }
  }

  /**
   * `symbolTable()` writes exactly one line per table entry, whatever order
   * the entries come in (names hold no line breaks).
   */
  lemma {:induction false} ListingHasOneLinePerEntry(order: seq<string>, t: SymbolTable)
    requires Enumerates(order, t)
    requires forall n | n in t :: '\n' !in n
    ensures Count(Listing(order, t), '\n') == |t|
  {
    ListingBreaks(order, t);
    DistinctCard(order);
    assert (set n | n in order) == t.Keys;
  }
}
