/**
 * Labels in the front end's code: every label an instruction names was
 * handed out by `newLabel()` while that instruction was parsed, and no label
 * is placed (`label_L` or `label L`) twice. Over a whole compilation, the
 * code names only labels below the final counter and places each at most
 * once, so jumps of different instructions can never be confused.
 *
 * A label is counted as placed by either form, `label_L` or `label L`.
 * The no-else `if` jumps with `goFalse label_L` but writes `label L`, so
 * its text never contains the `label_L` its jump names: the statements
 * here are about label numbers, not about the spelling of the text.
 *
 * The statements are about the stretch of code a parsing step appends,
 * `r.code[|s.code|..]`, and about steps that complete normally.
 */
module FrontendLabels {
  import opened Exceptions
  import opened Tokens
  import opened Frontend

  /** `i` places a label. */
  predicate Places(i: Instr) { i.Label? || i.LabelSpaced? }

  /** Every instruction of `seg` that names a label names one of `lo .. hi - 1`. */
  predicate NamesWithin(seg: seq<Instr>, lo: nat, hi: nat) {
    forall j | 0 <= j < |seg| && seg[j].UsesLabel() :: lo <= seg[j].target < hi
  }

  /** No label is placed twice in `seg`. */
  predicate PlacesOnce(seg: seq<Instr>) {
    forall j, k | 0 <= j < k < |seg| && Places(seg[j]) && Places(seg[k]) :: seg[j].target != seg[k].target
  }

  /** The labels `seg` names come from `lo .. hi - 1`, and none is placed twice. */
  predicate Fresh(seg: seq<Instr>, lo: nat, hi: nat) {
    NamesWithin(seg, lo, hi) && PlacesOnce(seg)
  }

  /** `seg` names no label. */
  predicate Unlabelled(seg: seq<Instr>) {
    forall j | 0 <= j < |seg| :: !seg[j].UsesLabel()
  }

  // Joining stretches of code.

  lemma {:induction false} UnlabelledFresh(seg: seq<Instr>, lo: nat, hi: nat)
    requires Unlabelled(seg)
    ensures Fresh(seg, lo, hi)
  {
  }

  lemma {:induction false} UnlabelledJoin(x: seq<Instr>, y: seq<Instr>)
    requires Unlabelled(x) && Unlabelled(y)
    ensures Unlabelled(x + y)
  {
    forall j | 0 <= j < |x + y| ensures !(x + y)[j].UsesLabel() {
      if j >= |x| {
        assert (x + y)[j] == y[j - |x|];
      }
    }
  }

  /** What `NoLabels` says about the instructions appended after `from`. */
  lemma {:induction false} NoLabelsAfter(code: seq<Instr>, from: nat)
    requires from <= |code| && NoLabels(code, from)
    ensures Unlabelled(code[from..])
  {
    forall j | 0 <= j < |code[from..]| ensures !code[from..][j].UsesLabel() {
      assert code[from..][j] == code[from + j];
    }
  }

  /** Every label `seg` places is one of `lo .. hi - 1`. */
  predicate PlacedWithin(seg: seq<Instr>, lo: nat, hi: nat) {
    forall j | 0 <= j < |seg| && Places(seg[j]) :: lo <= seg[j].target < hi
  }

  lemma {:induction false} FreshPlaced(seg: seq<Instr>, lo: nat, hi: nat)
    requires Fresh(seg, lo, hi)
    ensures PlacedWithin(seg, lo, hi)
  {
  }

  lemma {:induction false} Widen(seg: seq<Instr>, lo: nat, hi: nat, lo': nat, hi': nat)
    requires Fresh(seg, lo, hi) && lo' <= lo && hi <= hi'
    ensures Fresh(seg, lo', hi')
  {
  }

  /**
   * Two stretches, one after the other, that place labels from ranges that
   * do not overlap: together they still place no label twice.
   */
  lemma {:induction false} Join(x: seq<Instr>, y: seq<Instr>, lo: nat, hi: nat,
                                p1: nat, q1: nat, p2: nat, q2: nat, p: nat, q: nat)
    requires Fresh(x, lo, hi) && Fresh(y, lo, hi)
    requires PlacedWithin(x, p1, q1) && PlacedWithin(y, p2, q2) && (q1 <= p2 || q2 <= p1)
    requires p <= p1 && p <= p2 && q1 <= q && q2 <= q
    ensures Fresh(x + y, lo, hi) && PlacedWithin(x + y, p, q)
  {
    var z := x + y;
    forall j | 0 <= j < |z| && z[j].UsesLabel() ensures lo <= z[j].target < hi && (Places(z[j]) ==> p <= z[j].target < q) {
      if j < |x| {
        assert z[j] == x[j];
      } else {
        assert z[j] == y[j - |x|];
      }
    }
    forall j, k | 0 <= j < k < |z| && Places(z[j]) && Places(z[k]) ensures z[j].target != z[k].target {
      if k < |x| {
        assert z[j] == x[j] && z[k] == x[k];
      } else if j >= |x| {
        assert z[j] == y[j - |x|] && z[k] == y[k - |x|];
      } else {
        assert z[j] == x[j] && z[k] == y[k - |x|];
      }
    }
  }

  /** Two stretches appended one after the other, the second taking labels after the first. */
  lemma {:induction false} Sequence(x: seq<Instr>, y: seq<Instr>, lo: nat, mid: nat, hi: nat)
    requires Fresh(x, lo, mid) && Fresh(y, mid, hi) && lo <= mid <= hi
    ensures Fresh(x + y, lo, hi)
  {
    Widen(x, lo, mid, lo, hi);
    Widen(y, mid, hi, lo, hi);
    Join(x, y, lo, hi, lo, mid, mid, hi, lo, hi);
  }

  /** Code appended in two steps is the concatenation of the two stretches. */
  lemma {:induction false} Split(a: seq<Instr>, b: seq<Instr>, c: seq<Instr>)
    requires a <= b <= c
    ensures c[|a|..] == b[|a|..] + c[|b|..]
  {
    assert c == b + c[|b|..];
    assert b == a + b[|a|..];
  }

  // The layouts of the instructions that take labels.

  /** A condition's code followed by a jump to `l`: it places nothing. */
  lemma {:induction false} GuardShape(c: seq<Instr>, jump: Instr, lo: nat, hi: nat, p: nat)
    requires Unlabelled(c) && jump.UsesLabel() && !Places(jump) && lo <= jump.target < hi
    ensures Fresh(c + [jump], lo, hi) && PlacedWithin(c + [jump], p, p)
  {
    var z := c + [jump];
    assert forall j | 0 <= j < |c| :: z[j] == c[j];
    assert z[|c|] == jump;
  }

  /** `c; goFalse label_L; S; label L` */
  lemma {:induction false} IfShape(c: seq<Instr>, body: seq<Instr>, l: nat, n: nat)
    requires Unlabelled(c) && Fresh(body, l + 1, n) && l < n
    ensures Fresh(c + [GoFalse(l)] + body + [LabelSpaced(l)], l, n)
  {
    GuardShape(c, GoFalse(l), l, n, l + 1);
    FreshPlaced(body, l + 1, n);
    Widen(body, l + 1, n, l, n);
    Join(c + [GoFalse(l)], body, l, n, l + 1, l + 1, l + 1, n, l + 1, n);
    Join(c + [GoFalse(l)] + body, [LabelSpaced(l)], l, n, l + 1, n, l, l + 1, l, n);
  }

  /** `c; goFalse label_L; S; goto label_M; label_L; T; label_M` */
  lemma {:induction false} IfElseShape(c: seq<Instr>, body: seq<Instr>, other: seq<Instr>, l: nat, m: nat, n: nat)
    requires Unlabelled(c) && Fresh(body, l + 1, m) && Fresh(other, m + 1, n) && l < m < n
    ensures Fresh(c + [GoFalse(l)] + body + [Goto(m), Label(l)] + other + [Label(m)], l, n)
  {
    GuardShape(c, GoFalse(l), l, n, l + 1);
    FreshPlaced(body, l + 1, m);
    Widen(body, l + 1, m, l, n);
    Join(c + [GoFalse(l)], body, l, n, l + 1, l + 1, l + 1, m, l + 1, m);
    var x := c + [GoFalse(l)] + body;
    Join(x, [Goto(m), Label(l)], l, n, l + 1, m, l, l + 1, l, m);
    FreshPlaced(other, m + 1, n);
    Widen(other, m + 1, n, l, n);
    Join(other, [Label(m)], l, n, m + 1, n, m, m + 1, m, n);
    Join(x + [Goto(m), Label(l)], other + [Label(m)], l, n, l, m, m, n, l, n);
    assert x + [Goto(m), Label(l)] + (other + [Label(m)]) == x + [Goto(m), Label(l)] + other + [Label(m)];
  }

  /** `label_T; c; gofalse label_O; S; goto label_T; label_O` with `O = T + 1` */
  lemma {:induction false} WhileShape(c: seq<Instr>, body: seq<Instr>, t: nat, n: nat)
    requires Unlabelled(c) && Fresh(body, t + 2, n) && t + 1 < n
    ensures Fresh([Label(t)] + c + [GoFalseLower(t + 1)] + body + [Goto(t), Label(t + 1)], t, n)
  {
    GuardShape(c, GoFalseLower(t + 1), t, n, t + 2);
    FreshPlaced(body, t + 2, n);
    Widen(body, t + 2, n, t, n);
    var x := c + [GoFalseLower(t + 1)] + body;
    Join(c + [GoFalseLower(t + 1)], body, t, n, t + 2, t + 2, t + 2, n, t + 2, n);
    Join(x, [Goto(t), Label(t + 1)], t, n, t + 2, n, t + 1, t + 2, t + 1, n);
    Join([Label(t)], x + [Goto(t), Label(t + 1)], t, n, t, t + 1, t + 1, n, t, n);
    assert [Label(t)] + (x + [Goto(t), Label(t + 1)]) == [Label(t)] + c + [GoFalseLower(t + 1)] + body + [Goto(t), Label(t + 1)];
  }

  /** `label_T; S; c; gofalse label_O; goto label_T; label_O` */
  lemma {:induction false} DoShape(body: seq<Instr>, c: seq<Instr>, t: nat, o: nat)
    requires Fresh(body, t + 1, o) && Unlabelled(c) && t < o
    ensures Fresh([Label(t)] + body + c + [GoFalseLower(o), Goto(t), Label(o)], t, o + 1)
  {
    FreshPlaced(body, t + 1, o);
    Widen(body, t + 1, o, t, o + 1);
    UnlabelledFresh(c, t, o + 1);
    Join(body, c, t, o + 1, t + 1, o, o, o, t + 1, o);
    var x := body + c;
    Join(x, [GoFalseLower(o), Goto(t), Label(o)], t, o + 1, t + 1, o, o, o + 1, t + 1, o + 1);
    Join([Label(t)], x + [GoFalseLower(o), Goto(t), Label(o)], t, o + 1, t, t + 1, t + 1, o + 1, t, o + 1);
    assert [Label(t)] + (x + [GoFalseLower(o), Goto(t), Label(o)]) == [Label(t)] + body + c + [GoFalseLower(o), Goto(t), Label(o)];
  }

  // Steps of the parser.

  /** A step that takes no label and names none. */
  predicate Silent(s: State, r: State) {
    r.nextLabel == s.nextLabel && NoLabels(r.code, |s.code|)
  }

  /** The code a step appends names only labels it took, and places none twice. */
  predicate FreshStep(s: State, r: State) {
    s.code <= r.code && s.nextLabel <= r.nextLabel && Fresh(r.code[|s.code|..], s.nextLabel, r.nextLabel)
  }

  lemma {:induction false} SilentThen(s: State, a: State, b: State)
    requires s.code <= a.code <= b.code && Silent(s, a) && Silent(a, b)
    ensures Silent(s, b)
  {
    forall j | |s.code| <= j < |b.code| ensures !b.code[j].UsesLabel() {
      if j < |a.code| {
        assert b.code[j] == a.code[j];
      }
    }
  }

  lemma {:induction false} SilentFresh(s: State, r: State)
    requires s.code <= r.code && Silent(s, r)
    ensures FreshStep(s, r)
  {
    NoLabelsAfter(r.code, |s.code|);
    UnlabelledFresh(r.code[|s.code|..], s.nextLabel, r.nextLabel);
  }

  lemma {:induction false} FreshThen(s: State, a: State, b: State)
    requires FreshStep(s, a) && FreshStep(a, b)
    ensures FreshStep(s, b)
  {
    Split(s.code, a.code, b.code);
    Sequence(a.code[|s.code|..], b.code[|a.code|..], s.nextLabel, a.nextLabel, b.nextLabel);
  }

  /** A step whose appended code is `seg`. */
  lemma {:induction false} Appended(s: State, r: State, seg: seq<Instr>)
    requires r.code == s.code + seg && s.nextLabel <= r.nextLabel && Fresh(seg, s.nextLabel, r.nextLabel)
    ensures FreshStep(s, r)
  {
    assert r.code[|s.code|..] == seg;
  }

  // Declarations take no label.

  lemma {:induction false} OptionalAssignmentLabels(ts: seq<Token>, s: State, x: string)
    requires s.Valid(ts)
    ensures Silent(s, ParseOptionalAssignment(ts, s, x).st)
  {
    if s.Current(ts).Name() == Assignment {
      var s1 := MatchToken(ts, Emit(s, Lvalue(x)), Assignment);
      var r2 := ParseLogicExpression(ts, s1);
      assert Silent(s, s1);
      SilentThen(s, s1, r2.st);
      if r2.Ok? {
        var s3 := Emit(r2.st, Assign);
        assert Silent(r2.st, s3);
        SilentThen(s, r2.st, s3);
      }
    }
  }

  lemma {:induction false} MoreIdentifiersLabels(ts: seq<Token>, s: State, k: Kind)
    requires s.Valid(ts)
    ensures Silent(s, ParseMoreIdentifiers(ts, s, k).st)
    decreases |ts| - s.pos
  {
    if s.Current(ts).Name() == Comma {
      NotLast(ts, s);
      var s1 := MatchToken(ts, s, Comma);
      if s1.Current(ts).Identifier? {
        var s2 := MatchToken(ts, Declare(s1, s1.Current(ts).lexeme, k), Id);
        var r3 := ParseOptionalAssignment(ts, s2, s1.Current(ts).lexeme);
        OptionalAssignmentLabels(ts, s2, s1.Current(ts).lexeme);
        if r3.Ok? {
          MoreIdentifiersLabels(ts, r3.st, k);
          SilentThen(s2, r3.st, ParseMoreIdentifiers(ts, r3.st, k).st);
        }
      }
    }
  }

  lemma {:induction false} IdentifiersLabels(ts: seq<Token>, s: State, k: Kind)
    requires s.Valid(ts)
    ensures Silent(s, ParseIdentifiers(ts, s, k).st)
  {
    if s.Current(ts).Name() == Id && s.Current(ts).Identifier? {
      var s1 := MatchToken(ts, Declare(s, s.Current(ts).lexeme, k), Id);
      var r2 := ParseOptionalAssignment(ts, s1, s.Current(ts).lexeme);
      OptionalAssignmentLabels(ts, s1, s.Current(ts).lexeme);
      if r2.Ok? {
        MoreIdentifiersLabels(ts, r2.st, k);
        SilentThen(s1, r2.st, ParseMoreIdentifiers(ts, r2.st, k).st);
      }
    }
  }

  /** A declaration, even as an instruction, takes no label and names none. */
  lemma {:induction false} DeclarationLabels(ts: seq<Token>, s: State)
    requires s.Valid(ts)
    ensures Silent(s, ParseDeclaration(ts, s).st)
  {
    var (k, s1) := ParseType(ts, s);
    IdentifiersLabels(ts, s1, k);
  }

  lemma {:induction false} DeclarationsLabels(ts: seq<Token>, s: State)
    requires s.Valid(ts)
    ensures Silent(s, ParseDeclarations(ts, s).st)
    decreases |ts| - s.pos
  {
    if IsTypeName(s.Current(ts).Name()) {
      var r1 := ParseDeclaration(ts, s);
      DeclarationLabels(ts, s);
      if r1.Ok? {
        DeclarationsLabels(ts, r1.st);
        SilentThen(s, r1.st, ParseDeclarations(ts, r1.st).st);
      }
    }
  }

  // Instructions take their own labels.

  /** An assignment takes no label and names none. */
  lemma {:induction false} AssignmentLabels(ts: seq<Token>, s: State)
    requires s.Valid(ts) && s.Current(ts).Name() == Id
    ensures Silent(s, ParseAssignment(ts, s).st)
  {
    if s.Current(ts).Identifier? {
      NotLast(ts, s);
      var x := s.Current(ts).lexeme;
      var s1 := MatchToken(ts, Emit(MatchToken(ts, s, Id), Lvalue(x)), Assignment);
      var r2 := ParseLogicExpression(ts, s1);
      assert Silent(s, s1);
      SilentThen(s, s1, r2.st);
      if r2.Ok? {
        AssignmentEndLabels(ts, s, r2.st, x);
        SilentThen(s, r2.st, AssignmentEnd(ts, s, r2.st, x).st);
      }
    }
  }

  lemma {:induction false} AssignmentEndLabels(ts: seq<Token>, s0: State, s: State, x: string)
    requires s.Valid(ts) && s.pos > s0.pos && Follows(ts, s0, s)
    ensures Silent(s, AssignmentEnd(ts, s0, s, x).st)
  {
  }

  /** `if`: the condition names nothing, then `goFalse` names `out`, which the end places. */
  lemma {:induction false} IfLabels(ts: seq<Token>, s: State)
    requires s.Valid(ts) && s.Current(ts).Name() == If
    ensures ParseIf(ts, s).Ok? ==> FreshStep(s, ParseIf(ts, s).st)
    decreases |ts| - s.pos, 11
  {
    NotLast(ts, s);
    var s1 := MatchToken(ts, MatchToken(ts, s, If), OpenParenthesis);
    var r2 := ParseLogicExpression(ts, s1);
    if r2.Ok? {
      var (out, s3) := TakeLabel(MatchToken(ts, r2.st, ClosedParenthesis));
      var e := Emit(s3, GoFalse(out));
      var r4 := ParseInstruction(ts, e);
      if r4.Ok? {
        InstructionLabels(ts, e);
        var c, body := IfHeadCode(s, r2.st, e, r4.st, out);
        IfEndLabels(ts, s, r4.st, out, c, body);
      }
    }
  }

  /** The code of an `if` up to the end of its "then" branch. */
  lemma {:induction false} IfHeadCode(s: State, s2: State, e: State, r: State, out: nat)
    returns (c: seq<Instr>, body: seq<Instr>)
    requires s.code <= s2.code && Silent(s, s2) && out == s.nextLabel
    requires e.code == s2.code + [GoFalse(out)] && e.nextLabel == out + 1
    requires FreshStep(e, r)
    ensures r.code == s.code + c + [GoFalse(out)] + body
    ensures Unlabelled(c) && Fresh(body, out + 1, r.nextLabel) && out < r.nextLabel
  {
    c := s2.code[|s.code|..];
    NoLabelsAfter(s2.code, |s.code|);
    body := r.code[|e.code|..];
    assert s2.code == s.code + c;
    assert r.code == e.code + body;
  }

  /** The end of an `if`: `label L`, or a `goto` past the `else` branch and both labels. */
  lemma {:induction false} IfEndLabels(ts: seq<Token>, s0: State, s: State, out: nat, c: seq<Instr>, body: seq<Instr>)
    requires s.Valid(ts) && s.pos > s0.pos && Follows(ts, s0, s)
    requires Unlabelled(c) && s.code == s0.code + c + [GoFalse(out)] + body
    requires Fresh(body, out + 1, s.nextLabel) && out == s0.nextLabel && out < s.nextLabel
    ensures IfEnd(ts, s0, s, out).Ok? ==> FreshStep(s0, IfEnd(ts, s0, s, out).st)
    decreases |ts| - s0.pos, 10
  {
    if s.Current(ts).Name() == Else {
      NotLast(ts, s);
      var (m, s1) := TakeLabel(s);
      var t := MatchToken(ts, Emit(Emit(s1, Goto(m)), Label(out)), Else);
      var r2 := ParseInstruction(ts, t);
      if r2.Ok? {
        InstructionLabels(ts, t);
        IfElseCode(s0, s, t, r2.st, out, c, body);
      }
    } else {
      IfShape(c, body, out, s.nextLabel);
      var seg := c + [GoFalse(out)] + body + [LabelSpaced(out)];
      Appended(s0, Emit(s, LabelSpaced(out)), seg);
    }
  }

  /** The code of an `if` with an `else` branch. */
  lemma {:induction false} IfElseCode(s0: State, s: State, t: State, r: State, out: nat, c: seq<Instr>, body: seq<Instr>)
    requires Unlabelled(c) && s.code == s0.code + c + [GoFalse(out)] + body
    requires Fresh(body, out + 1, s.nextLabel) && out == s0.nextLabel && out < s.nextLabel
    requires t.code == s.code + [Goto(s.nextLabel), Label(out)] && t.nextLabel == s.nextLabel + 1
    requires FreshStep(t, r)
    ensures FreshStep(s0, Emit(r, Label(s.nextLabel)))
  {
    var m := s.nextLabel;
    var other := r.code[|t.code|..];
    assert r.code == t.code + other;
    IfElseShape(c, body, other, out, m, r.nextLabel);
    var seg := c + [GoFalse(out)] + body + [Goto(m), Label(out)] + other + [Label(m)];
    Appended(s0, Emit(r, Label(m)), seg);
  }

  /** `while`: both of its labels are taken before its body takes any. */
  lemma {:induction false} WhileLabels(ts: seq<Token>, s: State)
    requires s.Valid(ts) && s.Current(ts).Name() == While
    ensures ParseWhile(ts, s).Ok? ==> FreshStep(s, ParseWhile(ts, s).st)
    decreases |ts| - s.pos, 11
  {
    var s2 := WhileHead(ts, s);
    var r3 := ParseLogicExpression(ts, s2);
    if r3.Ok? {
      var e := WhileGuard(ts, s, s2, r3.st);
      var r5 := ParseInstruction(ts, e);
      if r5.Ok? {
        InstructionLabels(ts, e);
        WhileCode(s, s2, r3.st, e, r5.st);
      }
    }
  }

  /** The code of a `while` loop, from the code of its condition and of its body. */
  lemma {:induction false} WhileCode(s: State, s2: State, s3: State, e: State, r: State)
    requires s2.code == s.code + [Label(s.nextLabel)] && s2.nextLabel == s.nextLabel + 1
    requires s2.code <= s3.code && Silent(s2, s3)
    requires e.code == s3.code + [GoFalseLower(s.nextLabel + 1)] && e.nextLabel == s.nextLabel + 2
    requires FreshStep(e, r)
    ensures FreshStep(s, Emit(Emit(r, Goto(s.nextLabel)), Label(s.nextLabel + 1)))
  {
    var test := s.nextLabel;
    var c := s3.code[|s2.code|..];
    NoLabelsAfter(s3.code, |s2.code|);
    var body := r.code[|e.code|..];
    WhileShape(c, body, test, r.nextLabel);
    var seg := [Label(test)] + c + [GoFalseLower(test + 1)] + body + [Goto(test), Label(test + 1)];
    assert s3.code == s2.code + c;
    assert r.code == e.code + body;
    Appended(s, Emit(Emit(r, Goto(test)), Label(test + 1)), seg);
  }

  /** `while (` matched and `label_T` written; a condition that throws makes the loop throw. */
  lemma {:induction false} WhileHead(ts: seq<Token>, s: State) returns (s2: State)
    requires s.Valid(ts) && s.Current(ts).Name() == While
    ensures s2 == Emit(MatchToken(ts, MatchToken(ts, TakeLabel(s).1, While), OpenParenthesis), Label(s.nextLabel))
    ensures s2.Valid(ts) && s2.pos > s.pos && s2.code == s.code + [Label(s.nextLabel)] && s2.nextLabel == s.nextLabel + 1
    ensures ParseLogicExpression(ts, s2).Thrown? ==> ParseWhile(ts, s).Thrown?
  {
    NotLast(ts, s);
    s2 := Emit(MatchToken(ts, MatchToken(ts, TakeLabel(s).1, While), OpenParenthesis), Label(s.nextLabel));
  }

  /** After the condition: `gofalse label_O` and `)`, then the body and the closing jumps. */
  lemma {:induction false} WhileGuard(ts: seq<Token>, s: State, s2: State, s3: State) returns (e: State)
    requires s.Valid(ts) && s.Current(ts).Name() == While
    requires s2 == Emit(MatchToken(ts, MatchToken(ts, TakeLabel(s).1, While), OpenParenthesis), Label(s.nextLabel))
    requires s2.Valid(ts) && s2.pos > s.pos && s2.nextLabel == s.nextLabel + 1
    requires ParseLogicExpression(ts, s2) == Ok(s3)
    ensures e.Valid(ts) && e.pos > s.pos
    ensures e.code == s3.code + [GoFalseLower(s.nextLabel + 1)] && e.nextLabel == s.nextLabel + 2
    ensures ParseInstruction(ts, e).Ok? ==>
              ParseWhile(ts, s) == Ok(Emit(Emit(ParseInstruction(ts, e).st, Goto(s.nextLabel)), Label(s.nextLabel + 1)))
    ensures ParseInstruction(ts, e).Thrown? ==> ParseWhile(ts, s).Thrown?
  {
    NotLast(ts, s);
    e := MatchToken(ts, Emit(TakeLabel(s3).1, GoFalseLower(s3.nextLabel)), ClosedParenthesis);
  }

  /** `do`: the test label is placed before the body, the exit label is taken after it. */
  lemma {:induction false} DoLabels(ts: seq<Token>, s: State)
    requires s.Valid(ts) && s.Current(ts).Name() == Do
    ensures ParseDo(ts, s).Ok? ==> FreshStep(s, ParseDo(ts, s).st)
    decreases |ts| - s.pos, 11
  {
    NotLast(ts, s);
    var (test, s1) := TakeLabel(MatchToken(ts, s, Do));
    var e := Emit(s1, Label(test));
    var r2 := ParseInstruction(ts, e);
    if r2.Ok? {
      InstructionLabels(ts, e);
      var body := r2.st.code[|e.code|..];
      assert r2.st.code == s.code + [Label(test)] + body;
      DoEndLabels(ts, s, r2.st, test, body);
    }
  }

  /** The end of a `do` loop: the condition, then the jumps and the exit label. */
  lemma {:induction false} DoEndLabels(ts: seq<Token>, s0: State, s: State, test: nat, body: seq<Instr>)
    requires s.Valid(ts) && s.pos > s0.pos && Follows(ts, s0, s)
    requires s.code == s0.code + [Label(test)] + body
    requires Fresh(body, test + 1, s.nextLabel) && test == s0.nextLabel && test < s.nextLabel
    ensures DoEnd(ts, s0, s, test).Ok? ==> FreshStep(s0, DoEnd(ts, s0, s, test).st)
  {
    var a := MatchToken(ts, MatchToken(ts, s, While), OpenParenthesis);
    var r1 := ParseLogicExpression(ts, a);
    if r1.Ok? {
      var (out, s2) := TakeLabel(MatchToken(ts, r1.st, ClosedParenthesis));
      var r := MatchToken(ts, Emit(Emit(Emit(s2, GoFalseLower(out)), Goto(test)), Label(out)), Semicolon);
      DoCode(s0, s, r1.st, r, test, body);
    }
  }

  /** The code of a `do` loop, from the code of its body and of its condition. */
  lemma {:induction false} DoCode(s0: State, s: State, s1: State, r: State, test: nat, body: seq<Instr>)
    requires s.code == s0.code + [Label(test)] + body
    requires Fresh(body, test + 1, s.nextLabel) && test == s0.nextLabel && test < s.nextLabel
    requires s.code <= s1.code && Silent(s, s1)
    requires r.code == s1.code + [GoFalseLower(s.nextLabel), Goto(test), Label(s.nextLabel)] && r.nextLabel == s.nextLabel + 1
    ensures FreshStep(s0, r)
  {
    var out := s.nextLabel;
    var c := s1.code[|s.code|..];
    NoLabelsAfter(s1.code, |s.code|);
    assert s1.code == s.code + c;
    DoShape(body, c, test, out);
    var seg := [Label(test)] + body + c + [GoFalseLower(out), Goto(test), Label(out)];
    Appended(s0, r, seg);
  }

  /**
   * `instruction()`: the code of one instruction names only labels taken
   * while it was parsed, and places each of them at most once.
   */
  lemma {:induction false} InstructionLabels(ts: seq<Token>, s: State)
    requires s.Valid(ts)
    ensures ParseInstruction(ts, s).Ok? ==> FreshStep(s, ParseInstruction(ts, s).st)
    decreases |ts| - s.pos, 12
  {
    var k := s.Current(ts).Name();
    if IsTypeName(k) {
      DeclarationLabels(ts, s);
      SilentFresh(s, ParseDeclaration(ts, s).st);
    } else if k == Id {
      AssignmentLabels(ts, s);
      SilentFresh(s, ParseAssignment(ts, s).st);
    } else if k == If {
      IfLabels(ts, s);
    } else if k == While {
      WhileLabels(ts, s);
    } else if k == Do {
      DoLabels(ts, s);
    } else if k == Print {
      SilentFresh(s, ParsePrint(ts, s).st);
    } else if k == OpenCurlyBracket {
      NotLast(ts, s);
      InstructionsLabels(ts, MatchToken(ts, s, OpenCurlyBracket));
    }
  }

  /** `instructions()`: the same for a sequence of instructions. */
  lemma {:induction false} InstructionsLabels(ts: seq<Token>, s: State)
    requires s.Valid(ts)
    ensures ParseInstructions(ts, s).Ok? ==> FreshStep(s, ParseInstructions(ts, s).st)
    decreases |ts| - s.pos, 13
  {
    if StartsInstruction(s.Current(ts).Name()) {
      var r1 := ParseInstruction(ts, s);
      if r1.Ok? {
        InstructionLabels(ts, s);
        InstructionsLabels(ts, r1.st);
        if ParseInstructions(ts, r1.st).Ok? {
          FreshThen(s, r1.st, ParseInstructions(ts, r1.st).st);
        }
      }
    }
  }

  /**
   * A whole compilation: the code names only labels below the final counter
   * and places no label twice.
   */
  lemma {:induction false} ProgramLabels(ts: seq<Token>)
    requires Terminated(ts)
    ensures ParseProgram(ts, Start()).Ok? ==>
      Fresh(ParseProgram(ts, Start()).st.code, 0, ParseProgram(ts, Start()).st.nextLabel)
  {
    var s1 := MatchToken(ts, MatchToken(ts, MatchToken(ts, Start(), Void), KwMain), OpenCurlyBracket);
    var r2 := ParseDeclarations(ts, s1);
    DeclarationsLabels(ts, s1);
    if r2.Ok? {
      SilentFresh(s1, r2.st);
      var r3 := ParseInstructions(ts, r2.st);
      if r3.Ok? {
        InstructionsLabels(ts, r2.st);
        FreshThen(s1, r2.st, r3.st);
        assert r3.st.code[0..] == r3.st.code;
        Sequence(r3.st.code, [Halt], 0, r3.st.nextLabel, r3.st.nextLabel);
      }
    }
  }
}
