# Three recursive-descent parsers, modelled and proved in Dafny

The repository contains three small compilers. Each is a recursive-descent
parser that does semantic work while it reads a token stream. It has a
current-token field, a `match` that moves on only when the current token has
the expected name, and one method per grammar rule. Its state is held in
fields that the methods update in place.

- **The stack-machine front end** (`src/stackmachine/frontend/SyntaxAnalyzer.java`)
  reads `void main { declarations instructions }`. While it parses it:
  - enters declared names in a symbol table;
  - writes stack-machine instructions (`push`, `rvalue`, `lvalue`, `=`, the
    operators, `label_L`, `goto`, `goFalse`/`gofalse`, `print`, `halt`);
  - allocates labels for jumps;
  - evaluates every arithmetic expression on a stack against the values
    assigned so far;
  - collects error messages in a string. `compile()` succeeds when that
    string is empty.
- **The infix-to-postfix translator** (`src/translator/PostfixTranslator.java`)
  reads an integer expression. It appends the postfix text to a string and
  evaluates the expression on a stack of `int`s. `evaluate()` pops the value.
- **The declarations parser** (`src/variables/SyntaxAnalyzer.java`) reads
  `void main { (type id (, id)* ;)* }` into a symbol table in which the
  first declaration of a name wins.

Each parser is modelled in two layers:

- A pure `State` datatype with one function per Java method
  (`Frontend.ParseIf`, `Translator.ParseMoreTerms`, …). Each function threads
  the state and returns `Ok(state)`, or `Thrown(fault, state)` for the Java
  runtime exception the method raises.
- A class with the Java fields (`Frontend.SyntaxAnalyzer`,
  `Translator.PostfixTranslator`, `Variables.SyntaxAnalyzer`). Its methods
  follow the Java bodies statement by statement, update the fields in place,
  and are proved to have exactly the effect of the corresponding function.

The properties are proved as lemmas over the functions. They relate each
parse to an independent reference. The reference is a derivation tree
(`Arith.Expr`) with:

- the tokens it spells;
- its value under Java `int` arithmetic (`Arith.EvalExpr`, built on `JavaInt`);
- its postfix text (`Translator.PostfixExpr`);
- its stack-machine code (`FrontendProofs.CodeExpr`).

Declarations are related to a list of `Decl` values in the same way.

Modules:

| module | file | contents |
|---|---|---|
| `Tokens` | `tokens.dfy` | token names, tokens, the terminated stream, the tokens of a name list |
| `Exceptions` | `exceptions.dfy` | the runtime exceptions and the types that carry them |
| `JavaInt` | `java_int.dfy` | 32-bit wrap-around, truncating `/`, dividend-signed `%`, decimal text and its value |
| `Arith` | `arith.dfy` | derivation trees of the arithmetic grammar, their tokens, where they sit in a stream, their values |
| `SymbolTables` | `symbol_tables.dfy` | first-declaration-wins entry, the `symbolTable()` listing and its loop |
| `Translator`, `TranslatorProofs` | `translator.dfy`, `translator_proofs.dfy` | the postfix translator |
| `Variables`, `VariablesProofs` | `variables.dfy`, `variables_proofs.dfy` | the declarations parser |
| `Frontend`, `FrontendProofs`, `FrontendDeclarations`, `FrontendLabels` | `frontend.dfy`, `frontend_proofs.dfy`, `frontend_declarations.dfy`, `frontend_labels.dfy` | the stack-machine front end |

## Model

| member | source | states |
|---|---|---|
| Frontend.MatchToken | src/stackmachine/frontend/SyntaxAnalyzer.java:667-679 | a matching token moves one token on and adds no message; otherwise the position stays and exactly one "expected" message is added; nothing else changes |
| Frontend.TakeLabel | src/stackmachine/frontend/SyntaxAnalyzer.java:108-112 | returns the current counter and leaves it incremented by one |
| Frontend.Declare | src/stackmachine/frontend/SyntaxAnalyzer.java:656-664 | an undeclared name is entered with the type and no message is added; a declared one keeps its first type and exactly one "already declared" message is added |
| Frontend.Store | src/stackmachine/frontend/SyntaxAnalyzer.java:646-654 | the value is stored exactly when the name is declared; otherwise the values are unchanged and one "not declared" message is added |
| Frontend.ParseProgram | src/stackmachine/frontend/SyntaxAnalyzer.java:115-127 | on normal completion `halt` is the last instruction; instructions and messages are only appended, and the label counter never goes back |
| Frontend.ProgramBody | src/stackmachine/frontend/SyntaxAnalyzer.java:121-126 | the instructions, the closing bracket and `halt`, which ends the code on normal completion |
| Frontend.ParseDeclarations | src/stackmachine/frontend/SyntaxAnalyzer.java:129-136 | reads declarations exactly while the current token is a type name; returns at once otherwise, and stops at a token that is not a type |
| Frontend.ParseDeclaration | src/stackmachine/frontend/SyntaxAnalyzer.java:138-141 | `type identifiers ;`: consumes at least the type token |
| Frontend.ParseType | src/stackmachine/frontend/SyntaxAnalyzer.java:143-159 | returns the current token's name; consumes the token exactly when it is `int`, `float` or `boolean`, and changes nothing else |
| Frontend.ParseIdentifiers | src/stackmachine/frontend/SyntaxAnalyzer.java:161-175 | the state only moves forward; no entry of the table is removed or retyped, and every name the list adds, initializers included, gets the declaration's type. The exact names and messages of a list without initializers are stated by `FrontendDeclarations.NamesDeclare`, and those of a one-name `type x = e ;` by `FrontendDeclarations.InitializedDeclaration` |
| Frontend.ParseMoreIdentifiers | src/stackmachine/frontend/SyntaxAnalyzer.java:177-195 | without a comma it changes nothing; otherwise the state only moves forward, no entry of the table is removed or retyped, and every name it adds gets the declaration's type. The exact names and messages of `, id` pairs without initializers are stated by `FrontendDeclarations.MoreNamesDeclare` |
| Frontend.ParseOptionalAssignment | src/stackmachine/frontend/SyntaxAnalyzer.java:197-215 | without a `=` it changes nothing; otherwise the state only moves forward, and the symbol table and the label counter are unchanged. What `= e` writes and stores, for an arithmetic `e`, is stated by `FrontendProofs.InitializerCompiles` |
| Frontend.ParseInstructions | src/stackmachine/frontend/SyntaxAnalyzer.java:218-232 | reads instructions exactly while one can start; stops at a token that starts none |
| Frontend.ParseInstruction | src/stackmachine/frontend/SyntaxAnalyzer.java:235-369 | an instruction that completes consumes at least one token; a token that starts none adds exactly an "instruction error" message and changes nothing else |
| Frontend.ParseAssignment | src/stackmachine/frontend/SyntaxAnalyzer.java:241-259 | `id = logic-expression ;` consumes tokens and only moves the state forward |
| Frontend.AssignmentEnd | src/stackmachine/frontend/SyntaxAnalyzer.java:253-258 | the pop, the `(int)` cast, `addValue`, `=` and `;` keep the state moving forward |
| Frontend.ParseIf | src/stackmachine/frontend/SyntaxAnalyzer.java:261-296 | the `if` instruction consumes tokens and only moves the state forward |
| Frontend.IfEnd | src/stackmachine/frontend/SyntaxAnalyzer.java:278-295 | the optional `else` branch and the closing labels keep the state moving forward |
| Frontend.ParseWhile | src/stackmachine/frontend/SyntaxAnalyzer.java:298-319 | the `while` instruction consumes tokens and only moves the state forward |
| Frontend.ParseDo | src/stackmachine/frontend/SyntaxAnalyzer.java:321-343 | the `do` instruction consumes tokens and only moves the state forward |
| Frontend.DoEnd | src/stackmachine/frontend/SyntaxAnalyzer.java:329-342 | `while ( c ) ;` after the body, with its jumps, keeps the state moving forward |
| Frontend.ParsePrint | src/stackmachine/frontend/SyntaxAnalyzer.java:345-357 | `print ( id ) ;` changes no symbol, value, stack entry or label, and writes no label; its exact effect is stated by `FrontendProofs.PrintCompiles` |
| Frontend.ParseLogicExpression | src/stackmachine/frontend/SyntaxAnalyzer.java:373-376 | the logic layer changes no symbol, value or label counter and writes no label |
| Frontend.ParseMoreLogicTerms | src/stackmachine/frontend/SyntaxAnalyzer.java:393-400 | without a `\|\|` it changes nothing; no symbol, value or label changes (what `e1 \|\| e2` compiles to: `FrontendProofs.LogicPairCompiles`) |
| Frontend.ParseLogicTerm | src/stackmachine/frontend/SyntaxAnalyzer.java:379-382 | as for the logic expression |
| Frontend.ParseMoreLogicFactors | src/stackmachine/frontend/SyntaxAnalyzer.java:384-391 | without a `&&` it changes nothing; no symbol, value or label changes (what `e1 && e2` compiles to: `FrontendProofs.LogicPairCompiles`) |
| Frontend.ParseLogicFactor | src/stackmachine/frontend/SyntaxAnalyzer.java:404-421 | `true` and `false` are consumed and nothing else changes; no symbol, value or label changes (`!`: `FrontendProofs.NegationsIgnored`) |
| Frontend.ParseRelational | src/stackmachine/frontend/SyntaxAnalyzer.java:425-434 | a comparison changes no symbol, value or label counter and writes no label |
| Frontend.ParseRelationalOperator | src/stackmachine/frontend/SyntaxAnalyzer.java:437-475 | writes no code and leaves the stack alone; for `==` and `!=` it returns `""`, consumes nothing and adds exactly one "relational operator expected" message |
| Frontend.ParseExpression | src/stackmachine/frontend/SyntaxAnalyzer.java:593-596 | arithmetic changes no symbol, value or label counter and writes no label |
| Frontend.ParseMoreTerms | src/stackmachine/frontend/SyntaxAnalyzer.java:607-643 | as for the expression |
| Frontend.MoreTermsRest | src/stackmachine/frontend/SyntaxAnalyzer.java:615-624 | as for the expression |
| Frontend.ParseTerm | src/stackmachine/frontend/SyntaxAnalyzer.java:599-602 | as for the expression |
| Frontend.ParseMoreFactors | src/stackmachine/frontend/SyntaxAnalyzer.java:536-589 | as for the expression |
| Frontend.MoreFactorsRest | src/stackmachine/frontend/SyntaxAnalyzer.java:544-587 | as for the expression, including the extra `push` after `%` |
| Frontend.ParseFactor | src/stackmachine/frontend/SyntaxAnalyzer.java:479-530 | as for the expression |
| Frontend.ApplyTop | src/stackmachine/frontend/SyntaxAnalyzer.java:547-549 | two pops and a push change only the stack; on success the top is an `int` |
| Frontend.SyntaxAnalyzer.constructor | src/stackmachine/frontend/SyntaxAnalyzer.java:58-68 | the first token is current, the table, values, stack, code and messages are empty, and labels start at 0 |
| Frontend.SyntaxAnalyzer.Compile | src/stackmachine/frontend/SyntaxAnalyzer.java:71-79 | has the effect of `ParseProgram`; returns true exactly when the parse completed and no message was added |
| Frontend.SyntaxAnalyzer.IntermediateCode | src/stackmachine/frontend/SyntaxAnalyzer.java:86-93 | the loop's result is every instruction's line followed by a line break, in order (`CodeText`) |
| Frontend.SyntaxAnalyzer.SymbolTableText | src/stackmachine/frontend/SyntaxAnalyzer.java:95-105 | the loop's result is one `<'name', type> ` line per entry, in the enumeration order given |
| Frontend.SyntaxAnalyzer.NewLabel | src/stackmachine/frontend/SyntaxAnalyzer.java:108-112 | has the effect of `TakeLabel` |
| Frontend.SyntaxAnalyzer.Program | src/stackmachine/frontend/SyntaxAnalyzer.java:115-127 | has the effect of `ParseProgram` |
| Frontend.SyntaxAnalyzer.Declarations | src/stackmachine/frontend/SyntaxAnalyzer.java:129-136 | has the effect of `ParseDeclarations` |
| Frontend.SyntaxAnalyzer.Declaration | src/stackmachine/frontend/SyntaxAnalyzer.java:138-141 | has the effect of `ParseDeclaration` |
| Frontend.SyntaxAnalyzer.Type | src/stackmachine/frontend/SyntaxAnalyzer.java:143-159 | has the effect of `ParseType` |
| Frontend.SyntaxAnalyzer.Identifiers | src/stackmachine/frontend/SyntaxAnalyzer.java:161-175 | has the effect of `ParseIdentifiers` |
| Frontend.SyntaxAnalyzer.MoreIdentifiers | src/stackmachine/frontend/SyntaxAnalyzer.java:177-195 | has the effect of `ParseMoreIdentifiers` |
| Frontend.SyntaxAnalyzer.OptionalAssignment | src/stackmachine/frontend/SyntaxAnalyzer.java:197-215 | has the effect of `ParseOptionalAssignment` |
| Frontend.SyntaxAnalyzer.Instructions | src/stackmachine/frontend/SyntaxAnalyzer.java:218-232 | has the effect of `ParseInstructions` |
| Frontend.SyntaxAnalyzer.Instruction | src/stackmachine/frontend/SyntaxAnalyzer.java:235-369 | has the effect of `ParseInstruction` |
| Frontend.SyntaxAnalyzer.AssignInstruction | src/stackmachine/frontend/SyntaxAnalyzer.java:241-259 | has the effect of `ParseAssignment` |
| Frontend.SyntaxAnalyzer.FinishAssignment | src/stackmachine/frontend/SyntaxAnalyzer.java:253-258 | has the effect of `AssignmentEnd` |
| Frontend.SyntaxAnalyzer.IfInstruction | src/stackmachine/frontend/SyntaxAnalyzer.java:261-296 | has the effect of `ParseIf` |
| Frontend.SyntaxAnalyzer.WhileInstruction | src/stackmachine/frontend/SyntaxAnalyzer.java:298-319 | has the effect of `ParseWhile` |
| Frontend.SyntaxAnalyzer.DoInstruction | src/stackmachine/frontend/SyntaxAnalyzer.java:321-343 | has the effect of `ParseDo` |
| Frontend.SyntaxAnalyzer.PrintInstruction | src/stackmachine/frontend/SyntaxAnalyzer.java:345-357 | has the effect of `ParsePrint` |
| Frontend.SyntaxAnalyzer.LogicExpression | src/stackmachine/frontend/SyntaxAnalyzer.java:373-376 | has the effect of `ParseLogicExpression` |
| Frontend.SyntaxAnalyzer.MoreLogicTerms | src/stackmachine/frontend/SyntaxAnalyzer.java:393-400 | has the effect of `ParseMoreLogicTerms` |
| Frontend.SyntaxAnalyzer.LogicTerm | src/stackmachine/frontend/SyntaxAnalyzer.java:379-382 | has the effect of `ParseLogicTerm` |
| Frontend.SyntaxAnalyzer.MoreLogicFactors | src/stackmachine/frontend/SyntaxAnalyzer.java:384-391 | has the effect of `ParseMoreLogicFactors` |
| Frontend.SyntaxAnalyzer.LogicFactor | src/stackmachine/frontend/SyntaxAnalyzer.java:404-421 | has the effect of `ParseLogicFactor` |
| Frontend.SyntaxAnalyzer.RelationalExpression | src/stackmachine/frontend/SyntaxAnalyzer.java:425-434 | has the effect of `ParseRelational` |
| Frontend.SyntaxAnalyzer.RelationalOperator | src/stackmachine/frontend/SyntaxAnalyzer.java:437-475 | has the effect of `ParseRelationalOperator` |
| Frontend.SyntaxAnalyzer.Expression | src/stackmachine/frontend/SyntaxAnalyzer.java:593-596 | has the effect of `ParseExpression` |
| Frontend.SyntaxAnalyzer.MoreTerms | src/stackmachine/frontend/SyntaxAnalyzer.java:607-643 | has the effect of `ParseMoreTerms` |
| Frontend.SyntaxAnalyzer.Term | src/stackmachine/frontend/SyntaxAnalyzer.java:599-602 | has the effect of `ParseTerm` |
| Frontend.SyntaxAnalyzer.MoreFactors | src/stackmachine/frontend/SyntaxAnalyzer.java:536-589 | has the effect of `ParseMoreFactors` |
| Frontend.SyntaxAnalyzer.Factor | src/stackmachine/frontend/SyntaxAnalyzer.java:479-530 | has the effect of `ParseFactor` |
| Frontend.SyntaxAnalyzer.Combine | src/stackmachine/frontend/SyntaxAnalyzer.java:618-622 | has the effect of `ApplyTop`: the two pops and `(int)` casts, the push, and the exception each step can throw |
| Frontend.SyntaxAnalyzer.AddValue | src/stackmachine/frontend/SyntaxAnalyzer.java:646-654 | has the effect of `Store` |
| Frontend.SyntaxAnalyzer.AddSymbol | src/stackmachine/frontend/SyntaxAnalyzer.java:656-664 | has the effect of `Declare` |
| Frontend.SyntaxAnalyzer.Match | src/stackmachine/frontend/SyntaxAnalyzer.java:667-679 | has the effect of `MatchToken` |
| FrontendProofs.ExpressionCompiles | src/stackmachine/frontend/SyntaxAnalyzer.java:479-643 | an expression consumes exactly its tokens. It writes its postfix code: `push n`/`rvalue x` per operand, each operator after both operands, and `push r` after every `%`. It leaves its value on top of the stack, with `int` operations taking the second-popped value on the left, and adds no message; or it throws what evaluating it throws |
| FrontendProofs.TermCompiles | src/stackmachine/frontend/SyntaxAnalyzer.java:599-602 | the same for a term |
| FrontendProofs.MoreTermsCompile | src/stackmachine/frontend/SyntaxAnalyzer.java:607-643 | `+`/`-` chains combine left to right onto the value below them |
| FrontendProofs.MoreTermCompiles | src/stackmachine/frontend/SyntaxAnalyzer.java:608-624 | one `+`/`-` step: the right term's code, the operator, then the rest applied to `left op right` |
| FrontendProofs.MoreFactorCompiles | src/stackmachine/frontend/SyntaxAnalyzer.java:536-589 | one `*`/`/`/`%` step: the factor's code, the operator, `push r` for `%`, then the rest |
| FrontendProofs.FactorCompiles | src/stackmachine/frontend/SyntaxAnalyzer.java:479-530 | a factor pushes exactly one value and writes its code |
| FrontendProofs.LeafCompiles | src/stackmachine/frontend/SyntaxAnalyzer.java:485-524 | an identifier pushes its assigned `int` (a missing one throws on unboxing, a real one on the cast); a literal pushes itself |
| FrontendProofs.ParenCompiles | src/stackmachine/frontend/SyntaxAnalyzer.java:480-484 | a parenthesised expression writes exactly its inner code |
| FrontendProofs.ConditionCompiles | src/stackmachine/frontend/SyntaxAnalyzer.java:373-421 | a condition that is an arithmetic expression compiles exactly as that expression: the logic layer adds nothing |
| FrontendProofs.ComparisonCompiles | src/stackmachine/frontend/SyntaxAnalyzer.java:425-456 | `e1 op e2` writes both operands' code and then the operator, and leaves both values on the stack |
| FrontendProofs.LogicFactorCompiles | src/stackmachine/frontend/SyntaxAnalyzer.java:404-421 | a logic factor that is an arithmetic expression, with no relational operator after it, compiles exactly as that expression |
| FrontendProofs.LogicPairCompiles | src/stackmachine/frontend/SyntaxAnalyzer.java:379-400 | `e1 \|\| e2` and `e1 && e2` write both operands' code and no instruction for the operator, leave both values on the stack and compute no truth value; or they throw what evaluating an operand throws |
| FrontendProofs.OrOperand | src/stackmachine/frontend/SyntaxAnalyzer.java:393-400 | after `e1`, `\|\| e2` appends exactly `e2`'s code and value |
| FrontendProofs.AndOperand | src/stackmachine/frontend/SyntaxAnalyzer.java:384-391 | after `e1`, `&& e2` appends exactly `e2`'s code and value |
| FrontendProofs.NegationsIgnored | src/stackmachine/frontend/SyntaxAnalyzer.java:404-408 | any run of `!` before a logic factor leaves no trace: the factor compiles as if the `!`s were absent |
| FrontendProofs.PrintCompiles | src/stackmachine/frontend/SyntaxAnalyzer.java:345-357 | `print ( x ) ;` writes exactly `print x`, whether or not `x` is declared, and changes nothing else |
| FrontendProofs.PrintCastFails | src/stackmachine/frontend/SyntaxAnalyzer.java:349-350 | a token after `print (` that is not an identifier throws the class-cast exception, with nothing written |
| FrontendProofs.EqualityRejected | src/stackmachine/frontend/SyntaxAnalyzer.java:458-474 | after `e1`, an `==` or `!=` adds one "relational operator expected" message and an empty relation line, and stays in place |
| FrontendProofs.AssignmentCompiles | src/stackmachine/frontend/SyntaxAnalyzer.java:241-259 | `x = e ;` writes `lvalue x`, the code of `e` and `=`. The value must be an `int`: a real one throws. It is stored exactly when `x` is declared, and otherwise one "not declared" message is added. The stack and the other fields are as before |
| FrontendProofs.InitializerCompiles | src/stackmachine/frontend/SyntaxAnalyzer.java:197-215 | `= e` in a declaration writes `lvalue x`, the code and `=`, and stores the value uncast, so a real value is stored too |
| FrontendDeclarations.RedeclaredNone | src/stackmachine/frontend/SyntaxAnalyzer.java:656-664 | a name list adds no "already declared" message exactly when its names are new and pairwise distinct |
| FrontendDeclarations.MoreNamesDeclare | src/stackmachine/frontend/SyntaxAnalyzer.java:177-195 | `, x1 , x2 …` enters every name the table lacked with the type, keeps the first type of the others, adds one "already declared" message per repeat, and changes nothing else |
| FrontendDeclarations.NamesDeclare | src/stackmachine/frontend/SyntaxAnalyzer.java:161-175 | the same for a whole name list `x1 , x2 …` |
| FrontendDeclarations.DeclarationDeclares | src/stackmachine/frontend/SyntaxAnalyzer.java:138-141 | the instruction `type x1 , x2 … ;` reads exactly its tokens and enters its names as above |
| FrontendDeclarations.InitializedDeclaration | src/stackmachine/frontend/SyntaxAnalyzer.java:138-215 | `type x = e ;` enters `x`, writes `lvalue x`, the code of `e` and `=`, and stores `e`'s value uncast under `x`: a new name gets its initial value with no "not declared" message; a repeated one keeps its type, takes the value and adds one "already declared" message; or it throws what evaluating `e` throws |
| FrontendProofs.IfLayout | src/stackmachine/frontend/SyntaxAnalyzer.java:261-296 | `if (c) S` writes `c; goFalse label_L; S; label L` with L the next label. With `else T` it writes `…; S; goto label_M; label_L; T; label_M` with M the first label after S's, so L < M |
| FrontendProofs.WhileLayout | src/stackmachine/frontend/SyntaxAnalyzer.java:298-319 | `while (c) S` writes `label_T; c; gofalse label_O; S; goto label_T; label_O` with T the next label and O = T + 1 |
| FrontendProofs.DoLayout | src/stackmachine/frontend/SyntaxAnalyzer.java:321-343 | `do S while (c);` writes `label_T; S; c; gofalse label_O; goto label_T; label_O` with T the next label and O the first after S's, so T < O; `c` sees the values S assigned |
| FrontendLabels.ProgramLabels | src/stackmachine/frontend/SyntaxAnalyzer.java:108-112 | in the code of a whole compilation, every label named is one that `newLabel()` handed out, and no label is placed twice |
| FrontendLabels.InstructionLabels | src/stackmachine/frontend/SyntaxAnalyzer.java:235-369 | an instruction only names labels it took itself, and places each of them at most once |
| FrontendLabels.InstructionsLabels | src/stackmachine/frontend/SyntaxAnalyzer.java:218-232 | the same for a sequence of instructions |
| FrontendLabels.DeclarationLabels | src/stackmachine/frontend/SyntaxAnalyzer.java:138-215 | a declaration writes no label and takes none |
| FrontendLabels.DeclarationsLabels | src/stackmachine/frontend/SyntaxAnalyzer.java:129-136 | the declarations of a program write no label and take none |
| FrontendLabels.AssignmentLabels | src/stackmachine/frontend/SyntaxAnalyzer.java:241-259 | an assignment writes no label and takes none |
| FrontendLabels.IfLabels | src/stackmachine/frontend/SyntaxAnalyzer.java:261-296 | an `if` names only its own labels and those its branches took, and places each once |
| FrontendLabels.WhileLabels | src/stackmachine/frontend/SyntaxAnalyzer.java:298-319 | a `while` names only its two labels and those its body took, and places each once |
| FrontendLabels.DoLabels | src/stackmachine/frontend/SyntaxAnalyzer.java:321-343 | a `do` loop names only its two labels and those its body took, and places each once |
| Translator.MatchToken | src/translator/PostfixTranslator.java:151-156 | only the position changes, never backwards, and the stack and text stay |
| Translator.ApplyTop | src/translator/PostfixTranslator.java:86-89 | the pops and the push change only the stack |
| Translator.ParseExpression | src/translator/PostfixTranslator.java:105-108 | the parse stays inside the stream and never moves backwards |
| Translator.ParseMoreTerms | src/translator/PostfixTranslator.java:119-142 | as for the expression |
| Translator.MoreTermsRest | src/translator/PostfixTranslator.java:124-130 | as for the expression |
| Translator.ParseTerm | src/translator/PostfixTranslator.java:111-114 | as for the expression |
| Translator.ParseMoreFactors | src/translator/PostfixTranslator.java:70-101 | as for the expression |
| Translator.MoreFactorsRest | src/translator/PostfixTranslator.java:75-90 | as for the expression |
| Translator.ParseFactor | src/translator/PostfixTranslator.java:47-64 | as for the expression |
| Translator.PostfixTranslator.constructor | src/translator/PostfixTranslator.java:31-36 | the first token is current; the stack and text are empty |
| Translator.PostfixTranslator.Translate | src/translator/PostfixTranslator.java:39-43 | has the effect of `ParseExpression` and returns the postfix text |
| Translator.PostfixTranslator.Evaluate | src/translator/PostfixTranslator.java:145-148 | pops and returns the top of the stack; an empty stack throws |
| Translator.PostfixTranslator.Match | src/translator/PostfixTranslator.java:151-156 | moves exactly one token on exactly when the name matches, and otherwise stays |
| Translator.PostfixTranslator.Pop2Push | src/translator/PostfixTranslator.java:126-129 | has the effect of `ApplyTop` |
| Translator.PostfixTranslator.Expression | src/translator/PostfixTranslator.java:105-108 | has the effect of `ParseExpression` |
| Translator.PostfixTranslator.MoreTerms | src/translator/PostfixTranslator.java:119-142 | has the effect of `ParseMoreTerms` |
| Translator.PostfixTranslator.Term | src/translator/PostfixTranslator.java:111-114 | has the effect of `ParseTerm` |
| Translator.PostfixTranslator.MoreFactors | src/translator/PostfixTranslator.java:70-101 | has the effect of `ParseMoreFactors` |
| Translator.PostfixTranslator.Factor | src/translator/PostfixTranslator.java:47-64 | has the effect of `ParseFactor` |
| TranslatorProofs.ExpressionTranslates | src/translator/PostfixTranslator.java:47-142 | an integer expression consumes exactly its tokens. It appends its postfix text (each literal as ` n `, each operator after its right operand, no parentheses). It leaves its value on top of the stack: `* / %` bind tighter than `+ -`, all are left-associative, and Java `int` arithmetic applies. Or it throws what evaluating it throws |
| TranslatorProofs.TermTranslates | src/translator/PostfixTranslator.java:111-114 | the same for a term |
| TranslatorProofs.MoreTermsTranslates | src/translator/PostfixTranslator.java:119-142 | `a - b - c` is `(a - b) - c`: each operator is applied before the rest is read |
| TranslatorProofs.MoreTermTranslates | src/translator/PostfixTranslator.java:120-130 | one `+`/`-` step: the term's text, the operator, then the rest applied to `left op right` |
| TranslatorProofs.MoreFactorTranslates | src/translator/PostfixTranslator.java:70-101 | one `*`/`/`/`%` step, with `second-popped op first-popped` |
| TranslatorProofs.NumTranslates | src/translator/PostfixTranslator.java:52-58 | a literal appends ` n ` and pushes `n` |
| TranslatorProofs.ParenTranslates | src/translator/PostfixTranslator.java:48-51 | a parenthesised expression contributes exactly its inner postfix text |
| TranslatorProofs.ApplyTopOnTwo | src/translator/PostfixTranslator.java:86-89 | with `left` under `right` on the stack, the result is `left op right`; a zero divisor throws |
| TranslatorProofs.TranslatesProgram | src/translator/PostfixTranslator.java:39-43 | on a whole input the stack ends with exactly one entry, the value |
| TranslatorProofs.TranslateAndEvaluate | src/translator/PostfixTranslator.java:145-148 | `translate()` then `evaluate()` return the postfix text and the value of the expression, or the exception evaluating it throws |
| TranslatorProofs.SampleTokens | src/translator/TestProgram.java:49 | the token stream of `((10 * 3) + (50 / 5)) * 2 / 4` |
| TranslatorProofs.SamplePostfix | src/translator/TestProgram.java:56 | its postfix text is ` 10  3  *  50  5  /  +  2  *  4  / ` |
| TranslatorProofs.SampleValue | src/translator/TestProgram.java:57 | its value is 20 |
| TranslatorProofs.RunSample | src/translator/TestProgram.java:49-57 | the test program prints that text and the value 20 |
| Variables.MatchToken | src/variables/SyntaxAnalyzer.java:136-145 | before the last token, moves exactly one token on exactly when the name matches; otherwise stays; the table is unchanged |
| Variables.ParseProgram | src/variables/SyntaxAnalyzer.java:53-61 | keeps every entry and its type, and every entry's type is a type name |
| Variables.ParseDeclarations | src/variables/SyntaxAnalyzer.java:63-70 | reads declarations exactly while the current token is a type name; each one consumes at least that token |
| Variables.ParseDeclaration | src/variables/SyntaxAnalyzer.java:72-75 | consumes at least the type token and enters names only with a type name |
| Variables.ParseType | src/variables/SyntaxAnalyzer.java:77-93 | returns the current token's name and consumes the token exactly when it is a type |
| Variables.ParseIdentifiers | src/variables/SyntaxAnalyzer.java:95-107 | every name the list adds gets the declaration's type |
| Variables.ParseMoreIdentifiers | src/variables/SyntaxAnalyzer.java:109-124 | every name it adds gets the declaration's type; the token after a comma is cast unchecked |
| Variables.SyntaxAnalyzer.constructor | src/variables/SyntaxAnalyzer.java:32-36 | the first token is current and the table is empty |
| Variables.SyntaxAnalyzer.SymbolTableText | src/variables/SyntaxAnalyzer.java:38-47 | the loop's result is one `<'name', type> ` line per entry, in the enumeration order given |
| Variables.SyntaxAnalyzer.Compile | src/variables/SyntaxAnalyzer.java:49-51 | has the effect of `ParseProgram` |
| Variables.SyntaxAnalyzer.Program | src/variables/SyntaxAnalyzer.java:53-61 | has the effect of `ParseProgram` |
| Variables.SyntaxAnalyzer.Declarations | src/variables/SyntaxAnalyzer.java:63-70 | has the effect of `ParseDeclarations` |
| Variables.SyntaxAnalyzer.Declaration | src/variables/SyntaxAnalyzer.java:72-75 | has the effect of `ParseDeclaration` |
| Variables.SyntaxAnalyzer.Type | src/variables/SyntaxAnalyzer.java:77-93 | has the effect of `ParseType` |
| Variables.SyntaxAnalyzer.Identifiers | src/variables/SyntaxAnalyzer.java:95-107 | has the effect of `ParseIdentifiers` |
| Variables.SyntaxAnalyzer.MoreIdentifiers | src/variables/SyntaxAnalyzer.java:109-124 | has the effect of `ParseMoreIdentifiers` |
| Variables.SyntaxAnalyzer.AddSymbol | src/variables/SyntaxAnalyzer.java:126-132 | the table becomes `WithSymbol(table, name, type)` |
| Variables.SyntaxAnalyzer.Match | src/variables/SyntaxAnalyzer.java:136-145 | has the effect of `MatchToken` |
| VariablesProofs.MoreIdentifiersParse | src/variables/SyntaxAnalyzer.java:109-124 | reads every `, id` pair and enters each name it lacked with the type |
| VariablesProofs.IdentifiersParse | src/variables/SyntaxAnalyzer.java:95-107 | reads a whole name list and enters every name it lacked with the declaration's type |
| VariablesProofs.DeclarationParse | src/variables/SyntaxAnalyzer.java:72-75 | reads `type names ;` completely |
| VariablesProofs.DeclarationsParse | src/variables/SyntaxAnalyzer.java:63-70 | reads every declaration and enters each name with the type of its first declaration |
| VariablesProofs.ProgramParse | src/variables/SyntaxAnalyzer.java:53-61 | a whole program parses to a table holding exactly the declared names, each with its first declared type |
| VariablesProofs.TwoDeclarations | src/variables/SyntaxAnalyzer.java:126-132 | for two declarations, a name in both gets the first one's type |
| VariablesProofs.FirstDeclarationWins | src/variables/SyntaxAnalyzer.java:126-132 | `int a; float a, b;` gives `a` type `int` and `b` type `float` |
| VariablesProofs.SampleTokens | src/variables/TestProgram.java:28 | the token stream of `void main { int a, b, c, d; float x, y, z; }` |
| VariablesProofs.SampleTable | src/variables/TestProgram.java:28-37 | its table maps `a` to `d` to `int` and `x` to `z` to `float`, and nothing else |
| SymbolTables.WithSymbol | src/variables/SyntaxAnalyzer.java:126-132 | a new name is added with the type; a present one keeps its type; no other entry changes |
| SymbolTables.ListingText | src/stackmachine/frontend/SyntaxAnalyzer.java:95-105 | the loop of both `symbolTable()` methods appends one `<'name', type> ` line per entry, in the enumeration order given |
| SymbolTables.ListingHasOneLinePerEntry | src/variables/SyntaxAnalyzer.java:38-47 | the listing has exactly one line per table entry, whatever the enumeration order |
| Arith.Apply | src/stackmachine/frontend/SyntaxAnalyzer.java:547-549 | a binary step succeeds exactly when both values are `int`s and no divisor is zero; a `Double` fails the cast and a zero divisor throws |
| JavaInt.Wrap | src/translator/PostfixTranslator.java:79 | the result is the 32-bit value congruent to the exact one, and equal to it when that fits |
| JavaInt.IDiv | src/translator/PostfixTranslator.java:88 | `/` truncates toward zero; `MIN_VALUE / -1` wraps to `MIN_VALUE` |
| JavaInt.IRem | src/translator/PostfixTranslator.java:98 | `%` is smaller than the divisor in magnitude, takes the sign of the dividend, and completes the truncating quotient |
| JavaInt.TruncDivision | src/translator/PostfixTranslator.java:86-98 | the truncating quotient and remainder satisfy the division identity, and the remainder has the dividend's sign |
| JavaInt.IntText | src/translator/PostfixTranslator.java:56 | the decimal text of an `int` is non-empty and starts with `-` exactly for a negative value; `JavaInt.IntTextValue` reads it back |
| JavaInt.NatTextDigits | src/translator/PostfixTranslator.java:56 | the text is made of decimal digits, with no leading zero |
| JavaInt.NatTextValue | src/translator/PostfixTranslator.java:56 | the decimal digits written for `n` denote `n` |
| JavaInt.IntTextValue | src/translator/PostfixTranslator.java:56 | the text written for an `int`, minus sign included, denotes that value, so different values get different texts |

## Left out

- The lexical analyzer and the `slu.compiler` classes it produces (`Token`, `Identifier`, `IntegerNumber`, `RealNumber`, `PrimitiveType`) are not part of this model. Its output is a token sequence that ends with `end_program`; reading past that token yields it again. Integer literals arrive as 32-bit values, and real literals arrive as their text.
- Output written with `System.out.println` is I/O and is not modelled. This covers every error message of the translator and the declarations parser, the front end's "open parenthesis or int expected" and its echo of `match` errors, and "Invalid type!".
- The front end's error string is modelled as the list of messages appended to it (`Diagnostic`), without their wording or line numbers. Every message is non-empty, so the string is empty exactly when the list is, and that is all `compile()` reads.
- `output()` of the front end returns that string; it is the `diags` field.
- The front end's `postfix` field is written but never read, so it is not modelled.
- Real numbers are not evaluated. A real literal is pushed as its text, and the `(int)` casts that meet it throw, as the casts in the source do.
- `Frontend.ParseRelationalOperator`: the `==` and `!=` alternatives compare the token object with a string through `Token.equals`, which is not part of this model. It is modelled as never equal, the default `Object.equals`, so the error alternative runs.
- `Frontend.SyntaxAnalyzer.SymbolTableText` and `Variables.SyntaxAnalyzer.SymbolTableText` take the iteration order of the `HashMap`/`Hashtable` as a parameter. No claim is made about that order. `PrimitiveType.toString()` is not part of this model; an entry's type is written as its type token's name.
- Java runtime exceptions are modelled as an outcome that carries the exception and the fields at the moment it was thrown, rather than as preconditions. The exceptions are an empty-stack pop, a failed cast, unboxing a missing value, and an integer division by zero.
- `FrontendProofs.IfLayout`, `FrontendProofs.WhileLayout` and `FrontendProofs.DoLayout` are stated for a condition that is an arithmetic expression. For conditions with `&&`, `||`, `!` or a comparison, only the general contracts of the parse functions and the label theorems apply.
- `FrontendProofs.AssignmentCompiles` is stated for a right-hand side that is an arithmetic expression. The source assigns a whole logic expression. In `x = a < b ;` the comparison leaves two values and only the top one is popped into `x`; for such right-hand sides only the general contracts of `ParseAssignment` and `AssignmentEnd` apply.
- `FrontendProofs.InitializerCompiles` is stated for an arithmetic initializer only. For an initializer with `&&`, `||`, `!` or a comparison, only the general contract of `ParseOptionalAssignment` applies.
- `FrontendDeclarations.InitializedDeclaration` is stated for a one-name declaration with an arithmetic initializer. For lists that mix initialized and plain names, such as `int a, b = 1, c;`, `ParseIdentifiers` and `ParseMoreIdentifiers` state only that no entry is removed or retyped and that every added name gets the declaration's type; which names are added is not stated.
- `FrontendLabels.ProgramLabels` counts `label L`, the form the no-else `if` writes, as placing label `L`, although that `if` jumps with `goFalse label_L`. So "every named label is placed at most once" is about label numbers, not about the text matching. The text of a no-else `if` never contains `label_L`; the model writes both strings as the source does.
- `FrontendProofs.LogicPairCompiles` covers one `&&` or `\|\|` between two arithmetic operands. Longer chains, and mixtures of `&&`, `\|\|` and comparisons, are covered only by the general contracts of the logic-layer functions.
- `FrontendProofs.ExpressionCompiles` and `TranslatorProofs.ExpressionTranslates` describe well-formed expressions. For malformed input, such as a missing operand, only the general contracts apply: the parse stays inside the stream, and an empty stack throws.
- `TranslatorProofs.ExpressionTranslates` covers expressions over integer literals only, the translator's grammar. Identifiers and real literals are not part of it.
- The console drivers (`TestProgram.java`) are used only for their sample inputs. The `ISyntaxAnalyzer` interface has no logic.
