# A verified model of the C-- compiler front end

This project models the core of a C-- compiler front end in Dafny and proves properties of that model. The core has five parts.

- **Lexer automata.** Regular expressions are compiled into Thompson-style NFA fragments (`Regex`). The NFA operations are modelled twice: the current utility class (`FrontNfa`) and the older lexer class (`LexerNfa`). Subset construction, the deterministic edge table with its `ANY` fallback, and `Partition` live in `FrontDfa`. Partition-refinement minimisation is in `DfaMinimize`, and the older revision's forward-scan variant is in `LexerDfa`.
- **Tokenizer.** `Lexer` models the maximal-munch scan: longest-accept backtracking, the one-character `Invalid` fallback, spacer filtering, and row/column tracking. The token kinds and rule priorities are in `Tokens`.
- **Grammar analysis and parsers.** `Symbols` holds the grammar symbols. `Grammars` holds the production registry and the FIRST-set fixed point. `GrammarRules` holds the production list and the token-to-terminal map. The LL(1) table, the predictive stack machine and the retagging of function-definition tokens are in `ParserLL`. LR(0) items, closure, the canonical collection and the SLR ACTION/GOTO tables are in `SlrItems` and `ParserSlr`.
- **AST.** `AstBuilder` holds the semantic actions. `AstTyping` proves that the actions build well-shaped values on every parse tree. `Ast` maps tokens to semantic values, and `AstPrinter` is the indented printer. `Codegen` covers integer constant folding and the code generator's bookkeeping: the scope stack, the function table and block naming.
- **Test tooling.** `TokenFormat` is the token-line formatter. `TextLines`, `CompareTokens` and `CompareTrace` are the two golden-file normalisers and their verdicts. `Decimal` holds the decimal conversions they share.

Three conventions run through the model:
- State the source updates in place is a Dafny `class` whose methods are specified against functions over sequences and maps.
- Pure code is functions and lemmas.
- Hashed containers are maps and sets keyed by value. Where the source iterates a hashed container, the model picks the next element with an unspecified choice.

The source files come from different revisions, and each is modelled as written. For example, `src/lexer/regex.cpp` builds the older lexer NFA, while `src/lexer/lexer.cpp` uses token kinds that `include/token.h` does not declare.

## Model

| member | source | states |
|---|---|---|
| Decimal.NatToString | src/ast/ast_codegen.cpp:257 | the digits of `std::to_string` on a non-negative value: at least one digit and no leading zero |
| Decimal.DigitsRoundTrip | src/ast/ast_codegen.cpp:257 | reading back the digits written for n gives n |
| Decimal.IntToStringInjective | src/ast/ast_codegen.cpp:257 | distinct integers have distinct decimal text, so the numbered block names never repeat |
| Decimal.Stoi | src/ast/ast.cpp:17 | a value that `std::stoi` returns always fits in a 32-bit `int` |
| Decimal.StoiRoundTrip | src/ast/ast.cpp:17 | `std::stoi` reads the decimal text of every `int` back as that `int` |
| Decimal.StoiDigits | src/ast/ast.cpp:17 | a lexeme of digits is read as its value when that value is at most INT_MAX, and is `out_of_range` otherwise |
| Decimal.SpacePrefix | src/ast/ast.cpp:17 | `std::stoi` skips exactly the leading whitespace |
| Decimal.DigitPrefix | src/ast/ast.cpp:17 | `std::stoi` reads exactly the longest run of digits |
| Symbols.ExactlyOneKind | include/grammar/symbol.h:13-40 | exactly one of `is_terminal`, `is_non_terminal`, `is_epsilon` and `is_end` holds of every symbol |
| Symbols.TerminalIsNotNonTerminal | include/grammar/symbol.h:42-53 | `operator==` compares kind and name: `T(a)` never equals `NT(b)`, and two terminals (or two non-terminals) are equal exactly when their names are |
| GrammarRules.TokenMapKeys | src/grammar/grammar_rules.cpp:270-317 | `init_token_map`: a (type, category) key is present exactly when the type is listed with that very category, and it maps to the listed terminal |
| GrammarRules.OneCategoryPerType | src/grammar/grammar_rules.cpp:270-317 | each token type is mapped under at most one category |
| GrammarRules.UnmappedTypes | src/grammar/grammar_rules.cpp:270-317 | invalid and spacer tokens have no terminal under any category, so a parser never shifts them |
| GrammarRules.IdentifierTerminals | src/grammar/grammar_rules.cpp:275-312 | identifiers and the `main` keyword are both read as the terminal `Ident`, and end of file as the end marker `$` |
| GrammarRules.IdentTypes | src/grammar/grammar_rules.cpp:270-317 | only identifiers and `main` are read as `Ident` |
| GrammarRules.LiteralIntType | src/grammar/grammar_rules.cpp:306 | only integer literals are read as `LiteralInt` |
| GrammarRules.LiteralFloatType | src/grammar/grammar_rules.cpp:307 | only float literals are read as `LiteralFloat` |
| GrammarRules.StartProduction | src/grammar/grammar_rules.cpp:7-12 | `init_rules` adds 86 productions, and the first is Program -> CompUnit for the start symbol `NT("Program")` |
| GrammarRules.AsWrittenDiffers | src/grammar/grammar_rules.cpp:120-193 | the table as written differs from the corrected one only in the actions of Stmt -> Block (number 39) and of the argument-list append (number 61) |
| Grammars.RawOf | src/grammar/grammar_rules.cpp:8-10 | the productions handed to `add_production` are the rules' heads and bodies, in order |
| Grammars.Grammar.FromProductions | src/grammar/grammar.cpp:11-17 | the grammar of a production list: numbered in order, indexed and classified, with FIRST the least closed assignment and FOLLOW empty |
| Grammars.Grammar.Default | src/grammar/grammar.cpp:5-9 | `Grammar()`: the C-- productions numbered in the order of `init_rules`, its start symbol and token map, FIRST the least closed assignment, FOLLOW empty |
| Grammars.Grammar.AddAll | src/grammar/grammar.cpp:12-14 | the constructor's loop appends the productions numbered on from the current count, touching nothing else |
| Grammars.Grammar.AddProduction | src/grammar/grammar.cpp:51-67 | `add_production`: the new id is the old production count, it is appended to the head's id list, the head becomes a non-terminal, and the body's terminals and non-terminals are recorded (epsilon and `$` in neither set) |
| Grammars.Grammar.Classify | src/grammar/grammar.cpp:60-66 | the classification loop adds exactly the names of the body's terminals and non-terminals |
| Grammars.IndexedAfterAdd | src/grammar/grammar.cpp:51-67 | adding a production keeps every id equal to its position, every listed id pointing at a production with that head, and every body symbol classified |
| Grammars.NumberedAt | src/grammar/grammar.cpp:52 | the production added from entry i carries id base + i, its head as a non-terminal and its body |
| Grammars.NumberedStep | src/grammar/grammar.cpp:12-14 | appending the next numbered production extends the numbered prefix by one |
| Grammars.Grammar.ComputeFirstSet | src/grammar/grammar.cpp:69-130 | `compute_first_set` terminates with FIRST closed under the FIRST rules (a terminal is in its own set; FIRST(Yi) minus epsilon joins FIRST(A) after a nullable prefix; epsilon joins when the whole body is nullable), containing what was there before, and least among such assignments |
| Grammars.Grammar.InitTerminals | src/grammar/grammar.cpp:70-74 | the first loop puts every terminal into its own FIRST set and adds nothing any closed assignment lacks |
| Grammars.Grammar.FirstPass | src/grammar/grammar.cpp:78-128 | one pass of the `while (changed)` loop: it only adds what every closed assignment above the start holds; if it reports a change, the set of missing (non-terminal, symbol) pairs shrank; if not, nothing changed and every production's rule holds |
| Grammars.Grammar.NonTerminalPass | src/grammar/grammar.cpp:81-127 | the productions listed for one non-terminal, with the same guarantees, and without a change every rule for that head holds |
| Grammars.Grammar.ApplyRule | src/grammar/grammar.cpp:85-126 | one production A -> Y1 .. Yk: afterwards its FIRST rule holds, only FIRST(A) changed, `changed` is set exactly when FIRST(A) grew, and nothing was added that a closed assignment above the old one lacks |
| Grammars.Grammar.Grow | src/grammar/grammar.cpp:102-111 | FIRST(Yi) minus epsilon joins FIRST(A) and nothing else changes |
| Grammars.InsertJustified | src/grammar/grammar.cpp:102-111 | what the inner insertion adds lies in every closed assignment above the current one |
| Grammars.EpsJustified | src/grammar/grammar.cpp:120-126 | adding epsilon after an all-nullable body stays below every closed assignment |
| Grammars.NullableKept | src/grammar/grammar.cpp:113-117 | growing FIRST(A) without epsilon does not change which prefixes of a body are nullable |
| Grammars.MissingShrinks | src/grammar/grammar.cpp:76-78 | a pass that grows some FIRST set strictly shrinks the finite set of pairs still missing, so `while (changed)` terminates |
| Grammars.ShapeAdd | src/grammar/grammar.cpp:69-130 | FIRST sets hold only terminals of the grammar and epsilon, a terminal's set at most itself, and epsilon's and `$`'s sets stay empty |
| Grammars.Grammar.ComputeFollowSet | src/grammar/grammar.cpp:133-134 | `compute_follow_set` has an empty body: FIRST and FOLLOW are left as they were |
| SlrItems.ItemOrder | include/grammar/parser_slr.h:24-31 | `operator<` is a strict total order whose equivalence is `operator==` (same production id and dot position) |
| SlrItems.NextAdvances | include/grammar/parser_slr.h:33-43 | `next()` keeps the production, comes after the item in the order, and its `dot()` is the next body symbol, or epsilon past the end |
| SlrItems.CompleteDot | include/grammar/parser_slr.h:33-57 | a complete item has epsilon after its dot; a non-epsilon symbol after the dot means the item is not complete and is the body symbol at the dot |
| SlrItems.EpsilonItemIncomplete | include/grammar/parser_slr.h:33-57 | the converse fails: for a body that is the epsilon symbol, the item with the dot in front has epsilon after its dot yet is not complete |
| SlrItems.ReducibleExtendsComplete | include/grammar/parser_slr.h:55-57 | every complete item is reducible (only epsilon after the dot), and the epsilon item is reducible though not complete |
| SlrItems.ActionFactories | include/grammar/parser_slr.h:61-85 | `shift(i)` and `reduce(i)` carry their target, `accept()` and `error()` carry -1, and the four kinds differ |
| SlrItems.InsertItem | include/grammar/parser_slr.h:141-145 | one step of sorting the key: the result is strictly increasing and holds the old items and the new one |
| SlrItems.SortedUnique | include/grammar/parser_slr.h:141-145 | two strictly increasing item sequences with the same items are equal, so the sorted key does not depend on the set's iteration order |
| SlrItems.SortedKey | include/grammar/parser_slr.h:141-145 | the key of a set is strictly increasing and holds exactly the set's items |
| SlrItems.KeyInjective | include/grammar/parser_slr.h:141-165 | two item sets have the same key exactly when they are the same set, so `state_id_` identifies states by their items |
| SlrItems.MakeKey | include/grammar/parser_slr.h:141-145 | `make_key`, copying the items in any order and sorting, returns the set's sorted key |
| Ast.MakeSemantic | src/ast/ast.cpp:7-32 | `make_semantic` fails only on an integer literal `stoi` rejects; type keywords (with `func_int`/`func_float`) and only they give a type, identifiers and `main` and only they give their lexeme, an integer literal gives the value `stoi` reads |
| Ast.IntLiteralValue | src/ast/ast.cpp:16-17 | an integer literal whose text is the decimal form of an `int` carries that `int` |
| Ast.LiteralIntSemantic | src/ast/ast.cpp:16-17 | an integer literal carries exactly the value `stoi` reads from its lexeme |
| Ast.KeywordTypes | src/ast/ast.cpp:10-25 | `int`/`func_int` give Int, `float`/`func_float` give Float, `void` gives Void |
| Ast.TypeName | src/ast/ast.cpp:38-45 | every type has a non-empty name |
| Ast.UnaryOpName | src/ast/ast.cpp:47-54 | every unary operator prints as one character |
| Ast.BasicOpName | src/ast/ast.cpp:56-73 | every binary operator prints as one or two characters |
| Ast.NamesInjective | src/ast/ast.cpp:38-73 | distinct types, distinct unary operators and distinct binary operators print differently |
| AstPrinter.Indent | src/ast/ast.cpp:34-36 | `indent` writes exactly two spaces per level |
| AstPrinter.Line | src/ast/ast.cpp:34-36 | a line indented to a depth holds its text after exactly that indentation |
| AstPrinter.Section | src/ast/ast.cpp:112-144 | a node's dump is its header at its own depth followed by its children, all at least one level deeper |
| AstPrinter.ExprLines | src/ast/ast.cpp:112-144 | `print_expr`: the first line is the node's header at `depth`, and every other line is nested deeper |
| AstPrinter.ExprHeader | src/ast/ast.cpp:117-143 | every expression header is non-empty and starts with a label, not a space |
| AstPrinter.ExprChildren | src/ast/ast.cpp:125-139 | the operands and arguments of an expression are all indented at least to the child depth |
| AstPrinter.ArgsLines | src/ast/ast.cpp:137-139 | each argument of a call contributes at least one line at the argument depth |
| AstPrinter.VarInitLines | src/ast/ast.cpp:81-90 | `print_var_init` writes one line exactly when the variable has no initialiser (`<uninitialized>`), more when it has one |
| AstPrinter.InitsLines | src/ast/ast.cpp:199-201 | each declared name contributes at least one line |
| AstPrinter.DeclHeader | src/ast/ast.cpp:196-198 | a declaration header is non-empty and starts with a label |
| AstPrinter.DeclLines | src/ast/ast.cpp:190-205 | `print_decl`: the header at `depth`, then at least one nested line per declared name |
| AstPrinter.StmtHeader | src/ast/ast.cpp:151-187 | every statement header is non-empty and starts with a label |
| AstPrinter.StmtLines | src/ast/ast.cpp:146-188 | `print_stmt`: the header at `depth`, every other line nested deeper |
| AstPrinter.StmtChildren | src/ast/ast.cpp:158-171 | the parts of a statement are indented at least to the child depth |
| AstPrinter.IfParts | src/ast/ast.cpp:172-184 | an `if` with an else branch writes `Else` and its branch in addition to `Cond` and `Then`: at least six lines |
| AstPrinter.ItemLines | src/ast/ast.cpp:100-108 | a block item writes its `Decl`/`Stmt` label and then at least one nested line |
| AstPrinter.ItemsLines | src/ast/ast.cpp:100-109 | the items of a block write at least two lines each |
| AstPrinter.BlockLines | src/ast/ast.cpp:92-110 | `print_block` starts with `Block` at `depth`, nests the rest, and is what `print_stmt` writes for a block statement at the same depth |
| AstPrinter.ParamsLines | src/ast/ast.cpp:207-217 | `print_params` writes `<none>` as one line for no parameters, otherwise exactly one line per parameter |
| AstPrinter.ParamLines | src/ast/ast.cpp:213-216 | parameter i's line reads `type name` after the indentation |
| AstPrinter.FuncLines | src/ast/ast.cpp:219-228 | `print_func` starts with `Func type name` at `depth` and nests the rest |
| AstPrinter.GlobalsLines | src/ast/ast.cpp:232-236 | each global declaration writes at least two lines at depth 1 or deeper |
| AstPrinter.FunctionsLines | src/ast/ast.cpp:237-241 | each function writes at least two lines at depth 1 or deeper |
| AstPrinter.ProgramLines | src/ast/ast.cpp:230-242 | `print_ast` starts with `Program` at depth 0, nests everything else, and writes at least two lines per global and per function |
| AstPrinter.PrintAst | src/ast/ast.cpp:244-250 | a null program prints exactly `<empty AST>`, any other prints its rendered lines |
| AstPrinter.RenderAppend | src/ast/ast.cpp:112-250 | writing two dumps one after the other writes their concatenation |
| AstPrinter.SplitRender | src/ast/ast.cpp:112-250 | splitting the written text at its newlines gives back the lines, when no line holds a newline |
| AstBuilder.AddToProgram | src/ast/ast_builder.cpp:11-17 | `add_to_program` appends a declaration to the globals and a function to the functions, leaving the other list unchanged, and ignores any other value |
| AstBuilder.WrapperValues | src/ast/ast_builder.cpp:285-298 | the arguments taken from the wrappers of a real-parameter list are their values, one per wrapper, in order |
| AstBuilder.ListAppendOrder | src/ast/ast_builder.cpp:66-71 | the definition, formal-parameter and real-parameter list appends keep the left list first and the right list after it |
| AstBuilder.CallArgsInOrder | src/ast/ast_builder.cpp:285-298 | `build_exp_call` passes the wrapped arguments in order, and a call whose third value is not a wrapper list gets no arguments |
| AstBuilder.BlockItems | src/ast/ast_builder.cpp:159-173 | one block item makes a one-item block; appending puts the new item last and keeps the earlier ones |
| AstBuilder.ExpressionShapes | src/ast/ast_builder.cpp:312-329 | a binary node takes its operands from positions 0 and 2 and a unary node its operator and operand from 0 and 1; a non-expression operand is an error (`std::get` throws) |
| AstBuilder.DeclarationShapes | src/ast/ast_builder.cpp:42-60 | a `const` declaration is marked constant with the type at position 1, a plain one unmarked with the type at position 0 |
| AstBuilder.DefinitionShapes | src/ast/ast_builder.cpp:73-101 | a definition without initialiser has a null value, one with an initialiser (constant or not) takes the expression at position 2 |
| AstBuilder.StatementShapes | src/ast/ast_builder.cpp:206-239 | `if` has no else branch, `if`-`else` takes it from position 6, a bare `return` has a null value |
| AstTyping.AbsApplySound | src/ast/ast_builder.cpp:19-343 | every builder, given values of the shapes the abstract run assumed, succeeds (no `std::get` throws `bad_variant_access`) and yields a value of the promised shape |
| AstTyping.TableChecks | src/grammar/grammar_rules.cpp:11-265 | every production of the corrected table builds, from the shapes of its body, a value of its head's shape |
| AstTyping.StmtBlockFailsCheck | src/grammar/grammar_rules.cpp:120-121 | as written, Stmt -> Block forwards a block where a statement is expected |
| AstTyping.ArgAppendFailsCheck | src/grammar/grammar_rules.cpp:191-193 | as written, the argument-list append expects a list at the position where the grammar puts an expression |
| AstTyping.TokenValueFits | src/ast/ast.cpp:7-32 | a token that the token map sends to a terminal carries a semantic value of that terminal's shape |
| AstTyping.KindValue | src/ast/ast.cpp:16-28 | identifiers and `main` give names, integer literals integers, float literals floats |
| AstTyping.EvalKidsValues | src/ast/ast_builder.cpp:19-343 | the values of a reduction's subtrees are computed exactly when each subtree has one, and they are those values in order |
| AstTyping.EvalSound | src/ast/ast_builder.cpp:19-343 | on every parse tree of the grammar whose integer literals `stoi` accepts, the corrected actions succeed and build a value of the tree symbol's shape |
| AstTyping.EvalOkLeaves | src/ast/ast.cpp:16-17 | evaluation succeeds only when every token of the tree has a semantic value |
| AstTyping.AsWrittenAgrees | src/grammar/grammar_rules.cpp:11-265 | trees that do not use the two corrected productions evaluate alike under the table as written and the corrected table |
| AstTyping.EvalSingle | src/ast/ast_builder.cpp:19-22 | a reduction over one subtree applies the builder to that subtree's value |
| AstTyping.EvalPair | src/ast/ast_builder.cpp:159-173 | a reduction over two subtrees applies the builder to their values in order |
| AstTyping.EvalTriple | src/ast/ast_builder.cpp:321-329 | a reduction over three subtrees applies the builder to their values in order |
| AstTyping.EmptyBlockTree | src/grammar/grammar_rules.cpp:98-99 | `{ }` is a parse tree for Block |
| AstTyping.EmptyBlockValue | src/ast/ast_builder.cpp:155-157 | `{ }` evaluates to the empty block under either table |
| AstTyping.EmptyBlockForwarded | src/grammar/grammar_rules.cpp:120-121 | as written, Stmt -> Block forwards an empty block unchanged, as a block and not a statement |
| AstTyping.EmptyBlockWrapped | src/grammar/grammar_rules.cpp:120-121 | corrected, Stmt -> Block wraps the empty block as a block statement |
| AstTyping.StmtBlockAsWritten | src/ast/ast_builder.cpp:179-181 | as written, `{ }` used as a statement of a block reaches BlockItem -> Stmt as a block, and `build_block_item_stmt` rejects it |
| AstTyping.StmtBlockCorrected | src/ast/ast_builder.cpp:179-181 | corrected, the same tree becomes a block item holding an empty block statement |
| AstTyping.StmtBlockCounterexample | src/grammar/grammar_rules.cpp:120-121 | `{ }` as a statement of a block is a parse tree of the grammar; the actions as written fail on it and the corrected ones build an empty block statement |
| AstTyping.ArgListValue | src/ast/ast_builder.cpp:270-283 | every parse tree of a real-parameter list evaluates to a list of wrapped arguments |
| AstTyping.ArgAppendAsWritten | src/grammar/grammar_rules.cpp:191-193 | as written, appending an argument to any argument list fails, so no call with two or more arguments can be built |
| AstTyping.ArgAppendCorrected | src/grammar/grammar_rules.cpp:191-193 | corrected, the argument's expression is appended to the list, after the earlier ones |
| AstTyping.ArgAppendEval | src/ast/ast_builder.cpp:278-283 | on an evaluated list and argument, the append fails as written and appends when corrected |
| AstTyping.ApplyArgAppend | src/ast/ast_builder.cpp:278-283 | `build_func_rparams_append` rejects an expression at position 2; the corrected builder wraps and appends it |
| AstTyping.ArgAppendTree | src/grammar/grammar_rules.cpp:191-193 | an argument list, a comma and an argument form a parse tree for an argument list |
| Codegen.Wrap32 | src/ast/ast_codegen.cpp:69-71 | the wrapped value is an `int`, congruent to the true value modulo 2^32, and equal to it when it already fits |
| Codegen.TruncDivMod | src/ast/ast_codegen.cpp:72-73 | the quotient rounded toward zero and the remainder with the dividend's sign satisfy `(a / b) * b + a % b == a`, with the remainder smaller than the divisor in magnitude |
| Codegen.QuotientFits | src/ast/ast_codegen.cpp:72 | the quotient of two `int`s is an `int`, except for `INT_MIN / -1` |
| Codegen.RemainderFits | src/ast/ast_codegen.cpp:73 | the remainder of two `int`s is an `int` |
| Codegen.FoldBinary | src/ast/ast_codegen.cpp:68-82 | comparisons and logical operators fold to 0 or 1, and every operator on `int` operands folds to an `int` |
| Codegen.FoldDivMod | src/ast/ast_codegen.cpp:72-73 | a zero divisor folds `/` and `%` to 0; otherwise, away from `INT_MIN / -1`, the folded quotient and remainder satisfy the C++ division rule |
| Codegen.EvalIntConstant | src/ast/ast_codegen.cpp:43-85 | `eval_int_constant` on an expression whose literals are `int`s yields an `int` |
| Codegen.EvalIntConstantDefined | src/ast/ast_codegen.cpp:43-85 | folding succeeds exactly on the expressions built from integer literals with unary and binary operators; identifiers, calls and float literals are not constant |
| Codegen.FoldRingStep | src/ast/ast_codegen.cpp:69-71 | one `+`, `-` or `*` on wrapped operands gives the wrapped true result |
| Codegen.NegateStep | src/ast/ast_codegen.cpp:55-56 | negating a wrapped value gives the wrapped true negation |
| Codegen.FoldIsWrappedValue | src/ast/ast_codegen.cpp:43-71 | on expressions built with `+`, `-`, `*` and unary signs over `int` literals, folding gives the true integer value wrapped once to 32 bits |
| Codegen.ResolveInnermost | src/ast/ast_codegen.cpp:137-145 | a name resolves to b exactly when some scope binds it to b and no scope inside that one binds it |
| Codegen.InnerScope | src/ast/ast_codegen.cpp:137-145 | an inner scope shadows the outer ones for the names it binds and defers to them for the rest |
| Codegen.BlockNamesDistinct | src/ast/ast_codegen.cpp:251-258 | blocks named under different counter values get different names, whatever their base names |
| Codegen.ParamTypes | src/ast/ast_codegen.cpp:177-181 | the parameter types of a definition are those of its parameters, one each, in order |
| Codegen.CodegenContext.constructor | src/ast/ast_codegen.cpp:88-91 | a new context has exactly one (global) scope open, an empty function table and the block counter at 0 |
| Codegen.CodegenContext.PushScope | src/ast/ast_codegen.cpp:119-121 | `push_scope` adds one empty innermost scope and changes nothing else |
| Codegen.CodegenContext.PopScope | src/ast/ast_codegen.cpp:123-128 | `pop_scope` fails with its message exactly when no scope is open, and otherwise removes only the innermost scope |
| Codegen.CodegenContext.Bind | src/ast/ast_codegen.cpp:130-135 | `bind` fails exactly when no scope is open; otherwise the name resolves to the new binding and every other name resolves as before |
| Codegen.CodegenContext.Lookup | src/ast/ast_codegen.cpp:137-145 | `lookup` returns the innermost binding of the name, or none |
| Codegen.CodegenContext.DeclareFunction | src/ast/ast_codegen.cpp:169-192 | a name already declared keeps its first entry and nothing changes; otherwise one function is created with the definition's return and parameter types and entered in the table; afterwards the name is found |
| Codegen.CodegenContext.FindFunction | src/ast/ast_codegen.cpp:194-199 | `find_function` finds exactly the declared names, with their entries |
| Codegen.CodegenContext.CreateBlock | src/ast/ast_codegen.cpp:251-258 | without a current function it fails; otherwise it names the new block after the base name and the counter, advances the counter, and the name differs from every earlier block's |
| Codegen.ScopeGuard.constructor | src/ast/ast_codegen.cpp:22-28 | opening a guard pushes one empty scope and marks the guard active |
| Codegen.ScopeGuard.Release | src/ast/ast_codegen.cpp:36 | a released guard is inactive |
| Codegen.ScopeGuard.Close | src/ast/ast_codegen.cpp:30-34 | the destructor of an active guard pops the innermost scope; an inactive one changes nothing |
| Codegen.GuardedScope | src/ast/ast_codegen.cpp:442 | opening a guard, binding a name and closing the guard leaves the scope stack as it was |
| FrontNfa.ShiftState | src/utils/nfa.cpp:62-64 | a shifted state keeps its accept data and its edges' labels and order, with every target moved up by the base |
| FrontNfa.ShiftAll | src/utils/nfa.cpp:62-64 | every state of a moved sub is shifted by the same base, and the count is kept |
| FrontNfa.UnionOf | src/utils/nfa.cpp:37-69 | the union always has at least its start state |
| FrontNfa.BasePrefix | src/utils/nfa.cpp:51-54 | where a sub lands depends only on the subs before it |
| FrontNfa.UnionSize | src/utils/nfa.cpp:45-67 | `union_many` produces one start state plus the states of every kept sub (a sub with no states or no start is skipped) |
| FrontNfa.UnionStart | src/utils/nfa.cpp:49-66 | the start of the union is a fresh, non-accepting state whose only edges are one ε-edge per kept sub, to that sub's start, in list order |
| FrontNfa.UnionPlacement | src/utils/nfa.cpp:54-64 | state j of a kept sub lands at its base plus j, with its edge targets moved up by that base |
| FrontNfa.BaseMonotone | src/utils/nfa.cpp:51-54 | later subs land at higher bases |
| FrontNfa.UnionInRange | src/utils/nfa.cpp:37-69 | the union of well-formed subs is well-formed: every edge lands on a state of the union |
| FrontNfa.SymTargetsSnoc | src/utils/nfa.cpp:99-104 | scanning one more edge adds its target exactly when its label matches |
| FrontNfa.CoverStep | src/utils/nfa.cpp:78-88 | after one stack pop, the states seen are those finished plus those on the stack |
| FrontNfa.SeenStep | src/utils/nfa.cpp:82-86 | the states recorded grow by exactly the newly seen ones |
| FrontNfa.Nfa.constructor | include/utils/nfa.h:31-63 | a new automaton has no states and start -1 |
| FrontNfa.Nfa.SetStart | include/utils/nfa.h:44 | `set_start` changes only the start |
| FrontNfa.Nfa.NewState | src/utils/nfa.cpp:14-18 | `new_state` appends one non-accepting state (token -1, priority INT_MAX) and returns its index, the old count |
| FrontNfa.Nfa.AddEdge | src/utils/nfa.cpp:21-24 | `add_edge` appends one edge to state `from` and changes no other state |
| FrontNfa.Nfa.SetAccept | src/utils/nfa.cpp:27-33 | `set_accept` replaces the token and priority only when the new priority is strictly better; the priority never gets worse and no other state changes |
| FrontNfa.Nfa.EpsilonClosure | src/utils/nfa.cpp:72-91 | `epsilon_closure` returns, sorted, the least ε-closed set of states containing the input, without duplicates when the input has none |
| FrontNfa.Nfa.EpsilonReach | src/utils/nfa.cpp:74-88 | the stack loop reaches a set that contains the input, is ε-closed and lies inside every ε-closed set containing the input |
| FrontNfa.Nfa.WithinEveryClosureStep | src/utils/nfa.cpp:81-86 | adding the ε-successors of a reached state keeps the reached set inside every closure |
| FrontNfa.Nfa.ReachStart | src/utils/nfa.cpp:74-76 | the stack, the seen set and the result all start as the input |
| FrontNfa.Nfa.ReachPop | src/utils/nfa.cpp:79-80 | the popped state is a state of the automaton, and the stack's elements are those below the top plus the top |
| FrontNfa.Nfa.ReachStep | src/utils/nfa.cpp:78-88 | one pop and push pass keeps the loop invariant and either sees a new state or shortens the stack |
| FrontNfa.Nfa.DoneStep | src/utils/nfa.cpp:81-87 | once a state's ε-edges are scanned, all its ε-successors have been seen |
| FrontNfa.Nfa.ReachEnd | src/utils/nfa.cpp:78-88 | with the stack empty the result holds the input and is ε-closed |
| FrontNfa.Nfa.ClosureSorted | src/utils/nfa.cpp:89 | sorting keeps the states and gives a strictly increasing list when there were no duplicates |
| FrontNfa.Nfa.PushTargets | src/utils/nfa.cpp:81-87 | one pass over a state's edges sees exactly the targets of the edges with the label, and pushes each newly seen one once |
| FrontNfa.Nfa.Move | src/utils/nfa.cpp:94-108 | `move` returns, strictly sorted, exactly the targets of the edges labelled with the symbol out of the given states |
| FrontNfa.Nfa.MoveRound | src/utils/nfa.cpp:98-105 | one state of `move` adds the targets of its labelled edges, once each |
| FrontNfa.Nfa.CollectSymbols | src/utils/nfa.cpp:111-122 | `collect_symbols` returns the set of labels on edges leaving the given states |
| FrontNfa.Nfa.LabelsFromSpec | src/utils/nfa.cpp:111-122 | a symbol is collected exactly when it is not ε and labels some edge of some given state |
| FrontNfa.Nfa.LabelsSpec | src/utils/nfa.cpp:115-119 | a label of one state's edges is collected exactly when it is not ε |
| FrontNfa.Nfa.ComputingAccept | src/utils/nfa.cpp:125-137 | `computing_accept` returns the token and priority of the first accepting state of least priority, or (-1, INT_MAX) when none accepts below INT_MAX |
| FrontNfa.Nfa.TargetsFromSpec | src/utils/nfa.cpp:94-108 | a state is a `move` target exactly when some given state has an edge with that label to it |
| FrontNfa.Nfa.SymTargetsSpec | src/utils/nfa.cpp:99-104 | a state is a target of one state's edges exactly when an edge with that label leads to it |
| FrontNfa.Nfa.Views | src/utils/nfa.cpp:37 | the subs read as values, one per sub, in order |
| FrontNfa.Nfa.UnionMany | src/utils/nfa.cpp:37-69 | `union_many` returns a fresh automaton started at state 0 whose states are the union of the subs |
| FrontNfa.Nfa.AppendSub | src/utils/nfa.cpp:52-66 | one kept sub is appended, shifted, and linked from the start |
| FrontNfa.Nfa.ShiftFrom | src/utils/nfa.cpp:62-64 | the states before the base are unchanged and those from the base on have their targets moved up by the base |
| LexerNfa.AddEdgeChecked | src/lexer/nfa.cpp:13-15 | `add_edge` is defined exactly when the source state exists, and then appends the edge to that state alone |
| LexerNfa.UnionLoopAsWrittenFails | src/lexer/nfa.cpp:32-52 | with the start left at -1, the loop reaches an edge from state -1 exactly when some sub-automaton is not skipped; otherwise it returns the copied states with start -1 |
| LexerNfa.UnionAsWrittenCounterexample | src/lexer/nfa.cpp:24-54 | a single one-state automaton already makes `union_many` add an edge from state -1 |
| LexerNfa.Nfa.constructor | include/lexer/nfa.h:24 | a new automaton has no states and start -1 |
| LexerNfa.Nfa.SetStart | include/lexer/nfa.h:40 | only the start changes |
| LexerNfa.Nfa.NewState | src/lexer/nfa.cpp:8-11 | appends a non-accepting state with no edges and the largest priority, and returns its index |
| LexerNfa.Nfa.AddEdge | src/lexer/nfa.cpp:13-15 | appends the edge to the source state and changes nothing else |
| LexerNfa.Nfa.AddEps | include/lexer/nfa.h:30-32 | appends an ε-edge to the source state and changes nothing else |
| LexerNfa.Nfa.SetAccept | src/lexer/nfa.cpp:17-22 | the state takes the token and priority exactly when the new priority is strictly smaller, so the smallest priority wins and the first of equals stays; other states are unchanged |
| LexerNfa.Nfa.Views | include/lexer/nfa.h:42-44 | the states and start of each sub-automaton, in order |
| LexerNfa.Nfa.UnionManyFixed | src/lexer/nfa.cpp:24-54 | the corrected union: state 0 is a fresh start with an ε-edge to each non-skipped sub-automaton's start, shifted past the states before it, as in the later revision's union |
| LexerNfa.Nfa.AppendSub | src/lexer/nfa.cpp:37-51 | one sub-automaton is copied after the existing states, its edges shifted by the base, and linked from the start |
| LexerNfa.Nfa.ShiftFrom | src/lexer/nfa.cpp:47-49 | every edge of the states from the base on is shifted by the base; earlier states are unchanged |
| Regex.AltShape | src/lexer/regex.cpp:27-50 | `parse_alt` never moves the cursor back and never past the terminator |
| Regex.AltLoop | src/lexer/regex.cpp:30-37 | the `'|'` loop never moves the cursor back and never past the terminator |
| Regex.ConcatShape | src/lexer/regex.cpp:52-70 | `parse_concat` never moves the cursor back and never past the terminator |
| Regex.ConcatLoop | src/lexer/regex.cpp:55-63 | the concatenation loop stops at the first invalid repeat, within the pattern |
| Regex.RepeatShape | src/lexer/regex.cpp:72-91 | a valid repeat reads at least one character, and stays within the pattern |
| Regex.StarsEnd | src/lexer/regex.cpp:76-89 | the repeat loop consumes exactly the run of `*` and `+` after the atom |
| Regex.AtomShape | src/lexer/regex.cpp:93-138 | a valid atom reads at least one character, and stays within the pattern |
| Regex.AtomRefusesWithoutReading | src/lexer/regex.cpp:94-97 | `parse_atom` gives up without reading exactly on the terminator, `|` and `)` |
| Regex.PrefixEnd | src/lexer/regex.cpp:8-11 | parsing starts at 3 exactly when the pattern begins with `?i:`, and at 0 otherwise |
| Regex.UnclosedGroupAccepted | src/lexer/regex.cpp:99-104 | a group left open at the end (`a(b`) is reported invalid by `parse_atom`, ends the concatenation, and `compile` accepts the pattern as `a` |
| Regex.LiteralEdges | src/lexer/regex.cpp:120-137 | in case-insensitive mode a letter gets two edges with different labels; any other literal gets one edge labelled with its character code; all go to the accept state |
| Regex.LiteralCaseFree | src/lexer/regex.cpp:131-133 | in case-insensitive mode a letter written in either case gets the same edges, its lower-case then its upper-case form |
| Regex.LinkStep | src/lexer/regex.cpp:65-67 | one round of the linking loop adds exactly the next ε-link and changes nothing else |
| Regex.JoinStep | src/lexer/regex.cpp:45-48 | one round of the joining loop adds exactly the next branch accept's ε-edge to the new accept, below the new states |
| Regex.EdgeKeepsShape | src/lexer/regex.cpp:46-47 | an ε-edge added between existing states keeps every edge target in range and every state non-accepting |
| Regex.ChainLinkAt | src/lexer/regex.cpp:65-67 | after the linking loop, every fragment accept but the last has exactly one ε-edge, to the next fragment's start |
| Regex.ChainEffect | src/lexer/regex.cpp:65-69 | the linking loop leaves a concatenation: the returned fragment spans the first start to the last accept, chained by single ε-edges |
| Regex.ChainBuilt | src/lexer/regex.cpp:65-69 | the linking loop leaves the last accept without edges, so the concatenation is a fragment on new states |
| Regex.ChainBelow | src/lexer/regex.cpp:65-67 | the linking loop changes no state created before the concatenation began |
| Regex.Entries | src/lexer/regex.cpp:45-48 | the new start of an alternation has one ε-edge into each branch, in order |
| Regex.BranchEffect | src/lexer/regex.cpp:45-48 | the joining loop gives each branch accept exactly one ε-edge, to the new accept, and changes no state created before the alternation began |
| Regex.AllBuiltExtends | src/lexer/regex.cpp:32-36 | adding states after built branches keeps them built |
| Regex.RegexParser.constructor | include/lexer/regex.h:42-45 | a new parser is at position 0, case-sensitive, over an empty automaton |
| Regex.RegexParser.Consume | include/lexer/regex.h:51-53 | `consume` returns the character under the cursor and moves one on |
| Regex.RegexParser.EmptyFragment | include/lexer/regex.h:55-57 | `empty_fragment` appends two fresh states and returns them as start and accept |
| Regex.RegexParser.LiteralFragment | src/lexer/regex.cpp:116-137 | a literal appends a start joined to a fresh accept by its character's edge (both cases of a letter when case-insensitive) |
| Regex.RegexParser.AnyFragment | src/lexer/regex.cpp:109-114 | `.` appends a start joined to a fresh accept by one ANY edge |
| Regex.RegexParser.RepeatFragment | src/lexer/regex.cpp:77-87 | `*` and `+` wrap the fragment in a new start and accept, with a back edge from its accept to its start, and `*` also skips it |
| Regex.RegexParser.ChainFragments | src/lexer/regex.cpp:65-67 | the linking loop gives each fragment's accept one ε-edge to the next fragment's start and changes nothing else |
| Regex.RegexParser.BranchFragment | src/lexer/regex.cpp:44-49 | several branches are joined by a new start with an ε-edge into each branch and a new accept with an ε-edge from each branch |
| Regex.RegexParser.ParseAlt | src/lexer/regex.cpp:27-50 | `parse_alt` reads exactly as far as the grammar's reading says and builds a fragment on new states exactly when that reading succeeds; with a `|`, that fragment is a fresh start and accept with an ε-edge into every branch in order and one ε-edge from each branch accept to the new accept; earlier states are untouched |
| Regex.RegexParser.CollectBranches | src/lexer/regex.cpp:28-37 | the branch loop reads as far as the grammar says, stops with invalid exactly when an invalid branch meets a `|`, and leaves the branches built in order on new states |
| Regex.RegexParser.ParseConcat | src/lexer/regex.cpp:52-70 | `parse_concat` builds, on new states, a fragment that spans the repeats up to the first invalid one, each accept joined to the next start by exactly one ε-edge; no repeat gives an invalid fragment |
| Regex.RegexParser.CollectRepeats | src/lexer/regex.cpp:53-59 | the repeat loop collects the repeats up to the first invalid one, as far as the grammar reads, each built on new states after the previous one |
| Regex.RegexParser.ParseRepeat | src/lexer/regex.cpp:72-91 | `parse_repeat` reads an atom and its run of `*` and `+`, valid exactly when the atom is; after at least one operator the fragment wraps an inner one as the last operator read prescribes (bypass edge only for `*`) |
| Regex.RegexParser.WrapRepeats | src/lexer/regex.cpp:76-89 | the operator loop consumes exactly the run of `*` and `+`, keeps the states below the atom untouched, and its result wraps the previous fragment as the last operator prescribes |
| Regex.RegexParser.ParseAtom | src/lexer/regex.cpp:93-138 | `parse_atom` reads a group (invalid unless closed), `.`, an escape or a literal, and refuses the terminator, `|` and `)`; `.` appends exactly a start with one ANY edge to a fresh accept, and a literal or escape a start with its character's edges to a fresh accept |
| Regex.Regex.constructor | include/lexer/regex.h:14 | a regex holds its pattern |
| Regex.Regex.Compile | src/lexer/regex.cpp:5-21 | `compile` fails with its message exactly when the pattern does not parse or input is left over; otherwise the automaton is well-formed, its start is the fragment's start, and the fragment's accept is the only state that can accept, with the given token and priority |
| FrontDfa.FirstEdge | src/utils/dfa.cpp:105-118 | the index of the first edge with the label, before which no edge has it, and past the end exactly when none has it |
| FrontDfa.LastEdge | src/utils/dfa.cpp:109-116 | the index of the last edge with the label, after which no edge has it, and -1 exactly when none has it |
| FrontDfa.WithEdgeSpec | src/utils/dfa.cpp:91-102 | `add_edge` keeps a state deterministic; afterwards the label leads to the new target, every other label keeps its edge and target, and the edge count grows only when the label was new |
| FrontDfa.AllLabelsSpec | src/utils/dfa.cpp:133-142 | `collect_alphabet` holds exactly the symbols that label some edge of some state |
| FrontDfa.EdgeSymsSpec | src/utils/dfa.cpp:137-139 | the labels of one state are exactly those of its edges |
| FrontDfa.ReachableStep | src/utils/dfa.cpp:121-130 | reachability extends along an edge |
| FrontDfa.MarkedIsReachSet | src/utils/dfa.cpp:121-130 | the states `dfs` marks from an all-false vector are exactly those reachable from its start |
| FrontDfa.PredsMeaning | src/utils/dfa.cpp:145-179 | over the reverse graph of the reachable part, the predecessors of a group for a symbol are exactly the reachable states with an edge so labelled into a reachable state of the group |
| FrontDfa.Assign | include/utils/dfa.h:46-57 | mapping states to a group changes the entries of exactly those states |
| FrontDfa.AddGroupConsistent | include/utils/dfa.h:46-57 | adding a group of ungrouped states keeps the state-to-group map and the groups agreeing |
| FrontDfa.GroupBound | include/utils/dfa.h:37-43 | non-empty, pairwise disjoint groups of states number at most the state count, so `groups.reserve(nStates)` suffices |
| FrontDfa.SetIntersection | include/utils/dfa.h:68-69 | `std::set_intersection` keeps exactly the states in both ranges, without duplicates when the first has none |
| FrontDfa.SetDifference | include/utils/dfa.h:66-67 | `std::set_difference` keeps exactly the states of the first range not in the second, without duplicates when the first has none |
| FrontDfa.Partition.constructor | include/utils/dfa.h:41-43 | a new partition has no groups and maps every state to -1 |
| FrontDfa.Partition.AddGroup | include/utils/dfa.h:46-57 | `add_group` appends a valid group with the given accept data and maps its states to its id, the old group count |
| FrontDfa.Partition.Split | include/utils/dfa.h:60-85 | `split` fails exactly when the group is invalid or the set does not properly divide it, leaving the states and the map as they were; otherwise the group keeps the intersection and a new group with the same accept data takes the rest; consistency and non-emptiness are kept |
| FrontDfa.Partition.Parts | include/utils/dfa.h:63-72 | the intersection and difference split the group's states into two disjoint halves, and each is empty exactly when the set misses or covers the group |
| FrontDfa.Partition.Divide | include/utils/dfa.h:74-84 | the successful end of `split`: the group keeps the intersection, a new group takes the difference, and the map sends each half to its group |
| FrontDfa.Partition.Resorted | include/utils/dfa.h:64 | sorting a group's states in place keeps every partition fact |
| FrontDfa.Partition.SplitConsistent | include/utils/dfa.h:74-84 | after a successful split the map and the groups still agree |
| FrontDfa.Partition.Find | include/utils/dfa.h:87-89 | on a consistent partition `find` gives -1 exactly for states in no group, and otherwise a group holding the state |
| FrontDfa.NewSubsetBuilt | src/utils/dfa.cpp:72-81 | registering a new closure with its accept data keeps every edge sound and every state deterministic |
| FrontDfa.NewSubsetIndexed | src/utils/dfa.cpp:77 | registering a closure missing from `subset_idx` keeps the index exact |
| FrontDfa.SubsetCount | src/utils/dfa.cpp:59-87 | distinct subsets of the NFA's states number at most the number of such subsets, which bounds the work list |
| FrontDfa.LinkSound | src/utils/dfa.cpp:85 | adding the edge to the closure's state keeps the construction sound and gives the state its edge for the symbol |
| FrontDfa.StartBuilt | src/utils/dfa.cpp:48-57 | the start state alone satisfies the construction's invariant |
| FrontDfa.BuiltCount | src/utils/dfa.cpp:59-87 | the registered subsets are distinct, so the construction registers finitely many |
| FrontDfa.CompleteKeep | src/utils/dfa.cpp:62-86 | handling one symbol keeps what was complete and completes that symbol for the state |
| FrontDfa.CompleteNext | src/utils/dfa.cpp:59-61 | when every symbol of a state is handled, the states before the next are complete |
| FrontDfa.BuiltEnd | src/utils/dfa.cpp:59-87 | at the end every edge is in range, subsets are distinct, and every state has an edge for every symbol its subset moves on |
| FrontDfa.DfsAfterCall | src/utils/dfa.cpp:124-129 | after a recursive call, only states reachable from u were marked, and the edges scanned so far lead to marked states |
| FrontDfa.Dfa.constructor | include/utils/dfa.h:94 | an empty automaton with start -1 |
| FrontDfa.Dfa.FromNfa | src/utils/dfa.cpp:31-88 | an empty NFA gives an empty automaton started at 0; otherwise the result is the subset automaton: state 0 is the ε-closure of the start, each state is a distinct ε-closed subset carrying the accept data of its first best state, every edge leads to the closure of the moves on its symbol, and every symbol with moves has an edge |
| FrontDfa.Dfa.WorkList | src/utils/dfa.cpp:59-87 | expanding every registered subset in order ends with all states complete, keeping the invariant |
| FrontDfa.Dfa.AddStart | src/utils/dfa.cpp:39-57 | state 0 stands for the ε-closure of the NFA's start, with its accept data |
| FrontDfa.Dfa.ExpandState | src/utils/dfa.cpp:60-86 | the loop body gives state i its edge for every symbol its subset moves on, and keeps earlier subsets |
| FrontDfa.Dfa.Explore | src/utils/dfa.cpp:64-85 | one symbol: state i gets the edge to the closure of its moves (registered if new), no other state changes and no label is lost |
| FrontDfa.Dfa.Register | src/utils/dfa.cpp:70-84 | an absent closure is registered as a new state with its accept data; a present one is found; earlier states are unchanged |
| FrontDfa.Dfa.Link | src/utils/dfa.cpp:85 | adding the edge for a registered closure keeps the construction sound and changes only state i |
| FrontDfa.Dfa.NewState | src/utils/dfa.cpp:10-14 | `new_state` appends a fresh state and returns its index, the old count |
| FrontDfa.Dfa.AddEdge | src/utils/dfa.cpp:91-102 | `add_edge` retargets the state's edge with that label or appends one, changing only that state |
| FrontDfa.Dfa.Transition | src/utils/dfa.cpp:105-118 | `transition` follows the first edge with the symbol; failing that, for a symbol other than ANY, the last ANY edge; failing that, -1 |
| FrontDfa.Dfa.Dfs | src/utils/dfa.cpp:121-130 | `dfs` marks u and only states reachable from it, and every newly marked state has all its successors marked |
| FrontDfa.Dfa.CollectAlphabet | src/utils/dfa.cpp:133-142 | `collect_alphabet` returns the set of labels of all edges |
| FrontDfa.Dfa.BuildReverseEdges | src/utils/dfa.cpp:164-179 | `build_reverse_edges` lists, at each state, exactly the (symbol, source) pairs of edges into it between reachable states |
| FrontDfa.Dfa.FindPredecessors | src/utils/dfa.cpp:145-162 | `find_predecessors` lists each source of a reverse edge with the symbol into the group once |
| FrontDfa.RevStep | src/utils/dfa.cpp:172-176 | scanning one more edge keeps the reverse graph exact for the edges scanned so far |
| DfaMinimize.FinerTrans | src/utils/dfa.cpp:254-268 | refining a refinement of a partition refines the partition |
| DfaMinimize.DescendsTrans | src/utils/dfa.cpp:254-268 | states staying in old group ids across two rounds of splitting kept those ids throughout |
| DfaMinimize.RespectsFiner | src/utils/dfa.cpp:260-266 | a set that cuts no group still cuts no group after further splitting |
| DfaMinimize.PreDifference | src/utils/dfa.cpp:145-162 | in a deterministic automaton the predecessors of a difference of targets are the difference of the predecessors |
| DfaMinimize.RespectsDifference | src/utils/dfa.cpp:260-266 | if a partition cuts neither of two sets, it does not cut their difference |
| DfaMinimize.AppendConsistent | src/utils/dfa.cpp:247-249 | appending an ungrouped state to a group and mapping it there keeps the groups and the map agreeing |
| DfaMinimize.UnacceptingStates | src/utils/dfa.cpp:225-231 | the list holds each reachable non-accepting state once, and nothing else |
| DfaMinimize.InitialPartition | src/utils/dfa.cpp:220-235 | after the non-accepting group the partition is consistent, its groups are non-empty and agree with their states' accept data, and every group id is on the work list |
| DfaMinimize.GroupAccepting | src/utils/dfa.cpp:237-252 | afterwards every reachable state is in a group, each group holds states with one (token, priority) class, and every group id is on the work list |
| DfaMinimize.NewKeyGrouped | src/utils/dfa.cpp:242-245 | a state with a new (token, priority) key starts its own group, keeping every state up to it grouped with its class |
| DfaMinimize.OldKeyGrouped | src/utils/dfa.cpp:246-250 | a state with a known key joins that key's group, keeping every state up to it grouped with its class |
| DfaMinimize.SplitStep | src/utils/dfa.cpp:261-265 | one `split` call refines the partition, keeps its invariant, leaves other groups alone and leaves group k uncut by X |
| DfaMinimize.DivideStep | include/utils/dfa.h:74-84 | a successful split of group k refines the partition, keeps its invariant and leaves group k uncut by X |
| DfaMinimize.BelowStep | src/utils/dfa.cpp:260-266 | once group k is uncut, X cuts none of the groups before k + 1 |
| DfaMinimize.SplitAll | src/utils/dfa.cpp:260-266 | splitting every valid group by X refines the partition, keeps old ids for states that stay, pushes every new group, and leaves no group cut by X |
| DfaMinimize.SpansInit | src/utils/dfa.cpp:254-257 | before any splitter is handled, the per-symbol facts hold trivially |
| DfaMinimize.SpanRefine | src/utils/dfa.cpp:260-266 | facts about handled splitters survive further refinement |
| DfaMinimize.SpanHandle | src/utils/dfa.cpp:257-266 | splitting by the predecessors of splitter i for a symbol records that no group is cut by them |
| DfaMinimize.SpansHandle | src/utils/dfa.cpp:257-266 | handling one more symbol for splitter i keeps the facts for every symbol |
| DfaMinimize.SpansEnd | src/utils/dfa.cpp:254-268 | when the work list is exhausted, no group is cut by the predecessors of any group for any symbol: the partition is stable |
| DfaMinimize.PredsArePre | src/utils/dfa.cpp:258 | among reachable states, `find_predecessors` over the reverse graph returns exactly the predecessors of the splitter's class |
| DfaMinimize.RespectsOnReach | src/utils/dfa.cpp:260-266 | a set agreeing with an uncut one on the reachable states is uncut too |
| DfaMinimize.RefineBy | src/utils/dfa.cpp:255-267 | handling splitter i over the whole alphabet keeps the invariant and records splitter i as handled |
| DfaMinimize.Refine | src/utils/dfa.cpp:254-268 | the refinement loop ends with a consistent partition of the reachable states, respecting accept data, that is stable |
| DfaMinimize.OnlyEdge | src/utils/dfa.cpp:105-118 | in a deterministic state the first edge with an edge's label is that edge |
| DfaMinimize.StableLift | src/utils/dfa.cpp:283-288 | in a stable partition all states of a group send a symbol to one group, so the lifted edge is well defined |
| DfaMinimize.AddLifted | src/utils/dfa.cpp:287 | adding a lifted edge keeps every quotient edge lifted and in range, and loses no label |
| DfaMinimize.LinkState | src/utils/dfa.cpp:280-289 | linking state i gives its group an edge for each of its labels, each leading to the group of the old target |
| DfaMinimize.QuotientEnd | src/utils/dfa.cpp:270-290 | the rebuilt automaton is the quotient: each group carries its states' accept data and is non-empty, and has exactly their labels, each to the group of their target |
| DfaMinimize.Rebuild | src/utils/dfa.cpp:270-290 | the new states are the quotient of the old by the partition, and the start is the start's group |
| DfaMinimize.DfsResult | src/utils/dfa.cpp:203-204 | the vector `dfs` leaves from the start marks exactly the reachable states, and is closed under edges |
| DfaMinimize.Minimalize | src/utils/dfa.cpp:196-291 | the automaton becomes a quotient of its reachable part: unreachable states are dropped, each new state stands for a non-empty group of old states with one accept class and the same labels, every edge leads to the group of the old target, and the start is the old start's group |
| LexerDfa.FindPredecessors | src/lexer/dfa.cpp:135-148 | the legacy scan returns, in ascending order and once each, exactly the states, reachable or not, with an edge so labelled into the group |
| LexerDfa.ScanIsPre | src/lexer/dfa.cpp:213-214 | on reachable states the forward scan agrees with the predecessors of the splitter's class |
| LexerDfa.RefineBy | src/lexer/dfa.cpp:211-223 | handling one splitter over the whole alphabet keeps the partition's invariant and records the splitter as handled |
| LexerDfa.Refine | src/lexer/dfa.cpp:210-224 | the legacy refinement loop also ends with a stable partition of the reachable states that respects accept data |
| LexerDfa.Minimalize | src/lexer/dfa.cpp:164-247 | the legacy `minimalize` makes the automaton the quotient of its reachable part by a grouping that keeps accept data and labels, with edges to the groups of old targets and the start's group as start |
| Lexer.UnionRanked | src/lexer/lexer.cpp:150-158 | after `union_many` every accepting state still carries a rule index below the rule count as both token and priority |
| Lexer.CompileRules | src/lexer/lexer.cpp:150-158 | compiling the rules fails exactly when some pattern does not parse; otherwise the united automaton is well formed, starts at 0 and accepts only with rule indices as tokens and priorities |
| Lexer.SubsetRanked | src/utils/dfa.cpp:31-88 | the subset construction keeps the ranking: each automaton state accepts a rule index with that index as priority, or nothing |
| Lexer.QuotientRanked | src/utils/dfa.cpp:270-290 | minimisation keeps the ranking |
| Lexer.Step | src/utils/dfa.cpp:105-118 | a transition exists exactly when the state has an edge for the character or, for a character other than ANY, an ANY edge, and leads to a state in range |
| Lexer.Walk | src/lexer/lexer.cpp:44-54 | running the automaton over a slice gives a state in range, or -1 once stuck |
| Lexer.WalkDead | src/lexer/lexer.cpp:47 | a run that got stuck stays stuck |
| Lexer.LongestAccept | src/lexer/lexer.cpp:36-54 | the end found lies within the slice, and beyond the start only where the run accepts |
| Lexer.LongestAcceptStep | src/lexer/lexer.cpp:48-53 | reading one more character, the longest accept moves to it exactly when the new state accepts |
| Lexer.LongestAcceptMaximal | src/lexer/lexer.cpp:36-54 | no prefix longer than the longest accept is accepted |
| Lexer.LongestDead | src/lexer/lexer.cpp:44-47 | once the run is stuck, the longest accept of the whole rest was found before it |
| Lexer.MunchAdvance | src/lexer/lexer.cpp:44-54 | one round of the inner loop keeps the invariant: the current state is the run's state, and the last accepting position is the longest accept so far |
| Lexer.MunchAt | src/lexer/lexer.cpp:55-73 | every token takes at least one character and no more than remain |
| Lexer.MaximalMunch | src/lexer/lexer.cpp:36-73 | maximal munch: no longer prefix is accepted; an accepted lexeme gets the type and category of the rule its state accepts; with nothing accepted, the token is the one character, typed Invalid |
| Lexer.Munches | src/lexer/lexer.cpp:35-76 | the munch table gives, at each position, a token inside the source |
| Lexer.TokenFrom | src/lexer/lexer.cpp:58-71 | a token's lexeme is the non-empty slice of the source at its position |
| Lexer.ScanAccStep | src/lexer/lexer.cpp:35-76 | the scan from a position is the token there followed by the scan from just past it, with the location advanced over the lexeme |
| Lexer.Scan | src/lexer/lexer.cpp:34-76 | the lexemes, run together, are the source: nothing is dropped, repeated or reordered, and there are no more tokens than characters |
| Lexer.ScanLexemes | src/lexer/lexer.cpp:35-76 | the scan extends the tokens emitted so far, by at most one per character left, and their lexemes spell the source |
| Lexer.LexemesStep | src/lexer/lexer.cpp:74 | moving one token from the rest of the source onto the emitted ones keeps the lexemes spelling the source |
| Lexer.AdvanceChar | src/lexer/lexer.cpp:164-176 | a newline moves to the next row; a tab moves right to the next column that is one past a multiple of 4; the column stays at least 1 |
| Lexer.AdvanceLoc | src/lexer/lexer.cpp:162-178 | advancing never moves up a row nor below column 1 |
| Lexer.AdvanceAppend | src/lexer/lexer.cpp:162-178 | over text without '\0', advancing over two pieces is advancing over the whole |
| Lexer.AdvanceNewline | src/lexer/lexer.cpp:165-167 | text without a newline stays on its row, and a trailing newline moves to column 1 of the next |
| Lexer.NonSpacer | src/lexer/lexer.cpp:89-99 | the filter keeps only tokens of the input that are not spacers |
| Lexer.NonSpacerAppend | src/lexer/lexer.cpp:93-97 | filtering keeps order: the filter of a concatenation is the concatenation of the filters |
| Lexer.NonSpacerKeeps | src/lexer/lexer.cpp:89-99 | a list without spacers is unchanged |
| Lexer.Lexer.Init | src/lexer/lexer.cpp:10-11 | a lexer starts with its source, no tokens, row 1, column 1 |
| Lexer.Lexer.New | src/lexer/lexer.cpp:10-26 | construction fails exactly when a rule pattern does not parse; otherwise the lexer holds its source, no tokens, the rule table and a started automaton ranked by rule index |
| Lexer.Lexer.BuildDfa | src/lexer/lexer.cpp:16-22 | the subset construction followed by minimisation gives a started automaton with edges in range that keeps the rule ranking |
| Lexer.Lexer.Advance | src/lexer/lexer.cpp:162-178 | row and column move over the lexeme as the location function says |
| Lexer.Lexer.Optimize | src/lexer/lexer.cpp:89-99 | the tokens become the non-spacer tokens, in order |
| Lexer.Lexer.Munch | src/lexer/lexer.cpp:36-54 | the inner loop stops at the longest accepted prefix, with the state it accepts in |
| Lexer.Lexer.ScanStep | src/lexer/lexer.cpp:36-75 | one round appends the munch's token at the current location and advances past its lexeme |
| Lexer.Lexer.ScanAll | src/lexer/lexer.cpp:35-76 | the outer loop appends the scan of the whole source and ends at the location after it |
| Lexer.Lexer.Tokenize | src/lexer/lexer.cpp:29-79 | an empty source is an error; cached tokens are returned unchanged; a missing start is an error; otherwise the tokens are the scan with spacers dropped |
| Lexer.Lexer.TokenizeSource | src/lexer/lexer.cpp:81-87 | with a new source, cleared tokens and location 1:1, the result is as `tokenize` gives |
| TokenFormat.FormatToken | tests/lexer/dfa_format_test.cpp:13-136 | `format_token_for_output` writes the empty string exactly for the end-of-file token; any other line starts with the lexeme, then a tab and `<`, and ends with `>` |
| TokenFormat.KeywordNumbers | tests/lexer/dfa_format_test.cpp:19-42 | the eight keywords are numbered `KW,1` to `KW,8` in the order int, void, return, const, main, float, if, else |
| TokenFormat.OperatorNumbers | tests/lexer/dfa_format_test.cpp:45-86 | the fourteen operators are numbered `OP,6` to `OP,19` in their listed order |
| TokenFormat.SeparatorNumbers | tests/lexer/dfa_format_test.cpp:89-106 | the six separators are numbered `SE,20` to `SE,25` in their listed order |
| TokenFormat.CodeNamesType | tests/lexer/dfa_format_test.cpp:17-121 | the code written for every listed type names that type again: no two listed types share a code |
| TokenFormat.CodeWellFormed | tests/lexer/dfa_format_test.cpp:17-131 | every code the switch writes has a class without a comma, is textual exactly for IDN, INT and FLOAT, and then carries the lexeme |
| TokenFormat.UnknownExactly | tests/lexer/dfa_format_test.cpp:124-131 | `UNKNOWN` is written exactly for the types the switch does not list, other than end of file |
| TokenFormat.TypeOf | tests/lexer/dfa_format_test.cpp:17-121 | reading a code back: the type the numbering tables and the textual classes assign to it |
| TokenFormat.RenderDecodes | tests/lexer/dfa_format_test.cpp:17-131 | a well-formed code reads back from its text |
| TokenFormat.SplitFormatted | tests/lexer/dfa_format_test.cpp:13-136 | a tab-free lexeme and any code split back out of the line they form |
| TokenFormat.FormatRoundTrip | tests/lexer/dfa_format_test.cpp:13-136 | the line of every listed token whose lexeme has no tab reads back as that token's lexeme and type |
| TokenFormat.FormatInjective | tests/lexer/dfa_format_test.cpp:13-136 | two such tokens print the same line only when they have the same type and lexeme |
| TextLines.RStrip | tests/compare_tokens.py:14 | `rstrip()`: the result is a prefix of the line, what it cut is all whitespace, and it does not end in whitespace |
| TextLines.LStrip | tests/compare_trace.py:14 | the leading half of `strip()`: a suffix of the line, what it cut is whitespace, and it does not start with whitespace |
| TextLines.StripEmpty | tests/compare_tokens.py:14 | `line.strip() != ""` holds exactly when the line is not all whitespace, and `rstrip` empties exactly the blank lines |
| TextLines.RStripIdempotent | tests/compare_tokens.py:14 | stripping a stripped line changes nothing |
| TextLines.WordLength | tests/compare_trace.py:19 | the first field of `split()` ends at the first whitespace character |
| TextLines.Fields | tests/compare_trace.py:19 | `split()` with no separator yields only non-empty fields without whitespace |
| TextLines.SplitJoin | tests/compare_trace.py:19-26 | splitting fields joined by single spaces gives the same fields back |
| TextLines.WordFields | tests/compare_trace.py:19 | a word followed by whitespace or by nothing is the first field of `split()` |
| CompareTokens.Normalize | tests/compare_tokens.py:12-18 | `load_lines` / `load_actual`: every kept line is non-empty and ends in non-whitespace, and no more lines come out than went in |
| CompareTokens.NormalizeLine | tests/compare_tokens.py:14 | a single line is dropped exactly when it is blank and is otherwise kept right-stripped |
| CompareTokens.NormalizeAppend | tests/compare_tokens.py:14 | normalisation distributes over concatenation, so it keeps the order of the lines |
| CompareTokens.NormalizeIdempotent | tests/compare_tokens.py:14 | normalising normalised lines changes nothing |
| CompareTokens.Compare | tests/compare_tokens.py:21-34 | exit status 2 exactly for a wrong argument count; with one argument, 0 exactly when the normalised reference and actual lines are equal, else 1; nothing goes to stdout; success prints nothing |
| CompareTokens.CompareSymmetric | tests/compare_tokens.py:27 | the verdict is the same with reference and actual swapped |
| CompareTokens.CompareIgnoresBlank | tests/compare_tokens.py:14 | appending a blank line to the reference never changes the verdict |
| CompareTokens.CompareNormalized | tests/compare_tokens.py:25-27 | a reference that is already normalised gives the same verdict as the raw one |
| CompareTrace.Kinds | tests/compare_trace.py:13 | the kinds of the lines, position by position |
| CompareTrace.Collect | tests/compare_trace.py:11-28 | the collected entries are at most one per line |
| CompareTrace.LoadMoves | tests/compare_trace.py:11-28 | the loop of `load_moves_from_lines`, with its early `break`, returns exactly the moves of the lines |
| CompareTrace.ScanLine | tests/compare_trace.py:14-27 | one iteration: it stops exactly on a `define ` line, and otherwise yields an entry exactly for a move line of three or more fields, that entry being the middle fields joined by spaces |
| CompareTrace.CollectAt | tests/compare_trace.py:15-27 | the entries collected from a position on, by the kind of the line there |
| CompareTrace.CollectStops | tests/compare_trace.py:17-18 | nothing after a stop contributes |
| CompareTrace.CollectAppend | tests/compare_trace.py:13-27 | kinds before any stop contribute in order |
| CompareTrace.SentinelStops | tests/compare_trace.py:17-18 | the moves of lines that contain a `define ` line are the moves of the lines before it |
| CompareTrace.MovesAppend | tests/compare_trace.py:13-27 | without a sentinel, the moves of two pieces of a trace are the moves of each, concatenated |
| CompareTrace.EntryFields | tests/compare_trace.py:19-26 | a collected entry splits back into the fields it was made of, whatever spacing the trace used |
| CompareTrace.Compare | tests/compare_trace.py:36-53 | exit status 2 exactly for a wrong argument count; with one argument, 0 exactly when the move lists are equal, else 1 with "Trace mismatch:" on stdout; success prints nothing |
| CompareTrace.CompareIgnoresIr | tests/compare_trace.py:17-18 | whatever follows the IR sentinel in the actual trace never changes the verdict |
| ParserLL.SymbolsOf | src/grammar/parser_ll.cpp:48-58 | one grammar symbol per token |
| ParserLL.Pushed | src/grammar/parser_ll.cpp:84-87 | the symbols pushed for a body are never epsilon |
| ParserLL.NonEps | src/grammar/parser_ll.cpp:84-87 | the body with epsilon left out holds no epsilon |
| ParserLL.PushedOrder | src/grammar/parser_ll.cpp:83-87 | pushing the body in reverse leaves its first symbol on top: popping gives the body's non-epsilon symbols in order |
| ParserLL.ReverseAppend | src/grammar/parser_ll.cpp:84-87 | reversal turns a concatenation around |
| ParserLL.StepInv | src/grammar/parser_ll.cpp:44-98 | an iteration that goes on keeps End at the bottom, the cursor at most one past the last token, and the Move steps equal to the symbols of the tokens consumed |
| ParserLL.PushBody | src/grammar/parser_ll.cpp:84-87 | the loop pushes exactly the body reversed without epsilon on top of the stack |
| ParserLL.Parse | src/grammar/parser_ll.cpp:34-101 | the steps returned are those of the parse loop run from [End, start] at cursor 0; it reports whether the loop returned, or reached a cursor past the last token, within the iteration bound; End over another lookahead is an Error step here, not the endless loop of the code as written |
| ParserLL.FirstNonTerminal | src/grammar/parser_ll.cpp:78-87 | the position found holds a non-terminal, and none comes before it |
| ParserLL.ExpandForm | src/grammar/parser_ll.cpp:78-87 | expanding the non-terminal on top rewrites the leftmost non-terminal of the sentential form by the production |
| ParserLL.ApplyAt | src/grammar/parser_ll.cpp:80-87 | after the matched terminals the non-terminal is the leftmost one, and it is replaced by the body without epsilon |
| ParserLL.FormAfter | src/grammar/parser_ll.cpp:82-87 | read from the top down, the stack after the push is the body followed by the rest |
| ParserLL.PopForm | src/grammar/parser_ll.cpp:66-70 | popping an epsilon or a matched terminal leaves the sentential form unchanged |
| ParserLL.MoveDeriv | src/grammar/parser_ll.cpp:66-70 | matching a terminal moves it from the stack to the matched terminals and keeps the derivation invariant |
| ParserLL.ExpandDeriv | src/grammar/parser_ll.cpp:78-87 | expanding by the table's production is one leftmost derivation step |
| ParserLL.PopDeriv | src/grammar/parser_ll.cpp:95-97 | popping an epsilon keeps the derivation invariant |
| ParserLL.StepDeriv | src/grammar/parser_ll.cpp:44-98 | an iteration that goes on keeps the derivation invariant |
| ParserLL.PushedNoEnd | src/grammar/parser_ll.cpp:84-87 | with no end marker in a body, End stays at the bottom only |
| ParserLL.RunDeriv | src/grammar/parser_ll.cpp:44-98 | the derivation invariant holds to the end of the loop, up to the step that stops it |
| ParserLL.AcceptStep | src/grammar/parser_ll.cpp:60-64 | at Accept the matched terminals are the whole derived form |
| ParserLL.AcceptShape | src/grammar/parser_ll.cpp:60-64 | Accept happens only with End on top over a lookahead mapped to the end marker, and pops End |
| ParserLL.AcceptSound | src/grammar/parser_ll.cpp:34-101 | when the parser accepts, the token at the cursor is mapped to the end marker and the symbols of the tokens before it are derived, leftmost, from the start symbol by the productions it expanded by |
| ParserLL.AcceptFrom | src/grammar/parser_ll.cpp:44-98 | the same from any configuration that keeps both invariants |
| ParserLL.InitialInv | src/grammar/parser_ll.cpp:36-39 | the stack [End, start] at cursor 0 satisfies both invariants |
| ParserLL.MovesCount | src/grammar/parser_ll.cpp:66-70 | while running, the number of Move steps is the cursor |
| ParserLL.RunKeepsInv | src/grammar/parser_ll.cpp:44-98 | running keeps the stack invariant |
| ParserLL.StepInside | src/grammar/parser_ll.cpp:66-70 | when the last token is mapped to End, no Move advances past it |
| ParserLL.NeverPastEnd | src/grammar/parser_ll.cpp:44-98 | when the last token is mapped to the end marker, the loop never reaches a cursor past the last token |
| ParserLL.EndSpins | src/grammar/parser_ll.cpp:44-98 | as written, End on top over any other mapped lookahead is left unchanged by every iteration; corrected, the next iteration stops with an Error step |
| ParserLL.SemiExpandStep | src/grammar/parser_ll.cpp:78-87 | for S -> ";" on `; ;`, the first iteration expands S |
| ParserLL.SemiMatchStep | src/grammar/parser_ll.cpp:66-70 | the second iteration matches the first `;`, leaving End over the second |
| ParserLL.TrailingTokenSpins | src/grammar/parser_ll.cpp:44-98 | on `; ;` the parser as written never returns, whatever the bound, while the corrected one stops at the third iteration with Error on the second `;` |
| ParserLL.MissingEndReadsPastEnd | src/grammar/parser_ll.cpp:44-45 | on `;` with no end-of-file token, the third iteration reads the token at index 1 of a one-token vector |
| ParserLL.AssignOne | src/grammar/parser_ll.cpp:140-143 | entering p at one more lookahead is entering it at the larger set |
| ParserLL.AssignTwice | src/grammar/parser_ll.cpp:139-150 | entering p at two sets in turn is entering it at their union |
| ParserLL.AssignAt | src/grammar/parser_ll.cpp:142-148 | after entering p at (A, a) for a in S, those entries are p and every other entry is as before |
| ParserLL.LastChosen | src/grammar/parser_ll.cpp:133-151 | the production found is the last among the first k whose head is A and which predicts a, and none predicts a when there is none |
| ParserLL.TableIsLastChosen | src/grammar/parser_ll.cpp:128-152 | M[A, a] exists exactly when some production of A predicts a, and it is the last such one: later entries overwrite earlier ones |
| ParserLL.ErrorPersists | src/grammar/parser_ll.cpp:145-146 | once a missing FOLLOW entry has made `at` throw, the table computation fails |
| ParserLL.TableHeadsMatch | src/grammar/parser_ll.cpp:128-152 | every entry M[A, a] is a production of A |
| ParserLL.TableFails | src/grammar/parser_ll.cpp:145-146 | the computation fails exactly when a production with epsilon in its FIRST set has a head with no FOLLOW entry |
| ParserLL.ComputeActionTable | src/grammar/parser_ll.cpp:128-152 | the loop computes the table of the productions in order, or the failure of `at` |
| ParserLL.EnterFirst | src/grammar/parser_ll.cpp:140-143 | the first inner loop enters p at (A, a) for every non-epsilon a of FIRST and changes nothing else |
| ParserLL.EnterFollow | src/grammar/parser_ll.cpp:147-149 | the second inner loop enters p at (A, b) for every b of FOLLOW(A) and changes nothing else |
| ParserLL.Retagged | src/grammar/parser_ll.cpp:106-123 | a token keeps its location and lexeme; it is retagged to the function-definition keyword with category FuncDef exactly when it is `int` or `float` at brace depth 0 followed by a name and `(` |
| ParserLL.PreprocessTokens | src/grammar/parser_ll.cpp:103-126 | the copy has every position retagged and nothing else changed |
| ParserLL.RetagStep | src/grammar/parser_ll.cpp:106-123 | the loop has not yet touched positions from i on, and round i retags position i |
| ParserLL.RetagAll | src/grammar/parser_ll.cpp:103-126 | the retagged copy has the same length, with each token retagged by its own position |
| ParserLL.DepthKept | src/grammar/parser_ll.cpp:107-112 | retagging leaves the brace depth at every position unchanged |
| ParserLL.DepthOfSameBraces | src/grammar/parser_ll.cpp:107-112 | the depth depends on the braces alone |
| ParserLL.BracesKept | src/grammar/parser_ll.cpp:118-122 | retagging turns no brace into something else and nothing else into a brace |
| ParserLL.NoFuncDefLeft | src/grammar/parser_ll.cpp:113-123 | after retagging no position starts a function definition |
| ParserLL.RetagIdempotent | src/grammar/parser_ll.cpp:103-126 | retagging twice is retagging once |
| ParserLL.ParseRound | src/grammar/parser_ll.cpp:44-95 | one iteration of the parse loop leaves exactly the stack, cursor and result vector of one `Step`, and reports whether the loop goes on or returns |
| ParserLL.RetagPosition | src/grammar/parser_ll.cpp:113-123 | the loop body at position i retags exactly token i when it starts a function definition, so the copy becomes the one retagged up to and including i |
| ParserSlr.IndexedWell | src/grammar/parser_slr.cpp:62-66 | the grammar's own numbering gives what closure relies on: production i has id i, and every id listed under a name indexes a production |
| ParserSlr.ClosureUnique | src/grammar/parser_slr.cpp:51-74 | a set of items has one closure |
| ParserSlr.ClosureOfLeast | src/grammar/parser_slr.cpp:51-74 | the closure is the least set of items holding the input and closed under adding [B -> . gamma] for every non-terminal B after a dot |
| ParserSlr.IdStartsSnoc | src/grammar/parser_slr.cpp:65-71 | one more listed production adds its start item |
| ParserSlr.Starts | src/grammar/parser_slr.cpp:67 | start items are items of the grammar |
| ParserSlr.Universe | include/grammar/parser_slr.h:20-58 | exactly the items whose dot lies within their production's body |
| ParserSlr.Kernel | src/grammar/parser_slr.cpp:98-104 | the items advanced over X are items of the grammar |
| ParserSlr.ItemsOf | include/grammar/parser_slr.h:129-132 | the item sets of the states, in order |
| ParserSlr.KeysDistinct | include/grammar/parser_slr.h:141-145 | different sorted keys hold different item sets, so `make_key` identifies a set |
| ParserSlr.StatesDistinct | src/grammar/parser_slr.cpp:184-196 | no two states have the same items |
| ParserSlr.StatesBound | src/grammar/parser_slr.cpp:86-115 | there are no more states than sets of items, so the work list runs dry |
| ParserSlr.WorkStep | src/grammar/parser_slr.cpp:89-115 | handling one more state adds its transitions and keeps the work-list invariant |
| ParserSlr.WorkStart | src/grammar/parser_slr.cpp:79-87 | the start state alone satisfies the work-list invariant |
| ParserSlr.WorkDone | src/grammar/parser_slr.cpp:89-115 | with every state handled the collection is canonical: state 0 is the closure of the start item, states are distinct, and GO holds exactly each state's transitions |
| ParserSlr.GoDoneExtend | src/grammar/parser_slr.cpp:107-114 | appending states and adding GO entries for another state keeps what was shown of a state |
| ParserSlr.ExpandStart | src/grammar/parser_slr.cpp:94-106 | before the second inner loop nothing is handled and nothing added |
| ParserSlr.ExpandStep | src/grammar/parser_slr.cpp:107-114 | one group handled: its closure is a state, old or new, and GO(I, X) points to it |
| ParserSlr.ExpandStepTo | src/grammar/parser_slr.cpp:107-114 | the same step with the new state list and work list stated |
| ParserSlr.SetsStep | src/grammar/parser_slr.cpp:109-113 | a new state is appended and queued; an old one changes nothing |
| ParserSlr.HandledStep | src/grammar/parser_slr.cpp:110 | GO(I, X) points to the state of the closure of X's kernel; entries handled before are kept |
| ParserSlr.GoGrowsStep | src/grammar/parser_slr.cpp:110 | GO gains only the entry of the symbol handled |
| ParserSlr.ExpandEnd | src/grammar/parser_slr.cpp:107-114 | after the loop state I has all its transitions and GO has no others |
| ParserSlr.Groups | src/grammar/parser_slr.cpp:98-104 | the groups are keyed by exactly the non-epsilon symbols after a dot |
| ParserSlr.Range | src/grammar/parser_slr.cpp:109-113 | the ids lo .. hi - 1 in order, the states queued |
| ParserSlr.GoOkExtend | src/grammar/parser_slr.cpp:107-114 | appending states and adding other GO entries keeps a transition |
| ParserSlr.GroupsAdd | src/grammar/parser_slr.cpp:98-104 | grouping one more item adds its advanced item under the symbol after its dot, and nothing for epsilon |
| ParserSlr.GroupsAddEps | src/grammar/parser_slr.cpp:100 | an item with epsilon after its dot adds no group |
| ParserSlr.GroupsAddSym | src/grammar/parser_slr.cpp:102-103 | an item with X after its dot adds its advanced item to X's group |
| ParserSlr.GroupAddSym | src/grammar/parser_slr.cpp:102-103 | the group of each symbol after an item is added |
| ParserSlr.DotSymbolsAdd | src/grammar/parser_slr.cpp:99-100 | the symbols after a dot gain the new item's, unless it is epsilon |
| ParserSlr.KernelAdd | src/grammar/parser_slr.cpp:102-103 | the kernel on y gains the advanced item exactly when y follows its dot |
| ParserSlr.KernelOutside | src/grammar/parser_slr.cpp:98-104 | a symbol after no dot has an empty kernel |
| ParserSlr.WritersAdd | src/grammar/parser_slr.cpp:158-180 | one more item adds its own completion entry to the writers of each symbol |
| ParserSlr.ShiftStep | src/grammar/parser_slr.cpp:143-155 | one item of the shift loop adds shift(GO(k, a)) exactly when it is not complete and a terminal a with a GO entry follows its dot |
| ParserSlr.ShiftDone | src/grammar/parser_slr.cpp:143-155 | after the shift loop the row holds exactly the shifts, with nothing written yet |
| ParserSlr.TableEntries | src/grammar/parser_slr.cpp:118-182 | every ACTION entry is a shift on a terminal to GO of it, accept on the end marker for a completed start item, or reduce on a FOLLOW symbol of the head of an item completed in that state; never Error |
| ParserSlr.EpsilonNeverReduced | include/grammar/parser_slr.h:55-57 | with Program -> CompUnit and CompUnit -> epsilon, the start state shifts nothing and, as written, writes nothing at the end marker, so the empty program has no action; with an epsilon-only rest counted as complete, CompUnit -> epsilon is reduced there |
| ParserSlr.SLRParser.constructor | src/grammar/parser_slr.cpp:12-16 | the canonical collection, then the tables; construction fails exactly when a completed start-symbol item is not production 0; an item whose rest is only ε counts as complete here, so ε-productions are reduced, where the code as written never reduces them |
| ParserSlr.SLRParser.Closure | src/grammar/parser_slr.cpp:51-74 | the work queue ends with the closure of the input |
| ParserSlr.SLRParser.AddExpansions | src/grammar/parser_slr.cpp:65-71 | the start items of the listed productions are added, and exactly the new ones queued |
| ParserSlr.SLRParser.ExpansionStep | src/grammar/parser_slr.cpp:55-73 | one round of the closure loop keeps the set within the closure and every item off the queue expanded |
| ParserSlr.SLRParser.AddState | src/grammar/parser_slr.cpp:184-196 | an item set already present is found by its key; a new one is appended with the next id; the index stays exact |
| ParserSlr.SLRParser.GroupByDot | src/grammar/parser_slr.cpp:94-104 | the first inner loop groups the items by the symbol after the dot, epsilon skipped, each advanced over it |
| ParserSlr.SLRParser.ExpandState | src/grammar/parser_slr.cpp:92-114 | state I gets all its transitions; old states and GO entries are kept; the new states are returned in order |
| ParserSlr.SLRParser.AddTransition | src/grammar/parser_slr.cpp:107-114 | one round of the second inner loop keeps its invariant with one more symbol handled |
| ParserSlr.SLRParser.InitItemSet | src/grammar/parser_slr.cpp:77-116 | the result is the canonical collection of LR(0) item sets with its GO function |
| ParserSlr.SLRParser.StartState | src/grammar/parser_slr.cpp:79-84 | state 0 is the closure of the start item |
| ParserSlr.SLRParser.WorkRound | src/grammar/parser_slr.cpp:89-115 | one round handles the next state, queues the states it creates, and keeps the invariant |
| ParserSlr.SLRParser.CalcActionGotoTables | src/grammar/parser_slr.cpp:118-182 | GOTO is GO on non-terminals; the construction fails, with its message, exactly when a completed start-symbol item is not production 0; otherwise each ACTION row has entries exactly for the shifted terminals and the written symbols, with completions overriding shifts |
| ParserSlr.SLRParser.FillRow | src/grammar/parser_slr.cpp:140-180 | one state's row is filled, failing exactly on a bad start item |
| ParserSlr.SLRParser.RowKept | src/grammar/parser_slr.cpp:139-181 | writing row k leaves every other row as it was |
| ParserSlr.SLRParser.ShiftRow | src/grammar/parser_slr.cpp:143-155 | the shift loop writes exactly the shifts of row k and no other row |
| ParserSlr.SLRParser.ReduceRow | src/grammar/parser_slr.cpp:158-180 | the completion loop writes accept or reduce entries over the shifts, failing exactly on a bad start item |
| ParserSlr.SLRParser.WriteReduce | src/grammar/parser_slr.cpp:172-178 | reduce by the production on every FOLLOW symbol of its head in row k, other entries kept |
| ParserSlr.SLRParser.AcceptStep | src/grammar/parser_slr.cpp:161-169 | a completed start item writes accept at the end marker |
| ParserSlr.SLRParser.SkipStep | src/grammar/parser_slr.cpp:159 | an item that is not complete writes nothing |
| ParserSlr.SLRParser.ReduceStep | src/grammar/parser_slr.cpp:170-178 | a completed item of another head writes its reduce entries |

## Left out

- TextLines.IsSpace: only the ASCII whitespace characters count as blanks. Python's `strip`, `rstrip` and `split` also remove other Unicode spaces (`\x85`, `\xa0`, `\u2000` to `\u200a`, `\u3000` and more), so CompareTokens.Normalize and the CompareTrace readers do not model lines that contain them.
- Codegen.FoldBinary: `+`, `-` and `*` wrap to 32 bits with two's complement. In C++, signed overflow there is undefined behaviour, so the model fixes one outcome the source does not promise.
- Codegen.EvalIntConstant: folding wraps `-INT_MIN`, `INT_MIN / -1` and `INT_MIN % -1` to 32 bits, where C++ has undefined behaviour. Division and remainder otherwise truncate toward zero, as in C++.
- Regex.At: it reads `'\0'` at and after the end of the pattern. After a trailing backslash, the source's `consume` steps past the string's terminator and the next `curr` reads out of range; the model reads the terminator there instead.
- FrontNfa.Nfa.UnionMany: the sub-automata are only read. The source moves their states out and leaves them empty, so aliasing and later use of the moved-from automata are not modelled.
- LexerNfa.Nfa.UnionManyFixed: likewise, the sub-automata are only read, not moved from.
- Codegen.ScopeGuard.Close: it requires an open scope when the guard is active. In the source, `pop_scope` throws on an empty stack, and a throw from the destructor ends the program. Program termination is not modelled.
- ParserLL.Parse: the diagnostics written to the error and output streams ("Parse Error!", "Parse Successful!" and the detail lines) are not modelled; only the recorded steps are.
- ParserLL.Parse: the loop runs for at most `fuel` iterations. A run that is out of fuel reports neither a return nor a cursor past the end, which is how a loop that never ends shows up (see ParserLL.TrailingTokenSpins).
- ParserSlr.SLRParser.constructor: FOLLOW is an input, taken from the grammar's `follow` field, because `compute_follow_set` is empty (Grammars.Grammar.ComputeFollowSet).
- ParserSlr.SLRParser.constructor: the exception that `calc_action_goto_tables` throws on a bad start item is recorded in the field `built` as an error. The constructor still returns.
- FrontDfa.Dfa.constructor: it also stands for the legacy constructor in `src/lexer/dfa.cpp`, which is not modelled separately. That constructor hashes a sorted copy of each subset but stores and compares the closures unsorted, so equal sets reached in a different order can become separate states there.
- Codegen.CodegenContext.Bind: a binding holds a storage address number instead of an IR value pointer, so aliasing between IR values is not modelled.
- Codegen.CodegenContext.CreateBlock: the block counter is an unbounded integer; overflow of the `int` counter is not modelled.
- IR emission is not part of this model: the `codegen` bodies, `as_bool`, `as_int`, `cast`, `to_ir_type`, `make_int` and `make_bool` call an IR library whose source is not available. `src/ir/ir_generator.cpp` and `src/main.cpp` (command line and file I/O) are also not part of this model.
- Floating point: a float literal keeps its lexeme. `stof`, float printing, `build_exp_float` and float lowering are not modelled.
- Debug output is not modelled: the Mermaid printers of the automata, the item-set, GO, ACTION, GOTO, FIRST and FOLLOW printers, and the timer, which reads a clock.
- Hash functions (`hash_combine` and the vector, pair and item hashes) are not modelled; containers are keyed by value, and their iteration order is an unspecified choice.
- Stream reading is not modelled: the lines read from standard input and from files by the Python `main`s and the formatter test's `main` are parameters.
- Code whose source is not available is not part of this model: `SLRParser::parse`, `Grammar::first_of_sequence`, `has_back_tracing` and its warning in the LL(1) driver, `normalize_ll1`, `post_process`, `print_tokens` and `print_parse_steps`.
- Language equivalence of subset construction and minimisation is not proved. The model proves their structural results instead: the subset automaton's definition, determinism, and the quotient by a stable partition.

## Findings

| source | as written | input that shows it | evidently intended | confidence | as-written member | corrected member |
|---|---|---|---|---|---|---|
| src/lexer/nfa.cpp:24-54 | `union_many` never creates a start state, so `add_eps(start_state(), …)` links from state -1 | one sub-automaton with one state and start 0 | a fresh start state 0 with an ε-edge to each kept sub-automaton, as in `src/utils/nfa.cpp` | not executed | LexerNfa.UnionAsWrittenCounterexample | LexerNfa.Nfa.UnionManyFixed |
| src/grammar/grammar_rules.cpp:119-121 | Stmt -> Block uses `build_single_forward`, which passes a Block on where a statement is expected | `{ }` as a statement inside a block | the block wrapped as a block statement | not executed | AstTyping.StmtBlockCounterexample | AstTyping.EvalSound |
| src/grammar/grammar_rules.cpp:190-193 | `build_func_rparams_append` reads position 2 as a list, but the grammar puts an expression there | any call with two or more arguments | the argument's expression appended to the list | not executed | AstTyping.ArgAppendAsWritten | AstTyping.ArgAppendCorrected |
| src/grammar/parser_ll.cpp:44-98 | with End on top of the stack and a lookahead other than End, no branch fires and the loop never ends | `; ;` with an end marker, under a table that accepts `;` | an Error step, then return | not executed | ParserLL.TrailingTokenSpins | ParserLL.Parse |
| src/grammar/parser_ll.cpp:44-45 | without an end-of-file token, `tokens[curr]` is read one past the last token | `;` with no end-of-file token | the token vector ends with the end marker, so the cursor stays inside it | not executed | ParserLL.MissingEndReadsPastEnd | ParserLL.NeverPastEnd |
| include/grammar/parser_slr.h:55-57 | `is_complete` is false for an item before an ε body symbol, so an ε-production is never reduced | the empty program (Program -> CompUnit, CompUnit -> ε) | an item whose rest is only ε counts as complete | not executed | ParserSlr.EpsilonNeverReduced | ParserSlr.SLRParser.constructor |
