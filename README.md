# A verified model of a small backtracking regex engine

The engine compiles a regular expression in three stages and searches a line with the result:

- **Parser** (`src/engine/parser.rs`). It turns the pattern into a syntax tree of characters, `.`, `+`, `*`, `?`, `|` and groups.
- **Code generator** (`src/engine/codegen.rs`). It lowers the tree into a program of five instructions: `Char`, `Dot`, `Match`, `Jump` and `Split`.
- **Evaluator** (`src/engine/evaluator.rs`). It runs that program depth-first against a line.
- **`do_matching`** (`src/engine.rs`). It tries the program on the suffixes of the line from left to right and reports the first suffix that the program accepts.

This project models all four parts in Dafny. It also proves what the parts promise:

- **Parser.** The parse is the fold of one step function. It reports the documented errors at the right positions. Printing a tree in the parser's syntax and parsing it back returns the same tree.
- **Generator.** The generator appends exactly the layout that its comments describe. Its programs are well formed: one final `Match`, and every target inside the program.
- **Evaluator.** A finished depth-first run answers whether some path through the program reaches `Match`.
- **Whole pipeline.** The compiled program accepts exactly when the pattern matches a prefix of the line. The matching is defined independently in `language.dfy`. So the suffix that `do_matching` reports is the first suffix of the line that begins with a match, and `(false, None)` means that no suffix starting at an offset below the line's length does. The empty suffix is never tried.

Modules, one concern per file:

| file | module | content |
|---|---|---|
| wrappers.dfy | Wrappers | `Option`, `Result` |
| helper.dfy | Helper | `usize::MAX` and the checked add `safe_add` |
| parser.dfy | Parser | tree, errors, the step function `Step`, its fold `Run`, `Parsed`, and the method `Parse` |
| parser_props.dfy | ParserProps | one rule per pattern character, error positions, group depth |
| parser_render.dfy | ParserRender | printing a tree as a pattern, and the parse-after-print round trip |
| instruction.dfy | Instructions | `Instruction` (engine.rs:9-15) and jump-target bounds |
| codegen.dfy | Codegen | `Code`, the layout of each construct, and the `Generator` class with its methods |
| codegen_props.dfy | CodegenProps | code size, no stray `Match`, targets, the shape of `get_code`'s result |
| evaluator.dfy | Evaluator | the fuel-bounded run `Run`, the loop `EvalDepth`, and `Eval` |
| evaluator_props.dfy | EvaluatorProps | paths of the machine, run answer ⇔ path, fuel monotonicity, no runtime errors |
| language.dfy | Language | what a tree matches, independent of code and machine |
| correctness.dfy | Correctness | each construct's code is correct for the machine |
| engine.dfy | Engine | `Search`, `Matching` and the method `DoMatching` |
| engine_props.dfy | EngineProps | what `do_matching`'s answer means |
| engine_examples.dfy | EngineExamples | the test cases of `src/main.rs` |
| findings.dfy | Findings | the two places where the code as written differs from its comments and tests |

Where the code and its own tests disagree, the model follows the tests and says so:

- **`.` in patterns.**
  - The parser as written has no `Dot` tree node. It treats `.` as a literal (parser.rs:159) and refuses `\.` as an escape (parser.rs:53).
  - The tests need the opposite (main.rs:103, main.rs:111-116): `.` matches any one character, and `\.` is a literal dot. The `Dot` instruction (engine.rs:11) and the evaluator's case for it (evaluator.rs:58-62) also expect this.
  - The model therefore adds `Dot` to the tree. The parser pushes `Dot` for `.`, accepts `\.` as an escape, and the generator emits `Dot` for it.
- **`gen_star`.** The model follows the layout in `gen_star`'s comment. The Findings section has the details.
- **`Dot` in the evaluator.** The model checks that a character is left before it advances, as the comment at evaluator.rs:59 says. The Findings section has the details.
- **The end of `parse`.** The function stops at a `TODO` (parser.rs:169). The model finishes it the way its accumulators imply:
  - An open group gives `NoRightParen`.
  - Otherwise the current sequence is closed as the last alternative, and the alternatives are folded with `fold_or`.
  - An empty pattern gives `Empty`.
- **Lines that do not compile.** Some lines of `parser.rs` would not compile. The model reads each of them as its evident intent:
  - `impl Error for ParseErorr` (parser.rs:49) and `ParseEror::InvalidEscape` (parser.rs:55) are read as `ParseError`.
  - `Nox::new` in `fold_or` (parser.rs:95) is read as `Box::new`.
  - `PSQ::State` for `*` (parser.rs:120) is read as `PSQ::Star`, so `*` wraps the previous item in `Star` (`ParserProps.PostfixRule`).
  - `Err(Box::new(ParseError::…))` (parser.rs:146 and parser.rs:152) is read as the plain `Err(ParseError::…)` that the function's result type declares.
  - The variant `NorightParen` (parser.rs:25) is named `NoRightParen`.
- **Empty lines.** `do_matching` tries offsets `0 .. line.len() - 1` only (engine.rs:75), so an empty line is never evaluated and the answer is `(false, None)`. The model keeps this, and `EngineExamples.EmptyLineNotSearched` shows it for `a*`.
- **`eval`'s fourth argument.** The search loop calls `eval` with three arguments (engine.rs:77), but `eval` takes a fourth, `backward_match` (evaluator.rs:88-93). The model passes `false`, so each suffix is asked whether the pattern matches a prefix of it. With `true`, the test at main.rs:83 (`abc?` on `abd`) would not match; `EngineExamples.BackwardMatchRejects` shows the two runs.
- **`ast_state.ast`.** `do_matching` reads the tree from a field `ast` of the parser's result (engine.rs:53-54), but `parse` returns the bare tree (parser.rs:104). The model compiles that tree.
- **The tests' use of the answer.** `do_matching` returns a pair `(bool, Option<String>)`, but the tests at main.rs:80-117 use its unwrapped result as a plain `bool`; those at main.rs:72-77 only ask `.is_err()`. The model reads each `bool` test as a statement about the pair's first component; the examples in `engine_examples.dfy` state the whole pair.

## Model

The specification functions `Codegen.Code` (codegen.rs:146-156) and the layouts it dispatches to — `QuestionCode` (codegen.rs:49-66), `StarCode` (codegen.rs:67-86, the layout of its doc comment), `PlusCode` (codegen.rs:88-101), `OrCode` (codegen.rs:103-144) and `CodeSeq` (codegen.rs:35-40) — carry no contract of their own. What they promise is stated by the rows that name them: the `Generator` methods append exactly their code, and the `CodegenProps` and `Correctness` lemmas give its size, its targets and what it accepts.

| member | source | states |
|---|---|---|
| Helper.SafeAdd | src/main.rs:54-67 | `safe_add` succeeds exactly when the sum is at most `usize::MAX` (2^64 - 1), and then yields the sum |
| Helper.SafeAddExamples | src/main.rs:54-67 | `10 + 20` is `Some(30)`; `usize::MAX + 1` is `None` |
| Parser.ParseEscape | src/engine/parser.rs:51-59 | an escape succeeds exactly for the escapable characters and yields that character as a literal; otherwise `InvalidEscape(pos, c)` |
| Parser.ParsePlusStarQuestion | src/engine/parser.rs:67-85 | fails with `NoPrev(pos)` exactly when the sequence is empty; otherwise only the last item is replaced by it wrapped in `+`, `*` or `?`, and the length is unchanged |
| Parser.Folded | src/engine/parser.rs:87-102 | no alternatives give `None`, one gives itself, several give an `Or` whose left side is the first |
| Parser.FoldOr | src/engine/parser.rs:87-102 | the pop/reverse/loop of `fold_or` computes `Folded` |
| ParserProps.FoldedSpine | src/engine/parser.rs:87-102 | `fold_or` nests to the right: the alternatives read back off the `Or` spine in their order |
| Parser.RunAppend | src/engine/parser.rs:116-167 | scanning `s + t` is scanning `s`, then `t` from the state reached, with positions continuing |
| Parser.RunStopsAtError | src/engine/parser.rs:116-167 | the first error of any prefix is the error of the whole parse (the `?` and `return Err` exits) |
| Parser.Step | src/engine/parser.rs:116-167 | one character of the loop fails exactly on an escape of a non-escapable character, on `+`, `*`, `?` or the alternation bar with nothing before it, or on `)` with no open group, and then with that position's error; a backslash read outside an escape, and nothing else, enters the escaped state; `(` opens one group and `)` closes one |
| Parser.Finish | src/engine/parser.rs:104-169 | the end of the scan, which the source leaves at a `TODO`: `NoRightParen` exactly when a group is still open, `Empty` exactly when no alternative was accumulated (`""`, `()`, a lone `\`); a pattern without `|` is its sequence; with `|` and a non-empty last alternative the result is an `Or` whose left side is the first alternative |
| Parser.Parse | src/engine/parser.rs:104-169 | the loop over the pattern's characters returns `Parsed(expr)` |
| ParserProps.PostfixRule | src/engine/parser.rs:119-121 | `+`, `*`, `?` with nothing before them fail with `NoPrev(i)`, else wrap the last item |
| ParserProps.LeftParenRule | src/engine/parser.rs:122-128 | `(` saves the current sequence and alternatives on the stack and starts empty ones |
| ParserProps.RightParenRule | src/engine/parser.rs:129-148 | `)` with no open group fails with `InvalidRightParen(i)`; otherwise it closes the group into one item of the enclosing sequence |
| ParserProps.BarRule | src/engine/parser.rs:149-157 | a bar after an empty sequence fails with `NoPrev(i)`; otherwise the sequence becomes a finished alternative |
| ParserProps.EscapeRule | src/engine/parser.rs:158-165 | `\` switches to the escape state, and the next character is pushed as a literal or fails with `InvalidEscape` |
| ParserProps.LiteralRule | src/engine/parser.rs:159 | any other character is appended as a literal |
| ParserProps.DotRule | src/engine/parser.rs:159 | `.`, which the source appends as a literal, appends `Dot` (the recorded `.` reading) |
| ParserProps.RunDepth | src/engine/parser.rs:111-167 | the scope stack grows by one per `(` and shrinks by one per `)`, counted independently of the scanner |
| ParserProps.StackDepth | src/engine/parser.rs:111-167 | after an accepted prefix the stack holds one entry per `(` still open |
| ParserProps.UnclosedGroup | src/engine/parser.rs:104-169 | a pattern that scans without error fails with `NoRightParen` exactly when a `(` is left open |
| ParserProps.RunErrorAt | src/engine/parser.rs:116-167 | every error raised from position `n` on names the offending character at its position |
| ParserProps.ParseErrorAt | src/engine/parser.rs:104-169 | `InvalidEscape`, `InvalidRightParen` and `NoPrev` point at the character that caused them |
| ParserProps.LeadingOperator | src/engine/parser.rs:116-157 | a pattern starting with `+`, `*`, `?` or a bar fails with `NoPrev(0)` |
| ParserProps.ParseErrorExamples | src/main.rs:72-77 | the malformed patterns of the tests give `NoPrev(0)`, `NoRightParen` and `InvalidRightParen(3)`; `""` gives `Empty` |
| ParserRender.FoldedBranches | src/engine/parser.rs:87-102 | folding a tree's alternatives rebuilds the tree |
| ParserRender.FeedAtom | src/engine/parser.rs:116-167 | scanning a printed atom (a literal, `.`, an atom under `+`, `*` or `?`, or a group) appends exactly that tree to the current sequence |
| ParserRender.FeedPostfix | src/engine/parser.rs:119-121 | scanning a printed atom and then `+`, `*` or `?` appends the wrapped atom |
| ParserRender.FeedItems | src/engine/parser.rs:116-167 | scanning a printed sequence appends its items in order |
| ParserRender.FeedAlts | src/engine/parser.rs:149-157 | scanning printed alternatives leaves the finished branches and the last one current |
| ParserRender.CloseGroup | src/engine/parser.rs:129-148 | `)` after printed alternatives closes them into the original tree |
| ParserRender.FeedGroup | src/engine/parser.rs:122-148 | scanning `(`, printed alternatives and `)` appends the original tree |
| ParserRender.ParseRender | src/engine/parser.rs:104-169 | parsing the printed form of any tree of the parser's shape gives that tree back |
| ParserRender.FoldedIsAlts | src/engine/parser.rs:87-102 | folding finished alternatives (non-empty sequences of atoms) gives a tree of the parser's shape |
| ParserRender.StepShaped | src/engine/parser.rs:116-167 | every character keeps the scanner's accumulators well shaped: atoms in the current sequences, non-empty sequences of atoms as finished alternatives |
| ParserRender.RunShaped | src/engine/parser.rs:116-167 | a scan from well-shaped accumulators ends in well-shaped ones |
| ParserRender.ParsedIsAlts | src/engine/parser.rs:104-169 | every tree `parse` returns has the parser's shape |
| ParserRender.ParseRenderParse | src/engine/parser.rs:104-169 | the round trip over the parser's whole range: printing any tree `parse` returns and parsing it again gives the same tree |
| Codegen.Generator.constructor | src/engine/codegen.rs:23-27 | a fresh generator is at address 0 with no instructions |
| Codegen.Generator.IncPc | src/engine/codegen.rs:30-33 | `pc` advances by one, or `PCOverFlow` at `usize::MAX`, instructions untouched |
| Codegen.Generator.GenSeq | src/engine/codegen.rs:35-40 | appends the children's code in order, or fails with `PCOverFlow` exactly when it would not fit |
| Codegen.Generator.GenChar | src/engine/codegen.rs:42-47 | appends `Char(c)` and advances `pc` |
| Codegen.Generator.GenDot | src/engine/codegen.rs:42-47 | appends `Dot` and advances `pc`, as `gen_char` does for a literal |
| Codegen.Generator.GenQuestion | src/engine/codegen.rs:49-66 | appends `split L1, L2; L1: e; L2:`, with the placeholder patched to the address after the body |
| Codegen.Generator.GenStar | src/engine/codegen.rs:67-86 | appends `L1: split L2, L3; L2: e; jump L1; L3:` as the doc comment lays it out |
| Codegen.Generator.GenPlus | src/engine/codegen.rs:88-101 | appends `L1: e; split L1, L2; L2:` |
| Codegen.Generator.GenOr | src/engine/codegen.rs:103-144 | appends `split L1, L2; L1: e1; jmp L3; L2: e2; L3:` with both placeholders patched; `FailOr` never occurs |
| Codegen.Generator.GenExpr | src/engine/codegen.rs:146-156 | appends `Code(t, pc)` or fails with `PCOverFlow` exactly when it would not fit |
| Codegen.Generator.GenCode | src/engine/codegen.rs:158-164 | appends the tree's code and one `Match` |
| Codegen.GetCode | src/engine/codegen.rs:167-171 | returns `Compiled(t)`: the code from address 0 and `Match`, or `PCOverFlow` |
| CodegenProps.CodeLen | src/engine/codegen.rs:146-156 | the code of a tree has `Len(t)` instructions wherever it is placed, counted on the tree alone |
| CodegenProps.CodeHasNoMatch | src/engine/codegen.rs:146-156 | no construct emits `Match` |
| CodegenProps.CodeTargets | src/engine/codegen.rs:146-156 | every `Jump`/`Split` of a construct's code targets that code or the address just after it |
| CodegenProps.QuestionTargets | src/engine/codegen.rs:49-66 | targets of `e?` stay inside its code |
| CodegenProps.StarTargets | src/engine/codegen.rs:67-86 | targets of `e*` stay inside its code |
| CodegenProps.PlusTargets | src/engine/codegen.rs:88-101 | targets of `e+` stay inside its code |
| CodegenProps.OrTargets | src/engine/codegen.rs:103-144 | targets of an alternation stay inside its code |
| CodegenProps.CodeSeqTargets | src/engine/codegen.rs:35-40 | targets of a sequence stay inside its code |
| CodegenProps.CompiledShape | src/engine/codegen.rs:158-171 | `get_code` fails, with `PCOverFlow`, exactly when `Len(t) + 1` exceeds `usize::MAX`; otherwise the program has `Len(t) + 1` instructions, ends with its only `Match`, and never jumps outside itself |
| Evaluator.Run | src/engine/evaluator.rs:26-84 | the machine's depth-first run; `PCOverFlow` and `SPOverFlow` arise only on a program or a line longer than `usize::MAX` |
| Evaluator.EvalDepth | src/engine/evaluator.rs:26-84 | the `loop` over `pc`/`sp`, recursing at each `Split`, computes `Run` |
| Evaluator.Eval | src/engine/evaluator.rs:88-101 | depth-first runs from `pc = sp = 0`; breadth-first answers `Ok(false)` |
| EvaluatorProps.PathMono | src/engine/evaluator.rs:26-84 | a path within `n` steps is one within any larger bound |
| EvaluatorProps.RunTrueHasPath | src/engine/evaluator.rs:26-84 | a run answering `true` followed a path to an accepting `Match` |
| EvaluatorProps.RunFalseNoPath | src/engine/evaluator.rs:73-81 | a run answering `false` tried both targets of every `Split`: no path of any length accepts |
| EvaluatorProps.RunAnswer | src/engine/evaluator.rs:26-84 | a finished run answers `b` exactly when `b` ⇔ some path accepts |
| EvaluatorProps.FuelMono | src/engine/evaluator.rs:26-84 | more fuel never changes a finished run's result |
| EvaluatorProps.NoEvalError | src/engine/evaluator.rs:36-62 | a program of `get_code` on a line of at most `usize::MAX` characters never gives `InvalidPC`, `PCOverFlow` or `SPOverFlow` |
| EvaluatorProps.RunOnSuffix | src/engine/evaluator.rs:26-84 | a standalone fact, used by no other proof: `sp` only moves forward, so a run from `sp` answers the same on the line with any prefix up to `sp` removed |
| Correctness.AtSplit | src/engine/codegen.rs:35-40 | a proof helper for the `*At` lemmas, about concatenated code rather than one construct: code placed at `a` as `x + y` has `x` at `a` and `y` after it |
| Correctness.QuestionAt | src/engine/codegen.rs:49-66 | the layout of `e?` read off the program |
| Correctness.StarAt | src/engine/codegen.rs:67-86 | the layout of `e*` read off the program |
| Correctness.PlusAt | src/engine/codegen.rs:88-101 | the layout of `e+` read off the program |
| Correctness.OrAt | src/engine/codegen.rs:103-144 | the layout of an alternation read off the program |
| Correctness.SeqAt | src/engine/codegen.rs:35-40 | a sequence's code is its front then its last child |
| Correctness.Forward | src/engine/codegen.rs:146-156 | an accepting path entering a construct's code at `i` leaves it at some `j` where the tree matches `s[i..j]` |
| Correctness.ForwardQuestion | src/engine/codegen.rs:49-66 | the same for `e?` |
| Correctness.ForwardStar | src/engine/codegen.rs:67-86 | the same for `e*`, through any number of loop rounds |
| Correctness.ForwardPlus | src/engine/codegen.rs:88-101 | the same for `e+` |
| Correctness.ForwardOr | src/engine/codegen.rs:103-144 | the same for an alternation |
| Correctness.ForwardSeq | src/engine/codegen.rs:35-40 | the same for a sequence |
| Correctness.Backward | src/engine/codegen.rs:146-156 | when the tree matches `s[i..j]` and an accepting path leaves its code at `j`, an accepting path enters it at `i` |
| Correctness.BackwardQuestion | src/engine/codegen.rs:49-66 | the same for `e?` |
| Correctness.BackwardStar | src/engine/codegen.rs:67-86 | the same for `e*` |
| Correctness.BackwardPlus | src/engine/codegen.rs:88-101 | the same for `e+` |
| Correctness.BackwardOr | src/engine/codegen.rs:103-144 | the same for an alternation |
| Correctness.BackwardSeq | src/engine/codegen.rs:35-40 | the same for a sequence |
| Correctness.ProgramAccepts | src/engine/codegen.rs:158-171 | the program `get_code` builds has an accepting path from the start exactly when the tree matches a prefix of the line |
| Correctness.CompiledRunAnswer | src/engine/evaluator.rs:88-101 | a finished depth-first run of a compiled program answers whether the pattern matches a prefix of the line |
| Engine.Search | src/engine.rs:75-81 | the offset loop from `i`: a successful answer is `(true, Some(suffix))` with the suffix starting at an offset from `i` before the line's end, or `(false, None)`; its only errors are the evaluator's, passed on |
| Engine.Matching | src/engine.rs:48-82 | `do_matching` as a function: it fails with `ParseFailed` exactly when the pattern does not parse; a successful answer means the pattern parsed and compiled, and is `(true, Some(suffix))` with the suffix a suffix of the line, or `(false, None)` |
| Engine.DoMatching | src/engine.rs:48-82 | parse, generate, then the offset loop, returns `Matching(expr, line)`, passing each stage's error on |
| EngineProps.SearchNotFound | src/engine.rs:75-81 | the loop ends in `(false, None)` exactly when every offset's evaluation answers `false` |
| EngineProps.SearchDecided | src/engine.rs:75-81 | otherwise the first offset not answering `false` decides: a match returns that suffix, an error is passed on |
| EngineProps.MatchingFound | src/engine.rs:48-82 | a reported suffix starts at the first offset where the pattern matches a prefix of the rest of the line |
| EngineExamples.BackwardMatchRejects | src/engine/evaluator.rs:88-93 | with `backward_match = true`, `abc?` on `abd` answers `false`; with `false`, the value the model passes, it answers `true`, as the test at main.rs:83 needs |
| EngineProps.MatchingNotFound | src/engine.rs:48-82 | `(false, None)` means the pattern matches a prefix of no suffix starting at an offset of the line |
| EngineProps.MatchingNoEvalError | src/engine.rs:75-81 | on a line of at most `usize::MAX` characters `do_matching` never fails in the evaluator |
| EngineProps.BreadthFirstFindsNothing | src/engine/evaluator.rs:94-100 | with `is_depth = false` a valid pattern never matches |
| EngineExamples.ParseErrors | src/main.rs:72-77 | `do_matching` ends in the parser's error for each malformed test pattern |
| EngineExamples.AbcOrDefMatches | src/main.rs:80-86 | the alternation of `abc` and `def` finds `def`, and not `efa` |
| EngineExamples.AbcStarMatches | src/main.rs:81 | `(abc)*` finds `abcabc` |
| EngineExamples.AbOrCdPlusMatches | src/main.rs:82-87 | one or more of the alternation of `ab` and `cd` finds `abcdcd`, and not `efa` |
| EngineExamples.AbcQuestionMatches | src/main.rs:83-88 | `abc?` finds `abd`, and not `acb` |
| EngineExamples.AiuOrEoMatches | src/main.rs:93 | the alternation of `あいう` and `えお` finds `あいう` |
| EngineExamples.WakuStarMatches | src/main.rs:94 | `(ワク)*` finds `ワクワク` |
| EngineExamples.HogeOrFugaMatches | src/main.rs:97 | the alternation of `ほげ` and `ふが` does not find `失敗` |
| EngineExamples.FuBaPlusMatches | src/main.rs:98 | one or more of the alternation of `ふー` and `ばー` does not find `ばば` |
| EngineExamples.EscapedDotMatches | src/main.rs:103 | `\.あいう` finds `.あいうえお` |
| EngineExamples.EscapedQuestionMatches | src/main.rs:104 | `\?あいう` finds `?あいうえお` |
| EngineExamples.EscapedPlusMatches | src/main.rs:105 | `\+あいう` finds `+あいうえお` |
| EngineExamples.EscapedStarMatches | src/main.rs:106 | `\*あいう` finds `*あいうえお` |
| EngineExamples.DotMatches | src/main.rs:111-115 | `あ.か` finds `あいかえお`; `い.え` does not find `あいえお` |
| EngineExamples.KaDotDotKeMatches | src/main.rs:112 | `か..け` finds `かきくけこ` |
| EngineExamples.DotADotMatches | src/main.rs:116 | `.あ.` does not find `かきくけこ` |
| EngineExamples.EmptyLineNotSearched | src/engine.rs:75-81 | on an empty line `a*` answers `(false, None)` although it matches the empty prefix |
| Findings.StarAsWritten | src/engine/codegen.rs:73-86 | `gen_star` as written, for a body of literals and `.` |
| Findings.StarAsWrittenFails | src/engine/codegen.rs:73-86 | as written, `gen_star` over such a body always fails with `FailStar` |
| Findings.AbcStarAsWritten | src/engine/codegen.rs:73-86 | as written `(abc)*` fails to compile; with the documented layout it finds `abcabc` |
| Findings.RunAsWritten | src/engine/evaluator.rs:58-62 | `eval_depth` as written, with the unchecked `Dot` step |
| Findings.DotPastEnd | src/engine/evaluator.rs:58-62 | as written `a.` is accepted on the line `a`, which it does not match; the checked step answers `false` |

## Left out

- The display and printing code is not modelled, because it only formats output: the `Display` impls, `engine::print` and the `println!` calls in `eval_depth` (evaluator.rs:42-43).
- The anchors `^` and `$` (`has_hat`, `has_doller`, engine.rs:58-73) are left out. `parse` as written returns a bare tree, so there is no parser state that could set them.
- The breadth-first evaluator does not exist in the source. `eval` answers `Ok(false)` for it (evaluator.rs:94-100), and so does the model.
- `safe_add` is modelled by its behaviour on `usize`: `Helper.SafeAdd`. `src/helper.rs` is not part of this model.
- Evaluator.Run: the depth-first machine need not terminate, for example `(a*)*` loops forever. The model therefore bounds every path by fuel, and a run that runs out ends in `OutOfFuel` instead of answering. `EvaluatorProps.FuelMono` shows that fuel never changes an answer. `Correctness.CompiledRunAnswer` and `EngineProps.MatchingFound` hold for every run that finishes.
- Engine.DoMatching: `OutOfFuel` is an extra error of the model only. `do_matching` either answers or does not return.
- Parser.Parse: a trailing lone `\` is dropped silently, because the scan simply ends in the escape state and the source has no error variant for it.
- The error `NoRightParen` carries no position, as it is declared (parser.rs:25). Only its `Display` impl formats one.
- Exponential running time of the backtracking search is not modelled. The model states results, not costs.
- Program and line lengths are unbounded integers. The checked additions are written out against `usize::MAX`. Vectors larger than memory are not modelled.

## Findings

| source | as written | input that shows it | evidently intended | confidence | as-written member | corrected member |
|---|---|---|---|---|---|---|
| src/engine/codegen.rs:73-86 | `gen_star` builds its `Split` but never pushes it and emits no `jump L1`. The patch at `split_addr` then finds the body's first instruction, so a body of literals fails with `FailStar` | `do_matching("(abc)*", "abcabc", true)` (main.rs:81) ends in `FailStar` instead of a match | the layout of its doc comment: `L1: split L2, L3; L2: e; jump L1; L3:` | high, not executed | Findings.AbcStarAsWritten | Codegen.Generator.GenStar |
| src/engine/evaluator.rs:58-62 | `Dot` advances `pc` and `sp` without checking that a character is left | the program `[Char('a'), Dot, Match]` (what the generator emits for `a.` once `.` is parsed as `Dot`) on the line `a`: the run steps past the end and reaches `Match`, so it answers `true`. The parser as written reads `.` as a literal, so `do_matching` itself reaches this only under the model's `Dot` reading | advance only when a character is left, as the comment at evaluator.rs:59 says | high, not executed | Findings.DotPastEnd | Correctness.CompiledRunAnswer |
