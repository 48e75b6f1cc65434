# Mython's runtime parser, modelled in Dafny

Mython is Python 2.7 extended with quotations. A `my` statement takes a
verbatim indented block, the MYSUITE token. A `!` expression takes bracketed
text, the MYEXPR token. This project models the runtime half of Mython's
parser and proves what it guarantees. That half has five parts:

- **Trampoline engine.** A one-token lookahead stream (`TokenStream`,
  `ExclusiveTokenStream`) and a stack of open tree nodes (`TreeBuilder`).
  Then `trampoline_parse`, which runs the parse as an explicit stack of
  suspended generators. Last, the handlers `dfa_to_handler` builds from
  pgen's accelerated DFA tables: they classify the lookahead and decode a
  packed entry into SHIFT, PUSH, accept or a syntax error.
- **Mython lexer.** `MythonTokenStream.generate_tokens` is modelled as a
  small-step machine. `Lexer.Step` resumes the generator up to its next
  `yield`. The program point `Pc` records where the generator is suspended,
  so the parser's `start_mysuite`/`start_myexpr` take effect exactly where
  the source's generator would see them. The block and expression captures
  are pure scans over the remaining lines (module `Capture`). The
  `MythonReadliner` replay is the module `Readliner`.
- **Parser glue.** The handler table `MyParser.__init__` builds. The override
  handlers `parse_start`, `parse_mysuite` and `parse_myexpr`. The entry
  points `parse_lineiter`, `parse_string` and `parse_file`, with their `env`
  defaults and their syntax-error rewriting.
- **CST utilities.** Visitor dispatch, the child-replacing transformer, and
  the conversion from the `parser` module's flat tuples.
- **AST-lowering helpers.** The tree walks, folds and tables of `astify.py`.
  They run over abstract targets: what a handler makes of a child is a
  parameter.

Tokens are `(kind, text, start, end, line)` records. Kind numbers follow
Python 2.7's `token` and `tokenize` modules, with BANG, MYEXPR and MYSUITE
allocated just past `tokenize.N_TOKENS`. Python exceptions are `Err` values
of one `Error` datatype. A generator is a state value plus a step function.

Foreign code becomes parameters, not axioms:

- the pseudo-token regular expression;
- the triple-quote end patterns;
- pgen2's `operatorMap`;
- what a visitor or transformer method returns;
- what an `astify` handler makes of a child.

Behaviours of the code that are easy to misread, which the model follows as written:

- The MYEXPR token keeps the closing delimiter (`mylexer.py:421-427`). The
  scan stops just past it.
- A MYEXPR spanning three or more lines loses its second-to-last line, as
  the `myexpr_lns[1:-2]` join does (`mylexer.py:425-427`); see "## Findings".
- `expect`'s SyntaxError formats the `token` module into the message, not the
  expected set (`trampoline.py:76`).
- `parse_myexpr` accepts `[` for `myexpr0` as well (`myparser.py:99`).
- A StopIteration that escapes a handler's body pops that generator and the
  parse goes on (Python 2 generator semantics). Any other exception ends the
  parse.

## Model

| member | source | states |
|---|---|---|
| `TokenStream.LookaheadIdempotent` | mython/trampoline.py:54-61 | A second lookahead returns the same token from the buffer and pulls nothing more from the generator. |
| `TokenStream.TokenAfterLookahead` | mython/trampoline.py:45-61 | After a lookahead, `get_token` hands out the buffered token without pulling and empties the buffer. The next `get_token` then pulls a fresh token from the generator. |
| `TokenStream.TestLookaheadSpec` | mython/trampoline.py:63-70 | `test_lookahead` is true iff the lookahead's kind or text is wanted. It fails exactly when the lookahead fails, and it leaves the stream as `get_lookahead` does, consuming nothing. |
| `TokenStream.ExpectSpec` | mython/trampoline.py:72-77 | `expect` consumes exactly one token. It returns `get_token`'s result when that token is wanted and raises a SyntaxError when it is not. A failing pull propagates. |
| `TokenStream.ExclusivePull` | mython/trampoline.py:86-90 | The token returned is the first of the list whose kind is not excluded, and the rest of the list follows it. StopIteration is raised exactly when every token is excluded. |
| `TokenStream.ExclusiveLookahead` | mython/trampoline.py:81-90 | The lookahead of an exclusive stream never has an excluded kind. |
| `TreeBuilder.Init` | mython/trampoline.py:95-97 | A new builder holds one open node, the root `start`. |
| `TreeBuilder.Push` | mython/trampoline.py:99-103 | `push` adds one empty open node on top and keeps every frame below it. |
| `TreeBuilder.PushPop` | mython/trampoline.py:108-111 | `pushpop` appends one childless node after the top's existing children and changes nothing else. |
| `TreeBuilder.Pop` | mython/trampoline.py:105-106 | Below the root, `pop` lowers the depth by one and keeps the frames below. |
| `TreeBuilder.PushShowsEmptyChild` | mython/trampoline.py:99-103 | Right after `push`, the visible tree shows the new node as an empty last child of the old top. |
| `TreeBuilder.PopKeepsTree` | mython/trampoline.py:105-106 | `pop` never changes the visible tree: a finished node stays attached where it was pushed. |
| `TreeBuilder.PushThenPop` | mython/trampoline.py:99-111 | A `push` followed by its `pop` leaves the builder exactly as one `pushpop` would. |
| `TreeBuilder.PushPopAllSpec` | mython/trampoline.py:108-111 | A run of `pushpop`s appends its leaves to the top node in order and touches no other frame. |
| `TreeBuilder.WrapLeaves` | mython/trampoline.py:99-111 | `push`, leaves, `pop`: the old top gains exactly one node holding those leaves in order, at the same depth. |
| `Trampoline.TrampolineStep` | mython/trampoline.py:115-126 | One turn of the engine. A yielded key pushes its handler's generator above the suspended one, and a missing key is a KeyError. A finished generator is popped, and so is one a StopIteration ended. Any other exception halts the parse. The stack below the top never changes. |
| `Trampoline.TrampolineParse` | mython/trampoline.py:115-126 | The `while generator_stack` loop over `TrampolineStep`, with a step bound. It has no contract of its own: its whole-run facts are `Trampoline.MoreFuelSameOutcome` (the bound only cuts a run short) and `MyParserProps.ParseBalance` (a finished run closes every node it opened). |
| `Trampoline.DfaResume` | mython/trampoline.py:157-230 | A DFA handler pushes its node on its first step and yields only nonterminal numbers, leaving the tree alone when it yields. It finishes only from its loop. On resumption after a yield it changes nothing before its next iteration. |
| `Trampoline.DfaIteration` | mython/trampoline.py:174-228 | One loop iteration keeps the depth when it goes on or raises, lowers it by one (its `pop`) when it finishes, and leaves the tree alone when it yields. |
| `Trampoline.ShiftStep` | mython/trampoline.py:174-199 | Whether the lookahead was buffered or pulled by this iteration, a SHIFT consumes it, appends it as a leaf and moves to the target state with the buffer empty. The handler stops at once exactly when that state accepts and has one arc. |
| `Trampoline.NoActionStep` | mython/trampoline.py:174-225 | Whether the lookahead was buffered or pulled, with no action for it an accepting state finishes and pops, keeping the lookahead buffered. Otherwise the handler raises "Line L, column C, unexpected 'T'." from the lookahead's start and text, or the IndexError the candidate list raised first. |
| `Trampoline.PushStep` | mython/trampoline.py:174-191 | Whether the lookahead was buffered or pulled, a PUSH entry yields nonterminal `(entry >> 8) + NT_OFFSET`, leaves the lookahead buffered, and resumes at state `entry & 127`. |
| `Trampoline.MoreFuelSameOutcome` | mython/trampoline.py:115-126 | The step bound only cuts a run short: a run of `trampoline_parse` that ends within the bound ends the same way with any larger bound. |
| `Trampoline.AddDfaHandlers` | mython/trampoline.py:149-152 | The table gains exactly the number key and the name key of every DFA and keeps all its old keys. |
| `Trampoline.PgenHandlers` | mython/trampoline.py:130-153 | Building the table is an AssertionError exactly when the grammar has no accelerators. Otherwise it is the loop over the DFAs. |
| `Trampoline.UnusedKeyKept` | mython/trampoline.py:149-152 | A key that no DFA files under keeps its handler, or stays absent. |
| `Trampoline.LastDfaWins` | mython/trampoline.py:149-152 | A key gets the handler of the last DFA filed under it. |
| `Accel.LabelMap` | mython/trampoline.py:133-137 | Every index in the label map lies inside the label list. |
| `Accel.LabelMapSpec` | mython/trampoline.py:133-137 | The map holds exactly the labels of the list. Each maps to an index holding it, and no later index holds it: the last occurrence wins. |
| `Accel.ClassifySpec` | mython/trampoline.py:142-146 | A NAME whose text is a keyword label gets that label's index. Any other token gets its `(kind, None)` label's index, or -1 when there is none. The index is always the label's last occurrence. |
| `Accel.Decode` | mython/trampoline.py:185-199 | An entry decodes to PUSH exactly when its bit 7 is set, and to SHIFT otherwise. |
| `Accel.DecodeRoundTrip` | mython/trampoline.py:185-199 | Every entry is the packing of its decoded action, so the decode loses no information. |
| `Accel.EncodeRoundTrip` | mython/trampoline.py:185-199 | Packing an action and decoding it gives the action back, for SHIFT targets and PUSH resume states below 128. |
| `Accel.Lookup` | mython/trampoline.py:174-183 | A label outside the accelerator range, or an entry of -1, means no action. Inside the range, the entry's decode is the action. An entry past the table's end is an IndexError. |
| `Accel.Candidates` | mython/trampoline.py:206-209 | The error path's candidate list holds at most one label per accelerator entry. |
| `Accel.Picked` | mython/trampoline.py:206-209 | The label indices the candidate list reads are exactly `accel_lower + i` for the entries `i` that are not -1, in increasing order. |
| `Accel.CandidatesFail` | mython/trampoline.py:206-209 | The candidate list raises IndexError exactly when an entry that is not -1 points outside `symbol_tab`, and raises nothing else. |
| `Accel.CandidatesPicked` | mython/trampoline.py:206-209 | When it succeeds, the candidate list holds `symbol_tab[accel_lower + i]` for each entry `i` that is not -1, in order, negative indices counting from the end. |
| `Accel.CandidatesSpec` | mython/trampoline.py:206-209 | Both: the list is the labels at the picked indices, and it fails exactly when one of them is outside the label list. |
| `Tokens.MakeToken` | mython/mylexer.py:147-153 | Both columns are shifted by the column offset. The kind, text, line numbers and source line are unchanged. |
| `Lexer.Init` | mython/mylexer.py:128-145 | A new lexer starts with the indentation stack `[0]`, outside brackets and continuations, with no capture pending, about to read a line. |
| `Lexer.StartMysuite` | mython/mylexer.py:155-157 | `start_mysuite` sets the suite flag and changes nothing else. |
| `Lexer.StartMyexpr` | mython/mylexer.py:159-162 | `start_myexpr` records the delimiter token's text and sets the expression flag, and changes nothing else. |
| `Lexer.ReadLine` | mython/mylexer.py:164-171 | `readline` returns the next line, or "" at end of input, and the line number goes up by one either way. |
| `Lexer.PseudoSpan` | mython/mylexer.py:325-327 | A pseudo-token match is a non-empty span of the line starting at or after the scan position. |
| `Lexer.Indentation` | mython/mylexer.py:266-276 | The leading-whitespace loop stops at the first character that is not a space, tab or form feed, and the column it computes is never negative. |
| `Lexer.StartLine` | mython/mylexer.py:182-238 | Reading a line always makes progress on the input. |
| `Lexer.BlockSuite` | mython/mylexer.py:185-238 | A block capture consumes input and leaves the indentation stack and bracket depth alone. It resumes at the line that ended the block. |
| `Lexer.ProcessLine` | mython/mylexer.py:239-323 | Processing a line reads no further line and does its work within that line. The indentation stack is unchanged unless the line pushed a deeper column. |
| `Lexer.DedentStep` | mython/mylexer.py:308-316 | Each turn of the dedent loop pops at most one indentation level and makes progress. |
| `Lexer.TokenStep` | mython/mylexer.py:326-382 | A pseudo-token either moves the scan forward within the line or, for an operator, suspends right after it with its text. The indentation stack stays as it was. |
| `Lexer.ScanStep` | mython/mylexer.py:324-442 | One turn of the token loop makes progress and keeps the indentation stack. |
| `Lexer.AfterOpStep` | mython/mylexer.py:383-432 | The resumption after an OP makes progress and keeps the indentation stack. |
| `Lexer.InlineStep` | mython/mylexer.py:383-396 | The inline-suite step makes progress and keeps the indentation stack. |
| `Lexer.ExprSuite` | mython/mylexer.py:397-432 | The MYEXPR capture makes progress and keeps the indentation stack. Its text is the source's join, `myexpr_lns[1:-2]` for the middle lines. |
| `Lexer.Step` | mython/mylexer.py:173-447 | Every resumption consumes input or moves the generator forward. It stops exactly when the generator is exhausted. |
| `Lexer.BlockStep` | mython/mylexer.py:236-264 | Resuming after a block MYSUITE makes progress and never ends the generator. |
| `Lexer.CloseStep` | mython/mylexer.py:443-447 | At end of input every resumption yields a token. |
| `Lexer.NextRaw` | mython/mylexer.py:173-447 | Each token the generator yields leaves strictly less work, so `next` always returns. |
| `Lexer.ConvertOp` | mython/mylexer.py:454-459 | Operator conversion changes at most the kind of an OP token, and leaves other tokens as they are. |
| `Lexer.SkipTrivia` | mython/mylexer.py:449-453 | `tokenize` skips NL and COMMENT tokens. It returns the generator's token when that is neither, and propagates the generator's exceptions. |
| `Lexer.Tokenize` | mython/mylexer.py:449-460 | The parser's pull is the first non-trivia token with its operator kind converted, and it fails exactly when the skip fails. |
| `LexerProps.StepKeepsIndents` | mython/mylexer.py:303-316 | The indentation stack stays strictly increasing and its bottom entry never changes. |
| `LexerProps.DeeperLinePushes` | mython/mylexer.py:303-307 | A deeper line pushes its column and yields one INDENT holding its leading whitespace. The dedent loop then has nothing to do. |
| `LexerProps.DedentRun` | mython/mylexer.py:308-316 | A shallower line whose column is on the stack yields one DEDENT per level above it, pops them all, then scans the line. |
| `LexerProps.UnknownColumnFails` | mython/mylexer.py:309-312 | A shallower column that is not on the stack is the IndentationError "unindent does not match any outer indentation level". |
| `LexerProps.ClosingRun` | mython/mylexer.py:443-447 | The closing phase yields its DEDENTs at column 0, then one ENDMARKER, and then the generator is exhausted. |
| `LexerProps.EndOfInput` | mython/mylexer.py:443-447 | At end of input outside brackets the lexer yields exactly `len(indents) - 1` DEDENTs and one ENDMARKER. |
| `LexerProps.ReadsLine` | mython/mylexer.py:182-185 | Without a pending block capture, a line-start step reads the next line and processes it. |
| `LexerProps.BlankLineNL` | mython/mylexer.py:298-302 | A blank line yields one NL from its first non-space character to its end, and leaves the indentation stack alone. |
| `LexerProps.CommentLine` | mython/mylexer.py:286-293 | A comment-only line yields its COMMENT with the line end stripped, leaves the stack alone, and keeps the rest of the line for the NL. |
| `LexerProps.PendingLineEnd` | mython/mylexer.py:294-297 | After a comment-only line's COMMENT comes one NL holding the rest of the line, and then the next line is read. |
| `LexerProps.TokenizeDropsTrivia` | mython/mylexer.py:449-460 | The parser is never handed an NL or COMMENT token. |
| `LexerProps.BlockCapture` | mython/mylexer.py:185-238 | Only blank lines before end of input is "Empty mysuite block ... runs to end of file". A non-indented first line is the `.groups` AttributeError, and an indent not past the stack top is "Improper indentation level". Otherwise the lexer yields one MYSUITE of the normalised lines, from the block's start line and indent width to the line after it at column 0. The next resumption clears the flag and processes the line that ended the block. |
| `LexerProps.InlineBlank` | mython/mylexer.py:383-386 | After a suite colon, a blank rest of line leaves the suite pending for the block capture. |
| `LexerProps.InlineCapture` | mython/mylexer.py:385-396 | After a suite colon, a non-blank rest of line yields one MYSUITE. Its text is the stripped rest, found in place in the line. It starts at the first non-space and ends at the line's end less its line break. |
| `LexerProps.InlineEmits` | mython/mylexer.py:387-395 | The inline step yields the MYSUITE at the quotation's place and resumes just after it. |
| `LexerProps.InlineResumes` | mython/mylexer.py:383-384 | A ':' at bracket depth 0 with a suite pending is followed by the inline capture. |
| `LexerProps.AfterInlineClears` | mython/mylexer.py:396 | The resumption after an inline MYSUITE clears the suite flag and scans on. |
| `LexerProps.ExprCaptureOneLine` | mython/mylexer.py:397-423 | A MYEXPR closing on its own line runs from just after the opener up to and including the closer that first brings the depth to 0. Only the opener and its partner count. The closer takes back the bracket depth the opener added. |
| `LexerProps.ExprOneLine` | mython/mylexer.py:421-430 | A MYEXPR closing on its own line is the slice of that line, from just after the opener to just past the closer. |
| `LexerProps.ExprEnds` | mython/mylexer.py:431-432 | After a MYEXPR the expression flag and the recorded delimiter are cleared and scanning goes on from the end of the capture. |
| `LexerProps.ExprStep` | mython/mylexer.py:397-399 | With an opener recorded, the resumption after any other operator is the capture, with the opener's partner from `CLOSERS`. |
| `LexerProps.ExprDiverges` | mython/mylexer.py:403-417 | An opener never balanced before end of input makes the capture loop forever. |
| `LexerProps.ExprCaptureText` | mython/mylexer.py:397-430 | The MYEXPR text runs from just after the opener to the balancing closer, the last character taken. It is that stretch of the captured lines with the second-to-last line left out, as the source's `[1:-2]` join builds it. A capture of one or two lines is the whole stretch and balances the opener. |
| `LexerProps.ExprSuiteDropsMiddleLine` | mython/mylexer.py:421-430 | Resuming the lexer after the opener of `f(` / `y` / `z)` yields the MYEXPR `"\nz)"`, although the captured lines it reports are `"f(\ny\nz)\n"`: the middle line is lost. |
| `LexerProps.ExprCaptureFrame` | mython/mylexer.py:401-428 | A capture moves the line number on by the lines it read, leaves the rest of the input, and takes back the bracket depth of a `(`, `[` or `{` opener. |
| `LexerProps.ClosersBalanceParenlev` | mython/mylexer.py:377-412 | Exactly the openers that raise the bracket depth have closers that lower it again. |
| `LexerProps.ExprKeepsParenlev` | mython/mylexer.py:376-412 | Scanning the opener, calling `start_myexpr`, and capturing leaves the bracket depth where it started. |
| `LexerProps.UnmatchedChar` | mython/mylexer.py:433-442 | A character the pseudo-token pattern does not match is one BANG of width 1 if it is '!', else one ERRORTOKEN, and the scan moves on by one. |
| `Capture.SkipBlank` | mython/mylexer.py:194-198 | The blank-line loop consumes input. It takes nothing when the current line is "" or not blank. |
| `Capture.SkipBlankLines` | mython/mylexer.py:194-198 | Every skipped line is blank and the loop stops at end of input or at a non-blank line. |
| `Capture.SkipBlankKeeps` | mython/mylexer.py:194-198 | The blank-line loop loses no line. |
| `Capture.TakeIndented` | mython/mylexer.py:205-213 | The body loop consumes at least as much input as the lines it takes. |
| `Capture.TakeIndentedLines` | mython/mylexer.py:205-213 | Every line the body loop takes starts with the indent or is blank. It stops at a line without the indent. |
| `Capture.TakeIndentedKeeps` | mython/mylexer.py:205-213 | The body loop loses no line. |
| `Capture.ScanBlock` | mython/mylexer.py:192-218 | A captured block has a non-empty indent and consumes the lines it captures. |
| `Capture.ScanBlockSpec` | mython/mylexer.py:192-213 | Leading blank lines, then a first non-blank line that sets the indent. Every line is indented or blank, and the block ends at end of input or at a non-blank line without the indent. No line is lost. |
| `Capture.ScanBlockHead` | mython/mylexer.py:194-204 | The block's first non-blank line follows only blank lines, and its leading whitespace is the indent. |
| `Capture.ScanBlockBody` | mython/mylexer.py:205-213 | Every captured line is indented or blank. The terminating line is end of input or not indented. |
| `Capture.ScanBlockKeeps` | mython/mylexer.py:192-213 | The captured lines followed by the remaining input are the input. |
| `Capture.EmptyBlockIffBlank` | mython/mylexer.py:214-218 | The "Empty mysuite block" error happens exactly when nothing but blank lines remains. |
| `Capture.NormalizeLine` | mython/mylexer.py:226-231 | A line longer than the indent loses the indent. A shorter one keeps only its `\r\n` or its last character. |
| `Capture.NormalizeAll` | mython/mylexer.py:226-231 | Every captured line is normalised, in order. |
| `Capture.NormalizeRestores` | mython/mylexer.py:226-227 | The indent followed by the normalised line gives back the line. |
| `Capture.SuiteTextRestores` | mython/mylexer.py:226-233 | A captured line longer than the indent loses exactly its first indent-width characters, which are the indent when it starts with it. A line no longer than the indent, a blank line, becomes its line ending (`\r\n` or its last character). When every line is long and indented, putting the indent back rebuilds the block. |
| `Capture.DropPenultimate` | mython/mylexer.py:425-427 | The captured lines without the second-to-last one keep the first and last lines, and are unchanged for one or two lines. |
| `Capture.AsWrittenDropsPenultimate` | mython/mylexer.py:422-427 | The source's `[1:-2]` join is the full join over the lines without the second-to-last one. For one or two lines the two joins agree. |
| `Capture.InlineSuite` | mython/mylexer.py:385-395 | There is no inline quotation exactly when the rest of the line is blank. Otherwise the quotation lies inside the line after the colon. |
| `Capture.InlineSuiteText` | mython/mylexer.py:385-395 | The inline quotation is the stripped rest of the line, found in place: only whitespace before it, and it starts at a non-space. |
| `Capture.Closer` | mython/mylexer.py:34-39 | Exactly the four openers of `CLOSERS` have a closer. |
| `Capture.ScanLine` | mython/mylexer.py:404-413 | The inner scan never moves backwards. When the depth reaches 0 it has consumed at least one character of the line. |
| `Capture.ScanLineSpec` | mython/mylexer.py:404-413 | The inner scan adds up the openers minus closers it passes. It stops the first time the depth reaches 0, just past a closer, and otherwise runs to the line's end. |
| `Capture.ScanExpr` | mython/mylexer.py:403-420 | A finished capture splits the remaining lines into those read and those left. It ends on the last line read, and within the first line when it read none. |
| `Capture.ScanExprSplit` | mython/mylexer.py:403-420 | The lines a finished capture read, followed by those it left, are the remaining input. |
| `Capture.ExprTextDropsMiddleLine` | mython/mylexer.py:422-427 | On a three-line capture the source's `lns[1:-2]` join loses the middle line, while the corrected join keeps it. |
| `Capture.ExprTextIsSubstring` | mython/mylexer.py:422-427 | The corrected MYEXPR text is exactly the joined lines' text from just after the opener to the end position. |
| `Capture.ExprBalanced` | mython/mylexer.py:403-427 | When the capture ends, its last character is the closer and the text balances the opening depth. |
| `Capture.ExprCapturedText` | mython/mylexer.py:403-427 | The corrected capture text is the stretch of the captured lines through the balancing closer, and the closer is its last character. |
| `Capture.ExprAsWrittenFrom` | mython/mylexer.py:421-427 | The source's MYEXPR text is the stretch of the captured lines, second-to-last line left out, from just after the opener to the end position. |
| `Readliner.Call` | mython/mylexer.py:54-71 | While a count is pending the wrapper returns "\n", and the stored line on the last count. With no count it keeps returning the stored line, or calls through when none is stored. A count without a stored line is an AssertionError. |
| `Readliner.FreshIsTransparent` | mython/mylexer.py:47-71 | Until a block is scanned the wrapper returns what the wrapped callable returns, exceptions included. |
| `Readliner.ReplayAfterScan` | mython/mylexer.py:54-71 | After capturing n lines, the next n calls return n - 1 newlines and then the line that ended the block. The wrapper is then transparent again. |
| `Readliner.RepeatsStoredLine` | mython/mylexer.py:65-68 | After a scan that captured nothing, every call returns the stored line again. |
| `Readliner.ScanKeepsInput` | mython/mylexer.py:73-94 | A scan loses no input: the captured lines, the stored line and what the wrapped callable still holds are the input, in order. The count is the number of captured lines. |
| `MyParser.OverrideFor` | mython/myparser.py:69-74 | Exactly `mysuite`, `myexpr0` and `myexpr1` are overridden: `mysuite` by `parse_mysuite`, the other two by `parse_myexpr`. |
| `MyParser.AddOverrides` | mython/myparser.py:69-76 | The override loop keeps every key already in the table. |
| `MyParser.NewParser` | mython/myparser.py:55-79 | Building a parser fails exactly when the grammar lacks accelerators. The start symbol defaults to `file_input`, and `start` is handled by `parse_start`. |
| `MyParser.ParseMysuite` | mython/myparser.py:84-95 | `parse_mysuite` never yields a nonterminal. |
| `MyParser.ParseMyexpr` | mython/myparser.py:97-107 | `parse_myexpr` never yields a nonterminal. |
| `MyParser.IntSetting` | mython/myparser.py:112-113 | A missing setting takes its default and an integer one is used as given. A string where arithmetic needs a number is a TypeError. |
| `MyParser.RewriteError` | mython/myparser.py:122-131 | Syntax errors, IndentationErrors included, become plain SyntaxErrors with the rewritten message. Every other exception passes through unchanged. |
| `MyParser.StartWorld` | mython/myparser.py:115-118 | The parse starts from a fresh lexer over the lines and an empty tree builder. |
| `MyParser.Finish` | mython/myparser.py:119-132 | A finished parse returns the builder's visible tree. A failure re-raises the exception with any syntax error rewritten. |
| `MyParser.WithFilename` | mython/myparser.py:137-139 | The filename is added only when the caller's `env` lacks one, and every other setting is kept. |
| `MyParserProps.OverrideKeepsOthers` | mython/myparser.py:69-76 | Keys no override DFA carries keep their handler through the override loop. |
| `MyParserProps.LastOverrideWins` | mython/myparser.py:73-76 | The last override DFA filed under a key wins it. |
| `MyParserProps.HandlersRegistered` | mython/myparser.py:67-79 | `mysuite`, `myexpr0` and `myexpr1` are handled by the overrides under both their name and their number. Every other DFA gets its own handler under its number, and `start` gets `parse_start`. |
| `MyParserProps.TableEntry` | mython/myparser.py:67-76 | After both loops, each DFA's number and name map to its override, or to its own handler. |
| `MyParserProps.StartYieldsSymbol` | mython/myparser.py:77-82 | `parse_start` yields exactly the configured start symbol, `file_input` by default, and then finishes. |
| `MyParserProps.MysuiteShape` | mython/myparser.py:84-95 | When it completes, `parse_mysuite` has switched the lexer before taking ':'. The enclosing node gains the ':' and a `mysuite` node of exactly two leaves, NEWLINE and MYSUITE in either order. The depth and the nodes below are unchanged. |
| `MyParserProps.MyexprShape` | mython/myparser.py:97-104 | The delimiter is any of `(`, `[`, `{`, `<`, and the MYEXPR is pulled after `start_myexpr` has recorded it. The enclosing node gains one `myexpr` node holding the delimiter and the MYEXPR. The depth is unchanged. |
| `MyParserProps.ResumeDepth` | mython/trampoline.py:170-228 | A handler's first step pushes its node and its last step pops it. Yields and the override handlers leave the depth alone, and an exception never lowers it. |
| `MyParserProps.SuiteDepth` | mython/myparser.py:84-95 | `parse_mysuite` leaves the tree depth as it found it, and an exception in it never lowers the depth. |
| `MyParserProps.ExprDepth` | mython/myparser.py:97-104 | `parse_myexpr` leaves the tree depth as it found it, and an exception in it never lowers the depth. |
| `MyParserProps.StepBalance` | mython/trampoline.py:115-126 | Every engine turn keeps the tree depth at least one plus the open generators. It keeps it exactly that unless a StopIteration popped an open generator. |
| `MyParserProps.ParseBalance` | mython/trampoline.py:115-126 | A whole run of `trampoline_parse`: a run that ends `Done` leaves the builder at least at its root. From a balanced start, with no generator popped by a StopIteration, it leaves exactly the root: every node opened was closed. |
| `MyParserProps.StartBalanced` | mython/myparser.py:115-120 | The parse starts balanced: a fresh builder and only `parse_start`'s generator on the stack. |
| `MyParserProps.RewriteSpec` | mython/myparser.py:127-131 | The rewritten message is `File '<name>', ` followed by the message, with the leading "L" of a "Line" message made lower case. |
| `MyParserProps.UnexpectedReported` | mython/trampoline.py:221-225 | The handler's "unexpected token" error reaches the caller as "File '<name>', line L, column C, unexpected 'T'.". |
| `MyParserProps.RewriteLine` | mython/myparser.py:127-128 | A message "Line ..." becomes "File '<name>', line ...". |
| `MyParserProps.ErrorClasses` | mython/myparser.py:122 | An IndentationError is rewritten like any SyntaxError. A TokenError is not a SyntaxError and passes through. |
| `MyParserProps.LineiterDefaults` | mython/myparser.py:110-117 | With no settings, the lexer's line counter starts at 0, columns are not shifted, and errors name "<unknown>". |
| `MyParserProps.LineiterSettings` | mython/myparser.py:112-121 | The lexer's line counter starts at `lineno - 1` and columns are shifted by `column_offset`. Errors name the file as `"%s"` formats it, and a string where a number is wanted is a TypeError. |
| `MyParserProps.EntryNames` | mython/myparser.py:134-148 | `parse_string` names the input "<string>" and `parse_file` names it by its path, unless `env` already names it. No other setting changes. |
| `MyParserProps.SplitLinesConcat` | mython/myparser.py:140-148 | The lines the iterator yields, put back together, are the input. |
| `MyParserProps.SplitLinesNonEmpty` | mython/myparser.py:140-148 | The iterator never yields an empty line, so "" means end of input to the lexer. |
| `MyParserProps.SplitLinesBreaks` | mython/myparser.py:140-148 | Every yielded line but the last ends with its only '\n', and the last has no '\n' before its end. |
| `Cst.Dispatch` | mython/cst.py:24-34 | A tuple label goes to `visit_token`. Any other goes to `visit_` plus its `symbol_names` entry, or its `str`. A missing method falls back to `generic_visit`. |
| `Cst.VisitAllAppend` | mython/cst.py:36-39 | The children are visited one after another: the calls for a run of siblings are those for each part, in order. |
| `Cst.GenericVisitsEachChild` | mython/cst.py:36-39 | `generic_visit`'s calls are each child's calls laid end to end, every child exactly once, in order. |
| `Cst.VisitSound` | mython/cst.py:24-39 | Every call a visit makes is of a method the visitor has, on a node of the tree that dispatches to that method. |
| `Cst.VisitReaches` | mython/cst.py:24-39 | A visitor with one method calls it whenever the tree holds a node that dispatches to it. |
| `Cst.Transform` | mython/cst.py:43-49 | A node without a method of its own keeps its label and ends with no more children than it had. A node with one is whatever that method returns. |
| `Cst.TransformAll` | mython/cst.py:44-49 | The new children are no more than the old. |
| `Cst.TransformAllKeepsOrder` | mython/cst.py:44-49 | The new children are exactly the non-None results, in the children's order: an increasing choice of children that skips exactly those transformed to None. |
| `Cst.NoMethodsIdentity` | mython/cst.py:43-49 | A transformer with no methods of its own gives back the tree it is given. |
| `Cst.Convert` | mython/cst.py:53-59 | Below NT_OFFSET the whole tuple becomes a leaf label. Above it, the number labels a node with one converted child per element after it. |
| `Cst.ConvertAll` | mython/cst.py:58 | Each element is converted, in order. |
| `Cst.ConvertLeaves` | mython/cst.py:53-59 | The converted tree's leaves are the original terminals, left to right. |
| `Cst.ConvertKeepsSymbol` | mython/cst.py:53-59 | Every nonterminal of the flat tuple is a node with that number in the converted tree. |
| `Cst.PassStmtReached` | mython/tests/test_cst.py:34-41 | A parser tuple holding a `pass_stmt`, once converted, reaches `visit_pass_stmt` of a visitor built on the symbol names. |
| `Astify.GetTokens` | mython/lang/python/astify.py:103-116 | The explicit-stack walk yields exactly the token leaves in left-to-right order, and only the token itself for a token node. |
| `Astify.LocationIsFirstToken` | mython/lang/python/astify.py:97-101 | When every nonterminal on the first-child path has a child, the location is the start of the first token `_get_tokens` yields. Otherwise it is an IndexError. |
| `Astify.FlattenOnce` | mython/lang/python/astify.py:57-64 | The loop splices each list in one level deep and keeps every other element in order. |
| `Astify.FlattenLength` | mython/lang/python/astify.py:57-64 | The output's length is the lists' lengths plus the number of other elements. |
| `Astify.FlattenMembers` | mython/lang/python/astify.py:57-64 | A value is in the output exactly when it is a non-list element or inside one of the lists. |
| `Astify.LeftBinop` | mython/lang/python/astify.py:66-82 | One child passes through. An odd number of three or more is folded to the left. An even number of four or more leaves out the last result. None or two children index past the end. |
| `Astify.FoldLeftShape` | mython/lang/python/astify.py:66-82 | The fold leans left. It keeps the operands (the even-numbered results) and the operators (the odd-numbered ones) in order. |
| `Astify.NestElifs` | mython/lang/python/astify.py:784-789 | The reversed loop nests each elif as the sole `orelse` of the previous one, with the else suite innermost. |
| `Astify.IfStmt` | mython/lang/python/astify.py:765-791 | The call succeeds exactly on a well-formed `if_stmt`: at least four children, full `elif` groups whose tests have a location, then nothing or a full `else` group. An `elif` group cut short, an `else` without its suite, or fewer than four children is an IndexError. A child after the groups that is neither `elif` nor `else` is an AssertionError. No other exception is raised. A result is the `if` test and body with the elif chain and the else suite as its `orelse`. |
| `Astify.Location` | mython/lang/python/astify.py:97-101 | `_get_location` fails only with an IndexError. |
| `Astify.ChainNesting` | mython/lang/python/astify.py:784-789 | Following the sole `If` of each `orelse` k times reaches elif clause k, and after the last clause the else suite. |
| `Astify.AugOpRoundTrip` | mython/lang/python/astify.py:375-389 | Each operator's augmented spelling maps to it. Only those twelve spellings map at all, and any other is a KeyError. |
| `Astify.AugOpInjective` | mython/lang/python/astify.py:375-389 | Two spellings that map to the same operator are the same spelling. |
| `Astify.CompOpTable` | mython/lang/python/astify.py:426-444 | `is not` and `not in` are the two-token operators. Every one-token operator's spelling maps back to it, `<>` is a second spelling of `!=`, and nothing else is accepted alone. |
| `Astify.TakePositionals` | mython/lang/python/astify.py:171-179 | The first loop takes positionals up to and including the first keyword argument: everything it took is positional except, when it saw a keyword, that last argument. No positional follows a keyword. |
| `Astify.TakeKeywords` | mython/lang/python/astify.py:180-187 | The second loop takes keyword arguments and flags a positional after a keyword exactly when the run has one. |
| `Astify.CollectArgs` | mython/lang/python/astify.py:171-187 | The two loops flag exactly a positional after a keyword. Otherwise they return the run's positionals and keywords, in order. |
| `Astify.Arglist` | mython/lang/python/astify.py:161-199 | "non-keyword arg after keyword arg" is raised exactly when a positional follows a keyword. Otherwise the result holds the positionals and keywords in order, the `*` argument is the child after a `*` token, and the `**` argument is the child after a `**` token just past the optional `*` group. IndexError arises exactly when such a `*` or `**` token is the last child. |

## Left out

- Grammar composition (`pgen_compose`) and DFA and accelerator construction are not part of this model. The grammar `(dfas, labels, start, accel)` is an input value.
- MyParserProps.HandlersRegistered: assumes every DFA's number and name are distinct (`DistinctDfas`), as pgen's output gives. The composition that guarantees it is not part of this model.
- MyParserProps.TableEntry: makes the same distinctness assumption as `HandlersRegistered`.
- The pseudo-token regular expression, the triple-quote end patterns and pgen2's `operatorMap` are foreign. They are parameters of `Lexer.Recogniser`.
- Multi-line strings (the `contstr` branch, and a single-quoted string continued with a backslash) end in an `Unmodelled` error, because their continuation depends on the foreign `endprogs` patterns.
- TokenStream.ShowToken renders `str(token)` only approximately. Callers only rely on the "Got " prefix.
- Whitespace is ASCII: `\s`, `str.isspace` and `str.strip` are modelled on ASCII characters only.
- Cst.Transform: the source replaces a node's children in place (`children[:] = ...`), so every alias of the node sees the change. The model returns a new tree value and does not model aliasing.
- TreeBuilder.Pop: popping the root never happens in a parse, and there the model leaves the builder unchanged.
- Trampoline.TrampolineParse: takes a step bound (`fuel`) and reports `OutOfFuel` when it runs out. Parses longer than the bound are not modelled.
- MyParser.ParseLineiter: passes the same step bound to the engine.
- An unbalanced MYEXPR at end of input makes the source loop forever. The model returns `Diverges` instead.
- MyParser.IntSetting: a string `lineno` or `column_offset` is reported as a TypeError when the setting is read, not later inside the lexer.
- `env=None` is modelled as an empty `env`.
- The `__DEBUG__` and `__debug__` branches print and re-raise. They are not modelled.
- `scan_mython_file`, `scan_python_file` and `mytokenize` are lexer drivers for debugging and are not modelled.
- The bodies of a visitor's own `visit_*` methods are out of scope. A visitor is its set of method names, and what a transformer's methods return is a parameter.
- Cst.Convert requires every leaf number below NT_OFFSET (`WellNumbered`), which the `parser` module's tuples satisfy (`Cst.ParserTupleWellNumbered`).
- Astify.LocationIsFirstToken: a flat tuple kept as a leaf label (`Raw`) has no position, and the model reports an IndexError for it.
- Astify.IfStmt: `elif` and `else` are recognised only on token children. The source would index into the label string of a nonterminal child and find no keyword either.
- Python `ast` nodes are small datatypes. Their line and column attributes and expression contexts are not modelled, so `Astify.LeftBinop` does not compute locations.
- `mybuiltins.py`, `myast.py`, the version-specific `astify36/37/38` lowerings, `mython/lang/python/__init__.py`, `setup.py` and the entry points are not part of this model.
- Tab stops use Python 2's integer division, the version the system runs on. Python 3's float division is not modelled.

## Findings

| source | as written | input that shows it | evidently intended | confidence | as-written member | corrected member |
|---|---|---|---|---|---|---|
| mython/mylexer.py:425-427 | A MYEXPR spanning several lines joins the first line's tail, `myexpr_lns[1:-2]` and the last line's head, so the second-to-last line is dropped. | The lines `"f(\n"`, `"y\n"`, `"z)\n"` with the opener at column 1: the token is `"\nz)"`. | Every middle line is kept (`myexpr_lns[1:-1]`), giving `"\ny\nz)"`, the text between opener and closer. | not executed | `LexerProps.ExprSuiteDropsMiddleLine` | `Capture.ExprCapturedText` |
