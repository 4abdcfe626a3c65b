# tacparser in Dafny

A model of the core of tacparser, a packrat PEG toolkit written in Python,
with proofs about it. tacparser reads a grammar in its own ExPeg language,
checks that grammar, and generates a Python parser class from it. A
generated parser runs on a shared combinator engine over a text reader and
builds a parse tree. A small tree query language (the "AST actions")
then selects nodes of that tree and calls actions on them.

The model follows the package file by file.

- `Reading` (reader.dfy) models `tacparser/reader.py` as a class `Reader`.
  Its fields are the cursor, the high-water mark, the end limit and the line
  index. Each method is proved to match a specification function.
- `Nodes` (nodes.dfy) models the node classes of `tacparser/node.py`, the
  ones `tacparser/astactions.py` imports. Nodes are values: a closed
  datatype of non-terminal, terminal, failure and reconstructed nodes, with
  `get_str`, the child and descendant queries, and attributes as a map. The
  trees a parser builds are made of the node classes of
  `tacparser/baseparser.py` instead. Those have no attributes, and only
  their reconstructed node has neighbour links. `ParserNodes`
  (parser_nodes.dfy) states the query steps on such trees.
- `Trees` (trees.dfy) holds the free tree functions of
  `tacparser/baseparser.py`: `complete_tree` as parent paths, the two
  traversals, and `reconstruct_tree`.
- `Legacy` (legacy.dfy) holds the skiplist `reconstruct_tree` of
  `app/baseparser.py`.
- `Engine` (engine.dfy) gives the combinators of `tacparser/baseparser.py`
  as a specification. A parsing expression is a datatype, and `Eval` runs
  it against the reader state and the memo. Fuel is spent once per rule
  call and once per repetition round.
- `Parsing` (parser.dfy) is the parser object: a class with the reader,
  memo, node counter and rule table. It has one method per combinator and
  per driver, each proved equal to `Eval` or to the functions of `Driver`.
- `Driver` (driver.dfy) states `_parse`, `sub_parse`, `parse_string` and
  `parse_file` as functions. `DriverFacts` and `EngineFacts` relate several
  evaluations.
- `Grammars`, `ExPegGrammar` and `ActionsGrammar` (grammars.dfy, expeg.dfy,
  actions_grammar.dfy) carry the two bootstrap grammars of
  `tacparser/expegparser.py` and `tacparser/actionsparser.py`. Each is a
  rule table for the engine, one constant per `p_` method.
- `Checker` and `CheckerRun` (checker.dfy, checker_run.dfy) model the
  grammar checker of `tacparser/parsergenerator.py`: specification functions,
  then the `ParserChecker` class whose loops are proved against them.
  `CheckerExamples` holds two concrete grammars on which the check goes wrong.
- `Generator`, `GeneratorFacts`, `GeneratorShapes` and `GeneratorWalk`
  (generator*.dfy) model the code-generation helpers of
  `tacparser/parsergenerator.py`.
- `Conditions`, `Axes`, `Builders` and `Selection` (conditions.dfy,
  axes.dfy, builders.dfy, selection.dfy) model the tree query language of
  `tacparser/astactions.py`: filters, axes, the builders that turn a selector
  tree into steps, and the action loop.
- `Text` and `Patterns` (text.dfy, patterns.dfy) hold helpers: Python's
  string operations and a small regular-expression datatype.

The regular-expression engine is replaced by `Patterns.Match`. This is a
deterministic prefix matcher: alternatives are tried in order and a star is
greedy. It agrees with `re.match` on the patterns of the two bootstrap
grammars. The reader answers a regular expression with that prefix.

## Model

| member | source | states |
|---|---|---|
| Text.Lower | tacparser/reader.py:56 | `str.lower` keeps the length and lower-cases each character on its own (ASCII letters only). |
| Text.SortStrings | tacparser/parsergenerator.py:294 | `sorted(options)` returns the options in ascending order and is a permutation of them. |
| Text.SortedUnique | tacparser/parsergenerator.py:294 | Sorting has one answer: two sorted lists with the same elements are equal. |
| Text.ParseInt | tacparser/astactions.py:333 | `int(s)` on the texts the actions grammar produces: it answers exactly on numerals (an optional minus and digits), and a negative answer comes from a leading minus. |
| Text.ParseIntToString | tacparser/astactions.py:333 | `int(str(k)) == k` for every integer k. |
| Reading.SplitLinesConcat | tacparser/reader.py:128 | The lines of `splitlines(True)` concatenate back to the text, and none is empty. |
| Reading.LineEndsShape | tacparser/reader.py:126-130 | The line index is increasing and positive, empty only for the empty text, and ends at the text's length. |
| Reading.ScanFinds | tacparser/reader.py:132-146 | The scan over the line index finds the line holding the position, or at the end of the text gives the number of lines and the trailing column, or raises IndexError. |
| Reading.LineColumnMeaning | tacparser/reader.py:108-146 | Inside the text: a 1-based line, a column counted from that line's start, and the character. At the end: (0, 0, "") for empty text, else the line count and the last line's length. Past the end: IndexError. |
| Reading.LiteralMatchIff | tacparser/reader.py:48-62 | A literal matches iff a positive end limit leaves room and the next characters equal it (after lower-casing under `nocase`). The answer is the literal, or the source text under `nocase`. |
| Reading.LiteralLimitOff | tacparser/reader.py:49 | An end limit of 0 or below does not restrict literals. |
| Reading.RegexpSeesWindow | tacparser/reader.py:82-85 | A regular expression's match is the text from the cursor on, and under a limit it never reads past the limit. |
| Reading.Reader.constructor | tacparser/reader.py:11-26 | A new reader starts at 0 with high-water mark 0, no end limit and no line index. |
| Reading.Reader.MatchLiteral | tacparser/reader.py:28-62 | Answers `LiteralMatch`. It advances by the literal's length only on success with `flg`, and raises the high-water mark to the new cursor. A failure moves nothing. |
| Reading.Reader.MatchRegexp | tacparser/reader.py:64-93 | Answers `RegexpMatch`. It advances by the match only with `flg`; any success updates the high-water mark. A failure moves nothing. |
| Reading.Reader.GetMaxPosition | tacparser/reader.py:95-106 | The high-water mark becomes the larger of itself and the cursor, and is returned. |
| Reading.Reader.Pos2LineColumn | tacparser/reader.py:108-146 | Builds the line index on first use, then answers `LineColumnAt`. |
| Reading.Reader.GetMaxLineColumn | tacparser/reader.py:148-161 | The line and column of the high-water mark. |
| Reading.Reader.GetPosition | tacparser/reader.py:163-172 | Returns the cursor. |
| Reading.Reader.SetPosition | tacparser/reader.py:174-186 | ValueError when `n` exceeds the length, leaving the state unchanged. Otherwise the cursor is exactly `n` and the high-water mark is raised to it. |
| Reading.Reader.PartialReposition | tacparser/reader.py:188-207 | ValueError on a start past the length, with nothing changed. An end past the length raises after the cursor moved. Otherwise cursor and high-water mark are the start and the end limit is set. |
| Reading.Reader.IsEnd | tacparser/reader.py:209-221 | True iff the cursor is at least the text length; the end limit is ignored. |
| Nodes.GetStrIsLeafText | tacparser/node.py:119-125 | Without a dictionary, a parser-built tree's text is its leaves' texts read left to right. |
| Nodes.GetStr | tacparser/node.py:105-125 | `get_str` of a tree the parser built, with no reconstructed node in it, always answers: only a reconstructed node with an empty `termstr` raises. |
| Nodes.GetStrs | tacparser/node.py:122-125 | Joining the texts of parser-built nodes always answers. |
| Nodes.DictionaryReplaces | tacparser/node.py:119-120 | A non-terminal whose type is a dictionary key yields the mapped string, without descending. |
| Nodes.TerminalIgnoresDictionary | tacparser/node.py:217-218 | Terminal and failure nodes return `termstr` whatever the dictionary. |
| Nodes.ReconstructedText | tacparser/node.py:321-340 | With no entry for its type, a reconstructed node's text is its `termstr`, and an empty `termstr` raises ParseException. |
| Nodes.GetChildNode | tacparser/node.py:165-179 | Defined on non-terminals; the result holds exactly the children of the type. |
| Nodes.FilterTypeAppend | tacparser/node.py:179 | The child query distributes over concatenation, so it keeps the children's order. |
| Nodes.SearchSound | tacparser/node.py:181-206 | Every node `search_node` finds is a non-terminal of the type, reachable from the start through non-terminals. |
| Nodes.SearchNode | tacparser/node.py:181-206 | `search_node` is defined exactly on non-terminals; terminals have no such method. |
| Nodes.DeepSearchComplete | tacparser/node.py:198-206 | A deep search finds every reachable non-terminal of the type. |
| Nodes.ShallowSearchStops | tacparser/node.py:200-203 | A shallow search from a node of the type answers that node alone. |
| Nodes.SetThenGet | tacparser/node.py:54-67 | After `set_attr(k, v)`, `get_attr(k)` is `v`; other names, the type and the children are unchanged. |
| Nodes.SetAttr | tacparser/node.py:63-67 | `set_attr(k, v)` leaves the attributes with `k` mapped to `v` and every other name as it was. |
| Nodes.ReconstructedFrom | tacparser/node.py:293-319 | A reconstructed node copies type, span and node number, starts with no children, no links and an empty `termstr`, and takes the original's attributes. |
| Nodes.KindFlags | tacparser/node.py:87-91 | A failure node is terminal; terminal means not a non-terminal; a reconstructed node is neither terminal nor failure. |
| Trees.ReplaceAt | tacparser/baseparser.py:209-220 | The splice `sub_parse` performs puts the new node at the old node's path. A path not in the tree changes nothing. The root keeps its type. |
| Trees.ReplaceElsewhere | tacparser/baseparser.py:209-220 | The splice leaves every node that is neither above nor below the replaced one as it was. |
| Trees.ParentAt | tacparser/baseparser.py:1606-1618 | The parent `complete_tree` gives a node at a non-empty path is the node one step up, and the node is that parent's child at the last index. |
| Trees.SearchPathsAgree | tacparser/node.py:181-206 | The paths of the nodes `search_node` finds lead to exactly the nodes it lists, in the same order. |
| Trees.TraversalsVisitSameNodes | tacparser/baseparser.py:1568-1603 | `preorder_travel` and `postorder_travel` visit the same nodes equally often. Preorder starts at the root and postorder ends there. |
| Trees.DeepSearchIsPreorder | tacparser/node.py:181-206 | A deep `search_node` lists exactly the non-terminals of the type in preorder. Skipping terminal children loses nothing. |
| Trees.Rebuild | tacparser/baseparser.py:1508-1545 | `reconstructnode` yields loose reconstructed nodes. A listed non-terminal becomes one node of its type and span, with `termstr` = its `get_str(replace_dict)`. |
| Trees.RebuildKeepsListedTypes | tacparser/baseparser.py:1508-1545 | Rebuilding keeps exactly the non-terminals whose type is listed, in document order, and drops terminals. |
| Trees.ReconstructTree | tacparser/baseparser.py:1547-1565 | Corrected `reconstruct_tree`: the new root has the old root's type. Every level below it has neighbour flags matching the siblings. An unlisted root's `termstr` is its type. A terminal root keeps nothing. |
| Trees.ReconstructTreeAsWritten | tacparser/baseparser.py:1547-1565 | `reconstruct_tree` as written: under an unlisted root the new root has the old root's type, and child i gets a left neighbour only when i >= 2 and a right neighbour only when 1 <= i < n-1. |
| Trees.SameRebuildOtherwise | tacparser/baseparser.py:1547-1565 | The as-written and corrected `reconstruct_tree` succeed together. They differ only under an unlisted root, in its children's flags. |
| Trees.RootLinksAsWrittenMissing | tacparser/baseparser.py:1557-1562 | As written, with an unlisted root over two kept siblings, the first gets no right neighbour and the second no left one. |
| Legacy.Rebuild | app/baseparser.py:178-198 | A skipped non-terminal vanishes. A terminal is kept as it is. A listed non-terminal gives one copy of its own type. |
| Legacy.ReconstructTree | app/baseparser.py:200-212 | A skipped root fails (`children` of None). A failure root keeps nothing. A terminal root is returned as is. Otherwise the result has the root's type. |
| Legacy.RebuildKeepsTerminals | app/baseparser.py:178-198 | The rebuilt nodes of a subtree hold exactly its terminals outside skipped subtrees, in order. |
| Legacy.RebuildKeepsListedTypes | app/baseparser.py:178-198 | The rebuilt nodes of a subtree are exactly its listed non-terminals outside skipped subtrees, in document order. |
| Legacy.ReconstructKeepsTerminals | app/baseparser.py:169-212 | The reconstructed tree holds exactly the terminals outside skipped subtrees. |
| Engine.Eval | tacparser/baseparser.py:279-874 | Every combinator leaves a valid state and well-placed nodes. It never lowers the high-water mark, drops a memo entry or lowers the node counter. A failure yields no nodes and leaves the cursor where it was. |
| Engine.EvalLit | tacparser/baseparser.py:618-667 | `_l` succeeds exactly when the reader's literal match does. It then advances by the literal's length and yields one terminal holding the text read, spanning that stretch. The memo and the counter are untouched. |
| Engine.EvalReg | tacparser/baseparser.py:669-713 | `_r` succeeds exactly when the reader's pattern match does. It then yields one terminal whose text is the input it consumed. |
| Engine.EvalRegHit | tacparser/baseparser.py:703-711 | A pattern match of `m` advances the cursor by the length of `m` and yields exactly one terminal of `m`. |
| Engine.EvalSeq | tacparser/baseparser.py:315-325 | `_seq` keeps the nodes gathered before each element as a prefix of its answer. A failure yields no nodes and resets the cursor to the sequence's start. (The answer itself is `Combinators.SeqRun`.) |
| Engine.EvalSel | tacparser/baseparser.py:364-372 | `_sel` fails only with the cursor back at the choice's start, with no nodes. (The answer itself is `Combinators.SelRun`.) |
| Engine.EvalRpt | tacparser/baseparser.py:420-437 | `_rpt` fails only when fewer than `min` rounds succeeded, and always succeeds once `min` rounds have. Earlier rounds' nodes stay a prefix of the answer. (The answer itself is `Combinators.RptRun`.) |
| Engine.EvalOpt | tacparser/baseparser.py:476-477 | `_opt` never fails. It finishes exactly when its operand does, and passes the operand's nodes and final state through. |
| Engine.EvalAnd | tacparser/baseparser.py:481-520 | `_and` finishes exactly when its operand does, with the operand's outcome. It consumes nothing and yields no nodes. |
| Engine.EvalNot | tacparser/baseparser.py:522-563 | `_not` finishes exactly when its operand does, with the negated outcome. It consumes nothing and yields no nodes. |
| Engine.EvalSkip | tacparser/baseparser.py:758-791 | `_skip` has its operand's outcome and final state, and yields no nodes. |
| Engine.EvalTrm | tacparser/baseparser.py:601-614 | `_trm` finishes exactly when the macro body does, with its outcome and state. A success yields one terminal whose text is the body's nodes' `get_str` texts joined, spanning from the first node's start to the last node's end, or nothing when that text is empty. |
| Engine.EvalCall | tacparser/baseparser.py:825-874 | After `_p`, the memo holds its outcome under the type name and start position. A success is one non-terminal of that type spanning from the start to the new cursor. |
| Engine.EvalEof | tacparser/baseparser.py:793-823 | `_eof` succeeds exactly at the end of the whole text, whatever the end limit. It changes nothing and yields no nodes. |
| Combinators.SeqRun | tacparser/baseparser.py:315-325 | Given the run of the elements from the cursor: when every element succeeds, `_seq` succeeds with their nodes concatenated and the last state; at the first failing element it fails with no nodes and the cursor reset; a halting element halts it. |
| Combinators.SeqRunExists | tacparser/baseparser.py:315-325 | From every state the elements of a `_seq` succeed up to some point and no further, so `SeqRun` always applies. |
| Combinators.SelRun | tacparser/baseparser.py:364-372 | Given the failing alternatives tried from the cursor: the first one that succeeds gives `_sel`'s nodes and state; when all fail, `_sel` fails with the cursor at the start; a halting alternative halts it. |
| Combinators.SelRunExists | tacparser/baseparser.py:364-372 | From every state the alternatives of a `_sel` fail up to some point and no further, so `SelRun` always applies. |
| Combinators.RptRun | tacparser/baseparser.py:420-437 | Given k successful rounds: at k = max `_rpt` succeeds with their nodes concatenated; at the first round that fails it succeeds when k >= min and fails, back at the start, otherwise; a halting round halts it; a loop still going when the fuel is spent is `LoopOutOfFuel`. |
| Combinators.RptRunExists | tacparser/baseparser.py:420-437 | From every state the rounds of a `_rpt` go on until the maximum, the fuel or a round that does not succeed, so `RptRun` always applies. |
| Combinators.RptAfterRounds | tacparser/baseparser.py:420-437 | Replaying k successful rounds brings the repetition loop to round k with their nodes gathered and the state they left. |
| Combinators.RptStep | tacparser/baseparser.py:424-431 | One successful round below the maximum appends its nodes and moves to the next round with one unit less fuel. |
| EngineFacts.CallReplays | tacparser/baseparser.py:848-853 | A `_p` call repeated at the same position gives the same outcome, nodes and final state, with no fuel spent. |
| EngineFacts.RptNeverEnds | tacparser/baseparser.py:420-437 | `_rpt` without a maximum, over an element that never fails, never ends whatever `min` is (`LoopOutOfFuel`): its loop has no progress check. |
| EngineFacts.AStarMatches | tests/testmodules/recursion.py:28-32 | `A <- r"A*"` matches at every position, with the empty match included. |
| EngineFacts.CallANeverFails | tests/testmodules/recursion.py:28-32 | A call of `A` never fails while the memo holds no failure for `A`, and it keeps that so. |
| EngineFacts.ALoopNeverEnds | tests/testmodules/recursion.py:24-26 | `ALoop <- A*` never ends (`LoopOutOfFuel`), whatever the text and the fuel. |
| EngineFacts.RecursionNeverEnds | tests/testmodules/recursion.py:18-22 | The root rule of the recursion fixture never ends on any text: its `A*` loop spins at constant depth (`LoopOutOfFuel`). Only with no fuel at all does the nesting run out. |
| EngineFacts.RecursionParseFileSpins | tests/test_recursion.py:15-21 | As written, `parse_file` on the recursion parser gives no answer, whatever the file holds: the repetition never ends and raises no RecursionError. |
| EngineFacts.RecursionParseFileGuardedFails | tests/test_recursion.py:15-21 | With endless repetition answered like a RecursionError, `parse_file` on the recursion parser answers `(False, None)`, as the test expects. |
| Driver.ParseSpec | tacparser/baseparser.py:224-270 | `_parse` accepts exactly when the body succeeds and, if an end is required, the high-water mark sits exactly there. An accepted parse is a root non-terminal of the type, numbered 0, spanning what was read. Anything else is a failure node from 0 to the high-water mark whose message names that position, and whose flag is still the body's own outcome. It halts exactly when the body does. |
| Driver.Initialize | tacparser/baseparser.py:53-62 | `__initialize` writes every backed-up `p_` rule over the table and leaves every other rule as it was. |
| Driver.SubParseLoop | tacparser/baseparser.py:201-220 | The `sub_parse` loop keeps the rule table. It records one result per remaining node, after the earlier results. Its flag is true only if every node parsed. |
| Driver.SubParseSpec | tacparser/baseparser.py:177-222 | `sub_parse` restores the backed-up rules and swaps the `p_` rule for the `s_` rule; a missing `s_` rule is an AttributeError. It needs a searchable tree and answers one result per node that `search_node` finds. |
| Driver.SubParseLoopFixed | tacparser/baseparser.py:201-220 | The loop with each node parsed by a fresh parser has the same shape guarantees as the loop as written. |
| Driver.FixedLoopParsesEachAlone | tacparser/baseparser.py:201-220 | Under the fixed loop, the results are exactly the trees of the nodes, each parsed alone under its own end limit. |
| Driver.SubParseSpecFixed | tacparser/baseparser.py:177-222 | The fixed `sub_parse` swaps the same rules. It answers, in order, the trees each found node gets when parsed alone. |
| Driver.SubParseAll | tacparser/baseparser.py:130-137 | The sub-parses keep the main parse's flag and leave a valid state. |
| Driver.ParseStringSpec | tacparser/baseparser.py:143-175 | `parse_string` with a rule the parser lacks is the AttributeError. A finished session had a finished main parse, and its flag is that parse's flag. |
| Driver.ParseFileSpec | tacparser/baseparser.py:75-141 | `parse_file` with a type name missing from `def_dict` is the KeyError. The uncaught RecursionError escapes only from a sub-parse, after the main parse finished. An answer without a tree is a failure. |
| Driver.ParseFileGuardedSpec | tacparser/baseparser.py:117-121 | The guarded `parse_file` never loops forever, and otherwise halts exactly as `parse_file` does. |
| FuelFacts.EvalMono | tacparser/baseparser.py:279-874 | An evaluation that does not run out of fuel gives the same answer, memo and state included, with any larger fuel: the fuel bounds the run and does not change it. |
| FuelFacts.SeqMono | tacparser/baseparser.py:315-325 | The same for the rest of a `_seq`. |
| FuelFacts.SelMono | tacparser/baseparser.py:364-372 | The same for the remaining choices of a `_sel`. |
| FuelFacts.RptMono | tacparser/baseparser.py:420-437 | The same for the remaining rounds of a `_rpt`, each of which spends one unit of fuel. |
| FuelFacts.TrmMono | tacparser/baseparser.py:601-614 | The same for a `_trm` macro call. |
| FuelFacts.CallMono | tacparser/baseparser.py:825-874 | The same for a `_p` rule call on a memo miss. |
| FuelFacts.ParseMono | tacparser/baseparser.py:224-270 | `_parse` that does not run out of fuel answers the same with more fuel. |
| FuelFacts.SubParseLoopMono | tacparser/baseparser.py:201-220 | The same for the `sub_parse` loop, node by node. |
| FuelFacts.SubParseMono | tacparser/baseparser.py:177-222 | The same for a whole `sub_parse`. |
| FuelFacts.SubParseAllMono | tacparser/baseparser.py:130-137 | The same for the sub-parses of every sub-definition type in turn. |
| FuelFacts.ParseStringMono | tacparser/baseparser.py:143-175 | `parse_string` that does not run out of fuel answers the same with more fuel. |
| FuelFacts.ParseFileMono | tacparser/baseparser.py:75-141 | A `parse_file` answer with a tree, or a halt other than running out of fuel, is the same with any larger fuel. Only `(False, None)` and the two fuel halts depend on the fuel. |
| DriverFacts.ParseStringRaisesAfterFailure | tacparser/baseparser.py:170-173 | When the main parse fails and a sub-definition type follows, `parse_string` as written ends in the TypeError of searching a failure node. The corrected driver answers the failure. |
| DriverFacts.ParseStringFixedAgrees | tacparser/baseparser.py:143-175 | The corrected `parse_string` differs from the one as written only after a failed main parse. |
| DriverFacts.ParseStringFixedMatchesParseFile | tacparser/baseparser.py:123-137 | When the named rule is the type's root definition, the corrected `parse_string` answers as `parse_file` does. |
| DriverFacts.ParseStringRaisesOnEmptyText | tacparser/baseparser.py:170-173 | A concrete parser whose root rule fails on the empty text: as written it raises, and corrected it answers. |
| DriverFacts.SubParseMemoLeaks | tacparser/baseparser.py:193-220 | As written, `sub_parse` over two `S` nodes of "ab" fails on the second. A failure memoized under the first node's end limit answers for the second node. |
| DriverFacts.SubParseFixedSucceeds | tacparser/baseparser.py:193-220 | With a fresh memo per node, both `S` nodes of "ab" re-parse successfully. |
| DriverFacts.FirstNodeRecordsFailure | tacparser/baseparser.py:848-874 | Parsing the first node under the limit 1 memoizes a failure of `X` at position 1. |
| DriverFacts.SecondNodeFailsOnMemo | tacparser/baseparser.py:848-853 | That memo entry answers when the second node is parsed under the limit 2, so `S` fails. |
| DriverFacts.SecondNodeAloneSucceeds | tacparser/baseparser.py:224-270 | Parsed alone, the second node succeeds. |
| Parsing.Parser.constructor | tacparser/baseparser.py:18-51 | A new parser holds the generated class's tables, an empty memo, the counter at 0, no result and no tree. |
| Parsing.Parser.SpanOf | tacparser/node.py:38-46 | A node's position records the line and column of both ends, as the reader's `pos2linecolumn` gives them. |
| Parsing.Parser.Run | tacparser/baseparser.py:279-874 | Running a combinator on the parser object has exactly the outcome and final state `Engine.Eval` gives. |
| Parsing.Parser.RunLit | tacparser/baseparser.py:618-667 | `_l` on the object agrees with `Engine.EvalLit`. |
| Parsing.Parser.RunReg | tacparser/baseparser.py:669-713 | `_r` on the object agrees with `Engine.EvalReg`. |
| Parsing.Parser.RunSeq | tacparser/baseparser.py:279-327 | The `_seq` loop agrees with `Engine.EvalSeq`. |
| Parsing.Parser.RunSel | tacparser/baseparser.py:329-374 | The `_sel` loop agrees with `Engine.EvalSel`. |
| Parsing.Parser.RunRpt | tacparser/baseparser.py:376-439 | The `_rpt` loop agrees with `Engine.EvalRpt`. |
| Parsing.Parser.RunOpt | tacparser/baseparser.py:442-479 | `_opt` agrees with `Engine.EvalOpt`. |
| Parsing.Parser.RunAnd | tacparser/baseparser.py:481-520 | `_and` agrees with `Engine.EvalAnd`. |
| Parsing.Parser.RunNot | tacparser/baseparser.py:522-563 | `_not` agrees with `Engine.EvalNot`. |
| Parsing.Parser.RunSkip | tacparser/baseparser.py:758-791 | `_skip` agrees with `Engine.EvalSkip`. |
| Parsing.Parser.RunTrm | tacparser/baseparser.py:565-616 | `_trm` agrees with `Engine.EvalTrm`. |
| Parsing.Parser.JoinTexts | tacparser/baseparser.py:606-614 | The loop joining the node texts gives the concatenation of their `get_str` texts, and nothing when one of them is unset. |
| Parsing.Parser.RunCall | tacparser/baseparser.py:825-874 | `_p` through `_create_non_terminal` agrees with `Engine.EvalCall`. |
| Parsing.Parser.Recall | tacparser/baseparser.py:848-853 | A memo hit answers the cached entry. On a success the cursor moves to the cached node's end. |
| Parsing.Parser.Record | tacparser/baseparser.py:864-874 | Once the body has run, a success is wrapped in a numbered node and the counter goes up. The outcome is memoized either way. |
| Parsing.Parser.RunEof | tacparser/baseparser.py:793-823 | `_eof` agrees with `Engine.EvalEof`. |
| Parsing.Parser.Parse | tacparser/baseparser.py:224-270 | `_parse` on the object agrees with `Driver.ParseSpec`. |
| Parsing.Parser.Finish | tacparser/baseparser.py:256-270 | The end of `_parse` accepts or builds the failure node as `Driver.ParseOutcome` decides. |
| Parsing.Parser.SubParse | tacparser/baseparser.py:177-222 | `sub_parse` on the object agrees with `Driver.SubParseSpec`. Before any parse there is no tree, and searching it is the AttributeError `NoTree`. |
| Parsing.Parser.SubParseNodes | tacparser/baseparser.py:201-220 | The loop over the found nodes agrees with `Driver.SubParseLoop`. |
| Parsing.Parser.SubParseRound | tacparser/baseparser.py:203-220 | One round repositions the reader, parses the node with its end required and splices the result in, as one step of `Driver.SubParseLoop`. |
| Parsing.Parser.ParseNode | tacparser/baseparser.py:203-205 | `partial_reposition` to the node and then `_parse` with the node's end agree with `Driver.ParseSpec` under that limit. A node outside the text raises. |
| Parsing.Parser.ParseString | tacparser/baseparser.py:143-175 | `parse_string` on the object agrees with `Driver.ParseStringSpec`. The reader is new and holds the text. |
| Parsing.Parser.Begin | tacparser/baseparser.py:53-62 | `__initialize` plus a new reader: an empty memo, the counter at 0 and the `p_` rules restored. |
| Parsing.Parser.SubParseEach | tacparser/baseparser.py:130-137 | The sub-parse loop agrees with `Driver.SubParseAll`. |
| Parsing.Parser.ParseFile | tacparser/baseparser.py:75-141 | `parse_file` on the file's text agrees with `Driver.ParseFileSpec`: a RecursionError of the main parse is answered `(False, None)`, and an endless repetition is no answer. |
| Parsing.LoopHalts | tacparser/baseparser.py:201-220 | A round of the loop that raises ends the whole loop with that error. |
| Parsing.CallAfterBody | tacparser/baseparser.py:855-874 | Without a memo entry, `_p` is the body's outcome, wrapped and memoized. |
| Grammars.Names | tacparser/expegparser.py:98-760 | The names of a table are exactly the method names of its entries. |
| Grammars.RulesOfKeys | tacparser/expegparser.py:98-760 | The parser object's rule attributes are exactly the names the table defines. |
| Grammars.RulesOfEntry | tacparser/expegparser.py:98-760 | Every attribute is bound to the expression of an entry with that name. |
| Grammars.ClosedRules | tacparser/expegparser.py:98-760 | A table whose every entry calls only its own names gives a parser object whose rules call only its own rules. |
| Grammars.NeverMissing | tacparser/baseparser.py:715-756 | Over a closed rule table, an expression calling only defined rules never raises the AttributeError of a missing method, whatever the text, state and fuel. |
| Grammars.ParseNeverMissing | tacparser/baseparser.py:224-270 | `_parse` with a body calling only rules of a closed table never stops on a missing method. |
| ExPegGrammar.TableIsClosed | tacparser/expegparser.py:98-760 | Every rule the grammar-language parser calls through `_p` or `_trm` is one of its own `p_` methods. |
| ExPegGrammar.TopCallsDefined | tacparser/expegparser.py:98-112 | The top rule `ExPeg` calls only methods of the table. |
| ExPegGrammar.ParseNeverMissing | tacparser/expegparser.py:98-112 | Parsing any text with `ExPeg` over its own rules never raises the AttributeError of a missing method. |
| ExPegGrammar.EndOfLineBound | tacparser/expegparser.py:756-760 | The table binds `p_endofline` to the end-of-line pattern. |
| ExPegGrammar.NumberRegex | tacparser/expegparser.py:611-618 | A number in the grammar language matches exactly when the text starts with a digit from 1 to 9, so zero is not a number. |
| ExPegGrammar.EndOfLineRejects | tacparser/expegparser.py:756-760 | The end-of-line pattern fails unless the text starts with a carriage return or a line feed. |
| ExPegGrammar.LitMisses | tacparser/baseparser.py:635-667 | A literal whose first character differs from the next input character fails without moving. |
| ExPegGrammar.SpaceRejectsTab | tacparser/expegparser.py:749-754 | As written, `Space` fails on a tab and records the failure of `EndOfLine`. |
| ExPegGrammar.SpaceAcceptsBackslashT | tacparser/expegparser.py:752 | As written, `Space` accepts the two characters backslash and `t` as one white-space step. |
| ExPegGrammar.SpaceFixedAcceptsTab | tacparser/expegparser.py:750 | The corrected `Space`, with a real tab, accepts a tab as one character of white space. |
| ActionsGrammar.TableIsClosed | tacparser/actionsparser.py:116-851 | Every rule the actions parser calls is one of its own `p_` methods. |
| ActionsGrammar.TopCallsDefined | tacparser/actionsparser.py:116-128 | The top rule `Actions` calls only methods of the table. |
| ActionsGrammar.ParseNeverMissing | tacparser/actionsparser.py:116-128 | Parsing any text with `Actions` over its own rules never raises the AttributeError of a missing method. |
| ActionsGrammar.PositiveNumberRegex | tacparser/actionsparser.py:391-397 | A count or index matches exactly when the text starts with a digit. A leading `0` is a whole number of one digit. |
| ActionsGrammar.AttributeNameRegex | tacparser/actionsparser.py:506-510 | An attribute name matches exactly when the text starts with a lower-case letter or underscore. It then spans the longest such run. |
| ActionsGrammar.SAcceptsTab | tacparser/actionsparser.py:677-687 | The actions white-space rule accepts a tab: its pattern `\t` is the tab character. |
| Checker.CheckTree | tacparser/parsergenerator.py:317-335 | `check_tree` raises ParseException exactly on a failure node. It passes exactly when neither check reports anything, and a failed check carries at least one message. When the definition checks are clean, every message is a left-recursion report. |
| Checker.Abstract | tacparser/parsergenerator.py:444-531 | Literal contents abstract to "always consumes" exactly when they are non-empty. A `?`, `*`, `!` or look-ahead `&` node abstracts to something that may consume nothing. An identifier has no abstraction exactly when it is `_EOF`. |
| Checker.DuplicatesSpec | tacparser/parsergenerator.py:351-357 | No duplicate is reported exactly when the lower-cased names are new and pairwise different. |
| Checker.UndefinedSpec | tacparser/parsergenerator.py:360-369 | No undefined identifier is reported exactly when every use, lower-cased, names a defined rule. |
| Checker.UndefinedAllSpec | tacparser/parsergenerator.py:360-369 | Over all the definitions, no undefined identifier is reported exactly when every identifier used is declared. |
| Checker.CheckDefinition | tacparser/parsergenerator.py:338-374 | `check_definition` reports the non-ExPeg root. On an ExPeg tree it reports nothing exactly when the declared names are distinct in lower case and none is `_eof`, and every identifier used is declared or `_eof`. |
| Checker.IndexOf | tacparser/parsergenerator.py:617 | `list.index` gives the first position holding the element. |
| Checker.Children | tacparser/parsergenerator.py:352 | A `get_childnode` result that the check indexes with `[0]` is never empty; an empty one is the IndexError. |
| Checker.EvalListZero | tacparser/parsergenerator.py:543-553 | A list evaluates to 0 exactly when every element evaluates and none is above 0. Otherwise an evaluated list is 1. |
| Checker.EvalTupleSpec | tacparser/parsergenerator.py:555-566 | A tuple evaluates exactly when all its alternatives do. It is 0 exactly when one of them is 0. |
| Checker.NameFreeEvaluates | tacparser/parsergenerator.py:533-572 | An abstraction that mentions no rule name always evaluates. |
| Checker.AssignRemovesChecked | tacparser/parsergenerator.py:574-591 | `assignment_checked_value` removes exactly the resolved names from an abstraction. |
| Checker.SearchFindsMention | tacparser/parsergenerator.py:619-634 | `search_unresolve_call` answers a name the abstraction mentions. It answers None only when the abstraction mentions none. |
| Checker.UnresolvedHasCall | tacparser/parsergenerator.py:602-610 | An abstraction that does not evaluate always has a call to follow, so the "Unexpected Error" branch of the loop search is never taken. |
| Checker.ResolvedSpec | tacparser/parsergenerator.py:401-405 | After the first loop of a round, a name is resolved exactly when it was already resolved or its definition evaluates. |
| Checker.UncheckedSpec | tacparser/parsergenerator.py:408-410 | The second loop keeps exactly the entries whose name is not resolved. |
| Checker.Substituted | tacparser/parsergenerator.py:413-415 | The third loop substitutes the resolved values into every remaining definition and keeps the names. |
| Checker.RoundClears | tacparser/parsergenerator.py:401-415 | After a round, no remaining definition is resolved and none mentions a resolved name. |
| Checker.RoundShrinks | tacparser/parsergenerator.py:398-415 | A round that resolves something makes the dictionary smaller. |
| Checker.Settle | tacparser/parsergenerator.py:397-419 | The inner loop never grows the dictionary. When the first round resolves something, it ends strictly smaller. |
| Checker.SmallestIsLeast | tacparser/parsergenerator.py:600 | `sorted(keys)[0]` is a key that no other key precedes. |
| Checker.WalkStartsInKeys | tacparser/parsergenerator.py:602-612 | The loop search's path begins with a name of the dictionary. |
| Checker.FindLoopIsCycle | tacparser/parsergenerator.py:593-617 | `find_left_recursive_loop_list` answers a cycle of leftmost calls through the unresolved definitions. |
| Checker.ForcedShrinksNext | tacparser/parsergenerator.py:430-432 | Forcing the first rule of a found loop to 1 keeps the size and makes the next round resolve something. |
| Checker.OnlyLoopReports | tacparser/parsergenerator.py:396-440 | The outer loop only adds loop reports. The "Can't found Left Recurcive" branch cannot be taken. |
| Checker.LoopReportsOnly | tacparser/parsergenerator.py:396-440 | Every message of the outer loop, from its start, is a left-recursion report. |
| Checker.LeftRecursionFrom | tacparser/parsergenerator.py:376-442 | `check_left_recursion` reports only left-recursive loops, in either reading and from any dictionaries. |
| CheckerRun.ParserChecker.constructor | tacparser/parsergenerator.py:309-315 | A new checker has both dictionaries empty and the reading it was given: both flags false is the code as written. |
| CheckerRun.ParserChecker.ResolveAll | tacparser/parsergenerator.py:401-405 | The first loop records every definition that evaluates, as `Checker.Resolved`. It answers whether it changed anything and leaves `check_def_dic` as it was. |
| CheckerRun.ParserChecker.RemoveChecked | tacparser/parsergenerator.py:408-410 | The deletion loop leaves `check_def_dic` as `Checker.Unchecked`, with the remaining entries in order. |
| CheckerRun.ParserChecker.SubstituteAll | tacparser/parsergenerator.py:413-415 | The substitution loop leaves `check_def_dic` as `Checker.Substituted`. |
| CheckerRun.ParserChecker.SettleAll | tacparser/parsergenerator.py:397-419 | The `while chg_chk` loop leaves both dictionaries as `Checker.Settle` gives them. |
| CheckerRun.ParserChecker.FindLoop | tacparser/parsergenerator.py:593-617 | The loop search on the object answers `Checker.FindLoopSpec`. |
| CheckerRun.ParserChecker.Register | tacparser/parsergenerator.py:386-393 | The registration loop stores each definition's abstraction under its name, as `Checker.Registered` in the checker's reading, or raises what it raises. |
| CheckerRun.ParserChecker.CheckLeftRecursion | tacparser/parsergenerator.py:376-442 | `check_left_recursion` on the object answers `Checker.LeftRecursionFrom` in the checker's reading, as written or corrected. |
| CheckerRun.ParserChecker.CheckTree | tacparser/parsergenerator.py:317-335 | `check_tree` on a fresh checker answers `Checker.CheckTree` in the checker's reading; it raises ParseException exactly on a failure node. |
| CheckerExamples.OperatorBranches | tacparser/parsergenerator.py:470-499 | Selection gives a tuple and QuestionSuffix an optional. The `&` prefix is treated as optional only with the corrected type name; as written it falls to the generic branch. |
| CheckerExamples.PlainLiteral | tacparser/parsergenerator.py:451-457 | A non-empty literal abstracts to "always consumes". |
| CheckerExamples.IdentifierName | tacparser/parsergenerator.py:463-468 | An identifier other than `_EOF` abstracts to its own name. |
| CheckerExamples.SequenceNode | tacparser/parsergenerator.py:475-478 | A MultiSequence abstracts to the list of its children's abstractions. |
| CheckerExamples.SelectionNode | tacparser/parsergenerator.py:470-473 | A Selection abstracts to the tuple of its children's abstractions. |
| CheckerExamples.QuestionNode | tacparser/parsergenerator.py:494-499 | A `?` node over one abstraction may consume as it does, or nothing. |
| CheckerExamples.WrapperKeeps | tacparser/parsergenerator.py:523-531 | A node of any other type with one child carries that child's abstraction. |
| CheckerExamples.AndPrefixNode | tacparser/parsergenerator.py:480-485 | An `&` node over "always consumes" abstracts to "always consumes" as written, and to an optional when corrected. |
| CheckerExamples.GrammarDefinitionsAsWritten | tacparser/parsergenerator.py:386 | As written, the left-recursion check sees only the Definition children of the root, so it misses the root rule. |
| CheckerExamples.GrammarDefinitions | tacparser/parsergenerator.py:350 | `search_node("Definition")` finds the root rule and then the others, as `check_definition` uses them. |
| CheckerExamples.DefinitionsClean | tacparser/parsergenerator.py:338-374 | `check_definition` reports nothing when no name repeats and every use is declared. |
| CheckerExamples.RootMissingRaises | tacparser/parsergenerator.py:602-605 | With only `B <- Root? 'b'` registered, the loop search looks up `Root` and raises KeyError. |
| CheckerExamples.RootThenBResolve | tacparser/parsergenerator.py:396-442 | With the root rule registered first, Root resolves, then B, and nothing is reported. |
| CheckerExamples.RootCalledDefinitionsSound | tacparser/parsergenerator.py:338-374 | The grammar whose second rule calls the root rule passes `check_definition`. |
| CheckerExamples.RootCalledRaisesKeyError | tacparser/parsergenerator.py:384-431 | As written, `check_left_recursion` on that grammar raises KeyError, although it has no left recursion. |
| CheckerExamples.RootCalledRaises | tacparser/parsergenerator.py:317-335 | As written, `check_tree` on that grammar raises instead of passing. |
| CheckerExamples.RootCalledNoLoop | tacparser/parsergenerator.py:376-442 | With every definition registered, no loop is reported. |
| CheckerExamples.RootCalledPasses | tacparser/parsergenerator.py:317-335 | With every definition registered, `check_tree` passes. |
| CheckerExamples.LookaheadDefinitionsSound | tacparser/parsergenerator.py:338-374 | `Start <- A`, `A <- &'x' A` passes `check_definition`. |
| CheckerExamples.LookaheadResolvesAsWritten | tacparser/parsergenerator.py:480-485 | As written, `A <- &'x' A` resolves at once to "always consumes". |
| CheckerExamples.LookaheadMissed | tacparser/parsergenerator.py:376-442 | As written, no left recursion is reported for that grammar. |
| CheckerExamples.LookaheadPasses | tacparser/parsergenerator.py:317-335 | As written, the left-recursive grammar passes `check_tree`. |
| CheckerExamples.LookaheadFirstSettle | tacparser/parsergenerator.py:397-419 | Corrected, the first settle resolves nothing: Start waits on A, and A on itself. |
| CheckerExamples.LookaheadLoop | tacparser/parsergenerator.py:593-617 | The loop search starts at A, the smaller name, and finds A calling itself. |
| CheckerExamples.LookaheadSecondSettle | tacparser/parsergenerator.py:397-419 | After A is forced to 1, A and then Start resolve. |
| CheckerExamples.LookaheadFound | tacparser/parsergenerator.py:376-442 | Corrected, the check reports exactly `A->A`. |
| CheckerExamples.LookaheadRejected | tacparser/parsergenerator.py:317-335 | Corrected, `check_tree` fails with exactly that report. |
| Generator.EscapeReadsBack | tacparser/parsergenerator.py:223 | Doubling backslashes and then escaping the quote can be undone: Python reads the escaped body back to exactly the original text, whatever quotes and backslashes it holds. |
| Generator.QuotedContents | tacparser/parsergenerator.py:220-228 | Quoting a literal fails exactly when `search_node` finds no contents node, with the IndexError, or that node has no text. |
| Generator.LiteralValue | tacparser/parsergenerator.py:215-234 | `get_literal_value` fails only with the IndexError of an empty search or the error of a text that is not set. |
| Generator.RegValue | tacparser/parsergenerator.py:273-301 | `get_reg_value` fails only with the IndexError of an empty search or the error of a text that is not set. |
| Generator.PresentFlags | tacparser/parsergenerator.py:292 | The comprehension picks the flag of exactly those dictionary keys that occur in the option string. |
| Generator.RegOptions | tacparser/parsergenerator.py:287-295 | The options part is empty exactly when `m` turns multi-line off and no other flag letter is named. |
| Generator.RepeatRangeBelow | tacparser/parsergenerator.py:170-182 | The bounds search the walk uses, as written, raises the bare Exception exactly when there is not one RepeatCnt and not one MinRepeat together with one MaxRepeat below the node. |
| Generator.RepeatRange | tacparser/parsergenerator.py:170-185 | The corrected bounds, from the repeat's own braces, fail only with the bare Exception or an unset text. |
| Generator.Travel | tacparser/parsergenerator.py:88-213 | `travel_generate_file` on a terminal makes no text and leaves the state as it was. |
| Generator.DefString | tacparser/parsergenerator.py:236-271 | `get_defstring` on a definition with neither a DefinitionExpression nor a MacroExpression raises the IndexError. |
| GeneratorFacts.QuotedReads | tacparser/parsergenerator.py:223 | A literal written as quote, escaped body and quote reads back in Python to the body. |
| GeneratorFacts.QuotedContentsReads | tacparser/parsergenerator.py:220-228 | The literal `QuotedContents` builds reads back to the text of the first contents node found. |
| GeneratorFacts.LiteralReadsBack | tacparser/parsergenerator.py:215-234 | On a single- or double-quoted literal, the generated Python literal reads back to exactly the literal's contents text. |
| GeneratorFacts.PatternReadsBack | tacparser/parsergenerator.py:278-281 | The pattern literal is `u` and a single-quoted literal that reads back to the pattern's contents text. |
| GeneratorFacts.WithDefaultHas | tacparser/parsergenerator.py:289-290 | After the default is added, a flag letter other than `m` is present exactly when it is passed: named in the options, or M with no `m`. |
| GeneratorFacts.PresentFlagsSorted | tacparser/parsergenerator.py:292-294 | Flags picked in the order of increasing keys come out strictly sorted, hence pairwise distinct. |
| GeneratorFacts.FlagsSameElements | tacparser/parsergenerator.py:291-292 | Picking the flags in dictionary order or in name order gives the same multiset of flags. |
| GeneratorFacts.SortedFlags | tacparser/parsergenerator.py:292-294 | `sorted` of the flags picked in dictionary order is the list picked in name order. |
| GeneratorFacts.FlagsPassed | tacparser/parsergenerator.py:288-292 | A flag is passed exactly when its letter is one of M, X, A, I, S named in the options, or it is M and `m` is absent. |
| GeneratorFacts.RegOptionsSpec | tacparser/parsergenerator.py:287-295 | The options part is ", " and the passed flags, each once, sorted by name and joined with " \| ". It is empty when no flag is passed. |
| GeneratorFacts.RegOptionsDefault | tests/test_parserGenerator.py:28-32 | With no option letters the result is ", regex.M". |
| GeneratorFacts.RegOptionsNoMultiline | tests/test_parserGenerator.py:34-38 | With `m`, `X` and `A` the result is ", regex.A \| regex.X": `m` turns multi-line matching off. |
| GeneratorFacts.RegOptionsAddsMultiline | tests/test_parserGenerator.py:40-44 | With `X` and `A` the result is ", regex.A \| regex.M \| regex.X". |
| GeneratorFacts.RegOptionsAllFlags | tests/test_parserGenerator.py:46-56 | With `X`, `A`, `I` and `S`, repeated or not, every flag appears once, in name order. |
| GeneratorShapes.SilentTravel | tacparser/parsergenerator.py:213 | A subtree of marks, spacing and counts makes no text and leaves the generator's state as it was. |
| GeneratorShapes.WrappedCall | tacparser/parsergenerator.py:146-168 | A prefix or suffix node becomes the branch's call around its operand's text, with the operand walked ten columns further in. |
| GeneratorShapes.StarBranch | tacparser/parsergenerator.py:162-164 | `X*` becomes `self._rpt(X, 0)`. |
| GeneratorShapes.PlusBranch | tacparser/parsergenerator.py:166-168 | `X+` becomes `self._rpt(X, 1)`. |
| GeneratorShapes.OptionalBranch | tacparser/parsergenerator.py:158-160 | `X?` becomes `self._opt(X)`. |
| GeneratorShapes.LookaheadBranches | tacparser/parsergenerator.py:146-152 | `&X` becomes `self._and(X)` and `!X` becomes `self._not(X)`. |
| GeneratorShapes.SkipBranch | tacparser/parsergenerator.py:154-156 | `>>X` becomes `self._skip(X)`. |
| GeneratorShapes.CountBounds | tacparser/parsergenerator.py:176-178 | `{k}` gives the bounds "k,k". |
| GeneratorShapes.RangeBounds | tacparser/parsergenerator.py:179-180 | `{lo,hi}` gives the bounds "lo,hi". |
| GeneratorShapes.OwnRepeatRange | tacparser/parsergenerator.py:170-185 | The corrected reading takes the bounds from the repeat's own braces. |
| GeneratorShapes.RepeatRangeIgnoresBody | tacparser/parsergenerator.py:170-185 | In the corrected reading the bounds do not depend on the repeated expression. |
| GeneratorShapes.BoundsFromBraces | tacparser/parsergenerator.py:172-182 | When the repeated expression holds no bounds, the search as written reads them from the braces alone. |
| GeneratorShapes.AsWrittenAgreesUnnested | tacparser/parsergenerator.py:170-185 | When the repeated expression holds no bounds, the code as written and the corrected reading give the same bounds. |
| GeneratorShapes.RepeatCall | tacparser/parsergenerator.py:170-185 | When X holds no bounds of its own, `X{k}` becomes `self._rpt(X, k,k)` and `X{lo,hi}` becomes `self._rpt(X, lo,hi)`. |
| GeneratorShapes.NestedRangeTakesInnerCount | tacparser/parsergenerator.py:172-178 | As written, `(a{k}){lo,hi}` gets the bounds "k,k" of the inner repeat. The corrected reading gives "lo,hi". |
| GeneratorShapes.NestedCountRaises | tacparser/parsergenerator.py:172-182 | As written, `(a{k}){m}` raises the bare Exception, since two RepeatCnt nodes are found. The corrected reading gives "m,m". |
| GeneratorShapes.IdentifierCalls | tacparser/parsergenerator.py:191-197 | A rule reference becomes `self._p(self.p_<lower-cased name>, "<name>")`. A name starting with `_` calls the built-in method of that lower-cased name. Spacing is dropped. |
| GeneratorShapes.MacroCalls | tacparser/parsergenerator.py:199-203 | A macro reference becomes `self._trm(self.t_<lower-cased name>)`. |
| GeneratorShapes.LitIsLiteral | tacparser/parsergenerator.py:205 | Only the Literal node type takes the literal branch. |
| GeneratorShapes.LiteralLeaf | tacparser/parsergenerator.py:205-211 | A literal becomes `self._l(<value>)`, with `, nocase=True` exactly when a LiteralOption is found below it. |
| GeneratorShapes.NoCaseLiteralCall | tacparser/parsergenerator.py:205-211 | `'s':I` becomes `self._l('s', nocase=True)`, with `s` escaped. |
| GeneratorShapes.LiteralCall | tacparser/parsergenerator.py:205-209 | `'s'` becomes `self._l('s')`, with `s` escaped. |
| GeneratorWalk.TravelGrows | tacparser/parsergenerator.py:88-213 | The walk never removes a recorded definition name, sub-definition name or compiled pattern. |
| GeneratorWalk.DefinitionRecorded | tacparser/parsergenerator.py:105-122 | A Definition appends its name to the definition list, and a SubDefinition appends its base name last to the sub-definition list. |
| GeneratorWalk.RegexDefsCompileAll | tacparser/parsergenerator.py:253-261 | The pattern loop records every pattern it is given in the pattern table. |
| GeneratorWalk.PatternBranch | tacparser/parsergenerator.py:187 | Exactly the RegularExp node takes the pattern branch. |
| GeneratorWalk.TravelFindsPatterns | tacparser/parsergenerator.py:187-189 | Once every pattern below a node is in the table, the walk's lookup never raises KeyError. |
| GeneratorWalk.DefStringFindsPatterns | tacparser/parsergenerator.py:236-271 | `get_defstring` compiles every pattern found in the definition before it walks the body, so it never raises KeyError, whatever table it starts from. |
| Conditions.PrefixPath | tacparser/astactions.py:265-266 | Every prefix of a path in the tree is in the tree, so every parent the walk reaches exists. |
| Conditions.FilterTypePathsKeeps | tacparser/astactions.py:207-208 | The axes' type test keeps exactly the paths whose node has the type. |
| Conditions.FilterTypePathsNodes | tacparser/astactions.py:279-280 | Filtering paths by type picks the same nodes, in order, as filtering the nodes by type. |
| Conditions.SliceNumIsSlice | tacparser/astactions.py:310-316 | `slice_num(k, L)` picks what `L[k:k+1]` picks, and `L[-1:]` for k = -1. It holds at most one node. |
| Conditions.LineColumnFilterKeeps | tacparser/astactions.py:353-382 | A line or column limit keeps exactly the nodes whose `linenum`, `column`, `end_linenum` or `end_column` compares with the bound as the limit says. |
| Conditions.LineColumnFilterAppend | tacparser/astactions.py:382 | A line or column limit keeps the order: filtering a concatenation filters each part. |
| Conditions.AttributeFilter | tacparser/astactions.py:404-427 | An attribute test raises exactly when some node lacks an attribute that a string test must read. Otherwise it keeps exactly the nodes that pass the test. |
| Conditions.NegationSplits | tacparser/astactions.py:405-424 | A test and its negation raise on the same lists. Otherwise each node passes exactly one of them. |
| Conditions.GroupSpec | tacparser/astactions.py:189-191 | One bracket group applies each alternative to the same list and concatenates the outputs. The result holds only paths of the tree. |
| Conditions.ConditionsSpec | tacparser/astactions.py:187-197 | The groups apply left to right, each to the previous group's output. The result holds only paths of the tree. |
| Conditions.ConditionsSticky | tacparser/astactions.py:188-195 | Once a group raises, the whole condition raises the same error. |
| Conditions.ApplyGroup | tacparser/astactions.py:189-191 | The alternatives loop computes the group's specification. |
| Conditions.ApplyCondition | tacparser/astactions.py:184-197 | `_apply_condition`'s loops compute the groups' specification. |
| Conditions.ConditionsCompose | tacparser/astactions.py:188-195 | Applying two lists of groups in turn is applying their concatenation. |
| Conditions.GroupKeepsDuplicates | tacparser/astactions.py:194 | The de-duplication result is discarded: a group naming one condition twice lists its nodes twice. |
| Axes.LeftOf | tacparser/astactions.py:206 | `left_neighbor` points to the sibling just before. |
| Axes.RightOf | tacparser/astactions.py:220 | `right_neighbor` points to the sibling just after. |
| Axes.AncestorChainPrefixes | tacparser/astactions.py:265-266 | The ancestor walk visits the parent, its parent and so on up to the root, nearest first. |
| Axes.DescendantsAreSearch | tacparser/astactions.py:253-255 | A descendant step finds the nodes `search_node` finds, in its order. |
| Axes.DescendantPaths | tacparser/astactions.py:253-255 | A descendant step leads only to paths of the tree, each a node of the type. |
| Axes.LeftLinkIff | tacparser/astactions.py:205 | Under the links `reconstruct_tree` sets, a node has a left neighbour exactly when it is not the first child. |
| Axes.RightLinkIff | tacparser/astactions.py:219 | Under the links `reconstruct_tree` sets, a node has a right neighbour exactly when it is not the last child. |
| Axes.LeftChainSiblings | tacparser/astactions.py:205-208 | In a reconstructed tree the left walk visits all the earlier siblings, nearest first. |
| Axes.RightChainSiblings | tacparser/astactions.py:219-222 | In a reconstructed tree the right walk visits all the later siblings, nearest first. |
| Axes.ChildrenAreChildNodes | tacparser/astactions.py:276-281 | A child step finds what `get_childnode` lists: the children of the type, in order. |
| Axes.NeighbourIsNearest | tacparser/astactions.py:230-245 | `-` and `+` look only at the nearest neighbour, the first entry of what `--` and `++` walk along. |
| Axes.ParentIsNearestAncestor | tacparser/astactions.py:288-292 | `<` looks only at the parent, the first entry of what `<<` walks along. |
| Axes.StepSpec | tacparser/astactions.py:199-294 | Every step finds only paths of the tree. |
| Axes.Found | tacparser/astactions.py:199-294 | Every axis leads only to paths of the tree whose node has the step's type. |
| Axes.LeftWalk | tacparser/astactions.py:202-208 | `otl`'s loop collects the left neighbours of the type, nearest first. |
| Axes.RightWalk | tacparser/astactions.py:216-222 | `otr`'s loop collects the right neighbours of the type, nearest first. |
| Axes.AncestorWalk | tacparser/astactions.py:262-268 | `act`'s loop collects the ancestors of the type, nearest first. |
| Axes.ChildrenWalk | tacparser/astactions.py:276-280 | `cld`'s loop collects the children of the type, in order. |
| Axes.RunStep | tacparser/astactions.py:199-294 | Each selector function `otl` … `prt`, applied to one node, computes the step's specification. |
| ParserNodes.ApplyOneOnParserNodes | tacparser/astactions.py:404-427 | On the parser's node classes an attribute test raises exactly when it is given a node, the AttributeError of the missing `get_attr`. Every other condition runs as on node.py's nodes. |
| ParserNodes.GroupAgrees | tacparser/astactions.py:189-191 | A `[..|..]` group with no attribute test gives the same answer on the parser's node classes as on node.py's. |
| ParserNodes.ConditionsAgree | tacparser/astactions.py:187-197 | Conditions with no attribute test give the same answer on the parser's node classes as on node.py's. |
| ParserNodes.GroupOfNothing | tacparser/astactions.py:189-191 | A group applied to no nodes gives no nodes. |
| ParserNodes.ConditionsOfNothing | tacparser/astactions.py:187-197 | Conditions applied to no nodes give no nodes. |
| ParserNodes.AttributeTestRaises | tacparser/astactions.py:404-427 | On the parser's node classes an attribute test on a non-empty list raises AttributeError. On node.py's nodes the same test answers when it calls no string method. |
| ParserNodes.LeftChainOnParserTree | tacparser/astactions.py:202-208 | `otl`'s walk raises AttributeError at the first node that is not a ReconstructedNode. If it answers, it answers the walk along node.py's links. |
| ParserNodes.RightChainOnParserTree | tacparser/astactions.py:216-222 | `otr`'s walk raises AttributeError at the first node that is not a ReconstructedNode. If it answers, it answers the walk along node.py's links. |
| ParserNodes.FoundOnParserTree | tacparser/astactions.py:199-294 | An axis on the parser's node classes either raises or finds what it finds on node.py's nodes. |
| ParserNodes.StepOnParserTree | tacparser/astactions.py:199-294 | A step on the parser's node classes finds only paths of the tree when it answers. |
| ParserNodes.NeighbourStepRaises | tacparser/astactions.py:199-245 | On a node that is not a ReconstructedNode, `--`, `++`, `-` and `+` raise AttributeError, naming the link they read, where `Axes.StepSpec` finds nothing. |
| ParserNodes.LeftChainAnswers | tacparser/astactions.py:202-208 | On a tree of ReconstructedNodes the left walk never raises, and it finds the node.py walk. |
| ParserNodes.RightChainAnswers | tacparser/astactions.py:216-222 | On a tree of ReconstructedNodes the right walk never raises, and it finds the node.py walk. |
| ParserNodes.StepAgrees | tacparser/astactions.py:199-294 | On a tree of ReconstructedNodes, and with no attribute test, a step on the parser's node classes finds what `Axes.StepSpec` finds. |
| Builders.BuildAll | tacparser/astactions.py:432-456 | A build loop that succeeds builds each element in order. One that raises raises with the error of one of the elements. |
| Builders.BuildAllOk | tacparser/astactions.py:432-456 | When every element builds, the loop returns what each one built, in order. |
| Builders.BuildAllSticky | tacparser/astactions.py:432-456 | Once a prefix of the loop raises, the whole loop raises the same error. |
| Builders.AxisOf | tacparser/astactions.py:134-156 | The dispatch picks the axis whose node type it is. It raises exactly when no axis has that type. |
| Builders.AxisOfName | tacparser/astactions.py:134-149 | Every axis is reached by the dispatch on its own node type. |
| Builders.FieldOfName | tacparser/astactions.py:353-364 | A LineOrColumn child selects the field of its type and raises exactly on any other type. |
| Builders.CmpOfName | tacparser/astactions.py:367-380 | A limitation type selects its comparison and raises exactly on any other type. |
| Builders.TestOfName | tacparser/astactions.py:405-426 | An attribute type selects its test, with the grammar's own spelling, and raises exactly on any other type. |
| Builders.EvalLiteral | tacparser/astactions.py:400 | `eval` on the texts the actions grammar produces: a quoted literal with a plain body gives that body, and any other text raises. |
| Builders.StepOf | tacparser/astactions.py:132-156 | A step's axis is the one of its node type. An unknown type raises ActionException. |
| Builders.StepTurn | tacparser/astactions.py:133-156 | One turn of `_get_selector_func`'s loop either appends the step built from the child, or raises, and then the whole loop raises the same error. |
| Builders.BuildSteps | tacparser/astactions.py:131-156 | The loop of `_get_selector_func` computes the steps' specification, with attribute values evaluated as the source does or, for the corrected builder, taken as written. |
| Builders.BuildGroup | tacparser/astactions.py:433-455 | One turn of the outer loop of `_get_Conditions` builds the group's specification: the conditions of its SingleCondition nodes, in order, or the first error. |
| Builders.BuildEach | tacparser/astactions.py:434-455 | The inner build loop calls the builder on each node in turn, stops at the first that raises, and otherwise keeps what each built, in order. |
| Builders.BuildGroups | tacparser/astactions.py:431-456 | The loop of `_get_Conditions` over the OrCondition nodes computes the groups' specification, under either setting of `eval`. |
| Builders.BuildSelector | tacparser/astactions.py:122-181 | `_get_selector_func` computes the selector's specification, as written (`evaluate`) or corrected. |
| Builders.BoundRoundTrip | tacparser/astactions.py:320-327 | A StartNumber or EndNumber bound converts back to the bound it was written for, an empty one to None. |
| Builders.SliceRoundTrip | tacparser/astactions.py:318-335 | The slice builder gives back the index or range its tree was written for. |
| Builders.SliceCondition | tacparser/astactions.py:300-335 | A FromTo child builds a range and a Number child an index; any other child type raises. |
| Builders.LineColumnRoundTrip | tacparser/astactions.py:344-382 | The line and column builder gives back the field, comparison and bound its tree was written for. |
| Builders.LineColumnCondition | tacparser/astactions.py:337-382 | A built limitation has the comparison of its child's type and the bound the child's number text parses to. |
| Builders.AttributeRoundTrip | tacparser/astactions.py:394-427 | The attribute builder gives back the test, name and value its tree was written for: always without `eval`, and as written when the test reads no value. |
| Builders.AttributeCondition | tacparser/astactions.py:384-427 | A built attribute test is the test of its child's type, and a test that reads no value carries none. |
| Builders.ConditionRoundTrip | tacparser/astactions.py:435-449 | A SingleCondition gives back the condition its tree was written for: every expressible one without `eval`, and as written every one but an attribute test with a value. |
| Builders.ConditionsRoundTrip | tacparser/astactions.py:429-458 | `_get_Conditions` gives back the type name and groups of its tree, under the same condition on `eval`. |
| Builders.ConditionsOf | tacparser/astactions.py:429-458 | `_get_Conditions` takes the type name from the first Identifier child and builds one group per OrCondition child, in order. |
| Builders.StepRoundTrip | tacparser/astactions.py:132-156 | A step gives back the axis and conditions of its tree, under the same condition on `eval`. |
| Builders.SelectorRoundTrip | tacparser/astactions.py:122-156 | The selector builder inverts the grammar's trees. Without `eval` it gives back the steps of every expressible tree. As written it does so for trees with no attribute value. |
| Builders.AsWrittenEvaluatesBody | tacparser/astactions.py:398-400 | For a body naming nothing bound where `eval` runs, as written `eval` receives the body without quotes and raises NameError. The corrected builder gives the value. |
| Builders.AsWrittenFooBar | tacparser/astactions.py:398-400 | `TypeA[foo == "bar"]`, as written, raises instead of testing for `bar`. |
| Builders.ConditionAsWritten | tacparser/astactions.py:384-449 | As written, the tree of an attribute test with a value builds the test with `eval` of the value, and raises when that is no quoted literal. Every other condition comes back as it was. |
| Builders.AttributeValued | tacparser/astactions.py:394-427 | An attribute test with a value takes the text of its AttributeValue node, passed through `eval` as written. |
| Builders.ConditionAsWrittenRaises | tacparser/astactions.py:398-400 | As written, a SingleCondition whose value names nothing bound raises NameError. |
| Builders.GroupRaises | tacparser/astactions.py:435-449 | A group whose only condition raises raises the same error. |
| Builders.ConditionsRaise | tacparser/astactions.py:429-458 | `_get_Conditions` whose only group raises raises the same error. |
| Builders.SelectorRaises | tacparser/astactions.py:122-156 | `_get_selector_func` whose only step raises raises the same error. |
| Builders.SelectorAsWrittenRaises | tacparser/astactions.py:122-156 | As written, `_get_selector_func` on a one-step selector such as `TypeA[foo == "bar"]` raises, where the corrected builder gives back the step. |
| Selection.StepAllValid | tacparser/astactions.py:172-177 | A step mapped over a list leads only to paths of the tree. |
| Selection.StepsFromSticky | tacparser/astactions.py:171-177 | Once a step raises, following the remaining steps raises the same error. |
| Selection.MapStep | tacparser/astactions.py:172-177 | The inner `for n in param_list` loop computes the step mapped over the list. |
| Selection.Follow | tacparser/astactions.py:169-177 | The later steps, run from one start node, compute their specification. |
| Selection.FollowAll | tacparser/astactions.py:168-178 | The `for start_node in start_nodes` loop computes the pairs of the specification, one per start node in order. |
| Selection.Select | tacparser/astactions.py:158-179 | `selector_func` computes the selector's pairs. |
| Selection.SelectSpec | tacparser/astactions.py:158-179 | A selector with no steps raises. Otherwise each node the first step finds gets exactly one pair, in order, whose targets are where the later steps lead from it. |
| Selection.SingleStepPairs | tacparser/astactions.py:166-178 | A one-step selector pairs each node it finds with itself. |
| Selection.PairsFollowStarts | tacparser/astactions.py:168-178 | Every start node gets exactly one pair, in its order, holding where the later steps lead from it. |
| Selection.StepsCompose | tacparser/astactions.py:171-177 | Running two lists of later steps in turn is running their concatenation. |
| Selection.PairCallsShape | tacparser/astactions.py:692-694 | The calls for one pair are every action on every target, in target and then action order. |
| Selection.CallsShape | tacparser/astactions.py:690-694 | `apply_actions` makes exactly one call per pair, target and action, with its own indices, in pair, target and action order. |
| Selection.CallsCount | tacparser/astactions.py:690-694 | Every action runs once per target of every pair. |
| Selection.GatherPairs | tacparser/astactions.py:686-688 | The first loop concatenates every selector's pairs. |
| Selection.CallAll | tacparser/astactions.py:690-694 | The nested loops make the calls of the specification. |
| Selection.ApplyActions | tacparser/astactions.py:684-694 | `apply_actions` runs the selectors first, then every call in pair, target and action order. |

## Left out

- Regular expressions: `regex.match` is replaced by the deterministic prefix matcher `Patterns.Match`. Backtracking, the M, X, A, I and S flags and the rest of the `regex` module are not modelled. The generator only builds the text of the `regex.compile` call.
- Case folding: `str.lower()` is modelled as ASCII lower-casing (`Text.Lower`). Unicode case mapping, normalisation and encodings are not modelled.
- Python's recursion limit: the fuel is one budget, spent once per rule call and once per `_rpt` round, so it is not the call depth. Running out of it inside a rule call is the `OutOfFuel` halt, and `Driver.ParseFileSpec` answers it `(False, None)` in the main parse. That covers the RecursionError caught at tacparser/baseparser.py:117-121, but with too little fuel it also covers parses that Python would finish. `FuelFacts.ParseFileMono` proves that every other answer stays the same for every larger fuel. The limit's actual depth is not modelled.
- Endless repetition: a `_rpt` still going when the fuel runs out gives the separate `LoopOutOfFuel` halt, which nothing catches. Its loop runs at a constant depth, so Python raises nothing there. `LoopOutOfFuel` says only that the fuel ran out in a loop, not that the loop never ends. Non-termination is proved separately, for a loop at every fuel: `EngineFacts.RptNeverEnds`, `EngineFacts.ALoopNeverEnds`, `EngineFacts.RecursionNeverEnds`.
- File and console I/O: `FileReader`, the file reading of `parse_file`, the file check and file writing of `ParserGenerator` (tacparser/parsergenerator.py:31-35, 82-83), its `main`, and `AstActions.read_file`. The text is a parameter of the model. Logging is left out.
- `ParserGenerator.generate_file` (tacparser/parsergenerator.py:37-86): the orchestration and the class-header template are not modelled. Its parts are: the parse (Driver), the check (Checker) and `travel_generate_file` (Generator).
- Node identity: nodes are values, and one datatype stands for the node classes of both tacparser/node.py and tacparser/baseparser.py. The two differ where `ParserNodes` says: baseparser's classes have no `get_attr`, and only its ReconstructedNode has neighbour links. Its ReconstructedNode also keeps no `_attribute`, and an empty `termstr` raises TacParserException (tacparser/baseparser.py:1189), where node.py's raises ParseException; `Nodes.ReconstructedText` states node.py's. Parent links are positions in the tree, neighbour links are flags, and nothing is shared between trees. `set_attr` and `get_attr` are modelled on the node's attribute map (`Nodes.SetAttr`, `Nodes.SetThenGet`). What is not modelled is the sharing: the `_attribute` dict node.py's ReconstructedNode shares with its original, so that a later `set_attr` on one shows on the other, and the terminals `reconstruct_tree` shares with the old tree.
- Axes.StepSpec: states the step on node.py's classes, where every node has the two neighbour links and a node without a neighbour answers nothing. On a parse result, whose nodes are baseparser.py's and carry no link fields, `--`, `++`, `-` and `+` raise AttributeError instead (`ParserNodes.NeighbourStepRaises`).
- Axes.RunStep: computes `Axes.StepSpec`, so on a parse result it answers nothing for a neighbour axis where the source raises; `ParserNodes.StepOnParserTree` is the source's behaviour there.
- Axes.LeftWalk: walks node.py's links; on a node that is not a baseparser ReconstructedNode the first `_ln.left_neighbor` raises (`ParserNodes.LeftChainOnParserTree`).
- Axes.RightWalk: walks node.py's links; on a node that is not a baseparser ReconstructedNode the first `_rn.right_neighbor` raises (`ParserNodes.RightChainOnParserTree`).
- Conditions.AttributeFilter: states the test on node.py's attribute map. On a parse result, whose nodes have no `get_attr`, any attribute test on a non-empty list raises AttributeError instead (`ParserNodes.AttributeTestRaises`).
- Actions: `apply_actions` is modelled as the list of calls it makes, in order. What an action does to a node is not modelled.
- The action builders of tacparser/astactions.py:460-676, `read_action` and `AstActions.apply`: they build the actions from node types the actions grammar never produces. tacparser/applyaction.py is an abandoned draft.
- The generated fixture parsers under tests/, `print_tree` and `_get_node_str`: they are grammar instances and output formatting.
- app/baseparser.py: its combinators differ from tacparser/baseparser.py only in the span they record (no end line and column). The `legacy` flag of `Engine.Env` and `Parsing.Parser` covers the combinators only. Its `reconstruct_tree` is `Legacy`. Its `parse_file`, which has no `except RecursionError`, is not modelled; `Driver.ParseFileSpec` is the tacparser one.
- Grammar regular expressions: in `ExPegGrammar` and `ActionsGrammar` each pattern is a `Patterns.Pattern` written for the pattern text of the source. The two are not derived from each other.
- The two loops of `get_defstring`, over the comment lines and the patterns, are recursive functions (`Generator.CommentLines`, `Generator.RegexDefs`), like the rest of the walk. They are not methods with loops.
- Rule lookup: `Engine.EvalCall` and `Engine.EvalTrm` look the rule up in the table when the call runs. Python reads the `p_` attribute when it builds the body, on a memo miss, before calling it. The two differ in when and whether a missing rule raises. Python raises as soon as it builds a body that names the missing rule, even when that call would never run: `p_r <- 'a' / M` with no `p_m` raises on "a", where the model succeeds. They agree on every closed table, where no rule is missing (`Grammars.NeverMissing`).
- Text.ParseInt: `int()` also accepts surrounding white space, `+`, `_` separators and non-ASCII digits. The actions grammar only hands it digit strings, so only optional-minus numerals are modelled.
- Builders.EvalLiteral: `eval` of an arbitrary Python expression is not modelled. Only the quoted literals the AttributeValue rule can produce are, and every other text raises.
- Builders.AsWrittenEvaluatesBody: stated for a body that names nothing bound where `eval` runs (`Builders.UnboundName`). A body such as `len` or `True` evaluates as written, and the model says nothing about what it gives.
- CheckerRun.ParserChecker.RemoveChecked: the deletion loop over `defchecked` is modelled as an order-preserving filter of the dictionary. The resulting dictionary is the same.

## Findings

| source | as written | input that shows it | evidently intended | confidence | as-written member | corrected member |
|---|---|---|---|---|---|---|
| tacparser/baseparser.py:1557-1562 | At the root, `reconstruct_tree` gives a right neighbour only to children 1 … n-2 and a left neighbour only to children 2 … n-1. | An untyped root over two kept children of type A: the first gets no right neighbour and the second no left one. | Every child but the last links to the next, and every child but the first to the previous, as `reconstructnode` does below the root. | not executed | Trees.RootLinksAsWrittenMissing | Trees.ReconstructTree |
| tacparser/parsergenerator.py:386 | `check_left_recursion` registers only the Definition nodes, so the root definition is never in `check_def_dic`. | `Root <- 'a' B / 'c'`, `B <- Root? 'b'`: following B's first call reaches "Root" and raises KeyError, though Root consumes an `a` before it calls B, so the grammar has no left recursion. | Every definition, the root's included, is registered, and the grammar passes. | not executed | CheckerExamples.RootCalledRaisesKeyError | CheckerExamples.RootCalledPasses |
| tacparser/parsergenerator.py:480 | The look-ahead branch tests the type "Andprefix", but the parser names the node "AndPrefix", so `&X` is treated as consuming X. | `Start <- A`, `A <- &'x' A` passes the check, though A calls itself without consuming input. | The branch matches "AndPrefix", and the loop "A->A" is reported. | not executed | CheckerExamples.LookaheadPasses | CheckerExamples.LookaheadRejected |
| tacparser/expegparser.py:752 | Space matches the two-character literal `'\\t'`, a backslash and a `t`, and not a tab. | A tab between two grammar tokens is not accepted as spacing, while the text `\t` is. | Space accepts the tab character. | not executed | ExPegGrammar.SpaceRejectsTab | ExPegGrammar.SpaceFixedAcceptsTab |
| tacparser/baseparser.py:172-173 | `parse_string` runs `sub_parse` even after the main parse failed, and `sub_parse` then searches the failure node. | The empty text with a rule that needs a character and one sub-definition type: the session ends in the TypeError of searching the failure node. | A failed parse is answered as `parse_file` answers it, without the sub-parse. | not executed | DriverFacts.ParseStringRaisesAfterFailure | DriverFacts.ParseStringFixedMatchesParseFile |
| tacparser/baseparser.py:193-220 | `sub_parse` keeps one memo for all the nodes of a sub-definition type, though each node is parsed with its own end limit. | Two nodes of type S over "ab": the second finds the first's memo entry at a position and fails. | Each node is parsed with a fresh memo, so each parse is the parse of that node alone. | not executed | DriverFacts.SubParseMemoLeaks | DriverFacts.SubParseFixedSucceeds |
| tacparser/astactions.py:398-400 | The actions grammar skips the quotes of an AttributeValue, and the builder then `eval`s the bare body. | `TypeA[foo == "bar"]` evaluates `bar`, a name and not a string, and raises. | The value is the literal's body, `bar`. | not executed | Builders.SelectorAsWrittenRaises | Builders.SelectorRoundTrip |
| tacparser/astactions.py:199-245 | The neighbour axes read `left_neighbor` and `right_neighbor`, which node.py gives every node but the parser's node classes (tacparser/baseparser.py:877-943) give only to ReconstructedNode. | `Family -- Member` on a tree straight from `parse_file`: the first `_ln.left_neighbor` raises AttributeError. | A node without the link has no neighbour, and the step finds nothing. | not executed | ParserNodes.NeighbourStepRaises | Axes.RunStep |
| tacparser/astactions.py:404-427 | The attribute tests call `get_attr`, which node.py's nodes have and the parser's node classes do not. | `Family[foo]` on a tree straight from `parse_file`: the first `n.get_attr` raises AttributeError. | Each node is read through its attribute map, a missing attribute being `None`. | not executed | ParserNodes.AttributeTestRaises | Conditions.AttributeFilter |
| tacparser/parsergenerator.py:172-182 | The repeat branch searches the whole repeat subtree for RepeatCnt, MinRepeat and MaxRepeat, the repeated expression included. | `(a{2}){3,4}` is generated with the bounds "2,2". `(a{2}){3}` raises the bare Exception. | The bounds come from the repeat's own braces. | not executed | GeneratorShapes.NestedRangeTakesInnerCount | GeneratorShapes.OwnRepeatRange |
| tests/test_recursion.py:15-21 | The test expects `parse_file` on the recursion parser to answer `(False, None)`, but the `A*` loop of `_rpt` (tacparser/baseparser.py:420-437) runs at a constant depth with no progress check, so no RecursionError is raised and the call never returns. | The recursion fixture's parser on any file. | `parse_file` answers `(False, None)`. | not executed | EngineFacts.RecursionParseFileSpins | EngineFacts.RecursionParseFileGuardedFails |
