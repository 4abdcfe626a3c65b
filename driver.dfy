/**
 * The drivers of tacparser/baseparser.py around the engine: `_parse` (one
 * parse from the cursor, with an optional required high-water mark),
 * `sub_parse` (re-parsing every node of one sub-definition type with its
 * `s_` rule and splicing the result into the tree) and `parse_string` /
 * `parse_file` (a fresh reader, the main parse and then every sub-parse).
 *
 * A parser's methods are its rule table; `__initialize` resets the memo
 * and the node counter and writes the backed-up `p_` entries
 * (`def_bk_dict`) over the table, and `sub_parse` points the `p_` entry of
 * its type at the `s_` rule, so that recursive references see the swap.
 */
module Driver {
  import opened Text
  import opened Nodes
  import opened Reading
  import opened Engine
  import Trees

  /** What `_parse` answers, with the state it leaves behind. */
  datatype ParseRes = ParseDone(ok: bool, tree: Node, st: State) | ParseStuck(why: Halt)

  /** The text of the failure node: line, column and character at the high-water mark. */
  function FailureMessage(c: string, p: nat): string
    requires p <= |c|
  {
    LineColumnMeaning(c, p);
    var lc := LineColumnAt(c, p).value;
    "Parse failed! ( maxposition is line:" + NatToString(lc.line) + " column:" + NatToString(lc.column)
    + " @[" + lc.ch + "])"
  }

  /** The span of a root or failure node: the app copy builds these without line and column. */
  function OuterSpan(env: Env, s: nat, e: nat): Span
    requires s <= |env.contents| && e <= |env.contents|
  {
    if env.legacy then Span(s, e, 0, 0, 0, 0) else SpanAt(env, s, e)
  }

  /**
   * `_parse(f, typename, end_pos)`: the body runs from the cursor; it counts
   * as a success only when it succeeds and, if an end is required, the
   * high-water mark sits exactly there.  A success becomes a root
   * non-terminal numbered 0; anything else a failure node over the text
   * read so far, whose flag is still the body's own outcome.
   */
  function ParseSpec(env: Env, body: Expr, typename: string, endPos: Option<nat>, st: State, fuel: nat): (r: ParseRes)
    requires StateOk(env, st)
    ensures r.ParseDone? ==> StateOk(env, r.st) && st.pos <= r.st.pos
    ensures r.ParseDone? ==> r.tree.NonTerminal? || r.tree.Failure?
    ensures r.ParseDone? && r.tree.NonTerminal? ==>
      r.ok && r.tree.typ == typename && r.tree.nodenum == 0
      && r.tree.span.startpos == st.pos && r.tree.span.endpos == r.st.pos
      && (endPos.Some? ==> r.st.maxpos == endPos.value)
    ensures r.ParseDone? && r.tree.Failure? ==>
      r.tree.span.startpos == 0 && r.tree.span.endpos == r.st.maxpos
      && r.tree.termstr == FailureMessage(env.contents, r.st.maxpos)
    ensures r.ParseDone? ==> r.tree.span.endpos <= |env.contents|
    ensures var e := Eval(env, body, st, fuel);
      (r.ParseStuck? <==> e.Stuck?)
      && (r.ParseDone? ==> r.st == e.st && r.ok == e.ok
                           && (r.tree.NonTerminal? <==> e.ok && (endPos.None? || endPos.value == e.st.maxpos)))
  {
    match Eval(env, body, st, fuel)
    case Stuck(h) => ParseStuck(h)
    case Done(ok, ns, st1) => ParseOutcome(env, st.pos, typename, endPos, ok, ns, st1)
  }

  /** What `_parse` makes of a body that ran from `start` to the state `st1`. */
  function ParseOutcome(env: Env, start: nat, typename: string, endPos: Option<nat>, ok: bool, ns: seq<Node>, st1: State): ParseRes
    requires start <= |env.contents| && StateOk(env, st1)
  {
    if ok && (endPos.None? || endPos.value == st1.maxpos) then
      ParseDone(true, NonTerminal(typename, ns, OuterSpan(env, start, st1.pos), 0, map[]), st1)
    else
      ParseDone(ok, Failure(FailureMessage(env.contents, st1.maxpos), OuterSpan(env, 0, st1.maxpos), map[]), st1)
  }

  /** The backed-up `p_` rules written over the current table, as `__initialize` does. */
  function Initialize(rules: Rules, backup: Rules): (r: Rules)
    ensures r.Keys == rules.Keys + backup.Keys
    ensures forall k :: k in backup ==> r[k] == backup[k]
    ensures forall k :: k in rules && k !in backup ==> r[k] == rules[k]
  {
    rules + backup
  }

  function SubRuleName(name: string): string { "s_" + Lower(name) }
  function MainRuleName(name: string): string { "p_" + Lower(name) }

  /** What a whole `sub_parse` answers, with the tree and state it leaves. */
  datatype SubRes =
    | SubDone(ok: bool, results: seq<Node>, tree: Node, rules: Rules, limit: int, st: State)
    | SubStuck(why: Halt)

  /**
   * The loop of `sub_parse` from node `i` on: reposition the reader on the
   * node, parse it with the end required, record the outcome, and splice
   * the result where the node was.  The root has no parent to splice into.
   */
  function SubParseLoop(c: string, legacy: bool, rules: Rules, name: string, nodes: seq<Node>, paths: seq<Trees.Path>,
                        i: nat, tree: Node, limit: int, st: State, ok: bool, results: seq<Node>, fuel: nat): (r: SubRes)
    requires |nodes| == |paths| && i <= |nodes| && SubRuleName(name) in rules
    requires StateOk(Env(c, limit, rules, legacy), st)
    ensures r.SubDone? ==> StateOk(Env(c, r.limit, r.rules, legacy), r.st) && r.rules == rules
    ensures r.SubDone? ==> |r.results| == |results| + |nodes| - i && r.results[..|results|] == results
    ensures r.SubDone? ==> (r.ok ==> ok)
    decreases |nodes| - i
  {
    if i == |nodes| then SubDone(ok, results, tree, rules, limit, st)
    else
      var s := nodes[i].span.startpos;
      var e := nodes[i].span.endpos;
      if s > |c| || e > |c| then SubStuck(PositionError)
      else
        var env := Env(c, e, rules, legacy);
        match ParseSpec(env, rules[SubRuleName(name)], name, Some(e), st.(pos := s, maxpos := s), fuel)
        case ParseStuck(h) => SubStuck(h)
        case ParseDone(flg, t, st1) =>
          if paths[i] == [] then SubStuck(NoParent)
          else
            var r := SubParseLoop(c, legacy, rules, name, nodes, paths, i + 1, Trees.ReplaceAt(tree, paths[i], t),
                                  e, st1, ok && flg, results + [t], fuel);
            assert r.SubDone? ==> r.results[..|results|] == (results + [t])[..|results|];
            r
  }

  /** The node lies inside the text, so the reader can be limited to it. */
  predicate Inside(c: string, n: Node)
  {
    n.span.startpos <= |c| && n.span.endpos <= |c|
  }

  /** A node re-parsed on its own: the reader limited to it, an empty memo and the counter at 0. */
  function NodeAlone(c: string, legacy: bool, rules: Rules, name: string, n: Node, fuel: nat): ParseRes
    requires Inside(c, n) && SubRuleName(name) in rules
  {
    var s, e := n.span.startpos, n.span.endpos;
    ParseSpec(Env(c, e, rules, legacy), rules[SubRuleName(name)], name, Some(e), State(s, s, map[], 0), fuel)
  }

  /**
   * The loop of `sub_parse` with every node parsed as by a fresh parser, so
   * that no memo entry recorded under one node's end limit answers for the
   * next node.
   */
  function SubParseLoopFixed(c: string, legacy: bool, rules: Rules, name: string, nodes: seq<Node>, paths: seq<Trees.Path>,
                             i: nat, tree: Node, limit: int, st: State, ok: bool, results: seq<Node>, fuel: nat): (r: SubRes)
    requires |nodes| == |paths| && i <= |nodes| && SubRuleName(name) in rules
    requires StateOk(Env(c, limit, rules, legacy), st)
    ensures r.SubDone? ==> StateOk(Env(c, r.limit, r.rules, legacy), r.st) && r.rules == rules
    ensures r.SubDone? ==> |r.results| == |results| + |nodes| - i && r.results[..|results|] == results
    decreases |nodes| - i
  {
    if i == |nodes| then SubDone(ok, results, tree, rules, limit, st)
    else if !Inside(c, nodes[i]) then SubStuck(PositionError)
    else
      match NodeAlone(c, legacy, rules, name, nodes[i], fuel)
      case ParseStuck(h) => SubStuck(h)
      case ParseDone(flg, t, st1) =>
        if paths[i] == [] then SubStuck(NoParent)
        else
          var r := SubParseLoopFixed(c, legacy, rules, name, nodes, paths, i + 1, Trees.ReplaceAt(tree, paths[i], t),
                                     nodes[i].span.endpos, st1, ok && flg, results + [t], fuel);
          assert r.SubDone? ==> r.results[..|results|] == (results + [t])[..|results|];
          r
  }

  /** The trees of the nodes each parsed alone, in order; None when one of them cannot be parsed. */
  function AloneTrees(c: string, legacy: bool, rules: Rules, name: string, ns: seq<Node>, fuel: nat): Option<seq<Node>>
    requires SubRuleName(name) in rules
  {
    if ns == [] then Some([])
    else if !Inside(c, ns[0]) then None
    else
      match NodeAlone(c, legacy, rules, name, ns[0], fuel)
      case ParseStuck(_) => None
      case ParseDone(_, t, _) =>
        var rest := AloneTrees(c, legacy, rules, name, ns[1..], fuel);
        if rest.None? then None else Some([t] + rest.value)
  }

  /** Under the fixed loop the results are the trees of the nodes each parsed alone. */
  lemma {:induction false} FixedLoopParsesEachAlone(c: string, legacy: bool, rules: Rules, name: string, nodes: seq<Node>,
      paths: seq<Trees.Path>, i: nat, tree: Node, limit: int, st: State, ok: bool, results: seq<Node>, fuel: nat)
    requires |nodes| == |paths| && i <= |nodes| && SubRuleName(name) in rules
    requires StateOk(Env(c, limit, rules, legacy), st)
    ensures var r := SubParseLoopFixed(c, legacy, rules, name, nodes, paths, i, tree, limit, st, ok, results, fuel);
      r.SubDone? ==> AloneTrees(c, legacy, rules, name, nodes[i..], fuel) == Some(r.results[|results|..])
    decreases |nodes| - i, 1
  {
    if i == |nodes| {
      assert nodes[i..] == [] && results[|results|..] == [];
    } else if SubParseLoopFixed(c, legacy, rules, name, nodes, paths, i, tree, limit, st, ok, results, fuel).SubDone? {
      FixedLoopParsesRest(c, legacy, rules, name, nodes, paths, i, tree, limit, st, ok, results, fuel);
    }
  }

  lemma {:induction false} FixedLoopParsesRest(c: string, legacy: bool, rules: Rules, name: string, nodes: seq<Node>,
      paths: seq<Trees.Path>, i: nat, tree: Node, limit: int, st: State, ok: bool, results: seq<Node>, fuel: nat)
    requires |nodes| == |paths| && i < |nodes| && SubRuleName(name) in rules
    requires StateOk(Env(c, limit, rules, legacy), st)
    requires SubParseLoopFixed(c, legacy, rules, name, nodes, paths, i, tree, limit, st, ok, results, fuel).SubDone?
    ensures AloneTrees(c, legacy, rules, name, nodes[i..], fuel)
            == Some(SubParseLoopFixed(c, legacy, rules, name, nodes, paths, i, tree, limit, st, ok, results, fuel).results[|results|..])
    decreases |nodes| - i, 0
  {
    FixedLoopStep(c, legacy, rules, name, nodes, paths, i, tree, limit, st, ok, results, fuel);
    var p := NodeAlone(c, legacy, rules, name, nodes[i], fuel);
    var t := p.tree;
    var tree1 := Trees.ReplaceAt(tree, paths[i], t);
    var r := SubParseLoopFixed(c, legacy, rules, name, nodes, paths, i + 1, tree1,
                               nodes[i].span.endpos, p.st, ok && p.ok, results + [t], fuel);
    FixedLoopParsesEachAlone(c, legacy, rules, name, nodes, paths, i + 1, tree1,
                             nodes[i].span.endpos, p.st, ok && p.ok, results + [t], fuel);
    assert nodes[i..][0] == nodes[i] && nodes[i..][1..] == nodes[i + 1..];
    assert r.results[..|results|] == results && r.results[|results|] == t by {
      assert r.results[..|results| + 1] == results + [t];
      assert r.results[..|results|] == (r.results[..|results| + 1])[..|results|];
      assert r.results[|results|] == (r.results[..|results| + 1])[|results|];
    }
    AloneTreesCons(c, legacy, rules, name, nodes[i..], results, r.results, fuel);
  }

  /** The trees of `ns` are `t` and then the trees of the rest. */
  lemma AloneTreesCons(c: string, legacy: bool, rules: Rules, name: string, ns: seq<Node>, results: seq<Node>,
                       all: seq<Node>, fuel: nat)
    requires SubRuleName(name) in rules && ns != [] && Inside(c, ns[0])
    requires NodeAlone(c, legacy, rules, name, ns[0], fuel).ParseDone?
    requires |results| < |all| && all[..|results|] == results
    requires all[|results|] == NodeAlone(c, legacy, rules, name, ns[0], fuel).tree
    requires AloneTrees(c, legacy, rules, name, ns[1..], fuel) == Some(all[|results| + 1..])
    ensures AloneTrees(c, legacy, rules, name, ns, fuel) == Some(all[|results|..])
  {
    AloneTreesUnfold(c, legacy, rules, name, ns, fuel);
    SplitAt(all, |results|);
  }

  lemma SplitAt(all: seq<Node>, k: nat)
    requires k < |all|
    ensures all[k..] == [all[k]] + all[k + 1..]
  {
  }

  /** A node that parses alone puts its tree in front of the trees of the rest. */
  lemma AloneTreesUnfold(c: string, legacy: bool, rules: Rules, name: string, ns: seq<Node>, fuel: nat)
    requires SubRuleName(name) in rules && ns != [] && Inside(c, ns[0])
    requires NodeAlone(c, legacy, rules, name, ns[0], fuel).ParseDone?
    requires AloneTrees(c, legacy, rules, name, ns[1..], fuel).Some?
    ensures AloneTrees(c, legacy, rules, name, ns, fuel)
            == Some([NodeAlone(c, legacy, rules, name, ns[0], fuel).tree] + AloneTrees(c, legacy, rules, name, ns[1..], fuel).value)
  {
  }

  /** One round of the fixed loop that does not stop the loop. */
  lemma FixedLoopStep(c: string, legacy: bool, rules: Rules, name: string, nodes: seq<Node>,
                      paths: seq<Trees.Path>, i: nat, tree: Node, limit: int, st: State,
                      ok: bool, results: seq<Node>, fuel: nat)
    requires |nodes| == |paths| && i < |nodes| && SubRuleName(name) in rules
    requires StateOk(Env(c, limit, rules, legacy), st)
    requires SubParseLoopFixed(c, legacy, rules, name, nodes, paths, i, tree, limit, st, ok, results, fuel).SubDone?
    ensures Inside(c, nodes[i]) && paths[i] != []
    ensures var p := NodeAlone(c, legacy, rules, name, nodes[i], fuel);
      p.ParseDone?
      && SubParseLoopFixed(c, legacy, rules, name, nodes, paths, i, tree, limit, st, ok, results, fuel)
         == SubParseLoopFixed(c, legacy, rules, name, nodes, paths, i + 1, Trees.ReplaceAt(tree, paths[i], p.tree),
                              nodes[i].span.endpos, p.st, ok && p.ok, results + [p.tree], fuel)
  {
  }

  /**
   * `sub_parse(name)`: initialise, find the nodes of the type without
   * descending into matches, swap the `p_` rule for the `s_` rule (a
   * missing `s_` rule is an AttributeError) and run the loop.  A failure
   * tree answers None to the search, which the loop cannot iterate.
   */
  function SubParseSpec(c: string, legacy: bool, rules: Rules, backup: Rules, name: string, tree: Node,
                        limit: int, st: State, fuel: nat): (r: SubRes)
    requires limit <= |c| && st.pos <= st.maxpos <= |c|
    ensures r.SubDone? ==> StateOk(Env(c, r.limit, r.rules, legacy), r.st)
    ensures r.SubDone? ==> SubRuleName(name) in Initialize(rules, backup) && IsNonTerminal(tree)
                           && r.rules == Initialize(rules, backup)[MainRuleName(name) := Initialize(rules, backup)[SubRuleName(name)]]
                           && |r.results| == |Search(tree, name, false)|
  {
    var rules1 := Initialize(rules, backup);
    var st1 := st.(cache := map[], nodenum := 0);
    if SubRuleName(name) !in rules1 then SubStuck(NoSuchRule(SubRuleName(name)))
    else if !IsNonTerminal(tree) then SubStuck(NotSearchable)
    else
      var rules2 := rules1[MainRuleName(name) := rules1[SubRuleName(name)]];
      var nodes := Search(tree, name, false);
      var paths := Trees.SearchPaths(tree, name, false);
      Trees.SearchPathsAgree(tree, name, false);
      SubParseLoop(c, legacy, rules2, name, nodes, paths, 0, tree, limit, st1, true, [], fuel)
  }

  /** `sub_parse` with the fixed loop: each node parsed with an empty memo and the counter at 0. */
  function SubParseSpecFixed(c: string, legacy: bool, rules: Rules, backup: Rules, name: string, tree: Node,
                             limit: int, st: State, fuel: nat): (r: SubRes)
    requires limit <= |c| && st.pos <= st.maxpos <= |c|
    ensures r.SubDone? ==> SubRuleName(name) in Initialize(rules, backup) && IsNonTerminal(tree)
                           && |r.results| == |Search(tree, name, false)|
    ensures r.SubDone? ==>
      var rules2 := Initialize(rules, backup)[MainRuleName(name) := Initialize(rules, backup)[SubRuleName(name)]];
      r.rules == rules2 && AloneTrees(c, legacy, rules2, name, Search(tree, name, false), fuel) == Some(r.results)
  {
    var rules1 := Initialize(rules, backup);
    var st1 := st.(cache := map[], nodenum := 0);
    if SubRuleName(name) !in rules1 then SubStuck(NoSuchRule(SubRuleName(name)))
    else if !IsNonTerminal(tree) then SubStuck(NotSearchable)
    else
      var rules2 := rules1[MainRuleName(name) := rules1[SubRuleName(name)]];
      var nodes := Search(tree, name, false);
      var paths := Trees.SearchPaths(tree, name, false);
      Trees.SearchPathsAgree(tree, name, false);
      FixedLoopParsesEachAlone(c, legacy, rules2, name, nodes, paths, 0, tree, limit, st1, true, [], fuel);
      assert nodes[0..] == nodes;
      var r := SubParseLoopFixed(c, legacy, rules2, name, nodes, paths, 0, tree, limit, st1, true, [], fuel);
      assert r.SubDone? ==> r.results[0..] == r.results;
      r
  }

  /** What a whole `parse_string` or `parse_file` answers, with what it leaves behind. */
  datatype SessionRes =
    | SessionDone(ok: bool, tree: Node, rules: Rules, limit: int, st: State)
    | SessionStuck(why: Halt)

  /** The sub-parses `parse_string` runs, one per sub-definition type, in order. */
  function SubParseAll(c: string, legacy: bool, rules: Rules, backup: Rules, subtypes: seq<string>, j: nat,
                       ok: bool, tree: Node, limit: int, st: State, fuel: nat): (r: SessionRes)
    requires j <= |subtypes| && StateOk(Env(c, limit, rules, legacy), st)
    ensures r.SessionDone? ==> r.ok == ok && StateOk(Env(c, r.limit, r.rules, legacy), r.st)
    decreases |subtypes| - j
  {
    if j == |subtypes| then SessionDone(ok, tree, rules, limit, st)
    else
      match SubParseSpec(c, legacy, rules, backup, subtypes[j], tree, limit, st, fuel)
      case SubStuck(h) => SessionStuck(h)
      case SubDone(_, _, t, rules2, limit2, st2) =>
        SubParseAll(c, legacy, rules2, backup, subtypes, j + 1, ok, t, limit2, st2, fuel)
  }

  /** The state of a fresh `StringReader` with an empty memo. */
  const Fresh := State(0, 0, map[], 0)

  /**
   * `parse_string(text, rootexp, typename)` as written: the root expression is
   * the rule the caller names, taken before `__initialize`; the type name
   * defaults to the top type; the sub-parses run whatever the main parse
   * gave.
   */
  function ParseStringSpec(rules: Rules, backup: Rules, subtypes: seq<string>, top: string, legacy: bool,
                           text: string, rule: string, typename: string, fuel: nat): (r: SessionRes)
    ensures rule !in rules ==> r == SessionStuck(NoSuchRule(rule))
    ensures r.SessionDone? ==>
      rule in rules
      && var main := ParseSpec(Env(text, -1, Initialize(rules, backup), legacy), rules[rule],
                               if typename == "" then top else typename, None, Fresh, fuel);
         main.ParseDone? && r.ok == main.ok
  {
    if rule !in rules then SessionStuck(NoSuchRule(rule))
    else
      var env := Env(text, -1, Initialize(rules, backup), legacy);
      match ParseSpec(env, rules[rule], if typename == "" then top else typename, None, Fresh, fuel)
      case ParseStuck(h) => SessionStuck(h)
      case ParseDone(ok, t, st) => SubParseAll(text, legacy, env.rules, backup, subtypes, 0, ok, t, -1, st, fuel)
  }

  /**
   * `parse_string` with the guard `parse_file` has: a failed main parse is
   * answered at once, without sub-parses.
   */
  function ParseStringFixed(rules: Rules, backup: Rules, subtypes: seq<string>, top: string, legacy: bool,
                            text: string, rule: string, typename: string, fuel: nat): (r: SessionRes)
  {
    if rule !in rules then SessionStuck(NoSuchRule(rule))
    else
      var env := Env(text, -1, Initialize(rules, backup), legacy);
      match ParseSpec(env, rules[rule], if typename == "" then top else typename, None, Fresh, fuel)
      case ParseStuck(h) => SessionStuck(h)
      case ParseDone(ok, t, st) =>
        if !ok then SessionDone(ok, t, env.rules, -1, st)
        else SubParseAll(text, legacy, env.rules, backup, subtypes, 0, ok, t, -1, st, fuel)
  }

  /** What `parse_file` answers; a RecursionError of the main parse gives `(False, None)`. */
  datatype FileRes = FileDone(ok: bool, tree: Option<Node>) | FileStuck(why: Halt)

  /**
   * `parse_file` on the text of the file: the root rule is `def_dict`'s entry
   * for the type name (a KeyError if absent), a failed main parse is
   * answered without sub-parses, and rule calls nested deeper than the fuel
   * in the main parse are the caught RecursionError.  A repetition that
   * outlasts the fuel raises nothing in Python, so it is no answer at all:
   * `FileStuck(LoopOutOfFuel)`.
   */
  function ParseFileSpec(rules: Rules, backup: Rules, defs: map<string, Expr>, subtypes: seq<string>, top: string,
                         legacy: bool, text: string, typename: string, fuel: nat): (r: FileRes)
    ensures (if typename == "" then top else typename) !in defs ==>
      r == FileStuck(NoSuchType(if typename == "" then top else typename))
    ensures r == FileStuck(OutOfFuel) ==>
      var tname := if typename == "" then top else typename;
      tname in defs && ParseSpec(Env(text, -1, Initialize(rules, backup), legacy), defs[tname], tname, None, Fresh, fuel).ParseDone?
    ensures r.FileDone? && r.tree.None? ==> !r.ok
  {
    var tname := if typename == "" then top else typename;
    if tname !in defs then FileStuck(NoSuchType(tname))
    else
      var env := Env(text, -1, Initialize(rules, backup), legacy);
      match ParseSpec(env, defs[tname], tname, None, Fresh, fuel)
      case ParseStuck(h) => if h == OutOfFuel then FileDone(false, None) else FileStuck(h)
      case ParseDone(ok, t, st) =>
        if !ok then FileDone(ok, Some(t))
        else
          match SubParseAll(text, legacy, env.rules, backup, subtypes, 0, ok, t, -1, st, fuel)
          case SessionStuck(h) => FileStuck(h)
          case SessionDone(ok2, t2, _, _, _) => FileDone(ok2, Some(t2))
  }

  /**
   * `parse_file` with a guard against endless repetition: a repetition that
   * outlasts the fuel is answered `(False, None)`, like a RecursionError,
   * which is the answer tests/test_recursion.py expects.
   */
  function ParseFileGuardedSpec(rules: Rules, backup: Rules, defs: map<string, Expr>, subtypes: seq<string>, top: string,
                                legacy: bool, text: string, typename: string, fuel: nat): (r: FileRes)
    ensures r != FileStuck(LoopOutOfFuel)
    ensures r.FileStuck? ==> r == ParseFileSpec(rules, backup, defs, subtypes, top, legacy, text, typename, fuel)
  {
    match ParseFileSpec(rules, backup, defs, subtypes, top, legacy, text, typename, fuel)
    case FileStuck(LoopOutOfFuel) => FileDone(false, None)
    case f => f
  }
}
