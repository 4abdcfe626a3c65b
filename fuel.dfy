/**
 * The fuel of the model is a bound, not part of what the program does: an
 * evaluation that ends without running out of fuel gives the same answer,
 * memo and all, with any larger fuel.  So a finished answer of the engine,
 * of `_parse`, `sub_parse` and `parse_file` is the program's own answer,
 * and only the two fuel halts depend on how much fuel was given.
 */
module FuelFacts {
  import opened Text
  import opened Nodes
  import opened Reading
  import opened Engine
  import opened Driver
  import Trees
  import EngineFacts
  import Combinators

  /** The two halts that mean only that the fuel ran out. */
  predicate IsFuel(h: Halt)
  {
    h == OutOfFuel || h == LoopOutOfFuel
  }

  predicate FuelHalt(r: Res)
  {
    r.Stuck? && IsFuel(r.why)
  }

  // ---------------------------------------------------------------------------
  // The engine

  /** An evaluation that does not run out of fuel answers the same with more. */
  lemma {:induction false} EvalMono(env: Env, e: Expr, st: State, f: nat, g: nat)
    requires StateOk(env, st) && f <= g && !FuelHalt(Eval(env, e, st, f))
    ensures Eval(env, e, st, g) == Eval(env, e, st, f)
    decreases f, e, 1, 0
  {
    match e
    case Lit(_, _) =>
    case Reg(_) =>
    case Eof =>
    case Seq(_) => SeqMono(env, e, 0, [], st, st, f, g);
    case Sel(_) => SelMono(env, e, 0, st, f, g);
    case Rpt(_, _, _) => RptMono(env, e, 0, [], st, st, f, g);
    case Opt(x) =>
      assert EvalOpt(env, e, st, f) == match Eval(env, x, st, f) case Stuck(h) => Stuck(h) case Done(_, ns, s1) => Done(true, ns, s1);
      EvalMono(env, x, st, f, g);
    case And(x) =>
      assert EvalAnd(env, e, st, f) == match Eval(env, x, st, f) case Stuck(h) => Stuck(h) case Done(ok, _, s1) => Done(ok, [], SetPos(s1, st.pos));
      EvalMono(env, x, st, f, g);
    case Not(x) =>
      assert EvalNot(env, e, st, f) == match Eval(env, x, st, f) case Stuck(h) => Stuck(h) case Done(ok, _, s1) => Done(!ok, [], SetPos(s1, st.pos));
      EvalMono(env, x, st, f, g);
    case Skip(x) =>
      assert EvalSkip(env, e, st, f) == match Eval(env, x, st, f) case Stuck(h) => Stuck(h) case Done(ok, _, s1) => Done(ok, [], s1);
      EvalMono(env, x, st, f, g);
    case Trm(_) => TrmMono(env, e, st, f, g);
    case Call(_, _) => CallMono(env, e, st, f, g);
  }

  lemma {:induction false} SeqMono(env: Env, e: Expr, i: nat, acc: seq<Node>, start: State, st: State, f: nat, g: nat)
    requires e.Seq? && i <= |e.xs| && StateOk(env, start) && StateOk(env, st) && AllBounded(acc, |env.contents|)
    requires start.pos <= st.pos && start.maxpos <= st.maxpos && start.cache.Keys <= st.cache.Keys
    requires start.nodenum <= st.nodenum
    requires f <= g && !FuelHalt(EvalSeq(env, e, i, acc, start, st, f))
    ensures EvalSeq(env, e, i, acc, start, st, g) == EvalSeq(env, e, i, acc, start, st, f)
    decreases f, e, 0, |e.xs| - i
  {
    if i < |e.xs| {
      var r := Eval(env, e.xs[i], st, f);
      if r.Stuck? {
        assert EvalSeq(env, e, i, acc, start, st, f) == r;
        EvalMono(env, e.xs[i], st, f, g);
      } else {
        EvalMono(env, e.xs[i], st, f, g);
        if r.ok {
          assert EvalSeq(env, e, i, acc, start, st, f) == EvalSeq(env, e, i + 1, acc + r.nodes, start, r.st, f);
          SeqMono(env, e, i + 1, acc + r.nodes, start, r.st, f, g);
        }
      }
    }
  }

  lemma {:induction false} SelMono(env: Env, e: Expr, i: nat, st: State, f: nat, g: nat)
    requires e.Sel? && i <= |e.xs| && StateOk(env, st)
    requires f <= g && !FuelHalt(EvalSel(env, e, i, st, f))
    ensures EvalSel(env, e, i, st, g) == EvalSel(env, e, i, st, f)
    decreases f, e, 0, |e.xs| - i
  {
    if i < |e.xs| {
      var r := Eval(env, e.xs[i], st, f);
      if r.Stuck? {
        assert EvalSel(env, e, i, st, f) == r;
        EvalMono(env, e.xs[i], st, f, g);
      } else {
        EvalMono(env, e.xs[i], st, f, g);
        if !r.ok {
          assert EvalSel(env, e, i, st, f) == EvalSel(env, e, i + 1, SetPos(r.st, st.pos), f);
          SelMono(env, e, i + 1, SetPos(r.st, st.pos), f, g);
        }
      }
    }
  }

  lemma {:induction false} RptMono(env: Env, e: Expr, i: nat, acc: seq<Node>, start: State, st: State, f: nat, g: nat)
    requires e.Rpt? && StateOk(env, start) && StateOk(env, st) && AllBounded(acc, |env.contents|)
    requires start.pos <= st.pos && start.maxpos <= st.maxpos && start.cache.Keys <= st.cache.Keys
    requires start.nodenum <= st.nodenum
    requires f <= g && !FuelHalt(EvalRpt(env, e, i, acc, start, st, f))
    ensures EvalRpt(env, e, i, acc, start, st, g) == EvalRpt(env, e, i, acc, start, st, f)
    decreases f, e, 0, 0
  {
    if !(e.max >= 0 && i >= e.max) {
      assert f > 0;
      var r := Eval(env, e.e, st, f);
      if r.Stuck? {
        assert EvalRpt(env, e, i, acc, start, st, f) == r;
        EvalMono(env, e.e, st, f, g);
      } else {
        EvalMono(env, e.e, st, f, g);
        if r.ok {
          Combinators.RptStep(env, e, i, acc, start, st, f, r.nodes, r.st);
          Combinators.RptStep(env, e, i, acc, start, st, g, r.nodes, r.st);
          RptMono(env, e, i + 1, acc + r.nodes, start, r.st, f - 1, g - 1);
        }
      }
    }
  }

  lemma {:induction false} TrmMono(env: Env, e: Expr, st: State, f: nat, g: nat)
    requires e.Trm? && StateOk(env, st)
    requires f <= g && !FuelHalt(EvalTrm(env, e, st, f))
    ensures EvalTrm(env, e, st, g) == EvalTrm(env, e, st, f)
    decreases f, e, 0, 0
  {
    if e.rule in env.rules {
      assert f > 0;
      var r := Eval(env, env.rules[e.rule], st, f - 1);
      if r.Stuck? {
        assert EvalTrm(env, e, st, f) == r;
      }
      EvalMono(env, env.rules[e.rule], st, f - 1, g - 1);
    }
  }

  lemma {:induction false} CallMono(env: Env, e: Expr, st: State, f: nat, g: nat)
    requires e.Call? && StateOk(env, st)
    requires f <= g && !FuelHalt(EvalCall(env, e, st, f))
    ensures EvalCall(env, e, st, g) == EvalCall(env, e, st, f)
    decreases f, e, 0, 0
  {
    if Key(e.typename, st.pos) !in st.cache && e.rule in env.rules {
      assert f > 0;
      var r := Eval(env, env.rules[e.rule], st, f - 1);
      if r.Stuck? {
        assert EvalCall(env, e, st, f) == r;
      }
      EvalMono(env, env.rules[e.rule], st, f - 1, g - 1);
    }
  }

  // ---------------------------------------------------------------------------
  // The drivers

  /** `_parse` that does not run out of fuel answers the same with more. */
  lemma ParseMono(env: Env, body: Expr, typename: string, endPos: Option<nat>, st: State, f: nat, g: nat)
    requires StateOk(env, st) && f <= g
    requires var r := ParseSpec(env, body, typename, endPos, st, f); !(r.ParseStuck? && IsFuel(r.why))
    ensures ParseSpec(env, body, typename, endPos, st, g) == ParseSpec(env, body, typename, endPos, st, f)
  {
    EvalMono(env, body, st, f, g);
  }

  /** So does the loop of `sub_parse`, node by node. */
  lemma {:induction false} SubParseLoopMono(c: string, legacy: bool, rules: Rules, name: string, nodes: seq<Node>,
      paths: seq<Trees.Path>, i: nat, tree: Node, limit: int, st: State, ok: bool, results: seq<Node>, f: nat, g: nat)
    requires |nodes| == |paths| && i <= |nodes| && SubRuleName(name) in rules
    requires StateOk(Env(c, limit, rules, legacy), st) && f <= g
    requires var r := SubParseLoop(c, legacy, rules, name, nodes, paths, i, tree, limit, st, ok, results, f);
      !(r.SubStuck? && IsFuel(r.why))
    ensures SubParseLoop(c, legacy, rules, name, nodes, paths, i, tree, limit, st, ok, results, g)
            == SubParseLoop(c, legacy, rules, name, nodes, paths, i, tree, limit, st, ok, results, f)
    decreases |nodes| - i
  {
    if i < |nodes| {
      var s := nodes[i].span.startpos;
      var e := nodes[i].span.endpos;
      if s <= |c| && e <= |c| {
        var env := Env(c, e, rules, legacy);
        var st0 := st.(pos := s, maxpos := s);
        var p := ParseSpec(env, rules[SubRuleName(name)], name, Some(e), st0, f);
        ParseMono(env, rules[SubRuleName(name)], name, Some(e), st0, f, g);
        if p.ParseDone? && paths[i] != [] {
          SubParseLoopMono(c, legacy, rules, name, nodes, paths, i + 1, Trees.ReplaceAt(tree, paths[i], p.tree),
                           e, p.st, ok && p.ok, results + [p.tree], f, g);
        }
      }
    }
  }

  /** So does a whole `sub_parse`. */
  lemma SubParseMono(c: string, legacy: bool, rules: Rules, backup: Rules, name: string, tree: Node,
                     limit: int, st: State, f: nat, g: nat)
    requires limit <= |c| && st.pos <= st.maxpos <= |c| && f <= g
    requires var r := SubParseSpec(c, legacy, rules, backup, name, tree, limit, st, f); !(r.SubStuck? && IsFuel(r.why))
    ensures SubParseSpec(c, legacy, rules, backup, name, tree, limit, st, g)
            == SubParseSpec(c, legacy, rules, backup, name, tree, limit, st, f)
  {
    var rules1 := Initialize(rules, backup);
    if SubRuleName(name) in rules1 && IsNonTerminal(tree) {
      var rules2 := rules1[MainRuleName(name) := rules1[SubRuleName(name)]];
      var nodes := Search(tree, name, false);
      var paths := Trees.SearchPaths(tree, name, false);
      Trees.SearchPathsAgree(tree, name, false);
      SubParseLoopMono(c, legacy, rules2, name, nodes, paths, 0, tree, limit, st.(cache := map[], nodenum := 0),
                       true, [], f, g);
    }
  }

  /** So do the sub-parses of every sub-definition type in turn. */
  lemma {:induction false} SubParseAllMono(c: string, legacy: bool, rules: Rules, backup: Rules, subtypes: seq<string>,
      j: nat, ok: bool, tree: Node, limit: int, st: State, f: nat, g: nat)
    requires j <= |subtypes| && StateOk(Env(c, limit, rules, legacy), st) && f <= g
    requires var r := SubParseAll(c, legacy, rules, backup, subtypes, j, ok, tree, limit, st, f);
      !(r.SessionStuck? && IsFuel(r.why))
    ensures SubParseAll(c, legacy, rules, backup, subtypes, j, ok, tree, limit, st, g)
            == SubParseAll(c, legacy, rules, backup, subtypes, j, ok, tree, limit, st, f)
    decreases |subtypes| - j
  {
    if j < |subtypes| {
      var r := SubParseSpec(c, legacy, rules, backup, subtypes[j], tree, limit, st, f);
      SubParseMono(c, legacy, rules, backup, subtypes[j], tree, limit, st, f, g);
      if r.SubDone? {
        SubParseAllMono(c, legacy, r.rules, backup, subtypes, j + 1, ok, r.tree, r.limit, r.st, f, g);
      }
    }
  }

  /**
   * `parse_string` that does not run out of fuel answers the same with more
   * fuel: its tree, its table, its reader and its memo are the program's.
   */
  lemma ParseStringMono(rules: Rules, backup: Rules, subtypes: seq<string>, top: string, legacy: bool,
                        text: string, rule: string, typename: string, f: nat, g: nat)
    requires f <= g
    requires var r := ParseStringSpec(rules, backup, subtypes, top, legacy, text, rule, typename, f);
      !(r.SessionStuck? && IsFuel(r.why))
    ensures ParseStringSpec(rules, backup, subtypes, top, legacy, text, rule, typename, g)
            == ParseStringSpec(rules, backup, subtypes, top, legacy, text, rule, typename, f)
  {
    if rule in rules {
      var env := Env(text, -1, Initialize(rules, backup), legacy);
      var tname := if typename == "" then top else typename;
      var p := ParseSpec(env, rules[rule], tname, None, Fresh, f);
      ParseMono(env, rules[rule], tname, None, Fresh, f, g);
      if p.ParseDone? {
        SubParseAllMono(text, legacy, env.rules, backup, subtypes, 0, p.ok, p.tree, -1, p.st, f, g);
      }
    }
  }

  /**
   * `parse_file` with an answer that the fuel did not decide, a tree or a
   * halt other than running out, answers the same with more fuel; only
   * `(False, None)`, the caught RecursionError, and the two fuel halts
   * depend on how much fuel there is.
   */
  lemma ParseFileMono(rules: Rules, backup: Rules, defs: map<string, Expr>, subtypes: seq<string>, top: string,
                      legacy: bool, text: string, typename: string, f: nat, g: nat)
    requires f <= g
    requires var r := ParseFileSpec(rules, backup, defs, subtypes, top, legacy, text, typename, f);
      (r.FileDone? ==> r.tree.Some?) && (r.FileStuck? ==> !IsFuel(r.why))
    ensures ParseFileSpec(rules, backup, defs, subtypes, top, legacy, text, typename, g)
            == ParseFileSpec(rules, backup, defs, subtypes, top, legacy, text, typename, f)
  {
    var tname := if typename == "" then top else typename;
    if tname in defs {
      var env := Env(text, -1, Initialize(rules, backup), legacy);
      var p := ParseSpec(env, defs[tname], tname, None, Fresh, f);
      ParseMono(env, defs[tname], tname, None, Fresh, f, g);
      if p.ParseDone? && p.ok {
        SubParseAllMono(text, legacy, env.rules, backup, subtypes, 0, p.ok, p.tree, -1, p.st, f, g);
      }
    }
  }
}
