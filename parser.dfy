/**
 * The parser object of tacparser/baseparser.py: a reader, a memo, a node
 * counter and a rule table, with one method per combinator.  Every method
 * is proved to do what `Engine.Eval` (and, for the drivers, the functions
 * of `Driver`) says of the state it starts in, so the properties proved
 * about those functions hold of the object.
 */
module Parsing {
  import opened Text
  import opened Nodes
  import opened Reading
  import opened Engine
  import opened Driver
  import Trees

  /** What a combinator method returns: `(flg, nodes)`, or the exception that ended the parse. */
  datatype Answer = Finished(ok: bool, nodes: seq<Node>) | Halted(why: Halt)

  /** What `_parse` and the `parse_*` entry points return: `(flg, node)`, or the exception. */
  datatype Parsed = Parsed(ok: bool, tree: Node) | ParseHalted(why: Halt)

  /** What `sub_parse` returns: `(retflg, results)`, or the exception. */
  datatype SubAnswer = SubFinished(ok: bool, results: seq<Node>) | SubHalted(why: Halt)

  /** The text of a failed parse, built from the reader's line and column answer. */
  function Message(lc: LineColumn): string
  {
    "Parse failed! ( maxposition is line:" + NatToString(lc.line) + " column:" + NatToString(lc.column)
    + " @[" + lc.ch + "])"
  }

  /** The texts of `ns`, each prefixed by `t`: what is still to be joined. */
  function Prefixed(t: string, r: Result<string, StrError>): Result<string, StrError>
  {
    match r
    case Ok(v) => Ok(t + v)
    case Err(e) => Err(e)
  }

  /** Where a round of the `sub_parse` loop stops it, the loop ends as that round does. */
  lemma LoopHalts(c: string, legacy: bool, rules: Rules, name: string, nodes: seq<Node>, paths: seq<Trees.Path>,
                  i: nat, tree: Node, limit: int, st: State, ok: bool, results: seq<Node>, fuel: nat)
    requires |nodes| == |paths| && i < |nodes| && SubRuleName(name) in rules
    requires StateOk(Env(c, limit, rules, legacy), st)
    ensures var s, e := nodes[i].span.startpos, nodes[i].span.endpos;
      var r := SubParseLoop(c, legacy, rules, name, nodes, paths, i, tree, limit, st, ok, results, fuel);
      if s > |c| || e > |c| then r == SubStuck(PositionError)
      else match ParseSpec(Env(c, e, rules, legacy), rules[SubRuleName(name)], name, Some(e), st.(pos := s, maxpos := s), fuel)
        case ParseStuck(h) => r == SubStuck(h)
        case ParseDone(_, _, _) => paths[i] == [] ==> r == SubStuck(NoParent)
  {
  }

  /** A round that splices its tree in leaves the rest of the loop to do. */
  lemma LoopGoesOn(c: string, legacy: bool, rules: Rules, name: string, nodes: seq<Node>, paths: seq<Trees.Path>,
                   i: nat, tree: Node, limit: int, st: State, ok: bool, results: seq<Node>, fuel: nat)
    requires |nodes| == |paths| && i < |nodes| && SubRuleName(name) in rules
    requires StateOk(Env(c, limit, rules, legacy), st)
    requires nodes[i].span.startpos <= |c| && nodes[i].span.endpos <= |c| && paths[i] != []
    ensures var s, e := nodes[i].span.startpos, nodes[i].span.endpos;
      var env := Env(c, e, rules, legacy);
      var p := ParseSpec(env, rules[SubRuleName(name)], name, Some(e), st.(pos := s, maxpos := s), fuel);
      p.ParseDone? ==>
        SubParseLoop(c, legacy, rules, name, nodes, paths, i, tree, limit, st, ok, results, fuel)
        == SubParseLoop(c, legacy, rules, name, nodes, paths, i + 1, Trees.ReplaceAt(tree, paths[i], p.tree),
                        e, p.st, ok && p.ok, results + [p.tree], fuel)
  {
  }

  /** A call not in the memo, once its rule's body has finished: the node, or the failure, memoized. */
  lemma CallAfterBody(env: Env, e: Expr, st: State, fuel: nat)
    requires e.Call? && StateOk(env, st) && Key(e.typename, st.pos) !in st.cache && e.rule in env.rules && fuel > 0
    requires Eval(env, env.rules[e.rule], st, fuel - 1).Done?
    ensures var x := Eval(env, env.rules[e.rule], st, fuel - 1);
      var k := Key(e.typename, st.pos);
      var node := NonTerminal(e.typename, x.nodes, SpanAt(env, st.pos, x.st.pos), x.st.nodenum, map[]);
      EvalCall(env, e, st, fuel)
      == if x.ok then Done(true, [node], x.st.(nodenum := x.st.nodenum + 1, cache := x.st.cache[k := Memo(true, [node])]))
         else Done(false, [], x.st.(cache := x.st.cache[k := Memo(false, [])]))
  {
  }

  /** One sub-definition type of `parse_string`: its `sub_parse`, then the rest. */
  lemma SubParseAllStep(c: string, legacy: bool, rules: Rules, backup: Rules, subtypes: seq<string>, j: nat,
                        ok: bool, tree: Node, limit: int, st: State, fuel: nat)
    requires j < |subtypes| && StateOk(Env(c, limit, rules, legacy), st)
    ensures SubParseAll(c, legacy, rules, backup, subtypes, j, ok, tree, limit, st, fuel)
            == match SubParseSpec(c, legacy, rules, backup, subtypes[j], tree, limit, st, fuel)
               case SubStuck(h) => SessionStuck(h)
               case SubDone(_, _, t, rules2, limit2, st2) =>
                 SubParseAll(c, legacy, rules2, backup, subtypes, j + 1, ok, t, limit2, st2, fuel)
  {
  }

  class Parser {
    var reader: Reader
    var cache: map<Key, Memo>
    var nodenum: nat
    var rules: Rules
    /** `def_bk_dict`: the `p_` rules `__initialize` writes back. */
    const backup: Rules
    /** `def_dict`: the root rule of each type name, bound when the parser is built. */
    const defs: map<string, Expr>
    /** `def_subtypename`: the types re-parsed after the main parse. */
    const subtypes: seq<string>
    const toptypename: string
    /** Whether nodes are built the app/baseparser.py way. */
    const legacy: bool
    var result: bool
    var tree: Option<Node>

    /** What the engine reads. */
    ghost function Cfg(): Env
      reads this`reader, this`rules, reader`endpos
    {
      Env(reader.contents, reader.endpos, rules, legacy)
    }

    /** What the engine changes. */
    ghost function Now(): State
      reads this`reader, this`cache, this`nodenum, reader`pos, reader`maxpos
    {
      State(reader.pos, reader.maxpos, cache, nodenum)
    }

    ghost predicate Valid()
      reads this`reader, this`rules, this`cache, this`nodenum, reader
    {
      reader.Valid() && StateOk(Cfg(), Now())
    }

    /** The answer `a` and the current state are the outcome `r` of the engine. */
    ghost predicate Reflects(a: Answer, r: Res)
      reads this`reader, this`cache, this`nodenum, reader`pos, reader`maxpos
    {
      match r
      case Stuck(h) => a == Halted(h)
      case Done(ok, ns, st) => a == Finished(ok, ns) && Now() == st
    }

    ghost predicate ReflectsParse(a: Parsed, r: ParseRes)
      reads this`reader, this`cache, this`nodenum, reader`pos, reader`maxpos
    {
      match r
      case ParseStuck(h) => a == ParseHalted(h)
      case ParseDone(ok, t, st) => a == Parsed(ok, t) && Now() == st
    }

    ghost predicate ReflectsSub(a: SubAnswer, r: SubRes)
      reads this`reader, this`cache, this`nodenum, this`tree, this`rules, reader`pos, reader`maxpos, reader`endpos
    {
      match r
      case SubStuck(h) => a == SubHalted(h)
      case SubDone(ok, results, t, rs, limit, st) =>
        a == SubFinished(ok, results) && tree == Some(t) && rules == rs && reader.endpos == limit && Now() == st
    }

    ghost predicate ReflectsSession(a: Parsed, r: SessionRes)
      reads this`reader, this`cache, this`nodenum, this`tree, this`rules, this`result, reader`pos, reader`maxpos, reader`endpos
    {
      match r
      case SessionStuck(h) => a == ParseHalted(h)
      case SessionDone(ok, t, rs, limit, st) =>
        a == Parsed(ok, t) && result == ok && tree == Some(t) && rules == rs && reader.endpos == limit && Now() == st
    }

    /** A parser of a generated class, before any text is given to it. */
    constructor (rules: Rules, backup: Rules, defs: map<string, Expr>, subtypes: seq<string>, top: string, legacy: bool)
      ensures Valid() && fresh(reader) && reader.contents == ""
      ensures this.rules == rules && this.backup == backup && this.defs == defs && this.subtypes == subtypes
      ensures toptypename == top && this.legacy == legacy
      ensures cache == map[] && nodenum == 0 && !result && tree == None
    {
      this.rules := rules;
      this.backup := backup;
      this.defs := defs;
      this.subtypes := subtypes;
      toptypename := top;
      this.legacy := legacy;
      reader := new Reader("");
      cache := map[];
      nodenum := 0;
      result := false;
      tree := None;
    }

    /** `set_position(reader, s, e)` of a new node: lines and columns of both ends. */
    method SpanOf(s: nat, e: nat) returns (sp: Span)
      requires Valid() && s <= |reader.contents| && e <= |reader.contents|
      modifies reader`linepos
      ensures Valid() && sp == SpanAt(Cfg(), s, e)
    {
      LineColumnMeaning(reader.contents, s);
      LineColumnMeaning(reader.contents, e);
      var a := reader.Pos2LineColumn(s);
      if legacy {
        sp := Span(s, e, a.value.line, a.value.column, 0, 0);
      } else {
        var b := reader.Pos2LineColumn(e);
        sp := Span(s, e, a.value.line, a.value.column, b.value.line, b.value.column);
      }
    }

    /** Runs one expression. */
    method Run(e: Expr, fuel: nat) returns (a: Answer)
      requires Valid()
      modifies this`cache, this`nodenum, reader`pos, reader`maxpos, reader`linepos
      ensures Valid() && Reflects(a, Eval(old(Cfg()), e, old(Now()), fuel))
      decreases fuel, e, 1, 0
    {
      match e
      case Lit(_, _) => a := RunLit(e);
      case Reg(_) => a := RunReg(e);
      case Seq(_) => a := RunSeq(e, fuel);
      case Sel(_) => a := RunSel(e, fuel);
      case Rpt(_, _, _) => a := RunRpt(e, fuel);
      case Opt(_) => a := RunOpt(e, fuel);
      case And(_) => a := RunAnd(e, fuel);
      case Not(_) => a := RunNot(e, fuel);
      case Skip(_) => a := RunSkip(e, fuel);
      case Trm(_) => a := RunTrm(e, fuel);
      case Call(_, _) => a := RunCall(e, fuel);
      case Eof => a := RunEof();
    }

    /** `_l(s, nocase)`. */
    method RunLit(e: Expr) returns (a: Answer)
      requires e.Lit? && Valid()
      modifies reader`pos, reader`maxpos, reader`linepos
      ensures Valid() && Reflects(a, EvalLit(old(Cfg()), e, old(Now())))
    {
      LiteralMatchIff(reader.contents, reader.pos, reader.endpos, e.s, e.nocase);
      ghost var env, st0 := Cfg(), Now();
      var start := reader.GetPosition();
      var m := reader.MatchLiteral(e.s, true, e.nocase);
      if m.None? {
        return Finished(false, []);
      }
      assert Now() == SetPos(st0, st0.pos + |e.s|);
      var stop := reader.GetPosition();
      var sp := SpanOf(start, stop);
      assert EvalLit(env, e, st0) == Done(true, [Terminal(m.value, sp, map[])], Now());
      return Finished(true, [Terminal(m.value, sp, map[])]);
    }

    /** `_r(reg)`. */
    method RunReg(e: Expr) returns (a: Answer)
      requires e.Reg? && Valid()
      modifies reader`pos, reader`maxpos, reader`linepos
      ensures Valid() && Reflects(a, EvalReg(old(Cfg()), e, old(Now())))
    {
      RegexpSeesWindow(reader.contents, reader.pos, reader.endpos, e.p);
      ghost var env, st0 := Cfg(), Now();
      var start := reader.GetPosition();
      var m := reader.MatchRegexp(e.p, true);
      if m.None? {
        return Finished(false, []);
      }
      EvalRegHit(env, e, st0, m.value);
      assert Now() == SetPos(st0, st0.pos + |m.value|);
      var stop := reader.GetPosition();
      var sp := SpanOf(start, stop);
      return Finished(true, [Terminal(m.value, sp, map[])]);
    }

    /** `_seq(*xs)`. */
    method RunSeq(e: Expr, fuel: nat) returns (a: Answer)
      requires e.Seq? && Valid()
      modifies this`cache, this`nodenum, reader`pos, reader`maxpos, reader`linepos
      ensures Valid() && Reflects(a, Eval(old(Cfg()), e, old(Now()), fuel))
      decreases fuel, e, 0, 0
    {
      ghost var env := Cfg();
      ghost var start := Now();
      var pos := reader.GetPosition();
      var ret: seq<Node> := [];
      var i := 0;
      while i < |e.xs|
        invariant 0 <= i <= |e.xs| && Valid() && Cfg() == env && pos == start.pos
        invariant AllBounded(ret, |env.contents|)
        invariant start.pos <= Now().pos && start.maxpos <= Now().maxpos
        invariant start.cache.Keys <= Now().cache.Keys && start.nodenum <= Now().nodenum
        invariant EvalSeq(env, e, i, ret, start, Now(), fuel) == Eval(env, e, start, fuel)
      {
        ghost var s := Now();
        var x := Run(e.xs[i], fuel);
        ghost var r := Eval(env, e.xs[i], s, fuel);
        if x.Halted? {
          assert EvalSeq(env, e, i, ret, start, s, fuel) == r;
          return x;
        }
        if !x.ok {
          var _ := reader.SetPosition(pos);
          assert EvalSeq(env, e, i, ret, start, s, fuel) == Done(false, [], SetPos(r.st, start.pos));
          return Finished(false, []);
        }
        assert EvalSeq(env, e, i, ret, start, s, fuel) == EvalSeq(env, e, i + 1, ret + x.nodes, start, r.st, fuel);
        ret := ret + x.nodes;
        i := i + 1;
      }
      return Finished(true, ret);
    }

    /** `_sel(*xs)`. */
    method RunSel(e: Expr, fuel: nat) returns (a: Answer)
      requires e.Sel? && Valid()
      modifies this`cache, this`nodenum, reader`pos, reader`maxpos, reader`linepos
      ensures Valid() && Reflects(a, Eval(old(Cfg()), e, old(Now()), fuel))
      decreases fuel, e, 0, 0
    {
      ghost var env := Cfg();
      ghost var start := Now();
      var pos := reader.GetPosition();
      var i := 0;
      while i < |e.xs|
        invariant 0 <= i <= |e.xs| && Valid() && Cfg() == env && Now().pos == pos == start.pos
        invariant EvalSel(env, e, i, Now(), fuel) == Eval(env, e, start, fuel)
      {
        var x := Run(e.xs[i], fuel);
        if x.Halted? || x.ok {
          return x;
        }
        var _ := reader.SetPosition(pos);
        i := i + 1;
      }
      return Finished(false, []);
    }

    /** `_rpt(e, min, max)`; each round spends one unit of fuel. */
    method RunRpt(e: Expr, fuel: nat) returns (a: Answer)
      requires e.Rpt? && Valid()
      modifies this`cache, this`nodenum, reader`pos, reader`maxpos, reader`linepos
      ensures Valid() && Reflects(a, Eval(old(Cfg()), e, old(Now()), fuel))
      decreases fuel, e, 0, 0
    {
      ghost var env := Cfg();
      ghost var start := Now();
      var pos := reader.GetPosition();
      var ret: seq<Node> := [];
      var i: nat := 0;
      var f: nat := fuel;
      while e.max < 0 || i < e.max
        invariant Valid() && Cfg() == env && pos == start.pos
        invariant AllBounded(ret, |env.contents|)
        invariant start.pos <= Now().pos && start.maxpos <= Now().maxpos
        invariant start.cache.Keys <= Now().cache.Keys && start.nodenum <= Now().nodenum
        invariant EvalRpt(env, e, i, ret, start, Now(), f) == Eval(env, e, start, fuel)
        decreases f
      {
        if f == 0 {
          return Halted(LoopOutOfFuel);
        }
        ghost var s := Now();
        var x := Run(e.e, f);
        ghost var r := Eval(env, e.e, s, f);
        if x.Halted? {
          assert EvalRpt(env, e, i, ret, start, s, f) == r;
          return x;
        }
        if !x.ok {
          if i >= e.min {
            assert EvalRpt(env, e, i, ret, start, s, f) == Done(true, ret, r.st);
            return Finished(true, ret);
          }
          var _ := reader.SetPosition(pos);
          assert EvalRpt(env, e, i, ret, start, s, f) == Done(false, [], SetPos(r.st, start.pos));
          return Finished(false, []);
        }
        assert EvalRpt(env, e, i, ret, start, s, f) == EvalRpt(env, e, i + 1, ret + x.nodes, start, r.st, f - 1);
        ret := ret + x.nodes;
        i := i + 1;
        f := f - 1;
      }
      return Finished(true, ret);
    }

    /** `_opt(e)`. */
    method RunOpt(e: Expr, fuel: nat) returns (a: Answer)
      requires e.Opt? && Valid()
      modifies this`cache, this`nodenum, reader`pos, reader`maxpos, reader`linepos
      ensures Valid() && Reflects(a, Eval(old(Cfg()), e, old(Now()), fuel))
      decreases fuel, e, 0, 0
    {
      var x := Run(e.e, fuel);
      if x.Halted? {
        return x;
      }
      return Finished(true, x.nodes);
    }

    /** `_and(e)`. */
    method RunAnd(e: Expr, fuel: nat) returns (a: Answer)
      requires e.And? && Valid()
      modifies this`cache, this`nodenum, reader`pos, reader`maxpos, reader`linepos
      ensures Valid() && Reflects(a, Eval(old(Cfg()), e, old(Now()), fuel))
      decreases fuel, e, 0, 0
    {
      var pos := reader.GetPosition();
      var x := Run(e.e, fuel);
      if x.Halted? {
        return x;
      }
      var _ := reader.SetPosition(pos);
      return Finished(x.ok, []);
    }

    /** `_not(e)`. */
    method RunNot(e: Expr, fuel: nat) returns (a: Answer)
      requires e.Not? && Valid()
      modifies this`cache, this`nodenum, reader`pos, reader`maxpos, reader`linepos
      ensures Valid() && Reflects(a, Eval(old(Cfg()), e, old(Now()), fuel))
      decreases fuel, e, 0, 0
    {
      var pos := reader.GetPosition();
      var x := Run(e.e, fuel);
      if x.Halted? {
        return x;
      }
      var _ := reader.SetPosition(pos);
      return Finished(!x.ok, []);
    }

    /** `_skip(e)`. */
    method RunSkip(e: Expr, fuel: nat) returns (a: Answer)
      requires e.Skip? && Valid()
      modifies this`cache, this`nodenum, reader`pos, reader`maxpos, reader`linepos
      ensures Valid() && Reflects(a, Eval(old(Cfg()), e, old(Now()), fuel))
      decreases fuel, e, 0, 0
    {
      var x := Run(e.e, fuel);
      if x.Halted? {
        return x;
      }
      return Finished(x.ok, []);
    }

    /** `_trm(f)`: the texts of the body's nodes joined into one terminal. */
    method RunTrm(e: Expr, fuel: nat) returns (a: Answer)
      requires e.Trm? && Valid()
      modifies this`cache, this`nodenum, reader`pos, reader`maxpos, reader`linepos
      ensures Valid() && Reflects(a, Eval(old(Cfg()), e, old(Now()), fuel))
      decreases fuel, e, 0, 0
    {
      ghost var env, st0 := Cfg(), Now();
      if e.rule !in rules {
        return Halted(NoSuchRule(e.rule));
      }
      if fuel == 0 {
        return Halted(OutOfFuel);
      }
      var x := Run(rules[e.rule], fuel - 1);
      if x.Halted? {
        assert EvalTrm(env, e, st0, fuel) == Stuck(x.why);
        return x;
      }
      if !x.ok {
        assert EvalTrm(env, e, st0, fuel) == Done(false, [], Now());
        return x;
      }
      var ns := x.nodes;
      var termstr := JoinTexts(ns);
      if termstr.None? {
        assert GetStrs(ns, map[]).Err?;
        assert EvalTrm(env, e, st0, fuel) == Stuck(TextUnset);
        return Halted(TextUnset);
      }
      assert GetStrs(ns, map[]) == Ok(termstr.value);
      if |termstr.value| > 0 {
        assert ns != [];
        var sp := SpanOf(ns[0].span.startpos, ns[|ns| - 1].span.endpos);
        assert EvalTrm(env, e, st0, fuel) == Done(true, [Terminal(termstr.value, sp, map[])], Now());
        return Finished(true, [Terminal(termstr.value, sp, map[])]);
      }
      assert EvalTrm(env, e, st0, fuel) == Done(true, [], Now());
      return Finished(true, []);
    }

    /** The loop of `_trm` that joins the texts of the nodes, or None where a text is unset. */
    static method JoinTexts(ns: seq<Node>) returns (r: Option<string>)
      ensures match GetStrs(ns, map[]) case Ok(v) => r == Some(v) case Err(_) => r == None
    {
      var termstr := "";
      var k := 0;
      assert Prefixed(termstr, GetStrs(ns[k..], map[])) == GetStrs(ns, map[]) by {
        assert ns[0..] == ns;
        match GetStrs(ns, map[])
        case Ok(v) => assert "" + v == v;
        case Err(_) =>
      }
      while k < |ns|
        invariant 0 <= k <= |ns|
        invariant Prefixed(termstr, GetStrs(ns[k..], map[])) == GetStrs(ns, map[])
        decreases |ns| - k
      {
        var s := GetStr(ns[k], map[]);
        assert ns[k..][0] == ns[k] && ns[k..][1..] == ns[k + 1..];
        if s.Err? {
          return None;
        }
        match GetStrs(ns[k + 1..], map[]) {
          case Ok(v) => assert termstr + (s.value + v) == (termstr + s.value) + v;
          case Err(_) =>
        }
        termstr := termstr + s.value;
        k := k + 1;
      }
      assert ns[k..] == [] && termstr + "" == termstr;
      return Some(termstr);
    }

    /** `_p(f, typename)`, through `_create_non_terminal` and the memo. */
    method RunCall(e: Expr, fuel: nat) returns (a: Answer)
      requires e.Call? && Valid()
      modifies this`cache, this`nodenum, reader`pos, reader`maxpos, reader`linepos
      ensures Valid() && Reflects(a, Eval(old(Cfg()), e, old(Now()), fuel))
      decreases fuel, e, 0, 0
    {
      ghost var env, st0 := Cfg(), Now();
      var start := reader.GetPosition();
      var k := Key(e.typename, start);
      if k in cache {
        a := Recall(e, fuel);
        return;
      }
      if e.rule !in rules {
        return Halted(NoSuchRule(e.rule));
      }
      if fuel == 0 {
        return Halted(OutOfFuel);
      }
      var x := Run(rules[e.rule], fuel - 1);
      if x.Halted? {
        return x;
      }
      a := Record(e, start, env, st0, fuel, x);
    }

    /** The end of `_create_non_terminal`: a success wrapped in a numbered node, and the outcome memoized. */
    method Record(e: Expr, start: nat, ghost env: Env, ghost st0: State, fuel: nat, x: Answer) returns (a: Answer)
      requires e.Call? && Valid() && Cfg() == env && StateOk(env, st0) && start == st0.pos
      requires Key(e.typename, start) !in st0.cache && e.rule in env.rules && fuel > 0
      requires x.Finished? && Reflects(x, Eval(env, env.rules[e.rule], st0, fuel - 1))
      modifies this`cache, this`nodenum, reader`linepos
      ensures Valid() && Reflects(a, EvalCall(env, e, st0, fuel))
    {
      var k := Key(e.typename, start);
      CallAfterBody(env, e, st0, fuel);
      if x.ok {
        var stop := reader.GetPosition();
        var sp := SpanOf(start, stop);
        var node := NonTerminal(e.typename, x.nodes, sp, nodenum, map[]);
        nodenum := nodenum + 1;
        cache := cache[k := Memo(true, [node])];
        return Finished(true, [node]);
      }
      cache := cache[k := Memo(false, [])];
      return Finished(false, []);
    }

    /** A memo entry answers `_p` at once; a success moves the cursor to the end of the cached node. */
    method Recall(e: Expr, fuel: nat) returns (a: Answer)
      requires e.Call? && Valid() && Key(e.typename, reader.pos) in cache
      modifies reader`pos, reader`maxpos
      ensures Valid() && Reflects(a, EvalCall(old(Cfg()), e, old(Now()), fuel))
    {
      var m := cache[Key(e.typename, reader.pos)];
      if m.ok {
        var _ := reader.SetPosition(m.nodes[0].span.endpos);
        return Finished(true, m.nodes);
      }
      return Finished(false, []);
    }

    /** `_eof()`. */
    method RunEof() returns (a: Answer)
      requires Valid()
      ensures Valid() && Reflects(a, EvalEof(Cfg(), Now()))
    {
      var b := reader.IsEnd();
      return Finished(b, []);
    }

    /** The span of a root or failure node. */
    method OuterSpanOf(s: nat, e: nat) returns (sp: Span)
      requires Valid() && s <= |reader.contents| && e <= |reader.contents|
      modifies reader`linepos
      ensures Valid() && sp == OuterSpan(Cfg(), s, e)
    {
      if legacy {
        sp := Span(s, e, 0, 0, 0, 0);
      } else {
        sp := SpanOf(s, e);
      }
    }

    /** `_parse(f, typename, end_pos)`. */
    method Parse(body: Expr, typename: string, endPos: Option<nat>, fuel: nat) returns (a: Parsed)
      requires Valid()
      modifies this`cache, this`nodenum, reader`pos, reader`maxpos, reader`linepos
      ensures Valid() && ReflectsParse(a, ParseSpec(old(Cfg()), body, typename, endPos, old(Now()), fuel))
    {
      var start := reader.GetPosition();
      var x := Run(body, fuel);
      if x.Halted? {
        return ParseHalted(x.why);
      }
      a := Finish(start, x, typename, endPos);
    }

    /** The end of `_parse`: the body's answer checked against the end position and wrapped. */
    method Finish(start: nat, x: Answer, typename: string, endPos: Option<nat>) returns (a: Parsed)
      requires Valid() && x.Finished? && start <= |reader.contents|
      modifies reader`maxpos, reader`linepos
      ensures Valid() && ReflectsParse(a, ParseOutcome(Cfg(), start, typename, endPos, x.ok, x.nodes, old(Now())))
    {
      var accept := x.ok;
      if accept && endPos.Some? {
        var mp := reader.GetMaxPosition();
        accept := endPos.value == mp;
      }
      if accept {
        var stop := reader.GetPosition();
        var sp := OuterSpanOf(start, stop);
        return Parsed(true, NonTerminal(typename, x.nodes, sp, 0, map[]));
      }
      LineColumnMeaning(reader.contents, reader.maxpos);
      var lc := reader.GetMaxLineColumn();
      var mp := reader.GetMaxPosition();
      var sp := OuterSpanOf(0, mp);
      return Parsed(x.ok, Failure(Message(lc.value), sp, map[]));
    }

    /** `sub_parse(name)`: every node of the type re-parsed with its `s_` rule and spliced in. */
    method SubParse(name: string, fuel: nat) returns (a: SubAnswer)
      requires Valid()
      modifies this`cache, this`nodenum, this`rules, this`tree
      modifies reader`pos, reader`maxpos, reader`linepos, reader`endpos, reader`length
      ensures a.SubFinished? ==> Valid()
      ensures old(tree).None? ==> a == SubHalted(NoTree)
      ensures old(tree).Some? ==>
        ReflectsSub(a, SubParseSpec(reader.contents, legacy, old(rules), backup, name, old(tree).value,
                                    old(reader.endpos), old(Now()), fuel))
    {
      nodenum := 0;
      cache := map[];
      rules := rules + backup;
      if tree.None? {
        return SubHalted(NoTree);
      }
      var root := tree.value;
      var found := SearchNode(root, name, false);
      var sname := SubRuleName(name);
      if sname !in rules {
        return SubHalted(NoSuchRule(sname));
      }
      if found.None? {
        return SubHalted(NotSearchable);
      }
      rules := rules[MainRuleName(name) := rules[sname]];
      var paths := Trees.SearchPaths(root, name, false);
      Trees.SearchPathsAgree(root, name, false);
      a := SubParseNodes(name, found.value, paths, root, fuel);
    }

    /** The loop of `sub_parse` over the nodes found, with the `s_` rule already swapped in. */
    method SubParseNodes(name: string, nodes: seq<Node>, paths: seq<Trees.Path>, root: Node, fuel: nat)
      returns (a: SubAnswer)
      requires Valid() && tree == Some(root) && |nodes| == |paths| && SubRuleName(name) in rules
      modifies this`cache, this`nodenum, this`tree
      modifies reader`pos, reader`maxpos, reader`linepos, reader`endpos, reader`length
      ensures a.SubFinished? ==> Valid()
      ensures ReflectsSub(a, SubParseLoop(reader.contents, legacy, rules, name, nodes, paths, 0, root,
                                          old(reader.endpos), old(Now()), true, [], fuel))
    {
      ghost var spec := SubParseLoop(reader.contents, legacy, rules, name, nodes, paths, 0, root,
                                     reader.endpos, Now(), true, [], fuel);
      var body := rules[SubRuleName(name)];
      var ok := true;
      var results: seq<Node> := [];
      var current := root;
      var i := 0;
      while i < |nodes|
        invariant 0 <= i <= |nodes| && Valid() && tree == Some(current)
        invariant SubParseLoop(reader.contents, legacy, rules, name, nodes, paths, i, current, reader.endpos, Now(),
                               ok, results, fuel) == spec
      {
        var halt;
        halt, ok, results, current := SubParseRound(body, name, nodes, paths, i, current, ok, results, fuel, spec);
        if halt.Some? {
          return SubHalted(halt.value);
        }
        i := i + 1;
      }
      return SubFinished(ok, results);
    }

    /** One round of the loop of `sub_parse`: the node parsed with its end required, its tree spliced in. */
    method SubParseRound(body: Expr, name: string, nodes: seq<Node>, paths: seq<Trees.Path>, i: nat, current: Node,
                         ok: bool, results: seq<Node>, fuel: nat, ghost spec: SubRes)
      returns (halt: Option<Halt>, okAfter: bool, resultsAfter: seq<Node>, after: Node)
      requires Valid() && tree == Some(current) && |nodes| == |paths| && i < |nodes|
      requires SubRuleName(name) in rules && body == rules[SubRuleName(name)]
      requires spec == SubParseLoop(reader.contents, legacy, rules, name, nodes, paths, i, current, reader.endpos, Now(),
                                    ok, results, fuel)
      modifies this`cache, this`nodenum, this`tree
      modifies reader`pos, reader`maxpos, reader`linepos, reader`endpos, reader`length
      ensures halt.Some? ==> spec == SubStuck(halt.value)
      ensures halt.None? ==> Valid() && tree == Some(after)
      ensures halt.None? ==>
        SubParseLoop(reader.contents, legacy, rules, name, nodes, paths, i + 1, after, reader.endpos, Now(),
                     okAfter, resultsAfter, fuel) == spec
    {
      ghost var c, limit, st := reader.contents, reader.endpos, Now();
      ghost var s, e := nodes[i].span.startpos, nodes[i].span.endpos;
      LoopHalts(c, legacy, rules, name, nodes, paths, i, current, limit, st, ok, results, fuel);
      var p := ParseNode(body, name, nodes[i], fuel);
      if p.ParseHalted? {
        return Some(p.why), ok, results, current;
      }
      ghost var spec := ParseSpec(Env(c, e, rules, legacy), body, name, Some(e), st.(pos := s, maxpos := s), fuel);
      assert spec.ParseDone? && spec.tree == p.tree && spec.ok == p.ok && spec.st == Now();
      if paths[i] == [] {
        return Some(NoParent), ok, results, current;
      }
      LoopGoesOn(c, legacy, rules, name, nodes, paths, i, current, limit, st, ok, results, fuel);
      assert reader.contents == c && reader.endpos == e;
      after := Trees.ReplaceAt(current, paths[i], p.tree);
      tree := Some(after);
      return None, ok && p.ok, results + [p.tree], after;
    }

    /** One round of the `sub_parse` loop: the reader limited to the node, then `_parse` with its end required. */
    method ParseNode(body: Expr, name: string, node: Node, fuel: nat) returns (p: Parsed)
      requires Valid()
      modifies this`cache, this`nodenum, reader`pos, reader`maxpos, reader`linepos, reader`endpos, reader`length
      ensures !p.ParseHalted? ==> Valid()
      ensures var s, e := node.span.startpos, node.span.endpos;
        if s > |reader.contents| || e > |reader.contents| then p == ParseHalted(PositionError)
        else reader.endpos == e
             && ReflectsParse(p, ParseSpec(Env(reader.contents, e, rules, legacy), body, name, Some(e),
                                           old(Now()).(pos := s, maxpos := s), fuel))
    {
      ghost var st0 := Now();
      var o := reader.PartialReposition(node.span.startpos, node.span.endpos);
      if o.Raised? {
        return ParseHalted(PositionError);
      }
      assert Now() == st0.(pos := node.span.startpos, maxpos := node.span.startpos);
      assert Cfg() == Env(reader.contents, node.span.endpos, rules, legacy);
      p := Parse(body, name, Some(node.span.endpos), fuel);
    }

    /** `parse_string(text, rootexp, typename)`, with the root expression named by its rule. */
    method ParseString(text: string, rule: string, typename: string, fuel: nat) returns (a: Parsed)
      modifies this`nodenum, this`cache, this`rules, this`reader, this`result, this`tree
      ensures rule in old(rules) ==> fresh(reader) && reader.contents == text
      ensures ReflectsSession(a, ParseStringSpec(old(rules), backup, subtypes, toptypename, legacy,
                                                 text, rule, typename, fuel))
    {
      if rule !in rules {
        return ParseHalted(NoSuchRule(rule));
      }
      ghost var rules0 := rules;
      var body := rules[rule];
      Begin(text);
      a := ParseStringOnReader(text, body, typename, fuel, rules0);
    }

    /**
     * The body of `parse_string` once the reader holds the text and the
     * tables are initialized; `body` is the root expression, taken before
     * `__initialize`.
     */
    method ParseStringOnReader(text: string, body: Expr, typename: string, fuel: nat, ghost rules0: Rules)
      returns (a: Parsed)
      requires Valid() && reader.contents == text
      requires Cfg() == Env(text, -1, Initialize(rules0, backup), legacy) && Now() == Fresh
      modifies this`nodenum, this`cache, this`rules, this`result, this`tree
      modifies reader`pos, reader`maxpos, reader`linepos, reader`endpos, reader`length
      ensures var env := Env(text, -1, Initialize(rules0, backup), legacy);
        ReflectsSession(a, match ParseSpec(env, body, if typename == "" then toptypename else typename, None, Fresh, fuel)
                           case ParseStuck(h) => SessionStuck(h)
                           case ParseDone(ok, t, st) => SubParseAll(text, legacy, env.rules, backup, subtypes, 0, ok, t, -1, st, fuel))
    {
      var tname := if typename == "" then toptypename else typename;
      var p := Parse(body, tname, None, fuel);
      if p.ParseHalted? {
        return p;
      }
      ghost var st := Now();
      assert ParseSpec(Env(text, -1, Initialize(rules0, backup), legacy), body, tname, None, Fresh, fuel)
             == ParseDone(p.ok, p.tree, st);
      result := p.ok;
      tree := Some(p.tree);
      a := SubParseEach(fuel);
    }

    /** `__initialize` and a new `StringReader` over `text`: memo and counter emptied, `p_` rules restored. */
    method Begin(text: string)
      modifies this`nodenum, this`cache, this`rules, this`reader
      ensures fresh(reader) && reader.contents == text && Valid()
      ensures Cfg() == Env(text, -1, Initialize(old(rules), backup), legacy) && Now() == Fresh
    {
      nodenum := 0;
      cache := map[];
      rules := Initialize(rules, backup);
      reader := new Reader(text);
    }

    /** The sub-parses of `parse_string` and `parse_file`, one per sub-definition type. */
    method SubParseEach(fuel: nat) returns (a: Parsed)
      requires Valid() && tree.Some?
      modifies this`cache, this`nodenum, this`rules, this`tree
      modifies reader`pos, reader`maxpos, reader`linepos, reader`endpos, reader`length
      ensures ReflectsSession(a, SubParseAll(reader.contents, legacy, old(rules), backup, subtypes, 0,
                                             result, old(tree).value, old(reader.endpos), old(Now()), fuel))
    {
      ghost var spec := SubParseAll(reader.contents, legacy, rules, backup, subtypes, 0, result, tree.value,
                                    reader.endpos, Now(), fuel);
      var j := 0;
      while j < |subtypes|
        invariant 0 <= j <= |subtypes| && Valid() && tree.Some?
        invariant SubParseAll(reader.contents, legacy, rules, backup, subtypes, j, result, tree.value,
                              reader.endpos, Now(), fuel) == spec
      {
        var why := SubParseType(j, fuel);
        if why.Some? {
          return ParseHalted(why.value);
        }
        j := j + 1;
      }
      return Parsed(result, tree.value);
    }

    /** The `sub_parse` of the `j`-th sub-definition type, as one step of the sub-parses. */
    method SubParseType(j: nat, fuel: nat) returns (why: Option<Halt>)
      requires Valid() && tree.Some? && j < |subtypes|
      modifies this`cache, this`nodenum, this`rules, this`tree
      modifies reader`pos, reader`maxpos, reader`linepos, reader`endpos, reader`length
      ensures why.Some? ==>
        old(SubParseAll(reader.contents, legacy, rules, backup, subtypes, j, result, tree.value, reader.endpos, Now(), fuel))
        == SessionStuck(why.value)
      ensures why.None? ==> Valid() && tree.Some?
      ensures why.None? ==>
        SubParseAll(reader.contents, legacy, rules, backup, subtypes, j + 1, result, tree.value, reader.endpos, Now(), fuel)
        == old(SubParseAll(reader.contents, legacy, rules, backup, subtypes, j, result, tree.value, reader.endpos, Now(), fuel))
    {
      SubParseAllStep(reader.contents, legacy, rules, backup, subtypes, j, result, tree.value, reader.endpos, Now(), fuel);
      var s := SubParse(subtypes[j], fuel);
      if s.SubHalted? {
        return Some(s.why);
      }
      return None;
    }

    /** `parse_file(filepath, encoding, typename)` on the file's text. */
    method ParseFile(text: string, typename: string, fuel: nat) returns (a: Option<Parsed>)
      modifies this`nodenum, this`cache, this`rules, this`reader, this`result, this`tree
      ensures fresh(reader) && reader.contents == text
      ensures FileAnswer(a, ParseFileSpec(old(rules), backup, defs, subtypes, toptypename, legacy, text, typename, fuel))
    {
      ghost var rules0 := rules;
      Begin(text);
      a := ParseFileOnReader(text, typename, fuel, rules0);
    }

    /** What `parse_file` returns for the outcome `r`: None for the caught RecursionError. */
    ghost predicate FileAnswer(a: Option<Parsed>, r: FileRes)
    {
      match r
      case FileStuck(h) => a == Some(ParseHalted(h))
      case FileDone(ok, t) => if t.None? then a == None else a == Some(Parsed(ok, t.value))
    }

    /** The body of `parse_file` once the reader holds the text and the tables are initialized. */
    method ParseFileOnReader(text: string, typename: string, fuel: nat, ghost rules0: Rules) returns (a: Option<Parsed>)
      requires Valid() && reader.contents == text
      requires Cfg() == Env(text, -1, Initialize(rules0, backup), legacy) && Now() == Fresh
      modifies this`nodenum, this`cache, this`rules, this`result, this`tree
      modifies reader`pos, reader`maxpos, reader`linepos, reader`endpos, reader`length
      ensures FileAnswer(a, ParseFileSpec(rules0, backup, defs, subtypes, toptypename, legacy, text, typename, fuel))
    {
      var tname := if typename == "" then toptypename else typename;
      if tname !in defs {
        return Some(ParseHalted(NoSuchType(tname)));
      }
      var p := Parse(defs[tname], tname, None, fuel);
      if p.ParseHalted? {
        if p.why == OutOfFuel {
          return None;
        }
        return Some(p);
      }
      ghost var st := Now();
      assert ParseSpec(Env(text, -1, Initialize(rules0, backup), legacy), defs[tname], tname, None, Fresh, fuel)
             == ParseDone(p.ok, p.tree, st);
      result := p.ok;
      tree := Some(p.tree);
      if !result {
        return Some(p);
      }
      var s := SubParseEach(fuel);
      return Some(s);
    }
  }
}
