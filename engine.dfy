/**
 * The combinator engine of tacparser/baseparser.py (and its older copy in
 * app/baseparser.py) as a specification: a parsing expression is data, and
 * `Eval` says what running it against the shared reader and the memo does.
 *
 * A generated parser is a rule table.  Each `p_xxx` method of a parser
 * class is an entry from the method's name to the expression it returns;
 * `self._p(self.p_xxx, "Xxx")` is `Call("p_xxx", "Xxx")`,
 * `self._trm(self.t_xxx)` is `Trm("t_xxx")` and `self._p(self._eof, "_EOF")`
 * is `Call("_eof", "_EOF")` with `"_eof"` bound to `Eof`.
 *
 * `_rpt` has no progress check, so an evaluation need not end; every rule
 * entry and every repetition round spends one unit of fuel.  Running out on
 * a rule entry is `OutOfFuel`, the nesting Python reports as RecursionError;
 * running out on a repetition round is `LoopOutOfFuel`: `_rpt` is a `while`
 * loop that does not deepen the stack, so Python raises nothing there and
 * keeps looping.
 */
module Engine {
  import opened Text
  import opened Patterns
  import opened Nodes
  import opened Reading

  datatype Expr =
    | Lit(s: string, nocase: bool)           // _l(s, nocase)
    | Reg(p: Pattern)                        // _r(reg)
    | Seq(xs: seq<Expr>)                     // _seq(*xs)
    | Sel(xs: seq<Expr>)                     // _sel(*xs)
    | Rpt(e: Expr, min: int, max: int)       // _rpt(e, min, max); max < 0 is unbounded
    | Opt(e: Expr)                           // _opt(e)
    | And(e: Expr)                           // _and(e)
    | Not(e: Expr)                           // _not(e)
    | Skip(e: Expr)                          // _skip(e)
    | Trm(rule: string)                      // _trm(self.<rule>)
    | Call(rule: string, typename: string)   // _p(self.<rule>, typename)
    | Eof                                    // _eof()

  /** The parser object's rule methods, by attribute name. */
  type Rules = map<string, Expr>

  /** A memo key: `(typename, startpos)`. */
  datatype Key = Key(typename: string, start: nat)

  /** A memo entry: `(True, (node,))` or `(False, ())`. */
  datatype Memo = Memo(ok: bool, nodes: seq<Node>)

  /** What evaluation changes: the reader's cursor and high-water mark, the memo and the node counter. */
  datatype State = State(pos: nat, maxpos: nat, cache: map<Key, Memo>, nodenum: nat)

  /**
   * What evaluation reads: the text, the reader's end limit, the rule table
   * and whether nodes are built the app/baseparser.py way (start line and
   * column only).
   */
  datatype Env = Env(contents: string, limit: int, rules: Rules, legacy: bool)

  /** Why an evaluation stopped without an answer. */
  datatype Halt =
    | OutOfFuel                 // RecursionError: rule calls nested deeper than the fuel
    | LoopOutOfFuel             // a repetition still going when the fuel ran out: no exception, the loop goes on
    | NoSuchRule(name: string)  // AttributeError: the parser has no such method
    | NoSuchType(name: string)  // KeyError: `def_dict` has no such type name
    | TextUnset                 // get_str raised on a node without text
    | PositionError             // the reader raised ValueError
    | NoParent                  // AttributeError: the root has no parent to splice into
    | NotSearchable             // TypeError: iterating the None a failure node answers
    | NoTree                    // AttributeError: `sub_parse` before any parse searches the tree None

  datatype Res = Done(ok: bool, nodes: seq<Node>, st: State) | Stuck(why: Halt)

  predicate Bounded(n: Node, len: nat)
  {
    n.span.startpos <= len && n.span.endpos <= len
  }

  predicate AllBounded(ns: seq<Node>, len: nat)
  {
    forall i :: 0 <= i < |ns| ==> Bounded(ns[i], len)
  }

  /**
   * What the memo holds: a success entry is one non-terminal that starts at
   * the key's position and ends inside the text; a failure entry is empty.
   */
  predicate CacheOk(cache: map<Key, Memo>, len: nat)
  {
    forall k :: k in cache ==>
      if cache[k].ok then
        |cache[k].nodes| == 1 && cache[k].nodes[0].NonTerminal? && cache[k].nodes[0].typ == k.typename
        && cache[k].nodes[0].span.startpos == k.start <= cache[k].nodes[0].span.endpos <= len
      else cache[k].nodes == []
  }

  predicate StateOk(env: Env, st: State)
  {
    env.limit <= |env.contents| && st.pos <= st.maxpos <= |env.contents| && CacheOk(st.cache, |env.contents|)
  }

  /** What every evaluation guarantees. */
  predicate Post(env: Env, st: State, r: Res)
  {
    r.Done? ==>
      StateOk(env, r.st) && AllBounded(r.nodes, |env.contents|)
      && st.maxpos <= r.st.maxpos && st.cache.Keys <= r.st.cache.Keys && st.nodenum <= r.st.nodenum
      && (if r.ok then st.pos <= r.st.pos else r.nodes == [] && r.st.pos == st.pos)
  }

  /** `set_position(n)`: the cursor moves and the high-water mark follows. */
  function SetPos(st: State, n: nat): State
  {
    st.(pos := n, maxpos := Max(st.maxpos, n))
  }

  /** The span `set_position(reader, s, e)` gives a node; the app copy records the start line and column only. */
  function SpanAt(env: Env, s: nat, e: nat): Span
    requires s <= |env.contents| && e <= |env.contents|
  {
    var (sl, sc) := LineOf(env.contents, s);
    var (el, ec) := LineOf(env.contents, e);
    if env.legacy then Span(s, e, sl, sc, 0, 0) else Span(s, e, sl, sc, el, ec)
  }

  // ---------------------------------------------------------------------------
  // Evaluation

  function Eval(env: Env, e: Expr, st: State, fuel: nat): (r: Res)
    requires StateOk(env, st)
    ensures Post(env, st, r)
    decreases fuel, e, 1, 0
  {
    match e
    case Lit(_, _) => EvalLit(env, e, st)
    case Reg(_) => EvalReg(env, e, st)
    case Seq(_) => EvalSeq(env, e, 0, [], st, st, fuel)
    case Sel(_) => EvalSel(env, e, 0, st, fuel)
    case Rpt(_, _, _) => EvalRpt(env, e, 0, [], st, st, fuel)
    case Opt(_) => EvalOpt(env, e, st, fuel)
    case And(_) => EvalAnd(env, e, st, fuel)
    case Not(_) => EvalNot(env, e, st, fuel)
    case Skip(_) => EvalSkip(env, e, st, fuel)
    case Trm(_) => EvalTrm(env, e, st, fuel)
    case Call(_, _) => EvalCall(env, e, st, fuel)
    case Eof => EvalEof(env, st)
  }

  /** `_l`: a literal match becomes one terminal spanning what was read. */
  function EvalLit(env: Env, e: Expr, st: State): (r: Res)
    requires e.Lit? && StateOk(env, st)
    ensures Post(env, st, r) && r.Done?
    ensures r.ok <==> LiteralMatch(env.contents, st.pos, env.limit, e.s, e.nocase).Some?
    ensures r.ok ==> r.st.pos == st.pos + |e.s| && |r.nodes| == 1 && r.nodes[0].Terminal?
                     && r.nodes[0].termstr == LiteralMatch(env.contents, st.pos, env.limit, e.s, e.nocase).value
                     && r.nodes[0].span.startpos == st.pos && r.nodes[0].span.endpos == r.st.pos
    ensures r.st.cache == st.cache && r.st.nodenum == st.nodenum
  {
    LiteralMatchIff(env.contents, st.pos, env.limit, e.s, e.nocase);
    match LiteralMatch(env.contents, st.pos, env.limit, e.s, e.nocase)
    case None => Done(false, [], st)
    case Some(m) =>
      var st1 := SetPos(st, st.pos + |e.s|);
      Done(true, [Terminal(m, SpanAt(env, st.pos, st1.pos), map[])], st1)
  }

  /** `_r`: a regular-expression match becomes one terminal spanning the matched text. */
  function EvalReg(env: Env, e: Expr, st: State): (r: Res)
    requires e.Reg? && StateOk(env, st)
    ensures Post(env, st, r) && r.Done?
    ensures r.ok <==> RegexpMatch(env.contents, st.pos, env.limit, e.p).Some?
    ensures r.ok ==> |r.nodes| == 1 && r.nodes[0].Terminal?
                     && r.nodes[0].termstr == env.contents[st.pos..r.st.pos]
                     && r.nodes[0].span.startpos == st.pos && r.nodes[0].span.endpos == r.st.pos
    ensures r.st.cache == st.cache && r.st.nodenum == st.nodenum
  {
    RegexpSeesWindow(env.contents, st.pos, env.limit, e.p);
    match RegexpMatch(env.contents, st.pos, env.limit, e.p)
    case None => Done(false, [], st)
    case Some(m) =>
      var st1 := SetPos(st, st.pos + |m|);
      Done(true, [Terminal(m, SpanAt(env, st.pos, st1.pos), map[])], st1)
  }

  /** A regular expression that matches `m` consumes it and yields one terminal. */
  lemma EvalRegHit(env: Env, e: Expr, st: State, m: string)
    requires e.Reg? && StateOk(env, st) && RegexpMatch(env.contents, st.pos, env.limit, e.p) == Some(m)
    ensures st.pos + |m| <= |env.contents|
    ensures EvalReg(env, e, st)
            == Done(true, [Terminal(m, SpanAt(env, st.pos, st.pos + |m|), map[])], SetPos(st, st.pos + |m|))
  {
    RegexpSeesWindow(env.contents, st.pos, env.limit, e.p);
  }

  /**
   * `_seq` from element `i` on, with the nodes `acc` gathered so far: the
   * first failure resets the cursor to the start and drops everything.
   */
  function EvalSeq(env: Env, e: Expr, i: nat, acc: seq<Node>, start: State, st: State, fuel: nat): (r: Res)
    requires e.Seq? && i <= |e.xs| && StateOk(env, start) && StateOk(env, st) && AllBounded(acc, |env.contents|)
    requires start.pos <= st.pos && start.maxpos <= st.maxpos && start.cache.Keys <= st.cache.Keys
    requires start.nodenum <= st.nodenum
    ensures Post(env, start, r)
    ensures r.Done? && r.ok ==> |acc| <= |r.nodes| && r.nodes[..|acc|] == acc
    decreases fuel, e, 0, |e.xs| - i
  {
    if i == |e.xs| then Done(true, acc, st)
    else
      match Eval(env, e.xs[i], st, fuel)
      case Stuck(h) => Stuck(h)
      case Done(ok, ns, st1) =>
        if !ok then Done(false, [], SetPos(st1, start.pos))
        else
          var r := EvalSeq(env, e, i + 1, acc + ns, start, st1, fuel);
          assert r.Done? && r.ok ==> r.nodes[..|acc|] == (acc + ns)[..|acc|];
          r
  }

  /**
   * `_sel` from alternative `i` on: the first success wins; after each
   * failure the cursor goes back to where the choice started.
   */
  function EvalSel(env: Env, e: Expr, i: nat, st: State, fuel: nat): (r: Res)
    requires e.Sel? && i <= |e.xs| && StateOk(env, st)
    ensures Post(env, st, r)
    ensures r.Done? && !r.ok ==> r.st.pos == st.pos
    decreases fuel, e, 0, |e.xs| - i
  {
    if i == |e.xs| then Done(false, [], st)
    else
      match Eval(env, e.xs[i], st, fuel)
      case Stuck(h) => Stuck(h)
      case Done(ok, ns, st1) =>
        if ok then Done(true, ns, st1)
        else EvalSel(env, e, i + 1, SetPos(st1, st.pos), fuel)
  }

  /**
   * `_rpt` after `i` rounds, the nodes `acc` gathered so far and the state
   * `start` it began in.  It stops after `max` rounds (never, for a
   * negative `max`) or at the first failing round, and fails only when that
   * happens before `min` rounds, resetting the cursor.
   */
  function EvalRpt(env: Env, e: Expr, i: nat, acc: seq<Node>, start: State, st: State, fuel: nat): (r: Res)
    requires e.Rpt? && StateOk(env, start) && StateOk(env, st) && AllBounded(acc, |env.contents|)
    requires start.pos <= st.pos && start.maxpos <= st.maxpos && start.cache.Keys <= st.cache.Keys
    requires start.nodenum <= st.nodenum
    ensures Post(env, start, r)
    ensures r.Done? && !r.ok ==> i < e.min
    ensures r.Done? && r.ok ==> |acc| <= |r.nodes| && r.nodes[..|acc|] == acc
    ensures r.Done? && i >= e.min ==> r.ok
    decreases fuel, e, 0, 0
  {
    if e.max >= 0 && i >= e.max then Done(true, acc, st)
    else if fuel == 0 then Stuck(LoopOutOfFuel)
    else
      match Eval(env, e.e, st, fuel)
      case Stuck(h) => Stuck(h)
      case Done(ok, ns, st1) =>
        if !ok then
          if i >= e.min then Done(true, acc, st1) else Done(false, [], SetPos(st1, start.pos))
        else
          var r := EvalRpt(env, e, i + 1, acc + ns, start, st1, fuel - 1);
          assert r.Done? && r.ok ==> r.nodes[..|acc|] == (acc + ns)[..|acc|];
          r
  }

  /** `_opt`: never fails; the inner nodes and state pass through, none when it failed. */
  function EvalOpt(env: Env, e: Expr, st: State, fuel: nat): (r: Res)
    requires e.Opt? && StateOk(env, st)
    ensures Post(env, st, r)
    ensures r.Done? ==> r.ok
    ensures r.Done? <==> Eval(env, e.e, st, fuel).Done?
    ensures r.Done? ==> r.nodes == Eval(env, e.e, st, fuel).nodes && r.st == Eval(env, e.e, st, fuel).st
    decreases fuel, e, 0, 0
  {
    match Eval(env, e.e, st, fuel)
    case Stuck(h) => Stuck(h)
    case Done(_, ns, st1) => Done(true, ns, st1)
  }

  /** `_and`: the inner outcome, no nodes, and the cursor back where it was. */
  function EvalAnd(env: Env, e: Expr, st: State, fuel: nat): (r: Res)
    requires e.And? && StateOk(env, st)
    ensures Post(env, st, r)
    ensures r.Done? ==> r.nodes == [] && r.st.pos == st.pos
    ensures r.Done? <==> Eval(env, e.e, st, fuel).Done?
    ensures r.Done? ==> r.ok == Eval(env, e.e, st, fuel).ok
    decreases fuel, e, 0, 0
  {
    match Eval(env, e.e, st, fuel)
    case Stuck(h) => Stuck(h)
    case Done(ok, _, st1) => Done(ok, [], SetPos(st1, st.pos))
  }

  /** `_not`: the negated inner outcome, no nodes, and the cursor back where it was. */
  function EvalNot(env: Env, e: Expr, st: State, fuel: nat): (r: Res)
    requires e.Not? && StateOk(env, st)
    ensures Post(env, st, r)
    ensures r.Done? ==> r.nodes == [] && r.st.pos == st.pos
    ensures r.Done? <==> Eval(env, e.e, st, fuel).Done?
    ensures r.Done? ==> r.ok == !Eval(env, e.e, st, fuel).ok
    decreases fuel, e, 0, 0
  {
    match Eval(env, e.e, st, fuel)
    case Stuck(h) => Stuck(h)
    case Done(ok, _, st1) => Done(!ok, [], SetPos(st1, st.pos))
  }

  /** `_skip`: the inner outcome and the input it consumed, without its nodes. */
  function EvalSkip(env: Env, e: Expr, st: State, fuel: nat): (r: Res)
    requires e.Skip? && StateOk(env, st)
    ensures Post(env, st, r)
    ensures r.Done? ==> r.nodes == []
    ensures r.Done? <==> Eval(env, e.e, st, fuel).Done?
    ensures r.Done? ==> r.ok == Eval(env, e.e, st, fuel).ok && r.st == Eval(env, e.e, st, fuel).st
    decreases fuel, e, 0, 0
  {
    match Eval(env, e.e, st, fuel)
    case Stuck(h) => Stuck(h)
    case Done(ok, _, st1) => Done(ok, [], st1)
  }

  /**
   * `_trm`: the rule's body runs without the memo, and the texts of its
   * nodes are fused into one terminal from the first node's start to the
   * last node's end, or into nothing when that text is empty.
   */
  function EvalTrm(env: Env, e: Expr, st: State, fuel: nat): (r: Res)
    requires e.Trm? && StateOk(env, st)
    ensures Post(env, st, r)
    ensures r.Done? ==> |r.nodes| <= 1
    ensures r.Done? && |r.nodes| == 1 ==> r.nodes[0].Terminal? && r.nodes[0].termstr != ""
    ensures r.Done? ==> e.rule in env.rules && fuel > 0 && Eval(env, env.rules[e.rule], st, fuel - 1).Done?
    ensures r.Done? ==> r.ok == Eval(env, env.rules[e.rule], st, fuel - 1).ok
                        && r.st == Eval(env, env.rules[e.rule], st, fuel - 1).st
    ensures r.Done? && r.ok ==>
      var b := Eval(env, env.rules[e.rule], st, fuel - 1).nodes;
      GetStrs(b, map[]).Ok? && (r.nodes == [] <==> GetStrs(b, map[]).value == "")
      && (r.nodes != [] ==> b != [] && r.nodes[0].termstr == GetStrs(b, map[]).value
                            && r.nodes[0].span.startpos == b[0].span.startpos
                            && r.nodes[0].span.endpos == b[|b| - 1].span.endpos)
    decreases fuel, e, 0, 0
  {
    if e.rule !in env.rules then Stuck(NoSuchRule(e.rule))
    else if fuel == 0 then Stuck(OutOfFuel)
    else
      match Eval(env, env.rules[e.rule], st, fuel - 1)
      case Stuck(h) => Stuck(h)
      case Done(ok, ns, st1) =>
        if !ok then Done(false, [], st1)
        else
          match GetStrs(ns, map[])
          case Err(_) => Stuck(TextUnset)
          case Ok(t) =>
            if |t| > 0 then
              assert ns != [];
              Done(true, [Terminal(t, SpanAt(env, ns[0].span.startpos, ns[|ns| - 1].span.endpos), map[])], st1)
            else Done(true, [], st1)
  }

  /**
   * `_p` and `_create_non_terminal`: a memo entry for `(typename, cursor)`
   * answers at once (a success moves the cursor to the cached node's end);
   * otherwise the rule's body runs, a success is wrapped in a non-terminal
   * numbered after everything built inside it, and the outcome is recorded.
   */
  function EvalCall(env: Env, e: Expr, st: State, fuel: nat): (r: Res)
    requires e.Call? && StateOk(env, st)
    ensures Post(env, st, r)
    ensures r.Done? ==> Key(e.typename, st.pos) in r.st.cache
                        && r.st.cache[Key(e.typename, st.pos)] == Memo(r.ok, r.nodes)
    ensures r.Done? && r.ok ==> |r.nodes| == 1 && r.nodes[0].NonTerminal? && r.nodes[0].typ == e.typename
                                 && r.nodes[0].span.startpos == st.pos && r.nodes[0].span.endpos == r.st.pos
    decreases fuel, e, 0, 0
  {
    var k := Key(e.typename, st.pos);
    if k in st.cache then
      var m := st.cache[k];
      if m.ok then Done(true, m.nodes, SetPos(st, m.nodes[0].span.endpos)) else Done(false, [], st)
    else if e.rule !in env.rules then Stuck(NoSuchRule(e.rule))
    else if fuel == 0 then Stuck(OutOfFuel)
    else
      match Eval(env, env.rules[e.rule], st, fuel - 1)
      case Stuck(h) => Stuck(h)
      case Done(ok, ns, st1) =>
        if ok then
          var node := NonTerminal(e.typename, ns, SpanAt(env, st.pos, st1.pos), st1.nodenum, map[]);
          Done(true, [node], st1.(nodenum := st1.nodenum + 1, cache := st1.cache[k := Memo(true, [node])]))
        else Done(false, [], st1.(cache := st1.cache[k := Memo(false, [])]))
  }

  /** `_eof`: succeeds exactly at the end of the whole text; the end limit does not count. */
  function EvalEof(env: Env, st: State): (r: Res)
    requires StateOk(env, st)
    ensures Post(env, st, r) && r.Done? && r.nodes == [] && r.st == st
    ensures r.ok <==> st.pos == |env.contents|
  {
    if st.pos >= |env.contents| then Done(true, [], st) else Done(false, [], st)
  }
}
