/**
 * A generated parser class as data.  Each `p_xxx` method of the class
 * returns a combinator expression and has no other effect, so the class is
 * a table from method names to expressions; the parser object looks its
 * rules up by attribute name.  A table is closed when every rule its
 * expressions call, through `_p` or `_trm`, is one of its names; over a
 * closed table evaluation never stops on a missing method.
 */
module Grammars {
  import opened Text
  import opened Nodes
  import opened Engine
  import Driver

  /** The rule methods in declaration order: the method's name and the expression it returns. */
  type Table = seq<(string, Expr)>

  /** The names a table defines. */
  function Names(t: Table): (r: set<string>)
    ensures forall i :: 0 <= i < |t| ==> t[i].0 in r
    ensures forall k :: k in r ==> exists i :: 0 <= i < |t| && t[i].0 == k
  {
    if t == [] then {} else {t[0].0} + Names(t[1..])
  }

  /**
   * The parser object's attributes: each name bound to the expression of its
   * entry; of two entries with one name the later wins, as a later `def` in a
   * class body replaces an earlier one.
   */
  function RulesOf(t: Table): Rules
  {
    if t == [] then map[] else RulesOf(t[..|t| - 1])[t[|t| - 1].0 := t[|t| - 1].1]
  }

  /** The attributes are exactly the names of the table. */
  lemma {:induction false} RulesOfKeys(t: Table)
    ensures RulesOf(t).Keys == Names(t)
  {
    if t != [] {
      var n := |t| - 1;
      RulesOfKeys(t[..n]);
      NamesAppend(t[..n], [t[n]]);
      assert t[..n] + [t[n]] == t;
      assert Names([t[n]]) == {t[n].0} by {
        assert [t[n]][1..] == [];
      }
    }
  }

  /** Every attribute is bound to the expression of an entry with its name. */
  lemma {:induction false} RulesOfEntry(t: Table, k: string)
    requires k in RulesOf(t)
    ensures exists i :: 0 <= i < |t| && t[i] == (k, RulesOf(t)[k])
  {
    var n := |t| - 1;
    if k != t[n].0 {
      RulesOfEntry(t[..n], k);
      var j :| 0 <= j < |t[..n]| && t[..n][j] == (k, RulesOf(t[..n])[k]);
      assert t[j] == (k, RulesOf(t)[k]);
    } else {
      assert t[n] == (k, RulesOf(t)[k]);
    }
  }

  /** A name the second part defines is bound as the second part binds it. */
  lemma {:induction false} RulesOfAppend(a: Table, b: Table, k: string)
    requires k in RulesOf(b)
    ensures k in RulesOf(a + b) && RulesOf(a + b)[k] == RulesOf(b)[k]
    decreases |b|
  {
    var n := |b| - 1;
    assert (a + b)[..|a + b| - 1] == a + b[..n];
    if k != b[n].0 {
      RulesOfAppend(a, b[..n], k);
    }
  }

  /** The names of a concatenation are those of its parts. */
  lemma {:induction false} NamesAppend(a: Table, b: Table)
    ensures Names(a + b) == Names(a) + Names(b)
  {
    if a == [] {
      assert a + b == b;
    } else {
      assert (a + b)[0] == a[0];
      assert (a + b)[1..] == a[1..] + b;
      NamesAppend(a[1..], b);
    }
  }

  // ---------------------------------------------------------------------------
  // The rules an expression calls

  /** Every rule the expression calls, by `_p` or `_trm`, is among `names`. */
  predicate CallsOnly(e: Expr, names: set<string>)
    decreases e, 1, 0
  {
    match e
    case Seq(_) => AllCallsOnly(e, 0, names)
    case Sel(_) => AllCallsOnly(e, 0, names)
    case Rpt(x, _, _) => CallsOnly(x, names)
    case Opt(x) => CallsOnly(x, names)
    case And(x) => CallsOnly(x, names)
    case Not(x) => CallsOnly(x, names)
    case Skip(x) => CallsOnly(x, names)
    case Trm(rule) => rule in names
    case Call(rule, _) => rule in names
    case _ => true
  }

  /** The elements of a sequence or a choice from `i` on call only rules among `names`. */
  predicate AllCallsOnly(e: Expr, i: nat, names: set<string>)
    requires e.Seq? || e.Sel?
    decreases e, 0, |e.xs| - i
  {
    i >= |e.xs| || (CallsOnly(e.xs[i], names) && AllCallsOnly(e, i + 1, names))
  }

  /** Every entry's expression calls only rules among `names`. */
  predicate TableClosed(t: Table, names: set<string>)
  {
    forall j :: 0 <= j < |t| ==> CallsOnly(t[j].1, names)
  }

  /** Two closed tables give a closed concatenation. */
  lemma TableClosedAppend(a: Table, b: Table, names: set<string>)
    requires TableClosed(a, names) && TableClosed(b, names)
    ensures TableClosed(a + b, names)
  {
    forall j | 0 <= j < |a + b| ensures CallsOnly((a + b)[j].1, names) {
      if j >= |a| {
        assert (a + b)[j] == b[j - |a|];
      }
    }
  }

  /** The rule table of a parser object is closed. */
  predicate Closed(rules: Rules)
  {
    forall k :: k in rules ==> CallsOnly(rules[k], rules.Keys)
  }

  /** A closed table gives a closed parser object. */
  lemma ClosedRules(t: Table)
    requires TableClosed(t, Names(t))
    ensures Closed(RulesOf(t))
  {
    var r := RulesOf(t);
    RulesOfKeys(t);
    forall k | k in r ensures CallsOnly(r[k], r.Keys) {
      RulesOfEntry(t, k);
      var i :| 0 <= i < |t| && t[i] == (k, r[k]);
    }
  }

  // ---------------------------------------------------------------------------
  // No missing method

  /** The evaluation stopped because the parser has no such method. */
  predicate Missing(r: Res)
  {
    r.Stuck? && r.why.NoSuchRule?
  }

  /**
   * Over a closed rule table, an expression that calls only rules of the
   * table never raises the AttributeError of a missing method, whatever the
   * text, the state and the fuel.
   */
  lemma {:induction false} NeverMissing(env: Env, e: Expr, st: State, fuel: nat)
    requires StateOk(env, st) && Closed(env.rules) && CallsOnly(e, env.rules.Keys)
    ensures !Missing(Eval(env, e, st, fuel))
    decreases fuel, e, 1, 0
  {
    match e
    case Lit(_, _) =>
    case Reg(_) =>
    case Seq(_) => SeqNeverMissing(env, e, 0, [], st, st, fuel);
    case Sel(_) => SelNeverMissing(env, e, 0, st, fuel);
    case Rpt(_, _, _) => RptNeverMissing(env, e, 0, [], st, st, fuel);
    case Opt(x) => NeverMissing(env, x, st, fuel);
    case And(x) => NeverMissing(env, x, st, fuel);
    case Not(x) => NeverMissing(env, x, st, fuel);
    case Skip(x) => NeverMissing(env, x, st, fuel);
    case Trm(_) => TrmNeverMissing(env, e, st, fuel);
    case Call(_, _) => CallNeverMissing(env, e, st, fuel);
    case Eof =>
  }

  lemma {:induction false} SeqNeverMissing(env: Env, e: Expr, i: nat, acc: seq<Node>, start: State, st: State, fuel: nat)
    requires e.Seq? && i <= |e.xs| && StateOk(env, start) && StateOk(env, st) && AllBounded(acc, |env.contents|)
    requires start.pos <= st.pos && start.maxpos <= st.maxpos && start.cache.Keys <= st.cache.Keys
    requires start.nodenum <= st.nodenum
    requires Closed(env.rules) && AllCallsOnly(e, i, env.rules.Keys)
    ensures !Missing(EvalSeq(env, e, i, acc, start, st, fuel))
    decreases fuel, e, 0, |e.xs| - i
  {
    if i < |e.xs| {
      NeverMissing(env, e.xs[i], st, fuel);
      match Eval(env, e.xs[i], st, fuel)
      case Stuck(_) =>
      case Done(ok, ns, st1) =>
        if ok {
          SeqNeverMissing(env, e, i + 1, acc + ns, start, st1, fuel);
        }
    }
  }

  lemma {:induction false} SelNeverMissing(env: Env, e: Expr, i: nat, st: State, fuel: nat)
    requires e.Sel? && i <= |e.xs| && StateOk(env, st)
    requires Closed(env.rules) && AllCallsOnly(e, i, env.rules.Keys)
    ensures !Missing(EvalSel(env, e, i, st, fuel))
    decreases fuel, e, 0, |e.xs| - i
  {
    if i < |e.xs| {
      NeverMissing(env, e.xs[i], st, fuel);
      match Eval(env, e.xs[i], st, fuel)
      case Stuck(_) =>
      case Done(ok, ns, st1) =>
        if !ok {
          SelNeverMissing(env, e, i + 1, SetPos(st1, st.pos), fuel);
        }
    }
  }

  lemma {:induction false} RptNeverMissing(env: Env, e: Expr, i: nat, acc: seq<Node>, start: State, st: State, fuel: nat)
    requires e.Rpt? && StateOk(env, start) && StateOk(env, st) && AllBounded(acc, |env.contents|)
    requires start.pos <= st.pos && start.maxpos <= st.maxpos && start.cache.Keys <= st.cache.Keys
    requires start.nodenum <= st.nodenum
    requires Closed(env.rules) && CallsOnly(e.e, env.rules.Keys)
    ensures !Missing(EvalRpt(env, e, i, acc, start, st, fuel))
    decreases fuel, e, 0, 0
  {
    if !(e.max >= 0 && i >= e.max) && fuel > 0 {
      NeverMissing(env, e.e, st, fuel);
      var x := Eval(env, e.e, st, fuel);
      if x.Stuck? {
        assert EvalRpt(env, e, i, acc, start, st, fuel) == Stuck(x.why);
      } else if x.ok {
        RptNeverMissing(env, e, i + 1, acc + x.nodes, start, x.st, fuel - 1);
        assert EvalRpt(env, e, i, acc, start, st, fuel) == EvalRpt(env, e, i + 1, acc + x.nodes, start, x.st, fuel - 1);
      }
    }
  }

  lemma {:induction false} TrmNeverMissing(env: Env, e: Expr, st: State, fuel: nat)
    requires e.Trm? && StateOk(env, st) && Closed(env.rules) && e.rule in env.rules
    ensures !Missing(EvalTrm(env, e, st, fuel))
    decreases fuel, e, 0, 0
  {
    if fuel > 0 {
      NeverMissing(env, env.rules[e.rule], st, fuel - 1);
    }
  }

  lemma {:induction false} CallNeverMissing(env: Env, e: Expr, st: State, fuel: nat)
    requires e.Call? && StateOk(env, st) && Closed(env.rules) && e.rule in env.rules
    ensures !Missing(EvalCall(env, e, st, fuel))
    decreases fuel, e, 0, 0
  {
    if Key(e.typename, st.pos) !in st.cache && fuel > 0 {
      NeverMissing(env, env.rules[e.rule], st, fuel - 1);
    }
  }

  /**
   * Parsing with a body that calls only rules of a closed table, over that
   * table, never stops on a missing method.
   */
  lemma ParseNeverMissing(env: Env, t: Table, body: Expr, typename: string, endPos: Option<nat>, st: State, fuel: nat)
    requires env.rules == RulesOf(t) && TableClosed(t, Names(t)) && CallsOnly(body, Names(t)) && StateOk(env, st)
    ensures var r := Driver.ParseSpec(env, body, typename, endPos, st, fuel);
      !(r.ParseStuck? && r.why.NoSuchRule?)
  {
    ClosedRules(t);
    RulesOfKeys(t);
    NeverMissing(env, body, st, fuel);
  }
}
