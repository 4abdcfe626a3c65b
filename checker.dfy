/**
 * `ParserChecker` of tacparser/parsergenerator.py: the checks run on the
 * syntax tree of a grammar before a parser is generated from it.
 *
 * `check_definition` reports duplicated and undefined rule names.
 * `check_left_recursion` abstracts each rule body into nested lists
 * (sequences: the first element that consumes decides) and tuples
 * (alternatives: all must consume), evaluates the abstraction to 1
 * (always consumes) or 0 (may consume nothing) where it can, substitutes
 * the rules it has resolved and repeats; whatever stays unresolved calls
 * itself on the left, and one such loop is reported at a time.
 *
 * This module holds the specification functions; module CheckerRun holds
 * the `ParserChecker` class whose loops are proved against them.
 */
module Checker {
  import opened Text
  import opened Nodes

  /** The `identifierlist` abstraction: an int, a rule name, a list or a tuple. */
  datatype Chk = Len(n: int) | Name(name: string) | All(items: seq<Chk>) | Any(items: seq<Chk>)

  /** The ways the check itself fails, besides the messages it collects. */
  datatype CheckError =
    | KeyMissing(key: string)      // KeyError: a name looked up in `check_def_dic` that is not there
    | SearchFailed(message: string) // SyntaxCheckFailedException raised by the loop search
    | NoAbstraction                // AttributeError: a rule body that got no `identifierlist`
    | Malformed                    // IndexError: a Definition without the child the check reads

  /** `get_str`; the trees the grammar parser builds hold no reconstructed nodes, so it never raises here. */
  function Str(n: Node, dict: map<string, string>): string
  {
    match GetStr(n, dict)
    case Ok(s) => s
    case Err(_) => ""
  }

  // ---------------------------------------------------------------------------
  // add_leftrecursive_chk_list

  /** A one-element list stands for its element. */
  function Unwrap(vs: seq<Chk>): Chk
  {
    if |vs| == 1 then vs[0] else All(vs)
  }

  /** The branches of the walk, by node type. */
  datatype Branch = Contents | Regex | Ident | Alternatives | Sequence | Optional | Repeated | Generic

  function BranchOf(t: string, fixAnd: bool): Branch
  {
    if t == "SingleQuotesLiteralContents" || t == "DoubleQuotesLiteralContents" then Contents
    else if t == "RegularExp" then Regex
    else if t == "Identifier" then Ident
    else if t == "Selection" then Alternatives
    else if t == "MultiSequence" then Sequence
    else if t == AndType(fixAnd) || t == "NotPrefix" || t == "QuestionSuffix" || t == "StarSuffix" then Optional
    else if t == "PlusSuffix" || t == "RepeatSuffix" then Repeated
    else Generic
  }

  /**
   * The `identifierlist` that the post-order walk leaves on `n`, or None
   * where it sets none.  `fixAnd` chooses the node type the &-branch tests.
   */
  function Abstract(n: Node, fixAnd: bool): (r: Option<Chk>)
    ensures BranchOf(Type(n), fixAnd) == Optional ==> r.Some? && EvalDef(r.value) != Some(1)
    ensures BranchOf(Type(n), fixAnd) == Contents ==> r.Some? && (EvalDef(r.value) == Some(1) <==> Str(n, map[]) != "")
    ensures Type(n) == "Identifier" ==> (r.None? <==> Str(n, NoSpacing) == "_EOF")
  {
    var vs := if n.NonTerminal? || n.Reconstructed? then KidValues(n.children, fixAnd) else [];
    match BranchOf(Type(n), fixAnd)
    case Contents => Some(Len(if |Str(n, map[])| > 0 then 1 else 0))
    case Regex => Some(Len(1))
    case Ident => var name := Str(n, NoSpacing); if name == "_EOF" then None else Some(Name(name))
    case Alternatives => Some(Any(vs))
    case Sequence => Some(All(vs))
    case Optional =>
      var items := [Unwrap(vs), Len(0)];
      assert items[1..] == [Len(0)] && items[1..][1..] == [];
      assert EvalTuple(items[1..]) == Some(0);
      assert EvalDef(Any(items)) == EvalTuple(items);
      Some(Any(items))
    case Repeated => Some(Unwrap(vs))
    case Generic => if IsNonTerminal(n) && vs != [] then Some(Unwrap(vs)) else None
  }

  /** The abstractions of the children that have one, in order. */
  function KidValues(ns: seq<Node>, fixAnd: bool): seq<Chk>
  {
    if ns == [] then []
    else
      (match Abstract(ns[0], fixAnd) case None => [] case Some(v) => [v]) + KidValues(ns[1..], fixAnd)
  }

  /**
   * The node type the &-branch tests: as written "Andprefix", which is not
   * the grammar's "AndPrefix"; with `fixAnd` the grammar's name.
   */
  function AndType(fixAnd: bool): string
  {
    if fixAnd then "AndPrefix" else "Andprefix"
  }

  // ---------------------------------------------------------------------------
  // eval_def, assignment_checked_value, search_unresolve_call

  /** `eval_def`: 1 if the expression always consumes, 0 if it may not, None while a name decides. */
  function EvalDef(e: Chk): Option<int>
  {
    match e
    case Len(n) => Some(n)
    case Name(_) => None
    case All(items) => EvalList(items)
    case Any(items) => EvalTuple(items)
  }

  /** A list: 1 at the first element above 0, None at an unresolved element before that, else 0. */
  function EvalList(items: seq<Chk>): Option<int>
  {
    if items == [] then Some(0)
    else
      match EvalDef(items[0])
      case None => None
      case Some(v) => if v > 0 then Some(1) else EvalList(items[1..])
  }

  /** A tuple: None if any element is unresolved, else 0 if one is 0, else 1. */
  function EvalTuple(items: seq<Chk>): Option<int>
  {
    if items == [] then Some(1)
    else
      match EvalDef(items[0])
      case None => None
      case Some(v) =>
        match EvalTuple(items[1..])
        case None => None
        case Some(m) => Some(if v == 0 then 0 else m)
  }

  /** `assignment_checked_value`: every resolved name replaced by its value. */
  function Assign(e: Chk, checked: map<string, int>): Chk
  {
    match e
    case Len(n) => e
    case Name(s) => if s in checked then Len(checked[s]) else e
    case All(items) => All(AssignAll(items, checked))
    case Any(items) => Any(AssignAll(items, checked))
  }

  function AssignAll(items: seq<Chk>, checked: map<string, int>): (r: seq<Chk>)
    ensures |r| == |items|
  {
    if items == [] then [] else [Assign(items[0], checked)] + AssignAll(items[1..], checked)
  }

  /** `search_unresolve_call`: the first name in pre-order. */
  function SearchUnresolve(e: Chk): Option<string>
  {
    match e
    case Len(_) => None
    case Name(s) => Some(s)
    case All(items) => SearchItems(items)
    case Any(items) => SearchItems(items)
  }

  function SearchItems(items: seq<Chk>): Option<string>
  {
    if items == [] then None
    else
      match SearchUnresolve(items[0])
      case Some(s) => Some(s)
      case None => SearchItems(items[1..])
  }

  /** The names an expression mentions. */
  predicate Mentions(e: Chk, s: string)
  {
    match e
    case Len(_) => false
    case Name(x) => x == s
    case All(items) => exists i :: 0 <= i < |items| && Mentions(items[i], s)
    case Any(items) => exists i :: 0 <= i < |items| && Mentions(items[i], s)
  }

  /** `str()` of the abstraction, as Python prints nested lists, tuples, strings and ints. */
  function Repr(e: Chk): string
  {
    match e
    case Len(n) => IntToString(n)
    case Name(s) => "'" + s + "'"
    case All(items) => "[" + Join(ReprAll(items), ", ") + "]"
    case Any(items) => "(" + Join(ReprAll(items), ", ") + (if |items| == 1 then ",)" else ")")
  }

  function ReprAll(items: seq<Chk>): (r: seq<string>)
    ensures |r| == |items|
  {
    if items == [] then [] else [Repr(items[0])] + ReprAll(items[1..])
  }

  // ---------------------------------------------------------------------------
  // The dictionaries: `check_def_dic` keeps insertion order

  type Dict = seq<(string, Chk)>

  function Keys(d: Dict): (r: seq<string>)
    ensures |r| == |d| && forall i :: 0 <= i < |d| ==> r[i] == d[i].0
  {
    seq(|d|, i requires 0 <= i < |d| => d[i].0)
  }

  function Lookup(d: Dict, k: string): Option<Chk>
  {
    if d == [] then None else if d[0].0 == k then Some(d[0].1) else Lookup(d[1..], k)
  }

  /** `d[k] = v`: replaced in place when present, appended otherwise. */
  function Put(d: Dict, k: string, v: Chk): (r: Dict)
  {
    if d == [] then [(k, v)]
    else if d[0].0 == k then [(k, v)] + d[1..]
    else [d[0]] + Put(d[1..], k, v)
  }

  // ---------------------------------------------------------------------------
  // One round of the inner loop of check_left_recursion

  /** The first loop: every definition that evaluates to an int is recorded in `defchecked`. */
  function Resolved(d: Dict, checked: map<string, int>): map<string, int>
  {
    if d == [] then checked
    else
      var c := Resolved(d[..|d| - 1], checked);
      match EvalDef(d[|d| - 1].1)
      case Some(v) => c[d[|d| - 1].0 := v]
      case None => c
  }

  /** Whether the first loop sets `chg_chk`. */
  predicate Changed(d: Dict)
  {
    exists i :: 0 <= i < |d| && EvalDef(d[i].1).Some?
  }

  /** The second loop: the checked names leave `check_def_dic`. */
  function Unchecked(d: Dict, checked: map<string, int>): (r: Dict)
    ensures |r| <= |d|
  {
    if d == [] then []
    else Unchecked(d[..|d| - 1], checked) + (if d[|d| - 1].0 in checked then [] else [d[|d| - 1]])
  }

  /** The third loop: the checked values substituted into what is left. */
  function Substituted(d: Dict, checked: map<string, int>): (r: Dict)
    ensures |r| == |d|
    ensures forall i :: 0 <= i < |d| ==> r[i] == (d[i].0, Assign(d[i].1, checked))
  {
    seq(|d|, i requires 0 <= i < |d| => (d[i].0, Assign(d[i].1, checked)))
  }

  /** One pass of the inner `while chg_chk` loop. */
  function Round(d: Dict, checked: map<string, int>): (Dict, map<string, int>)
  {
    var c := Resolved(d, checked);
    (Substituted(Unchecked(d, c), c), c)
  }

  /** The inner loop: rounds until one resolves nothing. */
  function Settle(d: Dict, checked: map<string, int>): (r: (Dict, map<string, int>))
    ensures |r.0| <= |d|
    ensures Changed(d) ==> |r.0| < |d|
    decreases |d|
  {
    var next := Round(d, checked);
    RoundShrinks(d, checked);
    if Changed(d) then Settle(next.0, next.1) else next
  }

  // ---------------------------------------------------------------------------
  // find_left_recursive_loop_list


  /** `sorted(keys)[0]`. */
  function Smallest(ks: seq<string>): (m: string)
    requires ks != []
  {
    if |ks| == 1 then ks[0]
    else
      var rest := Smallest(ks[1..]);
      if StrLe(ks[0], rest) then ks[0] else rest
  }

  function ListSet(xs: seq<string>): set<string>
  {
    set x | x in xs
  }

  function KeySet(d: Dict): set<string>
  {
    set i | 0 <= i < |d| :: d[i].0
  }

  /** The call the unresolved definition of `name` makes first. */
  function NextName(d: Dict, name: string): Option<string>
  {
    match Lookup(d, name)
    case None => None
    case Some(e) => SearchUnresolve(e)
  }

  function IndexOf(xs: seq<string>, x: string): (k: nat)
    requires x in xs
    ensures k < |xs| && xs[k] == x && x !in xs[..k]
  {
    if xs[0] == x then 0 else 1 + IndexOf(xs[1..], x)
  }

  /** The `while check_def_name not in loop_list` loop, from `name` with `visited` appended so far. */
  function Walk(d: Dict, name: string, visited: seq<string>): Result<seq<string>, CheckError>
    decreases KeySet(d) - ListSet(visited)
  {
    if name in visited then
      var loop := visited + [name];
      Ok(loop[IndexOf(loop, name)..])
    else
      match Lookup(d, name)
      case None => Err(KeyMissing(name))
      case Some(e) =>
        match SearchUnresolve(e)
        case None => Err(SearchFailed("!Unexpected Error! @search_unresolve_call " + name + ": " + Repr(e) + " -> None"))
        case Some(next) =>
          LookupInKeys(d, name);
          assert name in KeySet(d) - ListSet(visited);
          assert name !in KeySet(d) - ListSet(visited + [name]);
          Walk(d, next, visited + [name])
  }

  function FindLoopSpec(d: Dict): Result<seq<string>, CheckError>
    requires d != []
  {
    Walk(d, Smallest(Keys(d)), [])
  }

  // ---------------------------------------------------------------------------
  // check_left_recursion

  function LoopMessage(loop: seq<string>): string
  {
    "!Left Recursive Found! : " + Join(loop, "->")
  }

  function Listing(d: Dict): string
  {
    if d == [] then "" else d[0].0 + " : " + Repr(d[0].1) + "\n" + Listing(d[1..])
  }

  function CantFindMessage(d: Dict): string
  {
    "!Error : Can't found Left Recurcive! :\n" + Listing(d)
  }

  /** The loop measure: a dictionary holding a resolvable entry shrinks in its next round. */
  function Measure(d: Dict): nat
  {
    |d| + (if Changed(d) then 0 else 1)
  }

  /**
   * The outer `while True` loop from one state: settle, then stop, or
   * report one loop, force its first name to 1 and go round again.
   */
  function LeftRecursionLoop(d: Dict, checked: map<string, int>, count: nat, msgs: seq<string>): Result<seq<string>, CheckError>
    decreases Measure(d)
  {
    var settled := Settle(d, checked);
    var d1 := settled.0;
    if count > 0 && count == |d1| then Ok(msgs + [CantFindMessage(d1)])
    else if |d1| == 0 then Ok(msgs)
    else
      var loop :- FindLoopSpec(d1);
      var d2 := ForcedFirst(d1, loop);
      ForcedShrinksNext(d1, loop);
      LeftRecursionLoop(d2, settled.1, |d2|, msgs + [LoopMessage(loop)])
  }

  /** `check_def_dic[loop_list[0]] = 1`. */
  function ForcedFirst(d: Dict, loop: seq<string>): Dict
  {
    if loop == [] then d else Put(d, loop[0], Len(1))
  }

  /** The definitions `check_left_recursion` registers, each under its name, in order. */
  function Registered(defs: seq<Node>, fixAnd: bool, d: Dict): Result<Dict, CheckError>
  {
    if defs == [] then Ok(d)
    else
      var exprs :- Children(defs[0], "DefinitionExpression");
      var v :- match Abstract(exprs[0], fixAnd) case None => Err(NoAbstraction) case Some(v) => Ok(v);
      var ids :- Children(defs[0], "DefinitionIdentifier");
      Registered(defs[1..], fixAnd, Put(d, Str(ids[0], NoSpacing), v))
  }

  /** `get_childnode(t)`, which must not be empty where the source indexes it. */
  function Children(n: Node, t: string): (r: Result<seq<Node>, CheckError>)
    ensures r.Ok? ==> r.value != []
  {
    match GetChildNode(n, t)
    case None => Err(Malformed)
    case Some(ns) => if ns == [] then Err(Malformed) else Ok(ns)
  }

  /**
   * The Definition nodes the left-recursion check enters: as written the
   * Definition children of the root, which leave out the rule under
   * RootDefinition; with `withRoot` every Definition, as `check_definition`
   * collects them.
   */
  function CheckedDefinitions(tree: Node, withRoot: bool): seq<Node>
    requires IsNonTerminal(tree)
  {
    if withRoot then Search(tree, "Definition", false) else FilterType(Kids(tree), "Definition")
  }

  /** `check_left_recursion` on a fresh checker: the messages, or the exception it raises. */
  function LeftRecursion(tree: Node, fixAnd: bool, withRoot: bool): Result<seq<string>, CheckError>
  {
    LeftRecursionFrom(tree, fixAnd, withRoot, [], map[])
  }

  /** `check_left_recursion` on a checker whose dictionaries already hold `d0` and `c0`. */
  function LeftRecursionFrom(tree: Node, fixAnd: bool, withRoot: bool, d0: Dict, c0: map<string, int>)
    : (r: Result<seq<string>, CheckError>)
    ensures r.Ok? ==> forall m :: m in r.value ==> IsLoopReport(m)
  {
    if Type(tree) == "ExPeg" then
      var d :- Registered(CheckedDefinitions(tree, withRoot), fixAnd, d0);
      LoopReportsOnly(d, c0);
      LeftRecursionLoop(d, c0, 0, [])
    else
      LoopReportsOnly(d0, c0);
      LeftRecursionLoop(d0, c0, 0, [])
  }

  // ---------------------------------------------------------------------------
  // check_definition

  function DupMessage(name: string): string
  {
    "!Dupulicated Definition! <" + name + "> (compared-with lower case)"
  }

  function UndefinedMessage(name: string, line: nat, column: nat): string
  {
    "!Undefined Identifier <" + name + "> is Used at (line:" + NatToString(line) + ", column:" + NatToString(column) + ")!"
  }

  const NotExPegMessage := "!Unexpected Error! Root Node is not a \"ExPeg\" Type."

  /** The names the definitions declare, in order. */
  function DeclaredNames(defs: seq<Node>): Result<seq<string>, CheckError>
  {
    if defs == [] then Ok([])
    else
      var ids :- Children(defs[0], "DefinitionIdentifier");
      var rest :- DeclaredNames(defs[1..]);
      Ok([Str(ids[0], NoSpacing)] + rest)
  }

  /** One message per name whose lower case was registered before it. */
  function Duplicates(names: seq<string>, seen: set<string>): seq<string>
  {
    if names == [] then []
    else
      (if Lower(names[0]) in seen then [DupMessage(names[0])] else [])
      + Duplicates(names[1..], seen + {Lower(names[0])})
  }

  function LowerSet(names: seq<string>): set<string>
  {
    set i | 0 <= i < |names| :: Lower(names[i])
  }

  /** One message per identifier use whose lower case is not registered. */
  function Undefined(ids: seq<Node>, known: set<string>): seq<string>
  {
    if ids == [] then []
    else
      var name := Str(ids[0], NoSpacing);
      (if Lower(name) in known then [] else [UndefinedMessage(name, ids[0].span.linenum, ids[0].span.column)])
      + Undefined(ids[1..], known)
  }

  /** The identifiers a rule body uses, as `search_node("Identifier")` finds them. */
  function UsedIdentifiers(defs: seq<Node>): Result<seq<seq<Node>>, CheckError>
  {
    if defs == [] then Ok([])
    else
      var exprs :- Children(defs[0], "DefinitionExpression");
      var rest :- UsedIdentifiers(defs[1..]);
      Ok([match SearchNode(exprs[0], "Identifier", false) case None => [] case Some(ns) => ns] + rest)
  }

  function UndefinedAll(uses: seq<seq<Node>>, known: set<string>): seq<string>
  {
    if uses == [] then [] else Undefined(uses[0], known) + UndefinedAll(uses[1..], known)
  }

  /** No two names are the same in lower case, and none is the built-in `_eof`. */
  predicate DistinctNames(names: seq<string>)
  {
    (forall i :: 0 <= i < |names| ==> Lower(names[i]) != "_eof")
    && forall i, j :: 0 <= i < j < |names| ==> Lower(names[i]) != Lower(names[j])
  }

  /** Every identifier used names, in lower case, one of `known`. */
  predicate AllDeclared(uses: seq<seq<Node>>, known: set<string>)
  {
    forall k, i :: 0 <= k < |uses| && 0 <= i < |uses[k]| ==> Lower(Str(uses[k][i], NoSpacing)) in known
  }

  /**
   * `check_definition`: the duplicate messages, then the undefined-identifier
   * messages.  A grammar passes exactly when its names are distinct in lower
   * case and every identifier used is declared or `_eof`.
   */
  function CheckDefinition(tree: Node): (r: Result<seq<string>, CheckError>)
    ensures Type(tree) != "ExPeg" ==> r == Ok([NotExPegMessage])
    ensures r.Ok? && Type(tree) == "ExPeg" ==>
      var defs := Search(tree, "Definition", false);
      DeclaredNames(defs).Ok? && UsedIdentifiers(defs).Ok?
      && (r.value == [] <==>
            DistinctNames(DeclaredNames(defs).value)
            && AllDeclared(UsedIdentifiers(defs).value, {"_eof"} + LowerSet(DeclaredNames(defs).value)))
  {
    if Type(tree) == "ExPeg" then
      var defs := Search(tree, "Definition", false);
      var names :- DeclaredNames(defs);
      var uses :- UsedIdentifiers(defs);
      var known := {"_eof"} + LowerSet(names);
      DuplicatesSpec(names, {"_eof"});
      UndefinedAllSpec(uses, known);
      Ok(Duplicates(names, {"_eof"}) + UndefinedAll(uses, known))
    else
      Ok([NotExPegMessage])
  }

  /** What `check_tree` ends in. */
  datatype Verdict =
    | Passed                               // returns True
    | ParseError(text: string)             // ParseException on a failure node
    | CheckFailed(messages: seq<string>)   // SyntaxCheckFailedException with the collected messages
    | Raised(error: CheckError)            // an exception escaping the check

  /** `check_tree`: the left-recursion check runs only when the definitions are sound. */
  function CheckTree(tree: Node, fixAnd: bool, withRoot: bool): (v: Verdict)
    ensures v.ParseError? <==> tree.Failure?
    ensures v == Passed <==>
      !tree.Failure? && CheckDefinition(tree) == Ok([]) && LeftRecursion(tree, fixAnd, withRoot) == Ok([])
    ensures v.CheckFailed? ==> v.messages != []
    ensures v.CheckFailed? && CheckDefinition(tree) == Ok([]) ==> forall m :: m in v.messages ==> IsLoopReport(m)
  {
    if tree.Failure? then ParseError(tree.termstr)
    else
      match CheckDefinition(tree)
      case Err(e) => Raised(e)
      case Ok(msgs) =>
        if msgs != [] then CheckFailed(msgs)
        else
          match LeftRecursion(tree, fixAnd, withRoot)
          case Err(e) => Raised(e)
          case Ok(lr) => if lr != [] then CheckFailed(lr) else Passed
  }

  // ---------------------------------------------------------------------------
  // Lemmas the definitions above rely on

  lemma {:induction false} ResolvedKeeps(d: Dict, checked: map<string, int>, i: nat)
    requires i < |d| && EvalDef(d[i].1).Some?
    ensures d[i].0 in Resolved(d, checked)
    decreases |d|
  {
    if i < |d| - 1 {
      ResolvedKeeps(d[..|d| - 1], checked, i);
    }
  }

  lemma {:induction false} UncheckedDrops(d: Dict, checked: map<string, int>, i: nat)
    requires i < |d| && d[i].0 in checked
    ensures |Unchecked(d, checked)| < |d|
    decreases |d|
  {
    if i < |d| - 1 {
      UncheckedDrops(d[..|d| - 1], checked, i);
    }
  }

  lemma RoundShrinks(d: Dict, checked: map<string, int>)
    ensures |Round(d, checked).0| <= |d|
    ensures Changed(d) ==> |Round(d, checked).0| < |d|
  {
    if Changed(d) {
      var i :| 0 <= i < |d| && EvalDef(d[i].1).Some?;
      ResolvedKeeps(d, checked, i);
      UncheckedDrops(d, Resolved(d, checked), i);
    }
  }

  lemma {:induction false} LookupInKeys(d: Dict, k: string)
    requires Lookup(d, k).Some?
    ensures k in KeySet(d)
    decreases |d|
  {
    if d[0].0 != k {
      LookupInKeys(d[1..], k);
      assert KeySet(d[1..]) <= KeySet(d) by {
        forall x | x in KeySet(d[1..]) ensures x in KeySet(d) {
          var j :| 0 <= j < |d[1..]| && d[1..][j].0 == x;
          assert d[j + 1].0 == x;
        }
      }
    }
  }

  lemma {:induction false} PutExisting(d: Dict, k: string, v: Chk)
    requires k in KeySet(d)
    ensures |Put(d, k, v)| == |d|
    ensures exists i :: 0 <= i < |d| && Put(d, k, v)[i] == (k, v)
    decreases |d|
  {
    if d[0].0 == k {
      assert Put(d, k, v)[0] == (k, v);
    } else {
      var j :| 0 <= j < |d| && d[j].0 == k;
      assert d[1..][j - 1].0 == k;
      PutExisting(d[1..], k, v);
      var i :| 0 <= i < |d[1..]| && Put(d[1..], k, v)[i] == (k, v);
      assert Put(d, k, v)[i + 1] == (k, v);
    }
  }

  /** The walk's answer begins with a name it looked up. */
  lemma {:induction false} WalkStartsInKeys(d: Dict, name: string, visited: seq<string>)
    requires forall x :: x in visited ==> x in KeySet(d)
    requires Walk(d, name, visited).Ok?
    ensures Walk(d, name, visited).value != [] && Walk(d, name, visited).value[0] in KeySet(d)
    decreases KeySet(d) - ListSet(visited)
  {
    if name in visited {
      var loop := visited + [name];
      var k := IndexOf(loop, name);
      assert loop[k..][0] == name;
    } else {
      var e := Lookup(d, name).value;
      var next := SearchUnresolve(e).value;
      LookupInKeys(d, name);
      assert name in KeySet(d) - ListSet(visited);
      assert name !in KeySet(d) - ListSet(visited + [name]);
      WalkStartsInKeys(d, next, visited + [name]);
    }
  }

  /** Forcing the first name of a found loop keeps the size and makes the next round resolve it. */
  lemma ForcedShrinksNext(d: Dict, loop: seq<string>)
    requires d != [] && FindLoopSpec(d) == Ok(loop)
    ensures |ForcedFirst(d, loop)| == |d| && Measure(ForcedFirst(d, loop)) == |d|
  {
    WalkStartsInKeys(d, Smallest(Keys(d)), []);
    PutExisting(d, loop[0], Len(1));
    var i :| 0 <= i < |d| && Put(d, loop[0], Len(1))[i] == (loop[0], Len(1));
    assert EvalDef(ForcedFirst(d, loop)[i].1).Some?;
  }

  // ---------------------------------------------------------------------------
  // Properties of the abstraction

  /** `search_unresolve_call` answers a name the expression mentions, and None only when it mentions none. */
  lemma {:induction false} SearchFindsMention(e: Chk)
    ensures SearchUnresolve(e).Some? ==> Mentions(e, SearchUnresolve(e).value)
    ensures SearchUnresolve(e).None? ==> forall s :: !Mentions(e, s)
    decreases e
  {
    match e
    case Len(_) =>
    case Name(_) =>
    case All(items) => SearchItemsFindsMention(items);
    case Any(items) => SearchItemsFindsMention(items);
  }

  lemma {:induction false} SearchItemsFindsMention(items: seq<Chk>)
    ensures SearchItems(items).Some? ==> exists i :: 0 <= i < |items| && Mentions(items[i], SearchItems(items).value)
    ensures SearchItems(items).None? ==> forall i, s :: 0 <= i < |items| ==> !Mentions(items[i], s)
    decreases items
  {
    if items != [] {
      SearchFindsMention(items[0]);
      SearchItemsFindsMention(items[1..]);
      if SearchUnresolve(items[0]).None? && SearchItems(items[1..]).Some? {
        var i :| 0 <= i < |items[1..]| && Mentions(items[1..][i], SearchItems(items).value);
        assert items[1..][i] == items[i + 1];
      }
      if SearchItems(items).None? {
        forall i, s | 0 <= i < |items| ensures !Mentions(items[i], s) {
          if i > 0 { assert items[i] == items[1..][i - 1]; }
        }
      }
    }
  }

  /** An expression that mentions no rule always evaluates. */
  lemma {:induction false} NameFreeEvaluates(e: Chk)
    requires forall s :: !Mentions(e, s)
    ensures EvalDef(e).Some?
    decreases e
  {
    match e
    case Len(_) =>
    case Name(x) => assert Mentions(e, x);
    case All(items) =>
      forall i, s | 0 <= i < |items| ensures !Mentions(items[i], s) { assert !Mentions(e, s); }
      ItemsNameFreeEvaluate(items);
    case Any(items) =>
      forall i, s | 0 <= i < |items| ensures !Mentions(items[i], s) { assert !Mentions(e, s); }
      ItemsNameFreeEvaluate(items);
  }

  lemma {:induction false} ItemsNameFreeEvaluate(items: seq<Chk>)
    requires forall i, s :: 0 <= i < |items| ==> !Mentions(items[i], s)
    ensures EvalList(items).Some? && EvalTuple(items).Some?
    decreases items
  {
    if items != [] {
      NameFreeEvaluates(items[0]);
      assert forall i, s :: 0 <= i < |items[1..]| ==> !Mentions(items[1..][i], s) by {
        forall i, s | 0 <= i < |items[1..]| ensures !Mentions(items[1..][i], s) {
          assert items[1..][i] == items[i + 1];
        }
      }
      ItemsNameFreeEvaluate(items[1..]);
    }
  }

  /** An unresolved definition has a call to follow: the loop search never meets an expression without one. */
  lemma UnresolvedHasCall(e: Chk)
    requires EvalDef(e).None?
    ensures SearchUnresolve(e).Some?
  {
    SearchFindsMention(e);
    if SearchUnresolve(e).None? {
      NameFreeEvaluates(e);
    }
  }

  /** `assignment_checked_value` removes exactly the checked names. */
  lemma {:induction false} AssignRemovesChecked(e: Chk, checked: map<string, int>, s: string)
    ensures Mentions(Assign(e, checked), s) <==> Mentions(e, s) && s !in checked
    decreases e
  {
    match e
    case Len(_) =>
    case Name(_) =>
    case All(items) => AssignAllRemovesChecked(items, checked, s);
    case Any(items) => AssignAllRemovesChecked(items, checked, s);
  }

  lemma {:induction false} AssignAllRemovesChecked(items: seq<Chk>, checked: map<string, int>, s: string)
    ensures forall i :: 0 <= i < |items| ==> AssignAll(items, checked)[i] == Assign(items[i], checked)
    ensures forall i :: 0 <= i < |items| ==> (Mentions(Assign(items[i], checked), s) <==> Mentions(items[i], s) && s !in checked)
    decreases items
  {
    if items != [] {
      AssignAllRemovesChecked(items[1..], checked, s);
      forall i | 0 <= i < |items|
        ensures AssignAll(items, checked)[i] == Assign(items[i], checked)
        ensures Mentions(Assign(items[i], checked), s) <==> Mentions(items[i], s) && s !in checked
      {
        if i == 0 {
          AssignRemovesChecked(items[0], checked, s);
        } else {
          assert items[i] == items[1..][i - 1];
        }
      }
    }
  }

  /** A list evaluates to 0 exactly when every element evaluates and none is above 0. */
  lemma {:induction false} EvalListZero(items: seq<Chk>)
    ensures EvalList(items) == Some(0) <==> forall i :: 0 <= i < |items| ==> EvalDef(items[i]).Some? && EvalDef(items[i]).value <= 0
    ensures EvalList(items).Some? ==> EvalList(items) == Some(0) || EvalList(items) == Some(1)
  {
    if items != [] {
      EvalListZero(items[1..]);
      assert forall i :: 1 <= i < |items| ==> items[i] == items[1..][i - 1];
    }
  }

  /** A tuple evaluates once every alternative does; to 0 exactly when one of them is 0. */
  lemma {:induction false} EvalTupleSpec(items: seq<Chk>)
    ensures EvalTuple(items).Some? <==> forall i :: 0 <= i < |items| ==> EvalDef(items[i]).Some?
    ensures EvalTuple(items) == Some(0) <==>
              (forall i :: 0 <= i < |items| ==> EvalDef(items[i]).Some?) && exists i :: 0 <= i < |items| && EvalDef(items[i]) == Some(0)
    ensures EvalTuple(items).Some? ==> EvalTuple(items) == Some(0) || EvalTuple(items) == Some(1)
  {
    if items != [] {
      EvalTupleSpec(items[1..]);
      assert forall i :: 1 <= i < |items| ==> items[i] == items[1..][i - 1];
      if EvalTuple(items) == Some(0) && EvalDef(items[0]) != Some(0) {
        var i :| 0 <= i < |items[1..]| && EvalDef(items[1..][i]) == Some(0);
        assert EvalDef(items[i + 1]) == Some(0);
      }
    }
  }

  // ---------------------------------------------------------------------------
  // Properties of the dictionary and of one round

  lemma {:induction false} LookupPut(d: Dict, k: string, v: Chk, other: string)
    ensures Lookup(Put(d, k, v), k) == Some(v)
    ensures other != k ==> Lookup(Put(d, k, v), other) == Lookup(d, other)
    decreases |d|
  {
    if d != [] && d[0].0 != k {
      LookupPut(d[1..], k, v, other);
      assert Put(d, k, v)[1..] == Put(d[1..], k, v);
    }
  }

  /** The first loop of a round records the definitions that evaluate, and keeps what was recorded. */
  lemma {:induction false} ResolvedSpec(d: Dict, checked: map<string, int>, k: string)
    ensures k in Resolved(d, checked) <==> k in checked || exists i :: 0 <= i < |d| && d[i].0 == k && EvalDef(d[i].1).Some?
    decreases |d|
  {
    if d != [] {
      var init := d[..|d| - 1];
      ResolvedSpec(init, checked, k);
      assert forall i :: 0 <= i < |init| ==> init[i] == d[i];
    }
  }

  /** The second loop keeps exactly the entries whose name was not recorded, in order. */
  lemma {:induction false} UncheckedSpec(d: Dict, checked: map<string, int>, x: (string, Chk))
    ensures x in Unchecked(d, checked) <==> x in d && x.0 !in checked
    decreases |d|
  {
    if d != [] {
      var init := d[..|d| - 1];
      UncheckedSpec(init, checked, x);
      assert d == init + [d[|d| - 1]];
    }
  }

  /** After a round, no remaining definition is recorded and none mentions a recorded name. */
  lemma RoundClears(d: Dict, checked: map<string, int>, i: nat, s: string)
    requires i < |Round(d, checked).0|
    ensures Round(d, checked).0[i].0 !in Round(d, checked).1
    ensures s in Round(d, checked).1 ==> !Mentions(Round(d, checked).0[i].1, s)
  {
    var c := Resolved(d, checked);
    var u := Unchecked(d, c);
    UncheckedSpec(d, c, u[i]);
    AssignRemovesChecked(u[i].1, c, s);
  }

  // ---------------------------------------------------------------------------
  // Properties of the loop search

  /** `sorted(names)[0]`: a name of the list that no other name precedes. */
  lemma {:induction false} SmallestIsLeast(ks: seq<string>)
    requires ks != []
    ensures Smallest(ks) in ks
    ensures forall k :: k in ks ==> StrLe(Smallest(ks), k)
  {
    if |ks| > 1 {
      var rest := Smallest(ks[1..]);
      SmallestIsLeast(ks[1..]);
      StrLeTotal(ks[0], rest);
      assert rest in ks by { assert ks[1..] == ks[1..|ks|]; assert forall x :: x in ks[1..] ==> x in ks; }
      forall k | k in ks ensures StrLe(Smallest(ks), k) {
        if k == ks[0] {
          StrLeTotal(k, k);
        } else {
          assert k in ks[1..];
          if StrLe(ks[0], rest) { StrLeTrans(ks[0], rest, k); }
        }
      }
    } else {
      StrLeTotal(ks[0], ks[0]);
    }
  }

  /** Each name calls the next one first. */
  predicate Chain(d: Dict, p: seq<string>)
  {
    forall i :: 0 <= i < |p| - 1 ==> NextName(d, p[i]) == Some(p[i + 1])
  }

  predicate Distinct(p: seq<string>)
  {
    forall i, j :: 0 <= i < j < |p| ==> p[i] != p[j]
  }

  /** A left-recursive loop: it ends where it starts and passes no other name twice. */
  predicate IsCycle(d: Dict, loop: seq<string>)
  {
    |loop| >= 2 && loop[0] == loop[|loop| - 1] && Chain(d, loop) && Distinct(loop[..|loop| - 1])
  }

  lemma {:induction false} WalkIsCycle(d: Dict, name: string, visited: seq<string>)
    requires Distinct(visited) && Chain(d, visited + [name])
    requires Walk(d, name, visited).Ok?
    ensures IsCycle(d, Walk(d, name, visited).value)
    decreases KeySet(d) - ListSet(visited)
  {
    if name in visited {
      var loop := visited + [name];
      var k := IndexOf(loop, name);
      var r := loop[k..];
      assert k < |visited| by {
        var j :| 0 <= j < |visited| && visited[j] == name;
        assert loop[j] == name;
      }
      assert forall i :: 0 <= i < |r| ==> r[i] == loop[k + i];
      assert r[..|r| - 1] == visited[k..];
    } else {
      var e := Lookup(d, name).value;
      var next := SearchUnresolve(e).value;
      LookupInKeys(d, name);
      assert name in KeySet(d) - ListSet(visited);
      assert name !in KeySet(d) - ListSet(visited + [name]);
      var p := visited + [name] + [next];
      assert forall i :: 0 <= i < |visited| ==> p[i] == (visited + [name])[i];
      WalkIsCycle(d, next, visited + [name]);
    }
  }

  /** `find_left_recursive_loop_list` answers a left-recursive loop through the definitions. */
  lemma FindLoopIsCycle(d: Dict)
    requires d != [] && FindLoopSpec(d).Ok?
    ensures IsCycle(d, FindLoopSpec(d).value)
  {
    WalkIsCycle(d, Smallest(Keys(d)), []);
  }

  // ---------------------------------------------------------------------------
  // Properties of the outer loop

  /** A message naming a loop of at least one step. */
  ghost predicate IsLoopReport(m: string)
  {
    exists loop :: |loop| >= 2 && m == LoopMessage(loop)
  }

  /** `r` is `msgs` followed by loop reports only. */
  ghost predicate ReportsAfter(r: seq<string>, msgs: seq<string>)
  {
    |msgs| <= |r| && r[..|msgs|] == msgs && forall i :: |msgs| <= i < |r| ==> IsLoopReport(r[i])
  }

  lemma ReportsAfterStep(r: seq<string>, msgs: seq<string>, loop: seq<string>)
    requires |loop| >= 2 && ReportsAfter(r, msgs + [LoopMessage(loop)])
    ensures ReportsAfter(r, msgs)
  {
    var msgs2 := msgs + [LoopMessage(loop)];
    assert r[..|msgs|] == r[..|msgs2|][..|msgs|] == msgs2[..|msgs|] == msgs;
    assert r[|msgs|] == r[..|msgs2|][|msgs|] == msgs2[|msgs|] == LoopMessage(loop);
    assert IsLoopReport(r[|msgs|]);
    forall i | |msgs| <= i < |r|
      ensures IsLoopReport(r[i])
    {
      if i > |msgs| {
        assert |msgs2| <= i;
      }
    }
  }

  /** One reported loop: the outer loop goes round again from the forced dictionary. */
  lemma LoopRound(d: Dict, checked: map<string, int>, count: nat, msgs: seq<string>)
    requires count == 0 || (Changed(d) && count == |d|)
    requires LeftRecursionLoop(d, checked, count, msgs).Ok? && |Settle(d, checked).0| > 0
    ensures var d1 := Settle(d, checked).0;
            && FindLoopSpec(d1).Ok? && |FindLoopSpec(d1).value| >= 2
            && var d2 := ForcedFirst(d1, FindLoopSpec(d1).value);
               && Changed(d2) && Measure(d2) < Measure(d)
               && LeftRecursionLoop(d, checked, count, msgs)
                  == LeftRecursionLoop(d2, Settle(d, checked).1, |d2|, msgs + [LoopMessage(FindLoopSpec(d1).value)])
  {
    var d1 := Settle(d, checked).0;
    assert !(count > 0 && count == |d1|);
    var loop := FindLoopSpec(d1).value;
    FindLoopIsCycle(d1);
    ForcedShrinksNext(d1, loop);
  }

  /**
   * The outer loop only ever adds loop reports: the "Can't found" branch
   * cannot be taken, because the forced definition always resolves in the
   * next round and the dictionary shrinks.
   */
  lemma {:induction false} OnlyLoopReports(d: Dict, checked: map<string, int>, count: nat, msgs: seq<string>)
    requires count == 0 || (Changed(d) && count == |d|)
    requires LeftRecursionLoop(d, checked, count, msgs).Ok?
    ensures ReportsAfter(LeftRecursionLoop(d, checked, count, msgs).value, msgs)
    decreases Measure(d)
  {
    var settled := Settle(d, checked);
    var d1 := settled.0;
    if |d1| > 0 {
      LoopRound(d, checked, count, msgs);
      var loop := FindLoopSpec(d1).value;
      var d2 := ForcedFirst(d1, loop);
      OnlyLoopReports(d2, settled.1, |d2|, msgs + [LoopMessage(loop)]);
      ReportsAfterStep(LeftRecursionLoop(d, checked, count, msgs).value, msgs, loop);
    } else {
      assert !(count > 0 && count == |d1|);
      assert LeftRecursionLoop(d, checked, count, msgs).value == msgs;
    }
  }

  /** The outer loop of `check_left_recursion`, started on any dictionaries, reports only loops. */
  lemma LoopReportsOnly(d: Dict, checked: map<string, int>)
    ensures LeftRecursionLoop(d, checked, 0, []).Ok? ==>
      forall m :: m in LeftRecursionLoop(d, checked, 0, []).value ==> IsLoopReport(m)
  {
    if LeftRecursionLoop(d, checked, 0, []).Ok? {
      OnlyLoopReports(d, checked, 0, []);
    }
  }

  // ---------------------------------------------------------------------------
  // Properties of check_definition

  /** No duplicate message exactly when the lower-cased names are new and pairwise different. */
  lemma {:induction false} DuplicatesSpec(names: seq<string>, seen: set<string>)
    ensures Duplicates(names, seen) == [] <==>
              (forall i :: 0 <= i < |names| ==> Lower(names[i]) !in seen)
              && (forall i, j :: 0 <= i < j < |names| ==> Lower(names[i]) != Lower(names[j]))
  {
    if names != [] {
      var rest := names[1..];
      var seen2 := seen + {Lower(names[0])};
      DuplicatesSpec(rest, seen2);
      assert forall i :: 1 <= i < |names| ==> names[i] == rest[i - 1];
      if Duplicates(names, seen) == [] {
        forall i, j | 0 <= i < j < |names| ensures Lower(names[i]) != Lower(names[j]) {
          if i > 0 { assert Lower(rest[i - 1]) != Lower(rest[j - 1]); }
          else { assert Lower(rest[j - 1]) !in seen2; }
        }
      }
    }
  }

  /** No undefined message in any body exactly when every use names a registered rule. */
  lemma {:induction false} UndefinedAllSpec(uses: seq<seq<Node>>, known: set<string>)
    ensures UndefinedAll(uses, known) == [] <==> AllDeclared(uses, known)
  {
    if uses != [] {
      UndefinedSpec(uses[0], known);
      UndefinedAllSpec(uses[1..], known);
      assert forall k :: 1 <= k < |uses| ==> uses[k] == uses[1..][k - 1];
    }
  }

  /** No undefined message exactly when every use names a registered rule. */
  lemma {:induction false} UndefinedSpec(ids: seq<Node>, known: set<string>)
    ensures Undefined(ids, known) == [] <==> forall i :: 0 <= i < |ids| ==> Lower(Str(ids[i], NoSpacing)) in known
  {
    if ids != [] {
      UndefinedSpec(ids[1..], known);
      assert forall i :: 1 <= i < |ids| ==> ids[i] == ids[1..][i - 1];
    }
  }
}
