/**
 * The string helpers of `ParserGenerator` in tacparser/parsergenerator.py:
 * the walk that turns a grammar tree into the Python source of a parser
 * (`travel_generate_file` and `get_defstring`), the quoting of literals
 * (`get_literal_value`) and the regular-expression arguments
 * (`get_reg_value`).
 *
 * The generator object's lists and dictionary (`rootname`, `__definition`,
 * `__sub_definition`, `__regdict`) are a state value threaded through the
 * walk; an exception the walk raises is an error result.
 */
module Generator {
  import opened Text
  import opened Nodes
  import opened Reading

  /** The exceptions the walk raises. */
  datatype GenError =
    | IndexOutOfRange        // IndexError: `[0]` on an empty search or child list
    | KeyError(key: string)  // a regular expression missing from `__regdict`
    | RepeatError            // the bare `raise Exception` of a repeat with no count
    | StrError               // `get_str` on a reconstructed node without text

  /** The fields the walk updates. */
  datatype GenState = GenState(rootname: string, definitions: seq<string>, subDefinitions: seq<string>,
                               regdict: map<string, string>)

  /** A freshly constructed generator. */
  const Initial := GenState("", [], [], map[])

  function Spaces(k: nat): (r: string)
    ensures |r| == k && forall i :: 0 <= i < k ==> r[i] == ' '
  {
    seq(k, _ => ' ')
  }

  /** `get_str(d)`; the exception of an unset reconstructed text becomes StrError. */
  function TextOf(n: Node, dict: map<string, string>): (r: Result<string, GenError>)
    ensures r.Err? ==> r.error == StrError
  {
    match GetStr(n, dict)
    case Ok(s) => Ok(s)
    case Err(_) => Err(StrError)
  }

  // ---------------------------------------------------------------------------
  // Quoting: backslashes first, then the enclosing quote

  /** `s.replace("\\", "\\\\").replace(q, "\\" + q)`. */
  function Escape(s: string, q: char): string
  {
    ReplaceChar(ReplaceChar(s, '\\', "\\\\"), q, ['\\', q])
  }

  /** Reading back the body of a Python string literal that uses only the two escapes Escape writes. */
  function Unescape(t: string, q: char): Option<string>
  {
    if t == [] then Some([])
    else if t[0] == '\\' then
      if |t| >= 2 && (t[1] == '\\' || t[1] == q) then
        match Unescape(t[2..], q)
        case None => None
        case Some(r) => Some([t[1]] + r)
      else None
    else if t[0] == q then None
    else
      match Unescape(t[1..], q)
      case None => None
      case Some(r) => Some([t[0]] + r)
  }

  /** A whole literal: the quote, a body Unescape accepts, the quote. */
  function ReadQuoted(t: string, q: char): Option<string>
  {
    if |t| >= 2 && t[0] == q && t[|t| - 1] == q then Unescape(t[1..|t| - 1], q) else None
  }

  function EscapeChar(c: char, q: char): string
  {
    if c == '\\' then "\\\\" else if c == q then ['\\', q] else [c]
  }

  lemma EscapeCons(c: char, s: string, q: char)
    requires q != '\\'
    ensures Escape([c] + s, q) == EscapeChar(c, q) + Escape(s, q)
  {
    var inner := ReplaceChar([c] + s, '\\', "\\\\");
    assert ([c] + s)[0] == c && ([c] + s)[1..] == s;
    assert inner == (if c == '\\' then "\\\\" else [c]) + ReplaceChar(s, '\\', "\\\\");
    ReplaceCharAppend(if c == '\\' then "\\\\" else [c], ReplaceChar(s, '\\', "\\\\"), q, ['\\', q]);
    if c == '\\' {
      assert "\\\\"[1..] == "\\";
      assert ReplaceChar("\\", q, ['\\', q]) == "\\" by { assert "\\"[1..] == []; }
      assert ReplaceChar("\\\\", q, ['\\', q]) == "\\\\";
    } else {
      assert ReplaceChar([c], q, ['\\', q]) == (if c == q then ['\\', q] else [c]) by { assert [c][1..] == []; }
    }
  }

  /** The generated literal means exactly the grammar's text: Python reads the escaped body back to it. */
  lemma {:induction false} EscapeReadsBack(s: string, q: char)
    requires q != '\\'
    ensures Unescape(Escape(s, q), q) == Some(s)
  {
    if s == [] {
      assert Escape(s, q) == [];
    } else {
      var c, rest := s[0], s[1..];
      assert s == [c] + rest;
      EscapeCons(c, rest, q);
      EscapeReadsBack(rest, q);
      var t := EscapeChar(c, q) + Escape(rest, q);
      if c == '\\' || c == q {
        assert t[0] == '\\' && t[1] == c && t[2..] == Escape(rest, q);
      } else {
        assert t[0] == c && t[1..] == Escape(rest, q);
      }
    }
  }

  // ---------------------------------------------------------------------------
  // get_literal_value and get_reg_value

  /** The first contents node below `n`, quoted with `q` after `prefix`. */
  function QuotedContents(n: Node, contents: string, q: char, prefix: string): (r: Result<string, GenError>)
    requires IsNonTerminal(n)
    ensures r.Err? <==> Search(n, contents, false) == [] || TextOf(Search(n, contents, false)[0], NoSpacing).Err?
    ensures r.Err? ==> r.error == (if Search(n, contents, false) == [] then IndexOutOfRange else StrError)
  {
    var cont := Search(n, contents, false);
    if cont == [] then Err(IndexOutOfRange)
    else
      var s :- TextOf(cont[0], NoSpacing);
      Ok(prefix + [q] + Escape(s, q) + [q])
  }

  /** `get_literal_value`: the first quoted literal below the node, ready to paste into Python source. */
  function LiteralValue(n: Node): (r: Result<string, GenError>)
    ensures r.Err? ==> r.error == IndexOutOfRange || r.error == StrError
  {
    if !(n.NonTerminal? || n.Reconstructed?) then Ok("")
    else if n.typ == "SingleQuotesLiteral" then QuotedContents(n, "SingleQuotesLiteralContents", '\'', "")
    else if n.typ == "DoubleQuotesLiteral" then QuotedContents(n, "DoubleQuotesLiteralContents", '"', "")
    else LiteralValues(n.children)
  }

  function LiteralValues(ns: seq<Node>): (r: Result<string, GenError>)
    ensures r.Err? ==> r.error == IndexOutOfRange || r.error == StrError
  {
    if ns == [] then Ok("")
    else
      var h :- LiteralValue(ns[0]);
      var t :- LiteralValues(ns[1..]);
      Ok(h + t)
  }

  /** `get_reg_value`: the pattern literal (a single-quoted one with a `u` prefix) and the flag arguments. */
  function RegValue(n: Node): (r: Result<string, GenError>)
    ensures r.Err? ==> r.error == IndexOutOfRange || r.error == StrError
  {
    if !(n.NonTerminal? || n.Reconstructed?) then Ok("")
    else if n.typ == "SingleQuotesLiteral" then QuotedContents(n, "SingleQuotesLiteralContents", '\'', "u")
    else if n.typ == "DoubleQuotesLiteral" then QuotedContents(n, "DoubleQuotesLiteralContents", '"', "")
    else if n.typ == "RegularExpOptions" then
      var opt :- TextOf(n, map["Spacing" := "", "COLON" := ""]);
      Ok(RegOptions(opt))
    else RegValues(n.children)
  }

  function RegValues(ns: seq<Node>): (r: Result<string, GenError>)
    ensures r.Err? ==> r.error == IndexOutOfRange || r.error == StrError
  {
    if ns == [] then Ok("")
    else
      var h :- RegValue(ns[0]);
      var t :- RegValues(ns[1..]);
      Ok(h + t)
  }

  /** The keys of `reg_opt_dic`, in the dictionary's order. */
  const FlagKeys: seq<char> := ['M', 'X', 'A', 'I', 'S']

  /** The same keys in the order of their flag names. */
  const SortedFlagKeys: seq<char> := ['A', 'I', 'M', 'S', 'X']

  function FlagName(k: char): string { "regex." + [k] }

  /** The flag names of the keys that occur in `opt`, in the order of `keys`. */
  function PresentFlags(keys: seq<char>, opt: string): (r: seq<string>)
    ensures forall x :: x in r <==> exists k :: k in keys && k in opt && x == FlagName(k)
  {
    if keys == [] then []
    else
      assert keys == [keys[0]] + keys[1..];
      (if keys[0] in opt then [FlagName(keys[0])] else []) + PresentFlags(keys[1..], opt)
  }

  /** Multi-line matching is on unless the options say `m`. */
  function WithDefault(opt: string): string
  {
    if 'm' in opt then opt else opt + "M"
  }

  /** The options part of `get_reg_value`. */
  function RegOptions(opt: string): (r: string)
    ensures r == "" <==> 'm' in opt && forall k :: k in FlagKeys ==> k !in opt
  {
    var w := WithDefault(opt);
    var options := PresentFlags(FlagKeys, w);
    assert 'm' !in opt ==> 'M' in w && FlagName('M') in options by {
      if 'm' !in opt { assert w[|w| - 1] == 'M'; }
    }
    assert options == [] <==> forall k :: k in FlagKeys ==> k !in w by {
      if options != [] { assert options[0] in options; }
      forall k | k in FlagKeys && k in w ensures FlagName(k) in options { }
    }
    if |options| > 0 then ", " + Join(SortStrings(options), " | ") else ""
  }

  // ---------------------------------------------------------------------------
  // Names

  /** `def_funcname`: the method a definition becomes, `prefix` being "p_", "s_" or "t_". */
  function RuleName(prefix: string, name: string): string
  {
    prefix + Lower(name)
  }

  /** The method an Identifier calls: built-in names such as `_eof` keep no prefix. */
  function CallName(typename: string): string
  {
    var f := Lower(typename);
    if StartsWith(f, "_") then f else "p_" + f
  }

  function IdentifierCall(typename: string): string
  {
    "self._p(self." + CallName(typename) + ", \"" + typename + "\")"
  }

  // ---------------------------------------------------------------------------
  // travel_generate_file and get_defstring

  /** What `travel_generate_file` does for a node type. */
  datatype GenBranch =
    | Grammar | RootDef | Def | MacroDef | SubDef
    | Alternatives | Sequence
    | Wrapped(open: string, close: string)   // a combinator around the children's text
    | Repeat | Regex | Ident | MacroIdent | Lit
    | Other                                  // the children's texts concatenated at the same level

  /** The branch of `travel_generate_file`, tried in the source's order. */
  function GenBranchOf(t: string): GenBranch
  {
    if t == "ExPeg" then Grammar
    else if t == "RootDefinition" then RootDef
    else if t == "Definition" then Def
    else if t == "MacroDefinition" then MacroDef
    else if t == "SubDefinition" then SubDef
    // Expression and MacroExpression concatenate their children exactly as the fallback does.
    else if t == "Expression" || t == "MacroExpression" then Other
    else if t == "Selection" || t == "MacroSelection" then Alternatives
    else if t == "MultiSequence" || t == "MacroMultiSequence" then Sequence
    else if t == "AndPrefix" || t == "MacroAndPrefix" then Wrapped("self._and(", ")")
    else if t == "NotPrefix" || t == "MacroNotPrefix" then Wrapped("self._not(", ")")
    else if t == "SkipPrefix" then Wrapped("self._skip(", ")")
    else if t == "QuestionSuffix" || t == "MacroQuestionSuffix" then Wrapped("self._opt(", ")")
    else if t == "StarSuffix" || t == "MacroStarSuffix" then Wrapped("self._rpt(", ", 0)")
    else if t == "PlusSuffix" || t == "MacroPlusSuffix" then Wrapped("self._rpt(", ", 1)")
    else if t == "RepeatSuffix" || t == "MacroRepeatSuffix" then Repeat
    else if t == "RegularExp" then Regex
    else if t == "Identifier" then Ident
    else if t == "MacroIdentifier" then MacroIdent
    else if t == "Literal" then Lit
    else Other
  }

  /**
   * The bounds the repeat branch reads, searching everything below `n`:
   * "n,n" when one RepeatCnt is found, "m,n" when one MinRepeat and one
   * MaxRepeat are, the bare `raise Exception` otherwise. The walk calls it
   * on the RepeatSuffix node itself, as the code is written, so the search
   * also looks inside the repeated expression.
   */
  function RepeatRangeBelow(n: Node): (r: Result<string, GenError>)
    requires IsNonTerminal(n)
    ensures r.Err? ==> r.error == RepeatError || r.error == StrError
    ensures r.Err? && r.error == RepeatError <==> |Search(n, "RepeatCnt", false)| != 1
                                                  && (|Search(n, "MinRepeat", false)| != 1 || |Search(n, "MaxRepeat", false)| != 1)
  {
    var rc := Search(n, "RepeatCnt", false);
    var rmin := Search(n, "MinRepeat", false);
    var rmax := Search(n, "MaxRepeat", false);
    if |rc| == 1 then
      var k :- TextOf(rc[0], NoSpacing);
      Ok(k + "," + k)
    else if |rmin| == 1 && |rmax| == 1 then
      var lo :- TextOf(rmin[0], NoSpacing);
      var hi :- TextOf(rmax[0], NoSpacing);
      Ok(lo + "," + hi)
    else Err(RepeatError)
  }

  /**
   * The corrected reading of the bounds, read from the repeat's own
   * RepeatNum child: "n,n" for `{n}`, "m,n" for `{m,n}`, whatever repeats
   * the repeated expression holds.  The walk does not use it.
   */
  function RepeatRange(n: Node): (r: Result<string, GenError>)
    requires IsNonTerminal(n)
    ensures r.Err? ==> r.error == RepeatError || r.error == StrError
  {
    var nums := FilterType(n.children, "RepeatNum");
    if nums == [] then Err(RepeatError)
    else
      assert nums[0] in nums;
      RepeatRangeBelow(nums[0])
  }

  /** `travel_generate_file(tree, level)`: the generated text and the generator's new state. */
  function Travel(n: Node, level: nat, st: GenState): (r: Result<(string, GenState), GenError>)
    ensures !(n.NonTerminal? || n.Reconstructed?) ==> r == Ok(("", st))
    decreases n, 2
  {
    if !(n.NonTerminal? || n.Reconstructed?) then Ok(("", st))
    else
      var b := GenBranchOf(n.typ);
      if b.Grammar? || b.Other? then
        var r :- TravelAll(n.children, if b.Grammar? then 4 else level, st);
        Ok((Concat(r.0), r.1))
      else if b.RootDef? || b.Def? || b.MacroDef? || b.SubDef? then DefinitionText(n, b, level, st)
      else if b.Alternatives? || b.Sequence? || b.Wrapped? || b.Repeat? then CombinatorText(n, b, level, st)
      else
        var t :- LeafCall(n, b, st);
        Ok((t, st))
  }

  /** The definition branches: the root records its name, the others become methods. */
  function DefinitionText(n: Node, b: GenBranch, level: nat, st: GenState): Result<(string, GenState), GenError>
    requires n.NonTerminal? || n.Reconstructed?
    requires b.RootDef? || b.Def? || b.MacroDef? || b.SubDef?
    decreases n, 1
  {
    if b.RootDef? then
      var ids := Search(n, "DefinitionIdentifier", false);
      if ids == [] then Err(IndexOutOfRange)
      else
        var name :- TextOf(ids[0], NoSpacing);
        var r :- TravelAll(n.children, level, st.(rootname := name));
        Ok((Concat(r.0), r.1))
    else
      var ids := FilterType(n.children, if b.MacroDef? then "MacroIdentifier" else "DefinitionIdentifier");
      if ids == [] then Err(IndexOutOfRange)
      else
        var name :- TextOf(ids[0], NoSpacing);
        if b.Def? then DefString(n, RuleName("p_", name), level, st.(definitions := st.definitions + [name]))
        else if b.MacroDef? then DefString(n, RuleName("t_", name), level, st)
        else
          var r :- DefString(n, RuleName("s_", name), level, st);
          Ok((r.0, r.1.(subDefinitions := r.1.subDefinitions + [name])))
  }

  /**
   * The combinator branches: the children's texts, ten columns further in,
   * inside the call; the repeat's bounds are searched below the whole node.
   */
  function CombinatorText(n: Node, b: GenBranch, level: nat, st: GenState): Result<(string, GenState), GenError>
    requires n.NonTerminal? || n.Reconstructed?
    requires b.Alternatives? || b.Sequence? || b.Wrapped? || b.Repeat?
    decreases n, 1
  {
    if b.Alternatives? then
      var r :- TravelSequences(n.children, level + 10, st);
      Ok(("self._sel(" + Join(r.0, ",\n" + Spaces(level + 10)) + "\n" + Spaces(level + 10) + ")", r.1))
    else if b.Sequence? then
      var r :- TravelAll(n.children, level + 10, st);
      Ok(("self._seq(" + Join(r.0, ",\n" + Spaces(level + 10)) + "\n" + Spaces(level + 10) + ")", r.1))
    else if b.Wrapped? then
      var r :- TravelAll(n.children, level + 10, st);
      Ok((b.open + Concat(r.0) + b.close, r.1))
    else
      var rep :- RepeatRangeBelow(n);
      var r :- TravelAll(n.children, level + 10, st);
      Ok(("self._rpt(" + Concat(r.0) + ", " + rep + ")", r.1))
  }

  /** The branches that end the walk: a pattern, a rule call, a macro call or a literal. */
  function LeafCall(n: Node, b: GenBranch, st: GenState): Result<string, GenError>
    requires n.NonTerminal? || n.Reconstructed?
  {
    if b.Regex? then
      var key :- RegValue(n);
      if key in st.regdict then Ok("self._r(self." + st.regdict[key] + ")") else Err(KeyError(key))
    else if b.Ident? then
      var name :- TextOf(n, NoSpacing);
      Ok(IdentifierCall(name))
    else if b.MacroIdent? then
      var name :- TextOf(n, NoSpacing);
      Ok("self._trm(self." + RuleName("t_", name) + ")")
    else
      var lit :- LiteralValue(n);
      Ok("self._l(" + lit + (if Search(n, "LiteralOption", false) == [] then ")" else ", nocase=True)"))
  }

  /** The list comprehension over the children: one text each, in order. */
  function TravelAll(ns: seq<Node>, level: nat, st: GenState): Result<(seq<string>, GenState), GenError>
    decreases ns
  {
    if ns == [] then Ok(([], st))
    else
      var h :- Travel(ns[0], level, st);
      var t :- TravelAll(ns[1..], level, h.1);
      Ok(([h.0] + t.0, t.1))
  }

  /** The alternatives of a selection: only the Sequence and MacroSequence children, the "/" marks skipped. */
  function TravelSequences(ns: seq<Node>, level: nat, st: GenState): Result<(seq<string>, GenState), GenError>
    decreases ns
  {
    if ns == [] then Ok(([], st))
    else if Type(ns[0]) == "Sequence" || Type(ns[0]) == "MacroSequence" then
      var h :- Travel(ns[0], level, st);
      var t :- TravelSequences(ns[1..], level, h.1);
      Ok(([h.0] + t.0, t.1))
    else TravelSequences(ns[1..], level, st)
  }

  /** `get_defstring`: the compiled patterns, the method header, the grammar text as comments and the body. */
  function DefString(n: Node, defname: string, level: nat, st: GenState): (r: Result<(string, GenState), GenError>)
    requires n.NonTerminal? || n.Reconstructed?
    ensures FilterType(n.children, "DefinitionExpression") == [] && FilterType(n.children, "MacroExpression") == [] ==> r.Err?
    decreases n, 0
  {
    var orig :- TextOf(n, map[]);
    var comments := CommentLines(Lines(orig), level);
    var regs :- RegexDefs(Search(n, "RegularExp", false), defname, level, 0, st);
    var exprs := FilterType(n.children, "DefinitionExpression");
    var defnode := if exprs != [] then exprs else FilterType(n.children, "MacroExpression");
    if defnode == [] then Err(IndexOutOfRange)
    else
      assert defnode[0] in n.children;
      var e :- Travel(defnode[0], level + 11, regs.1);
      Ok(("\n" + regs.0 + Spaces(level) + "def " + defname + "(self):\n" + comments
          + Spaces(level + 4) + "return " + e.0 + "\n", e.1))
  }

  /** The pattern loop of `get_defstring`: the i-th pattern is compiled as `_reg_<defname><i>`. */
  function RegexDefs(regs: seq<Node>, defname: string, level: nat, i: nat, st: GenState)
    : Result<(string, GenState), GenError>
    decreases |regs| - i
  {
    if i >= |regs| then Ok(("", st))
    else
      var strreg :- RegValue(regs[i]);
      var title := "_reg_" + defname + NatToString(i);
      var rest :- RegexDefs(regs, defname, level, i + 1, st.(regdict := st.regdict[strreg := title]));
      Ok((Spaces(level) + title + " = regex.compile(" + strreg + ")\n\n" + rest.0, rest.1))
  }

  /** A line of `splitlines()`: the line without its break. */
  function StripBreak(line: string): string
  {
    if |line| >= 2 && line[|line| - 2..] == "\r\n" then line[..|line| - 2]
    else if |line| >= 1 && IsLineBreak(line[|line| - 1]) then line[..|line| - 1]
    else line
  }

  /** `s.splitlines()`. */
  function Lines(s: string): (r: seq<string>)
    ensures |r| == |SplitLines(s)|
  {
    var withEnds := SplitLines(s);
    seq(|withEnds|, i requires 0 <= i < |withEnds| => StripBreak(withEnds[i]))
  }

  /** The comment loop of `get_defstring`: every non-empty line of the grammar text as a comment. */
  function CommentLines(lines: seq<string>, level: nat): string
  {
    if lines == [] then ""
    else (if lines[0] != "" then Spaces(level + 4) + "# " + lines[0] + "\n" else "") + CommentLines(lines[1..], level)
  }
}
