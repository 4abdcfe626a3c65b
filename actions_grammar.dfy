/**
 * The AST-actions selector language of tacparser/actionsparser.py as a rule
 * table for the engine.
 */
module ActionsGrammar {
  import opened Text
  import opened Patterns
  import opened Reading
  import opened Engine
  import Grammars
  import Driver

  // ---------------------------------------------------------------------------
  // The rules, one constant per `p_` method

  const Actions: Expr := Seq([Rpt(Sel([Call("p_actiondefinition", "ActionDefinition"), Skip(Call("p_comment", "Comment")), Skip(Call("p_s", "S"))]), 0, -1), Call("_eof", "_EOF")])

  const ActionDefinition: Expr := Seq([Call("p_selector", "Selector"), Rpt(Seq([Skip(Call("p_comma", "COMMA")), Call("p_selector", "Selector")]), 0, -1), Skip(Call("p_curl_open", "CURL_OPEN")), Call("p_action", "Action"), Skip(Call("p_semicolon", "SEMICOLON")), Rpt(Seq([Call("p_action", "Action"), Skip(Call("p_semicolon", "SEMICOLON"))]), 0, -1), Skip(Call("p_curl_close", "CURL_CLOSE"))])

  /** Regular expression `.` */
  const Comment: Expr := Sel([Seq([Call("p_line_comment_start", "LINE_COMMENT_START"), Call("p_arbitrarytext", "ArbitraryText"), Call("p_endofline", "EndOfLine")]), Seq([Call("p_comment_start", "COMMENT_START"), Rpt(Seq([Not(Call("p_comment_end", "COMMENT_END")), Reg(Dot)]), 0, -1), Call("p_comment_end", "COMMENT_END")])])

  /** Regular expression `[^\r\n]*` */
  const ArbitraryText: Expr := Reg(Star(Class([CharRange('\n', '\n'), CharRange('\r', '\r')], true)))

  const Selector: Expr := Rpt(Sel([Call("p_ontheleft", "OnTheLeft"), Call("p_ontheright", "OnTheRight"), Call("p_forwardto", "ForwardTo"), Call("p_nextto", "NextTo"), Call("p_descendants", "Descendants"), Call("p_ancestor", "Ancestor"), Call("p_children", "Children"), Call("p_parent", "Parent")]), 1, -1)

  const OnTheRight: Expr := Seq([Skip(Call("p_plusplus", "PLUSPLUS")), Call("p_conditions", "Conditions")])

  const OnTheLeft: Expr := Seq([Skip(Call("p_minusminus", "MINUSMINUS")), Call("p_conditions", "Conditions")])

  const ForwardTo: Expr := Seq([Skip(Call("p_minus", "MINUS")), Call("p_conditions", "Conditions")])

  const NextTo: Expr := Seq([Skip(Call("p_plus", "PLUS")), Call("p_conditions", "Conditions")])

  const Descendants: Expr := Sel([Seq([Skip(Call("p_much_greater_than", "MUCH_GREATER_THAN")), Call("p_conditions", "Conditions")]), Call("p_conditions", "Conditions")])

  const Children: Expr := Seq([Skip(Call("p_greater_than", "GREATER_THAN")), Call("p_conditions", "Conditions")])

  const Ancestor: Expr := Seq([Skip(Call("p_much_less_than", "MUCH_LESS_THAN")), Call("p_conditions", "Conditions")])

  const Parent: Expr := Seq([Skip(Call("p_less_than", "LESS_THAN")), Call("p_conditions", "Conditions")])

  const Conditions: Expr := Seq([Call("p_identifier", "Identifier"), Rpt(Call("p_orcondition", "OrCondition"), 0, -1)])

  /** Regular expression `[a-zA-Z][a-zA-Z0-9_]*` */
  const Identifier: Expr := Seq([Reg(Cat(Class([CharRange('a', 'z'), CharRange('A', 'Z')], false), Star(Class([CharRange('a', 'z'), CharRange('A', 'Z'), CharRange('0', '9'), CharRange('_', '_')], false)))), Skip(Opt(Call("p_s", "S")))])

  const OrCondition: Expr := Seq([Skip(Call("p_braket_open", "BRAKET_OPEN")), Call("p_singlecondition", "SingleCondition"), Rpt(Seq([Skip(Call("p_vertical_bar", "VERTICAL_BAR")), Call("p_singlecondition", "SingleCondition")]), 0, -1), Skip(Call("p_braket_close", "BRAKET_CLOSE"))])

  const SingleCondition: Expr := Sel([Call("p_slice", "Slice"), Call("p_linecolumnlimitation", "LineColumnLimitation"), Call("p_attributelimitation", "AttributeLimitation")])

  const Slice: Expr := Sel([Call("p_fromto", "FromTo"), Call("p_number", "Number")])

  const FromTo: Expr := Seq([Call("p_startnumber", "StartNumber"), Skip(Call("p_colon", "COLON")), Call("p_endnumber", "EndNumber")])

  const StartNumber: Expr := Opt(Call("p_number", "Number"))

  const EndNumber: Expr := Opt(Call("p_number", "Number"))

  /** Regular expression `0|[1-9][0-9]*` */
  const Number: Expr := Seq([Opt(Lit("-", false)), Reg(Alt(Str("0"), Cat(Class([CharRange('1', '9')], false), Star(Class([CharRange('0', '9')], false))))), Skip(Opt(Call("p_s", "S")))])

  const LineColumnLimitation: Expr := Sel([Call("p_graterlimitation", "GraterLimitation"), Call("p_lesslimitation", "LessLimitation"), Call("p_graterequallimitation", "GraterEqualLimitation"), Call("p_lessequallimitation", "LessEqualLimitation"), Call("p_equallimitation", "EqualLimitation")])

  const GraterLimitation: Expr := Seq([Call("p_lineorcolumn", "LineOrColumn"), Skip(Call("p_greater_than", "GREATER_THAN")), Call("p_positivenumber", "PositiveNumber")])

  const LessLimitation: Expr := Seq([Call("p_lineorcolumn", "LineOrColumn"), Skip(Call("p_less_than", "LESS_THAN")), Call("p_positivenumber", "PositiveNumber")])

  const GraterEqualLimitation: Expr := Seq([Call("p_lineorcolumn", "LineOrColumn"), Skip(Call("p_greater_equal", "GREATER_EQUAL")), Call("p_positivenumber", "PositiveNumber")])

  const LessEqualLimitation: Expr := Seq([Call("p_lineorcolumn", "LineOrColumn"), Skip(Call("p_less_equal", "LESS_EQUAL")), Call("p_positivenumber", "PositiveNumber")])

  const EqualLimitation: Expr := Seq([Call("p_lineorcolumn", "LineOrColumn"), Skip(Call("p_equal_equal", "EQUAL_EQUAL")), Call("p_positivenumber", "PositiveNumber")])

  const LineOrColumn: Expr := Sel([Call("p_startline", "StartLine"), Call("p_startcolumn", "StartColumn"), Call("p_endline", "EndLine"), Call("p_endcolumn", "EndColumn")])

  const StartLine: Expr := Skip(Call("p_start_line", "START_LINE"))

  const StartColumn: Expr := Skip(Call("p_start_column", "START_COLUMN"))

  const EndLine: Expr := Skip(Call("p_end_line", "END_LINE"))

  const EndColumn: Expr := Skip(Call("p_end_column", "END_COLUMN"))

  /** Regular expression `0|[1-9][0-9]*` */
  const PositiveNumber: Expr := Seq([Reg(Alt(Str("0"), Cat(Class([CharRange('1', '9')], false), Star(Class([CharRange('0', '9')], false))))), Skip(Opt(Call("p_s", "S")))])

  const START_LINE: Expr := Seq([Lit("@L", true), Opt(Call("p_s", "S"))])

  const START_COLUMN: Expr := Seq([Lit("@C", true), Opt(Call("p_s", "S"))])

  const END_LINE: Expr := Seq([Lit("@EL", true), Opt(Call("p_s", "S"))])

  const END_COLUMN: Expr := Seq([Lit("@EC", true), Opt(Call("p_s", "S"))])

  const AttributeLimitation: Expr := Sel([Call("p_attributeequal", "AttributeEqual"), Call("p_attributestartswith", "AttributeStartsWith"), Call("p_attibuteendswith", "AttibuteEndsWith"), Call("p_attributecontains", "AttributeContains"), Call("p_attributenoteaual", "AttributeNotEaual"), Call("p_attributenotstartswith", "AttributeNotStartsWith"), Call("p_attributenotendswith", "AttributeNotEndsWith"), Call("p_attributenotcontains", "AttributeNotContains"), Call("p_attributesimple", "AttributeSimple")])

  const AttributeEqual: Expr := Seq([Call("p_attributename", "AttributeName"), Skip(Call("p_equal_equal", "EQUAL_EQUAL")), Call("p_attributevalue", "AttributeValue")])

  const AttributeStartsWith: Expr := Seq([Call("p_attributename", "AttributeName"), Skip(Call("p_starts_with", "STARTS_WITH")), Call("p_attributevalue", "AttributeValue")])

  const AttibuteEndsWith: Expr := Seq([Call("p_attributename", "AttributeName"), Skip(Call("p_ends_with", "ENDS_WITH")), Call("p_attributevalue", "AttributeValue")])

  const AttributeContains: Expr := Seq([Call("p_attributename", "AttributeName"), Skip(Call("p_contains", "CONTAINS")), Call("p_attributevalue", "AttributeValue")])

  const AttributeNotEaual: Expr := Seq([Call("p_attributename", "AttributeName"), Skip(Call("p_not_equal", "NOT_EQUAL")), Call("p_attributevalue", "AttributeValue")])

  const AttributeNotStartsWith: Expr := Seq([Call("p_attributename", "AttributeName"), Skip(Call("p_not_starts_with", "NOT_STARTS_WITH")), Call("p_attributevalue", "AttributeValue")])

  const AttributeNotEndsWith: Expr := Seq([Call("p_attributename", "AttributeName"), Skip(Call("p_not_ends_with", "NOT_ENDS_WITH")), Call("p_attributevalue", "AttributeValue")])

  const AttributeNotContains: Expr := Seq([Call("p_attributename", "AttributeName"), Skip(Call("p_not_contains", "NOT_CONTAINS")), Call("p_attributevalue", "AttributeValue")])

  const AttributeSimple: Expr := Seq([Call("p_attributename", "AttributeName"), Skip(Opt(Call("p_s", "S")))])

  /** Regular expression `[a-z_]+` */
  const AttributeName: Expr := Reg(Plus(Class([CharRange('a', 'z'), CharRange('_', '_')], false)))

  const STARTS_WITH: Expr := Seq([Lit("^=", false), Opt(Call("p_s", "S"))])

  const ENDS_WITH: Expr := Seq([Lit("$=", false), Opt(Call("p_s", "S"))])

  const CONTAINS: Expr := Seq([Lit("*=", false), Opt(Call("p_s", "S"))])

  const NOT_EQUAL: Expr := Seq([Lit("!=", false), Opt(Call("p_s", "S"))])

  const NOT_STARTS_WITH: Expr := Seq([Lit("!^", false), Opt(Call("p_s", "S"))])

  const NOT_ENDS_WITH: Expr := Seq([Lit("!$", false), Opt(Call("p_s", "S"))])

  const NOT_CONTAINS: Expr := Seq([Lit("!*", false), Opt(Call("p_s", "S"))])

  const AttributeValue: Expr := Call("p_literal", "Literal")

  const Action: Expr := Call("p_substitution", "Substitution")

  const Substitution: Expr := Seq([Call("p_variable", "Variable"), Skip(Call("p_equal", "EQUAL")), Call("p_value", "Value")])

  const Variable: Expr := Sel([Call("p_thisvalue", "ThisValue"), Call("p_targetvalue", "TargetValue")])

  const Value: Expr := Sel([Call("p_literal", "Literal"), Call("p_thisstring", "ThisString"), Call("p_targetstring", "TargetString"), Call("p_thisvalue", "ThisValue"), Call("p_targetvalue", "TargetValue")])

  const Literal: Expr := Sel([Call("p_singlequotesliteral", "SingleQuotesLiteral"), Call("p_doublequotesliteral", "DoubleQuotesLiteral")])

  /** Regular expression `(\.|[^'\])*` */
  const SingleQuotesLiteral: Expr := Seq([Skip(Lit("\'", false)), Reg(Star(Alt(Cat(Str("\\"), Dot), Class([CharRange('\'', '\''), CharRange('\\', '\\')], true)))), Skip(Lit("\'", false))])

  /** Regular expression `(\.|[^"\])*` */
  const DoubleQuotesLiteral: Expr := Seq([Skip(Lit("\"", false)), Reg(Star(Alt(Cat(Str("\\"), Dot), Class([CharRange('"', '"'), CharRange('\\', '\\')], true)))), Skip(Lit("\"", false))])

  const EmptyList: Expr := Lit("[]", false)

  const ThisString: Expr := Seq([Skip(Call("p_this", "THIS")), Skip(Call("p_dot", "DOT")), Skip(Lit("get_str()", false)), Skip(Opt(Call("p_s", "S")))])

  const TargetString: Expr := Seq([Skip(Call("p_dollar", "DOLLAR")), Skip(Call("p_dot", "DOT")), Skip(Lit("get_str()", false)), Skip(Opt(Call("p_s", "S")))])

  const ThisValue: Expr := Seq([Skip(Call("p_this", "THIS")), Skip(Call("p_dot", "DOT")), Call("p_parametername", "ParameterName")])

  const TargetValue: Expr := Seq([Skip(Call("p_dollar", "DOLLAR")), Skip(Call("p_dot", "DOT")), Call("p_parametername", "ParameterName")])

  /** Regular expression `[a-z][a-z_]*` */
  const ParameterName: Expr := Seq([Reg(Cat(Class([CharRange('a', 'z')], false), Star(Class([CharRange('a', 'z'), CharRange('_', '_')], false)))), Skip(Opt(Call("p_s", "S")))])

  const THIS: Expr := Seq([Lit("this", false), Opt(Call("p_s", "S"))])

  const APPEND: Expr := Lit("append", false)

  /** Regular expression `\t` */
  const S: Expr := Rpt(Sel([Lit(" ", false), Reg(Str("\t")), Call("p_endofline", "EndOfLine")]), 1, -1)

  /** Regular expression `\r\n|\n|\r` */
  const EndOfLine: Expr := Reg(Alt(Str("\r\n"), Alt(Str("\n"), Str("\r"))))

  const OPEN: Expr := Seq([Lit("(", false), Opt(Call("p_s", "S"))])

  const CLOSE: Expr := Seq([Lit(")", false), Opt(Call("p_s", "S"))])

  const CURL_OPEN: Expr := Seq([Lit("{", false), Opt(Call("p_s", "S"))])

  const CURL_CLOSE: Expr := Seq([Lit("}", false), Opt(Call("p_s", "S"))])

  const BRAKET_OPEN: Expr := Seq([Lit("[", false), Opt(Call("p_s", "S"))])

  const BRAKET_CLOSE: Expr := Seq([Lit("]", false), Opt(Call("p_s", "S"))])

  const COLON: Expr := Seq([Lit(":", false), Opt(Call("p_s", "S"))])

  const COMMA: Expr := Seq([Lit(",", false), Opt(Call("p_s", "S"))])

  const DOT: Expr := Seq([Lit(".", false), Opt(Call("p_s", "S"))])

  const SEMICOLON: Expr := Seq([Lit(";", false), Opt(Call("p_s", "S"))])

  const DOLLAR: Expr := Seq([Lit("$", false), Opt(Call("p_s", "S"))])

  const EQUAL: Expr := Seq([Lit("=", false), Opt(Call("p_s", "S"))])

  const VERTICAL_BAR: Expr := Seq([Lit("|", false), Opt(Call("p_s", "S"))])

  const LINE_COMMENT_START: Expr := Lit("//", false)

  const COMMENT_START: Expr := Lit("/*", false)

  const COMMENT_END: Expr := Seq([Lit("*/", false), Opt(Call("p_s", "S"))])

  const PLUS: Expr := Seq([Lit("+", false), Opt(Call("p_s", "S"))])

  const MINUS: Expr := Seq([Lit("-", false), Opt(Call("p_s", "S"))])

  const PLUSPLUS: Expr := Seq([Lit("++", false), Opt(Call("p_s", "S"))])

  const MINUSMINUS: Expr := Seq([Lit("--", false), Opt(Call("p_s", "S"))])

  const GREATER_THAN: Expr := Seq([Lit(">", false), Opt(Call("p_s", "S"))])

  const GREATER_EQUAL: Expr := Seq([Lit(">=", false), Opt(Call("p_s", "S"))])

  const LESS_THAN: Expr := Seq([Lit("<", false), Opt(Call("p_s", "S"))])

  const LESS_EQUAL: Expr := Seq([Lit("<=", false), Opt(Call("p_s", "S"))])

  const EQUAL_EQUAL: Expr := Seq([Lit("==", false), Opt(Call("p_s", "S"))])

  const MUCH_GREATER_THAN: Expr := Seq([Lit(">>", false), Opt(Call("p_s", "S"))])

  const MUCH_LESS_THAN: Expr := Seq([Lit("<<", false), Opt(Call("p_s", "S"))])

  // The table in chunks of 10 entries

  const Table0: Grammars.Table := [
    ("p_actions", Actions)
  ]

  const Table1: Grammars.Table := [
    ("p_actiondefinition", ActionDefinition)
  ]

  const Table2: Grammars.Table := [
    ("p_comment", Comment),
    ("p_arbitrarytext", ArbitraryText)
  ]

  const Table3: Grammars.Table := [
    ("p_selector", Selector),
    ("p_ontheright", OnTheRight)
  ]

  const Table4: Grammars.Table := [
    ("p_ontheleft", OnTheLeft),
    ("p_forwardto", ForwardTo),
    ("p_nextto", NextTo),
    ("p_descendants", Descendants)
  ]

  const Table5: Grammars.Table := [
    ("p_children", Children),
    ("p_ancestor", Ancestor),
    ("p_parent", Parent),
    ("p_conditions", Conditions),
    ("p_identifier", Identifier)
  ]

  const Table6: Grammars.Table := [
    ("p_orcondition", OrCondition),
    ("p_singlecondition", SingleCondition),
    ("p_slice", Slice)
  ]

  const Table7: Grammars.Table := [
    ("p_fromto", FromTo),
    ("p_startnumber", StartNumber),
    ("p_endnumber", EndNumber),
    ("p_number", Number)
  ]

  const Table8: Grammars.Table := [
    ("p_linecolumnlimitation", LineColumnLimitation),
    ("p_graterlimitation", GraterLimitation)
  ]

  const Table9: Grammars.Table := [
    ("p_lesslimitation", LessLimitation),
    ("p_graterequallimitation", GraterEqualLimitation),
    ("p_lessequallimitation", LessEqualLimitation)
  ]

  const Table10: Grammars.Table := [
    ("p_equallimitation", EqualLimitation),
    ("p_lineorcolumn", LineOrColumn),
    ("p_startline", StartLine),
    ("p_startcolumn", StartColumn),
    ("p_endline", EndLine)
  ]

  const Table11: Grammars.Table := [
    ("p_endcolumn", EndColumn),
    ("p_positivenumber", PositiveNumber),
    ("p_start_line", START_LINE),
    ("p_start_column", START_COLUMN),
    ("p_end_line", END_LINE),
    ("p_end_column", END_COLUMN)
  ]

  const Table12: Grammars.Table := [
    ("p_attributelimitation", AttributeLimitation)
  ]

  const Table13: Grammars.Table := [
    ("p_attributeequal", AttributeEqual),
    ("p_attributestartswith", AttributeStartsWith),
    ("p_attibuteendswith", AttibuteEndsWith)
  ]

  const Table14: Grammars.Table := [
    ("p_attributecontains", AttributeContains),
    ("p_attributenoteaual", AttributeNotEaual),
    ("p_attributenotstartswith", AttributeNotStartsWith)
  ]

  const Table15: Grammars.Table := [
    ("p_attributenotendswith", AttributeNotEndsWith),
    ("p_attributenotcontains", AttributeNotContains),
    ("p_attributesimple", AttributeSimple),
    ("p_attributename", AttributeName),
    ("p_starts_with", STARTS_WITH),
    ("p_ends_with", ENDS_WITH)
  ]

  const Table16: Grammars.Table := [
    ("p_contains", CONTAINS),
    ("p_not_equal", NOT_EQUAL),
    ("p_not_starts_with", NOT_STARTS_WITH),
    ("p_not_ends_with", NOT_ENDS_WITH),
    ("p_not_contains", NOT_CONTAINS),
    ("p_attributevalue", AttributeValue),
    ("p_action", Action),
    ("p_substitution", Substitution)
  ]

  const Table17: Grammars.Table := [
    ("p_variable", Variable),
    ("p_value", Value),
    ("p_literal", Literal),
    ("p_singlequotesliteral", SingleQuotesLiteral),
    ("p_doublequotesliteral", DoubleQuotesLiteral),
    ("p_emptylist", EmptyList)
  ]

  const Table18: Grammars.Table := [
    ("p_thisstring", ThisString),
    ("p_targetstring", TargetString),
    ("p_thisvalue", ThisValue)
  ]

  const Table19: Grammars.Table := [
    ("p_targetvalue", TargetValue),
    ("p_parametername", ParameterName),
    ("p_this", THIS),
    ("p_append", APPEND),
    ("p_s", S),
    ("p_endofline", EndOfLine),
    ("p_open", OPEN),
    ("p_close", CLOSE)
  ]

  const Table20: Grammars.Table := [
    ("p_curl_open", CURL_OPEN),
    ("p_curl_close", CURL_CLOSE),
    ("p_braket_open", BRAKET_OPEN),
    ("p_braket_close", BRAKET_CLOSE),
    ("p_colon", COLON),
    ("p_comma", COMMA),
    ("p_dot", DOT),
    ("p_semicolon", SEMICOLON)
  ]

  const Table21: Grammars.Table := [
    ("p_dollar", DOLLAR),
    ("p_equal", EQUAL),
    ("p_vertical_bar", VERTICAL_BAR),
    ("p_line_comment_start", LINE_COMMENT_START),
    ("p_comment_start", COMMENT_START),
    ("p_comment_end", COMMENT_END),
    ("p_plus", PLUS),
    ("p_minus", MINUS)
  ]

  const Table22: Grammars.Table := [
    ("p_plusplus", PLUSPLUS),
    ("p_minusminus", MINUSMINUS),
    ("p_greater_than", GREATER_THAN),
    ("p_greater_equal", GREATER_EQUAL),
    ("p_less_than", LESS_THAN),
    ("p_less_equal", LESS_EQUAL),
    ("p_equal_equal", EQUAL_EQUAL),
    ("p_much_greater_than", MUCH_GREATER_THAN)
  ]

  const Table23: Grammars.Table := [
    ("p_much_less_than", MUCH_LESS_THAN),
    ("_eof", Eof)
  ]

  /** The rule methods in declaration order, and `_eof` bound to end of input. */
  const Table: Grammars.Table := Table0 + Table1 + Table2 + Table3 + Table4 + Table5 + Table6 + Table7 + Table8 + Table9 + Table10 + Table11 + Table12 + Table13 + Table14 + Table15 + Table16 + Table17 + Table18 + Table19 + Table20 + Table21 + Table22 + Table23

  /** `def_dict`: each type name and the rule method it selects. */
  const DefDict: seq<(string, string)> := [
    ("Actions", "p_actions"),
    ("ActionDefinition", "p_actiondefinition"),
    ("Comment", "p_comment"),
    ("ArbitraryText", "p_arbitrarytext"),
    ("Selector", "p_selector"),
    ("OnTheRight", "p_ontheright"),
    ("OnTheLeft", "p_ontheleft"),
    ("ForwardTo", "p_forwardto"),
    ("NextTo", "p_nextto"),
    ("Descendants", "p_descendants"),
    ("Children", "p_children"),
    ("Ancestor", "p_ancestor"),
    ("Parent", "p_parent"),
    ("Conditions", "p_conditions"),
    ("Identifier", "p_identifier"),
    ("OrCondition", "p_orcondition"),
    ("SingleCondition", "p_singlecondition"),
    ("Slice", "p_slice"),
    ("FromTo", "p_fromto"),
    ("StartNumber", "p_startnumber"),
    ("EndNumber", "p_endnumber"),
    ("Number", "p_number"),
    ("LineColumnLimitation", "p_linecolumnlimitation"),
    ("GraterLimitation", "p_graterlimitation"),
    ("LessLimitation", "p_lesslimitation"),
    ("GraterEqualLimitation", "p_graterequallimitation"),
    ("LessEqualLimitation", "p_lessequallimitation"),
    ("EqualLimitation", "p_equallimitation"),
    ("LineOrColumn", "p_lineorcolumn"),
    ("StartLine", "p_startline"),
    ("StartColumn", "p_startcolumn"),
    ("EndLine", "p_endline"),
    ("EndColumn", "p_endcolumn"),
    ("PositiveNumber", "p_positivenumber"),
    ("START_LINE", "p_start_line"),
    ("START_COLUMN", "p_start_column"),
    ("END_LINE", "p_end_line"),
    ("END_COLUMN", "p_end_column"),
    ("AttributeLimitation", "p_attributelimitation"),
    ("AttributeEqual", "p_attributeequal"),
    ("AttributeStartsWith", "p_attributestartswith"),
    ("AttibuteEndsWith", "p_attibuteendswith"),
    ("AttributeContains", "p_attributecontains"),
    ("AttributeNotEaual", "p_attributenoteaual"),
    ("AttributeNotStartsWith", "p_attributenotstartswith"),
    ("AttributeNotEndsWith", "p_attributenotendswith"),
    ("AttributeNotContains", "p_attributenotcontains"),
    ("AttributeSimple", "p_attributesimple"),
    ("AttributeName", "p_attributename"),
    ("STARTS_WITH", "p_starts_with"),
    ("ENDS_WITH", "p_ends_with"),
    ("CONTAINS", "p_contains"),
    ("NOT_EQUAL", "p_not_equal"),
    ("NOT_STARTS_WITH", "p_not_starts_with"),
    ("NOT_ENDS_WITH", "p_not_ends_with"),
    ("NOT_CONTAINS", "p_not_contains"),
    ("AttributeValue", "p_attributevalue"),
    ("Action", "p_action"),
    ("Substitution", "p_substitution"),
    ("Variable", "p_variable"),
    ("Value", "p_value"),
    ("Literal", "p_literal"),
    ("SingleQuotesLiteral", "p_singlequotesliteral"),
    ("DoubleQuotesLiteral", "p_doublequotesliteral"),
    ("EmptyList", "p_emptylist"),
    ("ThisString", "p_thisstring"),
    ("TargetString", "p_targetstring"),
    ("ThisValue", "p_thisvalue"),
    ("TargetValue", "p_targetvalue"),
    ("ParameterName", "p_parametername"),
    ("THIS", "p_this"),
    ("APPEND", "p_append"),
    ("S", "p_s"),
    ("EndOfLine", "p_endofline"),
    ("OPEN", "p_open"),
    ("CLOSE", "p_close"),
    ("CURL_OPEN", "p_curl_open"),
    ("CURL_CLOSE", "p_curl_close"),
    ("BRAKET_OPEN", "p_braket_open"),
    ("BRAKET_CLOSE", "p_braket_close"),
    ("COLON", "p_colon"),
    ("COMMA", "p_comma"),
    ("DOT", "p_dot"),
    ("SEMICOLON", "p_semicolon"),
    ("DOLLAR", "p_dollar"),
    ("EQUAL", "p_equal"),
    ("VERTICAL_BAR", "p_vertical_bar"),
    ("LINE_COMMENT_START", "p_line_comment_start"),
    ("COMMENT_START", "p_comment_start"),
    ("COMMENT_END", "p_comment_end"),
    ("PLUS", "p_plus"),
    ("MINUS", "p_minus"),
    ("PLUSPLUS", "p_plusplus"),
    ("MINUSMINUS", "p_minusminus"),
    ("GREATER_THAN", "p_greater_than"),
    ("GREATER_EQUAL", "p_greater_equal"),
    ("LESS_THAN", "p_less_than"),
    ("LESS_EQUAL", "p_less_equal"),
    ("EQUAL_EQUAL", "p_equal_equal"),
    ("MUCH_GREATER_THAN", "p_much_greater_than"),
    ("MUCH_LESS_THAN", "p_much_less_than")
  ]

  // ---------------------------------------------------------------------------
  // The table is closed
  /** The names of the parts together are those of the table. */
  lemma TableNames()
    ensures Grammars.Names(Table) == Grammars.Names(Table0) + Grammars.Names(Table1) + Grammars.Names(Table2) + Grammars.Names(Table3) + Grammars.Names(Table4) + Grammars.Names(Table5) + Grammars.Names(Table6) + Grammars.Names(Table7) + Grammars.Names(Table8) + Grammars.Names(Table9) + Grammars.Names(Table10) + Grammars.Names(Table11) + Grammars.Names(Table12) + Grammars.Names(Table13) + Grammars.Names(Table14) + Grammars.Names(Table15) + Grammars.Names(Table16) + Grammars.Names(Table17) + Grammars.Names(Table18) + Grammars.Names(Table19) + Grammars.Names(Table20) + Grammars.Names(Table21) + Grammars.Names(Table22) + Grammars.Names(Table23)
  {
    Grammars.NamesAppend(Table0, Table1);
    Grammars.NamesAppend(Table0 + Table1, Table2);
    Grammars.NamesAppend(Table0 + Table1 + Table2, Table3);
    Grammars.NamesAppend(Table0 + Table1 + Table2 + Table3, Table4);
    Grammars.NamesAppend(Table0 + Table1 + Table2 + Table3 + Table4, Table5);
    Grammars.NamesAppend(Table0 + Table1 + Table2 + Table3 + Table4 + Table5, Table6);
    Grammars.NamesAppend(Table0 + Table1 + Table2 + Table3 + Table4 + Table5 + Table6, Table7);
    Grammars.NamesAppend(Table0 + Table1 + Table2 + Table3 + Table4 + Table5 + Table6 + Table7, Table8);
    Grammars.NamesAppend(Table0 + Table1 + Table2 + Table3 + Table4 + Table5 + Table6 + Table7 + Table8, Table9);
    Grammars.NamesAppend(Table0 + Table1 + Table2 + Table3 + Table4 + Table5 + Table6 + Table7 + Table8 + Table9, Table10);
    Grammars.NamesAppend(Table0 + Table1 + Table2 + Table3 + Table4 + Table5 + Table6 + Table7 + Table8 + Table9 + Table10, Table11);
    Grammars.NamesAppend(Table0 + Table1 + Table2 + Table3 + Table4 + Table5 + Table6 + Table7 + Table8 + Table9 + Table10 + Table11, Table12);
    Grammars.NamesAppend(Table0 + Table1 + Table2 + Table3 + Table4 + Table5 + Table6 + Table7 + Table8 + Table9 + Table10 + Table11 + Table12, Table13);
    Grammars.NamesAppend(Table0 + Table1 + Table2 + Table3 + Table4 + Table5 + Table6 + Table7 + Table8 + Table9 + Table10 + Table11 + Table12 + Table13, Table14);
    Grammars.NamesAppend(Table0 + Table1 + Table2 + Table3 + Table4 + Table5 + Table6 + Table7 + Table8 + Table9 + Table10 + Table11 + Table12 + Table13 + Table14, Table15);
    Grammars.NamesAppend(Table0 + Table1 + Table2 + Table3 + Table4 + Table5 + Table6 + Table7 + Table8 + Table9 + Table10 + Table11 + Table12 + Table13 + Table14 + Table15, Table16);
    Grammars.NamesAppend(Table0 + Table1 + Table2 + Table3 + Table4 + Table5 + Table6 + Table7 + Table8 + Table9 + Table10 + Table11 + Table12 + Table13 + Table14 + Table15 + Table16, Table17);
    Grammars.NamesAppend(Table0 + Table1 + Table2 + Table3 + Table4 + Table5 + Table6 + Table7 + Table8 + Table9 + Table10 + Table11 + Table12 + Table13 + Table14 + Table15 + Table16 + Table17, Table18);
    Grammars.NamesAppend(Table0 + Table1 + Table2 + Table3 + Table4 + Table5 + Table6 + Table7 + Table8 + Table9 + Table10 + Table11 + Table12 + Table13 + Table14 + Table15 + Table16 + Table17 + Table18, Table19);
    Grammars.NamesAppend(Table0 + Table1 + Table2 + Table3 + Table4 + Table5 + Table6 + Table7 + Table8 + Table9 + Table10 + Table11 + Table12 + Table13 + Table14 + Table15 + Table16 + Table17 + Table18 + Table19, Table20);
    Grammars.NamesAppend(Table0 + Table1 + Table2 + Table3 + Table4 + Table5 + Table6 + Table7 + Table8 + Table9 + Table10 + Table11 + Table12 + Table13 + Table14 + Table15 + Table16 + Table17 + Table18 + Table19 + Table20, Table21);
    Grammars.NamesAppend(Table0 + Table1 + Table2 + Table3 + Table4 + Table5 + Table6 + Table7 + Table8 + Table9 + Table10 + Table11 + Table12 + Table13 + Table14 + Table15 + Table16 + Table17 + Table18 + Table19 + Table20 + Table21, Table22);
    Grammars.NamesAppend(Table0 + Table1 + Table2 + Table3 + Table4 + Table5 + Table6 + Table7 + Table8 + Table9 + Table10 + Table11 + Table12 + Table13 + Table14 + Table15 + Table16 + Table17 + Table18 + Table19 + Table20 + Table21 + Table22, Table23);
  }

  lemma PartNames0(names: set<string>)
    requires names == Grammars.Names(Table0) + Grammars.Names(Table1) + Grammars.Names(Table2) + Grammars.Names(Table3) + Grammars.Names(Table4) + Grammars.Names(Table5) + Grammars.Names(Table6) + Grammars.Names(Table7) + Grammars.Names(Table8) + Grammars.Names(Table9) + Grammars.Names(Table10) + Grammars.Names(Table11) + Grammars.Names(Table12) + Grammars.Names(Table13) + Grammars.Names(Table14) + Grammars.Names(Table15) + Grammars.Names(Table16) + Grammars.Names(Table17) + Grammars.Names(Table18) + Grammars.Names(Table19) + Grammars.Names(Table20) + Grammars.Names(Table21) + Grammars.Names(Table22) + Grammars.Names(Table23)
    ensures Grammars.Names(Table0) <= names && Grammars.Names(Table1) <= names && Grammars.Names(Table2) <= names && Grammars.Names(Table3) <= names
  {
  }

  lemma PartNames1(names: set<string>)
    requires names == Grammars.Names(Table0) + Grammars.Names(Table1) + Grammars.Names(Table2) + Grammars.Names(Table3) + Grammars.Names(Table4) + Grammars.Names(Table5) + Grammars.Names(Table6) + Grammars.Names(Table7) + Grammars.Names(Table8) + Grammars.Names(Table9) + Grammars.Names(Table10) + Grammars.Names(Table11) + Grammars.Names(Table12) + Grammars.Names(Table13) + Grammars.Names(Table14) + Grammars.Names(Table15) + Grammars.Names(Table16) + Grammars.Names(Table17) + Grammars.Names(Table18) + Grammars.Names(Table19) + Grammars.Names(Table20) + Grammars.Names(Table21) + Grammars.Names(Table22) + Grammars.Names(Table23)
    ensures Grammars.Names(Table4) <= names && Grammars.Names(Table5) <= names && Grammars.Names(Table6) <= names && Grammars.Names(Table7) <= names
  {
  }

  lemma PartNames2(names: set<string>)
    requires names == Grammars.Names(Table0) + Grammars.Names(Table1) + Grammars.Names(Table2) + Grammars.Names(Table3) + Grammars.Names(Table4) + Grammars.Names(Table5) + Grammars.Names(Table6) + Grammars.Names(Table7) + Grammars.Names(Table8) + Grammars.Names(Table9) + Grammars.Names(Table10) + Grammars.Names(Table11) + Grammars.Names(Table12) + Grammars.Names(Table13) + Grammars.Names(Table14) + Grammars.Names(Table15) + Grammars.Names(Table16) + Grammars.Names(Table17) + Grammars.Names(Table18) + Grammars.Names(Table19) + Grammars.Names(Table20) + Grammars.Names(Table21) + Grammars.Names(Table22) + Grammars.Names(Table23)
    ensures Grammars.Names(Table8) <= names && Grammars.Names(Table9) <= names && Grammars.Names(Table10) <= names && Grammars.Names(Table11) <= names
  {
  }

  lemma PartNames3(names: set<string>)
    requires names == Grammars.Names(Table0) + Grammars.Names(Table1) + Grammars.Names(Table2) + Grammars.Names(Table3) + Grammars.Names(Table4) + Grammars.Names(Table5) + Grammars.Names(Table6) + Grammars.Names(Table7) + Grammars.Names(Table8) + Grammars.Names(Table9) + Grammars.Names(Table10) + Grammars.Names(Table11) + Grammars.Names(Table12) + Grammars.Names(Table13) + Grammars.Names(Table14) + Grammars.Names(Table15) + Grammars.Names(Table16) + Grammars.Names(Table17) + Grammars.Names(Table18) + Grammars.Names(Table19) + Grammars.Names(Table20) + Grammars.Names(Table21) + Grammars.Names(Table22) + Grammars.Names(Table23)
    ensures Grammars.Names(Table12) <= names && Grammars.Names(Table13) <= names && Grammars.Names(Table14) <= names && Grammars.Names(Table15) <= names
  {
  }

  lemma PartNames4(names: set<string>)
    requires names == Grammars.Names(Table0) + Grammars.Names(Table1) + Grammars.Names(Table2) + Grammars.Names(Table3) + Grammars.Names(Table4) + Grammars.Names(Table5) + Grammars.Names(Table6) + Grammars.Names(Table7) + Grammars.Names(Table8) + Grammars.Names(Table9) + Grammars.Names(Table10) + Grammars.Names(Table11) + Grammars.Names(Table12) + Grammars.Names(Table13) + Grammars.Names(Table14) + Grammars.Names(Table15) + Grammars.Names(Table16) + Grammars.Names(Table17) + Grammars.Names(Table18) + Grammars.Names(Table19) + Grammars.Names(Table20) + Grammars.Names(Table21) + Grammars.Names(Table22) + Grammars.Names(Table23)
    ensures Grammars.Names(Table16) <= names && Grammars.Names(Table17) <= names && Grammars.Names(Table18) <= names && Grammars.Names(Table19) <= names
  {
  }

  lemma PartNames5(names: set<string>)
    requires names == Grammars.Names(Table0) + Grammars.Names(Table1) + Grammars.Names(Table2) + Grammars.Names(Table3) + Grammars.Names(Table4) + Grammars.Names(Table5) + Grammars.Names(Table6) + Grammars.Names(Table7) + Grammars.Names(Table8) + Grammars.Names(Table9) + Grammars.Names(Table10) + Grammars.Names(Table11) + Grammars.Names(Table12) + Grammars.Names(Table13) + Grammars.Names(Table14) + Grammars.Names(Table15) + Grammars.Names(Table16) + Grammars.Names(Table17) + Grammars.Names(Table18) + Grammars.Names(Table19) + Grammars.Names(Table20) + Grammars.Names(Table21) + Grammars.Names(Table22) + Grammars.Names(Table23)
    ensures Grammars.Names(Table20) <= names && Grammars.Names(Table21) <= names && Grammars.Names(Table22) <= names && Grammars.Names(Table23) <= names
  {
  }

  lemma Defined0()
    ensures "p_actions" in Grammars.Names(Table0)
  {
    assert Table0[0].0 in Grammars.Names(Table0);
  }

  lemma Defined1()
    ensures "p_actiondefinition" in Grammars.Names(Table1)
  {
    assert Table1[0].0 in Grammars.Names(Table1);
  }

  lemma Defined2()
    ensures "p_comment" in Grammars.Names(Table2) && "p_arbitrarytext" in Grammars.Names(Table2)
  {
    assert Table2[0].0 in Grammars.Names(Table2);
    assert Table2[1].0 in Grammars.Names(Table2);
  }

  lemma Defined3()
    ensures "p_selector" in Grammars.Names(Table3) && "p_ontheright" in Grammars.Names(Table3)
  {
    assert Table3[0].0 in Grammars.Names(Table3);
    assert Table3[1].0 in Grammars.Names(Table3);
  }

  lemma Defined4()
    ensures "p_ontheleft" in Grammars.Names(Table4) && "p_forwardto" in Grammars.Names(Table4) && "p_nextto" in Grammars.Names(Table4) && "p_descendants" in Grammars.Names(Table4)
  {
    assert Table4[0].0 in Grammars.Names(Table4);
    assert Table4[1].0 in Grammars.Names(Table4);
    assert Table4[2].0 in Grammars.Names(Table4);
    assert Table4[3].0 in Grammars.Names(Table4);
  }

  lemma Defined5()
    ensures "p_children" in Grammars.Names(Table5) && "p_ancestor" in Grammars.Names(Table5) && "p_parent" in Grammars.Names(Table5) && "p_conditions" in Grammars.Names(Table5) && "p_identifier" in Grammars.Names(Table5)
  {
    assert Table5[0].0 in Grammars.Names(Table5);
    assert Table5[1].0 in Grammars.Names(Table5);
    assert Table5[2].0 in Grammars.Names(Table5);
    assert Table5[3].0 in Grammars.Names(Table5);
    assert Table5[4].0 in Grammars.Names(Table5);
  }

  lemma Defined6()
    ensures "p_orcondition" in Grammars.Names(Table6) && "p_singlecondition" in Grammars.Names(Table6) && "p_slice" in Grammars.Names(Table6)
  {
    assert Table6[0].0 in Grammars.Names(Table6);
    assert Table6[1].0 in Grammars.Names(Table6);
    assert Table6[2].0 in Grammars.Names(Table6);
  }

  lemma Defined7()
    ensures "p_fromto" in Grammars.Names(Table7) && "p_startnumber" in Grammars.Names(Table7) && "p_endnumber" in Grammars.Names(Table7) && "p_number" in Grammars.Names(Table7)
  {
    assert Table7[0].0 in Grammars.Names(Table7);
    assert Table7[1].0 in Grammars.Names(Table7);
    assert Table7[2].0 in Grammars.Names(Table7);
    assert Table7[3].0 in Grammars.Names(Table7);
  }

  lemma Defined8()
    ensures "p_linecolumnlimitation" in Grammars.Names(Table8) && "p_graterlimitation" in Grammars.Names(Table8)
  {
    assert Table8[0].0 in Grammars.Names(Table8);
    assert Table8[1].0 in Grammars.Names(Table8);
  }

  lemma Defined9()
    ensures "p_lesslimitation" in Grammars.Names(Table9) && "p_graterequallimitation" in Grammars.Names(Table9) && "p_lessequallimitation" in Grammars.Names(Table9)
  {
    assert Table9[0].0 in Grammars.Names(Table9);
    assert Table9[1].0 in Grammars.Names(Table9);
    assert Table9[2].0 in Grammars.Names(Table9);
  }

  lemma Defined10()
    ensures "p_equallimitation" in Grammars.Names(Table10) && "p_lineorcolumn" in Grammars.Names(Table10) && "p_startline" in Grammars.Names(Table10) && "p_startcolumn" in Grammars.Names(Table10) && "p_endline" in Grammars.Names(Table10)
  {
    assert Table10[0].0 in Grammars.Names(Table10);
    assert Table10[1].0 in Grammars.Names(Table10);
    assert Table10[2].0 in Grammars.Names(Table10);
    assert Table10[3].0 in Grammars.Names(Table10);
    assert Table10[4].0 in Grammars.Names(Table10);
  }

  lemma Defined11()
    ensures "p_endcolumn" in Grammars.Names(Table11) && "p_positivenumber" in Grammars.Names(Table11) && "p_start_line" in Grammars.Names(Table11) && "p_start_column" in Grammars.Names(Table11) && "p_end_line" in Grammars.Names(Table11) && "p_end_column" in Grammars.Names(Table11)
  {
    assert Table11[0].0 in Grammars.Names(Table11);
    assert Table11[1].0 in Grammars.Names(Table11);
    assert Table11[2].0 in Grammars.Names(Table11);
    assert Table11[3].0 in Grammars.Names(Table11);
    assert Table11[4].0 in Grammars.Names(Table11);
    assert Table11[5].0 in Grammars.Names(Table11);
  }

  lemma Defined12()
    ensures "p_attributelimitation" in Grammars.Names(Table12)
  {
    assert Table12[0].0 in Grammars.Names(Table12);
  }

  lemma Defined13()
    ensures "p_attributeequal" in Grammars.Names(Table13) && "p_attributestartswith" in Grammars.Names(Table13) && "p_attibuteendswith" in Grammars.Names(Table13)
  {
    assert Table13[0].0 in Grammars.Names(Table13);
    assert Table13[1].0 in Grammars.Names(Table13);
    assert Table13[2].0 in Grammars.Names(Table13);
  }

  lemma Defined14()
    ensures "p_attributecontains" in Grammars.Names(Table14) && "p_attributenoteaual" in Grammars.Names(Table14) && "p_attributenotstartswith" in Grammars.Names(Table14)
  {
    assert Table14[0].0 in Grammars.Names(Table14);
    assert Table14[1].0 in Grammars.Names(Table14);
    assert Table14[2].0 in Grammars.Names(Table14);
  }

  lemma Defined15()
    ensures "p_attributenotendswith" in Grammars.Names(Table15) && "p_attributenotcontains" in Grammars.Names(Table15) && "p_attributesimple" in Grammars.Names(Table15) && "p_attributename" in Grammars.Names(Table15) && "p_starts_with" in Grammars.Names(Table15) && "p_ends_with" in Grammars.Names(Table15)
  {
    assert Table15[0].0 in Grammars.Names(Table15);
    assert Table15[1].0 in Grammars.Names(Table15);
    assert Table15[2].0 in Grammars.Names(Table15);
    assert Table15[3].0 in Grammars.Names(Table15);
    assert Table15[4].0 in Grammars.Names(Table15);
    assert Table15[5].0 in Grammars.Names(Table15);
  }

  lemma Defined16()
    ensures "p_contains" in Grammars.Names(Table16) && "p_not_equal" in Grammars.Names(Table16) && "p_not_starts_with" in Grammars.Names(Table16) && "p_not_ends_with" in Grammars.Names(Table16) && "p_not_contains" in Grammars.Names(Table16) && "p_attributevalue" in Grammars.Names(Table16) && "p_action" in Grammars.Names(Table16) && "p_substitution" in Grammars.Names(Table16)
  {
    assert Table16[0].0 in Grammars.Names(Table16);
    assert Table16[1].0 in Grammars.Names(Table16);
    assert Table16[2].0 in Grammars.Names(Table16);
    assert Table16[3].0 in Grammars.Names(Table16);
    assert Table16[4].0 in Grammars.Names(Table16);
    assert Table16[5].0 in Grammars.Names(Table16);
    assert Table16[6].0 in Grammars.Names(Table16);
    assert Table16[7].0 in Grammars.Names(Table16);
  }

  lemma Defined17()
    ensures "p_variable" in Grammars.Names(Table17) && "p_value" in Grammars.Names(Table17) && "p_literal" in Grammars.Names(Table17) && "p_singlequotesliteral" in Grammars.Names(Table17) && "p_doublequotesliteral" in Grammars.Names(Table17) && "p_emptylist" in Grammars.Names(Table17)
  {
    assert Table17[0].0 in Grammars.Names(Table17);
    assert Table17[1].0 in Grammars.Names(Table17);
    assert Table17[2].0 in Grammars.Names(Table17);
    assert Table17[3].0 in Grammars.Names(Table17);
    assert Table17[4].0 in Grammars.Names(Table17);
    assert Table17[5].0 in Grammars.Names(Table17);
  }

  lemma Defined18()
    ensures "p_thisstring" in Grammars.Names(Table18) && "p_targetstring" in Grammars.Names(Table18) && "p_thisvalue" in Grammars.Names(Table18)
  {
    assert Table18[0].0 in Grammars.Names(Table18);
    assert Table18[1].0 in Grammars.Names(Table18);
    assert Table18[2].0 in Grammars.Names(Table18);
  }

  lemma Defined19()
    ensures "p_targetvalue" in Grammars.Names(Table19) && "p_parametername" in Grammars.Names(Table19) && "p_this" in Grammars.Names(Table19) && "p_append" in Grammars.Names(Table19) && "p_s" in Grammars.Names(Table19) && "p_endofline" in Grammars.Names(Table19) && "p_open" in Grammars.Names(Table19) && "p_close" in Grammars.Names(Table19)
  {
    assert Table19[0].0 in Grammars.Names(Table19);
    assert Table19[1].0 in Grammars.Names(Table19);
    assert Table19[2].0 in Grammars.Names(Table19);
    assert Table19[3].0 in Grammars.Names(Table19);
    assert Table19[4].0 in Grammars.Names(Table19);
    assert Table19[5].0 in Grammars.Names(Table19);
    assert Table19[6].0 in Grammars.Names(Table19);
    assert Table19[7].0 in Grammars.Names(Table19);
  }

  lemma Defined20()
    ensures "p_curl_open" in Grammars.Names(Table20) && "p_curl_close" in Grammars.Names(Table20) && "p_braket_open" in Grammars.Names(Table20) && "p_braket_close" in Grammars.Names(Table20) && "p_colon" in Grammars.Names(Table20) && "p_comma" in Grammars.Names(Table20) && "p_dot" in Grammars.Names(Table20) && "p_semicolon" in Grammars.Names(Table20)
  {
    assert Table20[0].0 in Grammars.Names(Table20);
    assert Table20[1].0 in Grammars.Names(Table20);
    assert Table20[2].0 in Grammars.Names(Table20);
    assert Table20[3].0 in Grammars.Names(Table20);
    assert Table20[4].0 in Grammars.Names(Table20);
    assert Table20[5].0 in Grammars.Names(Table20);
    assert Table20[6].0 in Grammars.Names(Table20);
    assert Table20[7].0 in Grammars.Names(Table20);
  }

  lemma Defined21()
    ensures "p_dollar" in Grammars.Names(Table21) && "p_equal" in Grammars.Names(Table21) && "p_vertical_bar" in Grammars.Names(Table21) && "p_line_comment_start" in Grammars.Names(Table21) && "p_comment_start" in Grammars.Names(Table21) && "p_comment_end" in Grammars.Names(Table21) && "p_plus" in Grammars.Names(Table21) && "p_minus" in Grammars.Names(Table21)
  {
    assert Table21[0].0 in Grammars.Names(Table21);
    assert Table21[1].0 in Grammars.Names(Table21);
    assert Table21[2].0 in Grammars.Names(Table21);
    assert Table21[3].0 in Grammars.Names(Table21);
    assert Table21[4].0 in Grammars.Names(Table21);
    assert Table21[5].0 in Grammars.Names(Table21);
    assert Table21[6].0 in Grammars.Names(Table21);
    assert Table21[7].0 in Grammars.Names(Table21);
  }

  lemma Defined22()
    ensures "p_plusplus" in Grammars.Names(Table22) && "p_minusminus" in Grammars.Names(Table22) && "p_greater_than" in Grammars.Names(Table22) && "p_greater_equal" in Grammars.Names(Table22) && "p_less_than" in Grammars.Names(Table22) && "p_less_equal" in Grammars.Names(Table22) && "p_equal_equal" in Grammars.Names(Table22) && "p_much_greater_than" in Grammars.Names(Table22)
  {
    assert Table22[0].0 in Grammars.Names(Table22);
    assert Table22[1].0 in Grammars.Names(Table22);
    assert Table22[2].0 in Grammars.Names(Table22);
    assert Table22[3].0 in Grammars.Names(Table22);
    assert Table22[4].0 in Grammars.Names(Table22);
    assert Table22[5].0 in Grammars.Names(Table22);
    assert Table22[6].0 in Grammars.Names(Table22);
    assert Table22[7].0 in Grammars.Names(Table22);
  }

  lemma Defined23()
    ensures "p_much_less_than" in Grammars.Names(Table23) && "_eof" in Grammars.Names(Table23)
  {
    assert Table23[0].0 in Grammars.Names(Table23);
    assert Table23[1].0 in Grammars.Names(Table23);
  }

  lemma ActionsCalls(names: set<string>)
    requires "p_actiondefinition" in names && "p_comment" in names && "p_s" in names && "_eof" in names
    ensures Grammars.CallsOnly(Actions, names)
  {
  }

  lemma ActionDefinitionCalls(names: set<string>)
    requires "p_selector" in names && "p_comma" in names && "p_curl_open" in names && "p_action" in names && "p_semicolon" in names && "p_curl_close" in names
    ensures Grammars.CallsOnly(ActionDefinition, names)
  {
  }

  lemma CommentCalls(names: set<string>)
    requires "p_line_comment_start" in names && "p_arbitrarytext" in names && "p_endofline" in names && "p_comment_start" in names && "p_comment_end" in names
    ensures Grammars.CallsOnly(Comment, names)
  {
  }

  lemma SelectorCalls(names: set<string>)
    requires "p_ontheleft" in names && "p_ontheright" in names && "p_forwardto" in names && "p_nextto" in names && "p_descendants" in names && "p_ancestor" in names && "p_children" in names && "p_parent" in names
    ensures Grammars.CallsOnly(Selector, names)
  {
  }

  lemma OnTheRightCalls(names: set<string>)
    requires "p_plusplus" in names && "p_conditions" in names
    ensures Grammars.CallsOnly(OnTheRight, names)
  {
  }

  lemma OnTheLeftCalls(names: set<string>)
    requires "p_minusminus" in names && "p_conditions" in names
    ensures Grammars.CallsOnly(OnTheLeft, names)
  {
  }

  lemma ForwardToCalls(names: set<string>)
    requires "p_minus" in names && "p_conditions" in names
    ensures Grammars.CallsOnly(ForwardTo, names)
  {
  }

  lemma NextToCalls(names: set<string>)
    requires "p_plus" in names && "p_conditions" in names
    ensures Grammars.CallsOnly(NextTo, names)
  {
  }

  lemma DescendantsCalls(names: set<string>)
    requires "p_much_greater_than" in names && "p_conditions" in names
    ensures Grammars.CallsOnly(Descendants, names)
  {
  }

  lemma ChildrenCalls(names: set<string>)
    requires "p_greater_than" in names && "p_conditions" in names
    ensures Grammars.CallsOnly(Children, names)
  {
  }

  lemma AncestorCalls(names: set<string>)
    requires "p_much_less_than" in names && "p_conditions" in names
    ensures Grammars.CallsOnly(Ancestor, names)
  {
  }

  lemma ParentCalls(names: set<string>)
    requires "p_less_than" in names && "p_conditions" in names
    ensures Grammars.CallsOnly(Parent, names)
  {
  }

  lemma ConditionsCalls(names: set<string>)
    requires "p_identifier" in names && "p_orcondition" in names
    ensures Grammars.CallsOnly(Conditions, names)
  {
  }

  lemma IdentifierCalls(names: set<string>)
    requires "p_s" in names
    ensures Grammars.CallsOnly(Identifier, names)
  {
  }

  lemma OrConditionCalls(names: set<string>)
    requires "p_braket_open" in names && "p_singlecondition" in names && "p_vertical_bar" in names && "p_braket_close" in names
    ensures Grammars.CallsOnly(OrCondition, names)
  {
  }

  lemma SingleConditionCalls(names: set<string>)
    requires "p_slice" in names && "p_linecolumnlimitation" in names && "p_attributelimitation" in names
    ensures Grammars.CallsOnly(SingleCondition, names)
  {
  }

  lemma SliceCalls(names: set<string>)
    requires "p_fromto" in names && "p_number" in names
    ensures Grammars.CallsOnly(Slice, names)
  {
  }

  lemma FromToCalls(names: set<string>)
    requires "p_startnumber" in names && "p_colon" in names && "p_endnumber" in names
    ensures Grammars.CallsOnly(FromTo, names)
  {
  }

  lemma StartNumberCalls(names: set<string>)
    requires "p_number" in names
    ensures Grammars.CallsOnly(StartNumber, names)
  {
  }

  lemma EndNumberCalls(names: set<string>)
    requires "p_number" in names
    ensures Grammars.CallsOnly(EndNumber, names)
  {
  }

  lemma NumberCalls(names: set<string>)
    requires "p_s" in names
    ensures Grammars.CallsOnly(Number, names)
  {
  }

  lemma LineColumnLimitationCalls(names: set<string>)
    requires "p_graterlimitation" in names && "p_lesslimitation" in names && "p_graterequallimitation" in names && "p_lessequallimitation" in names && "p_equallimitation" in names
    ensures Grammars.CallsOnly(LineColumnLimitation, names)
  {
  }

  lemma GraterLimitationCalls(names: set<string>)
    requires "p_lineorcolumn" in names && "p_greater_than" in names && "p_positivenumber" in names
    ensures Grammars.CallsOnly(GraterLimitation, names)
  {
  }

  lemma LessLimitationCalls(names: set<string>)
    requires "p_lineorcolumn" in names && "p_less_than" in names && "p_positivenumber" in names
    ensures Grammars.CallsOnly(LessLimitation, names)
  {
  }

  lemma GraterEqualLimitationCalls(names: set<string>)
    requires "p_lineorcolumn" in names && "p_greater_equal" in names && "p_positivenumber" in names
    ensures Grammars.CallsOnly(GraterEqualLimitation, names)
  {
  }

  lemma LessEqualLimitationCalls(names: set<string>)
    requires "p_lineorcolumn" in names && "p_less_equal" in names && "p_positivenumber" in names
    ensures Grammars.CallsOnly(LessEqualLimitation, names)
  {
  }

  lemma EqualLimitationCalls(names: set<string>)
    requires "p_lineorcolumn" in names && "p_equal_equal" in names && "p_positivenumber" in names
    ensures Grammars.CallsOnly(EqualLimitation, names)
  {
  }

  lemma LineOrColumnCalls(names: set<string>)
    requires "p_startline" in names && "p_startcolumn" in names && "p_endline" in names && "p_endcolumn" in names
    ensures Grammars.CallsOnly(LineOrColumn, names)
  {
  }

  lemma StartLineCalls(names: set<string>)
    requires "p_start_line" in names
    ensures Grammars.CallsOnly(StartLine, names)
  {
  }

  lemma StartColumnCalls(names: set<string>)
    requires "p_start_column" in names
    ensures Grammars.CallsOnly(StartColumn, names)
  {
  }

  lemma EndLineCalls(names: set<string>)
    requires "p_end_line" in names
    ensures Grammars.CallsOnly(EndLine, names)
  {
  }

  lemma EndColumnCalls(names: set<string>)
    requires "p_end_column" in names
    ensures Grammars.CallsOnly(EndColumn, names)
  {
  }

  lemma PositiveNumberCalls(names: set<string>)
    requires "p_s" in names
    ensures Grammars.CallsOnly(PositiveNumber, names)
  {
  }

  lemma START_LINECalls(names: set<string>)
    requires "p_s" in names
    ensures Grammars.CallsOnly(START_LINE, names)
  {
  }

  lemma START_COLUMNCalls(names: set<string>)
    requires "p_s" in names
    ensures Grammars.CallsOnly(START_COLUMN, names)
  {
  }

  lemma END_LINECalls(names: set<string>)
    requires "p_s" in names
    ensures Grammars.CallsOnly(END_LINE, names)
  {
  }

  lemma END_COLUMNCalls(names: set<string>)
    requires "p_s" in names
    ensures Grammars.CallsOnly(END_COLUMN, names)
  {
  }

  lemma AttributeLimitationCalls(names: set<string>)
    requires "p_attributeequal" in names && "p_attributestartswith" in names && "p_attibuteendswith" in names && "p_attributecontains" in names && "p_attributenoteaual" in names && "p_attributenotstartswith" in names && "p_attributenotendswith" in names && "p_attributenotcontains" in names && "p_attributesimple" in names
    ensures Grammars.CallsOnly(AttributeLimitation, names)
  {
    var e := AttributeLimitation;
    assert Grammars.AllCallsOnly(e, 8, names);
    assert Grammars.AllCallsOnly(e, 7, names);
    assert Grammars.AllCallsOnly(e, 6, names);
    assert Grammars.AllCallsOnly(e, 5, names);
    assert Grammars.AllCallsOnly(e, 4, names);
    assert Grammars.AllCallsOnly(e, 3, names);
    assert Grammars.AllCallsOnly(e, 2, names);
    assert Grammars.AllCallsOnly(e, 1, names);
  }

  lemma AttributeEqualCalls(names: set<string>)
    requires "p_attributename" in names && "p_equal_equal" in names && "p_attributevalue" in names
    ensures Grammars.CallsOnly(AttributeEqual, names)
  {
  }

  lemma AttributeStartsWithCalls(names: set<string>)
    requires "p_attributename" in names && "p_starts_with" in names && "p_attributevalue" in names
    ensures Grammars.CallsOnly(AttributeStartsWith, names)
  {
  }

  lemma AttibuteEndsWithCalls(names: set<string>)
    requires "p_attributename" in names && "p_ends_with" in names && "p_attributevalue" in names
    ensures Grammars.CallsOnly(AttibuteEndsWith, names)
  {
  }

  lemma AttributeContainsCalls(names: set<string>)
    requires "p_attributename" in names && "p_contains" in names && "p_attributevalue" in names
    ensures Grammars.CallsOnly(AttributeContains, names)
  {
  }

  lemma AttributeNotEaualCalls(names: set<string>)
    requires "p_attributename" in names && "p_not_equal" in names && "p_attributevalue" in names
    ensures Grammars.CallsOnly(AttributeNotEaual, names)
  {
  }

  lemma AttributeNotStartsWithCalls(names: set<string>)
    requires "p_attributename" in names && "p_not_starts_with" in names && "p_attributevalue" in names
    ensures Grammars.CallsOnly(AttributeNotStartsWith, names)
  {
  }

  lemma AttributeNotEndsWithCalls(names: set<string>)
    requires "p_attributename" in names && "p_not_ends_with" in names && "p_attributevalue" in names
    ensures Grammars.CallsOnly(AttributeNotEndsWith, names)
  {
  }

  lemma AttributeNotContainsCalls(names: set<string>)
    requires "p_attributename" in names && "p_not_contains" in names && "p_attributevalue" in names
    ensures Grammars.CallsOnly(AttributeNotContains, names)
  {
  }

  lemma AttributeSimpleCalls(names: set<string>)
    requires "p_attributename" in names && "p_s" in names
    ensures Grammars.CallsOnly(AttributeSimple, names)
  {
  }

  lemma STARTS_WITHCalls(names: set<string>)
    requires "p_s" in names
    ensures Grammars.CallsOnly(STARTS_WITH, names)
  {
  }

  lemma ENDS_WITHCalls(names: set<string>)
    requires "p_s" in names
    ensures Grammars.CallsOnly(ENDS_WITH, names)
  {
  }

  lemma CONTAINSCalls(names: set<string>)
    requires "p_s" in names
    ensures Grammars.CallsOnly(CONTAINS, names)
  {
  }

  lemma NOT_EQUALCalls(names: set<string>)
    requires "p_s" in names
    ensures Grammars.CallsOnly(NOT_EQUAL, names)
  {
  }

  lemma NOT_STARTS_WITHCalls(names: set<string>)
    requires "p_s" in names
    ensures Grammars.CallsOnly(NOT_STARTS_WITH, names)
  {
  }

  lemma NOT_ENDS_WITHCalls(names: set<string>)
    requires "p_s" in names
    ensures Grammars.CallsOnly(NOT_ENDS_WITH, names)
  {
  }

  lemma NOT_CONTAINSCalls(names: set<string>)
    requires "p_s" in names
    ensures Grammars.CallsOnly(NOT_CONTAINS, names)
  {
  }

  lemma AttributeValueCalls(names: set<string>)
    requires "p_literal" in names
    ensures Grammars.CallsOnly(AttributeValue, names)
  {
  }

  lemma ActionCalls(names: set<string>)
    requires "p_substitution" in names
    ensures Grammars.CallsOnly(Action, names)
  {
  }

  lemma SubstitutionCalls(names: set<string>)
    requires "p_variable" in names && "p_equal" in names && "p_value" in names
    ensures Grammars.CallsOnly(Substitution, names)
  {
  }

  lemma VariableCalls(names: set<string>)
    requires "p_thisvalue" in names && "p_targetvalue" in names
    ensures Grammars.CallsOnly(Variable, names)
  {
  }

  lemma ValueCalls(names: set<string>)
    requires "p_literal" in names && "p_thisstring" in names && "p_targetstring" in names && "p_thisvalue" in names && "p_targetvalue" in names
    ensures Grammars.CallsOnly(Value, names)
  {
  }

  lemma LiteralCalls(names: set<string>)
    requires "p_singlequotesliteral" in names && "p_doublequotesliteral" in names
    ensures Grammars.CallsOnly(Literal, names)
  {
  }

  lemma ThisStringCalls(names: set<string>)
    requires "p_this" in names && "p_dot" in names && "p_s" in names
    ensures Grammars.CallsOnly(ThisString, names)
  {
  }

  lemma TargetStringCalls(names: set<string>)
    requires "p_dollar" in names && "p_dot" in names && "p_s" in names
    ensures Grammars.CallsOnly(TargetString, names)
  {
  }

  lemma ThisValueCalls(names: set<string>)
    requires "p_this" in names && "p_dot" in names && "p_parametername" in names
    ensures Grammars.CallsOnly(ThisValue, names)
  {
  }

  lemma TargetValueCalls(names: set<string>)
    requires "p_dollar" in names && "p_dot" in names && "p_parametername" in names
    ensures Grammars.CallsOnly(TargetValue, names)
  {
  }

  lemma ParameterNameCalls(names: set<string>)
    requires "p_s" in names
    ensures Grammars.CallsOnly(ParameterName, names)
  {
  }

  lemma THISCalls(names: set<string>)
    requires "p_s" in names
    ensures Grammars.CallsOnly(THIS, names)
  {
  }

  lemma SCalls(names: set<string>)
    requires "p_endofline" in names
    ensures Grammars.CallsOnly(S, names)
  {
  }

  lemma OPENCalls(names: set<string>)
    requires "p_s" in names
    ensures Grammars.CallsOnly(OPEN, names)
  {
  }

  lemma CLOSECalls(names: set<string>)
    requires "p_s" in names
    ensures Grammars.CallsOnly(CLOSE, names)
  {
  }

  lemma CURL_OPENCalls(names: set<string>)
    requires "p_s" in names
    ensures Grammars.CallsOnly(CURL_OPEN, names)
  {
  }

  lemma CURL_CLOSECalls(names: set<string>)
    requires "p_s" in names
    ensures Grammars.CallsOnly(CURL_CLOSE, names)
  {
  }

  lemma BRAKET_OPENCalls(names: set<string>)
    requires "p_s" in names
    ensures Grammars.CallsOnly(BRAKET_OPEN, names)
  {
  }

  lemma BRAKET_CLOSECalls(names: set<string>)
    requires "p_s" in names
    ensures Grammars.CallsOnly(BRAKET_CLOSE, names)
  {
  }

  lemma COLONCalls(names: set<string>)
    requires "p_s" in names
    ensures Grammars.CallsOnly(COLON, names)
  {
  }

  lemma COMMACalls(names: set<string>)
    requires "p_s" in names
    ensures Grammars.CallsOnly(COMMA, names)
  {
  }

  lemma DOTCalls(names: set<string>)
    requires "p_s" in names
    ensures Grammars.CallsOnly(DOT, names)
  {
  }

  lemma SEMICOLONCalls(names: set<string>)
    requires "p_s" in names
    ensures Grammars.CallsOnly(SEMICOLON, names)
  {
  }

  lemma DOLLARCalls(names: set<string>)
    requires "p_s" in names
    ensures Grammars.CallsOnly(DOLLAR, names)
  {
  }

  lemma EQUALCalls(names: set<string>)
    requires "p_s" in names
    ensures Grammars.CallsOnly(EQUAL, names)
  {
  }

  lemma VERTICAL_BARCalls(names: set<string>)
    requires "p_s" in names
    ensures Grammars.CallsOnly(VERTICAL_BAR, names)
  {
  }

  lemma COMMENT_ENDCalls(names: set<string>)
    requires "p_s" in names
    ensures Grammars.CallsOnly(COMMENT_END, names)
  {
  }

  lemma PLUSCalls(names: set<string>)
    requires "p_s" in names
    ensures Grammars.CallsOnly(PLUS, names)
  {
  }

  lemma MINUSCalls(names: set<string>)
    requires "p_s" in names
    ensures Grammars.CallsOnly(MINUS, names)
  {
  }

  lemma PLUSPLUSCalls(names: set<string>)
    requires "p_s" in names
    ensures Grammars.CallsOnly(PLUSPLUS, names)
  {
  }

  lemma MINUSMINUSCalls(names: set<string>)
    requires "p_s" in names
    ensures Grammars.CallsOnly(MINUSMINUS, names)
  {
  }

  lemma GREATER_THANCalls(names: set<string>)
    requires "p_s" in names
    ensures Grammars.CallsOnly(GREATER_THAN, names)
  {
  }

  lemma GREATER_EQUALCalls(names: set<string>)
    requires "p_s" in names
    ensures Grammars.CallsOnly(GREATER_EQUAL, names)
  {
  }

  lemma LESS_THANCalls(names: set<string>)
    requires "p_s" in names
    ensures Grammars.CallsOnly(LESS_THAN, names)
  {
  }

  lemma LESS_EQUALCalls(names: set<string>)
    requires "p_s" in names
    ensures Grammars.CallsOnly(LESS_EQUAL, names)
  {
  }

  lemma EQUAL_EQUALCalls(names: set<string>)
    requires "p_s" in names
    ensures Grammars.CallsOnly(EQUAL_EQUAL, names)
  {
  }

  lemma MUCH_GREATER_THANCalls(names: set<string>)
    requires "p_s" in names
    ensures Grammars.CallsOnly(MUCH_GREATER_THAN, names)
  {
  }

  lemma MUCH_LESS_THANCalls(names: set<string>)
    requires "p_s" in names
    ensures Grammars.CallsOnly(MUCH_LESS_THAN, names)
  {
  }

  lemma Closed0(names: set<string>)
    requires "p_actiondefinition" in names && "p_comment" in names && "p_s" in names && "_eof" in names
    ensures Grammars.TableClosed(Table0, names)
  {
    ActionsCalls(names);
  }

  lemma Closed1(names: set<string>)
    requires "p_selector" in names && "p_comma" in names && "p_curl_open" in names && "p_action" in names && "p_semicolon" in names && "p_curl_close" in names
    ensures Grammars.TableClosed(Table1, names)
  {
    ActionDefinitionCalls(names);
  }

  lemma Closed2(names: set<string>)
    requires "p_line_comment_start" in names && "p_arbitrarytext" in names && "p_endofline" in names && "p_comment_start" in names && "p_comment_end" in names
    ensures Grammars.TableClosed(Table2, names)
  {
    CommentCalls(names);
  }

  lemma Closed3(names: set<string>)
    requires "p_ontheleft" in names && "p_ontheright" in names && "p_forwardto" in names && "p_nextto" in names && "p_descendants" in names && "p_ancestor" in names && "p_children" in names && "p_parent" in names && "p_plusplus" in names && "p_conditions" in names
    ensures Grammars.TableClosed(Table3, names)
  {
    SelectorCalls(names);
    OnTheRightCalls(names);
  }

  lemma Closed4(names: set<string>)
    requires "p_minusminus" in names && "p_conditions" in names && "p_minus" in names && "p_plus" in names && "p_much_greater_than" in names
    ensures Grammars.TableClosed(Table4, names)
  {
    OnTheLeftCalls(names);
    ForwardToCalls(names);
    NextToCalls(names);
    DescendantsCalls(names);
  }

  lemma Closed5(names: set<string>)
    requires "p_greater_than" in names && "p_conditions" in names && "p_much_less_than" in names && "p_less_than" in names && "p_identifier" in names && "p_orcondition" in names && "p_s" in names
    ensures Grammars.TableClosed(Table5, names)
  {
    ChildrenCalls(names);
    AncestorCalls(names);
    ParentCalls(names);
    ConditionsCalls(names);
    IdentifierCalls(names);
  }

  lemma Closed6(names: set<string>)
    requires "p_braket_open" in names && "p_singlecondition" in names && "p_vertical_bar" in names && "p_braket_close" in names && "p_slice" in names && "p_linecolumnlimitation" in names && "p_attributelimitation" in names && "p_fromto" in names && "p_number" in names
    ensures Grammars.TableClosed(Table6, names)
  {
    OrConditionCalls(names);
    SingleConditionCalls(names);
    SliceCalls(names);
  }

  lemma Closed7(names: set<string>)
    requires "p_startnumber" in names && "p_colon" in names && "p_endnumber" in names && "p_number" in names && "p_s" in names
    ensures Grammars.TableClosed(Table7, names)
  {
    FromToCalls(names);
    StartNumberCalls(names);
    EndNumberCalls(names);
    NumberCalls(names);
  }

  lemma Closed8(names: set<string>)
    requires "p_graterlimitation" in names && "p_lesslimitation" in names && "p_graterequallimitation" in names && "p_lessequallimitation" in names && "p_equallimitation" in names && "p_lineorcolumn" in names && "p_greater_than" in names && "p_positivenumber" in names
    ensures Grammars.TableClosed(Table8, names)
  {
    LineColumnLimitationCalls(names);
    GraterLimitationCalls(names);
  }

  lemma Closed9(names: set<string>)
    requires "p_lineorcolumn" in names && "p_less_than" in names && "p_positivenumber" in names && "p_greater_equal" in names && "p_less_equal" in names
    ensures Grammars.TableClosed(Table9, names)
  {
    LessLimitationCalls(names);
    GraterEqualLimitationCalls(names);
    LessEqualLimitationCalls(names);
  }

  lemma Closed10(names: set<string>)
    requires "p_lineorcolumn" in names && "p_equal_equal" in names && "p_positivenumber" in names && "p_startline" in names && "p_startcolumn" in names && "p_endline" in names && "p_endcolumn" in names && "p_start_line" in names && "p_start_column" in names && "p_end_line" in names
    ensures Grammars.TableClosed(Table10, names)
  {
    EqualLimitationCalls(names);
    LineOrColumnCalls(names);
    StartLineCalls(names);
    StartColumnCalls(names);
    EndLineCalls(names);
  }

  lemma Closed11(names: set<string>)
    requires "p_end_column" in names && "p_s" in names
    ensures Grammars.TableClosed(Table11, names)
  {
    EndColumnCalls(names);
    PositiveNumberCalls(names);
    START_LINECalls(names);
    START_COLUMNCalls(names);
    END_LINECalls(names);
    END_COLUMNCalls(names);
  }

  lemma Closed12(names: set<string>)
    requires "p_attributeequal" in names && "p_attributestartswith" in names && "p_attibuteendswith" in names && "p_attributecontains" in names && "p_attributenoteaual" in names && "p_attributenotstartswith" in names && "p_attributenotendswith" in names && "p_attributenotcontains" in names && "p_attributesimple" in names
    ensures Grammars.TableClosed(Table12, names)
  {
    AttributeLimitationCalls(names);
  }

  lemma Closed13(names: set<string>)
    requires "p_attributename" in names && "p_equal_equal" in names && "p_attributevalue" in names && "p_starts_with" in names && "p_ends_with" in names
    ensures Grammars.TableClosed(Table13, names)
  {
    AttributeEqualCalls(names);
    AttributeStartsWithCalls(names);
    AttibuteEndsWithCalls(names);
  }

  lemma Closed14(names: set<string>)
    requires "p_attributename" in names && "p_contains" in names && "p_attributevalue" in names && "p_not_equal" in names && "p_not_starts_with" in names
    ensures Grammars.TableClosed(Table14, names)
  {
    AttributeContainsCalls(names);
    AttributeNotEaualCalls(names);
    AttributeNotStartsWithCalls(names);
  }

  lemma Closed15(names: set<string>)
    requires "p_attributename" in names && "p_not_ends_with" in names && "p_attributevalue" in names && "p_not_contains" in names && "p_s" in names
    ensures Grammars.TableClosed(Table15, names)
  {
    AttributeNotEndsWithCalls(names);
    AttributeNotContainsCalls(names);
    AttributeSimpleCalls(names);
    STARTS_WITHCalls(names);
    ENDS_WITHCalls(names);
  }

  lemma Closed16(names: set<string>)
    requires "p_s" in names && "p_literal" in names && "p_substitution" in names && "p_variable" in names && "p_equal" in names && "p_value" in names
    ensures Grammars.TableClosed(Table16, names)
  {
    CONTAINSCalls(names);
    NOT_EQUALCalls(names);
    NOT_STARTS_WITHCalls(names);
    NOT_ENDS_WITHCalls(names);
    NOT_CONTAINSCalls(names);
    AttributeValueCalls(names);
    ActionCalls(names);
    SubstitutionCalls(names);
  }

  lemma Closed17(names: set<string>)
    requires "p_thisvalue" in names && "p_targetvalue" in names && "p_literal" in names && "p_thisstring" in names && "p_targetstring" in names && "p_singlequotesliteral" in names && "p_doublequotesliteral" in names
    ensures Grammars.TableClosed(Table17, names)
  {
    VariableCalls(names);
    ValueCalls(names);
    LiteralCalls(names);
  }

  lemma Closed18(names: set<string>)
    requires "p_this" in names && "p_dot" in names && "p_s" in names && "p_dollar" in names && "p_parametername" in names
    ensures Grammars.TableClosed(Table18, names)
  {
    ThisStringCalls(names);
    TargetStringCalls(names);
    ThisValueCalls(names);
  }

  lemma Closed19(names: set<string>)
    requires "p_dollar" in names && "p_dot" in names && "p_parametername" in names && "p_s" in names && "p_endofline" in names
    ensures Grammars.TableClosed(Table19, names)
  {
    TargetValueCalls(names);
    ParameterNameCalls(names);
    THISCalls(names);
    SCalls(names);
    OPENCalls(names);
    CLOSECalls(names);
  }

  lemma Closed20(names: set<string>)
    requires "p_s" in names
    ensures Grammars.TableClosed(Table20, names)
  {
    CURL_OPENCalls(names);
    CURL_CLOSECalls(names);
    BRAKET_OPENCalls(names);
    BRAKET_CLOSECalls(names);
    COLONCalls(names);
    COMMACalls(names);
    DOTCalls(names);
    SEMICOLONCalls(names);
  }

  lemma Closed21(names: set<string>)
    requires "p_s" in names
    ensures Grammars.TableClosed(Table21, names)
  {
    DOLLARCalls(names);
    EQUALCalls(names);
    VERTICAL_BARCalls(names);
    COMMENT_ENDCalls(names);
    PLUSCalls(names);
    MINUSCalls(names);
  }

  lemma Closed22(names: set<string>)
    requires "p_s" in names
    ensures Grammars.TableClosed(Table22, names)
  {
    PLUSPLUSCalls(names);
    MINUSMINUSCalls(names);
    GREATER_THANCalls(names);
    GREATER_EQUALCalls(names);
    LESS_THANCalls(names);
    LESS_EQUALCalls(names);
    EQUAL_EQUALCalls(names);
    MUCH_GREATER_THANCalls(names);
  }

  lemma Closed23(names: set<string>)
    requires "p_s" in names
    ensures Grammars.TableClosed(Table23, names)
  {
    MUCH_LESS_THANCalls(names);
  }

  /** The table is closed when each of its parts is. */
  lemma ClosedByParts(names: set<string>)
    requires Grammars.TableClosed(Table0, names) && Grammars.TableClosed(Table1, names) && Grammars.TableClosed(Table2, names) && Grammars.TableClosed(Table3, names) && Grammars.TableClosed(Table4, names) && Grammars.TableClosed(Table5, names) && Grammars.TableClosed(Table6, names) && Grammars.TableClosed(Table7, names) && Grammars.TableClosed(Table8, names) && Grammars.TableClosed(Table9, names) && Grammars.TableClosed(Table10, names) && Grammars.TableClosed(Table11, names) && Grammars.TableClosed(Table12, names) && Grammars.TableClosed(Table13, names) && Grammars.TableClosed(Table14, names) && Grammars.TableClosed(Table15, names) && Grammars.TableClosed(Table16, names) && Grammars.TableClosed(Table17, names) && Grammars.TableClosed(Table18, names) && Grammars.TableClosed(Table19, names) && Grammars.TableClosed(Table20, names) && Grammars.TableClosed(Table21, names) && Grammars.TableClosed(Table22, names) && Grammars.TableClosed(Table23, names)
    ensures Grammars.TableClosed(Table, names)
  {
    Grammars.TableClosedAppend(Table0, Table1, names);
    Grammars.TableClosedAppend(Table0 + Table1, Table2, names);
    Grammars.TableClosedAppend(Table0 + Table1 + Table2, Table3, names);
    Grammars.TableClosedAppend(Table0 + Table1 + Table2 + Table3, Table4, names);
    Grammars.TableClosedAppend(Table0 + Table1 + Table2 + Table3 + Table4, Table5, names);
    Grammars.TableClosedAppend(Table0 + Table1 + Table2 + Table3 + Table4 + Table5, Table6, names);
    Grammars.TableClosedAppend(Table0 + Table1 + Table2 + Table3 + Table4 + Table5 + Table6, Table7, names);
    Grammars.TableClosedAppend(Table0 + Table1 + Table2 + Table3 + Table4 + Table5 + Table6 + Table7, Table8, names);
    Grammars.TableClosedAppend(Table0 + Table1 + Table2 + Table3 + Table4 + Table5 + Table6 + Table7 + Table8, Table9, names);
    Grammars.TableClosedAppend(Table0 + Table1 + Table2 + Table3 + Table4 + Table5 + Table6 + Table7 + Table8 + Table9, Table10, names);
    Grammars.TableClosedAppend(Table0 + Table1 + Table2 + Table3 + Table4 + Table5 + Table6 + Table7 + Table8 + Table9 + Table10, Table11, names);
    Grammars.TableClosedAppend(Table0 + Table1 + Table2 + Table3 + Table4 + Table5 + Table6 + Table7 + Table8 + Table9 + Table10 + Table11, Table12, names);
    Grammars.TableClosedAppend(Table0 + Table1 + Table2 + Table3 + Table4 + Table5 + Table6 + Table7 + Table8 + Table9 + Table10 + Table11 + Table12, Table13, names);
    Grammars.TableClosedAppend(Table0 + Table1 + Table2 + Table3 + Table4 + Table5 + Table6 + Table7 + Table8 + Table9 + Table10 + Table11 + Table12 + Table13, Table14, names);
    Grammars.TableClosedAppend(Table0 + Table1 + Table2 + Table3 + Table4 + Table5 + Table6 + Table7 + Table8 + Table9 + Table10 + Table11 + Table12 + Table13 + Table14, Table15, names);
    Grammars.TableClosedAppend(Table0 + Table1 + Table2 + Table3 + Table4 + Table5 + Table6 + Table7 + Table8 + Table9 + Table10 + Table11 + Table12 + Table13 + Table14 + Table15, Table16, names);
    Grammars.TableClosedAppend(Table0 + Table1 + Table2 + Table3 + Table4 + Table5 + Table6 + Table7 + Table8 + Table9 + Table10 + Table11 + Table12 + Table13 + Table14 + Table15 + Table16, Table17, names);
    Grammars.TableClosedAppend(Table0 + Table1 + Table2 + Table3 + Table4 + Table5 + Table6 + Table7 + Table8 + Table9 + Table10 + Table11 + Table12 + Table13 + Table14 + Table15 + Table16 + Table17, Table18, names);
    Grammars.TableClosedAppend(Table0 + Table1 + Table2 + Table3 + Table4 + Table5 + Table6 + Table7 + Table8 + Table9 + Table10 + Table11 + Table12 + Table13 + Table14 + Table15 + Table16 + Table17 + Table18, Table19, names);
    Grammars.TableClosedAppend(Table0 + Table1 + Table2 + Table3 + Table4 + Table5 + Table6 + Table7 + Table8 + Table9 + Table10 + Table11 + Table12 + Table13 + Table14 + Table15 + Table16 + Table17 + Table18 + Table19, Table20, names);
    Grammars.TableClosedAppend(Table0 + Table1 + Table2 + Table3 + Table4 + Table5 + Table6 + Table7 + Table8 + Table9 + Table10 + Table11 + Table12 + Table13 + Table14 + Table15 + Table16 + Table17 + Table18 + Table19 + Table20, Table21, names);
    Grammars.TableClosedAppend(Table0 + Table1 + Table2 + Table3 + Table4 + Table5 + Table6 + Table7 + Table8 + Table9 + Table10 + Table11 + Table12 + Table13 + Table14 + Table15 + Table16 + Table17 + Table18 + Table19 + Table20 + Table21, Table22, names);
    Grammars.TableClosedAppend(Table0 + Table1 + Table2 + Table3 + Table4 + Table5 + Table6 + Table7 + Table8 + Table9 + Table10 + Table11 + Table12 + Table13 + Table14 + Table15 + Table16 + Table17 + Table18 + Table19 + Table20 + Table21 + Table22, Table23, names);
  }

  lemma PartsClosed0()
    ensures Grammars.TableClosed(Table0, Grammars.Names(Table)) && Grammars.TableClosed(Table1, Grammars.Names(Table)) && Grammars.TableClosed(Table2, Grammars.Names(Table)) && Grammars.TableClosed(Table3, Grammars.Names(Table))
  {
    Defined1();
    Defined2();
    Defined3();
    Defined4();
    Defined5();
    Defined16();
    Defined19();
    Defined20();
    Defined21();
    Defined22();
    Defined23();
    TableNames();
    PartNames0(Grammars.Names(Table));
    PartNames1(Grammars.Names(Table));
    PartNames4(Grammars.Names(Table));
    PartNames5(Grammars.Names(Table));
    Closed0(Grammars.Names(Table));
    Closed1(Grammars.Names(Table));
    Closed2(Grammars.Names(Table));
    Closed3(Grammars.Names(Table));
  }

  lemma PartsClosed1()
    ensures Grammars.TableClosed(Table4, Grammars.Names(Table)) && Grammars.TableClosed(Table5, Grammars.Names(Table)) && Grammars.TableClosed(Table6, Grammars.Names(Table)) && Grammars.TableClosed(Table7, Grammars.Names(Table))
  {
    Defined5();
    Defined6();
    Defined7();
    Defined8();
    Defined12();
    Defined19();
    Defined20();
    Defined21();
    Defined22();
    Defined23();
    TableNames();
    PartNames1(Grammars.Names(Table));
    PartNames2(Grammars.Names(Table));
    PartNames3(Grammars.Names(Table));
    PartNames4(Grammars.Names(Table));
    PartNames5(Grammars.Names(Table));
    Closed4(Grammars.Names(Table));
    Closed5(Grammars.Names(Table));
    Closed6(Grammars.Names(Table));
    Closed7(Grammars.Names(Table));
  }

  lemma PartsClosed2()
    ensures Grammars.TableClosed(Table8, Grammars.Names(Table)) && Grammars.TableClosed(Table9, Grammars.Names(Table)) && Grammars.TableClosed(Table10, Grammars.Names(Table)) && Grammars.TableClosed(Table11, Grammars.Names(Table))
  {
    Defined8();
    Defined9();
    Defined10();
    Defined11();
    Defined19();
    Defined22();
    TableNames();
    PartNames2(Grammars.Names(Table));
    PartNames4(Grammars.Names(Table));
    PartNames5(Grammars.Names(Table));
    Closed8(Grammars.Names(Table));
    Closed9(Grammars.Names(Table));
    Closed10(Grammars.Names(Table));
    Closed11(Grammars.Names(Table));
  }

  lemma PartsClosed3()
    ensures Grammars.TableClosed(Table12, Grammars.Names(Table)) && Grammars.TableClosed(Table13, Grammars.Names(Table)) && Grammars.TableClosed(Table14, Grammars.Names(Table)) && Grammars.TableClosed(Table15, Grammars.Names(Table))
  {
    Defined13();
    Defined14();
    Defined15();
    Defined16();
    Defined19();
    Defined22();
    TableNames();
    PartNames3(Grammars.Names(Table));
    PartNames4(Grammars.Names(Table));
    PartNames5(Grammars.Names(Table));
    Closed12(Grammars.Names(Table));
    Closed13(Grammars.Names(Table));
    Closed14(Grammars.Names(Table));
    Closed15(Grammars.Names(Table));
  }

  lemma PartsClosed4()
    ensures Grammars.TableClosed(Table16, Grammars.Names(Table)) && Grammars.TableClosed(Table17, Grammars.Names(Table)) && Grammars.TableClosed(Table18, Grammars.Names(Table)) && Grammars.TableClosed(Table19, Grammars.Names(Table))
  {
    Defined16();
    Defined17();
    Defined18();
    Defined19();
    Defined20();
    Defined21();
    TableNames();
    PartNames4(Grammars.Names(Table));
    PartNames5(Grammars.Names(Table));
    Closed16(Grammars.Names(Table));
    Closed17(Grammars.Names(Table));
    Closed18(Grammars.Names(Table));
    Closed19(Grammars.Names(Table));
  }

  lemma PartsClosed5()
    ensures Grammars.TableClosed(Table20, Grammars.Names(Table)) && Grammars.TableClosed(Table21, Grammars.Names(Table)) && Grammars.TableClosed(Table22, Grammars.Names(Table)) && Grammars.TableClosed(Table23, Grammars.Names(Table))
  {
    Defined19();
    TableNames();
    PartNames4(Grammars.Names(Table));
    Closed20(Grammars.Names(Table));
    Closed21(Grammars.Names(Table));
    Closed22(Grammars.Names(Table));
    Closed23(Grammars.Names(Table));
  }

  /** Every rule the table calls is one of its methods. */
  lemma TableIsClosed()
    ensures Grammars.TableClosed(Table, Grammars.Names(Table))
  {
    PartsClosed0();
    PartsClosed1();
    PartsClosed2();
    PartsClosed3();
    PartsClosed4();
    PartsClosed5();
    ClosedByParts(Grammars.Names(Table));
  }

  /** The top rule calls only methods of the table. */
  lemma TopCallsDefined()
    ensures Grammars.CallsOnly(Actions, Grammars.Names(Table))
  {
    Defined1();
    Defined2();
    Defined19();
    Defined23();
    TableNames();
    PartNames0(Grammars.Names(Table));
    PartNames4(Grammars.Names(Table));
    PartNames5(Grammars.Names(Table));
    ActionsCalls(Grammars.Names(Table));
  }

  /**
   * Parsing with the top rule over this table, whatever the text, the state
   * and the fuel, never stops on the AttributeError of a missing method.
   */
  lemma ParseNeverMissing(env: Env, endPos: Option<nat>, st: State, fuel: nat)
    requires env.rules == Grammars.RulesOf(Table) && StateOk(env, st)
    ensures var r := Driver.ParseSpec(env, Actions, "Actions", endPos, st, fuel);
      !(r.ParseStuck? && r.why.NoSuchRule?)
  {
    TableIsClosed();
    TopCallsDefined();
    Grammars.ParseNeverMissing(env, Table, Actions, "Actions", endPos, st, fuel);
  }
  // ---------------------------------------------------------------------------
  // Facts about single rules

  /**
   * A count or an index is `0` or starts with a digit other than zero: unlike
   * in the grammar language zero is a number, and a leading zero is a whole
   * number of one digit.
   */
  lemma PositiveNumberRegex(s: string)
    ensures Match(PositiveNumber.xs[0].p, s).Some? <==> |s| > 0 && '0' <= s[0] <= '9'
    ensures |s| > 0 && s[0] == '0' ==> Match(PositiveNumber.xs[0].p, s) == Some(1)
  {
    var first := Class([CharRange('1', '9')], false);
    var digits := Class([CharRange('0', '9')], false);
    assert PositiveNumber.xs[0].p == Alt(Str("0"), Cat(first, Star(digits)));
    ClassThenStar(first, digits, s);
    if |s| > 0 && s[0] == '0' {
      assert s[..1] == "0";
    } else {
      StrMisses("0", s);
    }
    if |s| > 0 && '1' <= s[0] <= '9' {
      assert first.ranges[0].lo <= s[0] <= first.ranges[0].hi;
    }
  }

  /** A signed number uses the same digits after its optional minus sign. */
  lemma NumberDigits()
    ensures Number.xs[0] == Opt(Lit("-", false)) && Number.xs[1] == PositiveNumber.xs[0]
  {
  }

  /** The characters of an attribute name. */
  predicate AttributeChar(c: char)
  {
    'a' <= c <= 'z' || c == '_'
  }

  /**
   * An attribute name is the longest non-empty run of lower-case letters and
   * underscores.
   */
  lemma AttributeNameRegex(s: string)
    ensures Match(AttributeName.p, s).Some? <==> |s| > 0 && AttributeChar(s[0])
    ensures Match(AttributeName.p, s).Some? ==> var k := Match(AttributeName.p, s).value;
      0 < k && (forall i :: 0 <= i < k ==> AttributeChar(s[i])) && (k == |s| || !AttributeChar(s[k]))
  {
    var p := Class([CharRange('a', 'z'), CharRange('_', '_')], false);
    assert AttributeName.p == Plus(p);
    forall c: char ensures ClassHas(p, c) <==> AttributeChar(c) {
      if 'a' <= c <= 'z' {
        assert p.ranges[0].lo <= c <= p.ranges[0].hi;
      } else if c == '_' {
        assert p.ranges[1].lo <= c <= p.ranges[1].hi;
      }
    }
    PlusClassSpan(p, s);
  }

  /**
   * The white-space rule accepts a tab: its second alternative is the regular
   * expression `\t`, which the regex engine reads as the tab character.
   */
  lemma SAcceptsTab(env: Env, st: State, fuel: nat)
    requires StateOk(env, st) && st.pos < |env.contents| && env.contents[st.pos] == '\t'
    requires env.limit < 0 || st.pos < env.limit
    ensures var r := Eval(env, S.e, st, fuel); r.Done? && r.ok && r.st.pos == st.pos + 1
  {
    var c := env.contents;
    var sp := S.e.xs[0];
    assert sp == Lit(" ", false);
    var next := c[st.pos..Min(st.pos + |sp.s|, |c|)];
    assert next[0] == c[st.pos];
    assert Eval(env, sp, st, fuel) == Done(false, [], st);
    assert SetPos(st, st.pos) == st;
    assert EvalSel(env, S.e, 0, st, fuel) == EvalSel(env, S.e, 1, st, fuel);
    var w := Window(c, st.pos, env.limit);
    assert |w| > 0 && w[0] == '\t';
    assert w[..1] == "\t";
    assert Match(S.e.xs[1].p, w) == Some(1);
    var r1 := Eval(env, S.e.xs[1], st, fuel);
    assert r1.ok && r1.st.pos == st.pos + 1;
  }
}
