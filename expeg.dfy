/**
 * The bootstrap ExPeg meta-grammar of tacparser/expegparser.py as a rule
 * table for the engine.
 */
module ExPegGrammar {
  import opened Text
  import opened Patterns
  import opened Reading
  import opened Engine
  import Grammars
  import Driver

  // ---------------------------------------------------------------------------
  // The rules, one constant per `p_` method

  const ExPeg: Expr := Seq([Opt(Call("p_spacing", "Spacing")), Seq([Opt(Call("p_pegcomment", "PegComment")), Call("p_rootdefinition", "RootDefinition")]), Rpt(Sel([Call("p_pegcomment", "PegComment"), Call("p_definition", "Definition"), Call("p_subdefinition", "SubDefinition"), Call("p_macrodefinition", "MacroDefinition")]), 1, -1), Call("_eof", "_EOF")])

  const PegComment: Expr := Seq([Rpt(Call("p_comment", "Comment"), 1, -1), Call("p_spacing", "Spacing")])

  const RootDefinition: Expr := Call("p_definition", "Definition")

  const Definition: Expr := Seq([Opt(Call("p_definitioncomment", "DefinitionComment")), Call("p_definitionidentifier", "DefinitionIdentifier"), Opt(Call("p_spacing", "Spacing")), Call("p_leftarrow", "LEFTARROW"), Call("p_definitionexpression", "DefinitionExpression")])

  const DefinitionExpression: Expr := Call("p_expression", "Expression")

  const SubDefinition: Expr := Seq([Opt(Call("p_definitioncomment", "DefinitionComment")), Call("p_definitionidentifier", "DefinitionIdentifier"), Opt(Call("p_spacing", "Spacing")), Call("p_sub_leftarrow", "SUB_LEFTARROW"), Call("p_definitionexpression", "DefinitionExpression")])

  const DefinitionComment: Expr := Rpt(Call("p_comment", "Comment"), 1, -1)

  const DefinitionIdentifier: Expr := Sel([Seq([Call("p_identifier", "Identifier"), Call("p_parameterlist", "ParameterList")]), Call("p_identifier", "Identifier")])

  const ParameterList: Expr := Seq([Call("p_colon", "COLON"), Call("p_open", "OPEN"), Call("p_parameter", "Parameter"), Rpt(Seq([Call("p_comma", "COMMA"), Call("p_parameter", "Parameter")]), 0, -1), Call("p_close", "CLOSE")])

  const Parameter: Expr := Seq([Call("p_commercial_at", "COMMERCIAL_AT"), Call("p_parametername", "ParameterName")])

  const Expression: Expr := Sel([Call("p_selection", "Selection"), Call("p_sequence", "Sequence")])

  const Selection: Expr := Seq([Call("p_sequence", "Sequence"), Rpt(Seq([Call("p_slash", "SLASH"), Call("p_sequence", "Sequence")]), 1, -1)])

  const Sequence: Expr := Sel([Call("p_multisequence", "MultiSequence"), Call("p_singlesequence", "SingleSequence")])

  const MultiSequence: Expr := Seq([Call("p_prefix", "Prefix"), Rpt(Call("p_prefix", "Prefix"), 1, -1)])

  const SingleSequence: Expr := Call("p_prefix", "Prefix")

  const Prefix: Expr := Sel([Call("p_andprefix", "AndPrefix"), Call("p_notprefix", "NotPrefix"), Call("p_skipprefix", "SkipPrefix"), Call("p_suffix", "Suffix")])

  const AndPrefix: Expr := Seq([Call("p_ampersand", "AMPERSAND"), Call("p_suffix", "Suffix")])

  const NotPrefix: Expr := Seq([Call("p_exclamation", "EXCLAMATION"), Call("p_suffix", "Suffix")])

  const SkipPrefix: Expr := Seq([Call("p_much_greater_than", "MUCH_GREATER_THAN"), Call("p_suffix", "Suffix")])

  const Suffix: Expr := Sel([Call("p_questionsuffix", "QuestionSuffix"), Call("p_starsuffix", "StarSuffix"), Call("p_plussuffix", "PlusSuffix"), Call("p_repeatsuffix", "RepeatSuffix"), Call("p_primary", "Primary")])

  const QuestionSuffix: Expr := Seq([Call("p_primary", "Primary"), Call("p_question", "QUESTION")])

  const StarSuffix: Expr := Seq([Call("p_primary", "Primary"), Call("p_star", "STAR")])

  const PlusSuffix: Expr := Seq([Call("p_primary", "Primary"), Call("p_plus", "PLUS")])

  const RepeatSuffix: Expr := Seq([Call("p_primary", "Primary"), Call("p_repeatnum", "RepeatNum")])

  const RepeatNum: Expr := Sel([Seq([Call("p_curl_open", "CURL_OPEN"), Call("p_minrepeat", "MinRepeat"), Call("p_comma", "COMMA"), Call("p_maxrepeat", "MaxRepeat"), Call("p_curl_close", "CURL_CLOSE")]), Seq([Call("p_curl_open", "CURL_OPEN"), Call("p_repeatcnt", "RepeatCnt"), Call("p_curl_close", "CURL_CLOSE")])])

  const MinRepeat: Expr := Call("p_number", "Number")

  const MaxRepeat: Expr := Call("p_number", "Number")

  const RepeatCnt: Expr := Call("p_number", "Number")

  const Primary: Expr := Sel([Call("p_regularexp", "RegularExp"), Call("p_identifiercall", "IdentifierCall"), Call("p_parameter", "Parameter"), Call("p_assignmentvalue", "AssignmentValue"), Seq([Call("p_identifier", "Identifier"), Not(Call("p_leftarrow", "LEFTARROW")), Not(Call("p_colon", "COLON")), Not(Call("p_sub_leftarrow", "SUB_LEFTARROW"))]), Seq([Call("p_macroidentifier", "MacroIdentifier"), Not(Call("p_leftarrow", "LEFTARROW")), Not(Call("p_colon", "COLON")), Not(Call("p_sub_leftarrow", "SUB_LEFTARROW"))]), Seq([Call("p_open", "OPEN"), Call("p_expression", "Expression"), Call("p_close", "CLOSE")]), Call("p_literal", "Literal")])

  const IdentifierCall: Expr := Seq([Call("p_identifier", "Identifier"), Call("p_colon", "COLON"), Call("p_open", "OPEN"), Call("p_expression", "Expression"), Rpt(Seq([Call("p_comma", "COMMA"), Call("p_expression", "Expression")]), 0, -1), Call("p_close", "CLOSE")])

  const AssignmentValue: Expr := Seq([Call("p_dollar_sign", "DOLLAR_SIGN"), Call("p_parametername", "ParameterName")])

  const MacroDefinition: Expr := Seq([Opt(Call("p_definitioncomment", "DefinitionComment")), Call("p_macroidentifier", "MacroIdentifier"), Opt(Call("p_spacing", "Spacing")), Call("p_leftarrow", "LEFTARROW"), Call("p_macroexpression", "MacroExpression")])

  const MacroExpression: Expr := Sel([Call("p_macroselection", "MacroSelection"), Call("p_macrosequence", "MacroSequence")])

  const MacroSelection: Expr := Seq([Call("p_macrosequence", "MacroSequence"), Rpt(Seq([Call("p_slash", "SLASH"), Call("p_macrosequence", "MacroSequence")]), 1, -1)])

  const MacroSequence: Expr := Sel([Call("p_macromultisequence", "MacroMultiSequence"), Call("p_macrosinglesequence", "MacroSingleSequence")])

  const MacroMultiSequence: Expr := Seq([Call("p_macroterm", "MacroTerm"), Rpt(Call("p_macroterm", "MacroTerm"), 1, -1)])

  const MacroSingleSequence: Expr := Call("p_macroterm", "MacroTerm")

  const MacroTerm: Expr := Call("p_macroprefix", "MacroPrefix")

  const MacroPrefix: Expr := Sel([Call("p_macroandprefix", "MacroAndPrefix"), Call("p_macronotprefix", "MacroNotPrefix"), Call("p_macrosuffix", "MacroSuffix")])

  const MacroAndPrefix: Expr := Seq([Call("p_ampersand", "AMPERSAND"), Call("p_macrosuffix", "MacroSuffix")])

  const MacroNotPrefix: Expr := Seq([Call("p_exclamation", "EXCLAMATION"), Call("p_macrosuffix", "MacroSuffix")])

  const MacroSuffix: Expr := Sel([Call("p_macroquestionsuffix", "MacroQuestionSuffix"), Call("p_macrostarsuffix", "MacroStarSuffix"), Call("p_macroplussuffix", "MacroPlusSuffix"), Call("p_macrorepeatsuffix", "MacroRepeatSuffix"), Call("p_macroprimary", "MacroPrimary")])

  const MacroQuestionSuffix: Expr := Seq([Call("p_macroprimary", "MacroPrimary"), Call("p_question", "QUESTION")])

  const MacroStarSuffix: Expr := Seq([Call("p_macroprimary", "MacroPrimary"), Call("p_star", "STAR")])

  const MacroPlusSuffix: Expr := Seq([Call("p_macroprimary", "MacroPrimary"), Call("p_plus", "PLUS")])

  const MacroRepeatSuffix: Expr := Seq([Call("p_macroprimary", "MacroPrimary"), Call("p_repeatnum", "RepeatNum")])

  const MacroPrimary: Expr := Sel([Call("p_regularexp", "RegularExp"), Seq([Call("p_open", "OPEN"), Call("p_macroexpression", "MacroExpression"), Call("p_close", "CLOSE")]), Call("p_literal", "Literal")])

  const RegularExp: Expr := Seq([Call("p_regprefix", "REGPREFIX"), Sel([Call("p_singlequotesliteral", "SingleQuotesLiteral"), Call("p_doublequotesliteral", "DoubleQuotesLiteral")]), Call("p_regularexpoptions", "RegularExpOptions"), Opt(Call("p_spacing", "Spacing"))])

  /** Regular expression `(m|X|A|I|S)+` */
  const RegularExpOptions: Expr := Opt(Seq([Call("p_colon", "COLON"), Reg(Plus(Class([CharRange('m', 'm'), CharRange('X', 'X'), CharRange('A', 'A'), CharRange('I', 'I'), CharRange('S', 'S')], false)))]))

  /** Regular expression `[a-zA-Z][a-zA-Z0-9_]*` */
  const Identifier: Expr := Seq([Sel([Reg(Cat(Class([CharRange('a', 'z'), CharRange('A', 'Z')], false), Star(Class([CharRange('a', 'z'), CharRange('A', 'Z'), CharRange('0', '9'), CharRange('_', '_')], false)))), Call("p_endoffile", "ENDOFFILE")]), Opt(Call("p_spacing", "Spacing"))])

  /** Regular expression `_[A-Z][A-Z0-9_]*` */
  const MacroIdentifier: Expr := Seq([Reg(Cat(Str("_"), Cat(Class([CharRange('A', 'Z')], false), Star(Class([CharRange('A', 'Z'), CharRange('0', '9'), CharRange('_', '_')], false))))), Opt(Call("p_spacing", "Spacing"))])

  /** Regular expression `[a-zA-Z][a-zA-Z0-9_]*` */
  const ParameterName: Expr := Seq([Reg(Cat(Class([CharRange('a', 'z'), CharRange('A', 'Z')], false), Star(Class([CharRange('a', 'z'), CharRange('A', 'Z'), CharRange('0', '9'), CharRange('_', '_')], false)))), Opt(Call("p_spacing", "Spacing"))])

  const Literal: Expr := Seq([Sel([Call("p_singlequotesliteral", "SingleQuotesLiteral"), Call("p_doublequotesliteral", "DoubleQuotesLiteral")]), Opt(Call("p_literaloption", "LiteralOption")), Opt(Call("p_spacing", "Spacing"))])

  const SingleQuotesLiteral: Expr := Seq([Lit("\'", false), Call("p_singlequotesliteralcontents", "SingleQuotesLiteralContents"), Lit("\'", false)])

  /** Regular expression `(\.|[^'\])*` */
  const SingleQuotesLiteralContents: Expr := Reg(Star(Alt(Cat(Str("\\"), Dot), Class([CharRange('\'', '\''), CharRange('\\', '\\')], true))))

  const DoubleQuotesLiteral: Expr := Seq([Lit("\"", false), Call("p_doublequotesliteralcontents", "DoubleQuotesLiteralContents"), Lit("\"", false)])

  /** Regular expression `(\.|[^"\])*` */
  const DoubleQuotesLiteralContents: Expr := Reg(Star(Alt(Cat(Str("\\"), Dot), Class([CharRange('"', '"'), CharRange('\\', '\\')], true))))

  const LiteralOption: Expr := Seq([Call("p_colon", "COLON"), Lit("I", false)])

  /** Regular expression `[1-9][0-9]*` */
  const Number: Expr := Seq([Reg(Cat(Class([CharRange('1', '9')], false), Star(Class([CharRange('0', '9')], false)))), Opt(Call("p_spacing", "Spacing"))])

  const ENDOFFILE: Expr := Seq([Lit("_EOF", false), Opt(Call("p_spacing", "Spacing"))])

  const LEFTARROW: Expr := Seq([Lit("<-", false), Opt(Call("p_spacing", "Spacing"))])

  const SUB_LEFTARROW: Expr := Seq([Lit("<--", false), Opt(Call("p_spacing", "Spacing"))])

  const SLASH: Expr := Seq([Lit("/", false), Opt(Call("p_spacing", "Spacing"))])

  const AMPERSAND: Expr := Seq([Lit("&", false), Opt(Call("p_spacing", "Spacing"))])

  const EXCLAMATION: Expr := Seq([Lit("!", false), Opt(Call("p_spacing", "Spacing"))])

  const MUCH_GREATER_THAN: Expr := Seq([Lit(">>", false), Opt(Call("p_spacing", "Spacing"))])

  const QUESTION: Expr := Seq([Lit("?", false), Opt(Call("p_spacing", "Spacing"))])

  const STAR: Expr := Seq([Lit("*", false), Opt(Call("p_spacing", "Spacing"))])

  const PLUS: Expr := Seq([Lit("+", false), Opt(Call("p_spacing", "Spacing"))])

  const OPEN: Expr := Seq([Lit("(", false), Opt(Call("p_spacing", "Spacing"))])

  const CLOSE: Expr := Seq([Lit(")", false), Opt(Call("p_spacing", "Spacing"))])

  const CURL_OPEN: Expr := Seq([Lit("{", false), Opt(Call("p_spacing", "Spacing"))])

  const CURL_CLOSE: Expr := Seq([Lit("}", false), Opt(Call("p_spacing", "Spacing"))])

  const COLON: Expr := Seq([Lit(":", false), Opt(Call("p_spacing", "Spacing"))])

  const COMMA: Expr := Seq([Lit(",", false), Opt(Call("p_spacing", "Spacing"))])

  const COMMERCIAL_AT: Expr := Lit("@", false)

  const DOLLAR_SIGN: Expr := Lit("$", false)

  const EQUAL: Expr := Seq([Lit("=", false), Opt(Call("p_spacing", "Spacing"))])

  const REGPREFIX: Expr := Lit("r", false)

  const Spacing: Expr := Rpt(Call("p_space", "Space"), 1, -1)

  /** Regular expression `[^\r\n]*` */
  const Comment: Expr := Seq([Lit("#", false), Reg(Star(Class([CharRange('\n', '\n'), CharRange('\r', '\r')], true))), Call("p_endofline", "EndOfLine")])

  const Space: Expr := Sel([Lit(" ", false), Lit("\\t", false), Call("p_endofline", "EndOfLine")])

  /** Regular expression `\r\n|\n|\r` */
  const EndOfLine: Expr := Reg(Alt(Str("\r\n"), Alt(Str("\n"), Str("\r"))))

  // The table in chunks of 10 entries

  const Table0: Grammars.Table := [
    ("p_expeg", ExPeg),
    ("p_pegcomment", PegComment)
  ]

  const Table1: Grammars.Table := [
    ("p_rootdefinition", RootDefinition),
    ("p_definition", Definition),
    ("p_definitionexpression", DefinitionExpression)
  ]

  const Table2: Grammars.Table := [
    ("p_subdefinition", SubDefinition),
    ("p_definitioncomment", DefinitionComment),
    ("p_definitionidentifier", DefinitionIdentifier)
  ]

  const Table3: Grammars.Table := [
    ("p_parameterlist", ParameterList),
    ("p_parameter", Parameter),
    ("p_expression", Expression)
  ]

  const Table4: Grammars.Table := [
    ("p_selection", Selection),
    ("p_sequence", Sequence),
    ("p_multisequence", MultiSequence),
    ("p_singlesequence", SingleSequence)
  ]

  const Table5: Grammars.Table := [
    ("p_prefix", Prefix),
    ("p_andprefix", AndPrefix),
    ("p_notprefix", NotPrefix),
    ("p_skipprefix", SkipPrefix)
  ]

  const Table6: Grammars.Table := [
    ("p_suffix", Suffix),
    ("p_questionsuffix", QuestionSuffix),
    ("p_starsuffix", StarSuffix)
  ]

  const Table7: Grammars.Table := [
    ("p_plussuffix", PlusSuffix),
    ("p_repeatsuffix", RepeatSuffix)
  ]

  const Table8: Grammars.Table := [
    ("p_repeatnum", RepeatNum),
    ("p_minrepeat", MinRepeat),
    ("p_maxrepeat", MaxRepeat)
  ]

  const Table9: Grammars.Table := [
    ("p_repeatcnt", RepeatCnt)
  ]

  const Table10: Grammars.Table := [
    ("p_primary", Primary)
  ]

  const Table11: Grammars.Table := [
    ("p_identifiercall", IdentifierCall),
    ("p_assignmentvalue", AssignmentValue)
  ]

  const Table12: Grammars.Table := [
    ("p_macrodefinition", MacroDefinition),
    ("p_macroexpression", MacroExpression),
    ("p_macroselection", MacroSelection)
  ]

  const Table13: Grammars.Table := [
    ("p_macrosequence", MacroSequence),
    ("p_macromultisequence", MacroMultiSequence),
    ("p_macrosinglesequence", MacroSingleSequence),
    ("p_macroterm", MacroTerm),
    ("p_macroprefix", MacroPrefix)
  ]

  const Table14: Grammars.Table := [
    ("p_macroandprefix", MacroAndPrefix),
    ("p_macronotprefix", MacroNotPrefix),
    ("p_macrosuffix", MacroSuffix)
  ]

  const Table15: Grammars.Table := [
    ("p_macroquestionsuffix", MacroQuestionSuffix),
    ("p_macrostarsuffix", MacroStarSuffix),
    ("p_macroplussuffix", MacroPlusSuffix),
    ("p_macrorepeatsuffix", MacroRepeatSuffix)
  ]

  const Table16: Grammars.Table := [
    ("p_macroprimary", MacroPrimary),
    ("p_regularexp", RegularExp)
  ]

  const Table17: Grammars.Table := [
    ("p_regularexpoptions", RegularExpOptions),
    ("p_identifier", Identifier),
    ("p_macroidentifier", MacroIdentifier),
    ("p_parametername", ParameterName),
    ("p_literal", Literal),
    ("p_singlequotesliteral", SingleQuotesLiteral),
    ("p_singlequotesliteralcontents", SingleQuotesLiteralContents)
  ]

  const Table18: Grammars.Table := [
    ("p_doublequotesliteral", DoubleQuotesLiteral),
    ("p_doublequotesliteralcontents", DoubleQuotesLiteralContents),
    ("p_literaloption", LiteralOption),
    ("p_number", Number),
    ("p_endoffile", ENDOFFILE),
    ("p_leftarrow", LEFTARROW),
    ("p_sub_leftarrow", SUB_LEFTARROW),
    ("p_slash", SLASH)
  ]

  const Table19: Grammars.Table := [
    ("p_ampersand", AMPERSAND),
    ("p_exclamation", EXCLAMATION),
    ("p_much_greater_than", MUCH_GREATER_THAN),
    ("p_question", QUESTION),
    ("p_star", STAR),
    ("p_plus", PLUS),
    ("p_open", OPEN),
    ("p_close", CLOSE)
  ]

  const Table20: Grammars.Table := [
    ("p_curl_open", CURL_OPEN),
    ("p_curl_close", CURL_CLOSE),
    ("p_colon", COLON),
    ("p_comma", COMMA),
    ("p_commercial_at", COMMERCIAL_AT),
    ("p_dollar_sign", DOLLAR_SIGN),
    ("p_equal", EQUAL),
    ("p_regprefix", REGPREFIX)
  ]

  const Table21: Grammars.Table := [
    ("p_spacing", Spacing),
    ("p_comment", Comment),
    ("p_space", Space),
    ("p_endofline", EndOfLine),
    ("_eof", Eof)
  ]

  /** The rule methods in declaration order, and `_eof` bound to end of input. */
  const Table: Grammars.Table := Table0 + Table1 + Table2 + Table3 + Table4 + Table5 + Table6 + Table7 + Table8 + Table9 + Table10 + Table11 + Table12 + Table13 + Table14 + Table15 + Table16 + Table17 + Table18 + Table19 + Table20 + Table21

  /** `def_dict`: each type name and the rule method it selects. */
  const DefDict: seq<(string, string)> := [
    ("ExPeg", "p_expeg"),
    ("PegComment", "p_pegcomment"),
    ("RootDefinition", "p_rootdefinition"),
    ("Definition", "p_definition"),
    ("DefinitionExpression", "p_definitionexpression"),
    ("SubDefinition", "p_subdefinition"),
    ("DefinitionComment", "p_definitioncomment"),
    ("DefinitionIdentifier", "p_definitionidentifier"),
    ("ParameterList", "p_parameterlist"),
    ("Parameter", "p_parameter"),
    ("Expression", "p_expression"),
    ("Selection", "p_selection"),
    ("Sequence", "p_sequence"),
    ("MultiSequence", "p_multisequence"),
    ("SingleSequence", "p_singlesequence"),
    ("Prefix", "p_prefix"),
    ("AndPrefix", "p_andprefix"),
    ("NotPrefix", "p_notprefix"),
    ("SkipPrefix", "p_skipprefix"),
    ("Suffix", "p_suffix"),
    ("QuestionSuffix", "p_questionsuffix"),
    ("StarSuffix", "p_starsuffix"),
    ("PlusSuffix", "p_plussuffix"),
    ("RepeatSuffix", "p_repeatsuffix"),
    ("RepeatNum", "p_repeatnum"),
    ("MinRepeat", "p_minrepeat"),
    ("MaxRepeat", "p_maxrepeat"),
    ("RepeatCnt", "p_repeatcnt"),
    ("Primary", "p_primary"),
    ("IdentifierCall", "p_identifiercall"),
    ("AssignmentValue", "p_assignmentvalue"),
    ("MacroDefinition", "p_macrodefinition"),
    ("MacroExpression", "p_macroexpression"),
    ("MacroSelection", "p_macroselection"),
    ("MacroSequence", "p_macrosequence"),
    ("MacroMultiSequence", "p_macromultisequence"),
    ("MacroSingleSequence", "p_macrosinglesequence"),
    ("MacroTerm", "p_macroterm"),
    ("MacroPrefix", "p_macroprefix"),
    ("MacroAndPrefix", "p_macroandprefix"),
    ("MacroNotPrefix", "p_macronotprefix"),
    ("MacroSuffix", "p_macrosuffix"),
    ("MacroQuestionSuffix", "p_macroquestionsuffix"),
    ("MacroStarSuffix", "p_macrostarsuffix"),
    ("MacroPlusSuffix", "p_macroplussuffix"),
    ("MacroRepeatSuffix", "p_macrorepeatsuffix"),
    ("MacroPrimary", "p_macroprimary"),
    ("RegularExp", "p_regularexp"),
    ("RegularExpOptions", "p_regularexpoptions"),
    ("Identifier", "p_identifier"),
    ("MacroIdentifier", "p_macroidentifier"),
    ("ParameterName", "p_parametername"),
    ("Literal", "p_literal"),
    ("SingleQuotesLiteral", "p_singlequotesliteral"),
    ("SingleQuotesLiteralContents", "p_singlequotesliteralcontents"),
    ("DoubleQuotesLiteral", "p_doublequotesliteral"),
    ("DoubleQuotesLiteralContents", "p_doublequotesliteralcontents"),
    ("LiteralOption", "p_literaloption"),
    ("Number", "p_number"),
    ("ENDOFFILE", "p_endoffile"),
    ("LEFTARROW", "p_leftarrow"),
    ("SUB_LEFTARROW", "p_sub_leftarrow"),
    ("SLASH", "p_slash"),
    ("AMPERSAND", "p_ampersand"),
    ("EXCLAMATION", "p_exclamation"),
    ("MUCH_GREATER_THAN", "p_much_greater_than"),
    ("QUESTION", "p_question"),
    ("STAR", "p_star"),
    ("PLUS", "p_plus"),
    ("OPEN", "p_open"),
    ("CLOSE", "p_close"),
    ("CURL_OPEN", "p_curl_open"),
    ("CURL_CLOSE", "p_curl_close"),
    ("COLON", "p_colon"),
    ("COMMA", "p_comma"),
    ("COMMERCIAL_AT", "p_commercial_at"),
    ("DOLLAR_SIGN", "p_dollar_sign"),
    ("EQUAL", "p_equal"),
    ("REGPREFIX", "p_regprefix"),
    ("Spacing", "p_spacing"),
    ("Comment", "p_comment"),
    ("Space", "p_space"),
    ("EndOfLine", "p_endofline")
  ]

  // ---------------------------------------------------------------------------
  // The table is closed
  /** The names of the parts together are those of the table. */
  lemma TableNames()
    ensures Grammars.Names(Table) == Grammars.Names(Table0) + Grammars.Names(Table1) + Grammars.Names(Table2) + Grammars.Names(Table3) + Grammars.Names(Table4) + Grammars.Names(Table5) + Grammars.Names(Table6) + Grammars.Names(Table7) + Grammars.Names(Table8) + Grammars.Names(Table9) + Grammars.Names(Table10) + Grammars.Names(Table11) + Grammars.Names(Table12) + Grammars.Names(Table13) + Grammars.Names(Table14) + Grammars.Names(Table15) + Grammars.Names(Table16) + Grammars.Names(Table17) + Grammars.Names(Table18) + Grammars.Names(Table19) + Grammars.Names(Table20) + Grammars.Names(Table21)
  {
    Grammars.NamesAppend(Table0, Table1);
    Grammars.NamesAppend(Table0 + Table1, Table2);
    Grammars.NamesAppend(Table0 + Table1 + Table2, Table3);
    Grammars.NamesAppend(Table0 + Table1 + Table2 + Table3, Table4);
    Grammars.NamesAppend(Table0 + Table1 + Table2 + Table3 + Table4, Table5);
    Grammars.NamesAppend(Table0 + Table1 + Table2 + Table3 + Table4 + Table5, Table6);
    Grammars.NamesAppend(Table0 + Table1 + Table2 + Table3 + Table4 + Table5 + Table6, Table7);
    Grammars.NamesAppend(Table0 + Table1 + Table2 + Table3 + Table4 + Table5 + Table6 + Table7, Table8);
    Grammars.NamesAppend(Table0 + Table1 + Table2 + Table3 + Table4 + Table5 + Table6 + Table7 + Table8, Table9);
    Grammars.NamesAppend(Table0 + Table1 + Table2 + Table3 + Table4 + Table5 + Table6 + Table7 + Table8 + Table9, Table10);
    Grammars.NamesAppend(Table0 + Table1 + Table2 + Table3 + Table4 + Table5 + Table6 + Table7 + Table8 + Table9 + Table10, Table11);
    Grammars.NamesAppend(Table0 + Table1 + Table2 + Table3 + Table4 + Table5 + Table6 + Table7 + Table8 + Table9 + Table10 + Table11, Table12);
    Grammars.NamesAppend(Table0 + Table1 + Table2 + Table3 + Table4 + Table5 + Table6 + Table7 + Table8 + Table9 + Table10 + Table11 + Table12, Table13);
    Grammars.NamesAppend(Table0 + Table1 + Table2 + Table3 + Table4 + Table5 + Table6 + Table7 + Table8 + Table9 + Table10 + Table11 + Table12 + Table13, Table14);
    Grammars.NamesAppend(Table0 + Table1 + Table2 + Table3 + Table4 + Table5 + Table6 + Table7 + Table8 + Table9 + Table10 + Table11 + Table12 + Table13 + Table14, Table15);
    Grammars.NamesAppend(Table0 + Table1 + Table2 + Table3 + Table4 + Table5 + Table6 + Table7 + Table8 + Table9 + Table10 + Table11 + Table12 + Table13 + Table14 + Table15, Table16);
    Grammars.NamesAppend(Table0 + Table1 + Table2 + Table3 + Table4 + Table5 + Table6 + Table7 + Table8 + Table9 + Table10 + Table11 + Table12 + Table13 + Table14 + Table15 + Table16, Table17);
    Grammars.NamesAppend(Table0 + Table1 + Table2 + Table3 + Table4 + Table5 + Table6 + Table7 + Table8 + Table9 + Table10 + Table11 + Table12 + Table13 + Table14 + Table15 + Table16 + Table17, Table18);
    Grammars.NamesAppend(Table0 + Table1 + Table2 + Table3 + Table4 + Table5 + Table6 + Table7 + Table8 + Table9 + Table10 + Table11 + Table12 + Table13 + Table14 + Table15 + Table16 + Table17 + Table18, Table19);
    Grammars.NamesAppend(Table0 + Table1 + Table2 + Table3 + Table4 + Table5 + Table6 + Table7 + Table8 + Table9 + Table10 + Table11 + Table12 + Table13 + Table14 + Table15 + Table16 + Table17 + Table18 + Table19, Table20);
    Grammars.NamesAppend(Table0 + Table1 + Table2 + Table3 + Table4 + Table5 + Table6 + Table7 + Table8 + Table9 + Table10 + Table11 + Table12 + Table13 + Table14 + Table15 + Table16 + Table17 + Table18 + Table19 + Table20, Table21);
  }

  lemma PartNames0(names: set<string>)
    requires names == Grammars.Names(Table0) + Grammars.Names(Table1) + Grammars.Names(Table2) + Grammars.Names(Table3) + Grammars.Names(Table4) + Grammars.Names(Table5) + Grammars.Names(Table6) + Grammars.Names(Table7) + Grammars.Names(Table8) + Grammars.Names(Table9) + Grammars.Names(Table10) + Grammars.Names(Table11) + Grammars.Names(Table12) + Grammars.Names(Table13) + Grammars.Names(Table14) + Grammars.Names(Table15) + Grammars.Names(Table16) + Grammars.Names(Table17) + Grammars.Names(Table18) + Grammars.Names(Table19) + Grammars.Names(Table20) + Grammars.Names(Table21)
    ensures Grammars.Names(Table0) <= names && Grammars.Names(Table1) <= names && Grammars.Names(Table2) <= names
  {
  }

  lemma PartNames1(names: set<string>)
    requires names == Grammars.Names(Table0) + Grammars.Names(Table1) + Grammars.Names(Table2) + Grammars.Names(Table3) + Grammars.Names(Table4) + Grammars.Names(Table5) + Grammars.Names(Table6) + Grammars.Names(Table7) + Grammars.Names(Table8) + Grammars.Names(Table9) + Grammars.Names(Table10) + Grammars.Names(Table11) + Grammars.Names(Table12) + Grammars.Names(Table13) + Grammars.Names(Table14) + Grammars.Names(Table15) + Grammars.Names(Table16) + Grammars.Names(Table17) + Grammars.Names(Table18) + Grammars.Names(Table19) + Grammars.Names(Table20) + Grammars.Names(Table21)
    ensures Grammars.Names(Table3) <= names && Grammars.Names(Table4) <= names && Grammars.Names(Table5) <= names && Grammars.Names(Table6) <= names
  {
  }

  lemma PartNames2(names: set<string>)
    requires names == Grammars.Names(Table0) + Grammars.Names(Table1) + Grammars.Names(Table2) + Grammars.Names(Table3) + Grammars.Names(Table4) + Grammars.Names(Table5) + Grammars.Names(Table6) + Grammars.Names(Table7) + Grammars.Names(Table8) + Grammars.Names(Table9) + Grammars.Names(Table10) + Grammars.Names(Table11) + Grammars.Names(Table12) + Grammars.Names(Table13) + Grammars.Names(Table14) + Grammars.Names(Table15) + Grammars.Names(Table16) + Grammars.Names(Table17) + Grammars.Names(Table18) + Grammars.Names(Table19) + Grammars.Names(Table20) + Grammars.Names(Table21)
    ensures Grammars.Names(Table7) <= names && Grammars.Names(Table8) <= names && Grammars.Names(Table9) <= names && Grammars.Names(Table10) <= names
  {
  }

  lemma PartNames3(names: set<string>)
    requires names == Grammars.Names(Table0) + Grammars.Names(Table1) + Grammars.Names(Table2) + Grammars.Names(Table3) + Grammars.Names(Table4) + Grammars.Names(Table5) + Grammars.Names(Table6) + Grammars.Names(Table7) + Grammars.Names(Table8) + Grammars.Names(Table9) + Grammars.Names(Table10) + Grammars.Names(Table11) + Grammars.Names(Table12) + Grammars.Names(Table13) + Grammars.Names(Table14) + Grammars.Names(Table15) + Grammars.Names(Table16) + Grammars.Names(Table17) + Grammars.Names(Table18) + Grammars.Names(Table19) + Grammars.Names(Table20) + Grammars.Names(Table21)
    ensures Grammars.Names(Table11) <= names && Grammars.Names(Table12) <= names && Grammars.Names(Table13) <= names
  {
  }

  lemma PartNames4(names: set<string>)
    requires names == Grammars.Names(Table0) + Grammars.Names(Table1) + Grammars.Names(Table2) + Grammars.Names(Table3) + Grammars.Names(Table4) + Grammars.Names(Table5) + Grammars.Names(Table6) + Grammars.Names(Table7) + Grammars.Names(Table8) + Grammars.Names(Table9) + Grammars.Names(Table10) + Grammars.Names(Table11) + Grammars.Names(Table12) + Grammars.Names(Table13) + Grammars.Names(Table14) + Grammars.Names(Table15) + Grammars.Names(Table16) + Grammars.Names(Table17) + Grammars.Names(Table18) + Grammars.Names(Table19) + Grammars.Names(Table20) + Grammars.Names(Table21)
    ensures Grammars.Names(Table14) <= names && Grammars.Names(Table15) <= names && Grammars.Names(Table16) <= names && Grammars.Names(Table17) <= names
  {
  }

  lemma PartNames5(names: set<string>)
    requires names == Grammars.Names(Table0) + Grammars.Names(Table1) + Grammars.Names(Table2) + Grammars.Names(Table3) + Grammars.Names(Table4) + Grammars.Names(Table5) + Grammars.Names(Table6) + Grammars.Names(Table7) + Grammars.Names(Table8) + Grammars.Names(Table9) + Grammars.Names(Table10) + Grammars.Names(Table11) + Grammars.Names(Table12) + Grammars.Names(Table13) + Grammars.Names(Table14) + Grammars.Names(Table15) + Grammars.Names(Table16) + Grammars.Names(Table17) + Grammars.Names(Table18) + Grammars.Names(Table19) + Grammars.Names(Table20) + Grammars.Names(Table21)
    ensures Grammars.Names(Table18) <= names && Grammars.Names(Table19) <= names && Grammars.Names(Table20) <= names && Grammars.Names(Table21) <= names
  {
  }

  lemma Defined0()
    ensures "p_expeg" in Grammars.Names(Table0) && "p_pegcomment" in Grammars.Names(Table0)
  {
    assert Table0[0].0 in Grammars.Names(Table0);
    assert Table0[1].0 in Grammars.Names(Table0);
  }

  lemma Defined1()
    ensures "p_rootdefinition" in Grammars.Names(Table1) && "p_definition" in Grammars.Names(Table1) && "p_definitionexpression" in Grammars.Names(Table1)
  {
    assert Table1[0].0 in Grammars.Names(Table1);
    assert Table1[1].0 in Grammars.Names(Table1);
    assert Table1[2].0 in Grammars.Names(Table1);
  }

  lemma Defined2()
    ensures "p_subdefinition" in Grammars.Names(Table2) && "p_definitioncomment" in Grammars.Names(Table2) && "p_definitionidentifier" in Grammars.Names(Table2)
  {
    assert Table2[0].0 in Grammars.Names(Table2);
    assert Table2[1].0 in Grammars.Names(Table2);
    assert Table2[2].0 in Grammars.Names(Table2);
  }

  lemma Defined3()
    ensures "p_parameterlist" in Grammars.Names(Table3) && "p_parameter" in Grammars.Names(Table3) && "p_expression" in Grammars.Names(Table3)
  {
    assert Table3[0].0 in Grammars.Names(Table3);
    assert Table3[1].0 in Grammars.Names(Table3);
    assert Table3[2].0 in Grammars.Names(Table3);
  }

  lemma Defined4()
    ensures "p_selection" in Grammars.Names(Table4) && "p_sequence" in Grammars.Names(Table4) && "p_multisequence" in Grammars.Names(Table4) && "p_singlesequence" in Grammars.Names(Table4)
  {
    assert Table4[0].0 in Grammars.Names(Table4);
    assert Table4[1].0 in Grammars.Names(Table4);
    assert Table4[2].0 in Grammars.Names(Table4);
    assert Table4[3].0 in Grammars.Names(Table4);
  }

  lemma Defined5()
    ensures "p_prefix" in Grammars.Names(Table5) && "p_andprefix" in Grammars.Names(Table5) && "p_notprefix" in Grammars.Names(Table5) && "p_skipprefix" in Grammars.Names(Table5)
  {
    assert Table5[0].0 in Grammars.Names(Table5);
    assert Table5[1].0 in Grammars.Names(Table5);
    assert Table5[2].0 in Grammars.Names(Table5);
    assert Table5[3].0 in Grammars.Names(Table5);
  }

  lemma Defined6()
    ensures "p_suffix" in Grammars.Names(Table6) && "p_questionsuffix" in Grammars.Names(Table6) && "p_starsuffix" in Grammars.Names(Table6)
  {
    assert Table6[0].0 in Grammars.Names(Table6);
    assert Table6[1].0 in Grammars.Names(Table6);
    assert Table6[2].0 in Grammars.Names(Table6);
  }

  lemma Defined7()
    ensures "p_plussuffix" in Grammars.Names(Table7) && "p_repeatsuffix" in Grammars.Names(Table7)
  {
    assert Table7[0].0 in Grammars.Names(Table7);
    assert Table7[1].0 in Grammars.Names(Table7);
  }

  lemma Defined8()
    ensures "p_repeatnum" in Grammars.Names(Table8) && "p_minrepeat" in Grammars.Names(Table8) && "p_maxrepeat" in Grammars.Names(Table8)
  {
    assert Table8[0].0 in Grammars.Names(Table8);
    assert Table8[1].0 in Grammars.Names(Table8);
    assert Table8[2].0 in Grammars.Names(Table8);
  }

  lemma Defined9()
    ensures "p_repeatcnt" in Grammars.Names(Table9)
  {
    assert Table9[0].0 in Grammars.Names(Table9);
  }

  lemma Defined10()
    ensures "p_primary" in Grammars.Names(Table10)
  {
    assert Table10[0].0 in Grammars.Names(Table10);
  }

  lemma Defined11()
    ensures "p_identifiercall" in Grammars.Names(Table11) && "p_assignmentvalue" in Grammars.Names(Table11)
  {
    assert Table11[0].0 in Grammars.Names(Table11);
    assert Table11[1].0 in Grammars.Names(Table11);
  }

  lemma Defined12()
    ensures "p_macrodefinition" in Grammars.Names(Table12) && "p_macroexpression" in Grammars.Names(Table12) && "p_macroselection" in Grammars.Names(Table12)
  {
    assert Table12[0].0 in Grammars.Names(Table12);
    assert Table12[1].0 in Grammars.Names(Table12);
    assert Table12[2].0 in Grammars.Names(Table12);
  }

  lemma Defined13()
    ensures "p_macrosequence" in Grammars.Names(Table13) && "p_macromultisequence" in Grammars.Names(Table13) && "p_macrosinglesequence" in Grammars.Names(Table13) && "p_macroterm" in Grammars.Names(Table13) && "p_macroprefix" in Grammars.Names(Table13)
  {
    assert Table13[0].0 in Grammars.Names(Table13);
    assert Table13[1].0 in Grammars.Names(Table13);
    assert Table13[2].0 in Grammars.Names(Table13);
    assert Table13[3].0 in Grammars.Names(Table13);
    assert Table13[4].0 in Grammars.Names(Table13);
  }

  lemma Defined14()
    ensures "p_macroandprefix" in Grammars.Names(Table14) && "p_macronotprefix" in Grammars.Names(Table14) && "p_macrosuffix" in Grammars.Names(Table14)
  {
    assert Table14[0].0 in Grammars.Names(Table14);
    assert Table14[1].0 in Grammars.Names(Table14);
    assert Table14[2].0 in Grammars.Names(Table14);
  }

  lemma Defined15()
    ensures "p_macroquestionsuffix" in Grammars.Names(Table15) && "p_macrostarsuffix" in Grammars.Names(Table15) && "p_macroplussuffix" in Grammars.Names(Table15) && "p_macrorepeatsuffix" in Grammars.Names(Table15)
  {
    assert Table15[0].0 in Grammars.Names(Table15);
    assert Table15[1].0 in Grammars.Names(Table15);
    assert Table15[2].0 in Grammars.Names(Table15);
    assert Table15[3].0 in Grammars.Names(Table15);
  }

  lemma Defined16()
    ensures "p_macroprimary" in Grammars.Names(Table16) && "p_regularexp" in Grammars.Names(Table16)
  {
    assert Table16[0].0 in Grammars.Names(Table16);
    assert Table16[1].0 in Grammars.Names(Table16);
  }

  lemma Defined17()
    ensures "p_regularexpoptions" in Grammars.Names(Table17) && "p_identifier" in Grammars.Names(Table17) && "p_macroidentifier" in Grammars.Names(Table17) && "p_parametername" in Grammars.Names(Table17) && "p_literal" in Grammars.Names(Table17) && "p_singlequotesliteral" in Grammars.Names(Table17) && "p_singlequotesliteralcontents" in Grammars.Names(Table17)
  {
    assert Table17[0].0 in Grammars.Names(Table17);
    assert Table17[1].0 in Grammars.Names(Table17);
    assert Table17[2].0 in Grammars.Names(Table17);
    assert Table17[3].0 in Grammars.Names(Table17);
    assert Table17[4].0 in Grammars.Names(Table17);
    assert Table17[5].0 in Grammars.Names(Table17);
    assert Table17[6].0 in Grammars.Names(Table17);
  }

  lemma Defined18()
    ensures "p_doublequotesliteral" in Grammars.Names(Table18) && "p_doublequotesliteralcontents" in Grammars.Names(Table18) && "p_literaloption" in Grammars.Names(Table18) && "p_number" in Grammars.Names(Table18) && "p_endoffile" in Grammars.Names(Table18) && "p_leftarrow" in Grammars.Names(Table18) && "p_sub_leftarrow" in Grammars.Names(Table18) && "p_slash" in Grammars.Names(Table18)
  {
    assert Table18[0].0 in Grammars.Names(Table18);
    assert Table18[1].0 in Grammars.Names(Table18);
    assert Table18[2].0 in Grammars.Names(Table18);
    assert Table18[3].0 in Grammars.Names(Table18);
    assert Table18[4].0 in Grammars.Names(Table18);
    assert Table18[5].0 in Grammars.Names(Table18);
    assert Table18[6].0 in Grammars.Names(Table18);
    assert Table18[7].0 in Grammars.Names(Table18);
  }

  lemma Defined19()
    ensures "p_ampersand" in Grammars.Names(Table19) && "p_exclamation" in Grammars.Names(Table19) && "p_much_greater_than" in Grammars.Names(Table19) && "p_question" in Grammars.Names(Table19) && "p_star" in Grammars.Names(Table19) && "p_plus" in Grammars.Names(Table19) && "p_open" in Grammars.Names(Table19) && "p_close" in Grammars.Names(Table19)
  {
    assert Table19[0].0 in Grammars.Names(Table19);
    assert Table19[1].0 in Grammars.Names(Table19);
    assert Table19[2].0 in Grammars.Names(Table19);
    assert Table19[3].0 in Grammars.Names(Table19);
    assert Table19[4].0 in Grammars.Names(Table19);
    assert Table19[5].0 in Grammars.Names(Table19);
    assert Table19[6].0 in Grammars.Names(Table19);
    assert Table19[7].0 in Grammars.Names(Table19);
  }

  lemma Defined20()
    ensures "p_curl_open" in Grammars.Names(Table20) && "p_curl_close" in Grammars.Names(Table20) && "p_colon" in Grammars.Names(Table20) && "p_comma" in Grammars.Names(Table20) && "p_commercial_at" in Grammars.Names(Table20) && "p_dollar_sign" in Grammars.Names(Table20) && "p_equal" in Grammars.Names(Table20) && "p_regprefix" in Grammars.Names(Table20)
  {
    assert Table20[0].0 in Grammars.Names(Table20);
    assert Table20[1].0 in Grammars.Names(Table20);
    assert Table20[2].0 in Grammars.Names(Table20);
    assert Table20[3].0 in Grammars.Names(Table20);
    assert Table20[4].0 in Grammars.Names(Table20);
    assert Table20[5].0 in Grammars.Names(Table20);
    assert Table20[6].0 in Grammars.Names(Table20);
    assert Table20[7].0 in Grammars.Names(Table20);
  }

  lemma Defined21()
    ensures "p_spacing" in Grammars.Names(Table21) && "p_comment" in Grammars.Names(Table21) && "p_space" in Grammars.Names(Table21) && "p_endofline" in Grammars.Names(Table21) && "_eof" in Grammars.Names(Table21)
  {
    assert Table21[0].0 in Grammars.Names(Table21);
    assert Table21[1].0 in Grammars.Names(Table21);
    assert Table21[2].0 in Grammars.Names(Table21);
    assert Table21[3].0 in Grammars.Names(Table21);
    assert Table21[4].0 in Grammars.Names(Table21);
  }

  lemma ExPegCalls(names: set<string>)
    requires "p_spacing" in names && "p_pegcomment" in names && "p_rootdefinition" in names && "p_definition" in names && "p_subdefinition" in names && "p_macrodefinition" in names && "_eof" in names
    ensures Grammars.CallsOnly(ExPeg, names)
  {
  }

  lemma PegCommentCalls(names: set<string>)
    requires "p_comment" in names && "p_spacing" in names
    ensures Grammars.CallsOnly(PegComment, names)
  {
  }

  lemma RootDefinitionCalls(names: set<string>)
    requires "p_definition" in names
    ensures Grammars.CallsOnly(RootDefinition, names)
  {
  }

  lemma DefinitionCalls(names: set<string>)
    requires "p_definitioncomment" in names && "p_definitionidentifier" in names && "p_spacing" in names && "p_leftarrow" in names && "p_definitionexpression" in names
    ensures Grammars.CallsOnly(Definition, names)
  {
  }

  lemma DefinitionExpressionCalls(names: set<string>)
    requires "p_expression" in names
    ensures Grammars.CallsOnly(DefinitionExpression, names)
  {
  }

  lemma SubDefinitionCalls(names: set<string>)
    requires "p_definitioncomment" in names && "p_definitionidentifier" in names && "p_spacing" in names && "p_sub_leftarrow" in names && "p_definitionexpression" in names
    ensures Grammars.CallsOnly(SubDefinition, names)
  {
  }

  lemma DefinitionCommentCalls(names: set<string>)
    requires "p_comment" in names
    ensures Grammars.CallsOnly(DefinitionComment, names)
  {
  }

  lemma DefinitionIdentifierCalls(names: set<string>)
    requires "p_identifier" in names && "p_parameterlist" in names
    ensures Grammars.CallsOnly(DefinitionIdentifier, names)
  {
  }

  lemma ParameterListCalls(names: set<string>)
    requires "p_colon" in names && "p_open" in names && "p_parameter" in names && "p_comma" in names && "p_close" in names
    ensures Grammars.CallsOnly(ParameterList, names)
  {
  }

  lemma ParameterCalls(names: set<string>)
    requires "p_commercial_at" in names && "p_parametername" in names
    ensures Grammars.CallsOnly(Parameter, names)
  {
  }

  lemma ExpressionCalls(names: set<string>)
    requires "p_selection" in names && "p_sequence" in names
    ensures Grammars.CallsOnly(Expression, names)
  {
  }

  lemma SelectionCalls(names: set<string>)
    requires "p_sequence" in names && "p_slash" in names
    ensures Grammars.CallsOnly(Selection, names)
  {
  }

  lemma SequenceCalls(names: set<string>)
    requires "p_multisequence" in names && "p_singlesequence" in names
    ensures Grammars.CallsOnly(Sequence, names)
  {
  }

  lemma MultiSequenceCalls(names: set<string>)
    requires "p_prefix" in names
    ensures Grammars.CallsOnly(MultiSequence, names)
  {
  }

  lemma SingleSequenceCalls(names: set<string>)
    requires "p_prefix" in names
    ensures Grammars.CallsOnly(SingleSequence, names)
  {
  }

  lemma PrefixCalls(names: set<string>)
    requires "p_andprefix" in names && "p_notprefix" in names && "p_skipprefix" in names && "p_suffix" in names
    ensures Grammars.CallsOnly(Prefix, names)
  {
  }

  lemma AndPrefixCalls(names: set<string>)
    requires "p_ampersand" in names && "p_suffix" in names
    ensures Grammars.CallsOnly(AndPrefix, names)
  {
  }

  lemma NotPrefixCalls(names: set<string>)
    requires "p_exclamation" in names && "p_suffix" in names
    ensures Grammars.CallsOnly(NotPrefix, names)
  {
  }

  lemma SkipPrefixCalls(names: set<string>)
    requires "p_much_greater_than" in names && "p_suffix" in names
    ensures Grammars.CallsOnly(SkipPrefix, names)
  {
  }

  lemma SuffixCalls(names: set<string>)
    requires "p_questionsuffix" in names && "p_starsuffix" in names && "p_plussuffix" in names && "p_repeatsuffix" in names && "p_primary" in names
    ensures Grammars.CallsOnly(Suffix, names)
  {
  }

  lemma QuestionSuffixCalls(names: set<string>)
    requires "p_primary" in names && "p_question" in names
    ensures Grammars.CallsOnly(QuestionSuffix, names)
  {
  }

  lemma StarSuffixCalls(names: set<string>)
    requires "p_primary" in names && "p_star" in names
    ensures Grammars.CallsOnly(StarSuffix, names)
  {
  }

  lemma PlusSuffixCalls(names: set<string>)
    requires "p_primary" in names && "p_plus" in names
    ensures Grammars.CallsOnly(PlusSuffix, names)
  {
  }

  lemma RepeatSuffixCalls(names: set<string>)
    requires "p_primary" in names && "p_repeatnum" in names
    ensures Grammars.CallsOnly(RepeatSuffix, names)
  {
  }

  lemma RepeatNumCalls(names: set<string>)
    requires "p_curl_open" in names && "p_minrepeat" in names && "p_comma" in names && "p_maxrepeat" in names && "p_curl_close" in names && "p_repeatcnt" in names
    ensures Grammars.CallsOnly(RepeatNum, names)
  {
  }

  lemma MinRepeatCalls(names: set<string>)
    requires "p_number" in names
    ensures Grammars.CallsOnly(MinRepeat, names)
  {
  }

  lemma MaxRepeatCalls(names: set<string>)
    requires "p_number" in names
    ensures Grammars.CallsOnly(MaxRepeat, names)
  {
  }

  lemma RepeatCntCalls(names: set<string>)
    requires "p_number" in names
    ensures Grammars.CallsOnly(RepeatCnt, names)
  {
  }

  lemma PrimaryCallsFrom6(names: set<string>)
    requires "p_open" in names && "p_expression" in names && "p_close" in names && "p_literal" in names
    ensures Grammars.AllCallsOnly(Primary, 6, names)
  {
    var e := Primary;
    assert Grammars.AllCallsOnly(e, 7, names);
  }

  lemma PrimaryCallsFrom4(names: set<string>)
    requires "p_identifier" in names && "p_leftarrow" in names && "p_colon" in names && "p_sub_leftarrow" in names && "p_macroidentifier" in names && "p_open" in names && "p_expression" in names && "p_close" in names && "p_literal" in names
    ensures Grammars.AllCallsOnly(Primary, 4, names)
  {
    var e := Primary;
    PrimaryCallsFrom6(names);
    assert Grammars.AllCallsOnly(e, 5, names);
  }

  lemma PrimaryCallsFrom2(names: set<string>)
    requires "p_parameter" in names && "p_assignmentvalue" in names && "p_identifier" in names && "p_leftarrow" in names && "p_colon" in names && "p_sub_leftarrow" in names && "p_macroidentifier" in names && "p_open" in names && "p_expression" in names && "p_close" in names && "p_literal" in names
    ensures Grammars.AllCallsOnly(Primary, 2, names)
  {
    var e := Primary;
    PrimaryCallsFrom4(names);
    assert Grammars.AllCallsOnly(e, 3, names);
  }

  lemma PrimaryCalls(names: set<string>)
    requires "p_regularexp" in names && "p_identifiercall" in names && "p_parameter" in names && "p_assignmentvalue" in names && "p_identifier" in names && "p_leftarrow" in names && "p_colon" in names && "p_sub_leftarrow" in names && "p_macroidentifier" in names && "p_open" in names && "p_expression" in names && "p_close" in names && "p_literal" in names
    ensures Grammars.CallsOnly(Primary, names)
  {
    var e := Primary;
    PrimaryCallsFrom2(names);
    assert Grammars.AllCallsOnly(e, 1, names);
  }

  lemma IdentifierCallCalls(names: set<string>)
    requires "p_identifier" in names && "p_colon" in names && "p_open" in names && "p_expression" in names && "p_comma" in names && "p_close" in names
    ensures Grammars.CallsOnly(IdentifierCall, names)
  {
  }

  lemma AssignmentValueCalls(names: set<string>)
    requires "p_dollar_sign" in names && "p_parametername" in names
    ensures Grammars.CallsOnly(AssignmentValue, names)
  {
  }

  lemma MacroDefinitionCalls(names: set<string>)
    requires "p_definitioncomment" in names && "p_macroidentifier" in names && "p_spacing" in names && "p_leftarrow" in names && "p_macroexpression" in names
    ensures Grammars.CallsOnly(MacroDefinition, names)
  {
  }

  lemma MacroExpressionCalls(names: set<string>)
    requires "p_macroselection" in names && "p_macrosequence" in names
    ensures Grammars.CallsOnly(MacroExpression, names)
  {
  }

  lemma MacroSelectionCalls(names: set<string>)
    requires "p_macrosequence" in names && "p_slash" in names
    ensures Grammars.CallsOnly(MacroSelection, names)
  {
  }

  lemma MacroSequenceCalls(names: set<string>)
    requires "p_macromultisequence" in names && "p_macrosinglesequence" in names
    ensures Grammars.CallsOnly(MacroSequence, names)
  {
  }

  lemma MacroMultiSequenceCalls(names: set<string>)
    requires "p_macroterm" in names
    ensures Grammars.CallsOnly(MacroMultiSequence, names)
  {
  }

  lemma MacroSingleSequenceCalls(names: set<string>)
    requires "p_macroterm" in names
    ensures Grammars.CallsOnly(MacroSingleSequence, names)
  {
  }

  lemma MacroTermCalls(names: set<string>)
    requires "p_macroprefix" in names
    ensures Grammars.CallsOnly(MacroTerm, names)
  {
  }

  lemma MacroPrefixCalls(names: set<string>)
    requires "p_macroandprefix" in names && "p_macronotprefix" in names && "p_macrosuffix" in names
    ensures Grammars.CallsOnly(MacroPrefix, names)
  {
  }

  lemma MacroAndPrefixCalls(names: set<string>)
    requires "p_ampersand" in names && "p_macrosuffix" in names
    ensures Grammars.CallsOnly(MacroAndPrefix, names)
  {
  }

  lemma MacroNotPrefixCalls(names: set<string>)
    requires "p_exclamation" in names && "p_macrosuffix" in names
    ensures Grammars.CallsOnly(MacroNotPrefix, names)
  {
  }

  lemma MacroSuffixCalls(names: set<string>)
    requires "p_macroquestionsuffix" in names && "p_macrostarsuffix" in names && "p_macroplussuffix" in names && "p_macrorepeatsuffix" in names && "p_macroprimary" in names
    ensures Grammars.CallsOnly(MacroSuffix, names)
  {
  }

  lemma MacroQuestionSuffixCalls(names: set<string>)
    requires "p_macroprimary" in names && "p_question" in names
    ensures Grammars.CallsOnly(MacroQuestionSuffix, names)
  {
  }

  lemma MacroStarSuffixCalls(names: set<string>)
    requires "p_macroprimary" in names && "p_star" in names
    ensures Grammars.CallsOnly(MacroStarSuffix, names)
  {
  }

  lemma MacroPlusSuffixCalls(names: set<string>)
    requires "p_macroprimary" in names && "p_plus" in names
    ensures Grammars.CallsOnly(MacroPlusSuffix, names)
  {
  }

  lemma MacroRepeatSuffixCalls(names: set<string>)
    requires "p_macroprimary" in names && "p_repeatnum" in names
    ensures Grammars.CallsOnly(MacroRepeatSuffix, names)
  {
  }

  lemma MacroPrimaryCalls(names: set<string>)
    requires "p_regularexp" in names && "p_open" in names && "p_macroexpression" in names && "p_close" in names && "p_literal" in names
    ensures Grammars.CallsOnly(MacroPrimary, names)
  {
  }

  lemma RegularExpCalls(names: set<string>)
    requires "p_regprefix" in names && "p_singlequotesliteral" in names && "p_doublequotesliteral" in names && "p_regularexpoptions" in names && "p_spacing" in names
    ensures Grammars.CallsOnly(RegularExp, names)
  {
  }

  lemma RegularExpOptionsCalls(names: set<string>)
    requires "p_colon" in names
    ensures Grammars.CallsOnly(RegularExpOptions, names)
  {
  }

  lemma IdentifierCalls(names: set<string>)
    requires "p_endoffile" in names && "p_spacing" in names
    ensures Grammars.CallsOnly(Identifier, names)
  {
  }

  lemma MacroIdentifierCalls(names: set<string>)
    requires "p_spacing" in names
    ensures Grammars.CallsOnly(MacroIdentifier, names)
  {
  }

  lemma ParameterNameCalls(names: set<string>)
    requires "p_spacing" in names
    ensures Grammars.CallsOnly(ParameterName, names)
  {
  }

  lemma LiteralCalls(names: set<string>)
    requires "p_singlequotesliteral" in names && "p_doublequotesliteral" in names && "p_literaloption" in names && "p_spacing" in names
    ensures Grammars.CallsOnly(Literal, names)
  {
  }

  lemma SingleQuotesLiteralCalls(names: set<string>)
    requires "p_singlequotesliteralcontents" in names
    ensures Grammars.CallsOnly(SingleQuotesLiteral, names)
  {
  }

  lemma DoubleQuotesLiteralCalls(names: set<string>)
    requires "p_doublequotesliteralcontents" in names
    ensures Grammars.CallsOnly(DoubleQuotesLiteral, names)
  {
  }

  lemma LiteralOptionCalls(names: set<string>)
    requires "p_colon" in names
    ensures Grammars.CallsOnly(LiteralOption, names)
  {
  }

  lemma NumberCalls(names: set<string>)
    requires "p_spacing" in names
    ensures Grammars.CallsOnly(Number, names)
  {
  }

  lemma ENDOFFILECalls(names: set<string>)
    requires "p_spacing" in names
    ensures Grammars.CallsOnly(ENDOFFILE, names)
  {
  }

  lemma LEFTARROWCalls(names: set<string>)
    requires "p_spacing" in names
    ensures Grammars.CallsOnly(LEFTARROW, names)
  {
  }

  lemma SUB_LEFTARROWCalls(names: set<string>)
    requires "p_spacing" in names
    ensures Grammars.CallsOnly(SUB_LEFTARROW, names)
  {
  }

  lemma SLASHCalls(names: set<string>)
    requires "p_spacing" in names
    ensures Grammars.CallsOnly(SLASH, names)
  {
  }

  lemma AMPERSANDCalls(names: set<string>)
    requires "p_spacing" in names
    ensures Grammars.CallsOnly(AMPERSAND, names)
  {
  }

  lemma EXCLAMATIONCalls(names: set<string>)
    requires "p_spacing" in names
    ensures Grammars.CallsOnly(EXCLAMATION, names)
  {
  }

  lemma MUCH_GREATER_THANCalls(names: set<string>)
    requires "p_spacing" in names
    ensures Grammars.CallsOnly(MUCH_GREATER_THAN, names)
  {
  }

  lemma QUESTIONCalls(names: set<string>)
    requires "p_spacing" in names
    ensures Grammars.CallsOnly(QUESTION, names)
  {
  }

  lemma STARCalls(names: set<string>)
    requires "p_spacing" in names
    ensures Grammars.CallsOnly(STAR, names)
  {
  }

  lemma PLUSCalls(names: set<string>)
    requires "p_spacing" in names
    ensures Grammars.CallsOnly(PLUS, names)
  {
  }

  lemma OPENCalls(names: set<string>)
    requires "p_spacing" in names
    ensures Grammars.CallsOnly(OPEN, names)
  {
  }

  lemma CLOSECalls(names: set<string>)
    requires "p_spacing" in names
    ensures Grammars.CallsOnly(CLOSE, names)
  {
  }

  lemma CURL_OPENCalls(names: set<string>)
    requires "p_spacing" in names
    ensures Grammars.CallsOnly(CURL_OPEN, names)
  {
  }

  lemma CURL_CLOSECalls(names: set<string>)
    requires "p_spacing" in names
    ensures Grammars.CallsOnly(CURL_CLOSE, names)
  {
  }

  lemma COLONCalls(names: set<string>)
    requires "p_spacing" in names
    ensures Grammars.CallsOnly(COLON, names)
  {
  }

  lemma COMMACalls(names: set<string>)
    requires "p_spacing" in names
    ensures Grammars.CallsOnly(COMMA, names)
  {
  }

  lemma EQUALCalls(names: set<string>)
    requires "p_spacing" in names
    ensures Grammars.CallsOnly(EQUAL, names)
  {
  }

  lemma SpacingCalls(names: set<string>)
    requires "p_space" in names
    ensures Grammars.CallsOnly(Spacing, names)
  {
  }

  lemma CommentCalls(names: set<string>)
    requires "p_endofline" in names
    ensures Grammars.CallsOnly(Comment, names)
  {
  }

  lemma SpaceCalls(names: set<string>)
    requires "p_endofline" in names
    ensures Grammars.CallsOnly(Space, names)
  {
  }

  lemma Closed0(names: set<string>)
    requires "p_spacing" in names && "p_pegcomment" in names && "p_rootdefinition" in names && "p_definition" in names && "p_subdefinition" in names && "p_macrodefinition" in names && "_eof" in names && "p_comment" in names
    ensures Grammars.TableClosed(Table0, names)
  {
    ExPegCalls(names);
    PegCommentCalls(names);
  }

  lemma Closed1(names: set<string>)
    requires "p_definition" in names && "p_definitioncomment" in names && "p_definitionidentifier" in names && "p_spacing" in names && "p_leftarrow" in names && "p_definitionexpression" in names && "p_expression" in names
    ensures Grammars.TableClosed(Table1, names)
  {
    RootDefinitionCalls(names);
    DefinitionCalls(names);
    DefinitionExpressionCalls(names);
  }

  lemma Closed2(names: set<string>)
    requires "p_definitioncomment" in names && "p_definitionidentifier" in names && "p_spacing" in names && "p_sub_leftarrow" in names && "p_definitionexpression" in names && "p_comment" in names && "p_identifier" in names && "p_parameterlist" in names
    ensures Grammars.TableClosed(Table2, names)
  {
    SubDefinitionCalls(names);
    DefinitionCommentCalls(names);
    DefinitionIdentifierCalls(names);
  }

  lemma Closed3(names: set<string>)
    requires "p_colon" in names && "p_open" in names && "p_parameter" in names && "p_comma" in names && "p_close" in names && "p_commercial_at" in names && "p_parametername" in names && "p_selection" in names && "p_sequence" in names
    ensures Grammars.TableClosed(Table3, names)
  {
    ParameterListCalls(names);
    ParameterCalls(names);
    ExpressionCalls(names);
  }

  lemma Closed4(names: set<string>)
    requires "p_sequence" in names && "p_slash" in names && "p_multisequence" in names && "p_singlesequence" in names && "p_prefix" in names
    ensures Grammars.TableClosed(Table4, names)
  {
    SelectionCalls(names);
    SequenceCalls(names);
    MultiSequenceCalls(names);
    SingleSequenceCalls(names);
  }

  lemma Closed5(names: set<string>)
    requires "p_andprefix" in names && "p_notprefix" in names && "p_skipprefix" in names && "p_suffix" in names && "p_ampersand" in names && "p_exclamation" in names && "p_much_greater_than" in names
    ensures Grammars.TableClosed(Table5, names)
  {
    PrefixCalls(names);
    AndPrefixCalls(names);
    NotPrefixCalls(names);
    SkipPrefixCalls(names);
  }

  lemma Closed6(names: set<string>)
    requires "p_questionsuffix" in names && "p_starsuffix" in names && "p_plussuffix" in names && "p_repeatsuffix" in names && "p_primary" in names && "p_question" in names && "p_star" in names
    ensures Grammars.TableClosed(Table6, names)
  {
    SuffixCalls(names);
    QuestionSuffixCalls(names);
    StarSuffixCalls(names);
  }

  lemma Closed7(names: set<string>)
    requires "p_primary" in names && "p_plus" in names && "p_repeatnum" in names
    ensures Grammars.TableClosed(Table7, names)
  {
    PlusSuffixCalls(names);
    RepeatSuffixCalls(names);
  }

  lemma Closed8(names: set<string>)
    requires "p_curl_open" in names && "p_minrepeat" in names && "p_comma" in names && "p_maxrepeat" in names && "p_curl_close" in names && "p_repeatcnt" in names && "p_number" in names
    ensures Grammars.TableClosed(Table8, names)
  {
    RepeatNumCalls(names);
    MinRepeatCalls(names);
    MaxRepeatCalls(names);
  }

  lemma Closed9(names: set<string>)
    requires "p_number" in names
    ensures Grammars.TableClosed(Table9, names)
  {
    RepeatCntCalls(names);
  }

  lemma Closed10(names: set<string>)
    requires "p_regularexp" in names && "p_identifiercall" in names && "p_parameter" in names && "p_assignmentvalue" in names && "p_identifier" in names && "p_leftarrow" in names && "p_colon" in names && "p_sub_leftarrow" in names && "p_macroidentifier" in names && "p_open" in names && "p_expression" in names && "p_close" in names && "p_literal" in names
    ensures Grammars.TableClosed(Table10, names)
  {
    PrimaryCalls(names);
  }

  lemma Closed11(names: set<string>)
    requires "p_identifier" in names && "p_colon" in names && "p_open" in names && "p_expression" in names && "p_comma" in names && "p_close" in names && "p_dollar_sign" in names && "p_parametername" in names
    ensures Grammars.TableClosed(Table11, names)
  {
    IdentifierCallCalls(names);
    AssignmentValueCalls(names);
  }

  lemma Closed12(names: set<string>)
    requires "p_definitioncomment" in names && "p_macroidentifier" in names && "p_spacing" in names && "p_leftarrow" in names && "p_macroexpression" in names && "p_macroselection" in names && "p_macrosequence" in names && "p_slash" in names
    ensures Grammars.TableClosed(Table12, names)
  {
    MacroDefinitionCalls(names);
    MacroExpressionCalls(names);
    MacroSelectionCalls(names);
  }

  lemma Closed13(names: set<string>)
    requires "p_macromultisequence" in names && "p_macrosinglesequence" in names && "p_macroterm" in names && "p_macroprefix" in names && "p_macroandprefix" in names && "p_macronotprefix" in names && "p_macrosuffix" in names
    ensures Grammars.TableClosed(Table13, names)
  {
    MacroSequenceCalls(names);
    MacroMultiSequenceCalls(names);
    MacroSingleSequenceCalls(names);
    MacroTermCalls(names);
    MacroPrefixCalls(names);
  }

  lemma Closed14(names: set<string>)
    requires "p_ampersand" in names && "p_macrosuffix" in names && "p_exclamation" in names && "p_macroquestionsuffix" in names && "p_macrostarsuffix" in names && "p_macroplussuffix" in names && "p_macrorepeatsuffix" in names && "p_macroprimary" in names
    ensures Grammars.TableClosed(Table14, names)
  {
    MacroAndPrefixCalls(names);
    MacroNotPrefixCalls(names);
    MacroSuffixCalls(names);
  }

  lemma Closed15(names: set<string>)
    requires "p_macroprimary" in names && "p_question" in names && "p_star" in names && "p_plus" in names && "p_repeatnum" in names
    ensures Grammars.TableClosed(Table15, names)
  {
    MacroQuestionSuffixCalls(names);
    MacroStarSuffixCalls(names);
    MacroPlusSuffixCalls(names);
    MacroRepeatSuffixCalls(names);
  }

  lemma Closed16(names: set<string>)
    requires "p_regularexp" in names && "p_open" in names && "p_macroexpression" in names && "p_close" in names && "p_literal" in names && "p_regprefix" in names && "p_singlequotesliteral" in names && "p_doublequotesliteral" in names && "p_regularexpoptions" in names && "p_spacing" in names
    ensures Grammars.TableClosed(Table16, names)
  {
    MacroPrimaryCalls(names);
    RegularExpCalls(names);
  }

  lemma Closed17(names: set<string>)
    requires "p_colon" in names && "p_endoffile" in names && "p_spacing" in names && "p_singlequotesliteral" in names && "p_doublequotesliteral" in names && "p_literaloption" in names && "p_singlequotesliteralcontents" in names
    ensures Grammars.TableClosed(Table17, names)
  {
    RegularExpOptionsCalls(names);
    IdentifierCalls(names);
    MacroIdentifierCalls(names);
    ParameterNameCalls(names);
    LiteralCalls(names);
    SingleQuotesLiteralCalls(names);
  }

  lemma Closed18(names: set<string>)
    requires "p_doublequotesliteralcontents" in names && "p_colon" in names && "p_spacing" in names
    ensures Grammars.TableClosed(Table18, names)
  {
    DoubleQuotesLiteralCalls(names);
    LiteralOptionCalls(names);
    NumberCalls(names);
    ENDOFFILECalls(names);
    LEFTARROWCalls(names);
    SUB_LEFTARROWCalls(names);
    SLASHCalls(names);
  }

  lemma Closed19(names: set<string>)
    requires "p_spacing" in names
    ensures Grammars.TableClosed(Table19, names)
  {
    AMPERSANDCalls(names);
    EXCLAMATIONCalls(names);
    MUCH_GREATER_THANCalls(names);
    QUESTIONCalls(names);
    STARCalls(names);
    PLUSCalls(names);
    OPENCalls(names);
    CLOSECalls(names);
  }

  lemma Closed20(names: set<string>)
    requires "p_spacing" in names
    ensures Grammars.TableClosed(Table20, names)
  {
    CURL_OPENCalls(names);
    CURL_CLOSECalls(names);
    COLONCalls(names);
    COMMACalls(names);
    EQUALCalls(names);
  }

  lemma Closed21(names: set<string>)
    requires "p_space" in names && "p_endofline" in names
    ensures Grammars.TableClosed(Table21, names)
  {
    SpacingCalls(names);
    CommentCalls(names);
    SpaceCalls(names);
  }

  /** The table is closed when each of its parts is. */
  lemma ClosedByParts(names: set<string>)
    requires Grammars.TableClosed(Table0, names) && Grammars.TableClosed(Table1, names) && Grammars.TableClosed(Table2, names) && Grammars.TableClosed(Table3, names) && Grammars.TableClosed(Table4, names) && Grammars.TableClosed(Table5, names) && Grammars.TableClosed(Table6, names) && Grammars.TableClosed(Table7, names) && Grammars.TableClosed(Table8, names) && Grammars.TableClosed(Table9, names) && Grammars.TableClosed(Table10, names) && Grammars.TableClosed(Table11, names) && Grammars.TableClosed(Table12, names) && Grammars.TableClosed(Table13, names) && Grammars.TableClosed(Table14, names) && Grammars.TableClosed(Table15, names) && Grammars.TableClosed(Table16, names) && Grammars.TableClosed(Table17, names) && Grammars.TableClosed(Table18, names) && Grammars.TableClosed(Table19, names) && Grammars.TableClosed(Table20, names) && Grammars.TableClosed(Table21, names)
    ensures Grammars.TableClosed(Table, names)
  {
    Grammars.TableClosedAppend(Table0, Table1, names);
    Grammars.TableClosedAppend(Table0 + Table1, Table2, names);
    Grammars.TableClosedAppend(Table0 + Table1 + Table2, Table3, names);
    Grammars.TableClosedAppend(Table0 + Table1 + Table2 + Table3, Table4, names);
    Grammars.TableClosedAppend(Table0 + Table1 + Table2 + Table3 + Table4, Table5, names);
    Grammars.TableClosedAppend(Table0 + Table1 + Table2 + Table3 + Table4 + Table5, Table6, names);
    Grammars.TableClosedAppend(Table0 + Table1 + Table2 + Table3 + Table4 + Table5 + Table6, Table7, names);
    Grammars.TableClosedAppend(Table0 + Table1 + Table2 + Table3 + Table4 + Table5 + Table6 + Table7, Table8, names);
    Grammars.TableClosedAppend(Table0 + Table1 + Table2 + Table3 + Table4 + Table5 + Table6 + Table7 + Table8, Table9, names);
    Grammars.TableClosedAppend(Table0 + Table1 + Table2 + Table3 + Table4 + Table5 + Table6 + Table7 + Table8 + Table9, Table10, names);
    Grammars.TableClosedAppend(Table0 + Table1 + Table2 + Table3 + Table4 + Table5 + Table6 + Table7 + Table8 + Table9 + Table10, Table11, names);
    Grammars.TableClosedAppend(Table0 + Table1 + Table2 + Table3 + Table4 + Table5 + Table6 + Table7 + Table8 + Table9 + Table10 + Table11, Table12, names);
    Grammars.TableClosedAppend(Table0 + Table1 + Table2 + Table3 + Table4 + Table5 + Table6 + Table7 + Table8 + Table9 + Table10 + Table11 + Table12, Table13, names);
    Grammars.TableClosedAppend(Table0 + Table1 + Table2 + Table3 + Table4 + Table5 + Table6 + Table7 + Table8 + Table9 + Table10 + Table11 + Table12 + Table13, Table14, names);
    Grammars.TableClosedAppend(Table0 + Table1 + Table2 + Table3 + Table4 + Table5 + Table6 + Table7 + Table8 + Table9 + Table10 + Table11 + Table12 + Table13 + Table14, Table15, names);
    Grammars.TableClosedAppend(Table0 + Table1 + Table2 + Table3 + Table4 + Table5 + Table6 + Table7 + Table8 + Table9 + Table10 + Table11 + Table12 + Table13 + Table14 + Table15, Table16, names);
    Grammars.TableClosedAppend(Table0 + Table1 + Table2 + Table3 + Table4 + Table5 + Table6 + Table7 + Table8 + Table9 + Table10 + Table11 + Table12 + Table13 + Table14 + Table15 + Table16, Table17, names);
    Grammars.TableClosedAppend(Table0 + Table1 + Table2 + Table3 + Table4 + Table5 + Table6 + Table7 + Table8 + Table9 + Table10 + Table11 + Table12 + Table13 + Table14 + Table15 + Table16 + Table17, Table18, names);
    Grammars.TableClosedAppend(Table0 + Table1 + Table2 + Table3 + Table4 + Table5 + Table6 + Table7 + Table8 + Table9 + Table10 + Table11 + Table12 + Table13 + Table14 + Table15 + Table16 + Table17 + Table18, Table19, names);
    Grammars.TableClosedAppend(Table0 + Table1 + Table2 + Table3 + Table4 + Table5 + Table6 + Table7 + Table8 + Table9 + Table10 + Table11 + Table12 + Table13 + Table14 + Table15 + Table16 + Table17 + Table18 + Table19, Table20, names);
    Grammars.TableClosedAppend(Table0 + Table1 + Table2 + Table3 + Table4 + Table5 + Table6 + Table7 + Table8 + Table9 + Table10 + Table11 + Table12 + Table13 + Table14 + Table15 + Table16 + Table17 + Table18 + Table19 + Table20, Table21, names);
  }

  lemma PartsClosed0()
    ensures Grammars.TableClosed(Table0, Grammars.Names(Table)) && Grammars.TableClosed(Table1, Grammars.Names(Table)) && Grammars.TableClosed(Table2, Grammars.Names(Table))
  {
    Defined0();
    Defined1();
    Defined2();
    Defined3();
    Defined12();
    Defined17();
    Defined18();
    Defined21();
    TableNames();
    PartNames0(Grammars.Names(Table));
    PartNames1(Grammars.Names(Table));
    PartNames3(Grammars.Names(Table));
    PartNames4(Grammars.Names(Table));
    PartNames5(Grammars.Names(Table));
    Closed0(Grammars.Names(Table));
    Closed1(Grammars.Names(Table));
    Closed2(Grammars.Names(Table));
  }

  lemma PartsClosed1()
    ensures Grammars.TableClosed(Table3, Grammars.Names(Table)) && Grammars.TableClosed(Table4, Grammars.Names(Table)) && Grammars.TableClosed(Table5, Grammars.Names(Table)) && Grammars.TableClosed(Table6, Grammars.Names(Table))
  {
    Defined3();
    Defined4();
    Defined5();
    Defined6();
    Defined7();
    Defined10();
    Defined17();
    Defined18();
    Defined19();
    Defined20();
    TableNames();
    PartNames1(Grammars.Names(Table));
    PartNames2(Grammars.Names(Table));
    PartNames4(Grammars.Names(Table));
    PartNames5(Grammars.Names(Table));
    Closed3(Grammars.Names(Table));
    Closed4(Grammars.Names(Table));
    Closed5(Grammars.Names(Table));
    Closed6(Grammars.Names(Table));
  }

  lemma PartsClosed2()
    ensures Grammars.TableClosed(Table7, Grammars.Names(Table)) && Grammars.TableClosed(Table8, Grammars.Names(Table)) && Grammars.TableClosed(Table9, Grammars.Names(Table)) && Grammars.TableClosed(Table10, Grammars.Names(Table))
  {
    Defined3();
    Defined8();
    Defined9();
    Defined10();
    Defined11();
    Defined16();
    Defined17();
    Defined18();
    Defined19();
    Defined20();
    TableNames();
    PartNames1(Grammars.Names(Table));
    PartNames2(Grammars.Names(Table));
    PartNames3(Grammars.Names(Table));
    PartNames4(Grammars.Names(Table));
    PartNames5(Grammars.Names(Table));
    Closed7(Grammars.Names(Table));
    Closed8(Grammars.Names(Table));
    Closed9(Grammars.Names(Table));
    Closed10(Grammars.Names(Table));
  }

  lemma PartsClosed3()
    ensures Grammars.TableClosed(Table11, Grammars.Names(Table)) && Grammars.TableClosed(Table12, Grammars.Names(Table)) && Grammars.TableClosed(Table13, Grammars.Names(Table))
  {
    Defined2();
    Defined3();
    Defined12();
    Defined13();
    Defined14();
    Defined17();
    Defined18();
    Defined19();
    Defined20();
    Defined21();
    TableNames();
    PartNames0(Grammars.Names(Table));
    PartNames1(Grammars.Names(Table));
    PartNames3(Grammars.Names(Table));
    PartNames4(Grammars.Names(Table));
    PartNames5(Grammars.Names(Table));
    Closed11(Grammars.Names(Table));
    Closed12(Grammars.Names(Table));
    Closed13(Grammars.Names(Table));
  }

  lemma PartsClosed4()
    ensures Grammars.TableClosed(Table14, Grammars.Names(Table)) && Grammars.TableClosed(Table15, Grammars.Names(Table)) && Grammars.TableClosed(Table16, Grammars.Names(Table)) && Grammars.TableClosed(Table17, Grammars.Names(Table))
  {
    Defined8();
    Defined12();
    Defined14();
    Defined15();
    Defined16();
    Defined17();
    Defined18();
    Defined19();
    Defined20();
    Defined21();
    TableNames();
    PartNames2(Grammars.Names(Table));
    PartNames3(Grammars.Names(Table));
    PartNames4(Grammars.Names(Table));
    PartNames5(Grammars.Names(Table));
    Closed14(Grammars.Names(Table));
    Closed15(Grammars.Names(Table));
    Closed16(Grammars.Names(Table));
    Closed17(Grammars.Names(Table));
  }

  lemma PartsClosed5()
    ensures Grammars.TableClosed(Table18, Grammars.Names(Table)) && Grammars.TableClosed(Table19, Grammars.Names(Table)) && Grammars.TableClosed(Table20, Grammars.Names(Table)) && Grammars.TableClosed(Table21, Grammars.Names(Table))
  {
    Defined18();
    Defined20();
    Defined21();
    TableNames();
    PartNames5(Grammars.Names(Table));
    Closed18(Grammars.Names(Table));
    Closed19(Grammars.Names(Table));
    Closed20(Grammars.Names(Table));
    Closed21(Grammars.Names(Table));
  }

  /** Every rule the table calls is one of its methods. */
  lemma TableIsClosed()
    ensures Grammars.TableClosed(Table, Grammars.Names(Table))
  {
    PartsClosed0();
    PartsClosed1();
    PartsClosed2();
    PartsClosed3();
    PartsClosed4();
    PartsClosed5();
    ClosedByParts(Grammars.Names(Table));
  }

  /** The top rule calls only methods of the table. */
  lemma TopCallsDefined()
    ensures Grammars.CallsOnly(ExPeg, Grammars.Names(Table))
  {
    Defined0();
    Defined1();
    Defined2();
    Defined12();
    Defined21();
    TableNames();
    PartNames0(Grammars.Names(Table));
    PartNames3(Grammars.Names(Table));
    PartNames5(Grammars.Names(Table));
    ExPegCalls(Grammars.Names(Table));
  }

  /**
   * Parsing with the top rule over this table, whatever the text, the state
   * and the fuel, never stops on the AttributeError of a missing method.
   */
  lemma ParseNeverMissing(env: Env, endPos: Option<nat>, st: State, fuel: nat)
    requires env.rules == Grammars.RulesOf(Table) && StateOk(env, st)
    ensures var r := Driver.ParseSpec(env, ExPeg, "ExPeg", endPos, st, fuel);
      !(r.ParseStuck? && r.why.NoSuchRule?)
  {
    TableIsClosed();
    TopCallsDefined();
    Grammars.ParseNeverMissing(env, Table, ExPeg, "ExPeg", endPos, st, fuel);
  }

  // ---------------------------------------------------------------------------
  // Facts about single rules

  /** The table binds `p_endofline` to the end-of-line rule. */
  lemma EndOfLineBound()
    ensures "p_endofline" in Grammars.RulesOf(Table) && Grammars.RulesOf(Table)["p_endofline"] == EndOfLine
  {
    assert "p_endofline" in Grammars.RulesOf(Table21);
    Grammars.RulesOfAppend(Table0 + Table1 + Table2 + Table3 + Table4 + Table5 + Table6 + Table7 + Table8 + Table9
      + Table10 + Table11 + Table12 + Table13 + Table14 + Table15 + Table16 + Table17 + Table18 + Table19 + Table20,
      Table21, "p_endofline");
  }

  /**
   * A number starts with a digit other than zero, so a repetition count or
   * bound of zero is rejected.
   */
  lemma NumberRegex(s: string)
    ensures Match(Number.xs[0].p, s).Some? <==> |s| > 0 && '1' <= s[0] <= '9'
  {
    var first := Class([CharRange('1', '9')], false);
    assert Number.xs[0].p == Cat(first, Star(Class([CharRange('0', '9')], false)));
    ClassThenStar(first, Class([CharRange('0', '9')], false), s);
    if |s| > 0 && '1' <= s[0] <= '9' {
      assert first.ranges[0].lo <= s[0] <= first.ranges[0].hi;
    }
  }

  /** End of line needs a carriage return or a line feed first. */
  lemma EndOfLineRejects(w: string)
    requires w == [] || (w[0] != '\r' && w[0] != '\n')
    ensures Match(EndOfLine.p, w) == None
  {
    assert EndOfLine.p == Alt(Str("\r\n"), Alt(Str("\n"), Str("\r")));
    StrMisses("\r\n", w);
    StrMisses("\n", w);
    StrMisses("\r", w);
  }

  /** A one-character literal other than the next character fails without moving. */
  lemma LitMisses(env: Env, e: Expr, st: State)
    requires e.Lit? && !e.nocase && |e.s| > 0 && StateOk(env, st)
    requires st.pos < |env.contents| && env.contents[st.pos] != e.s[0]
    ensures EvalLit(env, e, st) == Done(false, [], st)
  {
    var c := env.contents;
    var next := c[st.pos..Min(st.pos + |e.s|, |c|)];
    assert next[0] == c[st.pos];
  }

  /**
   * Space, as written, does not accept a tab: its second literal is the two
   * characters backslash and `t`.
   */
  lemma SpaceRejectsTab(env: Env, st: State, fuel: nat)
    requires "p_endofline" in env.rules && env.rules["p_endofline"] == EndOfLine
    requires StateOk(env, st) && st.pos < |env.contents| && env.contents[st.pos] == '\t'
    requires Key("EndOfLine", st.pos) !in st.cache && fuel > 0
    ensures var r := Eval(env, Space, st, fuel); r.Done? && !r.ok && r.st.pos == st.pos
  {
    var c := env.contents;
    LitMisses(env, Space.xs[0], st);
    LitMisses(env, Space.xs[1], st);
    assert SetPos(st, st.pos) == st;
    assert Eval(env, Space.xs[0], st, fuel) == Done(false, [], st);
    assert EvalSel(env, Space, 0, st, fuel) == EvalSel(env, Space, 1, st, fuel);
    assert Eval(env, Space.xs[1], st, fuel) == Done(false, [], st);
    assert EvalSel(env, Space, 1, st, fuel) == EvalSel(env, Space, 2, st, fuel);
    var w := Window(c, st.pos, env.limit);
    assert w == [] || w[0] == '\t';
    EndOfLineRejects(w);
    assert EvalReg(env, EndOfLine, st) == Done(false, [], st);
    var st1 := st.(cache := st.cache[Key("EndOfLine", st.pos) := Memo(false, [])]);
    assert EvalCall(env, Space.xs[2], st, fuel) == Done(false, [], st1);
    assert SetPos(st1, st.pos) == st1;
    assert Eval(env, Space.xs[2], st, fuel) == Done(false, [], st1);
    assert EvalSel(env, Space, 2, st, fuel) == EvalSel(env, Space, 3, st1, fuel);
  }

  /** ... while it does accept a backslash followed by `t`, as two characters of white space. */
  lemma SpaceAcceptsBackslashT(env: Env, st: State, fuel: nat)
    requires StateOk(env, st) && st.pos + 2 <= |env.contents| && env.contents[st.pos..st.pos + 2] == "\\t"
    requires !(0 < env.limit < st.pos + 2)
    ensures var r := Eval(env, Space, st, fuel); r.Done? && r.ok && r.st.pos == st.pos + 2
  {
    var c := env.contents;
    assert c[st.pos] == c[st.pos..st.pos + 2][0];
    LitMisses(env, Space.xs[0], st);
    assert SetPos(st, st.pos) == st;
    assert c[st.pos..Min(st.pos + 2, |c|)] == "\\t";
    assert Eval(env, Space.xs[0], st, fuel) == Done(false, [], st);
    assert EvalSel(env, Space, 0, st, fuel) == EvalSel(env, Space, 1, st, fuel);
    var r1 := Eval(env, Space.xs[1], st, fuel);
    assert r1.ok && r1.st.pos == st.pos + 2;
  }

  /** Space with the tab the grammar evidently means. */
  const SpaceFixed: Expr := Sel([Lit(" ", false), Lit("\t", false), Call("p_endofline", "EndOfLine")])

  /** The corrected Space accepts a tab as one character of white space, whatever the rule table. */
  lemma SpaceFixedAcceptsTab(env: Env, st: State, fuel: nat)
    requires StateOk(env, st) && st.pos < |env.contents| && env.contents[st.pos] == '\t'
    requires !(0 < env.limit < st.pos + 1)
    ensures var r := Eval(env, SpaceFixed, st, fuel); r.Done? && r.ok && r.st.pos == st.pos + 1
  {
    var c := env.contents;
    LitMisses(env, SpaceFixed.xs[0], st);
    assert SetPos(st, st.pos) == st;
    assert c[st.pos..Min(st.pos + 1, |c|)] == "\t";
    assert Eval(env, SpaceFixed.xs[0], st, fuel) == Done(false, [], st);
    assert EvalSel(env, SpaceFixed, 0, st, fuel) == EvalSel(env, SpaceFixed, 1, st, fuel);
    var r1 := Eval(env, SpaceFixed.xs[1], st, fuel);
    assert r1.ok && r1.st.pos == st.pos + 1;
  }
}
