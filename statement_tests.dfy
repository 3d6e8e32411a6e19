/**
  Conversions from the converter's statement tests, restated as facts about
  the model. Each method block is written as its top-level statements with
  their tokens; the data-flow analysis is any oracle that reports, for the
  range the heuristic chooses, what Roslyn reports for that Visual Basic
  code. A verdict of true is a declaration converted without an initializer
  (`int b;`), false one converted with `= default(T)`.
 */
module StatementTestVectors {
  import opened CaseFolding
  import opened DefiniteAssignment
  import opened TypeSyntaxMapping

  function Id(text: string): (t: Token) { Token(IdentifierToken, text) }
  function Kw(text: string): (t: Token) { Token(OtherToken, text) }

  /** The statement mentions `name` through its identifier token at `k`. */
  lemma MentionedAt(s: Statement, name: string, k: nat)
    requires k < |s.tokens| && s.tokens[k] == Id(name)
    ensures Mentions(s, name)
  {
    assert EqualsIgnoreCase(s.tokens[k].valueText, name);
  }

  /** `Dim b As Integer` / `b = 0` */
  function AssignmentBlock(): (block: seq<Statement>)
  {
    [OtherStatement([Kw("Dim"), Id("b"), Kw("As"), Kw("Integer")]),
     OtherStatement([Id("b"), Kw("="), Kw("0")])]
  }

  /** The declaration and the assignment are analysed together; `b` is
      written but not read there, so `int b;`. */
  lemma AssignmentStatement(analyzeDataFlow: AnalysisRange -> DataFlow)
    requires !Named(analyzeDataFlow(StatementSpan(0, 1)).readInside, "b")
    ensures AnalysedRange(AssignmentBlock(), "b") == Success(StatementSpan(0, 1))
    ensures IsDefinitelyAssignedBeforeRead(AssignmentBlock(), "b", analyzeDataFlow) == Success(true)
  {
    var block := AssignmentBlock();
    MentionedAt(block[0], "b", 1);
    MentionedAt(block[1], "b", 0);
    TwoLeadingMentions(block, "b");
  }

  /** `Dim b As Integer` / `b = 0` / `While b = 0 ... b = 1 End While` */
  function WhileBlock(): (block: seq<Statement>)
  {
    [OtherStatement([Kw("Dim"), Id("b"), Kw("As"), Kw("Integer")]),
     OtherStatement([Id("b"), Kw("="), Kw("0")]),
     OtherStatement([Kw("While"), Id("b"), Kw("="), Kw("0"), Kw("If"), Id("b"), Kw("="), Kw("2"), Kw("Then"),
                     Kw("Continue"), Kw("While"), Kw("If"), Id("b"), Kw("="), Kw("3"), Kw("Then"), Kw("Exit"),
                     Kw("While"), Id("b"), Kw("="), Kw("1"), Kw("End"), Kw("While")])]
  }

  /** The loop is a third mention and is not looked at; still `int b;`. */
  lemma WhileStatement(analyzeDataFlow: AnalysisRange -> DataFlow)
    requires !Named(analyzeDataFlow(StatementSpan(0, 1)).readInside, "b")
    ensures Candidates(WhileBlock(), "b") == [0, 1]
    ensures IsDefinitelyAssignedBeforeRead(WhileBlock(), "b", analyzeDataFlow) == Success(true)
  {
    var block := WhileBlock();
    MentionedAt(block[0], "b", 1);
    MentionedAt(block[1], "b", 0);
    TwoLeadingMentions(block, "b");
  }

  /** `Dim b As Integer` / `If a = 0 Then b = 0 ElseIf ... Else b = 3 End If` */
  function IfBlock(): (block: seq<Statement>)
  {
    [OtherStatement([Kw("Dim"), Id("b"), Kw("As"), Kw("Integer")]),
     MultiLineIfBlock([Kw("If"), Id("a"), Kw("="), Kw("0"), Kw("Then"), Id("b"), Kw("="), Kw("0"),
                       Kw("ElseIf"), Id("a"), Kw("="), Kw("1"), Kw("Then"), Id("b"), Kw("="), Kw("1"),
                       Kw("ElseIf"), Id("a"), Kw("="), Kw("2"), Kw("OrElse"), Id("a"), Kw("="), Kw("3"), Kw("Then"),
                       Id("b"), Kw("="), Kw("2"), Kw("Else"), Id("b"), Kw("="), Kw("3"), Kw("End"), Kw("If")])]
  }

  /** The second mention is a multi-line If block, so only its condition
      `a = 0` is analysed; it does not read `b`, so `int b;`. */
  lemma IfStatement(analyzeDataFlow: AnalysisRange -> DataFlow)
    requires !Named(analyzeDataFlow(IfCondition(1)).readInside, "b")
    ensures AnalysedRange(IfBlock(), "b") == Success(IfCondition(1))
    ensures IsDefinitelyAssignedBeforeRead(IfBlock(), "b", analyzeDataFlow) == Success(true)
  {
    var block := IfBlock();
    MentionedAt(block[0], "b", 1);
    MentionedAt(block[1], "b", 5);
    TwoLeadingMentions(block, "b");
  }

  /** `Dim str As SomeStruct` / `With Str ReDim .ArrField(1) ... End With` */
  function WithBlock(): (block: seq<Statement>)
  {
    [OtherStatement([Kw("Dim"), Id("str"), Kw("As"), Id("SomeStruct")]),
     OtherStatement([Kw("With"), Id("Str"), Kw("ReDim"), Kw("."), Id("ArrField"), Kw("("), Kw("1"), Kw(")"),
                     Kw("ReDim"), Kw("."), Id("ArrProp"), Kw("("), Kw("2"), Kw(")"), Kw("End"), Kw("With")])]
  }

  /** `Str` is the same identifier as `str`, so the With block is the second
      mention; the variable is read there and not definitely assigned
      first, so `SomeStruct str = default(SomeStruct);`. */
  lemma WithBlockValue(analyzeDataFlow: AnalysisRange -> DataFlow)
    requires var flow := analyzeDataFlow(StatementSpan(0, 1));
      Named(flow.readInside, "str") && (Named(flow.writtenInside, "str") || !Named(flow.alwaysAssigned, "str"))
    ensures AnalysedRange(WithBlock(), "str") == Success(StatementSpan(0, 1))
    ensures IsDefinitelyAssignedBeforeRead(WithBlock(), "str", analyzeDataFlow) == Success(false)
  {
    var block := WithBlock();
    MentionedAt(block[0], "str", 1);
    EqualsIgnoreCaseCharwise("Str", "str");
    assert block[1].tokens[1].kind == IdentifierToken && EqualsIgnoreCase(block[1].tokens[1].valueText, "str");
    TwoLeadingMentions(block, "str");
  }

  /** `Dim charIndex As Integer` / `Do charIndex = rand.Next(48, 123) Loop Until ...` */
  function UntilBlock(): (block: seq<Statement>)
  {
    [OtherStatement([Kw("Dim"), Id("charIndex"), Kw("As"), Kw("Integer")]),
     OtherStatement([Kw("Do"), Id("charIndex"), Kw("="), Id("rand"), Kw("."), Id("Next"), Kw("("), Kw("48"),
                     Kw(","), Kw("123"), Kw(")"), Kw("Loop"), Kw("Until"), Kw("("), Id("charIndex"), Kw(">="),
                     Kw("48"), Kw(")")])]
  }

  /** The loop writes and then reads `charIndex`, so however the
      always-assigned set comes out the answer is false and the declaration
      keeps `= default(int)`. */
  lemma UntilStatement(analyzeDataFlow: AnalysisRange -> DataFlow)
    requires var flow := analyzeDataFlow(StatementSpan(0, 1));
      Named(flow.readInside, "charIndex") && Named(flow.writtenInside, "charIndex")
    ensures IsDefinitelyAssignedBeforeRead(UntilBlock(), "charIndex", analyzeDataFlow) == Success(false)
  {
    var block := UntilBlock();
    MentionedAt(block[0], "charIndex", 1);
    MentionedAt(block[1], "charIndex", 1);
    TwoLeadingMentions(block, "charIndex");
    assert AnalysedRange(block, "charIndex") == Success(StatementSpan(0, 1));
  }

  /** `Dim b, s As Integer()` / `For i = 0 To [end] b(i) = s(i) Next` */
  function ForBlock(): (block: seq<Statement>)
  {
    [OtherStatement([Kw("Dim"), Id("b"), Kw(","), Id("s"), Kw("As"), Kw("Integer"), Kw("("), Kw(")")]),
     OtherStatement([Kw("For"), Id("i"), Kw("="), Kw("0"), Kw("To"), Id("end"), Id("b"), Kw("("), Id("i"),
                     Kw(")"), Kw("="), Id("s"), Kw("("), Id("i"), Kw(")"), Kw("Next")])]
  }

  /** Both declarators are read in the loop without being assigned first, so
      `int[] b = default(int[]), s = default(int[]);`. */
  lemma ForWithSingleStatement(analyzeDataFlow: AnalysisRange -> DataFlow)
    requires var flow := analyzeDataFlow(StatementSpan(0, 1));
      && Named(flow.readInside, "b") && !Named(flow.alwaysAssigned, "b")
      && Named(flow.readInside, "s") && !Named(flow.alwaysAssigned, "s")
    ensures IsDefinitelyAssignedBeforeRead(ForBlock(), "b", analyzeDataFlow) == Success(false)
    ensures IsDefinitelyAssignedBeforeRead(ForBlock(), "s", analyzeDataFlow) == Success(false)
  {
    var block := ForBlock();
    MentionedAt(block[0], "b", 1);
    MentionedAt(block[1], "b", 6);
    MentionedAt(block[0], "s", 3);
    MentionedAt(block[1], "s", 11);
    TwoLeadingMentions(block, "b");
    TwoLeadingMentions(block, "s");
  }

  // ---------------------------------------------------------------------
  // Declared types

  /** Roslyn's SpecialType codes of System.Int32 and System.String. */
  const SystemInt32: SpecialType := 13
  const SystemString: SpecialType := 20

  function KeywordTable(special: SpecialType): (keyword: Option<string>)
  {
    if special == SystemInt32 then Some("int")
    else if special == SystemString then Some("string")
    else None
  }

  /** `Integer` is written `int` (StatementTests.cs:48/55), `String` is
      `string` (:118/125), a structure goes through its display name
      (`SomeStruct`, :392/407), and so does an array type, which has no
      special type (`int[]`, :212/218). `Integer?` becoming `int?` does not
      occur in those tests; it is an illustration of the nullable case. */
  lemma DeclaredTypes(minimalDisplayName: (TypeSymbol, int) -> string, position: int)
    requires minimalDisplayName(NonNullable(0, "SomeStruct"), position) == "SomeStruct"
    requires minimalDisplayName(NonNullable(0, "Int32[]"), position) == "int[]"
    ensures GetCsTypeSyntax(NonNullable(SystemInt32, "Int32"), KeywordTable, minimalDisplayName, position) == PredefinedType("int")
    ensures GetCsTypeSyntax(NullableOf(NonNullable(SystemInt32, "Int32")), KeywordTable, minimalDisplayName, position)
         == NullableType(PredefinedType("int"))
    ensures GetCsTypeSyntax(NonNullable(SystemString, "String"), KeywordTable, minimalDisplayName, position) == PredefinedType("string")
    ensures GetCsTypeSyntax(NonNullable(0, "SomeStruct"), KeywordTable, minimalDisplayName, position) == ParsedTypeName("SomeStruct")
    ensures GetCsTypeSyntax(NonNullable(0, "Int32[]"), KeywordTable, minimalDisplayName, position) == ParsedTypeName("int[]")
  {
  }
}
