# Semantic-model helpers of the VB-to-C# statement converter

This project models the two helpers in
`ICSharpCode.CodeConverter/CSharp/SemanticModelExtensions.cs`. The statement
converter uses them when it turns a Visual Basic local declaration into C#.

- `IsDefinitelyAssignedBeforeRead` decides whether a declaration such as
  `Dim b As Integer` may become `int b;` rather than `int b = default(int);`.
  It takes the method block's top-level statements and keeps the first two
  whose identifier tokens match the variable's name, ignoring case (`Where`,
  then `Take(2)`). If the second of them is a multi-line `If` block, only its
  condition is analysed. Otherwise the analysis covers the first statement
  through the second. The data-flow analysis reports three symbol sets. The
  answer is `(alwaysAssigned && !writtenInside) || !readInside`. A true
  answer only lets the caller drop the initializer. When no statement
  mentions the name, `First()` throws; the model returns
  `Failure(NoStatementMentionsName)`.
- `GetCsTypeSyntax` maps a type symbol to C# type syntax. A
  `Nullable(Of T)` becomes `T?` around the mapping of `T`. A type with a
  predefined keyword becomes that keyword. Every other type is parsed from
  its minimal display name.

Modules:

- `CaseFolding` (`case_folding.dfy`): case-insensitive name comparison.
- `DefiniteAssignment` (`definite_assignment.dfy`): the heuristic and its
  properties.
- `TypeSyntaxMapping` (`type_syntax.dfy`): the type mapping and its
  properties.
- `StatementTestVectors` (`statement_tests.dfy`): conversions from
  `Tests/CSharp/StatementTests.cs`, each stated as a lemma about the model.

Roslyn's data-flow analysis is a parameter: a function from the analysed
range to the three sets of symbol names. The syntax tree is reduced to each
statement's tokens (kind and value text) plus whether the statement is a
multi-line `If` block. The C# keyword table and the minimal-display-name
function are also parameters.

Behaviour worth knowing, stated against the source's own comments:

- The doc comment of `IsDefinitelyAssignedBeforeRead`
  (`SemanticModelExtensions.cs:15-17`) says a true answer only lets the
  caller drop an initializer. The answer is true whenever the name is not
  read inside the analysed range, even when it is written there
  (`WrittenButNotReadIsAssigned`); the test `AssignmentStatement`
  (`Dim b` / `b = 0` gives `int b;`) relies on it.
- The narrowing to the condition applies to every multi-line `If` block,
  `ElseIf`/`Else` included (the test `IfStatement` exercises this). The
  comment at `SemanticModelExtensions.cs:32-33` notes that the same special
  case could apply to any node holding several statements; only the `If`
  block is handled.
- The comment at `SemanticModelExtensions.cs:24` accepts overshooting when
  several identifiers share the name. `LaterStatementsAreIgnored` proves the
  other side of the selection: statements after the second mention never
  change the answer, so a read of the variable in a third statement cannot
  turn a true answer into false.

## Model

| member | source | states |
|---|---|---|
| `CaseFolding.FoldAt` | ICSharpCode.CodeConverter/CSharp/SemanticModelExtensions.cs:21 | upper-casing a name upper-cases each character in place |
| `CaseFolding.EqualsIgnoreCaseCharwise` | ICSharpCode.CodeConverter/CSharp/SemanticModelExtensions.cs:21 | two names are equal ignoring case if and only if they have the same length and agree character by character once upper-cased |
| `CaseFolding.FoldIsSameIdentifier` | ICSharpCode.CodeConverter/CSharp/SemanticModelExtensions.cs:21 | a name is equal, ignoring case, to its upper-cased form |
| `CaseFolding.DifferentIdentifiers` | ICSharpCode.CodeConverter/CSharp/SemanticModelExtensions.cs:21 | names differing beyond case at one position are different identifiers |
| `DefiniteAssignment.NextSelected` | ICSharpCode.CodeConverter/CSharp/SemanticModelExtensions.cs:26-27 | the next selected index from a starting point: no selected index is skipped, and the block end is reached only when none remains |
| `DefiniteAssignment.FirstTwo` | ICSharpCode.CodeConverter/CSharp/SemanticModelExtensions.cs:26-27 | at most two indices, none exactly when nothing is selected; the first is the earliest selected index, the second the next one after it, and a single index means nothing selected follows it |
| `DefiniteAssignment.Candidates` | ICSharpCode.CodeConverter/CSharp/SemanticModelExtensions.cs:25-27 | the kept statements are the first mention of the name and, if there is one, the next mention after it; none is kept exactly when no statement mentions the name |
| `DefiniteAssignment.AnalysedRange` | ICSharpCode.CodeConverter/CSharp/SemanticModelExtensions.cs:25-36 | a range is chosen exactly when some top-level statement mentions the name |
| `DefiniteAssignment.IsDefinitelyAssignedBeforeRead` | ICSharpCode.CodeConverter/CSharp/SemanticModelExtensions.cs:19-42 | fails (the `First()` exception) exactly when no top-level statement mentions the name |
| `DefiniteAssignment.AnalysedRangeShape` | ICSharpCode.CodeConverter/CSharp/SemanticModelExtensions.cs:28-36 | with a mention present, the analysed range is the condition of the second candidate when it is a multi-line If block, else the span from the first to the second candidate |
| `DefiniteAssignment.SingleMentionAnalysesItself` | ICSharpCode.CodeConverter/CSharp/SemanticModelExtensions.cs:25-36 | with a single mention, first and second are the same statement: the range is that statement, or its condition when it is a multi-line If block |
| `DefiniteAssignment.TwoLeadingMentions` | ICSharpCode.CodeConverter/CSharp/SemanticModelExtensions.cs:25-27 | when the first two statements both mention the name they are the two candidates |
| `DefiniteAssignment.NotReadInsideMeansAssigned` | ICSharpCode.CodeConverter/CSharp/SemanticModelExtensions.cs:39-41 | a name not read inside the range gives true whatever the always-assigned and written-inside sets hold |
| `DefiniteAssignment.ReadAndWrittenInsideIsNotAssigned` | ICSharpCode.CodeConverter/CSharp/SemanticModelExtensions.cs:38-41 | a name read and written inside the range gives false |
| `DefiniteAssignment.ReadAndNotAlwaysAssignedIsNotAssigned` | ICSharpCode.CodeConverter/CSharp/SemanticModelExtensions.cs:38-41 | a name read inside and not always assigned gives false |
| `DefiniteAssignment.AssignedExactly` | ICSharpCode.CodeConverter/CSharp/SemanticModelExtensions.cs:38-41 | the answer is true if and only if the name is not read inside, or is always assigned and not written inside |
| `DefiniteAssignment.WrittenButNotReadIsAssigned` | ICSharpCode.CodeConverter/CSharp/SemanticModelExtensions.cs:40-41 | a write inside the range with no read inside still answers true |
| `DefiniteAssignment.LaterStatementsAreIgnored` | ICSharpCode.CodeConverter/CSharp/SemanticModelExtensions.cs:25-29 | with two mentions, any block that agrees up to the second one gets the same answer, whatever statements follow |
| `DefiniteAssignment.FirstTwoOfPrefix` | ICSharpCode.CodeConverter/CSharp/SemanticModelExtensions.cs:26-27 | selection flags that agree up to past the second selected index give the same two indices |
| `DefiniteAssignment.CaseInsensitiveName` | ICSharpCode.CodeConverter/CSharp/SemanticModelExtensions.cs:21-41 | two names equal ignoring case get the same answer, both in statement selection and in the three set tests |
| `DefiniteAssignment.MentionsIgnoresCase` | ICSharpCode.CodeConverter/CSharp/SemanticModelExtensions.cs:26 | a statement mentions a name if and only if it mentions every name equal to it ignoring case |
| `DefiniteAssignment.NamedIgnoresCase` | ICSharpCode.CodeConverter/CSharp/SemanticModelExtensions.cs:38-40 | a symbol set contains a name if and only if it contains every name equal to it ignoring case |
| `TypeSyntaxMapping.GetCsTypeSyntax` | ICSharpCode.CodeConverter/CSharp/SemanticModelExtensions.cs:44-55 | the result is as many nullable markers as the type has Nullable layers, around the keyword of the innermost type when the table has one, else around its parsed minimal display name |
| `TypeSyntaxMapping.NullableLayersPreserved` | ICSharpCode.CodeConverter/CSharp/SemanticModelExtensions.cs:46 | the syntax carries exactly as many nullable markers as the symbol has Nullable layers; it is nullable if and only if the type is |
| `TypeSyntaxMapping.NullableOfMapsToNullableType` | ICSharpCode.CodeConverter/CSharp/SemanticModelExtensions.cs:46 | k Nullable layers around a type give k nullable markers around that type's syntax |
| `TypeSyntaxMapping.PredefinedIgnoresDisplayName` | ICSharpCode.CodeConverter/CSharp/SemanticModelExtensions.cs:47-51 | a type whose innermost type has a keyword maps the same under any display-name function and position |
| `TypeSyntaxMapping.NamedTypeUsesOnlyItsDisplayName` | ICSharpCode.CodeConverter/CSharp/SemanticModelExtensions.cs:53-54 | for a type without a keyword, two display-name functions give the same syntax if and only if they agree on the innermost type |
| `StatementTestVectors.AssignmentStatement` | Tests/CSharp/StatementTests.cs:44-59 | `Dim b` / `b = 0`: the span of both statements is analysed and the answer is true (`int b;`) |
| `StatementTestVectors.WhileStatement` | Tests/CSharp/StatementTests.cs:886-916 | the third mention (the While loop) is not a candidate; the answer is true (`int b;`) |
| `StatementTestVectors.IfStatement` | Tests/CSharp/StatementTests.cs:812-844 | a multi-line If with ElseIf/Else as second mention: only its condition is analysed; the answer is true (`int b;`) |
| `StatementTestVectors.WithBlockValue` | Tests/CSharp/StatementTests.cs:387-419 | `With Str` matches `str` ignoring case and is the second candidate; the answer is false (`= default(SomeStruct)`) |
| `StatementTestVectors.UntilStatement` | Tests/CSharp/StatementTests.cs:919-941 | a Do loop writing then reading `charIndex` gives false (`= default(int)`) |
| `StatementTestVectors.ForWithSingleStatement` | Tests/CSharp/StatementTests.cs:1122-1142 | both declarators of `Dim b, s` are read in the For loop and get false (`= default(int[])`) |
| `StatementTestVectors.DeclaredTypes` | ICSharpCode.CodeConverter/CSharp/SemanticModelExtensions.cs:44-55 | `Integer` maps to `int` (StatementTests.cs:48/55), `String` to `string` (:118/125), a structure (:392/407) and an array type (:212/218) through their display names; `Integer?` to `int?` as an illustration of the nullable case |

## Left out

- Roslyn's data-flow analysis (`AnalyzeDataFlow`) is a function parameter. The model proves properties relative to whatever it reports. It does not state soundness against C#'s definite-assignment rules.
- Syntax navigation (`GetAncestor`, `DescendantTokens`, `IsKind`) is reduced to a block of statements, each with its token list and a multi-line-If flag. The null result of `GetAncestor` for a declarator outside a method block is not modelled: the caller passes the block.
- `OrdinalIgnoreCase` is modelled for ASCII letters only. Unicode case mapping is not modelled.
- `SyntaxFactory.NullableType`, `PredefinedType`, `ParseTypeName`, `GetPredefinedKeywordKind` and `ToMinimalCSharpDisplayString` are library calls: constructors of `TypeSyntax`, a keyword-table parameter and a display-name parameter. `ParseTypeName` keeps the display string as it is.
- `IsNullable` and `GetNullableUnderlyingType` are read off the `NullableOf` constructor.
- The rest of `Tests/CSharp/StatementTests.cs` (loop, resize, With, Select Case and interop lowering) exercises converter code that is not part of this model.
