/**
  The heuristic that decides whether a converted local declaration may be
  emitted without a default initializer (`int b;` rather than
  `int b = default(int);`).

  The method block is given as its top-level statements. Roslyn's syntax tree
  is abstracted to what the heuristic looks at: the tokens of each statement
  and whether the statement is a multi-line If block. Roslyn's data-flow
  analysis is an oracle, a function from the analysed range to the three sets
  of symbol names it reports.
 */
module DefiniteAssignment {
  import opened CaseFolding

  datatype TokenKind = IdentifierToken | OtherToken

  /** A syntax token with its value text (`[end]` has value text `end`). */
  datatype Token = Token(kind: TokenKind, valueText: string)

  /** A top-level statement of the method block with all its descendant tokens. */
  datatype Statement =
    | MultiLineIfBlock(tokens: seq<Token>)
    | OtherStatement(tokens: seq<Token>)

  /** The region handed to the data-flow analysis: the condition of the If
      block at a statement index, or the statements from `first` to `last`
      inclusive. */
  datatype AnalysisRange =
    | IfCondition(ifBlock: nat)
    | StatementSpan(first: nat, last: nat)

  /** The three symbol sets of a data-flow analysis, by symbol name. */
  datatype DataFlow = DataFlow(alwaysAssigned: set<string>, readInside: set<string>, writtenInside: set<string>)

  /** `First()` on an empty sequence: no top-level statement contains the name. */
  datatype Error = NoStatementMentionsName

  datatype Result<T> = Success(value: T) | Failure(error: Error)

  /** Some identifier token of the statement is the name, ignoring case. */
  predicate Mentions(s: Statement, name: string)
  {
    exists k :: 0 <= k < |s.tokens| && s.tokens[k].kind == IdentifierToken && EqualsIgnoreCase(s.tokens[k].valueText, name)
  }

  /** Some symbol of the set has the name, ignoring case. */
  predicate Named(symbols: set<string>, name: string)
  {
    exists s :: s in symbols && EqualsIgnoreCase(s, name)
  }

  /** For each top-level statement, in document order, whether it mentions the name. */
  function MentionFlags(block: seq<Statement>, name: string): (flags: seq<bool>)
    ensures |flags| == |block|
    ensures forall i :: 0 <= i < |block| ==> flags[i] == Mentions(block[i], name)
  {
    seq(|block|, i requires 0 <= i < |block| => Mentions(block[i], name))
  }

  /** The index of the first statement at or after `from` whose flag is set,
      or `|flags|` when there is none: the lazy `Where` filter advancing to
      its next element. */
  function NextSelected(flags: seq<bool>, from: nat): (n: nat)
    requires from <= |flags|
    ensures from <= n <= |flags|
    ensures n < |flags| ==> flags[n]
    ensures forall i :: from <= i < n ==> !flags[i]
    decreases |flags| - from
  {
    if from == |flags| || flags[from] then from else NextSelected(flags, from + 1)
  }

  /** `Take(2)` of the filter: the first set flag and the next one after it. */
  function FirstTwo(flags: seq<bool>): (c: seq<nat>)
    ensures |c| <= 2
    ensures |c| == 0 <==> forall i :: 0 <= i < |flags| ==> !flags[i]
    ensures |c| > 0 ==> c[0] < |flags| && flags[c[0]] && forall i :: 0 <= i < c[0] ==> !flags[i]
    ensures |c| == 2 ==> c[0] < c[1] < |flags| && flags[c[1]] && forall i :: c[0] < i < c[1] ==> !flags[i]
    ensures |c| == 1 ==> forall i :: c[0] < i < |flags| ==> !flags[i]
  {
    var first := NextSelected(flags, 0);
    if first == |flags| then []
    else
      var second := NextSelected(flags, first + 1);
      if second == |flags| then [first] else [first, second]
  }

  /** `Where(...).Take(2)`: the indices of the first two statements that
      mention the name, in document order. With one mention there is one
      index, with none there is none. */
  function Candidates(block: seq<Statement>, name: string): (c: seq<nat>)
    ensures |c| <= 2
    ensures |c| == 0 <==> forall i :: 0 <= i < |block| ==> !Mentions(block[i], name)
    ensures |c| > 0 ==> c[0] < |block| && Mentions(block[c[0]], name) && forall i :: 0 <= i < c[0] ==> !Mentions(block[i], name)
    ensures |c| == 2 ==> c[0] < c[1] < |block| && Mentions(block[c[1]], name)
                         && forall i :: c[0] < i < c[1] ==> !Mentions(block[i], name)
    ensures |c| == 1 ==> forall i :: c[0] < i < |block| ==> !Mentions(block[i], name)
  {
    FirstTwo(MentionFlags(block, name))
  }

  /** The range analysed for the first and second candidate: the condition
      alone when the second is a multi-line If block, else the statements
      from the first through the second. */
  function RangeFor(block: seq<Statement>, first: nat, second: nat): (range: AnalysisRange)
    requires first <= second < |block|
    ensures range.IfCondition? <==> block[second].MultiLineIfBlock?
    ensures range.IfCondition? ==> range.ifBlock == second
    ensures range.StatementSpan? ==> range.first == first && range.last == second
  {
    if block[second].MultiLineIfBlock? then IfCondition(second) else StatementSpan(first, second)
  }

  /** The verdict on one data-flow result: assigned on every path and not
      written again inside, or not read inside at all. */
  predicate Verdict(flow: DataFlow, name: string)
  {
    (Named(flow.alwaysAssigned, name) && !Named(flow.writtenInside, name)) || !Named(flow.readInside, name)
  }

  /** The range the heuristic analyses, when some statement mentions the name. */
  function AnalysedRange(block: seq<Statement>, name: string): (range: Result<AnalysisRange>)
    ensures range.Failure? <==> forall i :: 0 <= i < |block| ==> !Mentions(block[i], name)
  {
    var c := Candidates(block, name);
    if |c| == 0 then Failure(NoStatementMentionsName)
    else Success(RangeFor(block, c[0], c[|c| - 1]))
  }

  /** True lets the caller leave out the default initializer of `name`;
      a failure is the exception `First()` throws. */
  function IsDefinitelyAssignedBeforeRead(block: seq<Statement>, name: string, analyzeDataFlow: AnalysisRange -> DataFlow): (r: Result<bool>)
    ensures r.Failure? <==> forall i :: 0 <= i < |block| ==> !Mentions(block[i], name)
  {
    match AnalysedRange(block, name)
    case Failure(e) => Failure(e)
    case Success(range) => Success(Verdict(analyzeDataFlow(range), name))
  }

  // ---------------------------------------------------------------------
  // Properties of the heuristic

  /** When the name is mentioned, the range is the condition of the second
      candidate if that is a multi-line If block, and otherwise the span from
      the first candidate through the second. */
  lemma AnalysedRangeShape(block: seq<Statement>, name: string)
    requires exists i :: 0 <= i < |block| && Mentions(block[i], name)
    ensures AnalysedRange(block, name).Success?
    ensures var c := Candidates(block, name);
      var range := AnalysedRange(block, name).value;
      && |c| > 0
      && (block[c[|c| - 1]].MultiLineIfBlock? ==> range == IfCondition(c[|c| - 1]))
      && (!block[c[|c| - 1]].MultiLineIfBlock? ==> range == StatementSpan(c[0], c[|c| - 1]) && c[0] <= c[|c| - 1])
  {
  }

  /** With a single mention, first and second are the same statement: the
      range is that statement alone, or its condition if it is a multi-line
      If block. */
  lemma SingleMentionAnalysesItself(block: seq<Statement>, name: string, i: nat)
    requires i < |block| && Mentions(block[i], name)
    requires forall j :: 0 <= j < |block| && j != i ==> !Mentions(block[j], name)
    ensures AnalysedRange(block, name)
         == Success(if block[i].MultiLineIfBlock? then IfCondition(i) else StatementSpan(i, i))
  {
    assert Candidates(block, name) == [i];
  }

  /** Not read inside the range: the verdict is "assigned", whatever the
      always-assigned and written-inside sets hold. */
  lemma NotReadInsideMeansAssigned(block: seq<Statement>, name: string, analyzeDataFlow: AnalysisRange -> DataFlow)
    requires AnalysedRange(block, name).Success?
    requires !Named(analyzeDataFlow(AnalysedRange(block, name).value).readInside, name)
    ensures IsDefinitelyAssignedBeforeRead(block, name, analyzeDataFlow) == Success(true)
  {
  }

  /** Read inside and written inside the range: never "assigned". */
  lemma ReadAndWrittenInsideIsNotAssigned(block: seq<Statement>, name: string, analyzeDataFlow: AnalysisRange -> DataFlow)
    requires AnalysedRange(block, name).Success?
    requires var flow := analyzeDataFlow(AnalysedRange(block, name).value);
      Named(flow.readInside, name) && Named(flow.writtenInside, name)
    ensures IsDefinitelyAssignedBeforeRead(block, name, analyzeDataFlow) == Success(false)
  {
  }

  /** Read inside and not assigned on every path: never "assigned". */
  lemma ReadAndNotAlwaysAssignedIsNotAssigned(block: seq<Statement>, name: string, analyzeDataFlow: AnalysisRange -> DataFlow)
    requires AnalysedRange(block, name).Success?
    requires var flow := analyzeDataFlow(AnalysedRange(block, name).value);
      Named(flow.readInside, name) && !Named(flow.alwaysAssigned, name)
    ensures IsDefinitelyAssignedBeforeRead(block, name, analyzeDataFlow) == Success(false)
  {
  }

  /** The verdict is "assigned" exactly in the two cases above: not read
      inside, or always assigned and not written inside. */
  lemma AssignedExactly(block: seq<Statement>, name: string, analyzeDataFlow: AnalysisRange -> DataFlow)
    requires AnalysedRange(block, name).Success?
    ensures var flow := analyzeDataFlow(AnalysedRange(block, name).value);
      IsDefinitelyAssignedBeforeRead(block, name, analyzeDataFlow) == Success(true)
      <==> !Named(flow.readInside, name) || (Named(flow.alwaysAssigned, name) && !Named(flow.writtenInside, name))
  {
  }

  /** Writing the name inside the range does not by itself prevent the
      verdict "assigned": a write with no read inside still answers true. */
  lemma WrittenButNotReadIsAssigned(block: seq<Statement>, name: string, analyzeDataFlow: AnalysisRange -> DataFlow)
    requires AnalysedRange(block, name).Success?
    requires var flow := analyzeDataFlow(AnalysedRange(block, name).value);
      Named(flow.writtenInside, name) && !Named(flow.readInside, name)
    ensures IsDefinitelyAssignedBeforeRead(block, name, analyzeDataFlow) == Success(true)
  {
  }

  /** Statements after the second candidate play no part (`Take(2)` stops
      there): any block that agrees with this one up to the second candidate
      gets the same answer, whatever follows. */
  lemma LaterStatementsAreIgnored(block: seq<Statement>, block': seq<Statement>, name: string,
                                  analyzeDataFlow: AnalysisRange -> DataFlow)
    requires var c := Candidates(block, name);
      |c| == 2 && c[1] < |block'| && block'[..c[1] + 1] == block[..c[1] + 1]
    ensures IsDefinitelyAssignedBeforeRead(block', name, analyzeDataFlow)
         == IsDefinitelyAssignedBeforeRead(block, name, analyzeDataFlow)
  {
    var c := Candidates(block, name);
    var j := c[1] + 1;
    forall i | 0 <= i < j ensures block'[i] == block[i] {
      assert block'[i] == block'[..j][i] && block[i] == block[..j][i];
    }
    var flags, flags' := MentionFlags(block, name), MentionFlags(block', name);
    assert forall i :: 0 <= i < j ==> flags'[i] == flags[i];
    FirstTwoOfPrefix(flags, flags', j);
    assert Candidates(block', name) == c;
    assert AnalysedRange(block', name) == AnalysedRange(block, name);
  }

  /** Flags that agree below `j` have the same first two set flags when both
      of the first lie below `j`. */
  lemma FirstTwoOfPrefix(flags: seq<bool>, flags': seq<bool>, j: nat)
    requires j <= |flags| && j <= |flags'|
    requires forall i :: 0 <= i < j ==> flags'[i] == flags[i]
    requires var c := FirstTwo(flags); |c| == 2 && c[1] < j
    ensures FirstTwo(flags') == FirstTwo(flags)
  {
    var c, c' := FirstTwo(flags), FirstTwo(flags');
    assert flags'[c[0]] && flags'[c[1]];
  }

  /** Replacing the name by one that differs only in letter case changes nothing. */
  lemma CaseInsensitiveName(block: seq<Statement>, name: string, name': string,
                            analyzeDataFlow: AnalysisRange -> DataFlow)
    requires EqualsIgnoreCase(name, name')
    ensures IsDefinitelyAssignedBeforeRead(block, name, analyzeDataFlow)
         == IsDefinitelyAssignedBeforeRead(block, name', analyzeDataFlow)
  {
    var flags, flags' := MentionFlags(block, name), MentionFlags(block, name');
    forall i | 0 <= i < |block| ensures flags[i] == flags'[i] {
      MentionsIgnoresCase(block[i], name, name');
    }
    assert flags == flags';
    if AnalysedRange(block, name).Success? {
      var flow := analyzeDataFlow(AnalysedRange(block, name).value);
      NamedIgnoresCase(flow.alwaysAssigned, name, name');
      NamedIgnoresCase(flow.readInside, name, name');
      NamedIgnoresCase(flow.writtenInside, name, name');
    }
  }

  /** Whether a statement mentions a name depends on the name only up to case. */
  lemma MentionsIgnoresCase(s: Statement, name: string, name': string)
    requires EqualsIgnoreCase(name, name')
    ensures Mentions(s, name) <==> Mentions(s, name')
  {
    if Mentions(s, name) {
      var k :| 0 <= k < |s.tokens| && s.tokens[k].kind == IdentifierToken && EqualsIgnoreCase(s.tokens[k].valueText, name);
    }
    if Mentions(s, name') {
      var k :| 0 <= k < |s.tokens| && s.tokens[k].kind == IdentifierToken && EqualsIgnoreCase(s.tokens[k].valueText, name');
    }
  }

  /** Whether a symbol set holds a name depends on the name only up to case. */
  lemma NamedIgnoresCase(symbols: set<string>, name: string, name': string)
    requires EqualsIgnoreCase(name, name')
    ensures Named(symbols, name) <==> Named(symbols, name')
  {
    if Named(symbols, name) {
      var s :| s in symbols && EqualsIgnoreCase(s, name);
    }
    if Named(symbols, name') {
      var s :| s in symbols && EqualsIgnoreCase(s, name');
    }
  }

  /** Two leading statements that both mention the name are the candidates. */
  lemma TwoLeadingMentions(block: seq<Statement>, name: string)
    requires |block| >= 2 && Mentions(block[0], name) && Mentions(block[1], name)
    ensures Candidates(block, name) == [0, 1]
  {
  }
}
