/**
 * The shape of the method blocks: a printed method's block is the rule, one
 * row per caller, its own row and one row per callee, in that order; the rule
 * is the only separator line, so a thread's text has exactly one separator
 * per method that passes the filter.
 */
module BlockProperties {
  import opened Formatting
  import opened ProfileModel
  import opened Ordering
  import opened GraphReport
  import opened FilterProperties
  import opened RowProperties

  /** A separator line: exactly 80 dashes. */
  predicate IsRule(line: string) {
    |line| == 80 && forall i :: 0 <= i < 80 ==> line[i] == '-'
  }

  /** The line that opens a block is a separator. */
  lemma {:induction false} RuleLineIsRule()
    ensures IsRule(Columns(RuleLine()))
  {
    assert RuleLine()[..0] == [];
    ColumnsSnoc(RuleLine(), 0);
    assert RuleLine()[..1] == RuleLine();
    RepeatElements('-', 80);
  }

  /** The number of separator lines among `ls`. */
  function RuleCount(ls: seq<string>): nat {
    if ls == [] then 0
    else RuleCount(ls[..|ls| - 1]) + (if IsRule(ls[|ls| - 1]) then 1 else 0)
  }

  lemma {:induction false} RuleCountAppend(a: seq<string>, b: seq<string>)
    ensures RuleCount(a + b) == RuleCount(a) + RuleCount(b)
    decreases |b|
  {
    if b == [] {
      assert a + b == a;
    } else {
      assert (a + b)[..|a + b| - 1] == a + b[..|b| - 1];
      RuleCountAppend(a, b[..|b| - 1]);
    }
  }

  /** An edge row starts with a blank, so it is never a separator. */
  lemma {:induction false} EdgeRowNotRule(edge: CallInfo, outOf: int, name: string)
    ensures !IsRule(Columns(EdgeLine(edge, outOf, name)))
  {
    var l := EdgeLine(edge, outOf, name);
    Columns6(l);
    BlankColumns();
    SpacesAreBlank(2 * PercentageWidth);
    assert Columns(l)[0] == Spaces(2 * PercentageWidth)[0] == ' ';
  }

  /** The fields written first are the start of the line. */
  lemma {:induction false} ColumnsPrefix(cells: seq<Cell>, k: nat)
    requires k <= |cells|
    ensures Columns(cells[..k]) <= Columns(cells)
    decreases |cells| - k
  {
    if k < |cells| {
      ColumnsSnoc(cells, k);
      ColumnsPrefix(cells, k + 1);
      assert cells[..|cells|] == cells;
    } else {
      assert cells[..k] == cells;
    }
  }

  /** A method's own row has a `%` right after its first column, where a separator has a dash. */
  lemma {:induction false} OwnRowNotRule(m: MethodInfo, denominator: int)
    requires denominator != 0
    ensures !IsRule(MethodLine(m, denominator))
  {
    var l := OwnLine(Percent(m.totalTime, denominator), Percent(m.selfTime, denominator), m);
    assert l[..0] == [];
    ColumnsSnoc(l, 0);
    ColumnsSnoc(l, 1);
    ColumnsPrefix(l, 2);
    var first := Columns(l[..2]);
    assert first == CellText(l[0]) + "%";
    var row := Columns(l);
    assert row[|first| - 1] == first[|first| - 1] == '%';
  }

  lemma {:induction false} NoRuleInParentLines(callers: seq<CallInfo>, m: MethodInfo, methods: seq<MethodInfo>)
    requires EdgesWithin(callers, |methods|)
    ensures RuleCount(ParentLines(callers, m, methods)) == 0
  {
    if callers != [] {
      var k := |callers| - 1;
      var front := callers[..k];
      EdgesPrefix(callers, |methods|, k);
      var rows := ParentLines(callers, m, methods);
      assert rows[..|rows| - 1] == ParentLines(front, m, methods);
      NoRuleInParentLines(front, m, methods);
      EdgeRowNotRule(callers[k], m.called, methods[callers[k].target].name);
    }
  }

  lemma {:induction false} NoRuleInChildLines(callees: seq<CallInfo>, methods: seq<MethodInfo>)
    requires EdgesWithin(callees, |methods|)
    ensures RuleCount(ChildLines(callees, methods)) == 0
  {
    if callees != [] {
      var k := |callees| - 1;
      var front := callees[..k];
      EdgesPrefix(callees, |methods|, k);
      var rows := ChildLines(callees, methods);
      assert rows[..|rows| - 1] == ChildLines(front, methods);
      NoRuleInChildLines(front, methods);
      var target := methods[callees[k].target];
      EdgeRowNotRule(callees[k], target.called, target.name);
    }
  }

  lemma {:induction false} ParentRowsLength(callers: seq<CallInfo>, m: MethodInfo, methods: seq<MethodInfo>)
    requires EdgesWithin(callers, |methods|)
    ensures |ParentLines(callers, m, methods)| == |callers|
  {
    if callers != [] {
      EdgesPrefix(callers, |methods|, |callers| - 1);
      ParentRowsLength(callers[..|callers| - 1], m, methods);
    }
  }

  lemma {:induction false} ChildRowsLength(callees: seq<CallInfo>, methods: seq<MethodInfo>)
    requires EdgesWithin(callees, |methods|)
    ensures |ChildLines(callees, methods)| == |callees|
  {
    if callees != [] {
      EdgesPrefix(callees, |methods|, |callees| - 1);
      ChildRowsLength(callees[..|callees| - 1], methods);
    }
  }

  /** The i-th caller row is the row of the i-th caller. */
  lemma {:induction false} ParentRowAt(callers: seq<CallInfo>, m: MethodInfo, methods: seq<MethodInfo>, i: nat)
    requires EdgesWithin(callers, |methods|) && i < |callers|
    ensures |ParentLines(callers, m, methods)| == |callers|
    ensures ParentLines(callers, m, methods)[i] == ParentLine(callers[i], m, methods)
  {
    var k := |callers| - 1;
    var front := callers[..k];
    EdgesPrefix(callers, |methods|, k);
    ParentRowsLength(front, m, methods);
    var rows := ParentLines(callers, m, methods);
    assert rows == ParentLines(front, m, methods) + [ParentLine(callers[k], m, methods)];
    if i < k {
      ParentRowAt(front, m, methods, i);
      assert rows[i] == ParentLines(front, m, methods)[i];
      assert callers[i] == front[i];
    }
  }

  /** The j-th callee row is the row of the j-th callee. */
  lemma {:induction false} ChildRowAt(callees: seq<CallInfo>, methods: seq<MethodInfo>, j: nat)
    requires EdgesWithin(callees, |methods|) && j < |callees|
    ensures |ChildLines(callees, methods)| == |callees|
    ensures ChildLines(callees, methods)[j] == ChildLine(callees[j], methods)
  {
    var k := |callees| - 1;
    var front := callees[..k];
    EdgesPrefix(callees, |methods|, k);
    ChildRowsLength(front, methods);
    var rows := ChildLines(callees, methods);
    assert rows == ChildLines(front, methods) + [ChildLine(callees[k], methods)];
    if j < k {
      ChildRowAt(front, methods, j);
      assert rows[j] == ChildLines(front, methods)[j];
      assert callees[j] == front[j];
    }
  }

  /** A printed method's caller rows follow the rule, one per caller, in the caller list's order. */
  lemma {:induction false} BlockParents(m: MethodInfo, methods: seq<MethodInfo>, denominator: int)
    requires denominator != 0
    requires EdgesWithin(m.parents, |methods|) && EdgesWithin(m.children, |methods|)
    ensures var block := MethodBlock(m, methods, denominator);
      |block| > |m.parents| &&
      forall i :: 0 <= i < |m.parents| ==> block[1 + i] == ParentLine(m.parents[i], m, methods)
  {
    var parents := ParentLines(m.parents, m, methods);
    var children := ChildLines(m.children, methods);
    var block := MethodBlock(m, methods, denominator);
    ParentRowsLength(m.parents, m, methods);
    forall i | 0 <= i < |m.parents| ensures block[1 + i] == ParentLine(m.parents[i], m, methods) {
      ParentRowAt(m.parents, m, methods, i);
    }
  }

  /** A printed method's callee rows follow its own row, one per callee, in the callee list's order. */
  lemma {:induction false} BlockChildren(m: MethodInfo, methods: seq<MethodInfo>, denominator: int)
    requires denominator != 0
    requires EdgesWithin(m.parents, |methods|) && EdgesWithin(m.children, |methods|)
    ensures var block := MethodBlock(m, methods, denominator);
      |block| == 2 + |m.parents| + |m.children| &&
      forall j :: 0 <= j < |m.children| ==> block[2 + |m.parents| + j] == ChildLine(m.children[j], methods)
  {
    var parents := ParentLines(m.parents, m, methods);
    var children := ChildLines(m.children, methods);
    var block := MethodBlock(m, methods, denominator);
    ParentRowsLength(m.parents, m, methods);
    ChildRowsLength(m.children, methods);
    forall j | 0 <= j < |m.children| ensures block[2 + |m.parents| + j] == ChildLine(m.children[j], methods) {
      ChildRowAt(m.children, methods, j);
    }
  }

  /** A printed method's block opens with the rule and has its own row after its callers. */
  lemma {:induction false} BlockFrame(m: MethodInfo, methods: seq<MethodInfo>, denominator: int)
    requires denominator != 0
    requires EdgesWithin(m.parents, |methods|) && EdgesWithin(m.children, |methods|)
    ensures var block := MethodBlock(m, methods, denominator);
      |block| == 2 + |m.parents| + |m.children| && block[0] == Columns(RuleLine()) && block[1 + |m.parents|] == MethodLine(m, denominator)
  {
    ParentRowsLength(m.parents, m, methods);
    ChildRowsLength(m.children, methods);
  }

  /**
   * A printed method's block: the rule, one row per caller in the caller
   * list's order, the method's own row, and one row per callee in the
   * callee list's order, and nothing else.
   */
  lemma {:induction false} BlockShape(m: MethodInfo, methods: seq<MethodInfo>, denominator: int)
    requires denominator != 0
    requires EdgesWithin(m.parents, |methods|) && EdgesWithin(m.children, |methods|)
    ensures var block := MethodBlock(m, methods, denominator);
      |block| == 1 + |m.parents| + 1 + |m.children| &&
      block[0] == Columns(RuleLine()) &&
      (forall i :: 0 <= i < |m.parents| ==> block[1 + i] == ParentLine(m.parents[i], m, methods)) &&
      block[1 + |m.parents|] == MethodLine(m, denominator) &&
      (forall j :: 0 <= j < |m.children| ==> block[2 + |m.parents| + j] == ChildLine(m.children[j], methods))
  {
    BlockFrame(m, methods, denominator);
    BlockParents(m, methods, denominator);
    BlockChildren(m, methods, denominator);
  }

  /** The rule is the only separator line of a block. */
  lemma {:induction false} BlockRuleCount(m: MethodInfo, methods: seq<MethodInfo>, denominator: int)
    requires denominator != 0
    requires EdgesWithin(m.parents, |methods|) && EdgesWithin(m.children, |methods|)
    ensures RuleCount(MethodBlock(m, methods, denominator)) == 1
  {
    var parents := ParentLines(m.parents, m, methods);
    var own := MethodLine(m, denominator);
    NoRuleInParentLines(m.parents, m, methods);
    NoRuleInChildLines(m.children, methods);
    OwnRowNotRule(m, denominator);
    RuleCountAppend([Columns(RuleLine())] + parents + [own], ChildLines(m.children, methods));
    RuleCountAppend([Columns(RuleLine())] + parents, [own]);
    RuleCountAppend([Columns(RuleLine())], parents);
    assert [Columns(RuleLine())][..0] == [];
    assert [own][..0] == [];
  }

  // Text that starts with a line and its newline. Kept as a lemma of its own
  // because `BlockStartsWithRule` cannot regroup the sequences alongside the
  // definitions of the block's rows.
  lemma {:induction false} LineFirst(first: string, rest: string, a: string, b: string, c: string, d: string)
    requires rest == a + b + c + d
    ensures "" + first + "\n" + a + b + c + d == (first + "\n") + rest
  {
  }

  /** Every printed block begins with exactly 80 dashes and a newline. */
  lemma {:induction false} BlockStartsWithRule(m: MethodInfo, methods: seq<MethodInfo>, denominator: int)
    requires denominator != 0
    requires EdgesWithin(m.parents, |methods|) && EdgesWithin(m.children, |methods|)
    ensures var text := Lines(MethodBlock(m, methods, denominator));
      |text| >= 81 && (forall i :: 0 <= i < 80 ==> text[i] == '-') && text[80] == '\n'
  {
    var parents := ParentLines(m.parents, m, methods);
    var children := ChildLines(m.children, methods);
    var own := MethodLine(m, denominator);
    FramedLines("", Columns(RuleLine()), parents, own, children);
    var rest := Lines(parents) + own + "\n" + Lines(children);
    LineFirst(Columns(RuleLine()), rest, Lines(parents), own, "\n", Lines(children));
    var text := Lines(MethodBlock(m, methods, denominator));
    assert text == (Columns(RuleLine()) + "\n") + rest;
    assert text[..81] == Columns(RuleLine()) + "\n";
    RuleLineIsRule();
    assert forall i :: 0 <= i < 80 ==> text[i] == text[..81][i];
  }

  /** The blocks of the methods `ms`, one after the other, in that order. */
  function BlocksOf(ms: seq<MethodInfo>, methods: seq<MethodInfo>, denominator: int): seq<string>
    requires denominator != 0
    requires AllEdgesWithin(ms, |methods|)
  {
    if ms == [] then []
    else BlocksOf(ms[..|ms| - 1], methods, denominator) + MethodBlock(ms[|ms| - 1], methods, denominator)
  }

  /**
   * The lines of the method loop are exactly the blocks of the methods that
   * pass the filter, in sorted order: a skipped method leaves no trace.
   */
  lemma {:induction false} MethodLinesAreShownBlocks(sorted: seq<MethodInfo>, methods: seq<MethodInfo>,
                                                     denominator: int, minPercent: int)
    requires denominator != 0
    requires AllEdgesWithin(sorted, |methods|)
    ensures AllEdgesWithin(ShownMethods(sorted, denominator, minPercent), |methods|)
    ensures MethodLines(sorted, methods, denominator, minPercent)
         == BlocksOf(ShownMethods(sorted, denominator, minPercent), methods, denominator)
  {
    if sorted != [] {
      var k := |sorted| - 1;
      var front := sorted[..k];
      var m := sorted[k];
      AllEdgesPrefix(sorted, |methods|, k);
      MethodLinesAreShownBlocks(front, methods, denominator, minPercent);
      var shown := ShownMethods(front, denominator, minPercent);
      if Shown(m.totalTime, denominator, minPercent) {
        var all := shown + [m];
        assert forall i :: 0 <= i < |all| ==> all[i] == if i < |shown| then shown[i] else m;
        assert all[..|all| - 1] == shown;
      } else {
        assert shown + [] == shown;
      }
    }
  }

  /** The lines of the methods carry one separator per method that passes the filter. */
  lemma {:induction false} BlockCount(sorted: seq<MethodInfo>, methods: seq<MethodInfo>, denominator: int, minPercent: int)
    requires denominator != 0
    requires AllEdgesWithin(sorted, |methods|)
    ensures RuleCount(MethodLines(sorted, methods, denominator, minPercent))
         == |ShownMethods(sorted, denominator, minPercent)|
  {
    if sorted != [] {
      var k := |sorted| - 1;
      var front := sorted[..k];
      var m := sorted[k];
      AllEdgesPrefix(sorted, |methods|, k);
      BlockCount(front, methods, denominator, minPercent);
      RuleCountAppend(MethodLines(front, methods, denominator, minPercent),
                      Contribution(m, methods, denominator, minPercent));
      if Shown(m.totalTime, denominator, minPercent) {
        BlockRuleCount(m, methods, denominator);
      }
    }
  }

  /** The id line is the words `Thread ID: ` and the thread's id. */
  lemma {:induction false} IdLineText(id: int)
    ensures Columns(IdLine(id)) == "Thread ID: " + IntToString(id)
  {
    var l := IdLine(id);
    assert l[..0] == [];
    ColumnsSnoc(l, 0);
    ColumnsSnoc(l, 1);
    assert l[..2] == l;
  }

  /** A label right-justified to a column wider than it: the missing blanks, then the label. */
  lemma {:induction false} PaddedLabel(width: nat, name: string, padding: string)
    requires |name| < width && |padding| == width - |name|
    requires forall i :: 0 <= i < |padding| ==> padding[i] == ' '
    ensures CellText(Padded(width, [Str(name)])) == padding + name
  {
    PaddedText(width, Str(name));
    RightJustifyPads(name, width);
    assert Spaces(width - |name|) == padding;
  }

  /** The first three columns of the heading. */
  lemma {:induction false} HeadingStart()
    ensures Columns(HeadingLine()[..3]) == "  %total   %self     total"
  {
    var l := HeadingLine();
    PaddedLabel(8, "%total", "  ");
    PaddedLabel(8, "%self", "   ");
    PaddedLabel(10, "total", "     ");
    assert l[..0] == [];
    ColumnsSnoc(l, 0);
    assert Columns(l[..1]) == "  %total";
    ColumnsSnoc(l, 1);
    assert Columns(l[..2]) == "  %total   %self";
    ColumnsSnoc(l, 2);
  }

  /** The first five columns of the heading. */
  lemma {:induction false} HeadingMiddle()
    ensures Columns(HeadingLine()[..5]) == "  %total   %self     total      self    children"
  {
    var l := HeadingLine();
    HeadingStart();
    PaddedLabel(10, "self", "      ");
    PaddedLabel(12, "children", "    ");
    ColumnsSnoc(l, 3);
    assert Columns(l[..4]) == "  %total   %self     total      self";
    ColumnsSnoc(l, 4);
  }

  /** The column heading: each label right-justified to its column's width. */
  lemma {:induction false} HeadingText()
    ensures Columns(HeadingLine())
         == "  %total   %self     total      self    children             calls   Name"
  {
    var l := HeadingLine();
    HeadingMiddle();
    PaddedLabel(18, "calls", "             ");
    ColumnsSnoc(l, 5);
    assert Columns(l[..6]) == "  %total   %self     total      self    children             calls";
    ColumnsSnoc(l, 6);
    assert l[..7] == l;
  }

  /** Neither the id line nor the column heading is a separator. */
  lemma {:induction false} HeadingHasNoRule(id: int)
    ensures RuleCount([Columns(IdLine(id)), Columns(HeadingLine())]) == 0
  {
    var idLine := Columns(IdLine(id));
    var heading := [idLine, Columns(HeadingLine())];
    IdLineText(id);
    assert idLine[0] == 'T';
    HeadingText();
    assert heading[..1] == [idLine] && [idLine][..0] == [];
    assert RuleCount([idLine]) == 0;
  }

  /** A thread's text has one block per method that passes the filter. */
  lemma {:induction false} ThreadBlockCount(id: int, methods: seq<MethodInfo>, minPercent: int)
    requires methods != [] && ThreadWellFormed(methods)
    ensures var sorted := SortByTotalDescending(methods);
      RuleCount(ThreadLines(id, methods, minPercent))
      == |ShownMethods(sorted, Denominator(sorted), minPercent)|
  {
    var sorted := SortByTotalDescending(methods);
    SortedKeepsEdges(methods);
    var d := Denominator(sorted);
    BlockCount(sorted, methods, d, minPercent);
    HeadingHasNoRule(id);
    RuleCountAppend([Columns(IdLine(id)), Columns(HeadingLine())], MethodLines(sorted, methods, d, minPercent));
  }

  /** Raising the minimum %total never adds a block to a thread's text. */
  lemma {:induction false} RaisingMinimumNeverAddsBlocks(id: int, methods: seq<MethodInfo>, low: int, high: int)
    requires methods != [] && ThreadWellFormed(methods)
    requires low <= high
    ensures RuleCount(ThreadLines(id, methods, high)) <= RuleCount(ThreadLines(id, methods, low))
  {
    var sorted := SortByTotalDescending(methods);
    ThreadBlockCount(id, methods, high);
    ThreadBlockCount(id, methods, low);
    RaisingMinimumShrinks(sorted, Denominator(sorted), low, high);
  }

  /** A thread's text starts with its id line and the column heading. */
  lemma {:induction false} ThreadTextStart(id: int, methods: seq<MethodInfo>, minPercent: int)
    requires methods != [] && ThreadWellFormed(methods)
    ensures var head := "Thread ID: " + IntToString(id) + "\n"
                      + "  %total   %self     total      self    children             calls   Name\n";
      var text := Lines(ThreadLines(id, methods, minPercent));
      |head| <= |text| && text[..|head|] == head
  {
    var sorted := SortByTotalDescending(methods);
    SortedKeepsEdges(methods);
    var body := Lines(MethodLines(sorted, methods, Denominator(sorted), minPercent));
    ThreadLinesText("", id, methods, minPercent);
    IdLineText(id);
    HeadingText();
    var idLine := Columns(IdLine(id));
    var heading := Columns(HeadingLine());
    LinesAppend([idLine], [heading]);
    LinesSingle(idLine);
    LinesSingle(heading);
    assert [idLine] + [heading] == [idLine, heading];
    var head := "Thread ID: " + IntToString(id) + "\n"
              + "  %total   %self     total      self    children             calls   Name\n";
    assert Lines([idLine, heading]) == head;
    var text := Lines(ThreadLines(id, methods, minPercent));
    assert "" + head == head;
    assert text == head + body;
  }
}
