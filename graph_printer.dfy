/**
 * `RubyProf::GraphPrinter`: walks a profile result and appends the graph
 * report to its output, one thread, one method and one edge row at a time.
 * Every method is proved to append exactly the text the `GraphReport`
 * functions describe.
 */
module RubyProf {
  import opened Formatting
  import opened ProfileModel
  import opened Ordering
  import opened GraphReport

  class GraphPrinter {
    const result: ProfileResult
    var minPercent: int
    var output: string

    /** A printer for `result` that shows methods whose %total is at least `minPercent` hundredths of a percent. */
    constructor (result: ProfileResult, minPercent: int := 0)
      ensures this.result == result && this.minPercent == minPercent && output == []
    {
      this.result := result;
      this.minPercent := minPercent;
      output := [];
    }

    /**
     * Writes the report to `out`. The minimum given here replaces the one given
     * to the constructor. `ok` is false when a thread has no methods: the
     * printer then stops after the threads before it.
     */
    method Print(out: string, minPercent: int := 0) returns (ok: bool)
      requires WellFormed(result)
      modifies this
      ensures this.minPercent == minPercent
      ensures output == out + Render(result, minPercent).text
      ensures ok == !Render(result, minPercent).failed
    {
      output := out;
      this.minPercent := minPercent;
      ok := PrintThreads();
    }

    method PrintThreads() returns (ok: bool)
      requires WellFormed(result)
      modifies this`output
      ensures output == old(output) + Render(result, minPercent).text
      ensures ok == !Render(result, minPercent).failed
    {
      var ids := SortedIds(result.threads.Keys);
      SortedIdsKnown(result);
      var i := 0;
      assert ids[..0] == [];
      ThreadsKnownPrefix(ids, result, 0);
      while i < |ids|
        invariant 0 <= i <= |ids|
        invariant ThreadsKnown(ids[..i], result)
        invariant !RenderThreads(ids[..i], result, minPercent).failed
        invariant output == old(output) + RenderThreads(ids[..i], result, minPercent).text
      {
        ThreadsKnownPrefix(ids, result, i + 1);
        RenderStep(old(output), ids, i, result, minPercent);
        var printed := PrintMethods(ids[i], result.threads[ids[i]]);
        if !printed {
          RenderStaysFailed(ids, i + 1, result, minPercent);
          return false;
        }
        output := output + "\n\n";
        i := i + 1;
      }
      assert ids[..i] == ids;
      ok := true;
    }

    /** The heading, then the block of every method that passes the filter, largest total time first. */
    method PrintMethods(threadId: int, methods: seq<MethodInfo>) returns (ok: bool)
      requires ThreadWellFormed(methods)
      modifies this`output
      ensures ok == (methods != [])
      ensures ok ==> output == old(output) + Lines(ThreadLines(threadId, methods, minPercent))
      ensures !ok ==> output == old(output)
    {
      var sorted := SortByTotalDescending(methods);
      if |sorted| == 0 {
        // the first method is nil and asking it for its total time raises
        return false;
      }
      var toplevel := sorted[0];
      var totalTime := toplevel.totalTime;
      if totalTime == 0 {
        totalTime := 1;
      }
      assert totalTime == Denominator(sorted);
      SortedKeepsEdges(methods);

      PrintHeading(threadId);
      PrintBlocks(sorted, methods, totalTime);
      ThreadLinesText(old(output), threadId, methods, minPercent);
      ok := true;
    }

    /** The method loop: the block of every method of `sorted` that passes the filter, in order. */
    method PrintBlocks(sorted: seq<MethodInfo>, methods: seq<MethodInfo>, totalTime: int)
      requires totalTime != 0
      requires AllEdgesWithin(sorted, |methods|)
      modifies this`output
      ensures output == old(output) + Lines(MethodLines(sorted, methods, totalTime, minPercent))
    {
      assert sorted[..0] == [];
      AllEdgesPrefix(sorted, |methods|, 0);

      var i := 0;
      while i < |sorted|
        invariant 0 <= i <= |sorted|
        invariant AllEdgesWithin(sorted[..i], |methods|)
        invariant output == old(output) + Lines(MethodLines(sorted[..i], methods, totalTime, minPercent))
      {
        var m := sorted[i];
        PrintMethod(m, methods, totalTime);
        AllEdgesPrefix(sorted, |methods|, i + 1);
        MethodLinesStep(old(output), sorted, i, methods, totalTime, minPercent);
        i := i + 1;
      }
      assert sorted[..i] == sorted;
    }

    /** The body of the method loop: `m`'s block, or nothing when its %total is below the minimum. */
    method PrintMethod(m: MethodInfo, methods: seq<MethodInfo>, totalTime: int)
      requires totalTime != 0
      requires EdgesWithin(m.parents, |methods|) && EdgesWithin(m.children, |methods|)
      modifies this`output
      ensures output == old(output) + Lines(Contribution(m, methods, totalTime, minPercent))
    {
      var totalPercent := Percent(m.totalTime, totalTime);
      var selfPercent := Percent(m.selfTime, totalTime);
      if !Shown(m.totalTime, totalTime, minPercent) {
        return;
      }
      PrintBlock(m, methods, totalTime, totalPercent, selfPercent);
    }

    /** The block of a method that passes the filter. */
    method PrintBlock(m: MethodInfo, methods: seq<MethodInfo>, totalTime: int, totalPercent: Fixed2, selfPercent: Fixed2)
      requires totalTime != 0
      requires totalPercent == Percent(m.totalTime, totalTime) && selfPercent == Percent(m.selfTime, totalTime)
      requires EdgesWithin(m.parents, |methods|) && EdgesWithin(m.children, |methods|)
      modifies this`output
      ensures output == old(output) + Lines(MethodBlock(m, methods, totalTime))
    {
      output := output + CellText(Repeated('-', 80));
      WrittenOne(old(output), RuleLine());
      output := output + "\n";
      PrintParents(m, methods);
      PrintOwnRow(totalPercent, selfPercent, m);
      output := output + "\n";
      PrintChildren(m, methods);
      BlockText(old(output), m, methods, totalTime);
    }

    method PrintHeading(threadId: int)
      modifies this`output
      ensures output == old(output) + Lines([Columns(IdLine(threadId)), Columns(HeadingLine())])
    {
      PrintThreadId(threadId);
      PrintColumnHeading();
      TwoLines(old(output), Columns(IdLine(threadId)), Columns(HeadingLine()));
    }

    /** The first line of a thread: its id. */
    method PrintThreadId(threadId: int)
      modifies this`output
      ensures output == old(output) + Columns(IdLine(threadId)) + "\n"
    {
      output := output + CellText(Str("Thread ID: "));
      output := output + CellText(Int(threadId));
      WrittenTwo(old(output), IdLine(threadId));
      output := output + "\n";
    }

    /** The second line of a thread: the column labels. */
    method PrintColumnHeading()
      modifies this`output
      ensures output == old(output) + Columns(HeadingLine()) + "\n"
    {
      output := output + CellText(Padded(PercentageWidth, [Str("%total")]));
      output := output + CellText(Padded(PercentageWidth, [Str("%self")]));
      output := output + CellText(Padded(TimeWidth, [Str("total")]));
      output := output + CellText(Padded(TimeWidth, [Str("self")]));
      output := output + CellText(Padded(TimeWidth + 2, [Str("children")]));
      output := output + CellText(Padded(CallWidth - 2, [Str("calls")]));
      output := output + CellText(Str("   Name"));
      WrittenSeven(old(output), HeadingLine());
      output := output + "\n";
    }

    /** The row of a call edge, without its newline. */
    method PrintEdge(edge: CallInfo, outOf: int, name: string)
      modifies this`output
      ensures output == old(output) + Columns(EdgeLine(edge, outOf, name))
    {
      output := output + CellText(Repeated(' ', 2 * PercentageWidth));
      output := output + CellText(TimeField(edge.totalTime));
      output := output + CellText(TimeField(edge.selfTime));
      output := output + CellText(TimeField(edge.childrenTime));
      output := output + CellText(EdgeCallsField(edge.called, outOf));
      output := output + CellText(NameField(name));
      WrittenSix(old(output), EdgeLine(edge, outOf, name));
    }

    /** A method's own row, without its newline. */
    method PrintOwnRow(totalPercent: Fixed2, selfPercent: Fixed2, m: MethodInfo)
      modifies this`output
      ensures output == old(output) + Columns(OwnLine(totalPercent, selfPercent, m))
    {
      output := output + CellText(PercentField(totalPercent));
      output := output + CellText(Str("%"));
      output := output + CellText(PercentField(selfPercent));
      output := output + CellText(Str("%"));
      output := output + CellText(TimeField(m.totalTime));
      output := output + CellText(TimeField(m.selfTime));
      output := output + CellText(TimeField(m.childrenTime));
      output := output + CellText(CountField(m.called));
      output := output + CellText(NameField(m.name));
      WrittenNine(old(output), OwnLine(totalPercent, selfPercent, m));
    }

    /** One row per caller of `m`. */
    method PrintParents(m: MethodInfo, methods: seq<MethodInfo>)
      requires EdgesWithin(m.parents, |methods|)
      modifies this`output
      ensures output == old(output) + Lines(ParentLines(m.parents, m, methods))
    {
      var i := 0;
      assert m.parents[..0] == [];
      while i < |m.parents|
        invariant 0 <= i <= |m.parents|
        invariant EdgesWithin(m.parents[..i], |methods|)
        invariant output == old(output) + Lines(ParentLines(m.parents[..i], m, methods))
      {
        var caller := m.parents[i];
        ParentStep(old(output), m, methods, i);
        PrintEdge(caller, m.called, methods[caller.target].name);
        output := output + "\n";
        i := i + 1;
      }
      assert m.parents[..i] == m.parents;
    }

    /** One row per callee of `m`. */
    method PrintChildren(m: MethodInfo, methods: seq<MethodInfo>)
      requires EdgesWithin(m.children, |methods|)
      modifies this`output
      ensures output == old(output) + Lines(ChildLines(m.children, methods))
    {
      var i := 0;
      assert m.children[..0] == [];
      while i < |m.children|
        invariant 0 <= i <= |m.children|
        invariant EdgesWithin(m.children[..i], |methods|)
        invariant output == old(output) + Lines(ChildLines(m.children[..i], methods))
      {
        var child := m.children[i];
        ChildStep(old(output), m, methods, i);
        PrintEdge(child, methods[child.target].called, methods[child.target].name);
        output := output + "\n";
        i := i + 1;
      }
      assert m.children[..i] == m.children;
    }
  }

  /** Two lines, each with its newline. */
  lemma {:induction false} TwoLines(out: string, first: string, second: string)
    ensures out + first + "\n" + second + "\n" == out + Lines([first, second])
  {
    LinesAppend([first], [second]);
    LinesSingle(first);
    LinesSingle(second);
    assert [first] + [second] == [first, second];
  }

  /** Once a thread without methods has stopped the printer, later threads add nothing. */
  lemma {:induction false} RenderStaysFailed(ids: seq<int>, k: nat, result: ProfileResult, minPercent: int)
    requires WellFormed(result)
    requires ThreadsKnown(ids, result)
    requires k <= |ids|
    requires RenderThreads(ids[..k], result, minPercent).failed
    ensures RenderThreads(ids, result, minPercent) == RenderThreads(ids[..k], result, minPercent)
    decreases |ids| - k
  {
    if k < |ids| {
      assert ids[..k + 1][..k] == ids[..k];
      RenderStaysFailed(ids, k + 1, result, minPercent);
    } else {
      assert ids[..k] == ids;
    }
  }

  /** One step of the caller loop: the rows so far, then the next caller's row and newline. */
  lemma {:induction false} ParentStep(out: string, m: MethodInfo, methods: seq<MethodInfo>, i: nat)
    requires EdgesWithin(m.parents, |methods|) && i < |m.parents|
    ensures EdgesWithin(m.parents[..i], |methods|) && EdgesWithin(m.parents[..i + 1], |methods|)
    ensures m.parents[i].target < |methods|
    ensures out + Lines(ParentLines(m.parents[..i], m, methods)) + ParentLine(m.parents[i], m, methods) + "\n"
         == out + Lines(ParentLines(m.parents[..i + 1], m, methods))
  {
    EdgesPrefix(m.parents, |methods|, i);
    EdgesPrefix(m.parents, |methods|, i + 1);
    ParentLinesSnoc(m.parents, m, methods, i);
    AppendLine(out, ParentLines(m.parents[..i], m, methods), ParentLine(m.parents[i], m, methods));
  }

  /** One step of the callee loop: the rows so far, then the next callee's row and newline. */
  lemma {:induction false} ChildStep(out: string, m: MethodInfo, methods: seq<MethodInfo>, i: nat)
    requires EdgesWithin(m.children, |methods|) && i < |m.children|
    ensures EdgesWithin(m.children[..i], |methods|) && EdgesWithin(m.children[..i + 1], |methods|)
    ensures m.children[i].target < |methods|
    ensures out + Lines(ChildLines(m.children[..i], methods)) + ChildLine(m.children[i], methods) + "\n"
         == out + Lines(ChildLines(m.children[..i + 1], methods))
  {
    EdgesPrefix(m.children, |methods|, i);
    EdgesPrefix(m.children, |methods|, i + 1);
    ChildLinesSnoc(m.children, methods, i);
    AppendLine(out, ChildLines(m.children[..i], methods), ChildLine(m.children[i], methods));
  }

  /** The text of a method block: the rule line, the caller rows, the own row and the callee rows. */
  lemma {:induction false} BlockText(out: string, m: MethodInfo, methods: seq<MethodInfo>, denominator: int)
    requires denominator != 0
    requires EdgesWithin(m.parents, |methods|) && EdgesWithin(m.children, |methods|)
    ensures out + Columns(RuleLine()) + "\n" + Lines(ParentLines(m.parents, m, methods))
          + MethodLine(m, denominator) + "\n"
          + Lines(ChildLines(m.children, methods))
         == out + Lines(MethodBlock(m, methods, denominator))
  {
    FramedLines(out, Columns(RuleLine()), ParentLines(m.parents, m, methods), MethodLine(m, denominator), ChildLines(m.children, methods));
  }
}
