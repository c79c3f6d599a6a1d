/**
 * The graph report as a value: what `RubyProf::GraphPrinter#print` writes
 * for a profile result and a minimum %total. The printer class appends
 * exactly this text; the properties of the report are proved about it.
 *
 * Every number printed with two decimals is a count of hundredths: times,
 * percentages and the minimum %total alike. A line of the report is the
 * sequence of the fields the printer writes one after the other, each an
 * interpolation or a `sprintf` conversion.
 */
module GraphReport {
  import opened Formatting
  import opened ProfileModel
  import opened Ordering

  const PercentageWidth: nat := 8
  const TimeWidth: nat := 10
  const CallWidth: nat := 20

  /**
   * The denominator of a thread's percentages: the total time of the first
   * method in sorted order, or 0.01 (one hundredth) when that is zero.
   */
  function Denominator(sorted: seq<MethodInfo>): (d: int)
    requires sorted != []
    ensures d != 0
    ensures sorted[0].totalTime != 0 ==> d == sorted[0].totalTime
  {
    if sorted[0].totalTime == 0 then 1 else sorted[0].totalTime
  }

  /** `(time / denominator) * 100`, as an exact number of percent. */
  function PercentValue(time: int, denominator: int): real
    requires denominator != 0
  {
    (time as real / denominator as real) * 100.0
  }

  /** A minimum %total given in hundredths of a percent, as a number of percent. */
  function MinPercentValue(minPercent: int): real {
    minPercent as real / 100.0
  }

  /** The filter of the method loop: a method is skipped when its %total is below the minimum. */
  predicate Shown(totalTime: int, denominator: int, minPercent: int)
    requires denominator != 0
  {
    !(PercentValue(totalTime, denominator) < MinPercentValue(minPercent))
  }

  function Abs(x: int): nat {
    if x < 0 then -x else x
  }

  /**
   * The percentage `(time / denominator) * 100` in hundredths of a percent,
   * rounded to the nearest hundredth (halves away from zero), with its sign.
   */
  function Percent(time: int, denominator: int): Fixed2
    requires denominator != 0
  {
    var n := 10000 * Abs(time);
    var m := Abs(denominator);
    Fixed2(time != 0 && ((time < 0) != (denominator < 0)), (2 * n + m) / (2 * m))
  }

  /** The sign of a percentage, and its magnitude within half a hundredth of the exact one. */
  lemma {:induction false} PercentRounding(time: int, denominator: int)
    requires denominator != 0
    ensures var p := Percent(time, denominator);
      (p.negative <==> (time < 0 && denominator > 0) || (time > 0 && denominator < 0)) &&
      2 * Abs(p.hundredths * Abs(denominator) - 10000 * Abs(time)) <= Abs(denominator)
  {
    var n := 10000 * Abs(time);
    var m := Abs(denominator);
    var q := (2 * n + m) / (2 * m);
    assert 2 * n + m == q * (2 * m) + (2 * n + m) % (2 * m);
    assert Percent(time, denominator).hundredths == q;
  }

  /**
   * A field the printer writes: text written as it is, a character repeated
   * (`c * n`), an integer (`"#{i}"`, `%i`), a two-decimal number (`%.2f`),
   * or other fields right-justified together to a width (`%<width>s`).
   */
  datatype Cell =
    | Str(s: string)
    | Repeated(c: char, n: nat)
    | Int(i: int)
    | Fixed(f: Fixed2)
    | Padded(width: nat, parts: seq<Cell>)

  function CellText(cell: Cell): string
    decreases cell
  {
    match cell
    case Str(s) => s
    case Repeated(c, n) => Repeat(c, n)
    case Int(i) => IntToString(i)
    case Fixed(f) => FormatFixed2(f)
    case Padded(width, parts) => RightJustify(Columns(parts), width)
  }

  /** Fields written one after the other. */
  function Columns(cells: seq<Cell>): string
    decreases cells
  {
    if cells == [] then "" else Columns(cells[..|cells| - 1]) + CellText(cells[|cells| - 1])
  }

  /** Nothing written yet. */
  lemma {:induction false} NoColumns(out: string, cells: seq<Cell>)
    ensures out + Columns(cells[..0]) == out
  {
    assert cells[..0] == [];
    assert out + [] == out;
  }

  /** Writing the next field of a line extends the text of the fields before it. */
  lemma {:induction false} AppendCell(out: string, cells: seq<Cell>, k: nat)
    requires k < |cells|
    ensures out + Columns(cells[..k]) + CellText(cells[k]) == out + Columns(cells[..k + 1])
  {
    assert cells[..k + 1][..k] == cells[..k];
  }

  /** Writing field `k` after text that holds the fields before it. */
  lemma {:induction false} WriteNext(out: string, l: Line, k: nat, text: string)
    requires k < |l| && text == out + Columns(l[..k])
    ensures text + CellText(l[k]) == out + Columns(l[..k + 1])
  {
    AppendCell(out, l, k);
  }

  /** A line of one field is that field. */
  lemma {:induction false} WrittenOne(out: string, l: Line)
    requires |l| == 1
    ensures out + CellText(l[0]) == out + Columns(l)
  {
    NoColumns(out, l);
    WriteNext(out, l, 0, out);
    assert l[..1] == l;
  }

  /** The two fields of a line written one after the other are the line. */
  lemma {:induction false} WrittenTwo(out: string, l: Line)
    requires |l| == 2
    ensures out + CellText(l[0]) + CellText(l[1]) == out + Columns(l)
  {
    NoColumns(out, l);
    WriteNext(out, l, 0, out);
    WriteNext(out, l, 1, out + CellText(l[0]));
    assert l[..2] == l;
  }

  /** The six fields of a line written one after the other are the line. */
  lemma {:induction false} WrittenSix(out: string, l: Line)
    requires |l| == 6
    ensures out + CellText(l[0]) + CellText(l[1]) + CellText(l[2]) + CellText(l[3]) + CellText(l[4])
              + CellText(l[5]) == out + Columns(l)
  {
    NoColumns(out, l);
    var t1 := out + CellText(l[0]);
    WriteNext(out, l, 0, out);
    var t2 := t1 + CellText(l[1]);
    WriteNext(out, l, 1, t1);
    var t3 := t2 + CellText(l[2]);
    WriteNext(out, l, 2, t2);
    var t4 := t3 + CellText(l[3]);
    WriteNext(out, l, 3, t3);
    var t5 := t4 + CellText(l[4]);
    WriteNext(out, l, 4, t4);
    WriteNext(out, l, 5, t5);
    assert l[..6] == l;
  }

  /** The seven fields of a line written one after the other are the line. */
  lemma {:induction false} WrittenSeven(out: string, l: Line)
    requires |l| == 7
    ensures out + CellText(l[0]) + CellText(l[1]) + CellText(l[2]) + CellText(l[3]) + CellText(l[4])
              + CellText(l[5]) + CellText(l[6]) == out + Columns(l)
  {
    WrittenSix(out, l[..6]);
    assert l[..6][..6] == l[..6];
    var t6 := out + Columns(l[..6]);
    assert l[..6][0] == l[0] && l[..6][1] == l[1] && l[..6][2] == l[2];
    assert l[..6][3] == l[3] && l[..6][4] == l[4] && l[..6][5] == l[5];
    WriteNext(out, l, 6, t6);
    assert l[..7] == l;
  }

  /** The nine fields of a line written one after the other are the line. */
  lemma {:induction false} WrittenNine(out: string, l: Line)
    requires |l| == 9
    ensures out + CellText(l[0]) + CellText(l[1]) + CellText(l[2]) + CellText(l[3]) + CellText(l[4])
              + CellText(l[5]) + CellText(l[6]) + CellText(l[7]) + CellText(l[8]) == out + Columns(l)
  {
    NoColumns(out, l);
    var t1 := out + CellText(l[0]);
    WriteNext(out, l, 0, out);
    var t2 := t1 + CellText(l[1]);
    WriteNext(out, l, 1, t1);
    var t3 := t2 + CellText(l[2]);
    WriteNext(out, l, 2, t2);
    var t4 := t3 + CellText(l[3]);
    WriteNext(out, l, 3, t3);
    var t5 := t4 + CellText(l[4]);
    WriteNext(out, l, 4, t4);
    var t6 := t5 + CellText(l[5]);
    WriteNext(out, l, 5, t5);
    var t7 := t6 + CellText(l[6]);
    WriteNext(out, l, 6, t6);
    var t8 := t7 + CellText(l[7]);
    WriteNext(out, l, 7, t7);
    WriteNext(out, l, 8, t8);
    assert l[..9] == l;
  }

  /** The text of a line's first `k + 1` fields is that of its first `k` and then field `k`. */
  lemma {:induction false} ColumnsSnoc(cells: seq<Cell>, k: nat)
    requires k < |cells|
    ensures Columns(cells[..k + 1]) == Columns(cells[..k]) + CellText(cells[k])
  {
    assert cells[..k + 1][..k] == cells[..k];
  }

  /** A field of one part right-justified to a width. */
  lemma {:induction false} PaddedText(width: nat, part: Cell)
    ensures CellText(Padded(width, [part])) == RightJustify(CellText(part), width)
  {
    assert [part][..0] == [];
    assert Columns([part]) == Columns([]) + CellText(part);
    assert Columns([]) + CellText(part) == CellText(part);
  }

  /** `%10.2f` of a time. */
  function TimeField(time: int): Cell {
    Padded(TimeWidth, [Fixed(FromHundredths(time))])
  }

  /** `%7.2f` of a percentage; the printer writes a `%` after it. */
  function PercentField(p: Fixed2): Cell {
    Padded(PercentageWidth - 1, [Fixed(p)])
  }

  /** `%20s` of `"#{called}/#{outOf}"`. */
  function EdgeCallsField(called: int, outOf: int): Cell {
    Padded(CallWidth, [Int(called), Str("/"), Int(outOf)])
  }

  /** `%20i` of a call count. */
  function CountField(called: int): Cell {
    Padded(CallWidth, [Int(called)])
  }

  /** `"     %s"` of a name. */
  function NameField(name: string): Cell {
    Str("     " + name)
  }

  /** A line of the report, without its newline: its fields in order. */
  type Line = seq<Cell>

  /** The separator that opens every method block: `'-' * 80`. */
  function RuleLine(): Line {
    [Repeated('-', 80)]
  }

  /** `"Thread ID: #{thread_id}"`. */
  function IdLine(id: int): Line {
    [Str("Thread ID: "), Int(id)]
  }

  /** The column heading: the labels right-justified to 8, 8, 10, 10, 12 and 18, then the name label. */
  function HeadingLine(): Line {
    [Padded(PercentageWidth, [Str("%total")]), Padded(PercentageWidth, [Str("%self")]),
     Padded(TimeWidth, [Str("total")]), Padded(TimeWidth, [Str("self")]),
     Padded(TimeWidth + 2, [Str("children")]), Padded(CallWidth - 2, [Str("calls")]), Str("   Name")]
  }

  /**
   * The row of a call edge: blank percentage columns, the edge's three times,
   * its count over `outOf` and the name of the method at its other end.
   */
  function EdgeLine(edge: CallInfo, outOf: int, name: string): Line {
    [Repeated(' ', 2 * PercentageWidth),
     TimeField(edge.totalTime), TimeField(edge.selfTime), TimeField(edge.childrenTime),
     EdgeCallsField(edge.called, outOf), NameField(name)]
  }

  /** The row of a method with its two percentages. */
  function OwnLine(totalPercent: Fixed2, selfPercent: Fixed2, m: MethodInfo): Line {
    [PercentField(totalPercent), Str("%"), PercentField(selfPercent), Str("%"),
     TimeField(m.totalTime), TimeField(m.selfTime), TimeField(m.childrenTime),
     CountField(m.called), NameField(m.name)]
  }

  /** A caller's row: its count is shown over the current method's own count. */
  function ParentLine(caller: CallInfo, m: MethodInfo, methods: seq<MethodInfo>): string
    requires caller.target < |methods|
  {
    Columns(EdgeLine(caller, m.called, methods[caller.target].name))
  }

  /** A callee's row: its count is shown over the callee's own count. */
  function ChildLine(child: CallInfo, methods: seq<MethodInfo>): string
    requires child.target < |methods|
  {
    Columns(EdgeLine(child, methods[child.target].called, methods[child.target].name))
  }

  /** One row per caller, in the order of the method's caller list. */
  function ParentLines(callers: seq<CallInfo>, m: MethodInfo, methods: seq<MethodInfo>): seq<string>
    requires EdgesWithin(callers, |methods|)
  {
    if callers == [] then []
    else
      var front := callers[..|callers| - 1];
      ParentLines(front, m, methods) + [ParentLine(callers[|callers| - 1], m, methods)]
  }

  /** One row per callee, in the order of the method's callee list. */
  function ChildLines(callees: seq<CallInfo>, methods: seq<MethodInfo>): seq<string>
    requires EdgesWithin(callees, |methods|)
  {
    if callees == [] then []
    else
      var front := callees[..|callees| - 1];
      ChildLines(front, methods) + [ChildLine(callees[|callees| - 1], methods)]
  }

  /** The rows of one more caller are the rows so far and that caller's row. */
  lemma {:induction false} ParentLinesSnoc(callers: seq<CallInfo>, m: MethodInfo, methods: seq<MethodInfo>, i: nat)
    requires EdgesWithin(callers, |methods|) && i < |callers|
    requires EdgesWithin(callers[..i], |methods|) && EdgesWithin(callers[..i + 1], |methods|)
    ensures ParentLines(callers[..i + 1], m, methods)
         == ParentLines(callers[..i], m, methods) + [ParentLine(callers[i], m, methods)]
  {
    assert callers[..i + 1][..i] == callers[..i];
  }

  /** The rows of one more callee are the rows so far and that callee's row. */
  lemma {:induction false} ChildLinesSnoc(callees: seq<CallInfo>, methods: seq<MethodInfo>, i: nat)
    requires EdgesWithin(callees, |methods|) && i < |callees|
    requires EdgesWithin(callees[..i], |methods|) && EdgesWithin(callees[..i + 1], |methods|)
    ensures ChildLines(callees[..i + 1], methods) == ChildLines(callees[..i], methods) + [ChildLine(callees[i], methods)]
  {
    assert callees[..i + 1][..i] == callees[..i];
  }

  /** The method's own row, with its percentages of `denominator`. */
  function MethodLine(m: MethodInfo, denominator: int): string
    requires denominator != 0
  {
    Columns(OwnLine(Percent(m.totalTime, denominator), Percent(m.selfTime, denominator), m))
  }

  /** The block of a printed method: the rule, its callers, its own row, its callees. */
  function MethodBlock(m: MethodInfo, methods: seq<MethodInfo>, denominator: int): seq<string>
    requires denominator != 0
    requires EdgesWithin(m.parents, |methods|) && EdgesWithin(m.children, |methods|)
  {
    [Columns(RuleLine())] + ParentLines(m.parents, m, methods) + [MethodLine(m, denominator)]
      + ChildLines(m.children, methods)
  }

  /** What one method contributes: its block when it passes the filter, nothing otherwise. */
  function Contribution(m: MethodInfo, methods: seq<MethodInfo>, denominator: int, minPercent: int): seq<string>
    requires denominator != 0
    requires EdgesWithin(m.parents, |methods|) && EdgesWithin(m.children, |methods|)
  {
    if Shown(m.totalTime, denominator, minPercent) then MethodBlock(m, methods, denominator) else []
  }

  /** The lines of the methods `sorted`, in that order. */
  function MethodLines(sorted: seq<MethodInfo>, methods: seq<MethodInfo>, denominator: int, minPercent: int): seq<string>
    requires denominator != 0
    requires AllEdgesWithin(sorted, |methods|)
  {
    if sorted == [] then []
    else
      var front := sorted[..|sorted| - 1];
      MethodLines(front, methods, denominator, minPercent)
        + Contribution(sorted[|sorted| - 1], methods, denominator, minPercent)
  }

  /** Each line's text followed by a newline. */
  function Lines(ls: seq<string>): string {
    if ls == [] then "" else Lines(ls[..|ls| - 1]) + ls[|ls| - 1] + "\n"
  }

  lemma {:induction false} LinesAppend(a: seq<string>, b: seq<string>)
    ensures Lines(a + b) == Lines(a) + Lines(b)
    decreases |b|
  {
    if b == [] {
      assert a + b == a;
    } else {
      var b' := b[..|b| - 1];
      assert (a + b)[..|a + b| - 1] == a + b';
      LinesAppend(a, b');
    }
  }

  /** Appending one line and its newline to the text of `ls` gives the text of `ls + [x]`. */
  lemma {:induction false} AppendLine(out: string, ls: seq<string>, x: string)
    ensures out + Lines(ls) + x + "\n" == out + Lines(ls + [x])
  {
    assert (ls + [x])[..|ls|] == ls;
  }

  /** One step of the method loop: the text so far, then what the next method contributes. */
  lemma {:induction false} MethodLinesStep(out: string, sorted: seq<MethodInfo>, i: nat, methods: seq<MethodInfo>,
                        denominator: int, minPercent: int)
    requires denominator != 0 && i < |sorted|
    requires AllEdgesWithin(sorted, |methods|)
    ensures EdgesWithin(sorted[i].parents, |methods|) && EdgesWithin(sorted[i].children, |methods|)
    ensures out + Lines(MethodLines(sorted[..i], methods, denominator, minPercent))
              + Lines(Contribution(sorted[i], methods, denominator, minPercent))
         == out + Lines(MethodLines(sorted[..i + 1], methods, denominator, minPercent))
  {
    assert sorted[..i + 1][..i] == sorted[..i];
    var front := MethodLines(sorted[..i], methods, denominator, minPercent);
    var c := Contribution(sorted[i], methods, denominator, minPercent);
    assert MethodLines(sorted[..i + 1], methods, denominator, minPercent) == front + c;
    LinesAppend(front, c);
  }

  /** The text of a line, some lines, another line and some more lines. */
  lemma {:induction false} FramedLines(out: string, first: string, before: seq<string>, middle: string, after: seq<string>)
    ensures out + first + "\n" + Lines(before) + middle + "\n" + Lines(after)
         == out + Lines([first] + before + [middle] + after)
  {
    LinesAppend([first] + before + [middle], after);
    LinesAppend([first] + before, [middle]);
    LinesAppend([first], before);
    LinesSingle(first);
    LinesSingle(middle);
  }

  lemma {:induction false} LinesSingle(x: string)
    ensures Lines([x]) == x + "\n"
  {
    assert [x][..0] == [];
  }

  /** The sorted records carry the thread's edges. */
  lemma {:induction false} SortedKeepsEdges(methods: seq<MethodInfo>)
    requires ThreadWellFormed(methods)
    ensures AllEdgesWithin(SortByTotalDescending(methods), |methods|)
  {
    var sorted := SortByTotalDescending(methods);
    forall i | 0 <= i < |sorted|
      ensures EdgesWithin(sorted[i].parents, |methods|) && EdgesWithin(sorted[i].children, |methods|)
    {
      assert sorted[i] in multiset(methods);
      var j :| 0 <= j < |methods| && methods[j] == sorted[i];
    }
  }

  /** The lines `print_methods` writes for a thread that has methods. */
  function ThreadLines(id: int, methods: seq<MethodInfo>, minPercent: int): seq<string>
    requires methods != [] && ThreadWellFormed(methods)
  {
    var sorted := SortByTotalDescending(methods);
    SortedKeepsEdges(methods);
    [Columns(IdLine(id)), Columns(HeadingLine())] + MethodLines(sorted, methods, Denominator(sorted), minPercent)
  }

  /** The text of a thread is its heading followed by its method lines. */
  lemma {:induction false} ThreadLinesText(out: string, id: int, methods: seq<MethodInfo>, minPercent: int)
    requires methods != [] && ThreadWellFormed(methods)
    ensures AllEdgesWithin(SortByTotalDescending(methods), |methods|)
    ensures var sorted := SortByTotalDescending(methods);
      out + Lines([Columns(IdLine(id)), Columns(HeadingLine())])
          + Lines(MethodLines(sorted, methods, Denominator(sorted), minPercent))
      == out + Lines(ThreadLines(id, methods, minPercent))
  {
    SortedKeepsEdges(methods);
    var sorted := SortByTotalDescending(methods);
    LinesAppend([Columns(IdLine(id)), Columns(HeadingLine())], MethodLines(sorted, methods, Denominator(sorted), minPercent));
  }

  /**
   * What a run of the printer leaves in the output, and whether it failed. A
   * thread without methods makes the printer fail (its top method is nil) after
   * the threads before it have been written.
   */
  datatype Rendered = Rendered(text: string, failed: bool)

  function RenderThreads(ids: seq<int>, result: ProfileResult, minPercent: int): Rendered
    requires WellFormed(result)
    requires ThreadsKnown(ids, result)
  {
    if ids == [] then Rendered([], false)
    else
      var front := ids[..|ids| - 1];
      var id := ids[|ids| - 1];
      var prev := RenderThreads(front, result, minPercent);
      if prev.failed then prev
      else if result.threads[id] == [] then Rendered(prev.text, true)
      else Rendered(prev.text + Lines(ThreadLines(id, result.threads[id], minPercent)) + "\n\n", false)
  }

  /** One step of the thread loop: the text so far, then the next thread and its two newlines. */
  lemma {:induction false} RenderStep(out: string, ids: seq<int>, i: nat, result: ProfileResult, minPercent: int)
    requires WellFormed(result)
    requires ThreadsKnown(ids, result)
    requires i < |ids|
    requires !RenderThreads(ids[..i], result, minPercent).failed
    ensures ids[i] in result.threads
    ensures result.threads[ids[i]] == [] ==>
      RenderThreads(ids[..i + 1], result, minPercent) == Rendered(RenderThreads(ids[..i], result, minPercent).text, true)
    ensures result.threads[ids[i]] != [] ==>
      !RenderThreads(ids[..i + 1], result, minPercent).failed &&
      out + RenderThreads(ids[..i], result, minPercent).text
        + Lines(ThreadLines(ids[i], result.threads[ids[i]], minPercent)) + "\n\n"
      == out + RenderThreads(ids[..i + 1], result, minPercent).text
  {
    var next := ids[..i + 1];
    assert next[..|next| - 1] == ids[..i] && next[|next| - 1] == ids[i];
    if result.threads[ids[i]] != [] {
      Associate(out, RenderThreads(ids[..i], result, minPercent).text,
                Lines(ThreadLines(ids[i], result.threads[ids[i]], minPercent)), "\n\n");
    }
  }

  /** Whether the thread loop has failed after one more thread, and that a failure adds no text. */
  lemma {:induction false} RenderFailedStep(ids: seq<int>, result: ProfileResult, minPercent: int)
    requires WellFormed(result)
    requires ThreadsKnown(ids, result)
    requires ids != []
    ensures ThreadsKnown(ids[..|ids| - 1], result)
    ensures RenderThreads(ids, result, minPercent).failed ==
      (RenderThreads(ids[..|ids| - 1], result, minPercent).failed || result.threads[ids[|ids| - 1]] == [])
    ensures RenderThreads(ids, result, minPercent).failed ==>
      RenderThreads(ids, result, minPercent).text == RenderThreads(ids[..|ids| - 1], result, minPercent).text
  {
    ThreadsKnownPrefix(ids, result, |ids| - 1);
  }

  // Regrouping the concatenation in its own lemma keeps the unfoldings of
  // `RenderThreads` out of the sequence reasoning; inline, `RenderStep` runs
  // out of resource.
  lemma {:induction false} Associate(out: string, a: string, b: string, c: string)
    ensures out + a + b + c == out + (a + b + c)
  {
  }

  /** The sorted ids are ids of threads of the result. */
  lemma {:induction false} SortedIdsKnown(result: ProfileResult)
    ensures ThreadsKnown(SortedIds(result.threads.Keys), result)
  {
  }

  /** The whole report: the threads in ascending id order. */
  function Render(result: ProfileResult, minPercent: int): Rendered
    requires WellFormed(result)
  {
    SortedIdsKnown(result);
    RenderThreads(SortedIds(result.threads.Keys), result, minPercent)
  }
}
