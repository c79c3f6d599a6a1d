/**
 * What the rows of the report hold, column by column: an edge row and a
 * method's own row read back as the numbers and the name they were written
 * from, when every number fits its column. The calls column of a caller's
 * row and of a callee's row count against different methods.
 */
module RowProperties {
  import opened Formatting
  import opened ProfileModel
  import opened GraphReport

  /** Where the pieces of a six-piece text lie. */
  lemma {:induction false} Pieces6(a: string, b: string, c: string, d: string, e: string, f: string)
    ensures var r := a + b + c + d + e + f;
      var i1 := |a|; var i2 := i1 + |b|; var i3 := i2 + |c|; var i4 := i3 + |d|; var i5 := i4 + |e|;
      |r| == i5 + |f| && r[..i1] == a && r[i1..i2] == b && r[i2..i3] == c &&
      r[i3..i4] == d && r[i4..i5] == e && r[i5..] == f
  {
  }

  /** Where the pieces of a seven-piece text lie. */
  lemma {:induction false} Pieces7(a: string, b: string, c: string, d: string, e: string, f: string, g: string)
    ensures var r := a + b + c + d + e + f + g;
      var i1 := |a|; var i2 := i1 + |b|; var i3 := i2 + |c|; var i4 := i3 + |d|; var i5 := i4 + |e|;
      var i6 := i5 + |f|;
      |r| == i6 + |g| && r[..i1] == a && r[i1..i2] == b && r[i2..i3] == c &&
      r[i3..i4] == d && r[i4..i5] == e && r[i5..i6] == f && r[i6..] == g
  {
    var r := a + b + c + d + e + f + g;
    Pieces6(a, b, c, d, e, f + g);
    assert r == a + b + c + d + e + (f + g);
    assert r[|r| - |g| - |f|..] == f + g;
  }

  /** The first six fields of a line, written one after the other. */
  lemma {:induction false} Columns6(l: Line)
    requires |l| == 6
    ensures Columns(l) == CellText(l[0]) + CellText(l[1]) + CellText(l[2]) + CellText(l[3])
                        + CellText(l[4]) + CellText(l[5])
  {
    assert l[..0] == [];
    ColumnsSnoc(l, 0);
    assert Columns(l[..1]) == CellText(l[0]);
    ColumnsSnoc(l, 1);
    ColumnsSnoc(l, 2);
    ColumnsSnoc(l, 3);
    ColumnsSnoc(l, 4);
    ColumnsSnoc(l, 5);
    assert l[..6] == l;
  }

  /** The text of a line of nine fields, written one after the other. */
  lemma {:induction false} Columns9(l: Line)
    requires |l| == 9
    ensures Columns(l) == CellText(l[0]) + CellText(l[1]) + CellText(l[2]) + CellText(l[3]) + CellText(l[4])
                        + CellText(l[5]) + CellText(l[6]) + CellText(l[7]) + CellText(l[8])
  {
    Columns6(l[..6]);
    assert l[..6][0] == l[0] && l[..6][1] == l[1] && l[..6][2] == l[2];
    assert l[..6][3] == l[3] && l[..6][4] == l[4] && l[..6][5] == l[5];
    ColumnsSnoc(l, 6);
    ColumnsSnoc(l, 7);
    ColumnsSnoc(l, 8);
    assert l[..9] == l;
  }

  /** A right-justified numeral loses its padding when the blanks are trimmed. */
  lemma {:induction false} TrimNumeral(f: Fixed2, width: nat)
    ensures TrimLeadingSpaces(RightJustify(FormatFixed2(f), width)) == FormatFixed2(f)
  {
    FormatFixed2Chars(f);
    TrimRightJustify(FormatFixed2(f), width);
  }

  // ---------------------------------------------------------------------------
  // Edge rows

  /** The text inside the calls column: `"#{called}/#{outOf}"`. */
  function CallsText(called: int, outOf: int): string {
    IntToString(called) + "/" + IntToString(outOf)
  }

  /** Reads back a calls column: the numbers before and after the first `/`. */
  function ParseCalls(s: string): (int, int) {
    var k := IndexOf(s, '/');
    (ParseInt(s[..k]), if k < |s| then ParseInt(s[k + 1..]) else 0)
  }

  /** The fields of an edge row, as read back from its text. */
  datatype EdgeFields = EdgeFields(total: Fixed2, self: Fixed2, children: Fixed2, calls: (int, int), name: string)

  /** Reads an edge row: three 10-wide times after 16 blanks, a 20-wide calls column, 5 blanks, the name. */
  function ParseEdgeRow(row: string): EdgeFields
    requires |row| >= 71
  {
    EdgeFields(ParseFixed2(TrimLeadingSpaces(row[16..26])), ParseFixed2(TrimLeadingSpaces(row[26..36])),
               ParseFixed2(TrimLeadingSpaces(row[36..46])), ParseCalls(TrimLeadingSpaces(row[46..66])), row[71..])
  }

  /** A time fits its column when its numeral is at most 10 characters long. */
  predicate TimeFits(time: int) {
    |FormatFixed2(FromHundredths(time))| <= TimeWidth
  }

  /** The calls column reads back as its two counts. */
  lemma {:induction false} CallsRoundTrip(called: int, outOf: int)
    ensures ParseCalls(CallsText(called, outOf)) == (called, outOf)
  {
    var a := IntToString(called);
    var s := CallsText(called, outOf);
    IntToStringChars(called);
    assert s[..|a|] == a && s[|a|] == '/';
    assert IndexOf(s, '/') == |a| by {
      forall i | 0 <= i < |a| ensures s[i] != '/' {
        assert s[i] == a[i];
      }
    }
    assert s[|a| + 1..] == IntToString(outOf);
    IntRoundTrip(called);
    IntRoundTrip(outOf);
  }

  /** The blank field in front of an edge row's times is 16 spaces. */
  lemma {:induction false} BlankColumns()
    ensures CellText(Repeated(' ', 2 * PercentageWidth)) == Spaces(2 * PercentageWidth)
  {
  }

  /** A time that fits its column fills it and reads back from it. */
  lemma {:induction false} TimeColumn(time: int)
    requires TimeFits(time)
    ensures |CellText(TimeField(time))| == TimeWidth
    ensures ParseFixed2(TrimLeadingSpaces(CellText(TimeField(time)))) == FromHundredths(time)
  {
    PaddedText(TimeWidth, Fixed(FromHundredths(time)));
    TrimNumeral(FromHundredths(time), TimeWidth);
    Fixed2RoundTrip(FromHundredths(time));
  }

  /** A calls column is `called/outOf` right-justified to the calls width. */
  lemma {:induction false} CallsFieldText(called: int, outOf: int)
    ensures CellText(EdgeCallsField(called, outOf)) == RightJustify(CallsText(called, outOf), CallWidth)
  {
    var parts := [Int(called), Str("/"), Int(outOf)];
    assert parts[..0] == [];
    ColumnsSnoc(parts, 0);
    ColumnsSnoc(parts, 1);
    ColumnsSnoc(parts, 2);
    assert parts[..3] == parts;
    assert Columns(parts) == "" + IntToString(called) + "/" + IntToString(outOf);
    assert "" + IntToString(called) == IntToString(called);
    assert EdgeCallsField(called, outOf) == Padded(CallWidth, parts);
  }

  /** A calls column that fits reads back as its two counts. */
  lemma {:induction false} CallsColumn(called: int, outOf: int)
    requires |CallsText(called, outOf)| <= CallWidth
    ensures |CellText(EdgeCallsField(called, outOf))| == CallWidth
    ensures ParseCalls(TrimLeadingSpaces(CellText(EdgeCallsField(called, outOf)))) == (called, outOf)
  {
    CallsFieldText(called, outOf);
    IntToStringChars(called);
    assert CallsText(called, outOf)[0] == IntToString(called)[0];
    TrimRightJustify(CallsText(called, outOf), CallWidth);
    CallsRoundTrip(called, outOf);
  }

  /** Where the columns of an edge row lie. */
  lemma {:induction false} EdgeLayout(row: string, blank: string, t1: string, t2: string, t3: string, c: string, name: string)
    requires row == blank + t1 + t2 + t3 + c + ("     " + name)
    requires |blank| == 16 && |t1| == 10 && |t2| == 10 && |t3| == 10 && |c| == 20
    ensures |row| == 71 + |name| && row[..16] == blank && row[16..26] == t1 && row[26..36] == t2 &&
      row[36..46] == t3 && row[46..66] == c && row[66..71] == "     " && row[71..] == name
  {
    var nm := "     " + name;
    Pieces6(blank, t1, t2, t3, c, nm);
    assert nm[..5] == "     " && nm[5..] == name;
    assert row[66..71] == row[66..][..5] && row[71..] == row[66..][5..];
  }

  /**
   * An edge row starts with 16 blanks and puts five blanks before the name;
   * when its columns fit their widths it reads back as the edge's times, its
   * calls column `called/outOf` and the name.
   */
  lemma {:induction false} EdgeRowRoundTrip(edge: CallInfo, outOf: int, name: string)
    requires TimeFits(edge.totalTime) && TimeFits(edge.selfTime) && TimeFits(edge.childrenTime)
    requires |CallsText(edge.called, outOf)| <= CallWidth
    ensures var row := Columns(EdgeLine(edge, outOf, name));
      |row| == 71 + |name| && row[..16] == Spaces(2 * PercentageWidth) && row[66..71] == "     " &&
      ParseEdgeRow(row) == EdgeFields(FromHundredths(edge.totalTime), FromHundredths(edge.selfTime),
                                      FromHundredths(edge.childrenTime), (edge.called, outOf), name)
  {
    var l := EdgeLine(edge, outOf, name);
    Columns6(l);
    BlankColumns();
    TimeColumn(edge.totalTime);
    TimeColumn(edge.selfTime);
    TimeColumn(edge.childrenTime);
    CallsColumn(edge.called, outOf);
    EdgeLayout(Columns(l), CellText(l[0]), CellText(l[1]), CellText(l[2]), CellText(l[3]), CellText(l[4]), name);
  }

  /** Text that ends with `tail` holds it in its last `|tail|` characters. */
  lemma {:induction false} EndsWith(front: string, tail: string)
    ensures (front + tail)[|front + tail| - |tail|..] == tail
  {
    assert (front + tail)[|front|..] == tail;
  }

  /**
   * Every edge row, whatever its numbers, starts with 16 blanks and ends with
   * five blanks and the name: a number wider than its column widens the row
   * in the middle.
   */
  lemma {:induction false} EdgeRowEnds(edge: CallInfo, outOf: int, name: string)
    ensures var row := Columns(EdgeLine(edge, outOf, name));
      |row| >= 16 + 5 + |name| && row[..16] == Spaces(2 * PercentageWidth) &&
      row[|row| - 5 - |name|..] == "     " + name
  {
    var l := EdgeLine(edge, outOf, name);
    Columns6(l);
    var blank := CellText(l[0]);
    var middle := CellText(l[1]) + CellText(l[2]) + CellText(l[3]) + CellText(l[4]);
    var nm := "     " + name;
    var row := Columns(l);
    assert row == blank + middle + nm;
    assert blank == Spaces(2 * PercentageWidth);
    assert row[..16] == blank;
    EndsWith(blank + middle, nm);
  }

  /** A caller's row shows the edge's count over the count of the method being printed. */
  lemma {:induction false} ParentRowCalls(caller: CallInfo, m: MethodInfo, methods: seq<MethodInfo>)
    requires caller.target < |methods|
    requires TimeFits(caller.totalTime) && TimeFits(caller.selfTime) && TimeFits(caller.childrenTime)
    requires |CallsText(caller.called, m.called)| <= CallWidth
    ensures var row := ParentLine(caller, m, methods);
      |row| >= 71 && ParseEdgeRow(row).calls == (caller.called, m.called) &&
      ParseEdgeRow(row).name == methods[caller.target].name
  {
    EdgeRowRoundTrip(caller, m.called, methods[caller.target].name);
  }

  /** A callee's row shows the edge's count over the callee's own count. */
  lemma {:induction false} ChildRowCalls(child: CallInfo, methods: seq<MethodInfo>)
    requires child.target < |methods|
    requires TimeFits(child.totalTime) && TimeFits(child.selfTime) && TimeFits(child.childrenTime)
    requires |CallsText(child.called, methods[child.target].called)| <= CallWidth
    ensures var row := ChildLine(child, methods);
      |row| >= 71 && ParseEdgeRow(row).calls == (child.called, methods[child.target].called) &&
      ParseEdgeRow(row).name == methods[child.target].name
  {
    EdgeRowRoundTrip(child, methods[child.target].called, methods[child.target].name);
  }

  // ---------------------------------------------------------------------------
  // A method's own row

  /** The fields of a method's own row, as read back from its text. */
  datatype OwnFields = OwnFields(totalPercent: Fixed2, selfPercent: Fixed2, total: Fixed2, self: Fixed2,
                                 children: Fixed2, called: int, name: string)

  /** Reads an own row: two 7-wide percentages each followed by `%`, three 10-wide times, a 20-wide count. */
  function ParseOwnRow(row: string): OwnFields
    requires |row| >= 71
  {
    OwnFields(ParseFixed2(TrimLeadingSpaces(row[..7])), ParseFixed2(TrimLeadingSpaces(row[8..15])),
              ParseFixed2(TrimLeadingSpaces(row[16..26])), ParseFixed2(TrimLeadingSpaces(row[26..36])),
              ParseFixed2(TrimLeadingSpaces(row[36..46])), ParseInt(TrimLeadingSpaces(row[46..66])), row[71..])
  }

  /** A percentage that fits its column fills its 7 characters and reads back from them. */
  lemma {:induction false} PercentColumn(p: Fixed2)
    requires |FormatFixed2(p)| <= PercentageWidth - 1
    ensures |CellText(PercentField(p))| == PercentageWidth - 1
    ensures ParseFixed2(TrimLeadingSpaces(CellText(PercentField(p)))) == p
  {
    PaddedText(PercentageWidth - 1, Fixed(p));
    TrimNumeral(p, PercentageWidth - 1);
    Fixed2RoundTrip(p);
  }

  /** A call count that fits its column fills it and reads back from it. */
  lemma {:induction false} CountColumn(called: int)
    requires |IntToString(called)| <= CallWidth
    ensures |CellText(CountField(called))| == CallWidth
    ensures ParseInt(TrimLeadingSpaces(CellText(CountField(called)))) == called
  {
    PaddedText(CallWidth, Int(called));
    IntToStringChars(called);
    TrimRightJustify(IntToString(called), CallWidth);
    IntRoundTrip(called);
  }

  /** Where the columns of an own row lie. */
  lemma {:induction false} OwnLayout(row: string, p1: string, p2: string, t1: string, t2: string, t3: string, c: string, name: string)
    requires row == p1 + "%" + p2 + "%" + t1 + t2 + t3 + c + ("     " + name)
    requires |p1| == 7 && |p2| == 7 && |t1| == 10 && |t2| == 10 && |t3| == 10 && |c| == 20
    ensures |row| == 71 + |name| && row[..7] == p1 && row[7] == '%' && row[8..15] == p2 &&
      row[15] == '%' && row[16..26] == t1 && row[26..36] == t2 && row[36..46] == t3 &&
      row[46..66] == c && row[66..71] == "     " && row[71..] == name
  {
    var nm := "     " + name;
    var q1 := p1 + "%";
    var q2 := p2 + "%";
    assert row == q1 + q2 + t1 + t2 + t3 + c + nm;
    Pieces7(q1, q2, t1, t2, t3, c, nm);
    assert row[..7] == row[..8][..7] && row[7] == row[..8][7];
    assert row[8..15] == row[8..16][..7] && row[15] == row[8..16][7];
    assert nm[..5] == "     " && nm[5..] == name;
    assert row[66..71] == row[66..][..5] && row[71..] == row[66..][5..];
  }

  /**
   * A method's own row whose columns fit reads back as its rounded
   * percentages, its times, its call count and its name, with a `%` after
   * each percentage.
   */
  lemma {:induction false} OwnRowRoundTrip(m: MethodInfo, denominator: int)
    requires denominator != 0
    requires |FormatFixed2(Percent(m.totalTime, denominator))| <= PercentageWidth - 1
    requires |FormatFixed2(Percent(m.selfTime, denominator))| <= PercentageWidth - 1
    requires TimeFits(m.totalTime) && TimeFits(m.selfTime) && TimeFits(m.childrenTime)
    requires |IntToString(m.called)| <= CallWidth
    ensures var row := MethodLine(m, denominator);
      |row| == 71 + |m.name| && row[7] == '%' && row[15] == '%' && row[66..71] == "     " &&
      ParseOwnRow(row) == OwnFields(Percent(m.totalTime, denominator), Percent(m.selfTime, denominator),
                                    FromHundredths(m.totalTime), FromHundredths(m.selfTime),
                                    FromHundredths(m.childrenTime), m.called, m.name)
  {
    var tp := Percent(m.totalTime, denominator);
    var sp := Percent(m.selfTime, denominator);
    var l := OwnLine(tp, sp, m);
    Columns9(l);
    PercentColumn(tp);
    PercentColumn(sp);
    TimeColumn(m.totalTime);
    TimeColumn(m.selfTime);
    TimeColumn(m.childrenTime);
    CountColumn(m.called);
    OwnLayout(Columns(l), CellText(l[0]), CellText(l[2]), CellText(l[4]), CellText(l[5]), CellText(l[6]),
              CellText(l[7]), m.name);
  }

  /** Every own row, whatever its numbers, ends with five blanks and the method's name. */
  lemma {:induction false} OwnRowEnds(m: MethodInfo, denominator: int)
    requires denominator != 0
    ensures var row := MethodLine(m, denominator);
      |row| >= 5 + |m.name| && row[|row| - 5 - |m.name|..] == "     " + m.name
  {
    var l := OwnLine(Percent(m.totalTime, denominator), Percent(m.selfTime, denominator), m);
    Columns9(l);
    var front := CellText(l[0]) + CellText(l[1]) + CellText(l[2]) + CellText(l[3]) + CellText(l[4])
               + CellText(l[5]) + CellText(l[6]) + CellText(l[7]);
    assert Columns(l) == front + ("     " + m.name);
    EndsWith(front, "     " + m.name);
  }
}
