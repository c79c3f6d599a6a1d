# ruby-prof graph printer, modelled in Dafny

This project models `RubyProf::GraphPrinter`, the text printer of ruby-prof's
call-graph report. It also proves what that report promises.

The printer reads a profile result. For each thread id it holds the profiled
methods of that thread. Each method record has its times, its call count, and
its caller and callee edges. For every thread, in ascending id order, the
printer writes:

- a `Thread ID:` line;
- the column heading;
- one block per method whose `%total` reaches the minimum, largest total time
  first;
- then two newlines.

A block is:

- a rule of 80 dashes;
- one row per caller, showing `edge.called/method.called`;
- the method's own row, with its `%total` and `%self`;
- one row per callee, showing `edge.called/callee.called`.

The project has these modules:

- `ProfileModel` (`profile_model.dfy`): the records the printer reads.
- `Formatting` (`formatting.dfy`):
  - decimal numerals (`to_s`, `%i`);
  - numbers with two decimals (`%.2f`);
  - right justification (`%<width>s`);
  - a parser for each formatter, with a proved round trip.
- `Ordering` (`ordering.dfy`): methods by descending total time, threads by
  ascending id.
- `GraphReport` (`graph_report.dfy`): the report as a value.
  - The constants `PercentageWidth`, `TimeWidth` and `CallWidth`.
  - The denominator, the percentages and the filter.
  - The fields one `sprintf` writes (`Cell`) and the lines made of them.
  - A method's block, a thread's lines, and the whole report `Render`.
- `RubyProf` (`graph_printer.dfy`): the class `GraphPrinter`.
  - Its fields are `result`, `minPercent` and `output`.
  - Every method of the Ruby class has a method of the same name. The method
    loop, its body, the block, the two heading lines and the two kinds of row
    are split into helper methods of their own (`PrintBlocks`, `PrintMethod`,
    `PrintBlock`, `PrintThreadId`, `PrintColumnHeading`, `PrintEdge`,
    `PrintOwnRow`). Each appends to `output`, field by field, loop by loop.
  - Each method is proved to append exactly the text the `GraphReport`
    functions describe.
- `FilterProperties`, `RowProperties`, `BlockProperties` and
  `RenderProperties`: the properties of the report, proved about those
  functions.

Modelling decisions:

- Times, percentages and the minimum `%total` are whole numbers of hundredths.
  So `0.01` is `1` and `%.2f` prints a count of hundredths.
- The filter compares the exact rational `%total` (`real` arithmetic) with the
  minimum. The printed percentage is that value rounded to the nearest
  hundredth, with halves rounded away from zero.
- An edge names the method at its other end by its index in the thread's
  sequence of method records. This stands for the object reference the
  profiler stores. `WellFormed` says every index is in range.
- The output is a `string` field that the methods append to. `Print` takes the
  text already in the output as a parameter.
- A thread without methods makes Ruby fail: `methods.first` is `nil`, and asking
  it for `total_time` raises `NoMethodError`. The model lets the printer write
  the earlier threads, and then `PrintMethods` returns `false`. `Print` returns
  `ok == false` with the text written so far. `Render` pairs that text with a
  `failed` flag.
- The constructor starts with an empty output. The Ruby constructor leaves
  `@output` unset, and `print` assigns it before anything is written.
- The percentage fields are `sprintf("%7.2f%")`. The trailing `%` is written as
  a literal percent sign.
- The field widths come from interpolating the constants into the format
  strings: `"%#{TIME_WIDTH}.2f"` is `%10.2f`, `"%#{CALL_WIDTH}i"` is `%20i`, and
  `"%#{PERCENTAGE_WIDTH-1}.2f"` is `%7.2f`. The model uses the constants
  `PercentageWidth`, `TimeWidth` and `CallWidth` in the same way.

## Model

| member | source | states |
|---|---|---|
| GraphReport.Denominator | lib/ruby-prof/graph_printer.rb:61-65 | The denominator is never zero. It is the first sorted method's total time whenever that is not zero (otherwise 0.01). |
| FilterProperties.DenominatorIsLargestTotal | lib/ruby-prof/graph_printer.rb:59-65 | The denominator is the largest total time of the thread's methods, or 0.01 when that largest total is 0. |
| Ordering.SortByTotalDescending | lib/ruby-prof/graph_printer.rb:59 | The sorted methods are in non-increasing total time and are a permutation of the thread's methods (same multiset, same length). |
| Ordering.TopIsLargest | lib/ruby-prof/graph_printer.rb:59-62 | After sorting, the first method (`toplevel`) has the largest total time of the thread. |
| Ordering.SortedIds | lib/ruby-prof/graph_printer.rb:51 | The threads are visited in strictly ascending id order, each thread of the result exactly once. |
| GraphReport.Shown | lib/ruby-prof/graph_printer.rb:74 | The filter of the method loop: a method is skipped exactly when its exact `%total` is below the minimum. Its properties are stated by `FilterProperties.ShownIff`, `BoundaryIsShown` and `ShownMonotone`. |
| FilterProperties.ShownIff | lib/ruby-prof/graph_printer.rb:71-74 | A method is printed iff `10000 * total >= min * d` for a positive denominator. The inequality is reversed for a negative one. This is `total / d * 100 >= min_percent` in exact integer terms. |
| FilterProperties.BoundaryIsShown | lib/ruby-prof/graph_printer.rb:74 | A method whose %total equals the minimum exactly is printed, because the skip test is a strict `<`. |
| FilterProperties.ShownMonotone | lib/ruby-prof/graph_printer.rb:74 | A method printed at some minimum is printed at every lower minimum. |
| FilterProperties.ShownMethodsMembers | lib/ruby-prof/graph_printer.rb:70-74 | A method is in the list of shown methods iff it is one of the thread's methods and its %total passes the filter. `BlockProperties.MethodLinesAreShownBlocks` proves that the loop's lines are exactly the blocks of that list. |
| FilterProperties.RaisingMinimumShrinks | lib/ruby-prof/graph_printer.rb:74 | Raising the minimum keeps a sub-multiset of the printed methods, and so never more of them. |
| GraphReport.Percent | lib/ruby-prof/graph_printer.rb:71-72 | `(time / total_time) * 100` in hundredths, rounded to the nearest hundredth with halves away from zero, with its sign. Its properties are stated by `PercentRounding`, `FilterProperties.PercentIsNearest` and `FilterProperties.TopMethodIsHundredPercent`. |
| GraphReport.PercentRounding | lib/ruby-prof/graph_printer.rb:71-72 | The percentage has the sign of `time / total_time`. Its hundredths are within half a hundredth of the exact magnitude. |
| FilterProperties.PercentIsNearest | lib/ruby-prof/graph_printer.rb:71-72 | The printed percentage differs from the exact `(time / total_time) * 100` by at most 0.005. |
| FilterProperties.TopMethodIsHundredPercent | lib/ruby-prof/graph_printer.rb:61-62 | A method whose total time is the (positive) denominator has %total 100.00 and prints as `100.00`. |
| Formatting.FormatFixed2 | lib/ruby-prof/graph_printer.rb:83-85 | `%.2f` of a whole number of hundredths: the sign, the integer part, a point and two digits, at least four characters. `Fixed2RoundTrip` proves that `ParseFixed2` reads it back, and `FormatFixed2Chars` gives its characters. |
| Formatting.Fixed2RoundTrip | lib/ruby-prof/graph_printer.rb:83-85 | A number printed with two decimals (sign, integer part, point, two digits) reads back as the same number. |
| Formatting.IntToString | lib/ruby-prof/graph_printer.rb:86 | `to_s` and `%i` of an integer: an optional minus sign and the digits, never empty. `IntRoundTrip` proves that `ParseInt` reads it back, and `IntToStringChars` gives its characters. |
| Formatting.IntRoundTrip | lib/ruby-prof/graph_printer.rb:86 | A printed integer reads back as the same integer. |
| Formatting.RightJustify | lib/ruby-prof/graph_printer.rb:97-102 | `%<width>s`: the field is `max(width, len)` long. `RightJustifyShape`, `RightJustifyUnique` and `TrimRightJustify` state its contents. |
| Formatting.RightJustifyShape | lib/ruby-prof/graph_printer.rb:97-102 | A right-justified field ends with its text and has only blanks before it. |
| Formatting.RightJustifyUnique | lib/ruby-prof/graph_printer.rb:97-102 | Three facts determine `%<width>s` completely: the field's length is `max(width, len)`, it ends with the text, and only blanks come before the text. |
| Formatting.TrimRightJustify | lib/ruby-prof/graph_printer.rb:115 | Stripping the leading blanks of a right-justified field gives its text back, when the text does not itself start with a blank. |
| GraphReport.EdgeLine | lib/ruby-prof/graph_printer.rb:109-116 | The fields of a caller or callee row: 16 blanks, the edge's three times, its count over another count, and a name. `RowProperties.EdgeRowRoundTrip` gives its layout and reads it back. |
| GraphReport.ParentLine | lib/ruby-prof/graph_printer.rb:108-117 | A caller's row shows the edge's count over the printed method's count and the caller's name. `RowProperties.ParentRowCalls` reads these back. |
| GraphReport.ChildLine | lib/ruby-prof/graph_printer.rb:122-135 | A callee's row shows the edge's count over the callee's own count and the callee's name. `RowProperties.ChildRowCalls` reads these back. |
| GraphReport.OwnLine | lib/ruby-prof/graph_printer.rb:81-87 | The fields of a method's own row: two percentages each followed by `%`, three times, the count and the name. `RowProperties.OwnRowRoundTrip` gives its layout and reads it back. |
| GraphReport.MethodLine | lib/ruby-prof/graph_printer.rb:71-87 | A method's own row with its `%total` and `%self` of the thread's denominator. `BlockProperties.OwnRowNotRule` shows it is never a separator. |
| RowProperties.TimeColumn | lib/ruby-prof/graph_printer.rb:110-112 | A time whose numeral fits in 10 characters fills its 10-character column and reads back from it. |
| RowProperties.CallsRoundTrip | lib/ruby-prof/graph_printer.rb:114 | The calls text `called/outOf` reads back as its two counts. |
| RowProperties.CallsColumn | lib/ruby-prof/graph_printer.rb:114-115 | A calls text that fits fills its 20-character column and reads back as its two counts. |
| RowProperties.EdgeRowRoundTrip | lib/ruby-prof/graph_printer.rb:109-116 | When every number fits its column, an edge row has length 71 + the name's length, starts with 16 blanks, has five blanks before the name, and reads back as the edge's three times, its counts and the name. (`EdgeRowEnds` proves the 16 leading blanks and the five blanks and the name at the end for every row.) |
| RowProperties.EdgeRowEnds | lib/ruby-prof/graph_printer.rb:109-116 | Every edge row, whatever its numbers, starts with 16 blanks and ends with five blanks and the name. A number too wide for its column widens the row, but moves neither end. |
| RowProperties.ParentRowCalls | lib/ruby-prof/graph_printer.rb:114-116 | When every number fits its column, a caller row reads back as the edge's count over the printed method's own count, with the caller's name. |
| RowProperties.ChildRowCalls | lib/ruby-prof/graph_printer.rb:131-133 | When every number fits its column, a callee row reads back as the edge's count over the callee's own count, with the callee's name. |
| RowProperties.PercentColumn | lib/ruby-prof/graph_printer.rb:81-82 | A percentage that fits fills 7 characters and reads back as the same rounded value. |
| RowProperties.CountColumn | lib/ruby-prof/graph_printer.rb:86 | A call count that fits fills its 20-character column and reads back as the count. |
| RowProperties.OwnRowRoundTrip | lib/ruby-prof/graph_printer.rb:81-87 | When every number fits its column, a method's own row has length 71 + the name's length, a `%` at columns 7 and 15 and five blanks before the name, and reads back as the rounded %total and %self, the three times, the call count and the name. (`OwnRowEnds` proves that every own row ends with five blanks and the name.) |
| RowProperties.OwnRowEnds | lib/ruby-prof/graph_printer.rb:81-87 | Every own row, whatever its numbers, ends with five blanks and the method's name. |
| GraphReport.RuleLine | lib/ruby-prof/graph_printer.rb:76 | The separator `'-' * 80`. `BlockProperties.RuleLineIsRule` states its text. |
| GraphReport.ParentLines | lib/ruby-prof/graph_printer.rb:107-119 | One row per caller, in the caller list's order. `BlockProperties.ParentRowAt` states the i-th row. |
| GraphReport.ChildLines | lib/ruby-prof/graph_printer.rb:121-136 | One row per callee, in the callee list's order. `BlockProperties.ChildRowAt` states the j-th row. |
| GraphReport.MethodBlock | lib/ruby-prof/graph_printer.rb:76-90 | A printed method's block. `BlockProperties.BlockShape` states it line by line, and `BlockProperties.BlockRuleCount` shows it holds one separator. |
| GraphReport.Contribution | lib/ruby-prof/graph_printer.rb:71-90 | What one method adds to the loop's lines: its block when it passes the filter, nothing otherwise. |
| GraphReport.MethodLines | lib/ruby-prof/graph_printer.rb:70-91 | The lines of the method loop. `BlockProperties.MethodLinesAreShownBlocks` proves they are the blocks of the shown methods, and `BlockProperties.BlockCount` counts them. |
| BlockProperties.RuleLineIsRule | lib/ruby-prof/graph_printer.rb:76 | The first line of a block is exactly 80 dashes. |
| BlockProperties.BlockStartsWithRule | lib/ruby-prof/graph_printer.rb:76 | The text of every printed block begins with 80 dashes followed by a newline. |
| BlockProperties.EdgeRowNotRule | lib/ruby-prof/graph_printer.rb:109 | No caller or callee row is a separator line, because it starts with a blank. |
| BlockProperties.OwnRowNotRule | lib/ruby-prof/graph_printer.rb:81 | A method's own row is never a separator line, because a `%` follows its first column. |
| BlockProperties.ParentRowAt | lib/ruby-prof/graph_printer.rb:108-117 | The i-th caller row is the row of the i-th caller, and there is one row per caller. |
| BlockProperties.ChildRowAt | lib/ruby-prof/graph_printer.rb:122-134 | The j-th callee row is the row of the j-th callee, and there is one row per callee. |
| BlockProperties.BlockFrame | lib/ruby-prof/graph_printer.rb:76-90 | A block has `2 + callers + callees` lines. The rule comes first, and the own row comes right after the callers. |
| BlockProperties.BlockParents | lib/ruby-prof/graph_printer.rb:76-78 | The caller rows follow the rule, in the order of the caller list. |
| BlockProperties.BlockChildren | lib/ruby-prof/graph_printer.rb:88-90 | The callee rows follow the own row, in the order of the callee list. |
| BlockProperties.BlockShape | lib/ruby-prof/graph_printer.rb:76-90 | A block is the rule, then one row per caller in order, then the own row, then one row per callee in order, and nothing else. |
| BlockProperties.BlockRuleCount | lib/ruby-prof/graph_printer.rb:76-90 | A block holds exactly one separator line. |
| BlockProperties.BlockCount | lib/ruby-prof/graph_printer.rb:70-91 | The method lines of a thread hold one separator per method that passes the filter. A skipped method contributes no line. |
| BlockProperties.MethodLinesAreShownBlocks | lib/ruby-prof/graph_printer.rb:70-91 | The lines of the method loop are exactly the blocks of the methods that pass the filter, one after the other, in sorted order. A skipped method adds no line. |
| GraphReport.IdLine | lib/ruby-prof/graph_printer.rb:95 | The fields of `"Thread ID: #{thread_id}"`. `BlockProperties.IdLineText` states its text. |
| GraphReport.HeadingLine | lib/ruby-prof/graph_printer.rb:97-103 | The seven heading fields. `BlockProperties.HeadingText` states its text. |
| GraphReport.ThreadLines | lib/ruby-prof/graph_printer.rb:57-92 | The lines `print_methods` writes for a thread with methods: the id line, the heading, then the method lines of the sorted methods with their denominator. `BlockProperties.ThreadBlockCount` and `BlockProperties.ThreadTextStart` state its properties. |
| BlockProperties.IdLineText | lib/ruby-prof/graph_printer.rb:95 | The id line is `Thread ID: ` followed by the thread id. |
| BlockProperties.HeadingStart | lib/ruby-prof/graph_printer.rb:97-99 | The first three heading columns are `%total` and `%self` right-justified to 8, then `total` right-justified to 10. |
| BlockProperties.HeadingMiddle | lib/ruby-prof/graph_printer.rb:97-101 | The first five heading columns add `self` right-justified to 10 and `children` right-justified to 12. |
| BlockProperties.HeadingText | lib/ruby-prof/graph_printer.rb:97-103 | The heading is exactly `  %total   %self     total      self    children             calls   Name`. |
| BlockProperties.HeadingHasNoRule | lib/ruby-prof/graph_printer.rb:95-103 | Neither the id line nor the heading is a separator line. |
| BlockProperties.ThreadBlockCount | lib/ruby-prof/graph_printer.rb:57-92 | A thread's lines hold exactly one separator per method whose %total passes the filter. |
| BlockProperties.RaisingMinimumNeverAddsBlocks | lib/ruby-prof/graph_printer.rb:74 | Raising the minimum %total never adds a block to a thread's text. |
| BlockProperties.ThreadTextStart | lib/ruby-prof/graph_printer.rb:94-104 | A thread's text starts with `Thread ID: <id>\n`, then the heading and a newline. |
| GraphReport.RenderThreads | lib/ruby-prof/graph_printer.rb:51-54 | The thread loop over the given ids: each thread's lines and two newlines, stopping with a failure at a thread without methods. `RenderProperties.RenderThreadsFailsIff` and `RenderProperties.FailedRenderStopsAtFirstEmpty` state when it fails and what it leaves. |
| GraphReport.Render | lib/ruby-prof/graph_printer.rb:49-55 | The whole report: the thread loop over the ids in ascending order. `RenderProperties.RenderFailsIff` and `RenderProperties.EmptyResultRendersNothing` state its properties. |
| RenderProperties.RenderThreadsFailsIff | lib/ruby-prof/graph_printer.rb:51-53 | The thread loop fails iff one of the threads it visits has no methods. |
| RenderProperties.RenderFailsIff | lib/ruby-prof/graph_printer.rb:49-55 | Printing fails iff some thread of the result has no methods. |
| RenderProperties.FailedRenderStopsAtFirstEmpty | lib/ruby-prof/graph_printer.rb:51-53 | When printing fails, the failure happens at the first thread without methods. Every thread before it has methods. The text is that of those earlier threads, printed without failure. |
| RenderProperties.EmptyResultRendersNothing | lib/ruby-prof/graph_printer.rb:49-55 | A result without threads prints nothing and does not fail. |
| RubyProf.RenderStaysFailed | lib/ruby-prof/graph_printer.rb:51-53 | Once a thread without methods has stopped the loop, the later threads add nothing. |
| RubyProf.GraphPrinter.constructor | lib/ruby-prof/graph_printer.rb:27-30 | The printer stores the result and the minimum %total. |
| RubyProf.GraphPrinter.Print | lib/ruby-prof/graph_printer.rb:41-46 | The minimum given to `print` replaces the constructor's. The output becomes the given text followed by the whole report at that minimum. `ok` is false exactly when the report fails. |
| RubyProf.GraphPrinter.PrintThreads | lib/ruby-prof/graph_printer.rb:49-55 | The method appends every thread in ascending id order, each followed by two newlines, stopping at a thread without methods. This is exactly `Render`'s text. |
| RubyProf.GraphPrinter.PrintMethods | lib/ruby-prof/graph_printer.rb:57-92 | For a thread with methods, the method appends the id line, the heading and the blocks, which are the thread's lines. It appends nothing and returns false for a thread without methods. |
| RubyProf.GraphPrinter.PrintBlocks | lib/ruby-prof/graph_printer.rb:70-91 | The method appends, in sorted order, the block of every method that passes the filter. |
| RubyProf.GraphPrinter.PrintMethod | lib/ruby-prof/graph_printer.rb:71-90 | The method appends one method's contribution: its block, or nothing when its %total is below the minimum. |
| RubyProf.GraphPrinter.PrintBlock | lib/ruby-prof/graph_printer.rb:76-90 | The method appends the rule, the caller rows, the own row and the callee rows, each line ending with a newline. |
| RubyProf.GraphPrinter.PrintHeading | lib/ruby-prof/graph_printer.rb:94-105 | The method appends the id line and the column heading, each followed by a newline. |
| RubyProf.GraphPrinter.PrintThreadId | lib/ruby-prof/graph_printer.rb:95 | The method appends the id line and a newline. |
| RubyProf.GraphPrinter.PrintColumnHeading | lib/ruby-prof/graph_printer.rb:97-104 | The method appends the seven heading fields and a newline. |
| RubyProf.GraphPrinter.PrintEdge | lib/ruby-prof/graph_printer.rb:109-116 | The method appends the six fields of an edge row: 16 blanks, the three times, the calls column and the name. |
| RubyProf.GraphPrinter.PrintOwnRow | lib/ruby-prof/graph_printer.rb:81-87 | The method appends the nine fields of the own row: two percentages, each followed by `%`, three times, the count and the name. |
| RubyProf.GraphPrinter.PrintParents | lib/ruby-prof/graph_printer.rb:107-119 | The method appends one row per caller, in order, each with its newline. |
| RubyProf.GraphPrinter.PrintChildren | lib/ruby-prof/graph_printer.rb:121-136 | The method appends one row per callee, in order, each with its newline. |

## Left out

- The profiling engine that builds the result (the C extension) is not part of this model. The result is an input.
- Floating point: in Ruby the times are floats and the percentages are float quotients. The model uses exact hundredths and exact rationals.
- Formatting.FormatFixed2: models `%.2f` only for values that are already whole hundredths. The rounding `sprintf` applies to the binary float is left out. Values that are not whole hundredths are outside the integer model.
- GraphReport.Percent: rounds the exact quotient to the nearest hundredth, halves away from zero. `sprintf` rounds the float, so the two can differ on a tie or in the last place.
- Ordering.SortByTotalDescending: orders by total time only. The profiler defines `<=>` on method records in C code that is not part of this model. So the order of methods with equal total time (after `sort.reverse`) is left out.
- Writing to an IO: `print`'s output is modelled as the string it ends up holding. Flushing, encodings and IO errors are left out.
- The unused `thread_id` parameter of `print_parents` is dropped.
- Edge targets are assumed in range (`WellFormed`). In Ruby they are object references, which always exist.
- `children_time` is a stored field of each record, as the engine provides it. The model does not relate it to the other times.
- The `NoMethodError` of a thread without methods is modelled as a `false` result after the earlier threads have been written. The exception object and its propagation are left out.
- test/basic_test.rb exercises only the profiling engine (method naming and call counts), and the Rails plugin calls `FlatPrinter`. Neither is part of this model.
