# zwo2erg: Zwift workout to `.mrc` course conversion

`zwo2erg` turns Zwift workout files (`.zwo`) into `.mrc` course files for
trainer software. The conversion body of `main` works one file at a time:

1. It resets three pieces of global state:
   - `power_data`, the text written so far;
   - `msg_list`, the queued cadence messages;
   - `t_start_seg`, the time cursor in minutes.
2. It writes the course header.
3. It walks the children of the `workout` element and dispatches on each tag:
   - `IntervalsT` makes `Repeat` on/off pairs;
   - `Warmup`/`Cooldown` make a ramp;
   - `SteadyState` makes a flat block;
   - `FreeRide` is fixed at 40 percent;
   - any other tag is ignored.

   Every segment goes through `seg_build`. It appends a start breakpoint at the cursor and
   queues one message ("`<seconds> Pedal at <cadence> RPM 3`"). It then moves the cursor on by
   the duration and appends an end breakpoint.
4. It closes the data section, writes the queued messages as the course text, and closes the
   file.

Two versions of the converter are modelled:

- 0.9.1 (`zwo2erg/zwo2erg.py`) reads whole numbers through `int(float(...))`. A missing
  description reads as `None`.
- 0.9.0 (`zwo2erg.py`) reads whole numbers through plain `int(...)`, so `"1.5"` stops the
  file. A missing `description` element is an error there. It also spells the message tail
  differently: `' RPM' + ' 3\n'` instead of `' RPM ' + '3' + '\n'`.

Project layout, one module per file:

- `wrappers.dfy` (`Wrappers`): `Option` and `Result`.
- `numbers.dfy` (`Numbers`): the Python built-ins the converter relies on, over ASCII text.
  They are `str(int)`, `int(str)`, `float(str)`, `int(float)`, `"{0:.2f}".format` and
  `str.isnumeric`.
- `mrc.dfy` (`Mrc`): what both versions share.
  - The `Segment` a workout element stands for and the `Step`s (`seg_build` calls) it makes.
  - `zone_pwr`, the cadence label, the message text and the breakpoint lines.
  - Specification functions for what a run of steps accumulates from cursor 0: the
    breakpoints, the messages and the data text.
  - The lemmas about those functions.
- `workout.dfy` (`Workout`): the parsed document as ElementTree hands it over (tags with
  attribute dictionaries), `dict.get` and `str.replace('\n', ' ')`.
- `zwo091.dfy` (`Zwo091`) and `zwo090.dfy` (`Zwo090`): how each version reads an element's
  attributes into a `Segment`, `make_num`, and the description. `Zwo090` also holds the
  lemmas comparing 0.9.0 with 0.9.1.
- `emitter.dfy` (`Emitter`): the class `Accumulator`, whose fields are `power_data`,
  `msg_list` and `t_start_seg`.
  - `SegBuild` is `seg_build`.
  - `EmitSegment` and its branches are the tag dispatch. They include the
    `for i in range(repeats)` loop.
  - `Finish` writes the footer and appends the messages in a loop.
  - A ghost invariant ties the fields to the specification functions of the steps emitted
    so far.
- `conversion.dfy` (`Conversion`): the whole per-file conversion.
  - `ConvertFile` is the imperative body, proved equal to the function `Convert`.
  - Lemmas cover the resulting file's line structure, unknown tags, and the two versions.

Times are kept as exact values. The cursor field of `Accumulator` holds minutes as an exact
real, as `t_start_seg` does; its invariant ties it to the whole seconds of the steps emitted so
far, as `seconds / 60`. The specification functions count elapsed time in whole seconds.
Powers are exact reals.

Behaviour of the code worth noting:

- The message time is `int(t_start_seg * 60)`, which truncates toward zero. For the
  whole-second cursors of the model it is exactly the elapsed seconds (`Mrc.MessageTime`).
- `FreeRide` writes the literal `40` as its percent at both ends.
- Text that `int()` or `float()` rejects in a duration, repeat, zone or power attribute raises
  an exception and stops the file. Only cadences, read through `make_num`, fall back to 0.
  `Convert` returns `Failure(BadNumber(key, text))` for this.
- `for i in range(repeats)` runs no pass for a `Repeat` of zero or below, so such a block
  emits nothing.
- The module docstring speaks of ERG files with a `.erg` extension, but the code writes
  `.mrc` course text to `<name>.mrc`.
- 0.9.0 fails on a file without a `description` element (`None.text`); 0.9.1 writes
  `DESCRIPTION = None`.

## Model

| member | source | states |
|---|---|---|
| Mrc.Steps | zwo2erg/zwo2erg.py:165-235 | the `seg_build` calls each tag's branch makes; what they are is stated by `Mrc.IntervalsSteps` and `Mrc.SingleSteps` |
| Mrc.Flatten | zwo2erg/zwo2erg.py:161-235 | the `seg_build` calls of a whole workout, element after element; `Mrc.FlattenSeconds` and `Mrc.CourseLength` state its length |
| Mrc.Message | zwo2erg/zwo2erg.py:40 | the queued message with its newline, as it is appended to `msg_list`; `Mrc.MessagesStep` states what one step queues |
| Mrc.MessageText | zwo2erg/zwo2erg.py:40 | the message `seg_build` queues; `Mrc.MessageTime` and `Mrc.MessageTextShape` state its content |
| Mrc.PointLine | zwo2erg/zwo2erg.py:35-45 | a breakpoint line with its newline, as `seg_start` and `seg_end` are appended; `Mrc.DataStep` states what one step appends |
| Mrc.PointText | zwo2erg/zwo2erg.py:35-45 | a breakpoint line: two-decimal time, a tab, the percent; `Mrc.PointTextShape` states its shape |
| Mrc.Percent | zwo2erg/zwo2erg.py:185 | the percent column for a power; `Mrc.PercentReadsBack` states its value |
| Mrc.ZonePower | zwo2erg/zwo2erg.py:69-99 | the zone power is positive exactly for zones 1 to 7, is never negative and never above 1.28; every other zone gives 0 |
| Mrc.ZonePowerIncreasing | zwo2erg/zwo2erg.py:80-96 | the table rises strictly from zone 1 to zone 7 |
| Mrc.Midpoint | zwo2erg/zwo2erg.py:176-179 | when both bounds are positive the power is equidistant from them; otherwise it is the flat power |
| Mrc.PercentReadsBack | zwo2erg/zwo2erg.py:185 | the percent column written for a power reads back through `float()` as the power times 100, to within 0.005 |
| Mrc.CadenceLabel | zwo2erg/zwo2erg.py:36-39 | the label is `any` exactly when the cadence is 0, and is one line |
| Mrc.CadenceLabelReadsBack | zwo2erg/zwo2erg.py:39 | a non-zero cadence's label reads back through `int()` as the cadence truncated; a positive cadence lies within one RPM above it |
| Mrc.MessageTime | zwo2erg/zwo2erg.py:40 | the message of a segment starting `sec` seconds in names exactly `sec` |
| Mrc.MessageTextShape | zwo2erg/zwo2erg.py:40 | a message is one non-empty line beginning with a digit or a minus sign |
| Mrc.PointTextShape | zwo2erg/zwo2erg.py:35-45 | a breakpoint line is one non-empty line beginning with a digit or a minus sign |
| Mrc.RepeatPair | zwo2erg/zwo2erg.py:182-193 | the steps of the `for i in range(repeats)` loop; `Mrc.RepeatPairShape` and `Mrc.RepeatPairSeconds` state their number, order and length |
| Mrc.RepeatPairShape | zwo2erg/zwo2erg.py:182-193 | `r` loop passes make `2r` steps (none for `r <= 0`), on at even positions and off at odd ones |
| Mrc.RepeatPairSeconds | zwo2erg/zwo2erg.py:182-193 | `r` loop passes last `r` times the on plus off duration |
| Mrc.IntervalsSteps | zwo2erg/zwo2erg.py:165-193 | an `IntervalsT` block makes `2 * Repeat` steps alternating on and off, with each power the midpoint override of its own bounds, and none when `Repeat <= 0` |
| Mrc.SingleSteps | zwo2erg/zwo2erg.py:195-235 | every other known block makes one step of its duration. A positive zone flattens a ramp to the zone power; otherwise a ramp runs from `PowerLow` to `PowerHigh`. A steady block is flat: a positive zone decides its power, and otherwise it is the midpoint of `PowerHigh` and `PowerLow` when both are positive and `Power` when not. A steady block's cadence is the midpoint of `CadenceHigh` and `CadenceLow` when both are positive and `Cadence` when not; a ramp and `FreeRide` pass `Cadence` through. `FreeRide` is `40` at both ends. An unknown tag makes no step |
| Mrc.SegmentAdvance | zwo2erg/zwo2erg.py:43-47 | the steps of a segment advance the cursor by the segment's length worked out from its attributes |
| Mrc.FlattenSeconds | zwo2erg/zwo2erg.py:161-235 | the steps of a whole workout last the sum of its segments' lengths |
| Mrc.Points | zwo2erg/zwo2erg.py:35-46 | each step writes exactly two breakpoints |
| Mrc.MessageTexts | zwo2erg/zwo2erg.py:40 | each step queues exactly one message |
| Mrc.Messages | zwo2erg/zwo2erg.py:40 | the contents of `msg_list` after a run of steps; `Mrc.MessagesStep` and `Mrc.MessagesAt` state them |
| Mrc.DataText | zwo2erg/zwo2erg.py:35-46 | the data section `seg_build` appends to `power_data`; `Mrc.DataStep` and `Emitter.DataHolds` state it |
| Mrc.PointsStep | zwo2erg/zwo2erg.py:35-47 | one more step adds a breakpoint at the cursor with its start percent and one at the cursor plus its duration with its end percent |
| Mrc.DataStep | zwo2erg/zwo2erg.py:35-46 | one more step appends its start line and then its end line to the data text |
| Mrc.MessagesStep | zwo2erg/zwo2erg.py:40 | one more step appends one message at the cursor to the message list |
| Mrc.PointsAt | zwo2erg/zwo2erg.py:35-47 | breakpoint `2i` is at the total duration of the steps before step `i`, with its start percent; breakpoint `2i+1` is at that total plus step `i`'s duration, with its end percent |
| Mrc.MessagesAt | zwo2erg/zwo2erg.py:40 | message `i` is at the total duration of the steps before step `i`, with step `i`'s cadence |
| Mrc.MessageTextsAt | zwo2erg/zwo2erg.py:40 | the same for the message texts without their newline |
| Mrc.Continuity | zwo2erg/zwo2erg.py:43-47 | each step's end time is the next step's start time |
| Mrc.Ends | zwo2erg/zwo2erg.py:141-143 | the first breakpoint is at time 0 and the last at the total duration |
| Mrc.PointTime | zwo2erg/zwo2erg.py:43-47 | breakpoint `j` is at the total duration of the first `(j+1)/2` steps |
| Mrc.PointsMonotone | zwo2erg/zwo2erg.py:43-47 | with no negative durations, breakpoint times never decrease |
| Mrc.CourseLength | zwo2erg/zwo2erg.py:161-235 | the last breakpoint of a workout is at the sum of its segments' lengths |
| Mrc.StepsOneLine | zwo2erg/zwo2erg.py:185-232 | every percent a segment writes is one line |
| Mrc.FlattenOneLine | zwo2erg/zwo2erg.py:161-235 | so is every percent of a whole workout |
| Mrc.PointTextAt | zwo2erg/zwo2erg.py:35-45 | every breakpoint line of a workout is one line beginning with a digit or a minus sign |
| Mrc.MessageTextAt | zwo2erg/zwo2erg.py:40 | every message of a workout is one line beginning with a digit or a minus sign |
| Mrc.Concat | zwo2erg/zwo2erg.py:239-240 | the `for txt_line in msg_list` appends run together; `Mrc.ConcatMessages` states what they give |
| Mrc.ConcatMessages | zwo2erg/zwo2erg.py:239-240 | appending the queued messages one after the other gives the message texts, one per line |
| Mrc.IntervalsExample | zwo2erg/zwo2erg.py:182-193 | two passes of 60 s on and 30 s off put the breakpoints at 0, 1, 1.5, 2.5 and 3 minutes, each inner boundary shared by two steps |
| Numbers.ParseInt | zwo2erg.py:139-141 | `int()` of text; `Numbers.IntToStringParses` and `Numbers.DigitsParse` state what it reads |
| Numbers.ParseDecimal | zwo2erg/zwo2erg.py:167-175 | `float()` of text; `Numbers.ParseIntThenDecimal`, `Numbers.DigitsParse` and `Numbers.Fixed2Value` state what it reads |
| Numbers.NatToString | zwo2erg/zwo2erg.py:39-40 | `str(n)` for `n >= 0` is a run of ASCII digits; `Numbers.NatToStringValue` states its value |
| Numbers.IntToString | zwo2erg/zwo2erg.py:39-40 | `str` of an integer is one non-empty line beginning with a digit or a minus sign |
| Numbers.NatToStringValue | zwo2erg/zwo2erg.py:39-40 | the digits `str` writes for a natural number read back as that number |
| Numbers.IntToStringParses | zwo2erg/zwo2erg.py:39-40 | `int(str(n)) == n` |
| Numbers.ParseIntThenDecimal | zwo2erg/zwo2erg.py:167-169 | text that `int()` accepts, `float()` reads as the same value |
| Numbers.DigitsParse | zwo2erg/zwo2erg.py:52-53 | a string of digits reads as its value through both `int()` and `float()` |
| Numbers.Trunc | zwo2erg/zwo2erg.py:167-169 | `int()` of a number cuts it toward zero: within one below the number when it is non-negative, within one above it when it is negative |
| Numbers.RoundHalfEven | zwo2erg/zwo2erg.py:26 | rounding is within one half, and a tie goes to the even neighbour |
| Numbers.Fixed2 | zwo2erg/zwo2erg.py:26 | the two-decimal text is one line of at least four characters, begins with a digit or a minus sign and ends with a digit |
| Numbers.Fixed2Value | zwo2erg/zwo2erg.py:26 | the two-decimal text reads back through `float()` as the number of hundredths rounded half to even, with the number's sign |
| Numbers.Fixed2Accurate | zwo2erg/zwo2erg.py:26 | the two-decimal text reads back within 0.005 of the number |
| Workout.Attr | zwo2erg/zwo2erg.py:167 | `get` gives the attribute when present and the default otherwise |
| Workout.ReplaceNewlines | zwo2erg/zwo2erg.py:151 | `str.replace('\n', ' ')` keeps the length of the text; `Workout.ReplaceNewlinesAt` states each character |
| Workout.ReplaceNewlinesAt | zwo2erg/zwo2erg.py:151 | every newline of the description becomes a space, and every other character stays in place |
| Workout.ReplaceNewlinesOneLine | zwo2erg/zwo2erg.py:151 | so the description written is one line |
| Workout.ReplaceNewlinesKeeps | zwo2erg/zwo2erg.py:151 | a one-line description is written unchanged |
| Zwo091.IntAttr | zwo2erg/zwo2erg.py:167-169 | a duration, repeat count or zone through `int(float(...))`, failing with the key and text when `float()` rejects it; `Zwo091.IntAttrWhole` and `Zwo090.DecimalDuration` state what it reads |
| Zwo091.PowerAttr | zwo2erg/zwo2erg.py:170-175 | a power through `float(...)`, failing with the key and text when `float()` rejects it |
| Zwo091.Decode | zwo2erg/zwo2erg.py:165-235 | the `if/elif` chain reading each branch's attributes in source order, the first rejected one stopping the file; `Zwo091.OtherTagSkipped` and `Zwo090.DecodeAgrees` state its results |
| Zwo091.Description | zwo2erg/zwo2erg.py:150-151 | the description text, `None` when the element or its text is missing; `Zwo091.DescriptionOneLine` states its properties |
| Zwo091.MakeNum | zwo2erg/zwo2erg.py:50-56 | a string of digits gives its value, and any other string gives 0 |
| Zwo091.CadenceAttr | zwo2erg/zwo2erg.py:184-234 | a cadence through `make_num(ch_attr.get(key, '0'))`, never failing; `Zwo091.MakeNum` states what it reads |
| Zwo091.MakeNumExamples | zwo2erg/zwo2erg.py:50-56 | `"90"` gives 90; `""`, `"-5"` and `"90.5"` give 0 |
| Zwo091.IntAttrWhole | zwo2erg/zwo2erg.py:167-169 | an attribute that `int()` accepts is read as `int()` reads it |
| Zwo091.DescriptionOneLine | zwo2erg/zwo2erg.py:150-151 | the description is one line; it is the text itself when that is one line, and `None` when the element or its text is missing |
| Zwo091.OtherTagSkipped | zwo2erg/zwo2erg.py:165-235 | a tag outside the chain decodes to a segment with no steps |
| Zwo090.Message | zwo2erg.py:39 | the message as 0.9.0 spells it; `Zwo090.MessageSame` states it equals the 0.9.1 text |
| Zwo090.IntAttr | zwo2erg.py:139-141 | a duration, repeat count or zone through plain `int(...)`, failing with the key and text when `int()` rejects it; `Zwo090.IntAttrAgrees` and `Zwo090.DecimalDuration` compare it with 0.9.1 |
| Zwo090.Decode | zwo2erg.py:137-207 | the same chain with the stricter whole-number reading; `Zwo090.DecodeAgrees` compares it with 0.9.1 |
| Zwo090.Description | zwo2erg.py:124 | an error without a `description` element, `None` for an element without text, else the text with newlines made spaces; `Zwo090.DescriptionAgrees` compares it with 0.9.1 |
| Zwo090.MakeNum | zwo2erg.py:49-55 | a string of digits gives its value, and any other string gives 0 |
| Zwo090.CadenceAttr | zwo2erg.py:156-206 | a cadence through `make_num(ch_attr.get(key, '0'))`, never failing; `Zwo090.CadenceSame` compares it with 0.9.1 |
| Zwo090.MakeNumSame | zwo2erg.py:49-55 | both versions of `make_num` agree on every string |
| Zwo090.MessageSame | zwo2erg.py:39 | the 0.9.0 message, built with `msg_dur = ' 3\n'`, is the same text as the 0.9.1 one |
| Zwo090.IntAttrAgrees | zwo2erg.py:139-141 | whatever 0.9.0 reads as a whole number, 0.9.1 reads the same |
| Zwo090.CadenceSame | zwo2erg.py:176 | both versions read a cadence attribute the same |
| Zwo090.DecodeAgrees | zwo2erg.py:137-207 | every element 0.9.0 decodes, 0.9.1 decodes to the same segment |
| Zwo090.IntervalsAgree | zwo2erg.py:137-165 | the same for an `IntervalsT` element |
| Zwo090.RampAgrees | zwo2erg.py:167-179 | the same for a `Warmup` or `Cooldown` element |
| Zwo090.SteadyAgrees | zwo2erg.py:181-200 | the same for a `SteadyState` element |
| Zwo090.DescriptionAgrees | zwo2erg.py:124 | where 0.9.0 finds a description, 0.9.1 reads the same text |
| Zwo090.DecimalDuration | zwo2erg.py:203 | a duration of `"1.5"` stops 0.9.0 with a bad-number error and reads as 1 in 0.9.1 |
| Emitter.Accumulator.constructor | zwo2erg/zwo2erg.py:27-29 | the state starts with an empty buffer, no messages and the cursor at 0 |
| Emitter.Accumulator.Reset | zwo2erg/zwo2erg.py:141-143 | each file starts from an empty buffer, no messages and the cursor at 0, whatever came before |
| Emitter.Accumulator.Write | zwo2erg/zwo2erg.py:145-157 | a header piece is appended to the buffer and nothing else changes |
| Emitter.Accumulator.SegBuild | zwo2erg/zwo2erg.py:32-47 | the buffer gains the start line at the old cursor and the end line at the old cursor plus the duration. The message list gains one message at the old cursor. The cursor moves on by the duration, and nothing else changes |
| Emitter.Accumulator.EmitStep | zwo2erg/zwo2erg.py:32-47 | after `seg_build`, the buffer, the messages and the cursor are those of the steps so far plus one |
| Emitter.Accumulator.Finish | zwo2erg/zwo2erg.py:237-241 | the buffer gains the two markers, every queued message in order, and the closing marker |
| Emitter.Accumulator.EmitSegment | zwo2erg/zwo2erg.py:165-235 | the tag dispatch makes exactly the segment's steps, keeping the state in step with them |
| Emitter.Accumulator.EmitIntervals | zwo2erg/zwo2erg.py:165-193 | the `IntervalsT` branch with its `range(repeats)` loop makes exactly the block's steps |
| Emitter.Accumulator.EmitPair | zwo2erg/zwo2erg.py:182-193 | one loop pass adds one on step and one off step |
| Emitter.Accumulator.EmitRamp | zwo2erg/zwo2erg.py:195-207 | the ramp branch makes exactly the block's step |
| Emitter.Accumulator.EmitSteady | zwo2erg/zwo2erg.py:209-228 | the steady branch, with its power and cadence overrides, makes exactly the block's step |
| Emitter.DataHolds | zwo2erg/zwo2erg.py:35-46 | the buffer after one more step's two lines is the header and the data text of the longer run |
| Conversion.Header | zwo2erg/zwo2erg.py:145-157 | the course header in the pieces `main` appends; `Conversion.HeaderIsLines` states its lines |
| Conversion.Output | zwo2erg/zwo2erg.py:145-241 | the whole file for a run of steps; `Conversion.OutputIsLines` and `Conversion.LineAt` state its layout |
| Conversion.DecodeAll | zwo2erg/zwo2erg.py:159-235 | the children decoded in order, the first failure deciding; `Conversion.DecodeAllStops` states that |
| Conversion.Convert | zwo2erg/zwo2erg.py:141-241 | the conversion of one parsed file; `Conversion.ConvertFile` is proved equal to it, and `Conversion.ConvertIs` and `Conversion.ConvertShape` characterise it |
| Conversion.ConvertFile | zwo2erg/zwo2erg.py:141-241 | whatever the state held before, the result is the file's conversion, and on success the buffer holds exactly that text |
| Conversion.WriteHeader | zwo2erg/zwo2erg.py:145-157 | the five header appends write the course header |
| Conversion.EmitElements | zwo2erg/zwo2erg.py:159-235 | the children are decoded in order and the first failure decides the result; on success the state holds the steps of all of them |
| Conversion.DecodeAllStops | zwo2erg/zwo2erg.py:161-235 | a child that fails to decode decides the result for the whole list |
| Conversion.ConvertIs | zwo2erg/zwo2erg.py:141-241 | when the description, the `workout` element and every child decode, the file is the output for them |
| Conversion.ConvertShape | zwo2erg/zwo2erg.py:141-241 | conversely, a file converts only when all of those succeed, and its text is that output |
| Conversion.Lines | zwo2erg/zwo2erg.py:145-241 | a file for `n` steps has `12 + 3n` lines |
| Conversion.HeaderIsLines | zwo2erg/zwo2erg.py:145-157 | the header is its nine lines, each followed by a newline |
| Conversion.OutputIsLines | zwo2erg/zwo2erg.py:145-241 | the file is its lines, each followed by a newline: the header, the breakpoint lines, the two markers, the messages and the closing marker |
| Conversion.LineAt | zwo2erg/zwo2erg.py:145-241 | with a one-line description and file name, every line is one line, and the lines starting with `[` are exactly the six section markers, at positions 0, 7, 8, `9+2n`, `10+2n` and `11+3n`; so the markers are balanced even with no segments |
| Conversion.HeaderLineAt | zwo2erg/zwo2erg.py:145-157 | in the header, only the first and the last two lines are markers |
| Conversion.OtherTagIgnored | zwo2erg/zwo2erg.py:161-235 | adding a child with an unknown tag leaves the converted file unchanged |
| Conversion.ConvertAgrees | zwo2erg.py:116-213 | every file 0.9.0 converts, 0.9.1 converts to the same text |
| Conversion.VersionsDiffer | zwo2erg.py:124-203 | a file without a description and a file with a decimal duration stop 0.9.0 but convert in 0.9.1 |

## Left out

- The Tk dialogs, `exit`, the directory walk (`os.walk`, `os.listdir`, `os.chdir`), the path
  mirroring and `make_path`: user interface and file system work outside the conversion. The
  file name reaches `Convert` as a parameter.
- XML parsing with `ElementTree.parse` and the `IOError` re-raise. The input is the parsed
  document: the optional `description` text and the children of `workout` as tags with
  attribute dictionaries.
- Writing the `.mrc` file, the per-directory and final `print`s, and `file_count`: output and
  logging. On success, `ConvertFile` leaves the text that is written in the buffer.
- An exception ends the whole batch in the source; the model stops the one file with an
  `Error` value and says nothing about the files after it.
- Binary floating point. `float()`, the `seg_dur / 60` cursor arithmetic, `t_start_seg * 60`
  and `"{0:.2f}"` are modelled on exact values. Float rounding can make the source's output
  differ; for example, a cursor that builds up to 0.99999… minutes would print a message one
  second early.
- `Numbers.ParseDecimal`, `Numbers.ParseInt`: they accept ASCII text only. They leave out
  `inf`/`nan`, digit-group underscores, non-ASCII digits and whitespace, and the
  `OverflowError` of `int()` on a huge `float()`.
- `Zwo091.MakeNum`, `Zwo090.MakeNum`: `isnumeric()` is true exactly for non-empty runs of
  ASCII digits here; other Unicode numerics such as `'½'` are not modelled. 0.9.1's
  `int(float(...))` is taken exactly, without losing precision on very long digit strings.
- `Mrc.ZonePower`: its contract states when the power is positive and its range. The seven
  table values are its body, and `Mrc.ZonePowerIncreasing` orders them.
