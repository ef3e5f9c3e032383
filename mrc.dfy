/** What one workout becomes in the `.mrc` course file, shared by both versions of the
    converter: the segments a workout element stands for, the breakpoint lines and cadence
    messages `seg_build` writes for them, and the values they are computed from. The
    specification functions measure elapsed time in whole seconds, the durations summed so
    far; the file, like the cursor of `seg_build`, shows it in minutes. */
module Mrc {
  import opened Wrappers
  import opened Numbers

  /** How long, in seconds, each cadence message is shown; the last field of a message line. */
  const MsgDur := "3"

  /** Elapsed seconds as the minutes the file is written in. */
  function Minutes(sec: int): real {
    sec as real / 60.0
  }

  // ---------------------------------------------------------------------------
  // Power and cadence

  /** `zone_pwr`: the middle of a training zone as a fraction of FTP, for zones 1 to 7;
      any other zone number has no power (0). */
  function ZonePower(zone: int): (p: real)
    ensures p > 0.0 <==> 1 <= zone <= 7
    ensures 0.0 <= p <= 1.28
  {
    if zone <= 0 then 0.0
    else if zone == 1 then 0.48
    else if zone == 2 then 0.65
    else if zone == 3 then 0.81
    else if zone == 4 then 0.91
    else if zone == 5 then 1.00
    else if zone == 6 then 1.13
    else if zone == 7 then 1.28
    else 0.0
  }

  /** A higher zone asks for more power. */
  lemma {:induction false} ZonePowerIncreasing(a: int, b: int)
    requires 1 <= a < b <= 7
    ensures ZonePower(a) < ZonePower(b)
    decreases b - a
  {
    assert ZonePower(a) < ZonePower(a + 1) by {
      assert a == 1 || a == 2 || a == 3 || a == 4 || a == 5 || a == 6;
    }
    if a + 1 < b {
      ZonePowerIncreasing(a + 1, b);
    }
  }

  /** The power of an on, off or steady block: the mean of its high and low bound when both
      are positive, otherwise its own power `p`. */
  function Midpoint(p: real, high: real, low: real): (r: real)
    ensures high > 0.0 && low > 0.0 ==> r - low == high - r
    ensures !(high > 0.0 && low > 0.0) ==> r == p
  {
    if high > 0.0 && low > 0.0 then (high + low) / 2.0 else p
  }

  /** The percent-of-FTP column for a power given as a fraction of FTP:
      `"{0:.2f}".format(p * 100)`. */
  function Percent(p: real): string {
    Fixed2(p * 100.0)
  }

  /** The percent column reads back as the power times 100, to within half a hundredth. */
  lemma {:induction false} PercentReadsBack(p: real)
    ensures ParseDecimal(Percent(p)).Some?
    ensures -0.005 <= ParseDecimal(Percent(p)).value - p * 100.0 <= 0.005
  {
    Fixed2Accurate(p * 100.0);
  }

  /** The cadence a message asks for: `any` exactly when the cadence is 0, otherwise
      `str(int(cadnc))`. */
  function CadenceLabel(cadnc: real): (lbl: string)
    ensures lbl == "any" <==> cadnc == 0.0
    ensures NoNewline(lbl)
  {
    if cadnc == 0.0 then "any" else IntToString(Trunc(cadnc))
  }

  /** A numeric label reads back as the cadence with its fraction cut off, not rounded. */
  lemma {:induction false} CadenceLabelReadsBack(cadnc: real)
    requires cadnc != 0.0
    ensures ParseInt(CadenceLabel(cadnc)) == Some(Trunc(cadnc))
    ensures cadnc > 0.0 ==> Trunc(cadnc) as real <= cadnc < Trunc(cadnc) as real + 1.0
  {
    IntToStringParses(Trunc(cadnc));
  }

  // ---------------------------------------------------------------------------
  // Lines of the file

  /** The message `seg_build` queues for a segment starting `t` minutes in, without its newline:
      the start in whole seconds, the cadence, and how long to show it. */
  function MessageText(t: real, cadnc: real): string {
    IntToString(Trunc(t * 60.0)) + " Pedal at " + CadenceLabel(cadnc) + " RPM " + MsgDur
  }

  /** A queued message, newline included, as it goes into the course text. */
  function Message(t: real, cadnc: real): string {
    MessageText(t, cadnc) + "\n"
  }

  /** A message for a segment that starts `sec` seconds in names exactly `sec`. */
  lemma {:induction false} MessageTime(sec: int, cadnc: real)
    ensures MessageText(Minutes(sec), cadnc) == IntToString(sec) + " Pedal at " + CadenceLabel(cadnc) + " RPM " + MsgDur
  {
    assert Trunc(Minutes(sec) * 60.0) == sec by {
      assert Minutes(sec) * 60.0 == sec as real;
    }
  }

  /** A message line holds no line break and starts with the time's first character. */
  lemma {:induction false} MessageTextShape(t: real, cadnc: real)
    ensures NoNewline(MessageText(t, cadnc))
    ensures |MessageText(t, cadnc)| > 0
    ensures MessageText(t, cadnc)[0] == '-' || IsDigit(MessageText(t, cadnc)[0])
  {
    var n := IntToString(Trunc(t * 60.0));
    var c := CadenceLabel(cadnc);
    JoinNoNewline(n, " Pedal at ");
    JoinNoNewline(n + " Pedal at ", c);
    JoinNoNewline(n + " Pedal at " + c, " RPM ");
    JoinNoNewline(n + " Pedal at " + c + " RPM ", MsgDur);
  }

  /** Joining two strings without line breaks makes none, and keeps the first character. */
  lemma {:induction false} JoinNoNewline(a: string, b: string)
    requires NoNewline(a) && NoNewline(b) && |a| > 0
    ensures NoNewline(a + b) && |a + b| > 0 && (a + b)[0] == a[0]
  {
    assert forall i :: 0 <= i < |a + b| ==> (a + b)[i] == if i < |a| then a[i] else b[i - |a|];
  }

  /** A breakpoint of the course data: a time in minutes and the percent text at that time. */
  datatype Breakpoint = Breakpoint(time: real, percent: string)

  /** A breakpoint line without its newline: the time to two decimals, a tab, the percent. */
  function PointText(b: Breakpoint): string {
    Fixed2(b.time) + "\t" + b.percent
  }

  /** A breakpoint line, newline included, as `seg_build` appends it. */
  function PointLine(t: real, percent: string): string {
    PointText(Breakpoint(t, percent)) + "\n"
  }

  lemma {:induction false} PointTextShape(b: Breakpoint)
    requires NoNewline(b.percent)
    ensures NoNewline(PointText(b)) && |PointText(b)| > 0
    ensures PointText(b)[0] == '-' || IsDigit(PointText(b)[0])
  {
    var f := Fixed2(b.time);
    JoinNoNewline(f, "\t");
    JoinNoNewline(f + "\t", b.percent);
  }

  // ---------------------------------------------------------------------------
  // Segments

  /** One `seg_build` call: a duration in seconds, the start and end percent text, a cadence. */
  datatype Step = Step(dur: int, start: string, end: string, cadence: real)

  /** A workout element with its attributes already read: the four tags the converter knows,
      and every other tag, which it skips. Powers are fractions of FTP; cadences are the
      whole numbers `make_num` gives. */
  datatype Segment =
    | Intervals(repeats: int, onDur: int, offDur: int, onPower: real, offPower: real,
                onHigh: real, onLow: real, offHigh: real, offLow: real, cadOn: nat, cadOff: nat)
    | Ramp(dur: int, powerLow: real, powerHigh: real, zone: int, cadence: nat)
    | Steady(dur: int, power: real, powerHigh: real, powerLow: real, zone: int,
             cadence: nat, cadHigh: nat, cadLow: nat)
    | FreeRide(dur: int, cadence: nat)
    | Skipped

  /** `n` copies of the pair `on`, `off`; none when `n` is not positive, as `range(n)`. */
  function RepeatPair(on: Step, off: Step, n: int): seq<Step>
    decreases if n < 0 then 0 else n
  {
    if n <= 0 then [] else RepeatPair(on, off, n - 1) + [on, off]
  }

  /** The `seg_build` calls the dispatch in `main` makes for one segment, in order. */
  function Steps(seg: Segment): seq<Step> {
    match seg
    case Intervals(repeats, onDur, offDur, onPower, offPower, onHigh, onLow, offHigh, offLow, cadOn, cadOff) =>
      var on := Percent(Midpoint(onPower, onHigh, onLow));
      var off := Percent(Midpoint(offPower, offHigh, offLow));
      RepeatPair(Step(onDur, on, on, cadOn as real), Step(offDur, off, off, cadOff as real), repeats)
    case Ramp(dur, powerLow, powerHigh, zone, cadence) =>
      var startPwr := if zone > 0 then ZonePower(zone) else powerLow;
      var endPwr := if zone > 0 then ZonePower(zone) else powerHigh;
      [Step(dur, Percent(startPwr), Percent(endPwr), cadence as real)]
    case Steady(dur, power, powerHigh, powerLow, zone, cadence, cadHigh, cadLow) =>
      var p := if zone > 0 then ZonePower(zone) else Midpoint(power, powerHigh, powerLow);
      var c := if cadHigh > 0 && cadLow > 0 then (cadHigh + cadLow) as real / 2.0 else cadence as real;
      [Step(dur, Percent(p), Percent(p), c)]
    case FreeRide(dur, cadence) =>
      [Step(dur, "40", "40", cadence as real)]
    case Skipped =>
      []
  }

  /** The steps of a run of segments, one segment after the other. */
  function Flatten(segs: seq<Segment>): seq<Step> {
    if segs == [] then [] else Flatten(segs[..|segs| - 1]) + Steps(segs[|segs| - 1])
  }

  /** Total seconds of a run of steps. */
  function SumDur(steps: seq<Step>): int {
    if steps == [] then 0 else SumDur(steps[..|steps| - 1]) + steps[|steps| - 1].dur
  }

  /** How long a segment lasts, worked out from its attributes alone. */
  function SegmentSeconds(seg: Segment): int {
    match seg
    case Intervals(repeats, onDur, offDur, _, _, _, _, _, _, _, _) =>
      (if repeats < 0 then 0 else repeats) * (onDur + offDur)
    case Ramp(dur, _, _, _, _) => dur
    case Steady(dur, _, _, _, _, _, _, _) => dur
    case FreeRide(dur, _) => dur
    case Skipped => 0
  }

  lemma {:induction false} SumDurAppend(a: seq<Step>, b: seq<Step>)
    ensures SumDur(a + b) == SumDur(a) + SumDur(b)
  {
    if b != [] {
      assert (a + b)[..|a + b| - 1] == a + b[..|b| - 1];
      SumDurAppend(a, b[..|b| - 1]);
    } else {
      assert a + b == a;
    }
  }

  lemma {:induction false} RepeatPairShape(on: Step, off: Step, n: int)
    ensures |RepeatPair(on, off, n)| == 2 * (if n < 0 then 0 else n)
    ensures forall i :: 0 <= i < |RepeatPair(on, off, n)| ==> RepeatPair(on, off, n)[i] == if i % 2 == 0 then on else off
    decreases if n < 0 then 0 else n
  {
    if n > 0 {
      RepeatPairShape(on, off, n - 1);
    }
  }

  lemma {:induction false} RepeatPairSeconds(on: Step, off: Step, n: int)
    ensures SumDur(RepeatPair(on, off, n)) == (if n < 0 then 0 else n) * (on.dur + off.dur)
    decreases if n < 0 then 0 else n
  {
    if n > 0 {
      var d := on.dur + off.dur;
      RepeatPairSeconds(on, off, n - 1);
      SumDurAppend(RepeatPair(on, off, n - 1), [on, off]);
      assert SumDur([on]) == on.dur by {
        assert [on][..0] == [];
      }
      assert SumDur([on, off]) == SumDur([on]) + off.dur by {
        assert [on, off][..1] == [on];
      }
      assert (n - 1) * d + d == n * d;
    }
  }

  /** An `IntervalsT` block makes `2 * repeats` steps, on and off by turns, with each power
      the midpoint of its bounds when both are positive; none at all when `repeats <= 0`. */
  lemma {:induction false} IntervalsSteps(seg: Segment)
    requires seg.Intervals?
    ensures |Steps(seg)| == 2 * (if seg.repeats < 0 then 0 else seg.repeats)
    ensures forall i :: 0 <= i < |Steps(seg)| && i % 2 == 0 ==>
      Steps(seg)[i] == Step(seg.onDur, Percent(Midpoint(seg.onPower, seg.onHigh, seg.onLow)),
                            Percent(Midpoint(seg.onPower, seg.onHigh, seg.onLow)), seg.cadOn as real)
    ensures forall i :: 0 <= i < |Steps(seg)| && i % 2 == 1 ==>
      Steps(seg)[i] == Step(seg.offDur, Percent(Midpoint(seg.offPower, seg.offHigh, seg.offLow)),
                            Percent(Midpoint(seg.offPower, seg.offHigh, seg.offLow)), seg.cadOff as real)
  {
    var on := Percent(Midpoint(seg.onPower, seg.onHigh, seg.onLow));
    var off := Percent(Midpoint(seg.offPower, seg.offHigh, seg.offLow));
    RepeatPairShape(Step(seg.onDur, on, on, seg.cadOn as real), Step(seg.offDur, off, off, seg.cadOff as real), seg.repeats);
  }

  /** Every segment but an interval block makes one step; a positive zone flattens a ramp to
      the zone's power and overrides a steady block's power and midpoint, and without a zone a
      steady block takes the midpoint of its bounds over its flat power; a steady block's
      cadence is the midpoint of its cadence bounds when both are positive, and a ramp or free
      ride passes its cadence through; `FreeRide` is `40` at both ends; an unknown tag makes
      none. */
  lemma {:induction false} SingleSteps(seg: Segment)
    requires !seg.Intervals?
    ensures seg.Skipped? <==> Steps(seg) == []
    ensures !seg.Skipped? ==> |Steps(seg)| == 1 && Steps(seg)[0].dur == SegmentSeconds(seg)
    ensures seg.Ramp? && seg.zone > 0 ==> Steps(seg)[0].start == Steps(seg)[0].end == Percent(ZonePower(seg.zone))
    ensures seg.Ramp? && seg.zone <= 0 ==> Steps(seg)[0].start == Percent(seg.powerLow) && Steps(seg)[0].end == Percent(seg.powerHigh)
    ensures seg.Steady? ==> Steps(seg)[0].start == Steps(seg)[0].end
    ensures seg.Steady? && seg.zone > 0 ==> Steps(seg)[0].start == Percent(ZonePower(seg.zone))
    ensures seg.FreeRide? ==> Steps(seg)[0].start == Steps(seg)[0].end == "40"
    ensures seg.Steady? && seg.zone <= 0 ==> Steps(seg)[0].start == Percent(Midpoint(seg.power, seg.powerHigh, seg.powerLow))
    ensures seg.Steady? ==> Steps(seg)[0].cadence == if seg.cadHigh > 0 && seg.cadLow > 0 then (seg.cadHigh + seg.cadLow) as real / 2.0 else seg.cadence as real
    ensures seg.Ramp? || seg.FreeRide? ==> Steps(seg)[0].cadence == seg.cadence as real
  {
  }

  /** The cursor moves on by exactly the segment's length. */
  lemma {:induction false} SegmentAdvance(seg: Segment)
    ensures SumDur(Steps(seg)) == SegmentSeconds(seg)
  {
    match seg
    case Intervals(repeats, onDur, offDur, onPower, offPower, onHigh, onLow, offHigh, offLow, cadOn, cadOff) =>
      var on := Percent(Midpoint(onPower, onHigh, onLow));
      var off := Percent(Midpoint(offPower, offHigh, offLow));
      RepeatPairSeconds(Step(onDur, on, on, cadOn as real), Step(offDur, off, off, cadOff as real), repeats);
    case Skipped =>
    case _ =>
      assert Steps(seg)[..0] == [];
  }

  /** Over a whole workout the cursor ends at the sum of all segment lengths. */
  lemma {:induction false} FlattenSeconds(segs: seq<Segment>)
    ensures SumDur(Flatten(segs)) == TotalSeconds(segs)
  {
    if segs != [] {
      var init := segs[..|segs| - 1];
      FlattenSeconds(init);
      SumDurAppend(Flatten(init), Steps(segs[|segs| - 1]));
      SegmentAdvance(segs[|segs| - 1]);
    }
  }

  function TotalSeconds(segs: seq<Segment>): int {
    if segs == [] then 0 else TotalSeconds(segs[..|segs| - 1]) + SegmentSeconds(segs[|segs| - 1])
  }

  // ---------------------------------------------------------------------------
  // What `seg_build` accumulates over a run of steps, starting from cursor 0

  /** The breakpoints: each step adds its start at the cursor and its end at the cursor plus
      its duration. */
  function Points(steps: seq<Step>): (ps: seq<Breakpoint>)
    ensures |ps| == 2 * |steps|
  {
    if steps == [] then []
    else
      var init := steps[..|steps| - 1];
      var s := steps[|steps| - 1];
      Points(init) + [Breakpoint(Minutes(SumDur(init)), s.start), Breakpoint(Minutes(SumDur(init)) + s.dur as real / 60.0, s.end)]
  }

  /** The message texts, one per step, at the step's start. */
  function MessageTexts(steps: seq<Step>): (ms: seq<string>)
    ensures |ms| == |steps|
  {
    if steps == [] then []
    else
      var init := steps[..|steps| - 1];
      MessageTexts(init) + [MessageText(Minutes(SumDur(init)), steps[|steps| - 1].cadence)]
  }

  /** `f` applied to each element, in order. */
  function MapSeq<A, B>(f: A -> B, s: seq<A>): (r: seq<B>)
    ensures |r| == |s|
  {
    if s == [] then [] else [f(s[0])] + MapSeq(f, s[1..])
  }

  lemma {:induction false} MapAppend<A, B>(f: A -> B, a: seq<A>, b: seq<A>)
    ensures MapSeq(f, a + b) == MapSeq(f, a) + MapSeq(f, b)
  {
    if a == [] {
      assert a + b == b;
    } else {
      assert (a + b)[1..] == a[1..] + b;
      MapAppend(f, a[1..], b);
    }
  }

  lemma {:induction false} MapOne<A, B>(f: A -> B, x: A)
    ensures MapSeq(f, [x]) == [f(x)]
  {
    assert [x][1..] == [];
  }

  lemma {:induction false} MapSeqAt<A, B>(f: A -> B, s: seq<A>, i: nat)
    requires i < |s|
    ensures MapSeq(f, s)[i] == f(s[i])
  {
    if i > 0 {
      MapSeqAt(f, s[1..], i - 1);
    }
  }

  function WithNewline(line: string): string {
    line + "\n"
  }

  /** The list `msg_list` holds: each message text with its newline. */
  function Messages(steps: seq<Step>): seq<string> {
    MapSeq(WithNewline, MessageTexts(steps))
  }

  /** Lines joined with a newline after each. */
  function Unlines(lines: seq<string>): string {
    if lines == [] then "" else lines[0] + "\n" + Unlines(lines[1..])
  }

  /** Strings run together, as `power_data += txt_line` does for each message. */
  function Concat(parts: seq<string>): string {
    if parts == [] then "" else parts[0] + Concat(parts[1..])
  }

  lemma {:induction false} ConcatAppend(a: seq<string>, b: seq<string>)
    ensures Concat(a + b) == Concat(a) + Concat(b)
  {
    if a == [] {
      assert a + b == b;
    } else {
      assert (a + b)[1..] == a[1..] + b;
      ConcatAppend(a[1..], b);
    }
  }

  /** Appending the strings one at a time, in order, builds their concatenation. */
  lemma {:induction false} ConcatSnoc(parts: seq<string>, j: nat)
    requires j < |parts|
    ensures Concat(parts[..j + 1]) == Concat(parts[..j]) + parts[j]
  {
    assert parts[..j + 1] == parts[..j] + [parts[j]];
    ConcatAppend(parts[..j], [parts[j]]);
    assert [parts[j]][1..] == [];
  }

  function PointTexts(ps: seq<Breakpoint>): seq<string> {
    MapSeq(PointText, ps)
  }

  /** The course data section between its markers. */
  function DataText(steps: seq<Step>): string {
    Unlines(PointTexts(Points(steps)))
  }

  lemma {:induction false} UnlinesAppend(a: seq<string>, b: seq<string>)
    ensures Unlines(a + b) == Unlines(a) + Unlines(b)
  {
    if a == [] {
      assert a + b == b;
    } else {
      assert (a + b)[1..] == a[1..] + b;
      UnlinesAppend(a[1..], b);
    }
  }

  /** Lines `f` makes of `ps`, and of two more elements after them. */
  lemma {:induction false} UnlinesMapTwo<A>(f: A -> string, ps: seq<A>, b1: A, b2: A)
    ensures Unlines(MapSeq(f, ps + [b1, b2])) == Unlines(MapSeq(f, ps)) + (f(b1) + "\n") + (f(b2) + "\n")
  {
    var x, y := f(b1), f(b2);
    var u := Unlines(MapSeq(f, ps));
    MapAppend(f, ps, [b1, b2]);
    assert MapSeq(f, [b1, b2]) == [x, y] by {
      assert [b1, b2][1..] == [b2];
      MapOne(f, b2);
    }
    UnlinesAppend(MapSeq(f, ps), [x, y]);
    UnlinesPair(x, y);
    assert u + ((x + "\n") + (y + "\n")) == u + (x + "\n") + (y + "\n");
  }

  lemma {:induction false} UnlinesPair(x: string, y: string)
    ensures Unlines([x, y]) == (x + "\n") + (y + "\n")
  {
    assert [x, y][1..] == [y];
    assert [y][1..] == [];
    assert Unlines([y]) == y + "\n" + Unlines([]);
  }

  /** Running the queued messages together gives the message texts as lines. */
  lemma {:induction false} ConcatMessages(lines: seq<string>)
    ensures Concat(MapSeq(WithNewline, lines)) == Unlines(lines)
  {
    if lines != [] {
      assert MapSeq(WithNewline, lines)[1..] == MapSeq(WithNewline, lines[1..]);
      ConcatMessages(lines[1..]);
    }
  }

  lemma {:induction false} SumDurStep(done: seq<Step>, s: Step)
    ensures SumDur(done + [s]) == SumDur(done) + s.dur
  {
    assert (done + [s])[..|done|] == done;
  }

  lemma {:induction false} PointsStep(done: seq<Step>, s: Step)
    ensures Points(done + [s]) == Points(done) + [Breakpoint(Minutes(SumDur(done)), s.start),
                                                  Breakpoint(Minutes(SumDur(done)) + s.dur as real / 60.0, s.end)]
  {
    assert (done + [s])[..|done|] == done;
  }

  /** One more step adds exactly its two breakpoint lines to the course data. */
  lemma {:induction false} DataStep(done: seq<Step>, s: Step)
    ensures DataText(done + [s]) == DataText(done) + PointLine(Minutes(SumDur(done)), s.start)
                                    + PointLine(Minutes(SumDur(done)) + s.dur as real / 60.0, s.end)
  {
    var b1 := Breakpoint(Minutes(SumDur(done)), s.start);
    var b2 := Breakpoint(Minutes(SumDur(done)) + s.dur as real / 60.0, s.end);
    PointsStep(done, s);
    UnlinesMapTwo(PointText, Points(done), b1, b2);
  }

  /** One more step queues exactly one message, at the cursor before it. */
  lemma {:induction false} MessagesStep(done: seq<Step>, s: Step)
    ensures Messages(done + [s]) == Messages(done) + [Message(Minutes(SumDur(done)), s.cadence)]
  {
    var m := MessageText(Minutes(SumDur(done)), s.cadence);
    assert (done + [s])[..|done|] == done;
    assert MessageTexts(done + [s]) == MessageTexts(done) + [m];
    MapAppend(WithNewline, MessageTexts(done), [m]);
    MapOne(WithNewline, m);
  }

  /** Where step `i`'s breakpoints lie: it starts where steps `0..i` end and ends where steps
      `0..i+1` end, the two lines at positions `2i` and `2i+1`. */
  lemma {:induction false} PointsAt(steps: seq<Step>, i: nat)
    requires i < |steps|
    ensures Points(steps)[2 * i] == Breakpoint(Minutes(SumDur(steps[..i])), steps[i].start)
    ensures Points(steps)[2 * i + 1] == Breakpoint(Minutes(SumDur(steps[..i + 1])), steps[i].end)
  {
    var n := |steps| - 1;
    var init := steps[..n];
    assert steps == init + [steps[n]];
    PointsStep(init, steps[n]);
    if i < n {
      PointsAt(init, i);
      assert steps[..i] == init[..i] && steps[..i + 1] == init[..i + 1];
    } else {
      assert steps[..i + 1] == steps;
      SumDurStep(init, steps[n]);
    }
  }

  /** Where step `i`'s message lies: at position `i`, naming the step's start. */
  lemma {:induction false} MessagesAt(steps: seq<Step>, i: nat)
    requires i < |steps|
    ensures |Messages(steps)| == |steps|
    ensures Messages(steps)[i] == Message(Minutes(SumDur(steps[..i])), steps[i].cadence)
  {
    var n := |steps| - 1;
    var init := steps[..n];
    assert steps == init + [steps[n]];
    MessagesStep(init, steps[n]);
    if i < n {
      MessagesAt(init, i);
      assert steps[..i] == init[..i];
    }
  }

  /** The text of step `i`'s message, at position `i`. */
  lemma {:induction false} MessageTextsAt(steps: seq<Step>, i: nat)
    requires i < |steps|
    ensures MessageTexts(steps)[i] == MessageText(Minutes(SumDur(steps[..i])), steps[i].cadence)
  {
    var n := |steps| - 1;
    var init := steps[..n];
    if i < n {
      MessageTextsAt(init, i);
      assert steps[..i] == init[..i];
    }
  }

  /** Each segment ends where the next one starts: no gap and no overlap in the course data. */
  lemma {:induction false} Continuity(steps: seq<Step>, i: nat)
    requires 0 < i < |steps|
    ensures Points(steps)[2 * i - 1].time == Points(steps)[2 * i].time
  {
    PointsAt(steps, i - 1);
    PointsAt(steps, i);
  }

  /** The course starts at minute 0 and ends at the total duration. */
  lemma {:induction false} Ends(steps: seq<Step>)
    requires steps != []
    ensures Points(steps)[0].time == 0.0
    ensures Points(steps)[2 * |steps| - 1].time == Minutes(SumDur(steps))
  {
    PointsAt(steps, 0);
    PointsAt(steps, |steps| - 1);
    assert steps[..0] == [];
    assert steps[..|steps|] == steps;
  }

  lemma {:induction false} SumDurPrefixMonotone(steps: seq<Step>, a: nat, b: nat)
    requires a <= b <= |steps|
    requires forall i :: 0 <= i < |steps| ==> steps[i].dur >= 0
    ensures SumDur(steps[..a]) <= SumDur(steps[..b])
    decreases b - a
  {
    if a < b {
      SumDurPrefixMonotone(steps, a, b - 1);
      var p := steps[..b];
      assert p[..|p| - 1] == steps[..b - 1];
    }
  }

  /** The time of the breakpoint at position `j`: the end of the first `(j + 1) / 2` steps. */
  lemma {:induction false} PointTime(steps: seq<Step>, j: nat)
    requires j < 2 * |steps|
    ensures (j + 1) / 2 <= |steps|
    ensures Points(steps)[j].time == Minutes(SumDur(steps[..(j + 1) / 2]))
  {
    var m := j / 2;
    PointsAt(steps, m);
    if j % 2 == 0 {
      assert j == 2 * m && (j + 1) / 2 == m;
    } else {
      assert j == 2 * m + 1 && (j + 1) / 2 == m + 1;
    }
  }

  /** With no negative duration, the breakpoint times never go back. */
  lemma {:induction false} PointsMonotone(steps: seq<Step>, j: nat, k: nat)
    requires forall i :: 0 <= i < |steps| ==> steps[i].dur >= 0
    requires j <= k < 2 * |steps|
    ensures Points(steps)[j].time <= Points(steps)[k].time
  {
    PointTime(steps, j);
    PointTime(steps, k);
    SumDurPrefixMonotone(steps, (j + 1) / 2, (k + 1) / 2);
  }

  /** The last breakpoint of a workout falls at the sum of its segments' lengths. */
  lemma {:induction false} CourseLength(segs: seq<Segment>)
    requires Flatten(segs) != []
    ensures Points(Flatten(segs))[2 * |Flatten(segs)| - 1].time == Minutes(TotalSeconds(segs))
  {
    Ends(Flatten(segs));
    FlattenSeconds(segs);
  }

  // ---------------------------------------------------------------------------
  // Line structure

  /** Every percent a step carries is a single line of text. */
  predicate OneLine(steps: seq<Step>) {
    forall i :: 0 <= i < |steps| ==> NoNewline(steps[i].start) && NoNewline(steps[i].end)
  }

  lemma {:induction false} StepsOneLine(seg: Segment)
    ensures OneLine(Steps(seg))
  {
    match seg
    case Intervals(repeats, onDur, offDur, onPower, offPower, onHigh, onLow, offHigh, offLow, cadOn, cadOff) =>
      var on := Percent(Midpoint(onPower, onHigh, onLow));
      var off := Percent(Midpoint(offPower, offHigh, offLow));
      RepeatPairShape(Step(onDur, on, on, cadOn as real), Step(offDur, off, off, cadOff as real), repeats);
    case FreeRide(dur, cadence) =>
      assert NoNewline("40") by {
        assert forall i :: 0 <= i < 2 ==> IsDigit("40"[i]);
      }
    case _ =>
  }

  /** So is every percent of a whole workout. */
  lemma {:induction false} FlattenOneLine(segs: seq<Segment>)
    ensures OneLine(Flatten(segs))
  {
    if segs != [] {
      var a: seq<Step> := Flatten(segs[..|segs| - 1]);
      var b: seq<Step> := Steps(segs[|segs| - 1]);
      FlattenOneLine(segs[..|segs| - 1]);
      StepsOneLine(segs[|segs| - 1]);
      assert Flatten(segs) == a + b;
      forall i | 0 <= i < |a + b|
        ensures NoNewline((a + b)[i].start) && NoNewline((a + b)[i].end)
      {
        if i < |a| {
          assert (a + b)[i] == a[i];
        } else {
          assert (a + b)[i] == b[i - |a|];
        }
      }
    }
  }

  /** Each breakpoint line is one line, and starts with the time's sign or first digit. */
  lemma {:induction false} PointTextAt(steps: seq<Step>, j: nat)
    requires OneLine(steps) && j < 2 * |steps|
    ensures NoNewline(PointTexts(Points(steps))[j]) && |PointTexts(Points(steps))[j]| > 0
    ensures PointTexts(Points(steps))[j][0] == '-' || IsDigit(PointTexts(Points(steps))[j][0])
  {
    var m := j / 2;
    PointsAt(steps, m);
    assert Points(steps)[j].percent == steps[m].start || Points(steps)[j].percent == steps[m].end;
    MapSeqAt(PointText, Points(steps), j);
    PointTextShape(Points(steps)[j]);
  }

  /** Each message line is one line, and starts with the time's sign or first digit. */
  lemma {:induction false} MessageTextAt(steps: seq<Step>, i: nat)
    requires i < |steps|
    ensures NoNewline(MessageTexts(steps)[i]) && |MessageTexts(steps)[i]| > 0
    ensures MessageTexts(steps)[i][0] == '-' || IsDigit(MessageTexts(steps)[i][0])
  {
    MessageTextsAt(steps, i);
    MessageTextShape(Minutes(SumDur(steps[..i])), steps[i].cadence);
  }

  /** Two on and off pairs of 60 and 30 seconds: the breakpoints fall at 0, 1, 1.5, 2.5 and 3
      minutes, each boundary shared by the step before and the step after it. */
  lemma {:induction false} IntervalsExample()
    ensures var seg := Intervals(2, 60, 30, 1.0, 0.5, 0.0, 0.0, 0.0, 0.0, 0, 0);
      |Steps(seg)| == 4 &&
      Points(Steps(seg))[0].time == 0.0 &&
      Points(Steps(seg))[1].time == Points(Steps(seg))[2].time == 1.0 &&
      Points(Steps(seg))[3].time == Points(Steps(seg))[4].time == 1.5 &&
      Points(Steps(seg))[5].time == Points(Steps(seg))[6].time == 2.5 &&
      Points(Steps(seg))[7].time == 3.0
  {
    var seg := Intervals(2, 60, 30, 1.0, 0.5, 0.0, 0.0, 0.0, 0.0, 0, 0);
    var steps := Steps(seg);
    IntervalsSteps(seg);
    assert steps == [steps[0], steps[1], steps[2], steps[3]];
    PairTimes(steps[0], steps[1], steps);
  }

  lemma {:induction false} PairTimes(on: Step, off: Step, steps: seq<Step>)
    requires on.dur == 60 && off.dur == 30 && steps == [on, off, on, off]
    ensures Points(steps)[0].time == 0.0
    ensures Points(steps)[1].time == Points(steps)[2].time == 1.0
    ensures Points(steps)[3].time == Points(steps)[4].time == 1.5
    ensures Points(steps)[5].time == Points(steps)[6].time == 2.5
    ensures Points(steps)[7].time == 3.0
  {
    assert steps[..1] == [on] && [on][..0] == [];
    assert steps[..2] == [on, off] && [on, off][..1] == [on];
    assert steps[..3] == [on, off, on] && [on, off, on][..2] == [on, off];
    assert steps[..4] == steps && steps[..3] == [on, off, on];
    assert SumDur(steps[..1]) == 60 && SumDur(steps[..2]) == 90;
    assert SumDur(steps[..3]) == 150 && SumDur(steps[..4]) == 180;
    PointTime(steps, 0);
    PointTime(steps, 1);
    PointTime(steps, 2);
    PointTime(steps, 3);
    PointTime(steps, 4);
    PointTime(steps, 5);
    PointTime(steps, 6);
    PointTime(steps, 7);
  }
}
