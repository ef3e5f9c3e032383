/** The converter's per-file state and the code that updates it: the text buffer
    `power_data`, the message list `msg_list` and the time cursor `t_start_seg`, which
    `seg_build` extends and the tag dispatch in `main` drives. */
module Emitter {
  import opened Numbers
  import opened Mrc

  lemma {:induction false} Regroup(a: string, b: string, c: string, d: string)
    ensures a + b + c + d == a + (b + c + d)
  {
  }

  /** The buffer after one more step's two lines is the prefix and the longer run's data. */
  lemma {:induction false} DataHolds(prefix: string, done: seq<Step>, s: Step, t0: real, pd0: string, pd: string)
    requires t0 == Minutes(SumDur(done)) && pd0 == prefix + DataText(done)
    requires pd == pd0 + PointLine(t0, s.start) + PointLine(t0 + s.dur as real / 60.0, s.end)
    ensures pd == prefix + DataText(done + [s])
  {
    DataStep(done, s);
    Regroup(prefix, DataText(done), PointLine(t0, s.start), PointLine(t0 + s.dur as real / 60.0, s.end));
  }

  class Accumulator {
    /** The course file written so far. */
    var powerData: string
    /** The cadence messages queued so far, each ending in a newline. */
    var msgList: seq<string>
    /** The time cursor, in minutes. */
    var tStartSeg: real
    /** What was written before the first segment of the file. */
    ghost var header: string
    /** The `seg_build` calls made since then. */
    ghost var steps: seq<Step>

    /** The buffer is the header and the breakpoint lines of `steps`, the list holds their
        messages and the cursor is at their end. */
    ghost predicate Valid()
      reads this
    {
      powerData == header + DataText(steps) && msgList == Messages(steps) && tStartSeg == Minutes(SumDur(steps))
    }

    constructor ()
      ensures powerData == "" && msgList == [] && tStartSeg == 0.0
      ensures Valid() && header == "" && steps == []
    {
      powerData := "";
      msgList := [];
      tStartSeg := 0.0;
      header := "";
      steps := [];
    }

    /** The start of each file: empty buffer, no messages, cursor at 0. */
    method Reset()
      modifies this
      ensures powerData == "" && msgList == [] && tStartSeg == 0.0
      ensures Valid() && header == "" && steps == []
    {
      powerData := "";
      msgList := [];
      tStartSeg := 0.0;
      header := "";
      steps := [];
    }

    /** Header text added to the buffer before any segment. */
    method Write(text: string)
      requires Valid() && steps == []
      modifies this
      ensures powerData == old(powerData) + text && msgList == old(msgList) && tStartSeg == old(tStartSeg)
      ensures Valid() && header == old(header) + text && steps == []
    {
      powerData := powerData + text;
      header := header + text;
      assert DataText([]) == "";
    }

    /** `seg_build`: a breakpoint line at the cursor with the start percent, one cadence
        message at the cursor, then a line at the cursor moved on by the duration with the end
        percent; the cursor ends there. */
    method SegBuild(segDur: int, percStartPwr: string, percEndPwr: string, cadnc: real)
      modifies this
      ensures powerData == old(powerData) + PointLine(old(tStartSeg), percStartPwr)
                           + PointLine(old(tStartSeg) + segDur as real / 60.0, percEndPwr)
      ensures msgList == old(msgList) + [Message(old(tStartSeg), cadnc)]
      ensures tStartSeg == old(tStartSeg) + segDur as real / 60.0
      ensures header == old(header) && steps == old(steps)
    {
      var segStart := PointLine(tStartSeg, percStartPwr);
      msgList := msgList + [Message(tStartSeg, cadnc)];
      powerData := powerData + segStart;
      var tEndSeg := tStartSeg + segDur as real / 60.0;
      var segEnd := PointLine(tEndSeg, percEndPwr);
      powerData := powerData + segEnd;
      tStartSeg := tEndSeg;
    }

    /** `seg_build` on the fields of one step. */
    method EmitStep(s: Step)
      requires Valid()
      modifies this
      ensures Valid() && header == old(header) && steps == old(steps) + [s]
    {
      SegBuild(s.dur, s.start, s.end, s.cadence);
      DataHolds(header, steps, s, old(tStartSeg), old(powerData), powerData);
      MessagesStep(steps, s);
      SumDurStep(steps, s);
      steps := steps + [s];
    }

    /** The closing part of the file: the data end marker, the text start marker, every
        queued message in order, the text end marker. */
    method Finish()
      modifies this
      ensures powerData == old(powerData) + "[END COURSE DATA]\n" + "[COURSE TEXT]\n" + Concat(old(msgList))
                           + "[END COURSE TEXT]\n"
      ensures msgList == old(msgList) && tStartSeg == old(tStartSeg)
      ensures header == old(header) && steps == old(steps)
    {
      powerData := powerData + "[END COURSE DATA]\n";
      powerData := powerData + "[COURSE TEXT]\n";
      ghost var base := powerData;
      assert msgList[..0] == [];
      for j := 0 to |msgList|
        invariant msgList == old(msgList) && tStartSeg == old(tStartSeg)
        invariant powerData == base + Concat(msgList[..j])
        invariant header == old(header) && steps == old(steps)
      {
        ConcatSnoc(msgList, j);
        powerData := powerData + msgList[j];
      }
      assert msgList[..|msgList|] == msgList;
      powerData := powerData + "[END COURSE TEXT]\n";
    }

    /** One workout element, dispatched on its tag as `main` does. */
    method EmitSegment(seg: Segment)
      requires Valid()
      modifies this
      ensures Valid() && header == old(header) && steps == old(steps) + Steps(seg)
    {
      match seg
      case Intervals(_, _, _, _, _, _, _, _, _, _, _) =>
        EmitIntervals(seg);
      case Ramp(dur, powerLow, powerHigh, zone, cadence) =>
        EmitRamp(seg);
      case Steady(dur, power, powerHigh, powerLow, zone, cadence, cadHigh, cadLow) =>
        EmitSteady(seg);
      case FreeRide(dur, cadence) =>
        var st := Step(dur, "40", "40", cadence as real);
        assert Steps(seg) == [st];
        EmitStep(st);
      case Skipped =>
        assert old(steps) + Steps(seg) == old(steps);
    }

    /** The `IntervalsT` branch: `repeats` on and off pairs. */
    method EmitIntervals(seg: Segment)
      requires seg.Intervals? && Valid()
      modifies this
      ensures Valid() && header == old(header) && steps == old(steps) + Steps(seg)
    {
      var itvlOnPwr := seg.onPower;
      var itvlOffPwr := seg.offPower;
      if seg.onHigh > 0.0 && seg.onLow > 0.0 {
        itvlOnPwr := (seg.onHigh + seg.onLow) / 2.0;
      }
      if seg.offHigh > 0.0 && seg.offLow > 0.0 {
        itvlOffPwr := (seg.offHigh + seg.offLow) / 2.0;
      }
      var onPct := Percent(itvlOnPwr);
      var offPct := Percent(itvlOffPwr);
      var on := Step(seg.onDur, onPct, onPct, seg.cadOn as real);
      var off := Step(seg.offDur, offPct, offPct, seg.cadOff as real);
      assert itvlOnPwr == Midpoint(seg.onPower, seg.onHigh, seg.onLow);
      assert itvlOffPwr == Midpoint(seg.offPower, seg.offHigh, seg.offLow);
      assert Steps(seg) == RepeatPair(on, off, seg.repeats);
      ghost var s0 := steps;
      RepeatPairZero(s0, on, off);
      if seg.repeats > 0 {
        for i := 0 to seg.repeats
          invariant Valid() && header == old(header) && steps == s0 + RepeatPair(on, off, i)
        {
          EmitPair(on, off, s0, i);
        }
      } else {
        assert RepeatPair(on, off, seg.repeats) == RepeatPair(on, off, 0);
      }
    }

    /** One pass of the `IntervalsT` loop: the on step, then the off step, after `i` earlier
        passes. */
    method EmitPair(on: Step, off: Step, ghost s0: seq<Step>, ghost i: nat)
      requires Valid() && steps == s0 + RepeatPair(on, off, i)
      modifies this
      ensures Valid() && header == old(header) && steps == s0 + RepeatPair(on, off, i + 1)
    {
      EmitStep(on);
      EmitStep(off);
      RepeatPairNext(s0, on, off, i);
    }

    /** The `Warmup` and `Cooldown` branch: one ramp, flattened by a positive zone. */
    method EmitRamp(seg: Segment)
      requires seg.Ramp? && Valid()
      modifies this
      ensures Valid() && header == old(header) && steps == old(steps) + Steps(seg)
    {
      var startPwr := seg.powerLow;
      var endPwr := seg.powerHigh;
      if seg.zone > 0 {
        startPwr := ZonePower(seg.zone);
        endPwr := startPwr;
      }
      var st := Step(seg.dur, Percent(startPwr), Percent(endPwr), seg.cadence as real);
      assert Steps(seg) == [st];
      EmitStep(st);
    }

    /** The `SteadyState` branch: one flat step, zone before midpoint before power. */
    method EmitSteady(seg: Segment)
      requires seg.Steady? && Valid()
      modifies this
      ensures Valid() && header == old(header) && steps == old(steps) + Steps(seg)
    {
      var ssPwr := seg.power;
      if seg.powerHigh > 0.0 && seg.powerLow > 0.0 {
        ssPwr := (seg.powerHigh + seg.powerLow) / 2.0;
      }
      if seg.zone > 0 {
        ssPwr := ZonePower(seg.zone);
      }
      var cadnc := seg.cadence as real;
      if seg.cadHigh > 0 && seg.cadLow > 0 {
        cadnc := (seg.cadHigh + seg.cadLow) as real / 2.0;
      }
      assert ssPwr == if seg.zone > 0 then ZonePower(seg.zone) else Midpoint(seg.power, seg.powerHigh, seg.powerLow);
      assert cadnc == if seg.cadHigh > 0 && seg.cadLow > 0 then (seg.cadHigh + seg.cadLow) as real / 2.0 else seg.cadence as real;
      var pct := Percent(ssPwr);
      var st := Step(seg.dur, pct, pct, cadnc);
      assert Steps(seg) == [st];
      EmitStep(st);
    }
  }

  lemma {:induction false} RepeatPairZero(a: seq<Step>, on: Step, off: Step)
    ensures a == a + RepeatPair(on, off, 0)
  {
    assert a + [] == a;
  }

  /** One more on and off pair extends the run by exactly those two steps. */
  lemma {:induction false} RepeatPairNext(a: seq<Step>, on: Step, off: Step, i: nat)
    ensures a + RepeatPair(on, off, i) + [on] + [off] == a + RepeatPair(on, off, i + 1)
  {
    var r := RepeatPair(on, off, i);
    assert RepeatPair(on, off, i + 1) == r + [on, off];
    assert a + r + [on] + [off] == a + (r + [on, off]);
  }
}
