/** How version 0.9.0 of the converter reads a workout element: whole numbers through plain
    `int(...)`, so a decimal such as "1.5" stops the file; powers through `float(...)`; cadences
    through a `make_num` built on `int()`; and a description element that must be there. The
    message it queues is spelled differently but reads the same. */
module Zwo090 {
  import opened Wrappers
  import opened Numbers
  import opened Mrc
  import opened Workout
  import Zwo091

  /** Version 0.9.0 keeps the message tail in one constant: `msg_dur = ' 3\n'`. */
  const MsgTail := " 3\n"

  /** The queued message as 0.9.0 assembles it: `... + ' RPM' + msg_dur`. */
  function Message(t: real, cadnc: real): string {
    IntToString(Trunc(t * 60.0)) + " Pedal at " + CadenceLabel(cadnc) + " RPM" + MsgTail
  }

  /** `int(ch_attr.get(key, dflt))`: a duration, repeat count or zone. */
  function IntAttr(e: Element, key: string, dflt: string): Result<int, Error> {
    var text := Attr(e, key, dflt);
    match ParseInt(text)
    case None => Failure(BadNumber(key, text))
    case Some(n) => Success(n)
  }

  /** `make_num`: `int()` of a string of digits, and 0 for any other string. */
  function MakeNum(s: string): (n: nat)
    ensures IsNumeric(s) ==> n == DigitsValue(s)
    ensures !IsNumeric(s) ==> n == 0
  {
    if IsNumeric(s) then
      DigitsParse(s);
      var x := ParseInt(s).value;
      assert x == DigitsValue(s);
      x
    else 0
  }

  function CadenceAttr(e: Element, key: string): nat {
    MakeNum(Attr(e, key, "0"))
  }

  /** The same `if/elif` chain as 0.9.1, with the stricter whole-number reading. */
  function Decode(e: Element): Result<Segment, Error> {
    if e.tag == "IntervalsT" then
      var repeats :- IntAttr(e, "Repeat", "1");
      var onDur :- IntAttr(e, "OnDuration", "0");
      var offDur :- IntAttr(e, "OffDuration", "0");
      var onPower :- Zwo091.PowerAttr(e, "OnPower", "0");
      var offPower :- Zwo091.PowerAttr(e, "OffPower", "0");
      var onHigh :- Zwo091.PowerAttr(e, "PowerOnHigh", "0");
      var onLow :- Zwo091.PowerAttr(e, "PowerOnLow", "0");
      var offHigh :- Zwo091.PowerAttr(e, "PowerOffHigh", "0");
      var offLow :- Zwo091.PowerAttr(e, "PowerOffLow", "0");
      Success(Intervals(repeats, onDur, offDur, onPower, offPower, onHigh, onLow, offHigh, offLow,
                        CadenceAttr(e, "Cadence"), CadenceAttr(e, "CadenceResting")))
    else if e.tag == "Warmup" || e.tag == "Cooldown" then
      var dur :- IntAttr(e, "Duration", "0");
      var powerLow :- Zwo091.PowerAttr(e, "PowerLow", "0");
      var powerHigh :- Zwo091.PowerAttr(e, "PowerHigh", "0");
      var zone :- IntAttr(e, "Zone", "0");
      Success(Ramp(dur, powerLow, powerHigh, zone, CadenceAttr(e, "Cadence")))
    else if e.tag == "SteadyState" then
      var dur :- IntAttr(e, "Duration", "0");
      var power :- Zwo091.PowerAttr(e, "Power", "0");
      var powerHigh :- Zwo091.PowerAttr(e, "PowerHigh", "0");
      var powerLow :- Zwo091.PowerAttr(e, "PowerLow", "0");
      var zone :- IntAttr(e, "Zone", "0");
      Success(Steady(dur, power, powerHigh, powerLow, zone, CadenceAttr(e, "Cadence"),
                     CadenceAttr(e, "CadenceHigh"), CadenceAttr(e, "CadenceLow")))
    else if e.tag == "FreeRide" then
      var dur :- IntAttr(e, "Duration", "0");
      Success(FreeRide(dur, CadenceAttr(e, "Cadence")))
    else
      Success(Skipped)
  }

  /** `str(root.find("description").text).replace('\n', ' ')`: without the element the
      attribute access fails; an element without text reads `None`. */
  function Description(d: Option<Option<string>>): Result<string, Error> {
    match d
    case None => Failure(NoDescription)
    case Some(None) => Success("None")
    case Some(Some(text)) => Success(ReplaceNewlines(text))
  }

  // ---------------------------------------------------------------------------
  // Agreement with 0.9.1

  lemma {:induction false} JoinTail(a: string)
    ensures a + " RPM" + MsgTail == a + " RPM " + MsgDur + "\n"
  {
    assert " RPM" + MsgTail == " RPM " + MsgDur + "\n";
    assert a + " RPM" + MsgTail == a + (" RPM" + MsgTail);
    assert a + " RPM " + MsgDur + "\n" == a + (" RPM " + MsgDur + "\n");
  }

  /** The two spellings of the message give the same text. */
  lemma {:induction false} MessageSame(t: real, cadnc: real)
    ensures Message(t, cadnc) == Mrc.Message(t, cadnc)
  {
    JoinTail(IntToString(Trunc(t * 60.0)) + " Pedal at " + CadenceLabel(cadnc));
  }

  /** Both versions of `make_num` agree on every string. */
  lemma {:induction false} MakeNumSame(s: string)
    ensures MakeNum(s) == Zwo091.MakeNum(s)
  {
    if IsNumeric(s) {
      assert MakeNum(s) == DigitsValue(s);
    }
  }

  /** Whatever 0.9.0 reads as a whole number, 0.9.1 reads the same way. */
  lemma {:induction false} IntAttrAgrees(e: Element, key: string, dflt: string)
    requires IntAttr(e, key, dflt).Success?
    ensures Zwo091.IntAttr(e, key, dflt) == IntAttr(e, key, dflt)
  {
    Zwo091.IntAttrWhole(e, key, dflt);
  }

  lemma {:induction false} CadenceSame(e: Element, key: string)
    ensures CadenceAttr(e, key) == Zwo091.CadenceAttr(e, key)
  {
    MakeNumSame(Attr(e, key, "0"));
  }

  /** Every element 0.9.0 decodes, 0.9.1 decodes to the same segment: the newer reading only
      accepts more. */
  lemma {:induction false} DecodeAgrees(e: Element)
    requires Decode(e).Success?
    ensures Zwo091.Decode(e) == Decode(e)
  {
    if e.tag == "IntervalsT" {
      IntervalsAgree(e);
    } else if e.tag == "Warmup" || e.tag == "Cooldown" {
      RampAgrees(e);
    } else if e.tag == "SteadyState" {
      SteadyAgrees(e);
    } else if e.tag == "FreeRide" {
      IntAttrAgrees(e, "Duration", "0");
      CadenceSame(e, "Cadence");
    }
  }

  lemma {:induction false} IntervalsAgree(e: Element)
    requires e.tag == "IntervalsT" && Decode(e).Success?
    ensures Zwo091.Decode(e) == Decode(e)
  {
    IntAttrAgrees(e, "Repeat", "1");
    IntAttrAgrees(e, "OnDuration", "0");
    IntAttrAgrees(e, "OffDuration", "0");
    CadenceSame(e, "Cadence");
    CadenceSame(e, "CadenceResting");
    var seg := Intervals(IntAttr(e, "Repeat", "1").value, IntAttr(e, "OnDuration", "0").value,
                         IntAttr(e, "OffDuration", "0").value, Zwo091.PowerAttr(e, "OnPower", "0").value,
                         Zwo091.PowerAttr(e, "OffPower", "0").value, Zwo091.PowerAttr(e, "PowerOnHigh", "0").value,
                         Zwo091.PowerAttr(e, "PowerOnLow", "0").value, Zwo091.PowerAttr(e, "PowerOffHigh", "0").value,
                         Zwo091.PowerAttr(e, "PowerOffLow", "0").value, CadenceAttr(e, "Cadence"),
                         CadenceAttr(e, "CadenceResting"));
    assert Decode(e) == Success(seg);
    assert Zwo091.Decode(e) == Success(seg);
  }

  lemma {:induction false} RampAgrees(e: Element)
    requires (e.tag == "Warmup" || e.tag == "Cooldown") && Decode(e).Success?
    ensures Zwo091.Decode(e) == Decode(e)
  {
    IntAttrAgrees(e, "Duration", "0");
    IntAttrAgrees(e, "Zone", "0");
    CadenceSame(e, "Cadence");
  }

  lemma {:induction false} SteadyAgrees(e: Element)
    requires e.tag == "SteadyState" && Decode(e).Success?
    ensures Zwo091.Decode(e) == Decode(e)
  {
    IntAttrAgrees(e, "Duration", "0");
    IntAttrAgrees(e, "Zone", "0");
    CadenceSame(e, "Cadence");
    CadenceSame(e, "CadenceHigh");
    CadenceSame(e, "CadenceLow");
  }

  /** Where 0.9.0 finds a description, 0.9.1 reads the same text. */
  lemma {:induction false} DescriptionAgrees(d: Option<Option<string>>)
    requires Description(d).Success?
    ensures Description(d).value == Zwo091.Description(d)
  {
    match d
    case Some(Some(text)) =>
    case _ =>
  }

  /** A whole number that 0.9.0 rejects but 0.9.1 accepts: "1.5" is cut to 1 by
      `int(float(...))` and refused by `int(...)`. */
  lemma DecimalDuration()
    ensures IntAttr(Element("FreeRide", map["Duration" := "1.5"]), "Duration", "0") == Failure(BadNumber("Duration", "1.5"))
    ensures Zwo091.IntAttr(Element("FreeRide", map["Duration" := "1.5"]), "Duration", "0") == Success(1)
  {
    var e := Element("FreeRide", map["Duration" := "1.5"]);
    assert Attr(e, "Duration", "0") == "1.5";
    assert Strip("1.5") == "1.5" by {
      StripUnchanged("1.5");
    }
    assert SplitSign("1.5") == (false, "1.5");
    assert !IsNumeric("1.5") by {
      assert !IsDigit("1.5"[1]);
    }
    FindFirst("1.5", 'e', 'E', 3);
    FindFirst("1.5", '.', '.', 1);
    assert "1.5"[..1] == "1" && "1.5"[2..] == "5";
    assert Mantissa("1.5") == Some((15, 1)) by {
      assert DigitsValue("1" + "5") == 15 by {
        assert ("1" + "5")[..1] == "1";
      }
    }
    UnsignedMantissaOnly("1.5", 15, 1);
    assert Scale(15.0, -1) == 1.5;
  }
}
