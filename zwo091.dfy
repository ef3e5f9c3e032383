/** How version 0.9.1 of the converter reads a workout element's attributes: whole numbers
    through `int(float(...))`, powers through `float(...)`, cadences through `make_num`, and the
    description through `getattr(..., 'text', None)`. */
module Zwo091 {
  import opened Wrappers
  import opened Numbers
  import opened Mrc
  import opened Workout

  /** `int(float(ch_attr.get(key, dflt)))`: a duration, repeat count or zone. */
  function IntAttr(e: Element, key: string, dflt: string): Result<int, Error> {
    var text := Attr(e, key, dflt);
    match ParseDecimal(text)
    case None => Failure(BadNumber(key, text))
    case Some(x) => Success(Trunc(x))
  }

  /** `float(ch_attr.get(key, dflt))`: a power as a fraction of FTP. */
  function PowerAttr(e: Element, key: string, dflt: string): Result<real, Error> {
    var text := Attr(e, key, dflt);
    match ParseDecimal(text)
    case None => Failure(BadNumber(key, text))
    case Some(x) => Success(x)
  }

  /** `make_num`: the value of a string of digits, and 0 for any other string, so never
      negative and never an error. */
  function MakeNum(s: string): (n: nat)
    ensures IsNumeric(s) ==> n == DigitsValue(s)
    ensures !IsNumeric(s) ==> n == 0
  {
    if IsNumeric(s) then
      DigitsParse(s);
      var x := Trunc(ParseDecimal(s).value);
      assert x == DigitsValue(s);
      x
    else 0
  }

  /** `make_num(ch_attr.get(key, '0'))`. */
  function CadenceAttr(e: Element, key: string): nat {
    MakeNum(Attr(e, key, "0"))
  }

  /** The `if/elif` chain over `child.tag`, with every attribute read in the order the
      branch reads it; the first one that does not parse stops the file. */
  function Decode(e: Element): Result<Segment, Error> {
    if e.tag == "IntervalsT" then
      var repeats :- IntAttr(e, "Repeat", "1");
      var onDur :- IntAttr(e, "OnDuration", "0");
      var offDur :- IntAttr(e, "OffDuration", "0");
      var onPower :- PowerAttr(e, "OnPower", "0");
      var offPower :- PowerAttr(e, "OffPower", "0");
      var onHigh :- PowerAttr(e, "PowerOnHigh", "0");
      var onLow :- PowerAttr(e, "PowerOnLow", "0");
      var offHigh :- PowerAttr(e, "PowerOffHigh", "0");
      var offLow :- PowerAttr(e, "PowerOffLow", "0");
      Success(Intervals(repeats, onDur, offDur, onPower, offPower, onHigh, onLow, offHigh, offLow,
                        CadenceAttr(e, "Cadence"), CadenceAttr(e, "CadenceResting")))
    else if e.tag == "Warmup" || e.tag == "Cooldown" then
      var dur :- IntAttr(e, "Duration", "0");
      var powerLow :- PowerAttr(e, "PowerLow", "0");
      var powerHigh :- PowerAttr(e, "PowerHigh", "0");
      var zone :- IntAttr(e, "Zone", "0");
      Success(Ramp(dur, powerLow, powerHigh, zone, CadenceAttr(e, "Cadence")))
    else if e.tag == "SteadyState" then
      var dur :- IntAttr(e, "Duration", "0");
      var power :- PowerAttr(e, "Power", "0");
      var powerHigh :- PowerAttr(e, "PowerHigh", "0");
      var powerLow :- PowerAttr(e, "PowerLow", "0");
      var zone :- IntAttr(e, "Zone", "0");
      Success(Steady(dur, power, powerHigh, powerLow, zone, CadenceAttr(e, "Cadence"),
                     CadenceAttr(e, "CadenceHigh"), CadenceAttr(e, "CadenceLow")))
    else if e.tag == "FreeRide" then
      var dur :- IntAttr(e, "Duration", "0");
      Success(FreeRide(dur, CadenceAttr(e, "Cadence")))
    else
      Success(Skipped)
  }

  /** `str(getattr(root.find("description"), 'text', None)).replace('\n', ' ')`: a missing
      element and a missing text both read `None`. */
  function Description(d: Option<Option<string>>): string {
    match d
    case Some(Some(text)) => ReplaceNewlines(text)
    case _ => "None"
  }

  // ---------------------------------------------------------------------------
  // Properties

  /** A whole-number attribute is read like `int()` wherever `int()` accepts it. */
  lemma {:induction false} IntAttrWhole(e: Element, key: string, dflt: string)
    requires ParseInt(Attr(e, key, dflt)).Some?
    ensures IntAttr(e, key, dflt) == Success(ParseInt(Attr(e, key, dflt)).value)
  {
    ParseIntThenDecimal(Attr(e, key, dflt));
  }

  /** The text read for the description is always one line, and it is the text itself when
      that was one line already. */
  lemma {:induction false} DescriptionOneLine(d: Option<Option<string>>)
    ensures NoNewline(Description(d))
    ensures d.Some? && d.value.Some? && NoNewline(d.value.value) ==> Description(d) == d.value.value
    ensures d.None? || d.value.None? ==> Description(d) == "None"
  {
    match d
    case Some(Some(text)) =>
      ReplaceNewlinesOneLine(text);
      if NoNewline(text) {
        ReplaceNewlinesKeeps(text);
      }
    case _ =>
  }

  /** A tag the chain does not name becomes a segment that builds nothing. */
  lemma {:induction false} OtherTagSkipped(e: Element)
    requires e.tag !in {"IntervalsT", "Warmup", "Cooldown", "SteadyState", "FreeRide"}
    ensures Decode(e) == Success(Skipped)
    ensures Steps(Skipped) == []
  {
  }

  /** `make_num` on a digit string, the empty string, a negative number and a decimal: the
      digits read as their value, and the other three give 0. */
  lemma MakeNumExamples()
    ensures MakeNum("90") == 90
    ensures MakeNum("") == 0 && MakeNum("-5") == 0 && MakeNum("90.5") == 0
  {
    assert IsNumeric("90") && DigitsValue("90") == 90 by {
      assert "90"[..1] == "9";
    }
    assert !IsNumeric("-5") by {
      assert !IsDigit("-5"[0]);
    }
    assert !IsNumeric("90.5") by {
      assert !IsDigit("90.5"[2]);
    }
  }
}
