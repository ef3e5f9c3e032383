/** The per-file conversion body of `main`, for either version: reset the state, write the
    course header, decode and build every `workout` child in order, close the data and text
    sections. Any exception while reading an element ends the file with nothing written, so a
    file's result is either its whole `.mrc` text or the first error. */
module Conversion {
  import opened Wrappers
  import opened Numbers
  import opened Mrc
  import opened Workout
  import opened Emitter
  import Zwo091
  import Zwo090

  /** The two versions of the converter: `zwo2erg.py` (0.9.0) and `zwo2erg/zwo2erg.py` (0.9.1). */
  datatype Version = V090 | V091

  function Decode(v: Version, e: Element): Result<Segment, Error> {
    match v
    case V090 => Zwo090.Decode(e)
    case V091 => Zwo091.Decode(e)
  }

  function Description(v: Version, d: Option<Option<string>>): Result<string, Error> {
    match v
    case V090 => Zwo090.Description(d)
    case V091 => Success(Zwo091.Description(d))
  }

  /** The children of `workout` decoded in order; the first one that fails decides the error. */
  function DecodeAll(v: Version, es: seq<Element>): Result<seq<Segment>, Error> {
    if es == [] then Success([])
    else
      var init :- DecodeAll(v, es[..|es| - 1]);
      var last :- Decode(v, es[|es| - 1]);
      Success(init + [last])
  }

  /** The course header, in the pieces `main` appends it in. */
  function Header(desc: string, fName: string): string {
    "[COURSE HEADER]\n" + ("FTP = 200\n" + "VERSION = 2\n" + "UNITS = METRIC\n") + ("DESCRIPTION = " + desc + "\n")
    + ("FILE NAME = " + fName + ".mrc\n") + ("MINUTES  PERCENT\n" + "[END COURSE HEADER]\n" + "[COURSE DATA]\n")
  }

  /** The whole file for a run of `seg_build` calls: header, breakpoint lines, the two markers
      around the messages, the messages, the closing marker. */
  function Output(desc: string, fName: string, steps: seq<Step>): string {
    Header(desc, fName) + DataText(steps) + "[END COURSE DATA]\n" + "[COURSE TEXT]\n" + Concat(Messages(steps))
    + "[END COURSE TEXT]\n"
  }

  /** What converting one parsed file produces. */
  function Convert(v: Version, doc: Document, fName: string): Result<string, Error> {
    var desc :- Description(v, doc.description);
    var elems :- if doc.workout.Some? then Success(doc.workout.value) else Failure(NoWorkout);
    var segs :- DecodeAll(v, elems);
    Success(Output(desc, fName, Flatten(segs)))
  }

  // ---------------------------------------------------------------------------
  // The conversion body

  /** `main` for one file: whatever `acc` held before, the result is the file's conversion,
      and on success the buffer holds exactly the text that is written out. */
  method ConvertFile(acc: Accumulator, v: Version, doc: Document, fName: string) returns (r: Result<string, Error>)
    modifies acc
    ensures r == Convert(v, doc, fName)
    ensures r.Success? ==> acc.powerData == r.value
  {
    acc.Reset();
    var d := Description(v, doc.description);
    if d.Failure? {
      return Failure(d.error);
    }
    var desc := d.value;
    WriteHeader(acc, desc, fName);
    if doc.workout.None? {
      return Failure(NoWorkout);
    }
    var built := EmitElements(acc, v, doc.workout.value);
    if built.Failure? {
      return Failure(built.error);
    }
    ghost var pd := acc.powerData;
    acc.Finish();
    r := Success(acc.powerData);
    Assembled(fName, desc, Flatten(built.value), acc.header, pd, acc.powerData);
    ConvertIs(v, doc, fName, desc, built.value);
  }

  /** The header lines, appended in the pieces `main` writes them in. */
  method WriteHeader(acc: Accumulator, desc: string, fName: string)
    requires acc.Valid() && acc.header == "" && acc.steps == []
    modifies acc
    ensures acc.Valid() && acc.header == Header(desc, fName) && acc.steps == []
  {
    acc.Write("[COURSE HEADER]\n");
    acc.Write("FTP = 200\n" + "VERSION = 2\n" + "UNITS = METRIC\n");
    acc.Write("DESCRIPTION = " + desc + "\n");
    acc.Write("FILE NAME = " + fName + ".mrc\n");
    acc.Write("MINUTES  PERCENT\n" + "[END COURSE HEADER]\n" + "[COURSE DATA]\n");
    HeaderWritten(fName, desc, acc.header);
  }

  lemma {:induction false} ConvertIs(v: Version, doc: Document, fName: string, desc: string, segs: seq<Segment>)
    requires Description(v, doc.description) == Success(desc) && doc.workout.Some?
    requires DecodeAll(v, doc.workout.value) == Success(segs)
    ensures Convert(v, doc, fName) == Success(Output(desc, fName, Flatten(segs)))
  {
  }

  /** The header as written piece by piece, the breakpoint lines after it, and the footer make
      the converted file. */
  lemma {:induction false} Assembled(fName: string, desc: string, steps: seq<Step>, header: string, pd: string, out: string)
    requires header == Header(desc, fName)
    requires pd == header + DataText(steps)
    requires out == pd + "[END COURSE DATA]\n" + "[COURSE TEXT]\n" + Concat(Messages(steps)) + "[END COURSE TEXT]\n"
    ensures out == Output(desc, fName, steps)
  {
  }

  lemma {:induction false} HeaderWritten(fName: string, desc: string, header: string)
    requires header == "" + "[COURSE HEADER]\n" + ("FTP = 200\n" + "VERSION = 2\n" + "UNITS = METRIC\n") + ("DESCRIPTION = " + desc + "\n")
                       + ("FILE NAME = " + fName + ".mrc\n") + ("MINUTES  PERCENT\n" + "[END COURSE HEADER]\n" + "[COURSE DATA]\n")
    ensures header == Header(desc, fName)
  {
  }

  /** `for child in wko_list`: each child decoded and built in turn, stopping at the first one
      that fails; on success the state holds the `seg_build` calls of all of them. */
  method EmitElements(acc: Accumulator, v: Version, elems: seq<Element>) returns (r: Result<seq<Segment>, Error>)
    requires acc.Valid() && acc.steps == []
    modifies acc
    ensures r == DecodeAll(v, elems)
    ensures r.Success? ==> acc.Valid() && acc.header == old(acc.header) && acc.steps == Flatten(r.value)
  {
    var segs: seq<Segment> := [];
    assert elems[..0] == [];
    for k := 0 to |elems|
      invariant acc.Valid() && acc.header == old(acc.header)
      invariant DecodeAll(v, elems[..k]) == Success(segs)
      invariant acc.steps == Flatten(segs)
    {
      var child := Decode(v, elems[k]);
      if child.Failure? {
        DecodeAllStops(v, elems, k);
        return Failure(child.error);
      }
      var seg := child.value;
      acc.EmitSegment(seg);
      DecodeAllStep(v, elems, k, segs, seg);
      FlattenStep(segs, seg);
      segs := segs + [seg];
    }
    assert elems[..|elems|] == elems;
    r := Success(segs);
  }

  lemma {:induction false} DecodeAllStep(v: Version, es: seq<Element>, k: nat, segs: seq<Segment>, seg: Segment)
    requires k < |es| && DecodeAll(v, es[..k]) == Success(segs) && Decode(v, es[k]) == Success(seg)
    ensures DecodeAll(v, es[..k + 1]) == Success(segs + [seg])
  {
    assert es[..k + 1][..k] == es[..k];
  }

  /** An element that fails to decode decides the result of the whole list. */
  lemma {:induction false} DecodeAllStops(v: Version, es: seq<Element>, k: nat)
    requires k < |es| && DecodeAll(v, es[..k]).Success? && Decode(v, es[k]).Failure?
    ensures DecodeAll(v, es) == Failure(Decode(v, es[k]).error)
  {
    assert es[..k + 1][..k] == es[..k];
    FailureStays(v, es, k + 1);
  }

  lemma {:induction false} FailureStays(v: Version, es: seq<Element>, j: nat)
    requires j <= |es| && DecodeAll(v, es[..j]).Failure?
    ensures DecodeAll(v, es) == DecodeAll(v, es[..j])
    decreases |es| - j
  {
    if j < |es| {
      assert es[..j + 1][..j] == es[..j];
      FailureStays(v, es, j + 1);
    } else {
      assert es[..j] == es;
    }
  }

  lemma {:induction false} FlattenStep(segs: seq<Segment>, seg: Segment)
    ensures Flatten(segs + [seg]) == Flatten(segs) + Steps(seg)
  {
    assert (segs + [seg])[..|segs|] == segs;
  }

  // ---------------------------------------------------------------------------
  // What a converted file looks like

  /** Whenever a file converts, its text is the file for the description read and the steps
      of the decoded elements; with `ConvertIs`, this is exactly when each part succeeds. */
  lemma {:induction false} ConvertShape(v: Version, doc: Document, fName: string)
    requires Convert(v, doc, fName).Success?
    ensures Description(v, doc.description).Success? && doc.workout.Some?
    ensures DecodeAll(v, doc.workout.value).Success?
    ensures Convert(v, doc, fName).value
         == Output(Description(v, doc.description).value, fName, Flatten(DecodeAll(v, doc.workout.value).value))
  {
  }

  /** The nine lines of the course header. */
  function HeaderLines(desc: string, fName: string): seq<string> {
    ["[COURSE HEADER]", "FTP = 200", "VERSION = 2", "UNITS = METRIC", "DESCRIPTION = " + desc,
     "FILE NAME = " + fName + ".mrc", "MINUTES  PERCENT", "[END COURSE HEADER]", "[COURSE DATA]"]
  }

  /** The lines of a converted file: the header, two breakpoint lines per step, the two markers
      around the messages, one message per step, the closing marker. */
  function Lines(desc: string, fName: string, steps: seq<Step>): (ls: seq<string>)
    ensures |ls| == 12 + 3 * |steps|
  {
    HeaderLines(desc, fName) + PointTexts(Points(steps)) + ["[END COURSE DATA]", "[COURSE TEXT]"]
    + MessageTexts(steps) + ["[END COURSE TEXT]"]
  }

  lemma {:induction false} Unlines5(a: seq<string>, b: seq<string>, c: seq<string>, d: seq<string>, e: seq<string>)
    ensures Unlines(a + b + c + d + e) == Unlines(a) + Unlines(b) + Unlines(c) + Unlines(d) + Unlines(e)
  {
    UnlinesAppend(a + b + c + d, e);
    UnlinesAppend(a + b + c, d);
    UnlinesAppend(a + b, c);
    UnlinesAppend(a, b);
  }

  lemma {:induction false} UnlinesOne(x: string)
    ensures Unlines([x]) == x + "\n"
  {
    assert [x][1..] == [];
  }

  lemma {:induction false} UnlinesThree(x: string, y: string, z: string)
    ensures Unlines([x, y, z]) == x + "\n" + (y + "\n") + (z + "\n")
  {
    assert [x, y, z][1..] == [y, z];
    UnlinesPair(y, z);
  }

  /** Nine lines joined, grouped the way the header is appended. */
  lemma {:induction false} UnlinesNine(l: seq<string>)
    requires |l| == 9
    ensures Unlines(l) == l[0] + "\n" + (l[1] + "\n" + (l[2] + "\n") + (l[3] + "\n")) + (l[4] + "\n")
                          + (l[5] + "\n") + (l[6] + "\n" + (l[7] + "\n") + (l[8] + "\n"))
  {
    assert l == [l[0]] + [l[1], l[2], l[3]] + [l[4]] + [l[5]] + [l[6], l[7], l[8]];
    Unlines5([l[0]], [l[1], l[2], l[3]], [l[4]], [l[5]], [l[6], l[7], l[8]]);
    UnlinesOne(l[0]);
    UnlinesOne(l[4]);
    UnlinesOne(l[5]);
    UnlinesThree(l[1], l[2], l[3]);
    UnlinesThree(l[6], l[7], l[8]);
  }

  lemma {:induction false} HeaderOpening()
    ensures "[COURSE HEADER]\n" == "[COURSE HEADER]" + "\n"
    ensures "FTP = 200\n" == "FTP = 200" + "\n"
    ensures "VERSION = 2\n" == "VERSION = 2" + "\n"
    ensures "UNITS = METRIC\n" == "UNITS = METRIC" + "\n"
  {
  }

  lemma {:induction false} HeaderClosing()
    ensures "MINUTES  PERCENT\n" == "MINUTES  PERCENT" + "\n"
    ensures "[END COURSE HEADER]\n" == "[END COURSE HEADER]" + "\n"
    ensures "[COURSE DATA]\n" == "[COURSE DATA]" + "\n"
    ensures ".mrc\n" == ".mrc" + "\n"
  {
  }

  lemma {:induction false} HeaderIsLines(desc: string, fName: string)
    ensures Header(desc, fName) == Unlines(HeaderLines(desc, fName))
  {
    UnlinesNine(HeaderLines(desc, fName));
    HeaderOpening();
    HeaderClosing();
    assert "FILE NAME = " + fName + ".mrc\n" == "FILE NAME = " + fName + ".mrc" + "\n";
  }

  lemma {:induction false} FooterLines()
    ensures Unlines(["[END COURSE DATA]", "[COURSE TEXT]"]) == "[END COURSE DATA]\n" + "[COURSE TEXT]\n"
    ensures Unlines(["[END COURSE TEXT]"]) == "[END COURSE TEXT]\n"
  {
    UnlinesPair("[END COURSE DATA]", "[COURSE TEXT]");
    UnlinesOne("[END COURSE TEXT]");
  }

  /** Any header, data lines and message lines, put together with the three markers. */
  lemma {:induction false} LinesGlue(hs: seq<string>, ps: seq<string>, ms: seq<string>)
    ensures Unlines(hs + ps + ["[END COURSE DATA]", "[COURSE TEXT]"] + ms + ["[END COURSE TEXT]"])
         == Unlines(hs) + Unlines(ps) + "[END COURSE DATA]\n" + "[COURSE TEXT]\n" + Concat(MapSeq(WithNewline, ms))
            + "[END COURSE TEXT]\n"
  {
    Unlines5(hs, ps, ["[END COURSE DATA]", "[COURSE TEXT]"], ms, ["[END COURSE TEXT]"]);
    FooterLines();
    ConcatMessages(ms);
  }

  /** The converted file is its lines, each followed by a newline. */
  lemma {:induction false} OutputIsLines(desc: string, fName: string, steps: seq<Step>)
    ensures Output(desc, fName, steps) == Unlines(Lines(desc, fName, steps))
  {
    LinesGlue(HeaderLines(desc, fName), PointTexts(Points(steps)), MessageTexts(steps));
    HeaderIsLines(desc, fName);
  }

  /** A line that opens or closes a section of the course file. */
  predicate IsMarker(line: string) {
    |line| > 0 && line[0] == '['
  }

  /** Every line of a converted file is one line of text, and the lines that start with `[`
      are exactly the six section markers, at the positions the counts of steps put them. */
  lemma {:induction false} LineAt(desc: string, fName: string, steps: seq<Step>, i: nat)
    requires NoNewline(desc) && NoNewline(fName) && OneLine(steps)
    requires i < 12 + 3 * |steps|
    ensures NoNewline(Lines(desc, fName, steps)[i])
    ensures IsMarker(Lines(desc, fName, steps)[i]) <==>
      i == 0 || i == 7 || i == 8 || i == 9 + 2 * |steps| || i == 10 + 2 * |steps| || i == 11 + 3 * |steps|
  {
    var n := |steps|;
    var hs := HeaderLines(desc, fName);
    var ps := PointTexts(Points(steps));
    var ms := MessageTexts(steps);
    var fs := ["[END COURSE DATA]", "[COURSE TEXT]"];
    var ls := Lines(desc, fName, steps);
    assert ls == hs + ps + fs + ms + ["[END COURSE TEXT]"];
    if i < 9 {
      assert ls[i] == hs[i];
      HeaderLineAt(desc, fName, i);
    } else if i < 9 + 2 * n {
      assert ls[i] == ps[i - 9];
      PointTextAt(steps, i - 9);
    } else if i < 11 + 2 * n {
      assert ls[i] == fs[i - 9 - 2 * n];
      MarkerLines();
    } else if i < 11 + 3 * n {
      assert ls[i] == ms[i - 11 - 2 * n];
      MessageTextAt(steps, i - 11 - 2 * n);
    } else {
      assert ls[i] == "[END COURSE TEXT]";
      MarkerLines();
    }
  }

  lemma {:induction false} MarkerLines()
    ensures NoNewline("[COURSE HEADER]") && IsMarker("[COURSE HEADER]")
    ensures NoNewline("[END COURSE HEADER]") && IsMarker("[END COURSE HEADER]")
    ensures NoNewline("[COURSE DATA]") && IsMarker("[COURSE DATA]")
    ensures NoNewline("[END COURSE DATA]") && IsMarker("[END COURSE DATA]")
    ensures NoNewline("[COURSE TEXT]") && IsMarker("[COURSE TEXT]")
    ensures NoNewline("[END COURSE TEXT]") && IsMarker("[END COURSE TEXT]")
  {
  }

  lemma {:induction false} SettingLines()
    ensures NoNewline("FTP = 200") && !IsMarker("FTP = 200")
    ensures NoNewline("VERSION = 2") && !IsMarker("VERSION = 2")
    ensures NoNewline("UNITS = METRIC") && !IsMarker("UNITS = METRIC")
    ensures NoNewline("MINUTES  PERCENT") && !IsMarker("MINUTES  PERCENT")
    ensures NoNewline("DESCRIPTION = ") && NoNewline("FILE NAME = ") && NoNewline(".mrc")
  {
  }

  lemma {:induction false} HeaderLineAt(desc: string, fName: string, i: nat)
    requires NoNewline(desc) && NoNewline(fName) && i < 9
    ensures NoNewline(HeaderLines(desc, fName)[i])
    ensures IsMarker(HeaderLines(desc, fName)[i]) <==> i == 0 || i == 7 || i == 8
  {
    MarkerLines();
    SettingLines();
    if i == 4 {
      JoinNoNewline("DESCRIPTION = ", desc);
    } else if i == 5 {
      JoinNoNewline("FILE NAME = ", fName);
      JoinNoNewline("FILE NAME = " + fName, ".mrc");
    }
  }

  // ---------------------------------------------------------------------------
  // Elements and versions

  /** A child whose tag the chain does not name changes nothing in the file. */
  lemma {:induction false} OtherTagIgnored(v: Version, d: Option<Option<string>>, es: seq<Element>, e: Element, fName: string)
    requires e.tag !in {"IntervalsT", "Warmup", "Cooldown", "SteadyState", "FreeRide"}
    ensures Convert(v, Document(d, Some(es + [e])), fName) == Convert(v, Document(d, Some(es)), fName)
  {
    var es1 := es + [e];
    assert es1[..|es1| - 1] == es && es1[|es1| - 1] == e;
    Zwo091.OtherTagSkipped(e);
    assert Decode(v, e) == Success(Skipped);
    if DecodeAll(v, es).Success? {
      var segs := DecodeAll(v, es).value;
      assert DecodeAll(v, es1) == Success(segs + [Skipped]);
      FlattenStep(segs, Skipped);
      assert Flatten(segs) + [] == Flatten(segs);
    }
  }

  lemma {:induction false} DecodeAllAgrees(es: seq<Element>)
    requires DecodeAll(V090, es).Success?
    ensures DecodeAll(V091, es) == DecodeAll(V090, es)
  {
    if es != [] {
      DecodeAllAgrees(es[..|es| - 1]);
      Zwo090.DecodeAgrees(es[|es| - 1]);
    }
  }

  /** Every file 0.9.0 converts, 0.9.1 converts to the same text. */
  lemma {:induction false} ConvertAgrees(doc: Document, fName: string)
    requires Convert(V090, doc, fName).Success?
    ensures Convert(V091, doc, fName) == Convert(V090, doc, fName)
  {
    Zwo090.DescriptionAgrees(doc.description);
    DecodeAllAgrees(doc.workout.value);
  }

  /** Files that only 0.9.1 converts: one without a description element, and one with a
      decimal duration. */
  lemma {:induction false} VersionsDiffer(fName: string)
    ensures Convert(V090, Document(None, Some([])), fName) == Failure(NoDescription)
    ensures Convert(V091, Document(None, Some([])), fName) == Success(Output("None", fName, []))
    ensures Convert(V090, Document(Some(None), Some([Element("FreeRide", map["Duration" := "1.5"])])), fName)
         == Failure(BadNumber("Duration", "1.5"))
    ensures Convert(V091, Document(Some(None), Some([Element("FreeRide", map["Duration" := "1.5"])])), fName).Success?
  {
    var e := Element("FreeRide", map["Duration" := "1.5"]);
    Zwo090.DecimalDuration();
    assert [e][..0] == [];
    assert Zwo090.Decode(e) == Failure(BadNumber("Duration", "1.5"));
    assert Zwo091.Decode(e).Success?;
  }
}
