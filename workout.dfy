/** A Zwift workout file as ElementTree hands it to the converter: the optional
    `description` element, the optional `workout` element and its children, each a tag with
    its attribute dictionary. Parsing the XML itself is not part of this model. */
module Workout {
  import opened Wrappers
  import opened Numbers

  /** One child of `workout`: `child.tag` and `child.attrib`. */
  datatype Element = Element(tag: string, attrib: map<string, string>)

  /** The parts of the document root the converter looks at. `description` is `None` when
      there is no such element and `Some(None)` when the element has no text. */
  datatype Document = Document(description: Option<Option<string>>, workout: Option<seq<Element>>)

  /** Why the conversion of a file stops: an attribute `int()` or `float()` rejects, a
      missing `description` element (`None.text`), a missing `workout` element (`list(None)`). */
  datatype Error = BadNumber(key: string, text: string) | NoDescription | NoWorkout

  /** `ch_attr.get(key, dflt)`. */
  function Attr(e: Element, key: string, dflt: string): (v: string)
    ensures key in e.attrib ==> v == e.attrib[key]
    ensures key !in e.attrib ==> v == dflt
  {
    if key in e.attrib then e.attrib[key] else dflt
  }

  /** `str.replace('\n', ' ')`. */
  function ReplaceNewlines(s: string): (r: string)
    ensures |r| == |s|
  {
    if s == [] then [] else [if s[0] == '\n' then ' ' else s[0]] + ReplaceNewlines(s[1..])
  }

  /** Each newline becomes a space and every other character stays where it was; so the
      result is one line. */
  lemma {:induction false} ReplaceNewlinesAt(s: string, i: nat)
    requires i < |s|
    ensures ReplaceNewlines(s)[i] == if s[i] == '\n' then ' ' else s[i]
    ensures ReplaceNewlines(s)[i] != '\n'
  {
    if i > 0 {
      ReplaceNewlinesAt(s[1..], i - 1);
    }
  }

  lemma {:induction false} ReplaceNewlinesOneLine(s: string)
    ensures NoNewline(ReplaceNewlines(s))
  {
    forall i | 0 <= i < |ReplaceNewlines(s)|
      ensures ReplaceNewlines(s)[i] != '\n'
    {
      ReplaceNewlinesAt(s, i);
    }
  }

  /** Text that is already one line is left as it is. */
  lemma {:induction false} ReplaceNewlinesKeeps(s: string)
    requires NoNewline(s)
    ensures ReplaceNewlines(s) == s
  {
    if s != [] {
      assert s[0] != '\n';
      assert NoNewline(s[1..]) by {
        assert forall i :: 0 <= i < |s[1..]| ==> s[1..][i] == s[i + 1];
      }
      ReplaceNewlinesKeeps(s[1..]);
    }
  }
}
