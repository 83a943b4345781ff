/** The view of a parsed XML document that the parsing code relies on. The
    DOM parser itself is not modelled: an `<entry>` element is the list of
    its descendant elements in document order, each with its tag name and
    its text content, so `entry.getElementsByTagName(tag)[0]?.textContent`
    is the text of the first element with that tag, if there is one. */
module Xml {
  import opened JsString

  datatype Element = Element(tag: string, text: string)

  type Entry = seq<Element>

  /** Some element of the entry has the tag. */
  predicate HasTag(e: Entry, tag: string)
    decreases |e|
  {
    e != [] && (e[0].tag == tag || HasTag(e[1..], tag))
  }

  lemma {:induction false} HasTagIffSome(e: Entry, tag: string)
    ensures HasTag(e, tag) <==> exists k :: 0 <= k < |e| && e[k].tag == tag
    decreases |e|
  {
    if e != [] {
      HasTagIffSome(e[1..], tag);
      if exists k :: 0 <= k < |e| && e[k].tag == tag {
        var k :| 0 <= k < |e| && e[k].tag == tag;
        if k > 0 {
          assert e[1..][k - 1].tag == tag;
        }
      }
      if HasTag(e[1..], tag) {
        var k :| 0 <= k < |e[1..]| && e[1..][k].tag == tag;
        assert e[k + 1].tag == tag;
      }
    }
  }

  /** `e.getElementsByTagName(tag)[0]?.textContent`. */
  function FirstText(e: Entry, tag: string): Option<string>
    decreases |e|
  {
    if e == [] then None
    else if e[0].tag == tag then Some(e[0].text)
    else FirstText(e[1..], tag)
  }

  /** Nothing is found exactly when no element has the tag. */
  lemma {:induction false} FirstTextNone(e: Entry, tag: string)
    ensures FirstText(e, tag).None? <==> !HasTag(e, tag)
    decreases |e|
  {
    if e != [] && e[0].tag != tag {
      FirstTextNone(e[1..], tag);
    }
  }

  /** The text found is that of the first element with the tag. */
  lemma {:induction false} FirstTextIsFirst(e: Entry, tag: string)
    requires HasTag(e, tag)
    ensures FirstText(e, tag).Some?
    ensures exists k :: 0 <= k < |e| && e[k].tag == tag && e[k].text == FirstText(e, tag).value
                        && forall j :: 0 <= j < k ==> e[j].tag != tag
    decreases |e|
  {
    FirstTextNone(e, tag);
    if e[0].tag == tag {
      assert e[0].text == FirstText(e, tag).value;
    } else {
      FirstTextNone(e[1..], tag);
      FirstTextIsFirst(e[1..], tag);
      var k :| 0 <= k < |e[1..]| && e[1..][k].tag == tag && e[1..][k].text == FirstText(e[1..], tag).value
               && forall j :: 0 <= j < k ==> e[1..][j].tag != tag;
      assert e[k + 1].tag == tag && e[k + 1].text == FirstText(e, tag).value;
      forall j | 0 <= j < k + 1 ensures e[j].tag != tag {
        if j > 0 {
          assert e[j] == e[1..][j - 1];
        }
      }
    }
  }

  /** `e.getElementsByTagName(tag)[0]?.textContent || fallback`: the first
      text when there is one and it is not empty, the fallback otherwise. */
  function TextOr(e: Entry, tag: string, fallback: string): (r: string)
    ensures FirstText(e, tag).Some? && FirstText(e, tag).value != "" ==> r == FirstText(e, tag).value
    ensures FirstText(e, tag).None? || FirstText(e, tag).value == "" ==> r == fallback
  {
    match FirstText(e, tag)
    case Some(t) => if t == "" then fallback else t
    case None => fallback
  }
}
