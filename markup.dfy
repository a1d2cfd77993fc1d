/**
  The inner markup of a post's tweet-text node, as the HTML parser hands it over,
  and the caption the bot rebuilds from it: strings stay as they are, a top-level
  image stands for its alt text (how emoji are rendered), and any other element
  stands for its text content.
 */
module Markup {
  import opened Wrappers

  /** A node of parsed markup: a string, or an element with its tag name, its alt attribute if it has one, and its children. */
  datatype Node =
    | Text(s: string)
    | Element(name: string, alt: Option<string>, children: seq<Node>)

  predicate IsImage(n: Node) {
    n.Element? && n.name == "img"
  }

  /** The parser's get_text(): all strings below n in document order; attributes, alt included, play no part. */
  function GetText(n: Node): string
    decreases n
  {
    match n
    case Text(s) => s
    case Element(_, _, children) => GetTextAll(children)
  }

  function GetTextAll(ns: seq<Node>): string
    decreases ns
  {
    if ns == [] then "" else GetText(ns[0]) + GetTextAll(ns[1..])
  }

  /** The text of consecutive runs of nodes is their texts one after the other: document order is kept. */
  lemma {:induction false} GetTextAllAppend(a: seq<Node>, b: seq<Node>)
    ensures GetTextAll(a + b) == GetTextAll(a) + GetTextAll(b)
    decreases |a|
  {
    if a == [] {
      assert a + b == b;
    } else {
      assert (a + b)[0] == a[0];
      assert (a + b)[1..] == a[1..] + b;
      GetTextAllAppend(a[1..], b);
    }
  }

  /** An element without children has no text, whatever its alt attribute says. */
  lemma GetTextOfEmptyElement(name: string, alt: Option<string>)
    ensures GetText(Element(name, alt, [])) == ""
  {
  }

  /**
    What one top-level child adds to the caption; None is the KeyError raised by
    reading the alt of an image that has none.
   */
  function Contribution(n: Node): (r: Option<string>)
    ensures !IsImage(n) ==> r == Some(GetText(n))
    ensures IsImage(n) ==> r == n.alt
  {
    match n
    case Text(s) => Some(s)
    case Element(name, alt, children) => if name != "img" then Some(GetTextAll(children)) else alt
  }

  /** The caption: the children's contributions joined in order, failing if any of them fails. */
  function Caption(ns: seq<Node>): (r: Option<string>)
    ensures r.None? <==> exists i :: 0 <= i < |ns| && IsImage(ns[i]) && ns[i].alt.None?
  {
    if ns == [] then Some("")
    else
      match (Contribution(ns[0]), Caption(ns[1..]))
      case (Some(head), Some(tail)) => Some(head + tail)
      case _ => None
  }

  /** Joins two partial captions; the result fails when either part does. */
  function Join(a: Option<string>, b: Option<string>): Option<string> {
    if a.Some? && b.Some? then Some(a.value + b.value) else None
  }

  /** The caption of consecutive runs of children is the join of their captions. */
  lemma {:induction false} CaptionAppend(a: seq<Node>, b: seq<Node>)
    ensures Caption(a + b) == Join(Caption(a), Caption(b))
    decreases |a|
  {
    if a == [] {
      assert a + b == b;
      if Caption(b).Some? {
        assert "" + Caption(b).value == Caption(b).value;
      }
    } else {
      assert (a + b)[0] == a[0];
      assert (a + b)[1..] == a[1..] + b;
      CaptionAppend(a[1..], b);
      var h, x, y := Contribution(a[0]), Caption(a[1..]), Caption(b);
      if h.Some? && x.Some? && y.Some? {
        assert h.value + (x.value + y.value) == (h.value + x.value) + y.value;
      }
    }
  }

  /** One child alone: its own contribution. */
  lemma CaptionSingle(n: Node)
    ensures Caption([n]) == Contribution(n)
  {
    assert [n][1..] == [];
    if Contribution(n).Some? {
      assert Contribution(n).value + "" == Contribution(n).value;
    }
  }

  /**
    With no image among the top-level children the caption is the plain text of the
    whole node: images nested deeper add nothing, their alt included.
   */
  lemma {:induction false} CaptionWithoutImages(ns: seq<Node>)
    requires forall i :: 0 <= i < |ns| ==> !IsImage(ns[i])
    ensures Caption(ns) == Some(GetTextAll(ns))
    decreases |ns|
  {
    if ns != [] {
      CaptionWithoutImages(ns[1..]);
    }
  }

  /** Every part of the caption: a top-level image stands exactly for its alt text. */
  lemma CaptionOfImage(before: seq<Node>, alt: string, children: seq<Node>, after: seq<Node>)
    requires Caption(before).Some? && Caption(after).Some?
    ensures Caption(before + [Element("img", Some(alt), children)] + after)
         == Some(Caption(before).value + alt + Caption(after).value)
  {
    var img := Element("img", Some(alt), children);
    CaptionAppend(before + [img], after);
    CaptionAppend(before, [img]);
    CaptionSingle(img);
  }
}
