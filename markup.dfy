/** The boundary with the HTML parsers (BeautifulSoup for the Python side, the
    `scraper` crate for the Rust side). Parsing and selector matching are
    oracles of the callers; this module fixes only the shape of what they hand
    back: a document is the sequence of its elements in document order, and
    every element carries its tag, its attributes and the text pieces of its
    descendants in document order. */
module Markup {

  datatype Element = Element(tag: string, attrs: map<string, string>, pieces: seq<string>)

  /** All elements of a parsed page, in document order. */
  type Document = seq<Element>

  /** The concatenation of a sequence of strings, in order. */
  function Concat(parts: seq<string>): (r: string)
    ensures |parts| == 0 ==> r == []
    ensures |parts| > 0 ==> |parts[0]| <= |r| && r[..|parts[0]|] == parts[0]
    decreases |parts|
  {
    if |parts| == 0 then [] else parts[0] + Concat(parts[1..])
  }

  /** Concatenating two lists of pieces concatenates their texts. */
  lemma {:induction false} ConcatAppend(a: seq<string>, b: seq<string>)
    ensures Concat(a + b) == Concat(a) + Concat(b)
    decreases |a|
  {
    if |a| == 0 {
      assert a + b == b;
    } else {
      assert (a + b)[1..] == a[1..] + b;
      ConcatAppend(a[1..], b);
    }
  }

  /** The text of an element: all its text pieces joined with nothing between
      them, neither trimmed nor normalised. */
  function Text(e: Element): string
  {
    Concat(e.pieces)
  }
}
