/**
 * An abstract XML element tree, as ElementTree presents a parsed document:
 * a tag, an attribute dictionary, the optional text before the first child,
 * and the ordered child elements.  Only the lookups the codec uses are here.
 */
module Xml {
  import opened Wrappers

  datatype Element = Element(tag: string, attrs: map<string, string>, text: Option<string>, children: seq<Element>)

  /** An element with no attributes, no text and no children. */
  function Empty(tag: string): Element {
    Element(tag, map[], None, [])
  }

  /** An element holding only a text. */
  function Leaf(tag: string, text: string): Element {
    Element(tag, map[], Some(text), [])
  }

  /** `elem.get(key, default)` */
  function Get(e: Element, key: string, default: string): string {
    if key in e.attrs then e.attrs[key] else default
  }

  /** `elem.get(key)`, which yields None for a missing attribute. */
  function GetOpt(e: Element, key: string): Option<string> {
    if key in e.attrs then Some(e.attrs[key]) else None
  }

  /** The first element of `s` whose tag is `tag`. */
  function FirstWithTag(s: seq<Element>, tag: string): Option<Element> {
    if s == [] then None
    else if s[0].tag == tag then Some(s[0])
    else FirstWithTag(s[1..], tag)
  }

  /** There is a first element with the tag exactly when some element has it, and it is the earliest one. */
  lemma {:induction false} FirstWithTagFacts(s: seq<Element>, tag: string)
    ensures FirstWithTag(s, tag).Some? <==> exists i :: 0 <= i < |s| && s[i].tag == tag
    ensures FirstWithTag(s, tag).Some? ==>
              exists i :: 0 <= i < |s| && s[i] == FirstWithTag(s, tag).value && s[i].tag == tag
                          && forall j :: 0 <= j < i ==> s[j].tag != tag
  {
    if s != [] && s[0].tag != tag {
      FirstWithTagFacts(s[1..], tag);
      assert forall i :: 1 <= i < |s| ==> s[i] == s[1..][i - 1];
      if FirstWithTag(s, tag).Some? {
        var i :| 0 <= i < |s[1..]| && s[1..][i] == FirstWithTag(s, tag).value && s[1..][i].tag == tag
                 && forall j :: 0 <= j < i ==> s[1..][j].tag != tag;
        assert s[i + 1] == s[1..][i];
        assert forall j :: 1 <= j < i + 1 ==> s[j] == s[1..][j - 1];
      }
    }
  }

  /** The first match in a concatenation is the first match in its front part, if that has one. */
  lemma {:induction false} FirstWithTagAppend(a: seq<Element>, b: seq<Element>, tag: string)
    ensures FirstWithTag(a + b, tag) == if FirstWithTag(a, tag).Some? then FirstWithTag(a, tag) else FirstWithTag(b, tag)
  {
    if a != [] {
      assert (a + b)[1..] == a[1..] + b;
      FirstWithTagAppend(a[1..], b, tag);
    } else {
      assert a + b == b;
    }
  }

  /** `elem.find(tag)`: the first direct child with that tag. */
  function Find(e: Element, tag: string): Option<Element> {
    FirstWithTag(e.children, tag)
  }

  /** The elements of `s` whose tag is `tag`, in order. */
  function WithTag(s: seq<Element>, tag: string): (r: seq<Element>)
    ensures |r| <= |s|
  {
    if s == [] then []
    else (if s[0].tag == tag then [s[0]] else []) + WithTag(s[1..], tag)
  }

  /** The elements kept are exactly those of `s` with the tag. */
  lemma {:induction false} WithTagMembers(s: seq<Element>, tag: string)
    ensures forall x :: x in WithTag(s, tag) <==> x in s && x.tag == tag
  {
    if s != [] {
      WithTagMembers(s[1..], tag);
      assert forall x :: x in s <==> x == s[0] || x in s[1..];
    }
  }

  /** Filtering a concatenation filters each part. */
  lemma {:induction false} WithTagAppend(a: seq<Element>, b: seq<Element>, tag: string)
    ensures WithTag(a + b, tag) == WithTag(a, tag) + WithTag(b, tag)
  {
    if a != [] {
      assert (a + b)[1..] == a[1..] + b;
      WithTagAppend(a[1..], b, tag);
    } else {
      assert a + b == b;
    }
  }

  /** A sequence whose elements all have the tag is kept whole. */
  lemma {:induction false} WithTagAll(s: seq<Element>, tag: string)
    requires forall i :: 0 <= i < |s| ==> s[i].tag == tag
    ensures WithTag(s, tag) == s
  {
    if s != [] {
      assert forall i :: 0 <= i < |s[1..]| ==> s[1..][i] == s[i + 1];
      WithTagAll(s[1..], tag);
    }
  }

  /** The tags of the elements, in order. */
  function TagsOf(s: seq<Element>): (r: seq<string>)
    ensures |r| == |s|
    ensures forall i :: 0 <= i < |s| ==> r[i] == s[i].tag
  {
    if s == [] then [] else TagsOf(s[..|s| - 1]) + [s[|s| - 1].tag]
  }

  lemma TagsOfAppend(a: seq<Element>, b: seq<Element>)
    ensures TagsOf(a + b) == TagsOf(a) + TagsOf(b)
  {
    assert forall i :: 0 <= i < |a + b| ==> TagsOf(a + b)[i] == (TagsOf(a) + TagsOf(b))[i];
  }

  /** A tag that none of the elements has is filtered to nothing. */
  lemma WithTagNotInTags(s: seq<Element>, tag: string)
    requires tag !in TagsOf(s)
    ensures WithTag(s, tag) == []
  {
    forall x | x in s ensures x.tag != tag {
      var i :| 0 <= i < |s| && s[i] == x;
      assert TagsOf(s)[i] == x.tag;
    }
    WithTagAbsent(s, tag);
  }

  /** `elem.findall(tag)`: the direct children with that tag, in document order. */
  function FindAll(e: Element, tag: string): seq<Element> {
    WithTag(e.children, tag)
  }

  /** Every element below `e` in document (pre-)order, `e` itself excluded: what `.//` ranges over. */
  function Descendants(e: Element): seq<Element>
    decreases e, 1
  {
    Forest(e.children)
  }

  /** Each tree of `cs` followed by its descendants, tree after tree. */
  function Forest(cs: seq<Element>): seq<Element>
    decreases cs, 0
  {
    if cs == [] then [] else [cs[0]] + Descendants(cs[0]) + Forest(cs[1..])
  }

  /** Every child of `e` is one of its descendants. */
  lemma ChildrenAreDescendants(e: Element)
    ensures forall c :: c in e.children ==> c in Descendants(e)
  {
    RootsInForest(e.children);
  }

  lemma {:induction false} RootsInForest(cs: seq<Element>)
    ensures forall c :: c in cs ==> c in Forest(cs)
  {
    if cs != [] {
      RootsInForest(cs[1..]);
      assert forall c :: c in cs ==> c == cs[0] || c in cs[1..];
    }
  }

  /** `elem.findall('.//tag')`: every descendant with that tag, in document order. */
  function FindAllDeep(e: Element, tag: string): seq<Element> {
    WithTag(Descendants(e), tag)
  }

  /** The elements of `s` with tag `tag` whose attribute `key` equals `value`. */
  function WithTagAndAttr(s: seq<Element>, tag: string, key: string, value: string): seq<Element> {
    if s == [] then []
    else (if s[0].tag == tag && key in s[0].attrs && s[0].attrs[key] == value then [s[0]] else [])
         + WithTagAndAttr(s[1..], tag, key, value)
  }

  /** The elements kept are exactly those of `s` with the tag and the attribute value. */
  lemma {:induction false} WithTagAndAttrMembers(s: seq<Element>, tag: string, key: string, value: string)
    ensures forall x :: x in WithTagAndAttr(s, tag, key, value) <==>
                        x in s && x.tag == tag && key in x.attrs && x.attrs[key] == value
  {
    if s != [] {
      WithTagAndAttrMembers(s[1..], tag, key, value);
      assert forall x :: x in s <==> x == s[0] || x in s[1..];
    }
  }

  /** `elem.find(".//tag[@key='value']")`: the first such descendant. */
  function FindDeepWithAttr(e: Element, tag: string, key: string, value: string): Option<Element> {
    var hits := WithTagAndAttr(Descendants(e), tag, key, value);
    if hits == [] then None else Some(hits[0])
  }

  /** Every tag in the tree rooted at `e` (its own included) is in `tags`. */
  predicate TagsWithin(e: Element, tags: set<string>)
    decreases e, 1
  {
    e.tag in tags && ForestTagsWithin(e.children, tags)
  }

  predicate ForestTagsWithin(cs: seq<Element>, tags: set<string>)
    decreases cs, 0
  {
    cs == [] || (TagsWithin(cs[0], tags) && ForestTagsWithin(cs[1..], tags))
  }

  /** A forest is within `tags` when each of its trees is. */
  lemma {:induction false} ForestTagsAll(cs: seq<Element>, tags: set<string>)
    requires forall i :: 0 <= i < |cs| ==> TagsWithin(cs[i], tags)
    ensures ForestTagsWithin(cs, tags)
  {
    if cs != [] {
      assert forall i :: 0 <= i < |cs[1..]| ==> cs[1..][i] == cs[i + 1];
      ForestTagsAll(cs[1..], tags);
    }
  }

  /** In a tree whose tags are all within `tags`, every descendant has a tag in `tags`. */
  lemma {:induction false} DescendantTags(e: Element, tags: set<string>)
    requires TagsWithin(e, tags)
    ensures forall d :: d in Descendants(e) ==> d.tag in tags
    decreases e, 1
  {
    ForestTags(e.children, tags);
  }

  lemma {:induction false} ForestTags(cs: seq<Element>, tags: set<string>)
    requires ForestTagsWithin(cs, tags)
    ensures forall d :: d in Forest(cs) ==> d.tag in tags
    decreases cs, 0
  {
    if cs != [] {
      DescendantTags(cs[0], tags);
      ForestTags(cs[1..], tags);
    }
  }

  /** Hence a search for a tag outside `tags` finds nothing. */
  lemma NoDeepMatch(e: Element, tags: set<string>, tag: string)
    requires TagsWithin(e, tags) && tag !in tags
    ensures FindAllDeep(e, tag) == []
  {
    DescendantTags(e, tags);
    WithTagAbsent(Descendants(e), tag);
  }

  lemma {:induction false} WithTagAbsent(s: seq<Element>, tag: string)
    requires forall x :: x in s ==> x.tag != tag
    ensures WithTag(s, tag) == []
  {
    if s != [] {
      assert s[0] in s;
      WithTagAbsent(s[1..], tag);
    }
  }
}
