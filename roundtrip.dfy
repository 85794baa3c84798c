/**
 * The encoders against the reader: a record the full encoder writes passes
 * the structural gate exactly when the draft has a data group (and otherwise
 * fails with that one error), and the metadata, apparatus and bibliography
 * the decoder reads back from the written tree are the draft's.
 */
module RoundTrip {
  import opened Wrappers
  import opened Xml
  import opened PyText
  import opened Draft
  import opened Encoder
  import EncoderFacts
  import Validator
  import Decoder

  // ---------------------------------------------------------------- no data group hides in the front part

  /** Every tree of `s` has its tags within `tags`. */
  predicate AllWithin(s: seq<Element>, tags: set<string>) {
    forall i :: 0 <= i < |s| ==> TagsWithin(s[i], tags)
  }

  lemma AllWithinAppend(a: seq<Element>, b: seq<Element>, tags: set<string>)
    requires AllWithin(a, tags) && AllWithin(b, tags)
    ensures AllWithin(a + b, tags)
  {
    assert forall i :: |a| <= i < |a + b| ==> (a + b)[i] == b[i - |a|];
  }

  /** An element whose tag and whose children are within `tags`. */
  lemma NodeWithin(e: Element, tags: set<string>)
    requires e.tag in tags && AllWithin(e.children, tags)
    ensures TagsWithin(e, tags)
  {
    ForestTagsAll(e.children, tags);
  }

  /** The tags the full encoder writes outside the data groups. */
  const FrontTagSet: set<string> := {
    "experiment", "fileAuthor", "fileDOI", "fileVersion", "major", "minor", "experimentType", "apparatus", "kind",
    "bibliographyLink", "details", "author", "title", "journal", "year", "referenceDOI",
    "commonProperties", "property", "value", "component", "speciesLink", "amount"}

  lemma HeaderWithin(info: Option<BasicInfo>, tags: set<string>)
    requires {"fileAuthor", "fileDOI", "fileVersion", "major", "minor", "experimentType", "apparatus", "kind"} <= tags
    ensures AllWithin(Header(info), tags)
  {
    var version := Node("fileVersion", map[], [Leaf("major", "1"), Leaf("minor", "0")]);
    NodeWithin(version, tags);
    var kind := if info.Some? then info.value.reactor else "JSR";
    NodeWithin(Node("apparatus", map[], [Leaf("kind", kind)]), tags);
  }

  lemma BibliographyWithin(info: Option<BasicInfo>, tags: set<string>)
    requires {"bibliographyLink", "details", "author", "title", "journal", "year", "referenceDOI"} <= tags
    ensures AllWithin(BibliographyLink(info), tags)
  {
    if BibliographyLink(info) != [] {
      var ref := info.value.reference;
      var details := Node("details", map[], DetailsChildren(ref));
      NodeWithin(details, tags);
      NodeWithin(BibliographyLink(info)[0], tags);
    }
  }

  lemma ValuePropertyWithin(attrs: map<string, string>, text: string, tags: set<string>)
    requires "property" in tags && "value" in tags
    ensures TagsWithin(ValueProperty(attrs, text), tags)
  {
    NodeWithin(ValueProperty(attrs, text), tags);
  }

  lemma ConditionsWithin(fmt: real -> string, c: Conditions, tags: set<string>)
    requires "property" in tags && "value" in tags
    ensures AllWithin(ConditionProperties(fmt, c), tags)
  {
    var cp := ConditionProperties(fmt, c);
    NodeWithin(cp[0], tags);
    NodeWithin(cp[1], tags);
  }

  lemma ReactorWithin(fmt: real -> string, ps: seq<(string, real)>, tags: set<string>)
    requires "property" in tags && "value" in tags
    ensures AllWithin(ReactorProperties(fmt, ps), tags)
  {
    var rp := ReactorProperties(fmt, ps);
    EncoderFacts.ReactorPropertiesFacts(fmt, ps);
    forall i | 0 <= i < |rp| ensures TagsWithin(rp[i], tags) {
      assert rp[i] in rp;
      var j :| 0 <= j < |ps| && ps[j].1 > 0.0 && rp[i] == ReactorProperty(fmt, ps[j].0, ps[j].1);
      ValuePropertyWithin(map["name" := UnderscoreToSpace(ps[j].0), "sourcetype" := "reported"], fmt(ps[j].1), tags);
    }
  }

  lemma OptionalWithin(fmt: real -> string, show: OptValue -> string, opts: seq<(string, OptValue)>, tags: set<string>)
    requires "property" in tags && "value" in tags
    ensures AllWithin(OptionalProperties(fmt, show, opts), tags)
  {
    var op := OptionalProperties(fmt, show, opts);
    EncoderFacts.OptionalPropertiesFacts(fmt, show, opts);
    forall i | 0 <= i < |op| ensures TagsWithin(op[i], tags) {
      assert op[i] in op;
      var j :| 0 <= j < |opts| && opts[j].0 in EmittedOptional && op[i] == OptionalProperty(fmt, show, opts[j].0, opts[j].1);
      ValuePropertyWithin(map["name" := UnderscoreToSpace(opts[j].0), "sourcetype" := "reported"],
                          OptionalText(fmt, show, opts[j].1), tags);
    }
  }

  /** A component holding a species link and an amount. */
  lemma ComponentShapeWithin(c: Element, tags: set<string>)
    requires c.tag == "component" && |c.children| == 2
    requires c.children[0].tag == "speciesLink" && c.children[0].children == []
    requires c.children[1].tag == "amount" && c.children[1].children == []
    requires {"component", "speciesLink", "amount"} <= tags
    ensures TagsWithin(c, tags)
  {
    NodeWithin(c.children[0], tags);
    NodeWithin(c.children[1], tags);
    NodeWithin(c, tags);
  }

  lemma CompositionWithin(fmt: real -> string, es: seq<CompEntry>, tags: set<string>)
    requires {"property", "component", "speciesLink", "amount"} <= tags
    ensures AllWithin(CompositionProperty(fmt, es), tags)
  {
    if es != [] {
      var cs := Components(fmt, es);
      forall i | 0 <= i < |cs| ensures TagsWithin(cs[i], tags) {
        ComponentShapeWithin(cs[i], tags);
      }
      NodeWithin(CompositionProperty(fmt, es)[0], tags);
    }
  }

  lemma CommonChildrenWithin(fmt: real -> string, show: OptValue -> string, d: Draft, tags: set<string>)
    requires {"property", "value", "component", "speciesLink", "amount"} <= tags
    ensures AllWithin(CommonChildren(fmt, show, d), tags)
  {
    var op := OptionalProperties(fmt, show, d.optional);
    OptionalWithin(fmt, show, d.optional, tags);
    if d.conditions.Some? {
      var c := d.conditions.value;
      var cp := ConditionProperties(fmt, c);
      var rp := ReactorProperties(fmt, c.reactorParams);
      var mp := CompositionProperty(fmt, c.composition);
      ConditionsWithin(fmt, c, tags);
      ReactorWithin(fmt, c.reactorParams, tags);
      CompositionWithin(fmt, c.composition, tags);
      AllWithinAppend(cp, rp, tags);
      AllWithinAppend(cp + rp, op, tags);
      AllWithinAppend(cp + rp + op, mp, tags);
      assert CommonChildren(fmt, show, d) == cp + rp + op + mp;
    } else {
      assert CommonChildren(fmt, show, d) == [] + op + [];
    }
  }

  /** Without data groups, every tag of the encoded tree is one of `FrontTagSet`. */
  lemma TreeWithinFront(fmt: real -> string, show: OptValue -> string, d: Draft)
    requires d.dataGroups == []
    ensures TagsWithin(EncodeTree(fmt, show, d), FrontTagSet)
  {
    var tags := FrontTagSet;
    var cp := Node("commonProperties", map[], CommonChildren(fmt, show, d));
    HeaderWithin(d.basicInfo, tags);
    BibliographyWithin(d.basicInfo, tags);
    CommonChildrenWithin(fmt, show, d, tags);
    NodeWithin(cp, tags);
    AllWithinAppend(Header(d.basicInfo), BibliographyLink(d.basicInfo), tags);
    AllWithinAppend(Header(d.basicInfo) + BibliographyLink(d.basicInfo), [cp], tags);
    assert EncodeTree(fmt, show, d).children == Prologue(fmt, show, d) + [];
    NodeWithin(EncodeTree(fmt, show, d), tags);
  }

  // ---------------------------------------------------------------- the structural gate

  /** An element whose tag occurs among the tags of `s` is found. */
  lemma FoundByTag(s: seq<Element>, tag: string)
    requires tag in TagsOf(s)
    ensures FirstWithTag(s, tag).Some?
  {
    var i :| 0 <= i < |TagsOf(s)| && TagsOf(s)[i] == tag;
    FirstWithTagFacts(s, tag);
  }

  /** A direct child with the tag is found by the deep search. */
  lemma ChildFoundDeep(root: Element, tag: string)
    requires WithTag(root.children, tag) != []
    ensures FindAllDeep(root, tag) != []
  {
    var c := WithTag(root.children, tag)[0];
    WithTagMembers(root.children, tag);
    ChildrenAreDescendants(root);
    WithTagMembers(Descendants(root), tag);
    assert c in FindAllDeep(root, tag);
  }

  lemma RequiredInFront(info: Option<BasicInfo>, n: nat)
    ensures forall t :: t in Validator.RequiredElements ==> t in EncoderFacts.FrontTags(info) + EncoderFacts.Repeat("dataGroup", n)
  {
  }

  /** The written record has the three required elements. */
  lemma RequiredPresent(fmt: real -> string, show: OptValue -> string, d: Draft)
    ensures Validator.MissingOf(EncodeTree(fmt, show, d), Validator.RequiredElements) == []
  {
    var root := EncodeTree(fmt, show, d);
    EncoderFacts.RootChildren(fmt, show, d);
    RequiredInFront(d.basicInfo, |d.dataGroups|);
    forall t | t in Validator.RequiredElements ensures Find(root, t).Some? {
      FoundByTag(root.children, t);
    }
    Validator.MissingOfEmpty(root, Validator.RequiredElements);
  }

  /** A data group is found at some depth exactly when the draft has one. */
  lemma DeepGroups(fmt: real -> string, show: OptValue -> string, d: Draft)
    ensures FindAllDeep(EncodeTree(fmt, show, d), "dataGroup") == [] <==> d.dataGroups == []
  {
    var root := EncodeTree(fmt, show, d);
    if d.dataGroups == [] {
      TreeWithinFront(fmt, show, d);
      assert "dataGroup" !in FrontTagSet;
      NoDeepMatch(root, FrontTagSet, "dataGroup");
    } else {
      EncoderFacts.RootChildren(fmt, show, d);
      ChildFoundDeep(root, "dataGroup");
    }
  }

  /**
   * The written record passes the structural gate exactly when the draft
   * has a data group, and otherwise reports only the missing data group.
   */
  lemma EncodedStructure(fmt: real -> string, show: OptValue -> string, d: Draft)
    ensures Validator.StructureErrors(EncodeTree(fmt, show, d))
            == if d.dataGroups == [] then [Validator.NoDataGroups] else []
  {
    RequiredPresent(fmt, show, d);
    DeepGroups(fmt, show, d);
  }

  // ---------------------------------------------------------------- metadata read back

  /** What text fields of the basic information must be for `strip()` to give them back. */
  predicate TrimmedInfo(info: Option<BasicInfo>) {
    info.Some? ==> Trimmed(info.value.author) && Trimmed(info.value.doi)
                   && Trimmed(info.value.expType) && Trimmed(info.value.reactor)
  }

  /** An element whose tag does not occur among the tags of `s` is not found. */
  lemma NotFoundByTag(s: seq<Element>, tag: string)
    requires tag !in TagsOf(s)
    ensures FirstWithTag(s, tag).None?
  {
    FirstWithTagFacts(s, tag);
  }

  /** The element at `k` is the first with its tag when no earlier one has it. */
  lemma FoundAt(s: seq<Element>, k: nat, tag: string)
    requires k < |s| && s[k].tag == tag
    requires forall j :: 0 <= j < k ==> s[j].tag != tag
    ensures FirstWithTag(s, tag) == Some(s[k])
  {
    FirstWithTagFacts(s, tag);
    var i :| 0 <= i < |s| && s[i] == FirstWithTag(s, tag).value && s[i].tag == tag
             && forall j :: 0 <= j < i ==> s[j].tag != tag;
  }

  /** A child found among the header is the one the root's lookup finds. */
  lemma FoundInHeader(fmt: real -> string, show: OptValue -> string, d: Draft, tag: string)
    requires FirstWithTag(Header(d.basicInfo), tag).Some?
    ensures Find(EncodeTree(fmt, show, d), tag) == FirstWithTag(Header(d.basicInfo), tag)
  {
    var hs := Header(d.basicInfo);
    var cp := Node("commonProperties", map[], CommonChildren(fmt, show, d));
    var tail := BibliographyLink(d.basicInfo) + [cp];
    var p := Prologue(fmt, show, d);
    assert p == hs + tail;
    FirstWithTagAppend(hs, tail, tag);
    FirstWithTagAppend(p, GroupElements(fmt, d.dataGroups), tag);
  }

  /** The index of a header element after the optional DOI. */
  function AfterDoi(info: Option<BasicInfo>, k: nat): nat {
    if info.Some? && info.value.doi != "" then k + 1 else k
  }

  /** A tag that is none of the root's children's tags is not found under the root. */
  lemma NotAmongRootTags(fmt: real -> string, show: OptValue -> string, d: Draft, tag: string)
    requires tag !in EncoderFacts.FrontTags(d.basicInfo) && tag != "dataGroup"
    ensures Find(EncodeTree(fmt, show, d), tag).None?
  {
    var cs := EncodeTree(fmt, show, d).children;
    EncoderFacts.RootChildren(fmt, show, d);
    NotFoundByTag(cs, tag);
  }

  /**
   * The file metadata read back from the written record: the draft's
   * author and DOI (the author `Unknown` and no DOI without basic
   * information), version 1.0, and no publication dates.
   */
  lemma MetadataRead(fmt: real -> string, show: OptValue -> string, d: Draft)
    requires TrimmedInfo(d.basicInfo)
    ensures var info := d.basicInfo;
            Decoder.MetadataOf(EncodeTree(fmt, show, d))
            == Decoder.Metadata(if info.Some? then info.value.author else "Unknown",
                                if info.Some? then info.value.doi else "",
                                Some(Decoder.Version("1", "0")), "", "")
  {
    AuthorRead(fmt, show, d);
    DoiRead(fmt, show, d);
    VersionRead(fmt, show, d);
    DatesRead(fmt, show, d);
  }

  lemma AuthorRead(fmt: real -> string, show: OptValue -> string, d: Draft)
    requires TrimmedInfo(d.basicInfo)
    ensures Decoder.GetText(EncodeTree(fmt, show, d), "fileAuthor")
            == if d.basicInfo.Some? then d.basicInfo.value.author else "Unknown"
  {
    var author := if d.basicInfo.Some? then d.basicInfo.value.author else "Unknown";
    HeaderAuthor(d.basicInfo);
    FoundInHeader(fmt, show, d, "fileAuthor");
    DefaultsTrimmed();
    Decoder.GetTextOfTrimmed(EncodeTree(fmt, show, d), "fileAuthor", author);
  }

  /** The defaults written without basic information have no surrounding whitespace. */
  lemma DefaultsTrimmed()
    ensures Trimmed("Unknown") && Trimmed("JSR")
  {
  }

  lemma DoiRead(fmt: real -> string, show: OptValue -> string, d: Draft)
    requires TrimmedInfo(d.basicInfo)
    ensures Decoder.GetText(EncodeTree(fmt, show, d), "fileDOI") == if d.basicInfo.Some? then d.basicInfo.value.doi else ""
  {
    var info := d.basicInfo;
    if info.Some? && info.value.doi != "" {
      HeaderDoi(info);
      FoundInHeader(fmt, show, d, "fileDOI");
      Decoder.GetTextOfTrimmed(EncodeTree(fmt, show, d), "fileDOI", info.value.doi);
    } else {
      assert "fileDOI" !in EncoderFacts.FrontTags(info);
      NotAmongRootTags(fmt, show, d, "fileDOI");
    }
  }

  /** The version element written, and the numbers read from it. */
  function WrittenVersion(): Element {
    Node("fileVersion", map[], [Leaf("major", "1"), Leaf("minor", "0")])
  }

  /** The text of a child that is the first with its tag and has no surrounding whitespace is read back. */
  lemma ChildTextRead(e: Element, k: nat, tag: string, t: string)
    requires k < |e.children| && e.children[k] == Leaf(tag, t) && Trimmed(t)
    requires forall j :: 0 <= j < k ==> e.children[j].tag != tag
    ensures Decoder.GetText(e, tag) == t
  {
    FoundAt(e.children, k, tag);
    Decoder.GetTextOfTrimmed(e, tag, t);
  }

  /** Both texts of an element with two differently tagged leaves are read back. */
  lemma TwoLeavesRead(tag: string, ta: string, a: string, tb: string, b: string)
    requires ta != tb && Trimmed(a) && Trimmed(b)
    ensures Decoder.GetText(Node(tag, map[], [Leaf(ta, a), Leaf(tb, b)]), ta) == a
    ensures Decoder.GetText(Node(tag, map[], [Leaf(ta, a), Leaf(tb, b)]), tb) == b
  {
    var e := Node(tag, map[], [Leaf(ta, a), Leaf(tb, b)]);
    ChildTextRead(e, 0, ta, a);
    ChildTextRead(e, 1, tb, b);
  }

  lemma VersionNumbers()
    ensures Decoder.GetText(WrittenVersion(), "major") == "1" && Decoder.GetText(WrittenVersion(), "minor") == "0"
  {
    assert Trimmed("1") && Trimmed("0");
    TwoLeavesRead("fileVersion", "major", "1", "minor", "0");
  }

  lemma VersionRead(fmt: real -> string, show: OptValue -> string, d: Draft)
    ensures Decoder.MetadataOf(EncodeTree(fmt, show, d)).version == Some(Decoder.Version("1", "0"))
  {
    HeaderVersion(d.basicInfo);
    FoundInHeader(fmt, show, d, "fileVersion");
    VersionNumbers();
  }

  lemma DatesRead(fmt: real -> string, show: OptValue -> string, d: Draft)
    ensures Decoder.GetText(EncodeTree(fmt, show, d), "firstPublicationDate") == ""
    ensures Decoder.GetText(EncodeTree(fmt, show, d), "lastModificationDate") == ""
  {
    assert "firstPublicationDate" !in EncoderFacts.FrontTags(d.basicInfo);
    NotAmongRootTags(fmt, show, d, "firstPublicationDate");
    assert "lastModificationDate" !in EncoderFacts.FrontTags(d.basicInfo);
    NotAmongRootTags(fmt, show, d, "lastModificationDate");
  }

  /** The experiment type read back: the draft's, or none without basic information. */
  lemma TypeRead(fmt: real -> string, show: OptValue -> string, d: Draft)
    requires TrimmedInfo(d.basicInfo)
    ensures var info := d.basicInfo;
            Decoder.GetText(EncodeTree(fmt, show, d), "experimentType") == (if info.Some? then info.value.expType else "")
  {
    var info := d.basicInfo;
    HeaderType(info);
    FoundInHeader(fmt, show, d, "experimentType");
    Decoder.GetTextOfTrimmed(EncodeTree(fmt, show, d), "experimentType", if info.Some? then info.value.expType else "");
  }

  /** The apparatus read back: the draft's reactor as its kind (`JSR` without basic information) and an empty `type` attribute. */
  lemma ApparatusRead(fmt: real -> string, show: OptValue -> string, d: Draft)
    requires TrimmedInfo(d.basicInfo)
    ensures var info := d.basicInfo;
            Decoder.ApparatusOf(EncodeTree(fmt, show, d))
            == Some(Decoder.Apparatus(if info.Some? then info.value.reactor else "JSR", ""))
  {
    var info := d.basicInfo;
    var kind := if info.Some? then info.value.reactor else "JSR";
    HeaderApparatus(info);
    FoundInHeader(fmt, show, d, "apparatus");
    DefaultsTrimmed();
    ApparatusOfKind(EncodeTree(fmt, show, d), kind);
  }

  /** The header's author: the draft's, or `Unknown` without basic information. */
  lemma HeaderAuthor(info: Option<BasicInfo>)
    ensures FirstWithTag(Header(info), "fileAuthor")
            == Some(Leaf("fileAuthor", if info.Some? then info.value.author else "Unknown"))
  {
    FoundAt(Header(info), 0, "fileAuthor");
  }

  /** The header's DOI, when the draft gives one. */
  lemma HeaderDoi(info: Option<BasicInfo>)
    requires info.Some? && info.value.doi != ""
    ensures FirstWithTag(Header(info), "fileDOI") == Some(Leaf("fileDOI", info.value.doi))
  {
    FoundAt(Header(info), 1, "fileDOI");
  }

  /** The header's version element. */
  lemma HeaderVersion(info: Option<BasicInfo>)
    ensures FirstWithTag(Header(info), "fileVersion") == Some(WrittenVersion())
  {
    FoundAt(Header(info), AfterDoi(info, 1), "fileVersion");
  }

  /** The header's experiment type: the draft's, or none without basic information. */
  lemma HeaderType(info: Option<BasicInfo>)
    ensures FirstWithTag(Header(info), "experimentType")
            == Some(Leaf("experimentType", if info.Some? then info.value.expType else ""))
  {
    FoundAt(Header(info), AfterDoi(info, 2), "experimentType");
  }

  /** The header's `apparatus` element holds the reactor as its kind. */
  lemma HeaderApparatus(info: Option<BasicInfo>)
    ensures FirstWithTag(Header(info), "apparatus")
            == Some(Node("apparatus", map[], [Leaf("kind", if info.Some? then info.value.reactor else "JSR")]))
  {
    FoundAt(Header(info), AfterDoi(info, 3), "apparatus");
  }

  /** An `apparatus` element holding only its kind reads back as that kind with an empty `type` attribute. */
  lemma ApparatusOfKind(root: Element, kind: string)
    requires Find(root, "apparatus") == Some(Node("apparatus", map[], [Leaf("kind", kind)]))
    requires Trimmed(kind)
    ensures Decoder.ApparatusOf(root) == Some(Decoder.Apparatus(kind, ""))
  {
    ChildTextRead(Node("apparatus", map[], [Leaf("kind", kind)]), 0, "kind", kind);
  }

  // ---------------------------------------------------------------- bibliography read back

  /** What the reference's text fields must be for `strip()` to give them back. */
  predicate TrimmedReference(ref: Reference) {
    Trimmed(ref.author) && Trimmed(ref.title) && Trimmed(ref.journal) && Trimmed(ref.doi)
  }

  /** The year as read back: its decimal text, or nothing for the year 0, which is not written. */
  function YearText(year: int): string {
    if year != 0 then IntToString(year) else ""
  }

  lemma DetailsTags(ref: Reference)
    ensures TagsOf(DetailsChildren(ref))
            == ["author", "title"] + (if ref.journal != "" then ["journal"] else []) + (if ref.year != 0 then ["year"] else [])
  {
    var cs := DetailsChildren(ref);
    assert forall i :: 0 <= i < |cs| ==> TagsOf(cs)[i] == cs[i].tag;
  }

  /** Whatever whitespace surrounds it, the author is read back stripped. */
  lemma DetailsAuthor(ref: Reference)
    ensures Decoder.GetText(Node("details", map[], DetailsChildren(ref)), "author") == Strip(ref.author)
  {
    var e := Node("details", map[], DetailsChildren(ref));
    FoundAt(e.children, 0, "author");
    StripEmptyIffBlank(ref.author);
  }

  lemma DetailsTitle(ref: Reference)
    requires Trimmed(ref.title)
    ensures Decoder.GetText(Node("details", map[], DetailsChildren(ref)), "title") == ref.title
  {
    var e := Node("details", map[], DetailsChildren(ref));
    assert e.children[0].tag != "title";
    ChildTextRead(e, 1, "title", ref.title);
  }

  lemma DetailsJournal(ref: Reference)
    requires Trimmed(ref.journal)
    ensures Decoder.GetText(Node("details", map[], DetailsChildren(ref)), "journal") == ref.journal
  {
    var e := Node("details", map[], DetailsChildren(ref));
    if ref.journal != "" {
      ChildTextRead(e, 2, "journal", ref.journal);
    } else {
      DetailsTags(ref);
      NotFoundByTag(e.children, "journal");
    }
  }

  lemma DetailsYear(ref: Reference)
    ensures Decoder.GetText(Node("details", map[], DetailsChildren(ref)), "year") == YearText(ref.year)
  {
    var e := Node("details", map[], DetailsChildren(ref));
    DetailsTags(ref);
    if ref.year != 0 {
      IntToStringTrimmed(ref.year);
      var k := if ref.journal != "" then 3 else 2;
      assert forall j :: 0 <= j < k ==> e.children[j].tag == TagsOf(e.children)[j];
      ChildTextRead(e, k, "year", IntToString(ref.year));
    } else {
      NotFoundByTag(e.children, "year");
    }
  }

  /** The details read back are the reference's author, journal, title and year. */
  lemma DetailsRead(ref: Reference)
    requires TrimmedReference(ref)
    ensures var e := Node("details", map[], DetailsChildren(ref));
            Decoder.Details(Decoder.GetText(e, "author"), Decoder.GetText(e, "journal"),
                            Decoder.GetText(e, "title"), Decoder.GetText(e, "year"))
            == Decoder.Details(ref.author, ref.journal, ref.title, YearText(ref.year))
  {
    DetailsAuthor(ref);
    StripTrimmed(ref.author);
    DetailsTitle(ref);
    DetailsJournal(ref);
    DetailsYear(ref);
  }

  /** The bibliography link is the child after the header. */
  lemma BibliographyFound(fmt: real -> string, show: OptValue -> string, d: Draft)
    requires EncoderFacts.HasReference(d.basicInfo)
    ensures Find(EncodeTree(fmt, show, d), "bibliographyLink") == Some(BibliographyLink(d.basicInfo)[0])
  {
    var info := d.basicInfo;
    var hs := Header(info);
    var cp := Node("commonProperties", map[], CommonChildren(fmt, show, d));
    var tail := BibliographyLink(info) + [cp];
    var p := Prologue(fmt, show, d);
    EncoderFacts.HeaderTags(info);
    NotFoundByTag(hs, "bibliographyLink");
    assert p == hs + tail;
    FirstWithTagAppend(hs, tail, "bibliographyLink");
    FirstWithTagAppend(p, GroupElements(fmt, d.dataGroups), "bibliographyLink");
    assert tail[0] == BibliographyLink(info)[0];
  }

  /** What is read from the bibliography link's own children. */
  lemma LinkChildrenRead(info: Option<BasicInfo>)
    requires EncoderFacts.HasReference(info) && Trimmed(info.value.reference.doi)
    ensures var b := BibliographyLink(info)[0];
            Find(b, "details") == Some(Node("details", map[], DetailsChildren(info.value.reference)))
            && Decoder.GetText(b, "description") == ""
            && Decoder.GetText(b, "referenceDOI") == info.value.reference.doi
  {
    var ref := info.value.reference;
    var b := BibliographyLink(info)[0];
    EncoderFacts.BibliographyPresence(info);
    FoundAt(b.children, 0, "details");
    NotFoundByTag(b.children, "description");
    if ref.doi != "" {
      ChildTextRead(b, 1, "referenceDOI", ref.doi);
    } else {
      NotFoundByTag(b.children, "referenceDOI");
    }
  }

  /**
   * The bibliography read back: none unless the reference names an author
   * and a title; otherwise no description, the reference's DOI and its
   * details.
   */
  lemma BibliographyRead(fmt: real -> string, show: OptValue -> string, d: Draft)
    requires d.basicInfo.Some? ==> TrimmedReference(d.basicInfo.value.reference)
    ensures Decoder.BibliographyOf(EncodeTree(fmt, show, d))
            == if EncoderFacts.HasReference(d.basicInfo) then
                 var ref := d.basicInfo.value.reference;
                 Some(Decoder.Bibliography("", ref.doi, Some(Decoder.Details(ref.author, ref.journal, ref.title, YearText(ref.year)))))
               else None
  {
    if EncoderFacts.HasReference(d.basicInfo) {
      BibliographyFound(fmt, show, d);
      LinkChildrenRead(d.basicInfo);
      DetailsRead(d.basicInfo.value.reference);
    } else {
      assert "bibliographyLink" !in EncoderFacts.FrontTags(d.basicInfo);
      NotAmongRootTags(fmt, show, d, "bibliographyLink");
    }
  }
}
