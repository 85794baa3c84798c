/**
 * What the encoder guarantees about the tree it builds: the order of the
 * root's children, when the bibliography appears, which reactor and optional
 * parameters become properties, what a species link carries, and that every
 * drafted row becomes exactly one data point holding exactly the columns the
 * row has.
 */
module EncoderFacts {
  import opened Wrappers
  import opened Xml
  import opened PyText
  import opened Registry
  import opened Draft
  import opened Encoder

  // ---------------------------------------------------------------- the root

  /** The reference names both an author and a title. */
  predicate HasReference(info: Option<BasicInfo>) {
    info.Some? && info.value.reference.author != "" && info.value.reference.title != ""
  }

  /** `n` copies of `t`. */
  function Repeat(t: string, n: nat): (r: seq<string>)
    ensures |r| == n
    ensures forall i :: 0 <= i < n ==> r[i] == t
  {
    if n == 0 then [] else Repeat(t, n - 1) + [t]
  }

  /** The bibliography link is written exactly when the reference names an author and a title. */
  lemma BibliographyPresence(info: Option<BasicInfo>)
    ensures |BibliographyLink(info)| == (if HasReference(info) then 1 else 0)
    ensures HasReference(info) ==>
              var b := BibliographyLink(info)[0];
              var ref := info.value.reference;
              b.tag == "bibliographyLink"
              && TagsOf(b.children) == ["details"] + (if ref.doi != "" then ["referenceDOI"] else [])
              && TagsOf(b.children[0].children)
                 == ["author", "title"] + (if ref.journal != "" then ["journal"] else [])
                    + (if ref.year != 0 then ["year"] else [])
  {
  }

  /** The tags of the children before the bibliography. */
  lemma HeaderTags(info: Option<BasicInfo>)
    ensures TagsOf(Header(info))
            == ["fileAuthor"] + (if info.Some? && info.value.doi != "" then ["fileDOI"] else [])
               + ["fileVersion", "experimentType", "apparatus"]
  {
    var h := Header(info);
    if info.Some? && info.value.doi != "" {
      assert |h| == 5;
      assert TagsOf(h)[1] == "fileDOI";
    } else {
      assert |h| == 4;
    }
  }

  /**
   * The tags the root's children start with: the author, the DOI when there
   * is one, the version, the type, the apparatus, the bibliography when the
   * reference is complete, and the common properties.
   */
  function FrontTags(info: Option<BasicInfo>): seq<string> {
    ["fileAuthor"] + (if info.Some? && info.value.doi != "" then ["fileDOI"] else [])
    + ["fileVersion", "experimentType", "apparatus"]
    + (if HasReference(info) then ["bibliographyLink"] else [])
    + ["commonProperties"]
  }

  lemma NoGroupInFront(info: Option<BasicInfo>)
    ensures "dataGroup" !in FrontTags(info)
  {
  }

  /** The tags of the children before the data groups. */
  lemma PrologueTags(fmt: real -> string, show: OptValue -> string, d: Draft)
    ensures TagsOf(Prologue(fmt, show, d)) == FrontTags(d.basicInfo)
  {
    var header := Header(d.basicInfo);
    var bib := BibliographyLink(d.basicInfo);
    var cp := [Node("commonProperties", map[], CommonChildren(fmt, show, d))];
    BibliographyPresence(d.basicInfo);
    HeaderTags(d.basicInfo);
    assert TagsOf(bib) == (if HasReference(d.basicInfo) then ["bibliographyLink"] else []);
    TagsOfAppend(header, bib);
    TagsOfAppend(header + bib, cp);
  }

  /**
   * The root's children, in order: those of `FrontTags`, then one data group
   * per drafted group, in draft order.
   */
  lemma RootChildren(fmt: real -> string, show: OptValue -> string, d: Draft)
    ensures var root := EncodeTree(fmt, show, d);
            root.tag == "experiment"
            && TagsOf(root.children)
               == FrontTags(d.basicInfo) + Repeat("dataGroup", |d.dataGroups|)
    ensures FindAll(EncodeTree(fmt, show, d), "dataGroup") == GroupElements(fmt, d.dataGroups)
  {
    var front := Prologue(fmt, show, d);
    var groups := GroupElements(fmt, d.dataGroups);
    PrologueTags(fmt, show, d);
    NoGroupInFront(d.basicInfo);
    assert forall i :: 0 <= i < |groups| ==> groups[i].tag == "dataGroup";
    FrontThenGroups(front, groups, FrontTags(d.basicInfo));
  }

  /** Children with the front tags followed by data groups: their tags, and the data groups among them. */
  lemma FrontThenGroups(front: seq<Element>, groups: seq<Element>, tags: seq<string>)
    requires TagsOf(front) == tags && "dataGroup" !in tags
    requires forall i :: 0 <= i < |groups| ==> groups[i].tag == "dataGroup"
    ensures TagsOf(front + groups) == tags + Repeat("dataGroup", |groups|)
    ensures WithTag(front + groups, "dataGroup") == groups
  {
    assert TagsOf(groups) == Repeat("dataGroup", |groups|);
    TagsOfAppend(front, groups);
    WithTagNotInTags(front, "dataGroup");
    WithTagAll(groups, "dataGroup");
    WithTagAppend(front, groups, "dataGroup");
  }

  // ---------------------------------------------------------------- common properties

  /** The elements emitted are exactly the images of the accepted ones. */
  lemma {:induction false} EmitFacts<T>(keep: T -> bool, mk: T -> Element, xs: seq<T>)
    ensures |Emit(keep, mk, xs)| <= |xs|
    ensures forall e :: e in Emit(keep, mk, xs) <==> exists i :: 0 <= i < |xs| && keep(xs[i]) && e == mk(xs[i])
  {
    if xs != [] {
      var n := |xs| - 1;
      EmitFacts(keep, mk, xs[..n]);
      assert forall i :: 0 <= i < n ==> xs[..n][i] == xs[i];
    }
  }

  /** The reactor parameters written are exactly the positive ones, one property each. */
  lemma ReactorPropertiesFacts(fmt: real -> string, ps: seq<(string, real)>)
    ensures |ReactorProperties(fmt, ps)| <= |ps|
    ensures forall e :: e in ReactorProperties(fmt, ps) <==>
              exists i :: 0 <= i < |ps| && ps[i].1 > 0.0 && e == ReactorProperty(fmt, ps[i].0, ps[i].1)
  {
    EmitFacts(Positive, (p: (string, real)) => ReactorProperty(fmt, p.0, p.1), ps);
  }

  /** The optional parameters written are exactly those under one of the four emitted keys. */
  lemma OptionalPropertiesFacts(fmt: real -> string, show: OptValue -> string, opts: seq<(string, OptValue)>)
    ensures |OptionalProperties(fmt, show, opts)| <= |opts|
    ensures forall e :: e in OptionalProperties(fmt, show, opts) <==>
              exists i :: 0 <= i < |opts| && opts[i].0 in EmittedOptional && e == OptionalProperty(fmt, show, opts[i].0, opts[i].1)
  {
    EmitFacts(Written, (o: (string, OptValue)) => OptionalProperty(fmt, show, o.0, o.1), opts);
  }

  /** The four emitted keys differ in length. */
  lemma EmittedByLength(k1: string, k2: string)
    requires k1 in EmittedOptional && k2 in EmittedOptional && |k1| == |k2|
    ensures k1 == k2
  {
  }

  /** Two emitted keys written under the same name are the same key. */
  lemma SameNameSameKey(k1: string, k2: string)
    requires k1 in EmittedOptional && k2 in EmittedOptional && UnderscoreToSpace(k1) == UnderscoreToSpace(k2)
    ensures k1 == k2
  {
    assert |k1| == |UnderscoreToSpace(k1)| == |k2|;
    EmittedByLength(k1, k2);
  }

  /** With no key repeated, no two optional properties are written under the same name. */
  lemma {:induction false} OptionalNamesDistinct(fmt: real -> string, show: OptValue -> string, opts: seq<(string, OptValue)>)
    requires DistinctKeys(opts)
    ensures var op := OptionalProperties(fmt, show, opts);
            forall i, j :: 0 <= i < j < |op| ==> Get(op[i], "name", "") != Get(op[j], "name", "")
  {
    if opts != [] {
      var n := |opts| - 1;
      assert DistinctKeys(opts[..n]) by {
        assert forall m :: 0 <= m < n ==> opts[..n][m] == opts[m];
      }
      OptionalNamesDistinct(fmt, show, opts[..n]);
      OptionalPropertiesSnoc(fmt, show, opts, n);
      assert opts[..n + 1] == opts;
      if opts[n].0 in EmittedOptional {
        LastNameFresh(fmt, show, opts);
      }
    }
  }

  /** The name of the last optional parameter is not the name of any earlier written one. */
  lemma LastNameFresh(fmt: real -> string, show: OptValue -> string, opts: seq<(string, OptValue)>)
    requires DistinctKeys(opts) && opts != [] && opts[|opts| - 1].0 in EmittedOptional
    ensures var op0 := OptionalProperties(fmt, show, opts[..|opts| - 1]);
            forall i :: 0 <= i < |op0| ==> Get(op0[i], "name", "") != UnderscoreToSpace(opts[|opts| - 1].0)
  {
    var n := |opts| - 1;
    var front := opts[..n];
    var op0 := OptionalProperties(fmt, show, front);
    OptionalPropertiesFacts(fmt, show, front);
    forall i | 0 <= i < |op0| ensures Get(op0[i], "name", "") != UnderscoreToSpace(opts[n].0) {
      assert op0[i] in op0;
      var j :| 0 <= j < |front| && front[j].0 in EmittedOptional && op0[i] == OptionalProperty(fmt, show, front[j].0, front[j].1);
      assert front[j] == opts[j];
      if Get(op0[i], "name", "") == UnderscoreToSpace(opts[n].0) {
        SameNameSameKey(front[j].0, opts[n].0);
      }
    }
  }

  /** A session's optional parameters are written each under a name of its own. */
  lemma SessionOptionalNames(fmt: real -> string, show: OptValue -> string, s: Session, info: Option<BasicInfo>, conditions: Option<Conditions>)
    requires s.Valid()
    ensures var op := OptionalProperties(fmt, show, s.DraftOf(info, conditions).optional);
            forall i, j :: 0 <= i < j < |op| ==> Get(op[i], "name", "") != Get(op[j], "name", "")
  {
    OptionalNamesDistinct(fmt, show, s.optionalParams);
  }

  /** The property of an emitted key is written exactly when some parameter has the key and the text. */
  lemma WrittenKey(fmt: real -> string, show: OptValue -> string, opts: seq<(string, OptValue)>, key: string, text: string)
    requires key in EmittedOptional
    ensures ValueProperty(map["name" := UnderscoreToSpace(key), "sourcetype" := "reported"], text)
              in OptionalProperties(fmt, show, opts)
            <==> exists j :: 0 <= j < |opts| && opts[j].0 == key && OptionalText(fmt, show, opts[j].1) == text
  {
    var props := OptionalProperties(fmt, show, opts);
    var target := ValueProperty(map["name" := UnderscoreToSpace(key), "sourcetype" := "reported"], text);
    OptionalPropertiesFacts(fmt, show, opts);
    if target in props {
      var j :| 0 <= j < |opts| && opts[j].0 in EmittedOptional && target == OptionalProperty(fmt, show, opts[j].0, opts[j].1);
      var written := OptionalProperty(fmt, show, opts[j].0, opts[j].1);
      assert written.attrs["name"] == UnderscoreToSpace(opts[j].0);
      assert target.attrs["name"] == UnderscoreToSpace(key);
      SameNameSameKey(opts[j].0, key);
      assert written.children[0].text == Some(OptionalText(fmt, show, opts[j].1));
    }
    if exists j :: 0 <= j < |opts| && opts[j].0 == key && OptionalText(fmt, show, opts[j].1) == text {
      var j :| 0 <= j < |opts| && opts[j].0 == key && OptionalText(fmt, show, opts[j].1) == text;
      assert OptionalProperty(fmt, show, opts[j].0, opts[j].1) == target;
    }
  }

  /** One emitted key of the form: its property is written exactly when the form has an entry for it. */
  lemma EmittedKey(fmt: real -> string, show: OptValue -> string, input: OptionalInput, key: string, text: string)
    requires key in EmittedOptional
    requires OptionalEntry(input, key).Some? ==> OptionalText(fmt, show, OptionalEntry(input, key).value) == text
    ensures ValueProperty(map["name" := UnderscoreToSpace(key), "sourcetype" := "reported"], text)
              in OptionalProperties(fmt, show, OptionalParamsOf(input))
            <==> OptionalEntry(input, key).Some?
  {
    var opts := OptionalParamsOf(input);
    WrittenKey(fmt, show, opts, key, text);
    assert key in OptionalKeys;
    OptionalParamsFacts(input);
  }

  /** Every optional property is written under an emitted key with `_` turned into a space. */
  lemma OptionalNames(fmt: real -> string, show: OptValue -> string, opts: seq<(string, OptValue)>)
    ensures forall e :: e in OptionalProperties(fmt, show, opts) ==>
              exists k :: k in EmittedOptional && Get(e, "name", "") == UnderscoreToSpace(k)
  {
    OptionalPropertiesFacts(fmt, show, opts);
    forall e | e in OptionalProperties(fmt, show, opts)
      ensures exists k :: k in EmittedOptional && Get(e, "name", "") == UnderscoreToSpace(k)
    {
      var j :| 0 <= j < |opts| && opts[j].0 in EmittedOptional && e == OptionalProperty(fmt, show, opts[j].0, opts[j].1);
      assert Get(e, "name", "") == UnderscoreToSpace(opts[j].0);
    }
  }

  /** Of what the optional-parameter form saves, the equivalence ratio is written exactly when it is positive. */
  lemma FormWritesRatio(fmt: real -> string, show: OptValue -> string, input: OptionalInput)
    ensures ValueProperty(map["name" := UnderscoreToSpace("equivalence_ratio"), "sourcetype" := "reported"], fmt(input.equivRatio))
              in OptionalProperties(fmt, show, OptionalParamsOf(input))
            <==> input.equivRatio > 0.0
  {
    EmittedKey(fmt, show, input, "equivalence_ratio", fmt(input.equivRatio));
  }

  /** Of what the optional-parameter form saves, the fuel is written exactly when it is named. */
  lemma FormWritesFuel(fmt: real -> string, show: OptValue -> string, input: OptionalInput)
    ensures ValueProperty(map["name" := UnderscoreToSpace("fuel"), "sourcetype" := "reported"], input.fuel)
              in OptionalProperties(fmt, show, OptionalParamsOf(input))
            <==> input.fuel != ""
  {
    EmittedKey(fmt, show, input, "fuel", input.fuel);
  }

  /** Of what the optional-parameter form saves, the oxidizer is written exactly when it is named. */
  lemma FormWritesOxidizer(fmt: real -> string, show: OptValue -> string, input: OptionalInput)
    ensures ValueProperty(map["name" := UnderscoreToSpace("oxidizer"), "sourcetype" := "reported"], input.oxidizer)
              in OptionalProperties(fmt, show, OptionalParamsOf(input))
            <==> input.oxidizer != ""
  {
    EmittedKey(fmt, show, input, "oxidizer", input.oxidizer);
  }

  /** Of what the optional-parameter form saves, the diluent is written exactly when it is named. */
  lemma FormWritesDiluent(fmt: real -> string, show: OptValue -> string, input: OptionalInput)
    ensures ValueProperty(map["name" := UnderscoreToSpace("diluent"), "sourcetype" := "reported"], input.diluent)
              in OptionalProperties(fmt, show, OptionalParamsOf(input))
            <==> input.diluent != ""
  {
    EmittedKey(fmt, show, input, "diluent", input.diluent);
  }

  /**
   * A species link carries the preferred key and exactly those of the four
   * identifiers the entry has, with the entry's values.
   */
  lemma LinkAttrsFacts(e: CompEntry)
    ensures "preferredKey" in LinkAttrs(e) && LinkAttrs(e)["preferredKey"] == e.species
    ensures forall k :: k in LinkAttrs(e) <==> k == "preferredKey" || (k in IdentifierKeys && k in e.ids)
    ensures forall k :: k in IdentifierKeys && k in e.ids ==> LinkAttrs(e)[k] == e.ids[k]
  {
  }

  /**
   * An entry whose identifiers are only a typed CAS number (what the form
   * gives a species the registry does not know) links by that number when
   * one was typed, and by its preferred key alone otherwise.
   */
  lemma TypedCasLink(e: CompEntry, cas: string)
    requires e.ids == if cas != "" then map["CAS" := cas] else map[]
    ensures LinkAttrs(e) == if cas != "" then map["preferredKey" := e.species, "CAS" := cas] else map["preferredKey" := e.species]
  {
    assert "CAS" == IdentifierKeys[0];
    assert Pick(e.ids, IdentifierKeys) == e.ids;
  }

  /** Whether the draft has a non-empty mixture. */
  predicate HasMixture(d: Draft) {
    d.conditions.Some? && d.conditions.value.composition != []
  }

  /** Each element is a `property` holding one `value`. */
  predicate ValueProperties(s: seq<Element>) {
    forall i :: 0 <= i < |s| ==> s[i].tag == "property" && TagsOf(s[i].children) == ["value"]
  }

  lemma ValuePropertiesAppend(a: seq<Element>, b: seq<Element>)
    requires ValueProperties(a) && ValueProperties(b)
    ensures ValueProperties(a + b)
  {
    assert forall i :: |a| <= i < |a + b| ==> (a + b)[i] == b[i - |a|];
  }

  lemma ValuePropertyShape(attrs: map<string, string>, text: string)
    ensures ValueProperties([ValueProperty(attrs, text)])
  {
    assert TagsOf(ValueProperty(attrs, text).children) == ["value"];
  }

  lemma ReactorPropertiesShape(fmt: real -> string, ps: seq<(string, real)>)
    ensures ValueProperties(ReactorProperties(fmt, ps))
  {
    var rp := ReactorProperties(fmt, ps);
    ReactorPropertiesFacts(fmt, ps);
    forall i | 0 <= i < |rp| ensures rp[i].tag == "property" && TagsOf(rp[i].children) == ["value"] {
      assert rp[i] in rp;
      var j :| 0 <= j < |ps| && ps[j].1 > 0.0 && rp[i] == ReactorProperty(fmt, ps[j].0, ps[j].1);
      ValuePropertyShape(map["name" := UnderscoreToSpace(ps[j].0), "sourcetype" := "reported"], fmt(ps[j].1));
    }
  }

  lemma OptionalPropertiesShape(fmt: real -> string, show: OptValue -> string, opts: seq<(string, OptValue)>)
    ensures ValueProperties(OptionalProperties(fmt, show, opts))
  {
    var op := OptionalProperties(fmt, show, opts);
    OptionalPropertiesFacts(fmt, show, opts);
    forall i | 0 <= i < |op| ensures op[i].tag == "property" && TagsOf(op[i].children) == ["value"] {
      assert op[i] in op;
      var j :| 0 <= j < |opts| && opts[j].0 in EmittedOptional && op[i] == OptionalProperty(fmt, show, opts[j].0, opts[j].1);
      ValuePropertyShape(map["name" := UnderscoreToSpace(opts[j].0), "sourcetype" := "reported"], OptionalText(fmt, show, opts[j].1));
    }
  }

  lemma ConditionPropertiesShape(fmt: real -> string, c: Conditions)
    ensures ValueProperties(ConditionProperties(fmt, c))
  {
    var cp := ConditionProperties(fmt, c);
    assert TagsOf(cp[0].children) == ["value"];
    assert TagsOf(cp[1].children) == ["value"];
  }

  /** The mixture property holds one `component` per entry. */
  lemma CompositionPropertyShape(fmt: real -> string, es: seq<CompEntry>)
    requires es != []
    ensures var m := CompositionProperty(fmt, es);
            |m| == 1 && m[0].tag == "property" && m[0].attrs["name"] == "initial composition"
            && TagsOf(m[0].children) == Repeat("component", |es|)
  {
  }

  /**
   * Every child of `commonProperties` is a `property` holding one `value`,
   * except the mixture property, which is last, present only for a non-empty
   * mixture, and holds one `component` per entry.
   */
  lemma CommonChildrenShape(fmt: real -> string, show: OptValue -> string, d: Draft)
    ensures var cs := CommonChildren(fmt, show, d);
            var n := if HasMixture(d) then |cs| - 1 else |cs|;
            0 <= n && ValueProperties(cs[..n])
    ensures var cs := CommonChildren(fmt, show, d);
            HasMixture(d) ==>
              cs != [] && cs[|cs| - 1].tag == "property" && cs[|cs| - 1].attrs["name"] == "initial composition"
              && TagsOf(cs[|cs| - 1].children) == Repeat("component", |d.conditions.value.composition|)
  {
    var cs := CommonChildren(fmt, show, d);
    var op := OptionalProperties(fmt, show, d.optional);
    OptionalPropertiesShape(fmt, show, d.optional);
    var front: seq<Element>;
    if d.conditions.Some? {
      var c := d.conditions.value;
      ConditionPropertiesShape(fmt, c);
      ReactorPropertiesShape(fmt, c.reactorParams);
      ValuePropertiesAppend(ConditionProperties(fmt, c), ReactorProperties(fmt, c.reactorParams));
      front := ConditionProperties(fmt, c) + ReactorProperties(fmt, c.reactorParams) + op;
      ValuePropertiesAppend(ConditionProperties(fmt, c) + ReactorProperties(fmt, c.reactorParams), op);
    } else {
      front := [] + op;
      assert front == op;
    }
    if HasMixture(d) {
      var es := d.conditions.value.composition;
      CompositionPropertyShape(fmt, es);
      assert cs == front + CompositionProperty(fmt, es);
      assert cs[..|cs| - 1] == front;
    } else {
      assert cs == front;
      assert cs[..|cs|] == front;
    }
  }
}
