/**
 * The encoder of an experiment record: a draft becomes an element tree in a
 * fixed order (file metadata, experiment type, apparatus, bibliography,
 * common properties, data groups), which is pretty-printed and stripped of
 * blank lines.  The functions say what tree is built; the methods build it
 * the way the program does, child after child.
 *
 * `fmt` is `str` of a float, `show` is `str` of any other optional value and
 * `pretty` is the pretty-printer; all three are library code and parameters
 * here.
 */
module Encoder {
  import opened Wrappers
  import opened Xml
  import opened PyText
  import opened Registry
  import opened Draft

  // ---------------------------------------------------------------- texts

  /** `str(v)` for a table cell. */
  function CellText(fmt: real -> string, c: Cell): string {
    match c
    case FloatCell(r) => fmt(r)
    case IntCell(i) => IntToString(i)
    case TextCell(s) => s
  }

  /** `str(v)` for an optional-parameter value. */
  function OptionalText(fmt: real -> string, show: OptValue -> string, v: OptValue): string {
    match v
    case OptReal(r) => fmt(r)
    case OptText(s) => s
    case _ => show(v)
  }

  /** An element holding children and no text. */
  function Node(tag: string, attrs: map<string, string>, children: seq<Element>): Element {
    Element(tag, attrs, None, children)
  }

  // ---------------------------------------------------------------- metadata and bibliography

  /** The children before the bibliography: author, DOI when given, version, type and apparatus. */
  function Header(info: Option<BasicInfo>): seq<Element> {
    [Leaf("fileAuthor", if info.Some? then info.value.author else "Unknown")]
    + (if info.Some? && info.value.doi != "" then [Leaf("fileDOI", info.value.doi)] else [])
    + [Node("fileVersion", map[], [Leaf("major", "1"), Leaf("minor", "0")])]
    + [Leaf("experimentType", if info.Some? then info.value.expType else "")]
    + [Node("apparatus", map[], [Leaf("kind", if info.Some? then info.value.reactor else "JSR")])]
  }

  /** The children of `details`: author and title, then journal and year when given. */
  function DetailsChildren(ref: Reference): seq<Element> {
    [Leaf("author", ref.author), Leaf("title", ref.title)]
    + (if ref.journal != "" then [Leaf("journal", ref.journal)] else [])
    + (if ref.year != 0 then [Leaf("year", IntToString(ref.year))] else [])
  }

  /** The bibliography link, present only when the reference names an author and a title. */
  function BibliographyLink(info: Option<BasicInfo>): seq<Element> {
    if info.Some? && info.value.reference.author != "" && info.value.reference.title != "" then
      var ref := info.value.reference;
      [Node("bibliographyLink", map[],
            [Node("details", map[], DetailsChildren(ref))]
            + (if ref.doi != "" then [Leaf("referenceDOI", ref.doi)] else []))]
    else []
  }

  // ---------------------------------------------------------------- common properties

  /** A common property holding its value in a `value` child. */
  function ValueProperty(attrs: map<string, string>, text: string): Element {
    Node("property", attrs, [Leaf("value", text)])
  }

  /** The temperature and the pressure, labelled `T` and `P`. */
  function ConditionProperties(fmt: real -> string, c: Conditions): seq<Element> {
    [ValueProperty(map["name" := "temperature", "label" := "T", "units" := c.temperature.units, "sourcetype" := "reported"],
                   fmt(c.temperature.value)),
     ValueProperty(map["name" := "pressure", "label" := "P", "units" := c.pressure.units, "sourcetype" := "reported"],
                   fmt(c.pressure.value))]
  }

  /** The property of a reactor parameter. */
  function ReactorProperty(fmt: real -> string, name: string, v: real): Element {
    ValueProperty(map["name" := UnderscoreToSpace(name), "sourcetype" := "reported"], fmt(v))
  }

  /** `mk` of each element of `xs` that `keep` accepts, in order. */
  function Emit<T>(keep: T -> bool, mk: T -> Element, xs: seq<T>): seq<Element> {
    if xs == [] then []
    else Emit(keep, mk, xs[..|xs| - 1]) + (if keep(xs[|xs| - 1]) then [mk(xs[|xs| - 1])] else [])
  }

  /** A reactor parameter is written only when its value is positive. */
  predicate Positive(p: (string, real)) {
    p.1 > 0.0
  }

  /** One property per positive reactor parameter, in order. */
  function ReactorProperties(fmt: real -> string, ps: seq<(string, real)>): seq<Element> {
    Emit(Positive, (p: (string, real)) => ReactorProperty(fmt, p.0, p.1), ps)
  }

  /** The only optional parameters that are written. */
  const EmittedOptional: seq<string> := ["equivalence_ratio", "fuel", "oxidizer", "diluent"]

  /** The property of an optional parameter. */
  function OptionalProperty(fmt: real -> string, show: OptValue -> string, key: string, v: OptValue): Element {
    ValueProperty(map["name" := UnderscoreToSpace(key), "sourcetype" := "reported"], OptionalText(fmt, show, v))
  }

  /** An optional parameter is written only under one of the `EmittedOptional` keys. */
  predicate Written(o: (string, OptValue)) {
    o.0 in EmittedOptional
  }

  /** One property per optional parameter whose key is one of `EmittedOptional`, in order. */
  function OptionalProperties(fmt: real -> string, show: OptValue -> string, opts: seq<(string, OptValue)>): seq<Element> {
    Emit(Written, (o: (string, OptValue)) => OptionalProperty(fmt, show, o.0, o.1), opts)
  }

  /** The attributes of a component's species link: the preferred key and the identifiers the entry has. */
  function LinkAttrs(e: CompEntry): map<string, string> {
    Pick(e.ids, IdentifierKeys)["preferredKey" := e.species]
  }

  /** The `component` element of a composition entry. */
  function Component(fmt: real -> string, e: CompEntry): Element {
    Node("component", map[],
         [Node("speciesLink", LinkAttrs(e), []),
          Element("amount", map["units" := e.units], Some(fmt(e.amount)), [])])
  }

  /** One component per entry, in order. */
  function Components(fmt: real -> string, es: seq<CompEntry>): (r: seq<Element>)
    ensures |r| == |es|
    ensures forall i :: 0 <= i < |es| ==> r[i] == Component(fmt, es[i])
  {
    if es == [] then [] else Components(fmt, es[..|es| - 1]) + [Component(fmt, es[|es| - 1])]
  }

  /** The mixture property, present only for a non-empty composition. */
  function CompositionProperty(fmt: real -> string, es: seq<CompEntry>): seq<Element> {
    if es != [] then [Node("property", map["name" := "initial composition", "sourcetype" := "reported"], Components(fmt, es))]
    else []
  }

  /** The children of `commonProperties`: conditions, reactor parameters, optional parameters, mixture. */
  function CommonChildren(fmt: real -> string, show: OptValue -> string, d: Draft): seq<Element> {
    (match d.conditions
     case Some(c) => ConditionProperties(fmt, c) + ReactorProperties(fmt, c.reactorParams)
     case None => [])
    + OptionalProperties(fmt, show, d.optional)
    + (match d.conditions case Some(c) => CompositionProperty(fmt, c.composition) case None => [])
  }

  // ---------------------------------------------------------------- data groups

  /** The declared property of the X axis. */
  function XProperty(x: Axis): Element {
    Node("property", map["id" := x.id, "name" := x.name, "label" := x.labelText, "units" := x.unit, "sourcetype" := "digitized"], [])
  }

  /** The species link of a Y column: only for a species the registry knows. */
  function YLink(y: YColumn): seq<Element> {
    if y.species.Some? && y.species.value != "" && y.species.value in CommonSpecies then
      [Node("speciesLink", map["preferredKey" := y.species.value] + CommonSpecies[y.species.value], [])]
    else []
  }

  /** The declared property of a Y column. */
  function YProperty(y: YColumn): Element {
    Node("property", map["id" := y.id, "name" := y.name, "label" := y.labelText, "units" := y.unit, "sourcetype" := "digitized"],
         YLink(y))
  }

  /** One declared property per Y column, in order. */
  function YProperties(ys: seq<YColumn>): (r: seq<Element>)
    ensures |r| == |ys|
    ensures forall i :: 0 <= i < |ys| ==> r[i] == YProperty(ys[i])
  {
    if ys == [] then [] else YProperties(ys[..|ys| - 1]) + [YProperty(ys[|ys| - 1])]
  }

  /** The value children of the Y columns the row has, in column order. */
  function YCells(fmt: real -> string, ys: seq<YColumn>, row: map<string, Cell>): seq<Element> {
    if ys == [] then []
    else
      var y := ys[|ys| - 1];
      YCells(fmt, ys[..|ys| - 1], row) + (if y.name in row then [Leaf(y.id, CellText(fmt, row[y.name]))] else [])
  }

  /** The `dataPoint` of a row: the X value when the row has it, then the Y values. */
  function DataPoint(fmt: real -> string, x: Axis, ys: seq<YColumn>, row: map<string, Cell>): Element {
    Node("dataPoint", map[],
         (if x.name in row then [Leaf(x.id, CellText(fmt, row[x.name]))] else []) + YCells(fmt, ys, row))
  }

  /** One data point per row, in order. */
  function DataPoints(fmt: real -> string, x: Axis, ys: seq<YColumn>, rows: seq<map<string, Cell>>): (r: seq<Element>)
    ensures |r| == |rows|
    ensures forall i :: 0 <= i < |rows| ==> r[i] == DataPoint(fmt, x, ys, rows[i])
  {
    if rows == [] then [] else DataPoints(fmt, x, ys, rows[..|rows| - 1]) + [DataPoint(fmt, x, ys, rows[|rows| - 1])]
  }

  /** The `dataGroup` element of a drafted group. */
  function GroupElement(fmt: real -> string, g: DataGroupDraft): Element {
    Node("dataGroup", map["id" := g.id, "label" := g.name],
         [XProperty(g.xAxis)] + YProperties(g.yAxes) + DataPoints(fmt, g.xAxis, g.yAxes, g.data))
  }

  /** One data group per drafted group, in order. */
  function GroupElements(fmt: real -> string, gs: seq<DataGroupDraft>): (r: seq<Element>)
    ensures |r| == |gs|
    ensures forall i :: 0 <= i < |gs| ==> r[i] == GroupElement(fmt, gs[i])
  {
    if gs == [] then [] else GroupElements(fmt, gs[..|gs| - 1]) + [GroupElement(fmt, gs[|gs| - 1])]
  }

  // ---------------------------------------------------------------- the document

  /** The root's children before the data groups. */
  function Prologue(fmt: real -> string, show: OptValue -> string, d: Draft): seq<Element> {
    Header(d.basicInfo) + BibliographyLink(d.basicInfo) + [Node("commonProperties", map[], CommonChildren(fmt, show, d))]
  }

  /** The element tree the draft is encoded as. */
  function EncodeTree(fmt: real -> string, show: OptValue -> string, d: Draft): Element {
    Node("experiment", map[], Prologue(fmt, show, d) + GroupElements(fmt, d.dataGroups))
  }

  /** The text of the encoded draft: the pretty-printed tree without its blank lines. */
  function Encode(fmt: real -> string, show: OptValue -> string, pretty: Element -> string, d: Draft): string {
    StripBlankLines(pretty(EncodeTree(fmt, show, d)))
  }

  // ---------------------------------------------------------------- one more element

  lemma EmitSnoc<T>(keep: T -> bool, mk: T -> Element, xs: seq<T>, i: nat)
    requires i < |xs|
    ensures Emit(keep, mk, xs[..i + 1]) == Emit(keep, mk, xs[..i]) + (if keep(xs[i]) then [mk(xs[i])] else [])
  {
    assert xs[..i + 1][..i] == xs[..i];
  }

  lemma ReactorPropertiesSnoc(fmt: real -> string, ps: seq<(string, real)>, i: nat)
    requires i < |ps|
    ensures ReactorProperties(fmt, ps[..i + 1])
            == ReactorProperties(fmt, ps[..i]) + (if ps[i].1 > 0.0 then [ReactorProperty(fmt, ps[i].0, ps[i].1)] else [])
  {
    EmitSnoc(Positive, (p: (string, real)) => ReactorProperty(fmt, p.0, p.1), ps, i);
  }

  lemma OptionalPropertiesSnoc(fmt: real -> string, show: OptValue -> string, opts: seq<(string, OptValue)>, i: nat)
    requires i < |opts|
    ensures OptionalProperties(fmt, show, opts[..i + 1])
            == OptionalProperties(fmt, show, opts[..i])
               + (if opts[i].0 in EmittedOptional then [OptionalProperty(fmt, show, opts[i].0, opts[i].1)] else [])
  {
    EmitSnoc(Written, (o: (string, OptValue)) => OptionalProperty(fmt, show, o.0, o.1), opts, i);
  }

  /** The identifiers of `ids` whose key is one of `keys`. */
  function Pick(ids: map<string, string>, keys: seq<string>): map<string, string> {
    map k | k in ids && k in keys :: ids[k]
  }

  lemma PickSnoc(ids: map<string, string>, keys: seq<string>, i: nat)
    requires i < |keys|
    ensures Pick(ids, keys[..i + 1]) == if keys[i] in ids then Pick(ids, keys[..i])[keys[i] := ids[keys[i]]] else Pick(ids, keys[..i])
  {
    assert forall j :: j in keys[..i + 1] <==> j in keys[..i] || j == keys[i];
  }

  lemma ComponentsSnoc(fmt: real -> string, es: seq<CompEntry>, i: nat)
    requires i < |es|
    ensures Components(fmt, es[..i + 1]) == Components(fmt, es[..i]) + [Component(fmt, es[i])]
  {
    assert es[..i + 1][..i] == es[..i];
  }

  lemma YPropertiesSnoc(ys: seq<YColumn>, i: nat)
    requires i < |ys|
    ensures YProperties(ys[..i + 1]) == YProperties(ys[..i]) + [YProperty(ys[i])]
  {
    assert ys[..i + 1][..i] == ys[..i];
  }

  lemma YCellsSnoc(fmt: real -> string, ys: seq<YColumn>, row: map<string, Cell>, i: nat)
    requires i < |ys|
    ensures YCells(fmt, ys[..i + 1], row)
            == YCells(fmt, ys[..i], row) + (if ys[i].name in row then [Leaf(ys[i].id, CellText(fmt, row[ys[i].name]))] else [])
  {
    assert ys[..i + 1][..i] == ys[..i];
  }

  lemma DataPointsSnoc(fmt: real -> string, x: Axis, ys: seq<YColumn>, rows: seq<map<string, Cell>>, i: nat)
    requires i < |rows|
    ensures DataPoints(fmt, x, ys, rows[..i + 1]) == DataPoints(fmt, x, ys, rows[..i]) + [DataPoint(fmt, x, ys, rows[i])]
  {
    assert rows[..i + 1][..i] == rows[..i];
  }

  lemma GroupElementsSnoc(fmt: real -> string, gs: seq<DataGroupDraft>, i: nat)
    requires i < |gs|
    ensures GroupElements(fmt, gs[..i + 1]) == GroupElements(fmt, gs[..i]) + [GroupElement(fmt, gs[i])]
  {
    assert gs[..i + 1][..i] == gs[..i];
  }

  // ---------------------------------------------------------------- the builders

  /** The loop over the reactor parameters. */
  method AddReactorProperties(fmt: real -> string, params: seq<(string, real)>) returns (props: seq<Element>)
    ensures props == ReactorProperties(fmt, params)
  {
    props := [];
    var i := 0;
    while i < |params|
      invariant 0 <= i <= |params|
      invariant props == ReactorProperties(fmt, params[..i])
    {
      ReactorPropertiesSnoc(fmt, params, i);
      var (paramName, paramValue) := params[i];
      if paramValue > 0.0 {
        props := props + [ValueProperty(map["name" := UnderscoreToSpace(paramName), "sourcetype" := "reported"], fmt(paramValue))];
      }
      i := i + 1;
    }
    assert params[..i] == params;
  }

  /** The loop over the optional parameters. */
  method AddOptionalProperties(fmt: real -> string, show: OptValue -> string, optional: seq<(string, OptValue)>)
    returns (props: seq<Element>)
    ensures props == OptionalProperties(fmt, show, optional)
  {
    props := [];
    var i := 0;
    while i < |optional|
      invariant 0 <= i <= |optional|
      invariant props == OptionalProperties(fmt, show, optional[..i])
    {
      OptionalPropertiesSnoc(fmt, show, optional, i);
      var (key, value) := optional[i];
      if key in EmittedOptional {
        props := props + [ValueProperty(map["name" := UnderscoreToSpace(key), "sourcetype" := "reported"],
                                        OptionalText(fmt, show, value))];
      }
      i := i + 1;
    }
    assert optional[..i] == optional;
  }

  /** The attributes of one species link, set one identifier after the other. */
  method AddLinkAttrs(comp: CompEntry) returns (speciesAttrib: map<string, string>)
    ensures speciesAttrib == LinkAttrs(comp)
  {
    speciesAttrib := map["preferredKey" := comp.species];
    var k := 0;
    while k < |IdentifierKeys|
      invariant 0 <= k <= |IdentifierKeys|
      invariant speciesAttrib == Pick(comp.ids, IdentifierKeys[..k])["preferredKey" := comp.species]
    {
      var key := IdentifierKeys[k];
      PickSnoc(comp.ids, IdentifierKeys, k);
      if key in comp.ids {
        assert key != "preferredKey";
        speciesAttrib := speciesAttrib[key := comp.ids[key]];
      }
      k := k + 1;
    }
    assert IdentifierKeys[..k] == IdentifierKeys;
  }

  /** The loop over the composition entries. */
  method AddComponents(fmt: real -> string, composition: seq<CompEntry>) returns (comps: seq<Element>)
    ensures comps == Components(fmt, composition)
  {
    comps := [];
    var i := 0;
    while i < |composition|
      invariant 0 <= i <= |composition|
      invariant comps == Components(fmt, composition[..i])
    {
      ComponentsSnoc(fmt, composition, i);
      var comp := composition[i];
      var speciesAttrib := AddLinkAttrs(comp);
      var component := Node("component", map[],
                            [Node("speciesLink", speciesAttrib, []),
                             Element("amount", map["units" := comp.units], Some(fmt(comp.amount)), [])]);
      comps := comps + [component];
      i := i + 1;
    }
    assert composition[..i] == composition;
  }

  /** The children of `commonProperties`. */
  method AddCommonProperties(fmt: real -> string, show: OptValue -> string, d: Draft) returns (commonProps: seq<Element>)
    ensures commonProps == CommonChildren(fmt, show, d)
  {
    commonProps := [];
    if d.conditions.Some? {
      var reactorProps := AddReactorProperties(fmt, d.conditions.value.reactorParams);
      commonProps := ConditionProperties(fmt, d.conditions.value) + reactorProps;
    }
    var optionalProps := AddOptionalProperties(fmt, show, d.optional);
    commonProps := commonProps + optionalProps;
    if d.conditions.Some? && d.conditions.value.composition != [] {
      var comps := AddComponents(fmt, d.conditions.value.composition);
      commonProps := commonProps + [Node("property", map["name" := "initial composition", "sourcetype" := "reported"], comps)];
    }
  }

  /** The declared properties of the Y columns, each with its species link when the registry knows the species. */
  method AddYProperties(yAxes: seq<YColumn>) returns (props: seq<Element>)
    ensures props == YProperties(yAxes)
  {
    props := [];
    var i := 0;
    while i < |yAxes|
      invariant 0 <= i <= |yAxes|
      invariant props == YProperties(yAxes[..i])
    {
      YPropertiesSnoc(yAxes, i);
      var yInfo := yAxes[i];
      var yAttrib := map["id" := yInfo.id, "name" := yInfo.name, "label" := yInfo.labelText,
                         "units" := yInfo.unit, "sourcetype" := "digitized"];
      props := props + [Node("property", yAttrib, YLink(yInfo))];
      i := i + 1;
    }
    assert yAxes[..i] == yAxes;
  }

  /** The data point of one row. */
  method AddDataPoint(fmt: real -> string, x: Axis, yAxes: seq<YColumn>, row: map<string, Cell>) returns (dp: Element)
    ensures dp == DataPoint(fmt, x, yAxes, row)
  {
    var cells := [];
    if x.name in row {
      cells := cells + [Leaf(x.id, CellText(fmt, row[x.name]))];
    }
    var head := cells;
    var i := 0;
    while i < |yAxes|
      invariant 0 <= i <= |yAxes|
      invariant cells == head + YCells(fmt, yAxes[..i], row)
    {
      YCellsSnoc(fmt, yAxes, row, i);
      var yInfo := yAxes[i];
      if yInfo.name in row {
        cells := cells + [Leaf(yInfo.id, CellText(fmt, row[yInfo.name]))];
      }
      i := i + 1;
    }
    assert yAxes[..i] == yAxes;
    dp := Node("dataPoint", map[], cells);
  }

  /** The `dataGroup` element of one drafted group: X property, Y properties, then one data point per row. */
  method AddDataGroup(fmt: real -> string, g: DataGroupDraft) returns (dg: Element)
    ensures dg == GroupElement(fmt, g)
  {
    var yProps := AddYProperties(g.yAxes);
    var children := [XProperty(g.xAxis)] + yProps;
    var head := children;
    var i := 0;
    while i < |g.data|
      invariant 0 <= i <= |g.data|
      invariant children == head + DataPoints(fmt, g.xAxis, g.yAxes, g.data[..i])
    {
      DataPointsSnoc(fmt, g.xAxis, g.yAxes, g.data, i);
      var dp := AddDataPoint(fmt, g.xAxis, g.yAxes, g.data[i]);
      children := children + [dp];
      i := i + 1;
    }
    assert g.data[..i] == g.data;
    dg := Node("dataGroup", map["id" := g.id, "label" := g.name], children);
  }

  /** The loop over the drafted data groups. */
  method AddDataGroups(fmt: real -> string, groups: seq<DataGroupDraft>) returns (dgs: seq<Element>)
    ensures dgs == GroupElements(fmt, groups)
  {
    dgs := [];
    var i := 0;
    while i < |groups|
      invariant 0 <= i <= |groups|
      invariant dgs == GroupElements(fmt, groups[..i])
    {
      GroupElementsSnoc(fmt, groups, i);
      var dg := AddDataGroup(fmt, groups[i]);
      dgs := dgs + [dg];
      i := i + 1;
    }
    assert groups[..i] == groups;
  }

  /** `create_enhanced_xml`. */
  method CreateEnhancedXml(fmt: real -> string, show: OptValue -> string, pretty: Element -> string, d: Draft)
    returns (text: string)
    ensures text == Encode(fmt, show, pretty, d)
  {
    var commonProps := AddCommonProperties(fmt, show, d);
    var children := Header(d.basicInfo) + BibliographyLink(d.basicInfo) + [Node("commonProperties", map[], commonProps)];
    var dgs := AddDataGroups(fmt, d.dataGroups);
    var root := Node("experiment", map[], children + dgs);
    text := StripBlankLines(pretty(root));
  }
}
