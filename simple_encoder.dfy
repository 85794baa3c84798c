/**
 * The reduced encoder of the second application version: file metadata,
 * experiment type and apparatus (no version element, no bibliography),
 * temperature and pressure by name and units only, a mixture whose species
 * links carry at most a CAS number, and data groups whose columns are
 * declared under the generated ids `x1`, `x2`, … in column order.
 *
 * The draft of this version holds the table of a data group as its column
 * names and its rows.
 */
module SimpleEncoder {
  import opened Wrappers
  import opened Xml
  import opened PyText
  import opened Draft
  import Encoder

  /** A drafted data group: its id and name, its column names and its rows. */
  datatype TableGroup = TableGroup(id: string, name: string, columns: seq<string>, data: seq<map<string, Cell>>)

  /** The draft: basic information and conditions when saved, and the data groups. */
  datatype TableDraft = TableDraft(basicInfo: Option<BasicInfo>, conditions: Option<Conditions>, dataGroups: seq<TableGroup>)

  /** The children before the common properties: author, DOI when given, type and apparatus. */
  function Header(info: Option<BasicInfo>): seq<Element> {
    [Leaf("fileAuthor", if info.Some? then info.value.author else "Unknown")]
    + (if info.Some? && info.value.doi != "" then [Leaf("fileDOI", info.value.doi)] else [])
    + [Leaf("experimentType", if info.Some? then info.value.expType else "")]
    + [Encoder.Node("apparatus", map[], [Leaf("kind", if info.Some? then info.value.reactor else "JSR")])]
  }

  /** The temperature and the pressure, by name and units. */
  function ConditionProperties(fmt: real -> string, c: Conditions): seq<Element> {
    [Encoder.ValueProperty(map["name" := "temperature", "units" := c.temperature.units], fmt(c.temperature.value)),
     Encoder.ValueProperty(map["name" := "pressure", "units" := c.pressure.units], fmt(c.pressure.value))]
  }

  /** The attributes of a species link: the preferred key, and the CAS number when the entry has one. */
  function LinkAttrs(e: CompEntry): map<string, string> {
    if "CAS" in e.ids then map["preferredKey" := e.species, "CAS" := e.ids["CAS"]]
    else map["preferredKey" := e.species]
  }

  /** The `component` element of a composition entry. */
  function Component(fmt: real -> string, e: CompEntry): Element {
    Encoder.Node("component", map[],
                 [Encoder.Node("speciesLink", LinkAttrs(e), []),
                  Element("amount", map["units" := e.units], Some(fmt(e.amount)), [])])
  }

  /** One component per entry, in order. */
  function Components(fmt: real -> string, es: seq<CompEntry>): (r: seq<Element>)
    ensures |r| == |es|
    ensures forall i :: 0 <= i < |es| ==> r[i] == Component(fmt, es[i])
  {
    if es == [] then [] else Components(fmt, es[..|es| - 1]) + [Component(fmt, es[|es| - 1])]
  }

  /** The mixture property, present only for a non-empty composition. */
  function CompositionProperty(fmt: real -> string, es: seq<CompEntry>): seq<Element> {
    if es != [] then [Encoder.Node("property", map["name" := "initial composition"], Components(fmt, es))] else []
  }

  /** The children of `commonProperties`: nothing before the conditions are saved. */
  function CommonChildren(fmt: real -> string, d: TableDraft): seq<Element> {
    match d.conditions
    case Some(c) => ConditionProperties(fmt, c) + CompositionProperty(fmt, c.composition)
    case None => []
  }

  /** The generated id of the column at index `i`: `f'x{i+1}'`. */
  function ColumnId(i: nat): string {
    "x" + NatToString(i + 1)
  }

  /** The declared property of the column at index `i`. */
  function ColumnProperty(i: nat, col: string): Element {
    Encoder.Node("property", map["id" := ColumnId(i), "name" := col], [])
  }

  /** The declared properties of the columns. */
  function ColumnProperties(cols: seq<string>): (r: seq<Element>)
    ensures |r| == |cols|
    ensures forall i :: 0 <= i < |cols| ==> r[i] == ColumnProperty(i, cols[i])
  {
    if cols == [] then [] else ColumnProperties(cols[..|cols| - 1]) + [ColumnProperty(|cols| - 1, cols[|cols| - 1])]
  }

  /** The value children of a row: one for each column the row has, tagged with the column's id. */
  function PointCells(fmt: real -> string, cols: seq<string>, row: map<string, Cell>): seq<Element> {
    if cols == [] then []
    else
      var n := |cols| - 1;
      PointCells(fmt, cols[..n], row) + (if cols[n] in row then [Leaf(ColumnId(n), Encoder.CellText(fmt, row[cols[n]]))] else [])
  }

  /** The `dataPoint` of a row. */
  function Point(fmt: real -> string, cols: seq<string>, row: map<string, Cell>): Element {
    Encoder.Node("dataPoint", map[], PointCells(fmt, cols, row))
  }

  /** One data point per row, in order. */
  function Points(fmt: real -> string, cols: seq<string>, rows: seq<map<string, Cell>>): (r: seq<Element>)
    ensures |r| == |rows|
    ensures forall i :: 0 <= i < |rows| ==> r[i] == Point(fmt, cols, rows[i])
  {
    if rows == [] then [] else Points(fmt, cols, rows[..|rows| - 1]) + [Point(fmt, cols, rows[|rows| - 1])]
  }

  /** The `dataGroup` element of a drafted group: only its id, the column declarations, then the rows. */
  function GroupElement(fmt: real -> string, g: TableGroup): Element {
    Encoder.Node("dataGroup", map["id" := g.id], ColumnProperties(g.columns) + Points(fmt, g.columns, g.data))
  }

  /** One data group per drafted group, in order. */
  function GroupElements(fmt: real -> string, gs: seq<TableGroup>): (r: seq<Element>)
    ensures |r| == |gs|
    ensures forall i :: 0 <= i < |gs| ==> r[i] == GroupElement(fmt, gs[i])
  {
    if gs == [] then [] else GroupElements(fmt, gs[..|gs| - 1]) + [GroupElement(fmt, gs[|gs| - 1])]
  }

  /** The root's children before the data groups. */
  function Prologue(fmt: real -> string, d: TableDraft): seq<Element> {
    Header(d.basicInfo) + [Encoder.Node("commonProperties", map[], CommonChildren(fmt, d))]
  }

  /** The element tree the draft is encoded as. */
  function EncodeTree(fmt: real -> string, d: TableDraft): Element {
    Encoder.Node("experiment", map[], Prologue(fmt, d) + GroupElements(fmt, d.dataGroups))
  }

  /** The text of the encoded draft: the pretty-printed tree without its blank lines. */
  function Encode(fmt: real -> string, pretty: Element -> string, d: TableDraft): string {
    StripBlankLines(pretty(EncodeTree(fmt, d)))
  }

  // ---------------------------------------------------------------- one more element

  lemma ComponentsSnoc(fmt: real -> string, es: seq<CompEntry>, i: nat)
    requires i < |es|
    ensures Components(fmt, es[..i + 1]) == Components(fmt, es[..i]) + [Component(fmt, es[i])]
  {
    assert es[..i + 1][..i] == es[..i];
  }

  lemma ColumnPropertiesSnoc(cols: seq<string>, i: nat)
    requires i < |cols|
    ensures ColumnProperties(cols[..i + 1]) == ColumnProperties(cols[..i]) + [ColumnProperty(i, cols[i])]
  {
    assert cols[..i + 1][..i] == cols[..i];
  }

  lemma PointCellsSnoc(fmt: real -> string, cols: seq<string>, row: map<string, Cell>, i: nat)
    requires i < |cols|
    ensures PointCells(fmt, cols[..i + 1], row)
            == PointCells(fmt, cols[..i], row) + (if cols[i] in row then [Leaf(ColumnId(i), Encoder.CellText(fmt, row[cols[i]]))] else [])
  {
    assert cols[..i + 1][..i] == cols[..i];
  }

  lemma PointsSnoc(fmt: real -> string, cols: seq<string>, rows: seq<map<string, Cell>>, i: nat)
    requires i < |rows|
    ensures Points(fmt, cols, rows[..i + 1]) == Points(fmt, cols, rows[..i]) + [Point(fmt, cols, rows[i])]
  {
    assert rows[..i + 1][..i] == rows[..i];
  }

  lemma GroupElementsSnoc(fmt: real -> string, gs: seq<TableGroup>, i: nat)
    requires i < |gs|
    ensures GroupElements(fmt, gs[..i + 1]) == GroupElements(fmt, gs[..i]) + [GroupElement(fmt, gs[i])]
  {
    assert gs[..i + 1][..i] == gs[..i];
  }

  // ---------------------------------------------------------------- the builders

  /** The loop over the composition entries. */
  method AddComponents(fmt: real -> string, composition: seq<CompEntry>) returns (comps: seq<Element>)
    ensures comps == Components(fmt, composition)
  {
    comps := [];
    var i := 0;
    while i < |composition|
      invariant 0 <= i <= |composition|
      invariant comps == Components(fmt, composition[..i])
    {
      ComponentsSnoc(fmt, composition, i);
      var comp := composition[i];
      var speciesAttrib := map["preferredKey" := comp.species];
      if "CAS" in comp.ids {
        speciesAttrib := speciesAttrib["CAS" := comp.ids["CAS"]];
      }
      var component := Encoder.Node("component", map[],
                                    [Encoder.Node("speciesLink", speciesAttrib, []),
                                     Element("amount", map["units" := comp.units], Some(fmt(comp.amount)), [])]);
      comps := comps + [component];
      i := i + 1;
    }
    assert composition[..i] == composition;
  }

  /** The children of `commonProperties`. */
  method AddCommonProperties(fmt: real -> string, d: TableDraft) returns (commonProps: seq<Element>)
    ensures commonProps == CommonChildren(fmt, d)
  {
    commonProps := [];
    if d.conditions.Some? {
      var conditions := d.conditions.value;
      commonProps := ConditionProperties(fmt, conditions);
      if conditions.composition != [] {
        var comps := AddComponents(fmt, conditions.composition);
        commonProps := commonProps + [Encoder.Node("property", map["name" := "initial composition"], comps)];
      }
    }
  }

  /** The column declarations, numbered from 1. */
  method AddColumnProperties(cols: seq<string>) returns (props: seq<Element>)
    ensures props == ColumnProperties(cols)
  {
    props := [];
    var i := 0;
    while i < |cols|
      invariant 0 <= i <= |cols|
      invariant props == ColumnProperties(cols[..i])
    {
      ColumnPropertiesSnoc(cols, i);
      props := props + [Encoder.Node("property", map["id" := "x" + NatToString(i + 1), "name" := cols[i]], [])];
      i := i + 1;
    }
    assert cols[..i] == cols;
  }

  /** The data point of one row. */
  method AddDataPoint(fmt: real -> string, cols: seq<string>, row: map<string, Cell>) returns (dp: Element)
    ensures dp == Point(fmt, cols, row)
  {
    var cells := [];
    var i := 0;
    while i < |cols|
      invariant 0 <= i <= |cols|
      invariant cells == PointCells(fmt, cols[..i], row)
    {
      PointCellsSnoc(fmt, cols, row, i);
      var col := cols[i];
      if col in row {
        cells := cells + [Leaf("x" + NatToString(i + 1), Encoder.CellText(fmt, row[col]))];
      }
      i := i + 1;
    }
    assert cols[..i] == cols;
    dp := Encoder.Node("dataPoint", map[], cells);
  }

  /** The `dataGroup` element of one drafted group. */
  method AddDataGroup(fmt: real -> string, g: TableGroup) returns (dg: Element)
    ensures dg == GroupElement(fmt, g)
  {
    var children := AddColumnProperties(g.columns);
    var head := children;
    var i := 0;
    while i < |g.data|
      invariant 0 <= i <= |g.data|
      invariant children == head + Points(fmt, g.columns, g.data[..i])
    {
      PointsSnoc(fmt, g.columns, g.data, i);
      var dp := AddDataPoint(fmt, g.columns, g.data[i]);
      children := children + [dp];
      i := i + 1;
    }
    assert g.data[..i] == g.data;
    dg := Encoder.Node("dataGroup", map["id" := g.id], children);
  }

  /** The loop over the drafted data groups. */
  method AddDataGroups(fmt: real -> string, groups: seq<TableGroup>) returns (dgs: seq<Element>)
    ensures dgs == GroupElements(fmt, groups)
  {
    dgs := [];
    var i := 0;
    while i < |groups|
      invariant 0 <= i <= |groups|
      invariant dgs == GroupElements(fmt, groups[..i])
    {
      GroupElementsSnoc(fmt, groups, i);
      var dg := AddDataGroup(fmt, groups[i]);
      dgs := dgs + [dg];
      i := i + 1;
    }
    assert groups[..i] == groups;
  }

  /** `create_enhanced_xml` of the second version. */
  method CreateEnhancedXml(fmt: real -> string, pretty: Element -> string, d: TableDraft) returns (text: string)
    ensures text == Encode(fmt, pretty, d)
  {
    var commonProps := AddCommonProperties(fmt, d);
    var children := Header(d.basicInfo) + [Encoder.Node("commonProperties", map[], commonProps)];
    var dgs := AddDataGroups(fmt, d.dataGroups);
    var root := Encoder.Node("experiment", map[], children + dgs);
    text := StripBlankLines(pretty(root));
  }
}
