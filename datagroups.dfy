/**
 * Decoding of the data groups of an experiment: each declared property gets
 * a derived column name, each data point becomes a row keyed by those column
 * names, and the rows form a table whose column order follows the order of
 * declaration.
 */
module DataGroups {
  import opened Wrappers
  import opened Xml
  import opened Values
  import opened PyText

  /** A declared property of a data group, with the column name derived from it. */
  datatype PropertyInfo = PropertyInfo(
    id: Option<string>, name: string, labelText: string, units: string,
    species: Option<string>, columnName: string)

  /** One data point as a dictionary: its keys in first-insertion order, and its values. */
  datatype Row = Row(order: seq<string>, cells: map<string, Value>)

  /** The table built from the rows: the column list and the rows it shows. */
  datatype Table = Table(columns: seq<string>, rows: seq<Row>)

  datatype Statistics = Statistics(numPoints: nat, columns: seq<string>, shape: (nat, nat))

  datatype DataGroup = DataGroup(
    id: string, labelText: string,
    properties: seq<PropertyInfo>,
    propertyMap: map<Option<string>, PropertyInfo>,
    datapoints: seq<Row>,
    table: Option<Table>,
    statistics: Option<Statistics>)

  /**
   * The column name of a property: a species-linked property is named after
   * its preferred key with the units in parentheses even when they are empty;
   * any other is named by its label, or its name when the label is empty,
   * with the units in parentheses only when there are units.
   */
  function ColumnName(species: Option<string>, labelText: string, name: string, units: string): string {
    match species
    case Some(key) => key + " (" + units + ")"
    case None =>
      var base := if labelText != "" then labelText else name;
      if units != "" then base + " (" + units + ")" else base
  }

  /** `prop_info` for one `property` element of a data group. */
  function PropertyInfoOf(p: Element): PropertyInfo {
    var species := match Find(p, "speciesLink")
                   case Some(link) => Some(Get(link, "preferredKey", ""))
                   case None => None;
    var name := Get(p, "name", "");
    var labelText := Get(p, "label", "");
    var units := Get(p, "units", "");
    PropertyInfo(GetOpt(p, "id"), name, labelText, units, species, ColumnName(species, labelText, name, units))
  }

  /** The property infos of the declared properties, in declaration order. */
  function Infos(ps: seq<Element>): (r: seq<PropertyInfo>)
    ensures |r| == |ps|
    ensures forall i :: 0 <= i < |ps| ==> r[i] == PropertyInfoOf(ps[i])
  {
    if ps == [] then [] else Infos(ps[..|ps| - 1]) + [PropertyInfoOf(ps[|ps| - 1])]
  }

  /** `property_map`: the infos keyed by id, a later declaration replacing an earlier. */
  function MapOf(infos: seq<PropertyInfo>): map<Option<string>, PropertyInfo> {
    if infos == [] then map[]
    else MapOf(infos[..|infos| - 1])[infos[|infos| - 1].id := infos[|infos| - 1]]
  }

  /** `column_order`: the ids in declaration order, repeats kept. */
  function Ids(infos: seq<PropertyInfo>): (r: seq<Option<string>>)
    ensures |r| == |infos|
    ensures forall i :: 0 <= i < |infos| ==> r[i] == infos[i].id
  {
    if infos == [] then [] else Ids(infos[..|infos| - 1]) + [infos[|infos| - 1].id]
  }

  /** Reading one more declaration appends its info. */
  lemma InfosSnoc(ps: seq<Element>, i: nat)
    requires i < |ps|
    ensures Infos(ps[..i + 1]) == Infos(ps[..i]) + [PropertyInfoOf(ps[i])]
  {
    assert ps[..i + 1][..i] == ps[..i];
  }

  /** One more declaration updates the map under its id and appends its id. */
  lemma DeclareSnoc(infos: seq<PropertyInfo>, info: PropertyInfo)
    ensures MapOf(infos + [info]) == MapOf(infos)[info.id := info]
    ensures Ids(infos + [info]) == Ids(infos) + [info.id]
  {
    assert (infos + [info])[..|infos|] == infos;
  }

  /** `point_data[k] = v` on a dictionary that remembers insertion order. */
  function Put(row: Row, k: string, v: Value): Row {
    Row(if k in row.cells then row.order else row.order + [k], row.cells[k := v])
  }

  /** A child of a data point whose tag is the id of a declared property. */
  predicate Declared(pmap: map<Option<string>, PropertyInfo>, c: Element) {
    Some(c.tag) in pmap
  }

  /** The column a declared child of a data point fills. */
  function ColumnOf(pmap: map<Option<string>, PropertyInfo>, c: Element): string
    requires Declared(pmap, c)
  {
    pmap[Some(c.tag)].columnName
  }

  /** The dictionary built from the children of one data point. */
  function PointRow(parse: string -> Option<real>, pmap: map<Option<string>, PropertyInfo>, cs: seq<Element>): Row {
    if cs == [] then Row([], map[])
    else
      var row := PointRow(parse, pmap, cs[..|cs| - 1]);
      var c := cs[|cs| - 1];
      if Declared(pmap, c) then Put(row, ColumnOf(pmap, c), Coerce(parse, c.text)) else row
  }

  /** `data_rows`: the dictionaries of the data points that are not empty. */
  function KeptRows(parse: string -> Option<real>, pmap: map<Option<string>, PropertyInfo>, dps: seq<Element>): seq<Row> {
    if dps == [] then []
    else
      var row := PointRow(parse, pmap, dps[|dps| - 1].children);
      KeptRows(parse, pmap, dps[..|dps| - 1]) + (if row.cells != map[] then [row] else [])
  }

  /** `acc` followed by the elements of `keys` not yet in it, each once, in order. */
  function AddNew(acc: seq<string>, keys: seq<string>): seq<string> {
    if keys == [] then acc
    else
      var a := AddNew(acc, keys[..|keys| - 1]);
      if keys[|keys| - 1] in a then a else a + [keys[|keys| - 1]]
  }

  /** The columns of a DataFrame built from the rows: every key, in first-seen order. */
  function FrameColumns(rows: seq<Row>): seq<string> {
    if rows == [] then [] else AddNew(FrameColumns(rows[..|rows| - 1]), rows[|rows| - 1].order)
  }

  /** `display_columns`: the columns that do not start with an underscore. */
  function Display(cols: seq<string>): seq<string> {
    if cols == [] then []
    else Display(cols[..|cols| - 1]) + (if StartsWithUnderscore(cols[|cols| - 1]) then [] else [cols[|cols| - 1]])
  }

  /** The first loop of the reordering: for each id in order, its column if it is displayed. */
  function DeclaredColumns(pmap: map<Option<string>, PropertyInfo>, order: seq<Option<string>>, display: seq<string>): seq<string> {
    if order == [] then []
    else
      var id := order[|order| - 1];
      DeclaredColumns(pmap, order[..|order| - 1], display)
      + (if id in pmap && pmap[id].columnName in display then [pmap[id].columnName] else [])
  }

  /** `ordered_columns` after both loops. */
  function OrderedColumns(pmap: map<Option<string>, PropertyInfo>, order: seq<Option<string>>, rows: seq<Row>): seq<string> {
    var display := Display(FrameColumns(rows));
    AddNew(DeclaredColumns(pmap, order, display), display)
  }

  /** The columns of the final table: the reordered list, unless it is empty. */
  function FinalColumns(pmap: map<Option<string>, PropertyInfo>, order: seq<Option<string>>, rows: seq<Row>): seq<string> {
    var ordered := OrderedColumns(pmap, order, rows);
    if ordered != [] then ordered else FrameColumns(rows)
  }

  /** The decoded form of one `dataGroup` element. */
  function DataGroupOf(parse: string -> Option<real>, dg: Element): DataGroup {
    var infos := Infos(FindAll(dg, "property"));
    var pmap := MapOf(infos);
    var rows := KeptRows(parse, pmap, FindAll(dg, "dataPoint"));
    var id := Get(dg, "id", "");
    var labelText := Get(dg, "label", "");
    if rows == [] then DataGroup(id, labelText, infos, pmap, rows, None, None)
    else
      var columns := FinalColumns(pmap, Ids(infos), rows);
      DataGroup(id, labelText, infos, pmap, rows, Some(Table(columns, rows)),
                Some(Statistics(|rows|, columns, (|rows|, |columns|))))
  }

  /** One decoded group per element, in order. */
  function GroupsOf(parse: string -> Option<real>, dgs: seq<Element>): (r: seq<DataGroup>)
    ensures |r| == |dgs|
  {
    if dgs == [] then [] else GroupsOf(parse, dgs[..|dgs| - 1]) + [DataGroupOf(parse, dgs[|dgs| - 1])]
  }

  /** Decoding one more element appends one more group. */
  lemma GroupsOfSnoc(parse: string -> Option<real>, dgs: seq<Element>, i: nat)
    requires i < |dgs|
    ensures GroupsOf(parse, dgs[..i + 1]) == GroupsOf(parse, dgs[..i]) + [DataGroupOf(parse, dgs[i])]
  {
    assert dgs[..i + 1][..i] == dgs[..i];
  }

  /** The data groups of a document: every `dataGroup` element at any depth, in document order. */
  function DataGroupsOf(parse: string -> Option<real>, root: Element): seq<DataGroup> {
    GroupsOf(parse, FindAllDeep(root, "dataGroup"))
  }

  /** The loop over the declared properties: infos, the id-keyed map and the id order. */
  method CollectProperties(props: seq<Element>)
    returns (properties: seq<PropertyInfo>, propertyMap: map<Option<string>, PropertyInfo>, columnOrder: seq<Option<string>>)
    ensures properties == Infos(props)
    ensures propertyMap == MapOf(properties)
    ensures columnOrder == Ids(properties)
  {
    properties, propertyMap, columnOrder := [], map[], [];
    var i := 0;
    while i < |props|
      invariant 0 <= i <= |props|
      invariant properties == Infos(props[..i])
      invariant propertyMap == MapOf(properties)
      invariant columnOrder == Ids(properties)
    {
      var info := PropertyInfoOf(props[i]);
      InfosSnoc(props, i);
      DeclareSnoc(properties, info);
      propertyMap := propertyMap[info.id := info];
      columnOrder := columnOrder + [info.id];
      properties := properties + [info];
      i := i + 1;
    }
    assert props[..i] == props;
  }

  /** The inner loop over the children of one data point. */
  method CollectPoint(parse: string -> Option<real>, propertyMap: map<Option<string>, PropertyInfo>, children: seq<Element>)
    returns (pointData: Row)
    ensures pointData == PointRow(parse, propertyMap, children)
  {
    pointData := Row([], map[]);
    var k := 0;
    while k < |children|
      invariant 0 <= k <= |children|
      invariant pointData == PointRow(parse, propertyMap, children[..k])
    {
      assert children[..k + 1][..k] == children[..k];
      var child := children[k];
      var propId := Some(child.tag);
      if propId in propertyMap {
        pointData := Put(pointData, propertyMap[propId].columnName, Coerce(parse, child.text));
      }
      k := k + 1;
    }
    assert children[..k] == children;
  }

  /** The loop over the data points, keeping the non-empty dictionaries. */
  method CollectRows(parse: string -> Option<real>, propertyMap: map<Option<string>, PropertyInfo>, points: seq<Element>)
    returns (dataRows: seq<Row>)
    ensures dataRows == KeptRows(parse, propertyMap, points)
  {
    dataRows := [];
    var j := 0;
    while j < |points|
      invariant 0 <= j <= |points|
      invariant dataRows == KeptRows(parse, propertyMap, points[..j])
    {
      assert points[..j + 1][..j] == points[..j];
      var pointData := CollectPoint(parse, propertyMap, points[j].children);
      if pointData.cells != map[] {
        dataRows := dataRows + [pointData];
      }
      j := j + 1;
    }
    assert points[..j] == points;
  }

  /** The two reordering loops over the declared ids and the displayed columns. */
  method OrderColumns(propertyMap: map<Option<string>, PropertyInfo>, columnOrder: seq<Option<string>>, display: seq<string>)
    returns (ordered: seq<string>)
    ensures ordered == AddNew(DeclaredColumns(propertyMap, columnOrder, display), display)
  {
    ordered := [];
    var m := 0;
    while m < |columnOrder|
      invariant 0 <= m <= |columnOrder|
      invariant ordered == DeclaredColumns(propertyMap, columnOrder[..m], display)
    {
      assert columnOrder[..m + 1][..m] == columnOrder[..m];
      var pid := columnOrder[m];
      if pid in propertyMap {
        var colName := propertyMap[pid].columnName;
        if colName in display {
          ordered := ordered + [colName];
        }
      }
      m := m + 1;
    }
    assert columnOrder[..m] == columnOrder;
    ghost var declared := ordered;
    var n := 0;
    while n < |display|
      invariant 0 <= n <= |display|
      invariant ordered == AddNew(declared, display[..n])
    {
      assert display[..n + 1][..n] == display[..n];
      if display[n] !in ordered {
        ordered := ordered + [display[n]];
      }
      n := n + 1;
    }
    assert display[..n] == display;
  }

  /** `parse_datagroups` for one data group. */
  method ParseDataGroup(parse: string -> Option<real>, dg: Element) returns (g: DataGroup)
    ensures g == DataGroupOf(parse, dg)
  {
    var properties, propertyMap, columnOrder := CollectProperties(FindAll(dg, "property"));
    var dataRows := CollectRows(parse, propertyMap, FindAll(dg, "dataPoint"));
    var id := Get(dg, "id", "");
    var labelText := Get(dg, "label", "");
    if dataRows == [] {
      return DataGroup(id, labelText, properties, propertyMap, dataRows, None, None);
    }
    var frameColumns := FrameColumns(dataRows);
    var display := Display(frameColumns);
    var ordered := OrderColumns(propertyMap, columnOrder, display);
    var columns := if ordered != [] then ordered else frameColumns;
    g := DataGroup(id, labelText, properties, propertyMap, dataRows, Some(Table(columns, dataRows)),
                   Some(Statistics(|dataRows|, columns, (|dataRows|, |columns|))));
  }

  /** `parse_datagroups`: one decoded group per `dataGroup` element found at any depth. */
  method ParseDataGroups(parse: string -> Option<real>, root: Element) returns (groups: seq<DataGroup>)
    ensures groups == DataGroupsOf(parse, root)
  {
    var dgs := FindAllDeep(root, "dataGroup");
    groups := [];
    var i := 0;
    while i < |dgs|
      invariant 0 <= i <= |dgs|
      invariant groups == GroupsOf(parse, dgs[..i])
    {
      GroupsOfSnoc(parse, dgs, i);
      var g := ParseDataGroup(parse, dgs[i]);
      groups := groups + [g];
      i := i + 1;
    }
    assert dgs[..i] == dgs;
  }
}
