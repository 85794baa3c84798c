/**
 * What the encoder writes for the drafted data groups: one `dataPoint` per
 * table row, holding a value only for the columns the row has, and the
 * declared properties of the X axis and the Y columns, in order; and what
 * its final pass leaves of the printed text.
 */
module EncodedGroups {
  import opened Wrappers
  import opened Xml
  import opened PyText
  import opened Registry
  import opened Draft
  import opened Encoder
  import opened EncoderFacts

  /** The value child written for column `id` of a row's cell. */
  function CellLeaf(fmt: real -> string, id: string, c: Cell): Element {
    Leaf(id, CellText(fmt, c))
  }

  /**
   * The Y values of a row: at most one per column, each the cell of a
   * column the row has, and every column the row has is written.
   */
  lemma {:induction false} YCellsFacts(fmt: real -> string, ys: seq<YColumn>, row: map<string, Cell>)
    ensures |YCells(fmt, ys, row)| <= |ys|
    ensures forall e :: e in YCells(fmt, ys, row) <==>
              exists i :: 0 <= i < |ys| && ys[i].name in row && e == CellLeaf(fmt, ys[i].id, row[ys[i].name])
  {
    if ys != [] {
      var n := |ys| - 1;
      YCellsFacts(fmt, ys[..n], row);
      assert forall i :: 0 <= i < n ==> ys[..n][i] == ys[i];
      var ws := YCells(fmt, ys, row);
      forall e | e in ws ensures exists i :: 0 <= i < |ys| && ys[i].name in row && e == CellLeaf(fmt, ys[i].id, row[ys[i].name]) {
        if e !in YCells(fmt, ys[..n], row) {
          assert e == CellLeaf(fmt, ys[n].id, row[ys[n].name]);
        }
      }
    }
  }

  /** A row that has every Y column gets one value per column, in column order. */
  lemma {:induction false} YCellsFull(fmt: real -> string, ys: seq<YColumn>, row: map<string, Cell>)
    requires forall i :: 0 <= i < |ys| ==> ys[i].name in row
    ensures |YCells(fmt, ys, row)| == |ys|
    ensures forall i :: 0 <= i < |ys| ==> YCells(fmt, ys, row)[i] == CellLeaf(fmt, ys[i].id, row[ys[i].name])
  {
    if ys != [] {
      var n := |ys| - 1;
      assert forall i :: 0 <= i < n ==> ys[..n][i] == ys[i];
      YCellsFull(fmt, ys[..n], row);
    }
  }

  /** A row without any Y column gets no Y value. */
  lemma {:induction false} YCellsNone(fmt: real -> string, ys: seq<YColumn>, row: map<string, Cell>)
    requires forall i :: 0 <= i < |ys| ==> ys[i].name !in row
    ensures YCells(fmt, ys, row) == []
  {
    if ys != [] {
      var n := |ys| - 1;
      assert forall i :: 0 <= i < n ==> ys[..n][i] == ys[i];
      YCellsNone(fmt, ys[..n], row);
    }
  }

  /**
   * A data point: without attributes, its first child the X value exactly
   * when the row has the X column, then at most one value per Y column.
   */
  lemma DataPointFacts(fmt: real -> string, x: Axis, ys: seq<YColumn>, row: map<string, Cell>)
    ensures var p := DataPoint(fmt, x, ys, row);
            p.tag == "dataPoint" && p.attrs == map[] && p.text.None?
            && |p.children| <= 1 + |ys|
            && (x.name in row ==> p.children != [] && p.children[0] == CellLeaf(fmt, x.id, row[x.name])
                                  && p.children[1..] == YCells(fmt, ys, row))
            && (x.name !in row ==> p.children == YCells(fmt, ys, row))
  {
    YCellsFacts(fmt, ys, row);
  }

  /** A row with neither the X column nor any Y column gives an empty data point. */
  lemma EmptyRowEmptyPoint(fmt: real -> string, x: Axis, ys: seq<YColumn>, row: map<string, Cell>)
    requires x.name !in row
    requires forall i :: 0 <= i < |ys| ==> ys[i].name !in row
    ensures DataPoint(fmt, x, ys, row).children == []
  {
    YCellsNone(fmt, ys, row);
  }

  /** The tags of the declared properties. */
  lemma PropertyTags(g: DataGroupDraft)
    ensures var ps := [XProperty(g.xAxis)] + YProperties(g.yAxes);
            forall i :: 0 <= i < |ps| ==> ps[i].tag == "property"
  {
  }

  /** Every element is a data point. */
  lemma DataPointTags(fmt: real -> string, x: Axis, ys: seq<YColumn>, rows: seq<map<string, Cell>>)
    ensures forall i :: 0 <= i < |rows| ==> DataPoints(fmt, x, ys, rows)[i].tag == "dataPoint"
  {
  }

  /**
   * A `dataGroup` element: its `id` and `label` are the group's id and name;
   * its `property` children are the X axis followed by the Y columns, and
   * its `dataPoint` children are one per table row, in row order.
   */
  lemma GroupElementFacts(fmt: real -> string, g: DataGroupDraft)
    ensures var ge := GroupElement(fmt, g);
            ge.tag == "dataGroup" && ge.attrs["id"] == g.id && ge.attrs["label"] == g.name
            && FindAll(ge, "property") == [XProperty(g.xAxis)] + YProperties(g.yAxes)
            && FindAll(ge, "dataPoint") == DataPoints(fmt, g.xAxis, g.yAxes, g.data)
            && |FindAll(ge, "dataPoint")| == |g.data|
  {
    var ps := [XProperty(g.xAxis)] + YProperties(g.yAxes);
    var dps := DataPoints(fmt, g.xAxis, g.yAxes, g.data);
    PropertyTags(g);
    DataPointTags(fmt, g.xAxis, g.yAxes, g.data);
    SplitByTag(ps, dps, "property", "dataPoint");
  }

  /** The `name` attributes of properties, in order. */
  function PropertyNames(ps: seq<Element>): (r: seq<string>)
    ensures |r| == |ps|
    ensures forall i :: 0 <= i < |ps| ==> r[i] == Get(ps[i], "name", "")
  {
    if ps == [] then [] else PropertyNames(ps[..|ps| - 1]) + [Get(ps[|ps| - 1], "name", "")]
  }

  /**
   * A group the save button produced is written with a non-empty id and
   * label, and declares its columns, in order, as the names of its properties.
   */
  lemma DeclaredNames(fmt: real -> string, g: DataGroupDraft)
    requires ValidGroup(g)
    ensures Get(GroupElement(fmt, g), "id", "") != "" && Get(GroupElement(fmt, g), "label", "") != ""
    ensures PropertyNames(FindAll(GroupElement(fmt, g), "property")) == g.columns
  {
    var ps := [XProperty(g.xAxis)] + YProperties(g.yAxes);
    assert FindAll(GroupElement(fmt, g), "property") == ps by {
      GroupElementFacts(fmt, g);
    }
    var names := PropertyNames(ps);
    assert |names| == |g.columns|;
    forall i | 0 <= i < |names| ensures names[i] == g.columns[i] {
      if i > 0 {
        assert ps[i] == YProperty(g.yAxes[i - 1]);
      }
    }
  }

  /**
   * Every data group of a session is written with a non-empty id and label,
   * and declares the group's columns, in order, as its property names.
   */
  lemma SessionGroups(fmt: real -> string, show: OptValue -> string, s: Session, info: Option<BasicInfo>, conditions: Option<Conditions>)
    requires s.Valid()
    ensures var ges := FindAll(EncodeTree(fmt, show, s.DraftOf(info, conditions)), "dataGroup");
            |ges| == |s.dataGroups|
            && forall i :: 0 <= i < |ges| ==>
                 Get(ges[i], "id", "") != "" && Get(ges[i], "label", "") != ""
                 && PropertyNames(FindAll(ges[i], "property")) == s.dataGroups[i].columns
  {
    var gs := s.dataGroups;
    RootChildren(fmt, show, s.DraftOf(info, conditions));
    var ges := GroupElements(fmt, gs);
    forall i | 0 <= i < |gs|
      ensures Get(ges[i], "id", "") != "" && Get(ges[i], "label", "") != ""
              && PropertyNames(FindAll(ges[i], "property")) == gs[i].columns
    {
      DeclaredNames(fmt, gs[i]);
    }
  }

  /** Children with one tag followed by children with another are found apart. */
  lemma SplitByTag(ps: seq<Element>, qs: seq<Element>, t: string, u: string)
    requires t != u
    requires forall i :: 0 <= i < |ps| ==> ps[i].tag == t
    requires forall i :: 0 <= i < |qs| ==> qs[i].tag == u
    ensures WithTag(ps + qs, t) == ps && WithTag(ps + qs, u) == qs
  {
    WithTagAppend(ps, qs, t);
    WithTagAppend(ps, qs, u);
    WithTagAll(ps, t);
    WithTagAll(qs, u);
    WithTagNotInTags(ps, u);
    WithTagNotInTags(qs, t);
  }

  /**
   * A Y column's property links its species only when a species was chosen
   * and the registry knows it, and the link carries the registry's
   * identifiers under the chosen name.
   */
  lemma YLinkFacts(y: YColumn)
    ensures var p := YProperty(y);
            p.tag == "property" && p.attrs["id"] == y.id && p.attrs["name"] == y.name && p.attrs["label"] == y.labelText
            && p.attrs["units"] == y.unit
            && |p.children| <= 1
            && (p.children != [] <==> y.species.Some? && y.species.value != "" && y.species.value in CommonSpecies)
  {
  }

  /**
   * The species link of a Y column carries the chosen name as its preferred
   * key and the registry's identifiers for that species, the registry's
   * entry winning for a key both have (`dict.update`).
   */
  lemma YLinkAttrs(y: YColumn)
    requires y.species.Some? && y.species.value != "" && y.species.value in CommonSpecies
    ensures var link := YProperty(y).children[0];
            link.tag == "speciesLink" && link.children == []
            && link.attrs.Keys == {"preferredKey"} + CommonSpecies[y.species.value].Keys
            && ("preferredKey" !in CommonSpecies[y.species.value] ==> link.attrs["preferredKey"] == y.species.value)
            && forall k :: k in CommonSpecies[y.species.value] ==> link.attrs[k] == CommonSpecies[y.species.value][k]
  {
    var sp := y.species.value;
    UpdateFacts(sp, CommonSpecies[sp]);
  }

  /** `{'preferredKey': sp}` updated with `info`. */
  lemma UpdateFacts(sp: string, info: map<string, string>)
    ensures var m := map["preferredKey" := sp] + info;
            m.Keys == {"preferredKey"} + info.Keys
            && ("preferredKey" !in info ==> m["preferredKey"] == sp)
            && forall k :: k in info ==> m[k] == info[k]
  {
  }

  /**
   * The text the encoder returns has no whitespace-only line, and filtering
   * it once more changes nothing.
   */
  lemma EncodedTextClean(fmt: real -> string, show: OptValue -> string, pretty: Element -> string, d: Draft)
    ensures var text := Encode(fmt, show, pretty, d);
            text == [] || forall k :: 0 <= k < |Split(text)| ==> !IsBlank(Split(text)[k])
    ensures StripBlankLines(Encode(fmt, show, pretty, d)) == Encode(fmt, show, pretty, d)
  {
    var printed := pretty(EncodeTree(fmt, show, d));
    NoBlankLine(printed);
    StripBlankLinesIdempotent(printed);
  }
}
