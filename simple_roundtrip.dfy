/**
 * Reading back a data group written by the reduced encoder: its id, its
 * generated column declarations, and one dictionary per table row holding,
 * under each column name the row has, the value the decoder's coercion
 * makes of the written cell text.
 */
module SimpleRoundTrip {
  import opened Wrappers
  import opened Xml
  import opened Values
  import opened DataGroups
  import opened DataGroupFacts
  import opened Draft
  import opened SimpleEncoder
  import SimpleEncoderFacts
  import Encoder

  /** The property map the decoder builds from the generated column declarations. */
  function ColumnMap(cols: seq<string>): map<Option<string>, PropertyInfo> {
    MapOf(Infos(ColumnProperties(cols)))
  }

  /** The row has at least one of the columns. */
  predicate HasColumn(cols: seq<string>, row: map<string, Cell>) {
    exists k :: k in cols && k in row
  }

  /** What the decoder should make of the row: its columns, each with its cell's text coerced. */
  predicate DecodedAs(parse: string -> Option<real>, fmt: real -> string, cols: seq<string>, row: map<string, Cell>, r: Row) {
    (forall k :: k in r.cells ==> k in cols && k in row)
    && (forall k :: k in cols && k in row ==>
          k in r.cells && r.cells[k] == Coerce(parse, Some(Encoder.CellText(fmt, row[k]))))
  }

  /** A generated declaration reads back as an unlabelled, unitless property named after its column. */
  lemma ColumnPropertyRead(i: nat, col: string)
    ensures PropertyInfoOf(ColumnProperty(i, col)) == PropertyInfo(Some(ColumnId(i)), col, "", "", None, col)
  {
    var p := ColumnProperty(i, col);
    assert Find(p, "speciesLink").None?;
    assert Get(p, "label", "") == "" && Get(p, "units", "") == "";
  }

  /** The declared properties read back one per column, in column order. */
  lemma ColumnsRead(cols: seq<string>)
    ensures |Infos(ColumnProperties(cols))| == |cols|
    ensures forall i :: 0 <= i < |cols| ==>
              Infos(ColumnProperties(cols))[i] == PropertyInfo(Some(ColumnId(i)), cols[i], "", "", None, cols[i])
  {
    forall i | 0 <= i < |cols|
      ensures Infos(ColumnProperties(cols))[i] == PropertyInfo(Some(ColumnId(i)), cols[i], "", "", None, cols[i])
    {
      ColumnPropertyRead(i, cols[i]);
    }
  }

  /** No two columns get the same id, so each declaration is the last with its id. */
  lemma ColumnIdsLast(cols: seq<string>)
    ensures forall i :: 0 <= i < |cols| ==> LastWithId(Infos(ColumnProperties(cols)), i)
  {
    var infos := Infos(ColumnProperties(cols));
    ColumnsRead(cols);
    forall i, j | 0 <= i < j < |infos| ensures infos[j].id != infos[i].id {
      if ColumnId(j) == ColumnId(i) {
        SimpleEncoderFacts.ColumnIdInjective(j, i);
      }
    }
  }

  /** The tag of column `i` is declared, and names that column. */
  lemma ColumnMapNames(cols: seq<string>)
    ensures forall i :: 0 <= i < |cols| ==>
              Some(ColumnId(i)) in ColumnMap(cols) && ColumnMap(cols)[Some(ColumnId(i))].columnName == cols[i]
  {
    var infos := Infos(ColumnProperties(cols));
    ColumnsRead(cols);
    ColumnIdsLast(cols);
    MapOfLastWins(infos);
  }

  /** The property map knows no tag but the generated ones. */
  lemma ColumnMapKeys(cols: seq<string>)
    ensures forall id :: id in ColumnMap(cols) ==> exists i :: 0 <= i < |cols| && id == Some(ColumnId(i))
  {
    var infos := Infos(ColumnProperties(cols));
    ColumnsRead(cols);
    MapOfKeys(infos);
    forall id | id in ColumnMap(cols) ensures exists i :: 0 <= i < |cols| && id == Some(ColumnId(i)) {
      var i :| 0 <= i < |infos| && Ids(infos)[i] == id;
      assert id == infos[i].id;
    }
  }

  /** A written value is declared, and it fills its column. */
  lemma CellDeclared(fmt: real -> string, cols: seq<string>, i: nat, c: Cell)
    requires i < |cols|
    ensures Declared(ColumnMap(cols), SimpleEncoderFacts.CellLeaf(fmt, i, c))
    ensures ColumnOf(ColumnMap(cols), SimpleEncoderFacts.CellLeaf(fmt, i, c)) == cols[i]
  {
    ColumnMapNames(cols);
  }

  /** A written value is declared, fills a column the row has, and holds the text of the row's cell. */
  lemma WrittenCell(fmt: real -> string, cols: seq<string>, row: map<string, Cell>, e: Element)
    requires e in PointCells(fmt, cols, row)
    ensures Declared(ColumnMap(cols), e)
    ensures ColumnOf(ColumnMap(cols), e) in cols && ColumnOf(ColumnMap(cols), e) in row
    ensures e.text == Some(Encoder.CellText(fmt, row[ColumnOf(ColumnMap(cols), e)]))
  {
    SimpleEncoderFacts.PointCellsFacts(fmt, cols, row);
    var i :| 0 <= i < |cols| && cols[i] in row && e == SimpleEncoderFacts.CellLeaf(fmt, i, row[cols[i]]);
    CellDeclared(fmt, cols, i, row[cols[i]]);
  }

  /** Every written value is declared, and holds the coerced cell of the column it fills. */
  lemma PointValuesRead(parse: string -> Option<real>, fmt: real -> string, cols: seq<string>, row: map<string, Cell>)
    ensures var cells := PointRow(parse, ColumnMap(cols), PointCells(fmt, cols, row)).cells;
            forall k :: k in cells ==> cells[k] == if k in row then Coerce(parse, Some(Encoder.CellText(fmt, row[k]))) else Null
  {
    var pmap := ColumnMap(cols);
    var cs := PointCells(fmt, cols, row);
    var val := (k: string) => if k in row then Coerce(parse, Some(Encoder.CellText(fmt, row[k]))) else Null;
    forall j | 0 <= j < |cs| && Declared(pmap, cs[j])
      ensures Coerce(parse, cs[j].text) == val(ColumnOf(pmap, cs[j]))
    {
      WrittenCell(fmt, cols, row, cs[j]);
    }
    PointRowUniform(parse, pmap, cs, val);
  }

  /** A column of a written data point, read back, is a column the row has. */
  lemma PointKeysSound(parse: string -> Option<real>, fmt: real -> string, cols: seq<string>, row: map<string, Cell>)
    ensures forall k :: k in PointRow(parse, ColumnMap(cols), PointCells(fmt, cols, row)).cells ==> k in cols && k in row
  {
    var pmap := ColumnMap(cols);
    var cs := PointCells(fmt, cols, row);
    PointRowKeys(parse, pmap, cs);
    forall k | k in PointRow(parse, pmap, cs).cells ensures k in cols && k in row {
      var j :| 0 <= j < |cs| && Declared(pmap, cs[j]) && ColumnOf(pmap, cs[j]) == k;
      WrittenCell(fmt, cols, row, cs[j]);
    }
  }

  /** Every column the row has is read back from the written data point. */
  lemma PointKeysComplete(parse: string -> Option<real>, fmt: real -> string, cols: seq<string>, row: map<string, Cell>)
    ensures forall k :: k in cols && k in row ==> k in PointRow(parse, ColumnMap(cols), PointCells(fmt, cols, row)).cells
  {
    var pmap := ColumnMap(cols);
    var cs := PointCells(fmt, cols, row);
    SimpleEncoderFacts.PointCellsFacts(fmt, cols, row);
    PointRowKeys(parse, pmap, cs);
    forall k | k in cols && k in row ensures k in PointRow(parse, pmap, cs).cells {
      var i :| 0 <= i < |cols| && cols[i] == k;
      var e := SimpleEncoderFacts.CellLeaf(fmt, i, row[k]);
      assert e in cs;
      var j :| 0 <= j < |cs| && cs[j] == e;
      CellDeclared(fmt, cols, i, row[k]);
    }
  }

  /**
   * A written data point reads back as a dictionary with exactly the columns
   * the row has, each holding the coerced text of the row's cell.
   */
  lemma PointRead(parse: string -> Option<real>, fmt: real -> string, cols: seq<string>, row: map<string, Cell>)
    ensures DecodedAs(parse, fmt, cols, row, PointRow(parse, ColumnMap(cols), PointCells(fmt, cols, row)))
  {
    PointKeysSound(parse, fmt, cols, row);
    PointKeysComplete(parse, fmt, cols, row);
    PointValuesRead(parse, fmt, cols, row);
  }

  /** The id, label and declared properties of a written group, read back. */
  lemma GroupHeadRead(parse: string -> Option<real>, fmt: real -> string, g: TableGroup)
    ensures var d := DataGroupOf(parse, GroupElement(fmt, g));
            d.id == g.id && d.labelText == ""
            && |d.properties| == |g.columns|
            && (forall i :: 0 <= i < |g.columns| ==>
                  d.properties[i] == PropertyInfo(Some(ColumnId(i)), g.columns[i], "", "", None, g.columns[i]))
            && d.propertyMap == ColumnMap(g.columns)
  {
    var dg := GroupElement(fmt, g);
    SimpleEncoderFacts.GroupElementFacts(fmt, g);
    GroupShape(parse, dg);
    ColumnsRead(g.columns);
  }

  /** The rows of a written group are those the decoder keeps of its data points. */
  lemma GroupRows(parse: string -> Option<real>, fmt: real -> string, g: TableGroup)
    ensures DataGroupOf(parse, GroupElement(fmt, g)).datapoints
            == KeptRows(parse, ColumnMap(g.columns), Points(fmt, g.columns, g.data))
  {
    SimpleEncoderFacts.GroupElementFacts(fmt, g);
  }

  /** A written row with one of the columns gives a data point the decoder keeps, read back as the row. */
  lemma PointKept(parse: string -> Option<real>, fmt: real -> string, cols: seq<string>, row: map<string, Cell>)
    requires HasColumn(cols, row)
    ensures Fills(parse, ColumnMap(cols), Point(fmt, cols, row))
    ensures DecodedAs(parse, fmt, cols, row, PointRow(parse, ColumnMap(cols), Point(fmt, cols, row).children))
  {
    PointRead(parse, fmt, cols, row);
    var k :| k in cols && k in row;
    assert k in PointRow(parse, ColumnMap(cols), PointCells(fmt, cols, row)).cells;
  }

  /**
   * When every row of the group has at least one of its columns, the group
   * reads back with one dictionary per row, in row order, each as the row
   * was written.
   */
  lemma GroupRowsRead(parse: string -> Option<real>, fmt: real -> string, g: TableGroup)
    requires forall i :: 0 <= i < |g.data| ==> HasColumn(g.columns, g.data[i])
    ensures var d := DataGroupOf(parse, GroupElement(fmt, g));
            |d.datapoints| == |g.data|
            && forall i :: 0 <= i < |g.data| ==> DecodedAs(parse, fmt, g.columns, g.data[i], d.datapoints[i])
  {
    var pmap := ColumnMap(g.columns);
    var dps := Points(fmt, g.columns, g.data);
    GroupRows(parse, fmt, g);
    forall i | 0 <= i < |dps|
      ensures Fills(parse, pmap, dps[i]) && DecodedAs(parse, fmt, g.columns, g.data[i], PointRow(parse, pmap, dps[i].children))
    {
      PointKept(parse, fmt, g.columns, g.data[i]);
    }
    KeptRowsAll(parse, pmap, dps);
  }
}
