/**
 * What the decoding of a data group guarantees: the id-keyed map keeps the
 * last declaration of each id, a data point's dictionary holds exactly the
 * columns of its declared children with the value of the last one, and the
 * final column list follows the declaration order and shows every displayed
 * column of the rows.
 */
module DataGroupFacts {
  import opened Wrappers
  import opened Xml
  import opened Values
  import opened PyText
  import opened DataGroups

  /** No element of `s` occurs twice. */
  predicate Distinct<T(==)>(s: seq<T>) {
    forall i, j :: 0 <= i < j < |s| ==> s[i] != s[j]
  }

  /** A dictionary's key list: every key once, and the keys of the dictionary exactly. */
  predicate WellFormed(r: Row) {
    Distinct(r.order) && (forall k :: k in r.cells ==> k in r.order) && (forall k :: k in r.order ==> k in r.cells)
  }

  /** The declaration at index `i` is the last one with its id. */
  predicate LastWithId(infos: seq<PropertyInfo>, i: int)
    requires 0 <= i < |infos|
  {
    forall j :: i < j < |infos| ==> infos[j].id != infos[i].id
  }

  // ---------------------------------------------------------------- the property map

  /** The keys of the property map are the declared ids. */
  lemma {:induction false} MapOfKeys(infos: seq<PropertyInfo>)
    ensures forall id :: id in MapOf(infos) <==> id in Ids(infos)
  {
    if infos != [] {
      var n := |infos| - 1;
      MapOfKeys(infos[..n]);
      assert Ids(infos) == Ids(infos[..n]) + [infos[n].id];
    }
  }

  /** Each declared id maps to its last declaration. */
  lemma {:induction false} MapOfLastWins(infos: seq<PropertyInfo>)
    ensures forall i :: 0 <= i < |infos| && LastWithId(infos, i) ==>
              infos[i].id in MapOf(infos) && MapOf(infos)[infos[i].id] == infos[i]
  {
    if infos != [] {
      var n := |infos| - 1;
      var front := infos[..n];
      MapOfLastWins(front);
      assert MapOf(infos) == MapOf(front)[infos[n].id := infos[n]];
      forall i | 0 <= i < |infos| && LastWithId(infos, i)
        ensures infos[i].id in MapOf(infos) && MapOf(infos)[infos[i].id] == infos[i]
      {
        if i < n {
          assert front[i] == infos[i];
          assert LastWithId(front, i) by {
            forall j | i < j < n ensures front[j].id != front[i].id {
              assert front[j] == infos[j];
            }
          }
        }
      }
    }
  }

  /** Every key of the property map is the id of a declaration, and maps to a declaration. */
  lemma {:induction false} MapOfValues(infos: seq<PropertyInfo>)
    ensures forall id :: id in MapOf(infos) ==> MapOf(infos)[id] in infos && MapOf(infos)[id].id == id
  {
    if infos != [] {
      var n := |infos| - 1;
      MapOfValues(infos[..n]);
      assert forall x :: x in infos[..n] ==> x in infos;
    }
  }

  // ---------------------------------------------------------------- one data point

  /** Setting a key keeps the key list well formed; a key already present keeps its place. */
  lemma PutKeepsInsertionOrder(row: Row, k: string, v: Value)
    requires WellFormed(row)
    ensures WellFormed(Put(row, k, v))
    ensures Put(row, k, v).cells[k] == v
    ensures k in row.cells ==> Put(row, k, v).order == row.order
    ensures k !in row.cells ==> Put(row, k, v).order == row.order + [k]
  {
  }

  /** The dictionary of a data point is well formed. */
  lemma {:induction false} PointRowWellFormed(parse: string -> Option<real>, pmap: map<Option<string>, PropertyInfo>, cs: seq<Element>)
    ensures WellFormed(PointRow(parse, pmap, cs))
  {
    if cs != [] {
      var n := |cs| - 1;
      PointRowWellFormed(parse, pmap, cs[..n]);
      if Declared(pmap, cs[n]) {
        PutKeepsInsertionOrder(PointRow(parse, pmap, cs[..n]), ColumnOf(pmap, cs[n]), Coerce(parse, cs[n].text));
      }
    }
  }

  /** The keys of a data point's dictionary are the columns of its declared children, and no others. */
  lemma {:induction false} PointRowKeys(parse: string -> Option<real>, pmap: map<Option<string>, PropertyInfo>, cs: seq<Element>)
    ensures forall k :: k in PointRow(parse, pmap, cs).cells <==>
                        exists j :: 0 <= j < |cs| && Declared(pmap, cs[j]) && ColumnOf(pmap, cs[j]) == k
  {
    if cs != [] {
      var n := |cs| - 1;
      PointRowKeys(parse, pmap, cs[..n]);
      assert forall j :: 0 <= j < n ==> cs[..n][j] == cs[j];
    }
  }

  /** No later declared child of the data point fills the same column as child `j`. */
  predicate LastForColumn(pmap: map<Option<string>, PropertyInfo>, cs: seq<Element>, j: int)
    requires 0 <= j < |cs| && Declared(pmap, cs[j])
  {
    forall l :: j < l < |cs| && Declared(pmap, cs[l]) ==> ColumnOf(pmap, cs[l]) != ColumnOf(pmap, cs[j])
  }

  /** A column holds the coerced text of the last declared child that fills it. */
  lemma {:induction false} PointRowLastWins(parse: string -> Option<real>, pmap: map<Option<string>, PropertyInfo>, cs: seq<Element>)
    ensures forall j :: 0 <= j < |cs| && Declared(pmap, cs[j]) && LastForColumn(pmap, cs, j) ==>
              ColumnOf(pmap, cs[j]) in PointRow(parse, pmap, cs).cells
              && PointRow(parse, pmap, cs).cells[ColumnOf(pmap, cs[j])] == Coerce(parse, cs[j].text)
  {
    if cs != [] {
      var n := |cs| - 1;
      PointRowLastWins(parse, pmap, cs[..n]);
      forall j | 0 <= j < |cs| && Declared(pmap, cs[j]) && LastForColumn(pmap, cs, j)
        ensures ColumnOf(pmap, cs[j]) in PointRow(parse, pmap, cs).cells
        ensures PointRow(parse, pmap, cs).cells[ColumnOf(pmap, cs[j])] == Coerce(parse, cs[j].text)
      {
        if j < n {
          assert cs[..n][j] == cs[j];
          assert LastForColumn(pmap, cs[..n], j) by {
            forall l | j < l < n && Declared(pmap, cs[..n][l])
              ensures ColumnOf(pmap, cs[..n][l]) != ColumnOf(pmap, cs[..n][j])
            {
              assert cs[..n][l] == cs[l];
            }
          }
        }
      }
    }
  }

  /** A data point's dictionary is empty exactly when none of its children is declared. */
  lemma PointRowEmptyIff(parse: string -> Option<real>, pmap: map<Option<string>, PropertyInfo>, cs: seq<Element>)
    ensures PointRow(parse, pmap, cs).cells == map[] <==> forall j :: 0 <= j < |cs| ==> !Declared(pmap, cs[j])
  {
    PointRowKeys(parse, pmap, cs);
    var cells := PointRow(parse, pmap, cs).cells;
    if cells != map[] {
      var k :| k in cells;
    }
    forall j | 0 <= j < |cs| && Declared(pmap, cs[j]) ensures ColumnOf(pmap, cs[j]) in cells {
    }
  }

  /**
   * When every declared child carries the value `val` gives its column, the
   * dictionary holds that value under each of its keys, whichever child came last.
   */
  lemma {:induction false} PointRowUniform(parse: string -> Option<real>, pmap: map<Option<string>, PropertyInfo>, cs: seq<Element>, val: string -> Value)
    requires forall j :: 0 <= j < |cs| && Declared(pmap, cs[j]) ==> Coerce(parse, cs[j].text) == val(ColumnOf(pmap, cs[j]))
    ensures forall k :: k in PointRow(parse, pmap, cs).cells ==> PointRow(parse, pmap, cs).cells[k] == val(k)
  {
    if cs != [] {
      var n := |cs| - 1;
      assert forall j :: 0 <= j < n ==> cs[..n][j] == cs[j];
      PointRowUniform(parse, pmap, cs[..n], val);
    }
  }

  // ---------------------------------------------------------------- the kept rows

  /** Every key of the row is the column name of a declared property. */
  predicate DeclaredKeys(pmap: map<Option<string>, PropertyInfo>, r: Row) {
    forall k :: k in r.cells ==> exists id :: id in pmap && pmap[id].columnName == k
  }

  /** The kept rows are well formed, not empty, and hold only declared columns. */
  lemma {:induction false} KeptRowsShape(parse: string -> Option<real>, pmap: map<Option<string>, PropertyInfo>, dps: seq<Element>)
    ensures |KeptRows(parse, pmap, dps)| <= |dps|
    ensures forall i :: 0 <= i < |KeptRows(parse, pmap, dps)| ==>
              var r := KeptRows(parse, pmap, dps)[i];
              r.cells != map[] && WellFormed(r) && DeclaredKeys(pmap, r)
  {
    if dps != [] {
      var n := |dps| - 1;
      KeptRowsShape(parse, pmap, dps[..n]);
      var row := PointRow(parse, pmap, dps[n].children);
      PointRowWellFormed(parse, pmap, dps[n].children);
      PointRowKeys(parse, pmap, dps[n].children);
      assert DeclaredKeys(pmap, row) by {
        forall k | k in row.cells ensures exists id :: id in pmap && pmap[id].columnName == k {
          var j :| 0 <= j < |dps[n].children| && Declared(pmap, dps[n].children[j]) && ColumnOf(pmap, dps[n].children[j]) == k;
          assert Some(dps[n].children[j].tag) in pmap;
        }
      }
    }
  }

  /** No row is kept exactly when no data point has a declared child. */
  lemma {:induction false} KeptRowsEmptyIff(parse: string -> Option<real>, pmap: map<Option<string>, PropertyInfo>, dps: seq<Element>)
    ensures KeptRows(parse, pmap, dps) == [] <==>
            forall i, j :: 0 <= i < |dps| && 0 <= j < |dps[i].children| ==> !Declared(pmap, dps[i].children[j])
  {
    if dps != [] {
      var n := |dps| - 1;
      KeptRowsEmptyIff(parse, pmap, dps[..n]);
      PointRowEmptyIff(parse, pmap, dps[n].children);
      assert forall i :: 0 <= i < n ==> dps[..n][i] == dps[i];
    }
  }

  /** The data point gives a dictionary that is not empty. */
  predicate Fills(parse: string -> Option<real>, pmap: map<Option<string>, PropertyInfo>, dp: Element) {
    PointRow(parse, pmap, dp.children).cells != map[]
  }

  /** When no data point gives an empty dictionary, every data point gives a kept row, in order. */
  lemma {:induction false} KeptRowsAll(parse: string -> Option<real>, pmap: map<Option<string>, PropertyInfo>, dps: seq<Element>)
    requires forall i :: 0 <= i < |dps| ==> Fills(parse, pmap, dps[i])
    ensures |KeptRows(parse, pmap, dps)| == |dps|
    ensures forall i :: 0 <= i < |dps| ==> KeptRows(parse, pmap, dps)[i] == PointRow(parse, pmap, dps[i].children)
  {
    if dps != [] {
      var n := |dps| - 1;
      var front := dps[..n];
      assert forall i :: 0 <= i < n ==> front[i] == dps[i];
      KeptRowsAll(parse, pmap, front);
      var kept := KeptRows(parse, pmap, front);
      var last := PointRow(parse, pmap, dps[n].children);
      assert Fills(parse, pmap, dps[n]);
      assert KeptRows(parse, pmap, dps) == kept + [last];
      forall i | 0 <= i < |dps| ensures KeptRows(parse, pmap, dps)[i] == PointRow(parse, pmap, dps[i].children) {
        if i < n {
          assert (kept + [last])[i] == kept[i];
        }
      }
    }
  }

  // ---------------------------------------------------------------- column lists

  /** Adding the new keys keeps `acc` in front, keeps the list free of repeats, and adds exactly the keys. */
  lemma {:induction false} AddNewFacts(acc: seq<string>, keys: seq<string>)
    ensures |AddNew(acc, keys)| >= |acc| && AddNew(acc, keys)[..|acc|] == acc
    ensures forall x :: x in AddNew(acc, keys) <==> x in acc || x in keys
    ensures Distinct(acc) ==> Distinct(AddNew(acc, keys))
  {
    if keys != [] {
      var n := |keys| - 1;
      AddNewFacts(acc, keys[..n]);
      assert keys == keys[..n] + [keys[n]];
    }
  }

  /** Adding keys that are all present already changes nothing. */
  lemma {:induction false} AddNewPresent(acc: seq<string>, keys: seq<string>)
    requires forall k :: k in keys ==> k in acc
    ensures AddNew(acc, keys) == acc
  {
    if keys != [] {
      var n := |keys| - 1;
      assert forall k :: k in keys[..n] ==> k in keys;
      AddNewPresent(acc, keys[..n]);
    }
  }

  /** The DataFrame's columns: each key of some row, once, and nothing else. */
  lemma {:induction false} FrameColumnsFacts(rows: seq<Row>)
    ensures Distinct(FrameColumns(rows))
    ensures forall x :: x in FrameColumns(rows) <==> exists i :: 0 <= i < |rows| && x in rows[i].order
  {
    if rows != [] {
      var n := |rows| - 1;
      FrameColumnsFacts(rows[..n]);
      AddNewFacts(FrameColumns(rows[..n]), rows[n].order);
      assert forall i :: 0 <= i < n ==> rows[..n][i] == rows[i];
    }
  }

  /** The displayed columns are the columns that do not start with an underscore. */
  lemma {:induction false} DisplayFacts(cols: seq<string>)
    ensures forall x :: x in Display(cols) <==> x in cols && !StartsWithUnderscore(x)
  {
    if cols != [] {
      var n := |cols| - 1;
      DisplayFacts(cols[..n]);
      assert cols == cols[..n] + [cols[n]];
    }
  }

  /** The first reordering loop lists exactly the displayed columns of the declared ids of `order`. */
  lemma {:induction false} DeclaredColumnsFacts(pmap: map<Option<string>, PropertyInfo>, order: seq<Option<string>>, display: seq<string>)
    ensures forall x :: x in DeclaredColumns(pmap, order, display) <==>
              x in display && exists m :: 0 <= m < |order| && order[m] in pmap && pmap[order[m]].columnName == x
  {
    if order != [] {
      var n := |order| - 1;
      DeclaredColumnsFacts(pmap, order[..n], display);
      assert forall m :: 0 <= m < n ==> order[..n][m] == order[m];
    }
  }

  /** The positions of `order` whose id is declared with column `x`. */
  function PositionsOf(pmap: map<Option<string>, PropertyInfo>, order: seq<Option<string>>, x: string): set<nat> {
    set m: nat | m < |order| && order[m] in pmap && pmap[order[m]].columnName == x
  }

  /**
   * The first reordering loop lists a displayed column once per position of
   * `order` whose id has that column: a repeated id, or two ids with the same
   * column, list it repeatedly.
   */
  lemma {:induction false} DeclaredColumnsCount(pmap: map<Option<string>, PropertyInfo>, order: seq<Option<string>>, display: seq<string>, x: string)
    requires x in display
    ensures multiset(DeclaredColumns(pmap, order, display))[x] == |PositionsOf(pmap, order, x)|
  {
    if order != [] {
      var n := |order| - 1;
      DeclaredColumnsCount(pmap, order[..n], display, x);
      PositionsSnoc(pmap, order, x);
      var id := order[n];
      var last := if id in pmap && pmap[id].columnName in display then [pmap[id].columnName] else [];
      assert DeclaredColumns(pmap, order, display) == DeclaredColumns(pmap, order[..n], display) + last;
      assert multiset(last)[x] == if id in pmap && pmap[id].columnName == x then 1 else 0;
    }
  }

  /** One more id adds its position to those of its column. */
  lemma PositionsSnoc(pmap: map<Option<string>, PropertyInfo>, order: seq<Option<string>>, x: string)
    requires order != []
    ensures var n := |order| - 1;
            var a := PositionsOf(pmap, order[..n], x);
            n !in a
            && PositionsOf(pmap, order, x) == a + (if order[n] in pmap && pmap[order[n]].columnName == x then {n} else {})
  {
    var n := |order| - 1;
    assert forall m :: 0 <= m < n ==> order[..n][m] == order[m];
  }

  /** The first reordering loop keeps the order of `order`: over two runs of ids it lists the first's columns, then the second's. */
  lemma {:induction false} DeclaredColumnsAppend(pmap: map<Option<string>, PropertyInfo>, a: seq<Option<string>>, b: seq<Option<string>>, display: seq<string>)
    ensures DeclaredColumns(pmap, a + b, display) == DeclaredColumns(pmap, a, display) + DeclaredColumns(pmap, b, display)
  {
    if b != [] {
      var n := |b| - 1;
      DeclaredColumnsAppend(pmap, a, b[..n], display);
      assert (a + b)[..|a + b| - 1] == a + b[..n];
    } else {
      assert a + b == a;
    }
  }

  /**
   * Rows as the decoder builds them: every id of the map is in `order`, and
   * each row is well formed with only declared columns as keys.
   */
  predicate RowsOver(pmap: map<Option<string>, PropertyInfo>, order: seq<Option<string>>, rows: seq<Row>) {
    (forall id :: id in pmap ==> id in order)
    && forall i :: 0 <= i < |rows| ==> WellFormed(rows[i]) && DeclaredKeys(pmap, rows[i])
  }

  /** The decoder's own rows, map and id order are related as `RowsOver` says. */
  lemma DecodedRowsOver(parse: string -> Option<real>, infos: seq<PropertyInfo>, dps: seq<Element>)
    ensures RowsOver(MapOf(infos), Ids(infos), KeptRows(parse, MapOf(infos), dps))
  {
    MapOfKeys(infos);
    KeptRowsShape(parse, MapOf(infos), dps);
  }

  /** Every displayed column of the rows is placed by the first reordering loop. */
  lemma DisplayedAreDeclared(pmap: map<Option<string>, PropertyInfo>, order: seq<Option<string>>, rows: seq<Row>)
    requires RowsOver(pmap, order, rows)
    ensures forall x :: x in Display(FrameColumns(rows)) ==> x in DeclaredColumns(pmap, order, Display(FrameColumns(rows)))
  {
    var frame := FrameColumns(rows);
    var display := Display(frame);
    var declared := DeclaredColumns(pmap, order, display);
    FrameColumnsFacts(rows);
    DisplayFacts(frame);
    DeclaredColumnsFacts(pmap, order, display);
    forall x | x in display ensures x in declared {
      var i :| 0 <= i < |rows| && x in rows[i].order;
      assert x in rows[i].cells;
      var id :| id in pmap && pmap[id].columnName == x;
      var m :| 0 <= m < |order| && order[m] == id;
    }
  }

  /**
   * The second reordering loop adds nothing: every displayed column of the
   * rows is the column of a declared id, so the first loop has placed it.
   */
  lemma SecondLoopAddsNothing(pmap: map<Option<string>, PropertyInfo>, order: seq<Option<string>>, rows: seq<Row>)
    requires RowsOver(pmap, order, rows)
    ensures OrderedColumns(pmap, order, rows) == DeclaredColumns(pmap, order, Display(FrameColumns(rows)))
  {
    DisplayedAreDeclared(pmap, order, rows);
    AddNewPresent(DeclaredColumns(pmap, order, Display(FrameColumns(rows))), Display(FrameColumns(rows)));
  }

  /**
   * The columns of the final table: all of them are columns of the rows;
   * every column of the rows that does not start with an underscore is among
   * them; and unless no column is displayed they are the declared columns in
   * declaration order.
   */
  lemma FinalColumnsFacts(pmap: map<Option<string>, PropertyInfo>, order: seq<Option<string>>, rows: seq<Row>)
    requires RowsOver(pmap, order, rows)
    ensures var final := FinalColumns(pmap, order, rows);
            (forall x :: x in final ==> exists i :: 0 <= i < |rows| && x in rows[i].cells)
            && (forall i, x :: 0 <= i < |rows| && x in rows[i].cells && !StartsWithUnderscore(x) ==> x in final)
            && (Display(FrameColumns(rows)) != [] ==> final == DeclaredColumns(pmap, order, Display(FrameColumns(rows))))
            && (Display(FrameColumns(rows)) == [] ==> final == FrameColumns(rows))
  {
    FinalIsDeclaredOrFrame(pmap, order, rows);
    FinalWithinRows(pmap, order, rows);
    DisplayedInFinal(pmap, order, rows);
  }

  /** With no displayed column the first reordering loop places nothing. */
  lemma {:induction false} NothingDisplayed(pmap: map<Option<string>, PropertyInfo>, order: seq<Option<string>>)
    ensures DeclaredColumns(pmap, order, []) == []
  {
    if order != [] {
      NothingDisplayed(pmap, order[..|order| - 1]);
    }
  }

  lemma FinalIsDeclaredOrFrame(pmap: map<Option<string>, PropertyInfo>, order: seq<Option<string>>, rows: seq<Row>)
    requires RowsOver(pmap, order, rows)
    ensures var display := Display(FrameColumns(rows));
            FinalColumns(pmap, order, rows)
              == if display != [] then DeclaredColumns(pmap, order, display) else FrameColumns(rows)
  {
    var display := Display(FrameColumns(rows));
    SecondLoopAddsNothing(pmap, order, rows);
    if display != [] {
      DisplayedAreDeclared(pmap, order, rows);
      assert display[0] in DeclaredColumns(pmap, order, display);
    } else {
      NothingDisplayed(pmap, order);
    }
  }

  lemma FinalWithinRows(pmap: map<Option<string>, PropertyInfo>, order: seq<Option<string>>, rows: seq<Row>)
    requires RowsOver(pmap, order, rows)
    ensures forall x :: x in FinalColumns(pmap, order, rows) ==> exists i :: 0 <= i < |rows| && x in rows[i].cells
  {
    var frame := FrameColumns(rows);
    var display := Display(frame);
    FinalIsDeclaredOrFrame(pmap, order, rows);
    FrameColumnsFacts(rows);
    DisplayFacts(frame);
    DeclaredColumnsFacts(pmap, order, display);
    forall x | x in FinalColumns(pmap, order, rows) ensures exists i :: 0 <= i < |rows| && x in rows[i].cells {
      assert x in frame;
      var i :| 0 <= i < |rows| && x in rows[i].order;
    }
  }

  lemma DisplayedInFinal(pmap: map<Option<string>, PropertyInfo>, order: seq<Option<string>>, rows: seq<Row>)
    requires RowsOver(pmap, order, rows)
    ensures forall i, x :: 0 <= i < |rows| && x in rows[i].cells && !StartsWithUnderscore(x) ==> x in FinalColumns(pmap, order, rows)
  {
    var frame := FrameColumns(rows);
    var display := Display(frame);
    FinalIsDeclaredOrFrame(pmap, order, rows);
    FrameColumnsFacts(rows);
    DisplayFacts(frame);
    DisplayedAreDeclared(pmap, order, rows);
    forall i, x | 0 <= i < |rows| && x in rows[i].cells && !StartsWithUnderscore(x) ensures x in FinalColumns(pmap, order, rows) {
      assert x in rows[i].order;
      assert x in display;
    }
  }

  /** A property id declared twice puts its column in the table twice. */
  lemma RepeatedIdRepeatsColumn()
    ensures var info := PropertyInfo(Some("x1"), "temperature", "", "K", None, "temperature (K)");
            DeclaredColumns(map[Some("x1") := info], [Some("x1"), Some("x1")], ["temperature (K)"])
              == ["temperature (K)", "temperature (K)"]
  {
    var info := PropertyInfo(Some("x1"), "temperature", "", "K", None, "temperature (K)");
    var pmap := map[Some("x1") := info];
    var display := ["temperature (K)"];
    var once: seq<Option<string>> := [Some("x1")];
    assert once[..0] == [];
    assert DeclaredColumns(pmap, once, display) == ["temperature (K)"];
    assert [Some("x1"), Some("x1")][..1] == once;
  }

  // ---------------------------------------------------------------- a whole group

  /**
   * A decoded group: its id and label are the element's, its properties are
   * the declared ones in order, keyed by id in its map, and it keeps a row
   * exactly when some data point has a declared child.
   */
  lemma GroupShape(parse: string -> Option<real>, dg: Element)
    ensures var g := DataGroupOf(parse, dg);
            var dps := FindAll(dg, "dataPoint");
            g.id == Get(dg, "id", "") && g.labelText == Get(dg, "label", "")
            && g.properties == Infos(FindAll(dg, "property"))
            && g.propertyMap == MapOf(g.properties)
            && g.datapoints == KeptRows(parse, g.propertyMap, dps)
            && (g.datapoints == [] <==>
                forall i, j :: 0 <= i < |dps| && 0 <= j < |dps[i].children| ==> !Declared(g.propertyMap, dps[i].children[j]))
  {
    var infos := Infos(FindAll(dg, "property"));
    var pmap := MapOf(infos);
    var rows := KeptRows(parse, pmap, FindAll(dg, "dataPoint"));
    KeptRowsEmptyIff(parse, pmap, FindAll(dg, "dataPoint"));
    var g := DataGroupOf(parse, dg);
    assert g.id == Get(dg, "id", "") && g.labelText == Get(dg, "label", "");
    assert g.properties == infos && g.propertyMap == pmap && g.datapoints == rows;
  }

  /**
   * A decoded group has a table and statistics exactly when it kept a row;
   * the statistics count the rows and repeat the table's columns.
   */
  lemma GroupSummary(parse: string -> Option<real>, dg: Element)
    ensures var g := DataGroupOf(parse, dg);
            (g.statistics.Some? <==> g.datapoints != [])
            && (g.table.Some? <==> g.datapoints != [])
            && (g.statistics.Some? ==>
                  g.statistics.value.numPoints == |g.datapoints|
                  && g.statistics.value.columns == g.table.value.columns
                  && g.statistics.value.shape == (|g.datapoints|, |g.table.value.columns|)
                  && g.table.value.rows == g.datapoints)
  {
  }

  /**
   * The table of a decoded group: its columns are columns of the data points,
   * include every data-point column that does not start with an underscore,
   * and follow the declaration order of the properties unless no column is
   * displayed.
   */
  lemma GroupColumns(parse: string -> Option<real>, dg: Element)
    ensures var g := DataGroupOf(parse, dg);
            g.table.Some? ==>
              var cols := g.table.value.columns;
              var display := Display(FrameColumns(g.datapoints));
              (forall x :: x in cols ==> exists i :: 0 <= i < |g.datapoints| && x in g.datapoints[i].cells)
              && (forall i, x :: 0 <= i < |g.datapoints| && x in g.datapoints[i].cells && !StartsWithUnderscore(x) ==> x in cols)
              && (display != [] ==> cols == DeclaredColumns(g.propertyMap, Ids(g.properties), display))
              && (display == [] ==> cols == FrameColumns(g.datapoints))
  {
    var infos := Infos(FindAll(dg, "property"));
    var rows := KeptRows(parse, MapOf(infos), FindAll(dg, "dataPoint"));
    DecodedRowsOver(parse, infos, FindAll(dg, "dataPoint"));
    FinalColumnsFacts(MapOf(infos), Ids(infos), rows);
  }

  /**
   * Column names: a species-linked property is named after its species with
   * the units in parentheses, even empty ones.
   */
  lemma SpeciesColumnNameExamples()
    ensures ColumnName(Some("CH4"), "", "composition", "mole fraction") == "CH4 (mole fraction)"
    ensures ColumnName(Some("CH4"), "", "composition", "") == "CH4 ()"
  {
  }

  /**
   * Another property is named by its label, or its name when the label is
   * empty, with the units only when there are some.
   */
  lemma PlainColumnNameExamples()
    ensures ColumnName(None, "T", "temperature", "K") == "T (K)"
    ensures ColumnName(None, "", "temperature", "K") == "temperature (K)"
    ensures ColumnName(None, "", "residence time", "") == "residence time"
  {
  }

  /**
   * The column name of any declared property: with a species link, the
   * link's preferred key followed by the units in parentheses, even empty
   * ones; otherwise the label, or the name when the label is empty, followed
   * by the units in parentheses only when there are units.
   */
  lemma ColumnNameRule(p: Element)
    ensures PropertyInfoOf(p).species.Some? <==> Find(p, "speciesLink").Some?
    ensures Find(p, "speciesLink").Some? ==>
              PropertyInfoOf(p).columnName == Get(Find(p, "speciesLink").value, "preferredKey", "") + " (" + Get(p, "units", "") + ")"
    ensures Find(p, "speciesLink").None? && Get(p, "units", "") == "" ==>
              PropertyInfoOf(p).columnName == (if Get(p, "label", "") != "" then Get(p, "label", "") else Get(p, "name", ""))
    ensures Find(p, "speciesLink").None? && Get(p, "units", "") != "" ==>
              PropertyInfoOf(p).columnName
              == (if Get(p, "label", "") != "" then Get(p, "label", "") else Get(p, "name", "")) + " (" + Get(p, "units", "") + ")"
  {
  }
}
