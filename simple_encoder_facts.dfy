/**
 * What the reduced encoder guarantees: the root's children in their fixed
 * order, one `dataGroup` per drafted group, a distinct generated tag per
 * column, a data point that holds a row's value under the column's tag
 * exactly when the row has that column, and species links that are those of
 * the full encoder cut down to the preferred key and the CAS number.
 */
module SimpleEncoderFacts {
  import opened Wrappers
  import opened Xml
  import opened PyText
  import opened Registry
  import opened Draft
  import opened SimpleEncoder
  import Encoder
  import EncoderFacts
  import EncodedGroups

  // ---------------------------------------------------------------- the generated column ids

  lemma DigitCharInjective(a: nat, b: nat)
    requires a < 10 && b < 10 && DigitChar(a) == DigitChar(b)
    ensures a == b
  {
  }

  /** A number of two or more digits is written with two or more characters. */
  lemma NatToStringLong(n: nat)
    requires n >= 10
    ensures |NatToString(n)| >= 2
  {
  }

  /** Distinct numbers are written differently. */
  lemma {:induction false} NatToStringInjective(a: nat, b: nat)
    requires NatToString(a) == NatToString(b)
    ensures a == b
    decreases a
  {
    if a < 10 && b < 10 {
      DigitCharInjective(a, b);
    } else if a < 10 {
      NatToStringLong(b);
    } else if b < 10 {
      NatToStringLong(a);
    } else {
      var sa, sb := NatToString(a), NatToString(b);
      assert sa == NatToString(a / 10) + [DigitChar(a % 10)];
      assert sb == NatToString(b / 10) + [DigitChar(b % 10)];
      assert sa[|sa| - 1] == DigitChar(a % 10) && sb[|sb| - 1] == DigitChar(b % 10);
      DigitCharInjective(a % 10, b % 10);
      assert NatToString(a / 10) == sa[..|sa| - 1] == sb[..|sb| - 1] == NatToString(b / 10);
      NatToStringInjective(a / 10, b / 10);
    }
  }

  /** Every column gets its own tag. */
  lemma ColumnIdInjective(i: nat, j: nat)
    requires ColumnId(i) == ColumnId(j)
    ensures i == j
  {
    assert ColumnId(i)[1..] == NatToString(i + 1);
    assert ColumnId(j)[1..] == NatToString(j + 1);
    NatToStringInjective(i + 1, j + 1);
  }

  // ---------------------------------------------------------------- data points

  /** The value written for column `i` of a row. */
  function CellLeaf(fmt: real -> string, i: nat, c: Cell): Element {
    Leaf(ColumnId(i), Encoder.CellText(fmt, c))
  }

  /** The values of a row: at most one per column, and exactly those of the columns the row has. */
  lemma {:induction false} PointCellsFacts(fmt: real -> string, cols: seq<string>, row: map<string, Cell>)
    ensures |PointCells(fmt, cols, row)| <= |cols|
    ensures forall e :: e in PointCells(fmt, cols, row) <==>
              exists i :: 0 <= i < |cols| && cols[i] in row && e == CellLeaf(fmt, i, row[cols[i]])
  {
    if cols != [] {
      var n := |cols| - 1;
      var front := PointCells(fmt, cols[..n], row);
      var last := if cols[n] in row then [CellLeaf(fmt, n, row[cols[n]])] else [];
      assert PointCells(fmt, cols, row) == front + last;
      PointCellsFacts(fmt, cols[..n], row);
      forall e | e in front + last
        ensures exists i :: 0 <= i < |cols| && cols[i] in row && e == CellLeaf(fmt, i, row[cols[i]])
      {
        if e in front {
          var i :| 0 <= i < n && cols[..n][i] in row && e == CellLeaf(fmt, i, row[cols[..n][i]]);
          assert cols[..n][i] == cols[i];
        } else {
          assert e == CellLeaf(fmt, n, row[cols[n]]);
        }
      }
      forall i | 0 <= i < |cols| && cols[i] in row ensures CellLeaf(fmt, i, row[cols[i]]) in front + last {
        if i < n {
          assert cols[..n][i] == cols[i];
        }
      }
    }
  }

  /** No value of the first `n` columns carries the tag of a later column. */
  lemma NoLaterTag(fmt: real -> string, cols: seq<string>, row: map<string, Cell>, n: nat)
    requires n < |cols|
    ensures FirstWithTag(PointCells(fmt, cols[..n], row), ColumnId(n)).None?
  {
    var cells := PointCells(fmt, cols[..n], row);
    PointCellsFacts(fmt, cols[..n], row);
    FirstWithTagFacts(cells, ColumnId(n));
    if FirstWithTag(cells, ColumnId(n)).Some? {
      var k :| 0 <= k < |cells| && cells[k].tag == ColumnId(n);
      assert cells[k] in cells;
      var i :| 0 <= i < n && cols[..n][i] in row && cells[k] == CellLeaf(fmt, i, row[cols[..n][i]]);
      ColumnIdInjective(i, n);
    }
  }

  /**
   * The value of column `i` in a data point: found under the column's tag
   * exactly when the row has the column, and then it is the row's cell.
   */
  lemma {:induction false} FindColumn(fmt: real -> string, cols: seq<string>, row: map<string, Cell>, i: nat)
    requires i < |cols|
    ensures Find(Point(fmt, cols, row), ColumnId(i))
            == if cols[i] in row then Some(CellLeaf(fmt, i, row[cols[i]])) else None
  {
    var n := |cols| - 1;
    var front := PointCells(fmt, cols[..n], row);
    var last := if cols[n] in row then [Leaf(ColumnId(n), Encoder.CellText(fmt, row[cols[n]]))] else [];
    assert PointCells(fmt, cols, row) == front + last;
    FirstWithTagAppend(front, last, ColumnId(i));
    if i < n {
      assert cols[..n][i] == cols[i];
      FindColumn(fmt, cols[..n], row, i);
      if last != [] {
        if ColumnId(n) == ColumnId(i) {
          ColumnIdInjective(n, i);
        }
      }
    } else {
      NoLaterTag(fmt, cols, row, n);
    }
  }

  /** A row that has every column gets one value per column, in column order. */
  lemma {:induction false} FullRow(fmt: real -> string, cols: seq<string>, row: map<string, Cell>)
    requires forall i :: 0 <= i < |cols| ==> cols[i] in row
    ensures |PointCells(fmt, cols, row)| == |cols|
    ensures forall i :: 0 <= i < |cols| ==> PointCells(fmt, cols, row)[i] == CellLeaf(fmt, i, row[cols[i]])
  {
    if cols != [] {
      var n := |cols| - 1;
      var front := cols[..n];
      assert forall i :: 0 <= i < n ==> front[i] == cols[i];
      FullRow(fmt, front, row);
      assert PointCells(fmt, cols, row) == PointCells(fmt, front, row) + [CellLeaf(fmt, n, row[cols[n]])];
    }
  }

  // ---------------------------------------------------------------- data groups and the root

  /**
   * A `dataGroup` element: its only attribute is the group's id; its
   * `property` children declare the columns, and its `dataPoint` children
   * are one per row, in row order.
   */
  lemma GroupElementFacts(fmt: real -> string, g: TableGroup)
    ensures var ge := GroupElement(fmt, g);
            ge.tag == "dataGroup" && ge.attrs == map["id" := g.id]
            && FindAll(ge, "property") == ColumnProperties(g.columns)
            && FindAll(ge, "dataPoint") == Points(fmt, g.columns, g.data)
            && |FindAll(ge, "dataPoint")| == |g.data|
  {
    var ps := ColumnProperties(g.columns);
    var dps := Points(fmt, g.columns, g.data);
    assert forall i :: 0 <= i < |ps| ==> ps[i].tag == "property";
    assert forall i :: 0 <= i < |dps| ==> dps[i].tag == "dataPoint";
    EncodedGroups.SplitByTag(ps, dps, "property", "dataPoint");
  }

  /** The root's children before the data groups. */
  function FrontTags(info: Option<BasicInfo>): seq<string> {
    ["fileAuthor"] + (if info.Some? && info.value.doi != "" then ["fileDOI"] else [])
    + ["experimentType", "apparatus", "commonProperties"]
  }

  lemma PrologueTags(fmt: real -> string, d: TableDraft)
    ensures TagsOf(Prologue(fmt, d)) == FrontTags(d.basicInfo)
  {
    var hs := Header(d.basicInfo);
    TagsOfAppend(hs, [Encoder.Node("commonProperties", map[], CommonChildren(fmt, d))]);
  }

  /**
   * The root's children, in order: author, DOI when given, type, apparatus,
   * common properties, then one data group per drafted group.
   */
  lemma RootChildren(fmt: real -> string, d: TableDraft)
    ensures var root := EncodeTree(fmt, d);
            root.tag == "experiment"
            && TagsOf(root.children) == FrontTags(d.basicInfo) + EncoderFacts.Repeat("dataGroup", |d.dataGroups|)
    ensures FindAll(EncodeTree(fmt, d), "dataGroup") == GroupElements(fmt, d.dataGroups)
  {
    var groups := GroupElements(fmt, d.dataGroups);
    PrologueTags(fmt, d);
    assert "dataGroup" !in FrontTags(d.basicInfo);
    assert forall i :: 0 <= i < |groups| ==> groups[i].tag == "dataGroup";
    EncoderFacts.FrontThenGroups(Prologue(fmt, d), groups, FrontTags(d.basicInfo));
  }

  /** Apart from the version element, the header is the full encoder's. */
  lemma HeaderWithoutVersion(info: Option<BasicInfo>)
    ensures var full := Encoder.Header(info);
            var k := if info.Some? && info.value.doi != "" then 2 else 1;
            k < |full| && full[k].tag == "fileVersion" && Header(info) == full[..k] + full[k + 1..]
  {
  }

  // ---------------------------------------------------------------- species links

  /** The species link is the full encoder's cut down to the preferred key and the CAS number. */
  lemma LinkAttrsCut(e: CompEntry)
    ensures var full := Encoder.LinkAttrs(e);
            LinkAttrs(e) == map k | k in full && (k == "preferredKey" || k == "CAS") :: full[k]
  {
    EncoderFacts.LinkAttrsFacts(e);
    CasIsIdentifier();
  }

  lemma CasIsIdentifier()
    ensures "CAS" in IdentifierKeys && "CAS" != "preferredKey"
  {
  }

  /** The text returned has no whitespace-only line, and filtering it once more changes nothing. */
  lemma EncodedTextClean(fmt: real -> string, pretty: Element -> string, d: TableDraft)
    ensures var text := Encode(fmt, pretty, d);
            text == [] || forall k :: 0 <= k < |Split(text)| ==> !IsBlank(Split(text)[k])
    ensures StripBlankLines(Encode(fmt, pretty, d)) == Encode(fmt, pretty, d)
  {
    var printed := pretty(EncodeTree(fmt, d));
    NoBlankLine(printed);
    StripBlankLinesIdempotent(printed);
  }
}
