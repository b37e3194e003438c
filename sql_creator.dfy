/** The schema builder of tvurce_sql.py: it reads a sample of rows, infers a
    declared type per column and renders the CREATE statement. */
module SqlCreator {
  import opened Wrappers
  import opened ValueTypes
  import opened ColumnTypes
  import NameCleanup
  import Text

  /** nacti_data stops once its counter a, which starts at 0, reaches this
      value; the row read at that moment has already been kept. */
  const RowCap: nat := 1000

  function Min(a: nat, b: nat): nat {
    if a <= b then a else b
  }

  /** Every row is at least as wide as the first one. */
  predicate WideEnough(data: seq<seq<string>>)
    requires |data| > 0
  {
    forall i :: 0 <= i < |data| ==> |data[i]| >= |data[0]|
  }

  /** The rows nacti_data keeps after the header: at most RowCap of
      them. */
  function Sample(rows: seq<seq<string>>): (data: seq<seq<string>>)
    requires rows != []
    ensures |data| == Min(|rows| - 1, RowCap)
    ensures forall i :: 0 <= i < |data| ==> data[i] == rows[i + 1]
  {
    rows[1..Min(|rows|, RowCap + 1)]
  }

  /** The length of the shortest row. */
  function MinWidth<T>(rows: seq<seq<T>>): (w: nat)
    requires |rows| > 0
    ensures forall i :: 0 <= i < |rows| ==> w <= |rows[i]|
    ensures exists i :: 0 <= i < |rows| && w == |rows[i]|
  {
    if |rows| == 1 then |rows[0]|
    else
      var w := MinWidth(rows[1..]);
      assert forall i :: 1 <= i < |rows| ==> rows[1..][i - 1] == rows[i];
      if |rows[0]| <= w then |rows[0]| else w
  }

  /** list(zip(*typy)): the j-th tuple holds the j-th tag of every row; the
      shortest row bounds the number of tuples, and no rows give none. */
  function Columns(typy: seq<seq<Tag>>): (cols: seq<seq<Tag>>)
    ensures typy == [] ==> cols == []
    ensures typy != [] ==> |cols| == MinWidth(typy)
    ensures forall j :: 0 <= j < |cols| ==> |cols[j]| == |typy| > 0
  {
    if typy == [] then []
    else
      var w := MinWidth(typy);
      seq(w, j requires 0 <= j < w => seq(|typy|, i requires 0 <= i < |typy| => typy[i][j]))
  }

  /** Tuple j of zip(*typy) holds the j-th tag of every row, in row
      order. */
  lemma ColumnsTranspose(typy: seq<seq<Tag>>, j: nat, i: nat)
    requires j < |Columns(typy)| && i < |typy|
    ensures j < |typy[i]| && Columns(typy)[j][i] == typy[i][j]
  {
  }

  /** The declared type of every column of the type matrix, in column
      order. */
  function Declarations(typy: seq<seq<Tag>>): (d: seq<Tag>)
    ensures |d| == |Columns(typy)|
  {
    var cols := Columns(typy);
    seq(|cols|, j requires 0 <= j < |cols| => Resolve(cols[j]))
  }

  /** No column is declared null, and a column is declared decimal exactly
      when one of its cells is decimal. */
  lemma DeclarationsRules(typy: seq<seq<Tag>>)
    ensures forall j :: 0 <= j < |Declarations(typy)| ==> Declarations(typy)[j] != Null
    ensures forall j :: 0 <= j < |Declarations(typy)| ==>
      (Declarations(typy)[j] == Decimal <==> exists i :: 0 <= i < |typy| && typy[i][j] == Decimal)
  {
    var d, cols := Declarations(typy), Columns(typy);
    forall j | 0 <= j < |d|
      ensures d[j] != Null
      ensures d[j] == Decimal <==> exists i :: 0 <= i < |typy| && typy[i][j] == Decimal
    {
      ResolveRules(cols[j]);
      forall i | 0 <= i < |typy| ensures j < |typy[i]| && cols[j][i] == typy[i][j] {
        ColumnsTranspose(typy, j, i);
      }
      if Decimal in cols[j] {
        var i :| 0 <= i < |cols[j]| && cols[j][i] == Decimal;
      }
    }
  }

  /** One column line of the statement: four spaces, the name, a space and
      the declared type. */
  function ColumnLine(name: string, t: Tag): string {
    "    " + name + " " + TagName(t)
  }

  /** The column lines of zip(data_nazvy, deklarace): the shorter list bounds
      their number. */
  function ColumnLines(names: seq<string>, decls: seq<Tag>): (lines: seq<string>)
    ensures |lines| == Min(|names|, |decls|)
    ensures forall k :: 0 <= k < |lines| ==> lines[k] == ColumnLine(names[k], decls[k])
  {
    var n := Min(|names|, |decls|);
    seq(n, k requires 0 <= k < n => ColumnLine(names[k], decls[k]))
  }

  /** What uloz_data writes for line k: the line, then "\n" after the last
      one and ",\n" after every other one. */
  function Piece(lines: seq<string>, k: nat): string
    requires k < |lines|
  {
    lines[k] + if k == |lines| - 1 then "\n" else ",\n"
  }

  /** The column lines joined by ",\n", with "\n" after the last one. */
  function Body(lines: seq<string>): string
    decreases |lines|
  {
    if lines == [] then ""
    else if |lines| == 1 then lines[0] + "\n"
    else lines[0] + ",\n" + Body(lines[1..])
  }

  /** The CREATE statement uloz_data writes. */
  function CreateText(tabulka: string, names: seq<string>, decls: seq<Tag>): (text: string)
    ensures Text.StartsWith(text, "create or replace table " + tabulka + " (\n")
    ensures |text| >= 2 && text[|text| - 2..] == ");"
  {
    "create or replace table " + tabulka + " (\n" + Body(ColumnLines(names, decls)) + ");"
  }

  /** Line k written, Body of the lines after k is what is left to write. */
  lemma BodyStep(lines: seq<string>, k: nat)
    requires k < |lines|
    ensures Body(lines[k..]) == Piece(lines, k) + Body(lines[k + 1..])
  {
    var rest := lines[k..];
    assert rest[0] == lines[k] && rest[1..] == lines[k + 1..];
    if |rest| == 1 {
      assert lines[k + 1..] == [];
    }
  }

  /** With no columns the statement is "create or replace table T (\n);". */
  lemma EmptyCreateText(tabulka: string, names: seq<string>, decls: seq<Tag>)
    requires names == [] || decls == []
    ensures CreateText(tabulka, names, decls) == "create or replace table " + tabulka + " (\n);"
  {
    assert ColumnLines(names, decls) == [];
  }

  /** The type matrix has one column per cell of the first row, so the
      statistics give exactly one declared type per column. */
  lemma OneDeclarationPerColumn(typy: seq<seq<Tag>>, width: nat)
    requires typy != [] && forall i :: 0 <= i < |typy| ==> |typy[i]| == width
    ensures |Declarations(typy)| == width
  {
    var i :| 0 <= i < |typy| && MinWidth(typy) == |typy[i]|;
  }

  /** The first j columns of the matrix m, radky × w, hold the tags of the
      cells of rows, and every row is at least j wide. */
  predicate TypedUpTo(m: seq<seq<Tag>>, rows: seq<seq<string>>, w: nat, j: nat) {
    && j <= w
    && |m| == |rows|
    && (forall r :: 0 <= r < |rows| ==> |m[r]| == w && j <= |rows[r]|)
    && forall r, c :: 0 <= r < |rows| && 0 <= c < j ==> m[r][c] == ZjistiTypHodnoty(rows[r][c])
  }

  /** Writing the tag of cell (i, j) keeps the filled columns and every
      other row. */
  lemma TypeCell(m: seq<seq<Tag>>, rows: seq<seq<string>>, w: nat, j: nat, i: nat)
    requires TypedUpTo(m, rows, w, j) && j < w && i < |rows| && j < |rows[i]|
    ensures var m' := m[i := m[i][j := ZjistiTypHodnoty(rows[i][j])]];
      && TypedUpTo(m', rows, w, j)
      && m'[i][j] == ZjistiTypHodnoty(rows[i][j])
      && forall r :: 0 <= r < |rows| && r != i ==> m'[r] == m[r]
  {
  }

  /** A column filled in every row extends the filled prefix by one. */
  lemma TypedColumn(m: seq<seq<Tag>>, rows: seq<seq<string>>, w: nat, j: nat)
    requires TypedUpTo(m, rows, w, j) && j < w
    requires forall r :: 0 <= r < |rows| ==> j < |rows[r]| && m[r][j] == ZjistiTypHodnoty(rows[r][j])
    ensures TypedUpTo(m, rows, w, j + 1)
  {
  }

  /** All columns filled: the matrix holds the tag of every cell of every
      row, and no row is narrower than the first. */
  lemma TypedMatrix(m: seq<seq<Tag>>, rows: seq<seq<string>>, w: nat)
    requires |rows| > 0 && w == |rows[0]| && TypedUpTo(m, rows, w, w)
    ensures WideEnough(rows) && |m| == |rows|
    ensures forall i :: 0 <= i < |rows| ==> |m[i]| == |rows[0]|
    ensures forall i, j :: 0 <= i < |rows| && 0 <= j < |rows[0]| ==> m[i][j] == ZjistiTypHodnoty(rows[i][j])
  {
  }

  /** One step of vytvor_statistiku_datovych_typu: appending the declared
      type of tuple j extends the declarations made so far by one. */
  lemma DeclarationAt(typy: seq<seq<Tag>>, j: nat, before: seq<Tag>, made: seq<Tag>, res: Tag)
    requires j < |Columns(typy)|
    requires made == before + Declarations(typy)[..j]
    requires res == Resolve(Columns(typy)[j])
    ensures made + [res] == before + Declarations(typy)[..j + 1]
  {
    var d := Declarations(typy);
    assert d[..j + 1] == d[..j] + [d[j]];
  }

  /** The state of the schema builder. */
  class TvurceSQL {
    var tabulka: string
    var data: seq<seq<string>>
    var hlavicka: seq<string>
    var dataNazvy: seq<string>
    var typy: seq<seq<Tag>>
    var deklarace: seq<Tag>

    /** __init__: the table name comes from the configuration, every list
        starts empty. */
    constructor (tabulka: string)
      ensures this.tabulka == tabulka
      ensures data == [] && hlavicka == [] && dataNazvy == [] && typy == [] && deklarace == []
    {
      this.tabulka := tabulka;
      data := [];
      hlavicka := [];
      dataNazvy := [];
      typy := [];
      deklarace := [];
    }

    /** nacti_data over the rows the csv reader yields: rows are appended
        until the counter reaches RowCap, so at most RowCap + 1 rows (the
        header and RowCap data rows) are kept. */
    method NactiData(rows: seq<seq<string>>)
      modifies this
      ensures data == old(data) + rows[..Min(|rows|, RowCap + 1)]
      ensures tabulka == old(tabulka) && hlavicka == old(hlavicka) && dataNazvy == old(dataNazvy)
      ensures typy == old(typy) && deklarace == old(deklarace)
    {
      var a := 0;
      var k := 0;
      while k < |rows|
        invariant 0 <= k <= |rows| && a == k <= RowCap
        invariant data == old(data) + rows[..k]
        invariant tabulka == old(tabulka) && hlavicka == old(hlavicka) && dataNazvy == old(dataNazvy)
        invariant typy == old(typy) && deklarace == old(deklarace)
      {
        data := data + [rows[k]];
        assert rows[..k + 1] == rows[..k] + [rows[k]];
        k := k + 1;
        if a == RowCap {
          break;
        }
        a := a + 1;
      }
    }

    /** rozdel_data: pops the header row; popping an empty list raises
        IndexError, reported here as ok == false with nothing changed. */
    method RozdelData() returns (ok: bool)
      modifies this
      ensures ok <==> old(data) != []
      ensures ok ==> hlavicka == old(data)[0] && data == old(data)[1..]
      ensures !ok ==> hlavicka == old(hlavicka) && data == old(data)
      ensures tabulka == old(tabulka) && dataNazvy == old(dataNazvy)
      ensures typy == old(typy) && deklarace == old(deklarace)
    {
      if data == [] {
        return false;
      }
      hlavicka := data[0];
      data := data[1..];
      return true;
    }

    /** zjisti_typy_sloupcu: typy[i][j] is the tag of data[i][j] for every
        row i and every column j of the first row, filled column by column.
        Nothing is done when there are no rows or the first row is empty.
        Otherwise typy is first replaced by a radky × sloupce matrix, and a
        row narrower than the first raises IndexError (ok == false) with
        that matrix partly filled. */
    method ZjistiTypySloupcu() returns (ok: bool)
      modifies this
      ensures data == old(data) && tabulka == old(tabulka) && hlavicka == old(hlavicka)
      ensures dataNazvy == old(dataNazvy) && deklarace == old(deklarace)
      ensures ok <==> data == [] || data[0] == [] || WideEnough(data)
      ensures data == [] || data[0] == [] ==> typy == old(typy)
      ensures data != [] && data[0] != [] ==>
        |typy| == |data| && forall i :: 0 <= i < |data| ==> |typy[i]| == |data[0]|
      ensures ok && data != [] && data[0] != [] ==>
        forall i, j :: 0 <= i < |data| && 0 <= j < |data[0]| ==> typy[i][j] == ZjistiTypHodnoty(data[i][j])
    {
      if data == [] || data[0] == [] {
        return true;
      }
      var radky := |data|;
      var sloupce := |data[0]|;
      // the source's placeholder is "", overwritten in every cell
      typy := seq(radky, _ => seq(sloupce, _ => Null));
      for j := 0 to sloupce
        modifies this`typy
        invariant TypedUpTo(typy, data, sloupce, j)
      {
        for i := 0 to radky
          modifies this`typy
          invariant TypedUpTo(typy, data, sloupce, j)
          invariant forall r :: 0 <= r < i ==> j < |data[r]| && typy[r][j] == ZjistiTypHodnoty(data[r][j])
        {
          if j >= |data[i]| {
            assert !WideEnough(data);
            return false;
          }
          TypeCell(typy, data, sloupce, j, i);
          typy := typy[i := typy[i][j := ZjistiTypHodnoty(data[i][j])]];
        }
        TypedColumn(typy, data, sloupce, j);
      }
      TypedMatrix(typy, data, sloupce);
      return true;
    }

    /** vytvor_statistiku_datovych_typu: appends the declared type of every
        tuple of zip(*typy), in column order. */
    method VytvorStatistikuDatovychTypu()
      modifies this
      ensures deklarace == old(deklarace) + Declarations(typy)
      ensures typy == old(typy) && data == old(data) && tabulka == old(tabulka)
      ensures hlavicka == old(hlavicka) && dataNazvy == old(dataNazvy)
    {
      var columns := Columns(typy);
      ghost var d := Declarations(typy);
      ghost var before := deklarace;
      for j := 0 to |columns|
        modifies this`deklarace
        invariant deklarace == before + d[..j]
      {
        var res := Resolve(columns[j]);
        DeclarationAt(typy, j, before, deklarace, res);
        deklarace := deklarace + [res];
      }
      assert d[..|columns|] == d;
    }

    /** uloz_data: the text written to the schema file, piece by piece. */
    method UlozData() returns (text: string)
      ensures text == CreateText(tabulka, dataNazvy, deklarace)
    {
      text := "create or replace table " + tabulka + " (\n";
      var tmp := ColumnLines(dataNazvy, deklarace);
      ghost var start := text;
      for i := 0 to |tmp|
        invariant text + Body(tmp[i..]) == start + Body(tmp)
      {
        BodyStep(tmp, i);
        if i == |tmp| - 1 {
          text := text + tmp[i] + "\n";
        } else {
          text := text + tmp[i] + ",\n";
        }
      }
      assert tmp[|tmp|..] == [];
      text := text + ");";
    }

    /** main() on a fresh builder: the steps in order over the rows the
        reader yields. None where a step raises: there is no header to pop,
        or a sampled row is narrower than the first one. Otherwise the
        header is the first row, the sample the next RowCap rows at most,
        every sampled cell is classified, every column of the matrix is
        declared and the statement is rendered from the cleaned names and
        those declarations. */
    method Run(rows: seq<seq<string>>) returns (text: Option<string>)
      modifies this
      requires data == [] && typy == [] && deklarace == []
      ensures tabulka == old(tabulka)
      ensures text.None? <==> rows == [] || (|rows| > 1 && rows[1] != [] && !WideEnough(Sample(rows)))
      ensures text.Some? ==> hlavicka == rows[0] && data == Sample(rows)
      ensures text.Some? ==>
        |dataNazvy| == |hlavicka| && forall i :: 0 <= i < |hlavicka| ==> dataNazvy[i] == NameCleanup.UpravNazev(hlavicka[i])
      ensures text.Some? && (data == [] || data[0] == []) ==> typy == []
      ensures text.Some? && data != [] && data[0] != [] ==>
        && |typy| == |data|
        && (forall i :: 0 <= i < |data| ==> |typy[i]| == |data[0]|)
        && forall i, j :: 0 <= i < |data| && 0 <= j < |data[0]| ==> typy[i][j] == ZjistiTypHodnoty(data[i][j])
      ensures text.Some? ==> deklarace == Declarations(typy)
      ensures text.Some? ==> text.value == CreateText(tabulka, dataNazvy, deklarace)
    {
      NactiData(rows);
      var ok := RozdelData();
      if !ok {
        return None;
      }
      assert data == Sample(rows);
      dataNazvy := NameCleanup.ZjistiNazvySloupcu(hlavicka);
      ok := ZjistiTypySloupcu();
      if !ok {
        return None;
      }
      VytvorStatistikuDatovychTypu();
      var t := UlozData();
      return Some(t);
    }
  }
}
