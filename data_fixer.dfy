/** The data fixer of opravar_dat.py: it reads the CREATE statement written
    by the schema builder, picks the decimal and date columns from it and
    rewrites their cells in place into the form the loader expects. */
module DataFixer {
  import opened Wrappers
  import opened Text
  import opened DateParse
  import opened DateFacts
  import NameCleanup

  /** A cell of the in-memory table: the text the csv reader produced, or the
      None that oprav_datum writes for an empty date. */
  datatype Cell = Str(s: string) | NoneValue

  // ---- oprav_datum ----------------------------------------------------

  /** oprav_datum(hodnota): "" gives None; a value with a colon must match
      "%d.%m.%Y %H:%M:%S" and one without must match "%d.%m.%Y", and either
      is rewritten as "%Y-%m-%d %H:%M:%S" (midnight for a date). Err stands
      for the ValueError strptime raises; nothing is stripped. */
  function OpravDatum(h: string): (r: Result<Option<string>>)
    ensures r == Ok(None) <==> h == ""
    ensures r.Err? <==> h != "" && (if ':' in h then Strptime(DmyHms, h).None? else Strptime(Dmy, h).None?)
  {
    if h == "" then Ok(None)
    else if ':' in h then
      match Strptime(DmyHms, h)
      case Some(d) => Ok(Some(IsoDateTime(d)))
      case None => Err("time data does not match format '%d.%m.%Y %H:%M:%S'")
    else
      match Strptime(Dmy, h)
      case Some(d) => Ok(Some(IsoDate(d) + " 00:00:00"))
      case None => Err("time data does not match format '%d.%m.%Y'")
  }

  /** The same day at 00:00:00. */
  function Midnight(d: DateTime): (m: DateTime)
    requires Valid(d)
    ensures Valid(m) && IsoDateTime(m) == IsoDate(d) + " 00:00:00"
  {
    var m := d.(hour := 0, minute := 0, second := 0);
    assert Pad2(0) == "00";
    m
  }

  /** Whatever oprav_datum writes is a timestamp in the form
      "%Y-%m-%d %H:%M:%S" of a valid datetime. */
  lemma OpravDatumWrites(h: string)
    requires OpravDatum(h).Ok? && OpravDatum(h).value.Some?
    ensures exists d :: Valid(d) && OpravDatum(h).value.value == IsoDateTime(d)
  {
    if ':' in h {
      var d := Strptime(DmyHms, h).value;
      assert OpravDatum(h).value.value == IsoDateTime(d);
    } else {
      var d := Strptime(Dmy, h).value;
      assert OpravDatum(h).value.value == IsoDateTime(Midnight(d));
    }
  }

  /** A timestamp written day first, "%d.%m.%Y %H:%M:%S", comes back in
      the form "%Y-%m-%d %H:%M:%S". */
  lemma OpravDatumDateTime(d: DateTime)
    requires Valid(d)
    ensures OpravDatum(DayFirstDateTime(d)) == Ok(Some(IsoDateTime(d)))
  {
    var s := DayFirstDateTime(d);
    assert s[13] == TimeText(d)[3] == ':';
    StrptimeDayFirstDateTime(d);
  }

  /** A date written day first, "%d.%m.%Y", comes back as that day at
      midnight. */
  lemma OpravDatumDate(d: DateTime)
    requires Valid(d)
    ensures OpravDatum(DayFirstDate(d)) == Ok(Some(IsoDate(d) + " 00:00:00"))
  {
    var s := DayFirstDate(d);
    assert ':' !in s by {
      forall k | 0 <= k < |s| ensures s[k] != ':' {
        if k < 2 {
          assert s[k] == Pad2(d.day)[k];
        } else if 3 <= k < 5 {
          assert s[k] == Pad2(d.month)[k - 3];
        } else if 6 <= k {
          assert s[k] == Pad4(d.year)[k - 6];
        }
      }
    }
    StrptimeDayFirstDate(d);
  }

  /** oprav_datum rejects the form it writes. */
  lemma OpravDatumRejectsIso(d: DateTime)
    requires Valid(d)
    ensures OpravDatum(IsoDateTime(d)).Err?
  {
    assert IsoDateTime(d)[13] == ':';
    IsoNotDayFirst(d);
  }

  /** The output of oprav_datum is never accepted by it again: it starts
      with the four digits of the year, where both layouts expect a day
      followed by a dot. So the date rewrite must run once per cell. */
  lemma OpravDatumNotIdempotent(h: string)
    requires OpravDatum(h).Ok? && OpravDatum(h).value.Some?
    ensures OpravDatum(OpravDatum(h).value.value).Err?
  {
    OpravDatumWrites(h);
    var d :| Valid(d) && OpravDatum(h).value.value == IsoDateTime(d);
    OpravDatumRejectsIso(d);
  }

  /** What a value oprav_datum accepts looks like: two dots, and either no
      colon or two. */
  lemma OpravDatumSeparators(h: string)
    requires h != "" && OpravDatum(h).Ok?
    ensures Count(h, '.') == 2
    ensures Count(h, ':') == 0 || Count(h, ':') == 2
  {
    if ':' in h {
      TimestampSeparators(h);
    } else {
      DateSeparators(h);
    }
  }

  /** A day and a month written with one digit are accepted too. */
  lemma OpravDatumShortDate(day: int, month: int, year: int)
    requires 1 <= day <= 9 && 1 <= month <= 9 && 1 <= year <= 9999
    ensures OpravDatum([DigitChar(day)] + ("." + ([DigitChar(month)] + ("." + Pad4(year)))))
         == Ok(Some(IsoDate(DateTime(year, month, day, 0, 0, 0)) + " 00:00:00"))
  {
    var h := [DigitChar(day)] + ("." + ([DigitChar(month)] + ("." + Pad4(year))));
    assert ':' !in h by {
      forall k | 0 <= k < |h| ensures h[k] != ':' {
        if k > 3 {
          assert h[k] == Pad4(year)[k - 4];
        }
      }
    }
    StrptimeShortDate(day, month, year);
  }

  /** "1.1.2024" spelled as strftime pieces. */
  lemma ShortText(h: string) returns (one: int, year: int)
    requires h == "1.1.2024"
    ensures one == 1 && year == 2024
    ensures h == [DigitChar(one)] + ("." + ([DigitChar(one)] + ("." + Pad4(year))))
  {
    one, year := 1, 2024;
    assert Pad4(year) == "2024";
  }

  lemma ShortIso(one: int, year: int)
    requires one == 1 && year == 2024
    ensures IsoDate(DateTime(year, one, one, 0, 0, 0)) == "2024-01-01"
  {
    var y, m := Pad4(year), Pad2(one);
    assert y == "2024" && m == "01";
    assert IsoDate(DateTime(year, one, one, 0, 0, 0)) == y + "-" + m + "-" + m;
  }

  /** For instance "1.1.2024" becomes "2024-01-01 00:00:00". */
  lemma OpravDatumShortExample(h: string)
    requires h == "1.1.2024"
    ensures OpravDatum(h) == Ok(Some("2024-01-01 00:00:00"))
  {
    var one, year := ShortText(h);
    OpravDatumShortDate(one, one, year);
    ShortIso(one, year);
    assert "2024-01-01" + " 00:00:00" == "2024-01-01 00:00:00";
  }

  /** A value whose number of colons is neither zero nor two is rejected. */
  lemma OpravDatumRejectsColons(h: string)
    requires Count(h, ':') != 0 && Count(h, ':') != 2
    ensures OpravDatum(h).Err?
  {
    if OpravDatum(h).Ok? {
      OpravDatumSeparators(h);
    }
  }

  /** Where the one colon of the example is. */
  lemma SplitAtColon(h: string) returns (a: string, b: string)
    requires h == "31.12.2024 10:00"
    ensures h == a + ([':'] + b) && ':' !in a && ':' !in b
  {
    a, b := "31.12.2024 10", "00";
  }

  lemma CountOne(a: string, b: string)
    requires ':' !in a && ':' !in b
    ensures Count(a + ([':'] + b), ':') == 1
  {
    CountAbsent(a, ':');
    CountAbsent(b, ':');
    CountConcat([':'], b, ':');
    CountConcat(a, [':'] + b, ':');
  }

  /** For instance a timestamp without seconds, "31.12.2024 10:00". */
  lemma OpravDatumRejectsMinutes(h: string)
    requires h == "31.12.2024 10:00"
    ensures OpravDatum(h).Err?
  {
    var a, b := SplitAtColon(h);
    CountOne(a, b);
    OpravDatumRejectsColons(h);
  }

  // ---- zpracuj_prikaz_create and zjisti_sloupce_podle_typu -------------

  /** prikaz_create.split("\n")[1:-1]: the lines strictly between the first
      and the last one. */
  function InnerLines(text: string): (lines: seq<string>)
    ensures |lines| == if Count(text, '\n') >= 1 then Count(text, '\n') - 1 else 0
    ensures forall k :: 0 <= k < |lines| ==> '\n' !in lines[k]
  {
    var parts := Split(text, '\n');
    if |parts| >= 2 then parts[1..|parts| - 1] else []
  }

  /** One line of the statement: every run of four spaces removed, then
      split on single spaces. */
  function ParseLine(line: string): seq<string> {
    Split(Replace(line, "    ", ""), ' ')
  }

  /** The list zpracuj_prikaz_create builds, one entry per inner line. */
  function ParseCreate(text: string): (entries: seq<seq<string>>)
    ensures |entries| == |InnerLines(text)|
  {
    var lines := InnerLines(text);
    seq(|lines|, k requires 0 <= k < |lines| => ParseLine(lines[k]))
  }

  /** A list holding the parse of each inner line, in order, is the parse of
      the statement. */
  lemma ParsedLines(text: string, entries: seq<seq<string>>)
    requires |entries| == |InnerLines(text)|
    requires forall j :: 0 <= j < |entries| ==> entries[j] == ParseLine(InnerLines(text)[j])
    ensures entries == ParseCreate(text)
  {
  }

  /** any(hod[1].startswith(t) for t in typy) when hod has a second part. */
  predicate Selected(entry: seq<string>, prefixes: seq<string>) {
    |entry| >= 2 && exists t :: t in prefixes && StartsWith(entry[1], t)
  }

  /** zjisti_sloupce_podle_typu(typy): the indices of the entries whose
      second part starts with one of the prefixes, in increasing order. The
      comprehension reads hod[1] as soon as there is a prefix to try, so an
      entry with fewer than two parts raises IndexError (None). */
  function ZjistiSloupcePodleTypu(entries: seq<seq<string>>, prefixes: seq<string>): (r: Option<seq<nat>>)
    ensures r.None? <==> |prefixes| > 0 && exists i :: 0 <= i < |entries| && |entries[i]| < 2
    ensures r.Some? ==> forall k :: 0 <= k < |r.value| ==> r.value[k] < |entries|
    ensures r.Some? ==> forall k, l :: 0 <= k < l < |r.value| ==> r.value[k] < r.value[l]
    ensures r.Some? ==> forall i :: 0 <= i < |entries| ==> (i in r.value <==> Selected(entries[i], prefixes))
    decreases |entries|
  {
    if entries == [] then Some([])
    else
      var n := |entries| - 1;
      var front := entries[..n];
      assert forall i :: 0 <= i < n ==> front[i] == entries[i];
      match ZjistiSloupcePodleTypu(front, prefixes)
      case None => None
      case Some(ix) =>
        if |prefixes| > 0 && |entries[n]| < 2 then None
        else if Selected(entries[n], prefixes) then Some(ix + [n])
        else Some(ix)
  }

  // ---- the cell rewrites ----------------------------------------------

  /** Which rewrite a pass applies. */
  datatype Oprava = Oddelovac | Datum

  /** The new value of one cell; None where the source raises: str.replace
      on None (AttributeError), oprav_datum on None (TypeError) or on a value
      strptime rejects (ValueError). */
  function Oprav(o: Oprava, c: Cell): Option<Cell> {
    match c
    case NoneValue => None
    case Str(s) =>
      match o
      case Oddelovac => Some(Str(Replace(s, ",", ".")))
      case Datum =>
        match OpravDatum(s)
        case Err(_) => None
        case Ok(None) => Some(NoneValue)
        case Ok(Some(t)) => Some(Str(t))
  }

  /** Column c of a row rewritten. */
  function WithCell(row: seq<Cell>, c: nat, o: Oprava): seq<Cell>
    requires c < |row| && Oprav(o, row[c]).Some?
  {
    row[c := Oprav(o, row[c]).value]
  }

  /** Column c can be rewritten in every row. */
  predicate Rewritable(rows: seq<seq<Cell>>, c: nat, o: Oprava) {
    forall i :: 0 <= i < |rows| ==> c < |rows[i]| && Oprav(o, rows[i][c]).Some?
  }

  /** The inner loop over the rows for one column c: every row's cell c
      rewritten; None when a row is too short (IndexError) or a cell cannot
      be rewritten. */
  function RewriteColumn(rows: seq<seq<Cell>>, c: nat, o: Oprava): (r: Option<seq<seq<Cell>>>)
    ensures r.Some? <==> Rewritable(rows, c, o)
    ensures r.Some? ==> |r.value| == |rows| && forall i :: 0 <= i < |rows| ==> r.value[i] == WithCell(rows[i], c, o)
    decreases |rows|
  {
    if rows == [] then Some([])
    else if c >= |rows[0]| || Oprav(o, rows[0][c]).None? then None
    else
      assert forall i :: 1 <= i < |rows| ==> rows[1..][i - 1] == rows[i];
      match RewriteColumn(rows[1..], c, o)
      case None => None
      case Some(rest) => Some([WithCell(rows[0], c, o)] + rest)
  }

  /** Both loops: the columns cols in order, each over every row. A
      successful rewrite keeps the number of rows. */
  function RewriteColumns(rows: seq<seq<Cell>>, cols: seq<nat>, o: Oprava): (r: Option<seq<seq<Cell>>>)
    ensures r.Some? ==> |r.value| == |rows|
    decreases |cols|
  {
    if cols == [] then Some(rows)
    else
      match RewriteColumn(rows, cols[0], o)
      case None => None
      case Some(next) => RewriteColumns(next, cols[1..], o)
  }

  /** No column is listed twice; zjisti_sloupce_podle_typu lists each index
      at most once. */
  predicate Distinct(cols: seq<nat>) {
    forall k, l :: 0 <= k < l < |cols| ==> cols[k] != cols[l]
  }

  /** Every listed column can be rewritten in every row. */
  predicate AllRewritable(rows: seq<seq<Cell>>, cols: seq<nat>, o: Oprava) {
    forall k :: 0 <= k < |cols| ==> Rewritable(rows, cols[k], o)
  }

  /** out is rows with exactly the cells of the listed columns rewritten. */
  predicate Rewritten(rows: seq<seq<Cell>>, cols: seq<nat>, o: Oprava, out: seq<seq<Cell>>) {
    && |out| == |rows|
    && (forall i :: 0 <= i < |rows| ==> |out[i]| == |rows[i]|)
    && (forall i, j :: 0 <= i < |rows| && 0 <= j < |rows[i]| && j in cols ==>
          Oprav(o, rows[i][j]).Some? && out[i][j] == Oprav(o, rows[i][j]).value)
    && (forall i, j :: 0 <= i < |rows| && 0 <= j < |rows[i]| && j !in cols ==> out[i][j] == rows[i][j])
  }

  /** Indices in increasing order are distinct. */
  lemma IncreasingDistinct(cols: seq<nat>)
    requires forall k, l :: 0 <= k < l < |cols| ==> cols[k] < cols[l]
    ensures Distinct(cols)
  {
  }

  /** Rewriting column c leaves every other cell and every row length as
      it was. */
  lemma RewriteColumnFrame(rows: seq<seq<Cell>>, c: nat, o: Oprava)
    requires RewriteColumn(rows, c, o).Some?
    ensures forall i :: 0 <= i < |rows| ==> |RewriteColumn(rows, c, o).value[i]| == |rows[i]|
    ensures forall i, j :: 0 <= i < |rows| && 0 <= j < |rows[i]| && j != c ==>
      RewriteColumn(rows, c, o).value[i][j] == rows[i][j]
  {
  }

  /** Column c rewritten, then the distinct columns tail without c. */
  lemma RewrittenStep(rows: seq<seq<Cell>>, c: nat, tail: seq<nat>, o: Oprava, out: seq<seq<Cell>>)
    requires c !in tail
    requires RewriteColumn(rows, c, o).Some?
    requires Rewritten(RewriteColumn(rows, c, o).value, tail, o, out)
    ensures Rewritten(rows, [c] + tail, o, out)
  {
    var next := RewriteColumn(rows, c, o).value;
    RewriteColumnFrame(rows, c, o);
    forall i, j | 0 <= i < |rows| && 0 <= j < |rows[i]| && j in [c] + tail
      ensures Oprav(o, rows[i][j]).Some? && out[i][j] == Oprav(o, rows[i][j]).value
    {
      if j == c {
        assert out[i][j] == next[i][j];
      } else {
        assert j in tail;
      }
    }
  }

  /** A column other than c can be rewritten in rows exactly when it can
      in rows with only column c changed. */
  lemma RewritableOther(rows: seq<seq<Cell>>, next: seq<seq<Cell>>, c: nat, t: nat, o: Oprava)
    requires t != c && |next| == |rows|
    requires forall i :: 0 <= i < |rows| ==> |next[i]| == |rows[i]|
    requires forall i, j :: 0 <= i < |rows| && 0 <= j < |rows[i]| && j != c ==> next[i][j] == rows[i][j]
    ensures Rewritable(next, t, o) <==> Rewritable(rows, t, o)
  {
  }

  /** Whether the columns after c can be rewritten does not depend on
      column c having been rewritten first. */
  lemma RewritableStep(rows: seq<seq<Cell>>, c: nat, tail: seq<nat>, o: Oprava)
    requires c !in tail
    requires RewriteColumn(rows, c, o).Some?
    ensures AllRewritable(RewriteColumn(rows, c, o).value, tail, o) <==> AllRewritable(rows, [c] + tail, o)
  {
    var next := RewriteColumn(rows, c, o).value;
    RewriteColumnFrame(rows, c, o);
    forall k | 0 <= k < |tail| ensures Rewritable(next, tail[k], o) <==> Rewritable(rows, tail[k], o) {
      assert tail[k] in tail;
      RewritableOther(rows, next, c, tail[k], o);
    }
    AllRewritableCons(rows, next, c, tail, o);
  }

  /** AllRewritable of [c] + tail splits into column c and the tail. */
  lemma AllRewritableCons(rows: seq<seq<Cell>>, next: seq<seq<Cell>>, c: nat, tail: seq<nat>, o: Oprava)
    requires Rewritable(rows, c, o)
    requires forall k :: 0 <= k < |tail| ==> (Rewritable(next, tail[k], o) <==> Rewritable(rows, tail[k], o))
    ensures AllRewritable(next, tail, o) <==> AllRewritable(rows, [c] + tail, o)
  {
    var cols := [c] + tail;
    if AllRewritable(next, tail, o) {
      forall k | 0 <= k < |cols| ensures Rewritable(rows, cols[k], o) {
        if k > 0 {
          assert cols[k] == tail[k - 1];
        }
      }
    }
    if AllRewritable(rows, cols, o) {
      forall k | 0 <= k < |tail| ensures Rewritable(next, tail[k], o) {
        assert tail[k] == cols[k + 1];
      }
    }
  }

  /** With distinct columns the double loop succeeds exactly when every
      listed cell exists and can be rewritten, and it then rewrites exactly
      those cells, each once. */
  lemma {:induction false} RewriteColumnsCellwise(rows: seq<seq<Cell>>, cols: seq<nat>, o: Oprava)
    requires Distinct(cols)
    ensures RewriteColumns(rows, cols, o).Some? <==> AllRewritable(rows, cols, o)
    ensures RewriteColumns(rows, cols, o).Some? ==> Rewritten(rows, cols, o, RewriteColumns(rows, cols, o).value)
    decreases |cols|
  {
    if cols == [] {
      assert Rewritten(rows, cols, o, rows);
    } else {
      var c, tail := cols[0], cols[1..];
      assert cols == [c] + tail;
      assert c !in tail by {
        forall k | 0 <= k < |tail| ensures tail[k] != c {
          assert tail[k] == cols[k + 1];
        }
      }
      assert Distinct(tail) by {
        forall k, l | 0 <= k < l < |tail| ensures tail[k] != tail[l] {
          assert tail[k] == cols[k + 1] && tail[l] == cols[l + 1];
        }
      }
      if RewriteColumn(rows, c, o).None? {
        assert !Rewritable(rows, cols[0], o);
      } else {
        var next := RewriteColumn(rows, c, o).value;
        RewriteColumnsCellwise(next, tail, o);
        RewritableStep(rows, c, tail, o);
        if RewriteColumns(next, tail, o).Some? {
          RewrittenStep(rows, c, tail, o, RewriteColumns(next, tail, o).value);
        }
      }
    }
  }

  /** One cell after vymen_oddelovace: its text with every "," turned into
      ".", of the same length and without a comma. */
  predicate SeparatorFixed(before: Cell, after: Cell) {
    && before.Str? && after.Str? && |after.s| == |before.s| && ',' !in after.s
    && forall k :: 0 <= k < |before.s| ==> after.s[k] == if before.s[k] == ',' then '.' else before.s[k]
  }

  lemma SeparatorCell(c: Cell)
    requires Oprav(Oddelovac, c).Some?
    ensures SeparatorFixed(c, Oprav(Oddelovac, c).value)
  {
    ReplaceCharwise(c.s, ',', '.');
  }

  /** vymen_oddelovace on distinct columns: each listed cell is fixed as
      SeparatorFixed says; every other cell and the row count stay. */
  lemma SeparatorPass(rows: seq<seq<Cell>>, cols: seq<nat>)
    requires Distinct(cols)
    requires RewriteColumns(rows, cols, Oddelovac).Some?
    ensures Rewritten(rows, cols, Oddelovac, RewriteColumns(rows, cols, Oddelovac).value)
    ensures forall i, j :: 0 <= i < |rows| && 0 <= j < |rows[i]| && j in cols ==>
      SeparatorFixed(rows[i][j], RewriteColumns(rows, cols, Oddelovac).value[i][j])
  {
    RewriteColumnsCellwise(rows, cols, Oddelovac);
    var out := RewriteColumns(rows, cols, Oddelovac).value;
    forall i, j | 0 <= i < |rows| && 0 <= j < |rows[i]| && j in cols
      ensures SeparatorFixed(rows[i][j], out[i][j])
    {
      SeparatorCell(rows[i][j]);
    }
  }

  /** Running vymen_oddelovace a second time changes nothing. */
  lemma SeparatorPassIdempotent(rows: seq<seq<Cell>>, cols: seq<nat>)
    requires Distinct(cols)
    requires RewriteColumns(rows, cols, Oddelovac).Some?
    ensures RewriteColumns(RewriteColumns(rows, cols, Oddelovac).value, cols, Oddelovac)
         == RewriteColumns(rows, cols, Oddelovac)
  {
    var once := RewriteColumns(rows, cols, Oddelovac).value;
    SeparatorPass(rows, cols);
    forall i, j | 0 <= i < |once| && 0 <= j < |once[i]| && j in cols
      ensures Oprav(Oddelovac, once[i][j]) == Some(once[i][j])
    {
      ReplaceNone(once[i][j].s, ",", ".");
    }
    forall k | 0 <= k < |cols| ensures Rewritable(once, cols[k], Oddelovac) {
      RewriteColumnsCellwise(rows, cols, Oddelovac);
      assert Rewritable(rows, cols[k], Oddelovac);
      forall i | 0 <= i < |once| ensures cols[k] < |once[i]| && Oprav(Oddelovac, once[i][cols[k]]).Some? {
        assert cols[k] < |rows[i]|;
        assert cols[k] in cols;
      }
    }
    RewriteColumnsCellwise(once, cols, Oddelovac);
    var twice := RewriteColumns(once, cols, Oddelovac).value;
    forall i | 0 <= i < |once| ensures twice[i] == once[i] {
      assert |twice[i]| == |once[i]|;
      forall j | 0 <= j < |once[i]| ensures twice[i][j] == once[i][j] {
        if j in cols {
          assert Oprav(Oddelovac, once[i][j]) == Some(once[i][j]);
        }
      }
    }
    assert twice == once;
  }

  /** vymen_oravene_datum on distinct columns: each listed cell becomes
      None when it was "", and otherwise the timestamp oprav_datum writes for
      it; it fails exactly when a listed cell is missing, None or rejected. */
  lemma DatePass(rows: seq<seq<Cell>>, cols: seq<nat>)
    requires Distinct(cols)
    ensures RewriteColumns(rows, cols, Datum).Some? <==>
      forall i, j :: 0 <= i < |rows| && j in cols ==>
        j < |rows[i]| && rows[i][j].Str? && OpravDatum(rows[i][j].s).Ok?
    ensures RewriteColumns(rows, cols, Datum).Some? ==> Rewritten(rows, cols, Datum, RewriteColumns(rows, cols, Datum).value)
    ensures RewriteColumns(rows, cols, Datum).Some? ==>
      forall i, j :: 0 <= i < |rows| && 0 <= j < |rows[i]| && j in cols ==>
        var after := RewriteColumns(rows, cols, Datum).value[i][j];
        && (rows[i][j] == Str("") ==> after == NoneValue)
        && (rows[i][j] != Str("") ==> after.Str? && exists d :: Valid(d) && after.s == IsoDateTime(d))
  {
    RewriteColumnsCellwise(rows, cols, Datum);
    forall i, j | 0 <= i < |rows| && 0 <= j < |rows[i]| && rows[i][j].Str? && OpravDatum(rows[i][j].s).Ok?
      && OpravDatum(rows[i][j].s).value.Some?
      ensures exists d :: Valid(d) && OpravDatum(rows[i][j].s).value.value == IsoDateTime(d)
    {
      OpravDatumWrites(rows[i][j].s);
    }
    if AllRewritable(rows, cols, Datum) {
      forall i, j | 0 <= i < |rows| && j in cols
        ensures j < |rows[i]| && rows[i][j].Str? && OpravDatum(rows[i][j].s).Ok?
      {
        var k :| 0 <= k < |cols| && cols[k] == j;
        assert Rewritable(rows, cols[k], Datum);
      }
    } else {
      var k :| 0 <= k < |cols| && !Rewritable(rows, cols[k], Datum);
      assert cols[k] in cols;
    }
  }

  // ---- the two passes of main() ----------------------------------------

  const DecimalPrefixes: seq<string> := ["decimal"]
  const DatePrefixes: seq<string> := ["date", "timestamp"]

  /** vymen_oddelovace and then vymen_oravene_datum over the data rows, on
      the columns zjisti_sloupce_podle_typu selects from the parsed
      statement; None where one of those steps raises. */
  function Passes(body: seq<seq<Cell>>, entries: seq<seq<string>>): Option<seq<seq<Cell>>> {
    match ZjistiSloupcePodleTypu(entries, DecimalPrefixes)
    case None => None
    case Some(m) =>
      match ZjistiSloupcePodleTypu(entries, DatePrefixes)
      case None => None
      case Some(d) =>
        match RewriteColumns(body, m, Oddelovac)
        case None => None
        case Some(b1) => RewriteColumns(b1, d, Datum)
  }

  /** A type that starts with "decimal" starts neither with "date" nor with
      "timestamp". */
  lemma DecimalNotDate(t: string)
    requires StartsWith(t, "decimal")
    ensures !StartsWith(t, "date") && !StartsWith(t, "timestamp")
  {
    assert t[..7][1] == t[1] == 'e';
    assert t[..7][0] == t[0] == 'd';
  }

  /** No column is selected both as a decimal and as a date. */
  lemma SelectionsDisjoint(entries: seq<seq<string>>, j: nat)
    requires j < |entries| && Selected(entries[j], DecimalPrefixes)
    ensures !Selected(entries[j], DatePrefixes)
  {
    var t :| t in DecimalPrefixes && StartsWith(entries[j][1], t);
    assert t == "decimal";
    DecimalNotDate(entries[j][1]);
    forall u | u in DatePrefixes ensures !StartsWith(entries[j][1], u) {
      assert u == "date" || u == "timestamp";
    }
  }

  /** After both passes each cell of a decimal column is its old value with
      "," turned into ".", each cell of a date column is what oprav_datum
      writes for its old value, and every other cell is as it was; the rows
      keep their number and lengths. */
  lemma PassesCells(body: seq<seq<Cell>>, entries: seq<seq<string>>)
    requires Passes(body, entries).Some?
    ensures var m := ZjistiSloupcePodleTypu(entries, DecimalPrefixes).value;
      var d := ZjistiSloupcePodleTypu(entries, DatePrefixes).value;
      var out := Passes(body, entries).value;
      && |out| == |body|
      && forall i :: 0 <= i < |body| ==>
        && |out[i]| == |body[i]|
        && forall j :: 0 <= j < |body[i]| ==>
          if j in m then Oprav(Oddelovac, body[i][j]).Some? && out[i][j] == Oprav(Oddelovac, body[i][j]).value
          else if j in d then Oprav(Datum, body[i][j]).Some? && out[i][j] == Oprav(Datum, body[i][j]).value
          else out[i][j] == body[i][j]
  {
    var m := ZjistiSloupcePodleTypu(entries, DecimalPrefixes).value;
    var d := ZjistiSloupcePodleTypu(entries, DatePrefixes).value;
    var b1 := RewriteColumns(body, m, Oddelovac).value;
    var out := Passes(body, entries).value;
    IncreasingDistinct(m);
    IncreasingDistinct(d);
    RewriteColumnsCellwise(body, m, Oddelovac);
    RewriteColumnsCellwise(b1, d, Datum);
    forall i, j | 0 <= i < |body| && 0 <= j < |body[i]| && j in m ensures j !in d {
      SelectionsDisjoint(entries, j);
    }
  }

  // ---- zkontroluj_data ------------------------------------------------

  /** zkontroluj_data: the set of distinct row lengths it logs; reading
      len(self.data[0]) first raises IndexError on no rows (None). */
  function ZkontrolujData(data: seq<seq<Cell>>): (r: Option<set<nat>>)
    ensures r.None? <==> data == []
    ensures r.Some? ==> forall n :: n in r.value <==> exists i :: 0 <= i < |data| && |data[i]| == n
  {
    if data == [] then None
    else Some(set i | 0 <= i < |data| :: |data[i]|)
  }

  /** The rows are uniform exactly when the logged set has one element. */
  lemma UniformIff(data: seq<seq<Cell>>)
    requires data != []
    ensures |ZkontrolujData(data).value| == 1 <==> forall i :: 0 <= i < |data| ==> |data[i]| == |data[0]|
  {
    var lengths := ZkontrolujData(data).value;
    assert |data[0]| in lengths;
    if forall i :: 0 <= i < |data| ==> |data[i]| == |data[0]| {
      assert lengths == {|data[0]|};
    }
    if |lengths| == 1 {
      var rest := lengths - {|data[0]|};
      assert |rest| == 0;
      forall i | 0 <= i < |data| ensures |data[i]| == |data[0]| {
        assert |data[i]| in lengths;
      }
    }
  }

  // ---- the object -----------------------------------------------------

  /** A row of text cells. */
  function Row(texts: seq<string>): (row: seq<Cell>)
    ensures |row| == |texts| && forall k :: 0 <= k < |texts| ==> row[k] == Str(texts[k])
  {
    seq(|texts|, k requires 0 <= k < |texts| => Str(texts[k]))
  }

  /** The rows read, as text cells. */
  function Rows(texts: seq<seq<string>>): (rows: seq<seq<Cell>>)
    ensures |rows| == |texts| && forall i :: 0 <= i < |texts| ==> rows[i] == Row(texts[i])
  {
    seq(|texts|, i requires 0 <= i < |texts| => Row(texts[i]))
  }

  predicate AllText(row: seq<Cell>) {
    forall k :: 0 <= k < |row| ==> row[k].Str?
  }

  /** The texts of a row read before any date was rewritten. */
  function Texts(row: seq<Cell>): (texts: seq<string>)
    requires AllText(row)
    ensures |texts| == |row| && forall k :: 0 <= k < |row| ==> row[k] == Str(texts[k])
  {
    seq(|row|, k requires 0 <= k < |row| => row[k].s)
  }

  /** The loop of RewriteColumnInPlace after r rows: cell c of the first r
      rows of d0 rewritten, the other rows as they were. */
  predicate RowsRewritten(d0: seq<seq<Cell>>, cur: seq<seq<Cell>>, c: nat, o: Oprava, r: nat) {
    && r <= |d0| && |cur| == |d0|
    && (forall q :: 0 <= q < r ==> c < |d0[q]| && Oprav(o, d0[q][c]).Some? && cur[q] == WithCell(d0[q], c, o))
    && forall q :: r <= q < |d0| ==> cur[q] == d0[q]
  }

  lemma RowRewritten(d0: seq<seq<Cell>>, cur: seq<seq<Cell>>, c: nat, o: Oprava, r: nat)
    requires RowsRewritten(d0, cur, c, o, r) && r < |d0|
    requires c < |cur[r]| && Oprav(o, cur[r][c]).Some?
    ensures RowsRewritten(d0, cur[r := cur[r][c := Oprav(o, cur[r][c]).value]], c, o, r + 1)
  {
  }

  lemma RowNotRewritable(d0: seq<seq<Cell>>, cur: seq<seq<Cell>>, c: nat, o: Oprava, r: nat)
    requires RowsRewritten(d0, cur, c, o, r) && r < |d0|
    requires c >= |cur[r]| || Oprav(o, cur[r][c]).None?
    ensures !Rewritable(d0, c, o)
  {
    assert cur[r] == d0[r];
  }

  lemma AllRowsRewritten(d0: seq<seq<Cell>>, cur: seq<seq<Cell>>, c: nat, o: Oprava)
    requires RowsRewritten(d0, cur, c, o, |d0|)
    ensures Rewritable(d0, c, o) && cur == RewriteColumn(d0, c, o).value
  {
    var out := RewriteColumn(d0, c, o).value;
    assert |out| == |cur|;
    forall q | 0 <= q < |cur| ensures cur[q] == out[q] {
    }
  }

  /** The state of the data fixer that its steps read and write. */
  class OpravarDat {
    var data: seq<seq<Cell>>
    var hlavicka: seq<Cell>
    var hlavickaOpravena: seq<string>
    var prikazCreate: string
    var sloupceATypy: seq<seq<string>>
    var meritka: seq<nat>
    var datumy: seq<nat>

    constructor ()
      ensures data == [] && hlavicka == [] && hlavickaOpravena == [] && prikazCreate == ""
      ensures sloupceATypy == [] && meritka == [] && datumy == []
    {
      data := [];
      hlavicka := [];
      hlavickaOpravena := [];
      prikazCreate := "";
      sloupceATypy := [];
      meritka := [];
      datumy := [];
    }

    /** nacti_data over the rows the csv reader yields: every row is
        appended. */
    method NactiData(rows: seq<seq<string>>)
      modifies this
      ensures |data| == |old(data)| + |rows| && data[..|old(data)|] == old(data)
      ensures forall i :: 0 <= i < |rows| ==> data[|old(data)| + i] == Row(rows[i])
      ensures hlavicka == old(hlavicka) && hlavickaOpravena == old(hlavickaOpravena)
      ensures prikazCreate == old(prikazCreate) && sloupceATypy == old(sloupceATypy)
      ensures meritka == old(meritka) && datumy == old(datumy)
    {
      for k := 0 to |rows|
        modifies this`data
        invariant |data| == |old(data)| + k && data[..|old(data)|] == old(data)
        invariant forall i :: 0 <= i < k ==> data[|old(data)| + i] == Row(rows[i])
      {
        data := data + [Row(rows[k])];
      }
    }

    /** nacti_prikaz_create: the content of the statement file, or no change
        when the file does not exist. */
    method NactiPrikazCreate(content: Option<string>)
      modifies this
      ensures prikazCreate == if content.Some? then content.value else old(prikazCreate)
      ensures data == old(data) && hlavicka == old(hlavicka) && hlavickaOpravena == old(hlavickaOpravena)
      ensures sloupceATypy == old(sloupceATypy) && meritka == old(meritka) && datumy == old(datumy)
    {
      if content.Some? {
        prikazCreate := content.value;
      }
    }

    /** zpracuj_prikaz_create: one entry per inner line of the statement. */
    method ZpracujPrikazCreate()
      modifies this`sloupceATypy
      ensures sloupceATypy == ParseCreate(prikazCreate)
      ensures data == old(data) && hlavicka == old(hlavicka) && hlavickaOpravena == old(hlavickaOpravena)
      ensures prikazCreate == old(prikazCreate) && meritka == old(meritka) && datumy == old(datumy)
    {
      var vsl: seq<seq<string>> := [];
      var rozdeleny := Split(prikazCreate, '\n');
      var lines := if |rozdeleny| >= 2 then rozdeleny[1..|rozdeleny| - 1] else [];
      assert lines == InnerLines(prikazCreate);
      for k := 0 to |lines|
        modifies {}
        invariant |vsl| == k && forall j :: 0 <= j < k ==> vsl[j] == ParseLine(lines[j])
      {
        vsl := vsl + [ParseLine(lines[k])];
      }
      ParsedLines(prikazCreate, vsl);
      sloupceATypy := vsl;
    }

    /** rozdel_data: pops the header row; popping an empty list raises
        IndexError, reported as ok == false with nothing changed. */
    method RozdelData() returns (ok: bool)
      modifies this
      ensures ok <==> old(data) != []
      ensures ok ==> hlavicka == old(data)[0] && data == old(data)[1..]
      ensures !ok ==> hlavicka == old(hlavicka) && data == old(data)
      ensures hlavickaOpravena == old(hlavickaOpravena) && prikazCreate == old(prikazCreate)
      ensures sloupceATypy == old(sloupceATypy) && meritka == old(meritka) && datumy == old(datumy)
    {
      if data == [] {
        return false;
      }
      hlavicka := data[0];
      data := data[1..];
      return true;
    }

    /** The inner loop of vymen_oddelovace and vymen_oravene_datum: for
        each row, cell i is rewritten in place. ok == false where the source
        raises; the rows rewritten before that are not described. */
    method RewriteColumnInPlace(i: nat, o: Oprava) returns (ok: bool)
      modifies this
      ensures ok <==> Rewritable(old(data), i, o)
      ensures ok ==> data == RewriteColumn(old(data), i, o).value
      ensures hlavicka == old(hlavicka) && hlavickaOpravena == old(hlavickaOpravena)
      ensures prikazCreate == old(prikazCreate) && sloupceATypy == old(sloupceATypy)
      ensures meritka == old(meritka) && datumy == old(datumy)
    {
      ghost var d0 := data;
      for r := 0 to |data|
        modifies this`data
        invariant RowsRewritten(d0, data, i, o, r)
      {
        var zaznam := data[r];
        if i >= |zaznam| {
          RowNotRewritable(d0, data, i, o, r);
          return false;
        }
        var nova := Oprav(o, zaznam[i]);
        if nova.None? {
          RowNotRewritable(d0, data, i, o, r);
          return false;
        }
        RowRewritten(d0, data, i, o, r);
        data := data[r := zaznam[i := nova.value]];
      }
      AllRowsRewritten(d0, data, i, o);
      ok := true;
    }

    /** The outer loop: the columns cols in order. */
    method RewriteInPlace(cols: seq<nat>, o: Oprava) returns (ok: bool)
      modifies this
      ensures ok <==> RewriteColumns(old(data), cols, o).Some?
      ensures ok ==> data == RewriteColumns(old(data), cols, o).value
      ensures hlavicka == old(hlavicka) && hlavickaOpravena == old(hlavickaOpravena)
      ensures prikazCreate == old(prikazCreate) && sloupceATypy == old(sloupceATypy)
      ensures meritka == old(meritka) && datumy == old(datumy)
    {
      for k := 0 to |cols|
        invariant RewriteColumns(old(data), cols, o) == RewriteColumns(data, cols[k..], o)
        invariant hlavicka == old(hlavicka) && hlavickaOpravena == old(hlavickaOpravena)
        invariant prikazCreate == old(prikazCreate) && sloupceATypy == old(sloupceATypy)
        invariant meritka == old(meritka) && datumy == old(datumy)
      {
        assert cols[k..][0] == cols[k] && cols[k..][1..] == cols[k + 1..];
        ok := RewriteColumnInPlace(cols[k], o);
        if !ok {
          return false;
        }
      }
      ok := true;
    }

    /** vymen_oddelovace: "," becomes "." in every cell of the meritka
        columns. */
    method VymenOddelovace() returns (ok: bool)
      modifies this
      ensures ok <==> RewriteColumns(old(data), meritka, Oddelovac).Some?
      ensures ok ==> data == RewriteColumns(old(data), meritka, Oddelovac).value
      ensures hlavicka == old(hlavicka) && hlavickaOpravena == old(hlavickaOpravena)
      ensures prikazCreate == old(prikazCreate) && sloupceATypy == old(sloupceATypy)
      ensures meritka == old(meritka) && datumy == old(datumy)
    {
      ok := RewriteInPlace(meritka, Oddelovac);
    }

    /** vymen_oravene_datum: every cell of the datumy columns is replaced by
        oprav_datum of it. */
    method VymenOraveneDatum() returns (ok: bool)
      modifies this
      ensures ok <==> RewriteColumns(old(data), datumy, Datum).Some?
      ensures ok ==> data == RewriteColumns(old(data), datumy, Datum).value
      ensures hlavicka == old(hlavicka) && hlavickaOpravena == old(hlavickaOpravena)
      ensures prikazCreate == old(prikazCreate) && sloupceATypy == old(sloupceATypy)
      ensures meritka == old(meritka) && datumy == old(datumy)
    {
      ok := RewriteInPlace(datumy, Datum);
    }

    /** sjednot_data_a_hlavicku: the normalised header goes back in front of
        the rows. */
    method SjednotDataAHlavicku()
      modifies this
      ensures data == [Row(hlavickaOpravena)] + old(data)
      ensures hlavicka == old(hlavicka) && hlavickaOpravena == old(hlavickaOpravena)
      ensures prikazCreate == old(prikazCreate) && sloupceATypy == old(sloupceATypy)
      ensures meritka == old(meritka) && datumy == old(datumy)
    {
      data := [Row(hlavickaOpravena)] + data;
    }

    /** main() on a fixer with no rows yet: the steps in order over the rows
        the reader yields and the content of the statement file (the old
        statement text when there is no file). None where a step raises;
        otherwise the cleaned header followed by the data rows after both
        passes over the columns selected from the parsed statement. */
    method Run(rows: seq<seq<string>>, create: Option<string>) returns (out: Option<seq<seq<Cell>>>)
      modifies this
      requires data == []
      ensures var stmt := if create.Some? then create.value else old(prikazCreate);
        out.None? <==> rows == [] || Passes(Rows(rows[1..]), ParseCreate(stmt)).None?
      ensures var stmt := if create.Some? then create.value else old(prikazCreate);
        out.Some? ==>
          && prikazCreate == stmt && sloupceATypy == ParseCreate(stmt)
          && meritka == ZjistiSloupcePodleTypu(sloupceATypy, DecimalPrefixes).value
          && datumy == ZjistiSloupcePodleTypu(sloupceATypy, DatePrefixes).value
          && out.value == data == [Row(hlavickaOpravena)] + Passes(Rows(rows[1..]), sloupceATypy).value
      ensures out.Some? ==> |data| == |rows|
      ensures out.Some? ==> |hlavickaOpravena| == |rows[0]|
      ensures out.Some? ==> forall k :: 0 <= k < |rows[0]| ==> hlavickaOpravena[k] == NameCleanup.UpravNazev(rows[0][k])
    {
      NactiData(rows);
      if ZkontrolujData(data).None? {
        return None;
      }
      var ok := RozdelData();
      assert |data| == |rows| - 1;
      assert hlavicka == Row(rows[0]);
      assert Texts(hlavicka) == rows[0];
      assert data == Rows(rows[1..]);
      hlavickaOpravena := NameCleanup.ZjistiNazvySloupcu(Texts(hlavicka));
      NactiPrikazCreate(create);
      ZpracujPrikazCreate();
      var m := ZjistiSloupcePodleTypu(sloupceATypy, DecimalPrefixes);
      if m.None? {
        return None;
      }
      meritka := m.value;
      var d := ZjistiSloupcePodleTypu(sloupceATypy, DatePrefixes);
      if d.None? {
        return None;
      }
      datumy := d.value;
      ghost var body := data;
      ok := VymenOddelovace();
      if !ok {
        return None;
      }
      ok := VymenOraveneDatum();
      if !ok {
        return None;
      }
      assert data == Passes(body, sloupceATypy).value;
      SjednotDataAHlavicku();
      return Some(data);
    }
  }
}
