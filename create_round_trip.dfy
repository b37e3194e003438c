/** The CREATE statement written by tvurce_sql.py, read back by
    zpracuj_prikaz_create and zjisti_sloupce_podle_typu of opravar_dat.py:
    the repair step finds exactly the columns the schema declares decimal,
    date or timestamp. */
module CreateRoundTrip {
  import opened Wrappers
  import opened Text
  import opened ValueTypes
  import opened ColumnTypes
  import opened SqlCreator
  import opened DataFixer
  import NameCleanup

  /** The lines between the first and the last "\n" of the statement: every
      column line, each but the last followed by its comma. */
  function CommaLines(lines: seq<string>): (r: seq<string>)
    ensures |r| == |lines|
    ensures forall k :: 0 <= k < |lines| ==> r[k] == if k < |lines| - 1 then lines[k] + "," else lines[k]
    decreases |lines|
  {
    if lines == [] then []
    else if |lines| == 1 then [lines[0]]
    else [lines[0] + ","] + CommaLines(lines[1..])
  }

  /** Splitting the body and what follows it at "\n" gives the comma lines
      and then the rest. */
  lemma {:induction false} BodySplit(lines: seq<string>, tail: string)
    requires forall k :: 0 <= k < |lines| ==> '\n' !in lines[k]
    requires '\n' !in tail
    ensures Split(Body(lines) + tail, '\n') == CommaLines(lines) + [tail]
    decreases |lines|
  {
    if lines == [] {
      assert Body(lines) + tail == tail;
      SplitNoSeparator(tail, '\n');
    } else if |lines| == 1 {
      assert lines == [lines[0]];
      BodySplitLast(lines[0], tail);
    } else {
      BodySplit(lines[1..], tail);
      BodySplitStep(lines, tail);
    }
  }

  /** The last column line ends at the last line break. */
  lemma BodySplitLast(line: string, tail: string)
    requires '\n' !in line && '\n' !in tail
    ensures Split(Body([line]) + tail, '\n') == CommaLines([line]) + [tail]
  {
    assert Body([line]) + tail == line + ['\n'] + tail;
    SplitAtFirst(line, '\n', tail);
    SplitNoSeparator(tail, '\n');
  }

  /** A column line followed by ",\n" is one comma line. */
  lemma BodySplitStep(lines: seq<string>, tail: string)
    requires |lines| >= 2 && '\n' !in lines[0]
    requires Split(Body(lines[1..]) + tail, '\n') == CommaLines(lines[1..]) + [tail]
    ensures Split(Body(lines) + tail, '\n') == CommaLines(lines) + [tail]
  {
    var rest := lines[1..];
    var first := lines[0] + ",";
    var more := Body(rest) + tail;
    var cs := CommaLines(rest);
    assert Body(lines) + tail == first + ['\n'] + more by {
      Regroup(lines[0], Body(rest), tail);
    }
    assert Split(first + ['\n'] + more, '\n') == [first] + (cs + [tail]) by {
      NotInConcat(lines[0], ",", '\n');
      SplitAtFirst(first, '\n', more);
    }
    assert CommaLines(lines) + [tail] == [first] + (cs + [tail]) by {
      assert CommaLines(lines) == [first] + cs;
    }
  }

  lemma Regroup(a: string, b: string, t: string)
    ensures a + ",\n" + b + t == (a + ",") + ['\n'] + (b + t)
  {
    var c := a + ",";
    assert a + ",\n" == c + ['\n'];
  }

  /** No declared type holds a line break or starts with a space. */
  lemma TagNameChars(t: Tag)
    ensures '\n' !in TagName(t)
    ensures |TagName(t)| > 0 && TagName(t)[0] != ' '
  {
  }

  /** A column line holds no line break when its name holds none. */
  lemma ColumnLineChars(name: string, t: Tag)
    requires '\n' !in name
    ensures '\n' !in ColumnLine(name, t)
  {
    TagNameChars(t);
    NotInConcat("    ", name, '\n');
    NotInConcat("    " + name, " ", '\n');
    NotInConcat("    " + name + " ", TagName(t), '\n');
  }

  /** The statement is its first line, a line break, and then the body
      followed by ");". */
  lemma StatementFrame(tabulka: string, lines: seq<string>) returns (head: string, tail: string)
    requires '\n' !in tabulka
    ensures "create or replace table " + tabulka + " (\n" + Body(lines) + ");" == head + ['\n'] + (Body(lines) + tail)
    ensures '\n' !in head && '\n' !in tail
  {
    head := "create or replace table " + tabulka + " (";
    tail := ");";
    NotInConcat("create or replace table ", tabulka, '\n');
    NotInConcat("create or replace table " + tabulka, " (", '\n');
  }

  /** The inner lines of a text made of a first line, a line break, a body
      and a last line are the body's comma lines. */
  lemma InnerLinesFrame(head: string, lines: seq<string>, tail: string)
    requires '\n' !in head && '\n' !in tail
    requires forall k :: 0 <= k < |lines| ==> '\n' !in lines[k]
    ensures InnerLines(head + ['\n'] + (Body(lines) + tail)) == CommaLines(lines)
  {
    var body := Body(lines);
    SplitAtFirst(head, '\n', body + tail);
    BodySplit(lines, tail);
    var cs := CommaLines(lines);
    var parts := [head] + (cs + [tail]);
    assert Split(head + ['\n'] + (body + tail), '\n') == parts;
    MiddleOf(head, cs, tail);
  }

  lemma MiddleOf<T>(head: T, cs: seq<T>, tail: T)
    ensures var parts := [head] + (cs + [tail]); |parts| >= 2 && parts[1..|parts| - 1] == cs
  {
    var parts := [head] + (cs + [tail]);
    assert forall k :: 0 <= k < |cs| ==> parts[1..|parts| - 1][k] == cs[k];
  }

  /** The columns of the statement are its inner lines. */
  lemma CreateLines(tabulka: string, names: seq<string>, decls: seq<Tag>)
    requires '\n' !in tabulka
    requires forall k :: 0 <= k < |names| ==> '\n' !in names[k]
    ensures InnerLines(CreateText(tabulka, names, decls)) == CommaLines(ColumnLines(names, decls))
  {
    var lines := ColumnLines(names, decls);
    forall k | 0 <= k < |lines| ensures '\n' !in lines[k] {
      ColumnLineChars(names[k], decls[k]);
    }
    var head, tail := StatementFrame(tabulka, lines);
    InnerLinesFrame(head, lines, tail);
  }

  /** No two spaces in a row. */
  predicate SingleSpaced(s: string) {
    forall k :: 0 <= k < |s| - 1 ==> s[k] != ' ' || s[k + 1] != ' '
  }

  /** Without two spaces in a row a run of four spaces never occurs, so
      replacing it changes nothing. */
  lemma {:induction false} SingleSpacedUnchanged(s: string)
    requires SingleSpaced(s)
    ensures Replace(s, "    ", "") == s
    decreases |s|
  {
    if |s| >= 4 {
      assert s[..4] != "    " by {
        assert s[..4][0] == s[0] && s[..4][1] == s[1];
      }
      assert SingleSpaced(s[1..]) by {
        forall k | 0 <= k < |s[1..]| - 1 ensures s[1..][k] != ' ' || s[1..][k + 1] != ' ' {
          assert s[1..][k] == s[k + 1] && s[1..][k + 1] == s[k + 2];
        }
      }
      SingleSpacedUnchanged(s[1..]);
      assert s == [s[0]] + s[1..];
    }
  }

  /** The declared type with the comma that may follow it: "decimal(18, 3)"
      holds one space, followed by "3"; the other types hold none. */
  lemma TypeTextSpacing(t: Tag, c: string)
    requires c == "" || c == ","
    ensures SingleSpaced(TagName(t) + c)
    ensures t != Decimal ==> ' ' !in TagName(t) + c
  {
    var x := TagName(t) + c;
    if t == Decimal {
      var a, b := "decimal(18,", "3)" + c;
      assert x == a + [' '] + b;
      forall k | 0 <= k < |x| - 1 ensures x[k] != ' ' || x[k + 1] != ' ' {
        if k < |a| {
          assert x[k] == a[k];
        } else if k == |a| {
          assert x[k + 1] == b[0] == '3';
        } else {
          assert x[k] == b[k - |a| - 1] && x[k] in b;
        }
      }
    } else {
      assert ' ' !in TagName(t);
      NotInConcat(TagName(t), c, ' ');
    }
  }

  /** A name without spaces, one space and a declared type: no two spaces
      in a row. */
  lemma LineSpacing(name: string, t: Tag, c: string)
    requires ' ' !in name
    requires c == "" || c == ","
    ensures SingleSpaced(name + ([' '] + (TagName(t) + c)))
  {
    var x := TagName(t) + c;
    var s := name + ([' '] + x);
    TypeTextSpacing(t, c);
    TagNameChars(t);
    forall k | 0 <= k < |s| - 1 ensures s[k] != ' ' || s[k + 1] != ' ' {
      if k < |name| {
        assert s[k] == name[k] && s[k] in name;
      } else if k == |name| {
        assert s[k + 1] == x[0] == TagName(t)[0];
      } else {
        assert s[k] == x[k - |name| - 1] && s[k + 1] == x[k - |name|];
      }
    }
  }

  /** A column line split as its indent and the rest. */
  lemma IndentPieces(name: string, t: Tag, c: string) returns (indent: string, rest: string)
    ensures ColumnLine(name, t) + c == indent + rest
    ensures indent == "    " && rest == name + ([' '] + (TagName(t) + c))
  {
    indent, rest := "    ", name + ([' '] + (TagName(t) + c));
  }

  /** Removing runs of four spaces drops the indent and nothing else. */
  lemma DropIndent(name: string, t: Tag, c: string)
    requires ' ' !in name
    requires c == "" || c == ","
    ensures Replace(ColumnLine(name, t) + c, "    ", "") == name + ([' '] + (TagName(t) + c))
  {
    var indent, rest := IndentPieces(name, t, c);
    ReplaceHead(indent, rest, "");
    LineSpacing(name, t, c);
    SingleSpacedUnchanged(rest);
    assert "" + rest == rest;
  }

  /** The name, without spaces, is the first part. */
  lemma SplitNameType(name: string, x: string)
    requires ' ' !in name
    ensures Split(name + ([' '] + x), ' ') == [name] + Split(x, ' ')
  {
    assert name + ([' '] + x) == name + [' '] + x;
    SplitAtFirst(name, ' ', x);
  }

  /** zpracuj_prikaz_create on one column line: its first part is the name,
      the rest the declared type split at its spaces. */
  lemma ParseColumnLine(name: string, t: Tag, c: string)
    requires ' ' !in name
    requires c == "" || c == ","
    ensures ParseLine(ColumnLine(name, t) + c) == [name] + Split(TagName(t) + c, ' ')
  {
    DropIndent(name, t, c);
    SplitNameType(name, TagName(t) + c);
  }

  /** A trailing comma does not change which comma-free prefixes a text
      starts with. */
  lemma StartsWithComma(a: string, c: string, p: string)
    requires c == "" || c == ","
    requires ',' !in p
    ensures StartsWith(a + c, p) <==> StartsWith(a, p)
  {
    if |p| <= |a| {
      assert (a + c)[..|p|] == a[..|p|];
    } else if |p| == |a| + |c| {
      assert (a + c)[|a|] == ',';
      assert (a + c) != p by {
        assert p[|a|] in p;
      }
    }
  }

  /** A declared type without spaces is its own first part, trailing comma
      and all. */
  lemma PlainTypeWord(t: Tag, c: string, p: string)
    requires t != Decimal
    requires c == "" || c == ","
    requires ',' !in p
    ensures StartsWith(Split(TagName(t) + c, ' ')[0], p) <==> StartsWith(TagName(t), p)
  {
    TypeTextSpacing(t, c);
    SplitNoSeparator(TagName(t) + c, ' ');
    StartsWithComma(TagName(t), c, p);
  }

  /** "decimal(18, 3)" is "decimal(18," and "3)" around its one space. */
  lemma DecimalPieces(c: string) returns (a: string, b: string)
    ensures TagName(Decimal) + c == a + [' '] + b
    ensures a == "decimal(18," && ' ' !in a
  {
    a, b := "decimal(18,", "3)" + c;
  }

  /** The first part of "decimal(18, 3)" is "decimal(18,". */
  lemma DecimalWord(c: string) returns (w: string)
    ensures w == Split(TagName(Decimal) + c, ' ')[0]
    ensures w == "decimal(18,"
  {
    var a, b := DecimalPieces(c);
    SplitAtFirst(a, ' ', b);
    w := a;
  }

  lemma DecimalWordPrefixes(w: string)
    requires w == "decimal(18,"
    ensures StartsWith(w, "decimal")
    ensures !StartsWith(w, "date") && !StartsWith(w, "timestamp")
  {
    assert w[..7] == "decimal";
    assert w[..4][2] != "date"[2];
    assert w[..9][0] != "timestamp"[0];
  }

  /** The first word of "decimal(18, 3)" starts with "decimal" only. */
  lemma DecimalTypeWord(c: string) returns (w: string)
    ensures w == Split(TagName(Decimal) + c, ' ')[0]
    ensures StartsWith(w, "decimal") && !StartsWith(w, "date") && !StartsWith(w, "timestamp")
  {
    w := DecimalWord(c);
    DecimalWordPrefixes(w);
  }

  /** Any other declared type is one word, which starts with "date" or
      "timestamp" exactly when the type is that one, and never with
      "decimal". */
  lemma PlainTypeWordPrefixes(t: Tag, c: string, w: string)
    requires t != Decimal
    requires c == "" || c == ","
    requires w == Split(TagName(t) + c, ' ')[0]
    ensures !StartsWith(w, "decimal")
    ensures StartsWith(w, "date") <==> t == Date
    ensures StartsWith(w, "timestamp") <==> t == Timestamp
  {
    CommaFreePrefixes();
    assert !StartsWith(w, "decimal") by {
      TagPrefixes(t);
      PlainTypeWord(t, c, "decimal");
    }
    assert StartsWith(w, "date") <==> t == Date by {
      TagPrefixes(t);
      PlainTypeWord(t, c, "date");
    }
    assert StartsWith(w, "timestamp") <==> t == Timestamp by {
      TagPrefixes(t);
      PlainTypeWord(t, c, "timestamp");
    }
  }

  lemma CommaFreePrefixes()
    ensures ',' !in "decimal" && ',' !in "date" && ',' !in "timestamp"
  {
  }

  /** The type part of a column line, up to its first space, starts with
      "decimal", "date" or "timestamp" exactly when the column is declared
      so. */
  lemma TypeWordPrefixes(t: Tag, c: string)
    requires c == "" || c == ","
    ensures StartsWith(Split(TagName(t) + c, ' ')[0], "decimal") <==> t == Decimal
    ensures StartsWith(Split(TagName(t) + c, ' ')[0], "date") <==> t == Date
    ensures StartsWith(Split(TagName(t) + c, ' ')[0], "timestamp") <==> t == Timestamp
  {
    if t == Decimal {
      var w := DecimalTypeWord(c);
    } else {
      PlainTypeWordPrefixes(t, c, Split(TagName(t) + c, ' ')[0]);
    }
  }

  /** One parsed column line: the name first, then a part that starts with
      "decimal", "date" or "timestamp" exactly when the column is declared
      so. */
  predicate EntryAs(e: seq<string>, name: string, t: Tag) {
    && |e| >= 2 && e[0] == name
    && (StartsWith(e[1], "decimal") <==> t == Decimal)
    && (StartsWith(e[1], "date") <==> t == Date)
    && (StartsWith(e[1], "timestamp") <==> t == Timestamp)
  }

  /** The parsed statement: one entry per column line, in column order. */
  predicate ParsedAs(entries: seq<seq<string>>, names: seq<string>, decls: seq<Tag>) {
    && |entries| == Min(|names|, |decls|)
    && forall k :: 0 <= k < |entries| ==> EntryAs(entries[k], names[k], decls[k])
  }

  lemma EntryOfLine(name: string, t: Tag, c: string)
    requires ' ' !in name
    requires c == "" || c == ","
    ensures EntryAs(ParseLine(ColumnLine(name, t) + c), name, t)
  {
    ParseColumnLine(name, t, c);
    TypeWordPrefixes(t, c);
  }

  /** A text whose inner lines are the comma lines of the columns parses to
      those columns. */
  lemma ParsedFromLines(text: string, names: seq<string>, decls: seq<Tag>)
    requires forall k :: 0 <= k < |names| ==> ' ' !in names[k]
    requires InnerLines(text) == CommaLines(ColumnLines(names, decls))
    ensures ParsedAs(ParseCreate(text), names, decls)
  {
    var lines := ColumnLines(names, decls);
    var entries := ParseCreate(text);
    forall k | 0 <= k < |entries| ensures EntryAs(entries[k], names[k], decls[k]) {
      var line := ColumnLine(names[k], decls[k]);
      var c: string := if k < |lines| - 1 then "," else "";
      if k == |lines| - 1 {
        assert line + c == line;
      }
      assert InnerLines(text)[k] == line + c;
      EntryOfLine(names[k], decls[k], c);
    }
  }

  /** The statement tvurce_sql writes parses, line by line, to its
      columns. */
  lemma ParsedColumns(tabulka: string, names: seq<string>, decls: seq<Tag>)
    requires '\n' !in tabulka
    requires forall k :: 0 <= k < |names| ==> ' ' !in names[k] && '\n' !in names[k]
    ensures ParsedAs(ParseCreate(CreateText(tabulka, names, decls)), names, decls)
  {
    CreateLines(tabulka, names, decls);
    ParsedFromLines(CreateText(tabulka, names, decls), names, decls);
  }

  /** Selection by the prefix "decimal" reads the second part. */
  lemma SelectedDecimal(e: seq<string>, t: Tag)
    requires |e| >= 2 && (StartsWith(e[1], "decimal") <==> t == Decimal)
    ensures Selected(e, ["decimal"]) <==> t == Decimal
  {
    if t == Decimal {
      assert "decimal" in ["decimal"];
    }
  }

  /** Selection by the prefixes "date" and "timestamp" reads the second
      part. */
  lemma SelectedDate(e: seq<string>, t: Tag)
    requires |e| >= 2
    requires StartsWith(e[1], "date") <==> t == Date
    requires StartsWith(e[1], "timestamp") <==> t == Timestamp
    ensures Selected(e, ["date", "timestamp"]) <==> t == Date || t == Timestamp
  {
    if t == Date {
      assert "date" in ["date", "timestamp"];
    } else if t == Timestamp {
      assert "timestamp" in ["date", "timestamp"];
    }
  }

  /** zjisti_sloupce_podle_typu(["decimal"]) on parsed columns picks the
      decimal ones. */
  lemma DecimalsSelected(entries: seq<seq<string>>, names: seq<string>, decls: seq<Tag>)
    requires ParsedAs(entries, names, decls)
    ensures var r := ZjistiSloupcePodleTypu(entries, ["decimal"]);
      r.Some? && forall k :: 0 <= k < |entries| ==> (k in r.value <==> decls[k] == Decimal)
  {
    forall k | 0 <= k < |entries| ensures Selected(entries[k], ["decimal"]) <==> decls[k] == Decimal {
      SelectedDecimal(entries[k], decls[k]);
    }
  }

  /** zjisti_sloupce_podle_typu(["date", "timestamp"]) on parsed columns
      picks the date and timestamp ones. */
  lemma DatesSelected(entries: seq<seq<string>>, names: seq<string>, decls: seq<Tag>)
    requires ParsedAs(entries, names, decls)
    ensures var r := ZjistiSloupcePodleTypu(entries, ["date", "timestamp"]);
      r.Some? && forall k :: 0 <= k < |entries| ==> (k in r.value <==> decls[k] == Date || decls[k] == Timestamp)
  {
    forall k | 0 <= k < |entries|
      ensures Selected(entries[k], ["date", "timestamp"]) <==> decls[k] == Date || decls[k] == Timestamp
    {
      SelectedDate(entries[k], decls[k]);
    }
  }

  /** The decimal columns opravar_dat finds in a statement tvurce_sql wrote
      are exactly the columns declared decimal(18, 3). */
  lemma DecimalColumnsFound(tabulka: string, names: seq<string>, decls: seq<Tag>)
    requires '\n' !in tabulka
    requires forall k :: 0 <= k < |names| ==> ' ' !in names[k] && '\n' !in names[k]
    ensures var r := ZjistiSloupcePodleTypu(ParseCreate(CreateText(tabulka, names, decls)), ["decimal"]);
      r.Some? && forall k :: 0 <= k < |names| && k < |decls| ==> (k in r.value <==> decls[k] == Decimal)
  {
    ParsedColumns(tabulka, names, decls);
    DecimalsSelected(ParseCreate(CreateText(tabulka, names, decls)), names, decls);
  }

  /** The date columns opravar_dat finds in a statement tvurce_sql wrote are
      exactly the columns declared date or timestamp. */
  lemma DateColumnsFound(tabulka: string, names: seq<string>, decls: seq<Tag>)
    requires '\n' !in tabulka
    requires forall k :: 0 <= k < |names| ==> ' ' !in names[k] && '\n' !in names[k]
    ensures var r := ZjistiSloupcePodleTypu(ParseCreate(CreateText(tabulka, names, decls)), ["date", "timestamp"]);
      r.Some? && forall k :: 0 <= k < |names| && k < |decls| ==>
        (k in r.value <==> decls[k] == Date || decls[k] == Timestamp)
  {
    ParsedColumns(tabulka, names, decls);
    DatesSelected(ParseCreate(CreateText(tabulka, names, decls)), names, decls);
  }

  /** The header of a csv file, normalised as tvurce_sql does it: when no
      header token and not the table name holds a line break, opravar_dat
      reads back every column of the statement, its normalised name first
      and its declared type second. */
  lemma SchemaRoundTrip(tabulka: string, header: seq<string>, decls: seq<Tag>)
    requires '\n' !in tabulka
    requires forall k :: 0 <= k < |header| ==> '\n' !in header[k]
    ensures var names := seq(|header|, k requires 0 <= k < |header| => NameCleanup.UpravNazev(header[k]));
      ParsedAs(ParseCreate(CreateText(tabulka, names, decls)), names, decls)
  {
    var names := seq(|header|, k requires 0 <= k < |header| => NameCleanup.UpravNazev(header[k]));
    forall k | 0 <= k < |names| ensures ' ' !in names[k] && '\n' !in names[k] {
      NameCleanup.UpravNazevIsClean(header[k]);
      NameCleanup.UpravNazevNoNewline(header[k]);
      NameCleanup.NoForbiddenExcludes(names[k]);
    }
    ParsedColumns(tabulka, names, decls);
  }
}
