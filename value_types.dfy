/** Classification of one cell (zjisti_typ_hodnoty in tvurce_sql.py) and
    the subsets of Python's int() and Decimal() it relies on. */
module ValueTypes {
  import opened Text
  import DateParse
  import DateFacts

  /** The six tags zjisti_typ_hodnoty returns. */
  datatype Tag = Null | Date | Timestamp | Decimal | Integer | Varchar

  /** The tag as the source spells it; this is also the declared SQL type. */
  function TagName(t: Tag): string {
    match t
    case Null => "null"
    case Date => "date"
    case Timestamp => "timestamp"
    case Decimal => "decimal(18, 3)"
    case Integer => "integer"
    case Varchar => "varchar"
  }

  function DropSign(s: string): (r: string)
    ensures |r| <= |s|
  {
    if |s| > 0 && (s[0] == '+' || s[0] == '-') then s[1..] else s
  }

  /** int(s) succeeds: surrounding whitespace, an optional sign and at least
      one ASCII digit. */
  predicate IsIntText(s: string): (b: bool)
    ensures b ==> IsDecimalText(s)
  {
    var t := DropSign(Strip(s));
    |t| > 0 && AllDigits(t)
  }

  /** digits, digits '.' [digits] or '.' digits. */
  predicate IsMantissa(m: string) {
    var i := IndexOf(m, '.');
    if i == |m| then |m| > 0 && AllDigits(m)
    else AllDigits(m[..i]) && AllDigits(m[i + 1..]) && (i > 0 || i + 1 < |m|)
  }

  /** [sign] digits, after the 'e' or 'E'. */
  predicate IsExponent(x: string) {
    var y := DropSign(x);
    |y| > 0 && AllDigits(y)
  }

  /** Index of the first 'e' or 'E', or |t|. */
  function ExponentMark(t: string): (i: nat)
    ensures i <= |t|
  {
    var a, b := IndexOf(t, 'e'), IndexOf(t, 'E');
    if a < b then a else b
  }

  predicate IsFiniteDecimal(t: string) {
    var e := ExponentMark(t);
    IsMantissa(t[..e]) && (e == |t| || IsExponent(t[e + 1..]))
  }

  /** Infinity, Inf, NaN[digits] and sNaN[digits], in any case. */
  predicate IsSpecialDecimal(t: string) {
    var l := AsciiLowerAll(t);
    || l == "inf" || l == "infinity"
    || (StartsWith(l, "nan") && AllDigits(l[3..]))
    || (StartsWith(l, "snan") && AllDigits(l[4..]))
  }

  /** Decimal(s) succeeds: surrounding whitespace, an optional sign, then a
      finite number with an optional exponent or one of the special values. */
  predicate IsDecimalText(s: string): (b: bool)
    ensures b ==> DropSign(Strip(s)) != ""
  {
    var t := DropSign(Strip(s));
    IsFiniteDecimal(t) || IsSpecialDecimal(t)
  }

  /** zjisti_typ_hodnoty(hodnota): the first rule that applies decides
      (ZjistiTypHodnotyRules states what each tag means). */
  function ZjistiTypHodnoty(h: string): Tag {
    if h == "0" || h == "" then Null
    else if '.' in h && |Split(h, '.')| == 3 && ':' !in h then
      (if DateParse.PretypujDatum(h).Some? then Date else Varchar)
    else if ':' in h then
      (if DateParse.PretypujDatum(h).Some? then Timestamp else Varchar)
    else if '.' in h || ',' in h then
      (if IsDecimalText(Replace(h, ",", ".")) then Decimal else Varchar)
    else if IsIntText(h) then Integer
    else Varchar
  }

  /** What each tag of zjisti_typ_hodnoty means. "" and "0" carry no
      evidence; a colon-free token with exactly two dots can only be a date;
      a token with a colon only a timestamp; otherwise a dot or a comma makes
      a decimal candidate (comma read as the decimal point) and anything else
      an integer candidate. A failed parse gives varchar. */
  lemma ZjistiTypHodnotyRules(h: string)
    ensures ZjistiTypHodnoty(h) == Null <==> h == "" || h == "0"
    ensures ZjistiTypHodnoty(h) == Date <==>
      ':' !in h && Count(h, '.') == 2 && DateParse.PretypujDatum(h).Some?
    ensures ZjistiTypHodnoty(h) == Timestamp <==> ':' in h && DateParse.PretypujDatum(h).Some?
    ensures ZjistiTypHodnoty(h) == Decimal <==>
      ':' !in h && Count(h, '.') != 2 && ('.' in h || ',' in h) && IsDecimalText(Replace(h, ",", "."))
    ensures ZjistiTypHodnoty(h) == Integer <==>
      h != "0" && '.' !in h && ',' !in h && ':' !in h && IsIntText(h)
  {
    if '.' !in h {
      assert Count(h, '.') == 0;
    }
  }

  /** A text strftime("%d.%m.%Y") writes, two dots and no colon, is typed
      date. */
  lemma DayFirstDateIsDate(d: DateParse.DateTime)
    requires DateParse.Valid(d)
    ensures ZjistiTypHodnoty(DateFacts.DayFirstDate(d)) == Date
  {
    var s := DateFacts.DayFirstDate(d);
    DateFacts.DayFirstDateText(d);
    DateFacts.StrptimeDayFirstDate(d);
    DateParse.LayoutsAt();
    DateParse.PretypujDatumAccepts(s, 2);
    ZjistiTypHodnotyRules(s);
  }

  /** A text strftime("%d.%m.%Y %H:%M:%S") writes, which has a colon, is
      typed timestamp. */
  lemma DayFirstDateTimeIsTimestamp(d: DateParse.DateTime)
    requires DateParse.Valid(d)
    ensures ZjistiTypHodnoty(DateFacts.DayFirstDateTime(d)) == Timestamp
  {
    var s := DateFacts.DayFirstDateTime(d);
    DateFacts.DayFirstDateTimeText(d);
    DateFacts.StrptimeDayFirstDateTime(d);
    DateParse.LayoutsAt();
    DateParse.PretypujDatumAccepts(s, 0);
    ZjistiTypHodnotyRules(s);
  }

  /** An ISO date such as "2025-06-30" is one pretypuj_datum accepts, but it
      has neither a dot nor a colon, so it is never tried as a date: it is
      not a number either and is typed varchar. */
  lemma IsoDateIsVarchar(d: DateParse.DateTime)
    requires DateParse.Valid(d)
    ensures DateParse.PretypujDatum(DateParse.IsoDate(d)).Some?
    ensures ZjistiTypHodnoty(DateParse.IsoDate(d)) == Varchar
  {
    var s := DateParse.IsoDate(d);
    DateFacts.IsoDateText(d);
    assert DropSign(s) == s && !IsDigit(s[4]);
    assert !IsIntText(s);
    DateFacts.StrptimeIsoDate(d);
    DateParse.LayoutsAt();
    DateParse.PretypujDatumAccepts(s, 9);
    ZjistiTypHodnotyRules(s);
  }

  /** The rule for integers: no dot, comma or colon, not "0", and int()
      accepts the token. */
  lemma IntegerRule(h: string)
    requires h != "0" && '.' !in h && ',' !in h && ':' !in h && IsIntText(h)
    ensures ZjistiTypHodnoty(h) == Integer
  {
  }

  /** The rule for decimals: no colon and no dot, a comma, and Decimal()
      accepts the token with its comma read as the decimal point. */
  lemma DecimalRule(h: string)
    requires ':' !in h && '.' !in h && ',' in h && IsDecimalText(Replace(h, ",", "."))
    ensures ZjistiTypHodnoty(h) == Decimal
  {
  }

  /** A token other than "" and "0" with no dot, comma or colon that int()
      rejects is typed varchar. */
  lemma VarcharRule(h: string)
    requires h != "" && h != "0" && '.' !in h && ',' !in h && ':' !in h && !IsIntText(h)
    ensures ZjistiTypHodnoty(h) == Varchar
  {
  }

  /** "15" is typed integer. */
  lemma IntegerExample(h: string)
    requires h == "15"
    ensures ZjistiTypHodnoty(h) == Integer
  {
    assert '.' !in h && ',' !in h && ':' !in h;
    StripUnchanged(h);
    assert DropSign(h) == h && AllDigits(h);
    IntegerRule(h);
  }

  /** "abc" is typed varchar. */
  lemma VarcharExample(h: string)
    requires h == "abc"
    ensures ZjistiTypHodnoty(h) == Varchar
  {
    assert '.' !in h && ',' !in h && ':' !in h;
    StripUnchanged(h);
    assert DropSign(h) == h && !IsDigit(h[0]);
    VarcharRule(h);
  }

  /** Decimal("12.5") succeeds. */
  lemma DecimalTextExample(t: string)
    requires t == "12.5"
    ensures IsDecimalText(t)
  {
    StripUnchanged(t);
    assert DropSign(t) == t;
    assert IndexOf(t, 'e') == 4 && IndexOf(t, 'E') == 4;
    assert t[..ExponentMark(t)] == t;
    assert IndexOf(t, '.') == 2;
    assert t[..2] == "12" && t[3..] == "5";
  }

  /** "12,5" holds a comma and neither a dot nor a colon. */
  lemma CommaOnly(h: string)
    requires h == "12,5"
    ensures ':' !in h && '.' !in h && ',' in h
  {
    assert h[2] == ',';
  }

  /** With the comma of "12,5" read as the decimal point it is decimal text. */
  lemma DecimalCommaText(h: string)
    requires h == "12,5"
    ensures IsDecimalText(Replace(h, ",", "."))
  {
    ReplaceCharwise(h, ',', '.');
    assert Replace(h, ",", ".") == "12.5";
    DecimalTextExample(Replace(h, ",", "."));
  }

  /** "12,5" is typed decimal: the comma is read as the decimal point. */
  lemma DecimalCommaExample(h: string)
    requires h == "12,5"
    ensures ZjistiTypHodnoty(h) == Decimal
  {
    CommaOnly(h);
    DecimalCommaText(h);
    DecimalRule(h);
  }
}
