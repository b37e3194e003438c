/** The part of Python's datetime.strptime and datetime.strftime that the
    pipeline relies on: the fourteen layouts tried by pretypuj_datum and the
    two used by oprav_datum, matched the way _strptime matches them (each
    directive becomes a regular-expression alternation, a space in the layout
    becomes \s+, the whole input must be consumed, and the fields must then
    form a valid datetime). */
module DateParse {
  import opened Wrappers
  import opened Text

  datatype DateTime = DateTime(year: int, month: int, day: int, hour: int, minute: int, second: int)

  predicate IsLeapYear(y: int) {
    y % 4 == 0 && (y % 100 != 0 || y % 400 == 0)
  }

  function DaysInMonth(y: int, m: int): (n: int)
    requires 1 <= m <= 12
    ensures 28 <= n <= 31
  {
    if m == 2 then (if IsLeapYear(y) then 29 else 28)
    else if m == 4 || m == 6 || m == 9 || m == 11 then 30
    else 31
  }

  /** What the datetime constructor accepts (MINYEAR is 1, MAXYEAR 9999;
      it has no leap seconds). */
  predicate Valid(d: DateTime) {
    && 1 <= d.year <= 9999
    && 1 <= d.month <= 12
    && 1 <= d.day <= DaysInMonth(d.year, d.month)
    && 0 <= d.hour <= 23
    && 0 <= d.minute <= 59
    && 0 <= d.second <= 59
  }

  /** One element of a strptime layout. */
  datatype Directive =
    | Day          // %d
    | Month        // %m
    | Year4        // %Y
    | Year2        // %y
    | Hour         // %H
    | Minute       // %M
    | Second       // %S
    | MonthAbbr    // %b
    | MonthFull    // %B
    | Blank        // a space: matches one or more whitespace characters
    | Lit(c: char) // any other layout character, matched as itself

  type Layout = seq<Directive>

  /** The layouts of pretypuj_datum, in the order it tries them. */
  const DmyHms: Layout := [Day, Lit('.'), Month, Lit('.'), Year4, Blank, Hour, Lit(':'), Minute, Lit(':'), Second] // "%d.%m.%Y %H:%M:%S"
  const DmyHm: Layout := [Day, Lit('.'), Month, Lit('.'), Year4, Blank, Hour, Lit(':'), Minute]                   // "%d.%m.%Y %H:%M"
  const Dmy: Layout := [Day, Lit('.'), Month, Lit('.'), Year4]                                                     // "%d.%m.%Y"
  const DmyShort: Layout := [Day, Lit('.'), Month, Lit('.'), Year2]                                                // "%d.%m.%y"
  const SlashHms: Layout := [Day, Lit('/'), Month, Lit('/'), Year4, Blank, Hour, Lit(':'), Minute, Lit(':'), Second] // "%d/%m/%Y %H:%M:%S"
  const SlashHm: Layout := [Day, Lit('/'), Month, Lit('/'), Year4, Blank, Hour, Lit(':'), Minute]                  // "%d/%m/%Y %H:%M"
  const Slash: Layout := [Day, Lit('/'), Month, Lit('/'), Year4]                                                   // "%d/%m/%Y"
  const IsoHms: Layout := [Year4, Lit('-'), Month, Lit('-'), Day, Blank, Hour, Lit(':'), Minute, Lit(':'), Second] // "%Y-%m-%d %H:%M:%S"
  const IsoHm: Layout := [Year4, Lit('-'), Month, Lit('-'), Day, Blank, Hour, Lit(':'), Minute]                    // "%Y-%m-%d %H:%M"
  const Iso: Layout := [Year4, Lit('-'), Month, Lit('-'), Day]                                                     // "%Y-%m-%d"
  const AbbrHm: Layout := [Day, Blank, MonthAbbr, Blank, Year4, Blank, Hour, Lit(':'), Minute]                     // "%d %b %Y %H:%M"
  const FullHm: Layout := [Day, Blank, MonthFull, Blank, Year4, Blank, Hour, Lit(':'), Minute]                     // "%d %B %Y %H:%M"
  const Abbr: Layout := [Day, Blank, MonthAbbr, Blank, Year4]                                                      // "%d %b %Y"
  const Full: Layout := [Day, Blank, MonthFull, Blank, Year4]                                                      // "%d %B %Y"

  const Layouts: seq<Layout> :=
    [DmyHms, DmyHm, Dmy, DmyShort, SlashHms, SlashHm, Slash, IsoHms, IsoHm, Iso, AbbrHm, FullHm, Abbr, Full]

  /** Month names of the C locale, lower-cased as _strptime keeps them. */
  const AbbrNames: seq<string> := ["jan", "feb", "mar", "apr", "may", "jun", "jul", "aug", "sep", "oct", "nov", "dec"]
  const FullNames: seq<string> :=
    ["january", "february", "march", "april", "may", "june", "july", "august", "september", "october", "november", "december"]

  /** Fields collected while matching; _strptime's defaults for the ones a
      layout does not mention. */
  datatype Fields = Fields(year: int, month: int, day: int, hour: int, minute: int, second: int)

  const Unset := Fields(1900, 1, 1, 0, 0, 0)

  /** One way a directive can match a prefix of the input: how many
      characters it takes and the field value it yields. */
  datatype Candidate = Candidate(width: nat, value: int)

  function TwoDigitValue(a: char, b: char): int
    requires IsDigit(a) && IsDigit(b)
  {
    10 * DigitValue(a) + DigitValue(b)
  }

  /** A two-digit alternative such as 3[01]|[12]\d|0[1-9]: two digits whose
      value lies in lo..hi. */
  function TwoDigits(s: string, lo: int, hi: int): (cs: seq<Candidate>)
    ensures forall k :: 0 <= k < |cs| ==> 0 < cs[k].width <= |s|
  {
    if |s| >= 2 && IsDigit(s[0]) && IsDigit(s[1]) && lo <= TwoDigitValue(s[0], s[1]) <= hi
    then [Candidate(2, TwoDigitValue(s[0], s[1]))] else []
  }

  /** A one-digit alternative such as [1-9] or \d. */
  function OneDigit(s: string, lo: int): (cs: seq<Candidate>)
    ensures forall k :: 0 <= k < |cs| ==> 0 < cs[k].width <= |s|
  {
    if |s| >= 1 && IsDigit(s[0]) && lo <= DigitValue(s[0]) then [Candidate(1, DigitValue(s[0]))] else []
  }

  /** The last alternative of %d: a space followed by [1-9]. */
  function SpaceDigit(s: string): (cs: seq<Candidate>)
    ensures forall k :: 0 <= k < |cs| ==> 0 < cs[k].width <= |s|
  {
    if |s| >= 2 && s[0] == ' ' && IsDigit(s[1]) && 1 <= DigitValue(s[1]) then [Candidate(2, DigitValue(s[1]))] else []
  }

  /** A month name, compared without regard to ASCII case; the value is the
      month number. No name is a prefix of another in the same list, so at
      most one of them matches. */
  function MonthNames(s: string, names: seq<string>, k: nat): (cs: seq<Candidate>)
    requires k <= |names|
    ensures forall i :: 0 <= i < |cs| ==> cs[i].width <= |s|
    decreases |names| - k
  {
    if k == |names| then []
    else if |names[k]| <= |s| && AsciiLowerAll(s[..|names[k]|]) == names[k]
    then [Candidate(|names[k]|, k + 1)] + MonthNames(s, names, k + 1)
    else MonthNames(s, names, k + 1)
  }

  /** The alternatives of a field directive at the start of s, in the order
      the regular expression tries them. */
  function Candidates(d: Directive, s: string): (cs: seq<Candidate>)
    ensures forall k :: 0 <= k < |cs| ==> cs[k].width <= |s|
  {
    match d
    case Day => TwoDigits(s, 1, 31) + OneDigit(s, 1) + SpaceDigit(s)   // 3[01]|[12]\d|0[1-9]|[1-9]| [1-9]
    case Month => TwoDigits(s, 1, 12) + OneDigit(s, 1)                  // 1[0-2]|0[1-9]|[1-9]
    case Hour => TwoDigits(s, 0, 23) + OneDigit(s, 0)                   // 2[0-3]|[01]\d|\d
    case Minute => TwoDigits(s, 0, 59) + OneDigit(s, 0)                 // [0-5]\d|\d
    case Second => TwoDigits(s, 0, 61) + OneDigit(s, 0)                 // 6[01]|[0-5]\d|\d
    case Year4 =>                                                        // \d\d\d\d
      if |s| >= 4 && AllDigits(s[..4]) then [Candidate(4, DigitsValue(s[..4]))] else []
    case Year2 =>                                                        // \d\d, 00-68 -> 20xx, 69-99 -> 19xx
      if |s| >= 2 && IsDigit(s[0]) && IsDigit(s[1])
      then (var v := TwoDigitValue(s[0], s[1]); [Candidate(2, if v <= 68 then 2000 + v else 1900 + v)])
      else []
    case MonthAbbr => MonthNames(s, AbbrNames, 0)
    case MonthFull => MonthNames(s, FullNames, 0)
    case Blank => []
    case Lit(_) => []
  }

  function Assign(f: Fields, d: Directive, v: int): Fields {
    match d
    case Day => f.(day := v)
    case Month => f.(month := v)
    case MonthAbbr => f.(month := v)
    case MonthFull => f.(month := v)
    case Year4 => f.(year := v)
    case Year2 => f.(year := v)
    case Hour => f.(hour := v)
    case Minute => f.(minute := v)
    case Second => f.(second := v)
    case Blank => f
    case Lit(_) => f
  }

  /** Matches the whole of s against the layout ds, trying the alternatives
      of each directive in order and backtracking into them; None when no
      way of matching consumes all of s. */
  function Match(ds: Layout, s: string, f: Fields): Option<Fields>
    decreases |ds|, 0
  {
    if ds == [] then (if s == [] then Some(f) else None)
    else match ds[0]
      case Lit(c) => if |s| > 0 && s[0] == c then Match(ds[1..], s[1..], f) else None
      case Blank =>
        var t := StripLeft(s);
        if |t| < |s| then Match(ds[1..], t, f) else None
      case _ => MatchFirst(ds[0], ds[1..], s, f, Candidates(ds[0], s))
  }

  /** Tries the candidates of directive d in order, continuing with rest. */
  function MatchFirst(d: Directive, rest: Layout, s: string, f: Fields, cs: seq<Candidate>): Option<Fields>
    requires forall k :: 0 <= k < |cs| ==> cs[k].width <= |s|
    decreases |rest|, |cs| + 1
  {
    if cs == [] then None
    else
      var r := Match(rest, s[cs[0].width..], Assign(f, d, cs[0].value));
      if r.Some? then r else MatchFirst(d, rest, s, f, cs[1..])
  }

  function ToDateTime(f: Fields): DateTime {
    DateTime(f.year, f.month, f.day, f.hour, f.minute, f.second)
  }

  /** datetime.strptime(s, layout): None where Python raises ValueError. */
  function Strptime(layout: Layout, s: string): (r: Option<DateTime>)
    ensures r.Some? ==> Valid(r.value)
  {
    match Match(layout, s, Unset)
    case None => None
    case Some(f) => if Valid(ToDateTime(f)) then Some(ToDateTime(f)) else None
  }

  /** The loop of pretypuj_datum over the remaining layouts: the result of
      the first layout that parses t, None when none does. */
  function FirstParse(layouts: seq<Layout>, t: string): (r: Option<DateTime>)
    ensures r.None? <==> forall k :: 0 <= k < |layouts| ==> Strptime(layouts[k], t).None?
    ensures r.Some? ==>
      exists k :: 0 <= k < |layouts| && Strptime(layouts[k], t) == r
        && forall j :: 0 <= j < k ==> Strptime(layouts[j], t).None?
    decreases |layouts|
  {
    if layouts == [] then None
    else
      var r := Strptime(layouts[0], t);
      if r.Some? then r else FirstParse(layouts[1..], t)
  }

  /** pretypuj_datum(date_str): strips the token and parses it with the first
      layout that accepts it; None stands for the ValueError it raises. */
  function PretypujDatum(s: string): (r: Option<DateTime>)
    ensures r.Some? ==> Valid(r.value)
  {
    FirstParse(Layouts, Strip(s))
  }

  /** Where the day-first and ISO layouts sit in the list. */
  lemma LayoutsAt()
    ensures Layouts[0] == DmyHms && Layouts[2] == Dmy && Layouts[9] == Iso
  {
  }

  /** pretypuj_datum accepts a token that needs no stripping once one of
      the layouts parses it. */
  lemma PretypujDatumAccepts(s: string, k: nat)
    requires k < |Layouts| && Strip(s) == s && Strptime(Layouts[k], s).Some?
    ensures PretypujDatum(s).Some?
  {
  }

  // ---- strftime -------------------------------------------------------

  function DigitChar(n: int): (c: char)
    requires 0 <= n <= 9
    ensures IsDigit(c) && DigitValue(c) == n
  {
    ((n + '0' as int) as char)
  }

  /** strftime's zero-padded two-digit fields (%m %d %H %M %S). */
  function Pad2(n: int): (s: string)
    requires 0 <= n <= 99
    ensures |s| == 2 && IsDigit(s[0]) && IsDigit(s[1]) && TwoDigitValue(s[0], s[1]) == n
  {
    [DigitChar(n / 10), DigitChar(n % 10)]
  }

  lemma Pad2Digits(n: int)
    requires 0 <= n <= 99
    ensures AllDigits(Pad2(n))
  {
  }

  lemma FourDigitsValue(s: string)
    requires |s| == 4 && AllDigits(s)
    ensures DigitsValue(s) == 100 * TwoDigitValue(s[0], s[1]) + TwoDigitValue(s[2], s[3])
  {
    assert s[..3][..2] == s[..2] && s[..2][..1] == s[..1] && s[..1][..0] == [];
    var a, b, c, e := DigitValue(s[0]), DigitValue(s[1]), DigitValue(s[2]), DigitValue(s[3]);
    assert DigitsValue(s[..1]) == a;
    assert DigitsValue(s[..2]) == 10 * a + b;
    assert DigitsValue(s[..3]) == 100 * a + 10 * b + c;
    assert DigitsValue(s) == 1000 * a + 100 * b + 10 * c + e;
  }

  /** strftime's %Y, written with four digits. */
  function Pad4(n: int): (s: string)
    requires 0 <= n <= 9999
    ensures |s| == 4 && AllDigits(s) && DigitsValue(s) == n
  {
    var s := Pad2(n / 100) + Pad2(n % 100);
    FourDigitsValue(s);
    s
  }

  /** strftime("%Y-%m-%d"). */
  function IsoDate(d: DateTime): string
    requires Valid(d)
  {
    Pad4(d.year) + "-" + Pad2(d.month) + "-" + Pad2(d.day)
  }

  /** strftime("%Y-%m-%d %H:%M:%S"). */
  function IsoDateTime(d: DateTime): string
    requires Valid(d)
  {
    IsoDate(d) + " " + Pad2(d.hour) + ":" + Pad2(d.minute) + ":" + Pad2(d.second)
  }
}
