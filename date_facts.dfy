/** Facts about strptime and strftime as DateParse models them: one step of
    matching per directive, the day-first layouts read back what strftime
    writes, and the separators a successful match consumes. */
module DateFacts {
  import opened Wrappers
  import opened Text
  import opened DateParse

  /** The two-digit fields and the values their two-digit alternative
      accepts. */
  predicate TwoDigitField(d: Directive, n: int) {
    match d
    case Day => 1 <= n <= 31
    case Month => 1 <= n <= 12
    case Hour => 0 <= n <= 23
    case Minute => 0 <= n <= 59
    case Second => 0 <= n <= 61
    case _ => false
  }

  /** A field written with two digits is read back by its first
      alternative. */
  lemma FieldStep(d: Directive, rest: Layout, n: int, t: string, f: Fields)
    requires TwoDigitField(d, n)
    requires Match(rest, t, Assign(f, d, n)).Some?
    ensures Match([d] + rest, Pad2(n) + t, f) == Match(rest, t, Assign(f, d, n))
  {
    var ds, s := [d] + rest, Pad2(n) + t;
    assert ds[0] == d && ds[1..] == rest;
    assert s[0] == Pad2(n)[0] && s[1] == Pad2(n)[1] && s[2..] == t;
    var cs := Candidates(d, s);
    assert cs[0] == Candidate(2, n);
  }

  /** A field written with one digit, not followed by another digit, is read
      back by its one-digit alternative. */
  lemma OneDigitStep(d: Directive, rest: Layout, n: int, t: string, f: Fields)
    requires d == Day || d == Month
    requires 1 <= n <= 9
    requires t == [] || !IsDigit(t[0])
    ensures Match([d] + rest, [DigitChar(n)] + t, f) == Match(rest, t, Assign(f, d, n))
  {
    var ds, s := [d] + rest, [DigitChar(n)] + t;
    assert ds[0] == d && ds[1..] == rest;
    assert s[0] == DigitChar(n) && s[1..] == t;
    if t != [] {
      assert s[1] == t[0];
    }
    var cs := Candidates(d, s);
    assert TwoDigits(s, 1, 31) == [] && TwoDigits(s, 1, 12) == [];
    assert SpaceDigit(s) == [];
    assert OneDigit(s, 1) == [Candidate(1, n)];
    assert cs == [Candidate(1, n)];
    assert MatchFirst(d, rest, s, f, cs[1..]) == None;
    assert MatchFirst(d, rest, s, f, cs) == Match(rest, t, Assign(f, d, n));
    assert Match(ds, s, f) == MatchFirst(d, rest, s, f, cs);
  }

  lemma YearStep(rest: Layout, n: int, t: string, f: Fields)
    requires 0 <= n <= 9999
    ensures Match([Year4] + rest, Pad4(n) + t, f) == Match(rest, t, f.(year := n))
  {
    var ds, s := [Year4] + rest, Pad4(n) + t;
    assert ds[0] == Year4 && ds[1..] == rest;
    var y := Pad4(n);
    assert s[..4] == y && s[4..] == t;
    assert |s| >= 4 && AllDigits(s[..4]);
    var cs := Candidates(Year4, s);
    assert cs == [Candidate(4, DigitsValue(y))];
    assert MatchFirst(Year4, rest, s, f, cs[1..]) == None;
    assert MatchFirst(Year4, rest, s, f, cs) == Match(rest, t, f.(year := n));
    assert Match(ds, s, f) == MatchFirst(Year4, rest, s, f, cs);
  }

  lemma LitStep(c: char, rest: Layout, t: string, f: Fields)
    ensures Match([Lit(c)] + rest, [c] + t, f) == Match(rest, t, f)
  {
    var ds, s := [Lit(c)] + rest, [c] + t;
    assert ds[0] == Lit(c) && ds[1..] == rest;
    assert s[1..] == t;
  }

  /** A single space before a non-blank character matches the layout's
      space. */
  lemma BlankStep(rest: Layout, t: string, f: Fields)
    requires t == [] || !IsSpace(t[0])
    ensures Match([Blank] + rest, [' '] + t, f) == Match(rest, t, f)
  {
    var ds, s := [Blank] + rest, [' '] + t;
    assert ds[0] == Blank && ds[1..] == rest;
    assert IsSpace(s[0]) && s[1..] == t;
    assert StripLeft(s) == StripLeft(t) == t;
  }

  /** strftime(" %H:%M:%S"), grouped from the right. */
  function TimeText(d: DateTime): string
    requires Valid(d)
  {
    " " + (Pad2(d.hour) + (":" + (Pad2(d.minute) + (":" + Pad2(d.second)))))
  }

  /** strftime("%d.%m.%Y") followed by t, grouped from the right. */
  function DayFirstThen(d: DateTime, t: string): string
    requires Valid(d)
  {
    Pad2(d.day) + ("." + (Pad2(d.month) + ("." + (Pad4(d.year) + t))))
  }

  /** strftime("%d.%m.%Y"). */
  function DayFirstDate(d: DateTime): (s: string)
    requires Valid(d)
    ensures s == Pad2(d.day) + "." + Pad2(d.month) + "." + Pad4(d.year)
  {
    var s := DayFirstThen(d, []);
    assert Pad4(d.year) + [] == Pad4(d.year);
    s
  }

  /** strftime("%d.%m.%Y %H:%M:%S"). */
  function DayFirstDateTime(d: DateTime): string
    requires Valid(d)
  {
    DayFirstThen(d, TimeText(d))
  }

  /** The layout " %H:%M:%S", grouped from the right. */
  const TimeLayout: Layout := [Blank] + ([Hour] + ([Lit(':')] + ([Minute] + ([Lit(':')] + ([Second] + [])))))

  /** The layout "%d.%m.%Y" followed by tail, grouped from the right. */
  function DayFirstLayout(tail: Layout): Layout {
    [Day] + ([Lit('.')] + ([Month] + ([Lit('.')] + ([Year4] + tail))))
  }

  lemma LayoutShapes()
    ensures DmyHms == DayFirstLayout(TimeLayout)
    ensures Dmy == DayFirstLayout([])
  {
  }

  /** The time part of a layout reads back what strftime writes for it. */
  lemma TimeTail(d: DateTime, f: Fields)
    requires Valid(d)
    ensures Match(TimeLayout, TimeText(d), f) == Some(f.(hour := d.hour, minute := d.minute, second := d.second))
  {
    var f3 := f.(hour := d.hour);
    var f4 := f3.(minute := d.minute);
    var f5 := f4.(second := d.second);
    assert Match([], [], f5) == Some(f5);
    assert Pad2(d.second) + [] == Pad2(d.second);
    FieldStep(Second, [], d.second, [], f4);
    LitStep(':', [Second] + [], Pad2(d.second), f4);
    FieldStep(Minute, [Lit(':')] + ([Second] + []), d.minute, ":" + Pad2(d.second), f3);
    LitStep(':', [Minute] + ([Lit(':')] + ([Second] + [])), Pad2(d.minute) + (":" + Pad2(d.second)), f3);
    FieldStep(Hour, [Lit(':')] + ([Minute] + ([Lit(':')] + ([Second] + []))),
      d.hour, ":" + (Pad2(d.minute) + (":" + Pad2(d.second))), f);
    BlankStep([Hour] + ([Lit(':')] + ([Minute] + ([Lit(':')] + ([Second] + [])))),
      Pad2(d.hour) + (":" + (Pad2(d.minute) + (":" + Pad2(d.second)))), f);
  }

  /** The date part "%d.%m.%Y" followed by a tail that reads back. */
  lemma DateHead(d: DateTime, tail: Layout, t: string, f: Fields)
    requires Valid(d)
    requires Match(tail, t, Unset.(day := d.day, month := d.month, year := d.year)) == Some(f)
    ensures Match(DayFirstLayout(tail), DayFirstThen(d, t), Unset) == Some(f)
  {
    var f1 := Unset.(day := d.day);
    var f2 := f1.(month := d.month);
    YearStep(tail, d.year, t, f2);
    LitStep('.', [Year4] + tail, Pad4(d.year) + t, f2);
    FieldStep(Month, [Lit('.')] + ([Year4] + tail), d.month, "." + (Pad4(d.year) + t), f1);
    LitStep('.', [Month] + ([Lit('.')] + ([Year4] + tail)), Pad2(d.month) + ("." + (Pad4(d.year) + t)), f1);
    FieldStep(Day, [Lit('.')] + ([Month] + ([Lit('.')] + ([Year4] + tail))),
      d.day, "." + (Pad2(d.month) + ("." + (Pad4(d.year) + t))), Unset);
  }

  /** "%d.%m.%Y %H:%M:%S" reads back every valid datetime written in it. */
  lemma StrptimeDayFirstDateTime(d: DateTime)
    requires Valid(d)
    ensures Strptime(DmyHms, DayFirstDateTime(d)) == Some(d)
  {
    var f2 := Unset.(day := d.day, month := d.month, year := d.year);
    var f6 := f2.(hour := d.hour, minute := d.minute, second := d.second);
    TimeTail(d, f2);
    DateHead(d, TimeLayout, TimeText(d), f6);
    LayoutShapes();
    assert ToDateTime(f6) == d;
  }

  /** "%d.%m.%Y" reads back every valid date written in it, at midnight. */
  lemma StrptimeDayFirstDate(d: DateTime)
    requires Valid(d)
    ensures Strptime(Dmy, DayFirstDate(d)) == Some(d.(hour := 0, minute := 0, second := 0))
  {
    var f2 := Unset.(day := d.day, month := d.month, year := d.year);
    assert Match([], [], f2) == Some(f2);
    DateHead(d, [], [], f2);
    LayoutShapes();
  }

  /** The day alternatives take one or two characters, so a day field
      cannot be followed by the separator c when the next two characters are
      digits. */
  lemma {:induction false} DayThenLitFails(c: char, rest: Layout, s: string, f: Fields, cs: seq<Candidate>)
    requires !IsDigit(c)
    requires |s| >= 3 && IsDigit(s[1]) && IsDigit(s[2])
    requires forall k :: 0 <= k < |cs| ==> cs[k].width == 1 || cs[k].width == 2
    ensures MatchFirst(Day, [Lit(c)] + rest, s, f, cs) == None
    decreases |cs|
  {
    if cs != [] {
      var ds := [Lit(c)] + rest;
      assert ds[0] == Lit(c) && ds[1..] == rest;
      var t := s[cs[0].width..];
      assert t[0] == s[cs[0].width];
      DayThenLitFails(c, rest, s, f, cs[1..]);
    }
  }

  /** No day-first layout reads a text that starts with four digits, such as
      what strftime("%Y-%m-%d ...") writes. */
  lemma DayFirstRejectsYearFirst(layout: Layout, s: string)
    requires |layout| >= 2 && layout[0] == Day && layout[1].Lit? && !IsDigit(layout[1].c)
    requires |s| >= 4 && AllDigits(s[..4])
    ensures Strptime(layout, s) == None
  {
    assert IsDigit(s[..4][0]) && IsDigit(s[..4][1]) && IsDigit(s[..4][2]);
    var cs := Candidates(Day, s);
    assert SpaceDigit(s) == [];
    assert layout == [Day] + ([Lit(layout[1].c)] + layout[2..]);
    assert layout[1..] == [Lit(layout[1].c)] + layout[2..];
    DayThenLitFails(layout[1].c, layout[2..], s, Unset, cs);
  }

  /** "%d.%m.%Y %H:%M:%S" does not read what strftime("%Y-%m-%d %H:%M:%S")
      writes. */
  lemma IsoNotDayFirst(d: DateTime)
    requires Valid(d)
    ensures Strptime(DmyHms, IsoDateTime(d)) == None
  {
    var t := IsoDateTime(d);
    assert t[..4] == Pad4(d.year);
    LayoutShapes();
    DayFirstRejectsYearFirst(DmyHms, t);
  }

  /** "%Y-%m-%d" reads back every valid date strftime writes in it, at
      midnight. */
  lemma StrptimeIsoDate(d: DateTime)
    requires Valid(d)
    ensures Strptime(Iso, IsoDate(d)) == Some(d.(hour := 0, minute := 0, second := 0))
  {
    var f1 := Unset.(year := d.year);
    var f2 := f1.(month := d.month);
    var f3 := f2.(day := d.day);
    assert Match([], [], f3) == Some(f3);
    assert Pad2(d.day) + [] == Pad2(d.day);
    FieldStep(Day, [], d.day, [], f2);
    LitStep('-', [Day] + [], Pad2(d.day), f2);
    FieldStep(Month, [Lit('-')] + ([Day] + []), d.month, "-" + Pad2(d.day), f1);
    LitStep('-', [Month] + ([Lit('-')] + ([Day] + [])), Pad2(d.month) + ("-" + Pad2(d.day)), f1);
    YearStep([Lit('-')] + ([Month] + ([Lit('-')] + ([Day] + []))), d.year, "-" + (Pad2(d.month) + ("-" + Pad2(d.day))), Unset);
    assert Iso == [Year4] + ([Lit('-')] + ([Month] + ([Lit('-')] + ([Day] + []))));
    assert IsoDate(d) == Pad4(d.year) + ("-" + (Pad2(d.month) + ("-" + Pad2(d.day))));
    assert ToDateTime(f3) == d.(hour := 0, minute := 0, second := 0);
  }

  /** strftime("%d.%m.%Y") writes two dots, no colon and no whitespace at
      either end. */
  lemma DayFirstDateText(d: DateTime)
    requires Valid(d)
    ensures var s := Pad2(d.day) + "." + Pad2(d.month) + "." + Pad4(d.year);
      Count(s, '.') == 2 && ':' !in s && Strip(s) == s
  {
    var a, b, c := Pad2(d.day), Pad2(d.month), Pad4(d.year);
    Pad2Digits(d.day);
    Pad2Digits(d.month);
    assert a + "." + b + "." + c == a + ['.'] + b + ['.'] + c;
    JoinedDigits(a, '.', b, c);
  }

  /** strftime("%d.%m.%Y %H:%M:%S") writes a colon and no whitespace at
      either end. */
  lemma DayFirstDateTimeText(d: DateTime)
    requires Valid(d)
    ensures ':' in DayFirstDateTime(d) && Strip(DayFirstDateTime(d)) == DayFirstDateTime(d)
  {
    var s := DayFirstDateTime(d);
    var sec := Pad2(d.second);
    assert s == Pad2(d.day) + "." + Pad2(d.month) + "." + Pad4(d.year)
      + " " + Pad2(d.hour) + ":" + Pad2(d.minute) + ":" + sec;
    assert s[13] == ':';
    assert s[|s| - 1] == sec[1];
    DigitNotSpace(s[0]);
    DigitNotSpace(sec[1]);
    StripUnchanged(s);
  }

  /** A four-digit year, a dash, digits, a dash and digits: no dot, comma
      or colon, a digit first, the dash after the year and no whitespace at
      either end. */
  lemma IsoShape(y: string, m: string, dd: string)
    requires |y| == 4 && AllDigits(y) && AllDigits(m) && AllDigits(dd) && |dd| > 0
    ensures var s := y + "-" + m + "-" + dd;
      && '.' !in s && ',' !in s && ':' !in s && Strip(s) == s
      && |s| > 4 && IsDigit(s[0]) && s[4] == '-'
  {
    JoinedDigits(y, '-', m, dd);
  }

  /** strftime("%Y-%m-%d") has that shape. */
  lemma IsoDateText(d: DateTime)
    requires Valid(d)
    ensures var s := IsoDate(d);
      && '.' !in s && ',' !in s && ':' !in s && Strip(s) == s
      && |s| > 4 && IsDigit(s[0]) && s[4] == '-'
  {
    Pad2Digits(d.month);
    Pad2Digits(d.day);
    IsoShape(Pad4(d.year), Pad2(d.month), Pad2(d.day));
  }

  /** "%d.%m.%Y" also reads a day and a month written with one digit. */
  lemma StrptimeShortDate(day: int, month: int, year: int)
    requires 1 <= day <= 9 && 1 <= month <= 9 && 1 <= year <= 9999
    ensures Strptime(Dmy, [DigitChar(day)] + ("." + ([DigitChar(month)] + ("." + Pad4(year)))))
         == Some(DateTime(year, month, day, 0, 0, 0))
  {
    var y := Pad4(year);
    var f1 := Unset.(day := day);
    var f2 := f1.(month := month);
    assert Match([], [], f2.(year := year)) == Some(f2.(year := year));
    YearStep([], year, [], f2);
    assert y + [] == y;
    LitStep('.', [Year4] + [], y, f2);
    OneDigitStep(Month, [Lit('.')] + ([Year4] + []), month, "." + y, f1);
    LitStep('.', [Month] + ([Lit('.')] + ([Year4] + [])), [DigitChar(month)] + ("." + y), f1);
    OneDigitStep(Day, [Lit('.')] + ([Month] + ([Lit('.')] + ([Year4] + []))), day,
      "." + ([DigitChar(month)] + ("." + y)), Unset);
    LayoutShapes();
  }

  // ---- what a match consumes ------------------------------------------

  /** A layout without month names. */
  predicate Numeric(ds: Layout) {
    forall k :: 0 <= k < |ds| ==> ds[k] != MonthAbbr && ds[k] != MonthFull
  }

  /** How many times the layout spells out the character c. */
  function LitCount(ds: Layout, c: char): nat
    decreases |ds|
  {
    if ds == [] then 0 else (if ds[0] == Lit(c) then 1 else 0) + LitCount(ds[1..], c)
  }

  /** Every candidate of cs takes only digits and spaces from s. */
  predicate TakesDigits(cs: seq<Candidate>, s: string) {
    forall k :: 0 <= k < |cs| ==> DigitsOrSpaces(s, cs[k].width)
  }

  predicate DigitsOrSpaces(s: string, w: nat) {
    w <= |s| && forall q :: 0 <= q < w ==> IsDigit(s[q]) || s[q] == ' '
  }

  lemma TakesDigitsAppend(a: seq<Candidate>, b: seq<Candidate>, s: string)
    requires TakesDigits(a, s) && TakesDigits(b, s)
    ensures TakesDigits(a + b, s)
  {
    forall k | 0 <= k < |a + b| ensures DigitsOrSpaces(s, (a + b)[k].width) {
      if k < |a| {
        assert (a + b)[k] == a[k];
      } else {
        assert (a + b)[k] == b[k - |a|];
      }
    }
  }

  lemma NumericFamilies(s: string, lo: int, hi: int)
    ensures TakesDigits(TwoDigits(s, lo, hi), s) && TakesDigits(OneDigit(s, lo), s) && TakesDigits(SpaceDigit(s), s)
  {
  }

  lemma YearFamilies(s: string)
    ensures TakesDigits(Candidates(Year4, s), s) && TakesDigits(Candidates(Year2, s), s)
  {
    if |s| >= 4 && AllDigits(s[..4]) {
      forall q | 0 <= q < 4 ensures IsDigit(s[q]) {
        assert s[..4][q] == s[q];
      }
    }
  }

  /** A numeric field directive only ever takes digits and spaces. */
  lemma CandidatesDigits(d: Directive, s: string)
    requires d != MonthAbbr && d != MonthFull
    ensures TakesDigits(Candidates(d, s), s)
  {
    match d
    case Day =>
      NumericFamilies(s, 1, 31);
      TakesDigitsAppend(TwoDigits(s, 1, 31), OneDigit(s, 1), s);
      TakesDigitsAppend(TwoDigits(s, 1, 31) + OneDigit(s, 1), SpaceDigit(s), s);
    case Month =>
      NumericFamilies(s, 1, 12);
      TakesDigitsAppend(TwoDigits(s, 1, 12), OneDigit(s, 1), s);
    case Hour =>
      NumericFamilies(s, 0, 23);
      TakesDigitsAppend(TwoDigits(s, 0, 23), OneDigit(s, 0), s);
    case Minute =>
      NumericFamilies(s, 0, 59);
      TakesDigitsAppend(TwoDigits(s, 0, 59), OneDigit(s, 0), s);
    case Second =>
      NumericFamilies(s, 0, 61);
      TakesDigitsAppend(TwoDigits(s, 0, 61), OneDigit(s, 0), s);
    case Year4 => YearFamilies(s);
    case Year2 => YearFamilies(s);
    case Blank =>
    case Lit(_) =>
  }

  /** So none of them takes a separator. */
  lemma CandidatesTakeNoSeparator(d: Directive, s: string, c: char)
    requires d != MonthAbbr && d != MonthFull
    requires !IsDigit(c) && !IsSpace(c)
    ensures forall k :: 0 <= k < |Candidates(d, s)| ==> c !in s[..Candidates(d, s)[k].width]
  {
    var cs := Candidates(d, s);
    CandidatesDigits(d, s);
    forall k | 0 <= k < |cs| ensures c !in s[..cs[k].width] {
      var p := s[..cs[k].width];
      assert DigitsOrSpaces(s, cs[k].width);
      forall q | 0 <= q < |p| ensures p[q] != c {
        assert p[q] == s[q];
      }
    }
  }

  /** A successful match of a numeric layout consumes exactly the separators
      the layout spells out: every other directive takes digits and
      whitespace only. */
  lemma {:induction false} MatchCountsSeparators(ds: Layout, s: string, f: Fields, c: char)
    requires Numeric(ds)
    requires !IsDigit(c) && !IsSpace(c)
    requires Match(ds, s, f).Some?
    ensures Count(s, c) == LitCount(ds, c)
    decreases |ds|, 0
  {
    if ds != [] {
      NumericTail(ds);
      if ds[0].Lit? {
        MatchCountsSeparators(ds[1..], s[1..], f, c);
        LitCountsStep(ds, s, c);
      } else if ds[0] == Blank {
        var t := StripLeft(s);
        MatchCountsSeparators(ds[1..], t, f, c);
        BlankCountsStep(ds, s, c);
      } else {
        CandidatesTakeNoSeparator(ds[0], s, c);
        FirstCountsSeparators(ds[0], ds[1..], s, f, c, Candidates(ds[0], s));
      }
    }
  }

  lemma NumericTail(ds: Layout)
    requires ds != [] && Numeric(ds)
    ensures ds[0] != MonthAbbr && ds[0] != MonthFull && Numeric(ds[1..])
  {
    forall k | 0 <= k < |ds[1..]| ensures ds[1..][k] != MonthAbbr && ds[1..][k] != MonthFull {
      assert ds[1..][k] == ds[k + 1];
    }
  }

  /** A literal consumes the one character it spells out. */
  lemma LitCountsStep(ds: Layout, s: string, c: char)
    requires ds != [] && ds[0].Lit? && |s| > 0 && s[0] == ds[0].c
    requires Count(s[1..], c) == LitCount(ds[1..], c)
    ensures Count(s, c) == LitCount(ds, c)
  {
    assert s == [s[0]] + s[1..];
    CountConcat([s[0]], s[1..], c);
  }

  /** A blank consumes whitespace only. */
  lemma BlankCountsStep(ds: Layout, s: string, c: char)
    requires ds != [] && ds[0] == Blank && !IsSpace(c)
    requires Count(StripLeft(s), c) == LitCount(ds[1..], c)
    ensures Count(s, c) == LitCount(ds, c)
  {
    var t := StripLeft(s);
    var p := s[..|s| - |t|];
    assert s == p + t;
    CountConcat(p, t, c);
    assert c !in p by {
      forall q | 0 <= q < |p| ensures p[q] != c {
        assert IsSpace(s[q]);
      }
    }
  }

  lemma {:induction false} FirstCountsSeparators(d: Directive, rest: Layout, s: string, f: Fields, c: char, cs: seq<Candidate>)
    requires Numeric(rest) && d != Blank && !d.Lit?
    requires !IsDigit(c) && !IsSpace(c)
    requires forall k :: 0 <= k < |cs| ==> cs[k].width <= |s| && c !in s[..cs[k].width]
    requires MatchFirst(d, rest, s, f, cs).Some?
    ensures Count(s, c) == LitCount(rest, c)
    decreases |rest|, |cs|
  {
    var w := cs[0].width;
    if Match(rest, s[w..], Assign(f, d, cs[0].value)).Some? {
      MatchCountsSeparators(rest, s[w..], Assign(f, d, cs[0].value), c);
      assert s == s[..w] + s[w..];
    } else {
      FirstCountsSeparators(d, rest, s, f, c, cs[1..]);
    }
  }

  lemma LitCountCons(x: Directive, ds: Layout, c: char)
    ensures LitCount([x] + ds, c) == (if x == Lit(c) then 1 else 0) + LitCount(ds, c)
  {
    assert ([x] + ds)[0] == x && ([x] + ds)[1..] == ds;
  }

  lemma NumericCons(x: Directive, ds: Layout)
    requires x != MonthAbbr && x != MonthFull && Numeric(ds)
    ensures Numeric([x] + ds)
  {
    forall k | 0 <= k < |[x] + ds| ensures ([x] + ds)[k] != MonthAbbr && ([x] + ds)[k] != MonthFull {
      if k > 0 {
        assert ([x] + ds)[k] == ds[k - 1];
      }
    }
  }

  /** The separators of "%d.%m.%Y" followed by tail. */
  lemma DayFirstCounts(tail: Layout, c: char)
    requires Numeric(tail)
    ensures Numeric(DayFirstLayout(tail))
    ensures LitCount(DayFirstLayout(tail), c) == (if c == '.' then 2 else 0) + LitCount(tail, c)
  {
    var l4 := [Year4] + tail;
    var l3 := [Lit('.')] + l4;
    var l2 := [Month] + l3;
    var l1 := [Lit('.')] + l2;
    LitCountCons(Year4, tail, c);
    LitCountCons(Lit('.'), l4, c);
    LitCountCons(Month, l3, c);
    LitCountCons(Lit('.'), l2, c);
    LitCountCons(Day, l1, c);
    NumericCons(Year4, tail);
    NumericCons(Lit('.'), l4);
    NumericCons(Month, l3);
    NumericCons(Lit('.'), l2);
    NumericCons(Day, l1);
  }

  /** The separators of " %H:%M:%S". */
  lemma TimeCounts(c: char)
    ensures Numeric(TimeLayout)
    ensures LitCount(TimeLayout, c) == if c == ':' then 2 else 0
  {
    var l5: Layout := [Second] + [];
    var l4 := [Lit(':')] + l5;
    var l3 := [Minute] + l4;
    var l2 := [Lit(':')] + l3;
    var l1 := [Hour] + l2;
    assert LitCount([], c) == 0;
    LitCountCons(Second, [], c);
    LitCountCons(Lit(':'), l5, c);
    LitCountCons(Minute, l4, c);
    LitCountCons(Lit(':'), l3, c);
    LitCountCons(Hour, l2, c);
    LitCountCons(Blank, l1, c);
    NumericCons(Second, []);
    NumericCons(Lit(':'), l5);
    NumericCons(Minute, l4);
    NumericCons(Lit(':'), l3);
    NumericCons(Hour, l2);
    NumericCons(Blank, l1);
  }

  /** The separators of "%d.%m.%Y %H:%M:%S". */
  lemma DmyHmsCounts(c: char)
    ensures Numeric(DmyHms) && LitCount(DmyHms, c) == if c == '.' || c == ':' then 2 else 0
  {
    LayoutShapes();
    TimeCounts(c);
    DayFirstCounts(TimeLayout, c);
  }

  /** The separators of "%d.%m.%Y". */
  lemma DmyCounts(c: char)
    ensures Numeric(Dmy) && LitCount(Dmy, c) == if c == '.' then 2 else 0
  {
    LayoutShapes();
    assert LitCount([], c) == 0;
    DayFirstCounts([], c);
  }

  /** A text strptime accepts with a numeric layout has as many of each
      separator as the layout. */
  lemma StrptimeCountsSeparators(layout: Layout, s: string, c: char)
    requires Numeric(layout)
    requires !IsDigit(c) && !IsSpace(c)
    requires Strptime(layout, s).Some?
    ensures Count(s, c) == LitCount(layout, c)
  {
    MatchCountsSeparators(layout, s, Unset, c);
  }

  /** StrptimeCountsSeparators for the two separators of oprav_datum's
      layouts, with the layout's count given. */
  lemma LayoutSeparators(layout: Layout, s: string, c: char, n: nat)
    requires Strptime(layout, s).Some?
    requires c == '.' || c == ':'
    requires Numeric(layout) && LitCount(layout, c) == n
    ensures Count(s, c) == n
  {
    StrptimeCountsSeparators(layout, s, c);
  }

  /** A text "%d.%m.%Y %H:%M:%S" accepts has two dots and two colons. */
  lemma TimestampSeparators(s: string)
    requires Strptime(DmyHms, s).Some?
    ensures Count(s, '.') == 2 && Count(s, ':') == 2
  {
    DmyHmsCounts('.');
    LayoutSeparators(DmyHms, s, '.', 2);
    DmyHmsCounts(':');
    LayoutSeparators(DmyHms, s, ':', 2);
  }

  /** A text "%d.%m.%Y" accepts has two dots. */
  lemma DateSeparators(s: string)
    requires Strptime(Dmy, s).Some?
    ensures Count(s, '.') == 2
  {
    DmyCounts('.');
    LayoutSeparators(Dmy, s, '.', 2);
  }
}
