/** Normalisation of header tokens into column names
    (zjisti_nazvy_sloupcu in uprava_nazvu.py). */
module NameCleanup {
  import opened Text

  /** The Czech small letters the source transliterates. */
  predicate IsAccented(c: char) {
    c == 'á' || c == 'é' || c == 'í' || c == 'ý' || c == 'ó' || c == 'ů'
    || c == 'ú' || c == 'ě' || c == 'š' || c == 'č' || c == 'ř' || c == 'ž'
  }

  /** The characters the one-character deletions remove; no normalised
      name contains them. */
  const Forbidden: string := " .-()/\\[]"

  /** The collision table kriticke. */
  const Kriticke: map<string, string> := map["index" := "ix", "key2" := "neco"]

  /** An ASCII capital or one of the capitals of the accented letters. */
  predicate IsCapital(c: char) {
    ('A' <= c <= 'Z') || c == 'Á' || c == 'É' || c == 'Í' || c == 'Ý' || c == 'Ó'
    || c == 'Ů' || c == 'Ú' || c == 'Ě' || c == 'Š' || c == 'Č' || c == 'Ř' || c == 'Ž'
  }

  /** str.lower() for one character, on ASCII and the Czech capitals. */
  function LowerChar(c: char): (r: char)
    ensures !IsCapital(r)
    ensures IsCapital(c) <==> r != c
    ensures IsAccented(c) ==> r == c
  {
    match c
    case 'Á' => 'á'
    case 'É' => 'é'
    case 'Í' => 'í'
    case 'Ý' => 'ý'
    case 'Ó' => 'ó'
    case 'Ů' => 'ů'
    case 'Ú' => 'ú'
    case 'Ě' => 'ě'
    case 'Š' => 'š'
    case 'Č' => 'č'
    case 'Ř' => 'ř'
    case 'Ž' => 'ž'
    case _ => AsciiLower(c)
  }

  function Lower(s: string): (r: string)
    ensures |r| == |s| && forall k :: 0 <= k < |s| ==> r[k] == LowerChar(s[k])
  {
    seq(|s|, k requires 0 <= k < |s| => LowerChar(s[k]))
  }

  /** The str.maketrans("áéíýóůúěščřž", "aeiyouuescrz") table, position by
      position. */
  function PlainChar(c: char): (r: char)
    ensures !IsAccented(r)
    ensures !IsCapital(c) ==> !IsCapital(r)
    ensures IsAccented(c) <==> r != c
  {
    match c
    case 'á' => 'a'
    case 'é' => 'e'
    case 'í' => 'i'
    case 'ý' => 'y'
    case 'ó' => 'o'
    case 'ů' => 'u'
    case 'ú' => 'u'
    case 'ě' => 'e'
    case 'š' => 's'
    case 'č' => 'c'
    case 'ř' => 'r'
    case 'ž' => 'z'
    case _ => c
  }

  function Transliterate(s: string): (r: string)
    ensures |r| == |s| && forall k :: 0 <= k < |s| ==> r[k] == PlainChar(s[k])
  {
    seq(|s|, k requires 0 <= k < |s| => PlainChar(s[k]))
  }

  /** The chain of .replace(p, "") calls, in the source's order, in three
      stages: separators, unit suffixes, remaining bracket characters. */
  function DropSeparators(s: string): string {
    Replace(Replace(Replace(s, " ", ""), ".", ""), "-", "")
  }

  function DropUnits(s: string): string {
    Replace(Replace(s, "(kc)", ""), "(h)", "")
  }

  function DropBrackets(s: string): string {
    Replace(Replace(Replace(Replace(Replace(Replace(s, "(", ""), ")", ""), "/", ""), "\\", ""), "[", ""), "]", "")
  }

  /** The name before the collision table is consulted. */
  function Cleaned(token: string): string {
    DropBrackets(DropUnits(DropSeparators(Transliterate(Lower(token)))))
  }

  /** The body of the loop of zjisti_nazvy_sloupcu: lower-case, transliterate,
      delete the listed substrings, then rename a colliding name; only
      "index" and "key2" are renamed. */
  function UpravNazev(token: string): (name: string)
    ensures name != "index" && name != "key2"
  {
    var novy := Cleaned(token);
    if novy in Kriticke then Kriticke[novy] else novy
  }

  /** Only "index" and "key2" are renamed, to "ix" and "neco"; every other
      cleaned name is kept. */
  lemma UpravNazevRules(token: string)
    ensures Cleaned(token) == "index" ==> UpravNazev(token) == "ix"
    ensures Cleaned(token) == "key2" ==> UpravNazev(token) == "neco"
    ensures Cleaned(token) != "index" && Cleaned(token) != "key2" ==> UpravNazev(token) == Cleaned(token)
  {
  }

  /** zjisti_nazvy_sloupcu(data): one name per header token, in order, with
      no deduplication. */
  method ZjistiNazvySloupcu(data: seq<string>) returns (upravene: seq<string>)
    ensures |upravene| == |data|
    ensures forall i :: 0 <= i < |data| ==> upravene[i] == UpravNazev(data[i])
  {
    upravene := [];
    ghost var target := seq(|data|, k requires 0 <= k < |data| => UpravNazev(data[k]));
    for i := 0 to |data|
      invariant upravene == target[..i]
    {
      var novy := UpravNazev(data[i]);
      assert target[..i + 1] == target[..i] + [novy];
      upravene := upravene + [novy];
    }
    assert target[..|data|] == target;
  }

  // ---- properties -----------------------------------------------------

  /** s holds none of the characters the deletions remove. */
  predicate NoForbidden(s: string) {
    forall k :: 0 <= k < |s| ==> s[k] !in Forbidden
  }

  /** s holds none of the characters a normalised name cannot hold. */
  predicate IsClean(s: string) {
    NoForbidden(s) && forall k :: 0 <= k < |s| ==> !IsCapital(s[k]) && !IsAccented(s[k])
  }

  /** The deletions introduce no character. */
  lemma DropSubset(s: string, c: char)
    ensures c in DropSeparators(s) ==> c in s
    ensures c in DropUnits(s) ==> c in s
    ensures c in DropBrackets(s) ==> c in s
  {
    SeparatorsSubset(s, c);
    UnitsSubset(s, c);
    BracketsSubset(s, c);
  }

  lemma SeparatorsSubset(s: string, c: char)
    ensures c in DropSeparators(s) ==> c in s
  {
    var s1 := Replace(s, " ", "");
    var s2 := Replace(s1, ".", "");
    if c in Replace(s2, "-", "") {
      DeleteKeepsOnly(s2, "-", c);
      DeleteKeepsOnly(s1, ".", c);
      DeleteKeepsOnly(s, " ", c);
    }
  }

  lemma UnitsSubset(s: string, c: char)
    ensures c in DropUnits(s) ==> c in s
  {
    var s1 := Replace(s, "(kc)", "");
    if c in Replace(s1, "(h)", "") {
      DeleteKeepsOnly(s1, "(h)", c);
      DeleteKeepsOnly(s, "(kc)", c);
    }
  }

  lemma BracketsSubset(s: string, c: char)
    ensures c in DropBrackets(s) ==> c in s
  {
    var s1 := Replace(s, "(", "");
    var s2 := Replace(s1, ")", "");
    var s3 := Replace(s2, "/", "");
    var s4 := Replace(s3, "\\", "");
    var s5 := Replace(s4, "[", "");
    if c in Replace(s5, "]", "") {
      DeleteKeepsOnly(s5, "]", c);
      DeleteKeepsOnly(s4, "[", c);
      DeleteKeepsOnly(s3, "\\", c);
      DeleteKeepsOnly(s2, "/", c);
      DeleteKeepsOnly(s1, ")", c);
      DeleteKeepsOnly(s, "(", c);
    }
  }

  /** After the separator stage no space, dot or dash is left. */
  lemma SeparatorsGone(s: string)
    ensures ' ' !in DropSeparators(s) && '.' !in DropSeparators(s) && '-' !in DropSeparators(s)
  {
    var s1 := Replace(s, " ", "");
    var s2 := Replace(s1, ".", "");
    var s3 := Replace(s2, "-", "");
    DeleteRemovesChar(s, ' ');
    DeleteRemovesChar(s1, '.');
    DeleteRemovesChar(s2, '-');
    if ' ' in s3 { DeleteKeepsOnly(s2, "-", ' '); DeleteKeepsOnly(s1, ".", ' '); }
    if '.' in s3 { DeleteKeepsOnly(s2, "-", '.'); }
  }

  /** After the bracket stage none of ( ) / \ [ ] is left. */
  lemma BracketsGone(s: string)
    ensures forall c :: c in "()/\\[]" ==> c !in DropBrackets(s)
  {
    var s1 := Replace(s, "(", "");
    var s2 := Replace(s1, ")", "");
    var s3 := Replace(s2, "/", "");
    var s4 := Replace(s3, "\\", "");
    var s5 := Replace(s4, "[", "");
    var s6 := Replace(s5, "]", "");
    DeleteRemovesChar(s, '(');
    DeleteRemovesChar(s1, ')');
    DeleteRemovesChar(s2, '/');
    DeleteRemovesChar(s3, '\\');
    DeleteRemovesChar(s4, '[');
    DeleteRemovesChar(s5, ']');
    forall c | c in "()/\\[]" ensures c !in s6 {
      if c in s6 {
        DeleteKeepsOnly(s5, "]", c);
        if c != ']' {
          DeleteKeepsOnly(s4, "[", c);
          if c != '[' {
            DeleteKeepsOnly(s3, "\\", c);
            if c != '\\' {
              DeleteKeepsOnly(s2, "/", c);
              if c != '/' {
                DeleteKeepsOnly(s1, ")", c);
              }
            }
          }
        }
      }
    }
  }

  /** The name before the collision step is already clean. */
  lemma CleanedIsClean(token: string)
    ensures IsClean(Cleaned(token))
  {
    var t := Transliterate(Lower(token));
    var t1 := DropSeparators(t);
    var t2 := DropUnits(t1);
    var r := DropBrackets(t2);
    SeparatorsGone(t);
    BracketsGone(t2);
    forall k | 0 <= k < |r| ensures !IsCapital(r[k]) && !IsAccented(r[k]) && r[k] !in Forbidden {
      var c := r[k];
      assert c in r;
      DropSubset(t2, c);
      DropSubset(t1, c);
      DropSubset(t, c);
      var j :| 0 <= j < |t| && t[j] == c;
    }
  }

  /** No normalised name contains a space, one of . - ( ) / \ [ ], a capital
      letter or an accented letter. */
  lemma UpravNazevIsClean(token: string)
    ensures IsClean(UpravNazev(token))
  {
    CleanedIsClean(token);
    var novy := Cleaned(token);
    if novy in Kriticke {
      assert novy == "index" || novy == "key2";
      ReplacementsClean();
    }
  }

  /** Normalising introduces no line break: lower-casing and
      transliteration only map letters to letters, the deletions only remove
      characters and the collision table holds plain words. */
  lemma UpravNazevNoNewline(token: string)
    requires '\n' !in token
    ensures '\n' !in UpravNazev(token)
  {
    var t := Transliterate(Lower(token));
    forall j | 0 <= j < |t| ensures t[j] != '\n' {
      assert token[j] in token;
    }
    var t1 := DropSeparators(t);
    var t2 := DropUnits(t1);
    DropSubset(t, '\n');
    DropSubset(t1, '\n');
    DropSubset(t2, '\n');
    var novy := Cleaned(token);
    if novy in Kriticke {
      ReplacementsClean();
      assert novy == "index" || novy == "key2";
      ReplacementsOneLine(Kriticke[novy]);
    }
  }

  /** The collision table keeps to ASCII small letters, none a line
      break. */
  lemma ReplacementsOneLine(s: string)
    requires s == "ix" || s == "neco"
    ensures '\n' !in s
  {
  }

  /** The names of the collision table are clean. */
  lemma ReplacementsClean()
    ensures IsClean(Kriticke["index"]) && IsClean(Kriticke["key2"])
  {
    SmallLettersClean(Kriticke["index"]);
    SmallLettersClean(Kriticke["key2"]);
  }

  /** A string of ASCII small letters is clean. */
  lemma SmallLettersClean(s: string)
    requires forall k :: 0 <= k < |s| ==> 'a' <= s[k] <= 'z'
    ensures IsClean(s)
  {
    forall k | 0 <= k < |s| ensures s[k] !in Forbidden {
      var c := s[k];
      assert 'a' <= c <= 'z';
    }
  }

  /** A string without forbidden characters has none of the characters the
      deletions start with. */
  lemma NoForbiddenExcludes(s: string)
    requires NoForbidden(s)
    ensures forall c :: c in Forbidden ==> c !in s
  {
  }

  /** Without forbidden characters, each deletion stage changes nothing. */
  lemma DropNone(s: string)
    requires NoForbidden(s)
    ensures DropSeparators(s) == s && DropUnits(s) == s && DropBrackets(s) == s
  {
    NoForbiddenExcludes(s);
    ReplaceNone(s, " ", "");
    ReplaceNone(s, ".", "");
    ReplaceNone(s, "-", "");
    ReplaceNone(s, "(kc)", "");
    ReplaceNone(s, "(h)", "");
    ReplaceNone(s, "(", "");
    ReplaceNone(s, ")", "");
    ReplaceNone(s, "/", "");
    ReplaceNone(s, "\\", "");
    ReplaceNone(s, "[", "");
    ReplaceNone(s, "]", "");
  }

  /** On a clean string every step of the chain changes nothing. */
  lemma CleanIsFixed(s: string)
    requires IsClean(s)
    ensures Lower(s) == s && Transliterate(s) == s
    ensures Cleaned(s) == s
  {
    assert Lower(s) == s;
    assert Transliterate(s) == s;
    DropNone(s);
  }

  /** zjisti_nazvy_sloupcu is idempotent: normalising a normalised name gives
      the same name (no step re-introduces a deleted character, and neither
      "ix" nor "neco" is a key of the collision table). */
  lemma UpravNazevIdempotent(token: string)
    ensures UpravNazev(UpravNazev(token)) == UpravNazev(token)
  {
    var r := UpravNazev(token);
    UpravNazevIsClean(token);
    CleanIsFixed(r);
  }

  lemma LowerIndex()
    ensures Lower("Index") == "index"
  {
    var t, r := "Index", Lower("Index");
    assert t[0] == 'I' && t[1] == 'n' && t[2] == 'd' && t[3] == 'e' && t[4] == 'x';
    assert r[0] == 'i' && r[1] == 'n' && r[2] == 'd' && r[3] == 'e' && r[4] == 'x';
  }

  lemma CleanIndex()
    ensures IsClean("index") && IsClean("ix")
  {
    SmallLettersClean("index");
    SmallLettersClean("ix");
  }

  /** "ix" is left as it is. */
  lemma IxFixed()
    ensures UpravNazev("ix") == "ix"
  {
    var ix := "ix";
    CleanIndex();
    CleanIsFixed(ix);
    assert ix !in Kriticke;
  }

  /** "Index" becomes "ix" through the collision table. */
  lemma IndexRenamed()
    ensures UpravNazev("Index") == "ix"
  {
    var index := "index";
    LowerIndex();
    CleanIndex();
    CleanIsFixed(index);
    assert Cleaned("Index") == index;
  }

  /** Distinct header tokens can become the same column name: the source
      does not deduplicate. */
  lemma NoDeduplication()
    ensures exists a, b :: a != b && UpravNazev(a) == UpravNazev(b)
  {
    IxFixed();
    IndexRenamed();
    assert "Index"[0] != "ix"[0];
  }

  // ---- the unit suffixes and the brackets -----------------------------

  /** Lower-casing and transliterating s gives t, character by character. */
  lemma Folded(s: string, t: string)
    requires |s| == |t| && forall k :: 0 <= k < |s| ==> PlainChar(LowerChar(s[k])) == t[k]
    ensures Transliterate(Lower(s)) == t
  {
  }

  /** " (kc)" and " (h)" are removed with their contents. */
  lemma DeleteUnit(w: string, unit: string)
    requires NoForbidden(w) && (unit == "(kc)" || unit == "(h)")
    ensures DropBrackets(DropUnits(DropSeparators(w + " " + unit))) == w
  {
    UnitSeparators(w, unit);
    UnitDropped(w, unit);
    DropNone(w);
  }

  lemma UnitSeparators(w: string, unit: string)
    requires NoForbidden(w) && (unit == "(kc)" || unit == "(h)")
    ensures DropSeparators(w + " " + unit) == w + unit
  {
    NoSeparators(w);
    UnitChars(unit);
    OneCharDropped(w, ' ', unit);
    NotInConcat(w, unit, '.');
    NotInConcat(w, unit, '-');
    DotsDashesKept(w + unit);
  }

  lemma UnitChars(unit: string)
    requires unit == "(kc)" || unit == "(h)"
    ensures ' ' !in unit && '.' !in unit && '-' !in unit
  {
  }

  lemma UnitDropped(w: string, unit: string)
    requires NoForbidden(w) && (unit == "(kc)" || unit == "(h)")
    ensures DropUnits(w + unit) == w
  {
    BracketFree(w);
    assert w + [] == w;
    if unit == "(kc)" {
      ReplaceLast(w, unit, "");
      ReplaceNone(w, "(h)", "");
    } else {
      ReplaceSkip(w, unit, "(kc)", "");
      assert Replace(unit, "(kc)", "") == unit;
      ReplaceLast(w, unit, "");
    }
  }

  /** Other brackets only lose the brackets: "w (u)" becomes "wu". */
  lemma DeleteBracketed(w: string, u: string)
    requires NoForbidden(w) && NoForbidden(u) && u != "kc" && u != "h"
    ensures DropBrackets(DropUnits(DropSeparators(w + " (" + u + ")"))) == w + u
  {
    BracketedSeparators(w, u);
    BracketKept(w, u, "(kc)");
    BracketKept(w, u, "(h)");
    BracketsDropped(w, u);
  }

  lemma BracketedSeparators(w: string, u: string)
    requires NoForbidden(w) && NoForbidden(u)
    ensures DropSeparators(w + " (" + u + ")") == w + ("(" + u + ")")
  {
    SpaceDropped(w, u);
    BracketNoSeparator(u);
    NoSeparators(w);
    var b := "(" + u + ")";
    NotInConcat(w, b, '.');
    NotInConcat(w, b, '-');
    DotsDashesKept(w + b);
  }

  /** The space before the bracket is the only one. */
  lemma SpaceDropped(w: string, u: string)
    requires NoForbidden(w) && NoForbidden(u)
    ensures Replace(w + " (" + u + ")", " ", "") == w + ("(" + u + ")")
  {
    var b := "(" + u + ")";
    BracketNoSeparator(u);
    NoSeparators(w);
    assert w + " (" + u + ")" == w + " " + b;
    OneCharDropped(w, ' ', b);
  }

  /** Without dots and dashes the last two separator deletions change
      nothing. */
  lemma DotsDashesKept(s: string)
    requires '.' !in s && '-' !in s
    ensures Replace(Replace(s, ".", ""), "-", "") == s
  {
    ReplaceNone(s, ".", "");
    ReplaceNone(s, "-", "");
  }

  /** A string without forbidden characters holds no space, dot or dash. */
  lemma NoSeparators(w: string)
    requires NoForbidden(w)
    ensures ' ' !in w && '.' !in w && '-' !in w
  {
    forall k | 0 <= k < |w| ensures w[k] != ' ' && w[k] != '.' && w[k] != '-' {
      assert w[k] !in Forbidden;
    }
  }

  /** "(u)" holds no space, dot or dash when u holds none. */
  lemma BracketNoSeparator(u: string)
    requires NoForbidden(u)
    ensures ' ' !in "(" + u + ")" && '.' !in "(" + u + ")" && '-' !in "(" + u + ")"
  {
    var b := "(" + u + ")";
    forall k | 0 <= k < |b| ensures b[k] != ' ' && b[k] != '.' && b[k] != '-' {
      if 0 < k < |b| - 1 {
        assert b[k] == u[k - 1] && u[k - 1] !in Forbidden;
      }
    }
  }

  /** A unit pattern does not occur in "w(u)" for any other u. */
  lemma BracketKept(w: string, u: string, unit: string)
    requires NoForbidden(w) && NoForbidden(u)
    requires (unit == "(kc)" && u != "kc") || (unit == "(h)" && u != "h")
    ensures Replace(w + ("(" + u + ")"), unit, "") == w + ("(" + u + ")")
  {
    var b := "(" + u + ")";
    NoForbiddenExcludes(w);
    ReplaceSkip(w, b, unit, "");
    NoForbiddenExcludes(u);
    NotInConcat(u, ")", '(');
    if |b| >= |unit| {
      UnitNotAtBracket(u, unit);
      ReplaceNone(u + ")", unit, "");
      assert b == [b[0]] + (u + ")");
    } else {
      assert Replace(b, unit, "") == b;
    }
  }

  /** "(u)" does not start with a unit pattern other than its own. */
  lemma UnitNotAtBracket(u: string, unit: string)
    requires NoForbidden(u)
    requires (unit == "(kc)" && u != "kc") || (unit == "(h)" && u != "h")
    requires |"(" + u + ")"| >= |unit|
    ensures ("(" + u + ")")[..|unit|] != unit
  {
    var b := "(" + u + ")";
    NoForbiddenExcludes(u);
    if unit == "(kc)" && |u| >= 2 && u[..2] == "kc" {
      assert |u| >= 3;
      assert b[3] == u[2] && u[2] !in Forbidden;
    } else if unit == "(h)" && |u| >= 1 && u[..1] == "h" {
      assert b[2] == u[1] && u[1] !in Forbidden;
    } else if unit == "(kc)" {
      assert b[1..3] == u[..2] || |u| < 2;
    } else {
      assert |u| >= 1 && u[..1] != "h";
      assert b[1] == u[0] && u[0] != 'h' && unit[1] == 'h';
      assert b[..|unit|][1] != unit[1];
    }
  }

  lemma BracketsDropped(w: string, u: string)
    requires NoForbidden(w) && NoForbidden(u)
    ensures DropBrackets(w + ("(" + u + ")")) == w + u
  {
    BracketFree(w);
    BracketFree(u);
    var r := w + u;
    assert Replace(w + ("(" + u + ")"), "(", "") == r + ")" by {
      assert w + ("(" + u + ")") == w + ['('] + (u + ")");
      NotInConcat(u, ")", '(');
      OneCharDropped(w, '(', u + ")");
      assert w + (u + ")") == r + ")";
    }
    assert Replace(r + ")", ")", "") == r by {
      NotInConcat(w, u, ')');
      ReplaceLast(r, ")", "");
      assert r + [] == r;
    }
    NoForbiddenConcat(w, u);
    BracketFree(r);
    ReplaceNone(r, "/", "");
    ReplaceNone(r, "\\", "");
    ReplaceNone(r, "[", "");
    ReplaceNone(r, "]", "");
  }

  /** A string without forbidden characters holds none of the bracket
      characters. */
  lemma BracketFree(s: string)
    requires NoForbidden(s)
    ensures '(' !in s && ')' !in s && '/' !in s && '\\' !in s && '[' !in s && ']' !in s
  {
    forall k | 0 <= k < |s| ensures s[k] != '(' && s[k] != ')' && s[k] != '/' && s[k] != '\\' && s[k] != '[' && s[k] != ']' {
      assert s[k] !in Forbidden;
    }
  }

  lemma NoForbiddenConcat(a: string, b: string)
    requires NoForbidden(a) && NoForbidden(b)
    ensures NoForbidden(a + b)
  {
    forall k | 0 <= k < |a + b| ensures (a + b)[k] !in Forbidden {
      if k < |a| { assert (a + b)[k] == a[k]; } else { assert (a + b)[k] == b[k - |a|]; }
    }
  }

  /** "Cena (Kč)" becomes "cena". */
  lemma CenaKc(token: string)
    requires token == "Cena (Kč)"
    ensures UpravNazev(token) == "cena"
  {
    var w := "cena";
    Folded(token, w + " " + "(kc)");
    DeleteUnit(w, "(kc)");
  }

  /** "Doba (h)" becomes "doba". */
  lemma DobaH(token: string)
    requires token == "Doba (h)"
    ensures UpravNazev(token) == "doba"
  {
    var w := "doba";
    Folded(token, w + " " + "(h)");
    DeleteUnit(w, "(h)");
  }

  /** "Cena (EUR)" becomes "cenaeur". */
  lemma CenaEur(token: string)
    requires token == "Cena (EUR)"
    ensures UpravNazev(token) == "cenaeur"
  {
    var w, u := "cena", "eur";
    assert Transliterate(Lower(token)) == w + " (" + u + ")" by {
      Folded(token, w + " (" + u + ")");
    }
    assert Cleaned(token) == w + u by {
      SmallLettersClean(w);
      SmallLettersClean(u);
      DeleteBracketed(w, u);
    }
    CenaEurJoined(w, u);
  }

  lemma CenaEurJoined(w: string, u: string)
    requires w == "cena" && u == "eur"
    ensures w + u == "cenaeur" && w + u !in Kriticke
  {
    assert |w + u| == 7;
  }
}
