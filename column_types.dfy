/** Resolution of a column's declared type from the tags of its sampled
    cells (vytvor_statistiku_datovych_typu in tvurce_sql.py). */
module ColumnTypes {
  import opened Text
  import opened ValueTypes

  /** How often t occurs in col: Counter(col)[t]. */
  function Occurrences(col: seq<Tag>, t: Tag): nat {
    multiset(col)[t]
  }

  /** The first position among col[..k] whose tag is most frequent in col. */
  function ModeIndex(col: seq<Tag>, k: nat): (p: nat)
    requires 0 < k <= |col|
    ensures p < k
    ensures forall q :: 0 <= q < k ==> Occurrences(col, col[q]) <= Occurrences(col, col[p])
    ensures forall q :: 0 <= q < p ==> Occurrences(col, col[q]) < Occurrences(col, col[p])
    decreases k
  {
    if k == 1 then 0
    else
      var p := ModeIndex(col, k - 1);
      if Occurrences(col, col[k - 1]) > Occurrences(col, col[p]) then k - 1 else p
  }

  /** Counter(col).most_common(1)[0][0] (MostCommonRules states what it
      means). */
  function MostCommon(col: seq<Tag>): (t: Tag)
    requires |col| > 0
    ensures t in col
  {
    col[ModeIndex(col, |col|)]
  }

  /** most_common(1) gives a most frequent tag, and among equally frequent
      tags the one that occurs first: Counter keeps the order of first
      occurrences and most_common(1) takes the first maximum. */
  lemma MostCommonRules(col: seq<Tag>)
    requires |col| > 0
    ensures MostCommon(col) in col
    ensures forall t :: Occurrences(col, t) <= Occurrences(col, MostCommon(col))
    ensures forall q :: 0 <= q < |col| && Occurrences(col, col[q]) == Occurrences(col, MostCommon(col)) ==>
      MostCommon(col) in col[..q + 1]
  {
    var p := ModeIndex(col, |col|);
    forall t ensures Occurrences(col, t) <= Occurrences(col, col[p]) {
      if t in col {
        var q :| 0 <= q < |col| && col[q] == t;
      }
    }
    forall q | 0 <= q < |col| && Occurrences(col, col[q]) == Occurrences(col, col[p])
      ensures col[p] in col[..q + 1]
    {
      assert col[..q + 1][p] == col[p];
    }
  }

  /** any(x.startswith(prefix) for x in col). */
  predicate AnyStartsWith(col: seq<Tag>, prefix: string) {
    exists x :: x in col && StartsWith(TagName(x), prefix)
  }

  /** Which tag names start with which prefix: only "decimal(18, 3)" starts
      with "decimal", only "varchar" with "varchar", only "date" with "date"
      and only "timestamp" with "timestamp". */
  lemma TagPrefixes(x: Tag)
    ensures StartsWith(TagName(x), "decimal") <==> x == Decimal
    ensures StartsWith(TagName(x), "varchar") <==> x == Varchar
    ensures StartsWith(TagName(x), "date") <==> x == Date
    ensures StartsWith(TagName(x), "timestamp") <==> x == Timestamp
  {
    var n := TagName(x);
    match x
    case Null => assert n[0] == 'n';
    case Date => assert n[..4] == "date" && n[0] == 'd' && n[1] == 'a';
    case Timestamp => assert n[..9] == "timestamp" && n[0] == 't';
    case Decimal => assert n[..7] == "decimal" && n[0] == 'd' && n[1] == 'e';
    case Integer => assert n[0] == 'i';
    case Varchar => assert n[..7] == "varchar" && n[0] == 'v';
  }

  lemma PrefixDecimal(col: seq<Tag>)
    ensures AnyStartsWith(col, "decimal") <==> Decimal in col
  {
    forall x ensures StartsWith(TagName(x), "decimal") <==> x == Decimal {
      TagPrefixes(x);
    }
  }

  lemma PrefixVarchar(col: seq<Tag>)
    ensures AnyStartsWith(col, "varchar") <==> Varchar in col
  {
    forall x ensures StartsWith(TagName(x), "varchar") <==> x == Varchar {
      TagPrefixes(x);
    }
  }

  /** The declared type of one column, as the loop body of
      vytvor_statistiku_datovych_typu computes it (ResolveRules states what
      it means). */
  function Resolve(col: seq<Tag>): (t: Tag)
    requires |col| > 0
    ensures t != Null
  {
    var res := MostCommon(col);
    if AnyStartsWith(col, "decimal") then Decimal
    else if res == Null then (if AnyStartsWith(col, "varchar") then Varchar else Integer)
    else res
  }

  /** Any decimal evidence wins; a column whose mode is null is varchar when
      it holds a varchar and integer otherwise; every other column takes its
      mode; so no column is declared null. */
  lemma ResolveRules(col: seq<Tag>)
    requires |col| > 0
    ensures Resolve(col) != Null
    ensures Resolve(col) == Decimal <==> Decimal in col
    ensures Decimal !in col && MostCommon(col) != Null ==> Resolve(col) == MostCommon(col)
    ensures Decimal !in col && MostCommon(col) == Null ==>
      (Resolve(col) == Varchar <==> Varchar in col) && Resolve(col) in {Varchar, Integer}
  {
    MostCommonRules(col);
    PrefixDecimal(col);
    PrefixVarchar(col);
  }
}
