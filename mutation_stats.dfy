// The row-level logic of code/plot_mutational_frequency_and_qc_stats.py:
// the `filter` step, the per-row nucleotide and amino-acid classifications,
// the integer CNT tallies per codon position, the amino-acid diversity, and
// the row paging and E2/E3 band of the amino-acid logo plots.

module MutationStats {
  import opened Common
  import opened Text

  /** One row of a codon table: a codon variant seen at a codon position. */
  datatype CodonRow = CodonRow(position: int, refCodon: string, codon: string, refAa: string, aa: string, cnt: int)

  /** The exceptions the steps below can raise. */
  datatype StatsError =
    | BadCodonRange(text: string)  // ValueError from `int()` or from unpacking the split range
    | ShortCodon(row: nat)         // IndexError: CODON is shorter than REF_CODON in that row
    | NoStopColumn                 // KeyError: `drop('X')` on a table without a stop column
    | NoCountColumns               // KeyError: a summary frame with no position has no count columns
    | NoPositions                  // ValueError: `max()` of an empty index

  /** The amino acid column value of a stop codon. */
  const StopAa := "."

  // ---------------------------------------------------------------------
  // Row selection

  /** `df.loc[mask]` followed by re-indexing: the rows that pass, in their order. */
  function Where<T(!new)>(rows: seq<T>, keep: T -> bool): (r: seq<T>)
    ensures |r| <= |rows|
    ensures forall x :: x in r <==> x in rows && keep(x)
  {
    if rows == [] then []
    else (if keep(rows[0]) then [rows[0]] else []) + Where(rows[1..], keep)
  }

  /** Selection keeps the order of the rows: it commutes with concatenation. */
  lemma {:induction false} WhereConcat<T(!new)>(a: seq<T>, b: seq<T>, keep: T -> bool)
    ensures Where(a + b, keep) == Where(a, keep) + Where(b, keep)
  {
    if a == [] {
      assert a + b == b;
    } else {
      assert (a + b)[0] == a[0];
      assert (a + b)[1..] == a[1..] + b;
      WhereConcat(a[1..], b, keep);
    }
  }

  /** A selection that no row passes is empty. */
  lemma {:induction false} WhereNone<T(!new)>(rows: seq<T>, keep: T -> bool)
    requires forall i :: 0 <= i < |rows| ==> !keep(rows[i])
    ensures Where(rows, keep) == []
  {
    if rows != [] {
      WhereNone(rows[1..], keep);
    }
  }

  /** Two selections in a row are one selection by both conditions. */
  lemma {:induction false} WhereFuse<T(!new)>(rows: seq<T>, first: T -> bool, second: T -> bool, both: T -> bool)
    requires forall x :: both(x) == (first(x) && second(x))
    ensures Where(Where(rows, first), second) == Where(rows, both)
  {
    if rows != [] {
      WhereFuse(rows[1..], first, second, both);
      var head := if first(rows[0]) then [rows[0]] else [];
      WhereConcat(head, Where(rows[1..], first), second);
    }
  }

  /**
   * `codonRange.split('-')` into exactly two parts, each read by `int()`
   * after `strip()`; anything else raises ValueError.
   */
  function ParseRange(codonRange: string): Result<(int, int), StatsError>
  {
    var parts := SplitOn(codonRange, '-');
    if |parts| != 2 then Err(BadCodonRange(codonRange))
    else
      match (ParseInt(Strip(parts[0])), ParseInt(Strip(parts[1])))
      case (Some(lo), Some(hi)) => Ok((lo, hi))
      case _ => Err(BadCodonRange(codonRange))
  }

  /** A numeral written by `str(n)` has no dash and reads back through `int(s.strip())`. */
  lemma ReadNumeral(n: nat)
    ensures '-' !in NatToString(n)
    ensures ParseInt(Strip(NatToString(n))) == Some(n)
  {
    var s := NatToString(n);
    StripOfNonSpace(s);
    ParseIntOfNatToString(n);
  }

  /** Two dash-free pieces joined by a dash split back into those pieces. */
  lemma SplitPair(x: string, y: string)
    requires '-' !in x && '-' !in y
    ensures SplitOn(x + "-" + y, '-') == [x, y]
  {
    var parts := [x, y];
    assert JoinWith(parts, '-') == x + "-" + y by {
      assert parts[1..] == [y];
    }
    SplitOfJoin(parts, '-');
  }

  /** A range reads as (lo, hi) when it splits into two pieces that read as lo and hi. */
  lemma ParseRangeOfPieces(text: string, x: string, y: string, lo: int, hi: int)
    requires SplitOn(text, '-') == [x, y]
    requires ParseInt(Strip(x)) == Some(lo) && ParseInt(Strip(y)) == Some(hi)
    ensures ParseRange(text) == Ok((lo, hi))
  {
  }

  /** A range written as "a-b" from two non-negative numbers reads back as (a, b). */
  lemma ParseRangeRoundTrip(a: nat, b: nat)
    ensures ParseRange(NatToString(a) + "-" + NatToString(b)) == Ok((a, b))
  {
    ReadNumeral(a);
    ReadNumeral(b);
    SplitPair(NatToString(a), NatToString(b));
    ParseRangeOfPieces(NatToString(a) + "-" + NatToString(b), NatToString(a), NatToString(b), a, b);
  }

  /** The default range "0-0" reads as the single position 0. */
  lemma DefaultRange()
    ensures ParseRange("0-0") == Ok((0, 0))
  {
    assert NatToString(0) == "0";
    ParseRangeRoundTrip(0, 0);
    assert NatToString(0) + "-" + NatToString(0) == "0-0";
  }

  /** A range whose first bound is written with a minus sign cannot be read: the sign is taken for the separator. */
  lemma NegativeStartRejected(rest: string)
    ensures ParseRange("-" + rest).Err?
  {
    var s := "-" + rest;
    assert s[1..] == rest;
    var parts := SplitOn(s, '-');
    assert parts == [""] + SplitOn(rest, '-');
    if |parts| == 2 {
      assert Strip(parts[0]) == "";
      assert ParseInt("") == None;
    }
  }

  /** The row conditions of `filter` that are modelled: enough reads, a changed codon, a position in range. */
  predicate Kept(row: CodonRow, minAlt: int, lo: int, hi: int)
  {
    row.cnt >= minAlt && row.refCodon != row.codon && lo <= row.position <= hi
  }

  function KeepRow(minAlt: int, lo: int, hi: int): CodonRow -> bool
  {
    (x: CodonRow) => Kept(x, minAlt, lo, hi)
  }

  /**
   * `filter`: the CNT threshold, then the removal of unchanged codons, then
   * the inclusive position range. The result is exactly the rows that pass
   * all three, in their original order; a malformed range raises.
   */
  function Filter(rows: seq<CodonRow>, minAlt: int, codonRange: string): (r: Result<seq<CodonRow>, StatsError>)
    ensures r.Ok? <==> ParseRange(codonRange).Ok?
    ensures r.Err? ==> r.error == BadCodonRange(codonRange)
    ensures r.Ok? ==>
      var (lo, hi) := ParseRange(codonRange).value;
      r.value == Where(rows, KeepRow(minAlt, lo, hi))
  {
    var enough := (x: CodonRow) => x.cnt >= minAlt;
    var changed := (x: CodonRow) => x.refCodon != x.codon;
    var byCount := Where(rows, enough);
    var mutated := Where(byCount, changed);
    match ParseRange(codonRange)
    case Err(e) => Err(e)
    case Ok((lo, hi)) =>
      var inRange := (x: CodonRow) => lo <= x.position <= hi;
      var enoughAndChanged := (x: CodonRow) => x.cnt >= minAlt && x.refCodon != x.codon;
      WhereFuse(rows, enough, changed, enoughAndChanged);
      WhereFuse(rows, enoughAndChanged, inRange, KeepRow(minAlt, lo, hi));
      Ok(Where(mutated, inRange))
  }

  /** With the default range, `filter` keeps position 0 only: the changed, well-counted rows there. */
  lemma DefaultRangeKeepsPositionZero(rows: seq<CodonRow>, minAlt: int)
    ensures Filter(rows, minAlt, "0-0").Ok?
    ensures forall x :: x in Filter(rows, minAlt, "0-0").value <==>
      x in rows && x.position == 0 && x.cnt >= minAlt && x.refCodon != x.codon
  {
    DefaultRange();
  }

  /** A codon table numbered from codon 1 on keeps no row at all under the default range. */
  lemma DefaultRangeKeepsNothing(rows: seq<CodonRow>, minAlt: int)
    requires forall i :: 0 <= i < |rows| ==> rows[i].position >= 1
    ensures Filter(rows, minAlt, "0-0") == Ok([])
  {
    DefaultRange();
    WhereNone(rows, KeepRow(minAlt, 0, 0));
  }

  /**
   * `filter` with the position range optional: without a range every
   * position is kept, and a given range is read as before.
   */
  function FilterAllByDefault(rows: seq<CodonRow>, minAlt: int, codonRange: Option<string>): Result<seq<CodonRow>, StatsError>
  {
    match codonRange
    case None => Ok(Where(rows, (x: CodonRow) => x.cnt >= minAlt && x.refCodon != x.codon))
    case Some(text) => Filter(rows, minAlt, text)
  }

  /**
   * Without a range, the filter keeps every changed, well-counted row at
   * any position, and so every row that the filter with any range keeps.
   */
  lemma DefaultUsesAllPositions(rows: seq<CodonRow>, minAlt: int, codonRange: string)
    ensures FilterAllByDefault(rows, minAlt, None).Ok?
    ensures forall x :: x in FilterAllByDefault(rows, minAlt, None).value <==>
      x in rows && x.cnt >= minAlt && x.refCodon != x.codon
    ensures Filter(rows, minAlt, codonRange).Ok? ==>
      forall x :: x in Filter(rows, minAlt, codonRange).value ==> x in FilterAllByDefault(rows, minAlt, None).value
  {
  }

  /** `nonSynOnly`: keep the rows whose amino acid differs from the reference one. */
  function NonSynonymousOnly(rows: seq<CodonRow>): seq<CodonRow>
  {
    Where(rows, (x: CodonRow) => x.refAa != x.aa)
  }

  /** `includeStop == False`: drop the rows whose amino acid is a stop. */
  function WithoutStops(rows: seq<CodonRow>): seq<CodonRow>
  {
    Where(rows, (x: CodonRow) => x.aa != StopAa)
  }

  // ---------------------------------------------------------------------
  // Per-row classification

  /**
   * The list comprehension counting the positions of REF_CODON at which
   * CODON differs, for a CODON at least as long as REF_CODON.
   */
  function DiffCount(refCodon: string, codon: string): (n: nat)
    requires |refCodon| <= |codon|
    ensures n <= |refCodon|
    ensures n == 0 <==> refCodon == codon[..|refCodon|]
  {
    if refCodon == [] then 0
    else
      var k := |refCodon| - 1;
      assert refCodon == refCodon[..k] + [refCodon[k]];
      assert codon[..|refCodon|] == codon[..k] + [codon[k]];
      DiffCount(refCodon[..k], codon) + (if refCodon[k] != codon[k] then 1 else 0)
  }

  /** The indices at which the two codons differ. */
  function Mismatches(refCodon: string, codon: string): set<nat>
    requires |refCodon| <= |codon|
  {
    set i: nat | i < |refCodon| && refCodon[i] != codon[i]
  }

  /** The count is the number of differing positions. */
  lemma {:induction false} DiffCountCountsMismatches(refCodon: string, codon: string)
    requires |refCodon| <= |codon|
    ensures DiffCount(refCodon, codon) == |Mismatches(refCodon, codon)|
  {
    if refCodon != [] {
      var k := |refCodon| - 1;
      DiffCountCountsMismatches(refCodon[..k], codon);
      var before := Mismatches(refCodon[..k], codon);
      if refCodon[k] != codon[k] {
        assert Mismatches(refCodon, codon) == before + {k};
      } else {
        assert Mismatches(refCodon, codon) == before;
      }
    }
  }

  /**
   * The `total_nt_mutations` of one row, or the IndexError raised when
   * CODON is shorter than REF_CODON.
   */
  function NtChanges(row: CodonRow): (r: Option<nat>)
    ensures r.None? <==> |row.codon| < |row.refCodon|
    ensures r.Some? ==> r.value <= |row.refCodon|
  {
    if |row.codon| < |row.refCodon| then None else Some(DiffCount(row.refCodon, row.codon))
  }

  /** A row `filter` kept whose codons have the same length differs from its reference at one position or more. */
  lemma KeptRowIsMutated(row: CodonRow, minAlt: int, lo: int, hi: int)
    requires Kept(row, minAlt, lo, hi) && |row.refCodon| == |row.codon|
    ensures NtChanges(row).Some? && 1 <= NtChanges(row).value <= |row.refCodon|
  {
    assert row.codon[..|row.refCodon|] == row.codon;
  }

  /**
   * The `iterrows` loop filling `total_nt_mutations`, row by row, up to the
   * first row whose CODON is too short.
   */
  method NtChangeColumn(rows: seq<CodonRow>) returns (r: Result<seq<nat>, StatsError>)
    ensures r.Ok? <==> forall i :: 0 <= i < |rows| ==> NtChanges(rows[i]).Some?
    ensures r.Ok? ==> |r.value| == |rows| && forall i :: 0 <= i < |rows| ==> Some(r.value[i]) == NtChanges(rows[i])
    ensures r.Err? ==> exists i :: 0 <= i < |rows| && r.error == ShortCodon(i) && NtChanges(rows[i]).None?
                                   && forall j :: 0 <= j < i ==> NtChanges(rows[j]).Some?
  {
    var column: seq<nat> := [];
    for i := 0 to |rows|
      invariant |column| == i
      invariant forall j :: 0 <= j < i ==> Some(column[j]) == NtChanges(rows[j])
    {
      var row := rows[i];
      if |row.codon| < |row.refCodon| {
        return Err(ShortCodon(i));
      }
      var count := 0;
      for nt := 0 to |row.refCodon|
        invariant count == DiffCount(row.refCodon[..nt], row.codon)
      {
        assert row.refCodon[..nt + 1][..nt] == row.refCodon[..nt];
        if row.refCodon[nt] != row.codon[nt] {
          count := count + 1;
        }
      }
      assert row.refCodon[..|row.refCodon|] == row.refCodon;
      column := column + [count];
    }
    r := Ok(column);
  }

  /** The aaType column values. */
  datatype AaType = Synonymous | Nonsynonymous | Stop

  /**
   * The aaType classifier. It is total and its cases exclude each other: a
   * stop is a stop whatever the reference amino acid, and otherwise the
   * change is synonymous exactly when the amino acid is the reference one.
   * The fallback branch that prints the row cannot be reached.
   */
  function Classify(row: CodonRow): (t: AaType)
    ensures t == Stop <==> row.aa == StopAa
    ensures t == Synonymous <==> row.aa != StopAa && row.refAa == row.aa
    ensures t == Nonsynonymous <==> row.aa != StopAa && row.refAa != row.aa
  {
    if row.refAa == row.aa && row.aa != StopAa then Synonymous
    else if row.refAa != row.aa && row.aa != StopAa then Nonsynonymous
    else if row.aa == StopAa then Stop
    else assert false; Stop
  }

  function AaTypes(rows: seq<CodonRow>): seq<AaType>
  {
    seq(|rows|, i requires 0 <= i < |rows| => Classify(rows[i]))
  }

  /** The `iterrows` loop filling the aaType column. */
  method AaTypeColumn(rows: seq<CodonRow>) returns (column: seq<AaType>)
    ensures column == AaTypes(rows)
  {
    column := [];
    for i := 0 to |rows|
      invariant column == AaTypes(rows[..i])
    {
      assert rows[..i + 1][..i] == rows[..i];
      column := column + [Classify(rows[i])];
    }
    assert rows[..|rows|] == rows;
  }

  /**
   * `nonSynOnly` keeps exactly the nonsynonymous rows and the stop rows
   * whose reference amino acid is not itself a stop; it does not remove stops.
   */
  lemma NonSynonymousOnlyKeeps(rows: seq<CodonRow>, x: CodonRow)
    ensures x in NonSynonymousOnly(rows) <==>
      x in rows && (Classify(x) == Nonsynonymous || (Classify(x) == Stop && x.refAa != StopAa))
  {
  }

  /** `includeStop == False` removes exactly the stop rows. */
  lemma WithoutStopsKeeps(rows: seq<CodonRow>, x: CodonRow)
    ensures x in WithoutStops(rows) <==> x in rows && Classify(x) != Stop
  {
  }

  // ---------------------------------------------------------------------
  // Per-codon tallies

  /** Every codon position that occurs in the rows: `set(value['POSITION'])`. */
  function Positions(rows: seq<CodonRow>): set<int>
  {
    set i | 0 <= i < |rows| :: rows[i].position
  }

  /**
   * The sum of CNT over the rows at position p whose category (cats, a
   * column alongside the rows) is in cs.
   */
  function SumCntIn<C>(rows: seq<CodonRow>, cats: seq<C>, p: int, cs: set<C>): int
    requires |cats| == |rows|
  {
    if rows == [] then 0
    else
      var k := |rows| - 1;
      SumCntIn(rows[..k], cats[..k], p, cs) + (if rows[k].position == p && cats[k] in cs then rows[k].cnt else 0)
  }

  /** The sum of CNT over all rows at position p. */
  function CntAt(rows: seq<CodonRow>, p: int): int
  {
    if rows == [] then 0
    else
      var k := |rows| - 1;
      CntAt(rows[..k], p) + (if rows[k].position == p then rows[k].cnt else 0)
  }

  /** Counts over disjoint category sets add up. */
  lemma {:induction false} SumCntInUnion<C>(rows: seq<CodonRow>, cats: seq<C>, p: int, a: set<C>, b: set<C>)
    requires |cats| == |rows| && a !! b
    ensures SumCntIn(rows, cats, p, a + b) == SumCntIn(rows, cats, p, a) + SumCntIn(rows, cats, p, b)
  {
    if rows != [] {
      var k := |rows| - 1;
      SumCntInUnion(rows[..k], cats[..k], p, a, b);
    }
  }

  /** When every row's category is in cs, counting over cs counts every row. */
  lemma {:induction false} SumCntInCovering<C>(rows: seq<CodonRow>, cats: seq<C>, p: int, cs: set<C>)
    requires |cats| == |rows|
    requires forall i :: 0 <= i < |cats| ==> cats[i] in cs
    ensures SumCntIn(rows, cats, p, cs) == CntAt(rows, p)
  {
    if rows != [] {
      var k := |rows| - 1;
      SumCntInCovering(rows[..k], cats[..k], p, cs);
    }
  }

  /** When no row's category is in cs, the count over cs is zero. */
  lemma {:induction false} SumCntInNone<C>(rows: seq<CodonRow>, cats: seq<C>, p: int, cs: set<C>)
    requires |cats| == |rows|
    requires forall i :: 0 <= i < |cats| ==> cats[i] !in cs
    ensures SumCntIn(rows, cats, p, cs) == 0
  {
    if rows != [] {
      var k := |rows| - 1;
      SumCntInNone(rows[..k], cats[..k], p, cs);
    }
  }

  /** `sum(value.loc[(POSITION == p) & (category == c)]['CNT'])`. */
  method SumCnt<C(==)>(rows: seq<CodonRow>, cats: seq<C>, p: int, c: C) returns (total: int)
    requires |cats| == |rows|
    ensures total == SumCntIn(rows, cats, p, {c})
  {
    total := 0;
    for i := 0 to |rows|
      invariant total == SumCntIn(rows[..i], cats[..i], p, {c})
    {
      assert rows[..i + 1][..i] == rows[..i];
      assert cats[..i + 1][..i] == cats[..i];
      if rows[i].position == p && cats[i] == c {
        total := total + rows[i].cnt;
      }
    }
    assert rows[..|rows|] == rows;
    assert cats[..|cats|] == cats;
  }

  /** The inner loop of a per-codon tally: one count per category at position p. */
  method TallyAt<C(==)>(rows: seq<CodonRow>, cats: seq<C>, p: int, categories: set<C>) returns (counts: map<C, int>)
    requires |cats| == |rows|
    ensures counts.Keys == categories
    ensures forall c :: c in counts ==> counts[c] == SumCntIn(rows, cats, p, {c})
  {
    counts := map[];
    var left := categories;
    while left != {}
      invariant left <= categories
      invariant counts.Keys == categories - left
      invariant forall c :: c in counts ==> counts[c] == SumCntIn(rows, cats, p, {c})
      decreases |left|
    {
      var c :| c in left;
      var total := SumCnt(rows, cats, p, c);
      counts := counts[c := total];
      left := left - {c};
    }
  }

  /**
   * The per-codon tally loops: for every position that occurs and every
   * category, the sum of CNT over the rows at that position in that category.
   */
  method TallyPerCodon<C(==)>(rows: seq<CodonRow>, cats: seq<C>, categories: set<C>)
    returns (tally: map<int, map<C, int>>)
    requires |cats| == |rows|
    ensures tally.Keys == Positions(rows)
    ensures forall p :: p in tally ==> tally[p].Keys == categories
    ensures forall p, c :: p in tally && c in categories ==> tally[p][c] == SumCntIn(rows, cats, p, {c})
  {
    tally := map[];
    var todo := Positions(rows);
    while todo != {}
      invariant todo <= Positions(rows)
      invariant tally.Keys == Positions(rows) - todo
      invariant forall p :: p in tally ==> tally[p].Keys == categories
      invariant forall p, c :: p in tally && c in categories ==> tally[p][c] == SumCntIn(rows, cats, p, {c})
      decreases |todo|
    {
      var p :| p in todo;
      var counts := TallyAt(rows, cats, p, categories);
      tally := tally[p := counts];
      todo := todo - {p};
    }
  }

  /** `all_nt_muts_counts`: the sum of the one-, two- and three-change counts. */
  function AllNtMutsCounts(tally: map<int, map<nat, int>>, p: int): int
    requires p in tally && 1 in tally[p] && 2 in tally[p] && 3 in tally[p]
  {
    tally[p][1] + tally[p][2] + tally[p][3]
  }

  /**
   * In the nucleotide-change tally, all_nt_muts_counts is the CNT of the
   * rows with one to three changes at that position, and it is every row's
   * CNT there when each row has one to three changes (as every row `filter`
   * keeps with two three-letter codons has).
   */
  lemma AllNtMutsCountsTotal(rows: seq<CodonRow>, changes: seq<nat>, tally: map<int, map<nat, int>>, p: int)
    requires |changes| == |rows|
    requires p in tally && tally[p].Keys == {1, 2, 3}
    requires forall c :: c in tally[p] ==> tally[p][c] == SumCntIn(rows, changes, p, {c})
    ensures AllNtMutsCounts(tally, p) == SumCntIn(rows, changes, p, {1, 2, 3})
    ensures (forall i :: 0 <= i < |changes| ==> 1 <= changes[i] <= 3) ==> AllNtMutsCounts(tally, p) == CntAt(rows, p)
  {
    SumCntInUnion(rows, changes, p, {1}, {2});
    assert {1} + {2} == {1, 2};
    SumCntInUnion(rows, changes, p, {1, 2}, {3});
    assert {1, 2} + {3} == {1, 2, 3};
    if forall i :: 0 <= i < |changes| ==> 1 <= changes[i] <= 3 {
      SumCntInCovering(rows, changes, p, {1, 2, 3});
    }
  }

  /**
   * The `all_nt_muts_counts` column of a whole tally, one value per position.
   * A tally with no position becomes a frame with no `nt_change_*_counts`
   * columns, and selecting them raises KeyError.
   */
  function AllNtMutsColumn(tally: map<int, map<nat, int>>): (r: Result<map<int, int>, StatsError>)
    requires forall p :: p in tally ==> 1 in tally[p] && 2 in tally[p] && 3 in tally[p]
    ensures r.Err? <==> tally == map[]
    ensures r.Err? ==> r.error == NoCountColumns
    ensures r.Ok? ==> r.value.Keys == tally.Keys && forall p :: p in tally ==> r.value[p] == AllNtMutsCounts(tally, p)
  {
    if tally == map[] then Err(NoCountColumns)
    else Ok(map p | p in tally :: AllNtMutsCounts(tally, p))
  }

  /**
   * On the tally the loops build from the rows, line 82 fails exactly when
   * there is no row, and otherwise gives at every position the CNT of the
   * rows with one to three changes there.
   */
  lemma AllNtMutsColumnOfRows(rows: seq<CodonRow>, changes: seq<nat>, tally: map<int, map<nat, int>>)
    requires |changes| == |rows|
    requires tally.Keys == Positions(rows)
    requires forall p :: p in tally ==> tally[p].Keys == {1, 2, 3}
    requires forall p, c :: p in tally && c in tally[p] ==> tally[p][c] == SumCntIn(rows, changes, p, {c})
    ensures AllNtMutsColumn(tally).Err? <==> rows == []
    ensures AllNtMutsColumn(tally).Ok? ==>
      forall p :: p in tally ==> AllNtMutsColumn(tally).value[p] == SumCntIn(rows, changes, p, {1, 2, 3})
  {
    if rows != [] {
      assert rows[0].position in Positions(rows);
    }
    forall p | p in tally
      ensures AllNtMutsCounts(tally, p) == SumCntIn(rows, changes, p, {1, 2, 3})
    {
      AllNtMutsCountsTotal(rows, changes, tally, p);
    }
  }

  /**
   * A codon table numbered from codon 1 on, under the default range: the
   * filtered table is empty, so the first summary stops with KeyError at
   * line 82 and the logo plots' `max()` would raise ValueError.
   */
  lemma DefaultRangeStopsAtFirstSummary(rows: seq<CodonRow>, minAlt: int, kept: seq<CodonRow>, tally: map<int, map<nat, int>>)
    requires forall i :: 0 <= i < |rows| ==> rows[i].position >= 1
    requires Filter(rows, minAlt, "0-0") == Ok(kept)
    requires tally.Keys == Positions(kept)
    requires forall p :: p in tally ==> tally[p].Keys == {1, 2, 3}
    ensures AllNtMutsColumn(tally) == Err(NoCountColumns)
    ensures EndPos(kept) == Err(NoPositions)
  {
    DefaultRangeKeepsNothing(rows, minAlt);
    assert Positions(kept) == {};
    assert tally == map[];
  }


  /** The synonymous, nonsynonymous and stop counts of a position add up to all of its CNT. */
  lemma AaTypeTallyPartition(rows: seq<CodonRow>, p: int)
    ensures var t := AaTypes(rows);
      SumCntIn(rows, t, p, {Synonymous}) + SumCntIn(rows, t, p, {Nonsynonymous}) + SumCntIn(rows, t, p, {Stop})
      == CntAt(rows, p)
  {
    var t := AaTypes(rows);
    SumCntInUnion(rows, t, p, {Synonymous}, {Nonsynonymous});
    assert {Synonymous} + {Nonsynonymous} == {Synonymous, Nonsynonymous};
    SumCntInUnion(rows, t, p, {Synonymous, Nonsynonymous}, {Stop});
    assert {Synonymous, Nonsynonymous} + {Stop} == {Synonymous, Nonsynonymous, Stop};
    SumCntInCovering(rows, t, p, {Synonymous, Nonsynonymous, Stop});
  }

  /**
   * No row kept by `nonSynOnly` is classified synonymous, so a synonymous
   * tally over the kept rows is zero at every position.
   */
  lemma NonSynonymousOnlyHasNoSynonymous(rows: seq<CodonRow>, p: int)
    ensures var kept := NonSynonymousOnly(rows);
      forall i :: 0 <= i < |kept| ==> AaTypes(kept)[i] != Synonymous
    ensures var kept := NonSynonymousOnly(rows);
      SumCntIn(kept, AaTypes(kept), p, {Synonymous}) == 0
  {
    var kept := NonSynonymousOnly(rows);
    forall i | 0 <= i < |kept|
      ensures AaTypes(kept)[i] !in {Synonymous}
    {
      assert kept[i] in kept;
    }
    SumCntInNone(kept, AaTypes(kept), p, {Synonymous});
  }

  /** The three aaType counts of one position. */
  datatype AaTypeCounts = AaTypeCounts(synonymous: int, nonsynonymous: int, stop: int)

  /** The synonymous, nonsynonymous and stop CNT totals of the rows at p. */
  function AaTypeCountsAt(rows: seq<CodonRow>, p: int): AaTypeCounts
  {
    var t := AaTypes(rows);
    AaTypeCounts(SumCntIn(rows, t, p, {Synonymous}), SumCntIn(rows, t, p, {Nonsynonymous}), SumCntIn(rows, t, p, {Stop}))
  }

  /**
   * The aaType panel as written: its loop walks the filtered tables again,
   * and `nonSynOnly` only rebinds the earlier loop's own `value`, so the
   * flag does not reach these counts.
   */
  function AaTypePanel(rows: seq<CodonRow>, nonSynOnly: bool, p: int): AaTypeCounts
  {
    AaTypeCountsAt(rows, p)
  }

  /** The aaType panel with `nonSynOnly` applied to the rows it tallies. */
  function CorrectedAaTypePanel(rows: seq<CodonRow>, nonSynOnly: bool, p: int): AaTypeCounts
  {
    AaTypeCountsAt(if nonSynOnly then NonSynonymousOnly(rows) else rows, p)
  }

  /** As written, the panel's counts are those of all rows, with or without `nonSynOnly`. */
  lemma AaTypePanelIgnoresNonSynOnly(rows: seq<CodonRow>, p: int)
    ensures AaTypePanel(rows, true, p) == AaTypePanel(rows, false, p)
    ensures AaTypePanel(rows, true, p).synonymous == SumCntIn(rows, AaTypes(rows), p, {Synonymous})
  {
  }

  /** A synonymous change counted 5 times at codon 1 still shows 5 synonymous counts under `nonSynOnly`. */
  lemma SynonymousCountedUnderNonSynOnly()
    ensures AaTypePanel([CodonRow(1, "GCT", "GCC", "A", "A", 5)], true, 1).synonymous == 5
  {
  }

  /** One more row adds its CNT to the count when it is at p and its category is in cs. */
  lemma SumCntInSnoc(rows: seq<CodonRow>, x: CodonRow, p: int, cs: set<AaType>)
    ensures SumCntIn(rows + [x], AaTypes(rows + [x]), p, cs)
         == SumCntIn(rows, AaTypes(rows), p, cs) + (if x.position == p && Classify(x) in cs then x.cnt else 0)
  {
    assert (rows + [x])[..|rows|] == rows;
    assert AaTypes(rows + [x])[..|rows|] == AaTypes(rows);
  }

  /**
   * Selecting rows does not change the count of any category set whose
   * rows the selection all keeps.
   */
  lemma {:induction false} SumCntInWhere(rows: seq<CodonRow>, keep: CodonRow -> bool, p: int, cs: set<AaType>)
    requires forall x :: Classify(x) in cs ==> keep(x)
    ensures var kept := Where(rows, keep);
      SumCntIn(kept, AaTypes(kept), p, cs) == SumCntIn(rows, AaTypes(rows), p, cs)
  {
    if rows != [] {
      var k := |rows| - 1;
      var front, x := rows[..k], rows[k];
      var kf := Where(front, keep);
      var add := if x.position == p && Classify(x) in cs then x.cnt else 0;
      assert rows == front + [x];
      WhereConcat(front, [x], keep);
      assert [x][1..] == [];
      var kept := kf + (if keep(x) then [x] else []);
      assert Where(rows, keep) == kept;
      SumCntInWhere(front, keep, p, cs);
      SumCntInSnoc(front, x, p, cs);
      assert SumCntIn(rows, AaTypes(rows), p, cs) == SumCntIn(kf, AaTypes(kf), p, cs) + add;
      if keep(x) {
        SumCntInSnoc(kf, x, p, cs);
      } else {
        assert kept == kf;
      }
    }
  }

  /**
   * With `nonSynOnly` applied, the panel has no synonymous counts and keeps
   * every nonsynonymous count; without the flag it is the panel as written.
   */
  lemma CorrectedAaTypePanelDropsSynonymous(rows: seq<CodonRow>, p: int)
    ensures CorrectedAaTypePanel(rows, true, p).synonymous == 0
    ensures CorrectedAaTypePanel(rows, true, p).nonsynonymous == AaTypePanel(rows, true, p).nonsynonymous
    ensures CorrectedAaTypePanel(rows, false, p) == AaTypePanel(rows, false, p)
  {
    NonSynonymousOnlyHasNoSynonymous(rows, p);
    SumCntInWhere(rows, (x: CodonRow) => x.refAa != x.aa, p, {Nonsynonymous});
  }

  // ---------------------------------------------------------------------
  // Amino-acid columns of the logo plots and diversity

  function AaColumn(rows: seq<CodonRow>): seq<string>
  {
    seq(|rows|, i requires 0 <= i < |rows| => rows[i].aa)
  }

  /** Every amino acid that occurs in the rows: `set(value['AA'])`. */
  function Aas(rows: seq<CodonRow>): set<string>
  {
    set i | 0 <= i < |rows| :: rows[i].aa
  }

  /**
   * The columns of the frequency logo: one per amino acid that occurs,
   * the stop column '.' renamed 'X', and 'X' dropped when stops are not
   * included, which raises KeyError when there is no 'X' column.
   */
  function LogoColumns(aas: set<string>, includeStop: bool): (r: Result<set<string>, StatsError>)
    ensures r.Err? <==> !includeStop && StopAa !in aas && "X" !in aas
    ensures r.Ok? && includeStop ==>
      && StopAa !in r.value
      && ("X" in r.value <==> StopAa in aas || "X" in aas)
      && r.value - {"X"} == aas - {StopAa, "X"}
    ensures r.Ok? && !includeStop ==> r.value == aas - {StopAa, "X"}
  {
    var renamed := if StopAa in aas then aas - {StopAa} + {"X"} else aas;
    if includeStop then Ok(renamed)
    else if "X" in renamed then Ok(renamed - {"X"})
    else Err(NoStopColumn)
  }

  /** The amino acids seen at position p: `set(value.loc[POSITION == p]['AA'])`. */
  function AasAt(rows: seq<CodonRow>, p: int): set<string>
  {
    if rows == [] then {}
    else
      var k := |rows| - 1;
      AasAt(rows[..k], p) + (if rows[k].position == p then {rows[k].aa} else {})
  }

  /** The number of rows at position p. */
  function RowsAt(rows: seq<CodonRow>, p: int): nat
  {
    if rows == [] then 0
    else
      var k := |rows| - 1;
      RowsAt(rows[..k], p) + (if rows[k].position == p then 1 else 0)
  }

  /** Every position that occurs shows at least one amino acid and at most one per row. */
  lemma {:induction false} DiversityBounds(rows: seq<CodonRow>, p: int)
    ensures |AasAt(rows, p)| <= RowsAt(rows, p)
    ensures p in Positions(rows) ==> |AasAt(rows, p)| >= 1
  {
    if rows != [] {
      var k := |rows| - 1;
      DiversityBounds(rows[..k], p);
      var before := AasAt(rows[..k], p);
      if rows[k].position == p {
        assert |before + {rows[k].aa}| <= |before| + 1;
        assert rows[k].aa in AasAt(rows, p);
      } else if p in Positions(rows) {
        var i :| 0 <= i < |rows| && rows[i].position == p;
        assert rows[..k][i] == rows[i];
        assert p in Positions(rows[..k]);
      }
    }
  }

  /** The diversity loop: for every position, the number of distinct amino acids seen there. */
  method AaDiversity(rows: seq<CodonRow>) returns (diversity: map<int, int>)
    ensures diversity.Keys == Positions(rows)
    ensures forall p :: p in diversity ==> diversity[p] == |AasAt(rows, p)|
  {
    diversity := map[];
    var todo := Positions(rows);
    while todo != {}
      invariant todo <= Positions(rows)
      invariant diversity.Keys == Positions(rows) - todo
      invariant forall p :: p in diversity ==> diversity[p] == |AasAt(rows, p)|
      decreases |todo|
    {
      var p :| p in todo;
      var seen: set<string> := {};
      for i := 0 to |rows|
        invariant seen == AasAt(rows[..i], p)
      {
        assert rows[..i + 1][..i] == rows[..i];
        if rows[i].position == p {
          seen := seen + {rows[i].aa};
        }
      }
      assert rows[..|rows|] == rows;
      diversity := diversity[p := |seen|];
      todo := todo - {p};
    }
  }

  // ---------------------------------------------------------------------
  // Logo rows and the E2/E3 band

  /** The first codon of logo row i: 9, then one past the previous row's end. */
  function LogoRowStart(i: nat): int
  {
    if i == 0 then FirstRowStart else FirstRowEnd + Increment * (i - 1) + 1
  }

  /** The last codon of logo row i: 50, then 41 more each row, with no clamping. */
  function LogoRowEnd(i: nat): int
  {
    FirstRowEnd + Increment * i
  }

  datatype LogoRow = LogoRow(start: int, end: int, marks: seq<Mark>)

  const E3Start := 9
  const E3End := 72
  const E2Start := 73
  const E2End := 397

  /**
   * `min` and `max` of `set(range(lo, hi + 1)) & set(range(start, end + 1))`,
   * or None where `min` of the empty intersection raises ValueError.
   */
  function Clip(lo: int, hi: int, start: int, end: int): (r: Option<(int, int)>)
    ensures r.Some? ==> lo <= r.value.0 <= r.value.1 <= hi && start <= r.value.0 <= r.value.1 <= end
    ensures r.None? ==> hi < lo || end < start || hi < start || end < lo
  {
    var a, b := Max(lo, start), Min(hi, end);
    if a <= b then Some((a, b)) else None
  }

  /** The clipped range holds exactly the codons in both ranges. */
  lemma ClipIsIntersection(lo: int, hi: int, start: int, end: int, x: int)
    ensures (lo <= x <= hi && start <= x <= end) <==>
      (Clip(lo, hi, start, end).Some? && Clip(lo, hi, start, end).value.0 <= x <= Clip(lo, hi, start, end).value.1)
  {
  }

  /** A region's bar from the smallest to one past the largest codon of the overlap, labelled at its middle. */
  function RegionMark(lo: int, hi: int, start: int, end: int, color: string, name: string): seq<Mark>
  {
    match Clip(lo, hi, start, end)
    case None => []
    case Some((a, b)) => [Mark(a, b + 1, (a + b) as real / 2.0, color, name)]
  }

  /** The annotation of the row [start, end]: E2's bar first, then E3's. */
  function E2E3Marks(start: int, end: int): seq<Mark>
  {
    RegionMark(E2Start, E2End, start, end, "lightblue", "E2") + RegionMark(E3Start, E3End, start, end, "lightgreen", "E3")
  }

  /**
   * Within a row, the two bars meet: when both are drawn, E3's bar stops
   * where E2's starts.
   */
  lemma E2E3BarsMeet(start: int, end: int)
    requires |E2E3Marks(start, end)| == 2
    ensures E2E3Marks(start, end)[1].barEnd == E2E3Marks(start, end)[0].barStart == E2Start
  {
  }

  /** The first row shows E3 only, the second both, the tenth E2 only. */
  lemma E2E3Examples()
    ensures E2E3Marks(9, 50) == [Mark(9, 51, 29.5, "lightgreen", "E3")]
    ensures E2E3Marks(51, 91) == [Mark(73, 92, 82.0, "lightblue", "E2"), Mark(51, 73, 61.5, "lightgreen", "E3")]
    ensures E2E3Marks(379, 419) == [Mark(379, 398, 388.0, "lightblue", "E2")]
  {
  }

  /**
   * `max(mut_freqs_df.index)`: the largest position the rows hold, or
   * ValueError when there is none.
   */
  function EndPos(rows: seq<CodonRow>): (r: Result<int, StatsError>)
    ensures r.Err? <==> rows == []
    ensures r.Err? ==> r.error == NoPositions
    ensures r.Ok? ==> r.value in Positions(rows) && forall i :: 0 <= i < |rows| ==> rows[i].position <= r.value
  {
    if rows == [] then Err(NoPositions)
    else
      var k := |rows| - 1;
      var front := EndPos(rows[..k]);
      assert forall j :: 0 <= j < k ==> rows[..k][j] == rows[j];
      assert Positions(rows[..k]) <= Positions(rows);
      if front.Ok? && front.value >= rows[k].position then Ok(front.value) else Ok(rows[k].position)
  }

  /**
   * The row loop of the two amino-acid logo plots: RowCount(maxIndex) rows,
   * each starting one past the previous one's end and 41 codons long after
   * the first, with the E2/E3 band when annotation is on.
   */
  method LogoRows(maxIndex: int, annot: bool) returns (rows: seq<LogoRow>)
    ensures |rows| == Max(0, RowCount(maxIndex))
    ensures forall i :: 0 <= i < |rows| ==>
      rows[i] == LogoRow(LogoRowStart(i), LogoRowEnd(i), if annot then E2E3Marks(LogoRowStart(i), LogoRowEnd(i)) else [])
  {
    var start, end := FirstRowStart, FirstRowEnd;
    rows := [];
    for i := 0 to Max(0, RowCount(maxIndex))
      invariant start == LogoRowStart(i) && end == LogoRowEnd(i)
      invariant |rows| == i
      invariant forall j :: 0 <= j < i ==>
        rows[j] == LogoRow(LogoRowStart(j), LogoRowEnd(j), if annot then E2E3Marks(LogoRowStart(j), LogoRowEnd(j)) else [])
    {
      var marks := if annot then E2E3Marks(start, end) else [];
      rows := rows + [LogoRow(start, end, marks)];
      start := end + 1;
      end := end + Increment;
    }
  }

  /**
   * The logo rows of a tallied table: its largest position, then the row
   * loop up to it; a table with no row stops at `max()` with ValueError.
   */
  method LogoRowsOf(table: seq<CodonRow>, annot: bool) returns (r: Result<seq<LogoRow>, StatsError>)
    ensures r.Err? <==> table == []
    ensures r.Err? ==> r.error == NoPositions
    ensures r.Ok? ==>
      var maxIndex := EndPos(table).value;
      && |r.value| == Max(0, RowCount(maxIndex))
      && forall i :: 0 <= i < |r.value| ==>
           r.value[i] == LogoRow(LogoRowStart(i), LogoRowEnd(i), if annot then E2E3Marks(LogoRowStart(i), LogoRowEnd(i)) else [])
  {
    var endPos := EndPos(table);
    if endPos.Err? {
      return Err(endPos.error);
    }
    var rows := LogoRows(endPos.value, annot);
    r := Ok(rows);
  }

  /**
   * The logo rows tile the codons from 9 on: each starts one past the
   * previous one's end, the first holds 42 codons and the others 41, and
   * together they reach the largest position. As with the annotation plot,
   * the last row lies wholly past the largest position exactly when that
   * position is 50 or more and a whole number of row widths past 9.
   */
  lemma LogoRowsTile(maxIndex: int, i: nat)
    requires maxIndex >= FirstRowStart
    ensures LogoRowStart(i + 1) == LogoRowEnd(i) + 1
    ensures LogoRowEnd(i) - LogoRowStart(i) + 1 == if i == 0 then Increment + 1 else Increment
    ensures LogoRowEnd(RowCount(maxIndex) - 1) >= maxIndex
    ensures LogoRowStart(RowCount(maxIndex) - 1) > maxIndex <==>
      maxIndex >= FirstRowEnd && (maxIndex - FirstRowStart) % Increment == 0
  {
  }
}
