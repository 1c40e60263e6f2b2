// The reference table and variant annotation of code/translations_and_merging.py.
//
// The script reads the reference sequence and a ragged tab-separated variant
// file, pads the variant lines to a common width, names their columns, drops
// the first data line, sums the reads of every line and then, for each
// variant slot of a line, computes the allele fraction and the codon the
// variant nucleotide makes in the reference reading frame.

module VariantMerge {
  import opened Common
  import opened Text

  // ---------------------------------------------------------------------
  // The reference table

  /** One entry of `refInfo`: the reference base and its 0-based place in its codon. */
  datatype RefBase = RefBase(base: char, codonPos: int)

  /** The first reference position of the region of interest (1-based). */
  const RegionStart := 9820
  /** The last reference position of the region of interest (1-based). */
  const RegionEnd := 11038
  /** The first position of the first codon of the reading frame. */
  const FrameStart := 9821

  /** Python's slice `s[lo:hi]` for 0 <= lo <= hi: both bounds are clamped to the length. */
  function Slice<T>(s: seq<T>, lo: nat, hi: nat): (r: seq<T>)
    requires lo <= hi
    ensures |r| == Min(hi, |s|) - Min(lo, |s|)
    ensures forall k :: 0 <= k < |r| ==> r[k] == s[lo + k]
  {
    s[Min(lo, |s|)..Min(hi, |s|)]
  }

  /** The place of position p in its codon; the frame starts at 9821. */
  function Phase(p: int): (c: int)
    ensures 0 <= c < 3
  {
    (p - FrameStart) % 3
  }

  /** Python's `str(n)` for any integer. */
  function IntToString(n: int): string
  {
    if n < 0 then "-" + NatToString(-n) else NatToString(n)
  }

  /**
   * The table the loop builds from bases, the first of them at position
   * start: each position's decimal string maps to its base and phase.
   */
  function RefTable(bases: string, start: nat): map<string, RefBase>
  {
    if bases == [] then map[]
    else
      var k := |bases| - 1;
      RefTable(bases[..k], start)[NatToString(start + k) := RefBase(bases[k], Phase(start + k))]
  }

  /** The phase counter's update: 2 is followed by 0, every other phase by its successor. */
  lemma PhaseNext(p: int)
    ensures Phase(p + 1) == if Phase(p) == 2 then 0 else Phase(p) + 1
  {
  }

  /**
   * The loop over `enumerate(refSeq[9819:11038], start = 9820)`: the phase
   * counter starts at 2 and steps 2, 0, 1, 2, 0, ...
   */
  method BuildRefInfo(refSeq: string) returns (refInfo: map<string, RefBase>)
    ensures refInfo == RefTable(Slice(refSeq, RegionStart - 1, RegionEnd), RegionStart)
    ensures IsRefTable(refInfo, Slice(refSeq, RegionStart - 1, RegionEnd), RegionStart)
  {
    var region := Slice(refSeq, RegionStart - 1, RegionEnd);
    refInfo := map[];
    var codonPosStart := 2;
    for k := 0 to |region|
      invariant refInfo == RefTable(region[..k], RegionStart)
      invariant codonPosStart == Phase(RegionStart + k)
    {
      assert region[..k + 1][..k] == region[..k];
      PhaseNext(RegionStart + k);
      refInfo := refInfo[NatToString(RegionStart + k) := RefBase(region[k], codonPosStart)];
      if codonPosStart == 2 {
        codonPosStart := 0;
      } else {
        codonPosStart := codonPosStart + 1;
      }
    }
    assert region[..|region|] == region;
    RefTableContents(region, RegionStart);
  }

  /** A negative number's string is never a key: it starts with a sign, keys with a digit. */
  lemma IntToStringMatchesNat(n: int, q: nat)
    requires IntToString(n) == NatToString(q)
    ensures n == q
  {
    if n >= 0 {
      NatToStringInjective(n, q);
    }
  }

  /**
   * The table holds the string of position n exactly when n lies in the
   * region, and then holds the base at n and n's phase.
   */
  lemma {:induction false} RefTableLookup(bases: string, start: nat, n: int)
    ensures IntToString(n) in RefTable(bases, start) <==> start <= n < start + |bases|
    ensures start <= n < start + |bases| ==>
      RefTable(bases, start)[IntToString(n)] == RefBase(bases[n - start], Phase(n))
  {
    if bases != [] {
      var k := |bases| - 1;
      RefTableLookup(bases[..k], start, n);
      if IntToString(n) == NatToString(start + k) {
        IntToStringMatchesNat(n, start + k);
      } else if n == start + k {
        assert false;
      }
    }
  }

  /**
   * What the table holds, key by key: the string of position n is a key
   * exactly for n in the region, and maps to the base at n and n's phase.
   */
  ghost predicate IsRefTable(table: map<string, RefBase>, bases: string, start: nat)
  {
    forall n: int ::
      && (IntToString(n) in table <==> start <= n < start + |bases|)
      && (start <= n < start + |bases| ==> table[IntToString(n)] == RefBase(bases[n - start], Phase(n)))
  }

  /** The table the loop builds holds exactly that. */
  lemma RefTableContents(bases: string, start: nat)
    ensures IsRefTable(RefTable(bases, start), bases, start)
  {
    forall n: int
      ensures && (IntToString(n) in RefTable(bases, start) <==> start <= n < start + |bases|)
              && (start <= n < start + |bases| ==> RefTable(bases, start)[IntToString(n)] == RefBase(bases[n - start], Phase(n)))
    {
      RefTableLookup(bases, start, n);
    }
  }

  /** Every key of the table is the string of a position in the region. */
  lemma {:induction false} RefTableKeys(bases: string, start: nat, key: string)
    requires key in RefTable(bases, start)
    ensures exists q :: start <= q < start + |bases| && key == NatToString(q)
  {
    var k := |bases| - 1;
    if key != NatToString(start + k) {
      RefTableKeys(bases[..k], start, key);
    }
  }

  /** The table has one key per base. */
  lemma {:induction false} RefTableSize(bases: string, start: nat)
    ensures |RefTable(bases, start).Keys| == |bases|
  {
    if bases != [] {
      var k := |bases| - 1;
      RefTableSize(bases[..k], start);
      if NatToString(start + k) in RefTable(bases[..k], start) {
        RefTableKeys(bases[..k], start, NatToString(start + k));
        var q :| start <= q < start + k && NatToString(start + k) == NatToString(q);
        NatToStringInjective(start + k, q);
      }
    }
  }

  /**
   * With a reference of at least 11038 bases, the table covers the 1219
   * positions 9820..11038; position 9820 is the last base of a codon and the
   * phases then cycle 0, 1, 2.
   */
  lemma RefInfoShape(refSeq: string, p: int)
    requires |refSeq| >= RegionEnd
    ensures |RefTable(Slice(refSeq, RegionStart - 1, RegionEnd), RegionStart).Keys| == 1219
    ensures Phase(RegionStart) == 2 && Phase(FrameStart) == 0
    ensures Phase(p + 1) == (if Phase(p) == 2 then 0 else Phase(p) + 1)
  {
    RefTableSize(Slice(refSeq, RegionStart - 1, RegionEnd), RegionStart);
  }

  // ---------------------------------------------------------------------
  // Reading and padding the variant lines

  /** `line.strip().split('\t')`. */
  function Fields(line: string): seq<string>
  {
    SplitOn(Strip(line), '\t')
  }

  /** The largest width, or 0 for no rows. */
  predicate IsMaxWidth(rows: seq<seq<string>>, w: nat)
  {
    && (forall i :: 0 <= i < |rows| ==> |rows[i]| <= w)
    && (if rows == [] then w == 0 else exists i :: 0 <= i < |rows| && |rows[i]| == w)
  }

  /** The widest row's width. */
  function MaxWidth(rows: seq<seq<string>>): (w: nat)
    ensures IsMaxWidth(rows, w)
  {
    if rows == [] then 0
    else
      var k := |rows| - 1;
      var w := MaxWidth(rows[..k]);
      assert forall i :: 0 <= i < k ==> rows[..k][i] == rows[i];
      if |rows[k]| > w then |rows[k]| else w
  }

  /** One more row widens the maximum to that row's width, if it is wider. */
  lemma MaxWidthStep(rows: seq<seq<string>>, row: seq<string>)
    ensures MaxWidth(rows + [row]) == Max(MaxWidth(rows), |row|)
  {
    assert (rows + [row])[..|rows|] == rows;
  }

  /** The lines split into fields. */
  function Split(lines: seq<string>): (rows: seq<seq<string>>)
    ensures |rows| == |lines| && forall i :: 0 <= i < |lines| ==> rows[i] == Fields(lines[i])
  {
    seq(|lines|, i requires 0 <= i < |lines| => Fields(lines[i]))
  }

  /** The reading loop: split every line and keep the running maximum of the field counts. */
  method ReadVariants(lines: seq<string>) returns (rows: seq<seq<string>>, maxPad: nat)
    ensures rows == Split(lines)
    ensures maxPad == MaxWidth(rows)
  {
    rows := [];
    maxPad := 0;
    for i := 0 to |lines|
      invariant |rows| == i && forall j :: 0 <= j < i ==> rows[j] == Fields(lines[j])
      invariant maxPad == MaxWidth(rows)
    {
      var fields := Fields(lines[i]);
      if |fields| > maxPad {
        maxPad := |fields|;
      }
      MaxWidthStep(rows, fields);
      rows := rows + [fields];
    }
    assert rows == Split(lines);
  }

  /** `k` empty fields. */
  function Blanks(k: nat): (r: seq<string>)
    ensures |r| == k && forall j :: 0 <= j < k ==> r[j] == ""
  {
    seq(k, _ => "")
  }

  /**
   * A row extended with empty fields up to width w: the old fields are an
   * unchanged prefix, only empty fields are added, and a row already as wide
   * is left alone.
   */
  function Padded(row: seq<string>, w: nat): (r: seq<string>)
    ensures |r| == Max(|row|, w)
    ensures r[..|row|] == row
    ensures forall j :: |row| <= j < |r| ==> r[j] == ""
  {
    if |row| < w then row + Blanks(w - |row|) else row
  }

  /** The padding loop: every row shorter than maxPad is extended in place. */
  method PadRows(rows: array<seq<string>>, maxPad: nat)
    modifies rows
    ensures forall i :: 0 <= i < rows.Length ==> rows[i] == Padded(old(rows[i]), maxPad)
  {
    for i := 0 to rows.Length
      invariant forall j :: 0 <= j < i ==> rows[j] == Padded(old(rows[j]), maxPad)
      invariant forall j :: i <= j < rows.Length ==> rows[j] == old(rows[j])
    {
      if |rows[i]| < maxPad {
        var reps := maxPad - |rows[i]|;
        rows[i] := rows[i] + Blanks(reps);
      }
    }
  }

  /** The rows copied into a buffer and padded there to width maxPad. */
  method PadAll(rows: seq<seq<string>>, maxPad: nat) returns (padded: seq<seq<string>>)
    ensures padded == seq(|rows|, i requires 0 <= i < |rows| => Padded(rows[i], maxPad))
  {
    var buffer := new seq<string>[|rows|](i requires 0 <= i < |rows| => rows[i]);
    assert buffer[..] == rows;
    PadRows(buffer, maxPad);
    padded := buffer[..];
  }

  /** After padding to the largest width, every row has exactly that width. */
  lemma PaddedToMaxWidth(rows: seq<seq<string>>, maxPad: nat, i: int)
    requires IsMaxWidth(rows, maxPad) && 0 <= i < |rows|
    ensures |Padded(rows[i], maxPad)| == maxPad
  {
  }

  // ---------------------------------------------------------------------
  // Column names

  /** `reps = int((maxPad - 2) / 4)`, the number of variant slots per line. */
  function Reps(maxPad: nat): (r: nat)
    ensures maxPad >= 2 ==> 4 * r <= maxPad - 2 < 4 * (r + 1)
    ensures maxPad < 2 ==> r == 0
  {
    TruncDiv(maxPad - 2, 4)
  }

  /** The four column names of slot i. */
  function SlotColumns(i: nat): seq<string>
  {
    var n := NatToString(i);
    ["variant_" + n, "total_reads_" + n, "avg_read_qual_" + n, "posterior_probability_" + n]
  }

  /** The header for `reps` slots. */
  function HeaderFor(reps: nat): (h: seq<string>)
    ensures |h| == 2 + 4 * reps
    ensures h[..2] == ["chrom", "pos"]
    ensures forall i :: 0 <= i < reps ==> h[2 + 4 * i..6 + 4 * i] == SlotColumns(i)
  {
    if reps == 0 then ["chrom", "pos"]
    else
      var h := HeaderFor(reps - 1) + SlotColumns(reps - 1);
      assert h[..2] == HeaderFor(reps - 1)[..2];
      assert forall i :: 0 <= i < reps - 1 ==> h[2 + 4 * i..6 + 4 * i] == HeaderFor(reps - 1)[2 + 4 * i..6 + 4 * i];
      h
  }

  /** The header loop: `chrom`, `pos`, then four names per slot. */
  method BuildHeader(maxPad: nat) returns (header: seq<string>)
    ensures header == HeaderFor(Reps(maxPad))
  {
    header := ["chrom", "pos"];
    var reps := Reps(maxPad);
    for i := 0 to reps
      invariant header == HeaderFor(i)
    {
      header := header + SlotColumns(i);
    }
  }

  /**
   * The padded rows fit the header, so the frame can be built, exactly when
   * the widest line holds `chrom`, `pos` and whole slots of four fields.
   */
  lemma HeaderFitsIff(maxPad: nat)
    ensures |HeaderFor(Reps(maxPad))| == maxPad <==> maxPad >= 2 && (maxPad - 2) % 4 == 0
  {
  }

  // ---------------------------------------------------------------------
  // Read totals

  /** The exceptions of the annotation steps. */
  datatype MergeError =
    | NotAnInteger(field: string)      // ValueError from `int()`
    | DivisionByZero                   // ZeroDivisionError: a line whose reads sum to 0
    | MissingPosition(key: string)     // KeyError from `refInfo[...]`
    | FrameShape(names: nat, width: nat) // the padded width does not match the header
    | MissingColumns                   // KeyError: no `base`/`codonPos` columns after the merge

  /** The sum of the non-empty `total_reads_i` fields of slots i < n of a line. */
  function ReadTotal(row: seq<string>, n: nat): (r: Result<int, MergeError>)
    requires 2 + 4 * n <= |row|
  {
    if n == 0 then Ok(0)
    else
      var prev := ReadTotal(row, n - 1);
      var field := row[3 + 4 * (n - 1)];
      if prev.Err? then prev
      else if field == "" then prev
      else
        var counts := ParseInt(field);
        if counts.None? then Err(NotAnInteger(field)) else Ok(prev.value + counts.value)
  }

  /** Empty fields add nothing: a line whose slots are all empty has no counts. */
  lemma {:induction false} EmptySlotsHaveNoReads(row: seq<string>, n: nat)
    requires 2 + 4 * n <= |row|
    requires forall i :: 0 <= i < n ==> row[3 + 4 * i] == ""
    ensures ReadTotal(row, n) == Ok(0)
  {
    if n > 0 {
      EmptySlotsHaveNoReads(row, n - 1);
    }
  }

  /** Padding a line adds no counts. */
  lemma {:induction false} PaddingAddsNoReads(row: seq<string>, w: nat, n: nat)
    requires 2 + 4 * n <= |row|
    ensures ReadTotal(Padded(row, w), n) == ReadTotal(row, n)
  {
    if n > 0 {
      PaddingAddsNoReads(row, w, n - 1);
      assert Padded(row, w)[3 + 4 * (n - 1)] == row[3 + 4 * (n - 1)];
    }
  }

  /** A line's reads are its slots' reads added up, one slot at a time. */
  lemma {:induction false} ReadTotalOfNumerals(row: seq<string>, n: nat, counts: seq<nat>)
    requires 2 + 4 * n <= |row| && |counts| == n
    requires forall i :: 0 <= i < n ==> row[3 + 4 * i] == NatToString(counts[i])
    ensures ReadTotal(row, n) == Ok(SumOf(counts))
  {
    if n > 0 {
      var prefix := counts[..n - 1];
      forall i | 0 <= i < n - 1
        ensures row[3 + 4 * i] == NatToString(prefix[i])
      {
        assert prefix[i] == counts[i];
      }
      ReadTotalOfNumerals(row, n - 1, prefix);
      var sum := SumOf(prefix) + counts[n - 1];
      ReadTotalStep(row, n, SumOf(prefix), counts[n - 1]);
      assert SumOf(counts) == sum;
    } else {
      assert counts == [];
    }
  }

  /** A slot whose reads field is the numeral of c adds c to the line's reads. */
  lemma ReadTotalStep(row: seq<string>, n: nat, before: int, c: nat)
    requires 0 < n && 2 + 4 * n <= |row|
    requires ReadTotal(row, n - 1) == Ok(before) && row[3 + 4 * (n - 1)] == NatToString(c)
    ensures ReadTotal(row, n) == Ok(before + c)
  {
    ParseIntOfNatToString(c);
  }

  function SumOf(xs: seq<nat>): nat
  {
    if xs == [] then 0 else SumOf(xs[..|xs| - 1]) + xs[|xs| - 1]
  }

  /** The sum over the `total_reads*` fields of one line, slot by slot. */
  method LineTotal(row: seq<string>, reps: nat) returns (r: Result<int, MergeError>)
    requires 2 + 4 * reps <= |row|
    ensures r == ReadTotal(row, reps)
  {
    var sum := 0;
    for s := 0 to reps
      invariant ReadTotal(row, s) == Ok(sum)
    {
      var field := row[3 + 4 * s];
      if field != "" {
        var counts := ParseInt(field);
        if counts.None? {
          EarlyErrorStays(row, s + 1, reps);
          return Err(NotAnInteger(field));
        }
        sum := sum + counts.value;
      }
    }
    r := Ok(sum);
  }

  /** Every line's total, or the error of the first line whose total fails. */
  function Totals(rows: seq<seq<string>>, reps: nat): Result<seq<int>, MergeError>
    requires forall i :: 0 <= i < |rows| ==> 2 + 4 * reps <= |rows[i]|
  {
    if rows == [] then Ok([])
    else
      var k := |rows| - 1;
      var done := Totals(rows[..k], reps);
      var last := ReadTotal(rows[k], reps);
      if done.Err? then done
      else if last.Err? then Err(last.error)
      else Ok(done.value + [last.value])
  }

  /**
   * The totals succeed exactly when every line's total does, and then hold
   * each line's total in order; otherwise the error is that of the first
   * line that fails.
   */
  lemma TotalsShape(rows: seq<seq<string>>, reps: nat)
    requires forall i :: 0 <= i < |rows| ==> 2 + 4 * reps <= |rows[i]|
    ensures var r := Totals(rows, reps);
      && (r.Ok? <==> forall i :: 0 <= i < |rows| ==> ReadTotal(rows[i], reps).Ok?)
      && (r.Ok? ==> |r.value| == |rows| && forall i :: 0 <= i < |rows| ==> Ok(r.value[i]) == ReadTotal(rows[i], reps))
      && (r.Err? ==> exists i :: 0 <= i < |rows| && ReadTotal(rows[i], reps) == Err(r.error)
                       && forall j :: 0 <= j < i ==> ReadTotal(rows[j], reps).Ok?)
  {
    TotalsOk(rows, reps);
    TotalsFirstError(rows, reps);
  }

  /** Successful totals hold every line's total, in order, and only lines whose totals succeed give them. */
  lemma {:induction false} TotalsOk(rows: seq<seq<string>>, reps: nat)
    requires forall i :: 0 <= i < |rows| ==> 2 + 4 * reps <= |rows[i]|
    ensures var r := Totals(rows, reps);
      && ((forall i :: 0 <= i < |rows| ==> ReadTotal(rows[i], reps).Ok?) ==> r.Ok?)
      && (r.Ok? ==> |r.value| == |rows| && forall i :: 0 <= i < |rows| ==> Ok(r.value[i]) == ReadTotal(rows[i], reps))
  {
    if rows != [] {
      var k := |rows| - 1;
      var front := rows[..k];
      TotalsOk(front, reps);
      assert forall i :: 0 <= i < k ==> front[i] == rows[i];
    }
  }

  /** Failing totals carry the error of the first line whose total fails. */
  lemma {:induction false} TotalsFirstError(rows: seq<seq<string>>, reps: nat)
    requires forall i :: 0 <= i < |rows| ==> 2 + 4 * reps <= |rows[i]|
    ensures var r := Totals(rows, reps);
      r.Err? ==> exists i :: 0 <= i < |rows| && ReadTotal(rows[i], reps) == Err(r.error)
                   && forall j :: 0 <= j < i ==> ReadTotal(rows[j], reps).Ok?
  {
    if rows != [] {
      var k := |rows| - 1;
      var front := rows[..k];
      TotalsFirstError(front, reps);
      TotalsOk(front, reps);
      var done := Totals(front, reps);
      if done.Err? {
        var i :| 0 <= i < k && ReadTotal(front[i], reps) == Err(done.error)
                 && forall j :: 0 <= j < i ==> ReadTotal(front[j], reps).Ok?;
        assert front[i] == rows[i];
        assert forall j :: 0 <= j < i ==> front[j] == rows[j];
      } else {
        assert forall j :: 0 <= j < k ==> front[j] == rows[j];
      }
    }
  }

  /** The loop filling `total_reads`, line by line; a field that is not a number raises. */
  method ComputeTotals(rows: seq<seq<string>>, reps: nat) returns (r: Result<seq<int>, MergeError>)
    requires forall i :: 0 <= i < |rows| ==> 2 + 4 * reps <= |rows[i]|
    ensures r == Totals(rows, reps)
  {
    var totals: seq<int> := [];
    for i := 0 to |rows|
      invariant Totals(rows[..i], reps) == Ok(totals)
    {
      assert rows[..i + 1][..i] == rows[..i];
      var total := LineTotal(rows[i], reps);
      if total.Err? {
        TotalsStopAtError(rows, reps, i + 1);
        return Err(total.error);
      }
      totals := totals + [total.value];
    }
    assert rows[..|rows|] == rows;
    r := Ok(totals);
  }

  /** An error in the totals of the first m lines is the error of all of them. */
  lemma {:induction false} TotalsStopAtError(rows: seq<seq<string>>, reps: nat, m: nat)
    requires m <= |rows|
    requires forall i :: 0 <= i < |rows| ==> 2 + 4 * reps <= |rows[i]|
    requires Totals(rows[..m], reps).Err?
    ensures Totals(rows, reps) == Totals(rows[..m], reps)
    decreases |rows| - m
  {
    if m < |rows| {
      var k := |rows| - 1;
      assert rows[..k][..m] == rows[..m];
      TotalsStopAtError(rows[..k], reps, m);
    } else {
      assert rows[..m] == rows;
    }
  }

  /** Once a slot's field fails to read, the line's total fails with the same error. */
  lemma {:induction false} EarlyErrorStays(row: seq<string>, m: nat, n: nat)
    requires m <= n && 2 + 4 * n <= |row|
    requires ReadTotal(row, m).Err?
    ensures ReadTotal(row, n) == ReadTotal(row, m)
    decreases n - m
  {
    if m < n {
      EarlyErrorStays(row, m, n - 1);
    }
  }

  // ---------------------------------------------------------------------
  // Variant slots

  /**
   * The slots the while loop visits: from slot `from` on, up to the first
   * one at or past `reps` or whose variant field is empty.
   */
  function VisitedSlots(row: seq<string>, reps: nat, from: nat): (k: nat)
    requires 2 + 4 * reps <= |row| && from <= reps
    ensures from <= k <= reps
    ensures forall j :: from <= j < k ==> row[2 + 4 * j] != ""
    ensures k == reps || row[2 + 4 * k] == ""
    decreases reps - from
  {
    if from < reps && row[2 + 4 * from] != "" then VisitedSlots(row, reps, from + 1) else from
  }

  /** What one visited slot adds: the allele fraction and, for a nucleotide variant, its codon. */
  datatype Slot = Slot(af: real, codon: Option<string>)

  predicate IsNucleotide(v: string)
  {
    v == "A" || v == "T" || v == "G" || v == "C"
  }

  /** `refInfo[str(p)]['base']`, or KeyError. */
  function BaseAt(refInfo: map<string, RefBase>, p: int): (r: Result<char, MergeError>)
    ensures r.Ok? <==> IntToString(p) in refInfo
    ensures r.Ok? ==> r.value == refInfo[IntToString(p)].base
    ensures r.Err? ==> r.error == MissingPosition(IntToString(p))
  {
    var key := IntToString(p);
    if key in refInfo then Ok(refInfo[key].base) else Err(MissingPosition(key))
  }

  /**
   * The codon the variant v at position p makes, given p's phase: the
   * variant in place of the reference base at the phase's index, the two
   * other bases looked up in order; None for a phase outside 0..2.
   */
  function AssembleCodon(refInfo: map<string, RefBase>, p: int, phase: int, v: string): Result<Option<string>, MergeError>
  {
    var (i, j) := if phase == 0 then (1, 2) else if phase == 1 then (-1, 1) else (-2, -1);
    if phase !in {0, 1, 2} then Ok(None)
    else
      var first := BaseAt(refInfo, p + i);
      var second := BaseAt(refInfo, p + j);
      if first.Err? then Err(first.error)
      else if second.Err? then Err(second.error)
      else if phase == 0 then Ok(Some(v + [first.value] + [second.value]))
      else if phase == 1 then Ok(Some([first.value] + v + [second.value]))
      else Ok(Some([first.value] + [second.value] + v))
  }

  /**
   * Slot i of a line whose reads sum to total: `int(total_reads_i) / total`,
   * then, for a nucleotide variant, the lookup of the line's position and
   * the codon assembly.
   */
  function SlotAt(refInfo: map<string, RefBase>, row: seq<string>, total: int, i: nat): Result<Slot, MergeError>
    requires 6 + 4 * i <= |row|
  {
    var v := row[2 + 4 * i];
    var readsField := row[3 + 4 * i];
    var counts := ParseInt(readsField);
    if counts.None? then Err(NotAnInteger(readsField))
    else if total == 0 then Err(DivisionByZero)
    else
      var af := counts.value as real / total as real;
      if !IsNucleotide(v) then Ok(Slot(af, None))
      else if row[1] !in refInfo then Err(MissingPosition(row[1]))
      else
        var p := ParseInt(row[1]);
        if p.None? then Err(NotAnInteger(row[1]))
        else
          var codon := AssembleCodon(refInfo, p.value, refInfo[row[1]].codonPos, v);
          if codon.Err? then Err(codon.error) else Ok(Slot(af, codon.value))
  }

  /** The visited slots of a line from slot `from` on, or the first error among them. */
  function SlotsFrom(refInfo: map<string, RefBase>, row: seq<string>, reps: nat, total: int, from: nat): Result<seq<Slot>, MergeError>
    requires 2 + 4 * reps <= |row| && from <= reps
    decreases reps - from
  {
    if from < reps && row[2 + 4 * from] != "" then
      var s := SlotAt(refInfo, row, total, from);
      var rest := SlotsFrom(refInfo, row, reps, total, from + 1);
      if s.Err? then Err(s.error)
      else if rest.Err? then rest
      else Ok([s.value] + rest.value)
    else Ok([])
  }

  /** When the slots of a line can all be annotated, there is one result per visited slot. */
  lemma {:induction false} SlotsFromCount(refInfo: map<string, RefBase>, row: seq<string>, reps: nat, total: int, from: nat)
    requires 2 + 4 * reps <= |row| && from <= reps
    requires SlotsFrom(refInfo, row, reps, total, from).Ok?
    ensures |SlotsFrom(refInfo, row, reps, total, from).value| == VisitedSlots(row, reps, from) - from
    decreases reps - from
  {
    if from < reps && row[2 + 4 * from] != "" {
      SlotsFromCount(refInfo, row, reps, total, from + 1);
    }
  }

  /** ... and the results are those of the visited slots, in slot order. */
  lemma {:induction false} SlotsFromValues(refInfo: map<string, RefBase>, row: seq<string>, reps: nat, total: int, from: nat, j: nat)
    requires 2 + 4 * reps <= |row| && from <= reps && from <= j < VisitedSlots(row, reps, from)
    requires SlotsFrom(refInfo, row, reps, total, from).Ok?
    ensures j - from < |SlotsFrom(refInfo, row, reps, total, from).value|
    ensures SlotAt(refInfo, row, total, j) == Ok(SlotsFrom(refInfo, row, reps, total, from).value[j - from])
    decreases reps - from
  {
    if j > from {
      SlotsFromValues(refInfo, row, reps, total, from + 1, j);
    }
  }

  /** Prepend the slots done so far to the outcome of the rest. */
  function Then(done: seq<Slot>, rest: Result<seq<Slot>, MergeError>): Result<seq<Slot>, MergeError>
  {
    if rest.Err? then rest else Ok(done + rest.value)
  }

  /** One step of the slot loop: a visited slot that annotates moves from the rest to what is done. */
  lemma SlotsStep(refInfo: map<string, RefBase>, row: seq<string>, reps: nat, total: int, from: nat, done: seq<Slot>)
    requires 2 + 4 * reps <= |row| && from < reps && row[2 + 4 * from] != ""
    requires SlotAt(refInfo, row, total, from).Ok?
    ensures Then(done, SlotsFrom(refInfo, row, reps, total, from))
      == Then(done + [SlotAt(refInfo, row, total, from).value], SlotsFrom(refInfo, row, reps, total, from + 1))
  {
    var rest := SlotsFrom(refInfo, row, reps, total, from + 1);
    if rest.Ok? {
      assert done + ([SlotAt(refInfo, row, total, from).value] + rest.value)
        == (done + [SlotAt(refInfo, row, total, from).value]) + rest.value;
    }
  }

  /** The while loop over the slots of one line. */
  method AnnotateRow(refInfo: map<string, RefBase>, row: seq<string>, reps: nat, total: int)
    returns (r: Result<seq<Slot>, MergeError>)
    requires 2 + 4 * reps <= |row|
    ensures r == SlotsFrom(refInfo, row, reps, total, 0)
  {
    var slots: seq<Slot> := [];
    var varNum := 0;
    var whole := SlotsFrom(refInfo, row, reps, total, 0);
    if whole.Ok? {
      assert [] + whole.value == whole.value;
    }
    while varNum < reps && row[2 + 4 * varNum] != ""
      invariant varNum <= reps
      invariant whole == Then(slots, SlotsFrom(refInfo, row, reps, total, varNum))
      decreases reps - varNum
    {
      var s := SlotAt(refInfo, row, total, varNum);
      if s.Err? {
        return Err(s.error);
      }
      SlotsStep(refInfo, row, reps, total, varNum, slots);
      slots := slots + [s.value];
      varNum := varNum + 1;
    }
    assert slots + [] == slots;
    r := Ok(slots);
  }

  // ---------------------------------------------------------------------
  // What the codon assembly computes on the reference table

  /**
   * On the table built from bases starting at `start`, the assembly for a
   * variant v at position p in the region succeeds exactly when p's whole
   * codon lies in the region; the codon is then the reference codon with v
   * in place of the base at p.
   */
  lemma AssembleInFrame(table: map<string, RefBase>, bases: string, start: nat, p: int, v: char)
    requires start <= p < start + |bases|
    requires IsRefTable(table, bases, start)
    ensures var r := AssembleCodon(table, p, Phase(p), [v]);
      var k := p - Phase(p) - start;
      && (r.Ok? <==> 0 <= k && k + 3 <= |bases|)
      && (r.Ok? ==> r.value == Some(bases[k..k + 3][Phase(p) := v]))
  {
    var phase := Phase(p);
    if phase == 0 {
      AssembleFirst(table, bases, start, p, v);
    } else if phase == 1 {
      AssembleMiddle(table, bases, start, p, v);
    } else {
      AssembleLast(table, bases, start, p, v);
    }
  }

  /** A variant that is the first base of its codon. */
  lemma AssembleFirst(table: map<string, RefBase>, bases: string, start: nat, p: int, v: char)
    requires start <= p < start + |bases|
    requires IsRefTable(table, bases, start)
    ensures var r := AssembleCodon(table, p, 0, [v]);
      var k := p - start;
      && (r.Ok? <==> k + 3 <= |bases|)
      && (r.Ok? ==> r.value == Some(bases[k..k + 3][0 := v]))
  {
    var k := p - start;
    assert IntToString(p + 1) in table <==> start <= p + 1 < start + |bases|;
    assert IntToString(p + 2) in table <==> start <= p + 2 < start + |bases|;
    if k + 3 <= |bases| {
      assert bases[k..k + 3][0 := v] == [v] + [bases[k + 1]] + [bases[k + 2]];
    }
  }

  /** A variant that is the middle base of its codon. */
  lemma AssembleMiddle(table: map<string, RefBase>, bases: string, start: nat, p: int, v: char)
    requires start <= p < start + |bases|
    requires IsRefTable(table, bases, start)
    ensures var r := AssembleCodon(table, p, 1, [v]);
      var k := p - 1 - start;
      && (r.Ok? <==> 0 <= k && k + 3 <= |bases|)
      && (r.Ok? ==> r.value == Some(bases[k..k + 3][1 := v]))
  {
    var k := p - 1 - start;
    assert IntToString(p - 1) in table <==> start <= p - 1 < start + |bases|;
    assert IntToString(p + 1) in table <==> start <= p + 1 < start + |bases|;
    if 0 <= k && k + 3 <= |bases| {
      assert bases[k..k + 3][1 := v] == [bases[k]] + [v] + [bases[k + 2]];
    }
  }

  /** A variant that is the last base of its codon. */
  lemma AssembleLast(table: map<string, RefBase>, bases: string, start: nat, p: int, v: char)
    requires start <= p < start + |bases|
    requires IsRefTable(table, bases, start)
    ensures var r := AssembleCodon(table, p, 2, [v]);
      var k := p - 2 - start;
      && (r.Ok? <==> 0 <= k)
      && (r.Ok? ==> r.value == Some(bases[k..k + 3][2 := v]))
  {
    var k := p - 2 - start;
    assert IntToString(p - 2) in table <==> start <= p - 2 < start + |bases|;
    assert IntToString(p - 1) in table <==> start <= p - 1 < start + |bases|;
    if 0 <= k {
      assert bases[k..k + 3][2 := v] == [bases[k]] + [bases[k + 1]] + [v];
    }
  }

  /**
   * On the script's reference, a nucleotide variant at the region's first
   * position 9820, the last base of a codon, raises KeyError for 9818; every
   * later position of the region gets its codon.
   */
  lemma RegionCodons(table: map<string, RefBase>, refSeq: string, p: int, v: char)
    requires |refSeq| >= RegionEnd
    requires IsRefTable(table, Slice(refSeq, RegionStart - 1, RegionEnd), RegionStart)
    requires RegionStart <= p <= RegionEnd
    ensures var r := AssembleCodon(table, p, Phase(p), [v]);
      (p == RegionStart ==> r == Err(MissingPosition(IntToString(RegionStart - 2))))
      && (p > RegionStart ==> r.Ok? && r.value.Some?)
  {
    var bases := Slice(refSeq, RegionStart - 1, RegionEnd);
    assert |bases| == RegionEnd - RegionStart + 1;
    if p == RegionStart {
      assert Phase(p) == 2;
      assert IntToString(RegionStart - 2) !in table;
    } else {
      var q := (p - FrameStart) / 3;
      assert p - FrameStart == 3 * q + Phase(p);
      assert 0 <= q <= 405;
      AssembleInFrame(table, bases, RegionStart, p, v);
    }
  }

  /**
   * A slot whose variant is not A, T, G or C gets its allele fraction and no
   * codon; the reference is not consulted.
   */
  lemma NonNucleotideSkipped(refInfo: map<string, RefBase>, row: seq<string>, total: int, i: nat, counts: nat)
    requires 6 + 4 * i <= |row|
    requires !IsNucleotide(row[2 + 4 * i]) && row[3 + 4 * i] == NatToString(counts) && total != 0
    ensures SlotAt(refInfo, row, total, i) == Ok(Slot(counts as real / total as real, None))
  {
    ParseIntOfNatToString(counts);
  }

  // ---------------------------------------------------------------------
  // The whole annotation step

  /** One annotated line: its fields, its read total and its visited slots. */
  datatype AnnotatedRow = AnnotatedRow(fields: seq<string>, total: int, slots: seq<Slot>)

  /** The lines after the first: `results.loc[1:, :]`. */
  function DropFirst<T>(rows: seq<T>): (r: seq<T>)
    ensures |r| == if rows == [] then 0 else |rows| - 1
    ensures forall i :: 0 <= i < |r| ==> r[i] == rows[i + 1]
  {
    if rows == [] then [] else rows[1..]
  }

  /**
   * The annotation of the lines with their totals, or the first error;
   * totals are all computed before any slot is annotated.
   */
  function Annotated(refInfo: map<string, RefBase>, rows: seq<seq<string>>, totals: seq<int>, reps: nat): Result<seq<AnnotatedRow>, MergeError>
    requires |totals| == |rows|
    requires forall i :: 0 <= i < |rows| ==> 2 + 4 * reps <= |rows[i]|
  {
    if rows == [] then Ok([])
    else
      var k := |rows| - 1;
      var done := Annotated(refInfo, rows[..k], totals[..k], reps);
      var slots := SlotsFrom(refInfo, rows[k], reps, totals[k], 0);
      if done.Err? then done
      else if slots.Err? then Err(slots.error)
      else Ok(done.value + [AnnotatedRow(rows[k], totals[k], slots.value)])
  }

  /**
   * The annotation step: drop the first line, fill in every line's total,
   * then annotate the slots of every line in order.
   */
  function AnnotateAll(refInfo: map<string, RefBase>, frame: seq<seq<string>>, reps: nat): Result<seq<AnnotatedRow>, MergeError>
    requires forall i :: 0 <= i < |frame| ==> 2 + 4 * reps <= |frame[i]|
  {
    var rows := DropFirst(frame);
    var totals := Totals(rows, reps);
    if totals.Err? then Err(totals.error)
    else
      TotalsShape(rows, reps);
      Annotated(refInfo, rows, totals.value, reps)
  }

  /** The two loops over the lines after the first: totals, then slots. */
  method AnnotateVariants(refInfo: map<string, RefBase>, frame: seq<seq<string>>, reps: nat)
    returns (r: Result<seq<AnnotatedRow>, MergeError>)
    requires forall i :: 0 <= i < |frame| ==> 2 + 4 * reps <= |frame[i]|
    ensures r == AnnotateAll(refInfo, frame, reps)
  {
    var rows := DropFirst(frame);
    var totals := ComputeTotals(rows, reps);
    if totals.Err? {
      return Err(totals.error);
    }
    var t := totals.value;
    TotalsShape(rows, reps);
    var done: seq<AnnotatedRow> := [];
    for i := 0 to |rows|
      invariant Annotated(refInfo, rows[..i], t[..i], reps) == Ok(done)
    {
      var slots := AnnotateRow(refInfo, rows[i], reps, t[i]);
      AnnotatedExtend(refInfo, rows, t, reps, i, done);
      if slots.Err? {
        AnnotatedStopsAtError(refInfo, rows, t, reps, i + 1);
        return Err(slots.error);
      }
      done := done + [AnnotatedRow(rows[i], t[i], slots.value)];
    }
    assert rows[..|rows|] == rows;
    assert t[..|t|] == t;
    r := Ok(done);
  }

  /**
   * What a successful annotation holds: one row per line after the first,
   * in order, each with the sum of its reads and its visited slots.
   */
  lemma AnnotateAllShape(refInfo: map<string, RefBase>, frame: seq<seq<string>>, reps: nat)
    requires forall i :: 0 <= i < |frame| ==> 2 + 4 * reps <= |frame[i]|
    requires AnnotateAll(refInfo, frame, reps).Ok?
    ensures var out := AnnotateAll(refInfo, frame, reps).value;
      && |out| == (if frame == [] then 0 else |frame| - 1)
      && forall i :: 0 <= i < |out| ==>
           (out[i].fields == frame[i + 1] && Ok(out[i].total) == ReadTotal(frame[i + 1], reps)
            && SlotsFrom(refInfo, frame[i + 1], reps, out[i].total, 0) == Ok(out[i].slots))
  {
    var rows := DropFirst(frame);
    TotalsShape(rows, reps);
    AnnotatedShape(refInfo, rows, Totals(rows, reps).value, reps);
  }

  /** One more line: its slots' outcome decides the outcome of the lines so far. */
  lemma AnnotatedExtend(refInfo: map<string, RefBase>, rows: seq<seq<string>>, totals: seq<int>, reps: nat, i: nat, done: seq<AnnotatedRow>)
    requires |totals| == |rows| && i < |rows|
    requires forall j :: 0 <= j < |rows| ==> 2 + 4 * reps <= |rows[j]|
    requires Annotated(refInfo, rows[..i], totals[..i], reps) == Ok(done)
    ensures var slots := SlotsFrom(refInfo, rows[i], reps, totals[i], 0);
      Annotated(refInfo, rows[..i + 1], totals[..i + 1], reps)
        == if slots.Err? then Err(slots.error) else Ok(done + [AnnotatedRow(rows[i], totals[i], slots.value)])
  {
    assert rows[..i + 1][..i] == rows[..i];
    assert totals[..i + 1][..i] == totals[..i];
  }

  /** An error on one line is the error of the whole annotation. */
  lemma {:induction false} AnnotatedStopsAtError(refInfo: map<string, RefBase>, rows: seq<seq<string>>, totals: seq<int>, reps: nat, m: nat)
    requires |totals| == |rows| && m <= |rows|
    requires forall i :: 0 <= i < |rows| ==> 2 + 4 * reps <= |rows[i]|
    requires Annotated(refInfo, rows[..m], totals[..m], reps).Err?
    ensures Annotated(refInfo, rows, totals, reps) == Annotated(refInfo, rows[..m], totals[..m], reps)
    decreases |rows| - m
  {
    if m < |rows| {
      var k := |rows| - 1;
      assert rows[..k][..m] == rows[..m];
      assert totals[..k][..m] == totals[..m];
      AnnotatedStopsAtError(refInfo, rows[..k], totals[..k], reps, m);
    } else {
      assert rows[..m] == rows;
      assert totals[..m] == totals;
    }
  }

  /** The annotated lines are the input lines after the first, in order, each with its own total. */
  lemma {:induction false} AnnotatedShape(refInfo: map<string, RefBase>, rows: seq<seq<string>>, totals: seq<int>, reps: nat)
    requires |totals| == |rows|
    requires forall i :: 0 <= i < |rows| ==> 2 + 4 * reps <= |rows[i]|
    requires Annotated(refInfo, rows, totals, reps).Ok?
    ensures var out := Annotated(refInfo, rows, totals, reps).value;
      && |out| == |rows|
      && forall i :: 0 <= i < |rows| ==>
           (out[i].fields == rows[i] && out[i].total == totals[i]
            && SlotsFrom(refInfo, rows[i], reps, totals[i], 0) == Ok(out[i].slots))
  {
    if rows != [] {
      var k := |rows| - 1;
      AnnotatedShape(refInfo, rows[..k], totals[..k], reps);
    }
  }

  // ---------------------------------------------------------------------
  // The whole script

  /**
   * The frame of the variant lines: the lines split into fields and padded
   * to the widest line; it cannot be built when some line is present and
   * that width is not the header's.
   */
  function Frame(lines: seq<string>): (r: Result<seq<seq<string>>, MergeError>)
    ensures var maxPad := MaxWidth(Split(lines));
      r.Ok? ==> && |r.value| == |lines|
                && forall i :: 0 <= i < |lines| ==>
                     (r.value[i] == Padded(Fields(lines[i]), maxPad) && |r.value[i]| == 2 + 4 * Reps(maxPad))
  {
    var rows := Split(lines);
    var maxPad := MaxWidth(rows);
    var header := HeaderFor(Reps(maxPad));
    if rows != [] && |header| != maxPad then Err(FrameShape(|header|, maxPad))
    else Ok(seq(|rows|, i requires 0 <= i < |rows| => Padded(rows[i], maxPad)))
  }

  /**
   * A variant file is refused exactly when it has a line and its widest line
   * does not hold `chrom`, `pos` and whole slots of four fields.
   */
  lemma FrameRefusesOddWidth(lines: seq<string>)
    ensures var maxPad := MaxWidth(Split(lines));
      Frame(lines).Err? <==> lines != [] && !(maxPad >= 2 && (maxPad - 2) % 4 == 0)
  {
    var maxPad := MaxWidth(Split(lines));
    FrameRefusesWrongHeader(lines);
    HeaderFitsIff(maxPad);
  }

  /** Frame fails exactly when some line is present and the header's width is not the widest line's. */
  lemma FrameRefusesWrongHeader(lines: seq<string>)
    ensures var maxPad := MaxWidth(Split(lines));
      Frame(lines).Err? <==> lines != [] && |HeaderFor(Reps(maxPad))| != maxPad
  {
    assert |Split(lines)| == |lines|;
  }

  /**
   * The script from the reference and the variant lines to the annotated
   * lines. An empty reference table adds no `base` and `codonPos` columns
   * to the merged frame, so selecting them raises KeyError.
   */
  function Merge(refSeq: string, lines: seq<string>): Result<seq<AnnotatedRow>, MergeError>
  {
    var frame := Frame(lines);
    var refInfo := RefTable(Slice(refSeq, RegionStart - 1, RegionEnd), RegionStart);
    if frame.Err? then Err(frame.error)
    else if refInfo == map[] then Err(MissingColumns)
    else AnnotateAll(refInfo, frame.value, Reps(MaxWidth(Split(lines))))
  }

  /**
   * A reference too short to reach the region gives an empty table, and the
   * run then fails at the column selection whatever the variant lines are,
   * once their frame is built; a reference reaching the region goes on to
   * annotate the lines against its table.
   */
  lemma ShortReferenceMissesColumns(refSeq: string, lines: seq<string>)
    requires Frame(lines).Ok?
    ensures |refSeq| < RegionStart ==> Merge(refSeq, lines) == Err(MissingColumns)
    ensures |refSeq| >= RegionStart ==>
      Merge(refSeq, lines) == AnnotateAll(RefTable(Slice(refSeq, RegionStart - 1, RegionEnd), RegionStart),
                                          Frame(lines).value, Reps(MaxWidth(Split(lines))))
  {
    var region := Slice(refSeq, RegionStart - 1, RegionEnd);
    RefTableSize(region, RegionStart);
    if |refSeq| >= RegionStart {
      assert |region| > 0;
      assert RefTable(region, RegionStart) != map[];
    } else {
      assert region == [];
    }
  }

  /** Reading, padding and naming the columns of the variant lines. */
  method BuildFrame(lines: seq<string>) returns (r: Result<seq<seq<string>>, MergeError>, reps: nat)
    ensures r == Frame(lines) && reps == Reps(MaxWidth(Split(lines)))
  {
    var rows, maxPad := ReadVariants(lines);
    var padded := PadAll(rows, maxPad);
    var header := BuildHeader(maxPad);
    reps := Reps(maxPad);
    if |rows| > 0 && |header| != maxPad {
      return Err(FrameShape(|header|, maxPad)), reps;
    }
    r := Ok(padded);
  }

  /** The script's steps in order: reference table, variant frame, annotation. */
  method MergeVariants(refSeq: string, lines: seq<string>) returns (r: Result<seq<AnnotatedRow>, MergeError>)
    ensures r == Merge(refSeq, lines)
  {
    var refInfo := BuildRefInfo(refSeq);
    var frame, reps := BuildFrame(lines);
    if frame.Err? {
      return Err(frame.error);
    }
    if refInfo == map[] {
      return Err(MissingColumns);
    }
    r := AnnotateVariants(refInfo, frame.value, reps);
  }

  /**
   * What a successful run holds: one annotated row per variant line after
   * the first, in order; each is that line's fields padded to the widest
   * line, its reads summed, and its visited slots annotated against the
   * reference table.
   */
  lemma MergeOutput(refSeq: string, lines: seq<string>)
    requires Merge(refSeq, lines).Ok?
    ensures var out := Merge(refSeq, lines).value;
      var maxPad := MaxWidth(Split(lines));
      var reps := Reps(maxPad);
      var table := RefTable(Slice(refSeq, RegionStart - 1, RegionEnd), RegionStart);
      && |out| == (if lines == [] then 0 else |lines| - 1)
      && forall i :: 0 <= i < |out| ==>
           (out[i].fields == Padded(Fields(lines[i + 1]), maxPad)
            && |out[i].fields| == 2 + 4 * reps
            && Ok(out[i].total) == ReadTotal(out[i].fields, reps)
            && SlotsFrom(table, out[i].fields, reps, out[i].total, 0) == Ok(out[i].slots))
  {
    var maxPad := MaxWidth(Split(lines));
    AnnotateAllShape(RefTable(Slice(refSeq, RegionStart - 1, RegionEnd), RegionStart), Frame(lines).value, Reps(maxPad));
  }
}
