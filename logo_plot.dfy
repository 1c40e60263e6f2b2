// The annotation band and row paging of code/logo_plot_standalone.py.
//
// The annotation table holds one region per row, keyed by its row number
// 0..n-1; `breakpoints` maps each key to Python's range(start, end); the
// lookup scans every key and keeps the last one whose range holds the
// position; the band of a plot row is then one bar and one text label per
// key between the keys of the row's first and last positions.

module LogoPlot {
  import opened Common

  /** One row of the annotation table: an inclusive codon interval and how to draw it. */
  datatype Region = Region(start: int, end: int, color: string, name: string)

  /** Python's `range(lo, hi)`: the integers p with lo <= p < hi. */
  datatype Span = Span(lo: int, hi: int)

  predicate InSpan(s: Span, p: int) { s.lo <= p < s.hi }

  /** `annot_data[key]` for a key that is not a row number raises KeyError. */
  datatype LookupError = KeyNotFound(key: int)

  /** One plotted row: its codon window and the annotation band drawn above it. */
  datatype PlotRow = PlotRow(start: int, end: int, marks: seq<Mark>)

  // ---------------------------------------------------------------------
  // Breakpoints and lookup

  /** The breakpoints as written: `range(value['start'], value['end'])` per key. */
  function HalfOpen(regions: seq<Region>): (bp: seq<Span>)
  {
    seq(|regions|, k requires 0 <= k < |regions| => Span(regions[k].start, regions[k].end))
  }

  /** The breakpoints the inclusive region bounds call for: `range(start, end + 1)`. */
  function Inclusive(regions: seq<Region>): (bp: seq<Span>)
  {
    seq(|regions|, k requires 0 <= k < |regions| => Span(regions[k].start, regions[k].end + 1))
  }

  /**
   * The `breakpoints` loop. A position belongs to a key's breakpoint exactly
   * when it lies in the region from its start up to, but not including, its end.
   */
  method BuildBreakpoints(regions: seq<Region>) returns (bp: seq<Span>)
    ensures bp == HalfOpen(regions)
    ensures forall k, p :: 0 <= k < |regions| ==>
      (InSpan(bp[k], p) <==> regions[k].start <= p < regions[k].end)
  {
    bp := [];
    for k := 0 to |regions|
      invariant bp == HalfOpen(regions[..k])
    {
      assert regions[..k + 1][..k] == regions[..k];
      bp := bp + [Span(regions[k].start, regions[k].end)];
    }
    assert regions[..|regions|] == regions;
  }

  /** The corrected breakpoints: a position belongs to a key exactly when the region holds it. */
  method BuildInclusiveBreakpoints(regions: seq<Region>) returns (bp: seq<Span>)
    ensures bp == Inclusive(regions)
    ensures forall k, p :: 0 <= k < |regions| ==>
      (InSpan(bp[k], p) <==> regions[k].start <= p <= regions[k].end)
  {
    bp := [];
    for k := 0 to |regions|
      invariant bp == Inclusive(regions[..k])
    {
      assert regions[..k + 1][..k] == regions[..k];
      bp := bp + [Span(regions[k].start, regions[k].end + 1)];
    }
    assert regions[..|regions|] == regions;
  }

  /**
   * The key the lookup settles on for position p: the last key whose span
   * holds p, or the sentinel -1 when none does.
   */
  function LastMatch(bp: seq<Span>, p: int): (k: int)
    ensures -1 <= k < |bp|
    ensures k == -1 <==> forall j :: 0 <= j < |bp| ==> !InSpan(bp[j], p)
    ensures k >= 0 ==> InSpan(bp[k], p) && forall j :: k < j < |bp| ==> !InSpan(bp[j], p)
  {
    if |bp| == 0 then -1
    else if InSpan(bp[|bp| - 1], p) then |bp| - 1
    else LastMatch(bp[..|bp| - 1], p)
  }

  /**
   * The scan at the top of `match_annotation`: every key is visited, none is
   * skipped, and each hit overwrites the previous one.
   */
  method FindAnnotations(bp: seq<Span>, positionStart: int, positionEnd: int)
    returns (annotStart: int, annotEnd: int)
    ensures annotStart == LastMatch(bp, positionStart)
    ensures annotEnd == LastMatch(bp, positionEnd)
  {
    annotStart, annotEnd := -1, -1;
    for key := 0 to |bp|
      invariant annotStart == LastMatch(bp[..key], positionStart)
      invariant annotEnd == LastMatch(bp[..key], positionEnd)
    {
      assert bp[..key + 1][..key] == bp[..key];
      if InSpan(bp[key], positionStart) {
        annotStart := key;
      }
      if InSpan(bp[key], positionEnd) {
        annotEnd := key;
      }
    }
    assert bp[..|bp|] == bp;
  }

  // ---------------------------------------------------------------------
  // The annotation band of one row

  /** A bar from x0 to x1 in a region's color, labelled with its name at the bar's midpoint. */
  function Bar(x0: int, x1: int, rg: Region): Mark
  {
    Mark(x0, x1, (x0 + x1) as real / 2.0, rg.color, rg.name)
  }

  /** `annot_data[key]`: the row with that key, or KeyError. */
  function Get(regions: seq<Region>, key: int): (r: Result<Region, LookupError>)
    ensures r.Ok? <==> 0 <= key < |regions|
    ensures r.Ok? ==> r.value == regions[key]
    ensures r.Err? ==> r.error == KeyNotFound(key)
  {
    if 0 <= key < |regions| then Ok(regions[key]) else Err(KeyNotFound(key))
  }

  /**
   * The i-th bar when the row's ends fall under different keys a < b: the
   * first bar starts at the later of the region's start and the row's start,
   * the last stops at the earlier of the region's end and the row's end, and
   * those in between cover their whole region.
   */
  function SegmentMark(regions: seq<Region>, a: int, b: int, ps: int, pe: int, i: int): Mark
    requires 0 <= a < b < |regions| && 0 <= i <= b - a
  {
    var rg := regions[a + i];
    if i == 0 then Bar(Max(rg.start, ps) - 1, rg.end + 1, rg)
    else if i == b - a then Bar(rg.start, Min(rg.end, pe) + 1, rg)
    else Bar(rg.start, rg.end + 1, rg)
  }

  /**
   * What `match_annotation` draws for the row [ps, pe] once the lookup has
   * settled on keys a and b (either may be the sentinel -1).
   */
  function Layout(regions: seq<Region>, a: int, b: int, ps: int, pe: int): (r: Result<seq<Mark>, LookupError>)
    requires -1 <= a < |regions| && -1 <= b < |regions|
    ensures r.Err? <==> a == -1
    ensures r.Err? ==> r.error == KeyNotFound(-1)
    ensures a >= 0 && b < a ==> r == Ok([])
    ensures a >= 0 && a <= b ==> r.Ok? && |r.value| == b - a + 1
  {
    if a == b then
      if a < 0 then Err(KeyNotFound(a)) else Ok([Bar(ps - 1, pe + 1, regions[a])])
    else if b < a then Ok([])
    else if a < 0 then Err(KeyNotFound(a))
    else Ok(seq(b - a + 1, i requires 0 <= i <= b - a => SegmentMark(regions, a, b, ps, pe, i)))
  }

  /**
   * The bars once both keys are found (a <= b): one per key from a to b, in
   * key order, each in its region's color and name with its label at its
   * middle. A single key gets the bar [ps - 1, pe + 1]; otherwise the first
   * bar starts one before the later of its region's start and ps, the last
   * ends one after the earlier of its region's end and pe, and every other
   * bar spans its whole region plus one.
   */
  lemma LayoutBars(regions: seq<Region>, a: int, b: int, ps: int, pe: int)
    requires 0 <= a <= b < |regions|
    ensures var r := Layout(regions, a, b, ps, pe);
      && r.Ok? && |r.value| == b - a + 1
      && forall i :: 0 <= i <= b - a ==>
           && r.value[i].color == regions[a + i].color && r.value[i].text == regions[a + i].name
           && 2.0 * r.value[i].textX == (r.value[i].barStart + r.value[i].barEnd) as real
           && r.value[i].barStart == (if a == b then ps - 1 else if i == 0 then Max(regions[a].start, ps) - 1 else regions[a + i].start)
           && r.value[i].barEnd == (if a == b then pe + 1 else if i == b - a then Min(regions[b].end, pe) + 1 else regions[a + i].end + 1)
  {
  }

  /**
   * `match_annotation(position_start, position_end)`: the lookup, then one
   * bar for a single key or one bar per key from the first to the last,
   * drawn in key order; an unmatched start key raises KeyError.
   */
  method MatchAnnotation(regions: seq<Region>, bp: seq<Span>, positionStart: int, positionEnd: int)
    returns (r: Result<seq<Mark>, LookupError>)
    requires |bp| == |regions|
    ensures r == Layout(regions, LastMatch(bp, positionStart), LastMatch(bp, positionEnd), positionStart, positionEnd)
  {
    var annotStart, annotEnd := FindAnnotations(bp, positionStart, positionEnd);
    if annotStart == annotEnd {
      var g := Get(regions, annotStart);
      if g.Err? {
        return Err(g.error);
      }
      return Ok([Bar(positionStart - 1, positionEnd + 1, g.value)]);
    }
    var count := if annotEnd + 1 > annotStart then annotEnd + 1 - annotStart else 0;
    var marks: seq<Mark> := [];
    for i := 0 to count
      invariant annotStart >= 0 || i == 0
      invariant |marks| == i
      invariant forall j :: 0 <= j < i ==> marks[j] == SegmentMark(regions, annotStart, annotEnd, positionStart, positionEnd, j)
    {
      var key := annotStart + i;
      if i == 0 {
        // the left-most region
        var g := Get(regions, annotStart);
        if g.Err? {
          return Err(g.error);
        }
        marks := marks + [Bar(Max(g.value.start, positionStart) - 1, g.value.end + 1, g.value)];
      } else if i == annotEnd - annotStart {
        // the right-most region
        var rg := regions[annotEnd];
        marks := marks + [Bar(rg.start, Min(rg.end, positionEnd) + 1, rg)];
      } else {
        var rg := regions[key];
        marks := marks + [Bar(rg.start, rg.end + 1, rg)];
      }
    }
    if count > 0 {
      assert marks == seq(annotEnd - annotStart + 1, i requires 0 <= i <= annotEnd - annotStart =>
        SegmentMark(regions, annotStart, annotEnd, positionStart, positionEnd, i));
    }
    r := Ok(marks);
  }

  // ---------------------------------------------------------------------
  // Row paging

  /** The last codon of row i: 50 for the first row, then 41 more each row, never past the largest position. */
  function RowEnd(maxIndex: int, i: nat): int
  {
    if i == 0 then FirstRowEnd else Min(FirstRowEnd + Increment * i, maxIndex)
  }

  /** The first codon of row i: 9 for the first row, then one past the previous row's end. */
  function RowStart(maxIndex: int, i: nat): int
  {
    if i == 0 then FirstRowStart
    else if i == 1 then FirstRowEnd + 1
    else Min(FirstRowEnd + Increment * (i - 1), maxIndex) + 1
  }

  /** The update at the bottom of the row loop turns row i's window into row i + 1's. */
  lemma NextWindow(maxIndex: int, i: nat)
    ensures RowStart(maxIndex, i + 1) == RowEnd(maxIndex, i) + 1
    ensures RowEnd(maxIndex, i + 1) ==
      if RowEnd(maxIndex, i) + Increment > maxIndex then maxIndex else RowEnd(maxIndex, i) + Increment
  {
  }

  /**
   * The update at the bottom of the row loop: the next row starts right
   * after this one and ends 41 codons later, or at the largest codon position.
   */
  method NextRowWindow(maxIndex: int, i: nat, start: int, end: int) returns (nextStart: int, nextEnd: int)
    requires start == RowStart(maxIndex, i) && end == RowEnd(maxIndex, i)
    ensures nextStart == RowStart(maxIndex, i + 1) && nextEnd == RowEnd(maxIndex, i + 1)
  {
    NextWindow(maxIndex, i);
    nextStart := end + 1;
    if end + Increment > maxIndex {
      nextEnd := maxIndex;
    } else {
      nextEnd := end + Increment;
    }
  }

  /** The band of row i, looked up in the breakpoints bp. */
  function RowLayout(regions: seq<Region>, bp: seq<Span>, maxIndex: int, i: nat): Result<seq<Mark>, LookupError>
    requires |bp| == |regions|
  {
    var ps, pe := RowStart(maxIndex, i), RowEnd(maxIndex, i);
    Layout(regions, LastMatch(bp, ps), LastMatch(bp, pe), ps, pe)
  }

  /**
   * The first n rows of a plot whose i-th band is band(i), or the KeyError
   * of the first row among them whose band cannot be drawn.
   */
  function Rows(band: nat -> Result<seq<Mark>, LookupError>, maxIndex: int, n: nat): Result<seq<PlotRow>, LookupError>
  {
    if n == 0 then Ok([])
    else
      match Rows(band, maxIndex, n - 1)
      case Err(e) => Err(e)
      case Ok(prev) =>
        match band(n - 1)
        case Err(e) => Err(e)
        case Ok(marks) => Ok(prev + [PlotRow(RowStart(maxIndex, n - 1), RowEnd(maxIndex, n - 1), marks)])
  }

  /** The first n rows can be drawn exactly when each of their bands can. */
  lemma {:induction false} RowsOkIff(band: nat -> Result<seq<Mark>, LookupError>, maxIndex: int, n: nat)
    ensures Rows(band, maxIndex, n).Ok? <==> forall i: nat :: i < n ==> band(i).Ok?
  {
    if n > 0 {
      RowsOkIff(band, maxIndex, n - 1);
    }
  }

  /** When they can, row i holds the i-th window and its band. */
  lemma {:induction false} RowsContents(band: nat -> Result<seq<Mark>, LookupError>, maxIndex: int, n: nat)
    requires Rows(band, maxIndex, n).Ok?
    ensures |Rows(band, maxIndex, n).value| == n
    ensures forall i: nat :: i < n ==> band(i).Ok? && Rows(band, maxIndex, n).value[i] == PlotRow(RowStart(maxIndex, i), RowEnd(maxIndex, i), band(i).value)
  {
    if n > 0 {
      RowsContents(band, maxIndex, n - 1);
      var prev := Rows(band, maxIndex, n - 1).value;
      var row := PlotRow(RowStart(maxIndex, n - 1), RowEnd(maxIndex, n - 1), band(n - 1).value);
      assert Rows(band, maxIndex, n).value == prev + [row];
    }
  }

  /** When they cannot, the error is that of the first row that fails. */
  lemma {:induction false} RowsFirstError(band: nat -> Result<seq<Mark>, LookupError>, maxIndex: int, n: nat)
    returns (i: nat)
    requires Rows(band, maxIndex, n).Err?
    ensures i < n && band(i) == Err(Rows(band, maxIndex, n).error)
    ensures forall j: nat :: j < i ==> band(j).Ok?
  {
    if Rows(band, maxIndex, n - 1).Err? {
      i := RowsFirstError(band, maxIndex, n - 1);
    } else {
      RowsOkIff(band, maxIndex, n - 1);
      i := n - 1;
    }
  }

  /** A row whose band can be drawn extends the rows before it. */
  lemma RowsStep(band: nat -> Result<seq<Mark>, LookupError>, maxIndex: int, n: nat, rows: seq<PlotRow>, marks: seq<Mark>)
    requires Rows(band, maxIndex, n) == Ok(rows) && band(n) == Ok(marks)
    ensures Rows(band, maxIndex, n + 1) == Ok(rows + [PlotRow(RowStart(maxIndex, n), RowEnd(maxIndex, n), marks)])
  {
  }

  /** Once a row fails, the rows after it are never drawn and the error stays. */
  lemma {:induction false} RowsStopAtError(band: nat -> Result<seq<Mark>, LookupError>, maxIndex: int, m: nat, n: nat)
    requires m <= n && Rows(band, maxIndex, m).Err?
    ensures Rows(band, maxIndex, n) == Rows(band, maxIndex, m)
    decreases n - m
  {
    if m < n {
      RowsStopAtError(band, maxIndex, m, n - 1);
    }
  }

  /** The band of row i, drawn by `match_annotation` on that row's window. */
  method DrawRow(regions: seq<Region>, bp: seq<Span>, maxIndex: int, i: nat, start: int, end: int)
    returns (marks: Result<seq<Mark>, LookupError>)
    requires |bp| == |regions|
    requires start == RowStart(maxIndex, i) && end == RowEnd(maxIndex, i)
    ensures marks == RowLayout(regions, bp, maxIndex, i)
  {
    marks := MatchAnnotation(regions, bp, start, end);
  }

  /**
   * The row loop of `generate_logo_plot`: numRows rows, each one starting
   * right after the previous one ends and ending at most 41 codons later,
   * clamped to the largest codon position; the band of each row is drawn as
   * it is reached, and a KeyError stops the plot.
   */
  method PlotRows(regions: seq<Region>, bp: seq<Span>, maxIndex: int, numRows: int)
    returns (r: Result<seq<PlotRow>, LookupError>)
    requires |bp| == |regions|
    ensures r == Rows((i: nat) => RowLayout(regions, bp, maxIndex, i), maxIndex, Max(0, numRows))
  {
    ghost var band := (i: nat) => RowLayout(regions, bp, maxIndex, i);
    var start, end := FirstRowStart, FirstRowEnd;
    var rows: seq<PlotRow> := [];
    for i := 0 to Max(0, numRows)
      invariant start == RowStart(maxIndex, i) && end == RowEnd(maxIndex, i)
      invariant Rows(band, maxIndex, i) == Ok(rows)
    {
      var marks := DrawRow(regions, bp, maxIndex, i, start, end);
      assert band(i) == marks;
      if marks.Err? {
        RowsStopAtError(band, maxIndex, i + 1, Max(0, numRows));
        return Err(marks.error);
      }
      RowsStep(band, maxIndex, i, rows, marks.value);
      rows := rows + [PlotRow(start, end, marks.value)];
      start, end := NextRowWindow(maxIndex, i, start, end);
    }
    r := Ok(rows);
  }

  /**
   * `generate_logo_plot` as written: half-open breakpoints and
   * RowCount(maxIndex) rows.
   */
  method GenerateLogoPlot(regions: seq<Region>, maxIndex: int) returns (r: Result<seq<PlotRow>, LookupError>)
    ensures r == Rows((i: nat) => RowLayout(regions, HalfOpen(regions), maxIndex, i), maxIndex, Max(0, RowCount(maxIndex)))
  {
    var bp := BuildBreakpoints(regions);
    r := PlotRows(regions, bp, maxIndex, RowCount(maxIndex));
  }

  /**
   * As written, the plot ends with a row that holds no codon at all exactly
   * when the largest position is 50 or more and lies a whole number of row
   * widths past 9 (50, 91, 132, ...): that row starts at maxIndex + 1 and
   * ends at maxIndex.
   */
  lemma FinalRowEmptyIff(maxIndex: int)
    requires maxIndex >= FirstRowStart
    ensures var n := RowCount(maxIndex);
      n >= 1 &&
      (RowStart(maxIndex, n - 1) > RowEnd(maxIndex, n - 1) <==>
        maxIndex >= FirstRowEnd && (maxIndex - FirstRowStart) % Increment == 0)
    ensures var n := RowCount(maxIndex);
      RowStart(maxIndex, n - 1) > RowEnd(maxIndex, n - 1) ==>
        RowStart(maxIndex, n - 1) == maxIndex + 1 && RowEnd(maxIndex, n - 1) == maxIndex
  {
  }

  /**
   * The number of rows the paging needs: none below codon 9, one up to
   * codon 50, then one per further 41 codons started.
   */
  function CorrectedRowCount(maxIndex: int): (n: int)
    ensures n >= 0
    ensures maxIndex >= FirstRowStart ==> n >= 1 && RowEnd(maxIndex, n - 1) >= maxIndex
    ensures forall i: nat :: i < n ==> RowStart(maxIndex, i) <= RowEnd(maxIndex, i)
  {
    if maxIndex < FirstRowStart then 0
    else if maxIndex <= FirstRowEnd then 1
    else 1 + CeilDiv(maxIndex - FirstRowEnd, Increment)
  }

  /** The as-written count is one too many exactly when the last row comes out empty. */
  lemma RowCountOvershoots(maxIndex: int)
    requires maxIndex >= FirstRowStart
    ensures RowCount(maxIndex) == CorrectedRowCount(maxIndex) +
      (if maxIndex >= FirstRowEnd && (maxIndex - FirstRowStart) % Increment == 0 then 1 else 0)
  {
    var k := (maxIndex - FirstRowStart) / Increment;
    var rem := (maxIndex - FirstRowStart) % Increment;
    assert maxIndex - FirstRowStart == Increment * k + rem;
    CeilDivBy(maxIndex - FirstRowStart + 1, k + 1);
    if maxIndex > FirstRowEnd {
      CeilDivBy(maxIndex - FirstRowEnd, if rem == 0 then k - 1 else k);
    }
  }

  /** The quotient CeilDiv rounds up to is the only one that brackets n. */
  lemma CeilDivBy(n: int, q: int)
    requires Increment * (q - 1) < n <= Increment * q
    ensures CeilDiv(n, Increment) == q
  {
  }

  /**
   * `generate_logo_plot` corrected: breakpoints that hold both ends of each
   * region, and only the rows that hold a codon.
   */
  method GenerateCorrectedLogoPlot(regions: seq<Region>, maxIndex: int) returns (r: Result<seq<PlotRow>, LookupError>)
    ensures r == Rows((i: nat) => RowLayout(regions, Inclusive(regions), maxIndex, i), maxIndex, CorrectedRowCount(maxIndex))
  {
    var bp := BuildInclusiveBreakpoints(regions);
    r := PlotRows(regions, bp, maxIndex, CorrectedRowCount(maxIndex));
  }

  // ---------------------------------------------------------------------
  // What the band looks like on a well-formed annotation table

  /**
   * Regions are non-empty, sorted and adjacent: each starts one codon after
   * the previous one ends (E3 1-64, N link 65-79, ...).
   */
  predicate Contiguous(regions: seq<Region>)
  {
    && (forall k :: 0 <= k < |regions| ==> regions[k].start <= regions[k].end)
    && (forall k :: 0 <= k < |regions| - 1 ==> regions[k + 1].start == regions[k].end + 1)
  }

  /** In a contiguous table every region ends before any later region starts. */
  lemma {:induction false} EndBeforeLaterStart(regions: seq<Region>, i: int, j: int)
    requires Contiguous(regions)
    requires 0 <= i < j < |regions|
    ensures regions[i].end < regions[j].start
    decreases j - i
  {
    if j > i + 1 {
      EndBeforeLaterStart(regions, i + 1, j);
    }
  }

  /**
   * When every span lies inside its region and key k's span holds p, the
   * lookup of p settles on k.
   */
  lemma LookupFindsContainingRegion(regions: seq<Region>, bp: seq<Span>, k: int, p: int)
    requires Contiguous(regions) && |bp| == |regions|
    requires forall j :: 0 <= j < |bp| && InSpan(bp[j], p) ==> regions[j].start <= p <= regions[j].end
    requires 0 <= k < |bp| && InSpan(bp[k], p)
    ensures LastMatch(bp, p) == k
  {
    var m := LastMatch(bp, p);
    if m != k {
      assert k < m;
      EndBeforeLaterStart(regions, k, m);
      assert false;
    }
  }

  /**
   * As written, a region's last codon belongs to no breakpoint in a
   * contiguous table: `range(start, end)` leaves out `end`, and the next
   * region only starts at `end + 1`.
   */
  lemma HalfOpenMissesRegionEnd(regions: seq<Region>, k: int)
    requires Contiguous(regions)
    requires 0 <= k < |regions|
    ensures LastMatch(HalfOpen(regions), regions[k].end) == -1
  {
    var bp := HalfOpen(regions);
    var p := regions[k].end;
    forall j | 0 <= j < |bp|
      ensures !InSpan(bp[j], p)
    {
      if j < k {
        EndBeforeLaterStart(regions, j, k);
      } else if j > k {
        EndBeforeLaterStart(regions, k, j);
      }
    }
  }

  /** With the corrected breakpoints every codon of a region is found under that region's key. */
  lemma InclusiveFindsContainingRegion(regions: seq<Region>, k: int, p: int)
    requires Contiguous(regions)
    requires 0 <= k < |regions| && regions[k].start <= p <= regions[k].end
    ensures LastMatch(Inclusive(regions), p) == k
  {
    LookupFindsContainingRegion(regions, Inclusive(regions), k, p);
  }

  /** A contiguous table covers every codon from its first start to its last end. */
  lemma {:induction false} CoveringRegion(regions: seq<Region>, p: int) returns (k: int)
    requires Contiguous(regions) && |regions| > 0
    requires regions[0].start <= p <= regions[|regions| - 1].end
    ensures 0 <= k < |regions| && regions[k].start <= p <= regions[k].end
  {
    k := 0;
    while regions[k].end < p
      invariant 0 <= k < |regions| && regions[k].start <= p
      decreases |regions| - k
    {
      k := k + 1;
    }
  }

  /**
   * The band tiles the row: when both ends of [ps, pe] lie in regions a and
   * b of a contiguous table, the bars run in key order from ps - 1 to
   * pe + 1, each one starting where the previous one stops, one per key
   * from a to b, each in its region's color and name with its label at its
   * middle.
   */
  lemma LayoutTilesWindow(regions: seq<Region>, a: int, b: int, ps: int, pe: int)
    requires Contiguous(regions)
    requires 0 <= a < |regions| && regions[a].start <= ps <= regions[a].end
    requires 0 <= b < |regions| && regions[b].start <= pe <= regions[b].end
    requires ps <= pe
    ensures a <= b
    ensures var r := Layout(regions, a, b, ps, pe);
      && r.Ok? && |r.value| == b - a + 1
      && r.value[0].barStart == ps - 1
      && r.value[|r.value| - 1].barEnd == pe + 1
      && (forall i :: 0 <= i < |r.value| - 1 ==> r.value[i].barEnd == r.value[i + 1].barStart)
      && (forall i :: 0 <= i < |r.value| ==> r.value[i].barStart < r.value[i].barEnd)
      && (forall i :: 0 <= i < |r.value| ==>
            r.value[i].color == regions[a + i].color && r.value[i].text == regions[a + i].name)
      && (forall i :: 0 <= i < |r.value| ==>
            2.0 * r.value[i].textX == (r.value[i].barStart + r.value[i].barEnd) as real)
  {
    if b < a {
      EndBeforeLaterStart(regions, b, a);
      assert false;
    }
  }

  /**
   * The bars run from ps - 1 to pe + 1, each one starting where the
   * previous one stops.
   */
  predicate TilesWindow(marks: seq<Mark>, ps: int, pe: int)
  {
    && |marks| >= 1
    && marks[0].barStart == ps - 1
    && marks[|marks| - 1].barEnd == pe + 1
    && forall k :: 0 <= k < |marks| - 1 ==> marks[k].barEnd == marks[k + 1].barStart
  }

  /**
   * With the corrected breakpoints, every row that lies inside the table's
   * coverage gets a band that tiles it.
   */
  lemma InclusiveLayoutTilesCoveredWindow(regions: seq<Region>, ps: int, pe: int)
    requires Contiguous(regions) && |regions| > 0
    requires regions[0].start <= ps <= pe <= regions[|regions| - 1].end
    ensures var bp := Inclusive(regions);
      var r := Layout(regions, LastMatch(bp, ps), LastMatch(bp, pe), ps, pe);
      r.Ok? && TilesWindow(r.value, ps, pe)
  {
    var a := CoveringRegion(regions, ps);
    var b := CoveringRegion(regions, pe);
    InclusiveFindsContainingRegion(regions, a, ps);
    InclusiveFindsContainingRegion(regions, b, pe);
    LayoutTilesWindow(regions, a, b, ps, pe);
  }

  /** Each row of the corrected plot of a covering table gets a band that tiles it. */
  lemma CorrectedRowTiled(regions: seq<Region>, maxIndex: int, i: nat)
    requires Contiguous(regions) && |regions| > 0
    requires regions[0].start <= FirstRowStart
    requires regions[|regions| - 1].end >= Max(maxIndex, FirstRowEnd)
    requires i < CorrectedRowCount(maxIndex)
    ensures var band := RowLayout(regions, Inclusive(regions), maxIndex, i);
      band.Ok? && TilesWindow(band.value, RowStart(maxIndex, i), RowEnd(maxIndex, i))
  {
    InclusiveLayoutTilesCoveredWindow(regions, RowStart(maxIndex, i), RowEnd(maxIndex, i));
  }

  /**
   * On a contiguous table that covers codon 9 through the largest position
   * (and through 50, the end of the first row), the corrected plot draws
   * every row, and every row's band runs from one before the row's first
   * codon to one after its last, with no gap between its bars.
   */
  lemma CorrectedPlotTiles(regions: seq<Region>, maxIndex: int)
    requires Contiguous(regions) && |regions| > 0
    requires regions[0].start <= FirstRowStart
    requires regions[|regions| - 1].end >= Max(maxIndex, FirstRowEnd)
    ensures var r := Rows((i: nat) => RowLayout(regions, Inclusive(regions), maxIndex, i), maxIndex, CorrectedRowCount(maxIndex));
      && r.Ok? && |r.value| == CorrectedRowCount(maxIndex)
      && forall i :: 0 <= i < |r.value| ==>
        && r.value[i].start == RowStart(maxIndex, i) && r.value[i].end == RowEnd(maxIndex, i)
        && TilesWindow(r.value[i].marks, r.value[i].start, r.value[i].end)
  {
    var band := (i: nat) => RowLayout(regions, Inclusive(regions), maxIndex, i);
    var n := CorrectedRowCount(maxIndex);
    forall i: nat | i < n
      ensures band(i).Ok? && TilesWindow(band(i).value, RowStart(maxIndex, i), RowEnd(maxIndex, i))
    {
      CorrectedRowTiled(regions, maxIndex, i);
    }
    RowsOkIff(band, maxIndex, n);
    RowsContents(band, maxIndex, n);
  }

  // ---------------------------------------------------------------------
  // Worked examples

  /** Three adjacent regions A 1-10, B 11-20, C 21-30. */
  function Abc(): seq<Region>
  {
    [Region(1, 10, "red", "A"), Region(11, 20, "green", "B"), Region(21, 30, "blue", "C")]
  }

  /**
   * The row [5, 25] over A, B, C gets three bars in order: A clipped to
   * 5..10 and drawn from 4, B whole, C clipped to 21..25.
   */
  lemma AbcSplit()
    ensures var bp := HalfOpen(Abc());
      Layout(Abc(), LastMatch(bp, 5), LastMatch(bp, 25), 5, 25)
      == Ok([Bar(4, 11, Abc()[0]), Bar(11, 21, Abc()[1]), Bar(21, 26, Abc()[2])])
  {
    var bp := HalfOpen(Abc());
    LookupFindsContainingRegion(Abc(), bp, 0, 5);
    LookupFindsContainingRegion(Abc(), bp, 2, 25);
    var r := Layout(Abc(), 0, 2, 5, 25);
    assert r.value == [SegmentMark(Abc(), 0, 2, 5, 25, 0), SegmentMark(Abc(), 0, 2, 5, 25, 1),
                       SegmentMark(Abc(), 0, 2, 5, 25, 2)];
  }

  /** The seven E1/E3 domains: E3 1-64, N link 65-79, A domain 80-198, Arch 1 199-236, B domain 237-295, Arch 2 296-332, C domain 333-405. */
  function Domains(): seq<Region>
  {
    [ Region(1, 64, "c0", "E3"), Region(65, 79, "c1", "N link"), Region(80, 198, "c2", "A domain")
    , Region(199, 236, "c3", "Arch 1"), Region(237, 295, "c4", "B domain")
    , Region(296, 332, "c5", "Arch 2"), Region(333, 405, "c6", "C domain") ]
  }

  /**
   * The last row of a plot whose largest codon is 405 is [379, 405]. As
   * written, 405 matches no breakpoint, the scan range is empty and the row
   * gets no band at all; with the corrected breakpoints it gets one C domain
   * bar from 378 to 406.
   */
  lemma DomainsLastRowUnannotated()
    ensures RowStart(405, 9) == 379 && RowEnd(405, 9) == 405 && RowCount(405) == 10
    ensures var bp := HalfOpen(Domains());
      Layout(Domains(), LastMatch(bp, 379), LastMatch(bp, 405), 379, 405) == Ok([])
    ensures var bp := Inclusive(Domains());
      Layout(Domains(), LastMatch(bp, 379), LastMatch(bp, 405), 379, 405) == Ok([Bar(378, 406, Domains()[6])])
  {
    var d := Domains();
    assert Contiguous(d);
    LookupFindsContainingRegion(d, HalfOpen(d), 6, 379);
    HalfOpenMissesRegionEnd(d, 6);
    InclusiveFindsContainingRegion(d, 6, 379);
    InclusiveFindsContainingRegion(d, 6, 405);
  }
}
