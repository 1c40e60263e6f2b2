# Deep mutational scanning helpers: annotation bands, row tallies and variant merging

This project models the integer and sequence logic inside three analysis
scripts of a deep mutational scanning (DMS) pipeline. The scripts are mostly
plotting code; the model keeps the numbers and strings they compute and drops
the drawing.

- `code/logo_plot_standalone.py` draws a logo plot in rows of codon
  positions, with a band of annotation bars above each row (module
  `LogoPlot`, file `logo_plot.dfy`). The model covers:
  - the `breakpoints` table built from the annotation regions;
  - the last-match scan in `match_annotation` and its `-1` sentinel;
  - the bars it draws for the first, middle and last regions of a row;
  - the row loop that pages the codons into windows `[9, 50]`, `[51, 91]`, …
    clamped to the largest position.
- `code/plot_mutational_frequency_and_qc_stats.py` summarises codon tables
  (module `MutationStats`, file `mutation_stats.dfy`). The model covers:
  - the `filter` step and its `"a-b"` codon range;
  - the nucleotide-change count and the aaType classifier;
  - the `nonSynOnly` and `includeStop` selections;
  - the per-codon CNT tallies, which are generic over the category column,
    so they cover the nucleotide-change, aaType and amino-acid tallies alike;
  - the amino-acid diversity;
  - the logo-row paging and the E2/E3 bars.
- `code/translations_and_merging.py` annotates the variants called on a
  reference region (module `VariantMerge`, file `variant_merge.dfy`). The
  model covers:
  - the `refInfo` table, keyed by `str(pos)`, for positions 9820..11038 and
    the codon phase of each;
  - the reading and in-place padding of the ragged tab-separated variant
    lines, and the column header;
  - the frame shape check that `pandas.DataFrame(…, columns=…)` performs;
  - dropping the first line, and the `total_reads` sums;
  - the `while` loop over the variant slots, with:
    - the allele fraction;
    - the A/T/G/C gate;
    - the phase-indexed codon assembly.

Shared pieces sit in `common.dfy` (module `Common`) and `text.dfy` (module
`Text`):
- `Option` and `Result`;
- `math.ceil` and `int()` of a quotient;
- the row paging constants;
- Python's `str.strip`, `str.split`, `int(str)` and `str(int)`.

Each exception the modelled steps can raise (`KeyError`, `ValueError`,
`ZeroDivisionError`, `IndexError`) is an `Err` value, and no precondition
excludes one of them. This includes two errors on empty data:
- the `KeyError` of the column selection at
  code/translations_and_merging.py:72 when the reference table is empty;
- the `KeyError` at code/plot_mutational_frequency_and_qc_stats.py:82 and
  the `ValueError` of `max()` at lines 477 and 771 when `filter` leaves a
  sample with no row.

Exceptions raised inside the parts listed under "Left out" are not
modelled.

Imperative source code is modelled by methods with loops:
- the loops that fill `breakpoints`, `refInfo`, the header, the totals and
  the per-codon dictionaries;
- the row loops;
- the slot `while` loop;
- the in-place padding of the rows, which works on an `array`.

Each method is proved equal to a specification function. The properties
are lemmas about those functions.

## Model

| member | source | states |
|---|---|---|
| Common.CeilDiv | code/logo_plot_standalone.py:101 | `math.ceil(n / d)` is the least q with n <= d*q |
| Common.TruncDiv | code/translations_and_merging.py:55 | `int(n / d)` rounds toward zero, for either sign of n |
| Common.RowCount | code/logo_plot_standalone.py:95-101 | `num_rows` is at least one once the largest position reaches codon 9, and 41*(n-1) < maxIndex-8 <= 41*n |
| Text.StripRemovesOnlySpace | code/translations_and_merging.py:43-45 | `strip()` removes only whitespace, only at the two ends, and leaves a string that neither starts nor ends with whitespace |
| Text.ParseNumeral | code/plot_mutational_frequency_and_qc_stats.py:45 | a stripped string reads as an integer exactly when it is an optional sign followed by one or more digits |
| Text.ParseIntStrips | code/plot_mutational_frequency_and_qc_stats.py:45 | `int(s)` ignores the whitespace around s: it reads the numeral that `strip()` leaves |
| Text.ParseIntOfNatToString | code/translations_and_merging.py:29 | reading back `str(n)` with `int()` gives n |
| Text.NatToStringInjective | code/translations_and_merging.py:29 | distinct positions get distinct `str(pos)` keys |
| Text.SplitOn | code/translations_and_merging.py:43 | `split(sep)` gives at least one piece, no piece holds sep, and joining the pieces with sep gives the string back |
| Text.SplitOfJoin | code/plot_mutational_frequency_and_qc_stats.py:45 | splitting pieces joined by a separator they do not hold gives the pieces back |
| LogoPlot.BuildBreakpoints | code/logo_plot_standalone.py:51-54 | a position is in a key's breakpoint exactly when start <= p < end for that key's region (the end is left out) |
| LogoPlot.BuildInclusiveBreakpoints | code/logo_plot_standalone.py:51-54 | corrected: a position is in a key's breakpoint exactly when the region holds it, both ends included |
| LogoPlot.LastMatch | code/logo_plot_standalone.py:57-63 | the scan settles on -1 exactly when no breakpoint holds p, and otherwise on a key holding p with no later key holding it (the last match wins) |
| LogoPlot.FindAnnotations | code/logo_plot_standalone.py:56-63 | the scan loop leaves annot_start and annot_end at the last keys matching the row's first and last positions |
| LogoPlot.Layout | code/logo_plot_standalone.py:65-89 | an unmatched start key raises KeyError(-1); an end key before the start key (the sentinel included) draws nothing; otherwise there is one bar per key from the start key to the end key |
| LogoPlot.LayoutBars | code/logo_plot_standalone.py:65-89 | one bar [ps-1, pe+1] for a single key; otherwise the first bar is clipped to max(start, ps), the last to min(end, pe), the middle ones span their region; each bar has its region's color and name, and its label sits at its midpoint |
| LogoPlot.MatchAnnotation | code/logo_plot_standalone.py:56-89 | `match_annotation` draws exactly Layout of the keys the scan finds |
| LogoPlot.NextWindow | code/logo_plot_standalone.py:129-133 | the next row starts one past the previous end, and ends 41 later or at the largest position |
| LogoPlot.NextRowWindow | code/logo_plot_standalone.py:129-133 | the window update at the bottom of the row loop turns row i's window into row i+1's |
| LogoPlot.RowsOkIff | code/logo_plot_standalone.py:108-133 | the plot's rows can all be drawn exactly when each row's band can |
| LogoPlot.RowsContents | code/logo_plot_standalone.py:108-133 | when drawn, there are n rows, and row i holds window i and its band |
| LogoPlot.RowsFirstError | code/logo_plot_standalone.py:108-133 | when not, the KeyError is that of the first row whose band fails, and every earlier row's band succeeds |
| LogoPlot.RowsStopAtError | code/logo_plot_standalone.py:108-133 | a KeyError in one row ends the plot with that error |
| LogoPlot.DrawRow | code/logo_plot_standalone.py:127 | the band of row i is `match_annotation` on row i's window |
| LogoPlot.PlotRows | code/logo_plot_standalone.py:108-133 | the row loop draws exactly the first numRows rows of the paging, or the first KeyError among them |
| LogoPlot.GenerateLogoPlot | code/logo_plot_standalone.py:51-133 | the script as written: half-open breakpoints and `num_rows` rows |
| LogoPlot.FinalRowEmptyIff | code/logo_plot_standalone.py:99-133 | as written, the last row is empty, [maxIndex+1, maxIndex], exactly when maxIndex >= 50 and maxIndex-9 is a multiple of 41 |
| LogoPlot.CorrectedRowCount | code/logo_plot_standalone.py:99-101 | corrected: the row count reaches the largest position and every row holds at least one codon |
| LogoPlot.RowCountOvershoots | code/logo_plot_standalone.py:99-101 | the as-written count is the corrected count plus one exactly when the last row comes out empty |
| LogoPlot.GenerateCorrectedLogoPlot | code/logo_plot_standalone.py:51-133 | the corrected script draws the rows of the corrected count with inclusive breakpoints |
| LogoPlot.EndBeforeLaterStart | code/logo_plot_standalone.py:46 | in a table sorted by start, with each region adjacent to the next, every region ends before any later one starts |
| LogoPlot.LookupFindsContainingRegion | code/logo_plot_standalone.py:57-63 | when each breakpoint lies inside its region and key k's holds p, the scan settles on k |
| LogoPlot.HalfOpenMissesRegionEnd | code/logo_plot_standalone.py:54 | as written, in a contiguous table a region's last codon matches no breakpoint (the scan gives -1) |
| LogoPlot.InclusiveFindsContainingRegion | code/logo_plot_standalone.py:54 | corrected: every codon of region k is found under key k |
| LogoPlot.CoveringRegion | code/logo_plot_standalone.py:46-48 | a contiguous table covers every codon from its first start to its last end |
| LogoPlot.LayoutTilesWindow | code/logo_plot_standalone.py:65-89 | when a row's ends lie in regions a and b, the bars run in key order from ps-1 to pe+1, each starting where the previous one stops, one per key from a to b |
| LogoPlot.InclusiveLayoutTilesCoveredWindow | code/logo_plot_standalone.py:56-89 | corrected: every row inside the table's coverage gets a band that tiles it |
| LogoPlot.CorrectedRowTiled | code/logo_plot_standalone.py:108-133 | corrected: each row of the plot of a covering table gets a band that tiles it |
| LogoPlot.CorrectedPlotTiles | code/logo_plot_standalone.py:95-133 | corrected: on a covering table every row is drawn, each holds its window, and each band tiles it |
| LogoPlot.AbcSplit | code/logo_plot_standalone.py:70-89 | worked example: the row [5, 25] over regions 1-10, 11-20, 21-30 gets the three bars [4,11], [11,21], [21,26] |
| LogoPlot.DomainsLastRowUnannotated | code/logo_plot_standalone.py:95-133 | worked example: with the seven E1/E3 domains and largest codon 405, the last row [379, 405] gets no bar as written and one C domain bar [378, 406] corrected |
| MutationStats.Where | code/plot_mutational_frequency_and_qc_stats.py:39 | `df.loc[mask]` keeps exactly the rows that pass, and no more rows than it was given |
| MutationStats.WhereConcat | code/plot_mutational_frequency_and_qc_stats.py:39 | selection keeps row order: it commutes with concatenation |
| MutationStats.WhereFuse | code/plot_mutational_frequency_and_qc_stats.py:39-46 | two selections in a row are one selection by both conditions |
| MutationStats.ReadNumeral | code/plot_mutational_frequency_and_qc_stats.py:45 | `str(n)` holds no dash and reads back as n through `int(s.strip())` |
| MutationStats.SplitPair | code/plot_mutational_frequency_and_qc_stats.py:45 | "x-y" splits on '-' into [x, y] when neither piece holds a dash |
| MutationStats.ParseRangeOfPieces | code/plot_mutational_frequency_and_qc_stats.py:45 | a range that splits into two pieces reading as lo and hi gives (lo, hi) |
| MutationStats.ParseRangeRoundTrip | code/plot_mutational_frequency_and_qc_stats.py:45 | the range "a-b" written from two non-negative numbers reads back as (a, b) |
| MutationStats.DefaultRange | code/plot_mutational_frequency_and_qc_stats.py:860 | the default range "0-0" reads as (0, 0) |
| MutationStats.NegativeStartRejected | code/plot_mutational_frequency_and_qc_stats.py:45 | a range whose first bound has a minus sign raises ValueError, because the sign is taken for the separator |
| MutationStats.Filter | code/plot_mutational_frequency_and_qc_stats.py:38-47 | `filter` succeeds exactly when the range reads; it then keeps exactly the rows with CNT >= minAlt, REF_CODON != CODON and lo <= POSITION <= hi, in their order; otherwise it raises for that range |
| MutationStats.DefaultRangeKeepsPositionZero | code/plot_mutational_frequency_and_qc_stats.py:45-46 | with the default range, `filter` keeps exactly the changed, well-counted rows at position 0 |
| MutationStats.DefaultRangeKeepsNothing | code/plot_mutational_frequency_and_qc_stats.py:860 | a codon table numbered from codon 1 on keeps no row under the default range "0-0" |
| MutationStats.DefaultUsesAllPositions | code/plot_mutational_frequency_and_qc_stats.py:860 | with no range given, the filter keeps every changed, well-counted row at any position, and so every row that any range keeps |
| MutationStats.DiffCount | code/plot_mutational_frequency_and_qc_stats.py:61 | the count is at most len(REF_CODON), and 0 exactly when CODON starts with REF_CODON |
| MutationStats.DiffCountCountsMismatches | code/plot_mutational_frequency_and_qc_stats.py:61 | the count is the number of indices at which the two codons differ |
| MutationStats.NtChanges | code/plot_mutational_frequency_and_qc_stats.py:61 | a CODON shorter than REF_CODON raises IndexError; otherwise the count lies in 0..len(REF_CODON) |
| MutationStats.KeptRowIsMutated | code/plot_mutational_frequency_and_qc_stats.py:42-61 | a row that `filter` kept, with two codons of equal length, has between 1 and len(REF_CODON) changes |
| MutationStats.NtChangeColumn | code/plot_mutational_frequency_and_qc_stats.py:59-61 | the `iterrows` loop fills every row's count, or stops with IndexError at the first row whose CODON is too short |
| MutationStats.Classify | code/plot_mutational_frequency_and_qc_stats.py:158-166 | aaType is stop exactly when AA is '.'; otherwise synonymous exactly when REF_AA == AA and nonsynonymous exactly when they differ, so the fallback `print` is unreachable |
| MutationStats.AaTypeColumn | code/plot_mutational_frequency_and_qc_stats.py:156-166 | the `iterrows` loop writes each row's class |
| MutationStats.NonSynonymousOnlyKeeps | code/plot_mutational_frequency_and_qc_stats.py:368-370 | `nonSynOnly` keeps exactly the nonsynonymous rows and the stop rows whose REF_AA is not '.', so stops survive it |
| MutationStats.WithoutStopsKeeps | code/plot_mutational_frequency_and_qc_stats.py:550-552 | `includeStop == False` removes exactly the stop rows |
| MutationStats.SumCntInUnion | code/plot_mutational_frequency_and_qc_stats.py:70-82 | counts over disjoint category sets add up |
| MutationStats.SumCntInCovering | code/plot_mutational_frequency_and_qc_stats.py:70-82 | counting over a set holding every row's category counts all of the position's CNT |
| MutationStats.SumCntInNone | code/plot_mutational_frequency_and_qc_stats.py:175-177 | counting over a set holding no row's category gives 0 |
| MutationStats.SumCnt | code/plot_mutational_frequency_and_qc_stats.py:71 | `sum(value.loc[(POSITION == p) & (category == c)]['CNT'])` is the CNT total of the rows at p in category c |
| MutationStats.TallyAt | code/plot_mutational_frequency_and_qc_stats.py:70-72 | the inner tally loop gives one count per category, each that category's CNT total at p |
| MutationStats.TallyPerCodon | code/plot_mutational_frequency_and_qc_stats.py:64-75 | the tally has one entry per position that occurs, and each entry has every category's CNT total there |
| MutationStats.AllNtMutsCountsTotal | code/plot_mutational_frequency_and_qc_stats.py:82 | `all_nt_muts_counts` is the CNT of the rows with 1..3 changes, and all of the position's CNT when every row has 1..3 changes |
| MutationStats.AllNtMutsColumn | code/plot_mutational_frequency_and_qc_stats.py:78-82 | the `all_nt_muts_counts` column has one value per tallied position, the sum of its 1-, 2- and 3-change counts, and an empty tally raises KeyError |
| MutationStats.AllNtMutsColumnOfRows | code/plot_mutational_frequency_and_qc_stats.py:56-82 | on the tally built from the rows, line 82 fails exactly when there is no row, and otherwise gives each position the CNT of its rows with 1..3 changes |
| MutationStats.DefaultRangeStopsAtFirstSummary | code/plot_mutational_frequency_and_qc_stats.py:910-914 | a table numbered from codon 1 under the default range stops with KeyError at line 82, and `max()` of its positions raises ValueError |
| MutationStats.AaTypeTallyPartition | code/plot_mutational_frequency_and_qc_stats.py:175-177 | the synonymous, nonsynonymous and stop counts of a position add up to all of its CNT |
| MutationStats.NonSynonymousOnlyHasNoSynonymous | code/plot_mutational_frequency_and_qc_stats.py:546-548 | no row kept by `nonSynOnly` is classified synonymous, so a synonymous tally over the kept rows is 0 at every position |
| MutationStats.AaTypePanelIgnoresNonSynOnly | code/plot_mutational_frequency_and_qc_stats.py:602-629 | as written, the aaType panel walks the filtered tables again, so its counts are the same with and without `nonSynOnly`, and its synonymous count is that of all rows |
| MutationStats.SynonymousCountedUnderNonSynOnly | code/plot_mutational_frequency_and_qc_stats.py:602-629 | a synonymous change with CNT 5 at codon 1 still shows 5 synonymous counts when `nonSynOnly` is set |
| MutationStats.SumCntInWhere | code/plot_mutational_frequency_and_qc_stats.py:627 | a row selection leaves unchanged the count of every category whose rows it all keeps |
| MutationStats.CorrectedAaTypePanelDropsSynonymous | code/plot_mutational_frequency_and_qc_stats.py:862 | with `nonSynOnly` applied to the panel's rows, the synonymous counts are 0 and the nonsynonymous counts are unchanged; without the flag the panel is as written |
| MutationStats.LogoColumns | code/plot_mutational_frequency_and_qc_stats.py:755-776 | the logo columns are the amino acids seen, with '.' renamed 'X'; without stops 'X' is dropped, and the drop raises KeyError when there is no 'X' column |
| MutationStats.DiversityBounds | code/plot_mutational_frequency_and_qc_stats.py:706 | a position's diversity is at most its number of rows, and at least 1 for a position that occurs |
| MutationStats.AaDiversity | code/plot_mutational_frequency_and_qc_stats.py:705-706 | one entry per position that occurs, holding the number of distinct amino acids seen there |
| MutationStats.Clip | code/plot_mutational_frequency_and_qc_stats.py:800-814 | the clipped range lies inside both ranges; None (ValueError from `min` of an empty set) only when the ranges do not meet |
| MutationStats.ClipIsIntersection | code/plot_mutational_frequency_and_qc_stats.py:800-814 | the clipped range holds exactly the codons in both the region and the row |
| MutationStats.E2E3BarsMeet | code/plot_mutational_frequency_and_qc_stats.py:816-827 | when both bars are drawn, E3's bar ends where E2's starts, at codon 73 |
| MutationStats.E2E3Examples | code/plot_mutational_frequency_and_qc_stats.py:794-827 | worked example: row [9, 50] shows E3 only, [51, 91] both, [379, 419] E2 only, with the bars and label positions |
| MutationStats.EndPos | code/plot_mutational_frequency_and_qc_stats.py:771 | `max(mut_freqs_df.index)` is a position of the rows and at least every other one, or ValueError when there is no row |
| MutationStats.LogoRowsOf | code/plot_mutational_frequency_and_qc_stats.py:771-842 | the logo rows of a table run up to its largest position, or the plot stops with ValueError when the table is empty |
| MutationStats.LogoRows | code/plot_mutational_frequency_and_qc_stats.py:768-842 | the logo row loop gives `num_rows` rows, row i on window i (no clamping) with the E2/E3 band when annotation is on |
| MutationStats.LogoRowsTile | code/plot_mutational_frequency_and_qc_stats.py:474-503 | logo rows are adjacent, the first is 42 codons wide and the others 41, they reach the largest position, and the last lies wholly past it exactly when maxIndex >= 50 and maxIndex-9 is a multiple of 41 |
| VariantMerge.PhaseNext | code/translations_and_merging.py:30-33 | the codon phase counter steps 2 to 0 and every other phase to its successor |
| VariantMerge.BuildRefInfo | code/translations_and_merging.py:25-33 | the `refInfo` loop builds the table of the region, which maps str(p) to the base at p and p's phase |
| VariantMerge.RefTableLookup | code/translations_and_merging.py:28-29 | str(n) is a key exactly for n in the region, and maps to the base at n and phase (n-9821) mod 3 |
| VariantMerge.RefTableContents | code/translations_and_merging.py:28-29 | the table holds exactly those entries, for every integer n |
| VariantMerge.RefTableKeys | code/translations_and_merging.py:28-29 | every key is the string of a position in the region |
| VariantMerge.RefTableSize | code/translations_and_merging.py:28-29 | the table has one key per base |
| VariantMerge.RefInfoShape | code/translations_and_merging.py:21-33 | on a full-length reference the table has 1219 keys; 9820 has phase 2, 9821 phase 0, and the phases cycle 0, 1, 2 |
| VariantMerge.MaxWidth | code/translations_and_merging.py:40-44 | maxPad is at least every line's field count and equals one of them, or 0 without lines |
| VariantMerge.ReadVariants | code/translations_and_merging.py:39-45 | the reading loop keeps every line's fields in order and the running maximum of their counts |
| VariantMerge.Padded | code/translations_and_merging.py:48-51 | a padded row has length max(len, w), keeps its fields as an unchanged prefix and only gains '' |
| VariantMerge.PadRows | code/translations_and_merging.py:48-51 | the padding loop extends every row of the buffer in place to its padded form |
| VariantMerge.PadAll | code/translations_and_merging.py:48-51 | the rows come out padded, in order |
| VariantMerge.PaddedToMaxWidth | code/translations_and_merging.py:48-51 | after padding to maxPad every row has exactly maxPad fields |
| VariantMerge.Reps | code/translations_and_merging.py:55 | reps = floor((maxPad-2)/4) for maxPad >= 2, and 0 below that |
| VariantMerge.HeaderFor | code/translations_and_merging.py:54-58 | the header has 2+4*reps names: 'chrom', 'pos', then variant_i, total_reads_i, avg_read_qual_i, posterior_probability_i for each slot i |
| VariantMerge.BuildHeader | code/translations_and_merging.py:54-58 | the header loop builds that header |
| VariantMerge.HeaderFitsIff | code/translations_and_merging.py:55-62 | the header is as wide as the rows exactly when maxPad >= 2 and maxPad-2 is a multiple of 4 |
| VariantMerge.EmptySlotsHaveNoReads | code/translations_and_merging.py:79-81 | a line whose `total_reads_i` fields are all empty totals 0 |
| VariantMerge.PaddingAddsNoReads | code/translations_and_merging.py:79-81 | padding a line does not change its total |
| VariantMerge.ReadTotalOfNumerals | code/translations_and_merging.py:79-81 | a line whose `total_reads_i` fields are numerals totals the sum of their numbers |
| VariantMerge.LineTotal | code/translations_and_merging.py:81 | the per-line sum, or ValueError for the first field that is not a number |
| VariantMerge.TotalsShape | code/translations_and_merging.py:79-81 | the totals succeed exactly when every line's does, and then hold each line's total in order; otherwise the error is that of the first failing line |
| VariantMerge.ComputeTotals | code/translations_and_merging.py:80-81 | the `iterrows` loop over the lines computes those totals |
| VariantMerge.TotalsStopAtError | code/translations_and_merging.py:80-81 | an error in one line's total ends the loop with that error |
| VariantMerge.EarlyErrorStays | code/translations_and_merging.py:81 | an unreadable field ends the line's sum with that error |
| VariantMerge.VisitedSlots | code/translations_and_merging.py:84-85 | the slot loop visits slots in order 0, 1, … and stops at reps or at the first empty variant field |
| VariantMerge.SlotsFromCount | code/translations_and_merging.py:83-190 | when a line's slots all annotate, there is one result per visited slot |
| VariantMerge.SlotsFromValues | code/translations_and_merging.py:83-190 | each result is that slot's allele fraction and codon, in slot order |
| VariantMerge.AnnotateRow | code/translations_and_merging.py:84-190 | the `while` loop over one line's slots computes those results, or the first error |
| VariantMerge.AssembleInFrame | code/translations_and_merging.py:89-127 | on the reference table the assembly succeeds exactly when the whole codon lies in the region, and gives the reference codon with the variant at the phase's index |
| VariantMerge.AssembleFirst | code/translations_and_merging.py:89-100 | phase 0: v + ref[p+1] + ref[p+2], or KeyError when the codon runs past the region |
| VariantMerge.AssembleMiddle | code/translations_and_merging.py:102-113 | phase 1: ref[p-1] + v + ref[p+1], or KeyError when the codon leaves the region |
| VariantMerge.AssembleLast | code/translations_and_merging.py:115-126 | phase 2: ref[p-2] + ref[p-1] + v, or KeyError when the codon starts before the region |
| VariantMerge.RegionCodons | code/translations_and_merging.py:115-119 | on the script's reference, a nucleotide variant at 9820 raises KeyError for '9818'; every later position of the region gets its codon |
| VariantMerge.NonNucleotideSkipped | code/translations_and_merging.py:130-131 | a variant other than A, T, G, C gets its allele fraction and no codon, and the reference is not consulted |
| VariantMerge.AnnotateVariants | code/translations_and_merging.py:76-190 | the two loops over the lines after the first compute every line's total and then its slots, or the first error |
| VariantMerge.AnnotateAllShape | code/translations_and_merging.py:76-190 | a successful annotation has one row per line after the first, each with its fields, its read total and its visited slots |
| VariantMerge.AnnotatedExtend | code/translations_and_merging.py:83-190 | one more line's slot outcome decides the outcome of the lines so far |
| VariantMerge.AnnotatedStopsAtError | code/translations_and_merging.py:83-190 | an error on one line ends the annotation with that error |
| VariantMerge.AnnotatedShape | code/translations_and_merging.py:83-190 | annotated rows are the input lines in order, each with its own total and slots |
| VariantMerge.Frame | code/translations_and_merging.py:47-62 | a built frame has one row per line, each the line's fields padded to maxPad and 2+4*reps wide |
| VariantMerge.FrameRefusesOddWidth | code/translations_and_merging.py:53-62 | building the frame fails exactly when there is a line and maxPad is not 2 plus a multiple of 4 |
| VariantMerge.BuildFrame | code/translations_and_merging.py:39-62 | the reading, padding and header code builds that frame |
| VariantMerge.MergeVariants | code/translations_and_merging.py:25-190 | the script's steps in order compute Merge of the reference and the variant lines |
| VariantMerge.ShortReferenceMissesColumns | code/translations_and_merging.py:25-72 | once the frame is built, a reference shorter than 9820 bases gives an empty `refInfo`, and selecting `base` and `codonPos` raises KeyError; a reference reaching the region goes on to annotate the lines against its table |
| VariantMerge.MergeOutput | code/translations_and_merging.py:25-190 | a successful run gives one annotated row per line after the first, each with its padded fields, the sum of its reads and its slots annotated against the reference table |

## Left out

- Drawing: the matplotlib and logomaker calls, figure sizes and the y
  coordinates of bars and labels. A `Mark` keeps the x coordinates, the
  color and the label text that are handed to them.
- The `print` diagnostics. They change no data.
- File and command-line input and output:
  - `argparse`;
  - `read_csv` and `to_csv`;
  - the JSON annotation file at code/logo_plot_standalone.py:43-44, which is
    overwritten at line 47 anyway;
  - the reading of the FASTA file.

  The reference sequence, the variant lines, the annotation table and the
  largest codon position of code/logo_plot_standalone.py
  (`max(matrix_input.index)`) are parameters instead. In the statistics
  script that position is `MutationStats.EndPos` of the tallied rows.
- pandas reshaping:
  - the pivot in `format_data`;
  - `.loc[start:end]` slicing of the count matrices;
  - the merge of `refInfo` into the variant frame and the column reordering
    (code/translations_and_merging.py:66-72). That reordering also drops the
    last `posterior_probability` column, which the later steps do not read.
    Of the merge, only its `KeyError` for an empty reference table is
    modelled (`VariantMerge.Merge`); the merged `base` and `codonPos`
    columns themselves are not;
  - the inserted `total_reads`, `af_i` and `*_change_i` columns.

  An annotated row holds the line's fields, its total and its slot results
  instead. The two branches of the `if` at code/translations_and_merging.py:86
  differ only in inserting those columns, so they are modelled once.
- Floating point:
  - the quality means and the `minQ` test of `filter`;
  - depth means, frequencies and the counts-to-information transform.

  The allele fraction is an exact rational `real`; Python's float rounding
  is not modelled.
- Amino-acid translation: `generate_codon_reference`, `Dna(...).transcribe()`
  and the `translate_*`/`get_*` methods come from modules that are not part of
  this model. The model stops at the assembled DNA codon. It therefore does
  not model a KeyError that `codon_library` could raise for a codon that is
  not in that library.
- `int()`: underscores between digits and non-ASCII digits are not accepted
  by `Text.ParseInt`.
  - `astype(int)` at code/translations_and_merging.py:81 is modelled as
    `int()` on each field.
  - Python's whitespace set is spelled out character by character in
    `Text.IsSpace`.
- VariantMerge.ReadTotal: sums unbounded integers. `astype(int)` at
  code/translations_and_merging.py:81 makes 64-bit integers, so a field
  above 2^63-1 raises OverflowError there and a sum past that bound wraps
  around; neither is modelled.
- The sum at code/translations_and_merging.py:81 also picks up the
  `total_reads` column itself, because its name starts with `total_reads`.
  That column still holds the 0 placed at line 73, so it adds nothing, and
  `VariantMerge.ReadTotal` sums only the slot fields.
- MutationStats.LogoColumns: models the columns as a set. When stops are
  included and the frame already has an `X` column besides `.`, pandas keeps
  two columns named `X` after the rename; the set holds one.
- `get_coverage_per_base` is empty, and the commented-out blocks are not
  code; neither is modelled.
- The float-valued per-amino-acid frequency dictionaries are not modelled
  (code/plot_mutational_frequency_and_qc_stats.py:757). Their integer
  counterparts at line 461 are an instance of `MutationStats.TallyPerCodon`,
  with the AA column as the category.

## Findings

| source | as written | input that shows it | evidently intended | confidence | as-written member | corrected member |
|---|---|---|---|---|---|---|
| code/logo_plot_standalone.py:54 | `range(value['start'], value['end'])` leaves out each region's last codon. In a contiguous table that codon matches no key, so a row ending there gets no band, or raises KeyError(-1) when it starts there. | Domains E3 1-64 … C domain 333-405, largest codon 405: the last row [379, 405] ends on 405, which matches nothing, and draws no bar | `range(start, end + 1)`, since the regions are inclusive and the bars are drawn through `end + 1` | high; not executed | LogoPlot.HalfOpenMissesRegionEnd | LogoPlot.InclusiveFindsContainingRegion |
| code/logo_plot_standalone.py:99-101 | `num_rows = ceil((endPos - 8) / 41)`, but the first row holds 42 codons, so the count is one too many when endPos - 9 is a positive multiple of 41. The extra last row is the empty window [endPos + 1, endPos]. | endPos = 50: two rows, [9, 50] and [51, 50] | one row per started stretch of codons, so that every row holds a codon | medium; not executed | LogoPlot.FinalRowEmptyIff | LogoPlot.CorrectedRowCount |
| code/plot_mutational_frequency_and_qc_stats.py:860 | The `--pos` default is "0-0", which `filter` reads as the single codon 0, although the option's help text says the default uses all positions. | any codon table numbered from codon 1 on, as the same help text assumes: with the default, `filter` keeps no row, and the run then stops with KeyError at line 82 (`MutationStats.DefaultRangeStopsAtFirstSummary`) | without `--pos`, keep every codon position | medium; not executed | MutationStats.DefaultRangeKeepsNothing | MutationStats.DefaultUsesAllPositions |
| code/plot_mutational_frequency_and_qc_stats.py:602-629 | `nonSynOnly` filters only the earlier loop's own `value` (line 548). The aaType panel's loop walks `df_hash` again, so it still counts the synonymous changes, although the flag's help text at line 862 says only nonsynonymous mutations are considered. | one synonymous row, REF_AA = AA = "A" with CNT 5 at codon 1, with `--nonSynOnly`: the panel shows 5 synonymous counts | the panel tallies the rows `nonSynOnly` keeps, so its synonymous counts are 0. Against this reading, the commented-out legend at line 681 lists 'synonymous' beside '1 nt (nonsyn)' … '3 nt (nonsyn)', as if the flag were meant for the nucleotide-change bars only | low; not executed | MutationStats.SynonymousCountedUnderNonSynOnly | MutationStats.CorrectedAaTypePanelDropsSynonymous |
