# GWAS data shaping for one phecode

This project models the `GwasData` class of a genome-wide association
dashboard (`static/utilites/gwas_class.py`). For one phecode, the class takes
the rows of the association query and:

- ranks them by chromosome and position (REL_POS);
- builds the top-results table: variants with LOG10P above 5, strongest
  first, with display columns;
- derives the Manhattan-plot axis: one tick per chromosome at the median
  REL_POS of its rows, labelled "1".."nChr", and the x-extent of the
  genome-wide significance line;
- reads a phenotype's description, normalising its phecode and
  title-casing its texts.

The model has six modules:

- `Seqs`: map, filter and sort by a comparison.
- `Text`: ASCII title case, one-character replacement, the decimal
  rendering of a natural number.
- `Frames`: a labelled table with the pandas operations the class uses:
  `query`, `loc`, `sort_values`, column assignment, `rename`.
- `GenomeIndex`: the indexed data, `np.unique`, the group medians, the
  tick labels, the maximum REL_POS.
- `TopHits`: the top-results table and the proof that the pandas steps
  build it.
- `Gwas`: the class and its methods, plus the phenotype description.

The object's attributes are `const` fields. The source assigns them in
`__init__` and never changes them afterwards. The top-results table is built
step by step by `TopHits.TopResults`, in source order, on a frame value. The
table is specified by `TopHits.TopTable`.

## Model

| member | source | states |
|---|---|---|
| Seqs.Map | static/utilites/gwas_class.py:33 | the list comprehension has one element per input, the function applied to the input at the same position |
| Seqs.Filter | static/utilites/gwas_class.py:30 | the kept rows are exactly those satisfying the mask, each as often as before, all satisfying it |
| Seqs.Sort | static/utilites/gwas_class.py:24 | the result is a permutation of the input |
| Seqs.SortSorted | static/utilites/gwas_class.py:24 | for a total preorder the sort is ordered by it |
| Seqs.SortOfSorted | static/utilites/gwas_class.py:43 | sorting an already ordered sequence leaves it unchanged |
| Seqs.SortMap | static/utilites/gwas_class.py:32 | sorting mapped rows by a comparison that agrees with one on the originals is mapping the sorted originals |
| Seqs.FilterMap | static/utilites/gwas_class.py:30 | filtering mapped rows is mapping the rows filtered by the composed condition |
| Seqs.DistinctCard | static/utilites/gwas_class.py:48 | a strictly increasing sequence has as many elements as its set of values |
| Text.Replace | static/utilites/gwas_class.py:41 | every occurrence of the character is replaced, every other character is kept in place |
| Text.ReplaceRemovesAll | static/utilites/gwas_class.py:87 | after replacing `_` no `_` is left and every other character still occurs |
| Text.Title | static/utilites/gwas_class.py:41-42 | `str.title` keeps the number of characters |
| Text.TitleSpec | static/utilites/gwas_class.py:41-42 | title case agrees with the word-start rule at every position: a letter after a letter is lower-cased, any other letter upper-cased, other characters kept |
| Text.TitleKeepsNonLetters | static/utilites/gwas_class.py:94 | title case keeps the length, which positions are letters, and every non-letter |
| Text.TitleIdempotent | static/utilites/gwas_class.py:96 | title-casing a title-cased text changes nothing |
| Text.TitleOfReplacedHasNoUnderscore | static/utilites/gwas_class.py:41 | the Effect text contains no `_` |
| Text.NatToString | static/utilites/gwas_class.py:67 | `str(n)` is non-empty, all decimal digits, without a leading zero |
| Text.NatToStringRoundTrip | static/utilites/gwas_class.py:67 | reading `str(n)` back gives n |
| Text.NatToStringInjective | static/utilites/gwas_class.py:67 | different numbers have different labels |
| Frames.IndexOf | static/utilites/gwas_class.py:31 | the position of the first column with the label, and the column count exactly when the label is absent |
| Frames.Column | static/utilites/gwas_class.py:33 | `f[c]` has one cell per row, the cell under c |
| Frames.Loc | static/utilites/gwas_class.py:30-31 | `loc[:, cols]` keeps every row, has exactly the listed labels, and each kept cell is the one the row had under that label |
| Frames.QueryGreater | static/utilites/gwas_class.py:30 | `query('c > t')` keeps exactly the rows whose value exceeds t, each as often as before, labels unchanged |
| Frames.SortDescending | static/utilites/gwas_class.py:32 | `sort_values(c, ascending=False)` is a permutation of the rows whose values under c never increase |
| Frames.Assign | static/utilites/gwas_class.py:33 | after `f[c] = v` the cells under c are v, a new label is appended last, every other cell is kept |
| Frames.IndexOfPrefix | static/utilites/gwas_class.py:33 | appending a column does not move the existing labels |
| Frames.IndexOfAppended | static/utilites/gwas_class.py:41-42 | a new label lands in the last position |
| Frames.AssignNewColumn | static/utilites/gwas_class.py:33 | a new column computed cell by cell from another column appends the computed cell to each row |
| Frames.AssignExistingColumn | static/utilites/gwas_class.py:40 | an existing column recomputed cell by cell replaces that cell in each row |
| Frames.Rename | static/utilites/gwas_class.py:34-39 | `rename(columns=m)` relabels the listed columns and moves no cell |
| GenomeIndex.Index | static/utilites/gwas_class.py:24-27 | the data rows are a permutation of the records, in ascending (CHR, POS) order, row i has REL_POS i, and each row carries its EFFECTSIZE(SE) text |
| GenomeIndex.Dedup | static/utilites/gwas_class.py:48 | removing repeats from an ascending sequence gives a strictly increasing one with the same values |
| GenomeIndex.SameMultisetSameMembers | static/utilites/gwas_class.py:48 | sequences with the same multiset have the same members |
| GenomeIndex.SameMembersSameSet | static/utilites/gwas_class.py:48 | sequences with the same members have the same set of values |
| GenomeIndex.Unique | static/utilites/gwas_class.py:48 | `np.unique` is strictly increasing, has exactly the input's values, and as many as the input has distinct values |
| GenomeIndex.ChromosomeCount | static/utilites/gwas_class.py:48 | nChr is the number of distinct CHR values of the data and the number of ticks |
| GenomeIndex.SameRecordsSameChromosomes | static/utilites/gwas_class.py:24 | rows holding the same records hold the same chromosomes |
| GenomeIndex.ChromosomeCountOfRecords | static/utilites/gwas_class.py:48 | nChr is the number of distinct CHR values among the query's records |
| GenomeIndex.Ticks | static/utilites/gwas_class.py:50 | there is one tick per distinct chromosome |
| GenomeIndex.Median | static/utilites/gwas_class.py:50 | the median is the middle of the values in ascending order (the middle value for an odd count, the mean of the two middle values for an even one), and so the mean of two of the values |
| GenomeIndex.MiddleOfMembers | static/utilites/gwas_class.py:50 | the middle of a rearrangement of the values is the mean of two of them |
| GenomeIndex.GroupRanks | static/utilites/gwas_class.py:50 | a chromosome present in the data has a non-empty group |
| GenomeIndex.FirstRowOf | static/utilites/gwas_class.py:50 | the first row on the chromosome, none before it |
| GenomeIndex.LastRowOf | static/utilites/gwas_class.py:50 | the last row on the chromosome, none after it |
| GenomeIndex.FirstRowExists | static/utilites/gwas_class.py:50 | a chromosome present in the data has a first row |
| GenomeIndex.LastRowExists | static/utilites/gwas_class.py:50 | a chromosome present in the data has a last row |
| GenomeIndex.ChrAscending | static/utilites/gwas_class.py:24 | in indexed data CHR never decreases |
| GenomeIndex.ChromosomeBlock | static/utilites/gwas_class.py:24-25 | in indexed data a chromosome's rows are exactly those from its first row to its last |
| GenomeIndex.GroupRanksOfBlock | static/utilites/gwas_class.py:50 | the REL_POS group of a contiguous block of rows is that block's ranks |
| GenomeIndex.GroupRanksOfContiguous | static/utilites/gwas_class.py:50 | the REL_POS group of rows lo..hi is the range lo..hi |
| GenomeIndex.MedianOfRange | static/utilites/gwas_class.py:50 | the median of the integers lo..hi-1 is their midpoint |
| GenomeIndex.MiddleOfRange | static/utilites/gwas_class.py:50 | the middle of the integers lo..hi-1 is their midpoint, for odd and even counts |
| GenomeIndex.MedianOfContiguous | static/utilites/gwas_class.py:50 | the median REL_POS of rows lo..hi is (lo + hi) / 2 |
| GenomeIndex.GroupMedianIsMidpoint | static/utilites/gwas_class.py:50 | a chromosome's median REL_POS is the midpoint of its first and last row |
| GenomeIndex.TickIsMidpoint | static/utilites/gwas_class.py:50 | tick k sits at the midpoint of the first and last row of the k-th chromosome in ascending order |
| GenomeIndex.TicksIncreasing | static/utilites/gwas_class.py:50 | the ticks are strictly increasing |
| GenomeIndex.TicksInRange | static/utilites/gwas_class.py:50 | every tick lies in [0, N - 1] |
| GenomeIndex.TickText | static/utilites/gwas_class.py:67 | there are n labels, all made of decimal digits |
| GenomeIndex.TickTextReadsBack | static/utilites/gwas_class.py:67 | label k reads as k + 1, and the labels are pairwise different |
| GenomeIndex.MaxRelPos | static/utilites/gwas_class.py:73 | the maximum REL_POS: absent exactly for empty data, otherwise attained by a row and at least every row's REL_POS |
| GenomeIndex.MaxRelPosIsLastRank | static/utilites/gwas_class.py:72-73 | for indexed data the significance line spans 0..N-1 |
| TopHits.DataFrameOf | static/utilites/gwas_class.py:24-27 | the data as a labelled frame is well formed |
| TopHits.Hits | static/utilites/gwas_class.py:30-32 | the hits are exactly the rows with LOG10P above 5, each as often as in the data, in non-increasing LOG10P order |
| TopHits.HitsEmptyIff | static/utilites/gwas_class.py:30 | there are no hits exactly when no row has LOG10P above 5 |
| TopHits.EffectText | static/utilites/gwas_class.py:41 | the Effect text has as many characters as EFFECT and no `_` |
| TopHits.TopTable | static/utilites/gwas_class.py:29-45 | the table is well formed, has the final labels in order and one row per hit |
| TopHits.TopTableCells | static/utilites/gwas_class.py:29-45 | row r of the table has the final labels and shows the r-th hit: identifiers and HGVSc as stored, title-cased Impact, Effect with spaces for `_` and title-cased (no `_` left), rounded MAF, the P-value text, the EFFECTSIZE(SE) text; that hit is above the threshold |
| TopHits.HitAboveThreshold | static/utilites/gwas_class.py:30 | every hit has LOG10P above 5 |
| TopHits.QueryHits | static/utilites/gwas_class.py:30 | the query keeps the rows above the threshold, in data order |
| TopHits.LocProjected | static/utilites/gwas_class.py:31 | `loc` keeps the eight projected cells of each row |
| TopHits.SortProjected | static/utilites/gwas_class.py:32 | sorting the projected frame by LOG10P is sorting the rows by LOG10P |
| TopHits.SelectHits | static/utilites/gwas_class.py:30-32 | query, loc and sort give the projected cells of exactly the hits |
| TopHits.AddPValue | static/utilites/gwas_class.py:33 | the P-value column is appended, computed from LOG10P |
| TopHits.RoundMaf | static/utilites/gwas_class.py:40 | MAF is rounded in place |
| TopHits.AddEffect | static/utilites/gwas_class.py:41 | the Effect column is appended and EFFECT stays |
| TopHits.AddImpact | static/utilites/gwas_class.py:42 | the Impact column is appended and IMPACT stays |
| TopHits.ResortSorted | static/utilites/gwas_class.py:43 | re-sorting rows already in descending LOG10P order keeps them in place |
| TopHits.ResortKeepsOrder | static/utilites/gwas_class.py:43 | the second sort keeps the order of the first |
| TopHits.SelectDisplayColumns | static/utilites/gwas_class.py:43-45 | the final selection leaves exactly the display columns |
| TopHits.SelectTopHits | static/utilites/gwas_class.py:30-32 | the first three pandas steps give the projected hits, strongest first |
| TopHits.AddPValueColumn | static/utilites/gwas_class.py:33-39 | adding the P-value and renaming gives the renamed rows |
| TopHits.AddTextColumns | static/utilites/gwas_class.py:40-42 | rounding MAF and adding Effect and Impact gives the display rows |
| TopHits.TopResults | static/utilites/gwas_class.py:29-45 | the pandas steps in source order build the top-results table |
| Gwas.NormalPhecode | static/utilites/gwas_class.py:87 | the phecode keeps its length, each `_` becomes `.`, and every other character stays in place |
| Gwas.DescribedPhenoAsWritten | static/utilites/gwas_class.py:87-96 | the description as written, whose contract is `Gwas.DescribedPhenoAsWrittenSpec` |
| Gwas.DescribedPhenoAsWrittenSpec | static/utilites/gwas_class.py:85-96 | as written: the phecode has each `_` turned into `.`; counts kept; category title-cased; a stage code keeps its phenotype, any other phecode has it title-cased |
| Gwas.DescribedPheno | static/utilites/gwas_class.py:88-92 | the corrected description of the Finding, whose contract is `Gwas.DescribedPhenoSpec` |
| Gwas.DescribedPhenoSpec | static/utilites/gwas_class.py:88-92 | corrected: the phecode has each `_` turned into `.`; counts kept; category title-cased; the stage I or II code gets its canonical text, other stage codes keep theirs, every other phenotype is title-cased |
| Gwas.DescribedPhenoIdempotent | static/utilites/gwas_class.py:88-92 | describing a described record with the corrected description changes nothing |
| Gwas.StageOneOrTwoNeverSet | static/utilites/gwas_class.py:88-90 | for the stage I or II record with another text, the code as written keeps that text, where the intended description gives the canonical one |
| Gwas.AsWrittenInnerBranchDead | static/utilites/gwas_class.py:88-92 | the as-written description never sets the canonical text, and it differs from the intended one only in the phenotype of the 585.4 code |
| Gwas.GwasData.constructor | static/utilites/gwas_class.py:8-60 | the object holds the indexed records, the top-results table, nChr and the ticks of its data |
| Gwas.GwasData.ManhattanAxes | static/utilites/gwas_class.py:62-76 | one point (REL_POS, LOG10P) per row; nChr strictly increasing ticks within [0, N - 1], labelled "1".."nChr"; the line spans 0 to N - 1 |
| Gwas.GwasData.PhenoInfo | static/utilites/gwas_class.py:80-97 | fails exactly when there is no phenotype row; otherwise the last row, described as written (a stage code keeps its phenotype) |

## Left out

- The SQL queries and the connection (lines 16-21, 24, 81-84). Their result rows are parameters: the constructor's `records` and `PhenoInfo`'s `rows`.
- Floating-point formatting: `round(..., 2/3)` and `astype(str)` for EFFECTSIZE(SE), `'%.2e' % 10 ** -LOG10P`, `round(MAF, 5)`. These are opaque functions in `GenomeIndex.Formatters`, handed to the constructor. Real numbers are exact.
- The rendering. That covers the plotly figure, colours, hover template and custom data (lines 49, 51-60, 63-65, 68-70, 74-77), and `html_table`'s `to_html` (lines 99-100).
- The line's y coordinate `-log10(genomewide_val)` (line 74), a floating-point value.
- `Text.TitleSpec`: only ASCII letters are cased. Python's `str.title` also cases non-ASCII letters (`é` to `É`, `ß` to `Ss`); other characters, apostrophes and digits included, are word boundaries in both.
- `Seqs.Sort`: does not promise the order of equal keys. pandas' default sort is not stable either, so ties in LOG10P or in (CHR, POS) are in no promised order.
- `groupby('CHR').median()` on line 50 is modelled as pandas before 2.0 computes it: the text columns (VAR_ID, GENE, ...) are dropped silently and REL_POS's median is kept. From pandas 2.0 on, `numeric_only` defaults to False and that line raises TypeError on the text columns; that error is not modelled.
- `reset_index(drop=True)`: rows are positional, so it is the identity here.
- The v.* columns of the variant table: only the ones the class uses are modelled (VAR_ID, CHR, POS, GENE, IMPACT, EFFECT, HGVS_c).
- An empty query result is not an error. The code raises nothing: the tables are empty, nChr is 0 and the line's end is `None`, where pandas gives NaN.
- `genomewide_val` is not modelled. The code does not check it: a value at or below 0 raises nothing, `-np.log10` gives inf or nan with a warning, and a non-numeric value makes `np.log10` raise TypeError on line 74.

## Findings

| source | as written | input that shows it | evidently intended | confidence | as-written member | corrected member |
|---|---|---|---|---|---|---|
| static/utilites/gwas_class.py:89 | the inner test compares the phecode with '584.4', which is not among the stage codes the outer test just required, so the canonical text is never set | a phenotype row with PHECODE "585_4" and phenotype "CKD stage 1-2" keeps "CKD stage 1-2" | '585.4', the stage I or II code, gets "Chronic Kidney Disease, Stage I or II" | medium, not executed | Gwas.StageOneOrTwoNeverSet | Gwas.DescribedPhenoSpec |

`Gwas.GwasData.PhenoInfo` keeps the behaviour as written: a stage code keeps its stored phenotype. The corrected description `Gwas.DescribedPheno` is given for comparison only.
