/** The top-results table of `GwasData.__init__` (static/utilites/gwas_class.py,
    lines 29-45): the rows with LOG10P above 5, strongest first, with display
    columns. `TopResults` performs the pandas steps one by one on a frame
    value; the lemmas here say what each step yields, so that the end result
    can be stated row by row. */
module TopHits {
  import opened Seqs
  import opened Text
  import opened Frames
  import opened GenomeIndex

  /** `query('LOG10P > 5')`: strictly above, so a LOG10P of exactly 5 is out. */
  const Threshold: real := 5.0

  /** The columns of the indexed data frame: REL_POS, the variant columns,
      the statistics and the EFFECTSIZE(SE) text. */
  const DataColumns: seq<string> :=
    ["REL_POS", "VAR_ID", "CHR", "POS", "GENE", "IMPACT", "EFFECT", "HGVS_c",
     "MAF", "EFFECTSIZE", "SE", "LOG10P", "EFFECTSIZE(SE)"]

  /** Line 31: the columns `loc` keeps. */
  const ProjectedColumns: seq<string> :=
    ["VAR_ID", "GENE", "IMPACT", "EFFECT", "HGVS_c", "MAF", "LOG10P", "EFFECTSIZE(SE)"]

  /** Lines 35-38: the renames. */
  const Renames: map<string, string> :=
    map["HGVS_c" := "HGVSc", "EFFECTSIZE(SE)" := "EffectSize(SE)", "GENE" := "Gene", "VAR_ID" := "VarID"]

  /** The labels after the P-value column is added and the renames applied. */
  const RenamedColumns: seq<string> :=
    ["VarID", "Gene", "IMPACT", "EFFECT", "HGVSc", "MAF", "LOG10P", "EffectSize(SE)", "P-value"]

  /** The labels once Effect and Impact have been added. */
  const DisplayColumns: seq<string> :=
    ["VarID", "Gene", "IMPACT", "EFFECT", "HGVSc", "MAF", "LOG10P", "EffectSize(SE)", "P-value", "Effect", "Impact"]

  /** Line 44: the final labels, in order. */
  const FinalColumns: seq<string> :=
    ["VarID", "Gene", "Impact", "Effect", "HGVSc", "MAF", "P-value", "EffectSize(SE)"]

  /** A data row as a frame row under `DataColumns`. */
  function DataCells(d: DataRow): Row
  {
    [Int(d.relPos), Text(d.rec.varId), Int(d.rec.chr), Int(d.rec.pos), Text(d.rec.gene),
     Text(d.rec.impact), Text(d.rec.effect), Text(d.rec.hgvsc), Num(d.rec.maf),
     Num(d.rec.effectSize), Num(d.rec.se), Num(d.rec.log10p), Text(d.effectSe)]
  }

  /** `self.data` as a labelled frame. */
  function DataFrameOf(data: seq<DataRow>): (f: Frame)
    ensures WellFormed(f)
  {
    Frame(DataColumns, Map(data, DataCells))
  }

  predicate IsHit(d: DataRow) { d.rec.log10p > Threshold }

  predicate ByLog10pDescending(a: DataRow, b: DataRow) { a.rec.log10p >= b.rec.log10p }

  /** The rows of the top-results table, as data rows: exactly the rows with
      LOG10P above the threshold, each as often as in the data, in
      non-increasing LOG10P order (ties in no promised order). */
  function Hits(data: seq<DataRow>): (h: seq<DataRow>)
    ensures forall d :: multiset(h)[d] == if d.rec.log10p > Threshold then multiset(data)[d] else 0
    ensures forall i, j :: 0 <= i < j < |h| ==> h[i].rec.log10p >= h[j].rec.log10p
  {
    assert TotalPreorder(ByLog10pDescending);
    SortSorted(Filter(data, IsHit), ByLog10pDescending);
    Sort(Filter(data, IsHit), ByLog10pDescending)
  }

  /** No row above the threshold gives an empty table, not an error. */
  lemma HitsEmptyIff(data: seq<DataRow>)
    ensures Hits(data) == [] <==> forall i :: 0 <= i < |data| ==> data[i].rec.log10p <= Threshold
  {
    var h := Hits(data);
    if h != [] {
      assert h[0] in multiset(h);
      assert h[0] in data;
    }
    if exists i :: 0 <= i < |data| && data[i].rec.log10p > Threshold {
      var i :| 0 <= i < |data| && data[i].rec.log10p > Threshold;
      assert data[i] in multiset(data);
      assert data[i] in multiset(h);
    }
  }

  /** The text of a text cell ("" for any other cell, which the columns
      used here never hold). */
  function TextOf(c: Cell): string
  {
    if c.Text? then c.s else ""
  }

  /** Line 41: `EFFECT` with `_` turned into spaces, then title-cased. */
  function EffectText(effect: string): (t: string)
    ensures |t| == |effect|
    ensures '_' !in t
  {
    TitleOfReplacedHasNoUnderscore(effect);
    Title(Replace(effect, '_', ' '))
  }

  function ProjectedRow(d: DataRow): Row
  {
    [Text(d.rec.varId), Text(d.rec.gene), Text(d.rec.impact), Text(d.rec.effect),
     Text(d.rec.hgvsc), Num(d.rec.maf), Num(d.rec.log10p), Text(d.effectSe)]
  }

  function WithPValue(d: DataRow, fmt: Formatters): Row
  {
    ProjectedRow(d) + [Text(fmt.pValue(d.rec.log10p))]
  }

  function WithRoundedMaf(d: DataRow, fmt: Formatters): Row
  {
    WithPValue(d, fmt)[5 := Num(fmt.roundMaf(d.rec.maf))]
  }

  function WithEffect(d: DataRow, fmt: Formatters): Row
  {
    WithRoundedMaf(d, fmt) + [Text(EffectText(d.rec.effect))]
  }

  function WithImpact(d: DataRow, fmt: Formatters): Row
  {
    WithEffect(d, fmt) + [Text(Title(d.rec.impact))]
  }

  /** A row of the final table, under `FinalColumns`. */
  function TopRow(d: DataRow, fmt: Formatters): Row
  {
    [Text(d.rec.varId), Text(d.rec.gene), Text(Title(d.rec.impact)), Text(EffectText(d.rec.effect)),
     Text(d.rec.hgvsc), Num(fmt.roundMaf(d.rec.maf)), Text(fmt.pValue(d.rec.log10p)), Text(d.effectSe)]
  }

  /** The top-results table: one display row per hit, in the order of `Hits`. */
  function TopTable(data: seq<DataRow>, fmt: Formatters): (f: Frame)
    ensures WellFormed(f)
    ensures f.columns == FinalColumns
    ensures |f.rows| == |Hits(data)|
  {
    Frame(FinalColumns, Map(Hits(data), d => TopRow(d, fmt)))
  }

  /** Row r of the table shows the r-th hit: identifiers and HGVSc as
      stored, IMPACT title-cased, EFFECT with spaces for `_` and title-cased
      (so no `_` is left), MAF rounded, the P-value text of its LOG10P and
      its EFFECTSIZE(SE) text; that hit is above the threshold. */
  lemma TopTableCells(data: seq<DataRow>, fmt: Formatters, r: nat)
    requires r < |Hits(data)|
    ensures var f, h := TopTable(data, fmt), Hits(data)[r];
      && WellFormed(f) && f.columns == FinalColumns && |f.rows| == |Hits(data)|
      && Get(f, r, "VarID") == Text(h.rec.varId)
      && Get(f, r, "Gene") == Text(h.rec.gene)
      && Get(f, r, "Impact") == Text(Title(h.rec.impact))
      && Get(f, r, "Effect") == Text(EffectText(h.rec.effect))
      && '_' !in EffectText(h.rec.effect)
      && Get(f, r, "HGVSc") == Text(h.rec.hgvsc)
      && Get(f, r, "MAF") == Num(fmt.roundMaf(h.rec.maf))
      && Get(f, r, "P-value") == Text(fmt.pValue(h.rec.log10p))
      && Get(f, r, "EffectSize(SE)") == Text(h.effectSe)
      && h.rec.log10p > Threshold
  {
    var f, h := TopTable(data, fmt), Hits(data)[r];
    TopTableShape(data, fmt);
    HitAboveThreshold(data, r);
    TopRowCells(f.rows[r], h, fmt);
    TitleOfReplacedHasNoUnderscore(h.rec.effect);
  }

  /** The table has the final labels and one well-formed row per hit. */
  lemma TopTableShape(data: seq<DataRow>, fmt: Formatters)
    ensures var f := TopTable(data, fmt);
      && WellFormed(f) && f.columns == FinalColumns && |f.rows| == |Hits(data)|
      && forall r :: 0 <= r < |f.rows| ==> f.rows[r] == TopRow(Hits(data)[r], fmt)
  {
  }

  /** Every hit is above the threshold. */
  lemma HitAboveThreshold(data: seq<DataRow>, r: nat)
    requires r < |Hits(data)|
    ensures Hits(data)[r].rec.log10p > Threshold
  {
    assert Hits(data)[r] in multiset(Hits(data));
  }

  /** The cell under each final label of the display row of d. */
  lemma TopRowCells(row: Row, d: DataRow, fmt: Formatters)
    requires row == TopRow(d, fmt)
    ensures CellAt(row, IndexOf(FinalColumns, "VarID")) == Text(d.rec.varId)
    ensures CellAt(row, IndexOf(FinalColumns, "Gene")) == Text(d.rec.gene)
    ensures CellAt(row, IndexOf(FinalColumns, "Impact")) == Text(Title(d.rec.impact))
    ensures CellAt(row, IndexOf(FinalColumns, "Effect")) == Text(EffectText(d.rec.effect))
    ensures CellAt(row, IndexOf(FinalColumns, "HGVSc")) == Text(d.rec.hgvsc)
    ensures CellAt(row, IndexOf(FinalColumns, "MAF")) == Num(fmt.roundMaf(d.rec.maf))
    ensures CellAt(row, IndexOf(FinalColumns, "P-value")) == Text(fmt.pValue(d.rec.log10p))
    ensures CellAt(row, IndexOf(FinalColumns, "EffectSize(SE)")) == Text(d.effectSe)
  {
    FinalColumnPositions();
  }

  /** Where each display label sits in the final table. */
  lemma FinalColumnPositions()
    ensures IndexOf(FinalColumns, "VarID") == 0 && IndexOf(FinalColumns, "Gene") == 1
    ensures IndexOf(FinalColumns, "Impact") == 2 && IndexOf(FinalColumns, "Effect") == 3
    ensures IndexOf(FinalColumns, "HGVSc") == 4 && IndexOf(FinalColumns, "MAF") == 5
    ensures IndexOf(FinalColumns, "P-value") == 6 && IndexOf(FinalColumns, "EffectSize(SE)") == 7
  {
  }

  /** The cell functions of the list comprehensions on lines 33, 40, 41 and 42. */
  function PValueCell(fmt: Formatters, c: Cell): Cell { Text(fmt.pValue(NumOf(c))) }
  function RoundedMafCell(fmt: Formatters, c: Cell): Cell { Num(fmt.roundMaf(NumOf(c))) }
  function EffectCell(c: Cell): Cell { Text(EffectText(TextOf(c))) }
  function ImpactCell(c: Cell): Cell { Text(Title(TextOf(c))) }

  lemma ProjectDataCells(d: DataRow)
    ensures Project(DataCells(d), DataColumns, ProjectedColumns) == ProjectedRow(d)
  {
  }

  /** Line 30: `query('LOG10P > 5')` keeps the rows of the hits, in data order. */
  lemma QueryHits(data: seq<DataRow>)
    ensures QueryGreater(DataFrameOf(data), "LOG10P", Threshold) == Frame(DataColumns, Map(Filter(data, IsHit), DataCells))
  {
    assert IndexOf(DataColumns, "LOG10P") == 11;
    var above := (row: Row) => NumOf(CellAt(row, 11)) > Threshold;
    FilterMap(data, DataCells, above, IsHit);
  }

  /** Line 31: `loc` keeps the eight projected cells of each row. */
  lemma LocProjected(s: seq<DataRow>)
    ensures Loc(Frame(DataColumns, Map(s, DataCells)), ProjectedColumns) == Frame(ProjectedColumns, Map(s, ProjectedRow))
  {
    forall d: DataRow ensures Project(DataCells(d), DataColumns, ProjectedColumns) == ProjectedRow(d) {
      ProjectDataCells(d);
    }
  }

  /** Line 32: sorting the projected frame by its LOG10P column is sorting
      the data rows by LOG10P. */
  lemma SortProjected(s: seq<DataRow>)
    ensures SortDescending(Frame(ProjectedColumns, Map(s, ProjectedRow)), "LOG10P")
         == Frame(ProjectedColumns, Map(Sort(s, ByLog10pDescending), ProjectedRow))
  {
    assert IndexOf(ProjectedColumns, "LOG10P") == 6;
    SortMap(s, ProjectedRow, ByLog10pDescending, DescendingAt(6));
  }

  /** Lines 30-32: query, loc and the descending sort give the projected
      cells of exactly the hits, strongest first. */
  lemma SelectHits(data: seq<DataRow>)
    ensures
      var q := QueryGreater(DataFrameOf(data), "LOG10P", Threshold);
      var p := Loc(q, ProjectedColumns);
      SortDescending(p, "LOG10P") == Frame(ProjectedColumns, Map(Hits(data), ProjectedRow))
  {
    QueryHits(data);
    LocProjected(Filter(data, IsHit));
    SortProjected(Filter(data, IsHit));
  }

  lemma PValueRow(d: DataRow, fmt: Formatters)
    ensures WithPValue(d, fmt) == ProjectedRow(d) + [PValueCell(fmt, CellAt(ProjectedRow(d), 6))]
  {
  }

  /** Line 33: the P-value column is appended, computed from LOG10P. */
  lemma AddPValue(hits: seq<DataRow>, fmt: Formatters)
    ensures
      var f := Frame(ProjectedColumns, Map(hits, ProjectedRow));
      WellFormed(f) &&
      Assign(f, "P-value", Map(Column(f, "LOG10P"), c => PValueCell(fmt, c)))
        == Frame(ProjectedColumns + ["P-value"], Map(hits, d => WithPValue(d, fmt)))
  {
    assert IndexOf(ProjectedColumns, "LOG10P") == 6;
    assert "P-value" !in ProjectedColumns;
    forall d: DataRow ensures WithPValue(d, fmt) == ProjectedRow(d) + [PValueCell(fmt, CellAt(ProjectedRow(d), 6))] {
      PValueRow(d, fmt);
    }
    AssignNewColumn(hits, ProjectedColumns, ProjectedRow, "LOG10P", "P-value",
                    c => PValueCell(fmt, c), d => WithPValue(d, fmt));
  }

  /** Lines 34-39: the renames touch labels only. */
  lemma RenameColumns(rows: seq<Row>)
    ensures Rename(Frame(ProjectedColumns + ["P-value"], rows), Renames) == Frame(RenamedColumns, rows)
  {
  }

  lemma RoundedMafRow(d: DataRow, fmt: Formatters)
    ensures WithRoundedMaf(d, fmt) == WithPValue(d, fmt)[5 := RoundedMafCell(fmt, CellAt(WithPValue(d, fmt), 5))]
  {
  }

  /** Line 40: MAF is rounded in place. */
  lemma RoundMaf(hits: seq<DataRow>, fmt: Formatters)
    ensures
      var f := Frame(RenamedColumns, Map(hits, d => WithPValue(d, fmt)));
      WellFormed(f) &&
      Assign(f, "MAF", Map(Column(f, "MAF"), c => RoundedMafCell(fmt, c)))
        == Frame(RenamedColumns, Map(hits, d => WithRoundedMaf(d, fmt)))
  {
    assert IndexOf(RenamedColumns, "MAF") == 5;
    forall d: DataRow
      ensures WithRoundedMaf(d, fmt) == WithPValue(d, fmt)[5 := RoundedMafCell(fmt, CellAt(WithPValue(d, fmt), 5))]
    {
      RoundedMafRow(d, fmt);
    }
    AssignExistingColumn(hits, RenamedColumns, d => WithPValue(d, fmt), "MAF", "MAF",
                         c => RoundedMafCell(fmt, c), d => WithRoundedMaf(d, fmt));
  }

  lemma EffectRow(d: DataRow, fmt: Formatters)
    ensures WithEffect(d, fmt) == WithRoundedMaf(d, fmt) + [EffectCell(CellAt(WithRoundedMaf(d, fmt), 3))]
  {
  }

  /** Line 41: Effect is a new column (the upper-case EFFECT stays). */
  lemma AddEffect(hits: seq<DataRow>, fmt: Formatters)
    ensures
      var f := Frame(RenamedColumns, Map(hits, d => WithRoundedMaf(d, fmt)));
      WellFormed(f) &&
      Assign(f, "Effect", Map(Column(f, "EFFECT"), EffectCell))
        == Frame(RenamedColumns + ["Effect"], Map(hits, d => WithEffect(d, fmt)))
  {
    assert IndexOf(RenamedColumns, "EFFECT") == 3;
    assert "Effect" !in RenamedColumns;
    forall d: DataRow ensures WithEffect(d, fmt) == WithRoundedMaf(d, fmt) + [EffectCell(CellAt(WithRoundedMaf(d, fmt), 3))] {
      EffectRow(d, fmt);
    }
    AssignNewColumn(hits, RenamedColumns, d => WithRoundedMaf(d, fmt), "EFFECT", "Effect",
                    EffectCell, d => WithEffect(d, fmt));
  }

  /** Every cell of a row once Impact has been added. */
  lemma WithImpactCells(d: DataRow, fmt: Formatters)
    ensures WithImpact(d, fmt) ==
      [Text(d.rec.varId), Text(d.rec.gene), Text(d.rec.impact), Text(d.rec.effect),
       Text(d.rec.hgvsc), Num(fmt.roundMaf(d.rec.maf)), Num(d.rec.log10p), Text(d.effectSe),
       Text(fmt.pValue(d.rec.log10p)), Text(EffectText(d.rec.effect)), Text(Title(d.rec.impact))]
  {
  }

  /** Line 42: Impact is a new column (the upper-case IMPACT stays). */
  lemma AddImpact(hits: seq<DataRow>, fmt: Formatters)
    ensures
      var f := Frame(RenamedColumns + ["Effect"], Map(hits, d => WithEffect(d, fmt)));
      WellFormed(f) &&
      Assign(f, "Impact", Map(Column(f, "IMPACT"), ImpactCell))
        == Frame(DisplayColumns, Map(hits, d => WithImpact(d, fmt)))
  {
    var cols := RenamedColumns + ["Effect"];
    assert IndexOf(cols, "IMPACT") == 2;
    assert cols + ["Impact"] == DisplayColumns;
    AssignNewColumn(hits, cols, d => WithEffect(d, fmt), "IMPACT", "Impact", ImpactCell, d => WithImpact(d, fmt));
  }

  /** Sorting rows already in descending LOG10P order by the LOG10P column
      keeps them where they are. */
  lemma ResortSorted(hits: seq<DataRow>, fmt: Formatters)
    requires SortedBy(hits, ByLog10pDescending)
    ensures
      var f := Frame(DisplayColumns, Map(hits, d => WithImpact(d, fmt)));
      WellFormed(f) && SortDescending(f, "LOG10P") == f
  {
    var row := (d: DataRow) => WithImpact(d, fmt);
    assert IndexOf(DisplayColumns, "LOG10P") == 6;
    forall a, b ensures DescendingAt(6)(row(a), row(b)) == ByLog10pDescending(a, b) {
      WithImpactCells(a, fmt);
      WithImpactCells(b, fmt);
    }
    SortMap(hits, row, ByLog10pDescending, DescendingAt(6));
    SortOfSorted(hits, ByLog10pDescending);
  }

  /** Line 43: the second sort leaves the hits in the order the first gave. */
  lemma ResortKeepsOrder(data: seq<DataRow>, fmt: Formatters)
    ensures
      var f := Frame(DisplayColumns, Map(Hits(data), d => WithImpact(d, fmt)));
      WellFormed(f) && SortDescending(f, "LOG10P") == f
  {
    ResortSorted(Hits(data), fmt);
  }

  lemma ProjectFinal(d: DataRow, fmt: Formatters)
    ensures Project(WithImpact(d, fmt), DisplayColumns, FinalColumns) == TopRow(d, fmt)
  {
    WithImpactCells(d, fmt);
  }

  /** Lines 44-45: the final selection leaves exactly the display columns. */
  lemma SelectDisplayColumns(hits: seq<DataRow>, fmt: Formatters)
    ensures
      var f := Frame(DisplayColumns, Map(hits, d => WithImpact(d, fmt)));
      WellFormed(f) &&
      Loc(f, FinalColumns) == Frame(FinalColumns, Map(hits, d => TopRow(d, fmt)))
  {
    forall d: DataRow ensures Project(WithImpact(d, fmt), DisplayColumns, FinalColumns) == TopRow(d, fmt) {
      ProjectFinal(d, fmt);
    }
  }

  /** Lines 30-32: the rows above the threshold, projected and sorted. */
  method SelectTopHits(data: seq<DataRow>) returns (top: Frame)
    ensures top == Frame(ProjectedColumns, Map(Hits(data), ProjectedRow))
  {
    SelectHits(data);
    top := QueryGreater(DataFrameOf(data), "LOG10P", Threshold);
    top := Loc(top, ProjectedColumns);
    top := SortDescending(top, "LOG10P");
  }

  /** Lines 33-39: the P-value column is added and the labels renamed. */
  method AddPValueColumn(hits: seq<DataRow>, fmt: Formatters, projected: Frame) returns (top: Frame)
    requires projected == Frame(ProjectedColumns, Map(hits, ProjectedRow))
    ensures top == Frame(RenamedColumns, Map(hits, d => WithPValue(d, fmt)))
  {
    AddPValue(hits, fmt);
    top := Assign(projected, "P-value", Map(Column(projected, "LOG10P"), c => PValueCell(fmt, c)));
    RenameColumns(top.rows);
    top := Rename(top, Renames);
  }

  /** Lines 40-42: MAF is rounded, Effect and Impact are added. */
  method AddTextColumns(hits: seq<DataRow>, fmt: Formatters, renamed: Frame) returns (top: Frame)
    requires renamed == Frame(RenamedColumns, Map(hits, d => WithPValue(d, fmt)))
    ensures top == Frame(DisplayColumns, Map(hits, d => WithImpact(d, fmt)))
  {
    RoundMaf(hits, fmt);
    top := Assign(renamed, "MAF", Map(Column(renamed, "MAF"), c => RoundedMafCell(fmt, c)));
    AddEffect(hits, fmt);
    top := Assign(top, "Effect", Map(Column(top, "EFFECT"), EffectCell));
    AddImpact(hits, fmt);
    top := Assign(top, "Impact", Map(Column(top, "IMPACT"), ImpactCell));
  }

  /** Lines 29-45: the pandas steps that build `top_results`, in source
      order. The result is one display row per hit, strongest first. */
  method TopResults(data: seq<DataRow>, fmt: Formatters) returns (top: Frame)
    ensures top == TopTable(data, fmt)
  {
    var hits := Hits(data);
    top := SelectTopHits(data);
    top := AddPValueColumn(hits, fmt, top);
    top := AddTextColumns(hits, fmt, top);
    ResortKeepsOrder(data, fmt);
    SelectDisplayColumns(hits, fmt);
    top := Loc(SortDescending(top, "LOG10P"), FinalColumns);
  }
}
