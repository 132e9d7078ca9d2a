/** The `GwasData` class of static/utilites/gwas_class.py: built for one
    phecode from the rows of its association query, it keeps the indexed
    data, the top-results table and the Manhattan-plot axis information in
    fields, and reads a phenotype's description on request. The database
    connection is not modelled: the query results are handed in. */
module Gwas {
  import opened Seqs
  import opened Text
  import opened Results
  import opened Frames
  import opened GenomeIndex
  import opened TopHits

  /** One row of the phenotype query (lines 81-84). */
  datatype PhenoRecord = PhenoRecord(
    phenotype: string,
    phecode: string,
    cases: int,
    controls: int,
    category: string)

  /** `pop()` on the empty record list of a phecode with no phenotype row
      raises; this is that failure. */
  datatype PhenoError = NoPhenotypeRecord

  /** Line 86: the chronic-kidney-disease stage codes whose phenotype text
      keeps its own capitalisation (title-casing would turn "III" into "Iii"). */
  const StageCodes: seq<string> := ["585.4", "585.33", "585.34"]

  /** Line 90: the text the inner branch would set. */
  const StageOneOrTwo: string := "Chronic Kidney Disease, Stage I or II"

  /** Line 87: `_` in a stored phecode stands for the dot. */
  function NormalPhecode(code: string): (r: string)
    ensures |r| == |code|
    ensures '_' !in r
    ensures forall i :: 0 <= i < |code| && code[i] == '_' ==> r[i] == '.'
    ensures forall i :: 0 <= i < |code| && code[i] != '_' ==> r[i] == code[i]
  {
    ReplaceRemovesAll(code, '_', '.');
    Replace(code, '_', '.')
  }

  /** Lines 87-96 as written, on one record: the phecode with dots, the
      phenotype title-cased unless the phecode is a stage code, the category
      title-cased, the counts untouched. The inner test on line 89 compares
      with "584.4", which is not a stage code, so a stage code always keeps
      its phenotype text unchanged. */
  function DescribedPhenoAsWritten(rec: PhenoRecord): PhenoRecord
  {
    var code := NormalPhecode(rec.phecode);
    rec.(phecode := code,
         phenotype := if code in StageCodes then
                        (if code == "584.4" then StageOneOrTwo else rec.phenotype)
                      else Title(rec.phenotype),
         category := Title(rec.category))
  }

  /** What lines 87-96 evidently mean: the inner test names the stage I or
      II code "585.4" (phecode 585.4 is chronic kidney disease, stage I or
      II), which gets the canonical text; the other stage codes keep theirs. */
  function DescribedPheno(rec: PhenoRecord): PhenoRecord
  {
    var code := NormalPhecode(rec.phecode);
    rec.(phecode := code,
         phenotype := if code in StageCodes then
                        (if code == "585.4" then StageOneOrTwo else rec.phenotype)
                      else Title(rec.phenotype),
         category := Title(rec.category))
  }

  /** The as-written inner branch is dead: the stored text of a stage I or
      II record is returned as it is, so a record whose text differs from the
      canonical one keeps the difference. */
  lemma StageOneOrTwoNeverSet()
    ensures var rec := PhenoRecord("CKD stage 1-2", "585_4", 10, 20, "genitourinary");
      && DescribedPhenoAsWritten(rec).phenotype == "CKD stage 1-2"
      && DescribedPheno(rec).phenotype == StageOneOrTwo
  {
    var code := NormalPhecode("585_4");
    assert |code| == 5 && code[3] == '.';
    assert code == "585.4";
    assert code == StageCodes[0];
    assert code != "584.4" by { assert code[2] != "584.4"[2]; }
  }

  /** For every record, the as-written description never produces the
      canonical stage I or II text from another one: its inner branch is
      never taken. It agrees with the intended one except on the phenotype
      of the stage I or II code. */
  lemma AsWrittenInnerBranchDead(rec: PhenoRecord)
    ensures DescribedPhenoAsWritten(rec).phenotype == StageOneOrTwo ==>
      rec.phenotype == StageOneOrTwo || Title(rec.phenotype) == StageOneOrTwo
    ensures NormalPhecode(rec.phecode) != "585.4" ==> DescribedPhenoAsWritten(rec) == DescribedPheno(rec)
    ensures DescribedPhenoAsWritten(rec).(phenotype := rec.phenotype) == DescribedPheno(rec).(phenotype := rec.phenotype)
  {
    assert "584.4" !in StageCodes;
  }

  /** Lines 87-96 as written, for every record: the phecode has each `_`
      turned into `.`, the counts are kept, the category is title-cased; a
      stage code keeps its phenotype text, any other phecode has it
      title-cased. */
  lemma DescribedPhenoAsWrittenSpec(rec: PhenoRecord)
    ensures DescribedPhenoAsWritten(rec).phecode == NormalPhecode(rec.phecode)
    ensures '_' !in DescribedPhenoAsWritten(rec).phecode
    ensures DescribedPhenoAsWritten(rec).cases == rec.cases
    ensures DescribedPhenoAsWritten(rec).controls == rec.controls
    ensures DescribedPhenoAsWritten(rec).category == Title(rec.category)
    ensures NormalPhecode(rec.phecode) in StageCodes ==> DescribedPhenoAsWritten(rec).phenotype == rec.phenotype
    ensures NormalPhecode(rec.phecode) !in StageCodes ==>
      DescribedPhenoAsWritten(rec).phenotype == Title(rec.phenotype)
  {
    ReplaceRemovesAll(rec.phecode, '_', '.');
    assert "584.4" !in StageCodes;
  }

  /** The description only rewrites text: the phecode has no `_` left and
      keeps its length, the counts are kept, the category is title-cased; the
      stage I or II code gets the canonical text, the other stage codes keep
      their phenotype, and every other phenotype is title-cased. */
  lemma DescribedPhenoSpec(rec: PhenoRecord)
    ensures DescribedPheno(rec).phecode == NormalPhecode(rec.phecode)
    ensures '_' !in DescribedPheno(rec).phecode
    ensures |DescribedPheno(rec).phecode| == |rec.phecode|
    ensures DescribedPheno(rec).cases == rec.cases && DescribedPheno(rec).controls == rec.controls
    ensures DescribedPheno(rec).category == Title(rec.category)
    ensures NormalPhecode(rec.phecode) == "585.4" ==> DescribedPheno(rec).phenotype == StageOneOrTwo
    ensures NormalPhecode(rec.phecode) in StageCodes && NormalPhecode(rec.phecode) != "585.4" ==>
      DescribedPheno(rec).phenotype == rec.phenotype
    ensures NormalPhecode(rec.phecode) !in StageCodes ==> DescribedPheno(rec).phenotype == Title(rec.phenotype)
  {
    ReplaceRemovesAll(rec.phecode, '_', '.');
  }

  /** Describing a described record changes nothing. */
  lemma DescribedPhenoIdempotent(rec: PhenoRecord)
    ensures DescribedPheno(DescribedPheno(rec)) == DescribedPheno(rec)
  {
    var d := DescribedPheno(rec);
    assert NormalPhecode(d.phecode) == d.phecode;
    TitleIdempotent(rec.category);
    TitleIdempotent(rec.phenotype);
  }

  class GwasData {
    /** The phecode the object was built for. */
    const phecode: string
    /** `self.data`: the association rows ranked by (CHR, POS). */
    const data: seq<DataRow>
    /** `self.top_results`. */
    const topResults: Frame
    /** `self.nChr`. */
    const nChr: nat
    /** `self.plt_ticks`. */
    const pltTicks: seq<real>

    /** What the constructor establishes: the data is indexed, and the count
        and ticks describe its chromosomes. The fields are constants because
        the source assigns them in `__init__` only. */
    ghost predicate Valid()
    {
      && IsIndexed(data)
      && nChr == ChromosomeCount(data)
      && pltTicks == Ticks(data)
    }

    /** Lines 8-60, with `records` the result of the association query for
        `phecode` and `fmt` the floating-point formatting. */
    constructor (phecode: string, records: seq<Association>, fmt: Formatters)
      ensures this.phecode == phecode
      ensures data == Index(records, fmt)
      ensures topResults == TopTable(data, fmt)
      ensures nChr == ChromosomeCount(data)
      ensures pltTicks == Ticks(data)
      ensures Valid()
    {
      var indexed := Index(records, fmt);
      var top := TopResults(indexed, fmt);
      var count := ChromosomeCount(indexed);
      var ticks := Ticks(indexed);
      this.phecode := phecode;
      data := indexed;
      topResults := top;
      nChr := count;
      pltTicks := ticks;
    }

    /** Lines 62-76 without the rendering: the points plotted (REL_POS
        against LOG10P), the tick positions and labels of the x axis, and the
        x-extent of the significance line. */
    method ManhattanAxes() returns (points: seq<(int, real)>, tickVals: seq<real>, tickText: seq<string>,
                                    x0: int, x1: Option<int>)
      requires Valid()
      ensures |points| == |data|
      ensures forall i :: 0 <= i < |data| ==> points[i] == (i, data[i].rec.log10p)
      ensures tickVals == pltTicks && |tickText| == |tickVals| == nChr
      ensures tickText == TickText(nChr)
      ensures forall k, k' :: 0 <= k < k' < |tickVals| ==> tickVals[k] < tickVals[k']
      ensures forall k :: 0 <= k < |tickVals| ==> 0.0 <= tickVals[k] <= (|data| - 1) as real
      ensures x0 == 0
      ensures x1 == if data == [] then None else Some(|data| - 1)
    {
      points := Map(data, (d: DataRow) => (d.relPos, d.rec.log10p));
      tickVals := pltTicks;
      tickText := TickText(nChr);
      TicksIncreasing(data);
      TicksInRange(data);
      x0 := 0;
      x1 := MaxRelPos(data);
      MaxRelPosIsLastRank(data);
    }

    /** Lines 80-97, with `rows` the result of the phenotype query for
        `phecode`: the last row, described as written; a failure when there
        is none. */
    method PhenoInfo(rows: seq<PhenoRecord>) returns (r: Result<PhenoRecord, PhenoError>)
      ensures r.Failure? <==> rows == []
      ensures r.Success? ==> r.value == DescribedPhenoAsWritten(rows[|rows| - 1])
    {
      if rows == [] {
        return Failure(NoPhenotypeRecord);
      }
      var test := rows[|rows| - 1];
      test := test.(phecode := Replace(test.phecode, '_', '.'));
      if test.phecode in StageCodes {
        if test.phecode == "584.4" {
          test := test.(phenotype := StageOneOrTwo);
        } else {
          test := test.(phenotype := test.phenotype);
        }
      } else {
        test := test.(phenotype := Title(test.phenotype));
      }
      test := test.(category := Title(test.category));
      return Success(test);
    }
  }
}
