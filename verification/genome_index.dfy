/** Genome position indexing for the Manhattan plot (static/utilites/gwas_class.py):
    the association rows sorted by chromosome and position with their 0-based
    rank as REL_POS, the number of distinct chromosomes, one x-axis tick per
    chromosome at the median REL_POS of its rows, the tick labels and the
    x-extent of the significance line. */
module GenomeIndex {
  import opened Seqs
  import opened Text
  import opened Results

  /** One row of the association query: a variant's annotation joined with its
      statistics for the phecode. CHR and POS are integers; MAF, EFFECTSIZE, SE
      and LOG10P are only compared, ordered or handed to the formatters, so
      they are exact reals here. */
  datatype Association = Association(
    varId: string,
    chr: int,
    pos: int,
    gene: string,
    impact: string,
    effect: string,
    hgvsc: string,
    maf: real,
    effectSize: real,
    se: real,
    log10p: real)

  /** A row of the indexed data: its REL_POS, the association record and the
      EFFECTSIZE(SE) display text. */
  datatype DataRow = DataRow(relPos: int, rec: Association, effectSe: string)

  /** The floating-point formatting the source leaves to Python: the
      EFFECTSIZE(SE) text from the effect size and standard error, the
      P-value text from LOG10P, and MAF rounded to five decimals. */
  datatype Formatters = Formatters(
    effectSe: (real, real) -> string,
    pValue: real -> string,
    roundMaf: real -> real)

  /** Ascending (CHR, POS) order. */
  predicate LocusLe(a: Association, b: Association)
  {
    a.chr < b.chr || (a.chr == b.chr && a.pos <= b.pos)
  }

  predicate IntLe(a: int, b: int) { a <= b }

  predicate StrictlyIncreasing(xs: seq<int>)
  {
    forall i, j :: 0 <= i < j < |xs| ==> xs[i] < xs[j]
  }

  function RecordOf(d: DataRow): Association { d.rec }
  function RelPosOf(d: DataRow): int { d.relPos }
  function ChrOf(d: DataRow): int { d.rec.chr }

  /** `self.data['CHR']` */
  function ChrColumn(data: seq<DataRow>): seq<int>
  {
    Map(data, ChrOf)
  }

  /** What the indexing establishes: row i has REL_POS i, and rows are in
      ascending (CHR, POS) order. */
  ghost predicate IsIndexed(data: seq<DataRow>)
  {
    && (forall i :: 0 <= i < |data| ==> data[i].relPos == i)
    && (forall i, j :: 0 <= i < j < |data| ==> LocusLe(data[i].rec, data[j].rec))
  }

  /** The half-open integer range [lo, hi). */
  function Range(lo: int, hi: int): (r: seq<int>)
    requires lo <= hi
    ensures |r| == hi - lo
    ensures forall i :: 0 <= i < |r| ==> r[i] == lo + i
  {
    seq(hi - lo, i requires 0 <= i < hi - lo => lo + i)
  }

  /** Lines 24-27: `sort_values(['CHR', 'POS'])`, `reset_index()` renamed to
      REL_POS, and the EFFECTSIZE(SE) column. The rows are the input records
      reordered, ranked 0..N-1 in ascending (CHR, POS) order. */
  function Index(recs: seq<Association>, fmt: Formatters): (data: seq<DataRow>)
    ensures |data| == |recs|
    ensures multiset(Map(data, RecordOf)) == multiset(recs)
    ensures Map(data, RelPosOf) == Range(0, |recs|)
    ensures IsIndexed(data)
    ensures forall i :: 0 <= i < |data| ==>
      data[i].effectSe == fmt.effectSe(data[i].rec.effectSize, data[i].rec.se)
  {
    assert TotalPreorder(LocusLe);
    var s := Sort(recs, LocusLe);
    SortSorted(recs, LocusLe);
    var data := seq(|s|, i requires 0 <= i < |s| => DataRow(i, s[i], fmt.effectSe(s[i].effectSize, s[i].se)));
    assert Map(data, RecordOf) == s;
    data
  }

  /** Removes repeats from an ascending sequence. */
  function Dedup(xs: seq<int>): (u: seq<int>)
    requires SortedBy(xs, IntLe)
    ensures StrictlyIncreasing(u)
    ensures forall x :: x in u <==> x in xs
    ensures |xs| > 0 ==> |u| > 0 && u[0] == xs[0]
  {
    if |xs| <= 1 then xs
    else
      assert SortedBy(xs[1..], IntLe);
      if xs[0] == xs[1] then Dedup(xs[1..]) else [xs[0]] + Dedup(xs[1..])
  }

  lemma SameMultisetSameMembers(a: seq<int>, b: seq<int>)
    requires multiset(a) == multiset(b)
    ensures forall x :: x in a <==> x in b
  {
    forall x ensures x in a <==> x in b {
      assert x in a <==> x in multiset(a);
      assert x in b <==> x in multiset(b);
    }
  }

  lemma SameMembersSameSet(a: seq<int>, b: seq<int>)
    requires forall x :: x in a <==> x in b
    ensures (set x | x in a) == (set x | x in b)
  {
    var sa, sb := set x | x in a, set x | x in b;
    forall x ensures x in sa <==> x in sb {
      assert x in sa <==> x in a;
    }
  }

  /** `np.unique`: the distinct values, ascending. */
  function Unique(xs: seq<int>): (u: seq<int>)
    ensures StrictlyIncreasing(u)
    ensures forall x :: x in u <==> x in xs
    ensures |u| == |set x | x in xs|
  {
    assert TotalPreorder(IntLe);
    SortSorted(xs, IntLe);
    var s := Sort(xs, IntLe);
    SameMultisetSameMembers(s, xs);
    var u := Dedup(s);
    DistinctCard(u);
    SameMembersSameSet(u, xs);
    u
  }

  /** numpy's median: sort, then the middle value, or the mean of the two
      middle values when the count is even. */
  function Median(xs: seq<int>): (m: real)
    requires |xs| > 0
    ensures exists s :: |s| == |xs| && multiset(s) == multiset(xs) && SortedBy(s, IntLe) && m == Middle(s)
    ensures exists i, j :: 0 <= i < |xs| && 0 <= j < |xs| && m == (xs[i] + xs[j]) as real / 2.0
  {
    assert TotalPreorder(IntLe);
    SortSorted(xs, IntLe);
    var s := Sort(xs, IntLe);
    MiddleOfMembers(xs, s);
    Middle(s)
  }

  /** The middle of a rearrangement of xs is the mean of two values of xs. */
  lemma MiddleOfMembers(xs: seq<int>, s: seq<int>)
    requires |s| > 0
    requires multiset(s) == multiset(xs)
    ensures exists i, j :: 0 <= i < |xs| && 0 <= j < |xs| && Middle(s) == (xs[i] + xs[j]) as real / 2.0
  {
    var n := |s|;
    var a := if n % 2 == 1 then n / 2 else n / 2 - 1;
    assert s[a] in multiset(xs) && s[n / 2] in multiset(xs);
    var i :| 0 <= i < |xs| && xs[i] == s[a];
    var j :| 0 <= j < |xs| && xs[j] == s[n / 2];
    assert Middle(s) == (xs[i] + xs[j]) as real / 2.0;
  }

  /** The middle value of a sequence, or the mean of its two middle values. */
  function Middle(s: seq<int>): real
    requires |s| > 0
  {
    var n := |s|;
    if n % 2 == 1 then s[n / 2] as real else (s[n / 2 - 1] + s[n / 2]) as real / 2.0
  }

  /** REL_POS of the rows on chromosome c, in row order: the REL_POS column
      of one group of `groupby('CHR')`. */
  function GroupRanks(data: seq<DataRow>, c: int): (r: seq<int>)
    ensures c in ChrColumn(data) ==> |r| > 0
  {
    if data == [] then []
    else
      assert ChrColumn(data)[1..] == ChrColumn(data[1..]);
      (if data[0].rec.chr == c then [data[0].relPos] else []) + GroupRanks(data[1..], c)
  }

  /** Line 50: `groupby('CHR').median()['REL_POS']`, one tick per chromosome in
      ascending chromosome order. */
  function Ticks(data: seq<DataRow>): (t: seq<real>)
    ensures |t| == |Unique(ChrColumn(data))|
  {
    var u := Unique(ChrColumn(data));
    seq(|u|, k requires 0 <= k < |u| => Median(GroupRanks(data, u[k])))
  }

  /** Line 48: `len(np.unique(self.data['CHR']))`. */
  function ChromosomeCount(data: seq<DataRow>): (n: nat)
    ensures n == |set d | d in data :: d.rec.chr|
    ensures n == |Ticks(data)|
  {
    var u := Unique(ChrColumn(data));
    assert (set x | x in ChrColumn(data)) == (set d | d in data :: d.rec.chr) by {
      forall x ensures x in ChrColumn(data) <==> x in (set d | d in data :: d.rec.chr) {
        if x in ChrColumn(data) {
          var i :| 0 <= i < |data| && ChrColumn(data)[i] == x;
          assert data[i] in data;
        }
        if x in (set d | d in data :: d.rec.chr) {
          var d :| d in data && d.rec.chr == x;
          var i :| 0 <= i < |data| && data[i] == d;
          assert ChrColumn(data)[i] == x;
        }
      }
    }
    |u|
  }

  /** Rows holding the same records hold the same chromosomes. */
  lemma SameRecordsSameChromosomes(data: seq<DataRow>, records: seq<Association>)
    requires multiset(Map(data, RecordOf)) == multiset(records)
    ensures (set d | d in data :: d.rec.chr) == (set r | r in records :: r.chr)
  {
    var m := Map(data, RecordOf);
    var fromData := set d | d in data :: d.rec.chr;
    var fromRecords := set r | r in records :: r.chr;
    forall x | x in fromData ensures x in fromRecords {
      var d :| d in data && d.rec.chr == x;
      var i :| 0 <= i < |data| && data[i] == d;
      assert m[i] in multiset(records);
    }
    forall x | x in fromRecords ensures x in fromData {
      var r :| r in records && r.chr == x;
      assert r in multiset(m);
      var i :| 0 <= i < |m| && m[i] == r;
      assert data[i] in data;
    }
  }

  /** Line 48: the chromosome count is the number of distinct CHR values of
      the query's records. */
  lemma ChromosomeCountOfRecords(records: seq<Association>, fmt: Formatters)
    ensures ChromosomeCount(Index(records, fmt)) == |set r | r in records :: r.chr|
  {
    SameRecordsSameChromosomes(Index(records, fmt), records);
  }

  /** Index of the first row on chromosome c (|data| when there is none). */
  function FirstRowOf(data: seq<DataRow>, c: int): (r: nat)
    ensures r <= |data|
    ensures r < |data| ==> data[r].rec.chr == c
    ensures forall i :: 0 <= i < r ==> data[i].rec.chr != c
  {
    if exists i :: 0 <= i < |data| && data[i].rec.chr == c then
      FirstRowExists(data, c);
      var r :| 0 <= r < |data| && data[r].rec.chr == c && forall i :: 0 <= i < r ==> data[i].rec.chr != c;
      r
    else |data|
  }

  lemma {:induction false} FirstRowExists(data: seq<DataRow>, c: int)
    requires exists i :: 0 <= i < |data| && data[i].rec.chr == c
    ensures exists r :: 0 <= r < |data| && data[r].rec.chr == c && forall i :: 0 <= i < r ==> data[i].rec.chr != c
  {
    if data[0].rec.chr != c {
      var rest := data[1..];
      var k :| 0 <= k < |data| && data[k].rec.chr == c;
      assert rest[k - 1].rec.chr == c;
      FirstRowExists(rest, c);
      var r :| 0 <= r < |rest| && rest[r].rec.chr == c && forall i :: 0 <= i < r ==> rest[i].rec.chr != c;
      assert data[r + 1].rec.chr == c;
      forall i | 0 <= i < r + 1 ensures data[i].rec.chr != c {
        if i > 0 { assert data[i] == rest[i - 1]; }
      }
    }
  }

  /** Index of the last row on chromosome c (-1 when there is none). */
  function LastRowOf(data: seq<DataRow>, c: int): (r: int)
    ensures -1 <= r < |data|
    ensures r >= 0 ==> data[r].rec.chr == c
    ensures forall i :: r < i < |data| ==> data[i].rec.chr != c
  {
    if exists i :: 0 <= i < |data| && data[i].rec.chr == c then
      LastRowExists(data, c);
      var r :| 0 <= r < |data| && data[r].rec.chr == c && forall i :: r < i < |data| ==> data[i].rec.chr != c;
      r
    else -1
  }

  lemma {:induction false} LastRowExists(data: seq<DataRow>, c: int)
    requires exists i :: 0 <= i < |data| && data[i].rec.chr == c
    ensures exists r :: 0 <= r < |data| && data[r].rec.chr == c && forall i :: r < i < |data| ==> data[i].rec.chr != c
  {
    var n := |data|;
    if data[n - 1].rec.chr != c {
      var init := data[..n - 1];
      var k :| 0 <= k < n && data[k].rec.chr == c;
      assert init[k].rec.chr == c;
      LastRowExists(init, c);
      var r :| 0 <= r < |init| && init[r].rec.chr == c && forall i :: r < i < |init| ==> init[i].rec.chr != c;
      assert data[r].rec.chr == c;
      forall i | r < i < n ensures data[i].rec.chr != c {
        if i < n - 1 { assert data[i] == init[i]; }
      }
    }
  }

  /** The REL_POS of a block of rows: if row i has REL_POS base + i and the
      rows on chromosome c are exactly those with index in [lo, hi), the group
      of c is the range [base + lo, base + hi). */
  lemma {:induction false} GroupRanksOfBlock(data: seq<DataRow>, c: int, base: int, lo: nat, hi: nat)
    requires lo <= hi <= |data|
    requires forall i :: 0 <= i < |data| ==> data[i].relPos == base + i
    requires forall i :: 0 <= i < |data| ==> (data[i].rec.chr == c <==> lo <= i < hi)
    ensures GroupRanks(data, c) == Range(base + lo, base + hi)
  {
    if data != [] {
      var rest := data[1..];
      assert forall i :: 0 <= i < |rest| ==> rest[i] == data[i + 1];
      if lo > 0 {
        GroupRanksOfBlock(rest, c, base + 1, lo - 1, hi - 1);
        assert Range(base + 1 + (lo - 1), base + 1 + (hi - 1)) == Range(base + lo, base + hi);
      } else if hi > 0 {
        GroupRanksOfBlock(rest, c, base + 1, 0, hi - 1);
        assert [base] + Range(base + 1, base + hi) == Range(base + lo, base + hi);
      } else {
        GroupRanksOfBlock(rest, c, base + 1, 0, 0);
      }
    }
  }

  /** The median of the consecutive integers [lo, hi) is their midpoint. */
  lemma MedianOfRange(lo: int, hi: int)
    requires lo < hi
    ensures Median(Range(lo, hi)) == (lo + hi - 1) as real / 2.0
  {
    var r := Range(lo, hi);
    assert SortedBy(r, IntLe);
    SortOfSorted(r, IntLe);
    MiddleOfRange(lo, hi);
  }

  lemma MiddleOfRange(lo: int, hi: int)
    requires lo < hi
    ensures Middle(Range(lo, hi)) == (lo + hi - 1) as real / 2.0
  {
    var r := Range(lo, hi);
    var n, h := hi - lo, (hi - lo) / 2;
    if n % 2 == 1 {
      assert r[h] == lo + h;
      assert lo + hi - 1 == 2 * (lo + h);
    } else {
      assert r[h - 1] + r[h] == 2 * lo + 2 * h - 1;
      assert lo + hi - 1 == 2 * lo + 2 * h - 1;
    }
  }

  /** In indexed data the chromosome column is ascending. */
  lemma ChrAscending(data: seq<DataRow>)
    requires IsIndexed(data)
    ensures forall i, j :: 0 <= i <= j < |data| ==> data[i].rec.chr <= data[j].rec.chr
  {
    forall i, j | 0 <= i <= j < |data| ensures data[i].rec.chr <= data[j].rec.chr {
      if i < j { assert LocusLe(data[i].rec, data[j].rec); }
    }
  }

  /** In indexed data the rows of a chromosome that occurs are contiguous:
      exactly those from its first row to its last. */
  lemma ChromosomeBlock(data: seq<DataRow>, c: int)
    requires IsIndexed(data)
    requires c in ChrColumn(data)
    ensures 0 <= FirstRowOf(data, c) <= LastRowOf(data, c) < |data|
    ensures forall i :: 0 <= i < |data| ==>
      (data[i].rec.chr == c <==> FirstRowOf(data, c) <= i <= LastRowOf(data, c))
  {
    var i0 :| 0 <= i0 < |data| && ChrColumn(data)[i0] == c;
    var lo, hi := FirstRowOf(data, c), LastRowOf(data, c);
    assert lo <= i0 <= hi;
    ChrAscending(data);
  }

  /** The REL_POS of a contiguous block of rows [lo, hi] of ranked rows are
      the consecutive ranks lo .. hi. */
  lemma GroupRanksOfContiguous(data: seq<DataRow>, c: int, lo: nat, hi: nat)
    requires lo <= hi < |data|
    requires forall i :: 0 <= i < |data| ==> data[i].relPos == i
    requires forall i :: 0 <= i < |data| ==> (data[i].rec.chr == c <==> lo <= i <= hi)
    ensures GroupRanks(data, c) == Range(lo, hi + 1)
  {
    GroupRanksOfBlock(data, c, 0, lo, hi + 1);
  }

  lemma MedianOfContiguous(data: seq<DataRow>, c: int, lo: nat, hi: nat)
    requires lo <= hi < |data|
    requires forall i :: 0 <= i < |data| ==> data[i].relPos == i
    requires forall i :: 0 <= i < |data| ==> (data[i].rec.chr == c <==> lo <= i <= hi)
    ensures GroupRanks(data, c) == Range(lo, hi + 1)
    ensures Median(GroupRanks(data, c)) == (lo + hi) as real / 2.0
  {
    GroupRanksOfContiguous(data, c, lo, hi);
    MedianOfRange(lo, hi + 1);
    assert lo + (hi + 1) - 1 == lo + hi;
  }

  /** The median REL_POS of a chromosome's rows is the midpoint of its first
      and last REL_POS, because those ranks are contiguous. */
  lemma GroupMedianIsMidpoint(data: seq<DataRow>, c: int)
    requires IsIndexed(data)
    requires c in ChrColumn(data)
    ensures 0 <= FirstRowOf(data, c) <= LastRowOf(data, c) < |data|
    ensures Median(GroupRanks(data, c)) == (FirstRowOf(data, c) + LastRowOf(data, c)) as real / 2.0
  {
    ChromosomeBlock(data, c);
    MedianOfContiguous(data, c, FirstRowOf(data, c), LastRowOf(data, c));
  }

  /** Each tick sits at the midpoint of the first and last REL_POS of its
      chromosome (row i has REL_POS i). */
  lemma TickIsMidpoint(data: seq<DataRow>, k: nat)
    requires IsIndexed(data)
    requires k < |Ticks(data)|
    ensures var c := Unique(ChrColumn(data))[k];
      && c in ChrColumn(data)
      && 0 <= FirstRowOf(data, c) <= LastRowOf(data, c) < |data|
      && Ticks(data)[k] == (FirstRowOf(data, c) + LastRowOf(data, c)) as real / 2.0
  {
    var c := Unique(ChrColumn(data))[k];
    assert c in ChrColumn(data);
    assert Ticks(data)[k] == Median(GroupRanks(data, c));
    GroupMedianIsMidpoint(data, c);
  }

  /** Ticks are strictly increasing: each chromosome's block lies wholly left
      of the next one's. */
  lemma TicksIncreasing(data: seq<DataRow>)
    requires IsIndexed(data)
    ensures forall k, k' :: 0 <= k < k' < |Ticks(data)| ==> Ticks(data)[k] < Ticks(data)[k']
  {
    var t := Ticks(data);
    var u := Unique(ChrColumn(data));
    ChrAscending(data);
    forall k, k' | 0 <= k < k' < |t| ensures t[k] < t[k'] {
      TickIsMidpoint(data, k);
      TickIsMidpoint(data, k');
      var hi := LastRowOf(data, u[k]);
      var lo' := FirstRowOf(data, u[k']);
      assert data[hi].rec.chr < data[lo'].rec.chr;
      assert hi < lo';
    }
  }

  /** Every tick lies within the plotted REL_POS range [0, N - 1]. */
  lemma TicksInRange(data: seq<DataRow>)
    requires IsIndexed(data)
    ensures forall k :: 0 <= k < |Ticks(data)| ==> 0.0 <= Ticks(data)[k] <= (|data| - 1) as real
  {
    forall k | 0 <= k < |Ticks(data)| ensures 0.0 <= Ticks(data)[k] <= (|data| - 1) as real {
      TickIsMidpoint(data, k);
    }
  }

  /** Line 67: the tick labels `"1" .. str(nChr)`, whatever the chromosome
      identifiers are. */
  function TickText(n: nat): (labels: seq<string>)
    ensures |labels| == n
    ensures forall k, i :: 0 <= k < n && 0 <= i < |labels[k]| ==> IsDigit(labels[k][i])
  {
    seq(n, k requires 0 <= k < n => NatToString(k + 1))
  }

  /** Tick label k reads back as the number k + 1, so the labels are exactly
      the ordinals 1..n and pairwise different. */
  lemma TickTextReadsBack(n: nat)
    ensures forall k :: 0 <= k < n ==> DigitsValue(TickText(n)[k]) == k + 1
    ensures forall k, k' :: 0 <= k < k' < n ==> TickText(n)[k] != TickText(n)[k']
  {
    forall k | 0 <= k < n ensures DigitsValue(TickText(n)[k]) == k + 1 {
      NatToStringRoundTrip(k + 1);
    }
  }

  /** Line 73: `self.data['REL_POS'].max()`; None for an empty frame, where
      pandas gives NaN. */
  function MaxRelPos(data: seq<DataRow>): (m: Option<int>)
    ensures m.None? <==> data == []
    ensures m.Some? ==> exists i :: 0 <= i < |data| && data[i].relPos == m.value
    ensures m.Some? ==> forall i :: 0 <= i < |data| ==> data[i].relPos <= m.value
  {
    if data == [] then None
    else
      match MaxRelPos(data[1..])
      case None => Some(data[0].relPos)
      case Some(m) => Some(if data[0].relPos >= m then data[0].relPos else m)
  }

  /** The significance line spans to the last rank, N - 1. */
  lemma MaxRelPosIsLastRank(data: seq<DataRow>)
    requires IsIndexed(data)
    ensures MaxRelPos(data) == if data == [] then None else Some(|data| - 1)
  {
    if data != [] {
      assert data[|data| - 1].relPos == |data| - 1;
    }
  }
}
