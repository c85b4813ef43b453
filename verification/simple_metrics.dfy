/** The derivations of the metrics panel: the most used model, the total
    request count, and the ranked usage breakdown with each model's share.

    The usage record is an ordered sequence of (label, count) entries, in the
    order the record's keys are enumerated. Shares are exact rationals;
    JavaScript's rounding of `count / total * 100` is not modelled. */
module SimpleMetrics {
  import opened Common

  /** One model's request count. */
  datatype Entry = Entry(model: string, count: int)

  // ---------------------------------------------------------------------------
  // The most used model

  /** The reduce's seed: no label and a count of zero. */
  const NoModel := Entry("", 0)

  /** One step of the reduce: the new entry wins only with a strictly
      greater count. */
  function Pick(a: Entry, b: Entry): Entry {
    if b.count > a.count then b else a
  }

  /** `s.reduce(Pick, acc)`. */
  function Reduce(acc: Entry, s: seq<Entry>): (r: Entry)
    ensures r.count >= acc.count
    ensures forall i :: 0 <= i < |s| ==> s[i].count <= r.count
    ensures r == acc || r in s
    ensures (forall i :: 0 <= i < |s| ==> s[i].count <= acc.count) ==> r == acc
    decreases |s|
  {
    if |s| == 0 then acc else Reduce(Pick(acc, s[0]), s[1..])
  }

  /** When some entry beats the seed, the reduce ends on the first entry
      that reaches the largest count. */
  lemma {:induction false} ReduceFindsFirstMax(acc: Entry, s: seq<Entry>)
    requires exists i :: 0 <= i < |s| && s[i].count > acc.count
    ensures exists k :: 0 <= k < |s| && Reduce(acc, s) == s[k]
                        && forall j :: 0 <= j < k ==> s[j].count < s[k].count
    decreases |s|
  {
    var next := Pick(acc, s[0]);
    var r := Reduce(acc, s);
    assert r == Reduce(next, s[1..]);
    if s[0].count > acc.count && forall i :: 0 <= i < |s[1..]| ==> s[1..][i].count <= next.count {
      assert r == s[0];
    } else {
      var i :| 0 <= i < |s| && s[i].count > next.count;
      assert i != 0 && s[1..][i - 1] == s[i];
      ReduceFindsFirstMax(next, s[1..]);
      var k :| 0 <= k < |s[1..]| && r == s[1..][k]
               && forall j :: 0 <= j < k ==> s[1..][j].count < s[1..][k].count;
      assert r.count >= s[i].count > next.count >= s[0].count;
      assert r == s[k + 1];
      forall j | 0 <= j < k + 1
        ensures s[j].count < s[k + 1].count
      {
        if j > 0 {
          assert s[j] == s[1..][j - 1];
        }
      }
    }
  }

  /** `topModel`: the first entry whose count is the largest, provided that
      count is positive; the seed `("", 0)` when the usage is empty or no
      count is positive. */
  function TopModel(usage: seq<Entry>): (top: Entry)
    ensures forall i :: 0 <= i < |usage| ==> usage[i].count <= top.count
    ensures top == NoModel <==> forall i :: 0 <= i < |usage| ==> usage[i].count <= 0
    ensures (exists i :: 0 <= i < |usage| && usage[i].count > 0) ==>
              exists k :: 0 <= k < |usage| && top == usage[k]
                          && forall j :: 0 <= j < k ==> usage[j].count < usage[k].count
  {
    TopModelFacts(usage);
    Reduce(NoModel, usage)
  }

  lemma TopModelFacts(usage: seq<Entry>)
    ensures (exists i :: 0 <= i < |usage| && usage[i].count > 0) ==>
              exists k :: 0 <= k < |usage| && Reduce(NoModel, usage) == usage[k]
                          && forall j :: 0 <= j < k ==> usage[j].count < usage[k].count
  {
    if exists i :: 0 <= i < |usage| && usage[i].count > NoModel.count {
      ReduceFindsFirstMax(NoModel, usage);
    }
  }

  // ---------------------------------------------------------------------------
  // Total usage

  /** The sum of the counts of `s`. */
  function Sum(s: seq<Entry>): int {
    if |s| == 0 then 0 else s[0].count + Sum(s[1..])
  }

  /** `s.reduce((a, b) => a + b, acc)`, adding from the left. */
  function FoldSum(acc: int, s: seq<Entry>): int
    decreases |s|
  {
    if |s| == 0 then acc else FoldSum(acc + s[0].count, s[1..])
  }

  lemma {:induction false} FoldSumIsSum(acc: int, s: seq<Entry>)
    ensures FoldSum(acc, s) == acc + Sum(s)
    decreases |s|
  {
    if |s| > 0 {
      FoldSumIsSum(acc + s[0].count, s[1..]);
    }
  }

  /** `totalModelUsage`: the sum of all counts. */
  function TotalUsage(usage: seq<Entry>): (total: int)
    ensures total == Sum(usage)
  {
    FoldSumIsSum(0, usage);
    FoldSum(0, usage)
  }

  // ---------------------------------------------------------------------------
  // The ranked breakdown

  /** A row of the breakdown. Its share is `None` when the total is zero,
      where JavaScript computes `NaN` or `Infinity`. */
  datatype Row = Row(model: string, count: int, percentage: Option<real>)

  /** `(count / total) * 100`, a share of the total in percent. */
  function Percentage(count: int, total: int): (p: Option<real>)
    ensures p.None? <==> total == 0
    ensures p.Some? ==> p.value * total as real == count as real * 100.0
  {
    if total == 0 then None else Some(count as real / total as real * 100.0)
  }

  /** The rows of `usage` in usage order, all measured against `total`. */
  function Rows(usage: seq<Entry>, total: int): (rows: seq<Row>)
    ensures |rows| == |usage|
    ensures forall i :: 0 <= i < |usage| ==>
              rows[i] == Row(usage[i].model, usage[i].count, Percentage(usage[i].count, total))
  {
    if |usage| == 0 then [] else [Row(usage[0].model, usage[0].count, Percentage(usage[0].count, total))] + Rows(usage[1..], total)
  }

  /** Non-increasing by count. */
  ghost predicate SortedDesc(s: seq<Row>) {
    forall i, j :: 0 <= i < j < |s| ==> s[i].count >= s[j].count
  }

  /** The rows of `s` with count `c`, in their order in `s`. */
  function WithCount(s: seq<Row>, c: int): seq<Row> {
    if |s| == 0 then []
    else (if s[0].count == c then [s[0]] else []) + WithCount(s[1..], c)
  }

  /** A sequence sorted the way a stable sort by descending count sorts
      `s`: in order, and with the rows of every count in their order in `s`. */
  ghost predicate IsStableSortOf(r: seq<Row>, s: seq<Row>) {
    SortedDesc(r) && forall c :: WithCount(r, c) == WithCount(s, c)
  }

  /** `[x]` when `x` has count `c`, otherwise nothing. */
  function Only(x: Row, c: int): seq<Row> {
    if x.count == c then [x] else []
  }

  /** `x` placed into the sorted `s` in front of the first row whose count
      is not greater than its own. */
  function Insert(x: Row, s: seq<Row>): (r: seq<Row>)
    requires SortedDesc(s)
    ensures SortedDesc(r)
    ensures multiset(r) == multiset(s) + multiset{x}
    ensures forall c :: WithCount(r, c) == Only(x, c) + WithCount(s, c)
  {
    if |s| > 0 && s[0].count > x.count then
      var rest := Insert(x, s[1..]);
      InsertBehind(x, s, rest);
      [s[0]] + rest
    else
      InsertInFront(x, s);
      [x] + s
  }

  lemma InsertInFront(x: Row, s: seq<Row>)
    requires SortedDesc(s)
    requires |s| == 0 || s[0].count <= x.count
    ensures SortedDesc([x] + s)
    ensures forall c :: WithCount([x] + s, c) == Only(x, c) + WithCount(s, c)
  {
    assert ([x] + s)[1..] == s;
  }

  lemma InsertBehind(x: Row, s: seq<Row>, rest: seq<Row>)
    requires SortedDesc(s) && |s| > 0 && s[0].count > x.count
    requires SortedDesc(rest)
    requires multiset(rest) == multiset(s[1..]) + multiset{x}
    requires forall c :: WithCount(rest, c) == Only(x, c) + WithCount(s[1..], c)
    ensures SortedDesc([s[0]] + rest)
    ensures multiset([s[0]] + rest) == multiset(s) + multiset{x}
    ensures forall c :: WithCount([s[0]] + rest, c) == Only(x, c) + WithCount(s, c)
  {
    assert s == [s[0]] + s[1..];
    HeadBoundsRest(x, s, rest);
    SortedCons(s[0], rest);
    forall c
      ensures WithCount([s[0]] + rest, c) == Only(x, c) + WithCount(s, c)
    {
      WithCountBehind(x, s, rest, c);
    }
  }

  lemma WithCountBehind(x: Row, s: seq<Row>, rest: seq<Row>, c: int)
    requires |s| > 0 && s[0].count > x.count
    requires WithCount(rest, c) == Only(x, c) + WithCount(s[1..], c)
    ensures WithCount([s[0]] + rest, c) == Only(x, c) + WithCount(s, c)
  {
    WithCountCons(s[0], rest, c);
    WithCountCons(s[0], s[1..], c);
    assert s == [s[0]] + s[1..];
    if x.count == c {
      assert Only(s[0], c) == [];
    } else {
      assert Only(x, c) == [];
    }
  }

  lemma WithCountCons(x: Row, s: seq<Row>, c: int)
    ensures WithCount([x] + s, c) == Only(x, c) + WithCount(s, c)
  {
    assert ([x] + s)[1..] == s;
  }

  lemma SortedCons(x: Row, s: seq<Row>)
    requires SortedDesc(s)
    requires forall j :: 0 <= j < |s| ==> s[j].count <= x.count
    ensures SortedDesc([x] + s)
  {
  }

  lemma HeadBoundsRest(x: Row, s: seq<Row>, rest: seq<Row>)
    requires SortedDesc(s) && |s| > 0 && s[0].count > x.count
    requires multiset(rest) == multiset(s[1..]) + multiset{x}
    ensures forall j :: 0 <= j < |rest| ==> rest[j].count <= s[0].count
  {
    forall j | 0 <= j < |rest|
      ensures rest[j].count <= s[0].count
    {
      assert rest[j] in multiset(rest);
      if rest[j] != x {
        assert rest[j] in multiset(s[1..]);
        var m :| 0 <= m < |s[1..]| && s[1..][m] == rest[j];
        assert s[m + 1] == rest[j];
      }
    }
  }

  /** The stable sort by descending count (`sort((a, b) => b.count - a.count)`),
      written as an insertion sort. */
  function SortByCount(s: seq<Row>): (r: seq<Row>)
    ensures IsStableSortOf(r, s)
    ensures multiset(r) == multiset(s)
  {
    if |s| == 0 then []
    else
      var sorted := SortByCount(s[1..]);
      var r := Insert(s[0], sorted);
      SortStep(s, sorted, r);
      r
  }

  /** One step of the insertion sort: inserting the head into a stable sort
      of the tail gives a stable sort of the whole. */
  lemma SortStep(s: seq<Row>, sorted: seq<Row>, r: seq<Row>)
    requires |s| > 0
    requires IsStableSortOf(sorted, s[1..]) && multiset(sorted) == multiset(s[1..])
    requires SortedDesc(r) && multiset(r) == multiset(sorted) + multiset{s[0]}
    requires forall c :: WithCount(r, c) == Only(s[0], c) + WithCount(sorted, c)
    ensures IsStableSortOf(r, s) && multiset(r) == multiset(s)
  {
    assert s == [s[0]] + s[1..];
    forall c
      ensures WithCount(r, c) == WithCount(s, c)
    {
      WithCountCons(s[0], s[1..], c);
    }
  }

  /** `modelUsageWithPercentage`: one row per usage entry, with each share
      of the total, ordered by descending count with ties in usage order. */
  function Ranked(usage: seq<Entry>): (rows: seq<Row>)
    ensures |rows| == |usage|
    ensures multiset(rows) == multiset(Rows(usage, Sum(usage)))
    ensures IsStableSortOf(rows, Rows(usage, Sum(usage)))
  {
    var rows := SortByCount(Rows(usage, TotalUsage(usage)));
    assert |rows| == |multiset(rows)|;
    rows
  }

  // ---------------------------------------------------------------------------
  // The stable order is unique

  lemma {:induction false} WithCountMembers(s: seq<Row>, c: int, x: Row)
    ensures x in WithCount(s, c) <==> x in s && x.count == c
  {
    if |s| > 0 {
      WithCountMembers(s[1..], c, x);
      assert s == [s[0]] + s[1..];
    }
  }

  /** Two sequences that are both stable sorts of the same rows are equal:
      the order the sort produces is fully determined. */
  lemma {:induction false} StableSortUnique(a: seq<Row>, b: seq<Row>)
    requires SortedDesc(a) && SortedDesc(b)
    requires forall c :: WithCount(a, c) == WithCount(b, c)
    ensures a == b
    decreases |a| + |b|
  {
    if |a| == 0 {
    } else if |b| == 0 {
      WithCountMembers(a, a[0].count, a[0]);
      WithCountMembers(b, a[0].count, a[0]);
    } else {
      WithCountMembers(a, a[0].count, a[0]);
      WithCountMembers(b, a[0].count, a[0]);
      WithCountMembers(b, b[0].count, b[0]);
      WithCountMembers(a, b[0].count, b[0]);
      assert a[0].count == b[0].count;
      assert WithCount(a, a[0].count)[0] == a[0];
      assert WithCount(b, b[0].count)[0] == b[0];
      assert a[0] == b[0];
      forall c
        ensures WithCount(a[1..], c) == WithCount(b[1..], c)
      {
        var g := if a[0].count == c then [a[0]] else [];
        assert WithCount(a, c) == g + WithCount(a[1..], c);
        assert WithCount(b, c) == g + WithCount(b[1..], c);
        assert (g + WithCount(a[1..], c))[|g|..] == WithCount(a[1..], c);
        assert (g + WithCount(b[1..], c))[|g|..] == WithCount(b[1..], c);
      }
      StableSortUnique(a[1..], b[1..]);
      assert a == [a[0]] + a[1..] && b == [b[0]] + b[1..];
    }
  }

  /** Any stable sort of the usage rows by descending count gives exactly
      the ranked breakdown. */
  lemma RankedIsTheStableSort(usage: seq<Entry>, other: seq<Row>)
    requires IsStableSortOf(other, Rows(usage, Sum(usage)))
    ensures other == Ranked(usage)
  {
    StableSortUnique(other, Ranked(usage));
  }

  // ---------------------------------------------------------------------------
  // Shares add up to the whole

  /** The sum of the defined shares of `rows`. */
  function SumPercent(rows: seq<Row>): real {
    if |rows| == 0 then 0.0 else rows[0].percentage.GetOr(0.0) + SumPercent(rows[1..])
  }

  lemma {:induction false} SumPercentInsert(x: Row, s: seq<Row>)
    requires SortedDesc(s)
    ensures SumPercent(Insert(x, s)) == x.percentage.GetOr(0.0) + SumPercent(s)
  {
    if |s| > 0 && s[0].count > x.count {
      SumPercentInsert(x, s[1..]);
      assert Insert(x, s)[1..] == Insert(x, s[1..]);
    } else {
      assert Insert(x, s)[1..] == s;
    }
  }

  lemma {:induction false} SumPercentSort(s: seq<Row>)
    ensures SumPercent(SortByCount(s)) == SumPercent(s)
  {
    if |s| > 0 {
      SumPercentSort(s[1..]);
      SumPercentInsert(s[0], SortByCount(s[1..]));
    }
  }

  lemma {:induction false} SumPercentRows(usage: seq<Entry>, total: int)
    requires total != 0
    ensures SumPercent(Rows(usage, total)) == Sum(usage) as real / total as real * 100.0
  {
    if |usage| > 0 {
      var rows := Rows(usage, total);
      SumPercentRows(usage[1..], total);
      assert rows[1..] == Rows(usage[1..], total);
      var t := total as real;
      var a := usage[0].count as real;
      var b := Sum(usage[1..]) as real;
      assert a / t * 100.0 + b / t * 100.0 == (a + b) / t * 100.0;
    }
  }

  /** With a non-zero total, every row has a share and the shares of the
      ranked breakdown add up to exactly 100. */
  lemma PercentagesSumTo100(usage: seq<Entry>)
    requires Sum(usage) != 0
    ensures forall i :: 0 <= i < |Ranked(usage)| ==> Ranked(usage)[i].percentage.Some?
    ensures SumPercent(Ranked(usage)) == 100.0
  {
    var total := Sum(usage);
    var rows := Rows(usage, total);
    assert Ranked(usage) == SortByCount(rows);
    SumPercentSort(rows);
    SumPercentRows(usage, total);
    WholeShare(total);
    SortedRowsHaveShares(rows);
  }

  lemma WholeShare(t: int)
    requires t != 0
    ensures t as real / t as real * 100.0 == 100.0
  {
  }

  lemma SortedRowsHaveShares(rows: seq<Row>)
    requires forall i :: 0 <= i < |rows| ==> rows[i].percentage.Some?
    ensures forall i :: 0 <= i < |SortByCount(rows)| ==> SortByCount(rows)[i].percentage.Some?
  {
    var sorted := SortByCount(rows);
    forall i | 0 <= i < |sorted|
      ensures sorted[i].percentage.Some?
    {
      assert sorted[i] in multiset(rows);
      var k :| 0 <= k < |rows| && rows[k] == sorted[i];
    }
  }
}
