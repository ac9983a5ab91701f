/**
 * The stats page (src/app/dashboard/stats/page.tsx): the seven-day chart, which
 * buckets each record's quantity by the day of its server timestamp, and the
 * per-material totals of quantity and points. Days are whole days since the epoch.
 */
module Stats {
  import opened Common
  import opened Ledger
  import opened Aggregation

  const MillisPerDay := 86400000

  /** `startOfDay(d)` as a day number. */
  function Day(ms: int): (d: int)
    ensures d * MillisPerDay <= ms < d * MillisPerDay + MillisPerDay
  {
    ms / MillisPerDay
  }

  /** `record.recyclingDate?.toDate` exists (only Firestore timestamps have it) and falls on day `d`. */
  predicate OnDay(r: ActivityRecord, d: int)
    ensures OnDay(r, d) <==>
      r.recyclingDate.ServerStamp? && d * MillisPerDay <= r.recyclingDate.ms < d * MillisPerDay + MillisPerDay
  {
    r.recyclingDate.ServerStamp? && Day(r.recyclingDate.ms) == d
  }

  /** The quantity recycled on day `d`. */
  function DayQuantity(rs: seq<ActivityRecord>, d: int): real
    decreases |rs|
  {
    if rs == [] then 0.0
    else
      var last := rs[|rs| - 1];
      DayQuantity(rs[..|rs| - 1], d) + (if OnDay(last, d) then last.quantity else 0.0)
  }

  /** One bar of the chart. */
  datatype DayTotal = DayTotal(day: int, total: real)

  function RecordsOrEmpty(records: Option<seq<ActivityRecord>>): seq<ActivityRecord>
  {
    if records.Some? then records.value else []
  }

  /**
   * `chartData`: seven buckets, today and the six days before, each starting at 0;
   * each timestamped record adds its quantity to the bucket of its day when there is
   * one; the entries come out oldest first.
   */
  method ChartData(records: Option<seq<ActivityRecord>>, today: int) returns (chart: seq<DayTotal>)
    ensures |chart| == 7
    ensures forall k :: 0 <= k < 7 ==> chart[k].day == today - 6 + k
    ensures forall k :: 0 <= k < 7 ==> chart[k].total == DayQuantity(RecordsOrEmpty(records), today - 6 + k)
  {
    // `dataByDay`: its contents, and its keys in insertion order.
    var dataByDay: map<int, real> := map[];
    var keys: seq<int> := [];
    var i := 0;
    while i < 7
      invariant 0 <= i <= 7
      invariant |keys| == i
      invariant forall k :: 0 <= k < i ==> keys[k] == today - k
      invariant forall d :: d in dataByDay <==> today - i < d <= today
      invariant forall d :: d in dataByDay ==> dataByDay[d] == 0.0
    {
      dataByDay := dataByDay[today - i := 0.0];
      keys := keys + [today - i];
      i := i + 1;
    }
    var rs := RecordsOrEmpty(records);
    var j := 0;
    while j < |rs|
      invariant 0 <= j <= |rs|
      invariant forall d :: d in dataByDay <==> today - 7 < d <= today
      invariant forall d :: d in dataByDay ==> dataByDay[d] == DayQuantity(rs[..j], d)
    {
      var r := rs[j];
      assert (rs[..j] + [r])[..j] == rs[..j];
      assert rs[..j + 1] == rs[..j] + [r];
      if r.recyclingDate.ServerStamp? {
        var d := Day(r.recyclingDate.ms);
        if d in dataByDay {
          dataByDay := dataByDay[d := dataByDay[d] + r.quantity];
        }
      }
      j := j + 1;
    }
    assert rs[..j] == rs;
    // `Object.entries(dataByDay).map(...).reverse()`
    chart := [];
    var k := 0;
    while k < 7
      invariant 0 <= k <= 7
      invariant |chart| == k
      invariant forall t :: 0 <= t < k ==> chart[t] == DayTotal(keys[k - 1 - t], dataByDay[keys[k - 1 - t]])
    {
      chart := [DayTotal(keys[k], dataByDay[keys[k]])] + chart;
      k := k + 1;
    }
  }

  /** A record counts in the chart when it has a timestamp within the `n` days from `lo`. */
  predicate InWindow(r: ActivityRecord, lo: int, n: nat)
  {
    r.recyclingDate.ServerStamp? && lo <= Day(r.recyclingDate.ms) < lo + n
  }

  /** The quantity of the records that fall within the window. */
  function WindowQuantity(rs: seq<ActivityRecord>, lo: int, n: nat): real
    decreases |rs|
  {
    if rs == [] then 0.0
    else
      var last := rs[|rs| - 1];
      WindowQuantity(rs[..|rs| - 1], lo, n) + (if InWindow(last, lo, n) then last.quantity else 0.0)
  }

  /** The bucket totals of the `n` days from `lo`, added up. */
  function DaysSum(rs: seq<ActivityRecord>, lo: int, n: nat): real
    decreases n
  {
    if n == 0 then 0.0 else DaysSum(rs, lo, n - 1) + DayQuantity(rs, lo + n - 1)
  }

  lemma {:induction false} DaysSumStep(rs: seq<ActivityRecord>, r: ActivityRecord, lo: int, n: nat)
    ensures DaysSum(rs + [r], lo, n) == DaysSum(rs, lo, n) + (if InWindow(r, lo, n) then r.quantity else 0.0)
    decreases n
  {
    assert (rs + [r])[..|rs|] == rs;
    if n > 0 {
      DaysSumStep(rs, r, lo, n - 1);
    }
  }

  /** Every record in the window lands in exactly one bucket, and no other record lands in any. */
  lemma {:induction false} DaysSumIsWindow(rs: seq<ActivityRecord>, lo: int, n: nat)
    ensures DaysSum(rs, lo, n) == WindowQuantity(rs, lo, n)
    decreases |rs|
  {
    if rs == [] {
      DaysSumEmpty(lo, n);
    } else {
      var init := rs[..|rs| - 1];
      assert rs == init + [rs[|rs| - 1]];
      DaysSumIsWindow(init, lo, n);
      DaysSumStep(init, rs[|rs| - 1], lo, n);
    }
  }

  lemma {:induction false} DaysSumEmpty(lo: int, n: nat)
    ensures DaysSum([], lo, n) == 0.0
    decreases n
  {
    if n > 0 {
      DaysSumEmpty(lo, n - 1);
    }
  }

  function SumBars(chart: seq<DayTotal>): real
    decreases |chart|
  {
    if chart == [] then 0.0 else SumBars(chart[..|chart| - 1]) + chart[|chart| - 1].total
  }

  lemma {:induction false} BarsAreDays(rs: seq<ActivityRecord>, lo: int, chart: seq<DayTotal>)
    requires forall k :: 0 <= k < |chart| ==> chart[k].total == DayQuantity(rs, lo + k)
    ensures SumBars(chart) == DaysSum(rs, lo, |chart|)
    decreases |chart|
  {
    if chart != [] {
      BarsAreDays(rs, lo, chart[..|chart| - 1]);
    }
  }

  /**
   * The bars of a chart built for `today` add up to the quantity of exactly the
   * timestamped records dated within the last seven days: nothing outside the window
   * is counted and nothing inside it is lost.
   */
  lemma ChartCountsTheWeek(rs: seq<ActivityRecord>, today: int, chart: seq<DayTotal>)
    requires |chart| == 7
    requires forall k :: 0 <= k < 7 ==> chart[k].total == DayQuantity(rs, today - 6 + k)
    ensures SumBars(chart) == WindowQuantity(rs, today - 6, 7)
  {
    BarsAreDays(rs, today - 6, chart);
    DaysSumIsWindow(rs, today - 6, 7);
  }

  /** One row of the per-material table. */
  datatype MaterialTotal = MaterialTotal(name: string, quantity: real, points: real)

  function RowNames(t: seq<MaterialTotal>): seq<string>
  {
    seq(|t|, k requires 0 <= k < |t| => t[k].name)
  }

  /** The `totals` object a front-to-back `forEach` builds: create the entry at zero if absent, then add. */
  function Tally(rs: seq<ActivityRecord>): map<string, MaterialTotal>
    decreases |rs|
  {
    if rs == [] then map[]
    else
      var byName := Tally(rs[..|rs| - 1]);
      var r := rs[|rs| - 1];
      var t := if r.materialType in byName then byName[r.materialType] else MaterialTotal(r.materialType, 0.0, 0.0);
      byName[r.materialType := MaterialTotal(r.materialType, t.quantity + r.quantity, t.points + r.pointsEarned as real)]
  }

  /** The object has an entry for exactly the materials that occur, holding that material's sums. */
  lemma {:induction false} TallyIsSums(rs: seq<ActivityRecord>)
    ensures forall m :: m in Tally(rs) <==> m in Materials(rs)
    ensures forall m :: m in Tally(rs) ==>
      Tally(rs)[m] == MaterialTotal(m, SumWhere(rs, m, Quantity), SumWhere(rs, m, Points))
    decreases |rs|
  {
    if rs != [] {
      var init, last := rs[..|rs| - 1], rs[|rs| - 1];
      TallyIsSums(init);
      if last.materialType !in Materials(init) {
        AbsentSumsToZero(init, last.materialType, Quantity);
        AbsentSumsToZero(init, last.materialType, Points);
      }
    }
  }

  /**
   * `materialTotals`: one row per distinct material, in order of first occurrence,
   * with the sums of that material's quantities and points.
   */
  method MaterialTotals(records: Option<seq<ActivityRecord>>) returns (totals: seq<MaterialTotal>)
    ensures RowNames(totals) == Materials(RecordsOrEmpty(records))
    ensures forall k :: 0 <= k < |totals| ==>
      && totals[k].quantity == SumWhere(RecordsOrEmpty(records), totals[k].name, Quantity)
      && totals[k].points == SumWhere(RecordsOrEmpty(records), totals[k].name, Points)
  {
    var rs := RecordsOrEmpty(records);
    // The `totals` object: its contents, and its keys in insertion order.
    var byName: map<string, MaterialTotal> := map[];
    var keys: seq<string> := [];
    var i := 0;
    while i < |rs|
      invariant 0 <= i <= |rs|
      invariant keys == Materials(rs[..i])
      invariant byName == Tally(rs[..i])
    {
      var r := rs[i];
      var m := r.materialType;
      assert rs[..i + 1][..i] == rs[..i];
      assert m in byName <==> m in keys by {
        TallyIsSums(rs[..i]);
      }
      keys := if m in byName then keys else keys + [m];
      var t := if m in byName then byName[m] else MaterialTotal(m, 0.0, 0.0);
      byName := byName[m := MaterialTotal(m, t.quantity + r.quantity, t.points + r.pointsEarned as real)];
      i := i + 1;
    }
    assert rs[..i] == rs;
    assert forall m :: m in keys ==>
      m in byName && byName[m] == MaterialTotal(m, SumWhere(rs, m, Quantity), SumWhere(rs, m, Points)) by {
      TallyIsSums(rs);
    }
    totals := Rows(keys, byName);
    assert RowNames(totals) == keys;
  }

  /** `Object.entries(totals).map(([name, data]) => ({ name, ...data }))`, with `keys` the insertion order. */
  method Rows(keys: seq<string>, byName: map<string, MaterialTotal>) returns (totals: seq<MaterialTotal>)
    requires forall m :: m in keys ==> m in byName
    ensures |totals| == |keys|
    ensures forall j :: 0 <= j < |keys| ==> totals[j] == byName[keys[j]]
  {
    totals := [];
    var k := 0;
    while k < |keys|
      invariant 0 <= k <= |keys|
      invariant |totals| == k
      invariant forall j :: 0 <= j < k ==> totals[j] == byName[keys[j]]
    {
      totals := totals + [byName[keys[k]]];
      k := k + 1;
    }
  }

  function SumRowPoints(t: seq<MaterialTotal>): real
    decreases |t|
  {
    if t == [] then 0.0 else SumRowPoints(t[..|t| - 1]) + t[|t| - 1].points
  }

  lemma {:induction false} RowPointsSum(rs: seq<ActivityRecord>, t: seq<MaterialTotal>)
    requires forall k :: 0 <= k < |t| ==> t[k].points == SumWhere(rs, t[k].name, Points)
    ensures SumRowPoints(t) == SumOver(RowNames(t), rs, Points)
    decreases |t|
  {
    if t != [] {
      var init := t[..|t| - 1];
      assert RowNames(t)[..|t| - 1] == RowNames(init);
      RowPointsSum(rs, init);
    }
  }

  /** Summed over the rows, the points are the points of all the records. */
  lemma MaterialPointsAddUp(rs: seq<ActivityRecord>, totals: seq<MaterialTotal>)
    requires RowNames(totals) == Materials(rs)
    requires forall k :: 0 <= k < |totals| ==> totals[k].points == SumWhere(rs, totals[k].name, Points)
    ensures SumRowPoints(totals) == Total(rs, Points)
  {
    RowPointsSum(rs, totals);
    SumOverMaterials(rs, Points);
  }
}
