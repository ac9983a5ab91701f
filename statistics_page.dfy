/**
 * The statistics page (src/app/dashboard/statistics/page.tsx): the `stats` memo,
 * which walks the records once, accumulating each material's quantity in an ordered
 * `Map` and the overall quantity in `totalItems`.
 */
module Statistics {
  import opened Common
  import opened Ledger
  import opened Aggregation

  /** One slice of `materialDistribution`. */
  datatype Slice = Slice(name: string, value: real)

  function Names(d: seq<Slice>): seq<string>
  {
    seq(|d|, k requires 0 <= k < |d| => d[k].name)
  }

  function SumValues(d: seq<Slice>): real
    decreases |d|
  {
    if d == [] then 0.0 else SumValues(d[..|d| - 1]) + d[|d| - 1].value
  }

  /**
   * `stats`: no records (missing or empty) give an empty distribution and 0 items;
   * otherwise one slice per distinct material in order of first occurrence, holding
   * that material's total quantity, and `totalItems` is the total quantity.
   */
  method ComputeStats(records: Option<seq<ActivityRecord>>) returns (distribution: seq<Slice>, totalItems: real)
    ensures records.None? || records.value == [] ==> distribution == [] && totalItems == 0.0
    ensures records.Some? ==>
      && Names(distribution) == Materials(records.value)
      && (forall k :: 0 <= k < |distribution| ==>
            distribution[k].value == SumWhere(records.value, distribution[k].name, Quantity))
      && totalItems == Total(records.value, Quantity)
  {
    if records.None? || |records.value| == 0 {
      return [], 0.0;
    }
    var rs := records.value;
    // The `Map`: its contents, and its keys in insertion order.
    var materialMap: map<string, real> := map[];
    var keys: seq<string> := [];
    totalItems := 0.0;
    var i := 0;
    while i < |rs|
      invariant 0 <= i <= |rs|
      invariant keys == Materials(rs[..i])
      invariant materialMap == SumMap(rs[..i], Quantity)
      invariant totalItems == Total(rs[..i], Quantity)
    {
      var r := rs[i];
      var m := r.materialType;
      assert rs[..i + 1][..i] == rs[..i];
      assert m in materialMap <==> m in keys by {
        SumMapIsSums(rs[..i], Quantity);
      }
      keys := if m in materialMap then keys else keys + [m];
      materialMap := materialMap[m := (if m in materialMap then materialMap[m] else 0.0) + r.quantity];
      totalItems := totalItems + r.quantity;
      i := i + 1;
    }
    assert rs[..i] == rs;
    assert forall m :: m in keys ==> m in materialMap && materialMap[m] == SumWhere(rs, m, Quantity) by {
      SumMapIsSums(rs, Quantity);
    }
    distribution := Entries(keys, materialMap);
    assert Names(distribution) == keys;
  }

  /** `Array.from(materialMap.entries()).map(([name, value]) => ({ name, value }))`, with `keys` the insertion order. */
  method Entries(keys: seq<string>, materialMap: map<string, real>) returns (distribution: seq<Slice>)
    requires forall m :: m in keys ==> m in materialMap
    ensures |distribution| == |keys|
    ensures forall j :: 0 <= j < |keys| ==> distribution[j] == Slice(keys[j], materialMap[keys[j]])
  {
    distribution := [];
    var k := 0;
    while k < |keys|
      invariant 0 <= k <= |keys|
      invariant |distribution| == k
      invariant forall j :: 0 <= j < k ==> distribution[j] == Slice(keys[j], materialMap[keys[j]])
    {
      distribution := distribution + [Slice(keys[k], materialMap[keys[k]])];
      k := k + 1;
    }
  }

  /** The slice values add up to `totalItems`, which the page shows beside the chart. */
  lemma {:induction false} DistributionSumsToTotal(rs: seq<ActivityRecord>, distribution: seq<Slice>)
    requires Names(distribution) == Materials(rs)
    requires forall k :: 0 <= k < |distribution| ==> distribution[k].value == SumWhere(rs, distribution[k].name, Quantity)
    ensures SumValues(distribution) == Total(rs, Quantity)
  {
    SlicesSum(rs, distribution);
    SumOverMaterials(rs, Quantity);
  }

  lemma {:induction false} SlicesSum(rs: seq<ActivityRecord>, d: seq<Slice>)
    requires forall k :: 0 <= k < |d| ==> d[k].value == SumWhere(rs, d[k].name, Quantity)
    ensures SumValues(d) == SumOver(Names(d), rs, Quantity)
    decreases |d|
  {
    if d != [] {
      var init := d[..|d| - 1];
      assert Names(d)[..|d| - 1] == Names(init);
      SlicesSum(rs, init);
    }
  }
}
