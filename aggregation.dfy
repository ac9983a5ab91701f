/**
 * The per-material group-by that the statistics and stats pages both compute with a
 * loop over the records: the distinct material names in order of first occurrence,
 * and per-material sums of a record's quantity or points. Everything here is defined
 * on prefixes (the last record is the one added), matching a loop that walks the
 * records front to back.
 */
module Aggregation {
  import opened Ledger

  /** Which number of a record is summed. */
  datatype Weight = Quantity | Points

  function W(r: ActivityRecord, w: Weight): real
  {
    match w
    case Quantity => r.quantity
    case Points => r.pointsEarned as real
  }

  predicate Distinct(ms: seq<string>)
  {
    forall i, j :: 0 <= i < j < |ms| ==> ms[i] != ms[j]
  }

  /** The distinct `materialType`s of `rs`, each where it first occurs. */
  function Materials(rs: seq<ActivityRecord>): (ms: seq<string>)
    ensures Distinct(ms)
    decreases |rs|
  {
    if rs == [] then []
    else
      var init, last := rs[..|rs| - 1], rs[|rs| - 1];
      var ms := Materials(init);
      assert rs == init + [last];
      if last.materialType in ms then ms else ms + [last.materialType]
  }

  /** The names listed are exactly the materials that occur among the records. */
  lemma {:induction false} MaterialsOccur(rs: seq<ActivityRecord>)
    ensures forall m :: m in Materials(rs) <==> exists i :: 0 <= i < |rs| && rs[i].materialType == m
    decreases |rs|
  {
    if rs != [] {
      var init := rs[..|rs| - 1];
      MaterialsOccur(init);
      forall m
        ensures m in Materials(rs) <==> exists i :: 0 <= i < |rs| && rs[i].materialType == m
      {
        if m in Materials(init) {
          var i :| 0 <= i < |init| && init[i].materialType == m;
          assert rs[i] == init[i];
        }
        if exists i :: 0 <= i < |rs| && rs[i].materialType == m {
          var i :| 0 <= i < |rs| && rs[i].materialType == m;
          if i < |init| {
            assert init[i] == rs[i];
          }
        }
      }
    }
  }

  /** The sum of `w` over the records of material `m`. */
  function SumWhere(rs: seq<ActivityRecord>, m: string, w: Weight): real
    decreases |rs|
  {
    if rs == [] then 0.0
    else
      var last := rs[|rs| - 1];
      SumWhere(rs[..|rs| - 1], m, w) + (if last.materialType == m then W(last, w) else 0.0)
  }

  /** The sum of `w` over all records. */
  function Total(rs: seq<ActivityRecord>, w: Weight): real
    decreases |rs|
  {
    if rs == [] then 0.0 else Total(rs[..|rs| - 1], w) + W(rs[|rs| - 1], w)
  }

  /** The sum, over the names in `ms`, of each one's per-material sum. */
  function SumOver(ms: seq<string>, rs: seq<ActivityRecord>, w: Weight): real
    decreases |ms|
  {
    if ms == [] then 0.0 else SumOver(ms[..|ms| - 1], rs, w) + SumWhere(rs, ms[|ms| - 1], w)
  }

  /**
   * The dictionary a front-to-back loop builds: for each record, the entry of its
   * material (0 when absent) plus its weight.
   */
  function SumMap(rs: seq<ActivityRecord>, w: Weight): map<string, real>
    decreases |rs|
  {
    if rs == [] then map[]
    else
      var mm := SumMap(rs[..|rs| - 1], w);
      var last := rs[|rs| - 1];
      var m := last.materialType;
      mm[m := (if m in mm then mm[m] else 0.0) + W(last, w)]
  }

  /** The dictionary has an entry for exactly the materials that occur, holding that material's sum. */
  lemma {:induction false} SumMapIsSums(rs: seq<ActivityRecord>, w: Weight)
    ensures forall m :: m in SumMap(rs, w) <==> m in Materials(rs)
    ensures forall m :: m in SumMap(rs, w) ==> SumMap(rs, w)[m] == SumWhere(rs, m, w)
    decreases |rs|
  {
    if rs != [] {
      var init, last := rs[..|rs| - 1], rs[|rs| - 1];
      SumMapIsSums(init, w);
      if last.materialType !in Materials(init) {
        AbsentSumsToZero(init, last.materialType, w);
      }
    }
  }

  /** A material that does not occur contributes nothing. */
  lemma {:induction false} AbsentSumsToZero(rs: seq<ActivityRecord>, m: string, w: Weight)
    requires m !in Materials(rs)
    ensures SumWhere(rs, m, w) == 0.0
    decreases |rs|
  {
    if rs != [] {
      var init := rs[..|rs| - 1];
      assert rs == init + [rs[|rs| - 1]];
      assert m !in Materials(init);
      AbsentSumsToZero(init, m, w);
    }
  }

  /** Adding one record `r` adds its weight to the sum over `ms` exactly when its material is listed once there. */
  lemma {:induction false} SumOverStep(ms: seq<string>, rs: seq<ActivityRecord>, r: ActivityRecord, w: Weight)
    requires Distinct(ms)
    ensures SumOver(ms, rs + [r], w) == SumOver(ms, rs, w) + (if r.materialType in ms then W(r, w) else 0.0)
    decreases |ms|
  {
    assert (rs + [r])[..|rs + [r]| - 1] == rs;
    if ms != [] {
      var init := ms[..|ms| - 1];
      assert ms == init + [ms[|ms| - 1]];
      assert Distinct(init);
      SumOverStep(init, rs, r, w);
    }
  }

  /**
   * Summing the per-material sums over the distinct materials gives the sum over all
   * records: grouping by material loses and double-counts nothing.
   */
  lemma {:induction false} SumOverMaterials(rs: seq<ActivityRecord>, w: Weight)
    ensures SumOver(Materials(rs), rs, w) == Total(rs, w)
    decreases |rs|
  {
    if rs != [] {
      var init, last := rs[..|rs| - 1], rs[|rs| - 1];
      assert rs == init + [last];
      var ms := Materials(init);
      SumOverMaterials(init, w);
      SumOverStep(ms, init, last, w);
      if last.materialType !in ms {
        AbsentSumsToZero(init, last.materialType, w);
        assert Materials(rs) == ms + [last.materialType];
        assert (ms + [last.materialType])[..|ms|] == ms;
      }
    }
  }
}
