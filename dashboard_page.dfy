/**
 * The dashboard (src/app/dashboard/page.tsx): the points shown and the "recent
 * activity" list, which merges the recycling records and the redemptions the two
 * queries return, drops entries without a usable date, sorts newest first and keeps
 * five.
 */
module Dashboard {
  import opened Common
  import opened Ledger

  /**
   * `toDate`: an absent date gives `null`; a Firestore timestamp or an ISO string
   * gives its instant in milliseconds.
   */
  function ToDate(d: DateValue): (t: Option<int>)
    ensures t.None? <==> d.NoDate?
    ensures d.IsoString? ==> t == Some(d.ms)
    ensures d.ServerStamp? ==> t == Some(d.ms)
  {
    match d
    case NoDate => None
    case IsoString(ms) => Some(ms)
    case ServerStamp(ms) => Some(ms)
  }

  /** An entry of `combinedActivities`: the source document, its tag (`log` or `redemption`) and its date. */
  datatype Activity =
    | LogEntry(record: ActivityRecord, date: Option<int>)
    | RedemptionEntry(redemption: Redemption, date: Option<int>)

  /** The instant an entry is sorted by (0 for an undated entry, which the filter has already dropped). */
  function Time(a: Activity): int
  {
    if a.date.Some? then a.date.value else 0
  }

  /** `(recentRecords || []).map(...)` followed by `(recentRedemptions || []).map(...)`. */
  function Combined(records: Option<seq<ActivityRecord>>, redemptions: Option<seq<Redemption>>): (acts: seq<Activity>)
    ensures var rs := if records.Some? then records.value else [];
      var ds := if redemptions.Some? then redemptions.value else [];
      && |acts| == |rs| + |ds|
      && (forall i :: 0 <= i < |rs| ==> acts[i] == LogEntry(rs[i], ToDate(rs[i].recyclingDate)))
      && (forall i :: 0 <= i < |ds| ==> acts[|rs| + i] == RedemptionEntry(ds[i], ToDate(ds[i].redemptionDate)))
  {
    var rs := if records.Some? then records.value else [];
    var ds := if redemptions.Some? then redemptions.value else [];
    seq(|rs|, i requires 0 <= i < |rs| => LogEntry(rs[i], ToDate(rs[i].recyclingDate)))
    + seq(|ds|, i requires 0 <= i < |ds| => RedemptionEntry(ds[i], ToDate(ds[i].redemptionDate)))
  }

  /** `.filter(activity => activity.date !== null)`: every dated entry is kept as often as it occurs, and nothing else. */
  function Dated(s: seq<Activity>): (r: seq<Activity>)
    ensures forall i :: 0 <= i < |r| ==> r[i].date.Some?
    ensures forall a :: multiset(r)[a] == if a.date.Some? then multiset(s)[a] else 0
    decreases |s|
  {
    if s == [] then []
    else
      assert s == [s[0]] + s[1..];
      if s[0].date.Some? then [s[0]] + Dated(s[1..]) else Dated(s[1..])
  }

  predicate NewestFirst(s: seq<Activity>)
  {
    forall i, j :: 0 <= i < j < |s| ==> Time(s[i]) >= Time(s[j])
  }

  /** Put `x` before the first entry that is not newer than it, so equal dates keep their input order. */
  function Insert(x: Activity, s: seq<Activity>): (r: seq<Activity>)
    requires NewestFirst(s)
    ensures |r| == |s| + 1
    ensures r[0] == x || (s != [] && r[0] == s[0])
    ensures NewestFirst(r)
    ensures multiset(r) == multiset(s) + multiset{x}
    decreases |s|
  {
    if s == [] || Time(s[0]) <= Time(x) then
      [x] + s
    else
      var rest := Insert(x, s[1..]);
      PrependNewest(s[0], rest);
      assert s == [s[0]] + s[1..];
      [s[0]] + rest
  }

  lemma PrependNewest(h: Activity, t: seq<Activity>)
    requires NewestFirst(t)
    requires t != [] ==> Time(t[0]) <= Time(h)
    ensures NewestFirst([h] + t)
  {
    var r := [h] + t;
    forall i, j | 0 <= i < j < |r|
      ensures Time(r[i]) >= Time(r[j])
    {
      if i == 0 {
        assert r[j] == t[j - 1];
        assert Time(t[0]) >= Time(t[j - 1]);
      } else {
        assert r[i] == t[i - 1] && r[j] == t[j - 1];
      }
    }
  }

  /** `.sort((a, b) => b.date - a.date)`: a stable sort, newest first. */
  function SortNewestFirst(s: seq<Activity>): (r: seq<Activity>)
    ensures |r| == |s|
    ensures NewestFirst(r)
    ensures multiset(r) == multiset(s)
    decreases |s|
  {
    if s == [] then []
    else
      assert s == [s[0]] + s[1..];
      Insert(s[0], SortNewestFirst(s[1..]))
  }

  function Min(a: int, b: int): int
  {
    if a <= b then a else b
  }

  /** `combinedActivities`: filter, sort, then `.slice(0, 5)`. */
  function RecentActivity(records: Option<seq<ActivityRecord>>, redemptions: Option<seq<Redemption>>): (out: seq<Activity>)
    ensures |out| <= 5
    ensures |out| == Min(5, |Dated(Combined(records, redemptions))|)
    ensures forall i :: 0 <= i < |out| ==> out[i].date.Some?
    ensures NewestFirst(out)
  {
    var dated := Dated(Combined(records, redemptions));
    var sorted := SortNewestFirst(dated);
    SortedEntriesDated(dated);
    PrefixNewestFirst(sorted, Min(5, |sorted|));
    sorted[..Min(5, |sorted|)]
  }

  /** Sorting dated entries leaves only dated ones. */
  lemma SortedEntriesDated(s: seq<Activity>)
    requires forall i :: 0 <= i < |s| ==> s[i].date.Some?
    ensures forall i :: 0 <= i < |SortNewestFirst(s)| ==> SortNewestFirst(s)[i].date.Some?
  {
    var sorted := SortNewestFirst(s);
    forall i | 0 <= i < |sorted|
      ensures sorted[i].date.Some?
    {
      assert sorted[i] in multiset(s);
    }
  }

  lemma PrefixNewestFirst(s: seq<Activity>, n: nat)
    requires NewestFirst(s) && n <= |s|
    ensures NewestFirst(s[..n])
  {
    forall i, j | 0 <= i < j < n
      ensures Time(s[..n][i]) >= Time(s[..n][j])
    {
      assert s[..n][i] == s[i] && s[..n][j] == s[j];
    }
  }

  /** A sequence is its prefix followed by the rest, element for element. */
  lemma SplitMultiset<T>(s: seq<T>, n: nat)
    requires n <= |s|
    ensures multiset(s) == multiset(s[..n]) + multiset(s[n..])
  {
    assert s == s[..n] + s[n..];
  }

  lemma DatedIsSubMultiset(s: seq<Activity>)
    ensures multiset(Dated(s)) <= multiset(s)
  {
    var d := Dated(s);
    forall a
      ensures multiset(d)[a] <= multiset(s)[a]
    {
    }
  }

  /** An entry past the first five of a newest-first sequence is no newer than any of the five. */
  lemma BeyondPrefixIsOlder(sorted: seq<Activity>, n: nat, a: Activity)
    requires NewestFirst(sorted) && n <= |sorted|
    requires multiset(sorted[n..])[a] > 0
    ensures n < |sorted|
    ensures forall k :: 0 <= k < n ==> Time(a) <= Time(sorted[k])
  {
    var j :| 0 <= j < |sorted[n..]| && sorted[n..][j] == a;
    assert sorted[n + j] == a;
  }

  /** An occurrence of `a` missing from a prefix is in the rest. */
  lemma LeftOver(s: seq<Activity>, n: nat, a: Activity)
    requires n <= |s| && multiset(s[..n])[a] < multiset(s)[a]
    ensures multiset(s[n..])[a] > 0
  {
    SplitMultiset(s, n);
  }

  /** `RecentActivity` is the first `Min(5, ...)` entries of the sorted, filtered list. */
  lemma RecentIsPrefix(records: Option<seq<ActivityRecord>>, redemptions: Option<seq<Redemption>>)
    ensures var sorted := SortNewestFirst(Dated(Combined(records, redemptions)));
      RecentActivity(records, redemptions) == sorted[..Min(5, |sorted|)]
  {
  }

  /** Every entry shown occurs among the inputs, as often at least. */
  lemma ShownAreInputs(records: Option<seq<ActivityRecord>>, redemptions: Option<seq<Redemption>>)
    ensures multiset(RecentActivity(records, redemptions)) <= multiset(Combined(records, redemptions))
  {
    var all := Combined(records, redemptions);
    var sorted := SortNewestFirst(Dated(all));
    RecentIsPrefix(records, redemptions);
    SplitMultiset(sorted, Min(5, |sorted|));
    DatedIsSubMultiset(all);
  }

  /** A dated input entry that is not shown (as often as it occurs) is no newer than any entry shown, and then five are shown. */
  lemma OmittedAreOlder(records: Option<seq<ActivityRecord>>, redemptions: Option<seq<Redemption>>, a: Activity)
    requires a.date.Some?
    requires multiset(RecentActivity(records, redemptions))[a] < multiset(Combined(records, redemptions))[a]
    ensures var out := RecentActivity(records, redemptions);
      |out| == 5 && forall k :: 0 <= k < 5 ==> Time(a) <= Time(out[k])
  {
    var all := Combined(records, redemptions);
    var sorted := SortNewestFirst(Dated(all));
    var n := Min(5, |sorted|);
    RecentIsPrefix(records, redemptions);
    assert multiset(sorted)[a] == multiset(all)[a];
    LeftOver(sorted, n, a);
    BeyondPrefixIsOlder(sorted, n, a);
  }

  /**
   * The list holds the five most recent dated entries of the two inputs: each entry
   * it shows occurs among them, and a dated entry it leaves out is no newer than
   * any it shows.
   */
  lemma RecentActivityIsNewestFive(records: Option<seq<ActivityRecord>>, redemptions: Option<seq<Redemption>>)
    ensures var out := RecentActivity(records, redemptions);
      var all := Combined(records, redemptions);
      && multiset(out) <= multiset(all)
      && (forall a: Activity :: a.date.Some? && multiset(out)[a] < multiset(all)[a] ==>
            |out| == 5 && forall k :: 0 <= k < 5 ==> Time(a) <= Time(out[k]))
  {
    ShownAreInputs(records, redemptions);
    forall a: Activity | a.date.Some? && multiset(RecentActivity(records, redemptions))[a] < multiset(Combined(records, redemptions))[a]
      ensures var out := RecentActivity(records, redemptions);
        |out| == 5 && forall k :: 0 <= k < 5 ==> Time(a) <= Time(out[k])
    {
      OmittedAreOlder(records, redemptions, a);
    }
  }

  /** An entry of the merged list is a record tagged `log` or a redemption tagged `redemption`. */
  lemma FromInputs(records: seq<ActivityRecord>, redemptions: seq<Redemption>, a: Activity)
    requires a in Combined(Some(records), Some(redemptions))
    ensures a.LogEntry? ==> a.record in records
    ensures a.RedemptionEntry? ==> a.redemption in redemptions
  {
    var all := Combined(Some(records), Some(redemptions));
    var i :| 0 <= i < |all| && all[i] == a;
    if i < |records| {
      assert a == LogEntry(records[i], ToDate(records[i].recyclingDate));
    } else {
      var j := i - |records|;
      assert a == all[|records| + j] == RedemptionEntry(redemptions[j], ToDate(redemptions[j].redemptionDate));
    }
  }

  /** Each entry shown is tagged by the collection it came from. */
  lemma EntriesKeepTheirOrigin(records: seq<ActivityRecord>, redemptions: seq<Redemption>)
    ensures forall a :: a in RecentActivity(Some(records), Some(redemptions)) ==>
      (a.LogEntry? ==> a.record in records) && (a.RedemptionEntry? ==> a.redemption in redemptions)
  {
    var out := RecentActivity(Some(records), Some(redemptions));
    RecentActivityIsNewestFive(Some(records), Some(redemptions));
    forall a | a in out
      ensures (a.LogEntry? ==> a.record in records) && (a.RedemptionEntry? ==> a.redemption in redemptions)
    {
      assert multiset(out)[a] > 0;
      FromInputs(records, redemptions, a);
    }
  }
}
