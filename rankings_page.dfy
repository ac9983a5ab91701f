/**
 * The rankings page (src/app/dashboard/rankings/page.tsx): the rank table sorted by
 * threshold, the current rank (highest threshold reached, inclusive), the next rank
 * by level, and the progress shown towards it.
 */
module Rankings {
  import opened Common

  datatype Rank = Rank(level: int, name: string, points: int)

  /** The `ranks` table as the source lists it, lowest threshold first (icons left out). */
  const Declared: seq<Rank> := [
    Rank(0, "Novato", 0),
    Rank(1, "Aprendiz", 500),
    Rank(2, "Coletor", 1500),
    Rank(3, "Guardião", 3000),
    Rank(4, "Defensor", 5000),
    Rank(5, "Campeão", 10000),
    Rank(6, "Herói", 20000),
    Rank(7, "Lenda", 50000)
  ]

  /** `ranks` after `.sort((a, b) => b.points - a.points)`; `SortedTable` shows it is the only possible outcome. */
  const Ranks: seq<Rank> := [
    Rank(7, "Lenda", 50000),
    Rank(6, "Herói", 20000),
    Rank(5, "Campeão", 10000),
    Rank(4, "Defensor", 5000),
    Rank(3, "Guardião", 3000),
    Rank(2, "Coletor", 1500),
    Rank(1, "Aprendiz", 500),
    Rank(0, "Novato", 0)
  ]

  predicate StrictlyDescending(s: seq<Rank>)
  {
    forall i, j :: 0 <= i < j < |s| ==> s[i].points > s[j].points
  }

  /** The declared table has levels 0..7 in order, starts at 0 points and has strictly increasing thresholds. */
  lemma DeclaredTable()
    ensures forall i :: 0 <= i < |Declared| ==> Declared[i].level == i
    ensures |Declared| == 8 && Declared[0].points == 0
    ensures forall i, j :: 0 <= i < j < |Declared| ==> Declared[i].points < Declared[j].points
  {
  }

  /** Removing the same head from two permutations of each other leaves permutations. */
  lemma SameTails(a: seq<Rank>, b: seq<Rank>)
    requires |a| > 0 && |b| > 0 && a[0] == b[0]
    requires multiset(a) == multiset(b)
    ensures multiset(a[1..]) == multiset(b[1..])
  {
    assert a == [a[0]] + a[1..];
    assert b == [b[0]] + b[1..];
    assert multiset(a[1..]) == multiset(a) - multiset{a[0]};
  }

  lemma DescendingTail(s: seq<Rank>)
    requires StrictlyDescending(s) && |s| > 0
    ensures StrictlyDescending(s[1..])
  {
    forall i, j | 0 <= i < j < |s| - 1
      ensures s[1..][i].points > s[1..][j].points
    {
      assert s[1..][i] == s[i + 1] && s[1..][j] == s[j + 1];
    }
  }

  /** In a strictly descending sequence, the head's threshold is above every other element's. */
  lemma HeadIsHighest(s: seq<Rank>, x: Rank)
    requires StrictlyDescending(s) && |s| > 0
    requires x in multiset(s) && x != s[0]
    ensures x.points < s[0].points
  {
    var k :| 0 <= k < |s| && s[k] == x;
  }

  /** Two strictly descending orderings of the same ranks are the same sequence. */
  lemma {:induction false} DescendingPermutationUnique(a: seq<Rank>, b: seq<Rank>)
    requires StrictlyDescending(a) && StrictlyDescending(b)
    requires multiset(a) == multiset(b)
    ensures a == b
    decreases |a|
  {
    assert |a| == |multiset(a)| == |multiset(b)| == |b|;
    if |a| > 0 {
      assert a[0] in multiset(b) && b[0] in multiset(a);
      if a[0] != b[0] {
        HeadIsHighest(b, a[0]);
        HeadIsHighest(a, b[0]);
        assert false;
      }
      SameTails(a, b);
      DescendingTail(a);
      DescendingTail(b);
      DescendingPermutationUnique(a[1..], b[1..]);
      assert a == [a[0]] + a[1..];
      assert b == [b[0]] + b[1..];
    }
  }

  /** A sequence read backwards has the same elements. */
  lemma {:induction false} ReversalSameMultiset(a: seq<Rank>, b: seq<Rank>)
    requires |a| == |b|
    requires forall i :: 0 <= i < |a| ==> a[i] == b[|b| - 1 - i]
    ensures multiset(a) == multiset(b)
    decreases |a|
  {
    if |a| > 0 {
      var a', b' := a[1..], b[..|b| - 1];
      forall i | 0 <= i < |a'|
        ensures a'[i] == b'[|b'| - 1 - i]
      {
        assert a'[i] == a[i + 1];
      }
      ReversalSameMultiset(a', b');
      assert a == [a[0]] + a';
      assert b == b' + [b[|b| - 1]];
    }
  }

  lemma RanksDescending()
    ensures StrictlyDescending(Ranks)
  {
  }

  /**
   * Sorting the declared table by descending threshold gives `Ranks`: it is a
   * strictly descending permutation of it, and the only one.
   */
  lemma SortedTable()
    ensures StrictlyDescending(Ranks)
    ensures multiset(Ranks) == multiset(Declared)
    ensures forall s :: StrictlyDescending(s) && multiset(s) == multiset(Declared) ==> s == Ranks
  {
    RanksDescending();
    assert Ranks[0] == Declared[7];
    assert Ranks[1] == Declared[6];
    assert Ranks[2] == Declared[5];
    assert Ranks[3] == Declared[4];
    assert Ranks[4] == Declared[3];
    assert Ranks[5] == Declared[2];
    assert Ranks[6] == Declared[1];
    assert Ranks[7] == Declared[0];
    ReversalSameMultiset(Ranks, Declared);
    forall s | StrictlyDescending(s) && multiset(s) == multiset(Declared)
      ensures s == Ranks
    {
      DescendingPermutationUnique(s, Ranks);
    }
  }

  /** The `for … of` search with early return: the index of the first rank whose threshold `p` reaches. */
  function FirstReached(rs: seq<Rank>, p: int): (i: nat)
    ensures i <= |rs|
    ensures forall j :: 0 <= j < i ==> rs[j].points > p
    ensures i < |rs| ==> rs[i].points <= p
    decreases |rs|
  {
    if rs == [] then 0
    else if p >= rs[0].points then 0
    else 1 + FirstReached(rs[1..], p)
  }

  /** In a strictly descending table, every threshold at or after the stop is at most the stop's. */
  lemma FirstReachedIsHighest(rs: seq<Rank>, p: int, j: int)
    requires StrictlyDescending(rs) && 0 <= j < |rs| && rs[j].points <= p
    ensures FirstReached(rs, p) <= j
    ensures rs[j].points <= rs[FirstReached(rs, p)].points
  {
  }

  /** In a strictly descending table, the search stops exactly at a rank's own threshold, and one point lower it stops at the next entry. */
  lemma FirstReachedThreshold(rs: seq<Rank>, j: int)
    requires StrictlyDescending(rs) && 0 <= j < |rs|
    ensures FirstReached(rs, rs[j].points) == j
    ensures j + 1 < |rs| ==> FirstReached(rs, rs[j].points - 1) == j + 1
  {
    var i := FirstReached(rs, rs[j].points);
    assert i == j;
    if j + 1 < |rs| {
      var i' := FirstReached(rs, rs[j].points - 1);
      assert i' == j + 1;
    }
  }

  /** Where `getCurrentRank` stops in the sorted table: the first threshold reached, else the last entry. */
  function CurrentIndex(p: int): (i: nat)
    ensures i < |Ranks|
    ensures p >= 0 ==> Ranks[i].points <= p
    ensures forall j :: 0 <= j < i ==> Ranks[j].points > p
    ensures (forall j :: 0 <= j < |Ranks| ==> Ranks[j].points > p) ==> i == |Ranks| - 1
  {
    var i := FirstReached(Ranks, p);
    if i < |Ranks| then i else |Ranks| - 1
  }

  /**
   * `getCurrentRank`: the rank with the highest threshold not above `p` (lower bound
   * inclusive); below every threshold, the last entry of the sorted table (Novato).
   */
  function CurrentRank(p: int): (r: Rank)
    ensures r in Ranks
    ensures p >= 0 ==> r.points <= p
    ensures forall j :: 0 <= j < |Ranks| && Ranks[j].points <= p ==> Ranks[j].points <= r.points
    ensures p < 0 ==> r == Rank(0, "Novato", 0)
  {
    var i := CurrentIndex(p);
    assert forall j :: 0 <= j < |Ranks| && Ranks[j].points <= p ==> Ranks[j].points <= Ranks[i].points by {
      RanksDescending();
      forall j | 0 <= j < |Ranks| && Ranks[j].points <= p
        ensures Ranks[j].points <= Ranks[i].points
      {
        FirstReachedIsHighest(Ranks, p, j);
      }
    }
    Ranks[i]
  }

  /** Exactly a rank's threshold earns that rank: thresholds are inclusive lower bounds. */
  lemma ThresholdEarnsRank(j: int)
    requires 0 <= j < |Ranks|
    ensures CurrentRank(Ranks[j].points) == Ranks[j]
  {
    assert FirstReached(Ranks, Ranks[j].points) == j by {
      RanksDescending();
      FirstReachedThreshold(Ranks, j);
    }
  }

  /** One point short of a rank's threshold earns the rank below it. */
  lemma OneShortEarnsRankBelow(j: int)
    requires 0 <= j && j + 1 < |Ranks|
    ensures CurrentRank(Ranks[j].points - 1) == Ranks[j + 1]
  {
    assert FirstReached(Ranks, Ranks[j].points - 1) == j + 1 by {
      RanksDescending();
      FirstReachedThreshold(Ranks, j);
    }
  }

  /** 500 points is Aprendiz and 499 is still Novato. */
  lemma AprendizAtFiveHundred()
    ensures CurrentRank(500).name == "Aprendiz"
    ensures CurrentRank(499).name == "Novato"
  {
    ThresholdEarnsRank(6);
    OneShortEarnsRankBelow(6);
  }

  /** `ranks.find(r => r.level === level)`. */
  function FindLevel(rs: seq<Rank>, level: int): (r: Option<Rank>)
    ensures r.Some? ==> r.value in rs && r.value.level == level
    ensures r.None? ==> forall k :: k in rs ==> k.level != level
    decreases |rs|
  {
    if rs == [] then None
    else if rs[0].level == level then Some(rs[0])
    else FindLevel(rs[1..], level)
  }

  /** `getNextRank`: the rank one level up, if there is one. */
  function NextRank(currentLevel: int): (r: Option<Rank>)
    ensures r.Some? <==> -1 <= currentLevel <= 6
    ensures r.Some? ==> r.value in Ranks && r.value.level == currentLevel + 1
  {
    LevelsByPosition();
    assert -1 <= currentLevel <= 6 ==> Ranks[6 - currentLevel] in Ranks;
    FindLevel(Ranks, currentLevel + 1)
  }

  /** In the sorted table, the rank at position `j` has level `7 - j`. */
  lemma LevelsByPosition()
    ensures |Ranks| == 8
    ensures forall j :: 0 <= j < |Ranks| ==> Ranks[j].level == 7 - j
  {
  }

  /** The rank one level up is the one just before in the sorted table, so its threshold is higher. */
  lemma NextIsHigher(r: Rank)
    requires r in Ranks && NextRank(r.level).Some?
    ensures NextRank(r.level).value.points > r.points
  {
    LevelsByPosition();
    RanksDescending();
    var j :| 0 <= j < |Ranks| && Ranks[j] == r;
    var n := NextRank(r.level).value;
    var k :| 0 <= k < |Ranks| && Ranks[k] == n;
    assert k < j;
  }

  /** Only the top rank has no next rank. */
  lemma OnlyTopHasNoNext(r: Rank)
    requires r in Ranks && NextRank(r.level).None?
    ensures r == Rank(7, "Lenda", 50000)
  {
    LevelsByPosition();
    var j :| 0 <= j < |Ranks| && Ranks[j] == r;
    assert j == 0;
  }

  /** `(num / den) * 100`, which lies in [0, 100) whenever `0 <= num < den`. */
  function Percent(num: int, den: int): (r: real)
    requires den > 0
    ensures 0 <= num < den ==> 0.0 <= r < 100.0
  {
    assert (num as real / den as real) * den as real == num as real;
    (num as real / den as real) * 100.0
  }

  /** `progressToNextRank`: the share of the way from the current threshold to the next, as a percentage. */
  function Progress(p: int): (r: real)
    ensures p >= 0 ==> 0.0 <= r <= 100.0
    ensures p >= 0 ==> (r == 100.0 <==> NextRank(CurrentRank(p).level).None?)
  {
    var cur := CurrentRank(p);
    match NextRank(cur.level)
    case None => 100.0
    case Some(n) =>
      NextIsHigher(cur);
      assert p >= 0 ==> cur.points <= p < n.points;
      Percent(p - cur.points, n.points - cur.points)
  }

  /**
   * With a next rank, `p` lies between the current and the next threshold, so the
   * bar is in [0, 100) and the points still missing are positive; at the top rank
   * the bar is full.
   */
  lemma ProgressBounds(p: int)
    requires p >= 0
    ensures var cur := CurrentRank(p);
      match NextRank(cur.level)
      case None => cur.name == "Lenda" && Progress(p) == 100.0
      case Some(n) =>
        && cur.points <= p < n.points
        && 0.0 <= Progress(p) < 100.0
        && n.points - p > 0
  {
    var cur := CurrentRank(p);
    match NextRank(cur.level)
    case None =>
      OnlyTopHasNoNext(cur);
    case Some(n) =>
      NextIsHigher(cur);
      assert p < n.points;
  }
}
