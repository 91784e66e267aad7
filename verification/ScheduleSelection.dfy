/**
 How the scheduler turns the memory array into a schedule: repeated in-place maximum search,
 held against the sorted ranking of the valid EPNs.
 */
module ScheduleSelection {
  import opened SchedulerHistory

  /** Entry `i` goes before entry `j`: more memory, or as much and the smaller id. */
  predicate Better(vals: seq<int>, i: nat, j: nat)
    requires i < |vals| && j < |vals|
  {
    vals[i] > vals[j] || (vals[i] == vals[j] && i < j)
  }

  ghost function Elements(q: seq<nat>): set<nat> {
    set x | x in q
  }

  ghost function ValidEpns(vals: seq<int>): set<nat> {
    set i: nat | i < |vals| && vals[i] != -1
  }

  ghost predicate Sorted(vals: seq<int>, ids: seq<nat>) {
    && (forall k | 0 <= k < |ids| :: ids[k] < |vals|)
    && (forall j, k | 0 <= j < k < |ids| :: Better(vals, ids[j], ids[k]))
  }

  /** `ids` lists exactly the valid entries (those not -1), best first. */
  ghost predicate IsRanking(vals: seq<int>, ids: seq<nat>) {
    Sorted(vals, ids) && Elements(ids) == ValidEpns(vals)
  }

  /** The first `amount` of the ranking as 1-based EPN ids, padded with -1. */
  function Padded(ids: seq<nat>, amount: nat): (s: seq<int>) {
    seq(amount, k requires 0 <= k < amount => if k < |ids| then ids[k] as int + 1 else -1)
  }

  // ----- a ranking exists and is unique -----

  lemma SortedDistinct(vals: seq<int>, ids: seq<nat>)
    requires Sorted(vals, ids)
    ensures forall j, k | 0 <= j < k < |ids| :: ids[j] != ids[k]
  {
    forall j, k | 0 <= j < k < |ids| ensures ids[j] != ids[k] {
      assert Better(vals, ids[j], ids[k]);
    }
  }

  lemma {:induction false} BestOf(vals: seq<int>, chosen: set<nat>) returns (best: nat)
    requires chosen != {} && forall i | i in chosen :: i < |vals|
    ensures best in chosen && forall i | i in chosen && i != best :: Better(vals, best, i)
    decreases chosen
  {
    var x :| x in chosen;
    var rest := chosen - {x};
    if rest == {} {
      assert chosen == {x};
      best := x;
    } else {
      var other := BestOf(vals, rest);
      best := if Better(vals, x, other) then x else other;
      forall i | i in chosen && i != best ensures Better(vals, best, i) {
        assert i == x || i == other || Better(vals, other, i);
      }
    }
  }

  lemma {:induction false} SortedListing(vals: seq<int>, chosen: set<nat>) returns (ids: seq<nat>)
    requires forall i | i in chosen :: i < |vals|
    ensures Sorted(vals, ids) && Elements(ids) == chosen
    decreases chosen
  {
    if chosen == {} {
      ids := [];
      assert Elements(ids) == {};
    } else {
      var best := BestOf(vals, chosen);
      var rest := SortedListing(vals, chosen - {best});
      ids := [best] + rest;
      assert Elements(ids) == {best} + Elements(rest);
      forall k | 1 <= k < |ids| ensures ids[k] in chosen && Better(vals, best, ids[k]) {
        assert rest[k - 1] in Elements(rest);
      }
      forall j, k | 1 <= j < k < |ids| ensures Better(vals, ids[j], ids[k]) {
        assert Better(vals, rest[j - 1], rest[k - 1]);
      }
    }
  }

  lemma RankingExists(vals: seq<int>)
    ensures exists ids :: IsRanking(vals, ids)
  {
    var ids := SortedListing(vals, ValidEpns(vals));
    assert IsRanking(vals, ids);
  }

  ghost function BetterThan(vals: seq<int>, x: nat): set<nat>
    requires x < |vals|
  {
    set y: nat | y < |vals| && vals[y] != -1 && Better(vals, y, x)
  }

  lemma {:induction false} DistinctSize(q: seq<nat>)
    requires forall j, k | 0 <= j < k < |q| :: q[j] != q[k]
    ensures |Elements(q)| == |q|
  {
    if q == [] {
      assert Elements(q) == {};
    } else {
      var rest, last := q[..|q| - 1], q[|q| - 1];
      DistinctSize(rest);
      assert q == rest + [last];
      assert last !in Elements(rest);
      assert Elements(q) == Elements(rest) + {last};
    }
  }

  /** An entry's place in a ranking is the number of valid entries better than it. */
  lemma PlaceIsRank(vals: seq<int>, ids: seq<nat>, k: nat)
    requires IsRanking(vals, ids) && k < |ids|
    ensures |BetterThan(vals, ids[k])| == k
  {
    SortedDistinct(vals, ids);
    var front := ids[..k];
    forall y | y in BetterThan(vals, ids[k]) ensures y in Elements(front) {
      assert y in Elements(ids);
      var j :| 0 <= j < |ids| && ids[j] == y;
      assert j < k;
      assert front[j] == y;
    }
    forall y | y in Elements(front) ensures y in BetterThan(vals, ids[k]) {
      var j :| 0 <= j < k && front[j] == y;
      assert Better(vals, ids[j], ids[k]) && ids[j] in Elements(ids);
    }
    assert BetterThan(vals, ids[k]) == Elements(front);
    DistinctSize(front);
  }

  lemma RankingUnique(vals: seq<int>, a: seq<nat>, b: seq<nat>)
    requires IsRanking(vals, a) && IsRanking(vals, b)
    ensures a == b
  {
    SortedDistinct(vals, a);
    SortedDistinct(vals, b);
    DistinctSize(a);
    DistinctSize(b);
    forall k | 0 <= k < |a| ensures a[k] == b[k] {
      SamePlace(vals, a, b, k);
    }
  }

  lemma SamePlace(vals: seq<int>, a: seq<nat>, b: seq<nat>, k: nat)
    requires IsRanking(vals, a) && IsRanking(vals, b) && k < |a|
    ensures k < |b| && a[k] == b[k]
  {
    assert a[k] in Elements(a);
    assert a[k] in Elements(b);
    var m :| 0 <= m < |b| && b[m] == a[k];
    PlaceIsRank(vals, a, k);
    PlaceIsRank(vals, b, m);
  }

  // ----- the code -----

  ghost predicate IsBest(vals: seq<int>, best: int) {
    && 0 <= best < |vals|
    && forall j: nat | j < |vals| && j != best :: Better(vals, best, j)
  }

  method MaxSearch(arr: array<int>) returns (r: int)
    requires arr.Length > 0
    modifies arr
    ensures r == -1 ==> arr[..] == old(arr[..]) && -1 in arr[..] && forall j | 0 <= j < arr.Length :: arr[j] <= -1
    ensures r != -1 ==> IsBest(old(arr[..]), r - 1) && old(arr[..])[r - 1] != -1 && arr[..] == old(arr[..])[r - 1 := -1]
  {
    var max, index := arr[0], 0;
    for i := 1 to arr.Length
      invariant 0 <= index < i && max == arr[index]
      invariant forall j | 0 <= j < i :: arr[j] < max || (arr[j] == max && index <= j)
    {
      if max < arr[i] {
        max, index := arr[i], i;
      }
    }
    assert IsBest(arr[..], index);
    if arr[index] == -1 {
      assert arr[..][index] == -1;
      return -1;
    }
    arr[index] := -1;
    return index + 1;
  }

  /** The array with the first `i` of the ranking already taken. */
  ghost predicate Taken(vals: seq<int>, ids: seq<nat>, i: nat, now: seq<int>) {
    && |now| == |vals|
    && (forall k | 0 <= k < |ids| :: ids[k] < |vals|)
    && (forall k | 0 <= k < |ids| && k < i :: now[ids[k]] == -1)
    && (forall j: nat | j < |vals| && j !in ids[..if i < |ids| then i else |ids|] :: now[j] == vals[j])
  }

  lemma NextStillThere(vals: seq<int>, ids: seq<nat>, i: nat, now: seq<int>)
    requires IsRanking(vals, ids) && Taken(vals, ids, i, now) && i < |ids|
    ensures now[ids[i]] == vals[ids[i]] != -1
  {
    SortedDistinct(vals, ids);
    assert ids[i] !in ids[..i];
    assert ids[i] in Elements(ids);
  }

  lemma BestIsNext(vals: seq<int>, ids: seq<nat>, i: nat, now: seq<int>, best: nat)
    requires IsRanking(vals, ids) && Taken(vals, ids, i, now)
    requires IsBest(now, best) && now[best] != -1
    ensures i < |ids| && ids[i] == best
    ensures Taken(vals, ids, i + 1, now[best := -1])
  {
    SortedDistinct(vals, ids);
    var m := if i < |ids| then i else |ids|;
    assert forall k | 0 <= k < m :: ids[k] != best;
    assert best !in ids[..m];
    assert best in Elements(ids);
    var k :| 0 <= k < |ids| && ids[k] == best;
    assert i <= k;
    NextStillThere(vals, ids, i, now);
    assert i == k || Better(vals, ids[i], ids[k]);
    assert ids[i] == best || Better(now, best, ids[i]);
    assert ids[..i + 1] == ids[..i] + [best];
  }

  method RepeatedMaxSearch(arr: array<int>, amountEPNs: nat) returns (s: seq<int>)
    requires arr.Length > 0 && forall j | 0 <= j < arr.Length :: arr[j] >= -1
    modifies arr
    ensures exists ids :: IsRanking(old(arr[..]), ids) && s == Padded(ids, amountEPNs)
  {
    ghost var vals := arr[..];
    RankingExists(vals);
    ghost var ids :| IsRanking(vals, ids);
    s := [];
    for i := 0 to amountEPNs
      invariant Taken(vals, ids, i, arr[..])
      invariant forall j | 0 <= j < arr.Length :: arr[j] >= -1
      invariant s == Padded(ids, i)
    {
      ghost var now := arr[..];
      if i < |ids| {
        NextStillThere(vals, ids, i, now);
      }
      var maxIndex := MaxSearch(arr);
      if maxIndex != -1 {
        BestIsNext(vals, ids, i, now, maxIndex - 1);
      }
      s := s + [maxIndex];
    }
  }

  /** Every value an EPN can report: its slot count, -1 included. */
  ghost predicate SlotReports(log: seq<Report>) {
    forall r | r in log :: ToInt(r.mem) >= -1
  }

  /**
   The schedule is the ranking of the EPNs' last fresh reports, read off the full log of reports,
   whatever the window has copied, expired or trimmed on the way.
   */
  method GenerateSchedule(sched: Scheduler, amountEPNs: nat, ghost start: nat, ghost log: seq<Report>)
    returns (s: seq<int>)
    requires sched.Valid() && sched.numEPNS > 0
    requires Clocked(start, log) && SlotReports(log)
    requires sched.View() == Run(sched.numEPNS, start, log)
    ensures exists ids :: IsRanking(seq(sched.numEPNS, i => LogAnswer(start, log, i + 1)), ids) && s == Padded(ids, amountEPNs)
  {
    WindowMatchesLog(sched.numEPNS, start, log);
    var temporaryStorage := sched.GenerateArray1();
    ghost var vals := temporaryStorage[..];
    assert vals == seq(sched.numEPNS, i => LogAnswer(start, log, i + 1));
    forall j | 0 <= j < temporaryStorage.Length ensures temporaryStorage[j] >= -1 {
      LastReportIsLogged(log, j + 1);
      assert vals[j] == LogAnswer(start, log, j + 1);
    }
    s := RepeatedMaxSearch(temporaryStorage, amountEPNs);
  }

  // ----- what the ranking means for a schedule -----

  /** Earlier in the ranking is more slots, or as many and the lower id. */
  lemma RankingOrder(vals: seq<int>, ids: seq<nat>, j: nat, k: nat)
    requires IsRanking(vals, ids) && j < k < |ids|
    ensures ids[j] < |vals| && ids[k] < |vals|
    ensures vals[ids[j]] > vals[ids[k]] || (vals[ids[j]] == vals[ids[k]] && ids[j] < ids[k])
  {
    assert Better(vals, ids[j], ids[k]);
  }

  /** A schedule has the length asked for, names only valid EPNs, and none of them twice. */
  lemma ScheduleNamesValidEpnsOnce(vals: seq<int>, ids: seq<nat>, amount: nat)
    requires IsRanking(vals, ids)
    ensures var s := Padded(ids, amount);
            && |s| == amount
            && (forall k | 0 <= k < amount && s[k] != -1 :: 1 <= s[k] <= |vals| && vals[s[k] - 1] != -1)
            && (forall j, k | 0 <= j < k < amount && s[j] == s[k] :: s[j] == -1)
  {
    SortedDistinct(vals, ids);
    forall k | 0 <= k < |ids| ensures vals[ids[k]] != -1 {
      assert ids[k] in Elements(ids);
    }
  }

  /** A valid EPN is left out only when every place is taken by one with at least its memory. */
  lemma LeftOutIsNotBetter(vals: seq<int>, ids: seq<nat>, amount: nat, i: nat, k: nat)
    requires IsRanking(vals, ids) && k < amount
    requires i < |vals| && vals[i] != -1 && i + 1 !in Padded(ids, amount)
    ensures k < |ids| && Padded(ids, amount)[k] == ids[k] + 1 && vals[ids[k]] >= vals[i]
  {
    assert i in Elements(ids);
    var m :| 0 <= m < |ids| && ids[m] == i;
    var s := Padded(ids, amount);
    assert forall j | 0 <= j < |ids| && j < amount :: s[j] == ids[j] + 1;
    assert amount <= m;
    assert Better(vals, ids[k], ids[m]);
  }

  // ----- the logged statistic -----

  ghost function PositiveEpns(vals: seq<int>): set<nat> {
    set i: nat | i < |vals| && vals[i] > 0
  }

  /** How many entries of a schedule name an EPN with free slots. */
  function PositiveEntries(vals: seq<int>, s: seq<int>): nat {
    if s == [] then 0
    else
      var last := s[|s| - 1];
      PositiveEntries(vals, s[..|s| - 1]) + if 1 <= last <= |vals| && vals[last - 1] > 0 then 1 else 0
  }

  method AvailableEpns(arr: array<int>) returns (c: nat)
    ensures c == |PositiveEpns(arr[..])|
  {
    c := 0;
    for i := 0 to arr.Length
      invariant c == |PositiveEpns(arr[..i])|
    {
      assert arr[..i + 1] == arr[..i] + [arr[i]];
      if arr[i] > 0 {
        assert PositiveEpns(arr[..i + 1]) == PositiveEpns(arr[..i]) + {i as nat};
        c := c + 1;
      } else {
        assert PositiveEpns(arr[..i + 1]) == PositiveEpns(arr[..i]);
      }
    }
    assert arr[..arr.Length] == arr[..];
  }

  function EpnsInSchedule(available: nat, amountEPNs: nat): nat {
    if available >= amountEPNs then amountEPNs else available
  }

  /** The positive entries of a ranking are its front, as many as there are positive EPNs. */
  lemma PositiveFront(vals: seq<int>, ids: seq<nat>) returns (p: nat)
    requires IsRanking(vals, ids)
    ensures p <= |ids| && p == |PositiveEpns(vals)|
    ensures forall k | 0 <= k < |ids| :: vals[ids[k]] > 0 <==> k < p
  {
    p := 0;
    while p < |ids| && vals[ids[p]] > 0
      invariant p <= |ids| && forall k | 0 <= k < p :: vals[ids[k]] > 0
    {
      p := p + 1;
    }
    forall k | p <= k < |ids| ensures vals[ids[k]] <= 0 {
      assert k == p || Better(vals, ids[p], ids[k]);
    }
    SortedDistinct(vals, ids);
    var front := ids[..p];
    DistinctSize(front);
    forall i: nat | i in PositiveEpns(vals) ensures i in Elements(front) {
      assert i in Elements(ids);
      var k :| 0 <= k < |ids| && ids[k] == i;
      assert front[k] == i;
    }
    assert PositiveEpns(vals) == Elements(front);
  }

  lemma {:induction false} PositiveEntriesOf(vals: seq<int>, ids: seq<nat>, amount: nat, p: nat)
    requires IsRanking(vals, ids) && p <= |ids|
    requires forall k | 0 <= k < |ids| :: vals[ids[k]] > 0 <==> k < p
    ensures PositiveEntries(vals, Padded(ids, amount)) == EpnsInSchedule(p, amount)
  {
    if amount > 0 {
      PositiveEntriesOf(vals, ids, amount - 1, p);
      assert Padded(ids, amount)[..amount - 1] == Padded(ids, amount - 1);
    }
  }

  /** The number logged next to a schedule is the number of its entries that have free slots. */
  lemma LoggedStatisticIsReal(vals: seq<int>, ids: seq<nat>, amount: nat)
    requires IsRanking(vals, ids)
    ensures PositiveEntries(vals, Padded(ids, amount)) == EpnsInSchedule(|PositiveEpns(vals)|, amount)
  {
    var p := PositiveFront(vals, ids);
    PositiveEntriesOf(vals, ids, amount, p);
  }
}
