/**
 The scheduler's sliding window of EPN memory reports: one row per second, each row carrying
 the previous one forward, old rows trimmed and long-silent EPNs zeroed. The reference it is
 held against is the full, never trimmed log of reports.
 */
module SchedulerHistory {
  import opened Wrappers

  const HISTORY_MAX_MS: nat := 60000
  const FRESH_MS: nat := 5000
  const INTERVAL_MS: nat := 1000

  datatype EpnInfo = EpnInfo(ts: nat, memVal: nat)
  type Row = seq<EpnInfo>

  /** One message from an EPN, stamped with the interval key current when it is handled. */
  datatype Report = Report(key: nat, epnId: int, mem: nat)

  /** The scheduler fields that `update` changes. */
  datatype Window = Window(rows: map<nat, Row>, tooOld: nat)

  predicate KnownEpn(epnId: int, n: nat) {
    1 <= epnId <= n
  }

  // ----- first and last key of the ordered map -----

  ghost predicate IsFirst(keys: set<nat>, k: nat) {
    k in keys && forall x | x in keys :: k <= x
  }

  ghost predicate IsLast(keys: set<nat>, k: nat) {
    k in keys && forall x | x in keys :: x <= k
  }

  lemma {:induction false} ExtremesExist(keys: set<nat>)
    requires keys != {}
    ensures (exists k :: IsFirst(keys, k)) && (exists k :: IsLast(keys, k))
    decreases keys
  {
    var x :| x in keys;
    var rest := keys - {x};
    if rest == {} {
      assert keys == {x};
      assert IsFirst(keys, x) && IsLast(keys, x);
    } else {
      ExtremesExist(rest);
      var lo :| IsFirst(rest, lo);
      var hi :| IsLast(rest, hi);
      assert forall k | k in keys :: k == x || k in rest;
      assert IsFirst(keys, if x < lo then x else lo);
      assert IsLast(keys, if hi < x then x else hi);
    }
  }

  ghost function FirstKey(rows: map<nat, Row>): (k: nat)
    requires rows != map[]
    ensures k in rows && forall x | x in rows :: k <= x
  {
    assert rows.Keys != {};
    ExtremesExist(rows.Keys);
    var k :| IsFirst(rows.Keys, k);
    k
  }

  ghost function LastKey(rows: map<nat, Row>): (k: nat)
    requires rows != map[]
    ensures k in rows && forall x | x in rows :: x <= k
  {
    assert rows.Keys != {};
    ExtremesExist(rows.Keys);
    var k :| IsLast(rows.Keys, k);
    k
  }

  // ----- what `update` and `generateArray1` compute -----

  function Blank(n: nat): (row: Row) {
    seq(n, _ => EpnInfo(0, 0))
  }

  function Initial(n: nat, start: nat): (w: Window)
    ensures start in w.rows
  {
    Window(map[start := Blank(n)], 0)
  }

  /** A new row starts as a copy of the previous one, with lost EPNs zeroed. */
  function CarriedForward(prev: Row, tooOld: nat): (row: Row) {
    seq(|prev|, i requires 0 <= i < |prev| => if prev[i].ts < tooOld then EpnInfo(0, 0) else prev[i])
  }

  ghost predicate WellFormed(w: Window, n: nat) {
    && w.rows != map[]
    && forall k | k in w.rows :: |w.rows[k]| == n
  }

  ghost function OpenRow(w: Window, key: nat): (row: Row)
    requires w.rows != map[]
  {
    if key in w.rows then w.rows[key] else CarriedForward(w.rows[LastKey(w.rows)], w.tooOld)
  }

  function Kept(rows: map<nat, Row>, key: nat): map<nat, Row> {
    map k | k in rows && key < k + HISTORY_MAX_MS :: rows[k]
  }

  /** An id with no place in the row makes `at` throw after the row is opened and before the trim. */
  ghost function Updated(w: Window, r: Report, n: nat): (w': Window)
    requires WellFormed(w, n)
    ensures WellFormed(w', n)
  {
    var open := OpenRow(w, r.key);
    if KnownEpn(r.epnId, n) then
      var rows := Kept(w.rows[r.key := open[r.epnId - 1 := EpnInfo(r.key, r.mem)]], r.key);
      assert r.key in rows;
      Window(rows, FirstKey(rows))
    else
      Window(w.rows[r.key := open], w.tooOld)
  }

  /** The conversion of a 64-bit unsigned value to a 32-bit int. */
  function ToInt(m: nat): int {
    var x := m % 0x1_0000_0000;
    if x < 0x8000_0000 then x else x - 0x1_0000_0000
  }

  /** The conversion of the EPN's int slot count to the 64-bit unsigned message field. */
  function ToWire(freeSlots: int): nat
    requires -0x8000_0000 <= freeSlots < 0x8000_0000
  {
    if freeSlots < 0 then freeSlots + 0x1_0000_0000_0000_0000 else freeSlots
  }

  function ArrayOfRow(row: Row, newest: nat): (a: seq<int>) {
    seq(|row|, i requires 0 <= i < |row| => if row[i].ts + FRESH_MS >= newest then ToInt(row[i].memVal) else -1)
  }

  ghost function ArrayOf(w: Window): (a: seq<int>)
    requires w.rows != map[]
  {
    var newest := LastKey(w.rows);
    ArrayOfRow(w.rows[newest], newest)
  }

  // ----- the reference: the untrimmed log -----

  function Newest(start: nat, log: seq<Report>): nat {
    if log == [] then start else log[|log| - 1].key
  }

  function LastReport(log: seq<Report>, epnId: int): Option<Report> {
    if log == [] then None
    else if log[|log| - 1].epnId == epnId then Some(log[|log| - 1])
    else LastReport(log[..|log| - 1], epnId)
  }

  /** What a scheduler that kept every report would answer for one EPN. */
  function LogAnswer(start: nat, log: seq<Report>, epnId: int): int {
    match LastReport(log, epnId)
    case None => -1
    case Some(r) => if r.key + FRESH_MS >= Newest(start, log) then ToInt(r.mem) else -1
  }

  /** The clock never runs backwards and is past its first five seconds. */
  ghost predicate Clocked(start: nat, log: seq<Report>) {
    && FRESH_MS < start
    && (forall i | 0 <= i < |log| :: start <= log[i].key)
    && (forall i, j | 0 <= i < j < |log| :: log[i].key <= log[j].key)
  }

  ghost function Run(n: nat, start: nat, log: seq<Report>): (w: Window)
    ensures WellFormed(w, n)
  {
    if log == [] then Initial(n, start)
    else Updated(Run(n, start, log[..|log| - 1]), log[|log| - 1], n)
  }

  // ----- the agreement between window and log -----

  /** An entry holds the EPN's last report, or nothing once that report is past the window. */
  ghost predicate EntryAgrees(e: EpnInfo, last: Option<Report>, keys: set<nat>, newest: nat) {
    match last
    case None => e == EpnInfo(0, 0)
    case Some(r) =>
      && (r.key in keys || r.key + HISTORY_MAX_MS <= newest)
      && (e == EpnInfo(r.key, r.mem) || (e == EpnInfo(0, 0) && r.key + HISTORY_MAX_MS <= newest))
  }

  ghost predicate Agrees(w: Window, n: nat, start: nat, log: seq<Report>) {
    && WellFormed(w, n)
    && LastKey(w.rows) == Newest(start, log)
    && (forall k | k in w.rows :: w.tooOld <= k)
    && (forall i | 0 <= i < n ::
          EntryAgrees(w.rows[Newest(start, log)][i], LastReport(log, i + 1), w.rows.Keys, Newest(start, log)))
  }

  lemma LastReportIsLogged(log: seq<Report>, epnId: int)
    ensures LastReport(log, epnId).Some? ==> LastReport(log, epnId).value in log
  {
  }

  /** Expiry zeroes an entry only when its report is already out of the window. */
  lemma OpenRowAgrees(w: Window, n: nat, start: nat, log: seq<Report>, key: nat, i: nat)
    requires Clocked(start, log) && Agrees(w, n, start, log)
    requires Newest(start, log) <= key && i < n
    ensures |OpenRow(w, key)| == n
    ensures EntryAgrees(OpenRow(w, key)[i], LastReport(log, i + 1), w.rows.Keys, key)
  {
    LastReportIsLogged(log, i + 1);
    assert EntryAgrees(w.rows[Newest(start, log)][i], LastReport(log, i + 1), w.rows.Keys, Newest(start, log));
  }

  lemma LastKeyIs(rows: map<nat, Row>, key: nat)
    requires key in rows && forall k | k in rows :: k <= key
    ensures LastKey(rows) == key
  {
  }

  lemma UpdateAgrees(w: Window, n: nat, start: nat, log: seq<Report>, r: Report)
    requires Clocked(start, log + [r]) && Agrees(w, n, start, log)
    ensures Agrees(Updated(w, r, n), n, start, log + [r])
  {
    var w' := Updated(w, r, n);
    var log' := log + [r];
    assert log == log'[..|log|];
    assert Clocked(start, log) by {
      assert forall i | 0 <= i < |log| :: log[i] == log'[i];
    }
    assert Newest(start, log) <= r.key by {
      if log != [] { assert log[|log| - 1] == log'[|log| - 1] && log'[|log|] == r; }
    }
    assert r.key in w'.rows;
    LastKeyIs(w'.rows, r.key);
    forall i | 0 <= i < n
      ensures EntryAgrees(w'.rows[r.key][i], LastReport(log', i + 1), w'.rows.Keys, r.key)
    {
      OpenRowAgrees(w, n, start, log, r.key, i);
    }
  }

  lemma {:induction false} RunAgrees(n: nat, start: nat, log: seq<Report>)
    requires Clocked(start, log)
    ensures Agrees(Run(n, start, log), n, start, log)
  {
    if log == [] {
      LastKeyIs(Initial(n, start).rows, start);
    } else {
      var before, r := log[..|log| - 1], log[|log| - 1];
      assert log == before + [r];
      RunAgrees(n, start, before);
      UpdateAgrees(Run(n, start, before), n, start, before, r);
    }
  }

  /**
   Copying forward, expiring and trimming never change a schedule: after every sequence of
   reports the array built from the window is the one the full log gives.
   */
  lemma WindowMatchesLog(n: nat, start: nat, log: seq<Report>)
    requires Clocked(start, log)
    ensures ArrayOf(Run(n, start, log)) == seq(n, i => LogAnswer(start, log, i + 1))
  {
    RunAgrees(n, start, log);
    var w := Run(n, start, log);
    var newest := Newest(start, log);
    forall i | 0 <= i < n
      ensures ArrayOf(w)[i] == LogAnswer(start, log, i + 1)
    {
      LastReportIsLogged(log, i + 1);
      assert EntryAgrees(w.rows[newest][i], LastReport(log, i + 1), w.rows.Keys, newest);
      if log != [] { assert log[|log| - 1] in log; }
    }
  }

  // ----- the shape of the window -----

  /** Row keys are intervals of the clock, no later than the newest, and no entry is younger than its row. */
  ghost predicate Shaped(w: Window, newest: nat) {
    && w.rows != map[]
    && (forall k | k in w.rows :: k <= newest && k % INTERVAL_MS == 0)
    && (forall k, i | k in w.rows && 0 <= i < |w.rows[k]| :: w.rows[k][i].ts <= k)
  }

  ghost predicate OnInterval(start: nat, log: seq<Report>) {
    && start % INTERVAL_MS == 0
    && forall r | r in log :: r.key % INTERVAL_MS == 0
  }

  lemma UpdateShaped(w: Window, n: nat, newest: nat, r: Report)
    requires WellFormed(w, n) && Shaped(w, newest) && newest <= r.key && r.key % INTERVAL_MS == 0
    ensures Shaped(Updated(w, r, n), r.key)
  {
    var open := OpenRow(w, r.key);
    var w' := Updated(w, r, n);
    assert forall i | 0 <= i < |open| :: open[i].ts <= r.key;
    assert r.key in w'.rows;
    forall k, i | k in w'.rows && 0 <= i < |w'.rows[k]|
      ensures w'.rows[k][i].ts <= k
    {
      if k != r.key { assert w'.rows[k] == w.rows[k]; }
    }
  }

  lemma {:induction false} RunShaped(n: nat, start: nat, log: seq<Report>)
    requires Clocked(start, log) && OnInterval(start, log)
    ensures Shaped(Run(n, start, log), Newest(start, log))
  {
    if log != [] {
      var before, r := log[..|log| - 1], log[|log| - 1];
      assert r in log;
      assert forall x | x in before :: x in log;
      RunShaped(n, start, before);
      UpdateShaped(Run(n, start, before), n, Newest(start, before), r);
    }
  }

  /** Multiples of the interval in a half-open stretch of `m` intervals number at most `m`. */
  lemma {:induction false} AtMostOnePerInterval(keys: set<nat>, newest: nat, m: nat)
    requires newest % INTERVAL_MS == 0
    requires forall k | k in keys :: k % INTERVAL_MS == 0 && k <= newest < k + INTERVAL_MS * m
    ensures |keys| <= m
  {
    if m == 0 || keys == {} {
      assert keys == {};
    } else if newest < INTERVAL_MS {
      assert forall k | k in keys :: k == newest;
      assert keys == {newest};
    } else {
      var rest := keys - {newest};
      forall k | k in rest ensures k <= newest - INTERVAL_MS < k + INTERVAL_MS * (m - 1) {
        assert k != newest;
      }
      AtMostOnePerInterval(rest, newest - INTERVAL_MS, m - 1);
      assert keys <= rest + {newest};
      if newest !in keys { assert rest == keys; }
    }
  }

  /** After every accepted report the window holds the current row and at most a minute of rows. */
  lemma WindowBounded(n: nat, start: nat, log: seq<Report>)
    requires Clocked(start, log) && OnInterval(start, log)
    requires log != [] && KnownEpn(log[|log| - 1].epnId, n)
    ensures var w, key := Run(n, start, log), log[|log| - 1].key;
            && key in w.rows
            && (forall k | k in w.rows :: key - HISTORY_MAX_MS < k <= key)
            && (forall k | k in w.rows :: |w.rows[k]| == n && forall i | 0 <= i < n :: w.rows[k][i].ts <= k)
            && w.tooOld == FirstKey(w.rows)
            && |w.rows| <= 60
  {
    var w, key := Run(n, start, log), log[|log| - 1].key;
    RunShaped(n, start, log);
    assert log[|log| - 1] in log;
    assert key in w.rows;
    AtMostOnePerInterval(w.rows.Keys, key, 60);
    assert |w.rows| == |w.rows.Keys|;
  }

  /** A row that is opened has an entry blank where the row before it has one older than `tooOld`. */
  lemma OpenedRowForgets(w: Window, n: nat, r: Report, i: nat)
    requires WellFormed(w, n) && r.key !in w.rows && KnownEpn(r.epnId, n) && i < n
    ensures var rows := Updated(w, r, n).rows;
            && r.key in rows && |rows[r.key]| == n
            && (rows[r.key][i] == EpnInfo(0, 0) || rows[r.key][i].ts >= w.tooOld || rows[r.key][i].ts == r.key)
  {
  }

  /**
   An EPN silent for longer than the window of the row before reads, in a row that is opened, as one that
   never reported.
   */
  lemma SilentIsForgotten(n: nat, start: nat, log: seq<Report>, r: Report, i: nat)
    requires Clocked(start, log) && OnInterval(start, log) && i < n
    requires KnownEpn(r.epnId, n) && log != [] && KnownEpn(log[|log| - 1].epnId, n)
    requires r.key > Newest(start, log)
    ensures var row := Updated(Run(n, start, log), r, n).rows;
            && r.key in row && |row[r.key]| == n
            && (row[r.key][i] == EpnInfo(0, 0) || row[r.key][i].ts + HISTORY_MAX_MS > Newest(start, log))
  {
    WindowBounded(n, start, log);
    OpenedRowForgets(Run(n, start, log), n, r, i);
  }

  /** The value the scheduler works with is the slot count the EPN sent, even the transient -1. */
  lemma SlotCountSurvivesTheWire(freeSlots: int)
    requires -0x8000_0000 <= freeSlots < 0x8000_0000
    ensures ToWire(freeSlots) < 0x1_0000_0000_0000_0000
    ensures ToInt(ToWire(freeSlots)) == freeSlots
  {
    if freeSlots < 0 {
      assert ToWire(freeSlots) == 0x1_0000_0000 * 0xffff_ffff + (freeSlots + 0x1_0000_0000);
      assert ToWire(freeSlots) % 0x1_0000_0000 == freeSlots + 0x1_0000_0000;
    }
  }

  // ----- when the trim loop, as it is written, is defined -----

  /** At most one key has fallen out of the window. */
  ghost predicate AtMostOnePast(keys: set<nat>, key: nat) {
    forall j, k | j in keys && k in keys && key >= j + HISTORY_MAX_MS && key >= k + HISTORY_MAX_MS :: j == k
  }

  /** One interval further, only one row of a full window is out of it. */
  lemma OnlyRowPast(newest: nat, key: nat, k: nat)
    requires newest % INTERVAL_MS == 0 && k % INTERVAL_MS == 0
    requires newest - HISTORY_MAX_MS < k && k + HISTORY_MAX_MS <= key <= newest + INTERVAL_MS
    ensures k == newest + INTERVAL_MS - HISTORY_MAX_MS
  {
    var d := k + HISTORY_MAX_MS - newest;
    assert d % INTERVAL_MS == 0;
  }

  lemma WindowRows(n: nat, start: nat, log: seq<Report>, k: nat)
    requires Clocked(start, log) && OnInterval(start, log) && k in Run(n, start, log).rows
    requires log != [] ==> KnownEpn(log[|log| - 1].epnId, n)
    ensures Newest(start, log) % INTERVAL_MS == 0 && k % INTERVAL_MS == 0
    ensures Newest(start, log) - HISTORY_MAX_MS < k <= Newest(start, log)
  {
    RunShaped(n, start, log);
    if log != [] {
      WindowBounded(n, start, log);
      assert log[|log| - 1] in log;
    }
  }

  /** With reports at most one interval apart the window never has two rows to trim at once. */
  lemma OneIntervalApartIsDefined(n: nat, start: nat, log: seq<Report>, r: Report)
    requires Clocked(start, log) && OnInterval(start, log)
    requires log != [] ==> KnownEpn(log[|log| - 1].epnId, n)
    requires Newest(start, log) <= r.key <= Newest(start, log) + INTERVAL_MS
    ensures AtMostOnePast(Run(n, start, log).rows.Keys + {r.key}, r.key)
  {
    var rows, newest := Run(n, start, log).rows, Newest(start, log);
    forall k | k in rows.Keys + {r.key} && r.key >= k + HISTORY_MAX_MS
      ensures k == newest + INTERVAL_MS - HISTORY_MAX_MS
    {
      WindowRows(n, start, log, k);
      OnlyRowPast(newest, r.key, k);
    }
  }

  /** One report of the first EPN at each interval. */
  function Steady(start: nat, count: nat): seq<Report> {
    seq(count, i requires 0 <= i < count => Report(start + (i + 1) * INTERVAL_MS, 1, 0))
  }

  lemma {:induction false} SteadyRows(n: nat, start: nat, count: nat, i: nat)
    requires n > 0 && i <= count < i + 60
    ensures start + i * INTERVAL_MS in Run(n, start, Steady(start, count)).rows
  {
    if count > 0 {
      assert Steady(start, count)[..count - 1] == Steady(start, count - 1);
      if i < count {
        SteadyRows(n, start, count - 1, i);
      }
    }
  }

  lemma SteadyIsClocked(start: nat, count: nat)
    requires FRESH_MS < start && start % INTERVAL_MS == 0
    ensures Clocked(start, Steady(start, count)) && OnInterval(start, Steady(start, count))
  {
  }

  lemma TwoPast(keys: set<nat>, key: nat, j: nat, k: nat)
    requires j in keys && k in keys && j != k && key >= j + HISTORY_MAX_MS && key >= k + HISTORY_MAX_MS
    ensures !AtMostOnePast(keys, key)
  {
  }

  /** That gap is the largest: after a steady minute, one report left out leaves two rows to trim. */
  lemma TwoIntervalsCanFail(n: nat, start: nat)
    requires n > 0 && FRESH_MS < start && start % INTERVAL_MS == 0
    ensures var log := Steady(start, 60);
            && Clocked(start, log) && OnInterval(start, log)
            && !AtMostOnePast(Run(n, start, log).rows.Keys, Newest(start, log) + 2 * INTERVAL_MS)
  {
    var log := Steady(start, 60);
    SteadyIsClocked(start, 60);
    SteadyRows(n, start, 60, 1);
    SteadyRows(n, start, 60, 2);
    TwoPast(Run(n, start, log).rows.Keys, Newest(start, log) + 2 * INTERVAL_MS, start + 1 * INTERVAL_MS, start + 2 * INTERVAL_MS);
  }

  // ----- the scheduler object -----

  class Scheduler {
    const numEPNS: nat
    var history: map<nat, Row>
    var tooOld: nat

    ghost function View(): Window
      reads this
    {
      Window(history, tooOld)
    }

    ghost predicate Valid()
      reads this
    {
      WellFormed(View(), numEPNS)
    }

    constructor (numEPNS: nat, key: nat)
      ensures this.numEPNS == numEPNS
      ensures View() == Initial(numEPNS, key) && Valid()
    {
      this.numEPNS := numEPNS;
      history := map[key := seq(numEPNS, _ => EpnInfo(0, 0))];
      tooOld := 0;
      new;
      assert key in history;
    }

    method Begin() returns (k: nat)
      requires history != map[]
      ensures k in history && forall x | x in history :: k <= x
    {
      ghost var _ := FirstKey(history);
      k :| k in history && forall x | x in history :: k <= x;
    }

    method RBegin() returns (k: nat)
      requires history != map[]
      ensures k in history && forall x | x in history :: x <= k
    {
      ghost var _ := LastKey(history);
      k :| k in history && forall x | x in history :: x <= k;
    }

    /** Returns false where `at` throws on an id outside the row. */
    method Update(epnId: int, myMem: nat, key: nat) returns (ok: bool)
      requires Valid()
      modifies this
      ensures Valid()
      ensures View() == Updated(old(View()), Report(key, epnId, myMem), numEPNS)
      ensures ok <==> KnownEpn(epnId, numEPNS)
    {
      if key !in history {
        CopyForward(key);
      }
      assert history == old(history)[key := OpenRow(old(View()), key)];
      if !(1 <= epnId <= numEPNS) {
        return false;
      }
      history := history[key := history[key][epnId - 1 := EpnInfo(key, myMem)]];
      assert history == old(history)[key := OpenRow(old(View()), key)[epnId - 1 := EpnInfo(key, myMem)]];
      Trim(key);
      return true;
    }

    method CopyForward(key: nat)
      requires Valid() && key !in history
      modifies this`history
      ensures history == old(history)[key := OpenRow(old(View()), key)]
    {
      var prevKey := RBegin();
      ghost var target := OpenRow(View(), key);
      history := history[key := seq(numEPNS, _ => EpnInfo(0, 0))];
      for a := 0 to numEPNS
        invariant key in history && |history[key]| == numEPNS
        invariant history == old(history)[key := history[key]]
        invariant history[key][..a] == target[..a]
      {
        if history[prevKey][a].ts < tooOld {
          history := history[key := history[key][a := EpnInfo(0, 0)]];
        } else {
          history := history[key := history[key][a := history[prevKey][a]]];
        }
        assert history[key][..a + 1] == history[key][..a] + [history[key][a]];
      }
      assert history[key] == target;
    }

    /** Erases the first row until it is younger than the window; the row `key` always stays. */
    method Trim(key: nat)
      requires key in history
      modifies this
      ensures history == Kept(old(history), key) && history != map[]
      ensures tooOld == FirstKey(history)
    {
      tooOld := Begin();
      while key >= tooOld + HISTORY_MAX_MS
        invariant key in history
        invariant tooOld in history && forall x | x in history :: tooOld <= x
        invariant forall k | k in history :: k in old(history) && history[k] == old(history)[k]
        invariant forall k | k in old(history) :: k in history || key >= k + HISTORY_MAX_MS
        decreases |history.Keys|
      {
        assert |history.Keys - {tooOld}| < |history.Keys|;
        history := history - {tooOld};
        tooOld := Begin();
      }
      assert history == Kept(old(history), key);
    }

    /**
     The loop as it is written: it erases through the iterator it took before the loop, which the first
     erasure makes invalid. False where it would use it again.
     */
    method TrimAsWritten(key: nat) returns (ok: bool)
      requires key in history
      modifies this
      ensures ok <==> AtMostOnePast(old(history).Keys, key)
      ensures ok ==> history == Kept(old(history), key) && history != map[] && tooOld == FirstKey(history)
    {
      var firstKey := Begin();
      tooOld := firstKey;
      var erased := false;
      while key >= tooOld + HISTORY_MAX_MS
        invariant key in history && history == if erased then old(history) - {firstKey} else old(history)
        invariant tooOld in history && forall x | x in history :: tooOld <= x
        invariant erased ==> key >= firstKey + HISTORY_MAX_MS
        invariant !erased ==> tooOld == firstKey
        decreases !erased
      {
        if erased {
          assert firstKey in old(history).Keys && tooOld in old(history).Keys && tooOld != firstKey;
          return false;
        }
        history := history - {firstKey};
        assert key in history;
        erased := true;
        tooOld := Begin();
      }
      assert history == Kept(old(history), key);
      forall k | k in old(history).Keys && key >= k + HISTORY_MAX_MS
        ensures k == firstKey
      {
        assert k != firstKey ==> k in history;
      }
      ok := true;
    }

    method GenerateArray1() returns (arr: array<int>)
      requires Valid()
      ensures fresh(arr) && arr[..] == ArrayOf(View())
    {
      var latest := RBegin();
      arr := new int[numEPNS];
      ghost var target := ArrayOf(View());
      for i := 0 to numEPNS
        invariant forall j | 0 <= j < i :: arr[j] == target[j]
      {
        if history[latest][i].ts + FRESH_MS >= latest {
          arr[i] := ToInt(history[latest][i].memVal);
        } else {
          arr[i] := -1;
        }
      }
    }
  }
}
