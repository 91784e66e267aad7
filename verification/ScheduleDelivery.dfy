/**
 From the reports to the FLPs: when the schedule that comes out of the window is one an FLP can act
 on to its end.
 */
module ScheduleDelivery {
  import opened Wrappers
  import opened SchedulerHistory
  import opened ScheduleSelection
  import Protocol = TimeframeProtocol

  /** The last report of entry `i`, EPN `i + 1`, is fresh and is not the -1 of an EPN that is overdrawn. */
  predicate Reports(start: nat, log: seq<Report>, i: nat) {
    var last := LastReport(log, i + 1);
    last.Some? && last.value.key + FRESH_MS >= Newest(start, log) && ToInt(last.value.mem) != -1
  }

  ghost function ReportingEpns(n: nat, start: nat, log: seq<Report>): set<nat> {
    set i: nat | i < n && Reports(start, log, i)
  }

  function LogAnswers(n: nat, start: nat, log: seq<Report>): seq<int> {
    seq(n, i => LogAnswer(start, log, i + 1))
  }

  lemma ValidIsReporting(n: nat, start: nat, log: seq<Report>)
    ensures ValidEpns(LogAnswers(n, start, log)) == ReportingEpns(n, start, log)
  {
    var vals := LogAnswers(n, start, log);
    forall i: nat | i < n
      ensures vals[i] != -1 <==> Reports(start, log, i)
    {
      assert vals[i] == LogAnswer(start, log, i + 1);
    }
  }

  ghost predicate AllReal(c: Protocol.Config, schedule: seq<int>) {
    forall k | 0 <= k < |schedule| :: Protocol.Real(c, schedule[k])
  }

  /** Every place of a schedule names an EPN exactly when there are valid EPNs for all of them. */
  lemma FullExactly(c: Protocol.Config, vals: seq<int>, ids: seq<nat>, amount: nat)
    requires IsRanking(vals, ids) && c.numEPNS == |vals|
    ensures AllReal(c, Padded(ids, amount)) <==> amount <= |ValidEpns(vals)|
  {
    SortedDistinct(vals, ids);
    DistinctSize(ids);
    if amount > |ids| {
      assert Padded(ids, amount)[|ids|] == -1;
    }
  }

  /**
   A schedule generated from the window and acted on by an FLP: the round ends well, and so every
   piece of it is sent, exactly when the full log has enough EPNs with a fresh report.
   */
  method ScheduleAndSend(sched: Scheduler, flp: Protocol.FlpDevice, ghost start: nat, ghost log: seq<Report>)
    returns (schedule: seq<int>, ok: bool)
    requires sched.Valid() && sched.numEPNS > 0 && flp.c.numEPNS == sched.numEPNS
    requires |flp.arrayofEpns| == flp.c.amountEPNs
    requires Clocked(start, log) && SlotReports(log) && sched.View() == Run(sched.numEPNS, start, log)
    modifies flp
    ensures ok <==> flp.c.amountEPNs <= |ReportingEpns(sched.numEPNS, start, log)|
    ensures flp.arrayofEpns == schedule && flp.sTF == old(flp.sTF) + |Protocol.Acted(flp.c, schedule)|
  {
    schedule := GenerateSchedule(sched, flp.c.amountEPNs, start, log);
    ghost var vals := LogAnswers(sched.numEPNS, start, log);
    ghost var ids :| IsRanking(vals, ids) && schedule == Padded(ids, flp.c.amountEPNs);
    FullExactly(flp.c, vals, ids, flp.c.amountEPNs);
    ValidIsReporting(sched.numEPNS, start, log);
    var sent;
    sent, ok := flp.Round(schedule);
    assert ok <==> AllReal(flp.c, schedule);
  }
}
