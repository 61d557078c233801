/**
  The failure-report ledger, the mirror of the delivery ledger one level up:
  which failure a reporter may claim next (the INSERT ... SELECT of
  `get_next_failed_transmission_dequeue`, wifi_server/app/database.py:1627-1734)
  and the invariants it keeps: failures are reported back to one source device in
  order, and a reporter never holds two open report claims.
 */
module Reports {
  import opened Rows
  import opened Store

  /** The report claim has a `transmission_dequeue_error_transmission_complete` row. */
  predicate FailureDequeueCompleted(s: Store, r: RowId)
  {
    exists k :: 0 <= k < |s.failureCompletes| && s.failureCompletes[k].failedTransmissionDequeueGuid == r
  }

  /** The report claim has a `transmission_dequeue_error_transmission_error` row. */
  predicate FailureDequeueErrored(s: Store, r: RowId)
  {
    exists k :: 0 <= k < |s.failureErrors| && s.failureErrors[k].failedTransmissionDequeueGuid == r
  }

  /** A report claim still held by its reporter. */
  predicate FailureDequeueOpen(s: Store, r: RowId)
  {
    !FailureDequeueCompleted(s, r) && !FailureDequeueErrored(s, r)
  }

  predicate ReporterBusy(s: Store, reporter: Guid)
  {
    exists r :: 0 <= r < |s.failureDequeues| && s.failureDequeues[r].reporterGuid == reporter && FailureDequeueOpen(s, r)
  }

  /** Some report claim of failure `f` was completed, with either retry answer.  A report
      error does not count: the report is tried again. */
  predicate Reported(s: Store, f: RowId)
  {
    exists k :: 0 <= k < |s.failureCompletes| && FailureOf(s, s.failureCompletes[k].failedTransmissionDequeueGuid) == Some(f)
  }

  predicate FailureEverDequeued(s: Store, f: RowId)
  {
    exists r :: 0 <= r < |s.failureDequeues| && s.failureDequeues[r].failedTransmissionGuid == f
  }

  /** The source device of the transmission that failed, when the chain of rows exists. */
  function SourceOf(s: Store, f: RowId): Option<Guid>
  {
    match FailureTransmission(s, f)
    case None => None
    case Some(t) => Some(s.transmissions[t].sourceDeviceGuid)
  }

  /** A failure from the same source device, created strictly earlier than `f`, has not
      been reported back yet. */
  predicate ReportWaitsOnEarlier(s: Store, f: RowId)
    requires f < |s.failures|
  {
    exists g :: 0 <= g < |s.failures| &&
      SourceOf(s, g).Some? && SourceOf(s, g) == SourceOf(s, f) &&
      s.failures[g].rowCreatedDatetime < s.failures[f].rowCreatedDatetime &&
      !Reported(s, g)
  }

  /** The WHERE clause of the report claim, for failure `f`. */
  predicate ReportEligible(s: Store, reporter: Guid, queue: Guid, f: RowId)
  {
    && FailureTransmission(s, f).Some?
    && s.transmissions[FailureTransmission(s, f).value].queueGuid == queue
    && DeviceIndex(s.devices, s.transmissions[FailureTransmission(s, f).value].sourceDeviceGuid).Some?
    && (!FailureEverDequeued(s, f) || s.failures[f].isRetryReady == Ready)
    && !ReportWaitsOnEarlier(s, f)
    && !ReporterBusy(s, reporter)
  }

  /** Report claims are ordered by the creation of the TRANSMISSION that failed, not of
      the failure. */
  function ReportKey(s: Store, f: RowId): Instant
    requires FailureTransmission(s, f).Some?
  {
    s.transmissions[FailureTransmission(s, f).value].rowCreatedDatetime
  }

  /** `ORDER BY t.row_created_datetime`, equal stamps in failure row order. */
  predicate ReportNoLaterThan(s: Store, a: RowId, b: RowId)
    requires FailureTransmission(s, a).Some? && FailureTransmission(s, b).Some?
  {
    ReportKey(s, a) < ReportKey(s, b) || (ReportKey(s, a) == ReportKey(s, b) && a <= b)
  }

  /** `LIMIT 1`: the eligible failure, among the first `n`, whose transmission is earliest. */
  function NextFailure(s: Store, reporter: Guid, queue: Guid, n: nat): (r: Option<RowId>)
    requires n <= |s.failures|
    ensures r.Some? ==> r.value < n && ReportEligible(s, reporter, queue, r.value)
    ensures r.None? <==> forall g :: 0 <= g < n ==> !ReportEligible(s, reporter, queue, g)
  {
    if n == 0 then None
    else
      var best := NextFailure(s, reporter, queue, n - 1);
      if !ReportEligible(s, reporter, queue, n - 1) then best
      else if best.None? || ReportKey(s, n - 1) < ReportKey(s, best.value) then Some(n - 1)
      else best
  }

  /** The selected failure is no later than any other eligible one. */
  lemma {:induction false} NextFailureEarliest(s: Store, reporter: Guid, queue: Guid, n: nat)
    requires n <= |s.failures|
    ensures var r := NextFailure(s, reporter, queue, n);
      r.Some? ==> forall g :: 0 <= g < n && ReportEligible(s, reporter, queue, g) ==> ReportNoLaterThan(s, r.value, g)
  {
    if n > 0 {
      NextFailureEarliest(s, reporter, queue, n - 1);
    }
  }

  /** The row the report claim inserts for failure `f`: the destination client is the one
      the SOURCE device of the failed transmission was last seen on. */
  function ReportClaimFor(s: Store, reporter: Guid, f: RowId, client: RowId, now: Instant): FailedTransmissionDequeue
    requires FailureTransmission(s, f).Some?
    requires DeviceIndex(s.devices, s.transmissions[FailureTransmission(s, f).value].sourceDeviceGuid).Some?
  {
    var device := s.devices[DeviceIndex(s.devices, s.transmissions[FailureTransmission(s, f).value].sourceDeviceGuid).value];
    FailedTransmissionDequeue(|s.failureDequeues|, reporter, f, client, device.lastKnownClientGuid, now)
  }

  /** The report claim that `try_get_transmission_dequeue_error_transmission_dequeue_by_reporter`
      finds: the reporter's open report claim among the first `n`. */
  function OpenFailureDequeue(s: Store, reporter: Guid, n: nat): (r: Option<RowId>)
    requires n <= |s.failureDequeues|
    ensures r.Some? ==> r.value < n && s.failureDequeues[r.value].reporterGuid == reporter && FailureDequeueOpen(s, r.value)
    ensures r.None? <==> forall x :: 0 <= x < n ==> !(s.failureDequeues[x].reporterGuid == reporter && FailureDequeueOpen(s, x))
  {
    if n == 0 then None
    else if s.failureDequeues[n - 1].reporterGuid == reporter && FailureDequeueOpen(s, n - 1) then Some(n - 1)
    else OpenFailureDequeue(s, reporter, n - 1)
  }

  // ---------------------------------------------------------------------------
  // Invariants of the report protocol

  /** Per-source ordering: no report-claimed failure has an earlier failure from the same
      source that is not reported back yet. */
  predicate ReportsInOrder(s: Store)
  {
    forall r :: 0 <= r < |s.failureDequeues| && s.failureDequeues[r].failedTransmissionGuid < |s.failures| ==>
      !ReportWaitsOnEarlier(s, s.failureDequeues[r].failedTransmissionGuid)
  }

  /** Reporter exclusivity: one open report claim per reporter at most. */
  predicate ReportersExclusive(s: Store)
  {
    forall r1, r2 ::
      && 0 <= r1 < |s.failureDequeues| && 0 <= r2 < |s.failureDequeues|
      && s.failureDequeues[r1].reporterGuid == s.failureDequeues[r2].reporterGuid
      && FailureDequeueOpen(s, r1) && FailureDequeueOpen(s, r2)
      ==> r1 == r2
  }

  // ---------------------------------------------------------------------------
  // Lemmas

  /** A failure once reported back stays reported. */
  lemma ReportedPersists(s: Store, s': Store, f: RowId)
    requires Grows(s, s') && Reported(s, f)
    ensures Reported(s', f)
  {
    GrowsKeepsChains(s, s');
    var k :| 0 <= k < |s.failureCompletes| && FailureOf(s, s.failureCompletes[k].failedTransmissionDequeueGuid) == Some(f);
    assert s'.failureCompletes[k] == s.failureCompletes[k];
  }

  /** A closed report claim never reopens. */
  lemma ReportClosedStaysClosed(s: Store, s': Store, r: RowId)
    requires Grows(s, s') && !FailureDequeueOpen(s, r)
    ensures !FailureDequeueOpen(s', r)
  {
    if FailureDequeueCompleted(s, r) {
      var k :| 0 <= k < |s.failureCompletes| && s.failureCompletes[k].failedTransmissionDequeueGuid == r;
      assert s'.failureCompletes[k] == s.failureCompletes[k];
    } else {
      var k :| 0 <= k < |s.failureErrors| && s.failureErrors[k].failedTransmissionDequeueGuid == r;
      assert s'.failureErrors[k] == s.failureErrors[k];
    }
  }

  /** The source of a failure never changes. */
  lemma SourcePersists(s: Store, s': Store, f: RowId)
    requires Grows(s, s') && SourceOf(s, f).Some?
    ensures SourceOf(s', f) == SourceOf(s, f)
  {
    GrowsKeepsChains(s, s');
    var t := FailureTransmission(s, f).value;
    assert SameTransmission(s.transmissions[t], s'.transmissions[t]);
  }

  /** A failure that does not wait on an earlier one keeps not waiting, provided every
      failure added is stamped later than those already there. */
  lemma ReportStillNotWaiting(s: Store, s': Store, f: RowId)
    requires Grows(s, s') && f < |s.failures| && !ReportWaitsOnEarlier(s, f)
    requires forall g :: 0 <= g < |s.failures| ==> FailureTransmission(s, g).Some?
    requires forall g :: |s.failures| <= g < |s'.failures| ==>
      s'.failures[g].rowCreatedDatetime > s'.failures[f].rowCreatedDatetime
    ensures !ReportWaitsOnEarlier(s', f)
  {
    assert SameFailure(s.failures[f], s'.failures[f]);
    SourcePersists(s, s', f);
    forall g | 0 <= g < |s'.failures| &&
      SourceOf(s', g).Some? && SourceOf(s', g) == SourceOf(s', f) &&
      s'.failures[g].rowCreatedDatetime < s'.failures[f].rowCreatedDatetime
      ensures Reported(s', g)
    {
      assert g < |s.failures|;
      assert SameFailure(s.failures[g], s'.failures[g]);
      SourcePersists(s, s', g);
      ReportedPersists(s, s', g);
    }
  }

  /** Per-source ordering survives every change that only grows the history, if each
      report claim it adds is for a failure that was not waiting. */
  lemma ReportsInOrderPreserved(s: Store, s': Store)
    requires Grows(s, s') && ReportsInOrder(s)
    requires forall g :: 0 <= g < |s.failures| ==> FailureTransmission(s, g).Some?
    requires forall r :: 0 <= r < |s.failureDequeues| ==> s.failureDequeues[r].failedTransmissionGuid < |s.failures|
    requires forall g, f :: 0 <= f < |s.failures| <= g < |s'.failures| ==>
                              s'.failures[g].rowCreatedDatetime > s'.failures[f].rowCreatedDatetime
    requires forall r :: |s.failureDequeues| <= r < |s'.failureDequeues| ==>
      s'.failureDequeues[r].failedTransmissionGuid < |s.failures| &&
      !ReportWaitsOnEarlier(s, s'.failureDequeues[r].failedTransmissionGuid)
    ensures ReportsInOrder(s')
  {
    forall r | 0 <= r < |s'.failureDequeues| && s'.failureDequeues[r].failedTransmissionGuid < |s'.failures|
      ensures !ReportWaitsOnEarlier(s', s'.failureDequeues[r].failedTransmissionGuid)
    {
      if r < |s.failureDequeues| {
        assert s'.failureDequeues[r] == s.failureDequeues[r];
      }
      ReportStillNotWaiting(s, s', s'.failureDequeues[r].failedTransmissionGuid);
    }
  }

  /** Reporter exclusivity survives every change that only grows the history and adds at
      most one report claim, for a reporter that held none. */
  lemma ReportersExclusivePreserved(s: Store, s': Store)
    requires Grows(s, s') && ReportersExclusive(s)
    requires |s'.failureDequeues| <= |s.failureDequeues| + 1
    requires |s.failureDequeues| < |s'.failureDequeues| ==>
      !ReporterBusy(s, s'.failureDequeues[|s.failureDequeues|].reporterGuid)
    ensures ReportersExclusive(s')
  {
    forall r1, r2 | 0 <= r1 < |s'.failureDequeues| && 0 <= r2 < |s'.failureDequeues| &&
      s'.failureDequeues[r1].reporterGuid == s'.failureDequeues[r2].reporterGuid &&
      FailureDequeueOpen(s', r1) && FailureDequeueOpen(s', r2)
      ensures r1 == r2
    {
      if !FailureDequeueOpen(s, r1) { ReportClosedStaysClosed(s, s', r1); }
      if !FailureDequeueOpen(s, r2) { ReportClosedStaysClosed(s, s', r2); }
      if r1 < |s.failureDequeues| && r2 < |s.failureDequeues| {
        assert s'.failureDequeues[r1] == s.failureDequeues[r1] && s'.failureDequeues[r2] == s.failureDequeues[r2];
      }
    }
  }
}
