/**
  The delivery ledger: which transmission a dequeuer may claim next
  (the INSERT ... SELECT of `get_next_transmission_dequeue`,
  wifi_server/app/database.py:1284-1386), and the two invariants the claim
  protocol keeps: transmissions to one destination are claimed in order, and a
  dequeuer never holds two open claims.
 */
module Delivery {
  import opened Rows
  import opened Store

  /** The claim has a `transmission_complete` row. */
  predicate DequeueCompleted(s: Store, c: RowId)
  {
    exists k :: 0 <= k < |s.completes| && s.completes[k].transmissionDequeueGuid == c
  }

  /** The claim has a `transmission_dequeue_error_transmission` row. */
  predicate DequeueFailed(s: Store, c: RowId)
  {
    exists f :: 0 <= f < |s.failures| && s.failures[f].transmissionDequeueGuid == c
  }

  /** A claim still held by its dequeuer: neither completed nor failed. */
  predicate DequeueOpen(s: Store, c: RowId)
  {
    !DequeueCompleted(s, c) && !DequeueFailed(s, c)
  }

  predicate DequeuerBusy(s: Store, dequeuer: Guid)
  {
    exists c :: 0 <= c < |s.dequeues| && s.dequeues[c].dequeuerGuid == dequeuer && DequeueOpen(s, c)
  }

  /** Some claim of transmission `t` was completed. */
  predicate Completed(s: Store, t: RowId)
  {
    exists k :: 0 <= k < |s.completes| && TransmissionOf(s, s.completes[k].transmissionDequeueGuid) == Some(t)
  }

  /** Some failure of transmission `t` was reported back and its source declined a retry. */
  predicate Cancelled(s: Store, t: RowId)
  {
    exists k :: 0 <= k < |s.failureCompletes| && !s.failureCompletes[k].isRetryRequested &&
      ReportedTransmission(s, s.failureCompletes[k].failedTransmissionDequeueGuid) == Some(t)
  }

  /** Nothing further will be delivered for `t`.  A failure, a report claim, a retry
      request or a report error are not terminal. */
  predicate Terminal(s: Store, t: RowId)
  {
    Completed(s, t) || Cancelled(s, t)
  }

  predicate EverDequeued(s: Store, t: RowId)
  {
    exists c :: 0 <= c < |s.dequeues| && s.dequeues[c].transmissionGuid == t
  }

  /** A transmission to the same destination device, in any queue, created strictly
      earlier than `t`, is not terminal. */
  predicate WaitsOnEarlier(s: Store, t: RowId)
    requires t < |s.transmissions|
  {
    exists u :: 0 <= u < |s.transmissions| &&
      s.transmissions[u].destinationDeviceGuid == s.transmissions[t].destinationDeviceGuid &&
      s.transmissions[u].rowCreatedDatetime < s.transmissions[t].rowCreatedDatetime &&
      !Terminal(s, u)
  }

  /** The WHERE clause of the claim, for transmission `t`. */
  predicate Eligible(s: Store, dequeuer: Guid, queue: Guid, t: RowId)
  {
    && t < |s.transmissions|
    && s.transmissions[t].queueGuid == queue
    && DeviceIndex(s.devices, s.transmissions[t].destinationDeviceGuid).Some?
    && (!EverDequeued(s, t) || s.transmissions[t].isRetryReady == Ready)
    && !WaitsOnEarlier(s, t)
    && !DequeuerBusy(s, dequeuer)
  }

  /** `ORDER BY t.row_created_datetime`, equal stamps in row order. */
  predicate NoLaterThan(s: Store, a: RowId, b: RowId)
    requires a < |s.transmissions| && b < |s.transmissions|
  {
    || s.transmissions[a].rowCreatedDatetime < s.transmissions[b].rowCreatedDatetime
    || (s.transmissions[a].rowCreatedDatetime == s.transmissions[b].rowCreatedDatetime && a <= b)
  }

  /** `LIMIT 1`: the earliest eligible transmission among the first `n` rows. */
  function NextTransmission(s: Store, dequeuer: Guid, queue: Guid, n: nat): (r: Option<RowId>)
    requires n <= |s.transmissions|
    ensures r.Some? ==> r.value < n && Eligible(s, dequeuer, queue, r.value)
    ensures r.None? <==> forall u :: 0 <= u < n ==> !Eligible(s, dequeuer, queue, u)
  {
    if n == 0 then None
    else
      var best := NextTransmission(s, dequeuer, queue, n - 1);
      if !Eligible(s, dequeuer, queue, n - 1) then best
      else if best.None? || s.transmissions[n - 1].rowCreatedDatetime < s.transmissions[best.value].rowCreatedDatetime
      then Some(n - 1)
      else best
  }

  /** The selected transmission is no later than any other eligible one. */
  lemma {:induction false} NextTransmissionEarliest(s: Store, dequeuer: Guid, queue: Guid, n: nat)
    requires n <= |s.transmissions|
    ensures var r := NextTransmission(s, dequeuer, queue, n);
      r.Some? ==> forall u :: 0 <= u < n && Eligible(s, dequeuer, queue, u) ==> NoLaterThan(s, r.value, u)
  {
    if n > 0 {
      NextTransmissionEarliest(s, dequeuer, queue, n - 1);
    }
  }

  /** The row the claim inserts for transmission `t`: the destination client is the one
      the destination device was last seen on. */
  function ClaimFor(s: Store, dequeuer: Guid, t: RowId, client: RowId, now: Instant): TransmissionDequeue
    requires t < |s.transmissions| && DeviceIndex(s.devices, s.transmissions[t].destinationDeviceGuid).Some?
  {
    var device := s.devices[DeviceIndex(s.devices, s.transmissions[t].destinationDeviceGuid).value];
    TransmissionDequeue(|s.dequeues|, dequeuer, t, client, device.lastKnownClientGuid, now)
  }

  /** The claim that `try_get_transmission_dequeue_by_dequeuer` finds: the dequeuer's
      open claim among the first `n` claims. */
  function OpenDequeue(s: Store, dequeuer: Guid, n: nat): (r: Option<RowId>)
    requires n <= |s.dequeues|
    ensures r.Some? ==> r.value < n && s.dequeues[r.value].dequeuerGuid == dequeuer && DequeueOpen(s, r.value)
    ensures r.None? <==> forall c :: 0 <= c < n ==> !(s.dequeues[c].dequeuerGuid == dequeuer && DequeueOpen(s, c))
  {
    if n == 0 then None
    else if s.dequeues[n - 1].dequeuerGuid == dequeuer && DequeueOpen(s, n - 1) then Some(n - 1)
    else OpenDequeue(s, dequeuer, n - 1)
  }

  // ---------------------------------------------------------------------------
  // Invariants of the claim protocol

  /** Per-destination ordering: no claimed transmission has an earlier, non-terminal
      transmission to the same destination. */
  predicate InOrder(s: Store)
  {
    forall c :: 0 <= c < |s.dequeues| && s.dequeues[c].transmissionGuid < |s.transmissions| ==>
      !WaitsOnEarlier(s, s.dequeues[c].transmissionGuid)
  }

  /** Dequeuer exclusivity: one open claim per dequeuer at most. */
  predicate DequeuersExclusive(s: Store)
  {
    forall c1, c2 ::
      && 0 <= c1 < |s.dequeues| && 0 <= c2 < |s.dequeues|
      && s.dequeues[c1].dequeuerGuid == s.dequeues[c2].dequeuerGuid
      && DequeueOpen(s, c1) && DequeueOpen(s, c2)
      ==> c1 == c2
  }

  // ---------------------------------------------------------------------------
  // Lemmas

  /** Terminal states are permanent. */
  lemma TerminalPersists(s: Store, s': Store, t: RowId)
    requires Grows(s, s') && Terminal(s, t)
    ensures Terminal(s', t)
  {
    GrowsKeepsChains(s, s');
    if Completed(s, t) {
      var k :| 0 <= k < |s.completes| && TransmissionOf(s, s.completes[k].transmissionDequeueGuid) == Some(t);
      assert s'.completes[k] == s.completes[k];
    } else {
      var k :| 0 <= k < |s.failureCompletes| && !s.failureCompletes[k].isRetryRequested &&
        ReportedTransmission(s, s.failureCompletes[k].failedTransmissionDequeueGuid) == Some(t);
      assert s'.failureCompletes[k] == s.failureCompletes[k];
    }
  }

  /** A closed claim never reopens. */
  lemma ClosedStaysClosed(s: Store, s': Store, c: RowId)
    requires Grows(s, s') && !DequeueOpen(s, c)
    ensures !DequeueOpen(s', c)
  {
    if DequeueCompleted(s, c) {
      var k :| 0 <= k < |s.completes| && s.completes[k].transmissionDequeueGuid == c;
      assert s'.completes[k] == s.completes[k];
    } else {
      var f :| 0 <= f < |s.failures| && s.failures[f].transmissionDequeueGuid == c;
      assert SameFailure(s.failures[f], s'.failures[f]);
    }
  }

  /** A transmission that does not wait on an earlier one keeps not waiting, provided
      every transmission added is stamped later than those already there. */
  lemma StillNotWaiting(s: Store, s': Store, t: RowId)
    requires Grows(s, s') && t < |s.transmissions| && !WaitsOnEarlier(s, t)
    requires forall u :: |s.transmissions| <= u < |s'.transmissions| ==>
      s'.transmissions[u].rowCreatedDatetime > s'.transmissions[t].rowCreatedDatetime
    ensures !WaitsOnEarlier(s', t)
  {
    assert SameTransmission(s.transmissions[t], s'.transmissions[t]);
    forall u | 0 <= u < |s'.transmissions| &&
      s'.transmissions[u].destinationDeviceGuid == s'.transmissions[t].destinationDeviceGuid &&
      s'.transmissions[u].rowCreatedDatetime < s'.transmissions[t].rowCreatedDatetime
      ensures Terminal(s', u)
    {
      assert u < |s.transmissions|;
      assert SameTransmission(s.transmissions[u], s'.transmissions[u]);
      TerminalPersists(s, s', u);
    }
  }

  /** Per-destination ordering survives every change that only grows the history, if
      each claim it adds is for a transmission that was not waiting. */
  lemma InOrderPreserved(s: Store, s': Store)
    requires Grows(s, s') && InOrder(s)
    requires forall c :: 0 <= c < |s.dequeues| ==> s.dequeues[c].transmissionGuid < |s.transmissions|
    requires forall u, t :: 0 <= t < |s.transmissions| <= u < |s'.transmissions| ==>
                              s'.transmissions[u].rowCreatedDatetime > s'.transmissions[t].rowCreatedDatetime
    requires forall c :: |s.dequeues| <= c < |s'.dequeues| ==>
      s'.dequeues[c].transmissionGuid < |s.transmissions| && !WaitsOnEarlier(s, s'.dequeues[c].transmissionGuid)
    ensures InOrder(s')
  {
    forall c | 0 <= c < |s'.dequeues| && s'.dequeues[c].transmissionGuid < |s'.transmissions|
      ensures !WaitsOnEarlier(s', s'.dequeues[c].transmissionGuid)
    {
      var t := s'.dequeues[c].transmissionGuid;
      if c < |s.dequeues| {
        assert s'.dequeues[c] == s.dequeues[c];
      }
      StillNotWaiting(s, s', t);
    }
  }

  /** Dequeuer exclusivity survives every change that only grows the history and adds at
      most one claim, for a dequeuer that held none. */
  lemma ExclusivePreserved(s: Store, s': Store)
    requires Grows(s, s') && DequeuersExclusive(s)
    requires |s'.dequeues| <= |s.dequeues| + 1
    requires |s.dequeues| < |s'.dequeues| ==> !DequeuerBusy(s, s'.dequeues[|s.dequeues|].dequeuerGuid)
    ensures DequeuersExclusive(s')
  {
    forall c1, c2 | 0 <= c1 < |s'.dequeues| && 0 <= c2 < |s'.dequeues| &&
      s'.dequeues[c1].dequeuerGuid == s'.dequeues[c2].dequeuerGuid &&
      DequeueOpen(s', c1) && DequeueOpen(s', c2)
      ensures c1 == c2
    {
      if !DequeueOpen(s, c1) { ClosedStaysClosed(s, s', c1); }
      if !DequeueOpen(s, c2) { ClosedStaysClosed(s, s', c2); }
      if c1 < |s.dequeues| && c2 < |s.dequeues| {
        assert s'.dequeues[c1] == s.dequeues[c1] && s'.dequeues[c2] == s.dequeues[c2];
      }
    }
  }

  /** In a ledger that keeps exclusivity, the open claim found is the only one. */
  lemma OpenDequeueUnique(s: Store, dequeuer: Guid, c: RowId)
    requires DequeuersExclusive(s)
    requires c < |s.dequeues| && s.dequeues[c].dequeuerGuid == dequeuer && DequeueOpen(s, c)
    ensures OpenDequeue(s, dequeuer, |s.dequeues|) == Some(c)
  {
  }
}
