/**
  What a consistent store is, and that every change the operations of the store
  make keeps it consistent.  Each lemma below describes one kind of change as a
  new `Store` value built from the old one; the operations of `Ledger.Database`
  make exactly those changes.
 */
module Protocol {
  import opened Rows
  import opened Store
  import opened Delivery
  import opened Reports
  import opened Registry

  /** A store the operations can reach, with `now` the next instant the clock hands out. */
  predicate Consistent(s: Store, now: Instant)
  {
    && WellFormed(s)
    && Stamped(s, now)
    && InOrder(s)
    && DequeuersExclusive(s)
    && ReportsInOrder(s)
    && ReportersExclusive(s)
  }

  /** The claim the delivery query may add: a transmission that waits on no earlier
      one, for a dequeuer that holds no open claim. */
  predicate ClaimAllowed(s: Store, d: TransmissionDequeue)
  {
    d.transmissionGuid < |s.transmissions| && !WaitsOnEarlier(s, d.transmissionGuid) && !DequeuerBusy(s, d.dequeuerGuid)
  }

  /** The report claim the report query may add. */
  predicate ReportClaimAllowed(s: Store, d: FailedTransmissionDequeue)
  {
    d.failedTransmissionGuid < |s.failures| && !ReportWaitsOnEarlier(s, d.failedTransmissionGuid) && !ReporterBusy(s, d.reporterGuid)
  }

  /** The four protocol invariants survive every growth of the history that stamps new
      rows with the clock and adds at most one allowed claim of each kind. */
  lemma ProtocolKept(s: Store, s': Store, now: Instant)
    requires Consistent(s, now) && Grows(s, s')
    requires forall u :: |s.transmissions| <= u < |s'.transmissions| ==> s'.transmissions[u].rowCreatedDatetime >= now
    requires forall g :: |s.failures| <= g < |s'.failures| ==> s'.failures[g].rowCreatedDatetime >= now
    requires |s'.dequeues| <= |s.dequeues| + 1
    requires |s.dequeues| < |s'.dequeues| ==> ClaimAllowed(s, s'.dequeues[|s.dequeues|])
    requires |s'.failureDequeues| <= |s.failureDequeues| + 1
    requires |s.failureDequeues| < |s'.failureDequeues| ==> ReportClaimAllowed(s, s'.failureDequeues[|s.failureDequeues|])
    ensures InOrder(s') && DequeuersExclusive(s') && ReportsInOrder(s') && ReportersExclusive(s')
  {
    forall t | 0 <= t < |s.transmissions|
      ensures s'.transmissions[t].rowCreatedDatetime == s.transmissions[t].rowCreatedDatetime
    {
      assert SameTransmission(s.transmissions[t], s'.transmissions[t]);
    }
    forall f | 0 <= f < |s.failures|
      ensures s'.failures[f].rowCreatedDatetime == s.failures[f].rowCreatedDatetime
    {
      assert SameFailure(s.failures[f], s'.failures[f]);
    }
    forall c | |s.dequeues| <= c < |s'.dequeues|
      ensures s'.dequeues[c].transmissionGuid < |s.transmissions| && !WaitsOnEarlier(s, s'.dequeues[c].transmissionGuid)
    {
      assert c == |s.dequeues|;
    }
    InOrderPreserved(s, s');
    ExclusivePreserved(s, s');
    forall g | 0 <= g < |s.failures| ensures FailureTransmission(s, g).Some? {
      assert s.failures[g].transmissionDequeueGuid < |s.dequeues|;
    }
    forall r | |s.failureDequeues| <= r < |s'.failureDequeues|
      ensures s'.failureDequeues[r].failedTransmissionGuid < |s.failures| &&
              !ReportWaitsOnEarlier(s, s'.failureDequeues[r].failedTransmissionGuid)
    {
      assert r == |s.failureDequeues|;
    }
    ReportsInOrderPreserved(s, s');
    ReportersExclusivePreserved(s, s');
  }

  /** The history is unchanged (registry changes only). */
  lemma SameHistoryGrows(s: Store, s': Store)
    requires s'.transmissions == s.transmissions && s'.dequeues == s.dequeues && s'.completes == s.completes
    requires s'.failures == s.failures && s'.failureDequeues == s.failureDequeues
    requires s'.failureCompletes == s.failureCompletes && s'.failureErrors == s.failureErrors
    ensures Grows(s, s')
  {
  }

  // ---------------------------------------------------------------------------
  // Registry changes

  /** A new client row. */
  lemma AddClientConsistent(s: Store, now: Instant, ipAddress: string)
    requires Consistent(s, now) && ClientIndex(s.clients, ipAddress).None?
    ensures Consistent(s.(clients := s.clients + [Client(|s.clients|, ipAddress)]), now)
  {
    var s' := s.(clients := s.clients + [Client(|s.clients|, ipAddress)]);
    SameHistoryGrows(s, s');
    ProtocolKept(s, s', now);
  }

  /** A device upserted with the current instant and a known client. */
  lemma UpsertDeviceConsistent(s: Store, now: Instant, row: DeviceRow)
    requires Consistent(s, now) && row.lastKnownClientGuid < |s.clients| && row.lastKnownDatetime == now
    ensures Consistent(s.(devices := UpsertDevice(s.devices, row)), now + 1)
  {
    var s' := s.(devices := UpsertDevice(s.devices, row));
    KnownDevicesKept(s.devices, s'.devices);
    SameHistoryGrows(s, s');
    ProtocolKept(s, s', now);
    forall i | 0 <= i < |s'.devices|
      ensures s'.devices[i].lastKnownClientGuid < |s.clients| && s'.devices[i].lastKnownDatetime < now + 1
    {
      if s'.devices[i].deviceGuid != row.deviceGuid {
        assert s'.devices[i] == s.devices[i];
      }
    }
  }

  /** Devices keep their guids at their positions, so every device that was known stays known. */
  lemma KnownDevicesKept(devices: seq<DeviceRow>, devices': seq<DeviceRow>)
    requires |devices| <= |devices'|
    requires forall i :: 0 <= i < |devices| ==> devices'[i].deviceGuid == devices[i].deviceGuid
    ensures forall g :: DeviceIndex(devices, g).Some? ==> DeviceIndex(devices', g).Some?
  {
    forall g | DeviceIndex(devices, g).Some? ensures DeviceIndex(devices', g).Some? {
      var i := DeviceIndex(devices, g).value;
      assert devices'[i].deviceGuid == g;
    }
  }

  /** Workers keep their guids at their positions, so every worker that was known stays known. */
  lemma KnownWorkersKept(workers: seq<WorkerRow>, workers': seq<WorkerRow>)
    requires |workers| <= |workers'|
    requires forall i :: 0 <= i < |workers| ==> workers'[i].workerGuid == workers[i].workerGuid
    ensures forall g :: WorkerIndex(workers, g).Some? ==> WorkerIndex(workers', g).Some?
  {
    forall g | WorkerIndex(workers, g).Some? ensures WorkerIndex(workers', g).Some? {
      var i := WorkerIndex(workers, g).value;
      assert workers'[i].workerGuid == g;
    }
  }

  /** A new queue row. */
  lemma AddQueueConsistent(s: Store, now: Instant, queueGuid: Guid)
    requires Consistent(s, now) && QueueIndex(s.queues, queueGuid).None?
    ensures Consistent(s.(queues := s.queues + [Queue(queueGuid, now)]), now + 1)
  {
    var s' := s.(queues := s.queues + [Queue(queueGuid, now)]);
    forall g | QueueIndex(s.queues, g).Some? ensures QueueIndex(s'.queues, g).Some? {
      assert s'.queues[QueueIndex(s.queues, g).value].queueGuid == g;
    }
    SameHistoryGrows(s, s');
    ProtocolKept(s, s', now);
  }

  /** The dequeuer table replaced by one that keeps every known guid in place, stays
      unique and references known clients. */
  lemma DequeuersChangedConsistent(s: Store, now: Instant, workers: seq<WorkerRow>)
    requires Consistent(s, now)
    requires |s.dequeuers| <= |workers|
    requires forall i :: 0 <= i < |s.dequeuers| ==> workers[i].workerGuid == s.dequeuers[i].workerGuid
    requires UniqueWorkerGuids(workers)
    requires forall i :: 0 <= i < |workers| ==> workers[i].lastKnownClientGuid < |s.clients|
    ensures Consistent(s.(dequeuers := workers), now + 1)
  {
    var s' := s.(dequeuers := workers);
    KnownWorkersKept(s.dequeuers, workers);
    SameHistoryGrows(s, s');
    ProtocolKept(s, s', now);
  }

  /** The reporter table replaced likewise. */
  lemma ReportersChangedConsistent(s: Store, now: Instant, workers: seq<WorkerRow>)
    requires Consistent(s, now)
    requires |s.reporters| <= |workers|
    requires forall i :: 0 <= i < |s.reporters| ==> workers[i].workerGuid == s.reporters[i].workerGuid
    requires UniqueWorkerGuids(workers)
    requires forall i :: 0 <= i < |workers| ==> workers[i].lastKnownClientGuid < |s.clients|
    ensures Consistent(s.(reporters := workers), now + 1)
  {
    var s' := s.(reporters := workers);
    KnownWorkersKept(s.reporters, workers);
    SameHistoryGrows(s, s');
    ProtocolKept(s, s', now);
  }

  // ---------------------------------------------------------------------------
  // Retry flags

  /** Changing retry flags, and nothing else, keeps the store consistent: no invariant
      depends on a flag. */
  lemma RetagConsistent(s: Store, now: Instant, transmissions: seq<Transmission>, failures: seq<FailedTransmission>)
    requires Consistent(s, now)
    requires |transmissions| == |s.transmissions|
    requires forall i :: 0 <= i < |s.transmissions| ==> SameTransmission(s.transmissions[i], transmissions[i])
    requires |failures| == |s.failures|
    requires forall i :: 0 <= i < |s.failures| ==> SameFailure(s.failures[i], failures[i])
    ensures Consistent(s.(transmissions := transmissions, failures := failures), now)
  {
    var s' := s.(transmissions := transmissions, failures := failures);
    forall i | 0 <= i < |s.transmissions|
      ensures transmissions[i] == s.transmissions[i].(isRetryReady := transmissions[i].isRetryReady)
    {
      assert SameTransmission(s.transmissions[i], transmissions[i]);
    }
    forall i | 0 <= i < |s.failures|
      ensures failures[i] == s.failures[i].(isRetryReady := failures[i].isRetryReady)
    {
      assert SameFailure(s.failures[i], failures[i]);
    }
    ProtocolKept(s, s', now);
  }

  // ---------------------------------------------------------------------------
  // Ledger rows

  /** A new transmission whose references resolve, stamped with the clock. */
  lemma AddTransmissionConsistent(s: Store, now: Instant, t: Transmission)
    requires Consistent(s, now)
    requires t.transmissionGuid == |s.transmissions| && TransmissionRefsOk(s, t) && t.rowCreatedDatetime == now
    ensures Consistent(s.(transmissions := s.transmissions + [t]), now + 1)
  {
    var s' := s.(transmissions := s.transmissions + [t]);
    AddTransmissionWellFormed(s, t);
    ProtocolKept(s, s', now);
  }

  lemma AddTransmissionWellFormed(s: Store, t: Transmission)
    requires WellFormed(s)
    requires t.transmissionGuid == |s.transmissions| && TransmissionRefsOk(s, t)
    ensures WellFormed(s.(transmissions := s.transmissions + [t]))
  {
    var s' := s.(transmissions := s.transmissions + [t]);
    assert forall i :: 0 <= i < |s.transmissions| ==> s'.transmissions[i] == s.transmissions[i];
  }

  /** A new claim the delivery query allows, by a known dequeuer for known clients. */
  lemma AddClaimConsistent(s: Store, now: Instant, d: TransmissionDequeue)
    requires Consistent(s, now)
    requires d.transmissionDequeueGuid == |s.dequeues| && ClaimAllowed(s, d)
    requires WorkerIndex(s.dequeuers, d.dequeuerGuid).Some?
    requires d.requestClientGuid < |s.clients| && d.destinationClientGuid < |s.clients|
    ensures Consistent(s.(dequeues := s.dequeues + [d]), now + 1)
  {
    var s' := s.(dequeues := s.dequeues + [d]);
    AddClaimWellFormed(s, d);
    ProtocolKept(s, s', now);
  }

  lemma AddClaimWellFormed(s: Store, d: TransmissionDequeue)
    requires WellFormed(s)
    requires d.transmissionDequeueGuid == |s.dequeues| && d.transmissionGuid < |s.transmissions|
    requires WorkerIndex(s.dequeuers, d.dequeuerGuid).Some?
    requires d.requestClientGuid < |s.clients| && d.destinationClientGuid < |s.clients|
    ensures WellFormed(s.(dequeues := s.dequeues + [d]))
  {
  }

  /** A new completion of an existing claim. */
  lemma AddCompleteConsistent(s: Store, now: Instant, k: TransmissionComplete)
    requires Consistent(s, now)
    requires k.transmissionCompleteGuid == |s.completes| && k.transmissionDequeueGuid < |s.dequeues|
    requires k.requestClientGuid < |s.clients|
    ensures Consistent(s.(completes := s.completes + [k]), now + 1)
  {
    var s' := s.(completes := s.completes + [k]);
    ProtocolKept(s, s', now);
  }

  /** A new failure of an existing claim, stamped with the clock. */
  lemma AddFailureConsistent(s: Store, now: Instant, f: FailedTransmission)
    requires Consistent(s, now)
    requires f.failedTransmissionGuid == |s.failures| && f.transmissionDequeueGuid < |s.dequeues|
    requires f.requestClientGuid < |s.clients| && f.rowCreatedDatetime == now
    ensures Consistent(s.(failures := s.failures + [f]), now + 1)
  {
    var s' := s.(failures := s.failures + [f]);
    assert forall i :: 0 <= i < |s.failures| ==> s'.failures[i] == s.failures[i];
    ProtocolKept(s, s', now);
  }

  /** A new report claim the report query allows, by a known reporter for known clients. */
  lemma AddReportClaimConsistent(s: Store, now: Instant, d: FailedTransmissionDequeue)
    requires Consistent(s, now)
    requires d.failedTransmissionDequeueGuid == |s.failureDequeues| && ReportClaimAllowed(s, d)
    requires WorkerIndex(s.reporters, d.reporterGuid).Some?
    requires d.requestClientGuid < |s.clients| && d.destinationClientGuid < |s.clients|
    ensures Consistent(s.(failureDequeues := s.failureDequeues + [d]), now + 1)
  {
    var s' := s.(failureDequeues := s.failureDequeues + [d]);
    AddReportClaimWellFormed(s, d);
    ProtocolKept(s, s', now);
  }

  lemma AddReportClaimWellFormed(s: Store, d: FailedTransmissionDequeue)
    requires WellFormed(s)
    requires d.failedTransmissionDequeueGuid == |s.failureDequeues| && d.failedTransmissionGuid < |s.failures|
    requires WorkerIndex(s.reporters, d.reporterGuid).Some?
    requires d.requestClientGuid < |s.clients| && d.destinationClientGuid < |s.clients|
    ensures WellFormed(s.(failureDequeues := s.failureDequeues + [d]))
  {
  }

  /** A new answer of the source to an existing report claim. */
  lemma AddReportCompleteConsistent(s: Store, now: Instant, k: FailedTransmissionComplete)
    requires Consistent(s, now)
    requires k.failedTransmissionCompleteGuid == |s.failureCompletes| && k.failedTransmissionDequeueGuid < |s.failureDequeues|
    requires k.requestClientGuid < |s.clients|
    ensures Consistent(s.(failureCompletes := s.failureCompletes + [k]), now + 1)
  {
    var s' := s.(failureCompletes := s.failureCompletes + [k]);
    ProtocolKept(s, s', now);
  }

  /** A new report error of an existing report claim. */
  lemma AddReportErrorConsistent(s: Store, now: Instant, e: FailedTransmissionError)
    requires Consistent(s, now)
    requires e.failedTransmissionErrorGuid == |s.failureErrors| && e.failedTransmissionDequeueGuid < |s.failureDequeues|
    requires e.requestClientGuid < |s.clients|
    ensures Consistent(s.(failureErrors := s.failureErrors + [e]), now + 1)
  {
    var s' := s.(failureErrors := s.failureErrors + [e]);
    ProtocolKept(s, s', now);
  }
}
