/**
  Every operation of the store as a step on the tables: the old tables and the
  clock in, the new tables, the new clock and the value handed back out.  Each
  step does what the statements of its method in wifi_server/app/database.py do,
  in their order; `Ledger.Database` performs these steps on its fields.

  A statement that fails a FOREIGN KEY raises an integrity error; the model
  returns `Err(IntegrityError)` and leaves the tables as they were.
 */
module Operations {
  import opened Rows
  import opened Store
  import opened Delivery
  import opened Reports
  import opened Retry
  import opened Registry
  import opened Protocol

  /** The tables after an operation, the clock after it, and what it hands back. */
  datatype Outcome<+T> = Outcome(store: Store, clock: Instant, result: T)

  // ---------------------------------------------------------------------------
  // Identity registry

  /** `insert_client`: the client row of an ip address, created on first sight. */
  function InsertClient(s: Store, now: Instant, ipAddress: string): (o: Outcome<Client>)
    ensures o.result.ipAddress == ipAddress && o.clock == now
    ensures o.store == s.(clients := o.store.clients) && s.clients <= o.store.clients
    ensures ClientIndex(s.clients, ipAddress).Some? ==>
      o.store == s && o.result == s.clients[ClientIndex(s.clients, ipAddress).value]
    ensures ClientIndex(s.clients, ipAddress).None? ==>
      o.store.clients == s.clients + [o.result] && o.result.clientGuid == |s.clients|
  {
    var clients := if ClientIndex(s.clients, ipAddress).Some? then s.clients
                   else s.clients + [Client(|s.clients|, ipAddress)];
    assert ClientIndex(clients, ipAddress).Some? by {
      if ClientIndex(s.clients, ipAddress).None? {
        FindFirst(clients, (c: Client) => c.ipAddress == ipAddress, |s.clients|);
      }
    }
    Outcome(s.(clients := clients), now, clients[ClientIndex(clients, ipAddress).value])
  }

  /** Asking for the same ip address again creates nothing and hands back the same client. */
  lemma InsertClientIdempotent(s: Store, now: Instant, later: Instant, ipAddress: string)
    ensures var once := InsertClient(s, now, ipAddress);
      InsertClient(once.store, later, ipAddress) == once.(clock := later)
  {
    var once := InsertClient(s, now, ipAddress);
    if ClientIndex(s.clients, ipAddress).None? {
      FindFirst(once.store.clients, (c: Client) => c.ipAddress == ipAddress, |s.clients|);
    }
  }

  /** `insert_device`: the device row is created or overwritten with the client it was
      seen on, then every transmission to the device and every failure from the device
      that waits for it is made ready for a retry.  An unknown client is an integrity
      error. */
  function InsertDevice(s: Store, now: Instant, deviceGuid: Guid, clientGuid: RowId, purposeGuid: Option<Guid>)
    : (o: Outcome<Result<Device>>)
    ensures o.result.Err? <==> clientGuid >= |s.clients|
    ensures o.result.Err? ==> o.store == s && o.clock == now
    ensures o.result.Ok? ==> o.result.value == Device(deviceGuid, purposeGuid) && o.clock == now + 1
    ensures o.result.Ok? ==>
      && o.store.(devices := s.devices, transmissions := s.transmissions, failures := s.failures) == s
      && DeviceIndex(o.store.devices, deviceGuid).Some?
      && o.store.devices[DeviceIndex(o.store.devices, deviceGuid).value] == DeviceRow(deviceGuid, purposeGuid, clientGuid, now)
      && o.store.devices == UpsertDevice(s.devices, DeviceRow(deviceGuid, purposeGuid, clientGuid, now))
  {
    if clientGuid >= |s.clients| then Outcome(s, now, Err(IntegrityError))
    else
      var devices := UpsertDevice(s.devices, DeviceRow(deviceGuid, purposeGuid, clientGuid, now));
      var s' := s.(devices := devices,
                   transmissions := UnblockTransmissions(s.transmissions, deviceGuid),
                   failures := UnblockFailures(s, deviceGuid));
      Outcome(s', now + 1, Ok(AsDevice(devices[DeviceIndex(devices, deviceGuid).value])))
  }

  /** The announcement unblocks exactly the retries waiting on the device: a blocked
      transmission TO it and a blocked failure FROM it become ready, and no other flag
      or row of the ledgers changes. */
  lemma InsertDeviceUnblocks(s: Store, now: Instant, deviceGuid: Guid, clientGuid: RowId, purposeGuid: Option<Guid>)
    requires clientGuid < |s.clients|
    ensures var s' := InsertDevice(s, now, deviceGuid, clientGuid, purposeGuid).store;
      && |s'.transmissions| == |s.transmissions|
      && (forall t :: 0 <= t < |s.transmissions| ==>
            && SameTransmission(s.transmissions[t], s'.transmissions[t])
            && s'.transmissions[t].isRetryReady ==
                 (if s.transmissions[t].destinationDeviceGuid == deviceGuid && s.transmissions[t].isRetryReady == Blocked
                  then Ready else s.transmissions[t].isRetryReady))
      && |s'.failures| == |s.failures|
      && (forall f :: 0 <= f < |s.failures| ==>
            && SameFailure(s.failures[f], s'.failures[f])
            && s'.failures[f].isRetryReady ==
                 (if SourceOf(s, f) == Some(deviceGuid) && s.failures[f].isRetryReady == Blocked
                  then Ready else s.failures[f].isRetryReady))
  {
  }

  /** One row per device: with unique device guids, the announcement adds a row only for a
      new device, and the device's only row holds the latest purpose, client and instant. */
  lemma InsertDeviceOneRow(s: Store, now: Instant, deviceGuid: Guid, clientGuid: RowId, purposeGuid: Option<Guid>)
    requires UniqueDeviceGuids(s.devices) && clientGuid < |s.clients|
    ensures var s' := InsertDevice(s, now, deviceGuid, clientGuid, purposeGuid).store;
      && UniqueDeviceGuids(s'.devices)
      && |s'.devices| == (if DeviceIndex(s.devices, deviceGuid).Some? then |s.devices| else |s.devices| + 1)
      && (forall i :: 0 <= i < |s'.devices| && s'.devices[i].deviceGuid == deviceGuid ==>
            s'.devices[i] == DeviceRow(deviceGuid, purposeGuid, clientGuid, now))
  {
    var s' := InsertDevice(s, now, deviceGuid, clientGuid, purposeGuid).store;
    var k := DeviceIndex(s'.devices, deviceGuid).value;
    forall i | 0 <= i < |s'.devices| && s'.devices[i].deviceGuid == deviceGuid
      ensures s'.devices[i] == DeviceRow(deviceGuid, purposeGuid, clientGuid, now)
    {
      assert i == k;
    }
  }

  /** A device announced twice holds what the second announcement said. */
  lemma InsertDeviceTwice(s: Store, now: Instant, deviceGuid: Guid, clientGuid: RowId, purposeGuid: Option<Guid>,
                          later: Instant, clientGuid': RowId, purposeGuid': Option<Guid>)
    requires clientGuid < |s.clients| && clientGuid' < |s.clients|
    ensures var once := InsertDevice(s, now, deviceGuid, clientGuid, purposeGuid).store;
      InsertDevice(once, later, deviceGuid, clientGuid', purposeGuid').store.devices ==
      UpsertDevice(s.devices, DeviceRow(deviceGuid, purposeGuid', clientGuid', later))
  {
    UpsertLastWins(s.devices, DeviceRow(deviceGuid, purposeGuid, clientGuid, now), DeviceRow(deviceGuid, purposeGuid', clientGuid', later));
  }

  /** `insert_queue`: the queue row of a guid, created on first sight. */
  function InsertQueue(s: Store, now: Instant, queueGuid: Guid): (o: Outcome<Queue>)
    ensures o.result.queueGuid == queueGuid
    ensures QueueIndex(s.queues, queueGuid).Some? ==>
      o.store == s && o.clock == now && o.result == s.queues[QueueIndex(s.queues, queueGuid).value]
    ensures QueueIndex(s.queues, queueGuid).None? ==>
      && o.result == Queue(queueGuid, now) && o.clock == now + 1
      && o.store == s.(queues := s.queues + [o.result])
  {
    if QueueIndex(s.queues, queueGuid).Some? then
      Outcome(s, now, s.queues[QueueIndex(s.queues, queueGuid).value])
    else
      var queues := s.queues + [Queue(queueGuid, now)];
      FindFirst(queues, (q: Queue) => q.queueGuid == queueGuid, |s.queues|);
      Outcome(s.(queues := queues), now + 1, queues[QueueIndex(queues, queueGuid).value])
  }

  /** Asking for the same queue again creates nothing and hands back the same queue. */
  lemma InsertQueueIdempotent(s: Store, now: Instant, later: Instant, queueGuid: Guid)
    ensures var once := InsertQueue(s, now, queueGuid);
      InsertQueue(once.store, later, queueGuid) == once.(clock := later)
  {
    var once := InsertQueue(s, now, queueGuid);
    if QueueIndex(s.queues, queueGuid).None? {
      FindFirst(once.store.queues, (q: Queue) => q.queueGuid == queueGuid, |s.queues|);
    }
  }

  // ---------------------------------------------------------------------------
  // Delivery ledger

  /** `insert_transmission`: a new transmission with no retry pending, stamped with the
      clock.  The queue, both devices and the client must exist. */
  function InsertTransmission(s: Store, now: Instant, queueGuid: Guid, sourceDeviceGuid: Guid, clientGuid: RowId,
                              transmissionJsonString: string, destinationDeviceGuid: Guid)
    : (o: Outcome<Result<Transmission>>)
    ensures o.result.Ok? <==>
      && QueueIndex(s.queues, queueGuid).Some?
      && DeviceIndex(s.devices, sourceDeviceGuid).Some?
      && DeviceIndex(s.devices, destinationDeviceGuid).Some?
      && clientGuid < |s.clients|
    ensures o.result.Err? ==> o.store == s && o.clock == now
    ensures o.result.Ok? ==>
      && o.result.value == Transmission(|s.transmissions|, queueGuid, sourceDeviceGuid, clientGuid, transmissionJsonString,
                                        destinationDeviceGuid, now, NoRetry)
      && o.store == s.(transmissions := s.transmissions + [o.result.value])
      && o.clock == now + 1
  {
    var t := Transmission(|s.transmissions|, queueGuid, sourceDeviceGuid, clientGuid, transmissionJsonString,
                          destinationDeviceGuid, now, NoRetry);
    if TransmissionRefsOk(s, t) then Outcome(s.(transmissions := s.transmissions + [t]), now + 1, Ok(t))
    else Outcome(s, now, Err(IntegrityError))
  }

  /** The tables once the claim query has run: one claim more when a transmission is
      eligible, none otherwise. */
  function AfterClaimQuery(s: Store, now: Instant, dequeuerGuid: Guid, queueGuid: Guid, clientGuid: RowId): (s': Store)
    requires WellFormed(s)
    requires var next := NextTransmission(s, dequeuerGuid, queueGuid, |s.transmissions|);
      next.Some? ==> WorkerIndex(s.dequeuers, dequeuerGuid).Some? && clientGuid < |s.clients|
    ensures WellFormed(s')
  {
    var next := NextTransmission(s, dequeuerGuid, queueGuid, |s.transmissions|);
    if next.None? then s
    else
      var claim := ClaimFor(s, dequeuerGuid, next.value, clientGuid, now);
      AddClaimWellFormed(s, claim);
      s.(dequeues := s.dequeues + [claim])
  }

  /** The claim hands over a pending retry of the transmission: a ready flag is cleared. */
  function ConsumeTransmission(s: Store, t: RowId): (s': Store)
    requires t < |s.transmissions|
    ensures s'.(transmissions := s.transmissions) == s && |s'.transmissions| == |s.transmissions|
    ensures forall u :: 0 <= u < |s.transmissions| ==> SameTransmission(s'.transmissions[u], s.transmissions[u])
    ensures s'.transmissions[t].isRetryReady == Consumed(s.transmissions[t].isRetryReady)
    ensures forall u :: 0 <= u < |s.transmissions| && u != t ==> s'.transmissions[u] == s.transmissions[u]
  {
    s.(transmissions := s.transmissions[t := s.transmissions[t].(isRetryReady := Consumed(s.transmissions[t].isRetryReady))])
  }

  /** `get_next_transmission_dequeue`: the earliest eligible transmission of the queue,
      if any, is claimed for the dequeuer; then the dequeuer's open claim, new or
      earlier, is handed back with its transmission as read, and a retry that claim was
      waiting for is consumed.  A claim for an unknown dequeuer or client is an
      integrity error. */
  function GetNextTransmissionDequeue(s: Store, now: Instant, dequeuerGuid: Guid, queueGuid: Guid, clientGuid: RowId)
    : (o: Outcome<Result<Option<DequeuedTransmission>>>)
    requires WellFormed(s)
    ensures var next := NextTransmission(s, dequeuerGuid, queueGuid, |s.transmissions|);
      o.result.Err? <==> next.Some? && (WorkerIndex(s.dequeuers, dequeuerGuid).None? || clientGuid >= |s.clients|)
    ensures o.result.Err? ==> o.store == s && o.clock == now
  {
    var next := NextTransmission(s, dequeuerGuid, queueGuid, |s.transmissions|);
    if next.Some? && (WorkerIndex(s.dequeuers, dequeuerGuid).None? || clientGuid >= |s.clients|) then
      Outcome(s, now, Err(IntegrityError))
    else
      var claimed := AfterClaimQuery(s, now, dequeuerGuid, queueGuid, clientGuid);
      var clock := if next.Some? then now + 1 else now;
      match OpenDequeue(claimed, dequeuerGuid, |claimed.dequeues|)
      case None => Outcome(claimed, clock, Ok(None))
      case Some(c) =>
        var t := claimed.dequeues[c].transmissionGuid;
        var row := claimed.transmissions[t];
        Outcome(ConsumeTransmission(claimed, t), clock, Ok(Some(DequeuedTransmission(claimed.dequeues[c], row))))
  }

  /** Claim selection: a dequeuer without an open claim gets the earliest eligible
      transmission of the queue (ties in row order), the claim records the client the
      destination device was last seen on, and a pending retry of that transmission is
      consumed.  It gets nothing exactly when no transmission is eligible. */
  lemma ClaimTakesEarliestEligible(s: Store, now: Instant, dequeuerGuid: Guid, queueGuid: Guid, clientGuid: RowId)
    requires WellFormed(s) && !DequeuerBusy(s, dequeuerGuid)
    requires WorkerIndex(s.dequeuers, dequeuerGuid).Some? && clientGuid < |s.clients|
    ensures var o := GetNextTransmissionDequeue(s, now, dequeuerGuid, queueGuid, clientGuid);
      && o.result.Ok?
      && (o.result.value.None? <==> forall u :: 0 <= u < |s.transmissions| ==> !Eligible(s, dequeuerGuid, queueGuid, u))
      && (o.result.value.Some? ==>
            var t := o.result.value.value.transmission.transmissionGuid;
            && t < |s.transmissions|
            && Eligible(s, dequeuerGuid, queueGuid, t)
            && (forall u :: 0 <= u < |s.transmissions| && Eligible(s, dequeuerGuid, queueGuid, u) ==> NoLaterThan(s, t, u))
            && o.result.value.value.dequeue == ClaimFor(s, dequeuerGuid, t, clientGuid, now))
  {
    var next := NextTransmission(s, dequeuerGuid, queueGuid, |s.transmissions|);
    NextTransmissionEarliest(s, dequeuerGuid, queueGuid, |s.transmissions|);
    ClaimFromNext(s, now, dequeuerGuid, queueGuid, clientGuid);
    if next.Some? {
      assert s.transmissions[next.value].transmissionGuid == next.value;
    }
  }

  /** What the claim leaves behind: nothing when no transmission is handed out;
      otherwise the new claim is appended, the transmission's retry flag is consumed,
      the clock ticks, and the transmission is handed back as read. */
  lemma ClaimOutcome(s: Store, now: Instant, dequeuerGuid: Guid, queueGuid: Guid, clientGuid: RowId)
    requires WellFormed(s) && !DequeuerBusy(s, dequeuerGuid)
    requires WorkerIndex(s.dequeuers, dequeuerGuid).Some? && clientGuid < |s.clients|
    ensures var o := GetNextTransmissionDequeue(s, now, dequeuerGuid, queueGuid, clientGuid);
      && o.result.Ok?
      && (o.result.value.None? ==> o.store == s && o.clock == now)
      && (o.result.value.Some? ==>
            var t := o.result.value.value.transmission.transmissionGuid;
            && t < |s.transmissions|
            && o.result.value.value.transmission == s.transmissions[t]
            && o.store == s.(dequeues := s.dequeues + [o.result.value.value.dequeue],
                             transmissions := s.transmissions[t := s.transmissions[t].(isRetryReady := Consumed(s.transmissions[t].isRetryReady))])
            && o.clock == now + 1)
  {
    var next := NextTransmission(s, dequeuerGuid, queueGuid, |s.transmissions|);
    ClaimFromNext(s, now, dequeuerGuid, queueGuid, clientGuid);
    if next.Some? {
      assert s.transmissions[next.value].transmissionGuid == next.value;
    }
  }

  /** The claim in terms of the transmission the selection picks. */
  lemma ClaimFromNext(s: Store, now: Instant, dequeuerGuid: Guid, queueGuid: Guid, clientGuid: RowId)
    requires WellFormed(s) && !DequeuerBusy(s, dequeuerGuid)
    requires WorkerIndex(s.dequeuers, dequeuerGuid).Some? && clientGuid < |s.clients|
    ensures var next := NextTransmission(s, dequeuerGuid, queueGuid, |s.transmissions|);
      next.None? ==> GetNextTransmissionDequeue(s, now, dequeuerGuid, queueGuid, clientGuid) == Outcome(s, now, Ok(None))
    ensures var next := NextTransmission(s, dequeuerGuid, queueGuid, |s.transmissions|);
      next.Some? ==>
        var claim := ClaimFor(s, dequeuerGuid, next.value, clientGuid, now);
        var o := GetNextTransmissionDequeue(s, now, dequeuerGuid, queueGuid, clientGuid);
        && o.store == ConsumeTransmission(s.(dequeues := s.dequeues + [claim]), next.value)
        && o.clock == now + 1
        && o.result.Ok? && o.result.value.Some?
        && o.result.value.value.dequeue == claim
        && o.result.value.value.transmission == s.transmissions[next.value]
  {
    var next := NextTransmission(s, dequeuerGuid, queueGuid, |s.transmissions|);
    if next.Some? {
      NewClaimIsOpen(s, ClaimFor(s, dequeuerGuid, next.value, clientGuid, now));
    }
  }

  /** A claim added for a dequeuer with no open claim is the one the lookup finds. */
  lemma NewClaimIsOpen(s: Store, claim: TransmissionDequeue)
    requires WellFormed(s) && !DequeuerBusy(s, claim.dequeuerGuid)
    ensures var s' := s.(dequeues := s.dequeues + [claim]);
      OpenDequeue(s', claim.dequeuerGuid, |s'.dequeues|) == Some(|s.dequeues|)
  {
    var s' := s.(dequeues := s.dequeues + [claim]);
    assert !DequeueCompleted(s', |s.dequeues|);
    assert !DequeueFailed(s', |s.dequeues|);
  }

  /** Dequeuer exclusivity, as the caller sees it: a dequeuer that already holds an open
      claim is handed back that claim, and no new claim is made. */
  lemma ClaimReturnsOpenClaim(s: Store, now: Instant, dequeuerGuid: Guid, queueGuid: Guid, clientGuid: RowId, c: RowId)
    requires WellFormed(s) && DequeuersExclusive(s)
    requires c < |s.dequeues| && s.dequeues[c].dequeuerGuid == dequeuerGuid && DequeueOpen(s, c)
    ensures var o := GetNextTransmissionDequeue(s, now, dequeuerGuid, queueGuid, clientGuid);
      var t := s.dequeues[c].transmissionGuid;
      && o.result == Ok(Some(DequeuedTransmission(s.dequeues[c], s.transmissions[t])))
      && o.store == s.(transmissions := s.transmissions[t := s.transmissions[t].(isRetryReady := Consumed(s.transmissions[t].isRetryReady))])
      && o.clock == now
  {
    assert DequeuerBusy(s, dequeuerGuid);
    assert NextTransmission(s, dequeuerGuid, queueGuid, |s.transmissions|).None?;
    OpenDequeueUnique(s, dequeuerGuid, c);
  }

  /** With nothing eligible and no open claim, the claim hands back nothing and changes
      nothing, whether or not the dequeuer and the client are known: the INSERT selects
      no row, so no foreign key is checked. */
  lemma NothingToClaim(s: Store, now: Instant, dequeuerGuid: Guid, queueGuid: Guid, clientGuid: RowId)
    requires WellFormed(s)
    requires forall u :: 0 <= u < |s.transmissions| ==> !Eligible(s, dequeuerGuid, queueGuid, u)
    requires !DequeuerBusy(s, dequeuerGuid)
    ensures GetNextTransmissionDequeue(s, now, dequeuerGuid, queueGuid, clientGuid) == Outcome(s, now, Ok(None))
  {
    assert NextTransmission(s, dequeuerGuid, queueGuid, |s.transmissions|).None?;
    assert OpenDequeue(s, dequeuerGuid, |s.dequeues|).None?;
  }

  /** `transmission_completed`: the claim is closed with success.  The claim and the
      client must exist. */
  function TransmissionCompleted(s: Store, now: Instant, clientGuid: RowId, transmissionDequeueGuid: RowId)
    : (o: Outcome<Result<()>>)
    ensures o.result.Ok? <==> transmissionDequeueGuid < |s.dequeues| && clientGuid < |s.clients|
    ensures o.result.Err? ==> o.store == s && o.clock == now
    ensures o.result.Ok? ==>
      && o.store == s.(completes := s.completes + [TransmissionComplete(|s.completes|, transmissionDequeueGuid, clientGuid, now)])
      && o.clock == now + 1
  {
    if transmissionDequeueGuid >= |s.dequeues| || clientGuid >= |s.clients| then Outcome(s, now, Err(IntegrityError))
    else
      Outcome(s.(completes := s.completes + [TransmissionComplete(|s.completes|, transmissionDequeueGuid, clientGuid, now)]),
              now + 1, Ok(()))
  }

  /** After a completion the claim is closed, its transmission is terminal (so later
      transmissions to the same destination no longer wait on it), and, in a store that
      keeps exclusivity, its dequeuer is free to claim again. */
  lemma CompletionIsTerminal(s: Store, now: Instant, clientGuid: RowId, c: RowId)
    requires WellFormed(s) && DequeuersExclusive(s)
    requires c < |s.dequeues| && clientGuid < |s.clients|
    ensures var s' := TransmissionCompleted(s, now, clientGuid, c).store;
      && !DequeueOpen(s', c)
      && Terminal(s', s.dequeues[c].transmissionGuid)
      && (DequeueOpen(s, c) ==> !DequeuerBusy(s', s.dequeues[c].dequeuerGuid))
  {
    var s' := TransmissionCompleted(s, now, clientGuid, c).store;
    assert s'.completes[|s.completes|].transmissionDequeueGuid == c;
    assert DequeueCompleted(s', c);
    assert TransmissionOf(s', c) == Some(s.dequeues[c].transmissionGuid);
    if DequeueOpen(s, c) {
      assert Grows(s, s');
      forall c' | 0 <= c' < |s'.dequeues| && s'.dequeues[c'].dequeuerGuid == s.dequeues[c].dequeuerGuid
        ensures !DequeueOpen(s', c')
      {
        if c' != c {
          ClosedStaysClosed(s, s', c');
        }
      }
    }
  }

  /** `transmission_failed`: the claim is closed by a failure, which opens its own report
      lifecycle with no retry pending.  The claim and the client must exist. */
  function TransmissionFailed(s: Store, now: Instant, clientGuid: RowId, transmissionDequeueGuid: RowId, errorMessageJsonString: string)
    : (o: Outcome<Result<FailedTransmission>>)
    ensures o.result.Ok? <==> transmissionDequeueGuid < |s.dequeues| && clientGuid < |s.clients|
    ensures o.result.Err? ==> o.store == s && o.clock == now
    ensures o.result.Ok? ==>
      && o.result.value == FailedTransmission(|s.failures|, clientGuid, transmissionDequeueGuid, errorMessageJsonString, now, NoRetry)
      && o.store == s.(failures := s.failures + [o.result.value])
      && o.clock == now + 1
  {
    if transmissionDequeueGuid >= |s.dequeues| || clientGuid >= |s.clients| then Outcome(s, now, Err(IntegrityError))
    else
      var f := FailedTransmission(|s.failures|, clientGuid, transmissionDequeueGuid, errorMessageJsonString, now, NoRetry);
      Outcome(s.(failures := s.failures + [f]), now + 1, Ok(f))
  }

  /** A failure closes the claim but is not terminal: which transmissions are terminal
      does not change. */
  lemma FailureIsNotTerminal(s: Store, now: Instant, clientGuid: RowId, c: RowId, errorMessageJsonString: string, t: RowId)
    requires WellFormed(s) && c < |s.dequeues| && clientGuid < |s.clients|
    ensures var s' := TransmissionFailed(s, now, clientGuid, c, errorMessageJsonString).store;
      !DequeueOpen(s', c) && (Terminal(s', t) <==> Terminal(s, t))
  {
    var s' := TransmissionFailed(s, now, clientGuid, c, errorMessageJsonString).store;
    assert s'.failures[|s.failures|].transmissionDequeueGuid == c;
    assert DequeueFailed(s', c);
    if Terminal(s, t) {
      TerminalPersists(s, s', t);
    }
    if Cancelled(s', t) {
      var k :| 0 <= k < |s'.failureCompletes| && !s'.failureCompletes[k].isRetryRequested &&
        ReportedTransmission(s', s'.failureCompletes[k].failedTransmissionDequeueGuid) == Some(t);
      assert ReportedTransmission(s, s.failureCompletes[k].failedTransmissionDequeueGuid) == Some(t);
    }
  }

  // ---------------------------------------------------------------------------
  // Failure-report ledger

  /** The tables once the report claim query has run. */
  function AfterReportClaimQuery(s: Store, now: Instant, reporterGuid: Guid, queueGuid: Guid, clientGuid: RowId): (s': Store)
    requires WellFormed(s)
    requires var next := NextFailure(s, reporterGuid, queueGuid, |s.failures|);
      next.Some? ==> WorkerIndex(s.reporters, reporterGuid).Some? && clientGuid < |s.clients|
    ensures WellFormed(s')
    ensures s'.(failureDequeues := s.failureDequeues) == s && s.failureDequeues <= s'.failureDequeues
  {
    var next := NextFailure(s, reporterGuid, queueGuid, |s.failures|);
    if next.None? then s
    else
      var claim := ReportClaimFor(s, reporterGuid, next.value, clientGuid, now);
      AddReportClaimWellFormed(s, claim);
      s.(failureDequeues := s.failureDequeues + [claim])
  }

  /** The claim hands over a pending retry of the failure: a ready flag is cleared. */
  function ConsumeFailure(s: Store, f: RowId): (s': Store)
    requires f < |s.failures|
    ensures s'.(failures := s.failures) == s && |s'.failures| == |s.failures|
    ensures forall g :: 0 <= g < |s.failures| ==> SameFailure(s'.failures[g], s.failures[g])
    ensures s'.failures[f].isRetryReady == Consumed(s.failures[f].isRetryReady)
    ensures forall g :: 0 <= g < |s.failures| && g != f ==> s'.failures[g] == s.failures[g]
  {
    s.(failures := s.failures[f := s.failures[f].(isRetryReady := Consumed(s.failures[f].isRetryReady))])
  }

  /** `get_next_failed_transmission_dequeue`: the mirror of the delivery claim one level
      up.  The report claim is handed back with the client it must reach (where the
      SOURCE device was last seen), the failure as read, and the failed claim and its
      transmission. */
  function GetNextFailedTransmissionDequeue(s: Store, now: Instant, reporterGuid: Guid, queueGuid: Guid, clientGuid: RowId)
    : (o: Outcome<Result<Option<DequeuedFailure>>>)
    requires WellFormed(s)
    ensures var next := NextFailure(s, reporterGuid, queueGuid, |s.failures|);
      o.result.Err? <==> next.Some? && (WorkerIndex(s.reporters, reporterGuid).None? || clientGuid >= |s.clients|)
    ensures o.result.Err? ==> o.store == s && o.clock == now
  {
    var next := NextFailure(s, reporterGuid, queueGuid, |s.failures|);
    if next.Some? && (WorkerIndex(s.reporters, reporterGuid).None? || clientGuid >= |s.clients|) then
      Outcome(s, now, Err(IntegrityError))
    else
      var claimed := AfterReportClaimQuery(s, now, reporterGuid, queueGuid, clientGuid);
      var clock := if next.Some? then now + 1 else now;
      match OpenFailureDequeue(claimed, reporterGuid, |claimed.failureDequeues|)
      case None => Outcome(claimed, clock, Ok(None))
      case Some(x) =>
        var claim := claimed.failureDequeues[x];
        var f := claim.failedTransmissionGuid;
        var failure := claimed.failures[f];
        var dequeue := claimed.dequeues[failure.transmissionDequeueGuid];
        var report := DequeuedFailure(claim, claimed.clients[claim.destinationClientGuid], failure, dequeue,
                                      claimed.transmissions[dequeue.transmissionGuid]);
        Outcome(ConsumeFailure(claimed, f), clock, Ok(Some(report)))
  }

  /** Report claim selection: a reporter without an open report claim gets the eligible
      failure whose transmission is earliest (ties in failure row order), addressed to
      the client its source was last seen on; it gets nothing exactly when no failure is
      eligible. */
  lemma ReportClaimTakesEarliestEligible(s: Store, now: Instant, reporterGuid: Guid, queueGuid: Guid, clientGuid: RowId)
    requires WellFormed(s) && !ReporterBusy(s, reporterGuid)
    requires WorkerIndex(s.reporters, reporterGuid).Some? && clientGuid < |s.clients|
    ensures var o := GetNextFailedTransmissionDequeue(s, now, reporterGuid, queueGuid, clientGuid);
      && o.result.Ok?
      && (o.result.value.None? <==> forall g :: 0 <= g < |s.failures| ==> !ReportEligible(s, reporterGuid, queueGuid, g))
      && (o.result.value.Some? ==>
            var f := o.result.value.value.failure.failedTransmissionGuid;
            && f < |s.failures|
            && ReportEligible(s, reporterGuid, queueGuid, f)
            && (forall g :: 0 <= g < |s.failures| && ReportEligible(s, reporterGuid, queueGuid, g) ==> ReportNoLaterThan(s, f, g))
            && o.result.value.value.dequeue == ReportClaimFor(s, reporterGuid, f, clientGuid, now))
  {
    var next := NextFailure(s, reporterGuid, queueGuid, |s.failures|);
    NextFailureEarliest(s, reporterGuid, queueGuid, |s.failures|);
    ReportClaimFromNext(s, now, reporterGuid, queueGuid, clientGuid);
    if next.Some? {
      assert s.failures[next.value].failedTransmissionGuid == next.value;
    }
  }

  /** What the report claim leaves behind: nothing when no failure is handed out;
      otherwise the new report claim is appended, the failure's retry flag is consumed,
      the clock ticks, and the failure and its transmission are handed back as read. */
  lemma ReportClaimOutcome(s: Store, now: Instant, reporterGuid: Guid, queueGuid: Guid, clientGuid: RowId)
    requires WellFormed(s) && !ReporterBusy(s, reporterGuid)
    requires WorkerIndex(s.reporters, reporterGuid).Some? && clientGuid < |s.clients|
    ensures var o := GetNextFailedTransmissionDequeue(s, now, reporterGuid, queueGuid, clientGuid);
      && o.result.Ok?
      && (o.result.value.None? ==> o.store == s && o.clock == now)
      && (o.result.value.Some? ==>
            var f := o.result.value.value.failure.failedTransmissionGuid;
            && f < |s.failures|
            && o.result.value.value.failure == s.failures[f]
            && o.result.value.value.transmission == s.transmissions[FailureTransmission(s, f).value]
            && o.store == s.(failureDequeues := s.failureDequeues + [o.result.value.value.dequeue],
                             failures := s.failures[f := s.failures[f].(isRetryReady := Consumed(s.failures[f].isRetryReady))])
            && o.clock == now + 1)
  {
    var next := NextFailure(s, reporterGuid, queueGuid, |s.failures|);
    ReportClaimFromNext(s, now, reporterGuid, queueGuid, clientGuid);
    if next.Some? {
      assert s.failures[next.value].failedTransmissionGuid == next.value;
    }
  }

  /** The report claim in terms of the failure the selection picks. */
  lemma ReportClaimFromNext(s: Store, now: Instant, reporterGuid: Guid, queueGuid: Guid, clientGuid: RowId)
    requires WellFormed(s) && !ReporterBusy(s, reporterGuid)
    requires WorkerIndex(s.reporters, reporterGuid).Some? && clientGuid < |s.clients|
    ensures var next := NextFailure(s, reporterGuid, queueGuid, |s.failures|);
      next.None? ==> GetNextFailedTransmissionDequeue(s, now, reporterGuid, queueGuid, clientGuid) == Outcome(s, now, Ok(None))
    ensures var next := NextFailure(s, reporterGuid, queueGuid, |s.failures|);
      next.Some? ==>
        var claim := ReportClaimFor(s, reporterGuid, next.value, clientGuid, now);
        var o := GetNextFailedTransmissionDequeue(s, now, reporterGuid, queueGuid, clientGuid);
        && o.store == ConsumeFailure(s.(failureDequeues := s.failureDequeues + [claim]), next.value)
        && o.clock == now + 1
        && o.result.Ok? && o.result.value.Some?
        && o.result.value.value.dequeue == claim
        && o.result.value.value.failure == s.failures[next.value]
        && o.result.value.value.transmission == s.transmissions[FailureTransmission(s, next.value).value]
  {
    var next := NextFailure(s, reporterGuid, queueGuid, |s.failures|);
    if next.Some? {
      NewReportClaimIsOpen(s, ReportClaimFor(s, reporterGuid, next.value, clientGuid, now));
    }
  }

  /** A report claim added for a reporter with no open report claim is the one the
      lookup finds. */
  lemma NewReportClaimIsOpen(s: Store, claim: FailedTransmissionDequeue)
    requires WellFormed(s) && !ReporterBusy(s, claim.reporterGuid)
    ensures var s' := s.(failureDequeues := s.failureDequeues + [claim]);
      OpenFailureDequeue(s', claim.reporterGuid, |s'.failureDequeues|) == Some(|s.failureDequeues|)
  {
    var s' := s.(failureDequeues := s.failureDequeues + [claim]);
    assert !FailureDequeueCompleted(s', |s.failureDequeues|);
    assert !FailureDequeueErrored(s', |s.failureDequeues|);
  }

  /** A report claim does not end a transmission's lifecycle: which transmissions are
      terminal does not change. */
  lemma ReportClaimNotTerminal(s: Store, now: Instant, reporterGuid: Guid, queueGuid: Guid, clientGuid: RowId, t: RowId)
    requires WellFormed(s)
    ensures var s' := GetNextFailedTransmissionDequeue(s, now, reporterGuid, queueGuid, clientGuid).store;
      Terminal(s', t) <==> Terminal(s, t)
  {
    var next := NextFailure(s, reporterGuid, queueGuid, |s.failures|);
    if !(next.Some? && (WorkerIndex(s.reporters, reporterGuid).None? || clientGuid >= |s.clients|)) {
      var claimed := AfterReportClaimQuery(s, now, reporterGuid, queueGuid, clientGuid);
      match OpenFailureDequeue(claimed, reporterGuid, |claimed.failureDequeues|)
      case None =>
        TerminalKept(s, claimed, t);
      case Some(x) =>
        TerminalKept(s, ConsumeFailure(claimed, claimed.failureDequeues[x].failedTransmissionGuid), t);
    }
  }

  /** Which transmissions are terminal depends only on the claims, the completions, the
      report completions that decline a retry and the chains of rows they name. */
  lemma TerminalKept(s: Store, s': Store, t: RowId)
    requires WellFormed(s) && HistoryKept(s, s')
    ensures Terminal(s', t) <==> Terminal(s, t)
  {
    ChainsKept(s, s');
    assert Completed(s', t) <==> Completed(s, t);
    CancelledKept(s, s', t);
  }

  /** A change that leaves the delivery history alone, changes flags of failures only,
      and adds report claims and report completions that request a retry. */
  predicate HistoryKept(s: Store, s': Store)
  {
    && |s'.transmissions| == |s.transmissions| && s'.dequeues == s.dequeues && s'.completes == s.completes
    && |s'.failures| == |s.failures|
    && (forall f :: 0 <= f < |s.failures| ==> SameFailure(s'.failures[f], s.failures[f]))
    && s.failureDequeues <= s'.failureDequeues
    && s.failureCompletes <= s'.failureCompletes
    && (forall k :: |s.failureCompletes| <= k < |s'.failureCompletes| ==> s'.failureCompletes[k].isRetryRequested)
  }

  lemma ChainsKept(s: Store, s': Store)
    requires HistoryKept(s, s')
    ensures forall c :: TransmissionOf(s', c) == TransmissionOf(s, c)
    ensures forall x :: 0 <= x < |s.failureDequeues| ==> ReportedTransmission(s', x) == ReportedTransmission(s, x)
  {
    assert forall f :: 0 <= f < |s.failures| ==> s'.failures[f].transmissionDequeueGuid == s.failures[f].transmissionDequeueGuid;
    assert forall x :: 0 <= x < |s.failureDequeues| ==> s'.failureDequeues[x] == s.failureDequeues[x];
  }

  lemma CancelledKept(s: Store, s': Store, t: RowId)
    requires ReportRefsOk(s) && HistoryKept(s, s')
    requires forall x :: 0 <= x < |s.failureDequeues| ==> ReportedTransmission(s', x) == ReportedTransmission(s, x)
    ensures Cancelled(s', t) <==> Cancelled(s, t)
  {
    if Cancelled(s', t) {
      var k :| 0 <= k < |s'.failureCompletes| && !s'.failureCompletes[k].isRetryRequested &&
        ReportedTransmission(s', s'.failureCompletes[k].failedTransmissionDequeueGuid) == Some(t);
      CancellationKept(s, s', k);
    }
    if Cancelled(s, t) {
      var k :| 0 <= k < |s.failureCompletes| && !s.failureCompletes[k].isRetryRequested &&
        ReportedTransmission(s, s.failureCompletes[k].failedTransmissionDequeueGuid) == Some(t);
      CancellationKept(s, s', k);
    }
  }

  /** One report completion that declines a retry names the same transmission before
      and after. */
  lemma CancellationKept(s: Store, s': Store, k: nat)
    requires ReportRefsOk(s) && HistoryKept(s, s')
    requires forall x :: 0 <= x < |s.failureDequeues| ==> ReportedTransmission(s', x) == ReportedTransmission(s, x)
    requires k < |s'.failureCompletes| && !s'.failureCompletes[k].isRetryRequested
    ensures k < |s.failureCompletes| && s.failureCompletes[k] == s'.failureCompletes[k]
    ensures ReportedTransmission(s', s'.failureCompletes[k].failedTransmissionDequeueGuid)
         == ReportedTransmission(s, s.failureCompletes[k].failedTransmissionDequeueGuid)
  {
    assert k < |s.failureCompletes|;
    assert s.failureCompletes[k] == s'.failureCompletes[k];
    assert s.failureCompletes[k].failedTransmissionDequeueGuid < |s.failureDequeues|;
  }

  /** Reporter exclusivity, as the caller sees it: a reporter that already holds an open
      report claim is handed back that claim, and no new one is made. */
  lemma ReportClaimReturnsOpenClaim(s: Store, now: Instant, reporterGuid: Guid, queueGuid: Guid, clientGuid: RowId, x: RowId)
    requires WellFormed(s) && ReportersExclusive(s)
    requires x < |s.failureDequeues| && s.failureDequeues[x].reporterGuid == reporterGuid && FailureDequeueOpen(s, x)
    ensures var o := GetNextFailedTransmissionDequeue(s, now, reporterGuid, queueGuid, clientGuid);
      var f := s.failureDequeues[x].failedTransmissionGuid;
      && o.result.Ok? && o.result.value.Some?
      && o.result.value.value.dequeue == s.failureDequeues[x]
      && o.result.value.value.failure == s.failures[f]
      && o.store == s.(failures := s.failures[f := s.failures[f].(isRetryReady := Consumed(s.failures[f].isRetryReady))])
      && o.clock == now
  {
    assert ReporterBusy(s, reporterGuid);
    assert NextFailure(s, reporterGuid, queueGuid, |s.failures|).None?;
    assert OpenFailureDequeue(s, reporterGuid, |s.failureDequeues|) == Some(x);
  }

  /** With nothing eligible and no open report claim, the report claim hands back nothing
      and changes nothing, whether or not the reporter and the client are known. */
  lemma NothingToReportClaim(s: Store, now: Instant, reporterGuid: Guid, queueGuid: Guid, clientGuid: RowId)
    requires WellFormed(s)
    requires forall g :: 0 <= g < |s.failures| ==> !ReportEligible(s, reporterGuid, queueGuid, g)
    requires !ReporterBusy(s, reporterGuid)
    ensures GetNextFailedTransmissionDequeue(s, now, reporterGuid, queueGuid, clientGuid) == Outcome(s, now, Ok(None))
  {
    assert NextFailure(s, reporterGuid, queueGuid, |s.failures|).None?;
    assert OpenFailureDequeue(s, reporterGuid, |s.failureDequeues|).None?;
  }

  /** `failed_transmission_completed`: the source answered the report.  A retry request
      blocks the failed transmission until its destination announces itself again;
      declining leaves the flag alone (and cancels the transmission).  The report claim
      and the client must exist. */
  function FailedTransmissionCompleted(s: Store, now: Instant, clientGuid: RowId, failedTransmissionDequeueGuid: RowId, isRetryRequested: bool)
    : (o: Outcome<Result<()>>)
    requires WellFormed(s)
    ensures o.result.Ok? <==> failedTransmissionDequeueGuid < |s.failureDequeues| && clientGuid < |s.clients|
    ensures o.result.Err? ==> o.store == s && o.clock == now
    ensures o.result.Ok? ==>
      && o.store.failureCompletes == s.failureCompletes +
           [FailedTransmissionComplete(|s.failureCompletes|, failedTransmissionDequeueGuid, clientGuid, isRetryRequested, now)]
      && o.store.(failureCompletes := s.failureCompletes, transmissions := s.transmissions) == s
      && o.clock == now + 1
  {
    if failedTransmissionDequeueGuid >= |s.failureDequeues| || clientGuid >= |s.clients| then Outcome(s, now, Err(IntegrityError))
    else
      var answered := s.(failureCompletes := s.failureCompletes +
        [FailedTransmissionComplete(|s.failureCompletes|, failedTransmissionDequeueGuid, clientGuid, isRetryRequested, now)]);
      var t := ReportedTransmission(s, failedTransmissionDequeueGuid).value;
      if isRetryRequested then
        Outcome(answered.(transmissions := s.transmissions[t := s.transmissions[t].(isRetryReady := Blocked)]), now + 1, Ok(()))
      else
        Outcome(answered, now + 1, Ok(()))
  }

  /** The answer closes the report claim and marks the failure reported.  With a retry
      request the failed transmission is Blocked, and no other row changes; without one
      the transmission is cancelled, a terminal state. */
  lemma ReportCompletionSemantics(s: Store, now: Instant, clientGuid: RowId, x: RowId, isRetryRequested: bool)
    requires WellFormed(s) && x < |s.failureDequeues| && clientGuid < |s.clients|
    ensures var s' := FailedTransmissionCompleted(s, now, clientGuid, x, isRetryRequested).store;
      var f := s.failureDequeues[x].failedTransmissionGuid;
      var t := ReportedTransmission(s, x).value;
      && ReportedTransmission(s, x).Some?
      && !FailureDequeueOpen(s', x)
      && Reported(s', f)
      && (isRetryRequested ==>
            && s'.transmissions == s.transmissions[t := s.transmissions[t].(isRetryReady := Blocked)])
      && (!isRetryRequested ==> s'.transmissions == s.transmissions && Cancelled(s', t) && Terminal(s', t))
  {
    var s' := FailedTransmissionCompleted(s, now, clientGuid, x, isRetryRequested).store;
    var k := |s.failureCompletes|;
    assert s'.failureCompletes[k].failedTransmissionDequeueGuid == x;
    assert FailureDequeueCompleted(s', x);
    assert FailureOf(s', x) == FailureOf(s, x);
    assert FailureTransmission(s', s.failureDequeues[x].failedTransmissionGuid) == FailureTransmission(s, s.failureDequeues[x].failedTransmissionGuid);
  }

  /** A retry request is not terminal: which transmissions are terminal does not change. */
  lemma RetryRequestNotTerminal(s: Store, now: Instant, clientGuid: RowId, x: RowId, t: RowId)
    requires WellFormed(s) && x < |s.failureDequeues| && clientGuid < |s.clients|
    ensures var s' := FailedTransmissionCompleted(s, now, clientGuid, x, true).store;
      Terminal(s', t) <==> Terminal(s, t)
  {
    var s' := FailedTransmissionCompleted(s, now, clientGuid, x, true).store;
    assert s'.failureCompletes[|s.failureCompletes|].isRetryRequested;
    assert HistoryKept(s, s');
    TerminalKept(s, s', t);
  }

  /** Declining the retry of a transmission whose claim consumed its flag ends it for
      good: it is terminal, no dequeuer may claim it, and announcing its destination
      again does not make it claimable. */
  lemma DeclinedRetryNotReclaimed(s: Store, now: Instant, clientGuid: RowId, x: RowId,
                                  later: Instant, deviceClientGuid: RowId, purposeGuid: Option<Guid>)
    requires WellFormed(s) && x < |s.failureDequeues| && clientGuid < |s.clients| && deviceClientGuid < |s.clients|
    requires ReportedTransmission(s, x).Some? && s.transmissions[ReportedTransmission(s, x).value].isRetryReady == NoRetry
    ensures var t := ReportedTransmission(s, x).value;
      var answered := FailedTransmissionCompleted(s, now, clientGuid, x, false).store;
      var announced := InsertDevice(answered, later, s.transmissions[t].destinationDeviceGuid, deviceClientGuid, purposeGuid).store;
      && Terminal(answered, t)
      && (forall dequeuerGuid, queueGuid :: !Eligible(answered, dequeuerGuid, queueGuid, t))
      && (forall dequeuerGuid, queueGuid :: !Eligible(announced, dequeuerGuid, queueGuid, t))
  {
    var t := ReportedTransmission(s, x).value;
    var answered := FailedTransmissionCompleted(s, now, clientGuid, x, false).store;
    var announced := InsertDevice(answered, later, s.transmissions[t].destinationDeviceGuid, deviceClientGuid, purposeGuid).store;
    ReportCompletionSemantics(s, now, clientGuid, x, false);
    var f := s.failureDequeues[x].failedTransmissionGuid;
    var c := s.failures[f].transmissionDequeueGuid;
    assert answered.dequeues[c].transmissionGuid == t;
    assert EverDequeued(answered, t);
    assert announced.dequeues[c].transmissionGuid == t;
    assert EverDequeued(announced, t);
    assert announced.transmissions[t].isRetryReady == NoRetry;
  }

  /** `failed_transmission_failed`: the report could not reach the source.  The report
      claim is closed by an error and the failure is Blocked until its source announces
      itself again.  The report claim and the client must exist. */
  function FailedTransmissionFailed(s: Store, now: Instant, clientGuid: RowId, failedTransmissionDequeueGuid: RowId, errorMessageJsonString: string)
    : (o: Outcome<Result<()>>)
    requires WellFormed(s)
    ensures o.result.Ok? <==> failedTransmissionDequeueGuid < |s.failureDequeues| && clientGuid < |s.clients|
    ensures o.result.Err? ==> o.store == s && o.clock == now
    ensures o.result.Ok? ==>
      && o.store.failureErrors == s.failureErrors +
           [FailedTransmissionError(|s.failureErrors|, failedTransmissionDequeueGuid, clientGuid, errorMessageJsonString, now)]
      && o.store.(failureErrors := s.failureErrors, failures := s.failures) == s
      && o.clock == now + 1
  {
    if failedTransmissionDequeueGuid >= |s.failureDequeues| || clientGuid >= |s.clients| then Outcome(s, now, Err(IntegrityError))
    else
      var f := s.failureDequeues[failedTransmissionDequeueGuid].failedTransmissionGuid;
      Outcome(s.(failureErrors := s.failureErrors +
                   [FailedTransmissionError(|s.failureErrors|, failedTransmissionDequeueGuid, clientGuid, errorMessageJsonString, now)],
                 failures := s.failures[f := s.failures[f].(isRetryReady := Blocked)]),
              now + 1, Ok(()))
  }

  /** A report error closes the report claim and blocks its failure, but the failure is
      not reported: later failures from the same source keep waiting on it. */
  lemma ReportErrorSemantics(s: Store, now: Instant, clientGuid: RowId, x: RowId, errorMessageJsonString: string, g: RowId)
    requires WellFormed(s) && x < |s.failureDequeues| && clientGuid < |s.clients|
    ensures var s' := FailedTransmissionFailed(s, now, clientGuid, x, errorMessageJsonString).store;
      var f := s.failureDequeues[x].failedTransmissionGuid;
      && !FailureDequeueOpen(s', x)
      && s'.failures == s.failures[f := s.failures[f].(isRetryReady := Blocked)]
      && (Reported(s', g) <==> Reported(s, g))
  {
    var s' := FailedTransmissionFailed(s, now, clientGuid, x, errorMessageJsonString).store;
    assert s'.failureErrors[|s.failureErrors|].failedTransmissionDequeueGuid == x;
    assert FailureDequeueErrored(s', x);
    assert forall r :: FailureOf(s', r) == FailureOf(s, r);
  }

  /** A report error is not terminal: which transmissions are terminal does not change. */
  lemma ReportErrorNotTerminal(s: Store, now: Instant, clientGuid: RowId, x: RowId, errorMessageJsonString: string, t: RowId)
    requires WellFormed(s) && x < |s.failureDequeues| && clientGuid < |s.clients|
    ensures var s' := FailedTransmissionFailed(s, now, clientGuid, x, errorMessageJsonString).store;
      Terminal(s', t) <==> Terminal(s, t)
  {
    var s' := FailedTransmissionFailed(s, now, clientGuid, x, errorMessageJsonString).store;
    assert HistoryKept(s, s');
    TerminalKept(s, s', t);
  }

  /** A report that could not be delivered waits for its source: the failure is Blocked,
      no reporter may claim it, and the next announcement of the source device makes it
      Ready. */
  lemma ReportErrorWaitsForSource(s: Store, now: Instant, clientGuid: RowId, x: RowId, errorMessageJsonString: string,
                                  later: Instant, deviceClientGuid: RowId, purposeGuid: Option<Guid>)
    requires WellFormed(s) && x < |s.failureDequeues| && clientGuid < |s.clients| && deviceClientGuid < |s.clients|
    ensures SourceOf(s, s.failureDequeues[x].failedTransmissionGuid).Some?
    ensures var f := s.failureDequeues[x].failedTransmissionGuid;
      var errored := FailedTransmissionFailed(s, now, clientGuid, x, errorMessageJsonString).store;
      && errored.failures[f].isRetryReady == Blocked
      && (forall reporterGuid, queueGuid :: !ReportEligible(errored, reporterGuid, queueGuid, f))
      && InsertDevice(errored, later, SourceOf(s, f).value, deviceClientGuid, purposeGuid).store.failures[f].isRetryReady == Ready
  {
    var f := s.failureDequeues[x].failedTransmissionGuid;
    var errored := FailedTransmissionFailed(s, now, clientGuid, x, errorMessageJsonString).store;
    assert errored.failureDequeues[x].failedTransmissionGuid == f;
    assert FailureEverDequeued(errored, f);
    assert SourceOf(errored, f) == SourceOf(s, f);
  }

  // ---------------------------------------------------------------------------
  // Liveness registry

  /** `insert_dequeuer`: register or revive a dequeuer.  Only a new dequeuer records its
      client, so only a new one can fail on an unknown client. */
  function InsertDequeuer(s: Store, now: Instant, dequeuerGuid: Guid, clientGuid: RowId): (o: Outcome<Result<Worker>>)
    ensures o.result.Err? <==> WorkerIndex(s.dequeuers, dequeuerGuid).None? && clientGuid >= |s.clients|
    ensures o.result.Err? ==> o.store == s && o.clock == now
    ensures o.result.Ok? ==>
      && o.result.value.workerGuid == dequeuerGuid && o.result.value.isResponsive
      && o.store == s.(dequeuers := AnnounceWorker(s.dequeuers, dequeuerGuid, clientGuid, now))
      && o.clock == now + 1
  {
    if WorkerIndex(s.dequeuers, dequeuerGuid).None? && clientGuid >= |s.clients| then Outcome(s, now, Err(IntegrityError))
    else
      var dequeuers := AnnounceWorker(s.dequeuers, dequeuerGuid, clientGuid, now);
      Outcome(s.(dequeuers := dequeuers), now + 1, Ok(AsWorker(dequeuers[WorkerIndex(dequeuers, dequeuerGuid).value])))
  }

  /** `insert_reporter`: the mirror of `InsertDequeuer`. */
  function InsertReporter(s: Store, now: Instant, reporterGuid: Guid, clientGuid: RowId): (o: Outcome<Result<Worker>>)
    ensures o.result.Err? <==> WorkerIndex(s.reporters, reporterGuid).None? && clientGuid >= |s.clients|
    ensures o.result.Err? ==> o.store == s && o.clock == now
    ensures o.result.Ok? ==>
      && o.result.value.workerGuid == reporterGuid && o.result.value.isResponsive
      && o.store == s.(reporters := AnnounceWorker(s.reporters, reporterGuid, clientGuid, now))
      && o.clock == now + 1
  {
    if WorkerIndex(s.reporters, reporterGuid).None? && clientGuid >= |s.clients| then Outcome(s, now, Err(IntegrityError))
    else
      var reporters := AnnounceWorker(s.reporters, reporterGuid, clientGuid, now);
      Outcome(s.(reporters := reporters), now + 1, Ok(AsWorker(reporters[WorkerIndex(reporters, reporterGuid).value])))
  }

  /** A second announcement of a responsive dequeuer changes no row and hands back the
      same record. */
  lemma InsertDequeuerIdempotent(s: Store, now: Instant, later: Instant, dequeuerGuid: Guid, clientGuid: RowId, clientGuid': RowId)
    requires InsertDequeuer(s, now, dequeuerGuid, clientGuid).result.Ok?
    ensures var once := InsertDequeuer(s, now, dequeuerGuid, clientGuid);
      var twice := InsertDequeuer(once.store, later, dequeuerGuid, clientGuid');
      twice.store == once.store && twice.result == once.result
  {
    AnnounceIdempotent(s.dequeuers, dequeuerGuid, clientGuid, now, clientGuid', later);
  }

  /** A second announcement of a responsive reporter changes no row and hands back the
      same record. */
  lemma InsertReporterIdempotent(s: Store, now: Instant, later: Instant, reporterGuid: Guid, clientGuid: RowId, clientGuid': RowId)
    requires InsertReporter(s, now, reporterGuid, clientGuid).result.Ok?
    ensures var once := InsertReporter(s, now, reporterGuid, clientGuid);
      var twice := InsertReporter(once.store, later, reporterGuid, clientGuid');
      twice.store == once.store && twice.result == once.result
  {
    AnnounceIdempotent(s.reporters, reporterGuid, clientGuid, now, clientGuid', later);
  }

  /** `set_dequeuer_unresponsive`: every row with the guid is marked unresponsive. */
  function SetDequeuerUnresponsive(s: Store, now: Instant, dequeuerGuid: Guid): (o: Outcome<()>)
    ensures o.store == s.(dequeuers := SilenceWorker(s.dequeuers, dequeuerGuid, now)) && o.clock == now + 1
  {
    Outcome(s.(dequeuers := SilenceWorker(s.dequeuers, dequeuerGuid, now)), now + 1, ())
  }

  /** `set_reporter_unresponsive`: every row with the guid is marked unresponsive. */
  function SetReporterUnresponsive(s: Store, now: Instant, reporterGuid: Guid): (o: Outcome<()>)
    ensures o.store == s.(reporters := SilenceWorker(s.reporters, reporterGuid, now)) && o.clock == now + 1
  {
    Outcome(s.(reporters := SilenceWorker(s.reporters, reporterGuid, now)), now + 1, ())
  }

  /** Liveness round trip: an announced dequeuer is listed as responsive until it is
      marked unresponsive. */
  lemma DequeuerLiveness(s: Store, now: Instant, later: Instant, dequeuerGuid: Guid, clientGuid: RowId)
    requires InsertDequeuer(s, now, dequeuerGuid, clientGuid).result.Ok?
    ensures var announced := InsertDequeuer(s, now, dequeuerGuid, clientGuid).store;
      && dequeuerGuid in ListedGuids(ResponsiveOf(announced.dequeuers))
      && dequeuerGuid !in ListedGuids(ResponsiveOf(SetDequeuerUnresponsive(announced, later, dequeuerGuid).store.dequeuers))
  {
    AnnounceThenSilence(s.dequeuers, dequeuerGuid, clientGuid, now, later);
  }

  /** Liveness round trip for reporters: an announced reporter is listed as responsive
      until it is marked unresponsive. */
  lemma ReporterLiveness(s: Store, now: Instant, later: Instant, reporterGuid: Guid, clientGuid: RowId)
    requires InsertReporter(s, now, reporterGuid, clientGuid).result.Ok?
    ensures var announced := InsertReporter(s, now, reporterGuid, clientGuid).store;
      && reporterGuid in ListedGuids(ResponsiveOf(announced.reporters))
      && reporterGuid !in ListedGuids(ResponsiveOf(SetReporterUnresponsive(announced, later, reporterGuid).store.reporters))
  {
    AnnounceThenSilence(s.reporters, reporterGuid, clientGuid, now, later);
  }

  // ---------------------------------------------------------------------------
  // Retry round trip

  /** A retry request parks the failed transmission: no dequeuer may claim it while it
      is Blocked, and the next announcement of its destination device makes it Ready. */
  lemma RetryWaitsForDestination(s: Store, now: Instant, clientGuid: RowId, x: RowId,
                                 later: Instant, deviceClientGuid: RowId, purposeGuid: Option<Guid>)
    requires WellFormed(s) && x < |s.failureDequeues| && clientGuid < |s.clients| && deviceClientGuid < |s.clients|
    ensures ReportedTransmission(s, x).Some?
    ensures var t := ReportedTransmission(s, x).value;
      var answered := FailedTransmissionCompleted(s, now, clientGuid, x, true).store;
      var destination := s.transmissions[t].destinationDeviceGuid;
      && answered.transmissions[t].isRetryReady == Blocked
      && (forall dequeuerGuid, queueGuid :: !Eligible(answered, dequeuerGuid, queueGuid, t))
      && InsertDevice(answered, later, destination, deviceClientGuid, purposeGuid).store.transmissions[t].isRetryReady == Ready
  {
    var t := ReportedTransmission(s, x).value;
    var answered := FailedTransmissionCompleted(s, now, clientGuid, x, true).store;
    var f := s.failureDequeues[x].failedTransmissionGuid;
    var c := s.failures[f].transmissionDequeueGuid;
    assert answered.dequeues[c].transmissionGuid == t;
    assert EverDequeued(answered, t);
  }

  /** The retry round trip closes: once the destination device announces itself again,
      the retried transmission is eligible for any dequeuer that holds no open claim.
      It already had a claim, so per-destination ordering says that it waits on no
      earlier transmission. */
  lemma RetryReclaimable(s: Store, now: Instant, clientGuid: RowId, x: RowId,
                         deviceClientGuid: RowId, purposeGuid: Option<Guid>, dequeuerGuid: Guid)
    requires Consistent(s, now) && x < |s.failureDequeues| && clientGuid < |s.clients| && deviceClientGuid < |s.clients|
    ensures ReportedTransmission(s, x).Some?
    ensures var t := ReportedTransmission(s, x).value;
      var answered := FailedTransmissionCompleted(s, now, clientGuid, x, true);
      var announced := InsertDevice(answered.store, answered.clock, s.transmissions[t].destinationDeviceGuid,
                                    deviceClientGuid, purposeGuid).store;
      !DequeuerBusy(announced, dequeuerGuid) ==> Eligible(announced, dequeuerGuid, s.transmissions[t].queueGuid, t)
  {
    var t := ReportedTransmission(s, x).value;
    var answered := FailedTransmissionCompleted(s, now, clientGuid, x, true);
    var destination := s.transmissions[t].destinationDeviceGuid;
    var announced := InsertDevice(answered.store, answered.clock, destination, deviceClientGuid, purposeGuid).store;
    FailedTransmissionCompletedConsistent(s, now, clientGuid, x, true);
    InsertDeviceConsistent(answered.store, answered.clock, destination, deviceClientGuid, purposeGuid);
    var c := s.failures[s.failureDequeues[x].failedTransmissionGuid].transmissionDequeueGuid;
    assert announced.dequeues == s.dequeues;
    assert announced.dequeues[c].transmissionGuid == t;
    assert !WaitsOnEarlier(announced, t);
    RetryWaitsForDestination(s, now, clientGuid, x, answered.clock, deviceClientGuid, purposeGuid);
  }

  /** The mirror for reports: once the source device announces itself again, a failure
      whose report could not be delivered is eligible for any reporter that holds no
      open report claim. */
  lemma ReportRetriable(s: Store, now: Instant, clientGuid: RowId, x: RowId, errorMessageJsonString: string,
                        deviceClientGuid: RowId, purposeGuid: Option<Guid>, reporterGuid: Guid)
    requires Consistent(s, now) && x < |s.failureDequeues| && clientGuid < |s.clients| && deviceClientGuid < |s.clients|
    ensures SourceOf(s, s.failureDequeues[x].failedTransmissionGuid).Some?
    ensures var f := s.failureDequeues[x].failedTransmissionGuid;
      var errored := FailedTransmissionFailed(s, now, clientGuid, x, errorMessageJsonString);
      var announced := InsertDevice(errored.store, errored.clock, SourceOf(s, f).value, deviceClientGuid, purposeGuid).store;
      !ReporterBusy(announced, reporterGuid) ==>
        ReportEligible(announced, reporterGuid, s.transmissions[FailureTransmission(s, f).value].queueGuid, f)
  {
    var f := s.failureDequeues[x].failedTransmissionGuid;
    var errored := FailedTransmissionFailed(s, now, clientGuid, x, errorMessageJsonString);
    var source := SourceOf(s, f).value;
    var announced := InsertDevice(errored.store, errored.clock, source, deviceClientGuid, purposeGuid).store;
    FailedTransmissionFailedConsistent(s, now, clientGuid, x, errorMessageJsonString);
    InsertDeviceConsistent(errored.store, errored.clock, source, deviceClientGuid, purposeGuid);
    assert announced.failureDequeues == s.failureDequeues;
    assert announced.failureDequeues[x].failedTransmissionGuid == f;
    assert !ReportWaitsOnEarlier(announced, f);
    assert FailureTransmission(announced, f) == FailureTransmission(s, f);
    ReportErrorWaitsForSource(s, now, clientGuid, x, errorMessageJsonString, errored.clock, deviceClientGuid, purposeGuid);
  }

  // ---------------------------------------------------------------------------
  // Every operation keeps the store consistent

  lemma InsertClientConsistent(s: Store, now: Instant, ipAddress: string)
    requires Consistent(s, now)
    ensures var o := InsertClient(s, now, ipAddress); Consistent(o.store, o.clock)
  {
    if ClientIndex(s.clients, ipAddress).None? {
      AddClientConsistent(s, now, ipAddress);
    }
  }

  lemma InsertDeviceConsistent(s: Store, now: Instant, deviceGuid: Guid, clientGuid: RowId, purposeGuid: Option<Guid>)
    requires Consistent(s, now)
    ensures var o := InsertDevice(s, now, deviceGuid, clientGuid, purposeGuid); Consistent(o.store, o.clock)
  {
    if clientGuid < |s.clients| {
      var row := DeviceRow(deviceGuid, purposeGuid, clientGuid, now);
      UpsertDeviceConsistent(s, now, row);
      var upserted := s.(devices := UpsertDevice(s.devices, row));
      RetagConsistent(upserted, now + 1, UnblockTransmissions(s.transmissions, deviceGuid), UnblockFailures(s, deviceGuid));
    }
  }

  lemma InsertQueueConsistent(s: Store, now: Instant, queueGuid: Guid)
    requires Consistent(s, now)
    ensures var o := InsertQueue(s, now, queueGuid); Consistent(o.store, o.clock)
  {
    if QueueIndex(s.queues, queueGuid).None? {
      AddQueueConsistent(s, now, queueGuid);
    }
  }

  lemma InsertTransmissionConsistent(s: Store, now: Instant, queueGuid: Guid, sourceDeviceGuid: Guid, clientGuid: RowId,
                                     transmissionJsonString: string, destinationDeviceGuid: Guid)
    requires Consistent(s, now)
    ensures var o := InsertTransmission(s, now, queueGuid, sourceDeviceGuid, clientGuid, transmissionJsonString, destinationDeviceGuid);
      Consistent(o.store, o.clock)
  {
    var t := Transmission(|s.transmissions|, queueGuid, sourceDeviceGuid, clientGuid, transmissionJsonString,
                          destinationDeviceGuid, now, NoRetry);
    if TransmissionRefsOk(s, t) {
      AddTransmissionConsistent(s, now, t);
    }
  }

  lemma GetNextTransmissionDequeueConsistent(s: Store, now: Instant, dequeuerGuid: Guid, queueGuid: Guid, clientGuid: RowId)
    requires Consistent(s, now)
    ensures var o := GetNextTransmissionDequeue(s, now, dequeuerGuid, queueGuid, clientGuid); Consistent(o.store, o.clock)
  {
    var next := NextTransmission(s, dequeuerGuid, queueGuid, |s.transmissions|);
    if !(next.Some? && (WorkerIndex(s.dequeuers, dequeuerGuid).None? || clientGuid >= |s.clients|)) {
      ClaimQueryConsistent(s, now, dequeuerGuid, queueGuid, clientGuid);
      var claimed := AfterClaimQuery(s, now, dequeuerGuid, queueGuid, clientGuid);
      var clock := if next.Some? then now + 1 else now;
      match OpenDequeue(claimed, dequeuerGuid, |claimed.dequeues|)
      case None =>
      case Some(c) => ConsumeConsistent(claimed, clock, claimed.dequeues[c].transmissionGuid);
    }
  }

  /** The claim query keeps the store consistent. */
  lemma ClaimQueryConsistent(s: Store, now: Instant, dequeuerGuid: Guid, queueGuid: Guid, clientGuid: RowId)
    requires Consistent(s, now)
    requires var next := NextTransmission(s, dequeuerGuid, queueGuid, |s.transmissions|);
      next.Some? ==> WorkerIndex(s.dequeuers, dequeuerGuid).Some? && clientGuid < |s.clients|
    ensures var next := NextTransmission(s, dequeuerGuid, queueGuid, |s.transmissions|);
      Consistent(AfterClaimQuery(s, now, dequeuerGuid, queueGuid, clientGuid), if next.Some? then now + 1 else now)
  {
    var next := NextTransmission(s, dequeuerGuid, queueGuid, |s.transmissions|);
    if next.Some? {
      AddClaimConsistent(s, now, ClaimFor(s, dequeuerGuid, next.value, clientGuid, now));
    }
  }

  /** Consuming the retry flag of a claimed transmission keeps the store consistent. */
  lemma ConsumeConsistent(s: Store, now: Instant, t: RowId)
    requires Consistent(s, now) && t < |s.transmissions|
    ensures Consistent(ConsumeTransmission(s, t), now)
  {
    RetagConsistent(s, now, ConsumeTransmission(s, t).transmissions, s.failures);
  }

  lemma TransmissionCompletedConsistent(s: Store, now: Instant, clientGuid: RowId, transmissionDequeueGuid: RowId)
    requires Consistent(s, now)
    ensures var o := TransmissionCompleted(s, now, clientGuid, transmissionDequeueGuid); Consistent(o.store, o.clock)
  {
    if transmissionDequeueGuid < |s.dequeues| && clientGuid < |s.clients| {
      AddCompleteConsistent(s, now, TransmissionComplete(|s.completes|, transmissionDequeueGuid, clientGuid, now));
    }
  }

  lemma TransmissionFailedConsistent(s: Store, now: Instant, clientGuid: RowId, transmissionDequeueGuid: RowId, errorMessageJsonString: string)
    requires Consistent(s, now)
    ensures var o := TransmissionFailed(s, now, clientGuid, transmissionDequeueGuid, errorMessageJsonString); Consistent(o.store, o.clock)
  {
    if transmissionDequeueGuid < |s.dequeues| && clientGuid < |s.clients| {
      AddFailureConsistent(s, now, FailedTransmission(|s.failures|, clientGuid, transmissionDequeueGuid, errorMessageJsonString, now, NoRetry));
    }
  }

  lemma GetNextFailedTransmissionDequeueConsistent(s: Store, now: Instant, reporterGuid: Guid, queueGuid: Guid, clientGuid: RowId)
    requires Consistent(s, now)
    ensures var o := GetNextFailedTransmissionDequeue(s, now, reporterGuid, queueGuid, clientGuid); Consistent(o.store, o.clock)
  {
    var next := NextFailure(s, reporterGuid, queueGuid, |s.failures|);
    if !(next.Some? && (WorkerIndex(s.reporters, reporterGuid).None? || clientGuid >= |s.clients|)) {
      ReportClaimQueryConsistent(s, now, reporterGuid, queueGuid, clientGuid);
      var claimed := AfterReportClaimQuery(s, now, reporterGuid, queueGuid, clientGuid);
      var clock := if next.Some? then now + 1 else now;
      match OpenFailureDequeue(claimed, reporterGuid, |claimed.failureDequeues|)
      case None =>
      case Some(x) => ConsumeFailureConsistent(claimed, clock, claimed.failureDequeues[x].failedTransmissionGuid);
    }
  }

  /** The report claim query keeps the store consistent. */
  lemma ReportClaimQueryConsistent(s: Store, now: Instant, reporterGuid: Guid, queueGuid: Guid, clientGuid: RowId)
    requires Consistent(s, now)
    requires var next := NextFailure(s, reporterGuid, queueGuid, |s.failures|);
      next.Some? ==> WorkerIndex(s.reporters, reporterGuid).Some? && clientGuid < |s.clients|
    ensures var next := NextFailure(s, reporterGuid, queueGuid, |s.failures|);
      Consistent(AfterReportClaimQuery(s, now, reporterGuid, queueGuid, clientGuid), if next.Some? then now + 1 else now)
  {
    var next := NextFailure(s, reporterGuid, queueGuid, |s.failures|);
    if next.Some? {
      AddReportClaimConsistent(s, now, ReportClaimFor(s, reporterGuid, next.value, clientGuid, now));
    }
  }

  /** Consuming the retry flag of a claimed failure keeps the store consistent. */
  lemma ConsumeFailureConsistent(s: Store, now: Instant, f: RowId)
    requires Consistent(s, now) && f < |s.failures|
    ensures Consistent(ConsumeFailure(s, f), now)
  {
    RetagConsistent(s, now, s.transmissions, ConsumeFailure(s, f).failures);
  }

  lemma FailedTransmissionCompletedConsistent(s: Store, now: Instant, clientGuid: RowId, failedTransmissionDequeueGuid: RowId, isRetryRequested: bool)
    requires Consistent(s, now)
    ensures var o := FailedTransmissionCompleted(s, now, clientGuid, failedTransmissionDequeueGuid, isRetryRequested);
      Consistent(o.store, o.clock)
  {
    if failedTransmissionDequeueGuid < |s.failureDequeues| && clientGuid < |s.clients| {
      var k := FailedTransmissionComplete(|s.failureCompletes|, failedTransmissionDequeueGuid, clientGuid, isRetryRequested, now);
      AddReportCompleteConsistent(s, now, k);
      var answered := s.(failureCompletes := s.failureCompletes + [k]);
      var t := ReportedTransmission(s, failedTransmissionDequeueGuid).value;
      if isRetryRequested {
        RetagConsistent(answered, now + 1, s.transmissions[t := s.transmissions[t].(isRetryReady := Blocked)], s.failures);
      }
    }
  }

  lemma FailedTransmissionFailedConsistent(s: Store, now: Instant, clientGuid: RowId, failedTransmissionDequeueGuid: RowId, errorMessageJsonString: string)
    requires Consistent(s, now)
    ensures var o := FailedTransmissionFailed(s, now, clientGuid, failedTransmissionDequeueGuid, errorMessageJsonString);
      Consistent(o.store, o.clock)
  {
    if failedTransmissionDequeueGuid < |s.failureDequeues| && clientGuid < |s.clients| {
      var e := FailedTransmissionError(|s.failureErrors|, failedTransmissionDequeueGuid, clientGuid, errorMessageJsonString, now);
      AddReportErrorConsistent(s, now, e);
      var f := s.failureDequeues[failedTransmissionDequeueGuid].failedTransmissionGuid;
      RetagConsistent(s.(failureErrors := s.failureErrors + [e]), now + 1, s.transmissions,
                      s.failures[f := s.failures[f].(isRetryReady := Blocked)]);
    }
  }

  lemma InsertDequeuerConsistent(s: Store, now: Instant, dequeuerGuid: Guid, clientGuid: RowId)
    requires Consistent(s, now)
    ensures var o := InsertDequeuer(s, now, dequeuerGuid, clientGuid); Consistent(o.store, o.clock)
  {
    if !(WorkerIndex(s.dequeuers, dequeuerGuid).None? && clientGuid >= |s.clients|) {
      DequeuersChangedConsistent(s, now, AnnounceWorker(s.dequeuers, dequeuerGuid, clientGuid, now));
    }
  }

  lemma InsertReporterConsistent(s: Store, now: Instant, reporterGuid: Guid, clientGuid: RowId)
    requires Consistent(s, now)
    ensures var o := InsertReporter(s, now, reporterGuid, clientGuid); Consistent(o.store, o.clock)
  {
    if !(WorkerIndex(s.reporters, reporterGuid).None? && clientGuid >= |s.clients|) {
      ReportersChangedConsistent(s, now, AnnounceWorker(s.reporters, reporterGuid, clientGuid, now));
    }
  }

  lemma SetDequeuerUnresponsiveConsistent(s: Store, now: Instant, dequeuerGuid: Guid)
    requires Consistent(s, now)
    ensures var o := SetDequeuerUnresponsive(s, now, dequeuerGuid); Consistent(o.store, o.clock)
  {
    DequeuersChangedConsistent(s, now, SilenceWorker(s.dequeuers, dequeuerGuid, now));
  }

  lemma SetReporterUnresponsiveConsistent(s: Store, now: Instant, reporterGuid: Guid)
    requires Consistent(s, now)
    ensures var o := SetReporterUnresponsive(s, now, reporterGuid); Consistent(o.store, o.clock)
  {
    ReportersChangedConsistent(s, now, SilenceWorker(s.reporters, reporterGuid, now));
  }
}
