/**
  The tables of the ledger as one value, the lookups the SQL statements make
  by key, the referential integrity the foreign keys of the schema enforce,
  and `Grows`, the way every operation is allowed to change the history.
 */
module Store {
  import opened Rows

  /** A snapshot of every table, each in row (insertion) order. */
  datatype Store = Store(
    clients: seq<Client>,
    devices: seq<DeviceRow>,
    queues: seq<Queue>,
    dequeuers: seq<WorkerRow>,
    reporters: seq<WorkerRow>,
    transmissions: seq<Transmission>,
    dequeues: seq<TransmissionDequeue>,
    completes: seq<TransmissionComplete>,
    failures: seq<FailedTransmission>,
    failureDequeues: seq<FailedTransmissionDequeue>,
    failureCompletes: seq<FailedTransmissionComplete>,
    failureErrors: seq<FailedTransmissionError>)

  /** The position of the first row satisfying `p`: what a `WHERE key = ?` finds. */
  function Find<T>(s: seq<T>, p: T -> bool): (r: Option<nat>)
    ensures r.Some? ==> r.value < |s| && p(s[r.value])
    ensures r.Some? ==> forall j :: 0 <= j < r.value ==> !p(s[j])
    ensures r.None? <==> forall i :: 0 <= i < |s| ==> !p(s[i])
  {
    if |s| == 0 then None
    else if p(s[0]) then Some(0)
    else match Find(s[1..], p)
      case None => None
      case Some(i) => Some(i + 1)
  }

  /** The first row satisfying `p` is the one `Find` returns. */
  lemma FindFirst<T>(s: seq<T>, p: T -> bool, i: nat)
    requires i < |s| && p(s[i])
    requires forall j :: 0 <= j < i ==> !p(s[j])
    ensures Find(s, p) == Some(i)
  {
  }

  function ClientIndex(clients: seq<Client>, ipAddress: string): Option<nat>
  {
    Find(clients, (c: Client) => c.ipAddress == ipAddress)
  }

  function DeviceIndex(devices: seq<DeviceRow>, deviceGuid: Guid): Option<nat>
  {
    Find(devices, (d: DeviceRow) => d.deviceGuid == deviceGuid)
  }

  function QueueIndex(queues: seq<Queue>, queueGuid: Guid): Option<nat>
  {
    Find(queues, (q: Queue) => q.queueGuid == queueGuid)
  }

  function WorkerIndex(workers: seq<WorkerRow>, workerGuid: Guid): Option<nat>
  {
    Find(workers, (w: WorkerRow) => w.workerGuid == workerGuid)
  }

  /** The transmission a claim is about, when both rows exist. */
  function TransmissionOf(s: Store, dequeue: RowId): Option<RowId>
  {
    if dequeue < |s.dequeues| && s.dequeues[dequeue].transmissionGuid < |s.transmissions|
    then Some(s.dequeues[dequeue].transmissionGuid)
    else None
  }

  /** The transmission a failure is about: failure -> claim -> transmission. */
  function FailureTransmission(s: Store, failure: RowId): Option<RowId>
  {
    if failure < |s.failures| then TransmissionOf(s, s.failures[failure].transmissionDequeueGuid) else None
  }

  /** The failure a report claim is about, when both rows exist. */
  function FailureOf(s: Store, failureDequeue: RowId): Option<RowId>
  {
    if failureDequeue < |s.failureDequeues| && s.failureDequeues[failureDequeue].failedTransmissionGuid < |s.failures|
    then Some(s.failureDequeues[failureDequeue].failedTransmissionGuid)
    else None
  }

  /** The transmission a report claim is ultimately about. */
  function ReportedTransmission(s: Store, failureDequeue: RowId): Option<RowId>
  {
    match FailureOf(s, failureDequeue)
    case None => None
    case Some(f) => FailureTransmission(s, f)
  }

  // ---------------------------------------------------------------------------
  // Keys and generated identifiers

  predicate IdsAreRowPositions(s: Store)
  {
    && (forall i :: 0 <= i < |s.clients| ==> s.clients[i].clientGuid == i)
    && (forall i :: 0 <= i < |s.transmissions| ==> s.transmissions[i].transmissionGuid == i)
    && (forall i :: 0 <= i < |s.dequeues| ==> s.dequeues[i].transmissionDequeueGuid == i)
    && (forall i :: 0 <= i < |s.completes| ==> s.completes[i].transmissionCompleteGuid == i)
    && (forall i :: 0 <= i < |s.failures| ==> s.failures[i].failedTransmissionGuid == i)
    && (forall i :: 0 <= i < |s.failureDequeues| ==> s.failureDequeues[i].failedTransmissionDequeueGuid == i)
    && (forall i :: 0 <= i < |s.failureCompletes| ==> s.failureCompletes[i].failedTransmissionCompleteGuid == i)
    && (forall i :: 0 <= i < |s.failureErrors| ==> s.failureErrors[i].failedTransmissionErrorGuid == i)
  }

  predicate UniqueIps(clients: seq<Client>)
  {
    forall i, j :: 0 <= i < j < |clients| ==> clients[i].ipAddress != clients[j].ipAddress
  }

  predicate UniqueDeviceGuids(devices: seq<DeviceRow>)
  {
    forall i, j :: 0 <= i < j < |devices| ==> devices[i].deviceGuid != devices[j].deviceGuid
  }

  predicate UniqueQueueGuids(queues: seq<Queue>)
  {
    forall i, j :: 0 <= i < j < |queues| ==> queues[i].queueGuid != queues[j].queueGuid
  }

  predicate UniqueWorkerGuids(workers: seq<WorkerRow>)
  {
    forall i, j :: 0 <= i < j < |workers| ==> workers[i].workerGuid != workers[j].workerGuid
  }

  /** PRIMARY KEY and UNIQUE constraints of the mutable tables. */
  predicate KeysUnique(s: Store)
  {
    && UniqueIps(s.clients)
    && UniqueDeviceGuids(s.devices)
    && UniqueQueueGuids(s.queues)
    && UniqueWorkerGuids(s.dequeuers)
    && UniqueWorkerGuids(s.reporters)
  }

  // ---------------------------------------------------------------------------
  // FOREIGN KEY constraints of the schema (wifi_server/app/database.py:556-714)

  predicate KnownClient(s: Store, client: RowId)
  {
    client < |s.clients|
  }

  predicate RegistryRefsOk(s: Store)
  {
    && (forall i :: 0 <= i < |s.devices| ==> s.devices[i].lastKnownClientGuid < |s.clients|)
    && (forall i :: 0 <= i < |s.dequeuers| ==> s.dequeuers[i].lastKnownClientGuid < |s.clients|)
    && (forall i :: 0 <= i < |s.reporters| ==> s.reporters[i].lastKnownClientGuid < |s.clients|)
  }

  predicate TransmissionRefsOk(s: Store, t: Transmission)
  {
    && QueueIndex(s.queues, t.queueGuid).Some?
    && DeviceIndex(s.devices, t.sourceDeviceGuid).Some?
    && DeviceIndex(s.devices, t.destinationDeviceGuid).Some?
    && t.requestClientGuid < |s.clients|
  }

  predicate DeliveryRefsOk(s: Store)
  {
    && (forall i :: 0 <= i < |s.transmissions| ==> TransmissionRefsOk(s, s.transmissions[i]))
    && (forall c :: 0 <= c < |s.dequeues| ==>
          && WorkerIndex(s.dequeuers, s.dequeues[c].dequeuerGuid).Some?
          && s.dequeues[c].transmissionGuid < |s.transmissions|
          && s.dequeues[c].requestClientGuid < |s.clients|
          && s.dequeues[c].destinationClientGuid < |s.clients|)
    && (forall k :: 0 <= k < |s.completes| ==>
          s.completes[k].transmissionDequeueGuid < |s.dequeues| && s.completes[k].requestClientGuid < |s.clients|)
    && (forall f :: 0 <= f < |s.failures| ==>
          s.failures[f].transmissionDequeueGuid < |s.dequeues| && s.failures[f].requestClientGuid < |s.clients|)
  }

  predicate ReportRefsOk(s: Store)
  {
    && (forall r :: 0 <= r < |s.failureDequeues| ==>
          && WorkerIndex(s.reporters, s.failureDequeues[r].reporterGuid).Some?
          && s.failureDequeues[r].failedTransmissionGuid < |s.failures|
          && s.failureDequeues[r].requestClientGuid < |s.clients|
          && s.failureDequeues[r].destinationClientGuid < |s.clients|)
    && (forall k :: 0 <= k < |s.failureCompletes| ==>
          s.failureCompletes[k].failedTransmissionDequeueGuid < |s.failureDequeues| && s.failureCompletes[k].requestClientGuid < |s.clients|)
    && (forall k :: 0 <= k < |s.failureErrors| ==>
          s.failureErrors[k].failedTransmissionDequeueGuid < |s.failureDequeues| && s.failureErrors[k].requestClientGuid < |s.clients|)
  }

  /** Every row the schema can hold: keys unique, identifiers fresh, references resolved. */
  predicate WellFormed(s: Store)
  {
    IdsAreRowPositions(s) && KeysUnique(s) && RegistryRefsOk(s) && DeliveryRefsOk(s) && ReportRefsOk(s)
  }

  /** The logical clock: transmissions and failures are stamped in row order, and every
      stamp the clock has handed out lies before `now`. */
  predicate Stamped(s: Store, now: Instant)
  {
    && (forall i, j :: 0 <= i < j < |s.transmissions| ==>
          s.transmissions[i].rowCreatedDatetime < s.transmissions[j].rowCreatedDatetime)
    && (forall i :: 0 <= i < |s.transmissions| ==> s.transmissions[i].rowCreatedDatetime < now)
    && (forall i, j :: 0 <= i < j < |s.failures| ==>
          s.failures[i].rowCreatedDatetime < s.failures[j].rowCreatedDatetime)
    && (forall i :: 0 <= i < |s.failures| ==> s.failures[i].rowCreatedDatetime < now)
    && (forall i :: 0 <= i < |s.devices| ==> s.devices[i].lastKnownDatetime < now)
  }

  // ---------------------------------------------------------------------------
  // How history may change

  /** Same row apart from the retry flag. */
  predicate SameTransmission(a: Transmission, b: Transmission)
  {
    a.(isRetryReady := NoRetry) == b.(isRetryReady := NoRetry)
  }

  predicate SameFailure(a: FailedTransmission, b: FailedTransmission)
  {
    a.(isRetryReady := NoRetry) == b.(isRetryReady := NoRetry)
  }

  /** `s'` extends `s`: the ledgers only gain rows, and the rows they had change at most
      in their retry flag.  The registry tables (client, device, queue, dequeuer,
      reporter) are not constrained. */
  predicate Grows(s: Store, s': Store)
  {
    && |s.transmissions| <= |s'.transmissions|
    && (forall i :: 0 <= i < |s.transmissions| ==> SameTransmission(s.transmissions[i], s'.transmissions[i]))
    && s.dequeues <= s'.dequeues
    && s.completes <= s'.completes
    && |s.failures| <= |s'.failures|
    && (forall i :: 0 <= i < |s.failures| ==> SameFailure(s.failures[i], s'.failures[i]))
    && s.failureDequeues <= s'.failureDequeues
    && s.failureCompletes <= s'.failureCompletes
    && s.failureErrors <= s'.failureErrors
  }

  /** The chain from a report claim to its transmission survives growth. */
  lemma GrowsKeepsChains(s: Store, s': Store)
    requires Grows(s, s')
    ensures forall c :: TransmissionOf(s, c).Some? ==> TransmissionOf(s', c) == TransmissionOf(s, c)
    ensures forall f :: FailureTransmission(s, f).Some? ==> FailureTransmission(s', f) == FailureTransmission(s, f)
    ensures forall r :: FailureOf(s, r).Some? ==> FailureOf(s', r) == FailureOf(s, r)
    ensures forall r :: ReportedTransmission(s, r).Some? ==> ReportedTransmission(s', r) == ReportedTransmission(s, r)
  {
    forall f: RowId | FailureTransmission(s, f).Some?
      ensures FailureTransmission(s', f) == FailureTransmission(s, f)
    {
      assert SameFailure(s.failures[f], s'.failures[f]);
      assert s'.failures[f].transmissionDequeueGuid == s.failures[f].transmissionDequeueGuid;
    }
    forall r: RowId | ReportedTransmission(s, r).Some?
      ensures ReportedTransmission(s', r) == ReportedTransmission(s, r)
    {
      assert FailureOf(s', r) == FailureOf(s, r);
    }
  }
}
