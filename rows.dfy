/**
  Row records of the in-memory relational ledger that brokers "transmissions"
  between devices (wifi_server/app/database.py).  Every table of the store is
  one of the datatypes below; the record classes that the store hands back to
  its callers (`Client`, `Device`, `Dequeuer`/`Reporter`, `Transmission`, ...)
  are plain values here.

  Identifiers come in two kinds:
  - `Guid`: chosen by the caller (device, purpose, queue, dequeuer, reporter);
  - `RowId`: generated by the store (client, transmission and every claim,
    completion and error row).  A generated identifier is the position of its
    row in its table, which makes it fresh and distinct within that table.
  Timestamps are instants of a logical clock that the store advances by one
  every time it records one.
 */
module Rows {

  type Guid = string
  type RowId = nat
  type Instant = nat

  datatype Option<+T> = None | Some(value: T)

  /** The only error the store raises to its callers: a foreign key that names no row. */
  datatype Error = IntegrityError

  datatype Result<+T> = Ok(value: T) | Err(error: Error)

  /** The nullable `is_retry_ready` column: NULL, 0 and 1. */
  datatype RetryState = NoRetry | Blocked | Ready

  /** Table `client`: the ip address is unique. */
  datatype Client = Client(clientGuid: RowId, ipAddress: string)

  /** Table `device`: one mutable "current" row per device guid. */
  datatype DeviceRow = DeviceRow(
    deviceGuid: Guid,
    purposeGuid: Option<Guid>,
    lastKnownClientGuid: RowId,
    lastKnownDatetime: Instant)

  /** The `Device` record handed back by the store. */
  datatype Device = Device(deviceGuid: Guid, purposeGuid: Option<Guid>)

  /** Table `queue`: a partition key. */
  datatype Queue = Queue(queueGuid: Guid, rowCreatedDatetime: Instant)

  /** Tables `dequeuer` and `reporter`, which have the same columns. */
  datatype WorkerRow = WorkerRow(
    workerGuid: Guid,
    isResponsive: bool,
    responsiveUpdateDatetime: Instant,
    lastKnownClientGuid: RowId,
    lastKnownDatetime: Instant)

  /** The `Dequeuer` and `Reporter` records handed back by the store. */
  datatype Worker = Worker(workerGuid: Guid, isResponsive: bool, responsiveUpdateDatetime: Instant)

  /** Table `transmission`: immutable except for its retry flag. */
  datatype Transmission = Transmission(
    transmissionGuid: RowId,
    queueGuid: Guid,
    sourceDeviceGuid: Guid,
    requestClientGuid: RowId,
    transmissionJsonString: string,
    destinationDeviceGuid: Guid,
    rowCreatedDatetime: Instant,
    isRetryReady: RetryState)

  /** Table `transmission_dequeue`: a claim of a transmission by a dequeuer. */
  datatype TransmissionDequeue = TransmissionDequeue(
    transmissionDequeueGuid: RowId,
    dequeuerGuid: Guid,
    transmissionGuid: RowId,
    requestClientGuid: RowId,
    destinationClientGuid: RowId,
    rowCreatedDatetime: Instant)

  /** Table `transmission_complete`: closes a claim with success. */
  datatype TransmissionComplete = TransmissionComplete(
    transmissionCompleteGuid: RowId,
    transmissionDequeueGuid: RowId,
    requestClientGuid: RowId,
    rowCreatedDatetime: Instant)

  /** Table `transmission_dequeue_error_transmission`: closes a claim with a failure
      and opens the failure's own report lifecycle. */
  datatype FailedTransmission = FailedTransmission(
    failedTransmissionGuid: RowId,
    requestClientGuid: RowId,
    transmissionDequeueGuid: RowId,
    errorMessageJsonString: string,
    rowCreatedDatetime: Instant,
    isRetryReady: RetryState)

  /** Table `transmission_dequeue_error_transmission_dequeue`: a claim of a failure by a reporter. */
  datatype FailedTransmissionDequeue = FailedTransmissionDequeue(
    failedTransmissionDequeueGuid: RowId,
    reporterGuid: Guid,
    failedTransmissionGuid: RowId,
    requestClientGuid: RowId,
    destinationClientGuid: RowId,
    rowCreatedDatetime: Instant)

  /** Table `transmission_dequeue_error_transmission_complete`: the source's answer. */
  datatype FailedTransmissionComplete = FailedTransmissionComplete(
    failedTransmissionCompleteGuid: RowId,
    failedTransmissionDequeueGuid: RowId,
    requestClientGuid: RowId,
    isRetryRequested: bool,
    rowCreatedDatetime: Instant)

  /** Table `transmission_dequeue_error_transmission_error`: the report could not be delivered. */
  datatype FailedTransmissionError = FailedTransmissionError(
    failedTransmissionErrorGuid: RowId,
    failedTransmissionDequeueGuid: RowId,
    requestClientGuid: RowId,
    errorMessageJsonString: string,
    rowCreatedDatetime: Instant)

  /** What `get_next_transmission_dequeue` hands back: the claim with its transmission attached. */
  datatype DequeuedTransmission = DequeuedTransmission(
    dequeue: TransmissionDequeue,
    transmission: Transmission)

  /** What `get_next_failed_transmission_dequeue` hands back: the report claim with the
      client it must reach, the failure, and the failure's claim and transmission attached. */
  datatype DequeuedFailure = DequeuedFailure(
    dequeue: FailedTransmissionDequeue,
    destinationClient: Client,
    failure: FailedTransmission,
    transmissionDequeue: TransmissionDequeue,
    transmission: Transmission)
}
