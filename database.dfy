/**
  The store itself (class `Database` of wifi_server/app/database.py): the contents
  of its tables and a logical clock.  Every operation runs its step of module
  `Operations` on the tables and commits the outcome, so that its whole new state
  and its result are those of the step, and every operation keeps the store
  `Valid`.
 */
module Ledger {
  import opened Rows
  import opened Store
  import opened Registry
  import opened Protocol
  import Operations

  class Database {
    /** The contents of every table. */
    var tables: Store
    /** The next instant the clock hands out. */
    var clock: Instant

    ghost predicate Valid()
      reads this
    {
      Consistent(tables, clock)
    }

    /** A fresh store: every table empty. */
    constructor ()
      ensures Valid()
      ensures tables == Store([], [], [], [], [], [], [], [], [], [], [], []) && clock == 0
    {
      tables := Store([], [], [], [], [], [], [], [], [], [], [], []);
      clock := 0;
    }

    // -------------------------------------------------------------------------
    // Identity registry

    /** `insert_client`: the client row of an ip address, created on first sight. */
    method InsertClient(ipAddress: string) returns (client: Client)
      requires Valid()
      modifies this
      ensures Valid()
      ensures var o := Operations.InsertClient(old(tables), old(clock), ipAddress);
        tables == o.store && clock == o.clock && client == o.result
    {
      var o := Operations.InsertClient(tables, clock, ipAddress);
      Operations.InsertClientConsistent(tables, clock, ipAddress);
      tables, clock := o.store, o.clock;
      client := o.result;
    }

    /** `insert_device`: a device announces itself from a client; every retry waiting on it
        becomes ready.  An unknown client is an integrity error. */
    method InsertDevice(deviceGuid: Guid, clientGuid: RowId, purposeGuid: Option<Guid>) returns (r: Result<Device>)
      requires Valid()
      modifies this
      ensures Valid()
      ensures var o := Operations.InsertDevice(old(tables), old(clock), deviceGuid, clientGuid, purposeGuid);
        tables == o.store && clock == o.clock && r == o.result
    {
      var o := Operations.InsertDevice(tables, clock, deviceGuid, clientGuid, purposeGuid);
      Operations.InsertDeviceConsistent(tables, clock, deviceGuid, clientGuid, purposeGuid);
      tables, clock := o.store, o.clock;
      r := o.result;
    }

    /** `insert_queue`: the queue row of a guid, created on first sight. */
    method InsertQueue(queueGuid: Guid) returns (queue: Queue)
      requires Valid()
      modifies this
      ensures Valid()
      ensures var o := Operations.InsertQueue(old(tables), old(clock), queueGuid);
        tables == o.store && clock == o.clock && queue == o.result
    {
      var o := Operations.InsertQueue(tables, clock, queueGuid);
      Operations.InsertQueueConsistent(tables, clock, queueGuid);
      tables, clock := o.store, o.clock;
      queue := o.result;
    }

    // -------------------------------------------------------------------------
    // Delivery ledger

    /** `insert_transmission`: a new transmission with no retry pending. */
    method InsertTransmission(queueGuid: Guid, sourceDeviceGuid: Guid, clientGuid: RowId, transmissionJsonString: string,
                                destinationDeviceGuid: Guid) returns (r: Result<Transmission>)
      requires Valid()
      modifies this
      ensures Valid()
      ensures var o := Operations.InsertTransmission(old(tables), old(clock), queueGuid, sourceDeviceGuid, clientGuid, transmissionJsonString, destinationDeviceGuid);
        tables == o.store && clock == o.clock && r == o.result
    {
      var o := Operations.InsertTransmission(tables, clock, queueGuid, sourceDeviceGuid, clientGuid, transmissionJsonString, destinationDeviceGuid);
      Operations.InsertTransmissionConsistent(tables, clock, queueGuid, sourceDeviceGuid, clientGuid, transmissionJsonString, destinationDeviceGuid);
      tables, clock := o.store, o.clock;
      r := o.result;
    }

    /** `get_next_transmission_dequeue`: claim the earliest eligible transmission, then hand
        back the dequeuer's open claim. */
    method GetNextTransmissionDequeue(dequeuerGuid: Guid, queueGuid: Guid, clientGuid: RowId) returns (r: Result<Option<DequeuedTransmission>>)
      requires Valid()
      modifies this
      ensures Valid()
      ensures var o := Operations.GetNextTransmissionDequeue(old(tables), old(clock), dequeuerGuid, queueGuid, clientGuid);
        tables == o.store && clock == o.clock && r == o.result
    {
      var o := Operations.GetNextTransmissionDequeue(tables, clock, dequeuerGuid, queueGuid, clientGuid);
      Operations.GetNextTransmissionDequeueConsistent(tables, clock, dequeuerGuid, queueGuid, clientGuid);
      tables, clock := o.store, o.clock;
      r := o.result;
    }

    /** `transmission_completed`: the claim is closed with success. */
    method TransmissionCompleted(clientGuid: RowId, transmissionDequeueGuid: RowId) returns (r: Result<()>)
      requires Valid()
      modifies this
      ensures Valid()
      ensures var o := Operations.TransmissionCompleted(old(tables), old(clock), clientGuid, transmissionDequeueGuid);
        tables == o.store && clock == o.clock && r == o.result
    {
      var o := Operations.TransmissionCompleted(tables, clock, clientGuid, transmissionDequeueGuid);
      Operations.TransmissionCompletedConsistent(tables, clock, clientGuid, transmissionDequeueGuid);
      tables, clock := o.store, o.clock;
      r := o.result;
    }

    /** `transmission_failed`: the claim is closed by a failure to be reported back. */
    method TransmissionFailed(clientGuid: RowId, transmissionDequeueGuid: RowId, errorMessageJsonString: string) returns (r: Result<FailedTransmission>)
      requires Valid()
      modifies this
      ensures Valid()
      ensures var o := Operations.TransmissionFailed(old(tables), old(clock), clientGuid, transmissionDequeueGuid, errorMessageJsonString);
        tables == o.store && clock == o.clock && r == o.result
    {
      var o := Operations.TransmissionFailed(tables, clock, clientGuid, transmissionDequeueGuid, errorMessageJsonString);
      Operations.TransmissionFailedConsistent(tables, clock, clientGuid, transmissionDequeueGuid, errorMessageJsonString);
      tables, clock := o.store, o.clock;
      r := o.result;
    }

    // -------------------------------------------------------------------------
    // Failure-report ledger

    /** `get_next_failed_transmission_dequeue`: the report claim, mirror of the delivery claim. */
    method GetNextFailedTransmissionDequeue(reporterGuid: Guid, queueGuid: Guid, clientGuid: RowId) returns (r: Result<Option<DequeuedFailure>>)
      requires Valid()
      modifies this
      ensures Valid()
      ensures var o := Operations.GetNextFailedTransmissionDequeue(old(tables), old(clock), reporterGuid, queueGuid, clientGuid);
        tables == o.store && clock == o.clock && r == o.result
    {
      var o := Operations.GetNextFailedTransmissionDequeue(tables, clock, reporterGuid, queueGuid, clientGuid);
      Operations.GetNextFailedTransmissionDequeueConsistent(tables, clock, reporterGuid, queueGuid, clientGuid);
      tables, clock := o.store, o.clock;
      r := o.result;
    }

    /** `failed_transmission_completed`: the source answered the report. */
    method FailedTransmissionCompleted(clientGuid: RowId, failedTransmissionDequeueGuid: RowId, isRetryRequested: bool) returns (r: Result<()>)
      requires Valid()
      modifies this
      ensures Valid()
      ensures var o := Operations.FailedTransmissionCompleted(old(tables), old(clock), clientGuid, failedTransmissionDequeueGuid, isRetryRequested);
        tables == o.store && clock == o.clock && r == o.result
    {
      var o := Operations.FailedTransmissionCompleted(tables, clock, clientGuid, failedTransmissionDequeueGuid, isRetryRequested);
      Operations.FailedTransmissionCompletedConsistent(tables, clock, clientGuid, failedTransmissionDequeueGuid, isRetryRequested);
      tables, clock := o.store, o.clock;
      r := o.result;
    }

    /** `failed_transmission_failed`: the report could not reach the source. */
    method FailedTransmissionFailed(clientGuid: RowId, failedTransmissionDequeueGuid: RowId, errorMessageJsonString: string) returns (r: Result<()>)
      requires Valid()
      modifies this
      ensures Valid()
      ensures var o := Operations.FailedTransmissionFailed(old(tables), old(clock), clientGuid, failedTransmissionDequeueGuid, errorMessageJsonString);
        tables == o.store && clock == o.clock && r == o.result
    {
      var o := Operations.FailedTransmissionFailed(tables, clock, clientGuid, failedTransmissionDequeueGuid, errorMessageJsonString);
      Operations.FailedTransmissionFailedConsistent(tables, clock, clientGuid, failedTransmissionDequeueGuid, errorMessageJsonString);
      tables, clock := o.store, o.clock;
      r := o.result;
    }

    // -------------------------------------------------------------------------
    // Liveness registry

    /** `insert_dequeuer`: register or revive a dequeuer. */
    method InsertDequeuer(dequeuerGuid: Guid, clientGuid: RowId) returns (r: Result<Worker>)
      requires Valid()
      modifies this
      ensures Valid()
      ensures var o := Operations.InsertDequeuer(old(tables), old(clock), dequeuerGuid, clientGuid);
        tables == o.store && clock == o.clock && r == o.result
    {
      var o := Operations.InsertDequeuer(tables, clock, dequeuerGuid, clientGuid);
      Operations.InsertDequeuerConsistent(tables, clock, dequeuerGuid, clientGuid);
      tables, clock := o.store, o.clock;
      r := o.result;
    }

    /** `insert_reporter`: register or revive a reporter. */
    method InsertReporter(reporterGuid: Guid, clientGuid: RowId) returns (r: Result<Worker>)
      requires Valid()
      modifies this
      ensures Valid()
      ensures var o := Operations.InsertReporter(old(tables), old(clock), reporterGuid, clientGuid);
        tables == o.store && clock == o.clock && r == o.result
    {
      var o := Operations.InsertReporter(tables, clock, reporterGuid, clientGuid);
      Operations.InsertReporterConsistent(tables, clock, reporterGuid, clientGuid);
      tables, clock := o.store, o.clock;
      r := o.result;
    }

    /** `set_dequeuer_unresponsive`: a dequeuer stopped answering. */
    method SetDequeuerUnresponsive(dequeuerGuid: Guid)
      requires Valid()
      modifies this
      ensures Valid()
      ensures var o := Operations.SetDequeuerUnresponsive(old(tables), old(clock), dequeuerGuid);
        tables == o.store && clock == o.clock
    {
      var o := Operations.SetDequeuerUnresponsive(tables, clock, dequeuerGuid);
      Operations.SetDequeuerUnresponsiveConsistent(tables, clock, dequeuerGuid);
      tables, clock := o.store, o.clock;
    }

    /** `set_reporter_unresponsive`: a reporter stopped answering. */
    method SetReporterUnresponsive(reporterGuid: Guid)
      requires Valid()
      modifies this
      ensures Valid()
      ensures var o := Operations.SetReporterUnresponsive(old(tables), old(clock), reporterGuid);
        tables == o.store && clock == o.clock
    {
      var o := Operations.SetReporterUnresponsive(tables, clock, reporterGuid);
      Operations.SetReporterUnresponsiveConsistent(tables, clock, reporterGuid);
      tables, clock := o.store, o.clock;
    }

    // -------------------------------------------------------------------------
    // Listings: each builds its result row by row, as the source's loop over the
    // fetched rows does.

    method GetAllResponsiveDequeuers() returns (listed: seq<Worker>)
      ensures listed == ResponsiveOf(tables.dequeuers)
    {
      listed := ResponsiveRows(tables.dequeuers);
    }

    method GetAllResponsiveReporters() returns (listed: seq<Worker>)
      ensures listed == ResponsiveOf(tables.reporters)
    {
      listed := ResponsiveRows(tables.reporters);
    }

    method GetAllDevices() returns (listed: seq<Device>)
      ensures listed == AllDevices(tables.devices)
    {
      var devices := tables.devices;
      listed := [];
      var i := 0;
      while i < |devices|
        invariant 0 <= i <= |devices|
        invariant listed == AllDevices(devices[..i])
      {
        assert devices[..i + 1][..i] == devices[..i];
        listed := listed + [AsDevice(devices[i])];
        i := i + 1;
      }
      assert devices[..|devices|] == devices;
    }

    method GetDevicesByPurpose(purposeGuid: Option<Guid>) returns (listed: seq<Device>)
      ensures listed == DevicesWithPurpose(tables.devices, purposeGuid)
    {
      var devices := tables.devices;
      listed := [];
      var i := 0;
      while i < |devices|
        invariant 0 <= i <= |devices|
        invariant listed == DevicesWithPurpose(devices[..i], purposeGuid)
      {
        assert devices[..i + 1][..i] == devices[..i];
        if HasPurpose(devices[i], purposeGuid) {
          listed := listed + [AsDevice(devices[i])];
        }
        i := i + 1;
      }
      assert devices[..|devices|] == devices;
    }
  }

  /** The loop shared by the two responsive-worker listings. */
  method ResponsiveRows(workers: seq<WorkerRow>) returns (listed: seq<Worker>)
    ensures listed == ResponsiveOf(workers)
  {
    listed := [];
    var i := 0;
    while i < |workers|
      invariant 0 <= i <= |workers|
      invariant listed == ResponsiveOf(workers[..i])
    {
      assert workers[..i + 1][..i] == workers[..i];
      if workers[i].isResponsive {
        listed := listed + [AsWorker(workers[i])];
      }
      i := i + 1;
    }
    assert workers[..|workers|] == workers;
  }
}
