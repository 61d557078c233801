/**
  The identity and liveness registry: devices announce themselves (and where they
  can be reached), dequeuers and reporters announce themselves and are marked
  unresponsive, and the read-only listings built from those tables
  (wifi_server/app/database.py:796-847, 901-1098, 1838-1892).
 */
module Registry {
  import opened Rows
  import opened Store

  // ---------------------------------------------------------------------------
  // Devices

  /** The device row after `INSERT OR IGNORE INTO device` followed by the `UPDATE` of
      every column of the row with that guid: one row per guid, holding the latest
      purpose, client and instant. */
  function UpsertDevice(devices: seq<DeviceRow>, row: DeviceRow): (r: seq<DeviceRow>)
    ensures |r| == if DeviceIndex(devices, row.deviceGuid).Some? then |devices| else |devices| + 1
    ensures DeviceIndex(r, row.deviceGuid).Some? && r[DeviceIndex(r, row.deviceGuid).value] == row
    ensures forall i :: 0 <= i < |devices| ==> r[i].deviceGuid == devices[i].deviceGuid
    ensures forall i :: 0 <= i < |devices| && devices[i].deviceGuid != row.deviceGuid ==> r[i] == devices[i]
    ensures UniqueDeviceGuids(devices) ==> UniqueDeviceGuids(r)
  {
    match DeviceIndex(devices, row.deviceGuid)
    case None =>
      var r := devices + [row];
      FindFirst(r, (d: DeviceRow) => d.deviceGuid == row.deviceGuid, |devices|);
      r
    case Some(i) =>
      var r := devices[i := row];
      FindFirst(r, (d: DeviceRow) => d.deviceGuid == row.deviceGuid, i);
      r
  }

  /** Announcing a device twice leaves the table as if only the second announcement
      had happened: the row count does not grow and the latest fields win. */
  lemma UpsertLastWins(devices: seq<DeviceRow>, first: DeviceRow, second: DeviceRow)
    requires first.deviceGuid == second.deviceGuid
    ensures UpsertDevice(UpsertDevice(devices, first), second) == UpsertDevice(devices, second)
  {
    var once := UpsertDevice(devices, first);
    match DeviceIndex(devices, first.deviceGuid)
    case None =>
      assert DeviceIndex(once, first.deviceGuid) == Some(|devices|);
    case Some(i) =>
      assert DeviceIndex(once, first.deviceGuid) == Some(i);
  }

  /** The `Device` record the store hands back for a row. */
  function AsDevice(row: DeviceRow): Device
  {
    Device(row.deviceGuid, row.purposeGuid)
  }

  /** `SELECT device_guid, purpose_guid FROM device`: every device, purposeless ones
      included, in row order. */
  function AllDevices(devices: seq<DeviceRow>): (r: seq<Device>)
    ensures |r| == |devices|
    ensures forall i :: 0 <= i < |devices| ==> r[i].deviceGuid == devices[i].deviceGuid && r[i].purposeGuid == devices[i].purposeGuid
  {
    if |devices| == 0 then [] else AllDevices(devices[..|devices| - 1]) + [AsDevice(devices[|devices| - 1])]
  }

  /** `WHERE d.purpose_guid = ?`: a NULL parameter compares unknown with every row, so
      it selects nothing, and a NULL column is never selected. */
  predicate HasPurpose(row: DeviceRow, purposeGuid: Option<Guid>)
  {
    purposeGuid.Some? && row.purposeGuid == purposeGuid
  }

  /** The devices registered with a purpose, in row order. */
  function DevicesWithPurpose(devices: seq<DeviceRow>, purposeGuid: Option<Guid>): (r: seq<Device>)
    ensures |r| <= |devices|
    ensures forall k :: 0 <= k < |r| ==> r[k].purposeGuid == purposeGuid && purposeGuid.Some?
  {
    if |devices| == 0 then []
    else
      var last := devices[|devices| - 1];
      DevicesWithPurpose(devices[..|devices| - 1], purposeGuid) + (if HasPurpose(last, purposeGuid) then [AsDevice(last)] else [])
  }

  /** A device is listed for a purpose exactly when some row carries that purpose. */
  lemma {:induction false} DevicesWithPurposeMembers(devices: seq<DeviceRow>, purposeGuid: Option<Guid>, d: Device)
    ensures d in DevicesWithPurpose(devices, purposeGuid) <==>
      exists i :: 0 <= i < |devices| && HasPurpose(devices[i], purposeGuid) && AsDevice(devices[i]) == d
  {
    if |devices| > 0 {
      var prefix := devices[..|devices| - 1];
      DevicesWithPurposeMembers(prefix, purposeGuid, d);
      if d in DevicesWithPurpose(prefix, purposeGuid) {
        var i :| 0 <= i < |prefix| && HasPurpose(prefix[i], purposeGuid) && AsDevice(prefix[i]) == d;
        assert devices[i] == prefix[i];
      }
      if exists i :: 0 <= i < |devices| && HasPurpose(devices[i], purposeGuid) && AsDevice(devices[i]) == d {
        var i :| 0 <= i < |devices| && HasPurpose(devices[i], purposeGuid) && AsDevice(devices[i]) == d;
        if i < |prefix| {
          assert prefix[i] == devices[i];
        }
      }
    }
  }

  // ---------------------------------------------------------------------------
  // Dequeuers and reporters

  /** The `UPDATE ... SET is_responsive = 1, responsive_update_datetime = ? WHERE guid = ?
      AND is_responsive != 1` of an announcement. */
  function Revive(workers: seq<WorkerRow>, workerGuid: Guid, now: Instant): (r: seq<WorkerRow>)
    ensures |r| == |workers|
  {
    seq(|workers|, i requires 0 <= i < |workers| =>
      if workers[i].workerGuid == workerGuid && !workers[i].isResponsive
      then workers[i].(isResponsive := true, responsiveUpdateDatetime := now)
      else workers[i])
  }

  /** `insert_dequeuer` / `insert_reporter`: `INSERT OR IGNORE` of a responsive row, then
      revival of a known but unresponsive worker.  A known worker keeps the client and
      instant it was first seen with. */
  function AnnounceWorker(workers: seq<WorkerRow>, workerGuid: Guid, client: RowId, now: Instant): (r: seq<WorkerRow>)
    ensures |r| == if WorkerIndex(workers, workerGuid).Some? then |workers| else |workers| + 1
    ensures WorkerIndex(r, workerGuid).Some?
    ensures forall i :: 0 <= i < |r| && r[i].workerGuid == workerGuid ==> r[i].isResponsive
    ensures WorkerIndex(workers, workerGuid).None? ==> r[|workers|] == WorkerRow(workerGuid, true, now, client, now)
    ensures forall i :: 0 <= i < |workers| ==>
      && r[i].workerGuid == workers[i].workerGuid
      && r[i].lastKnownClientGuid == workers[i].lastKnownClientGuid
      && r[i].lastKnownDatetime == workers[i].lastKnownDatetime
    ensures forall i :: 0 <= i < |workers| && (workers[i].workerGuid != workerGuid || workers[i].isResponsive) ==> r[i] == workers[i]
    ensures forall i :: 0 <= i < |workers| && workers[i].workerGuid == workerGuid && !workers[i].isResponsive ==>
      r[i].responsiveUpdateDatetime == now
    ensures UniqueWorkerGuids(workers) ==> UniqueWorkerGuids(r)
  {
    var inserted := if WorkerIndex(workers, workerGuid).Some? then workers
                    else workers + [WorkerRow(workerGuid, true, now, client, now)];
    assert WorkerIndex(inserted, workerGuid).Some? by {
      if WorkerIndex(workers, workerGuid).None? {
        assert inserted[|workers|].workerGuid == workerGuid;
      }
    }
    var r := Revive(inserted, workerGuid, now);
    assert forall i :: 0 <= i < |inserted| ==> r[i].workerGuid == inserted[i].workerGuid;
    r
  }

  /** Announcing a worker that is already responsive changes nothing: the second call of
      a repeated announcement is a no-op. */
  lemma AnnounceIdempotent(workers: seq<WorkerRow>, workerGuid: Guid, client: RowId, now: Instant, client': RowId, later: Instant)
    ensures AnnounceWorker(AnnounceWorker(workers, workerGuid, client, now), workerGuid, client', later)
         == AnnounceWorker(workers, workerGuid, client, now)
  {
    var once := AnnounceWorker(workers, workerGuid, client, now);
    var twice := AnnounceWorker(once, workerGuid, client', later);
    assert |twice| == |once|;
    forall i | 0 <= i < |once| ensures twice[i] == once[i] {
      if once[i].workerGuid == workerGuid {
        assert once[i].isResponsive;
      }
    }
  }

  /** `set_dequeuer_unresponsive` / `set_reporter_unresponsive`: every row with the guid
      is marked unresponsive and restamped; an unknown guid changes nothing. */
  function SilenceWorker(workers: seq<WorkerRow>, workerGuid: Guid, now: Instant): (r: seq<WorkerRow>)
    ensures |r| == |workers|
    ensures forall i :: 0 <= i < |workers| && workers[i].workerGuid == workerGuid ==>
      r[i] == workers[i].(isResponsive := false, responsiveUpdateDatetime := now)
    ensures forall i :: 0 <= i < |workers| && workers[i].workerGuid != workerGuid ==> r[i] == workers[i]
    ensures WorkerIndex(workers, workerGuid).None? ==> r == workers
  {
    seq(|workers|, i requires 0 <= i < |workers| =>
      if workers[i].workerGuid == workerGuid
      then workers[i].(isResponsive := false, responsiveUpdateDatetime := now)
      else workers[i])
  }

  /** The `Dequeuer` / `Reporter` record the store hands back for a row. */
  function AsWorker(row: WorkerRow): Worker
  {
    Worker(row.workerGuid, row.isResponsive, row.responsiveUpdateDatetime)
  }

  /** `WHERE is_responsive = 1`, in row order. */
  function ResponsiveOf(workers: seq<WorkerRow>): (r: seq<Worker>)
    ensures |r| <= |workers|
    ensures forall k :: 0 <= k < |r| ==> r[k].isResponsive
  {
    if |workers| == 0 then []
    else
      var last := workers[|workers| - 1];
      ResponsiveOf(workers[..|workers| - 1]) + (if last.isResponsive then [AsWorker(last)] else [])
  }

  /** A worker is listed exactly when one of its rows is responsive. */
  lemma {:induction false} ResponsiveOfMembers(workers: seq<WorkerRow>, w: Worker)
    ensures w in ResponsiveOf(workers) <==>
      exists i :: 0 <= i < |workers| && workers[i].isResponsive && AsWorker(workers[i]) == w
  {
    if |workers| > 0 {
      var prefix := workers[..|workers| - 1];
      ResponsiveOfMembers(prefix, w);
      if w in ResponsiveOf(prefix) {
        var i :| 0 <= i < |prefix| && prefix[i].isResponsive && AsWorker(prefix[i]) == w;
        assert workers[i] == prefix[i];
      }
      if exists i :: 0 <= i < |workers| && workers[i].isResponsive && AsWorker(workers[i]) == w {
        var i :| 0 <= i < |workers| && workers[i].isResponsive && AsWorker(workers[i]) == w;
        if i < |prefix| {
          assert prefix[i] == workers[i];
        }
      }
    }
  }

  /** The guids of the listed workers. */
  function ListedGuids(listed: seq<Worker>): set<Guid>
  {
    set k | 0 <= k < |listed| :: listed[k].workerGuid
  }

  /** Liveness round trip: after an announcement the worker is listed as responsive, and
      after it is marked unresponsive it is not. */
  lemma AnnounceThenSilence(workers: seq<WorkerRow>, workerGuid: Guid, client: RowId, now: Instant, later: Instant)
    ensures workerGuid in ListedGuids(ResponsiveOf(AnnounceWorker(workers, workerGuid, client, now)))
    ensures workerGuid !in ListedGuids(ResponsiveOf(SilenceWorker(AnnounceWorker(workers, workerGuid, client, now), workerGuid, later)))
  {
    var announced := AnnounceWorker(workers, workerGuid, client, now);
    var i := WorkerIndex(announced, workerGuid).value;
    ResponsiveOfMembers(announced, AsWorker(announced[i]));
    var listed := ResponsiveOf(announced);
    var k :| 0 <= k < |listed| && listed[k] == AsWorker(announced[i]);
    assert listed[k].workerGuid == workerGuid;
    var silenced := SilenceWorker(announced, workerGuid, later);
    var quiet := ResponsiveOf(silenced);
    if workerGuid in ListedGuids(quiet) {
      var k' :| 0 <= k' < |quiet| && quiet[k'].workerGuid == workerGuid;
      ResponsiveOfMembers(silenced, quiet[k']);
      assert false;
    }
  }
}
