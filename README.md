# Transmission ledger of the wifi server, in Dafny

This project models the `Database` class of `wifi_server/app/database.py`. The class is an in-memory relational store that brokers point-to-point "transmissions" between devices. It has five parts:

- **Identity registry.** Clients by ip address, devices with their current client and purpose, and queues.
- **Delivery ledger.** Transmissions, the claims dequeuers take on them, and each claim's completion or failure.
- **Failure-report ledger.** The same protocol one level up. A reporter claims a failure and carries it back to the transmission's source device, which answers with or without a retry request. A report that cannot be delivered is recorded as a report error.
- **Retry state machine.** The three-valued `is_retry_ready` flag on transmissions and on failures.
- **Liveness registry.** Dequeuers and reporters, their responsive flag, and the listings built from these tables.

## How the model is built

- Every table is a `seq` of row records (`Rows`). The whole store is one `Store` value (`Store`).
- An identifier the store generates is the row's position in its table. An identifier the caller chooses (device, purpose, queue, dequeuer, reporter) is a string.
- Timestamps are instants of a logical clock. The clock advances by one for every operation that records an instant.
- Each public method of the source becomes a step function in `Operations`. The step takes the tables and the clock, and returns an `Outcome`: the new tables, the new clock and the result.
  - A statement that breaks a foreign key returns `Err(IntegrityError)` and leaves the tables unchanged. The source does not always recover this cleanly; see "Left out".
- Class `Ledger.Database` holds the tables and the clock as fields. Each of its methods performs one step and commits the outcome, and keeps `Valid()`.
  - `Valid()` is `Protocol.Consistent`. It covers referential integrity, clock stamping, per-destination and per-source ordering, and one open claim per dequeuer and per reporter.
  - The four listings are loops over the rows, proved against the functions that specify them.
- The SQL `WHERE` clauses of the two claim queries are predicates: `Delivery.Eligible` and `Reports.ReportEligible`.
  - `ORDER BY row_created_datetime LIMIT 1` is `Delivery.NextTransmission` / `Reports.NextFailure`.
  - `try_get_*_by_dequeuer` / `try_get_*_by_reporter` are `Delivery.OpenDequeue` / `Reports.OpenFailureDequeue`.

Where the old test file and the code disagree, the model follows the code:

- A second claim by a dequeuer that still holds an open claim hands back that same claim (`Operations.ClaimReturnsOpenClaim`). The old test expects nothing.
- `get_all_devices` also lists devices without a purpose (`Registry.AllDevices`).

## Model

| member | source | states |
|---|---|---|
| Registry.UpsertDevice | wifi_server/app/database.py:798-819 | one row per device guid: a new guid adds a row, a known one keeps its position and is overwritten with the latest purpose, client and instant; other rows are untouched; unique guids stay unique |
| Registry.UpsertLastWins | wifi_server/app/database.py:798-819 | announcing a device twice leaves the table as if only the second announcement had happened |
| Registry.AllDevices | wifi_server/app/database.py:1083-1098 | every device row is listed, purposeless ones included, with its guid and purpose, in row order |
| Registry.DevicesWithPurpose | wifi_server/app/database.py:1839-1857 | only devices whose purpose equals the (non-NULL) argument are listed, never more than there are rows |
| Registry.DevicesWithPurposeMembers | wifi_server/app/database.py:1839-1857 | a device is listed for a purpose if and only if some row carries that purpose |
| Registry.AnnounceWorker | wifi_server/app/database.py:910-929 | `INSERT OR IGNORE` then revive: a new worker gets a responsive row with the client and instant; a known worker keeps its client and first-seen instant; only an unresponsive row is restamped; afterwards every row of the guid is responsive; guids stay unique |
| Registry.AnnounceIdempotent | wifi_server/app/database.py:910-929 | announcing a worker again changes no row |
| Registry.SilenceWorker | wifi_server/app/database.py:1859-1892 | every row of the guid becomes unresponsive and is restamped; other rows and an unknown guid change nothing |
| Registry.ResponsiveOf | wifi_server/app/database.py:970-1012 | only responsive workers are listed |
| Registry.ResponsiveOfMembers | wifi_server/app/database.py:970-1012 | a worker is listed if and only if one of its rows is responsive |
| Registry.AnnounceThenSilence | wifi_server/app/database.py:901-1012 | after an announcement the worker is listed as responsive; after it is marked unresponsive it is not |
| Retry.UnblockTransmissions | wifi_server/app/database.py:821-830 | exactly the Blocked transmissions to the device change, and they become Ready; nothing but the flag changes |
| Retry.UnblockFailures | wifi_server/app/database.py:832-847 | exactly the Blocked failures whose transmission comes FROM the device change, and they become Ready; nothing but the flag changes |
| Retry.UnblockSettles | wifi_server/app/database.py:821-847 | after an announcement nothing addressed to the device is Blocked, and announcing again changes no flag |
| Delivery.NextTransmission | wifi_server/app/database.py:1284-1386 | the selected transmission is eligible (right queue, known destination, never claimed or Ready, waits on no earlier non-terminal transmission to its destination, dequeuer holds no open claim); nothing is selected if and only if nothing is eligible |
| Delivery.NextTransmissionEarliest | wifi_server/app/database.py:1383-1385 | the selected transmission is created no later than any other eligible one |
| Delivery.OpenDequeue | wifi_server/app/database.py:1180-1231 | the claim found belongs to the dequeuer and is open; none is found if and only if the dequeuer holds no open claim |
| Delivery.TerminalPersists | wifi_server/app/database.py:1320-1358 | completed and cancelled transmissions stay terminal as the history grows |
| Delivery.ClosedStaysClosed | wifi_server/app/database.py:1359-1382 | a completed or failed claim never reopens |
| Delivery.StillNotWaiting | wifi_server/app/database.py:1320-1358 | a transmission that waits on no earlier one keeps not waiting while later-stamped rows are added |
| Delivery.InOrderPreserved | wifi_server/app/database.py:1320-1358 | per-destination ordering (no claimed transmission has a strictly earlier non-terminal transmission to its destination) survives every growth that adds only claims allowed by the query |
| Delivery.ExclusivePreserved | wifi_server/app/database.py:1359-1382 | one open claim per dequeuer survives every growth that adds at most one claim, for a dequeuer without one |
| Reports.NextFailure | wifi_server/app/database.py:1627-1734 | the selected failure is eligible (its transmission is in the queue, source known, never report-claimed or Ready, no strictly earlier failure from the same source unreported, reporter holds no open report claim); nothing is selected if and only if nothing is eligible |
| Reports.NextFailureEarliest | wifi_server/app/database.py:1731-1733 | the selected failure's transmission is created no later than that of any other eligible failure |
| Reports.OpenFailureDequeue | wifi_server/app/database.py:1454-1518 | the report claim found belongs to the reporter and is open; none is found if and only if the reporter holds no open report claim |
| Reports.ReportedPersists | wifi_server/app/database.py:1668-1706 | a failure once answered by its source stays answered |
| Reports.ReportClosedStaysClosed | wifi_server/app/database.py:1707-1730 | a completed or errored report claim never reopens |
| Reports.SourcePersists | wifi_server/app/database.py:1668-1682 | the source device of a failure never changes |
| Reports.ReportStillNotWaiting | wifi_server/app/database.py:1668-1706 | a failure that waits on no earlier one keeps not waiting while later-stamped failures are added |
| Reports.ReportsInOrderPreserved | wifi_server/app/database.py:1668-1706 | per-source ordering of report claims survives every growth that adds only report claims allowed by the query |
| Reports.ReportersExclusivePreserved | wifi_server/app/database.py:1707-1730 | one open report claim per reporter survives every growth that adds at most one report claim, for a reporter without one |
| Protocol.ProtocolKept | wifi_server/app/database.py:1284-1386 | both orderings and both exclusivities survive any growth that stamps new rows with the clock and adds at most one allowed claim of each kind |
| Protocol.AddClientConsistent | wifi_server/app/database.py:538-545 | a new client with an unseen ip address keeps the store consistent |
| Protocol.UpsertDeviceConsistent | wifi_server/app/database.py:796-819 | an upserted device with a known client keeps the store consistent |
| Protocol.AddQueueConsistent | wifi_server/app/database.py:855-873 | a new queue with an unseen guid keeps the store consistent |
| Protocol.DequeuersChangedConsistent | wifi_server/app/database.py:901-941 | a dequeuer table that keeps every known guid in place, with unique guids and known clients, keeps the store consistent |
| Protocol.ReportersChangedConsistent | wifi_server/app/database.py:1014-1054 | the same for the reporter table |
| Protocol.RetagConsistent | wifi_server/app/database.py:821-847 | changing retry flags and nothing else keeps the store consistent |
| Protocol.AddTransmissionConsistent | wifi_server/app/database.py:1119-1146 | a new transmission whose references resolve, stamped with the clock, keeps the store consistent |
| Protocol.AddClaimConsistent | wifi_server/app/database.py:1284-1386 | a claim the delivery query allows keeps the store consistent |
| Protocol.AddCompleteConsistent | wifi_server/app/database.py:1409-1424 | a completion of an existing claim keeps the store consistent |
| Protocol.AddFailureConsistent | wifi_server/app/database.py:1426-1452 | a failure of an existing claim, stamped with the clock, keeps the store consistent |
| Protocol.AddReportClaimConsistent | wifi_server/app/database.py:1627-1734 | a report claim the report query allows keeps the store consistent |
| Protocol.AddReportCompleteConsistent | wifi_server/app/database.py:1758-1777 | an answer to an existing report claim keeps the store consistent |
| Protocol.AddReportErrorConsistent | wifi_server/app/database.py:1802-1821 | a report error of an existing report claim keeps the store consistent |
| Operations.InsertClient | wifi_server/app/database.py:745-777 | hands back the client of the ip address; a known address changes nothing and hands back its existing row, guid included; an unknown one appends one client with a fresh guid; only the client table changes |
| Operations.InsertClientIdempotent | wifi_server/app/database.py:745-777 | asking for the same ip address again creates nothing and hands back the same client |
| Operations.InsertDevice | wifi_server/app/database.py:796-850 | integrity error, with nothing changed, if and only if the client is unknown; otherwise the device table is `UpsertDevice` of the new row (so every other device row stays as it was), the device's row holds the new purpose, client and instant, only devices and retry flags change, and the device is handed back |
| Operations.InsertDeviceUnblocks | wifi_server/app/database.py:821-847 | exactly the Blocked transmissions TO the device and the Blocked failures FROM it become Ready; every other flag and column is unchanged |
| Operations.InsertDeviceOneRow | wifi_server/app/database.py:796-819 | with unique guids, a row is added only for a new device, and the device's only row holds the latest purpose, client and instant |
| Operations.InsertDeviceTwice | wifi_server/app/database.py:796-819 | a device announced twice holds what the second announcement said |
| Operations.InsertQueue | wifi_server/app/database.py:855-873 | a known queue changes nothing and its stored row, creation instant included, is handed back; an unknown one appends one row stamped with the clock |
| Operations.InsertQueueIdempotent | wifi_server/app/database.py:855-873 | asking for the same queue again creates nothing and hands back the same queue |
| Operations.InsertTransmission | wifi_server/app/database.py:1119-1146 | succeeds if and only if the queue, both devices and the client exist; appends exactly the new transmission, with no retry pending and stamped with the clock |
| Operations.GetNextTransmissionDequeue | wifi_server/app/database.py:1275-1407 | an integrity error, with nothing changed, happens if and only if a transmission is eligible and the dequeuer or the client is unknown |
| Operations.ClaimTakesEarliestEligible | wifi_server/app/database.py:1284-1390 | a dequeuer without an open claim gets the earliest eligible transmission, in a new claim that records its destination device's current client; it gets nothing if and only if nothing is eligible |
| Operations.ClaimOutcome | wifi_server/app/database.py:1284-1401 | the claim appends exactly one claim row and clears a Ready flag of the claimed transmission, hands back the transmission as read before the reset, and changes nothing when nothing is eligible |
| Operations.ClaimReturnsOpenClaim | wifi_server/app/database.py:1388-1401 | a dequeuer holding an open claim is handed back that claim, and no claim is added |
| Operations.NothingToClaim | wifi_server/app/database.py:1284-1390 | with nothing eligible and no open claim, the claim hands back nothing and changes nothing, even for an unknown dequeuer or client |
| Operations.TransmissionCompleted | wifi_server/app/database.py:1409-1424 | succeeds if and only if the claim and the client exist; only appends the completion |
| Operations.CompletionIsTerminal | wifi_server/app/database.py:1320-1358 | after a completion the claim is closed, its transmission is terminal, and, when the claim was open, its dequeuer holds no open claim afterwards |
| Operations.TransmissionFailed | wifi_server/app/database.py:1426-1452 | succeeds if and only if the claim and the client exist; only appends the failure, with no retry pending |
| Operations.FailureIsNotTerminal | wifi_server/app/database.py:1330-1356 | a failure closes the claim but no transmission becomes terminal |
| Operations.GetNextFailedTransmissionDequeue | wifi_server/app/database.py:1616-1756 | an integrity error, with nothing changed, happens if and only if a failure is eligible and the reporter or the client is unknown |
| Operations.ReportClaimTakesEarliestEligible | wifi_server/app/database.py:1627-1738 | a reporter without an open report claim gets the eligible failure whose transmission is earliest, in a new report claim that records its SOURCE device's current client; it gets nothing if and only if nothing is eligible |
| Operations.ReportClaimOutcome | wifi_server/app/database.py:1627-1750 | the report claim appends exactly one row and clears a Ready flag of the failure, hands back the failure and its transmission as read, and changes nothing when nothing is eligible |
| Operations.ReportClaimNotTerminal | wifi_server/app/database.py:1330-1356 | a report claim makes no transmission terminal and ends none |
| Operations.ReportClaimReturnsOpenClaim | wifi_server/app/database.py:1736-1750 | a reporter holding an open report claim is handed back that claim, and no report claim is added |
| Operations.NothingToReportClaim | wifi_server/app/database.py:1627-1738 | with nothing eligible and no open report claim, the report claim hands back nothing and changes nothing, even for an unknown reporter or client |
| Operations.FailedTransmissionCompleted | wifi_server/app/database.py:1758-1800 | succeeds if and only if the report claim and the client exist; appends the answer and changes nothing but the transmission flags |
| Operations.ReportCompletionSemantics | wifi_server/app/database.py:1778-1797 | the answer closes the report claim and marks the failure answered; with a retry request only the failed transmission's flag changes, to Blocked; without one no flag changes and the transmission is cancelled, which is terminal |
| Operations.RetryRequestNotTerminal | wifi_server/app/database.py:1330-1356 | a retry request makes no transmission terminal and ends none |
| Operations.DeclinedRetryNotReclaimed | wifi_server/app/database.py:1778-1797 | after a declined retry the transmission is terminal and no dequeuer can claim it, even after its destination announces itself again |
| Operations.FailedTransmissionFailed | wifi_server/app/database.py:1802-1836 | succeeds if and only if the report claim and the client exist; appends the report error and changes nothing but the failure flags |
| Operations.ReportErrorSemantics | wifi_server/app/database.py:1822-1834 | the report error closes the report claim; the failure table differs only in that failure's flag, now Blocked; whether any failure is answered does not change |
| Operations.ReportErrorNotTerminal | wifi_server/app/database.py:1330-1356 | a report error makes no transmission terminal and ends none |
| Operations.ReportErrorWaitsForSource | wifi_server/app/database.py:1822-1834 | after a report error no reporter may claim the failure, and the next announcement of its source device makes it Ready |
| Operations.RetryWaitsForDestination | wifi_server/app/database.py:1778-1797 | after a retry request no dequeuer may claim the transmission, and the next announcement of its destination device makes it Ready |
| Operations.RetryReclaimable | wifi_server/app/database.py:1284-1386 | after a retry request and the destination's next announcement, the transmission is eligible again for every dequeuer without an open claim: it is Ready, its destination is known and, having been claimed before, it waits on no earlier transmission |
| Operations.ReportRetriable | wifi_server/app/database.py:1627-1734 | after a report error and the source's next announcement, the failure is eligible again for every reporter without an open report claim: it is Ready, its source is known and, having been report-claimed before, it waits on no earlier failure |
| Operations.InsertDequeuer | wifi_server/app/database.py:901-941 | integrity error, with nothing changed, if and only if the dequeuer is new and the client unknown; otherwise the announcement is applied and the responsive dequeuer is handed back |
| Operations.InsertReporter | wifi_server/app/database.py:1014-1054 | the same for reporters |
| Operations.InsertDequeuerIdempotent | wifi_server/app/database.py:910-929 | a second announcement of a dequeuer changes no row and hands back the same record |
| Operations.InsertReporterIdempotent | wifi_server/app/database.py:1023-1042 | a second announcement of a reporter changes no row and hands back the same record |
| Operations.SetDequeuerUnresponsive | wifi_server/app/database.py:1859-1871 | only the dequeuer table changes, by silencing the guid |
| Operations.SetReporterUnresponsive | wifi_server/app/database.py:1873-1892 | only the reporter table changes, by silencing the guid |
| Operations.DequeuerLiveness | wifi_server/app/database.py:901-990 | an announced dequeuer is listed as responsive until it is marked unresponsive |
| Operations.ReporterLiveness | wifi_server/app/database.py:992-1054 | an announced reporter is listed as responsive until it is marked unresponsive |
| Operations.InsertClientConsistent | wifi_server/app/database.py:745-777 | `insert_client` keeps the store consistent |
| Operations.InsertDeviceConsistent | wifi_server/app/database.py:796-850 | `insert_device` keeps the store consistent |
| Operations.InsertQueueConsistent | wifi_server/app/database.py:855-873 | `insert_queue` keeps the store consistent |
| Operations.InsertTransmissionConsistent | wifi_server/app/database.py:1119-1146 | `insert_transmission` keeps the store consistent |
| Operations.GetNextTransmissionDequeueConsistent | wifi_server/app/database.py:1275-1407 | the claim keeps the store consistent: in particular the orderings and one open claim per dequeuer |
| Operations.TransmissionCompletedConsistent | wifi_server/app/database.py:1409-1424 | `transmission_completed` keeps the store consistent |
| Operations.TransmissionFailedConsistent | wifi_server/app/database.py:1426-1452 | `transmission_failed` keeps the store consistent |
| Operations.GetNextFailedTransmissionDequeueConsistent | wifi_server/app/database.py:1616-1756 | the report claim keeps the store consistent: in particular the orderings and one open report claim per reporter |
| Operations.FailedTransmissionCompletedConsistent | wifi_server/app/database.py:1758-1800 | `failed_transmission_completed` keeps the store consistent |
| Operations.FailedTransmissionFailedConsistent | wifi_server/app/database.py:1802-1836 | `failed_transmission_failed` keeps the store consistent |
| Operations.InsertDequeuerConsistent | wifi_server/app/database.py:901-941 | `insert_dequeuer` keeps the store consistent |
| Operations.InsertReporterConsistent | wifi_server/app/database.py:1014-1054 | `insert_reporter` keeps the store consistent |
| Operations.SetDequeuerUnresponsiveConsistent | wifi_server/app/database.py:1859-1871 | `set_dequeuer_unresponsive` keeps the store consistent |
| Operations.SetReporterUnresponsiveConsistent | wifi_server/app/database.py:1873-1892 | `set_reporter_unresponsive` keeps the store consistent |
| Ledger.Database.constructor | wifi_server/app/database.py:513-740 | a new store has every table empty and is consistent |
| Ledger.Database.InsertClient | wifi_server/app/database.py:745-777 | the new tables, clock and result are those of `Operations.InsertClient`, and the store stays consistent |
| Ledger.Database.InsertDevice | wifi_server/app/database.py:796-850 | the same for `Operations.InsertDevice` |
| Ledger.Database.InsertQueue | wifi_server/app/database.py:855-873 | the same for `Operations.InsertQueue` |
| Ledger.Database.InsertTransmission | wifi_server/app/database.py:1119-1146 | the same for `Operations.InsertTransmission` |
| Ledger.Database.GetNextTransmissionDequeue | wifi_server/app/database.py:1275-1407 | the same for `Operations.GetNextTransmissionDequeue` |
| Ledger.Database.TransmissionCompleted | wifi_server/app/database.py:1409-1424 | the same for `Operations.TransmissionCompleted` |
| Ledger.Database.TransmissionFailed | wifi_server/app/database.py:1426-1452 | the same for `Operations.TransmissionFailed` |
| Ledger.Database.GetNextFailedTransmissionDequeue | wifi_server/app/database.py:1616-1756 | the same for `Operations.GetNextFailedTransmissionDequeue` |
| Ledger.Database.FailedTransmissionCompleted | wifi_server/app/database.py:1758-1800 | the same for `Operations.FailedTransmissionCompleted` |
| Ledger.Database.FailedTransmissionFailed | wifi_server/app/database.py:1802-1836 | the same for `Operations.FailedTransmissionFailed` |
| Ledger.Database.InsertDequeuer | wifi_server/app/database.py:901-941 | the same for `Operations.InsertDequeuer` |
| Ledger.Database.InsertReporter | wifi_server/app/database.py:1014-1054 | the same for `Operations.InsertReporter` |
| Ledger.Database.SetDequeuerUnresponsive | wifi_server/app/database.py:1859-1871 | the same for `Operations.SetDequeuerUnresponsive` |
| Ledger.Database.SetReporterUnresponsive | wifi_server/app/database.py:1873-1892 | the same for `Operations.SetReporterUnresponsive` |
| Ledger.Database.GetAllResponsiveDequeuers | wifi_server/app/database.py:970-990 | the loop lists exactly `ResponsiveOf` of the dequeuer rows |
| Ledger.Database.GetAllResponsiveReporters | wifi_server/app/database.py:992-1012 | the loop lists exactly `ResponsiveOf` of the reporter rows |
| Ledger.Database.GetAllDevices | wifi_server/app/database.py:1083-1098 | the loop lists exactly `AllDevices` of the device rows |
| Ledger.Database.GetDevicesByPurpose | wifi_server/app/database.py:1839-1857 | the loop lists exactly `DevicesWithPurpose` of the device rows |
| Ledger.ResponsiveRows | wifi_server/app/database.py:970-990 | the loop over worker rows keeps exactly the responsive ones, in row order |

## Left out

- The `api_entrypoint` and `api_entrypoint_log` tables, `insert_api_entrypoint_log` and `get_api_entrypoint_logs` (wifi_server/app/database.py:779-794, 1894-1917). They are request logging filtered by wall-clock ranges, outside the ledger.
- The wall clock (`datetime.utcnow()`). It is replaced by a logical clock that ticks once per operation that records an instant. So the instants one operation records are equal, and instants of different operations are strictly ordered.
- `uuid.uuid4()`. A generated identifier is the row's position in its table, which is fresh and distinct.
- Cursors, `PRAGMA`, `BEGIN`/`COMMIT`, the connection and `dispose`. Each public method is one step, and concurrent callers are not modelled.
- What a foreign-key error does to the connection after it. The connection runs in autocommit mode (wifi_server/app/database.py:516-517), and nothing catches the error or rolls back. Six methods run `BEGIN` before the statement that can raise: `insert_dequeuer`, `insert_reporter`, `get_next_transmission_dequeue`, `get_next_failed_transmission_dequeue`, `failed_transmission_completed` and `failed_transmission_failed` (wifi_server/app/database.py:907-932, 1020-1045, 1281-1404, 1623-1753, 1764-1799, 1808-1836). When one of them raises, its transaction stays open and COMMIT is never reached. From then on every call that runs `BEGIN` fails: these six methods and `set_reporter_unresponsive` (wifi_server/app/database.py:1880). The model returns `Err(IntegrityError)` and leaves a store that keeps working, so it does not capture this wedged state. The failed statement itself changes no rows, which the model does capture.
- `parse_row`, `to_json` and date formatting. These are serialisation glue; rows are plain values.
- The single-row getters (`get_queue`, `get_device`, `try_get_client`, `try_get_dequeuer`, `try_get_reporter`, `try_get_transmission`, and the `try_get_*` by guid). They are folded into the index lookups of `Store`. The two lookups by worker are modelled as `Delivery.OpenDequeue` and `Reports.OpenFailureDequeue`.
- The exceptions raised when a worker holds more than one open claim (wifi_server/app/database.py:1208-1211 and the reporter mirror). Under `DequeuersExclusive` and `ReportersExclusive`, which every operation keeps, they cannot happen.
- Ties on `row_created_datetime` in the two `ORDER BY ... LIMIT 1`. SQLite leaves the order unspecified; the model takes the first row in table order. Delivery ties cannot happen, because every transmission gets its own instant. Two failures of one transmission do tie in the report query.
- The device table's `row_created_datetime` column. No statement of the class writes it.
- Operations.DeclinedRetryNotReclaimed: requires that the declined transmission's flag is NULL, as it is after the claim that led to the failure. The source lets a declined transmission come back in two ways, and the lemma covers neither. (1) An answer to a report claim that was already answered. (2) `transmission_failed` checks only its two foreign keys (wifi_server/app/database.py:1426-1443), so a second failure can be filed on the claim that already failed. That failure has never been report-claimed and its predecessor is answered, so a reporter can claim it. A retry answer then blocks the transmission, the destination's next announcement makes it Ready, and the cancelled transmission can be claimed again.
- The old test file (components/wifi_server/app_test/test_database.py). It drives an older signature, so its scenarios are reflected only through the properties above.
