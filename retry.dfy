/**
  The retry state machine.  `is_retry_ready` is NULL (NoRetry), 0 (Blocked) or
  1 (Ready), on transmissions and on failures alike.  A device announcement is the
  only event that lifts Blocked to Ready (wifi_server/app/database.py:821-847);
  the claims clear Ready, and the report operations set Blocked.
 */
module Retry {
  import opened Rows
  import opened Store
  import opened Reports

  /** A claim consumes a pending retry: `is_retry_ready` goes from 1 back to NULL, and any
      other value stays. */
  function Consumed(flag: RetryState): RetryState
  {
    if flag == Ready then NoRetry else flag
  }

  /** The transmission rows after `UPDATE transmission SET is_retry_ready = 1 WHERE
      is_retry_ready = 0 AND destination_device_guid = ?`. */
  function UnblockTransmissions(ts: seq<Transmission>, device: Guid): (r: seq<Transmission>)
    ensures |r| == |ts|
    ensures forall i :: 0 <= i < |ts| ==> SameTransmission(ts[i], r[i])
    ensures forall i :: 0 <= i < |ts| ==>
      (r[i].isRetryReady != ts[i].isRetryReady <==> ts[i].destinationDeviceGuid == device && ts[i].isRetryReady == Blocked)
    ensures forall i :: 0 <= i < |ts| && r[i].isRetryReady != ts[i].isRetryReady ==> r[i].isRetryReady == Ready
  {
    seq(|ts|, i requires 0 <= i < |ts| =>
      if ts[i].destinationDeviceGuid == device && ts[i].isRetryReady == Blocked
      then ts[i].(isRetryReady := Ready)
      else ts[i])
  }

  /** The failure rows after the second UPDATE of the announcement: every Blocked failure
      of a transmission whose SOURCE is the announcing device becomes Ready. */
  function UnblockFailures(s: Store, device: Guid): (r: seq<FailedTransmission>)
    ensures |r| == |s.failures|
    ensures forall f :: 0 <= f < |s.failures| ==> SameFailure(s.failures[f], r[f])
    ensures forall f :: 0 <= f < |s.failures| ==>
      (r[f].isRetryReady != s.failures[f].isRetryReady <==> SourceOf(s, f) == Some(device) && s.failures[f].isRetryReady == Blocked)
    ensures forall f :: 0 <= f < |s.failures| && r[f].isRetryReady != s.failures[f].isRetryReady ==> r[f].isRetryReady == Ready
  {
    seq(|s.failures|, f requires 0 <= f < |s.failures| =>
      if SourceOf(s, f) == Some(device) && s.failures[f].isRetryReady == Blocked
      then s.failures[f].(isRetryReady := Ready)
      else s.failures[f])
  }

  /** After an announcement nothing addressed to the device is still blocked, and
      announcing again changes no flag. */
  lemma {:induction false} UnblockSettles(ts: seq<Transmission>, device: Guid)
    ensures forall i :: 0 <= i < |ts| && ts[i].destinationDeviceGuid == device ==>
      UnblockTransmissions(ts, device)[i].isRetryReady != Blocked
    ensures UnblockTransmissions(UnblockTransmissions(ts, device), device) == UnblockTransmissions(ts, device)
  {
    var once := UnblockTransmissions(ts, device);
    var twice := UnblockTransmissions(once, device);
    assert |twice| == |once|;
    forall i | 0 <= i < |once| ensures twice[i] == once[i] {
      assert SameTransmission(ts[i], once[i]);
    }
  }
}
