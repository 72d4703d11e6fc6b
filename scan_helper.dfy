/**
 * ScanHelper: one low-power BLE scan at a time, filtered on the sample's
 * service, stopped by a posted timeout.
 *
 * The ScanCallback object of the running scan is what `scanCallback`
 * holds; the model numbers those objects (`session`), so that the
 * scanner's start and stop calls can be matched. Whether
 * `bluetoothLeScanner` is null (it is while the adapter is off) is a
 * parameter of each call that uses it.
 */
module Scanning {
  import opened Logging
  import opened Ble
  import Utf8

  /** The identity a scan result carries: its SERVICE_DATA_UUID bytes decoded as UTF-8, unless missing or empty. */
  function ScanResultId(serviceData: Option<Bytes>): (r: Option<string>)
    ensures r.Some? <==> serviceData.Some? && serviceData.value != []
    ensures r.Some? ==> r.value == Utf8.Decode(serviceData.value) && r.value != []
  {
    match serviceData
    case None => None
    case Some(b) => if Utf8.Decode(b) == [] then None else Some(Utf8.Decode(b))
  }

  /** A peer that advertises its identity as UTF-8 service data is reported with exactly that identity. */
  lemma {:induction false} AdvertisedIdRecovered(id: string)
    requires id != []
    ensures ScanResultId(Some(Utf8.Encode(id))) == Some(id)
  {
    Utf8.DecodeEncode(id);
  }

  /** What `stopScan()` emits: nothing without a running scan; otherwise the scanner's stop call when there is a scanner, then the log line. */
  function StopEffects(session: Option<nat>, scannerPresent: bool): (fx: seq<Effect>)
    ensures session.None? <==> fx == []
    ensures session.Some? ==> fx[|fx| - 1] == Log(DEBUG)
  {
    match session
    case None => []
    case Some(n) => (if scannerPresent then [ScannerStop(n)] else []) + [Log(DEBUG)]
  }

  /**
   * What `startScan(durationMs)` emits, given the scan running before and the
   * number of the new callback: it stops the running scan (if any) before it
   * starts the new one, starts the new one only when there is a scanner, and
   * posts exactly one timeout, last.
   */
  function StartEffects(running: Option<nat>, newSession: nat, scannerPresent: bool, durationMs: int): (fx: seq<Effect>)
    ensures fx != [] && fx[|fx| - 1] == PostScanTimeout(durationMs)
    ensures ScannerStart(newSession, ServiceUuid, SCAN_MODE_LOW_POWER) in fx <==> scannerPresent
    ensures forall n: nat :: ScannerStop(n) in fx <==> running == Some(n) && scannerPresent
    ensures forall i :: 0 <= i < |fx| - 1 ==> !fx[i].PostScanTimeout?
    ensures forall i, j :: 0 <= i < j < |fx| && fx[i].ScannerStart? && fx[j].ScannerStop? ==> false
  {
    StopEffects(running, scannerPresent) + [Log(DEBUG)]
    + (if scannerPresent then [ScannerStart(newSession, ServiceUuid, SCAN_MODE_LOW_POWER)] else [])
    + [PostScanTimeout(durationMs)]
  }

  /** A stop reaches the scanner exactly for the running scan, and only when there is a scanner. */
  lemma {:induction false} StopEffectsStopRunning(session: Option<nat>, scannerPresent: bool, n: nat)
    ensures ScannerStop(n) in StopEffects(session, scannerPresent) <==> session == Some(n) && scannerPresent
  {
  }

  class ScanHelper {
    /** `scanCallback`: the running scan, if any. */
    var session: Option<nat>
    /** The number the next ScanCallback object gets. */
    var nextSession: nat
    /** Posted `stopScan()` runs not yet fired. */
    var pendingTimeouts: nat

    ghost predicate Valid()
      reads this
    {
      session.Some? ==> session.value < nextSession
    }

    constructor()
      ensures session == None && nextSession == 0 && pendingTimeouts == 0 && Valid()
    {
      session := None;
      nextSession := 0;
      pendingTimeouts := 0;
    }

    /**
     * `startScan(durationMs)`: stops a running scan first, starts a new one
     * under a fresh callback and posts its timeout.
     */
    method StartScan(durationMs: int, scannerPresent: bool) returns (fx: seq<Effect>)
      requires Valid()
      modifies this
      ensures Valid()
      ensures session == Some(old(nextSession)) && nextSession == old(nextSession) + 1
      ensures pendingTimeouts == old(pendingTimeouts) + 1
      ensures fx == StartEffects(old(session), old(nextSession), scannerPresent, durationMs)
    {
      fx := StopScan(scannerPresent);
      session := Some(nextSession);
      nextSession := nextSession + 1;
      fx := fx + [Log(DEBUG)];
      if scannerPresent {
        fx := fx + [ScannerStart(session.value, ServiceUuid, SCAN_MODE_LOW_POWER)];
      }
      fx := fx + [PostScanTimeout(durationMs)];
      pendingTimeouts := pendingTimeouts + 1;
    }

    /** `stopScan()`: ends the running scan, if any. */
    method StopScan(scannerPresent: bool) returns (fx: seq<Effect>)
      requires Valid()
      modifies this
      ensures Valid() && session == None
      ensures nextSession == old(nextSession) && pendingTimeouts == old(pendingTimeouts)
      ensures fx == StopEffects(old(session), scannerPresent)
    {
      fx := StopEffects(session, scannerPresent);
      session := None;
    }

    /**
     * A posted timeout fires. The posted lambda calls `stopScan()`, which
     * stops whatever scan is running now, not the scan that posted it.
     */
    method FireTimeout(scannerPresent: bool) returns (fx: seq<Effect>)
      requires Valid() && pendingTimeouts > 0
      modifies this
      ensures Valid() && session == None
      ensures nextSession == old(nextSession) && pendingTimeouts == old(pendingTimeouts) - 1
      ensures fx == StopEffects(old(session), scannerPresent)
    {
      fx := StopScan(scannerPresent);
      pendingTimeouts := pendingTimeouts - 1;
    }

    /** `onScanFailed`: reported as an error and nothing else. */
    method OnScanFailed(errorCode: int) returns (fx: seq<Effect>)
      ensures fx == [Log(ERROR)]
    {
      fx := [Log(ERROR)];
    }
  }

  /** Stopping twice is harmless: the second stop finds no scan and emits nothing. */
  method StopScanIdempotent(h: ScanHelper, scannerPresent: bool) returns (first: seq<Effect>, second: seq<Effect>)
    requires h.Valid()
    modifies h
    ensures second == [] && h.session == None
    ensures first == StopEffects(old(h.session), scannerPresent)
  {
    first := h.StopScan(scannerPresent);
    second := h.StopScan(scannerPresent);
  }

  /**
   * Two scans started back to back: the first scan's timeout, which is still
   * posted, ends the second scan when it fires, before the second scan's own
   * timeout is due.
   */
  method StaleTimeoutEndsNewerScan(h: ScanHelper) returns (fx: seq<Effect>)
    requires h.Valid() && h.pendingTimeouts == 0
    modifies h
    ensures h.session == None && h.pendingTimeouts == 1
    ensures fx == [ScannerStop(old(h.nextSession) + 1), Log(DEBUG)]
  {
    var _ := h.StartScan(5000, true);
    var second := h.StartScan(5000, true);
    fx := h.FireTimeout(true);
  }
}
