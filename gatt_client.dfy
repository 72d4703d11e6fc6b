/**
 * GattClientManager: the central role. It scans for peers advertising the
 * sample's service, connects (automatically to a peer it remembers),
 * subscribes to the peer's notify characteristic and exchanges text
 * messages over two characteristics.
 *
 * The manager is a state machine over its fields; every callback of the
 * platform is a method here, and every platform query it makes is a
 * parameter:
 *   - `adapterEnabled`: BluetoothAdapter.isEnabled;
 *   - `linkUp`: getConnectionState(bluetoothGatt.device) == STATE_CONNECTED;
 *   - `scannerPresent`: bluetoothLeScanner != null;
 *   - `services`: what getService / getCharacteristic find on the GATT handle;
 *   - `closeThrows`, `notifyAccepted`, `writeAccepted`: outcomes of radio calls;
 *   - `now`: System.nanoTime.
 */
module GattClient {
  import opened Logging
  import opened Ble
  import Utf8
  import RecentDevices
  import opened ReconnectLoop
  import opened Scanning

  /** The reconnect loop's interval. */
  const RECONNECT_INTERVAL_MS: int := 25000
  /** The length of each reconnect scan. */
  const RECONNECT_SCAN_MS: int := 5000
  /** The delay between `sendMessage` and the characteristic write. */
  const WRITE_DELAY_MS: int := 500

  /** `gatt.close()`, reporting an exception as an error line. */
  function CloseEffects(handle: nat, closeThrows: bool): (fx: seq<Effect>)
    ensures fx != [] && fx[0] == CloseGatt(handle)
    ensures closeThrows <==> Log(ERROR) in fx
  {
    [CloseGatt(handle)] + (if closeThrows then [Log(ERROR)] else [])
  }

  /** The notify characteristic can deliver notifications: its NOTIFY property bit is set. */
  function Notifiable(c: Characteristic): (b: bool)
    ensures b <==> c.properties & PROPERTY_NOTIFY == PROPERTY_NOTIFY
  {
    c.properties & PROPERTY_NOTIFY != 0
  }

  /**
   * Everything discovery needs before the notification descriptor is
   * written: success, the service, both characteristics, the notify
   * property and the descriptor.
   */
  function ReadyToSubscribe(status: int, services: seq<Service>): (b: bool)
    ensures b <==>
      && status == GATT_SUCCESS && FindService(services, ServiceUuid).Some?
      && var s := FindService(services, ServiceUuid).value;
         && FindCharacteristic(s, WriteCharUuid).Some?
         && FindCharacteristic(s, NotifyCharUuid).Some?
         && Notifiable(FindCharacteristic(s, NotifyCharUuid).value)
         && CccdUuid in FindCharacteristic(s, NotifyCharUuid).value.descriptors
  {
    && status == GATT_SUCCESS
    && Lookup(services, ServiceUuid, WriteCharUuid).Some?
    && Lookup(services, ServiceUuid, NotifyCharUuid).Some?
    && Notifiable(Lookup(services, ServiceUuid, NotifyCharUuid).value)
    && CccdUuid in Lookup(services, ServiceUuid, NotifyCharUuid).value.descriptors
  }

  /**
   * The tail of discovery once the notify characteristic is known to be
   * notifiable: enable local delivery, then write ENABLE to its CCCD if the
   * descriptor is there.
   */
  function Subscribe(handle: nat, notifyChar: Characteristic, notifyAccepted: bool, writeAccepted: bool): (fx: seq<Effect>)
    ensures SetCharacteristicNotification(handle, NotifyCharUuid, true) in fx
    ensures WriteDescriptor(handle, CccdUuid, ENABLE_NOTIFICATION_VALUE) in fx <==> CccdUuid in notifyChar.descriptors
    ensures Log(ERROR) in fx <==> CccdUuid !in notifyChar.descriptors
    ensures forall e :: e in fx && e.WriteDescriptor? ==> e == WriteDescriptor(handle, CccdUuid, ENABLE_NOTIFICATION_VALUE)
    ensures forall e :: e in fx && e.SetCharacteristicNotification? ==> e == SetCharacteristicNotification(handle, NotifyCharUuid, true)
    ensures OnConnected !in fx
  {
    var subscribe := SetCharacteristicNotification(handle, NotifyCharUuid, true);
    var subscribed := Log(if notifyAccepted then DEBUG else WARN);
    if CccdUuid !in notifyChar.descriptors then
      [Log(DEBUG), Log(DEBUG), subscribe, subscribed, Log(ERROR)]
    else
      [Log(DEBUG), Log(DEBUG), subscribe, subscribed,
       WriteDescriptor(handle, CccdUuid, ENABLE_NOTIFICATION_VALUE),
       Log(if writeAccepted then DEBUG else WARN)]
  }

  class GattClientManager {
    /** `bluetoothGatt`: the connection slot. */
    var gatt: Option<Gatt>
    var connectionStartTime: int
    /** `currentUniqueDeviceID`; a `lateinit` property, None until first assigned. */
    var currentId: Option<string>
    /** The preference "recent_devices_map". */
    var recent: RecentDevices.Directory<string, string>
    /** How many handles connectGatt has returned; the next one gets this number. */
    var nextHandle: nat
    /** `value` and `writeType` of the write characteristic object. */
    var writeValue: Bytes
    var writeType: int
    /** Writes posted by `sendMessage` and not yet run. */
    var pendingWrites: nat
    /** `reconnectManager`, whose action is `tryReconnect`. */
    const loop: ReconnectLoopManager
    const scan: ScanHelper

    ghost predicate Valid()
      reads this, loop, scan
    {
      && loop.Valid() && scan.Valid()
      && RecentDevices.Stored(recent)
      && (gatt.Some? ==> gatt.value.handle < nextHandle)
      && (nextHandle > 0 ==> currentId.Some?)
    }

    /** A handle this manager obtained from connectGatt; only those get callbacks. */
    ghost predicate Issued(g: Gatt)
      reads this
    {
      g.handle < nextHandle
    }

    ghost predicate IsConnected(linkUp: bool)
      reads this
    {
      gatt.Some? && linkUp
    }

    constructor(stored: RecentDevices.Directory<string, string>)
      requires RecentDevices.Stored(stored)
      ensures Valid() && fresh(loop) && fresh(scan)
      ensures gatt == None && currentId == None && recent == stored
      ensures nextHandle == 0 && pendingWrites == 0
      ensures loop.pending == 0 && loop.intervalMs == RECONNECT_INTERVAL_MS
      ensures scan.session == None && scan.pendingTimeouts == 0
    {
      gatt := None;
      connectionStartTime := 0;
      currentId := None;
      recent := stored;
      nextHandle := 0;
      writeValue := [];
      writeType := WRITE_TYPE_DEFAULT;
      pendingWrites := 0;
      loop := new ReconnectLoopManager(RECONNECT_INTERVAL_MS);
      scan := new ScanHelper();
    }

    /**
     * `connect(device, deviceUniqueID)`: nothing when the adapter is off or
     * a connection is up; otherwise records the id and fills the slot with
     * a fresh handle. A pending attempt in the slot is replaced, not closed.
     */
    method Connect(device: Device, id: string, adapterEnabled: bool, linkUp: bool, now: int)
      returns (fx: seq<Effect>)
      requires Valid()
      modifies this
      ensures Valid()
      ensures recent == old(recent) && pendingWrites == old(pendingWrites)
      ensures writeValue == old(writeValue) && writeType == old(writeType)
      ensures !adapterEnabled || old(IsConnected(linkUp)) ==>
        fx == [] && gatt == old(gatt) && currentId == old(currentId)
        && nextHandle == old(nextHandle) && connectionStartTime == old(connectionStartTime)
      ensures adapterEnabled && !old(IsConnected(linkUp)) ==>
        && currentId == Some(id)
        && gatt == Some(Gatt(old(nextHandle), device)) && nextHandle == old(nextHandle) + 1
        && connectionStartTime == now
        && fx == [Log(INFO), ConnectGatt(device, old(nextHandle))]
    {
      if !adapterEnabled || (gatt.Some? && linkUp) {
        return [];
      }
      currentId := Some(id);
      fx := [Log(INFO), ConnectGatt(device, nextHandle)];
      gatt := Some(Gatt(nextHandle, device));
      nextHandle := nextHandle + 1;
      connectionStartTime := now;
    }

    /** `tryReconnect()`: one 5000 ms scan, unless the adapter is off or a connection is up. */
    method TryReconnect(adapterEnabled: bool, linkUp: bool, scannerPresent: bool)
      returns (fx: seq<Effect>)
      requires Valid()
      modifies scan
      ensures Valid()
      ensures !adapterEnabled || IsConnected(linkUp) ==>
        fx == [] && scan.session == old(scan.session)
        && scan.nextSession == old(scan.nextSession) && scan.pendingTimeouts == old(scan.pendingTimeouts)
      ensures adapterEnabled && !IsConnected(linkUp) ==>
        && scan.session == Some(old(scan.nextSession)) && scan.nextSession == old(scan.nextSession) + 1
        && scan.pendingTimeouts == old(scan.pendingTimeouts) + 1
        && fx == [Log(INFO)] + StartEffects(old(scan.session), old(scan.nextSession), scannerPresent, RECONNECT_SCAN_MS)
    {
      if !adapterEnabled || (gatt.Some? && linkUp) {
        return [];
      }
      var started := scan.StartScan(RECONNECT_SCAN_MS, scannerPresent);
      fx := [Log(INFO)] + started;
    }

    /** `startScanning()`: starts the reconnect loop, which runs `tryReconnect` at once. */
    method StartScanning(adapterEnabled: bool, linkUp: bool, scannerPresent: bool)
      returns (fx: seq<Effect>)
      requires Valid()
      modifies loop, scan
      ensures Valid()
      ensures loop.pending == old(loop.pending) + 1 && loop.events == old(loop.events) + [LoopEvent.Start]
      ensures adapterEnabled && !IsConnected(linkUp) ==>
        && scan.session == Some(old(scan.nextSession))
        && scan.nextSession == old(scan.nextSession) + 1 && scan.pendingTimeouts == old(scan.pendingTimeouts) + 1
        && fx == [Log(INFO)] + StartEffects(old(scan.session), old(scan.nextSession), scannerPresent, RECONNECT_SCAN_MS)
      ensures !adapterEnabled || IsConnected(linkUp) ==>
        fx == [] && scan.session == old(scan.session)
        && scan.nextSession == old(scan.nextSession) && scan.pendingTimeouts == old(scan.pendingTimeouts)
    {
      loop.Start();
      fx := TryReconnect(adapterEnabled, linkUp, scannerPresent);
    }

    /** A posted run of the reconnect loop fires: `tryReconnect` again, and the run re-posts itself. */
    method OnReconnectTick(adapterEnabled: bool, linkUp: bool, scannerPresent: bool)
      returns (fx: seq<Effect>)
      requires Valid() && loop.pending > 0
      modifies loop, scan
      ensures Valid()
      ensures loop.pending == old(loop.pending) && loop.events == old(loop.events) + [LoopEvent.Fire]
      ensures adapterEnabled && !IsConnected(linkUp) ==>
        && scan.session == Some(old(scan.nextSession))
        && scan.nextSession == old(scan.nextSession) + 1 && scan.pendingTimeouts == old(scan.pendingTimeouts) + 1
        && fx == [Log(INFO)] + StartEffects(old(scan.session), old(scan.nextSession), scannerPresent, RECONNECT_SCAN_MS)
      ensures !adapterEnabled || IsConnected(linkUp) ==>
        fx == [] && scan.session == old(scan.session)
        && scan.nextSession == old(scan.nextSession) && scan.pendingTimeouts == old(scan.pendingTimeouts)
    {
      loop.Fire();
      fx := TryReconnect(adapterEnabled, linkUp, scannerPresent);
    }

    /** `saveRecentDevice(uniqueId, address)`: upsert, then keep the newest five. */
    method SaveRecentDevice(id: string, address: string)
      requires Valid()
      modifies this
      ensures Valid()
      ensures recent == RecentDevices.Save(old(recent), id, address)
      ensures gatt == old(gatt) && currentId == old(currentId) && nextHandle == old(nextHandle)
      ensures connectionStartTime == old(connectionStartTime) && pendingWrites == old(pendingWrites)
      ensures writeValue == old(writeValue) && writeType == old(writeType)
      ensures RecentDevices.Lookup(recent, id) == Some(address) && |recent| <= RecentDevices.CAPACITY
    {
      RecentDevices.SaveProperties(recent, id, address);
      recent := RecentDevices.Save(recent, id, address);
    }

    /** `getRecentDevices()`: the remembered ids, in the order of the map, oldest first. */
    function GetRecentDevices(): (ids: seq<string>)
      reads this, loop, scan
      requires Valid()
      ensures |ids| == |recent| <= RecentDevices.CAPACITY && Distinct(ids)
      ensures forall i :: 0 <= i < |ids| ==> ids[i] == recent[i].id
      ensures forall id :: id in ids <==> GetMacForUniqueId(id).Some?
    {
      RecentDevices.ValidKeys(recent);
      RecentDevices.KeysInOrder(recent);
      RecentDevices.Keys(recent)
    }

    /** `getMacForUniqueId(uniqueId)`: the address remembered for a peer id, if any. */
    function GetMacForUniqueId(id: string): (mac: Option<string>)
      reads this
      ensures mac.Some? <==> id in RecentDevices.Keys(recent)
      ensures mac.Some? ==> RecentDevices.Entry(id, mac.value) in recent
    {
      RecentDevices.Lookup(recent, id)
    }

    /** `clearRecentDevices()` */
    method ClearRecentDevices()
      requires Valid()
      modifies this
      ensures Valid() && recent == []
      ensures gatt == old(gatt) && currentId == old(currentId) && nextHandle == old(nextHandle)
      ensures connectionStartTime == old(connectionStartTime) && pendingWrites == old(pendingWrites)
      ensures writeValue == old(writeValue) && writeType == old(writeType)
      ensures forall id :: GetMacForUniqueId(id) == None
    {
      recent := [];
    }

    /**
     * `onConnectionStateChange(gatt, status, newState)`.
     *   - A non-success status closes the handle, empties the slot and starts
     *     the reconnect loop.
     *   - STATE_CONNECTED puts the handle in the slot, stops the loop,
     *     remembers (currentUniqueDeviceID, address) and discovers services.
     *   - STATE_DISCONNECTED closes the handle, empties the slot, resets the
     *     start time and starts the reconnect loop.
     *   - Any other state is only logged.
     */
    method OnConnectionStateChange(g: Gatt, status: int, newState: int, closeThrows: bool,
                                   adapterEnabled: bool, scannerPresent: bool)
      returns (fx: seq<Effect>)
      requires Valid() && Issued(g)
      modifies this, loop, scan
      ensures Valid()
      ensures nextHandle == old(nextHandle) && currentId == old(currentId)
      ensures pendingWrites == old(pendingWrites) && writeValue == old(writeValue) && writeType == old(writeType)
      ensures fx != [] && fx[0] == Log(DEBUG)
      ensures status != GATT_SUCCESS ==>
        && gatt == None && recent == old(recent) && connectionStartTime == old(connectionStartTime)
        && loop.pending == old(loop.pending) + 1
        && fx == [Log(DEBUG), Log(ERROR)]
                 + (CloseEffects(g.handle, closeThrows)
                    + ReconnectScan(adapterEnabled, old(scan.session), old(scan.nextSession), scannerPresent))
      ensures (status != GATT_SUCCESS || newState == STATE_DISCONNECTED) && adapterEnabled ==>
        && scan.session == Some(old(scan.nextSession)) && scan.nextSession == old(scan.nextSession) + 1
        && scan.pendingTimeouts == old(scan.pendingTimeouts) + 1
      ensures (status != GATT_SUCCESS || newState == STATE_DISCONNECTED) && !adapterEnabled ==>
        && scan.session == old(scan.session) && scan.nextSession == old(scan.nextSession)
        && scan.pendingTimeouts == old(scan.pendingTimeouts)
      ensures status == GATT_SUCCESS && newState == STATE_CONNECTED ==>
        && gatt == Some(g) && loop.pending == 0
        && recent == RecentDevices.Save(old(recent), old(currentId).value, g.device.address)
        && connectionStartTime == old(connectionStartTime)
        && scan.session == old(scan.session) && scan.nextSession == old(scan.nextSession)
        && scan.pendingTimeouts == old(scan.pendingTimeouts)
        && fx == [Log(DEBUG), Log(INFO), DiscoverServices(g.handle)]
      ensures status == GATT_SUCCESS && newState == STATE_DISCONNECTED ==>
        && gatt == None && recent == old(recent) && connectionStartTime == 0
        && loop.pending == old(loop.pending) + 1
        && fx == [Log(DEBUG), Log(INFO)]
                 + (CloseEffects(g.handle, closeThrows)
                    + ReconnectScan(adapterEnabled, old(scan.session), old(scan.nextSession), scannerPresent))
                 + [Log(WARN)]
      ensures status == GATT_SUCCESS && newState != STATE_CONNECTED && newState != STATE_DISCONNECTED ==>
        && gatt == old(gatt) && recent == old(recent) && connectionStartTime == old(connectionStartTime)
        && loop.pending == old(loop.pending)
        && scan.session == old(scan.session) && scan.nextSession == old(scan.nextSession)
        && scan.pendingTimeouts == old(scan.pendingTimeouts)
        && fx == [Log(DEBUG)]
    {
      if status != GATT_SUCCESS {
        fx := HandleLinkFailure(g, closeThrows, adapterEnabled, scannerPresent);
      } else if newState == STATE_CONNECTED {
        fx := HandleLinkUp(g);
      } else if newState == STATE_DISCONNECTED {
        fx := HandleLinkDown(g, closeThrows, adapterEnabled, scannerPresent);
      } else {
        fx := [Log(DEBUG)];
      }
    }

    /** The non-success branch of `onConnectionStateChange`. */
    method HandleLinkFailure(g: Gatt, closeThrows: bool, adapterEnabled: bool, scannerPresent: bool)
      returns (fx: seq<Effect>)
      requires Valid()
      modifies this, loop, scan
      ensures Valid()
      ensures nextHandle == old(nextHandle) && currentId == old(currentId)
      ensures pendingWrites == old(pendingWrites) && writeValue == old(writeValue) && writeType == old(writeType)
      ensures gatt == None && recent == old(recent) && connectionStartTime == old(connectionStartTime)
      ensures loop.pending == old(loop.pending) + 1
      ensures adapterEnabled ==>
        && scan.session == Some(old(scan.nextSession)) && scan.nextSession == old(scan.nextSession) + 1
        && scan.pendingTimeouts == old(scan.pendingTimeouts) + 1
      ensures !adapterEnabled ==>
        && scan.session == old(scan.session) && scan.nextSession == old(scan.nextSession)
        && scan.pendingTimeouts == old(scan.pendingTimeouts)
      ensures fx == [Log(DEBUG), Log(ERROR)]
                    + (CloseEffects(g.handle, closeThrows)
                       + ReconnectScan(adapterEnabled, old(scan.session), old(scan.nextSession), scannerPresent))
    {
      var dropped := CloseAndRetry(g, closeThrows, false, adapterEnabled, scannerPresent);
      fx := [Log(DEBUG), Log(ERROR)] + dropped;
    }

    /**
     * What both failure and disconnection do: close the handle, empty the
     * slot, reset the start time when asked, and start the reconnect loop.
     */
    method CloseAndRetry(g: Gatt, closeThrows: bool, resetStartTime: bool, adapterEnabled: bool, scannerPresent: bool)
      returns (fx: seq<Effect>)
      requires Valid()
      modifies this, loop, scan
      ensures Valid()
      ensures nextHandle == old(nextHandle) && currentId == old(currentId)
      ensures pendingWrites == old(pendingWrites) && writeValue == old(writeValue) && writeType == old(writeType)
      ensures gatt == None && recent == old(recent)
      ensures connectionStartTime == if resetStartTime then 0 else old(connectionStartTime)
      ensures loop.pending == old(loop.pending) + 1
      ensures adapterEnabled ==>
        && scan.session == Some(old(scan.nextSession)) && scan.nextSession == old(scan.nextSession) + 1
        && scan.pendingTimeouts == old(scan.pendingTimeouts) + 1
      ensures !adapterEnabled ==>
        && scan.session == old(scan.session) && scan.nextSession == old(scan.nextSession)
        && scan.pendingTimeouts == old(scan.pendingTimeouts)
      ensures fx == CloseEffects(g.handle, closeThrows)
                    + ReconnectScan(adapterEnabled, old(scan.session), old(scan.nextSession), scannerPresent)
    {
      ghost var running, newSession := scan.session, scan.nextSession;
      gatt := None;
      if resetStartTime {
        connectionStartTime := 0;
      }
      var retry := StartScanning(adapterEnabled, false, scannerPresent);
      assert retry == ReconnectScan(adapterEnabled, running, newSession, scannerPresent);
      fx := CloseEffects(g.handle, closeThrows) + retry;
    }

    /** The STATE_CONNECTED branch of `onConnectionStateChange`. */
    method HandleLinkUp(g: Gatt) returns (fx: seq<Effect>)
      requires Valid() && Issued(g)
      modifies this, loop
      ensures Valid()
      ensures nextHandle == old(nextHandle) && currentId == old(currentId)
      ensures pendingWrites == old(pendingWrites) && writeValue == old(writeValue) && writeType == old(writeType)
      ensures gatt == Some(g) && loop.pending == 0
      ensures recent == RecentDevices.Save(old(recent), old(currentId).value, g.device.address)
      ensures connectionStartTime == old(connectionStartTime)
      ensures fx == [Log(DEBUG), Log(INFO), DiscoverServices(g.handle)]
    {
      gatt := Some(g);
      loop.Stop();
      SaveRecentDevice(currentId.value, g.device.address);
      fx := [Log(DEBUG), Log(INFO), DiscoverServices(g.handle)];
    }

    /** The STATE_DISCONNECTED branch of `onConnectionStateChange`. */
    method HandleLinkDown(g: Gatt, closeThrows: bool, adapterEnabled: bool, scannerPresent: bool)
      returns (fx: seq<Effect>)
      requires Valid()
      modifies this, loop, scan
      ensures Valid()
      ensures nextHandle == old(nextHandle) && currentId == old(currentId)
      ensures pendingWrites == old(pendingWrites) && writeValue == old(writeValue) && writeType == old(writeType)
      ensures gatt == None && recent == old(recent) && connectionStartTime == 0
      ensures loop.pending == old(loop.pending) + 1
      ensures adapterEnabled ==>
        && scan.session == Some(old(scan.nextSession)) && scan.nextSession == old(scan.nextSession) + 1
        && scan.pendingTimeouts == old(scan.pendingTimeouts) + 1
      ensures !adapterEnabled ==>
        && scan.session == old(scan.session) && scan.nextSession == old(scan.nextSession)
        && scan.pendingTimeouts == old(scan.pendingTimeouts)
      ensures fx == [Log(DEBUG), Log(INFO)]
                    + (CloseEffects(g.handle, closeThrows)
                       + ReconnectScan(adapterEnabled, old(scan.session), old(scan.nextSession), scannerPresent))
                    + [Log(WARN)]
    {
      var dropped := CloseAndRetry(g, closeThrows, true, adapterEnabled, scannerPresent);
      fx := [Log(DEBUG), Log(INFO)] + dropped + [Log(WARN)];
    }

    /**
     * `onServicesDiscovered(gatt, status)`: subscribes to the notify
     * characteristic when everything it needs is there. A missing write
     * characteristic ends discovery before the notify characteristic is
     * looked at.
     */
    method OnServicesDiscovered(g: Gatt, status: int, services: seq<Service>,
                                notifyAccepted: bool, writeAccepted: bool)
      returns (fx: seq<Effect>)
      ensures status != GATT_SUCCESS ==> fx == [Log(WARN)]
      ensures SetCharacteristicNotification(g.handle, NotifyCharUuid, true) in fx <==>
        && status == GATT_SUCCESS
        && Lookup(services, ServiceUuid, WriteCharUuid).Some?
        && Lookup(services, ServiceUuid, NotifyCharUuid).Some?
        && Notifiable(Lookup(services, ServiceUuid, NotifyCharUuid).value)
      ensures WriteDescriptor(g.handle, CccdUuid, ENABLE_NOTIFICATION_VALUE) in fx <==> ReadyToSubscribe(status, services)
      ensures forall e :: e in fx && e.WriteDescriptor? ==> e == WriteDescriptor(g.handle, CccdUuid, ENABLE_NOTIFICATION_VALUE)
      ensures forall e :: e in fx && e.SetCharacteristicNotification? ==> e == SetCharacteristicNotification(g.handle, NotifyCharUuid, true)
      ensures OnConnected !in fx
      ensures Log(ERROR) in fx <==> status == GATT_SUCCESS && !ReadyToSubscribe(status, services)
    {
      if status != GATT_SUCCESS {
        return [Log(WARN)];
      }
      var service := FindService(services, ServiceUuid);
      if service.None? {
        return [Log(ERROR)];
      }
      var writeChar := FindCharacteristic(service.value, WriteCharUuid);
      if writeChar.None? {
        return [Log(ERROR)];
      }
      var notifyChar := FindCharacteristic(service.value, NotifyCharUuid);
      if notifyChar.None? {
        return [Log(DEBUG), Log(ERROR)];
      }
      assert Lookup(services, ServiceUuid, NotifyCharUuid) == notifyChar;
      if !Notifiable(notifyChar.value) {
        return [Log(DEBUG), Log(DEBUG), Log(ERROR)];
      }
      fx := Subscribe(g.handle, notifyChar.value, notifyAccepted, writeAccepted);
    }

    /** `onDescriptorWrite`: the link is ready exactly when the descriptor write succeeded. */
    method OnDescriptorWrite(g: Gatt, descriptor: Uuid, status: int) returns (fx: seq<Effect>)
      ensures |fx| == 2 && fx[0] == Log(DEBUG)
      ensures OnConnected in fx <==> status == GATT_SUCCESS
      ensures Log(ERROR) in fx <==> status != GATT_SUCCESS
    {
      fx := [Log(DEBUG)];
      if status == GATT_SUCCESS {
        fx := fx + [OnConnected];
      } else {
        fx := fx + [Log(ERROR)];
      }
    }

    /**
     * `onCharacteristicChanged`: a non-empty value is delivered to the host
     * as one message, its UTF-8 text; an empty one only draws a warning.
     */
    method OnCharacteristicChanged(g: Gatt, characteristic: Uuid, value: Bytes) returns (fx: seq<Effect>)
      ensures |fx| == 1
      ensures fx[0].OnMessageReceived? <==> value != []
      ensures fx[0].OnMessageReceived? ==> fx[0].text == Utf8.Decode(value) && fx[0].text != []
      ensures value == [] ==> fx[0] == Log(WARN)
    {
      if value != [] {
        fx := [OnMessageReceived(Utf8.Decode(value))];
      } else {
        fx := [Log(WARN)];
      }
    }

    /** `onCharacteristicWrite`: logged only. */
    method OnCharacteristicWrite(g: Gatt, characteristic: Uuid, status: int) returns (fx: seq<Effect>)
      ensures fx == [Log(DEBUG)]
    {
      fx := [Log(DEBUG)];
    }

    /**
     * A scan result, as ScanHelper filters it and the `onDeviceFound`
     * lambda routes it: a remembered id stops the scan and connects to the
     * scanned device; an unknown id is handed to the listener.
     */
    method OnScanResult(device: Device, serviceData: Option<Bytes>, adapterEnabled: bool, linkUp: bool,
                        scannerPresent: bool, now: int)
      returns (fx: seq<Effect>)
      requires Valid()
      modifies this, scan
      ensures Valid()
      ensures recent == old(recent) && loop.pending == old(loop.pending)
      ensures pendingWrites == old(pendingWrites) && writeValue == old(writeValue) && writeType == old(writeType)
      ensures scan.nextSession == old(scan.nextSession) && scan.pendingTimeouts == old(scan.pendingTimeouts)
      ensures ScanResultId(serviceData).None? || old(GetMacForUniqueId(ScanResultId(serviceData).value)).None? ==>
        && gatt == old(gatt) && currentId == old(currentId) && scan.session == old(scan.session)
        && nextHandle == old(nextHandle) && connectionStartTime == old(connectionStartTime)
      ensures ScanResultId(serviceData).None? ==> fx == []
      ensures ScanResultId(serviceData).Some? && old(GetMacForUniqueId(ScanResultId(serviceData).value)).None? ==>
        fx == [Log(DEBUG), OnDeviceFound(device, ScanResultId(serviceData).value)]
      ensures ScanResultId(serviceData).Some? && old(GetMacForUniqueId(ScanResultId(serviceData).value)).Some? ==>
        && scan.session == None
        && (forall d, i :: OnDeviceFound(d, i) !in fx)
        && |fx| >= 2 && fx[..2] == [Log(DEBUG), Log(INFO)]
        && (adapterEnabled && !old(IsConnected(linkUp)) ==>
              && currentId == ScanResultId(serviceData) && gatt == Some(Gatt(old(nextHandle), device))
              && nextHandle == old(nextHandle) + 1 && connectionStartTime == now
              && fx == [Log(DEBUG), Log(INFO)] + StopEffects(old(scan.session), scannerPresent)
                       + [Log(INFO), ConnectGatt(device, old(nextHandle))])
        && (!adapterEnabled || old(IsConnected(linkUp)) ==>
              && gatt == old(gatt) && currentId == old(currentId)
              && nextHandle == old(nextHandle) && connectionStartTime == old(connectionStartTime)
              && fx == [Log(DEBUG), Log(INFO)] + StopEffects(old(scan.session), scannerPresent))
    {
      var id := ScanResultId(serviceData);
      if id.None? {
        return [];
      }
      fx := [Log(DEBUG)];
      if GetMacForUniqueId(id.value).Some? {
        fx := fx + [Log(INFO)];
        var stopped := scan.StopScan(scannerPresent);
        var connected := Connect(device, id.value, adapterEnabled, linkUp, now);
        fx := fx + stopped + connected;
      } else {
        fx := fx + [OnDeviceFound(device, id.value)];
      }
    }

    /** The posted stop of a scan fires. */
    method OnScanTimeout(scannerPresent: bool) returns (fx: seq<Effect>)
      requires Valid() && scan.pendingTimeouts > 0
      modifies scan
      ensures Valid() && scan.session == None
      ensures scan.pendingTimeouts == old(scan.pendingTimeouts) - 1
      ensures fx == StopEffects(old(scan.session), scannerPresent)
    {
      fx := scan.FireTimeout(scannerPresent);
    }

    /**
     * `sendMessage(message)`: without the write characteristic on the
     * current handle, an error line and nothing else. Otherwise the
     * characteristic takes the UTF-8 bytes and WRITE_TYPE_DEFAULT, and one
     * write is posted 500 ms ahead.
     */
    method SendMessage(message: string, services: seq<Service>) returns (fx: seq<Effect>)
      requires Valid()
      modifies this
      ensures Valid()
      ensures gatt == old(gatt) && currentId == old(currentId) && nextHandle == old(nextHandle)
      ensures recent == old(recent) && connectionStartTime == old(connectionStartTime)
      ensures gatt.None? || Lookup(services, ServiceUuid, WriteCharUuid).None? ==>
        && fx == [Log(ERROR)] && pendingWrites == old(pendingWrites)
        && writeValue == old(writeValue) && writeType == old(writeType)
      ensures gatt.Some? && Lookup(services, ServiceUuid, WriteCharUuid).Some? ==>
        && writeValue == Utf8.Encode(message) && writeType == WRITE_TYPE_DEFAULT
        && pendingWrites == old(pendingWrites) + 1
        && fx == [Log(INFO), PostWrite(WRITE_DELAY_MS)]
    {
      var writeChar := Lookup(services, ServiceUuid, WriteCharUuid);
      if gatt.None? || writeChar.None? {
        return [Log(ERROR)];
      }
      writeValue := Utf8.Encode(message);
      writeType := WRITE_TYPE_DEFAULT;
      fx := [Log(INFO), PostWrite(WRITE_DELAY_MS)];
      pendingWrites := pendingWrites + 1;
    }

    /**
     * A posted write runs: it writes the characteristic's value as it is
     * now, through the handle in the slot now.
     */
    method OnWriteTimer() returns (fx: seq<Effect>)
      requires Valid() && pendingWrites > 0
      modifies this
      ensures Valid()
      ensures pendingWrites == old(pendingWrites) - 1
      ensures gatt == old(gatt) && currentId == old(currentId) && nextHandle == old(nextHandle)
      ensures recent == old(recent) && connectionStartTime == old(connectionStartTime)
      ensures writeValue == old(writeValue) && writeType == old(writeType)
      ensures gatt.Some? ==> fx == [WriteCharacteristic(gatt.value.handle, writeValue, writeType), Log(DEBUG)]
      ensures gatt.None? ==> fx == [Log(DEBUG)]
    {
      pendingWrites := pendingWrites - 1;
      if gatt.Some? {
        fx := [WriteCharacteristic(gatt.value.handle, writeValue, writeType), Log(DEBUG)];
      } else {
        fx := [Log(DEBUG)];
      }
    }

    /**
     * `disconnect()`: disconnects and closes the handle, empties the slot,
     * stops the loop and the scan. Nothing catches an exception from
     * `close()` here: when it throws, the rest of the method is skipped and
     * the slot, the loop and the scan stay as they were.
     */
    method Disconnect(closeThrows: bool, scannerPresent: bool) returns (fx: seq<Effect>)
      requires Valid()
      modifies this, loop, scan
      ensures Valid()
      ensures currentId == old(currentId) && nextHandle == old(nextHandle) && recent == old(recent)
      ensures connectionStartTime == old(connectionStartTime) && pendingWrites == old(pendingWrites)
      ensures writeValue == old(writeValue) && writeType == old(writeType)
      ensures scan.nextSession == old(scan.nextSession) && scan.pendingTimeouts == old(scan.pendingTimeouts)
      ensures old(gatt).Some? && closeThrows ==>
        && gatt == old(gatt) && loop.pending == old(loop.pending) && loop.events == old(loop.events)
        && scan.session == old(scan.session)
        && fx == [DisconnectGatt(old(gatt).value.handle), CloseGatt(old(gatt).value.handle)]
      ensures old(gatt).None? || !closeThrows ==>
        gatt == None && loop.pending == 0 && scan.session == None
      ensures old(gatt).Some? && !closeThrows ==>
        fx == [DisconnectGatt(old(gatt).value.handle), CloseGatt(old(gatt).value.handle)]
              + StopEffects(old(scan.session), scannerPresent)
      ensures old(gatt).None? ==> fx == StopEffects(old(scan.session), scannerPresent)
    {
      fx := [];
      if gatt.Some? {
        fx := [DisconnectGatt(gatt.value.handle), CloseGatt(gatt.value.handle)];
        if closeThrows {
          return;
        }
      }
      gatt := None;
      loop.Stop();
      var stopped := scan.StopScan(scannerPresent);
      fx := fx + stopped;
    }
  }

  /** What `reconnectManager.start()` emits right after the slot was emptied: one reconnect scan if the adapter is on. */
  function ReconnectScan(adapterEnabled: bool, running: Option<nat>, newSession: nat, scannerPresent: bool): (fx: seq<Effect>)
    ensures !adapterEnabled <==> fx == []
    ensures adapterEnabled ==> fx[|fx| - 1] == PostScanTimeout(RECONNECT_SCAN_MS)
  {
    if adapterEnabled then [Log(INFO)] + StartEffects(running, newSession, scannerPresent, RECONNECT_SCAN_MS) else []
  }
}
