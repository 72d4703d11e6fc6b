/**
 * BLEPeripheralManager: the peripheral role. It advertises the sample's
 * service with the installation id as service data, serves one GATT
 * service (a write characteristic and a notify characteristic with its
 * Client Characteristic Configuration descriptor), keeps the set of
 * connected centrals and notifies all of them on request.
 *
 * Platform queries are parameters: multi-advertisement support,
 * `bluetoothLeAdvertiser` being non-null, `openGattServer` returning a
 * server, and whether a stop or close call throws.
 */
module Peripheral {
  import opened Logging
  import opened Ble
  import Utf8
  import Scanning
  import opened InstallationId

  /** The text a read of the write characteristic returns. */
  const SERVER_READY: string := "Server Ready"
  /** Its UTF-8 bytes, the payload of every read response. */
  const SERVER_READY_VALUE: Bytes := Utf8.Encode(SERVER_READY)

  /**
   * The answer to a read of the write characteristic: a success at offset 0
   * for the request it answers, whose bytes a central decodes to exactly
   * "Server Ready".
   */
  function ReadReply(device: Option<Device>, requestId: int): (e: Effect)
    ensures e.SendResponse? && e.requester == device && e.requestId == requestId
    ensures e.status == GATT_SUCCESS && e.offset == 0
    ensures e.response.Some? && Utf8.Decode(e.response.value) == SERVER_READY
  {
    Utf8.DecodeEncode(SERVER_READY);
    SendResponse(device, requestId, GATT_SUCCESS, 0, Some(SERVER_READY_VALUE))
  }

  /** The service `startGattServer` builds and adds. */
  const LOCAL_SERVICE: Service := Service(ServiceUuid, [
    Characteristic(WriteCharUuid, PROPERTY_WRITE | PROPERTY_READ, []),
    Characteristic(NotifyCharUuid, PROPERTY_NOTIFY, [CccdUuid])
  ])

  /** The advertisement `startAdvertising` builds for an installation id. */
  function Advertisement(id: string): (data: AdvertiseData)
    ensures !data.includeDeviceName && ServiceUuid in data.serviceUuids
    ensures ServiceData(data, ServiceDataUuid) == Some(Utf8.Encode(id))
  {
    AdvertiseData(false, [ServiceUuid], [(ServiceDataUuid, Utf8.Encode(id))])
  }

  /** A central scanning this peripheral's advertisement reports exactly the installation id. */
  lemma {:induction false} AdvertisementCarriesId(id: string)
    requires id != []
    ensures Scanning.ScanResultId(ServiceData(Advertisement(id), ServiceDataUuid)) == Some(id)
  {
    Scanning.AdvertisedIdRecovered(id);
  }

  /** `connectedDevices.add(device)` on an insertion-ordered set. */
  function Add(s: seq<Device>, d: Device): (r: seq<Device>)
    ensures forall x :: x in r <==> x in s || x == d
    ensures Distinct(s) ==> Distinct(r)
    ensures d in s ==> r == s
    ensures d !in s ==> |r| == |s| + 1
  {
    if d in s then s else s + [d]
  }

  /** `connectedDevices.remove(device)` */
  function Remove(s: seq<Device>, d: Device): (r: seq<Device>)
    ensures forall x :: x in r <==> x in s && x != d
    ensures d !in s ==> r == s
    ensures |r| <= |s|
  {
    if s == [] then []
    else if s[0] == d then Remove(s[1..], d)
    else [s[0]] + Remove(s[1..], d)
  }

  lemma {:induction false} DistinctTail(s: seq<Device>)
    requires s != [] && Distinct(s)
    ensures Distinct(s[1..]) && s[0] !in s[1..]
  {
    forall j | 0 <= j < |s| - 1
      ensures s[1..][j] != s[0]
    {
      assert s[1..][j] == s[j + 1];
    }
    forall i, j | 0 <= i < j < |s| - 1
      ensures s[1..][i] != s[1..][j]
    {
      assert s[1..][i] == s[i + 1] && s[1..][j] == s[j + 1];
    }
  }

  /** A set stays a set when a device leaves it. */
  lemma {:induction false} RemoveDistinct(s: seq<Device>, d: Device)
    requires Distinct(s)
    ensures Distinct(Remove(s, d))
    decreases |s|
  {
    if s != [] {
      DistinctTail(s);
      RemoveDistinct(s[1..], d);
      if s[0] != d {
        var r := Remove(s[1..], d);
        assert s[0] !in r;
        forall i, j | 0 <= i < j < |[s[0]] + r|
          ensures ([s[0]] + r)[i] != ([s[0]] + r)[j]
        {
          if i > 0 {
            assert ([s[0]] + r)[i] == r[i - 1] && ([s[0]] + r)[j] == r[j - 1];
          } else {
            assert ([s[0]] + r)[j] == r[j - 1];
          }
        }
      }
    }
  }

  /** Removing a member of a set shrinks it by exactly one. */
  lemma {:induction false} RemoveMember(s: seq<Device>, d: Device)
    requires Distinct(s) && d in s
    ensures |Remove(s, d)| == |s| - 1
    decreases |s|
  {
    DistinctTail(s);
    if s[0] != d {
      RemoveMember(s[1..], d);
    }
  }

  /** One notification of `value` to each device, in order. */
  function NotifyAll(devices: seq<Device>, value: Bytes): (fx: seq<Effect>)
    ensures |fx| == |devices|
    ensures forall i :: 0 <= i < |fx| ==> fx[i] == NotifyCharacteristicChanged(devices[i], NotifyCharUuid, value, false)
  {
    if devices == [] then []
    else NotifyAll(devices[..|devices| - 1], value) + [NotifyCharacteristicChanged(devices[|devices| - 1], NotifyCharUuid, value, false)]
  }

  /**
   * A broadcast reaches each connected device exactly once, always with
   * the same payload and without confirmation, and reaches nobody else.
   */
  lemma {:induction false} NotifyAllReachesEachOnce(devices: seq<Device>, value: Bytes)
    requires Distinct(devices)
    ensures var fx := NotifyAll(devices, value);
      && (forall d :: d in devices <==> exists i :: 0 <= i < |fx| && fx[i].to == d)
      && (forall i, j :: 0 <= i < j < |fx| ==> fx[i].to != fx[j].to)
      && (forall i :: 0 <= i < |fx| ==> fx[i].value == value && !fx[i].confirm)
  {
    var fx := NotifyAll(devices, value);
    forall d
      ensures d in devices <==> exists i :: 0 <= i < |fx| && fx[i].to == d
    {
      if d in devices {
        var i :| 0 <= i < |devices| && devices[i] == d;
        assert fx[i].to == d;
      }
      if exists i :: 0 <= i < |fx| && fx[i].to == d {
        var i :| 0 <= i < |fx| && fx[i].to == d;
        assert devices[i] == d;
      }
    }
  }

  /** The `for (device in connectedDevices)` loop of `sendMessageToAllCentrals`. */
  method NotifyEach(devices: seq<Device>, value: Bytes) returns (fx: seq<Effect>)
    ensures fx == NotifyAll(devices, value)
  {
    fx := [];
    var i := 0;
    while i < |devices|
      invariant 0 <= i <= |devices|
      invariant fx == NotifyAll(devices[..i], value)
    {
      assert devices[..i + 1][..i] == devices[..i];
      fx := fx + [NotifyCharacteristicChanged(devices[i], NotifyCharUuid, value, false)];
      i := i + 1;
    }
    assert devices[..i] == devices;
  }

  class BLEPeripheralManager {
    /** `advertiser != null` */
    var advertiser: bool
    /** `gattServer`, with the services added to it; None when null. */
    var server: Option<seq<Service>>
    /** `connectedDevices`, a CopyOnWriteArraySet: insertion order, each device once. */
    var connectedDevices: seq<Device>
    /** `value` of the one CCCD object of the served notify characteristic. */
    var cccdValue: Bytes
    /** `value` of the served notify characteristic. */
    var notifyValue: Bytes
    /** The installation id store. */
    const ids: UniqueIdProvider

    ghost predicate Valid()
      reads this
    {
      Distinct(connectedDevices)
    }

    constructor(ids: UniqueIdProvider)
      ensures Valid() && this.ids == ids
      ensures !advertiser && server == None && connectedDevices == []
      ensures cccdValue == DISABLE_NOTIFICATION_VALUE && notifyValue == []
    {
      this.ids := ids;
      advertiser := false;
      server := None;
      connectedDevices := [];
      cccdValue := DISABLE_NOTIFICATION_VALUE;
      notifyValue := [];
    }

    /**
     * `startAdvertising()`: without multi-advertisement support, an error
     * line and nothing else. Otherwise it advertises (connectable, low
     * latency) the service and the installation id, then opens the GATT
     * server and adds the service, whose CCCD starts disabled.
     */
    method StartAdvertising(multiAdvSupported: bool, advertiserPresent: bool, serverOpened: bool,
                            letterDraws: seq<nat>, digitDraws: seq<nat>, mixDraws: seq<nat>)
      returns (fx: seq<Effect>)
      requires Valid()
      requires ValidDraws(26, letterDraws) && ValidDraws(10, digitDraws) && ValidDraws(6, mixDraws)
      modifies this, ids
      ensures Valid() && connectedDevices == old(connectedDevices) && notifyValue == old(notifyValue)
      ensures !multiAdvSupported ==>
        && fx == [Log(ERROR)] && advertiser == old(advertiser) && server == old(server)
        && cccdValue == old(cccdValue) && ids.storedId == old(ids.storedId)
      ensures multiAdvSupported ==>
        && ids.storedId.Some?
        && (old(ids.storedId).Some? ==> ids.storedId == old(ids.storedId))
        && (old(ids.storedId).None? ==> IsInstallationId(ids.storedId.value))
        && advertiser == advertiserPresent
        && server == (if serverOpened then Some([LOCAL_SERVICE]) else None)
        && cccdValue == DISABLE_NOTIFICATION_VALUE
        && fx == [Log(DEBUG)]
                 + (if advertiserPresent then [AdvertiserStart(true, ADVERTISE_MODE_LOW_LATENCY, Advertisement(ids.storedId.value))] else [])
                 + [Log(DEBUG), OpenGattServer]
                 + (if serverOpened then [AddService(LOCAL_SERVICE)] else [])
    {
      if !multiAdvSupported {
        return [Log(ERROR)];
      }
      advertiser := advertiserPresent;
      var id := ids.GetOrCreateId(letterDraws, digitDraws, mixDraws);
      fx := [Log(DEBUG)];
      if advertiser {
        fx := fx + [AdvertiserStart(true, ADVERTISE_MODE_LOW_LATENCY, Advertisement(id))];
      }
      var started := StartGattServer(serverOpened);
      fx := fx + started;
    }

    /** `startGattServer()` */
    method StartGattServer(serverOpened: bool) returns (fx: seq<Effect>)
      requires Valid()
      modifies this
      ensures Valid() && connectedDevices == old(connectedDevices) && notifyValue == old(notifyValue)
      ensures advertiser == old(advertiser)
      ensures server == (if serverOpened then Some([LOCAL_SERVICE]) else None)
      ensures cccdValue == DISABLE_NOTIFICATION_VALUE
      ensures fx == [Log(DEBUG), OpenGattServer] + (if serverOpened then [AddService(LOCAL_SERVICE)] else [])
    {
      fx := [Log(DEBUG), OpenGattServer];
      server := if serverOpened then Some([]) else None;
      cccdValue := DISABLE_NOTIFICATION_VALUE;
      if server.Some? {
        assert server.value + [LOCAL_SERVICE] == [LOCAL_SERVICE];
        server := Some(server.value + [LOCAL_SERVICE]);
        fx := fx + [AddService(LOCAL_SERVICE)];
      }
    }

    /** AdvertiseCallback: the outcome of starting to advertise is only logged. */
    method OnAdvertiseStarted(success: bool) returns (fx: seq<Effect>)
      ensures fx == [Log(if success then INFO else ERROR)]
    {
      fx := [Log(if success then INFO else ERROR)];
    }

    /**
     * `onConnectionStateChange(device, status, newState)`: STATE_CONNECTED
     * adds the device, any other state removes it; the status is not looked at.
     */
    method OnConnectionStateChange(device: Option<Device>, status: int, newState: int) returns (fx: seq<Effect>)
      requires Valid()
      modifies this
      ensures Valid()
      ensures advertiser == old(advertiser) && server == old(server)
      ensures cccdValue == old(cccdValue) && notifyValue == old(notifyValue)
      ensures device.None? ==> fx == [] && connectedDevices == old(connectedDevices)
      ensures device.Some? ==> fx == [Log(INFO), Log(INFO)]
      ensures device.Some? && newState == STATE_CONNECTED ==>
        connectedDevices == Add(old(connectedDevices), device.value)
      ensures device.Some? && newState != STATE_CONNECTED ==>
        connectedDevices == Remove(old(connectedDevices), device.value)
    {
      if device.None? {
        return [];
      }
      if newState == STATE_CONNECTED {
        connectedDevices := Add(connectedDevices, device.value);
      } else {
        RemoveDistinct(connectedDevices, device.value);
        connectedDevices := Remove(connectedDevices, device.value);
      }
      fx := [Log(INFO), Log(INFO)];
    }

    /**
     * `onCharacteristicReadRequest`: a read of the write characteristic is
     * answered with success and "Server Ready"; any other read gets no
     * answer at all.
     */
    method OnCharacteristicReadRequest(device: Option<Device>, requestId: int, offset: int, characteristic: Option<Uuid>)
      returns (fx: seq<Effect>)
      ensures characteristic != Some(WriteCharUuid) ==> fx == []
      ensures characteristic == Some(WriteCharUuid) && server.None? ==> fx == [Log(DEBUG)]
      ensures characteristic == Some(WriteCharUuid) && server.Some? ==>
        fx == [ReadReply(device, requestId), Log(DEBUG)]
    {
      if characteristic != Some(WriteCharUuid) {
        fx := [];
      } else if server.None? {
        fx := [Log(DEBUG)];
      } else {
        fx := [ReadReply(device, requestId), Log(DEBUG)];
      }
    }

    /**
     * `onCharacteristicWriteRequest`: the message is logged, and answered
     * with an empty success response exactly when a response is needed. It
     * is not passed on to the host.
     */
    method OnCharacteristicWriteRequest(device: Option<Device>, requestId: int, characteristic: Option<Uuid>,
                                        preparedWrite: bool, responseNeeded: bool, offset: int, value: Option<Bytes>)
      returns (fx: seq<Effect>)
      ensures fx != [] && fx[0] == Log(INFO)
      ensures SendResponse(device, requestId, GATT_SUCCESS, 0, None) in fx <==> responseNeeded && server.Some?
      ensures forall e :: e in fx ==> !e.OnMessageReceived? && !e.NotifyCharacteristicChanged?
    {
      fx := [Log(INFO)];
      if responseNeeded && server.Some? {
        fx := fx + [SendResponse(device, requestId, GATT_SUCCESS, 0, None)];
      }
    }

    /**
     * `onDescriptorWriteRequest`: a write to the CCCD stores ENABLE when the
     * written bytes are exactly ENABLE and DISABLE otherwise, and is always
     * answered with success. The CCCD is one object for all centrals. Writes
     * to other descriptors are ignored.
     */
    method OnDescriptorWriteRequest(device: Option<Device>, requestId: int, descriptor: Option<Uuid>,
                                    preparedWrite: bool, responseNeeded: bool, offset: int, value: Option<Bytes>)
      returns (fx: seq<Effect>)
      requires Valid()
      modifies this
      ensures Valid()
      ensures advertiser == old(advertiser) && server == old(server)
      ensures connectedDevices == old(connectedDevices) && notifyValue == old(notifyValue)
      ensures descriptor != Some(CccdUuid) ==> fx == [] && cccdValue == old(cccdValue)
      ensures descriptor == Some(CccdUuid) ==>
        && (cccdValue == ENABLE_NOTIFICATION_VALUE <==> value == Some(ENABLE_NOTIFICATION_VALUE))
        && (cccdValue == ENABLE_NOTIFICATION_VALUE || cccdValue == DISABLE_NOTIFICATION_VALUE)
        && fx == (if server.Some? then [SendResponse(device, requestId, GATT_SUCCESS, 0, None)] else []) + [Log(DEBUG)]
    {
      if descriptor != Some(CccdUuid) {
        return [];
      }
      cccdValue := if value == Some(ENABLE_NOTIFICATION_VALUE) then ENABLE_NOTIFICATION_VALUE else DISABLE_NOTIFICATION_VALUE;
      fx := [];
      if server.Some? {
        fx := [SendResponse(device, requestId, GATT_SUCCESS, 0, None)];
      }
      fx := fx + [Log(DEBUG)];
    }

    /**
     * `sendMessageToAllCentrals(message)`: without a server, the service or
     * the notify characteristic, nothing. Otherwise the characteristic takes
     * the UTF-8 bytes and every connected device is notified once, in
     * order, whatever it wrote to the CCCD.
     */
    method SendMessageToAllCentrals(message: string) returns (fx: seq<Effect>)
      requires Valid()
      modifies this
      ensures Valid()
      ensures advertiser == old(advertiser) && server == old(server)
      ensures connectedDevices == old(connectedDevices) && cccdValue == old(cccdValue)
      ensures server.None? || Lookup(server.value, ServiceUuid, NotifyCharUuid).None? ==>
        fx == [] && notifyValue == old(notifyValue)
      ensures server.Some? && Lookup(server.value, ServiceUuid, NotifyCharUuid).Some? ==>
        && notifyValue == Utf8.Encode(message)
        && fx == NotifyAll(connectedDevices, Utf8.Encode(message)) + [Log(INFO)]
    {
      if server.None? {
        return [];
      }
      var service := FindService(server.value, ServiceUuid);
      if service.None? {
        return [];
      }
      var characteristic := FindCharacteristic(service.value, NotifyCharUuid);
      if characteristic.None? {
        return [];
      }
      notifyValue := Utf8.Encode(message);
      var sent := NotifyEach(connectedDevices, notifyValue);
      fx := sent + [Log(INFO)];
    }

    /**
     * `stopAdvertising()`: two steps, each in its own try/finally. Both the
     * advertiser and the server end up null whatever either step throws,
     * and a failure in the first step does not skip the second. The set of
     * connected devices is left as it was.
     */
    method StopAdvertising(stopThrows: bool, closeThrows: bool) returns (fx: seq<Effect>)
      requires Valid()
      modifies this
      ensures Valid()
      ensures !advertiser && server == None
      ensures connectedDevices == old(connectedDevices)
      ensures cccdValue == old(cccdValue) && notifyValue == old(notifyValue)
      ensures AdvertiserStop in fx <==> old(advertiser)
      ensures CloseGattServer in fx <==> old(server).Some?
      ensures fx == [Log(DEBUG)]
                    + (if old(advertiser) then [AdvertiserStop, Log(if stopThrows then ERROR else INFO)] else [])
                    + (if old(server).Some? then [CloseGattServer, Log(if closeThrows then ERROR else DEBUG)] else [Log(DEBUG)])
    {
      fx := [Log(DEBUG)];
      if advertiser {
        fx := fx + [AdvertiserStop, Log(if stopThrows then ERROR else INFO)];
      }
      advertiser := false;
      if server.Some? {
        fx := fx + [CloseGattServer, Log(if closeThrows then ERROR else DEBUG)];
      } else {
        fx := fx + [Log(DEBUG)];
      }
      server := None;
    }
  }
}
