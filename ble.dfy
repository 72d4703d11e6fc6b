/**
 * The platform vocabulary shared by both link managers: bytes, the GATT
 * service layout, the Android constants the managers compare against, and
 * the effects (radio calls, host callbacks, log lines) the managers emit.
 *
 * Radio calls are not performed; every call is recorded as an `Effect`, and
 * every platform query is a parameter of the operation that makes it.
 */
module Ble {
  import opened Logging

  newtype byte = x: int | 0 <= x < 256
  type Bytes = seq<byte>

  datatype Option<+T> = None | Some(value: T)

  /** No element occurs twice. */
  ghost predicate Distinct<T>(s: seq<T>) {
    forall i, j :: 0 <= i < j < |s| ==> s[i] != s[j]
  }

  /**
   * The 128-bit identifiers compiled into both roles. Their literal values
   * live in a constants file that is not part of this model; only their
   * identity matters to the managers.
   */
  datatype Uuid =
    | ServiceUuid          // SERVICE_UUID
    | WriteCharUuid        // CHARACTERISTIC_UUID
    | NotifyCharUuid       // NOTIFY_CHARACTERISTIC_UUID
    | CccdUuid             // DESCRIPTOR_UUID, the Client Characteristic Configuration descriptor
    | ServiceDataUuid      // SERVICE_DATA_UUID, key of the identity bytes in the advertisement
    | OtherUuid(n: nat)    // anything a remote device may expose besides these

  /** A remote device; Android's BluetoothDevice compares by address. */
  datatype Device = Device(address: string)

  /** A BluetoothGatt handle returned by connectGatt: a fresh number per call. */
  datatype Gatt = Gatt(handle: nat, device: Device)

  datatype Characteristic = Characteristic(uuid: Uuid, properties: bv32, descriptors: seq<Uuid>)
  datatype Service = Service(uuid: Uuid, characteristics: seq<Characteristic>)

  // BluetoothGatt / BluetoothProfile constants
  const GATT_SUCCESS: int := 0
  const STATE_DISCONNECTED: int := 0
  const STATE_CONNECTED: int := 2

  // BluetoothGattCharacteristic property bits and write types
  const PROPERTY_READ: bv32 := 0x02
  const PROPERTY_WRITE: bv32 := 0x08
  const PROPERTY_NOTIFY: bv32 := 0x10
  const WRITE_TYPE_NO_RESPONSE: int := 1
  const WRITE_TYPE_DEFAULT: int := 2

  /**
   * Values of the Client Characteristic Configuration descriptor (Bluetooth
   * Core Specification Vol 3, Part G, section 3.3.3.3): bit 0 of the
   * little-endian 16-bit value enables notifications.
   */
  const ENABLE_NOTIFICATION_VALUE: Bytes := [0x01, 0x00]
  const DISABLE_NOTIFICATION_VALUE: Bytes := [0x00, 0x00]

  // ScanSettings / AdvertiseSettings modes
  const SCAN_MODE_LOW_POWER: int := 0
  const ADVERTISE_MODE_LOW_LATENCY: int := 2

  /** The content of an advertisement as AdvertiseData.Builder assembles it. */
  datatype AdvertiseData = AdvertiseData(
    includeDeviceName: bool,
    serviceUuids: seq<Uuid>,
    serviceData: seq<(Uuid, Bytes)>)

  /** ScanRecord.getServiceData(uuid): the bytes the advertisement carries under `uuid`, if any. */
  function ServiceData(data: AdvertiseData, uuid: Uuid): (r: Option<Bytes>)
    ensures r.Some? <==> exists i :: 0 <= i < |data.serviceData| && data.serviceData[i].0 == uuid
    ensures r.Some? ==> (uuid, r.value) in data.serviceData
  {
    FindData(data.serviceData, uuid)
  }

  function FindData(entries: seq<(Uuid, Bytes)>, uuid: Uuid): (r: Option<Bytes>)
    ensures r.Some? <==> exists i :: 0 <= i < |entries| && entries[i].0 == uuid
    ensures r.Some? ==> (uuid, r.value) in entries
  {
    if entries == [] then None
    else if entries[0].0 == uuid then Some(entries[0].1)
    else FindData(entries[1..], uuid)
  }

  /** Everything the managers do that is visible outside their own fields. */
  datatype Effect =
    // host callbacks (BLECallback and ScanCallbackReceiver)
    | Log(level: LogLevel)
    | OnConnected
    | OnMessageReceived(text: string)
    | OnDeviceFound(device: Device, peerId: string)
    // central radio calls
    | ConnectGatt(device: Device, handle: nat)
    | DisconnectGatt(handle: nat)
    | CloseGatt(handle: nat)
    | DiscoverServices(handle: nat)
    | SetCharacteristicNotification(handle: nat, characteristic: Uuid, enable: bool)
    | WriteDescriptor(handle: nat, descriptor: Uuid, value: Bytes)
    | WriteCharacteristic(handle: nat, value: Bytes, writeType: int)
    | ScannerStart(session: nat, filter: Uuid, scanMode: int)
    | ScannerStop(session: nat)
    // delayed posts on the main-thread handler
    | PostScanTimeout(delayMs: int)
    | PostWrite(delayMs: int)
    // peripheral radio calls
    | AdvertiserStart(connectable: bool, advertiseMode: int, data: AdvertiseData)
    | AdvertiserStop
    | OpenGattServer
    | AddService(service: Service)
    | CloseGattServer
    | SendResponse(requester: Option<Device>, requestId: int, status: int, offset: int, response: Option<Bytes>)
    | NotifyCharacteristicChanged(to: Device, characteristic: Uuid, value: Bytes, confirm: bool)

  /** The first element of `s` that satisfies `p`, if any. */
  function First<T>(s: seq<T>, p: T -> bool): (r: Option<T>)
    ensures r.Some? <==> exists i :: 0 <= i < |s| && p(s[i])
    ensures r.Some? ==> exists i :: 0 <= i < |s| && s[i] == r.value && p(s[i]) && forall j :: 0 <= j < i ==> !p(s[j])
  {
    if s == [] then None
    else if p(s[0]) then Some(s[0])
    else
      var r := First(s[1..], p);
      assert r.Some? ==> exists i :: 1 <= i < |s| && s[i] == r.value && p(s[i]) && forall j :: 0 <= j < i ==> !p(s[j]) by {
        if r.Some? {
          var i :| 0 <= i < |s| - 1 && s[1..][i] == r.value && p(s[1..][i]) && forall j :: 0 <= j < i ==> !p(s[1..][j]);
          assert forall j :: 1 <= j < i + 1 ==> !p(s[j]) by {
            forall j | 1 <= j < i + 1 ensures !p(s[j]) { assert s[j] == s[1..][j - 1]; }
          }
        }
      }
      r
  }

  /** BluetoothGatt.getService: the first discovered service with that identifier. */
  function FindService(services: seq<Service>, uuid: Uuid): (r: Option<Service>)
    ensures r.Some? <==> exists i :: 0 <= i < |services| && services[i].uuid == uuid
    ensures r.Some? ==> r.value in services && r.value.uuid == uuid
    ensures r.Some? ==> exists i :: 0 <= i < |services| && services[i] == r.value
                          && forall j :: 0 <= j < i ==> services[j].uuid != uuid
  {
    First(services, (sv: Service) => sv.uuid == uuid)
  }

  /** BluetoothGattService.getCharacteristic: the first characteristic with that identifier. */
  function FindCharacteristic(s: Service, uuid: Uuid): (r: Option<Characteristic>)
    ensures r.Some? <==> exists i :: 0 <= i < |s.characteristics| && s.characteristics[i].uuid == uuid
    ensures r.Some? ==> r.value in s.characteristics && r.value.uuid == uuid
    ensures r.Some? ==> exists i :: 0 <= i < |s.characteristics| && s.characteristics[i] == r.value
                          && forall j :: 0 <= j < i ==> s.characteristics[j].uuid != uuid
  {
    First(s.characteristics, (c: Characteristic) => c.uuid == uuid)
  }

  /**
   * The characteristic `characteristic` of the service `service`, as
   * `getService(..)?.getCharacteristic(..)` finds it: the first such
   * characteristic of the first such service.
   */
  function Lookup(services: seq<Service>, service: Uuid, characteristic: Uuid): (r: Option<Characteristic>)
    ensures r.Some? ==> r.value.uuid == characteristic
    ensures r.Some? <==> FindService(services, service).Some? && FindCharacteristic(FindService(services, service).value, characteristic).Some?
    ensures r.Some? ==> r == FindCharacteristic(FindService(services, service).value, characteristic)
  {
    match FindService(services, service)
    case None => None
    case Some(s) => FindCharacteristic(s, characteristic)
  }
}
