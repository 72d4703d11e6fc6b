/**
 * Runs of the two managers that show, end to end, what the code does:
 * how the roles meet, and where the code as written behaves differently
 * from what a reader of its names might expect.
 */
module Scenarios {
  import opened Logging
  import opened Ble
  import Utf8
  import RecentDevices
  import opened InstallationId
  import opened Scanning
  import opened GattClient
  import opened Peripheral

  /** The service the peripheral serves has everything the central needs to subscribe. */
  lemma {:induction false} LocalServiceReadyToSubscribe()
    ensures ReadyToSubscribe(GATT_SUCCESS, [LOCAL_SERVICE])
  {
    assert FindService([LOCAL_SERVICE], ServiceUuid) == Some(LOCAL_SERVICE);
    assert FindCharacteristic(LOCAL_SERVICE, WriteCharUuid).Some?;
    assert FindCharacteristic(LOCAL_SERVICE, NotifyCharUuid) == Some(LOCAL_SERVICE.characteristics[1]);
  }

  /** Discovering the peripheral's service makes the central write ENABLE to the CCCD. */
  method CentralSubscribesToPeripheral(c: GattClientManager, g: Gatt) returns (fx: seq<Effect>)
    ensures WriteDescriptor(g.handle, CccdUuid, ENABLE_NOTIFICATION_VALUE) in fx
    ensures SetCharacteristicNotification(g.handle, NotifyCharUuid, true) in fx
  {
    LocalServiceReadyToSubscribe();
    fx := c.OnServicesDiscovered(g, GATT_SUCCESS, [LOCAL_SERVICE], true, true);
  }

  /**
   * A peer whose service lacks the write characteristic is never subscribed
   * to, even though its notify characteristic and CCCD are in place.
   */
  method MissingWriteCharacteristicBlocksSubscription(c: GattClientManager, g: Gatt) returns (fx: seq<Effect>)
    ensures WriteDescriptor(g.handle, CccdUuid, ENABLE_NOTIFICATION_VALUE) !in fx
    ensures SetCharacteristicNotification(g.handle, NotifyCharUuid, true) !in fx
    ensures Log(ERROR) in fx
  {
    var notifyOnly := Service(ServiceUuid, [Characteristic(NotifyCharUuid, PROPERTY_NOTIFY, [CccdUuid])]);
    assert FindCharacteristic(notifyOnly, WriteCharUuid).None?;
    fx := c.OnServicesDiscovered(g, GATT_SUCCESS, [notifyOnly], true, true);
  }

  /** What the peripheral broadcasts, a central hands to its host as the same text. */
  method NotificationRoundTrip(p: BLEPeripheralManager, c: GattClientManager, g: Gatt, message: string)
    returns (sent: seq<Effect>, received: seq<Effect>)
    requires p.Valid() && p.server == Some([LOCAL_SERVICE]) && message != []
    modifies p
    ensures sent == NotifyAll(p.connectedDevices, Utf8.Encode(message)) + [Log(INFO)]
    ensures received == [OnMessageReceived(message)]
  {
    assert FindService([LOCAL_SERVICE], ServiceUuid) == Some(LOCAL_SERVICE);
    assert LOCAL_SERVICE.characteristics[1].uuid == NotifyCharUuid;
    sent := p.SendMessageToAllCentrals(message);
    Utf8.DecodeEncode(message);
    received := c.OnCharacteristicChanged(g, NotifyCharUuid, p.notifyValue);
  }

  /**
   * A fresh peripheral advertises a newly generated id; a central that does
   * not remember it hands the scanned device to its listener with that id.
   */
  method DiscoverNewPeripheral(p: BLEPeripheralManager, c: GattClientManager, device: Device,
                               letterDraws: seq<nat>, digitDraws: seq<nat>, mixDraws: seq<nat>)
    returns (found: seq<Effect>)
    requires p.Valid() && p.ids.storedId.None? && c.Valid()
    requires ValidDraws(26, letterDraws) && ValidDraws(10, digitDraws) && ValidDraws(6, mixDraws)
    requires c.recent == []
    modifies p, p.ids, c, c.scan
    ensures p.ids.storedId.Some? && IsInstallationId(p.ids.storedId.value)
    ensures found == [Log(DEBUG), OnDeviceFound(device, p.ids.storedId.value)]
  {
    var _ := p.StartAdvertising(true, true, true, letterDraws, digitDraws, mixDraws);
    var id := p.ids.storedId.value;
    AdvertisementCarriesId(id);
    found := c.OnScanResult(device, ServiceData(Advertisement(id), ServiceDataUuid), true, false, true, 0);
  }

  /**
   * Two messages sent within the 500 ms delay: both posted writes run with
   * the characteristic's value as the second send left it, so the first
   * message is never written.
   */
  method SendsWithinDelayCoalesce(c: GattClientManager, services: seq<Service>, first: string, second: string)
    returns (writes: seq<Effect>)
    requires c.Valid() && c.gatt.Some? && c.pendingWrites == 0
    requires Lookup(services, ServiceUuid, WriteCharUuid).Some?
    modifies c
    ensures writes == [WriteCharacteristic(old(c.gatt).value.handle, Utf8.Encode(second), WRITE_TYPE_DEFAULT), Log(DEBUG),
                       WriteCharacteristic(old(c.gatt).value.handle, Utf8.Encode(second), WRITE_TYPE_DEFAULT), Log(DEBUG)]
  {
    var _ := c.SendMessage(first, services);
    var _ := c.SendMessage(second, services);
    var w1 := c.OnWriteTimer();
    var w2 := c.OnWriteTimer();
    writes := w1 + w2;
  }

  /**
   * Two `connect` calls while the link is down: both attempts are issued,
   * the second handle replaces the first in the slot, and the recorded id
   * is the second peer's.
   */
  method ConnectTwice(c: GattClientManager, a: Device, idA: string, b: Device, idB: string)
    returns (handleA: Gatt, first: seq<Effect>, second: seq<Effect>)
    requires c.Valid() && c.gatt.None?
    modifies c
    ensures c.Valid() && c.Issued(handleA) && handleA.device == a
    ensures first == [Log(INFO), ConnectGatt(a, handleA.handle)]
    ensures second == [Log(INFO), ConnectGatt(b, handleA.handle + 1)]
    ensures c.gatt == Some(Gatt(handleA.handle + 1, b))
    ensures c.currentId == Some(idB) && c.recent == old(c.recent)
  {
    first := c.Connect(a, idA, true, false, 0);
    handleA := Gatt(c.nextHandle - 1, a);
    second := c.Connect(b, idB, true, false, 0);
  }

  /** The first save into an empty directory leaves that one entry. */
  lemma {:induction false} FirstSave(id: string, address: string)
    ensures RecentDevices.Save([], id, address) == [RecentDevices.Entry(id, address)]
  {
  }

  /**
   * A second `connect` while the first attempt is still pending replaces
   * the recorded id; when the first attempt then connects, its address is
   * remembered under the second peer's id.
   */
  method ConnectWhilePendingMisattributes(c: GattClientManager, a: Device, idA: string, b: Device, idB: string)
    returns (fx: seq<Effect>)
    requires c.Valid() && c.gatt.None? && c.recent == []
    modifies c, c.loop, c.scan
    ensures c.GetMacForUniqueId(idB) == Some(a.address)
    ensures idA != idB ==> c.GetMacForUniqueId(idA) == None
  {
    var handleA, _, _ := ConnectTwice(c, a, idA, b, idB);
    fx := c.OnConnectionStateChange(handleA, GATT_SUCCESS, STATE_CONNECTED, false, true, true);
    FirstSave(idB, a.address);
  }

  /** `startScanning()` twice: two chains of posted reconnect runs, so two reconnect attempts per interval. */
  method StartScanningTwice(c: GattClientManager) returns (first: seq<Effect>, second: seq<Effect>)
    requires c.Valid() && c.loop.pending == 0
    modifies c.loop, c.scan
    ensures c.loop.pending == 2
  {
    first := c.StartScanning(true, false, true);
    second := c.StartScanning(true, false, true);
  }

  /**
   * The CCCD is one value for the whole server: a second central writing
   * DISABLE turns it off for the first as well, and the broadcast still
   * reaches both, whatever either wrote.
   */
  method SharedSubscriptionFlag(p: BLEPeripheralManager, a: Device, b: Device, message: string)
    returns (fx: seq<Effect>)
    requires p.Valid() && p.server == Some([LOCAL_SERVICE]) && p.connectedDevices == [] && a != b
    modifies p
    ensures p.cccdValue == DISABLE_NOTIFICATION_VALUE
    ensures NotifyCharacteristicChanged(a, NotifyCharUuid, Utf8.Encode(message), false) in fx
    ensures NotifyCharacteristicChanged(b, NotifyCharUuid, Utf8.Encode(message), false) in fx
  {
    SubscribeThenUnsubscribe(p, a, b);
    assert p.server.value[0].characteristics[1].uuid == NotifyCharUuid;
    fx := p.SendMessageToAllCentrals(message);
    assert fx[0] == NotifyCharacteristicChanged(a, NotifyCharUuid, Utf8.Encode(message), false);
    assert fx[1] == NotifyCharacteristicChanged(b, NotifyCharUuid, Utf8.Encode(message), false);
  }

  /** Two centrals connect; the first enables notifications, the second disables them. */
  method SubscribeThenUnsubscribe(p: BLEPeripheralManager, a: Device, b: Device)
    requires p.Valid() && p.connectedDevices == [] && a != b
    modifies p
    ensures p.Valid() && p.server == old(p.server)
    ensures p.connectedDevices == [a, b] && p.cccdValue == DISABLE_NOTIFICATION_VALUE
  {
    var _ := p.OnConnectionStateChange(Some(a), GATT_SUCCESS, STATE_CONNECTED);
    var _ := p.OnConnectionStateChange(Some(b), GATT_SUCCESS, STATE_CONNECTED);
    var _ := p.OnDescriptorWriteRequest(Some(a), 1, Some(CccdUuid), false, true, 0, Some(ENABLE_NOTIFICATION_VALUE));
    var _ := p.OnDescriptorWriteRequest(Some(b), 2, Some(CccdUuid), false, true, 0, Some(DISABLE_NOTIFICATION_VALUE));
  }

  /** After `stopAdvertising()` the connected set is not cleared: a later broadcast is silently dropped only because the server is gone. */
  method StopKeepsConnectedSet(p: BLEPeripheralManager, message: string) returns (fx: seq<Effect>)
    requires p.Valid()
    modifies p
    ensures p.connectedDevices == old(p.connectedDevices)
    ensures fx == []
  {
    var _ := p.StopAdvertising(true, true);
    fx := p.SendMessageToAllCentrals(message);
  }
}
