# BLE-Sample link management in Dafny

This project models the link-management core of the Android BLE sample app. The app plays two roles.

- **Central** (`GattClientManager`). It scans for peers that advertise the sample's service. Each peer carries its installation id as service data. The central connects automatically to a peer it remembers and hands unknown peers to the host. It subscribes to the peer's notify characteristic and writes messages to its write characteristic. Connections that fail or drop are retried by a reconnect loop, which scans every 25 s.
- **Peripheral** (`BLEPeripheralManager`). It advertises the service and its installation id, and serves one GATT service with a write characteristic and a notify characteristic. It keeps the set of connected centrals and notifies all of them on request.

Supporting pieces are modelled too:

- the scan session (`ScanHelper`);
- the self-reposting reconnect timer (`ReconnectLoopManager`);
- the installation id generator (`UniqueIdProvider`);
- the recent-peer directory: an insertion-ordered map from a peer's id to its MAC address, cut to its newest five entries.

## How the model is built

**Managers are classes.** Each manager is a `class` whose fields are the object's fields in the app:

- the connection slot and the id of the current peer;
- the recent-peer directory, as it stands in the preferences;
- the running scan's callback;
- the reconnect loop's queue of posted runs;
- the connected-device set, the CCCD value and the notify value.

**Callbacks and calls are methods.** Every platform callback and public call is a method that updates those fields. Each method returns the effects it causes, in order. Effects are radio calls, host callbacks such as `onConnected`, `onMessageReceived` and `onDeviceFound`, and log lines by level.

**Platform queries are parameters.** These are:

- whether the adapter is enabled;
- `getConnectionState`;
- what discovery found on the handle;
- whether the scanner, the advertiser or the GATT server exist;
- whether a close or stop call throws;
- the outcome of `setCharacteristicNotification` and `writeDescriptor`.

**Randomness is explicit.** `shuffled()` is `java.util.Collections.shuffle`. The model takes its drawn swap positions as parameters, so every outcome is covered.

**Pure parts are functions.** These are the recent-peer directory, UTF-8, the shuffle and the effect sequences. Lemmas state their properties.

**Scenarios.** `Scenarios` runs the two managers together. It shows how the roles meet, and it spells out behaviours of the code that a reader might not expect.

**Behaviours of the code the model keeps:**

- A missing write characteristic ends service discovery with an error line, before the notify characteristic is looked at (`app/src/main/java/com/app/blesample/ble/GattClientManager.kt:118-122`). The link never subscribes to notifications in that case. See `GattClient.GattClientManager.OnServicesDiscovered` and `Scenarios.MissingWriteCharacteristicBlocksSubscription`.
- Messages are written with `WRITE_TYPE_DEFAULT` (`app/src/main/java/com/app/blesample/ble/GattClientManager.kt:279`). See `GattClient.GattClientManager.SendMessage`.
- A write request to the peripheral is logged and answered when a response is needed; it reaches the host only as a log line (`app/src/main/java/com/app/blesample/ble/BLEPeripheralManager.kt:138-143`). See `Peripheral.BLEPeripheralManager.OnCharacteristicWriteRequest`.
- The CCCD value is one field of the server's descriptor, shared by every central. A response to a CCCD write is sent whenever the server exists, whatever `responseNeeded` says (`app/src/main/java/com/app/blesample/ble/BLEPeripheralManager.kt:159-166`). See `Scenarios.SharedSubscriptionFlag`.
- `start()` of the reconnect loop runs the runnable, which posts itself again, and `stop()` removes every posted copy (`app/src/main/java/com/app/blesample/helpers/ReconnectLoopManager.kt:11-19`). A second start while the loop runs therefore adds a second chain of posted runs. See `ReconnectLoop.StartsAccumulate` and `Scenarios.StartScanningTwice`.
- The recent peer is saved when the link comes up, before discovery (`app/src/main/java/com/app/blesample/ble/GattClientManager.kt:83-89`). It is saved under whatever id the last `connect` recorded (`app/src/main/java/com/app/blesample/ble/GattClientManager.kt:196`). See `Scenarios.ConnectWhilePendingMisattributes`.
- Posted scan timeouts are never cancelled, and each one calls `stopScan()`, which stops whatever scan runs then (`app/src/main/java/com/app/blesample/helpers/ScanHelper.kt:64-66`). A stale one ends a newer scan. See `Scanning.StaleTimeoutEndsNewerScan`.

## Model

| member | source | states |
|---|---|---|
| Logging.LogLevel.Tag | app/src/main/java/com/app/blesample/LogLevel.kt:3-5 | each level carries its own letter: INFO I, WARN W, ERROR E, DEBUG D, and no other level carries it |
| Ble.First | app/src/main/java/com/app/blesample/ble/GattClientManager.kt:113-118 | the first element that meets the condition: one is found exactly when some element meets it, and every element before the one found does not |
| Ble.FindService | app/src/main/java/com/app/blesample/ble/GattClientManager.kt:113 | a service is found exactly when some discovered service has the identifier; the one found has it and is the first that has it |
| Ble.FindCharacteristic | app/src/main/java/com/app/blesample/ble/GattClientManager.kt:118 | a characteristic is found exactly when the service has one with the identifier; the one found is the first that has it |
| Ble.Lookup | app/src/main/java/com/app/blesample/ble/GattClientManager.kt:270-271 | `getService(..)?.getCharacteristic(..)` succeeds exactly when both steps find something, and yields the first such characteristic of the first such service |
| Ble.ServiceData | app/src/main/java/com/app/blesample/helpers/ScanHelper.kt:43 | the service data under a UUID is found exactly when the advertisement carries an entry for it, and is that entry's bytes |
| Ble.FindData | app/src/main/java/com/app/blesample/helpers/ScanHelper.kt:43 | the bytes under an identifier are found exactly when some entry has it, and they are that entry's bytes |
| Utf8.EncodeChar | app/src/main/java/com/app/blesample/ble/GattClientManager.kt:278 | one character becomes one to four bytes, and one byte exactly for ASCII |
| Utf8.Encode | app/src/main/java/com/app/blesample/ble/GattClientManager.kt:278 | the encoding is empty only for the empty string, and has one byte per character for ASCII text |
| Utf8.Decode | app/src/main/java/com/app/blesample/ble/GattClientManager.kt:173 | decoding gives an empty string exactly for empty bytes |
| Utf8.DecodeHead | app/src/main/java/com/app/blesample/ble/GattClientManager.kt:173 | a well-formed sequence at the head is one to four bytes long and lies within the input |
| Utf8.DecodeHeadEncodeChar | app/src/main/java/com/app/blesample/ble/GattClientManager.kt:173 | the decoder reads back each encoded character and consumes exactly its bytes |
| Utf8.DecodeEncode | app/src/main/java/com/app/blesample/ble/GattClientManager.kt:173 | text encoded as UTF-8 by one side decodes to the same text on the other |
| RecentDevices.Keys | app/src/main/java/com/app/blesample/ble/GattClientManager.kt:256-259 | the ids are listed one per entry, in insertion order |
| RecentDevices.KeysInOrder | app/src/main/java/com/app/blesample/ble/GattClientManager.kt:256-259 | the i-th id listed is the id of the i-th entry |
| RecentDevices.ValidKeys | app/src/main/java/com/app/blesample/ble/GattClientManager.kt:249-254 | a map holds each id once exactly when the id list has no repeats |
| RecentDevices.Lookup | app/src/main/java/com/app/blesample/ble/GattClientManager.kt:261-263 | an address is returned exactly when the id is a key, and the map holds that id with that address |
| RecentDevices.Put | app/src/main/java/com/app/blesample/ble/GattClientManager.kt:241 | an existing id keeps its position and a new id goes last; the id maps to the new address and every other id keeps its address |
| RecentDevices.PutNew | app/src/main/java/com/app/blesample/ble/GattClientManager.kt:241 | a new id is appended as a new last entry |
| RecentDevices.PutValid | app/src/main/java/com/app/blesample/ble/GattClientManager.kt:241 | the upsert keeps each id once |
| RecentDevices.TakeLast | app/src/main/java/com/app/blesample/ble/GattClientManager.kt:244 | the result is the newest n elements, in order |
| RecentDevices.TrimKeepsSaved | app/src/main/java/com/app/blesample/ble/GattClientManager.kt:241-244 | upsert then trim keeps a stored map stored, and the saved id survives the trim with the saved address |
| RecentDevices.Save | app/src/main/java/com/app/blesample/ble/GattClientManager.kt:237-246 | a save leaves at most five entries; saved into a stored map, the result is stored and the saved id maps to the saved address |
| RecentDevices.SaveProperties | app/src/main/java/com/app/blesample/ble/GattClientManager.kt:237-246 | after a save: at most five entries, each id once, the saved id maps to the saved address, the kept ids are the newest of the upserted ids in order, and every other kept id keeps its address |
| RecentDevices.SaveKeys | app/src/main/java/com/app/blesample/ble/GattClientManager.kt:244 | only the oldest ids are dropped; the rest keep their order |
| RecentDevices.SaveKeepsOthers | app/src/main/java/com/app/blesample/ble/GattClientManager.kt:241-244 | every other id the trim keeps maps to the address it had |
| RecentDevices.SaveExistingKeepsOrder | app/src/main/java/com/app/blesample/ble/GattClientManager.kt:241 | updating a remembered peer changes no position |
| RecentDevices.SaveNewIntoFull | app/src/main/java/com/app/blesample/ble/GattClientManager.kt:241-244 | a new peer saved into a full map evicts exactly the oldest id and goes last |
| RecentDevices.SaveNewWithRoom | app/src/main/java/com/app/blesample/ble/GattClientManager.kt:241-244 | a new peer saved into a map with room is appended and nothing is evicted |
| RecentDevices.SaveStep | app/src/main/java/com/app/blesample/ble/GattClientManager.kt:237-246 | one save of a new id moves the remembered window one step along the saved ids |
| RecentDevices.SaveAll | app/src/main/java/com/app/blesample/ble/GattClientManager.kt:237-246 | successive saves keep a stored map stored, and the last save's id maps to its address |
| RecentDevices.SaveAllNew | app/src/main/java/com/app/blesample/ble/GattClientManager.kt:237-246 | over successive saves of new, distinct ids, the map remembers the newest five ids saved, in the order saved |
| RecentDevices.SaveDistinctFromEmpty | app/src/main/java/com/app/blesample/ble/GattClientManager.kt:237-246 | starting empty, distinct saves leave exactly the last five ids |
| RecentDevices.UpdatedPeerStillEvicted | app/src/main/java/com/app/blesample/ble/GattClientManager.kt:241-244 | trimming is by insertion, not use: the oldest peer, just reconnected, is still the one evicted by a new peer |
| InstallationId.Swap | app/src/main/java/com/app/blesample/UniqueIdProvider.kt:22-24 | one shuffle step exchanges the two positions and leaves the rest |
| InstallationId.ShuffleFrom | app/src/main/java/com/app/blesample/UniqueIdProvider.kt:22-24 | the shuffle loop keeps the length, draws only from the input and keeps distinct elements distinct |
| InstallationId.ShuffleFromPermutes | app/src/main/java/com/app/blesample/UniqueIdProvider.kt:22-24 | the shuffle loop yields a permutation |
| InstallationId.Shuffle | app/src/main/java/com/app/blesample/UniqueIdProvider.kt:22-24 | `shuffled()` keeps the length, the elements and their distinctness |
| InstallationId.ShufflePermutes | app/src/main/java/com/app/blesample/UniqueIdProvider.kt:22-24 | `shuffled()` yields a permutation of its input, whatever the draws |
| InstallationId.CharRange | app/src/main/java/com/app/blesample/UniqueIdProvider.kt:22 | `'A'..'Z'` is the 26 consecutive capitals |
| InstallationId.Range | app/src/main/java/com/app/blesample/UniqueIdProvider.kt:23 | `0..9` is the ten numbers in order |
| InstallationId.JoinDigits | app/src/main/java/com/app/blesample/UniqueIdProvider.kt:23 | each digit is written as one decimal character |
| InstallationId.PickLetters | app/src/main/java/com/app/blesample/UniqueIdProvider.kt:22 | the letter part is three different capitals |
| InstallationId.PickDigits | app/src/main/java/com/app/blesample/UniqueIdProvider.kt:23 | the digit part is three different decimal digits |
| InstallationId.MixShape | app/src/main/java/com/app/blesample/UniqueIdProvider.kt:24 | the final shuffle keeps six different characters, letters and digits only |
| InstallationId.MixCounts | app/src/main/java/com/app/blesample/UniqueIdProvider.kt:24 | the final shuffle keeps exactly three letters and three digits |
| InstallationId.GetRandomString | app/src/main/java/com/app/blesample/UniqueIdProvider.kt:21-25 | every generated id has six different characters, exactly three capitals and three digits, and is a permutation of the letter part followed by the digit part |
| InstallationId.UniqueIdProvider.GetOrCreateId | app/src/main/java/com/app/blesample/UniqueIdProvider.kt:9-19 | a stored id is returned unchanged; otherwise a well-shaped id is generated, stored and returned |
| InstallationId.GetOrCreateIdIsStable | app/src/main/java/com/app/blesample/UniqueIdProvider.kt:9-19 | two requests return the same id, whatever the generator draws |
| ReconnectLoop.LastStop | app/src/main/java/com/app/blesample/helpers/ReconnectLoopManager.kt:19 | the last stop is a stop and no stop follows it |
| ReconnectLoop.Pending | app/src/main/java/com/app/blesample/helpers/ReconnectLoopManager.kt:11-19 | never more runs are posted than there were starts |
| ReconnectLoop.PendingIsStartsSinceStop | app/src/main/java/com/app/blesample/helpers/ReconnectLoopManager.kt:11-19 | the posted runs are exactly the starts since the last stop |
| ReconnectLoop.NoFireAfterStop | app/src/main/java/com/app/blesample/helpers/ReconnectLoopManager.kt:19 | after a stop nothing is pending and no run fires until the next start |
| ReconnectLoop.StartsAccumulate | app/src/main/java/com/app/blesample/helpers/ReconnectLoopManager.kt:18 | each start adds one more chain, so k starts add k pending runs |
| ReconnectLoop.FeasibleExtend | app/src/main/java/com/app/blesample/helpers/ReconnectLoopManager.kt:11-19 | start adds one run, a fire keeps the count, stop empties the queue |
| ReconnectLoop.ReconnectLoopManager.constructor | app/src/main/java/com/app/blesample/helpers/ReconnectLoopManager.kt:6-10 | a new loop has nothing posted |
| ReconnectLoop.ReconnectLoopManager.Start | app/src/main/java/com/app/blesample/helpers/ReconnectLoopManager.kt:18 | one more run is posted |
| ReconnectLoop.ReconnectLoopManager.Fire | app/src/main/java/com/app/blesample/helpers/ReconnectLoopManager.kt:11-16 | a fired run re-posts itself, so the count is kept |
| ReconnectLoop.ReconnectLoopManager.Stop | app/src/main/java/com/app/blesample/helpers/ReconnectLoopManager.kt:19 | every posted run is removed; with none posted nothing changes |
| Scanning.ScanResultId | app/src/main/java/com/app/blesample/helpers/ScanHelper.kt:43-47 | a result has an identity exactly when its service data is present and non-empty; the identity is the UTF-8 decoding of those bytes |
| Scanning.AdvertisedIdRecovered | app/src/main/java/com/app/blesample/helpers/ScanHelper.kt:43-54 | an id advertised as UTF-8 is reported as exactly that id |
| Scanning.StopEffects | app/src/main/java/com/app/blesample/helpers/ScanHelper.kt:69-75 | a stop does something exactly when a scan runs, and then ends with its log line |
| Scanning.StartEffects | app/src/main/java/com/app/blesample/helpers/ScanHelper.kt:30-67 | a start stops the running scan (if any) and never after starting the new one, starts the new one exactly when a scanner exists, and posts exactly one timeout, last |
| Scanning.StopEffectsStopRunning | app/src/main/java/com/app/blesample/helpers/ScanHelper.kt:69-75 | the scanner is told to stop exactly the running scan, and only when a scanner exists |
| Scanning.ScanHelper.constructor | app/src/main/java/com/app/blesample/helpers/ScanHelper.kt:19-28 | no scan runs and no timeout is posted |
| Scanning.ScanHelper.StartScan | app/src/main/java/com/app/blesample/helpers/ScanHelper.kt:30-67 | the new scan is the only running scan, under a fresh callback, and one more timeout is posted |
| Scanning.ScanHelper.StopScan | app/src/main/java/com/app/blesample/helpers/ScanHelper.kt:69-75 | no scan runs afterwards; the running one, if any, is stopped |
| Scanning.ScanHelper.FireTimeout | app/src/main/java/com/app/blesample/helpers/ScanHelper.kt:64-66 | a posted timeout stops whatever scan runs now |
| Scanning.ScanHelper.OnScanFailed | app/src/main/java/com/app/blesample/helpers/ScanHelper.kt:57-59 | a failure is logged as an error and nothing is retried |
| Scanning.StopScanIdempotent | app/src/main/java/com/app/blesample/helpers/ScanHelper.kt:69-75 | a second stop emits nothing |
| Scanning.StaleTimeoutEndsNewerScan | app/src/main/java/com/app/blesample/helpers/ScanHelper.kt:30-67 | the first scan's timeout ends the second scan |
| GattClient.CloseEffects | app/src/main/java/com/app/blesample/ble/GattClientManager.kt:72-76 | the handle is closed first, and an error is logged exactly when the close throws |
| GattClient.Notifiable | app/src/main/java/com/app/blesample/ble/GattClientManager.kt:132-133 | notifiable means the NOTIFY property bit is set |
| GattClient.ReadyToSubscribe | app/src/main/java/com/app/blesample/ble/GattClientManager.kt:107-151 | ready exactly when discovery succeeded and the first service with the sample's identifier holds both characteristics, the notify one notifiable and carrying the CCCD |
| GattClient.ReconnectScan | app/src/main/java/com/app/blesample/ble/GattClientManager.kt:203-215 | with the slot empty, a restart of the loop scans exactly when the adapter is on |
| GattClient.Subscribe | app/src/main/java/com/app/blesample/ble/GattClientManager.kt:136-151 | a notifiable characteristic always gets local delivery enabled; ENABLE is written to its CCCD exactly when the descriptor exists, and an error is logged exactly when it does not |
| GattClient.GattClientManager.constructor | app/src/main/java/com/app/blesample/ble/GattClientManager.kt:22-60 | an empty slot, an idle loop and scan, and the stored directory |
| GattClient.GattClientManager.Connect | app/src/main/java/com/app/blesample/ble/GattClientManager.kt:191-201 | nothing happens with the adapter off or a link up; otherwise the id is recorded and the slot gets a fresh handle, replacing any pending one |
| GattClient.GattClientManager.TryReconnect | app/src/main/java/com/app/blesample/ble/GattClientManager.kt:203-215 | nothing happens with the adapter off or a link up; otherwise exactly one 5000 ms scan starts |
| GattClient.GattClientManager.StartScanning | app/src/main/java/com/app/blesample/ble/GattClientManager.kt:187-189 | one more loop run is posted and a reconnect attempt is made at once: with the adapter on and no link, a new scan under the next callback number with one more timeout posted; otherwise no scan state changes |
| GattClient.GattClientManager.OnReconnectTick | app/src/main/java/com/app/blesample/ble/GattClientManager.kt:34 | a fired run keeps the pending count and makes one reconnect attempt, with the same scan state as a start |
| GattClient.GattClientManager.SaveRecentDevice | app/src/main/java/com/app/blesample/ble/GattClientManager.kt:237-247 | the directory becomes the save of (id, address): that id maps to that address, with at most five entries |
| GattClient.GattClientManager.GetRecentDevices | app/src/main/java/com/app/blesample/ble/GattClientManager.kt:256-259 | the id of each entry in the map's order, oldest first; at most five, all distinct, and exactly the ids that have an address |
| GattClient.GattClientManager.GetMacForUniqueId | app/src/main/java/com/app/blesample/ble/GattClientManager.kt:261-263 | an address exactly for a remembered id, and the one stored with it |
| GattClient.GattClientManager.ClearRecentDevices | app/src/main/java/com/app/blesample/ble/GattClientManager.kt:265-267 | afterwards no id has an address |
| GattClient.GattClientManager.OnConnectionStateChange | app/src/main/java/com/app/blesample/ble/GattClientManager.kt:64-105 | failure empties the slot and restarts the loop; connected fills the slot, stops the loop, saves (current id, address) and discovers services; disconnected empties the slot, zeroes the start time and restarts the loop; any other state only logs. A restart with the adapter on starts a new scan and posts one more timeout; with it off, and in the other branches, the scan state is unchanged |
| GattClient.GattClientManager.HandleLinkFailure | app/src/main/java/com/app/blesample/ble/GattClientManager.kt:70-80 | the handle is closed, the slot emptied, and the loop restarted, with a new scan exactly when the adapter is on |
| GattClient.GattClientManager.CloseAndRetry | app/src/main/java/com/app/blesample/ble/GattClientManager.kt:94-101 | close, empty the slot, reset the start time when asked, and restart the loop, with a new scan exactly when the adapter is on |
| GattClient.GattClientManager.HandleLinkUp | app/src/main/java/com/app/blesample/ble/GattClientManager.kt:83-90 | the slot holds the handle, nothing is pending in the loop, the peer is saved, discovery starts |
| GattClient.GattClientManager.HandleLinkDown | app/src/main/java/com/app/blesample/ble/GattClientManager.kt:92-103 | the handle is closed, the slot emptied, the start time zeroed, and the loop restarted, with a new scan exactly when the adapter is on |
| GattClient.GattClientManager.OnServicesDiscovered | app/src/main/java/com/app/blesample/ble/GattClientManager.kt:107-155 | notifications are enabled exactly when discovery succeeded with both characteristics present and the notify one notifiable; the enable value is written to the CCCD exactly when, in addition, the CCCD exists; an error is logged exactly when discovery succeeded but that chain breaks; readiness is never signalled here |
| GattClient.GattClientManager.OnDescriptorWrite | app/src/main/java/com/app/blesample/ble/GattClientManager.kt:157-166 | `onConnected` fires exactly when the descriptor write succeeded, otherwise an error is logged |
| GattClient.GattClientManager.OnCharacteristicChanged | app/src/main/java/com/app/blesample/ble/GattClientManager.kt:168-178 | a non-empty payload gives exactly one message, its UTF-8 text; an empty one gives only a warning |
| GattClient.GattClientManager.OnCharacteristicWrite | app/src/main/java/com/app/blesample/ble/GattClientManager.kt:180-184 | a write result is only logged |
| GattClient.GattClientManager.OnScanResult | app/src/main/java/com/app/blesample/ble/GattClientManager.kt:46-57 | no identity: nothing; unknown id: handed to the listener, nothing else changes; remembered id: the scan stops, the device is never handed to the listener, and the connect is made, taking the next handle and the new start time, or changing nothing more when the adapter is off or a link is up. The directory, the loop, the pending writes and the posted timeouts never change |
| GattClient.GattClientManager.OnScanTimeout | app/src/main/java/com/app/blesample/helpers/ScanHelper.kt:64-66 | the posted stop ends the current scan |
| GattClient.GattClientManager.SendMessage | app/src/main/java/com/app/blesample/ble/GattClientManager.kt:269-281 | without the write characteristic only an error is logged and no write is posted; otherwise the characteristic takes the UTF-8 bytes with WRITE_TYPE_DEFAULT and exactly one write is posted 500 ms ahead |
| GattClient.GattClientManager.OnWriteTimer | app/src/main/java/com/app/blesample/ble/GattClientManager.kt:282-285 | the posted write sends the characteristic's current value through the current handle, if any |
| GattClient.GattClientManager.Disconnect | app/src/main/java/com/app/blesample/ble/GattClientManager.kt:288-294 | the slot is emptied, the loop stopped and the scan stopped; when `close()` throws, nothing after the close happens and the slot, the loop and the scan stay as they were; the recorded id, the directory, the start time, the write state and the posted timeouts are always kept |
| Peripheral.ReadReply | app/src/main/java/com/app/blesample/ble/BLEPeripheralManager.kt:127-131 | a read answer is a success at offset 0 to that request, carrying bytes that decode to "Server Ready" |
| Peripheral.Advertisement | app/src/main/java/com/app/blesample/ble/BLEPeripheralManager.kt:48-52 | the advertisement names the service, not the device, and carries the id's UTF-8 bytes as service data |
| Peripheral.AdvertisementCarriesId | app/src/main/java/com/app/blesample/ble/BLEPeripheralManager.kt:46-51 | a central scanning the advertisement reports exactly the installation id |
| Peripheral.Add | app/src/main/java/com/app/blesample/ble/BLEPeripheralManager.kt:106 | adding to the set keeps it a set; a device already in it changes nothing, a new one grows it by one |
| Peripheral.Remove | app/src/main/java/com/app/blesample/ble/BLEPeripheralManager.kt:113 | removal leaves exactly the other devices; removing an absent device changes nothing |
| Peripheral.RemoveDistinct | app/src/main/java/com/app/blesample/ble/BLEPeripheralManager.kt:30 | the set stays a set when a device leaves |
| Peripheral.RemoveMember | app/src/main/java/com/app/blesample/ble/BLEPeripheralManager.kt:113 | removing a member shrinks the set by exactly one |
| Peripheral.NotifyAll | app/src/main/java/com/app/blesample/ble/BLEPeripheralManager.kt:204-206 | one unconfirmed notification of the value per device, in order |
| Peripheral.NotifyAllReachesEachOnce | app/src/main/java/com/app/blesample/ble/BLEPeripheralManager.kt:204-206 | a broadcast reaches each connected device exactly once, nobody else, always with the same payload |
| Peripheral.NotifyEach | app/src/main/java/com/app/blesample/ble/BLEPeripheralManager.kt:204-206 | the loop emits exactly the broadcast |
| Peripheral.BLEPeripheralManager.constructor | app/src/main/java/com/app/blesample/ble/BLEPeripheralManager.kt:23-30 | no advertiser, no server, no connected device |
| Peripheral.BLEPeripheralManager.StartAdvertising | app/src/main/java/com/app/blesample/ble/BLEPeripheralManager.kt:32-56 | without multi-advertisement support: an error and no change; otherwise the id is created or reused, the advertisement carries it, and the server is started with its service |
| Peripheral.BLEPeripheralManager.StartGattServer | app/src/main/java/com/app/blesample/ble/BLEPeripheralManager.kt:68-99 | an opened server holds exactly the local service, and the CCCD starts disabled |
| Peripheral.BLEPeripheralManager.OnAdvertiseStarted | app/src/main/java/com/app/blesample/ble/BLEPeripheralManager.kt:58-66 | success and failure are only logged |
| Peripheral.BLEPeripheralManager.OnConnectionStateChange | app/src/main/java/com/app/blesample/ble/BLEPeripheralManager.kt:103-121 | STATE_CONNECTED adds the device to the set; any other state removes it; the status is ignored; a null device changes nothing |
| Peripheral.BLEPeripheralManager.OnCharacteristicReadRequest | app/src/main/java/com/app/blesample/ble/BLEPeripheralManager.kt:123-132 | a read of the write characteristic is answered with the ready reply; any other read gets no answer |
| Peripheral.BLEPeripheralManager.OnCharacteristicWriteRequest | app/src/main/java/com/app/blesample/ble/BLEPeripheralManager.kt:134-153 | an empty success response is sent exactly when one is needed and the server exists; nothing is passed to the host or echoed |
| Peripheral.BLEPeripheralManager.OnDescriptorWriteRequest | app/src/main/java/com/app/blesample/ble/BLEPeripheralManager.kt:155-172 | on the CCCD the value becomes ENABLE exactly when ENABLE was written, DISABLE otherwise, and a success response is sent; other descriptors are ignored |
| Peripheral.BLEPeripheralManager.SendMessageToAllCentrals | app/src/main/java/com/app/blesample/ble/BLEPeripheralManager.kt:199-209 | without server, service or notify characteristic: nothing; otherwise the value becomes the message bytes and every connected device is notified once |
| Peripheral.BLEPeripheralManager.StopAdvertising | app/src/main/java/com/app/blesample/ble/BLEPeripheralManager.kt:175-197 | advertiser and server are both null afterwards whatever throws; each is stopped exactly when it existed; the connected set is kept |
| Scenarios.LocalServiceReadyToSubscribe | app/src/main/java/com/app/blesample/ble/BLEPeripheralManager.kt:68-99 | the peripheral's service has everything a central needs to subscribe |
| Scenarios.CentralSubscribesToPeripheral | app/src/main/java/com/app/blesample/ble/GattClientManager.kt:136-150 | discovering the peripheral's service enables notifications and writes ENABLE to its CCCD |
| Scenarios.MissingWriteCharacteristicBlocksSubscription | app/src/main/java/com/app/blesample/ble/GattClientManager.kt:118-121 | a peer without the write characteristic is never subscribed to, though its notify side is complete |
| Scenarios.NotificationRoundTrip | app/src/main/java/com/app/blesample/ble/BLEPeripheralManager.kt:199-209 | a broadcast message reaches the central's host as the same text |
| Scenarios.DiscoverNewPeripheral | app/src/main/java/com/app/blesample/ble/GattClientManager.kt:46-57 | a fresh peripheral's new id reaches the central's listener unchanged |
| Scenarios.SendsWithinDelayCoalesce | app/src/main/java/com/app/blesample/ble/GattClientManager.kt:278-285 | two sends within 500 ms both write the second message |
| Scenarios.ConnectTwice | app/src/main/java/com/app/blesample/ble/GattClientManager.kt:191-201 | two connects while no link is up both issue an attempt, on consecutive handles; the second handle holds the slot and the recorded id is the second |
| Scenarios.FirstSave | app/src/main/java/com/app/blesample/ble/GattClientManager.kt:237-246 | the first save into an empty map leaves that one entry |
| Scenarios.ConnectWhilePendingMisattributes | app/src/main/java/com/app/blesample/ble/GattClientManager.kt:84-88 | when the first attempt connects, its address is remembered under the second peer's id |
| Scenarios.StartScanningTwice | app/src/main/java/com/app/blesample/ble/GattClientManager.kt:187-189 | two calls leave two posted loop runs |
| Scenarios.SubscribeThenUnsubscribe | app/src/main/java/com/app/blesample/ble/BLEPeripheralManager.kt:155-172 | the second central's DISABLE overrides the first central's ENABLE |
| Scenarios.SharedSubscriptionFlag | app/src/main/java/com/app/blesample/ble/BLEPeripheralManager.kt:159-165 | with the one CCCD disabled, a broadcast still reaches both centrals |
| Scenarios.StopKeepsConnectedSet | app/src/main/java/com/app/blesample/ble/BLEPeripheralManager.kt:175-209 | stopping keeps the connected set, and a later broadcast does nothing only because the server is gone |

## Left out

- Radio, Handler and preference I/O. Radio calls are effects, queries are parameters, and posted runs are explicit events: `OnReconnectTick`, `OnScanTimeout` and `OnWriteTimer`. Delays are recorded but no clock is modelled.
- `System.nanoTime` and the connection-time log: the start time is a parameter, and the elapsed time is not computed.
- The JSON and SharedPreferences round trip of the recent map. The map is an entry sequence, which is what org.json's insertion-ordered keys preserve. `getRecentDeviceMap` is the `recent` field.
- Thread safety of `CopyOnWriteArraySet`, and any concurrency. Callbacks run one at a time.
- Log wording, the `Log.d` line of `ScanHelper`, and device-name resolution for the found-device log line. Logs are modelled by level only.
- Scan filter and settings objects: the start effect records the filtered service and the scan mode.
- Advertise settings beyond connectability and mode.
- The UUID literals: the constants file that defines them is not part of this model. Identifiers are compared only for identity.
- `connectGatt` returning null: the model assumes a handle is always returned.
- Callbacks for handles the manager never obtained are not modelled (`Issued`). For those, `currentUniqueDeviceID` might still be uninitialised.
- The write characteristic object is one value per manager, not one per discovered handle.
- `clearNotifyCharacteristic` and `resetGattServer` (both private and never called).
- The earlier central and peripheral managers, `MainActivity`, `BLECentralManager` (pure delegation) and `BluetoothStateMonitor`.
- Utf8.Encode: strings are sequences of Unicode scalar values, so unpaired surrogates are not modelled; the JVM encoder writes such a surrogate as `?`.
- Utf8.Decode: a byte that starts no well-formed sequence becomes one U+FFFD, and decoding moves on by one byte. The JVM decoder may group malformed bytes differently. The managers only decode bytes their peer encoded, where the two agree (`Utf8.DecodeEncode`).
- InstallationId.GetRandomString: the draws of `Random` are parameters constrained to their ranges, not a model of the generator's distribution.
- ReconnectLoop.ReconnectLoopManager.Start: the action itself is run by the owner (`GattClientManager.StartScanning` and `OnReconnectTick`), not by the loop object.
