# blink4home adapter core, modelled in Dafny

The blink4home ioBroker adapter polls the Blink cloud service for a summary of
one network and its devices. It mirrors every attribute of that summary into
the ioBroker store as a read-only state. It also relays two kinds of user
writes back to the service: arming or disarming the network, and switching a
camera's motion detection. This project models the four pieces of sequential
logic in `main.js` and proves their properties:

- **Credential unwrapper** (`credential.dfy`). `decrypt(key, value)` is a
  repeating-key XOR over UTF-16 code units. The key is the system secret
  when one is set, else the fixed key `Zgfr56gFe87jJOM`. Strings here are
  sequences of `bv16` code units, because the XOR can produce code units
  (surrogates) that Dafny's `char` does not admit.
- **Schema projection and reconciliation** (`values.dfy`, `paths.dfy`,
  `schema.dfy`, `store.dfy`). A summary is a network object plus a list of
  device objects. Each object is the sequence of its entries in the order
  `Object.entries` yields them. `typeof` becomes a tagged union
  `Value` of booleans, numbers and strings. `createStateObjects` is a method
  with the source's nested loops. It returns the list of create-if-absent
  requests and is proved equal to the specification function
  `Declarations`. The store keeps objects and state values in two maps keyed
  by path, as ioBroker does. `setObjectNotExistsAsync` is create-if-absent
  and `setState` overwrites.
- **Poll scheduler** (`adapter.dfy`). The class `Blink4home` holds the
  `timeout` field and the host's table of pending timers. The store and the
  password are held in the same class. The outcomes of the remote calls
  `setupSystem`, `getSummary` and the creates are a parameter
  (`PollOutcome`). Each polling cycle runs as one method call.
- **Command relay** (`relay.dfy`). `onStateChange` is a pure function from
  the id and the optional state to a `Command`. The store paths the adapter
  writes are relative to its namespace `<adapter>.<instance>`. Notifications
  carry full ids. That is why the arm branch expects 4 segments and the
  motion branch 5. `RelayOnMirroredStates` proves that this lines up with
  the projection.

Remote calls, timers and the store are host or library code. They appear
only through their effect: the outcome parameter, the `timers` map, and the
`objects` and `states` maps.

Paths are guaranteed unique when names and keys contain no `.` and device
names are distinct. `EntriesDistinct` is proved under those conditions
(`WellFormed`). Distinct device names are necessary, since every device has a
`name` key. Dot-free names and keys are sufficient but not necessary. Without them, a network key `cam1.enabled` would
collide with device `cam1`'s `enabled` attribute.

## Model

| member | source | states |
|---|---|---|
| Credential.Decrypt | main.js:39-45 | the result has the value's length, and its code unit i is `key[i mod key.length] XOR value[i]`; it equals `Decrypted(key, value)`, which its index loop builds |
| Credential.DecryptedAt | main.js:41-43 | every code unit of `Decrypted(key, value)` is the value's code unit XOR the key's code unit at the same index modulo the key length |
| Credential.DecryptInvolution | main.js:42 | decrypting twice with the same key returns the original string (XOR on 16-bit code units is an involution) |
| Credential.ChooseKey | main.js:28-35 | the key is never empty; it is the system secret when that is present and non-empty, else the fallback key `Zgfr56gFe87jJOM` |
| Adapter.Blink4home.SetupEncryption | main.js:28-37 | the password becomes `Decrypted(ChooseKey(secret), old password)` |
| Paths.Split | main.js:185 | `id.split('.')` yields at least one piece and no piece contains a dot |
| Paths.JoinSplit | main.js:185 | joining the pieces of a split with `.` gives back the id |
| Paths.SplitJoin | main.js:185 | splitting a `.`-join of dot-free pieces gives back the pieces |
| Paths.SplitThree | main.js:113 | a `<network>.<device>.<key>` path of dot-free parts splits into those three parts |
| Paths.SplitCons | main.js:185 | splitting `a + '.' + r` with dot-free `a` gives `a` followed by the pieces of `r` |
| Schema.CreateStateObjects | main.js:86-129 | the requests pushed by the nested loops are exactly `Declarations(summary)`: one per network attribute, then one per attribute of each device in list order |
| Schema.EntriesCount | main.js:88-128 | the number of declarations is the number of network attributes plus the attribute count summed over the devices |
| Schema.NetworkLayout | main.js:89-106 | for every named summary, with or without devices, the first declarations are the network attributes in order, attribute k at position k with path `network.name + '.' + key` |
| Schema.EntriesLayout | main.js:108-127 | attribute k of device j is declared at position `network.length + AttrCount(devices[..j]) + k`, with path `network.name + '.' + device.name + '.' + key` |
| Schema.DeviceEntryAt | main.js:108-127 | attribute k of device j is found at position `AttrCount(devices[..j]) + k` of the device part |
| Schema.DeviceEntryOwner | main.js:108-127 | every device declaration comes from one attribute k of one device j, found at exactly that position |
| Schema.DeclarationsContents | main.js:93-124 | each declaration is a `state` object named after its key, typed by `typeof` of its value, role `indicator`, read-only, with `native.id` equal to its path |
| Schema.NetworkPathSegments | main.js:93 | a network attribute's path splits into network name and key |
| Schema.DevicePathSegments | main.js:113 | a device attribute's path splits into network name, device name and key |
| Schema.PathsWellFormed | main.js:93-113 | network paths have 2 segments and device paths 3; the first is the network name and the last the key |
| Schema.EntriesDistinct | main.js:86-129 | in a well-formed summary no two declarations share a path |
| Store.ApplyCreatesEffect | main.js:93-105 | create-if-absent: existing objects are never redeclared; exactly the accepted paths are added; with the creates resolved in request order, a new path gets the declaration of its first request |
| Store.CreatesIdempotent | main.js:152-153 | issuing the same creates a second time changes nothing |
| Store.ApplyWritesEffect | main.js:131-144 | the writes touch exactly the entries' paths; each holds its entry's value with `ack = true`; every other state is unchanged |
| Store.ApplyWritesKeys | main.js:131-144 | the writes add exactly the entries' paths to the store and remove none |
| Store.ApplyWritesAt | main.js:131-144 | when paths are distinct, each entry's path ends up holding that entry's value, acknowledged |
| Store.ApplyWritesUntouched | main.js:131-144 | a state whose path no entry names keeps its value |
| Store.ApplyWritesAppend | main.js:131-144 | writing the network entries and then the device entries is the same as writing their concatenation |
| Store.ApplyWritesOverwrites | main.js:131-144 | a path some entry names holds the same state after the writes whatever the store held before |
| Store.ApplyWritesFrame | main.js:131-144 | two stores that agree outside the entries' paths are equal after the writes |
| Store.WritesIdempotent | main.js:131-144 | writing the same entries twice gives the same states as writing them once, for every entry list, repeated paths included |
| Store.ReconcileIdempotent | main.js:152-155 | a second reconciliation of the same named summary issues only no-op creates and changes no value |
| Store.Mirrored | main.js:152-155 | after a cycle whose creates all resolved, every attribute's path has an object (its own declaration if it was new) and a state with its value, acknowledged |
| Adapter.Blink4home.WriteEntity | main.js:132-141 | the loop over one object's attributes leaves the states equal to the earlier writes followed by `prefix + key := value`, acknowledged, for each attribute in order |
| Adapter.Blink4home.WriteDevices | main.js:137-143 | the loop over the devices leaves the states equal to the old states with every device attribute written under `<network>.<device name>.<key>`, device by device |
| Adapter.Blink4home.UpdateStatesFromSummary | main.js:131-144 | the loops leave the states equal to `ApplyWrites(old states, Entries(summary))` |
| Adapter.Blink4home.Reschedule | main.js:157-158 | clearing then arming leaves exactly one pending timer, under a fresh handle stored in `timeout`, with delay `intsecs*1000` and the same `intsecs` |
| Adapter.Blink4home.PollStatusFromBlinkServers | main.js:146-171 | a rejected `setupSystem` changes nothing and arms no timer; otherwise exactly one timer is pending afterwards; the store changes as `StoreAfterPoll` says: a rejected `getSummary` writes nothing, creates are resolved, and values are written only when every create resolved |
| Adapter.Blink4home.FireTimer | main.js:158 | a fired timer re-runs the poll with its own interval; afterwards either exactly one timer with that interval is pending under a fresh handle held in `timeout`, or none when `setupSystem` rejected, `timeout` unchanged and polling stopped; the store changes exactly as `StoreAfterPoll` says for the outcome |
| Adapter.AtMostOnePending | main.js:157-168 | under the scheduling invariant at most one timer is pending, and it is the one `timeout` holds |
| Adapter.Blink4home.OnAdapterStop | main.js:77-84 | no timer stays pending, and the callback is called once (twice if the first call throws) |
| Adapter.Blink4home.constructor | main.js:27 | a new adapter has `timeout = null` and no pending timer |
| Relay.OnStateChange | main.js:178-226 | a deleted state or an acknowledged state gives no command; otherwise arm iff 4 segments ending in `armed` (network = segment 2, logged `armed` iff `val === true`), motion toggle iff 5 segments ending in `enabled` (camera = segment 3), else nothing |
| Relay.RelayOnMirroredStates | main.js:185-221 | among the adapter's own states, a user write arms exactly on the network's `armed` state and toggles motion exactly on a device's `enabled` state, naming that network or device |
| Relay.NetworkEntrySegments | main.js:185-187 | the full id of a network attribute's state splits into 4 segments: adapter, instance, network name, key |
| Relay.DeviceEntrySegments | main.js:185-205 | the full id of a device attribute's state splits into 5 segments: adapter, instance, network name, the owning device's name, key |
| Relay.ArmRouting | main.js:187-198 | a write on `<adapter>.<instance>.<network>.armed` arms or disarms that network with the written value |
| Relay.MotionRouting | main.js:205-216 | a write on `<adapter>.<instance>.<network>.<camera>.enabled` toggles motion detection of that camera |
| Relay.ShortArmedIgnored | main.js:187 | a 3-segment id ending in `armed` is ignored |
| Values.TypeOf | main.js:97 | `typeof` names the tag: `boolean`, `number` or `string` |

## Left out

- Host framework: the `utils.Adapter` base class, event binding, `subscribeStates`, the `getForeignObject` plumbing and the module bootstrap (main.js:229-239). `SetupEncryption` receives the secret as a parameter instead.
- `onAdapterStart` (main.js:51-71): it logs, constructs the `BlinkAPI` client and calls `pollStatusFromBlinkServers` once. The client is not part of this model, and the poll itself is modelled.
- The `BlinkAPI` client (`node-blink-security`) and its tokens: its calls are replaced by their outcomes.
- Logging text. Only the armed/disarmed wording is kept, as `ArmNetwork.wording`.
- Real time: a timer records its requested delay `intsecs * 1000`. The host's clamping of delays outside 1..2147483647 ms is not modelled.
- Concurrency: a polling cycle runs as one step. Interleavings with `onStateChange` or `onAdapterStop` are not modelled. In the source, a stop during an in-flight cycle lets that cycle arm a timer afterwards.
- Failures in the relay. A rejected `setupSystem(network)` or `getCameras` is only logged (main.js:200-203, 217-220). `setArmed` and `setMotionDetect` are called inside the success handler, and their promises are neither returned nor caught (main.js:197-199, 215-217). A rejection of either is therefore an unhandled rejection, which the model does not cover.
- What the host does with the unhandled rejection of `setupSystem` (main.js:148). The model only records that no timer is armed.
- Schema.CreateStateObjects: requires a string `name` on the network and on every device. The source would build paths with `undefined` or a stringified name instead. The service always sends string names.
- Adapter.Blink4home.PollStatusFromBlinkServers: requires the same named summary. It also does not model a synchronous throw inside the `getSummary` handler, which would leave no timer armed. A throw inside `updateStatesFromSummary` is not modelled either; it would reach the catch branch and reschedule. Store writes in the model never fail.
- Adapter.Blink4home.UpdateStatesFromSummary: requires the same named summary; `setState` failures are not modelled.
- Adapter.Blink4home.WriteDevices: requires every device to be named, for the same reason.
- Adapter.Blink4home.FireTimer: requires the same named summary as the poll it runs.
- Store.ApplyCreatesEffect: the creates of one cycle resolve one by one in request order, so a path requested twice keeps its first declaration. The source issues all the creates before any resolves (main.js:93, 113, 153). Which declaration wins a repeated path then depends on how the store handles concurrent create-if-absent calls, which the model does not capture. Repeated paths arise only in summaries that are not `WellFormed`.
- Credential.Decrypt: requires a non-empty key. The caller always passes one, since an empty secret is falsy and the fallback is not empty. An `undefined` password, which would throw, is not modelled.
- Numbers are modelled as `real`. NaN and floating-point formatting play no part in the logic.
- ioBroker state metadata other than `val` and `ack` (timestamps, `from`, `q`).
