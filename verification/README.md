# Passive Bluetooth update coordinator, modelled in Dafny

This project models the passive Bluetooth data update coordinator of Home
Assistant's `bluetooth` component. One coordinator serves one device
address. It keeps the data accumulated from that device's advertisements.
It derives the device's availability. It fans every parsed update out to
its listeners. It holds the upstream subscriptions (the advertisement
callback and the unavailability tracker) only while it has a listener.
Two consumers of the coordinator are modelled as well: the entities
listener, which creates each entity once, and the entity constructor,
which derives the entity's unique id, device info and name.

Everything is a value: the coordinator is a datatype, and every handler is
a pure function from the old state to the new one. A handler returns the
listener invocations it made and the exception it let through. Listener
registration returns the upstream calls it made.

Modules, one per part of the core:

- `Types` (`types.dfy`): the entity key, the partial data update, device
  info, the parser outcome.
- `MapMerge` (`map_merge.dfy`): `dict.update` and its fold over a stream of
  updates.
- `Listeners` (`listeners.dfy`): the global and keyed listener registry and
  the lazy start/stop of the upstream subscriptions.
- `FanOut` (`fan_out.dfy`): `async_update_listeners`.
- `Coordinator` (`coordinator.dfy`): state, availability, the advertisement
  and unavailability handlers, and runs of handler calls.
- `Entity` (`entity.dfy`): the entity constructor and `available`.
- `EntitiesListener` (`entities_listener.dfy`): `async_add_entities_listener`.

Outside collaborators are parameters of each call:

- the parser (`update_method`) is an oracle outcome: `Produced(update)`,
  `Raised`, or `NotAnUpdate`;
- the host's `is_stopping` flag is a boolean;
- `time.monotonic()` is an opaque integer tick;
- which listeners raise is a set of listener ids;
- registering with and cancelling from the scanning layer are recorded as
  `UpstreamCall`s, tagged with the start round that issued the handle.

Listeners are ids. A callback registered twice has the same id twice. The
keyed-listener dict is an association list of `(key, ids)` groups in key
insertion order, because a Python dict iterates in that order and the
fan-out follows it.

The model follows the code in these places:

- A listener that raises is not isolated. Fan-out stops at the first
  listener that raises, after invoking it, and the exception reaches the
  caller of the handler. Its state changes (the merge, `present := false`)
  are already made.
- A parser result that is not a data update clears `last_update_success`
  and raises `ValueError` to the caller. No listener is called.
- Only a parser that raises is logged, and every such failure is logged:
  nothing is de-duplicated. A parser result that is not a data update is
  not logged; it only clears `last_update_success` and raises. Logging
  itself is not modelled.
- Unsubscribing twice is not a no-op. `list.remove` raises when the
  callback is absent. The removal functions therefore require the
  registration to be present, and they remove its first occurrence.
- Keyed listeners receive every update, whatever their key.

## Model

| member | source | states |
|---|---|---|
| `MapMerge.Update` | homeassistant/components/bluetooth/passive_update_coordinator.py:274-277 | `dict.update`: the result has every key of either mapping; keys of the update carry the update's value, all others keep the old value |
| `MapMerge.FoldUpdateLastWriteWins` | homeassistant/components/bluetooth/passive_update_coordinator.py:274-277 | after any sequence of updates, a key is present iff it was present at the start or some update mentions it; its value is the one written by the last update that mentions it, or the starting value if none does |
| `MapMerge.FoldUpdateKeepsKeys` | homeassistant/components/bluetooth/passive_update_coordinator.py:274-277 | no sequence of updates ever removes a key |
| `Listeners.RemoveFirst` | homeassistant/components/bluetooth/passive_update_coordinator.py:191 | `list.remove`: the result is the list with the first occurrence of the id deleted |
| `Listeners.RemoveFirstCount` | homeassistant/components/bluetooth/passive_update_coordinator.py:219 | removal takes away exactly one registration of the id |
| `Listeners.FlattenMembership` | homeassistant/components/bluetooth/passive_update_coordinator.py:238-240 | an id is reached by the keyed part of the fan-out iff some key's group holds it |
| `Listeners.AddToGroup` | homeassistant/components/bluetooth/passive_update_coordinator.py:224 | `setdefault(key, []).append(id)`: a new key opens a group at the end, an existing key's group gets the id appended, other groups are untouched; well-formedness is kept and exactly one registration is added |
| `Listeners.RemoveFromGroup` | homeassistant/components/bluetooth/passive_update_coordinator.py:219-221 | removes the first registration of the id under the key; the key is deleted exactly when that was its last callback; exactly one registration disappears |
| `Listeners.AddRemoveGroupRoundTrip` | homeassistant/components/bluetooth/passive_update_coordinator.py:216-224 | adding a new registration under a key and removing it again restores the groups exactly, key order included |
| `Listeners.NewGroupRoundTrip` | homeassistant/components/bluetooth/passive_update_coordinator.py:216-224 | for a key with no group, the new group is found at the end, and removing its one registration gives back the groups unchanged |
| `Listeners.GrownGroupRoundTrip` | homeassistant/components/bluetooth/passive_update_coordinator.py:216-224 | for a key whose group holds other callbacks, the key stays where it was, and removing the appended registration gives back the groups unchanged |
| `Listeners.EmptyIsValid` | homeassistant/components/bluetooth/passive_update_coordinator.py:98-116 | a fresh registry has no listeners, holds no handles and meets the registry invariant |
| `Listeners.RunningIffSomeListener` | homeassistant/components/bluetooth/passive_update_coordinator.py:198-206 | under the invariant, both handles are held iff the fan-out would reach at least one listener |
| `Listeners.Start` | homeassistant/components/bluetooth/passive_update_coordinator.py:131-143 | `_async_start`: registers the advertisement callback, then the unavailability tracker, exactly once each; both new handles belong to the current start round; one more start is counted; listeners are untouched |
| `Listeners.Stop` | homeassistant/components/bluetooth/passive_update_coordinator.py:145-153 | `_async_stop`: both handles are cleared; each handle that was held is cancelled exactly once, the advertisement callback first, and nothing else is cancelled; one more stop is counted |
| `Listeners.ListenersChanged` | homeassistant/components/bluetooth/passive_update_coordinator.py:198-206 | afterwards the advertisement handle is held iff a global or keyed listener exists; nothing happens when that already held; start only on the "not running, has listeners" edge; stop only on the "running, no listeners" edge |
| `Listeners.ListenersChangedIdempotent` | homeassistant/components/bluetooth/passive_update_coordinator.py:198-206 | re-evaluating right after a re-evaluation makes no call and changes nothing |
| `Listeners.AddListener` | homeassistant/components/bluetooth/passive_update_coordinator.py:181-196 | appends the id to the global listeners and adds exactly one registration; the coordinator is subscribed afterwards; when it was already subscribed no upstream call is made (no re-subscription); from no listeners it registers both callbacks once |
| `Listeners.RemoveListener` | homeassistant/components/bluetooth/passive_update_coordinator.py:188-192 | removes the first registration of the id; subscribed afterwards iff listeners remain; nothing is called while other listeners remain; removing the last one cancels both handles of the current round |
| `Listeners.AddKeyListener` | homeassistant/components/bluetooth/passive_update_coordinator.py:208-226 | adds one registration under the key and leaves the global listeners alone; subscribed afterwards; when already running only the groups change and no upstream call is made; from no listeners it registers both callbacks once |
| `Listeners.RemoveKeyListener` | homeassistant/components/bluetooth/passive_update_coordinator.py:216-222 | removes one registration under the key, deletes the key when it was its last callback; while a listener of either kind remains only the groups change and nothing is called; when none remains both handles of the current round are cancelled |
| `Listeners.RoundTripWhileSubscribed` | homeassistant/components/bluetooth/passive_update_coordinator.py:181-206 | while others are listening, adding a new global listener only appends it, and removing it gives back exactly the old registry with no upstream call |
| `Listeners.RoundTripFromIdle` | homeassistant/components/bluetooth/passive_update_coordinator.py:131-153 | from no listeners, adding one registers both callbacks under the next start round, and removing it cancels exactly those two handles and counts one stop |
| `Listeners.AddRemoveListenerRoundTrip` | homeassistant/components/bluetooth/passive_update_coordinator.py:181-206 | subscribing a new global listener and unsubscribing it restores the registry; the upstream is untouched if others were listening, and otherwise it is registered once and cancelled once |
| `Listeners.AddRemoveKeyListenerRoundTrip` | homeassistant/components/bluetooth/passive_update_coordinator.py:208-226 | the same round trip for a keyed listener, with key order restored |
| `Listeners.TwoListenersSubscribeOnce` | homeassistant/components/bluetooth/passive_update_coordinator.py:131-153 | for any two listener ids (equal ones included), step by step: the first add registers both callbacks, the second add and the first removal make no upstream call, and the last removal cancels both handles, so each callback is registered once and cancelled once |
| `FanOut.Dispatch` | homeassistant/components/bluetooth/passive_update_coordinator.py:233-240 | listeners are invoked in order with the same payload; with no raising listener all are invoked; otherwise invocation stops right after the first raising listener, which is invoked and reported |
| `FanOut.DispatchPasses` | homeassistant/components/bluetooth/passive_update_coordinator.py:233-240 | a listener that does not raise is invoked and the fan-out carries on with the rest of the order, ending as that rest ends |
| `FanOut.Notify` | homeassistant/components/bluetooth/passive_update_coordinator.py:228-240 | the global listeners then the keyed groups are invoked in that order with the payload; without a raising listener all are invoked; otherwise invocation stops right after the first raising listener, which is reported |
| `FanOut.NotifyReachesEveryone` | homeassistant/components/bluetooth/passive_update_coordinator.py:228-240 | without a raising listener, the global listeners come first in registration order, then the keyed groups in key order, and every keyed listener gets the payload whatever its key |
| `Coordinator.New` | homeassistant/components/bluetooth/passive_update_coordinator.py:86-123 | a new coordinator has no name, empty mappings and no listeners; it is not present and its last update counts as successful, so it is unavailable |
| `Coordinator.Merge` | homeassistant/components/bluetooth/passive_update_coordinator.py:274-277 | each of the four accumulated mappings is updated by the matching mapping of the update, last write winning; nothing else changes |
| `Coordinator.HandleEvent` | homeassistant/components/bluetooth/passive_update_coordinator.py:242-278 | every event records tick, name and presence. A stopping host changes nothing else. A raising parser clears `last_update_success` and changes no data. A non-update result clears it too, touches no data, calls no listener and raises. Success sets it, merges all four mappings and sends the update itself to the listeners in order: to all of them when none raises, otherwise up to and including the first that raises, whose error is what the handler raises |
| `Coordinator.HandleUnavailable` | homeassistant/components/bluetooth/passive_update_coordinator.py:125-129 | only `present` changes (to false); data and `last_update_success` are kept; the listeners in order receive the empty payload, all of them when none raises, otherwise up to and including the first that raises, whose error is raised |
| `Coordinator.AvailabilityAfterEvent` | homeassistant/components/bluetooth/passive_update_coordinator.py:120-123 | `available` is `present and last_update_success`: after an event on a stopping host it equals the previous `last_update_success`, otherwise it is true exactly when the parse produced an update |
| `Coordinator.RunAccumulatesEntityData` | homeassistant/components/bluetooth/passive_update_coordinator.py:242-278 | after any run of events and unavailability calls, the entity data is the start updated by exactly the successful updates in order; registry and address are untouched |
| `Coordinator.RunAccumulatesDescriptions` | homeassistant/components/bluetooth/passive_update_coordinator.py:275 | the same for entity descriptions |
| `Coordinator.RunAccumulatesDevices` | homeassistant/components/bluetooth/passive_update_coordinator.py:274 | the same for the device records |
| `Coordinator.RunAccumulatesNames` | homeassistant/components/bluetooth/passive_update_coordinator.py:277 | the same for entity names |
| `Coordinator.RunKeepsKeys` | homeassistant/components/bluetooth/passive_update_coordinator.py:274-277 | no run of handler calls ever removes a key from any of the four accumulated mappings |
| `Coordinator.FailureSticksUntilSuccess` | homeassistant/components/bluetooth/passive_update_coordinator.py:255-271 | once a parse has failed, `last_update_success` stays false and the device unavailable until a parse succeeds |
| `Coordinator.ScenarioDataSurvivesFailure` | homeassistant/components/bluetooth/passive_update_coordinator.py:125-129 | a reported value survives a later parse failure and the device going away; availability is true, then false; the listener hears the update, nothing, then the empty payload |
| `Entity.UniqueId` | homeassistant/components/bluetooth/passive_update_coordinator.py:309-318 | the unique id is the address, a dash and the key text, followed by a dash and the device id when the device id is truthy, and by nothing otherwise |
| `Entity.DeviceIdentifier` | homeassistant/components/bluetooth/passive_update_coordinator.py:309-317 | the device identifier is the address followed by `-` and the device id when the device id is truthy, and the bare address otherwise |
| `Entity.DeviceIdentifierInjective` | homeassistant/components/bluetooth/passive_update_coordinator.py:309-317 | for one address, two device ids give the same identifier exactly when both are falsy or both are the same truthy id |
| `Entity.UniqueIdRoundTrip` | homeassistant/components/bluetooth/passive_update_coordinator.py:309-318 | for a key without a dash and without an empty device id, the unique id reads back into the key |
| `Entity.UniqueIdInjective` | homeassistant/components/bluetooth/passive_update_coordinator.py:309-318 | such keys of one coordinator get distinct unique ids |
| `Entity.UniqueIdCollisions` | homeassistant/components/bluetooth/passive_update_coordinator.py:309-318 | outside those keys, ids collide: key `a-b` without a device equals key `a` with device `b`, and an empty device id equals none |
| `Entity.NewEntity` | homeassistant/components/bluetooth/passive_update_coordinator.py:289-321 | the entity keeps key and description and gets the derived unique id. Its device info is the coordinator's record for the device id, or empty, with the identifiers entry replaced by `(bluetooth, identifier)` and the name defaulting to the coordinator's name. Its name is the coordinator's entity name for the key, or none |
| `Entity.EntityAvailableIffCoordinator` | homeassistant/components/bluetooth/passive_update_coordinator.py:323-326 | an entity is available exactly when its coordinator's device is present and its last parse succeeded |
| `EntitiesListener.AddEntitiesListener` | homeassistant/components/bluetooth/passive_update_coordinator.py:155-179 | the entities listener is registered as a global listener through `async_add_listener` and nothing has been created yet; the coordinator is subscribed afterwards and the registry invariant is kept; when already running no upstream call is made, and from no listeners both callbacks are registered once |
| `EntitiesListener.OnUpdate` | homeassistant/components/bluetooth/passive_update_coordinator.py:164-177 | an empty payload is ignored. Otherwise every description key of the update joins the created set. The sink is called iff some key is new, and only with the new keys, each built by the entity constructor from the update's description |
| `EntitiesListener.AnnounceIsKeyRun` | homeassistant/components/bluetooth/passive_update_coordinator.py:162-179 | over any sequence of deliveries the listener announces exactly what a key-level reference does: per delivery, the offered keys not yet created, when there are any; the keys it is handed are the union of the offers |
| `EntitiesListener.AnnouncedCreatesSeen` | homeassistant/components/bluetooth/passive_update_coordinator.py:162-179 | over any sequence of deliveries, the listener ends with exactly the keys it started with plus every description key it was handed |
| `EntitiesListener.AnnouncedAtMostOnce` | homeassistant/components/bluetooth/passive_update_coordinator.py:162-179 | over any sequence of deliveries the announced batches are non-empty, pairwise disjoint, new, and made of description keys seen, so no entity is created twice |

## Left out

- Logging and the log messages: the exception log and the recovery notice carry no state.
- `async_register_callback`, `async_track_unavailable` and `BluetoothCallbackMatcher` belong to the scanning layer. They are foreign calls, so they appear only as `UpstreamCall` records and handles.
- Replay at registration: the scanning layer may call the new advertisement callback synchronously with the address's last advertisement while `_async_start` registers it, before the handle is stored. The model does not represent this: `Listeners.AddListener` and `Listeners.Start` never touch the coordinator's state, and such a replay is modelled as an ordinary `Coordinator.HandleEvent` after the registration.
- `BluetoothServiceInfo` beyond `name`: only the parser reads it, and the parser is an oracle.
- `time.monotonic()`: a float clock, kept as an opaque integer tick.
- `hass` and `logger`: host objects; only `hass.is_stopping` matters, and it is a parameter.
- A listener that registers or removes listeners while the fan-out runs: the model fans out over the registry as it was when the fan-out began.
- The entity's `async_added_to_hass`, `async_on_remove`, `_handle_coordinator_update` and `async_write_ha_state` belong to the host's entity lifecycle. An entity registers one keyed listener under its key (`Listeners.AddKeyListener`) and writes its state on each notification. The write itself is host I/O.
- The entity's `coordinator_context` and the `entity_class` subclass hook: opaque to the coordinator. Entities are built by the base constructor.
- The order of the entities in one batch handed to the sink: the batch is a map from key to entity, so the order of the Python list is not kept.
- `Types.IdentifiersAttr`, `Types.NameAttr`, `Types.Domain`: the values of `ATTR_IDENTIFIERS`, `ATTR_NAME` and `DOMAIN` come from `homeassistant.const` and the component's `const` module, which are not part of this model. The model uses `"identifiers"`, `"name"` and `"bluetooth"`.
- `Listeners.RemoveListener`, `Listeners.RemoveKeyListener`, `Listeners.RemoveFromGroup`: in the coordinator, an absent callback makes `list.remove` raise `ValueError` and an absent key makes the dict lookup raise `KeyError`. These functions require presence and do not model those exceptions.
