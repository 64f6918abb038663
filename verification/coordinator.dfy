/**
 The passive Bluetooth data update coordinator of one device address:
 accumulated state, availability, the advertisement handler and the
 unavailability handler.

 The host's shutdown flag, the parser's outcome, the monotonic clock and
 the set of listeners that raise are parameters of each call.
 */
module Coordinator {
  import opened Types
  import opened MapMerge
  import opened Listeners
  import opened FanOut

  datatype Coordinator<D, V> = Coordinator(
    address: string,
    name: Option<string>,
    present: bool,
    lastUpdateSuccess: bool,
    lastSeen: int,
    devices: map<Option<string>, DeviceInfo>,
    entityDescriptions: map<EntityKey, D>,
    entityNames: map<EntityKey, Option<string>>,
    entityData: map<EntityKey, V>,
    registry: Registry)

  /** What a listener is called with: an update, or nothing when the
      device went away. */
  type Payload<D, V> = Option<DataUpdate<D, V>>

  /** An exception the handler lets reach its caller. */
  datatype HandlerError =
    | NotAnUpdateError
    | ListenerError(listener: ListenerId)

  /** The coordinator after a handler ran, the listener invocations it
      made, and the exception it propagated, if any. */
  datatype Handled<D, V> = Handled(
    state: Coordinator<D, V>,
    sent: seq<Notification<Payload<D, V>>>,
    raised: Option<HandlerError>)

  /** A freshly constructed coordinator. */
  function New<D, V>(address: string): (c: Coordinator<D, V>)
    ensures c.address == address && c.name.None?
    ensures !c.present && c.lastUpdateSuccess && !Available(c)
    ensures c.devices == map[] && c.entityDescriptions == map[]
    ensures c.entityNames == map[] && c.entityData == map[]
    ensures Valid(c.registry) && AllListeners(c.registry) == [] && !Running(c.registry)
  {
    EmptyIsValid();
    Coordinator(address, None, false, true, 0, map[], map[], map[], map[], Empty())
  }

  /** The `available` property. */
  predicate Available<D, V>(c: Coordinator<D, V>)
  {
    c.present && c.lastUpdateSuccess
  }

  /** The four accumulated mappings of `c'` are those of `c` updated by
      `u`, last write winning per key. */
  ghost predicate MergedWith<D, V>(c: Coordinator<D, V>, u: DataUpdate<D, V>, c': Coordinator<D, V>)
  {
    && UpdatedBy(c.devices, u.devices, c'.devices)
    && UpdatedBy(c.entityDescriptions, u.entityDescriptions, c'.entityDescriptions)
    && UpdatedBy(c.entityNames, u.entityNames, c'.entityNames)
    && UpdatedBy(c.entityData, u.entityData, c'.entityData)
  }

  /** The four accumulated mappings are the same in both. */
  ghost predicate SameData<D, V>(c: Coordinator<D, V>, c': Coordinator<D, V>)
  {
    && c'.devices == c.devices && c'.entityDescriptions == c.entityDescriptions
    && c'.entityNames == c.entityNames && c'.entityData == c.entityData
  }

  /** Merge a successful update into the accumulated state. */
  function Merge<D, V>(c: Coordinator<D, V>, u: DataUpdate<D, V>): (c': Coordinator<D, V>)
    ensures MergedWith(c, u, c')
    ensures c'.address == c.address && c'.name == c.name && c'.present == c.present
    ensures c'.lastUpdateSuccess == c.lastUpdateSuccess && c'.lastSeen == c.lastSeen
    ensures c'.registry == c.registry
  {
    c.(devices := Update(c.devices, u.devices),
       entityDescriptions := Update(c.entityDescriptions, u.entityDescriptions),
       entityData := Update(c.entityData, u.entityData),
       entityNames := Update(c.entityNames, u.entityNames))
  }

  /** `_async_handle_bluetooth_event`. Every call records the time, the
      advertised name and presence. A stopping host ends the call there. A
      raising parser clears `lastUpdateSuccess` and the call returns
      normally; a result that is not an update clears it and raises. A
      successful parse sets `lastUpdateSuccess`, merges, and fans the
      update itself (not the merged state) out to every listener. */
  function HandleEvent<D, V>(c: Coordinator<D, V>, info: ServiceInfo, now: int, stopping: bool,
                             outcome: ParseOutcome<D, V>, raising: set<ListenerId>): (h: Handled<D, V>)
    ensures h.state.present && h.state.name == Some(info.name) && h.state.lastSeen == now
    ensures h.state.address == c.address && h.state.registry == c.registry
    ensures stopping ==>
              && h.state.lastUpdateSuccess == c.lastUpdateSuccess && SameData(c, h.state)
              && h.sent == [] && h.raised.None?
    ensures !stopping && outcome.Raised? ==>
              && !h.state.lastUpdateSuccess && SameData(c, h.state)
              && h.sent == [] && h.raised.None?
    ensures !stopping && outcome.NotAnUpdate? ==>
              && !h.state.lastUpdateSuccess && SameData(c, h.state)
              && h.sent == [] && h.raised == Some(NotAnUpdateError)
    ensures !stopping && outcome.Produced? ==>
              && h.state.lastUpdateSuccess && MergedWith(c, outcome.update, h.state)
              && |h.sent| <= |AllListeners(c.registry)|
              && (forall i :: 0 <= i < |h.sent| ==>
                    h.sent[i] == Notification(AllListeners(c.registry)[i], Some(outcome.update)))
              && ((forall id :: id in AllListeners(c.registry) ==> id !in raising) <==>
                    h.raised.None? && |h.sent| == |AllListeners(c.registry)|)
              && (h.raised.None? ==> |h.sent| == |AllListeners(c.registry)|)
              && (h.raised.Some? ==>
                    && 0 < |h.sent|
                    && h.raised.value == ListenerError(AllListeners(c.registry)[|h.sent| - 1])
                    && h.raised.value.listener in raising
                    && forall i :: 0 <= i < |h.sent| - 1 ==> AllListeners(c.registry)[i] !in raising)
  {
    var seen := c.(lastSeen := now, name := Some(info.name), present := true);
    if stopping then Handled(seen, [], None)
    else
      match outcome
      case Raised => Handled(seen.(lastUpdateSuccess := false), [], None)
      case NotAnUpdate => Handled(seen.(lastUpdateSuccess := false), [], Some(NotAnUpdateError))
      case Produced(u) =>
        var merged := Merge(seen.(lastUpdateSuccess := true), u);
        var d := Notify(merged.registry, Some(u), raising);
        NoneRaises(AllListeners(c.registry), raising);
        Handled(merged, d.sent, if d.raisedBy.Some? then Some(ListenerError(d.raisedBy.value)) else None)
  }

  /** `_async_handle_unavailable`: the device is no longer present and every
      listener is told so with an empty payload; accumulated data and
      `lastUpdateSuccess` are kept. */
  function HandleUnavailable<D, V>(c: Coordinator<D, V>, raising: set<ListenerId>): (h: Handled<D, V>)
    ensures !h.state.present && !Available(h.state)
    ensures h.state == c.(present := false)
    ensures |h.sent| <= |AllListeners(c.registry)|
    ensures forall i :: 0 <= i < |h.sent| ==> h.sent[i] == Notification(AllListeners(c.registry)[i], None)
    ensures (forall id :: id in AllListeners(c.registry) ==> id !in raising) <==>
              h.raised.None? && |h.sent| == |AllListeners(c.registry)|
    ensures h.raised.None? ==> |h.sent| == |AllListeners(c.registry)|
    ensures h.raised.Some? ==>
              && 0 < |h.sent|
              && h.raised.value == ListenerError(AllListeners(c.registry)[|h.sent| - 1])
              && h.raised.value.listener in raising
              && forall i :: 0 <= i < |h.sent| - 1 ==> AllListeners(c.registry)[i] !in raising
  {
    var gone := c.(present := false);
    var d := Notify(gone.registry, None, raising);
    NoneRaises(AllListeners(c.registry), raising);
    Handled(gone, d.sent, if d.raisedBy.Some? then Some(ListenerError(d.raisedBy.value)) else None)
  }

  /** Availability after each kind of call: a stopping host leaves it to
      `lastUpdateSuccess`, a failed parse clears it, a successful one sets
      it, and the unavailability callback clears it. */
  lemma AvailabilityAfterEvent<D, V>(c: Coordinator<D, V>, info: ServiceInfo, now: int, stopping: bool,
                                     outcome: ParseOutcome<D, V>, raising: set<ListenerId>)
    ensures var h := HandleEvent(c, info, now, stopping, outcome, raising);
            && (stopping ==> (Available(h.state) <==> c.lastUpdateSuccess))
            && (!stopping ==> (Available(h.state) <==> outcome.Produced?))
  {
  }

  // ---------------------------------------------------------------------
  // Runs of handler calls
  // ---------------------------------------------------------------------

  /** One call into the coordinator from the scanning layer. */
  datatype Input<D, V> =
    | Advertisement(info: ServiceInfo, now: int, stopping: bool, outcome: ParseOutcome<D, V>,
                    raising: set<ListenerId>)
    | Unavailable(raising: set<ListenerId>)

  function Step<D, V>(c: Coordinator<D, V>, input: Input<D, V>): Coordinator<D, V>
  {
    match input
    case Advertisement(info, now, stopping, outcome, raising) =>
      HandleEvent(c, info, now, stopping, outcome, raising).state
    case Unavailable(raising) => HandleUnavailable(c, raising).state
  }

  /** The state after the inputs, in order. A propagated exception does not
      undo the state changes made before it. */
  function Run<D, V>(c: Coordinator<D, V>, inputs: seq<Input<D, V>>): Coordinator<D, V>
    decreases |inputs|
  {
    if inputs == [] then c else Run(Step(c, inputs[0]), inputs[1..])
  }

  /** The update an input merges, if any: only a successful parse on a
      host that is not stopping. */
  function Applied<D, V>(input: Input<D, V>): Option<DataUpdate<D, V>>
  {
    if input.Advertisement? && !input.stopping && input.outcome.Produced?
    then Some(input.outcome.update) else None
  }

  function AppliedEntityData<D, V>(inputs: seq<Input<D, V>>): seq<map<EntityKey, V>>
    decreases |inputs|
  {
    if inputs == [] then []
    else
      (match Applied(inputs[0]) case Some(u) => [u.entityData] case None => [])
      + AppliedEntityData(inputs[1..])
  }

  function AppliedDescriptions<D, V>(inputs: seq<Input<D, V>>): seq<map<EntityKey, D>>
    decreases |inputs|
  {
    if inputs == [] then []
    else
      (match Applied(inputs[0]) case Some(u) => [u.entityDescriptions] case None => [])
      + AppliedDescriptions(inputs[1..])
  }

  /** One input merges exactly the update `Applied` names, and touches
      neither the registry nor the address. */
  lemma StepMerges<D, V>(c: Coordinator<D, V>, input: Input<D, V>)
    ensures Step(c, input).registry == c.registry && Step(c, input).address == c.address
    ensures Applied(input).None? ==> SameData(c, Step(c, input))
    ensures Applied(input).Some? ==>
              var u := Applied(input).value;
              && Step(c, input).devices == Update(c.devices, u.devices)
              && Step(c, input).entityDescriptions == Update(c.entityDescriptions, u.entityDescriptions)
              && Step(c, input).entityNames == Update(c.entityNames, u.entityNames)
              && Step(c, input).entityData == Update(c.entityData, u.entityData)
  {
  }

  function AppliedDevices<D, V>(inputs: seq<Input<D, V>>): seq<map<Option<string>, DeviceInfo>>
    decreases |inputs|
  {
    if inputs == [] then []
    else
      (match Applied(inputs[0]) case Some(u) => [u.devices] case None => [])
      + AppliedDevices(inputs[1..])
  }

  function AppliedNames<D, V>(inputs: seq<Input<D, V>>): seq<map<EntityKey, Option<string>>>
    decreases |inputs|
  {
    if inputs == [] then []
    else
      (match Applied(inputs[0]) case Some(u) => [u.entityNames] case None => [])
      + AppliedNames(inputs[1..])
  }

  /** After any run the accumulated entity data is the start updated by
      exactly the successful updates, in order; failures, a stopping host
      and unavailability contribute nothing. With
      `FoldUpdateLastWriteWins` this is the key-wise union with last write
      winning. The registry and the address are untouched. */
  lemma {:induction false} RunAccumulatesEntityData<D, V>(c: Coordinator<D, V>, inputs: seq<Input<D, V>>)
    ensures Run(c, inputs).entityData == FoldUpdate(c.entityData, AppliedEntityData(inputs))
    ensures Run(c, inputs).registry == c.registry && Run(c, inputs).address == c.address
    decreases |inputs|
  {
    if inputs != [] {
      var c' := Step(c, inputs[0]);
      StepMerges(c, inputs[0]);
      RunAccumulatesEntityData(c', inputs[1..]);
      var rest := AppliedEntityData(inputs[1..]);
      match Applied(inputs[0])
      case None =>
        assert AppliedEntityData(inputs) == rest;
      case Some(u) =>
        var all := AppliedEntityData(inputs);
        assert all == [u.entityData] + rest;
        assert all[0] == u.entityData && all[1..] == rest;
    }
  }

  /** The same for entity descriptions, which decide what entities exist. */
  lemma {:induction false} RunAccumulatesDescriptions<D, V>(c: Coordinator<D, V>, inputs: seq<Input<D, V>>)
    ensures Run(c, inputs).entityDescriptions ==
            FoldUpdate(c.entityDescriptions, AppliedDescriptions(inputs))
    decreases |inputs|
  {
    if inputs != [] {
      var c' := Step(c, inputs[0]);
      StepMerges(c, inputs[0]);
      RunAccumulatesDescriptions(c', inputs[1..]);
      var rest := AppliedDescriptions(inputs[1..]);
      match Applied(inputs[0])
      case None =>
        assert AppliedDescriptions(inputs) == rest;
      case Some(u) =>
        var all := AppliedDescriptions(inputs);
        assert all == [u.entityDescriptions] + rest;
        assert all[0] == u.entityDescriptions && all[1..] == rest;
    }
  }

  /** The same for the device records, keyed by device id. */
  lemma {:induction false} RunAccumulatesDevices<D, V>(c: Coordinator<D, V>, inputs: seq<Input<D, V>>)
    ensures Run(c, inputs).devices == FoldUpdate(c.devices, AppliedDevices(inputs))
    decreases |inputs|
  {
    if inputs != [] {
      var c' := Step(c, inputs[0]);
      StepMerges(c, inputs[0]);
      RunAccumulatesDevices(c', inputs[1..]);
      var rest := AppliedDevices(inputs[1..]);
      match Applied(inputs[0])
      case None =>
        assert AppliedDevices(inputs) == rest;
      case Some(u) =>
        var all := AppliedDevices(inputs);
        assert all == [u.devices] + rest;
        assert all[0] == u.devices && all[1..] == rest;
    }
  }

  /** The same for entity names. */
  lemma {:induction false} RunAccumulatesNames<D, V>(c: Coordinator<D, V>, inputs: seq<Input<D, V>>)
    ensures Run(c, inputs).entityNames == FoldUpdate(c.entityNames, AppliedNames(inputs))
    decreases |inputs|
  {
    if inputs != [] {
      var c' := Step(c, inputs[0]);
      StepMerges(c, inputs[0]);
      RunAccumulatesNames(c', inputs[1..]);
      var rest := AppliedNames(inputs[1..]);
      match Applied(inputs[0])
      case None =>
        assert AppliedNames(inputs) == rest;
      case Some(u) =>
        var all := AppliedNames(inputs);
        assert all == [u.entityNames] + rest;
        assert all[0] == u.entityNames && all[1..] == rest;
    }
  }

  /** Once a key is in an accumulated mapping it stays there for the rest
      of the coordinator's life. */
  lemma {:induction false} RunKeepsKeys<D, V>(c: Coordinator<D, V>, inputs: seq<Input<D, V>>)
    ensures c.devices.Keys <= Run(c, inputs).devices.Keys
    ensures c.entityDescriptions.Keys <= Run(c, inputs).entityDescriptions.Keys
    ensures c.entityNames.Keys <= Run(c, inputs).entityNames.Keys
    ensures c.entityData.Keys <= Run(c, inputs).entityData.Keys
    decreases |inputs|
  {
    if inputs != [] {
      StepMerges(c, inputs[0]);
      RunKeepsKeys(Step(c, inputs[0]), inputs[1..]);
    }
  }

  /** Parse failures keep the coordinator unavailable until a parse
      succeeds: after a failed parse, any run of further failed parses and
      unavailability calls leaves `lastUpdateSuccess` false. */
  lemma {:induction false} FailureSticksUntilSuccess<D, V>(c: Coordinator<D, V>, inputs: seq<Input<D, V>>)
    requires !c.lastUpdateSuccess
    requires forall i :: 0 <= i < |inputs| ==> Applied(inputs[i]).None?
    ensures !Run(c, inputs).lastUpdateSuccess && !Available(Run(c, inputs))
    decreases |inputs|
  {
    if inputs != [] {
      assert Applied(inputs[0]).None?;
      FailureSticksUntilSuccess(Step(c, inputs[0]), inputs[1..]);
    }
  }

  /** A device reports a value, then its parser fails, then it goes away:
      the value survives both, availability follows, and the one listener
      hears the update and then the empty payload. */
  lemma ScenarioDataSurvivesFailure()
    ensures var key1 := EntityKey("key1", None);
            var c0: Coordinator<string, int> := New("AA:BB:CC:DD:EE:FF");
            var c1 := c0.(registry := AddListener(c0.registry, 7).registry);
            var u := DataUpdate(map[], map[], map[], map[key1 := 10]);
            var h1 := HandleEvent(c1, ServiceInfo("sensor"), 1, false, Produced(u), {});
            var h2 := HandleEvent(h1.state, ServiceInfo("sensor"), 2, false, Raised, {});
            var h3 := HandleUnavailable(h2.state, {});
            && h1.state.entityData == map[key1 := 10] && Available(h1.state)
            && h1.sent == [Notification(7, Some(u))]
            && h2.state.entityData == map[key1 := 10] && !Available(h2.state) && h2.sent == []
            && !h3.state.present && h3.state.entityData == map[key1 := 10]
            && h3.sent == [Notification(7, None)]
  {
  }
}
