/**
 Fan-out of one payload to the registered listeners
 (`async_update_listeners`): every global listener in registration order,
 then every keyed group in key insertion order, each group in registration
 order. A keyed listener is reached whatever its key.

 There is no fault isolation: the listeners that raise are given as an
 oracle set, and the first of them to be reached is still invoked, then
 its exception ends the fan-out and propagates to the caller.
 */
module FanOut {
  import opened Types
  import opened Listeners

  /** One listener invocation. */
  datatype Notification<P> = Notification(listener: ListenerId, payload: P)

  /** The invocations made, and the listener whose exception ended the
      fan-out, if one did. */
  datatype Delivery<P> = Delivery(sent: seq<Notification<P>>, raisedBy: Option<ListenerId>)

  /** `d` invokes the listeners of `order` in turn with `payload` and stops
      right after the first one in `raising`, reporting it. */
  ghost predicate StopsAtFirstRaiser<P>(order: seq<ListenerId>, payload: P, raising: set<ListenerId>, d: Delivery<P>)
  {
    && |d.sent| <= |order|
    && (forall i :: 0 <= i < |d.sent| ==> d.sent[i] == Notification(order[i], payload))
    && (d.raisedBy.None? <==> forall i :: 0 <= i < |order| ==> order[i] !in raising)
    && (d.raisedBy.None? ==> |d.sent| == |order|)
    && (d.raisedBy.Some? ==>
          && 0 < |d.sent|
          && d.raisedBy.value == order[|d.sent| - 1]
          && d.raisedBy.value in raising
          && forall i :: 0 <= i < |d.sent| - 1 ==> order[i] !in raising)
  }

  /** Invoke the listeners of `order` in turn with `payload`. */
  function Dispatch<P>(order: seq<ListenerId>, payload: P, raising: set<ListenerId>): (d: Delivery<P>)
    ensures StopsAtFirstRaiser(order, payload, raising, d)
  {
    if order == [] then Delivery([], None)
    else if order[0] in raising then Delivery([Notification(order[0], payload)], Some(order[0]))
    else
      var rest := Dispatch(order[1..], payload, raising);
      DispatchPasses(order, payload, raising, rest);
      Delivery([Notification(order[0], payload)] + rest.sent, rest.raisedBy)
  }

  /** A listener that does not raise is invoked, and the fan-out carries on
      with the rest of the order. */
  lemma DispatchPasses<P>(order: seq<ListenerId>, payload: P, raising: set<ListenerId>, rest: Delivery<P>)
    requires order != [] && order[0] !in raising
    requires StopsAtFirstRaiser(order[1..], payload, raising, rest)
    ensures StopsAtFirstRaiser(order, payload, raising,
                               Delivery([Notification(order[0], payload)] + rest.sent, rest.raisedBy))
  {
    var sent := [Notification(order[0], payload)] + rest.sent;
    assert forall i :: 0 < i < |order| ==> order[i] == order[1..][i - 1];
    assert forall i :: 0 < i < |sent| ==> sent[i] == rest.sent[i - 1];
  }

  /** No listener of `order` raises, said by membership or by position. */
  lemma NoneRaises(order: seq<ListenerId>, raising: set<ListenerId>)
    ensures (forall id :: id in order ==> id !in raising) <==>
            (forall i :: 0 <= i < |order| ==> order[i] !in raising)
  {
  }

  /** `async_update_listeners(payload)` on registry `r`. */
  function Notify<P>(r: Registry, payload: P, raising: set<ListenerId>): (d: Delivery<P>)
    ensures StopsAtFirstRaiser(AllListeners(r), payload, raising, d)
  {
    Dispatch(AllListeners(r), payload, raising)
  }

  /** When no listener raises, the global listeners are reached first in
      registration order, then the keyed groups in key order, and every
      keyed listener receives the payload whatever its key. */
  lemma NotifyReachesEveryone<P>(r: Registry, payload: P, raising: set<ListenerId>)
    requires forall id :: id in AllListeners(r) ==> id !in raising
    ensures var d := Notify(r, payload, raising);
            && d.raisedBy.None?
            && |d.sent| == |r.listeners| + |Flatten(r.keyed)|
            && (forall i :: 0 <= i < |r.listeners| ==> d.sent[i] == Notification(r.listeners[i], payload))
            && (forall i :: 0 <= i < |Flatten(r.keyed)| ==>
                  d.sent[|r.listeners| + i] == Notification(Flatten(r.keyed)[i], payload))
            && (forall g, id :: g in r.keyed && id in g.ids ==> Notification(id, payload) in d.sent)
  {
    var all := AllListeners(r);
    var d := Notify(r, payload, raising);
    assert forall i :: 0 <= i < |all| ==> all[i] !in raising;
    var keyedSent := d.sent[|r.listeners|..];
    forall i | 0 <= i < |Flatten(r.keyed)|
      ensures keyedSent[i] == Notification(Flatten(r.keyed)[i], payload)
    {
      assert all[|r.listeners| + i] == Flatten(r.keyed)[i];
    }
    KeyedAllReached(r.keyed, keyedSent, payload);
    forall g, id | g in r.keyed && id in g.ids
      ensures Notification(id, payload) in d.sent
    {
      assert Notification(id, payload) in keyedSent;
    }
  }

  /** Invocations that follow the flattened groups position by position
      reach every listener of every group. */
  lemma KeyedAllReached<P>(groups: seq<KeyGroup>, sent: seq<Notification<P>>, payload: P)
    requires |sent| == |Flatten(groups)|
    requires forall i :: 0 <= i < |sent| ==> sent[i] == Notification(Flatten(groups)[i], payload)
    ensures forall g, id :: g in groups && id in g.ids ==> Notification(id, payload) in sent
  {
    forall g, id | g in groups && id in g.ids
      ensures Notification(id, payload) in sent
    {
      FlattenMembership(groups, id);
      var j :| 0 <= j < |Flatten(groups)| && Flatten(groups)[j] == id;
      assert sent[j] == Notification(id, payload);
    }
  }
}
