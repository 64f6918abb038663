/**
 The coordinator's listener registry and the lazy start/stop of its two
 upstream subscriptions (the advertisement callback for the device's
 address and the unavailability tracker).

 Global listeners are a sequence of ids in registration order. Keyed
 listeners are an association list of groups, one per entity key, in key
 insertion order (the order a Python dict iterates in); a group is never
 empty and no key occurs twice. The two upstream subscriptions are held as
 optional cancellation handles naming the start round they belong to.
 */
module Listeners {
  import opened Types

  datatype KeyGroup = KeyGroup(key: EntityKey, ids: seq<ListenerId>)

  /** A call into the upstream scanning layer, tagged with its start round. */
  datatype UpstreamCall =
    | RegisterCallback(round: nat)
    | TrackUnavailable(round: nat)
    | CancelCallback(round: nat)
    | CancelTracking(round: nat)

  datatype Registry = Registry(
    listeners: seq<ListenerId>,
    keyed: seq<KeyGroup>,
    cancelAdvertisements: Option<nat>,
    cancelTrackUnavailable: Option<nat>,
    starts: nat,
    stops: nat)

  /** A registry after an operation, with the upstream calls it made. */
  datatype Changed = Changed(registry: Registry, calls: seq<UpstreamCall>)

  /** The registry of a freshly constructed coordinator. */
  function Empty(): Registry
  {
    Registry([], [], None, None, 0, 0)
  }

  // ---------------------------------------------------------------------
  // Listener sequences
  // ---------------------------------------------------------------------

  /** Position of the first occurrence of `x` in `s`. */
  function FirstIndex(s: seq<ListenerId>, x: ListenerId): (i: nat)
    requires x in s
    ensures i < |s| && s[i] == x && x !in s[..i]
  {
    if s[0] == x then 0
    else
      var j := FirstIndex(s[1..], x);
      assert s[..j + 1] == [s[0]] + s[1..][..j];
      j + 1
  }

  /** `list.remove(x)`: deletes the first occurrence of `x`. */
  function RemoveFirst(s: seq<ListenerId>, x: ListenerId): (r: seq<ListenerId>)
    requires x in s
    ensures r == s[..FirstIndex(s, x)] + s[FirstIndex(s, x) + 1..]
  {
    if s[0] == x then s[1..]
    else
      var t := s[1..];
      var j := FirstIndex(t, x);
      assert s[..j + 1] == [s[0]] + t[..j];
      assert s[j + 2..] == t[j + 1..];
      [s[0]] + RemoveFirst(t, x)
  }

  /** Multiset sums cancel. */
  lemma MultisetCancel<X>(a: multiset<X>, b: multiset<X>, c: multiset<X>)
    requires a + c == b + c
    ensures a == b
  {
    assert forall x :: a[x] == (a + c)[x] - c[x];
  }

  /** Removal takes away exactly one registration of `x`. */
  lemma RemoveFirstCount(s: seq<ListenerId>, x: ListenerId)
    requires x in s
    ensures multiset(RemoveFirst(s, x)) + multiset{x} == multiset(s)
  {
    var i := FirstIndex(s, x);
    var a, b := s[..i], s[i + 1..];
    assert s == a + [x] + b;
    assert multiset(s) == multiset(a) + multiset{x} + multiset(b);
    assert multiset(RemoveFirst(s, x)) == multiset(a) + multiset(b);
  }

  /** Removing the head when it is the id removed. */
  lemma RemoveFirstHead(x: ListenerId, s: seq<ListenerId>)
    ensures RemoveFirst([x] + s, x) == s
  {
    assert ([x] + s)[1..] == s;
  }

  /** Removing the registration just appended, when there was no earlier
      one, restores the sequence. */
  lemma {:induction false} RemoveFirstOfAppended(s: seq<ListenerId>, x: ListenerId)
    requires x !in s
    ensures RemoveFirst(s + [x], x) == s
  {
    var i := FirstIndex(s + [x], x);
    assert forall j :: 0 <= j < |s| ==> (s + [x])[j] == s[j];
    assert i == |s|;
    assert (s + [x])[..i] == s;
  }

  // ---------------------------------------------------------------------
  // Keyed groups
  // ---------------------------------------------------------------------

  /** All keyed listener ids, group by group. */
  function Flatten(groups: seq<KeyGroup>): seq<ListenerId>
  {
    if groups == [] then [] else groups[0].ids + Flatten(groups[1..])
  }

  lemma {:induction false} FlattenAppend(a: seq<KeyGroup>, b: seq<KeyGroup>)
    ensures Flatten(a + b) == Flatten(a) + Flatten(b)
  {
    if a == [] {
      assert a + b == b;
    } else {
      assert (a + b)[0] == a[0];
      assert (a + b)[1..] == a[1..] + b;
      FlattenAppend(a[1..], b);
    }
  }

  /** An id is a keyed listener exactly when some group holds it. */
  lemma {:induction false} FlattenMembership(groups: seq<KeyGroup>, id: ListenerId)
    ensures id in Flatten(groups) <==> exists i :: 0 <= i < |groups| && id in groups[i].ids
  {
    if groups != [] {
      FlattenMembership(groups[1..], id);
      if id in Flatten(groups[1..]) {
        var i :| 0 <= i < |groups[1..]| && id in groups[1..][i].ids;
        assert id in groups[i + 1].ids;
      }
      if exists i :: 0 <= i < |groups| && id in groups[i].ids {
        var i :| 0 <= i < |groups| && id in groups[i].ids;
        if i > 0 {
          assert id in groups[1..][i - 1].ids;
        }
      }
    }
  }

  /** Splitting the groups around position `i`. */
  lemma FlattenAround(groups: seq<KeyGroup>, i: nat)
    requires i < |groups|
    ensures Flatten(groups) == Flatten(groups[..i]) + groups[i].ids + Flatten(groups[i + 1..])
  {
    var tail := groups[i..];
    assert groups == groups[..i] + tail;
    FlattenAppend(groups[..i], tail);
    assert tail[0] == groups[i] && tail[1..] == groups[i + 1..];
    assert Flatten(tail) == groups[i].ids + Flatten(groups[i + 1..]);
  }

  /** Groups are non-empty and keys are distinct. */
  ghost predicate WellFormed(groups: seq<KeyGroup>)
  {
    && (forall i, j :: 0 <= i < j < |groups| ==> groups[i].key != groups[j].key)
    && (forall i :: 0 <= i < |groups| ==> groups[i].ids != [])
  }

  /** Non-empty well-formed groups hold at least one listener. */
  lemma FlattenNonEmpty(groups: seq<KeyGroup>)
    requires WellFormed(groups)
    ensures Flatten(groups) == [] <==> groups == []
  {
  }

  /** Position of the group for `key`, if any. */
  function Find(groups: seq<KeyGroup>, key: EntityKey): (r: Option<nat>)
    ensures r.Some? ==> r.value < |groups| && groups[r.value].key == key
    ensures r.None? <==> forall i :: 0 <= i < |groups| ==> groups[i].key != key
  {
    if groups == [] then None
    else if groups[0].key == key then Some(0)
    else
      match Find(groups[1..], key)
      case None => None
      case Some(i) => Some(i + 1)
  }

  /** `setdefault(key, []).append(id)`: append to the key's group, or open
      a new group for the key at the end. */
  function AddToGroup(groups: seq<KeyGroup>, key: EntityKey, id: ListenerId): (r: seq<KeyGroup>)
    ensures Find(groups, key).None? ==> r == groups + [KeyGroup(key, [id])]
    ensures Find(groups, key).Some? ==>
              var i := Find(groups, key).value;
              r == groups[i := KeyGroup(key, groups[i].ids + [id])]
    ensures WellFormed(groups) ==> WellFormed(r)
    ensures Find(r, key).Some?
    ensures multiset(Flatten(r)) == multiset(Flatten(groups)) + multiset{id}
  {
    match Find(groups, key)
    case None =>
      var g := KeyGroup(key, [id]);
      AppendGroupCount(groups, g);
      assert multiset(g.ids) == multiset{id};
      AppendGroupWellFormed(groups, g);
      AppendGroupFinds(groups, g);
      groups + [g]
    case Some(i) =>
      var g := KeyGroup(key, groups[i].ids + [id]);
      ReplaceGroupCount(groups, i, g);
      assert multiset(g.ids) == multiset(groups[i].ids) + multiset{id};
      MultisetCancel(multiset(Flatten(groups[i := g])), multiset(Flatten(groups)) + multiset{id},
                     multiset(groups[i].ids));
      ReplaceGroupWellFormed(groups, i, g);
      ReplaceGroupFinds(groups, i, g);
      groups[i := g]
  }

  /** Removes the first registration of `id` from the group of `key`, and
      deletes the key when its group becomes empty. In the coordinator, an
      absent key makes the dict lookup raise `KeyError` and an absent id makes
      `list.remove` raise `ValueError`; both are excluded here. */
  function RemoveFromGroup(groups: seq<KeyGroup>, key: EntityKey, id: ListenerId): (r: seq<KeyGroup>)
    requires Find(groups, key).Some? && id in groups[Find(groups, key).value].ids
    ensures var i := Find(groups, key).value;
            var rest := RemoveFirst(groups[i].ids, id);
            && (rest == [] ==> r == groups[..i] + groups[i + 1..])
            && (rest != [] ==> r == groups[i := KeyGroup(key, rest)])
    ensures WellFormed(groups) ==> WellFormed(r)
    ensures WellFormed(groups) ==>
              (Find(r, key).None? <==> groups[Find(groups, key).value].ids == [id])
    ensures multiset(Flatten(r)) + multiset{id} == multiset(Flatten(groups))
  {
    var i := Find(groups, key).value;
    var rest := RemoveFirst(groups[i].ids, id);
    if rest == [] then
      DeleteLastOfGroup(groups, key, i, id);
      groups[..i] + groups[i + 1..]
    else
      ShrinkGroup(groups, key, i, id);
      groups[i := KeyGroup(key, rest)]
  }

  /** Deleting a group whose only registration is `id`. */
  lemma DeleteLastOfGroup(groups: seq<KeyGroup>, key: EntityKey, i: nat, id: ListenerId)
    requires Find(groups, key) == Some(i)
    requires id in groups[i].ids && RemoveFirst(groups[i].ids, id) == []
    ensures var r := groups[..i] + groups[i + 1..];
            && groups[i].ids == [id]
            && multiset(Flatten(r)) + multiset{id} == multiset(Flatten(groups))
            && (WellFormed(groups) ==> WellFormed(r))
            && (WellFormed(groups) ==> Find(r, key).None?)
  {
    assert groups[i].ids == [id] by {
      assert |groups[i].ids| == 1;
      assert groups[i].ids[0] == id;
    }
    DeleteGroupCount(groups, i);
    DeleteGroupWellFormed(groups, i);
    DeleteGroupForgets(groups, i);
  }

  /** Removing `id` from a group that keeps other registrations. */
  lemma ShrinkGroup(groups: seq<KeyGroup>, key: EntityKey, i: nat, id: ListenerId)
    requires Find(groups, key) == Some(i)
    requires id in groups[i].ids && RemoveFirst(groups[i].ids, id) != []
    ensures var r := groups[i := KeyGroup(key, RemoveFirst(groups[i].ids, id))];
            && groups[i].ids != [id]
            && multiset(Flatten(r)) + multiset{id} == multiset(Flatten(groups))
            && (WellFormed(groups) ==> WellFormed(r))
            && Find(r, key).Some?
  {
    var rest := RemoveFirst(groups[i].ids, id);
    var g := KeyGroup(key, rest);
    var r := groups[i := g];
    assert |rest| == |groups[i].ids| - 1;
    assert multiset(Flatten(r)) + multiset{id} == multiset(Flatten(groups)) by {
      RemoveFirstCount(groups[i].ids, id);
      ReplaceGroupCount(groups, i, g);
      MultisetCancel(multiset(Flatten(r)) + multiset{id}, multiset(Flatten(groups)), multiset(rest));
    }
    assert WellFormed(groups) ==> WellFormed(r) by {
      ReplaceGroupWellFormed(groups, i, g);
    }
    ReplaceGroupFinds(groups, i, g);
  }


  lemma AppendGroupCount(groups: seq<KeyGroup>, g: KeyGroup)
    ensures multiset(Flatten(groups + [g])) == multiset(Flatten(groups)) + multiset(g.ids)
  {
    FlattenAppend(groups, [g]);
    assert Flatten([g]) == g.ids + Flatten([]);
  }

  lemma AppendGroupWellFormed(groups: seq<KeyGroup>, g: KeyGroup)
    requires Find(groups, g.key).None?
    ensures WellFormed(groups) && g.ids != [] ==> WellFormed(groups + [g])
  {
  }

  lemma AppendGroupFinds(groups: seq<KeyGroup>, g: KeyGroup)
    ensures Find(groups + [g], g.key).Some?
  {
    assert (groups + [g])[|groups|].key == g.key;
  }

  lemma ReplaceGroupCount(groups: seq<KeyGroup>, i: nat, g: KeyGroup)
    requires i < |groups|
    ensures multiset(Flatten(groups[i := g])) + multiset(groups[i].ids) ==
            multiset(Flatten(groups)) + multiset(g.ids)
  {
    var r := groups[i := g];
    FlattenAround(groups, i);
    FlattenAround(r, i);
    assert r[..i] == groups[..i] && r[i + 1..] == groups[i + 1..];
  }

  lemma ReplaceGroupWellFormed(groups: seq<KeyGroup>, i: nat, g: KeyGroup)
    requires i < |groups| && g.key == groups[i].key
    ensures WellFormed(groups) && g.ids != [] ==> WellFormed(groups[i := g])
  {
  }

  lemma ReplaceGroupFinds(groups: seq<KeyGroup>, i: nat, g: KeyGroup)
    requires i < |groups|
    ensures Find(groups[i := g], g.key).Some?
  {
    assert groups[i := g][i].key == g.key;
  }

  lemma DeleteGroupCount(groups: seq<KeyGroup>, i: nat)
    requires i < |groups|
    ensures multiset(Flatten(groups[..i] + groups[i + 1..])) + multiset(groups[i].ids) ==
            multiset(Flatten(groups))
  {
    FlattenAround(groups, i);
    FlattenAppend(groups[..i], groups[i + 1..]);
  }

  lemma DeleteGroupWellFormed(groups: seq<KeyGroup>, i: nat)
    requires i < |groups|
    ensures WellFormed(groups) ==> WellFormed(groups[..i] + groups[i + 1..])
  {
  }

  lemma DeleteGroupForgets(groups: seq<KeyGroup>, i: nat)
    requires i < |groups|
    ensures WellFormed(groups) ==> Find(groups[..i] + groups[i + 1..], groups[i].key).None?
  {
  }

  /** Adding a fresh registration to a key's group and removing it again
      restores the groups exactly, including key order. */
  lemma AddRemoveGroupRoundTrip(groups: seq<KeyGroup>, key: EntityKey, id: ListenerId)
    requires WellFormed(groups)
    requires Find(groups, key).None? || id !in groups[Find(groups, key).value].ids
    ensures RemoveFromGroup(AddToGroup(groups, key, id), key, id) == groups
  {
    match Find(groups, key)
    case None => NewGroupRoundTrip(groups, key, id);
    case Some(i) => GrownGroupRoundTrip(groups, key, i, id);
  }

  /** In well-formed groups a key is found at its one position. */
  lemma FindUnique(groups: seq<KeyGroup>, i: nat)
    requires WellFormed(groups) && i < |groups|
    ensures Find(groups, groups[i].key) == Some(i)
  {
  }

  /** The round trip through a key that had no group. */
  lemma NewGroupRoundTrip(groups: seq<KeyGroup>, key: EntityKey, id: ListenerId)
    requires WellFormed(groups) && Find(groups, key).None?
    ensures Find(groups + [KeyGroup(key, [id])], key) == Some(|groups|)
    ensures RemoveFromGroup(groups + [KeyGroup(key, [id])], key, id) == groups
  {
    var added := groups + [KeyGroup(key, [id])];
    AppendGroupWellFormed(groups, added[|groups|]);
    FindUnique(added, |groups|);
    RemoveFirstHead(id, []);
    assert added[..|groups|] == groups && added[|groups| + 1..] == [];
  }

  /** The round trip through a key whose group already held others. */
  lemma GrownGroupRoundTrip(groups: seq<KeyGroup>, key: EntityKey, i: nat, id: ListenerId)
    requires WellFormed(groups) && Find(groups, key) == Some(i) && id !in groups[i].ids
    ensures Find(groups[i := KeyGroup(key, groups[i].ids + [id])], key) == Some(i)
    ensures RemoveFromGroup(groups[i := KeyGroup(key, groups[i].ids + [id])], key, id) == groups
  {
    var added := groups[i := KeyGroup(key, groups[i].ids + [id])];
    ReplaceGroupWellFormed(groups, i, added[i]);
    FindUnique(added, i);
    RemoveFirstOfAppended(groups[i].ids, id);
    assert groups[i].ids != [];
    assert added[i := KeyGroup(key, groups[i].ids)] == groups;
  }

  // ---------------------------------------------------------------------
  // The registry and lazy start/stop
  // ---------------------------------------------------------------------

  /** `self._listeners or self._entity_key_listeners`. */
  predicate HasListeners(r: Registry)
  {
    r.listeners != [] || r.keyed != []
  }

  /** `bool(self._cancel_bluetooth_advertisements)`. */
  predicate Running(r: Registry)
  {
    r.cancelAdvertisements.Some?
  }

  /** Every listener the fan-out reaches, in fan-out order: the global
      ones, then each keyed group in key insertion order. */
  function AllListeners(r: Registry): seq<ListenerId>
  {
    r.listeners + Flatten(r.keyed)
  }

  /** The two handles are held or released together. */
  ghost predicate Paired(r: Registry)
  {
    r.cancelAdvertisements.Some? <==> r.cancelTrackUnavailable.Some?
  }

  /** What holds between operations, whether or not the subscriptions
      match the listeners: groups are well formed, the handles are paired
      and name the latest start round, and starts and stops alternate. */
  ghost predicate Consistent(r: Registry)
  {
    && WellFormed(r.keyed)
    && Paired(r)
    && r.starts == r.stops + (if Running(r) then 1 else 0)
    && (Running(r) ==> r.starts > 0 && r.cancelAdvertisements == Some(r.starts - 1)
                       && r.cancelTrackUnavailable == Some(r.starts - 1))
  }

  /** The registry invariant: consistent, and subscribed exactly while some
      listener is registered. */
  ghost predicate Valid(r: Registry)
  {
    Consistent(r) && (Running(r) <==> HasListeners(r))
  }

  /** The registrations of a registry: its global ones and its keyed ones. */
  lemma AllListenersCount(r: Registry)
    ensures multiset(AllListeners(r)) == multiset(r.listeners) + multiset(Flatten(r.keyed))
  {
  }

  /** Replacing the global listeners keeps the registry consistent. */
  lemma RelistedConsistent(r: Registry, listeners: seq<ListenerId>)
    requires Consistent(r)
    ensures Consistent(r.(listeners := listeners))
  {
  }

  /** Replacing the keyed groups by well-formed ones keeps the registry
      consistent. */
  lemma RekeyedConsistent(r: Registry, keyed: seq<KeyGroup>)
    requires Consistent(r) && WellFormed(keyed)
    ensures Consistent(r.(keyed := keyed))
  {
  }

  /** The registry right after a keyed removal, before re-evaluation: one
      registration fewer, and still consistent and subscribed when the
      registry was valid. */
  lemma KeyRemoved(r: Registry, id: ListenerId, key: EntityKey)
    requires Find(r.keyed, key).Some? && id in r.keyed[Find(r.keyed, key).value].ids
    ensures var r1 := r.(keyed := RemoveFromGroup(r.keyed, key, id));
            && multiset(AllListeners(r1)) + multiset{id} == multiset(AllListeners(r))
            && (Valid(r) ==> Consistent(r1) && Running(r1) && r1.starts == r.starts)
            && (Valid(r) && r.keyed[Find(r.keyed, key).value].ids == [id] ==> Find(r1.keyed, key).None?)
  {
    var r1 := r.(keyed := RemoveFromGroup(r.keyed, key, id));
    AllListenersCount(r);
    AllListenersCount(r1);
    if Valid(r) {
      RekeyedConsistent(r, r1.keyed);
      assert HasListeners(r);
    }
  }

  lemma EmptyIsValid()
    ensures Valid(Empty()) && !Running(Empty()) && AllListeners(Empty()) == []
  {
  }

  /** In a valid registry the upstream handles are held exactly when the
      fan-out would reach at least one listener. */
  lemma RunningIffSomeListener(r: Registry)
    requires Valid(r)
    ensures Running(r) <==> AllListeners(r) != []
    ensures r.cancelTrackUnavailable.Some? <==> AllListeners(r) != []
  {
    FlattenNonEmpty(r.keyed);
  }

  /** `_async_start`: subscribe to advertisements and to unavailability. */
  function Start(r: Registry): (res: Changed)
    ensures Running(res.registry) && Paired(res.registry)
    ensures res.registry.starts == r.starts + 1 && res.registry.stops == r.stops
    ensures res.registry.listeners == r.listeners && res.registry.keyed == r.keyed
    ensures res.registry.cancelAdvertisements == Some(r.starts)
    ensures res.registry.cancelTrackUnavailable == Some(r.starts)
    ensures res.calls == [RegisterCallback(r.starts), TrackUnavailable(r.starts)]
  {
    var round := r.starts;
    Changed(
      r.(cancelAdvertisements := Some(round), cancelTrackUnavailable := Some(round), starts := round + 1),
      [RegisterCallback(round), TrackUnavailable(round)])
  }

  /** `_async_stop`: cancel whichever handles are held and clear them. */
  function Stop(r: Registry): (res: Changed)
    ensures !Running(res.registry) && res.registry.cancelTrackUnavailable.None?
    ensures res.registry.starts == r.starts && res.registry.stops == r.stops + 1
    ensures res.registry.listeners == r.listeners && res.registry.keyed == r.keyed
    ensures forall call :: call in res.calls <==>
              (r.cancelAdvertisements.Some? && call == CancelCallback(r.cancelAdvertisements.value))
              || (r.cancelTrackUnavailable.Some? && call == CancelTracking(r.cancelTrackUnavailable.value))
    ensures |res.calls| == (if r.cancelAdvertisements.Some? then 1 else 0) +
                           (if r.cancelTrackUnavailable.Some? then 1 else 0)
    ensures r.cancelAdvertisements.Some? ==> res.calls[0] == CancelCallback(r.cancelAdvertisements.value)
  {
    var cancelAdv := if r.cancelAdvertisements.Some? then [CancelCallback(r.cancelAdvertisements.value)] else [];
    var cancelTrack := if r.cancelTrackUnavailable.Some? then [CancelTracking(r.cancelTrackUnavailable.value)] else [];
    Changed(
      r.(cancelAdvertisements := None, cancelTrackUnavailable := None, stops := r.stops + 1),
      cancelAdv + cancelTrack)
  }

  /** `_async_handle_listeners_changed`: start on the "not running, has
      listeners" edge, stop on the "running, no listeners" edge, otherwise
      do nothing. */
  function ListenersChanged(r: Registry): (res: Changed)
    ensures res.registry.listeners == r.listeners && res.registry.keyed == r.keyed
    ensures Running(res.registry) <==> HasListeners(r)
    ensures Running(r) == HasListeners(r) ==> res == Changed(r, [])
    ensures !Running(r) && HasListeners(r) ==>
              && res.calls == [RegisterCallback(r.starts), TrackUnavailable(r.starts)]
              && res.registry.starts == r.starts + 1 && res.registry.stops == r.stops
    ensures Running(r) && !HasListeners(r) ==>
              && res.registry.cancelTrackUnavailable.None?
              && res.registry.starts == r.starts && res.registry.stops == r.stops + 1
              && |res.calls| >= 1 && res.calls[0] == CancelCallback(r.cancelAdvertisements.value)
    ensures Consistent(r) && Running(r) && !HasListeners(r) ==>
              r.starts > 0 && res.calls == [CancelCallback(r.starts - 1), CancelTracking(r.starts - 1)]
    ensures Paired(r) ==> Paired(res.registry)
    ensures Consistent(r) ==> Valid(res.registry)
  {
    var has := HasListeners(r);
    var running := Running(r);
    if running && !has then Stop(r)
    else if !running && has then Start(r)
    else Changed(r, [])
  }

  /** Re-evaluating twice in a row changes nothing the second time. */
  lemma ListenersChangedIdempotent(r: Registry)
    ensures ListenersChanged(ListenersChanged(r).registry) == Changed(ListenersChanged(r).registry, [])
  {
  }

  /** `async_add_listener`: append a global listener and re-evaluate. */
  function AddListener(r: Registry, id: ListenerId): (res: Changed)
    ensures res.registry.listeners == r.listeners + [id] && res.registry.keyed == r.keyed
    ensures multiset(AllListeners(res.registry)) == multiset(AllListeners(r)) + multiset{id}
    ensures Running(res.registry)
    ensures Running(r) ==> res == Changed(r.(listeners := r.listeners + [id]), [])
    ensures Valid(r) ==> Valid(res.registry)
    ensures Valid(r) && !HasListeners(r) ==>
              res.calls == [RegisterCallback(r.starts), TrackUnavailable(r.starts)]
  {
    var r1 := r.(listeners := r.listeners + [id]);
    assert Valid(r) ==> Consistent(r1) by {
      if Valid(r) { RelistedConsistent(r, r1.listeners); }
    }
    assert multiset(AllListeners(r1)) == multiset(AllListeners(r)) + multiset{id} by {
      AllListenersCount(r);
      AllListenersCount(r1);
    }
    ListenersChanged(r1)
  }

  /** The unsubscribe capability of `async_add_listener`: remove the first
      registration of `id` and re-evaluate. When `id` is not registered,
      `list.remove` raises `ValueError`; that is excluded here. */
  function RemoveListener(r: Registry, id: ListenerId): (res: Changed)
    requires id in r.listeners
    ensures res.registry.listeners == RemoveFirst(r.listeners, id) && res.registry.keyed == r.keyed
    ensures multiset(AllListeners(res.registry)) + multiset{id} == multiset(AllListeners(r))
    ensures Running(res.registry) <==> HasListeners(res.registry)
    ensures Valid(r) ==> Valid(res.registry)
    ensures Valid(r) && HasListeners(res.registry) ==> res == Changed(r.(listeners := RemoveFirst(r.listeners, id)), [])
    ensures Valid(r) && !HasListeners(res.registry) ==>
              r.starts > 0 && res.calls == [CancelCallback(r.starts - 1), CancelTracking(r.starts - 1)]
  {
    var r1 := r.(listeners := RemoveFirst(r.listeners, id));
    assert multiset(AllListeners(r1)) + multiset{id} == multiset(AllListeners(r)) by {
      RemoveFirstCount(r.listeners, id);
      AllListenersCount(r);
      AllListenersCount(r1);
    }
    assert Valid(r) ==> Consistent(r1) && Running(r) by {
      if Valid(r) { RelistedConsistent(r, r1.listeners); }
    }
    ListenersChanged(r1)
  }

  /** `async_add_entity_key_listener`: append to the key's group (opening
      it at the end if new) and re-evaluate. */
  function AddKeyListener(r: Registry, id: ListenerId, key: EntityKey): (res: Changed)
    ensures res.registry.listeners == r.listeners && res.registry.keyed == AddToGroup(r.keyed, key, id)
    ensures multiset(AllListeners(res.registry)) == multiset(AllListeners(r)) + multiset{id}
    ensures Running(res.registry)
    ensures Valid(r) ==> Valid(res.registry)
    ensures Running(r) ==> res == Changed(r.(keyed := AddToGroup(r.keyed, key, id)), [])
    ensures Valid(r) && !HasListeners(r) ==>
              res.calls == [RegisterCallback(r.starts), TrackUnavailable(r.starts)]
  {
    var r1 := r.(keyed := AddToGroup(r.keyed, key, id));
    assert multiset(AllListeners(r1)) == multiset(AllListeners(r)) + multiset{id} by {
      AllListenersCount(r);
      AllListenersCount(r1);
    }
    assert Valid(r) ==> Consistent(r1) by {
      if Valid(r) { RekeyedConsistent(r, r1.keyed); }
    }
    ListenersChanged(r1)
  }

  /** The unsubscribe capability of `async_add_entity_key_listener`:
      remove the first registration of `id` under `key`, drop the key when
      its group empties, and re-evaluate. */
  function RemoveKeyListener(r: Registry, id: ListenerId, key: EntityKey): (res: Changed)
    requires Find(r.keyed, key).Some? && id in r.keyed[Find(r.keyed, key).value].ids
    ensures res.registry.listeners == r.listeners && res.registry.keyed == RemoveFromGroup(r.keyed, key, id)
    ensures multiset(AllListeners(res.registry)) + multiset{id} == multiset(AllListeners(r))
    ensures Running(res.registry) <==> HasListeners(res.registry)
    ensures Valid(r) ==> Valid(res.registry)
    ensures Valid(r) && r.keyed[Find(r.keyed, key).value].ids == [id] ==> Find(res.registry.keyed, key).None?
    ensures Valid(r) && HasListeners(res.registry) ==>
              res == Changed(r.(keyed := RemoveFromGroup(r.keyed, key, id)), [])
    ensures Valid(r) && !HasListeners(res.registry) ==>
              r.starts > 0 && res.calls == [CancelCallback(r.starts - 1), CancelTracking(r.starts - 1)]
  {
    var r1 := r.(keyed := RemoveFromGroup(r.keyed, key, id));
    KeyRemoved(r, id, key);
    ListenersChanged(r1)
  }

  /** Subscribing a new global listener and unsubscribing it restores the
      registry; the upstream subscription is untouched when other
      listeners were present, and started then stopped once otherwise. */
  lemma AddRemoveListenerRoundTrip(r: Registry, id: ListenerId)
    requires Valid(r) && id !in r.listeners
    ensures var added := AddListener(r, id);
            var removed := RemoveListener(added.registry, id);
            && (HasListeners(r) ==> removed.registry == r && added.calls + removed.calls == [])
            && (!HasListeners(r) ==>
                  && removed.registry == r.(starts := r.starts + 1, stops := r.stops + 1)
                  && added.calls + removed.calls ==
                     [RegisterCallback(r.starts), TrackUnavailable(r.starts),
                      CancelCallback(r.starts), CancelTracking(r.starts)])
  {
    var added := AddListener(r, id);
    if HasListeners(r) {
      RoundTripWhileSubscribed(r, id);
      assert added.registry == r.(listeners := r.listeners + [id]) && added.calls == [];
    } else {
      RoundTripFromIdle(r, id);
      assert added.registry == Registry(r.listeners + [id], r.keyed, Some(r.starts), Some(r.starts), r.starts + 1, r.stops);
    }
  }

  /** The round trip on a subscribed registry touches nothing upstream. */
  lemma RoundTripWhileSubscribed(r: Registry, id: ListenerId)
    requires Valid(r) && id !in r.listeners && HasListeners(r)
    ensures AddListener(r, id) == Changed(r.(listeners := r.listeners + [id]), [])
    ensures RemoveListener(r.(listeners := r.listeners + [id]), id) == Changed(r, [])
  {
    var r1 := r.(listeners := r.listeners + [id]);
    RemoveFirstOfAppended(r.listeners, id);
    assert r1.(listeners := RemoveFirst(r1.listeners, id)) == r;
  }

  /** The round trip on an idle registry starts and stops once. */
  lemma RoundTripFromIdle(r: Registry, id: ListenerId)
    requires Valid(r) && id !in r.listeners && !HasListeners(r)
    ensures var started := Registry(r.listeners + [id], r.keyed, Some(r.starts), Some(r.starts), r.starts + 1, r.stops);
            && AddListener(r, id) == Changed(started, [RegisterCallback(r.starts), TrackUnavailable(r.starts)])
            && RemoveListener(started, id) ==
               Changed(r.(starts := r.starts + 1, stops := r.stops + 1),
                       [CancelCallback(r.starts), CancelTracking(r.starts)])
  {
    var started := Registry(r.listeners + [id], r.keyed, Some(r.starts), Some(r.starts), r.starts + 1, r.stops);
    RemoveFirstOfAppended(r.listeners, id);
    assert started.(listeners := RemoveFirst(started.listeners, id)) ==
           r.(cancelAdvertisements := Some(r.starts), cancelTrackUnavailable := Some(r.starts), starts := r.starts + 1);
  }


  /** The same round trip for a keyed listener: key order and groups are
      restored exactly. */
  lemma AddRemoveKeyListenerRoundTrip(r: Registry, id: ListenerId, key: EntityKey)
    requires Valid(r)
    requires Find(r.keyed, key).None? || id !in r.keyed[Find(r.keyed, key).value].ids
    ensures var added := AddKeyListener(r, id, key);
            var removed := RemoveKeyListener(added.registry, id, key);
            && (HasListeners(r) ==> removed.registry == r && added.calls + removed.calls == [])
            && (!HasListeners(r) ==>
                  && removed.registry == r.(starts := r.starts + 1, stops := r.stops + 1)
                  && added.calls + removed.calls ==
                     [RegisterCallback(r.starts), TrackUnavailable(r.starts),
                      CancelCallback(r.starts), CancelTracking(r.starts)])
  {
    AddRemoveGroupRoundTrip(r.keyed, key, id);
  }

  /** A registry subscribed in the first start round, with global
      listeners `ids` only. */
  function Subscribed(ids: seq<ListenerId>): Registry
  {
    Registry(ids, [], Some(0), Some(0), 1, 0)
  }

  lemma FirstSubscribes(x: ListenerId)
    ensures AddListener(Empty(), x) == Changed(Subscribed([x]), [RegisterCallback(0), TrackUnavailable(0)])
  {
  }

  lemma SecondIsQuiet(x: ListenerId, y: ListenerId)
    ensures AddListener(Subscribed([x]), y) == Changed(Subscribed([x, y]), [])
  {
    assert [x] + [y] == [x, y];
  }

  lemma FirstLeavesQuietly(x: ListenerId, y: ListenerId)
    ensures RemoveListener(Subscribed([x, y]), x) == Changed(Subscribed([y]), [])
  {
    var r := Subscribed([x, y]);
    RemoveFirstHead(x, [y]);
    assert Valid(r);
    assert r.(listeners := RemoveFirst(r.listeners, x)) == Subscribed([y]) by {
      assert [x, y] == [x] + [y];
    }
    assert HasListeners(Subscribed([y]));
  }

  lemma LastCancels(y: ListenerId)
    ensures RemoveListener(Subscribed([y]), y) ==
            Changed(Registry([], [], None, None, 1, 1), [CancelCallback(0), CancelTracking(0)])
  {
    var r := Subscribed([y]);
    RemoveFirstHead(y, []);
    assert Valid(r);
    assert r.(listeners := RemoveFirst(r.listeners, y)) == Subscribed([]);
    assert !HasListeners(Subscribed([]));
  }

  /** Two listeners subscribe once and unsubscribing both cancels once,
      whatever their ids (the same callback twice included): each step's
      registry is the next step's input, and only the first subscription
      and the last unsubscription reach the scanning layer. */
  lemma TwoListenersSubscribeOnce(x: ListenerId, y: ListenerId)
    ensures AddListener(Empty(), x) == Changed(Subscribed([x]), [RegisterCallback(0), TrackUnavailable(0)])
    ensures AddListener(Subscribed([x]), y) == Changed(Subscribed([x, y]), [])
    ensures RemoveListener(Subscribed([x, y]), x) == Changed(Subscribed([y]), [])
    ensures RemoveListener(Subscribed([y]), y) ==
            Changed(Registry([], [], None, None, 1, 1), [CancelCallback(0), CancelTracking(0)])
  {
    FirstSubscribes(x);
    SecondIsQuiet(x, y);
    FirstLeavesQuietly(x, y);
    LastCancels(y);
  }
}
