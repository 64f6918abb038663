/**
 The listener `async_add_entities_listener` registers: it owns the set of
 entity keys it has already created entities for, and on every update
 creates one entity per entity-description key it has not seen yet and
 hands the new ones to the sink in one batch.
 */
module EntitiesListener {
  import opened Types
  import opened Listeners
  import opened Coordinator
  import opened Entity

  /** The listener's private state after one call, and the batch it handed
      to the sink, if it called the sink. */
  datatype Reaction<D> = Reaction(created: set<EntityKey>, batch: Option<map<EntityKey, Entity<D>>>)

  /** `async_add_entities_listener`: register the listener as a global
      listener, with nothing created yet. Registration goes through
      `async_add_listener`, so the upstream is subscribed only from idle. */
  function AddEntitiesListener(r: Registry, id: ListenerId): (res: (Changed, set<EntityKey>))
    ensures res.0.registry.listeners == r.listeners + [id] && res.0.registry.keyed == r.keyed
    ensures Running(res.0.registry)
    ensures Running(r) ==> res.0 == Changed(r.(listeners := r.listeners + [id]), [])
    ensures Valid(r) ==> Valid(res.0.registry)
    ensures Valid(r) && !HasListeners(r) ==>
              res.0.calls == [RegisterCallback(r.starts), TrackUnavailable(r.starts)]
    ensures res.1 == {}
  {
    (AddListener(r, id), {})
  }

  /** One invocation with `payload`, while the coordinator is in state `c`
      (the merged state: fan-out follows the merge). */
  function OnUpdate<D, V>(created: set<EntityKey>, c: Coordinator<D, V>, payload: Payload<D, V>): (re: Reaction<D>)
    ensures payload.None? ==> re == Reaction(created, None)
    ensures payload.Some? ==> re.created == created + payload.value.entityDescriptions.Keys
    ensures re.batch.Some? <==>
              payload.Some? && !(payload.value.entityDescriptions.Keys <= created)
    ensures re.batch.Some? ==>
              && re.batch.value.Keys == re.created - created
              && re.batch.value.Keys != {}
              && forall k :: k in re.batch.value ==>
                   re.batch.value[k] == NewEntity(c, k, payload.value.entityDescriptions[k])
  {
    match payload
    case None => Reaction(created, None)
    case Some(u) =>
      var unseen := u.entityDescriptions.Keys - created;
      var entities := map k | k in unseen :: NewEntity(c, k, u.entityDescriptions[k]);
      Reaction(created + unseen, if unseen == {} then None else Some(entities))
  }

  /** One invocation of the listener, as the fan-out delivers it. */
  datatype Delivered<D, V> = Delivered(state: Coordinator<D, V>, payload: Payload<D, V>)

  /** Entity-description keys one delivery offers: those of its update, or
      none for the empty payload. */
  function Offered<D, V>(d: Delivered<D, V>): set<EntityKey>
  {
    match d.payload
    case Some(u) => u.entityDescriptions.Keys
    case None => {}
  }

  /** Entity-description keys of all updates among the deliveries. */
  function SeenKeys<D, V>(ds: seq<Delivered<D, V>>): set<EntityKey>
    decreases |ds|
  {
    if ds == [] then {} else Offered(ds[0]) + SeenKeys(ds[1..])
  }

  /** The listener over a sequence of deliveries: its final set of created
      keys and the key sets of the batches it announced, in order. */
  function Announce<D, V>(created: set<EntityKey>, ds: seq<Delivered<D, V>>): (res: (set<EntityKey>, seq<set<EntityKey>>))
    decreases |ds|
  {
    if ds == [] then (created, [])
    else
      var re := OnUpdate(created, ds[0].state, ds[0].payload);
      var rest := Announce(re.created, ds[1..]);
      (rest.0, (if re.batch.Some? then [re.batch.value.Keys] else []) + rest.1)
  }

  /** Reference definition on keys alone: each offer announces the keys not
      created yet, if there are any, and marks all offered keys created. */
  function KeyRun(created: set<EntityKey>, offers: seq<set<EntityKey>>): (set<EntityKey>, seq<set<EntityKey>>)
    decreases |offers|
  {
    if offers == [] then (created, [])
    else
      var rest := KeyRun(created + offers[0], offers[1..]);
      (rest.0, (if offers[0] <= created then [] else [offers[0] - created]) + rest.1)
  }

  /** The offers of a sequence of deliveries, in order. */
  function Offers<D, V>(ds: seq<Delivered<D, V>>): seq<set<EntityKey>>
  {
    seq(|ds|, i requires 0 <= i < |ds| => Offered(ds[i]))
  }

  /** The offers of a non-empty sequence: the first delivery's, then the
      rest's. */
  lemma OffersCons<D, V>(ds: seq<Delivered<D, V>>)
    requires ds != []
    ensures Offers(ds) == [Offered(ds[0])] + Offers(ds[1..])
  {
  }

  /** Union of a sequence of key sets. */
  function Union(offers: seq<set<EntityKey>>): set<EntityKey>
    decreases |offers|
  {
    if offers == [] then {} else offers[0] + Union(offers[1..])
  }

  /** The listener announces exactly what the reference definition does:
      one batch of the new keys per delivery that offers any. */
  lemma {:induction false} AnnounceIsKeyRun<D, V>(created: set<EntityKey>, ds: seq<Delivered<D, V>>)
    ensures Announce(created, ds) == KeyRun(created, Offers(ds))
    ensures SeenKeys(ds) == Union(Offers(ds))
    decreases |ds|
  {
    if ds != [] {
      var re := OnUpdate(created, ds[0].state, ds[0].payload);
      assert re.created == created + Offered(ds[0]);
      assert re.batch.Some? <==> !(Offered(ds[0]) <= created);
      assert re.batch.Some? ==> re.batch.value.Keys == Offered(ds[0]) - created;
      AnnounceIsKeyRun(re.created, ds[1..]);
      OffersCons(ds);
    }
  }

  lemma {:induction false} KeyRunCreates(created: set<EntityKey>, offers: seq<set<EntityKey>>)
    ensures KeyRun(created, offers).0 == created + Union(offers)
    decreases |offers|
  {
    if offers != [] {
      KeyRunCreates(created + offers[0], offers[1..]);
    }
  }

  /** Every batch is non-empty, avoids `created` and lies within `seen`. */
  ghost predicate FreshWithin(batches: seq<set<EntityKey>>, created: set<EntityKey>, seen: set<EntityKey>)
  {
    forall i :: 0 <= i < |batches| ==> batches[i] != {} && batches[i] !! created && batches[i] <= seen
  }

  /** No key appears in two batches. */
  ghost predicate PairwiseDisjoint(batches: seq<set<EntityKey>>)
  {
    forall i, j :: 0 <= i < j < |batches| ==> batches[i] !! batches[j]
  }

  lemma {:induction false} KeyRunFresh(created: set<EntityKey>, offers: seq<set<EntityKey>>)
    ensures FreshWithin(KeyRun(created, offers).1, created, Union(offers))
    decreases |offers|
  {
    if offers != [] {
      var created' := created + offers[0];
      assert Union(offers) == offers[0] + Union(offers[1..]);
      KeyRunFresh(created', offers[1..]);
      var rest := KeyRun(created', offers[1..]).1;
      var batches := KeyRun(created, offers).1;
      if offers[0] <= created {
        assert batches == rest;
      } else {
        assert batches == [offers[0] - created] + rest;
        var k :| k in offers[0] && k !in created;
        assert k in batches[0];
        forall i | 0 < i < |batches|
          ensures batches[i] != {} && batches[i] !! created && batches[i] <= Union(offers)
        {
          assert batches[i] == rest[i - 1];
        }
      }
    }
  }

  lemma {:induction false} KeyRunDisjoint(created: set<EntityKey>, offers: seq<set<EntityKey>>)
    ensures PairwiseDisjoint(KeyRun(created, offers).1)
    decreases |offers|
  {
    if offers != [] {
      var created' := created + offers[0];
      KeyRunDisjoint(created', offers[1..]);
      KeyRunFresh(created', offers[1..]);
      var rest := KeyRun(created', offers[1..]).1;
      var batches := KeyRun(created, offers).1;
      if offers[0] <= created {
        assert batches == rest;
      } else {
        assert batches == [offers[0] - created] + rest;
        forall i, j | 0 <= i < j < |batches|
          ensures batches[i] !! batches[j]
        {
          assert batches[j] == rest[j - 1];
          if i > 0 {
            assert batches[i] == rest[i - 1];
          }
        }
      }
    }
  }

  /** At the end exactly the keys of every description seen have been
      created. */
  lemma AnnouncedCreatesSeen<D, V>(created: set<EntityKey>, ds: seq<Delivered<D, V>>)
    ensures Announce(created, ds).0 == created + SeenKeys(ds)
  {
    AnnounceIsKeyRun(created, ds);
    KeyRunCreates(created, Offers(ds));
  }

  /** Every key is announced at most once over the listener's life: the
      batches are non-empty, pairwise disjoint and disjoint from what was
      already created, and consist of keys of descriptions seen. */
  lemma AnnouncedAtMostOnce<D, V>(created: set<EntityKey>, ds: seq<Delivered<D, V>>)
    ensures var batches := Announce(created, ds).1;
            && (forall i :: 0 <= i < |batches| ==> batches[i] != {} && batches[i] !! created)
            && (forall i :: 0 <= i < |batches| ==> batches[i] <= SeenKeys(ds))
            && (forall i, j :: 0 <= i < j < |batches| ==> batches[i] !! batches[j])
  {
    AnnounceIsKeyRun(created, ds);
    KeyRunFresh(created, Offers(ds));
    KeyRunDisjoint(created, Offers(ds));
  }
}
