/**
 The entity bound to one entity key of a coordinator
 (`PassiveBluetoothCoordinatorEntity`): its unique id, device info, name
 and availability, all derived from the coordinator and the key when the
 entity is constructed.
 */
module Entity {
  import opened Types
  import opened Coordinator

  datatype Entity<D> = Entity(
    description: D,
    key: EntityKey,
    uniqueId: string,
    deviceInfo: DeviceInfo,
    name: Option<string>)

  /** Python truthiness of `device_id`: present and not the empty string. */
  predicate Truthy(deviceId: Option<string>)
  {
    deviceId.Some? && deviceId.value != ""
  }

  /** `address-key-device_id` for a truthy device id, else `address-key`. */
  function UniqueId(address: string, key: EntityKey): (u: string)
    ensures |u| > |address| && u[..|address| + 1] == address + "-"
    ensures var n := |address| + 1 + |key.key|;
            && |u| >= n && u[|address| + 1..n] == key.key
            && (Truthy(key.deviceId) ==> u[n..] == "-" + key.deviceId.value)
            && (!Truthy(key.deviceId) ==> |u| == n)
  {
    if Truthy(key.deviceId) then address + "-" + key.key + "-" + key.deviceId.value
    else address + "-" + key.key
  }

  /** The device identifier: `address-device_id` for a truthy device id,
      else the address alone. */
  function DeviceIdentifier(address: string, deviceId: Option<string>): (ident: string)
    ensures Truthy(deviceId) <==> |ident| > |address|
    ensures |ident| >= |address| && ident[..|address|] == address
    ensures Truthy(deviceId) ==>
              ident[..|address| + 1] == address + "-" && ident[|address| + 1..] == deviceId.value
    ensures !Truthy(deviceId) ==> ident == address
  {
    if Truthy(deviceId) then address + "-" + deviceId.value else address
  }

  /** Distinct sub-devices of one address get distinct identifiers, and a
      sub-device's identifier differs from the bare device's. Every falsy
      device id (absent or empty) names the bare device. */
  lemma DeviceIdentifierInjective(address: string, d1: Option<string>, d2: Option<string>)
    ensures DeviceIdentifier(address, d1) == DeviceIdentifier(address, d2) <==>
              (Truthy(d1) <==> Truthy(d2)) && (Truthy(d1) ==> d1 == d2)
  {
    var i1 := DeviceIdentifier(address, d1);
    var i2 := DeviceIdentifier(address, d2);
    if Truthy(d1) && Truthy(d2) && i1 == i2 {
      assert d1.value == i1[|address| + 1..] == i2[|address| + 1..] == d2.value;
    }
  }

  /** Index of the first `-` in `s`, if any. */
  function FirstDash(s: string): (r: Option<nat>)
    ensures r.Some? ==> r.value < |s| && s[r.value] == '-' && '-' !in s[..r.value]
    ensures r.None? <==> '-' !in s
  {
    if s == [] then None
    else if s[0] == '-' then Some(0)
    else
      match FirstDash(s[1..])
      case None => None
      case Some(i) =>
        assert s[..i + 1] == [s[0]] + s[1..][..i];
        Some(i + 1)
  }

  /** Reads an entity key back out of a unique id built for `address`,
      splitting the remainder at its first dash. */
  function ParseUniqueId(address: string, u: string): Option<EntityKey>
  {
    if |u| <= |address| || u[..|address| + 1] != address + "-" then None
    else
      var rest := u[|address| + 1..];
      match FirstDash(rest)
      case None => Some(EntityKey(rest, None))
      case Some(i) => Some(EntityKey(rest[..i], Some(rest[i + 1..])))
  }

  /** Keys for which the unique id determines the key: the key text has no
      dash and the device id, when present, is not empty. */
  predicate Distinguishable(key: EntityKey)
  {
    '-' !in key.key && key.deviceId != Some("")
  }

  /** The unique id can be read back into the key it was built from. */
  lemma UniqueIdRoundTrip(address: string, key: EntityKey)
    requires Distinguishable(key)
    ensures ParseUniqueId(address, UniqueId(address, key)) == Some(key)
  {
    var u := UniqueId(address, key);
    var rest := u[|address| + 1..];
    if Truthy(key.deviceId) {
      assert rest == key.key + "-" + key.deviceId.value;
      assert rest[|key.key|] == '-';
      assert rest[..|key.key|] == key.key;
      assert FirstDash(rest) == Some(|key.key|);
      assert rest[|key.key| + 1..] == key.deviceId.value;
    } else {
      assert rest == key.key;
      assert key.deviceId.None?;
    }
  }

  /** Hence distinct distinguishable keys of one coordinator get distinct
      unique ids. */
  lemma UniqueIdInjective(address: string, k1: EntityKey, k2: EntityKey)
    requires Distinguishable(k1) && Distinguishable(k2)
    requires UniqueId(address, k1) == UniqueId(address, k2)
    ensures k1 == k2
  {
    UniqueIdRoundTrip(address, k1);
    UniqueIdRoundTrip(address, k2);
  }

  /** Outside those keys the unique id does collide: a dash in the key
      text, or an empty device id, which is falsy. */
  lemma UniqueIdCollisions(address: string)
    ensures UniqueId(address, EntityKey("a-b", None)) == UniqueId(address, EntityKey("a", Some("b")))
    ensures UniqueId(address, EntityKey("a", Some(""))) == UniqueId(address, EntityKey("a", None))
  {
  }

  /** The device info the entity starts from: the coordinator's record for
      the key's device id, or an empty one. */
  function BaseDeviceInfo<D, V>(c: Coordinator<D, V>, deviceId: Option<string>): DeviceInfo
  {
    if deviceId in c.devices then c.devices[deviceId] else map[]
  }

  /** The entity constructor. */
  function NewEntity<D, V>(c: Coordinator<D, V>, key: EntityKey, description: D): (e: Entity<D>)
    ensures e.key == key && e.description == description
    ensures e.uniqueId == UniqueId(c.address, key)
    ensures var base := BaseDeviceInfo(c, key.deviceId);
            && e.deviceInfo.Keys == base.Keys + {IdentifiersAttr, NameAttr}
            && e.deviceInfo[IdentifiersAttr] == Identifiers({(Domain, DeviceIdentifier(c.address, key.deviceId))})
            && (NameAttr in base ==> e.deviceInfo[NameAttr] == base[NameAttr])
            && (NameAttr !in base ==> e.deviceInfo[NameAttr] == Name(c.name))
            && (forall a :: a in base && a != IdentifiersAttr ==> e.deviceInfo[a] == base[a])
    ensures key in c.entityNames ==> e.name == c.entityNames[key]
    ensures key !in c.entityNames ==> e.name.None?
  {
    var base := BaseDeviceInfo(c, key.deviceId);
    var ident := DeviceIdentifier(c.address, key.deviceId);
    var info := base[IdentifiersAttr := Identifiers({(Domain, ident)})];
    var info' := if NameAttr !in info then info[NameAttr := Name(c.name)] else info;
    var name := if key in c.entityNames then c.entityNames[key] else None;
    Entity(description, key, UniqueId(c.address, key), info', name)
  }

  /** The entity's `available`: it has none of its own. */
  predicate EntityAvailable<D, V>(e: Entity<D>, c: Coordinator<D, V>)
  {
    Available(c)
  }

  /** An entity is available exactly when its coordinator's device is
      present and the coordinator's last parse succeeded. */
  lemma EntityAvailableIffCoordinator<D, V>(e: Entity<D>, c: Coordinator<D, V>)
    ensures EntityAvailable(e, c) <==> c.present && c.lastUpdateSuccess
  {
  }
}
