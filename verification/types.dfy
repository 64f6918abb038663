/**
 Value types shared by the passive Bluetooth update coordinator: the entity
 key, the partial data update produced by one parse of one advertisement,
 the device-info record and the outcome of the caller-supplied parser.
 */
module Types {

  /** The conventional optional value; stands for Python's `X | None`. */
  datatype Option<T> = None | Some(value: T)

  /** Identifies one logical sub-entity of a physical device; the device id
      is absent for entities of the physical device itself. Equality is by
      value on both fields, as for the frozen dataclass. */
  datatype EntityKey = EntityKey(key: string, deviceId: Option<string>)

  /** One value of a device-info record. Only the two attributes the
      coordinator touches are given a shape; every other attribute is an
      opaque text. */
  datatype InfoValue =
    | Identifiers(ids: set<(string, string)>)
    | Name(name: Option<string>)
    | Other(text: string)

  /** A device-info record: attribute name to value. */
  type DeviceInfo = map<string, InfoValue>

  /** Attribute names and integration domain used when an entity builds
      its device info. */
  const IdentifiersAttr: string := "identifiers"
  const NameAttr: string := "name"
  const Domain: string := "bluetooth"

  /** The partial result of one successful parse. `D` is the entity
      description type and `V` the per-coordinator data type. Absence of a
      key means "no news for that key", never "cleared". */
  datatype DataUpdate<D, V> = DataUpdate(
    devices: map<Option<string>, DeviceInfo>,
    entityDescriptions: map<EntityKey, D>,
    entityNames: map<EntityKey, Option<string>>,
    entityData: map<EntityKey, V>)

  /** The part of an advertisement the coordinator itself reads; the rest
      is seen only by the parser, whose answer is an oracle below. */
  datatype ServiceInfo = ServiceInfo(name: string)

  /** What the caller-supplied parser did with one advertisement: returned
      an update, raised, or returned something that is not an update. */
  datatype ParseOutcome<D, V> =
    | Produced(update: DataUpdate<D, V>)
    | Raised
    | NotAnUpdate

  /** Listeners are named by opaque ids; two registrations of the same
      callback carry the same id. */
  type ListenerId = nat
}
