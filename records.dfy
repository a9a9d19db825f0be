/**
 * Record dictionaries as the repositories pass them to SQL, and the two
 * audit-field preprocessors that fill them in: presence-based defaults on
 * create, unconditional stamps on update.
 */
module Records {
  import opened Common

  /** The values a record dictionary holds. */
  datatype Value =
    | UuidValue(u: Uuid)
    | BoolValue(b: bool)
    | TimeValue(t: Time)
    | IntValue(i: int)
    | DecimalValue(d: real)
    | TextValue(s: string)
    | NoneValue

  type Entries = map<string, Value>

  /** A Python dict: passed by reference and changed in place by whoever holds it. */
  class Dict {
    var entries: Entries

    constructor (initial: Entries)
      ensures entries == initial
    {
      entries := initial;
    }
  }

  const IdKey: string := "id"
  const IsActiveKey: string := "is_active"
  const CreatedAtKey: string := "created_at"
  const UpdatedAtKey: string := "updated_at"
  const UpdatedByKey: string := "updated_by"

  /** The keys `preprocess_create` may add. */
  const DefaultedKeys: set<string> := {IdKey, IsActiveKey, CreatedAtKey, UpdatedAtKey}

  /** `if key not in values: values[key] = v`. */
  function Default(m: Entries, key: string, v: Value): Entries
  {
    if key in m then m else m[key := v]
  }

  /**
   * The dictionary after `preprocess_create`: a fresh id, `is_active = True` and
   * the two timestamps, each only where the key is absent.
   */
  function CreateDefaults(m: Entries, newId: Uuid, createdAt: Time, updatedAt: Time): (r: Entries)
    ensures r.Keys == m.Keys + DefaultedKeys
    ensures forall k :: k in m ==> r[k] == m[k]
    ensures IdKey !in m ==> r[IdKey] == UuidValue(newId)
    ensures IsActiveKey !in m ==> r[IsActiveKey] == BoolValue(true)
    ensures CreatedAtKey !in m ==> r[CreatedAtKey] == TimeValue(createdAt)
    ensures UpdatedAtKey !in m ==> r[UpdatedAtKey] == TimeValue(updatedAt)
  {
    var withId := Default(m, IdKey, UuidValue(newId));
    var withActive := Default(withId, IsActiveKey, BoolValue(true));
    var withCreated := Default(withActive, CreatedAtKey, TimeValue(createdAt));
    Default(withCreated, UpdatedAtKey, TimeValue(updatedAt))
  }

  /** The dictionary after `preprocess_update`: `updated_at` and `updated_by` overwritten. */
  function UpdateStamps(m: Entries, updatedAt: Time, updatedBy: Uuid): (r: Entries)
    ensures r.Keys == m.Keys + {UpdatedAtKey, UpdatedByKey}
    ensures r[UpdatedAtKey] == TimeValue(updatedAt) && r[UpdatedByKey] == UuidValue(updatedBy)
    ensures forall k :: k in m && k != UpdatedAtKey && k != UpdatedByKey ==> r[k] == m[k]
  {
    m[UpdatedAtKey := TimeValue(updatedAt)][UpdatedByKey := UuidValue(updatedBy)]
  }

  /** Preprocessing a record a second time changes nothing, whatever id and clock the second call draws. */
  lemma CreateDefaultsIdempotent(m: Entries, id1: Uuid, c1: Time, u1: Time, id2: Uuid, c2: Time, u2: Time)
    ensures CreateDefaults(CreateDefaults(m, id1, c1, u1), id2, c2, u2) == CreateDefaults(m, id1, c1, u1)
  {
    var once := CreateDefaults(m, id1, c1, u1);
    assert DefaultedKeys <= once.Keys;
  }

  /** Stamping twice with the same actor and instant is stamping once. */
  lemma UpdateStampsIdempotent(m: Entries, t: Time, actor: Uuid)
    ensures UpdateStamps(UpdateStamps(m, t, actor), t, actor) == UpdateStamps(m, t, actor)
  {
  }
}
