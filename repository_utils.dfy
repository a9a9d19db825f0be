/** The module-level preprocessors every plain repository calls before a write. */
module RepositoryUtils {
  import opened Common
  import opened Records

  /**
   * `preprocess_create(values)`: fills in the missing audit keys of `values`
   * in place and hands back the very same dictionary. `newId` is the
   * `uuid4()` drawn for the id, `createdAt` and `updatedAt` the two clock
   * readings.
   */
  method PreprocessCreate(values: Dict, newId: Uuid, createdAt: Time, updatedAt: Time) returns (r: Dict)
    modifies values
    ensures r == values
    ensures values.entries == CreateDefaults(old(values.entries), newId, createdAt, updatedAt)
  {
    if IdKey !in values.entries {
      values.entries := values.entries[IdKey := UuidValue(newId)];
    }
    if IsActiveKey !in values.entries {
      values.entries := values.entries[IsActiveKey := BoolValue(true)];
    }
    if CreatedAtKey !in values.entries {
      values.entries := values.entries[CreatedAtKey := TimeValue(createdAt)];
    }
    if UpdatedAtKey !in values.entries {
      values.entries := values.entries[UpdatedAtKey := TimeValue(updatedAt)];
    }
    r := values;
  }

  /** `preprocess_update(values, updated_by)`: stamps the two update keys in place and returns `values`. */
  method PreprocessUpdate(values: Dict, updatedBy: Uuid, now: Time) returns (r: Dict)
    modifies values
    ensures r == values
    ensures values.entries == UpdateStamps(old(values.entries), now, updatedBy)
  {
    values.entries := values.entries[UpdatedAtKey := TimeValue(now)];
    values.entries := values.entries[UpdatedByKey := UuidValue(updatedBy)];
    r := values;
  }
}
