/** The abstract repository base class used by the role and user repositories. */
module RepositoriesBase {
  import opened Common
  import opened Records

  /**
   * `BaseRepository`: its preprocessors behave like the module-level ones,
   * as methods. The database handle is not modelled; `generate_uuid()` and
   * `_preprocess_date()` are parameters.
   */
  class BaseRepository {

    constructor ()
    {
    }

    method PreprocessCreate(values: Dict, newId: Uuid, createdAt: Time, updatedAt: Time) returns (r: Dict)
      modifies values
      ensures r == values
      ensures values.entries == CreateDefaults(old(values.entries), newId, createdAt, updatedAt)
    {
      if IdKey !in values.entries {
        values.entries := values.entries[IdKey := UuidValue(newId)];
      }
      if IsActiveKey !in values.entries {
        values.entries := values.entries[IsActiveKey := BoolValue(true)];
      }
      if CreatedAtKey !in values.entries {
        values.entries := values.entries[CreatedAtKey := TimeValue(createdAt)];
      }
      if UpdatedAtKey !in values.entries {
        values.entries := values.entries[UpdatedAtKey := TimeValue(updatedAt)];
      }
      r := values;
    }

    method PreprocessUpdate(values: Dict, updatedBy: Uuid, now: Time) returns (r: Dict)
      modifies values
      ensures r == values
      ensures values.entries == UpdateStamps(old(values.entries), now, updatedBy)
    {
      values.entries := values.entries[UpdatedAtKey := TimeValue(now)];
      values.entries := values.entries[UpdatedByKey := UuidValue(updatedBy)];
      r := values;
    }
  }
}
