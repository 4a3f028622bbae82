/**
 * The flood-damage document (backend/models/FloodDamage.js): one row of the
 * municipal flood-damage table, geocoded to a point.
 */
module FloodDamageModel {
  import opened Wrappers

  /** `createdAt` is a millisecond timestamp; the Asia/Seoul wall-clock conversion is not modelled. */
  datatype FloodDamage = FloodDamage(
    sequence: int,
    address: string,
    damageDate: string,
    latitude: real,
    longitude: real,
    createdAt: int)

  /**
   * Mongoose's `required` checks: `address` and `damageDate` must be
   * non-empty strings (`damageDate` is never parsed); the numeric fields are
   * always present in this model.
   */
  predicate SchemaValid(d: FloodDamage) {
    d.address != "" && d.damageDate != ""
  }

  /** The unique index on `sequence`. */
  ghost predicate UniqueSequences(store: seq<FloodDamage>) {
    forall i, j :: 0 <= i < j < |store| ==> store[i].sequence != store[j].sequence
  }

  predicate HasSequence(store: seq<FloodDamage>, sequence: int) {
    exists i :: 0 <= i < |store| && store[i].sequence == sequence
  }

  /** `new FloodDamage({...})`: the schema default stamps `createdAt` with the construction time. */
  function NewFloodDamage(sequence: int, address: string, damageDate: string,
                          latitude: real, longitude: real, constructedAt: int): FloodDamage
  {
    FloodDamage(sequence, address, damageDate, latitude, longitude, constructedAt)
  }

  /**
   * The `pre('save')` hook: a document saved for the first time gets the save
   * time as `createdAt`; a document saved again keeps its own.
   */
  function PreSave(d: FloodDamage, isNew: bool, now: int): (r: FloodDamage)
    ensures isNew ==> r.createdAt == now
    ensures !isNew ==> r == d
    ensures r.(createdAt := d.createdAt) == d
  {
    if isNew then d.(createdAt := now) else d
  }

  datatype SaveError = ValidationError | DuplicateKey

  /**
   * `doc.save()` of a new document at time `now`: the hook runs, validation
   * runs, then the unique index is consulted; on success the document is
   * appended to the collection.
   */
  function SaveNew(store: seq<FloodDamage>, d: FloodDamage, now: int): (r: Result<seq<FloodDamage>, SaveError>)
    ensures r.Success? <==> SchemaValid(d) && !HasSequence(store, d.sequence)
    ensures r.Success? ==> r.value == store + [d.(createdAt := now)]
    ensures UniqueSequences(store) && r.Success? ==> UniqueSequences(r.value)
  {
    var stamped := PreSave(d, true, now);
    if !SchemaValid(stamped) then Failure(ValidationError)
    else if HasSequence(store, stamped.sequence) then Failure(DuplicateKey)
    else Success(store + [stamped])
  }

  /** The construction-time default never survives a first save: the stored `createdAt` is the save time. */
  lemma SavedStampIsSaveTime(store: seq<FloodDamage>, sequence: int, address: string, damageDate: string,
                             latitude: real, longitude: real, constructedAt: int, now: int)
    requires address != "" && damageDate != "" && !HasSequence(store, sequence)
    ensures var r := SaveNew(store, NewFloodDamage(sequence, address, damageDate, latitude, longitude, constructedAt), now);
            r.Success? && r.value[|store|].createdAt == now
  {
  }

  /** Saving an already-stored document again changes nothing: the hook is idempotent on old documents. */
  lemma ResaveKeepsStamp(d: FloodDamage, now1: int, now2: int)
    ensures PreSave(PreSave(d, false, now1), false, now2) == d
    ensures PreSave(PreSave(d, true, now1), false, now2).createdAt == now1
  {
  }
}
