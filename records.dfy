/**
 * The step record as the engine holds it (a partial `StepRecord`), the
 * acting user, and the failures an invocation can end with. In a stored row
 * `None` is a NULL column; in a record about to be written `None` is a
 * property that is `undefined`, which an update leaves out. `note` keeps
 * `undefined` and `null` apart, since the engine copies a record's `note`
 * onto another row.
 */
module Records {
  import opened Wrappers
  import opened Json
  import opened Enum

  datatype User = User(id: string)

  datatype StepRecord = StepRecord(
    id: Option<string>,
    stepId: Option<string>,
    previousId: Option<string>,
    previousStepId: Option<string>,
    previousUserId: Option<string>,
    ancestorIds: Option<seq<string>>,
    status: Option<RecordStatus>,
    data: Option<Data>,
    summary: Option<Json>,
    note: Field<string>,
    version: Option<int>,
    /** timestamp fields that hold a value (`createdAt`, `doneAt`, ...), as clock readings */
    times: map<TimeField, int>,
    /** actor fields that were assigned (`createdBy`, `updatedBy`, `doneBy`, ...); `None` is `null` */
    bys: map<string, Option<string>>,
    duration: Option<int>,
    /** the object has a property literally named `undefined` (`record[undefined] = ...`) */
    undefinedProp: bool
  )

  /** The record with no field set. */
  const Blank := StepRecord(None, None, None, None, None, None, None, None, None, Undefined, None, map[], map[], None, false)

  /** `user?.id`. */
  function UserId(user: Option<User>): (r: Option<string>)
    ensures r.Some? <==> user.Some?
    ensures user.Some? ==> r.value == user.value.id
  {
    match user
    case Some(u) => Some(u.id)
    case None => None
  }

  /**
   * `record[key] = user?.id`: with a user the key holds the user's id,
   * without one it holds `undefined`, so the store does not write it.
   */
  function SetUser(bys: map<string, Option<string>>, key: string, user: Option<User>): (r: map<string, Option<string>>)
    ensures user.Some? ==> key in r && r[key] == Some(user.value.id)
    ensures user.None? ==> key !in r
    ensures forall k :: k != key ==> (k in r <==> k in bys)
    ensures forall k :: k != key && k in bys ==> r[k] == bys[k]
  {
    match user
    case Some(u) => bys[key := Some(u.id)]
    case None => bys - {key}
  }

  /** The new value of a column: the written one, or the stored one when `undefined`. */
  function DefinedOr<T>(written: Option<T>, stored: Option<T>): (r: Option<T>)
    ensures written.Some? ==> r == written
    ensures written.None? ==> r == stored
  {
    if written.Some? then written else stored
  }

  /**
   * The row that `update(rec)` leaves in place of `stored`: every defined
   * property of `rec` overwrites its column, every `undefined` one keeps the
   * stored value. (`rec` without the stray `undefined` property; the store
   * refuses a write that has one.)
   */
  function Overlay(stored: StepRecord, rec: StepRecord): (r: StepRecord)
    ensures r.times.Keys == stored.times.Keys + rec.times.Keys
    ensures forall f :: f in rec.times ==> r.times[f] == rec.times[f]
    ensures forall f :: f in stored.times && f !in rec.times ==> r.times[f] == stored.times[f]
    ensures r.bys.Keys == stored.bys.Keys + rec.bys.Keys
    ensures forall k :: k in rec.bys ==> r.bys[k] == rec.bys[k]
    ensures forall k :: k in stored.bys && k !in rec.bys ==> r.bys[k] == stored.bys[k]
    ensures rec.note.Undefined? ==> r.note == stored.note
    ensures !rec.note.Undefined? ==> r.note == rec.note
    ensures r.undefinedProp == stored.undefinedProp
  {
    StepRecord(
      DefinedOr(rec.id, stored.id),
      DefinedOr(rec.stepId, stored.stepId),
      DefinedOr(rec.previousId, stored.previousId),
      DefinedOr(rec.previousStepId, stored.previousStepId),
      DefinedOr(rec.previousUserId, stored.previousUserId),
      DefinedOr(rec.ancestorIds, stored.ancestorIds),
      DefinedOr(rec.status, stored.status),
      DefinedOr(rec.data, stored.data),
      DefinedOr(rec.summary, stored.summary),
      if rec.note.Undefined? then stored.note else rec.note,
      DefinedOr(rec.version, stored.version),
      stored.times + rec.times,
      stored.bys + rec.bys,
      DefinedOr(rec.duration, stored.duration),
      stored.undefinedProp)
  }

  /** `rec` defines every property `other` defines. */
  predicate Defines(rec: StepRecord, other: StepRecord) {
    (other.id.Some? ==> rec.id.Some?) && (other.stepId.Some? ==> rec.stepId.Some?) &&
    (other.previousId.Some? ==> rec.previousId.Some?) &&
    (other.previousStepId.Some? ==> rec.previousStepId.Some?) &&
    (other.previousUserId.Some? ==> rec.previousUserId.Some?) &&
    (other.ancestorIds.Some? ==> rec.ancestorIds.Some?) &&
    (other.status.Some? ==> rec.status.Some?) && (other.data.Some? ==> rec.data.Some?) &&
    (other.summary.Some? ==> rec.summary.Some?) &&
    (!other.note.Undefined? ==> !rec.note.Undefined?) &&
    (other.version.Some? ==> rec.version.Some?) &&
    other.times.Keys <= rec.times.Keys && other.bys.Keys <= rec.bys.Keys &&
    (other.duration.Some? ==> rec.duration.Some?)
  }

  /** Writing a record that defines every column the row has replaces the row by it. */
  lemma OverlayCovered(stored: StepRecord, rec: StepRecord)
    requires Defines(rec, stored)
    ensures Overlay(stored, rec) == rec.(undefinedProp := stored.undefinedProp)
  {
    assert stored.times + rec.times == rec.times;
    assert stored.bys + rec.bys == rec.bys;
  }

  /** A second write that defines everything the first one did hides the first. */
  lemma OverlayTwice(stored: StepRecord, first: StepRecord, second: StepRecord)
    requires Defines(second, first)
    ensures Overlay(Overlay(stored, first), second) == Overlay(stored, second)
  {
    assert stored.times + first.times + second.times == stored.times + second.times;
    assert stored.bys + first.bys + second.bys == stored.bys + second.bys;
  }

  /** What an invocation fails with. */
  datatype Failure =
    /** `throw Error(lang[key])` or `throw Error(lang[key](arg))` */
    | Localized(key: string, arg: Option<string>)
    /** an error thrown by a user hook or by a downstream step, carried verbatim */
    | Thrown(message: string)
    /** a JavaScript TypeError (a property of `undefined`, a missing function) */
    | TypeFailure
    /** an error raised by the relational store (duplicate key, negative offset) */
    | StoreFailure

  /** Index of the first row with the given id (`.where('id', id).first()`). */
  function Find(rows: seq<StepRecord>, id: string): (r: Option<nat>)
    ensures r.Some? ==> r.value < |rows| && rows[r.value].id == Some(id)
    ensures r.Some? ==> forall j :: 0 <= j < r.value ==> rows[j].id != Some(id)
    ensures r.None? ==> forall j :: 0 <= j < |rows| ==> rows[j].id != Some(id)
  {
    if |rows| == 0 then None
    else if rows[0].id == Some(id) then Some(0)
    else match Find(rows[1..], id)
      case None => None
      case Some(k) => Some(k + 1)
  }

  /** Primary-key discipline of the `step_records` table. */
  ghost predicate UniqueIds(rows: seq<StepRecord>) {
    (forall i :: 0 <= i < |rows| ==> rows[i].id.Some?) &&
    (forall i, j :: 0 <= i < j < |rows| ==> rows[i].id != rows[j].id)
  }
}
