/**
 * The helpers handed to every action hook (packages/step/src/action.ts):
 * `save`, which writes the record being processed, and `createRecord`,
 * which chains a new record in another step from it.
 *
 * The helpers share one mutable `props` object with the engine: the record
 * and a `saved` marker. `save` always decides between update and insert by
 * whether the record carries an id; nothing else is consulted.
 */
module Action {
  import opened Wrappers
  import opened Json
  import opened Enum
  import opened Records
  import opened Store
  import opened Invoke

  /**
   * `props.saved`: the engine passes a callback (a function, hence truthy);
   * callers that build the helpers directly pass a boolean. `save` overwrites
   * it with `true` and never calls the callback.
   */
  datatype SavedFlag = Callback | Flag(b: bool)

  predicate SavedTruthy(f: SavedFlag) {
    f.Callback? || f.b
  }

  /** The `summary` option: computes the summary of a record, or throws. */
  type SummaryFn = StepRecord -> Result<Json, string>

  /** The record's data as a summary value (`undefined` when there is no data). */
  function DataSummary(rec: StepRecord): (r: Option<Json>)
    ensures r.Some? <==> rec.data.Some?
    ensures rec.data.Some? ==> r.value == JObj(rec.data.value)
  {
    match rec.data
    case Some(d) => Some(JObj(d))
    case None => None
  }

  /** The summary `save` stores: the hook's value when there is a hook, the data otherwise. */
  function Summarize(rec: StepRecord, summary: Option<SummaryFn>): (r: Result<Option<Json>, Failure>)
    ensures summary.None? ==> r == Ok(DataSummary(rec))
    ensures summary.Some? && summary.value(rec).Ok? ==> r == Ok(Some(summary.value(rec).value))
    ensures summary.Some? && summary.value(rec).Err? ==> r == Err(Thrown(summary.value(rec).error))
  {
    match summary
    case None => Ok(DataSummary(rec))
    case Some(f) =>
      match f(rec)
      case Ok(s) => Ok(Some(s))
      case Err(m) => Err(Thrown(m))
  }

  /**
   * `update(row).where('id', id)`: every row with that id takes the defined
   * properties of `row` and keeps its other columns.
   */
  function UpdateWhereId(rows: seq<StepRecord>, id: string, row: StepRecord): (r: seq<StepRecord>)
    ensures |r| == |rows|
    ensures forall i :: 0 <= i < |rows| ==> r[i] == if rows[i].id == Some(id) then Overlay(rows[i], row) else rows[i]
  {
    seq(|rows|, i requires 0 <= i < |rows| => if rows[i].id == Some(id) then Overlay(rows[i], row) else rows[i])
  }

  /** The shared state after `save`, and what it returned. */
  datatype SaveOutcome = SaveOutcome(
    result: Result<StepRecord, Failure>,
    record: StepRecord,
    saved: SavedFlag,
    rows: seq<StepRecord>)

  /**
   * What `save` does to the record, the `saved` marker and the table;
   * `generated` is the id the store assigns to an inserted row that has none.
   * The store refuses a write that names a column it does not have (the
   * stray `undefined` property) and one whose id is taken; the record keeps
   * the summary and actor fields assigned before the write was attempted.
   */
  function SaveSpec(rec: StepRecord, saved: SavedFlag, user: Option<User>, summary: Option<SummaryFn>,
                    rows: seq<StepRecord>, generated: string): SaveOutcome
  {
    match Summarize(rec, summary)
    case Err(f) => SaveOutcome(Err(f), rec, saved, rows)
    case Ok(s) =>
      var r1 := rec.(summary := s, bys := SetUser(rec.bys, "updatedBy", user));
      if Present(r1.id) then
        if r1.undefinedProp then SaveOutcome(Err(StoreFailure), r1, saved, rows)
        else SaveOutcome(Ok(r1), r1, Flag(true), UpdateWhereId(rows, r1.id.value, r1))
      else
        var r2 := r1.(bys := SetUser(r1.bys, "createdBy", user));
        var rowId := if r2.id.Some? then r2.id.value else generated;
        if r2.undefinedProp || Find(rows, rowId).Some? then SaveOutcome(Err(StoreFailure), r2, saved, rows)
        else
          var row := r2.(id := Some(rowId));
          SaveOutcome(Ok(row), row, Flag(true), rows + [row])
  }

  /**
   * `save` stamps the summary and `updatedBy` on every write; without a user
   * `updatedBy` is `undefined`, so an updated row keeps the one it had. A
   * record with an id updates the rows with that id (the table keeps its
   * size), one without is appended with `createdBy` set.
   */
  lemma SaveWrites(rec: StepRecord, saved: SavedFlag, user: Option<User>, summary: Option<SummaryFn>,
                   rows: seq<StepRecord>, generated: string)
    requires Summarize(rec, summary).Ok?
    ensures var o := SaveSpec(rec, saved, user, summary, rows, generated);
      && o.record.summary == Summarize(rec, summary).value
      && (user.Some? ==> "updatedBy" in o.record.bys && o.record.bys["updatedBy"] == Some(user.value.id))
      && (user.None? ==> "updatedBy" !in o.record.bys)
      && o.record.data == rec.data
      && o.record.status == rec.status
      && (Present(rec.id) && !rec.undefinedProp ==>
            && o.result == Ok(o.record)
            && o.saved == Flag(true)
            && |o.rows| == |rows|
            && ("createdBy" in o.record.bys <==> "createdBy" in rec.bys)
            && ("createdBy" in rec.bys ==> o.record.bys["createdBy"] == rec.bys["createdBy"])
            && (forall i :: 0 <= i < |rows| ==> o.rows[i] == if rows[i].id == rec.id then Overlay(rows[i], o.record) else rows[i])
            && (forall i :: 0 <= i < |rows| && rows[i].id == rec.id && user.None? && "updatedBy" in rows[i].bys ==>
                  o.rows[i].bys["updatedBy"] == rows[i].bys["updatedBy"]))
      && (!Present(rec.id) && o.result.Ok? ==>
            && o.saved == Flag(true)
            && o.rows == rows + [o.record]
            && (user.Some? ==> "createdBy" in o.record.bys && o.record.bys["createdBy"] == Some(user.value.id))
            && (user.None? ==> "createdBy" !in o.record.bys))
  {
  }

  /**
   * Once the summary is computed, `save` fails exactly when the store
   * refuses the write: the record has the stray `undefined` property, or it
   * is inserted under an id already taken. A refused write changes neither
   * the table nor the marker.
   */
  lemma SaveRefused(rec: StepRecord, saved: SavedFlag, user: Option<User>, summary: Option<SummaryFn>,
                    rows: seq<StepRecord>, generated: string)
    requires Summarize(rec, summary).Ok?
    ensures var o := SaveSpec(rec, saved, user, summary, rows, generated);
      && (o.result.Err? <==>
            rec.undefinedProp || (!Present(rec.id) && Find(rows, if rec.id.Some? then rec.id.value else generated).Some?))
      && (o.result.Err? ==> o.result.error == StoreFailure && o.rows == rows && o.saved == saved)
  {
  }

  /** A failing summary hook leaves the record, the marker and the table as they were. */
  lemma SaveSummaryThrows(rec: StepRecord, saved: SavedFlag, user: Option<User>, summary: Option<SummaryFn>,
                          rows: seq<StepRecord>, generated: string)
    requires Summarize(rec, summary).Err?
    ensures SaveSpec(rec, saved, user, summary, rows, generated) == SaveOutcome(Err(Summarize(rec, summary).error), rec, saved, rows)
  {
  }

  /** The recorded test: saving `{ id: 'id', ancestorIds: [] }` as user `test`, with no summary hook. */
  lemma SaveExample(rows: seq<StepRecord>, generated: string)
    ensures var rec := Blank.(id := Some("id"), ancestorIds := Some([]));
      var o := SaveSpec(rec, Flag(false), Some(User("test")), None, rows, generated);
      o.result == Ok(Blank.(id := Some("id"), ancestorIds := Some([]), summary := None,
                            bys := map["updatedBy" := Some("test")]))
  {
  }

  /** What `createRecord` is asked to create: its target step and the other fields. */
  datatype RecordProps = RecordProps(stepId: string, rest: Data)

  /** `record.ancestorIds.concat(record.id)`, as JSON (`undefined` in an array becomes `null`). */
  function AppendId(ancestors: seq<string>, id: Option<string>): (r: Json)
    ensures r.JArr? && |r.items| == |ancestors| + 1
    ensures forall i :: 0 <= i < |ancestors| ==> r.items[i] == JStr(ancestors[i])
    ensures r.items[|ancestors|] == if id.Some? then JStr(id.value) else JNull
  {
    JArr(IdArray(ancestors).items + [if id.Some? then JStr(id.value) else JNull])
  }

  /** The session `createRecord`'s cookie encodes: `{ aid: user?.id }`, where an `undefined` id is dropped. */
  function AidSession(user: Option<User>): (r: Data)
    ensures user.Some? <==> "aid" in r
    ensures user.Some? ==> r["aid"] == JStr(user.value.id)
    ensures forall k :: k in r ==> k == "aid"
  {
    Put(map[], "aid", StrOrUndefined(UserId(user)))
  }

  /**
   * The body `createRecord` sends: the requested fields with the lineage of
   * `rec` on top. The chain is extended unconditionally. A record without
   * an `ancestorIds` array cannot be chained from (a TypeError).
   */
  function CreateRecordBody(props: RecordProps, rec: StepRecord, stepId: string, user: Option<User>): (r: Option<Data>)
    ensures r.Some? <==> rec.ancestorIds.Some?
  {
    match rec.ancestorIds
    case None => None
    case Some(ancestors) =>
      var b0 := props.rest["stepId" := JStr(props.stepId)];
      var b1 := Put(b0, "previousId", StrOrUndefined(rec.id));
      var b2 := b1["previousStepId" := JStr(stepId)];
      var b3 := Put(b2, "previousUserId", StrOrUndefined(UserId(user)));
      Some(b3["ancestorIds" := AppendId(ancestors, rec.id)])
  }

  /** The body's fields: the requested ones and the lineage keys, `previousId`/`previousUserId` only when known. */
  lemma CreateRecordBodyKeys(props: RecordProps, rec: StepRecord, stepId: string, user: Option<User>)
    requires rec.ancestorIds.Some?
    ensures CreateRecordBody(props, rec, stepId, user).value.Keys ==
      (props.rest.Keys - {"previousId", "previousUserId"}) + {"stepId", "previousStepId", "ancestorIds"}
      + (if rec.id.Some? then {"previousId"} else {})
      + (if user.Some? then {"previousUserId"} else {})
  {
  }

  /**
   * The body's values: the target step, this step as the previous one,
   * the chain with this record's id appended, and every other requested
   * field as given.
   */
  lemma CreateRecordBodyValues(props: RecordProps, rec: StepRecord, stepId: string, user: Option<User>)
    requires rec.ancestorIds.Some?
    ensures var b := CreateRecordBody(props, rec, stepId, user).value;
      && "stepId" in b && b["stepId"] == JStr(props.stepId)
      && "previousStepId" in b && b["previousStepId"] == JStr(stepId)
      && "ancestorIds" in b && b["ancestorIds"] == AppendId(rec.ancestorIds.value, rec.id)
      && (rec.id.Some? ==> "previousId" in b && b["previousId"] == JStr(rec.id.value))
      && (user.Some? ==> "previousUserId" in b && b["previousUserId"] == JStr(user.value.id))
      && forall k :: k in props.rest && k !in LineageKeys && k != "stepId" ==> k in b && b[k] == props.rest[k]
  {
  }

  /**
   * Unlike `invokeStep`, `createRecord` appends the record's id even when it
   * is already in the chain; the two agree on a chain that does not yet hold
   * it.
   */
  lemma CreateRecordChainDiffers(ancestors: seq<string>, id: string)
    requires "" !in ancestors && id != ""
    ensures id !in ancestors ==> AppendId(ancestors, Some(id)) == IdArray(NextAncestors(ancestors, id))
    ensures id in ancestors ==>
      AppendId(ancestors, Some(id)) != IdArray(NextAncestors(ancestors, id))
  {
    if id !in ancestors {
      NextAncestorsAppends(ancestors, id);
      assert IdArray(ancestors + [id]).items == IdArray(ancestors).items + [JStr(id)];
    } else {
      assert |AppendId(ancestors, Some(id)).items| != |IdArray(ancestors).items|;
    }
  }

  /** The recorded test: chaining from `{ id: 'id', ancestorIds: [] }` of step `basic` as user `test`. */
  lemma CreateRecordExample()
    ensures CreateRecordBody(
              RecordProps("basic", map["action" := JStr("draft"), "data" := JObj(map[])]),
              Blank.(id := Some("id"), ancestorIds := Some([])), "basic", Some(User("test")))
            == Some(map["action" := JStr("draft"), "data" := JObj(map[]), "ancestorIds" := JArr([JStr("id")]),
                        "previousId" := JStr("id"), "previousStepId" := JStr("basic"),
                        "previousUserId" := JStr("test"), "stepId" := JStr("basic")])
  {
    var props := RecordProps("basic", map["action" := JStr("draft"), "data" := JObj(map[])]);
    var rec := Blank.(id := Some("id"), ancestorIds := Some([]));
    var expected := map["action" := JStr("draft"), "data" := JObj(map[]), "ancestorIds" := JArr([JStr("id")]),
                        "previousId" := JStr("id"), "previousStepId" := JStr("basic"),
                        "previousUserId" := JStr("test"), "stepId" := JStr("basic")];
    var b := CreateRecordBody(props, rec, "basic", Some(User("test"))).value;
    CreateRecordBodyKeys(props, rec, "basic", Some(User("test")));
    CreateRecordBodyValues(props, rec, "basic", Some(User("test")));
    assert AppendId([], Some("id")).items == [JStr("id")];
    assert b.Keys == expected.Keys;
    assert forall k :: k in b ==> b[k] == expected[k];
    assert b == expected;
  }

  /** The helpers `buildActions` returns, over the shared props. */
  class Actions {
    var record: StepRecord
    var saved: SavedFlag
    const user: Option<User>
    /** `options.stepId` of the step whose hook runs */
    const stepId: string
    const basePath: Option<string>
    const summary: Option<SummaryFn>
    const table: Table

    constructor (record: StepRecord, saved: SavedFlag, user: Option<User>, stepId: string,
                 basePath: Option<string>, summary: Option<SummaryFn>, table: Table)
      ensures this.record == record && this.saved == saved && this.user == user && this.stepId == stepId
      ensures this.basePath == basePath && this.summary == summary && this.table == table
    {
      this.record := record;
      this.saved := saved;
      this.user := user;
      this.stepId := stepId;
      this.basePath := basePath;
      this.summary := summary;
      this.table := table;
    }

    /** `save()` */
    method Save(generated: string) returns (r: Result<StepRecord, Failure>)
      modifies this, table
      ensures SaveOutcome(r, record, saved, table.rows)
              == SaveSpec(old(record), old(saved), user, summary, old(table.rows), generated)
    {
      var s := Summarize(record, summary);
      if s.Err? {
        return Err(s.error);
      }
      record := record.(summary := s.value);
      record := record.(bys := SetUser(record.bys, "updatedBy", user));
      if Present(record.id) {
        if record.undefinedProp {
          return Err(StoreFailure);
        }
        table.rows := UpdateWhereId(table.rows, record.id.value, record);
      } else {
        record := record.(bys := SetUser(record.bys, "createdBy", user));
        var rowId := if record.id.Some? then record.id.value else generated;
        var existing := table.Load(rowId);
        if record.undefinedProp || existing.Some? {
          return Err(StoreFailure);
        }
        record := record.(id := Some(rowId));
        table.rows := table.rows + [record];
      }
      saved := Flag(true);
      r := Ok(record);
    }

    /**
     * `createRecord(props)`: saves first when the record has neither an id
     * nor a truthy `saved` marker, then invokes the target step with the
     * lineage body and unwraps the reply as a remote invocation does.
     */
    method CreateRecord(props: RecordProps, generated: string, invokeSync: Transport)
      returns (savedFirst: bool, path: string, body: Option<Data>, r: Result<Settled, Failure>)
      modifies this, table
      ensures savedFirst <==> !Present(old(record).id) && !SavedTruthy(old(saved))
      ensures !savedFirst ==> record == old(record) && saved == old(saved) && table.rows == old(table.rows)
      ensures savedFirst ==>
        var o := SaveSpec(old(record), old(saved), user, summary, old(table.rows), generated);
        record == o.record && saved == o.saved && table.rows == o.rows
      ensures r.Err? && savedFirst && SaveSpec(old(record), old(saved), user, summary, old(table.rows), generated).result.Err? ==>
        r.error == SaveSpec(old(record), old(saved), user, summary, old(table.rows), generated).result.error && body.None?
      ensures r.Ok? ==> body == CreateRecordBody(props, record, stepId, user) && body.Some?
                        && path == StepPath(basePath, props.stepId)
                        && r.value == UnwrapRemote(invokeSync(path, Envelope(body.value, None, AidSession(user))))
      ensures r.Err? ==> body.None?
      ensures (!savedFirst || SaveSpec(old(record), old(saved), user, summary, old(table.rows), generated).result.Ok?) ==>
        (r.Ok? <==> record.ancestorIds.Some?)
    {
      savedFirst := !Present(record.id) && !SavedTruthy(saved);
      path := StepPath(basePath, props.stepId);
      body := None;
      if savedFirst {
        var s := Save(generated);
        if s.Err? {
          return savedFirst, path, None, Err(s.error);
        }
      }
      body := CreateRecordBody(props, record, stepId, user);
      if body.None? {
        return savedFirst, path, None, Err(TypeFailure);
      }
      var res := invokeSync(path, Envelope(body.value, None, AidSession(user)));
      r := Ok(UnwrapRemote(res));
    }
  }
}
