/**
 * `useSetStepRecord` (packages/step/src/index.ts), the older record setter
 * that only knows how to save a draft. One request either creates a record
 * from `data` or loads the record named by `id`; `draft` marks it as a
 * draft and saves it, and every other accepted action leaves the table as
 * it was. The work runs in one transaction, rolled back on any error.
 */
module SetStepRecord {
  import opened Wrappers
  import opened Json
  import opened Enum
  import opened Records
  import opened Store
  import opened Act = Action

  /** `summary({ record, trx })`: the summary text, or the message it throws. */
  type SummaryText = StepRecord -> Result<string, string>

  /** The request's params; `action` is the raw value, missing when `None`. */
  datatype SetParams = SetParams(action: Option<string>, id: Option<string>, data: Option<Data>)

  /** The actions the params validator lets through. */
  const SetActions: seq<string> := ["draft", "hang", "done", "cancel", "lock", "unlock"]

  /** How a request ends: its error, the table after the transaction, and whether `save` completed. */
  datatype SetOutcome = SetOutcome(failure: Option<Failure>, rows: seq<StepRecord>, saved: bool)

  /** The record built for a request without `id`; its `summary` is `null`. */
  function NewRecord(stepId: string, data: Option<Data>): (r: StepRecord)
    ensures r.stepId == Some(stepId) && r.data == data
    ensures r.id.None? && r.status.None? && r.summary.None? && r.version.None?
    ensures r.times == map[] && r.bys == map[]
  {
    Blank.(stepId := Some(stepId), data := data)
  }

  /** The checks before the transaction, in order: the validator, then `stepId`, then `id` or `data`. */
  function Checked(stepId: string, p: SetParams): Option<Failure> {
    if p.action.None? then Some(Thrown("[params] action is required."))
    else if p.action.value !in SetActions then Some(Thrown("[params] action must be in draft, hang, done, cancel, lock, unlock."))
    else if stepId == "" then Some(Thrown("stepId is required"))
    else if !Present(p.id) && p.data.None? then Some(Thrown("[params] id or data is required."))
    else None
  }

  /** The record the transaction starts from: the stored row named by `id`, or a new one. */
  function Started(stepId: string, rows: seq<StepRecord>, p: SetParams): Result<StepRecord, Failure> {
    if Present(p.id) then
      match Find(rows, p.id.value)
      case None => Err(Thrown("Record#" + p.id.value + " not found."))
      case Some(k) => Ok(rows[k])
    else
      Ok(NewRecord(stepId, p.data))
  }

  /** The record with the summary the callback gives, when there is one. */
  function Summarized(rec: StepRecord, summary: Option<SummaryText>): Result<StepRecord, Failure> {
    match summary
    case None => Ok(rec)
    case Some(f) =>
      match f(rec)
      case Err(m) => Err(Thrown(m))
      case Ok(text) => Ok(rec.(summary := Some(JStr(text))))
  }

  /**
   * The table after `save`: rows with the request's `id` are overwritten,
   * otherwise the record is inserted and the table gives it `generated`
   * (a duplicate key is refused).
   */
  function Written(rows: seq<StepRecord>, p: SetParams, rec: StepRecord, generated: string): Result<seq<StepRecord>, Failure> {
    if Present(p.id) then Ok(UpdateWhereId(rows, p.id.value, rec))
    else if Find(rows, generated).Some? then Err(StoreFailure)
    else Ok(rows + [rec.(id := Some(generated))])
  }

  /** What one request does to the `step_records` table. */
  function SetSpec(stepId: string, summary: Option<SummaryText>, rows: seq<StepRecord>, p: SetParams, generated: string): SetOutcome {
    if Checked(stepId, p).Some? then SetOutcome(Checked(stepId, p), rows, false)
    else match Started(stepId, rows, p)
      case Err(f) => SetOutcome(Some(f), rows, false)
      case Ok(rec) =>
        if p.action != Some("draft") then SetOutcome(None, rows, false)
        else match Summarized(rec.(status := Some(RecordStatus.Draft)), summary)
          case Err(f) => SetOutcome(Some(f), rows, false)
          case Ok(ready) =>
            match Written(rows, p, ready, generated)
            case Err(f) => SetOutcome(Some(f), rows, false)
            case Ok(written) => SetOutcome(None, written, true)
  }

  /**
   * The request handler: validates, then in a transaction loads or builds
   * the record and, for `draft`, sets its status and saves it once. Any
   * error rolls the table back. `generated` is the id the table's default
   * gives an inserted row.
   */
  method SetStepRecord(stepId: string, summary: Option<SummaryText>, table: Table, p: SetParams, generated: string)
    returns (failure: Option<Failure>, saved: bool)
    modifies table
    ensures SetOutcome(failure, table.rows, saved) == SetSpec(stepId, summary, old(table.rows), p, generated)
  {
    saved := false;
    failure := Checked(stepId, p);
    if failure.Some? {
      return;
    }
    var snapshot := table.rows;
    var record: StepRecord;
    if Present(p.id) {
      var loaded := table.Load(p.id.value);
      if loaded.None? {
        return Some(Thrown("Record#" + p.id.value + " not found.")), false;
      }
      record := loaded.value;
    } else {
      record := NewRecord(stepId, p.data);
    }
    if p.action == Some("draft") {
      record := record.(status := Some(RecordStatus.Draft));
      if !saved {
        // save()
        if summary.Some? {
          var text := summary.value(record);
          if text.Err? {
            table.rows := snapshot;
            return Some(Thrown(text.error)), false;
          }
          record := record.(summary := Some(JStr(text.value)));
        }
        if Present(p.id) {
          table.rows := UpdateWhereId(table.rows, p.id.value, record);
        } else {
          var taken := table.Load(generated);
          if taken.Some? {
            table.rows := snapshot;
            return Some(StoreFailure), false;
          }
          table.rows := table.rows + [record.(id := Some(generated))];
        }
        saved := true;
      }
    }
  }

  /** The validator refuses a missing action and any action outside the six it knows, before anything else. */
  lemma SetValidatesAction(stepId: string, summary: Option<SummaryText>, rows: seq<StepRecord>, p: SetParams, generated: string)
    ensures p.action.None? ==>
      SetSpec(stepId, summary, rows, p, generated) == SetOutcome(Some(Thrown("[params] action is required.")), rows, false)
    ensures p.action.Some? && p.action.value !in SetActions ==>
      SetSpec(stepId, summary, rows, p, generated) ==
        SetOutcome(Some(Thrown("[params] action must be in draft, hang, done, cancel, lock, unlock.")), rows, false)
    ensures p.action == Some("undo") || p.action == Some("reject") ==>
      SetSpec(stepId, summary, rows, p, generated).failure.Some?
  {
  }

  /** A missing `stepId`, then a request with neither `id` nor `data`, fail with their texts and touch nothing. */
  lemma SetNeedsStepIdAndIdOrData(stepId: string, summary: Option<SummaryText>, rows: seq<StepRecord>, p: SetParams, generated: string)
    requires p.action.Some? && p.action.value in SetActions
    ensures stepId == "" ==>
      SetSpec(stepId, summary, rows, p, generated) == SetOutcome(Some(Thrown("stepId is required")), rows, false)
    ensures stepId != "" && !Present(p.id) && p.data.None? ==>
      SetSpec(stepId, summary, rows, p, generated) == SetOutcome(Some(Thrown("[params] id or data is required.")), rows, false)
  {
  }

  /** An `id` naming no row fails with `Record#<id> not found.` and leaves the table alone. */
  lemma SetUnknownId(stepId: string, summary: Option<SummaryText>, rows: seq<StepRecord>, p: SetParams, generated: string)
    requires Checked(stepId, p).None?
    requires Present(p.id) && forall i :: 0 <= i < |rows| ==> rows[i].id != p.id
    ensures SetSpec(stepId, summary, rows, p, generated) ==
      SetOutcome(Some(Thrown("Record#" + p.id.value + " not found.")), rows, false)
  {
    assert Find(rows, p.id.value).None?;
  }

  /** The accepted actions other than `draft` change no row and save nothing. */
  lemma SetOtherActionsInert(stepId: string, summary: Option<SummaryText>, rows: seq<StepRecord>, p: SetParams, generated: string)
    requires p.action.Some? && p.action.value in SetActions && p.action.value != "draft"
    ensures var o := SetSpec(stepId, summary, rows, p, generated);
      o.rows == rows && !o.saved
    ensures Checked(stepId, p).None? && (Present(p.id) ==> exists i :: 0 <= i < |rows| && rows[i].id == p.id) ==>
      SetSpec(stepId, summary, rows, p, generated).failure.None?
  {
    if Checked(stepId, p).None? && Present(p.id) && exists i :: 0 <= i < |rows| && rows[i].id == p.id {
      var i :| 0 <= i < |rows| && rows[i].id == p.id;
      assert Find(rows, p.id.value).Some?;
    }
  }

  /** Any failure leaves the table as it was and reports nothing saved. */
  lemma SetRollsBack(stepId: string, summary: Option<SummaryText>, rows: seq<StepRecord>, p: SetParams, generated: string)
    requires SetSpec(stepId, summary, rows, p, generated).failure.Some?
    ensures SetSpec(stepId, summary, rows, p, generated).rows == rows
    ensures !SetSpec(stepId, summary, rows, p, generated).saved
  {
  }

  /**
   * `draft` on an existing record: the row it loaded becomes the stored
   * record with status `draft` and the callback's summary; its `data` is the
   * stored one (the request's `data` is not merged), and no row with
   * another id changes.
   */
  lemma {:induction false} DraftUpdatesStored(stepId: string, summary: Option<SummaryText>, rows: seq<StepRecord>, p: SetParams, generated: string, k: nat)
    requires Checked(stepId, p).None? && p.action == Some("draft") && Present(p.id)
    requires Find(rows, p.id.value) == Some(k)
    requires summary.None? || summary.value(rows[k].(status := Some(RecordStatus.Draft))).Ok?
    ensures var o := SetSpec(stepId, summary, rows, p, generated);
      && o.failure.None? && o.saved && |o.rows| == |rows|
      && o.rows[k].status == Some(RecordStatus.Draft)
      && o.rows[k].data == rows[k].data
      && o.rows[k].id == p.id
      && o.rows[k].times == rows[k].times && o.rows[k].bys == rows[k].bys
      && (summary.Some? ==> o.rows[k].summary == Some(JStr(summary.value(rows[k].(status := Some(RecordStatus.Draft))).value)))
      && (forall i :: 0 <= i < |rows| && rows[i].id != p.id ==> o.rows[i] == rows[i])
  {
    var id := p.id.value;
    var stored := rows[k];
    var ready := Summarized(stored.(status := Some(RecordStatus.Draft)), summary);
    assert ready.Ok?;
    assert ready.value.id == p.id;
    var written := UpdateWhereId(rows, id, ready.value);
    assert SetSpec(stepId, summary, rows, p, generated) == SetOutcome(None, written, true);
    assert written[k] == Overlay(stored, ready.value);
    assert stored.times + stored.times == stored.times;
    assert stored.bys + stored.bys == stored.bys;
  }

  /**
   * `draft` without an id: exactly one row is appended, holding `stepId`,
   * the request's `data`, status `draft`, the callback's summary (or
   * `null`) and the id the table generated.
   */
  lemma {:induction false} DraftInsertsNew(stepId: string, summary: Option<SummaryText>, rows: seq<StepRecord>, p: SetParams, generated: string)
    requires Checked(stepId, p).None? && p.action == Some("draft") && !Present(p.id)
    requires forall i :: 0 <= i < |rows| ==> rows[i].id != Some(generated)
    requires summary.None? || summary.value(NewRecord(stepId, p.data).(status := Some(RecordStatus.Draft))).Ok?
    ensures var o := SetSpec(stepId, summary, rows, p, generated);
      && o.failure.None? && o.saved
      && |o.rows| == |rows| + 1 && o.rows[..|rows|] == rows
      && o.rows[|rows|].id == Some(generated)
      && o.rows[|rows|].stepId == Some(stepId)
      && o.rows[|rows|].data == p.data
      && o.rows[|rows|].status == Some(RecordStatus.Draft)
      && o.rows[|rows|].summary ==
           (if summary.None? then None
            else Some(JStr(summary.value(NewRecord(stepId, p.data).(status := Some(RecordStatus.Draft))).value)))
  {
    assert Find(rows, generated).None?;
    var drafted := NewRecord(stepId, p.data).(status := Some(RecordStatus.Draft));
    var ready := Summarized(drafted, summary);
    assert ready.Ok?;
    assert SetSpec(stepId, summary, rows, p, generated) == SetOutcome(None, rows + [ready.value.(id := Some(generated))], true);
    assert (rows + [ready.value.(id := Some(generated))])[..|rows|] == rows;
  }

  /** The table's generated id already in use: the insert is refused and the transaction rolled back. */
  lemma DraftDuplicateKey(stepId: string, summary: Option<SummaryText>, rows: seq<StepRecord>, p: SetParams, generated: string, k: nat)
    requires Checked(stepId, p).None? && p.action == Some("draft") && !Present(p.id)
    requires k < |rows| && rows[k].id == Some(generated)
    requires summary.None? || summary.value(NewRecord(stepId, p.data).(status := Some(RecordStatus.Draft))).Ok?
    ensures SetSpec(stepId, summary, rows, p, generated) == SetOutcome(Some(StoreFailure), rows, false)
  {
    assert Find(rows, generated).Some?;
  }

  /** A summary callback that throws fails the request with its message and nothing is saved. */
  lemma DraftSummaryThrows(stepId: string, f: SummaryText, rows: seq<StepRecord>, p: SetParams, generated: string)
    requires Checked(stepId, p).None? && p.action == Some("draft") && Started(stepId, rows, p).Ok?
    requires f(Started(stepId, rows, p).value.(status := Some(RecordStatus.Draft))).Err?
    ensures SetSpec(stepId, Some(f), rows, p, generated) ==
      SetOutcome(Some(Thrown(f(Started(stepId, rows, p).value.(status := Some(RecordStatus.Draft))).error)), rows, false)
  {
  }

  /** The draft example: data `{productName: 'name'}` with a summary of the product name stores a `draft` summarized `name`. */
  lemma DraftExample(rows: seq<StepRecord>)
    requires rows == []
    ensures var data := map["productName" := JStr("name")];
      var f := (r: StepRecord) => if r.data.Some? && "productName" in r.data.value && r.data.value["productName"].JStr?
                                  then Ok(r.data.value["productName"].s) else Err("no name");
      var o := SetSpec("stepId", Some(f), rows, SetParams(Some("draft"), None, Some(data)), "u1");
      && o.failure.None? && |o.rows| == 1
      && o.rows[0].status == Some(RecordStatus.Draft) && o.rows[0].summary == Some(JStr("name"))
  {
    var data := map["productName" := JStr("name")];
    var f := (r: StepRecord) => if r.data.Some? && "productName" in r.data.value && r.data.value["productName"].JStr?
                                then Ok(r.data.value["productName"].s) else Err("no name");
    DraftInsertsNew("stepId", Some(f), rows, SetParams(Some("draft"), None, Some(data)), "u1");
  }
}
