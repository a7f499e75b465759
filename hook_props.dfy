/**
 * What the mutating-action pipeline of packages/step/src/hook.ts promises,
 * stated over `Hook.MutateSpec` (which `StepRecordFunc.Mutate` is proved to
 * follow). The first group of lemmas is about single stages; the second
 * about whole actions. Hooks may change the shared record and write in the
 * transaction; several lemmas describe the engine's own writes and so
 * assume hooks that leave both alone (`HandsOff`), while
 * `MutateSavesHookChanges` says what happens to a hook's changes.
 */
module HookProperties {
  import opened Wrappers
  import opened Json
  import opened Enum
  import opened Records
  import opened Lang
  import opened Act = Action
  import opened HookOptions
  import opened Hook

  // ---------------------------------------------------------------- hooks that change nothing

  /** The hook hands back the record and the rows it was given. */
  ghost predicate HandlerKeeps(h: HandlerFn) {
    forall act, rec, ext, rows :: h(act, rec, ext, rows).Ok? ==>
      h(act, rec, ext, rows).value.record == rec && h(act, rec, ext, rows).value.rows == rows
  }

  ghost predicate BeforeKeeps(f: BeforeFn) {
    forall act, rec, ext, rows :: f(act, rec, ext, rows).Ok? ==>
      f(act, rec, ext, rows).value.record == rec && f(act, rec, ext, rows).value.rows == rows
  }

  ghost predicate AfterKeeps(f: AfterFn) {
    forall act, rec, ext, rows :: f(act, rec, ext, rows).Ok? ==> f(act, rec, ext, rows).value == rows
  }

  /** The action's own hook, if any, changes neither the record nor the transaction. */
  ghost predicate HandlerHandsOff(o: Options, a: Action) {
    HandlerOf(o, a).Some? ==> HandlerKeeps(HandlerOf(o, a).value)
  }

  /** `afterAction`, if any, writes nothing. */
  ghost predicate AfterHandsOff(o: Options) {
    AfterOf(o).Some? ==> AfterKeeps(AfterOf(o).value)
  }

  /** No hook of the action changes the record or writes in the transaction. */
  ghost predicate HandsOff(o: Options, a: Action) {
    HandlerHandsOff(o, a) && AfterHandsOff(o) && (BeforeOf(o).Some? ==> BeforeKeeps(BeforeOf(o).value))
  }

  // ---------------------------------------------------------------- stages

  /**
   * `r1` is `r0` as one or more `save()` calls leave it: only the summary and
   * `updatedBy` differ, and the summary is the hook's value or the data.
   */
  ghost predicate Resaved(r0: StepRecord, r1: StepRecord, user: Option<User>, summary: Option<SummaryFn>) {
    && r1 == r0.(summary := r1.summary, bys := SetUser(r0.bys, "updatedBy", user))
    && (summary.Some? ==> r1.summary.Some?)
    && (summary.None? ==> r1.summary == DataSummary(r1))
  }

  /** `r1` is `r0`, or `r0` saved. */
  ghost predicate SavedFrom(r0: StepRecord, r1: StepRecord, user: Option<User>, summary: Option<SummaryFn>) {
    r1 == r0 || Resaved(r0, r1, user, summary)
  }

  /** `rows1` is `rows0` with `rec` written over every row whose id is `id`. */
  ghost predicate WrittenAs(rows0: seq<StepRecord>, rows1: seq<StepRecord>, id: Option<string>, rec: StepRecord) {
    |rows1| == |rows0| && forall j :: 0 <= j < |rows0| ==> rows1[j] == if rows0[j].id == id then Overlay(rows0[j], rec) else rows0[j]
  }

  /** The rows hold the same ids at the same positions. */
  ghost predicate SameIds(rows0: seq<StepRecord>, rows1: seq<StepRecord>) {
    |rows1| == |rows0| && forall j :: 0 <= j < |rows0| ==> rows1[j].id == rows0[j].id
  }

  /** The table as `reject` leaves it before its hook runs; other actions do not touch it. */
  function RejectBase(a: Action, w: Work): seq<StepRecord> {
    if a == Action.Reject && Present(w.record.previousId)
    then ResetPrevious(w.rows, w.record.previousId.value, w.record.note)
    else w.rows
  }

  /** The work state a stage ends in. */
  function StageWork(st: Stage): Work {
    match st
    case Next(w) => w
    case Halt(w, _) => w
  }

  /**
   * `reject` returns the rows named by `previousId` to draft; a `null` note
   * clears their note, an `undefined` one leaves it. Nothing else changes.
   */
  lemma ResetPreviousRows(rows: seq<StepRecord>, previousId: string, note: Field<string>)
    ensures var r := ResetPrevious(rows, previousId, note);
      && SameIds(rows, r)
      && (forall j :: 0 <= j < |rows| && rows[j].id == Some(previousId) ==>
            r[j] == rows[j].(status := Some(RecordStatus.Draft), note := if note.Undefined? then rows[j].note else note))
      && (forall j :: 0 <= j < |rows| && rows[j].id != Some(previousId) ==> r[j] == rows[j])
  {
    var change := Blank.(status := Some(RecordStatus.Draft), note := note);
    forall j | 0 <= j < |rows| && rows[j].id == Some(previousId)
      ensures Overlay(rows[j], change) == rows[j].(status := Some(RecordStatus.Draft), note := if note.Undefined? then rows[j].note else note)
    {
      assert rows[j].times + change.times == rows[j].times;
      assert rows[j].bys + change.bys == rows[j].bys;
    }
  }

  /**
   * A `save()` of a record with an id fails exactly when the summary hook
   * throws or the record has the stray `undefined` property, and then writes
   * nothing; otherwise it writes the record with its summary and `updatedBy`
   * over that record's rows.
   */
  lemma SaveStageWrites(o: Options, env: Env, w: Work)
    requires Present(w.record.id)
    ensures var st := SaveStage(o, env, w);
      && StageWork(st).saves == w.saves + 1
      && StageWork(st).sent == w.sent
      && StageWork(st).result == w.result
      && (st.Halt? <==> Summarize(w.record, SummaryOf(o)).Err? || w.record.undefinedProp)
      && (st.Halt? ==> StageWork(st).rows == w.rows && SavedFrom(w.record, StageWork(st).record, env.user, SummaryOf(o)))
      && (st.Next? ==>
            && Resaved(w.record, StageWork(st).record, env.user, SummaryOf(o))
            && WrittenAs(w.rows, StageWork(st).rows, w.record.id, StageWork(st).record))
  {
  }

  /** The action's hook, when it changes nothing itself: the record is changed only by the `save()` it may call. */
  lemma {:induction false} HandlerWrites(o: Options, a: Action, env: Env, extend: Data, w: Work)
    requires Present(w.record.id) && HandlerHandsOff(o, a)
    ensures var st := RunHandlerSpec(o, a, env, extend, w);
      && SavedFrom(w.record, StageWork(st).record, env.user, SummaryOf(o))
      && StageWork(st).sent == w.sent
      && (StageWork(st).rows == w.rows ||
          (Resaved(w.record, StageWork(st).record, env.user, SummaryOf(o)) &&
           WrittenAs(w.rows, StageWork(st).rows, w.record.id, StageWork(st).record)))
  {
    match HandlerOf(o, a)
    case None =>
    case Some(h) =>
      match h(a, w.record, extend, w.rows)
      case Err(_) =>
      case Ok(ret) =>
        var w1 := w.(record := ret.record.(undefinedProp := w.record.undefinedProp), rows := ret.rows,
                     result := ret.value.GetOr(map[]));
        assert w1.record == w.record && w1.rows == w.rows;
        if ret.callsSave {
          SaveStageWrites(o, env, w1);
        }
  }

  /** The `switch`: besides `reject`'s reset of its predecessor, only saves of this record touch the table. */
  lemma {:induction false} DispatchWrites(o: Options, a: Action, env: Env, extend: Data, w: Work)
    requires Ready(o) && Present(w.record.id) && HandlerHandsOff(o, a)
    ensures var st := DispatchSpec(o, a, env, extend, w);
      && SavedFrom(w.record, StageWork(st).record, env.user, SummaryOf(o))
      && (StageWork(st).rows == RejectBase(a, w) ||
          (Resaved(w.record, StageWork(st).record, env.user, SummaryOf(o)) &&
           WrittenAs(RejectBase(a, w), StageWork(st).rows, w.record.id, StageWork(st).record)))
  {
    match a
    case Undo => UndoWrites(o, env, extend, w);
    case Reject => RejectWrites(o, env, extend, w);
    case _ => HandlerWrites(o, a, env, extend, w);
  }

  /** `undo` changes the record and the table only through its hook's `save()`. */
  lemma {:induction false} UndoWrites(o: Options, env: Env, extend: Data, w: Work)
    requires Ready(o) && Present(w.record.id) && HandlerHandsOff(o, Action.Undo)
    ensures var st := UndoSpec(o, env, extend, w);
      && SavedFrom(w.record, StageWork(st).record, env.user, SummaryOf(o))
      && (StageWork(st).rows == w.rows ||
          (Resaved(w.record, StageWork(st).record, env.user, SummaryOf(o)) &&
           WrittenAs(w.rows, StageWork(st).rows, w.record.id, StageWork(st).record)))
  {
    var next := NextRecords(w.rows, w.record.id);
    if !AnyDone(next) {
      var c := Cascade(next, Render(LangOf(o).value, "undoNote", w.record.id), env.updateRecord);
      if c.1.None? {
        var w1 := w.(sent := w.sent + c.0);
        HandlerWrites(o, Action.Undo, env, extend, w1);
        WithMessageKeeps(RunHandlerSpec(o, Action.Undo, env, extend, w1), LangOf(o).value, "undoSuccess");
      }
    }
  }

  /** `reject` changes the record and the reset table only through its hook's `save()`. */
  lemma {:induction false} RejectWrites(o: Options, env: Env, extend: Data, w: Work)
    requires Ready(o) && Present(w.record.id) && HandlerHandsOff(o, Action.Reject)
    ensures var st := RejectSpec(o, env, extend, w);
      && SavedFrom(w.record, StageWork(st).record, env.user, SummaryOf(o))
      && (StageWork(st).rows == RejectBase(Action.Reject, w) ||
          (Resaved(w.record, StageWork(st).record, env.user, SummaryOf(o)) &&
           WrittenAs(RejectBase(Action.Reject, w), StageWork(st).rows, w.record.id, StageWork(st).record)))
  {
    var w1 := w.(rows := RejectBase(Action.Reject, w));
    HandlerWrites(o, Action.Reject, env, extend, w1);
    WithMessageKeeps(RunHandlerSpec(o, Action.Reject, env, extend, w1), LangOf(o).value, "rejectSuccess");
  }

  /** The message default changes only the result. */
  lemma WithMessageKeeps(st: Stage, lang: Pack, key: string)
    ensures StageWork(WithMessage(st, lang, key)) == StageWork(st).(result := StageWork(WithMessage(st, lang, key)).result)
    ensures WithMessage(st, lang, key).Next? == st.Next?
  {
  }

  /** The engine's own save and the result defaults, after a dispatch that left the record saved from `r0`. */
  lemma CompleteWrites(o: Options, a: Action, env: Env, extend: Data, w: Work, r0: StepRecord)
    requires Present(r0.id) && SavedFrom(r0, w.record, env.user, SummaryOf(o)) && AfterHandsOff(o)
    ensures var st := CompleteSpec(o, a, env, extend, w);
      st.Next? ==>
        && Resaved(r0, StageWork(st).record, env.user, SummaryOf(o))
        && WrittenAs(w.rows, StageWork(st).rows, r0.id, StageWork(st).record)
  {
    SaveStageWrites(o, env, w);
    var s := SaveStage(o, env, w);
    if s.Next? {
      SavedAgain(r0, w.record, s.w.record, env.user, SummaryOf(o));
      FinishKeeps(o, a, extend, s.w);
    }
  }

  /**
   * The result defaults and `afterAction` change only the result and, through
   * what `afterAction` writes, the rows.
   */
  lemma FinishKeeps(o: Options, a: Action, extend: Data, w: Work)
    ensures var f := StageWork(Finish(o, a, extend, w));
      f == w.(result := f.result, rows := f.rows)
    ensures AfterHandsOff(o) ==> StageWork(Finish(o, a, extend, w)).rows == w.rows
  {
    if AfterHandsOff(o) && AfterOf(o).Some? {
      var w1 := if TruthyAt(w.result, "id") then w else w.(result := Put(w.result, "id", StrOrUndefined(w.record.id)));
      var r := AfterOf(o).value(a, w1.record, extend, w1.rows);
      assert r.Ok? ==> r.value == w1.rows;
    }
  }

  /** A further save keeps a record saved from `r0`. */
  lemma SavedAgain(r0: StepRecord, r1: StepRecord, r2: StepRecord, user: Option<User>, summary: Option<SummaryFn>)
    requires SavedFrom(r0, r1, user, summary) && Resaved(r1, r2, user, summary)
    ensures Resaved(r0, r2, user, summary)
  {
    if r1 != r0 {
      SetUserTwice(r0.bys, "updatedBy", user);
    }
  }

  /** Setting the same actor field twice is setting it once. */
  lemma SetUserTwice(bys: map<string, Option<string>>, key: string, user: Option<User>)
    ensures SetUser(SetUser(bys, key, user), key, user) == SetUser(bys, key, user)
  {
    var once := SetUser(bys, key, user);
    assert SetUser(once, key, user).Keys == once.Keys;
  }

  /** A further write of the record's rows keeps the table written over `base`. */
  lemma WrittenAgain(base: seq<StepRecord>, rows1: seq<StepRecord>, rows2: seq<StepRecord>,
                     id: Option<string>, rec1: StepRecord, rec2: StepRecord)
    requires rec1.id == id
    requires rows1 == base || (Defines(rec2, rec1) && WrittenAs(base, rows1, id, rec1))
    requires WrittenAs(rows1, rows2, id, rec2)
    ensures WrittenAs(base, rows2, id, rec2)
  {
    if rows1 != base {
      forall j | 0 <= j < |base|
        ensures rows2[j] == if base[j].id == id then Overlay(base[j], rec2) else base[j]
      {
        if base[j].id == id {
          OverlayTwice(base[j], rec1, rec2);
        }
      }
    }
  }

  /** Two saves of one record define the same properties: they differ only in values. */
  lemma SavesDefineAlike(r0: StepRecord, r1: StepRecord, r2: StepRecord, user: Option<User>, summary: Option<SummaryFn>)
    requires Resaved(r0, r1, user, summary) && Resaved(r0, r2, user, summary)
    ensures Defines(r2, r1)
  {
  }

  /**
   * After a successful action whose hooks change nothing, every row of this
   * record has the stamped record written over it, changed by the saves only
   * in its summary and `updatedBy`; the other rows are as `reject` (or
   * nothing) left them.
   */
  lemma {:induction false} PerformWrites(o: Options, a: Action, env: Env, extend: Data, w: Work)
    requires Ready(o) && Present(w.record.id) && HandlerHandsOff(o, a) && AfterHandsOff(o)
    ensures var st := PerformSpec(o, a, env, extend, w);
      st.Next? ==>
        && Resaved(w.record, StageWork(st).record, env.user, SummaryOf(o))
        && WrittenAs(RejectBase(a, w), StageWork(st).rows, w.record.id, StageWork(st).record)
  {
    var d := DispatchSpec(o, a, env, extend, w);
    DispatchWrites(o, a, env, extend, w);
    if d.Next? {
      CompleteWrites(o, a, env, extend, d.w, w.record);
      var c := CompleteSpec(o, a, env, extend, d.w);
      if c.Next? {
        if d.w.rows != RejectBase(a, w) {
          SavesDefineAlike(w.record, d.w.record, c.w.record, env.user, SummaryOf(o));
        }
        WrittenAgain(RejectBase(a, w), d.w.rows, c.w.rows, w.record.id, d.w.record, c.w.record);
      }
    }
  }

  /** No stage adds or removes a row, or moves an id, while the record carries an id and the hooks change nothing. */
  lemma {:induction false} PerformKeepsIds(o: Options, a: Action, env: Env, extend: Data, w: Work)
    requires Ready(o) && Present(w.record.id) && HandlerHandsOff(o, a) && AfterHandsOff(o)
    ensures SameIds(w.rows, StageWork(PerformSpec(o, a, env, extend, w)).rows)
  {
    var d := DispatchSpec(o, a, env, extend, w);
    DispatchWrites(o, a, env, extend, w);
    var base := RejectBase(a, w);
    if a == Action.Reject && Present(w.record.previousId) {
      ResetPreviousRows(w.rows, w.record.previousId.value, w.record.note);
    }
    if d.w.rows != base {
      WrittenKeepsIds(base, d.w.rows, w.record.id, d.w.record);
    }
    if d.Next? {
      CompleteKeepsIds(o, a, env, extend, d.w);
    }
  }

  /** The engine's save and the result defaults keep the ids in place. */
  lemma CompleteKeepsIds(o: Options, a: Action, env: Env, extend: Data, w: Work)
    requires Present(w.record.id) && AfterHandsOff(o)
    ensures SameIds(w.rows, StageWork(CompleteSpec(o, a, env, extend, w)).rows)
  {
    SaveStageWrites(o, env, w);
    var s := SaveStage(o, env, w);
    if s.Next? {
      FinishKeeps(o, a, extend, s.w);
      WrittenKeepsIds(w.rows, s.w.rows, w.record.id, s.w.record);
    }
  }

  /** Writing a record over the rows with its own id keeps the ids in place. */
  lemma WrittenKeepsIds(rows0: seq<StepRecord>, rows1: seq<StepRecord>, id: Option<string>, rec: StepRecord)
    requires rec.id == id && WrittenAs(rows0, rows1, id, rec)
    ensures SameIds(rows0, rows1)
  {
  }

  /** A finished stage carries a truthy `id` when the record has one and the action's hook leaves it alone. */
  lemma {:induction false} PerformSetsId(o: Options, a: Action, env: Env, extend: Data, w: Work)
    requires Ready(o) && Present(w.record.id) && HandlerHandsOff(o, a)
    ensures var st := PerformSpec(o, a, env, extend, w);
      st.Next? ==> TruthyAt(StageWork(st).result, "id")
  {
    var d := DispatchSpec(o, a, env, extend, w);
    DispatchWrites(o, a, env, extend, w);
    if d.Next? {
      CompleteSetsId(o, a, env, extend, d.w);
    }
  }

  lemma CompleteSetsId(o: Options, a: Action, env: Env, extend: Data, w: Work)
    requires Present(w.record.id)
    ensures var st := CompleteSpec(o, a, env, extend, w);
      st.Next? ==> TruthyAt(StageWork(st).result, "id")
  {
    SaveStageWrites(o, env, w);
    var s := SaveStage(o, env, w);
    if s.Next? {
      FinishSetsId(o, a, extend, s.w);
    }
  }

  /** `if (!result.id) result.id = record.id`: a truthy id from the hook is kept, otherwise the record's is used. */
  lemma FinishSetsId(o: Options, a: Action, extend: Data, w: Work)
    ensures var r := StageWork(Finish(o, a, extend, w)).result;
      && (TruthyAt(w.result, "id") ==> r == w.result)
      && (!TruthyAt(w.result, "id") ==> r == Put(w.result, "id", StrOrUndefined(w.record.id)))
      && (Present(w.record.id) ==> TruthyAt(r, "id"))
  {
  }

  /** A `save()` of a record with the stray `undefined` property always fails. */
  lemma SaveStageStray(o: Options, env: Env, w: Work)
    requires w.record.undefinedProp
    ensures SaveStage(o, env, w).Halt?
  {
    if Summarize(w.record, SummaryOf(o)).Ok? {
      SaveRefused(w.record, w.saved, env.user, SummaryOf(o), w.rows, env.freshId);
    }
  }

  /** No hook clears the stray property: a stage that goes on still carries it. */
  lemma DispatchKeepsStray(o: Options, a: Action, env: Env, extend: Data, w: Work)
    requires Ready(o) && w.record.undefinedProp
    ensures var d := DispatchSpec(o, a, env, extend, w);
      d.Next? ==> StageWork(d).record.undefinedProp
  {
    var w1 := if a == Action.Reject then w.(rows := RejectBase(a, w)) else w;
    match HandlerOf(o, a)
    case None =>
    case Some(h) =>
      match h(a, w1.record, extend, w1.rows)
      case Err(_) =>
      case Ok(ret) =>
        if ret.callsSave {
          SaveStageStray(o, env, w1.(record := ret.record.(undefinedProp := w1.record.undefinedProp), rows := ret.rows,
                                     result := ret.value.GetOr(map[])));
        }
  }

  /** Whatever its hooks do, an action whose record carries the stray property fails. */
  lemma PerformStray(o: Options, a: Action, env: Env, extend: Data, w: Work)
    requires Ready(o) && w.record.undefinedProp
    ensures PerformSpec(o, a, env, extend, w).Halt?
  {
    DispatchKeepsStray(o, a, env, extend, w);
    var d := DispatchSpec(o, a, env, extend, w);
    if d.Next? {
      SaveStageStray(o, env, d.w);
    }
  }

  /** The following records are exactly the stored rows that name this record as previous and are neither canceled nor without status. */
  lemma {:induction false} NextRecordsMembers(rows: seq<StepRecord>, id: Option<string>, x: StepRecord)
    ensures x in NextRecords(rows, id) <==>
      x in rows && id.Some? && x.previousId == id && x.status.Some? && x.status != Some(Canceled)
    decreases |rows|
  {
    if |rows| > 0 {
      NextRecordsMembers(rows[1..], id, x);
      assert x in rows <==> x == rows[0] || x in rows[1..];
    }
  }

  /**
   * The `undo` cascade with a note: the requests sent are, in order, a prefix
   * of one `cancel` per following record; every request before the last one
   * sent succeeded; it ends without failure exactly when all were sent and
   * all succeeded, and otherwise with the last one's error.
   */
  lemma {:induction false} CascadeSends(next: seq<StepRecord>, i: nat, note: string, update: UpdateRecordFn)
    requires i <= |next|
    ensures var c := CascadeFrom(next, i, Some(note), update);
      var all := CancelAll(next, note);
      && |c.0| <= |next| - i
      && c.0 == all[i..i + |c.0|]
      && (forall k :: i <= k < i + |c.0| - 1 ==> update(all[k]).Ok?)
      && (c.1.None? <==> |c.0| == |next| - i && forall k :: i <= k < |next| ==> update(all[k]).Ok?)
      && (c.1.Some? ==> |c.0| > 0 && update(c.0[|c.0| - 1]).Err? && c.1 == Some(Thrown(update(c.0[|c.0| - 1]).error)))
    decreases |next| - i
  {
    if i < |next| {
      var all := CancelAll(next, note);
      var req := CancelRequest(next[i].stepId, next[i].id, note);
      assert all[i] == req;
      if update(req).Ok? {
        CascadeSends(next, i + 1, note, update);
        var rest := CascadeFrom(next, i + 1, Some(note), update);
        assert CascadeFrom(next, i, Some(note), update) == ([req] + rest.0, rest.1);
        assert [req] + rest.0 == all[i..i + 1 + |rest.0|];
        if rest.1.Some? {
          assert ([req] + rest.0)[|rest.0|] == rest.0[|rest.0| - 1];
        }
      }
    }
  }

  // ---------------------------------------------------------------- whole actions

  /** Neither `id` nor `data`: refused before the transaction, nothing touched. */
  lemma MutateNeedsIdOrData(o: Options, bys: Action -> string, rows: seq<StepRecord>, held: set<string>, p: Params, env: Env)
    requires Ready(o) && !Present(p.id) && p.data.None?
    ensures MutateSpec(o, bys, rows, held, p, env)
            == Outcome(Err(Localized("idOrDataRequired", None)), rows, held, ExtendsOf(o), [], 0)
  {
  }

  /** An `id` that loads nothing: `recordNotFound(id)`, nothing touched. */
  lemma MutateUnknownId(o: Options, bys: Action -> string, rows: seq<StepRecord>, held: set<string>, p: Params, env: Env)
    requires Ready(o) && Present(p.id) && Find(rows, p.id.value).None?
    ensures MutateSpec(o, bys, rows, held, p, env)
            == Outcome(Err(Localized("recordNotFound", p.id)), rows, held, ExtendsOf(o), [], 0)
  {
  }

  /** A numeric `version` other than the stored one: `versionNotMatch`, before any field or lock is touched. */
  lemma MutateStaleVersion(o: Options, bys: Action -> string, rows: seq<StepRecord>, held: set<string>, p: Params, env: Env)
    requires Ready(o) && Present(p.id) && Find(rows, p.id.value).Some?
    requires p.version.Some? && rows[Find(rows, p.id.value).value].version != p.version
    ensures MutateSpec(o, bys, rows, held, p, env)
            == Outcome(Err(Localized("versionNotMatch", None)), rows, held, ExtendsOf(o), [], 0)
  {
  }

  /** The record an action works on once it is loaded, locked, copied and past `beforeAction`. */
  function PreparedOf(o: Options, rows: seq<StepRecord>, held: set<string>, p: Params, env: Env): Option<Prepared>
    requires Ready(o)
  {
    var front := FrontSpec(o, rows, held, p, env);
    if front.prepared.Ok? then Some(front.prepared.value) else None
  }

  /** The work state the action's own step starts from. */
  function StartOf(prep: Prepared, a: Action, bys: Action -> string, env: Env): Work {
    Work(Stamp(prep.record, a, bys, env), Callback, prep.rows, [], 0, map[])
  }

  /** A successful action went through every stage; this is where its outcome comes from. */
  lemma MutateSuccess(o: Options, bys: Action -> string, rows: seq<StepRecord>, held: set<string>, p: Params, env: Env)
    requires Ready(o) && MutateSpec(o, bys, rows, held, p, env).result.Ok?
    ensures Present(p.id) || p.data.Some?
    ensures PreparedOf(o, rows, held, p, env).Some?
    ensures var prep := PreparedOf(o, rows, held, p, env).value;
      var front := FrontSpec(o, rows, held, p, env);
      var st := PerformSpec(Extended(o, front.extension), p.action, env, prep.extend, StartOf(prep, p.action, bys, env));
      && Ready(Extended(o, front.extension))
      && st.Next?
      && MutateSpec(o, bys, rows, held, p, env).rows == StageWork(st).rows
      && MutateSpec(o, bys, rows, held, p, env).result == Ok(StageWork(st).result)
  {
  }

  /**
   * When `beforeAction` leaves the record and the rows alone, the prepared
   * record is the loaded (or new) record with the request's fields copied
   * onto it, and the rows are the table.
   */
  lemma PreparedRecord(o: Options, rows: seq<StepRecord>, held: set<string>, p: Params, env: Env)
    requires Ready(o) && PreparedOf(o, rows, held, p, env).Some?
    requires BeforeOf(o).Some? ==> BeforeKeeps(BeforeOf(o).value)
    ensures Resolve(StepIdOf(o).value, rows, p, env).Ok?
    ensures PreparedOf(o, rows, held, p, env).value.record == CopyParams(Resolve(StepIdOf(o).value, rows, p, env).value, p)
    ensures PreparedOf(o, rows, held, p, env).value.record.id == if Present(p.id) then p.id else Some(env.freshId)
    ensures PreparedOf(o, rows, held, p, env).value.rows == rows
  {
    var rec1 := CopyParams(Resolve(StepIdOf(o).value, rows, p, env).value, p);
    if BeforeOf(o).Some? {
      var ret := BeforeOf(o).value(p.action, rec1, ExtendsOf(o).GetOr(map[]), rows);
      assert ret.Ok? ==> ret.value.record == rec1 && ret.value.rows == rows;
    }
  }

  /**
   * A successful action on a stored record, with hooks that change nothing,
   * writes the prepared record with the action's status, timestamp, actor
   * and duration over that record's rows, changed by the saves only in its
   * summary and `updatedBy`; every other row is untouched and no row is
   * added. (`reject` never succeeds.)
   */
  lemma {:induction false} MutateStoresStamped(o: Options, bys: Action -> string, rows: seq<StepRecord>, held: set<string>,
                                               p: Params, env: Env)
    requires Ready(o) && Present(p.id) && HandsOff(o, p.action) && MutateSpec(o, bys, rows, held, p, env).result.Ok?
    ensures PreparedOf(o, rows, held, p, env).Some?
    ensures var rec := Stamp(PreparedOf(o, rows, held, p, env).value.record, p.action, bys, env);
      var out := MutateSpec(o, bys, rows, held, p, env);
      && |out.rows| == |rows|
      && (forall j :: 0 <= j < |rows| && rows[j].id == p.id ==>
            out.rows[j] == Overlay(rows[j], rec.(summary := out.rows[j].summary, bys := SetUser(rec.bys, "updatedBy", env.user))))
      && (forall j :: 0 <= j < |rows| && rows[j].id != p.id ==> out.rows[j] == rows[j])
  {
    MutateSuccess(o, bys, rows, held, p, env);
    PreparedRecord(o, rows, held, p, env);
    RejectFails(o, bys, rows, held, p, env);
    var prep := PreparedOf(o, rows, held, p, env).value;
    var o1 := Extended(o, FrontSpec(o, rows, held, p, env).extension);
    ExtendedKeeps(o, FrontSpec(o, rows, held, p, env).extension, p.action);
    PerformStoresStamped(o1, p.action, env, prep.extend, StartOf(prep, p.action, bys, env));
  }

  /** `MutateStoresStamped` for the stages after the stamp. */
  lemma PerformStoresStamped(o: Options, a: Action, env: Env, extend: Data, w: Work)
    requires Ready(o) && Present(w.record.id) && HandlerHandsOff(o, a) && AfterHandsOff(o) && a != Action.Reject
    ensures var st := PerformSpec(o, a, env, extend, w);
      st.Next? ==>
        && |st.w.rows| == |w.rows|
        && (forall j :: 0 <= j < |w.rows| && w.rows[j].id == w.record.id ==>
              st.w.rows[j] == Overlay(w.rows[j], w.record.(summary := st.w.rows[j].summary,
                                                          bys := SetUser(w.record.bys, "updatedBy", env.user))))
        && (forall j :: 0 <= j < |w.rows| && w.rows[j].id != w.record.id ==> st.w.rows[j] == w.rows[j])
  {
    PerformWrites(o, a, env, extend, w);
    var st := PerformSpec(o, a, env, extend, w);
    if st.Next? {
      StampedRows(w.rows, st.w.rows, w.record.id, w.record, st.w.record, env.user, SummaryOf(o));
    }
  }

  /** Rows written with a saved record hold the record with the summary each row ended up with. */
  lemma StampedRows(rows: seq<StepRecord>, out: seq<StepRecord>, id: Option<string>, rec: StepRecord, saved: StepRecord,
                    user: Option<User>, summary: Option<SummaryFn>)
    requires WrittenAs(rows, out, id, saved) && Resaved(rec, saved, user, summary)
    ensures forall j :: 0 <= j < |rows| && rows[j].id == id ==>
      out[j] == Overlay(rows[j], rec.(summary := out[j].summary, bys := SetUser(rec.bys, "updatedBy", user)))
    ensures forall j :: 0 <= j < |rows| && rows[j].id != id ==> out[j] == rows[j]
  {
  }

  /** A record with the same id at the same place is found at the same place. */
  lemma {:induction false} FindSameIds(rows0: seq<StepRecord>, rows1: seq<StepRecord>, id: string)
    requires SameIds(rows0, rows1)
    ensures Find(rows1, id) == Find(rows0, id)
    decreases |rows0|
  {
    if |rows0| > 0 {
      assert SameIds(rows0[1..], rows1[1..]) by {
        forall j | 0 <= j < |rows0[1..]|
          ensures rows1[1..][j].id == rows0[1..][j].id
        {
          assert rows1[1..][j] == rows1[j + 1];
          assert rows0[1..][j] == rows0[j + 1];
        }
      }
      FindSameIds(rows0[1..], rows1[1..], id);
    }
  }

  /**
   * A record created by the action (no `id` in the request) is never stored
   * when the hooks change nothing: `save` updates by id, and no row has the
   * new id. A successful action leaves the table exactly as it was.
   */
  lemma {:induction false} NewRecordNeverStored(o: Options, bys: Action -> string, rows: seq<StepRecord>, held: set<string>,
                                                p: Params, env: Env)
    requires Ready(o) && !Present(p.id) && p.data.Some? && env.freshId != "" && HandsOff(o, p.action)
    requires Find(rows, env.freshId).None?
    ensures var out := MutateSpec(o, bys, rows, held, p, env);
      && |out.rows| == |rows|
      && Find(out.rows, env.freshId).None?
      && (out.result.Ok? ==> out.rows == rows)
  {
    var out := MutateSpec(o, bys, rows, held, p, env);
    MutateRows(o, bys, rows, held, p, env);
    var pr := PreparedOf(o, rows, held, p, env);
    if pr.Some? {
      PreparedRecord(o, rows, held, p, env);
      var o1 := Extended(o, FrontSpec(o, rows, held, p, env).extension);
      ExtendedKeeps(o, FrontSpec(o, rows, held, p, env).extension, p.action);
      var w0 := StartOf(pr.value, p.action, bys, env);
      PerformKeepsIds(o1, p.action, env, pr.value.extend, w0);
      FindSameIds(rows, out.rows, env.freshId);
      if out.result.Ok? {
        RejectFails(o, bys, rows, held, p, env);
        PerformLeavesOthers(o1, p.action, env, pr.value.extend, w0);
      }
    }
  }

  /** A successful action other than `reject` whose hooks change nothing touches no row but its record's. */
  lemma PerformLeavesOthers(o: Options, a: Action, env: Env, extend: Data, w: Work)
    requires Ready(o) && Present(w.record.id) && HandlerHandsOff(o, a) && AfterHandsOff(o) && a != Action.Reject
    requires forall j :: 0 <= j < |w.rows| ==> w.rows[j].id != w.record.id
    ensures PerformSpec(o, a, env, extend, w).Next? ==> PerformSpec(o, a, env, extend, w).w.rows == w.rows
  {
    PerformWrites(o, a, env, extend, w);
  }

  /** The table after an action: as it was, or as the action's stages left it. */
  lemma MutateRows(o: Options, bys: Action -> string, rows: seq<StepRecord>, held: set<string>, p: Params, env: Env)
    requires Ready(o)
    ensures var out := MutateSpec(o, bys, rows, held, p, env);
      var pr := PreparedOf(o, rows, held, p, env);
      && (pr.None? ==> out.rows == rows)
      && (pr.Some? ==>
            var st := PerformSpec(Extended(o, FrontSpec(o, rows, held, p, env).extension), p.action, env, pr.value.extend,
                                  StartOf(pr.value, p.action, bys, env));
            && Ready(Extended(o, FrontSpec(o, rows, held, p, env).extension))
            && (out.rows == rows || out.rows == StageWork(st).rows)
            && (out.result.Ok? ==> st.Next? && out.rows == StageWork(st).rows))
  {
  }

  /**
   * A successful action other than `undo` and `reject` saves the record its
   * hook left into the table its hook left: the engine's `save()` writes
   * the hook's changes to the record (its data, say), after the hook's own
   * `save()` if it called one.
   */
  lemma MutateSavesHookChanges(o: Options, bys: Action -> string, rows: seq<StepRecord>, held: set<string>, p: Params, env: Env)
    requires Ready(o) && p.action != Action.Undo && p.action != Action.Reject
    requires HandlerOf(o, p.action).Some? && AfterOf(o).None?
    requires MutateSpec(o, bys, rows, held, p, env).result.Ok?
    ensures PreparedOf(o, rows, held, p, env).Some?
    ensures var prep := PreparedOf(o, rows, held, p, env).value;
      var w0 := StartOf(prep, p.action, bys, env);
      var ret := HandlerOf(o, p.action).value(p.action, w0.record, prep.extend, prep.rows);
      var out := MutateSpec(o, bys, rows, held, p, env);
      && ret.Ok?
      && var left := ret.value.record.(undefinedProp := w0.record.undefinedProp);
         var s := SaveSpec(left, Callback, env.user, SummaryOf(o), ret.value.rows, env.freshId);
         && (!ret.value.callsSave ==> s.result.Ok? && out.rows == s.rows)
         && (ret.value.callsSave ==>
               s.result.Ok? && out.rows == SaveSpec(s.record, s.saved, env.user, SummaryOf(o), s.rows, env.freshId).rows)
  {
    MutateSuccess(o, bys, rows, held, p, env);
    ExtendedKeeps(o, FrontSpec(o, rows, held, p, env).extension, p.action);
  }

  /** Every successful action whose hooks change nothing replies with a truthy `id`: the hook's, or the record's. */
  lemma {:induction false} MutateReturnsId(o: Options, bys: Action -> string, rows: seq<StepRecord>, held: set<string>,
                                           p: Params, env: Env)
    requires Ready(o) && (Present(p.id) || env.freshId != "") && HandsOff(o, p.action)
    requires MutateSpec(o, bys, rows, held, p, env).result.Ok?
    ensures TruthyAt(MutateSpec(o, bys, rows, held, p, env).result.value, "id")
  {
    MutateSuccess(o, bys, rows, held, p, env);
    PreparedRecord(o, rows, held, p, env);
    var prep := PreparedOf(o, rows, held, p, env).value;
    var front := FrontSpec(o, rows, held, p, env);
    ExtendedKeeps(o, front.extension, p.action);
    PerformSetsId(Extended(o, front.extension), p.action, env, prep.extend, StartOf(prep, p.action, bys, env));
  }

  /** A failed action leaves the table as it was unless the caller owns the transaction. */
  lemma MutateRollsBack(o: Options, bys: Action -> string, rows: seq<StepRecord>, held: set<string>, p: Params, env: Env)
    requires Ready(o) && !p.outerTrx && MutateSpec(o, bys, rows, held, p, env).result.Err?
    ensures MutateSpec(o, bys, rows, held, p, env).rows == rows
  {
  }

  /** The lock is already held: `locked(key)`, with the table and the held keys as they were. */
  lemma MutateLockContended(o: Options, bys: Action -> string, rows: seq<StepRecord>, held: set<string>, p: Params, env: Env)
    requires Ready(o) && (Present(p.id) || p.data.Some?)
    requires Resolve(StepIdOf(o).value, rows, p, env).Ok?
    requires KeyFor(o, p, Resolve(StepIdOf(o).value, rows, p, env).value).Some?
    requires LockName(StepIdOf(o).value, KeyFor(o, p, Resolve(StepIdOf(o).value, rows, p, env).value).value) in held
    ensures MutateSpec(o, bys, rows, held, p, env)
            == Outcome(Err(Localized("locked", KeyFor(o, p, Resolve(StepIdOf(o).value, rows, p, env).value))),
                       rows, held, ExtendsOf(o), [], 0)
  {
  }

  /** Without a lock key the held keys are not touched. */
  lemma MutateWithoutLockKey(o: Options, bys: Action -> string, rows: seq<StepRecord>, held: set<string>, p: Params, env: Env)
    requires Ready(o) && (Present(p.id) || p.data.Some?)
    requires Resolve(StepIdOf(o).value, rows, p, env).Ok?
    requires KeyFor(o, p, Resolve(StepIdOf(o).value, rows, p, env).value).None?
    ensures MutateSpec(o, bys, rows, held, p, env).held == held
  {
  }

  /** A lock taken by the action is released after a success and stays held after any later failure. */
  lemma MutateLockReleased(o: Options, bys: Action -> string, rows: seq<StepRecord>, held: set<string>, p: Params, env: Env)
    requires Ready(o) && (Present(p.id) || p.data.Some?)
    requires Resolve(StepIdOf(o).value, rows, p, env).Ok?
    requires KeyFor(o, p, Resolve(StepIdOf(o).value, rows, p, env).value).Some?
    requires LockName(StepIdOf(o).value, KeyFor(o, p, Resolve(StepIdOf(o).value, rows, p, env).value).value) !in held
    ensures var name := LockName(StepIdOf(o).value, KeyFor(o, p, Resolve(StepIdOf(o).value, rows, p, env).value).value);
      var out := MutateSpec(o, bys, rows, held, p, env);
      out.held == if out.result.Ok? then held else held + {name}
  {
    FrontLock(o, rows, held, p, env);
  }

  /** After loading, the first stages hold the keys the lock step left, and a prepared action knows the lock it took. */
  lemma FrontLock(o: Options, rows: seq<StepRecord>, held: set<string>, p: Params, env: Env)
    requires Ready(o) && Resolve(StepIdOf(o).value, rows, p, env).Ok?
    ensures var lk := TakeLock(o, held, p, Resolve(StepIdOf(o).value, rows, p, env).value);
      var front := FrontSpec(o, rows, held, p, env);
      && front.held == lk.held
      && (front.prepared.Ok? ==> front.prepared.value.lockName == lk.name)
  {
  }

  /** `undo` with a following record already done: `undoFailed`, nothing sent, nothing saved, the table untouched. */
  lemma UndoBlocked(o: Options, bys: Action -> string, rows: seq<StepRecord>, held: set<string>, p: Params, env: Env)
    requires Ready(o) && p.action == Action.Undo && (Present(p.id) || p.data.Some?)
    requires PreparedOf(o, rows, held, p, env).Some?
    requires var prep := PreparedOf(o, rows, held, p, env).value; AnyDone(NextRecords(prep.rows, prep.record.id))
    ensures var out := MutateSpec(o, bys, rows, held, p, env);
      && out.result == Err(Localized("undoFailed", None))
      && out.rows == (if p.outerTrx then PreparedOf(o, rows, held, p, env).value.rows else rows)
      && out.sent == [] && out.saves == 0
  {
  }

  /**
   * `undo` with no following record done: the requests sent are the cascade
   * over the following records with the note `undoNote(id)`, and a failing
   * cascade fails the action with its error.
   */
  lemma UndoCancelsFollowing(o: Options, bys: Action -> string, rows: seq<StepRecord>, held: set<string>, p: Params, env: Env)
    requires Ready(o) && p.action == Action.Undo && (Present(p.id) || p.data.Some?)
    requires PreparedOf(o, rows, held, p, env).Some?
    requires var prep := PreparedOf(o, rows, held, p, env).value; !AnyDone(NextRecords(prep.rows, prep.record.id))
    ensures var prep := PreparedOf(o, rows, held, p, env).value;
      var c := Cascade(NextRecords(prep.rows, prep.record.id), Render(LangOf(o).value, "undoNote", prep.record.id), env.updateRecord);
      var out := MutateSpec(o, bys, rows, held, p, env);
      && out.sent == c.0
      && (c.1.Some? ==> out.result == Err(c.1.value))
  {
    var pr := PreparedOf(o, rows, held, p, env).value;
    var o1 := Extended(o, FrontSpec(o, rows, held, p, env).extension);
    var w0 := StartOf(pr, p.action, bys, env);
    assert LangOf(o1) == LangOf(o);
    MutateSent(o, bys, rows, held, p, env);
    PerformSent(o1, p.action, env, pr.extend, w0);
    UndoSends(o1, env, pr.extend, w0);
  }

  /** What the action sent downstream, and its failure when one of its stages failed. */
  lemma MutateSent(o: Options, bys: Action -> string, rows: seq<StepRecord>, held: set<string>, p: Params, env: Env)
    requires Ready(o) && PreparedOf(o, rows, held, p, env).Some? && (Present(p.id) || p.data.Some?)
    ensures var pr := PreparedOf(o, rows, held, p, env).value;
      var st := PerformSpec(Extended(o, FrontSpec(o, rows, held, p, env).extension), p.action, env, pr.extend,
                            StartOf(pr, p.action, bys, env));
      var out := MutateSpec(o, bys, rows, held, p, env);
      && out.sent == StageWork(st).sent
      && (st.Halt? ==> out.result == Err(st.failure))
  {
  }

  /** The engine's save and the result defaults send nothing; a failed dispatch ends the action. */
  lemma PerformSent(o: Options, a: Action, env: Env, extend: Data, w: Work)
    requires Ready(o)
    ensures var d := DispatchSpec(o, a, env, extend, w);
      var st := PerformSpec(o, a, env, extend, w);
      && StageWork(st).sent == StageWork(d).sent
      && (d.Halt? ==> st == d)
  {
    var d := DispatchSpec(o, a, env, extend, w);
    if d.Next? {
      var s := SaveStage(o, env, d.w);
      if s.Next? {
        FinishKeeps(o, a, extend, s.w);
      }
    }
  }

  /** The hook sends nothing downstream. */
  lemma HandlerKeepsSent(o: Options, a: Action, env: Env, extend: Data, w: Work)
    ensures StageWork(RunHandlerSpec(o, a, env, extend, w)).sent == w.sent
  {
  }

  /** With no following record done, `undo` sends the cascade's requests and fails with the cascade's failure. */
  lemma UndoSends(o: Options, env: Env, extend: Data, w: Work)
    requires Ready(o) && !AnyDone(NextRecords(w.rows, w.record.id))
    ensures var c := Cascade(NextRecords(w.rows, w.record.id), Render(LangOf(o).value, "undoNote", w.record.id), env.updateRecord);
      var st := UndoSpec(o, env, extend, w);
      && StageWork(st).sent == w.sent + c.0
      && (c.1.Some? ==> st == Halt(w.(sent := w.sent + c.0), c.1.value))
  {
    var c := Cascade(NextRecords(w.rows, w.record.id), Render(LangOf(o).value, "undoNote", w.record.id), env.updateRecord);
    if c.1.None? {
      var w1 := w.(sent := w.sent + c.0);
      HandlerKeepsSent(o, Action.Undo, env, extend, w1);
      WithMessageKeeps(RunHandlerSpec(o, Action.Undo, env, extend, w1), LangOf(o).value, "undoSuccess");
    }
  }

  /**
   * `reject` always fails: the actions table has no timestamp field for it,
   * so the stamp puts the clock reading under a property named `undefined`,
   * and the store refuses every save of the record, whatever the hooks do.
   */
  lemma RejectFails(o: Options, bys: Action -> string, rows: seq<StepRecord>, held: set<string>, p: Params, env: Env)
    requires Ready(o)
    ensures p.action == Action.Reject ==> MutateSpec(o, bys, rows, held, p, env).result.Err?
  {
    var pr := PreparedOf(o, rows, held, p, env);
    if p.action == Action.Reject && (Present(p.id) || p.data.Some?) && pr.Some? {
      var o1 := Extended(o, FrontSpec(o, rows, held, p, env).extension);
      PerformStray(o1, p.action, env, pr.value.extend, StartOf(pr.value, p.action, bys, env));
    }
  }

  /**
   * `reject` without a hook of its own, once its summary can be computed:
   * the predecessor's rows return to draft with this record's note (a `null`
   * note clears theirs, an `undefined` one keeps it), then the engine's save
   * is refused by the store. The reset survives only in the caller's own
   * transaction; otherwise the rollback undoes it.
   */
  lemma {:induction false} RejectResetsPrevious(o: Options, bys: Action -> string, rows: seq<StepRecord>, held: set<string>,
                                                p: Params, env: Env)
    requires Ready(o) && p.action == Action.Reject && (Present(p.id) || p.data.Some?)
    requires HandlerOf(o, Action.Reject).None? && PreparedOf(o, rows, held, p, env).Some?
    requires Summarize(Stamp(PreparedOf(o, rows, held, p, env).value.record, Action.Reject, bys, env), SummaryOf(o)).Ok?
    ensures var prep := PreparedOf(o, rows, held, p, env).value;
      var out := MutateSpec(o, bys, rows, held, p, env);
      var reset := if Present(prep.record.previousId)
                   then ResetPrevious(prep.rows, prep.record.previousId.value, prep.record.note) else prep.rows;
      && out.result == Err(StoreFailure)
      && out.sent == [] && out.saves == 1
      && out.rows == (if p.outerTrx then reset else rows)
      && (p.outerTrx ==>
            && |out.rows| == |prep.rows|
            && (forall j :: 0 <= j < |prep.rows| && Present(prep.record.previousId) && prep.rows[j].id == prep.record.previousId ==>
                  out.rows[j] == prep.rows[j].(status := Some(RecordStatus.Draft),
                                               note := if prep.record.note.Undefined? then prep.rows[j].note else prep.record.note))
            && (forall j :: 0 <= j < |prep.rows| && (!Present(prep.record.previousId) || prep.rows[j].id != prep.record.previousId) ==>
                  out.rows[j] == prep.rows[j]))
  {
    var prep := PreparedOf(o, rows, held, p, env).value;
    var front := FrontSpec(o, rows, held, p, env);
    var o1 := Extended(o, front.extension);
    ExtendedKeeps(o, front.extension, p.action);
    var w0 := StartOf(prep, p.action, bys, env);
    RejectPerformRefused(o1, env, prep.extend, w0);
    if Present(prep.record.previousId) {
      ResetPreviousRows(prep.rows, prep.record.previousId.value, prep.record.note);
    }
  }

  /** `RejectResetsPrevious` for the stages after the stamp: the reset is made, then the save is refused. */
  lemma RejectPerformRefused(o: Options, env: Env, extend: Data, w: Work)
    requires Ready(o) && HandlerOf(o, Action.Reject).None? && w.record.undefinedProp
    requires Summarize(w.record, SummaryOf(o)).Ok?
    ensures var st := PerformSpec(o, Action.Reject, env, extend, w);
      && st.Halt? && st.failure == StoreFailure
      && st.w.rows == RejectBase(Action.Reject, w) && st.w.sent == w.sent && st.w.saves == w.saves + 1
  {
    var w1 := w.(rows := RejectBase(Action.Reject, w));
    assert RejectSpec(o, env, extend, w) == WithMessage(Next(w1), LangOf(o).value, "rejectSuccess");
    var d := DispatchSpec(o, Action.Reject, env, extend, w);
    assert d.Next? && d.w.rows == w1.rows && d.w.record == w.record && d.w.sent == w.sent && d.w.saves == w.saves;
    SaveRefused(d.w.record, d.w.saved, env.user, SummaryOf(o), d.w.rows, env.freshId);
  }

  /** The reply of an `undo` without a hook of its own: the pack's success message and the record's id. */
  function UndoReply(lang: Pack, id: Option<string>): Data {
    Put(Put(map[], "message", StrOrUndefined(Say(lang, "undoSuccess"))), "id", StrOrUndefined(id))
  }

  /** A successful `undo` with no hook of its own replies with its success message and the record's id. */
  lemma {:induction false} UndoHooklessReply(o: Options, bys: Action -> string, rows: seq<StepRecord>, held: set<string>,
                                             p: Params, env: Env)
    requires Ready(o) && p.action == Action.Undo && HandlerOf(o, Action.Undo).None?
    requires BeforeOf(o).Some? ==> BeforeKeeps(BeforeOf(o).value)
    requires (Present(p.id) || env.freshId != "") && MutateSpec(o, bys, rows, held, p, env).result.Ok?
    ensures PreparedOf(o, rows, held, p, env).Some?
    ensures MutateSpec(o, bys, rows, held, p, env).result
            == Ok(UndoReply(LangOf(o).value, PreparedOf(o, rows, held, p, env).value.record.id))
  {
    MutateSuccess(o, bys, rows, held, p, env);
    PreparedRecord(o, rows, held, p, env);
    var pr := PreparedOf(o, rows, held, p, env).value;
    var o1 := Extended(o, FrontSpec(o, rows, held, p, env).extension);
    ExtendedKeeps(o, FrontSpec(o, rows, held, p, env).extension, p.action);
    HooklessPerform(o1, env, pr.extend, StartOf(pr, p.action, bys, env));
  }

  /** Growing `extends` changes no other option. */
  lemma ExtendedKeeps(o: Options, extension: Option<Data>, a: Action)
    ensures LangOf(Extended(o, extension)) == LangOf(o)
    ensures HandlerOf(Extended(o, extension), a) == HandlerOf(o, a)
    ensures AfterOf(Extended(o, extension)) == AfterOf(o)
    ensures SummaryOf(Extended(o, extension)) == SummaryOf(o)
  {
    assert ActionName(a) != "extends";
  }

  lemma HooklessPerform(o: Options, env: Env, extend: Data, w: Work)
    requires Ready(o) && HandlerOf(o, Action.Undo).None?
    requires w.result == map[] && Present(w.record.id)
    ensures var st := PerformSpec(o, Action.Undo, env, extend, w);
      st.Next? ==> st.w.result == UndoReply(LangOf(o).value, w.record.id)
  {
    HooklessDispatch(o, env, extend, w);
    DispatchWrites(o, Action.Undo, env, extend, w);
    var d := DispatchSpec(o, Action.Undo, env, extend, w);
    if d.Next? {
      var s := SaveStage(o, env, d.w);
      SaveStageWrites(o, env, d.w);
      if s.Next? {
        FinishSetsId(o, Action.Undo, extend, s.w);
        FinishKeeps(o, Action.Undo, extend, s.w);
      }
    }
  }

  /** Without a hook, a successful `undo` step yields only the message default. */
  lemma HooklessDispatch(o: Options, env: Env, extend: Data, w: Work)
    requires Ready(o) && HandlerOf(o, Action.Undo).None? && w.result == map[]
    ensures var d := DispatchSpec(o, Action.Undo, env, extend, w);
      d.Next? ==> d.w.result == Put(map[], "message", StrOrUndefined(Say(LangOf(o).value, "undoSuccess")))
  {
  }

  // ---------------------------------------------------------------- read actions

  /** `get` without a truthy id fails with `idRequired`, whatever else is configured. */
  lemma GetNeedsId(o: Options, rows: seq<StepRecord>, id: Option<string>, step: Option<Json>)
    requires !Present(id)
    ensures GetSpec(o, rows, id, step) == Err(Localized("idRequired", None))
  {
  }

  /**
   * `get` without its own hook returns the stored record (or none) with the
   * users of its actor ids; asking `getUsers` about a record that does not
   * exist fails.
   */
  lemma GetReturnsStored(o: Options, rows: seq<StepRecord>, id: string, step: Option<Json>)
    requires id != "" && ReadOf(o, "get").None?
    ensures var r := GetSpec(o, rows, Some(id), step);
      && (Find(rows, id).Some? ==>
            var rec := rows[Find(rows, id).value];
            r == Ok(Fetched(step, if UsersOf(o).Some? then UsersOf(o).value(ActorIds(rec.bys, ReadActorList)) else [],
                            Some(rec))))
      && (Find(rows, id).None? ==> r == if UsersOf(o).Some? then Err(TypeFailure) else Ok(Fetched(step, [], None)))
  {
  }

  /** The ids `get` asks `getUsers` about are exactly the truthy actor fields among `names`. */
  lemma {:induction false} ActorIdsMembers(bys: map<string, Option<string>>, names: seq<string>, x: string)
    ensures x in ActorIds(bys, names) <==> x != "" && exists k :: k in names && k in bys && bys[k] == Some(x)
    ensures |ActorIds(bys, names)| <= |names|
    decreases |names|
  {
    if |names| > 0 {
      ActorIdsMembers(bys, names[1..], x);
      assert forall k :: k in names <==> k == names[0] || k in names[1..];
    }
  }

  /** The step's records are exactly the stored rows of that step. */
  lemma {:induction false} StepRowsMembers(rows: seq<StepRecord>, stepId: string, x: StepRecord)
    ensures x in StepRows(rows, stepId) <==> x in rows && x.stepId == Some(stepId)
    ensures |StepRows(rows, stepId)| <= |rows|
    decreases |rows|
  {
    if |rows| > 0 {
      StepRowsMembers(rows[1..], stepId, x);
      assert x in rows <==> x == rows[0] || x in rows[1..];
    }
  }

  /** `pagination` defaults to page 1 of 10 rows; a value the user gives wins. */
  lemma PageDefaultsKeepGiven(given: Option<PageInput>)
    ensures var r := PageDefaults(given);
      && r.current == Some(if given.Some? && given.value.current.Some? then given.value.current.value else 1)
      && r.pageSize == Some(if given.Some? && given.value.pageSize.Some? then given.value.pageSize.value else 10)
      && PageDefaults(Some(r)) == r
  {
  }

  /**
   * Pages tile the step's records: with a positive page size, the `k`-th
   * record is at position `k % size` of page `k / size + 1`.
   */
  lemma PagesTile(o: Options, rows: seq<StepRecord>, stepId: string, step: Option<Json>, k: nat)
    requires ReadOf(o, "list").None?
    requires PageOf(o).Some? && PageOf(o).value.pageSize.Some? && PageOf(o).value.pageSize.value > 0
    requires k < |StepRows(rows, stepId)|
    requires PageOf(o).value.current == Some(k / PageOf(o).value.pageSize.value + 1)
    ensures var r := ListSpec(o, rows, stepId, step);
      var size := PageOf(o).value.pageSize.value;
      && r.Ok? && r.value.Listed?
      && r.value.total == |StepRows(rows, stepId)|
      && k % size < |r.value.rows|
      && r.value.rows[k % size] == StepRows(rows, stepId)[k]
  {
    var size := PageOf(o).value.pageSize.value;
    var q := k / size;
    assert PageOf(o).value.current.value - 1 == q;
    PageHolds(StepRows(rows, stepId), size, k);
  }

  /** The page of `size` rows starting at `(k / size) * size` holds row `k` at position `k % size`. */
  lemma PageHolds(all: seq<StepRecord>, size: int, k: nat)
    requires size > 0 && k < |all|
    ensures var w := Window(all, (k / size) * size, size);
      && w.Ok? && k % size < |w.value| && w.value[k % size] == all[k]
  {
    DivMod(k, size);
    var off := (k / size) * size;
    assert off + k % size == k;
  }

  lemma DivMod(k: nat, size: int)
    requires size > 0
    ensures (k / size) * size + k % size == k && 0 <= k % size < size && (k / size) * size >= 0
  {
  }

  /** Page numbers below 1 give a negative offset, which the store refuses (unless the page size is 0). */
  lemma PageBeforeFirst(o: Options, rows: seq<StepRecord>, stepId: string, step: Option<Json>)
    requires ReadOf(o, "list").None?
    requires PageOf(o).Some? && PageOf(o).value.current.Some? && PageOf(o).value.pageSize.Some?
    requires PageOf(o).value.current.value < 1 && PageOf(o).value.pageSize.value > 0
    ensures ListSpec(o, rows, stepId, step) == Err(StoreFailure)
  {
    var c := PageOf(o).value.current.value;
    var size := PageOf(o).value.pageSize.value;
    assert (c - 1) * size < 0;
  }
}
