/**
 * The engine of packages/step/src/hook.ts (`useStepRecordFunc`): the read
 * actions `new`, `get` and `list`, and the pipeline every mutating action
 * runs on one record inside a transaction.
 *
 * The pipeline is specified by `Mutate`, a function of the options, the
 * table, the held lock keys, the request and the environment, built from
 * one function per stage; `StepRecordFunc.Mutate` performs the same steps on
 * the engine's state and is proved to agree with it. The lemmas at the end
 * state what the pipeline promises.
 */
module Hook {
  import opened Wrappers
  import opened Json
  import opened Enum
  import opened Records
  import opened Lang
  import opened Store
  import opened Act = Action
  import opened HookOptions

  /** The parameters of a mutating request (`data.event.params`). */
  datatype Params = Params(
    action: Action,
    id: Option<string>,
    data: Option<Data>,
    version: Option<int>,
    note: Option<string>,
    /** actor fields passed by the caller (`doneBy`, `hangedBy`, ...) */
    actors: map<string, string>,
    previousId: Option<string>,
    previousStepId: Option<string>,
    previousUserId: Option<string>,
    ancestorIds: Option<seq<string>>,
    unlockedAt: Option<int>,
    /** whether the caller runs the action inside its own transaction */
    outerTrx: bool)

  /** What `actions.updateRecord` is asked to do for each record an `undo` cancels. */
  datatype CancelRequest = CancelRequest(stepId: Option<string>, id: Option<string>, note: string)

  /** `actions.updateRecord`: the reply of the downstream step, or its error message. */
  type UpdateRecordFn = CancelRequest -> Result<Json, string>

  /**
   * What one invocation gets from outside: the user (`getUser`), the single
   * clock reading it uses, the id `generateId`/`randomUUID` yields, and the
   * downstream update used by the `undo` cascade.
   */
  datatype Env = Env(user: Option<User>, now: int, freshId: string, updateRecord: UpdateRecordFn)

  /** The actor fields a request may set, besides `note`. */
  const ActorFields: set<string> := {"doneBy", "hangedBy", "canceledBy", "lockedBy", "unlockedBy", "undoBy"}
  const ActorList: seq<string> := ["doneBy", "hangedBy", "canceledBy", "lockedBy", "unlockedBy", "undoBy"]

  const LockPrefix := "step:record:lock:"

  /** The cache key of a record lock. */
  function LockName(stepId: string, key: string): string {
    LockPrefix + stepId + ":" + key
  }

  /** `Object.assign(a, b)` on plain objects: keys of `b` overwrite, the others are kept. */
  ghost predicate MergedOver(a: Data, b: Data, r: Data) {
    r.Keys == a.Keys + b.Keys &&
    (forall k :: k in b ==> r[k] == b[k]) &&
    (forall k :: k in a && k !in b ==> r[k] == a[k])
  }

  // ---------------------------------------------------------------- read actions

  /** What a read action returns. */
  datatype Reply =
    /** the value of the option `new`, `get` or `list`, which replaces the engine's own reply */
    | Hooked(value: Json)
    /** `{ step }` */
    | Fresh(step: Option<Json>)
    /** `{ step, users, record }` */
    | Fetched(step: Option<Json>, users: seq<User>, record: Option<StepRecord>)
    /** `{ step, rows, pagination: { current, pageSize, total } }` */
    | Listed(step: Option<Json>, rows: seq<StepRecord>, current: int, pageSize: int, total: nat)

  /** `new`: the hook's value, or the step itself. */
  function NewSpec(o: Options, step: Option<Json>): Reply {
    match ReadOf(o, "new")
    case Some(f) => Hooked(f(None))
    case None => Fresh(step)
  }

  /** The actor fields `get` collects user ids from, in the order it lists them. */
  const ReadActorList: seq<string> :=
    ["createdBy", "updatedBy", "hangedBy", "doneBy", "canceledBy", "lockedBy", "unlockedBy", "undoBy"]

  /** The actor ids of `names`, in order, with the falsy ones dropped (`.filter(Boolean)`). */
  function ActorIds(bys: map<string, Option<string>>, names: seq<string>): seq<string>
    decreases |names|
  {
    if |names| == 0 then []
    else
      var rest := ActorIds(bys, names[1..]);
      if names[0] in bys && Present(bys[names[0]]) then [bys[names[0]].value] + rest else rest
  }

  /**
   * `get`: an id is required; then the hook's value, or the stored record
   * with the users `getUsers` returns for its actor ids. `getUsers` on a
   * record that does not exist reads a property of `undefined`.
   */
  function GetSpec(o: Options, rows: seq<StepRecord>, id: Option<string>, step: Option<Json>): Result<Reply, Failure> {
    if !Present(id) then Err(Localized("idRequired", None))
    else match ReadOf(o, "get")
      case Some(f) => Ok(Hooked(f(id)))
      case None =>
        var k := Find(rows, id.value);
        var record := if k.Some? then Some(rows[k.value]) else None;
        match UsersOf(o)
        case None => Ok(Fetched(step, [], record))
        case Some(users) =>
          if record.None? then Err(TypeFailure)
          else Ok(Fetched(step, users(ActorIds(record.value.bys, ReadActorList)), record))
  }

  /** `Object.assign({ current: 1, pageSize: 10 }, options.pagination || {})` */
  function PageDefaults(given: Option<PageInput>): PageInput {
    var g := given.GetOr(PageInput(None, None));
    PageInput(Some(g.current.GetOr(1)), Some(g.pageSize.GetOr(10)))
  }

  /** The options after `list` reassigned `pagination`. */
  function WithPageDefaults(o: Options): (r: Options)
    ensures PageOf(r) == Some(PageDefaults(PageOf(o)))
    ensures r.Keys == o.Keys + {"pagination"}
    ensures forall k :: k in o && k != "pagination" ==> r[k] == o[k]
  {
    o["pagination" := Paging(PageDefaults(PageOf(o)))]
  }

  /** `.where({ stepId })`, in storage order. */
  function StepRows(rows: seq<StepRecord>, stepId: string): seq<StepRecord>
  {
    if |rows| == 0 then []
    else
      var rest := StepRows(rows[1..], stepId);
      if rows[0].stepId == Some(stepId) then [rows[0]] + rest else rest
  }

  /** `.limit(limit).offset(offset)`; the store refuses a negative limit or offset. */
  function Window(rows: seq<StepRecord>, offset: int, limit: int): (r: Result<seq<StepRecord>, Failure>)
    ensures r.Err? <==> offset < 0 || limit < 0
    ensures r.Ok? ==> |r.value| == if offset >= |rows| then 0 else if offset + limit >= |rows| then |rows| - offset else limit
    ensures r.Ok? ==> forall i :: 0 <= i < |r.value| ==> offset + i < |rows| && r.value[i] == rows[offset + i]
  {
    if offset < 0 || limit < 0 then Err(StoreFailure)
    else if offset >= |rows| then Ok([])
    else if offset + limit >= |rows| then Ok(rows[offset..])
    else Ok(rows[offset..offset + limit])
  }

  /** `list`, once `pagination` holds both values: the hook's value, or one page of the step's records and their count. */
  function ListSpec(o: Options, rows: seq<StepRecord>, stepId: string, step: Option<Json>): Result<Reply, Failure>
    requires PageOf(o).Some? && PageOf(o).value.current.Some? && PageOf(o).value.pageSize.Some?
  {
    match ReadOf(o, "list")
    case Some(f) => Ok(Hooked(f(None)))
    case None =>
      var current := PageOf(o).value.current.value;
      var size := PageOf(o).value.pageSize.value;
      var all := StepRows(rows, stepId);
      match Window(all, (current - 1) * size, size)
      case Err(e) => Err(e)
      case Ok(page) => Ok(Listed(step, page, current, size, |all|))
  }

  // ---------------------------------------------------------------- load or create

  /** The record a request without an id starts from. */
  function NewRecord(stepId: string, p: Params, env: Env): (r: StepRecord)
    ensures r.id == Some(env.freshId) && r.stepId == Some(stepId)
    ensures r.ancestorIds == Some([]) && r.summary == Some(JObj(map[]))
    ensures r.data == Some(if p.data.Some? then p.data.value else map[])
    ensures r.times == map[CreatedAt := env.now]
    ensures r.version == p.version
    ensures r.status.None? && r.previousId.None? && r.note.Undefined? && r.bys == map[] && r.duration.None?
    ensures !r.undefinedProp
  {
    var r := Blank.(id := Some(env.freshId), ancestorIds := Some([]), stepId := Some(stepId),
                    summary := Some(JObj(map[])), data := Some(p.data.GetOr(map[])),
                    times := map[CreatedAt := env.now]);
    if p.version.Some? then r.(version := p.version) else r
  }

  /**
   * Load the record named by `id` (checking the optimistic `version` and
   * merging incoming `data` over the stored data), or create a new one.
   */
  function Resolve(stepId: string, rows: seq<StepRecord>, p: Params, env: Env): (r: Result<StepRecord, Failure>)
    ensures Present(p.id) && Find(rows, p.id.value).None? ==> r == Err(Localized("recordNotFound", p.id))
    ensures Present(p.id) && Find(rows, p.id.value).Some? ==>
      var stored := rows[Find(rows, p.id.value).value];
      (p.version.Some? && stored.version != p.version ==> r == Err(Localized("versionNotMatch", None))) &&
      (r.Ok? ==> r.value.(data := stored.data) == stored) &&
      (r.Ok? && p.data.None? ==> r.value == stored) &&
      (r.Ok? && p.data.Some? ==> stored.data.Some? && r.value.data.Some? &&
                                  MergedOver(stored.data.value, p.data.value, r.value.data.value)) &&
      (r.Err? <==> (p.version.Some? && stored.version != p.version) || (p.data.Some? && stored.data.None?))
    ensures !Present(p.id) ==> r == Ok(NewRecord(stepId, p, env))
  {
    if Present(p.id) then
      match Find(rows, p.id.value)
      case None => Err(Localized("recordNotFound", p.id))
      case Some(i) =>
        var stored := rows[i];
        if p.version.Some? && stored.version != p.version then Err(Localized("versionNotMatch", None))
        else if p.data.Some? then
          if stored.data.None? then Err(TypeFailure)
          else Ok(stored.(data := Some(stored.data.value + p.data.value)))
        else Ok(stored)
    else Ok(NewRecord(stepId, p, env))
  }

  // ---------------------------------------------------------------- lock

  /** The lock taken (its full name), the held keys after the attempt, and the failure. */
  datatype LockStep = LockStep(name: Option<string>, held: set<string>, failure: Option<Failure>)

  /** The key `lockKey` yields for this request, when it yields a non-empty one. */
  function KeyFor(o: Options, p: Params, rec: StepRecord): Option<string>
    requires Ready(o)
  {
    match LockKeyOf(o)
    case None => None
    case Some(f) =>
      var key := f(StepIdOf(o).value, p.id, rec.data);
      if Present(key) then key else None
  }

  function TakeLock(o: Options, held: set<string>, p: Params, rec: StepRecord): (r: LockStep)
    requires Ready(o)
    ensures KeyFor(o, p, rec).None? ==> r == LockStep(None, held, None)
    ensures KeyFor(o, p, rec).Some? ==>
      var name := LockName(StepIdOf(o).value, KeyFor(o, p, rec).value);
      r.held == held + {name} &&
      (name in held ==> r.name.None? && r.failure == Some(Localized("locked", KeyFor(o, p, rec)))) &&
      (name !in held ==> r.name == Some(name) && r.failure.None?)
  {
    match KeyFor(o, p, rec)
    case None => LockStep(None, held, None)
    case Some(key) =>
      var name := LockName(StepIdOf(o).value, key);
      if name in held then LockStep(None, held, Some(Localized("locked", Some(key))))
      else LockStep(Some(name), held + {name}, None)
  }

  // ---------------------------------------------------------------- copy request fields

  /** Actor field `k` as the request gives it, when it is given and non-empty. */
  predicate GivesActor(p: Params, k: string) {
    k in ActorFields && k in p.actors && p.actors[k] != ""
  }

  /** `note` and actor fields when truthy; the lineage when `previousId` is; `unlockedAt` when truthy. */
  function CopyParams(rec: StepRecord, p: Params): (r: StepRecord)
    ensures r.note == if Present(p.note) then Defined(p.note.value) else rec.note
    ensures forall k :: k in r.bys <==> k in rec.bys || GivesActor(p, k)
    ensures forall k :: k in r.bys ==> r.bys[k] == if GivesActor(p, k) then Some(p.actors[k]) else rec.bys[k]
    ensures Present(p.previousId) ==>
      r.previousId == p.previousId && r.previousStepId == p.previousStepId &&
      r.previousUserId == p.previousUserId && r.ancestorIds == p.ancestorIds
    ensures !Present(p.previousId) ==>
      r.previousId == rec.previousId && r.previousStepId == rec.previousStepId &&
      r.previousUserId == rec.previousUserId && r.ancestorIds == rec.ancestorIds
    ensures r.times == if PresentNum(p.unlockedAt) then rec.times[UnlockedAt := p.unlockedAt.value] else rec.times
    ensures r.(note := rec.note, bys := rec.bys, previousId := rec.previousId, previousStepId := rec.previousStepId,
               previousUserId := rec.previousUserId, ancestorIds := rec.ancestorIds, times := rec.times) == rec
  {
    CopyActorsSets(rec.bys, p, ActorList);
    var r1 := rec.(note := if Present(p.note) then Defined(p.note.value) else rec.note,
                   bys := CopyActors(rec.bys, p, ActorList));
    var r2 := if Present(p.previousId) then
                r1.(previousId := p.previousId, previousStepId := p.previousStepId,
                    previousUserId := p.previousUserId, ancestorIds := p.ancestorIds)
              else r1;
    if PresentNum(p.unlockedAt) then r2.(times := r2.times[UnlockedAt := p.unlockedAt.value]) else r2
  }

  /** Actor fields copied from the request, one name of `names` after the other. */
  function CopyActors(bys: map<string, Option<string>>, p: Params, names: seq<string>): map<string, Option<string>>
    decreases |names|
  {
    if |names| == 0 then bys
    else
      var k := names[0];
      var next := if k in p.actors && p.actors[k] != "" then bys[k := Some(p.actors[k])] else bys;
      CopyActors(next, p, names[1..])
  }

  /** The fields the fold over `names` sets are exactly the given, non-empty actor fields among them. */
  lemma {:induction false} CopyActorsSets(bys: map<string, Option<string>>, p: Params, names: seq<string>)
    requires forall k :: k in names ==> k in ActorFields
    ensures var r := CopyActors(bys, p, names);
      (forall k :: k in r <==> k in bys || (k in names && GivesActor(p, k))) &&
      (forall k :: k in r ==> r[k] == if k in names && GivesActor(p, k) then Some(p.actors[k]) else bys[k])
    decreases |names|
  {
    if |names| > 0 {
      var k := names[0];
      var next := if k in p.actors && p.actors[k] != "" then bys[k := Some(p.actors[k])] else bys;
      CopyActorsSets(next, p, names[1..]);
      assert forall j :: j in names <==> j == k || j in names[1..];
    }
  }

  // ---------------------------------------------------------------- beforeAction

  /**
   * The extension bag, `options.extends` afterwards, the failure of
   * `beforeAction`, and the record and rows it leaves.
   */
  datatype BeforeStep = BeforeStep(extend: Data, extension: Option<Data>, failure: Option<Failure>,
                                   record: StepRecord, rows: seq<StepRecord>)

  /**
   * `beforeAction`, given the record, the bag and the transaction: what it
   * returns is assigned into the bag, and its changes to the record and the
   * rows stay. A hook that throws is taken to have changed nothing.
   */
  function RunBefore(o: Options, a: Action, rec: StepRecord, rows: seq<StepRecord>): (r: BeforeStep)
    ensures BeforeOf(o).None? ==> r == BeforeStep(ExtendsOf(o).GetOr(map[]), ExtendsOf(o), None, rec, rows)
    ensures r.failure.Some? ==> r.extension == ExtendsOf(o) && r.record == rec && r.rows == rows
    ensures r.failure.None? ==> r.extension.Some? == ExtendsOf(o).Some?
    ensures r.failure.None? && r.extension.Some? ==> r.extension.value == r.extend
    ensures r.failure.None? && BeforeOf(o).Some? ==>
      var ret := BeforeOf(o).value(a, rec, ExtendsOf(o).GetOr(map[]), rows);
      ret.Ok? && MergedOver(ExtendsOf(o).GetOr(map[]), ret.value.extension, r.extend) &&
      r.record == ret.value.record.(undefinedProp := rec.undefinedProp) && r.rows == ret.value.rows
  {
    var base := ExtendsOf(o).GetOr(map[]);
    match BeforeOf(o)
    case None => BeforeStep(base, ExtendsOf(o), None, rec, rows)
    case Some(f) =>
      match f(a, rec, base, rows)
      case Err(m) => BeforeStep(base, ExtendsOf(o), Some(Thrown(m)), rec, rows)
      case Ok(ret) =>
        var ext := base + ret.extension;
        BeforeStep(ext, if ExtendsOf(o).Some? then Some(ext) else None, None,
                   ret.record.(undefinedProp := rec.undefinedProp), ret.rows)
  }

  /** The options once `beforeAction` has run: `extends` holds the grown bag when there is one. */
  function Extended(o: Options, extension: Option<Data>): (r: Options)
    ensures r.Keys == o.Keys
    ensures forall k :: k in o && k != "extends" ==> r[k] == o[k]
    ensures Ready(o) ==> Ready(r)
    ensures ExtendsOf(o).Some? && extension.Some? ==> ExtendsOf(r) == extension
    ensures extension == ExtendsOf(o) ==> r == o
  {
    if ExtendsOf(o).Some? && extension.Some? then o["extends" := Extension(extension.value)] else o
  }

  // ---------------------------------------------------------------- stamp

  /**
   * Status, timestamp, actor and (for `done`) duration of the action. An
   * action without a timestamp field (`reject`) assigns the clock reading to
   * a property named `undefined` instead, a column no schema has.
   */
  function Stamp(rec: StepRecord, a: Action, bys: Action -> string, env: Env): (r: StepRecord)
    ensures r.status == Status(a)
    ensures Times(a).Some? ==> r.times == rec.times[Times(a).value := env.now]
    ensures Times(a).None? ==> r.times == rec.times
    ensures r.undefinedProp <==> rec.undefinedProp || Times(a).None?
    ensures r.bys == rec.bys[bys(a) := UserId(env.user)]
    ensures r.duration == if a == Action.Done && CreatedAt in rec.times then Some(env.now - rec.times[CreatedAt]) else rec.duration
    ensures r.(status := rec.status, times := rec.times, bys := rec.bys, duration := rec.duration,
               undefinedProp := rec.undefinedProp) == rec
  {
    var r1 := rec.(status := Status(a));
    var r2 := if Times(a).Some? then r1.(times := r1.times[Times(a).value := env.now]) else r1.(undefinedProp := true);
    var r3 := r2.(bys := r2.bys[bys(a) := UserId(env.user)]);
    if a == Action.Done && CreatedAt in r3.times then r3.(duration := Some(env.now - r3.times[CreatedAt])) else r3
  }

  // ---------------------------------------------------------------- dispatch

  /** The state the action's steps share after the helpers are built. */
  datatype Work = Work(
    record: StepRecord,
    saved: SavedFlag,
    rows: seq<StepRecord>,
    sent: seq<CancelRequest>,
    saves: nat,
    result: Data)

  datatype Stage = Next(w: Work) | Halt(w: Work, failure: Failure)

  /** The stage a method reports through its outputs. */
  function StageOf(w: Work, failure: Option<Failure>): Stage {
    if failure.Some? then Halt(w, failure.value) else Next(w)
  }

  /** `previousId = id and not status = 'canceled'`, in storage order (a null status does not match). */
  function NextRecords(rows: seq<StepRecord>, id: Option<string>): seq<StepRecord>
  {
    if |rows| == 0 then []
    else
      var rest := NextRecords(rows[1..], id);
      var x := rows[0];
      if id.Some? && x.previousId == id && x.status.Some? && x.status != Some(Canceled) then [x] + rest else rest
  }

  /** The request the cascade sends to each of `next`. */
  function CancelAll(next: seq<StepRecord>, note: string): seq<CancelRequest>
  {
    seq(|next|, i requires 0 <= i < |next| => CancelRequest(next[i].stepId, next[i].id, note))
  }

  /**
   * The `for` loop of `undo`: each record is sent `cancel` with the note
   * `undoNote(id)`; a failing downstream update stops the loop. The
   * note is evaluated in each iteration, so a pack without `undoNote`
   * fails before the first request.
   */
  function Cascade(next: seq<StepRecord>, note: Option<string>, update: UpdateRecordFn): (seq<CancelRequest>, Option<Failure>)
  {
    CascadeFrom(next, 0, note, update)
  }

  /** The cascade from the `i`-th following record on. */
  function CascadeFrom(next: seq<StepRecord>, i: nat, note: Option<string>, update: UpdateRecordFn)
    : (seq<CancelRequest>, Option<Failure>)
    decreases |next| - i
  {
    if i >= |next| then ([], None)
    else if note.None? then ([], Some(TypeFailure))
    else
      var req := CancelRequest(next[i].stepId, next[i].id, note.value);
      match update(req)
      case Err(m) => ([req], Some(Thrown(m)))
      case Ok(_) =>
        var rest := CascadeFrom(next, i + 1, note, update);
        ([req] + rest.0, rest.1)
  }

  /** `update({ status: 'draft', note }).where('id', previousId)` */
  function ResetPrevious(rows: seq<StepRecord>, previousId: string, note: Field<string>): seq<StepRecord>
  {
    UpdateWhereId(rows, previousId, Blank.(status := Some(RecordStatus.Draft), note := note))
  }

  /** A `save()` inside the pipeline, by a hook or by the engine. */
  function SaveStage(o: Options, env: Env, w: Work): Stage
  {
    var s := SaveSpec(w.record, w.saved, env.user, SummaryOf(o), w.rows, env.freshId);
    var w1 := w.(record := s.record, saved := s.saved, rows := s.rows, saves := w.saves + 1);
    if s.result.Err? then Halt(w1, s.result.error) else Next(w1)
  }

  /**
   * The per-action hook: its value (or `{}`) becomes the result, and the
   * record and rows it leaves replace the shared ones (then its `save()`, if
   * it calls one, writes that record).
   */
  function RunHandlerSpec(o: Options, a: Action, env: Env, extend: Data, w: Work): (r: Stage)
  {
    match HandlerOf(o, a)
    case None => Next(w)
    case Some(h) =>
      match h(a, w.record, extend, w.rows)
      case Err(m) => Halt(w, Thrown(m))
      case Ok(ret) =>
        var w1 := w.(record := ret.record.(undefinedProp := w.record.undefinedProp), rows := ret.rows,
                     result := ret.value.GetOr(map[]));
        if ret.callsSave then SaveStage(o, env, w1) else Next(w1)
  }

  /** `if (!result.message) result.message = lang[key]` */
  function WithMessage(st: Stage, lang: Pack, key: string): Stage
  {
    match st
    case Halt(_, _) => st
    case Next(w) =>
      if TruthyAt(w.result, "message") then st
      else Next(w.(result := Put(w.result, "message", StrOrUndefined(Say(lang, key)))))
  }

  predicate AnyDone(next: seq<StepRecord>) {
    exists x :: x in next && x.status == Some(RecordStatus.Done)
  }

  /**
   * `undo`: refused when a following record is done; otherwise every
   * following record is cancelled, then the `undo` hook runs.
   */
  function UndoSpec(o: Options, env: Env, extend: Data, w: Work): Stage
    requires Ready(o)
  {
    var lang := LangOf(o).value;
    var next := NextRecords(w.rows, w.record.id);
    if AnyDone(next) then Halt(w, Localized("undoFailed", None))
    else
      var c := Cascade(next, Render(lang, "undoNote", w.record.id), env.updateRecord);
      var w1 := w.(sent := w.sent + c.0);
      if c.1.Some? then Halt(w1, c.1.value)
      else WithMessage(RunHandlerSpec(o, Action.Undo, env, extend, w1), lang, "undoSuccess")
  }

  /** `reject`: the previous record returns to draft, then the `reject` hook runs. */
  function RejectSpec(o: Options, env: Env, extend: Data, w: Work): Stage
    requires Ready(o)
  {
    var w1 := if Present(w.record.previousId)
              then w.(rows := ResetPrevious(w.rows, w.record.previousId.value, w.record.note))
              else w;
    WithMessage(RunHandlerSpec(o, Action.Reject, env, extend, w1), LangOf(o).value, "rejectSuccess")
  }

  /** The `switch` on the action. */
  function DispatchSpec(o: Options, a: Action, env: Env, extend: Data, w: Work): Stage
    requires Ready(o)
  {
    match a
    case Undo => UndoSpec(o, env, extend, w)
    case Reject => RejectSpec(o, env, extend, w)
    case _ => RunHandlerSpec(o, a, env, extend, w)
  }

  /** `if (!result.id) result.id = record.id`, then `afterAction`, which may write in the transaction. */
  function Finish(o: Options, a: Action, extend: Data, w: Work): Stage
  {
    var w1 := if TruthyAt(w.result, "id") then w else w.(result := Put(w.result, "id", StrOrUndefined(w.record.id)));
    match AfterOf(o)
    case None => Next(w1)
    case Some(f) =>
      match f(a, w1.record, extend, w1.rows)
      case Err(m) => Halt(w1, Thrown(m))
      case Ok(rows) => Next(w1.(rows := rows))
  }

  /**
   * Everything after the helpers are built: the action's own step, the
   * engine's save (its `saved` flag is never set, so it always saves), and
   * the result defaults.
   */
  function PerformSpec(o: Options, a: Action, env: Env, extend: Data, w: Work): Stage
    requires Ready(o)
  {
    match DispatchSpec(o, a, env, extend, w)
    case Halt(w1, f) => Halt(w1, f)
    case Next(w1) => CompleteSpec(o, a, env, extend, w1)
  }

  /** The engine's own `save()` and the result defaults. */
  function CompleteSpec(o: Options, a: Action, env: Env, extend: Data, w: Work): Stage
  {
    match SaveStage(o, env, w)
    case Halt(w1, f) => Halt(w1, f)
    case Next(w1) => Finish(o, a, extend, w1)
  }

  // ---------------------------------------------------------------- the whole action

  /** The result of a mutating action and the state it leaves behind. */
  datatype Outcome = Outcome(
    result: Result<Data, Failure>,
    rows: seq<StepRecord>,
    held: set<string>,
    /** `options.extends` afterwards */
    extension: Option<Data>,
    sent: seq<CancelRequest>,
    saves: nat)

  /** What the action works on once it is past loading, locking and `beforeAction`. */
  datatype Prepared = Prepared(record: StepRecord, lockName: Option<string>, extend: Data, rows: seq<StepRecord>)

  /** The held lock keys and `options.extends` after the first stages, and how they ended. */
  datatype Front = Front(held: set<string>, extension: Option<Data>, prepared: Result<Prepared, Failure>)

  /** Load or create, lock, copy the request's fields, `beforeAction`. */
  function FrontSpec(o: Options, rows: seq<StepRecord>, held: set<string>, p: Params, env: Env): Front
    requires Ready(o)
  {
    match Resolve(StepIdOf(o).value, rows, p, env)
    case Err(f) => Front(held, ExtendsOf(o), Err(f))
    case Ok(rec0) =>
      var lk := TakeLock(o, held, p, rec0);
      if lk.failure.Some? then Front(lk.held, ExtendsOf(o), Err(lk.failure.value))
      else
        var rec1 := CopyParams(rec0, p);
        var bf := RunBefore(o, p.action, rec1, rows);
        if bf.failure.Some? then Front(lk.held, bf.extension, Err(bf.failure.value))
        else Front(lk.held, bf.extension, Ok(Prepared(bf.record, lk.name, bf.extend, bf.rows)))
  }

  /**
   * A mutating action. The transaction is the caller's when `outerTrx`,
   * otherwise a new one that commits on success and rolls back on failure.
   * The lock is released only after a success.
   */
  function MutateSpec(o: Options, bys: Action -> string, rows: seq<StepRecord>, held: set<string>, p: Params, env: Env): Outcome
    requires Ready(o)
  {
    if !Present(p.id) && p.data.None? then Outcome(Err(Localized("idOrDataRequired", None)), rows, held, ExtendsOf(o), [], 0)
    else
      var front := FrontSpec(o, rows, held, p, env);
      match front.prepared
      case Err(f) => Outcome(Err(f), rows, front.held, front.extension, [], 0)
      case Ok(prep) =>
        var w0 := Work(Stamp(prep.record, p.action, bys, env), Callback, prep.rows, [], 0, map[]);
        match PerformSpec(Extended(o, front.extension), p.action, env, prep.extend, w0)
        case Halt(w, f) => Outcome(Err(f), if p.outerTrx then w.rows else rows, front.held, front.extension, w.sent, w.saves)
        case Next(w) =>
          Outcome(Ok(w.result), w.rows, if prep.lockName.Some? then front.held - {prep.lockName.value} else front.held,
                  front.extension, w.sent, w.saves)
  }

  // ---------------------------------------------------------------- the engine

  /** The state one step's handler closes over. */
  class StepRecordFunc {
    var options: Options
    const table: Table
    const redis: LockSet
    /** the `Bys` table: the actor field each action stamps */
    const bys: Action -> string

    constructor (options: Options, table: Table, redis: LockSet, bys: Action -> string)
      requires Ready(options)
      ensures this.options == options && this.table == table && this.redis == redis && this.bys == bys
      ensures Valid()
    {
      this.options := options;
      this.table := table;
      this.redis := redis;
      this.bys := bys;
    }

    ghost predicate Valid()
      reads this
    {
      Ready(options)
    }

    /** The `new` action. */
    method New(step: Option<Json>) returns (r: Reply)
      ensures r == NewSpec(options, step)
    {
      var hook := ReadOf(options, "new");
      if hook.Some? {
        return Hooked(hook.value(None));
      }
      r := Fresh(step);
    }

    /** The `get` action. */
    method Get(id: Option<string>, step: Option<Json>) returns (r: Result<Reply, Failure>)
      ensures r == GetSpec(options, table.rows, id, step)
    {
      if !Present(id) {
        return Err(Localized("idRequired", None));
      }
      var hook := ReadOf(options, "get");
      if hook.Some? {
        return Ok(Hooked(hook.value(id)));
      }
      var record := table.Load(id.value);
      var users := [];
      if UsersOf(options).Some? {
        if record.None? {
          return Err(TypeFailure);
        }
        users := UsersOf(options).value(ActorIds(record.value.bys, ReadActorList));
      }
      r := Ok(Fetched(step, users, record));
    }

    /** The `list` action: `pagination` is completed in place first, then used. */
    method List(step: Option<Json>) returns (r: Result<Reply, Failure>)
      requires Valid()
      modifies this
      ensures Valid()
      ensures options == WithPageDefaults(old(options))
      ensures r == ListSpec(options, table.rows, StepIdOf(options).value, step)
    {
      options := WithPageDefaults(options);
      assert StepIdOf(options) == StepIdOf(old(options)) && LangOf(options) == LangOf(old(options));
      var hook := ReadOf(options, "list");
      if hook.Some? {
        return Ok(Hooked(hook.value(None)));
      }
      var current := PageOf(options).value.current.value;
      var size := PageOf(options).value.pageSize.value;
      var all := StepRows(table.rows, StepIdOf(options).value);
      var page := Window(all, (current - 1) * size, size);
      if page.Err? {
        return Err(page.error);
      }
      r := Ok(Listed(step, page.value, current, size, |all|));
    }

    /** `trx.rollback()` when the transaction is the engine's own. */
    method Rollback(outerTrx: bool, snapshot: seq<StepRecord>)
      modifies table
      ensures table.rows == if outerTrx then old(table.rows) else snapshot
    {
      if !outerTrx {
        table.rows := snapshot;
      }
    }

    /** The `for` loop of `undo` over the records that follow this one. */
    method CancelNext(next: seq<StepRecord>, lang: Pack, id: Option<string>, update: UpdateRecordFn)
      returns (sent: seq<CancelRequest>, failure: Option<Failure>)
      ensures (sent, failure) == Cascade(next, Render(lang, "undoNote", id), update)
    {
      ghost var note0 := Render(lang, "undoNote", id);
      sent := [];
      var i := 0;
      while i < |next|
        invariant i <= |next|
        invariant sent + CascadeFrom(next, i, note0, update).0 == Cascade(next, note0, update).0
        invariant CascadeFrom(next, i, note0, update).1 == Cascade(next, note0, update).1
      {
        var note := Render(lang, "undoNote", id);
        if note.None? {
          return sent, Some(TypeFailure);
        }
        var req := CancelRequest(next[i].stepId, next[i].id, note.value);
        var reply := update(req);
        sent := sent + [req];
        if reply.Err? {
          return sent, Some(Thrown(reply.error));
        }
        i := i + 1;
      }
      assert sent + [] == sent;
      failure := None;
    }

    /** `options[action]`, which may call `save()` on the shared helpers. */
    method RunHandler(a: Action, env: Env, extend: Data, actions: Actions, ghost sent: seq<CancelRequest>)
      returns (result: Data, saves: nat, failure: Option<Failure>)
      requires actions.table == table && actions.user == env.user && actions.summary == SummaryOf(options)
      modifies actions, table
      ensures StageOf(Work(actions.record, actions.saved, table.rows, sent, saves, result), failure) == RunHandlerSpec(options, a, env, extend,
                                   Work(old(actions.record), old(actions.saved), old(table.rows), sent, 0, map[]))
    {
      result, saves, failure := map[], 0, None;
      var h := HandlerOf(options, a);
      if h.None? {
        return;
      }
      ghost var w0 := Work(actions.record, actions.saved, table.rows, sent, 0, map[]);
      var ret := h.value(a, actions.record, extend, table.rows);
      if ret.Err? {
        return map[], 0, Some(Thrown(ret.error));
      }
      // the hook's changes to the shared record and to the transaction
      actions.record := ret.value.record.(undefinedProp := actions.record.undefinedProp);
      table.rows := ret.value.rows;
      result := ret.value.value.GetOr(map[]);
      ghost var w1 := Work(actions.record, actions.saved, table.rows, sent, 0, result);
      assert RunHandlerSpec(options, a, env, extend, w0)
             == if ret.value.callsSave then SaveStage(options, env, w1) else Next(w1);
      if ret.value.callsSave {
        var s := actions.Save(env.freshId);
        saves := 1;
        if s.Err? {
          failure := Some(s.error);
        }
        assert StageOf(Work(actions.record, actions.saved, table.rows, sent, saves, result), failure) == SaveStage(options, env, w1);
      } else {
        assert StageOf(Work(actions.record, actions.saved, table.rows, sent, saves, result), failure) == Next(w1);
      }
    }

    /** The action's hook, then `if (!result.message) result.message = lang[key]`. */
    method HandleWithMessage(a: Action, env: Env, extend: Data, actions: Actions, ghost sent: seq<CancelRequest>, key: string)
      returns (result: Data, saves: nat, failure: Option<Failure>)
      requires Valid()
      requires actions.table == table && actions.user == env.user && actions.summary == SummaryOf(options)
      modifies actions, table
      ensures StageOf(Work(actions.record, actions.saved, table.rows, sent, saves, result), failure)
              == WithMessage(RunHandlerSpec(options, a, env, extend,
                                            Work(old(actions.record), old(actions.saved), old(table.rows), sent, 0, map[])),
                             LangOf(options).value, key)
    {
      result, saves, failure := RunHandler(a, env, extend, actions, sent);
      if failure.None? && !TruthyAt(result, "message") {
        result := Put(result, "message", StrOrUndefined(Say(LangOf(options).value, key)));
      }
    }

    /** The `undo` branch of the `switch`. */
    method Undo(env: Env, extend: Data, actions: Actions)
      returns (result: Data, sent: seq<CancelRequest>, saves: nat, failure: Option<Failure>)
      requires Valid()
      requires actions.table == table && actions.user == env.user && actions.summary == SummaryOf(options)
      modifies actions, table
      ensures StageOf(Work(actions.record, actions.saved, table.rows, sent, saves, result), failure) == UndoSpec(options, env, extend,
                                 Work(old(actions.record), old(actions.saved), old(table.rows), [], 0, map[]))
    {
      var lang := LangOf(options).value;
      var next := NextRecords(table.rows, actions.record.id);
      if AnyDone(next) {
        return map[], [], 0, Some(Localized("undoFailed", None));
      }
      var f;
      sent, f := CancelNext(next, lang, actions.record.id, env.updateRecord);
      if f.Some? {
        return map[], sent, 0, f;
      }
      result, saves, failure := HandleWithMessage(Action.Undo, env, extend, actions, sent, "undoSuccess");
    }

    /** The `reject` branch of the `switch`. */
    method Reject(env: Env, extend: Data, actions: Actions)
      returns (result: Data, saves: nat, failure: Option<Failure>)
      requires Valid()
      requires actions.table == table && actions.user == env.user && actions.summary == SummaryOf(options)
      modifies actions, table
      ensures StageOf(Work(actions.record, actions.saved, table.rows, [], saves, result), failure) == RejectSpec(options, env, extend,
                                   Work(old(actions.record), old(actions.saved), old(table.rows), [], 0, map[]))
    {
      if Present(actions.record.previousId) {
        table.rows := ResetPrevious(table.rows, actions.record.previousId.value, actions.record.note);
      }
      result, saves, failure := HandleWithMessage(Action.Reject, env, extend, actions, [], "rejectSuccess");
    }

    /** The `switch` on the action, over the shared helpers. */
    method Dispatch(a: Action, env: Env, extend: Data, actions: Actions)
      returns (result: Data, sent: seq<CancelRequest>, saves: nat, failure: Option<Failure>)
      requires Valid()
      requires actions.table == table && actions.user == env.user && actions.summary == SummaryOf(options)
      modifies actions, table
      ensures StageOf(Work(actions.record, actions.saved, table.rows, sent, saves, result), failure) == DispatchSpec(options, a, env, extend,
                                     Work(old(actions.record), old(actions.saved), old(table.rows), [], 0, map[]))
    {
      match a
      case Undo =>
        result, sent, saves, failure := Undo(env, extend, actions);
      case Reject =>
        sent := [];
        result, saves, failure := Reject(env, extend, actions);
      case _ =>
        sent := [];
        result, saves, failure := RunHandler(a, env, extend, actions, sent);
    }

    /** The request's `note` and actor fields, copied when truthy (the `forEach` over their names). */
    method CopyActorFields(record: StepRecord, p: Params) returns (r: StepRecord)
      ensures r == record.(note := if Present(p.note) then Defined(p.note.value) else record.note,
                           bys := CopyActors(record.bys, p, ActorList))
    {
      r := record;
      if Present(p.note) {
        r := r.(note := Defined(p.note.value));
      }
      var bys := r.bys;
      for i := 0 to |ActorList|
        invariant CopyActors(bys, p, ActorList[i..]) == CopyActors(record.bys, p, ActorList)
      {
        var k := ActorList[i];
        assert ActorList[i..][1..] == ActorList[i + 1..];
        if k in p.actors && p.actors[k] != "" {
          bys := bys[k := Some(p.actors[k])];
        }
      }
      r := r.(bys := bys);
    }

    /** Load the record named by the request, or create one. */
    method LoadOrCreate(p: Params, env: Env) returns (r: Result<StepRecord, Failure>)
      requires Valid()
      ensures r == Resolve(StepIdOf(options).value, table.rows, p, env)
    {
      if Present(p.id) {
        var loaded := table.Load(p.id.value);
        if loaded.None? {
          return Err(Localized("recordNotFound", p.id));
        }
        var record := loaded.value;
        if p.version.Some? && record.version != p.version {
          return Err(Localized("versionNotMatch", None));
        }
        if p.data.Some? {
          if record.data.None? {
            return Err(TypeFailure);
          }
          record := record.(data := Some(record.data.value + p.data.value));
        }
        return Ok(record);
      }
      var record := Blank.(id := Some(env.freshId), ancestorIds := Some([]), stepId := Some(StepIdOf(options).value),
                           summary := Some(JObj(map[])), data := Some(p.data.GetOr(map[])),
                           times := map[CreatedAt := env.now]);
      if p.version.Some? {
        record := record.(version := p.version);
      }
      r := Ok(record);
    }

    /** `lockKey` and `redis.lock`. */
    method AcquireLock(p: Params, record: StepRecord) returns (lockName: Option<string>, failure: Option<Failure>)
      requires Valid()
      modifies redis
      ensures LockStep(lockName, redis.held, failure) == TakeLock(options, old(redis.held), p, record)
    {
      lockName, failure := None, None;
      var stepId := StepIdOf(options).value;
      if LockKeyOf(options).Some? {
        var key := LockKeyOf(options).value(stepId, p.id, record.data);
        if Present(key) {
          var name := LockName(stepId, key.value);
          var ok := redis.Lock(name);
          if !ok {
            return None, Some(Localized("locked", key));
          }
          lockName := Some(name);
        }
      }
    }

    /** The request fields copied onto the record. */
    method ApplyParams(record: StepRecord, p: Params) returns (r: StepRecord)
      ensures r == CopyParams(record, p)
    {
      r := CopyActorFields(record, p);
      if Present(p.previousId) {
        r := r.(previousId := p.previousId, previousStepId := p.previousStepId,
                previousUserId := p.previousUserId, ancestorIds := p.ancestorIds);
      }
      if PresentNum(p.unlockedAt) {
        r := r.(times := r.times[UnlockedAt := p.unlockedAt.value]);
      }
    }

    /**
     * `beforeAction`, assigned into the extension bag (which is
     * `options.extends` when there is one); it may change the record and
     * write in the transaction.
     */
    method BeforeAction(a: Action, record: StepRecord) returns (extend: Data, r: StepRecord, failure: Option<Failure>)
      requires Valid()
      modifies this, table
      ensures Valid()
      ensures BeforeStep(extend, ExtendsOf(options), failure, r, table.rows) == RunBefore(old(options), a, record, old(table.rows))
      ensures options == Extended(old(options), ExtendsOf(options))
    {
      extend, r, failure := ExtendsOf(options).GetOr(map[]), record, None;
      if BeforeOf(options).Some? {
        var ret := BeforeOf(options).value(a, record, extend, table.rows);
        if ret.Err? {
          return extend, record, Some(Thrown(ret.error));
        }
        extend := extend + ret.value.extension;
        r := ret.value.record.(undefinedProp := record.undefinedProp);
        table.rows := ret.value.rows;
        if ExtendsOf(options).Some? {
          options := options["extends" := Extension(extend)];
        }
      }
    }

    /** Status, timestamp, actor and duration, written on the shared record. */
    method StampAction(actions: Actions, a: Action, env: Env)
      modifies actions
      ensures actions.record == Stamp(old(actions.record), a, bys, env)
      ensures actions.saved == old(actions.saved)
    {
      actions.record := actions.record.(status := Status(a));
      if Times(a).Some? {
        actions.record := actions.record.(times := actions.record.times[Times(a).value := env.now]);
      } else {
        actions.record := actions.record.(undefinedProp := true);
      }
      actions.record := actions.record.(bys := actions.record.bys[bys(a) := UserId(env.user)]);
      if a == Action.Done && CreatedAt in actions.record.times {
        actions.record := actions.record.(duration := Some(env.now - actions.record.times[CreatedAt]));
      }
    }

    /** A `save()` through the shared helpers. */
    method SaveStep(env: Env, actions: Actions, ghost data: Data, ghost sent: seq<CancelRequest>, saves0: nat)
      returns (saves: nat, failure: Option<Failure>)
      requires actions.table == table && actions.user == env.user && actions.summary == SummaryOf(options)
      modifies actions, table
      ensures StageOf(Work(actions.record, actions.saved, table.rows, sent, saves, data), failure)
              == SaveStage(options, env, Work(old(actions.record), old(actions.saved), old(table.rows), sent, saves0, data))
    {
      var s := actions.Save(env.freshId);
      saves := saves0 + 1;
      failure := if s.Err? then Some(s.error) else None;
    }

    /** The default `id`, then `afterAction`. */
    method FinishStep(a: Action, extend: Data, record: StepRecord, data0: Data)
      returns (data: Data, failure: Option<Failure>)
      modifies table
      ensures forall saved, sent, saves ::
        (StageOf(Work(record, saved, table.rows, sent, saves, data), failure)
         == Finish(options, a, extend, Work(record, saved, old(table.rows), sent, saves, data0)))
    {
      data, failure := data0, None;
      if !TruthyAt(data, "id") {
        data := Put(data, "id", StrOrUndefined(record.id));
      }
      if AfterOf(options).Some? {
        var after := AfterOf(options).value(a, record, extend, table.rows);
        if after.Err? {
          failure := Some(Thrown(after.error));
        } else {
          table.rows := after.value;
        }
      }
    }

    /**
     * The engine's `save()` unless its `saved` flag is set (nothing sets
     * it), then the default `id` and `afterAction`.
     */
    method Complete(a: Action, env: Env, extend: Data, actions: Actions, data0: Data, sent: seq<CancelRequest>, saves0: nat)
      returns (data: Data, saves: nat, failure: Option<Failure>)
      requires actions.table == table && actions.user == env.user && actions.summary == SummaryOf(options)
      modifies actions, table
      ensures StageOf(Work(actions.record, actions.saved, table.rows, sent, saves, data), failure)
              == CompleteSpec(options, a, env, extend,
                              Work(old(actions.record), old(actions.saved), old(table.rows), sent, saves0, data0))
    {
      data, saves, failure := data0, saves0, None;
      var saved := false;
      if !saved {
        saves, failure := SaveStep(env, actions, data, sent, saves);
        if failure.Some? {
          return;
        }
      }
      data, failure := FinishStep(a, extend, actions.record, data);
    }

    /** The action's own step, then `Complete`. */
    method Perform(a: Action, env: Env, extend: Data, actions: Actions)
      returns (data: Data, sent: seq<CancelRequest>, saves: nat, failure: Option<Failure>)
      requires Valid()
      requires actions.table == table && actions.user == env.user && actions.summary == SummaryOf(options)
      modifies actions, table
      ensures StageOf(Work(actions.record, actions.saved, table.rows, sent, saves, data), failure)
              == PerformSpec(options, a, env, extend, Work(old(actions.record), old(actions.saved), old(table.rows), [], 0, map[]))
    {
      data, sent, saves, failure := Dispatch(a, env, extend, actions);
      if failure.None? {
        data, saves, failure := Complete(a, env, extend, actions, data, sent, saves);
      }
    }

    /** Load or create the record, take the lock, copy the request's fields, run `beforeAction`. */
    method Prepare(p: Params, env: Env) returns (r: Result<Prepared, Failure>)
      requires Valid()
      modifies this, redis, table
      ensures Valid()
      ensures Front(redis.held, ExtendsOf(options), r) == FrontSpec(old(options), old(table.rows), old(redis.held), p, env)
      ensures options == Extended(old(options), ExtendsOf(options))
      ensures r.Err? ==> table.rows == old(table.rows)
      ensures r.Ok? ==> table.rows == r.value.rows
    {
      var resolved := LoadOrCreate(p, env);
      if resolved.Err? {
        return Err(resolved.error);
      }
      var lockName, failure := AcquireLock(p, resolved.value);
      if failure.Some? {
        return Err(failure.value);
      }
      var record := ApplyParams(resolved.value, p);
      var extend;
      extend, record, failure := BeforeAction(p.action, record);
      if failure.Some? {
        return Err(failure.value);
      }
      r := Ok(Prepared(record, lockName, extend, table.rows));
    }

    /** A create, update, undo, reject or other mutating action. */
    method Mutate(p: Params, env: Env) returns (result: Result<Data, Failure>, sent: seq<CancelRequest>, saves: nat)
      requires Valid()
      modifies this, table, redis
      ensures Valid()
      ensures Outcome(result, table.rows, redis.held, ExtendsOf(options), sent, saves)
              == MutateSpec(old(options), bys, old(table.rows), old(redis.held), p, env)
      ensures options == Extended(old(options), ExtendsOf(options))
    {
      if !Present(p.id) && p.data.None? {
        return Err(Localized("idOrDataRequired", None)), [], 0;
      }
      // the transaction begins: a rollback restores this snapshot
      var snapshot := table.rows;
      var prepared := Prepare(p, env);
      if prepared.Err? {
        Rollback(p.outerTrx, snapshot);
        return Err(prepared.error), [], 0;
      }
      var prep := prepared.value;
      var actions := new Actions(prep.record, Callback, env.user, StepIdOf(options).value, BasePathOf(options),
                                 SummaryOf(options), table);
      StampAction(actions, p.action, env);
      var data, failure;
      data, sent, saves, failure := Perform(p.action, env, prep.extend, actions);
      if failure.Some? {
        Rollback(p.outerTrx, snapshot);
        return Err(failure.value), sent, saves;
      }
      // the transaction commits; then the lock is released
      if prep.lockName.Some? {
        redis.Unlock(prep.lockName.value);
      }
      result := Ok(data);
    }
  }
}
