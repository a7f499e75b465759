/**
 * The options object of a step's engine (`UseStepRecordFuncOptions` in
 * packages/step/src/hook.ts). It is a plain object: a table from option
 * name to value, so that the builder's spreads are map unions. User hooks
 * are uninterpreted functions of what they are given.
 */
module HookOptions {
  import opened Wrappers
  import opened Json
  import opened Enum
  import opened Records
  import opened Lang
  import opened Act = Action

  /** `lockKey({ stepId, id, data })`: a key, or `undefined`. */
  type LockKeyFn = (string, Option<string>, Option<Data>) -> Option<string>

  /**
   * What `beforeAction(context)` leaves: the extension it contributes, the
   * record it was handed (which it may have changed in place) and the rows
   * of the transaction it was handed.
   */
  datatype BeforeReturn = BeforeReturn(extension: Data, record: StepRecord, rows: seq<StepRecord>)

  /** `beforeAction(context)`, given the action, the record, the extension bag and the rows; or a thrown message. */
  type BeforeFn = (Action, StepRecord, Data, seq<StepRecord>) -> Result<BeforeReturn, string>

  /**
   * What a per-action hook leaves: its return value (`undefined` is `None`),
   * whether it called `save()`, the record as it left it and the rows of the
   * transaction as it left them. Its changes to the record are taken as made
   * before any `save()` it calls.
   */
  datatype HandlerReturn = HandlerReturn(value: Option<Data>, callsSave: bool, record: StepRecord, rows: seq<StepRecord>)

  /** A per-action hook (`draft`, `hang`, ..., `undo`, `reject`), given what `beforeAction` is given. */
  type HandlerFn = (Action, StepRecord, Data, seq<StepRecord>) -> Result<HandlerReturn, string>

  /** `afterAction(context)`: the rows it leaves, or a thrown message. */
  type AfterFn = (Action, StepRecord, Data, seq<StepRecord>) -> Result<seq<StepRecord>, string>

  /** `getUsers({ ids })`. */
  type UsersFn = seq<string> -> seq<User>

  /** A user-supplied read hook (`new`, `get`, `list`) given the request's id. */
  type ReadFn = Option<string> -> Json

  /** `pagination` as a user gives it: either key may be missing. */
  datatype PageInput = PageInput(current: Option<int>, pageSize: Option<int>)

  datatype OptValue =
    | Text(text: string)
    | LangPack(pack: Pack)
    | Paging(page: PageInput)
    | Extension(bag: Data)
    | SummaryHook(summary: SummaryFn)
    | HandlerHook(handler: HandlerFn)
    | LockKeyHook(lockKey: LockKeyFn)
    | BeforeHook(before: BeforeFn)
    | AfterHook(after: AfterFn)
    | UsersHook(users: UsersFn)
    | ReadHook(read: ReadFn)
    /** an option this model does not interpret (`generateId`, `getUser`, `afterMount`, ...) */
    | Uninterpreted

  type Options = map<string, OptValue>

  function StepIdOf(o: Options): Option<string> {
    if "stepId" in o && o["stepId"].Text? then Some(o["stepId"].text) else None
  }

  function BasePathOf(o: Options): Option<string> {
    if "basePath" in o && o["basePath"].Text? then Some(o["basePath"].text) else None
  }

  function LangOf(o: Options): Option<Pack> {
    if "lang" in o && o["lang"].LangPack? then Some(o["lang"].pack) else None
  }

  function PageOf(o: Options): Option<PageInput> {
    if "pagination" in o && o["pagination"].Paging? then Some(o["pagination"].page) else None
  }

  function ExtendsOf(o: Options): Option<Data> {
    if "extends" in o && o["extends"].Extension? then Some(o["extends"].bag) else None
  }

  function SummaryOf(o: Options): Option<SummaryFn> {
    if "summary" in o && o["summary"].SummaryHook? then Some(o["summary"].summary) else None
  }

  /** `options[action]`, the per-action hook. */
  function HandlerOf(o: Options, a: Action): Option<HandlerFn> {
    var k := ActionName(a);
    if k in o && o[k].HandlerHook? then Some(o[k].handler) else None
  }

  function LockKeyOf(o: Options): Option<LockKeyFn> {
    if "lockKey" in o && o["lockKey"].LockKeyHook? then Some(o["lockKey"].lockKey) else None
  }

  function BeforeOf(o: Options): Option<BeforeFn> {
    if "beforeAction" in o && o["beforeAction"].BeforeHook? then Some(o["beforeAction"].before) else None
  }

  function AfterOf(o: Options): Option<AfterFn> {
    if "afterAction" in o && o["afterAction"].AfterHook? then Some(o["afterAction"].after) else None
  }

  function UsersOf(o: Options): Option<UsersFn> {
    if "getUsers" in o && o["getUsers"].UsersHook? then Some(o["getUsers"].users) else None
  }

  /** The read hooks are the options named `new`, `get` and `list`. */
  function ReadOf(o: Options, name: string): Option<ReadFn> {
    if name in o && o[name].ReadHook? then Some(o[name].read) else None
  }

  /** An engine's options once `useStepRecordFunc` accepted them. */
  predicate Ready(o: Options) {
    Present(StepIdOf(o)) && LangOf(o).Some?
  }

  /** The options after `useStepRecordFunc`, and the error it throws when `stepId` is missing. */
  datatype Init = Init(options: Options, failure: Option<Failure>)

  /**
   * `useStepRecordFunc(options)`, up to mounting: `options.lang` becomes the
   * given pack merged over English (English alone without one), then a
   * missing `stepId` throws `lang.stepIdRequired`.
   */
  function UseStepRecordFunc(o: Options): (r: Init)
    ensures LangOf(r.options) == Some(Effective(LangOf(o)))
    ensures r.options.Keys == o.Keys + {"lang"}
    ensures forall k :: k in o && k != "lang" ==> r.options[k] == o[k]
    ensures r.failure.Some? <==> !Present(StepIdOf(o))
    ensures r.failure.Some? ==> r.failure.value == Localized("stepIdRequired", None)
    ensures r.failure.None? ==> Ready(r.options)
  {
    var normalized := o["lang" := LangPack(Effective(LangOf(o)))];
    assert StepIdOf(normalized) == StepIdOf(o);
    Init(normalized, if Present(StepIdOf(o)) then None else Some(Localized("stepIdRequired", None)))
  }
}
