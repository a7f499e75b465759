# A model of the step-record workflow engine

This project models `packages/step/src` of a step-record workflow engine. A
*step record* is one business entity that moves through named actions:
`draft`, `hang`, `done`, `cancel`, `lock`, `unlock`, `undo` and `reject`.
Each action maps to a status, stamps a timestamp and an actor, and is saved
in a `step_records` table. Lineage fields (`previousId`, `ancestorIds`) link
a record to the record of the earlier step that created it.

Modules follow the source files:

- `Enum` (enum.ts): the actions, the statuses, and the `Status` and `Times` tables.
- `Lang` (lang.ts): the English message pack and how packs are merged and read.
- `Invoke` (invoke.ts): the request sent to another step, the target path, and how the reply settles.
- `Action` (action.ts): the `save` and `createRecord` helpers handed to hooks. They share a class over the record and the table.
- `HookOptions` and `Hook` (hook.ts): the engine `useStepRecordFunc`.
  - The read actions `new`, `get` and `list`.
  - The mutating pipeline, specified stage by stage as functions.
  - The class `StepRecordFunc`, whose methods perform the stages on the engine's state (options, table, held lock keys) and are proved equal to those functions.
- `HookProperties`: what the pipeline promises, as lemmas over the specification functions.
- `Builder` (builder.ts): `buildHook` and `buildInvoke`.
- `SetStepRecord` (index.ts): the older, draft-only `useSetStepRecord`.
- `Wrappers`, `Json`, `Records` and `Store` hold the shared vocabulary:
  - `Option` and `Result`;
  - JavaScript values and truthiness;
  - the record type and the failures;
  - the table and the lock set.

The model treats these as parameters:

- **The outside world:**
  - the user (`getUser`);
  - one clock reading per request;
  - the id a new record gets (`generateId`/`randomUUID`, or the table's uuid default);
  - the transport that answers an invocation;
  - the downstream `actions.updateRecord`.
- **User hooks** (`summary`, `beforeAction`, the per-action hooks, `afterAction`, `lockKey`, `getUsers`, `new`, `get`, `list`, `beforeInvoke`): functions of what they are given. Each returns a value or the message it throws.
- **The actor table `Bys`** (action to actor field): a parameter of the engine.

In a stored row, `None` is a NULL column. In a record being written, `None`
is a property left `undefined`, which knex's `update` does not write, so the
stored value stays (`Records.Overlay`). Where the code tells `null` from
`undefined` the model does too: the note is a `Field` (`Undefined`, `Null` or
`Defined`). An actor field the code sets to `null` holds `None` in the
record's `bys` map, and one it sets to `undefined` is left out of the map. A
record that has been given a property literally named `undefined` carries the
flag `undefinedProp`, and the store refuses to save it. JavaScript
truthiness is spelled out where the code tests it: `Present` for strings and
`PresentNum` for numbers.

### Behaviour of the code worth knowing

- **`reject` always fails.** The `Status` and `Times` tables in enum.ts:3-21 have no `reject` entry. So `reject` leaves `status` undefined and assigns the clock to `record[undefined]` (hook.ts:449-451). That stray `undefined` column makes the engine's `save()` fail, and the transaction rolls back. The predecessor's reset in hook.ts:504-510 is undone with it, unless the caller owns the transaction. See `Hook.Stamp`, `Action.SaveRefused`, `HookProperties.RejectFails` and `HookProperties.RejectResetsPrevious`.
- **The lock is kept on failure.** The code releases the lock only after a successful commit. Its `catch` block rolls back and rethrows without unlocking (hook.ts:570-588). See `HookProperties.MutateLockReleased`.
- **The engine's `saved` flag is never set.** hook.ts:442 hands `saved: () => (saved = true)` to the helpers, but `save` assigns `props.saved = true` (action.ts:70) and never calls it. So after a hook's `save()` the engine saves again (hook.ts:551). See `Hook.PerformSpec` and `HookProperties.MutateSavesHookChanges`.
- **A record the engine creates is never inserted.** `save` picks update or insert by `record.id` alone (action.ts:64-69). hook.ts:360-363 gives every new record a generated id, so the update matches no row and nothing is inserted. The draft tests (hook.test.ts:55-100) expect the row to be stored; the model follows the code. See `HookProperties.NewRecordNeverStored`.

## Model

| member | source | states |
|---|---|---|
| Enum.Status | packages/step/src/enum.ts:3-11 | `reject` has no entry; no action yields `rejected`; exactly `draft`, `unlock` and `undo` yield `draft`; only `hang` yields `hanging`, only `lock` `locked`, only `done` `done` and only `cancel` `canceled` |
| Enum.Times | packages/step/src/enum.ts:13-21 | every action but `reject` stamps a field, each its own: `draft` `createdAt`, `hang` `hangedAt`, `done` `doneAt`, `cancel` `canceledAt`, `lock` `lockedAt`, `unlock` `unlockedAt`, `undo` `undoAt` |
| Enum.TimesInjective | packages/step/src/enum.ts:13-21 | two actions of the table stamp the same field only if they are the same action |
| Enum.TimesOnto | packages/step/src/enum.ts:13-21 | every timestamp field is stamped by some action |
| Enum.ActionNameInjective | packages/step/src/hook.ts:181-193 | the wire names of the actions are distinct |
| Lang.Merge | packages/step/src/hook.ts:164-169 | a merged pack has the keys of both; the overriding pack wins on shared keys and the base keeps the rest |
| Lang.Say | packages/step/src/lang.ts:1-5 | a constant message yields its text; a missing key or a template yields nothing |
| Lang.Call | packages/step/src/lang.ts:4 | a template applied to an argument yields prefix, argument and suffix; a missing key or a constant yields nothing |
| Lang.Effective | packages/step/src/hook.ts:164-169 | the engine's pack keeps every English key, takes every given key's message, and keeps English where nothing is given |
| Lang.EnglishTexts | packages/step/src/lang.ts:1-5 | a pack that does not override them leaves `stepId is required.`, `[params] id or data is required.` and `Record#<id> not found.` |
| Records.UserId | packages/step/src/invoke.ts:74 | `user?.id` is defined exactly when there is a user, and is that user's id |
| Records.Find | packages/step/src/hook.ts:347 | the first row with the id, or none when no row has it |
| Records.SetUser | packages/step/src/action.ts:62 | `record[key] = user?.id`: the key holds the user's id with a user and is left undefined without one; other keys are kept |
| Records.Overlay | packages/step/src/action.ts:65 | `update(record)` writes every defined property and keeps the stored column for every undefined one; `null` is written |
| Records.OverlayCovered | packages/step/src/action.ts:65 | a write that defines every column the row has replaces the row by it |
| Records.OverlayTwice | packages/step/src/action.ts:65 | a second write that defines everything the first did hides the first |
| Store.Table.Load | packages/step/src/hook.ts:347 | a row is returned exactly when one has the id, and it is the first such row |
| Store.LockSet.Lock | packages/step/src/hook.ts:384-391 | the lock succeeds exactly when the key was not held, and the key is held afterwards |
| Store.LockSet.Unlock | packages/step/src/hook.ts:572-579 | the key is no longer held, and every other held key stays held |
| Invoke.DropFalsy | packages/step/src/invoke.ts:77 | `filter(Boolean)` keeps exactly the non-empty ids and never lengthens the list |
| Invoke.DropFalsyAppend | packages/step/src/invoke.ts:77 | filtering a list with one more id at its end filters the list, then keeps that id when it is non-empty |
| Invoke.DropFalsyNoEmpty | packages/step/src/invoke.ts:77 | a list without an empty id is unchanged by the filter |
| Invoke.DropFalsyNoDuplicates | packages/step/src/invoke.ts:77 | the filter introduces no duplicates |
| Invoke.NextAncestorsAppends | packages/step/src/invoke.ts:75-77 | a new, non-empty previous id is appended to a clean chain and nothing else changes |
| Invoke.NextAncestorsIdempotent | packages/step/src/invoke.ts:75-77 | chaining twice from the same record gives the same chain as chaining once |
| Invoke.NextAncestorsNoDuplicates | packages/step/src/invoke.ts:75-77 | a chain without duplicates stays without duplicates and then contains the previous id |
| Invoke.NextAncestorsExample | packages/step/src/__tests__/invoke.test.ts:30-60 | `['ancestor']` chained from `previous` gives `['ancestor', 'previous']` |
| Invoke.StepPath | packages/step/src/invoke.ts:80 | the path is `<basePath>/<stepId>/index`, with `steps` when the base path is empty or missing |
| Invoke.UnwrapRemote | packages/step/src/invoke.ts:127-135 | a reply's error rejects with its message; otherwise its data resolves; without a reply the call always rejects: with the raw body when it is truthy, with the status code otherwise |
| Invoke.UnwrapMono | packages/step/src/invoke.ts:111-119 | in mono mode a response without a reply resolves to the raw response |
| Invoke.UnwrapModesAgree | packages/step/src/invoke.ts:111-135 | the two modes settle alike exactly when the response has a reply |
| Invoke.IdArray | packages/step/src/invoke.ts:75-77 | the chain becomes a JSON array of the same ids in the same order |
| Invoke.EnvelopeForwardsRecord | packages/step/src/invoke.ts:64-67 | every record field is forwarded, except that lineage fields give way to `previous`; `action` is set unless the record names one; without `previous` nothing else is added |
| Invoke.EnvelopeCarries | packages/step/src/invoke.ts:69-86 | the transaction travels only in mono mode; the session (`{}` when absent) travels in the cookie |
| Invoke.EnvelopeLineage | packages/step/src/invoke.ts:71-78 | the request carries the previous record's id and step, its user's id exactly when there is a user, and the next ancestor chain |
| Invoke.InvokeStep | packages/step/src/invoke.ts:57-135 | sends the envelope for the props to the step's path and settles as the mode's unwrap of the response |
| Action.DataSummary | packages/step/src/action.ts:59-60 | without a summary hook the record's data is the summary |
| Action.Summarize | packages/step/src/action.ts:51-60 | the hook's value, or its error as a thrown failure; the data when there is no hook |
| Action.UpdateWhereId | packages/step/src/action.ts:65 | every row with the id gets the written record laid over it, and the others are kept; the table keeps its size |
| Action.SaveWrites | packages/step/src/action.ts:50-73 | a save stamps the summary, and `updatedBy` with the user's id or `undefined` when there is no user. A record with an id and no stray property is laid over the rows with that id: same size, `createdBy` kept, marker set, and a stored `updatedBy` kept when there is no user. One without an id is appended with `createdBy` set the same way |
| Action.SaveRefused | packages/step/src/action.ts:64-69 | once the summary is computed, a save fails exactly when the record has the stray `undefined` property or is inserted under an id already taken, and then the table and the marker are unchanged |
| Action.SaveSummaryThrows | packages/step/src/action.ts:51-58 | a throwing summary hook leaves record, marker and table unchanged |
| Action.SaveExample | packages/step/src/__tests__/action.test.ts:49-56 | saving `{ id, ancestorIds: [] }` as user `test` returns it with `summary` undefined and `updatedBy` `test` |
| Action.AppendId | packages/step/src/action.ts:85 | `concat` keeps every ancestor and appends the id, or `null` when there is none |
| Action.AidSession | packages/step/src/action.ts:79 | the cookie's session holds `aid` exactly when there is a user, and nothing else |
| Action.CreateRecordBody | packages/step/src/action.ts:80-86 | a body exists exactly when the record has an ancestor chain; otherwise `concat` on `undefined` fails |
| Action.CreateRecordBodyKeys | packages/step/src/action.ts:80-86 | the body's fields are the requested ones plus `stepId`, `previousStepId` and `ancestorIds`; `previousId` and `previousUserId` appear only when defined |
| Action.CreateRecordBodyValues | packages/step/src/action.ts:80-86 | the lineage values are this record's id, this step, the user's id and the extended chain; every other requested field is kept |
| Action.CreateRecordChainDiffers | packages/step/src/action.ts:85 | `createRecord` appends the id even when the chain already holds it, unlike `invokeStep`; the two agree otherwise |
| Action.CreateRecordExample | packages/step/src/__tests__/action.test.ts:58-72 | the exact body sent for `createRecord({ stepId: 'basic', action: 'draft', data: {} })` |
| Action.Actions.Save | packages/step/src/action.ts:50-73 | record, marker and table become what `SaveSpec` gives, and the result is the saved record or the failure |
| Action.Actions.CreateRecord | packages/step/src/action.ts:75-94 | saves first exactly when the record has no id and the marker is falsy; a failed save stops the call. Otherwise it sends the lineage body to the target step and settles as a remote call |
| HookOptions.UseStepRecordFunc | packages/step/src/hook.ts:164-171 | `lang` becomes the given pack over English and the other options are kept; a missing `stepId` throws `stepIdRequired` and nothing else does |
| Hook.WithPageDefaults | packages/step/src/hook.ts:292-298 | `pagination` becomes the defaults overridden by the given values, and no other option changes |
| Hook.Window | packages/step/src/hook.ts:311-314 | a negative offset or limit is refused; otherwise the page is the `limit` rows from `offset` on, cut at the end of the table |
| Hook.NewRecord | packages/step/src/hook.ts:360-373 | a new record has the generated id, the step id, an empty chain, an empty summary, the request's data or `{}`, `createdAt`, and the request's version when given; its note is undefined and it has no stray property |
| Hook.Resolve | packages/step/src/hook.ts:346-373 | an unknown id fails with `recordNotFound(id)`. A different version fails with `versionNotMatch`. Incoming data is merged over the stored data and nothing else changes |
| Hook.TakeLock | packages/step/src/hook.ts:375-391 | a key is taken only when `lockKey` yields a non-empty one, as `step:record:lock:<stepId>:<key>`; a key already held fails with `locked(key)` |
| Hook.CopyParams | packages/step/src/hook.ts:393-415 | `note` and actor fields are copied when truthy; the lineage only when `previousId` is; `unlockedAt` only when truthy; nothing else changes |
| Hook.CopyActorsSets | packages/step/src/hook.ts:393-405 | the loop sets exactly the given non-empty actor fields to their values |
| Hook.RunBefore | packages/step/src/hook.ts:417-434 | without `beforeAction` the extension is `options.extends`; otherwise what it returns grows the bag, and its changes to the record and the rows stay; a throw leaves `extends`, the record and the rows as they were |
| Hook.Extended | packages/step/src/hook.ts:417-434 | only `extends` changes, and an engine stays ready |
| Hook.Stamp | packages/step/src/hook.ts:449-458 | status from `Status` (undefined for `reject`); `Times[action]` stamped with the clock, or for `reject` the stray `undefined` property set; the actor field set to the user's id or null; `duration` for `done` only when `createdAt` exists; nothing else changes |
| Hook.StepRecordFunc.New | packages/step/src/hook.ts:242-251 | the `new` hook's value, or the step itself |
| Hook.StepRecordFunc.Get | packages/step/src/hook.ts:252-290 | performs `get` as `GetSpec` states it |
| Hook.StepRecordFunc.List | packages/step/src/hook.ts:291-327 | rewrites `pagination` with its defaults, then performs `list` as `ListSpec` states it |
| Hook.StepRecordFunc.Rollback | packages/step/src/hook.ts:582-587 | the engine's own transaction is rolled back; the caller's is left as it is |
| Hook.StepRecordFunc.CancelNext | packages/step/src/hook.ts:475-481 | the `for` loop sends `cancel` with `undoNote(id)` to the following records in order, and stops at the first failure |
| Hook.StepRecordFunc.RunHandler | packages/step/src/hook.ts:532-548 | the record and the table become what the hook left in them (it gets both by reference), its value or `{}` becomes the result, and a `save()` it calls then writes the table; a throw fails the action |
| Hook.StepRecordFunc.HandleWithMessage | packages/step/src/hook.ts:483-499 | the hook runs, then the message default is applied |
| Hook.StepRecordFunc.Undo | packages/step/src/hook.ts:463-501 | performs `undo` as `UndoSpec` states it: refused when a following record is done, otherwise cascade, hook, message |
| Hook.StepRecordFunc.Reject | packages/step/src/hook.ts:503-530 | performs `reject` as `RejectSpec` states it: reset of the predecessor, hook, message |
| Hook.StepRecordFunc.Dispatch | packages/step/src/hook.ts:462-549 | runs the `switch` on the action as `DispatchSpec` states it |
| Hook.StepRecordFunc.CopyActorFields | packages/step/src/hook.ts:393-405 | the `forEach` over `note` and the actor fields |
| Hook.StepRecordFunc.LoadOrCreate | packages/step/src/hook.ts:342-373 | loads or creates the record as `Resolve` states it |
| Hook.StepRecordFunc.AcquireLock | packages/step/src/hook.ts:375-391 | the held keys and the failure are as `TakeLock` states them |
| Hook.StepRecordFunc.ApplyParams | packages/step/src/hook.ts:393-415 | copies the request's fields as `CopyParams` states it |
| Hook.StepRecordFunc.BeforeAction | packages/step/src/hook.ts:417-434 | the bag, `options.extends`, the record and the table become what `RunBefore` gives, and no other option changes |
| Hook.StepRecordFunc.StampAction | packages/step/src/hook.ts:449-458 | the shared record becomes the stamped record and the marker is kept |
| Hook.StepRecordFunc.SaveStep | packages/step/src/hook.ts:551 | the engine's `save()` changes record, marker and table as `SaveSpec` does, and counts one save |
| Hook.StepRecordFunc.FinishStep | packages/step/src/hook.ts:553-568 | `result.id` defaults to the record's id, then `afterAction` runs on the record and the transaction: the table becomes what it left, and a throw fails the action |
| Hook.StepRecordFunc.Complete | packages/step/src/hook.ts:551-568 | the engine's save, then the result defaults |
| Hook.StepRecordFunc.Perform | packages/step/src/hook.ts:460-568 | the action's own step, the engine's save and the result defaults, as `PerformSpec` states them |
| Hook.StepRecordFunc.Prepare | packages/step/src/hook.ts:342-434 | load or create, lock, copy and `beforeAction`, as `FrontSpec` states them |
| Hook.StepRecordFunc.Mutate | packages/step/src/hook.ts:329-588 | result, table, held keys, `extends`, requests sent and saves are exactly what `MutateSpec` gives |
| HookProperties.ResetPreviousRows | packages/step/src/hook.ts:504-510 | the rows of the predecessor become `draft`; a `null` or set note replaces theirs and an `undefined` one keeps it; no other row changes and the ids stay in place |
| HookProperties.SaveStageWrites | packages/step/src/hook.ts:551 | a save of a record with an id fails exactly when the summary hook throws or the record has the stray property, and then writes nothing; otherwise the saved record is laid over that record's rows |
| HookProperties.HandlerWrites | packages/step/src/hook.ts:532-548 | a hook that hands back the record and the rows it was given changes them only through the `save()` it may call |
| HookProperties.DispatchWrites | packages/step/src/hook.ts:462-549 | with such a hook, besides `reject`'s reset of its predecessor, only saves of this record touch the table |
| HookProperties.UndoWrites | packages/step/src/hook.ts:463-501 | with such a hook, `undo` touches the record and the table only through its hook's `save()` |
| HookProperties.RejectWrites | packages/step/src/hook.ts:503-530 | with such a hook, `reject` touches the record and the reset table only through its hook's `save()` |
| HookProperties.CompleteWrites | packages/step/src/hook.ts:551-568 | with an `afterAction` that hands back the rows, the engine's save lays the saved record over the record's rows |
| HookProperties.FinishKeeps | packages/step/src/hook.ts:553-568 | the result defaults and `afterAction` change only the result and the rows; an `afterAction` that hands back the rows leaves them |
| HookProperties.PerformWrites | packages/step/src/hook.ts:460-568 | with hooks that hand back what they were given, after success every row of the record has the stamped record laid over it, changed by the saves only in summary and `updatedBy`; other rows are as `reject` left them |
| HookProperties.PerformKeepsIds | packages/step/src/hook.ts:460-568 | with such hooks, no stage adds, removes or moves a row while the record carries an id |
| HookProperties.PerformSetsId | packages/step/src/hook.ts:553 | with a hook that hands back what it was given, a finished action's result has a truthy `id` whenever the record has one |
| HookProperties.SaveStageStray | packages/step/src/hook.ts:551 | a `save()` of a record with the stray `undefined` property always fails |
| HookProperties.PerformStray | packages/step/src/hook.ts:449-551 | an action whose record carries the stray property fails, whatever its hooks do |
| HookProperties.FinishSetsId | packages/step/src/hook.ts:553 | a truthy `id` from the hook is kept; otherwise the record's id is used |
| HookProperties.NextRecordsMembers | packages/step/src/hook.ts:464-470 | the following records are exactly the rows naming this record as previous whose status is set and not `canceled` |
| HookProperties.CascadeSends | packages/step/src/hook.ts:475-481 | the requests are an ordered prefix of one `cancel` per following record; each one before the last succeeded; the cascade ends cleanly exactly when all were sent and succeeded |
| HookProperties.MutateNeedsIdOrData | packages/step/src/hook.ts:330-331 | neither `id` nor `data` fails with `idOrDataRequired`, with table, locks and extension untouched |
| HookProperties.MutateUnknownId | packages/step/src/hook.ts:346-349 | an id that loads nothing fails with `recordNotFound(id)` and touches nothing |
| HookProperties.MutateStaleVersion | packages/step/src/hook.ts:351-355 | a numeric version other than the stored one fails with `versionNotMatch` before any field or lock is touched |
| HookProperties.PreparedRecord | packages/step/src/hook.ts:342-434 | when `beforeAction` hands back what it was given, the prepared record is the loaded or new record with the request's fields copied onto it, and the rows are the table |
| HookProperties.MutateStoresStamped | packages/step/src/hook.ts:346-551 | with hooks that hand back what they were given, a successful action on a stored record lays the stamped record over its rows, changed by the saves only in summary and `updatedBy`; the table keeps its size and no other row changes |
| HookProperties.NewRecordNeverStored | packages/step/src/hook.ts:359-373 | with such hooks, a record the action creates is never inserted, and a successful action leaves the table exactly as it was |
| HookProperties.MutateSavesHookChanges | packages/step/src/hook.ts:532-551 | a successful action other than `undo` and `reject`, with a hook and no `afterAction`, saves the record its hook left (its changes to `data`, say) into the table the hook left, after the hook's own `save()` when it called one |
| HookProperties.MutateRows | packages/step/src/hook.ts:329-588 | the table afterwards is the one the stages left, or the old one after a rolled-back failure |
| HookProperties.MutateReturnsId | packages/step/src/hook.ts:553 | with such hooks, every successful action's result carries a truthy `id` |
| HookProperties.MutateRollsBack | packages/step/src/hook.ts:582-587 | a failed action leaves the table as it was unless the caller owns the transaction |
| HookProperties.MutateLockContended | packages/step/src/hook.ts:384-391 | a held lock key fails with `locked(key)`; table and held keys stay as they were |
| HookProperties.MutateWithoutLockKey | packages/step/src/hook.ts:377-384 | without a lock key the held keys are not touched |
| HookProperties.MutateLockReleased | packages/step/src/hook.ts:570-588 | a lock the action took is released after success and stays held after any later failure |
| HookProperties.UndoBlocked | packages/step/src/hook.ts:472-473 | `undo` with a following record already done fails with `undoFailed`: nothing sent, nothing saved, the table as `beforeAction` left it in the caller's transaction and untouched otherwise |
| HookProperties.UndoCancelsFollowing | packages/step/src/hook.ts:475-481 | otherwise `undo` sends the cascade over the following records with `undoNote(id)`, and a failing request fails the action |
| HookProperties.RejectFails | packages/step/src/hook.ts:449-451 | every `reject` fails |
| HookProperties.RejectResetsPrevious | packages/step/src/hook.ts:503-510 | a `reject` without its own hook fails with the store's error after one save; the predecessor's return to `draft` (a `null` note clears theirs, an `undefined` one keeps it) survives only in the caller's transaction, and other rows are untouched |
| HookProperties.UndoHooklessReply | packages/step/src/hook.ts:483-553 | a successful `undo` with no hook of its own, and a `beforeAction` that hands back what it was given, replies with `undoSuccess` and the record's id |
| HookProperties.GetNeedsId | packages/step/src/hook.ts:253 | `get` without a truthy id fails with `idRequired`, whatever else is configured |
| HookProperties.GetReturnsStored | packages/step/src/hook.ts:255-289 | without a `get` hook: the stored record (or none) with the users of its actor ids; `getUsers` on a missing record fails |
| HookProperties.ActorIdsMembers | packages/step/src/hook.ts:272-281 | the ids sent to `getUsers` are exactly the truthy actor fields |
| HookProperties.StepRowsMembers | packages/step/src/hook.ts:308-309 | the listed rows are exactly the stored rows of this step |
| HookProperties.PageDefaultsKeepGiven | packages/step/src/hook.ts:292-298 | page 1 of 10 rows by default; a value the user gives wins |
| HookProperties.PagesTile | packages/step/src/hook.ts:308-326 | with a positive page size, the `k`-th record of the step is at position `k % size` of page `k / size + 1`; the total is the step's record count |
| HookProperties.PageBeforeFirst | packages/step/src/hook.ts:311-314 | a page number below 1 with a positive page size gives a negative offset, which the store refuses |
| Builder.BuildHook | packages/step/src/builder.ts:28-41 | the step's options get the merged `lang` in place when both sides have one; the engine starts on the builder's options overridden by the step's |
| Builder.StepLangRewritten | packages/step/src/builder.ts:31-35 | the rewritten pack has both sides' keys; the step's messages win and the builder fills the rest |
| Builder.BuiltPack | packages/step/src/builder.ts:31-40 | the engine's pack is English overridden by the merged pack, or by whichever side gave one |
| Builder.BuiltLangPrecedence | packages/step/src/builder.ts:31-40 | for every key: the step's message, else the builder's, else English |
| Builder.BuiltOptionsOverride | packages/step/src/builder.ts:37-40 | every option other than `lang` is the step's when it gives one, the builder's otherwise |
| Builder.StepIdMissingExample | packages/step/src/__tests__/builder.test.ts:21-27 | a builder pack renaming `stepIdRequired` makes a step without `stepId` throw `stepId is missing.` |
| Builder.BuildInvoke | packages/step/src/builder.ts:76-85 | `beforeInvoke` changes the call's props in place; the step is then invoked with the defaults overridden by those props |
| Builder.BeforeInvokeReaches | packages/step/src/builder.ts:79-84 | what `beforeInvoke` leaves is sent: its session, its record fields, and its `basePath` over the default |
| Builder.BeforeInvokeThrows | packages/step/src/builder.ts:79 | a throwing `beforeInvoke` stops the call with its message, and nothing is sent |
| Builder.SessionFromBeforeInvoke | packages/step/src/builder.ts:57-61 | a `beforeInvoke` that sets the session makes the request carry that session |
| SetStepRecord.NewRecord | packages/step/src/index.ts:63-68 | the record for a request without id holds only `stepId` and the request's `data`, with `summary` null |
| SetStepRecord.SetStepRecord | packages/step/src/index.ts:50-89 | the error and the table after the transaction are what `SetSpec` gives |
| SetStepRecord.SetValidatesAction | packages/step/src/__tests__/index.test.ts:14-39 | a missing action, or one outside the six accepted, is refused first; `undo` and `reject` always fail |
| SetStepRecord.SetNeedsStepIdAndIdOrData | packages/step/src/index.ts:51-54 | a missing `stepId` fails with `stepId is required`; then neither `id` nor `data` fails with `[params] id or data is required.`; the table is untouched |
| SetStepRecord.SetUnknownId | packages/step/src/index.ts:59-62 | an id naming no row fails with `Record#<id> not found.` and the table is untouched |
| SetStepRecord.SetOtherActionsInert | packages/step/src/index.ts:82-88 | the accepted actions other than `draft` change no row and save nothing, and succeed whenever the record exists |
| SetStepRecord.SetRollsBack | packages/step/src/index.ts:56-89 | any failure leaves the table as it was, with nothing saved |
| SetStepRecord.DraftUpdatesStored | packages/step/src/index.ts:70-88 | `draft` on a stored record rewrites the row it loaded: status `draft`, the callback's summary, the stored `data`, timestamps and actors kept; rows with other ids are kept |
| SetStepRecord.DraftInsertsNew | packages/step/src/index.ts:63-88 | `draft` without an id appends exactly one row with the generated id, `stepId`, the request's data, status `draft` and the callback's summary (or null) |
| SetStepRecord.DraftDuplicateKey | packages/step/src/index.ts:77-78 | an insert under an id already in the table is refused and rolled back |
| SetStepRecord.DraftSummaryThrows | packages/step/src/index.ts:71-74 | a throwing summary callback fails the request with its message and saves nothing |
| SetStepRecord.DraftExample | packages/step/src/__tests__/index.test.ts:43-60 | `draft` of `{ productName: 'name' }` with a summary of the product name stores a `draft` summarized `name` |

## Left out

- **The HTTP layer.** Param parsing, the validator's wiring (its `actionRequired`/`actionMustBeIn` keys) and response status codes are left out. `SetStepRecord` keeps the texts and the accepted-action set of its validator; the engine takes the action as already one of the eight.
- **Session and cookie encoding.** The request carries the session as data; encoding it into the cookie is not modelled.
- **Module loading in mono mode.** Module loading and the require cache are left out. The transport stands for the handler that answers.
- **`steps` table lookup.** The step row (`steps.where(id).first()`) is a parameter of the read actions.
- **Row ordering.** `list` orders by `createdAt` descending; the model keeps storage order. The count is a number, not the driver's string.
- **Store types.** Knex column types, JSON encoding and `returning('*')` are left out. The table is a sequence of records with unique ids. Timestamps are integers read from one clock per request.
- **Cache TTL and concurrency.** The Redis TTL and concurrent invocations are not modelled; a lock is a set of held keys.
- **`afterMount`, `knexTransactionConfig` and console logging** have no effect on the modelled state.
- **Missing definitions.** `actions.updateRecord`, the `Bys` table, and the lang keys the English pack lacks are not defined in the source. They are parameters (a function, an engine parameter, a pack lookup that may yield nothing), and no text is assumed.
- **`createRecord` inside the engine.** Hooks are functions of the record and the bag. The `createRecord` a hook may call is modelled on its own, in `Action.Actions.CreateRecord`, but is not wired into the engine's hooks.
- **`save`'s reload.** `save` merges back the row the store returns. That merge is taken as the written record itself. Column defaults on insert, and which columns the table has, are not modelled; only the stray `undefined` property is refused.
- **`cf` and `http` options.** In `buildInvoke` these are the transport here, so call-site values overriding them are not modelled separately.
- **Spread over an undefined value.** An explicit `basePath: undefined` in the call's props is treated as absent, although a JavaScript spread would copy it.
- **What hooks do to shared objects.** Hooks get the record and the transaction by reference. Here each hook hands back the record and the rows it leaves. Its changes count as made before the `save()` it calls, and it calls `save()` at most once. A hook that throws is taken to have changed nothing; the rollback covers the table, but changes to the shared record before the throw are not modelled.
- **The shared `extends` bag.** `buildHook` starts each engine on `{...builderOptions, ...options}` (builder.ts:37-40), which copies only the reference to the builder's `extends` object. `beforeAction` grows that object in place with `Object.assign` (hook.ts:417-434), so what one step's `beforeAction` returns reaches the hooks of every other step built from the same builder, including steps built later. Here `Builder.BuildHook` takes the builder's options as a value, and `Hook.StepRecordFunc.Mutate` grows only its own engine's `extends` (`Hook.Extended`). Each engine therefore has its own copy of the bag, and that aliasing is not modelled.
- **The stray property and hooks.** No hook adds or removes the property named `undefined`: the engine keeps its own flag on the record a hook leaves.
- **Hooks that only read.** The `summary`, `lockKey`, `getUsers`, `new`, `get` and `list` hooks return values and write nothing.
- **`save()` from `afterAction`.** `afterAction` is given the helpers too. Its writes are the rows it leaves, but a `save()` it calls is not counted in `saves`.
- **Numbers.** JSON numbers are integers here (`JNum`); fractions and floating point are not modelled.
- **`beforeInvoke` that throws.** A `beforeInvoke` that throws is taken to have changed nothing, though it may have changed the props before throwing.
- **JSON `null` in the request.** A request field holding `null` is treated as absent.
- HookProperties.HandlerWrites: stated for a hook that hands back the record and the rows it was given; `MutateSavesHookChanges` covers a hook that changes them.
- HookProperties.DispatchWrites: the same premise as `HandlerWrites`.
- HookProperties.UndoWrites: the same premise as `HandlerWrites`.
- HookProperties.RejectWrites: the same premise as `HandlerWrites`.
- HookProperties.CompleteWrites: stated for an `afterAction` that hands back the rows; `FinishKeeps` covers any `afterAction`.
- HookProperties.PerformWrites: stated for hooks that hand back what they were given.
- HookProperties.PerformKeepsIds: stated for hooks that hand back what they were given.
- HookProperties.PerformSetsId: stated for a hook that hands back the record it was given.
- HookProperties.PreparedRecord: stated for a `beforeAction` that hands back what it was given; `Hook.RunBefore` covers any `beforeAction`.
- HookProperties.MutateStoresStamped: stated for hooks that hand back what they were given; `MutateSavesHookChanges` covers a hook that changes the record.
- HookProperties.NewRecordNeverStored: stated for hooks that hand back what they were given; a hook may itself write the table.
- HookProperties.MutateReturnsId: stated for hooks that hand back what they were given.
- HookProperties.UndoHooklessReply: stated for a `beforeAction` that hands back what it was given.
- **Message functions in a user pack.** A message that is a function of an argument is modelled as prefix, argument and suffix (`Lang.Template`). That is exact for the English `recordNotFound`; other message functions a user pack may give are not represented.
