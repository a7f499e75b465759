/**
 * The record actions and statuses, and the two static action tables of
 * packages/step/src/enum.ts: `Status` (action to resulting status) and
 * `Times` (action to the timestamp field it stamps).
 *
 * The action type the engine dispatches on has eight members (it includes
 * `reject`); the tables were written for the seven-action type and have no
 * `reject` entry, so a lookup of `reject` yields `undefined` (None here).
 */
module Enum {
  import opened Wrappers

  datatype Action = Draft | Hang | Done | Cancel | Lock | Unlock | Undo | Reject

  datatype RecordStatus = Draft | Hanging | Locked | Done | Canceled | Rejected

  datatype TimeField = CreatedAt | HangedAt | DoneAt | CanceledAt | LockedAt | UnlockedAt | UndoAt

  /** The action's name on the wire (the `action` request parameter). */
  function ActionName(a: Action): string {
    match a
    case Draft => "draft"
    case Hang => "hang"
    case Done => "done"
    case Cancel => "cancel"
    case Lock => "lock"
    case Unlock => "unlock"
    case Undo => "undo"
    case Reject => "reject"
  }

  /** The seven actions the tables cover. */
  predicate InTables(a: Action) {
    a != Action.Reject
  }

  /** `Status[action]`. */
  function Status(a: Action): (s: Option<RecordStatus>)
    ensures s.Some? <==> InTables(a)
    ensures s != Some(RecordStatus.Rejected)
    ensures s == Some(RecordStatus.Draft) <==> a in {Action.Draft, Action.Unlock, Action.Undo}
    ensures s == Some(RecordStatus.Done) <==> a == Action.Done
    ensures s == Some(RecordStatus.Canceled) <==> a == Action.Cancel
    ensures s == Some(Hanging) <==> a == Action.Hang
    ensures s == Some(Locked) <==> a == Action.Lock
  {
    match a
    case Draft => Some(RecordStatus.Draft)
    case Hang => Some(Hanging)
    case Done => Some(RecordStatus.Done)
    case Cancel => Some(Canceled)
    case Lock => Some(Locked)
    case Unlock => Some(RecordStatus.Draft)
    case Undo => Some(RecordStatus.Draft)
    case Reject => None
  }

  /** `Times[action]`. */
  function Times(a: Action): (f: Option<TimeField>)
    ensures f.Some? <==> InTables(a)
    ensures f == Some(CreatedAt) <==> a == Action.Draft
    ensures f == Some(HangedAt) <==> a == Action.Hang
    ensures f == Some(DoneAt) <==> a == Action.Done
    ensures f == Some(CanceledAt) <==> a == Action.Cancel
    ensures f == Some(LockedAt) <==> a == Action.Lock
    ensures f == Some(UnlockedAt) <==> a == Action.Unlock
    ensures f == Some(UndoAt) <==> a == Action.Undo
  {
    match a
    case Draft => Some(CreatedAt)
    case Hang => Some(HangedAt)
    case Done => Some(DoneAt)
    case Cancel => Some(CanceledAt)
    case Lock => Some(LockedAt)
    case Unlock => Some(UnlockedAt)
    case Undo => Some(UndoAt)
    case Reject => None
  }

  /** Every action of the tables stamps its own timestamp field. */
  lemma TimesInjective(a: Action, b: Action)
    requires InTables(a) && InTables(b) && Times(a) == Times(b)
    ensures a == b
  {
  }

  /** Every timestamp field is stamped by some action. */
  lemma TimesOnto(f: TimeField)
    ensures exists a :: Times(a) == Some(f)
  {
    match f
    case CreatedAt => assert Times(Action.Draft) == Some(f);
    case HangedAt => assert Times(Hang) == Some(f);
    case DoneAt => assert Times(Action.Done) == Some(f);
    case CanceledAt => assert Times(Cancel) == Some(f);
    case LockedAt => assert Times(Lock) == Some(f);
    case UnlockedAt => assert Times(Unlock) == Some(f);
    case UndoAt => assert Times(Undo) == Some(f);
  }

  /** Wire names are distinct, so an action is recovered from its name. */
  lemma ActionNameInjective(a: Action, b: Action)
    requires ActionName(a) == ActionName(b)
    ensures a == b
  {
  }
}
