/**
 * The two shared resources: the `step_records` table as one transaction
 * sees it, and the set of lock keys held in the cache.
 */
module Store {
  import opened Wrappers
  import opened Records

  /** The `step_records` table; rows are kept in storage order. */
  class Table {
    var rows: seq<StepRecord>

    constructor (rows: seq<StepRecord>)
      ensures this.rows == rows
    {
      this.rows := rows;
    }

    /** `trx('step_records').where('id', id).first()` */
    method Load(id: string) returns (r: Option<StepRecord>)
      ensures r.Some? <==> Find(rows, id).Some?
      ensures r.Some? ==> r.value == rows[Find(rows, id).value]
    {
      var k := Find(rows, id);
      r := if k.Some? then Some(rows[k.value]) else None;
    }
  }

  /** The lock keys currently held (`redis.lock` / `redis.unlock`, without the TTL). */
  class LockSet {
    var held: set<string>

    constructor (held: set<string>)
      ensures this.held == held
    {
      this.held := held;
    }

    /** Takes the key unless it is already held. */
    method Lock(key: string) returns (ok: bool)
      modifies this
      ensures ok <==> key !in old(held)
      ensures held == old(held) + {key}
    {
      ok := key !in held;
      held := held + {key};
    }

    method Unlock(key: string)
      modifies this
      ensures held == old(held) - {key}
    {
      held := held - {key};
    }
  }
}
