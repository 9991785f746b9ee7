/** The PostgreSQL unit of work: a single-use transaction whose append runs four statements while others
    commit in between. */
module EpisodeUnitOfWork {
  import opened Kernel
  import opened Text
  import opened EpisodeStore
  import opened EpisodeTransactions

  class PostgresDatabase {
    var tables: Tables

    constructor ()
      ensures tables == NO_ROWS
    {
      tables := NO_ROWS;
    }
  }

  /** What is committed after the others' commit number `n`. */
  function After(others: (nat, Tables) -> Tables, t: Tables, n: nat): Tables {
    others(n, if n == 0 then t else After(others, t, n - 1))
  }

  class PostgresUnitOfWork {
    const database: PostgresDatabase
    const hash: IndexKey -> int
    var entered: bool
    var active: bool
    var committed: bool
    var rows: Tables
    var locks: set<int>

    constructor (database: PostgresDatabase, hash: IndexKey -> int)
      ensures this.database == database && this.hash == hash && !entered && !active && !committed && rows == NO_ROWS && locks == {}
    {
      this.database, this.hash := database, hash;
      entered, active, committed, rows, locks := false, false, false, NO_ROWS, {};
    }

    /** Why an operation cannot be used now, if it cannot. */
    function Unusable(): Option<MemoryError>
      reads this
    {
      if !active then Some(NotActive) else if committed then Some(AlreadyCommitted) else None
    }

    method Enter() returns (r: Result<(), MemoryError>)
      modifies this
      ensures old(entered) ==> r == Err(AlreadyEntered) && unchanged(this)
      ensures !old(entered) ==> r == Ok(()) && entered && active && !committed && rows == NO_ROWS && locks == {}
    {
      if entered {
        return Err(AlreadyEntered);
      }
      entered, active, committed, rows, locks := true, true, false, NO_ROWS, {};
      r := Ok(());
    }

    /** Others commit between the statements; every statement sees what is committed then and its own rows. */
    method Append(e: Episode, others: (nat, Tables) -> Tables) returns (r: Result<AppendResult, Failure>)
      modifies this`rows, this`locks, database
      ensures old(Unusable()).Some? ==> r == Err(Refused(old(Unusable()).value)) && unchanged(this) && unchanged(database)
      ensures old(Unusable()).None? ==>
                var t := seq(4, n requires 0 <= n < 4 => After(others, old(database.tables), n));
                var end := Appending(Transaction([], [], old(rows), old(locks) + {hash(KeyOf(e))}, Locked(e)), t, e);
                && rows == end.rows && locks == end.locks
                && (end.stage.Failed? ==> r == Err(end.stage.failure))
                && (!end.stage.Failed? ==> end.stage == Idle && r.Ok? && end.answers == [Appended(r.value)])
    {
      if Unusable().Some? {
        return Err(Refused(Unusable().value));
      }
      var key := KeyOf(e);
      locks := locks + {hash(key)};
      database.tables := others(0, database.tables);
      var existing := With(database.tables, rows).index;
      if key in existing {
        if existing[key].request != e.request {
          return Err(Refused(IdempotencyConflict));
        }
        return Ok(AppendResult(existing[key].episode, false));
      }
      database.tables := others(1, database.tables);
      if Clashes(With(database.tables, rows).episodes, e) {
        return Err(UniqueViolation);
      }
      rows := rows.(episodes := rows.episodes + [e]);
      database.tables := others(2, database.tables);
      if key in With(database.tables, rows).index {
        database.tables := others(3, database.tables);
        var conflicting := With(database.tables, rows).index;
        if key !in conflicting {
          return Err(RowVanished);
        }
        if conflicting[key].request != e.request {
          return Err(Refused(IdempotencyConflict));
        }
        return Ok(AppendResult(conflicting[key].episode, false));
      }
      rows := rows.(index := rows.index[key := Row(e.id, e.request)]);
      r := Ok(AppendResult(e.id, true));
    }

    /** Publishes an event that is not about a claim. */
    method PublishEvent(event: Envelope) returns (r: Result<(), MemoryError>)
      requires event.kind != ClaimProposed
      modifies this`rows
      ensures Unusable().Some? ==> r == Err(Unusable().value) && rows == old(rows)
      ensures Unusable().None? ==>
                var end := AfterPublish(Transaction([], [], old(rows), locks, Idle), With(database.tables, old(rows)), event);
                rows == end.rows && (r.Ok? <==> end.stage == Idle) && (r.Err? ==> end.stage == Failed(Refused(r.error)))
    {
      if Unusable().Some? {
        return Err(Unusable().value);
      }
      if event.kind == EpisodeRecorded {
        var seen := With(database.tables, rows).episodes;
        if !(exists x :: x in seen && x.id == event.aggregate) {
          return Err(AggregateUnknown);
        }
        if !(exists x :: x in seen && x.id == event.aggregate && TenantOf(x) == event.tenant) {
          return Err(TenantMismatch);
        }
      }
      rows := rows.(events := rows.events + [event]);
      r := Ok(());
    }

    /** Makes the transaction's rows part of the tables. */
    method CommitWork() returns (r: Result<(), MemoryError>)
      modifies this`committed, database
      ensures old(Unusable()).Some? ==> r == Err(old(Unusable()).value) && committed == old(committed) && unchanged(database)
      ensures old(Unusable()).None? ==> r == Ok(()) && committed && database.tables == With(old(database.tables), rows)
    {
      if Unusable().Some? {
        return Err(Unusable().value);
      }
      database.tables := With(database.tables, rows);
      committed := true;
      r := Ok(());
    }

    /** Gives the connection back; rows that were not committed are rolled back. */
    method Exit() returns (r: Result<(), MemoryError>)
      modifies this`active, this`rows, this`locks
      ensures !old(active) ==> r == Err(NotActive) && unchanged(this)
      ensures old(active) ==> r == Ok(()) && !active && rows == NO_ROWS && locks == {}
    {
      if !active {
        return Err(NotActive);
      }
      active, rows, locks := false, NO_ROWS, {};
      r := Ok(());
    }
  }
}
