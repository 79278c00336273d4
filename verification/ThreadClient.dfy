/** The maps as the client keeps them: lock entries are objects, the goals are a map. */
module ThreadClient {
  import opened ThreadTables

  /** One entry of the lock map; its mutex is in `ThreadExclusion`. */
  class ThreadStartLock {
    var users: int

    constructor ()
      ensures users == 0
    {
      users := 0;
    }
  }

  /** The client's shared maps; `store` lists every lock entry made, in order. */
  class Client {
    var threadLocks: map<string, ThreadStartLock>
    var goals: map<string, nat>
    ghost var store: seq<ThreadStartLock>
    ghost var tables: Tables

    ghost predicate Valid()
      reads this, store
    {
      && WellFormed(tables)
      && goals == tables.goals
      && |store| == |tables.users|
      && (forall i :: 0 <= i < |store| ==> store[i].users == tables.users[i])
      && (forall i, j :: 0 <= i < j < |store| ==> store[i] != store[j])
      && (forall th :: th in threadLocks <==> th in tables.locks)
      && (forall th :: th in threadLocks ==> threadLocks[th] == store[tables.locks[th]])
    }

    constructor ()
      ensures Valid() && tables == NO_TABLES && store == []
    {
      threadLocks, goals, store, tables := map[], map[], [], NO_TABLES;
    }

    method ThreadLock(thread: string) returns (entry: ThreadStartLock)
      requires Valid()
      modifies this, store
      ensures Valid() && tables == JoinLock(old(tables), thread).0
      ensures thread in threadLocks && entry == threadLocks[thread] == store[JoinLock(old(tables), thread).1]
      ensures store == old(store) || (fresh(entry) && store == old(store) + [entry])
    {
      ghost var joined := JoinLock(tables, thread);
      if thread in threadLocks {
        entry := threadLocks[thread];
      } else {
        entry := new ThreadStartLock();
        threadLocks := threadLocks[thread := entry];
        store := store + [entry];
      }
      entry.users := entry.users + 1;
      tables := joined.0;
    }

    method ReleaseThreadLock(thread: string, entry: ThreadStartLock, ghost lock: nat)
      requires Valid() && lock < |store| && store[lock] == entry
      modifies this`threadLocks, this`tables, entry
      ensures Valid() && tables == LeaveLock(old(tables), thread, lock)
    {
      ghost var left := LeaveLock(tables, thread, lock);
      entry.users := entry.users - 1;
      if entry.users == 0 {
        threadLocks := threadLocks - {thread};
      }
      tables := left;
    }

    /** The check of startTurn. */
    method HasGoal(thread: string) returns (present: bool)
      requires Valid()
      ensures present <==> thread in tables.goals
    {
      present := thread in goals;
    }

    /** The check and insertion of StartGoal. */
    method AddGoal(thread: string, op: nat) returns (entered: bool)
      requires Valid()
      modifies this`goals, this`tables
      ensures Valid() && (tables, entered) == EnterGoal(old(tables), thread, op)
    {
      entered := thread !in goals;
      if entered {
        goals := goals[thread := op];
        tables := tables.(goals := goals);
      }
    }

    method DeleteGoalEntry(thread: string)
      requires Valid()
      modifies this`goals, this`tables
      ensures Valid() && tables == DeleteGoal(old(tables), thread)
    {
      goals := goals - {thread};
      tables := tables.(goals := goals);
    }
  }
}
