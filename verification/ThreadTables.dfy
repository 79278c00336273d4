/** The two maps of the client that keep turns and goals of one thread apart, and what its critical sections do to them. */
module ThreadTables {

  /** The two maps of the client. A lock entry is an index into `users`, an operation is a number. */
  datatype Tables = Tables(locks: map<string, nat>, users: seq<int>, goals: map<string, nat>)

  const NO_TABLES := Tables(map[], [], map[])

  ghost predicate WellFormed(s: Tables) {
    forall th :: th in s.locks ==> s.locks[th] < |s.users|
  }

  /** threadLock: a thread without an entry gets a new one; the caller is counted. */
  function JoinLock(s: Tables, thread: string): (Tables, nat)
    requires WellFormed(s)
  {
    if thread in s.locks then
      var l := s.locks[thread];
      (s.(users := s.users[l := s.users[l] + 1]), l)
    else
      (s.(locks := s.locks[thread := |s.users|], users := s.users + [1]), |s.users|)
  }

  /** releaseThreadLock: the last user takes the entry out of the map. */
  function LeaveLock(s: Tables, thread: string, lock: nat): Tables
    requires lock < |s.users|
  {
    var left := s.(users := s.users[lock := s.users[lock] - 1]);
    if left.users[lock] == 0 then left.(locks := s.locks - {thread}) else left
  }

  /** StartGoal's critical section: the operation is entered unless the thread has one. */
  function EnterGoal(s: Tables, thread: string, op: nat): (Tables, bool) {
    if thread in s.goals then (s, false) else (s.(goals := s.goals[thread := op]), true)
  }

  /** unregisterGoal deletes by thread id, whatever operation is there. */
  function DeleteGoal(s: Tables, thread: string): Tables {
    s.(goals := s.goals - {thread})
  }
}
