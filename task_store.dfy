/** The shared state the task routes and the task service work on: the
    `tasks` table, the id the table will give its next row, and the
    process-wide listing cache. */
module Store {
  import opened Common
  import opened Models
  import opened Listing

  /** A listing's cache key: the owner and the page number only; page size
      and `done` filter are not part of it. */
  datatype CacheKey = CacheKey(userId: int, page: int)

  class TaskStore {
    var tasks: map<int, Task>
    var nextId: int
    var cache: map<CacheKey, Page>

    /** Every row is stored under its own id, and ids are positive and below
        the next one to be given out. */
    ghost predicate Valid()
      reads this
    {
      && nextId >= 1
      && KeyedById(tasks)
      && forall k :: k in tasks ==> 1 <= k < nextId
    }

    constructor ()
      ensures Valid() && tasks == map[] && nextId == 1 && cache == map[]
    {
      tasks := map[];
      nextId := 1;
      cache := map[];
    }
  }

  /** `Task.query.filter_by(id=id, user_id=owner).first()`, as a lookup of
      the row stored under `id`. */
  function Find(tasks: map<int, Task>, owner: int, id: int): Option<Task> {
    if id in tasks && tasks[id].userId == owner then Some(tasks[id]) else None
  }

  /** The keyed lookup answers the query on the columns: it finds a row
      exactly when some stored row has that id and that owner, and the row
      it finds is one of them. */
  lemma FindMatchesQuery(tasks: map<int, Task>, owner: int, id: int)
    requires KeyedById(tasks)
    ensures Find(tasks, owner, id).Some? <==> exists k :: k in tasks && tasks[k].id == id && tasks[k].userId == owner
    ensures Find(tasks, owner, id).Some? ==>
      && (exists k :: k in tasks && tasks[k] == Find(tasks, owner, id).value)
      && Find(tasks, owner, id).value.id == id
      && Find(tasks, owner, id).value.userId == owner
  {
  }

  /** Isolation: a task owned by one user is invisible to every other user,
      exactly as if it did not exist. */
  lemma FindIsolates(tasks: map<int, Task>, owner: int, id: int)
    requires id in tasks && tasks[id].userId != owner
    ensures Find(tasks, owner, id) == Find(tasks - {id}, owner, id) == None
  {
  }
}
