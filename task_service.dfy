/** The task service: the route logic for creating and partially updating a
    task, on data that is already validated. Neither function catches a
    failing commit; the model returns None for it, with nothing changed. */
module TaskService {
  import opened Common
  import opened Validation
  import opened Models
  import opened Store

  /** `create_task(user_id, data)`: inserts a task owned by `userId` with the
      title from `data` and `done` defaulting to false (`description` is
      never set), commits, empties the cache and returns the new task. */
  method CreateTask(store: TaskStore, userId: int, data: CreatePatch, commitOk: bool) returns (r: Option<Task>)
    requires store.Valid()
    modifies store
    ensures store.Valid()
    ensures !commitOk ==> r == None && unchanged(store)
    ensures commitOk ==>
      && old(store.nextId) !in old(store.tasks)
      && r == Some(Created(old(store.nextId), userId, data))
      && r.value.userId == userId && r.value.title == data.title && r.value.description == None
      && r.value.done == (data.done == Some(true))
      && store.tasks == old(store.tasks)[old(store.nextId) := r.value]
      && store.nextId == old(store.nextId) + 1
      && store.cache == map[]
  {
    if !commitOk {
      r := None;
      return;
    }
    var task := Created(store.nextId, userId, data);
    store.tasks := store.tasks[store.nextId := task];
    store.nextId := store.nextId + 1;
    store.cache := map[];
    r := Some(task);
  }

  /** `update_task(task, data)`: assigns `title` only if `data` carries it
      and `done` only if `data` carries it, commits, empties the cache (also
      for empty `data`) and returns the task. The caller passes a task that
      exists. */
  method UpdateTask(store: TaskStore, id: int, data: UpdatePatch, commitOk: bool) returns (r: Option<Task>)
    requires store.Valid() && id in store.tasks
    modifies store
    ensures store.Valid()
    ensures !commitOk ==> r == None && unchanged(store)
    ensures commitOk ==>
      && r == Some(Patched(old(store.tasks)[id], data))
      && r.value.id == id && r.value.userId == old(store.tasks)[id].userId
      && r.value.description == old(store.tasks)[id].description
      && r.value.title == (if data.title.Some? then data.title.value else old(store.tasks)[id].title)
      && r.value.done == (if data.done.Some? then data.done.value else old(store.tasks)[id].done)
      && store.tasks == old(store.tasks)[id := r.value]
      && store.nextId == old(store.nextId)
      && store.cache == map[]
  {
    if !commitOk {
      r := None;
      return;
    }
    var task := Patched(store.tasks[id], data);
    PatchedFields(store.tasks[id], data);
    store.tasks := store.tasks[id := task];
    store.cache := map[];
    r := Some(task);
  }
}
