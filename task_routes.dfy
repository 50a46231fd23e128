/** The five task routes. Each takes the caller's user id, which the access
    token proves, in place of the token itself; every lookup is scoped to
    that id. Mutations that commit empty the whole listing cache; a commit
    that fails changes nothing. */
module TaskRoutes {
  import opened Common
  import opened Validation
  import opened Models
  import opened Listing
  import opened Store
  import StrictSchemas
  import LooseSchemas

  /** Which of the two schema definitions the routes load payloads with. */
  datatype SchemaChoice = Strict | Loose

  function LoadCreate(schema: SchemaChoice, p: Payload): Result<CreatePatch> {
    match schema
    case Strict => StrictSchemas.LoadCreate(p)
    case Loose => LooseSchemas.LoadCreate(p)
  }

  function LoadUpdate(schema: SchemaChoice, p: Payload): Result<UpdatePatch> {
    match schema
    case Strict => StrictSchemas.LoadUpdate(p)
    case Loose => LooseSchemas.LoadUpdate(p)
  }

  /** Whichever schema is used, a payload that names the task's id or owner
      is refused, so neither can be chosen by the client. */
  lemma OwnerNotFromPayload(schema: SchemaChoice, p: Payload)
    requires "user_id" in p || "id" in p
    ensures LoadCreate(schema, p).Invalid? && LoadUpdate(schema, p).Invalid?
  {
    var key := if "user_id" in p then "user_id" else "id";
    StrictSchemas.UnknownKeysRejected(p, key);
    LooseSchemas.OutputOnlyRejected(p, key);
  }

  /** Both schemas accept a `description` on create, and the loose one on
      update too, yet no route ever writes it: whatever payload `p` is
      accepted, a created task has none, and an update leaves it as it
      was. */
  lemma DescriptionAcceptedButIgnored(schema: SchemaChoice, id: int, owner: int, t: Task, d: string, p: Payload)
    ensures LoadCreate(schema, p).Ok? ==> Created(id, owner, LoadCreate(schema, p).value).description == None
    ensures LoadUpdate(schema, p).Ok? ==> Patched(t, LoadUpdate(schema, p).value).description == t.description
    ensures LoadCreate(schema, map["title" := VStr("a"), "description" := VStr(d)]) == Ok(CreatePatch("a", Some(d), None))
    ensures Created(id, owner, CreatePatch("a", Some(d), None)).description == None
    ensures LoadUpdate(Loose, map["description" := VStr(d)]) == Ok(UpdatePatch(None, Some(d), None))
    ensures Patched(t, UpdatePatch(None, Some(d), None)) == t
  {
    StrictSchemas.CreateAccepts(map["title" := VStr("a"), "description" := VStr(d)]);
    LooseSchemas.CreateAccepts(map["title" := VStr("a"), "description" := VStr(d)]);
    LooseSchemas.UpdateAccepts(map["description" := VStr(d)]);
  }

  /** GET /tasks/: one page of the caller's tasks, `page` defaulting to 1 and
      `per_page` to 5. The page is computed from the table, never from the
      cache, and then stored in the cache under (caller, page). */
  method ListTasks(store: TaskStore, owner: int, pageArg: Option<int>, perPageArg: Option<int>, doneArg: Option<string>)
    returns (result: Page)
    requires store.Valid()
    requires pageArg.GetOr(1) >= 1 && perPageArg.GetOr(5) >= 1
    modifies store`cache
    ensures store.Valid()
    ensures result == ListPage(store.tasks, store.nextId, owner, DoneFilter(doneArg), pageArg.GetOr(1), perPageArg.GetOr(5))
    ensures forall t :: t in result.items ==>
      t.id in store.tasks && store.tasks[t.id] == t && t.userId == owner
      && (DoneFilter(doneArg).Some? ==> t.done == DoneFilter(doneArg).value)
    ensures StrictlyAscending(result.items) && |result.items| <= perPageArg.GetOr(5)
    ensures result.total == |MatchingKeys(store.tasks, owner, DoneFilter(doneArg), store.nextId)|
    ensures store.cache == old(store.cache)[CacheKey(owner, pageArg.GetOr(1)) := result]
  {
    var page := pageArg.GetOr(1);
    var perPage := perPageArg.GetOr(5);
    var filter := DoneFilter(doneArg);
    result := ListPage(store.tasks, store.nextId, owner, filter, page, perPage);
    ListPageSpec(store.tasks, store.nextId, owner, filter, page, perPage);
    store.cache := store.cache[CacheKey(owner, page) := result];
  }

  /** POST /tasks/: a payload the schema refuses gets 422 and changes nothing;
      otherwise one row is added, owned by the caller, and the cache is
      emptied, or, when the commit fails, nothing changes. */
  method CreateTask(store: TaskStore, schema: SchemaChoice, owner: int, body: Payload, commitOk: bool)
    returns (r: Reply<Task>)
    requires store.Valid()
    modifies store
    ensures store.Valid()
    ensures LoadCreate(schema, body).Invalid? ==>
      r == Failure(ValidationFailed(LoadCreate(schema, body).errors)) && unchanged(store)
    ensures LoadCreate(schema, body).Ok? && !commitOk ==> r == Failure(InternalError) && unchanged(store)
    ensures LoadCreate(schema, body).Ok? && commitOk ==>
      && old(store.nextId) !in old(store.tasks)
      && r == Success(201, Created(old(store.nextId), owner, LoadCreate(schema, body).value))
      && store.tasks == old(store.tasks)[old(store.nextId) := r.value]
      && store.nextId == old(store.nextId) + 1
      && |store.tasks| == |old(store.tasks)| + 1
      && store.cache == map[]
  {
    match LoadCreate(schema, body) {
      case Invalid(errors) =>
        r := Failure(ValidationFailed(errors));
      case Ok(patch) =>
        if !commitOk {
          r := Failure(InternalError);
          return;
        }
        var task := Created(store.nextId, owner, patch);
        store.tasks := store.tasks[store.nextId := task];
        store.nextId := store.nextId + 1;
        store.cache := map[];
        r := Success(201, task);
    }
  }

  /** GET /tasks/<id>: the task, when it exists and belongs to the caller;
      404 otherwise, the two causes being indistinguishable. */
  method GetTask(store: TaskStore, owner: int, id: int) returns (r: Reply<Task>)
    ensures r.Success? <==> id in store.tasks && store.tasks[id].userId == owner
    ensures r.Success? ==> r == Success(200, store.tasks[id])
    ensures r.Failure? ==> r.error == NotFound
  {
    match Find(store.tasks, owner, id) {
      case None => r := Failure(NotFound);
      case Some(task) => r := Success(200, task);
    }
  }

  /** PATCH /tasks/<id>: ownership is checked before the payload, so another
      user's task gets 404 whatever the body; a refused body gets 422; a
      committed update changes only that task's present `title`/`done` and
      empties the cache, even for an empty body; a failed commit is rolled
      back and gets 500. */
  method UpdateTask(store: TaskStore, schema: SchemaChoice, owner: int, id: int, body: Payload, commitOk: bool)
    returns (r: Reply<Task>)
    requires store.Valid()
    modifies store
    ensures store.Valid()
    ensures Find(old(store.tasks), owner, id).None? ==> r == Failure(NotFound) && unchanged(store)
    ensures Find(old(store.tasks), owner, id).Some? && LoadUpdate(schema, body).Invalid? ==>
      r == Failure(ValidationFailed(LoadUpdate(schema, body).errors)) && unchanged(store)
    ensures Find(old(store.tasks), owner, id).Some? && LoadUpdate(schema, body).Ok? && !commitOk ==>
      r == Failure(InternalError) && unchanged(store)
    ensures Find(old(store.tasks), owner, id).Some? && LoadUpdate(schema, body).Ok? && commitOk ==>
      && r == Success(200, Patched(old(store.tasks)[id], LoadUpdate(schema, body).value))
      && store.tasks == old(store.tasks)[id := r.value]
      && store.nextId == old(store.nextId)
      && store.cache == map[]
  {
    var found := Find(store.tasks, owner, id);
    if found.None? {
      r := Failure(NotFound);
      return;
    }
    match LoadUpdate(schema, body) {
      case Invalid(errors) =>
        r := Failure(ValidationFailed(errors));
      case Ok(patch) =>
        if !commitOk {
          r := Failure(InternalError);
          return;
        }
        var task := Patched(found.value, patch);
        PatchedFields(found.value, patch);
        store.tasks := store.tasks[id := task];
        store.cache := map[];
        r := Success(200, task);
    }
  }

  /** DELETE /tasks/<id>: 404 for a task that is absent or another user's;
      otherwise exactly that row is removed and the cache emptied, or, when
      the commit fails, nothing changes and the reply is 500. */
  method DeleteTask(store: TaskStore, owner: int, id: int, commitOk: bool) returns (r: Reply<()>)
    requires store.Valid()
    modifies store
    ensures store.Valid()
    ensures Find(old(store.tasks), owner, id).None? ==> r == Failure(NotFound) && unchanged(store)
    ensures Find(old(store.tasks), owner, id).Some? && !commitOk ==> r == Failure(InternalError) && unchanged(store)
    ensures Find(old(store.tasks), owner, id).Some? && commitOk ==>
      && r == Success(200, ())
      && store.tasks == old(store.tasks) - {id}
      && |store.tasks| == |old(store.tasks)| - 1
      && store.nextId == old(store.nextId)
      && store.cache == map[]
  {
    if Find(store.tasks, owner, id).None? {
      r := Failure(NotFound);
      return;
    }
    if !commitOk {
      r := Failure(InternalError);
      return;
    }
    store.tasks := store.tasks - {id};
    store.cache := map[];
    r := Success(200, ());
  }
}
