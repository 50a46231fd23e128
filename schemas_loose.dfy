/** The looser payload schemas: `title` is required on create but has no
    minimum length, and the update schema declares `title`, `description` and
    `done`, each optional. They declare no policy for unknown keys, so the
    library's default, which rejects them, applies. */
module LooseSchemas {
  import opened Common
  import opened Validation
  import opened Models
  import StrictSchemas

  const TaskSchema: Schema := map[
    "title" := Field(Str(0), true),
    "description" := Field(Str(0), false),
    "done" := Field(Boolean, false)
  ]

  const TaskUpdateSchema: Schema := map[
    "title" := Field(Str(0), false),
    "description" := Field(Str(0), false),
    "done" := Field(Boolean, false)
  ]

  function LoadCreate(p: Payload): Result<CreatePatch> {
    Validation.LoadCreate(TaskSchema, p)
  }

  function LoadUpdate(p: Payload): Result<UpdatePatch> {
    Validation.LoadUpdate(TaskUpdateSchema, p)
  }

  /** `TaskSchema().dump(task)`: as the strict dump, plus the owner's id. */
  function Dump(t: Task): Payload {
    map[
      "id" := VInt(t.id),
      "title" := VStr(t.title),
      "description" := match t.description case Some(d) => VStr(d) case None => VNull,
      "done" := VBool(t.done),
      "user_id" := VInt(t.userId),
      "created_at" := VTimestamp
    ]
  }

  /** A create payload is accepted exactly when its keys are among `title`,
      `description`, `done`, its `title` is any string, the empty one
      included, and `description` and `done`, when present, are a string and
      a boolean. */
  lemma {:induction false} CreateAccepts(p: Payload)
    ensures LoadCreate(p).Ok? <==>
      && p.Keys <= {"title", "description", "done"}
      && "title" in p && p["title"].VStr?
      && ("description" in p ==> p["description"].VStr?)
      && ("done" in p ==> p["done"].VBool?)
  {
    LoadAccepts(TaskSchema, p);
    assert TaskSchema.Keys == {"title", "description", "done"};
    var ok := forall key :: key in TaskSchema ==> FieldError(TaskSchema[key], Lookup(p, key)).None?;
    if ok {
      assert FieldError(TaskSchema["title"], Lookup(p, "title")).None?;
      assert FieldError(TaskSchema["description"], Lookup(p, "description")).None?;
      assert FieldError(TaskSchema["done"], Lookup(p, "done")).None?;
    }
  }

  /** An empty title is accepted, where the strict schema refuses it. */
  lemma EmptyTitleAccepted()
    ensures LoadCreate(map["title" := VStr("")]) == Ok(CreatePatch("", None, None))
    ensures StrictSchemas.LoadCreate(map["title" := VStr("")]).Invalid?
  {
    CreateAccepts(map["title" := VStr("")]);
    StrictSchemas.CreateTitleErrors(map["title" := VStr("")]);
  }

  /** The output-only `id`, `user_id` and `created_at` are not taken from
      input: a payload carrying any of them is rejected. */
  lemma OutputOnlyRejected(p: Payload, key: string)
    requires key in p && key in {"id", "user_id", "created_at"}
    ensures LoadCreate(p).Invalid? && LoadCreate(p).errors[key] == UnknownMessage
    ensures LoadUpdate(p).Invalid? && LoadUpdate(p).errors[key] == UnknownMessage
  {
    ErrorsOfKeys(TaskSchema, p, key);
    ErrorsOfKeys(TaskUpdateSchema, p, key);
  }

  /** An update payload is accepted exactly when its keys are among `title`,
      `description`, `done` and each present one has its declared kind; no
      field is required, so each is independently optional. */
  lemma {:induction false} UpdateAccepts(p: Payload)
    ensures LoadUpdate(p).Ok? <==>
      && p.Keys <= {"title", "description", "done"}
      && ("title" in p ==> p["title"].VStr?)
      && ("description" in p ==> p["description"].VStr?)
      && ("done" in p ==> p["done"].VBool?)
  {
    LoadAccepts(TaskUpdateSchema, p);
    assert TaskUpdateSchema.Keys == {"title", "description", "done"};
    var ok := forall key :: key in TaskUpdateSchema ==> FieldError(TaskUpdateSchema[key], Lookup(p, key)).None?;
    if ok {
      assert FieldError(TaskUpdateSchema["title"], Lookup(p, "title")).None?;
      assert FieldError(TaskUpdateSchema["description"], Lookup(p, "description")).None?;
      assert FieldError(TaskUpdateSchema["done"], Lookup(p, "done")).None?;
    }
  }

  /** Every payload the strict schemas accept, the loose ones accept with the
      same patch; the converse fails (see EmptyTitleAccepted). */
  lemma StrictAcceptedIsLooseAccepted(p: Payload)
    ensures StrictSchemas.LoadCreate(p).Ok? ==> LoadCreate(p) == StrictSchemas.LoadCreate(p)
    ensures StrictSchemas.LoadUpdate(p).Ok? ==> LoadUpdate(p) == StrictSchemas.LoadUpdate(p)
  {
    StrictSchemas.CreateAccepts(p);
    StrictSchemas.UpdateAccepts(p);
    CreateAccepts(p);
    UpdateAccepts(p);
  }

  /** Every dump carries the strict dump's keys and `user_id`; with every
      output-only key taken out, a dump loads back into the task's fields
      exactly when its description is set, even with an empty title. */
  lemma {:induction false} DumpLoadsBack(t: Task)
    ensures Dump(t).Keys == {"id", "title", "description", "done", "user_id", "created_at"}
    ensures LoadCreate(Dump(t) - {"id", "user_id", "created_at"}).Ok? <==> t.description.Some?
    ensures t.description.Some? ==>
      LoadCreate(Dump(t) - {"id", "user_id", "created_at"}) == Ok(CreatePatch(t.title, t.description, Some(t.done)))
  {
    var p := Dump(t) - {"id", "user_id", "created_at"};
    assert p.Keys == {"title", "description", "done"};
    CreateAccepts(p);
  }

  /** An unset description, which every task the routes create has (see
      Models.CreatedDefaults), dumps as null, and the create schema refuses
      it. */
  lemma DumpWithoutDescriptionRejected(t: Task)
    requires t.description.None?
    ensures LoadCreate(Dump(t) - {"id", "user_id", "created_at"}).Invalid?
    ensures LoadCreate(Dump(t) - {"id", "user_id", "created_at"}).errors["description"] == NullMessage
  {
    ErrorsOfKeys(TaskSchema, Dump(t) - {"id", "user_id", "created_at"}, "description");
  }
}
