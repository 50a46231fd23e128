/** The strict payload schemas: `title` must be at least one character long
    on create and, when present, on update; the update schema declares only
    `title` and `done`; unknown keys are rejected by both. */
module StrictSchemas {
  import opened Common
  import opened Validation
  import opened Models

  const TaskSchema: Schema := map[
    "title" := Field(Str(1), true),
    "description" := Field(Str(0), false),
    "done" := Field(Boolean, false)
  ]

  const TaskUpdateSchema: Schema := map[
    "title" := Field(Str(1), false),
    "done" := Field(Boolean, false)
  ]

  function LoadCreate(p: Payload): Result<CreatePatch> {
    Validation.LoadCreate(TaskSchema, p)
  }

  function LoadUpdate(p: Payload): Result<UpdatePatch> {
    Validation.LoadUpdate(TaskUpdateSchema, p)
  }

  /** `TaskSchema().dump(task)`: the task's id, title, description (null
      when unset), done flag and creation time. */
  function Dump(t: Task): Payload {
    map[
      "id" := VInt(t.id),
      "title" := VStr(t.title),
      "description" := match t.description case Some(d) => VStr(d) case None => VNull,
      "done" := VBool(t.done),
      "created_at" := VTimestamp
    ]
  }

  /** A create payload is accepted exactly when its keys are among `title`,
      `description`, `done`, its `title` is a string of length at least one
      (counted as given, with no trimming), and `description` and `done`,
      when present, are a string and a boolean. */
  lemma {:induction false} CreateAccepts(p: Payload)
    ensures LoadCreate(p).Ok? <==>
      && p.Keys <= {"title", "description", "done"}
      && "title" in p && p["title"].VStr? && |p["title"].s| >= 1
      && ("description" in p ==> p["description"].VStr?)
      && ("done" in p ==> p["done"].VBool?)
  {
    LoadAccepts(TaskSchema, p);
    assert TaskSchema.Keys == {"title", "description", "done"};
    var ok := forall key :: key in TaskSchema ==> FieldError(TaskSchema[key], Lookup(p, key)).None?;
    if ok {
      assert FieldError(TaskSchema["title"], Lookup(p, "title")).None?;
      assert FieldError(TaskSchema["description"], Lookup(p, "description")).None?;
      assert FieldError(TaskSchema["done"], Lookup(p, "done")).None?;
    }
  }

  /** A create payload without `title`, or with an empty one, is rejected
      with a message keyed on `title`. */
  lemma CreateTitleErrors(p: Payload)
    ensures "title" !in p ==> LoadCreate(p).Invalid? && LoadCreate(p).errors["title"] == MissingMessage
    ensures "title" in p && p["title"] == VStr("") ==>
      LoadCreate(p).Invalid? && LoadCreate(p).errors["title"] == ShorterMessage(1)
  {
    ErrorsOfKeys(TaskSchema, p, "title");
  }

  /** Keys that neither schema declares, among them the output-only `id`,
      `created_at` and `user_id`, are rejected with "Unknown field." */
  lemma UnknownKeysRejected(p: Payload, key: string)
    requires key in p && key !in {"title", "description", "done"}
    ensures LoadCreate(p).Invalid? && LoadCreate(p).errors[key] == UnknownMessage
    ensures LoadUpdate(p).Invalid? && LoadUpdate(p).errors[key] == UnknownMessage
  {
    ErrorsOfKeys(TaskSchema, p, key);
    ErrorsOfKeys(TaskUpdateSchema, p, key);
  }

  /** The update schema declares no `description`, so an update carrying one
      is rejected. */
  lemma UpdateRejectsDescription(p: Payload)
    requires "description" in p
    ensures LoadUpdate(p).Invalid? && LoadUpdate(p).errors["description"] == UnknownMessage
  {
    ErrorsOfKeys(TaskUpdateSchema, p, "description");
  }

  /** An update payload is accepted exactly when its keys are among `title`
      and `done`, a present `title` is a string of length at least one and a
      present `done` is a boolean; the patch then carries exactly the present
      fields and never a description. */
  lemma {:induction false} UpdateAccepts(p: Payload)
    ensures LoadUpdate(p).Ok? <==>
      && p.Keys <= {"title", "done"}
      && ("title" in p ==> p["title"].VStr? && |p["title"].s| >= 1)
      && ("done" in p ==> p["done"].VBool?)
    ensures LoadUpdate(p).Ok? ==> LoadUpdate(p).value.description.None?
  {
    LoadAccepts(TaskUpdateSchema, p);
    assert TaskUpdateSchema.Keys == {"title", "done"};
    var ok := forall key :: key in TaskUpdateSchema ==> FieldError(TaskUpdateSchema[key], Lookup(p, key)).None?;
    if ok {
      assert FieldError(TaskUpdateSchema["title"], Lookup(p, "title")).None?;
      assert FieldError(TaskUpdateSchema["done"], Lookup(p, "done")).None?;
    }
  }

  /** No update field is required: the empty body validates to the empty
      patch. */
  lemma EmptyUpdate()
    ensures LoadUpdate(map[]) == Ok(UpdatePatch(None, None, None))
  {
    UpdateAccepts(map[]);
  }

  /** Every dump carries exactly `id`, `title`, `description`, `done`,
      `created_at`; with the output-only `id` and `created_at` taken out, a
      dump loads back into the task's fields exactly when its title is
      non-empty and its description is set. */
  lemma {:induction false} DumpLoadsBack(t: Task)
    ensures Dump(t).Keys == {"id", "title", "description", "done", "created_at"}
    ensures LoadCreate(Dump(t) - {"id", "created_at"}).Ok? <==> |t.title| >= 1 && t.description.Some?
    ensures |t.title| >= 1 && t.description.Some? ==>
      LoadCreate(Dump(t) - {"id", "created_at"}) == Ok(CreatePatch(t.title, t.description, Some(t.done)))
  {
    var p := Dump(t) - {"id", "created_at"};
    assert p.Keys == {"title", "description", "done"};
    CreateAccepts(p);
  }

  /** An unset description dumps as null, which the create schema refuses:
      such a dump does not load back. */
  lemma DumpWithoutDescriptionRejected(t: Task)
    requires t.description.None?
    ensures LoadCreate(Dump(t) - {"id", "created_at"}).Invalid?
    ensures LoadCreate(Dump(t) - {"id", "created_at"}).errors["description"] == NullMessage
  {
    ErrorsOfKeys(TaskSchema, Dump(t) - {"id", "created_at"}, "description");
  }
}
