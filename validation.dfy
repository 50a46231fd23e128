/** The loading rules the task schemas rely on: each declared field has a
    kind and may be required; a payload is accepted only when every present
    key is declared (the "raise" policy for unknown keys) and every declared
    field's value, or its absence, is acceptable. All offending keys are
    reported together, one message each. */
module Validation {
  import opened Common
  import Decimal

  /** A string field with a minimum length (0 means no length validator),
      or a boolean field. */
  datatype FieldKind = Str(minLength: nat) | Boolean

  datatype Field = Field(kind: FieldKind, required: bool)

  /** The loadable fields of a schema, by key. Output-only fields are not
      loadable, so on input they are unknown keys. */
  type Schema = map<string, Field>

  const MissingMessage := "Missing data for required field."
  const NullMessage := "Field may not be null."
  const NotStringMessage := "Not a valid string."
  const NotBooleanMessage := "Not a valid boolean."
  const UnknownMessage := "Unknown field."

  function ShorterMessage(min: nat): string {
    "Shorter than minimum length " + Decimal.Show(min) + "."
  }

  function Lookup(p: Payload, key: string): Option<Value> {
    if key in p then Some(p[key]) else None
  }

  /** The message for one declared field given its value, or None when the
      value (or its absence) is acceptable. */
  function FieldError(f: Field, v: Option<Value>): Option<string> {
    match v
    case None => if f.required then Some(MissingMessage) else None
    case Some(VNull) => Some(NullMessage)
    case Some(x) =>
      match f.kind
      case Str(min) =>
        if !x.VStr? then Some(NotStringMessage)
        else if |x.s| < min then Some(ShorterMessage(min))
        else None
      case Boolean => if x.VBool? then None else Some(NotBooleanMessage)
  }

  function KeyError(schema: Schema, p: Payload, key: string): Option<string> {
    if key in schema then FieldError(schema[key], Lookup(p, key))
    else if key in p then Some(UnknownMessage)
    else None
  }

  function ErrorsOf(schema: Schema, p: Payload): Errors {
    map key | key in schema.Keys + p.Keys && KeyError(schema, p, key).Some? :: KeyError(schema, p, key).value
  }

  /** The keys ErrorsOf reports are exactly the unknown keys and the declared
      fields whose value is missing-but-required, null, of the wrong kind or
      too short. */
  lemma ErrorsOfKeys(schema: Schema, p: Payload, key: string)
    ensures key in ErrorsOf(schema, p) <==>
      (key in p && key !in schema) || (key in schema && FieldError(schema[key], Lookup(p, key)).Some?)
    ensures key in p && key !in schema ==> ErrorsOf(schema, p)[key] == UnknownMessage
  {
  }

  /** `schema.load(p)`: the validated payload, or every error found. */
  function Load(schema: Schema, p: Payload): (r: Result<Payload>)
    ensures r.Ok? ==> r.value == p && p.Keys <= schema.Keys
    ensures r.Ok? ==> forall key :: key in schema ==> FieldError(schema[key], Lookup(p, key)).None?
    ensures r.Invalid? ==> r.errors != map[]
  {
    var errors := ErrorsOf(schema, p);
    if errors == map[] then
      assert forall key :: key in p && key !in schema ==> key in errors;
      assert forall key :: key in schema && FieldError(schema[key], Lookup(p, key)).Some? ==> key in errors;
      Ok(p)
    else Invalid(errors)
  }

  /** Load accepts exactly the payloads whose keys are all declared and whose
      declared fields are all acceptable. */
  lemma {:induction false} LoadAccepts(schema: Schema, p: Payload)
    ensures Load(schema, p).Ok? <==>
      p.Keys <= schema.Keys && forall key :: key in schema ==> FieldError(schema[key], Lookup(p, key)).None?
  {
    if p.Keys <= schema.Keys && forall key :: key in schema ==> FieldError(schema[key], Lookup(p, key)).None? {
      assert ErrorsOf(schema, p) == map[] by {
        forall key | key in ErrorsOf(schema, p) ensures false {
          ErrorsOfKeys(schema, p, key);
        }
      }
    }
  }

  /** The validated fields of a create payload. */
  datatype CreatePatch = CreatePatch(title: string, description: Option<string>, done: Option<bool>)

  /** The validated fields of an update payload; an absent field is None and
      means "leave unchanged". */
  datatype UpdatePatch = UpdatePatch(title: Option<string>, description: Option<string>, done: Option<bool>)

  function StrAt(p: Payload, key: string): Option<string> {
    if key in p && p[key].VStr? then Some(p[key].s) else None
  }

  function BoolAt(p: Payload, key: string): Option<bool> {
    if key in p && p[key].VBool? then Some(p[key].b) else None
  }

  /** A create schema: `title` a required string, `description` a string and
      `done` a boolean when declared, neither required. */
  predicate IsCreateSchema(schema: Schema) {
    && "title" in schema && schema["title"].required && schema["title"].kind.Str?
    && ("description" in schema ==> schema["description"].kind.Str? && !schema["description"].required)
    && ("done" in schema ==> schema["done"] == Field(Boolean, false))
  }

  /** An update schema: whichever of `title`, `description`, `done` it
      declares are optional, of the same kinds as on create. */
  predicate IsUpdateSchema(schema: Schema) {
    && ("title" in schema ==> schema["title"].kind.Str? && !schema["title"].required)
    && ("description" in schema ==> schema["description"].kind.Str? && !schema["description"].required)
    && ("done" in schema ==> schema["done"] == Field(Boolean, false))
  }

  /** Loads a create payload into a patch; the title is always present and
      every other field is taken only when the payload carries it. */
  function LoadCreate(schema: Schema, p: Payload): (r: Result<CreatePatch>)
    requires IsCreateSchema(schema)
    ensures r.Ok? <==> Load(schema, p).Ok?
    ensures r.Invalid? ==> r == Invalid(ErrorsOf(schema, p))
    ensures r.Ok? ==> && "title" in p && p["title"] == VStr(r.value.title)
                      && r.value.description == StrAt(p, "description")
                      && r.value.done == BoolAt(p, "done")
  {
    match Load(schema, p)
    case Invalid(e) => Invalid(e)
    case Ok(v) =>
      assert FieldError(schema["title"], Lookup(p, "title")).None?;
      Ok(CreatePatch(v["title"].s, StrAt(v, "description"), BoolAt(v, "done")))
  }

  /** Loads an update payload into a patch of the present fields. */
  function LoadUpdate(schema: Schema, p: Payload): (r: Result<UpdatePatch>)
    requires IsUpdateSchema(schema)
    ensures r.Ok? <==> Load(schema, p).Ok?
    ensures r.Invalid? ==> r == Invalid(ErrorsOf(schema, p))
    ensures r.Ok? ==> && r.value.title.Some? == ("title" in p)
                      && r.value.description.Some? == ("description" in p)
                      && r.value.done.Some? == ("done" in p)
    ensures r.Ok? ==> r.value == UpdatePatch(StrAt(p, "title"), StrAt(p, "description"), BoolAt(p, "done"))
  {
    match Load(schema, p)
    case Invalid(e) => Invalid(e)
    case Ok(v) =>
      assert "title" in p ==> FieldError(schema["title"], Lookup(p, "title")).None?;
      assert "description" in p ==> FieldError(schema["description"], Lookup(p, "description")).None?;
      assert "done" in p ==> FieldError(schema["done"], Lookup(p, "done")).None?;
      Ok(UpdatePatch(StrAt(v, "title"), StrAt(v, "description"), BoolAt(v, "done")))
  }
}
