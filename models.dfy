/** The two tables of the application: tasks, kept as values in the store's
    map, and users, objects whose stored password hash `SetPassword`
    overwrites in place. */
module Models {
  import opened Common
  import opened Validation

  /** A row of the `tasks` table. `title` and the owner `userId` are never
      null; `description` may be; `done` is a plain flag. `created_at` is not
      modelled. */
  datatype Task = Task(id: int, title: string, description: Option<string>, done: bool, userId: int)

  /** The row a create inserts: the owner is the caller, the title comes from
      the patch, `done` defaults to false and `description` is never set
      (the patch's description is dropped). */
  function Created(id: int, userId: int, p: CreatePatch): Task {
    Task(id, p.title, None, p.done.GetOr(false), userId)
  }

  /** A partial update: `title` and `done` change only when the patch carries
      them; the patch's `description` is ignored. */
  function Patched(t: Task, p: UpdatePatch): Task {
    t.(title := p.title.GetOr(t.title), done := p.done.GetOr(t.done))
  }

  /** A new task belongs to the caller and holds the defaults the column
      declarations promise, whatever the patch holds. */
  lemma CreatedDefaults(id: int, userId: int, p: CreatePatch)
    ensures Created(id, userId, p).userId == userId && Created(id, userId, p).id == id
    ensures Created(id, userId, p).title == p.title
    ensures Created(id, userId, p).description == None
    ensures Created(id, userId, p).done <==> p.done == Some(true)
  {
  }

  /** Patching never changes the id, the owner or the description; it sets
      exactly the fields the patch carries and leaves the others as they were. */
  lemma PatchedFields(t: Task, p: UpdatePatch)
    ensures Patched(t, p).id == t.id && Patched(t, p).userId == t.userId
    ensures Patched(t, p).description == t.description
    ensures Patched(t, p).title == (if p.title.Some? then p.title.value else t.title)
    ensures Patched(t, p).done == (if p.done.Some? then p.done.value else t.done)
  {
  }

  /** The empty patch is a no-op, and applying a patch twice is the same as
      applying it once. */
  lemma PatchedEmptyAndIdempotent(t: Task, p: UpdatePatch)
    ensures Patched(t, UpdatePatch(None, None, None)) == t
    ensures Patched(Patched(t, p), p) == Patched(t, p)
  {
  }

  /** A one-way password scheme: `hash` digests a plaintext under a salt (the
      hashing library salts with fresh randomness, so the salt is an input
      here), and `check` compares a stored digest with a candidate. */
  datatype PasswordScheme = PasswordScheme(hash: (nat, string) -> string, check: (string, string) -> bool)

  /** What the model assumes of the hashing library: checking a password
      against its own digest succeeds, whatever the salt. */
  ghost predicate Sound(scheme: PasswordScheme) {
    forall salt, plain :: scheme.check(scheme.hash(salt, plain), plain)
  }

  /** A row of the `users` table. `id` and `username` are fixed once the row
      exists; `password` holds the digest, None until it is first set. */
  class User {
    const id: int
    const username: string
    var password: Option<string>

    constructor (id: int, username: string)
      ensures this.id == id && this.username == username && password == None
    {
      this.id := id;
      this.username := username;
      password := None;
    }

    /** Stores the digest of `plain`, never `plain` itself, and changes
        nothing else. */
    method SetPassword(scheme: PasswordScheme, salt: nat, plain: string)
      modifies this`password
      ensures password == Some(scheme.hash(salt, plain))
      ensures Sound(scheme) ==> CheckPassword(scheme, plain)
    {
      password := Some(scheme.hash(salt, plain));
    }

    /** Whether `plain` matches the stored digest; a user without a digest
        matches nothing. */
    predicate CheckPassword(scheme: PasswordScheme, plain: string)
      reads this
    {
      password.Some? && scheme.check(password.value, plain)
    }
  }
}
