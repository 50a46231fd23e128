/** A client of the routes, following one user through the API: register,
    log in, create a task, list it, mark it done, read it back, delete it and
    find it gone. Every assertion follows from the routes' contracts alone. */
module Scenario {
  import opened Common
  import opened Validation
  import opened Models
  import opened Listing
  import opened Store
  import opened TaskRoutes
  import opened AuthRoutes
  import StrictSchemas
  import Decimal

  /** Registering alice and logging her in yields a token naming user 1. */
  method SignUpAndLogIn(scheme: PasswordScheme, salt: nat)
    requires Sound(scheme)
  {
    var users := new UserTable();
    var registered := users.Register(scheme, Some("alice"), Some("secret1"), salt, true);
    assert registered.Status() == 201;
    assert users.users[0].CheckPassword(scheme, "secret1");
    var login := users.Login(scheme, Some("alice"), Some("secret1"));
    assert login == Success(200, AccessToken(Decimal.Show(1)));
    Decimal.ParseShow(1);
    var owner := Decimal.Parse(login.value.identity).value;
    assert owner == 1;
  }

  /** User `owner`'s task goes through create, list, update, get, delete. */
  method TaskLifecycle(owner: int)
  {
    var store := new TaskStore();
    var body := map["title" := VStr("buy milk")];
    StrictSchemas.CreateAccepts(body);
    var created := CreateTask(store, Strict, owner, body, true);
    var task := created.value;
    assert created.Status() == 201 && task.title == "buy milk" && !task.done;
    assert store.tasks == map[1 := task] && store.nextId == 2;
    var id := task.id;

    var listed := ListTasks(store, owner, None, None, None);
    assert Select(store.tasks, owner, None, 1) == [];
    assert Select(store.tasks, owner, None, 2) == [task];
    assert Paginate([task], 1, 5) == [task];
    assert listed.items == [task] && listed.total == 1;

    var patch := map["done" := VBool(true)];
    StrictSchemas.UpdateAccepts(patch);
    var updated := UpdateTask(store, Strict, owner, id, patch, true);
    var fetched := GetTask(store, owner, id);
    assert fetched.Status() == 200 && fetched.value.done && fetched.value.title == "buy milk";

    var deleted := DeleteTask(store, owner, id, true);
    assert deleted.Status() == 200;
    fetched := GetTask(store, owner, id);
    assert fetched.Status() == 404;
  }
}
