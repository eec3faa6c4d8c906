/** The service: the users and tasks collections and one member per API
    endpoint. Readers are functions of the collections; writers are methods
    that change them. */
module Server {
  import opened Http
  import opened Passwords
  import opened Tokens
  import opened Users
  import opened Tasks

  /** The body of a successful registration: {id, username}. */
  datatype Registered = Registered(id: Id, username: string)

  /** The body of a successful login: {access_token, token_type}. */
  datatype TokenResponse = TokenResponse(accessToken: Token, tokenType: string)

  const TaskUpdated: string := "Task updated"
  const TaskDeleted: string := "Task deleted"

  /** The users collection as the endpoints keep it: unique usernames, and
      unique ids below `bound`, the next id the store hands out. */
  ghost predicate UsersValid(users: seq<UserDoc>, bound: nat)
  {
    && UniqueUsernames(users)
    && (forall i, j :: 0 <= i < j < |users| ==> users[i].id != users[j].id)
    && (forall u :: u in users ==> u.id < bound)
  }

  /** The tasks collection as the endpoints keep it: unique ids below
      `bound`, and every task owned by a registered user. */
  ghost predicate TasksValid(tasks: seq<TaskDoc>, users: seq<UserDoc>, bound: nat)
  {
    && UniqueTaskIds(tasks)
    && (forall t :: t in tasks ==> t.id < bound && HasUser(users, t.userId))
  }

  /** Registering a new username under the next id keeps both collections
      valid. */
  lemma RegisterKeepsValid(users: seq<UserDoc>, tasks: seq<TaskDoc>, bound: nat, u: UserDoc)
    requires UsersValid(users, bound) && TasksValid(tasks, users, bound)
    requires FindUser(users, u.username).None? && u.id == bound
    ensures UsersValid(users + [u], bound + 1) && TasksValid(tasks, users + [u], bound + 1)
  {
    InsertKeepsUsernamesUnique(users, u);
    forall t | t in tasks ensures HasUser(users + [u], t.userId) {
      var w :| w in users && w.id == t.userId;
      assert w in users + [u];
    }
  }

  /** Creating a task under the next id for a registered owner keeps the
      tasks valid. */
  lemma CreateKeepsValid(tasks: seq<TaskDoc>, users: seq<UserDoc>, bound: nat, t: TaskDoc)
    requires TasksValid(tasks, users, bound)
    requires t.id == bound && HasUser(users, t.userId)
    ensures TasksValid(tasks + [t], users, bound + 1)
  {
    forall i, j | 0 <= i < j < |tasks + [t]| ensures (tasks + [t])[i].id != (tasks + [t])[j].id {
      assert tasks[i] in tasks;
    }
  }

  /** An owner-scoped update keeps the tasks valid. */
  lemma UpdateKeepsValid(tasks: seq<TaskDoc>, users: seq<UserDoc>, bound: nat, id: Id, owner: Id,
                         title: string, description: string, status: TaskStatus)
    requires TasksValid(tasks, users, bound)
    ensures TasksValid(UpdateOne(tasks, id, owner, title, description, status), users, bound)
  {
    UpdateOneKeepsIdsAndOwners(tasks, id, owner, title, description, status);
  }

  /** An owner-scoped delete keeps the tasks valid. */
  lemma DeleteKeepsValid(tasks: seq<TaskDoc>, users: seq<UserDoc>, bound: nat, id: Id, owner: Id)
    requires TasksValid(tasks, users, bound)
    ensures TasksValid(DeleteOne(tasks, id, owner), users, bound)
  {
    DeleteOneEffect(tasks, id, owner);
    DeleteOneMembers(tasks, id, owner);
  }

  class TaskManager {
    /** users_collection, in natural order */
    var users: seq<UserDoc>
    /** tasks_collection, in natural order */
    var tasks: seq<TaskDoc>
    /** the next ObjectId the store hands out; every id in use is below it */
    var nextId: nat
    /** bcrypt through passlib */
    const hasher: Hasher
    /** HS256 JWTs signed with the process secret */
    const codec: TokenCodec

    /** What the endpoints keep true of the collections: unique usernames,
        unique ids below nextId, and every task owned by a registered user. */
    ghost predicate Valid()
      reads this
    {
      UsersValid(users, nextId) && TasksValid(tasks, users, nextId)
    }

    /** A service started with empty collections. */
    constructor (hasher: Hasher, codec: TokenCodec)
      ensures Valid()
      ensures users == [] && tasks == []
      ensures this.hasher == hasher && this.codec == codec
    {
      this.hasher := hasher;
      this.codec := codec;
      users := [];
      tasks := [];
      nextId := 0;
    }

    /** get_current_user: the user the token's subject names; a bad token
        and a subject with no user record are the same 401. */
    function CurrentUser(token: Token, now: int): (r: Result<UserDoc>)
      reads this`users
      ensures r.Err? ==> r.error == InvalidToken
      ensures r.Ok? <==> DecodeAccessToken(codec, token, now).Ok?
                         && FindUser(users, DecodeAccessToken(codec, token, now).value).Some?
      ensures r.Ok? ==> r.value in users && r.value.username == DecodeAccessToken(codec, token, now).value
    {
      match DecodeAccessToken(codec, token, now)
      case Err(e) => Err(e)
      case Ok(username) =>
        match FindUser(users, username)
        case None => Err(InvalidToken)
        case Some(user) => Ok(user)
    }

    /** POST /api/login: a bearer token for `username`, valid for 30
        minutes, when the user exists and the password verifies. */
    function Login(username: string, password: string, now: int): (r: Result<TokenResponse>)
      reads this`users
      ensures r.Err? ==> r.error == InvalidCredentials
      ensures r.Ok? <==> FindUser(users, username).Some?
                         && hasher.verify(password, FindUser(users, username).value.hashedPassword)
      ensures r.Ok? ==> r.value.tokenType == "bearer"
      ensures r.Ok? && codec.RoundTrips() ==>
                codec.decode(r.value.accessToken)
                == Some(map["sub" := Text(username), "exp" := NumericDate(now + AccessTokenExpireMinutes * 60)])
    {
      match FindUser(users, username)
      case None => Err(InvalidCredentials)
      case Some(user) =>
        if !hasher.verify(password, user.hashedPassword) then Err(InvalidCredentials)
        else
          var token := CreateAccessToken(codec, map["sub" := Text(username)], Some(AccessTokenExpireMinutes * 60), now);
          Ok(TokenResponse(token, "bearer"))
    }

    /** GET /api/tasks: exactly the caller's tasks. */
    function GetTasks(token: Token, now: int): (r: Result<seq<TaskView>>)
      reads this`users, this`tasks
      ensures CurrentUser(token, now).Err? ==> r == Err(InvalidToken)
      ensures CurrentUser(token, now).Ok? ==> r.Ok?
      ensures r.Ok? ==>
                && CurrentUser(token, now).Ok?
                && (forall v :: v in r.value <==>
                      exists t :: t in tasks && t.userId == CurrentUser(token, now).value.id && t.View() == v)
                && r.value == Views(OwnedBy(tasks, CurrentUser(token, now).value.id))
    {
      match CurrentUser(token, now)
      case Err(e) => Err(e)
      case Ok(user) => Ok(Views(OwnedBy(tasks, user.id)))
    }

    /** GET /api/tasks/{id}: the caller's task with that id; 404 when no
        task has both that id and the caller as owner. */
    function GetTask(token: Token, id: Id, now: int): (r: Result<TaskView>)
      reads this`users, this`tasks
      ensures CurrentUser(token, now).Err? ==> r == Err(InvalidToken)
      ensures CurrentUser(token, now).Ok? ==>
                var owner := CurrentUser(token, now).value.id;
                && (r.Ok? <==> exists t :: t in tasks && Matches(t, id, owner))
                && (r.Ok? ==> exists t :: t in tasks && Matches(t, id, owner) && r.value == t.View())
                && (r.Err? ==> r.error == TaskNotFound)
    {
      match CurrentUser(token, now)
      case Err(e) => Err(e)
      case Ok(user) =>
        match FindOwned(tasks, id, user.id)
        case None => Err(TaskNotFound)
        case Some(task) => Ok(task.View())
    }

    /** POST /api/register: a new user with the hashed password, unless the
        username is taken. */
    method Register(username: string, password: string) returns (r: Result<Registered>)
      requires Valid()
      modifies this`users, this`nextId
      ensures Valid()
      ensures FindUser(old(users), username).Some? ==>
                r == Err(DuplicateUsername) && users == old(users) && nextId == old(nextId)
      ensures FindUser(old(users), username).None? ==>
                && users == old(users) + [UserDoc(old(nextId), username, hasher.hash(password))]
                && nextId == old(nextId) + 1
                && r == Ok(Registered(old(nextId), username))
      ensures r.Ok? ==> FindUser(users, username) == Some(UserDoc(r.value.id, username, hasher.hash(password)))
      ensures r.Ok? && hasher.Sound() ==> forall now :: Login(username, password, now).Ok?
    {
      if FindUser(users, username).Some? {
        return Err(DuplicateUsername);
      }
      var user := UserDoc(nextId, username, hasher.hash(password));
      RegisterKeepsValid(users, tasks, nextId, user);
      FindUserAfterInsert(users, user, username);
      users := users + [user];
      nextId := nextId + 1;
      r := Ok(Registered(user.id, username));
    }

    /** POST /api/tasks: a new task owned by the caller, echoed back with
        its id. */
    method CreateTask(token: Token, input: TaskInput, now: int) returns (r: Result<TaskView>)
      requires Valid()
      modifies this`tasks, this`nextId
      ensures Valid()
      ensures CurrentUser(token, now).Err? ==>
                r == Err(InvalidToken) && tasks == old(tasks) && nextId == old(nextId)
      ensures CurrentUser(token, now).Ok? && ParseStatus(input.status).None? ==>
                r == Err(InvalidTaskStatus) && tasks == old(tasks) && nextId == old(nextId)
      ensures CurrentUser(token, now).Ok? && ParseStatus(input.status).Some? ==>
                var task := TaskDoc(old(nextId), input.title, input.description,
                                    ParseStatus(input.status).value, CurrentUser(token, now).value.id);
                && tasks == old(tasks) + [task]
                && nextId == old(nextId) + 1
                && r == Ok(task.View())
      ensures forall owner :: CurrentUser(token, now).Err? || owner != CurrentUser(token, now).value.id ==>
                OwnedBy(tasks, owner) == OwnedBy(old(tasks), owner)
    {
      var caller := CurrentUser(token, now);
      if caller.Err? {
        return Err(caller.error);
      }
      var status := ParseStatus(input.status);
      if status.None? {
        return Err(InvalidTaskStatus);
      }
      var task := TaskDoc(nextId, input.title, input.description, status.value, caller.value.id);
      forall owner
        ensures OwnedBy(tasks + [task], owner) == OwnedBy(tasks, owner) + (if task.userId == owner then [task] else [])
      {
        OwnedByAfterInsert(tasks, task, owner);
      }
      CreateKeepsValid(tasks, users, nextId, task);
      tasks := tasks + [task];
      nextId := nextId + 1;
      r := Ok(task.View());
    }

    /** PUT /api/tasks/{id}: the caller's task with that id gets the new
        title, description and status; 404 when the caller has no task with
        that id. */
    method UpdateTask(token: Token, id: Id, input: TaskInput, now: int) returns (r: Result<string>)
      requires Valid()
      modifies this`tasks
      ensures Valid()
      ensures CurrentUser(token, now).Err? ==> r == Err(InvalidToken) && tasks == old(tasks)
      ensures CurrentUser(token, now).Ok? && ParseStatus(input.status).None? ==>
                r == Err(InvalidTaskStatus) && tasks == old(tasks)
      ensures CurrentUser(token, now).Ok? && ParseStatus(input.status).Some? ==>
                var owner := CurrentUser(token, now).value.id;
                && tasks == UpdateOne(old(tasks), id, owner, input.title, input.description, ParseStatus(input.status).value)
                && (r.Ok? <==> exists t :: t in old(tasks) && Matches(t, id, owner))
                && (r.Ok? ==> r.value == TaskUpdated)
                && (r.Err? ==> r.error == TaskNotFound && tasks == old(tasks))
      ensures forall owner :: CurrentUser(token, now).Err? || owner != CurrentUser(token, now).value.id ==>
                OwnedBy(tasks, owner) == OwnedBy(old(tasks), owner)
    {
      var caller := CurrentUser(token, now);
      if caller.Err? {
        return Err(caller.error);
      }
      var status := ParseStatus(input.status);
      if status.None? {
        return Err(InvalidTaskStatus);
      }
      var owner := caller.value.id;
      var matched := FirstMatch(tasks, id, owner);
      UpdateOneFrame(tasks, id, owner, input.title, input.description, status.value);
      forall other | other != owner
        ensures OwnedBy(UpdateOne(tasks, id, owner, input.title, input.description, status.value), other) == OwnedBy(tasks, other)
      {
        UpdateOneIsolated(tasks, id, owner, input.title, input.description, status.value, other);
      }
      UpdateKeepsValid(tasks, users, nextId, id, owner, input.title, input.description, status.value);
      tasks := UpdateOne(tasks, id, owner, input.title, input.description, status.value);
      if matched.None? {
        return Err(TaskNotFound);
      }
      r := Ok(TaskUpdated);
    }

    /** DELETE /api/tasks/{id}: the caller's task with that id is removed;
        404 when the caller has no task with that id. */
    method DeleteTask(token: Token, id: Id, now: int) returns (r: Result<string>)
      requires Valid()
      modifies this`tasks
      ensures Valid()
      ensures CurrentUser(token, now).Err? ==> r == Err(InvalidToken) && tasks == old(tasks)
      ensures CurrentUser(token, now).Ok? ==>
                var owner := CurrentUser(token, now).value.id;
                && tasks == DeleteOne(old(tasks), id, owner)
                && (r.Ok? <==> exists t :: t in old(tasks) && Matches(t, id, owner))
                && (r.Ok? ==> r.value == TaskDeleted && |tasks| == |old(tasks)| - 1)
                && (r.Err? ==> r.error == TaskNotFound && tasks == old(tasks))
      ensures forall owner :: CurrentUser(token, now).Err? || owner != CurrentUser(token, now).value.id ==>
                OwnedBy(tasks, owner) == OwnedBy(old(tasks), owner)
    {
      var caller := CurrentUser(token, now);
      if caller.Err? {
        return Err(caller.error);
      }
      var owner := caller.value.id;
      var matched := FirstMatch(tasks, id, owner);
      DeleteOneFrame(tasks, id, owner);
      DeleteKeepsValid(tasks, users, nextId, id, owner);
      forall other | other != owner
        ensures OwnedBy(DeleteOne(tasks, id, owner), other) == OwnedBy(tasks, other)
      {
        DeleteOneIsolated(tasks, id, owner, other);
      }
      tasks := DeleteOne(tasks, id, owner);
      if matched.None? {
        return Err(TaskNotFound);
      }
      r := Ok(TaskDeleted);
    }
  }

  /** A token from login resolves to the user who logged in until it
      expires, 30 minutes after issue, and never for the empty username:
      decode_access_token refuses an empty subject. */
  lemma LoginTokenResolves(app: TaskManager, username: string, password: string, issued: int, now: int)
    requires app.codec.RoundTrips()
    requires app.Login(username, password, issued).Ok?
    ensures app.CurrentUser(app.Login(username, password, issued).value.accessToken, now)
            == if username != "" && now <= issued + AccessTokenExpireMinutes * 60
               then Ok(FindUser(app.users, username).value)
               else Err(InvalidToken)
  {
    IssuedTokenDecodes(app.codec, username, Some(AccessTokenExpireMinutes * 60), issued, now);
  }

  /** A task that belongs to another user is answered 404 by get_task, as
      if it did not exist, and update_task and delete_task find nothing to
      change. */
  lemma ForeignTaskIsNotFound(app: TaskManager, token: Token, k: nat, now: int)
    requires app.Valid()
    requires app.CurrentUser(token, now).Ok?
    requires k < |app.tasks| && app.tasks[k].userId != app.CurrentUser(token, now).value.id
    ensures app.GetTask(token, app.tasks[k].id, now) == Err(TaskNotFound)
    ensures forall t :: t in app.tasks ==> !Matches(t, app.tasks[k].id, app.CurrentUser(token, now).value.id)
  {
    ForeignIdMatchesNothing(app.tasks, k, app.CurrentUser(token, now).value.id);
  }

  /** Sign-up half of a client session: alice and bob register on a fresh
      service (a second "alice" is refused) and both log in. */
  method SignUpAliceAndBob(hasher: Hasher, codec: TokenCodec, now: int)
    returns (app: TaskManager, aliceToken: Token, bobToken: Token)
    requires hasher.Sound() && codec.RoundTrips()
    ensures fresh(app) && app.Valid() && app.tasks == [] && app.codec == codec
    ensures app.CurrentUser(aliceToken, now).Ok? && app.CurrentUser(aliceToken, now).value.username == "alice"
    ensures app.CurrentUser(bobToken, now).Ok? && app.CurrentUser(bobToken, now).value.username == "bob"
  {
    app := new TaskManager(hasher, codec);
    var alice := app.Register("alice", "pw1");
    var again := app.Register("alice", "other");
    assert again == Err(DuplicateUsername);
    var bob := app.Register("bob", "pw2");
    var aliceLogin := app.Login("alice", "pw1", now);
    aliceToken := aliceLogin.value.accessToken;
    LoginTokenResolves(app, "alice", "pw1", now, now);
    var bobLogin := app.Login("bob", "pw2", now);
    bobToken := bobLogin.value.accessToken;
    LoginTokenResolves(app, "bob", "pw2", now, now);
  }

  /** Alice creates a task and reads it back (a second one with status
      "Done" is refused with 422); bob can neither read nor update it. */
  method OthersCannotTouch(app: TaskManager, aliceToken: Token, bobToken: Token, now: int)
    returns (id: Id, created: Result<TaskView>, readBack: Result<TaskView>, rejected: Result<TaskView>,
             seenByBob: Result<TaskView>)
    requires app.Valid() && app.tasks == []
    requires app.CurrentUser(aliceToken, now).Ok? && app.CurrentUser(bobToken, now).Ok?
    requires app.CurrentUser(aliceToken, now).value.id != app.CurrentUser(bobToken, now).value.id
    modifies app
    ensures app.Valid() && app.users == old(app.users)
    ensures app.tasks == [TaskDoc(id, "x", "y", Pending, app.CurrentUser(aliceToken, now).value.id)]
    ensures created == Ok(TaskView(id, "x", "y", Pending))
    ensures readBack == created
    ensures rejected.Err? && rejected.error.Status() == 422
    ensures seenByBob == Err(TaskNotFound)
  {
    created := app.CreateTask(aliceToken, TaskInput("x", "y", "Pending"), now);
    id := created.value.id;
    assert app.tasks[0] in app.tasks;
    readBack := app.GetTask(aliceToken, id, now);
    rejected := app.CreateTask(aliceToken, TaskInput("z", "w", "Done"), now);
    assert rejected == Err(InvalidTaskStatus);
    ForeignTaskIsNotFound(app, bobToken, 0, now);
    seenByBob := app.GetTask(bobToken, id, now);
    var bobUpdate := app.UpdateTask(bobToken, id, TaskInput("hijacked", "", "Pending"), now);
    assert bobUpdate == Err(TaskNotFound);
  }

  /** The owner completes the task, reads it back, deletes it, and then
      finds it gone. */
  method OwnerCompletesAndDeletes(app: TaskManager, aliceToken: Token, id: Id, now: int)
    returns (afterUpdate: Result<TaskView>, afterDelete: Result<TaskView>)
    requires app.Valid() && app.CurrentUser(aliceToken, now).Ok?
    requires app.tasks == [TaskDoc(id, "x", "y", Pending, app.CurrentUser(aliceToken, now).value.id)]
    modifies app
    ensures afterUpdate == Ok(TaskView(id, "x", "y", Completed))
    ensures afterDelete == Err(TaskNotFound)
  {
    var updated := app.UpdateTask(aliceToken, id, TaskInput("x", "y", "Completed"), now);
    assert app.tasks[0] in app.tasks;
    afterUpdate := app.GetTask(aliceToken, id, now);
    var deleted := app.DeleteTask(aliceToken, id, now);
    assert deleted == Ok(TaskDeleted);
    afterDelete := app.GetTask(aliceToken, id, now);
  }

  /** The whole session on a fresh service. */
  method Walkthrough(hasher: Hasher, codec: TokenCodec, now: int)
    returns (created: Result<TaskView>, readBack: Result<TaskView>, seenByBob: Result<TaskView>,
             afterUpdate: Result<TaskView>, afterDelete: Result<TaskView>)
    requires hasher.Sound() && codec.RoundTrips()
    ensures created.Ok? && created.value.title == "x" && created.value.status == Pending
    ensures readBack == created
    ensures seenByBob == Err(TaskNotFound)
    ensures afterUpdate.Ok? && afterUpdate.value.status == Completed && afterUpdate.value.title == "x"
    ensures afterDelete == Err(TaskNotFound)
  {
    var app, aliceToken, bobToken := SignUpAliceAndBob(hasher, codec, now);
    var id, rejected;
    id, created, readBack, rejected, seenByBob := OthersCannotTouch(app, aliceToken, bobToken, now);
    afterUpdate, afterDelete := OwnerCompletesAndDeletes(app, aliceToken, id, now);
  }
}
