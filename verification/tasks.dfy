/** The tasks collection: documents {_id, title, description, status, user_id}
    in the store's natural order, and the owner-scoped queries the endpoints
    run on it. Every filter names both the task id and the owner. */
module Tasks {
  import opened Http
  import opened Users

  /** TaskStatus, a string enum with exactly three values. */
  datatype TaskStatus = Pending | InProgress | Completed
  {
    /** The string value the API and the store carry. */
    function Label(): string
    {
      match this
      case Pending => "Pending"
      case InProgress => "In Progress"
      case Completed => "Completed"
    }
  }

  /** pydantic's validation of a status field: exactly one of the three labels. */
  function ParseStatus(s: string): (r: Option<TaskStatus>)
    ensures r.Some? ==> r.value.Label() == s
    ensures r.None? ==> forall st: TaskStatus :: st.Label() != s
  {
    if s == "Pending" then Some(Pending)
    else if s == "In Progress" then Some(InProgress)
    else if s == "Completed" then Some(Completed)
    else None
  }

  /** Every status is accepted under its own label, and under no other. */
  lemma StatusLabelRoundTrip(st: TaskStatus, s: string)
    ensures ParseStatus(st.Label()) == Some(st)
    ensures ParseStatus(s) == Some(st) <==> s == st.Label()
  {
  }

  /** A task body as the client sends it (TaskCreate and TaskUpdate alike),
      before the status is validated. */
  datatype TaskInput = TaskInput(title: string, description: string, status: string)

  /** A tasks document. */
  datatype TaskDoc = TaskDoc(id: Id, title: string, description: string, status: TaskStatus, userId: Id)
  {
    /** The JSON the endpoints return for a task: everything but user_id. */
    function View(): TaskView
    {
      TaskView(id, title, description, status)
    }
  }

  datatype TaskView = TaskView(id: Id, title: string, description: string, status: TaskStatus)

  /** The filter {"_id": id, "user_id": owner}. */
  predicate Matches(t: TaskDoc, id: Id, owner: Id)
  {
    t.id == id && t.userId == owner
  }

  /** No two documents share an _id. */
  ghost predicate UniqueTaskIds(tasks: seq<TaskDoc>)
  {
    forall i, j :: 0 <= i < j < |tasks| ==> tasks[i].id != tasks[j].id
  }

  /** The position of the first document the owner-scoped filter matches. */
  function FirstMatch(tasks: seq<TaskDoc>, id: Id, owner: Id): (r: Option<nat>)
    ensures r.None? <==> forall i :: 0 <= i < |tasks| ==> !Matches(tasks[i], id, owner)
    ensures r.Some? ==> r.value < |tasks| && Matches(tasks[r.value], id, owner)
    ensures r.Some? ==> forall j :: 0 <= j < r.value ==> !Matches(tasks[j], id, owner)
  {
    if tasks == [] then None
    else if Matches(tasks[0], id, owner) then Some(0)
    else match FirstMatch(tasks[1..], id, owner)
      case None => None
      case Some(i) => Some(i + 1)
  }

  /** find_one with the owner-scoped filter, as get_task runs it. */
  function FindOwned(tasks: seq<TaskDoc>, id: Id, owner: Id): (r: Option<TaskDoc>)
    ensures r.Some? <==> exists t :: t in tasks && Matches(t, id, owner)
    ensures r.Some? ==> r.value in tasks && Matches(r.value, id, owner)
  {
    match FirstMatch(tasks, id, owner)
    case None => None
    case Some(i) => Some(tasks[i])
  }

  /** find({"user_id": owner}): the owner's documents, in natural order. */
  function OwnedBy(tasks: seq<TaskDoc>, owner: Id): (r: seq<TaskDoc>)
    ensures |r| <= |tasks|
    ensures forall t :: t in r <==> t in tasks && t.userId == owner
  {
    if tasks == [] then []
    else
      assert tasks == [tasks[0]] + tasks[1..];
      if tasks[0].userId == owner then [tasks[0]] + OwnedBy(tasks[1..], owner)
      else OwnedBy(tasks[1..], owner)
  }

  /** find returns each of the owner's documents as often as it is stored,
      and no other document. */
  lemma {:induction false} OwnedByCounts(tasks: seq<TaskDoc>, owner: Id)
    ensures forall t :: multiset(OwnedBy(tasks, owner))[t] == if t.userId == owner then multiset(tasks)[t] else 0
  {
    if tasks != [] {
      OwnedByCounts(tasks[1..], owner);
      assert tasks == [tasks[0]] + tasks[1..];
    }
  }

  /** The list comprehension of get_tasks. */
  function Views(tasks: seq<TaskDoc>): (r: seq<TaskView>)
    ensures |r| == |tasks|
    ensures forall i :: 0 <= i < |tasks| ==> r[i] == tasks[i].View()
    ensures forall v :: v in r <==> exists t :: t in tasks && t.View() == v
  {
    seq(|tasks|, i requires 0 <= i < |tasks| => tasks[i].View())
  }

  /** update_one(filter, {"$set": payload}): the first document the
      owner-scoped filter matches gets the three payload fields. */
  function UpdateOne(tasks: seq<TaskDoc>, id: Id, owner: Id, title: string, description: string, status: TaskStatus)
    : (r: seq<TaskDoc>)
    ensures |r| == |tasks|
    ensures forall i :: 0 <= i < |tasks| ==> r[i].id == tasks[i].id && r[i].userId == tasks[i].userId
  {
    if tasks == [] then []
    else if Matches(tasks[0], id, owner) then
      [tasks[0].(title := title, description := description, status := status)] + tasks[1..]
    else
      [tasks[0]] + UpdateOne(tasks[1..], id, owner, title, description, status)
  }

  /** delete_one(filter): the first document the owner-scoped filter matches
      is removed. */
  function DeleteOne(tasks: seq<TaskDoc>, id: Id, owner: Id): (r: seq<TaskDoc>)
    ensures |r| == |tasks| || |r| == |tasks| - 1
  {
    if tasks == [] then []
    else if Matches(tasks[0], id, owner) then tasks[1..]
    else [tasks[0]] + DeleteOne(tasks[1..], id, owner)
  }

  /** Replacing an element of a sequence's tail is replacing it one
      position further in the whole sequence. */
  lemma ConsOfUpdate<T>(s: seq<T>, k: nat, x: T)
    requires k + 1 < |s|
    ensures [s[0]] + s[1..][k := x] == s[k + 1 := x]
  {
  }

  /** Removing an element of a sequence's tail is removing it one position
      further in the whole sequence. */
  lemma ConsOfRemoval<T>(s: seq<T>, k: nat)
    requires k + 1 < |s|
    ensures [s[0]] + (s[1..][..k] + s[1..][k + 1..]) == s[..k + 1] + s[k + 2..]
  {
  }

  /** update_one changes nothing when no document matches; otherwise it
      overwrites title, description and status of the first match, keeps
      its _id and user_id, and leaves every other document as it was. */
  lemma {:induction false} UpdateOneFrame(tasks: seq<TaskDoc>, id: Id, owner: Id, title: string, description: string, status: TaskStatus)
    ensures UpdateOne(tasks, id, owner, title, description, status)
            == match FirstMatch(tasks, id, owner)
               case None => tasks
               case Some(k) => tasks[k := TaskDoc(id, title, description, status, owner)]
  {
    var updated := TaskDoc(id, title, description, status, owner);
    if tasks == [] {
    } else if Matches(tasks[0], id, owner) {
      assert tasks[0].(title := title, description := description, status := status) == updated;
      assert [updated] + tasks[1..] == tasks[0 := updated];
    } else {
      var tail := tasks[1..];
      assert UpdateOne(tasks, id, owner, title, description, status)
          == [tasks[0]] + UpdateOne(tail, id, owner, title, description, status);
      UpdateOneFrame(tail, id, owner, title, description, status);
      match FirstMatch(tail, id, owner)
      case Some(k) =>
        assert FirstMatch(tasks, id, owner) == Some(k + 1);
        ConsOfUpdate(tasks, k, updated);
      case None =>
        assert FirstMatch(tasks, id, owner).None?;
        assert [tasks[0]] + tail == tasks;
    }
  }

  /** delete_one changes nothing when no document matches; otherwise it
      removes exactly the first match and keeps the others in order. */
  lemma {:induction false} DeleteOneFrame(tasks: seq<TaskDoc>, id: Id, owner: Id)
    ensures DeleteOne(tasks, id, owner)
            == match FirstMatch(tasks, id, owner)
               case None => tasks
               case Some(k) => tasks[..k] + tasks[k + 1..]
  {
    if tasks == [] {
    } else if Matches(tasks[0], id, owner) {
      assert tasks[..0] + tasks[1..] == tasks[1..];
    } else {
      DeleteOneFrame(tasks[1..], id, owner);
      DeleteOneFrameStep(tasks, id, owner);
    }
  }

  /** The step of DeleteOneFrame past a first document that does not match. */
  lemma DeleteOneFrameStep(tasks: seq<TaskDoc>, id: Id, owner: Id)
    requires tasks != [] && !Matches(tasks[0], id, owner)
    requires DeleteOne(tasks[1..], id, owner)
             == match FirstMatch(tasks[1..], id, owner)
                case None => tasks[1..]
                case Some(k) => tasks[1..][..k] + tasks[1..][k + 1..]
    ensures DeleteOne(tasks, id, owner)
            == match FirstMatch(tasks, id, owner)
               case None => tasks
               case Some(k) => tasks[..k] + tasks[k + 1..]
  {
    var tail := tasks[1..];
    assert DeleteOne(tasks, id, owner) == [tasks[0]] + DeleteOne(tail, id, owner);
    match FirstMatch(tail, id, owner)
    case Some(k) =>
      assert FirstMatch(tasks, id, owner) == Some(k + 1);
      ConsOfRemoval(tasks, k);
    case None =>
      assert FirstMatch(tasks, id, owner).None?;
      assert [tasks[0]] + tail == tasks;
  }

  /** delete_one adds nothing: what remains is a sub-multiset of what was
      stored, so no document is duplicated either. */
  lemma {:induction false} DeleteOneSubMultiset(tasks: seq<TaskDoc>, id: Id, owner: Id)
    ensures multiset(DeleteOne(tasks, id, owner)) <= multiset(tasks)
  {
    if tasks != [] {
      DeleteOneSubMultiset(tasks[1..], id, owner);
      assert tasks == [tasks[0]] + tasks[1..];
    }
  }

  /** update_one never changes an _id or a user_id: each document after it
      carries the id and owner of one before it, and ids stay unique. */
  lemma UpdateOneKeepsIdsAndOwners(tasks: seq<TaskDoc>, id: Id, owner: Id, title: string, description: string, status: TaskStatus)
    ensures forall t :: t in UpdateOne(tasks, id, owner, title, description, status) ==>
              exists u :: u in tasks && u.id == t.id && u.userId == t.userId
    ensures UniqueTaskIds(tasks) ==> UniqueTaskIds(UpdateOne(tasks, id, owner, title, description, status))
  {
    var r := UpdateOne(tasks, id, owner, title, description, status);
    forall t | t in r
      ensures exists u :: u in tasks && u.id == t.id && u.userId == t.userId
    {
      var i :| 0 <= i < |r| && r[i] == t;
      assert tasks[i] in tasks;
    }
  }

  /** With unique ids, the only task an update touches is the one with that
      id, and only when its owner is the caller. */
  lemma UpdateOneEffect(tasks: seq<TaskDoc>, id: Id, owner: Id, title: string, description: string, status: TaskStatus, k: nat)
    requires UniqueTaskIds(tasks)
    requires k < |tasks|
    ensures var r := UpdateOne(tasks, id, owner, title, description, status);
            r[k] == if Matches(tasks[k], id, owner) then TaskDoc(id, title, description, status, owner) else tasks[k]
  {
    UpdateOneFrame(tasks, id, owner, title, description, status);
  }

  /** delete_one adds nothing and keeps every document the filter does
      not match. */
  lemma {:induction false} DeleteOneMembers(tasks: seq<TaskDoc>, id: Id, owner: Id)
    ensures forall t :: t in DeleteOne(tasks, id, owner) ==> t in tasks
    ensures forall t :: t in tasks && !Matches(t, id, owner) ==> t in DeleteOne(tasks, id, owner)
  {
    if tasks != [] {
      var tail := tasks[1..];
      assert tasks == [tasks[0]] + tail;
      if !Matches(tasks[0], id, owner) {
        DeleteOneMembers(tail, id, owner);
        assert DeleteOne(tasks, id, owner) == [tasks[0]] + DeleteOne(tail, id, owner);
      }
    }
  }

  /** Ids unique in a collection stay unique in its tail, and none of them
      is the first document's id. */
  lemma TailKeepsUniqueIds(tasks: seq<TaskDoc>)
    requires tasks != [] && UniqueTaskIds(tasks)
    ensures UniqueTaskIds(tasks[1..])
    ensures forall u :: u in tasks[1..] ==> u.id != tasks[0].id
  {
    var tail := tasks[1..];
    forall i, j | 0 <= i < j < |tail| ensures tail[i].id != tail[j].id {
      assert tail[i] == tasks[i + 1] && tail[j] == tasks[j + 1];
    }
    forall u | u in tail ensures u.id != tasks[0].id {
      var j :| 0 <= j < |tail| && tail[j] == u;
      assert tasks[j + 1] == u;
    }
  }

  /** Putting in front a document whose id no other document has keeps ids
      unique. */
  lemma ConsKeepsUniqueIds(t: TaskDoc, rest: seq<TaskDoc>)
    requires UniqueTaskIds(rest)
    requires forall u :: u in rest ==> u.id != t.id
    ensures UniqueTaskIds([t] + rest)
  {
    var r := [t] + rest;
    forall i, j | 0 <= i < j < |r| ensures r[i].id != r[j].id {
      assert r[j] == rest[j - 1];
      if i > 0 {
        assert r[i] == rest[i - 1];
      }
    }
  }

  /** With unique ids, a delete leaves no task with that id owned by the
      caller, every other task remains, and ids stay unique. */
  lemma {:induction false} DeleteOneEffect(tasks: seq<TaskDoc>, id: Id, owner: Id)
    requires UniqueTaskIds(tasks)
    ensures forall t :: t in DeleteOne(tasks, id, owner) ==> !Matches(t, id, owner)
    ensures forall t :: t in tasks && !Matches(t, id, owner) ==> t in DeleteOne(tasks, id, owner)
    ensures UniqueTaskIds(DeleteOne(tasks, id, owner))
  {
    DeleteOneMembers(tasks, id, owner);
    if tasks != [] {
      var tail := tasks[1..];
      TailKeepsUniqueIds(tasks);
      if !Matches(tasks[0], id, owner) {
        DeleteOneEffect(tail, id, owner);
        DeleteOneMembers(tail, id, owner);
        assert DeleteOne(tasks, id, owner) == [tasks[0]] + DeleteOne(tail, id, owner);
        ConsKeepsUniqueIds(tasks[0], DeleteOne(tail, id, owner));
      }
    }
  }

  /** A task whose id is held by another user's task matches nothing for
      the caller: with unique ids the caller's filter cannot tell it from a
      task that does not exist. */
  lemma ForeignIdMatchesNothing(tasks: seq<TaskDoc>, k: nat, owner: Id)
    requires UniqueTaskIds(tasks)
    requires k < |tasks| && tasks[k].userId != owner
    ensures FirstMatch(tasks, tasks[k].id, owner).None?
    ensures FindOwned(tasks, tasks[k].id, owner).None?
  {
  }

  /** find_one looks at the first document, then at the rest. */
  lemma FindOwnedUnfold(tasks: seq<TaskDoc>, id: Id, owner: Id)
    requires tasks != []
    ensures FindOwned(tasks, id, owner)
            == if Matches(tasks[0], id, owner) then Some(tasks[0]) else FindOwned(tasks[1..], id, owner)
  {
    if !Matches(tasks[0], id, owner) {
      match FirstMatch(tasks[1..], id, owner)
      case Some(k) => assert FirstMatch(tasks, id, owner) == Some(k + 1);
      case None =>
    }
  }

  /** What the caller's filter finds depends only on the caller's own
      tasks: filtering first by owner changes no answer. */
  lemma {:induction false} CallerSeesOnlyOwnTasks(tasks: seq<TaskDoc>, id: Id, owner: Id)
    ensures FindOwned(tasks, id, owner) == FindOwned(OwnedBy(tasks, owner), id, owner)
  {
    if tasks != [] {
      var tail := tasks[1..];
      FindOwnedUnfold(tasks, id, owner);
      CallerSeesOnlyOwnTasks(tail, id, owner);
      if tasks[0].userId == owner {
        var own := [tasks[0]] + OwnedBy(tail, owner);
        assert OwnedBy(tasks, owner) == own;
        assert own[1..] == OwnedBy(tail, owner);
        FindOwnedUnfold(own, id, owner);
      } else {
        assert OwnedBy(tasks, owner) == OwnedBy(tail, owner);
      }
    }
  }

  /** Two stores holding the same tasks for the caller answer every one of
      the caller's reads in the same way. */
  lemma SameOwnTasksSameAnswers(a: seq<TaskDoc>, b: seq<TaskDoc>, id: Id, owner: Id)
    requires OwnedBy(a, owner) == OwnedBy(b, owner)
    ensures FindOwned(a, id, owner) == FindOwned(b, id, owner)
    ensures FirstMatch(a, id, owner).None? <==> FirstMatch(b, id, owner).None?
  {
    CallerSeesOnlyOwnTasks(a, id, owner);
    CallerSeesOnlyOwnTasks(b, id, owner);
  }

  /** Inserting a task adds it to its owner's list and to no other. */
  lemma {:induction false} OwnedByAfterInsert(tasks: seq<TaskDoc>, t: TaskDoc, owner: Id)
    ensures OwnedBy(tasks + [t], owner) == OwnedBy(tasks, owner) + (if t.userId == owner then [t] else [])
  {
    if tasks == [] {
      assert tasks + [t] == [t];
    } else {
      assert (tasks + [t])[1..] == tasks[1..] + [t];
      OwnedByAfterInsert(tasks[1..], t, owner);
    }
  }

  /** An update by one owner leaves every other owner's tasks unchanged. */
  lemma {:induction false} UpdateOneIsolated(tasks: seq<TaskDoc>, id: Id, owner: Id, title: string, description: string, status: TaskStatus, other: Id)
    requires other != owner
    ensures OwnedBy(UpdateOne(tasks, id, owner, title, description, status), other) == OwnedBy(tasks, other)
  {
    if tasks != [] {
      var r := UpdateOne(tasks, id, owner, title, description, status);
      if Matches(tasks[0], id, owner) {
        assert r[1..] == tasks[1..];
      } else {
        assert r[1..] == UpdateOne(tasks[1..], id, owner, title, description, status);
        UpdateOneIsolated(tasks[1..], id, owner, title, description, status, other);
      }
    }
  }

  /** A delete by one owner leaves every other owner's tasks unchanged. */
  lemma {:induction false} DeleteOneIsolated(tasks: seq<TaskDoc>, id: Id, owner: Id, other: Id)
    requires other != owner
    ensures OwnedBy(DeleteOne(tasks, id, owner), other) == OwnedBy(tasks, other)
  {
    if tasks != [] && !Matches(tasks[0], id, owner) {
      var r := DeleteOne(tasks, id, owner);
      assert r == [tasks[0]] + DeleteOne(tasks[1..], id, owner);
      assert r[1..] == DeleteOne(tasks[1..], id, owner);
      DeleteOneIsolated(tasks[1..], id, owner, other);
    }
  }
}
