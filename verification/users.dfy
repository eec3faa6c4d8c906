/** The users collection: documents {_id, username, hashed_password} in the
    store's natural order. */
module Users {
  import opened Http

  /** A store-generated ObjectId, carried as str(ObjectId). */
  type Id = nat

  /** A users document, and the User model get_user builds from it. */
  datatype UserDoc = UserDoc(id: Id, username: string, hashedPassword: string)

  /** get_user: find_one({"username": username}), the first document in
      natural order with that username, or nothing. */
  function FindUser(users: seq<UserDoc>, username: string): (r: Option<UserDoc>)
    ensures r.None? <==> forall i :: 0 <= i < |users| ==> users[i].username != username
    ensures r.Some? ==> r.value in users && r.value.username == username
  {
    if users == [] then None
    else if users[0].username == username then Some(users[0])
    else FindUser(users[1..], username)
  }

  /** No two documents share a username. */
  ghost predicate UniqueUsernames(users: seq<UserDoc>)
  {
    forall i, j :: 0 <= i < j < |users| ==> users[i].username != users[j].username
  }

  /** Some document of the collection has this _id. */
  ghost predicate HasUser(users: seq<UserDoc>, id: Id)
  {
    exists u :: u in users && u.id == id
  }

  /** With unique usernames, looking a user up by name finds that very user. */
  lemma {:induction false} FindUserFindsTheOne(users: seq<UserDoc>, k: nat)
    requires UniqueUsernames(users)
    requires k < |users|
    ensures FindUser(users, users[k].username) == Some(users[k])
  {
    if k > 0 {
      assert users[0].username != users[k].username;
      assert users[1..][k - 1] == users[k];
      FindUserFindsTheOne(users[1..], k - 1);
    }
  }

  /** Inserting a document leaves every earlier lookup as it was; only a
      username that was absent can now find the new document. */
  lemma {:induction false} FindUserAfterInsert(users: seq<UserDoc>, u: UserDoc, username: string)
    ensures FindUser(users + [u], username)
            == if FindUser(users, username).Some? then FindUser(users, username)
               else if u.username == username then Some(u)
               else None
  {
    if users == [] {
      assert users + [u] == [u];
    } else {
      assert (users + [u])[1..] == users[1..] + [u];
      FindUserAfterInsert(users[1..], u, username);
    }
  }

  /** Inserting a user whose name is absent keeps usernames unique. */
  lemma InsertKeepsUsernamesUnique(users: seq<UserDoc>, u: UserDoc)
    requires UniqueUsernames(users)
    requires FindUser(users, u.username).None?
    ensures UniqueUsernames(users + [u])
  {
  }
}
