/** The account directory: the `users` collection keyed by email, the admin
    lookup the guards consult, and the two writes the server performs on it
    (registration and promotion to admin). */
module Accounts {
  import opened Documents
  import opened Entities

  /** No two account records share an email. */
  ghost predicate UniqueEmails(users: seq<Doc<User>>)
  {
    forall i, j :: 0 <= i < |users| && 0 <= j < |users| && users[i].body.email == users[j].body.email ==> i == j
  }

  /** `userCollection.findOne({email})`: the first record with that email. */
  function FindUser(users: seq<Doc<User>>, email: string): (r: Option<Doc<User>>)
    ensures r.Some? ==> r.value in users && r.value.body.email == email
    ensures r.None? <==> forall d :: d in users ==> d.body.email != email
  {
    FindFirst(users, (d: Doc<User>) => d.body.email == email)
  }

  /** `user?.role === 'admin'` on the record `findOne` returns. */
  predicate IsAdmin(users: seq<Doc<User>>, email: string)
    ensures IsAdmin(users, email) ==>
      exists d :: d in users && d.body.email == email && d.body.role == Some(AdminRole)
    ensures (forall d :: d in users ==> d.body.email != email) ==> !IsAdmin(users, email)
  {
    var u := FindUser(users, email);
    u.Some? && u.value.body.role == Some(AdminRole)
  }

  /** With emails unique, the admin lookup holds exactly when the directory
      holds a record with that email whose role is exactly "admin". */
  lemma AdminLookup(users: seq<Doc<User>>, email: string)
    requires UniqueEmails(users)
    ensures IsAdmin(users, email) <==>
      exists d :: d in users && d.body.email == email && d.body.role == Some(AdminRole)
  {
    var u := FindUser(users, email);
    if d :| d in users && d.body.email == email && d.body.role == Some(AdminRole) {
      var i :| 0 <= i < |users| && users[i] == d;
      var j :| 0 <= j < |users| && users[j] == u.value;
      assert users[i].body.email == users[j].body.email;
    }
  }

  /** `POST /users`: insert the body under `id` unless an account with that
      email exists, in which case the directory is left as it is. */
  function Register(users: seq<Doc<User>>, id: Id, u: User): (r: seq<Doc<User>>)
    ensures users <= r && |r| <= |users| + 1
    ensures (exists d :: d in users && d.body.email == u.email) ==> r == users
    ensures (forall d :: d in users ==> d.body.email != u.email) ==> r == users + [Doc(id, u)]
  {
    if FindUser(users, u.email).Some? then users else users + [Doc(id, u)]
  }

  /** Registration keeps emails unique and leaves exactly one record with the
      registered email, whether or not one existed before. */
  lemma RegisterKeepsEmailsUnique(users: seq<Doc<User>>, id: Id, u: User)
    requires UniqueEmails(users)
    ensures UniqueEmails(Register(users, id, u))
    ensures exists d :: d in Register(users, id, u) && d.body.email == u.email
  {
    var r := Register(users, id, u);
    if FindUser(users, u.email).None? {
      assert r[|users|] == Doc(id, u);
      forall i, j | 0 <= i < |r| && 0 <= j < |r| && r[i].body.email == r[j].body.email
        ensures i == j
      {
        if i < |users| && j < |users| {
          assert users[i].body.email == users[j].body.email;
        }
      }
    }
  }

  /** Registration stores the request body verbatim, role included: a new
      account whose body says role "admin" passes the admin lookup at once. */
  lemma RegisterTrustsBodyRole(users: seq<Doc<User>>, id: Id, u: User)
    requires UniqueEmails(users)
    requires FindUser(users, u.email).None? && u.role == Some(AdminRole)
    ensures IsAdmin(Register(users, id, u), u.email)
  {
    var r := Register(users, id, u);
    RegisterKeepsEmailsUnique(users, id, u);
    assert r[|users|] in r;
    AdminLookup(r, u.email);
  }

  /** A second registration of the same email changes nothing. */
  lemma RegisterIdempotent(users: seq<Doc<User>>, id: Id, id': Id, u: User, u': User)
    requires u'.email == u.email
    ensures Register(Register(users, id, u), id', u') == Register(users, id, u)
  {
    var r := Register(users, id, u);
    assert r[|r| - 1] in r;
  }

  /** `PATCH /users/admin/:id`: `$set: {role: 'admin'}` on the record with
      that id; every other record and every other field keeps its value. */
  function Promote(users: seq<Doc<User>>, id: Id): (r: seq<Doc<User>>)
    ensures |r| == |users|
    ensures forall i :: 0 <= i < |users| ==>
      r[i].id == users[i].id && r[i].body.email == users[i].body.email && r[i].body.name == users[i].body.name
    ensures forall i :: 0 <= i < |users| && users[i].id != id ==> r[i] == users[i]
    ensures forall i :: 0 <= i < |users| && users[i].id == id ==> r[i].body.role == Some(AdminRole)
  {
    seq(|users|, i requires 0 <= i < |users| =>
      if users[i].id == id then users[i].(body := users[i].body.(role := Some(AdminRole))) else users[i])
  }

  /** `updateOne` changes only the first record with the id; under a unique
      primary key that is the same as promoting every record with it. */
  lemma PromoteFirstMatch(users: seq<Doc<User>>, id: Id)
    requires UniqueIds(users)
    ensures var k := IndexWhere(users, (d: Doc<User>) => d.id == id);
      Promote(users, id) ==
        if k < |users| then users[k := users[k].(body := users[k].body.(role := Some(AdminRole)))] else users
  {
    var k := IndexWhere(users, (d: Doc<User>) => d.id == id);
    forall i | 0 <= i < |users| && i != k ensures users[i].id != id {
      if k < |users| {
        assert users[i].id == users[k].id ==> i == k;
      }
    }
  }

  /** Promotion keeps emails unique (it never touches an email). */
  lemma PromoteKeepsEmailsUnique(users: seq<Doc<User>>, id: Id)
    requires UniqueEmails(users)
    ensures UniqueEmails(Promote(users, id))
  {
    var r := Promote(users, id);
    forall i, j | 0 <= i < |r| && 0 <= j < |r| && r[i].body.email == r[j].body.email
      ensures i == j
    {
      assert users[i].body.email == users[j].body.email;
    }
  }

  /** After promotion the promoted account passes the admin lookup. */
  lemma PromoteGrantsAdmin(users: seq<Doc<User>>, id: Id, d: Doc<User>)
    requires UniqueEmails(users)
    requires d in users && d.id == id
    ensures IsAdmin(Promote(users, id), d.body.email)
  {
    var r := Promote(users, id);
    var i :| 0 <= i < |users| && users[i] == d;
    PromoteKeepsEmailsUnique(users, id);
    assert r[i] in r;
    AdminLookup(r, d.body.email);
  }

  /** Promotion does not change whether any other account is an admin. */
  lemma PromoteKeepsOthers(users: seq<Doc<User>>, id: Id, email: string)
    requires UniqueEmails(users)
    requires forall d :: d in users && d.id == id ==> d.body.email != email
    ensures IsAdmin(Promote(users, id), email) == IsAdmin(users, email)
  {
    var r := Promote(users, id);
    PromoteKeepsEmailsUnique(users, id);
    AdminLookup(users, email);
    AdminLookup(r, email);
    if IsAdmin(r, email) {
      var d :| d in r && d.body.email == email && d.body.role == Some(AdminRole);
      var i :| 0 <= i < |r| && r[i] == d;
      assert users[i] in users;
    }
    if IsAdmin(users, email) {
      var d :| d in users && d.body.email == email && d.body.role == Some(AdminRole);
      var i :| 0 <= i < |users| && users[i] == d;
      assert r[i] in r;
    }
  }
}
