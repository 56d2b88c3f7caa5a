/** The relational store the backend talks to: the `Users` and `Note`
    tables and the model operations the controllers call on them
    (`create`, `findAll`, `findOne`, `findByPk`, bulk `update` and
    `destroy` with a WHERE clause, and `save`/`destroy` on an instance).
    Every operation is sequential; the tables are maps from primary key to
    row. */
module Database {
  import opened Common
  import opened Crypto
  import opened NoteModel
  import opened UserModel

  /** The exceptions the persistence layer throws. */
  datatype StoreError =
    | NotNullViolation(columns: seq<string>)    // a note with a missing NOT NULL column
    | UserValidation(violations: seq<Violation>) // a user failing its column validators
    | UniqueViolation(column: string)
    | ForeignKeyViolation
    | UndefinedWhere(column: string)            // a WHERE clause given `undefined`
    | Fault(message: string)                    // connection loss and every other failure

  datatype Result<T> = Ok(value: T) | Err(error: StoreError)

  /** Which store call of a request throws (counting the calls a handler
      makes from 0), with the message of the error. */
  datatype Faults = NoFault | FailsAt(call: nat, message: string) {
    predicate Hits(n: nat) {
      FailsAt? && call == n
    }
  }

  /** Each user row sits under its own id, below the counter, with a well
      formed address. */
  ghost predicate UsersTable(users: map<nat, User>, nextUserId: nat) {
    forall id :: id in users ==> users[id].id == id && id < nextUserId && IsEmail(users[id].email)
  }

  /** Each note row sits under its own id, below the counter, and belongs to
      an existing user. */
  ghost predicate NotesTable(notes: map<nat, Note>, nextNoteId: nat, users: map<nat, User>) {
    forall id :: id in notes ==> notes[id].id == id && id < nextNoteId && notes[id].userId in users
  }

  /** No two users share an e-mail address. */
  ghost predicate EmailsUnique(users: map<nat, User>) {
    forall a, b :: a in users && b in users && users[a].email == users[b].email ==> a == b
  }

  /** The schema's integrity constraints over both tables and counters. */
  ghost predicate Tables(users: map<nat, User>, notes: map<nat, Note>, nextUserId: nat, nextNoteId: nat) {
    UsersTable(users, nextUserId) && NotesTable(notes, nextNoteId, users) && EmailsUnique(users)
  }

  /** Inserting a note under the next id, for an existing owner. */
  lemma AddNote(users: map<nat, User>, notes: map<nat, Note>, nextUserId: nat, nextNoteId: nat, n: Note)
    requires Tables(users, notes, nextUserId, nextNoteId) && n.id == nextNoteId && n.userId in users
    ensures Tables(users, notes[n.id := n], nextUserId, nextNoteId + 1)
  {
  }

  /** Overwriting a note row in place, under its own id and for an existing
      owner. */
  lemma ReplaceNote(users: map<nat, User>, notes: map<nat, Note>, nextUserId: nat, nextNoteId: nat, n: Note)
    requires Tables(users, notes, nextUserId, nextNoteId) && n.id in notes && n.userId in users
    ensures Tables(users, notes[n.id := n], nextUserId, nextNoteId)
  {
  }

  /** Removing a note row. */
  lemma RemoveNote(users: map<nat, User>, notes: map<nat, Note>, nextUserId: nat, nextNoteId: nat, id: nat)
    requires Tables(users, notes, nextUserId, nextNoteId)
    ensures Tables(users, notes - {id}, nextUserId, nextNoteId)
  {
  }

  /** Inserting a user under the next id with a well formed address that no
      other user has. */
  lemma AddUser(users: map<nat, User>, notes: map<nat, Note>, nextUserId: nat, nextNoteId: nat, u: User)
    requires Tables(users, notes, nextUserId, nextNoteId)
    requires u.id == nextUserId && IsEmail(u.email)
    requires !exists id :: id in users && users[id].email == u.email
    ensures Tables(users[u.id := u], notes, nextUserId + 1, nextNoteId)
  {
  }

  /** Removing a user together with that user's notes. */
  lemma DropUser(users: map<nat, User>, notes: map<nat, Note>, nextUserId: nat, nextNoteId: nat, id: nat)
    requires Tables(users, notes, nextUserId, nextNoteId)
    ensures Tables(users - {id}, NotesNotOwnedBy(notes, id), nextUserId, nextNoteId)
  {
  }

  /** The note table without the rows of user `id`, as the cascade leaves it. */
  function NotesNotOwnedBy(notes: map<nat, Note>, id: nat): (r: map<nat, Note>)
    ensures forall k :: k in r <==> k in notes && notes[k].userId != id
    ensures forall k :: k in r ==> r[k] == notes[k]
  {
    map k | k in notes && notes[k].userId != id :: notes[k]
  }

  /** Rows sorted by `createdAt`, newest first (`ORDER BY createdAt DESC`). */
  predicate NewestFirst(rs: seq<Note>) {
    forall i, j :: 0 <= i < j < |rs| ==> rs[i].createdAt >= rs[j].createdAt
  }

  /** Inserts `n` into a newest-first list, keeping it newest first. */
  function InsertNewestFirst(rs: seq<Note>, n: Note): (r: seq<Note>)
    requires NewestFirst(rs)
    ensures NewestFirst(r)
    ensures multiset(r) == multiset(rs) + multiset{n}
    decreases |rs|
  {
    if rs == [] || n.createdAt >= rs[0].createdAt then
      [n] + rs
    else
      var tail := InsertNewestFirst(rs[1..], n);
      KeepHead(rs, n, tail);
      [rs[0]] + tail
  }

  /** Putting the head of `rs` back in front of the tail with `n` inserted
      keeps the order and the contents. */
  lemma KeepHead(rs: seq<Note>, n: Note, tail: seq<Note>)
    requires NewestFirst(rs) && rs != [] && n.createdAt < rs[0].createdAt
    requires NewestFirst(tail) && multiset(tail) == multiset(rs[1..]) + multiset{n}
    ensures NewestFirst([rs[0]] + tail)
    ensures multiset([rs[0]] + tail) == multiset(rs) + multiset{n}
  {
    assert rs == [rs[0]] + rs[1..];
    assert forall x :: x in rs[1..] ==> x.createdAt <= rs[0].createdAt by {
      forall x | x in rs[1..]
        ensures x.createdAt <= rs[0].createdAt
      {
        var j :| 0 <= j < |rs[1..]| && rs[1..][j] == x;
        assert rs[j + 1] == x;
      }
    }
    BoundedByHead(tail, rs[1..], n, rs[0].createdAt);
  }

  /** A rearrangement of rows that all lie at or below `top`, plus one more
      such row, still lies at or below `top`. */
  lemma BoundedByHead(tail: seq<Note>, rest: seq<Note>, n: Note, top: int)
    requires multiset(tail) == multiset(rest) + multiset{n}
    requires forall x :: x in rest ==> x.createdAt <= top
    requires n.createdAt <= top
    ensures forall x :: x in tail ==> x.createdAt <= top
  {
    forall x | x in tail
      ensures x.createdAt <= top
    {
      assert x in multiset(tail);
      if x != n {
        assert x in multiset(rest);
      }
    }
  }

  /** `rs` holds, exactly once each, the rows of `notes` under the keys in
      `visited` that belong to `owner`, and nothing else. */
  ghost predicate ListsExactly(rs: seq<Note>, notes: map<nat, Note>, visited: set<nat>, owner: nat) {
    forall m :: multiset(rs)[m] ==
                if m.id in visited && m.id in notes && notes[m.id] == m && m.userId == owner then 1 else 0
  }

  /** One step of a table scan: visiting key `id` adds its row to the listing
      exactly when the row belongs to `owner`. */
  lemma VisitOne(rs: seq<Note>, rs': seq<Note>, notes: map<nat, Note>, visited: set<nat>, id: nat, owner: nat)
    requires ListsExactly(rs, notes, visited, owner)
    requires id in notes && id !in visited && notes[id].id == id
    requires multiset(rs') == multiset(rs) + if notes[id].userId == owner then multiset{notes[id]} else multiset{}
    ensures ListsExactly(rs', notes, visited + {id}, owner)
  {
    var n := notes[id];
    assert multiset(rs)[n] == 0;
    forall m
      ensures multiset(rs')[m] ==
              if m.id in visited + {id} && m.id in notes && notes[m.id] == m && m.userId == owner then 1 else 0
    {
      if m != n {
        assert multiset(rs')[m] == multiset(rs)[m];
      }
    }
  }

  /** Moving one key from the pending to the visited part of a partition
      keeps it a partition of the same set. */
  lemma MoveKey(visited: set<nat>, pending: set<nat>, id: nat)
    requires visited !! pending && id in pending
    ensures (visited + {id}) !! (pending - {id})
    ensures (visited + {id}) + (pending - {id}) == visited + pending
  {
  }

  /** An UPDATE of `title` and `content`: a column whose new value is
      `undefined` is dropped from the statement and keeps its value. */
  function Patched(n: Note, title: Option<string>, content: Option<string>): (p: Note)
    ensures p.id == n.id && p.userId == n.userId && p.createdAt == n.createdAt
    ensures p.title == (if title.Some? then title.value else n.title)
    ensures p.content == (if content.Some? then content.value else n.content)
  {
    n.(title := if title.Some? then title.value else n.title,
       content := if content.Some? then content.value else n.content)
  }

  /** Some column of the UPDATE is defined, so `update` has a statement to
      send. */
  predicate Settable(title: Option<string>, content: Option<string>) {
    title.Some? || content.Some?
  }

  class Db {
    var users: map<nat, User>
    var notes: map<nat, Note>
    var nextUserId: nat
    var nextNoteId: nat

    /** The schema's constraints: primary keys match the rows' ids and stay
        below the auto-increment counters, every note references an existing
        user, and e-mail addresses are well formed and unique. */
    ghost predicate Valid()
      reads this
    {
      Tables(users, notes, nextUserId, nextNoteId)
    }

    constructor()
      ensures Valid()
      ensures users == map[] && notes == map[] && nextUserId == 1 && nextNoteId == 1
    {
      users, notes := map[], map[];
      nextUserId, nextNoteId := 1, 1;
    }

    // ---------------------------------------------------------------
    // Note queries

    /** `Note.findByPk(id)`. */
    function FindByPk(id: nat): (r: Option<Note>)
      reads this
      ensures r.Some? <==> id in notes
      ensures r.Some? ==> r.value == notes[id]
    {
      if id in notes then Some(notes[id]) else None
    }

    /** `Note.findOne({ where: { id, userId: owner } })`: one query filtering
        on both columns, so an absent row and another owner's row give the
        same answer. */
    function FindOne(id: nat, owner: nat): (r: Option<Note>)
      reads this
      ensures r.Some? <==> id in notes && notes[id].userId == owner
      ensures r.Some? ==> r.value == notes[id]
    {
      if id in notes && notes[id].userId == owner then Some(notes[id]) else None
    }

    /** `Note.findAll({ where: { userId: owner } })`, with
        `order: [['createdAt', 'DESC']]` when `newestFirst`: each of the
        owner's notes exactly once, and nothing else. */
    method FindAll(owner: nat, newestFirst: bool) returns (rs: seq<Note>)
      requires Valid()
      ensures ListsExactly(rs, notes, notes.Keys, owner)
      ensures newestFirst ==> NewestFirst(rs)
    {
      rs := [];
      var pending := notes.Keys;
      ghost var visited: set<nat> := {};
      while pending != {}
        invariant visited !! pending && visited + pending == notes.Keys
        invariant ListsExactly(rs, notes, visited, owner)
        invariant newestFirst ==> NewestFirst(rs)
        decreases pending
      {
        var id :| id in pending;
        var n := notes[id];
        ghost var before := rs;
        if n.userId == owner {
          if newestFirst {
            rs := InsertNewestFirst(rs, n);
          } else {
            rs := rs + [n];
          }
        }
        VisitOne(before, rs, notes, visited, id, owner);
        MoveKey(visited, pending, id);
        pending := pending - {id};
        visited := visited + {id};
      }
    }

    // ---------------------------------------------------------------
    // User queries

    /** `User.findByPk(id)`. */
    function FindUserByPk(id: nat): (r: Option<User>)
      reads this
      ensures r.Some? <==> id in users
      ensures r.Some? ==> r.value == users[id]
    {
      if id in users then Some(users[id]) else None
    }

    /** `User.findOne({ where: { email } })`: the only user with that
        address, if any. */
    function FindUserByEmail(email: string): (r: Option<User>)
      reads this
      requires Valid()
      ensures r.Some? <==> exists id :: id in users && users[id].email == email
      ensures r.Some? ==> r.value.id in users && users[r.value.id] == r.value && r.value.email == email
    {
      if exists id :: id in users && users[id].email == email then
        var id :| id in users && users[id].email == email;
        Some(users[id])
      else
        None
    }

    // ---------------------------------------------------------------
    // Note writes

    /** `Note.create({ title, content, userId })`: the NOT NULL checks, then
        the foreign key, then an insert under the next auto-increment id. */
    method CreateNote(title: Option<string>, content: Option<string>, userId: nat, now: int)
      returns (r: Result<Note>)
      requires Valid()
      modifies this
      ensures Valid()
      ensures users == old(users) && nextUserId == old(nextUserId)
      ensures r.Ok? <==> title.Some? && content.Some? && userId in users
      ensures r.Ok? ==>
        && r.value == Note(old(nextNoteId), userId, title.value, content.value, now)
        && r.value.id !in old(notes)
        && notes == old(notes)[r.value.id := r.value]
        && nextNoteId == old(nextNoteId) + 1
      ensures r.Err? ==> notes == old(notes) && nextNoteId == old(nextNoteId)
      ensures r.Err? && NullColumns(title, content) != [] ==> r.error == NotNullViolation(NullColumns(title, content))
      ensures r.Err? && NullColumns(title, content) == [] ==> r.error == ForeignKeyViolation
    {
      var missing := NullColumns(title, content);
      if missing != [] {
        return Err(NotNullViolation(missing));
      }
      if userId !in users {
        return Err(ForeignKeyViolation);
      }
      var n := Note(nextNoteId, userId, title.value, content.value, now);
      AddNote(users, notes, nextUserId, nextNoteId, n);
      notes := notes[n.id := n];
      nextNoteId := nextNoteId + 1;
      r := Ok(n);
    }

    /** `Note.update({ title, content }, { where: { id, userId: owner } })`,
        returning the number of rows matched. `update` drops the undefined
        values first; when none is left it sends no query and reports 0. */
    method UpdateWhere(id: nat, owner: nat, title: Option<string>, content: Option<string>)
      returns (count: nat)
      requires Valid()
      modifies this
      ensures Valid()
      ensures users == old(users) && nextUserId == old(nextUserId) && nextNoteId == old(nextNoteId)
      ensures count == if Settable(title, content) && old(FindOne(id, owner)).Some? then 1 else 0
      ensures count == 1 ==> notes == old(notes)[id := Patched(old(notes)[id], title, content)]
      ensures count == 0 ==> notes == old(notes)
    {
      if Settable(title, content) && id in notes && notes[id].userId == owner {
        ReplaceNote(users, notes, nextUserId, nextNoteId, Patched(notes[id], title, content));
        notes := notes[id := Patched(notes[id], title, content)];
        count := 1;
      } else {
        count := 0;
      }
    }

    /** `Note.destroy({ where: { id, userId: owner } })`, returning the
        number of rows removed. */
    method DestroyWhere(id: nat, owner: nat) returns (count: nat)
      requires Valid()
      modifies this
      ensures Valid()
      ensures users == old(users) && nextUserId == old(nextUserId) && nextNoteId == old(nextNoteId)
      ensures count == if old(FindOne(id, owner)).Some? then 1 else 0
      ensures count == 1 ==> notes == old(notes) - {id}
      ensures count == 0 ==> notes == old(notes)
    {
      if id in notes && notes[id].userId == owner {
        RemoveNote(users, notes, nextUserId, nextNoteId, id);
        notes := notes - {id};
        count := 1;
      } else {
        count := 0;
      }
    }

    /** `note.title = title; note.content = content; await note.save()` on
        an instance read from the table: the NOT NULL checks, then a write
        of the row. */
    method Save(instance: Note, title: Option<string>, content: Option<string>)
      returns (r: Result<Note>)
      requires Valid() && FindByPk(instance.id) == Some(instance)
      modifies this
      ensures Valid()
      ensures users == old(users) && nextUserId == old(nextUserId) && nextNoteId == old(nextNoteId)
      ensures r.Ok? <==> title.Some? && content.Some?
      ensures r.Ok? ==> r.value == instance.(title := title.value, content := content.value)
      ensures r.Ok? ==> notes == old(notes)[instance.id := r.value]
      ensures r.Err? ==> notes == old(notes) && r.error == NotNullViolation(NullColumns(title, content))
    {
      var missing := NullColumns(title, content);
      if missing != [] {
        return Err(NotNullViolation(missing));
      }
      var n := instance.(title := title.value, content := content.value);
      ReplaceNote(users, notes, nextUserId, nextNoteId, n);
      notes := notes[n.id := n];
      r := Ok(n);
    }

    /** `await note.destroy()` on an instance read from the table. */
    method Destroy(instance: Note)
      requires Valid() && FindByPk(instance.id) == Some(instance)
      modifies this
      ensures Valid()
      ensures users == old(users) && nextUserId == old(nextUserId) && nextNoteId == old(nextNoteId)
      ensures notes == old(notes) - {instance.id}
    {
      RemoveNote(users, notes, nextUserId, nextNoteId, instance.id);
      notes := notes - {instance.id};
    }

    // ---------------------------------------------------------------
    // User writes

    /** `User.create({ name, email, password })`: the column validators, the
        `beforeCreate` hashing hook, the unique index on `email`, then an
        insert under the next auto-increment id. */
    method CreateUser(h: Hasher, name: Option<string>, email: Option<string>, password: Option<string>,
                      salt: string, now: int)
      returns (r: Result<User>)
      requires Valid()
      modifies this
      ensures Valid()
      ensures notes == old(notes) && nextNoteId == old(nextNoteId)
      ensures r.Ok? <==>
        && Violations(name, email, password) == []
        && !exists id :: id in old(users) && old(users)[id].email == email.value
      ensures r.Ok? ==>
        && r.value == User(old(nextUserId), name.value, email.value,
                           HashOnCreate(h, password.value, salt), now)
        && r.value.id !in old(users)
        && users == old(users)[r.value.id := r.value]
        && nextUserId == old(nextUserId) + 1
      ensures r.Err? ==> users == old(users) && nextUserId == old(nextUserId)
      ensures r.Err? && Violations(name, email, password) != [] ==>
        r.error == UserValidation(Violations(name, email, password))
      ensures r.Err? && Violations(name, email, password) == [] ==> r.error == UniqueViolation("email")
    {
      var violations := Violations(name, email, password);
      if violations != [] {
        return Err(UserValidation(violations));
      }
      if exists id :: id in users && users[id].email == email.value {
        return Err(UniqueViolation("email"));
      }
      var u := User(nextUserId, name.value, email.value, HashOnCreate(h, password.value, salt), now);
      AddUser(users, notes, nextUserId, nextNoteId, u);
      users := users[u.id := u];
      nextUserId := nextUserId + 1;
      r := Ok(u);
    }

    /** Removing a user: the `onDelete: 'CASCADE'` on `Note.userId` removes
        every note of that user with it, and no other note. */
    method DestroyUser(id: nat)
      requires Valid()
      modifies this
      ensures Valid()
      ensures users == old(users) - {id}
      ensures nextUserId == old(nextUserId) && nextNoteId == old(nextNoteId)
      ensures forall k :: k in notes <==> k in old(notes) && old(notes)[k].userId != id
      ensures forall k :: k in notes ==> notes[k] == old(notes)[k]
    {
      DropUser(users, notes, nextUserId, nextNoteId, id);
      users := users - {id};
      notes := NotesNotOwnedBy(notes, id);
    }
  }
}
