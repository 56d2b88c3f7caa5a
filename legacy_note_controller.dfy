/** The older note handlers: the same owner-scoped operations written as
    find-then-mutate (`findOne` by id and owner, then assign and `save`, or
    `destroy` on the instance). Errors carry a fixed `error` text and never
    the internal message; the caller's id is the `userId` claim the gate put
    on the request. */
module LegacyNoteController {
  import opened Common
  import opened NoteModel
  import opened Database
  import NoteController

  datatype LegacyReply =
    | Created(note: Note)          // 201 { message: 'Note created', note }
    | Listed(notes: seq<Note>)     // 200, the bare array
    | Updated(note: Note)          // 200 { message: 'Note Updated', note }
    | Deleted                      // 200 { message: 'Note deleted' }
    | NotFound(error: string)      // 404 { error }
    | Failed(error: string)        // 500 { error }
  {
    function Status(): nat {
      match this
      case Created(_) => 201
      case NotFound(_) => 404
      case Failed(_) => 500
      case _ => 200
    }
  }

  /** `createNote`: the owner is `req.user.userId`, never a body field. */
  method CreateNote(db: Db, callerId: nat, body: Body, now: int, faults: Faults) returns (reply: LegacyReply)
    requires db.Valid()
    modifies db
    ensures db.Valid()
    ensures db.users == old(db.users) && db.nextUserId == old(db.nextUserId)
    ensures db.nextNoteId == old(db.nextNoteId) + if reply.Created? then 1 else 0
    ensures reply.Created? <==> !faults.Hits(0) && "title" in body && "content" in body && callerId in db.users
    ensures reply.Created? ==>
      && reply.note == Note(old(db.nextNoteId), callerId, body["title"], body["content"], now)
      && db.notes == old(db.notes)[reply.note.id := reply.note]
    ensures !reply.Created? ==> reply == Failed("Failed to create note") && db.notes == old(db.notes)
  {
    if faults.Hits(0) {
      return Failed("Failed to create note");
    }
    var r := db.CreateNote(Field(body, "title"), Field(body, "content"), callerId, now);
    if r.Ok? {
      reply := Created(r.value);
    } else {
      reply := Failed("Failed to create note");
    }
  }

  /** `getNotes`: exactly the caller's notes, in no promised order. */
  method GetNotes(db: Db, callerId: nat, faults: Faults) returns (reply: LegacyReply)
    requires db.Valid()
    ensures reply.Listed? <==> !faults.Hits(0)
    ensures reply.Listed? ==> ListsExactly(reply.notes, db.notes, db.notes.Keys, callerId)
    ensures !reply.Listed? ==> reply == Failed("Failed to get notes")
  {
    if faults.Hits(0) {
      return Failed("Failed to get notes");
    }
    var rs := db.FindAll(callerId, false);
    reply := Listed(rs);
  }

  /** `updateNote`: find the caller's row (call 0), assign both columns from
      the body and `save` it (call 1). A missing body field is assigned as
      `undefined` and fails the NOT NULL check on save. */
  method UpdateNote(db: Db, callerId: nat, id: nat, body: Body, faults: Faults) returns (reply: LegacyReply)
    requires db.Valid()
    modifies db
    ensures db.Valid()
    ensures db.users == old(db.users) && db.nextUserId == old(db.nextUserId) && db.nextNoteId == old(db.nextNoteId)
    ensures reply.NotFound? || reply.Updated? || reply.Failed?
    ensures reply.NotFound? ==> reply.error == "Note Not Found"
    ensures reply == NotFound("Note Not Found") <==> !faults.Hits(0) && old(db.FindOne(id, callerId)).None?
    ensures reply.Updated? <==>
      && !faults.Hits(0) && !faults.Hits(1) && old(db.FindOne(id, callerId)).Some?
      && "title" in body && "content" in body
    ensures reply.Updated? ==>
      && reply.note == old(db.notes)[id].(title := body["title"], content := body["content"])
      && db.notes == old(db.notes)[id := reply.note]
    ensures !reply.Updated? ==> db.notes == old(db.notes)
    ensures reply.Failed? ==> reply.error == "Failed to update note"
  {
    if faults.Hits(0) {
      return Failed("Failed to update note");
    }
    var found := db.FindOne(id, callerId);
    if found.None? {
      return NotFound("Note Not Found");
    }
    if faults.Hits(1) {
      return Failed("Failed to update note");
    }
    var r := db.Save(found.value, Field(body, "title"), Field(body, "content"));
    if r.Ok? {
      reply := Updated(r.value);
    } else {
      reply := Failed("Failed to update note");
    }
  }

  /** `deleteNote`: find the caller's row (call 0) and destroy it (call 1). */
  method DeleteNote(db: Db, callerId: nat, id: nat, faults: Faults) returns (reply: LegacyReply)
    requires db.Valid()
    modifies db
    ensures db.Valid()
    ensures db.users == old(db.users) && db.nextUserId == old(db.nextUserId) && db.nextNoteId == old(db.nextNoteId)
    ensures reply.NotFound? || reply == Deleted || reply.Failed?
    ensures reply.NotFound? ==> reply.error == "Note not found"
    ensures reply == NotFound("Note not found") <==> !faults.Hits(0) && old(db.FindOne(id, callerId)).None?
    ensures reply == Deleted <==> !faults.Hits(0) && !faults.Hits(1) && old(db.FindOne(id, callerId)).Some?
    ensures reply == Deleted ==> db.notes == old(db.notes) - {id}
    ensures reply != Deleted ==> db.notes == old(db.notes)
    ensures reply.Failed? ==> reply.error == "Failed to delete note"
  {
    if faults.Hits(0) {
      return Failed("Failed to delete note");
    }
    var found := db.FindOne(id, callerId);
    if found.None? {
      return NotFound("Note not found");
    }
    if faults.Hits(1) {
      return Failed("Failed to delete note");
    }
    db.Destroy(found.value);
    reply := Deleted;
  }

  /** Two stores holding the same rows. */
  predicate SameTables(a: Db, b: Db)
    reads a, b
  {
    a.users == b.users && a.notes == b.notes && a.nextUserId == b.nextUserId && a.nextNoteId == b.nextNoteId
  }

  /** The two create handlers write the same row on every input and
      succeed or fail together. */
  method CreateVariantsAgree(current: Db, legacy: Db, caller: UserModel.User, body: Body, now: int)
    returns (r: NoteController.Reply, l: LegacyReply)
    requires current != legacy && current.Valid() && legacy.Valid() && SameTables(current, legacy)
    modifies current, legacy
    ensures SameTables(current, legacy)
    ensures r.Status() == l.Status()
    ensures r.Created? ==> l.Created? && r.note == l.note
  {
    r := NoteController.CreateNote(current, caller, body, now, NoFault);
    l := CreateNote(legacy, caller.id, body, now, NoFault);
  }

  /** Running the current and the legacy update on equal stores, on a note
      the caller owns and a body that carries both fields: both write the
      same row and answer 200. With the next three methods this covers
      every input. */
  method UpdateVariantsAgree(current: Db, legacy: Db, caller: UserModel.User, id: nat, body: Body)
    returns (r: NoteController.Reply, l: LegacyReply)
    requires current != legacy && current.Valid() && legacy.Valid() && SameTables(current, legacy)
    requires "title" in body && "content" in body && current.FindOne(id, caller.id).Some?
    modifies current, legacy
    ensures SameTables(current, legacy)
    ensures r.Updated? && l.Updated? && r.note == l.note
  {
    var n := current.FindOne(id, caller.id).value;
    assert Patched(n, Field(body, "title"), Field(body, "content"))
        == n.(title := body["title"], content := body["content"]);
    r := NoteController.UpdateNote(current, caller, id, body, NoFault);
    l := UpdateNote(legacy, caller.id, id, body, NoFault);
  }

  /** When the caller owns no such note, both update handlers answer 404
      and write nothing, whatever the body. */
  method UpdateVariantsAgreeOnMissing(current: Db, legacy: Db, caller: UserModel.User, id: nat, body: Body)
    returns (r: NoteController.Reply, l: LegacyReply)
    requires current != legacy && current.Valid() && legacy.Valid() && SameTables(current, legacy)
    requires current.FindOne(id, caller.id).None?
    modifies current, legacy
    ensures SameTables(current, legacy)
    ensures r.Status() == l.Status() == 404
  {
    r := NoteController.UpdateNote(current, caller, id, body, NoFault);
    l := UpdateNote(legacy, caller.id, id, body, NoFault);
  }

  /** When the caller's note exists and the body carries exactly one of the
      fields, the current handler writes that field and answers 200, while
      the legacy one answers 500 and writes nothing. */
  method UpdateVariantsDiverge(current: Db, legacy: Db, caller: UserModel.User, id: nat, body: Body)
    returns (r: NoteController.Reply, l: LegacyReply)
    requires current != legacy && current.Valid() && legacy.Valid() && SameTables(current, legacy)
    requires ("title" in body) != ("content" in body) && current.FindOne(id, caller.id).Some?
    modifies current, legacy
    ensures r.Updated? && l == Failed("Failed to update note")
    ensures legacy.notes == old(legacy.notes)
    ensures current.notes == old(current.notes)[id := Patched(old(current.notes)[id], Field(body, "title"), Field(body, "content"))]
  {
    r := NoteController.UpdateNote(current, caller, id, body, NoFault);
    l := UpdateNote(legacy, caller.id, id, body, NoFault);
  }

  /** When the caller's note exists and the body carries neither field, the
      current handler sends no UPDATE and answers 404, the legacy one fails
      the NOT NULL check and answers 500; neither writes anything. */
  method UpdateVariantsDivergeOnEmpty(current: Db, legacy: Db, caller: UserModel.User, id: nat, body: Body)
    returns (r: NoteController.Reply, l: LegacyReply)
    requires current != legacy && current.Valid() && legacy.Valid() && SameTables(current, legacy)
    requires "title" !in body && "content" !in body && current.FindOne(id, caller.id).Some?
    modifies current, legacy
    ensures r == NoteController.NotFound && l == Failed("Failed to update note")
    ensures SameTables(current, legacy) && current.notes == old(current.notes)
  {
    r := NoteController.UpdateNote(current, caller, id, body, NoFault);
    l := UpdateNote(legacy, caller.id, id, body, NoFault);
  }

  /** The two delete handlers have the same effect and the same status on
      every input; only the 404 wording differs between legacy update and
      delete. */
  method DeleteVariantsAgree(current: Db, legacy: Db, caller: UserModel.User, id: nat)
    returns (r: NoteController.Reply, l: LegacyReply)
    requires current != legacy && current.Valid() && legacy.Valid() && SameTables(current, legacy)
    modifies current, legacy
    ensures SameTables(current, legacy)
    ensures r.Status() == l.Status()
    ensures l.NotFound? ==> l.error == "Note not found" && r.Message() == Some(l.error)
  {
    r := NoteController.DeleteNote(current, caller, id, NoFault);
    l := DeleteNote(legacy, caller.id, id, NoFault);
  }
}
