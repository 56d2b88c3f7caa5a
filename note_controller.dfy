/** The note handlers mounted under `/api/notes`. Each runs after the auth
    gate, so `caller` is the user it attached to the request, and every read
    and write of a note filters on its id AND on `caller.id`: a note that
    does not exist and a note of another user are the same 404. */
module NoteController {
  import opened Common
  import opened NoteModel
  import opened UserModel
  import opened Database

  /** The responses of the handlers, one constructor per status and body. */
  datatype Reply =
    | Created(note: Note)                       // 201 { message, note }
    | Listed(notes: seq<Note>)                  // 200, the bare array
    | Found(note: Note)                         // 200, the bare note
    | Updated(note: Note)                       // 200 { message, note }
    | Deleted                                   // 200 { message }
    | NotFound                                  // 404 { message }
    | Failed(message: string, error: StoreError) // 500 { message, error: error.message }
  {
    function Status(): nat {
      match this
      case Created(_) => 201
      case NotFound => 404
      case Failed(_, _) => 500
      case _ => 200
    }

    function Message(): Option<string> {
      match this
      case Created(_) => Some("Note created successfully")
      case Updated(_) => Some("Note updated successfully")
      case Deleted => Some("Note deleted successfully")
      case NotFound => Some("Note not found")
      case Failed(m, _) => Some(m)
      case _ => None
    }
  }

  /** `createNote`: only `title` and `content` are taken from the body, and
      the owner is always the authenticated caller. */
  method CreateNote(db: Db, caller: User, body: Body, now: int, faults: Faults) returns (reply: Reply)
    requires db.Valid()
    modifies db
    ensures db.Valid()
    ensures db.users == old(db.users) && db.nextUserId == old(db.nextUserId)
    ensures db.nextNoteId == old(db.nextNoteId) + if reply.Created? then 1 else 0
    ensures reply.Created? <==> !faults.Hits(0) && "title" in body && "content" in body && caller.id in db.users
    ensures reply.Created? ==>
      && reply.note == Note(old(db.nextNoteId), caller.id, body["title"], body["content"], now)
      && reply.note.id !in old(db.notes)
      && db.notes == old(db.notes)[reply.note.id := reply.note]
    ensures !reply.Created? ==> reply.Failed? && reply.message == "Error creating note" && db.notes == old(db.notes)
  {
    if faults.Hits(0) {
      return Failed("Error creating note", Fault(faults.message));
    }
    var r := db.CreateNote(Field(body, "title"), Field(body, "content"), caller.id, now);
    match r
    case Ok(n) => reply := Created(n);
    case Err(e) => reply := Failed("Error creating note", e);
  }

  /** `getNotes`: exactly the caller's notes, newest first. */
  method GetNotes(db: Db, caller: User, faults: Faults) returns (reply: Reply)
    requires db.Valid()
    ensures reply.Listed? <==> !faults.Hits(0)
    ensures reply.Listed? ==> ListsExactly(reply.notes, db.notes, db.notes.Keys, caller.id)
    ensures reply.Listed? ==> NewestFirst(reply.notes)
    ensures reply.Listed? ==> forall n :: n in reply.notes ==> n.userId == caller.id
    ensures !reply.Listed? ==> reply == Failed("Error retrieving notes", Fault(faults.message))
  {
    if faults.Hits(0) {
      return Failed("Error retrieving notes", Fault(faults.message));
    }
    var rs := db.FindAll(caller.id, true);
    forall n | n in rs
      ensures n.userId == caller.id
    {
      assert multiset(rs)[n] > 0;
    }
    reply := Listed(rs);
  }

  /** `getNote`: the caller's note with that id, or 404. */
  function GetNote(db: Db, caller: User, id: nat, faults: Faults): (reply: Reply)
    reads db
    ensures faults.Hits(0) ==> reply == Failed("Error retrieving note", Fault(faults.message))
    ensures !faults.Hits(0) ==> (reply == NotFound <==> id !in db.notes || db.notes[id].userId != caller.id)
    ensures reply.Found? <==> !faults.Hits(0) && id in db.notes && db.notes[id].userId == caller.id
    ensures reply.Found? ==> reply.note == db.notes[id]
  {
    if faults.Hits(0) then Failed("Error retrieving note", Fault(faults.message))
    else match db.FindOne(id, caller.id)
      case None => NotFound
      case Some(n) => Found(n)
  }

  /** Another user's note and a note that does not exist get the very same
      response, so a caller learns nothing about foreign ids. */
  lemma {:induction false} ForeignNoteLooksMissing(db: Db, caller: User, foreign: nat, missing: nat, faults: Faults)
    requires foreign in db.notes && db.notes[foreign].userId != caller.id
    requires missing !in db.notes
    ensures GetNote(db, caller, foreign, faults) == GetNote(db, caller, missing, faults)
    ensures GetNote(db, caller, foreign, faults).Status() in {404, 500}
  {
  }

  /** `updateNote`: one UPDATE filtered on (id, owner); with no match the
      answer is 404 and nothing changes; otherwise the row is re-read by
      primary key and returned. A body with neither field sends no UPDATE
      at all (so nothing can throw) and is answered 404 like a miss. */
  method UpdateNote(db: Db, caller: User, id: nat, body: Body, faults: Faults) returns (reply: Reply)
    requires db.Valid()
    modifies db
    ensures db.Valid()
    ensures db.users == old(db.users) && db.nextUserId == old(db.nextUserId) && db.nextNoteId == old(db.nextNoteId)
    ensures reply.NotFound? || reply.Updated? || reply.Failed?
    ensures var sent := Settable(Field(body, "title"), Field(body, "content"));
      var hit := sent && !faults.Hits(0) && old(db.FindOne(id, caller.id)).Some?;
      && (hit ==> db.notes == old(db.notes)[id := Patched(old(db.notes)[id], Field(body, "title"), Field(body, "content"))])
      && (!hit ==> db.notes == old(db.notes))
      && (reply == NotFound <==> !sent || (!faults.Hits(0) && old(db.FindOne(id, caller.id)).None?))
      && (reply.Updated? <==> hit && !faults.Hits(1))
    ensures reply.Updated? ==>
      && reply.note == db.notes[id]
      && reply.note.userId == caller.id
      && ("title" in body ==> reply.note.title == body["title"])
      && ("content" in body ==> reply.note.content == body["content"])
    ensures reply.Failed? ==> reply.message == "Error updating note"
  {
    var title, content := Field(body, "title"), Field(body, "content");
    if Settable(title, content) && faults.Hits(0) {
      return Failed("Error updating note", Fault(faults.message));
    }
    var count := db.UpdateWhere(id, caller.id, title, content);
    if count == 0 {
      return NotFound;
    }
    if faults.Hits(1) {
      return Failed("Error updating note", Fault(faults.message));
    }
    var reread := db.FindByPk(id);
    reply := Updated(reread.value);
  }

  /** `deleteNote`: one DELETE filtered on (id, owner); with no match the
      answer is 404 and nothing changes. */
  method DeleteNote(db: Db, caller: User, id: nat, faults: Faults) returns (reply: Reply)
    requires db.Valid()
    modifies db
    ensures db.Valid()
    ensures db.users == old(db.users) && db.nextUserId == old(db.nextUserId) && db.nextNoteId == old(db.nextNoteId)
    ensures reply == Deleted || reply == NotFound || reply.Failed?
    ensures reply == Deleted <==> !faults.Hits(0) && old(db.FindOne(id, caller.id)).Some?
    ensures reply == Deleted ==> db.notes == old(db.notes) - {id}
    ensures reply != Deleted ==> db.notes == old(db.notes)
    ensures reply == NotFound <==> !faults.Hits(0) && old(db.FindOne(id, caller.id)).None?
    ensures reply.Failed? <==> faults.Hits(0)
  {
    if faults.Hits(0) {
      return Failed("Error deleting note", Fault(faults.message));
    }
    var count := db.DestroyWhere(id, caller.id);
    if count == 0 {
      return NotFound;
    }
    reply := Deleted;
  }

  /** Deleting a note twice: the second request is told 404, not success,
      and changes nothing. */
  method DeleteTwice(db: Db, caller: User, id: nat) returns (first: Reply, second: Reply)
    requires db.Valid()
    modifies db
    ensures first == Deleted <==> old(db.FindOne(id, caller.id)).Some?
    ensures second == NotFound
    ensures db.notes == old(db.notes) - {id} || db.notes == old(db.notes)
  {
    first := DeleteNote(db, caller, id, NoFault);
    second := DeleteNote(db, caller, id, NoFault);
  }
}
