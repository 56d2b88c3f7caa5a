/** The `Note` table of the backend: one row per note. `id` is the
    auto-incremented primary key, `userId` the owning user (a foreign key to
    `Users.id`), `title` and `content` are NOT NULL, and `createdAt` is the
    timestamp the persistence layer stamps on insert. The `afterCreate`,
    `afterUpdate` and `afterDestroy` hooks only write log lines, so they have
    no counterpart here. */
module NoteModel {
  import opened Common

  datatype Note = Note(id: nat, userId: nat, title: string, content: string, createdAt: int)

  /** The NOT NULL checks run before a note is inserted: the names of the
      columns whose value is missing, in declaration order. */
  function NullColumns(title: Option<string>, content: Option<string>): (r: seq<string>)
    ensures r == [] <==> title.Some? && content.Some?
    ensures "title" in r <==> title.None?
    ensures "content" in r <==> content.None?
  {
    (if title.None? then ["title"] else []) + (if content.None? then ["content"] else [])
  }
}
