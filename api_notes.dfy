/** The `notes` client's `Notes` component: the same state as the local one
    plus `loading` and `error`, with every change to the list made only
    after the server call behind it succeeds. Each call's outcome is a
    parameter and passes through the response interceptor first, as the
    axios instance does. */
module ApiNotes {
  import opened Common
  import opened NoteModel
  import opened Browser
  import opened NoteList
  import NotesApi

  function NoteId(n: Note): nat {
    n.id
  }

  datatype View = View(
    isModalOpen: bool,
    noteTitle: string,
    noteContent: string,
    notes: seq<Note>,
    selectedNote: Option<Note>,
    openMenuId: Option<nat>,
    loading: bool,
    error: string,
    onLogoutCalls: nat,
    navigatedTo: Option<string>)

  /** `err.response?.data?.message || fallback`. */
  function ErrorText(e: HttpError, fallback: string): (t: string)
    ensures Truthy(e.message) ==> t == e.message.value
    ensures !Truthy(e.message) ==> t == fallback
  {
    OrElse(e.message, fallback)
  }

  /** The state after the create request settled: the server's note first,
      modal closed and fields cleared; or only the error set. */
  function Created(v: View, outcome: HttpOutcome<Note>): (w: View)
    ensures outcome.Resolved? ==>
      && w.notes == [outcome.data] + v.notes && |w.notes| == |v.notes| + 1
      && !w.isModalOpen && w.noteTitle == "" && w.noteContent == ""
      && w.error == v.error && w.selectedNote == v.selectedNote && w.openMenuId == v.openMenuId
      && w.loading == v.loading && w.onLogoutCalls == v.onLogoutCalls && w.navigatedTo == v.navigatedTo
    ensures outcome.Rejected? ==> w == v.(error := ErrorText(outcome.error, "Failed to create note"))
  {
    match outcome
    case Resolved(n) => v.(notes := [n] + v.notes, isModalOpen := false, noteTitle := "", noteContent := "")
    case Rejected(e) => v.(error := ErrorText(e, "Failed to create note"))
  }

  class Notes {
    var isModalOpen: bool
    var noteTitle: string
    var noteContent: string
    var notes: seq<Note>
    var selectedNote: Option<Note>
    var openMenuId: Option<nat>
    var loading: bool
    var error: string
    var onLogoutCalls: nat
    var navigatedTo: Option<string>

    function State(): View
      reads this
    {
      View(isModalOpen, noteTitle, noteContent, notes, selectedNote, openMenuId,
           loading, error, onLogoutCalls, navigatedTo)
    }

    /** The first render: no notes yet, loading, no error. */
    constructor()
      ensures State() == View(false, "", "", [], None, None, true, "", 0, None)
    {
      isModalOpen, noteTitle, noteContent := false, "", "";
      notes, selectedNote, openMenuId := [], None, None;
      loading, error := true, "";
      onLogoutCalls, navigatedTo := 0, None;
    }

    /** `fetchNotes`: the list becomes the response, or the error is set;
        `loading` ends false either way. */
    method FetchNotes(outcome: HttpOutcome<seq<Note>>, storage: Storage, window: Window)
      modifies this, storage, window
      ensures storage.items == NotesApi.ItemsAfter(old(storage.items), outcome)
      ensures window.href == NotesApi.HrefAfter(old(window.href), outcome)
      ensures outcome.Resolved? ==> State() == old(State()).(notes := outcome.data, loading := false)
      ensures outcome.Rejected? ==>
        State() == old(State()).(error := ErrorText(outcome.error, "Failed to fetch notes"), loading := false)
    {
      var r := NotesApi.InterceptResponse(storage, window, outcome);
      match r {
        case Resolved(data) => notes := data;
        case Rejected(e) => error := ErrorText(e, "Failed to fetch notes");
      }
      loading := false;
    }

    /** `handleAddNote`: no request at all for a blank title; otherwise the
        note the server returns goes first, the modal closes and the fields
        clear, or on failure only the error is set. */
    method HandleAddNote(outcome: HttpOutcome<Note>, storage: Storage, window: Window)
      modifies this, storage, window
      ensures Trim(old(noteTitle)) == "" ==>
        State() == old(State()) && storage.items == old(storage.items) && window.href == old(window.href)
      ensures Trim(old(noteTitle)) != "" ==>
        && storage.items == NotesApi.ItemsAfter(old(storage.items), outcome)
        && window.href == NotesApi.HrefAfter(old(window.href), outcome)
        && State() == Created(old(State()), outcome)
    {
      if Trim(noteTitle) != "" {
        CreateRequest(outcome, storage, window);
      }
    }

    /** The request part of `handleAddNote`, once the title passed. */
    method CreateRequest(outcome: HttpOutcome<Note>, storage: Storage, window: Window)
      modifies this, storage, window
      ensures storage.items == NotesApi.ItemsAfter(old(storage.items), outcome)
      ensures window.href == NotesApi.HrefAfter(old(window.href), outcome)
      ensures State() == Created(old(State()), outcome)
    {
      var r := NotesApi.InterceptResponse(storage, window, outcome);
      match r {
        case Resolved(n) =>
          notes := [n] + notes;
          isModalOpen := false;
          noteTitle := "";
          noteContent := "";
        case Rejected(e) =>
          error := ErrorText(e, "Failed to create note");
      }
    }

    /** `handleNoteClick`. */
    method HandleNoteClick(note: Note)
      modifies this
      ensures State() == old(State()).(selectedNote := Some(note), openMenuId := None)
    {
      selectedNote := Some(note);
      openMenuId := None;
    }

    /** `handleDeleteNote`: the note leaves the list only once the server
        has deleted it; on failure the list, the selection and the open
        menu stay and the error is set. */
    method HandleDeleteNote(id: nat, outcome: HttpOutcome<()>, storage: Storage, window: Window)
      modifies this, storage, window
      ensures storage.items == NotesApi.ItemsAfter(old(storage.items), outcome)
      ensures window.href == NotesApi.HrefAfter(old(window.href), outcome)
      ensures outcome.Resolved? ==>
        State() == old(State()).(
          notes := Without(old(notes), id, NoteId),
          selectedNote := Deselected(old(selectedNote), id, NoteId),
          openMenuId := None)
      ensures outcome.Rejected? ==>
        State() == old(State()).(error := ErrorText(outcome.error, "Failed to delete note"))
    {
      var r := NotesApi.InterceptResponse(storage, window, outcome);
      match r {
        case Resolved(_) =>
          notes := Without(notes, id, NoteId);
          if selectedNote.Some? && selectedNote.value.id == id {
            selectedNote := None;
          }
          openMenuId := None;
        case Rejected(e) =>
          error := ErrorText(e, "Failed to delete note");
      }
    }

    /** `handleLogout`: the stored session is dropped only after the server
        answered; a failed call sets the error and leaves the user entry
        (and, unless the failure was a 401, the token) in place. */
    method HandleLogout(outcome: HttpOutcome<()>, storage: Storage, window: Window)
      modifies this, storage, window
      ensures window.href == NotesApi.HrefAfter(old(window.href), outcome)
      ensures outcome.Resolved? ==>
        && storage.items == old(storage.items) - {"token", "user"}
        && State() == old(State()).(onLogoutCalls := old(onLogoutCalls) + 1, navigatedTo := Some("/login"))
      ensures outcome.Rejected? ==>
        && storage.items == NotesApi.ItemsAfter(old(storage.items), outcome)
        && State() == old(State()).(error := ErrorText(outcome.error, "Failed to logout"))
    {
      var r := NotesApi.InterceptResponse(storage, window, outcome);
      match r {
        case Resolved(_) =>
          storage.RemoveItem("token");
          storage.RemoveItem("user");
          onLogoutCalls := onLogoutCalls + 1;
          navigatedTo := Some("/login");
        case Rejected(e) =>
          error := ErrorText(e, "Failed to logout");
      }
    }

    /** `toggleMenu`. */
    method ToggleMenu(id: nat)
      modifies this
      ensures State() == old(State()).(openMenuId := Toggled(old(openMenuId), id))
    {
      openMenuId := if openMenuId == Some(id) then None else Some(id);
    }
  }
}
