/** The main client's `Notes` component: its notes live only in component
    state. Each handler is a transition of the state fields the component
    keeps with `useState`. */
module LocalNotes {
  import opened Common
  import opened NoteList

  /** A note as the component creates it: `id` from the clock, `createdAt`
      a display string. */
  datatype Card = Card(id: nat, title: string, content: string, createdAt: string)

  function CardId(c: Card): nat {
    c.id
  }

  /** All state fields at once. */
  datatype View = View(
    isModalOpen: bool,
    noteTitle: string,
    noteContent: string,
    notes: seq<Card>,
    selectedNote: Option<Card>,
    openMenuId: Option<nat>,
    onLogoutCalls: nat,
    navigatedTo: Option<string>)

  class Notes {
    var isModalOpen: bool
    var noteTitle: string
    var noteContent: string
    var notes: seq<Card>
    var selectedNote: Option<Card>
    var openMenuId: Option<nat>
    var onLogoutCalls: nat          // calls of the `onLogout` prop
    var navigatedTo: Option<string> // the last route passed to `navigate`

    function State(): View
      reads this
    {
      View(isModalOpen, noteTitle, noteContent, notes, selectedNote, openMenuId, onLogoutCalls, navigatedTo)
    }

    constructor()
      ensures State() == View(false, "", "", [], None, None, 0, None)
    {
      isModalOpen, noteTitle, noteContent := false, "", "";
      notes, selectedNote, openMenuId := [], None, None;
      onLogoutCalls, navigatedTo := 0, None;
    }

    /** `handleAddNote`, with `Date.now()` and `toLocaleString()` passed in:
        nothing happens for a title of white space only; otherwise the new
        note goes first, the modal closes and both fields are cleared. */
    method HandleAddNote(now: nat, stamp: string)
      modifies this
      ensures Trim(old(noteTitle)) == "" ==> State() == old(State())
      ensures Trim(old(noteTitle)) != "" ==>
        State() == old(State()).(
          notes := [Card(now, old(noteTitle), old(noteContent), stamp)] + old(notes),
          isModalOpen := false, noteTitle := "", noteContent := "")
    {
      if Trim(noteTitle) != "" {
        var n := Card(now, noteTitle, noteContent, stamp);
        notes := [n] + notes;
        isModalOpen := false;
        noteTitle := "";
        noteContent := "";
      }
    }

    /** `handleNoteClick`: select the note and close any menu. */
    method HandleNoteClick(note: Card)
      modifies this
      ensures State() == old(State()).(selectedNote := Some(note), openMenuId := None)
    {
      selectedNote := Some(note);
      openMenuId := None;
    }

    /** `handleDeleteNote`: drop every note with that id, clear the
        selection if it was one of them, close any menu. */
    method HandleDeleteNote(id: nat)
      modifies this
      ensures State() == old(State()).(
        notes := Without(old(notes), id, CardId),
        selectedNote := Deselected(old(selectedNote), id, CardId),
        openMenuId := None)
    {
      notes := Without(notes, id, CardId);
      if selectedNote.Some? && selectedNote.value.id == id {
        selectedNote := None;
      }
      openMenuId := None;
    }

    /** `toggleMenu`. */
    method ToggleMenu(id: nat)
      modifies this
      ensures State() == old(State()).(openMenuId := Toggled(old(openMenuId), id))
    {
      openMenuId := if openMenuId == Some(id) then None else Some(id);
    }

    /** `handleLogout`: tell the parent, then go to the login page. */
    method HandleLogout()
      modifies this
      ensures State() == old(State()).(onLogoutCalls := old(onLogoutCalls) + 1, navigatedTo := Some("/login"))
    {
      onLogoutCalls := onLogoutCalls + 1;
      navigatedTo := Some("/login");
    }
  }

  /** Adding a note whose clock id no listed note has, then deleting it,
      gives back the list and selection from before. */
  method AddThenDeleteRestores(c: Notes, now: nat, stamp: string)
    requires !Blank(c.noteTitle)
    requires forall x :: x in c.notes ==> x.id != now
    requires c.selectedNote == None || c.selectedNote.value.id != now
    modifies c
    ensures c.notes == old(c.notes) && c.selectedNote == old(c.selectedNote)
    ensures c.openMenuId == None && !c.isModalOpen
  {
    TrimEmptyIffBlank(c.noteTitle);
    c.HandleAddNote(now, stamp);
    c.HandleDeleteNote(now);
    AddThenDelete(Card(now, old(c.noteTitle), old(c.noteContent), stamp), old(c.notes), CardId);
  }
}
