/** The list and menu transitions both `Notes` components share: removing
    a note by id with `filter`, clearing a selection that was removed, and
    toggling the open context menu. */
module NoteList {
  import opened Common

  /** `xs.filter(x => idOf(x) !== id)`. */
  function Without<T>(xs: seq<T>, id: nat, idOf: T -> nat): seq<T> {
    if xs == [] then []
    else if idOf(xs[0]) == id then Without(xs[1..], id, idOf)
    else [xs[0]] + Without(xs[1..], id, idOf)
  }

  /** The filter keeps exactly the entries with another id, and never
      lengthens the list. */
  lemma {:induction false} WithoutKeepsOthers<T>(xs: seq<T>, id: nat, idOf: T -> nat)
    ensures forall x :: x in Without(xs, id, idOf) <==> x in xs && idOf(x) != id
    ensures |Without(xs, id, idOf)| <= |xs|
  {
    if xs != [] {
      WithoutKeepsOthers(xs[1..], id, idOf);
      assert xs == [xs[0]] + xs[1..];
    }
  }

  /** The filter keeps the survivors in their order: it distributes over
      concatenation. */
  lemma {:induction false} WithoutAppend<T>(xs: seq<T>, ys: seq<T>, id: nat, idOf: T -> nat)
    ensures Without(xs + ys, id, idOf) == Without(xs, id, idOf) + Without(ys, id, idOf)
  {
    if xs == [] {
      assert xs + ys == ys;
    } else {
      assert (xs + ys)[0] == xs[0] && (xs + ys)[1..] == xs[1..] + ys;
      WithoutAppend(xs[1..], ys, id, idOf);
    }
  }

  /** Removing an id that no entry has leaves the list as it is. */
  lemma {:induction false} WithoutAbsent<T>(xs: seq<T>, id: nat, idOf: T -> nat)
    requires forall x :: x in xs ==> idOf(x) != id
    ensures Without(xs, id, idOf) == xs
  {
    if xs != [] {
      WithoutAbsent(xs[1..], id, idOf);
      assert [xs[0]] + xs[1..] == xs;
    }
  }

  /** Prepending a note with a fresh id and then deleting that id gives
      back the list from before. */
  lemma AddThenDelete<T>(n: T, xs: seq<T>, idOf: T -> nat)
    requires forall x :: x in xs ==> idOf(x) != idOf(n)
    ensures Without([n] + xs, idOf(n), idOf) == xs
  {
    assert ([n] + xs)[1..] == xs;
    WithoutAbsent(xs, idOf(n), idOf);
  }

  /** `if (selectedNote?.id === id) setSelectedNote(null)`. */
  function Deselected<T>(selected: Option<T>, id: nat, idOf: T -> nat): (r: Option<T>)
    ensures r == None <==> selected == None || idOf(selected.value) == id
    ensures r != None ==> r == selected
  {
    if selected.Some? && idOf(selected.value) == id then None else selected
  }

  /** `setOpenMenuId(openMenuId === id ? null : id)`. */
  function Toggled(open: Option<nat>, id: nat): (r: Option<nat>)
    ensures r == None <==> open == Some(id)
    ensures r != None ==> r == Some(id)
  {
    if open == Some(id) then None else Some(id)
  }

  /** Toggling the same menu twice restores a closed menu and the menu that
      was open; a different menu that was open ends closed. */
  lemma ToggleTwice(open: Option<nat>, id: nat)
    ensures Toggled(Toggled(open, id), id) == if open == Some(id) then open else None
    ensures open == None || open == Some(id) ==> Toggled(Toggled(open, id), id) == open
  {
  }
}
