/**
 The state of the todo screen and the handlers that change it: the list of
 notes shown, the text in the input field, the loading flag, and the one
 record kept in local storage under the key "todo".
 */
module App {
  import opened Wrappers
  import opened NoteList
  import NoteRow

  class Screen {
    /** The notes on screen, in display order. */
    var notes: seq<Note>
    /** The text currently typed in the input field. */
    var input: string
    /** Whether the loading overlay is shown. */
    var loading: bool
    /** The stored record's note list; None while nothing has been stored. */
    var stored: Option<seq<Note>>

    /** After every save has completed, the list on screen is the list in storage. */
    predicate InSync()
      reads this
    {
      stored == Some(notes)
    }

    /** A freshly mounted screen: no notes, empty input, no overlay, storage as found on the device. */
    constructor (storage: Option<seq<Note>>)
      ensures notes == [] && input == "" && !loading && stored == storage
    {
      notes := [];
      input := "";
      loading := false;
      stored := storage;
    }

    /** The startup load: take the stored list, or create an empty record when there is none. */
    method Load()
      modifies this
      ensures !loading && input == old(input)
      ensures old(stored).Some? ==> notes == old(stored).value && stored == old(stored)
      ensures old(stored).None? ==> notes == [] && stored == Some([])
      ensures InSync()
    {
      loading := true;
      match stored {
        case Some(list) =>
          notes := list;
        case None =>
          stored := Some([]);
          notes := [];
      }
      loading := false;
    }

    /** Typing in the input field replaces its text. */
    method SetInput(text: string)
      modifies this
      ensures input == text
      ensures notes == old(notes) && stored == old(stored) && loading == old(loading)
    {
      input := text;
    }

    /** Save a new list, then show it. */
    method Commit(list: seq<Note>)
      modifies this
      ensures stored == Some(list) && notes == list && InSync()
      ensures input == old(input) && loading == old(loading)
    {
      stored := Some(list);
      notes := list;
    }

    /** The add button: with text in the field, clear the field and append a note carrying that text. */
    method Add()
      modifies this
      ensures old(input) == "" ==>
        notes == old(notes) && input == old(input) && stored == old(stored)
      ensures old(input) != "" ==>
        && input == ""
        && |notes| == |old(notes)| + 1
        && notes[..|old(notes)|] == old(notes)
        && notes[|old(notes)|].note == old(input)
        && notes[|old(notes)|].id ==
             (if old(notes) == [] then 0 else old(notes)[|old(notes)| - 1].id + 1)
        && InSync()
      ensures Increasing(old(notes)) ==> Increasing(notes)
      ensures loading == old(loading)
    {
      if |input| > 0 {
        var text := input;
        input := "";
        Commit(Appended(notes, text));
      }
    }

    /** Delete the note at a position, with the index rules of JavaScript's `splice(index, 1)`. */
    method Delete(index: int)
      modifies this
      ensures notes == Splice(old(notes), index) && InSync()
      ensures 0 <= index < |old(notes)| ==> notes == old(notes)[..index] + old(notes)[index + 1..]
      ensures index >= |old(notes)| ==> notes == old(notes)
      ensures Increasing(old(notes)) ==> Increasing(notes)
      ensures input == old(input) && loading == old(loading)
    {
      var copy := notes;
      copy := Splice(copy, index);
      Commit(copy);
    }

    /** Lifting the finger from the row at `index` after it was dragged by `dx`. */
    method Release(index: int, dx: int)
      modifies this
      ensures dx < NoteRow.DismissThreshold ==> notes == Splice(old(notes), index) && InSync()
      ensures dx >= NoteRow.DismissThreshold ==> notes == old(notes) && stored == old(stored)
      ensures Increasing(old(notes)) ==> Increasing(notes)
      ensures input == old(input) && loading == old(loading)
    {
      match NoteRow.OnRelease(dx) {
        case Dismiss =>
          Delete(index);
        case SpringBack =>
      }
    }
  }

  /**
   A first launch followed by: add "a", add "b", delete the first row, add "c".
   The ids continue from the last note, and the first row is gone.
   */
  method FirstLaunchScenario() returns (shown: seq<Note>, saved: Option<seq<Note>>)
    ensures shown == [Note("b", 1), Note("c", 2)]
    ensures saved == Some(shown)
  {
    var screen := new Screen(None);
    screen.Load();
    screen.SetInput("a");
    screen.Add();
    screen.SetInput("b");
    screen.Add();
    screen.Delete(0);
    screen.SetInput("c");
    screen.Add();
    shown, saved := screen.notes, screen.stored;
  }

  /** Deleting the newest note and adding again hands its id to the new note. */
  method IdReuseScenario() returns (deletedId: int, reissuedId: int)
    ensures deletedId == reissuedId == 1
  {
    var screen := new Screen(None);
    screen.Load();
    screen.SetInput("a");
    screen.Add();
    screen.SetInput("b");
    screen.Add();
    deletedId := screen.notes[1].id;
    screen.Release(1, -150);
    screen.SetInput("c");
    screen.Add();
    reissuedId := screen.notes[1].id;
  }

  /** A launch that finds a stored list shows exactly that list; a swipe short of the threshold keeps it. */
  method StoredLaunchScenario() returns (shown: seq<Note>)
    ensures shown == [Note("buy milk", 0)]
  {
    var screen := new Screen(Some([Note("buy milk", 0)]));
    screen.Load();
    screen.Release(0, -80);
    screen.Release(0, NoteRow.DismissThreshold);
    shown := screen.notes;
  }
}
