# Todo list screen: note bookkeeping

This project models the note-list logic of a single-screen React Native todo
app (`App.js`). The screen holds a list of notes. Each note has a text and an
integer id. The screen also holds the text typed in the input field, a
loading flag, and one record in local storage under the key `"todo"`.

The model covers:

- **Startup load.** If a record is stored, its notes are shown. Otherwise an
  empty record is stored and nothing is shown.
- **Add.** With non-empty input, the field is cleared and a note is appended.
  The new note's id is the last note's id plus one, or 0 for an empty list.
- **Delete by position.** JavaScript's `splice(index, 1)` is applied to a copy
  of the list, and the result is saved and then shown.
- **Swipe release.** A row dragged strictly further left than -120 is
  dismissed, and that deletes its note. Any other release springs the row back
  and leaves the list alone.

Modules:

- `Wrappers` (`wrappers.dfy`): an `Option` type for a record that may be absent.
- `NoteList` (`notes.dfy`): the `Note` value, the id rule (`NextId`), the list
  an add produces (`Appended`) and the list `splice` leaves (`Splice`). It also
  holds the lemmas about strictly increasing ids.
- `NoteRow` (`note_row.dfy`): the release decision of one swipeable row.
- `App` (`app.dfy`): class `Screen`, whose fields the handlers update in place.
  It also has three client scenarios that run the handlers in sequence.

The central invariant is that ids strictly increase along the list. Every add
and every delete keeps it. So ids are unique (rows are keyed by id) and the
last id is the largest. The id rule still reuses ids: deleting the newest note
and then adding gives the new note an id no larger than the deleted one's. This
holds when at least two notes remain before the delete, or when a lone note has
a non-negative id (an emptied list restarts at 0).

A natural reading of the id rule is "largest id + 1"; the code uses
"last id + 1" (App.js:197). The model follows the code. `LastIsMax` and `NextId` show that
the two agree on every increasing list. `LastRuleOnUnorderedList` shows a list
where they differ; a list like that can only come from stored data.

## Model

| member | source | states |
|---|---|---|
| `NoteList.IncreasingIsOrdered` | App.js:193-199 | ids increasing from each note to the next is equivalent to every earlier id being below every later one |
| `NoteList.IncreasingHasUniqueIds` | App.js:158 | on an increasing list no two notes share an id, so the id is a usable row key |
| `NoteList.MaxId` | App.js:197 | reference definition of the largest id: no note's id exceeds it and some note carries it |
| `NoteList.LastIsMax` | App.js:197 | on an increasing list the last note's id is the largest id |
| `NoteList.NextId` | App.js:197 | the new id is 0 on an empty list; on an increasing list it is larger than every id present and equals the largest id plus one |
| `NoteList.LastRuleOnUnorderedList` | App.js:197 | on the non-increasing list [(a,1),(b,0)] the rule gives 1, an id already in use, while largest-plus-one would give 2 |
| `NoteList.Appended` | App.js:193-199 | the added list is one longer, keeps the old list as its prefix, ends with the input text under the new id, and stays increasing with the new id above all old ones |
| `NoteList.SpliceStart` | App.js:111 | the position `splice` resolves a start argument to (negative counts from the end, both ends clamp) never exceeds the list length; the resulting cases are stated by `Splice` |
| `NoteList.Splice` | App.js:110-111 | for a position inside the list exactly that note is removed and the rest keep their order (also for negative positions counted from the end); a position past the end removes nothing; the removed note is the multiset difference; increasing ids stay increasing and the removed id no longer occurs |
| `NoteList.RemovedAt` | App.js:111 | removing one position loses exactly that element (as a multiset), keeps ids increasing and leaves no other note with the removed id |
| `NoteList.IdReuseAfterDeletingLast` | App.js:197 | deleting the last note of a non-empty increasing list and adding again yields an id no larger than the deleted one, and the same id when the previous id was one less (for a one-note list: when its id is non-negative, with equality at id 0) |
| `NoteRow.OnRelease` | App.js:41-62 | a release dismisses only a row displaced to the left; a release at zero or to the right springs back (the threshold itself is pinned by the lemmas below) |
| `NoteRow.ThresholdIsStrict` | App.js:42 | a displacement of exactly -120 springs back and -121 dismisses |
| `NoteRow.ReleaseIsMonotone` | App.js:42 | a release at least as far left as a dismissing one also dismisses; one less far left than a springing-back one also springs back |
| `NoteRow.DismissExactlyBelowThreshold` | App.js:42 | from the two lemmas above: a release dismisses if and only if the displacement is strictly below -120 |
| `App.Screen.constructor` | App.js:85-87 | a mounted screen starts with no notes, an empty input and no loading overlay |
| `App.Screen.Load` | App.js:89-101 | with a stored record the screen shows exactly its notes; without one it stores an empty record and shows nothing; the overlay ends hidden and screen and storage agree |
| `App.Screen.SetInput` | App.js:186 | typing replaces the input text and touches nothing else |
| `App.Screen.Commit` | App.js:103-107 | the list is written to storage and then shown, so screen and storage agree |
| `App.Screen.Add` | App.js:189-201 | empty input changes nothing; otherwise the input is cleared and the list gains one note at the end with the old input as text and id last+1 (0 if empty), saved and shown; increasing ids are preserved |
| `App.Screen.Delete` | App.js:109-113 | the shown and stored list is the splice of the old one at the index; a valid index removes exactly that note; increasing ids are preserved; the input is untouched |
| `App.Screen.Release` | App.js:41-62 | a release left of -120 deletes the row's note; any other release leaves list and storage unchanged |
| `App.FirstLaunchScenario` | App.js:189-201 | from a first launch, adding a and b, deleting row 0 and adding c shows [(b,1),(c,2)] and stores the same list |
| `App.IdReuseScenario` | App.js:197 | adding a and b, swiping b away and adding c gives c the id 1 that b had |
| `App.StoredLaunchScenario` | App.js:91-93 | a launch that finds [(buy milk,0)] shows exactly that note, and releases at -80 and at -120 keep it |

## Left out

- AsyncStorage and the promise chains around it (App.js:91, 95, 104). A save is modelled as one atomic step: the stored record is written, then the list is shown. The window while a save is in flight is not modelled.
- Failed storage calls (a rejected promise) are not modelled. In the source a failed read leaves the loading overlay up for good (App.js:90-100), and a failed save during an add clears the input but never shows the note (App.js:191, 104-106).
- The stale list seen by a dismissed row. `props.onRemove` runs after the 500 ms fade-out (App.js:54) and deletes from the `notes` of the render before the fade (App.js:110), so an add committed during the fade is overwritten. The model deletes at the moment of release, from the current list.
- The gap between clearing the input and the delayed list update, and double taps or other re-entrancy before a save resolves. This is scheduling behaviour.
- `JSON.stringify` and `JSON.parse`. The stored record is modelled as the note list itself. A record that fails to parse, or that has no `notes` field, is not modelled.
- The case where storage holds an empty string. `if (item)` treats it like a missing record, but the model stores either no record or a list.
- JavaScript number semantics. Ids are unbounded integers, so precision loss past 2^53 and non-integer ids in stored data are not modelled.
- The string length test on the input counts UTF-16 code units. Only "empty or not" matters, and that is modelled exactly.
- Animation: timing, durations, opacity and scale, and `PanResponder` wiring (App.js:22-40, 43-61). The drag offset is an integer, and the delete fires at the moment of release, not after the 500 ms fade-out.
- The initial `Animated.Value(1)` offset of a row and the drag updates to it (App.js:22, 26). Only the offset at release matters.
- Theming, styles, `Dimensions`, the status bar, the loading `Modal`, the header count, the empty-list text and the button's opacity cue (App.js:64-80, 115-317). These are presentation only.
- `App.Screen.Load`: `loading` is set and cleared inside one step, so the overlay being visible during the read is not observable in the model.
