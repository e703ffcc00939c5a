# Notes app — a Dafny model

This project models the logic of a small React notes app (`src/App.tsx`). The
`App` component owns an ordered list of notes `{id, text}`. It appends a note,
rewrites the text of the notes with a given id, and drops the notes with a
given id. At startup it installs the list kept in the browser storage slot
`"notes"` and appends one empty note. After every change it writes the whole
list back into that slot. Each note is shown by a `Note` widget. The widget
holds an edit-mode flag and a draft of the text, and it commits the draft to
the list when the text area loses focus.

- `notes.dfy`, module `Notes`: the `Note` record and the list
  transformations as pure functions (`Add`, `UpdateText`, `Delete`, `Load`,
  `Initial`). Lemmas state how they behave and how they combine.
- `app.dfy`, module `App`: the state. The class `NoteList` is the `App`
  component. Its `notes` field is the state cell and its `stored` field is
  the storage slot. Every handler ends with `Persist`, which models the
  persistence effect. The class `NoteEditor` is the `Note` widget.
  `Session` drives the two classes through one sequence of user actions.

Modelling choices:
- The clock read `Date.now()` that stamps a new note is a parameter `now`.
- The storage slot holds the parsed list (`Option<seq<Note>>`). Serialization
  is assumed to be faithful. An absent or empty slot becomes `"[]"` and is
  installed as `[]`. A falsy parse result (`null`, `false`, `0`, `""`) skips
  the install and leaves the initial `[]`. `None` and `Some([])` therefore
  both stand for any slot whose parse result is falsy or an empty array.
- Each functional `setNotes` update is one atomic step. The persistence
  effect runs right after it.
- At mount, the persistence effect runs once with the initial empty list.
  This happens after the startup effect has read the slot, so the slot holds
  `[]` for a moment. The startup constructor models this write, and then
  persists the installed list.
- Ids are not checked for uniqueness. Every contract talks about *all*
  records with a matching id.

Two behaviours of the code worth stating:
- `deleteNote` removes every record whose id matches, not just one. The
  length drops by the number of matches (`CountId`).
- Malformed slot contents are not turned into an empty list. `JSON.parse`
  throws on them (see Left out).

## Model

| member | source | states |
|---|---|---|
| `Notes.CountId` | src/App.tsx:37-38 | the number of records carrying an id is at most the length, and it is zero exactly when no record carries the id |
| `Notes.Add` | src/App.tsx:23-26 | the old list is an unchanged prefix, the length grows by one, the last record is `{id, text}`, and the text defaults to "" |
| `Notes.UpdateText` | src/App.tsx:28-35 | the length and every id stay the same at each position, every matching record gets the new text, and every other record is unchanged |
| `Notes.Delete` | src/App.tsx:37-38 | a record is kept iff it was present and its id differs, no record with the id remains, and the length is the old length minus the number of matches |
| `Notes.Load` | src/App.tsx:16-19 | a slot with no list reads as the empty list, and a stored list is installed as it is |
| `Notes.Initial` | src/App.tsx:15-21 | startup yields the stored list followed by one empty note (length N+1), and a missing slot yields just the empty note |
| `Notes.UpdateAbsent` | src/App.tsx:29-33 | updating an id that no record carries leaves the list unchanged |
| `Notes.UpdateIdempotent` | src/App.tsx:29-33 | applying the same update twice equals applying it once |
| `Notes.UpdateOverwrites` | src/App.tsx:29-33 | of two updates to one id the later text wins |
| `Notes.DeleteAbsent` | src/App.tsx:38 | deleting an id that no record carries leaves the list unchanged |
| `Notes.DeleteIdempotent` | src/App.tsx:38 | deleting the same id twice equals deleting it once |
| `Notes.DeleteAppend` | src/App.tsx:38 | filtering distributes over concatenation, so the kept records stay in their original relative order; with `DeleteSingle` this fixes `Delete` completely, including order and multiplicity, which `Delete`'s own contract (membership, length, no match) does not pin down |
| `Notes.DeleteSingle` | src/App.tsx:38 | a single record is kept exactly when its id differs |
| `Notes.AddThenDelete` | src/App.tsx:23-38 | deleting the id of a just-added note removes it, and it restores the old list when that id was fresh |
| `Notes.UpdateThenDelete` | src/App.tsx:28-38 | text committed to a note that is then deleted leaves no trace |
| `Notes.Scenario` | src/App.tsx:15-38 | empty slot, then startup, add "buy milk", rename the first note, delete the second: each intermediate list is the expected one and one renamed note remains |
| `Notes.SameTickScenario` | src/App.tsx:23-38 | when both notes are stamped in the same millisecond, the rename reaches both notes and the delete removes both |
| `App.NoteList.Persist` | src/App.tsx:40-42 | the slot afterwards holds the whole current list, and the list is unchanged |
| `App.NoteList.Startup` | src/App.tsx:13-21 | the list is the stored list followed by one empty note, and the slot holds it |
| `App.NoteList.AddNewNote` | src/App.tsx:23-26 | the new list is `Add` of the old one, and the slot holds it |
| `App.NoteList.UpdateNoteText` | src/App.tsx:28-35 | the new list is `UpdateText` of the old one, and the slot holds it |
| `App.NoteList.DeleteNote` | src/App.tsx:37-38 | the new list is `Delete` of the old one, and the slot holds it |
| `App.NoteEditor.constructor` | src/App.tsx:60-66 | a mounted widget is not editing, and its draft equals the note's committed text |
| `App.NoteEditor.ToggleEditing` | src/App.tsx:68 | the edit mode flips, and by its frame nothing else changes |
| `App.NoteEditor.ChangeText` | src/App.tsx:70-74 | only the draft changes, to the new value; the list is not touched |
| `App.NoteEditor.Blur` | src/App.tsx:76-78 | the list becomes `UpdateText(old list, id, draft)` and is persisted |
| `App.NoteEditor.DeleteClicked` | src/App.tsx:86 | the list becomes `Delete(old list, id)` and is persisted |
| `App.Session` | src/App.tsx:49-98 | the same actions, run through the controller and the widgets, leave exactly `[{t0, "call mom"}]` in the list and in the slot |

## Left out

- Rendering, CSS classes, icons and the `display`/`hidden` styling (src/App.tsx:44-58, 80-103). The only logic there is that the text area is shown exactly when `isEditing` holds, and that is the `isEditing` field itself.
- `localStorage` I/O and `JSON.parse`/`JSON.stringify` (src/App.tsx:16-18, 41). The slot holds the parsed list, and serialization is assumed to round-trip. Malformed slot contents make `JSON.parse` throw, so the startup effect fails. A truthy parse result that is not an array (an object, a non-zero number, `true`) is installed and then makes the spread at src/App.tsx:25 throw. A JSON string is installed and then spread into its characters. The model has none of these inputs and does not claim recovery from them.
- `Date.now()` (src/App.tsx:24). It is a clock read, so the id comes in as the parameter `now`. No uniqueness and no monotonicity are assumed.
- React's scheduling, batching and double-invoked effects in development mode. Each handler is one sequential step followed by its persistence write.
- The widget's static display shows the committed `text` prop, which the parent re-renders. The model keeps only the widget's own state (`id`, `isEditing`, the draft).
