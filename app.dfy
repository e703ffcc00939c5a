/**
 The stateful side of the notes app: the list controller, whose `notes`
 state cell is overwritten by each handler and mirrored into the storage
 slot after every change, and the per-note editor widget with its edit
 mode and draft buffer. Each functional state update is one atomic step.
 */
module App {
  import opened Notes

  /** The `App` component: the current list and the storage slot "notes". */
  class NoteList {
    var notes: seq<Note>
    var stored: Option<seq<Note>>

    /** The slot holds a snapshot of the whole current list. */
    predicate Synced()
      reads this
    {
      stored == Some(notes)
    }

    /** The persistence effect: write the whole list into the slot. */
    method Persist()
      modifies this`stored
      ensures Synced()
      ensures notes == old(notes)
    {
      stored := Some(notes);
    }

    /**
     Startup: read the slot; the mount-time persistence effect then writes
     the initial empty list; install what was read (nothing reads as the
     empty list) and append one empty note stamped `now`, which persists.
     */
    constructor Startup(slot: Option<seq<Note>>, now: int)
      ensures notes == Initial(slot, now)
      ensures Synced()
    {
      notes := [];
      stored := slot;
      new;
      var loaded := Load(stored);
      Persist();
      notes := loaded;
      AddNewNote(now);
    }

    /** `addNewNote`: append a note stamped `now`; its text defaults to "". */
    method AddNewNote(now: int, text: string := "")
      modifies this
      ensures notes == Add(old(notes), now, text)
      ensures Synced()
    {
      notes := Add(notes, now, text);
      Persist();
    }

    /** `updateNoteText`: give every note carrying `id` the new text. */
    method UpdateNoteText(id: int, text: string)
      modifies this
      ensures notes == UpdateText(old(notes), id, text)
      ensures Synced()
    {
      notes := UpdateText(notes, id, text);
      Persist();
    }

    /** `deleteNote`: drop every note carrying `id`. */
    method DeleteNote(id: int)
      modifies this
      ensures notes == Delete(old(notes), id)
      ensures Synced()
    {
      notes := Delete(notes, id);
      Persist();
    }
  }

  /** The `Note` widget: edit mode and a draft of the note's text. */
  class NoteEditor {
    const id: int
    var isEditing: bool
    var draft: string

    /** Mounting: not editing, draft equal to the committed text. */
    constructor (note: Note)
      ensures id == note.id
      ensures !isEditing && draft == note.text
    {
      id := note.id;
      isEditing := false;
      draft := note.text;
    }

    /** `toggleEditing`: flip the mode, nothing else. */
    method ToggleEditing()
      modifies this`isEditing
      ensures isEditing == !old(isEditing)
    {
      isEditing := !isEditing;
    }

    /** `handleNoteTextChange`: only the draft changes; nothing is committed. */
    method ChangeText(value: string)
      modifies this`draft
      ensures draft == value
    {
      draft := value;
    }

    /** `handleNoteTextBlur`: commit the draft to the list under this id. */
    method Blur(list: NoteList)
      modifies list
      ensures list.notes == UpdateText(old(list.notes), id, draft)
      ensures list.Synced()
    {
      list.UpdateNoteText(id, draft);
    }

    /** The delete button: ask the list to drop this id. */
    method DeleteClicked(list: NoteList)
      modifies list
      ensures list.notes == Delete(old(list.notes), id)
      ensures list.Synced()
    {
      list.DeleteNote(id);
    }
  }

  /**
   The same user actions driven through the controller and one editor:
   start from an empty slot, add "buy milk", edit the first note to
   "call mom" and blur, delete the second note. The slot ends holding
   the single renamed note.
   */
  method Session(t0: int, t1: int) returns (final: seq<Note>, slot: Option<seq<Note>>)
    requires t0 != t1
    ensures final == [Note(t0, "call mom")]
    ensures slot == Some(final)
  {
    var list := new NoteList.Startup(None, t0);
    list.AddNewNote(t1, "buy milk");
    var first := new NoteEditor(list.notes[0]);
    first.ToggleEditing();
    first.ChangeText("call mom");
    first.Blur(list);
    var second := new NoteEditor(list.notes[1]);
    second.DeleteClicked(list);
    Scenario(t0, t1);
    final, slot := list.notes, list.stored;
  }
}
