/**
 The note collection of the notes app: the `Note` record and the three
 list transformations the controller applies to its state (append,
 rewrite-by-id, filter-by-id), together with reading the storage slot at
 startup. Ids are not required to be unique, so every statement about an
 id speaks of all records carrying it.
 */
module Notes {

  /** One note: a numeric id (a millisecond timestamp in the app) and its text. */
  datatype Note = Note(id: int, text: string)

  /** The value found in the storage slot: `None` when there is nothing usable. */
  datatype Option<T> = None | Some(value: T)

  /** True when some record of `notes` carries `id`. */
  predicate HasId(notes: seq<Note>, id: int)
  {
    exists i :: 0 <= i < |notes| && notes[i].id == id
  }

  /** Number of records of `notes` that carry `id`. */
  function CountId(notes: seq<Note>, id: int): (c: nat)
    ensures c <= |notes|
    ensures c == 0 <==> !HasId(notes, id)
  {
    if notes == [] then 0
    else
      var rest := CountId(notes[1..], id);
      assert forall i :: 0 < i < |notes| ==> notes[i] == notes[1..][i - 1];
      (if notes[0].id == id then 1 else 0) + rest
  }

  /** `addNewNote`: the new record goes at the end; its text defaults to "". */
  function Add(notes: seq<Note>, id: int, text: string := ""): (r: seq<Note>)
    ensures |r| == |notes| + 1
    ensures r[..|notes|] == notes
    ensures r[|notes|] == Note(id, text)
  {
    notes + [Note(id, text)]
  }

  /** `updateNoteText`: every record whose id matches gets the new text. */
  function UpdateText(notes: seq<Note>, id: int, text: string): (r: seq<Note>)
    ensures |r| == |notes|
    ensures forall i :: 0 <= i < |notes| ==> r[i].id == notes[i].id
    ensures forall i :: 0 <= i < |notes| && notes[i].id == id ==> r[i].text == text
    ensures forall i :: 0 <= i < |notes| && notes[i].id != id ==> r[i] == notes[i]
  {
    if notes == [] then []
    else
      var head := if notes[0].id == id then notes[0].(text := text) else notes[0];
      [head] + UpdateText(notes[1..], id, text)
  }

  /** `deleteNote`: keeps the records whose id differs, in their order. */
  function Delete(notes: seq<Note>, id: int): (r: seq<Note>)
    ensures |r| == |notes| - CountId(notes, id)
    ensures forall n :: n in r <==> n in notes && n.id != id
    ensures !HasId(r, id)
  {
    if notes == [] then []
    else if notes[0].id == id then Delete(notes[1..], id)
    else [notes[0]] + Delete(notes[1..], id)
  }

  /** The list the startup effect installs: a slot with no list reads as `[]`. */
  function Load(slot: Option<seq<Note>>): (r: seq<Note>)
    ensures slot.None? ==> r == []
    ensures slot.Some? ==> r == slot.value
  {
    if slot.Some? then slot.value else []
  }

  /** The state after startup: the stored list followed by one empty note. */
  function Initial(slot: Option<seq<Note>>, id: int): (r: seq<Note>)
    ensures |r| == |Load(slot)| + 1
    ensures r[..|r| - 1] == Load(slot)
    ensures r[|r| - 1] == Note(id, "")
    ensures slot.None? ==> r == [Note(id, "")]
  {
    Add(Load(slot), id)
  }

  /** Updating an id that no record carries leaves the list as it was. */
  lemma UpdateAbsent(notes: seq<Note>, id: int, text: string)
    requires !HasId(notes, id)
    ensures UpdateText(notes, id, text) == notes
  {
    var r := UpdateText(notes, id, text);
    forall i | 0 <= i < |notes| ensures r[i] == notes[i] {
      assert notes[i].id != id;
    }
  }

  /** Applying the same update twice is the same as applying it once. */
  lemma UpdateIdempotent(notes: seq<Note>, id: int, text: string)
    ensures UpdateText(UpdateText(notes, id, text), id, text) == UpdateText(notes, id, text)
  {
    var once := UpdateText(notes, id, text);
    var twice := UpdateText(once, id, text);
    forall i | 0 <= i < |notes| ensures twice[i] == once[i] {
      if notes[i].id == id {
        assert once[i] == Note(id, text);
      }
    }
  }

  /** The last of two updates to the same id wins. */
  lemma UpdateOverwrites(notes: seq<Note>, id: int, first: string, second: string)
    ensures UpdateText(UpdateText(notes, id, first), id, second) == UpdateText(notes, id, second)
  {
    var a := UpdateText(UpdateText(notes, id, first), id, second);
    var b := UpdateText(notes, id, second);
    forall i | 0 <= i < |notes| ensures a[i] == b[i] {
      if notes[i].id == id {
        assert a[i] == Note(id, second) == b[i];
      }
    }
  }

  /** Deleting an id that no record carries leaves the list as it was. */
  lemma {:induction false} DeleteAbsent(notes: seq<Note>, id: int)
    requires !HasId(notes, id)
    ensures Delete(notes, id) == notes
  {
    if notes != [] {
      assert notes[0].id != id;
      assert !HasId(notes[1..], id) by {
        forall i | 0 <= i < |notes[1..]| ensures notes[1..][i].id != id {
          assert notes[1..][i] == notes[i + 1];
        }
      }
      DeleteAbsent(notes[1..], id);
      assert notes == [notes[0]] + notes[1..];
    }
  }

  /** Deleting the same id twice is the same as deleting it once. */
  lemma {:induction false} DeleteIdempotent(notes: seq<Note>, id: int)
    ensures Delete(Delete(notes, id), id) == Delete(notes, id)
  {
    DeleteAbsent(Delete(notes, id), id);
  }

  /**
   Filtering distributes over concatenation: the kept records of a list
   are the kept records of its front followed by those of its back, so
   their relative order is the original one.
   */
  lemma {:induction false} DeleteAppend(a: seq<Note>, b: seq<Note>, id: int)
    ensures Delete(a + b, id) == Delete(a, id) + Delete(b, id)
  {
    if a == [] {
      assert a + b == b;
    } else {
      assert (a + b)[0] == a[0];
      assert (a + b)[1..] == a[1..] + b;
      DeleteAppend(a[1..], b, id);
    }
  }

  /** A single record is kept exactly when its id differs. */
  lemma DeleteSingle(n: Note, id: int)
    ensures Delete([n], id) == if n.id == id then [] else [n]
  {
    assert [n][1..] == [];
  }

  /**
   Deleting the id of a note just added removes it, and when the id was
   fresh the list is back to what it was before the add.
   */
  lemma AddThenDelete(notes: seq<Note>, id: int, text: string)
    ensures Delete(Add(notes, id, text), id) == Delete(notes, id)
    ensures !HasId(notes, id) ==> Delete(Add(notes, id, text), id) == notes
  {
    DeleteAppend(notes, [Note(id, text)], id);
    DeleteSingle(Note(id, text), id);
    if !HasId(notes, id) {
      DeleteAbsent(notes, id);
    }
  }

  /** Text committed to a note that is then deleted leaves no trace. */
  lemma {:induction false} UpdateThenDelete(notes: seq<Note>, id: int, text: string)
    ensures Delete(UpdateText(notes, id, text), id) == Delete(notes, id)
  {
    if notes != [] {
      var u := UpdateText(notes, id, text);
      assert u[1..] == UpdateText(notes[1..], id, text);
      UpdateThenDelete(notes[1..], id, text);
    }
  }

  /**
   The sequence of user actions: start with an empty slot, add "buy milk",
   rename the first note to "call mom", delete the second note. With two
   distinct timestamps exactly the renamed first note remains.
   */
  lemma Scenario(t0: int, t1: int)
    requires t0 != t1
    ensures var s0 := Initial(None, t0);
            var s1 := Add(s0, t1, "buy milk");
            var s2 := UpdateText(s1, t0, "call mom");
            var s3 := Delete(s2, t1);
            s0 == [Note(t0, "")] &&
            s1 == [Note(t0, ""), Note(t1, "buy milk")] &&
            s2 == [Note(t0, "call mom"), Note(t1, "buy milk")] &&
            s3 == [Note(t0, "call mom")]
  {
    var s2 := [Note(t0, "call mom"), Note(t1, "buy milk")];
    assert s2[1..][1..] == [];
    assert Delete(s2, t1) == [Note(t0, "call mom")];
  }

  /**
   The same actions when both notes are stamped in the same millisecond:
   the rename reaches both notes, and deleting the second note's id
   removes the first one as well.
   */
  lemma SameTickScenario(t: int)
    ensures var s1 := Add(Initial(None, t), t, "buy milk");
            var s2 := UpdateText(s1, t, "call mom");
            s2 == [Note(t, "call mom"), Note(t, "call mom")] &&
            Delete(s2, t) == []
  {
    var s2 := [Note(t, "call mom"), Note(t, "call mom")];
    assert s2[1..][1..] == [];
  }
}
