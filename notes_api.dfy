/**
 * The in-memory mock notes API: one ordered collection of notes, read and
 * changed in place by list, create, update and delete. Latency, `async`,
 * id generation and the clock are outside the model: the fresh id and every
 * clock reading are parameters, and each operation is one atomic step.
 *
 * The pure functions below specify each operation on the collection as a
 * value; the class `NotesStore` performs the same steps in place and its
 * methods are proved against those functions.
 */
module NotesApi {
  import opened Wrappers
  import opened NoteTypes

  /** The only failure of the API: an update names an id that is not stored. */
  datatype ApiError = NoteNotFound

  /** The text carried by the thrown error. */
  function ErrorMessage(e: ApiError): (m: string)
    ensures e == NoteNotFound ==> m == "Note not found"
  {
    match e
    case NoteNotFound => "Note not found"
  }

  /** Some stored note has identifier `id`. */
  ghost predicate HasId(s: seq<Note>, id: Id) {
    exists j | 0 <= j < |s| :: s[j].id == id
  }

  /** No two stored notes share an identifier. */
  ghost predicate DistinctIds(s: seq<Note>) {
    forall i, j | 0 <= i < j < |s| :: s[i].id != s[j].id
  }

  /**
   * `Array.prototype.findIndex` with the predicate "id equals `id`": the
   * index of the first note with that id, or -1 when there is none.
   */
  function FirstIndex(s: seq<Note>, id: Id): (r: int)
    ensures -1 <= r < |s|
    ensures r == -1 <==> !HasId(s, id)
    ensures r != -1 ==> s[r].id == id && forall j | 0 <= j < r :: s[j].id != id
  {
    if s == [] then -1
    else if s[0].id == id then 0
    else
      var k := FirstIndex(s[1..], id);
      assert forall j | 1 <= j < |s| :: s[j] == s[1..][j - 1];
      if k == -1 then -1 else k + 1
  }

  /** The linear scan `findIndex` performs, proved to find the first match. */
  method FindIndex(s: seq<Note>, id: Id) returns (i: int)
    ensures i == FirstIndex(s, id)
  {
    i := 0;
    while i < |s|
      invariant 0 <= i <= |s|
      invariant forall j | 0 <= j < i :: s[j].id != id
    {
      if s[i].id == id {
        return;
      }
      i := i + 1;
    }
    i := -1;
  }

  /** The note `createNote` builds: fresh id, the dto's text, two clock readings. */
  function NewNote(dto: CreateNoteDto, id: Id, createdAt: Timestamp, updatedAt: Timestamp): (n: Note)
    ensures n.id == id && n.title == dto.title && n.content == dto.content
    ensures n.createdAt == createdAt && n.updatedAt == updatedAt
  {
    Note(id, dto.title, dto.content, createdAt, updatedAt)
  }

  /**
   * `updateNote` on collection `s` at time `now`: on success, the new
   * collection and the note that was stored and returned.
   */
  function Update(s: seq<Note>, dto: UpdateNoteDto, now: Timestamp): (r: Result<(seq<Note>, Note), ApiError>)
    ensures r.Failure? <==> !HasId(s, dto.id)
    ensures r.Failure? ==> r.error == NoteNotFound
    ensures r.Success? ==>
      var i := FirstIndex(s, dto.id);
      var (s', n) := r.value;
      && |s'| == |s|
      && s'[i] == n
      && (forall j | 0 <= j < |s| && j != i :: s'[j] == s[j])
      && n.id == s[i].id && n.createdAt == s[i].createdAt
      && n.title == dto.title && n.content == dto.content && n.updatedAt == now
  {
    var i := FirstIndex(s, dto.id);
    if i == -1 then Failure(NoteNotFound)
    else
      // the stored note's fields, overridden by the dto's, then the new updatedAt
      var n := Note(dto.id, dto.title, dto.content, s[i].createdAt, now);
      Success((s[i := n], n))
  }

  /**
   * `deleteNote` on collection `s`: the first note with identifier `id` is
   * removed and the others keep their order; without a match nothing changes.
   */
  function Delete(s: seq<Note>, id: Id): (r: seq<Note>)
    ensures !HasId(s, id) ==> r == s
    ensures HasId(s, id) ==>
      var i := FirstIndex(s, id);
      && |r| == |s| - 1
      && (forall j | 0 <= j < i :: r[j] == s[j])
      && (forall j | i <= j < |r| :: r[j] == s[j + 1])
  {
    var i := FirstIndex(s, id);
    if i == -1 then s else s[..i] + s[i + 1..]
  }

  /** Deleting removes one occurrence of the first matching note and nothing else. */
  lemma DeleteRemovesOneNote(s: seq<Note>, id: Id)
    requires HasId(s, id)
    ensures multiset(Delete(s, id)) + multiset{s[FirstIndex(s, id)]} == multiset(s)
  {
    var i := FirstIndex(s, id);
    assert Delete(s, id) == s[..i] + s[i + 1..];
    SpliceMultiset(s, i);
  }

  lemma SpliceMultiset(s: seq<Note>, i: nat)
    requires i < |s|
    ensures multiset(s[..i] + s[i + 1..]) + multiset{s[i]} == multiset(s)
  {
    assert s == s[..i] + [s[i]] + s[i + 1..];
  }

  /** A fresh id keeps the identifiers distinct when the new note is appended. */
  lemma CreatePreservesDistinctIds(s: seq<Note>, n: Note)
    requires DistinctIds(s)
    requires !HasId(s, n.id)
    ensures DistinctIds(s + [n])
  {
  }

  /** An update keeps the identifier of the slot it overwrites, so distinct ids stay distinct. */
  lemma UpdatePreservesDistinctIds(s: seq<Note>, dto: UpdateNoteDto, now: Timestamp)
    requires DistinctIds(s)
    ensures Update(s, dto, now).Success? ==> DistinctIds(Update(s, dto, now).value.0)
  {
  }

  /**
   * With distinct identifiers, deleting `id` leaves no note with that id and
   * the remaining identifiers stay distinct.
   */
  lemma DeletePreservesDistinctIds(s: seq<Note>, id: Id)
    requires DistinctIds(s)
    ensures DistinctIds(Delete(s, id))
    ensures !HasId(Delete(s, id), id)
  {
  }

  /** Deleting the note just created restores the previous collection. */
  lemma {:induction false} DeleteUndoesCreate(s: seq<Note>, n: Note)
    requires !HasId(s, n.id)
    ensures FirstIndex(s + [n], n.id) == |s|
    ensures Delete(s + [n], n.id) == s
  {
    assert (s + [n])[|s|] == n;
    assert forall j | 0 <= j < |s| :: (s + [n])[j] == s[j];
    assert (s + [n])[..|s|] == s;
  }

  /** Repeating an update with the same dto and time changes nothing more. */
  lemma UpdateIsIdempotent(s: seq<Note>, dto: UpdateNoteDto, now: Timestamp)
    requires Update(s, dto, now).Success?
    ensures Update(Update(s, dto, now).value.0, dto, now) == Update(s, dto, now)
  {
    var i := FirstIndex(s, dto.id);
    var (s', n) := Update(s, dto, now).value;
    assert forall j | 0 <= j < i :: s'[j] == s[j];
    assert FirstIndex(s', dto.id) == i;
    assert s'[i := n] == s';
  }

  /** Deleting a note after updating it is the same as deleting it outright. */
  lemma DeleteAfterUpdate(s: seq<Note>, dto: UpdateNoteDto, now: Timestamp)
    requires Update(s, dto, now).Success?
    ensures Delete(Update(s, dto, now).value.0, dto.id) == Delete(s, dto.id)
  {
  }

  /**
   * The process-wide notes collection. Every method is one atomic step of
   * the corresponding API call, after its simulated delay has elapsed.
   */
  class NotesStore {
    var notes: seq<Note>

    /** The collection starts empty. */
    constructor ()
      ensures notes == []
    {
      notes := [];
    }

    /** `getAllNotes`: a copy of the collection, in insertion order. */
    method GetAllNotes() returns (all: seq<Note>)
      ensures all == notes
    {
      all := notes;
    }

    /**
     * `createNote`: append a note with the supplied id and clock readings
     * and return it. The id is not checked for uniqueness.
     */
    method CreateNote(dto: CreateNoteDto, id: Id, createdAt: Timestamp, updatedAt: Timestamp) returns (n: Note)
      modifies this
      ensures n == NewNote(dto, id, createdAt, updatedAt)
      ensures notes == old(notes) + [n]
      ensures DistinctIds(old(notes)) && !HasId(old(notes), id) ==> DistinctIds(notes)
    {
      n := Note(id, dto.title, dto.content, createdAt, updatedAt);
      if DistinctIds(notes) && !HasId(notes, id) {
        CreatePreservesDistinctIds(notes, n);
      }
      notes := notes + [n];
    }

    /**
     * `updateNote`: overwrite the first note whose id matches and return
     * it, or fail with "Note not found" and leave the collection alone.
     */
    method UpdateNote(dto: UpdateNoteDto, now: Timestamp) returns (r: Result<Note, ApiError>)
      modifies this
      ensures Update(old(notes), dto, now).Failure? ==> r == Failure(NoteNotFound) && notes == old(notes)
      ensures Update(old(notes), dto, now).Success? ==>
        r == Success(Update(old(notes), dto, now).value.1) && notes == Update(old(notes), dto, now).value.0
      ensures DistinctIds(old(notes)) ==> DistinctIds(notes)
    {
      var i := FindIndex(notes, dto.id);
      if i == -1 {
        return Failure(NoteNotFound);
      }
      if DistinctIds(notes) {
        UpdatePreservesDistinctIds(notes, dto, now);
      }
      var updated := Note(dto.id, dto.title, dto.content, notes[i].createdAt, now);
      notes := notes[i := updated];
      r := Success(updated);
    }

    /** `deleteNote`: splice out the first note whose id matches; no error on a miss. */
    method DeleteNote(id: Id)
      modifies this
      ensures notes == Delete(old(notes), id)
      ensures DistinctIds(old(notes)) ==> DistinctIds(notes) && !HasId(notes, id)
    {
      var i := FindIndex(notes, id);
      if DistinctIds(notes) {
        DeletePreservesDistinctIds(notes, id);
      }
      if i != -1 {
        notes := notes[..i] + notes[i + 1..];
      }
    }
  }
}
