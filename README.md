# Notes data layer, modelled in Dafny

This project models the client-side data layer of a small notes application. It has two parts:

- **The mock notes API** (`notes_api.dfy`, module `NotesApi`). One process-wide, ordered collection of notes. Four operations read and change it in place:
  - list all notes;
  - create a note, which appends it;
  - update a note, which overwrites the first note with a matching id or fails with "Note not found";
  - delete a note, which splices out the first note with a matching id, or does nothing when there is none.

  The class `NotesStore` holds the collection as a `seq<Note>` field, with one method per operation. `FindIndex` is the linear `findIndex` scan, written as a loop. Each method is proved against a pure function (`FirstIndex`, `NewNote`, `Update`, `Delete`). The lemmas about those functions state the promises that span several operations: ids stay distinct, delete undoes create, a repeated update is idempotent, and deleting after an update is the same as deleting.
- **The note validation schema** (`note_validation.dfy`, module `NoteValidation`). Each of `title` and `content` has three rules: required, minimum length and maximum length, each with its own message. `Validate` returns every broken rule as a field-level violation. The lemmas prove three things: a candidate is accepted exactly when `3 <= |title| <= 100` and `10 <= |content| <= 1000`; each field's verdict depends on that field alone; and the schema's messages are the ones declared.

`note_types.dfy` holds the `Note`, `CreateNoteDto` and `UpdateNoteDto` shapes. `wrappers.dfy` holds `Option` and `Result`.

The intended behaviour of the store goes beyond what its code guarantees. Where the two differ, the model follows the code:
- A created note is meant to have `createdAt == updatedAt`, and every note `updatedAt >= createdAt`. The code reads the clock twice (src/shared/api/notes.ts:18-19), so `CreateNote` takes two separate timestamps and claims no relation between them.
- Note ids are meant to be unique. The code never checks the generated id (src/shared/api/notes.ts:16). So every distinct-ids result takes, as a hypothesis, that the fresh id is not already stored.

## Model

| member | source | states |
|---|---|---|
| `NotesApi.ErrorMessage` | src/shared/api/notes.ts:28 | The only API error carries the text "Note not found". |
| `NotesApi.FirstIndex` | src/shared/api/notes.ts:27 | The result is -1 exactly when no stored note has the id. Otherwise it is an index holding that id with no earlier index holding it. |
| `NotesApi.FindIndex` | src/shared/api/notes.ts:27-41 | The `findIndex` scan of `updateNote` (line 27) and `deleteNote` (line 41), as a loop. It returns exactly the first matching index, or -1 when there is no match. |
| `NotesApi.NewNote` | src/shared/api/notes.ts:15-20 | A created note has the supplied id, the dto's title and content, and the two supplied clock readings as `createdAt` and `updatedAt`. |
| `NotesApi.Update` | src/shared/api/notes.ts:25-37 | Fails with NoteNotFound exactly when no note has `dto.id`. On success, only the first matching slot changes and the length is kept. The new entry keeps its id and `createdAt`, takes the dto's title and content and the new `updatedAt`, and is the note returned. |
| `NotesApi.Delete` | src/shared/api/notes.ts:39-45 | With no match, the collection is unchanged. With a match, it is one shorter. Entries before the first match keep their index, and entries after it move down by one, in order. |
| `NotesApi.DeleteRemovesOneNote` | src/shared/api/notes.ts:41-43 | Delete removes one copy of the first matching note and keeps every other note: the multisets differ by exactly that note. |
| `NotesApi.CreatePreservesDistinctIds` | src/shared/api/notes.ts:16-21 | Appending a note whose id is not already stored keeps all ids distinct. |
| `NotesApi.UpdatePreservesDistinctIds` | src/shared/api/notes.ts:27-35 | A successful update keeps distinct ids distinct. |
| `NotesApi.DeletePreservesDistinctIds` | src/shared/api/notes.ts:41-43 | When ids are distinct, delete keeps them distinct and leaves no note with the deleted id. |
| `NotesApi.DeleteUndoesCreate` | src/shared/api/notes.ts:13-45 | After creating a note with a fresh id, the first match for that id is the new last slot, and deleting that id restores the previous collection. |
| `NotesApi.UpdateIsIdempotent` | src/shared/api/notes.ts:27-36 | Repeating a successful update with the same dto and time gives the same collection and the same returned note. |
| `NotesApi.DeleteAfterUpdate` | src/shared/api/notes.ts:25-45 | Deleting an id right after a successful update of it gives the same collection as deleting it without the update. |
| `NotesApi.NotesStore.constructor` | src/shared/api/notes.ts:5 | The collection starts empty. |
| `NotesApi.NotesStore.GetAllNotes` | src/shared/api/notes.ts:8-11 | Returns the stored collection element by element, in order, and changes nothing. |
| `NotesApi.NotesStore.CreateNote` | src/shared/api/notes.ts:13-23 | The new collection is the old one plus the new note at the end, and the returned note is that entry. Ids stay distinct when the fresh id is not already stored. |
| `NotesApi.NotesStore.UpdateNote` | src/shared/api/notes.ts:25-37 | On a miss, fails with NoteNotFound and leaves the collection unchanged. On a hit, the collection and the returned note are the ones `Update` gives. Distinct ids stay distinct. |
| `NotesApi.NotesStore.DeleteNote` | src/shared/api/notes.ts:39-45 | The new collection is `Delete` of the old one, and a miss is a silent no-op. When ids were distinct, they stay distinct and the id is gone. |
| `NoteValidation.Breaks` | src/shared/lib/validation.ts:5-11 | Whether a value breaks a rule. The min and max rules skip a missing value, so only required can be broken by one. A present value whose length is within the field's bounds breaks no rule, required included. |
| `NoteValidation.CheckField` | src/shared/lib/validation.ts:4-11 | A field's violations are exactly the rules of that field its value breaks, each with that rule's message. Required is broken by a missing or empty value. Min and max are broken by a present value of too few or too many characters. |
| `NoteValidation.Validate` | src/shared/lib/validation.ts:3-12 | Each of the six rules is reported exactly when it is broken: title missing or empty, shorter than 3 or longer than 100; content missing or empty, shorter than 10 or longer than 1000. Each violation carries its rule's message. |
| `NoteValidation.MessagesAsDeclared` | src/shared/lib/validation.ts:5-11 | The six rule messages are the declared strings. |
| `NoteValidation.FieldsAreIndependent` | src/shared/lib/validation.ts:4-11 | The violations reported for a field are exactly those of that field's own rules on its own value. |
| `NoteValidation.TitleVerdictIgnoresContent` | src/shared/lib/validation.ts:4-7 | Changing the content never changes what is reported about the title. |
| `NoteValidation.ContentVerdictIgnoresTitle` | src/shared/lib/validation.ts:8-11 | Changing the title never changes what is reported about the content. |
| `NoteValidation.AcceptedExactlyWithinBounds` | src/shared/lib/validation.ts:3-12 | A candidate is accepted exactly when both fields are present, the title has 3 to 100 characters and the content 10 to 1000. The required rule adds nothing to this. |
| `NoteValidation.EmptyBreaksRequiredAndMinimum` | src/shared/lib/validation.ts:5-6 | An empty string breaks both the required rule and the minimum-length rule. |
| `NoteValidation.BoundaryExamples` | src/shared/lib/validation.ts:6-10 | A 2-character title with valid content fails only the title minimum. A 9-character content with a valid title fails only the content minimum. A 3-character title with 10-character content is accepted. |

## Left out

- Simulated latency (`delay`, `setTimeout`) and the `async`/`await` wrappers: each operation is one atomic step. How overlapping delayed calls interleave is not modelled.
- Id generation (`crypto.randomUUID()`) is a foreign call. The id is a parameter, and uniqueness is a hypothesis of the distinct-ids results.
- The clock (`new Date()`) is a foreign call. Each reading is an integer parameter. No ordering between timestamps is claimed, so the intended `updatedAt >= createdAt` is not modelled.
- Aliasing of stored notes: the source's copies are shallow. `getAllNotes` returns a new array holding the stored `Note` objects themselves (src/shared/api/notes.ts:10). The notes returned by create and update share their `Date` objects with the stored note (lines 22, 36). So in the source a caller can change a stored note's id, title, content or timestamps without going through the API. Dafny sequences and datatypes are values, so the model cannot express this. Every result of the model, including distinct ids and "nothing else changes", assumes that no caller mutates a note it was handed.
- Extra runtime properties on a dto object: the object spread would copy them into the stored note, and a stray `id` on a create dto would override the generated one. The model's dtos have only their declared fields.
- yup internals: coercion of non-string values, `abortEarly` (reporting the first error only), error object shapes and the order of reported errors. The model reports every broken rule, in the order the rules are declared.
- Length is counted in `char`s of a `seq<char>`, one per Unicode scalar value. JavaScript counts UTF-16 code units, so a character outside the Basic Multilingual Plane counts once here and twice in the source. For example, `"a😀"` meets the title minimum in the source but not in the model. This difference is not modelled.
