/**
 * The note entity and its two input shapes. They carry no behaviour:
 * a `Date` becomes an abstract integer timestamp, a string a `seq<char>`.
 */
module NoteTypes {

  /** A wall-clock reading; the model never compares two of them. */
  type Timestamp = int

  /** An opaque note identifier (a UUID string in the application). */
  type Id = string

  /** A stored note. */
  datatype Note = Note(
    id: Id,
    title: string,
    content: string,
    createdAt: Timestamp,
    updatedAt: Timestamp)

  /** Input of `createNote`: the id and both timestamps are assigned by the store. */
  datatype CreateNoteDto = CreateNoteDto(title: string, content: string)

  /** Input of `updateNote`: names the note to change and its new text. */
  datatype UpdateNoteDto = UpdateNoteDto(id: Id, title: string, content: string)
}
