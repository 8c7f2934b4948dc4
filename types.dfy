/**
 * The records the notes application keeps (F/lib/types.ts): notes with an
 * integer timestamp, the signed-in user, the save indicator, and what a
 * storage key can hold.
 */
module Types {
  import opened Collections

  datatype NoteColor = Yellow | Mint | Lavender | Peach | Blue

  datatype Note = Note(
    id: string,
    title: string,
    content: string,
    color: NoteColor,
    category: string,
    isPinned: bool,
    createdAt: int,
    updatedAt: int)

  datatype User = User(id: string, username: string)

  /** The save indicator of the notes hook. */
  datatype SaveStatus = Saved | Saving | Error

  /** `Partial<Note>`: each field an update may carry. */
  datatype NotePatch = NotePatch(
    id: Option<string>,
    title: Option<string>,
    content: Option<string>,
    color: Option<NoteColor>,
    category: Option<string>,
    isPinned: Option<bool>,
    createdAt: Option<int>,
    updatedAt: Option<int>)

  const EmptyPatch := NotePatch(None, None, None, None, None, None, None, None)

  /** `{ ...note, ...patch }`: every field the patch carries replaces the note's. */
  function Merge(n: Note, p: NotePatch): Note {
    Note(p.id.GetOr(n.id), p.title.GetOr(n.title), p.content.GetOr(n.content),
         p.color.GetOr(n.color), p.category.GetOr(n.category),
         p.isPinned.GetOr(n.isPinned), p.createdAt.GetOr(n.createdAt),
         p.updatedAt.GetOr(n.updatedAt))
  }

  /**
   * What a storage key holds. `NoteList` and `UserRecord` stand for the JSON
   * text the application itself writes; `Raw` is any other text, which does
   * not parse as the record the reader expects.
   */
  datatype Blob = NoteList(notes: seq<Note>) | UserRecord(user: User) | Raw(text: string)

  /** A stored string is truthy unless it is the empty string. */
  predicate Truthy(b: Blob) {
    !(b.Raw? && b.text == "")
  }

  /**
   * Reading a notes record: the model adopts a note list, the only value
   * the application itself writes under a notes key, and treats every
   * other stored value as a parse failure.
   */
  function ParseNotes(b: Blob): (r: Option<seq<Note>>)
    ensures r.Some? <==> b.NoteList?
  {
    if b.NoteList? then Some(b.notes) else None
  }

  /**
   * Reading a session record: the model adopts a user record, the only
   * value the application itself writes under the session key, and treats
   * every other stored value as a parse failure.
   */
  function ParseUser(b: Blob): (r: Option<User>)
    ensures r.Some? <==> b.UserRecord?
  {
    if b.UserRecord? then Some(b.user) else None
  }
}
