/**
 * The notes hook of F/hooks/useNotes.ts: one user's note collection kept in
 * memory, a save indicator, and a debounced write to local storage.
 *
 * The timer of the hook is the field `pending`: scheduling a save replaces
 * it (the earlier timer is cleared), `Tick(now, writeOk)` is the clock
 * reaching `now` (the timer fires once `now` reaches its due time, and the
 * write succeeds or throws as `writeOk` says), and `Unmount` clears it.
 * `Date.now()` is the parameter `now` of every operation.
 */
module NoteRepo {
  import opened Collections
  import opened Types
  import opened Text
  import opened Storage

  /** The debounce delay of a save, in milliseconds. */
  const DebounceDelay := 500

  /** The storage key of a user's notes, `notes_<userId>`. */
  function NotesKey(userId: string): string {
    "notes_" + userId
  }

  /** Each user has a key of their own. */
  lemma NotesKeyInjective(a: string, b: string)
    ensures NotesKey(a) == NotesKey(b) ==> a == b
  {
    if NotesKey(a) == NotesKey(b) {
      assert a == NotesKey(a)[6..] && b == NotesKey(b)[6..];
    }
  }

  /** The hook acts only for a user id that is present and non-empty (JavaScript truthiness). */
  predicate HasUser(userId: Option<string>) {
    userId.Some? && userId.value != ""
  }

  /** The id of a note created at `now`: `note_<now>`. */
  function NoteIdFor(now: nat): string {
    "note_" + DecimalString(now)
  }

  /** A scheduled write: the key and the collection the timer's callback captured, and when it fires. */
  datatype PendingWrite = PendingWrite(key: string, snapshot: seq<Note>, due: int)

  /** A write that reached storage. */
  datatype Write = Write(key: string, notes: seq<Note>)

  /** What the load effect adopts from storage: the parsed collection under the user's key, if any. */
  function StoredNotes(entries: map<string, Blob>, userId: Option<string>): (r: Option<seq<Note>>)
    ensures r.Some? <==> HasUser(userId) && NotesKey(userId.value) in entries
                         && entries[NotesKey(userId.value)].NoteList?
    ensures r.Some? ==> r.value == entries[NotesKey(userId.value)].notes
  {
    if !HasUser(userId) then None
    else
      var key := NotesKey(userId.value);
      if key in entries && Truthy(entries[key]) then ParseNotes(entries[key]) else None
  }

  /** A collection written under a user's key is what a later load of that user adopts. */
  lemma LoadAfterWrite(entries: map<string, Blob>, userId: string, s: seq<Note>)
    requires userId != ""
    ensures StoredNotes(entries[NotesKey(userId) := NoteList(s)], Some(userId)) == Some(s)
  {
  }

  /** The note `updateNote` makes of a matching note: the patch merged in, then `updatedAt` set to now. */
  function Stamped(n: Note, patch: NotePatch, now: int): (m: Note)
    ensures m.updatedAt == now
    ensures m == Merge(n, patch.(updatedAt := Some(now)))
  {
    Merge(n, patch).(updatedAt := now)
  }

  /** `notes.map(note => note.id === id ? { ...note, ...patch, updatedAt: now } : note)` */
  function UpdateById(notes: seq<Note>, id: string, patch: NotePatch, now: int): (r: seq<Note>)
    ensures |r| == |notes|
    ensures forall k :: 0 <= k < |notes| && notes[k].id != id ==> r[k] == notes[k]
    ensures forall k :: 0 <= k < |notes| && notes[k].id == id ==> r[k] == Stamped(notes[k], patch, now)
  {
    if notes == [] then []
    else [if notes[0].id == id then Stamped(notes[0], patch, now) else notes[0]]
         + UpdateById(notes[1..], id, patch, now)
  }

  /** An id that no note carries leaves the collection as it was. */
  lemma UpdateUnknownId(notes: seq<Note>, id: string, patch: NotePatch, now: int)
    requires forall k :: 0 <= k < |notes| ==> notes[k].id != id
    ensures UpdateById(notes, id, patch, now) == notes
  {
  }

  /** `notes.filter(note => note.id !== id)` */
  function RemoveById(notes: seq<Note>, id: string): (r: seq<Note>)
    ensures forall k :: 0 <= k < |r| ==> r[k].id != id && r[k] in notes
    ensures forall k :: 0 <= k < |notes| && notes[k].id != id ==> notes[k] in r
  {
    Filter(notes, (n: Note) => n.id != id)
  }

  /** Deleting keeps the other notes in their order: it distributes over any split of the collection. */
  lemma RemoveKeepsOrder(a: seq<Note>, b: seq<Note>, id: string)
    ensures RemoveById(a + b, id) == RemoveById(a, id) + RemoveById(b, id)
  {
    FilterConcat(a, b, (n: Note) => n.id != id);
  }

  /** Deleting an id that no note carries changes nothing. */
  lemma RemoveUnknownId(notes: seq<Note>, id: string)
    requires forall k :: 0 <= k < |notes| ==> notes[k].id != id
    ensures RemoveById(notes, id) == notes
  {
    FilterAll(notes, (n: Note) => n.id != id);
  }

  /** The update `togglePin` sends. */
  function PinPatch(pinned: bool): NotePatch {
    EmptyPatch.(isPinned := Some(pinned))
  }

  /** The update `changeColor` sends. */
  function ColorPatch(color: NoteColor): NotePatch {
    EmptyPatch.(color := Some(color))
  }

  /** `notes.find(n => n.id === id)`, as a position. */
  function FindById(notes: seq<Note>, id: string): Option<nat> {
    FirstIndex(notes, (n: Note) => n.id == id)
  }

  /**
   * The collection `togglePin` saves, or `None` when no note has the id (then
   * nothing is saved): every note with the id gets the negation of the first
   * such note's flag.
   */
  function ToggledPin(notes: seq<Note>, id: string, now: int): Option<seq<Note>> {
    match FindById(notes, id)
    case None => None
    case Some(i) => Some(UpdateById(notes, id, PinPatch(!notes[i].isPinned), now))
  }

  /**
   * Toggling a pin twice gives every note with that id the flag the first
   * such note had at the start (so, with unique ids, the note's own flag),
   * and leaves every other note as it was.
   */
  lemma TogglePinTwice(notes: seq<Note>, id: string, t1: int, t2: int)
    requires ToggledPin(notes, id, t1).Some?
    ensures ToggledPin(ToggledPin(notes, id, t1).value, id, t2).Some?
    ensures var once := ToggledPin(notes, id, t1).value;
            var twice := ToggledPin(once, id, t2).value;
            var i := FindById(notes, id).value;
            |twice| == |notes|
            && (forall k :: 0 <= k < |notes| && notes[k].id == id ==> twice[k].isPinned == notes[i].isPinned)
            && (forall k :: 0 <= k < |notes| && notes[k].id != id ==> twice[k] == notes[k])
  {
    var i := FindById(notes, id).value;
    var once := UpdateById(notes, id, PinPatch(!notes[i].isPinned), t1);
    assert FindById(once, id) == Some(i) by {
      assert once[i].id == id;
      forall j | 0 <= j < i ensures once[j].id != id {
        assert notes[j].id != id;
      }
    }
    assert once[i].isPinned == !notes[i].isPinned;
  }

  /** Applying `updateNote` patches one after another, as a burst of edits does. */
  function UpdateAll(notes: seq<Note>, id: string, patches: seq<NotePatch>, times: seq<int>): seq<Note>
    requires |patches| == |times|
    decreases |patches|
  {
    if patches == [] then notes
    else UpdateAll(UpdateById(notes, id, patches[0], times[0]), id, patches[1..], times[1..])
  }

  class NoteRepository {
    const store: LocalStorage
    var userId: Option<string>
    var notes: seq<Note>
    var loading: bool
    var saveStatus: SaveStatus
    /** The scheduled write, if a timer is pending: at most one. */
    var pending: Option<PendingWrite>
    /** The pending write's array is the very array held as `notes` (the hook stores and captures the same array). */
    var pendingShared: bool
    var unmounted: bool
    /** Every write that reached storage, in order. */
    ghost var writes: seq<Write>

    /**
     * The indicator says "saving" while a write is pending (and, until
     * unmount, only then), and a pending write on the current array carries
     * the current collection.
     */
    ghost predicate Valid()
      reads this
    {
      (pending.Some? ==> saveStatus == Saving)
      && (saveStatus == Saving && !unmounted ==> pending.Some?)
      && (pending.Some? && pendingShared ==> pending.value.snapshot == notes)
    }

    /** The state after `saveNotes(updated)` at `now`: with no user, nothing changes. */
    twostate predicate SavedAs(updated: seq<Note>, now: int)
      reads this
    {
      userId == old(userId) && loading == old(loading) && unmounted == old(unmounted)
      && writes == old(writes)
      && if HasUser(old(userId)) then
           notes == updated && saveStatus == Saving && pendingShared
           && pending == Some(PendingWrite(NotesKey(userId.value), updated, now + DebounceDelay))
         else
           notes == old(notes) && saveStatus == old(saveStatus) && pending == old(pending)
           && pendingShared == old(pendingShared)
    }

    /** The first render: no notes, loading, saved, no timer. */
    constructor (store: LocalStorage, userId: Option<string>)
      ensures Valid()
      ensures this.store == store && this.userId == userId
      ensures notes == [] && loading && saveStatus == Saved && pending == None
      ensures !pendingShared && !unmounted && writes == []
    {
      this.store := store;
      this.userId := userId;
      notes := [];
      loading := true;
      saveStatus := Saved;
      pending := None;
      pendingShared := false;
      unmounted := false;
      writes := [];
    }

    /**
     * The load effect, run on mount and whenever the user id changes: with a
     * user, a stored collection that parses replaces the notes; a missing,
     * empty or unparsable record leaves them as they were. Loading ends.
     */
    method LoadEffect()
      requires Valid()
      modifies this
      ensures Valid()
      ensures !loading
      ensures notes == (match StoredNotes(store.entries, userId)
                        case Some(s) => s
                        case None => old(notes))
      ensures pendingShared == (old(pendingShared) && StoredNotes(store.entries, userId).None?)
      ensures userId == old(userId) && saveStatus == old(saveStatus) && pending == old(pending)
      ensures unmounted == old(unmounted) && writes == old(writes)
    {
      if !HasUser(userId) {
        loading := false;
        return;
      }
      var stored := store.GetItem(NotesKey(userId.value));
      if stored.Some? && Truthy(stored.value) {
        var parsed := ParseNotes(stored.value);
        if parsed.Some? {
          notes := parsed.value;
          pendingShared := false;
        }
      }
      loading := false;
    }

    /** A render with user id `u`: the load effect runs again only if the id changed. */
    method SetUserId(u: Option<string>)
      requires Valid()
      modifies this
      ensures Valid()
      ensures userId == u
      ensures u == old(userId) ==> unchanged(this)
      ensures u != old(userId) ==>
                (!loading && notes == (match StoredNotes(store.entries, u)
                                       case Some(s) => s
                                       case None => old(notes)))
      ensures saveStatus == old(saveStatus) && pending == old(pending) && writes == old(writes)
    {
      if u != userId {
        userId := u;
        LoadEffect();
      }
    }

    /**
     * `saveNotes(updated)`: with a user, the notes become `updated` at once,
     * the indicator says "saving", and the earlier timer is replaced by one
     * that writes `updated` under the user's key a full delay from now.
     */
    method SaveNotes(updated: seq<Note>, now: int)
      requires Valid()
      modifies this
      ensures Valid() && SavedAs(updated, now)
    {
      if !HasUser(userId) {
        return;
      }
      notes := updated;
      saveStatus := Saving;
      pending := Some(PendingWrite(NotesKey(userId.value), updated, now + DebounceDelay));
      pendingShared := true;
    }

    /**
     * `addNote(title, content, category)`: a yellow, unpinned note stamped
     * `now`, in category `general` when none is given, put in front of the
     * others. It is returned even when there is no user to save it for.
     */
    method AddNote(title: string, content: string, category: Option<string>, now: nat)
      returns (n: Note)
      requires Valid()
      modifies this
      ensures Valid()
      ensures n == Note(NoteIdFor(now), title, content, Yellow, category.GetOr("general"), false, now, now)
      ensures SavedAs([n] + old(notes), now)
    {
      n := Note(NoteIdFor(now), title, content, Yellow, category.GetOr("general"), false, now, now);
      SaveNotes([n] + notes, now);
    }

    /** `updateNote(id, patch)`: every note with the id gets the patch and `updatedAt = now`. */
    method UpdateNote(id: string, patch: NotePatch, now: int)
      requires Valid()
      modifies this
      ensures Valid() && SavedAs(UpdateById(old(notes), id, patch, now), now)
    {
      SaveNotes(UpdateById(notes, id, patch, now), now);
    }

    /** `deleteNote(id)`: every note with the id is dropped. */
    method DeleteNote(id: string, now: int)
      requires Valid()
      modifies this
      ensures Valid() && SavedAs(RemoveById(old(notes), id), now)
    {
      SaveNotes(RemoveById(notes, id), now);
    }

    /** `togglePin(id)`: nothing at all happens when no note has the id. */
    method TogglePin(id: string, now: int)
      requires Valid()
      modifies this
      ensures Valid()
      ensures ToggledPin(old(notes), id, now).None? ==> unchanged(this)
      ensures ToggledPin(old(notes), id, now).Some? ==> SavedAs(ToggledPin(old(notes), id, now).value, now)
    {
      var found := FindById(notes, id);
      if found.None? {
        return;
      }
      UpdateNote(id, PinPatch(!notes[found.value].isPinned), now);
    }

    /** `changeColor(id, color)` */
    method ChangeColor(id: string, color: NoteColor, now: int)
      requires Valid()
      modifies this
      ensures Valid() && SavedAs(UpdateById(old(notes), id, ColorPatch(color), now), now)
    {
      UpdateNote(id, ColorPatch(color), now);
    }

    /**
     * The clock reaches `now`. Before the due time nothing happens. At or
     * after it the timer fires: the captured collection is written under the
     * captured key and the indicator says "saved", or, when the write throws,
     * storage is untouched and the indicator says "error". The in-memory
     * notes are kept either way.
     */
    method Tick(now: int, writeOk: bool)
      requires Valid()
      modifies this, store
      ensures Valid()
      ensures notes == old(notes) && userId == old(userId) && loading == old(loading)
      ensures unmounted == old(unmounted)
      ensures old(pending).None? || now < old(pending).value.due ==> unchanged(this) && unchanged(store)
      ensures old(pending).Some? && now >= old(pending).value.due ==>
                var w := old(pending).value;
                pending == None
                && (writeOk ==> saveStatus == Saved
                                && store.entries == old(store.entries)[w.key := NoteList(w.snapshot)]
                                && writes == old(writes) + [Write(w.key, w.snapshot)])
                && (!writeOk ==> saveStatus == Error && store.entries == old(store.entries)
                                 && writes == old(writes))
      ensures old(pending).Some? && old(pendingShared) && now >= old(pending).value.due && writeOk ==>
                store.entries[old(pending).value.key] == NoteList(notes)
    {
      if pending.None? || now < pending.value.due {
        return;
      }
      var w := pending.value;
      pending := None;
      pendingShared := false;
      if writeOk {
        store.SetItem(w.key, NoteList(w.snapshot));
        writes := writes + [Write(w.key, w.snapshot)];
        saveStatus := Saved;
      } else {
        saveStatus := Error;
      }
    }

    /** The cleanup effect: the pending timer is cleared and no write is forced. */
    method Unmount()
      requires Valid()
      modifies this
      ensures Valid()
      ensures pending == None && unmounted
      ensures notes == old(notes) && saveStatus == old(saveStatus) && userId == old(userId)
      ensures loading == old(loading) && writes == old(writes)
    {
      pending := None;
      unmounted := true;
    }
  }

  /**
   * A burst of edits, each less than the debounce delay after the one before,
   * with the clock ticking up to each edit, writes nothing; the tick a full
   * delay after the last edit writes exactly once, and writes the final
   * collection.
   */
  method UpdateBurst(repo: NoteRepository, id: string, patches: seq<NotePatch>, times: seq<int>)
    requires repo.Valid() && HasUser(repo.userId) && repo.pending.None?
    requires |times| == |patches| > 0
    requires forall k :: 0 < k < |times| ==> times[k - 1] <= times[k] < times[k - 1] + DebounceDelay
    modifies repo, repo.store
    ensures repo.Valid() && repo.userId == old(repo.userId)
    ensures repo.notes == UpdateAll(old(repo.notes), id, patches, times)
    ensures repo.writes == old(repo.writes) + [Write(NotesKey(repo.userId.value), repo.notes)]
    ensures repo.saveStatus == Saved && repo.pending.None?
  {
    var k := 0;
    while k < |patches|
      invariant 0 <= k <= |patches|
      invariant repo.Valid() && repo.userId == old(repo.userId)
      invariant repo.writes == old(repo.writes)
      invariant UpdateAll(old(repo.notes), id, patches, times)
                == UpdateAll(repo.notes, id, patches[k..], times[k..])
      invariant k == 0 ==> repo.pending.None?
      invariant k > 0 ==> repo.pending.Some? && repo.pendingShared
                          && repo.pending.value.key == NotesKey(repo.userId.value)
                          && repo.pending.value.due == times[k - 1] + DebounceDelay
    {
      repo.Tick(times[k], true);
      repo.UpdateNote(id, patches[k], times[k]);
      assert patches[k..][1..] == patches[k + 1..] && times[k..][1..] == times[k + 1..];
      k := k + 1;
    }
    repo.Tick(times[|times| - 1] + DebounceDelay, true);
  }

  /**
   * Adding a note and deleting it before the timer fires: one write happens,
   * and it holds the collection without the note.
   */
  method AddThenDelete(store: LocalStorage, user: string, t: nat)
    requires user != ""
    modifies store
  {
    var repo := new NoteRepository(store, Some(user));
    repo.LoadEffect();
    var before := repo.notes;
    var n := repo.AddNote("Title", "Body", None, t);
    repo.DeleteNote(n.id, t + 10);
    repo.Tick(t + 100, true);
    assert repo.writes == [];
    repo.Tick(t + 10 + DebounceDelay, true);
    assert repo.writes == [Write(NotesKey(user), RemoveById([n] + before, n.id))];
  }

  /** A failed write shows "error"; the next mutation shows "saving" and, once written, "saved". */
  method ErrorThenRecover(store: LocalStorage, user: string, t: nat)
    requires user != ""
    modifies store
  {
    var repo := new NoteRepository(store, Some(user));
    repo.LoadEffect();
    var n := repo.AddNote("a", "", None, t);
    repo.Tick(t + DebounceDelay, false);
    assert repo.saveStatus == Error && repo.notes == [n] + repo.notes[1..];
    repo.TogglePin(n.id, t + 1000);
    assert repo.saveStatus == Saving;
    repo.Tick(t + 1000 + DebounceDelay, true);
    assert repo.saveStatus == Saved;
    assert store.entries[NotesKey(user)] == NoteList(repo.notes);
  }
}
