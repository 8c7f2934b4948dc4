/**
 * One render of the dashboard page (Frontend/app/dashboard/page.tsx and
 * app/dashboard/page.tsx, which agree on everything modelled here) and its
 * add-note form. The render reads the session and the note collection;
 * when no filter is set it sorts the collection's own array in place.
 */
module DashboardPage {
  import opened Collections
  import opened Types
  import opened Text
  import opened Session
  import opened NoteRepo
  import opened DashboardView

  /** What a render produces. */
  datatype Screen =
    | Loading(toAuth: bool)
    | Board(shown: seq<Note>, categories: seq<string>, emptyState: Option<string>, stats: Option<Stats>)

  /**
   * A render: while the session loads, or with nobody signed in, the
   * loading screen (and, once loading is over, a redirect to `/auth`).
   * Otherwise the category list of the collection, the filtered notes
   * sorted pinned-first and newest-first, the empty-state heading and the
   * footer. When no filter is set the chain never copies the array, so the
   * sort reorders the collection held by the notes hook, and with it the
   * array a pending write will store; with a filter set the collection is
   * left alone. The notes hook is the one opened with the session user's id.
   */
  method Render(session: SessionStore, repo: NoteRepository, f: Filters) returns (screen: Screen)
    requires repo.Valid()
    requires repo.userId == (if session.user.Some? then Some(session.user.value.id) else None)
    modifies repo
    ensures repo.Valid()
    ensures session.loading || session.user.None? ==>
              screen == Loading(!session.loading) && unchanged(repo)
    ensures !session.loading && session.user.Some? ==>
              screen.Board?
              && screen.shown == View(old(repo.notes), f)
              && screen.categories == Categories(old(repo.notes))
              && screen.emptyState == EmptyStateText(old(repo.notes), screen.shown)
              && screen.stats == FooterStats(old(repo.notes), screen.categories)
    ensures !session.loading && session.user.Some? && !NoFilter(f) ==> unchanged(repo)
    ensures !session.loading && session.user.Some? && NoFilter(f) ==>
              repo.notes == SortNotes(old(repo.notes))
              && repo.pending == (if old(repo.pending).Some? && old(repo.pendingShared)
                                  then Some(old(repo.pending).value.(snapshot := repo.notes))
                                  else old(repo.pending))
              && repo.userId == old(repo.userId) && repo.loading == old(repo.loading)
              && repo.saveStatus == old(repo.saveStatus) && repo.pendingShared == old(repo.pendingShared)
              && repo.unmounted == old(repo.unmounted) && repo.writes == old(repo.writes)
  {
    if session.loading || session.user.None? {
      return Loading(!session.loading);
    }
    var notes := repo.notes;
    var categories := Categories(notes);

    var filtered := notes;
    var aliased := true;
    if f.searchTerm != "" {
      filtered := Filter(filtered, (n: Note) => MatchesSearch(n, f.searchTerm));
      aliased := false;
    }
    if f.category != "" {
      filtered := Filter(filtered, (n: Note) => n.category == f.category);
      aliased := false;
    }
    if f.pinnedOnly {
      filtered := Filter(filtered, (n: Note) => n.isPinned);
      aliased := false;
    }
    assert filtered == Filtered(notes, f);
    assert aliased == NoFilter(f);

    filtered := SortNotes(filtered);
    if aliased {
      repo.notes := filtered;
      if repo.pending.Some? && repo.pendingShared {
        repo.pending := Some(repo.pending.value.(snapshot := filtered));
      }
    }

    SortKeepsStats(notes, categories);
    SortPermutes(notes);
    screen := Board(filtered, categories, EmptyStateText(repo.notes, filtered), FooterStats(repo.notes, categories));
  }

  /** The header's sign-out button: the session ends and the router goes to `/auth`. */
  method HandleLogout(session: SessionStore) returns (route: string)
    modifies session, session.store
    ensures route == "/auth"
    ensures session.user == None
    ensures session.store.entries == old(session.store.entries) - {UserKey}
  {
    session.Logout();
    route := "/auth";
  }

  /** The add-note row: a title box and a category select that starts at `general`. */
  class AddNoteForm {
    var newNoteTitle: string
    var newNoteCategory: string

    constructor ()
      ensures newNoteTitle == "" && newNoteCategory == "general"
    {
      newNoteTitle := "";
      newNoteCategory := "general";
    }

    method SetTitle(value: string)
      modifies this
      ensures newNoteTitle == value && newNoteCategory == old(newNoteCategory)
    {
      newNoteTitle := value;
    }

    method SetCategory(value: string)
      modifies this
      ensures newNoteCategory == value && newNoteTitle == old(newNoteTitle)
    {
      newNoteCategory := value;
    }

    /**
     * `handleAddNote` (the button, or Enter in the title box): a title with
     * something besides white space adds an empty note with the untrimmed
     * title in the chosen category, and the form goes back to its initial
     * state; a blank title changes nothing.
     */
    method HandleAddNote(repo: NoteRepository, now: nat) returns (added: Option<Note>)
      requires repo.Valid()
      modifies this, repo
      ensures repo.Valid()
      ensures added.Some? <==> !AllSpace(old(newNoteTitle))
      ensures added.None? ==> unchanged(this) && unchanged(repo)
      ensures added.Some? ==>
                added.value == Note(NoteIdFor(now), old(newNoteTitle), "", Yellow, old(newNoteCategory), false, now, now)
                && repo.SavedAs([added.value] + old(repo.notes), now)
                && newNoteTitle == "" && newNoteCategory == "general"
    {
      TrimEmptyIffBlank(newNoteTitle);
      if Trim(newNoteTitle) == "" {
        return None;
      }
      var n := repo.AddNote(newNoteTitle, "", Some(newNoteCategory), now);
      newNoteTitle := "";
      newNoteCategory := "general";
      added := Some(n);
    }
  }

  /**
   * With no filter set, a render leaves the collection holding the same
   * notes, and the next load of what a pending write stores shows them in
   * the displayed order.
   */
  lemma InPlaceSortKeepsNotes(notes: seq<Note>, f: Filters, entries: map<string, Types.Blob>, userId: string)
    requires NoFilter(f) && userId != ""
    ensures multiset(View(notes, f)) == multiset(notes)
    ensures StoredNotes(entries[NotesKey(userId) := NoteList(View(notes, f))], Some(userId)) == Some(View(notes, f))
  {
    FilteredIsVisible(notes, f);
    SortPermutes(notes);
    LoadAfterWrite(entries, userId, View(notes, f));
  }
}
