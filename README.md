# NoteHub in Dafny

A model of the core of NoteHub, a sticky-note application, with proofs about it.

- **Notes hook** (`F/hooks/useNotes.ts`). One user's note collection lives in memory. Each mutation (add, update, delete, toggle pin, change colour) updates the collection at once and shows "saving". A 500 ms debounced write then stores the collection under `notes_<userId>`. The write ends in "saved" or, when storage throws, in "error". Unmounting clears the timer.
- **Session hook** (`F/hooks/useAuth.ts`). The signed-in user is restored from the key `user` 50 ms after mount; a record that does not parse is removed. Login stores a fresh `user_<now>` record, and logout removes it.
- **Sign-in form** (`F/app/auth/page.tsx`). Validates the username, then logs in and goes to the dashboard.
- **Dashboard** (`Frontend/app/dashboard/page.tsx` and its copy `app/dashboard/page.tsx`, which agree on everything modelled). The page renders:
  - the loading screen and the redirect to `/auth`;
  - the filter chain (search, category, pinned only);
  - the stable pinned-first, newest-first sort;
  - the sorted category list;
  - the empty state and the footer figures;
  - the add-note form.
- **Card note type** (`Frontend/lib/types.ts`). The paper and pin style enumerations, `createNote` and the two style tables.
- **Note card** (`Frontend/components/NoteCard.tsx`). The word counter, the style fallbacks and table lookups, the edit buffer and the popup flags.
- **Canvas variant** (`script.js`). The notes list, the selection and the toolbar become the fields of one `CanvasApp` object, with the resize clamp and the plain-text export. The notes the page's elements hold are a field of their own, since the start-up's second parse leaves them apart from the list.

Modules, one per file:

| file | module | what it holds |
|---|---|---|
| `text.dfy` | `Text` | JavaScript string behaviour: `trim` and `\s` white space, ASCII `toLowerCase`, `includes`, decimal rendering, UTF-16 length, code-unit order |
| `collections.dfy` | `Collections` | `Option`, `filter`, `find` |
| `types.dfy` | `Types` | the records of the notes application |
| `storage.dfy` | `Storage` | `localStorage` |
| `notes_repo.dfy` | `NoteRepo` | the notes hook |
| `session.dfy` | `Session` | the session hook |
| `auth_page.dfy` | `AuthPage` | the sign-in form |
| `dashboard_view.dfy` | `DashboardView` | the pure filter, sort, category and footer logic |
| `dashboard_page.dfy` | `DashboardPage` | one render and the add-note form |
| `card_types.dfy` | `CardTypes` | the card note type |
| `note_card.dfy` | `NoteCard` | the card |
| `canvas.dfy` | `Canvas` | the canvas variant |

JavaScript behaviour the model states explicitly:

- **Truthiness.** An empty user id means no user. An empty stored string is skipped. A selected note id of `0` means no selection. An empty toolbar colour falls back to the default.
- **Sort.** `Array.prototype.sort` is stable, and its default comparison orders strings by UTF-16 code units.
- **Lengths.** `length` counts UTF-16 code units.
- **Time.** `Date.now()` is a parameter of each operation. The debounce timer is a pending-write field that a `Tick(now, writeOk)` fires.

Behaviour of the code that the model keeps as written:

- **Unparsable stored collection.** The load keeps the collection it had; it does not start from an empty one.
- **Unknown id.** `updateNote` and `deleteNote` still save and show "saving". Only `togglePin` is a no-op for an id no note has.
- **No user.** `addNote` returns the note, but nothing else happens.
- **Duplicate ids.** Toggling twice gives every note with the id the first such note's original flag.
- **Unfiltered render.** With no filter set, the dashboard sorts the hook's own array in place. The pending write, which captured the same array, then stores the sorted order.

## Model

| member | source | states |
|---|---|---|
| Text.TrimStart | F/app/auth/page.tsx:21 | the result is a suffix of the input; everything removed is white space; it starts with a non-space |
| Text.TrimEnd | F/app/auth/page.tsx:26 | the result is a prefix of the input; everything removed is white space; it ends with a non-space |
| Text.TrimEmptyIffBlank | F/app/auth/page.tsx:21 | `s.trim()` is empty exactly when `s` is white space only |
| Text.LowerChar | Frontend/app/dashboard/page.tsx:64 | an ASCII capital maps to its lower case (code + 32); every other character is unchanged |
| Text.ToLower | Frontend/app/dashboard/page.tsx:64-65 | same length, and each character is lowered on its own |
| Text.DecimalString | F/hooks/useNotes.ts:80 | `${n}` has only digits and no leading zero |
| Text.DecimalRoundTrip | F/hooks/useNotes.ts:80 | reading the rendered number back gives the number |
| Text.DecimalInjective | F/hooks/useNotes.ts:80 | distinct times give distinct `note_<time>` suffixes |
| Text.Units | Frontend/app/dashboard/page.tsx:278 | a character takes one or two code units, and one exactly when it lies below U+10000 |
| Text.Utf16Length | Frontend/app/dashboard/page.tsx:278 | `s.length` lies between the number of characters and twice that, and is the length of the UTF-16 encoding |
| Text.Utf16RoundTrip | Frontend/app/dashboard/page.tsx:278 | decoding the UTF-16 encoding gives the string back |
| Text.Utf16Injective | Frontend/app/dashboard/page.tsx:278 | distinct strings have distinct encodings |
| Text.StringLessIrreflexive | Frontend/app/dashboard/page.tsx:56 | the default sort order never puts a string before itself |
| Text.StringLessTransitive | Frontend/app/dashboard/page.tsx:56 | the default sort order is transitive |
| Text.StringLessTotal | Frontend/app/dashboard/page.tsx:56 | the default sort order puts one of any two distinct strings first |
| Text.Repeat | script.js:591 | `c.repeat(n)` has length `n`, and every character is `c` |
| Types.ParseNotes | F/hooks/useNotes.ts:26-31 | parsing a notes record succeeds exactly when it holds a note list |
| Types.ParseUser | F/hooks/useAuth.ts:14-20 | parsing a session record succeeds exactly when it holds a user |
| Storage.LocalStorage.GetItem | F/hooks/useAuth.ts:13 | present exactly when the key is stored, with the stored value |
| Storage.LocalStorage.SetItem | F/hooks/useAuth.ts:33 | the key now maps to the value; all other keys are unchanged |
| Storage.LocalStorage.RemoveItem | F/hooks/useAuth.ts:38 | the key is gone; all other keys are unchanged |
| NoteRepo.NotesKeyInjective | F/hooks/useNotes.ts:23 | distinct users have distinct storage keys |
| NoteRepo.StoredNotes | F/hooks/useNotes.ts:18-32 | the load adopts a collection exactly when there is a user and a note list is stored under the user's key; it adopts that list |
| NoteRepo.LoadAfterWrite | F/hooks/useNotes.ts:53-56 | a load after a write of a collection adopts that collection |
| NoteRepo.Stamped | F/hooks/useNotes.ts:100 | the updated note has `updatedAt = now` even when the patch sets it, and every other field comes from the patch when given |
| NoteRepo.UpdateById | F/hooks/useNotes.ts:98-102 | same length; notes with the id are stamped; every other note is unchanged |
| NoteRepo.UpdateUnknownId | F/hooks/useNotes.ts:98-102 | updating an id no note has leaves the collection as it was |
| NoteRepo.RemoveById | F/hooks/useNotes.ts:110 | a note is kept exactly when its id differs |
| NoteRepo.RemoveKeepsOrder | F/hooks/useNotes.ts:110 | deletion splits over concatenation, so survivors keep their order |
| NoteRepo.RemoveUnknownId | F/hooks/useNotes.ts:110 | deleting an id no note has leaves the collection as it was |
| NoteRepo.TogglePinTwice | F/hooks/useNotes.ts:115-122 | toggling twice restores the pin flag; other notes are unchanged |
| NoteRepo.NoteRepository.constructor | F/hooks/useNotes.ts:7-14 | first render: no notes, loading, "saved", no timer |
| NoteRepo.NoteRepository.LoadEffect | F/hooks/useNotes.ts:17-35 | loading ends; a stored list that parses replaces the notes, and otherwise the notes stay; nothing else changes |
| NoteRepo.NoteRepository.SetUserId | F/hooks/useNotes.ts:35 | the load runs again only when the user id changed |
| NoteRepo.NoteRepository.SaveNotes | F/hooks/useNotes.ts:38-66 | with a user: new notes, "saving", and the earlier timer replaced by one writing this collection under the user's key 500 ms on. Without a user: nothing changes |
| NoteRepo.NoteRepository.AddNote | F/hooks/useNotes.ts:77-94 | returns the yellow, unpinned `note_<now>` note (category `general` by default) and saves it in front of the others |
| NoteRepo.NoteRepository.UpdateNote | F/hooks/useNotes.ts:96-106 | saves the collection with every note of that id stamped |
| NoteRepo.NoteRepository.DeleteNote | F/hooks/useNotes.ts:108-113 | saves the collection without the id |
| NoteRepo.NoteRepository.TogglePin | F/hooks/useNotes.ts:115-122 | an unknown id changes nothing; otherwise saves with the flag flipped |
| NoteRepo.NoteRepository.ChangeColor | F/hooks/useNotes.ts:124-129 | saves with the notes of that id recoloured and stamped |
| NoteRepo.NoteRepository.Tick | F/hooks/useNotes.ts:51-63 | before the due time nothing changes. At or after it: the captured collection is written and the status is "saved", or, when the write throws, storage is untouched and the status is "error". The in-memory notes are kept either way |
| NoteRepo.NoteRepository.Unmount | F/hooks/useNotes.ts:69-75 | the timer is cleared and nothing is written |
| NoteRepo.UpdateBurst | F/hooks/useNotes.ts:45-63 | edits less than 500 ms apart cause exactly one write, of the final collection, and end in "saved" |
| Session.StoredUser | F/hooks/useAuth.ts:13-21 | restore adopts exactly a stored, parsable user record, and adopts that user |
| Session.RestoreAfterLogout | F/hooks/useAuth.ts:37-40 | after logout there is nothing to restore and nothing to discard |
| Session.RestoreAfterLogin | F/hooks/useAuth.ts:28-35 | after login, restore adopts the user who logged in |
| Session.DiscardIsFinal | F/hooks/useAuth.ts:15-20 | a corrupt record is not adopted, and once it is removed there is nothing more to restore |
| Session.SessionStore.constructor | F/hooks/useAuth.ts:7-8 | no user, loading, and the restore timer scheduled |
| Session.SessionStore.FireRestore | F/hooks/useAuth.ts:12-23 | loading ends. A parsable record becomes the user. A corrupt one is removed and the user is kept |
| Session.SessionStore.Unmount | F/hooks/useAuth.ts:25 | the restore timer is cleared |
| Session.SessionStore.Login | F/hooks/useAuth.ts:28-35 | `user_<now>` is stored and becomes current, replacing any earlier user |
| Session.SessionStore.Logout | F/hooks/useAuth.ts:37-40 | the record is removed, and there is no user |
| AuthPage.UsernameError | F/app/auth/page.tsx:21-29 | "Please enter a username" exactly for blank input; the length error exactly for a trimmed length under 2; accepted exactly at trimmed length 2 or more |
| AuthPage.AuthForm.constructor | F/app/auth/page.tsx:12-13 | empty username and error |
| AuthPage.AuthForm.SetUsername | F/app/auth/page.tsx:56 | only the username changes |
| AuthPage.AuthForm.HandleSubmit | F/app/auth/page.tsx:17-33 | shows the error and does nothing else, or logs in once with the untrimmed name and routes to `/dashboard` |
| DashboardView.SearchStepSpec | Frontend/app/dashboard/page.tsx:61-67 | the search step keeps exactly the notes matching a non-empty term |
| DashboardView.CategoryStepSpec | Frontend/app/dashboard/page.tsx:69-71 | the category step keeps exactly the notes of a non-empty category |
| DashboardView.PinnedStepSpec | Frontend/app/dashboard/page.tsx:73-75 | the pinned step keeps exactly the pinned notes when the box is set |
| DashboardView.FilteredIsVisible | Frontend/app/dashboard/page.tsx:59-75 | the chain keeps, in order, exactly the notes that pass every active filter |
| DashboardView.InsertPermutes | Frontend/app/dashboard/page.tsx:78-83 | an insertion step adds exactly the one note |
| DashboardView.InsertOrdered | Frontend/app/dashboard/page.tsx:78-83 | an insertion step keeps the list ordered |
| DashboardView.InsertStable | Frontend/app/dashboard/page.tsx:78-83 | an insertion step puts the note after its equals |
| DashboardView.SortPermutes | Frontend/app/dashboard/page.tsx:78-83 | the sort is a permutation |
| DashboardView.SortOrders | Frontend/app/dashboard/page.tsx:78-83 | pinned notes come first, then newest first within each group |
| DashboardView.SortStable | Frontend/app/dashboard/page.tsx:78-83 | notes with equal pin flag and `updatedAt` keep their input order |
| DashboardView.ViewSpec | Frontend/app/dashboard/page.tsx:59-83 | shows exactly the visible notes, ordered and stable |
| DashboardView.PinnedBeatsNewer | app/dashboard/page.tsx:76-81 | a pinned note is sorted before an unpinned one, whatever their update times |
| DashboardView.Distinct | Frontend/app/dashboard/page.tsx:56 | `new Set(xs)`: the same values, each once |
| DashboardView.InsertStringSpec | Frontend/app/dashboard/page.tsx:56 | inserting a new string keeps the list strictly ascending and adds that one string |
| DashboardView.SortStringsSpec | Frontend/app/dashboard/page.tsx:56 | sorting distinct strings gives a strictly ascending permutation |
| DashboardView.CategoryOf | Frontend/app/dashboard/page.tsx:56 | `notes.map(n => n.category)` |
| DashboardView.CategoriesSpec | app/dashboard/page.tsx:54 | the category list is strictly ascending, and holds exactly the notes' categories |
| DashboardView.CategoryCount | Frontend/app/dashboard/page.tsx:273 | the categories figure is the number of distinct categories |
| DashboardView.PinnedCount | Frontend/app/dashboard/page.tsx:268 | the length of the pinned filter of the notes; between 0 and the total: 0 exactly when none is pinned, the total exactly when all are |
| DashboardView.PinnedCountSplit | Frontend/app/dashboard/page.tsx:268 | the pinned count adds up over a concatenation |
| DashboardView.CharCountSplit | Frontend/app/dashboard/page.tsx:278 | the character count adds up over a concatenation |
| DashboardView.CharCountBounds | Frontend/app/dashboard/page.tsx:278 | the character count is at least the UTF-16 length of any one note's content |
| DashboardView.FooterStats | Frontend/app/dashboard/page.tsx:259-278 | the footer appears exactly for a non-empty collection; pinned is at most the total, which is the number of notes |
| DashboardView.SortKeepsCounts | Frontend/app/dashboard/page.tsx:259-278 | sorting leaves the pinned and character counts unchanged |
| DashboardView.SortKeepsStats | app/dashboard/page.tsx:245-264 | an in-place sort leaves every footer figure unchanged |
| DashboardView.EmptyStateText | Frontend/app/dashboard/page.tsx:230-240 | the empty state appears exactly when nothing is shown: "No notes yet" exactly for an empty collection, "No matching notes" otherwise |
| DashboardView.EmptyStateOfView | app/dashboard/page.tsx:217-221 | "No notes yet" appears exactly when the collection is empty |
| DashboardPage.Render | Frontend/app/dashboard/page.tsx:35-83 | loading or no user: the loading screen (redirecting once loading ends), with the repository untouched. Otherwise: the view, categories, empty state and footer. An unfiltered render sorts the hook's array, and a pending write that shares it, in place; a filtered render leaves them alone |
| DashboardPage.HandleLogout | Frontend/app/dashboard/page.tsx:104-107 | logs out and routes to `/auth` |
| DashboardPage.AddNoteForm.constructor | Frontend/app/dashboard/page.tsx:25-26 | empty title; category `general` |
| DashboardPage.AddNoteForm.SetTitle | Frontend/app/dashboard/page.tsx:184 | only the title changes |
| DashboardPage.AddNoteForm.SetCategory | Frontend/app/dashboard/page.tsx:195 | only the category changes |
| DashboardPage.AddNoteForm.HandleAddNote | Frontend/app/dashboard/page.tsx:85-91 | adds exactly when the title is not blank, keeping the untrimmed title, and resets the form; a blank title changes nothing |
| DashboardPage.InPlaceSortKeepsNotes | app/dashboard/page.tsx:57-81 | the in-place sort keeps the same notes, and storing them loads back the shown order |
| CardTypes.StyleNamesInjective | Frontend/lib/types.ts:7-21 | distinct styles have distinct stored names |
| CardTypes.CreateNote | Frontend/lib/types.ts:45-57 | a given id or creation time wins over the default; both styles are always set; the optional fields pass through |
| CardTypes.CreateNoteDefaults | Frontend/lib/types.ts:46-54 | `createNote({})` is the default note |
| CardTypes.CreateNoteGivenFieldsWin | Frontend/lib/types.ts:45-57 | every field the partial gives is the note's, and every field it leaves out takes its default |
| CardTypes.CreateNoteOverrides | Frontend/lib/types.ts:55 | building from all of a note's fields gives that note back exactly when it has both styles |
| CardTypes.CreateNoteDefaultsOnlyIdAndTime | Frontend/lib/types.ts:45-57 | two builds from the same partial differ only in id and creation time |
| CardTypes.PaperStyleInfoComplete | Frontend/lib/types.ts:60-91 | every paper style has an entry, and the names are distinct |
| CardTypes.PinStyleInfoComplete | Frontend/lib/types.ts:93-124 | every pin style has an entry, and the names are distinct |
| NoteCard.DropSpace | Frontend/components/NoteCard.tsx:316 | removes exactly the leading white space |
| NoteCard.SplitAux | Frontend/components/NoteCard.tsx:316 | `split` returns at least one piece |
| NoteCard.NonEmptyCount | Frontend/components/NoteCard.tsx:316 | the non-empty pieces number at most the pieces |
| NoteCard.SplitCountsRuns | Frontend/components/NoteCard.tsx:316 | the non-empty pieces of the split are the maximal non-space runs |
| NoteCard.WordCountIsRuns | Frontend/components/NoteCard.tsx:316 | the word count is the number of maximal non-space runs |
| NoteCard.WordCountZero | Frontend/components/NoteCard.tsx:316 | the word count is 0 exactly for white-space-only content |
| NoteCard.RunStartsZero | Frontend/components/NoteCard.tsx:316 | there are no runs exactly when the text is all white space |
| NoteCard.CurrentPaperStyle | Frontend/components/NoteCard.tsx:257 | the note's paper style, or `vintage_yellow` when it has none |
| NoteCard.CurrentPinStyle | Frontend/components/NoteCard.tsx:258 | the note's pin style, or `classic` when it has none |
| NoteCard.PaperLookupTotal | Frontend/components/NoteCard.tsx:260 | the paper lookup always succeeds, with the current style |
| NoteCard.ClipPinFailsToRender | Frontend/components/NoteCard.tsx:261 | the lookup as written fails for `clip` |
| NoteCard.CreatedClipNoteFails | Frontend/components/NoteCard.tsx:261 | a note built with `pinStyle: 'clip'` cannot be rendered |
| NoteCard.PinEntry | Frontend/components/NoteCard.tsx:261 | the corrected lookup always gives a table key, and agrees wherever the original succeeds |
| NoteCard.PinLookupTotal | Frontend/components/NoteCard.tsx:261 | the original succeeds for every style but `clip`; the corrected one shows `classic` for `clip` |
| NoteCard.CardState.constructor | Frontend/components/NoteCard.tsx:248-254 | not editing; no popup open; the buffer holds the note's text |
| NoteCard.CardState.Words | Frontend/components/NoteCard.tsx:316 | the counter counts the words of the buffer |
| NoteCard.CardState.StartEditing | Frontend/components/NoteCard.tsx:560 | editing starts; nothing else changes |
| NoteCard.CardState.EditTitle | Frontend/components/NoteCard.tsx:365 | only the buffered title changes |
| NoteCard.CardState.EditContent | Frontend/components/NoteCard.tsx:396 | only the buffered content changes |
| NoteCard.CardState.HandleSave | Frontend/components/NoteCard.tsx:265-272 | sends exactly the buffered title and content; editing ends |
| NoteCard.CardState.HandleCancel | Frontend/components/NoteCard.tsx:274-278 | the buffer goes back to the note's text; editing ends |
| NoteCard.CardState.ToggleColorPicker | Frontend/components/NoteCard.tsx:439-443 | the paper picker flips; the pin picker and the menu close |
| NoteCard.CardState.TogglePinPicker | Frontend/components/NoteCard.tsx:484-488 | the pin picker flips; the paper picker and the menu close |
| NoteCard.CardState.ToggleMoreMenu | Frontend/components/NoteCard.tsx:570 | only the menu flips, and open pickers stay open |
| NoteCard.CardState.ToggleExpanded | Frontend/components/NoteCard.tsx:523 | only the expanded flag flips |
| NoteCard.CardState.PickPaperStyle | Frontend/components/NoteCard.tsx:457-460 | sends only the paper style; the picker closes |
| NoteCard.CardState.PickPinStyle | Frontend/components/NoteCard.tsx:502-505 | sends only the pin style; the picker closes |
| NoteCard.CardState.HandleDelete | Frontend/components/NoteCard.tsx:602-604 | deletes the note's id exactly when confirmed |
| Canvas.ApplyToolbar | script.js:183-189 | copies the seven toolbar fields; id, content, position, size and creation time stay |
| Canvas.ToolbarRoundTrip | script.js:163 | reading back an applied toolbar gives that toolbar, and applying a note's own toolbar changes nothing |
| Canvas.NewNoteColor | script.js:109 | never empty; the toolbar colour when one is set |
| Canvas.FindNote | script.js:148 | the first note with the id, or none when no note has it |
| Canvas.FindNoteAppend | script.js:121-123 | appending keeps earlier matches and finds the new note |
| Canvas.Clamp | script.js:403-404 | at least 250, and otherwise the start plus the delta |
| Canvas.ClampIdempotent | script.js:511-512 | a clamped size stays put under a zero move, and a size of at least 250 is not clamped |
| Canvas.ExportBlocksPrefix | script.js:593-599 | the blocks of a prefix are a prefix of the blocks |
| Canvas.ExportBlocksStep | script.js:593-599 | one more note appends exactly its block |
| Canvas.ExportTextStep | script.js:590-599 | the export grows by one block per note |
| Canvas.AppendBlock | script.js:594-598 | the five appended lines make up the block |
| Canvas.BlockAt | script.js:593-599 | note `k`'s block sits right after the blocks before it |
| Canvas.ExportHoldsEveryNote | script.js:590-599 | the export starts with the header and holds every note's numbered block, in order |
| Canvas.CanvasApp.constructor | script.js:2-19 | no notes, no selection, the initial toolbar |
| Canvas.CanvasApp.Save | script.js:649-651 | stores the current list |
| Canvas.CanvasApp.Render | script.js:219-227 | the elements are rebuilt from the list and hold its own notes |
| Canvas.CanvasApp.SelectNote | script.js:146-164 | selects the id; the toolbar takes the note's fields |
| Canvas.CanvasApp.AddNewNote | script.js:105-124 | appends a 300 by 300 note with id `now`, coloured from the toolbar; renders the list, selects the note and saves |
| Canvas.CanvasApp.InitializeAsWritten | script.js:22-24 | `initializeApp` then `loadFromLocalStorage`: the saved list or one new, saved note, after which the list holds fresh notes the elements do not share |
| Canvas.CanvasApp.Initialize | script.js:30-40 | the saved list is loaded once and rendered, or one note is created and saved; the elements share the list's notes |
| Canvas.CanvasApp.DeleteNote | script.js:136-143 | removes the id; clears the selection only if it was that id; renders the list and saves |
| Canvas.CanvasApp.UpdateSelectedNote | script.js:178-194 | applies the toolbar to the selected note and saves; without a selection nothing changes; elements that share the list see the change |
| Canvas.CanvasApp.SetFontFamily | script.js:55-58 | sets the toolbar field and applies it |
| Canvas.CanvasApp.SetFontSize | script.js:60-63 | sets the toolbar field and applies it |
| Canvas.CanvasApp.SetLineHeight | script.js:65-68 | sets the toolbar field and applies it |
| Canvas.CanvasApp.ToggleBold | script.js:70-74 | flips bold and applies it |
| Canvas.CanvasApp.ToggleItalic | script.js:76-80 | flips italic and applies it |
| Canvas.CanvasApp.ToggleUnderline | script.js:82-86 | flips underline and applies it |
| Canvas.CanvasApp.ChangeColor | script.js:88-98 | sets the toolbar colour; only the selected note's colour follows |
| Canvas.CanvasApp.EditContent | script.js:289-292 | changes the content of the element's note, which is the list's note only while the elements share the list; saves the list |
| Canvas.CanvasApp.Resize | script.js:394-411 | sets the clamped size of the element's note, at least 250 each way; the list follows only while the elements share it |
| Canvas.CanvasApp.EndResize | script.js:414-428 | saves the list; nothing else changes |
| Canvas.CanvasApp.HandleKeydown | script.js:538-561 | Ctrl/Meta with b, i or u flips that style on the selected note; otherwise nothing changes |
| Canvas.CanvasApp.ExportTxt | script.js:579-599 | no file for an empty list or for PDF; otherwise the export text |
| Canvas.ExportTitle | script.js:590-591 | the opening lines are the export of no notes |
| Canvas.AppendNote | script.js:593-599 | each callback appends exactly the note's block |
| Canvas.EditAfterStartupIsLost | script.js:653-658 | after the start as written, typed content is shown but not stored |
| Canvas.EditAfterStartupIsSaved | script.js:289-292 | after the corrected start, typed content is shown and stored |

## Left out

- Types.ParseNotes, Types.ParseUser, Canvas.CanvasApp.Initialize, Canvas.CanvasApp.InitializeAsWritten: JSON text is not modelled. A stored value is a note list, a user record, or other text, and anything but the record the reader expects counts as a failed parse. The code adopts any valid JSON: a user record, `{}` or `null` under a notes key, and `null` under the session key (which sets no user). Text that is not JSON makes the canvas's `JSON.parse` throw and stop the start-up; the model has no such path.
- `toLowerCase` on non-ASCII letters is not modelled; only A–Z are lowered.
- `localStorage.setItem` throwing in `login` and in `saveToLocalStorage` is not modelled. Only the debounced write's failure is.
- A `Partial<Note>` field given explicitly as `undefined` is not modelled; a field is either absent or has a value.
- `addNote`'s three `Date.now()` calls are modelled as one time.
- The following are outside the core: drag and its touch handlers, the theme, PDF export, clipboard copy, share, `downloadNote`, toasts and animations.
- React batching and stale callback closures: each call sees the latest state.
- The emoji column and the styling of the style tables are not modelled.
- The card's `onTogglePin` forwarding is not modelled; the hook's `TogglePin` models it.
- Resize coordinates are integers; fractional pixels are not modelled.
- `Date.prototype.toLocaleString` is a parameter of `AddNewNote`.
- CardTypes.CardNote: `createdAt` and `updatedAt` are `Date` objects in the card note type; the model holds their millisecond values as integers, so date methods and time zones are not modelled.
- The number formatting of `toLocaleString` in the footer is not modelled.
- `Math.random` is a parameter of `AddNewNote`.
- The file download, the `alert` and the PDF branch are not modelled. `ExportTxt` takes the `confirm` answer as a parameter.
- NoteCard.CardState.ToggleMoreMenu: opening the menu does not close an open picker, so the card can show two popups at once. Only the two pickers exclude each other, and that is all `Valid` states.
- Canvas.CanvasApp.SelectNote: requires a note with the id, since its callers are `addNewNote` and a note's own focus handler. The source also accepts an unknown id, which would select nothing.
- NoteCard.CardState.PickPaperStyle and NoteCard.CardState.PickPinStyle take only keys of the picker's option list, because the buttons offer nothing else.
- The card's extra table keys `midnight_blue`, `emerald_green` and `crystal` can be picked in the card but are not in the note type's enumerations.

## Findings

| source | as written | input that shows it | evidently intended | confidence | as-written member | corrected member |
|---|---|---|---|---|---|---|
| script.js:653-658 | after `initializeApp` renders the notes (script.js:22-24), `loadFromLocalStorage` parses the stored list again into fresh objects and does not render; the textareas and resize handles still hold the first objects, so typing changes notes that are no longer in `notes` and `saveToLocalStorage` stores the old content | a saved list `[n]`, then typing `v` (not `n.content`) into the note: the page shows `v`, storage keeps `n.content`. With no saved list the one new note is detached the same way | the list is parsed once and the elements share its notes, so edits and resizes are stored | not executed | Canvas.EditAfterStartupIsLost | Canvas.EditAfterStartupIsSaved |
| Frontend/components/NoteCard.tsx:261 | `pinStyles[currentPinStyle].component` reads a table that has no `clip` entry, although `clip` is a pin style of the note type (Frontend/lib/types.ts:20) | a note with `pinStyle: 'clip'`, e.g. from `createNote({ pinStyle: 'clip' })`: the lookup is `undefined`, and reading `.component` throws during render | every pin style of the note type renders; a missing entry falls back to the classic pin | not executed | NoteCard.ClipPinFailsToRender | NoteCard.PinLookupTotal |
