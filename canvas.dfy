/**
 * The canvas variant of the application (script.js): a page-wide list of
 * sticky notes with one selected note, a formatting toolbar whose fields
 * are copied onto the selected note, a resize clamp and a plain-text export.
 * The module-level variables `notes`, `selectedNoteId` and `toolbarState`,
 * and the storage key `stickyNotes`, are the fields of one object.
 */
module Canvas {
  import opened Collections
  import opened Text

  /** Position in percent of the board, drawn at random for a new note. */
  datatype Position = Position(x: real, y: real)

  /** Size in pixels. */
  datatype Size = Size(width: int, height: int)

  datatype CanvasNote = CanvasNote(
    id: int,
    content: string,
    color: string,
    position: Position,
    size: Size,
    fontFamily: string,
    fontSize: string,
    lineHeight: string,
    bold: bool,
    italic: bool,
    underline: bool,
    createdAt: string)

  /** The seven toolbar fields that are copied onto the selected note. */
  datatype Toolbar = Toolbar(
    fontFamily: string,
    fontSize: string,
    lineHeight: string,
    bold: bool,
    italic: bool,
    underline: bool,
    color: string)

  const DefaultColor := "#FFF9C4"
  const InitialToolbar := Toolbar("sans-serif", "14", "1.5", false, false, false, DefaultColor)
  const NewNoteSize := 300
  const MinSize := 250
  const RuleWidth := 50

  /** `toolbarState = { ...note }`, as far as the toolbar fields go. */
  function ToolbarOf(n: CanvasNote): Toolbar {
    Toolbar(n.fontFamily, n.fontSize, n.lineHeight, n.bold, n.italic, n.underline, n.color)
  }

  /** The seven field assignments of `updateSelectedNote`. */
  function ApplyToolbar(n: CanvasNote, t: Toolbar): (m: CanvasNote)
    ensures m.id == n.id && m.content == n.content && m.position == n.position
    ensures m.size == n.size && m.createdAt == n.createdAt
  {
    n.(fontFamily := t.fontFamily, fontSize := t.fontSize, lineHeight := t.lineHeight,
       bold := t.bold, italic := t.italic, underline := t.underline, color := t.color)
  }

  /** Copying the toolbar onto a note and reading it back gives the toolbar; copying a note's own toolbar changes nothing. */
  lemma ToolbarRoundTrip(n: CanvasNote, t: Toolbar)
    ensures ToolbarOf(ApplyToolbar(n, t)) == t
    ensures ApplyToolbar(n, ToolbarOf(n)) == n
  {
  }

  /** `toolbarState.color || '#FFF9C4'` */
  function NewNoteColor(t: Toolbar): (c: string)
    ensures c != ""
    ensures t.color != "" ==> c == t.color
  {
    if t.color != "" then t.color else DefaultColor
  }

  /** The note `addNewNote` builds: empty, 300 by 300, default text style, coloured from the toolbar. */
  function NewNote(id: int, color: string, pos: Position, createdAt: string): CanvasNote {
    CanvasNote(id, "", color, pos, Size(NewNoteSize, NewNoteSize), "sans-serif", "14", "1.5",
               false, false, false, createdAt)
  }

  /** `notes.find(n => n.id === id)`, as a position. */
  function FindNote(notes: seq<CanvasNote>, id: int): (r: Option<nat>)
    ensures r.Some? ==> r.value < |notes| && notes[r.value].id == id
                        && forall j :: 0 <= j < r.value ==> notes[j].id != id
    ensures r.None? ==> forall j :: 0 <= j < |notes| ==> notes[j].id != id
  {
    FirstIndex(notes, (n: CanvasNote) => n.id == id)
  }

  /** Appending a note keeps every earlier first match, and finds the new note's id. */
  lemma FindNoteAppend(notes: seq<CanvasNote>, x: CanvasNote, id: int)
    ensures FindNote(notes, id).Some? ==> FindNote(notes + [x], id) == FindNote(notes, id)
    ensures FindNote(notes + [x], x.id).Some?
  {
    assert (notes + [x])[|notes|] == x;
    if FindNote(notes, id).Some? {
      var i := FindNote(notes, id).value;
      assert (notes + [x])[i] == notes[i];
    }
  }

  /** `selectedNoteId` is truthy: set, and not the number 0. */
  predicate HasSelection(sel: Option<int>) {
    sel.Some? && sel.value != 0
  }

  /** The note a toolbar change applies to: the first with the selected id, if there is a selection. */
  function SelectedIndex(notes: seq<CanvasNote>, sel: Option<int>): Option<nat> {
    if HasSelection(sel) then FindNote(notes, sel.value) else None
  }

  /** `Math.max(250, start + delta)` */
  function Clamp(start: int, delta: int): (r: int)
    ensures r >= MinSize
    ensures r == start + delta || (r == MinSize && start + delta < MinSize)
  {
    if start + delta > MinSize then start + delta else MinSize
  }

  /** A clamped size is left alone by a resize that moves nothing, and a size of at least 250 is never clamped. */
  lemma ClampIdempotent(start: int, delta: int)
    ensures Clamp(Clamp(start, delta), 0) == Clamp(start, delta)
    ensures start + delta >= MinSize ==> Clamp(start, delta) == start + delta
  {
  }

  // ---------------------------------------------------------------------
  // Export.

  /** The export's header: a title, a rule of 50 `=` and a blank line. */
  function ExportHeader(): string {
    "Sticky Notes Export\n" + Repeat('=', RuleWidth) + "\n\n"
  }

  /** The block of the note numbered `number` (from 1). */
  function ExportBlock(number: nat, n: CanvasNote): string {
    "Note " + DecimalString(number) + "\n"
    + "Created: " + n.createdAt + "\n"
    + Repeat('-', RuleWidth) + "\n"
    + n.content + "\n"
    + "\n\n"
  }

  /** The blocks of `notes`, numbered from 1 in order. */
  function ExportBlocks(notes: seq<CanvasNote>): string
    decreases |notes|
  {
    if notes == [] then ""
    else ExportBlocks(notes[..|notes| - 1]) + ExportBlock(|notes|, notes[|notes| - 1])
  }

  function ExportText(notes: seq<CanvasNote>): string {
    ExportHeader() + ExportBlocks(notes)
  }

  /** The blocks of a prefix of the list are a prefix of the export's blocks. */
  lemma {:induction false} ExportBlocksPrefix(notes: seq<CanvasNote>, j: nat)
    requires j <= |notes|
    ensures |ExportBlocks(notes[..j])| <= |ExportBlocks(notes)|
    ensures ExportBlocks(notes[..j]) == ExportBlocks(notes)[..|ExportBlocks(notes[..j])|]
    decreases |notes| - j
  {
    if j < |notes| {
      ExportBlocksPrefix(notes, j + 1);
      assert notes[..j + 1][..j] == notes[..j];
    } else {
      assert notes[..j] == notes;
    }
  }

  /** The blocks of the first `k + 1` notes are those of the first `k` followed by the block of note `k + 1`. */
  lemma ExportBlocksStep(notes: seq<CanvasNote>, k: nat)
    requires k < |notes|
    ensures ExportBlocks(notes[..k + 1]) == ExportBlocks(notes[..k]) + ExportBlock(k + 1, notes[k])
  {
    assert notes[..k + 1][..k] == notes[..k];
  }

  /** The export of the first `k + 1` notes is that of the first `k` followed by the block of note `k + 1`. */
  lemma ExportTextStep(notes: seq<CanvasNote>, k: nat)
    requires k < |notes|
    ensures ExportText(notes[..k + 1]) == ExportText(notes[..k]) + ExportBlock(k + 1, notes[k])
  {
    ExportBlocksStep(notes, k);
  }

  /** Appending the five lines of a block one after the other appends the block. */
  lemma AppendBlock(start: string, number: nat, n: CanvasNote)
    ensures start + "Note " + DecimalString(number) + "\n"
            + "Created: " + n.createdAt + "\n"
            + Repeat('-', RuleWidth) + "\n"
            + n.content + "\n"
            + "\n\n"
            == start + ExportBlock(number, n)
  {
  }

  lemma BlockAt(notes: seq<CanvasNote>, k: nat)
    requires k < |notes|
    ensures |ExportBlocks(notes[..k])| + |ExportBlock(k + 1, notes[k])| <= |ExportBlocks(notes)|
    ensures ExportBlocks(notes)[|ExportBlocks(notes[..k])|..|ExportBlocks(notes[..k])| + |ExportBlock(k + 1, notes[k])|]
            == ExportBlock(k + 1, notes[k])
  {
    ExportBlocksPrefix(notes, k + 1);
    ExportBlocksStep(notes, k);
    var before, block := ExportBlocks(notes[..k]), ExportBlock(k + 1, notes[k]);
    var all := ExportBlocks(notes);
    assert all[..|before| + |block|] == before + block;
    assert all[|before|..|before| + |block|] == (before + block)[|before|..];
  }

  /**
   * The export starts with the header and holds, for every note in list
   * order, the block numbered with its position, right after the blocks of
   * the notes before it.
   */
  lemma ExportHoldsEveryNote(notes: seq<CanvasNote>, k: nat)
    requires k < |notes|
    ensures ExportText(notes)[..|ExportHeader()|] == ExportHeader()
    ensures var at := |ExportHeader()| + |ExportBlocks(notes[..k])|;
            at + |ExportBlock(k + 1, notes[k])| <= |ExportText(notes)|
            && ExportText(notes)[at..at + |ExportBlock(k + 1, notes[k])|] == ExportBlock(k + 1, notes[k])
  {
    BlockAt(notes, k);
    var lo, hi := |ExportBlocks(notes[..k])|, |ExportBlocks(notes[..k])| + |ExportBlock(k + 1, notes[k])|;
    SliceAfterPrefix(ExportHeader(), ExportBlocks(notes), lo, hi);
  }

  /** Slicing behind a prefix slices the rest. */
  lemma SliceAfterPrefix(h: string, rest: string, lo: nat, hi: nat)
    requires lo <= hi <= |rest|
    ensures (h + rest)[..|h|] == h
    ensures (h + rest)[|h| + lo..|h| + hi] == rest[lo..hi]
  {
  }

  // ---------------------------------------------------------------------
  // The application state.

  class CanvasApp {
    var notes: seq<CanvasNote>
    var selectedNoteId: Option<int>
    var toolbar: Toolbar
    /** The value under the storage key `stickyNotes`, `None` when there is none. */
    var saved: Option<seq<CanvasNote>>
    /**
     * The notes the page's elements hold, in element order: the objects
     * their textarea and resize handlers change.
     */
    var rendered: seq<CanvasNote>
    /** The elements hold the very objects of `notes`, so a change through either is a change of both. */
    var live: bool

    /** A selection names a note on the board. */
    ghost predicate SelectionValid()
      reads this
    {
      selectedNoteId.Some? ==> FindNote(notes, selectedNoteId.value).Some?
    }

    /** The selection is valid, and elements built from the list share its notes. */
    ghost predicate Valid()
      reads this
    {
      SelectionValid() && (live ==> rendered == notes)
    }

    /** The toolbar was applied to the selected note, if any, and the list saved; with none, nothing changed. */
    twostate predicate AppliedToolbar()
      reads this
    {
      selectedNoteId == old(selectedNoteId)
      && live == old(live) && (!old(live) ==> rendered == old(rendered))
      && match SelectedIndex(old(notes), selectedNoteId)
         case None => notes == old(notes) && saved == old(saved)
         case Some(i) => notes == old(notes)[i := ApplyToolbar(old(notes)[i], toolbar)] && saved == Some(notes)
    }

    /** The script's load: no notes, nothing selected, the initial toolbar, and `stored` under the key. */
    constructor (stored: Option<seq<CanvasNote>>)
      ensures Valid()
      ensures notes == [] && selectedNoteId == None && toolbar == InitialToolbar && saved == stored
      ensures rendered == [] && live
    {
      notes := [];
      selectedNoteId := None;
      toolbar := InitialToolbar;
      saved := stored;
      rendered := [];
      live := true;
    }

    /** `saveToLocalStorage` */
    method Save()
      requires Valid()
      modifies this
      ensures Valid()
      ensures saved == Some(notes)
      ensures notes == old(notes) && selectedNoteId == old(selectedNoteId) && toolbar == old(toolbar)
      ensures rendered == old(rendered) && live == old(live)
    {
      saved := Some(notes);
    }

    /** `renderNotes`: the elements are rebuilt from the list and hold its own notes. */
    method Render()
      requires SelectionValid()
      modifies this
      ensures Valid()
      ensures rendered == notes && live
      ensures notes == old(notes) && selectedNoteId == old(selectedNoteId) && toolbar == old(toolbar)
      ensures saved == old(saved)
    {
      rendered := notes;
      live := true;
    }

    /**
     * `selectNote(id)`: the id becomes the selection, and the toolbar takes
     * the fields of the first note with that id. The caller is a note on the
     * board, so some note has the id.
     */
    method SelectNote(id: int)
      requires Valid() && FindNote(notes, id).Some?
      modifies this
      ensures Valid()
      ensures selectedNoteId == Some(id)
      ensures toolbar == ToolbarOf(notes[FindNote(notes, id).value])
      ensures notes == old(notes) && saved == old(saved)
      ensures rendered == old(rendered) && live == old(live)
    {
      selectedNoteId := Some(id);
      var i := FindNote(notes, id);
      toolbar := ToolbarOf(notes[i.value]);
    }

    /**
     * `addNewNote`: a new note with id `now` goes to the end of the list,
     * coloured from the toolbar, the list is rendered again, the note is
     * selected (so the toolbar takes its fields) and the list is saved.
     */
    method AddNewNote(now: int, pos: Position, createdAt: string)
      requires Valid()
      modifies this
      ensures Valid()
      ensures notes == old(notes) + [NewNote(now, NewNoteColor(old(toolbar)), pos, createdAt)]
      ensures selectedNoteId == Some(now)
      ensures toolbar == ToolbarOf(notes[FindNote(notes, now).value])
      ensures FindNote(old(notes), now).None? ==> toolbar == ToolbarOf(notes[|notes| - 1])
      ensures saved == Some(notes)
      ensures rendered == notes && live
    {
      var n := NewNote(now, NewNoteColor(toolbar), pos, createdAt);
      if selectedNoteId.Some? {
        FindNoteAppend(notes, n, selectedNoteId.value);
      }
      FindNoteAppend(notes, n, now);
      notes := notes + [n];
      Render();
      SelectNote(now);
      Save();
    }

    /**
     * The page's start as written: `initializeApp` renders the saved list
     * when there is one, and otherwise adds (and so renders and saves) one
     * new note; then `loadFromLocalStorage` parses the stored list a second
     * time. The list now holds fresh notes of the same value, while the
     * elements still hold those of the first render.
     */
    method InitializeAsWritten(now: int, pos: Position, createdAt: string)
      requires Valid() && notes == [] && selectedNoteId == None
      modifies this
      ensures Valid()
      ensures old(saved).Some? ==> notes == old(saved).value && selectedNoteId == None && toolbar == old(toolbar)
      ensures old(saved).None? ==>
                notes == [NewNote(now, NewNoteColor(old(toolbar)), pos, createdAt)]
                && selectedNoteId == Some(now) && toolbar == ToolbarOf(notes[0])
      ensures saved.Some? && notes == saved.value
      ensures rendered == notes && !live
    {
      if saved.Some? {
        notes := saved.value;
        Render();
      } else {
        AddNewNote(now, pos, createdAt);
      }
      notes := saved.value;
      live := false;
    }

    /**
     * The start the page evidently intends: the stored list is parsed once
     * and rendered, or one new note is added, so the elements hold the
     * list's own notes.
     */
    method Initialize(now: int, pos: Position, createdAt: string)
      requires Valid() && notes == [] && selectedNoteId == None
      modifies this
      ensures Valid()
      ensures old(saved).Some? ==> notes == old(saved).value && selectedNoteId == None && toolbar == old(toolbar)
      ensures old(saved).None? ==>
                notes == [NewNote(now, NewNoteColor(old(toolbar)), pos, createdAt)]
                && selectedNoteId == Some(now) && toolbar == ToolbarOf(notes[0])
      ensures saved.Some? && notes == saved.value
      ensures rendered == notes && live
    {
      if saved.Some? {
        notes := saved.value;
        Render();
      } else {
        AddNewNote(now, pos, createdAt);
      }
    }

    /**
     * `deleteNote(id)`: every note with the id goes, the selection is cleared
     * only if it was the id, the list is rendered again and saved.
     */
    method DeleteNote(id: int)
      requires Valid()
      modifies this
      ensures Valid()
      ensures notes == Filter(old(notes), (n: CanvasNote) => n.id != id)
      ensures selectedNoteId == (if old(selectedNoteId) == Some(id) then None else old(selectedNoteId))
      ensures toolbar == old(toolbar) && saved == Some(notes)
      ensures rendered == notes && live
    {
      var before := notes;
      notes := Filter(notes, (n: CanvasNote) => n.id != id);
      if selectedNoteId == Some(id) {
        selectedNoteId := None;
      } else if selectedNoteId.Some? {
        var i := FindNote(before, selectedNoteId.value).value;
        assert before[i].id != id;
        assert before[i] in notes;
        var j :| 0 <= j < |notes| && notes[j] == before[i];
        assert notes[j].id == selectedNoteId.value;
      }
      Render();
      Save();
    }

    /** `updateSelectedNote`: the toolbar's seven fields go onto the selected note, which is saved; without a selection nothing happens. */
    method UpdateSelectedNote()
      requires Valid()
      modifies this
      ensures Valid() && AppliedToolbar() && toolbar == old(toolbar)
    {
      var i := SelectedIndex(notes, selectedNoteId);
      if i.None? {
        return;
      }
      var before := notes;
      notes := notes[i.value := ApplyToolbar(notes[i.value], toolbar)];
      if live {
        rendered := notes;
      }
      assert forall j :: 0 <= j < |notes| ==> notes[j].id == before[j].id;
      assert FindNote(notes, selectedNoteId.value) == FindNote(before, selectedNoteId.value);
      Save();
    }

    method SetFontFamily(value: string)
      requires Valid()
      modifies this
      ensures Valid() && toolbar == old(toolbar).(fontFamily := value) && AppliedToolbar()
    {
      toolbar := toolbar.(fontFamily := value);
      UpdateSelectedNote();
    }

    method SetFontSize(value: string)
      requires Valid()
      modifies this
      ensures Valid() && toolbar == old(toolbar).(fontSize := value) && AppliedToolbar()
    {
      toolbar := toolbar.(fontSize := value);
      UpdateSelectedNote();
    }

    method SetLineHeight(value: string)
      requires Valid()
      modifies this
      ensures Valid() && toolbar == old(toolbar).(lineHeight := value) && AppliedToolbar()
    {
      toolbar := toolbar.(lineHeight := value);
      UpdateSelectedNote();
    }

    method ToggleBold()
      requires Valid()
      modifies this
      ensures Valid() && toolbar == old(toolbar).(bold := !old(toolbar).bold) && AppliedToolbar()
    {
      toolbar := toolbar.(bold := !toolbar.bold);
      UpdateSelectedNote();
    }

    method ToggleItalic()
      requires Valid()
      modifies this
      ensures Valid() && toolbar == old(toolbar).(italic := !old(toolbar).italic) && AppliedToolbar()
    {
      toolbar := toolbar.(italic := !toolbar.italic);
      UpdateSelectedNote();
    }

    method ToggleUnderline()
      requires Valid()
      modifies this
      ensures Valid() && toolbar == old(toolbar).(underline := !old(toolbar).underline) && AppliedToolbar()
    {
      toolbar := toolbar.(underline := !toolbar.underline);
      UpdateSelectedNote();
    }

    /** The colour picker: the toolbar colour changes, and only the selected note's colour follows. */
    method ChangeColor(value: string)
      requires Valid()
      modifies this
      ensures Valid()
      ensures toolbar == old(toolbar).(color := value) && selectedNoteId == old(selectedNoteId)
      ensures match SelectedIndex(old(notes), selectedNoteId)
              case None => notes == old(notes) && saved == old(saved)
              case Some(i) => notes == old(notes)[i := old(notes)[i].(color := value)] && saved == Some(notes)
      ensures live == old(live) && (!old(live) ==> rendered == old(rendered))
    {
      toolbar := toolbar.(color := value);
      var i := SelectedIndex(notes, selectedNoteId);
      if i.None? {
        return;
      }
      var before := notes;
      notes := notes[i.value := notes[i.value].(color := value)];
      if live {
        rendered := notes;
      }
      assert forall j :: 0 <= j < |notes| ==> notes[j].id == before[j].id;
      assert FindNote(notes, selectedNoteId.value) == FindNote(before, selectedNoteId.value);
      Save();
    }

    /**
     * Typing in the textarea of element `k`: the element's note gets the
     * new content, and the list is saved. The list sees the change only
     * when the element holds the list's own note.
     */
    method EditContent(k: nat, value: string)
      requires Valid() && k < |rendered|
      modifies this
      ensures Valid()
      ensures rendered == old(rendered)[k := old(rendered)[k].(content := value)] && live == old(live)
      ensures old(live) ==> notes == old(notes)[k := old(notes)[k].(content := value)]
      ensures !old(live) ==> notes == old(notes)
      ensures selectedNoteId == old(selectedNoteId) && toolbar == old(toolbar) && saved == Some(notes)
    {
      var before := notes;
      rendered := rendered[k := rendered[k].(content := value)];
      if live {
        notes := rendered;
        assert forall j :: 0 <= j < |notes| ==> notes[j].id == before[j].id;
        if selectedNoteId.Some? {
          assert FindNote(notes, selectedNoteId.value) == FindNote(before, selectedNoteId.value);
        }
      }
      Save();
    }

    /**
     * One move of a resize of element `k`, from a size of `startWidth` by
     * `startHeight` and a pointer moved by (`dx`, `dy`): each side of the
     * element's note is clamped to at least 250. The list sees the change
     * only when the element holds the list's own note; saving waits for the
     * end of the resize.
     */
    method Resize(k: nat, startWidth: int, startHeight: int, dx: int, dy: int)
      requires Valid() && k < |rendered|
      modifies this
      ensures Valid()
      ensures rendered == old(rendered)[k := old(rendered)[k].(size := Size(Clamp(startWidth, dx), Clamp(startHeight, dy)))]
      ensures rendered[k].size.width >= MinSize && rendered[k].size.height >= MinSize
      ensures live == old(live) && (old(live) ==> notes == rendered) && (!old(live) ==> notes == old(notes))
      ensures selectedNoteId == old(selectedNoteId) && toolbar == old(toolbar) && saved == old(saved)
    {
      var before := notes;
      var newWidth := Clamp(startWidth, dx);
      var newHeight := Clamp(startHeight, dy);
      rendered := rendered[k := rendered[k].(size := Size(newWidth, newHeight))];
      if live {
        notes := rendered;
        assert forall j :: 0 <= j < |notes| ==> notes[j].id == before[j].id;
        if selectedNoteId.Some? {
          assert FindNote(notes, selectedNoteId.value) == FindNote(before, selectedNoteId.value);
        }
      }
    }

    /** `handleResizeEnd`: the list is saved. */
    method EndResize()
      requires Valid()
      modifies this
      ensures Valid() && saved == Some(notes)
      ensures notes == old(notes) && rendered == old(rendered) && live == old(live)
      ensures selectedNoteId == old(selectedNoteId) && toolbar == old(toolbar)
    {
      Save();
    }

    /**
     * `handleGlobalKeydown`: with a selection, Ctrl or Meta with `b`, `i` or
     * `u` flips that one format and applies the toolbar; any other key, or
     * no selection, changes nothing.
     */
    method HandleKeydown(ctrlOrMeta: bool, key: string)
      requires Valid()
      modifies this
      ensures Valid()
      ensures !HasSelection(old(selectedNoteId)) || !ctrlOrMeta || key !in {"b", "i", "u"} ==>
                notes == old(notes) && selectedNoteId == old(selectedNoteId)
                && toolbar == old(toolbar) && saved == old(saved)
                && rendered == old(rendered) && live == old(live)
      ensures HasSelection(old(selectedNoteId)) && ctrlOrMeta && key == "b" ==>
                toolbar == old(toolbar).(bold := !old(toolbar).bold) && AppliedToolbar()
      ensures HasSelection(old(selectedNoteId)) && ctrlOrMeta && key == "i" ==>
                toolbar == old(toolbar).(italic := !old(toolbar).italic) && AppliedToolbar()
      ensures HasSelection(old(selectedNoteId)) && ctrlOrMeta && key == "u" ==>
                toolbar == old(toolbar).(underline := !old(toolbar).underline) && AppliedToolbar()
    {
      if !HasSelection(selectedNoteId) {
        return;
      }
      if ctrlOrMeta && key == "b" {
        ToggleBold();
      }
      if ctrlOrMeta && key == "i" {
        ToggleItalic();
      }
      if ctrlOrMeta && key == "u" {
        ToggleUnderline();
      }
    }

    /**
     * `downloadAllNotes`: nothing for an empty list; with TXT chosen, the
     * export text, built note by note; the PDF choice gives no text here.
     */
    method ExportTxt(asTxt: bool) returns (file: Option<string>)
      ensures notes == [] || !asTxt ==> file == None
      ensures notes != [] && asTxt ==> file == Some(ExportText(notes))
    {
      if |notes| == 0 || !asTxt {
        return None;
      }
      var ns := notes;
      var content := ExportTitle();
      var i := 0;
      while i < |ns|
        invariant 0 <= i <= |ns|
        invariant content == ExportText(ns[..i])
      {
        content := AppendNote(content, i, ns[i]);
        ExportTextStep(ns, i);
        i := i + 1;
      }
      assert ns[..i] == ns;
      file := Some(content);
    }
  }

  /** The export's opening lines, appended one after the other. */
  method ExportTitle() returns (content: string)
    ensures content == ExportText([])
  {
    content := "Sticky Notes Export\n";
    content := content + Repeat('=', RuleWidth) + "\n\n";
  }

  /** The `forEach` callback of the export: the lines of note `index + 1`, appended one after the other. */
  method AppendNote(content: string, index: nat, note: CanvasNote) returns (r: string)
    ensures r == content + ExportBlock(index + 1, note)
  {
    r := content + "Note " + DecimalString(index + 1) + "\n";
    r := r + "Created: " + note.createdAt + "\n";
    r := r + Repeat('-', RuleWidth) + "\n";
    r := r + note.content + "\n";
    r := r + "\n\n";
    AppendBlock(content, index + 1, note);
  }

  /** Ctrl+B flips bold on the selected note once, and a second Ctrl+B restores it. */
  method BoldTwice(app: CanvasApp)
    requires app.Valid() && HasSelection(app.selectedNoteId)
    modifies app
  {
    var i := SelectedIndex(app.notes, app.selectedNoteId).value;
    var bold := app.toolbar.bold;
    app.HandleKeydown(true, "b");
    assert app.notes[i].bold == !bold;
    app.HandleKeydown(true, "b");
    assert app.notes[i].bold == bold && app.toolbar.bold == bold;
  }

  /** Deleting the selected note clears the selection, and a later shortcut changes nothing. */
  method DeleteSelectedThenShortcut(app: CanvasApp)
    requires app.Valid() && HasSelection(app.selectedNoteId)
    modifies app
  {
    app.DeleteNote(app.selectedNoteId.value);
    assert app.selectedNoteId == None;
    var before := app.notes;
    app.HandleKeydown(true, "b");
    assert app.notes == before;
  }

  /**
   * After the start from a saved list, typing into the first note's
   * textarea changes what the page shows, but neither the list nor what is
   * stored.
   */
  method EditAfterStartupIsLost(n: CanvasNote, value: string, now: int, pos: Position, createdAt: string)
    returns (shown: string, stored: string)
    requires value != n.content
    ensures shown == value && stored == n.content && shown != stored
  {
    var app := new CanvasApp(Some([n]));
    app.InitializeAsWritten(now, pos, createdAt);
    app.EditContent(0, value);
    shown := app.rendered[0].content;
    stored := app.saved.value[0].content;
  }

  /** With the corrected start, the same typing reaches the list and storage. */
  method EditAfterStartupIsSaved(n: CanvasNote, value: string, now: int, pos: Position, createdAt: string)
    returns (shown: string, stored: string)
    ensures shown == value && stored == value
  {
    var app := new CanvasApp(Some([n]));
    app.Initialize(now, pos, createdAt);
    app.EditContent(0, value);
    shown := app.rendered[0].content;
    stored := app.saved.value[0].content;
  }
}
