/**
 * The logic of the note card (Frontend/components/NoteCard.tsx): the word
 * counter under the content, the paper and pin style fallbacks and the
 * table lookups they feed, and the card's own state, namely the edit buffer
 * and the popup flags.
 */
module NoteCard {
  import opened Collections
  import opened Types
  import opened Text
  import opened CardTypes

  // ---------------------------------------------------------------------
  // Word count.

  /** `s` with its leading white space removed: what one match of `\s+` consumes. */
  function DropSpace(s: string): (r: string)
    ensures |r| <= |s| && r == s[|s| - |r|..]
    ensures r == [] || !IsSpace(r[0])
    ensures s != [] && IsSpace(s[0]) ==> |r| < |s|
    decreases |s|
  {
    if s != [] && IsSpace(s[0]) then DropSpace(s[1..]) else s
  }

  /**
   * `s.split(/\s+/)`, with `piece` the text of the current piece gathered so
   * far: every maximal run of white space ends a piece, so a leading or
   * trailing run gives an empty piece at that end.
   */
  function SplitAux(s: string, piece: string): (r: seq<string>)
    ensures |r| >= 1
    decreases |s|
  {
    if s == [] then [piece]
    else if IsSpace(s[0]) then [piece] + SplitAux(DropSpace(s), "")
    else SplitAux(s[1..], piece + [s[0]])
  }

  function SplitOnSpace(s: string): seq<string> {
    SplitAux(s, "")
  }

  /** `pieces.filter(word => word.length > 0).length` */
  function NonEmptyCount(pieces: seq<string>): (r: nat)
    ensures r <= |pieces|
  {
    if pieces == [] then 0 else (if pieces[0] != [] then 1 else 0) + NonEmptyCount(pieces[1..])
  }

  /**
   * `content?.split(/\s+/).filter(word => word.length > 0).length || 0`:
   * missing content counts 0.
   */
  function WordCount(content: Option<string>): nat {
    match content
    case None => 0
    case Some(s) => NonEmptyCount(SplitOnSpace(s))
  }

  /**
   * The number of maximal runs of non-white-space characters in `s`, when
   * the character before `s` was white space (or there was none) exactly
   * when `afterSpace`.
   */
  function RunStarts(s: string, afterSpace: bool): nat {
    if s == [] then 0
    else (if afterSpace && !IsSpace(s[0]) then 1 else 0) + RunStarts(s[1..], IsSpace(s[0]))
  }

  /** Leading white space starts no run. */
  lemma {:induction false} RunStartsDropSpace(s: string)
    ensures RunStarts(s, true) == RunStarts(DropSpace(s), true)
    decreases |s|
  {
    if s != [] && IsSpace(s[0]) {
      RunStartsDropSpace(s[1..]);
    }
  }

  lemma {:induction false} SplitCountsRuns(s: string, piece: string)
    ensures NonEmptyCount(SplitAux(s, piece)) == RunStarts(s, piece == []) + (if piece != [] then 1 else 0)
    decreases |s|
  {
    if s == [] {
    } else if IsSpace(s[0]) {
      SplitCountsRuns(DropSpace(s), "");
      RunStartsDropSpace(s);
      assert ([piece] + SplitAux(DropSpace(s), ""))[1..] == SplitAux(DropSpace(s), "");
    } else {
      SplitCountsRuns(s[1..], piece + [s[0]]);
    }
  }

  /** The word count is the number of maximal non-white-space runs of the content. */
  lemma WordCountIsRuns(s: string)
    ensures WordCount(Some(s)) == RunStarts(s, true)
  {
    SplitCountsRuns(s, "");
  }

  /** Empty, blank and missing content count no words; every other content counts at least one. */
  lemma {:induction false} WordCountZero(s: string)
    ensures WordCount(Some(s)) == 0 <==> AllSpace(s)
  {
    WordCountIsRuns(s);
    RunStartsZero(s, true);
  }

  lemma {:induction false} RunStartsZero(s: string, afterSpace: bool)
    requires afterSpace
    ensures RunStarts(s, afterSpace) == 0 <==> AllSpace(s)
    decreases |s|
  {
    if s != [] {
      if IsSpace(s[0]) {
        RunStartsZero(s[1..], true);
        assert AllSpace(s) <==> AllSpace(s[1..]);
      } else {
        assert !AllSpace(s);
      }
    }
  }

  // ---------------------------------------------------------------------
  // Style fallbacks and lookups.

  /** The keys of the card's paper table, also the paper picker's options in order. */
  const PaperOptions: seq<string> :=
    ["vintage_yellow", "crumpled_white", "pastel_pink", "neon_cyber", "cork_board", "holographic",
     "midnight_blue", "emerald_green"]

  /** The keys of the card's pin table, also the pin picker's options in order. */
  const PinOptions: seq<string> := ["classic", "heart", "star", "sparkle", "gem", "crystal"]

  /** `note.paperStyle || 'vintage_yellow'` */
  function CurrentPaperStyle(n: CardNote): (key: string)
    ensures n.paperStyle.None? ==> key == "vintage_yellow"
    ensures n.paperStyle.Some? ==> key == PaperStyleName(n.paperStyle.value)
  {
    match n.paperStyle
    case None => "vintage_yellow"
    case Some(p) => PaperStyleName(p)
  }

  /** `note.pinStyle || 'classic'` */
  function CurrentPinStyle(n: CardNote): (key: string)
    ensures n.pinStyle.None? ==> key == "classic"
    ensures n.pinStyle.Some? ==> key == PinStyleName(n.pinStyle.value)
  {
    match n.pinStyle
    case None => "classic"
    case Some(p) => PinStyleName(p)
  }

  /** `paperStyles[currentPaperStyle]`: the table entry, `None` for a key the table lacks. */
  function PaperEntry(n: CardNote): Option<string> {
    var key := CurrentPaperStyle(n);
    if key in PaperOptions then Some(key) else None
  }

  /** Every paper style of the note type has an entry in the card's table, so the paper lookup always succeeds. */
  lemma PaperLookupTotal(n: CardNote)
    ensures PaperEntry(n).Some?
    ensures PaperEntry(n).value == (if n.paperStyle.Some? then PaperStyleName(n.paperStyle.value) else "vintage_yellow")
  {
    if n.paperStyle.Some? {
      match n.paperStyle.value
      case VintageYellow => assert PaperOptions[0] == "vintage_yellow";
      case CrumpledWhite => assert PaperOptions[1] == "crumpled_white";
      case PastelPink => assert PaperOptions[2] == "pastel_pink";
      case NeonCyber => assert PaperOptions[3] == "neon_cyber";
      case CorkBoard => assert PaperOptions[4] == "cork_board";
      case Holographic => assert PaperOptions[5] == "holographic";
    } else {
      assert PaperOptions[0] == "vintage_yellow";
    }
  }

  /**
   * `pinStyles[currentPinStyle].component`, as written: `None` stands for
   * reading `component` of a missing entry, which throws and fails the render.
   */
  function PinEntryAsWritten(n: CardNote): Option<string> {
    var key := CurrentPinStyle(n);
    if key in PinOptions then Some(key) else None
  }

  /** The pin style `clip`, which the note type allows, has no entry: the card cannot render such a note. */
  lemma ClipPinFailsToRender(n: CardNote)
    requires n.pinStyle == Some(Clip)
    ensures PinEntryAsWritten(n).None?
  {
    assert CurrentPinStyle(n) == "clip";
    assert forall k :: 0 <= k < |PinOptions| ==> PinOptions[k] != "clip";
  }

  /** `createNote({pinStyle: 'clip'})` builds a note the card cannot render. */
  lemma CreatedClipNoteFails(freshId: string, now: int)
    ensures PinEntryAsWritten(CreateNote(NoFields.(pinStyle := Some(Clip)), freshId, now)).None?
  {
    ClipPinFailsToRender(CreateNote(NoFields.(pinStyle := Some(Clip)), freshId, now));
  }

  /** The pin lookup with a missing entry falling back to the classic pin, as the missing-style fallback does. */
  function PinEntry(n: CardNote): (key: string)
    ensures key in PinOptions
    ensures PinEntryAsWritten(n).Some? ==> key == PinEntryAsWritten(n).value
  {
    var key := CurrentPinStyle(n);
    if key in PinOptions then key else "classic"
  }

  /** The corrected lookup renders every note, and a `clip` note with the classic pin. */
  lemma PinLookupTotal(n: CardNote)
    ensures n.pinStyle != Some(Clip) ==> PinEntryAsWritten(n).Some? && PinEntry(n) == CurrentPinStyle(n)
    ensures n.pinStyle == Some(Clip) ==> PinEntry(n) == "classic"
  {
    if n.pinStyle.None? {
      assert PinOptions[0] == "classic";
    } else {
      match n.pinStyle.value
      case Classic => assert PinOptions[0] == "classic";
      case Heart => assert PinOptions[1] == "heart";
      case Star => assert PinOptions[2] == "star";
      case Sparkle => assert PinOptions[3] == "sparkle";
      case Gem => assert PinOptions[4] == "gem";
      case Clip => ClipPinFailsToRender(n);
    }
  }

  // ---------------------------------------------------------------------
  // The card's state.

  /** The fields a card hands to `onUpdate`. */
  datatype CardUpdate =
    | TitleAndContent(title: string, content: string)
    | PaperStyleUpdate(paperStyle: string)
    | PinStyleUpdate(pinStyle: string)

  /** A call `onUpdate(id, update)`. */
  datatype UpdateCall = UpdateCall(id: string, update: CardUpdate)

  class CardState {
    /** The `note` prop. */
    const note: CardNote
    var isEditing: bool
    var isExpanded: bool
    var showColorPicker: bool
    var showPinPicker: bool
    var showMoreMenu: bool
    /** The edit buffer. */
    var title: string
    var content: string

    /** The two pickers are never open together. */
    ghost predicate Valid()
      reads this
    {
      !(showColorPicker && showPinPicker)
    }

    /** The first render: not editing, every popup closed, the buffer holding the note's text. */
    constructor (note: CardNote)
      ensures Valid() && this.note == note
      ensures !isEditing && !isExpanded && !showColorPicker && !showPinPicker && !showMoreMenu
      ensures title == note.title && content == note.content
    {
      this.note := note;
      isEditing := false;
      isExpanded := false;
      showColorPicker := false;
      showPinPicker := false;
      showMoreMenu := false;
      title := note.title;
      content := note.content;
    }

    /** The words shown under the content: those of the buffer. */
    function Words(): (r: nat)
      reads this
      ensures r == RunStarts(content, true)
    {
      WordCountIsRuns(content);
      WordCount(Some(content))
    }

    method StartEditing()
      requires Valid()
      modifies this
      ensures Valid() && isEditing
      ensures title == old(title) && content == old(content)
      ensures showColorPicker == old(showColorPicker) && showPinPicker == old(showPinPicker)
      ensures showMoreMenu == old(showMoreMenu) && isExpanded == old(isExpanded)
    {
      isEditing := true;
    }

    method EditTitle(value: string)
      requires Valid()
      modifies this
      ensures Valid() && title == value && content == old(content) && isEditing == old(isEditing)
      ensures showColorPicker == old(showColorPicker) && showPinPicker == old(showPinPicker)
      ensures showMoreMenu == old(showMoreMenu) && isExpanded == old(isExpanded)
    {
      title := value;
    }

    method EditContent(value: string)
      requires Valid()
      modifies this
      ensures Valid() && content == value && title == old(title) && isEditing == old(isEditing)
      ensures showColorPicker == old(showColorPicker) && showPinPicker == old(showPinPicker)
      ensures showMoreMenu == old(showMoreMenu) && isExpanded == old(isExpanded)
    {
      content := value;
    }

    /** `handleSave`: exactly the buffered title and content go to `onUpdate`, and editing ends. */
    method HandleSave() returns (call: UpdateCall)
      requires Valid()
      modifies this
      ensures Valid() && !isEditing
      ensures call == UpdateCall(note.id, TitleAndContent(old(title), old(content)))
      ensures title == old(title) && content == old(content)
      ensures showColorPicker == old(showColorPicker) && showPinPicker == old(showPinPicker)
      ensures showMoreMenu == old(showMoreMenu) && isExpanded == old(isExpanded)
    {
      call := UpdateCall(note.id, TitleAndContent(title, content));
      isEditing := false;
    }

    /** `handleCancel`: the buffer goes back to the note's text and editing ends; nothing is sent. */
    method HandleCancel()
      requires Valid()
      modifies this
      ensures Valid() && !isEditing
      ensures title == note.title && content == note.content
      ensures showColorPicker == old(showColorPicker) && showPinPicker == old(showPinPicker)
      ensures showMoreMenu == old(showMoreMenu) && isExpanded == old(isExpanded)
    {
      title := note.title;
      content := note.content;
      isEditing := false;
    }

    /** The palette button: the paper picker flips, the pin picker and the more menu close. */
    method ToggleColorPicker()
      requires Valid()
      modifies this
      ensures Valid()
      ensures showColorPicker == !old(showColorPicker) && !showPinPicker && !showMoreMenu
      ensures isEditing == old(isEditing) && isExpanded == old(isExpanded)
      ensures title == old(title) && content == old(content)
    {
      showColorPicker := !showColorPicker;
      showPinPicker := false;
      showMoreMenu := false;
    }

    /** The pin-style button: the pin picker flips, the paper picker and the more menu close. */
    method TogglePinPicker()
      requires Valid()
      modifies this
      ensures Valid()
      ensures showPinPicker == !old(showPinPicker) && !showColorPicker && !showMoreMenu
      ensures isEditing == old(isEditing) && isExpanded == old(isExpanded)
      ensures title == old(title) && content == old(content)
    {
      showPinPicker := !showPinPicker;
      showColorPicker := false;
      showMoreMenu := false;
    }

    /** The more-options button flips only the more menu; an open picker stays open. */
    method ToggleMoreMenu()
      requires Valid()
      modifies this
      ensures Valid()
      ensures showMoreMenu == !old(showMoreMenu)
      ensures showColorPicker == old(showColorPicker) && showPinPicker == old(showPinPicker)
      ensures isEditing == old(isEditing) && isExpanded == old(isExpanded)
      ensures title == old(title) && content == old(content)
    {
      showMoreMenu := !showMoreMenu;
    }

    method ToggleExpanded()
      requires Valid()
      modifies this
      ensures Valid() && isExpanded == !old(isExpanded)
      ensures showColorPicker == old(showColorPicker) && showPinPicker == old(showPinPicker)
      ensures showMoreMenu == old(showMoreMenu) && isEditing == old(isEditing)
      ensures title == old(title) && content == old(content)
    {
      isExpanded := !isExpanded;
    }

    /** A paper option: `onUpdate` gets only the paper style, and the picker closes. */
    method PickPaperStyle(style: string) returns (call: UpdateCall)
      requires Valid() && style in PaperOptions
      modifies this
      ensures Valid() && !showColorPicker
      ensures call == UpdateCall(note.id, PaperStyleUpdate(style))
      ensures showPinPicker == old(showPinPicker) && showMoreMenu == old(showMoreMenu)
      ensures isEditing == old(isEditing) && isExpanded == old(isExpanded)
      ensures title == old(title) && content == old(content)
    {
      call := UpdateCall(note.id, PaperStyleUpdate(style));
      showColorPicker := false;
    }

    /** A pin option: `onUpdate` gets only the pin style, and the picker closes. */
    method PickPinStyle(style: string) returns (call: UpdateCall)
      requires Valid() && style in PinOptions
      modifies this
      ensures Valid() && !showPinPicker
      ensures call == UpdateCall(note.id, PinStyleUpdate(style))
      ensures showColorPicker == old(showColorPicker) && showMoreMenu == old(showMoreMenu)
      ensures isEditing == old(isEditing) && isExpanded == old(isExpanded)
      ensures title == old(title) && content == old(content)
    {
      call := UpdateCall(note.id, PinStyleUpdate(style));
      showPinPicker := false;
    }

    /** The menu's delete item: `onDelete` is called only when the confirm dialog says yes. */
    method HandleDelete(confirmed: bool) returns (deleted: Option<string>)
      requires Valid()
      modifies {}
      ensures deleted.Some? <==> confirmed
      ensures deleted.Some? ==> deleted.value == note.id
    {
      deleted := if confirmed then Some(note.id) else None;
    }
  }

  /** Opening the paper picker and then the more menu leaves two popups open at once. */
  method PickerAndMenuOverlap(n: CardNote)
  {
    var card := new CardState(n);
    card.ToggleColorPicker();
    card.ToggleMoreMenu();
    assert card.showColorPicker && card.showMoreMenu;
  }

  /** Opening either picker closes the other, whatever was open before. */
  method PickersExclusive(n: CardNote)
  {
    var card := new CardState(n);
    card.ToggleColorPicker();
    card.ToggleMoreMenu();
    card.TogglePinPicker();
    assert card.showPinPicker && !card.showColorPicker && !card.showMoreMenu;
  }
}
