/**
 * The note type of the card component and its builder
 * (Frontend/lib/types.ts): the paper and pin style enumerations, the
 * `createNote` defaults-then-override builder and the two style tables.
 */
module CardTypes {
  import opened Collections
  import opened Types

  datatype PaperStyle = VintageYellow | CrumpledWhite | PastelPink | NeonCyber | CorkBoard | Holographic

  datatype PinStyle = Classic | Heart | Star | Sparkle | Clip | Gem

  datatype Priority = Low | Medium | High

  /** The string each paper style is stored as. */
  function PaperStyleName(p: PaperStyle): string {
    match p
    case VintageYellow => "vintage_yellow"
    case CrumpledWhite => "crumpled_white"
    case PastelPink => "pastel_pink"
    case NeonCyber => "neon_cyber"
    case CorkBoard => "cork_board"
    case Holographic => "holographic"
  }

  /** The string each pin style is stored as. */
  function PinStyleName(p: PinStyle): string {
    match p
    case Classic => "classic"
    case Heart => "heart"
    case Star => "star"
    case Sparkle => "sparkle"
    case Clip => "clip"
    case Gem => "gem"
  }

  /** The stored names tell the styles apart. */
  lemma StyleNamesInjective(p: PaperStyle, q: PaperStyle, r: PinStyle, s: PinStyle)
    ensures PaperStyleName(p) == PaperStyleName(q) ==> p == q
    ensures PinStyleName(r) == PinStyleName(s) ==> r == s
  {
  }

  /**
   * A card note. `createdAt` and `updatedAt` are the dates' millisecond
   * values; the optional fields are `None` when absent.
   */
  datatype CardNote = CardNote(
    id: string,
    title: string,
    content: string,
    color: NoteColor,
    paperStyle: Option<PaperStyle>,
    pinStyle: Option<PinStyle>,
    isPinned: bool,
    createdAt: int,
    updatedAt: Option<int>,
    tags: Option<seq<string>>,
    priority: Option<Priority>)

  /** `Partial<Note>`: each field either given (`Some`) or absent (`None`). */
  datatype NotePartial = NotePartial(
    id: Option<string>,
    title: Option<string>,
    content: Option<string>,
    color: Option<NoteColor>,
    paperStyle: Option<PaperStyle>,
    pinStyle: Option<PinStyle>,
    isPinned: Option<bool>,
    createdAt: Option<int>,
    updatedAt: Option<int>,
    tags: Option<seq<string>>,
    priority: Option<Priority>)

  const NoFields := NotePartial(None, None, None, None, None, None, None, None, None, None, None)

  /**
   * `createNote(partial)`: the defaults (a fresh id, empty title and
   * content, yellow, vintage yellow paper, classic pin, unpinned, created
   * now), then every field the partial gives, which wins because the spread
   * comes last. `freshId` and `now` stand for `crypto.randomUUID()` and
   * `new Date()`.
   */
  function CreateNote(partial: NotePartial, freshId: string, now: int): (n: CardNote)
    ensures n.id == partial.id.GetOr(freshId) && n.createdAt == partial.createdAt.GetOr(now)
    ensures n.paperStyle.Some? && n.pinStyle.Some?
    ensures n.updatedAt == partial.updatedAt && n.tags == partial.tags && n.priority == partial.priority
  {
    CardNote(
      partial.id.GetOr(freshId),
      partial.title.GetOr(""),
      partial.content.GetOr(""),
      partial.color.GetOr(Yellow),
      Some(partial.paperStyle.GetOr(VintageYellow)),
      Some(partial.pinStyle.GetOr(Classic)),
      partial.isPinned.GetOr(false),
      partial.createdAt.GetOr(now),
      partial.updatedAt,
      partial.tags,
      partial.priority)
  }

  /** `createNote({})` is the default note: nothing optional beyond the two styles is set. */
  lemma CreateNoteDefaults(freshId: string, now: int)
    ensures CreateNote(NoFields, freshId, now)
            == CardNote(freshId, "", "", Yellow, Some(VintageYellow), Some(Classic), false, now, None, None, None)
  {
  }

  /**
   * The spread comes last, so each field the partial gives is the note's,
   * and each field it leaves out takes its default.
   */
  lemma CreateNoteGivenFieldsWin(partial: NotePartial, freshId: string, now: int)
    ensures var n := CreateNote(partial, freshId, now);
            (partial.id.Some? ==> n.id == partial.id.value)
            && (partial.id.None? ==> n.id == freshId)
            && (partial.title.Some? ==> n.title == partial.title.value)
            && (partial.title.None? ==> n.title == "")
            && (partial.content.Some? ==> n.content == partial.content.value)
            && (partial.content.None? ==> n.content == "")
            && (partial.color.Some? ==> n.color == partial.color.value)
            && (partial.color.None? ==> n.color == Yellow)
            && (partial.isPinned.Some? ==> n.isPinned == partial.isPinned.value)
            && (partial.isPinned.None? ==> !n.isPinned)
            && (partial.paperStyle.Some? ==> n.paperStyle == partial.paperStyle)
            && (partial.paperStyle.None? ==> n.paperStyle == Some(VintageYellow))
            && (partial.pinStyle.Some? ==> n.pinStyle == partial.pinStyle)
            && (partial.pinStyle.None? ==> n.pinStyle == Some(Classic))
            && (partial.createdAt.Some? ==> n.createdAt == partial.createdAt.value)
            && (partial.createdAt.None? ==> n.createdAt == now)
            && n.updatedAt == partial.updatedAt && n.tags == partial.tags && n.priority == partial.priority
  {
  }

  /** The partial that gives every field of `n` that `n` has. */
  function FieldsOf(n: CardNote): NotePartial {
    NotePartial(Some(n.id), Some(n.title), Some(n.content), Some(n.color), n.paperStyle, n.pinStyle,
                Some(n.isPinned), Some(n.createdAt), n.updatedAt, n.tags, n.priority)
  }

  /**
   * Every given field overrides its default: building from all of a note's
   * fields gives that note back exactly when it has both styles, since an
   * absent style is filled in.
   */
  lemma CreateNoteOverrides(n: CardNote, freshId: string, now: int)
    ensures CreateNote(FieldsOf(n), freshId, now) == n <==> n.paperStyle.Some? && n.pinStyle.Some?
  {
    if n.paperStyle.Some? && n.pinStyle.Some? {
      assert CreateNote(FieldsOf(n), freshId, now).paperStyle == n.paperStyle;
    }
  }

  /** Building twice from the same fields with other defaults differs at most in id and creation time. */
  lemma CreateNoteDefaultsOnlyIdAndTime(partial: NotePartial, id1: string, id2: string, t1: int, t2: int)
    ensures CreateNote(partial, id1, t1) == CreateNote(partial, id2, t2).(id := CreateNote(partial, id1, t1).id,
                                                                        createdAt := CreateNote(partial, id1, t1).createdAt)
  {
  }

  /** A row of a style table: the name and description a picker shows. */
  datatype StyleInfo = StyleInfo(name: string, description: string)

  /** `PAPER_STYLE_INFO`: one entry per paper style. */
  function PaperStyleInfo(): map<PaperStyle, StyleInfo> {
    map[
      VintageYellow := StyleInfo("Vintage Yellow", "Classic lined notebook paper with warm tones"),
      CrumpledWhite := StyleInfo("Crumpled White", "Wrinkled white paper with realistic texture"),
      PastelPink := StyleInfo("Pastel Pink", "Kawaii-style pink paper with polka dots"),
      NeonCyber := StyleInfo("Neon Cyber", "Futuristic grid paper with glowing effects"),
      CorkBoard := StyleInfo("Cork Board", "Natural cork texture for a rustic feel"),
      Holographic := StyleInfo("Holographic", "Iridescent rainbow gradient with shimmer")
    ]
  }

  /** `PIN_STYLE_INFO`: one entry per pin style. */
  function PinStyleInfo(): map<PinStyle, StyleInfo> {
    map[
      Classic := StyleInfo("Classic Pin", "Traditional silver push pin"),
      Heart := StyleInfo("Heart", "Romantic heart with pulse animation"),
      Star := StyleInfo("Star", "Golden star with rotation"),
      Sparkle := StyleInfo("Sparkle", "Magical sparkles with particles"),
      Clip := StyleInfo("Paper Clip", "Simple paper clip attachment"),
      Gem := StyleInfo("Gem", "Precious diamond shape with glow")
    ]
  }

  /** Every paper style has an entry, and no two entries share a name. */
  lemma PaperStyleInfoComplete()
    ensures forall p: PaperStyle :: p in PaperStyleInfo()
    ensures forall p: PaperStyle, q: PaperStyle :: p in PaperStyleInfo() && q in PaperStyleInfo() && p != q ==>
              PaperStyleInfo()[p].name != PaperStyleInfo()[q].name
  {
    forall p: PaperStyle ensures p in PaperStyleInfo() {
      match p
      case VintageYellow =>
      case CrumpledWhite =>
      case PastelPink =>
      case NeonCyber =>
      case CorkBoard =>
      case Holographic =>
    }
  }

  /** Every pin style, `clip` included, has an entry, and no two entries share a name. */
  lemma PinStyleInfoComplete()
    ensures forall p: PinStyle :: p in PinStyleInfo()
    ensures forall p: PinStyle, q: PinStyle :: p in PinStyleInfo() && q in PinStyleInfo() && p != q ==>
              PinStyleInfo()[p].name != PinStyleInfo()[q].name
  {
    forall p: PinStyle ensures p in PinStyleInfo() {
      match p
      case Classic =>
      case Heart =>
      case Star =>
      case Sparkle =>
      case Clip =>
      case Gem =>
    }
  }
}
