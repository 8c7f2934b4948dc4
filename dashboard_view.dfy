/**
 * The view the dashboard derives from the note collection
 * (Frontend/app/dashboard/page.tsx and its copy app/dashboard/page.tsx):
 * the search, category and pinned filters, the pinned-first,
 * newest-first stable sort, the category list and the footer stats.
 */
module DashboardView {
  import opened Collections
  import opened Types
  import opened Text

  /** The filter controls: an empty term or category, or `false`, means "no filter". */
  datatype Filters = Filters(searchTerm: string, category: string, pinnedOnly: bool)

  predicate NoFilter(f: Filters) {
    f.searchTerm == "" && f.category == "" && !f.pinnedOnly
  }

  /** Case-insensitive substring match on the title or the content. */
  predicate MatchesSearch(n: Note, term: string) {
    Includes(ToLower(n.title), ToLower(term)) || Includes(ToLower(n.content), ToLower(term))
  }

  predicate SearchOk(n: Note, f: Filters) { f.searchTerm == "" || MatchesSearch(n, f.searchTerm) }
  predicate CategoryOk(n: Note, f: Filters) { f.category == "" || n.category == f.category }
  predicate PinnedOk(n: Note, f: Filters) { !f.pinnedOnly || n.isPinned }

  /** The three filters as one predicate, each active only when its control is set. */
  predicate Visible(n: Note, f: Filters) {
    SearchOk(n, f) && CategoryOk(n, f) && PinnedOk(n, f)
  }

  /** The search step of the filter chain: skipped for an empty term. */
  function SearchStep(notes: seq<Note>, f: Filters): seq<Note> {
    if f.searchTerm == "" then notes else Filter(notes, (n: Note) => MatchesSearch(n, f.searchTerm))
  }

  /** The category step: skipped for an empty category. */
  function CategoryStep(notes: seq<Note>, f: Filters): seq<Note> {
    if f.category == "" then notes else Filter(notes, (n: Note) => n.category == f.category)
  }

  /** The pinned-only step: skipped when the box is clear. */
  function PinnedStep(notes: seq<Note>, f: Filters): seq<Note> {
    if !f.pinnedOnly then notes else Filter(notes, (n: Note) => n.isPinned)
  }

  /** The filter chain as the page applies it: search, then category, then pinned. */
  function Filtered(notes: seq<Note>, f: Filters): seq<Note> {
    PinnedStep(CategoryStep(SearchStep(notes, f), f), f)
  }

  lemma SearchStepSpec(s: seq<Note>, f: Filters)
    ensures SearchStep(s, f) == Filter(s, (n: Note) => SearchOk(n, f))
  {
    if f.searchTerm == "" {
      FilterAll(s, (n: Note) => SearchOk(n, f));
    } else {
      FilterExt(s, (n: Note) => SearchOk(n, f), (n: Note) => MatchesSearch(n, f.searchTerm));
    }
  }

  lemma CategoryStepSpec(s: seq<Note>, f: Filters)
    ensures CategoryStep(s, f) == Filter(s, (n: Note) => CategoryOk(n, f))
  {
    if f.category == "" {
      FilterAll(s, (n: Note) => CategoryOk(n, f));
    } else {
      FilterExt(s, (n: Note) => CategoryOk(n, f), (n: Note) => n.category == f.category);
    }
  }

  lemma PinnedStepSpec(s: seq<Note>, f: Filters)
    ensures PinnedStep(s, f) == Filter(s, (n: Note) => PinnedOk(n, f))
  {
    if f.pinnedOnly {
      FilterExt(s, (n: Note) => PinnedOk(n, f), (n: Note) => n.isPinned);
    } else {
      FilterAll(s, (n: Note) => PinnedOk(n, f));
    }
  }

  /**
   * The chain keeps exactly the notes that pass every active filter, in
   * collection order: it is one filter by `Visible`.
   */
  lemma FilteredIsVisible(notes: seq<Note>, f: Filters)
    ensures Filtered(notes, f) == Filter(notes, (n: Note) => Visible(n, f))
  {
    var a := (n: Note) => SearchOk(n, f);
    var b := (n: Note) => CategoryOk(n, f);
    var c := (n: Note) => PinnedOk(n, f);
    var s1 := Filter(notes, a);
    var s2 := Filter(s1, b);
    SearchStepSpec(notes, f);
    CategoryStepSpec(s1, f);
    PinnedStepSpec(s2, f);
    var ab := (n: Note) => SearchOk(n, f) && CategoryOk(n, f);
    FilterFilter(notes, a, b, ab);
    FilterFilter(notes, ab, c, (n: Note) => Visible(n, f));
  }

  // ---------------------------------------------------------------------
  // The sort.

  /** The comparator: pinned first, then `b.updatedAt - a.updatedAt`. */
  function Compare(a: Note, b: Note): int {
    if a.isPinned != b.isPinned then (if a.isPinned then -1 else 1)
    else b.updatedAt - a.updatedAt
  }

  /** `a` sorts strictly before `b`. */
  predicate Before(a: Note, b: Note) {
    Compare(a, b) < 0
  }

  /** `a` may be shown before `b`: not unpinned before pinned, and not older before newer in one group. */
  predicate NotAfter(a: Note, b: Note) {
    (a.isPinned || !b.isPinned) && (a.isPinned == b.isPinned ==> a.updatedAt >= b.updatedAt)
  }

  /** Pinned notes before unpinned ones, and within each group `updatedAt` never increases. */
  ghost predicate Ordered(s: seq<Note>) {
    forall i, j :: 0 <= i < j < |s| ==> NotAfter(s[i], s[j])
  }

  /** The notes of `s` whose sort key is (`pinned`, `time`), in their order in `s`. */
  function WithKey(s: seq<Note>, pinned: bool, time: int): seq<Note> {
    Filter(s, (n: Note) => n.isPinned == pinned && n.updatedAt == time)
  }

  /** Stable: notes that compare equal keep their relative order. */
  ghost predicate StableFrom(r: seq<Note>, s: seq<Note>) {
    forall pinned: bool, time: int :: WithKey(r, pinned, time) == WithKey(s, pinned, time)
  }

  /** One step of a stable insertion sort: `x` goes after every note it does not sort before. */
  function Insert(x: Note, s: seq<Note>): seq<Note>
    decreases |s|
  {
    if s == [] then [x]
    else if Before(x, s[|s| - 1]) then Insert(x, s[..|s| - 1]) + [s[|s| - 1]]
    else s + [x]
  }

  /** `notes.sort(Compare)`, which ECMAScript requires to be stable. */
  function SortNotes(s: seq<Note>): seq<Note>
    decreases |s|
  {
    if s == [] then [] else Insert(s[|s| - 1], SortNotes(s[..|s| - 1]))
  }

  lemma {:induction false} InsertPermutes(x: Note, s: seq<Note>)
    ensures multiset(Insert(x, s)) == multiset(s) + multiset{x}
    decreases |s|
  {
    if s != [] {
      var last := s[|s| - 1];
      assert s == s[..|s| - 1] + [last];
      if Before(x, last) {
        InsertPermutes(x, s[..|s| - 1]);
      }
    }
  }

  /** A sorted list stays sorted when a note that no element must follow is appended. */
  lemma AppendOrdered(t: seq<Note>, y: Note)
    requires Ordered(t)
    requires forall k :: 0 <= k < |t| ==> NotAfter(t[k], y)
    ensures Ordered(t + [y])
  {
    forall i, j | 0 <= i < j < |t + [y]| ensures NotAfter((t + [y])[i], (t + [y])[j]) {
      if j < |t| {
        assert (t + [y])[i] == t[i] && (t + [y])[j] == t[j];
      }
    }
  }

  lemma {:induction false} InsertOrdered(x: Note, s: seq<Note>)
    requires Ordered(s)
    ensures Ordered(Insert(x, s))
    decreases |s|
  {
    if s == [] {
      return;
    }
    var init, last := s[..|s| - 1], s[|s| - 1];
    assert Ordered(init);
    if Before(x, last) {
      InsertOrdered(x, init);
      InsertPermutes(x, init);
      var t := Insert(x, init);
      forall k | 0 <= k < |t| ensures NotAfter(t[k], last) {
        assert t[k] in multiset(t);
        if t[k] != x {
          assert t[k] in multiset(init);
          var j :| 0 <= j < |init| && init[j] == t[k];
          assert s[j] == t[k];
        }
      }
      AppendOrdered(t, last);
    } else {
      assert NotAfter(last, x);
      forall k | 0 <= k < |s| ensures NotAfter(s[k], x) {
        if k < |s| - 1 {
          assert NotAfter(s[k], last);
        }
      }
      AppendOrdered(s, x);
    }
  }

  lemma WithKeyConcat(a: seq<Note>, b: seq<Note>, pinned: bool, time: int)
    ensures WithKey(a + b, pinned, time) == WithKey(a, pinned, time) + WithKey(b, pinned, time)
  {
    FilterConcat(a, b, (n: Note) => n.isPinned == pinned && n.updatedAt == time);
  }

  lemma {:induction false} InsertStable(x: Note, s: seq<Note>, pinned: bool, time: int)
    ensures WithKey(Insert(x, s), pinned, time)
            == WithKey(s, pinned, time) + WithKey([x], pinned, time)
    decreases |s|
  {
    if s != [] {
      var init, last := s[..|s| - 1], s[|s| - 1];
      assert s == init + [last];
      WithKeyConcat(init, [last], pinned, time);
      if Before(x, last) {
        InsertStable(x, init, pinned, time);
        WithKeyConcat(Insert(x, init), [last], pinned, time);
      } else {
        WithKeyConcat(s, [x], pinned, time);
      }
    }
  }

  /** The sorted notes are exactly the input notes, each as often as before. */
  lemma {:induction false} SortPermutes(s: seq<Note>)
    ensures multiset(SortNotes(s)) == multiset(s)
    ensures |SortNotes(s)| == |s|
    decreases |s|
  {
    if s != [] {
      SortPermutes(s[..|s| - 1]);
      InsertPermutes(s[|s| - 1], SortNotes(s[..|s| - 1]));
      assert s == s[..|s| - 1] + [s[|s| - 1]];
    }
  }

  /** Every pinned note comes before every unpinned one, and `updatedAt` never increases within a group. */
  lemma {:induction false} SortOrders(s: seq<Note>)
    ensures Ordered(SortNotes(s))
    decreases |s|
  {
    if s != [] {
      SortOrders(s[..|s| - 1]);
      InsertOrdered(s[|s| - 1], SortNotes(s[..|s| - 1]));
    }
  }

  /** Notes with the same pin flag and `updatedAt` keep their input order. */
  lemma {:induction false} SortStable(s: seq<Note>)
    ensures StableFrom(SortNotes(s), s)
    decreases |s|
  {
    if s != [] {
      var init, last := s[..|s| - 1], s[|s| - 1];
      SortStable(init);
      forall pinned: bool, time: int
        ensures WithKey(SortNotes(s), pinned, time) == WithKey(s, pinned, time)
      {
        InsertStable(last, SortNotes(init), pinned, time);
        assert s == init + [last];
        WithKeyConcat(init, [last], pinned, time);
      }
    }
  }

  /** The displayed list: the filtered notes, sorted. */
  function View(notes: seq<Note>, f: Filters): seq<Note> {
    SortNotes(Filtered(notes, f))
  }

  /**
   * What the dashboard shows: only notes of the collection that pass every
   * active filter, each note that passes shown as often as it occurs,
   * pinned first, newest first within each group, ties in collection order.
   */
  lemma ViewSpec(notes: seq<Note>, f: Filters)
    ensures multiset(View(notes, f)) == multiset(Filtered(notes, f))
    ensures forall k :: 0 <= k < |View(notes, f)| ==> View(notes, f)[k] in notes && Visible(View(notes, f)[k], f)
    ensures forall k :: 0 <= k < |notes| && Visible(notes[k], f) ==> notes[k] in View(notes, f)
    ensures Ordered(View(notes, f))
    ensures StableFrom(View(notes, f), Filtered(notes, f))
  {
    var r := Filtered(notes, f);
    FilteredIsVisible(notes, f);
    SortPermutes(r);
    SortOrders(r);
    SortStable(r);
    forall k | 0 <= k < |View(notes, f)|
      ensures View(notes, f)[k] in notes && Visible(View(notes, f)[k], f)
    {
      assert View(notes, f)[k] in multiset(View(notes, f));
    }
    forall k | 0 <= k < |notes| && Visible(notes[k], f)
      ensures notes[k] in View(notes, f)
    {
      assert notes[k] in multiset(r);
    }
  }

  /** A pinned note is shown before an unpinned one, whatever their times. */
  lemma PinnedBeatsNewer(a: Note, b: Note)
    requires !a.isPinned && b.isPinned
    ensures SortNotes([a, b]) == [b, a]
  {
    assert [a, b][..1] == [a] && [a][..0] == [];
    assert SortNotes([a]) == [a];
    assert Insert(b, [a]) == [b, a];
  }

  // ---------------------------------------------------------------------
  // Categories.

  /** `Array.from(new Set(xs))`: each value once, at its first occurrence. */
  function Distinct(xs: seq<string>): (r: seq<string>)
    ensures forall k :: 0 <= k < |r| ==> r[k] in xs
    ensures forall k :: 0 <= k < |xs| ==> xs[k] in r
    ensures forall i, j :: 0 <= i < j < |r| ==> r[i] != r[j]
    decreases |xs|
  {
    if xs == [] then []
    else
      var d := Distinct(xs[..|xs| - 1]);
      if xs[|xs| - 1] in d then d else d + [xs[|xs| - 1]]
  }

  /** One step of the insertion that places `x` in an ascending list. */
  function InsertString(x: string, s: seq<string>): seq<string>
    decreases |s|
  {
    if s == [] then [x]
    else if StringLess(x, s[|s| - 1]) then InsertString(x, s[..|s| - 1]) + [s[|s| - 1]]
    else s + [x]
  }

  /** `xs.sort()` with the default comparison. */
  function SortStrings(xs: seq<string>): seq<string>
    decreases |xs|
  {
    if xs == [] then [] else InsertString(xs[|xs| - 1], SortStrings(xs[..|xs| - 1]))
  }

  ghost predicate StrictlyAscending(s: seq<string>) {
    forall i, j :: 0 <= i < j < |s| ==> StringLess(s[i], s[j])
  }

  lemma {:induction false} InsertStringSpec(x: string, s: seq<string>)
    requires StrictlyAscending(s) && x !in s
    ensures multiset(InsertString(x, s)) == multiset(s) + multiset{x}
    ensures StrictlyAscending(InsertString(x, s))
    decreases |s|
  {
    if s != [] {
      var init, last := s[..|s| - 1], s[|s| - 1];
      assert s == init + [last];
      StringLessTotal(x, last);
      if StringLess(x, last) {
        assert x !in init;
        InsertStringSpec(x, init);
        var t := InsertString(x, init);
        forall k | 0 <= k < |t| ensures StringLess(t[k], last) {
          assert t[k] in multiset(t);
          if t[k] != x {
            assert t[k] in multiset(init);
            var j :| 0 <= j < |init| && init[j] == t[k];
            assert s[j] == t[k];
          }
        }
      } else {
        forall k | 0 <= k < |s| ensures StringLess(s[k], x) {
          if k < |s| - 1 {
            StringLessTransitive(s[k], last, x);
          }
        }
      }
    }
  }

  lemma {:induction false} SortStringsSpec(xs: seq<string>)
    requires forall i, j :: 0 <= i < j < |xs| ==> xs[i] != xs[j]
    ensures multiset(SortStrings(xs)) == multiset(xs)
    ensures StrictlyAscending(SortStrings(xs))
    decreases |xs|
  {
    if xs != [] {
      var init, last := xs[..|xs| - 1], xs[|xs| - 1];
      SortStringsSpec(init);
      assert xs == init + [last];
      assert last !in multiset(init);
      InsertStringSpec(last, SortStrings(init));
    }
  }

  /** The category of every note, in collection order. */
  function CategoryOf(notes: seq<Note>): (r: seq<string>)
    ensures |r| == |notes| && forall k :: 0 <= k < |notes| ==> r[k] == notes[k].category
  {
    if notes == [] then [] else [notes[0].category] + CategoryOf(notes[1..])
  }

  /** `Array.from(new Set(notes.map(n => n.category))).sort()` */
  function Categories(notes: seq<Note>): seq<string> {
    SortStrings(Distinct(CategoryOf(notes)))
  }

  /** The category list holds each category of the collection exactly once, in ascending order. */
  lemma CategoriesSpec(notes: seq<Note>)
    ensures StrictlyAscending(Categories(notes))
    ensures forall k :: 0 <= k < |Categories(notes)| ==>
              exists i :: 0 <= i < |notes| && notes[i].category == Categories(notes)[k]
    ensures forall i :: 0 <= i < |notes| ==> notes[i].category in Categories(notes)
  {
    var cs := CategoryOf(notes);
    var d := Distinct(cs);
    var c := SortStrings(d);
    SortStringsSpec(d);
    forall k | 0 <= k < |c|
      ensures exists i :: 0 <= i < |notes| && notes[i].category == c[k]
    {
      assert c[k] in multiset(c);
      assert c[k] in d;
      var i :| 0 <= i < |cs| && cs[i] == c[k];
      assert notes[i].category == c[k];
    }
    forall i | 0 <= i < |notes| ensures notes[i].category in c {
      assert cs[i] in d;
      assert cs[i] in multiset(d);
      assert cs[i] in multiset(c);
    }
  }

  /** In a strictly ascending list the last element occurs nowhere before. */
  lemma AscendingLastIsNew(s: seq<string>)
    requires StrictlyAscending(s) && s != []
    ensures s[|s| - 1] !in s[..|s| - 1]
  {
    forall j | 0 <= j < |s| - 1 ensures s[j] != s[|s| - 1] {
      assert StringLess(s[j], s[|s| - 1]);
      StringLessIrreflexive(s[j]);
    }
  }

  /** A strictly ascending list has as many distinct elements as entries. */
  lemma {:induction false} AscendingCard(s: seq<string>)
    requires StrictlyAscending(s)
    ensures |set x | x in s| == |s|
    decreases |s|
  {
    if s != [] {
      var init := s[..|s| - 1];
      assert StrictlyAscending(init);
      AscendingCard(init);
      AscendingLastIsNew(s);
      assert s == init + [s[|s| - 1]];
      assert (set x | x in s) == (set x | x in init) + {s[|s| - 1]};
    }
  }

  /** The categories stat is the number of distinct categories of the collection. */
  lemma CategoryCount(notes: seq<Note>)
    ensures |Categories(notes)| == |set i | 0 <= i < |notes| :: notes[i].category|
  {
    CategoriesSpec(notes);
    var c := Categories(notes);
    AscendingCard(c);
    assert (set x | x in c) == (set i | 0 <= i < |notes| :: notes[i].category);
  }

  // ---------------------------------------------------------------------
  // Footer stats and the empty state.

  /** `notes.filter(n => n.isPinned).length` */
  function PinnedCount(notes: seq<Note>): (r: nat)
    ensures r == |Filter(notes, (n: Note) => n.isPinned)|
    ensures r <= |notes|
    ensures r == 0 <==> forall k :: 0 <= k < |notes| ==> !notes[k].isPinned
    ensures r == |notes| <==> forall k :: 0 <= k < |notes| ==> notes[k].isPinned
    decreases |notes|
  {
    if notes == [] then 0
    else (if notes[0].isPinned then 1 else 0) + PinnedCount(notes[1..])
  }

  /** `notes.reduce((sum, n) => sum + n.content.length, 0)`: contents counted in UTF-16 code units. */
  function CharCount(notes: seq<Note>): (r: nat)
    decreases |notes|
  {
    if notes == [] then 0 else Utf16Length(notes[0].content) + CharCount(notes[1..])
  }

  lemma {:induction false} PinnedCountSplit(a: seq<Note>, b: seq<Note>)
    ensures PinnedCount(a + b) == PinnedCount(a) + PinnedCount(b)
    decreases |a|
  {
    if a == [] {
      assert a + b == b;
    } else {
      assert (a + b)[0] == a[0] && (a + b)[1..] == a[1..] + b;
      PinnedCountSplit(a[1..], b);
    }
  }

  lemma {:induction false} CharCountSplit(a: seq<Note>, b: seq<Note>)
    ensures CharCount(a + b) == CharCount(a) + CharCount(b)
    decreases |a|
  {
    if a == [] {
      assert a + b == b;
    } else {
      assert (a + b)[0] == a[0] && (a + b)[1..] == a[1..] + b;
      CharCountSplit(a[1..], b);
    }
  }

  /** The characters stat is at least the UTF-16 length of any one note's content. */
  lemma {:induction false} CharCountBounds(notes: seq<Note>, k: nat)
    requires k < |notes|
    ensures Utf16Length(notes[k].content) <= CharCount(notes)
    decreases |notes|
  {
    if k > 0 {
      CharCountBounds(notes[1..], k - 1);
    }
  }

  /** The footer: total notes, pinned notes, categories and characters. */
  datatype Stats = Stats(total: nat, pinned: nat, categories: nat, characters: nat)

  /** The footer is shown only for a non-empty collection. */
  function FooterStats(notes: seq<Note>, categories: seq<string>): (r: Option<Stats>)
    ensures r.Some? <==> notes != []
    ensures r.Some? ==> r.value.pinned <= r.value.total == |notes| && r.value.categories == |categories|
  {
    if |notes| > 0 then Some(Stats(|notes|, PinnedCount(notes), |categories|, CharCount(notes))) else None
  }

  lemma {:induction false} InsertKeepsCounts(x: Note, s: seq<Note>)
    ensures PinnedCount(Insert(x, s)) == PinnedCount(s) + PinnedCount([x])
    ensures CharCount(Insert(x, s)) == CharCount(s) + CharCount([x])
    decreases |s|
  {
    if s == [] {
    } else {
      var init, last := s[..|s| - 1], s[|s| - 1];
      assert s == init + [last];
      PinnedCountSplit(init, [last]);
      CharCountSplit(init, [last]);
      if Before(x, last) {
        InsertKeepsCounts(x, init);
        PinnedCountSplit(Insert(x, init), [last]);
        CharCountSplit(Insert(x, init), [last]);
      } else {
        PinnedCountSplit(s, [x]);
        CharCountSplit(s, [x]);
      }
    }
  }

  lemma {:induction false} SortKeepsCounts(s: seq<Note>)
    ensures PinnedCount(SortNotes(s)) == PinnedCount(s)
    ensures CharCount(SortNotes(s)) == CharCount(s)
    decreases |s|
  {
    if s != [] {
      var init, last := s[..|s| - 1], s[|s| - 1];
      assert s == init + [last];
      SortKeepsCounts(init);
      InsertKeepsCounts(last, SortNotes(init));
      PinnedCountSplit(init, [last]);
      CharCountSplit(init, [last]);
    }
  }

  /** Sorting the collection in place leaves every footer figure as it was. */
  lemma SortKeepsStats(s: seq<Note>, categories: seq<string>)
    ensures FooterStats(SortNotes(s), categories) == FooterStats(s, categories)
  {
    SortPermutes(s);
    SortKeepsCounts(s);
  }

  /** The heading of the empty state, shown when no note is displayed. */
  function EmptyStateText(notes: seq<Note>, shown: seq<Note>): (t: Option<string>)
    ensures t.Some? <==> shown == []
    ensures t == Some("No notes yet") <==> shown == [] && notes == []
    ensures t == Some("No matching notes") <==> shown == [] && notes != []
  {
    if shown != [] then None
    else if notes == [] then Some("No notes yet")
    else Some("No matching notes")
  }

  /** "No notes yet" appears exactly when the collection is empty. */
  lemma EmptyStateOfView(notes: seq<Note>, f: Filters)
    ensures EmptyStateText(notes, View(notes, f)) == Some("No notes yet") <==> notes == []
  {
    FilteredIsVisible(notes, f);
    SortPermutes(Filtered(notes, f));
  }
}
