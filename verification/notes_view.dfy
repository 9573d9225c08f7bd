/**
 * The notes page's derived view: the search filter, the page count and the
 * page slice, recomputed from `notes`, `search` and `page` on every render,
 * and the page-number updates behind the Prev and Next buttons.
 */
module NotesView {
  import opened Text
  import opened Seqs

  /** A document id; the store issues them. */
  type NoteId = nat

  /** A note record: the document id spread together with the stored fields. */
  datatype Note = Note(id: NoteId, userId: string, title: string, content: string, createdAt: nat)

  /** NOTES_PER_PAGE. */
  const PageSize: nat := 10

  /** A note matches when its lower-cased title or lower-cased content includes the lower-cased search. */
  predicate Matches(n: Note, search: string) {
    var q := LowerStr(search);
    Contains(LowerStr(n.title), q) || Contains(LowerStr(n.content), q)
  }

  function MatchesSearch(search: string): Note -> bool {
    n => Matches(n, search)
  }

  /** `filteredNotes`. */
  function FilteredNotes(notes: seq<Note>, search: string): seq<Note> {
    Filter(notes, MatchesSearch(search))
  }

  /** The filtered list holds exactly the matching notes, in the order `notes` has them. */
  lemma FilteredNotesExact(notes: seq<Note>, search: string)
    ensures IsSubsequence(FilteredNotes(notes, search), notes)
    ensures forall n :: n in FilteredNotes(notes, search) <==> n in notes && Matches(n, search)
  {
    FilterIsSubsequence(notes, MatchesSearch(search));
  }

  /** Filtering works note by note: a concatenation filters to the concatenation of the filtered parts. */
  lemma FilteredNotesAppend(a: seq<Note>, b: seq<Note>, search: string)
    ensures FilteredNotes(a + b, search) == FilteredNotes(a, search) + FilteredNotes(b, search)
    ensures FilteredNotes([], search) == []
    ensures forall n :: FilteredNotes([n], search) == if Matches(n, search) then [n] else []
  {
    FilterAppend(a, b, MatchesSearch(search));
  }

  /** An empty search keeps every note. */
  lemma EmptySearchKeepsAll(notes: seq<Note>)
    ensures FilteredNotes(notes, "") == notes
  {
    forall i | 0 <= i < |notes|
      ensures Matches(notes[i], "")
    {
      ContainsEmpty(LowerStr(notes[i].title));
    }
    FilterKeepsAll(notes, MatchesSearch(""));
  }

  /** Two searches that differ only in letter case select the same notes. */
  lemma {:induction false} SearchIgnoresCase(notes: seq<Note>, s1: string, s2: string)
    requires LowerStr(s1) == LowerStr(s2)
    ensures FilteredNotes(notes, s1) == FilteredNotes(notes, s2)
    ensures FilteredNotes(notes, s1) == FilteredNotes(notes, LowerStr(s1))
  {
    LowerStrIdempotent(s1);
    if notes != [] {
      SearchIgnoresCase(notes[1..], s1, s2);
    }
  }

  /** `totalPages`: Math.ceil(count / NOTES_PER_PAGE), the fewest pages that hold `count` notes. */
  function TotalPages(count: nat): (r: nat)
    ensures count <= r * PageSize
    ensures r == 0 || (r - 1) * PageSize < count
  {
    (count + PageSize - 1) / PageSize
  }

  /**
   * Page `page` (1-based) of `f`: `f.slice((page - 1) * NOTES_PER_PAGE, page * NOTES_PER_PAGE)`.
   * It holds at most a page of notes, is never empty inside the page range and always
   * empty beyond it.
   */
  function PageOf<T>(f: seq<T>, page: int): (r: seq<T>)
    ensures |r| <= PageSize
    ensures page >= 1 ==> r == f[Min((page - 1) * PageSize, |f|)..Min(page * PageSize, |f|)]
    ensures page > TotalPages(|f|) ==> r == []
    ensures 1 <= page <= TotalPages(|f|) ==> r != []
  {
    Slice(f, (page - 1) * PageSize, page * PageSize)
  }

  /** `paginatedNotes`: what the page lists, at most a page of matching notes taken from `notes`. */
  function PaginatedNotes(notes: seq<Note>, search: string, page: int): (r: seq<Note>)
    ensures |r| <= PageSize
    ensures forall n :: n in r ==> n in notes && Matches(n, search)
  {
    FilteredNotesExact(notes, search);
    PageOf(FilteredNotes(notes, search), page)
  }

  /** Pages 1 to `count` of `f`, in order. */
  function Pages<T>(f: seq<T>, count: nat): (ps: seq<seq<T>>)
    ensures |ps| == count
  {
    if count == 0 then [] else Pages(f, count - 1) + [PageOf(f, count)]
  }

  /** The first `k` pages, laid end to end, are the first `k` pages' worth of `f`. */
  lemma {:induction false} PagesPrefix<T>(f: seq<T>, k: nat)
    ensures Flatten(Pages(f, k)) == f[..Min(k * PageSize, |f|)]
  {
    if k > 0 {
      PagesPrefix(f, k - 1);
      var ps := Pages(f, k);
      assert ps[..k - 1] == Pages(f, k - 1);
      var a, b := Min((k - 1) * PageSize, |f|), Min(k * PageSize, |f|);
      assert f[..a] + f[a..b] == f[..b];
    }
  }

  /** Pages 1 to `totalPages`, laid end to end, give back the whole filtered list. */
  lemma PagesCoverAll<T>(f: seq<T>)
    ensures Flatten(Pages(f, TotalPages(|f|))) == f
  {
    PagesPrefix(f, TotalPages(|f|));
  }

  /** 25 matching notes make three pages of 10, 10 and 5; a fourth page is empty, not clamped. */
  lemma TwentyFiveNotes<T>(f: seq<T>)
    requires |f| == 25
    ensures TotalPages(|f|) == 3
    ensures |PageOf(f, 1)| == 10 && |PageOf(f, 2)| == 10 && |PageOf(f, 3)| == 5
    ensures PageOf(f, 4) == []
  {
  }

  /** One matching note, for `StalePageListsNothing`. */
  const SampleNote := Note(0, "u", "Groceries", "Milk, eggs", 0)

  /** The page number is not clamped: page 2 of a one-note result lists nothing although the note matches. */
  lemma StalePageListsNothing()
    ensures FilteredNotes([SampleNote], "") == [SampleNote]
    ensures PaginatedNotes([SampleNote], "", 2) == []
  {
    EmptySearchKeepsAll([SampleNote]);
  }

  /** The Prev button's update, `Math.max(1, p - 1)`. */
  function PrevPage(p: int): int {
    Max(1, p - 1)
  }

  /** The Next button's update, `Math.min(totalPages, p + 1)`. */
  function NextPage(p: int, total: int): int {
    Min(total, p + 1)
  }

  /** Prev and Next keep a page in range in range, and stop at the first and the last page. */
  lemma PageControlsStayInRange(p: int, total: int)
    requires 1 <= p <= total
    ensures 1 <= PrevPage(p) <= total && 1 <= NextPage(p, total) <= total
    ensures PrevPage(p) == if p == 1 then p else p - 1
    ensures NextPage(p, total) == if p == total then p else p + 1
  {
  }
}
