/**
 * The notes page's state and event handlers: the state cells `notes`,
 * `search`, `user`, `newNote`, `editingId`, `loading` and `page`, and the
 * handlers that update them around requests to the note store.
 */
module NotesPage {
  import opened Wrappers
  import opened Text
  import opened NotesView
  import opened NoteStore

  /** The signed-in user, as far as the page uses it. */
  datatype User = User(uid: string)

  /** `newNote`: the form's edit buffer. */
  datatype Draft = Draft(title: string, content: string)

  const EmptyDraft := Draft("", "")

  /**
   * How `handleSave` ends: it returned early, the write threw, the write
   * succeeded but the re-fetch threw, or everything succeeded.
   */
  datatype SaveResult = Skipped | WriteFailed | FetchFailed | Saved

  /** How `handleDelete` ends; `Deleted` covers the case with no user, where nothing is re-fetched. */
  datatype DeleteResult = DeleteFailed | RefetchFailed | Deleted

  class Page {
    /** The remote "notes" collection. */
    const store: Store
    var notes: seq<Note>
    var search: string
    var user: Option<User>
    var draft: Draft
    var editingId: Option<NoteId>
    var loading: bool
    var page: int

    ghost predicate Valid()
      reads this, store
    {
      store.Valid() && page >= 1
    }

    constructor (store: Store)
      requires store.Valid()
      ensures Valid() && this.store == store
      ensures notes == [] && search == "" && user == None && draft == EmptyDraft
      ensures editingId == None && !loading && page == 1
    {
      this.store := store;
      notes, search, user, draft := [], "", None, EmptyDraft;
      editingId, loading, page := None, false, 1;
    }

    /** `totalPages` for the current state: zero exactly when no note matches the search. */
    function TotalPageCount(): (r: nat)
      reads this
      ensures r == 0 <==> forall n :: n in notes ==> !Matches(n, search)
    {
      FilteredNotesExact(notes, search);
      TotalPages(|FilteredNotes(notes, search)|)
    }

    /** Every note the page holds belongs to the signed-in user. */
    ghost predicate OwnsNotes()
      reads this
    {
      user.Some? ==> forall n :: n in notes ==> n.userId == user.value.uid
    }

    /** `fetchNotes`: replaces `notes` wholesale with the records the store holds for `uid`. */
    method FetchNotes(uid: string, accepted: bool) returns (r: Outcome)
      requires Valid()
      modifies this
      ensures Valid()
      ensures r == if accepted then Done else Failed
      ensures notes == if accepted then store.Query(uid) else old(notes)
      ensures accepted ==> forall n :: n in notes ==> n.userId == uid
      ensures old(OwnsNotes()) && (user.Some? ==> user.value.uid == uid) ==> OwnsNotes()
      ensures search == old(search) && user == old(user) && draft == old(draft)
      ensures editingId == old(editingId) && loading == old(loading) && page == old(page)
    {
      if accepted {
        OwnedByExact(store.records, uid);
        notes := store.Query(uid);
        r := Done;
      } else {
        r := Failed;
      }
    }

    /** The sign-in notification: records the user and fetches that user's notes. */
    method SignIn(u: User, fetchAccepted: bool)
      requires Valid()
      modifies this
      ensures Valid()
      ensures user == Some(u)
      ensures notes == if fetchAccepted then store.Query(u.uid) else old(notes)
      ensures fetchAccepted || (old(OwnsNotes()) && old(user) == Some(u)) ==> OwnsNotes()
      ensures search == old(search) && draft == old(draft) && editingId == old(editingId)
      ensures loading == old(loading) && page == old(page)
    {
      user := Some(u);
      var _ := FetchNotes(u.uid, fetchAccepted);
    }

    /**
     * The sign-in notification with the stale list dropped: when the user
     * changes, `notes` is emptied before the fetch, so a failed fetch cannot
     * leave another user's notes on the page.
     */
    method SignInClearingNotes(u: User, fetchAccepted: bool)
      requires Valid()
      modifies this
      ensures Valid()
      ensures user == Some(u)
      ensures old(OwnsNotes()) ==> OwnsNotes()
      ensures fetchAccepted ==> notes == store.Query(u.uid)
      ensures !fetchAccepted ==> notes == if old(user) == Some(u) then old(notes) else []
      ensures search == old(search) && draft == old(draft) && editingId == old(editingId)
      ensures loading == old(loading) && page == old(page)
    {
      if user != Some(u) {
        notes := [];
      }
      user := Some(u);
      var _ := FetchNotes(u.uid, fetchAccepted);
    }

    /** Typing in the search box; the page number is left as it is. */
    method SetSearch(s: string)
      modifies this
      ensures search == s
      ensures notes == old(notes) && user == old(user) && draft == old(draft)
      ensures editingId == old(editingId) && loading == old(loading) && page == old(page)
      ensures OwnsNotes() == old(OwnsNotes())
    {
      search := s;
    }

    /** Typing in the title field. */
    method SetDraftTitle(title: string)
      modifies this
      ensures draft == old(draft).(title := title)
      ensures notes == old(notes) && search == old(search) && user == old(user)
      ensures editingId == old(editingId) && loading == old(loading) && page == old(page)
      ensures OwnsNotes() == old(OwnsNotes())
    {
      draft := draft.(title := title);
    }

    /** Typing in the content field. */
    method SetDraftContent(content: string)
      modifies this
      ensures draft == old(draft).(content := content)
      ensures notes == old(notes) && search == old(search) && user == old(user)
      ensures editingId == old(editingId) && loading == old(loading) && page == old(page)
      ensures OwnsNotes() == old(OwnsNotes())
    {
      draft := draft.(content := content);
    }

    /** Whether the write `handleSave` would send succeeds. */
    ghost predicate WriteSucceeds(writeAccepted: bool)
      reads this, store
    {
      writeAccepted && (editingId.Some? ==> HasId(store.records, editingId.value))
    }

    /** The write `handleSave` sends: `updateDoc` in edit mode, `addDoc` otherwise. */
    method SendWrite(now: nat, writeAccepted: bool) returns (w: Outcome)
      requires Valid() && user.Some?
      modifies store
      ensures Valid()
      ensures w == Done <==> old(WriteSucceeds(writeAccepted))
      ensures w == Failed ==> unchanged(store)
      ensures w == Done && editingId.Some? ==>
        store.records == Revised(old(store.records), editingId.value, draft.title, draft.content)
      ensures w == Done && editingId.None? ==>
        AddedOne(old(store.records), store.records, user.value.uid, draft.title, draft.content, now)
    {
      if editingId.Some? {
        w := store.Update(editingId.value, draft.title, draft.content, writeAccepted);
      } else {
        var newId;
        w, newId := store.Add(user.value.uid, draft.title, draft.content, now, writeAccepted);
      }
    }

    /** The steps of `handleSave` after its guard: write, clear the buffer, re-fetch. */
    method WriteAndRefetch(now: nat, writeAccepted: bool, fetchAccepted: bool) returns (r: SaveResult)
      requires Valid() && user.Some?
      modifies this, store
      ensures Valid()
      ensures !loading
      ensures r != Skipped
      ensures r == WriteFailed <==> !old(WriteSucceeds(writeAccepted))
      ensures r == WriteFailed ==> unchanged(store)
      ensures r == WriteFailed ==> notes == old(notes) && draft == old(draft) && editingId == old(editingId)
      ensures r == Saved <==> old(WriteSucceeds(writeAccepted)) && fetchAccepted
      ensures (r == Saved || r == FetchFailed) && old(editingId).Some? ==>
        store.records == Revised(old(store.records), old(editingId).value, old(draft).title, old(draft).content)
      ensures (r == Saved || r == FetchFailed) && old(editingId).None? ==>
        AddedOne(old(store.records), store.records, old(user).value.uid, old(draft).title, old(draft).content, now)
      ensures r == Saved || r == FetchFailed ==> draft == EmptyDraft && editingId == None
      ensures r == Saved ==> notes == store.Query(old(user).value.uid)
      ensures r == FetchFailed ==> notes == old(notes)
      ensures search == old(search) && user == old(user) && page == old(page)
      ensures old(OwnsNotes()) ==> OwnsNotes()
    {
      loading := true;
      var w := SendWrite(now, writeAccepted);
      if w == Failed {
        loading := false;
        return WriteFailed;
      }
      draft := EmptyDraft;
      editingId := None;
      var f := FetchNotes(user.value.uid, fetchAccepted);
      loading := false;
      r := if f == Done then Saved else FetchFailed;
    }

    /**
     * `handleSave`: with no user or a blank title or content it does nothing;
     * otherwise it updates the note being edited or adds a new one, then
     * empties the buffer, leaves edit mode and re-fetches.
     */
    method HandleSave(now: nat, writeAccepted: bool, fetchAccepted: bool) returns (r: SaveResult)
      requires Valid()
      modifies this, store
      ensures Valid()
      ensures r == Skipped <==> old(user).None? || IsBlank(old(draft).title) || IsBlank(old(draft).content)
      ensures r == Skipped ==> unchanged(this, store)
      ensures r != Skipped ==> !loading
      ensures r == WriteFailed <==> r != Skipped && !old(WriteSucceeds(writeAccepted))
      ensures r == WriteFailed ==> unchanged(store)
      ensures r == WriteFailed ==> notes == old(notes) && draft == old(draft) && editingId == old(editingId)
      ensures r == Saved <==> r != Skipped && old(WriteSucceeds(writeAccepted)) && fetchAccepted
      ensures (r == Saved || r == FetchFailed) && old(editingId).Some? ==>
        store.records == Revised(old(store.records), old(editingId).value, old(draft).title, old(draft).content)
      ensures (r == Saved || r == FetchFailed) && old(editingId).None? ==>
        AddedOne(old(store.records), store.records, old(user).value.uid, old(draft).title, old(draft).content, now)
      ensures r == Saved || r == FetchFailed ==> draft == EmptyDraft && editingId == None
      ensures r == Saved ==> notes == store.Query(old(user).value.uid)
      ensures r == FetchFailed ==> notes == old(notes)
      ensures search == old(search) && user == old(user) && page == old(page)
      ensures old(OwnsNotes()) ==> OwnsNotes()
    {
      if user.None? || IsBlank(draft.title) || IsBlank(draft.content) {
        return Skipped;
      }
      r := WriteAndRefetch(now, writeAccepted, fetchAccepted);
    }

    /** `handleEdit`: loads a note into the buffer and enters edit mode for it. */
    method HandleEdit(note: Note)
      modifies this
      ensures draft == Draft(note.title, note.content) && editingId == Some(note.id)
      ensures notes == old(notes) && search == old(search) && user == old(user)
      ensures loading == old(loading) && page == old(page)
      ensures OwnsNotes() == old(OwnsNotes())
    {
      draft := Draft(note.title, note.content);
      editingId := Some(note.id);
    }

    /**
     * `handleDelete`: removes the record and, when a user is signed in,
     * re-fetches. The buffer and the edit target are left alone, even when
     * the deleted note is the one being edited.
     */
    method HandleDelete(id: NoteId, deleteAccepted: bool, fetchAccepted: bool) returns (r: DeleteResult)
      requires Valid()
      modifies this, store
      ensures Valid()
      ensures !loading
      ensures store.records == if deleteAccepted then Without(old(store.records), id) else old(store.records)
      ensures r == DeleteFailed <==> !deleteAccepted
      ensures r == RefetchFailed <==> deleteAccepted && old(user).Some? && !fetchAccepted
      ensures notes == if r == Deleted && old(user).Some? then store.Query(old(user).value.uid) else old(notes)
      ensures draft == old(draft) && editingId == old(editingId)
      ensures search == old(search) && user == old(user) && page == old(page)
      ensures old(OwnsNotes()) ==> OwnsNotes()
    {
      loading := true;
      var d := store.Delete(id, deleteAccepted);
      if d == Failed {
        loading := false;
        return DeleteFailed;
      }
      r := Deleted;
      if user.Some? {
        var f := FetchNotes(user.value.uid, fetchAccepted);
        if f == Failed {
          r := RefetchFailed;
        }
      }
      loading := false;
    }

    /** The Prev button. */
    method Prev()
      requires Valid()
      modifies this
      ensures Valid()
      ensures page == PrevPage(old(page))
      ensures notes == old(notes) && search == old(search) && user == old(user)
      ensures draft == old(draft) && editingId == old(editingId) && loading == old(loading)
      ensures OwnsNotes() == old(OwnsNotes())
    {
      page := PrevPage(page);
    }

    /** The Next button, which is only shown when there is more than one page. */
    method Next()
      requires Valid() && TotalPageCount() > 1
      modifies this
      ensures Valid()
      ensures page == NextPage(old(page), old(TotalPageCount()))
      ensures notes == old(notes) && search == old(search) && user == old(user)
      ensures draft == old(draft) && editingId == old(editingId) && loading == old(loading)
      ensures OwnsNotes() == old(OwnsNotes())
    {
      page := NextPage(page, TotalPageCount());
    }
  }

  /**
   * A session: a user with no notes signs in, adds "Groceries" / "Milk, eggs"
   * and sees that one note, then deletes it and sees none.
   */
  method GroceriesSession() returns (afterSave: seq<Note>, afterDelete: seq<Note>)
    ensures |afterSave| == 1
    ensures afterSave[0].userId == "u1" && afterSave[0].title == "Groceries"
    ensures afterSave[0].content == "Milk, eggs" && afterSave[0].createdAt == 7
    ensures afterDelete == []
  {
    var store := new Store([], 0);
    var p := new Page(store);
    p.SignInClearingNotes(User("u1"), true);
    p.SetDraftTitle("Groceries");
    p.SetDraftContent("Milk, eggs");
    afterSave := SaveFirstNote(p);
    var deleted := p.HandleDelete(afterSave[0].id, true, true);
    assert p.store.records == [];
    afterDelete := p.notes;
  }

  /** The save step of `GroceriesSession`, against an empty store. */
  method SaveFirstNote(p: Page) returns (notes: seq<Note>)
    requires p.Valid() && p.user == Some(User("u1")) && p.store.records == []
    requires p.draft == Draft("Groceries", "Milk, eggs") && p.editingId == None
    modifies p, p.store
    ensures p.Valid() && p.user == Some(User("u1"))
    ensures notes == p.notes == p.store.records
    ensures |notes| == 1 && notes[0].userId == "u1" && notes[0].title == "Groceries"
    ensures notes[0].content == "Milk, eggs" && notes[0].createdAt == 7
  {
    assert !IsWhitespace("Groceries"[0]) && !IsWhitespace("Milk, eggs"[0]);
    var saved := p.HandleSave(7, true, true);
    assert p.store.records == [p.store.records[0]];
    notes := p.notes;
  }

  /**
   * Deleting the note being edited leaves the page in edit mode for an id
   * the store no longer has, so the next save fails and keeps the buffer.
   */
  method DeleteWhileEditing(p: Page, n: Note, fetchAccepted: bool, now: nat, writeAccepted: bool)
    returns (r: SaveResult)
    requires p.Valid() && p.user.Some?
    requires !IsBlank(n.title) && !IsBlank(n.content)
    modifies p, p.store
    ensures p.editingId == Some(n.id) && !HasId(p.store.records, n.id)
    ensures r == WriteFailed
    ensures p.draft == Draft(n.title, n.content)
  {
    p.HandleEdit(n);
    ghost var before := p.store.records;
    var d := p.HandleDelete(n.id, true, fetchAccepted);
    WithoutSpec(before, n.id);
    assert !HasId(p.store.records, n.id);
    assert p.editingId == Some(n.id) && p.draft == Draft(n.title, n.content);
    r := p.HandleSave(now, writeAccepted, fetchAccepted);
  }

  /**
   * As written, a sign-in notification for a second user whose fetch fails
   * leaves the first user's notes on the page under the second user.
   */
  method StaleNotesAfterUserSwitch() returns (shown: seq<Note>, current: Option<User>)
    ensures current == Some(User("b"))
    ensures |shown| == 1 && shown[0].userId == "a"
  {
    var store := new Store([Note(0, "a", "t", "c", 1)], 1);
    var p := new Page(store);
    p.SignIn(User("a"), true);
    assert p.notes == [Note(0, "a", "t", "c", 1)];
    p.SignIn(User("b"), false);
    shown, current := p.notes, p.user;
  }

  /**
   * Narrowing the search while on a later page: `page` stays where it was,
   * so the page lists nothing although some notes match.
   */
  method NarrowSearch(p: Page, s: string)
    requires p.Valid()
    requires FilteredNotes(p.notes, s) != [] && p.page > TotalPages(|FilteredNotes(p.notes, s)|)
    modifies p
    ensures p.Valid() && p.search == s && p.page == old(p.page)
    ensures FilteredNotes(p.notes, p.search) != []
    ensures PaginatedNotes(p.notes, p.search, p.page) == []
  {
    p.SetSearch(s);
  }
}
