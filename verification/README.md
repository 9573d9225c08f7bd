# Minty List: notes view-state and sign-in, modelled in Dafny

Minty List is a small note-taking web application whose storage and
authentication live in a hosted backend. This project models the two pieces
of its client logic that have behaviour of their own.

- **The notes page** (`src/app/notes/page.tsx`). This is its derived view
  and its event handlers:
  - the view is a case-insensitive search over title and content, a page
    count of ceil(n / 10) and a 10-note page slice;
  - the handlers are save (update or add, then clear the buffer and
    re-fetch), edit, delete (then re-fetch), the Prev and Next buttons, the
    search box, the form fields and the sign-in notification.
  The hosted "notes" collection is replaced by an in-memory store (`NoteStore.Store`)
  with the four requests the page sends. Whether the backend accepts a request is a
  `bool` parameter, and the clock (`new Date()`) is a `nat` parameter.
- **The sign-in page** (`src/app/login/page.tsx`). This is the empty-field
  check, the error-code-to-message table and the `error`/`loading`
  bookkeeping of one attempt. The sign-in call's answer is a parameter.

Files: `text.dfy` (`toLowerCase` on ASCII, `includes`, `trim`), `seqs.dfy`
(`filter`, `slice`, subsequences), `notes_view.dfy` (the pure derived view and the page-number
updates), `note_store.dfy` (the store), `notes_page.dfy` (the page as a class
whose methods update its state cells), `login.dfy`, `wrappers.dfy` (`Option`).

The model follows the code as written:
- Changing the search never resets or clamps `page` (src/app/notes/page.tsx:101,
  :143). A page past the last one is an empty slice rather than the last page
  (`PageOf`), so a narrowed search can list nothing while notes match
  (`NarrowSearch`, `StalePageListsNothing`). Next and Prev are only shown with
  more than one page (src/app/notes/page.tsx:205).
- `handleDelete` never touches `newNote` or `editingId`
  (src/app/notes/page.tsx:83-91). Deleting the note being edited leaves
  `editingId` pointing at a deleted record. The next save then fails, because
  updating a missing document fails (`DeleteWhileEditing`).
- The page's fetch has no `orderBy` (src/app/notes/page.tsx:48). The unused
  `getUserNotes` wrapper does have one (src/lib/notesServices.ts:27-31).
  `notes` holds the query result in store order.
- A write or fetch that throws skips the rest of the `try` block. The
  `finally` block still clears `loading`.

## Model

| member | source | states |
|---|---|---|
| Text.LowerStr | src/app/notes/page.tsx:95-96 | `toLowerCase` keeps the length and lower-cases every character |
| Text.Contains | src/app/notes/page.tsx:95-96 | `includes` is true exactly when some index starts an occurrence of the needle |
| Text.IsBlank | src/app/notes/page.tsx:56 | `!s.trim()` holds exactly when every character is ECMAScript whitespace |
| Seqs.Filter | src/app/notes/page.tsx:93-97 | `filter` keeps only elements that pass, keeps every element that passes, and adds nothing |
| Seqs.FilterAppend | src/app/notes/page.tsx:93-97 | filtering a concatenation is the concatenation of the filtered parts |
| Seqs.FilterCount | src/app/notes/page.tsx:93-97 | what `filter` keeps plus what the opposite filter keeps is the whole input, so together with `FilterIsSubsequence` it keeps every passing element, duplicates included |
| Seqs.FilterKeepsAll | src/app/notes/page.tsx:93-97 | a filter every element passes returns its input unchanged |
| Seqs.FilterIsSubsequence | src/app/notes/page.tsx:93-97 | the filter result is a subsequence of its input, in the same order |
| Seqs.Slice | src/app/notes/page.tsx:101 | `slice` with non-negative indices is the clamped sub-range, and is never longer than `end - start` |
| NotesView.FilteredNotesExact | src/app/notes/page.tsx:93-97 | `filteredNotes` holds exactly the notes whose lower-cased title or content includes the lower-cased search, as a subsequence of `notes` |
| NotesView.FilteredNotesAppend | src/app/notes/page.tsx:93-97 | the filter decides note by note: concatenation goes to concatenation, and one note is kept exactly when it matches |
| NotesView.EmptySearchKeepsAll | src/app/notes/page.tsx:93-97 | the empty search keeps every note, in order |
| NotesView.SearchIgnoresCase | src/app/notes/page.tsx:95-96 | searches that differ only in letter case select the same notes, and so does the lower-cased search |
| NotesView.TotalPages | src/app/notes/page.tsx:100 | `totalPages` is the fewest pages of 10 that hold all filtered notes, so 0 notes give 0 pages |
| NotesView.PaginatedNotes | src/app/notes/page.tsx:101 | the listed page holds at most 10 notes, each a note of `notes` that matches the search |
| NotesView.StalePageListsNothing | src/app/notes/page.tsx:101 | the page number is not clamped: page 2 of a one-note result lists nothing although the note matches |
| NotesView.PageOf | src/app/notes/page.tsx:101 | a page has at most 10 notes and is `filtered[(page-1)*10 .. min(page*10, n)]`; it is non-empty for pages 1..totalPages and empty beyond them |
| NotesView.PagesPrefix | src/app/notes/page.tsx:101 | the first k pages laid end to end are the first min(10k, n) filtered notes |
| NotesView.PagesCoverAll | src/app/notes/page.tsx:101 | pages 1..totalPages laid end to end give back the whole filtered list |
| NotesView.TwentyFiveNotes | src/app/notes/page.tsx:100-101 | 25 notes give 3 pages of 10, 10 and 5, and page 4 is empty rather than clamped |
| NotesView.PageControlsStayInRange | src/app/notes/page.tsx:205-221 | from a page in [1, totalPages], Prev and Next stay in that range; Prev at page 1 and Next at the last page change nothing |
| NoteStore.Revised | src/app/notes/page.tsx:62 | an update gives the record with that id the new title and content, keeps its owner and creation time, and leaves every other record as it was |
| NoteStore.WithoutSpec | src/app/notes/page.tsx:86 | a delete removes exactly the record with that id, keeps ids distinct, and does nothing when the id is absent |
| NoteStore.OwnedByExact | src/app/notes/page.tsx:48-50 | the query returns exactly the records whose `userId` is the uid, in store order |
| NoteStore.Store.Add | src/app/notes/page.tsx:64-68 | an accepted add appends one record under an id the store did not use; a rejected add changes nothing |
| NoteStore.Store.Update | src/app/notes/page.tsx:62 | an update succeeds exactly when it is accepted and the id exists, and then changes only that record's title and content |
| NoteStore.Store.Delete | src/app/notes/page.tsx:86 | an accepted delete removes the record, even when the id is absent; a rejected delete changes nothing |
| NotesPage.Page.constructor | src/app/notes/page.tsx:22-29 | the page starts with no notes, no user, an empty search and buffer, no edit target, not loading, on page 1 |
| NotesPage.Page.FetchNotes | src/app/notes/page.tsx:47-52 | a successful fetch replaces `notes` wholesale with the user's records, all owned by that user; a failed one leaves `notes`; nothing else changes |
| NotesPage.Page.SignIn | src/app/notes/page.tsx:33-37 | the sign-in notification sets `user` and fetches that user's notes; its notes all belong to the user when the fetch succeeds or the user did not change |
| NotesPage.Page.SignInClearingNotes | src/app/notes/page.tsx:33-37 | corrected sign-in: when the user changes, `notes` is emptied before the fetch, so every note the page holds belongs to the signed-in user whatever the fetch does |
| NotesPage.StaleNotesAfterUserSwitch | src/app/notes/page.tsx:33-37 | as written, user "a" signs in, then user "b" signs in and its fetch fails: the page shows "a"'s note under user "b" |
| NotesPage.Page.TotalPageCount | src/app/notes/page.tsx:100 | the page count for the current state is zero exactly when no note matches the search |
| NotesPage.Page.SetSearch | src/app/notes/page.tsx:143 | typing a search changes only `search`; `page` is not reset |
| NotesPage.Page.SetDraftTitle | src/app/notes/page.tsx:153 | typing a title changes only the buffer's title |
| NotesPage.Page.SetDraftContent | src/app/notes/page.tsx:159 | typing content changes only the buffer's content |
| NotesPage.Page.SendWrite | src/app/notes/page.tsx:61-69 | in edit mode the save updates that record; otherwise it adds a record with the user's uid and the save time |
| NotesPage.Page.WriteAndRefetch | src/app/notes/page.tsx:59-75 | after the guard: a failed write leaves the page and the store as they were; a successful write empties the buffer, leaves edit mode and re-fetches; `loading` ends false |
| NotesPage.Page.HandleSave | src/app/notes/page.tsx:54-76 | with no user or a blank title or content, nothing changes and nothing is written; otherwise as `WriteAndRefetch`, with `loading` false on every path; every note the page holds still belongs to the signed-in user |
| NotesPage.Page.HandleEdit | src/app/notes/page.tsx:78-81 | edit copies the note's title and content into the buffer and its id into `editingId`, and leaves `notes` alone |
| NotesPage.Page.HandleDelete | src/app/notes/page.tsx:83-91 | delete removes the record, re-fetches when a user is signed in, never touches the buffer or `editingId`, ends with `loading` false, and keeps every held note owned by the signed-in user |
| NotesPage.Page.Prev | src/app/notes/page.tsx:208 | Prev sets `page` to max(1, page - 1) and changes nothing else |
| NotesPage.Page.Next | src/app/notes/page.tsx:216 | Next sets `page` to min(totalPages, page + 1) and changes nothing else |
| NotesPage.GroceriesSession | src/app/notes/page.tsx:54-91 | sign in with no notes, add "Groceries"/"Milk, eggs": one note with that owner, text and timestamp is listed; delete it: none is |
| NotesPage.NarrowSearch | src/app/notes/page.tsx:101 | narrowing the search while on a page past the new last page keeps `page`, so nothing is listed although notes match |
| NotesPage.DeleteWhileEditing | src/app/notes/page.tsx:78-91 | deleting the note under edit leaves `editingId` on a missing record, so the next save fails and keeps the buffer |
| Login.ErrorMessage | src/app/login/page.tsx:26-49 | the five mapped codes give their fixed messages; any other code gives the error's message, or the generic one if that is empty; no code gives the generic message; the result is never empty |
| Login.LoginForm.constructor | src/app/login/page.tsx:10-13 | the form starts with empty fields, no error and not loading |
| Login.LoginForm.SetEmail | src/app/login/page.tsx:87 | typing an email changes only `email` |
| Login.LoginForm.SetPassword | src/app/login/page.tsx:99 | typing a password changes only `password` |
| Login.LoginForm.HandleLogin | src/app/login/page.tsx:15-53 | an empty field shows "Please enter email and password" and never calls sign-in; a successful sign-in leaves no error and navigates; a failed one shows `ErrorMessage`; `loading` ends false every time |

## Findings

| source | as written | input that shows it | evidently intended | confidence | as-written member | corrected member |
|---|---|---|---|---|---|---|
| src/app/notes/page.tsx:33-37 | a sign-in notification sets `user`, then fetches; a failed fetch leaves the previous user's `notes` | store holds one note of "a"; "a" signs in, fetch succeeds; "b" signs in, fetch fails: the page shows "a"'s note while the user is "b" | the page only ever holds the signed-in user's notes | medium, not executed | NotesPage.StaleNotesAfterUserSwitch | NotesPage.Page.SignInClearingNotes |

## Left out

- Rendering, styling and the loading overlays of all pages: presentation only.
- `checkingAuth`, the signed-out branch of the auth notification (`router.replace`), `signOut` and `router.push`. A successful sign-in is reported by `HandleLogin`'s `navigated` result.
- `src/app/signup/page.tsx`, `src/app/forgot-password/page.tsx` and `src/lib/notesServices.ts` are not part of this model. The notes page does not call the service wrappers.
- Backend behaviour. Each request's success is a parameter, so the model does not cover security rules, network faults, or a write that lands but reports failure.
- NoteStore.OwnedByExact: results come back in insertion order. The backend's own default order (by document id) is not modelled, and neither are string document ids: ids are numbers from a counter.
- `new Date()` is the `now` parameter, so `createdAt` is an opaque number.
- `toLowerCase` is modelled on ASCII letters only, without full Unicode case mapping.
- Only the five fields the page uses are modelled. `...d.data()` could carry other stored fields.
- Async interleaving. Each handler runs to completion, so races between overlapping fetches are not modelled, and neither is `loading` being true while a request is in flight. Only its value when a handler ends is stated. The disabled Save button while loading is not modelled either.
- NotesPage.Page.Next: requires more than one page, because the button is only rendered then. `page` therefore never drops below 1.
- Seqs.Slice: no contract covers negative indices (counted from the end, as in JavaScript). The body models them, but the page never passes one, because `page` stays at least 1.
- Text.Trim: states that the result is no longer than the input and neither starts nor ends with whitespace. It does not state outright that the result is the middle slice of the input. That follows from `TrimStart` (a suffix) and `TrimEnd` (a prefix).
