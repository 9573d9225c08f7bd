/**
 * An in-memory stand-in for the "notes" collection of the document database:
 * the four requests the notes page sends (add a document, update fields of a
 * document, delete a document, query by `userId`). Whether the backend
 * accepts a request (network, security rules) is a parameter.
 */
module NoteStore {
  import opened Seqs
  import opened NotesView

  /** How a request ends: it succeeds, or the call throws. */
  datatype Outcome = Done | Failed

  /** No two records share an id. */
  ghost predicate DistinctIds(s: seq<Note>) {
    forall i, j :: 0 <= i < j < |s| ==> s[i].id != s[j].id
  }

  predicate HasId(s: seq<Note>, id: NoteId) {
    exists i :: 0 <= i < |s| && s[i].id == id
  }

  /** `updateDoc(doc(id), {title, content})` on a list: the record with that id gets the new title and content. */
  function Revised(s: seq<Note>, id: NoteId, title: string, content: string): (r: seq<Note>)
    ensures |r| == |s|
    ensures forall i :: 0 <= i < |s| && s[i].id != id ==> r[i] == s[i]
    ensures forall i :: 0 <= i < |s| && s[i].id == id ==>
      r[i] == Note(id, s[i].userId, title, content, s[i].createdAt)
  {
    if s == [] then []
    else
      var head := if s[0].id == id then s[0].(title := title, content := content) else s[0];
      [head] + Revised(s[1..], id, title, content)
  }

  /** `deleteDoc(doc(id))` on a list: every record but the one with that id, in order. */
  function Without(s: seq<Note>, id: NoteId): seq<Note> {
    Filter(s, (n: Note) => n.id != id)
  }

  /** Deleting keeps ids distinct and removes `id` and nothing else. */
  lemma {:induction false} WithoutSpec(s: seq<Note>, id: NoteId)
    requires DistinctIds(s)
    ensures DistinctIds(Without(s, id))
    ensures !HasId(Without(s, id), id)
    ensures forall n :: n in Without(s, id) <==> n in s && n.id != id
    ensures |Without(s, id)| == if HasId(s, id) then |s| - 1 else |s|
  {
    if s != [] {
      WithoutSpec(s[1..], id);
      var rest := Without(s[1..], id);
      if s[0].id != id {
        assert Without(s, id) == [s[0]] + rest;
        assert HasId(s, id) ==> HasId(s[1..], id);
      } else {
        assert Without(s, id) == rest;
        assert !HasId(s[1..], id);
      }
    }
  }

  /** `after` is `before` with one record appended, under an id `before` does not use. */
  ghost predicate AddedOne(before: seq<Note>, after: seq<Note>, userId: string, title: string, content: string, createdAt: nat) {
    && |after| == |before| + 1
    && after[..|before|] == before
    && after[|before|].userId == userId && after[|before|].title == title
    && after[|before|].content == content && after[|before|].createdAt == createdAt
    && !HasId(before, after[|before|].id)
  }

  /** The records of one user, in store order: `query(collection, where("userId", "==", uid))`. */
  function OwnedBy(s: seq<Note>, uid: string): seq<Note> {
    Filter(s, (n: Note) => n.userId == uid)
  }

  /** A query returns exactly the records of that user, in store order. */
  lemma OwnedByExact(s: seq<Note>, uid: string)
    ensures IsSubsequence(OwnedBy(s, uid), s)
    ensures forall n :: n in OwnedBy(s, uid) <==> n in s && n.userId == uid
  {
    FilterIsSubsequence(s, (n: Note) => n.userId == uid);
  }

  class Store {
    var records: seq<Note>
    /** The next id `addDoc` hands out. */
    var nextId: NoteId

    ghost predicate Valid()
      reads this
    {
      && DistinctIds(records)
      && forall i :: 0 <= i < |records| ==> records[i].id < nextId
    }

    constructor (initial: seq<Note>, nextId: NoteId)
      requires DistinctIds(initial)
      requires forall i :: 0 <= i < |initial| ==> initial[i].id < nextId
      ensures Valid() && records == initial && this.nextId == nextId
    {
      records := initial;
      this.nextId := nextId;
    }

    /** The records a query for `uid` returns. */
    function Query(uid: string): seq<Note>
      reads this
    {
      OwnedBy(records, uid)
    }

    /** `addDoc`: a new record under a fresh id, appended to the collection. */
    method Add(userId: string, title: string, content: string, createdAt: nat, accepted: bool)
      returns (r: Outcome, id: NoteId)
      requires Valid()
      modifies this
      ensures Valid()
      ensures r == if accepted then Done else Failed
      ensures r == Done ==> !HasId(old(records), id)
      ensures r == Done ==> records == old(records) + [Note(id, userId, title, content, createdAt)]
      ensures r == Done ==> AddedOne(old(records), records, userId, title, content, createdAt)
      ensures r == Failed ==> unchanged(this)
    {
      id := nextId;
      if accepted {
        records := records + [Note(id, userId, title, content, createdAt)];
        assert records[..|old(records)|] == old(records);
        nextId := nextId + 1;
        r := Done;
      } else {
        r := Failed;
      }
    }

    /** `updateDoc`: fails when the document does not exist; otherwise only its title and content change. */
    method Update(id: NoteId, title: string, content: string, accepted: bool) returns (r: Outcome)
      requires Valid()
      modifies this
      ensures Valid()
      ensures r == Done <==> accepted && HasId(old(records), id)
      ensures r == Done ==> records == Revised(old(records), id, title, content) && nextId == old(nextId)
      ensures r == Failed ==> unchanged(this)
    {
      if accepted && HasId(records, id) {
        records := Revised(records, id, title, content);
        r := Done;
      } else {
        r := Failed;
      }
    }

    /** `deleteDoc`: removing an id that is not there still succeeds. */
    method Delete(id: NoteId, accepted: bool) returns (r: Outcome)
      requires Valid()
      modifies this
      ensures Valid()
      ensures r == if accepted then Done else Failed
      ensures records == if accepted then Without(old(records), id) else old(records)
      ensures nextId == old(nextId)
    {
      if accepted {
        WithoutSpec(records, id);
        records := Without(records, id);
        r := Done;
      } else {
        r := Failed;
      }
    }
  }
}
