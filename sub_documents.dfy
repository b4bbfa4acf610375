/**
 * Sub-documents embedded in invoices, quotations and business accounts:
 * follow-up entries (the same `followUpSchema` in models/Invoice.js,
 * models/Quotation.js and models/BusinessAccount.js), notes and item
 * specifications, with the list operations the handlers apply to them.
 */
module SubDocuments {
  import opened Wrappers
  import opened Table

  datatype FollowUpStatus = Pending | Completed

  /**
   * A follow-up entry. `date` and `note` are required; `addedBy` references
   * a user; `status` defaults to pending. The `createdAt` clock default is
   * not modelled.
   */
  datatype FollowUp = FollowUp(date: string, note: string, addedBy: Option<Id>, status: FollowUpStatus)

  /** What the schema's `required` flags demand of an entry (Mongoose rejects an empty string as missing). */
  predicate FollowUpWellFormed(f: FollowUp) {
    f.date != "" && f.note != ""
  }

  /** The entry `push({ date, note, addedBy })` creates: status takes its default. */
  function NewFollowUp(date: string, note: string, addedBy: Id): FollowUp {
    FollowUp(date, note, Some(addedBy), Pending)
  }

  /** A scalar field the handlers store as given (the schemas' plain `String` and `Number` fields). */
  datatype Scalar = Text(text: string) | Number(number: real)

  /** `{ name, value }` of an item's `specifications` list. */
  datatype Specification = Specification(name: Option<string>, value: Option<string>)

  /**
   * A note. Each note carries its own identifier, which the note routes
   * address; `createdBy` is the author the add routes record and
   * `timestamp` the clock value the update route writes.
   */
  datatype Note = Note(id: Id, text: Option<string>, timestamp: Option<int>, createdBy: Option<Id>)

  /** `splice(i, 1)`: the list without its entry at `i`, the others in their order. */
  function RemoveAt<T>(s: seq<T>, i: nat): (r: seq<T>)
    requires i < |s|
    ensures |r| == |s| - 1
    ensures forall j :: 0 <= j < i ==> r[j] == s[j]
    ensures forall j :: i <= j < |r| ==> r[j] == s[j + 1]
  {
    s[..i] + s[i + 1..]
  }

  /** Appending an entry and then removing the last one gives back the list. */
  lemma AppendThenRemoveLast<T>(s: seq<T>, x: T)
    ensures RemoveAt(s + [x], |s|) == s
  {
  }

  /** The follow-up at `i` with a new date and note; its status and author stay. */
  function Rescheduled(fs: seq<FollowUp>, i: nat, date: string, note: string): (r: seq<FollowUp>)
    requires i < |fs|
    ensures |r| == |fs|
    ensures r[i].date == date && r[i].note == note
    ensures r[i].status == fs[i].status && r[i].addedBy == fs[i].addedBy
    ensures forall j :: 0 <= j < |fs| && j != i ==> r[j] == fs[j]
  {
    fs[i := fs[i].(date := date, note := note)]
  }

  /** The position of the first note with identifier `noteId`: what the positional operator `notes.$` selects. */
  function FirstNote(notes: seq<Note>, noteId: Id): (r: Option<nat>)
    ensures r.Some? ==> r.value < |notes| && notes[r.value].id == noteId
    ensures r.Some? ==> forall j :: 0 <= j < r.value ==> notes[j].id != noteId
    ensures r.None? <==> forall j :: 0 <= j < |notes| ==> notes[j].id != noteId
  {
    if notes == [] then None
    else if notes[0].id == noteId then Some(0)
    else match FirstNote(notes[1..], noteId)
      case None => None
      case Some(j) => Some(j + 1)
  }

  /**
   * `$set` of `notes.$.text` and `notes.$.timestamp`: the first note with
   * that identifier gets the new text (an absent text is dropped from the
   * update and the old one kept) and the time stamp; the others are left.
   */
  function Retexted(notes: seq<Note>, noteId: Id, text: Option<string>, now: int): (r: seq<Note>)
    ensures |r| == |notes|
    ensures FirstNote(notes, noteId).None? ==> r == notes
    ensures FirstNote(notes, noteId).Some? ==>
      var k := FirstNote(notes, noteId).value;
      && r[k] == Note(noteId, if text.Some? then text else notes[k].text, Some(now), notes[k].createdBy)
      && forall j :: 0 <= j < |notes| && j != k ==> r[j] == notes[j]
  {
    match FirstNote(notes, noteId)
    case None => notes
    case Some(k) => notes[k := notes[k].(text := if text.Some? then text else notes[k].text, timestamp := Some(now))]
  }

  /** `$pull: { notes: { _id: noteId } }`: every note with that identifier goes, the rest keep their order. */
  function Pulled(notes: seq<Note>, noteId: Id): (r: seq<Note>)
    ensures |r| <= |notes|
    ensures forall k :: 0 <= k < |r| ==> r[k].id != noteId && r[k] in notes
    ensures forall j :: 0 <= j < |notes| && notes[j].id != noteId ==> notes[j] in r
  {
    if notes == [] then []
    else
      var rest := Pulled(notes[1..], noteId);
      assert forall j :: 1 <= j < |notes| ==> notes[j] == notes[1..][j - 1];
      if notes[0].id == noteId then rest else [notes[0]] + rest
  }

  /** Pulling distributes over concatenation, so the notes that stay keep their relative order. */
  lemma {:induction false} PulledAppend(a: seq<Note>, b: seq<Note>, noteId: Id)
    ensures Pulled(a + b, noteId) == Pulled(a, noteId) + Pulled(b, noteId)
  {
    if a != [] {
      assert (a + b)[1..] == a[1..] + b;
      PulledAppend(a[1..], b, noteId);
    } else {
      assert a + b == b;
    }
  }

  /** Pulling an identifier that no note carries leaves the list as it was. */
  lemma {:induction false} PulledAbsent(notes: seq<Note>, noteId: Id)
    requires forall j :: 0 <= j < |notes| ==> notes[j].id != noteId
    ensures Pulled(notes, noteId) == notes
  {
    if notes != [] {
      PulledAbsent(notes[1..], noteId);
    }
  }

  /** Pulling the same identifier again changes nothing more. */
  lemma PulledIdempotent(notes: seq<Note>, noteId: Id)
    ensures Pulled(Pulled(notes, noteId), noteId) == Pulled(notes, noteId)
  {
    PulledAbsent(Pulled(notes, noteId), noteId);
  }
}
