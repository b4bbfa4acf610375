/**
 * The business account handlers of controllers/businessAccountController.js
 * that carry logic: `create`, the lead and customer filters, and the
 * follow-up ledger (`addFollowUp`, `updateFollowUp`, `deleteFollowUp`),
 * which loads an account, edits its `followUps` list in place and saves it.
 */
module BusinessAccountController {
  import opened Wrappers
  import opened Table
  import opened JsText
  import opened SubDocuments
  import opened BusinessAccountModel

  const ValidationFailed: string := "BusinessAccount validation failed"
  const FieldsRequired: string := "Date, note, and addedBy are required"
  const AccountNotFound: string := "Account not found"
  const FollowUpNotFound: string := "Follow-up not found"
  const AddFailed: string := "Failed to add follow-up"
  const UpdateFailed: string := "Error updating follow-up"
  const DeleteFailed: string := "Error deleting follow-up"

  /** `create`: the body with the schema defaults, validated and stored. */
  method Create(accounts: Collection<BusinessAccount>, body: AccountBody) returns (r: Response<Row<BusinessAccount>>)
    requires accounts.Valid()
    modifies accounts
    ensures accounts.Valid()
    ensures if !WellFormed(FromBody(body)) then
        r == BadRequest(ValidationFailed) && accounts.rows == old(accounts.rows)
      else
        && r.Ok? && r.value.doc == FromBody(body) && r.value.id !in Ids(old(accounts.rows))
        && accounts.rows == old(accounts.rows) + [r.value]
  {
    var doc := FromBody(body);
    if !WellFormed(doc) {
      return BadRequest(ValidationFailed);
    }
    var id := accounts.Insert(doc);
    r := Ok(Row(id, doc));
  }

  predicate IsActiveLead(a: BusinessAccount) {
    a.status == Active && !a.isCustomer
  }

  predicate IsCustomer(a: BusinessAccount) {
    a.isCustomer
  }

  /** `getActiveLeads`: exactly the accounts whose status is Active and that are not customers. */
  function ActiveLeads(rows: seq<Row<BusinessAccount>>): (r: seq<Row<BusinessAccount>>)
    ensures forall k :: 0 <= k < |r| ==> r[k] in rows && r[k].doc.status == Active && !r[k].doc.isCustomer
    ensures forall i :: 0 <= i < |rows| && rows[i].doc.status == Active && !rows[i].doc.isCustomer ==> rows[i] in r
  {
    Select(rows, IsActiveLead)
  }

  /** `getCustomers`: exactly the accounts flagged as customers, whatever their status. */
  function Customers(rows: seq<Row<BusinessAccount>>): (r: seq<Row<BusinessAccount>>)
    ensures forall k :: 0 <= k < |r| ==> r[k] in rows && r[k].doc.isCustomer
    ensures forall i :: 0 <= i < |rows| && rows[i].doc.isCustomer ==> rows[i] in r
  {
    Select(rows, IsCustomer)
  }

  /** No account is both an active lead and a customer. */
  lemma LeadsAreNotCustomers(rows: seq<Row<BusinessAccount>>, x: Row<BusinessAccount>)
    requires x in ActiveLeads(rows)
    ensures x !in Customers(rows)
  {
    var k :| 0 <= k < |ActiveLeads(rows)| && ActiveLeads(rows)[k] == x;
    assert !x.doc.isCustomer;
  }

  /** A follow-up request body. */
  datatype FollowUpBody = FollowUpBody(date: Option<string>, note: Option<string>, addedBy: Option<Id>)

  /** A JavaScript truthy string: present and not empty. */
  predicate Truthy(s: Option<string>) {
    s.Some? && s.value != ""
  }

  /** The author `addFollowUp` records: the caller's identifier, else the body's `addedBy`. */
  function Author(caller: Option<Id>, body: FollowUpBody): Option<Id> {
    if caller.Some? then caller else body.addedBy
  }

  /**
   * `addFollowUp`: the fields are checked before the account is looked up;
   * the new entry goes at the end with status pending; the whole list is
   * answered. A save that fails validation answers a server error.
   */
  method AddFollowUp(accounts: Collection<BusinessAccount>, id: Id, caller: Option<Id>, body: FollowUpBody)
    returns (r: Response<seq<FollowUp>>)
    requires accounts.Valid()
    modifies accounts
    ensures accounts.Valid()
    ensures
      if !Truthy(body.date) || !Truthy(body.note) || Author(caller, body).None? then
        r == BadRequest(FieldsRequired) && accounts.rows == old(accounts.rows)
      else match Find(old(accounts.rows), id)
        case None => r == NotFound(AccountNotFound) && accounts.rows == old(accounts.rows)
        case Some(i) =>
          var a := old(accounts.rows)[i].doc;
          var fs := a.followUps + [NewFollowUp(body.date.value, body.note.value, Author(caller, body).value)];
          if !WellFormed(a.(followUps := fs)) then
            r == ServerError(AddFailed) && accounts.rows == old(accounts.rows)
          else
            r == Ok(fs) && accounts.rows == old(accounts.rows)[i := Row(id, a.(followUps := fs))]
  {
    var author := Author(caller, body);
    if !Truthy(body.date) || !Truthy(body.note) || author.None? {
      return BadRequest(FieldsRequired);
    }
    match Find(accounts.rows, id)
    case None =>
      r := NotFound(AccountNotFound);
    case Some(i) =>
      var a := accounts.rows[i].doc;
      var fs := a.followUps + [NewFollowUp(body.date.value, body.note.value, author.value)];
      if !WellFormed(a.(followUps := fs)) {
        return ServerError(AddFailed);
      }
      accounts.Put(i, a.(followUps := fs));
      r := Ok(fs);
  }

  /** What `followUps[index]` yields: an entry, another truthy property of the array, or nothing truthy. */
  datatype Slot = Element(k: nat) | OtherProperty | NoProperty

  /**
   * `followUps[index]` as JavaScript reads it. A canonical array index
   * below the length names an entry. Any other key can still name a truthy
   * property of the array: `length` when the list is not empty, or one of
   * `inherited`, the names of the methods and markers the array carries
   * (from Array.prototype, Object.prototype and Mongoose's array class),
   * which the model takes as given. Every other key reads as undefined.
   */
  function Lookup(fs: seq<FollowUp>, index: string, inherited: set<string>): (s: Slot)
    ensures s.Element? <==> ArrayIndex(index).Some? && ArrayIndex(index).value < |fs|
    ensures s.Element? ==> s.k < |fs| && index == Decimal(s.k)
    ensures s.OtherProperty? <==> ArrayIndex(index).None? && ((index == "length" && |fs| > 0) || index in inherited)
  {
    match ArrayIndex(index)
    case Some(k) => if k < |fs| then Element(k) else NoProperty
    case None => if (index == "length" && |fs| > 0) || index in inherited then OtherProperty else NoProperty
  }

  /**
   * `splice(start, 1)`: removes the entry at `start`, or nothing when there
   * is none there.
   */
  function Splice(fs: seq<FollowUp>, start: nat): (r: seq<FollowUp>)
    ensures start < |fs| ==> r == SubDocuments.RemoveAt(fs, start)
    ensures start >= |fs| ==> r == fs
  {
    if start < |fs| then SubDocuments.RemoveAt(fs, start) else fs
  }

  /**
   * Where `splice(index, 1)` starts after the guard has passed: at the
   * entry, or, for a property name, at 0, since such a name converts to NaN
   * and `splice` reads NaN as 0.
   */
  function SpliceStart(s: Slot): nat {
    if s.Element? then s.k else 0
  }

  /**
   * `updateFollowUp`: 404 unless the account exists and `followUps[index]`
   * is truthy. For an entry, its date and note are replaced, nothing else;
   * a missing date or note is unset, so the save fails validation (shown
   * here as the empty string, which fails it alike). For another property
   * the two assignments land on a number or a function, not on the list,
   * so the account is saved as it was.
   */
  method UpdateFollowUp(accounts: Collection<BusinessAccount>, inherited: set<string>, id: Id, index: string,
                        date: Option<string>, note: Option<string>)
    returns (r: Response<seq<FollowUp>>)
    requires accounts.Valid()
    modifies accounts
    ensures accounts.Valid()
    ensures match Find(old(accounts.rows), id)
      case None => r == NotFound(FollowUpNotFound) && accounts.rows == old(accounts.rows)
      case Some(i) =>
        var a := old(accounts.rows)[i].doc;
        match Lookup(a.followUps, index, inherited)
        case NoProperty => r == NotFound(FollowUpNotFound) && accounts.rows == old(accounts.rows)
        case OtherProperty =>
          && r == (if WellFormed(a) then Ok(a.followUps) else ServerError(UpdateFailed))
          && accounts.rows == old(accounts.rows)
        case Element(k) =>
          var fs := Rescheduled(a.followUps, k, date.GetOr(""), note.GetOr(""));
          if !WellFormed(a.(followUps := fs)) then
            r == ServerError(UpdateFailed) && accounts.rows == old(accounts.rows)
          else
            r == Ok(fs) && accounts.rows == old(accounts.rows)[i := Row(id, a.(followUps := fs))]
  {
    match Find(accounts.rows, id)
    case None =>
      r := NotFound(FollowUpNotFound);
    case Some(i) =>
      var a := accounts.rows[i].doc;
      match Lookup(a.followUps, index, inherited)
      case NoProperty =>
        r := NotFound(FollowUpNotFound);
      case OtherProperty =>
        r := if WellFormed(a) then Ok(a.followUps) else ServerError(UpdateFailed);
      case Element(k) =>
        var fs := Rescheduled(a.followUps, k, date.GetOr(""), note.GetOr(""));
        if !WellFormed(a.(followUps := fs)) {
          return ServerError(UpdateFailed);
        }
        accounts.Put(i, a.(followUps := fs));
        r := Ok(fs);
  }

  /**
   * `deleteFollowUp`: 404 unless the account exists and `followUps[index]`
   * is truthy; then one entry is spliced out at SpliceStart, which for a
   * property name such as `length` is the first entry.
   */
  method DeleteFollowUp(accounts: Collection<BusinessAccount>, inherited: set<string>, id: Id, index: string)
    returns (r: Response<seq<FollowUp>>)
    requires accounts.Valid()
    modifies accounts
    ensures accounts.Valid()
    ensures match Find(old(accounts.rows), id)
      case None => r == NotFound(FollowUpNotFound) && accounts.rows == old(accounts.rows)
      case Some(i) =>
        var a := old(accounts.rows)[i].doc;
        var slot := Lookup(a.followUps, index, inherited);
        if slot.NoProperty? then
          r == NotFound(FollowUpNotFound) && accounts.rows == old(accounts.rows)
        else
          var fs := Splice(a.followUps, SpliceStart(slot));
          if !WellFormed(a.(followUps := fs)) then
            r == ServerError(DeleteFailed) && accounts.rows == old(accounts.rows)
          else
            r == Ok(fs) && accounts.rows == old(accounts.rows)[i := Row(id, a.(followUps := fs))]
  {
    match Find(accounts.rows, id)
    case None =>
      r := NotFound(FollowUpNotFound);
    case Some(i) =>
      var a := accounts.rows[i].doc;
      var slot := Lookup(a.followUps, index, inherited);
      if slot.NoProperty? {
        return NotFound(FollowUpNotFound);
      }
      var fs := Splice(a.followUps, SpliceStart(slot));
      if !WellFormed(a.(followUps := fs)) {
        return ServerError(DeleteFailed);
      }
      accounts.Put(i, a.(followUps := fs));
      r := Ok(fs);
  }

  /** On a list that is not empty, the key `length` passes the guard and deletes what index 0 deletes. */
  lemma LengthDeletesFirst(fs: seq<FollowUp>, inherited: set<string>)
    requires fs != []
    ensures Lookup(fs, "length", inherited) == OtherProperty
    ensures Splice(fs, SpliceStart(Lookup(fs, "length", inherited))) == Splice(fs, SpliceStart(Lookup(fs, "0", inherited)))
  {
    ArrayIndexOfDecimal(0);
    assert Decimal(0) == "0";
    assert !AllDigits("length") by {
      assert "length"[0] == 'l';
    }
  }

  /** In a well-formed account, splicing at any start keeps it well-formed, so `deleteFollowUp` never fails its save. */
  lemma DeleteKeepsWellFormed(a: BusinessAccount, start: nat)
    requires WellFormed(a)
    ensures WellFormed(a.(followUps := Splice(a.followUps, start)))
  {
  }

  /** Adding a follow-up to a well-formed account and deleting the entry at the last index restores the account. */
  lemma AddThenDeleteLast(a: BusinessAccount, inherited: set<string>, date: string, note: string, author: Id)
    requires WellFormed(a) && date != "" && note != ""
    ensures var fs := a.followUps + [NewFollowUp(date, note, author)];
      && WellFormed(a.(followUps := fs))
      && Lookup(fs, Decimal(|a.followUps|), inherited) == Element(|a.followUps|)
      && a.(followUps := Splice(fs, |a.followUps|)) == a
  {
    var fs := a.followUps + [NewFollowUp(date, note, author)];
    ArrayIndexOfDecimal(|a.followUps|);
    AppendThenRemoveLast(a.followUps, NewFollowUp(date, note, author));
    assert forall k :: 0 <= k < |fs| ==> FollowUpWellFormed(fs[k]) by {
      forall k | 0 <= k < |fs| ensures FollowUpWellFormed(fs[k]) {
        if k < |a.followUps| {
          assert fs[k] == a.followUps[k];
        }
      }
    }
  }

  /** Rescheduling an entry of a well-formed account with a non-empty date and note keeps it well-formed. */
  lemma UpdateKeepsWellFormed(a: BusinessAccount, k: nat, date: string, note: string)
    requires WellFormed(a) && k < |a.followUps| && date != "" && note != ""
    ensures WellFormed(a.(followUps := Rescheduled(a.followUps, k, date, note)))
  {
  }
}
