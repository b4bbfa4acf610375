/**
 * The note routes of routes/notesRoutes.js: append a note to a business
 * account or an invoice, and update or delete a note of either, the
 * collection being chosen by the `:model` path parameter. The add and
 * delete routes dereference the updated document without checking it, so
 * a missing parent ends in the catch-all server error.
 */
module NotesRoutes {
  import opened Wrappers
  import opened Table
  import opened SubDocuments
  import opened InvoiceModel
  import opened BusinessAccountModel

  const ServerErrorText: string := "Server Error"
  const NoteNotFound: string := "Note not found"

  datatype Target = Accounts | Invoices

  /** The collection `:model` names: "business-accounts" selects the accounts, any other value the invoices. */
  function SelectModel(model: string): (t: Target)
    ensures t == Accounts <==> model == "business-accounts"
  {
    if model == "business-accounts" then Accounts else Invoices
  }

  /** The note the add routes push: the text (absent if the body has none) and the caller as author. */
  function NewNote(noteId: Id, text: Option<string>, caller: Id): Note {
    Note(noteId, text, None, Some(caller))
  }

  /** POST /business-accounts/:id/notes. */
  method AddAccountNote(accounts: Collection<BusinessAccount>, id: Id, caller: Id, text: Option<string>, noteId: Id)
    returns (r: Response<seq<Note>>)
    requires accounts.Valid()
    modifies accounts
    ensures accounts.Valid()
    ensures match Find(old(accounts.rows), id)
      case None => r == ServerError(ServerErrorText) && accounts.rows == old(accounts.rows)
      case Some(i) =>
        var a := old(accounts.rows)[i].doc;
        var ns := a.notes + [NewNote(noteId, text, caller)];
        r == Ok(ns) && accounts.rows == old(accounts.rows)[i := Row(id, a.(notes := ns))]
  {
    match Find(accounts.rows, id)
    case None =>
      r := ServerError(ServerErrorText);
    case Some(i) =>
      var a := accounts.rows[i].doc;
      var ns := a.notes + [NewNote(noteId, text, caller)];
      accounts.Put(i, a.(notes := ns));
      r := Ok(ns);
  }

  /** POST /invoices/:id/notes. */
  method AddInvoiceNote(invoices: Collection<Invoice>, id: Id, caller: Id, text: Option<string>, noteId: Id)
    returns (r: Response<seq<Note>>)
    requires invoices.Valid()
    modifies invoices
    ensures invoices.Valid()
    ensures match Find(old(invoices.rows), id)
      case None => r == ServerError(ServerErrorText) && invoices.rows == old(invoices.rows)
      case Some(i) =>
        var v := old(invoices.rows)[i].doc;
        var ns := v.notes + [NewNote(noteId, text, caller)];
        r == Ok(ns) && invoices.rows == old(invoices.rows)[i := Row(id, v.(notes := ns))]
  {
    match Find(invoices.rows, id)
    case None =>
      r := ServerError(ServerErrorText);
    case Some(i) =>
      var v := invoices.rows[i].doc;
      var ns := v.notes + [NewNote(noteId, text, caller)];
      invoices.Put(i, v.(notes := ns));
      r := Ok(ns);
  }

  /**
   * The outcome of the positional update on one document's notes: none when
   * no note has the identifier, else the new list and the updated note.
   */
  function NoteRetext(notes: seq<Note>, noteId: Id, text: Option<string>, now: int): (r: Option<(seq<Note>, Note)>)
    ensures r.None? <==> forall j :: 0 <= j < |notes| ==> notes[j].id != noteId
    ensures r.Some? ==>
      && r.value.0 == Retexted(notes, noteId, text, now)
      && r.value.1.id == noteId && r.value.1 in r.value.0 && r.value.1.timestamp == Some(now)
  {
    match FirstNote(notes, noteId)
    case None => None
    case Some(k) =>
      var ns := Retexted(notes, noteId, text, now);
      Some((ns, ns[k]))
  }

  /** PUT /:model/:id/notes/:noteId, on the business accounts. */
  method RetextAccountNote(accounts: Collection<BusinessAccount>, id: Id, noteId: Id, text: Option<string>, now: int)
    returns (r: Response<Note>)
    requires accounts.Valid()
    modifies accounts
    ensures accounts.Valid()
    ensures match Find(old(accounts.rows), id)
      case None => r == NotFound(NoteNotFound) && accounts.rows == old(accounts.rows)
      case Some(i) =>
        var a := old(accounts.rows)[i].doc;
        match NoteRetext(a.notes, noteId, text, now)
        case None => r == NotFound(NoteNotFound) && accounts.rows == old(accounts.rows)
        case Some(u) => r == Ok(u.1) && accounts.rows == old(accounts.rows)[i := Row(id, a.(notes := u.0))]
  {
    match Find(accounts.rows, id)
    case None =>
      r := NotFound(NoteNotFound);
    case Some(i) =>
      var a := accounts.rows[i].doc;
      match NoteRetext(a.notes, noteId, text, now)
      case None =>
        r := NotFound(NoteNotFound);
      case Some(u) =>
        accounts.Put(i, a.(notes := u.0));
        r := Ok(u.1);
  }

  /** PUT /:model/:id/notes/:noteId, on the invoices. */
  method RetextInvoiceNote(invoices: Collection<Invoice>, id: Id, noteId: Id, text: Option<string>, now: int)
    returns (r: Response<Note>)
    requires invoices.Valid()
    modifies invoices
    ensures invoices.Valid()
    ensures match Find(old(invoices.rows), id)
      case None => r == NotFound(NoteNotFound) && invoices.rows == old(invoices.rows)
      case Some(i) =>
        var v := old(invoices.rows)[i].doc;
        match NoteRetext(v.notes, noteId, text, now)
        case None => r == NotFound(NoteNotFound) && invoices.rows == old(invoices.rows)
        case Some(u) => r == Ok(u.1) && invoices.rows == old(invoices.rows)[i := Row(id, v.(notes := u.0))]
  {
    match Find(invoices.rows, id)
    case None =>
      r := NotFound(NoteNotFound);
    case Some(i) =>
      var v := invoices.rows[i].doc;
      match NoteRetext(v.notes, noteId, text, now)
      case None =>
        r := NotFound(NoteNotFound);
      case Some(u) =>
        invoices.Put(i, v.(notes := u.0));
        r := Ok(u.1);
  }

  /** PUT /:model/:id/notes/:noteId: the clock reading `now` is a parameter; only the selected collection changes. */
  method UpdateNote(model: string, accounts: Collection<BusinessAccount>, invoices: Collection<Invoice>,
                    id: Id, noteId: Id, text: Option<string>, now: int)
    returns (r: Response<Note>)
    requires accounts.Valid() && invoices.Valid()
    modifies accounts, invoices
    ensures accounts.Valid() && invoices.Valid()
    ensures SelectModel(model) == Accounts ==> invoices.rows == old(invoices.rows)
    ensures SelectModel(model) == Invoices ==> accounts.rows == old(accounts.rows)
    ensures SelectModel(model) == Accounts ==> match Find(old(accounts.rows), id)
      case None => r == NotFound(NoteNotFound) && accounts.rows == old(accounts.rows)
      case Some(i) =>
        var a := old(accounts.rows)[i].doc;
        match NoteRetext(a.notes, noteId, text, now)
        case None => r == NotFound(NoteNotFound) && accounts.rows == old(accounts.rows)
        case Some(u) => r == Ok(u.1) && accounts.rows == old(accounts.rows)[i := Row(id, a.(notes := u.0))]
    ensures SelectModel(model) == Invoices ==> match Find(old(invoices.rows), id)
      case None => r == NotFound(NoteNotFound) && invoices.rows == old(invoices.rows)
      case Some(i) =>
        var v := old(invoices.rows)[i].doc;
        match NoteRetext(v.notes, noteId, text, now)
        case None => r == NotFound(NoteNotFound) && invoices.rows == old(invoices.rows)
        case Some(u) => r == Ok(u.1) && invoices.rows == old(invoices.rows)[i := Row(id, v.(notes := u.0))]
  {
    if SelectModel(model) == Accounts {
      r := RetextAccountNote(accounts, id, noteId, text, now);
    } else {
      r := RetextInvoiceNote(invoices, id, noteId, text, now);
    }
  }

  /** DELETE /:model/:id/notes/:noteId, on the business accounts. */
  method PullAccountNote(accounts: Collection<BusinessAccount>, id: Id, noteId: Id) returns (r: Response<seq<Note>>)
    requires accounts.Valid()
    modifies accounts
    ensures accounts.Valid()
    ensures match Find(old(accounts.rows), id)
      case None => r == ServerError(ServerErrorText) && accounts.rows == old(accounts.rows)
      case Some(i) =>
        var a := old(accounts.rows)[i].doc;
        r == Ok(Pulled(a.notes, noteId)) && accounts.rows == old(accounts.rows)[i := Row(id, a.(notes := Pulled(a.notes, noteId)))]
  {
    match Find(accounts.rows, id)
    case None =>
      r := ServerError(ServerErrorText);
    case Some(i) =>
      var a := accounts.rows[i].doc;
      accounts.Put(i, a.(notes := Pulled(a.notes, noteId)));
      r := Ok(Pulled(a.notes, noteId));
  }

  /** DELETE /:model/:id/notes/:noteId, on the invoices. */
  method PullInvoiceNote(invoices: Collection<Invoice>, id: Id, noteId: Id) returns (r: Response<seq<Note>>)
    requires invoices.Valid()
    modifies invoices
    ensures invoices.Valid()
    ensures match Find(old(invoices.rows), id)
      case None => r == ServerError(ServerErrorText) && invoices.rows == old(invoices.rows)
      case Some(i) =>
        var v := old(invoices.rows)[i].doc;
        r == Ok(Pulled(v.notes, noteId)) && invoices.rows == old(invoices.rows)[i := Row(id, v.(notes := Pulled(v.notes, noteId)))]
  {
    match Find(invoices.rows, id)
    case None =>
      r := ServerError(ServerErrorText);
    case Some(i) =>
      var v := invoices.rows[i].doc;
      invoices.Put(i, v.(notes := Pulled(v.notes, noteId)));
      r := Ok(Pulled(v.notes, noteId));
  }

  /** DELETE /:model/:id/notes/:noteId: only the selected collection changes. */
  method DeleteNote(model: string, accounts: Collection<BusinessAccount>, invoices: Collection<Invoice>, id: Id, noteId: Id)
    returns (r: Response<seq<Note>>)
    requires accounts.Valid() && invoices.Valid()
    modifies accounts, invoices
    ensures accounts.Valid() && invoices.Valid()
    ensures SelectModel(model) == Accounts ==> invoices.rows == old(invoices.rows)
    ensures SelectModel(model) == Invoices ==> accounts.rows == old(accounts.rows)
    ensures SelectModel(model) == Accounts ==> match Find(old(accounts.rows), id)
      case None => r == ServerError(ServerErrorText) && accounts.rows == old(accounts.rows)
      case Some(i) =>
        var a := old(accounts.rows)[i].doc;
        r == Ok(Pulled(a.notes, noteId)) && accounts.rows == old(accounts.rows)[i := Row(id, a.(notes := Pulled(a.notes, noteId)))]
    ensures SelectModel(model) == Invoices ==> match Find(old(invoices.rows), id)
      case None => r == ServerError(ServerErrorText) && invoices.rows == old(invoices.rows)
      case Some(i) =>
        var v := old(invoices.rows)[i].doc;
        r == Ok(Pulled(v.notes, noteId)) && invoices.rows == old(invoices.rows)[i := Row(id, v.(notes := Pulled(v.notes, noteId)))]
  {
    if SelectModel(model) == Accounts {
      r := PullAccountNote(accounts, id, noteId);
    } else {
      r := PullInvoiceNote(invoices, id, noteId);
    }
  }

  /** Adding a note and then deleting its identifier, when no other note carries it, restores the list. */
  lemma AddThenDeleteNote(notes: seq<Note>, noteId: Id, text: Option<string>, caller: Id)
    requires forall j :: 0 <= j < |notes| ==> notes[j].id != noteId
    ensures Pulled(notes + [NewNote(noteId, text, caller)], noteId) == notes
  {
    PulledAppend(notes, [NewNote(noteId, text, caller)], noteId);
    PulledAbsent(notes, noteId);
  }
}
