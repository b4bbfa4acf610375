# CRM backend core, modelled in Dafny

The repository is an Express and MongoDB back end for a small CRM. It keeps
business accounts (leads and customers), quotations, invoices, products, users,
teams and departments. This project models the parts of it that have logic:

- **Document numbering.** Invoices are numbered `INV-0001`, `INV-0002`, ….
  Quotations start at `Qun-0001` and continue as `Q-0002`, …. Each new number is
  computed from the number of the most recently created document.
- **Invoice totals and lock flag.** The subtotal is the sum of quantity × rate.
  The tax is a flat 18%. Both are recomputed on create and on update. `isClosed`
  is set by close and unlock, and update never consults it.
- **Follow-up ledger of a business account.** Entries are appended, rescheduled
  and deleted by position. The position is a path parameter read as
  `followUps[index]`. So `length` on a non-empty list, or an inherited method
  name, also passes the handlers' guard: update then saves the list unchanged
  and delete removes the first entry. The lead and customer filters are
  modelled too.
- **Notes of an account or an invoice.** Notes are appended, re-texted by
  identifier and pulled by identifier. The `:model` path parameter selects the
  collection.
- **Team handlers.** Creating, updating and deleting a team rewrites the users'
  `team` and `department` fields one user at a time. The leader-uniqueness index
  is kept throughout.
- **Department handlers.** Duplicate names are refused. A department that a team
  or a user still references cannot be deleted.
- **Product input validator.** A Joi schema, modelled both as a validity
  predicate and as the ordered check Joi runs.
- **Record types.** Enumerations, defaults, required fields and unique indexes
  of the Invoice, Quotation, BusinessAccount, Team and User models.

Each MongoDB collection is a `Table.Collection<T>` object. Its `rows` field holds
the documents in creation order; its `nextId` field is the identifier generator.
Each handler is a method that changes the collections it writes and answers a
`Wrappers.Response`: `Ok`, `BadRequest` (400), `NotFound` (404) or `ServerError`
(500). Pure parts are functions, specified and related by lemmas:

- JavaScript's `trim`, `toLowerCase`, `parseInt`, `padStart` and `String(n)`;
- the schema casts (`new Model(body)` and `findByIdAndUpdate` merges);
- the follow-up and note list operations.

Request bodies are datatypes of `Option`s: an absent key is `None`. The clock
(`Date.now`) and the caller's identity (`req.user.id`) are parameters.

Modules, one per file:

| file | module | models |
|---|---|---|
| wrappers.dfy | Wrappers | Option, handler responses |
| table.dfy | Table | a collection: lookup by `_id`, insert, overwrite, delete |
| js_text.dfy | JsText | the JavaScript string and number primitives used |
| numbering.dfy | Numbering | the invoice and quotation numbers |
| sub_documents.dfy | SubDocuments | follow-ups, notes and the list operations on them |
| invoice_model.dfy | InvoiceModel | models/Invoice.js |
| invoice_controller.dfy | InvoiceController | controllers/invoiceController.js |
| quotation_model.dfy | QuotationModel | models/Quotation.js |
| quotation_controller.dfy | QuotationController | controllers/quotationController.js |
| business_account_model.dfy | BusinessAccountModel | models/BusinessAccount.js |
| business_account_controller.dfy | BusinessAccountController | controllers/businessAccountController.js |
| notes_routes.dfy | NotesRoutes | routes/notesRoutes.js |
| user_model.dfy | UserModel | models/User.js |
| team_model.dfy | TeamModel | models/Team.js |
| department_model.dfy | DepartmentModel | the department record and the reference invariants |
| team_controller.dfy | TeamController | controllers/teamController.js |
| department_controller.dfy | DepartmentController | controllers/departmentController.js |
| validate_product.dfy | ValidateProduct | middlewares/validateProduct.js |

The handlers keep the collections' invariants, each stated as a predicate:

- identifiers are distinct (`Collection.Valid`);
- `invoiceNumber` is unique among the invoices that have one;
- `quotationNumber` is unique;
- a user leads at most one team;
- every stored team passes the schema;
- every team and every user references an existing department (or, for a user, none).

## Model

| member | source | states |
|---|---|---|
| JsText.TrimStart | models/User.js:5-9 | the result is a suffix of the input; everything dropped is white space; the result does not start with white space |
| JsText.TrimEnd | models/User.js:5-9 | the result is a prefix of the input; everything dropped is white space; the result does not end with white space |
| JsText.TrimEnds | models/User.js:5-20 | the text `trim` returns has no white space at either end |
| JsText.TrimIdempotent | models/User.js:5-9 | trimming a trimmed string changes nothing |
| JsText.ToLower | models/User.js:15 | same length; every character is mapped by ASCII lower-casing, non-letters kept |
| JsText.ToLowerIdempotent | models/User.js:15 | lower-casing twice is lower-casing once |
| JsText.Decimal | controllers/invoiceController.js:24 | `String(n)` is a non-empty string of decimal digits |
| JsText.DigitsValueDecimal | controllers/invoiceController.js:22-24 | reading back the digits `String(n)` prints gives `n` |
| JsText.PadStart | controllers/invoiceController.js:24 | the result is as long as the larger of `s` and `width`, ends with `s`, and is filled on the left with the fill character |
| JsText.ParseInt | controllers/invoiceController.js:22 | `parseInt(s, 10)` is NaN exactly when no digit follows the leading white space and sign; otherwise, for an unsigned input, it is the value of the leading digit run |
| JsText.ParseIntPadded | controllers/invoiceController.js:22-24 | round trip: a number printed and zero-padded to any width parses back to itself |
| JsText.ArrayIndex | controllers/businessAccountController.js:131 | a property key names an array element only when it is the canonical decimal form of that index |
| JsText.ArrayIndexOfDecimal | controllers/businessAccountController.js:131 | the key `String(n)` names element `n` (the inverse direction of ArrayIndex) |
| JsText.DecimalLength | controllers/invoiceController.js:24 | bounds on the number of digits of `String(n)` in terms of powers of ten |
| Numbering.IndexOf | controllers/invoiceController.js:22 | the first position of the character, or none exactly when it does not occur |
| Numbering.SecondSegment | controllers/invoiceController.js:22 | `split('-')[1]` is undefined exactly when the number has no '-', and never contains a '-' |
| Numbering.SegmentValue | controllers/invoiceController.js:22 | the parsed second piece, when a number, is never negative |
| Numbering.NextInvoiceNumber | controllers/invoiceController.js:18-25 | with no last invoice, or one without a number, the result is `INV-0001`; it always starts with `INV-` and has at least 8 characters |
| Numbering.NextQuotationNumber | controllers/quotationController.js:18-25 | with no last quotation, or one without a number, the result is `Qun-0001`; otherwise it starts with `Q-` and has at least 6 characters |
| Numbering.SegmentOfIssued | controllers/invoiceController.js:22-24 | a number written as series-body, with no other '-', splits back into its body |
| Numbering.NextNumberAdvances | controllers/invoiceController.js:22-24 | when the last number's second piece reads as k, the new number's second piece reads as k + 1 |
| Numbering.InvoiceCounterAdvances | controllers/invoiceController.js:22-24 | invoice numbers count up by exactly one from the last numeric piece |
| Numbering.QuotationCounterAdvances | controllers/quotationController.js:22-23 | quotation numbers count up by exactly one, whatever prefix the last number had |
| Numbering.InvoiceSuccessor | controllers/invoiceController.js:22-24 | round trip for every n: after `INV-`pad4(n) comes `INV-`pad4(n + 1) |
| Numbering.QuotationSuccessor | controllers/quotationController.js:21-25 | after series-pad4(n), for any series without '-', comes `Q-`pad4(n + 1) |
| Numbering.PaddedWidth | controllers/invoiceController.js:24 | padding gives exactly four digits below 10000 and never truncates a longer number |
| Numbering.InvoiceNaN | controllers/invoiceController.js:22-24 | a last number whose second piece has no leading digit yields `INV-0NaN` |
| Numbering.QuotationNaN | controllers/quotationController.js:22-24 | a last number whose second piece has no leading digit yields `Q-0NaN` |
| Numbering.ParseZeroNaN | controllers/invoiceController.js:22 | `parseInt("0NaN")` reads the leading zero alone |
| Numbering.InvoiceAfterNaN | controllers/invoiceController.js:21-24 | the invoice after `INV-0NaN` is `INV-0001` again |
| Numbering.InvoiceExample | controllers/invoiceController.js:22-24 | `INV-0042` is followed by `INV-0043` |
| Numbering.InvoiceWideExample | controllers/invoiceController.js:22-24 | `INV-9999` is followed by `INV-10000`: the fifth digit is kept |
| Numbering.QuotationExample | controllers/quotationController.js:19-24 | the seed `Qun-0001` is followed by `Q-0002` |
| SubDocuments.RemoveAt | controllers/businessAccountController.js:155 | `splice(i, 1)` shortens the list by one; the entries before `i` stay and those after it move down by one |
| SubDocuments.AppendThenRemoveLast | controllers/businessAccountController.js:115-155 | appending an entry and then removing the last one gives back the list |
| SubDocuments.Rescheduled | controllers/businessAccountController.js:135-136 | only the date and note of entry `i` change; its status and author, the other entries and the length stay |
| SubDocuments.FirstNote | routes/notesRoutes.js:62 | the position of the first note with the identifier, or none exactly when no note has it |
| SubDocuments.Retexted | routes/notesRoutes.js:61-65 | with no matching note the list is unchanged; otherwise only the first matching note gets the text (an absent text keeps the old one) and the time stamp |
| SubDocuments.Pulled | routes/notesRoutes.js:86-90 | no note with the identifier is left; every other note stays |
| SubDocuments.PulledAppend | routes/notesRoutes.js:86-90 | pulling distributes over concatenation, so the remaining notes keep their order |
| SubDocuments.PulledAbsent | routes/notesRoutes.js:86-92 | pulling an identifier no note carries leaves the list unchanged |
| SubDocuments.PulledIdempotent | routes/notesRoutes.js:86-90 | pulling the same identifier twice is pulling it once |
| InvoiceModel.Defaults | models/Invoice.js:61-99 | an empty body gets taxRate 18, gstPercentage 18, discountAmount 0, intrastate, pending, type Invoice, not closed, empty lists and no number, and it fails the required contact fields |
| InvoiceModel.CreateIsMergeIntoDefaults | models/Invoice.js:45-103 | building from a body is merging that body into the defaults document |
| InvoiceModel.MergeEmpty | models/Invoice.js:45-103 | an update with an empty body leaves the invoice as it was |
| InvoiceModel.MergeIdempotent | models/Invoice.js:45-103 | applying the same update twice is applying it once |
| InvoiceController.SubTotalIsSum | controllers/invoiceController.js:28 | the `reduce` left fold equals the sum taken from the front |
| InvoiceController.SubTotalAppend | controllers/invoiceController.js:28 | the subtotal of two lists put together is the sum of their subtotals |
| InvoiceController.SubTotalNonNegative | controllers/invoiceController.js:28 | with no negative quantity or rate the subtotal is not negative |
| InvoiceController.NullLineAddsNothing | controllers/invoiceController.js:28 | a line whose quantity or rate is `null` is accepted and adds nothing to the subtotal, since `null * x` is 0 |
| InvoiceController.ComputeTotals | controllers/invoiceController.js:27-30 | subtotal = Σ quantity × rate; tax = 18% of it; total = 118% of it |
| InvoiceController.NoItemsNoTotals | controllers/invoiceController.js:51-54 | a body without items gives zero subtotal, tax and total |
| InvoiceController.ClientFiguresIgnored | controllers/invoiceController.js:32-39 | the client's invoiceNumber, subTotal, tax and totalAmount never reach the stored invoice, on create or update; the computed ones do |
| InvoiceController.UpdateWithoutItemsZeroesTotals | controllers/invoiceController.js:51-65 | an update without items keeps the stored items but writes zero figures |
| InvoiceController.UpdateIgnoresLock | controllers/invoiceController.js:49-72 | a closed invoice is revised exactly like an open one and stays closed unless the body says otherwise |
| InvoiceController.Create | controllers/invoiceController.js:16-46 | the next number and computed totals; 400 on a line that leaves out its quantity or rate (NaN figures), a failed validation or a duplicate number, nothing stored; a `null` quantity or rate is priced as 0; otherwise appended under a fresh id; the number index stays unique |
| InvoiceController.Update | controllers/invoiceController.js:49-72 | 400 on a line that leaves out its quantity or rate, while a `null` one is priced as 0; a missing invoice answers null and changes nothing; a duplicate number answers 400; otherwise exactly that invoice is replaced by the merge with computed totals |
| InvoiceController.Remove | controllers/invoiceController.js:75-82 | always answers "Deleted"; exactly the invoice with that id is removed, if any |
| InvoiceController.WithLock | controllers/invoiceController.js:95-119 | only the `isClosed` flag of the invoice with that id changes; every other field and invoice stays |
| InvoiceController.LockIdempotent | controllers/invoiceController.js:95-119 | closing (or unlocking) twice is closing (or unlocking) once |
| InvoiceController.LockLastWins | controllers/invoiceController.js:95-119 | of two lock changes only the last matters |
| InvoiceController.CloseThenUnlock | controllers/invoiceController.js:95-119 | closing an open invoice and unlocking it restores the collection |
| InvoiceController.Close | controllers/invoiceController.js:95-106 | the collection becomes WithLock(…, true); the answer is the updated invoice or null |
| InvoiceController.Unlock | controllers/invoiceController.js:108-119 | the collection becomes WithLock(…, false); the answer is the updated invoice or null |
| QuotationModel.ItemsFromBody | models/Quotation.js:9-19 | every line is cast one for one, in order |
| QuotationModel.Defaults | models/Quotation.js:51-98 | an empty body gives status Draft, no GST breakdown or type, empty lists, and fails the required business and number |
| QuotationModel.ItemGstDefault | models/Quotation.js:18 | an item's gstPercentage is 18 when absent, else as sent; quantity and rate as sent |
| QuotationModel.GstDetailsDefaults | models/Quotation.js:39-49 | an empty breakdown stores zero amounts and null manual overrides |
| QuotationModel.MergeEmpty | models/Quotation.js:51-98 | an update with an empty body leaves the quotation as it was |
| QuotationController.FiguresAsGiven | controllers/quotationController.js:27-42 | the client's number is replaced by the issued one; subTotal, tax and total are stored as sent, on create and update |
| QuotationController.IssuedNumberGiven | controllers/quotationController.js:27-32 | an issued number is never empty, so create fails validation only for a missing business or a bad follow-up |
| QuotationController.Create | controllers/quotationController.js:16-37 | the next number; 400 on a failed validation or a duplicate number, nothing stored; otherwise appended under a fresh id; numbers stay unique |
| QuotationController.Update | controllers/quotationController.js:40-47 | a missing quotation answers null and changes nothing; a duplicate number answers 400; otherwise exactly that quotation is replaced by the merge |
| QuotationController.Remove | controllers/quotationController.js:50-57 | always answers "Deleted"; exactly the quotation with that id is removed, if any |
| BusinessAccountModel.Defaults | models/BusinessAccount.js:22-50 | an empty body is an Active, non-customer lead from source Other, unassigned, with no product and empty lists, and fails the required fields |
| BusinessAccountModel.CustomerFlagIndependent | models/BusinessAccount.js:47-48 | the customer flag is stored independently of the status |
| BusinessAccountController.Create | controllers/businessAccountController.js:34-42 | 400 and nothing stored unless the body with defaults passes the schema; otherwise exactly that document is appended |
| BusinessAccountController.ActiveLeads | controllers/businessAccountController.js:16 | exactly the accounts with status Active that are not customers |
| BusinessAccountController.Customers | controllers/businessAccountController.js:26 | exactly the accounts flagged as customers |
| BusinessAccountController.LeadsAreNotCustomers | controllers/businessAccountController.js:16-26 | the two filters never share an account |
| BusinessAccountController.Lookup | controllers/businessAccountController.js:131 | `followUps[index]` names an entry exactly when the key is a canonical index in range; otherwise it is still truthy exactly for `length` on a non-empty list or an inherited method name |
| BusinessAccountController.Splice | controllers/businessAccountController.js:155 | `splice(start, 1)` removes the entry at `start`, or nothing past the end |
| BusinessAccountController.AddFollowUp | controllers/businessAccountController.js:102-122 | 400 before any lookup when date, note or author is missing (author = caller, else body); 404 for a missing account; otherwise one pending entry appended at the end and the whole list answered |
| BusinessAccountController.UpdateFollowUp | controllers/businessAccountController.js:125-143 | 404 for a missing account or a falsy `followUps[index]`; for an entry only its date and note change; for another truthy property (`length`, a method) the account is saved unchanged and the list answered |
| BusinessAccountController.DeleteFollowUp | controllers/businessAccountController.js:146-162 | 404 for a missing account or a falsy `followUps[index]`; otherwise one entry is spliced out: the indexed one, or the first for a property name such as `length` |
| BusinessAccountController.LengthDeletesFirst | controllers/businessAccountController.js:151-155 | on a non-empty list the key `length` passes the guard and deletes what index 0 deletes |
| BusinessAccountController.DeleteKeepsWellFormed | controllers/businessAccountController.js:155-156 | splicing at any start keeps a valid account valid, so that save never fails |
| BusinessAccountController.AddThenDeleteLast | controllers/businessAccountController.js:115-155 | adding a follow-up and deleting the last index restores the account |
| BusinessAccountController.UpdateKeepsWellFormed | controllers/businessAccountController.js:135-137 | rescheduling with a non-empty date and note keeps a valid account valid |
| NotesRoutes.SelectModel | routes/notesRoutes.js:59 | "business-accounts" selects the accounts and every other value the invoices |
| NotesRoutes.AddAccountNote | routes/notesRoutes.js:10-29 | a missing account is a server error; otherwise one note is appended at the end and the whole list answered |
| NotesRoutes.AddInvoiceNote | routes/notesRoutes.js:32-51 | the same for invoices |
| NotesRoutes.NoteRetext | routes/notesRoutes.js:61-72 | none exactly when no note has the identifier; otherwise the retexted list and the updated note, which is in it and carries the time stamp |
| NotesRoutes.RetextAccountNote | routes/notesRoutes.js:61-72 | 404 when the account or the note is missing; otherwise only that account's notes change, as NoteRetext says |
| NotesRoutes.RetextInvoiceNote | routes/notesRoutes.js:61-72 | the same for invoices |
| NotesRoutes.UpdateNote | routes/notesRoutes.js:54-77 | only the selected collection changes, as the retext method of that collection says |
| NotesRoutes.PullAccountNote | routes/notesRoutes.js:86-95 | a missing account is a server error; otherwise the account's notes become Pulled(…) and are answered |
| NotesRoutes.PullInvoiceNote | routes/notesRoutes.js:86-95 | the same for invoices |
| NotesRoutes.DeleteNote | routes/notesRoutes.js:80-97 | only the selected collection changes; deleting an absent note is no error |
| NotesRoutes.AddThenDeleteNote | routes/notesRoutes.js:10-97 | adding a note with a fresh identifier and then deleting it restores the list |
| UserModel.TrimLowerCommute | models/User.js:10-16 | the `trim` and `lowercase` setters commute |
| UserModel.NormalEmailIdempotent | models/User.js:10-16 | a stored e-mail is a fixed point of its setters |
| UserModel.FromInput | models/User.js:4-45 | a user is created exactly when the name and e-mail are non-empty after trimming; the stored strings are normalised; no department or team |
| UserModel.Defaults | models/User.js:25-34 | role Employee and status Active when the input gives none |
| UserModel.EmailCaseInsensitive | models/User.js:10-16 | e-mails equal up to outer white space, or up to case, are stored alike, so the unique index treats them as one |
| TeamModel.LedElsewhere | controllers/teamController.js:42-44 | a team other than `except` that the user leads; none exactly when there is no such team |
| TeamModel.LeaderLeadsOnlyOne | models/Team.js:16-21 | under the unique index the leader of a team leads no other team |
| TeamModel.WrittenByUpdate | controllers/teamController.js:149-153 | updateTeam always writes the leader field: a user id when given, else null, never missing |
| TeamModel.LeaderlessUpdatesClash | models/Team.js:16-21 | two leaderless teams satisfy the intended invariant, yet the sparse index refuses them once both have been updated |
| TeamModel.DroppingLeaderKeepsUnique | models/Team.js:16-21 | with the index over actual leaders, any team may drop its leader |
| TeamController.Assigned | controllers/teamController.js:8-21 | the user with that id gets the team and department pair; everyone else, and a missing id, change nothing |
| TeamController.AlreadyAssigned | controllers/teamController.js:8-21 | assigning a user the team and department it already has leaves the users table as it was |
| TeamController.AssignedEachAt | controllers/teamController.js:53-60 | helper calls for a list with one pair: every listed user has the pair and every other user is unchanged, whatever the order and repetition |
| TeamController.AssignedEachConcat | controllers/teamController.js:53-60 | calls for `a` then `b` equal calls for `a + b` |
| TeamController.AssignUser | controllers/teamController.js:8-21 | the users table becomes Assigned(…) |
| TeamController.AssignAll | controllers/teamController.js:55-60 | the loop leaves the users table as AssignedEach(…) of the list |
| TeamController.Enlisted | controllers/teamController.js:53-60 | the users a team enlists are exactly its leader and its members |
| TeamController.LeaderRefusal | controllers/teamController.js:35-48 | a leader is accepted exactly when it exists, has role Team Leader and leads no other team |
| TeamController.CreateRefusal | controllers/teamController.js:29-50 | accepted exactly when the department exists, the leader, if any, is acceptable and the name is non-empty; a missing department is reported first |
| TeamController.CreatedKeepsTeams | controllers/teamController.js:50 | a team createTeam accepts keeps leader uniqueness, validity and department references |
| TeamController.AssignedEachKeepsRefs | controllers/teamController.js:53-60 | assigning an existing department, or none, keeps every user's reference intact |
| TeamController.AssignEnlisted | controllers/teamController.js:53-60 | the leader, then each member, gets the pair |
| TeamController.CreateTeam | controllers/teamController.js:24-73 | refused with the first failing check and nothing changed; otherwise the team is appended and exactly its leader and members get the new team and its department; all invariants kept |
| TeamController.UpdateRefusal | controllers/teamController.js:114-153 | accepted exactly when a changed department exists, a changed leader is acceptable (ignoring this team) and the name is not emptied |
| TeamController.Revised | controllers/teamController.js:149-153 | leader and members are always written (absent → null / empty list); name and department kept when absent |
| TeamController.Dropped | controllers/teamController.js:169-178 | exactly the old members missing from the new list |
| TeamController.Reconciled | controllers/teamController.js:159-188 | the four user steps preserve the number of users |
| TeamController.ReconciledAt | controllers/teamController.js:159-188 | each user ends as the decision table Settled says: new member, or new leader who was not an old member → joins; else old member or old leader → released; else untouched |
| TeamController.NewLeaderReleased | controllers/teamController.js:159-178 | ordering quirk: a new leader who was a member and is left out of the new list ends with no team and no department |
| TeamController.MembersJoin | controllers/teamController.js:169-188 | every user in the new member list ends in the team with the team's department |
| TeamController.BystandersUntouched | controllers/teamController.js:159-188 | a user who is neither old or new leader nor old or new member keeps its whole record |
| TeamController.ReconciledKeepsRefs | controllers/teamController.js:159-188 | reconciliation keeps user department references intact |
| TeamController.RevisedKeepsTeams | controllers/teamController.js:149-153 | writing an accepted revision keeps the team table's invariants |
| TeamController.ReleaseDropped | controllers/teamController.js:169-178 | the loop leaves the users as AssignedEach(…, Dropped(…), null, null) |
| TeamController.JoinMembers | controllers/teamController.js:181-188 | the loop, skipping users who already have the pair, equals assigning every new member |
| TeamController.ReconcileUsers | controllers/teamController.js:159-188 | the users table becomes Reconciled(…) |
| TeamController.UpdateTeam | controllers/teamController.js:109-204 | 404 for a missing team; refused with the first failing check and nothing changed; otherwise the team is written as Revised and the users reconciled; all invariants kept |
| TeamController.RemovedKeepsTeams | controllers/teamController.js:216 | removing a team keeps the team table's invariants |
| TeamController.DeleteTeam | controllers/teamController.js:207-235 | 404 for a missing team; otherwise it is removed and exactly its leader and members are released; all invariants kept |
| DepartmentController.TeamCount | controllers/departmentController.js:68 | the count is positive exactly when some team references the department |
| DepartmentController.UserCount | controllers/departmentController.js:73 | the count is positive exactly when some user references the department |
| DepartmentController.Create | controllers/departmentController.js:4-14 | a taken name answers 400 and stores nothing; otherwise the department is appended; names stay unique |
| DepartmentController.Update | controllers/departmentController.js:43-59 | 404 for a missing department; 400 for a name another department has; otherwise merged in place; names stay unique |
| DepartmentController.DeleteLeavesNoReference | controllers/departmentController.js:68-82 | a department nothing references can be removed without breaking any reference |
| DepartmentController.Delete | controllers/departmentController.js:62-89 | teams checked first, then users, then existence; on success exactly that department is removed and no team or user references it |
| ValidateProduct.Get | middlewares/validateProduct.js:18 | none exactly when no member has the key; otherwise a member's value |
| ValidateProduct.TextIssue | middlewares/validateProduct.js:4-11 | no error exactly when the value is a string within the bounds (empty only where allowed) |
| ValidateProduct.NumberIssue | middlewares/validateProduct.js:5-6 | no error exactly when the value is a number within ±(2^53−1), an integer where demanded, at least the minimum; beyond that range the error is "must be a safe number", before the rules |
| ValidateProduct.LeastIndexKey | middlewares/validateProduct.js:3-15 | the reported array-index key is unknown, occurs in the body, and is the least of all unknown array-index keys |
| ValidateProduct.FirstUnknown | middlewares/validateProduct.js:3-15 | none exactly when every key is known; otherwise the first unknown key in written order |
| ValidateProduct.UnknownKey | middlewares/validateProduct.js:3-15 | an unknown key is reported exactly when the object has one |
| ValidateProduct.SpecificationIssue | middlewares/validateProduct.js:9-12 | no error exactly when a description element is valid |
| ValidateProduct.ItemsIssue | middlewares/validateProduct.js:8-13 | no error exactly when every description element is valid |
| ValidateProduct.KeysIssue | middlewares/validateProduct.js:3-15 | the schema's own keys in schema order: no error exactly when each of them passes its rule |
| ValidateProduct.FirstIssue | middlewares/validateProduct.js:3-18 | Joi's ordered check reports no error exactly when the declarative schema predicate holds; which message it reports is fixed by the lemmas below |
| ValidateProduct.Validate | middlewares/validateProduct.js:17-26 | `next` exactly when the body is valid; otherwise 400 "Validation Error" whose one detail is the first error of the ordered check |
| ValidateProduct.MissingNameReported | middlewares/validateProduct.js:4-26 | any object body without `productName` is refused with the one detail `"productName" is required`, whatever else it holds |
| ValidateProduct.MissingQuantityReported | middlewares/validateProduct.js:4-26 | with a valid name, a body without `quantity` is refused with `"quantity" is required`, whatever follows |
| ValidateProduct.UnsafeQuantityReported | middlewares/validateProduct.js:4-26 | with a valid name, a `quantity` beyond ±(2^53−1) is refused with `"quantity" must be a safe number` |
| ValidateProduct.ExtraKeyUnknown | middlewares/validateProduct.js:3-15 | among known keys, one unknown key that is not an array index is the key reported |
| ValidateProduct.ExtraKeyReported | middlewares/validateProduct.js:3-26 | a valid product with one more key outside the schema is refused with `"<key>" is not allowed` |

## Left out

- Process wiring, route tables, authentication, and the product and user controllers: they only connect, sign and forward. A route that names a missing handler, and the account handler that uses an unimported `Quotation`, are wiring defects.
- Reads with no logic (list, get by id) are not modelled. Population of references and sorting by `createdAt` are not modelled either: "the last document" is the last row of a collection.
- Numbers are `real` and integers are unbounded: IEEE-754 rounding of `subTotal * 0.18` and precision above 2^53 are not modelled.
- JsText.ToLower: only ASCII letters are lower-cased. Other characters are kept, where JavaScript's full Unicode case mapping would change some.
- Strings are sequences of characters. Joi's lengths count UTF-16 code units, so the two agree only outside the astral planes.
- ValidateProduct.ProductValid: Joi's default `convert` mode is not modelled. It accepts numeric strings such as "5" for `quantity` and `price`; the model refuses them.
- ValidateProduct.FirstIssue: only the messages of the rules used are modelled.
- ValidateProduct.NumberIssue: a number literal too large for a double parses to Infinity, which Joi reports as "cannot be infinity"; the model keeps the literal's real value and reports it as unsafe. Both answers are 400.
- BusinessAccountController.Lookup: which names the array inherits (`inherited`) is taken as given, since they come from the JavaScript and Mongoose runtime. Assigning `.date` to an inherited method attaches a property to that shared function; the model does not track that.
- The `status` default in the product schema has no effect, because the middleware discards the validated value. The model passes the body on unchanged, as the code does.
- Mongoose casting of dates and enum strings is not modelled: bodies carry typed values. An invalid enum string on an update without validators is therefore not represented. Neither are the 400 answers for a malformed ObjectId.
- In the update merges, an absent key keeps the stored value (Mongoose drops `undefined` keys from updates). An explicit `null` is not distinguished from absence, except for the quantity and rate of invoice lines.
- `createdAt`/`updatedAt` timestamps and the follow-up `createdAt` default are not modelled. Neither is strict mode dropping `total`, which is written but is not an Invoice field.
- Notes carry an identifier and a `createdBy` author, as the note routes use them. The note sub-schemas in the models declare `_id: false` and no `createdBy`, so as stored the update and delete routes would match no note. The model follows the routes.
- Concurrency is not modelled, e.g. two creates reading the same last number. The duplicate-leader answers (controllers/teamController.js:65-68, 193-196) are reached sequentially only through the null leader described under Findings.
- Errors swallowed by `updateUserTeamAndDepartment` (logged, then ignored) are not modelled: the helper always succeeds on an existing user.
- The `password` field of the user (authentication) is not modelled.
- models/Department.js is not part of this model: a department is its optional name under a unique index, as the department controller's duplicate-key answer implies.
- Numbering.NextInvoiceNumber: the NaN case follows the code. `String(NaN).padStart(4, '0')` is "0NaN", so the number is `INV-0NaN` (or `Q-0NaN`), not `INV-NaN`. The next number after it is `INV-0001` again.

## Findings

| source | as written | input that shows it | evidently intended | confidence | as-written member | corrected member |
|---|---|---|---|---|---|---|
| controllers/teamController.js:149-153 | `updateTeam` writes `teamLeader: newLeaderId`, which is `null` when the body names no leader. The `teamLeader` index (models/Team.js:16-21) is unique and sparse, and a sparse index skips only documents that lack the field, so every such null is indexed | update two teams, each without a `teamLeader`; the second write breaks the unique index and is answered 400 "already a Team Leader for another team" | any number of teams may have no leader; only actual leaders must be distinct | high, not executed | TeamModel.LeaderlessUpdatesClash | TeamController.UpdateTeam |
