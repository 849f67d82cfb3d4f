# Invoice bookkeeping core in Dafny

This project models the server side of an invoice bookkeeping service:

- **Tables.** There are three relational tables: vendors, invoices and line items. Each has a serial key, and two foreign keys link them. Deleting an invoice cascades to its line items.
- **Input schemas.** The requests are checked against schemas before any handler runs.
- **Handlers.** Six handlers work on those tables: create, update, delete, list and fetch an invoice, and list the vendors.
- **File upload.** An upload handler validates a file and stores it under a generated path.

Layout:

- `db_schema.dfy` (module `DbSchema`):
  - the tables and their rows;
  - the enum, defaults and numeric precision;
  - the store invariant `Valid`, which covers serial keys, both foreign keys and the column precisions.
- `input_schema.dfy` (module `InputSchema`): the request schemas as predicates, and their defaults as functions.
- `lookup.dfy` (module `Lookup`): lookups by id and the row filters that the WHERE clauses and the cascade select.
- One module per handler file:
  - `InvoiceCreation`, `InvoiceUpdate`, `InvoiceDeletion`, `InvoiceListing`, `InvoiceById` and `VendorListing`;
  - each handler is a function from the old store to the new store and its result;
  - lemmas in the same module prove what the handler promises.
- `store.dfy` (module `Handlers`):
  - the database as a mutable `Store` object;
  - one method per handler;
  - each state-changing method is proved equal to its module's function and keeps `Valid()`.
- `upload_invoice.dfy` (module `Upload`):
  - the content-type allow-list with extensions, the size bound, file-name sanitising and path construction;
  - a `FileStore` object whose `UploadInvoice` method writes into a path→bytes map.

Modelling conventions:

- **Row order.** Tables are sequences in ascending id order, which is the order in which serial ids are handed out. The queries have no ORDER BY, so the model lists rows in table order.
- **Vendor reuse.** The vendor find-or-create reuses the first match in table order, which is the match with the lowest id.
- **Amounts.** Money is an exact integer number of cents and quantities are thousandths. A value fits a `numeric(10, s)` column when its absolute value is below 10^10. Create and update require their amounts to fit.
- **Time.** Every clock reading of a call is the one parameter `now` (or `timestamp` for uploads).
- **E-mail format.** The e-mail format check is a parameter `isEmail`.
- **Base64.** The bytes decoded from the upload's base64 text are a parameter.

## Model

| member | source | states |
|---|---|---|
| InputSchema.ParseStatus | server/src/schema.ts:37 | a label parses exactly when it is one of pending, processed, paid, overdue, and it parses to the status with that label |
| InputSchema.StatusLabelRoundTrip | server/src/db/schema.ts:6 | every status's stored label parses back to that status |
| InputSchema.WithCreateDefaults | server/src/schema.ts:90 | a missing status becomes `pending`, a given one is kept, every other field is unchanged |
| InputSchema.WithQueryDefaults | server/src/schema.ts:120-125 | limit defaults to 50 and offset to 0; filters pass through |
| InputSchema.QueryDefaultsAccepted | server/src/schema.ts:123-124 | a query is accepted exactly when any given limit is in [1, 100] and any given offset is non-negative |
| InputSchema.ValidVendorInput | server/src/schema.ts:66-71 | a vendor input needs a non-empty name and, when an e-mail is given, one accepted by the e-mail test; its consequences are stated by `InvoiceCreation.CreateFromValidInput` |
| InputSchema.ValidLineItemInput | server/src/schema.ts:75-80 | a line item needs a non-empty description and positive quantity, unit price and total; `InvoiceCreation.CreateFromValidInput` carries these over to the stored rows |
| InputSchema.ValidCreateInvoiceInput | server/src/schema.ts:84-94 | a non-empty invoice number, a valid vendor, a positive total and at least one valid line item; `InvoiceCreation.CreateFromValidInput` states what an accepted input guarantees of the created rows |
| InputSchema.ValidUpdateInvoiceInput | server/src/schema.ts:99-106 | a given invoice number is non-empty and a given total is positive; `InvoiceUpdate.UpdateFromValidInput` shows an accepted patch keeps both properties of the row |
| InputSchema.ValidInvoicesQuery | server/src/schema.ts:120-125 | limit in [1, 100] and a non-negative offset; `InputSchema.QueryDefaultsAccepted` states exactly when a raw query passes |
| InputSchema.ValidInvoiceIdInput | server/src/schema.ts:129-131 | the id must be positive; `InvoiceById.RejectedIdAbsent` shows a rejected id names no stored invoice |
| InputSchema.ValidUploadInvoiceInput | server/src/schema.ts:111-115 | file name, content type and data must be non-empty; `Upload.SchemaContentTypeSubsumed` shows the content-type rule is implied by the handler's own type check |
| DbSchema.EmptyDbValid | server/src/db/schema.ts:9-42 | the empty database with every sequence at 1 satisfies the store invariant |
| DbSchema.Valid | server/src/db/schema.ts:9-42 | serial primary keys below each sequence, `invoices.vendor_id` and `line_items.invoice_id` referencing stored rows, and amounts within their numeric precision; kept by every handler (`CreatePreservesValid`, `UpdatePreservesValid`, `DeletePreservesValid`) |
| DbSchema.ValidKeysAndReferences | server/src/db/schema.ts:10-36 | no two rows of a table share a primary key, and every line item reaches a stored vendor through its invoice |
| Lookup.VendorIndex | server/src/handlers/get_invoice_by_id.ts:13 | finds a position of a vendor with the id, and finds none exactly when no vendor has it |
| Lookup.InvoiceIndex | server/src/handlers/get_invoice_by_id.ts:15 | finds a position of an invoice with the id, and finds none exactly when no invoice has it |
| Lookup.ItemsOf | server/src/handlers/get_invoice_by_id.ts:27-28 | a line item is selected exactly when it is stored and references the invoice |
| Lookup.ItemsIn | server/src/handlers/get_invoices.ts:46-49 | a line item is selected exactly when it is stored and its invoice id is in the set |
| Lookup.ItemsNotOf | server/src/db/schema.ts:36 | the cascade keeps exactly the stored line items that reference another invoice |
| Lookup.InvoicesExcept | server/src/handlers/delete_invoice.ts:23-26 | the delete keeps exactly the stored invoices with another id |
| Lookup.ItemsOfItemsIn | server/src/handlers/get_invoices.ts:43-49 | for an invoice of the page, selecting its items from the IN query equals selecting them from the whole table |
| Lookup.ItemsOfItemsNotOf | server/src/db/schema.ts:36 | the cascade leaves every other invoice's item list unchanged, order included |
| Lookup.RemoveAtIsExcept | server/src/handlers/delete_invoice.ts:23-26 | removing the one row with an id at its position is the delete by id |
| Lookup.ExceptSerial | server/src/db/schema.ts:20 | deleting an invoice keeps the invoice key serial |
| Lookup.ItemsNotOfSerial | server/src/db/schema.ts:35-36 | the cascade keeps the line-item key serial |
| Lookup.VendorIndexOf | server/src/db/schema.ts:10 | with serial ids the lookup by a row's id finds that row |
| Lookup.InvoiceIndexOf | server/src/db/schema.ts:20 | with serial ids the lookup by a row's id finds that row |
| InvoiceById.GetInvoiceById | server/src/handlers/get_invoice_by_id.ts:10-42 | a missing invoice gives none; a found one is the stored row with id, the vendor it references, and exactly the items that reference it |
| InvoiceById.GetInvoiceByIdFound | server/src/handlers/get_invoice_by_id.ts:18-42 | in a valid store every stored invoice is found, as stored, with every item that references it in table order |
| InvoiceById.GetInvoiceByIdNoItems | server/src/handlers/get_invoice_by_id.ts:27-34 | an invoice without line items comes back with an empty list |
| InvoiceById.RejectedIdAbsent | server/src/schema.ts:129-131 | in a valid store a non-positive id, which the schema rejects, names no invoice, so the lookup would find none |
| InvoiceListing.MatchesQuery | server/src/handlers/get_invoices.ts:10-18 | with neither filter every invoice matches; a given status that differs rejects; a non-zero vendor id that differs rejects; vendor id 0 leaves only the status test |
| InvoiceListing.Listed | server/src/handlers/get_invoices.ts:10-28 | an invoice is listed exactly when it is stored, passes the status and non-zero vendor filters, and its vendor exists |
| InvoiceListing.Page | server/src/handlers/get_invoices.ts:29-35 | the page holds the min(limit, remaining) rows starting at offset, in order |
| InvoiceListing.Hydrate | server/src/handlers/get_invoices.ts:66-86 | the row, the vendor with its vendor id, and exactly its line items |
| InvoiceListing.GetInvoices | server/src/handlers/get_invoices.ts:7-87 | at most limit results, each a stored invoice matching every filter, with its vendor and exactly its line items |
| InvoiceListing.ResultIsPage | server/src/handlers/get_invoices.ts:26-35 | the result's invoices are the [offset, offset + limit) slice of the filtered sequence |
| InvoiceListing.EveryMatchListed | server/src/handlers/get_invoices.ts:10-28 | in a valid store every invoice that matches the filters is in the unpaginated sequence |
| InvoiceListing.ConsecutivePages | server/src/handlers/get_invoices.ts:29-35 | two adjacent pages together are the page spanning both |
| InvoiceListing.PagesCover | server/src/handlers/get_invoices.ts:29-35 | paging with a fixed limit visits the filtered sequence in order without gaps or repeats |
| InvoiceListing.NoMatchEmpty | server/src/handlers/get_invoices.ts:37-40 | with no matching invoice the result is empty |
| InvoiceListing.VendorIdZeroIgnored | server/src/handlers/get_invoices.ts:16 | vendor id 0 filters nothing: the result is that of the query without it |
| InvoiceListing.GroupedStep | server/src/handlers/get_invoices.ts:53-56 | pushing an item onto its invoice's group keeps every group equal to that invoice's items in order |
| InvoiceListing.GroupByInvoice | server/src/handlers/get_invoices.ts:52-63 | each key maps to exactly that invoice's items, in order, and an id that is not a key has none |
| VendorListing.NameLe | server/src/handlers/get_vendors.ts:11 | lexicographic order of code points: the empty name is below every name, and a proper prefix sorts first; its laws are NameLeTotal, NameLeTransitive and NameLeAntisymmetric |
| VendorListing.NameLeTotal | server/src/handlers/get_vendors.ts:11 | any two names are ordered one way or the other |
| VendorListing.NameLeTransitive | server/src/handlers/get_vendors.ts:11 | the name order is transitive |
| VendorListing.NameLeAntisymmetric | server/src/handlers/get_vendors.ts:11 | names ordered both ways are equal |
| VendorListing.InsertByName | server/src/handlers/get_vendors.ts:11 | inserting into a sorted list keeps it sorted and adds exactly that vendor |
| VendorListing.SortByName | server/src/handlers/get_vendors.ts:11 | the result is sorted by name and a permutation of the input |
| VendorListing.GetVendors | server/src/handlers/get_vendors.ts:9-14 | every vendor, sorted ascending by name, as a permutation of the table |
| VendorListing.GetVendorsIsPermutation | server/src/handlers/get_vendors.ts:9-14 | same length, same multiplicity of every vendor, and the same members as the table |
| VendorListing.GetVendorsOnce | server/src/handlers/get_vendors.ts:9-14 | in a valid store every stored vendor appears exactly once |
| VendorListing.GetVendorsEmpty | server/src/handlers/get_vendors.ts:9-14 | with no vendors the result is empty |
| InvoiceCreation.NullIfEmpty | server/src/handlers/create_invoice.ts:28-30 | an absent or empty string becomes NULL, any other is kept |
| InvoiceCreation.VendorMatches | server/src/handlers/create_invoice.ts:13-18 | a vendor with the input name always matches, and without a non-empty input e-mail it matches exactly when the names are equal |
| InvoiceCreation.ResolveVendor | server/src/handlers/create_invoice.ts:11-36 | the resolved vendor is stored and matches; a reuse changes nothing, otherwise one row is appended with the next vendor id and the sequence advances; invoices and line items are untouched |
| InvoiceCreation.NewVendorRow | server/src/handlers/create_invoice.ts:24-35 | the given id, the input name, each optional field NULL exactly when empty or absent and otherwise kept, created at now |
| InvoiceCreation.NewInvoiceRow | server/src/handlers/create_invoice.ts:39-51 | the given id and vendor id, the input number, dates and total, status defaulted to pending, empty file fields NULL, created and updated at now |
| InvoiceCreation.NewLineItemRows | server/src/handlers/create_invoice.ts:56-67 | one row per input item in order, ids counting up from the given one, each referencing the invoice with the item's description and amounts, created at now |
| InvoiceCreation.CreateInvoice | server/src/handlers/create_invoice.ts:7-80 | the returned vendor is stored and matches the input, the invoice gets the next id and references it and is appended, and one line item per input item, referencing the invoice, is appended with the sequence advanced by their count |
| InvoiceCreation.MatchIndex | server/src/handlers/create_invoice.ts:11-22 | the position of the first vendor matching by name or by a non-empty e-mail; none exactly when no vendor matches |
| InvoiceCreation.CreateReusesVendor | server/src/handlers/create_invoice.ts:11-22 | when some vendor matches, the vendor table and its sequence are unchanged and a stored matching row is returned as stored |
| InvoiceCreation.CreateReusesLowestMatch | server/src/handlers/create_invoice.ts:21-22 | the reused vendor has the lowest id among the matches |
| InvoiceCreation.CreateInsertsVendor | server/src/handlers/create_invoice.ts:24-35 | with no match exactly one vendor is appended with the next id, the input name, NULL for empty or absent fields, and created at now |
| InvoiceCreation.CreatedInvoiceRow | server/src/handlers/create_invoice.ts:39-53 | the new invoice has the next id, references the resolved vendor, copies the input, defaults status to pending, stores empty file fields as NULL, and is stamped with now |
| InvoiceCreation.CreatedLineItems | server/src/handlers/create_invoice.ts:56-67 | one row per input item, in input order, with consecutive fresh ids, the new invoice id, the input's description and amounts, and created at now |
| InvoiceCreation.CreateFromValidInput | server/src/schema.ts:66-94 | an accepted input yields a non-empty invoice number, a positive total and at least one line item with positive amounts; a vendor it inserts has a non-empty name and, when it has an e-mail, one the e-mail test accepts |
| InvoiceCreation.CreateOnlyInserts | server/src/handlers/create_invoice.ts:25-67 | every table keeps all its old rows unchanged as a prefix; one invoice and one row per item are added |
| InvoiceCreation.ResolveVendorValid | server/src/handlers/create_invoice.ts:11-36 | the vendor step keeps the invariant, touches only the vendor table and yields a stored vendor |
| InvoiceCreation.CreatePreservesValid | server/src/db/schema.ts:20-40 | creation from an input whose amounts fit keeps serial keys, both foreign keys and the precisions |
| InvoiceCreation.CreateReadBack | server/src/handlers/create_invoice.ts:70-80 | fetching the new invoice by id afterwards returns exactly what creation returned |
| InvoiceCreation.NewItemsOnly | server/src/handlers/create_invoice.ts:56-67 | the items of a fresh invoice id are exactly the rows just inserted |
| InvoiceCreation.CreateTwiceSameVendor | server/src/handlers/create_invoice.ts:11-36 | two creations with the same vendor input return the same vendor, and the second adds no vendor row |
| InvoiceUpdate.ApplyPatch | server/src/handlers/update_invoice.ts:20-42 | each given field is overwritten and each absent one kept; explicit null clears the due date; updated_at is now; id, vendor, file fields and created_at are untouched |
| InvoiceUpdate.UpdateInvoice | server/src/handlers/update_invoice.ts:7-98 | an unknown id gives none and no change; otherwise only the row with that id changes, in place, the other tables and sequences are untouched, and the result is that invoice as stored afterwards |
| InvoiceUpdate.EmptyPatch | server/src/handlers/update_invoice.ts:20-22 | a patch with no field still sets updated_at to now and changes nothing else |
| InvoiceUpdate.PatchIdempotent | server/src/handlers/update_invoice.ts:20-42 | applying the same patch twice equals applying it once at the later time |
| InvoiceUpdate.UpdateFound | server/src/handlers/update_invoice.ts:45-97 | only that row is replaced, in place, by its patched version; the result is the patched row with its vendor and exactly its items |
| InvoiceUpdate.PatchedValid | server/src/db/schema.ts:19-31 | patching a row with a total that fits keeps the store invariant |
| InvoiceUpdate.UpdatePreservesValid | server/src/handlers/update_invoice.ts:45-49 | an update whose total fits keeps the store invariant |
| InvoiceUpdate.UpdateFromValidInput | server/src/schema.ts:99-106 | a patch the schema accepts keeps a non-empty invoice number and a positive total |
| InvoiceDeletion.DeleteInvoice | server/src/handlers/delete_invoice.ts:7-34 | an unknown id gives success false, a null id and no change; a stored id gives success true with that id, removes the invoice and exactly the line items referencing it, keeps every other row, and leaves vendors and sequences unchanged |
| InvoiceDeletion.DeleteKeepsOtherItems | server/src/db/schema.ts:36 | every other invoice's line items are exactly what they were, in order |
| InvoiceDeletion.DeleteThenMissing | server/src/handlers/delete_invoice.ts:10-20 | afterwards the invoice is not found, and deleting it again reports failure with a null id |
| InvoiceDeletion.DeletePreservesValid | server/src/db/schema.ts:36 | deleting keeps the invariant; no line item is left without its invoice |
| Handlers.Store.constructor | server/src/db/schema.ts:9-42 | a new store is the empty database and satisfies the invariant |
| Handlers.Store.CreateInvoice | server/src/handlers/create_invoice.ts:7-80 | the new state and the result are those of `InvoiceCreation.CreateInvoice`; the invariant is kept |
| Handlers.Store.UpdateInvoice | server/src/handlers/update_invoice.ts:7-98 | the new state and the result are those of `InvoiceUpdate.UpdateInvoice`; the invariant is kept |
| Handlers.Store.DeleteInvoice | server/src/handlers/delete_invoice.ts:7-34 | the new state and the result are those of `InvoiceDeletion.DeleteInvoice`; the invariant is kept |
| Handlers.Store.GetInvoices | server/src/handlers/get_invoices.ts:7-87 | the IN query, the grouping and the `|| []` hydration give exactly `InvoiceListing.GetInvoices`; nothing changes |
| Handlers.Store.GetInvoiceById | server/src/handlers/get_invoice_by_id.ts:7-42 | returns `InvoiceById.GetInvoiceById` of the current state; nothing changes |
| Handlers.Store.GetVendors | server/src/handlers/get_vendors.ts:7-14 | returns `VendorListing.GetVendors` of the current state; nothing changes |
| Upload.LowerChar | server/src/handlers/upload_invoice.ts:17 | ASCII capitals map to their lower-case letter, everything else is kept |
| Upload.ToLower | server/src/handlers/upload_invoice.ts:17 | same length, each character lower-cased |
| Upload.ToLowerIdempotent | server/src/handlers/upload_invoice.ts:64 | lower-casing twice is lower-casing once |
| Upload.IsAllowedType | server/src/handlers/upload_invoice.ts:9-17 | only a non-empty content type is allowed; `Upload.AllowedTypeCaseInsensitive` shows every listed type passes and letter case is ignored |
| Upload.AllowedTypeCaseInsensitive | server/src/handlers/upload_invoice.ts:17 | every listed type passes as written, and lower-casing the content type first does not change the verdict |
| Upload.FileExtension | server/src/handlers/upload_invoice.ts:55-65 | the extension is non-empty exactly for an allowed type, and is one of .pdf, .jpg, .png, .gif |
| Upload.FileExtensionTable | server/src/handlers/upload_invoice.ts:56-62 | pdf gives .pdf, jpeg and jpg give .jpg, png gives .png, and gif gives .gif, in any letter case |
| Upload.LastIndexOf | server/src/handlers/upload_invoice.ts:69 | the position of the last occurrence, and none exactly when the character does not occur |
| Upload.BaseName | server/src/handlers/upload_invoice.ts:69 | the base name is the suffix of the path after its last `/`, the whole path when it has none, and contains no `/` |
| Upload.Stem | server/src/handlers/upload_invoice.ts:69 | the stem is a prefix of the base name: either all of it, when no `.` follows its first character, or the non-empty part before the last `.`; it contains no `/` |
| Upload.SanitizeFilename | server/src/handlers/upload_invoice.ts:67-73 | length min(stem length, 100), safe characters kept in place, others replaced by `_`, so every character is in [A-Za-z0-9_-] |
| Upload.SafeNameIsStem | server/src/handlers/upload_invoice.ts:69 | a name of safe characters is its own stem |
| Upload.SanitizeIdempotent | server/src/handlers/upload_invoice.ts:67-73 | sanitising a sanitised name changes nothing |
| Upload.NatToDecimal | server/src/handlers/upload_invoice.ts:34 | the timestamp prints as a non-empty string of digits |
| Upload.DecimalRoundTrip | server/src/handlers/upload_invoice.ts:34 | the printed digits denote the timestamp |
| Upload.FilePath | server/src/handlers/upload_invoice.ts:30-35 | the path is `uploads/invoices/`, then the timestamp digits, then `_`, then the sanitised name, then the content type's extension |
| Upload.DigitsStopAtUnderscore | server/src/handlers/upload_invoice.ts:34 | a run of digits cannot reach past the `_` that follows it |
| Upload.FilePathUnique | server/src/handlers/upload_invoice.ts:30-35 | equal paths come from equal timestamps, so paths from different timestamps differ |
| Upload.UploadCheck | server/src/handlers/upload_invoice.ts:17-28 | passes exactly for an allowed type within 10 MiB; a bad type is reported first, whatever the size |
| Upload.SizeBoundary | server/src/handlers/upload_invoice.ts:25-28 | exactly 10 MiB passes and one byte more is too large |
| Upload.SchemaContentTypeSubsumed | server/src/schema.ts:113 | an empty content type, which the schema rejects, is refused by the handler as unsupported whatever the size |
| Upload.FileStore.UploadInvoice | server/src/handlers/upload_invoice.ts:6-53 | a failed check writes nothing and reports it; otherwise the decoded bytes are stored under the generated path, the only change, and success is reported with that path |

## Left out

- Base64 decoding and its leniency (upload_invoice.ts:22): the decoded bytes are a parameter of `Upload.FileStore.UploadInvoice`.
- Clocks: `Date.now()`, `new Date()` and the columns' `defaultNow()` are parameters. Within one call every timestamp is the same `now`, while the database may stamp each statement separately.
- Directory creation (`mkdir`) and file-system failures: the file store is a map, and a write only adds or replaces one key. A `mkdir` or `writeFile` that throws (upload_invoice.ts:37-41) is not modelled; the model's write always succeeds.
- The e-mail grammar of the schema: it is the parameter `isEmail`.
- Floating point: `toString`/`parseFloat` at the storage boundary, and Postgres rounding or overflow of numeric columns, are not modelled. Amounts are exact integers, and the store operations require that they fit the declared precision.
- Transactions, atomicity and concurrency: the handlers run one at a time on one state. Creation issues separate statements, and nothing here claims that creation is all-or-nothing. The concurrent find-or-create race is outside the model.
- Error rethrow and logging (`console.error`): a database error is not modelled.
- InvoiceCreation.CreateInvoice: with an empty line-item list, the source's bulk insert fails after the invoice row is written. The schema rejects such an input beforehand. The model simply inserts no items.
- InvoiceCreation.CreateReusesLowestMatch: the source takes the first row of an unordered SELECT. The model fixes that row as the lowest-id match.
- InvoiceListing.GetInvoices: the query has no ORDER BY. The model lists invoices, and every item list, in ascending id order.
- VendorListing.GetVendors: the database collation of `ORDER BY name` is modelled as lexicographic order of code points. Vendors with equal names keep table order.
- The update's re-read (update_invoice.ts:54-60) would fail if the vendor row were missing. In a store satisfying the invariant that never happens. The model's re-read then returns none.
- Upload.Stem: a simplification of `path.parse`. It takes the part after the last `/`, then drops everything from the last `.` unless that `.` is the first character. Backslashes, trailing separators and other platform rules of Node's path module are not modelled. So the model gives `"."` for `".."`, where Node gives `".."`, and `""` for `"abc/"`, where Node ignores the trailing separator and gives `"abc"`.
- Upload.FileExtension: the source looks the type up in an object literal, so a key such as `"constructor"` or `"__proto__"` would yield an inherited member rather than `undefined`. The model returns `""` for every unlisted type. The difference cannot be reached, because the allow-list check runs first and rejects those keys.
- Upload.SanitizeFilename: strings are sequences of Unicode code points. JavaScript's regular expression and `substring` count UTF-16 code units, so characters outside the Basic Multilingual Plane are counted differently.
- Upload.ToLower: only ASCII letters are lower-cased. JavaScript's `toLowerCase` also folds non-ASCII letters, and no allowed content type contains one.
- The upload's error messages: the source's error text becomes the `UploadError` constructors. The rounded megabyte count in the size message is not modelled.
- `process_invoice_extraction` is a placeholder that always returns null, and it is not part of this model. The same goes for the RPC routing and server start-up in `index.ts`, and the client user interface.
