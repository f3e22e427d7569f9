# DropEstoque inventory core, modelled in Dafny

DropEstoque is a single-page inventory dashboard for a drop-shipping
warehouse. It keeps two lists in memory: clients (companies, with an
optional email and phone and a `totalSKUs` counter) and stock items (a SKU,
an item name, a quantity and a quality, each owned by one client). This
project models the pure logic of that dashboard:

- the utilities of `src/lib/utils.ts`: phone masking and validation, email
  and SKU validation, the dashboard statistics, the free-text item search,
  the client filter and the quantity sort;
- the state changes made by the event handlers of `src/app/page.tsx`:
  - deleting a client, which also deletes its items;
  - deleting a stock item, with the owner's counter decremented but floored
    at 0;
  - submitting the client form, to create or to edit a client;
  - submitting the stock form, to create or to edit an item, including the
    rule against duplicate SKUs;
  - the live search box;
  - the dashboard's "client with most pieces" figure.

The modules, in dependency order:

| file | module | contents |
|---|---|---|
| `wrappers.dfy` | `Wrappers` | `Option`, `Result` |
| `text.dfy` | `Text` | JavaScript's `\s` whitespace class, ASCII `toLowerCase`/`toUpperCase`, `trim`, `includes` |
| `seqs.dfy` | `Seqs` | `filter`, `map`, `Math.max`, and a description of a filter by the positions it keeps |
| `types.dfy` | `Types` | `Client`, `StockItem`, `Quality`, the store `State`, items of one owner |
| `phone.dfy` | `Phone` | `formatPhone`, `validatePhone` |
| `validation.dfy` | `Validation` | `validateEmail`, `validateSKU` |
| `stats.dfy` | `Stats` | `calculateDashboardStats`, the client with most pieces |
| `search.dfy` | `Search` | `searchStockItems`, `handleSearchChange`, `filterClientsByName` |
| `sorting.dfy` | `Sorting` | `sortStockItemsByQuantity` |
| `store.dfy` | `Store` | the delete handlers and both form submits, as functions from state to state |
| `storeinvariants.dfy` | `StoreInvariants` | store consistency and what each handler does to it |

Modelling decisions:

- Strings are sequences of characters. Case mapping covers ASCII letters
  only. Whitespace is exactly the set that JavaScript's `\s` and `trim`
  recognise.
- A handler that changes state is a function from the old `State` to the
  new one. A refused form submit returns `Failure(...)` and the caller keeps
  its state. The rejection records which fields were wrong.
- The stock form's quantity field is `Option<int>`. `None` stands for the
  empty field and `Some(n)` for the value `parseInt` reads.
- The client selected in the stock view is a parameter (`selected`), and so
  is the record being edited (`editing`). With no selected client the stock
  submit does nothing; the model returns `Failure(NoClientSelected)`.
- `filterClientsByName` reads `client.email.toLowerCase()` without a guard.
  For a client whose name does not match and who has no email, this throws.
  The model returns `Failure(MissingEmail)` for that case instead of a list.
- Array sorting in JavaScript is stable. The quantity sort is therefore
  specified as the stable sort by quantity: a permutation of its input,
  ordered, with the items of each quantity keeping their input order.
  Insertion sort computes it.

Where the page's local update and the API routes under `src/app/api`
behave differently, the model follows the page:

- The DELETE routes answer 404 for a missing id
  (`src/app/api/clientes/[id]/route.ts:44-49`,
  `src/app/api/skus/[id]/route.ts:44-49`); the local update does not check.
  Deleting a client id that is not listed changes nothing. Deleting a stock
  item that is not listed keeps every item but still lowers the counter of
  the client its `clientId` names, floored at 0 (`src/app/page.tsx:150-156`),
  so a consistent store stops being consistent
  (`StoreInvariants.UnlistedItemDeleteBreaksCounters`). That is why
  `StoreInvariants.DeleteStockItemKeepsValid` asks for a listed item.
  Submitting an edit for an id that is not listed changes nothing.
- A stock create uses the selected client record as it is, so there is no
  lookup that could fail. The page sets that record only when a client is
  clicked (`src/app/page.tsx:312`, `src/app/page.tsx:499`). A create then
  replaces the client in the list by one with a raised counter
  (`src/app/page.tsx:815-819`), so every later create in the same view
  works from a stale copy. Only its id and name are read, and neither has
  changed, so the consistency lemmas ask only that the selected id is
  listed.
- An edit rewrites every field of the form.

## Model

| member | source | states |
|---|---|---|
| Phone.FormatPhone | src/lib/utils.ts:10-25 | the digits of the result are the digits of the input; a number with 10 or 11 digits comes back as the `(AA) M…M-LLLL` mask of exactly those digits; any other input comes back unchanged |
| Phone.ValidIffMasked | src/lib/utils.ts:44-47 | `validatePhone` accepts a number exactly when `formatPhone` turns it into a fully masked phone of 10 or 11 digits |
| Phone.FormatIdempotent | src/lib/utils.ts:10-25 | formatting an already formatted number changes nothing |
| Phone.MaskUnique | src/lib/utils.ts:15-22 | a digit string has only one mask, so the formatted form of a number is determined by its digits |
| Phone.FormatElevenDigits | src/lib/utils.ts:15-17 | `11999991111` is shown as `(11) 99999-1111` |
| Phone.FormatTenDigits | src/lib/utils.ts:20-22 | `1199991111` is shown as `(11) 9999-1111` |
| Phone.FormatTooShort | src/lib/utils.ts:24 | `123`, with too few digits, is returned as typed |
| Phone.FormatMasked | src/lib/utils.ts:10-25 | a phone stored in masked form passes through the formatter unchanged |
| Phone.FormatMaskedExample | src/app/page.tsx:25 | the seed phone `(11) 9999-1111` is such a masked phone |
| Validation.EmailAcceptance | src/lib/utils.ts:39-42 | the email pattern accepts a string exactly when it has no whitespace, exactly one `@` with text before it, and a `.` after the `@` with text on both sides |
| Validation.AcceptedEmail | src/lib/utils.ts:39-42 | an accepted address has no whitespace, one `@`, and a dot after the `@` that is neither adjacent to it nor last |
| Validation.EmailAccepted | src/lib/utils.ts:40 | `contato@alpha.com` is accepted |
| Validation.EmailWithoutDotRefused | src/lib/utils.ts:40 | `contato@alpha`, with no dot, is refused |
| Validation.EmailWithTwoAtsRefused | src/lib/utils.ts:40 | `a@b@c.com`, with two `@`, is refused |
| Validation.EmailWithSpaceRefused | src/lib/utils.ts:40 | `a b@c.com`, containing a space, is refused |
| Validation.SkuExamples | src/lib/utils.ts:49-52 | a two-character SKU and a SKU with a space are refused; `SKU001` is accepted |
| Stats.CalculateDashboardStats | src/lib/utils.ts:55-70 | the client count is the list length; the SKU count is the number of positions whose SKU string does not occur earlier in the list, so it is at most the item count, at least 1 with any items, and equal to it when all SKU strings differ; the piece count is the sum of quantities, non-negative when every quantity is; the low-stock count is the number of positions holding fewer than 10 pieces |
| Stats.SkuSetBounds | src/lib/utils.ts:57-58 | the set of distinct SKU strings is bounded by the item count from above and by 1 from below on a non-empty list, and reaches the item count when no SKU repeats |
| Stats.SkuSetCountsFirstPositions | src/lib/utils.ts:57-58 | the number of distinct SKU strings equals the number of positions at which a SKU string occurs for the first time |
| Stats.SharedSkuCountsOnce | src/lib/utils.ts:57-58 | one SKU string stocked by two clients counts once |
| Stats.TotalQuantityConcat | src/lib/utils.ts:59 | the piece total of two lists joined is the sum of their totals |
| Stats.TotalQuantityNonNegative | src/lib/utils.ts:59 | non-negative quantities add up to a non-negative total |
| Stats.ClientWithMostPieces | src/app/page.tsx:376-390 | with no clients, no winner and a count of 0; otherwise the winner's piece total is at least every client's, every client before the winner has strictly fewer pieces (ties go to the earliest), and the count is the winner's total |
| Text.TrimSpec | src/lib/utils.ts:76 | `trim` returns the text between leading and trailing whitespace: empty exactly for blank input, otherwise starting and ending with a non-whitespace character |
| Search.SearchStockItems | src/lib/utils.ts:73-83 | a blank query finds nothing; otherwise the result lists, in list order, exactly the items whose lower-cased SKU, item name or client name contains the trimmed lower-cased query |
| Search.HandleSearchChange | src/app/page.tsx:77-82 | the handler's own blank check agrees with the search: the results shown are the search's results |
| Search.SearchCaseInsensitive | src/lib/utils.ts:76-81 | queries that lower-case alike find the same items |
| Search.SearchConcat | src/lib/utils.ts:78-82 | searching two lists joined gives the two results joined |
| Search.SearchFindsSku | src/lib/utils.ts:76-79 | typing an item's SKU, in any case and with surrounding spaces, finds that item |
| Search.ScanClients | src/lib/utils.ts:90-93 | the scan fails exactly when some client has a non-matching name and no email; otherwise it keeps the matching clients |
| Search.FilterClientsByName | src/lib/utils.ts:85-94 | a blank query returns every client; otherwise the filter fails exactly when some client has a non-matching name and no email, and on success it returns, in list order, exactly the clients whose name or email contains the term |
| Search.FilterWithEmailsSucceeds | src/lib/utils.ts:90-93 | when every client has an email the filter never fails |
| Sorting.SortStockItemsByQuantity | src/lib/utils.ts:111-116 | the result is a permutation of the input, ordered by quantity in the chosen direction, and keeps the input order among items of equal quantity |
| Store.DeleteClient | src/app/page.tsx:114-115 | afterwards no client has the id and no item refers to it; every other client and item survives, in order; the number of items removed is the number the client owned |
| Store.DeleteStockItem | src/app/page.tsx:147-156 | the item's id is gone and every other item survives in order; a client of the item's owner id loses one from its counter, floored at 0; every other client is unchanged |
| Store.NextClientId | src/app/page.tsx:678 | the new client id is larger than every existing id and one more than the largest |
| Store.CreateClient | src/app/page.tsx:676-684 | one client is appended after the unchanged list, with a fresh id, a zero counter, the trimmed name and the stored email and phone; the items are untouched |
| Store.EditClient | src/app/page.tsx:663-674 | only clients with the edited id change, and only in name, email and phone; ids, counters and items stay |
| Store.SubmitClientForm | src/app/page.tsx:646-685 | the submit is refused exactly when the trimmed name is empty, or a non-blank email fails the email check, or a non-blank phone fails the phone check; otherwise it edits or creates |
| Store.NextItemId | src/app/page.tsx:804 | the new item id is larger than every existing id and one more than the largest |
| Store.CreateStockItem | src/app/page.tsx:801-819 | one item is appended with a fresh id, the selected client's id and name, the upper-cased trimmed SKU and the trimmed name; the clients keep their ids, that client's counter goes up by exactly 1 and no other client changes |
| Store.EditStockItem | src/app/page.tsx:788-800 | only items with the edited id change; their id, owner and owner name stay; the clients are untouched |
| Store.SubmitStockForm | src/app/page.tsx:760-820 | with no selected client, nothing happens. Otherwise the submit is refused exactly when: the SKU fails the SKU rule, the trimmed item name is empty, the quantity is missing or negative, or, on a create, the client already owns the SKU ignoring case. A duplicate is reported as such |
| StoreInvariants.DeleteClientKeepsValid | src/app/page.tsx:114-115 | a client delete keeps ids unique, every item owned by a listed client, every counter equal to the owner's item count, and SKUs distinct per client |
| StoreInvariants.DeleteClientKeepsCounters | src/app/page.tsx:114-115 | the cascade leaves every surviving client's counter equal to its item count |
| StoreInvariants.CascadeMatchesCounter | src/app/page.tsx:110-115 | in a consistent store the cascade removes exactly as many items as the deleted client's counter says |
| StoreInvariants.DeleteStockItemKeepsValid | src/app/page.tsx:147-156 | deleting a listed item keeps the store consistent and SKUs distinct per client |
| StoreInvariants.UnlistedItemDeleteBreaksCounters | src/app/page.tsx:147-156 | deleting an item that is not listed keeps every item but lowers a positive owner counter, so a store whose counters matched no longer does |
| StoreInvariants.OwnedAfterItemDelete | src/app/page.tsx:147-156 | with unique item ids, the delete takes one item off its owner's list and none off any other client's |
| StoreInvariants.StoredContactsValid | src/app/page.tsx:652-683 | after a successful client submit, the email is stored exactly when it was not blank, as typed and valid; the phone is stored exactly when it was not blank, as a masked phone |
| StoreInvariants.SubmitClientFormKeepsValid | src/app/page.tsx:646-685 | a successful client submit keeps the store consistent and leaves the items alone |
| StoreInvariants.CreateClientKeepsCounters | src/app/page.tsx:676-684 | a new client owns no items yet, matching its zero counter |
| StoreInvariants.StoredSkuSameIgnoringCase | src/app/page.tsx:794-807 | a valid SKU, stored upper-cased, still equals the typed SKU ignoring case and still passes the SKU rule |
| StoreInvariants.SubmitStockFormKeepsValid | src/app/page.tsx:760-820 | a successful stock submit whose selected record carries a listed client id, stale or not, keeps the store consistent |
| StoreInvariants.CreateStockItemKeepsValid | src/app/page.tsx:801-819 | a stock create from a record whose id is listed keeps ids unique, owners listed and counters equal to item counts |
| StoreInvariants.CreateLeavesSelectionStale | src/app/page.tsx:815-819 | after a create the selected record is no longer in the client list, but a client with its id still is |
| StoreInvariants.RepeatedCreatesKeepValid | src/app/page.tsx:801-819 | two creates in a row from the same selected record, the second from the stale copy, keep the store consistent |
| StoreInvariants.CreateKeepsSkusDistinct | src/app/page.tsx:772-786 | a successful create never gives a client two SKUs equal ignoring case |
| StoreInvariants.CreatedSkuBlocksDuplicate | src/app/page.tsx:772-786 | after a SKU is created, submitting it again for the same client, in any case, is refused as a duplicate |
| StoreInvariants.EditSkipsDuplicateCheck | src/app/page.tsx:772-800 | an edit that gives an item the SKU of another item of the same client is accepted, and the client then owns two items with that SKU |
| StoreInvariants.CreateAddsPieces | src/app/page.tsx:801-819 | a stock create adds its quantity to the total pieces and to its owner's pieces, and one item to its owner's list |

## Left out

- Network calls, `window.confirm` and `alert`: the delete handlers are modelled as the state change made after the server has answered with success. A refused confirmation or a failed request leaves the state unchanged, and the state before the call is that state.
- Store.CreateClient and Store.CreateStockItem require a non-empty list, and so do Store.SubmitClientForm and Store.SubmitStockForm for a create that passes validation. On an empty list `Math.max()` is `-Infinity`, an id that is not an integer, and ids are modelled as integers. A submit refused by validation, and a stock submit with no selected client, are modelled on empty lists too, since the source returns before `Math.max`.
- Store.SubmitStockForm: the quantity field is the value `parseInt` reads, or `None` for the empty field. Text that `parseInt` reads as `NaN` passes the `< 0` check in the source and is stored as `NaN`; numbers other than integers are not modelled.
- Text: `toLowerCase`/`toUpperCase` are modelled on ASCII letters only. Strings are sequences of code points, not UTF-16 units, so lengths of text outside the Basic Multilingual Plane differ from JavaScript's.
- UI-only state is not modelled: modal flags, error-message texts, the typed search string, view switching and the selected client after a delete.
- Login and logout are a gate with no domain state. The editable dashboard figures (`handleEditStat`/`handleSaveStat`) are a stub.
- Not modelled:
  - `formatNumber` and `formatCurrency`: locale formatting;
  - `sortClientsByName` and `sortStockItemsBySKU`: `localeCompare` collation;
  - `cn`, `debounce`, the mock-data generators and the seed data.
- The HTTP routes under `src/app/api` (their own in-memory copies and responses) are not part of this model.
- StoreInvariants.Valid is preserved by every handler from a consistent store, but the page's own starting data is not consistent: in `src/app/page.tsx:24-46` client 1 has `totalSKUs: 15` but owns 4 items, and the other seed clients are off in the same way. The preservation lemmas therefore say nothing about a session that starts from that data.
- Ids, quantities and sums are unbounded integers. JavaScript numbers lose precision beyond 2^53, where `+ 1` on an id and the `reduce` sum of quantities would round; that range is not modelled.
- Editing a client does not update the `clientName` copied into that client's items. The model keeps this, as the source does.
