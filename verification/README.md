# BarDashboardVPS in Dafny

A model of the pure logic of BarDashboardVPS, a Next.js app a bar uses to keep
customer tabs ("caderneta"), open tables ("mesas"), walk-in PIX purchases and a
product catalogue. The model covers:

- the login rate limiter and the login handler around it;
- the edge middleware and the session helper that decide who may see a path;
- the browser-side lookup of the session cookie;
- the balance fold over a client's transactions and the error sanitiser;
- the zod schemas the API routes validate against;
- the search route, with its LIKE escaping and its length guard;
- the client list page: filters, filter labels, sort orders, reset, the
  displayed list, the comma-separated nickname and tag fields, and the three
  dashboard figures;
- the open-table page: the request bodies it builds (new table, add item,
  change quantity, remove item, partial payment, finalize), the two table
  totals, the quantity stepper and the colours;
- the PIX counter: item admission, cart total, removal, posting, the list of
  open purchases and its search, and sending a purchase to a client's tab;
- the grouping of the catalogue by category.

Each piece is a module of pure functions over immutable datatypes:

| module | file | models |
|---|---|---|
| `RateLimit` | rate_limit.dfy | lib/rate-limit.js |
| `Login` | login.dfy | app/api/auth/login/route.js |
| `Access` | access.dfy | middleware.js, lib/supabase-middle.js |
| `ClientToken` | client_token.dfy | `getClientToken` in lib/auth.js |
| `Ledger` | ledger.dfy | lib/api-utils.js |
| `Validation` | validation.dfy | lib/validation.js |
| `Search` | search.dfy | app/api/search/route.js |
| `Clients` | clients.dfy | app/page.js |
| `Dashboard` | dashboard.dfy | components/dashboard/DashboardStats.js |
| `Display` | display.dfy | the balance and subtotal colours |
| `Mesas` | mesas.dfy | app/mesas/page.js, MesaCard.js, MesaDialog.js |
| `Pix` | pix.dfy | app/pix/page.js, app/pix/components/NewPixDialog.js |
| `Products` | products.dfy | app/produtos/components/ProductList.js |
| `Text`, `Seqs`, `Sorting`, `Wrappers` | text.dfy, seqs.dfy, sorting.dfy, wrappers.dfy | the JavaScript string and array built-ins the code relies on |

Some inputs are parameters of the model rather than computed by it:

- `Date.now()` is a `now: nat` parameter in milliseconds.
- The store's answers are given as inputs: the user lookup, the transaction
  rows, the search rows, and whether a `fetch` rejected or answered with `res.ok`.
- `bcrypt.compare` and Supabase's `getUser` are oracles.
- The locale collation used by `localeCompare` is a `rank` function.
- The e-mail and uuid format checks of zod are predicates `isEmail` and `isUuid`.

JavaScript numbers are exact `real`s. Each `parseInt`/`parseFloat` of a form
field is supplied with the field (`NumText`: the typed text and its parsed
value), and NaN is `None`. The NaN cases of the PIX cart are kept; those of the
open-table page are not (see `Mesas.NewItem` under "## Left out").

The dialog app/pix/components/NewPixDialog.js repeats the page's cart code
line for line (lines 26-92 against app/pix/page.js:87-153), so one model
serves both. Its only difference is calling `onSuccess()` instead of
`loadCompras()`.

## Model

| member | source | states |
|---|---|---|
| RateLimit.Check | lib/rate-limit.js:18-69 | Only the entry for the identifier is read or written. An unknown identifier gets a fresh record (count 1, no block) and 4 attempts left. An active block is refused with `ceil((blockedUntil-now)/1000)` seconds and the map unchanged. An expired block starts a fresh cycle. Otherwise the count goes up by one, and the attempt that reaches 5 is itself refused and blocks for 60 s. An allowed answer reports `5 - count` and at least 1 left. |
| RateLimit.CeilSeconds | lib/rate-limit.js:32 | The seconds reported are the least whole number covering the remaining milliseconds, and at least 1. |
| RateLimit.CheckKeepsBounds | lib/rate-limit.js:50-68 | From reachable records and a clock that does not run backwards, every stored count stays in 1..5. A block is set exactly at count 5. An allowed answer leaves 1 to 4 attempts, and a denial lasts 1 to 60 s. |
| RateLimit.FifthAttemptBlocks | lib/rate-limit.js:50-62 | From an unknown identifier, five attempts answer 4, 3, 2, 1 left and then a 60 s denial. The stored record is then count 5 with `blockedUntil = now + 60000`. |
| RateLimit.DenialEndsAfterCooldown | lib/rate-limit.js:41-48 | After a denial of S seconds, an attempt S seconds later starts a fresh cycle with 4 attempts left. |
| RateLimit.DistinctIdentifiersIndependent | lib/rate-limit.js:18-69 | An attempt on one identifier changes neither the verdict for another identifier nor that identifier's stored entry. |
| RateLimit.Reset | lib/rate-limit.js:71-73 | `resetRateLimit` removes exactly that key; every other entry is kept as it was. |
| RateLimit.ResetForgetsAttempts | lib/rate-limit.js:22-28 | After a reset, the next attempt is treated as a first attempt. |
| RateLimit.Sweep | lib/rate-limit.js:9-16 | The cleanup keeps exactly the records whose last attempt is at most 5 minutes old, unchanged. |
| RateLimit.SweepEntries | lib/rate-limit.js:11-15 | The entry-by-entry deletion loop of the timer leaves the same map as the declarative sweep. |
| RateLimit.SweptIdentifierStartsFresh | lib/rate-limit.js:12-13 | An identifier removed by the sweep is treated as new on its next attempt. |
| Login.Post | app/api/auth/login/route.js:7-81 | A missing field gives 400, and the limiter is not touched. Otherwise the limiter is consulted first, keyed by the lower-cased e-mail. A denial gives 429 with the limiter's message and cooldown, and nothing else happens. Either credential failure gives 401 with the remaining attempts, and the limiter keeps the attempt counted. The trace says whether the user lookup or the comparison failed. Success resets the same key, then sets the cookie, and replies with the user's id, e-mail and name. An exception gives 500 with the generic message. Whatever the limiter recorded before the exception stays recorded. |
| Login.RejectedPostIsCounted | app/api/auth/login/route.js:18-59 | A wrong e-mail or password that the limiter allows gets 401, and the limiter keeps the attempt counted. |
| Login.FifthFailedLoginThrottled | app/api/auth/login/route.js:18-59 | Four failed logins for one e-mail get 401 with 4, 3, 2 and 1 attempts left. The fifth gets 429 with a 60-second cooldown. |
| Login.UnknownUserLooksLikeWrongPassword | app/api/auth/login/route.js:39-59 | An unknown user and a wrong password get the same reply and leave the limiter in the same state. |
| Login.ResetOnlyAfterPasswordMatch | app/api/auth/login/route.js:49-63 | The limiter is reset only when the password matched, for the key that was checked, right after the lookup and comparison and before the cookie. |
| Access.Middleware | middleware.js:4-101 | Static, dotted and `/api/auth` paths pass, and so do `/login…` paths. Otherwise an unauthenticated request gets 401 on `/api…` and a redirect to `/login?redirect=<path>` elsewhere, and an authenticated one passes. |
| Access.Refuse | middleware.js:85-97 | An unauthenticated request is answered with 401 exactly on API paths, and is otherwise redirected back to its own path. |
| Access.UpdateSession | lib/supabase-middle.js:4-59 | `/api/auth` always passes. Otherwise the request passes when it is authenticated or the path is public; if not, it gets 401 on API paths and a redirect elsewhere. |
| Access.HelpersAgreeWhenChecked | lib/supabase-middle.js:7-56 | On any path the middleware does not skip, the middleware and the session helper decide alike. |
| Access.SkippedPathsIgnoreUser | middleware.js:8-23 | Skipped and public paths pass whether or not a user is signed in. |
| Access.SignedInAlwaysPasses | middleware.js:83-100 | An authenticated request always passes both helpers. |
| Access.DottedApiPathSkipsCheck | middleware.js:12 | Every API path outside `/api/auth` that contains a dot passes the middleware unchecked, where the session helper would answer 401 to a request without a user. |
| Access.DottedApiPathExample | middleware.js:12 | The bypass applies to a real path: `/api/clientes/a.b` passes the middleware with no user, while the session helper answers it with 401. |
| ClientToken.GetClientToken | lib/auth.js:59-68 | No document gives null. Otherwise the result is null exactly when no `;`-segment starts with `auth-token=` once trimmed, or else it is the value of the first such segment. The value never holds `=` or `;`. |
| ClientToken.TokenSegment | lib/auth.js:63 | `find` returns the first segment that matches, or nothing when none does. |
| ClientToken.ValueOf | lib/auth.js:67 | `split('=')[1]` is the text from the first `=` up to the next `=` or the end. |
| ClientToken.FirstTokenValue | lib/auth.js:62-65 | Reference definition: the value of the first pair named `auth-token`, or nothing when there is none. |
| ClientToken.MatchesOnlyTokenName | lib/auth.js:63 | A well-formed pair matches exactly when its name is `auth-token`, so `auth-token2=…` does not. |
| ClientToken.ReadsBackFirstToken | lib/auth.js:62-67 | Reading back a cookie string made of well-formed pairs gives the value of the first `auth-token` pair, or null. |
| ClientToken.ReadsBackAt | lib/auth.js:63-67 | When the first `auth-token` pair is at position i, its value is returned. |
| ClientToken.ReadsBackNone | lib/auth.js:63-65 | A cookie string without an `auth-token` pair gives null. |
| ClientToken.EmptyCookieString | lib/auth.js:62-65 | An empty cookie string gives null. |
| Ledger.CalculateBalance | lib/api-utils.js:3-27 | A failed read gives 0. Otherwise the loop returns the sum of the `abate` amounts minus the sum of the `compra` amounts. |
| Ledger.SanitizeError | lib/api-utils.js:29-35 | In production the fixed generic message is returned, and otherwise the error's own message. |
| Ledger.BalanceAppend | lib/api-utils.js:18-24 | One more row moves the balance by its signed amount: up for `abate`, down for `compra`. |
| Ledger.OtherKindsIgnored | lib/api-utils.js:18-26 | An empty history has balance 0, and rows of any other kind contribute nothing. |
| Ledger.BalanceOrderIndependent | lib/api-utils.js:15-26 | Two histories with the same rows in any order have the same balance. |
| Ledger.PurchaseLowersBalance | lib/api-utils.js:21-22 | Appending a `compra` of v lowers the balance by exactly v. |
| Ledger.ZeroOutPaymentClearsBalance | lib/api-utils.js:19-20 | Paying the absolute value of a negative balance leaves exactly 0. |
| Validation.CheckCliente | lib/validation.js:3-13 | No issues exactly when the client meets every rule: a name of 1..200 characters, phone ≤ 20, a well-formed or empty e-mail, ≤ 10 nicknames of ≤ 100 characters, a whole payment day 1..31, a limit in 0..999999, ≤ 20 tags of ≤ 50 characters, a photo path ≤ 500 and a status from the three allowed. |
| Validation.CheckTransacao | lib/validation.js:15-21 | No issues exactly when the client id is a uuid, the kind is `compra` or `abate`, the amount is in (0, 999999], and the note is at most 500 characters or null or absent. |
| Validation.CheckProduto | lib/validation.js:23-29 | No issues exactly when the name has 1..200 characters, the price is in (0, 999999], the category is ≤ 100 characters or null or absent, and the fee is any number or null or absent. |
| Validation.PixItemsIssues | lib/validation.js:33-37 | No issues exactly when every line has a name of 1..200 characters, a price in (0, 999999] and a whole quantity 1..1000. |
| Validation.CheckCompraPix | lib/validation.js:31-39 | No issues exactly when the name has 1..200 characters, there is at least one acceptable line, and the total is in (0, 999999]. |
| Validation.CheckMesa | lib/validation.js:41-46 | No issues exactly when the name has 1..200 characters and the note is ≤ 500 characters or null or absent. |
| Validation.CheckSearchQuery | lib/validation.js:48 | A query string is accepted exactly when it has at most 100 characters. |
| Search.EscapeLike | app/api/search/route.js:25 | A backslash goes before every `%` and every `_`, and every other character is kept in order. This is stated for one character, and `EscapeLikeConcat` extends it to any text. The result is as long as the query plus its `%` and `_` characters, and a query without `\` reads back as itself literally. |
| Search.EscapeLikeConcat | app/api/search/route.js:25 | Escaping works character by character: the escape of a concatenation is the concatenation of the escapes. |
| Search.EscapeLikeMisreadsBackslash | app/api/search/route.js:25 | As written, the query `\` is sent as `%\%`, which PostgreSQL reads as "ends with `%`", so `5%` is found although it holds no backslash. The query `a\b` is searched for as `ab`. |
| Search.EscapeLikeLiteral | app/api/search/route.js:25 | Corrected: with `\` escaped as well, every query reads back at the LIKE level as exactly its own text. |
| Search.SurroundedMatchesIncludes | app/api/search/route.js:30 | A pattern `%q%` matches exactly the strings that contain q. |
| Search.PatternMeansContains | app/api/search/route.js:25-31 | For a query without `\`, the pattern the route sends reads as `%q%`, and a column passes `ilike` exactly when it contains the query, ignoring case. |
| Search.LiteralPatternMeansContains | app/api/search/route.js:25-31 | Corrected: with the backslash escaped too, every query is searched for as itself, ignoring case. |
| Search.Get | app/api/search/route.js:8-39 | A query over 100 characters gives 400, and an empty query gives an empty list. Otherwise the reply is the first 10 rows (or all of them, if fewer) of the store query for `%`, the query with `%` and `_` escaped, `%`. A store error gives the sanitised message. |
| Search.EmptyQuerySkipsStore | app/api/search/route.js:21-23 | An empty query gets the same empty answer whatever the store would return. |
| Clients.ApplyFilters | app/page.js:44-122 | `searchResults` is the input filtered by every active filter and then stably sorted by the chosen order. The labels read back to exactly the active filters, in order. |
| Clients.StagedIsOneFilter | app/page.js:45-107 | The chain of `filter` calls keeps exactly the clients that meet every active filter's condition. |
| Clients.FilteredIsSubsetPermutation | app/page.js:45-118 | The result holds each client meeting the filters exactly as often as the input does, and nothing else. |
| Clients.SortOrders | app/page.js:109-118 | The result follows the chosen order: ascending balance, descending balance, descending limit (missing as 0), or ascending or descending name rank. |
| Clients.UnknownOrderKeepsOrder | app/page.js:116 | An unknown order leaves the filtered clients in their original order. |
| Clients.LabelsNameActiveFilters | app/page.js:57-107 | One label per active filter, in the order day, limit, status, balance, tag, data. The text search adds none. |
| Clients.LabelKind | app/page.js:60-106 | Each filter's label begins with words that name that filter and no other. |
| Clients.Capitalize | app/page.js:78 | The status label's first letter is upper-cased, and the rest is kept. |
| Clients.NothingActiveKeepsEveryone | app/page.js:48-107 | With no search and no active filter, every client is kept. |
| Clients.ResetFilters | app/page.js:124-136 | Every filter returns to its default (`''`, `'todos'`, `'nome_asc'`), and the labels and results are cleared. |
| Clients.Displayed | app/page.js:178-179 | The full list is shown unless the list is modified, and then the filtered results are shown. |
| Clients.ResetShowsEverything | app/page.js:178-180 | After a reset the full list is displayed and no filter counts as active. |
| Clients.ParseList | app/page.js:146-147 | An empty field gives []. Otherwise the entries are non-empty and trimmed and contain no comma, and they are the trimmed pieces of the split in their input order. |
| Clients.ParseListRoundTrip | app/page.js:146 | A list written with `", "` between trimmed, comma-free, non-empty entries reads back as the same list. |
| Dashboard.DebtorCount | components/dashboard/DashboardStats.js:28 | No clients count 0. Each client with a negative balance adds one and anybody else nothing, so the count never exceeds the displayed clients. |
| Dashboard.AllDebtorsIff | components/dashboard/DashboardStats.js:28 | The debtor count equals the displayed count exactly when every displayed client owes money. |
| Dashboard.Owed | components/dashboard/DashboardStats.js:39 | A client adds a non-negative amount, which is positive exactly when they owe money. A debtor adds the absolute value of their balance. |
| Dashboard.Outstanding | components/dashboard/DashboardStats.js:39 | The total in arrears is the sum of the absolute balances of the displayed debtors, that is, minus the sum of their balances. It is never negative. |
| Dashboard.OutstandingIsDebtorsOnly | components/dashboard/DashboardStats.js:39 | The total over all displayed clients equals the total over the debtors alone. |
| Dashboard.NothingOutstandingIff | components/dashboard/DashboardStats.js:27-39 | Nothing is outstanding exactly when the debtor count is 0. |
| Dashboard.NoteNeedsFiltering | components/dashboard/DashboardStats.js:16-18 | The "de N total" note shows only for a modified list whose displayed results differ from the full list. |
| Display.BalanceTone | app/page.js:172-176 | Green exactly for a positive balance, red for a negative one, gray for zero. |
| Display.BalanceToneMirrors | app/mesas/components/MesaCard.js:24 | Negating the amount swaps green and red and keeps gray. |
| Display.SubtotalTone | app/mesas/components/MesaDialog.js:113-115 | Emerald exactly for a subtotal of zero or more, red below. |
| Display.RedAgrees | app/mesas/components/MesaDialog.js:114 | The subtotal is red for exactly the amounts the balance colouring shows red. |
| Mesas.CreateMesa | app/mesas/page.js:62-72 | A new table has the given name, no items, a null note when the note is empty, and one `info` log "Mesa <nome> aberta.". |
| Mesas.CreateAcceptedIff | app/mesas/page.js:67-72 | The server accepts the new table exactly when the name has 1..200 characters and the note ≤ 500. |
| Mesas.CatalogPrice | app/mesas/page.js:97-103 | The price is `preco + valor_taxa` when the fee is positive, which is more than `preco`, and otherwise `preco`. |
| Mesas.NewItem | app/mesas/page.js:87-112 | The new line gets id `Date.now()`, is neither a payment nor a kg item, and has the truncated quantity. It takes the typed name and price, or the product's name, id and fee-inclusive price. |
| Mesas.AddMessage | app/mesas/page.js:95-115 | The log text names the typed quantity and the item, with "(Manual)" for a typed item and " (Taxa inclusa)" exactly when a fee was added. |
| Mesas.AddItem | app/mesas/page.js:83-131 | The body appends exactly the new line after the old ones and appends one `add` log, leaving earlier logs, the name and the note as they were. The total grows by the new line. |
| Mesas.FeeNoteIffFeeCharged | app/mesas/page.js:97-115 | The fee note is in the log exactly when the fee was added to the price. |
| Mesas.UpdateQuantidade | app/mesas/page.js:141-163 | Only the quantity of the lines with that id changes, and everything else stays in place. One `update` log names the item found. |
| Mesas.LastNameWithId | app/mesas/page.js:143-150 | The log names the last line with the id, or the empty text when none has it. |
| Mesas.UpdateShiftsTotal | app/mesas/page.js:144-150 | With a unique id, the total moves by that line's price times the change in quantity. |
| Mesas.RemoveItem | app/mesas/page.js:173-189 | Exactly the lines with that id are dropped, and the rest keep their order. One `remove` log names the first such line, or "undefined". |
| Mesas.FirstNameWithId | app/mesas/page.js:175 | `find` gives the first line with the id, and `?.nome` of nothing prints as "undefined". |
| Mesas.RemoveLowersTotal | app/mesas/page.js:176 | Removing takes exactly the removed lines off the total. |
| Mesas.RemoveAbsentKeepsItems | app/mesas/page.js:176 | Removing an id no line has keeps the lines as they were. |
| Mesas.Abater | app/mesas/page.js:199-222 | One payment line is appended: price `-valor`, quantity 1, marked as a payment. The total drops by exactly `valor`, and one `money` log is appended. |
| Mesas.PayingTheTotalZeroesIt | app/mesas/page.js:200-211 | Paying the table's total leaves it at exactly 0. |
| Mesas.FinalizeAsWritten | app/mesas/page.js:233-275 | As written, a 'fiado' finalize posts the purchase for the given total and then deletes the table unless the fetch itself rejected. Other payments only delete. |
| Mesas.FinalizeAsWrittenLosesRejectedTab | app/mesas/page.js:243-270 | A purchase the server refuses still deletes the table. |
| Mesas.LongNoteLosesTab | app/mesas/page.js:243-270 | A note over 500 characters, which the dialog lets through, makes the schema refuse the purchase. The table as written is deleted anyway, and the corrected version keeps it. |
| Mesas.Finalize | app/mesas/page.js:233-275 | Corrected: a 'fiado' finalize posts one `compra` for the passed total and deletes the table only when the server accepted it. Other payments post nothing and delete. |
| Mesas.DeletedOnlyWhenRecorded | app/mesas/page.js:242-270 | On the 'fiado' path the table is deleted only when its purchase was recorded. |
| Mesas.PurchaseAcceptedIff | app/mesas/page.js:243-256 | The posted purchase is accepted exactly when the client id is a uuid, the total is in (0, 999999] and the note ≤ 500. |
| Mesas.Trunc | app/mesas/components/MesaDialog.js:24 | `parseInt` of a number keeps its integer part, truncating toward zero. |
| Mesas.KgTotalMatchesCardTotal | app/mesas/components/MesaDialog.js:22-27 | Without kg items, and with whole quantities, the detail total equals the card total. |
| Mesas.Total | app/mesas/components/MesaCard.js:27-29 | The card total of no lines is 0, and that of one line is its price times its quantity. |
| Mesas.TotalConcat | app/mesas/components/MesaCard.js:27-29 | The card total is additive: two lists of lines total the sum of their totals. |
| Mesas.KgTotal | app/mesas/components/MesaDialog.js:22-27 | The detail total of no lines is 0. One kg line counts its price. One other line counts its price times its quantity truncated to an integer. |
| Mesas.KgTotalConcat | app/mesas/components/MesaDialog.js:22-27 | The detail total is additive over concatenated lists of lines. |
| Mesas.KgItemTotalsDiffer | app/mesas/components/MesaCard.js:27-29 | For a kg line of 0.5 kg priced 30, the card shows 15 and the detail shows 30. |
| Mesas.UnitPrice | app/mesas/components/MesaDialog.js:92 | A kg line shows `preco / quantidade` per unit, which times the weight gives the line total. It is undefined at weight 0. |
| Mesas.ShownLine | app/mesas/components/MesaDialog.js:98 | The line total is `preco` for a kg line and `preco * quantidade` otherwise. |
| Mesas.Decrement | app/mesas/components/MesaCard.js:98-105 | The minus button is enabled exactly on a non-payment line with quantity above 1, and it sends the quantity minus 1. |
| Mesas.Increment | app/mesas/components/MesaCard.js:110-114 | The plus button is shown exactly on non-payment lines, and it sends the quantity plus 1. |
| Mesas.StepperKeepsQuantityPositive | app/mesas/components/MesaCard.js:98-116 | From a whole quantity of at least 1, the stepper only ever sends whole quantities of at least 1. |
| Pix.AddItem | app/pix/page.js:87-114 | The guard refuses a typed item without a name, without a price or with a price ≤ 0, and a catalogue item without a selection, without a quantity or with a quantity ≤ 0. An admitted item is appended with id `Date.now()` and the form is reset; a refused one changes nothing. |
| Pix.AddItemAddsLine | app/pix/page.js:97-110 | An admitted item adds its own line to the total. |
| Pix.CustomQuantityUnchecked | app/pix/components/NewPixDialog.js:28-34 | A typed item's quantity is not checked: quantity 0 enters the cart, and the purchase holding it is refused by the server. |
| Pix.Total | app/pix/page.js:120-122 | NaN exactly when some line is not numeric, and otherwise the sum of price times quantity, which is 0 for an empty cart. |
| Pix.PositiveTotal | app/pix/components/NewPixDialog.js:59-61 | Lines with positive price and quantity give a positive total. |
| Pix.RemoveItem | app/pix/page.js:116-118 | Exactly the lines with that id are dropped, and the others keep their order and count. |
| Pix.RemoveLowersTotal | app/pix/page.js:116-122 | Removing takes exactly the removed lines off the total. |
| Pix.RemoveAbsentKeepsCart | app/pix/components/NewPixDialog.js:55-57 | Removing an id not in the cart changes nothing. |
| Pix.Finalize | app/pix/page.js:124-153 | Refused exactly for an empty cart or a blank name. Otherwise the body holds the name, the lines and the total, and only an accepted post clears the name, the cart and the selection. |
| Pix.PostedCartAcceptedIff | app/pix/components/NewPixDialog.js:72-80 | A posted cart is stored exactly when the name has ≤ 200 characters, every line is acceptable, and the total is numeric and ≤ 999999. |
| Pix.AcceptedLinesTotal | app/pix/page.js:120-122 | Acceptable lines always give a numeric, positive total. |
| Pix.LoadCompras | app/pix/page.js:44-50 | The loaded list keeps every unsent purchase, as often and in the order stored, and no sent one. A reply without `compras` gives []. |
| Pix.Visible | app/pix/page.js:56-64 | A blank query shows everything. Otherwise the list shows exactly the purchases whose name contains the untrimmed query, ignoring case. |
| Pix.SearchIgnoresCase | app/pix/page.js:60-62 | A query typed in lower case shows the same purchases as the original. |
| Pix.UntrimmedQueryMisses | app/pix/page.js:57-61 | A query with a leading space does not find the name it would find trimmed. |
| Pix.Enviar | app/pix/page.js:172-214 | Without a selected client nothing happens. Otherwise a `compra` for the purchase total with the item description is posted first, and the purchase is deleted exactly when that post answered ok. |
| Pix.Descricao | app/pix/page.js:179 | The description of no lines is empty, and that of one line is "<quantidade>x <nome>". Longer lists are the first line, ", ", then the description of the rest. |
| Pix.DescricaoListsEveryItem | app/pix/page.js:179 | The description names every line as "<quantidade>x <nome>". |
| Pix.TransacaoAcceptedIff | app/pix/page.js:181-195 | The posted transaction is accepted exactly when the client id is a uuid and the total is in (0, 999999]. |
| Pix.SentPurchaseLeavesList | app/pix/page.js:202-206 | Once deleted, the purchase is not in the reloaded list. |
| Products.CategoryOf | app/produtos/components/ProductList.js:11 | A missing or empty category falls back to "Sem Categoria". |
| Products.FirstAppearances | app/produtos/components/ProductList.js:41 | Reference order of the sections: each category once, where it first occurs. |
| Products.GroupIndex | app/produtos/components/ProductList.js:12 | The existing group for a category, or none exactly when no group has that name. |
| Products.GroupByCategoria | app/produtos/components/ProductList.js:8-16 | The sections are the categories in first-appearance order. Each holds exactly the products of its category, in list order, and is non-empty. |
| Products.InGroupIff | app/produtos/components/ProductList.js:10-13 | A product is in a section exactly when its category is that section's. |
| Products.EveryProductInOneGroup | app/produtos/components/ProductList.js:10-13 | Every product is in exactly one section, the one named by its category. |
| Products.GroupsKeepListOrder | app/produtos/components/ProductList.js:13 | Within a section the products keep their relative list order. |
| Products.Render | app/produtos/components/ProductList.js:18-55 | Loading shows the note, an empty list shows the empty state, and otherwise there is one section per group. |
| Products.ListingHasGroups | app/produtos/components/ProductList.js:39-55 | A listing has at least one section and no empty section. |
| Products.ConstructorCategoryThrows | app/produtos/components/ProductList.js:12-13 | As written, a product in category "constructor" makes the grouping throw. |
| Products.AsWrittenThrowsIff | app/produtos/components/ProductList.js:9-15 | The grouping as written throws exactly when some category is a name every object inherits. Otherwise it gives the corrected grouping. |
| Sorting.SortBy | app/page.js:109 | The sort returns a permutation of its input, ordered by the key. |
| Sorting.SortStable | app/page.js:109-118 | The sort is stable: clients with equal keys keep their relative order. |
| Sorting.ConstantKeyKeepsOrder | app/page.js:116 | A comparator that always returns 0 leaves the list as it is. |
| Seqs.Filter | app/page.js:49 | `filter` keeps exactly the elements that pass, in order. |
| Text.Trim | app/pix/page.js:57 | `trim()` is empty exactly for blank text, and otherwise begins and ends with a non-space. It is the input with white space removed at both ends and nowhere else. |
| Text.Split | app/page.js:146 | The pieces of `split` contain no separator and join back to the input. |
| Text.SplitJoin | lib/auth.js:62 | Splitting a join of separator-free pieces gives the pieces back. |
| Text.NatToStringRoundTrip | app/pix/page.js:92 | `Date.now().toString()` is a decimal numeral that reads back as the same number. |

## Left out

- The `setInterval` scheduling of the cleanup (lib/rate-limit.js:9). The sweep is modelled as what one run does at a given `now`.
- Concurrency. Requests and timers are taken one at a time, and the limiter map is passed along explicitly.
- Database access and the CRUD route handlers under app/api. Their only logic is the schema check, which `Validation` models.
- JWT signing and verification, `bcrypt`, the `cookies()` API and the Supabase auth clients. Their answers are inputs.
- PDF generation (lib/pdf-mesas.js, lib/pdf-generator.js).
- `Intl.NumberFormat`, `toFixed(2)`, `toISOString` and how JavaScript prints numbers. The partial-payment log takes the printed amount as text, and log timestamps are the `now` parameter.
- `parseFloat` and `parseInt` of text. The parsed value is supplied with the typed text, NaN as None.
- Mesas.NewItem: the quantity and the manual price are numbers, so a NaN line is not modelled. The manual mode of the add-item dialog checks only the name and that the price is not `<= 0` (app/mesas/components/AddItemDialog.js:172-176). An emptied quantity field (`parseInt('')`) or a non-numeric price therefore reaches app/mesas/page.js:88-94 as NaN, is stored as `null` through JSON, and makes the card total NaN. Modelling it would put an optional number in every table line and every total.
- Floating point. Money is exact `real` arithmetic, so rounding errors of binary floats are not modelled.
- Letter case. `toLowerCase` is modelled on ASCII letters only.
- String lengths. They are counted in characters, not UTF-16 code units.
- `localeCompare`. It is an abstract `rank` function.
- The zod e-mail and uuid formats. They are predicates given as parameters.
- The middleware's `config.matcher` pattern (middleware.js:103-107). It is configuration for the framework.
- The relabelling of payment lines before a 'fiado' post (app/mesas/page.js:235-241). It only changes display names inside the posted `dados`, which the schema accepts as any object.
- `handleMarcarPago`, `handleDeletar` and `groupByDate` on the PIX page. These are a bare request each and date formatting.
- The `ativo` filter of `loadProdutos`. It is a plain `filter` like the ones modelled.
- The copy of the send-to-client code at app/pix/components/PixCard.js:44-67. It is the same as app/pix/page.js:172-214, which `Pix.Enviar` models.
- The copy of the kg-aware total at app/mesas/components/Options.js:72-77. It is identical to MesaDialog.js:22-27.
- PostgREST's reading of the filter string (app/api/search/route.js:30). The pattern is spliced into `.or(...)`, where `,` and parentheses are filter syntax and `*` is an alias of `%` in `like`/`ilike`. The model reads the pattern as PostgreSQL LIKE sees it, so a query holding `,`, `(`, `)` or `*` is not searched for literally, even with the corrected escaping.
- Search.PatternMeansContains: stated for queries without `\`. With a backslash the route's pattern does not mean "contains", as the Findings row for route.js:25 shows.
- A failed fetch in `loadCompras` (app/pix/page.js:51-53). It is caught and leaves the previous list in place, and `Pix.LoadCompras` models only a reply that arrived.
- Products.GroupByCategoria: `Object.entries` lists integer-like keys (a category named "2") first in numeric order. The model keeps first-appearance order for every name.
- Logging, alerts and the transaction `dados` payload. These are effects without a result the model reasons about. The `console.error` reports (lib/api-utils.js:11 and :31, app/api/auth/login/route.js:75, and the pages' `catch` blocks) are dropped, so `Ledger.CalculateBalance` answers 0 on a failed read without the report that goes with it. The `alert` messages (app/mesas/page.js:259, 262 and 266; app/pix/page.js:126, 174, 198, 209 and 212) are dropped. The posted `dados` object (`mesa`, `itens` and `logs` at app/mesas/page.js:250-254; `descricao`, `itens`, `origem: 'pix'` and `horario_original` at app/pix/page.js:188-193) is not part of `Mesas.Effect` or `Pix.Effect`, because the transaction schema accepts any object there.
- The pages' render trees, the dialogs whose only logic is enabling buttons, and hooks/useConfirmExit.js.

## Findings

| source | as written | input that shows it | evidently intended | confidence | as-written member | corrected member |
|---|---|---|---|---|---|---|
| app/api/search/route.js:25 | Only `%` and `_` are escaped, but PostgreSQL's LIKE also treats `\` as its escape character. | The query `a\b` is searched for as `ab`. The query `\` is sent as `%\%`, which reads as "ends with `%`" and finds `5%`. | Search for the query text literally, escaping `\` as well. | not executed | Search.EscapeLikeMisreadsBackslash | Search.EscapeLikeLiteral |
| app/mesas/page.js:243-270 | After a 'fiado' post, the table is deleted unless `fetch` rejected. `res.ok` is never checked, although the PIX page checks it at app/pix/page.js:197. | A 'fiado' note longer than 500 characters: the dialog's text area has no limit, the transaction schema (lib/validation.js:20) makes the server answer 400, and the table is deleted anyway, so the tab is lost (`Mesas.LongNoteLosesTab`). The page even tells the user "Consumo registrado na caderneta do cliente!" (app/mesas/page.js:259); the model leaves this alert out. | Delete the table only when the purchase was recorded. | not executed | Mesas.FinalizeAsWritten | Mesas.Finalize |
| app/produtos/components/ProductList.js:9-13 | `grouped` is a plain `{}`, so `grouped[cat]` is already truthy for inherited names. `push` is then called on a function. | One product whose category is "constructor": `grouped.constructor.push` throws a TypeError and the page fails. | One section per category name, whatever the name. | not executed | Products.GroupAsWritten | Products.GroupByCategoria |
