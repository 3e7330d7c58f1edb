# Integration Hub dashboard — verified model of its client-side logic

The Integration Hub is a browser dashboard over a REST backend that runs
file-based integration pipelines (product registration, inbound, outbound). Almost
all of it is presentation. This project models, in Dafny, the few parts that carry
logic, and proves what they guarantee:

- **Pagination bar** (`Pagination`, used by `OutboundTable` and `ProductsTable`).
  This is the page-number strip with ellipsis markers, plus the Previous/Next
  controls. Both tables build it with the same code. `Window` is the declarative
  strip. `BuildWindow` is the push-and-loop construction the tables use, proved
  equal to `Window`. The lemmas cover ordering, bounds, length, which pages appear,
  where ellipses sit, and which link is active. The as-written edge cases are
  lemmas too:
  - on page 3, page 1 is not shown;
  - on page `totalPages - 2`, the last page is not shown;
  - on page 4 and on page `totalPages - 3`, one page is skipped with no ellipsis.
- **Session store** (`Session.AuthProvider`). It holds the signed-in flag, the
  token claims and the loading flag. It also holds the token kept in browser
  storage (`Browser.TokenStorage`), which it shares with the HTTP client.
  - Token decoding is an external library call, so the store takes it as a
    function `decode: string -> Option<Claims>`.
  - The clock is a parameter `nowMs`. "`exp` lies in the past" is written as
    `exp * 1000 < nowMs`, and `ExpiredInSeconds` proves this equals the source's
    `exp < Date.now() / 1000`.
- **Run Scan dialog** (`ScanDialog.RunScanModal`). It holds four fields, a counter
  for the `onScanComplete` notification, and a counter for close requests.
  - `Classify` turns the settled scan call into a completed or failed result.
    A 422 answer counts as completed.
  - `RenderContent` picks the view in the order error > result > progress >
    confirmation.
- **Paged-fetch hooks** (`PagedFetch.PagedResource`). This is one generic class,
  created three times by `ProductsHook`, `OutboundHook` and `InboundsHook`. The
  three differ only in the fallback error text. Each async fetch is split at its
  `await`: `BeginFetch`, then `SettleFetch` with the settled outcome passed in.
- **HTTP client interceptors** (`ApiConfig`):
  - when a token is stored, the request interceptor sets
    `Authorization: Bearer <token>` on the request;
  - on a 401 error, the response interceptor removes the stored token;
  - every error is re-raised unchanged.

JavaScript truthiness is modelled explicitly (`Common.Truthy`): an empty string
counts as absent.
- An empty stored token is treated as no token.
- An empty error text shows no error card.
- An empty server message falls back to the default text.

What the code does and does not keep:
- The code does not keep "signed in" equal to "a current, decodable token is
  stored". `login` stores a token without checking its expiry. A 401 removes the
  stored token but leaves the session signed in
  (`Wiring.UnauthorizedLeavesSessionSignedIn`). The invariant the code does keep is
  `AuthProvider.Valid()`: signed in exactly when claims are held.
- The hooks have no guard against a late answer to an older fetch overwriting a
  newer one, so fetches are modelled one at a time and no ordering property is
  claimed.
- The session store starts with `loading` true, and only `validateAndSetToken`
  sets it to false. `login` and `logout` leave it alone.

## Model

| member | source | states |
|---|---|---|
| `Pagination.Window` | src/pages/outbound/components/OutboundTable.tsx:67-84 | The strip opens with page 1 once the current page is past 3, followed by an ellipsis past 4; it closes with the last page while the current page is more than 2 before it, preceded by an ellipsis when more than 3 before it |
| `Pagination.BuildWindow` | src/pages/outbound/components/OutboundTable.tsx:67-84 | Pushing page 1 and its ellipsis, looping over the pages around the current one, then pushing the last page and its ellipsis gives exactly the strip `Window(page, totalPages)` |
| `Pagination.RunAt` | src/pages/outbound/components/OutboundTable.tsx:76-78 | The loop pushes `hi - lo + 1` pages (none when `hi < lo`), and slot `i` holds page `lo + i` |
| `Pagination.WindowLength` | src/pages/outbound/components/OutboundTable.tsx:67-84 | The strip has at most 7 slots, for any inputs |
| `Pagination.WindowMembers` | src/pages/outbound/components/OutboundTable.tsx:69-84 | Page k is shown iff one of: k = 1 and page > 3; k is within [max(1, page-1), min(totalPages, page+1)]; k = totalPages and page < totalPages - 2 |
| `Pagination.WindowIncreasing` | src/pages/outbound/components/OutboundTable.tsx:69-84 | The page numbers in the strip strictly increase from left to right, for any inputs |
| `Pagination.ConcatIncreasing` | src/pages/outbound/components/OutboundTable.tsx:69-84 | Joining two increasing pieces, all of the first below all of the second, gives an increasing strip |
| `Pagination.WindowInRange` | src/pages/outbound/components/OutboundTable.tsx:70-84 | When totalPages ≥ 1, every page number shown lies in [1, totalPages] |
| `Pagination.CurrentPageOnce` | src/pages/outbound/components/OutboundTable.tsx:76-78 | For 1 ≤ page ≤ totalPages the current page is shown exactly once |
| `Pagination.NeighboursShown` | src/pages/outbound/components/OutboundTable.tsx:76-78 | For a page in range, page-1 is shown iff page-1 ≥ 1, and page+1 is shown iff page+1 ≤ totalPages |
| `Pagination.EndsShown` | src/pages/outbound/components/OutboundTable.tsx:69-84 | For a page in range, page 1 is shown iff page ≠ 3, and the last page is shown iff page ≠ totalPages - 2 |
| `Pagination.EllipsisInterior` | src/pages/outbound/components/OutboundTable.tsx:69-84 | For a page in range the strip is non-empty, starts and ends with a page number, and never has two ellipses side by side |
| `Pagination.EllipsisAt` | src/pages/outbound/components/OutboundTable.tsx:72-82 | For a page in range, slot i is an ellipsis iff either i = 1 and page > 4, or i is second to last and page < totalPages - 3 |
| `Pagination.EllipsisPositions` | src/pages/outbound/components/OutboundTable.tsx:72-82 | The leading ellipsis (slot 1) is there iff page > 4. The trailing one (second to last) is there iff page < totalPages - 3. No other slot holds an ellipsis |
| `Pagination.UnmarkedGapAfterFirst` | src/pages/outbound/components/OutboundTable.tsx:70-78 | On page 4 (totalPages ≥ 5) the strip starts 1, 3: page 2 is skipped with no ellipsis |
| `Pagination.UnmarkedGapBeforeLast` | src/pages/outbound/components/OutboundTable.tsx:76-83 | On page totalPages - 3 the strip ends totalPages - 2, totalPages: one page is skipped with no ellipsis |
| `Pagination.EmptyWithoutPages` | src/pages/outbound/components/OutboundTable.tsx:76-83 | With totalPages ≤ 0 and page 1 to 3 (in particular totalPages = 0, page = 1) no slot is shown |
| `Pagination.Previous` | src/pages/outbound/components/OutboundTable.tsx:90-93 | Previous asks for page - 1 exactly when page > 1, and is greyed out exactly when it asks for nothing |
| `Pagination.Next` | src/pages/outbound/components/OutboundTable.tsx:113-116 | Next asks for page + 1 exactly when page < totalPages, and is greyed out exactly when it asks for nothing |
| `Pagination.Items` | src/pages/outbound/components/OutboundTable.tsx:96-110 | One rendered item per strip slot, in order: page number n becomes a link to n, highlighted exactly when n is the current page; an ellipsis becomes a gap |
| `Pagination.View` | src/pages/outbound/components/OutboundTable.tsx:86-121 | The bar is the Previous control for the page, the items `Items` renders for the strip `Window(page, totalPages)` (item i is the link or gap for slot i), and the Next control for the page and page count |
| `Pagination.NavigationGuards` | src/pages/outbound/components/OutboundTable.tsx:89-117 | Previous acts iff page > 1, asks for page - 1, and is greyed out iff it does nothing. Next does the same with page < totalPages and page + 1. From a page in range, neither asks for a page outside [1, totalPages] |
| `Pagination.ActiveIsCurrent` | src/pages/outbound/components/OutboundTable.tsx:101-104 | A page link is highlighted iff its number is the current page |
| `Pagination.OneActiveLink` | src/pages/outbound/components/OutboundTable.tsx:96-110 | For a page in range exactly one link is highlighted |
| `OutboundTable.BooleanBadge` | src/pages/outbound/components/OutboundTable.tsx:32-47 | true gives a green badge with trueText; false gives a grey badge with falseText |
| `OutboundTable.DefaultBadgeTexts` | src/pages/outbound/components/OutboundTable.tsx:32 | Without explicit texts the badge reads "Yes" for true and "No" for false |
| `OutboundTable.Row` | src/pages/outbound/components/OutboundTable.tsx:157-214 | A row shows the file name and five badges, in the column order salesOrderToWms, invoiceRequested, invoiceReceived, invoiceToStralog, invoiceConfirmationToSftp; each is a green "Yes" when its flag is set and a grey "No" otherwise |
| `OutboundTable.RenderPagination` | src/pages/outbound/components/OutboundTable.tsx:63-121 | No bar without data. Otherwise the bar for the server's page and totalPages: at most 7 items, Previous acting iff page > 1, Next acting iff page < totalPages |
| `OutboundTable.Render` | src/pages/outbound/components/OutboundTable.tsx:49-230 | A non-empty error shows the error card. Otherwise loading shows the loading card. Otherwise the table shows one row per item, the empty notice iff the data holds no items, and the pagination bar |
| `ProductsTable.Row` | src/pages/products/components/ProductsTable.tsx:160-191 | A row shows the source file name and the status badge `StatusBadge` gives: positive "Completed" exactly for "completed", pending "Waiting Integration" exactly for "waiting_integration", negative "Error" for every other status |
| `ProductsTable.StatusBadge` | src/pages/products/components/ProductsTable.tsx:32-55 | "completed" gives Completed, "waiting_integration" gives Waiting Integration, every other value gives Error (each in both directions) |
| `ProductsTable.RenderPagination` | src/pages/products/components/ProductsTable.tsx:71-129 | Same bar as the outbound table: none without data, else the shared `View` with at most 7 items and the Previous/Next guards |
| `ProductsTable.SameBarAsOutbound` | src/pages/products/components/ProductsTable.tsx:71-92 | For the same page and page count, the products table and the outbound table draw the same bar |
| `ProductsTable.Render` | src/pages/products/components/ProductsTable.tsx:57-207 | A non-empty error wins over loading, and loading wins over the table. The table shows one row per item, the empty notice iff there are no items, and the pagination bar |
| `Session.ExpiredInSeconds` | src/contexts/authContexts.tsx:24-26 | For a token with an expiry, `exp * 1000 < nowMs` is the source's test: exp non-zero and exp < nowMs / 1000 |
| `Session.ExpiryFacts` | src/contexts/authContexts.tsx:26 | A token with no expiry, or expiry 0, is never expired. An expired token stays expired later |
| `Session.Inspect` | src/contexts/authContexts.tsx:13-41 | A stored token is one of four cases: absent or empty; undecodable; decodable but expired; decodable and current. Each case is characterised, with the decoded claims in the last two |
| `Session.AuthProvider.constructor` | src/contexts/authContexts.tsx:7-9 | The store starts signed out, with no claims, and loading |
| `Session.AuthProvider.DecodedToken` | src/contexts/authContexts.tsx:55-65 | Gives nothing when no non-empty token is stored. Otherwise gives the decoder's result for the stored token, read afresh (a function: no state changes) |
| `Session.AuthProvider.Logout` | src/contexts/authContexts.tsx:85-90 | Removes the stored token and ends signed out with no claims. Loading is unchanged |
| `Session.AuthProvider.ValidateAndSetToken` | src/contexts/authContexts.tsx:11-47 | No token: signed out, storage untouched. Undecodable or expired token: removed, signed out. Current token: signed in with its claims, token kept. Every path ends with loading false, returns whether the user is signed in, and keeps `Valid()` |
| `Session.AuthProvider.Login` | src/contexts/authContexts.tsx:67-83 | An empty or undecodable token changes nothing and is not stored. A decodable token is stored and signs the user in with its claims, with no expiry check. Loading is unchanged |
| `Session.LogoutIdempotent` | src/contexts/authContexts.tsx:85-90 | A second logout leaves exactly the state the first one left |
| `ScanDialog.Classify` | src/pages/inbound/components/RunScanModal.tsx:25-50 | Success completes with the server message. A 422 completes with the server message or "No files found to process". Any other status fails with the server message or "Failed to run scan". No response fails with the Error's message, or "Failed to run scan" for a non-Error |
| `ScanDialog.CompletesIff` | src/pages/inbound/components/RunScanModal.tsx:37-43 | A scan completes iff the call answered or was refused with status 422 |
| `ScanDialog.ResponseTextsNonEmpty` | src/pages/inbound/components/RunScanModal.tsx:38-42 | Whenever the server responded, the message or error shown is non-empty |
| `ScanDialog.RunScanModal.constructor` | src/pages/inbound/components/RunScanModal.tsx:20-23 | The dialog starts not scanning, not complete, with an empty message and no error |
| `ScanDialog.RunScanModal.RenderContent` | src/pages/inbound/components/RunScanModal.tsx:63-119 | Shows the error view iff the error is non-empty. Otherwise the result view iff complete, otherwise the progress view iff scanning, otherwise the confirmation |
| `ScanDialog.RunScanModal.BeginScan` | src/pages/inbound/components/RunScanModal.tsx:27-28 | Starting a run sets scanning and clears the error. Nothing else changes |
| `ScanDialog.RunScanModal.SettleScan` | src/pages/inbound/components/RunScanModal.tsx:29-49 | A completed scan records its message, sets complete and notifies the owner exactly once. A failure records the error, leaves complete and the message alone, and does not notify. Scanning ends on both paths |
| `ScanDialog.RunScanModal.RunScan` | src/pages/inbound/components/RunScanModal.tsx:25-50 | The whole run. Completed shows the result view. A failure with a non-empty text shows the error view. A failure with an empty text returns a confirming dialog to the confirmation |
| `ScanDialog.RunScanModal.HandleClose` | src/pages/inbound/components/RunScanModal.tsx:52-61 | Asks the owner to close and puts all four fields back to false, false, "", none (confirmation view) |
| `PagedFetch.PagedResource.constructor` | src/hooks/useProducts.ts:5-10 | The hook starts at the given page and limit, with no data, no error, and not loading |
| `PagedFetch.PagedResource.BeginFetch` | src/hooks/useProducts.ts:14-16 | A fetch first sets loading, clears the error, and sends the current page and limit. Data is unchanged |
| `PagedFetch.PagedResource.SettleFetch` | src/hooks/useProducts.ts:16-22 | Success replaces the data. Failure records the Error's message (or the hook's fallback) and keeps the previous data. Loading ends on both paths |
| `PagedFetch.PagedResource.Fetch` | src/hooks/useProducts.ts:12-23 | The whole fetch, with page and limit unchanged. Afterwards it holds the new data and no error, or the old data and the error |
| `PagedFetch.PagedResource.GoToPage` | src/hooks/useProducts.ts:29-31 | Sets the page to any number, with no bounds check. Nothing else changes |
| `PagedFetch.PagedResource.ChangeLimit` | src/hooks/useProducts.ts:33-36 | Sets the limit and resets the page to 1, whatever it was |
| `PagedFetch.PagedResource.Refresh` | src/hooks/useProducts.ts:38-40 | Fetches again with the current page and limit unchanged |
| `PagedFetch.StaleDataSurvivesFailure` | src/hooks/useProducts.ts:18-19 | A failed refresh after a successful fetch keeps the earlier data and shows the error |
| `ProductsHook.UseProducts` | src/hooks/useProducts.ts:5-10 | The products hook: page 1 and limit 50 unless overridden, fallback "Failed to fetch products" |
| `OutboundHook.UseOutbound` | src/hooks/useOutbound.ts:5-10 | The outbound hook: page 1 and limit 50 unless overridden, fallback "Failed to fetch outbound files" |
| `InboundsHook.UseInbounds` | src/hooks/useInbounds.ts:5-10 | The inbound hook: page 1 and limit 50 unless overridden, fallback "Failed to fetch inbound files" |
| `ApiConfig.ErrorText` | src/hooks/useInbounds.ts:19 | A thrown Error gives its own message. Anything else gives the caller's fallback text |
| `ApiConfig.WithBearer` | src/api/config.ts:12-15 | With a non-empty token, Authorization is "Bearer " + token. Without one the headers are unchanged. No other header changes |
| `ApiConfig.RequestConfig.constructor` | src/api/config.ts:3-8 | A request starts from the default `Content-Type: application/json`, overlaid with its own headers |
| `ApiConfig.InterceptRequest` | src/api/config.ts:10-21 | Reads the stored token and sets the bearer header in place. Method, URL and body are unchanged. The same request is returned |
| `ApiConfig.InterceptResponse` | src/api/config.ts:23-31 | A response or error is handed back unchanged, so no error is swallowed. A 401 removes the stored token, and nothing else touches it |
| `Wiring.LoginThenRequest` | src/api/config.ts:12-15 | After a successful login, the next request carries "Bearer " + the new token |
| `Wiring.UnauthorizedLeavesSessionSignedIn` | src/api/config.ts:26-29 | A 401 is re-raised and removes the stored token, but the session's signed-in flag and claims are unchanged |

## Left out

- Markup, styling, icons, and the screen-reader-only header class. These are
  presentation.
- Dismissing the scan dialog by Escape, the overlay or its built-in close button.
  That path hands the request straight to the owner and skips `handleClose`, so
  the four fields are not reset and reopening shows the last result or error.
  `HandleClose` is the only reset path modelled. The outbound table's constant "Completed"
  status badge is not modelled.
- Date and time formatting (`toLocaleDateString`, `toLocaleTimeString`). It is a
  locale library call.
- JWT decoding itself. It is a foreign library call, modelled as the uninterpreted
  `decode` function of the store.
- Logging to the console, the `useAuth` context lookup, and React effect
  scheduling. The fetch on mount and on page or limit change, and the token check
  on mount, are calls the caller makes.
- The 300 ms delay before `handleClose` resets the dialog. The reset is modelled
  as immediate.
- Overlapping fetches. The hooks have no stale-response guard, so fetches are
  modelled one at a time and no ordering property is claimed.
- Storage that throws. When localStorage throws, on `getItem` or on the
  `removeItem` inside `logout`, the outer `catch` of `validateAndSetToken` turns
  loading off and skips the sign-out setters. That path is not modelled.
- A thrown value whose `response` key is present but `null` or `undefined`. The
  scan dialog's catch handler would throw again in that case.
- A thrown value whose `response` is a primitive such as a number or a string.
  Its `.status` is `undefined`, so the dialog shows "Failed to run scan"; the
  model's `Thrown` only holds responses that are objects.
- Non-integer numbers. Page numbers, page counts and token expiries are
  integers, so NaN and fractions are not covered.
- The request-error handler of the request interceptor. It only re-raises its
  argument, which is the identity on the error.
- The `pagination: data?.pagination` convenience field the hooks return.
- The service modules, routing, the sidebar, the login form and the static product
  registration page. They hold only URL templates, navigation and mock behaviour.
- Server-side computation of `totalPages`. The client only consumes it.
- Missing interface fields. The outbound table reads
  `invoiceConfirmationToSftp` and the products table reads each row's `status`,
  but neither field is declared in the row interfaces.
  `Records.OutboundItem` and `Records.ProductRecord` carry them as ordinary fields
  the server supplies.
