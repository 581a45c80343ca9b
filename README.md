# Inventory admin front end: verified model of its UI rules

This project models the logic inside the React components of a small inventory admin application and proves properties of that model. All data lives behind a remote HTTP API. The modelled parts are these:

- **The generic table** (`components/ui/DataTable.tsx`) and **the products table** (`components/shared/DataTable.tsx`). Both compute the same sliding pager window, previous/next enablement and "Menampilkan X sampai Y" entry range, so these are defined once, in module `Pagination`. The generic table adds:
  - the click-to-sort state (`sortBy`/`sortOrder`, starting at `''`/`'desc'`);
  - row numbers;
  - a placeholder `colSpan` as wide as the header;
  - per-row action filtering and the red style for labels containing "Hapus".

  The products table adds:
  - the "Tampilkan" entries-per-page selector;
  - five fixed columns;
  - edit/delete dispatch.
- **Registration** (`pages/Register.tsx`):
  - field validation into an error object: trimmed name; trimmed email, then the unanchored `\S+@\S+\.\S+` test; password length at least 6, counted as JavaScript does in UTF-16 code units;
  - the submit sequence, which calls the register API only on valid input.
- **The products page** (`pages/products/page.tsx`). A class holds its state: rows, loading, page, query, toast and delete modal. Its handlers are atomic transitions:
  - search and page change;
  - delete-click, confirm, cancel and toast close;
  - the fetch effect with the `success` parameter toast, and the fetch result.
- **The search box** (`components/ui/Search.tsx`).
- **The dashboard** (`pages/dashboard.tsx`):
  - the token guard;
  - the fetch of page 1;
  - the product count and the integer stock total;
  - the first five fetched products, in the order the API returns them, and the empty message.
- **The layout's avatar** (`layouts/MainLayout.tsx`): `getInitials` and loading the stored user.

State that a component changes in place becomes a `class` whose methods carry `modifies` clauses naming the fields they may change. Pure rendering rules become functions on datatypes. Each remote call (`getProducts`, `deleteProduct`, `register`) is a parameter of type `Outcome<T>`: either `Ok(payload)` or `Failed(message)`. The stored token, the stored user entry and `JSON.parse`'s result are parameters too. The calls a page makes are logged in sequence fields (`fetches`, `deletes`, `registerCalls`), so the model can state "refetches" and "never calls the API".

The generic table's pager and entry range are worth spelling out:

- **The page window is not centred and is not shifted back near the end.** It starts at `max(1, currentPage - 2)` and pages past `totalPages` are dropped. On the last of 7 pages the buttons are `[5, 6, 7]` (`Pagination.PageWindowLastPage`).
- **The entry range and its count have different sources.** The line reads "dari {data.length}", but the range's end uses `totalItems`. The model keeps both (`range` and `shownCount`).
- **The products table's range can come out inverted.** It ends at `min(currentPage * entriesPerPage, data.length)`, where `data` holds only the rows of the current server page. On page 2 or later, whenever that page holds at most `entriesPerPage` rows, the first entry therefore lies past the last (`SharedDataTable.LaterPageRangeInverted`). With more rows than that, for example 15 rows on page 2 at 10 per page, the range is 11 to 15.

## Model

| member | source | states |
|---|---|---|
| Pagination.WindowStart | src/components/ui/DataTable.tsx:127 | The window's first page is at least 1 and at least `currentPage - 2`, and is one of the two |
| Pagination.SlotCount | src/components/ui/DataTable.tsx:126 | At most 5 slots: exactly 5 from five pages on, otherwise `totalPages` (none for a negative count) |
| Pagination.DropAboveCandidates | src/components/ui/DataTable.tsx:126-128 | Dropping candidates above `totalPages` from a consecutive run of pages leaves exactly the pages from its start up to `min(last candidate, totalPages)` |
| Pagination.PageWindowIsRange | src/components/ui/DataTable.tsx:126-128 | The rendered page numbers are the run from `max(1, cur-2)` of at most `min(5, totalPages)` pages, cut at `totalPages` |
| Pagination.PageWindowShape | src/components/ui/DataTable.tsx:126-128 | The window has at most 5 pages, each in `[1, totalPages]` and consecutive, starting at `max(1, cur-2)`. It contains the current page whenever `1 ≤ cur ≤ totalPages` |
| Pagination.PageWindowMiddle | src/components/ui/DataTable.tsx:126-128 | Page 5 of 7 shows `[3,4,5,6,7]` |
| Pagination.PageWindowLastPage | src/components/ui/DataTable.tsx:126-128 | Page 7 of 7 shows `[5,6,7]`: no shift back near the end |
| Pagination.PageWindowFirstPage | src/components/ui/DataTable.tsx:126-128 | Page 1 of 7 shows `[1,2,3,4,5]` |
| Pagination.PageWindowFewPages | src/components/ui/DataTable.tsx:126-128 | Page 2 of 3 shows `[1,2,3]` |
| Pagination.Pager | src/components/ui/DataTable.tsx:113-152 | The footer is rendered exactly when `totalPages > 1` |
| Pagination.Click | src/components/ui/DataTable.tsx:119-125 | A disabled button passes nothing to `onPageChange`; an enabled one passes its target page |
| Pagination.PagerClicksInRange | src/components/ui/DataTable.tsx:113-149 | For `1 ≤ cur ≤ totalPages`, whenever the footer is rendered: previous is clickable iff `cur ≠ 1` and asks for `cur-1 ≥ 1`; next is clickable iff `cur ≠ totalPages` and asks for `cur+1 ≤ totalPages`; every numbered button is in range; exactly one is highlighted |
| Pagination.EntriesBounds | src/components/ui/DataTable.tsx:33-34 | `endEntry ≤ total` and `startEntry ≥ 1`. The range spans at most a page, and exactly a page when `cur*epp ≤ total`. It is non-empty iff the earlier pages do not use up `total`, and it starts at 1 on page 1 |
| UiDataTable.NextOrder | src/components/ui/DataTable.tsx:37 | Another column sorts ascending; the active column flips its order |
| UiDataTable.RepeatedClicksAlternate | src/components/ui/DataTable.tsx:30-41 | From the initial `''`/`desc` state, odd-numbered clicks on one column sort ascending and even-numbered clicks sort descending; the first click is ascending |
| UiDataTable.SortState.constructor | src/components/ui/DataTable.tsx:30-31 | Initial sort state `''` / `desc` |
| UiDataTable.SortState.HandleSort | src/components/ui/DataTable.tsx:36-41 | `sortBy` becomes the column, `sortOrder` becomes `NextOrder` of the old state, and `onSort` receives exactly (column, new order) |
| UiDataTable.SortState.ClickHeader | src/components/ui/DataTable.tsx:58-61 | A non-sortable header has no click handler: no state change, no `onSort` |
| UiDataTable.HeaderIndicators | src/components/ui/DataTable.tsx:56-66 | Each column's header cell carries its key, label and sortability. It shows an arrow iff it is sortable and the active sort column. The arrow is up iff the order is ascending |
| UiDataTable.IncludesIffOccurs | src/components/ui/DataTable.tsx:98 | The `includes` scan answers true exactly when the word occurs at some position of the label |
| UiDataTable.ButtonsFromSound | src/components/ui/DataTable.tsx:93-103 | Every rendered button belongs to a visible action and carries its label and its destructive flag |
| UiDataTable.ButtonsFromOrdered | src/components/ui/DataTable.tsx:93-103 | The buttons follow the order of `actions` (strictly increasing action indices) |
| UiDataTable.ButtonsFromComplete | src/components/ui/DataTable.tsx:93-103 | Every visible action gets a button |
| UiDataTable.ButtonsSpec | src/components/ui/DataTable.tsx:93-103 | The buttons are exactly the actions without a condition or whose condition holds for the item, in order, each with its label. A button is red iff its label contains "Hapus" |
| UiDataTable.Render | src/components/ui/DataTable.tsx:33-152 | The loading row shows iff `loading`, whatever the data. The "no data" row shows iff not loading and the data is empty. A placeholder's `colSpan` equals the header cell count. Otherwise there is one row per item in order, each as wide as the header, row `i` numbered `startEntry + i`, its cells the item's values for the columns' keys and its buttons `ButtonsFrom` the actions for that item. The range is `Entries(cur, 10, totalItems)`, the count shown after "dari" is `data.length`, and the footer is `Pager(cur, totalPages)` |
| UiDataTable.ClickCallsVisibleAction | src/components/ui/DataTable.tsx:93-97 | A click on a button of row `i` calls `onClick` of an action visible for that row's item, with that item, and the button carries that action's label |
| UiDataTable.RowNumbersMatchRange | src/components/ui/DataTable.tsx:85 | Row numbers are consecutive, and the last equals `endEntry` when the page holds the rows the range announces |
| SharedDataTable.OptionValue | src/components/shared/DataTable.tsx:35-38 | Every option of the select is one of 10, 25, 50, 100 |
| SharedDataTable.EveryChoiceOffered | src/components/shared/DataTable.tsx:29-39 | Each of 10, 25, 50, 100 is offered by some option |
| SharedDataTable.EntriesSelector.constructor | src/components/shared/DataTable.tsx:15 | `entriesPerPage` starts at 10, a valid choice |
| SharedDataTable.EntriesSelector.Select | src/components/shared/DataTable.tsx:32 | Choosing an option sets `entriesPerPage` to its value and keeps it among the choices |
| SharedDataTable.Render | src/components/shared/DataTable.tsx:17-134 | Loading takes precedence over emptiness. The placeholder spans the header's columns. Each row's edit button dispatches `onEdit(product)` and its delete button `onDelete(product.id)`. The range is `Entries(cur, epp, data.length)` with `endEntry ≤ data.length`, and the count after "dari" is data.length. The footer is `Pager(cur, totalPages)` |
| SharedDataTable.RowsFollowHeader | src/components/shared/DataTable.tsx:47-73 | Each row shows its own product's name, SKU, quantity and price |
| SharedDataTable.EntryRangeForChoices | src/components/shared/DataTable.tsx:17-18 | For every selectable entries-per-page value the range stays within the data and within one page |
| SharedDataTable.LaterPageRangeInverted | src/components/shared/DataTable.tsx:17-18 | On page 2 or later, with at most one page of rows, the start entry is past `data.length` and the end entry is not |
| Register.TrimStartSpec | src/pages/Register.tsx:22 | Trimming the start removes exactly a white-space prefix; what is left starts with a non-space character or is empty |
| Register.TrimEndSpec | src/pages/Register.tsx:22 | Trimming the end removes exactly a white-space suffix; what is left ends with a non-space character or is empty |
| Register.TrimEmptyIffBlank | src/pages/Register.tsx:22 | `trim(s)` is empty iff `s` is empty or all white space |
| Register.DotFromIff | src/pages/Register.tsx:28 | The scan for a "." closing a match succeeds iff some later position closes one |
| Register.AtSignFromIff | src/pages/Register.tsx:28 | The scan for an "@" opening a match succeeds iff some (at, dot) pair delimits one |
| Register.HasEmailFormatIffPattern | src/pages/Register.tsx:28 | The email test accepts iff some substring matches `\S+@\S+\.\S+`: non-space run, "@", non-space run, ".", non-space run |
| Register.ValidateSpec | src/pages/Register.tsx:18-35 | Name error iff the name is blank. "Email harus diisi" iff the email is blank, else "Format email tidak valid" iff it has no match of the pattern. Password error iff it has fewer than 6 UTF-16 code units (not trimmed) |
| Register.Utf16LengthBounds | src/pages/Register.tsx:32 | `.length` lies between the character count and twice it, and equals the character count iff no character is above U+FFFF |
| Register.PasswordLengthInCodeUnits | src/pages/Register.tsx:32 | Three characters above U+FFFF make a long-enough password (length 6); "abcde" does not |
| Register.ValidIffAllFieldsPass | src/pages/Register.tsx:36-37 | The error object has no keys iff the name is non-blank, the email is non-blank and matches, and the password has at least 6 UTF-16 code units |
| Register.FailureMessage | src/pages/Register.tsx:53 | The shown error is never empty. It is the thrown message whenever that is non-empty, and "Pendaftaran gagal" when it is empty |
| Register.RegisterPage.constructor | src/pages/Register.tsx:7-11 | Empty form, no errors, no general error, not loading |
| Register.RegisterPage.SetName | src/pages/Register.tsx:79 | Only the name field is replaced |
| Register.RegisterPage.SetEmail | src/pages/Register.tsx:94 | Only the email field is replaced |
| Register.RegisterPage.SetPassword | src/pages/Register.tsx:110 | Only the password field is replaced |
| Register.RegisterPage.ValidateForm | src/pages/Register.tsx:18-38 | Clears `generalError`, stores `Validate(form)`, and returns true iff it has no keys |
| Register.RegisterPage.Register | src/pages/Register.tsx:47-56 | Calls `register(form)` once. On success it stores the token and goes to `/dashboard`. On failure it shows `FailureMessage`. `loading` ends false either way |
| Register.RegisterPage.HandleSubmit | src/pages/Register.tsx:40-57 | Submits iff the validation passes. On invalid input `register` is not called and `loading`, token and navigation are untouched. On valid input it behaves like `Register` |
| SearchBox.SearchBox.constructor | src/components/ui/Search.tsx:9 | The query starts empty |
| SearchBox.SearchBox.Type | src/components/ui/Search.tsx:27 | The query becomes the typed value |
| SearchBox.SearchBox.Submit | src/components/ui/Search.tsx:11-14 | `onSearch` receives the current query; nothing changes |
| SearchBox.SearchBox.Clear | src/components/ui/Search.tsx:16-19 | The query becomes empty and `onSearch` receives "" |
| SearchBox.SearchBox.ClearShown | src/components/ui/Search.tsx:31-39 | The clear button is shown iff the query is non-empty |
| SearchBox.ClearThenSubmit | src/components/ui/Search.tsx:11-19 | After a clear the button is hidden and a submit searches for "" |
| ProductsPage.SuccessToast | src/pages/products/page.tsx:24-31 | A toast iff the parameter is "created" or "updated": the matching success toast; none for any other value |
| ProductsPage.ProductsPage.constructor | src/pages/products/page.tsx:12-18 | Initial state: no rows, loading, page 1 of 1, empty query, no toast, closed modal |
| ProductsPage.ProductsPage.StartFetch | src/pages/products/page.tsx:36-39 | Sets `loading` and calls `getProducts(currentPage, searchQuery)` |
| ProductsPage.ProductsPage.FetchSettled | src/pages/products/page.tsx:36-47 | Success takes the rows and `last_page`. Failure shows the "Gagal memuat produk" error toast and keeps the rows. `loading` ends false |
| ProductsPage.ProductsPage.RunEffect | src/pages/products/page.tsx:23-34 | Shows `SuccessToast` and clears the parameters exactly when there is one, then starts a fetch of the current page and query |
| ProductsPage.ProductsPage.HandleSearch | src/pages/products/page.tsx:49-52 | The query is replaced and page 1 selected |
| ProductsPage.ProductsPage.HandlePageChange | src/pages/products/page.tsx:54-56 | Only the current page changes |
| ProductsPage.ProductsPage.HandleEdit | src/pages/products/page.tsx:58-60 | Navigates to the product's edit route |
| ProductsPage.ProductsPage.HandleDeleteClick | src/pages/products/page.tsx:62-64 | The modal opens holding the id |
| ProductsPage.ProductsPage.CloseModal | src/pages/products/page.tsx:130-135 | The modal resets to closed with no id |
| ProductsPage.ProductsPage.CloseToast | src/pages/products/page.tsx:124 | The toast is removed |
| ProductsPage.ProductsPage.HandleConfirmDelete | src/pages/products/page.tsx:66-82 | Calls `deleteProduct` iff the modal's id is non-null and non-zero and a token is stored; otherwise nothing changes. When called: the modal ends closed; success shows "Produk berhasil dihapus" and refetches; failure shows "Gagal menghapus produk" and does not refetch. Rows, page and query stay unchanged |
| ProductsPage.ProductsPage.Table | src/pages/products/page.tsx:107-116 | The table rendered from the page state shows the loading row iff a fetch is pending, one row per fetched product whose edit and delete buttons dispatch that product and its id, and the stored page and page count in the footer |
| ProductsPage.DeleteFlow | src/pages/products/page.tsx:62-82 | Clicking delete on a product and confirming with a token deletes that id and closes the modal, whatever the outcome |
| Dashboard.ReduceStockIsSum | src/pages/dashboard.tsx:52 | The `reduce` fold from `acc` equals `acc` plus the sum of the quantities |
| Dashboard.TotalStockAppend | src/pages/dashboard.tsx:52 | The stock total of a concatenation is the sum of the two totals |
| Dashboard.TotalStockNonNegative | src/pages/dashboard.tsx:52 | With no negative quantity the stock total is not negative |
| Dashboard.TotalStockSingle | src/pages/dashboard.tsx:52 | One product's total is its quantity |
| Dashboard.Recent | src/pages/dashboard.tsx:82 | `slice(0, 5)` is the first `min(5, n)` products, in order |
| Dashboard.View | src/pages/dashboard.tsx:41-98 | "Total Produk" is the product count and "Total Stok" the sum of the quantities. The error line is the stored error. "Memuat..." shows iff loading. When not loading, the table lists the first `min(5, n)` products. The empty message shows iff not loading and there are no products |
| Dashboard.DashboardPage.constructor | src/pages/dashboard.tsx:9-12 | No products, loading, no error, no toast |
| Dashboard.DashboardPage.RunEffect | src/pages/dashboard.tsx:19-39 | Without a token it goes to `/login` and fetches nothing. With one it fetches page 1 with an empty search and does not navigate |
| Dashboard.DashboardPage.FetchSettled | src/pages/dashboard.tsx:26-35 | Success sets the products. Failure sets the error line and the "Gagal memuat data produk" toast and keeps the products. `loading` ends false |
| Dashboard.DashboardPage.CloseToast | src/pages/dashboard.tsx:104 | The toast is removed |
| Dashboard.DashboardPage.Render | src/pages/dashboard.tsx:41-98 | The rendered dashboard counts and sums the stored products, shows the stored error, shows "Memuat..." iff loading, and the empty message iff not loading with no products |
| MainLayout.Split | src/layouts/MainLayout.tsx:23 | `split(' ')` gives at least one piece, none containing a space, and joining them gives back the name |
| MainLayout.SplitJoin | src/layouts/MainLayout.tsx:23 | Splitting undoes joining space-free pieces |
| MainLayout.Upper | src/layouts/MainLayout.tsx:23 | Upper-casing keeps the length and maps each character |
| MainLayout.FirstCharsOfNonEmpty | src/layouts/MainLayout.tsx:23 | The joined first characters are those of the non-empty pieces, one each, in order |
| MainLayout.GetInitialsSpec | src/layouts/MainLayout.tsx:22-24 | The initials are the upper-cased first characters of the first two non-empty words, so at most 2 characters. Empty pieces contribute nothing |
| MainLayout.InitialsOfTwoWords | src/layouts/MainLayout.tsx:23 | "john doe" gives "JD" |
| MainLayout.InitialsIgnoreExtraSpaces | src/layouts/MainLayout.tsx:23 | "  ana  " gives "A" |
| MainLayout.SingleWordInitial | src/layouts/MainLayout.tsx:23 | A single word gives one character, its first, upper-cased |
| MainLayout.Layout.constructor | src/layouts/MainLayout.tsx:10 | No user at first |
| MainLayout.Layout.LoadStoredUser | src/layouts/MainLayout.tsx:12-20 | The user is set only when a stored entry is present and parses; otherwise it stays as it was |
| MainLayout.Layout.Avatar | src/layouts/MainLayout.tsx:35-41 | The avatar is shown iff there is a user, with initials of at most 2 characters |

## Left out

- The services (`productService.ts`, `authService.ts`, `httpClient.ts`) are HTTP, `URLSearchParams` and storage plumbing. The model sees them only as `Outcome` parameters and call logs. `localStorage` reads are parameters; writes are fields (`storedToken`).
- React effect scheduling, `setState` batching and re-rendering are not modelled; each handler is one atomic transition. The effect's re-run after `setSearchParams({})` clears the parameters is left to the caller: it calls `RunEffect(None)`.
- The asynchronous `fetchProducts` is split into `StartFetch` and `FetchSettled`. Interleavings of several in-flight fetches are not modelled.
- `App.tsx` routing, `Sidebar.tsx` links and the `Toast.tsx` timer and animation are not modelled. Closing a toast is `CloseToast` on both pages.
- The dashboard's "Total Harga" card and all price formatting (`Number`, `Math.round`, `toLocaleString`, "Rp") are not modelled: they are floating-point and locale-dependent. `price` is kept as an unformatted `real`.
- Dashboard.View: "Total Stok" is modelled as the integer sum of `quantity`. If the API returned quantities as strings, JavaScript's `+` would concatenate them, and that is not modelled.
- Register.TrimStartSpec: JavaScript white space, for both `trim` and `\S`, is modelled as a fixed set of ten characters. Other Unicode space separators are not included.
- MainLayout.Upper: `toUpperCase` is modelled for ASCII letters only.
- MainLayout.GetInitialsSpec: `n[0]` and `slice(0, 2)` are modelled on characters, while JavaScript takes UTF-16 code units. Both take one unit per non-empty word, so both yield `min(2, words)` initials; only the unit differs: for a word starting with a character above U+FFFF the source keeps a lone high surrogate, where the model keeps the whole character.
- MainLayout.SingleWordInitial: for a word starting with a character above U+FFFF the source shows a lone high surrogate, where the model shows the whole character.
- `JSON.parse` of the stored user is a parameter (`None` when it throws). Only `name` is read from the user.
- `document.title` updates, the show-password toggle in `Register.tsx` and all markup and CSS are not modelled. The only style choices modelled are the highlighted page, the red "Hapus" style and disabled buttons.
- The products page's `isAuthenticated` flag, the "Tambah Produk" button it guards and the `isAuthenticated` prop passed to the products table are not modelled. The table does not declare that prop.
- The generic table declares `setEntriesPerPage` but never calls it, so its `entriesPerPage` is the constant `UiDataTable.EntriesPerPage` (10).
- The product edit page (`pages/products/[id]/edit.tsx`) is not part of this model; `HandleEdit` only records the navigation.
- UiDataTable.Render: a cell's value is the item's string for the column key, and "" when the key is absent. The `price` column's "Rp" formatting is not modelled.
