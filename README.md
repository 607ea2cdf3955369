# Admin dashboard: a verified model of its data rules

The dashboard is a single-page admin panel over a public demo service
(dummyjson.com). It loads users, products and carts, shows the carts as orders,
and lets an administrator search, filter and delete records. This project models
the parts of it that are rules rather than markup, and proves what those rules
guarantee:

- **Orders page.** Each cart becomes an order with a status picked by fixed
  money thresholds, a total and an item count recomputed from the cart lines,
  and the first user with the cart's user id. A search box and a status menu
  choose which orders are listed. Four summary cards sit above the list.
- **Application store.** The shared state holds five lists and four loading
  flags. There are fetch actions that replace a list, delete actions that drop
  records by id once the service confirms, and an analytics query. The store
  is a class. The three fetches with a loading flag (users, stores,
  products) are split at their `await` into a Begin step (raise the flag,
  issue the request) and a Finish step. The other fetches and the deletions
  are single methods. Each takes the service's reply as a parameter
  (`Success(body)` or `Failure`).
- **Hand-built user and store pages** of the application shell. The global
  arrays `allUsers` and `allStores` are filled by load buttons and narrowed by
  a search box and a role selector. Delete buttons drop records and re-apply
  the search. These pages are a class whose fields are the arrays, the input
  values and the lists last displayed. Its invariant `Valid()` says that each
  grid shows its array filtered by the current inputs.
- **Products page.** A case-insensitive title search that does not trim the
  query.
- **API service.** The fixed request of each endpoint and its default limit.
  The dashboard statistics sum the service's cart totals and keep the first
  five carts. The category chart counts products per category in a
  dictionary, then takes the first five keys in JavaScript's enumeration order
  (section 10.1.11.1 of ECMA-262, OrdinaryOwnPropertyKeys: array-index keys in
  ascending numeric order, then the other keys in creation order). The monthly
  series starts in September.

Modules and files:

| file | module | models |
|---|---|---|
| `text.dfy` | `Text` | `toLowerCase`/`toUpperCase` (ASCII), `trim` (ECMAScript whitespace set), `includes`, decimal rendering of integers |
| `seqs.dfy` | `Seqs` | `Array.prototype.filter`; sums via `reduce` |
| `entities.dfy` | `Entities` | the records (user, product, cart, cart line) and the reply of a remote call |
| `orders.dfy` | `Orders` | `src/pages/OrdersPage.tsx` |
| `products.dfy` | `Products` | `src/pages/ProductsPage.tsx` |
| `store.dfy` | `StoreState` | `src/store/useStore.ts` |
| `legacy.dfy` | `Legacy` | the user and store pages built in `src/App.tsx` |
| `api.dfy` | `Api` | `src/services/api.ts` |

Money is an exact `real`. Identifiers and quantities are unbounded integers.

## Model

| member | source | states |
|---|---|---|
| Orders.StatusOf | src/pages/OrdersPage.tsx:8-13 | Delivered iff total > 2000; Shipped iff 1000 < total <= 2000; Processing iff 500 < total <= 1000; Pending iff total <= 500 |
| Orders.ThresholdsBelongBelow | src/pages/OrdersPage.tsx:9-11 | the exact values 2000, 1000 and 500 fall into the lower bracket |
| Orders.StatusMonotone | src/pages/OrdersPage.tsx:8-13 | a larger total never gives an earlier status in Pending < Processing < Shipped < Delivered |
| Orders.LowerStatusName | src/pages/OrdersPage.tsx:9-12 | the lower-cased labels are "pending", "processing", "shipped", "delivered" |
| Orders.StatusNamesDistinct | src/pages/OrdersPage.tsx:63 | two statuses whose labels agree after lower-casing are the same status |
| Orders.FirstUserIndex | src/pages/OrdersPage.tsx:37 | the position where `find` stops: no earlier user has the id, and the user there has it, or it is the length when nobody has it |
| Orders.FindUser | src/pages/OrdersPage.tsx:37 | absent iff no user has the id; otherwise a loaded user with that id |
| Orders.FindUserFirst | src/pages/OrdersPage.tsx:37 | when several users share the id, the first one is found |
| Orders.ItemsTotal | src/pages/OrdersPage.tsx:38-41 | no contract; the sum of price times quantity over the lines, characterised by Orders.ItemsTotalConcat, Orders.ItemsTotalNonNegative and Orders.EmptyCart |
| Orders.ItemCount | src/pages/OrdersPage.tsx:49 | no contract; the sum of the quantities, characterised by Orders.ItemCountConcat and Orders.EmptyCart |
| Orders.Enrich | src/pages/OrdersPage.tsx:36-52 | no contract; one cart made an order, characterised element by element by Orders.EnrichOrders |
| Orders.EnrichOrders | src/pages/OrdersPage.tsx:36-52 | one order per cart, in cart order: the cart, the found user, the line total, the item count and the status of that total |
| Orders.EmptyCart | src/pages/OrdersPage.tsx:38-49 | a cart without lines has total 0, item count 0 and status Pending |
| Orders.ServiceTotalIgnored | src/pages/OrdersPage.tsx:38-48 | changing the service's own cart total changes neither the order total nor the status |
| Orders.ItemsTotalConcat | src/pages/OrdersPage.tsx:38-41 | the order total adds up line by line: the total of joined lines is the sum of the parts |
| Orders.ItemCountConcat | src/pages/OrdersPage.tsx:49 | the item count adds up line by line |
| Orders.ItemsTotalNonNegative | src/pages/OrdersPage.tsx:38-41 | with no negative prices or quantities the total is at least 0 |
| Orders.TwoLineCart | src/pages/OrdersPage.tsx:38-49 | lines (10 x 2) and (5 x 1) give total 25 and 3 items |
| Orders.MatchesSearch | src/pages/OrdersPage.tsx:56-61 | no contract; characterised by Orders.IdMatchCaseBlind and Orders.SearchCaseInsensitive, and by Orders.DefaultFilterShowsAll for the empty query |
| Orders.MatchesStatus | src/pages/OrdersPage.tsx:63 | no contract; characterised by Orders.StatusFilterSelects and Orders.UpperCaseAllShowsNothing |
| Orders.FilterOrders | src/pages/OrdersPage.tsx:55-66 | no contract; characterised by Orders.FilterOrdersExactly |
| Orders.FilterOrdersExactly | src/pages/OrdersPage.tsx:55-66 | the listed orders are exactly those matching search and status, in their original relative order |
| Orders.DefaultFilterShowsAll | src/pages/OrdersPage.tsx:55-66 | an empty query with status "all" lists every order, because "" occurs in every id |
| Orders.StatusFilterSelects | src/pages/OrdersPage.tsx:63 | a menu choice equal to a status label up to case keeps exactly the orders with that status |
| Orders.UpperCaseAllShowsNothing | src/pages/OrdersPage.tsx:63 | only the literal "all" disables the status filter; "ALL" lists no order |
| Orders.IdMatchCaseBlind | src/pages/OrdersPage.tsx:57-58 | the case-sensitive id match gives the same answer for a query and its lower-cased form, since ids are digits |
| Orders.SearchCaseInsensitive | src/pages/OrdersPage.tsx:56-61 | the whole search gives the same answer for a query and its lower-cased form |
| Orders.StatusCountsPartition | src/pages/OrdersPage.tsx:158-174 | the four status counts add up to the number of orders |
| Orders.Stats | src/pages/OrdersPage.tsx:127-174 | the cards show the number of orders, the sum of the orders' recomputed totals, and the Processing and Delivered counts; those two counts never exceed the number of orders |
| Orders.CountStatusIsMultiplicity | src/pages/OrdersPage.tsx:158-174 | a status card counts exactly as many orders as the status occurs among the orders' statuses |
| Orders.RevenueFromLines | src/pages/OrdersPage.tsx:142 | the revenue card is the sum over the carts of their recomputed line totals |
| Products.FilterProductsExactly | src/pages/ProductsPage.tsx:14-16 | the listed products are exactly those whose lower-cased title contains the lower-cased query, in order |
| Products.FilterProducts | src/pages/ProductsPage.tsx:14-16 | no contract; characterised by Products.FilterProductsExactly and the lemmas below |
| Products.EmptyQueryKeepsAll | src/pages/ProductsPage.tsx:14-16 | an empty query lists every product |
| Products.VerbatimMatchKept | src/pages/ProductsPage.tsx:15 | a product whose title contains the query verbatim is listed |
| Products.KeptTitleLongEnough | src/pages/ProductsPage.tsx:15 | every listed title is at least as long as the query |
| Products.QueryCaseIrrelevant | src/pages/ProductsPage.tsx:15 | filtering by q and by lower-case q gives the same list |
| Products.QueryNotTrimmed | src/pages/ProductsPage.tsx:15 | the query is not trimmed: "lip" finds "Lipstick", " lip" does not |
| Products.ShownCount | src/pages/ProductsPage.tsx:57-58 | the header count is the length of the filtered list; it is at most the number of products, and equals it for an empty query |
| Products.ShowsLoadPrompt | src/pages/ProductsPage.tsx:18 | no contract; the load prompt replaces the page exactly when no product is loaded and no load is under way |
| StoreState.WithoutKey | src/store/useStore.ts:133 | no element left carries the deleted id |
| StoreState.WithoutKeyKeepsOthers | src/store/useStore.ts:133 | every element with another id survives, and nothing new appears |
| StoreState.WithoutKeyKeepsOrder | src/store/useStore.ts:133 | the survivors keep their original order: they are the elements at the strictly increasing positions whose id differs |
| StoreState.WithoutKeyAbsent | src/store/useStore.ts:133 | deleting an id nobody carries leaves the list unchanged, and only then |
| StoreState.WithoutKeyIdempotent | src/store/useStore.ts:133 | deleting the same id twice is deleting it once |
| StoreState.WithoutKeyCommutes | src/store/useStore.ts:133 | two deletions give the same list in either order |
| StoreState.WithoutKeyCount | src/store/useStore.ts:133 | the list shrinks by exactly the number of elements with that id |
| StoreState.RevenueAfterRemoval | src/store/useStore.ts:155 | the catalogue revenue splits into the remaining products' prices plus the removed ones' |
| StoreState.AnalyticsOf | src/store/useStore.ts:163-173 | counts are the list lengths; revenue is the sum of product prices; activeStores is at most 15 and at most the user count, and equals one of them |
| StoreState.DeleteUserAnalytics | src/store/useStore.ts:130-173 | after a confirmed user deletion the user count drops by the number of records with that id, the active-store figure never grows, and the product, order and revenue figures are unchanged |
| StoreState.AppStore.constructor | src/store/useStore.ts:62-71 | every list empty, every loading flag false |
| StoreState.AppStore.BeginFetchUsers | src/store/useStore.ts:74-77 | raises usersLoading and issues the users request; nothing else changes |
| StoreState.AppStore.FinishFetchUsers | src/store/useStore.ts:77-82 | success replaces users with the fetched list; failure keeps them; the flag drops either way |
| StoreState.AppStore.BeginFetchStores | src/store/useStore.ts:86-89 | raises storesLoading and issues the users request |
| StoreState.AppStore.FinishFetchStores | src/store/useStore.ts:89-94 | success puts the whole fetched user list, unfiltered, in stores; users is untouched |
| StoreState.AppStore.BeginFetchProducts | src/store/useStore.ts:98-101 | raises productsLoading and issues the products request |
| StoreState.AppStore.FinishFetchProducts | src/store/useStore.ts:101-106 | success replaces products; failure keeps them; the flag drops either way |
| StoreState.AppStore.FetchCarts | src/store/useStore.ts:110-117 | success replaces carts, failure keeps them; no loading flag is touched |
| StoreState.AppStore.FetchCategories | src/store/useStore.ts:120-127 | success replaces categories, failure keeps them; no loading flag is touched |
| StoreState.AppStore.DeleteUser | src/store/useStore.ts:130-138 | calls the user delete endpoint; on success removes every user with the id, order kept; on failure nothing changes |
| StoreState.AppStore.DeleteStore | src/store/useStore.ts:141-149 | calls the user delete endpoint but filters only stores; users is untouched |
| StoreState.AppStore.DeleteProduct | src/store/useStore.ts:152-160 | calls the product delete endpoint; on success removes every product with the id |
| StoreState.AppStore.GetAnalytics | src/store/useStore.ts:163-173 | the store's figures are StoreState.AnalyticsOf its current lists: counts are the list lengths, revenue is the sum of product prices, activeStores is min(users, 15) |
| StoreState.FetchUsers | src/store/useStore.ts:74-83 | the whole action: the users request, the reply's effect on users, the flag down at the end; its frame lets only users and usersLoading change |
| Legacy.RoleOf | src/App.tsx:165 | a missing or empty role reads as "user"; any other role is kept |
| Legacy.UserShown | src/App.tsx:162-180 | no contract; characterised by Legacy.BlankTermFiltersByRole, Legacy.TermAndRoleBothNeeded, Legacy.TermTrimmedAndCaseBlind and Legacy.RoleCaseBlind |
| Legacy.FilterUsersList | src/App.tsx:162-180 | no contract; characterised by Legacy.FilterUsersExactly and Legacy.NoFiltersShowAll |
| Legacy.FilterUsersExactly | src/App.tsx:162-180 | the listed users are exactly those kept by the term and role tests, in order |
| Legacy.BlankTermFiltersByRole | src/App.tsx:164-167 | with a whitespace-only term a user is listed iff the role matches |
| Legacy.TermAndRoleBothNeeded | src/App.tsx:170-179 | with any other term a user is listed iff the name test and the role test both pass |
| Legacy.NoFiltersShowAll | src/App.tsx:164-167 | an empty term and no role selected list every user |
| Legacy.TermTrimmedAndCaseBlind | src/App.tsx:171-173 | surrounding whitespace and letter case of the term do not matter |
| Legacy.RoleCaseBlind | src/App.tsx:165 | the role comparison ignores case, and a user without a role passes "user" |
| Legacy.StoreOwnersExactly | src/App.tsx:689 | the stores are exactly the users with a company whose name is not empty, in order |
| Legacy.StoreOwners | src/App.tsx:689 | no contract; characterised by Legacy.StoreOwnersExactly |
| Legacy.StoreShown | src/App.tsx:316-330 | no contract; characterised by Legacy.BlankTermShowsAllStores and Legacy.StoreTermTrimmedAndCaseBlind |
| Legacy.FilterStoresList | src/App.tsx:316-330 | no contract; characterised by Legacy.FilterStoresExactly |
| Legacy.BlankTermShowsAllStores | src/App.tsx:318-320 | a whitespace-only term lists every store |
| Legacy.FilterStoresExactly | src/App.tsx:316-330 | the listed stores are exactly those matching on company name, first name, last name or department, in order |
| Legacy.StoreTermTrimmedAndCaseBlind | src/App.tsx:323-327 | surrounding whitespace and letter case of the term do not matter |
| Legacy.WithoutUser | src/App.tsx:223 | no user left carries the deleted id |
| Legacy.WithoutUserKeepsOthers | src/App.tsx:223 | every other user survives the deletion, nothing new appears, and the array shrinks by the number of records with that id |
| Legacy.WithoutStore | src/App.tsx:346 | no store left carries the deleted company name |
| Legacy.WithoutStoreKeepsOthers | src/App.tsx:346 | every store with another name survives, in its original order, and the list shrinks by the number of stores with that name |
| Legacy.DeleteAbsentStore | src/App.tsx:346 | deleting a name no store has changes nothing, and only then |
| Legacy.DeleteThenFilterUsers | src/App.tsx:223-225 | deleting and then filtering equals filtering and then deleting |
| Legacy.DeleteThenFilterStores | src/App.tsx:346-348 | deleting and then filtering equals filtering and then deleting |
| Legacy.LoadStoresRequest | src/App.tsx:684 | no contract; the users list URL with limit 30 followed by the field selection |
| Legacy.LegacyPages.constructor | src/App.tsx:157-160 | nothing loaded, inputs empty, nothing displayed |
| Legacy.LegacyPages.FilterUsers | src/App.tsx:151-184 | no effect before a load; afterwards the grid shows the filtered users |
| Legacy.LegacyPages.FilterStores | src/App.tsx:306-334 | no effect before a load; afterwards the grid shows the filtered stores |
| Legacy.LegacyPages.TypeUserSearch | src/App.tsx:753-756 | records the term and re-filters; the invariant holds |
| Legacy.LegacyPages.SelectRole | src/App.tsx:762-765 | records the role and re-filters with the current term; the invariant holds |
| Legacy.LegacyPages.TypeStoreSearch | src/App.tsx:673-676 | records the term and re-filters; the invariant holds |
| Legacy.LegacyPages.LoadUsers | src/App.tsx:775-788 | success replaces allUsers (empty when the body has no list), shows it whole and clears the term and the role; failure changes nothing |
| Legacy.LegacyPages.ShowAllUsers | src/App.tsx:781-788 | the fetched list becomes allUsers and is shown whole, the term and the role are cleared, and the invariant holds |
| Legacy.LegacyPages.LoadStores | src/App.tsx:682-695 | success keeps the users with a named company as stores, shows them and clears the term; failure changes nothing |
| Legacy.LegacyPages.DeleteUserLive | src/App.tsx:210-232 | once confirmed, sends the delete; on success the user leaves allUsers and the display loses exactly that user; otherwise nothing changes |
| Legacy.LegacyPages.RemoveUser | src/App.tsx:220-226 | the array update after a successful delete, with the search re-applied |
| Legacy.LegacyPages.DeleteStoreLive | src/App.tsx:337-355 | once confirmed, every store with that company name leaves allStores and the display; otherwise nothing changes |
| Api.DefaultUsersUrl | src/services/api.ts:164-165 | the default users request is GET https://dummyjson.com/users?limit=30 |
| Api.DefaultProductsUrl | src/services/api.ts:177-178 | the default products request is GET .../products?limit=30 |
| Api.DefaultCartsUrl | src/services/api.ts:196-197 | the default carts request is GET .../carts?limit=0 |
| Api.DefaultRecentOrdersUrl | src/services/api.ts:233-234 | the default recent-orders request is GET .../carts?limit=5 |
| Api.ListUrl | src/services/api.ts:165 | no contract; characterised by Api.ListUrlLimit |
| Api.UsersRequest | src/services/api.ts:164-165 | no contract; the default is spelled out by Api.DefaultUsersUrl |
| Api.UserRequest | src/services/api.ts:171-172 | no contract; GET on /users/ followed by the decimal id |
| Api.ProductsRequest | src/services/api.ts:177-178 | no contract; the default is spelled out by Api.DefaultProductsUrl |
| Api.ProductRequest | src/services/api.ts:184-185 | no contract; GET on /products/ followed by the decimal id |
| Api.CategoriesRequest | src/services/api.ts:190-191 | no contract; GET on /products/categories |
| Api.CartsRequest | src/services/api.ts:196-197 | no contract; the default is spelled out by Api.DefaultCartsUrl |
| Api.DeleteUserRequest | src/services/api.ts:203-206 | no contract; characterised by Api.DeleteTargetsDiffer and Api.DeleteUserUrlsDistinct |
| Api.DeleteProductRequest | src/services/api.ts:211-214 | no contract; characterised by Api.DeleteTargetsDiffer |
| Api.SearchUsersRequest | src/services/api.ts:219-220 | no contract; the query is appended without URL encoding |
| Api.SearchProductsRequest | src/services/api.ts:226-227 | no contract; the query is appended without URL encoding |
| Api.RecentOrdersRequest | src/services/api.ts:233-234 | no contract; the default is spelled out by Api.DefaultRecentOrdersUrl |
| Api.DashboardStatsRequests | src/services/api.ts:241-245 | no contract; the three list requests with limit 0 |
| Api.ChartDataRequest | src/services/api.ts:261-263 | no contract; the products list request with limit 100 |
| Api.ListUrlLimit | src/services/api.ts:165 | the limit can be read back from a list URL: after the fixed prefix come its decimal digits |
| Api.DeleteTargetsDiffer | src/services/api.ts:203-216 | both deletes use DELETE, and the user and product URLs differ for the same id |
| Api.DeleteUserUrlsDistinct | src/services/api.ts:204 | two user ids share a delete URL only if they are the same id |
| Api.DashboardStatsOf | src/services/api.ts:248-255 | the reported totals pass through; recentCarts is the first min(5, n) carts; the revenue is characterised by the three lemmas below |
| Api.DashboardRevenueConcat | src/services/api.ts:248 | revenue adds up cart by cart |
| Api.DashboardRevenueUsesServiceTotal | src/services/api.ts:248 | for every cart, a single cart contributes exactly its service total, and no carts give 0; with DashboardRevenueConcat, revenue is the sum of the carts' totals |
| Api.DashboardRevenueIgnoresLines | src/services/api.ts:248 | carts with the same totals position by position give the same revenue, whatever their line items |
| Api.InsertPos | src/services/api.ts:284 | a new array-index key goes after every key of smaller or equal value and before the first larger one |
| Api.InsertByValue | src/services/api.ts:284 | the keys before the insertion point stay, the new key follows, the rest move up by one |
| Api.InsertByValueSorted | src/services/api.ts:284 | insertion keeps the array-index keys in ascending order |
| Api.AddKey | src/services/api.ts:280 | no contract; a new key joins the array-index keys by value or the other keys at the end, characterised by Api.InsertByValue and Api.InsertByValueSorted |
| Api.Enumerate | src/services/api.ts:284 | no contract; characterised by Api.EnumerateCovers, Api.EnumerateParts, Api.EnumerateDistinct and Api.EnumerateCreationOrder |
| Api.EnumerateCovers | src/services/api.ts:278-284 | the enumerated keys are exactly the categories that occur |
| Api.EnumerateParts | src/services/api.ts:284 | array-index keys come first, ascending, and the other keys after |
| Api.EnumerateDistinct | src/services/api.ts:284 | no key is listed twice |
| Api.EnumerateCreationOrder | src/services/api.ts:284 | the other keys follow the order of their first occurrence |
| Api.CountCategories | src/services/api.ts:278-281 | the loop yields the keys in enumeration order and, per category, the number of products in it; the counts add up to the number of products |
| Api.Round | src/services/api.ts:288 | Math.round on a non-negative number: within half of the argument, halves rounding up |
| Api.Percentage | src/services/api.ts:288 | no contract; characterised by Api.PercentageBounds and Api.PercentageMonotone |
| Api.PercentageBounds | src/services/api.ts:288 | a count within the total gives a percentage from 0 to 100; the whole gives 100 |
| Api.PercentageMonotone | src/services/api.ts:288 | a larger count never gets a smaller percentage |
| Api.CategoryData | src/services/api.ts:284-295 | at most five entries, the first keys in order, capitalised, with their count, percentage and the colour at their position |
| Api.ChartCategories | src/services/api.ts:278-295 | the chart's entries: the first min(5, k) categories in enumeration order, each with its product count (at least 1), its percentage (0 to 100) and its colour |
| Api.TallyProduct | src/services/api.ts:279-281 | one product: the loop state over the products so far, extended by this one, is again keys in enumeration order with exact per-category counts |
| Api.OccursOnceIff | src/services/api.ts:280 | a category has a positive count iff some product carries it |
| Api.OccurrencesBound | src/services/api.ts:280 | no count exceeds the number of products |
| Api.Occurrences | src/services/api.ts:280 | no contract; the per-category tally, characterised by Api.OccursOnceIff and Api.OccurrencesBound, and computed by Api.CountCategories |
| Api.SalesMonths | src/services/api.ts:266-267 | twelve months, September first, each the calendar month 8 places on |
| Text.Capitalize | src/services/api.ts:290 | the first character is upper-cased, the rest is kept, and the length is unchanged |
| Text.TrimShape | src/App.tsx:164 | what `trim` keeps is an infix of the string with whitespace only before and after it, and it neither starts nor ends with whitespace |
| Text.ContainsAt | src/pages/ProductsPage.tsx:15 | `includes` holds iff the substring occurs at some position |

## Left out

- HTTP, promises and JSON parsing. Each remote call is a `Request` value the
  model returns, and its outcome is a `Reply` parameter: `Failure` is a
  rejected call (a network failure or a body that is not JSON).
- A body that parses but lacks the expected list. There `getUsers`,
  `getProducts` and `getCarts` return `undefined`, and the store's fetch
  actions replace the list with it. The model's store lists are always
  lists, so its Finish steps, FetchCarts and FetchCategories cover only a
  reply that holds the list, and `Failure` (which keeps the old list) does
  not stand for this case. On the legacy pages the model does follow the
  code: loading users reads a missing `users` as the empty list, and
  loading stores treats it as a failure, because `data.users.filter` throws.
- Interleavings of overlapping asynchronous actions. Each Begin/Finish step is
  atomic, and nothing orders two pending calls.
- Leaving the user or store page and coming back. The two pages are separate
  routes, so returning remounts an empty grid and empty inputs while
  `window.allUsers` and `window.allStores` keep their contents. The model's
  `Valid()` (each grid shows its array filtered by the current inputs) holds
  while a page stays mounted; a remount is not modelled.
- Products.KeptTitleLongEnough: holds for the model's ASCII-only lower-casing,
  which keeps the length. JavaScript's `toLowerCase` can lengthen a string
  ("\u0130" becomes two code units), so in the real page a listed title can
  be shorter than the query.
- Products.VerbatimMatchKept: holds for the model's letter-by-letter
  lower-casing. JavaScript's `toLowerCase` maps a capital sigma by context
  (final or not), so a title "ΑΣΑ" does not contain the query "ΑΣ" once both
  are lower-cased, and the real page does not list it.
- The DOM: HTML rendering, `alert`, `confirm`, `console` and the input
  elements. A grid is modelled by the list it last displayed, the inputs by
  their string values, and `confirm` by a boolean parameter.
- The key-up events of the search boxes and the change event of the role
  selector are modelled by TypeUserSearch, TypeStoreSearch and SelectRole.
  Any other change to an input value (pasting without a key press, for
  instance) is not modelled.
- The view-details alerts, the user-detail request and the search endpoints:
  each request is modelled as a value, but no code in the core uses the
  reply.
- `Math.random`. The monthly revenue and sales values and each category's
  `sales` figure depend on it, so only the month names of the series and
  each category's count and percentage are modelled.
- Api.Percentage: computed in exact arithmetic. The floating-point division
  can differ from the exact quotient in the last place, which can move
  Math.round across a half in rare cases.
- `toLocaleString`/`toFixed` formatting of money and the floating-point sums
  behind it. Totals are exact reals, so no rounding of `price * quantity` is
  modelled.
- Text.Lower and Text.Capitalize (through Text.UpperChar): map ASCII letters
  only. JavaScript's `toLowerCase` and `toUpperCase` also map non-ASCII
  letters, and Unicode case mapping is not modelled.
- Categories whose names are inherited `Object.prototype` members
  (`"toString"`, `"__proto__"`). For these, `categoryCount[c] || 0` reads a
  function or an object rather than a missing key. The model treats every
  category as an ordinary own key.
- Api.ListUrl: renders the limit as an integer. Non-integral, infinite or NaN
  limits are not modelled.
- StoreState.AppStore.isLoading: declared and initialised false, and no action
  changes it. The model keeps it as a field that only the constructor sets.
- The orders page's own `loading` flag and empty state. The products page's
  empty state is modelled only as its condition, Products.ShowsLoadPrompt.
- Routing, the sidebar, the theme toggle and the hard-coded chart data of the
  application shell.
