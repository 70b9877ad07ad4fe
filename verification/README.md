# Marketplace storefront: decision rules of the pages

The marketplace is a React single-page storefront for buying and selling second-hand goods. Visitors
browse categories, search (plain text or "AI search"), read a listing, contact the seller and keep
favourites. Sellers sign up, post, edit and mark their listings as sold. Admins moderate pending
listings and manage users. Almost all of the code renders markup or calls `fetch`. Scattered
through the components, though, are small deterministic rules, and this project models those rules
as pure Dafny functions over immutable records. The rules are:

- which request a page makes;
- how a query string is built or rewritten;
- what the session store holds after sign-in and sign-out;
- who may open a page;
- which buttons a row offers;
- which items a list keeps;
- how a form is validated;
- which page numbers the pagination bar shows;
- how phone numbers, descriptions and dates are turned into text.

The modules follow the source files:

- **Shared modules.**
  - `Wrappers` (`Option`).
  - `Seqs`: `Array.prototype.filter`, `slice`, index removal, counting and subsequences.
  - `Text`: JavaScript truthiness, `trim`, decimal `toString`, global `replace`, digit stripping.
  - `Query`: `URLSearchParams` as an ordered list of pairs.
  - `Domain`: the item and user records, status constants, the list-response normalisation.
  - `Categories`: the category table.
  - `UserCodec`: the JSON text of the stored user, with its round trip proved.
- **`src/service/api.ts`.**
  - `Session`: `localStorage` as a `map<string, string>`, and the headers of every endpoint.
  - `ItemApi`: the item-list query string and the list, category and search URLs.
- **`src/contexts/AuthContext.tsx`: `AuthContext`.** The role flags, login and logout.
- **One module per page or component:**
  - `Search`;
  - `Header`;
  - `Admin`;
  - `Dashboard`;
  - `ListingForm`, the rules the post and edit forms share;
  - `EditItem`;
  - `PostItem`;
  - `ItemDetail`;
  - `AuthPage`;
  - `Home` (`Index.tsx`);
  - `CategoryPage`;
  - `Favorites`;
  - `ItemCard`.

Every call to the backend becomes a parameter. An awaited request is a `Fetched<T>`: either `Failed` (it threw) or `Got(body)`. A mount effect that navigates away is a `Guard` value. Some browser and library functions are passed in as function parameters because their grammars are not modelled:

- `parseInt`;
- `encodeURIComponent`;
- the `Date` constructor;
- `toLocaleDateString`;
- zod's e-mail check.

Three observations about the code, all visible in the model:

- **The sign-in form's password check and its message disagree.** The check requires two characters; the message says six. `AuthPage.LoginAcceptsShortPassword` shows a two-character password passing sign-in and failing registration.
- **Every call is a single `fetch`.** Its headers are built from the stored access token. The refresh token is only written at sign-in, as the text "undefined" when the response lacks one, and deleted at sign-out.
- **The upload calls always send an `Authorization` header.** These are `itemAPI.add` and `itemAPI.update`. With no token stored, the header reads `Bearer null`.

## Model

| member | source | states |
|---|---|---|
| Session.GetAuthToken | src/service/api.ts:4 | the token is present exactly when the `accessToken` key is stored, and is that key's value |
| Session.RemoveAuthToken | src/service/api.ts:6-10 | sign-out deletes exactly the access token, refresh token and user keys; every other key keeps its value |
| Session.GetUser | src/service/api.ts:13-16 | an absent or empty `user` entry reads as no user |
| Session.GetUserAfterSetUser | src/service/api.ts:12-16 | a user written with `setUser` is read back unchanged by `getUser` |
| UserCodec.UserRoundTrip | src/service/api.ts:12-16 | the JSON text of `{email, roles}` parses back to the same user, whichever fields are absent |
| Session.Headers | src/service/api.ts:18-27 | the JSON content type is always sent; `Authorization: Bearer <token>` is sent iff auth is requested and a non-empty token is stored; no other header appears |
| Session.UploadHeaders | src/service/api.ts:110-126 | the upload calls send only an `Authorization` header, and it reads `Bearer null` when no token is stored |
| Session.RequestHeaders | src/service/api.ts:29-233 | registration, login and the category list never send a bearer header; the uploads always do; every other endpoint sends one iff a non-empty token is stored |
| Session.StoreLogin | src/service/api.ts:40-53 | an accepted login stores the access token, the refresh token (the text "undefined" if absent) and a user that reads back as `{email, roles}`; any other reply leaves the store unchanged; unrelated keys are never touched |
| Session.LogoutClearsSession | src/service/api.ts:6-10 | after sign-out there is no token, no user and no refresh token, and no non-upload request carries a bearer header |
| Categories.TableWellFormed | src/service/api.ts:236-260 | ten categories, each with a non-empty name and at least one sub-category; no category name occurs twice; the icon table has the same keys in the same order |
| Categories.SubCategoriesOf | src/components/layout/Header.tsx:32 | the sub-category list is non-empty exactly for a key of the category table, and is that key's list |
| Categories.Lookup | src/service/api.ts:236-247 | looking up a key among the table's own entries finds nothing iff no entry has the key, and otherwise the value of an entry with that key |
| AuthContext.RoleFlagsOrdered | src/contexts/AuthContext.tsx:51-53 | super-admin implies admin implies signed in; nobody signed out holds a flag; admin iff the roles contain ADMIN or SUPER_ADMIN |
| AuthContext.LoadUser | src/contexts/AuthContext.tsx:24-27 | the user state is null without a stored user, the stored user when it parses, and an error when the stored text is malformed |
| AuthContext.Login | src/contexts/AuthContext.tsx:33-44 | success iff a reply with a truthy access token arrives, and then the user is the stored `{email, roles}`; otherwise store and user are unchanged and the error is the reply's message, "Login failed", or "Network error" when the call threw |
| AuthContext.Logout | src/contexts/AuthContext.tsx:46-49 | sign-out leaves no token, no stored user and a signed-out, non-admin context |
| AuthContext.LogoutThenReload | src/contexts/AuthContext.tsx:24-31 | reloading after sign-out restores no user |
| Query.Delete | src/pages/Search.tsx:76-77 | `delete` removes every value of the key and keeps every other key's values |
| Query.Set | src/pages/Search.tsx:84 | `set` leaves exactly the one new value under the key and keeps every other key's values |
| Query.SetKeepsPrefix | src/pages/Search.tsx:78 | `set` on a present key replaces it in place: the pairs before its first occurrence are untouched |
| Query.AppendValues | src/service/api.ts:76-80 | `append` adds the value after the key's existing values and changes no other key |
| Query.HasIffValues | src/pages/Search.tsx:27-29 | a key is present iff it has at least one value |
| ItemApi.ListQuery | src/service/api.ts:74-80 | `page`, `limit` and `subCategory` carry a value iff truthy; `minPrice` and `maxPrice` carry one iff defined; each at most once |
| ItemApi.ListQueryKeys | src/service/api.ts:76-80 | page 0 is dropped as falsy while a minimum price of 0 is sent as "0"; an empty sub-category is dropped |
| ItemApi.ListQueryInOrder | src/service/api.ts:75-80 | the query names its parameters in the fixed order page, limit, subCategory, minPrice, maxPrice |
| ItemApi.ListUrl | src/service/api.ts:82-83 | the list URL has a `?` iff the query is non-empty |
| ItemApi.UnfilteredListUrl | src/service/api.ts:82-83 | `getAll()` without filters requests the bare list URL |
| ItemApi.CategoryUrl | src/service/api.ts:97-100 | a truthy sub-category selects the path form `/item/{category}/{sub}`; otherwise the list filtered by `?category=` |
| ItemApi.SearchUrl | src/service/api.ts:92-95 | the text search requests the item endpoint with the one parameter `q`, holding the encoded query |
| ItemApi.SearchUrlIsNotList | src/service/api.ts:82-100 | a search URL never equals a list URL or a category URL, whatever the filters, category or query |
| Domain.DisplayStatus | src/pages/Admin.tsx:304 | the badge shows the item's status, or PENDING when the status is absent or empty |
| Domain.Normalise | src/pages/Dashboard.tsx:52 | a bare array is used as is, an object's `data` when present, else the empty list |
| Search.CurrentPage | src/pages/Search.tsx:23 | the page is the parsed `page` parameter, or the parse of "1" when it is absent or empty |
| Search.ParsedIfTruthy | src/pages/Search.tsx:59-60 | a price bound is sent iff its parameter is truthy, as its parsed value |
| Search.Dispatch | src/pages/Search.tsx:37-62 | AI search iff a query is present and `ai=true`; text search iff a query is present otherwise; the filtered list iff there is no query, with the current page, 20 per page, the sub-category iff truthy and the parsed price bounds |
| Search.DispatchListQuery | src/pages/Search.tsx:37-62 | for every URL: the list is requested iff there is no truthy `q`, and its query then holds the numeral of the current page iff that page is truthy, the fixed limit `ITEMS_PER_PAGE`, and the sub-category iff truthy |
| Search.DispatchListPrices | src/pages/Search.tsx:42-61 | for every URL that lists: each price bound is in the query iff its URL parameter is truthy, as the numeral of its parse, so an unreadable bound is sent as "NaN" |
| Search.ItemUrl | src/pages/Search.tsx:47-61 | the AI search has no item URL; the text search goes to `itemAPI.search` and the list to `itemAPI.getAll` with its filters |
| Search.DispatchItemUrl | src/pages/Search.tsx:44-61 | for every URL: a plain text query, untrimmed and encoded, goes to the search endpoint and never to any list URL; without a query the list URL carries the filters read from the URL |
| Search.EmptyUrlListsFirstPage | src/pages/Search.tsx:40-61 | a URL without parameters requests page 1 with 20 items and no other filter |
| Search.ActiveFiltersKeys | src/pages/Search.tsx:31 | a text query or a category alone shows no chips; a sub-category, a price bound or `ai=true` does |
| Search.ActiveFiltersIgnoreOtherKeys | src/pages/Search.tsx:25-30 | for every URL, setting or deleting any key other than `subCategory`, `minPrice`, `maxPrice` and `ai` (so `q` and `category` too) leaves the chip row as it was |
| Search.AskItems | src/pages/Search.tsx:51 | an AI-search answer without results lists nothing |
| Search.TotalItems | src/pages/Search.tsx:64-66 | the total is the server's when it is non-zero, otherwise the number of items received |
| Search.TotalPages | src/pages/Search.tsx:88 | the page count is the ceiling of total / 20: enough pages for every item, and no empty last page |
| Search.PaginationShownIff | src/pages/Search.tsx:163 | the pagination bar appears iff there are more than 20 items |
| Search.WindowStart | src/pages/Search.tsx:173-177 | the first number shown is 1, or current − 2 past page 3, or total − 4 near the end, the latter two only beyond five pages |
| Search.PageWindow | src/pages/Search.tsx:172-177 | the bar shows min(5, totalPages) numbers counting up from the window start |
| Search.WindowConsecutive | src/pages/Search.tsx:172-179 | the numbers are consecutive and strictly increasing, hence distinct keys |
| Search.WindowInRange | src/pages/Search.tsx:172-177 | whatever the current page, even NaN or past the end, every number shown is between 1 and the page count |
| Search.WindowContainsCurrent | src/pages/Search.tsx:172-177 | a current page between 1 and the page count is always shown |
| Search.WindowShape | src/pages/Search.tsx:173-177 | beyond five pages: pages 1-3 show 1..5, the last two pages show the last five, otherwise the current page is in the middle |
| Search.PreviousTarget | src/pages/Search.tsx:168 | Previous leads to current − 1 iff the current page is above 1, else does nothing |
| Search.NextTarget | src/pages/Search.tsx:192 | Next leads to current + 1 iff the current page is below the page count, else does nothing |
| Search.NavigationLinks | src/pages/Search.tsx:167-194 | on a real page a link is greyed out iff it does nothing, and its target is a real page; past the last page Next looks active but does nothing |
| Search.PageChange | src/pages/Search.tsx:82-86 | a page change sets `page` to the numeral of the new page and keeps every other parameter |
| Search.PageChangeReadsBack | src/pages/Search.tsx:82-86 | after a page change the page read from the URL is the page chosen |
| Search.RemoveFilter | src/pages/Search.tsx:74-80 | removing a chip deletes its key (and `subCategory` with `category`), resets `page` to "1" and keeps every other parameter |
| Search.RemoveFilterClearsChip | src/pages/Search.tsx:104-127 | after removing the AI, sub-category or a price chip, that chip's condition no longer holds |
| Header.Field | src/components/layout/Header.tsx:24-28 | a form field takes its URL parameter when truthy, else the empty string |
| Header.SyncFromUrl | src/components/layout/Header.tsx:35-42 | the form mirrors the URL: each text field from its parameter or "", AI mode iff `ai` is exactly "true" |
| Header.SyncFromEmptyUrl | src/components/layout/Header.tsx:24-30 | an empty URL gives the empty form with AI search off |
| Header.NavigateParams | src/components/layout/Header.tsx:49-58 | the search URL carries the seven known parameters, each with its block's values, and no other parameter |
| Header.NavigateParamsValues | src/components/layout/Header.tsx:50-56 | page is always "1"; `q` holds the untrimmed query iff it has a non-space character; `ai=true` iff AI mode; every other field iff non-empty |
| Header.NavigateUrl | src/components/layout/Header.tsx:58-59 | the search form always navigates to the search page |
| Header.NavigateThenSync | src/components/layout/Header.tsx:35-56 | submitting and reading the new URL back restores the same form, except that a query of white space only is dropped |
| Header.ClearFilters | src/components/layout/Header.tsx:63-68 | clearing empties category, sub-category and both prices and keeps the query and AI mode |
| Header.ClearedFormNavigates | src/components/layout/Header.tsx:63-68 | after clearing, no filter is active and a search carries only page, query and AI mode |
| Header.CategoryIsNotAnActiveFilter | src/components/layout/Header.tsx:33 | the filter dot ignores the category: it lights iff a sub-category or price is set |
| Header.SelectCategory | src/components/layout/Header.tsx:123-126 | choosing a category always resets the sub-category and touches nothing else |
| Header.ToggleAi | src/components/layout/Header.tsx:101 | the AI button flips AI mode and nothing else |
| Header.SubCategoryOptions | src/components/layout/Header.tsx:32 | sub-category options exist iff a known category is selected, and they are that category's own sub-category list in the table |
| Text.TrimEmptyIff | src/components/layout/Header.tsx:51 | a query's trimmed text is empty iff every character is white space |
| Text.FirstTruthy | src/pages/ItemDetail.tsx:259-262 | a chain of logical ORs over optional strings gives none when no operand is truthy, and otherwise the first truthy operand |
| Admin.PageGuard | src/pages/Admin.tsx:40-49 | signed-out visitors go to /auth, signed-in non-admins to /dashboard, and only admins load the panel |
| Admin.GuardsPartitionUsers | src/pages/Admin.tsx:40-49 | signed-out visitors are sent to /auth by both the admin and the seller guard; a signed-in user passes exactly one of the two, each sending the other kind of user to its own page |
| Admin.PendingItemsExact | src/pages/Admin.tsx:135 | the queue holds exactly the PENDING items, in list order |
| Admin.AdminCount | src/pages/Admin.tsx:187 | the admin count is the number of users whose roles include ADMIN |
| Admin.AdminCountAppend | src/pages/Admin.tsx:187 | one more user raises the count by one iff that user's roles include ADMIN, whatever the list before |
| Admin.AdminCountRoles | src/pages/Admin.tsx:187 | a user whose roles hold ADMIN adds one; a SUPER_ADMIN-only user or one without roles adds nothing |
| Admin.RoleActionFor | src/pages/Admin.tsx:364-376 | a role button appears iff the viewer is super-admin and the row is not; it removes admin from an admin and grants it otherwise |
| Admin.RowActions | src/pages/Admin.tsx:364-377 | a super-admin's row offers nothing; every other row offers delete, even to a plain admin who gets no role button |
| Admin.ModerationMatchesBadge | src/pages/Admin.tsx:304-310 | approve and reject are offered only for pending items; a status-less item shows PENDING yet gets no buttons |
| AuthContext.SellerPageGuard | src/pages/Dashboard.tsx:38-46 | signed-out visitors go to /auth, admins to /admin, and only other signed-in users stay; src/pages/PostItem.tsx:34-40 repeats the same guard |
| Dashboard.StatusCounters | src/pages/Dashboard.tsx:122-160 | the counters are the list length and the numbers of APPROVED, PENDING and SOLD items |
| Dashboard.CountersWithinTotal | src/pages/Dashboard.tsx:122-160 | the three status counts sum to at most the total, with equality iff every item is approved, pending or sold |
| Dashboard.CountsCoverAll | src/pages/Dashboard.tsx:134-160 | the status counts cover the whole list iff no item has another or no status |
| Dashboard.MissingStatusNotCounted | src/pages/Dashboard.tsx:147 | a status-less item is shown as PENDING but raises only the total, not the Pending counter |
| Dashboard.DisplayViews | src/pages/Dashboard.tsx:217 | missing views are shown as 0 |
| ListingForm.WithField | src/pages/PostItem.tsx:42-44 | editing a field sets it and leaves the other six unchanged |
| ListingForm.CompleteIffRequiredFilled | src/pages/PostItem.tsx:79-82 | a form may be sent iff name, price, category and sub-category are all non-empty |
| ListingForm.ChooseCategory | src/pages/EditItem.tsx:227 | choosing a category resets the sub-category and keeps the other fields |
| ListingForm.ChoosingCategoryNeedsSubCategory | src/pages/EditItem.tsx:227 | right after a category change the form cannot be sent |
| ListingForm.SubCategoryOptions | src/pages/EditItem.tsx:139-141 | the sub-category select has options iff a known category is chosen, and they are that category's own sub-category list; no category gives none |
| ListingForm.AddFiles | src/pages/EditItem.tsx:75-84 | a selection is accepted iff the images then held stay within the limit; a rejected one changes nothing; the limit is never passed |
| ListingForm.UploadTileMeansRoom | src/pages/EditItem.tsx:195 | the upload tile is shown iff one more image would be accepted; without it every selection is rejected |
| ListingForm.RemoveKeepsAligned | src/pages/EditItem.tsx:99-102 | removing one index from files and previews keeps them equally long, and the k-th remaining file and preview are the original pair at k before the removed index and at k + 1 after it |
| EditItem.PageGuard | src/pages/EditItem.tsx:44-50 | only signed-in users load the item; others go to /auth |
| EditItem.TextOf | src/pages/EditItem.tsx:58 | a missing or empty text field prefills as "" |
| EditItem.PriceText | src/pages/EditItem.tsx:59 | the price prefills as its numeral, "0" included, and as "" only when absent |
| EditItem.Prefill | src/pages/EditItem.tsx:57-65 | each form field is prefilled from its item field, missing fields as "" |
| EditItem.PrefillImages | src/pages/EditItem.tsx:66 | missing images prefill as the empty list |
| EditItem.PrefillCompleteIff | src/pages/EditItem.tsx:57-65 | the unchanged prefilled form can be saved iff the item has a name, a price, a category and a sub-category |
| EditItem.ChooseFiles | src/pages/EditItem.tsx:75-84 | new files are accepted iff kept plus new plus incoming images are at most 5; rejection changes nothing |
| EditItem.UploadTileIff | src/pages/EditItem.tsx:195 | the tile is shown iff one more file would be accepted |
| EditItem.RemoveExisting | src/pages/EditItem.tsx:95-97 | removing a kept image drops exactly that index and keeps the others in order; new files are untouched |
| EditItem.RemoveNew | src/pages/EditItem.tsx:99-102 | removing new file i drops index i from both the files and the previews, keeping the rest in order; an index out of range changes nothing; the kept images are untouched |
| EditItem.SendsUpdate | src/pages/EditItem.tsx:104-111 | an update is sent iff there is a truthy id and every required field (name, price, category, sub-category) is non-empty |
| PostItem.SelectChange | src/pages/PostItem.tsx:46-51 | a select sets its field; the category select also resets the sub-category |
| PostItem.SelectChangeResets | src/pages/PostItem.tsx:46-51 | only the category select resets the sub-category; no select changes another field |
| PostItem.ChooseFiles | src/pages/PostItem.tsx:53-60 | files are accepted iff the images then number at most 8; rejection changes nothing |
| PostItem.UploadTileIff | src/pages/PostItem.tsx:144 | the tile is shown iff one more file would be accepted |
| PostItem.RemoveImage | src/pages/PostItem.tsx:71-74 | removing image i drops index i from both the images and the previews, keeping the rest in order; an index out of range changes nothing |
| PostItem.Submit | src/pages/PostItem.tsx:76-113 | an incomplete form sends nothing; a reply with `_id` or data is a success; a thrown request is "Something went wrong"; any other reply shows its message or "Failed to post ad" |
| ItemDetail.CandidateItems | src/pages/ItemDetail.tsx:42 | similar candidates are `data.items`, else `items`, else a bare `data` array itself, else none; a `data` object without items makes the filter throw |
| ItemDetail.SimilarItemsProperties | src/pages/ItemDetail.tsx:44 | the similar items are the first four candidates other than the one shown, in candidate order; never the one shown; fewer than four only when there are no more others |
| ItemDetail.CheckFavorite | src/pages/ItemDetail.tsx:55-63 | no check without a token and an id; with both, a successful check always sets the heart, a failed one never does; after a successful check the heart is on iff some favourite has this id; a failed check changes nothing |
| ItemDetail.ToggleFavorite | src/pages/ItemDetail.tsx:68-89 | without a token nothing is sent; otherwise remove iff the item is a favourite, and the flag flips iff the awaited call completes without throwing; `addFavorite` and `removeFavorite` never check the HTTP status, so an error reply with a JSON body flips it too |
| ItemDetail.ToggleTwice | src/pages/ItemDetail.tsx:68-89 | two presses whose calls both complete, error replies included, restore the flag |
| ItemDetail.Phone | src/pages/ItemDetail.tsx:259-262 | the phone is the first non-empty of `sellerId.phone`, `sellerPhone`, `seller.phone` |
| ItemDetail.PhoneIsFirstTruthy | src/pages/ItemDetail.tsx:259-262 | the phone equals the reference chain of logical ORs over the three fields, in page order: the first truthy one, or none |
| ItemDetail.PhoneLabel | src/pages/ItemDetail.tsx:262 | the button shows that phone, or "No phone available" |
| ItemDetail.WhatsAppUrl | src/pages/ItemDetail.tsx:267 | the WhatsApp link is `https://wa.me/` followed by the digits of the phone |
| ItemDetail.WhatsAppDigits | src/pages/ItemDetail.tsx:267 | the link number holds only digits, exactly those of the phone, in order, each as often as it occurs |
| Text.StripNonDigits | src/pages/ItemDetail.tsx:267 | the character scan the regular-expression replace performs yields the digits of the text |
| ItemDetail.Description | src/pages/ItemDetail.tsx:192 | an empty or missing description shows the placeholder; any other is shown unescaped |
| ItemDetail.DescriptionUnescaped | src/pages/ItemDetail.tsx:192 | no escape text `\n` survives in a shown description, and text without a backslash is shown as written |
| AuthPage.MinLength | src/pages/Auth.tsx:15-23 | a minimum-length rule reports one issue, on its field and with its message, iff the text is too short |
| AuthPage.EmailIssue | src/pages/Auth.tsx:14 | the e-mail rule reports "Invalid email address" iff the address is not valid |
| AuthPage.LoginIssues | src/pages/Auth.tsx:13-16 | sign-in data is valid iff the e-mail is valid and the password has at least two characters |
| AuthPage.RegisterIssues | src/pages/Auth.tsx:18-24 | registration data is valid iff the e-mail is valid and the first name, last name, password and phone have 2, 2, 6 and 10 characters |
| AuthPage.LoginAcceptsShortPassword | src/pages/Auth.tsx:15 | a two-character password passes sign-in although its message demands six, and fails registration |
| AuthPage.FieldErrors | src/pages/Auth.tsx:65-68 | the error map has an entry exactly for each non-empty field some issue names |
| AuthPage.FieldErrorsLastWins | src/pages/Auth.tsx:65-68 | a field's message is that of its last issue |
| AuthPage.Submit | src/pages/Auth.tsx:56-93 | the errors are cleared; if the active schema reports an issue, the error map becomes exactly `FieldErrors` of its issues and nothing is sent; otherwise the form goes to register or sign in and the map stays empty |
| AuthPage.RegisterShortPasswordShown | src/pages/Auth.tsx:18-24 | every sign-up form whose password has fewer than six characters is stopped, with "Password must be at least 6 characters" under the password, whatever the other fields hold |
| AuthPage.EmptyRegisterFormErrors | src/pages/Auth.tsx:18-24 | submitting the empty sign-up form shows errors for first name, last name, password and phone |
| AuthPage.EmptyLoginFormErrors | src/pages/Auth.tsx:13-16 | submitting the empty sign-in form shows the password error, whose text asks for six characters |
| AuthPage.Change | src/pages/Auth.tsx:51-54 | typing sets only that field and empties only that field's error |
| AuthPage.AfterRegister | src/pages/Auth.tsx:74-80 | a reply with `_id` or data switches to sign-in; otherwise the form stays with the reply's message or "Registration failed" |
| AuthPage.PageGuard | src/pages/Auth.tsx:45-49 | a signed-in visitor is sent to /dashboard; anyone else stays |
| AuthPage.LoginToast | src/pages/Auth.tsx:93-99 | no error after a successful sign-in; otherwise the context's error or "Login failed" |
| AuthPage.SignInOutcome | src/pages/Auth.tsx:92-99 | after `login`: no error toast iff the reply carried a truthy access token, and the user is then signed in, so the page's own guard agrees with the move to /dashboard; a thrown call shows "Network error", a refused reply its message or "Login failed" |
| Home.Featured | src/pages/Index.tsx:14-28 | a failed request shows nothing; at most six items are shown, all approved |
| Home.FeaturedSelection | src/pages/Index.tsx:19 | the featured items are the first min(6, approved count) approved items of the response, in response order; the empty notice appears iff none is approved |
| CategoryPage.SubCategoryOptions | src/pages/Category.tsx:15 | the sub-category menu is non-empty iff the route names a known category |
| CategoryPage.InitialSub | src/pages/Category.tsx:12 | the route's sub-category is preselected iff it is non-empty |
| CategoryPage.Request | src/pages/Category.tsx:19-27 | no request without a category; the sub-category endpoint iff a sub-category is selected; the whole list otherwise |
| CategoryPage.RequestDecidesCategoryCheck | src/pages/Category.tsx:19-39 | after the sub-category endpoint, whose URL is `/item/{category}/{sub}`, every approved item is listed; after the whole list, exactly the approved items of the category |
| CategoryPage.Shown | src/pages/Category.tsx:17-45 | a failed request shows nothing; every shown item comes from the response and is approved, and without a sub-category belongs to the category |
| CategoryPage.ShownIsExactlyListed | src/pages/Category.tsx:27-39 | the shown items are the `Listed` filter of the response: each qualifying item as often as it occurs there, no other, in response order, their number the count of qualifying items |
| Favorites.Initial | src/pages/Favorites.tsx:14-26 | the list starts as the response's `data`, or empty when it is absent or the request fails |
| Favorites.BeginRemove | src/pages/Favorites.tsx:29 | while a removal is in flight only that id's button is disabled and the list is unchanged |
| Favorites.FinishRemove | src/pages/Favorites.tsx:30-38 | a call that completes drops every entry with the id and keeps all others, also when the server answered with an HTTP error since `removeFavorite` never checks it; a thrown call keeps the list; either way every button is enabled again |
| Favorites.RemoveProperties | src/pages/Favorites.tsx:32 | a completed removal keeps the order of the rest, shortens the list by the entries with that id, and repeating it changes nothing |
| ItemCard.Days | src/components/items/ItemCard.tsx:30-31 | the day count is the elapsed time divided by a day, rounded down (negative for a future date) |
| ItemCard.DateLabel | src/components/items/ItemCard.tsx:26-36 | no date gives the empty label and an unparsable one "Invalid Date"; with d whole days elapsed (rounded down), 2 <= d < 7 gives "d days ago" and d < 0 gives "-|d| days ago" |
| ItemCard.DateLabelByElapsed | src/components/items/ItemCard.tsx:30-35 | under one day "Today", under two "Yesterday", up to a week "N days ago" with N from 2 to 6, a future date a negative N, from a week on the calendar date |
| ItemCard.DaysAgoCountsDays | src/components/items/ItemCard.tsx:30-34 | the N of "N days ago" is exactly the whole days elapsed (N days elapsed and less than N + 1), and the N of "-N days ago" the days still to come |
| ItemCard.CoverImage | src/components/items/ItemCard.tsx:44 | the card shows an image iff the first image URL is present and non-empty |

## Left out

- Network I/O, `fetch`, `res.json()` and the backend's behaviour. Responses are inputs, and a thrown request is `Failed`.
- React state timing, effects, re-rendering, toasts and navigation. Mount effects become `Guard` values and toasts become returned strings.
- The loading flags. Only one is worth noting: on the category page without a category, the effect returns before clearing the flag, so the spinner stays. `CategoryPage.Request` returns `NoFetch` for that case.
- The price chip's handler, which calls `removeFilter` twice on one `searchParams` snapshot. The combined effect depends on React's update batching.
- FileReader previews. They arrive asynchronously and in no guaranteed order, so the choose-files functions append files only.
- Locale formatting: `Intl.NumberFormat` prices and the calendar-date branch of the date label. `localeDate` is a parameter.
- `parseInt`, `encodeURIComponent`, `Date` parsing and zod's e-mail grammar are parameters.
- `URLSearchParams` percent-encoding: the query model holds decoded keys and values.
- JSON beyond the stored user's `{email, roles}` text. The general `JSON.parse` grammar is not modelled; a stored text other than what `setUser` writes reads as malformed or as a different value only as far as `UserCodec.DecodeUser` decides.
- AuthPage.MinLength: measures length in characters (code points), whereas zod counts UTF-16 code units. The two differ only for characters outside the Basic Multilingual Plane.
- Item extraction by `response.data || response` on the edit and detail pages. The prefill takes the item itself.
- The multipart `FormData` payloads of posting and editing, and the `existingImages` JSON field.
- Status badge colours and other styling.
- `src/App.tsx` routing, `Footer.tsx`, `Layout.tsx` and `CategoryGrid.tsx`: static markup or routing tables.
- Simple display conditions that carry no contract: `Admin.CanDelete` is covered by `Admin.RowActions`, `Dashboard.ShowMarkSold` is `status !== 'SOLD'` (`src/pages/Dashboard.tsx:230`), `ItemCard.SoldOverlay` is `status === 'SOLD'`, and `AuthPage.StartsInRegister` is `mode === 'register'` (`src/pages/Auth.tsx:28`).
- Categories.Lookup: looks only at the table's own entries. The source indexes a plain object, so an inherited `Object.prototype` key such as `constructor` or `toString` finds a function there. The model returns nothing for those keys.
- Categories.SubCategoriesOf: gives [] for an inherited key such as `constructor` or `toString`. In the source the lookup returns a function, which is truthy, so `|| []` keeps it.
- Header.SubCategoryOptions: gives [] for a URL `category` of `constructor`, where the source's list is the `Object` function. Its `length` is 1, so `subCategories.map` (src/components/layout/Header.tsx:139-147) throws.
- ListingForm.SubCategoryOptions: gives [] for an edited item whose category is an inherited key. In the source, `subCategories.map` (src/pages/EditItem.tsx:250) throws on the function found.
- CategoryPage.SubCategoryOptions: gives [] for a route category such as `constructor` or `toString`. In the source, `subCategories.map` (src/pages/Category.tsx:82) throws on the function found.
- EditItem.PriceText: takes integer prices only. A fractional price such as 12.5 is not modelled. The `Num` type also has no `Infinity`. `Text.IntToString` gives plain decimal digits even from 1e21 on, where JavaScript switches to exponent form. The same holds where `ItemApi.ListQuery` and `Search.PageChange` turn numbers into text (src/service/api.ts:76-80, src/pages/Search.tsx:84).
- The category page's title (`selectedSub || category`) and the `tel:` link.
