# miniThai: the cart, its pages and the request checks, in Dafny

miniThai is a small Thai-restaurant web site. Its browser code keeps a
shopping cart in local storage, and a header badge shows the number of units
in the cart. Three pages work on that cart and on the menu:

- the menu page filters, sorts and pages the dishes;
- the cart page searches and pages the cart lines and adjusts quantities;
- the checkout page prices the order, checks the order form and posts the order.

The contact and reservation forms check e-mails, phone numbers and party sizes.
A small Express server checks the bodies of contact, menu and order requests.

This project states that logic as pure Dafny functions over immutable data and
proves properties of it. There is one module per concern:

| module | file | what it holds |
|---|---|---|
| `Common` | common.dfy | `Option` (an absent value, `NaN`, a missing element), `Min`, `Max` |
| `Text` | text.dfy | the JavaScript string primitives the code uses: `\s`, `trim`, `toLowerCase`, `includes`, `indexOf`, `String(n)`, `parseInt` |
| `Seqs` | seqs.dfy | `Array.prototype.filter`, and a stable sort on an integer key |
| `Cart` | cart.dfy | the line list of `ShoppingCart`: add, remove, update quantity, clear, count, total |
| `Store` | store.dfy | `ShoppingCart` as a whole: storage, listeners, badge, storage events from other tabs |
| `Badge` | badge.dfy | `CartBadgeManager` and the cart's own `updateCartBadge` |
| `Paging` | paging.dfy | page count, page slice, "Showing a-b of n", prev/next, the page-button window |
| `CartPage` | cart_page.dfy | the cart page's search, page navigation, quantity controls and "clear cart" button |
| `Menu` | menu.dfy | the menu's filters, numeric sorts, padded 2x3 grid, page buttons |
| `Emoji` | emoji.dfy | `getItemEmoji` |
| `Forms` | forms.dfy | `validateEmail`, `validatePhone`, `validateFormInputs` |
| `Contact` | contact.dfy | the contact and reservation page's `isValidEmail`, `isValidPhone`, `validateForm` |
| `Checkout` | checkout.dfy | fee and total, `validateCheckoutForm`, `submitOrder`, the paged order summary |
| `PhoneRules` | phone_rules.dfy | how the three phone rules relate |
| `Server` | server.dfy | the contact, menu and order handlers of the server |

Conventions:

- Prices and amounts are integer cents. The delivery fee of RM 5 is 500.
- A falsy string is `""`. An absent candidate quantity is 0, which `q || 1` treats like an explicit 0.
- `confirm(...)` answers, the checked delivery radio, whether a date lies in the past, whether a storage write succeeds, and the server's clock and id stamps are all parameters.
- Server request bodies are `Server.Json` values. `Undefined` stands for a missing property.

## Model

| member | source | states |
|---|---|---|
| Text.StripSpaces | public/assets/js/forms.js:12 | `replace(/\s/g, '')` leaves no white space, keeps every other character, and changes nothing on a string without white space |
| Text.StripSpacesAppend | public/assets/js/checkout.js:272 | stripping white space distributes over concatenation |
| Text.TrimStart | public/assets/js/forms.js:59 | the result is a suffix of the input that does not start with white space, and only white space was dropped |
| Text.TrimEnd | public/assets/js/forms.js:59 | the result is a prefix of the input that does not end with white space, and only white space was dropped |
| Text.TrimEmptyIff | public/assets/js/forms.js:59-66 | `trim()` gives "" exactly when the value is all white space, which is when the "required" test fails |
| Text.TrimEdges | public/assets/js/forms.js:59 | a trimmed value neither starts nor ends with white space |
| Text.TrimUnchanged | public/assets/js/forms.js:59 | a value without white space at either end is its own trim |
| Text.TrimIdempotent | server/index.js:151-153 | trimming twice is trimming once |
| Text.ToLowerKeeps | public/assets/js/contact.js:76 | lower-casing keeps white space, '@' and '.' where they were, and is idempotent |
| Text.TrimToLower | server/index.js:152 | after `trim().toLowerCase()` there is nothing left to trim |
| Text.ContainsIff | public/assets/js/cart-render.js:71 | `includes` holds exactly when the term occurs at some offset |
| Text.OccursContains | public/assets/js/menu.js:617 | an occurrence at a known offset makes `includes` true |
| Text.IndexOf | public/assets/js/forms.js:7 | the first position of the character, with the length standing for "absent" |
| Text.ContainsEmpty | public/assets/js/cart-render.js:69-75 | every name includes the empty term, so an empty search keeps every line |
| Text.NatToString | public/assets/js/cart-badge.js:118 | `String(n)` of a natural number is a run of digits without a leading zero that denotes n |
| Text.DigitPrefix | public/assets/js/cart.js:60 | the longest run of digits at the start of the text |
| Text.LeadingDigits | public/assets/js/cart.js:60 | there is a number exactly when the text starts with a digit, and it is the non-negative value of the longest leading run of digits |
| Text.SignedDigits | public/assets/js/cart.js:60 | after a leading '-' the value is the negated value of the digits that follow; after a '+' it is their value; without a sign it is the value of the leading digits; without digits there is no number |
| Text.SignedDigitsValue | public/assets/js/cart.js:60 | the signed reading, stated directly: no number exactly when no digit follows the optional sign, else the digits' value, negated after '-' |
| Text.ParseInt | public/assets/js/cart.js:60 | `parseInt` skips leading white space and reads an optional sign; it gives `NaN` exactly when no digit follows, and otherwise the value of the longest run of digits there, negated after '-'; a number comes only from text that contains a digit |
| Text.ParseSpacedNumber | public/assets/js/cart.js:60 | `parseInt("  12abc")` is 12: white space is skipped and reading stops at the first non-digit |
| Text.TwelveDigits | public/assets/js/cart.js:60 | the digits at the start of "12abc" denote 12 |
| Text.ParseWord | public/assets/js/cart.js:60 | `parseInt("abc")` is `NaN` |
| Text.ParseNegative | public/assets/js/cart.js:60 | a '-' followed by digits reads as their negated value |
| Text.ParseUnsigned | public/assets/js/cart.js:60 | text starting with a digit reads as its leading digits |
| Text.ParseIntToString | public/assets/js/cart.js:60 | `parseInt(String(n))` gives n back, so the badge text written for a count reads back as that count |
| Text.PrintedStart | public/assets/js/menu.js:353 | a printed integer starts with '-' or a digit, so it is never the word "all" |
| Text.IntToStringInjective | public/assets/js/menu.js:353 | different integers print differently |
| Seqs.Filter | public/assets/js/cart.js:81 | `filter` keeps exactly the accepted elements, with their multiplicities, in their original order |
| Seqs.FilterAll | public/assets/js/cart-render.js:74 | a test that accepts everything keeps the whole list |
| Seqs.FilterMember | public/assets/js/cart.js:81 | an element is kept exactly when it occurs and passes the test |
| Seqs.InsertOn | public/assets/js/menu.js:362-380 | inserting into a list sorted on the key keeps it sorted and adds exactly the one element |
| Seqs.SortOn | public/assets/js/menu.js:362-380 | a sort on an integer key gives a permutation of the input, ascending in the key, and stable: for every key value, the entries with that key come out in the order they went in |
| Seqs.WithKeyAppend | public/assets/js/menu.js:362-380 | taking the entries of one key distributes over concatenation |
| Seqs.InsertWithKey | public/assets/js/menu.js:362-380 | inserting into a sorted list puts the new entry after every entry with the same key |
| Seqs.SortEqualKeys | public/assets/js/menu.js:376-377 | when every element has the same key the sort returns the list unchanged, because it is stable |
| Cart.FindAbsorbing | public/assets/js/cart.js:125-128 | the first line with the same id whose image is empty or the same, or the length when there is none |
| Cart.FindId | public/assets/js/cart.js:150 | the first line with the id, or the length when no line has it |
| Cart.AddItem | public/assets/js/cart.js:118-146 | a falsy id, name or price (0 included) is refused and changes nothing. Otherwise only the first absorbing line changes, to quantity `(old‖1)+(added‖1)`; with no absorbing line exactly one line is appended |
| Cart.RemoveItem | public/assets/js/cart.js:149-159 | succeeds exactly when some line has the id, and then deletes the first such line and keeps the rest in order; otherwise nothing changes |
| Cart.UpdateQuantity | public/assets/js/cart.js:162-175 | fails with no change when no line has the id, even for q ≤ 0; q ≤ 0 is `removeItem`; otherwise only the first matching line's quantity becomes q, with no upper bound |
| Cart.SumsAppend | public/assets/js/cart.js:103-110 | the count and the total of two lists laid end to end are the sums of their counts and totals |
| Cart.SumsReplace | public/assets/js/cart.js:103-110 | replacing one line changes the count and the total by exactly that line's difference |
| Cart.SumsDelete | public/assets/js/cart.js:103-110 | deleting one line takes exactly its units and its subtotal off the count and the total |
| Cart.AddItemSums | public/assets/js/cart.js:103-146 | an accepted add raises the count by the added quantity and the total by that many units of the price of the line it lands on |
| Cart.RemoveItemSums | public/assets/js/cart.js:149-159 | a successful remove shortens the list by one and takes the removed line's units and subtotal off |
| Cart.UpdateQuantitySums | public/assets/js/cart.js:162-175 | a positive update changes the count by the quantity difference and the total by the price times that difference |
| Cart.ReplaceQuantitySums | public/assets/js/cart.js:168-169 | setting one positive quantity to another changes count and total by the differences |
| Cart.CountAtLeastLength | public/assets/js/cart.js:108-110 | with positive quantities the count is at least the number of lines, and 0 exactly for the empty cart |
| Cart.IsEmptyIffNoUnits | public/assets/js/cart.js:113-115 | with positive quantities `isEmpty` holds exactly when the count is 0 |
| Cart.FailureChangesNothing | public/assets/js/cart.js:118-183 | any operation that reports failure leaves the list as it was |
| Cart.PositiveInvariant | public/assets/js/cart.js:118-183 | one operation with a sane input keeps every quantity at least 1 |
| Cart.DeleteKeepsPositive | public/assets/js/cart.js:153 | deleting a line from positive quantities leaves positive quantities |
| Cart.PositiveInvariantAll | public/assets/js/cart.js:118-183 | any run of operations with sane inputs keeps every quantity at least 1 |
| Cart.MergeAsymmetry | public/assets/js/cart.js:125-140 | a stored line without an image absorbs an add of the same id, while a line with an image gets a second line with image "" beside it |
| Cart.SameOrDifferentImage | public/assets/js/cart.js:125-140 | adding the same dish twice gives one line of quantity 2; with a different image it gives two lines |
| Cart.MergeExceeds99 | public/assets/js/cart.js:131 | the store never caps a quantity: a merge into 99 units stores 100 |
| Store.LoadCart | public/assets/js/cart.js:16-24 | the empty list when nothing is stored under the cart's key or what is stored does not parse; what `saveCart` stored comes back by `Store.SaveLoadRoundTrip` |
| Store.WriteCart | public/assets/js/cart.js:29 | the write sets the cart's key and leaves every other key as it was |
| Store.SaveLoadRoundTrip | public/assets/js/cart.js:16-29 | saving and then loading gives back the same list, whatever else storage holds |
| Store.OtherKeysIrrelevant | public/assets/js/cart.js:18 | a write under any other key does not change what the cart loads |
| Store.Subscribe | public/assets/js/cart.js:76-84 | a function is appended after the existing listeners and a handle is returned; anything else is ignored and nothing is returned |
| Store.Unsubscribe | public/assets/js/cart.js:80-82 | the handle removes every registration of that function and keeps the other listeners in order |
| Store.Callees | public/assets/js/cart.js:88-94 | the listeners that were called, in call order |
| Store.Notify | public/assets/js/cart.js:87-95 | every listener is called once, in registration order, with the cart; a throwing listener does not stop the rest |
| Store.BadgeAfter | public/assets/js/cart.js:55-73 | after `updateCartBadge` a present badge shows text that parses to the count, and a missing one stays missing |
| Store.SaveCart | public/assets/js/cart.js:27-35 | a successful write stores the list, calls every listener and updates the badge; a failing write changes nothing and calls no one |
| Store.Open | public/assets/js/cart.js:7-13 | the constructor loads the list from storage, has no listeners and brings the badge up to date |
| Store.Perform | public/assets/js/cart.js:118-183 | the list operation runs and the cart is saved exactly when it reports success; a refused call touches nothing; the in-memory list changes even when the write fails |
| Store.PerformKeepsSynced | public/assets/js/cart.js:27-35 | while storage accepts writes, every operation keeps the list, storage and badge in agreement |
| Store.OpenSynced | public/assets/js/cart.js:7-13 | a freshly opened cart agrees with storage and badge |
| Store.FailedWriteDiverges | public/assets/js/cart.js:27-35 | after a write that throws, storage still holds the old list and no listener hears of the change |
| Store.ClearIdempotent | public/assets/js/cart.js:178-183 | `clear` always succeeds with an empty list, and a second `clear` changes nothing |
| Store.UnsubscribedNotCalled | public/assets/js/cart.js:76-95 | a listener whose registrations were all removed is not called by any operation performed afterwards |
| Store.NonFunctionIgnored | public/assets/js/cart.js:76-84 | subscribing a non-function changes nothing any later operation does |
| Store.OnStorageEvent | public/assets/js/cart.js:44-50 | a storage event for the cart's key reloads the list, updates the badge and calls every listener; any other key is ignored |
| Store.StorageListenersAgree | public/assets/js/cart-badge.js:40-44 | after the cart's own storage listener, the badge manager's listener leaves the badge showing the reloaded count, visible exactly when positive, without a highlight; for other keys neither listener does anything |
| Store.CrossTabConvergence | public/assets/js/cart.js:44-50 | after another tab saves and this tab gets the storage event, this tab holds the other tab's list and agrees with storage again |
| Store.SomTamSession | public/assets/js/cart.js:118-175 | adding one dish at 18.90, raising it to three and removing it gives totals 1890, 5670 and an empty cart and storage |
| Badge.UpdateBadge | public/assets/js/cart-badge.js:99-140 | no element or no cart: nothing happens. Otherwise the text becomes `String(count)` and the display follows the visibility rule, each written only when it differs; the highlight starts exactly when the text changed, the count is positive and above the number shown |
| Badge.UpdateBadgeIdempotent | public/assets/js/cart-badge.js:118-135 | a second reconciliation with the same count writes neither text nor display and does not highlight |
| Badge.UpdateBadgeShowsCount | public/assets/js/cart-badge.js:118-134 | the text reads back as the count, and the badge is visible exactly when the count is positive |
| Badge.NonNumericNeverAnimates | public/assets/js/cart-badge.js:122 | old text that is not a number never leads to a highlight |
| Badge.RepeatStable | public/assets/js/cart-badge.js:14-45 | however many triggers fire with the count unchanged, the badge ends as after the first |
| Badge.OnStorage | public/assets/js/cart-badge.js:40-44 | the manager reconciles on a storage event for the cart's key only |
| Badge.Initialize | public/assets/js/cart-badge.js:47-68 | a second call does nothing; the first subscribes once if the cart is there and installs one observer |
| Badge.InitializeOnce | public/assets/js/cart-badge.js:47-68 | however often `initialize` runs, there is at most one subscription and exactly one observer, decided at the first call |
| Badge.InitializedStays | public/assets/js/cart-badge.js:48 | once initialised, further calls change nothing |
| Badge.CartUpdateBadge | public/assets/js/cart.js:55-73 | as written: text and display are rewritten exactly when the text does not parse to the count, and then the text is `String(count)` |
| Badge.CartUpdateBadgeNeverAnimates | public/assets/js/cart.js:64-70 | as written, the highlight never starts, because the test reads the text just written |
| Badge.CartUpdateBadgeMissedIncrease | public/assets/js/cart.js:65 | for instance "1" becoming 2 rewrites the text but does not highlight |
| Badge.CartUpdateBadgeIdempotent | public/assets/js/cart.js:60 | after one call the text parses to the count, so a second call writes nothing |
| Badge.CartUpdateBadgeIntended | public/assets/js/cart.js:64-65 | corrected: the same writes as the code, with the highlight test made against the text shown before the write |
| Badge.CartUpdateBadgeIntendedAnimates | public/assets/js/cart.js:64-65 | corrected: the highlight starts exactly when a positive count exceeds the number that was shown |
| Badge.CartUpdateBadgeIntendedCatchesIncrease | public/assets/js/cart.js:64-65 | corrected: "1" becoming 2 is highlighted |
| Paging.TotalPages | public/assets/js/cart-render.js:214 | `Math.ceil(n / per)`: the least number of pages that holds n entries |
| Paging.NoPagesIffEmpty | public/assets/js/cart-render.js:214 | there are no pages exactly when there are no entries |
| Paging.ShowsPagination | public/assets/js/cart-render.js:219 | the pager is shown exactly when the entries overflow one page |
| Paging.PageStartBounds | public/assets/js/cart-render.js:116 | the start offset of a real page lies inside the entries, and of a later page at or after their end |
| Paging.SliceIndex | public/assets/js/cart-render.js:118 | how `slice` reads an index: a non-negative one is clamped to the length |
| Paging.Slice | public/assets/js/cart-render.js:118 | `slice(start, end)` with non-negative bounds is the clamped subrange |
| Paging.PageItems | public/assets/js/cart-render.js:116-118 | page p holds the entries at offsets `(p-1)*per` up to `p*per`, as many as exist |
| Paging.PageEmptiness | public/assets/js/cart-render.js:116-118 | the real pages are exactly the non-empty ones |
| Paging.PagesUpToPrefix | public/assets/js/cart-render.js:116-118 | the first k pages laid end to end are the first `k*per` entries |
| Paging.PagesPartition | public/assets/js/cart-render.js:116-118 | all pages together are the whole list, in order, with nothing lost or repeated |
| Paging.ResultsInfo | public/assets/js/cart-render.js:225-227 | on a real page, "Showing first-last of n" has `1 ≤ first ≤ last ≤ n` and covers at most one page |
| Paging.ResultsMatchPage | public/assets/js/cart-render.js:225-227 | the "Showing" numbers describe exactly the entries on the page |
| Paging.Prev | public/assets/js/menu.js:306-314 | the previous button moves back exactly one page when the page is after the first, and otherwise stays; it never moves forward or below page 1 |
| Paging.Next | public/assets/js/menu.js:316-325 | the next button moves on exactly one page when the page is before the last, and otherwise stays; it never moves back or past the last page |
| Paging.NavigationStaysInRange | public/assets/js/menu.js:306-325 | prev and next never leave the pages, and do nothing on the first and last page |
| Paging.Run | public/assets/js/cart-render.js:249-251 | the numbers lo to hi in order |
| Paging.RunSnoc | public/assets/js/cart-render.js:254-256 | a run grows at its end one number at a time, as the loops push them |
| Paging.PageWindow | public/assets/js/cart-render.js:244-275 | all pages when there are at most five; otherwise six or seven entries starting at 1, ending at the last page, with an ellipsis only over hidden pages; the current page is always included |
| Paging.WindowLow | public/assets/js/cart-render.js:253-258 | the row near the start has the window shape |
| Paging.WindowHigh | public/assets/js/cart-render.js:259-264 | the row near the end has the window shape |
| Paging.WindowMiddle | public/assets/js/cart-render.js:265-273 | the row in the middle has the window shape |
| Paging.WindowAscends | public/assets/js/cart-render.js:244-275 | in a window, page numbers strictly increase from left to right |
| Paging.PageWindowOrdered | public/assets/js/cart-render.js:244-275 | every number in the row is a real page, and the numbers strictly increase |
| CartPage.ApplyCartFilters | public/assets/js/cart-render.js:66-79 | with a term, exactly the lines whose lower-cased name includes the lower-cased term, in cart order; with no term, all lines; the page goes back to 1 |
| CartPage.FilterMembership | public/assets/js/cart-render.js:66-79 | a line is listed exactly when it is in the cart and matches, and an empty term lists the cart unchanged |
| CartPage.VisibleLines | public/assets/js/cart-render.js:116-118 | at most four lines, each the filtered line at its page offset |
| CartPage.FirstPageAfterSearch | public/assets/js/cart-render.js:66-118 | right after a search the page shows the first four matches, or all if fewer |
| CartPage.DecreaseClick | public/assets/js/cart-render.js:157-170 | above 1 it asks for one less; at 1 it removes the line only when confirmed; it never asks for a quantity below 1; a missing line does nothing |
| CartPage.IncreaseClick | public/assets/js/cart-render.js:173-181 | one more, only below 99, and never a removal |
| CartPage.RemoveClick | public/assets/js/cart-render.js:184-192 | removes exactly when the line exists and the user confirms |
| CartPage.TypedQuantity | public/assets/js/cart-render.js:197-198 | `parseInt(text) || 1` clamped into [1, 99]: an in-range number is kept, a larger one becomes 99, 0, a negative number or no number becomes 1 |
| CartPage.QuantityBoxChange | public/assets/js/cart-render.js:196-201 | the number written back into the box is the one asked of the store, and it lies in [1, 99] |
| CartPage.DecreaseKeepsBounds | public/assets/js/cart-render.js:157-170 | on a cart within [1, 99] the minus button keeps it within bounds |
| CartPage.IncreaseKeepsBounds | public/assets/js/cart-render.js:173-181 | the plus button keeps every quantity within [1, 99] |
| CartPage.RemoveKeepsBounds | public/assets/js/cart-render.js:184-192 | the remove button keeps every quantity within [1, 99] |
| CartPage.BoxKeepsBounds | public/assets/js/cart-render.js:196-201 | whatever is typed into the box keeps every quantity within [1, 99] |
| CartPage.ClearEntireCart | public/assets/js/cart-render.js:401-438 | the cart is cleared exactly when it is not empty and the user confirms |
| CartPage.ClearEntireCartEffect | public/assets/js/cart-render.js:401-438 | a confirmed clear of a non-empty cart leaves no lines and no units; any other use leaves the cart as it was |
| CartPage.ClickKeepsBounds | public/assets/js/cart-render.js:155-211 | one click of any control keeps every quantity in [1, 99] |
| CartPage.ClicksKeepBounds | public/assets/js/cart-render.js:155-211 | however long the session, the page's controls keep every quantity in [1, 99] |
| CartPage.UnconfirmedClickKeepsLines | public/assets/js/cart-render.js:161-168 | a click whose dialog is not confirmed removes no line; in particular the minus button never asks the store for 0 |
| CartPage.UnconfirmedSessionKeepsLines | public/assets/js/cart-render.js:155-211 | a session in which every dialog is answered no ends with as many lines as it started with |
| CartPage.Render | public/assets/js/cart-render.js:82-87 | `renderCartItems` keeps the cart and the search and sets the page to 1 |
| CartPage.NavigateAsWritten | public/assets/js/cart-render.js:295-368 | as written: prev and next act only when they can move and then render, a page button and every search or cart change render, so every event that acts leaves the page at 1 |
| CartPage.AsWrittenStaysOnFirstPage | public/assets/js/cart-render.js:78-87 | as written, no sequence of events takes the cart page off page 1 |
| CartPage.NextButtonShowsFirstPageAgain | public/assets/js/cart-render.js:360-368 | as written, with more than four matching lines, next and the button for page 2 show the first four lines again though the pager would go to page 2 |
| CartPage.NavigateIntended | public/assets/js/cart-render.js:295-368 | corrected: prev and next move one page within the page count, a page button goes to an existing page, a search goes to page 1, a cart change keeps the page while it exists; from an existing page the result is an existing page |
| CartPage.IntendedStaysInRange | public/assets/js/cart-render.js:295-368 | corrected: no sequence of events leads from an existing page to one that does not exist |
| CartPage.IntendedShowsLines | public/assets/js/cart-render.js:114-118 | corrected: on an existing page something is shown exactly when some line matches |
| CartPage.IntendedNextShowsNextLines | public/assets/js/cart-render.js:360-368 | corrected: with more than four matches, next from page 1 goes to page 2 and shows the fifth line onwards |
| Menu.SearchFromInput | public/assets/js/menu.js:224-226 | the stored search has the typed length and is already lower case, so lower-casing it again changes nothing |
| Menu.NoFilterKeepsAll | public/assets/js/menu.js:349-360 | with every control on "all" and no search, every dish passes, in order |
| Menu.SpiceChoice | public/assets/js/menu.js:353 | a spice choice printed from a level selects exactly the dishes of that level |
| Menu.Sort | public/assets/js/menu.js:362-380 | the numeric sorts give a permutation of the filtered dishes, ascending in the chosen key, with dishes of equal key in their earlier order |
| Menu.SortMeaning | public/assets/js/menu.js:368-375 | "price" is cheapest first, "price-desc" dearest first, "spice" mildest first |
| Menu.SortUnordered | public/assets/js/menu.js:376-377 | a comparator that is always 0 leaves the order alone |
| Menu.ApplyFilters | public/assets/js/menu.js:344-386 | exactly the matching dishes, each as often as on the menu, sorted by the chosen key with dishes of equal key in menu order, and the page back at 1 |
| Menu.ListedIffMatches | public/assets/js/menu.js:349-360 | a dish is listed exactly when it is on the menu and passes the category, diet, spice and search tests |
| Menu.RenderPage | public/assets/js/menu.js:411-439 | no cells for no dishes; otherwise exactly six cells, the page's dishes in order and then placeholders |
| Menu.PageCells | public/assets/js/menu.js:413-439 | cell i of page p holds dish `(p-1)*6 + i` of the list whenever it exists |
| Menu.PushRun | public/assets/js/menu.js:547-549 | one push loop appends the numbers lo to hi |
| Menu.GeneratePageNumbers | public/assets/js/menu.js:541-576 | the menu's button row equals the cart page's row for every current page and total |
| Menu.PageClick | public/assets/js/menu.js:327-339 | a click on a page button with a finite number goes to that page; anything else stays put |
| Menu.ClicksStayInRange | public/assets/js/menu.js:327-339 | from a real page any click in the row lands on a real page, and an ellipsis does nothing |
| Emoji.Lookup | public/assets/js/menu.js:616-621 | the emoji of the first row whose key occurs in the name, or the plate when none does |
| Emoji.ItemEmoji | public/assets/js/menu.js:593-622 | `getItemEmoji`: the first key, in table order, found in the lower-cased name decides |
| Emoji.GreenCurry | public/assets/js/menu.js:595-604 | "Green Curry" also contains "curry", but the earlier key "green curry" decides its emoji |
| Emoji.GreenCurryKey | public/assets/js/menu.js:595-597 | in a name with "green curry" but no 't' and no 'p', the third row is the first key found |
| Forms.ValidateEmail | public/assets/js/forms.js:6-8 | the scan accepts exactly what the e-mail regex matches: one '@', no white space, text before it, and a '.' after it that is neither first nor last |
| Forms.EmailScan | public/assets/js/forms.js:7 | the scan and the regex reading agree in both directions |
| Forms.StripKeepsPhoneChars | public/assets/js/forms.js:12 | white space is in the phone class, so stripping it neither makes nor breaks the character test |
| Forms.ValidatePhone | public/assets/js/forms.js:11-13 | accepted exactly when every character is in the class and at least ten are not white space |
| Forms.FieldProblem | public/assets/js/forms.js:57-94 | a blank value is missing and gets no type check; e-mail, tel and number inputs fail exactly by their rules; a filled date input fails exactly when the date lies before today, and otherwise passes; a number that does not parse passes |
| Forms.CheckEach | public/assets/js/forms.js:57-95 | every field is checked, even after a failure, and the result is true exactly when none failed |
| Forms.ValidateFormInputs | public/assets/js/forms.js:53-98 | true exactly when every required field passes, with each field's problem recorded |
| Contact.LowerKeepsEmailPattern | public/assets/js/contact.js:76 | lower-casing never changes whether the e-mail regex matches |
| Contact.IsValidEmail | public/assets/js/contact.js:74-77 | accepts exactly what forms.js `validateEmail` accepts |
| Contact.IsValidPhone | public/assets/js/contact.js:80-83 | accepted exactly when there are at least eight characters, all digits, white space or `-+()` |
| Contact.PartySizeOk | public/assets/js/contact.js:123-129 | the party size parses to a number from 1 to 20 |
| Contact.FieldReport | public/assets/js/contact.js:90-130 | a blank value is only "required"; otherwise each rule fires on its own field: e-mail inputs, `res-phone`, the `res-date` date input, the `partySize` field |
| Contact.ValidateForm | public/assets/js/contact.js:86-132 | true exactly when no required field triggered any rule |
| Contact.ValidateFormSplit | public/assets/js/contact.js:86-132 | a form passes exactly when both its parts pass, and a passing form has every field filled in |
| PhoneRules.PhoneRulesNested | public/assets/js/checkout.js:271-272 | every phone forms.js accepts, checkout accepts, and every phone checkout accepts, contact.js accepts |
| PhoneRules.NoSpaceRulesAgree | public/assets/js/contact.js:80-83 | without white space the checkout and contact.js phone rules agree |
| PhoneRules.EightDigits | public/assets/js/checkout.js:271 | eight digits pass at checkout but not in forms.js |
| PhoneRules.SpacedDigits | public/assets/js/contact.js:81 | four digits padded with spaces to eight characters pass contact.js but not checkout |
| Checkout.MethodOf | public/assets/js/checkout.js:129-130 | the checked radio's value, or "delivery" when none is checked |
| Checkout.Fee | public/assets/js/checkout.js:131 | RM 5 exactly for delivery, including when no method is checked; otherwise nothing |
| Checkout.UpdateSummary | public/assets/js/checkout.js:124-141 | the subtotal is the cart's total, and the total is subtotal plus fee |
| Checkout.ValidPhone | public/assets/js/checkout.js:270-272 | accepted exactly when every character is in the phone class and at least eight are not white space |
| Checkout.FieldProblem | public/assets/js/checkout.js:241-280 | under pickup the address is skipped; otherwise a blank value is missing and gets no further check, e-mail and tel inputs fail exactly by their rules, other types only need a value |
| Checkout.ValidateCheckoutForm | public/assets/js/checkout.js:241-280 | true exactly when every required field passes |
| Checkout.BuildPayload | public/assets/js/checkout.js:296-313 | trimmed name, e-mail and phone; the address only for delivery; the cart's lines, its total as subtotal, RM 5 for delivery, and their sum |
| Checkout.Posted | public/assets/js/checkout.js:319-367 | only an ok reply with a readable body clears the cart and keeps the button disabled; a refusal shows the failure message; an unreadable ok body or a network failure shows the network message; in all those cases the cart is kept and the button re-enabled; the status says which of the three happened |
| Checkout.SubmitOrder | public/assets/js/checkout.js:282-368 | an order is sent exactly when there is a non-empty cart and the form passes; otherwise the status says whether the cart was empty or the form failed; the cart changes only to empty, and only after an ok reply with a readable body |
| Checkout.SentOrdersAreValid | public/assets/js/checkout.js:282-312 | every posted order has items, a name, an e-mail the pattern accepts, a phone of at least eight usable characters, and an address for delivery |
| Checkout.PassingFormFacts | public/assets/js/checkout.js:241-280 | a passing form has a name, a matching e-mail, a valid phone, and for delivery an address |
| Checkout.PayloadMatchesSummary | public/assets/js/checkout.js:124-141 | `submitOrder` and `updateSummary` each work out the amounts; for the same cart and choice the amounts posted are the ones the summary box shows |
| Checkout.SummaryPage | public/assets/js/checkout.js:171-174 | at most four summary lines, each the cart line at its page offset |
| Checkout.PagerStep | public/assets/js/checkout.js:413-438 | prev and next move one page when there is one; a cart change goes back to page 1 and takes the new count only when the cart is not empty |
| Checkout.PagerStaysInRange | public/assets/js/checkout.js:208-239 | no run of clicks and cart changes takes the summary pager off its pages |
| Checkout.CartChangeShowsFirstLines | public/assets/js/checkout.js:434-438 | after a change to a non-empty cart the summary shows its first four lines, or all if fewer |
| Checkout.PagerShowsLines | public/assets/js/checkout.js:166-174 | while the pager counts the cart's lines, every page it can be on shows some of them |
| Server.PostContact | server/index.js:57-71 | 400 exactly when name, e-mail or message is missing; otherwise the message is stored as sent |
| Server.StoredMessagesComplete | server/index.js:57-71 | however many submissions arrive, the messages only grow at the end and none has a missing field |
| Server.CreateMenuItem | server/index.js:92-110 | 400 exactly when name or category is missing or the price is null or absent, so price 0 is accepted; name, category, price, image and both descriptions are stored as sent; `vegetarian` becomes a boolean; a truthy `spicyLevel` is kept and a falsy one becomes 0 |
| Server.RouterStricter | server/routes/menu.js:36-42 | the menu router accepts exactly the bodies the server file's handler accepts that also have a truthy price |
| Server.ZeroPriceDiffers | server/index.js:94 | a dish priced 0 passes the check of the handler in the server file, but the router mounted before it and the cart's `addItem` both refuse it |
| Server.UpdateFields | server/index.js:120-121 | the update is the body with `id` forced to the path id and `_id` removed |
| Server.FindMenu | server/index.js:117 | the first document with the id, or the length when there is none |
| Server.UpdateMenuItem | server/index.js:112-126 | 404 exactly when no document has the id; otherwise only the first such document changes: the body's fields on top, its `id` still the path id, its `_id` untouched, and no key beyond the stored document's, the body's and `id` |
| Server.NormalEmailIdempotent | server/index.js:152 | normalising an e-mail twice is normalising it once |
| Server.CreateOrder | server/index.js:134-184 | 400 exactly when name, e-mail or phone is missing, the items are not a non-empty array, or a delivery lacks an address; a truthy field that is not a string (so `trim` throws) is a 500; otherwise the order is stored trimmed, with the e-mail lower-cased, the delivery method as sent, the address or null, unreadable amounts as 0, status "pending" and one timeline entry |
| Server.BlankAddressStored | server/index.js:142-154 | a delivery address of only white space passes the check and is stored empty |
| Server.OrdersByEmail | server/index.js:186-210 | 400 without an e-mail, 500 for a truthy non-string one; otherwise exactly the orders stored under its normal form, newest first |
| Server.PlacedOrderFound | server/index.js:152-196 | an order is found again by the e-mail as typed, in any case or with surrounding white space, and by its stored form |
| Server.FindOrder | server/index.js:245 | the first order with the id, or the length when there is none |
| Server.StatusMessage | server/index.js:253 | the body's message when present, else "Order status updated to <status>" |
| Server.UpdateStatus | server/index.js:233-265 | 400 exactly for a status outside the six allowed, before any lookup; 404 for an unknown order; otherwise only the first order with the id changes, taking the status and one more timeline entry |
| Server.StatusChangeAppendsOne | server/index.js:251-265 | an accepted change lengthens the timeline by exactly one entry, keeps the earlier entries, and keeps the order's id, items and e-mail |

## Left out

- Text.ToLower: lower-cases ASCII A–Z only. JavaScript's `toLowerCase` is full Unicode, so a search or e-mail with letters such as "É" compares differently in the model.
- Text.ParseInt: reads decimal digits only. `parseInt` without a radix also reads a "0x" prefix as hexadecimal; that case is not modelled.
- Cart.Total: prices and amounts are integer cents. The source computes in JavaScript floating point; `parseFloat`, `toFixed(2)` and the rounding they bring are not modelled.
- Server.CreateOrder: the three amounts arrive as what `parseFloat` reads, already in integer cents (`None` for `NaN`). Json numbers are whole numbers.
- Store.LoadCart: stored text is either a serialised list or unreadable. Valid JSON that is not an array ("null", "{}", "3") is not modelled; the source would keep it as the cart, and later cart calls would throw.
- Server.OrdersByEmail: `createdAt` is an integer clock reading, standing for the ISO time string, whose text order is the time order. The order of two orders with the same time is not stated.
- Checkout.Required: assumes the page markup, which is not part of this model. The four inputs read by id are taken to be required, typed text, e-mail, tel and text; any further required inputs are passed in. The pickup handler makes the address not required; the model gets the same result from the address skip in `Checkout.FieldProblem`.
- Checkout.SubmitOrder: the local order history written to `miniThai_orders` after an ok reply, `form.reset()`, the button text and the redirect are not modelled.
- Store.StorageListenersAgree: assumes the cart's storage listener runs before the badge manager's. That is the order in which the two scripts register them.
- Menu.Sort: the "name", "name-desc" and "category" orders use `localeCompare`, whose collation is locale data outside the code; only the numeric orders and the always-0 comparator are modelled. The stable sort stands for `Array.prototype.sort`, which is stable.
- Forms.FieldProblem: date checks take a `past` flag instead of comparing with today's date. The same holds for `Contact.FieldReport`.
- Dates and stamps: `addedAt`, `createdAt` strings, the timeline time stamps, `Date.now()` ids and order ids are opaque parameters.
- The DOM and timers: HTML strings, `innerHTML`, `confirm`/`alert` (a boolean input), the 2-second polling, mutation observers, focus and visibility events, the 300 ms highlight removal. Badge reconciliation is modelled as something that may run any number of times.
- Form submission glue: `submitContact`, `submitReservation` and `handleSubmit` only call the validators and `fetch`.
- Server plumbing: Express wiring, MongoDB and its failures, `POST /api/reservations`, `GET /api/orders/:orderId`, `DELETE /api/menu/:id`, `DELETE /api/orders/:orderId`, and the routers that are mounted earlier and serve some of the same paths. The handlers are modelled as pure checks on a request body, not as claims about which code answers a live request.
- Server.ZeroPriceDiffers: `Server.CreateMenuItem` models the handler at server/index.js:92-110. A live `POST /api/menu` reaches the router mounted at server/index.js:40 first, and that router refuses price 0 (server/routes/menu.js:40-41, `Server.RouterAcceptsMenu`). The rest of that router, the database insert included, is not part of this model.
- Quantities: the cart page keeps quantities in [1, 99], but the store itself never caps them (`Cart.MergeExceeds99`). A range of [1, 99] for the store would not match the code.

## Findings

| source | as written | input that shows it | evidently intended | confidence | as-written member | corrected member |
|---|---|---|---|---|---|---|
| public/assets/js/cart.js:61-65 | `updateCartBadge` writes the new count into the badge text, then tests `parseInt(badge.textContent) < count`. That reads the count it just wrote, so the highlight never starts | badge shows "1", count becomes 2: the text changes to "2", no highlight | compare the count with the number shown before the write, as cart-badge.js:122 does | not executed | Badge.CartUpdateBadge (with Badge.CartUpdateBadgeNeverAnimates, Badge.CartUpdateBadgeMissedIncrease) | Badge.CartUpdateBadgeIntended (with Badge.CartUpdateBadgeIntendedAnimates, Badge.CartUpdateBadgeIntendedCatchesIncrease) |
| public/assets/js/cart-render.js:78-87 | `renderCartItems` always calls `applyCartFilters`, which sets `currentPage = 1`. Prev, next and the page buttons set the page and then render, so the page is reset at once | five lines in the cart, no search, next clicked on page 1: the pager says "Showing 1-4 of 5" again and shows lines 1-4 | reset the page only when the search changes, as the comment at line 77 and the menu page (menu.js:306-325, 411) do | not executed | CartPage.NavigateAsWritten (with CartPage.AsWrittenStaysOnFirstPage, CartPage.NextButtonShowsFirstPageAgain) | CartPage.NavigateIntended (with CartPage.IntendedStaysInRange, CartPage.IntendedNextShowsNextLines, CartPage.IntendedShowsLines) |
