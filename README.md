# Storefront state and list logic, in Dafny

This project models the parts of a Next.js clothing storefront whose
behaviour can be stated precisely, and proves properties of them.

- **Wishlist container.** A list of saved products, kept free of duplicate
  ids. It is loaded from the `"wishlist"` localStorage key on mount. It is
  written back to that key after every change, but only once loading has
  finished.
- **Review container.** Product ratings upserted by product id.
- **"My Reviews" page.**
  - The list is loaded from the `"reviews"` key.
  - Reviews can be deleted per product or all at once; each delete is
    mirrored to storage.
  - Four sort orders.
  - The mean rating and the per-star histogram.
  - The text and colour shown for a star count.
- **Product listing and filter panel.**
  - The four-key filter selection, with its price bands parsed from strings
    such as `"5000-10000"`.
  - The filtered catalog.
  - The summary labels.
  - The image-carousel step.
- **Header.**
  - The rotating announcement bar.
  - The case-insensitive product search, with its suggestion list.
- **Store page.** The cart total.
- **Account page.**
  - The administrator e-mail check.
  - The admin-code gate.
  - The four-state login-type chooser.

## Modules

- **`JsBuiltins`** models the JavaScript built-ins the code relies on.
  - Its functions: `filter`, `reduce`, `includes`, `toLowerCase`, `trim`,
    `split`, `replace`, `Number()`, number printing, and the truncating `%`.
  - `None` stands for `undefined`, `null` and `NaN`.
  - Some built-ins are stated directly by their contracts:
    - `Filter`: which elements are kept, how many copies of each, and in
      what order;
    - `Lower`: character by character;
    - `TrimStart` and `TrimEnd`: what is removed and what is kept;
    - `Rem`: bounds, sign, and that the dividend minus the result is a
      multiple of the divisor. Together these determine the truncating
      remainder exactly.
  - Others have a separate reference definition and a lemma tying the two
    together:
    - `reduce` against a recursive sum;
    - `includes` against a positional substring test;
    - `split` against `join`;
    - number printing against a digit-value round trip.
- **`Storage`** models localStorage as a class holding a map from keys to
  stored texts. A text is one of:
  - the JSON text of a list;
  - the empty string;
  - text that `JSON.parse` rejects.
- One module per component or page:
  - `WishlistContext` and `ReviewContext`;
  - `ReviewPage`;
  - `ProductFilter` and `ProductsPage`;
  - `Navbar`;
  - `StorePage`;
  - `AccountPage`.

  In each one:
  - a value computed from state is a function with lemmas;
  - React state that event handlers or effects update is a class whose
    methods are proved against those functions. This includes the listing's
    selection and each product card's image index.

## Model

| member | source | states |
|---|---|---|
| JsBuiltins.Filter | src/app/context/WishlistContext.tsx:61 | `filter` keeps exactly the elements its callback accepts, with every copy of each, and never returns more elements than it was given |
| JsBuiltins.FilterIsSubsequence | src/app/review/page.tsx:279-281 | `filter` keeps the surviving elements in their original order |
| JsBuiltins.FilterOfFilter | src/app/components/ProductsPage.tsx:240-254 | filtering with a stricter callback after a looser one equals filtering with the stricter one alone |
| JsBuiltins.FilterIdempotent | src/app/context/WishlistContext.tsx:61 | filtering twice with the same callback equals filtering once |
| JsBuiltins.FilterKeepsAll | src/app/components/ProductsPage.tsx:240-254 | when every element passes, `filter` returns the array unchanged |
| JsBuiltins.EmptyIsSubsequence | src/app/components/Navbar.tsx:86-87 | the empty list is a subsequence of every list, so an emptied suggestion list keeps catalog order |
| JsBuiltins.ReduceSum | src/app/store/page.tsx:71-74 | folding over an empty array returns the start value, and non-negative terms never bring the result below it |
| JsBuiltins.ReduceIsSum | src/app/store/page.tsx:71-74 | the left-to-right `reduce` of `acc + f(x)` from `acc` equals `acc` plus the sum of `f` over the array |
| JsBuiltins.SumConcat | src/app/store/page.tsx:71-74 | the sum over two joined arrays is the sum of their sums |
| JsBuiltins.SumPermutation | src/app/store/page.tsx:71-74 | arrays that are permutations of each other have the same sum |
| JsBuiltins.SumNonNegative | src/app/store/page.tsx:71-74 | non-negative terms give a non-negative sum |
| JsBuiltins.Includes | src/app/components/Navbar.tsx:90 | a string includes each of its prefixes, and never a longer string |
| JsBuiltins.IncludesAt | src/app/components/Navbar.tsx:89-91 | `includes` holds exactly when the searched text occurs at some position |
| JsBuiltins.Lower | src/app/components/Navbar.tsx:90 | `toLowerCase` keeps the length and folds each character separately |
| JsBuiltins.LowerIdempotent | src/app/components/Navbar.tsx:90 | lower-casing twice equals lower-casing once |
| JsBuiltins.TrimStart | src/app/components/Navbar.tsx:86 | the result is a suffix that does not start with whitespace, and only whitespace was removed |
| JsBuiltins.TrimEnd | src/app/components/Navbar.tsx:86 | the result is a prefix that does not end with whitespace, and only whitespace was removed |
| JsBuiltins.Trim | src/app/components/Navbar.tsx:86 | the result is a contiguous piece of the input that neither starts nor ends with whitespace, and only whitespace lies before and after it |
| JsBuiltins.TrimEmptyIffBlank | src/app/components/Navbar.tsx:86 | `!s.trim()` holds exactly for empty and all-whitespace strings |
| JsBuiltins.Split | src/app/components/ProductsPage.tsx:244 | `split` always yields at least one part |
| JsBuiltins.SplitJoin | src/app/components/ProductsPage.tsx:244 | joining the parts with the separator gives back the string, and no part contains the separator |
| JsBuiltins.SplitAtFirst | src/app/components/ProductsPage.tsx:244 | `a + "-" + b` with no "-" in `a` splits into `a` followed by the parts of `b` |
| JsBuiltins.SplitNoSeparator | src/app/components/ProductsPage.tsx:244 | a string without the separator splits into itself alone |
| JsBuiltins.ReplaceFirst | src/app/components/ProductFilter.tsx:260 | without the character the string is unchanged; with it, the length grows by the replacement's length less one (where the replacement goes is `ReplaceFirstAt`) |
| JsBuiltins.ReplaceFirstAt | src/app/components/ProductFilter.tsx:260 | a one-character `replace` rewrites only the first occurrence |
| JsBuiltins.Number | src/app/components/ProductsPage.tsx:244 | `Number` is defined (not NaN) exactly on digit strings; `""` reads as 0; results are non-negative |
| JsBuiltins.DecimalString | src/app/components/ProductFilter.tsx:281 | a printed count is a non-empty digit string |
| JsBuiltins.DecimalRoundTrip | src/app/components/ProductFilter.tsx:281 | reading a printed count back gives the count |
| JsBuiltins.Rem | src/app/components/ProductsPage.tsx:80 | `%` by 0 is NaN; otherwise the remainder is smaller in magnitude than the divisor, has the sign of the dividend, and differs from the dividend by a multiple of the divisor |
| Storage.LocalStorage.GetItem | src/app/context/WishlistContext.tsx:29 | `getItem` is `null` exactly for a missing key, and otherwise returns the stored text |
| Storage.LocalStorage.SetItem | src/app/context/WishlistContext.tsx:44 | `setItem` stores the list's JSON under the key and changes no other key |
| Storage.LocalStorage.RemoveItem | src/app/review/page.tsx:288 | `removeItem` deletes the key and changes no other key |
| WishlistContext.InWishlist | src/app/context/WishlistContext.tsx:64-66 | an id is in the wishlist exactly when some entry carries it, which needs a non-empty list |
| WishlistContext.AddItem | src/app/context/WishlistContext.tsx:51-58 | appends the item only when its id is new (the list grows by one with the item last); otherwise the list is unchanged; afterwards the id is present, the old list is a prefix, and duplicate-free lists stay duplicate-free |
| WishlistContext.RemoveItem | src/app/context/WishlistContext.tsx:60-62 | afterwards no entry has the id; exactly the other entries are kept, every copy of each, in order; duplicate-free lists stay duplicate-free |
| WishlistContext.FilterKeepsUnique | src/app/context/WishlistContext.tsx:61 | filtering a list with distinct ids leaves distinct ids |
| WishlistContext.RemoveIdempotent | src/app/context/WishlistContext.tsx:60-62 | removing the same id twice equals removing it once |
| WishlistContext.RemoveAbsentIsNoOp | src/app/context/WishlistContext.tsx:60-62 | removing an id that is not there leaves the list as it was |
| WishlistContext.AddTwiceAddsOnce | src/app/context/WishlistContext.tsx:51-58 | adding the same new item twice appends it once |
| WishlistContext.Hydrated | src/app/context/WishlistContext.tsx:27-38 | a stored list replaces the current one; a missing key, empty text or unparseable text leaves the current list |
| WishlistContext.WishlistProvider.WishlistCount | src/app/context/WishlistContext.tsx:72 | the count is the length of the list, and it is 0 exactly when no id is in the wishlist |
| WishlistContext.WishlistProvider.LoadEffect | src/app/context/WishlistContext.tsx:27-38 | adopts the stored list when there is one; a missing, empty or unparseable value keeps the current list; `isLoaded` becomes true in every case, and storage is not written |
| WishlistContext.WishlistProvider.SaveEffect | src/app/context/WishlistContext.tsx:41-49 | writes the list to `"wishlist"` only when `isLoaded`; before that, storage is unchanged; afterwards storage holds the list |
| WishlistContext.WishlistProvider.Mount | src/app/context/WishlistContext.tsx:23-49 | after mounting, the list is the hydrated one and storage mirrors it; a stored list survives unchanged, so the empty initial list never overwrites it |
| WishlistContext.WishlistProvider.AddToWishlist | src/app/context/WishlistContext.tsx:51-58 | the list becomes `AddItem` of the old list; once loaded, storage is the old storage with `"wishlist"` set to the new list and every other key unchanged; before loading, storage is untouched |
| WishlistContext.WishlistProvider.RemoveFromWishlist | src/app/context/WishlistContext.tsx:60-62 | the list becomes `RemoveItem` of the old list; once loaded, storage is the old storage with `"wishlist"` set to the new list and every other key unchanged; before loading, storage is untouched |
| ReviewContext.SetRating | src/app/context/ReviewContext.tsx:36-40 | same length; entries with the id get the new rating and nothing else changes; other entries are unchanged |
| ReviewContext.SetRatingAbsent | src/app/context/ReviewContext.tsx:36-40 | updating an id no entry has changes nothing |
| ReviewContext.SetRatingKeepsIds | src/app/context/ReviewContext.tsx:36-40 | every id stays in place, so distinct ids stay distinct |
| ReviewContext.Upsert | src/app/context/ReviewContext.tsx:24-34 | for a known id: same length, ids, titles, prices and images, and only the matching entries' rating changes; for a new id: the review is appended; afterwards the id is present with the new rating, and distinct ids stay distinct |
| ReviewContext.RateTwiceKeepsOneEntry | src/app/context/ReviewContext.tsx:24-34 | rating a new product twice leaves one entry for it, last in the list, with the first review's details and the second rating |
| ReviewContext.ReviewProvider.AddReview | src/app/context/ReviewContext.tsx:24-34 | the state becomes the upsert of the old state |
| ReviewContext.ReviewProvider.UpdateReview | src/app/context/ReviewContext.tsx:36-40 | the state becomes the rating update of the old state |
| ReviewPage.ParseStored | src/app/review/page.tsx:273 | a missing key or empty text reads as `[]`; a stored list reads as itself; unparseable text is the only failure |
| ReviewPage.DeleteByProduct | src/app/review/page.tsx:278-281 | keeps exactly the reviews of other products, every copy of each, in order |
| ReviewPage.DeleteIdempotent | src/app/review/page.tsx:278-281 | deleting a product's reviews twice equals deleting them once |
| ReviewPage.Compare | src/app/review/page.tsx:291-304 | each comparator branch, including `default`, is the difference of one numeric key, so it is a consistent total preorder |
| ReviewPage.Insert | src/app/review/page.tsx:291-304 | inserting into a sorted list keeps it sorted and adds exactly that element |
| ReviewPage.SortReviews | src/app/review/page.tsx:291-304 | the sorted copy is ordered by the selected key and is a permutation of the reviews |
| ReviewPage.SortOrderByMode | src/app/review/page.tsx:292-303 | "oldest": timestamps non-decreasing; "rating-high": ratings non-increasing; "rating-low": ratings non-decreasing; "newest" and any other value: timestamps non-increasing |
| ReviewPage.RatingSum | src/app/review/page.tsx:309 | the `reduce` equals the sum of the ratings, which lies between the count and five times the count when every rating is in 1..5 |
| ReviewPage.SumBounds | src/app/review/page.tsx:309 | with every rating in 1..5, the rating sum lies between the count and five times the count |
| ReviewPage.MeanBounds | src/app/review/page.tsx:309-310 | a sum between n and 5n, divided by n, lies in [1, 5] |
| ReviewPage.AverageRating | src/app/review/page.tsx:306-312 | 0 for no reviews; otherwise the value times the count is the rating sum, and it lies in [1, 5] when every rating does |
| ReviewPage.RatingCount | src/app/review/page.tsx:314-320 | a bar never counts more than all reviews, and is non-zero exactly when some review has that many stars |
| ReviewPage.DistributionTotal | src/app/review/page.tsx:314-320 | with every rating in 1..5, the five histogram counts add up to the number of reviews |
| ReviewPage.RatingText | src/app/review/page.tsx:94-109 | the text is non-empty exactly for ratings 1 to 5 |
| ReviewPage.RatingTextDistinct | src/app/review/page.tsx:94-109 | different star counts get different texts |
| ReviewPage.RatingColor | src/app/review/page.tsx:111-115 | green exactly from 4 up, yellow exactly at 3, red exactly below 3 |
| ReviewPage.ReviewsPage.Load | src/app/review/page.tsx:272-276 | succeeds exactly when the stored text parses, adopting the parsed list and setting `isLoaded`; on failure nothing changes |
| ReviewPage.ReviewsPage.DeleteReview | src/app/review/page.tsx:278-284 | the state drops that product's reviews, and `"reviews"` stores exactly the new list |
| ReviewPage.ReviewsPage.ClearAllReviews | src/app/review/page.tsx:286-289 | the state is empty and the `"reviews"` key is removed, with other keys unchanged |
| ReviewPage.ReviewsPage.SetSortBy | src/app/review/page.tsx:508 | only the sort option changes |
| ReviewPage.ReviewsPage.SortedReviews | src/app/review/page.tsx:291-304 | the shown list is ordered by the selected key and is a permutation of the state |
| ProductFilter.UpdateFilter | src/app/components/ProductFilter.tsx:43-48 | the chosen key gets the value and the other three keys are unchanged |
| ProductFilter.ClearAllFilters | src/app/components/ProductFilter.tsx:50-52 | every key is empty |
| ProductFilter.HasActiveFilters | src/app/components/ProductFilter.tsx:247 | the summary shows exactly when the selection differs from the cleared one |
| ProductFilter.ActiveFiltersIffSomeKeySet | src/app/components/ProductFilter.tsx:247 | the summary shows exactly when some key is non-empty: never after clearing, always after setting a non-empty value |
| ProductFilter.PriceLabelOfBand | src/app/components/ProductFilter.tsx:259-260 | a band `lo-hi` is shown as "₹lo - ₹hi", so an open band `lo-` is shown as "₹lo - ₹" |
| ProductFilter.PriceLabel | src/app/components/ProductFilter.tsx:259-261 | a value with "-" is shown starting with "₹", with one "-" widened to " - ₹"; a value without "-" is shown as "Above ₹" followed by the value |
| ProductFilter.ResultsLabel | src/app/components/ProductFilter.tsx:281 | the label starts with the count, which reads back exactly, followed by " products found" for every count but 1 |
| ProductFilter.FilterPanel.Toggle | src/app/components/ProductFilter.tsx:148 | the panel's open flag flips |
| ProductFilter.FilterPanel.MouseDown | src/app/components/ProductFilter.tsx:27-41 | a click outside closes the panel; any other click leaves it as it was |
| ProductsPage.BandMin | src/app/components/ProductsPage.tsx:244 | the minimum of a value without "-" is that value read as a number; a minimum is never negative |
| ProductsPage.BandMax | src/app/components/ProductsPage.tsx:244 | a value without "-" has no maximum; a maximum is never negative |
| ProductsPage.WithinBand | src/app/components/ProductsPage.tsx:244-245 | no band admits a negative price, and the empty band admits exactly the non-negative prices |
| ProductsPage.WithinDigitBand | src/app/components/ProductsPage.tsx:244-245 | a band of two digit strings admits exactly the prices from min to max inclusive, and a max of 0 or empty leaves it open above |
| ProductsPage.WithinSingleValue | src/app/components/ProductsPage.tsx:244-245 | a value without "-" acts as a lower bound only |
| ProductsPage.OfferedBands | src/app/components/ProductsPage.tsx:378-384 | the four offered bands admit [0,5000], [5000,10000], [10000,20000] and [20000,∞) |
| ProductsPage.Matches | src/app/components/ProductsPage.tsx:240-254 | the cleared selection admits every product, and a price selection never admits a negative price |
| ProductsPage.FilterProducts | src/app/components/ProductsPage.tsx:240-254 | the listing holds exactly the catalog products the selection admits, every copy of each, in catalog order |
| ProductsPage.EmptySelectionListsAll | src/app/components/ProductsPage.tsx:228-238 | with nothing selected, the whole catalog is listed in order |
| ProductsPage.RefilterIsIdentity | src/app/components/ProductsPage.tsx:240-254 | filtering the listing again with the same selection changes nothing |
| ProductsPage.NarrowingShrinks | src/app/components/ProductsPage.tsx:293-297 | setting a previously empty key only narrows the listing: the new list is the old list filtered further |
| ProductsPage.ExactAttributeMatch | src/app/components/ProductsPage.tsx:241-251 | size, fabric and colour must equal the selection exactly, letter case included |
| ProductsPage.NextImageIndex | src/app/components/ProductsPage.tsx:80 | no images gives NaN; otherwise, from any index not below -1, the next index is within the image list, and from -1 up to the last index it is the following index, wrapping from the last to 0 |
| ProductsPage.ProductListing.constructor | src/app/components/ProductsPage.tsx:228-238 | the page opens with nothing selected and lists the whole catalog |
| ProductsPage.ProductListing.Listed | src/app/components/ProductsPage.tsx:240-254 | the listing holds exactly the catalog products the current selection admits, in catalog order |
| ProductsPage.ProductListing.SelectOption | src/app/components/ProductsPage.tsx:293-297 | the chosen key takes the option's value and the others are kept; setting a key that was empty only narrows the listing |
| ProductsPage.ProductListing.ClearAll | src/app/components/ProductsPage.tsx:419-421 | every key is emptied and the whole catalog is listed again |
| ProductsPage.ProductCard.constructor | src/app/components/ProductsPage.tsx:61 | a card starts on its first image |
| ProductsPage.ProductCard.Tick | src/app/components/ProductsPage.tsx:78-83 | the interval moves to the following image and wraps from the last to the first; with no images the index becomes NaN and stays NaN; with images the index stays within them |
| ProductsPage.ProductCard.SelectImage | src/app/components/ProductsPage.tsx:96-102 | a thumbnail click shows that image |
| Navbar.NextAnnouncement | src/app/components/Navbar.tsx:46-51 | the next index is the following one, wrapping from the last announcement to the first, so it is valid and differs from the current one |
| Navbar.AnnouncementCycle | src/app/components/Navbar.tsx:24-51 | three ticks return to the start after showing each announcement once |
| Navbar.TitleMatches | src/app/components/Navbar.tsx:89-91 | a title matches only if it is at least as long as the query, and the empty query matches every title |
| Navbar.SearchResults | src/app/components/Navbar.tsx:85-94 | a blank query gives no suggestions; otherwise, exactly the catalog entries whose lower-cased title contains the lower-cased query, every copy of each, in catalog order |
| Navbar.LowerKeepsBlank | src/app/components/Navbar.tsx:86-90 | lower-casing does not change whether a query is blank |
| Navbar.SearchIgnoresCase | src/app/components/Navbar.tsx:85-94 | queries that differ only in letter case give the same suggestions |
| Navbar.LeadingSpaceIsSearched | src/app/components/Navbar.tsx:86-90 | only the blank test trims, so " kurta" does not find "Kurta" |
| Navbar.Header.SetSearchQuery | src/app/components/Navbar.tsx:85-94 | the query is stored and the suggestions become those of the query |
| Navbar.Header.SelectResult | src/app/components/Navbar.tsx:209-212 | picking a suggestion clears the query and the list |
| Navbar.Header.MouseDown | src/app/components/Navbar.tsx:104-113 | a click outside clears the query and the list; any other click changes nothing |
| Navbar.Header.RotateAnnouncement | src/app/components/Navbar.tsx:46-51 | the index advances and stays within the announcements |
| StorePage.CartTotal | src/app/store/page.tsx:71-74 | the total is the sum of line subtotals; it is 0 for the empty cart, and non-negative when prices and quantities are |
| StorePage.Subtotal | src/app/store/page.tsx:61 | a line's amount is non-negative for non-negative price and quantity, and at least the price when both are positive |
| StorePage.ShowsEmptyMessage | src/app/store/page.tsx:17 | the empty message shows exactly for the empty cart |
| StorePage.SubtotalsNonNegative | src/app/store/page.tsx:61 | lines with non-negative price and quantity have non-negative subtotals in total |
| StorePage.TotalIgnoresOrder | src/app/store/page.tsx:71-74 | reordering the cart leaves the total unchanged |
| StorePage.TotalOfJoin | src/app/store/page.tsx:61-74 | the total of joined carts is the sum of their totals, so one more line adds exactly its subtotal |
| StorePage.TotalAtLeastCount | src/app/store/page.tsx:17-74 | with positive prices and quantities, the total is at least the number of lines, and the empty message shows exactly when the total is 0 |
| AccountPage.IsUserAdmin | src/app/account/page.tsx:23-32 | an address is admin exactly when its lower-cased form is listed; `undefined` and `""` are not |
| AccountPage.AdminIgnoresCase | src/app/account/page.tsx:31 | addresses that differ only in letter case get the same answer |
| AccountPage.HandleVerification | src/app/account/page.tsx:406-414 | the exact code clears the error and moves to the admin login; any other code sets the error message and empties the field |
| AccountPage.Step | src/app/account/page.tsx:527-869 | from the chooser only "user" or "admin" is reachable; the admin login is entered only from the admin screen by verifying the exact code; every back returns to the chooser; the admin login ignores all but back; the admin screen opens empty; the empty-state invariant is kept |
| AccountPage.VerifiedOnlyThroughCode | src/app/account/page.tsx:404-669 | any event sequence that reaches the admin login contains a verification of the exact code on the admin screen |
| AccountPage.RunKeepsValid | src/app/account/page.tsx:400-670 | along every run from the first render, the code field and error line are empty whenever the admin screen is not shown |
| AccountPage.CodeIsCaseSensitive | src/app/account/page.tsx:407 | "admin2024" is rejected with the error message and an emptied field; "ADMIN2024" followed by Enter is accepted |
| AccountPage.LoginTypeSelection.SelectUser | src/app/account/page.tsx:594 | the state steps by the "user" choice |
| AccountPage.LoginTypeSelection.SelectAdmin | src/app/account/page.tsx:625 | the state steps by the "admin" choice |
| AccountPage.LoginTypeSelection.GoBack | src/app/account/page.tsx:668-869 | the state steps by "back" |
| AccountPage.LoginTypeSelection.ChangeCode | src/app/account/page.tsx:473 | the state steps by typing into the code field |
| AccountPage.LoginTypeSelection.Verify | src/app/account/page.tsx:406-491 | the state steps by "Verify Admin Access" |
| AccountPage.LoginTypeSelection.PressKey | src/app/account/page.tsx:476 | the state steps by a key press; only Enter verifies |
| AccountPage.AdminFlag.UserEffect | src/app/account/page.tsx:886-893 | the flag is recomputed only for a loaded user with a non-empty e-mail, and otherwise keeps its value |

## Left out

- The cart container (`CartContext`) is not part of this model. The store page takes the cart as an input, and adding, removing and merging cart lines are not modelled.
- The product catalogs (`data/products`, `productsDetails`) are not part of this model. Each is an input sequence of records with the fields the code reads.
- The wishlist page and the products route page only render context state, and the `#product-` hash scrolling depends on `window.location`; neither is modelled.
- Timers are folded into single steps: the announcement interval, the carousel interval, and the 300 ms delay before the review page sets `isLoaded`.
- The typewriter placeholder of the search box only animates text and is not modelled.
- ReviewPage.ReviewsPage.DeleteReview: the 300 ms delay between a click on a review card's delete button and its `onDelete` call is not modelled (src/app/review/page.tsx:117-122). The timeout runs the `handleDeleteReview` of the render in which the card was clicked, and that function filters the `reviews` it captured then (src/app/review/page.tsx:278-284). So when two products are deleted less than 300 ms apart, the second callback filters the list from before the first deletion, and the first product's reviews come back in state and in the "reviews" key. The model's `DeleteReview` always filters the current state, so it does not show this lost update.
- Animation, styling, the scroll-based header fade, random layouts, and the hero and footer are not modelled; they have no stateable behaviour.
- The Clerk sign-in service is a foreign library. Whether the user is loaded and their primary e-mail are inputs to `AccountPage.AdminFlag.UserEffect`.
- JSON encoding is treated as an exact round trip. A parsed value that is not an array of records, for example `null` or an object, is not modelled.
- Exceptions from `setItem` are not modelled: a full or unavailable storage only logs an error in the wishlist container and is not represented.
- `toFixed(1)`, the `Math.round` percentages and the histogram bar widths are floating-point formatting. `ReviewPage.AverageRating` is the exact mean, before rounding.
- JsBuiltins.Number: handles digit strings and the empty string. Other numeric text, such as signs, decimals, exponents and surrounding whitespace, is treated as NaN. The model is exact for the price values the dropdown offers.
- JsBuiltins.Lower: folds only ASCII letters. Non-ASCII case mappings are not modelled.
- ReviewPage.SortReviews: proved sorted and a permutation. The stability of `Array.prototype.sort` (equal keys keep their order) is implemented by the insertion order but not proved.
- Prices, ratings, timestamps and quantities are unbounded integers. The IEEE-754 range and rounding of JavaScript numbers is not modelled.
- Two places where the implementation differs from the behaviour one might expect of it; the model follows the implementation:
  - The review container's records are keyed by `id`, not by a `productId` field.
  - The review page's load has no `try`/`catch`: unparseable stored text makes the effect throw. `ReviewPage.ReviewsPage.Load` returns `false` in that case and changes nothing. The exception then reaches React's error handling, and the error screen that replaces the page is not modelled.
