# Food-ordering front end: a verified model of its business logic

The system is a browser front end for ordering food: customers browse
restaurants, open a restaurant's menu, fill a cart, check out and follow
their orders. Most of the code is markup. This project models the logic
spread across the page components, in Dafny, and proves what that logic
promises:

- **The cart ledger** of the menu page (`Menu`): adding an item,
  setting a line's quantity (0 removes the line), the subtotal, the item
  count, the category list and the category filter. The cart is a class
  whose `lines` field the two update methods replace. The invariant is
  one line per item id, each with quantity at least 1.
- **The cart sidebar** (`CartSidebar`): the delivery fee with its 2.99
  fallback, the final total, the minus and plus buttons, and the checkout
  link.
- **The restaurant listing** (`Restaurants`): a case-insensitive text
  search, then an exact cuisine filter, then an in-place stable sort on
  rating, delivery time or delivery fee. Each sort key has its own default
  for missing values. The page is a class. As in the source, its sort
  reorders the loaded `restaurants` array itself when neither filter
  applies.
- **Orders** (`Orders`, `OrderCard`, `OrderTracking`): the status colour and
  icon maps, and the empty-state rule. An order card shows the order
  number, the status label, the total and the first-three-items preview.
  The tracking modal shows six steps, with reached steps and highlighted
  connectors computed from the status's position among them.
- **The profile** (`Profile`): total orders, total spent and the
  zero-guarded average, the recent-orders slice, the avatar initial and
  role badge, and the edit form that is spread over the user on save.
  The page is a class.
- **The home page** (`Home`): the featured selection (featured restaurants,
  at most six) and the search handler, which hands on only a non-blank
  query.

Money is integer cents (2.99 is `299`), and ratings are integer hundredths
of a star. A field that JavaScript may find missing is an `Option`;
`x || 0` is `GetOr(0)`. The fetched collections, the current user and the
outcome of each store call are parameters of the model.

`Array.prototype.sort` is stable (ECMAScript 2019 and later). It is
specified by `StableSort.Sort`, a functional insertion sort on a key. The
comparators of the listing are all `key(a) - key(b)`. The rating
comparator `(b.rating || 0) - (a.rating || 0)` is the ascending sort on the
negated rating.

Modules: `Wrappers` (Option), `Text` (the string built-ins used:
`trim`, `toLowerCase`, `includes`, `slice(-n)`, `split("-")[0]`,
`replace`, `charAt(0)`), `Seqs` (filter and slice), `StableSort`, and one
module per core source file.

The model follows the code in these respects:

- A status outside the step sequence, or any step after the current one,
  is simply "not reached". There is no done/current/pending distinction:
  the current step is drawn like every reached step.
- `addToCart` and `updateCartQuantity` accept any quantity, negative ones
  included. Nothing rejects them, so the ledger invariant is proved only
  for the quantities the page actually sends (at least 1 for adding, at
  least 0 for updating).
- A delivery time whose text before the first dash has no digits gives
  NaN. It does not fall back to 30. Only an empty prefix or a missing
  text becomes 30 (`Restaurants.WordyTimeIsNaN`, `Restaurants.DefaultMinutes`).

## Model

| member | source | states |
|---|---|---|
| Text.TrimStart | Pages/Restaurant.js:59 | the result is a suffix of the input that does not start with whitespace, and everything dropped is whitespace |
| Text.TrimEnd | Pages/Restaurant.js:59 | the result is a prefix of the input that does not end with whitespace, and everything dropped is whitespace |
| Text.Trim | Pages/Restaurant.js:59 | a non-empty trimmed text neither starts nor ends with whitespace |
| Text.TrimMiddle | Pages/Restaurant.js:59 | `trim()` is the slice of the input between a run of leading whitespace (what `trimStart` drops) and a run of trailing whitespace |
| Text.TrimEmptyIff | Pages/Restaurant.js:59 | `trim()` gives the empty (falsy) string exactly when every character is whitespace, in both directions |
| Text.LowerChar | Pages/Restaurant.js:61 | an upper-case ASCII letter becomes its own lower-case letter (code point plus 32); every other character is kept |
| Text.ToLower | Pages/Restaurant.js:61-63 | lower-casing keeps the length and lowers each character in place |
| Text.ToLowerIdempotent | Pages/Restaurant.js:61-63 | lower-casing an already lower-cased text changes nothing |
| Text.Contains | Pages/Restaurant.js:61-63 | `includes` always finds the empty text, and finds nothing longer than the text searched |
| Text.ContainsInContext | Pages/Restaurant.js:61-63 | a text is found inside any text that has it somewhere |
| Text.SliceLast | orders/OrderCard.js:24 | `slice(-n)` is a suffix of length min(n, length), and the input is what it cut off followed by it |
| Text.FirstIndexOf | Pages/Restaurant.js:81 | the position of the first occurrence of the character, or the length when there is none; no earlier position holds it |
| Text.ReplaceFirst | orders/OrderCard.js:30 | `replace` with a one-character pattern changes only the first occurrence, keeps the length and every other character |
| Text.ReplaceAll | orders/OrderCard.js:30 | every occurrence is replaced, the length and every other character are kept (used by the corrected label) |
| Text.CharAt0 | Pages/Profile.js:114 | `charAt(0)` is the first character, or the empty string for an empty text |
| Seqs.Filter | Pages/Menu.js:95 | `filter` keeps only elements that pass, never grows, and an element is in the output exactly when it is in the input and passes |
| Seqs.FilterMultiset | Pages/Restaurant.js:60-71 | each element occurs in the output as often as in the input when it passes, and not at all otherwise |
| Seqs.FilterConcat | Pages/Home.js:33 | filtering a concatenation filters each part and keeps their order |
| Seqs.FilterAllPass | Pages/Menu.js:74 | when every element passes, filtering returns the input unchanged |
| Seqs.FilterEquivalent | Pages/Restaurant.js:60-71 | two predicates that agree on every value filter alike |
| Seqs.FilterIdempotent | Pages/Restaurant.js:60-71 | filtering a filtered list again with the same predicate changes nothing |
| Seqs.FilterFilter | Pages/Restaurant.js:60-71 | two filters in a row equal one filter by their conjunction |
| Seqs.Take | Pages/Home.js:33 | `slice(0, n)` is a prefix of length min(n, length) |
| StableSort.SortedByPairs | Pages/Restaurant.js:75-91 | a list sorted step by step (each key at most the next) has every earlier key at most every later key |
| StableSort.InsertWithKey | Pages/Restaurant.js:75-91 | inserting into a sorted list appends the new element to the end of its own tie class and leaves every other tie class alone |
| StableSort.Insert | Pages/Restaurant.js:75-91 | inserting into a sorted list keeps it sorted, adds exactly that element, and grows the length by one |
| StableSort.Sort | Pages/Restaurant.js:75-91 | `sort` with a `key(a) - key(b)` comparator returns a permutation of its input that is sorted by the key |
| StableSort.SortStable | Pages/Restaurant.js:75-91 | elements with equal keys keep their relative input order: each tie class of the output equals that of the input |
| StableSort.SortOfSorted | Pages/Restaurant.js:75-91 | sorting an already sorted list returns it unchanged |
| StableSort.SortIdempotent | Pages/Restaurant.js:75-91 | sorting twice is sorting once |
| Menu.Bumped | Pages/Menu.js:62-66 | the line with the id gains `delta` in quantity; every line keeps its item and position, and the others keep their quantity |
| Menu.WithQuantity | Pages/Menu.js:76-80 | the line with the id gets quantity `q`; every other line is unchanged |
| Menu.Added | Pages/Menu.js:58-70 | adding an item already in the cart raises only that line's quantity and keeps the length; adding a new item appends exactly one line at the end |
| Menu.Updated | Pages/Menu.js:72-82 | quantity 0 removes the id's line and keeps the rest in order; any other quantity overwrites only that line's quantity; an absent id leaves the cart unchanged |
| Menu.LineTotal | Pages/Menu.js:85 | one line adds `price * quantity`: nothing for no units, the price for one unit, and never a negative amount for a non-negative price and quantity |
| Menu.CartTotal | Pages/Menu.js:84-86 | `getCartTotal` of the empty cart is 0, and a cart of one line totals that line's amount |
| Menu.ItemCount | Pages/Menu.js:88-90 | `getCartItemCount` of the empty cart is 0, and a cart of one line counts that line's quantity |
| Menu.TotalsNonNegative | Pages/Menu.js:84-90 | `getCartTotal` and `getCartItemCount` of the empty cart are 0, and with no negative price or quantity neither is ever negative |
| Menu.TotalsConcat | Pages/Menu.js:84-90 | subtotal and item count add up over a concatenation, so an empty cart totals 0 |
| Menu.TotalsPointUpdate | Pages/Menu.js:84-90 | changing one line's quantity moves the subtotal by price times the difference and the count by the difference |
| Menu.LineIndex | Pages/Menu.js:60 | `find` by id: the position of a line holding the id |
| Menu.AddedKeepsValid | Pages/Menu.js:58-70 | adding a positive quantity keeps one line per id and every quantity at least 1 |
| Menu.AddedTwice | Pages/Menu.js:60-66 | adding `a` then `b` of one item is adding `a + b` |
| Menu.AddTwoThenThree | Pages/Menu.js:58-86 | from an empty cart, 2 then 3 of an item is one line of 5 whose subtotal is five prices |
| Menu.AddedTotals | Pages/Menu.js:84-90 | adding raises the item count by the quantity and the subtotal by the quantity times the line's price |
| Menu.UpdatedTotals | Pages/Menu.js:72-90 | setting a line to `q` moves the item count and subtotal by the difference from its old quantity |
| Menu.RemovedTotals | Pages/Menu.js:74 | removing a line takes exactly its quantity and its price times quantity out of the totals |
| Menu.FilterWithoutOne | Pages/Menu.js:74 | in a cart with distinct ids, removing by id leaves the lines before and after that line, in order |
| Menu.UpdatedKeepsValid | Pages/Menu.js:72-82 | any non-negative quantity keeps one line per id and every quantity at least 1 |
| Menu.ItemCountAtLeastLines | Pages/Menu.js:88-90 | the item count is at least the number of lines, and equals it exactly when every line holds one |
| Menu.ItemCountExceedsLines | Pages/Menu.js:58-90 | adding one item twice gives one line holding 2, so the item count exceeds the number of lines |
| Menu.AddThenRemoveEmpties | Pages/Menu.js:58-86 | adding one of an item and then setting it to 0 leaves an empty cart with subtotal 0 |
| Menu.Cart.constructor | Pages/Menu.js:20 | the cart starts empty |
| Menu.Cart.AddToCart | Pages/Menu.js:58-70 | the new cart is the old one with the item added; the ledger invariant is kept and the item count grows by the quantity |
| Menu.Cart.UpdateCartQuantity | Pages/Menu.js:72-82 | the new cart is the old one with the quantity set (0 removes); the ledger invariant is kept for non-negative quantities |
| Menu.FilteredItems | Pages/Menu.js:93-95 | "all" shows the whole menu; any other category shows exactly its items, each as often as on the menu, in menu order |
| Menu.FilteredItemsConcat | Pages/Menu.js:93-95 | the category filter keeps menu order across any split of the menu |
| Menu.FirstAppearance | Pages/Menu.js:92 | the first position at which a category occurs, or the menu length |
| Menu.Categories | Pages/Menu.js:92 | the category list contains every item's category and nothing else, each exactly once |
| Menu.FirstAppearanceInInit | Pages/Menu.js:92 | a category seen before the last item first appears at the same place without that item |
| Menu.CategoriesInFirstAppearanceOrder | Pages/Menu.js:92 | categories are listed in the order in which they first appear on the menu |
| Restaurants.MatchesQuery | Pages/Restaurant.js:60-64 | the empty query matches every restaurant |
| Restaurants.ByQuery | Pages/Restaurant.js:59-65 | a blank query keeps the list as it is; otherwise a restaurant stays exactly when it was in the list and matches |
| Restaurants.ByCuisine | Pages/Restaurant.js:68-72 | "all" keeps the list as it is; otherwise a restaurant stays exactly when it was in the list and its cuisine is the selected one |
| Restaurants.Filtered | Pages/Restaurant.js:56-72 | with a blank query and "all" the list is kept; a restaurant is in the result exactly when it is in the list and passes both filters |
| Restaurants.FilteredIsFilter | Pages/Restaurant.js:56-72 | the query stage followed by the cuisine stage is one order-keeping filter by "passes both" |
| Restaurants.LeadingDigits | Pages/Restaurant.js:81-82 | the longest run of digits of the base at the start of the text: a prefix, all digits, and not followed by a digit |
| Restaurants.ParseInt | Pages/Restaurant.js:81-82 | after leading whitespace and one optional sign, a `0x`/`0X` prefix selects base 16 and base 10 applies otherwise; the result is NaN exactly when no digit of that base follows, and otherwise the sign times the value of the leading digits |
| Restaurants.ParseDecimal | Pages/Restaurant.js:81-82 | decimal digits followed by anything but a digit read as their decimal value |
| Restaurants.ParseHex | Pages/Restaurant.js:81-82 | `0x` or `0X`, hexadecimal digits, then anything but such a digit read as their hexadecimal value |
| Restaurants.HexWithoutDigits | Pages/Restaurant.js:81-82 | `0x` or `0X` with no hexadecimal digit after it is NaN |
| Restaurants.MinutesBeforeDash | Pages/Restaurant.js:81 | the minutes of a delivery time are `parseInt` of its text up to the first dash |
| Restaurants.DashAfter | Pages/Restaurant.js:81 | a dashless start followed by a dash gives the minutes of the start |
| Restaurants.DeliveryMinutes | Pages/Restaurant.js:81 | a missing delivery time and one starting with a dash read as 30; otherwise the minutes are `parseInt` of the text before the first dash, and they are never negative because that text cannot carry a minus sign |
| Restaurants.DecimalMinutes | Pages/Restaurant.js:81 | a dashless decimal number followed by a non-digit gives its value in minutes |
| Restaurants.DecimalRangeMinutes | Pages/Restaurant.js:81 | a range `<digits>-...` gives the value of its start |
| Restaurants.HexRangeMinutes | Pages/Restaurant.js:81-82 | a range `0x<hex digits>-...` gives the hexadecimal value of its start |
| Restaurants.HexMinutes | Pages/Restaurant.js:81-82 | "0x10-20" sorts as 16 minutes |
| Restaurants.HexWithoutDigitsIsNaN | Pages/Restaurant.js:81-82 | "0xg-5" is NaN |
| Restaurants.SortFieldOf | Pages/Restaurant.js:75-91 | the `switch` picks each of the three sort keys for exactly its name; any other value sorts nothing |
| Restaurants.Apply | Pages/Restaurant.js:55-94 | the shown list holds the filtered restaurants, each as often; an unknown sort name keeps the filtered order, and a known one sorts by its key |
| Restaurants.ApplyPermutation | Pages/Restaurant.js:56-93 | the output is a permutation of the input restricted to the restaurants passing both filters, and a restaurant is in it exactly when it is in the input and passes |
| Restaurants.ApplyFromInput | Pages/Restaurant.js:56-93 | every output restaurant comes from the input |
| Restaurants.BlankQueryIgnored | Pages/Restaurant.js:59 | an empty or whitespace-only query gives the same output as no query |
| Restaurants.QueryCaseIgnored | Pages/Restaurant.js:61-63 | the search ignores the case of the query: lower-casing the query first matches exactly the same restaurants |
| Restaurants.FilteredOutTimeIgnored | Pages/Restaurant.js:55-85 | a restaurant with the unparseable time "soon" that the query "pizza" drops never reaches the sort: the list with it is not sortable as a whole, yet sorting on delivery time shows just the "Pizza" restaurant |
| Restaurants.RangeStartMinutes | Pages/Restaurant.js:81 | "20-30" sorts as 20 |
| Restaurants.QueryNotTrimmed | Pages/Restaurant.js:59-63 | the query is lower-cased but not trimmed: " pizza" misses "Pizza" while "PIZ" finds it |
| Restaurants.RatingOrder | Pages/Restaurant.js:76-78 | sorting on rating gives non-increasing ratings, a missing rating counted as 0 |
| Restaurants.DeliveryTimeOrder | Pages/Restaurant.js:79-85 | when every restaurant that passes the filters has a parseable time, sorting on delivery time gives non-decreasing minutes before the first dash, every one of them a real number |
| Restaurants.DeliveryFeeOrder | Pages/Restaurant.js:86-88 | sorting on delivery fee gives non-decreasing fees, a missing fee counted as 0 |
| Restaurants.UnknownSortKeepsOrder | Pages/Restaurant.js:89-90 | any other sort name leaves the filtered list in input order |
| Restaurants.TiesKeepOrder | Pages/Restaurant.js:75-91 | restaurants with equal sort keys keep their input order |
| Restaurants.ApplyIdempotent | Pages/Restaurant.js:55-94 | the output is sortable and passes the filters unchanged, so filtering and sorting it again with the same settings returns it unchanged |
| Restaurants.DashedRangeMinutes | Pages/Restaurant.js:81 | "25-30 min" sorts as 25 minutes |
| Restaurants.UndashedMinutes | Pages/Restaurant.js:81 | a text without a dash sorts as its leading number: "45 min" is 45 |
| Restaurants.DefaultMinutes | Pages/Restaurant.js:81 | a missing text, an empty text and a text starting with a dash all sort as 30 |
| Restaurants.WordyTimeIsNaN | Pages/Restaurant.js:81 | a text with no leading number, such as "soon", is NaN and does not fall back to 30 |
| Restaurants.RatingScenario | Pages/Restaurant.js:76-78 | with no query and every cuisine, a 4.9 restaurant is listed before a 4.2 one |
| Restaurants.RestaurantsPage.constructor | Pages/Restaurant.js:16-20 | the page starts with no restaurants, an empty query, cuisine "all" and sort "rating" |
| Restaurants.RestaurantsPage.LoadRestaurants | Pages/Restaurant.js:44-53 | the loaded list becomes the page's restaurants and nothing else changes |
| Restaurants.RestaurantsPage.FilterRestaurants | Pages/Restaurant.js:55-94 | the shown list is the filtered and sorted input; the loaded list is reordered in place exactly when no filter applied and a sort ran, and it always keeps the same restaurants |
| Orders.StatusColor | Pages/Orders.js:38-57 | each of the seven statuses has its class; gray exactly for unknown or missing statuses, red only for cancelled, green exactly for ready and delivered |
| Orders.SharedColorsAreReadyAndDelivered | Pages/Orders.js:46-51 | two different known statuses share a colour only when they are ready and delivered |
| Orders.StatusIcon | Pages/Orders.js:59-78 | check mark exactly for confirmed, ready and delivered; clock exactly for pending and unknown; package, truck and cross each for exactly one status |
| Orders.GrayMeansFallbackClock | Pages/Orders.js:38-78 | a gray badge always carries the clock, and a clock on a badge that is not gray means "pending" |
| Orders.View | Pages/Orders.js:116-148 | the empty state shows exactly when there are no orders; otherwise one card per order, in order |
| OrderCard.FeeShown | orders/OrderCard.js:84 | the fee line is the fee, or 0 when it is missing |
| OrderCard.OrderTotal | orders/OrderCard.js:34 | the total exceeds the subtotal by exactly the shown fee (the same at line 88, orders/OrderTracking.js:164 and Pages/Profile.js:294) |
| OrderCard.LineTotal | orders/OrderCard.js:65 | no items cost nothing, one item costs its price, and non-negative inputs give a non-negative total |
| OrderCard.LineTotalStep | orders/OrderCard.js:65 | one more unit adds one price (also orders/OrderTracking.js:146) |
| OrderCard.OrderNumber | orders/OrderCard.js:24 | "N/A" for a missing or empty id; otherwise the last min(8, length) characters, so the id ends with it (also orders/OrderTracking.js:44) |
| OrderCard.OrderNumberExamples | orders/OrderCard.js:24 | a three-character id is shown whole and a ten-character one loses its first two characters |
| OrderCard.StatusLabel | orders/OrderCard.js:30 | no label for a missing status; otherwise the same length, with only the first underscore turned into a space (also orders/OrderTracking.js:64) |
| OrderCard.OutForDeliveryLabel | orders/OrderCard.js:30 | "out_for_delivery" is shown as "out for_delivery" |
| OrderCard.StatusLabelNoUnderscore | orders/OrderCard.js:30 | a status without underscores is shown as it is |
| OrderCard.IntendedStatusLabel | orders/OrderCard.js:30 | the corrected label has no underscore left and keeps every other character |
| OrderCard.IntendedOutForDeliveryLabel | orders/OrderCard.js:30 | the corrected label of "out_for_delivery" is "out for delivery" |
| OrderCard.LabelsDifferOnOutForDelivery | orders/OrderCard.js:30 | the label as written and the corrected one differ on "out_for_delivery" |
| OrderCard.LabelsAgreeOnOneUnderscore | orders/OrderCard.js:30 | on a status with at most one underscore the two labels agree |
| OrderCard.Preview | orders/OrderCard.js:60 | at most the first three items, in order; none when items are missing |
| OrderCard.MoreItems | orders/OrderCard.js:68-70 | the "+N more items" note appears exactly when there are more than three items, with N the rest |
| OrderCard.PreviewAccountsForAll | orders/OrderCard.js:60-70 | the listed items plus N is the item count, and the listed items followed by the rest are all the items |
| OrderTracking.FindStepIndex | orders/OrderTracking.js:19 | `findIndex` gives the first step whose key is the status, or -1 when no step's key is |
| OrderTracking.CurrentStepIndex | orders/OrderTracking.js:19 | the current step index lies between -1 and the last step |
| OrderTracking.StepKeys | orders/OrderTracking.js:10-17 | six steps whose keys are pending, confirmed, preparing, ready, out_for_delivery and delivered, all distinct |
| OrderTracking.IndexOfStepKey | orders/OrderTracking.js:19 | the index of a step's own key is that step's position |
| OrderTracking.IndexOfNonStep | orders/OrderTracking.js:19 | a status that is no step key gives -1 |
| OrderTracking.DrawStep | orders/OrderTracking.js:84-110 | a step is reached exactly when its index is at most the current one; an unreached step shows its position counted from 1; only the last step has no connector, and a highlighted connector follows a reached step |
| OrderTracking.Progress | orders/OrderTracking.js:84-110 | one view per step, in order; step i is reached exactly when i is at most the current index; a connector follows every step but the last and is highlighted exactly when i is below the current index |
| OrderTracking.ReachedIsPrefix | orders/OrderTracking.js:88 | a reached step has every earlier step reached |
| OrderTracking.PreparingReachesThree | orders/OrderTracking.js:88-94 | "preparing" reaches exactly the first three steps |
| OrderTracking.DeliveredReachesAll | orders/OrderTracking.js:84-107 | "delivered" reaches every step and highlights every connector |
| OrderTracking.OffTrackReachesNone | orders/OrderTracking.js:88-94 | cancelled, unknown and missing statuses reach no step |
| OrderTracking.HighlightedConnectorJoinsReached | orders/OrderTracking.js:104-107 | a highlighted connector lies between two reached steps |
| OrderTracking.MarkerShown | orders/OrderTracking.js:94-98 | a reached step shows the icon of its key, an unreached one its position counted from 1 |
| Profile.TotalSpent | Pages/Profile.js:255 | no orders spend 0, and orders whose totals are all non-negative never sum to a negative amount |
| Profile.TotalSpentAppend | Pages/Profile.js:255 | total spent adds up over a concatenation of order lists |
| Profile.TotalSpentSplits | Pages/Profile.js:255 | total spent is every subtotal plus every fee, a missing fee adding nothing |
| Profile.TotalSpentBounds | Pages/Profile.js:255 | when every order total lies in [lo, hi], total spent lies in [n·lo, n·hi] |
| Profile.AverageOrderValue | Pages/Profile.js:261 | 0 without dividing when there are no orders; otherwise the average times the count is total spent |
| Profile.AverageBetween | Pages/Profile.js:261 | the average lies between the smallest and the largest order total |
| Profile.Statistics | Pages/Profile.js:250-261 | total orders is the number of loaded orders; no orders give 0 spent and 0 average; otherwise the average times the count is the amount spent |
| Profile.RecentOrders | Pages/Profile.js:284-305 | at most the first three orders, in loaded order; empty, with "No orders yet" shown, exactly when there are no orders |
| Profile.AvatarInitial | Pages/Profile.js:114 | one character: the name's first when the name is non-empty, else the email's first when it is non-empty, else "U" |
| Profile.DisplayName | Pages/Profile.js:119 | the full name when the user has one with text, and "User" otherwise |
| Profile.OrNotProvided | Pages/Profile.js:144 | the field itself exactly when it has text, and "Not provided" otherwise (also line 152) |
| Profile.RoleBadge | Pages/Profile.js:123 | "Admin" exactly when the role is "admin", "Customer" otherwise |
| Profile.InitialForm | Pages/Profile.js:30-34 | every form field is filled; each of name, phone and address is copied when it has text and becomes "" when missing or empty |
| Profile.Merge | Pages/Profile.js:50 | a form field that is present replaces the user's field; every other field of the user is kept; a missing user keeps nothing but the form |
| Profile.MergeIdempotent | Pages/Profile.js:50 | saving the same form twice is saving it once |
| Profile.SaveUnedited | Pages/Profile.js:30-50 | saving the form as loaded only turns missing name, phone and address into ""; a user with all three is unchanged |
| Profile.WithField | Pages/Profile.js:183 | typing sets exactly the edited field of the form (also lines 194 and 204) |
| Profile.EditedFieldIsSaved | Pages/Profile.js:50 | whatever was typed into a field is what a later save writes into the user |
| Profile.ProfilePage.constructor | Pages/Profile.js:15-18 | no user, no orders, not editing, an empty form |
| Profile.ProfilePage.LoadUserData | Pages/Profile.js:26-44 | a failed user fetch changes nothing; otherwise the user and the initial form are set, and the orders are set when their fetch succeeded |
| Profile.ProfilePage.StartEditing | Pages/Profile.js:168 | editing starts and nothing else changes |
| Profile.ProfilePage.CancelEditing | Pages/Profile.js:219 | editing stops and what was typed stays in the form |
| Profile.ProfilePage.EditField | Pages/Profile.js:183 | one form field changes and nothing else |
| Profile.ProfilePage.HandleSave | Pages/Profile.js:46-57 | a successful save merges the form into the user and stops editing; a failed one changes nothing |
| CartSidebar.DeliveryFee | menu/CartSidebar.js:11 | the restaurant's fee when it is present and non-zero; 2.99 for a missing restaurant, a missing fee or a fee of 0; never 0 |
| CartSidebar.FreeDeliveryIsCharged | menu/CartSidebar.js:11 | a restaurant with fee 0 is charged 2.99 |
| CartSidebar.FinalTotal | menu/CartSidebar.js:12 | the final total exceeds the cart subtotal by exactly the delivery fee |
| CartSidebar.PricingScenario | menu/CartSidebar.js:11-12 | two 8.50 items and one 3.25 item give 20.25, and 23.24 with the 2.99 fee |
| CartSidebar.MinusRequest | menu/CartSidebar.js:81 | the minus button asks for one fewer of its own line |
| CartSidebar.PlusRequest | menu/CartSidebar.js:90 | the plus button asks for one more of its own line |
| CartSidebar.Rows | menu/CartSidebar.js:16-96 | nothing when closed; otherwise one row per cart line, in cart order, carrying that line's two requests |
| CartSidebar.RequestKeepsValid | Pages/Menu.js:72-82 | any request for a non-negative quantity keeps one line per id and every quantity at least 1 |
| CartSidebar.ButtonsKeepValid | menu/CartSidebar.js:81-90 | from a valid cart, either button keeps one line per id and no line at quantity 0 |
| CartSidebar.MinusOnOneRemoves | menu/CartSidebar.js:81 | minus on a line holding one removes it and keeps the other lines in order |
| CartSidebar.PlusMovesTotalsByOne | menu/CartSidebar.js:90 | plus raises the item count by one and the subtotal by one unit price |
| CartSidebar.MinusMovesTotalsByOne | menu/CartSidebar.js:81 | minus lowers the item count by one and the subtotal by one unit price |
| CartSidebar.CheckoutQuery | menu/CartSidebar.js:122 | the link suffix starts with "?restaurant=" and is as long as its four parts |
| CartSidebar.CheckoutQueryRoundTrip | menu/CartSidebar.js:122 | splitting the link at the first "&" after "?restaurant=" gives back an id without "&", followed by "&total=" and the total's text |
| CartSidebar.AmpersandInIdTruncates | menu/CartSidebar.js:122 | an id holding "&" does not survive that split: "a&b" comes back as "a" |
| Home.Featured | Pages/Home.js:33 | the first min(6, #featured) featured restaurants in loaded order, each featured and from the input |
| Home.FewFeaturedAllShown | Pages/Home.js:33 | with at most six featured restaurants all of them are shown |
| Home.FeaturedStableUnderAppend | Pages/Home.js:33 | once six are featured, restaurants loaded after them do not change the selection |
| Home.SearchTarget | Pages/Home.js:43 | a query is handed on exactly when it has a non-whitespace character, and it is handed on untrimmed |
| Home.TargetIsFilteredOn | Pages/Home.js:45 | on the listing, every restaurant shown for the handed-on query matches it |
| Home.HomePage.constructor | Pages/Home.js:20-23 | no restaurants, no featured ones, an empty query |
| Home.HomePage.LoadRestaurants | Pages/Home.js:29-39 | a successful load sets the restaurants and their featured selection; a failed one changes nothing |
| Home.HomePage.HandleSearch | Pages/Home.js:41-47 | the query is always recorded, and the navigation target is the query exactly when it is not blank |

## Left out

- The entity-store calls (`User.me`, `Order.filter`, `Restaurant.list`, `MenuItem.filter`, `updateMyUserData`, `logout`) are outside the model. They are asynchronous calls into code outside the repository. Their results, or their failure (`None`), are parameters.
- The Menu page's `loadRestaurantData` is not modelled. It finds the restaurant by id and redirects when it is missing, which is store and routing plumbing.
- Browser and routing plumbing (`URLSearchParams`, `window.location`, `navigate`, `createPageUrl`, `encodeURIComponent`) is not modelled. The listing's URL parameters appear only as the page fields they set.
- Date formatting (`format` from date-fns) and money display (`toFixed(2)`) are not modelled. Amounts are integer cents, not formatted text.
- CartSidebar.CheckoutQuery: the rendering of `finalTotal` by JavaScript's number-to-string conversion is a parameter (`totalText`), because amounts are cents rather than floating point.
- Characters outside the Basic Multilingual Plane count as one character here and as two UTF-16 code units in JavaScript. `charAt(0)` (Profile.AvatarInitial), `slice(-8)` (OrderCard.OrderNumber) and lengths therefore differ from the source for such text.
- Restaurants.ParseInt: digit values are exact integers here. JavaScript numbers lose precision beyond 2^53, so a very long digit string reads differently in the source.
- CartSidebar.RestaurantParam: the link is built without `encodeURIComponent`, and the model reads it back by plain splitting at `&`. A real query-string reader would also turn `+` into a space, decode `%xx` escapes and stop at `#`; that decoding is not modelled.
- Text.ToLower: only the ASCII letters are lowered. The Unicode case mapping of `toLowerCase` is not modelled.
- Restaurants.Apply: when sorting on "delivery_time", every delivery time that reaches the sort (one of a restaurant that passes both filters) must parse to a number. A NaN comparator result makes the comparator inconsistent, and the order is then implementation-defined (the `Array.prototype.sort` section of ECMA-262), so the model does not cover it. Times of restaurants the filters drop may be anything (`Restaurants.FilteredOutTimeIgnored`).
- Profile.ProfilePage.HandleSave: the `isSaving` flag is not modelled, nor is `isLoading`. `isSaving` disables Save and Cancel while `updateMyUserData` is in flight, so a second save cannot overlap the first; the model treats each save as one atomic step and does not state that no save overlaps another.
- Restaurants.RestaurantsPage.FilterRestaurants: each state setter is modelled as taking effect at once. React's re-render scheduling and the effect that re-runs the filter are not modelled, and the loading flags are left out for the same reason.
- Floating-point money is modelled as integers. Sums of floats such as 8.50 + 3.25 are exact here, while in the source they may carry rounding error before `toFixed(2)`.
- The delivery fee shown on a restaurant card (2.99 default) and its rating (4.5 default) are display defaults in restaurants/Reataurantcard.js. They differ from the sort defaults (0 and 0), but the presentation files are not part of this model.
- The presentation-only files (layout.js, HeroSection.js, FeaturedRestaurants.js, home/WhyChooseUs.js, CusineCategories.js, Stats.js, home/SearchBar.js, menu/MenuItemCard.js, restaurants/Reataurantcard.js, restaurants/RestaurantFilter.js, menu/Menucategory.js) are not modelled: they are markup and animation.
- The orders page's selected-order state is not modelled. It only opens and closes the tracking modal.
- Profile.Statistics: the profile fetches at most 5 orders (`Order.filter(..., 5)`). "Total Orders", "Total Spent" and the average are therefore over those 5 at most, and the model states them over whatever list was loaded.

## Findings

| source | as written | input that shows it | evidently intended | confidence | as-written member | corrected member |
|---|---|---|---|---|---|---|
| orders/OrderCard.js:30 | `order.status?.replace("_", " ")` replaces only the first underscore (also orders/OrderTracking.js:64 and Pages/Profile.js:296) | status "out_for_delivery" is shown as "out for_delivery" | every underscore becomes a space: "out for delivery" | high; not executed | OrderCard.StatusLabel (shown by OrderCard.OutForDeliveryLabel and OrderCard.LabelsDifferOnOutForDelivery) | OrderCard.IntendedStatusLabel (proved by OrderCard.IntendedOutForDeliveryLabel and OrderCard.LabelsAgreeOnOneUnderscore) |
