# arthall shop core in Dafny

This project models the shopping core of the arthall Django shop:
- the catalogue: prices, products, colour and size variations, the store listing, the product page and the keyword search;
- the cart: adding a product through the form or from a link, taking a unit off a line, and the cart and checkout pages with their totals;
- the `cart_count` context processor;
- placing an order, including its `YYYYMMDD` + key order number;
- the account records, with the manager that creates users and superusers and the registration form's password check.

The database is `Db.Database`, a class with one field per table:
- `products` is a map keyed by product key;
- `variations`, `carts`, `items` and `orders` are sequences in insertion order;
- there is one next-key counter per table that gets new rows.

Each view that writes is a method on that object, proved equal to a function on a value snapshot (`Db.Tables`). Examples are `CartViews.AddCartPost` against `CartViews.AddPost`, and `OrderViews.PlaceOrder` against `OrderViews.Place`. The properties the code promises are lemmas about those functions. `Db.WellFormed` holds what the schema and the code's own writes keep true:
- keys are unique;
- lines name existing products;
- session tokens are unique;
- every order carries the number built from its own key.

Every writing view keeps it (the `...Preserves` lemmas).

Behaviour of the code a reader might not expect:
- **Stock.** Stock is not taken on the first add of a product, nor when an add merges into an existing line (`cart/views.py:85-86`, `96-103`, `153-159`). It is taken when a further variant line is opened and on a re-add from a link. So a shopper who adds the same selection twice holds two units while the stock has not moved (`CartViews.AddPostTwice`).
- **Variation lookup.** Activity is not consulted, and a pair that matches several variations is silently dropped, just like one that matches none.
- **Repeated selection.** When two form keys select the same variation, the line stores it once: a many-to-many `add` ignores duplicates. The stored list then never equals the posted list, so every later identical add opens another line (`CartViews.AddPostRepeatedSelectionNeverMerges`).
- **Order lines.** Placing an order bills all of the account's lines, inactive ones included, unlike the checkout page. It leaves the cart as it was.
- **Search.** Search ignores availability. An empty or missing keyword produces no response at all.
- **Cart counter.** The counter counts inactive lines too.

## Model

| member | source | states |
|---|---|---|
| StoreModels.PriceLabel | store/models.py:45-48 | the string form of a price reads back as its integer amount, and is all digits for a non-negative amount |
| StoreModels.NewProduct | store/models.py:51-64 | a product created without an explicit flag is available; every given field is kept |
| StoreModels.ProductLabel | store/models.py:70-71 | a product's string form is its name |
| StoreModels.VariationCategories | store/models.py:84-87 | the declared variation categories are exactly `color` and `size` |
| StoreModels.NewVariation | store/models.py:90-95 | a variation created without an explicit flag is active |
| StoreModels.VariationLabel | store/models.py:100-101 | a variation's string form is its value |
| StoreModels.Colors | store/models.py:77-78 | `colors()` keeps exactly the active variations of category `color`, each as often as in the table |
| StoreModels.Sizes | store/models.py:80-81 | `sizes()` keeps exactly the active variations of category `size`, each as often as in the table |
| StoreModels.ColorsAndSizesPartition | store/models.py:77-87 | together, `colors()` and `sizes()` return every active variation of a declared category exactly once |
| CartModels.CartLabel | cart/models.py:20-30 | a cart's string form is its session token |
| CartModels.NewCartItem | cart/models.py:46-51 | a new line is active and has no variations attached; owner columns and quantity are as given, and nothing forces exactly one owner |
| CartModels.SubTotal | cart/models.py:53-60 | a line's sub-total is unit price times quantity: 0 at quantity 0, the price at quantity 1, non-negative for non-negative inputs |
| CartModels.CartItemLabel | cart/models.py:62-69 | a line's string form is its product's name |
| Db.CartIndex | cart/views.py:62-68 | finds the cart carrying the session token, or reports that none does |
| Db.WithCart | cart/views.py:119-125 | after `get` falling back to `create`, a cart with the token exists; a new one takes the next key; no other table changes |
| Db.WithCartPreserves | cart/views.py:119-125 | creating the session cart keeps the tables well formed |
| Db.SessionCart | cart/views.py:120 | the session cart's key is one already handed out |
| Db.LinesOf | cart/views.py:70-72 | the product's lines of an owner are exactly the lines with that product and owner |
| Db.NewLine | cart/views.py:88-95 | a created line has the next key, quantity 1, the owner column set, the given variations, and is active |
| Db.AppendLine | cart/views.py:98-103 | the created line is added after every existing one under the next line key, which then moves on by one; `AppendLinePreserves` and `AppendCount` state what that keeps and changes |
| Db.AppendLinePreserves | cart/views.py:96-103 | appending a line for an existing product keeps the tables well formed |
| Db.UpdateQuantity | cart/views.py:84-86 | exactly the line with the key changes quantity by the given amount; every other line is unchanged |
| Db.UpdateQuantityAt | cart/views.py:141-143 | with unique keys, the update is the update of that one position |
| Db.UpdateQuantitySound | cart/views.py:224-226 | moving quantities keeps lines sound |
| Db.RemoveLine | cart/views.py:227-228 | `delete()` keeps exactly the lines with another key |
| Db.RemoveLineAt | cart/views.py:227-228 | with unique keys, deleting removes exactly the line at its position |
| Db.RemoveLineSound | cart/views.py:227-228 | deleting a line keeps lines sound |
| Db.FilterKeysUnique | cart/views.py:227-228 | removing lines from a table with unique keys leaves the keys unique |
| Db.RemoveLinePreserves | cart/views.py:227-228 | deleting a line keeps the tables well formed |
| Db.UpdateQuantityPreserves | cart/views.py:224-226 | moving a line's quantity keeps the tables well formed |
| Db.DecrementStock | cart/views.py:93-94 | the product's stock drops by one; other products and fields are unchanged |
| Db.DecrementStockSound | cart/views.py:150-151 | taking stock keeps the catalogue keyed by product key |
| Db.OrderNumbersDistinct | orders/views.py:83-93 | in well-formed tables, no two orders share an order number |
| Db.LinesArePriced | cart/models.py:47 | every line the views read names an existing product |
| CartViews.Candidates | cart/views.py:56-57 | the candidates of a posted pair are exactly the variations of the product whose category and value equal the pair case-insensitively, active or not |
| CartViews.Resolve | cart/views.py:50-60 | the posted pairs in posting order, each contributing the variation its `get` finds when exactly one matches and nothing otherwise; stated by `ResolveSelectsVariations`, `ResolveSingle` and `ResolveAppend`, and computed by the loop `ResolveVariations` |
| CartViews.ResolveSelectsVariations | cart/views.py:51-60 | the selection has at most one entry per posted pair, each naming a variation of the product |
| CartViews.ResolveSingle | cart/views.py:55-60 | one pair selects its variation exactly when it has a single candidate; otherwise it selects nothing |
| CartViews.ResolveAppend | cart/views.py:51-58 | pairs resolve independently, and the selection follows posting order |
| CartViews.SkippedPair | cart/views.py:59-60 | a pair with no candidate, or several, leaves the selection unchanged and raises no error |
| CartViews.ResolveVariations | cart/views.py:107-117 | the loop over the posted pairs computes the selection |
| CartViews.AttachVariations | cart/views.py:146-148 | the `add` loop attaches the selection without duplicates, in first-occurrence order |
| CartViews.VariationLists | cart/views.py:131-136 | `ex_var_list` holds each line's attached list, in line order |
| CartViews.ExistingLines | cart/views.py:131-136 | the loop builds `ex_var_list` and `id` position by position from the lines |
| CartViews.OwnerForKnown | cart/views.py:49-70 | the owner the view files lines under (the account when logged in, the session cart otherwise) never points past the cart keys issued so far: a cart owner's key is below the next cart key |
| CartViews.OwnerFor | cart/views.py:252-258 | the lines a view works on are the account's when logged in and the session cart's otherwise |
| CartViews.FirstMatchingLine | cart/views.py:81-83 | `ex_var_list.index(...)` picks the first line, in table order, whose list equals the selection |
| CartViews.NoMatchingLine | cart/views.py:81 | when no line's list equals the selection, the membership test fails |
| CartViews.NoLines | cart/views.py:70-71 | no qualifying line means the `exists()` test fails |
| CartViews.AddSelection | cart/views.py:70-103 | adding a selection keeps carts, variations, orders and the product key set |
| CartViews.SelectionPreserves | cart/views.py:70-103 | adding a selection keeps the tables well formed |
| CartViews.AddPost | cart/views.py:32-160 | unknown product gives 404 and no change; otherwise a redirect to the cart, and the session cart exists afterwards |
| CartViews.AddPostPreserves | cart/views.py:32-160 | `AddCart.post` keeps the tables well formed |
| CartViews.GetOrCreateCart | cart/views.py:119-125 | the method's cart lookup-or-create equals `WithCart` and returns the session cart's key |
| CartViews.CreateLine | cart/views.py:145-148 | the method appends the new line with the deduplicated variations, as `AppendLine` |
| CartViews.AddCartPost | cart/views.py:32-160 | the method's new tables and response equal `AddPost`, and well-formedness is kept |
| CartViews.AddSelectionTo | cart/views.py:127-159 | the method's new tables equal `AddSelection` |
| CartViews.SelectionFirstLine | cart/views.py:153-159 | with no line of the product, a line is appended and nothing else changes |
| CartViews.SelectionMerges | cart/views.py:138-143 | a line carrying the selection: the first such line gains one unit and nothing else changes |
| CartViews.SelectionNewVariant | cart/views.py:144-152 | lines exist but none carries the selection: a line is appended and the stock drops by one |
| CartViews.SelectionHasLine | cart/views.py:127-159 | after any add, the owner has a line of the product |
| CartViews.AddPostFirstLine | cart/views.py:96-103 | the first add creates one line of one unit with the selection, and stock is unchanged |
| CartViews.AddPostMerges | cart/views.py:81-86 | an add matching a line's list adds one unit to the first such line; no line is created and stock is unchanged |
| CartViews.AddPostNewVariant | cart/views.py:87-95 | an add with a new list appends a quantity-1 line and takes exactly one unit of this product's stock |
| CartViews.AddPostKeepsCart | cart/views.py:62-68 | after an add the session cart exists, so a second add finds the same cart, owner and selection |
| CartViews.SelectionTwice | cart/views.py:81-103 | adding the same duplicate-free selection twice gives one line of two units |
| CartViews.AddPostTwice | cart/views.py:81-103 | adding the same selection twice from nothing leaves one line of quantity 2 and the stock unchanged |
| CartViews.AddPostRepeatedSelectionNeverMerges | cart/views.py:81-95 | a selection naming a variation twice never merges: the second add opens another line and takes one unit of stock |
| CartViews.AddToCart | cart/views.py:185-193 | no line in the cart gives a new line; one line gains a unit and the stock drops by one; several give MultipleObjectsReturned |
| CartViews.AddGet | cart/views.py:163-194 | unknown product gives 404 and no change; the cart exists afterwards, and the view works on the session cart whatever the login state |
| CartViews.AddGetPreserves | cart/views.py:163-194 | `AddCart.get` keeps the tables well formed |
| CartViews.AddCartGet | cart/views.py:163-194 | the method equals `AddGet` and keeps well-formedness |
| CartViews.AddToCartIn | cart/views.py:185-193 | the method after the cart lookup equals `AddToCart` |
| CartViews.AddGetIncrements | cart/views.py:186-190 | with exactly one line of the product in the cart: that line gains one unit and the stock drops by one |
| CartViews.AddGetCreates | cart/views.py:191-193 | with no line of the product in the cart: one quantity-1 line, stock unchanged |
| CartViews.AddGetAmbiguous | cart/views.py:185-191 | two lines of the product in the cart give a server error and leave lines and stock unchanged |
| CartViews.DeleteLine | cart/views.py:202-231 | unknown product gives 404; an anonymous visitor with no cart gets Cart.DoesNotExist; products and carts never change |
| CartViews.DeleteLinePreserves | cart/views.py:202-231 | `DeleteItem.get` keeps the tables well formed |
| CartViews.DeleteItem | cart/views.py:202-231 | the method equals `DeleteLine` and keeps well-formedness |
| CartViews.DeleteDecrements | cart/views.py:224-226 | a shopper's line of several units loses exactly one, and nothing else changes |
| CartViews.DeleteRemoves | cart/views.py:227-228 | a shopper's line of at most one unit is removed, and nothing else changes |
| CartViews.DeleteForeignLine | cart/views.py:229-230 | a key that is not one of the shopper's lines of that product is a no-op redirect |
| CartViews.LinesTotalAppend | cart/views.py:259-260 | the total of two runs of lines is the sum of their totals |
| CartViews.LinesTotal | cart/views.py:259-260 | the running `total += price * quantity` over the lines in order; additive by `LinesTotalAppend` |
| CartViews.LastQuantity | cart/views.py:259-261 | the `quantity` the loop leaves behind: the last line's, or 0 without lines; `ComputeTotals` proves the loop computes it |
| CartViews.TotalsOf | cart/views.py:259-263 | 100·tax = 2·total; grand total = 1.02·total; no lines gives all zeros |
| CartViews.ComputeTotals | cart/views.py:310-314 | the loop computes `TotalsOf`; the quantity shown is the last line's, not a sum |
| CartViews.TotalsAddLine | cart/views.py:259-261 | one more line raises the total by its sub-total and sets the shown quantity to its quantity |
| CartViews.ActiveLines | cart/views.py:254-258 | exactly the owner's active lines |
| CartViews.CartPage | cart/views.py:249-272 | 404 exactly for an anonymous visitor with no cart; otherwise the lines are exactly the owner's active lines by membership, all priced, and the totals are theirs; `CartPageLines` fixes their order and multiplicity |
| CartViews.CartPageLines | cart/views.py:254-261 | the page lists each of the owner's active lines once, in the order of the line table, so the total and the shown quantity are determined |
| CartViews.ShowCart | cart/views.py:234-274 | the `cart` view returns `CartPage` |
| CartViews.Checkout | cart/views.py:277-325 | anonymous gets the login redirect; otherwise the same page as the cart view |
| CartViews.CartPageIgnoresSession | cart/views.py:252-255 | a logged-in shopper's page is the same from every session |
| CartCounter.CartCount | cart/context_processors.py:15-31 | an anonymous visitor without a cart counts 0 |
| CartCounter.Counter | cart/context_processors.py:5-32 | a path containing `admin` gives an empty map; otherwise exactly `cart_count`, summed by the loop over all owned lines, inactive included |
| CartCounter.QuantitySumAppend | cart/context_processors.py:28-29 | the sum over two runs of lines adds up |
| CartCounter.QuantitySum | cart/context_processors.py:28-29 | `cart_count += cart_item.quantity` over the lines; additive by `QuantitySumAppend` |
| CartCounter.OwnedQuantity | cart/context_processors.py:23-29 | the units in all lines of one owner, inactive included; split and joined by `OwnedQuantityCons` and `OwnedQuantityAppend` |
| CartCounter.OwnedQuantityCons | cart/context_processors.py:24-29 | an owner's count splits into the first line and the rest |
| CartCounter.OwnedQuantityAppend | cart/context_processors.py:24-29 | an owner's count over two runs of lines adds up |
| CartCounter.BumpCount | cart/context_processors.py:28-29 | moving one owned line's quantity by d moves the owner's count by d |
| CartCounter.UpdateCount | cart/views.py:84-86 | with unique keys, updating an owned line by d moves the count by d |
| CartCounter.RemoveCount | cart/views.py:227-228 | deleting an owned line takes its quantity off the count |
| CartCounter.AppendCount | cart/views.py:96-103 | a new line raises its owner's count by one |
| CartCounter.SelectionCount | cart/views.py:70-103 | every branch of an add raises the owner's count by exactly one |
| CartCounter.NewCartIsEmpty | cart/views.py:122-124 | a freshly created cart owns no lines |
| CartCounter.AddPostCount | cart/views.py:32-160 | adding through the form gives the shopper's lines exactly one more unit |
| CartCounter.CountAfterAddPost | cart/views.py:32-160 | after adding through the form, `cart_count` is one more than before, with or without an earlier cart |
| CartCounter.CountAfterDelete | cart/views.py:224-228 | after a delete, `cart_count` falls by 1 for a line of several units and by the line's quantity otherwise |
| CartCounter.CountAfterDecrement | cart/views.py:224-226 | taking one unit off a line of several lowers `cart_count` by exactly one |
| CartCounter.CountAfterRemoval | cart/views.py:227-228 | deleting a line of one unit lowers `cart_count` by that line's quantity |
| OrderModels.StatusValue | orders/models.py:40-45 | each status is stored as its own name |
| OrderModels.StatusOfValue | orders/models.py:40-45 | only the four declared values name a status |
| OrderModels.StatusValues | orders/models.py:40-45 | statuses and stored values correspond one to one |
| OrderModels.NewOrder | orders/models.py:60-62 | a created order has status New, `is_ordered` set, a blank number and the given fields |
| OrderModels.FullName | orders/models.py:75-82 | first name, one space, last name |
| OrderModels.FullAddress | orders/models.py:84-91 | address line 1, one space, address line 2 |
| OrderModels.FullAddressBlankSecondLine | orders/models.py:53 | with a blank second line the address still ends in the space |
| OrderModels.OrderLabel | orders/models.py:66-73 | the owning account's first name and phone number joined by `-` |
| OrderModels.OrderLabelIgnoresCustomer | orders/models.py:73 | the order's own customer fields do not affect its string form |
| OrderNumbers.DateString | orders/views.py:83-87 | `%Y%m%d` gives eight digits |
| OrderNumbers.ParseDateString | orders/views.py:83-87 | year, month and day read back from their digit fields |
| OrderNumbers.OrderNumber | orders/views.py:87-88 | the number is the eight date digits followed by the decimal key; length 8 + digits of the key; all digits |
| OrderNumbers.OrderNumberShape | orders/views.py:88 | every order number has the shape of its key's number |
| OrderNumbers.OrderNumberInjective | orders/views.py:83-88 | distinct (date, key) pairs give distinct numbers |
| OrderNumbers.NumberedByDistinct | orders/views.py:88 | orders with different keys never share a number, whatever their dates |
| OrderNumbers.OrderNumberFitsColumn | orders/models.py:47 | the number fits the 20-character column while the key has at most 12 digits |
| OrderNumbers.OrderNumberExample | orders/views.py:83-88 | on 1 May 2024, keys 7 and 8 give `202405017` and `202405018` |
| OrderNumbers.DateStringExample | orders/views.py:87 | 1 May 2024 renders as `20240501` |
| OrderNumbers.YearExample | orders/views.py:87 | the year 2024 renders as `2024` |
| OrderNumbers.MonthDayExample | orders/views.py:87 | month and day are zero-padded to two digits |
| OrderViews.RequiredFieldsListed | orders/views.py:71-72 | the tested set holds ten names, so the redirect back to checkout is unreachable |
| OrderViews.UserLines | orders/views.py:35 | exactly the account's lines, active or not |
| OrderViews.Place | orders/views.py:19-105 | the lines, products, carts and variations are untouched; without a payment page nothing changes; with one, exactly the new order is appended under the next key |
| OrderViews.PlacedOrderIsFound | orders/views.py:93 | the closing `get` matches exactly the new order |
| OrderViews.PlacedOrder | orders/views.py:74-90 | the order row after its second save: the posted fields, the grand total and tax, and the number made of the day and its own key; `PlaceRecordsOrder` states the fields |
| OrderViews.PlacePreserves | orders/views.py:74-90 | placing an order keeps the tables well formed |
| OrderViews.PlaceOrder | orders/views.py:19-105 | the two-save method equals `Place` and keeps well-formedness |
| OrderViews.SaveOrder | orders/views.py:80-93 | the saved row, and the one the `get` returns, is the new order under the next key with the day's number; it is appended to the order table and the next key moves up by one |
| OrderViews.PlaceWithoutLines | orders/views.py:38-42 | an account without any line is sent to the store and nothing is written |
| OrderViews.PlaceRecordsOrder | orders/views.py:35-105 | with a line: the page shows the account's lines and their totals; the order has the next key, the day's number, status New, `is_ordered`, the posted customer fields and ip, order total = grand total and tax with 100·tax = 2·total |
| OrderViews.PlaceMatchesCheckout | orders/views.py:49-55 | when every line is active, the order's lines and figures are the checkout page's |
| OrderViews.PlaceBillsInactiveLines | orders/views.py:35 | an inactive line is billed by the order but not listed on the checkout page |
| OrderViews.PlaceTwice | orders/views.py:35-105 | the cart is not emptied: posting again places a second order of the same total under a different number, and `cart_count` is unchanged |
| StoreViews.InsertById | store/views.py:57 | inserting into an ascending run keeps it ascending; the result holds the new row and the old ones and nothing else |
| StoreViews.InsertByIdCount | store/views.py:57 | inserting adds exactly one copy of the row and loses none |
| StoreViews.SortById | store/views.py:57 | `order_by('id')`: ascending keys, same rows |
| StoreViews.ReversedDescending | store/views.py:125 | `order_by('-id')`: descending keys, same rows |
| StoreViews.ListingRows | store/views.py:57-67 | kept rows are exactly the available ones, in the category when one is named, priced within the bounds (inclusive) only when both bounds are given |
| StoreViews.StoreListing | store/views.py:45-75 | 404 exactly when a non-empty slug names no category; without a slug, the available in-range rows of the table as a multiset; with one, those of a category carrying the slug; the count is the size of the whole filtered listing; ascending keys |
| StoreViews.StoreListingDefault | store/views.py:57-67 | without a category, each available product priced within both bounds appears as often as in the table, and no unavailable or out-of-range product appears |
| StoreViews.StoreListingContents | store/views.py:62-67 | with unique slugs, a category's listing holds exactly its available, in-range products, as often as in the table |
| StoreViews.OneBoundIgnored | store/views.py:66-67 | a single price bound does not filter |
| StoreViews.WholeCatalogue | store/views.py:57-72 | with no slug and no bounds over an all-available table, the listing is the whole table and the count its size |
| StoreViews.ProductDetail | store/views.py:83-103 | 404 when no category has the slug; a page shows the named category, a product of it with that slug, and `in_cart` |
| StoreViews.ProductDetailShown | store/views.py:95-98 | with category slugs and product slugs unique, the page for a category's slug and the slug of one of its products shows exactly that category, that product and whether the session's cart holds it |
| StoreViews.ProductDetailMissing | store/views.py:96-97 | with category slugs unique, a category that holds no product with the slug gives 404 |
| StoreViews.InCartIgnoresUserLines | store/views.py:98 | a line kept under an account never changes `in_cart` |
| StoreViews.AddPostMarksInCart | store/views.py:98 | after an anonymous visitor adds a product through the form, its page shows it as in the cart |
| StoreViews.InCart | store/views.py:98 | `in_cart`: some line of the product points at a cart carrying the session token |
| StoreViews.Search | store/views.py:111-133 | no response for a missing or empty keyword; otherwise exactly the products whose name, artist or any variation value contains the keyword case-insensitively, availability ignored, descending keys, count = size |
| StoreViews.SearchIgnoresCase | store/views.py:123-124 | the result is the same for a keyword and its lower-cased form |
| StoreViews.SearchFindsByName | store/views.py:123 | a product is found by its own name, available or not |
| StoreViews.MatchesKeyword | store/views.py:123-124 | the three `Q` lookups joined by "or": name, artist or some variation value of the product contains the keyword, ignoring case |
| StoreViews.FilterUniqueIds | store/views.py:123-125 | filtering a table with unique keys keeps keys unique |
| StoreViews.InsertByIdUnique | store/views.py:125 | inserting a product with a new key into an ascending run keeps keys unique |
| StoreViews.SortByIdUnique | store/views.py:125 | sorting by key keeps keys unique |
| StoreViews.ReversedStrictlyDescending | store/views.py:125 | `-id` order over unique keys is strictly descending |
| StoreViews.SearchDistinct | store/views.py:122-125 | `.distinct()`: over a table with unique keys the result lists each product once, keys strictly descending, so the count is the number of distinct matches |
| AccountModels.RoleCode | account/models.py:15-17 | role codes lie in 1..3 |
| AccountModels.RoleOfCode | account/models.py:15-17 | only codes 1..3 name a role |
| AccountModels.RoleCodes | account/models.py:15-17 | SUPER_USER=1, ADMIN=2, USER=3, one to one |
| AccountModels.NormalizeEmailEmpty | account/models.py:49 | normalising yields the empty string exactly for the empty address |
| AccountModels.NormalFormFixed | account/models.py:49 | an address whose domain is already lower case, free of `@`, and not padded with white space is left unchanged |
| AccountModels.NormalizeEmailIdempotent | account/models.py:73 | normalising twice equals once, so a superuser's address is stored as `create_user` would store it |
| AccountModels.NormalizeEmail | account/models.py:49 | `normalize_email`: the stripped address with the part after its last `@` lower-cased, or the address unchanged without `@`; stated by `NormalizeEmailEmpty`, `NormalFormFixed` and `NormalizeEmailIdempotent` |
| AccountModels.Account.constructor | account/models.py:111-122 | a new account has role USER, is active, and is neither admin, staff nor superadmin |
| AccountModels.Account.HasPerm | account/models.py:138-149 | every permission is granted exactly when `is_admin` |
| AccountModels.Account.HasModulePerms | account/models.py:151-161 | every module permission is granted |
| AccountModels.Account.Label | account/models.py:129-136 | an account's string form is its email |
| AccountModels.AccountManager.CreateUser | account/models.py:27-56 | an empty email fails first, then an empty username, then an IntegrityError when the username or the normalised email is already stored; success exactly when none applies, appending one USER account with the given names and normalised email; the two unique columns stay unique |
| AccountModels.Account.MakeSuperuser | account/models.py:78-82 | all four flags raised and role SUPER_USER; key, names, address and password left as they were |
| AccountModels.AccountManager.CreateSuperuser | account/models.py:58-84 | the same failures in the same order, the duplicate test made on the normalised email; on success the appended account takes the next id, has no phone number, all four flags set and role SUPER_USER, the id counter advances, nothing is returned, and the unique columns stay unique |
| AccountModels.AccountManager.Taken | account/models.py:113-114 | saving would violate a unique column: some stored account has the username or the normalised email |
| AccountModels.AccountManager.Unique | account/models.py:113-114 | no username and no email is stored twice |
| AccountModels.AccountManager.IsTaken | account/models.py:113-114 | the loop over the stored accounts answers exactly whether the username or the email is already stored |
| AccountModels.AccountManager.Insert | account/models.py:49-55 | with both unique values free, one account with the given fields, role USER and flags at their defaults is appended under the next key, and the unique columns stay unique |
| AccountForms.Clean | account/forms.py:31-43 | a ValidationError with the form's message exactly when password and confirmation differ |
| AccountForms.CleanIsExact | account/forms.py:39-42 | on cleaned values the comparison does not fold case; a missing confirmation against a given password is a mismatch; two missing values agree |

## Left out

- Django's ORM, sessions, templates and HTTP parsing. Tables are in-memory values, and the session token is an input.
- `_cart_id` (`cart/views.py:10-23`): the session store's `create()` is external, so the token is passed in.
- CSRF, authentication backends and DRF plumbing. Who is asking is an input.
- Float arithmetic: tax and grand total are exact reals. IEEE rounding is not modelled.
- The `tax` column is text: the model keeps the number, not `str(tax)`.
- `datetime.date.today()`: the date is a parameter. Years are limited to 1000..9999, so that `%Y` gives four digits.
- `request.META.get("REMOTE_ADDR")` may be absent. The model takes the address as a string.
- Missing POST keys in `PlaceOrder.post`: a missing key raises before anything is written. The model takes the customer fields as given.
- Store listing bounds arrive as text. The model takes them as integers, so non-numeric bounds (a server error) are not modelled.
- Pagination (`Paginator.get_page`): foreign library. The listing and the search return the whole ordered result and its count.
- The `cats` and `prices` context of the listing are plain `.all()` queries.
- The `gift/<slug>/` route passes a keyword `Store.get` does not accept. Routing is not part of this model.
- Many-to-many retrieval order is taken to be the order of `add`.
- Unicode case folding and white space: `__iexact`, `__icontains` and `AccountModels.NormalizeEmail` (Python's `str.strip` and `str.lower`) are modelled with ASCII lower-casing and ASCII white space, so an address such as one starting with a no-break space or with a non-ASCII capital in its domain is normalised differently.
- Query order: `ex_var_list.index` (`cart/views.py:82`, `139`) and the loops that leave `quantity` (`cart/views.py:261`, `312`) run over queries without `order_by`, and no model declares a default ordering, so the database's order is unspecified. The model takes table (insertion) order.
- Form field cleaning (`account/forms.py:15-20`): each `CharField` strips white space and rejects an empty value before `clean` runs. `AccountForms.Clean` starts from the cleaned values, with `None` for a field that failed its own cleaning.
- Password hashing (`set_password`): the model keeps the given password, or `None` for an unusable one.
- `date_joined`, `last_login`, `created_at` and similar timestamps.
- `account/views.py`, `category/*`, `orders/tasks.py` (SMS over the network), `orders/signals.py` (asynchronous task on save), all `urls.py`, `admin.py` and migrations are not part of this model.
- Concurrency: two simultaneous adds can race between the lookup and the create. The model is sequential.
- Rows written outside these views (for example orders entered through the admin site) are assumed to keep `Db.WellFormed`. Under that assumption the order `get` always finds exactly the new order. The model therefore does not include the `DoesNotExist` or `MultipleObjectsReturned` branches of that lookup.
- OrderViews.Place: an anonymous caller is modelled as a server error (`TypeError`), because the line query cannot take an anonymous user. The exact exception class is not modelled.
