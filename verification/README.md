# PDV dashboard core in Dafny

This project models the logic behind a point-of-sale dashboard: the
shopping cart and its pricing rules, the product catalogue store with its
cached stock rows, the stock page's entry/exit ledger, the checkout
sequence, the browser-local CRUD store, the snake/camel key conversion of
the data service, the report aggregation, the customer and category pages,
the formatting and margin helpers, and the application session store.

Every store action is a pure function from the old state to the new one.
Each remote call (Supabase queries, the auth service, the data service
seen from a page) is a parameter that holds its outcome. The outcome is a
`Result` when the call can throw, a `bool` when it reports failure, and
an `Option` when it can come back empty. The clock (`now`), fresh ids
(`generateId`) and `parseFloat` are parameters too. Money and quantities
are `real`. JavaScript's `undefined` and `null` for a variant id are kept
apart (`MaybeId = Undefined | Null | Id`), because the code compares them
strictly.

Modules, one per source file:

- `Common`: option/result wrappers, JavaScript truthiness, lower-casing of ASCII and Latin-1 letters, and list helpers.
- `Types`: the records of the type declarations.
- `CartStore` and `CartProperties`: the cart store.
- `ProductStore`: the catalogue store.
- `Estoque`: the stock page.
- `Pdv`: the checkout page.
- `Storage`: the local store.
- `DataService`: the data service.
- `Utils`: the utility library.
- `Relatorios`: the reports page.
- `Clientes`: the customers page.
- `Categorias`: the categories page.
- `AppStore`: the session store.

Where the design description and the code differ, the model follows the code:

- A percentage line discount above 100 is not floored at 0, so the line goes negative.
- A stock movement records the requested quantity, not the quantity actually applied after the clamp at 0.

## Model

| member | source | states |
|---|---|---|
| CartStore.ItemSubtotal | src/stores/cart-store.ts:37-49 | Without a line discount (no type, or a zero value) the line costs quantity × price. An amount discount never takes it below 0. With a non-negative base and discount value, the line never costs more than its base. |
| CartProperties.ItemSubtotalAgreesWithClampedRule | src/stores/cart-store.ts:37-49 | The line subtotal equals the clamped rule exactly when it is non-negative. That rule subtracts base × pct/100 or min(base, amount) and floors the result at 0. |
| CartProperties.PercentLineDiscountNotFloored | src/stores/cart-store.ts:44-46 | A percentage line discount above 100 on a positive base gives a negative line subtotal; there is no floor. |
| CartProperties.AmountLineDiscount | src/stores/cart-store.ts:48 | A positive amount discount gives max(0, base − amount), so the line is never negative. |
| CartStore.OrderDiscount | src/stores/cart-store.ts:51-59 | The order discount is 0 without a type or with a zero value. A non-zero amount discount is at most the subtotal, and is non-negative for non-negative inputs. A percentage within [0, 100] of a non-negative subtotal lies within [0, subtotal]. |
| CartProperties.PercentOrderDiscountNotClamped | src/stores/cart-store.ts:54-56 | A percentage order discount above 100 on a positive subtotal makes the total negative. |
| CartStore.Recalculate | src/stores/cart-store.ts:227-236 | subtotal = Σ line subtotals, discount = the order discount of that subtotal, total = subtotal − discount, itemCount = Σ quantities. Lines, customer, note and discount settings are unchanged. Priced lines give a consistent cart, and a cart already derived is a fixed point. |
| CartProperties.RecalculateIdempotent | src/stores/cart-store.ts:227-236 | Recalculating twice equals recalculating once. |
| CartProperties.TotalsIndependentOfLineOrder | src/stores/cart-store.ts:230-233 | Two carts with the same lines in any order and the same order discount get the same subtotal, total and item count. |
| CartStore.FindLine | src/stores/cart-store.ts:76-78 | The merge target is the first line with the same product id and a strictly equal variant id. None means no line matches. |
| CartStore.GetItemByProductId | src/stores/cart-store.ts:219-224 | A line it returns is the first line with that product id and a strictly equal variant id. Nothing means no line matches. |
| CartStore.UnitPrice | src/stores/cart-store.ts:98 | A new line takes the variant's sale price when defined, else the product's. |
| CartStore.NewLine | src/stores/cart-store.ts:96-113 | The new line has the product, the variant id, the price snapshot, the requested quantity and no discount. Its subtotal follows the line rule. |
| CartStore.AddItem | src/stores/cart-store.ts:74-116 | When every line is priced, the result is consistent: lines priced and totals derived. The customer, note and order discount are unchanged. |
| CartProperties.AddItemMergesIntoExistingLine | src/stores/cart-store.ts:76-95 | With unique line ids, when line i matches, its quantity grows by the amount. Its id and unit price are kept, and its subtotal is recomputed. The line count and every other line are unchanged. |
| CartProperties.AddItemAppendsNewLine | src/stores/cart-store.ts:96-113 | When no line matches, the lines become the old lines plus one new line at the end. The new line carries the product's or variant's price and the requested quantity. |
| CartProperties.AddItemKeepsIdsUnique | src/stores/cart-store.ts:74-116 | With unique line ids and a fresh id, the lines stay uniquely identified. |
| CartProperties.AddItemAcceptsNegativeQuantity | src/stores/cart-store.ts:74-116 | A negative quantity is not rejected. Adding −1 of a 6.00 product to an empty cart gives one line of quantity −1 and a total of −6. |
| CartProperties.ScenarioMergeSameProduct | src/stores/cart-store.ts:76-95 | Adding the same product twice gives one line of quantity 2 and an item count of 2. |
| CartStore.RemoveItem | src/stores/cart-store.ts:141-147 | No line with the id remains, no other line is dropped, and no line is invented. An unknown id changes no line. Priced lines give a consistent cart. The customer, note and order discount are kept. |
| CartProperties.RemoveItemIdempotent | src/stores/cart-store.ts:141-147 | Removing the same id twice equals removing it once. |
| CartStore.UpdateItemQuantity | src/stores/cart-store.ts:119-138 | A quantity ≤ 0 is exactly a removal. Otherwise only lines with the id get the new quantity and subtotal. An unknown id changes no line. The customer, note and order discount are kept. |
| CartStore.SetItemDiscount | src/stores/cart-store.ts:150-164 | The lines with the id take the discount and are re-priced by the line rule; other lines are unchanged. Priced lines give a consistent cart. |
| CartStore.RemoveItemDiscount | src/stores/cart-store.ts:167-185 | Each line with the id keeps every field except that its discount type and value become absent and its subtotal becomes the base price again. Other lines are unchanged. The customer, note and order discount are kept. |
| CartStore.SetDesconto | src/stores/cart-store.ts:193-196 | Lines are kept, the order discount is set, and the subtotal is the sum of the line subtotals. A non-zero amount discount never makes the total negative. Priced lines give a consistent cart. |
| CartStore.SetCliente | src/stores/cart-store.ts:188-190 | Only the customer changes; a consistent cart stays consistent. |
| CartStore.SetObservacoes | src/stores/cart-store.ts:199-201 | Only the note changes; a consistent cart stays consistent. |
| CartStore.ClearCart | src/stores/cart-store.ts:204-216 | Every field is back at its initial value and the cart is consistent. |
| CartProperties.ClearCartIdempotent | src/stores/cart-store.ts:204-216 | Clearing twice equals clearing once. |
| CartProperties.ScenarioOrderDiscount | src/stores/cart-store.ts:227-236 | Two units of a 6.00 product give a subtotal of 12. A 10% order discount gives a total of 10.80, and removing the line then gives 0. |
| ProductStore.FromRow | src/stores/product-store.ts:86-94 | A loaded row keeps its store, product and quantities, and its variant id becomes null when the column is null. |
| ProductStore.LoadStocks | src/stores/product-store.ts:80-99 | A failed query changes nothing. Success replaces the cached rows one for one with the converted rows, so no loaded row has an undefined variant id. Only the stock rows change. |
| ProductStore.CachedQuantity | src/stores/product-store.ts:268-269 | The quantity of the first row with strictly equal store, product and variant. It is 0 when none matches. |
| ProductStore.UpdateStock | src/stores/product-store.ts:235-264 | The upsert carries the store, the product and the quantity, and a falsy variant id is sent as null. A failed write leaves the state unchanged and is never reported. A successful one reloads the rows. |
| ProductStore.AdjustStock | src/stores/product-store.ts:266-273 | It reads the cached quantity with a strict variant lookup. It sends max(0, cached + delta): never negative, exactly cached + delta when that is non-negative, 0 otherwise. The variant id is sent as `\|\| null`. |
| ProductStore.StrictLookupMissesLoadedRows | src/stores/product-store.ts:268 | After any load, an adjustment with an undefined variant id sends max(0, delta), whatever rows were loaded. |
| ProductStore.SaleOfOneZeroesStock | src/stores/product-store.ts:266-273 | With 10 units loaded under a null variant, a sale of 1 with an undefined variant sends 0. The corrected lookup reads 10 and sends 9. |
| ProductStore.CachedQuantityFixed | src/stores/product-store.ts:268-269 | Corrected lookup that treats an undefined and a null variant id as the same "no variant". It is 0 when no row matches. |
| ProductStore.AdjustStockFixed | src/stores/product-store.ts:266-273 | Corrected adjustment: it sends max(0, corrected cached quantity + delta). |
| ProductStore.AdjustStockFixedReadsLoadedRow | src/stores/product-store.ts:266-273 | After a load, the corrected adjustment with an undefined variant finds the first loaded no-variant row of that store and product. It sends max(0, that row's quantity + delta). |
| ProductStore.FixedAgreesOnVariants | src/stores/product-store.ts:268 | For a real variant id the corrected lookup equals the original one. |
| ProductStore.FindByBarcode | src/stores/product-store.ts:220-233 | The first product whose bar code or internal code is the code is the hit, with no variant. When no product matches, the first variant with that bar code decides. The answer is that variant with the first product of its id, or nothing when no such product is loaded. No match at all gives nothing. |
| ProductStore.OrphanVariantYieldsNothing | src/stores/product-store.ts:227-232 | When no product matches and the first variant with the code has no loaded product, nothing is found. This holds even when a later variant with the code has one. |
| ProductStore.BarcodeNeverFindsVariant | src/stores/product-store.ts:47-273 | Starting from the initial state, after any sequence of store actions, a bar-code hit never carries a variant. The variant list starts empty and no action fills it. |
| ProductStore.RunKeepsVariants | src/stores/product-store.ts:47-273 | Every sequence of store actions leaves the variant list as it was. |
| ProductStore.GetFilteredProducts | src/stores/product-store.ts:201-217 | Every product listed is an active catalogue product. It belongs to the chosen category when one is chosen, and matches the term when one is given. Every product passing those tests is listed. A match looks at the lowercased name, the raw bar code or the lowercased internal code. |
| ProductStore.AccentedSearchFindsProduct | src/stores/product-store.ts:208-214 | The product "AÇÚCAR" is listed for the term "açúcar": accented capitals fold to lower case. |
| ProductStore.EmptySearchKeepsActive | src/stores/product-store.ts:201-217 | With no term and no category, the list is exactly the active products. |
| ProductStore.SearchNarrows | src/stores/product-store.ts:208-214 | Every product listed under a search term is also listed with no term. |
| ProductStore.LoadAll | src/stores/product-store.ts:59-78 | Loading always ends, and stock rows and variants are untouched. Without a company only the error is cleared. Success replaces products and categories and clears the error. Failure keeps them and sets the error. |
| ProductStore.LoadCategories | src/stores/product-store.ts:101-113 | Only the categories change, and loading ends without touching the error. With a company and success, the categories are replaced. Otherwise they are kept. |
| ProductStore.AddCategory | src/stores/product-store.ts:116-126 | Success appends the created category. Failure keeps the list and sets the error. |
| ProductStore.UpdateCategory | src/stores/product-store.ts:128-140 | Success replaces each category with the id by the updated one and keeps the others in place. Failure keeps the list and sets the error. Only categories, error and loading change. |
| ProductStore.DeleteCategory | src/stores/product-store.ts:142-154 | Success removes every category with the id and keeps the others. Failure keeps the list and sets the error. |
| ProductStore.AddProduct | src/stores/product-store.ts:157-167 | Success appends the created product. Failure keeps the list and sets the error. |
| ProductStore.UpdateProduct | src/stores/product-store.ts:169-181 | Success replaces each product with the id by the updated one and keeps the others in place. Failure keeps the list and sets the error. Only products, error and loading change. |
| ProductStore.DeleteProduct | src/stores/product-store.ts:183-195 | Success removes every product with the id and keeps the others. Failure keeps the list and sets the error. |
| ProductStore.AddThenDeleteProduct | src/stores/product-store.ts:157-195 | Adding a product with a new id and then deleting it restores the product list. |
| ProductStore.AddThenDeleteCategory | src/stores/product-store.ts:116-154 | Adding a category with a new id and then deleting it restores the category list. |
| Estoque.StockOf | src/app/estoque/page.tsx:91 | The row shown is the first row of the product with a falsy variant id. None means there is no such row. |
| Estoque.Classify | src/app/estoque/page.tsx:90-98 | isZero holds iff there is no row or the quantity is 0. isLowStock holds iff a row exists with a non-zero minimum and quantity ≤ minimum. |
| Estoque.ProductsWithStock | src/app/estoque/page.tsx:88-113 | Every item listed is an active product of the list, classified against the rows. Under the low or zero filter every item carries that flag. With a term, every item's lowercased name contains the lowercased term. Every active product that passes the name search and the filter is listed. |
| Estoque.ComputeStats | src/app/estoque/page.tsx:180-189 | total is the number listed. lowStock and zeroStock count the flags and never exceed it. totalValue sums quantity × unit cost. |
| Estoque.UnitCost | src/app/estoque/page.tsx:186 | The cost price is used when it is present and non-zero; otherwise the sale price stands in. |
| Estoque.ShownQuantity | src/app/estoque/page.tsx:307 | The shown quantity is 0 exactly when there is no row or the row holds 0. |
| Estoque.StockValueNonNegative | src/app/estoque/page.tsx:184-188 | When every shown quantity and unit cost is non-negative, the stock value is non-negative. |
| Estoque.FilteredStatsAgree | src/app/estoque/page.tsx:180-189 | Under the low filter the low card equals the total, and likewise for the zero filter. |
| Estoque.ExitDisabledIffZero | src/app/estoque/page.tsx:357-361 | The quantity shown is 0 exactly for the items flagged zero, and those are the ones whose "−" button is disabled. |
| Estoque.OpenMovement | src/app/estoque/page.tsx:115-133 | It fails exactly when the product has no row and there is no current store. Otherwise the dialog opens reset to an empty entry. It holds the product's row, or a new zero row with no variant for the current store. |
| Estoque.PressMinus | src/app/estoque/page.tsx:357-360 | When the dialog opens, it is in entry mode, because opening resets the type set by the button. |
| Estoque.Preview | src/app/estoque/page.tsx:520-524 | The preview is absent when the text does not parse, and never negative otherwise. |
| Estoque.SaveMovement | src/app/estoque/page.tsx:135-172 | It saves exactly when a row, a store, a user and a parsed quantity > 0 are present. The write has no variant and is non-negative, and it equals the movement's new quantity. The movement records the requested q, the previous quantity, the type, the user and a manual-adjustment reference. The dialog stays open iff recording fails. |
| Estoque.SavedMatchesPreview | src/app/estoque/page.tsx:141-142 | The saved new quantity equals the preview shown. |
| Estoque.MovementIgnoresWriteOutcome | src/app/estoque/page.tsx:146-162 | A failed stock write records the same movement as a successful one and leaves the store unchanged. |
| Estoque.ClampedExit | src/app/estoque/page.tsx:141-156 | On an exit from a non-negative stock, previous − new = min(q, previous). So when q exceeds the stock, less than the recorded q is removed. |
| Estoque.EntryAdds | src/app/estoque/page.tsx:141-156 | On an entry to a non-negative stock, the new quantity is previous + q. |
| Pdv.GridProducts | src/app/pdv/page.tsx:90-108 | Every product on the grid is an active catalogue product of the chosen category. With a term, its lowercased name or raw bar code contains the lowercased term. Every active product of the category is on the grid when its lowercased name or raw bar code contains the lowercased term. |
| Pdv.GridWithinStoreFilter | src/app/pdv/page.tsx:90-108 | Every product on the grid is also in the store's filtered list. |
| Pdv.InternalCodeNotInGrid | src/app/pdv/page.tsx:97-104 | A product found only by its internal code is listed by the store but not on the grid. |
| Pdv.GetStock | src/app/pdv/page.tsx:229-232 | Without a store there is no row. A row returned is the product's row in the current store. None means the store holds no row for it. |
| Pdv.ClickProduct | src/app/pdv/page.tsx:280-287 | When the product's row in the current store holds ≤ 0, the click changes nothing. Otherwise one unit is added with no variant and the term is cleared. |
| Pdv.NoRowIsAddable | src/app/pdv/page.tsx:280-287 | A product with no row in the current store is always added on click, even when another store's row holds 0. |
| Pdv.BarcodeEnter | src/app/pdv/page.tsx:111-119 | An empty term or a miss changes nothing. A hit adds the product with its variant and clears the term. |
| Pdv.Change | src/app/pdv/page.tsx:225-227 | Change is 0 unless cash is paid with a non-empty amount. It is absent exactly when that amount does not parse. It is never negative, and a positive change is received − total. |
| Pdv.StoredTroco | src/app/pdv/page.tsx:180 | The change is stored only when it is positive, and then unchanged. |
| Pdv.StoredTrocoExactly | src/app/pdv/page.tsx:172-180 | A change is stored iff cash is paid with a parsable amount above the total. Then received = total + change. |
| Pdv.EnabledChangeIsExact | src/app/pdv/page.tsx:514-519 | When confirm is enabled for cash with a parsed amount, the change is exactly received − total. |
| Pdv.ToDraftItem | src/app/pdv/page.tsx:151-159 | A sent item carries the line's product, variant, quantity and subtotal, and the product's cost price. |
| Pdv.CreateSaleCall | src/app/pdv/page.tsx:139-162 | The sale sent carries store, user, number, status finalised, subtotal and total, with one item per line. |
| Pdv.PaymentCalls | src/app/pdv/page.tsx:168-184 | No payment is sent without a looked-up id. Otherwise exactly one is sent: for that sale, of the total, with the stored change. |
| Pdv.StockCalls | src/app/pdv/page.tsx:187-189 | There is one stock adjustment per line, in order, for the store and the line's product and variant, with delta −quantity. |
| Pdv.SaleCalls | src/app/pdv/page.tsx:136-184 | The calls go in order: sale number, sale, lookup by store and number, then the payment when the lookup found the sale. |
| Pdv.FinishSale | src/app/pdv/page.tsx:129-212 | Nothing starts without store, user or lines. A failed number or createSale aborts, keeps the cart and makes no stock call. The sale completes iff the number is drawn, the sale is created and any payment sent succeeds. Completion empties the cart and reports the number and the total. |
| Pdv.FinishSaleEffects | src/app/pdv/page.tsx:129-212 | On completion the effects are the sale calls, then one stock adjustment per line exactly as StockCalls gives, then a stock reload. |
| Pdv.FinishSaleRecords | src/app/pdv/page.tsx:139-162 | The sale sent carries the cart's subtotal and total, status finalised and the number. Its items are the lines in order. |
| Pdv.FinishSalePayment | src/app/pdv/page.tsx:168-184 | The payment sent is for the looked-up sale. It carries the full total, and change only when positive. |
| Pdv.FailedSaleKeepsCart | src/app/pdv/page.tsx:162-166 | A failed createSale aborts after two calls (number and sale), keeps the cart and sends no payment. |
| Storage.FullKey | src/lib/storage.ts:37-39 | Every key is stored as the `pdv_` prefix followed by the key itself. |
| Storage.FullKeyInjective | src/lib/storage.ts:37-39 | Distinct keys never collide once prefixed. |
| Storage.GetAll | src/lib/storage.ts:105-107 | An absent key reads as the empty list; a present one reads as its stored list. |
| Storage.CountItems | src/lib/storage.ts:192-194 | The count is the length of the list, so 0 for an absent key. |
| Storage.GetById | src/lib/storage.ts:110-113 | A record returned has the id and is stored, at a position with no earlier match. Nothing means no stored record has the id. |
| Storage.FindBy | src/lib/storage.ts:116-119 | Every record returned is stored and has the field equal to the value. Every stored record with that value is returned. |
| Storage.FindFirstBy | src/lib/storage.ts:122-125 | A record returned is the first stored record whose field equals the value. Nothing means no stored record has it. |
| Storage.FindFirstIsHeadOfFindBy | src/lib/storage.ts:116-125 | findFirstBy is the head of findBy. |
| Storage.Create | src/lib/storage.ts:128-133 | The item is appended at the end and returned; other keys are unchanged. |
| Storage.CreateMany | src/lib/storage.ts:136-141 | The items are appended at the end in the given order and returned; other keys are unchanged. |
| Storage.CreateDoesNotCheckIds | src/lib/storage.ts:128-133 | A duplicate id is accepted: the count grows by one and getById still returns the older record. |
| Storage.Spread | src/lib/storage.ts:150 | The merge always stamps updatedAt with now. The id is the patch's when the patch sets one, else the record's. |
| Storage.Update | src/lib/storage.ts:144-153 | An unknown id returns null and writes nothing. Otherwise the answer is the stamped merge of the first match, and the list keeps its length. Other keys are unchanged. |
| Storage.UpdateTouchesFirstMatchOnly | src/lib/storage.ts:144-153 | Only the first record with the id is replaced by the merge; later duplicates and every other record are kept in place. |
| Storage.Delete | src/lib/storage.ts:156-164 | It answers false iff no record has the id, and then writes nothing. Otherwise the list keeps exactly the records without the id, in order. Other keys are unchanged. |
| Storage.DeleteThenGetById | src/lib/storage.ts:110-164 | After a delete, getById finds nothing for that id. |
| Storage.CreateFindDelete | src/lib/storage.ts:128-164 | When the id is new, the created record is found by id, and deleting it restores the list. |
| Storage.DeleteMany | src/lib/storage.ts:167-174 | The list keeps exactly the records whose id is not listed. The answer is old length − new length, which equals the number of records removed. |
| Storage.DeleteBy | src/lib/storage.ts:177-184 | The list keeps exactly the records whose field differs from the value. The answer is old length − new length, which equals the number of matching records. |
| Storage.SetAll | src/lib/storage.ts:187-189 | The key holds exactly the given list; other keys are unchanged. |
| Storage.ClearKey | src/lib/storage.ts:197-199 | The key is present with no items; other keys are unchanged. |
| Storage.CounterGet | src/lib/storage.ts:298-301 | A store with no counter, or no counters at all, reads 0. Otherwise the stored value is read. |
| Storage.CounterIncrement | src/lib/storage.ts:302-307 | It returns the previous value + 1 and stores it, and other stores' counters are unchanged. |
| Storage.CounterConsecutive | src/lib/storage.ts:302-307 | Two increments hand out consecutive numbers. |
| Storage.SetCurrentUser | src/lib/storage.ts:270-276 | Only the user key changes; null leaves it absent. |
| Storage.SetCurrentStore | src/lib/storage.ts:280-286 | Only the store key changes; null leaves it absent. |
| Storage.ClearSession | src/lib/storage.ts:287-290 | Both session keys are removed. |
| Storage.ClearIsSettingNull | src/lib/storage.ts:266-291 | Clearing equals setting both to null, in either order. |
| Storage.InitializeDemoData | src/lib/storage.ts:314-454 | A stored company makes the seed a no-op. Otherwise the company gets the fresh id, and the session holds a stored admin and a stored store of that company. At most one store and one user are added. |
| Storage.DemoDataIdempotent | src/lib/storage.ts:314-316 | Seeding twice equals seeding once, whatever ids the second run draws. |
| DataService.SnakeKey | src/services/data-service.ts:22 | The result has no upper-case letter and is no shorter than the key. |
| DataService.CamelKey | src/services/data-service.ts:10 | The result has no `_` followed by a lower-case letter and is no longer than the key. |
| DataService.SnakeKeyFixesNoUpper | src/services/data-service.ts:22 | A key with no upper-case letter is unchanged by the snake conversion. |
| DataService.CamelKeyFixesNoUnderscoreLower | src/services/data-service.ts:10 | A key with no `_`-letter pair is unchanged by the camel conversion. |
| DataService.CamelOfSnake | src/services/data-service.ts:10-22 | camel(snake(k)) = k for every key with no `_` followed by a–z. |
| DataService.SnakeOfCamel | src/services/data-service.ts:10-22 | snake(camel(k)) = k for every key with no upper-case letter. |
| DataService.SnakeKeyInjective | src/services/data-service.ts:22 | Keys with no `_`-lowercase pair that differ stay different under the snake conversion. |
| DataService.CamelKeyInjective | src/services/data-service.ts:10 | Keys with no upper-case letter that differ stay different under the camel conversion. |
| DataService.CamelKeysCollide | src/services/data-service.ts:10 | `a_b` and `aB` both become `aB`. |
| DataService.Lookup | src/services/data-service.ts:11 | A key reads as nothing iff no field has it. Otherwise the value comes from a field with that key. |
| DataService.Assign | src/services/data-service.ts:11 | Assigning an existing key keeps the key list. A new key is appended at the end. |
| DataService.AssignedValue | src/services/data-service.ts:11 | After the assignment, the key reads the new value. |
| DataService.AssignKeepsOthers | src/services/data-service.ts:11 | Assigning one key leaves the other keys' values alone. |
| DataService.AssignAllDistinct | src/services/data-service.ts:8-13 | When the accumulator and the copied fields have distinct keys, the reduction is plain concatenation. |
| DataService.ToCamel | src/services/data-service.ts:5-16 | Primitives are unchanged, arrays keep their length, and objects stay objects with no more fields than before. |
| DataService.ToSnake | src/services/data-service.ts:19-28 | Primitives are unchanged, and anything else, arrays included, becomes an object. |
| DataService.ConvertedKeysDistinct | src/services/data-service.ts:5-28 | The camel conversion of an object, and the snake conversion of anything non-primitive, hold each key once. |
| DataService.SnakeIsShallow | src/services/data-service.ts:19-28 | The snake conversion converts only the outer key; a nested object keeps its own keys. |
| DataService.CamelIsDeep | src/services/data-service.ts:5-16 | The camel conversion renames the keys of a nested object too. |
| DataService.CamelRecordRoundTrip | src/services/data-service.ts:5-28 | Take a flat record (distinct keys, primitive values) whose keys have no `_`-lowercase pair. Converting it to snake and back to camel gives it back. |
| DataService.SnakeRecordRoundTrip | src/services/data-service.ts:5-28 | Take a flat record whose keys have no upper-case letter. Converting it to camel and back to snake gives it back. |
| DataService.CamelCollisionKeepsLater | src/services/data-service.ts:8-13 | With `a_b` followed by `aB` in one object, a single field `aB` remains, holding the later value. |
| DataService.NextSaleNumber | src/services/data-service.ts:168-177 | It fails iff the count query fails. Otherwise the result is count + 1, with a null count read as 0, so it is at least 1. |
| DataService.NextSaleNumberFresh | src/services/data-service.ts:168-177 | While a store's numbers are exactly 1..n, the next number is n + 1, which is not yet used. Recording it makes the numbers 1..n+1. |
| DataService.ItemRow | src/services/data-service.ts:105-108 | Each item row is an object whose venda_id is the new sale's id. |
| DataService.CreateSale | src/services/data-service.ts:93-121 | It answers true iff both inserts succeed. A failed sale insert writes nothing. Otherwise the sale row is appended. A failed items insert appends no item. On success every item is appended after the existing rows, each carrying the sale's id. |
| DataService.FalseCanLeaveOrphanSale | src/services/data-service.ts:110-119 | A failed items insert answers false yet leaves the new sale row, with no items. |
| Utils.Digits | src/lib/utils.ts:37 | Stripping non-digits never lengthens the string. |
| Utils.DigitsAreDigits | src/lib/utils.ts:37 | Only digits survive the stripping. |
| Utils.ReplaceFirst | src/lib/utils.ts:28-41 | When a run of digits of the pattern's width occurs, only the first such run is formatted, and the text around it is kept. A string with no such run is unchanged. |
| Utils.FirstRun | src/lib/utils.ts:28-41 | The position returned starts a run of digits of the given width, and no earlier position does. None means no position does. |
| Utils.ApplyKeepsDigits | src/lib/utils.ts:28-41 | Filling a pattern with a run of digits adds punctuation only: stripping it gives the run back. |
| Utils.FormatCpf | src/lib/utils.ts:28-30 | A string of exactly eleven digits becomes the 14-character DDD.DDD.DDD-DD pattern. A string with no run of 11 digits is unchanged. |
| Utils.FormatCpfAfterPrefix | src/lib/utils.ts:28-30 | A CPF after a non-digit prefix is formatted in place. |
| Utils.FormatCnpj | src/lib/utils.ts:32-34 | A string of exactly fourteen digits becomes the 18-character DD.DDD.DDD/DDDD-DD pattern. A string with no run of 14 digits is unchanged. |
| Utils.FormatPhone | src/lib/utils.ts:36-42 | The result uses the digits only. Eleven digits take the mobile pattern. Ten or more (other than eleven) put the first ten in the landline pattern and append the rest unformatted. Fewer than ten are returned bare. |
| Utils.FormattersKeepDigits | src/lib/utils.ts:28-42 | The three formatters never add or drop a digit. |
| Utils.Percentage | src/lib/utils.ts:69-72 | It is 0 for a zero total. Otherwise result × total = value × 100. |
| Utils.Margin | src/lib/utils.ts:74-77 | It is 0 for a zero price. Otherwise margin × price = (price − cost) × 100, and the margin is 100 iff the cost is 0. |
| Utils.PriceFromMargin | src/lib/utils.ts:79-81 | There is no finite price exactly when the margin is 100. Otherwise price × (100 − margin) = cost × 100. |
| Utils.MarginOfPriceFromMargin | src/lib/utils.ts:74-81 | For a non-zero cost and a margin other than 100, the price from a margin has that margin. |
| Utils.PriceFromMarginOfMargin | src/lib/utils.ts:74-81 | For non-zero cost and price, the margin of a price gives that price back. |
| Utils.ZeroCostLosesMargin | src/lib/utils.ts:74-81 | With a zero cost, a 50% margin gives a price of 0, and the margin of that price reads 0. |
| Relatorios.SaleIds | src/app/relatorios/page.tsx:111 | The set holds exactly the ids of the given sales. |
| Relatorios.LoadReport | src/app/relatorios/page.tsx:75-121 | Without a store nothing changes. Otherwise a sale is kept iff it is one of the store's finalised sales in the period. Items and payments are kept iff their sale was kept, and nothing else is added. |
| Relatorios.AverageTicket | src/app/relatorios/page.tsx:124-126 | It is 0 with no sales. Otherwise average × count = total sales. |
| Relatorios.ProfitIsRevenueLessCost | src/app/relatorios/page.tsx:129-133 | Profit = Σ subtotal − Σ (cost or 0) × quantity. |
| Relatorios.NoCostMeansProfitIsRevenue | src/app/relatorios/page.tsx:129-133 | Items with no cost count their whole subtotal as profit. |
| Relatorios.ShareOfSales | src/app/relatorios/page.tsx:469 | A share is 0 when total sales ≤ 0. Otherwise share × total = amount × 100. |
| Relatorios.AddToSums | src/app/relatorios/page.tsx:156-162 | Adding to a group raises the grand totals by exactly the amounts. |
| Relatorios.AddToAt | src/app/relatorios/page.tsx:156-162 | Adding to a group raises only that key's totals. |
| Relatorios.AddToKeys | src/app/relatorios/page.tsx:156-162 | The key set gains exactly the key, and distinct keys stay distinct. |
| Relatorios.TallySums | src/app/relatorios/page.tsx:154-162 | The grouped totals grow by exactly the sums over the input. |
| Relatorios.TallyAt | src/app/relatorios/page.tsx:154-162 | Each key's group totals grow by the sums over that key's inputs. |
| Relatorios.TallyKeys | src/app/relatorios/page.tsx:154-162 | The group keys become the keys already present plus the keys seen, and distinct keys stay distinct. |
| Relatorios.AtIsEntry | src/app/relatorios/page.tsx:154-162 | With distinct keys, a key's totals are its group's fields. |
| Relatorios.AbsentAtZero | src/app/relatorios/page.tsx:154-162 | An absent key has zero totals. |
| Relatorios.DistinctKeysCount | src/app/relatorios/page.tsx:165-172 | With distinct keys there are as many groups as keys. |
| Relatorios.ProductName | src/app/relatorios/page.tsx:166-169 | The name shown is never empty. |
| Relatorios.ToProductSales | src/app/relatorios/page.tsx:164-172 | There is one row per group, in order, carrying the group's product id, quantity and total. |
| Relatorios.ProductRowsAddUp | src/app/relatorios/page.tsx:154-172 | Products are keyed by id only, so variants merge. Each product appears once, and the keys are exactly the products sold. Each row's quantity and total are sums over that product's items. The rows add up to the totals over all items. |
| Relatorios.InsertDesc | src/app/relatorios/page.tsx:173 | Insertion adds exactly the element, as a multiset. |
| Relatorios.InsertDescSorted | src/app/relatorios/page.tsx:173 | Insertion into a descending list keeps it descending. |
| Relatorios.SortDesc | src/app/relatorios/page.tsx:173 | Sorting is a permutation. |
| Relatorios.SortDescSorted | src/app/relatorios/page.tsx:173 | The sorted list is descending. |
| Relatorios.TopTen | src/app/relatorios/page.tsx:375 | The cut is the first min(10, n) rows. |
| Relatorios.Rank | src/app/relatorios/page.tsx:423-425 | Both rankings have min(10, n) rows, drawn from the product rows. |
| Relatorios.TopTenOfSorted | src/app/relatorios/page.tsx:375 | The top ten of a sorted list ranks at least as high as anything left out. |
| Relatorios.RankBest | src/app/relatorios/page.tsx:173-375 | The best-sellers are in descending quantity, and no product left out sold more than one shown. |
| Relatorios.RankLeast | src/app/relatorios/page.tsx:423-425 | The least-sold are in ascending quantity, and no product left out sold less than one shown. |
| Relatorios.PaymentSummaries | src/app/relatorios/page.tsx:176-190 | There are at most five rows, since each payment method has at most one. |
| Relatorios.AtMostFiveMethods | src/app/relatorios/page.tsx:177-189 | Groups with distinct method keys number at most five. |
| Relatorios.PaymentSummariesAddUp | src/app/relatorios/page.tsx:176-190 | The rows are sorted by total, descending. The counts sum to the number of payments and the totals to the amount paid. |
| Relatorios.SharesAddUpToHundred | src/app/relatorios/page.tsx:465-499 | When the payments add up to a positive sales total, the shares shown for the payment rows add up to 100. |
| Relatorios.ComputeReport | src/app/relatorios/page.tsx:124-190 | It reports the count and total of the sales and the average ticket. Profit = revenue − cost, and the margin is profit's share of sales. There are at most five payment rows and at most ten products per ranking. |
| Clientes.View | src/lib/storage.ts:144-153 | A stored record reads back with its stored id, its stamped updatedAt when there is one, and its own ativo and name. |
| Clientes.Stored | src/lib/storage.ts:128-133 | A customer stored the way create stores it reads back as itself, under its own id. |
| Clientes.LoadCustomers | src/app/clientes/page.tsx:65-68 | Every customer listed is active and stored, and every active stored record is listed. |
| Clientes.FilteredCustomers | src/app/clientes/page.tsx:70-80 | An empty term keeps the list. Otherwise a customer is kept iff it is listed and its lowercased name or email, or its raw document or phones, contain the lowercased term. |
| Clientes.SearchIgnoresCase | src/app/clientes/page.tsx:72 | Searching with a term equals searching with it lower-cased. |
| Clientes.UpperCaseDocumentNotFoundByItself | src/app/clientes/page.tsx:75 | A customer whose only searchable text is the document `AB` is not found by typing `AB`. |
| Clientes.BuildCustomer | src/app/clientes/page.tsx:114-129 | An edit keeps its id and createdAt when set; a new customer gets the fresh id and now. Each optional field is undefined iff its input is empty, and the credit limit is parsed when given. ativo is true and updatedAt is now. Address and birth date are left undefined. |
| Clientes.EditPatch | src/app/clientes/page.tsx:132 | An edit patch carries the id and the stamp. It overwrites every field except the stored address and birth date. |
| Clientes.HandleSubmit | src/app/clientes/page.tsx:111-139 | Without a store nothing is written. A new customer is appended as built. An edit keeps the list length. Other keys are unchanged. |
| Clientes.NewCustomerIsListed | src/app/clientes/page.tsx:111-139 | A newly created customer appears in the list. |
| Clientes.EditKeepsIdentity | src/app/clientes/page.tsx:111-139 | An edit rewrites only the first stored record with the id. That record keeps its id and createdAt, gets updatedAt = now and is active. It keeps the stored address and birth date. Every other record is untouched. |
| Clientes.Deactivate | src/app/clientes/page.tsx:143 | The delete patch sets ativo to false and nothing else, with no id or stamp. |
| Clientes.HandleDelete | src/app/clientes/page.tsx:141-146 | Without confirmation nothing changes. The delete is soft: the stored list keeps its length and other keys are unchanged. |
| Clientes.DeleteHidesCustomer | src/app/clientes/page.tsx:141-146 | When the id is stored once, a confirmed delete leaves the record stored but inactive, and it is no longer listed. |
| Clientes.ClickSubmit | src/app/clientes/page.tsx:405 | With an empty name a click writes nothing; otherwise it submits. |
| Clientes.DialogNeverCreatesNameless | src/app/clientes/page.tsx:405 | No record the dialog appends has an empty name. |
| Categorias.ProductsInCategory | src/app/categorias/page.tsx:87 | The guard's count is 0 iff no product, active or not, is in the category. |
| Categorias.GetProductCount | src/app/categorias/page.tsx:97-99 | The shown count is 0 iff no active product is in the category. |
| Categorias.ShownCountBelowGuard | src/app/categorias/page.tsx:87-99 | The shown count never exceeds the guard's count. |
| Categorias.HandleDelete | src/app/categorias/page.tsx:86-95 | Any product in the category refuses the delete with that count and changes nothing. Otherwise a cancelled confirm does nothing and a confirmed one runs the store's delete. Products never change. |
| Categorias.ZeroShownButRefused | src/app/categorias/page.tsx:86-99 | A category whose products are all inactive shows 0 and still cannot be deleted. |
| Categorias.DeleteRemovesOnlyEmpty | src/app/categorias/page.tsx:86-95 | A listed category's id disappears from the list iff the category has no product at all, the delete is confirmed and the remote delete succeeds. |
| Categorias.VisibleCategories | src/app/categorias/page.tsx:119 | Every card shown is an active category of the list, and every active category is shown. |
| Categorias.EmptyStateIffNoneActive | src/app/categorias/page.tsx:171 | The empty card appears iff no category is active. |
| Categorias.BuildCategoryData | src/app/categorias/page.tsx:69-75 | The record is active and carries the store's company, the name and the colour. The description is undefined iff it is empty. |
| Categorias.HandleSubmit | src/app/categorias/page.tsx:66-84 | Without a store there is no request and nothing changes. Editing sends an update, otherwise an add is sent, always with ativa true. The store then applies the outcome. |
| Categorias.SubmitEffectOnGrid | src/app/categorias/page.tsx:66-84 | A successful add of an active category puts it on the grid and removes the empty state. An edit keeps the number of categories. |
| Categorias.ClickSubmit | src/app/categorias/page.tsx:251 | With an empty name a click sends nothing, so no request ever has an empty name. Otherwise it submits. |
| AppStore.RestoreStore | src/stores/app-store.ts:72-77 | Without a persisted id, or with an id no loaded store has, the selection is kept. Any change replaces it with a loaded store that has the same id. |
| AppStore.Initialize | src/stores/app-store.ts:55-87 | Loading always ends, and the sidebar and users are kept. If a call throws, isInitialized is unchanged and the error is set. Otherwise isInitialized is set and the error is untouched. A returned user is signed in even if a later call throws. A full load sets stores and company and restores the selection. |
| AppStore.StaleStoreSurvivesInitialize | src/stores/app-store.ts:72-77 | A persisted store whose id is no longer listed stays selected. |
| AppStore.FreshStoreReplacesPersisted | src/stores/app-store.ts:72-77 | A listed id is replaced by the first loaded store with that id. |
| AppStore.Login | src/stores/app-store.ts:90-120 | It answers true iff a user comes back without an error message and both loads work. An error message or a thrown login answers false, keeps the session and shows the message. A returned user is signed in even when a later load fails. Success clears the error, sets stores and company, and selects stores[0] when there is one. |
| AppStore.FailedLoadStillSignsIn | src/stores/app-store.ts:100-104 | When the store list fails, login answers false, yet the user stays signed in and the error is shown. |
| AppStore.LoginOverridesSelection | src/stores/app-store.ts:107-110 | A successful login selects the first store, whatever was selected. |
| AppStore.Logout | src/stores/app-store.ts:122-125 | A thrown logout changes nothing in the store state. Otherwise, of the store state, only the user and the selected store are cleared. |
| AppStore.LoadStores | src/stores/app-store.ts:131-141 | Success sets the list and failure sets the error. Loading ends either way, and nothing else changes. |
| AppStore.ToggleSidebar | src/stores/app-store.ts:148 | Only the sidebar flag flips. |
| AppStore.ToggleTwice | src/stores/app-store.ts:148 | Toggling twice restores the state. |
| AppStore.SetSidebarOpen | src/stores/app-store.ts:149 | Only the sidebar flag is set. |
| AppStore.ClearError | src/stores/app-store.ts:150 | Only the error is cleared. |
| AppStore.SetCurrentUser | src/stores/app-store.ts:127 | Only the user is set. |
| AppStore.SetCurrentStore | src/stores/app-store.ts:128 | Only the store is set. |
| AppStore.Partialize | src/stores/app-store.ts:154-157 | The persisted slice is the sidebar flag and the selected store. |
| AppStore.Rehydrate | src/stores/app-store.ts:40-157 | Rehydration is the initial state with the saved slice merged in, and persisting it gives the slice back. |
| AppStore.ReloadKeepsOnlySlice | src/stores/app-store.ts:154-157 | After a reload only the sidebar and the selected store survive. |
| AppStore.LogoutPersistsNoStore | src/stores/app-store.ts:122-157 | A logout is persisted as "no store selected". |

## Left out

- Browser storage, JSON encoding, `isBrowser` and error logging: storage is a map from the prefixed key to the decoded list.
- Network calls (Supabase queries, the auth service, the data-service getters, `loadStocks`' query, `subscribeToSales`): each is a parameter holding its outcome.
- Concurrency: the checkout's stock adjustments are not awaited, and the model lists them as effects in issue order. Async interleavings and races between terminals are not modelled.
- The reloads the stock page starts after saving a movement (`loadStocks`, `loadMovements`): only the stock write and the movement are modelled. The checkout's trailing `loadStocks` appears only as a final effect, and its outcome is not modelled.
- Wall-clock time, `generateId` and `parseFloat` are parameters. `parseFloat` is given as `None` for NaN. The period filter of the reports is a predicate parameter, so the local-time date arithmetic is not modelled.
- The daily-sales grouping of the reports: it re-parses locale date strings.
- `formatCurrency`, `formatDate`, `formatDateTime`, `slugify`, `debounce` and `cn`: they are Intl, Unicode or timer based.
- IEEE-754 rounding, NaN and Infinity: money is `real`.
- ProductStore.GetFilteredProducts, Pdv.GridProducts, Estoque.ProductsWithStock, Clientes.FilteredCustomers and Clientes.SearchIgnoresCase: `toLowerCase` is modelled for ASCII and Latin-1 capitals (À to Þ), which covers Portuguese accents. Other scripts (Greek, Cyrillic, Latin Extended) are not folded, and neither are characters whose lower case is longer, such as İ. A search relying on those folds can list fewer items in the model than in the browser.
- AppStore.Logout: `authService.logout` also calls `localStorage.clear()` (src/services/auth-service.ts:50). That wipes every `pdv_` key (customers, sale counters, session, demo data) and the persisted slice. The storage records are separate values in this model, so the wipe is not modelled. The persisted slice is written again by the `set` that follows, which LogoutPersistsNoStore states.
- The insertion order of integer-like keys in JavaScript objects: objects keep plain insertion order.
- `loadUsers`: its body is empty.
- The demo catalogue of `initializeDemoData` (categories, products, variants, stock): only the guard, the company, one store, the admin user and the session it opens are modelled.
- The dashboard, products, login and placeholder pages, and the layout components: they are UI only.
- Relatorios.ProductName: the contract states only that the name is never empty, not which product supplies it.
- Relatorios.PaymentSummaries: states only the five-row bound. The sort order and the sums are stated by PaymentSummariesAddUp.
- Relatorios.ComputeReport: states the totals and bounds; the per-product and per-method contents are stated by ProductRowsAddUp, RankBest, RankLeast and PaymentSummariesAddUp.

## Findings

| source | as written | input that shows it | evidently intended | confidence | as-written member | corrected member |
|---|---|---|---|---|---|---|
| src/stores/product-store.ts:268 | The cache lookup compares `varianteId` strictly. Loaded rows carry `null`, while checkout passes `undefined` for a product without variants, so the lookup misses and the current quantity reads 0. | A row of 10 units for product `p` in store `loja`, loaded with a null variant; `adjustStock("loja", "p", undefined, -1)` writes 0 instead of 9 | Treat undefined and null variant ids as the same "no variant", so the sale writes 9 | not executed | ProductStore.SaleOfOneZeroesStock | ProductStore.AdjustStockFixedReadsLoadedRow |
