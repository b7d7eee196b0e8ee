# Shop payments and products, verified

This project models two parts of a small shop-management web application: the
owner's side and the product screens.

On the owner's side, a customer pays off a sale's due balance:
- the amount is checked against the balance;
- a day-scoped payment voucher `PV-YYYYMMDD-NNNN` is numbered;
- the sale's paid amount is raised;
- a profit-realization row is appended, carrying the payment's proportional share of the sale's profit.

The owner's dashboard figures are also modelled: sales, profit, realised profit, expenses and cash in hand, each for the day and for the month, plus the stock value and the total due.

On the product screens, products are created, opened for editing, updated and deleted:
- every action on an existing product first checks that it belongs to the actor's business;
- SKUs are unique within a business;
- only an owner can correct the stock, and each correction writes a signed row to the stock ledger;
- a product with sales or with stock cannot be deleted;
- the actor's business is resolved, or provisioned, on demand.

The database is an in-memory store, the class `Store.Db`. It holds one sequence of rows per table, the map of users, and the auto-increment counters. `Db.Valid()` collects the consistency rules that the operations keep:
- business ids are positive, unique and below their counter;
- product ids are unique and below their counter;
- sale ids are unique (sales have no counter here, since no modelled operation creates one);
- realization ids are strictly increasing along the table and below their counter;
- every sale has `0 <= paid <= total`;
- products have non-negative stock and prices, and a positive business id;
- SKUs are unique per business;
- every realization row is its sale's profit share for its payment;
- no sale has more recorded payments than its paid amount.

Modules, one per file:
- `Common` (common.dfy): `Option` and a calendar `Date`.
- `Digits` (digits.dfy): the PHP string handling the voucher needs. This covers rendering an integer in decimal, the `(int)` cast of a string, `str_pad(..., STR_PAD_LEFT)` and `substr($s, -k)`.
- `Sums` (sums.dfy): the `->sum(...)` of a column over a table, and how that sum moves when a row is appended, replaced or removed.
- `Voucher` (voucher.dfy): voucher numbers and the arithmetic of their sequence part.
- `Store` (store.dfy): the rows, the consistency rules and the class `Db`.
- `OwnerController` (owner_controller.dfy): recording a payment, and the dashboard.
- `ProductController` (product_controller.dfy): `getBusinessId`, `store`, `edit`, `update` and `destroy`.

Operations that change the store are methods on a `Db` with field-level `modifies` frames:
- `StorePayment`
- `GetBusinessId`
- `Create`
- `Update`
- `Destroy`

`Update` and `Destroy` are proved against the pure functions `UpdateEffect` and `DestroyEffect`. Lemmas state the promised properties about those functions.

Three behaviours of the code are easy to miss:
- A payment is accepted only for amounts in `[0.01, due]`.
- A sale with a zero total is not guarded. The payment is saved and then the profit ratio divides by zero. `StorePayment` models this as the outcome `DivisionByZero`, and proves it unreachable on a consistent store.
- A refused stock decrease is not free of changes. The name, SKU and prices were saved before the check.

The date, the actor and the form input are parameters. The `due_amount` of a sale is `total - paid`.

## Model

| member | source | states |
|---|---|---|
| OwnerController.StorePayment | app/Http/Controllers/Owner/OwnerController.php:109-149 | An unknown sale, or an amount outside [0.01, due], changes nothing. Otherwise `paid` grows by exactly the amount. Then either (total 0) it fails at the division with no row written, or exactly one row is appended: next id, the sale, the amount, the day's next voucher, the proportional profit, and the actor. On a consistent store the failure cannot happen and consistency is kept. |
| OwnerController.AcceptablePayment | app/Http/Controllers/Owner/OwnerController.php:113-115 | Definition: `min:0.01\|max:due_amount`, meaning 0.01 <= amount <= total - paid. |
| OwnerController.VoucherRowOn | app/Http/Controllers/Owner/OwnerController.php:119-120 | Definition: the rows the voucher query looks at, `whereDate('created_at', today())` and `whereNotNull('payment_voucher_number')`. |
| OwnerController.LatestVoucher | app/Http/Controllers/Owner/OwnerController.php:119-124 | Definition: the voucher column of the latest voucher row of the day, or none. |
| OwnerController.NextPaymentVoucher | app/Http/Controllers/Owner/OwnerController.php:119-131 | Definition: `"PV-" + Ymd(today) + "-" + NextSuffix(latest voucher of today)`. |
| Store.ProfitShare | app/Http/Controllers/Owner/OwnerController.php:138-139 | Definition: `amount * (profit / total_amount)`, for a non-zero total. |
| OwnerController.ApplyPayment | app/Http/Controllers/Owner/OwnerController.php:133-149 | The steps after validation: the saved paid amount, then the division failure or the appended row. Consistency is preserved. |
| OwnerController.RecordRealization | app/Http/Controllers/Owner/OwnerController.php:133-149 | For a sale with a non-zero total: the new paid amount, the row with the given voucher and the profit share, and the counter raised by one. Consistency is preserved. |
| OwnerController.PaymentKeepsValid | app/Http/Controllers/Owner/OwnerController.php:134-149 | An accepted payment keeps `0 <= paid <= total`. It keeps every row consistent with its sale, and keeps each sale's recorded payments within its paid amount. |
| OwnerController.AcceptedSaleHasTotal | app/Http/Controllers/Owner/OwnerController.php:113-115 | On consistent sales, an amount that passes `min:0.01\|max:due` implies a positive total, so the division at line 138 is safe. |
| OwnerController.PaidForAppend | app/Http/Controllers/Owner/OwnerController.php:142-149 | Appending a row raises the payments recorded for its sale by its amount, and leaves other sales' totals unchanged. |
| OwnerController.ProfitSharesAddUp | app/Http/Controllers/Owner/OwnerController.php:137-139 | Any payments summing to a sale's total realise profit shares summing to exactly the sale's profit. |
| OwnerController.LatestVoucherRow | app/Http/Controllers/Owner/OwnerController.php:119-122 | Returns a row created on the day that carries a voucher and has the highest id among such rows, or returns none when the day has no such row. |
| OwnerController.LatestIsLastInTable | app/Http/Controllers/Owner/OwnerController.php:119-122 | With increasing ids, the latest voucher row of a day is the last such row in the table. |
| OwnerController.ConsecutiveVouchers | app/Http/Controllers/Owner/OwnerController.php:119-131 | After a row with voucher number n < 9999, the next voucher of the same day is numbered n + 1. |
| OwnerController.Dashboard | app/Http/Controllers/Owner/OwnerController.php:23-52 | Cash in hand is realised profit minus expenses, for today and for the month. On consistent sales the total due is non-negative and today's sales are at most the month's. With non-negative stock and prices, the stock value is non-negative. |
| OwnerController.TotalDueNonNegative | app/Http/Controllers/Owner/OwnerController.php:52 | The total due, summed over sales with `due_amount > 0`, is never negative. |
| OwnerController.InWindow | app/Http/Controllers/Owner/OwnerController.php:23-40 | Definition: a date lies in a day window when it is that day (`whereDate`), and in a month window when year and month match (`whereYear` and `whereMonth`). |
| OwnerController.MonthOf | app/Http/Controllers/Owner/OwnerController.php:29-40 | Definition: the month window of a date, `Carbon::now()->year` and `->month`. |
| OwnerController.SalesTotal | app/Http/Controllers/Owner/OwnerController.php:23-31 | Definition: sum of `total_amount` over the sales created in the window. |
| OwnerController.SalesProfit | app/Http/Controllers/Owner/OwnerController.php:24-34 | Definition: sum of `profit` over the sales created in the window. |
| OwnerController.RealizedProfit | app/Http/Controllers/Owner/OwnerController.php:25-37 | Definition: sum of `profit_amount` over the realization rows whose payment date lies in the window. |
| OwnerController.ExpensesTotal | app/Http/Controllers/Owner/OwnerController.php:26-40 | Definition: sum of `amount` over the expenses whose date lies in the window. |
| OwnerController.CashInHand | app/Http/Controllers/Owner/OwnerController.php:43-44 | Definition: realised profit minus expenses in the window. |
| OwnerController.StockValue | app/Http/Controllers/Owner/OwnerController.php:47-49 | Definition: sum of `current_stock * purchase_price` over all products. |
| OwnerController.TotalDue | app/Http/Controllers/Owner/OwnerController.php:52 | Definition: sum of `due_amount` over the sales whose `due_amount > 0`. |
| Sums.SumOf | app/Http/Controllers/Owner/OwnerController.php:23-52 | Definition: the `->sum(...)` of a per-row value over a table. |
| OwnerController.TotalDueIsOutstanding | app/Http/Controllers/Owner/OwnerController.php:52 | On consistent sales, the filter `due_amount > 0` changes nothing: the total due is the sum of `total - paid` over all sales. |
| OwnerController.PaymentLowersTotalDue | app/Http/Controllers/Owner/OwnerController.php:134-135 | An accepted payment lowers the dashboard's total due (line 52) by exactly its amount. |
| OwnerController.RowRaisesCashInHand | app/Http/Controllers/Owner/OwnerController.php:25-44 | A new realization row raises cash in hand by its profit in every window that contains its payment date, and in no other window. |
| OwnerController.DayWithinMonth | app/Http/Controllers/Owner/OwnerController.php:23-31 | On consistent sales, the day's sales total never exceeds that of its month. |
| OwnerController.StockValueNonNegative | app/Http/Controllers/Owner/OwnerController.php:47-49 | With non-negative stock and purchase prices, the stock value is non-negative. |
| Voucher.NextSuffix | app/Http/Controllers/Owner/OwnerController.php:124-129 | The sequence part is a digit string of at least 4 characters, so padding never truncates. After a truthy voucher its value is that of the voucher's last 4 characters plus 1; otherwise it is 1. |
| Voucher.Suffix | app/Http/Controllers/Owner/OwnerController.php:126 | Definition: `str_pad(n, 4, '0', STR_PAD_LEFT)`, the decimal form of n left-padded with zeros to 4 characters. |
| Voucher.FirstOfDay | app/Http/Controllers/Owner/OwnerController.php:127-131 | The first voucher of a day is `"PV-" + Ymd + "-0001"`. |
| Voucher.Ymd | app/Http/Controllers/Owner/OwnerController.php:118 | Definition: `format('Ymd')`, the year padded to 4 digits, then month and day each padded to 2. |
| Voucher.PaymentVoucher | app/Http/Controllers/Owner/OwnerController.php:131 | Definition: `"PV-" + date + "-" + suffix`. |
| Voucher.Truthy | app/Http/Controllers/Owner/OwnerController.php:124 | Definition: PHP truthiness of a string, meaning neither empty nor "0". |
| Voucher.SuffixIsTail | app/Http/Controllers/Owner/OwnerController.php:125-131 | A 4-digit sequence part is exactly the last 4 characters of its voucher and reads back as its number. |
| Voucher.NextAfter | app/Http/Controllers/Owner/OwnerController.php:125-126 | For n < 9999, the number after the voucher numbered n is the 4-digit form of n + 1. |
| Voucher.NumberingWraps | app/Http/Controllers/Owner/OwnerController.php:125-131 | After 9999 comes the 5-character "10000". Its last 4 characters read as 0, so the next number is "0001" and repeats the day's first voucher. |
| Voucher.AfterLastFourDigit | app/Http/Controllers/Owner/OwnerController.php:125-126 | The number after 9999 is "10000". |
| Voucher.AfterTenThousand | app/Http/Controllers/Owner/OwnerController.php:125-126 | The number after "10000" is "0001". |
| Voucher.WrapFrom | app/Http/Controllers/Owner/OwnerController.php:125-126 | A voucher that ends in four zeros is followed by number 1. |
| Voucher.YmdShape | app/Http/Controllers/Owner/OwnerController.php:118 | For a four-digit year, `format('Ymd')` gives 8 digits that read back as year, month and day. |
| Voucher.VoucherShape | app/Http/Controllers/Owner/OwnerController.php:131 | A voucher is 16 characters: "PV-", then the 8 date digits, then "-", then the 4 sequence digits. |
| Voucher.VoucherInjective | app/Http/Controllers/Owner/OwnerController.php:118-131 | Two vouchers (four-digit years, numbers below 10000) are equal only when they have the same date and the same number. |
| Digits.PadLeft | app/Http/Controllers/Owner/OwnerController.php:126 | `str_pad` left-pads to the width, keeps a longer string whole, and ends with the input. |
| Digits.LastChars | app/Http/Controllers/Owner/OwnerController.php:125 | `substr($s, -4)` gives the last 4 characters, or all of a shorter string, and is a suffix of the input. |
| Digits.DigitRun | app/Http/Controllers/Owner/OwnerController.php:125 | The `(int)` cast reads the longest leading run of digits. |
| Digits.IntCast | app/Http/Controllers/Owner/OwnerController.php:125 | Definition: `(int)` of a string, the value of its leading run of digits, or 0 when it has none. |
| Digits.Decimal | app/Http/Controllers/Owner/OwnerController.php:126 | An integer renders as at least one digit, with no leading zero when it is positive. |
| Digits.DecimalRoundTrip | app/Http/Controllers/Owner/OwnerController.php:125-126 | Reading back the decimal rendering of n gives n. |
| Digits.PaddedRoundTrip | app/Http/Controllers/Owner/OwnerController.php:125-126 | Zero-padding a rendered n gives digits that `(int)` reads back as n. The width is exact when n fits. |
| Store.Sale.Due | app/Http/Controllers/Owner/OwnerController.php:52 | Definition: a sale's `due_amount`, its total minus its paid amount, as summed at line 52 and bounded at line 114. |
| Store.FindSale | app/Http/Controllers/Owner/OwnerController.php:111 | Definition: `Sale::findOrFail($saleId)`, the position of the sale with the id, or none. |
| Store.FindProduct | app/Http/Controllers/Manager/ProductController.php:49-59 | Definition: the route binding of `Product $product`, the position of the product with the id, or none (also used at line 131). |
| Store.Find | app/Http/Controllers/Owner/OwnerController.php:111 | `findOrFail` returns the first row carrying the id, or fails when no row does. |
| Store.FindUnique | app/Http/Controllers/Owner/OwnerController.php:111 | With unique ids, a lookup by a row's id finds exactly that row. |
| Store.FindAfterUpdate | app/Http/Controllers/Owner/OwnerController.php:134-135 | Saving a sale under the same id moves no lookup. |
| Store.RealizedMatchesPaid | app/Http/Controllers/Owner/OwnerController.php:137-149 | On a consistent store, the realised profit of a sale is its payments times its profit ratio. Payments equal to the total realise exactly the profit. |
| Store.RowShare | app/Http/Controllers/Owner/OwnerController.php:138-139 | A consistent row carries its sale's ratio times its payment. |
| ProductController.GetBusinessId | app/Http/Controllers/Manager/ProductController.php:155-174 | Returns the user's truthy `business_id`, else the first business's id, else the id of a newly created "Default Business" (owner name or "Owner", phone, "N/A"). The id is stored on the user. Consistency is kept and the id is positive. |
| ProductController.HasBusinessId | app/Http/Controllers/Manager/ProductController.php:159 | Definition: `if ($user->business_id)`, meaning the column is set and not 0. |
| ProductController.CreatesBusiness | app/Http/Controllers/Manager/ProductController.php:163-168 | Definition: a business is created only when the user has no business id and `Business::first()` finds none. |
| ProductController.BusinessesAfter | app/Http/Controllers/Manager/ProductController.php:163-168 | Definition: the business table after `Business::first() ?: Business::create(...)`, with the default business appended only in the creating case. |
| ProductController.BusinessOf | app/Http/Controllers/Manager/ProductController.php:159-173 | Definition: the user's truthy `business_id`; otherwise the id of the first business; otherwise the next business id, the one the created business receives. `GetBusinessId`'s contract refers to it. |
| ProductController.BusinessIdIsStable | app/Http/Controllers/Manager/ProductController.php:155-174 | Once resolved on a consistent store, the id is positive and saved, so a later call returns the same id and creates nothing. |
| ProductController.Authorize | app/Http/Controllers/Manager/ProductController.php:49-57 | Access is missing exactly when no product has the id. It is granted only for a product whose business is the user's business; otherwise it is denied. This is the whole of `edit`. |
| ProductController.AuthorizeGrants | app/Http/Controllers/Manager/ProductController.php:52-54 | With unique ids, access is granted if and only if the product's business is the user's, and denied if and only if not. |
| ProductController.SkuTaken | app/Http/Controllers/Manager/ProductController.php:30-36 | Definition: `Rule::unique('products')` scoped to the business, which fails when some product of the business has the SKU, not counting the product whose id is ignored (`->ignore($product->id)`, line 76). |
| ProductController.Filled | app/Http/Controllers/Manager/ProductController.php:29-33 | Definition: `required\|string\|max:255` on a typed string, 1 to 255 characters. |
| ProductController.FormAccepted | app/Http/Controllers/Manager/ProductController.php:28-40 | Definition: name and SKU of 1 to 255 characters, an SKU not taken in the business, and both prices >= 0. The same rules apply at lines 68-79. |
| ProductController.DefaultBusiness | app/Http/Controllers/Manager/ProductController.php:163-168 | Definition: the created row, with name "Default Business", the user's name or "Owner", the user's phone, and address "N/A". |
| ProductController.NewProduct | app/Http/Controllers/Manager/ProductController.php:42-43 | Definition: the row `Product::create` inserts, with the next id, the resolved business, the validated fields and stock 0. |
| ProductController.Create | app/Http/Controllers/Manager/ProductController.php:24-47 | The business is resolved, or provisioned, before validation. A valid form (name and SKU of 1-255 characters, SKU unused in the business, prices >= 0) appends a product with the next id and stock 0; otherwise nothing more changes. The business counter rises by one exactly when a business is created. Consistency is kept. |
| ProductController.CreateKeepsProductsValid | app/Http/Controllers/Manager/ProductController.php:30-43 | A product that passes the per-business unique-SKU rule keeps SKUs unique within every business. |
| ProductController.SignedQuantity | app/Http/Controllers/Manager/ProductController.php:99-123 | Definition: the signed ledger quantity of a correction, +q for an increase and -q for a decrease. |
| ProductController.Update | app/Http/Controllers/Manager/ProductController.php:59-129 | The new product and ledger tables and the response are exactly `UpdateEffect` of the old ones. Users and businesses are unchanged. Consistency is kept. |
| ProductController.AdjustsStock | app/Http/Controllers/Manager/ProductController.php:93 | Definition: the actor is an owner, `adjust_type` is set, and `adjust_quantity` is set and > 0. |
| ProductController.UpdateEffect | app/Http/Controllers/Manager/ProductController.php:59-129 | Definition: 404 or 403 from the tenant check, `Invalid` on a failed validation, otherwise the save step. |
| ProductController.WithDetails | app/Http/Controllers/Manager/ProductController.php:85-90 | Definition: the product with name, SKU, purchase price and sell price replaced by the form's, as `$product->update([...])` writes them. |
| ProductController.SaveEffect | app/Http/Controllers/Manager/ProductController.php:84-125 | Definition: the details written; then, for an owner's correction, the stock moved by the signed quantity and one signed ledger row appended; a decrease below zero answers `InsufficientStock` and keeps the details. |
| ProductController.OwnerCorrection | app/Http/Controllers/Manager/ProductController.php:94-123 | For a granted, valid owner correction: an increase sets stock + q and appends the row (product, +q, submitted purchase price, actor, business); a decrease the stock covers sets stock - q (still >= 0) and appends the row with -q. The product keeps its new details and no other product changes. |
| ProductController.SaveUpdate | app/Http/Controllers/Manager/ProductController.php:84-125 | The details are written, then the owner's correction with its signed ledger row, exactly as `SaveEffect` says. |
| ProductController.UpdateGuard | app/Http/Controllers/Manager/ProductController.php:61-64 | A missing product answers 404. The answer is 403 exactly when another business owns the product. Neither, nor a failed validation, changes a table. |
| ProductController.OnlyOwnerAdjustsStock | app/Http/Controllers/Manager/ProductController.php:92-93 | Without an owner's correction (a direction and a quantity > 0), the ledger and every stock stay unchanged. |
| ProductController.RejectedDecreaseKeepsDetails | app/Http/Controllers/Manager/ProductController.php:85-112 | A decrease is refused exactly when it exceeds the stock. The refused update has still saved the new details, keeps the old stock and writes no ledger row. |
| ProductController.UpdateIsLedgered | app/Http/Controllers/Manager/ProductController.php:94-123 | For every product, the stock changes by exactly what the update adds to the ledger for it. |
| ProductController.UpdateKeepsProductsValid | app/Http/Controllers/Manager/ProductController.php:68-123 | An update keeps SKUs unique per business (its own row aside) and leaves the stock non-negative. |
| ProductController.UpdateStockValue | app/Http/Controllers/Manager/ProductController.php:85-123 | An update moves the stock value only by the product's own term: stock times purchase price, before and after. |
| ProductController.Destroy | app/Http/Controllers/Manager/ProductController.php:131-150 | The new product table and the response are exactly `DestroyEffect` of the old one. Consistency is kept. |
| ProductController.SoldAny | app/Http/Controllers/Manager/ProductController.php:139 | Definition: `$product->sales()->exists()`, meaning some sale references the product. |
| ProductController.DestroyEffect | app/Http/Controllers/Manager/ProductController.php:131-147 | Definition: 404 or 403 from the tenant check, then `HasSales`, then `HasStock` when the stock is > 0, otherwise the row is removed. |
| ProductController.DestroyGuards | app/Http/Controllers/Manager/ProductController.php:133-147 | The checks run in order: the tenant check, then "has sales", then "has stock" (each an if-and-only-if). Only a deletion changes the table, and a deleted product had no sales. |
| ProductController.DestroyKeepsProductsValid | app/Http/Controllers/Manager/ProductController.php:147 | Removing a product keeps the product rules. |
| ProductController.DestroyKeepsStockValue | app/Http/Controllers/Manager/ProductController.php:143-147 | On a consistent store a deleted product had no stock, so the dashboard's stock value is unchanged. |

## Left out

- I/O and presentation are not modelled: redirects, flash and error messages, views, route prefixes and the 404/403 pages. Each action returns a `Response` value instead.
- `now()`, `today()` and `auth()` are parameters: the date `today`, the acting user's id, and their row in `users`.
- Money is exact `real`. Floating-point rounding of amounts and of the profit ratio is not modelled.
- Concurrency is not modelled. Two payments that read the same latest voucher at the same time would get the same number; the model is sequential.
- `Digits.DigitRun`: the `(int)` cast reads only a leading run of digits. Leading whitespace, signs and exponent forms are not modelled, because every voucher this code writes ends in a sequence part of at least four digits.
- Request plumbing is not modelled: the `required`/`numeric`/`string` rules on missing or non-numeric fields, and the trimming of input strings. The form arrives typed, with strings as given.
- `adjust_quantity` is a natural number. A fractional quantity, which `numeric|min:0` would let through, is not modelled.
- The strict `!==` tenant comparison is modelled as equality of ids. Differences between PHP's int and string column types are not modelled.
- `due_amount` is taken to be `total - paid`. How the Sale model keeps that column in step is not part of this model.
- Relation navigation with no invariant is not modelled: the dashboard's manager and salesman counts, its lists of due customers and recent sales, and the actions `dueCustomers`, `recordPayment`, `paymentVoucher`, `allSales`, `index` and `create`.
- `Create`, `Update`, `Destroy`: these require a consistent store (`Db.Valid()`). On such a store the `getBusinessId` call inside `update` returns the product's own business and changes nothing; that is proved, not assumed. The provisioning path is modelled in `GetBusinessId` and `Create`.
- `SkuTaken`: SKUs are compared by exact string equality. The database collation that `Rule::unique`'s query compares with (for example, ignoring case or trailing spaces) is not modelled.
- `Create`: a new product's `current_stock` is 0, the column default. The migration that sets it is not part of this model.
