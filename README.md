# Retail mock backend: catalog, inventory, offers and pickup reservations

This project models the stock and pricing logic of a mock retail service in Dafny, and proves properties of that model. The service is a small HTTP app in a single file, `app.py`. Its handlers share one in-memory product catalog, one customer list and one inventory ledger. The model covers five handlers:

- **Recommendation filter** (`recommend`). It walks the catalog in stored order and drops a product that is over the budget or lacks the requested size. It computes a category test and then ignores it. Survivors are scored 0.90, 0.85, 0.80, ... (kept here in hundredths: 90 − 5k). If nothing survives, it returns the first three products at 0.50.
- **Inventory aggregator** (`inventory_check`). For a SKU it computes an online total and a total per physical store label. A requested preferred store is inserted with 0 when it had no rows. It then derives the fulfillment options: ship-to-home, then click-and-collect.
- **Offer calculator** (`offers_apply`). The base total is Σ price·qty. An unknown SKU costs 0 and a missing qty counts as 1. Gold customers get a 5% discount, truncated. The WELCOME50 coupon takes a flat 50. The final price is floored at 0, and one loyalty point is given per 100.
- **Reservation manager** (`fulfillment_reserve`). It finds the first ledger row with the exact SKU, the store equal up to case, and stock left. It takes one unit from that row in place and returns a pickup code and an ETA. When no row fits, it returns a 409 slot-unavailable outcome carrying two alternative times.
- **Support responder** (`support_query`). A keyword classifier: return/refund wins over track/where, and anything else gets the default answer.

Layout, one module per file:

- `optional.dfy`: `Optional`. An option type for absent request fields.
- `text.dfy`: `Text`. ASCII lower-casing, substring search proved equal to "occurs somewhere", and split/join on a separator with both round trips.
- `catalog.dfy`: `Catalog`. Products, filters, the recommendation loop and its reference definition.
- `inventory.dfy`: `Inventory`. Ledger rows and the aggregation's reference sums.
- `reservation.dfy`: `Reservation`. First-fit lookup, the one-unit decrement, pickup codes, and lemmas about repeated reservations.
- `ledger.dfy`: `Stock`. The class `Ledger` holds the ledger rows as its one mutable field. `Check` only reads it; `Reserve` updates one row in place.
- `offers.dfy`: `Offers`. Cart pricing and discounts.
- `support.dfy`: `Support`. The keyword classifier.
- `fallback.dfy`: `Fallback`. The built-in records the service uses when no data files exist, and concrete scenarios over them, proved.

Modelling choices:

- Python's truthiness tests are modelled literally:
  - a `budget_max` of 0 is ignored;
  - an empty `size`, `category`, `user_id` or `preferred_store` counts as absent;
  - an empty question falls through to the issue.
- Prices and ledger quantities are `nat`. A cart quantity is an unvalidated `int`, because the handler does not check it.
- `int(base_total * 0.05)` is modelled exactly as truncation toward zero of 5·base/100. It is therefore the floor of 5% for a non-negative base, and differs from the floor only for a negative base (which a negative quantity can produce).
- The clock is one injected reading `now`, in seconds. The random identifier is an injected sequence of 32 hex digits.

Behaviour kept as the code has it:

- No lock guards the reservation's read-then-decrement. The model covers sequential calls only.
- The fulfillment options are an ordered list, not a set.
- A numeric budget of 0 disables the budget filter.
- Cart quantities are not required to be positive.

## Model

| member | source | states |
|---|---|---|
| Text.Lower | app.py:145 | lower-casing keeps the length, leaves no upper-case ASCII letter, changes only A–Z and shifts each of those to its lower-case letter |
| Text.LowerIdempotent | app.py:201 | lower-casing a lowered string changes nothing, so comparing lowered labels is a stable case-insensitive test |
| Text.ContainsIffOccurs | app.py:112 | the substring search succeeds exactly when the needle occurs at some position of the text (both directions) |
| Text.Split | app.py:109 | splitting on the size separator gives at least one piece, and no piece contains the separator |
| Text.JoinSplit | app.py:109 | joining the split pieces with the size separator gives back the original size string |
| Text.SplitJoin | app.py:109 | splitting a separator-join of separator-free pieces gives back exactly those pieces |
| Catalog.Recommend | app.py:99-134 | the loop's result is the reference recommendation (ranked survivors, or the fallback), and it is never empty for a non-empty catalog |
| Catalog.SurvivorsArePicks | app.py:106-117 | the survivors are exactly the products passing the budget and size tests, at strictly increasing catalog positions |
| Catalog.RankedCandidates | app.py:110-124 | when something survives, candidate k is the k-th admitted product with score 90 − 5k; it is within the budget and offers the requested size |
| Catalog.FallbackIsTopThree | app.py:126-133 | when no product is admitted, the result is the first min(3, n) products at score 50, whatever the filters |
| Catalog.CategoryIsAdvisory | app.py:112-114 | the result is the same with or without a category filter |
| Catalog.NoFiltersKeepEverything | app.py:106-124 | with no filters every product survives, and product k scores 90 − 5k |
| Inventory.OptionsFor | app.py:154-158 | ship-to-home is offered iff online stock is positive and click-and-collect iff some store total is positive, ship-to-home first |
| Inventory.ScanOneMore | app.py:141-149 | scanning one more row adds its qty to the online total or to its own store's total and to nothing else, and adds its store label only when it is a physical store for the SKU |
| Inventory.TallySkip | app.py:142-146 | a row for another SKU, or an online row, leaves the per-store map equal to the per-store totals |
| Inventory.TallyAdd | app.py:147-149 | adding a physical-store row's qty to its entry (created at 0 if missing) keeps the map's keys equal to the scanned store labels and each entry equal to its store's total |
| Inventory.TallyPreferred | app.py:151-152 | inserting a missing preferred store at 0 adds exactly that key and keeps every entry equal to its store's total |
| Inventory.OnlineStockPositive | app.py:145-146 | the online total is positive exactly when some online row for the SKU has stock |
| Inventory.StoreStockPositive | app.py:147-149 | a store's total is positive exactly when some row for the SKU at that store label has stock |
| Inventory.StoreStockOutside | app.py:151-152 | a store with no rows for the SKU has total 0, which is the value the preferred store is inserted with |
| Inventory.OnlineLabelOnlyPreferred | app.py:151-152 | an online-channel label is a key of the per-store map only when it is the preferred store inserted at 0, and its value is then 0 |
| Inventory.ReportTotals | app.py:141-158 | the finished totals give: online total positive iff some online row has stock, some store value positive iff some physical-store row has stock, and online labels only as the preferred store at 0 |
| Inventory.ClickAndCollectIffStocked | app.py:157-158 | some per-store value is positive exactly when some physical-store row for the SKU has stock |
| Stock.Ledger.constructor | app.py:38-43 | the ledger starts holding exactly the loaded rows |
| Stock.Ledger.Check | app.py:137-159 | online total and per-store totals equal the reference sums; the map's keys are the SKU's store labels plus the preferred store, and an online-channel label appears only as the preferred store, at 0; each option is present iff a matching stocked row exists, in fixed order; the ledger is only read |
| Reservation.Outcome.Status | app.py:211 | the status is 409 exactly for the slot-unavailable outcome |
| Reservation.FirstFit | app.py:199-204 | the chosen row fits (SKU, store up to case, stock left), and no earlier row fits; with no choice, no row fits |
| Reservation.TakeOne | app.py:213 | the decrement keeps SKU, store and size, takes exactly one unit from a stocked row, and leaves an empty row at 0 (the floor at zero) |
| Reservation.PickupCode | app.py:214 | the code is six upper-case hex digits spelling the identifier's first six digits |
| Reservation.Alternatives | app.py:207-210 | exactly two alternatives, 24 and 48 hours after the call |
| Reservation.NoFitIffNoStock | app.py:199-205 | no row fits exactly when the store holds no units of the SKU |
| Reservation.TakeOneAvailable | app.py:213 | decrementing a stocked row lowers by one the units of every SKU/store pair that row serves and no other pair's units |
| Reservation.ReserveTakesOne | app.py:212-213 | a successful reservation lowers the pair's units by one and leaves every other pair's units unchanged |
| Reservation.DrainSucceedsUpToStock | app.py:199-213 | n repeated reservations succeed min(n, stock) times and consume one unit per success, so stock is never over-committed |
| Reservation.SingleUnitReservedOnce | app.py:199-213 | with one unit available, the first reservation succeeds and the next finds nothing |
| Stock.Ledger.Reserve | app.py:196-216 | success iff a fitting row exists; then the first fitting row loses one unit and every other row is unchanged, with code and ETA now + 2h returned; otherwise the ledger is unchanged and the outcome carries the two alternatives |
| Offers.FirstMatch | app.py:168 | the result is the first element whose key equals the given one (the product for a SKU here, and the customer for a user id at app.py:175); none exactly when no element has that key |
| Offers.LoyaltyDiscount | app.py:177 | for a non-negative base the discount is the floor of 5% of it; for a negative base it is minus the floor of 5% of the magnitude |
| Offers.Discounts | app.py:171-181 | one loyalty entry iff Gold, one coupon entry of 50 iff WELCOME50, loyalty first |
| Offers.DiscountsTotal | app.py:176-181 | the total discount is the loyalty amount (Gold) plus 50 (WELCOME50) |
| Offers.FinalPrice | app.py:182 | the final price is never negative, and is either 0 or base minus total discount |
| Offers.ApplyOffers | app.py:162-184 | base total equals Σ unit price × quantity; the discounts and final price follow the rules above; points are the floor of final price / 100 |
| Offers.CartTotalAppend | app.py:165-170 | one more cart line adds its unit price times its quantity to the base total |
| Offers.UnknownSkuIsFree | app.py:168-169 | a line for a SKU not in the catalog adds nothing to the base total |
| Offers.CartTotalMonotone | app.py:165-170 | raising one line's quantity never lowers the base total |
| Offers.FinalPriceMonotone | app.py:176-182 | for a fixed customer and coupon, a larger base total never gives a smaller final price |
| Offers.FinalPriceBounds | app.py:182 | the final price lies between 0 and max(0, base total) |
| Support.SupportQuery | app.py:219-227 | returns policy iff the text mentions "return" or "refund"; tracking note iff not that but "track" or "where"; the default answer otherwise |
| Support.QuestionTakesPrecedence | app.py:221 | a non-empty question is classified without looking at the issue |
| Fallback.SneakersShipOnly | app.py:38-43 | on the fallback ledger SNK010 has 5 units online, no store rows, and only ship-to-home |
| Fallback.UnknownSkuUnstocked | app.py:38-43 | on the fallback ledger a SKU with no rows has nothing online and no store totals |
| Fallback.RefundQuestionIsReturns | app.py:221-223 | the question "Where is my refund?" mentions a refund once lower-cased, so it is classified as a returns question |
| Fallback.ShirtInStoreOnly | app.py:38-43 | on the fallback ledger SH123 has nothing online, 1 unit at Indiranagar and 0 at MallX |
| Fallback.GoldShirtWithCoupon | app.py:30-48 | a Gold customer buying one SH123 with WELCOME50 pays 1799 − 89 − 50 = 1660 |
| Fallback.ShirtReservedOnce | app.py:38-43 | the single SH123 at Indiranagar is reserved once (store in any case); the next attempt finds nothing |
| Fallback.UnfilteredScores | app.py:30-36 | without filters all five fallback products come back, scored 90, 85, 80, 75, 70 |
| Fallback.TightBudgetFallsBack | app.py:30-36 | a budget of 500 excludes every product, so the first three come back at score 50 |

## Left out

- The HTTP layer is not modelled: FastAPI setup, routes, the pydantic request models and `/health` (app.py:7-10, 62-96). A request field becomes a parameter, and an optional field becomes an `Option`.
- CSV and policy-file loading (app.py:13-59) is file I/O. The built-in fallback records are modelled as constants in `Fallback`.
- `payment_process` (app.py:186-193) is not modelled. Its decision is a float comparison, and its transaction id comes from `uuid4`.
- Random identifiers and the clock are injected as parameters. The source reads the clock twice on the unavailable path (app.py:208-209) and once on the success path (app.py:215); the model uses a single reading `now` for both alternatives.
- Floating point is idealised. The score is integer hundredths, not `round(0.9 - 0.05k, 2)`. The loyalty discount is exact 5·base/100 truncated toward zero; this agrees with `int(base * 0.05)` for an integer base of magnitude below about 2^48, and a larger base, where the float product loses precision, is not modelled. Points are an exact floor division of a non-negative final price.
- Concurrency is not modelled. The source has no lock around the reservation's read-then-decrement, and the model covers sequential calls only.
- String-to-int coercion and its parse errors are not modelled: prices, quantities and budgets are typed integers. A raw budget that is truthy but converts to 0 (the string "0", a float such as 0.5) makes app.py:110 drop every product priced above 0, whereas the model's `Some(0)` turns the filter off.
- Prices and ledger quantities are `nat`, but the source keeps the loaded fields as strings and calls `int()` at each read (app.py:107, 144, 169, 202), so it accepts negative prices and quantities from a data file; the model does not represent them.
- A cart line without a `sku` key is not modelled separately; it prices at 0, like an unknown SKU.
- `Lower` covers ASCII letters only. Python's `str.lower` also folds non-ASCII letters.
- `Stock.Ledger.Check` and `Stock.Ledger.Reserve`: `inventory_check` accepts a `size`, and `fulfillment_reserve` accepts a `slot` and a `user_contact`. The source never uses any of them, so the model accepts and ignores them too.
- The recommendation's `user_profile` input is unused by the source and is not a parameter of the model.
