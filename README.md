# PriceSense price tracker: a Dafny model of the store, its endpoints and the price job

PriceSense keeps three tables:

- products, each with a name, an optional unique url, an optional current price and a last-checked time;
- price-history rows, each one observed price of a product;
- alerts, each one detected price drop of a product.

The model has five modules:

- `Models` (`models.dfy`): the three tables as datatypes and the constraints the schema puts on them. These are the primary keys, the unique nullable url, the non-null foreign keys from history rows and alerts to their product, and nullability carried by `Option`. The class `Session` is the store. It holds the committed tables and the next primary key of each table. Its methods insert, update and cascade-delete rows, and each keeps the constraints.
- `Query` (`query.dfy`): the two query shapes the endpoints use, filtering a table and ordering it on a column.
- `Services` (`services.py`'s alert rule, in `services.dfy`):
  - the prices the evaluator compares against, which are the product's history prices followed by its current price;
  - the rule itself: alert when nothing is recorded, or when the new price is strictly below the minimum;
  - `MaybeCreateAlert`, which applies the rule to the store.
- `Routers` (`routers.dfy`): the product and alert endpoints. Each is one atomic transition that returns `Ok`, or `Err(NotFound)` for a missing id, or `Err(UniqueViolation)` for a url that another product already holds.
- `Jobs` (`jobs.dfy`): `POST /jobs/fetch-latest`, in two versions.
  - `FetchLatestPricesJob` is the job as written. It is proved never to alert.
  - `FetchLatestPricesJobEvaluatingFirst` is the job its description asks for. It evaluates the alert before it overwrites the current price.
  - Both are loops over the products and carry invariants. Each is specified by functions over the products as they were before the run: `RefreshAll`, `CountChanged`, `NewRows` and `NewAlerts`.

The price fetcher is a parameter of type `Product -> Option<Price>`. The clock is a parameter `now`.

## Model

| member | source | states |
|---|---|---|
| Models.Session.constructor | backend/src/api/models.py:10-85 | An empty store satisfies every schema constraint. |
| Models.Session.InsertProduct | backend/src/api/models.py:15-17 | Appends the product under a fresh key that is larger than every key before. Requires that no other product holds the url. Keeps url uniqueness and every other constraint. Touches no other table. |
| Models.Session.InsertPriceHistory | backend/src/api/models.py:48-55 | Appends one row for an existing product under a fresh key. Touches no other table. Keeps the foreign key. |
| Models.Session.InsertAlert | backend/src/api/models.py:70-78 | Appends one alert for an existing product under a fresh key. Touches no other table. Keeps the foreign key. |
| Models.Session.UpdateProduct | backend/src/api/models.py:15-21 | Replaces one product row and keeps its key. Every foreign key still resolves, and urls stay unique. |
| Models.Session.DeleteCascade | backend/src/api/models.py:24-35 | Removing a product also removes exactly its history rows and alerts, by the cascade on the foreign keys. All constraints still hold afterwards. |
| Models.CascadeKeepsTables | backend/src/api/models.py:49-51 | After a cascade delete, keys still increase, urls stay unique, and every remaining history row and alert references a remaining product. |
| Models.CascadeKeepsProducts | backend/src/api/models.py:15-17 | Deleting one product keeps the products table valid. Every other product is still present. |
| Models.SameKeys | backend/src/api/models.py:15 | Rewriting a product row that keeps its key leaves the set of product keys the same. |
| Models.RowsOfMembers | backend/src/api/models.py:24-29 | A product's `price_history` holds exactly the history rows whose foreign key is that product. |
| Models.RowsOfAppend | backend/src/api/models.py:24-29 | The history rows of a product in a table extended by more rows are its old rows followed by its new ones. |
| Models.AlertsOfMembers | backend/src/api/models.py:30-35 | A product's `alerts` holds exactly the alerts whose foreign key is that product. |
| Query.FilterMembers | backend/src/api/routers.py:163-166 | A filter keeps exactly the rows that satisfy its condition. |
| Query.FilterKeepsIncreasing | backend/src/api/models.py:15 | Removing rows keeps the primary keys strictly increasing. |
| Query.SortBy | backend/src/api/routers.py:166 | An order-by result is ascending on the column and is a permutation of its input. |
| Query.Insert | backend/src/api/routers.py:166 | Inserting one row into an ascending sequence keeps it ascending and adds exactly that row. |
| Services.EvaluatorPrices | backend/src/api/services.py:44-46 | A price is compared against iff it is the price of one of the product's history rows or its current price. The list is empty iff the product has no history and no current price. |
| Services.MinIsLeast | backend/src/api/services.py:48 | `min` returns one of the prices, and no price is below it. |
| Services.ShouldAlertIffBelowAll | backend/src/api/services.py:48 | Alerting on an empty list or below the minimum is the same as the new price being strictly below every recorded price. |
| Services.FirstPriceAlwaysAlerts | backend/src/api/services.py:44-48 | With no history and no current price, any new price alerts. |
| Services.CurrentPriceBlocksAlert | backend/src/api/services.py:45-48 | A new price equal to the current price never alerts. |
| Services.NotBelowSomeRecordedPriceNoAlert | backend/src/api/services.py:48 | A new price at or above any recorded price never alerts. |
| Services.MaybeCreateAlert | backend/src/api/services.py:34-58 | An alert is created iff the rule holds on the history and current price. When one is created, it is exactly one row: this product, the new price, the current time and the new-lowest-price message. Otherwise the result is None and the alerts are unchanged. Products and history are never changed. |
| Routers.GetProductOr404 | backend/src/api/routers.py:62-66 | Finds the product with the id iff one exists and returns its position. Otherwise returns NotFound. |
| Routers.GetProduct | backend/src/api/routers.py:74-81 | Returns NotFound iff there is no product with that id. Otherwise returns that product with its nested price history and alerts: each is exactly the product's rows, each row once and in table order, and they hold a row iff its foreign key is the product. The store is read only. |
| Routers.CreateProduct | backend/src/api/routers.py:41-59 | Inserts the product, checked now. Appends exactly one history row, at the given price and now, iff an initial price is given. Creates no alert. The product key counter moves by one, the history key counter by the number of rows added, and the alert key counter not at all. A url already in use is rejected and changes nothing. |
| Routers.MergedIdempotent | backend/src/api/routers.py:100-103 | Applying the same update payload twice gives what applying it once gives. |
| Routers.MergedNeverClears | backend/src/api/routers.py:100-103 | An absent payload field never clears a present url or price. |
| Routers.ApplyUpdate | backend/src/api/routers.py:100-103 | The loop over name, url and current price copies exactly the fields present in the payload. |
| Routers.UpdateOutcome | backend/src/api/routers.py:97-106 | Returns NotFound iff the id is absent, and UniqueViolation iff the merged url belongs to another product. Otherwise returns the stored product with the present fields merged and last-checked set to now. |
| Routers.UpdateProductPut | backend/src/api/routers.py:91-108 | The product becomes the update outcome, and nothing else changes. History, alerts and every key counter stay unchanged, even when the price changes. Any error leaves the store unchanged. |
| Routers.UpdateProductPatch | backend/src/api/routers.py:118-124 | The same contract as PUT. |
| Routers.DeleteProduct | backend/src/api/routers.py:136-146 | Returns NotFound iff the id is absent, and then nothing changes. Otherwise removes the product and exactly its history rows and alerts, and the key counters stay as they were. |
| Routers.CascadeRemovesExactlyTheProduct | backend/src/api/models.py:24-35 | After the cascade the id has no product, history row or alert. Every row of every other product remains. |
| Routers.GetPriceHistory | backend/src/api/routers.py:157-169 | Returns NotFound iff the id is absent. Otherwise returns exactly the product's history rows, as a permutation, ascending by timestamp. |
| Routers.ListAlerts | backend/src/api/routers.py:179-182 | Returns every alert, as a permutation, in descending order of trigger time. |
| Jobs.RefreshAll | backend/src/api/routers.py:203-210 | A product whose fetch is unknown or equal to its current price is unchanged. Any other product gets the fetched price and last-checked now. Keys, names and urls never change. |
| Jobs.CountChanged | backend/src/api/routers.py:215 | After n products the updated count is at most n. |
| Jobs.NewRows | backend/src/api/routers.py:211 | The job appends exactly one history row per updated product. |
| Jobs.NewRowsOfProduct | backend/src/api/routers.py:208-211 | Among the rows a run appends, a product holds exactly one row, at the fetched price and now, when it was updated. Otherwise it holds none. |
| Jobs.RefreshProduct | backend/src/api/routers.py:204-214 | One loop step as written. The product is updated only when the fetch is known and differs from the current price, and then exactly one history row is appended. The evaluation sees the already-overwritten current price and the product's history without the unflushed new row. No alert is created, because the new price is then among the recorded prices. |
| Jobs.FetchLatestPricesJob | backend/src/api/routers.py:191-218 | Processed is the number of products, and updated is the number of changed products. The products become `RefreshAll`, and the history gains exactly `NewRows`. alerts_created is 0 and the alerts are unchanged on every run. The history key counter moves by the updated count, and the other counters stay. |
| Jobs.SecondRunChangesNothing | backend/src/api/routers.py:208 | A second run whose fetcher repeats the first run's values updates nothing, appends no row and leaves the products as they were. |
| Jobs.RunJobTwice | backend/src/api/routers.py:199-218 | Two runs in a row: the second updates nothing and adds no history row or alert. Only the history key counter moves, by the first run's updated count. |
| Jobs.NewAlertsAtMostUpdated | backend/src/api/routers.py:213-215 | The corrected job creates at most as many alerts as it updates products. |
| Jobs.AlertForIffBelowAllRecorded | backend/src/api/services.py:44-48 | The corrected job alerts for a product iff the product was updated and the fetched price is strictly below every recorded price. |
| Jobs.NewAlertsOfProduct | backend/src/api/routers.py:212-214 | Among the corrected run's alerts, a product holds exactly one alert at the fetched price when it was updated and the price is a new low. Otherwise it holds none. |
| Jobs.EvaluationSeesHistoryBeforeRun | backend/src/api/services.py:44 | Rows the run appends for earlier products do not change what the evaluator sees for the current one. |
| Jobs.RefreshProductEvaluatingFirst | backend/src/api/routers.py:204-215 | The corrected loop step writes the products and history as the written one does. The alert is judged on the product's prices before the write. |
| Jobs.FetchLatestPricesJobEvaluatingFirst | backend/src/api/routers.py:189-218 | The corrected job writes the same products and history as the written one. Its alerts are exactly one per updated product whose fetched price is a new low against the prices recorded before the run. alerts_created ≤ updated ≤ processed. The history and alert key counters move by updated and alerts_created. |
| Jobs.DropIsMissedAsWritten | backend/src/api/routers.py:209-212 | A widget at 100 with history [100] fetched at 90 should alert under the rule. The job as written, evaluating after the overwrite, does not alert, with or without the new row. |
| Jobs.DropIsAlertedWhenEvaluatedFirst | backend/src/api/routers.py:197 | In the same scenario the corrected job creates exactly one alert, at 90. |
| Jobs.RiseIsNotAlerted | backend/src/api/services.py:48 | After the drop to 90, a rise to 95 creates no alert. |

## Left out

- `PricingService.fetch_latest_price`'s formula (services.py:15-31) is not modelled. It depends on float rounding and the wall-clock minute, so the fetcher is an arbitrary function from a product to an optional price, fixed for one run of the job.
- Prices are exact integers (cents) rather than floats. Only exact equality, `<` and `min` are used on them, so NaN and rounding are outside the model.
- The alert message is the value `NewLowestPrice(price)` rather than its formatted text, because the text is float-to-string formatting.
- Session mechanics (add, flush, commit, refresh, lazy loading) are not modelled. Each endpoint is one atomic transition. The session factory has `autoflush=False` (db.py:22), and the job attaches its new history row by `product_id` only (routers.py:211). So `product.price_history` at services.py:44 does not hold that row, and `Jobs.RefreshProduct` evaluates against the history before the insert. `Services.CurrentPriceBlocksAlert`, which holds for any history, shows the outcome would be the same either way.
- Times are one clock reading `now` per call. The source reads `utcnow()` separately for `last_checked` and for the history timestamp, and again for every product of the job (routers.py:210-211), so its readings drift over the whole loop. `triggered_at` is not set by the code at all. It is the database's `CURRENT_TIMESTAMP` default (models.py:76), which SQLite records to the second and which may differ from the other readings.
- Primary keys come from counters that never reuse a value. SQLite may reuse the largest key after a delete, which the model does not capture.
- Rows with equal sort keys come back in table order. The database leaves their order unspecified.
- The job processes the products in table order. `db.query(models.Product).all()` (routers.py:199) has no `order_by`, so the database may return another order. That order fixes which keys `NewRows` and `NewAlerts` give to the new history rows and alerts, though not which rows and alerts are created.
- Cascade deletion and the foreign-key constraints (`HistoryValid`, `AlertsValid`, `Models.Session.DeleteCascade`, `Routers.DeleteProduct`) assume a database that enforces the declared foreign keys and their `ON DELETE CASCADE` (models.py:50, 72). The default SQLite database (db.py:12-19) never turns on `PRAGMA foreign_keys`, and both relationships set `passive_deletes=True` (models.py:28, 34), so SQLAlchemy leaves unloaded children to the database. On that configuration `delete_product` removes only the product row and leaves its history rows and alerts behind, referencing a missing key. The model does not capture that.
- The nested `price_history` and `alerts` of the `ProductRead` response (schemas.py:68-72) are modelled for `Routers.GetProduct` only. `Routers.CreateProduct` and the update endpoints return the product row alone, because their nested lists are the same store read as in `GetProduct`.
- Primary keys are natural numbers. `_get_product_or_404` (routers.py:62-66) also accepts a negative path id and answers it with a 404; a product id in the model is a `nat`, so that call, whose only outcome is the 404, cannot be expressed.
- Of the ways a flush or commit can fail, only the unique-url violation is modelled. For `create_product` it is raised by the flush at routers.py:50, before the commit. It is an `Err` that leaves the store unchanged, which corresponds to the rolled-back transaction.
- `list_products` (routers.py:27-30) is a plain read of every product, and the model has nothing to prove about it beyond the store itself.
- HTTP and FastAPI wiring, CORS, the health check, table creation at startup (main.py, db.py), Pydantic validation (schemas.py), OpenAPI generation and the import smoke test are not modelled. They are plumbing, file I/O and process exit. Of schemas.py only the shape is kept: `ProductCreate` requires a name, and every `ProductUpdate` field is optional.
- Indexes (models.py:37-40, 60-62, 83-85) are not modelled because they do not change behaviour.

## Findings

| source | as written | input that shows it | evidently intended | confidence | as-written member | corrected member |
|---|---|---|---|---|---|---|
| backend/src/api/routers.py:209-212 | The job overwrites `current_price` with the fetched price (line 209) before it calls `maybe_create_alert` (line 212). The evaluator includes `current_price` among the recorded prices (services.py:45-46), so `new_price < min(...)` cannot hold and the job never creates an alert. | A product at 100 with history [100], fetched at 90: the rule asks for an alert, and the job creates none. | The evaluation sees the prices recorded before the update, as the job's description (line 189) and docstring (line 197) say: alert on a new lowest price. | not executed | Jobs.DropIsMissedAsWritten | Jobs.DropIsAlertedWhenEvaluatedFirst |
