/**
 * `POST /jobs/fetch-latest`: refreshes every product's price from the fetcher.
 *
 * A product whose fetch is unknown, or equals its current price exactly, is
 * skipped. Any other product gets the fetched price as its current price,
 * `now` as its last-checked time, one new history row, and an alert
 * evaluation. The job returns how many products it processed, how many it
 * updated and how many alerts it created.
 *
 * The job as written overwrites the current price before it evaluates the
 * alert, so the evaluation always sees the new price among the recorded ones
 * and never alerts. `FetchLatestPricesJob` models that code.
 * `FetchLatestPricesJobEvaluatingFirst` evaluates first, which is what the job's
 * description promises. It is the corrected half of the finding.
 */
module Jobs {
  import opened Query
  import opened Models
  import opened Services

  /** The job's change test: a known fetched price that differs from the current price, or there is no current price. */
  predicate Changed(p: Product, latest: Option<Price>) {
    latest.Some? && (p.currentPrice.None? || latest.value != p.currentPrice.value)
  }

  /** One product after the job: the fetched price and `now` when it changed, untouched otherwise. */
  function Refreshed(p: Product, fetch: Fetcher, now: Timestamp): Product {
    if Changed(p, fetch(p)) then p.(currentPrice := fetch(p), lastChecked := now) else p
  }

  /** The products table after the job. */
  function RefreshAll(ps: seq<Product>, fetch: Fetcher, now: Timestamp): (r: seq<Product>)
    ensures |r| == |ps|
    ensures forall k :: 0 <= k < |ps| ==>
      r[k].id == ps[k].id && r[k].name == ps[k].name && r[k].url == ps[k].url
    ensures forall k :: 0 <= k < |ps| && !Changed(ps[k], fetch(ps[k])) ==> r[k] == ps[k]
    ensures forall k :: 0 <= k < |ps| && Changed(ps[k], fetch(ps[k])) ==>
      r[k].currentPrice == fetch(ps[k]) && r[k].lastChecked == now
  {
    seq(|ps|, k requires 0 <= k < |ps| => Refreshed(ps[k], fetch, now))
  }

  /** How many of the first `n` products the job updates: its `updated` counter after `n` iterations. */
  function CountChanged(ps: seq<Product>, n: nat, fetch: Fetcher): (c: nat)
    requires n <= |ps|
    ensures c <= n
  {
    if n == 0 then 0
    else CountChanged(ps, n - 1, fetch) + (if Changed(ps[n - 1], fetch(ps[n - 1])) then 1 else 0)
  }

  /** The history row the job appends for one product: none, or the fetched price at `now`. */
  function RowFor(p: Product, fetch: Fetcher, now: Timestamp, rowId: RowId): seq<PriceHistory> {
    if Changed(p, fetch(p)) then [PriceHistory(rowId, p.id, fetch(p).value, now)] else []
  }

  /** The history rows the job appends for the first `n` products, in product order, with consecutive keys from `firstId`. */
  function NewRows(ps: seq<Product>, n: nat, fetch: Fetcher, now: Timestamp, firstId: RowId): (r: seq<PriceHistory>)
    requires n <= |ps|
    ensures |r| == CountChanged(ps, n, fetch)
  {
    if n == 0 then []
    else NewRows(ps, n - 1, fetch, now, firstId) + RowFor(ps[n - 1], fetch, now, firstId + CountChanged(ps, n - 1, fetch))
  }

  /**
   * The alert decision the corrected job makes for a product: the fetched price
   * is known and the evaluator, shown the prices recorded in `h`, calls it a
   * new minimum.
   */
  function NewLow(h: seq<PriceHistory>, fetch: Fetcher): Product -> bool {
    (p: Product) => fetch(p).Some? && ShouldAlert(EvaluatorPrices(p, h), fetch(p).value)
  }

  /** The alert the corrected job creates for one product: none, or one at the fetched price. */
  function AlertFor(p: Product, isLow: Product -> bool, fetch: Fetcher, now: Timestamp, alertId: RowId): seq<Alert> {
    if Changed(p, fetch(p)) && isLow(p)
    then [Alert(alertId, p.id, fetch(p).value, now, Some(NewLowestPrice(fetch(p).value)))]
    else []
  }

  /** The alerts the corrected job creates for the first `n` products, in product order, with consecutive keys from `firstId`. */
  function NewAlerts(ps: seq<Product>, n: nat, isLow: Product -> bool, fetch: Fetcher, now: Timestamp, firstId: RowId): seq<Alert>
    requires n <= |ps|
  {
    if n == 0 then []
    else
      NewAlerts(ps, n - 1, isLow, fetch, now, firstId) +
      AlertFor(ps[n - 1], isLow, fetch, now, firstId + |NewAlerts(ps, n - 1, isLow, fetch, now, firstId)|)
  }

  /** The corrected job creates at most one alert per updated product. */
  lemma {:induction false} NewAlertsAtMostUpdated(ps: seq<Product>, n: nat, isLow: Product -> bool, fetch: Fetcher, now: Timestamp, firstId: RowId)
    requires n <= |ps|
    ensures |NewAlerts(ps, n, isLow, fetch, now, firstId)| <= CountChanged(ps, n, fetch)
  {
    if n > 0 {
      NewAlertsAtMostUpdated(ps, n - 1, isLow, fetch, now, firstId);
    }
  }

  /**
   * The intended rule for one product: an alert exactly when its price changed
   * to a value strictly below every price recorded in `h` (none recorded
   * included), and then one alert, at that price and `now`.
   */
  lemma AlertForIffBelowAllRecorded(p: Product, h: seq<PriceHistory>, fetch: Fetcher, now: Timestamp, alertId: RowId)
    ensures AlertFor(p, NewLow(h, fetch), fetch, now, alertId) != [] <==>
      Changed(p, fetch(p)) && forall x :: x in EvaluatorPrices(p, h) ==> fetch(p).value < x
    ensures AlertFor(p, NewLow(h, fetch), fetch, now, alertId) != [] ==>
      AlertFor(p, NewLow(h, fetch), fetch, now, alertId) ==
        [Alert(alertId, p.id, fetch(p).value, now, Some(NewLowestPrice(fetch(p).value)))]
  {
    if fetch(p).Some? {
      ShouldAlertIffBelowAll(EvaluatorPrices(p, h), fetch(p).value);
    }
  }

  /** The history invariant of the loop, carried over one product. */
  lemma HistoryStep(ps: seq<Product>, fetch: Fetcher, now: Timestamp, firstId: RowId, i: nat,
                    h0: seq<PriceHistory>, h1: seq<PriceHistory>, p: Product, n: RowId, h2: seq<PriceHistory>)
    requires i < |ps| && p == ps[i] && n == firstId + CountChanged(ps, i, fetch)
    requires h1 == h0 + NewRows(ps, i, fetch, now, firstId)
    requires h2 == h1 + RowFor(p, fetch, now, n)
    ensures h2 == h0 + NewRows(ps, i + 1, fetch, now, firstId)
  {
    AppendAssoc(h0, NewRows(ps, i, fetch, now, firstId), RowFor(p, fetch, now, n));
  }

  /** The alerts invariant of the corrected loop, carried over one product. */
  lemma AlertsStep(ps: seq<Product>, isLow: Product -> bool, isLowNow: Product -> bool, fetch: Fetcher, now: Timestamp,
                   firstId: RowId, i: nat, a0: seq<Alert>, a1: seq<Alert>, p: Product, n: RowId, a2: seq<Alert>)
    requires i < |ps| && p == ps[i] && n == firstId + |NewAlerts(ps, i, isLow, fetch, now, firstId)|
    requires isLowNow(p) == isLow(p)
    requires a1 == a0 + NewAlerts(ps, i, isLow, fetch, now, firstId)
    requires a2 == a1 + AlertFor(p, isLowNow, fetch, now, n)
    ensures a2 == a0 + NewAlerts(ps, i + 1, isLow, fetch, now, firstId)
  {
    assert AlertFor(p, isLowNow, fetch, now, n) == AlertFor(p, isLow, fetch, now, n);
    AppendAssoc(a0, NewAlerts(ps, i, isLow, fetch, now, firstId), AlertFor(p, isLow, fetch, now, n));
  }

  /** The products table one step further into the loop. */
  lemma RefreshAllStep(ps: seq<Product>, fetch: Fetcher, now: Timestamp, i: nat)
    requires i < |ps|
    ensures RefreshAll(ps[..i + 1], fetch, now) + ps[i + 1..] ==
      (RefreshAll(ps[..i], fetch, now) + ps[i..])[i := Refreshed(ps[i], fetch, now)]
  {
    var a := RefreshAll(ps[..i + 1], fetch, now) + ps[i + 1..];
    var b := (RefreshAll(ps[..i], fetch, now) + ps[i..])[i := Refreshed(ps[i], fetch, now)];
    assert |a| == |b|;
    forall k | 0 <= k < |a| ensures a[k] == b[k] {
      if k < i {
        assert a[k] == Refreshed(ps[..i + 1][k], fetch, now);
      }
    }
  }

  /**
   * The products, history, counter and key invariants of either job's loop,
   * carried over one product: a step that refreshes the product at position
   * `i` and appends its row takes the state after `i` products to the state
   * after `i + 1`.
   */
  lemma JobStep(ps: seq<Product>, fetch: Fetcher, now: Timestamp, h0: seq<PriceHistory>, firstId: RowId, i: nat,
                updated: nat, changed: bool,
                ps1: seq<Product>, h1: seq<PriceHistory>, n1: RowId,
                ps2: seq<Product>, h2: seq<PriceHistory>, n2: RowId)
    requires i < |ps| && ps1 == RefreshAll(ps[..i], fetch, now) + ps[i..]
    requires updated == CountChanged(ps, i, fetch)
    requires h1 == h0 + NewRows(ps, i, fetch, now, firstId) && n1 == firstId + updated
    requires changed == Changed(ps1[i], fetch(ps1[i]))
    requires ps2 == ps1[i := Refreshed(ps1[i], fetch, now)]
    requires h2 == h1 + RowFor(ps1[i], fetch, now, n1) && n2 == n1 + |h2| - |h1|
    ensures ps2 == RefreshAll(ps[..i + 1], fetch, now) + ps[i + 1..]
    ensures updated + (if changed then 1 else 0) == CountChanged(ps, i + 1, fetch)
    ensures h2 == h0 + NewRows(ps, i + 1, fetch, now, firstId)
    ensures n2 == firstId + CountChanged(ps, i + 1, fetch)
  {
    assert ps1[i] == ps[i];
    RefreshAllStep(ps, fetch, now, i);
    HistoryStep(ps, fetch, now, firstId, i, h0, h1, ps[i], n1, h2);
  }

  /**
   * The alerts invariant of the corrected loop, carried over one product: the
   * product is judged against the history before the run, since the rows
   * appended so far belong to other products.
   */
  lemma CorrectedAlertsStep(ps: seq<Product>, fetch: Fetcher, now: Timestamp, h0: seq<PriceHistory>, firstId: RowId,
                            a0: seq<Alert>, alertId: RowId, i: nat,
                            h1: seq<PriceHistory>, a1: seq<Alert>, m1: RowId, a2: seq<Alert>)
    requires StrictlyIncreasing(ps, ProductKey) && i < |ps|
    requires h1 == h0 + NewRows(ps, i, fetch, now, firstId)
    requires a1 == a0 + NewAlerts(ps, i, NewLow(h0, fetch), fetch, now, alertId)
    requires m1 == alertId + |NewAlerts(ps, i, NewLow(h0, fetch), fetch, now, alertId)|
    requires a2 == a1 + AlertFor(ps[i], NewLow(h1, fetch), fetch, now, m1)
    ensures a2 == a0 + NewAlerts(ps, i + 1, NewLow(h0, fetch), fetch, now, alertId)
    ensures |NewAlerts(ps, i + 1, NewLow(h0, fetch), fetch, now, alertId)| ==
      |NewAlerts(ps, i, NewLow(h0, fetch), fetch, now, alertId)| + (if |a2| > |a1| then 1 else 0)
  {
    EvaluationSeesHistoryBeforeRun(ps, h0, fetch, now, firstId, i);
    AlertsStep(ps, NewLow(h0, fetch), NewLow(h1, fetch), fetch, now, alertId, i, a0, a1, ps[i], m1, a2);
  }

  /** A product keeps its own url, which no other product can hold. */
  lemma OwnUrlNotTaken(ps: seq<Product>, nextId: ProductId, k: nat)
    requires ProductsValid(ps, nextId) && k < |ps|
    ensures !UrlTaken(ps, ps[k].url, ps[k].id)
  {
  }

  /**
   * The loop body of the job as written, for the product at position `k`:
   * fetch, skip when unknown or unchanged, otherwise overwrite the current
   * price and last-checked time, then evaluate the alert against the
   * refreshed product and append the history row. The session does not flush
   * on its own and the row is attached by its foreign key only, so the
   * product's history as the evaluator reads it does not hold the new row yet;
   * the evaluation is modelled before the insert for that reason.
   */
  method RefreshProduct(db: Session, k: nat, fetch: Fetcher, now: Timestamp)
    returns (updated: bool, alert: Option<Alert>)
    requires db.Valid() && k < |db.products|
    modifies db
    ensures db.Valid()
    ensures updated == Changed(old(db.products[k]), fetch(old(db.products[k])))
    ensures db.products == old(db.products)[k := Refreshed(old(db.products[k]), fetch, now)]
    ensures db.history == old(db.history) + RowFor(old(db.products[k]), fetch, now, old(db.nextHistoryId))
    ensures db.nextHistoryId == old(db.nextHistoryId) + |db.history| - |old(db.history)|
    ensures alert == None && db.alerts == old(db.alerts)
    ensures db.nextProductId == old(db.nextProductId) && db.nextAlertId == old(db.nextAlertId)
  {
    var p := db.products[k];
    var latest := fetch(p);
    if latest.None? {
      return false, None;
    }
    updated := p.currentPrice.None? || latest.value != p.currentPrice.value;
    if !updated {
      return false, None;
    }
    OwnUrlNotTaken(db.products, db.nextProductId, k);
    p := p.(currentPrice := Some(latest.value), lastChecked := now);
    db.UpdateProduct(k, p);
    assert db.products[k] in db.products;
    CurrentPriceBlocksAlert(p, db.history, p.currentPrice.value);
    alert := MaybeCreateAlert(db, p, p.currentPrice.value, now);
    var _ := db.InsertPriceHistory(p.id, p.currentPrice.value, now);
  }

  /**
   * `fetch_latest_prices_job` as written. Every product is processed; exactly
   * the changed ones are updated, each with one history row; no alert is ever
   * created.
   */
  method FetchLatestPricesJob(db: Session, fetch: Fetcher, now: Timestamp)
    returns (processed: nat, updated: nat, alertsCreated: nat)
    requires db.Valid()
    modifies db
    ensures db.Valid()
    ensures processed == |old(db.products)|
    ensures updated == CountChanged(old(db.products), |old(db.products)|, fetch)
    ensures alertsCreated == 0
    ensures db.products == RefreshAll(old(db.products), fetch, now)
    ensures db.history == old(db.history) + NewRows(old(db.products), |old(db.products)|, fetch, now, old(db.nextHistoryId))
    ensures db.alerts == old(db.alerts)
    ensures db.nextHistoryId == old(db.nextHistoryId) + updated
    ensures db.nextProductId == old(db.nextProductId) && db.nextAlertId == old(db.nextAlertId)
  {
    var products := db.products;
    ghost var history0, rowId0 := db.history, db.nextHistoryId;
    updated, alertsCreated := 0, 0;
    for i := 0 to |products|
      invariant db.Valid()
      invariant db.products == RefreshAll(products[..i], fetch, now) + products[i..]
      invariant updated == CountChanged(products, i, fetch)
      invariant db.history == history0 + NewRows(products, i, fetch, now, rowId0)
      invariant db.nextHistoryId == rowId0 + updated
      invariant db.alerts == old(db.alerts) && alertsCreated == 0
      invariant db.nextProductId == old(db.nextProductId) && db.nextAlertId == old(db.nextAlertId)
    {
      ghost var ps1, h1, n1 := db.products, db.history, db.nextHistoryId;
      var changed, alert := RefreshProduct(db, i, fetch, now);
      JobStep(products, fetch, now, history0, rowId0, i, updated, changed, ps1, h1, n1, db.products, db.history, db.nextHistoryId);
      alertsCreated := alertsCreated + if alert.Some? then 1 else 0;
      if changed {
        updated := updated + 1;
      }
    }
    assert products[..|products|] == products;
    processed := |products|;
  }

  lemma {:induction false} NoneChangedCountsZero(ps: seq<Product>, n: nat, fetch: Fetcher)
    requires n <= |ps|
    requires forall k :: 0 <= k < n ==> !Changed(ps[k], fetch(ps[k]))
    ensures CountChanged(ps, n, fetch) == 0
  {
    if n > 0 {
      NoneChangedCountsZero(ps, n - 1, fetch);
    }
  }

  /**
   * Running the job a second time, with a fetcher that gives every product the
   * value it got the first time, updates nothing, appends no history row and
   * leaves every product as the first run left it.
   */
  lemma SecondRunChangesNothing(ps: seq<Product>, fetch1: Fetcher, fetch2: Fetcher, now1: Timestamp, now2: Timestamp, firstId: RowId)
    requires forall k :: 0 <= k < |ps| ==> fetch2(RefreshAll(ps, fetch1, now1)[k]) == fetch1(ps[k])
    ensures CountChanged(RefreshAll(ps, fetch1, now1), |ps|, fetch2) == 0
    ensures NewRows(RefreshAll(ps, fetch1, now1), |ps|, fetch2, now2, firstId) == []
    ensures RefreshAll(RefreshAll(ps, fetch1, now1), fetch2, now2) == RefreshAll(ps, fetch1, now1)
  {
    var qs := RefreshAll(ps, fetch1, now1);
    forall k | 0 <= k < |qs| ensures !Changed(qs[k], fetch2(qs[k])) {
      assert fetch2(qs[k]) == fetch1(ps[k]);
    }
    NoneChangedCountsZero(qs, |qs|, fetch2);
  }

  /** A run over products none of which has key `id` appends no row for `id`. */
  lemma {:induction false} NewRowsAvoid(ps: seq<Product>, n: nat, fetch: Fetcher, now: Timestamp, firstId: RowId, id: ProductId)
    requires n <= |ps|
    requires forall k :: 0 <= k < n ==> ps[k].id != id
    ensures RowsOf(NewRows(ps, n, fetch, now, firstId), id) == []
  {
    if n > 0 {
      NewRowsAvoid(ps, n - 1, fetch, now, firstId, id);
      NewRowsOfNotLast(ps, n, fetch, now, firstId, id);
    }
  }

  /** A run over products none of which has key `id` creates no alert for `id`. */
  lemma {:induction false} NewAlertsAvoid(ps: seq<Product>, n: nat, isLow: Product -> bool, fetch: Fetcher, now: Timestamp, firstId: RowId, id: ProductId)
    requires n <= |ps|
    requires forall k :: 0 <= k < n ==> ps[k].id != id
    ensures AlertsOf(NewAlerts(ps, n, isLow, fetch, now, firstId), id) == []
  {
    if n > 0 {
      NewAlertsAvoid(ps, n - 1, isLow, fetch, now, firstId, id);
      NewAlertsOfNotLast(ps, n, isLow, fetch, now, firstId, id);
    }
  }

  /** The alerts a single product contributes, seen from another key: none. */
  lemma AlertsOfOtherAlertFor(p: Product, isLow: Product -> bool, fetch: Fetcher, now: Timestamp, alertId: RowId, id: ProductId)
    requires p.id != id
    ensures AlertsOf(AlertFor(p, isLow, fetch, now, alertId), id) == []
  {
  }

  /** In a table with increasing keys, every other position holds another key. */
  lemma OthersDiffer(ps: seq<Product>, k: nat)
    requires StrictlyIncreasing(ps, ProductKey) && k < |ps|
    ensures forall j :: 0 <= j < |ps| && j != k ==> ps[j].id != ps[k].id
  {
    forall j | 0 <= j < |ps| && j != k ensures ps[j].id != ps[k].id {
      if j < k {
        assert ProductKey(ps[j]) < ProductKey(ps[k]);
      } else {
        assert ProductKey(ps[k]) < ProductKey(ps[j]);
      }
    }
  }

  /** The rows a single product contributes, seen from its own key. */
  lemma RowsOfRowFor(p: Product, fetch: Fetcher, now: Timestamp, rowId: RowId)
    ensures RowsOf(RowFor(p, fetch, now, rowId), p.id) == RowFor(p, fetch, now, rowId)
  {
  }

  /** The alerts a single product contributes, seen from its own key. */
  lemma AlertsOfAlertFor(p: Product, isLow: Product -> bool, fetch: Fetcher, now: Timestamp, alertId: RowId)
    ensures AlertsOf(AlertFor(p, isLow, fetch, now, alertId), p.id) == AlertFor(p, isLow, fetch, now, alertId)
  {
  }

  /** The last product's rows among the appended ones: its own row, if any. */
  lemma NewRowsOfLast(ps: seq<Product>, k: nat, fetch: Fetcher, now: Timestamp, firstId: RowId)
    requires k < |ps|
    requires forall j :: 0 <= j < k ==> ps[j].id != ps[k].id
    ensures RowsOf(NewRows(ps, k + 1, fetch, now, firstId), ps[k].id) ==
      RowFor(ps[k], fetch, now, firstId + CountChanged(ps, k, fetch))
  {
    var before := NewRows(ps, k, fetch, now, firstId);
    var tail := RowFor(ps[k], fetch, now, firstId + CountChanged(ps, k, fetch));
    NewRowsAvoid(ps, k, fetch, now, firstId, ps[k].id);
    RowsOfRowFor(ps[k], fetch, now, firstId + CountChanged(ps, k, fetch));
    RowsOfTail(NewRows(ps, k + 1, fetch, now, firstId), before, tail, ps[k].id);
  }

  /** A product's rows are not affected by the row a later product adds. */
  lemma NewRowsOfNotLast(ps: seq<Product>, n: nat, fetch: Fetcher, now: Timestamp, firstId: RowId, id: ProductId)
    requires 0 < n <= |ps| && ps[n - 1].id != id
    ensures RowsOf(NewRows(ps, n, fetch, now, firstId), id) == RowsOf(NewRows(ps, n - 1, fetch, now, firstId), id)
  {
    var before := NewRows(ps, n - 1, fetch, now, firstId);
    var tail := RowFor(ps[n - 1], fetch, now, firstId + CountChanged(ps, n - 1, fetch));
    RowsOfNone(tail, id);
    RowsOfHead(NewRows(ps, n, fetch, now, firstId), before, tail, id);
  }

  /**
   * Each product's rows among the appended ones: exactly one, at the fetched
   * price and `now`, when the product changed, and none otherwise. Only the
   * product's key has to be unique, as the products table guarantees.
   */
  lemma {:induction false} NewRowsOfProduct(ps: seq<Product>, n: nat, fetch: Fetcher, now: Timestamp, firstId: RowId, k: nat)
    requires k < n <= |ps|
    requires forall j :: 0 <= j < |ps| && j != k ==> ps[j].id != ps[k].id
    ensures RowsOf(NewRows(ps, n, fetch, now, firstId), ps[k].id) ==
      RowFor(ps[k], fetch, now, firstId + CountChanged(ps, k, fetch))
  {
    if n == k + 1 {
      NewRowsOfLast(ps, k, fetch, now, firstId);
    } else {
      NewRowsOfProduct(ps, n - 1, fetch, now, firstId, k);
      NewRowsOfNotLast(ps, n, fetch, now, firstId, ps[k].id);
    }
  }

  /** Seen from one key, a table is its tail when the head holds no row for the key and the tail only such rows. */
  lemma RowsOfTail(all: seq<PriceHistory>, before: seq<PriceHistory>, tail: seq<PriceHistory>, id: ProductId)
    requires all == before + tail
    requires RowsOf(before, id) == [] && RowsOf(tail, id) == tail
    ensures RowsOf(all, id) == tail
  {
    RowsOfAppend(before, tail, id);
    assert [] + tail == tail;
  }

  /** Seen from one key, a table is its head when the tail holds no row for the key. */
  lemma RowsOfHead(all: seq<PriceHistory>, before: seq<PriceHistory>, tail: seq<PriceHistory>, id: ProductId)
    requires all == before + tail
    requires RowsOf(tail, id) == []
    ensures RowsOf(all, id) == RowsOf(before, id)
  {
    RowsOfAppend(before, tail, id);
    assert RowsOf(before, id) + [] == RowsOf(before, id);
  }

  /** The last product's alerts among the created ones: its own alert, if any. */
  lemma NewAlertsOfLast(ps: seq<Product>, k: nat, isLow: Product -> bool, fetch: Fetcher, now: Timestamp, firstId: RowId)
    requires k < |ps|
    requires forall j :: 0 <= j < k ==> ps[j].id != ps[k].id
    ensures AlertsOf(NewAlerts(ps, k + 1, isLow, fetch, now, firstId), ps[k].id) ==
      AlertFor(ps[k], isLow, fetch, now, firstId + |NewAlerts(ps, k, isLow, fetch, now, firstId)|)
  {
    var before := NewAlerts(ps, k, isLow, fetch, now, firstId);
    var tail := AlertFor(ps[k], isLow, fetch, now, firstId + |before|);
    NewAlertsAvoid(ps, k, isLow, fetch, now, firstId, ps[k].id);
    AlertsOfAlertFor(ps[k], isLow, fetch, now, firstId + |before|);
    AlertsOfTail(NewAlerts(ps, k + 1, isLow, fetch, now, firstId), before, tail, ps[k].id);
  }

  /** A product's alerts are not affected by the alert a later product may add. */
  lemma NewAlertsOfNotLast(ps: seq<Product>, n: nat, isLow: Product -> bool, fetch: Fetcher, now: Timestamp, firstId: RowId, id: ProductId)
    requires 0 < n <= |ps| && ps[n - 1].id != id
    ensures AlertsOf(NewAlerts(ps, n, isLow, fetch, now, firstId), id) ==
      AlertsOf(NewAlerts(ps, n - 1, isLow, fetch, now, firstId), id)
  {
    var before := NewAlerts(ps, n - 1, isLow, fetch, now, firstId);
    var tail := AlertFor(ps[n - 1], isLow, fetch, now, firstId + |before|);
    AlertsOfOtherAlertFor(ps[n - 1], isLow, fetch, now, firstId + |before|, id);
    AlertsOfHead(NewAlerts(ps, n, isLow, fetch, now, firstId), before, tail, id);
  }

  /**
   * Each product's alerts among the ones the corrected job creates: exactly
   * `AlertFor` of that product, which `AlertForIffBelowAllRecorded` describes.
   */
  lemma {:induction false} NewAlertsOfProduct(ps: seq<Product>, n: nat, isLow: Product -> bool, fetch: Fetcher, now: Timestamp, firstId: RowId, k: nat)
    requires k < n <= |ps|
    requires forall j :: 0 <= j < |ps| && j != k ==> ps[j].id != ps[k].id
    ensures AlertsOf(NewAlerts(ps, n, isLow, fetch, now, firstId), ps[k].id) ==
      AlertFor(ps[k], isLow, fetch, now, firstId + |NewAlerts(ps, k, isLow, fetch, now, firstId)|)
  {
    if n == k + 1 {
      NewAlertsOfLast(ps, k, isLow, fetch, now, firstId);
    } else {
      NewAlertsOfProduct(ps, n - 1, isLow, fetch, now, firstId, k);
      NewAlertsOfNotLast(ps, n, isLow, fetch, now, firstId, ps[k].id);
    }
  }

  /** Seen from one key, a table is its tail when the head holds no alert for the key and the tail only such alerts. */
  lemma AlertsOfTail(all: seq<Alert>, before: seq<Alert>, tail: seq<Alert>, id: ProductId)
    requires all == before + tail
    requires AlertsOf(before, id) == [] && AlertsOf(tail, id) == tail
    ensures AlertsOf(all, id) == tail
  {
    AlertsOfAppend(before, tail, id);
    assert [] + tail == tail;
  }

  /** Seen from one key, a table is its head when the tail holds no alert for the key. */
  lemma AlertsOfHead(all: seq<Alert>, before: seq<Alert>, tail: seq<Alert>, id: ProductId)
    requires all == before + tail
    requires AlertsOf(tail, id) == []
    ensures AlertsOf(all, id) == AlertsOf(before, id)
  {
    AlertsOfAppend(before, tail, id);
    assert AlertsOf(before, id) + [] == AlertsOf(before, id);
  }

  /** Rows of other products do not change what the evaluator sees for this one. */
  lemma EvaluatorPricesIgnoreOtherRows(p: Product, h: seq<PriceHistory>, extra: seq<PriceHistory>)
    requires RowsOf(extra, p.id) == []
    ensures EvaluatorPrices(p, h + extra) == EvaluatorPrices(p, h)
  {
    RowsOfAppend(h, extra, p.id);
    assert RowsOf(h + extra, p.id) == RowsOf(h, p.id);
  }

  /**
   * The rows the run has already appended belong to earlier products, so the
   * evaluation of each product sees exactly the prices recorded before the run.
   */
  lemma EvaluationSeesHistoryBeforeRun(ps: seq<Product>, h: seq<PriceHistory>, fetch: Fetcher, now: Timestamp, firstId: RowId, i: nat)
    requires StrictlyIncreasing(ps, ProductKey) && i < |ps|
    ensures EvaluatorPrices(ps[i], h + NewRows(ps, i, fetch, now, firstId)) == EvaluatorPrices(ps[i], h)
    ensures NewLow(h + NewRows(ps, i, fetch, now, firstId), fetch)(ps[i]) == NewLow(h, fetch)(ps[i])
  {
    OthersDiffer(ps, i);
    NewRowsAvoid(ps, i, fetch, now, firstId, ps[i].id);
    EvaluatorPricesIgnoreOtherRows(ps[i], h, NewRows(ps, i, fetch, now, firstId));
  }

  /**
   * The loop body with the evaluation moved first: the alert is judged on the
   * product as stored and the history as it stands, before either is written.
   */
  method RefreshProductEvaluatingFirst(db: Session, k: nat, fetch: Fetcher, now: Timestamp)
    returns (updated: bool, alert: Option<Alert>)
    requires db.Valid() && k < |db.products|
    modifies db
    ensures db.Valid()
    ensures updated == Changed(old(db.products[k]), fetch(old(db.products[k])))
    ensures db.products == old(db.products)[k := Refreshed(old(db.products[k]), fetch, now)]
    ensures db.history == old(db.history) + RowFor(old(db.products[k]), fetch, now, old(db.nextHistoryId))
    ensures db.nextHistoryId == old(db.nextHistoryId) + |db.history| - |old(db.history)|
    ensures db.alerts == old(db.alerts) + AlertFor(old(db.products[k]), NewLow(old(db.history), fetch), fetch, now, old(db.nextAlertId))
    ensures alert.Some? <==> |db.alerts| > |old(db.alerts)|
    ensures db.nextAlertId == old(db.nextAlertId) + |db.alerts| - |old(db.alerts)|
    ensures db.nextProductId == old(db.nextProductId)
  {
    var p := db.products[k];
    var latest := fetch(p);
    if latest.None? {
      return false, None;
    }
    updated := p.currentPrice.None? || latest.value != p.currentPrice.value;
    if !updated {
      return false, None;
    }
    assert db.products[k] in db.products;
    alert := MaybeCreateAlert(db, p, latest.value, now);
    OwnUrlNotTaken(db.products, db.nextProductId, k);
    p := p.(currentPrice := Some(latest.value), lastChecked := now);
    db.UpdateProduct(k, p);
    assert db.products[k] in db.products;
    var _ := db.InsertPriceHistory(p.id, latest.value, now);
  }

  /**
   * The job with the evaluation moved before the writes, as its description
   * intends: products and history end as in `FetchLatestPricesJob`, and the
   * alerts created are exactly `NewAlerts`, judged against the prices recorded
   * before the run.
   */
  method FetchLatestPricesJobEvaluatingFirst(db: Session, fetch: Fetcher, now: Timestamp)
    returns (processed: nat, updated: nat, alertsCreated: nat)
    requires db.Valid()
    modifies db
    ensures db.Valid()
    ensures processed == |old(db.products)|
    ensures updated == CountChanged(old(db.products), |old(db.products)|, fetch)
    ensures db.products == RefreshAll(old(db.products), fetch, now)
    ensures db.history == old(db.history) + NewRows(old(db.products), |old(db.products)|, fetch, now, old(db.nextHistoryId))
    ensures db.alerts == old(db.alerts) +
      NewAlerts(old(db.products), |old(db.products)|, NewLow(old(db.history), fetch), fetch, now, old(db.nextAlertId))
    ensures alertsCreated ==
      |NewAlerts(old(db.products), |old(db.products)|, NewLow(old(db.history), fetch), fetch, now, old(db.nextAlertId))|
    ensures alertsCreated <= updated <= processed
    ensures db.nextHistoryId == old(db.nextHistoryId) + updated
    ensures db.nextAlertId == old(db.nextAlertId) + alertsCreated
    ensures db.nextProductId == old(db.nextProductId)
  {
    var products := db.products;
    ghost var history0, rowId0 := db.history, db.nextHistoryId;
    ghost var alerts0, alertId0 := db.alerts, db.nextAlertId;
    updated, alertsCreated := 0, 0;
    for i := 0 to |products|
      invariant db.Valid()
      invariant db.products == RefreshAll(products[..i], fetch, now) + products[i..]
      invariant updated == CountChanged(products, i, fetch)
      invariant db.history == history0 + NewRows(products, i, fetch, now, rowId0)
      invariant db.nextHistoryId == rowId0 + updated
      invariant db.alerts == alerts0 + NewAlerts(products, i, NewLow(history0, fetch), fetch, now, alertId0)
      invariant alertsCreated == |NewAlerts(products, i, NewLow(history0, fetch), fetch, now, alertId0)|
      invariant db.nextAlertId == alertId0 + alertsCreated
      invariant StrictlyIncreasing(products, ProductKey)
      invariant db.nextProductId == old(db.nextProductId)
    {
      ghost var ps1, h1, n1 := db.products, db.history, db.nextHistoryId;
      ghost var a1, m1 := db.alerts, db.nextAlertId;
      assert ps1[i] == products[i];
      var changed, alert := RefreshProductEvaluatingFirst(db, i, fetch, now);
      JobStep(products, fetch, now, history0, rowId0, i, updated, changed, ps1, h1, n1, db.products, db.history, db.nextHistoryId);
      CorrectedAlertsStep(products, fetch, now, history0, rowId0, alerts0, alertId0, i, h1, a1, m1, db.alerts);
      if alert.Some? {
        alertsCreated := alertsCreated + 1;
      }
      if changed {
        updated := updated + 1;
      }
    }
    assert products[..|products|] == products;
    NewAlertsAtMostUpdated(products, |products|, NewLow(history0, fetch), fetch, now, alertId0);
    processed := |products|;
  }

  /** Two runs of the job as written, the second with a fetcher that repeats the first one's answers. */
  method RunJobTwice(db: Session, fetch1: Fetcher, fetch2: Fetcher, now1: Timestamp, now2: Timestamp)
    returns (first: nat, second: nat)
    requires db.Valid()
    requires forall k :: 0 <= k < |db.products| ==>
      fetch2(RefreshAll(db.products, fetch1, now1)[k]) == fetch1(db.products[k])
    modifies db
    ensures db.Valid()
    ensures first == CountChanged(old(db.products), |old(db.products)|, fetch1) && second == 0
    ensures db.products == RefreshAll(old(db.products), fetch1, now1)
    ensures db.history == old(db.history) + NewRows(old(db.products), |old(db.products)|, fetch1, now1, old(db.nextHistoryId))
    ensures db.alerts == old(db.alerts)
    ensures db.nextHistoryId == old(db.nextHistoryId) + first
    ensures db.nextProductId == old(db.nextProductId) && db.nextAlertId == old(db.nextAlertId)
  {
    var ps := db.products;
    var _, updated1, _ := FetchLatestPricesJob(db, fetch1, now1);
    var h1 := db.history;
    SecondRunChangesNothing(ps, fetch1, fetch2, now1, now2, db.nextHistoryId);
    var _, updated2, _ := FetchLatestPricesJob(db, fetch2, now2);
    assert db.history == h1 + [];
    first, second := updated1, updated2;
  }

  // The scenarios of a widget first created at price 100 (history row 1).

  const Widget: Product := Product(1, "Widget", None, Some(100), 0)
  const WidgetHistory: seq<PriceHistory> := [PriceHistory(1, 1, 100, 0)]

  function Always(price: Price): Fetcher { (p: Product) => Some(price) }

  /**
   * The fetched 90 is below every recorded price, so the description calls for
   * an alert. The job as written evaluates the refreshed product (current price
   * 90) and finds no drop, whether or not it sees the new row.
   */
  lemma DropIsMissedAsWritten()
    ensures ShouldAlert(EvaluatorPrices(Widget, WidgetHistory), 90)
    ensures Refreshed(Widget, Always(90), 5).currentPrice == Some(90)
    ensures !ShouldAlert(EvaluatorPrices(Refreshed(Widget, Always(90), 5), WidgetHistory), 90)
    ensures !ShouldAlert(EvaluatorPrices(Refreshed(Widget, Always(90), 5),
                                         WidgetHistory + NewRows([Widget], 1, Always(90), 5, 2)), 90)
  {
    ShouldAlertIffBelowAll(EvaluatorPrices(Widget, WidgetHistory), 90);
    CurrentPriceBlocksAlert(Refreshed(Widget, Always(90), 5), WidgetHistory, 90);
    CurrentPriceBlocksAlert(Refreshed(Widget, Always(90), 5),
                            WidgetHistory + NewRows([Widget], 1, Always(90), 5, 2), 90);
  }

  /** Evaluating first, the drop to 90 raises exactly one alert, at 90. */
  lemma DropIsAlertedWhenEvaluatedFirst()
    ensures NewAlerts([Widget], 1, NewLow(WidgetHistory, Always(90)), Always(90), 5, 1) ==
      [Alert(1, 1, 90, 5, Some(NewLowestPrice(90)))]
  {
    ShouldAlertIffBelowAll(EvaluatorPrices(Widget, WidgetHistory), 90);
  }

  /** After the drop to 90, a rise to 95 is not below the minimum 90 and raises nothing. */
  lemma RiseIsNotAlerted()
    ensures NewAlerts([Refreshed(Widget, Always(90), 5)], 1,
                      NewLow(WidgetHistory + [PriceHistory(2, 1, 90, 5)], Always(95)), Always(95), 9, 2) == []
  {
    var p := Refreshed(Widget, Always(90), 5);
    NotBelowSomeRecordedPriceNoAlert(p, WidgetHistory + [PriceHistory(2, 1, 90, 5)], 95, 90);
  }
}
