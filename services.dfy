/**
 * The alert rule. A product's recorded prices are the prices of its history
 * rows followed by its current price when it has one; a new price raises an
 * alert when there are no recorded prices at all or when it lies strictly
 * below their minimum.
 *
 * The price fetcher is an oracle: any function from a product to a price or
 * to "unknown". The stub's formula is not part of this model.
 */
module Services {
  import opened Models

  /** `PricingService.fetch_latest_price`: a price, or None when it cannot be determined. */
  type Fetcher = Product -> Option<Price>

  function Prices(rows: seq<PriceHistory>): seq<Price> {
    seq(|rows|, i requires 0 <= i < |rows| => rows[i].price)
  }

  /** The prices the evaluator compares against: the product's history prices, then its current price. */
  function EvaluatorPrices(p: Product, h: seq<PriceHistory>): (r: seq<Price>)
    ensures forall x :: x in r <==>
      (exists row :: row in h && row.productId == p.id && row.price == x) || p.currentPrice == Some(x)
    ensures |r| == 0 <==> (forall row :: row in h ==> row.productId != p.id) && p.currentPrice.None?
  {
    var rows := RowsOf(h, p.id);
    RowsOfMembers(h, p.id);
    var prices := Prices(rows);
    assert forall x :: x in prices <==> exists row :: row in rows && row.price == x by {
      forall x ensures x in prices <==> exists row :: row in rows && row.price == x {
        if x in prices {
          var i :| 0 <= i < |prices| && prices[i] == x;
          assert rows[i] in rows;
        }
        if exists row :: row in rows && row.price == x {
          var row :| row in rows && row.price == x;
          var i :| 0 <= i < |rows| && rows[i] == row;
          assert prices[i] == x;
        }
      }
    }
    assert |rows| == 0 <==> forall row :: row in h ==> row.productId != p.id by {
      if |rows| > 0 {
        assert rows[0] in rows;
      }
    }
    prices + (if p.currentPrice.Some? then [p.currentPrice.value] else [])
  }

  /** The smallest of a non-empty list of prices (`min(...)`). */
  function Min(s: seq<Price>): Price
    requires |s| > 0
  {
    if |s| == 1 then s[0]
    else
      var rest := Min(s[1..]);
      if s[0] <= rest then s[0] else rest
  }

  /** `Min` is one of the prices and no price is below it. */
  lemma {:induction false} MinIsLeast(s: seq<Price>)
    requires |s| > 0
    ensures Min(s) in s
    ensures forall x :: x in s ==> Min(s) <= x
  {
    if |s| > 1 {
      MinIsLeast(s[1..]);
      assert s == [s[0]] + s[1..];
    }
  }

  /** The evaluator's condition: nothing recorded yet, or strictly below the recorded minimum. */
  predicate ShouldAlert(recorded: seq<Price>, newPrice: Price) {
    |recorded| == 0 || newPrice < Min(recorded)
  }

  /** The rule in other words: the new price is strictly below every recorded price. */
  lemma ShouldAlertIffBelowAll(recorded: seq<Price>, newPrice: Price)
    ensures ShouldAlert(recorded, newPrice) <==> forall x :: x in recorded ==> newPrice < x
  {
    if |recorded| > 0 {
      MinIsLeast(recorded);
    }
  }

  /** A product with no history and no current price alerts on its first price, whatever it is. */
  lemma FirstPriceAlwaysAlerts(p: Product, h: seq<PriceHistory>, newPrice: Price)
    requires forall row :: row in h ==> row.productId != p.id
    requires p.currentPrice.None?
    ensures ShouldAlert(EvaluatorPrices(p, h), newPrice)
  {
  }

  /** A new price equal to the current price is never below the minimum, so it never alerts. */
  lemma CurrentPriceBlocksAlert(p: Product, h: seq<PriceHistory>, newPrice: Price)
    requires p.currentPrice == Some(newPrice)
    ensures !ShouldAlert(EvaluatorPrices(p, h), newPrice)
  {
    var recorded := EvaluatorPrices(p, h);
    assert newPrice in recorded;
    MinIsLeast(recorded);
  }

  /** A new price at or above some recorded price (history row or current price) does not alert. */
  lemma NotBelowSomeRecordedPriceNoAlert(p: Product, h: seq<PriceHistory>, newPrice: Price, seen: Price)
    requires (exists row :: row in h && row.productId == p.id && row.price == seen) || p.currentPrice == Some(seen)
    requires seen <= newPrice
    ensures !ShouldAlert(EvaluatorPrices(p, h), newPrice)
  {
    var recorded := EvaluatorPrices(p, h);
    assert seen in recorded;
    MinIsLeast(recorded);
  }

  /**
   * `maybe_create_alert`: evaluates the rule against the product's history in
   * the store and its current price, and when it holds, inserts exactly one alert,
   * for this product, at the new price and the current time. Products and
   * history are never touched.
   */
  method MaybeCreateAlert(db: Session, product: Product, newPrice: Price, now: Timestamp)
    returns (alert: Option<Alert>)
    requires db.Valid()
    requires HasProduct(db.products, product.id)
    modifies db
    ensures db.Valid()
    ensures alert.Some? <==> ShouldAlert(EvaluatorPrices(product, old(db.history)), newPrice)
    ensures alert.Some? ==>
      alert.value == Alert(old(db.nextAlertId), product.id, newPrice, now, Some(NewLowestPrice(newPrice)))
    ensures db.alerts == old(db.alerts) + (if alert.Some? then [alert.value] else [])
    ensures db.nextAlertId == old(db.nextAlertId) + |db.alerts| - |old(db.alerts)|
    ensures db.products == old(db.products) && db.history == old(db.history)
    ensures db.nextProductId == old(db.nextProductId) && db.nextHistoryId == old(db.nextHistoryId)
  {
    var historyPrices := EvaluatorPrices(product, db.history);
    if |historyPrices| == 0 || newPrice < Min(historyPrices) {
      var created := db.InsertAlert(product.id, newPrice, now, Some(NewLowestPrice(newPrice)));
      alert := Some(created);
    } else {
      alert := None;
    }
  }
}
