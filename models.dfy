/**
 * The three tables of the price tracker and the constraints the schema puts on
 * them: a primary key per table, a unique (nullable) product url, and the
 * foreign keys from price-history rows and alerts to their product, declared
 * with delete cascade. Nullability is carried by the types: a required column
 * has a plain type, a nullable one an `Option`.
 *
 * `Session` is the store the endpoints work on: the committed contents of
 * the three tables and the next primary key of each.
 */
module Models {
  import opened Query

  datatype Option<T> = None | Some(value: T)

  type ProductId = nat
  type RowId = nat
  /** Prices are compared exactly and never computed with, so an integer (cents) stands for the float column. */
  type Price = int
  /** A reading of the clock. */
  type Timestamp = nat

  /** A tracked product. `url` and `currentPrice` may be absent; `name` and `lastChecked` may not. */
  datatype Product = Product(
    id: ProductId,
    name: string,
    url: Option<string>,
    currentPrice: Option<Price>,
    lastChecked: Timestamp)

  /** One observed price of a product. */
  datatype PriceHistory = PriceHistory(
    id: RowId,
    productId: ProductId,
    price: Price,
    timestamp: Timestamp)

  /** The text of an alert names the new lowest price; its formatting is not modelled. */
  datatype AlertMessage = NewLowestPrice(price: Price)

  /** A recorded price drop of a product. The message column may be absent. */
  datatype Alert = Alert(
    id: RowId,
    productId: ProductId,
    price: Price,
    triggeredAt: Timestamp,
    message: Option<AlertMessage>)

  function ProductKey(p: Product): int { p.id }
  function HistoryKey(r: PriceHistory): int { r.id }
  function AlertKey(a: Alert): int { a.id }

  /** Some row of the products table has this primary key. */
  predicate HasProduct(ps: seq<Product>, id: ProductId) {
    exists p :: p in ps && p.id == id
  }

  /** A product other than `owner` already uses the (present) url. */
  predicate UrlTaken(ps: seq<Product>, url: Option<string>, owner: ProductId) {
    url.Some? && exists p :: p in ps && p.id != owner && p.url == url
  }

  /** No two products share a present url; any number of them may have none. */
  predicate UrlsUnique(ps: seq<Product>) {
    forall i, j :: 0 <= i < j < |ps| && ps[i].url.Some? ==> ps[i].url != ps[j].url
  }

  predicate ProductsValid(ps: seq<Product>, nextId: ProductId) {
    && StrictlyIncreasing(ps, ProductKey)
    && (forall p :: p in ps ==> p.id < nextId)
    && UrlsUnique(ps)
  }

  /** Primary keys and the foreign key of the price-history table. */
  predicate HistoryValid(h: seq<PriceHistory>, ps: seq<Product>, nextId: RowId) {
    && StrictlyIncreasing(h, HistoryKey)
    && (forall r :: r in h ==> r.id < nextId && HasProduct(ps, r.productId))
  }

  /** Primary keys and the foreign key of the alerts table. */
  predicate AlertsValid(a: seq<Alert>, ps: seq<Product>, nextId: RowId) {
    && StrictlyIncreasing(a, AlertKey)
    && (forall x :: x in a ==> x.id < nextId && HasProduct(ps, x.productId))
  }

  predicate TablesValid(
    ps: seq<Product>, h: seq<PriceHistory>, a: seq<Alert>,
    nextProduct: ProductId, nextHistory: RowId, nextAlert: RowId)
  {
    ProductsValid(ps, nextProduct) && HistoryValid(h, ps, nextHistory) && AlertsValid(a, ps, nextAlert)
  }

  function NotOfProduct(id: ProductId): PriceHistory -> bool { (r: PriceHistory) => r.productId != id }
  function AlertNotOfProduct(id: ProductId): Alert -> bool { (a: Alert) => a.productId != id }
  function IsNotProduct(id: ProductId): Product -> bool { (p: Product) => p.id != id }

  /**
   * The price-history rows of one product, in table order (its `price_history`
   * relationship). It is `Query.Filter` on the foreign key, written out so that
   * the per-product lemmas about the job unfold a plain recursive function
   * rather than applications of a closure; `RowsOfMembers` and `AlertsOfMembers`
   * give these two functions the same meaning `FilterMembers` gives `Filter`.
   */
  function RowsOf(h: seq<PriceHistory>, id: ProductId): seq<PriceHistory> {
    if |h| == 0 then []
    else (if h[0].productId == id then [h[0]] else []) + RowsOf(h[1..], id)
  }

  /** A product's rows are exactly the table's rows that point to it. */
  lemma {:induction false} RowsOfMembers(h: seq<PriceHistory>, id: ProductId)
    ensures forall x :: x in RowsOf(h, id) <==> x in h && x.productId == id
  {
    if |h| > 0 {
      RowsOfMembers(h[1..], id);
      assert h == [h[0]] + h[1..];
    }
  }

  lemma {:induction false} RowsOfAppend(a: seq<PriceHistory>, b: seq<PriceHistory>, id: ProductId)
    ensures RowsOf(a + b, id) == RowsOf(a, id) + RowsOf(b, id)
  {
    if |a| == 0 {
      assert a + b == b;
    } else {
      var head := if a[0].productId == id then [a[0]] else [];
      assert (a + b)[0] == a[0];
      assert (a + b)[1..] == a[1..] + b;
      RowsOfAppend(a[1..], b, id);
      AppendAssoc(head, RowsOf(a[1..], id), RowsOf(b, id));
    }
  }

  lemma {:induction false} RowsOfNone(h: seq<PriceHistory>, id: ProductId)
    requires forall x :: x in h ==> x.productId != id
    ensures RowsOf(h, id) == []
  {
    if |h| > 0 {
      assert h[0] in h;
      assert forall x :: x in h[1..] ==> x in h;
      RowsOfNone(h[1..], id);
    }
  }

  /** The alerts of one product, in table order (its `alerts` relationship). */
  function AlertsOf(a: seq<Alert>, id: ProductId): seq<Alert> {
    if |a| == 0 then []
    else (if a[0].productId == id then [a[0]] else []) + AlertsOf(a[1..], id)
  }

  /** A product's alerts are exactly the table's alerts that point to it. */
  lemma {:induction false} AlertsOfMembers(a: seq<Alert>, id: ProductId)
    ensures forall x :: x in AlertsOf(a, id) <==> x in a && x.productId == id
  {
    if |a| > 0 {
      AlertsOfMembers(a[1..], id);
      assert a == [a[0]] + a[1..];
    }
  }

  lemma {:induction false} AlertsOfAppend(a: seq<Alert>, b: seq<Alert>, id: ProductId)
    ensures AlertsOf(a + b, id) == AlertsOf(a, id) + AlertsOf(b, id)
  {
    if |a| == 0 {
      assert a + b == b;
    } else {
      var head := if a[0].productId == id then [a[0]] else [];
      assert (a + b)[0] == a[0];
      assert (a + b)[1..] == a[1..] + b;
      AlertsOfAppend(a[1..], b, id);
      AppendAssoc(head, AlertsOf(a[1..], id), AlertsOf(b, id));
    }
  }

  lemma {:induction false} AlertsOfNone(a: seq<Alert>, id: ProductId)
    requires forall x :: x in a ==> x.productId != id
    ensures AlertsOf(a, id) == []
  {
    if |a| > 0 {
      assert a[0] in a;
      assert forall x :: x in a[1..] ==> x in a;
      AlertsOfNone(a[1..], id);
    }
  }

  /** Replacing one product by a row with the same key keeps the set of keys. */
  lemma SameKeys(ps: seq<Product>, k: nat, p: Product)
    requires k < |ps| && p.id == ps[k].id
    ensures forall id :: HasProduct(ps[k := p], id) <==> HasProduct(ps, id)
  {
    var qs := ps[k := p];
    forall id ensures HasProduct(qs, id) <==> HasProduct(ps, id) {
      if HasProduct(ps, id) {
        var x :| x in ps && x.id == id;
        var j :| 0 <= j < |ps| && ps[j] == x;
        assert qs[j].id == id;
      }
      if HasProduct(qs, id) {
        var x :| x in qs && x.id == id;
        var j :| 0 <= j < |qs| && qs[j] == x;
        assert ps[j].id == id;
      }
    }
  }

  /** Deleting the products with key `id` keeps the keys increasing and the urls unique. */
  lemma CascadeKeepsProducts(ps: seq<Product>, nextId: ProductId, id: ProductId)
    requires ProductsValid(ps, nextId)
    ensures ProductsValid(Filter(ps, IsNotProduct(id)), nextId)
    ensures forall pid :: HasProduct(ps, pid) && pid != id ==> HasProduct(Filter(ps, IsNotProduct(id)), pid)
  {
    var qs := Filter(ps, IsNotProduct(id));
    FilterMembers(ps, IsNotProduct(id));
    FilterKeepsIncreasing(ps, IsNotProduct(id), ProductKey);
    forall pid | HasProduct(ps, pid) && pid != id ensures HasProduct(qs, pid) {
      var x :| x in ps && x.id == pid;
      assert x in qs;
    }
    forall i, j | 0 <= i < j < |qs| && qs[i].url.Some? ensures qs[i].url != qs[j].url {
      assert qs[i] in ps && qs[j] in ps;
      var i' :| 0 <= i' < |ps| && ps[i'] == qs[i];
      var j' :| 0 <= j' < |ps| && ps[j'] == qs[j];
      PositionsFollowKeys(ps, i', j');
    }
  }

  lemma PositionsFollowKeys(ps: seq<Product>, i: nat, j: nat)
    requires StrictlyIncreasing(ps, ProductKey)
    requires i < |ps| && j < |ps| && ps[i].id < ps[j].id
    ensures i < j
  {
  }

  lemma CascadeKeepsHistory(h: seq<PriceHistory>, ps: seq<Product>, nextId: RowId, nextProduct: ProductId, id: ProductId)
    requires HistoryValid(h, ps, nextId) && ProductsValid(ps, nextProduct)
    ensures HistoryValid(Filter(h, NotOfProduct(id)), Filter(ps, IsNotProduct(id)), nextId)
  {
    FilterMembers(h, NotOfProduct(id));
    FilterKeepsIncreasing(h, NotOfProduct(id), HistoryKey);
    CascadeKeepsProducts(ps, nextProduct, id);
  }

  lemma CascadeKeepsAlerts(a: seq<Alert>, ps: seq<Product>, nextId: RowId, nextProduct: ProductId, id: ProductId)
    requires AlertsValid(a, ps, nextId) && ProductsValid(ps, nextProduct)
    ensures AlertsValid(Filter(a, AlertNotOfProduct(id)), Filter(ps, IsNotProduct(id)), nextId)
  {
    FilterMembers(a, AlertNotOfProduct(id));
    FilterKeepsIncreasing(a, AlertNotOfProduct(id), AlertKey);
    CascadeKeepsProducts(ps, nextProduct, id);
  }

  /** The cascade delete of one product keeps every constraint of the schema. */
  lemma CascadeKeepsTables(
    ps: seq<Product>, h: seq<PriceHistory>, a: seq<Alert>,
    nextProduct: ProductId, nextHistory: RowId, nextAlert: RowId, id: ProductId)
    requires TablesValid(ps, h, a, nextProduct, nextHistory, nextAlert)
    ensures TablesValid(Filter(ps, IsNotProduct(id)), Filter(h, NotOfProduct(id)), Filter(a, AlertNotOfProduct(id)),
                        nextProduct, nextHistory, nextAlert)
  {
    CascadeKeepsProducts(ps, nextProduct, id);
    CascadeKeepsHistory(h, ps, nextHistory, nextProduct, id);
    CascadeKeepsAlerts(a, ps, nextAlert, nextProduct, id);
  }

  class Session {
    var products: seq<Product>
    var history: seq<PriceHistory>
    var alerts: seq<Alert>
    var nextProductId: ProductId
    var nextHistoryId: RowId
    var nextAlertId: RowId

    /** The schema's constraints hold of the committed tables. */
    predicate Valid()
      reads this
    {
      TablesValid(products, history, alerts, nextProductId, nextHistoryId, nextAlertId)
    }

    /** An empty database; primary keys start at 1. */
    constructor ()
      ensures Valid()
      ensures products == [] && history == [] && alerts == []
    {
      products, history, alerts := [], [], [];
      nextProductId, nextHistoryId, nextAlertId := 1, 1, 1;
    }

    /** Adds a product row under the next primary key. */
    method InsertProduct(name: string, url: Option<string>, currentPrice: Option<Price>, lastChecked: Timestamp)
      returns (p: Product)
      requires Valid()
      requires !UrlTaken(products, url, nextProductId)
      modifies this
      ensures Valid()
      ensures p == Product(old(nextProductId), name, url, currentPrice, lastChecked)
      ensures products == old(products) + [p] && nextProductId == old(nextProductId) + 1
      ensures history == old(history) && alerts == old(alerts)
      ensures nextHistoryId == old(nextHistoryId) && nextAlertId == old(nextAlertId)
    {
      p := Product(nextProductId, name, url, currentPrice, lastChecked);
      var ps := products + [p];
      assert forall x :: x in products ==> x in ps;
      assert UrlsUnique(ps) by {
        forall i, j | 0 <= i < j < |ps| && ps[i].url.Some? ensures ps[i].url != ps[j].url {
          if j == |products| {
            assert ps[i] in products;
          }
        }
      }
      products := ps;
      nextProductId := nextProductId + 1;
    }

    /** Adds a price-history row for an existing product under the next primary key. */
    method InsertPriceHistory(productId: ProductId, price: Price, timestamp: Timestamp)
      returns (row: PriceHistory)
      requires Valid()
      requires HasProduct(products, productId)
      modifies this
      ensures Valid()
      ensures row == PriceHistory(old(nextHistoryId), productId, price, timestamp)
      ensures history == old(history) + [row] && nextHistoryId == old(nextHistoryId) + 1
      ensures products == old(products) && alerts == old(alerts)
      ensures nextProductId == old(nextProductId) && nextAlertId == old(nextAlertId)
    {
      row := PriceHistory(nextHistoryId, productId, price, timestamp);
      history := history + [row];
      nextHistoryId := nextHistoryId + 1;
    }

    /** Adds an alert for an existing product under the next primary key. */
    method InsertAlert(productId: ProductId, price: Price, triggeredAt: Timestamp, message: Option<AlertMessage>)
      returns (alert: Alert)
      requires Valid()
      requires HasProduct(products, productId)
      modifies this
      ensures Valid()
      ensures alert == Alert(old(nextAlertId), productId, price, triggeredAt, message)
      ensures alerts == old(alerts) + [alert] && nextAlertId == old(nextAlertId) + 1
      ensures products == old(products) && history == old(history)
      ensures nextProductId == old(nextProductId) && nextHistoryId == old(nextHistoryId)
    {
      alert := Alert(nextAlertId, productId, price, triggeredAt, message);
      alerts := alerts + [alert];
      nextAlertId := nextAlertId + 1;
    }

    /** Writes new column values into the product row at position `k`; its key stays. */
    method UpdateProduct(k: nat, p: Product)
      requires Valid()
      requires k < |products| && p.id == products[k].id
      requires !UrlTaken(products, p.url, p.id)
      modifies this
      ensures Valid()
      ensures products == old(products)[k := p]
      ensures history == old(history) && alerts == old(alerts)
      ensures nextProductId == old(nextProductId) && nextHistoryId == old(nextHistoryId)
      ensures nextAlertId == old(nextAlertId)
    {
      var ps := products[k := p];
      SameKeys(products, k, p);
      assert forall x :: x in ps ==> x == p || x in products;
      assert UrlsUnique(ps) by {
        forall i, j | 0 <= i < j < |ps| && ps[i].url.Some? ensures ps[i].url != ps[j].url {
          if i == k {
            assert products[j] in products && products[j].id != p.id;
          } else if j == k {
            assert products[i] in products && products[i].id != p.id;
          }
        }
      }
      products := ps;
    }

    /** Deletes a product row; the foreign keys' cascade deletes its history rows and alerts. */
    method DeleteCascade(id: ProductId)
      requires Valid()
      modifies this
      ensures Valid()
      ensures products == Filter(old(products), IsNotProduct(id))
      ensures history == Filter(old(history), NotOfProduct(id))
      ensures alerts == Filter(old(alerts), AlertNotOfProduct(id))
      ensures nextProductId == old(nextProductId) && nextHistoryId == old(nextHistoryId)
      ensures nextAlertId == old(nextAlertId)
    {
      var ps := Filter(products, IsNotProduct(id));
      var h := Filter(history, NotOfProduct(id));
      var a := Filter(alerts, AlertNotOfProduct(id));
      CascadeKeepsTables(products, history, alerts, nextProductId, nextHistoryId, nextAlertId, id);
      products, history, alerts := ps, h, a;
    }
  }
}
