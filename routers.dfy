/**
 * The product and alert endpoints. Each endpoint is one atomic transition of
 * the store: it either commits all of its writes or, when it raises, none.
 * Raising is modelled by an `Err` result: `NotFound` is the 404 of a missing
 * product id, `UniqueViolation` the failed flush or commit of a url another
 * product already uses. The clock is the parameter `now`.
 */
module Routers {
  import opened Query
  import opened Models

  datatype ApiError = NotFound | UniqueViolation

  datatype Result<T> = Ok(value: T) | Err(error: ApiError)

  /** The body of `POST /products`: a name is required, a url and an initial price are optional. */
  datatype ProductCreate = ProductCreate(name: string, url: Option<string>, currentPrice: Option<Price>)

  /** The body of `PUT` and `PATCH /products/{id}`: every field is optional. */
  datatype ProductUpdate = ProductUpdate(name: Option<string>, url: Option<string>, currentPrice: Option<Price>)

  /** `_get_product_or_404`: the position of the product with key `id`, or NotFound. */
  function GetProductOr404(ps: seq<Product>, id: ProductId): (r: Result<nat>)
    ensures r.Ok? <==> HasProduct(ps, id)
    ensures r.Ok? ==> r.value < |ps| && ps[r.value].id == id
    ensures r.Err? ==> r.error == NotFound
  {
    if |ps| == 0 then Err(NotFound)
    else if ps[0].id == id then Ok(0)
    else
      assert forall x :: x in ps <==> x == ps[0] || x in ps[1..];
      match GetProductOr404(ps[1..], id)
      case Ok(k) => Ok(k + 1)
      case Err(e) => Err(e)
  }

  /** The `ProductRead` response: the product row with its price history and its alerts nested. */
  datatype ProductRead = ProductRead(product: Product, priceHistory: seq<PriceHistory>, alerts: seq<Alert>)

  /** `GET /products/{id}`: the product with its own history rows and alerts, in table order. */
  method GetProduct(db: Session, id: ProductId) returns (r: Result<ProductRead>)
    ensures r.Ok? <==> HasProduct(db.products, id)
    ensures r.Ok? ==> r.value.product in db.products && r.value.product.id == id
    ensures r.Ok? ==> forall x :: x in r.value.priceHistory <==> x in db.history && x.productId == id
    ensures r.Ok? ==> forall x :: x in r.value.alerts <==> x in db.alerts && x.productId == id
    ensures r.Ok? ==> r.value.priceHistory == RowsOf(db.history, id) && r.value.alerts == AlertsOf(db.alerts, id)
    ensures r.Err? ==> r.error == NotFound
  {
    match GetProductOr404(db.products, id)
    case Ok(k) =>
      RowsOfMembers(db.history, id);
      AlertsOfMembers(db.alerts, id);
      r := Ok(ProductRead(db.products[k], RowsOf(db.history, id), AlertsOf(db.alerts, id)));
    case Err(e) => r := Err(e);
  }

  /** The first history row of a product created with a price: that price, now. */
  function InitialHistory(p: Product, rowId: RowId, now: Timestamp): seq<PriceHistory> {
    if p.currentPrice.Some? then [PriceHistory(rowId, p.id, p.currentPrice.value, now)] else []
  }

  /**
   * `POST /products`: inserts the product, checked now, and records its initial
   * price as one history row exactly when one is given. No alert is evaluated.
   */
  method CreateProduct(db: Session, payload: ProductCreate, now: Timestamp) returns (r: Result<Product>)
    requires db.Valid()
    modifies db
    ensures db.Valid()
    ensures UrlTaken(old(db.products), payload.url, old(db.nextProductId)) ==>
      r == Err(UniqueViolation) && unchanged(db)
    ensures !UrlTaken(old(db.products), payload.url, old(db.nextProductId)) ==>
      && r == Ok(Product(old(db.nextProductId), payload.name, payload.url, payload.currentPrice, now))
      && db.products == old(db.products) + [r.value]
      && db.history == old(db.history) + InitialHistory(r.value, old(db.nextHistoryId), now)
      && db.alerts == old(db.alerts)
      && db.nextProductId == old(db.nextProductId) + 1
      && db.nextHistoryId == old(db.nextHistoryId) + |InitialHistory(r.value, old(db.nextHistoryId), now)|
      && db.nextAlertId == old(db.nextAlertId)
  {
    if UrlTaken(db.products, payload.url, db.nextProductId) {
      return Err(UniqueViolation);
    }
    var product := db.InsertProduct(payload.name, payload.url, payload.currentPrice, now);
    assert product in db.products;
    if payload.currentPrice.Some? {
      var _ := db.InsertPriceHistory(product.id, payload.currentPrice.value, now);
    }
    r := Ok(product);
  }

  /** The merge both update endpoints perform: every field present in the payload replaces the stored one. */
  function Merged(p: Product, u: ProductUpdate): Product {
    p.(name := if u.name.Some? then u.name.value else p.name,
       url := if u.url.Some? then u.url else p.url,
       currentPrice := if u.currentPrice.Some? then u.currentPrice else p.currentPrice)
  }

  /** Applying the same payload twice changes nothing more. */
  lemma MergedIdempotent(p: Product, u: ProductUpdate)
    ensures Merged(Merged(p, u), u) == Merged(p, u)
  {
  }

  /** A payload can set a field but never clear it: a present url or price stays present. */
  lemma MergedNeverClears(p: Product, u: ProductUpdate)
    ensures p.url.Some? ==> Merged(p, u).url.Some?
    ensures p.currentPrice.Some? ==> Merged(p, u).currentPrice.Some?
  {
  }

  datatype Field = Name | Url | CurrentPrice

  /** The fields the update endpoints copy, in the order they copy them. */
  const UpdatableFields: seq<Field> := [Name, Url, CurrentPrice]

  /** The `setattr` loop over the payload's fields: each present field is copied onto the product. */
  method ApplyUpdate(p: Product, u: ProductUpdate) returns (q: Product)
    ensures q == Merged(p, u)
  {
    q := p;
    for i := 0 to |UpdatableFields|
      invariant q.id == p.id && q.lastChecked == p.lastChecked
      invariant q.name == if i > 0 then Merged(p, u).name else p.name
      invariant q.url == if i > 1 then Merged(p, u).url else p.url
      invariant q.currentPrice == if i > 2 then Merged(p, u).currentPrice else p.currentPrice
    {
      match UpdatableFields[i]
      case Name =>
        if u.name.Some? { q := q.(name := u.name.value); }
      case Url =>
        if u.url.Some? { q := q.(url := u.url); }
      case CurrentPrice =>
        if u.currentPrice.Some? { q := q.(currentPrice := u.currentPrice); }
    }
  }

  /** What an update request returns: the merged product checked now, NotFound, or a url conflict. */
  function UpdateOutcome(ps: seq<Product>, id: ProductId, u: ProductUpdate, now: Timestamp): (r: Result<Product>)
    ensures r == Err(NotFound) <==> !HasProduct(ps, id)
    ensures r.Ok? ==> r.value.id == id && r.value.lastChecked == now
    ensures r.Ok? ==> exists p :: p in ps && p.id == id && r.value == Merged(p, u).(lastChecked := now)
    ensures r == Err(UniqueViolation) <==>
      HasProduct(ps, id) && UrlTaken(ps, Merged(ps[GetProductOr404(ps, id).value], u).url, id)
  {
    match GetProductOr404(ps, id)
    case Err(e) => Err(e)
    case Ok(k) =>
      assert ps[k] in ps;
      var q := Merged(ps[k], u).(lastChecked := now);
      if UrlTaken(ps, q.url, id) then Err(UniqueViolation) else Ok(q)
  }

  /**
   * `PUT /products/{id}`: merges the present fields into the product and sets
   * its last-checked time to now; history and alerts are left as they are, even
   * when the price changes. Nothing changes when it fails.
   */
  method UpdateProductPut(db: Session, id: ProductId, payload: ProductUpdate, now: Timestamp)
    returns (r: Result<Product>)
    requires db.Valid()
    modifies db
    ensures db.Valid()
    ensures r == UpdateOutcome(old(db.products), id, payload, now)
    ensures r.Err? ==> unchanged(db)
    ensures r.Ok? ==> db.products == old(db.products)[GetProductOr404(old(db.products), id).value := r.value]
    ensures db.history == old(db.history) && db.alerts == old(db.alerts)
    ensures db.nextProductId == old(db.nextProductId) && db.nextHistoryId == old(db.nextHistoryId)
    ensures db.nextAlertId == old(db.nextAlertId)
  {
    var found := GetProductOr404(db.products, id);
    if found.Err? {
      return Err(found.error);
    }
    var k := found.value;
    var product := ApplyUpdate(db.products[k], payload);
    product := product.(lastChecked := now);
    if UrlTaken(db.products, product.url, id) {
      return Err(UniqueViolation);
    }
    db.UpdateProduct(k, product);
    r := Ok(product);
  }

  /** `PATCH /products/{id}`: the same transition as PUT. */
  method UpdateProductPatch(db: Session, id: ProductId, payload: ProductUpdate, now: Timestamp)
    returns (r: Result<Product>)
    requires db.Valid()
    modifies db
    ensures db.Valid()
    ensures r == UpdateOutcome(old(db.products), id, payload, now)
    ensures r.Err? ==> unchanged(db)
    ensures r.Ok? ==> db.products == old(db.products)[GetProductOr404(old(db.products), id).value := r.value]
    ensures db.history == old(db.history) && db.alerts == old(db.alerts)
    ensures db.nextProductId == old(db.nextProductId) && db.nextHistoryId == old(db.nextHistoryId)
    ensures db.nextAlertId == old(db.nextAlertId)
  {
    r := UpdateProductPut(db, id, payload, now);
  }

  /** `DELETE /products/{id}`: removes the product and, by cascade, its history rows and alerts. */
  method DeleteProduct(db: Session, id: ProductId) returns (r: Result<()>)
    requires db.Valid()
    modifies db
    ensures db.Valid()
    ensures !HasProduct(old(db.products), id) ==> r == Err(NotFound) && unchanged(db)
    ensures HasProduct(old(db.products), id) ==>
      && r == Ok(())
      && db.products == Filter(old(db.products), IsNotProduct(id))
      && db.history == Filter(old(db.history), NotOfProduct(id))
      && db.alerts == Filter(old(db.alerts), AlertNotOfProduct(id))
    ensures db.nextProductId == old(db.nextProductId) && db.nextHistoryId == old(db.nextHistoryId)
    ensures db.nextAlertId == old(db.nextAlertId)
  {
    var found := GetProductOr404(db.products, id);
    if found.Err? {
      return Err(found.error);
    }
    db.DeleteCascade(id);
    r := Ok(());
  }

  /**
   * After the cascade the id is gone from every table, and every row of the
   * other products is still there.
   */
  lemma CascadeRemovesExactlyTheProduct(
    ps: seq<Product>, h: seq<PriceHistory>, a: seq<Alert>, id: ProductId)
    ensures !HasProduct(Filter(ps, IsNotProduct(id)), id)
    ensures RowsOf(Filter(h, NotOfProduct(id)), id) == []
    ensures forall x :: x in Filter(h, NotOfProduct(id)) <==> x in h && x.productId != id
    ensures forall x :: x in Filter(a, AlertNotOfProduct(id)) <==> x in a && x.productId != id
    ensures forall p :: p in Filter(ps, IsNotProduct(id)) <==> p in ps && p.id != id
  {
    FilterMembers(ps, IsNotProduct(id));
    FilterMembers(h, NotOfProduct(id));
    FilterMembers(a, AlertNotOfProduct(id));
    RowsOfNone(Filter(h, NotOfProduct(id)), id);
  }

  function TimestampKey(r: PriceHistory): int { r.timestamp }
  function NewestFirstKey(a: Alert): int { 0 - a.triggeredAt as int }

  /** `GET /products/{id}/history`: exactly the product's rows, oldest first. */
  method GetPriceHistory(db: Session, id: ProductId) returns (r: Result<seq<PriceHistory>>)
    ensures r.Err? <==> !HasProduct(db.products, id)
    ensures r.Err? ==> r.error == NotFound
    ensures r.Ok? ==> forall i, j :: 0 <= i < j < |r.value| ==> r.value[i].timestamp <= r.value[j].timestamp
    ensures r.Ok? ==> multiset(r.value) == multiset(RowsOf(db.history, id))
    ensures r.Ok? ==> forall x :: x in r.value <==> x in db.history && x.productId == id
  {
    var found := GetProductOr404(db.products, id);
    if found.Err? {
      return Err(found.error);
    }
    var rows := RowsOf(db.history, id);
    RowsOfMembers(db.history, id);
    var sorted := SortBy(rows, TimestampKey);
    assert forall x :: x in sorted <==> x in multiset(rows);
    forall i, j | 0 <= i < j < |sorted| ensures sorted[i].timestamp <= sorted[j].timestamp {
      assert TimestampKey(sorted[i]) <= TimestampKey(sorted[j]);
    }
    r := Ok(sorted);
  }

  /** `GET /alerts`: every alert, newest trigger time first. */
  method ListAlerts(db: Session) returns (r: seq<Alert>)
    ensures forall i, j :: 0 <= i < j < |r| ==> r[i].triggeredAt >= r[j].triggeredAt
    ensures multiset(r) == multiset(db.alerts)
  {
    r := SortBy(db.alerts, NewestFirstKey);
    forall i, j | 0 <= i < j < |r| ensures r[i].triggeredAt >= r[j].triggeredAt {
      assert NewestFirstKey(r[i]) <= NewestFirstKey(r[j]);
    }
  }
}
