/**
 * The product actions of the manager and owner screens: creating a product,
 * opening it for editing, updating its details (with the owner's stock
 * correction and its ledger entry) and deleting it. Every action on an
 * existing product first checks that it belongs to the actor's business.
 */
module ProductController {
  import opened Common
  import opened Sums
  import opened Store
  import opened OwnerController

  /** The answer an action gives, in place of its redirect or abort. */
  datatype Response =
    | NotFound            // route binding finds no product with the id
    | Forbidden           // abort(403): the product belongs to another business
    | Invalid             // the form failed validation
    | InsufficientStock   // a decrease below zero; the details were already saved
    | HasSales            // deletion refused: sales reference the product
    | HasStock            // deletion refused: the product still has stock
    | Saved

  /** Where the tenant check leaves an action on product `productId`. */
  datatype Access = Missing | Denied | Granted(index: nat)

  // ---------------------------------------------------------------------
  // Resolving the actor's business

  /** PHP truthiness of the nullable `business_id`: set and not 0. */
  predicate HasBusinessId(u: User) {
    u.business.Some? && u.business.value != 0
  }

  /** The business created for a user when there is none at all. */
  function DefaultBusiness(u: User, id: nat): Business {
    Business(id, "Default Business", if u.name.Some? then u.name.value else "Owner", u.phone, "N/A")
  }

  /** `getBusinessId` creates a business only when the user has none and the table is empty. */
  predicate CreatesBusiness(u: User, bs: seq<Business>) {
    !HasBusinessId(u) && bs == []
  }

  /**
   * The id `getBusinessId` settles on: the user's own, else the first
   * business, else the one it creates under the next id.
   */
  function BusinessOf(u: User, bs: seq<Business>, nextId: nat): nat {
    if HasBusinessId(u) then u.business.value
    else if bs != [] then bs[0].id
    else nextId
  }

  /** The business table after `getBusinessId`. */
  function BusinessesAfter(u: User, bs: seq<Business>, nextId: nat): seq<Business> {
    if CreatesBusiness(u, bs) then [DefaultBusiness(u, nextId)] else bs
  }

  /**
   * Returns the actor's business id. A user without one adopts the first
   * business, or a "Default Business" created for them, and the id is
   * saved on the user.
   */
  method GetBusinessId(db: Db, actor: nat) returns (bid: nat)
    requires actor in db.users
    modifies db`users, db`businesses, db`nextBusinessId
    ensures var u := old(db.users)[actor];
      bid == BusinessOf(u, old(db.businesses), old(db.nextBusinessId)) &&
      db.users == old(db.users)[actor := u.(business := Some(bid))] &&
      db.businesses == BusinessesAfter(u, old(db.businesses), old(db.nextBusinessId)) &&
      db.nextBusinessId == if CreatesBusiness(u, old(db.businesses)) then old(db.nextBusinessId) + 1 else old(db.nextBusinessId)
    ensures old(db.Valid()) ==> db.Valid() && bid >= 1
  {
    var u := db.users[actor];
    if HasBusinessId(u) {
      return u.business.value;
    }
    if db.businesses != [] {
      bid := db.businesses[0].id;
    } else {
      var b := DefaultBusiness(u, db.nextBusinessId);
      db.businesses := db.businesses + [b];
      db.nextBusinessId := db.nextBusinessId + 1;
      bid := b.id;
    }
    db.users := db.users[actor := u.(business := Some(bid))];
  }

  // ---------------------------------------------------------------------
  // The tenant check and the product form

  /**
   * Route binding followed by the check that the product belongs to the
   * actor's business: `edit` consists of nothing else, and `update` and
   * `destroy` start with it.
   */
  function Authorize(ps: seq<Product>, u: User, productId: nat): (r: Access)
    ensures r.Missing? <==> FindProduct(ps, productId).None?
    ensures r.Granted? ==> r.index < |ps| && ps[r.index].id == productId && u.business == Some(ps[r.index].business)
    ensures r.Denied? ==> exists k :: 0 <= k < |ps| && ps[k].id == productId && u.business != Some(ps[k].business)
  {
    match FindProduct(ps, productId)
    case None => Missing
    case Some(i) => if u.business == Some(ps[i].business) then Granted(i) else Denied
  }

  const MaxLength: nat := 255

  /** `required|string|max:255`. */
  predicate Filled(s: string) {
    0 < |s| <= MaxLength
  }

  datatype ProductForm = ProductForm(name: string, sku: string, purchasePrice: real, sellPrice: real)

  /**
   * `Rule::unique('products')` scoped to `business`: some product of that
   * business already has the SKU, not counting the product whose id is
   * `ignore`.
   */
  predicate SkuTaken(ps: seq<Product>, business: nat, sku: string, ignore: Option<nat>) {
    exists k :: 0 <= k < |ps| && ps[k].business == business && ps[k].sku == sku && ignore != Some(ps[k].id)
  }

  /** The validation rules shared by `store` and `update`. */
  predicate FormAccepted(ps: seq<Product>, business: nat, f: ProductForm, ignore: Option<nat>) {
    Filled(f.name) && Filled(f.sku) && !SkuTaken(ps, business, f.sku, ignore) &&
    f.purchasePrice >= 0.0 && f.sellPrice >= 0.0
  }

  /** The product as `update` saves it before any stock adjustment. */
  function WithDetails(p: Product, f: ProductForm): Product {
    p.(name := f.name, sku := f.sku, purchasePrice := f.purchasePrice, sellPrice := f.sellPrice)
  }

  // ---------------------------------------------------------------------
  // store

  /** The row `store` inserts; the stock column starts at zero. */
  function NewProduct(id: nat, business: nat, f: ProductForm): Product {
    Product(id, business, f.name, f.sku, f.purchasePrice, f.sellPrice, 0)
  }

  /**
   * Creates a product in the actor's business. The business is resolved
   * (and possibly provisioned) before the form is validated.
   */
  method Create(db: Db, actor: nat, f: ProductForm) returns (r: Response)
    requires db.Valid() && actor in db.users
    modifies db`users, db`businesses, db`nextBusinessId, db`products, db`nextProductId
    ensures var u := old(db.users)[actor];
      var bid := BusinessOf(u, old(db.businesses), old(db.nextBusinessId));
      db.users == old(db.users)[actor := u.(business := Some(bid))] &&
      db.businesses == BusinessesAfter(u, old(db.businesses), old(db.nextBusinessId)) &&
      db.nextBusinessId == (if CreatesBusiness(u, old(db.businesses)) then old(db.nextBusinessId) + 1 else old(db.nextBusinessId)) &&
      if FormAccepted(old(db.products), bid, f, None) then
        r == Saved && db.products == old(db.products) + [NewProduct(old(db.nextProductId), bid, f)] &&
        db.nextProductId == old(db.nextProductId) + 1
      else
        r == Invalid && db.products == old(db.products) && db.nextProductId == old(db.nextProductId)
    ensures db.Valid()
  {
    var bid := GetBusinessId(db, actor);
    if !FormAccepted(db.products, bid, f, None) {
      return Invalid;
    }
    var p := NewProduct(db.nextProductId, bid, f);
    CreateKeepsProductsValid(db.products, db.nextProductId, bid, f);
    db.products := db.products + [p];
    db.nextProductId := db.nextProductId + 1;
    r := Saved;
  }

  // ---------------------------------------------------------------------
  // update

  datatype AdjustType = Increase | Decrease

  /** The update form: the product's details and the optional stock correction. */
  datatype UpdateForm = UpdateForm(details: ProductForm, adjustType: Option<AdjustType>, adjustQuantity: Option<nat>)

  /** The stock is corrected only for an owner who chose a direction and a positive quantity. */
  predicate AdjustsStock(u: User, f: UpdateForm) {
    u.role == Owner && f.adjustType.Some? && f.adjustQuantity.Some? && f.adjustQuantity.value > 0
  }

  /** The quantity a correction adds to the stock and writes to the ledger. */
  function SignedQuantity(kind: AdjustType, q: nat): int {
    if kind == Increase then q else -(q as int)
  }

  /** The response and the product and ledger tables after `update`. */
  datatype UpdateResult = UpdateResult(response: Response, products: seq<Product>, entries: seq<StockEntry>)

  /**
   * `update` on tables `ps` and `es`: the tenant check, validation (SKU
   * unique in the business except for the product itself), then the save.
   */
  function UpdateEffect(ps: seq<Product>, es: seq<StockEntry>, u: User, actor: nat, productId: nat, f: UpdateForm): UpdateResult {
    match Authorize(ps, u, productId)
    case Missing => UpdateResult(NotFound, ps, es)
    case Denied => UpdateResult(Forbidden, ps, es)
    case Granted(i) =>
      if !FormAccepted(ps, ps[i].business, f.details, Some(ps[i].id)) then UpdateResult(Invalid, ps, es)
      else SaveEffect(ps, es, i, u, actor, f)
  }

  /**
   * The save step of `update` for product `ps[i]`: the details are written,
   * then the owner's correction with its signed ledger row; a decrease
   * below zero stops after the details were written.
   */
  function SaveEffect(ps: seq<Product>, es: seq<StockEntry>, i: nat, u: User, actor: nat, f: UpdateForm): UpdateResult
    requires i < |ps|
  {
    var p := ps[i];
    var p1 := WithDetails(p, f.details);
    if !AdjustsStock(u, f) then UpdateResult(Saved, ps[i := p1], es)
    else
      var kind, q := f.adjustType.value, f.adjustQuantity.value;
      if kind == Decrease && p.stock - q < 0 then UpdateResult(InsufficientStock, ps[i := p1], es)
      else
        var d := SignedQuantity(kind, q);
        UpdateResult(Saved, ps[i := p1.(stock := p.stock + d)],
                     es + [StockEntry(p.id, d, f.details.purchasePrice, actor, p.business)])
  }

  /** Updates product `productId` from form `f` on behalf of `actor`. */
  method Update(db: Db, actor: nat, productId: nat, f: UpdateForm) returns (r: Response)
    requires db.Valid() && actor in db.users
    modifies db`users, db`businesses, db`nextBusinessId, db`products, db`stockEntries
    ensures UpdateResult(r, db.products, db.stockEntries) ==
      UpdateEffect(old(db.products), old(db.stockEntries), old(db.users)[actor], actor, productId, f)
    ensures db.users == old(db.users) && db.businesses == old(db.businesses)
    ensures db.nextBusinessId == old(db.nextBusinessId)
    ensures db.Valid()
  {
    var u := db.users[actor];
    var access := Authorize(db.products, u, productId);
    if access.Missing? {
      return NotFound;
    } else if access.Denied? {
      return Forbidden;
    }
    var i := access.index;
    ghost var ps0, es0 := db.products, db.stockEntries;
    assert HasBusinessId(u) by {
      assert ProductValid(db.products[i], db.nextProductId);
    }
    assert u.(business := Some(u.business.value)) == u;
    var bid := GetBusinessId(db, actor);
    assert db.users == old(db.users);
    if !FormAccepted(db.products, bid, f.details, Some(db.products[i].id)) {
      return Invalid;
    }
    r := SaveUpdate(db, i, u, actor, bid, f);
    UpdateKeepsProductsValid(ps0, es0, db.nextProductId, u, actor, productId, f);
  }

  /** The save step of `update`, on the store; ledger rows carry the resolved business `bid`. */
  method SaveUpdate(db: Db, i: nat, u: User, actor: nat, bid: nat, f: UpdateForm) returns (r: Response)
    requires i < |db.products| && bid == db.products[i].business
    modifies db`products, db`stockEntries
    ensures UpdateResult(r, db.products, db.stockEntries) == SaveEffect(old(db.products), old(db.stockEntries), i, u, actor, f)
  {
    var p := WithDetails(db.products[i], f.details);
    db.products := db.products[i := p];
    if AdjustsStock(u, f) {
      var q := f.adjustQuantity.value;
      if f.adjustType.value == Increase {
        db.products := db.products[i := p.(stock := p.stock + q)];
        db.stockEntries := db.stockEntries + [StockEntry(p.id, q, f.details.purchasePrice, actor, bid)];
      } else {
        var newStock := p.stock - q;
        if newStock < 0 {
          return InsufficientStock;
        }
        db.products := db.products[i := p.(stock := newStock)];
        db.stockEntries := db.stockEntries + [StockEntry(p.id, -(q as int), f.details.purchasePrice, actor, bid)];
      }
    }
    r := Saved;
  }

  // ---------------------------------------------------------------------
  // destroy

  /** `$product->sales()->exists()`. */
  predicate SoldAny(ss: seq<Sale>, productId: nat) {
    exists k :: 0 <= k < |ss| && ss[k].product == productId
  }

  /** The response and the product table after `destroy`. */
  datatype DestroyResult = DestroyResult(response: Response, products: seq<Product>)

  /**
   * `destroy` on tables `ps` and `ss`: the tenant check, then a refusal when
   * the product has sales, then a refusal when it has stock, else the row
   * is removed.
   */
  function DestroyEffect(ps: seq<Product>, ss: seq<Sale>, u: User, productId: nat): DestroyResult {
    match Authorize(ps, u, productId)
    case Missing => DestroyResult(NotFound, ps)
    case Denied => DestroyResult(Forbidden, ps)
    case Granted(i) =>
      if SoldAny(ss, productId) then DestroyResult(HasSales, ps)
      else if ps[i].stock > 0 then DestroyResult(HasStock, ps)
      else DestroyResult(Saved, ps[..i] + ps[i + 1..])
  }

  /** Deletes product `productId` on behalf of `actor`. */
  method Destroy(db: Db, actor: nat, productId: nat) returns (r: Response)
    requires db.Valid() && actor in db.users
    modifies db`products
    ensures DestroyResult(r, db.products) == DestroyEffect(old(db.products), db.sales, db.users[actor], productId)
    ensures db.Valid()
  {
    var access := Authorize(db.products, db.users[actor], productId);
    if access.Missing? {
      return NotFound;
    } else if access.Denied? {
      return Forbidden;
    }
    var i := access.index;
    if SoldAny(db.sales, productId) {
      return HasSales;
    }
    if db.products[i].stock > 0 {
      return HasStock;
    }
    DestroyKeepsProductsValid(db.products, db.sales, db.nextProductId, db.users[actor], productId);
    db.products := db.products[..i] + db.products[i + 1..];
    r := Saved;
  }

  // ---------------------------------------------------------------------
  // Lemmas

  /**
   * Once `getBusinessId` has run on a consistent store, the id is positive
   * and saved on the user, so running it again returns the same id and
   * creates nothing.
   */
  lemma BusinessIdIsStable(u: User, bs: seq<Business>, nextId: nat)
    requires BusinessesValid(bs, nextId)
    ensures var bid := BusinessOf(u, bs, nextId);
      var u' := u.(business := Some(bid));
      var bs' := BusinessesAfter(u, bs, nextId);
      bid >= 1 && HasBusinessId(u') &&
      BusinessOf(u', bs', if CreatesBusiness(u, bs) then nextId + 1 else nextId) == bid &&
      !CreatesBusiness(u', bs')
  {
  }

  /** With unique product ids, access is granted exactly for the actor's own product. */
  lemma AuthorizeGrants(ps: seq<Product>, u: User, productId: nat, i: nat)
    requires forall a, b :: 0 <= a < b < |ps| ==> ps[a].id != ps[b].id
    requires i < |ps| && ps[i].id == productId
    ensures Authorize(ps, u, productId) == Granted(i) <==> u.business == Some(ps[i].business)
    ensures Authorize(ps, u, productId) == Denied <==> u.business != Some(ps[i].business)
  {
    FindUnique(ps, (p: Product) => p.id, i);
  }

  /** A form that passes validation adds a product without breaking the product rules. */
  lemma CreateKeepsProductsValid(ps: seq<Product>, nextId: nat, bid: nat, f: ProductForm)
    requires ProductsValid(ps, nextId) && bid >= 1 && FormAccepted(ps, bid, f, None)
    ensures ProductsValid(ps + [NewProduct(nextId, bid, f)], nextId + 1)
  {
    var ps' := ps + [NewProduct(nextId, bid, f)];
    // Were the new row's SKU shared in its business, that row would make `SkuTaken` hold.
    forall a, b | 0 <= a < |ps'| && 0 <= b < |ps'| && a != b && ps'[a].business == ps'[b].business
      ensures ps'[a].sku != ps'[b].sku
    {
    }
  }

  /**
   * The tenant check comes first: a missing product answers 404 and another
   * business's product 403, and neither changes a table.
   */
  lemma UpdateGuard(ps: seq<Product>, es: seq<StockEntry>, u: User, actor: nat, productId: nat, f: UpdateForm)
    ensures var res := UpdateEffect(ps, es, u, actor, productId, f);
      (FindProduct(ps, productId).None? ==> res == UpdateResult(NotFound, ps, es)) &&
      (res.response == Forbidden <==> Authorize(ps, u, productId).Denied?) &&
      (res.response in {NotFound, Forbidden, Invalid} ==> res.products == ps && res.entries == es)
  {
  }

  /**
   * Only an owner's correction touches the stock and the ledger: otherwise
   * the ledger is unchanged and every product keeps its stock.
   */
  lemma OnlyOwnerAdjustsStock(ps: seq<Product>, es: seq<StockEntry>, u: User, actor: nat, productId: nat, f: UpdateForm)
    requires !AdjustsStock(u, f)
    ensures var res := UpdateEffect(ps, es, u, actor, productId, f);
      res.entries == es && |res.products| == |ps| &&
      forall j :: 0 <= j < |ps| ==> res.products[j].stock == ps[j].stock
  {
  }

  /**
   * A decrease below zero is refused after the details were saved: the
   * product carries the new name, SKU and prices, and its old stock, and
   * no ledger row is written.
   */
  lemma RejectedDecreaseKeepsDetails(ps: seq<Product>, es: seq<StockEntry>, u: User, actor: nat, productId: nat, f: UpdateForm, i: nat)
    requires Authorize(ps, u, productId) == Granted(i)
    requires FormAccepted(ps, ps[i].business, f.details, Some(ps[i].id))
    requires AdjustsStock(u, f) && f.adjustType == Some(Decrease)
    ensures var res := UpdateEffect(ps, es, u, actor, productId, f);
      (res.response == InsufficientStock <==> ps[i].stock < f.adjustQuantity.value) &&
      (res.response == InsufficientStock ==>
        res.products == ps[i := WithDetails(ps[i], f.details)] && res.entries == es)
  {
  }

  /**
   * An accepted owner correction, after the details are saved: an increase
   * adds q to the stock and writes a ledger row of +q, a decrease that the
   * stock covers subtracts q and writes a row of -q. The row carries the
   * product, the submitted purchase price, the actor and the business, and
   * no other product changes.
   */
  lemma OwnerCorrection(ps: seq<Product>, es: seq<StockEntry>, u: User, actor: nat, productId: nat, f: UpdateForm, i: nat)
    requires Authorize(ps, u, productId) == Granted(i)
    requires FormAccepted(ps, ps[i].business, f.details, Some(ps[i].id))
    requires AdjustsStock(u, f)
    requires f.adjustType == Some(Decrease) ==> ps[i].stock >= f.adjustQuantity.value
    ensures var res := UpdateEffect(ps, es, u, actor, productId, f);
      res.response == Saved && |res.products| == |ps| &&
      (forall j :: 0 <= j < |ps| && j != i ==> res.products[j] == ps[j]) &&
      res.products[i].(stock := ps[i].stock) == WithDetails(ps[i], f.details)
    ensures var res := UpdateEffect(ps, es, u, actor, productId, f);
      var q := f.adjustQuantity.value;
      f.adjustType == Some(Increase) ==>
        res.products[i].stock == ps[i].stock + q &&
        res.entries == es + [StockEntry(ps[i].id, q, f.details.purchasePrice, actor, ps[i].business)]
    ensures var res := UpdateEffect(ps, es, u, actor, productId, f);
      var q := f.adjustQuantity.value;
      f.adjustType == Some(Decrease) ==>
        res.products[i].stock == ps[i].stock - q && res.products[i].stock >= 0 &&
        res.entries == es + [StockEntry(ps[i].id, -(q as int), f.details.purchasePrice, actor, ps[i].business)]
  {
  }

  /** Total signed quantity the ledger holds for product `pid`. */
  function Ledgered(es: seq<StockEntry>, pid: nat): real {
    SumOf(es, (e: StockEntry) => if e.product == pid then e.quantity as real else 0.0)
  }

  /**
   * Stock and ledger move together: for every product, `update` changes the
   * stock by exactly what it adds to the ledger for that product.
   */
  lemma UpdateIsLedgered(ps: seq<Product>, es: seq<StockEntry>, u: User, actor: nat, productId: nat, f: UpdateForm, j: nat)
    requires forall a, b :: 0 <= a < b < |ps| ==> ps[a].id != ps[b].id
    requires j < |ps|
    ensures var res := UpdateEffect(ps, es, u, actor, productId, f);
      |res.products| == |ps| &&
      (res.products[j].stock - ps[j].stock) as real == Ledgered(res.entries, ps[j].id) - Ledgered(es, ps[j].id)
  {
    var res := UpdateEffect(ps, es, u, actor, productId, f);
    if res.entries != es {
      var i := Authorize(ps, u, productId).index;
      var e := res.entries[|es|];
      assert res.entries == es + [e];
      SumOfAppend(es, e, (x: StockEntry) => if x.product == ps[j].id then x.quantity as real else 0.0);
      assert e.product == ps[i].id;
      if j != i {
        assert ps[j].id != ps[i].id;
      }
    }
  }

  /**
   * An update keeps the product rules: SKUs stay unique within the business
   * (the product's own row aside) and an accepted correction leaves the
   * stock non-negative.
   */
  lemma UpdateKeepsProductsValid(ps: seq<Product>, es: seq<StockEntry>, nextId: nat, u: User, actor: nat, productId: nat, f: UpdateForm)
    requires ProductsValid(ps, nextId)
    ensures ProductsValid(UpdateEffect(ps, es, u, actor, productId, f).products, nextId)
  {
    var res := UpdateEffect(ps, es, u, actor, productId, f);
    var access := Authorize(ps, u, productId);
    if access.Granted? && res.products != ps {
      var i := access.index;
      var ps' := res.products;
      assert ps' == ps[i := ps'[i]];
      // A clash with row `i` would be another row of the business with its new SKU: `SkuTaken`.
      forall a, b | 0 <= a < |ps'| && 0 <= b < |ps'| && a != b && ps'[a].business == ps'[b].business
        ensures ps'[a].sku != ps'[b].sku
      {
      }
    }
  }

  /** The new stock value after an accepted update differs only by the product's own term. */
  lemma UpdateStockValue(ps: seq<Product>, es: seq<StockEntry>, u: User, actor: nat, productId: nat, f: UpdateForm, i: nat)
    requires Authorize(ps, u, productId) == Granted(i)
    ensures var ps' := UpdateEffect(ps, es, u, actor, productId, f).products;
      |ps'| == |ps| &&
      StockValue(ps') == StockValue(ps) - (ps[i].stock as real) * ps[i].purchasePrice
                                        + (ps'[i].stock as real) * ps'[i].purchasePrice
  {
    var ps' := UpdateEffect(ps, es, u, actor, productId, f).products;
    if ps' != ps {
      assert ps' == ps[i := ps'[i]];
      SumOfUpdate(ps, i, ps'[i], (p: Product) => (p.stock as real) * p.purchasePrice);
    }
  }

  /**
   * The refusals of `destroy`, in order: the tenant check, then sales, then
   * stock; only a product with neither is removed.
   */
  lemma DestroyGuards(ps: seq<Product>, ss: seq<Sale>, u: User, productId: nat)
    ensures var res := DestroyEffect(ps, ss, u, productId);
      (res.response != Saved <==> res.products == ps) &&
      (res.response == HasSales <==> Authorize(ps, u, productId).Granted? && SoldAny(ss, productId)) &&
      (res.response == HasStock <==>
        Authorize(ps, u, productId).Granted? && !SoldAny(ss, productId) && ps[Authorize(ps, u, productId).index].stock > 0) &&
      (res.response == Saved ==> forall k :: 0 <= k < |ss| ==> ss[k].product != productId)
  {
    var res := DestroyEffect(ps, ss, u, productId);
    if res.response == Saved {
      assert |res.products| == |ps| - 1;
    }
  }

  /** Removing a product keeps the product rules. */
  lemma DestroyKeepsProductsValid(ps: seq<Product>, ss: seq<Sale>, nextId: nat, u: User, productId: nat)
    requires ProductsValid(ps, nextId)
    ensures ProductsValid(DestroyEffect(ps, ss, u, productId).products, nextId)
  {
    var access := Authorize(ps, u, productId);
    if access.Granted? {
      var i := access.index;
      var ps' := ps[..i] + ps[i + 1..];
      forall a | 0 <= a < |ps'|
        ensures ps'[a] == ps[if a < i then a else a + 1]
      {
      }
    }
  }

  /**
   * On a consistent store a deleted product had no stock, so deletion
   * leaves the dashboard's stock value unchanged.
   */
  lemma DestroyKeepsStockValue(ps: seq<Product>, ss: seq<Sale>, nextId: nat, u: User, productId: nat)
    requires ProductsValid(ps, nextId)
    ensures StockValue(DestroyEffect(ps, ss, u, productId).products) == StockValue(ps)
  {
    var res := DestroyEffect(ps, ss, u, productId);
    if res.response == Saved {
      var i := Authorize(ps, u, productId).index;
      assert ps[i].stock == 0;
      SumOfRemove(ps, i, (p: Product) => (p.stock as real) * p.purchasePrice);
    }
  }
}
