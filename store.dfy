/**
 * The tables the two controllers read and write, as an in-memory store: one
 * sequence of rows per table (or a map for users, which are only looked up
 * and updated), and the auto-increment counters the database would keep.
 * `Valid()` collects the consistency rules the modelled operations keep.
 */
module Store {
  import opened Common
  import opened Sums

  datatype Role = Owner | Manager | Salesman

  /** An authenticated user; `business` is the nullable `business_id` column. */
  datatype User = User(name: Option<string>, phone: Option<string>, role: Role, business: Option<nat>)

  datatype Business = Business(id: nat, name: string, ownerName: string, phone: Option<string>, address: string)

  datatype Product = Product(
    id: nat, business: nat, name: string, sku: string,
    purchasePrice: real, sellPrice: real, stock: int)

  /** A row of the append-only stock ledger; `quantity` is signed. */
  datatype StockEntry = StockEntry(product: nat, quantity: int, purchasePrice: real, addedBy: nat, business: nat)

  datatype Sale = Sale(id: nat, product: nat, total: real, profit: real, paid: real, createdOn: Date)
  {
    /** `due_amount`: what the customer still owes. */
    function Due(): real {
      total - paid
    }
  }

  /** One customer payment against a sale's due balance and the profit it realises. */
  datatype ProfitRealization = ProfitRealization(
    id: nat, sale: nat, payment: real, voucher: Option<string>, profit: real,
    paidOn: Date, createdOn: Date, recordedBy: nat)

  datatype Expense = Expense(amount: real, spentOn: Date)

  /**
   * The share of a sale's profit that a payment of `amount` realises:
   * the payment times the sale's profit-to-total ratio.
   */
  function ProfitShare(s: Sale, amount: real): real
    requires s.total != 0.0
  {
    amount * (s.profit / s.total)
  }

  /** Position of the first row whose key is `id` (`findOrFail` by primary key). */
  function Find<T>(s: seq<T>, key: T -> nat, id: nat): (r: Option<nat>)
    ensures r.Some? ==> r.value < |s| && key(s[r.value]) == id
    ensures r.Some? ==> forall j :: 0 <= j < r.value ==> key(s[j]) != id
    ensures r.None? ==> forall j :: 0 <= j < |s| ==> key(s[j]) != id
  {
    if s == [] then None
    else if key(s[0]) == id then Some(0)
    else match Find(s[1..], key, id)
      case None => None
      case Some(i) => Some(i + 1)
  }

  function FindSale(ss: seq<Sale>, id: nat): Option<nat> {
    Find(ss, (s: Sale) => s.id, id)
  }

  function FindProduct(ps: seq<Product>, id: nat): Option<nat> {
    Find(ps, (p: Product) => p.id, id)
  }

  /** Total payment recorded against sale `id`. */
  function PaidFor(rs: seq<ProfitRealization>, id: nat): real {
    SumOf(rs, (r: ProfitRealization) => if r.sale == id then r.payment else 0.0)
  }

  /** Total profit realised for sale `id`. */
  function RealizedFor(rs: seq<ProfitRealization>, id: nat): real {
    SumOf(rs, (r: ProfitRealization) => if r.sale == id then r.profit else 0.0)
  }

  // ---------------------------------------------------------------------
  // Consistency rules

  /** Business ids are positive, below the counter and unique. */
  predicate BusinessesValid(bs: seq<Business>, nextId: nat) {
    nextId >= 1 &&
    (forall i :: 0 <= i < |bs| ==> 1 <= bs[i].id < nextId) &&
    (forall i, j :: 0 <= i < j < |bs| ==> bs[i].id != bs[j].id)
  }

  /** Two distinct products of one business never share a SKU. */
  predicate SkuUniquePerBusiness(ps: seq<Product>) {
    forall i, j :: 0 <= i < |ps| && 0 <= j < |ps| && i != j && ps[i].business == ps[j].business ==>
      ps[i].sku != ps[j].sku
  }

  /**
   * Product ids are below the counter and unique, every product belongs to a
   * business (a positive id), has non-negative prices and stock, and SKUs are
   * unique within a business.
   */
  predicate ProductsValid(ps: seq<Product>, nextId: nat) {
    (forall i :: 0 <= i < |ps| ==> ProductValid(ps[i], nextId)) &&
    (forall i, j :: 0 <= i < j < |ps| ==> ps[i].id != ps[j].id) &&
    SkuUniquePerBusiness(ps)
  }

  predicate ProductValid(p: Product, nextId: nat) {
    p.id < nextId && p.business >= 1 && p.stock >= 0 && p.purchasePrice >= 0.0 && p.sellPrice >= 0.0
  }

  /** Sale ids are unique and every sale has `0 <= paid_amount <= total_amount`. */
  predicate SalesValid(ss: seq<Sale>) {
    (forall i :: 0 <= i < |ss| ==> 0.0 <= ss[i].paid <= ss[i].total) &&
    (forall i, j :: 0 <= i < j < |ss| ==> ss[i].id != ss[j].id)
  }

  /**
   * A realization row belongs to an existing sale with a non-zero total, and
   * its profit is that sale's share for the payment.
   */
  predicate RowConsistent(ss: seq<Sale>, r: ProfitRealization) {
    match FindSale(ss, r.sale)
    case None => false
    case Some(i) => ss[i].total > 0.0 && r.payment > 0.0 && r.profit == ProfitShare(ss[i], r.payment)
  }

  /**
   * Realization rows have increasing ids below the counter, are consistent
   * with their sale, and the payments recorded against a sale never exceed
   * what the sale has been paid.
   */
  predicate RealizationsValid(ss: seq<Sale>, rs: seq<ProfitRealization>, nextId: nat) {
    (forall k :: 0 <= k < |rs| ==> rs[k].id < nextId) &&
    (forall k {:trigger RowConsistent(ss, rs[k])} :: 0 <= k < |rs| ==> RowConsistent(ss, rs[k])) &&
    (forall k, l :: 0 <= k < l < |rs| ==> rs[k].id < rs[l].id) &&
    (forall i {:trigger PaidFor(rs, ss[i].id)} :: 0 <= i < |ss| ==> PaidFor(rs, ss[i].id) <= ss[i].paid)
  }

  class Db {
    var users: map<nat, User>
    var businesses: seq<Business>
    var nextBusinessId: nat
    var products: seq<Product>
    var nextProductId: nat
    var stockEntries: seq<StockEntry>
    var sales: seq<Sale>
    var realizations: seq<ProfitRealization>
    var nextRealizationId: nat
    var expenses: seq<Expense>

    ghost predicate Valid()
      reads this
    {
      BusinessesValid(businesses, nextBusinessId) &&
      ProductsValid(products, nextProductId) &&
      SalesValid(sales) &&
      RealizationsValid(sales, realizations, nextRealizationId)
    }

    /** An empty store whose only rows are the given users. */
    constructor (users: map<nat, User>)
      ensures Valid()
      ensures this.users == users
      ensures businesses == [] && products == [] && stockEntries == []
      ensures sales == [] && realizations == [] && expenses == []
    {
      this.users := users;
      businesses, nextBusinessId := [], 1;
      products, nextProductId := [], 1;
      stockEntries := [];
      sales := [];
      realizations, nextRealizationId := [], 1;
      expenses := [];
    }
  }

  // ---------------------------------------------------------------------
  // Lemmas

  /** With unique keys, `Find` locates exactly the row carrying the key. */
  lemma FindUnique<T>(s: seq<T>, key: T -> nat, i: nat)
    requires i < |s|
    requires forall a, b :: 0 <= a < b < |s| ==> key(s[a]) != key(s[b])
    ensures Find(s, key, key(s[i])) == Some(i)
  {
  }

  /** Replacing a row by one with the same key does not move any lookup. */
  lemma {:induction false} FindAfterUpdate<T>(s: seq<T>, key: T -> nat, i: nat, x: T, id: nat)
    requires i < |s| && key(x) == key(s[i])
    ensures Find(s[i := x], key, id) == Find(s, key, id)
    decreases |s|
  {
    if s != [] && key(s[0]) != id && i > 0 {
      assert s[i := x][1..] == s[1..][i - 1 := x];
      FindAfterUpdate(s[1..], key, i - 1, x, id);
    }
  }

  /** A consistent row of sale `ss[i]` carries that sale's ratio times its payment. */
  lemma RowShare(ss: seq<Sale>, r: ProfitRealization, i: nat)
    requires forall a, b :: 0 <= a < b < |ss| ==> ss[a].id != ss[b].id
    requires i < |ss| && r.sale == ss[i].id && RowConsistent(ss, r)
    ensures ss[i].total != 0.0 && r.profit == (ss[i].profit / ss[i].total) * r.payment
  {
    FindUnique(ss, (s: Sale) => s.id, i);
  }

  /**
   * The profit realised for a sale is its profit ratio times the payments
   * recorded against it; payments that add up to the sale's total realise
   * exactly the sale's profit.
   */
  lemma RealizedMatchesPaid(ss: seq<Sale>, rs: seq<ProfitRealization>, nextId: nat, i: nat)
    requires SalesValid(ss) && RealizationsValid(ss, rs, nextId)
    requires i < |ss| && ss[i].total != 0.0
    ensures RealizedFor(rs, ss[i].id) == PaidFor(rs, ss[i].id) * (ss[i].profit / ss[i].total)
    ensures PaidFor(rs, ss[i].id) == ss[i].total ==> RealizedFor(rs, ss[i].id) == ss[i].profit
  {
    var id, c := ss[i].id, ss[i].profit / ss[i].total;
    forall k | 0 <= k < |rs| && rs[k].sale == id
      ensures rs[k].profit == c * rs[k].payment
    {
      RowShare(ss, rs[k], i);
    }
    RealizedIsScaled(rs, id, c);
    RatioOfTotal(ss[i].total, ss[i].profit, PaidFor(rs, id), RealizedFor(rs, id));
  }

  /** When every row of sale `id` realises `c` per unit paid, so does the sum. */
  lemma RealizedIsScaled(rs: seq<ProfitRealization>, id: nat, c: real)
    requires forall k :: 0 <= k < |rs| && rs[k].sale == id ==> rs[k].profit == c * rs[k].payment
    ensures RealizedFor(rs, id) == PaidFor(rs, id) * c
  {
    var f := (r: ProfitRealization) => if r.sale == id then r.profit else 0.0;
    var g := (r: ProfitRealization) => if r.sale == id then r.payment else 0.0;
    SumOfScaled(rs, f, g, c);
  }

  lemma RatioOfTotal(total: real, profit: real, paid: real, realized: real)
    requires total != 0.0 && realized == paid * (profit / total)
    ensures paid == total ==> realized == profit
  {
  }
}
