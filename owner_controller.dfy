/**
 * The owner's side of the shop: recording a customer's payment against a
 * sale's due balance (with its payment voucher and the share of the sale's
 * profit it realises), and the figures on the owner's dashboard.
 */
module OwnerController {
  import opened Common
  import opened Digits
  import opened Sums
  import opened Voucher
  import opened Store

  /** The smallest payment the form accepts. */
  const MinPayment: real := 0.01

  /** `min:0.01|max:<due_amount>`: the amounts a payment against `s` may have. */
  predicate AcceptablePayment(s: Sale, amount: real) {
    MinPayment <= amount <= s.Due()
  }

  datatype PaymentOutcome =
    | SaleNotFound
    | AmountRejected
      /** The sale's total is zero: the profit ratio divides by zero after the payment was saved. */
    | DivisionByZero
    | Recorded(row: ProfitRealization)

  /** Rows the voucher query looks at: created on `d` and carrying a voucher. */
  predicate VoucherRowOn(r: ProfitRealization, d: Date) {
    r.createdOn == d && r.voucher.Some?
  }

  /**
   * The most recent voucher row of day `d`: among the rows created that day
   * with a voucher, the one with the highest id.
   */
  function LatestVoucherRow(rs: seq<ProfitRealization>, d: Date): (r: Option<ProfitRealization>)
    ensures r.Some? ==> r.value in rs && VoucherRowOn(r.value, d)
    ensures r.Some? ==> forall k :: 0 <= k < |rs| && VoucherRowOn(rs[k], d) ==> rs[k].id <= r.value.id
    ensures r.None? ==> forall k :: 0 <= k < |rs| ==> !VoucherRowOn(rs[k], d)
  {
    if rs == [] then None
    else
      var last := rs[|rs| - 1];
      var earlier := LatestVoucherRow(rs[..|rs| - 1], d);
      if VoucherRowOn(last, d) && (earlier.None? || earlier.value.id <= last.id) then Some(last)
      else earlier
  }

  /** The voucher of the most recent voucher row of day `d`, if there is one. */
  function LatestVoucher(rs: seq<ProfitRealization>, d: Date): Option<string> {
    match LatestVoucherRow(rs, d)
    case None => None
    case Some(r) => r.voucher
  }

  /** The voucher a payment recorded on `d` receives. */
  function NextPaymentVoucher(rs: seq<ProfitRealization>, d: Date): string {
    PaymentVoucher(d, NextSuffix(LatestVoucher(rs, d)))
  }

  /**
   * Records a payment of `amount` by `actor` on day `today` against sale
   * `saleId`. An unknown sale or an amount outside [0.01, due] changes
   * nothing. Otherwise the sale's paid amount grows by `amount` and one
   * realization row is appended carrying the sale, the amount, the day's next
   * voucher, the proportional profit and the actor. A sale whose total is
   * zero fails after its paid amount was saved; on a consistent store this
   * cannot happen, and consistency is kept.
   */
  method StorePayment(db: Db, saleId: nat, amount: real, actor: nat, today: Date) returns (outcome: PaymentOutcome)
    modifies db`sales, db`realizations, db`nextRealizationId
    ensures FindSale(old(db.sales), saleId).None? ==>
      outcome == SaleNotFound && db.sales == old(db.sales) && db.realizations == old(db.realizations)
    ensures FindSale(old(db.sales), saleId).Some? ==>
      var i := FindSale(old(db.sales), saleId).value;
      var s := old(db.sales)[i];
      if !AcceptablePayment(s, amount) then
        outcome == AmountRejected && db.sales == old(db.sales) && db.realizations == old(db.realizations)
      else
        db.sales == old(db.sales)[i := s.(paid := s.paid + amount)] &&
        if s.total == 0.0 then
          outcome == DivisionByZero && db.realizations == old(db.realizations)
        else
          var row := ProfitRealization(old(db.nextRealizationId), saleId, amount,
                                       Some(NextPaymentVoucher(old(db.realizations), today)),
                                       ProfitShare(s, amount), today, today, actor);
          outcome == Recorded(row) && db.realizations == old(db.realizations) + [row]
    ensures outcome.Recorded? <==> db.nextRealizationId == old(db.nextRealizationId) + 1
    ensures !outcome.Recorded? ==> db.nextRealizationId == old(db.nextRealizationId)
    ensures old(db.Valid()) ==> db.Valid() && !outcome.DivisionByZero?
  {
    var found := FindSale(db.sales, saleId);
    if found.None? {
      return SaleNotFound;
    }
    var i := found.value;
    if !AcceptablePayment(db.sales[i], amount) {
      return AmountRejected;
    }
    outcome := ApplyPayment(db, i, amount, actor, today);
  }

  /**
   * The part of `StorePayment` after validation: save the new paid amount,
   * then compute the profit share and append the realization row. A sale
   * whose total is zero stops after the save, at the division.
   */
  method ApplyPayment(db: Db, i: nat, amount: real, actor: nat, today: Date) returns (outcome: PaymentOutcome)
    requires i < |db.sales| && AcceptablePayment(db.sales[i], amount)
    modifies db`sales, db`realizations, db`nextRealizationId
    ensures var s := old(db.sales)[i];
      db.sales == old(db.sales)[i := s.(paid := s.paid + amount)] &&
      if s.total == 0.0 then
        outcome == DivisionByZero && db.realizations == old(db.realizations)
      else
        var row := ProfitRealization(old(db.nextRealizationId), s.id, amount,
                                     Some(NextPaymentVoucher(old(db.realizations), today)),
                                     ProfitShare(s, amount), today, today, actor);
        outcome == Recorded(row) && db.realizations == old(db.realizations) + [row]
    ensures outcome.Recorded? <==> db.nextRealizationId == old(db.nextRealizationId) + 1
    ensures !outcome.Recorded? ==> db.nextRealizationId == old(db.nextRealizationId)
    ensures old(db.Valid()) ==> db.Valid() && !outcome.DivisionByZero?
  {
    if db.sales[i].total == 0.0 {
      AcceptedSaleHasTotal(db.sales, i, amount);
      var sale := db.sales[i];
      db.sales := db.sales[i := sale.(paid := sale.paid + amount)];
      return DivisionByZero;
    }
    var voucher := NextPaymentVoucher(db.realizations, today);
    var row := RecordRealization(db, i, amount, voucher, actor, today);
    outcome := Recorded(row);
  }

  /** `ApplyPayment` for a sale with a non-zero total: the row, with the given voucher, is always written. */
  method RecordRealization(db: Db, i: nat, amount: real, voucher: string, actor: nat, today: Date)
    returns (row: ProfitRealization)
    requires i < |db.sales| && AcceptablePayment(db.sales[i], amount)
    requires db.sales[i].total != 0.0
    modifies db`sales, db`realizations, db`nextRealizationId
    ensures var s := old(db.sales)[i];
      db.sales == old(db.sales)[i := s.(paid := s.paid + amount)] &&
      row == ProfitRealization(old(db.nextRealizationId), s.id, amount, Some(voucher),
                               ProfitShare(s, amount), today, today, actor) &&
      db.realizations == old(db.realizations) + [row]
    ensures db.nextRealizationId == old(db.nextRealizationId) + 1
    ensures old(db.Valid()) ==> db.Valid()
  {
    var sale := db.sales[i];
    ghost var wasValid := db.Valid();
    ghost var sales0, rows0, next0 := db.sales, db.realizations, db.nextRealizationId;

    db.sales := db.sales[i := sale.(paid := sale.paid + amount)];
    row := ProfitRealization(db.nextRealizationId, sale.id, amount, Some(voucher),
                             ProfitShare(sale, amount), today, today, actor);
    db.realizations := db.realizations + [row];
    db.nextRealizationId := db.nextRealizationId + 1;
    if wasValid {
      PaymentKeepsValid(sales0, rows0, next0, i, amount, row);
    }
  }

  // ---------------------------------------------------------------------
  // Lemmas about recording payments

  /**
   * An accepted payment keeps the store consistent: the sale stays within
   * `0 <= paid <= total`, and the new row (next id, this sale, its profit
   * share) keeps every sale's recorded payments within what it was paid.
   */
  lemma PaymentKeepsValid(ss: seq<Sale>, rs: seq<ProfitRealization>, next: nat, i: nat, amount: real, row: ProfitRealization)
    requires SalesValid(ss) && RealizationsValid(ss, rs, next)
    requires i < |ss| && AcceptablePayment(ss[i], amount)
    requires ss[i].total != 0.0
    requires row.id == next && row.sale == ss[i].id && row.payment == amount
    requires row.profit == ProfitShare(ss[i], amount)
    ensures SalesValid(ss[i := ss[i].(paid := ss[i].paid + amount)])
    ensures RealizationsValid(ss[i := ss[i].(paid := ss[i].paid + amount)], rs + [row], next + 1)
  {
    var s' := ss[i].(paid := ss[i].paid + amount);
    var ss' := ss[i := s'];
    var key := (s: Sale) => s.id;
    forall k | 0 <= k < |rs| + 1
      ensures RowConsistent(ss', (rs + [row])[k])
    {
      var r := (rs + [row])[k];
      FindAfterUpdate(ss, key, i, s', r.sale);
      if k == |rs| {
        FindUnique(ss, key, i);
      } else {
        assert RowConsistent(ss, rs[k]);
      }
    }
    forall j | 0 <= j < |ss'|
      ensures PaidFor(rs + [row], ss'[j].id) <= ss'[j].paid
    {
      PaidForAppend(rs, row, ss'[j].id);
      assert PaidFor(rs, ss[j].id) <= ss[j].paid;
    }
  }

  /** On consistent sales an acceptable payment implies a positive total. */
  lemma AcceptedSaleHasTotal(ss: seq<Sale>, i: nat, amount: real)
    ensures SalesValid(ss) && i < |ss| && AcceptablePayment(ss[i], amount) ==> ss[i].total > 0.0
  {
  }

  lemma PaidForAppend(rs: seq<ProfitRealization>, row: ProfitRealization, id: nat)
    ensures PaidFor(rs + [row], id) == PaidFor(rs, id) + (if row.sale == id then row.payment else 0.0)
  {
    SumOfAppend(rs, row, (r: ProfitRealization) => if r.sale == id then r.payment else 0.0);
  }

  /**
   * Proportional realisation adds up: for any sequence of payments against a
   * sale that sum to its total, the profit shares sum to the sale's profit.
   */
  lemma ProfitSharesAddUp(s: Sale, payments: seq<real>)
    requires s.total != 0.0
    requires SumOf(payments, (p: real) => p) == s.total
    ensures SumOf(payments, (p: real) => ProfitShare(s, p)) == s.profit
  {
    var c := s.profit / s.total;
    SumOfScaled(payments, (p: real) => ProfitShare(s, p), (p: real) => p, c);
    RatioOfTotal(s.total, s.profit, SumOf(payments, (p: real) => p), SumOf(payments, (p: real) => ProfitShare(s, p)));
  }

  /**
   * On a store whose realization ids increase, the latest voucher row of a
   * day is the last such row in table order.
   */
  lemma {:induction false} LatestIsLastInTable(rs: seq<ProfitRealization>, d: Date, k: nat)
    requires forall a, b :: 0 <= a < b < |rs| ==> rs[a].id < rs[b].id
    requires k < |rs| && VoucherRowOn(rs[k], d)
    requires forall l :: k < l < |rs| ==> !VoucherRowOn(rs[l], d)
    ensures LatestVoucherRow(rs, d) == Some(rs[k])
    decreases |rs|
  {
    if k < |rs| - 1 {
      LatestIsLastInTable(rs[..|rs| - 1], d, k);
    }
  }

  /**
   * Two payments recorded on the same day, the second after the first,
   * while the day has issued fewer than 9999 vouchers, get consecutive
   * sequence numbers.
   */
  lemma ConsecutiveVouchers(rs: seq<ProfitRealization>, d: Date, n: nat, row: ProfitRealization)
    requires forall a, b :: 0 <= a < b < |rs| ==> rs[a].id < rs[b].id
    requires forall k :: 0 <= k < |rs| ==> rs[k].id < row.id
    requires n < 9999
    requires row.createdOn == d && row.voucher == Some(PaymentVoucher(d, Suffix(n)))
    ensures NextPaymentVoucher(rs + [row], d) == PaymentVoucher(d, Suffix(n + 1))
  {
    LatestIsLastInTable(rs + [row], d, |rs|);
    NextAfter(d, n);
  }

  // ---------------------------------------------------------------------
  // Dashboard figures

  /** A reporting window: one day, or one calendar month. */
  datatype Window = Day(date: Date) | Month(year: nat, month: nat)

  predicate InWindow(w: Window, d: Date) {
    match w
    case Day(date) => d == date
    case Month(y, m) => d.year == y && d.month == m
  }

  /** The month window that contains day `d`. */
  function MonthOf(d: Date): Window {
    Month(d.year, d.month)
  }

  /** Sum of `total_amount` over the sales made in the window. */
  function SalesTotal(ss: seq<Sale>, w: Window): real {
    SumOf(ss, (s: Sale) => if InWindow(w, s.createdOn) then s.total else 0.0)
  }

  /** Sum of `profit` over the sales made in the window. */
  function SalesProfit(ss: seq<Sale>, w: Window): real {
    SumOf(ss, (s: Sale) => if InWindow(w, s.createdOn) then s.profit else 0.0)
  }

  /** Sum of `profit_amount` over the payments received in the window. */
  function RealizedProfit(rs: seq<ProfitRealization>, w: Window): real {
    SumOf(rs, (r: ProfitRealization) => if InWindow(w, r.paidOn) then r.profit else 0.0)
  }

  /** Sum of `amount` over the expenses of the window. */
  function ExpensesTotal(es: seq<Expense>, w: Window): real {
    SumOf(es, (e: Expense) => if InWindow(w, e.spentOn) then e.amount else 0.0)
  }

  /** Cash in hand: profit realised in the window less the window's expenses. */
  function CashInHand(rs: seq<ProfitRealization>, es: seq<Expense>, w: Window): real {
    RealizedProfit(rs, w) - ExpensesTotal(es, w)
  }

  /** Stock valuation: current stock times purchase price, over every product. */
  function StockValue(ps: seq<Product>): real {
    SumOf(ps, (p: Product) => (p.stock as real) * p.purchasePrice)
  }

  /** Customer dues: `due_amount` summed over the sales that still have some due. */
  function TotalDue(ss: seq<Sale>): real {
    SumOf(ss, (s: Sale) => if s.Due() > 0.0 then s.Due() else 0.0)
  }

  datatype Figures = Figures(
    todaySales: real, todayProfit: real, todayRealizedProfit: real, todayExpenses: real,
    monthSales: real, monthProfit: real, monthRealizedProfit: real, monthExpenses: real,
    todayCashInHand: real, monthCashInHand: real,
    totalStockValue: real, totalDue: real)

  /**
   * The owner's dashboard for day `today`. Cash in hand is realised profit
   * less expenses in both windows; on a consistent store the total due and
   * the stock value are never negative and the day's sales never exceed the
   * month's.
   */
  function Dashboard(ss: seq<Sale>, rs: seq<ProfitRealization>, es: seq<Expense>, ps: seq<Product>, today: Date): (f: Figures)
    ensures f.todayCashInHand == f.todayRealizedProfit - f.todayExpenses
    ensures f.monthCashInHand == f.monthRealizedProfit - f.monthExpenses
    ensures SalesValid(ss) ==> f.totalDue >= 0.0 && f.todaySales <= f.monthSales
    ensures (forall i :: 0 <= i < |ps| ==> ps[i].stock >= 0 && ps[i].purchasePrice >= 0.0) ==> f.totalStockValue >= 0.0
  {
    var day, month := Day(today), MonthOf(today);
    TotalDueNonNegative(ss);
    DayWithinMonth(ss, today);
    StockValueNonNegative(ps);
    Figures(
      SalesTotal(ss, day), SalesProfit(ss, day), RealizedProfit(rs, day), ExpensesTotal(es, day),
      SalesTotal(ss, month), SalesProfit(ss, month), RealizedProfit(rs, month), ExpensesTotal(es, month),
      CashInHand(rs, es, day), CashInHand(rs, es, month),
      StockValue(ps), TotalDue(ss))
  }

  // ---------------------------------------------------------------------
  // Lemmas about the dashboard figures

  lemma TotalDueNonNegative(ss: seq<Sale>)
    ensures TotalDue(ss) >= 0.0
  {
    SumOfNonNegative(ss, (s: Sale) => if s.Due() > 0.0 then s.Due() else 0.0);
  }

  /**
   * On consistent sales no due is negative, so leaving out the sales with
   * nothing due changes nothing: the total due is what all sales are owed.
   */
  lemma TotalDueIsOutstanding(ss: seq<Sale>)
    requires SalesValid(ss)
    ensures TotalDue(ss) == SumOf(ss, (s: Sale) => s.total - s.paid)
  {
    SumOfCongruent(ss, (s: Sale) => if s.Due() > 0.0 then s.Due() else 0.0, (s: Sale) => s.total - s.paid);
  }

  /** An accepted payment lowers the total due by exactly its amount. */
  lemma PaymentLowersTotalDue(ss: seq<Sale>, i: nat, amount: real)
    requires i < |ss| && AcceptablePayment(ss[i], amount)
    ensures TotalDue(ss[i := ss[i].(paid := ss[i].paid + amount)]) == TotalDue(ss) - amount
  {
    SumOfUpdate(ss, i, ss[i].(paid := ss[i].paid + amount), (s: Sale) => if s.Due() > 0.0 then s.Due() else 0.0);
  }

  /**
   * A new realization row raises the cash in hand of every window holding
   * its payment date by its profit, and leaves other windows as they were.
   */
  lemma RowRaisesCashInHand(rs: seq<ProfitRealization>, es: seq<Expense>, row: ProfitRealization, w: Window)
    ensures CashInHand(rs + [row], es, w) == CashInHand(rs, es, w) + (if InWindow(w, row.paidOn) then row.profit else 0.0)
  {
    SumOfAppend(rs, row, (r: ProfitRealization) => if InWindow(w, r.paidOn) then r.profit else 0.0);
  }

  /** On consistent sales (totals are not negative) a day's sales never exceed its month's. */
  lemma DayWithinMonth(ss: seq<Sale>, d: Date)
    ensures SalesValid(ss) ==> SalesTotal(ss, Day(d)) <= SalesTotal(ss, MonthOf(d))
  {
    if SalesValid(ss) {
      SumOfMonotone(ss, (s: Sale) => if InWindow(Day(d), s.createdOn) then s.total else 0.0,
                        (s: Sale) => if InWindow(MonthOf(d), s.createdOn) then s.total else 0.0);
    }
  }

  lemma StockValueNonNegative(ps: seq<Product>)
    ensures (forall i :: 0 <= i < |ps| ==> ps[i].stock >= 0 && ps[i].purchasePrice >= 0.0) ==> StockValue(ps) >= 0.0
  {
    if forall i :: 0 <= i < |ps| ==> ps[i].stock >= 0 && ps[i].purchasePrice >= 0.0 {
      SumOfNonNegative(ps, (p: Product) => (p.stock as real) * p.purchasePrice);
    }
  }
}
