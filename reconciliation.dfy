/** The end-of-day reconciliation panel: today's approved takings per payment
    method, the cash counted against the cash expected, and the warnings and
    counts beside them. */
module Reconciliation {
  import opened Seqs
  import opened Domain

  // ---------------------------------------------------------------------
  // Expected takings

  predicate PaidBy(s: Sale, way: string)
  {
    s.paymentMethod == way
  }

  /** A sale counts towards a method's takings when it used that method and is approved. */
  predicate Expected(s: Sale, way: string)
  {
    s.paymentMethod == way && s.status == Approved
  }

  function ExpectedBy(way: string): Sale -> bool
  {
    (s: Sale) => Expected(s, way)
  }

  /** The approved takings of today for one payment method. */
  function MethodTotal(sales: seq<Sale>, now: int, way: string): int
  {
    Sum(Filter(TodaySales(sales, now), ExpectedBy(way)), TotalAmount)
  }

  function CashSales(sales: seq<Sale>, now: int): int
  {
    MethodTotal(sales, now, "cash")
  }

  function TransferSales(sales: seq<Sale>, now: int): int
  {
    MethodTotal(sales, now, "transfer")
  }

  function PosSales(sales: seq<Sale>, now: int): int
  {
    MethodTotal(sales, now, "pos")
  }

  /** Cash, transfer and POS together; a sale paid any other way (credit) is never expected. */
  function TotalExpected(sales: seq<Sale>, now: int): int
  {
    CashSales(sales, now) + TransferSales(sales, now) + PosSales(sales, now)
  }

  /** A method's takings are the sales made today, approved and paid that way. */
  lemma MethodTotalMeaning(sales: seq<Sale>, now: int, way: string)
    ensures MethodTotal(sales, now, way)
            == Sum(Filter(sales, (s: Sale) => SameDay(s, now) && Expected(s, way)), TotalAmount)
  {
    FilterFilter(sales, SameDayAs(now), ExpectedBy(way), (s: Sale) => SameDay(s, now) && Expected(s, way));
  }

  /** One more sale adds its amount to a method's takings exactly when it was
      made today, is approved and used that method. */
  lemma MethodTotalAppend(sales: seq<Sale>, s: Sale, now: int, way: string)
    ensures MethodTotal(sales + [s], now, way)
            == MethodTotal(sales, now, way) + (if SameDay(s, now) && Expected(s, way) then s.totalAmount else 0)
  {
    var today := TodaySales(sales, now);
    FilterSnoc(sales, s, SameDayAs(now));
    if SameDay(s, now) {
      FilterSnoc(today, s, ExpectedBy(way));
      if Expected(s, way) {
        SumSnoc(Filter(today, ExpectedBy(way)), s, TotalAmount);
      }
    }
  }

  /** A sale that is not from today, not approved, or paid by some other
      method (credit) leaves the expected total where it was. */
  lemma IgnoredSaleLeavesExpected(sales: seq<Sale>, s: Sale, now: int)
    requires !(SameDay(s, now) && s.status == Approved)
             || (s.paymentMethod != "cash" && s.paymentMethod != "transfer" && s.paymentMethod != "pos")
    ensures TotalExpected(sales + [s], now) == TotalExpected(sales, now)
  {
    MethodTotalAppend(sales, s, now, "cash");
    MethodTotalAppend(sales, s, now, "transfer");
    MethodTotalAppend(sales, s, now, "pos");
  }

  /** An approved cash sale of today raises the expected cash and the expected total by its amount. */
  lemma ApprovedCashSaleIsExpected(sales: seq<Sale>, s: Sale, now: int)
    requires SameDay(s, now) && s.status == Approved && s.paymentMethod == "cash"
    ensures CashSales(sales + [s], now) == CashSales(sales, now) + s.totalAmount
    ensures TotalExpected(sales + [s], now) == TotalExpected(sales, now) + s.totalAmount
  {
    MethodTotalAppend(sales, s, now, "cash");
    MethodTotalAppend(sales, s, now, "transfer");
    MethodTotalAppend(sales, s, now, "pos");
  }

  // ---------------------------------------------------------------------
  // Cash counted against cash expected

  /** `Number.parseFloat(cashReceived) || 0`, given the parse: no number (NaN) counts as 0. */
  function CashReceivedNum(parsed: Option<real>): real
  {
    if parsed.Some? then parsed.value else 0.0
  }

  function Difference(parsed: Option<real>, cashSales: int): (d: real)
    ensures parsed.None? ==> d == -(cashSales as real)
    ensures parsed.Some? ==> d + cashSales as real == parsed.value
  {
    CashReceivedNum(parsed) - cashSales as real
  }

  function Abs(x: real): (r: real)
    ensures r >= 0.0 && (r == x || r == -x)
  {
    if x < 0.0 then -x else x
  }

  predicate IsBalanced(d: real)
  {
    Abs(d) < 1.0
  }

  datatype Outcome = Balanced | Over(amount: real) | Short(amount: real)

  /** Balanced within one unit either way; otherwise over or short by the size
      of the difference. */
  function OutcomeOf(d: real): (o: Outcome)
    ensures o.Balanced? <==> -1.0 < d < 1.0
    ensures o.Over? <==> d >= 1.0
    ensures o.Short? <==> d <= -1.0
    ensures !o.Balanced? ==> o.amount >= 1.0 && (o.amount == d || o.amount == -d)
  {
    if IsBalanced(d) then Balanced else if d > 0.0 then Over(Abs(d)) else Short(Abs(d))
  }

  function Heading(o: Outcome): string
  {
    match o
    case Balanced => "Cash Balanced!"
    case Over(_) => "Over by"
    case Short(_) => "Short by"
  }

  /** The result box appears once the cash field is non-empty. */
  function ShownOutcome(cashReceived: string, parsed: Option<real>, sales: seq<Sale>, now: int): (r: Option<Outcome>)
    ensures cashReceived == "" <==> r.None?
  {
    if cashReceived == "" then None else Some(OutcomeOf(Difference(parsed, CashSales(sales, now))))
  }

  /** Counting exactly the expected cash balances; counting one unit more
      than expected is over by that unit. */
  lemma ExactCashBalances(sales: seq<Sale>, now: int, cashReceived: string)
    requires cashReceived != ""
    ensures ShownOutcome(cashReceived, Some(CashSales(sales, now) as real), sales, now) == Some(Balanced)
    ensures ShownOutcome(cashReceived, Some(CashSales(sales, now) as real + 1.0), sales, now) == Some(Over(1.0))
  {
  }

  /** Typing something that is not a number with cash expected reports the whole expected cash as short. */
  lemma UnparsedCashIsShort(sales: seq<Sale>, now: int, cashReceived: string)
    requires cashReceived != ""
    requires CashSales(sales, now) >= 1
    ensures ShownOutcome(cashReceived, None, sales, now) == Some(Short(CashSales(sales, now) as real))
  {
  }

  /** The complete button is disabled while saving or before any cash is entered. */
  predicate SubmitDisabled(isSubmitting: bool, cashReceived: string)
  {
    isSubmitting || cashReceived == ""
  }

  // ---------------------------------------------------------------------
  // Counts

  function PaidWith(way: string): Sale -> bool
  {
    (s: Sale) => PaidBy(s, way)
  }

  /** The "n sales" beside each method: today's sales paid that way, of every status. */
  function MethodCount(sales: seq<Sale>, now: int, way: string): nat
  {
    Count(TodaySales(sales, now), PaidWith(way))
  }

  function PendingToday(sales: seq<Sale>, now: int): nat
  {
    Count(TodaySales(sales, now), IsPending)
  }

  predicate ShowPendingWarning(sales: seq<Sale>, now: int)
  {
    PendingToday(sales, now) > 0
  }

  /** The count beside a method also includes its pending and disputed sales,
      so it is at least the number of sales behind the method's takings. */
  lemma MethodCountCoversExpected(sales: seq<Sale>, now: int, way: string)
    ensures |Filter(TodaySales(sales, now), ExpectedBy(way))| <= MethodCount(sales, now, way)
  {
    FilterMonotone(TodaySales(sales, now), ExpectedBy(way), PaidWith(way));
    SubsequenceLength(Filter(TodaySales(sales, now), ExpectedBy(way)), Filter(TodaySales(sales, now), PaidWith(way)));
  }

  /** A pending sale of today raises the warning and adds nothing to the takings. */
  lemma PendingSaleWarnsButIsNotExpected(sales: seq<Sale>, s: Sale, now: int)
    requires SameDay(s, now) && s.status == Pending
    ensures ShowPendingWarning(sales + [s], now)
    ensures TotalExpected(sales + [s], now) == TotalExpected(sales, now)
  {
    IgnoredSaleLeavesExpected(sales, s, now);
    assert [s][..0] == [];
    FilterAppend(sales, [s], SameDayAs(now));
    FilterAppend(TodaySales(sales, now), [s], IsPending);
  }
}
