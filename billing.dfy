/**
 * Bills, payments and the income ledger: invoice numbering on bill creation,
 * bill deletion, and the rule that a payment marks its bill paid once the
 * payments recorded against it reach the bill's total. Money is in integer
 * minor units (paise).
 */
module Billing {
  import opened Optional
  import opened Calendar
  import opened Text

  datatype BillStatus = BillPending | Paid | BillOverdue | Cancelled

  datatype Bill = Bill(
    id: int,
    clientId: int,
    billNumber: string,
    billDate: CivilDate,
    dueDate: Option<CivilDate>,
    totalAmount: int,
    status: BillStatus,
    notes: Option<string>)

  datatype PaymentMethod = Cash | Cheque | BankTransfer | Upi | Card

  datatype Payment = Payment(
    id: int,
    billId: int,
    clientId: int,
    amount: int,
    paymentDate: CivilDate,
    paymentMethod: PaymentMethod,
    referenceNumber: Option<string>,
    notes: Option<string>)

  datatype Income = Income(
    id: int,
    clientId: int,
    billId: int,
    paymentId: int,
    amount: int,
    description: string,
    category: string,
    incomeDate: CivilDate)

  /** The body of `POST /api/payments`. */
  datatype PaymentRequest = PaymentRequest(
    billId: int,
    clientId: int,
    amount: int,
    paymentDate: CivilDate,
    paymentMethod: PaymentMethod,
    referenceNumber: Option<string>,
    notes: Option<string>)

  datatype LedgerError =
    | BillNotFound          // `bill` is undefined, so reading its total throws
    | DuplicateBillNumber   // the UNIQUE constraint on `bill_number` rejects the insert

  /** The rows of the `bills`, `payments` and `income` tables and their next AUTOINCREMENT ids. */
  datatype LedgerState = LedgerState(
    bills: seq<Bill>,
    payments: seq<Payment>,
    income: seq<Income>,
    nextBillId: int,
    nextPaymentId: int,
    nextIncomeId: int)

  // ---------------------------------------------------------------------------
  // Queries

  /** `SELECT ... FROM bills WHERE id = ?` with `.get`: the first matching row, if any. */
  function FindBill(bills: seq<Bill>, id: int): (r: Option<Bill>)
    ensures r.Some? ==> r.value in bills && r.value.id == id
    ensures r.None? <==> forall b :: b in bills ==> b.id != id
  {
    if |bills| == 0 then None
    else if bills[0].id == id then Some(bills[0])
    else FindBill(bills[1..], id)
  }

  /** `SELECT SUM(amount) FROM payments WHERE bill_id = ?`, with an empty sum as 0. */
  function PaidTotal(payments: seq<Payment>, billId: int): int {
    if |payments| == 0 then 0
    else PaidTotal(payments[..|payments| - 1], billId)
         + (if payments[|payments| - 1].billId == billId then payments[|payments| - 1].amount else 0)
  }

  lemma PaidTotalAppend(payments: seq<Payment>, p: Payment, billId: int)
    ensures PaidTotal(payments + [p], billId)
            == PaidTotal(payments, billId) + (if p.billId == billId then p.amount else 0)
  {
    assert (payments + [p])[..|payments|] == payments;
  }

  /** `UPDATE bills SET status = 'paid' WHERE id = ?`. */
  function MarkPaid(bills: seq<Bill>, id: int): (r: seq<Bill>)
    ensures |r| == |bills|
    ensures forall i :: 0 <= i < |bills| ==>
              r[i] == if bills[i].id == id then bills[i].(status := Paid) else bills[i]
  {
    seq(|bills|, i requires 0 <= i < |bills| =>
      if bills[i].id == id then bills[i].(status := Paid) else bills[i])
  }

  predicate UniqueBillIds(bills: seq<Bill>) {
    forall i, j :: 0 <= i < j < |bills| ==> bills[i].id != bills[j].id
  }

  // ---------------------------------------------------------------------------
  // POST /api/payments

  function NewPayment(l: LedgerState, req: PaymentRequest): Payment {
    Payment(l.nextPaymentId, req.billId, req.clientId, req.amount, req.paymentDate,
            req.paymentMethod, req.referenceNumber, req.notes)
  }

  function NewIncome(l: LedgerState, req: PaymentRequest): Income {
    Income(l.nextIncomeId, req.clientId, req.billId, l.nextPaymentId, req.amount,
           "Payment received", "Service Income", req.paymentDate)
  }

  /**
   * The ledger after a payment request. The payment row is inserted first;
   * when the bill is missing the handler throws before touching bills or
   * income, and the payment row stays. Otherwise the bill becomes paid when
   * the summed payments (the new one included) reach its total, whatever its
   * status was, and an income row is inserted.
   */
  function Recorded(l: LedgerState, req: PaymentRequest): LedgerState {
    var payments := l.payments + [NewPayment(l, req)];
    match FindBill(l.bills, req.billId)
    case None => l.(payments := payments, nextPaymentId := l.nextPaymentId + 1)
    case Some(bill) =>
      var bills := if PaidTotal(payments, req.billId) >= bill.totalAmount
                   then MarkPaid(l.bills, req.billId) else l.bills;
      LedgerState(bills, payments, l.income + [NewIncome(l, req)],
                  l.nextBillId, l.nextPaymentId + 1, l.nextIncomeId + 1)
  }

  /** The response: the new payment's id, or the error. */
  function RecordOutcome(l: LedgerState, req: PaymentRequest): Result<int, LedgerError> {
    if FindBill(l.bills, req.billId).Some? then Ok(l.nextPaymentId) else Err(BillNotFound)
  }

  /**
   * Read back after a payment: the bill is paid exactly when the payments
   * against it reach its total, and otherwise keeps its status; every other
   * bill is unchanged; one payment row and, for a known bill, one income row
   * are appended.
   */
  lemma PaymentSettles(l: LedgerState, req: PaymentRequest, bill: Bill)
    requires UniqueBillIds(l.bills) && bill in l.bills && bill.id == req.billId
    ensures var after := Recorded(l, req);
            var paid := PaidTotal(l.payments, req.billId) + req.amount;
            && |after.bills| == |l.bills|
            && UniqueBillIds(after.bills)
            && FindBill(after.bills, req.billId)
               == Some(if paid >= bill.totalAmount then bill.(status := Paid) else bill)
            && (forall i :: 0 <= i < |l.bills| && l.bills[i].id != req.billId ==>
                  after.bills[i] == l.bills[i])
            && after.payments == l.payments + [NewPayment(l, req)]
            && after.income == l.income + [NewIncome(l, req)]
  {
    PaidTotalAppend(l.payments, NewPayment(l, req), req.billId);
    var k := FindIndex(l.bills, bill);
    FindUnique(l.bills, k);
    var after := Recorded(l, req);
    if PaidTotal(l.payments, req.billId) + req.amount >= bill.totalAmount {
      assert after.bills == MarkPaid(l.bills, req.billId);
      assert after.bills[k] == bill.(status := Paid);
      FindUnique(after.bills, k);
    } else {
      assert after.bills == l.bills;
    }
  }

  /** A payment against a bill that does not exist is stored, and nothing else changes. */
  lemma PaymentForMissingBill(l: LedgerState, req: PaymentRequest)
    requires forall b :: b in l.bills ==> b.id != req.billId
    ensures RecordOutcome(l, req) == Err(BillNotFound)
    ensures Recorded(l, req) == l.(payments := l.payments + [NewPayment(l, req)],
                                   nextPaymentId := l.nextPaymentId + 1)
  {
  }

  lemma FindIndex(bills: seq<Bill>, b: Bill) returns (k: int)
    requires b in bills
    ensures 0 <= k < |bills| && bills[k] == b
  {
    k :| 0 <= k < |bills| && bills[k] == b;
  }

  /** With unique ids, the row at `k` is the one found by its id. */
  lemma {:induction false} FindUnique(bills: seq<Bill>, k: int)
    requires UniqueBillIds(bills) && 0 <= k < |bills|
    ensures FindBill(bills, bills[k].id) == Some(bills[k])
    decreases k
  {
    if k > 0 {
      assert bills[0].id != bills[k].id;
      assert bills[1..][k - 1] == bills[k];
      FindUnique(bills[1..], k - 1);
    }
  }

  /** Payments replayed one after another. */
  function Replay(l: LedgerState, reqs: seq<PaymentRequest>): LedgerState
    decreases |reqs|
  {
    if |reqs| == 0 then l else Recorded(Replay(l, reqs[..|reqs| - 1]), reqs[|reqs| - 1])
  }

  /**
   * Instalments: after one or more non-negative payments against a bill, the
   * bill is paid exactly when it was paid before or the payments now reach
   * its total. A paid bill never goes back, and the running total only grows,
   * so the last payment decides.
   */
  lemma {:induction false} InstalmentsSettle(l: LedgerState, bill: Bill, reqs: seq<PaymentRequest>)
    requires UniqueBillIds(l.bills) && bill in l.bills
    requires |reqs| >= 1
    requires forall i :: 0 <= i < |reqs| ==> reqs[i].billId == bill.id && reqs[i].amount >= 0
    ensures var after := Replay(l, reqs);
            && UniqueBillIds(after.bills)
            && FindBill(after.bills, bill.id).Some?
            && (FindBill(after.bills, bill.id).value.status == Paid
                <==> bill.status == Paid || PaidTotal(after.payments, bill.id) >= bill.totalAmount)
            && FindBill(after.bills, bill.id).value.(status := bill.status) == bill
    decreases |reqs|
  {
    var init := reqs[..|reqs| - 1];
    var last := reqs[|reqs| - 1];
    var mid := Replay(l, init);
    if |init| == 0 {
      PaymentSettles(l, last, bill);
    } else {
      InstalmentsSettle(l, bill, init);
      var cur := FindBill(mid.bills, bill.id).value;
      var k := FindIndex(mid.bills, cur);
      PaymentSettles(mid, last, cur);
      PaidTotalAppend(mid.payments, NewPayment(mid, last), bill.id);
    }
  }

  // ---------------------------------------------------------------------------
  // Invoice numbers

  /** `INV-<year>-<count+1 padded to four digits>`. */
  function BillNumber(year: nat, count: nat): string {
    "INV-" + Decimal(year) + "-" + PadStart(Decimal(count + 1), 4, '0')
  }

  /** Reads back `(year, sequence)` from a number with a four-digit year. */
  function ParseBillNumber(s: string): (r: Option<(nat, nat)>)
    ensures r.Some? ==> |s| >= 10
  {
    if |s| >= 10 && s[..4] == "INV-" && AllDigits(s[4..8]) && s[8] == '-' && AllDigits(s[9..])
    then Some((DigitsValue(s[4..8]), DigitsValue(s[9..])))
    else None
  }

  /** For four-digit years the number reads back to its year and `count + 1`. */
  lemma BillNumberRoundTrip(year: nat, count: nat)
    requires 1000 <= year <= 9999
    ensures ParseBillNumber(BillNumber(year, count)) == Some((year, count + 1))
  {
    var y := Decimal(year);
    var p := PadStart(Decimal(count + 1), 4, '0');
    DecimalLength(year);
    DecimalRoundTrip(year);
    PaddedValue(count + 1, 4);
    BillNumberParts(y, p);
  }

  lemma BillNumberParts(y: string, p: string)
    requires |y| == 4
    ensures var s := "INV-" + y + "-" + p;
            |s| == 9 + |p| && s[..4] == "INV-" && s[4..8] == y && s[8] == '-' && s[9..] == p
  {
  }

  /** Distinct (year, count) pairs give distinct numbers. */
  lemma BillNumberInjective(y1: nat, c1: nat, y2: nat, c2: nat)
    requires 1000 <= y1 <= 9999 && 1000 <= y2 <= 9999
    requires BillNumber(y1, c1) == BillNumber(y2, c2)
    ensures y1 == y2 && c1 == c2
  {
    BillNumberRoundTrip(y1, c1);
    BillNumberRoundTrip(y2, c2);
  }

  /** The sequence part of a parseable number, 0 for any other string. */
  function SequenceOf(s: string): nat {
    match ParseBillNumber(s)
    case Some((_, n)) => n
    case None => 0
  }

  /** The largest sequence part among the bills' numbers. */
  function MaxSequence(bills: seq<Bill>): (m: nat)
    ensures forall b :: b in bills ==> SequenceOf(b.billNumber) <= m
  {
    if |bills| == 0 then 0
    else
      var rest := MaxSequence(bills[1..]);
      var n := SequenceOf(bills[0].billNumber);
      if n > rest then n else rest
  }

  /** The number the handler picks: the count of bills now in the table, plus one. */
  function CountedBillNumber(year: nat, bills: seq<Bill>): string {
    BillNumber(year, |bills|)
  }

  /** A number one past the largest sequence in use, so it can collide with none. */
  function FreshBillNumber(year: nat, bills: seq<Bill>): string {
    BillNumber(year, MaxSequence(bills))
  }

  predicate NumberInUse(bills: seq<Bill>, number: string) {
    exists b :: b in bills && b.billNumber == number
  }

  /** The fresh number is not used by any bill, whatever was deleted before. */
  lemma FreshBillNumberUnused(year: nat, bills: seq<Bill>)
    requires 1000 <= year <= 9999
    ensures !NumberInUse(bills, FreshBillNumber(year, bills))
  {
    var number := FreshBillNumber(year, bills);
    BillNumberRoundTrip(year, MaxSequence(bills));
    assert SequenceOf(number) == MaxSequence(bills) + 1;
  }

  predicate UniqueBillNumbers(bills: seq<Bill>) {
    forall i, j :: 0 <= i < j < |bills| ==> bills[i].billNumber != bills[j].billNumber
  }

  // ---------------------------------------------------------------------------
  // POST /api/bills and DELETE /api/bills/:id

  /** The fields of a new bill besides its number (the total stands for subtotal plus GST). */
  datatype BillRequest = BillRequest(
    clientId: int,
    dueDate: Option<CivilDate>,
    totalAmount: int,
    notes: Option<string>)

  function NewBill(l: LedgerState, req: BillRequest, number: string, today: CivilDate): Bill {
    Bill(l.nextBillId, req.clientId, number, today, req.dueDate, req.totalAmount, BillPending, req.notes)
  }

  /**
   * Bill creation as the handler numbers it: `year` is the server's
   * `new Date().getFullYear()` and `today` the database's `DATE('now')`.
   * A number already in use fails the insert and leaves the tables unchanged.
   */
  function CreatedAsWritten(l: LedgerState, req: BillRequest, year: nat, today: CivilDate)
    : (r: (LedgerState, Result<int, LedgerError>))
    ensures r.1.Err? <==> NumberInUse(l.bills, CountedBillNumber(year, l.bills))
    ensures r.1.Err? ==> r.0 == l
  {
    var number := CountedBillNumber(year, l.bills);
    if NumberInUse(l.bills, number) then (l, Err(DuplicateBillNumber))
    else (l.(bills := l.bills + [NewBill(l, req, number, today)], nextBillId := l.nextBillId + 1),
          Ok(l.nextBillId))
  }

  /** Bill creation numbered with `FreshBillNumber`, which cannot collide. */
  function Created(l: LedgerState, req: BillRequest, year: nat, today: CivilDate): LedgerState {
    var number := FreshBillNumber(year, l.bills);
    l.(bills := l.bills + [NewBill(l, req, number, today)], nextBillId := l.nextBillId + 1)
  }

  /** Creation keeps invoice numbers unique. */
  lemma CreateKeepsNumbersUnique(l: LedgerState, req: BillRequest, year: nat, today: CivilDate)
    requires 1000 <= year <= 9999
    requires UniqueBillNumbers(l.bills)
    ensures UniqueBillNumbers(Created(l, req, year, today).bills)
    ensures Created(l, req, year, today).bills[|l.bills|].billNumber
            == FreshBillNumber(year, l.bills)
  {
    FreshBillNumberUnused(year, l.bills);
    var bills := Created(l, req, year, today).bills;
    forall i, j | 0 <= i < j < |bills|
      ensures bills[i].billNumber != bills[j].billNumber
    {
      if j == |l.bills| {
        assert bills[i] in l.bills;
      }
    }
  }

  /** `DELETE FROM bills WHERE id = ?` (its line items are not modelled). */
  function Deleted(l: LedgerState, id: int): (r: LedgerState)
    ensures forall b :: b in r.bills <==> b in l.bills && b.id != id
  {
    l.(bills := RemoveBill(l.bills, id))
  }

  function RemoveBill(bills: seq<Bill>, id: int): (r: seq<Bill>)
    ensures forall b :: b in r <==> b in bills && b.id != id
    ensures |r| <= |bills|
  {
    if |bills| == 0 then []
    else if bills[0].id == id then RemoveBill(bills[1..], id)
    else [bills[0]] + RemoveBill(bills[1..], id)
  }

  const EmptyLedger := LedgerState([], [], [], 1, 1, 1)

  const SampleBill := BillRequest(1, None, 118000, None)

  lemma SampleYear()
    ensures Decimal(2024) == "2024"
  {
    assert Decimal(2) == "2";
    assert Decimal(20) == "20";
    assert Decimal(202) == "202";
  }

  lemma SampleNumbers()
    ensures BillNumber(2024, 0) == "INV-2024-0001"
    ensures BillNumber(2024, 1) == "INV-2024-0002"
  {
    SampleYear();
    assert PadStart(Decimal(1), 4, '0') == "0001";
    assert PadStart(Decimal(2), 4, '0') == "0002";
  }

  /**
   * Two bills created in 2024, then the first deleted: one bill remains,
   * INV-2024-0002, so the handler picks INV-2024-0002 again and the insert
   * fails. The count stays at one, so every later creation fails the same way.
   */
  lemma CountedNumberCollides()
    ensures var today: CivilDate := Date(2024, 3, 15);
            var l1 := CreatedAsWritten(EmptyLedger, SampleBill, 2024, today).0;
            var l2 := CreatedAsWritten(l1, SampleBill, 2024, today).0;
            var l3 := Deleted(l2, 1);
            && l3.bills == [NewBill(l1, SampleBill, "INV-2024-0002", today)]
            && CreatedAsWritten(l3, SampleBill, 2024, today).1 == Err(DuplicateBillNumber)
  {
    var today: CivilDate := Date(2024, 3, 15);
    SampleNumbers();
    var b1 := NewBill(EmptyLedger, SampleBill, "INV-2024-0001", today);
    var l1 := CreatedAsWritten(EmptyLedger, SampleBill, 2024, today).0;
    assert l1.bills == [b1];
    var b2 := NewBill(l1, SampleBill, "INV-2024-0002", today);
    assert !NumberInUse(l1.bills, "INV-2024-0002") by {
      assert "INV-2024-0001"[12] != "INV-2024-0002"[12];
    }
    var l2 := CreatedAsWritten(l1, SampleBill, 2024, today).0;
    assert l2.bills == [b1, b2];
    var l3 := Deleted(l2, 1);
    assert RemoveBill([b2], 1) == [b2];
    assert l3.bills == [b2];
    assert b2 in l3.bills;
  }

  // ---------------------------------------------------------------------------
  // The tables as mutable state

  class Ledger {
    var bills: seq<Bill>
    var payments: seq<Payment>
    var income: seq<Income>
    var nextBillId: int
    var nextPaymentId: int
    var nextIncomeId: int

    function Snapshot(): LedgerState
      reads this
    {
      LedgerState(bills, payments, income, nextBillId, nextPaymentId, nextIncomeId)
    }

    /** Bill ids and invoice numbers are unique. */
    ghost predicate Valid()
      reads this
    {
      BillsValid(bills, nextBillId)
    }

    constructor ()
      ensures Snapshot() == EmptyLedger && Valid()
    {
      bills, payments, income := [], [], [];
      nextBillId, nextPaymentId, nextIncomeId := 1, 1, 1;
    }

    /** `POST /api/payments`. */
    method RecordPayment(req: PaymentRequest) returns (r: Result<int, LedgerError>)
      requires Valid()
      modifies this
      ensures Snapshot() == Recorded(old(Snapshot()), req)
      ensures r == RecordOutcome(old(Snapshot()), req)
      ensures Valid()
    {
      RecordKeepsValid(Snapshot(), req);
      var paymentId := nextPaymentId;
      payments := payments + [NewPayment(Snapshot(), req)];
      nextPaymentId := nextPaymentId + 1;
      var bill := FindBill(bills, req.billId);
      if bill.None? {
        return Err(BillNotFound);
      }
      var totalPaid := PaidTotal(payments, req.billId);
      if totalPaid >= bill.value.totalAmount {
        bills := MarkPaid(bills, req.billId);
      }
      income := income + [Income(nextIncomeId, req.clientId, req.billId, paymentId, req.amount,
                                 "Payment received", "Service Income", req.paymentDate)];
      nextIncomeId := nextIncomeId + 1;
      r := Ok(paymentId);
    }

    /** `POST /api/bills`, numbered so that it cannot collide. */
    method CreateBill(req: BillRequest, year: nat, today: CivilDate) returns (id: int, number: string)
      requires Valid() && 1000 <= year <= 9999
      modifies this
      ensures Snapshot() == Created(old(Snapshot()), req, year, today)
      ensures id == old(nextBillId) && number == FreshBillNumber(year, old(bills))
      ensures Valid()
    {
      CreateKeepsNumbersUnique(Snapshot(), req, year, today);
      id := nextBillId;
      number := FreshBillNumber(year, bills);
      bills := bills + [Bill(id, req.clientId, number, today, req.dueDate, req.totalAmount,
                             BillPending, req.notes)];
      nextBillId := nextBillId + 1;
    }

    /** `DELETE /api/bills/:id`. */
    method DeleteBill(id: int)
      requires Valid()
      modifies this
      ensures Snapshot() == Deleted(old(Snapshot()), id)
      ensures Valid()
    {
      RemoveKeepsUnique(bills, id);
      bills := RemoveBill(bills, id);
    }
  }

  /** Bill-table invariant of the ledger: unique ids and numbers, ids below the next one. */
  predicate BillsValid(bills: seq<Bill>, nextBillId: int) {
    UniqueBillIds(bills) && UniqueBillNumbers(bills)
    && forall b :: b in bills ==> b.id < nextBillId
  }

  /** Marking bills paid changes only their status. */
  lemma MarkPaidKeepsValid(bills: seq<Bill>, id: int, nextBillId: int)
    requires BillsValid(bills, nextBillId)
    ensures BillsValid(MarkPaid(bills, id), nextBillId)
  {
    var r := MarkPaid(bills, id);
    forall b | b in r
      ensures b.id < nextBillId
    {
      var i :| 0 <= i < |r| && r[i] == b;
      assert bills[i] in bills;
    }
  }

  lemma RecordKeepsValid(l: LedgerState, req: PaymentRequest)
    requires BillsValid(l.bills, l.nextBillId)
    ensures BillsValid(Recorded(l, req).bills, Recorded(l, req).nextBillId)
  {
    MarkPaidKeepsValid(l.bills, req.billId, l.nextBillId);
  }

  lemma {:induction false} RemoveKeepsUnique(bills: seq<Bill>, id: int)
    requires UniqueBillIds(bills) && UniqueBillNumbers(bills)
    ensures UniqueBillIds(RemoveBill(bills, id)) && UniqueBillNumbers(RemoveBill(bills, id))
    decreases |bills|
  {
    if |bills| > 0 {
      var rest := bills[1..];
      RemoveKeepsUnique(rest, id);
      if bills[0].id != id {
        var r := RemoveBill(bills, id);
        forall j | 1 <= j < |r|
          ensures r[0].id != r[j].id && r[0].billNumber != r[j].billNumber
        {
          assert r[j] in RemoveBill(rest, id);
          var k :| 0 <= k < |rest| && rest[k] == r[j];
          assert bills[k + 1] == r[j];
        }
      }
    }
  }
}
