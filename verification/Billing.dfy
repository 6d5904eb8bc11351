/** Invoices and their payments, in integer cents. */
module Billing {
  import opened Schema
  import opened Text

  datatype PaymentResult = Recorded(invoice: Invoice) | Refused(error: Failure)

  function SumPaid(ps: seq<Payment>): int {
    if ps == [] then 0 else SumPaid(ps[..|ps| - 1]) + ps[|ps| - 1].amount
  }

  /** An invoice marked as paid without payment rows dates from before payments were recorded. */
  function TotalPaid(inv: Invoice): int {
    if inv.status == Paid && inv.payments == [] then inv.amount else SumPaid(inv.payments)
  }

  function Balance(inv: Invoice): int {
    Max(0, inv.amount - TotalPaid(inv))
  }

  function FindPayment(ps: seq<Payment>, key: string): (f: Option<nat>)
    ensures f.Some? ==> f.value < |ps| && ps[f.value].key == key
    ensures f.None? ==> forall i :: 0 <= i < |ps| ==> ps[i].key != key
  {
    if ps == [] then None
    else
      var n := |ps| - 1;
      var f := FindPayment(ps[..n], key);
      if f.Some? then f
      else if ps[n].key == key then Some(n)
      else
        assert forall i :: 0 <= i < n ==> ps[..n][i].key != key;
        None
  }

  /** The entity's rule for one more payment. */
  function AddPayment(inv: Invoice, amount: int, means: PaymentMethod, key: string): PaymentResult {
    if inv.status == Paid then Refused(Invalid)
    else if amount <= 0 then Refused(Invalid)
    else if Strip(key) == [] then Refused(Invalid)
    else if amount > Balance(inv) then Refused(Invalid)
    else
      var more := inv.(payments := inv.payments + [Payment(amount, means, Strip(key))]);
      Recorded(more.(status := if Balance(more) == 0 then Paid else PartiallyPaid))
  }

  /** The service around it: a key seen before is a replay or a conflict, and the table's
      uniqueness constraint turns a clash on the stored key into a conflict too. */
  function Settle(inv: Invoice, amount: int, means: PaymentMethod, key: string): PaymentResult {
    var existing := FindPayment(inv.payments, key);
    if existing.Some? then
      if inv.payments[existing.value].amount == amount && inv.payments[existing.value].means == means
      then Recorded(inv) else Refused(Conflict)
    else
      var r := AddPayment(inv, amount, means, key);
      if r.Recorded? && FindPayment(inv.payments, Strip(key)).Some? then Refused(Conflict) else r
  }

  /** What the payments route lets through: a positive amount of at most twelve digits under a key that is neither
      blank nor too long once its blanks are off. */
  predicate Acceptable(amount: int, header: string) {
    0 < amount < 1_000_000_000_000 && 0 < |Strip(header)| <= 128
  }

  /** The payments route: the service is called with the cleaned key. */
  function Submit(inv: Invoice, amount: int, means: PaymentMethod, header: string): PaymentResult {
    if Acceptable(amount, header) then Settle(inv, amount, means, Strip(header)) else Refused(Invalid)
  }

  /** The invariant of every invoice. */
  ghost predicate InvoiceSound(inv: Invoice) {
    && inv.amount > 0
    && (forall i :: 0 <= i < |inv.payments| ==>
          inv.payments[i].amount > 0 && inv.payments[i].key != [] && Stripped(inv.payments[i].key))
    && (forall i, j :: 0 <= i < j < |inv.payments| ==> inv.payments[i].key != inv.payments[j].key)
    && 0 <= SumPaid(inv.payments) <= inv.amount
    && (inv.status == Paid <==> SumPaid(inv.payments) == inv.amount)
    && (inv.status == PartiallyPaid <==> 0 < SumPaid(inv.payments) < inv.amount)
  }

  lemma SumPaidAppend(ps: seq<Payment>, p: Payment)
    ensures SumPaid(ps + [p]) == SumPaid(ps) + p.amount
  {
  }

  /** Whatever is sent, an invoice stays sound, keeps its payments and its amount, and gains at most the one asked for. */
  lemma SettleKeepsSound(inv: Invoice, amount: int, means: PaymentMethod, key: string)
    requires InvoiceSound(inv)
    ensures var r := Settle(inv, amount, means, key);
            r.Recorded? ==>
              && InvoiceSound(r.invoice)
              && r.invoice.order == inv.order && r.invoice.amount == inv.amount
              && (r.invoice.payments == inv.payments || r.invoice.payments == inv.payments + [Payment(amount, means, Strip(key))])
  {
    if FindPayment(inv.payments, key).None? && Settle(inv, amount, means, key).Recorded? {
      AddPaymentKeepsSound(inv, amount, means, key);
    }
  }

  lemma AddPaymentKeepsSound(inv: Invoice, amount: int, means: PaymentMethod, key: string)
    requires InvoiceSound(inv) && FindPayment(inv.payments, Strip(key)).None? && AddPayment(inv, amount, means, key).Recorded?
    ensures var inv' := AddPayment(inv, amount, means, key).invoice;
            && InvoiceSound(inv') && inv'.order == inv.order && inv'.amount == inv.amount
            && inv'.payments == inv.payments + [Payment(amount, means, Strip(key))]
  {
    var ps := inv.payments + [Payment(amount, means, Strip(key))];
    SumPaidAppend(inv.payments, Payment(amount, means, Strip(key)));
    forall i, j | 0 <= i < j < |ps| ensures ps[i].key != ps[j].key {
      assert ps[i] == inv.payments[i];
      assert j < |inv.payments| ==> ps[j] == inv.payments[j];
    }
  }

  /** A retry never pays twice: once a key is on the invoice, sending it again, padded or not, changes nothing. It is
      answered with the invoice exactly when it repeats the amount and the means. */
  lemma RetryIsAnswered(inv: Invoice, i: nat, amount: int, means: PaymentMethod, header: string)
    requires InvoiceSound(inv) && i < |inv.payments| && inv.payments[i].key == Strip(header)
    ensures var r := Submit(inv, amount, means, header);
            && (r.Recorded? ==> r.invoice == inv)
            && (r.Recorded? <==> Acceptable(amount, header) && inv.payments[i].amount == amount && inv.payments[i].means == means)
  {
    RetryChangesNothing(inv, i, amount, means, Strip(header));
  }

  /** A payment under a new key is taken exactly up to what is still open, the last cent included. */
  lemma NewKeyIff(inv: Invoice, amount: int, means: PaymentMethod, key: string)
    requires InvoiceSound(inv) && amount > 0 && key != "" && Stripped(key)
    requires forall k :: 0 <= k < |inv.payments| ==> inv.payments[k].key != key
    ensures Settle(inv, amount, means, key).Recorded? <==> SumPaid(inv.payments) + amount <= inv.amount
  {
    assert FindPayment(inv.payments, key).None?;
  }

  lemma SameKeySamePayment(inv: Invoice, i: nat, payment: Payment)
    requires InvoiceSound(inv) && i < |inv.payments| && inv.payments[i].key == payment.key
    ensures (exists k :: 0 <= k < |inv.payments| && inv.payments[k] == payment) <==> inv.payments[i] == payment
  {
  }

  /** What the route takes: under a new key up to what is still open, under a repeated one the same amount and means. */
  lemma SubmitIff(inv: Invoice, amount: int, means: PaymentMethod, header: string)
    requires InvoiceSound(inv)
    ensures var key := Strip(header);
            Submit(inv, amount, means, header).Recorded? <==>
              && 0 < amount < 1_000_000_000_000 && 0 < |key| <= 128
              && if exists k :: 0 <= k < |inv.payments| && inv.payments[k].key == key
                 then exists k :: 0 <= k < |inv.payments| && inv.payments[k] == Payment(amount, means, key)
                 else SumPaid(inv.payments) + amount <= inv.amount
  {
    var key := Strip(header);
    if Acceptable(amount, header) {
      if k: nat :| k < |inv.payments| && inv.payments[k].key == key {
        RetryIsAnswered(inv, k, amount, means, header);
        SameKeySamePayment(inv, k, Payment(amount, means, key));
      } else {
        NewKeyIff(inv, amount, means, key);
      }
    }
  }

  /** What is recorded under a new key: one more payment, and "paid" exactly when it completes the amount. */
  lemma SubmitAdds(inv: Invoice, amount: int, means: PaymentMethod, header: string)
    requires InvoiceSound(inv) && Submit(inv, amount, means, header).Recorded?
    ensures var r, key := Submit(inv, amount, means, header).invoice, Strip(header);
            if exists k :: 0 <= k < |inv.payments| && inv.payments[k].key == key then r == inv
            else
              && r == inv.(payments := inv.payments + [Payment(amount, means, key)], status := r.status)
              && r.status == if SumPaid(inv.payments) + amount == inv.amount then Paid else PartiallyPaid
  {
    var key := Strip(header);
    if k: nat :| k < |inv.payments| && inv.payments[k].key == key {
      RetryIsAnswered(inv, k, amount, means, header);
    } else {
      SumPaidAppend(inv.payments, Payment(amount, means, key));
    }
  }

  /** Whatever reaches the route, an invoice stays sound, keeps its payments and its amount, and gains at most the one sent. */
  lemma SubmitKeepsSound(inv: Invoice, amount: int, means: PaymentMethod, header: string)
    requires InvoiceSound(inv)
    ensures var r := Submit(inv, amount, means, header);
            r.Recorded? ==>
              && InvoiceSound(r.invoice)
              && r.invoice.order == inv.order && r.invoice.amount == inv.amount
              && (r.invoice.payments == inv.payments || r.invoice.payments == inv.payments + [Payment(amount, means, Strip(header))])
  {
    SettleKeepsSound(inv, amount, means, Strip(header));
  }

  /** The same of the service method by itself, which could be handed a padded key: it would then refuse, as the lookup
      compares the key as handed over with the stored, stripped one. */
  lemma RetryChangesNothing(inv: Invoice, i: nat, amount: int, means: PaymentMethod, key: string)
    requires InvoiceSound(inv) && i < |inv.payments| && inv.payments[i].key == Strip(key)
    ensures var r := Settle(inv, amount, means, key);
            && (r.Recorded? ==> r.invoice == inv)
            && (r.Recorded? <==> Stripped(key) && inv.payments[i].amount == amount && inv.payments[i].means == means)
  {
    var existing := FindPayment(inv.payments, key);
    if existing.Some? {
      assert Stripped(key);
      assert existing.value == i;
    } else {
      assert !Stripped(key);
    }
  }

  /** The invoice as the object the service works on: payments are appended and the status set in place. */
  class InvoiceEntity {
    var order: nat
    var amount: int
    var status: InvoiceStatus
    var payments: seq<Payment>

    ghost function Value(): Invoice
      reads this
    {
      Invoice(order, amount, status, payments)
    }

    constructor (order: nat, amount: int)
      ensures Value() == Invoice(order, amount, Unpaid, [])
    {
      this.order, this.amount, status, payments := order, amount, Unpaid, [];
    }

    method GetTotalPaid() returns (total: int)
      ensures total == TotalPaid(Value())
    {
      if status == Paid && payments == [] {
        return amount;
      }
      total := 0;
      for i := 0 to |payments|
        invariant total == SumPaid(payments[..i])
      {
        assert payments[..i + 1][..i] == payments[..i];
        total := total + payments[i].amount;
      }
      assert payments[..|payments|] == payments;
    }

    method GetBalance() returns (balance: int)
      ensures balance == Balance(Value())
    {
      var paid := GetTotalPaid();
      balance := Max(0, amount - paid);
    }

    /** One payment on the object. A refusal leaves the object alone. */
    method Record(paid: int, means: PaymentMethod, key: string) returns (ok: bool)
      modifies this
      ensures var r := AddPayment(old(Value()), paid, means, key);
              ok == r.Recorded? && Value() == if ok then r.invoice else old(Value())
    {
      if status == Paid || paid <= 0 || Strip(key) == [] {
        return false;
      }
      var balance := GetBalance();
      if paid > balance {
        return false;
      }
      payments := payments + [Payment(paid, means, Strip(key))];
      balance := GetBalance();
      status := if balance == 0 then Paid else PartiallyPaid;
      return true;
    }
  }
}
