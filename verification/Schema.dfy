/** The rows of the repair shop's database, one datatype per table.
    Rows are never deleted, so every table is a sequence and a row's id is its index.
    Prices and totals are what the floats of the source show as decimal text; invoices and payments are in whole cents. */
module Schema {
  type Pos = n: int | n > 0 witness 1

  datatype Option<+T> = None | Some(value: T)

  datatype Failure = NotFound | Invalid | Conflict

  datatype OrderStatus =
    | Recebida
    | EmDiagnostico
    | AguardandoAprovacao
    | AguardandoInicio
    | AguardandoCompra
    | EmExecucao
    | Finalizada
    | Entregue

  datatype BudgetStatus = Draft | Sent | Approved | Rejected | Superseded

  datatype ReservationStatus = Active | Released | Consumed

  datatype PurchaseStatus = Pending | Ordered | Received | Cancelled

  datatype WithdrawalStatus = Unfulfilled | Fulfilled | Abandoned

  datatype Line = Line(item: nat, quantity: Pos, unitPrice: real)

  datatype Budget = Budget(
    vehicle: nat,
    status: BudgetStatus,
    total: real,
    services: seq<Line>,
    products: seq<Line>,
    revision: int,
    supersedes: Option<nat>,
    used: bool,
    expires: Option<int>)

  datatype Order = Order(
    budget: nat,
    vehicle: nat,
    status: OrderStatus,
    mechanic: Option<string>,
    total: real,
    createdAt: int,
    services: seq<Line>,
    products: seq<Line>)

  datatype Reservation = Reservation(order: nat, product: nat, quantity: Pos, status: ReservationStatus)

  datatype PurchaseRequest = PurchaseRequest(product: nat, order: Option<nat>, quantity: Pos, status: PurchaseStatus)

  datatype Receipt = Receipt(request: nat, quantity: Pos)

  datatype Withdrawal = Withdrawal(order: nat, product: nat, quantity: Pos, status: WithdrawalStatus)

  datatype InvoiceStatus = Unpaid | PartiallyPaid | Paid

  datatype PaymentMethod = Dinheiro | Cartao | Pix | Transferencia

  datatype Payment = Payment(amount: int, means: PaymentMethod, key: string)

  datatype Invoice = Invoice(order: nat, amount: int, status: InvoiceStatus, payments: seq<Payment>)

  datatype Tables = Tables(
    stock: seq<int>,
    budgets: seq<Budget>,
    orders: seq<Order>,
    reservations: seq<Reservation>,
    requests: seq<PurchaseRequest>,
    receipts: seq<Receipt>,
    withdrawals: seq<Withdrawal>,
    invoices: seq<Invoice>)

  /** One service call: it commits new tables, or raises and the session rolls back. */
  datatype Outcome = Committed(tables: Tables) | RolledBack(error: Failure)

  function Min(a: int, b: int): int { if a <= b then a else b }

  function Max(a: int, b: int): int { if a >= b then a else b }

  function Members(q: seq<nat>): set<nat> {
    set x | x in q
  }

  ghost predicate Distinct(q: seq<nat>) {
    forall j, k :: 0 <= j < k < |q| ==> q[j] != q[k]
  }

  /** A part of a finite set is no larger than the set. */
  lemma {:induction false} Fewer(a: set<string>, b: set<string>)
    requires a <= b
    ensures |a| <= |b|
  {
    if x :| x in a { Fewer(a - {x}, b - {x}); }
  }

  /** How many times of a sequence lie after a moment. */
  function CountSince(ts: seq<real>, moment: real): nat {
    |set i | 0 <= i < |ts| && ts[i] > moment|
  }

  lemma CountSnoc(ts: seq<real>, t: real, moment: real)
    ensures CountSince(ts + [t], moment) == CountSince(ts, moment) + if t > moment then 1 else 0
  {
    var before, after := set i | 0 <= i < |ts| && ts[i] > moment, set i | 0 <= i < |ts + [t]| && (ts + [t])[i] > moment;
    assert after == before + if t > moment then {|ts|} else {};
  }

  /** When the times up to m are not after the moment and the others are, the others are the count. */
  lemma {:induction false} CountOfTail(ts: seq<real>, m: nat, moment: real)
    requires m <= |ts| && (forall i :: 0 <= i < m ==> ts[i] <= moment) && (forall i :: m <= i < |ts| ==> ts[i] > moment)
    ensures CountSince(ts, moment) == |ts| - m
    decreases |ts|
  {
    if |ts| > m {
      var n := |ts| - 1;
      CountOfTail(ts[..n], m, moment);
      CountSnoc(ts[..n], ts[n], moment);
      assert ts[..n] + [ts[n]] == ts;
    } else {
      assert (set i | 0 <= i < |ts| && ts[i] > moment) == {};
    }
  }

  /** The two statuses in which an order competes for stock. */
  predicate Waiting(s: OrderStatus) {
    s == AguardandoInicio || s == AguardandoCompra
  }

  /** The statuses from which execution has begun. */
  predicate Begun(s: OrderStatus) {
    s == EmExecucao || s == Finalizada || s == Entregue
  }

  predicate Closed(s: OrderStatus) {
    s == Finalizada || s == Entregue
  }

  /** How much of product p a list of product lines asks for. */
  function Required(lines: seq<Line>, p: nat): nat {
    if lines == [] then 0
    else
      var last := lines[|lines| - 1];
      Required(lines[..|lines| - 1], p) + if last.item == p then last.quantity else 0
  }

  function Items(lines: seq<Line>): set<nat> {
    set k | 0 <= k < |lines| :: lines[k].item
  }

  /** A product is asked for exactly when some line names it. */
  lemma {:induction false} RequiredIffListed(lines: seq<Line>, p: nat)
    ensures Required(lines, p) > 0 <==> p in Items(lines)
  {
    if lines == [] {
    } else {
      var front := lines[..|lines| - 1];
      RequiredIffListed(front, p);
      assert Items(lines) == Items(front) + {lines[|lines| - 1].item} by {
        forall x | x in Items(lines) ensures x in Items(front) + {lines[|lines| - 1].item} {
          var k :| 0 <= k < |lines| && lines[k].item == x;
          if k < |lines| - 1 { assert front[k].item == x; }
        }
        forall x | x in Items(front) ensures x in Items(lines) {
          var k :| 0 <= k < |front| && front[k].item == x;
          assert lines[k].item == x;
        }
      }
    }
  }
}
