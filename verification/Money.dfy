/** Money as the services carry it: prices and totals are floats, known by the decimal text they show; invoices and
    payments are whole cents. */
module Money {
  import opened Schema

  // ---- from text to cents ----

  predicate WholeCents(x: real) {
    (x * 100.0).Floor as real == x * 100.0
  }

  /** The amount in cents; anything finer is refused. */
  function ToMoney(x: real): Option<int> {
    if WholeCents(x) then Some((x * 100.0).Floor) else None
  }

  /** An amount converts exactly when it is some number of cents, and to that number. */
  lemma ConvertsToItsCents(x: real, c: int)
    ensures ToMoney(x) == Some(c) <==> x == c as real / 100.0
  {
  }

  predicate Priced(lines: seq<Line>) {
    forall k :: 0 <= k < |lines| ==> lines[k].unitPrice > 0.0
  }

  predicate InCents(lines: seq<Line>) {
    forall k :: 0 <= k < |lines| ==> WholeCents(lines[k].unitPrice)
  }

  /** What the lines come to in cents, price by price. */
  function Amount(lines: seq<Line>): Option<int> {
    if lines == [] then Some(0)
    else
      var last := lines[|lines| - 1];
      match (Amount(lines[..|lines| - 1]), ToMoney(last.unitPrice))
      case (Some(before), Some(price)) => Some(before + price * last.quantity)
      case _ => None
  }

  /** The exact sum of the lines. */
  function Cost(lines: seq<Line>): real {
    if lines == [] then 0.0
    else Cost(lines[..|lines| - 1]) + Term(lines[|lines| - 1])
  }

  function Term(line: Line): real {
    line.unitPrice * line.quantity as real
  }

  /** The lines convert exactly when every price is in whole cents, and then nothing is lost. */
  lemma {:induction false} AmountIsExact(lines: seq<Line>)
    ensures Amount(lines).Some? <==> InCents(lines)
    ensures Amount(lines).Some? ==> Amount(lines).value as real == Cost(lines) * 100.0
  {
    if lines != [] {
      var n := |lines| - 1;
      AmountIsExact(lines[..n]);
      assert InCents(lines) <==> InCents(lines[..n]) && WholeCents(lines[n].unitPrice);
      if Amount(lines).Some? {
        ScaledExactly(ToMoney(lines[n].unitPrice).value, lines[n].unitPrice, lines[n].quantity);
      }
    }
  }

  lemma ScaledExactly(cents: int, price: real, quantity: int)
    requires cents as real == price * 100.0
    ensures (cents * quantity) as real == price * quantity as real * 100.0
  {
    assert (cents * quantity) as real == cents as real * quantity as real;
  }

  /** Priced lines come to something. */
  lemma {:induction false} PricedLinesAddUp(lines: seq<Line>)
    requires Priced(lines) && Amount(lines).Some?
    ensures Amount(lines).value >= 0 && (lines != [] ==> Amount(lines).value > 0)
  {
    if lines != [] {
      var last := lines[|lines| - 1];
      PricedLinesAddUp(lines[..|lines| - 1]);
      var price := ToMoney(last.unitPrice).value;
      assert price as real > 0.0;
      assert price * last.quantity > 0;
    }
  }

  // ---- floats ----

  function Abs(x: real): real { if x >= 0.0 then x else -x }

  /** The most by which rounding to a double moves a value of this size: its 2 to the power of -53. */
  function Ulp(size: real): real { size / 9007199254740992.0 }

  /** y is x as a float operation delivers it. */
  predicate Rounds(x: real, y: real) {
    Abs(y - x) <= Ulp(Abs(x))
  }

  /** What a line may contribute: its price held as a double, times its quantity. */
  ghost predicate FloatTerm(line: Line, term: real) {
    exists price :: Rounds(line.unitPrice, price) && Rounds(price * line.quantity as real, term)
  }

  predicate FloatAdd(x: real, y: real, z: real) {
    Rounds(x + y, z)
  }

  /** A total the lines may come to when each term and each partial sum is rounded. */
  ghost predicate FloatSum(lines: seq<Line>, total: real) {
    if lines == [] then total == 0.0
    else
      exists before, term ::
        FloatSum(lines[..|lines| - 1], before) && FloatTerm(lines[|lines| - 1], term) && FloatAdd(before, term, total)
  }

  /** The total that services and products may come to, as its text shows it. */
  ghost predicate FloatTotal(services: seq<Line>, products: seq<Line>, total: real) {
    exists s, p, sum :: FloatSum(services, s) && FloatSum(products, p) && FloatAdd(s, p, sum) && Rounds(sum, total)
  }

  /** The size of a line, whatever the sign of its price. */
  function Size(line: Line): real {
    Abs(line.unitPrice) * line.quantity as real
  }

  function Magnitude(lines: seq<Line>): real {
    if lines == [] then 0.0 else Magnitude(lines[..|lines| - 1]) + Size(lines[|lines| - 1])
  }

  /** The most by which a few roundings per line can move a sum of so many lines of this magnitude. */
  function Tolerance(lines: nat, magnitude: real): real {
    8.0 * (lines as real * Ulp(magnitude))
  }

  predicate Close(services: seq<Line>, products: seq<Line>, total: real) {
    Abs(total - (Cost(services) + Cost(products))) <=
      Tolerance(|services| + |products| + 1, Magnitude(services) + Magnitude(products))
  }

  /** Four thousand million lines, far more than a budget has. */
  predicate Few(lines: seq<Line>) {
    |lines| <= 0x1_0000_0000
  }

  lemma {:induction false} CostWithinMagnitude(lines: seq<Line>)
    ensures Abs(Cost(lines)) <= Magnitude(lines)
    ensures Priced(lines) ==> Cost(lines) == Magnitude(lines)
  {
    if lines != [] {
      var n := |lines| - 1;
      CostWithinMagnitude(lines[..n]);
      LineSize(lines[n]);
      Adding(Cost(lines[..n]), Magnitude(lines[..n]), Term(lines[n]), Size(lines[n]));
      assert Priced(lines) ==> Priced(lines[..n]) && lines[n].unitPrice > 0.0;
    }
  }

  lemma Adding(x: real, m: real, y: real, n: real)
    requires Abs(x) <= m && Abs(y) <= n
    ensures Abs(x + y) <= m + n
  {
  }

  lemma LineSize(line: Line)
    ensures Abs(Term(line)) == Size(line)
  {
    AbsTimes(line.unitPrice, line.quantity as real);
  }

  lemma AbsTimes(x: real, q: real)
    requires q >= 0.0
    ensures Abs(x * q) == Abs(x) * q
  {
  }

  lemma Widen(a: real, b: real, m: real)
    requires a <= b && m >= 0.0
    ensures a * m <= b * m
  {
  }

  /** A rounded price times a quantity. */
  lemma ScaledRounding(x: real, price: real, q: real)
    requires q >= 0.0 && Rounds(x, price)
    ensures Abs(price * q - x * q) <= Ulp(Abs(x) * q)
  {
    AbsTimes(price - x, q);
    Widen(Abs(price - x), Ulp(Abs(x)), q);
    assert (price - x) * q == price * q - x * q;
  }

  /** A term is off by at most three roundings. */
  lemma TermError(line: Line, term: real)
    requires FloatTerm(line, term)
    ensures Abs(term - Term(line)) <= 3.0 * Ulp(Size(line))
  {
    var price :| Rounds(line.unitPrice, price) && Rounds(price * line.quantity as real, term);
    PriceRounding(line, price);
    LineSize(line);
    TwoRoundings(Term(line), price * line.quantity as real, term, Size(line));
  }

  lemma PriceRounding(line: Line, price: real)
    requires Rounds(line.unitPrice, price)
    ensures Abs(price * line.quantity as real - Term(line)) <= Ulp(Size(line))
  {
    ScaledRounding(line.unitPrice, price, line.quantity as real);
  }

  lemma TwoRoundings(exact: real, product: real, term: real, size: real)
    requires Abs(exact) == size && Abs(product - exact) <= Ulp(size) && Rounds(product, term)
    ensures Abs(term - exact) <= 3.0 * Ulp(size)
  {
  }

  /** One more line of a sum that is off by no more than its magnitude. */
  lemma LineError(cost: real, magnitude: real, error: real, before: real, x: real, size: real, term: real, total: real)
    requires Abs(cost) <= magnitude && Abs(x) <= size && 0.0 <= error <= magnitude
    requires Abs(before - cost) <= error && Abs(term - x) <= 3.0 * Ulp(size) && FloatAdd(before, term, total)
    ensures Abs(total - (cost + x)) <= error + 8.0 * Ulp(magnitude + size)
  {
  }

  lemma ToleranceGrows(n: nat, before: real, after: real)
    requires 0.0 <= before <= after
    ensures Tolerance(n, before) + 8.0 * Ulp(after) <= Tolerance(n + 1, after)
  {
    Widen(Ulp(before), Ulp(after), n as real);
    assert (n + 1) as real * Ulp(after) == n as real * Ulp(after) + Ulp(after);
  }

  lemma ToleranceIsSmall(n: nat, magnitude: real)
    requires n <= 0x2_0000_0000 && magnitude >= 0.0
    ensures 0.0 <= Tolerance(n, magnitude) <= magnitude
  {
    Widen(n as real, 8589934592.0, Ulp(magnitude));
    Widen(0.0, n as real, Ulp(magnitude));
  }

  lemma {:induction false} FloatSumIsClose(lines: seq<Line>, total: real)
    requires FloatSum(lines, total) && Few(lines)
    ensures Abs(total - Cost(lines)) <= Tolerance(|lines|, Magnitude(lines))
  {
    if lines != [] {
      var n := |lines| - 1;
      assert lines[..|lines| - 1] == lines[..n];
      var before, term :| FloatSum(lines[..n], before) && FloatTerm(lines[n], term) && FloatAdd(before, term, total);
      FloatSumIsClose(lines[..n], before);
      CostWithinMagnitude(lines[..n]);
      TermError(lines[n], term);
      LineSize(lines[n]);
      OneMoreLine(n, Cost(lines[..n]), Magnitude(lines[..n]), before, Term(lines[n]), Size(lines[n]), term, total);
    }
  }

  lemma OneMoreLine(n: nat, cost: real, magnitude: real, before: real, x: real, size: real, term: real, total: real)
    requires n <= 0x1_0000_0000 && Abs(cost) <= magnitude && Abs(x) <= size
    requires Abs(before - cost) <= Tolerance(n, magnitude) && Abs(term - x) <= 3.0 * Ulp(size) && FloatAdd(before, term, total)
    ensures Abs(total - (cost + x)) <= Tolerance(n + 1, magnitude + size)
  {
    ToleranceIsSmall(n, magnitude);
    LineError(cost, magnitude, Tolerance(n, magnitude), before, x, size, term, total);
    ToleranceGrows(n, magnitude, magnitude + size);
  }

  /** A value near the exact one, rounded and shown. */
  lemma TotalError(exact: real, size: real, error: real, x: real, sum: real, total: real)
    requires Abs(x - exact) <= error && Abs(x) <= 2.0 * size && Rounds(x, sum) && Rounds(sum, total)
    ensures Abs(total - exact) <= 8.0 * Ulp(size) + error
  {
    RoundedTwice(x, sum, total, size);
    Chain(total, x, exact, 8.0 * Ulp(size), error);
  }

  lemma RoundedTwice(x: real, sum: real, total: real, size: real)
    requires Abs(x) <= 2.0 * size && Rounds(x, sum) && Rounds(sum, total)
    ensures Abs(total - x) <= 8.0 * Ulp(size)
  {
    Rounded(x, sum, size);
    Rounded(sum, total, size);
    Chain(total, sum, x, 4.0 * Ulp(size), 4.0 * Ulp(size));
  }

  lemma BothNear(cs: real, cp: real, ms: real, mp: real, es: real, ep: real, s: real, p: real)
    requires Abs(cs) <= ms && Abs(cp) <= mp && es <= ms && ep <= mp
    requires Abs(s - cs) <= es && Abs(p - cp) <= ep
    ensures Abs(s + p - (cs + cp)) <= es + ep && Abs(s + p) <= 2.0 * (ms + mp)
  {
  }

  lemma Chain(x: real, y: real, z: real, a: real, b: real)
    requires Abs(x - y) <= a && Abs(y - z) <= b
    ensures Abs(x - z) <= a + b
  {
  }

  lemma Rounded(x: real, y: real, size: real)
    requires Abs(x) <= 3.0 * size && Rounds(x, y)
    ensures Abs(y - x) <= 4.0 * Ulp(size)
    ensures Abs(x) <= 2.0 * size ==> Abs(y) <= 3.0 * size
  {
  }

  lemma TolerancesAdd(k: nat, l: nat, ms: real, mp: real)
    requires ms >= 0.0 && mp >= 0.0
    ensures Tolerance(k, ms) + Tolerance(l, mp) + 8.0 * Ulp(ms + mp) <= Tolerance(k + l + 1, ms + mp)
  {
    Widen(Ulp(ms), Ulp(ms + mp), k as real);
    Widen(Ulp(mp), Ulp(ms + mp), l as real);
    assert (k + l + 1) as real * Ulp(ms + mp) == k as real * Ulp(ms + mp) + l as real * Ulp(ms + mp) + Ulp(ms + mp);
  }

  /** s is a rounded sum of n lines that cost this much. */
  predicate Near(s: real, n: nat, cost: real, magnitude: real) {
    Abs(cost) <= magnitude && Tolerance(n, magnitude) <= magnitude && Abs(s - cost) <= Tolerance(n, magnitude)
  }

  lemma SumIsNear(lines: seq<Line>, s: real)
    requires FloatSum(lines, s) && Few(lines)
    ensures Near(s, |lines|, Cost(lines), Magnitude(lines))
  {
    FloatSumIsClose(lines, s);
    CostWithinMagnitude(lines);
    ToleranceIsSmall(|lines|, Magnitude(lines));
  }

  lemma TotalIsClose(k: nat, l: nat, cs: real, cp: real, ms: real, mp: real, s: real, p: real, sum: real, total: real)
    requires Near(s, k, cs, ms) && Near(p, l, cp, mp) && Rounds(s + p, sum) && Rounds(sum, total)
    ensures Abs(total - (cs + cp)) <= Tolerance(k + l + 1, ms + mp)
  {
    var error := Tolerance(k, ms) + Tolerance(l, mp);
    BothNear(cs, cp, ms, mp, Tolerance(k, ms), Tolerance(l, mp), s, p);
    TotalError(cs + cp, ms + mp, error, s + p, sum, total);
    TolerancesAdd(k, l, ms, mp);
  }

  /** Whatever the roundings, the total recorded for some lines is close to them. */
  lemma FloatTotalIsClose(services: seq<Line>, products: seq<Line>, total: real)
    requires FloatTotal(services, products, total) && Few(services) && Few(products)
    ensures Close(services, products, total)
  {
    var s, p, sum :| FloatSum(services, s) && FloatSum(products, p) && FloatAdd(s, p, sum) && Rounds(sum, total);
    SumIsNear(services, s);
    SumIsNear(products, p);
    TotalIsClose(|services|, |products|, Cost(services), Cost(products), Magnitude(services), Magnitude(products), s, p, sum, total);
  }

  /** Below this, the roundings of a sum cannot add up to two cents. */
  predicate Modest(services: seq<Line>, products: seq<Line>) {
    Tolerance(|services| + |products| + 1, Cost(services) + Cost(products)) < 0.02
  }

  /** A total in whole cents that is close to lines in whole cents is at most one cent off. */
  lemma CloseWithinACent(services: seq<Line>, products: seq<Line>, total: real)
    requires Priced(services) && Priced(products) && InCents(services) && InCents(products)
    requires Close(services, products, total) && Modest(services, products) && WholeCents(total)
    ensures Amount(services).Some? && Amount(products).Some?
    ensures -1 <= Amount(services).value + Amount(products).value - ToMoney(total).value <= 1
  {
    AmountIsExact(services);
    AmountIsExact(products);
    CostWithinMagnitude(services);
    CostWithinMagnitude(products);
    Within(Amount(services).value + Amount(products).value, ToMoney(total).value, Cost(services) + Cost(products), total);
  }

  lemma Within(amount: int, shown: int, cost: real, total: real)
    requires amount as real == cost * 100.0 && shown as real == total * 100.0 && Abs(total - cost) < 0.02
    ensures -1 <= amount - shown <= 1
  {
    assert (amount - shown) as real == (cost - total) * 100.0;
  }
}
