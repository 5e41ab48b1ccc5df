/** The `Money` value of PZ21/Program.cs: an amount in rubles and kopeks with
    three tags that the arithmetic carries along. It never inspects the
    transaction id or the description, and compares the currency codes only
    in the guard of `+` and `-`. Every operation of the C# class builds a new
    `Money`, so the model is a datatype and functions; the exceptions the
    class throws become `Err` results. */
module MoneyExample {
  import opened CSharpInt
  import opened NumberFormat

  /** The five properties of the C# class. The setters are public, so a value
      may hold any `int` pair; the constructor is what normalises. */
  datatype Money = Money(
    rubles: int32,
    kopeks: int32,
    currency: string,
    transactionId: string,
    description: string)

  datatype MoneyError =
    | CurrencyMismatch  // InvalidOperationException from `+` and `-`
    | DivideByZero      // DivideByZeroException from `/`

  datatype Result<T> = Ok(value: T) | Err(error: MoneyError)

  const DefaultCurrency: string := "RUB"
  const RublesLabel: string := " руб. "
  const KopeksLabel: string := " коп. "

  /** A total in kopeks that the constructor can normalise: it fits in an
      `int` and is not `int.MinValue`, on which `Math.Abs` throws. */
  predicate ValidTotal(t: int) {
    IntMin < t <= IntMax
  }

  /** The amount as the operators recombine it: `Rubles * 100 + Kopeks`. */
  function Total(m: Money): int {
    m.rubles * 100 + m.kopeks
  }

  predicate Normalized(m: Money) {
    0 <= m.kopeks <= 99
  }

  /** `m` is the normal form of the total `t` in kopeks: the kopeks are the
      magnitude below one ruble, the rubles carry the magnitude above it and
      the whole sign. */
  predicate Represents(m: Money, t: int) {
    && 0 <= m.kopeks <= 99
    && Abs(m.rubles) * 100 + m.kopeks == Abs(t)
    && (t >= 0 ==> m.rubles >= 0)
    && (t < 0 ==> m.rubles <= 0)
  }

  predicate SameTags(m: Money, n: Money) {
    m.currency == n.currency && m.transactionId == n.transactionId && m.description == n.description
  }

  /** The normalising constructor `new Money(rubles, kopeks, currency,
      transactionID, description)`. */
  function Create(rubles: int32, kopeks: int32, currency: string := DefaultCurrency,
                  transactionId: string := "", description: string := ""): (m: Money)
    requires ValidTotal(rubles * 100 + kopeks)
    ensures Represents(m, rubles * 100 + kopeks)
    ensures m.currency == currency && m.transactionId == transactionId && m.description == description
  {
    var totalKopeks := rubles * 100 + kopeks;
    var absTotal := Abs(totalKopeks);
    Money(if totalKopeks >= 0 then absTotal / 100 else -(absTotal / 100),
          absTotal % 100, currency, transactionId, description)
  }

  /** The copy constructor `new Money(other)`: all five properties, unchanged
      and un-normalised. */
  function Copy(other: Money): (m: Money)
    ensures m == other
  {
    Money(other.rubles, other.kopeks, other.currency, other.transactionId, other.description)
  }

  /** `new Money(t / 100, t % 100, a.Currency, a.TransactionID, a.Description)`
      with C#'s truncating operators: the last step of `+`, `-`, `*`, `/` and
      `TransferCost`, which turn a total in kopeks back into a `Money` tagged
      like `a`. */
  function Rebuild(t: int32, a: Money): (m: Money)
    requires ValidTotal(t)
    ensures Represents(m, t)
    ensures SameTags(m, a)
  {
    Create(TruncDiv(t, 100), TruncMod(t, 100), a.currency, a.transactionId, a.description)
  }

  /** `operator +`. Each total is computed in wrapping 32-bit arithmetic; when
      the sum fits, the wrapped sum is the true one, so only the sum is
      required to fit. */
  function Add(a: Money, b: Money): (r: Result<Money>)
    requires a.currency == b.currency ==> ValidTotal(Total(a) + Total(b))
    ensures r.Err? <==> a.currency != b.currency
    ensures r.Err? ==> r.error == CurrencyMismatch
    ensures r.Ok? ==> Represents(r.value, Total(a) + Total(b)) && SameTags(r.value, a)
  {
    if a.currency != b.currency then Err(CurrencyMismatch)
    else Ok(Rebuild(Total(a) + Total(b), a))
  }

  /** `operator -`, with the same guard and the same recombination as `+`. */
  function Sub(a: Money, b: Money): (r: Result<Money>)
    requires a.currency == b.currency ==> ValidTotal(Total(a) - Total(b))
    ensures r.Err? <==> a.currency != b.currency
    ensures r.Err? ==> r.error == CurrencyMismatch
    ensures r.Ok? ==> Represents(r.value, Total(a) - Total(b)) && SameTags(r.value, a)
  {
    if a.currency != b.currency then Err(CurrencyMismatch)
    else Ok(Rebuild(Total(a) - Total(b), a))
  }

  /** `operator /` given the divisor and the rounded quotient in kopeks that
      the floating-point division and `Math.Round` produce from it. A zero
      divisor is rejected before anything is computed. */
  function Divide(a: Money, divisor: real, roundedQuotient: int32): (r: Result<Money>)
    requires divisor != 0.0 ==> ValidTotal(roundedQuotient)
    ensures r.Err? <==> divisor == 0.0
    ensures r.Err? ==> r.error == DivideByZero
    ensures r.Ok? ==> Represents(r.value, roundedQuotient) && SameTags(r.value, a)
  {
    if divisor == 0.0 then Err(DivideByZero)
    else Ok(Rebuild(roundedQuotient, a))
  }

  /** The sign marker of `ToString`. */
  function SignMarker(rubles: int): string {
    if rubles < 0 then "-" else ""
  }

  /** `ToString()`: the sign, the ruble magnitude, the kopeks in "D2" format
      and the currency in parentheses. `Math.Abs` throws on `int.MinValue`,
      which only the public setter can store. */
  function ToString(m: Money): (s: string)
    requires m.rubles != IntMin
    ensures |s| >= 1 && (s[0] == '-' <==> m.rubles < 0)
    ensures |s| >= |m.currency| + 2 && s[|s| - |m.currency| - 2..] == "(" + m.currency + ")"
  {
    var digits := Decimal(Abs(m.rubles));
    var head := SignMarker(m.rubles) + digits;
    var suffix := "(" + m.currency + ")";
    var s := head + RublesLabel + FormatD2(m.kopeks) + KopeksLabel + suffix;
    assert s[0] == head[0];
    assert s[|s| - |suffix|..] == suffix;
    s
  }
}
