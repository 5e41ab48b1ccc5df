/** `+` and `-` in PZ21/Program.cs:52-53 and 63-64 read an amount back as
    `Rubles * 100 + Kopeks`. The constructor stores a negative amount as
    negative rubles and non-negative kopeks, so for such an amount that sum
    is not the amount: adding zero to -2.50 gives -1.50. `TransferCost`, `*`
    and `/` (lines 41, 72 and 83) read their operand back the same way; the
    model takes their rounded total as an input. This module shows
    the discrepancy on the operators as written and defines `+` and `-` over
    the signed amount the constructor stored, for which adding zero is the
    identity and subtraction undoes addition unless the sum is a sub-ruble
    negative amount. */
module MoneyFindings {
  import opened CSharpInt
  import opened MoneyExample
  import opened MoneyLaws

  /** As written: adding a zero amount changes every normalised amount
      with negative rubles and non-zero kopeks, -2.50 + 0.00 among them. */
  lemma AddZeroChangesNegativeAmount(a: Money, z: Money)
    requires Normalized(a) && a.rubles < 0 && a.kopeks > 0 && ValidTotal(Total(a))
    requires z.rubles == 0 && z.kopeks == 0 && z.currency == a.currency
    ensures Add(a, z).Ok?
    ensures Add(a, z).value.rubles != a.rubles || Add(a, z).value.kopeks != a.kopeks
  {
    assert Abs(a.rubles) * 100 + a.kopeks == -Total(a) + 2 * a.kopeks;
  }

  /** The total in kopeks a normalised `Money` stands for: the kopeks take the
      sign of the rubles. */
  function SignedTotal(m: Money): int {
    if m.rubles < 0 then m.rubles * 100 - m.kopeks else m.rubles * 100 + m.kopeks
  }

  /** A normalised amount is the normal form of its signed total, and the
      normal form of a total gives that total back unless the total lies
      strictly between -100 and 0, where the sign is not stored. */
  lemma SignedTotalInverse(m: Money, t: int)
    ensures Normalized(m) ==> Represents(m, SignedTotal(m))
    ensures Normalized(m) ==> !(-99 <= SignedTotal(m) <= -1)
    ensures Represents(m, t) && !(-99 <= t <= -1) ==> SignedTotal(m) == t
  {
  }

  /** `operator +` reading each operand by its signed total. */
  function AddCorrected(a: Money, b: Money): (r: Result<Money>)
    requires a.currency == b.currency ==> ValidTotal(SignedTotal(a) + SignedTotal(b))
    ensures r.Err? <==> a.currency != b.currency
    ensures r.Err? ==> r.error == CurrencyMismatch
    ensures r.Ok? ==> Represents(r.value, SignedTotal(a) + SignedTotal(b)) && SameTags(r.value, a)
  {
    if a.currency != b.currency then Err(CurrencyMismatch)
    else Ok(Rebuild(SignedTotal(a) + SignedTotal(b), a))
  }

  /** `operator -` reading each operand by its signed total. */
  function SubCorrected(a: Money, b: Money): (r: Result<Money>)
    requires a.currency == b.currency ==> ValidTotal(SignedTotal(a) - SignedTotal(b))
    ensures r.Err? <==> a.currency != b.currency
    ensures r.Err? ==> r.error == CurrencyMismatch
    ensures r.Ok? ==> Represents(r.value, SignedTotal(a) - SignedTotal(b)) && SameTags(r.value, a)
  {
    if a.currency != b.currency then Err(CurrencyMismatch)
    else Ok(Rebuild(SignedTotal(a) - SignedTotal(b), a))
  }

  /** Corrected: adding a zero amount of the same currency changes nothing,
      negative amounts included. */
  lemma AddCorrectedZero(a: Money, z: Money)
    requires Normalized(a) && ValidTotal(SignedTotal(a))
    requires z.rubles == 0 && z.kopeks == 0 && z.currency == a.currency
    ensures AddCorrected(a, z) == Ok(a)
  {
    SignedTotalInverse(a, 0);
    RepresentsUnique(AddCorrected(a, z).value, a, SignedTotal(a));
  }

  /** Corrected: `(a + b) - b` gives back `a` for every normalised `a`, as long
      as the intermediate sum is not a sub-ruble negative amount, whose sign
      the representation cannot hold. */
  lemma AddSubCorrectedRoundTrip(a: Money, b: Money)
    requires a.currency == b.currency
    requires Normalized(a) && ValidTotal(SignedTotal(a))
    requires ValidTotal(SignedTotal(a) + SignedTotal(b))
    requires !(-99 <= SignedTotal(a) + SignedTotal(b) <= -1)
    ensures AddCorrected(a, b).Ok?
    ensures SubCorrected(AddCorrected(a, b).value, b) == Ok(a)
  {
    var t := SignedTotal(a) + SignedTotal(b);
    var s := AddCorrected(a, b).value;
    SignedTotalInverse(s, t);
    SignedTotalInverse(a, 0);
    RepresentsUnique(SubCorrected(s, b).value, a, SignedTotal(a));
  }

  /** As written, on one input: -2.50 plus 0.00 gives -1.50; corrected, it
      gives -2.50. */
  lemma AddZeroExample(currency: string)
    ensures Add(Create(-2, -50, currency), Create(0, 0, currency)) == Ok(Money(-1, 50, currency, "", ""))
    ensures AddCorrected(Create(-2, -50, currency), Create(0, 0, currency)) == Ok(Money(-2, 50, currency, "", ""))
  {
    var a, z := Create(-2, -50, currency), Create(0, 0, currency);
    CreateNegativeExample(currency);
    RepresentsUnique(z, Money(0, 0, currency, "", ""), 0);
    RepresentsUnique(Add(a, z).value, Money(-1, 50, currency, "", ""), -150);
    AddCorrectedZero(a, z);
  }
}
