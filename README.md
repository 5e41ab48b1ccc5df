# Money: a verified model of the ruble/kopek value type

This project models the `Money` class of the PZ21 console program in Dafny. A
`Money` is an amount in rubles and kopeks with three tags: a currency code, a
transaction id and a description. The arithmetic carries the tags along. It
never inspects the transaction id or the description, and it compares the
currency codes only in the guard of `+` and `-`. The class normalises any `(rubles, kopeks)` pair so that
the kopeks lie in 0..99 and only the rubles carry the sign. It adds and
subtracts amounts of the same currency. Its `*`, `/` and `TransferCost` go
through floating point and then rebuild a `Money` from a whole number of
kopeks. `ToString` prints `[-]R руб. KK коп. (CUR)`.

Every operation of the class returns a new object, so the model is pure:

- `CSharpInt.dfy` (module `CSharpInt`): C#'s `int` range, `Math.Abs`, and the
  truncating `/` and `%`. The remainder takes the sign of the dividend, which
  Dafny's Euclidean operators do not do.
- `NumberFormat.dfy` (module `NumberFormat`): the decimal form of `int.ToString()`
  and the "D2" format, with a digit-string reader as their inverse.
- `Money.dfy` (module `MoneyExample`): the datatype `Money`, the constructors,
  `+`, `-`, the zero guard and last step of `/`, the shared rebuild step, and
  `ToString`. Exceptions become `Err(CurrencyMismatch)` and `Err(DivideByZero)`.
- `MoneyLaws.dfy` (module `MoneyLaws`): lemmas relating the operations.
- `MoneyFindings.dfy` (module `MoneyFindings`): the sign defect of `+` and `-`,
  and corrected versions of both.

The central predicate is `Represents(m, t)`: `m` is the normal form of the
total `t` in kopeks. That means `0 <= Kopeks <= 99`, `|Rubles| * 100 + Kopeks
== |t|`, and the sign of `t` is on `Rubles`. `Create`, `Rebuild`, `Add`, `Sub`
and `Divide` state their results through it. `RepresentsUnique` shows that it
determines the amount.

Two behaviours of the code are reproduced exactly, not fixed:

- A negative amount is stored as sign and magnitude. `new Money(-2, -50)`
  stores `Rubles = -2, Kopeks = 50`, and recombining `Rubles * 100 + Kopeks`
  gives -150, not -250 (`CreateNegativeExample`, `RecombineNormalForm`).
- A total between -99 and -1 kopeks loses its sign and prints without a minus
  sign (`SubRubleNegativeLosesSign`).

Three expectations a reader might bring to this code do not hold, and the
model follows the code:

- One might expect `(a + b) - b == a` for all same-currency amounts. The code
  gives it when `a` and the intermediate sum are each non-negative or a whole
  number of rubles (`AddSubRoundTrip`). For such an `a` it fails whenever the
  sum is negative with non-zero kopeks (`AddSubRoundTripFails`,
  `AddSubRoundTripFailsBelowZero`).
- One might expect a constructed value to recombine to `rubles * 100 +
  kopeks`. It does exactly when that total is non-negative or has no kopeks
  (`RecombineNormalForm`).
- One might expect `new Money(-2, 30)` to mean -2 rubles 30 kopeks. The code
  computes -200 + 30 = -170 and prints `-1 руб. 70 коп.`
  (`NegativeRublesPositiveKopeksExample`).

On 32-bit integers: the source's `rubles * 100 + kopeks` and the operand
totals are computed in wrapping `int` arithmetic. Wrapping is arithmetic
modulo 2^32, so the wrapped result equals the true one whenever the final sum
fits in an `int`. The model therefore requires only the final total to fit
(`ValidTotal`). `ValidTotal` also excludes `int.MinValue`, on which `Math.Abs`
throws.

## Model

| member | source | states |
|---|---|---|
| `CSharpInt.Abs` | PZ21/Program.cs:20 | the result is the argument or its negation and is never negative |
| `CSharpInt.TruncDiv` | PZ21/Program.cs:55 | the quotient's magnitude is the quotient of the magnitudes; it is positive only when the operands' signs agree and negative only when they differ (truncation toward zero) |
| `CSharpInt.TruncMod` | PZ21/Program.cs:66 | `a == b * TruncDiv(a, b) + r`, the remainder is smaller than the divisor in magnitude and has the sign of the dividend |
| `NumberFormat.Decimal` | PZ21/Program.cs:94 | the decimal form is non-empty, all digits, has no leading zero, is one digit exactly below 10, and reads back as the number |
| `NumberFormat.DecimalInjective` | PZ21/Program.cs:94 | two numbers with the same decimal form are equal |
| `NumberFormat.FormatD2` | PZ21/Program.cs:94 | "D2" reads back as the number, has at least two digits, puts `-` before a negative number, is exactly two digits iff the number is in 0..99, and has no leading zero beyond two digits |
| `MoneyExample.Create` | PZ21/Program.cs:17-26 | for any input pair the result is the normal form of `rubles*100 + kopeks`: kopeks in 0..99, magnitude preserved, sign only on the rubles; the three tags are copied verbatim |
| `MoneyExample.Copy` | PZ21/Program.cs:29-36 | the copy equals the original in all five fields, without renormalising |
| `MoneyExample.Rebuild` | PZ21/Program.cs:44 | `new Money(t / 100, t % 100, …)` with truncating operators, the last step of `TransferCost`, `*` (line 75) and `/` (line 86), is the normal form of `t` and carries the tags of its source operand |
| `MoneyExample.Add` | PZ21/Program.cs:48-56 | fails with `CurrencyMismatch` exactly when the currencies differ; otherwise the normal form of `totalA + totalB`, tagged like the left operand |
| `MoneyExample.Sub` | PZ21/Program.cs:59-67 | fails with `CurrencyMismatch` exactly when the currencies differ; otherwise the normal form of `totalA - totalB`, tagged like the left operand |
| `MoneyExample.Divide` | PZ21/Program.cs:79-87 | fails with `DivideByZero` exactly when the divisor is zero, whatever the amount and quotient; otherwise the normal form of the rounded quotient, tagged like the operand |
| `MoneyExample.ToString` | PZ21/Program.cs:90-95 | the text starts with `-` iff `Rubles < 0` and ends with `"(" + Currency + ")"` |
| `MoneyLaws.RepresentsUnique` | PZ21/Program.cs:19-22 | a total has exactly one normal form, so the constructor's result amount is determined by the total |
| `MoneyLaws.RecombineNormalForm` | PZ21/Program.cs:52-53 | recombining a normal form as `Rubles * 100 + Kopeks` gives back a non-negative total, and overshoots a negative total by twice the kopeks |
| `MoneyLaws.CreateFixesNonNegative` | PZ21/Program.cs:17-26 | rebuilding a normalised amount with non-negative rubles from its own fields gives the same value |
| `MoneyLaws.CreateNegativeExample` | PZ21/Program.cs:19-22 | `new Money(-2, -50)` stores -2 rubles and 50 kopeks, which recombine to -150 |
| `MoneyLaws.SubRubleNegativeLosesSign` | PZ21/Program.cs:21 | a total between -99 and -1 is stored exactly as its magnitude is (0 rubles, `-t` kopeks) and prints without a minus sign |
| `MoneyLaws.AddCommutes` | PZ21/Program.cs:52-55 | `a + b` and `b + a` both succeed with equal rubles and kopeks |
| `MoneyLaws.SubSelfIsZero` | PZ21/Program.cs:63-66 | `a - a` is 0 rubles, 0 kopeks, with the tags of `a`, for any `a` |
| `MoneyLaws.ReadBackWhole` | PZ21/Program.cs:52-53 | the normal form of a total that is non-negative or a multiple of 100 is read back exactly by `Rubles * 100 + Kopeks` |
| `MoneyLaws.NormalFormOfOwnTotal` | PZ21/Program.cs:52-53 | a normalised amount with non-negative rubles or no kopeks is the normal form of its own `Rubles * 100 + Kopeks` |
| `MoneyLaws.AddSubRoundTrip` | PZ21/Program.cs:52-66 | `(a + b) - b == a`, tags included, for a normalised `a` that is non-negative or whole rubles and a sum that is non-negative or a multiple of 100; the sum is then read back exactly |
| `MoneyLaws.AddSubRoundTripFails` | PZ21/Program.cs:52-66 | for such an `a`, `(a + b) - b` differs from `a` in amount whenever the sum is negative with non-zero kopeks |
| `MoneyLaws.AddSubRoundTripFailsBelowZero` | PZ21/Program.cs:52-66 | 1.00 + (-2.50) gives 0.50, and 0.50 - (-2.50) gives 2.00, not 1.00 |
| `MoneyLaws.AddExample` | PZ21/Program.cs:48-56 | 5.50 + 3.75 is 9.25 and prints as `9 руб. 25 коп. (CUR)` |
| `MoneyLaws.NegativeRublesPositiveKopeksExample` | PZ21/Program.cs:19-22 | `new Money(-2, 30)` is -1 ruble 70 kopeks and prints as `-1 руб. 70 коп. (CUR)` |
| `MoneyLaws.ToStringLayout` | PZ21/Program.cs:92-94 | for a normalised amount the text is the sign, the ruble digits, then a kopek field of exactly two digits whose value is the kopeks |
| `MoneyLaws.ToStringInjective` | PZ21/Program.cs:90-95 | two normalised amounts that print the same have the same rubles, kopeks and currency |
| `MoneyFindings.AddZeroChangesNegativeAmount` | PZ21/Program.cs:52-53 | as written, adding a zero amount changes every normalised amount with negative rubles and non-zero kopeks |
| `MoneyFindings.SignedTotalInverse` | PZ21/Program.cs:19-22 | a normalised amount is the normal form of its signed total, which is never between -99 and -1; the signed total of a normal form gives back every total outside that range |
| `MoneyFindings.AddCorrected` | PZ21/Program.cs:48-56 | the currency guard as in `+`; otherwise the normal form of the sum of the operands' signed totals, tagged like the left operand |
| `MoneyFindings.SubCorrected` | PZ21/Program.cs:59-67 | the currency guard as in `-`; otherwise the normal form of the difference of the signed totals, tagged like the left operand |
| `MoneyFindings.AddCorrectedZero` | PZ21/Program.cs:52-55 | corrected, adding a zero amount of the same currency returns the amount unchanged, negative amounts included |
| `MoneyFindings.AddSubCorrectedRoundTrip` | PZ21/Program.cs:52-66 | corrected, `(a + b) - b == a` for every normalised `a` whose sum with `b` is not a sub-ruble negative |
| `MoneyFindings.AddZeroExample` | PZ21/Program.cs:52-55 | -2.50 + 0.00 is -1.50 as written and -2.50 corrected |

## Left out

- `Program.Main`, `InputMoney`, `ReadInt` and `ReadDouble` (PZ21/Program.cs:98-224) are left out. They are console I/O: a menu loop and `TryParse` retry loops.
- The floating-point part of `TransferCost`, `operator *` and `operator /` is left out. This covers the IEEE multiplication and division, `Math.Round(…, MidpointRounding.AwayFromZero)` and the `(int)` cast. Doubles do not behave as exact reals, so the model takes the rounded kopek total as an input. `Rebuild` models the final step that these three share. `Divide` models the zero guard and that final step. The integer read-back `Rubles * 100 + Kopeks` of the operand at lines 41, 72 and 83 is left out with it: the rounded total given to `Rebuild` and `Divide` is not tied to the operand's fields. That read-back has the same sign defect as `+` and `-` (`RecombineNormalForm`), so `new Money(-2, -50) * 1.0` starts from -150 kopeks, not -250.
- `Divide`'s divisor is a `real`. Only its comparison with zero is modelled. Negative zero also compares equal to zero in C#. A NaN divisor passes the guard, and the rounded quotient it leads to is not modelled.
- 32-bit overflow is left out. Totals are required to fit in an `int` and to differ from `int.MinValue` (`ValidTotal`). In C# a total outside that range wraps silently or makes `Math.Abs` throw.
- `MoneyExample.ToString` requires `Rubles != int.MinValue`, where `Math.Abs` throws. Only the public setter can store that value.
- The exception types and message texts are reduced to the two `MoneyError` tags.
- The public setters of the five properties are not modelled as mutation. No code outside the constructors (PZ21/Program.cs:21-25, 31-35) writes them. A `Money` in the model may still hold any pair of `int` fields, as a value set through them could.
- `MoneyFindings.AddSubCorrectedRoundTrip` excludes sums between -99 and -1 kopeks. The representation stores no sign for such a sum, so even the corrected operators cannot recover it.

## Findings

| source | as written | input that shows it | evidently intended | confidence | as-written member | corrected member |
|---|---|---|---|---|---|---|
| PZ21/Program.cs:52-53 | `+` reads each operand back as `Rubles * 100 + Kopeks`. The constructor stores a negative amount's kopeks as a positive magnitude, so a negative operand is read as a smaller loss. `TransferCost`, `*` and `/` read their operand back the same way (lines 41, 72, 83). | `new Money(-2, -50) + new Money(0, 0)` gives `-1 руб. 50 коп.` instead of `-2 руб. 50 коп.` | read a negative amount as `Rubles * 100 - Kopeks`, so that adding zero changes nothing | high; not executed | `MoneyFindings.AddZeroChangesNegativeAmount` | `MoneyFindings.AddCorrectedZero` |
| PZ21/Program.cs:63-64 | `-` reads its operands back the same way, so subtraction does not undo addition once the intermediate sum is negative with non-zero kopeks, or between -99 and -1 | `(new Money(1, 0) + new Money(-2, -50)) - new Money(-2, -50)` gives `2 руб. 00 коп.` instead of `1 руб. 00 коп.` | `(a + b) - b == a` for same-currency amounts | high; not executed | `MoneyLaws.AddSubRoundTripFailsBelowZero` | `MoneyFindings.AddSubCorrectedRoundTrip` |

`MoneyExample.Add` and `MoneyExample.Sub` stay as the code is written.
`MoneyFindings.AddCorrected` and `MoneyFindings.SubCorrected` give the
intended behaviour beside them. No other operation of the model calls either
pair.
