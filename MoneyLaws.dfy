/** What the `Money` operations of PZ21/Program.cs promise when taken
    together: the normal form is unique, recombining it gives back the total
    exactly when the total is non-negative or has no kopeks, `(a + b) - b`
    gives back an `a` that is non-negative or whole rubles exactly when the
    intermediate sum is non-negative or whole rubles too, and `ToString` loses
    nothing of a normalised amount. */
module MoneyLaws {
  import opened CSharpInt
  import opened NumberFormat
  import opened MoneyExample

  /** A total has exactly one normal form. */
  lemma RepresentsUnique(m: Money, n: Money, t: int)
    requires Represents(m, t) && Represents(n, t)
    ensures m.rubles == n.rubles && m.kopeks == n.kopeks
  {
    assert Abs(m.rubles) == Abs(t) / 100;
    assert Abs(n.rubles) == Abs(t) / 100;
  }

  /** Recombining the normal form as the operators do (`Rubles * 100 +
      Kopeks`) gives back a non-negative total, but overshoots a negative one
      by twice its kopeks: the kopeks are a magnitude, not a signed part. */
  lemma RecombineNormalForm(m: Money, t: int)
    requires Represents(m, t)
    ensures t >= 0 ==> Total(m) == t
    ensures t < 0 ==> Total(m) == t + 2 * m.kopeks
  {
  }

  /** Constructing from the fields of a normalised amount with non-negative
      rubles gives the same amount back. */
  lemma CreateFixesNonNegative(m: Money)
    requires Normalized(m) && m.rubles >= 0 && ValidTotal(Total(m))
    ensures Create(m.rubles, m.kopeks, m.currency, m.transactionId, m.description) == m
  {
    var c := Create(m.rubles, m.kopeks, m.currency, m.transactionId, m.description);
    assert Represents(m, Total(m));
    RepresentsUnique(c, m, Total(m));
  }

  /** `new Money(-2, -50)` stores -2 rubles and 50 kopeks, which the operators
      read back as -150 kopeks instead of -250. */
  lemma CreateNegativeExample(currency: string)
    ensures Create(-2, -50, currency) == Money(-2, 50, currency, "", "")
    ensures Total(Create(-2, -50, currency)) == -150
  {
    RepresentsUnique(Create(-2, -50, currency), Money(-2, 50, currency, "", ""), -250);
  }

  /** A negative total above -100 kopeks loses its sign: it is stored exactly
      as its magnitude is, and prints without a minus sign. */
  lemma SubRubleNegativeLosesSign(t: int32, currency: string, transactionId: string, description: string)
    requires -99 <= t <= -1
    ensures Create(0, t, currency, transactionId, description) == Create(0, -t, currency, transactionId, description)
    ensures Create(0, t, currency, transactionId, description) == Money(0, -t, currency, transactionId, description)
    ensures ToString(Create(0, t, currency, transactionId, description))[0] != '-'
  {
    var m := Create(0, t, currency, transactionId, description);
    RepresentsUnique(m, Money(0, -t, currency, transactionId, description), t);
  }

  /** The amount of `a + b` does not depend on the order of the operands; only
      the tags come from the left one. */
  lemma AddCommutes(a: Money, b: Money)
    requires a.currency == b.currency && ValidTotal(Total(a) + Total(b))
    ensures Add(a, b).Ok? && Add(b, a).Ok?
    ensures Add(a, b).value.rubles == Add(b, a).value.rubles
    ensures Add(a, b).value.kopeks == Add(b, a).value.kopeks
  {
    RepresentsUnique(Add(a, b).value, Add(b, a).value, Total(a) + Total(b));
  }

  /** `a - a` is zero rubles and zero kopeks, tagged like `a`. */
  lemma SubSelfIsZero(a: Money)
    ensures Sub(a, a) == Ok(Money(0, 0, a.currency, a.transactionId, a.description))
  {
    RepresentsUnique(Sub(a, a).value, Money(0, 0, a.currency, a.transactionId, a.description), 0);
  }

  /** `(a + b) - b` gives back `a`, tags included, when `a` and the
      intermediate sum are both read back correctly by `Rubles * 100 +
      Kopeks`: each is non-negative or a whole number of rubles. */
  lemma AddSubRoundTrip(a: Money, b: Money)
    requires a.currency == b.currency
    requires Normalized(a) && (a.rubles >= 0 || a.kopeks == 0) && ValidTotal(Total(a))
    requires ValidTotal(Total(a) + Total(b))
    requires Total(a) + Total(b) >= 0 || (Total(a) + Total(b)) % 100 == 0
    ensures Add(a, b).Ok? && Total(Add(a, b).value) == Total(a) + Total(b)
    ensures Sub(Add(a, b).value, b) == Ok(a)
  {
    var s := Add(a, b).value;
    assert Total(s) == Total(a) + Total(b) by {
      ReadBackWhole(s, Total(a) + Total(b));
    }
    var d := Sub(s, b).value;
    assert d.rubles == a.rubles && d.kopeks == a.kopeks by {
      NormalFormOfOwnTotal(a);
      RepresentsUnique(d, a, Total(a));
    }
  }

  /** The normal form of a total that is non-negative or whole rubles is read
      back exactly by `Rubles * 100 + Kopeks`. */
  lemma ReadBackWhole(m: Money, t: int)
    requires Represents(m, t) && (t >= 0 || t % 100 == 0)
    ensures Total(m) == t
  {
    RecombineNormalForm(m, t);
    if t < 0 {
      assert -t == (-t / 100) * 100;
      assert m.kopeks == 0;
    }
  }

  /** A normalised amount with non-negative rubles or no kopeks is the normal
      form of its own `Rubles * 100 + Kopeks`. */
  lemma NormalFormOfOwnTotal(m: Money)
    requires Normalized(m) && (m.rubles >= 0 || m.kopeks == 0)
    ensures Represents(m, Total(m))
  {
  }

  /** Conversely, for such an `a`, `(a + b) - b` differs from `a` in amount
      whenever the intermediate sum is negative with non-zero kopeks. */
  lemma AddSubRoundTripFails(a: Money, b: Money)
    requires a.currency == b.currency
    requires Normalized(a) && (a.rubles >= 0 || a.kopeks == 0) && ValidTotal(Total(a))
    requires ValidTotal(Total(a) + Total(b))
    requires Total(a) + Total(b) < 0 && (Total(a) + Total(b)) % 100 != 0
    requires ValidTotal(Total(Add(a, b).value) - Total(b))
    ensures Sub(Add(a, b).value, b).Ok?
    ensures Sub(Add(a, b).value, b).value.rubles != a.rubles || Sub(Add(a, b).value, b).value.kopeks != a.kopeks
  {
    var t := Total(a) + Total(b);
    var s := Add(a, b).value;
    RecombineNormalForm(s, t);
    assert s.kopeks == Abs(t) % 100;
    assert s.kopeks > 0;
    var u := Total(a) + 2 * s.kopeks;
    assert Total(s) - Total(b) == u;
    var d := Sub(s, b).value;
    assert Represents(d, u);
    assert Represents(a, Total(a));
    assert Abs(u) != Abs(Total(a)) || (u >= 0) != (Total(a) >= 0);
  }

  /** The round trip on one input: 1 ruble plus -2.50
      (stored as -2 rubles, 50 kopeks) minus the same -2.50 gives 2 rubles. */
  lemma AddSubRoundTripFailsBelowZero(currency: string)
    ensures Add(Create(1, 0, currency), Create(-2, -50, currency)) == Ok(Money(0, 50, currency, "", ""))
    ensures Sub(Money(0, 50, currency, "", ""), Create(-2, -50, currency)) == Ok(Money(2, 0, currency, "", ""))
  {
    var one, b := Create(1, 0, currency), Create(-2, -50, currency);
    CreateNegativeExample(currency);
    RepresentsUnique(one, Money(1, 0, currency, "", ""), 100);
    RepresentsUnique(Add(one, b).value, Money(0, 50, currency, "", ""), -50);
    RepresentsUnique(Sub(Money(0, 50, currency, "", ""), b).value, Money(2, 0, currency, "", ""), 200);
  }

  /** The concrete case 5.50 + 3.75 = 9.25 and how it prints. */
  lemma AddExample(currency: string)
    ensures Add(Create(5, 50, currency), Create(3, 75, currency)) == Ok(Create(9, 25, currency))
    ensures ToString(Create(9, 25, currency)) == "9 руб. 25 коп. (" + currency + ")"
  {
    var a, b, c := Create(5, 50, currency), Create(3, 75, currency), Create(9, 25, currency);
    RepresentsUnique(a, Money(5, 50, currency, "", ""), 550);
    RepresentsUnique(b, Money(3, 75, currency, "", ""), 375);
    RepresentsUnique(c, Money(9, 25, currency, "", ""), 925);
    RepresentsUnique(Add(a, b).value, c, 925);
    assert Decimal(9) == "9";
    assert Decimal(25) == "25" by { assert Decimal(2) == "2"; }
  }

  /** `new Money(-2, 30)` is -1.70, not -2.30: the kopeks are added to the
      negative rubles before normalising. */
  lemma NegativeRublesPositiveKopeksExample(currency: string)
    ensures Create(-2, 30, currency) == Money(-1, 70, currency, "", "")
    ensures ToString(Create(-2, 30, currency)) == "-1 руб. 70 коп. (" + currency + ")"
  {
    RepresentsUnique(Create(-2, 30, currency), Money(-1, 70, currency, "", ""), -170);
    assert Decimal(1) == "1";
    assert Decimal(70) == "70" by { assert Decimal(7) == "7"; }
  }

  /** Two digit strings followed by non-digits that make up the same string
      are the same digit string. */
  lemma DigitRunPrefix(x: string, y: string, x': string, y': string)
    requires AllDigits(x) && AllDigits(x')
    requires |y| >= 1 && |y'| >= 1 && !IsDigit(y[0]) && !IsDigit(y'[0])
    requires x + y == x' + y'
    ensures x == x' && y == y'
  {
    var s := x + y;
    assert s[|x|] == y[0] && s[|x'|] == y'[0];
    assert forall i :: 0 <= i < |x| ==> s[i] == x[i];
    assert forall i :: 0 <= i < |x'| ==> s[i] == x'[i];
    assert |x| == |x'|;
    assert x == (x + y)[..|x|];
    assert x' == (x' + y')[..|x'|];
    assert y == (x + y)[|x|..];
    assert y' == (x' + y')[|x'|..];
  }

  /** The text after the ruble digits. */
  function Tail(m: Money): string {
    RublesLabel + FormatD2(m.kopeks) + KopeksLabel + "(" + m.currency + ")"
  }

  /** The kopek field of `ToString` is exactly two digits whose value is the
      kopeks, for every normalised amount. The first ensures is the
      decomposition of the text that `ToStringInjective` takes apart: the
      sign, the ruble digits (whose meaning `Decimal` states), then `Tail`. */
  lemma ToStringLayout(m: Money)
    requires m.rubles != IntMin && Normalized(m)
    ensures ToString(m) == SignMarker(m.rubles) + Decimal(Abs(m.rubles)) + Tail(m)
    ensures |FormatD2(m.kopeks)| == 2 && AllDigits(FormatD2(m.kopeks))
    ensures DigitsValue(FormatD2(m.kopeks)) == m.kopeks
  {
  }

  /** The text after the ruble digits determines the kopeks and the currency
      of a normalised amount. */
  lemma TailInjective(a: Money, b: Money)
    requires Normalized(a) && Normalized(b)
    requires Tail(a) == Tail(b)
    ensures a.kopeks == b.kopeks && a.currency == b.currency
  {
    var ta, tb := Tail(a), Tail(b);
    var ka, kb := FormatD2(a.kopeks), FormatD2(b.kopeks);
    assert ka == ta[|RublesLabel|..|RublesLabel| + 2];
    assert kb == tb[|RublesLabel|..|RublesLabel| + 2];
    var n := |RublesLabel| + 2 + |KopeksLabel| + 1;
    assert a.currency == ta[n..|ta| - 1];
    assert b.currency == tb[n..|tb| - 1];
  }

  /** The sign and the ruble digits at the head of `ToString` determine the
      rubles, and what follows them. */
  lemma HeadInjective(x: int, y: int, tx: string, ty: string)
    requires |tx| >= 1 && |ty| >= 1 && tx[0] == ' ' && ty[0] == ' '
    requires SignMarker(x) + Decimal(Abs(x)) + tx == SignMarker(y) + Decimal(Abs(y)) + ty
    ensures x == y && tx == ty
  {
    var sx, sy := SignMarker(x), SignMarker(y);
    var dx, dy := Decimal(Abs(x)), Decimal(Abs(y));
    var s := sx + dx + tx;
    assert s[0] == (if x < 0 then '-' else dx[0]);
    assert s[0] == (if y < 0 then '-' else dy[0]);
    assert sx == sy;
    assert dx + tx == s[|sx|..];
    assert dy + ty == s[|sy|..];
    DigitRunPrefix(dx, tx, dy, ty);
    DecimalInjective(Abs(x), Abs(y));
  }

  /** `ToString` is injective on normalised amounts: the text determines the
      rubles, the kopeks and the currency. */
  lemma ToStringInjective(a: Money, b: Money)
    requires a.rubles != IntMin && b.rubles != IntMin
    requires Normalized(a) && Normalized(b)
    requires ToString(a) == ToString(b)
    ensures a.rubles == b.rubles && a.kopeks == b.kopeks && a.currency == b.currency
  {
    ToStringLayout(a);
    ToStringLayout(b);
    HeadInjective(a.rubles, b.rubles, Tail(a), Tail(b));
    TailInjective(a, b);
  }
}
