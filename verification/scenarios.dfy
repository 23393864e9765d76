/**
 * The controller and account test scenarios, replayed on the model: each fixes the
 * token and amount text of every executeInput call and states the balances the tests
 * expect after each call.
 */
module Scenarios {
  import opened Wrappers
  import opened Decimals
  import opened Records
  import opened Accounts
  import opened Controllers

  // ---------------------------------------------------------------------------
  // Reading the scenario texts

  /** n zero digits. */
  function Zeros(n: nat): (s: string)
    ensures |s| == n && forall i | 0 <= i < n :: s[i] == '0'
  {
    seq(n, _ => '0')
  }

  /** A run of zero digits is worth nothing. */
  lemma {:induction false} ZerosValue(k: nat)
    ensures AllDigits(Zeros(k)) && DigitsValue(Zeros(k)) == 0
  {
    if k > 0 {
      ZerosValue(k - 1);
      assert Zeros(k)[..k - 1] == Zeros(k - 1);
    }
  }

  /** Digits followed by k zeros are worth 10^k times the digits. */
  lemma ZerosShiftValue(lead: string, k: nat)
    requires AllDigits(lead)
    ensures AllDigits(lead + Zeros(k))
    ensures DigitsValue(lead + Zeros(k)) == DigitsValue(lead) * Pow10(k)
  {
    ZerosValue(k);
    DigitsValueAppend(lead, Zeros(k));
  }

  /** The value of a string of one to three digits. */
  lemma ShortDigitsValue(s: string)
    requires 1 <= |s| <= 3 && AllDigits(s)
    ensures |s| == 1 ==> DigitsValue(s) == DigitValue(s[0])
    ensures |s| == 2 ==> DigitsValue(s) == DigitValue(s[0]) * 10 + DigitValue(s[1])
    ensures |s| == 3 ==> DigitsValue(s) == DigitValue(s[0]) * 100 + DigitValue(s[1]) * 10 + DigitValue(s[2])
  {
    assert s[..0] == [];
    if |s| >= 2 {
      assert s[..1] == [s[0]];
      assert s[..1][..0] == [];
    }
    if |s| == 3 {
      assert s[..2] == [s[0], s[1]];
      assert s[..2][..1] == [s[0]];
    }
  }

  /** A run of digits reads back as the whole number it spells. */
  lemma ParseDigits(s: string)
    requires |s| >= 1 && AllDigits(s)
    ensures ParseDecimal(s) == Some(Decimal(DigitsValue(s), 0))
  {
    assert PointPosition(s) == |s| by {
      forall j | 0 <= j < |s| ensures s[j] != '.' {
        assert IsDigit(s[j]);
      }
    }
    assert s[..|s|] == s;
    assert s + [] == s;
    assert UnsignedPart(s) == s;
  }

  /** A numeral that starts with a digit has no sign to strip. */
  lemma NoSign(whole: string, frac: string)
    requires |whole| >= 1 && AllDigits(whole)
    ensures UnsignedPart(whole + "." + frac) == whole + "." + frac
  {
    var text := whole + "." + frac;
    assert text[0] == whole[0];
    assert IsDigit(whole[0]);
  }

  /** Digits, a '.' and more digits read back with the fraction digits as the scale. */
  lemma ParsePointedDigits(whole: string, frac: string)
    requires |whole| >= 1 && AllDigits(whole) && AllDigits(frac)
    ensures AllDigits(whole + frac)
    ensures ParseDecimal(whole + "." + frac) == Some(Decimal(DigitsValue(whole + frac), |frac|))
  {
    var text := whole + "." + frac;
    NoSign(whole, frac);
    ParsePointed(whole, frac);
    assert text[0] == whole[0];
    assert IsDigit(whole[0]);
  }

  /** A '-' in front of an unsigned numeral negates what it reads as. */
  lemma ParseNegated(text: string, body: string, d: Decimal)
    requires |body| >= 1 && IsDigit(body[0])
    requires ParseDecimal(body) == Some(d)
    requires text == "-" + body
    ensures ParseDecimal(text) == Some(Decimal(-d.unscaled, d.scale))
  {
    assert UnsignedPart("-" + body) == body by {
      assert ("-" + body)[1..] == body;
    }
    assert UnsignedPart(body) == body;
  }

  lemma Pow10Of17()
    ensures Pow10(17) == 100000000000000000
  {
    Pow10Add(8, 9);
  }

  /** Text that is a run of digits worth w reads back as w. */
  lemma ReadsAsWhole(text: string, w: nat)
    requires |text| >= 1 && AllDigits(text) && DigitsValue(text) == w
    ensures ParseDecimal(text) == Some(Decimal(w, 0))
  {
    ParseDigits(text);
  }

  /** Text made of digits worth w, a '.', and two digits worth f reads back as w * 100 + f cents. */
  lemma ReadsAsCents(text: string, whole: string, frac: string, w: nat, f: nat)
    requires |whole| >= 1 && AllDigits(whole) && |frac| == 2 && AllDigits(frac)
    requires DigitsValue(whole) == w && DigitsValue(frac) == f
    requires text == whole + "." + frac
    ensures ParseDecimal(text) == Some(Decimal(w * 100 + f, 2))
  {
    ParsePointedDigits(whole, frac);
    DigitsValueAppend(whole, frac);
    assert Pow10(|frac|) == 100;
  }

  lemma Value0()
    ensures AllDigits("0") && DigitsValue("0") == 0
  {
    ShortDigitsValue("0");
  }

  lemma Value12()
    ensures AllDigits("12") && DigitsValue("12") == 12
  {
    ShortDigitsValue("12");
  }

  lemma Value44()
    ensures AllDigits("44") && DigitsValue("44") == 44
  {
    ShortDigitsValue("44");
  }

  lemma Value100()
    ensures AllDigits("100") && DigitsValue("100") == 100
  {
    ShortDigitsValue("100");
  }

  lemma Value150()
    ensures AllDigits("150") && DigitsValue("150") == 150
  {
    ShortDigitsValue("150");
  }

  lemma Value200()
    ensures AllDigits("200") && DigitsValue("200") == 200
  {
    ShortDigitsValue("200");
  }

  lemma Value300()
    ensures AllDigits("300") && DigitsValue("300") == 300
  {
    ShortDigitsValue("300");
  }

  lemma Value350()
    ensures AllDigits("350") && DigitsValue("350") == 350
  {
    ShortDigitsValue("350");
  }

  lemma Value2e17()
    ensures AllDigits("200000000000000000") && DigitsValue("200000000000000000") == 200000000000000000
  {
    Pow10Of17();
    ShortDigitsValue("2");
    ZerosShiftValue("2", 17);
    assert "2" + Zeros(17) == "200000000000000000";
  }

  lemma Value3e17()
    ensures AllDigits("300000000000000000") && DigitsValue("300000000000000000") == 300000000000000000
  {
    Pow10Of17();
    ShortDigitsValue("3");
    ZerosShiftValue("3", 17);
    assert "3" + Zeros(17) == "300000000000000000";
  }

  lemma Value15e16()
    ensures AllDigits("150000000000000000") && DigitsValue("150000000000000000") == 150000000000000000
  {
    assert Pow10(16) == 10000000000000000 by { Pow10Add(8, 8); }
    ShortDigitsValue("15");
    ZerosShiftValue("15", 16);
    assert "15" + Zeros(16) == "150000000000000000";
  }

  lemma Parse200()
    ensures ParseDecimal("200") == Some(Decimal(200, 0))
  {
    Value200();
    ReadsAsWhole("200", 200);
  }

  lemma Parse350()
    ensures ParseDecimal("350") == Some(Decimal(350, 0))
  {
    Value350();
    ReadsAsWhole("350", 350);
  }

  lemma Parse150()
    ensures ParseDecimal("150") == Some(Decimal(150, 0))
  {
    Value150();
    ReadsAsWhole("150", 150);
  }

  lemma ParseMinus150()
    ensures ParseDecimal("-150") == Some(Decimal(-150, 0))
  {
    Parse150();
    ParseNegated("-150", "150", Decimal(150, 0));
  }

  lemma Parse30044()
    ensures ParseDecimal("300.44") == Some(Decimal(30044, 2))
  {
    Value300();
    Value44();
    ReadsAsCents("300.44", "300", "44", 300, 44);
  }

  lemma Parse20012()
    ensures ParseDecimal("200.12") == Some(Decimal(20012, 2))
  {
    Value200();
    Value12();
    ReadsAsCents("200.12", "200", "12", 200, 12);
  }

  lemma Parse30012()
    ensures ParseDecimal("300.12") == Some(Decimal(30012, 2))
  {
    Value300();
    Value12();
    ReadsAsCents("300.12", "300", "12", 300, 12);
  }

  lemma Parse10012()
    ensures ParseDecimal("100.12") == Some(Decimal(10012, 2))
  {
    Value100();
    Value12();
    ReadsAsCents("100.12", "100", "12", 100, 12);
  }

  lemma Parse044()
    ensures ParseDecimal("0.44") == Some(Decimal(44, 2))
  {
    Value0();
    Value44();
    ReadsAsCents("0.44", "0", "44", 0, 44);
  }

  lemma ParseMinus044()
    ensures ParseDecimal("-0.44") == Some(Decimal(-44, 2))
  {
    Parse044();
    ParseNegated("-0.44", "0.44", Decimal(44, 2));
  }

  lemma Parse2e17()
    ensures ParseDecimal("200000000000000000") == Some(Decimal(200000000000000000, 0))
  {
    Value2e17();
    ReadsAsWhole("200000000000000000", 200000000000000000);
  }

  lemma Parse15e16()
    ensures ParseDecimal("150000000000000000") == Some(Decimal(150000000000000000, 0))
  {
    Value15e16();
    ReadsAsWhole("150000000000000000", 150000000000000000);
  }

  lemma Parse3e17Point44()
    ensures ParseDecimal("300000000000000000.44") == Some(Decimal(30000000000000000044, 2))
  {
    Value3e17();
    Value44();
    ReadsAsCents("300000000000000000.44", "300000000000000000", "44", 300000000000000000, 44);
  }

  lemma Parse2e17Point12()
    ensures ParseDecimal("200000000000000000.12") == Some(Decimal(20000000000000000012, 2))
  {
    Value2e17();
    Value12();
    ReadsAsCents("200000000000000000.12", "200000000000000000", "12", 200000000000000000, 12);
  }

  // ---------------------------------------------------------------------------
  // Single calls

  /** A value worth a positive whole number of cents passes the amount checks as those cents. */
  lemma ValidAmount(value: Decimal, cents: int)
    requires cents > 0 && value.unscaled * 100 == cents * Pow10(value.scale)
    ensures MonetaryValueIsValid(value) && Cents(value) == cents
  {
    var p := Pow10(value.scale);
    var u := value.unscaled;
    assert (u * 100) % p == 0 by { MulDiv(cents, p); }
    assert u > 0 by { MulAtLeast(cents, p); }
    MonetaryValueIsValidMeans(value);
    ScaleOrder(Cents(value), cents, p);
  }

  /** The withdrawal amount of such a value, below the balance, is its cents. */
  lemma ValidWithdrawalAmount(text: string, balance: int, value: Decimal, cents: int)
    requires ParseDecimal(text) == Some(value)
    requires 0 < cents < balance && value.unscaled * 100 == cents * Pow10(value.scale)
    ensures WithdrawalAmount(text, balance) == Some(cents)
  {
    ValidAmount(value, cents);
    WithdrawValueInCents(value, balance);
  }

  /** The deposit amount of such a value is its cents. */
  lemma ValidDepositAmount(text: string, value: Decimal, cents: int)
    requires ParseDecimal(text) == Some(value)
    requires cents > 0 && value.unscaled * 100 == cents * Pow10(value.scale)
    ensures DepositAmount(text) == Some(cents)
  {
    ValidAmount(value, cents);
  }

  /** A deposit whose text reads as a value worth a positive number of cents goes through. */
  lemma DepositStep(l: Ledger, token: string, text: string, at: Timestamp, value: Decimal, cents: int)
    requires token == "d" || token == "D"
    requires ParseDecimal(text) == Some(value)
    requires cents > 0 && value.unscaled * 100 == cents * Pow10(value.scale)
    ensures Transition(l, token, text, at).2
      == Ledger(l.balance + cents, l.history + [Record(Deposit(cents, at), l.balance + cents)])
  {
    ValidDepositAmount(text, value, cents);
    DepositAccepted(l, token, text, at, cents);
  }

  /** A withdrawal whose text reads as a value worth cents, 0 < cents < balance, goes through. */
  lemma WithdrawalStep(l: Ledger, token: string, text: string, at: Timestamp, value: Decimal, cents: int)
    requires token == "w" || token == "W"
    requires ParseDecimal(text) == Some(value)
    requires 0 < cents < l.balance && value.unscaled * 100 == cents * Pow10(value.scale)
    ensures Transition(l, token, text, at).2
      == Ledger(l.balance - cents, l.history + [Record(Withdraw(cents, at), l.balance - cents)])
  {
    ValidWithdrawalAmount(text, l.balance, value, cents);
    WithdrawalAccepted(l, token, text, at, cents);
  }

  /** A deposit or withdrawal of a value that is not above zero changes nothing. */
  lemma NotPositiveStep(l: Ledger, token: string, text: string, at: Timestamp, value: Decimal)
    requires token in {"d", "D", "w", "W"}
    requires ParseDecimal(text) == Some(value)
    requires value.unscaled <= 0
    ensures Transition(l, token, text, at).2 == l
  {
    if token == "d" || token == "D" {
      DepositOutcome(l, token, text, at);
    } else {
      WithdrawalOutcome(l, token, text, at);
    }
  }

  /** A withdrawal of a value not below the balance changes nothing. */
  lemma OverdraftStep(l: Ledger, token: string, text: string, at: Timestamp, value: Decimal)
    requires token == "w" || token == "W"
    requires ParseDecimal(text) == Some(value)
    requires value.unscaled * 100 >= l.balance * Pow10(value.scale)
    ensures Transition(l, token, text, at).2 == l
  {
    WithdrawalOutcome(l, token, text, at);
  }

  // ---------------------------------------------------------------------------
  // The scenarios

  /** ControllerTest, usual case: d 200, w 150, D 300.44, W 200.12 leave 150.32. */
  lemma UsualCase(at: Timestamp)
    ensures var l1 := Transition(Ledger(InitialBalance, []), "d", "200", at).2;
      var l2 := Transition(l1, "w", "150", at).2;
      var l3 := Transition(l2, "D", "300.44", at).2;
      var l4 := Transition(l3, "W", "200.12", at).2;
      && l1.balance == 20000
      && l2.balance == 5000
      && l3.balance == 35044
      && l4.balance == 15032
      && |l4.history| == 4
  {
    var l1 := Transition(Ledger(InitialBalance, []), "d", "200", at).2;
    Parse200();
    DepositStep(Ledger(InitialBalance, []), "d", "200", at, Decimal(200, 0), 20000);
    var l2 := Transition(l1, "w", "150", at).2;
    Parse150();
    WithdrawalStep(l1, "w", "150", at, Decimal(150, 0), 15000);
    var l3 := Transition(l2, "D", "300.44", at).2;
    Parse30044();
    DepositStep(l2, "D", "300.44", at, Decimal(30044, 2), 30044);
    Parse20012();
    WithdrawalStep(l3, "W", "200.12", at, Decimal(20012, 2), 20012);
  }

  /** ControllerTest, large values: the same arithmetic is exact at 10^17. */
  lemma LargeValues(at: Timestamp)
    ensures var l1 := Transition(Ledger(InitialBalance, []), "d", "200000000000000000", at).2;
      var l2 := Transition(l1, "w", "150000000000000000", at).2;
      var l3 := Transition(l2, "D", "300000000000000000.44", at).2;
      var l4 := Transition(l3, "W", "200000000000000000.12", at).2;
      && l1.balance == 20000000000000000000
      && l2.balance == 5000000000000000000
      && l3.balance == 35000000000000000044
      && l4.balance == 15000000000000000032
  {
    var l1 := Transition(Ledger(InitialBalance, []), "d", "200000000000000000", at).2;
    Parse2e17();
    DepositStep(Ledger(InitialBalance, []), "d", "200000000000000000", at,
                Decimal(200000000000000000, 0), 20000000000000000000);
    var l2 := Transition(l1, "w", "150000000000000000", at).2;
    Parse15e16();
    WithdrawalStep(l1, "w", "150000000000000000", at,
                   Decimal(150000000000000000, 0), 15000000000000000000);
    var l3 := Transition(l2, "D", "300000000000000000.44", at).2;
    Parse3e17Point44();
    DepositStep(l2, "D", "300000000000000000.44", at,
                Decimal(30000000000000000044, 2), 30000000000000000044);
    Parse2e17Point12();
    WithdrawalStep(l3, "W", "200000000000000000.12", at,
                   Decimal(20000000000000000012, 2), 20000000000000000012);
  }

  /** ControllerTest, overdraft: withdrawing 350 and then 300.12 from 200 and 200.44 is refused. */
  lemma Overdraft(at: Timestamp)
    ensures var l1 := Transition(Ledger(InitialBalance, []), "d", "200", at).2;
      var l2 := Transition(l1, "w", "350", at).2;
      var l3 := Transition(l2, "D", "0.44", at).2;
      var l4 := Transition(l3, "W", "300.12", at).2;
      && l1.balance == 20000
      && l2 == l1
      && l3.balance == 20044
      && l4 == l3
  {
    var l1 := Transition(Ledger(InitialBalance, []), "d", "200", at).2;
    Parse200();
    DepositStep(Ledger(InitialBalance, []), "d", "200", at, Decimal(200, 0), 20000);
    Parse350();
    OverdraftStep(l1, "w", "350", at, Decimal(350, 0));
    Parse044();
    DepositStep(l1, "D", "0.44", at, Decimal(44, 2), 44);
    var l3 := Transition(l1, "D", "0.44", at).2;
    Parse30012();
    OverdraftStep(l3, "W", "300.12", at, Decimal(30012, 2));
  }

  /** ControllerTest, negative values: -150 and -0.44 are refused, 100.12 then goes through. */
  lemma NegativeValues(at: Timestamp)
    ensures var l1 := Transition(Ledger(InitialBalance, []), "d", "200", at).2;
      var l2 := Transition(l1, "w", "-150", at).2;
      var l3 := Transition(l2, "D", "-0.44", at).2;
      var l4 := Transition(l3, "W", "100.12", at).2;
      && l1.balance == 20000
      && l2 == l1
      && l3 == l1
      && l4.balance == 9988
  {
    var l1 := Transition(Ledger(InitialBalance, []), "d", "200", at).2;
    Parse200();
    DepositStep(Ledger(InitialBalance, []), "d", "200", at, Decimal(200, 0), 20000);
    ParseMinus150();
    NotPositiveStep(l1, "w", "-150", at, Decimal(-150, 0));
    ParseMinus044();
    NotPositiveStep(l1, "D", "-0.44", at, Decimal(-44, 2));
    Parse10012();
    WithdrawalStep(l1, "W", "100.12", at, Decimal(10012, 2), 10012);
  }

  /** The first two calls of the account test: d 200, then w 150. */
  lemma DepositThenWithdraw(at: Timestamp)
    ensures Transition(Transition(Ledger(InitialBalance, []), "d", "200", at).2, "w", "150", at).2
      == Ledger(5000, [Record(Deposit(20000, at), 20000), Record(Withdraw(15000, at), 5000)])
  {
    var l0 := Ledger(InitialBalance, []);
    Parse200();
    DepositStep(l0, "d", "200", at, Decimal(200, 0), 20000);
    var l1 := Transition(l0, "d", "200", at).2;
    Parse150();
    WithdrawalStep(l1, "w", "150", at, Decimal(150, 0), 15000);
  }

  /** The other two transactions of the account test, from a balance of 50.00: D 300.44, then W 200.12. */
  lemma DepositThenWithdrawAgain(l: Ledger, at: Timestamp)
    requires l.balance == 5000
    ensures Transition(Transition(l, "D", "300.44", at).2, "W", "200.12", at).2
      == Ledger(15032, l.history + [Record(Deposit(30044, at), 35044)] + [Record(Withdraw(20012, at), 15032)])
  {
    Parse30044();
    DepositStep(l, "D", "300.44", at, Decimal(30044, 2), 30044);
    var l1 := Transition(l, "D", "300.44", at).2;
    Parse20012();
    WithdrawalStep(l1, "W", "200.12", at, Decimal(20012, 2), 20012);
  }

  /**
   * AccountTest: d 200, w 150, p, D 300.44, W 200.12, p leave exactly the four
   * transactions on record; the statement requests add nothing.
   */
  lemma OnlyTransactionsRecorded(at: Timestamp)
    ensures var l1 := Transition(Ledger(InitialBalance, []), "d", "200", at).2;
      var l2 := Transition(l1, "w", "150", at).2;
      var l3 := Transition(l2, "p", "", at).2;
      var l4 := Transition(l3, "D", "300.44", at).2;
      var l5 := Transition(l4, "W", "200.12", at).2;
      var l6 := Transition(l5, "p", "", at).2;
      l6.history == [
        Record(Deposit(20000, at), 20000),
        Record(Withdraw(15000, at), 5000),
        Record(Deposit(30044, at), 35044),
        Record(Withdraw(20012, at), 15032)]
  {
    DepositThenWithdraw(at);
    var l2 := Ledger(5000, [Record(Deposit(20000, at), 20000), Record(Withdraw(15000, at), 5000)]);
    PrintAndQuitChangeNothing(l2, "p", "", at);
    DepositThenWithdrawAgain(l2, at);
    var l5 := Transition(Transition(l2, "D", "300.44", at).2, "W", "200.12", at).2;
    PrintAndQuitChangeNothing(l5, "p", "", at);
  }
}
