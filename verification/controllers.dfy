/**
 * The controller: it upper-cases a command token, accepts only D, W, P and Q,
 * validates deposit and withdrawal amounts with exact decimal arithmetic, and runs
 * the matching command against the account. Every rejection degrades to a no-op
 * record plus a warning; the warnings (calls on the View in the program) are
 * returned as a Signal.
 */
module Controllers {
  import opened Wrappers
  import opened Decimals
  import opened Records
  import opened Accounts
  import opened Commands

  /**
   * The warning, statement or goodbye call on the View that accompanies the record
   * executeInput returns. The amount prompt made on D and W is not part of it.
   */
  datatype Signal =
    | NoWarning
    | WarnInvalidCommand
    | WarnInvalidValue
    | PrintStatement
    | PrintGoodbyeMessage

  /** The values of VALID_COMMANDS. */
  const ValidCommands: set<string> := {"D", "W", "P", "Q"}

  function UpperAscii(c: char): (u: char)
    ensures 'a' <= c <= 'z' ==> u as int == c as int - 32
    ensures !('a' <= c <= 'z') ==> u == c
  {
    if 'a' <= c <= 'z' then (c as int - 32) as char else c
  }

  /** sanitiseInput: the token upper-cased, letter by letter. */
  function SanitiseInput(input: string): (r: string)
    ensures |r| == |input|
    ensures forall i | 0 <= i < |r| :: r[i] == UpperAscii(input[i])
  {
    seq(|input|, i requires 0 <= i < |input| => UpperAscii(input[i]))
  }

  /** VALID_COMMANDS.containsValue */
  predicate IsValidCommand(input: string)
  {
    input in ValidCommands
  }

  /** inputIsNumeric: whether new BigDecimal(text) succeeds. */
  predicate InputIsNumeric(text: string)
  {
    ParseDecimal(text).Some?
  }

  /** hasTwoDecimal: value * 100 compares equal to its own integer truncation. */
  predicate HasTwoDecimal(value: Decimal)
  {
    var scaled := Times100(value);
    CompareTo(scaled, FromInteger(ToBigInteger(scaled))) == 0
  }

  /** monetaryValueIsValid: strictly above zero and with at most two decimals. */
  predicate MonetaryValueIsValid(value: Decimal)
  {
    CompareTo(value, Zero) > 0 && HasTwoDecimal(value)
  }

  /** withdrawValueIsValid: the amount is strictly below the balance. */
  predicate WithdrawValueIsValid(amount: Decimal, balance: Decimal)
  {
    CompareTo(amount, balance) < 0
  }

  /** A value with at most two decimals as whole cents; the conversion is exact. */
  function Cents(value: Decimal): (c: int)
    requires HasTwoDecimal(value)
    ensures c * Pow10(value.scale) == value.unscaled * 100
    ensures CompareTo(value, FromCents(c)) == 0
    ensures value.unscaled > 0 ==> c > 0
  {
    var c := ToBigInteger(Times100(value));
    assert Pow10(2) == 100;
    ScaleOrder(0, c, Pow10(value.scale));
    c
  }

  /** hasTwoDecimal holds exactly when 100 times the value is a whole number. */
  lemma HasTwoDecimalMeansWholeCents(value: Decimal)
    ensures HasTwoDecimal(value) <==> (value.unscaled * 100) % Pow10(value.scale) == 0
  {
    var p := Pow10(value.scale);
    assert HasTwoDecimal(value) <==> TruncDiv(value.unscaled * 100, p) * p == value.unscaled * 100;
    TruncDivExact(value.unscaled * 100, p);
  }

  /** monetaryValueIsValid in plain terms: positive, and a whole number of cents. */
  lemma MonetaryValueIsValidMeans(value: Decimal)
    ensures MonetaryValueIsValid(value)
      <==> value.unscaled > 0 && (value.unscaled * 100) % Pow10(value.scale) == 0
  {
    HasTwoDecimalMeansWholeCents(value);
  }

  /** Trailing zeros do not matter: "1.000" passes hasTwoDecimal, "1.005" does not. */
  lemma TrailingZerosAccepted()
    ensures HasTwoDecimal(Decimal(1000, 3))
    ensures !HasTwoDecimal(Decimal(1005, 3))
  {
    HasTwoDecimalMeansWholeCents(Decimal(1000, 3));
    HasTwoDecimalMeansWholeCents(Decimal(1005, 3));
    assert Pow10(3) == 1000;
  }

  /** The withdrawal check compares values, which for whole cents is comparing cents. */
  lemma WithdrawValueInCents(value: Decimal, balance: int)
    requires HasTwoDecimal(value)
    ensures WithdrawValueIsValid(value, FromCents(balance)) <==> Cents(value) < balance
  {
    var p := Pow10(value.scale);
    assert Pow10(2) == 100;
    ScaleOrder(Cents(value), balance, p);
  }

  /** The deposit amount beginDepositProcess accepts from the text, in cents. */
  function DepositAmount(text: string): (r: Option<int>)
    ensures r.Some? <==> InputIsNumeric(text) && MonetaryValueIsValid(ParseDecimal(text).value)
    ensures r.Some? ==> r.value > 0 && CompareTo(ParseDecimal(text).value, FromCents(r.value)) == 0
  {
    if !InputIsNumeric(text) then None
    else
      var value := ParseDecimal(text).value;
      if MonetaryValueIsValid(value) then Some(Cents(value)) else None
  }

  /** The withdrawal amount beginWithdrawalProcess accepts against a balance, in cents. */
  function WithdrawalAmount(text: string, balance: int): (r: Option<int>)
    ensures r.Some? <==> InputIsNumeric(text) && MonetaryValueIsValid(ParseDecimal(text).value)
                         && CompareTo(ParseDecimal(text).value, FromCents(balance)) < 0
    ensures r.Some? ==> 0 < r.value < balance
    ensures r.Some? ==> CompareTo(ParseDecimal(text).value, FromCents(r.value)) == 0
  {
    if !InputIsNumeric(text) then None
    else
      var value := ParseDecimal(text).value;
      if MonetaryValueIsValid(value) && WithdrawValueIsValid(value, FromCents(balance)) then
        WithdrawValueInCents(value, balance);
        Some(Cents(value))
      else None
  }

  /** handleInput on an upper-cased, valid token: the command to run and the signal. */
  function Handle(balance: int, input: string, amountText: string, at: Timestamp): (Command, Signal)
  {
    if input == "D" then
      match DepositAmount(amountText)
      case Some(c) => (Deposit(c, at), NoWarning)
      case None => (Noop, WarnInvalidValue)
    else if input == "W" then
      match WithdrawalAmount(amountText, balance)
      case Some(c) => (Withdraw(c, at), NoWarning)
      case None => (Noop, WarnInvalidValue)
    else if input == "P" then (Noop, PrintStatement)
    else if input == "Q" then (Quit, PrintGoodbyeMessage)
    else (Noop, NoWarning)
  }

  /** executeInput as a function of the ledger: the record, the signal and the ledger after. */
  function Transition(l: Ledger, token: string, amountText: string, at: Timestamp): (Record, Signal, Ledger)
  {
    var input := SanitiseInput(token);
    var (cmd, signal) :=
      if !IsValidCommand(input) then (Noop, WarnInvalidCommand)
      else Handle(l.balance, input, amountText, at);
    var (r, after) := Effect(cmd, l);
    (r, signal, after)
  }

  /**
   * executeInput: the account and the results change exactly as Transition says.
   * amountText is the line the deposit or withdrawal prompt would read; at is the
   * clock reading a new transaction takes.
   */
  method ExecuteInput(token: string, amountText: string, account: Account, at: Timestamp)
    returns (r: Record, signal: Signal)
    modifies account
    ensures (r, signal, account.State()) == Transition(old(account.State()), token, amountText, at)
  {
    var input := SanitiseInput(token);
    if !IsValidCommand(input) {
      signal := WarnInvalidCommand;
      r := ExecuteNoop(account);
    } else {
      r, signal := HandleInput(input, amountText, account, at);
    }
  }

  /** handleInput: dispatch on the upper-cased token. */
  method HandleInput(input: string, amountText: string, account: Account, at: Timestamp)
    returns (r: Record, signal: Signal)
    modifies account
    ensures var (cmd, s) := Handle(old(account.balance), input, amountText, at);
      (r, account.State()) == Effect(cmd, old(account.State())) && signal == s
  {
    if input == "D" {
      r, signal := BeginDepositProcess(amountText, account, at);
    } else if input == "W" {
      r, signal := BeginWithdrawalProcess(amountText, account, at);
    } else if input == "P" {
      r, signal := BeginPrintStatementProcess(account);
    } else if input == "Q" {
      r, signal := BeginQuitProgramProcess(account);
    } else {
      r, signal := ExecuteNoop(account), NoWarning;
    }
  }

  /** beginDepositProcess: deposit the amount read if it is valid, otherwise warn. */
  method BeginDepositProcess(amountText: string, account: Account, at: Timestamp)
    returns (r: Record, signal: Signal)
    modifies account
    ensures match DepositAmount(amountText)
      case Some(c) =>
        && r == Record(Deposit(c, at), old(account.balance) + c)
        && account.State() == Ledger(r.balance, old(account.history) + [r])
        && signal == NoWarning
      case None =>
        && r == Record(Noop, old(account.balance))
        && account.State() == old(account.State())
        && signal == WarnInvalidValue
  {
    if !InputIsNumeric(amountText) {
      signal := WarnInvalidValue;
      r := ExecuteNoop(account);
      return;
    }
    var value := ParseDecimal(amountText).value;
    if MonetaryValueIsValid(value) {
      r := ExecuteDeposit(Deposit(Cents(value), at), account);
      signal := NoWarning;
    } else {
      signal := WarnInvalidValue;
      r := ExecuteNoop(account);
    }
  }

  /** beginWithdrawalProcess: withdraw the amount read if it is valid and below the balance. */
  method BeginWithdrawalProcess(amountText: string, account: Account, at: Timestamp)
    returns (r: Record, signal: Signal)
    modifies account
    ensures match WithdrawalAmount(amountText, old(account.balance))
      case Some(c) =>
        && r == Record(Withdraw(c, at), old(account.balance) - c)
        && account.State() == Ledger(r.balance, old(account.history) + [r])
        && signal == NoWarning
      case None =>
        && r == Record(Noop, old(account.balance))
        && account.State() == old(account.State())
        && signal == WarnInvalidValue
  {
    if !InputIsNumeric(amountText) {
      signal := WarnInvalidValue;
      r := ExecuteNoop(account);
      return;
    }
    var value := ParseDecimal(amountText).value;
    var balance := account.GetBalance();
    if MonetaryValueIsValid(value) && WithdrawValueIsValid(value, FromCents(balance)) {
      r := ExecuteWithdraw(Withdraw(Cents(value), at), account);
      signal := NoWarning;
    } else {
      signal := WarnInvalidValue;
      r := ExecuteNoop(account);
    }
  }

  /** beginPrintStatementProcess: ask for the statement; a no-op record, nothing written. */
  method BeginPrintStatementProcess(account: Account) returns (r: Record, signal: Signal)
    ensures r == Record(Noop, account.balance) && signal == PrintStatement
  {
    signal := PrintStatement;
    r := ExecuteNoop(account);
  }

  /** beginQuitProgramProcess: say goodbye and return the quit record. */
  method BeginQuitProgramProcess(account: Account) returns (r: Record, signal: Signal)
    ensures r == Record(Quit, account.balance) && signal == PrintGoodbyeMessage
  {
    signal := PrintGoodbyeMessage;
    r := ExecuteQuit(account);
  }

  // ---------------------------------------------------------------------------
  // What executeInput promises

  /** After upper-casing, exactly the one-letter tokens d/D, w/W, p/P and q/Q are valid. */
  lemma RecognisedTokens(token: string)
    ensures SanitiseInput(token) == "D" <==> token == "d" || token == "D"
    ensures SanitiseInput(token) == "W" <==> token == "w" || token == "W"
    ensures SanitiseInput(token) == "P" <==> token == "p" || token == "P"
    ensures SanitiseInput(token) == "Q" <==> token == "q" || token == "Q"
    ensures IsValidCommand(SanitiseInput(token)) <==> token in {"d", "D", "w", "W", "p", "P", "q", "Q"}
  {
    if |token| == 1 {
      assert token == [token[0]];
      assert SanitiseInput(token) == [UpperAscii(token[0])];
    }
  }

  /** The token is case-insensitive: "d" and "D" take the same path, and so on. */
  lemma TokenIsCaseInsensitive(l: Ledger, amountText: string, at: Timestamp)
    ensures Transition(l, "d", amountText, at) == Transition(l, "D", amountText, at)
    ensures Transition(l, "w", amountText, at) == Transition(l, "W", amountText, at)
    ensures Transition(l, "p", amountText, at) == Transition(l, "P", amountText, at)
    ensures Transition(l, "q", amountText, at) == Transition(l, "Q", amountText, at)
  {
    RecognisedTokens("d");
    RecognisedTokens("D");
    RecognisedTokens("w");
    RecognisedTokens("W");
    RecognisedTokens("p");
    RecognisedTokens("P");
    RecognisedTokens("q");
    RecognisedTokens("Q");
  }

  /** Any other token gives a no-op record and the invalid-command warning, and changes nothing. */
  lemma UnknownTokenRejected(l: Ledger, token: string, amountText: string, at: Timestamp)
    requires token !in {"d", "D", "w", "W", "p", "P", "q", "Q"}
    ensures Transition(l, token, amountText, at) == (Record(Noop, l.balance), WarnInvalidCommand, l)
  {
    RecognisedTokens(token);
  }

  /**
   * A deposit or withdrawal whose amount text is not a plain decimal numeral gives a
   * no-op record and the invalid-value warning, and changes nothing.
   */
  lemma NonNumericAmountRejected(l: Ledger, token: string, amountText: string, at: Timestamp)
    requires token in {"d", "D", "w", "W"}
    requires !IsNumeral(amountText)
    ensures Transition(l, token, amountText, at) == (Record(Noop, l.balance), WarnInvalidValue, l)
  {
    RecognisedTokens(token);
    ParseDecimalAcceptsNumerals(amountText);
  }

  /**
   * A deposit goes through exactly when its amount is a numeral above zero with at most
   * two decimals; it then adds exactly that amount and appends one DEPOSIT record.
   * Otherwise the account is untouched and the invalid-value warning is given.
   */
  lemma DepositOutcome(l: Ledger, token: string, amountText: string, at: Timestamp)
    requires token == "d" || token == "D"
    ensures var (r, signal, after) := Transition(l, token, amountText, at);
      if InputIsNumeric(amountText)
         && ParseDecimal(amountText).value.unscaled > 0
         && (ParseDecimal(amountText).value.unscaled * 100) % Pow10(ParseDecimal(amountText).value.scale) == 0
      then
        && signal == NoWarning
        && r.GetAction() == "DEPOSIT"
        && r.command.amount * Pow10(ParseDecimal(amountText).value.scale)
           == ParseDecimal(amountText).value.unscaled * 100
        && after.balance == l.balance + r.command.amount
        && after.history == l.history + [r]
      else
        r == Record(Noop, l.balance) && signal == WarnInvalidValue && after == l
  {
    RecognisedTokens(token);
    if InputIsNumeric(amountText) {
      MonetaryValueIsValidMeans(ParseDecimal(amountText).value);
    }
  }

  /**
   * A withdrawal goes through exactly when its amount is a numeral above zero with at
   * most two decimals and strictly below the balance; it then subtracts exactly that
   * amount and appends one WITHDRAW record. Otherwise nothing changes.
   */
  lemma WithdrawalOutcome(l: Ledger, token: string, amountText: string, at: Timestamp)
    requires token == "w" || token == "W"
    ensures var (r, signal, after) := Transition(l, token, amountText, at);
      if InputIsNumeric(amountText)
         && ParseDecimal(amountText).value.unscaled > 0
         && (ParseDecimal(amountText).value.unscaled * 100) % Pow10(ParseDecimal(amountText).value.scale) == 0
         && ParseDecimal(amountText).value.unscaled * 100 < l.balance * Pow10(ParseDecimal(amountText).value.scale)
      then
        && signal == NoWarning
        && r.GetAction() == "WITHDRAW"
        && r.command.amount * Pow10(ParseDecimal(amountText).value.scale)
           == ParseDecimal(amountText).value.unscaled * 100
        && 0 < r.command.amount < l.balance
        && after.balance == l.balance - r.command.amount
        && after.history == l.history + [r]
      else
        r == Record(Noop, l.balance) && signal == WarnInvalidValue && after == l
  {
    RecognisedTokens(token);
    if InputIsNumeric(amountText) {
      MonetaryValueIsValidMeans(ParseDecimal(amountText).value);
      assert Pow10(2) == 100;
    }
  }

  /** A deposit call with an accepted amount deposits exactly that amount and records it. */
  lemma DepositAccepted(l: Ledger, token: string, amountText: string, at: Timestamp, c: int)
    requires token == "d" || token == "D"
    requires DepositAmount(amountText) == Some(c)
    ensures Transition(l, token, amountText, at)
      == (Record(Deposit(c, at), l.balance + c), NoWarning,
          Ledger(l.balance + c, l.history + [Record(Deposit(c, at), l.balance + c)]))
  {
    RecognisedTokens(token);
  }

  /** A withdrawal call with an accepted amount withdraws exactly that amount and records it. */
  lemma WithdrawalAccepted(l: Ledger, token: string, amountText: string, at: Timestamp, c: int)
    requires token == "w" || token == "W"
    requires WithdrawalAmount(amountText, l.balance) == Some(c)
    ensures Transition(l, token, amountText, at)
      == (Record(Withdraw(c, at), l.balance - c), NoWarning,
          Ledger(l.balance - c, l.history + [Record(Withdraw(c, at), l.balance - c)]))
  {
    RecognisedTokens(token);
  }

  /** The comparison is strict: withdrawing the whole balance, as "#0.00" shows it, is refused. */
  lemma WholeBalanceWithdrawalRejected(l: Ledger, token: string, at: Timestamp)
    requires token == "w" || token == "W"
    ensures Transition(l, token, FormatCents(l.balance), at) == (Record(Noop, l.balance), WarnInvalidValue, l)
  {
    var text := FormatCents(l.balance);
    FormatCentsRoundTrip(l.balance);
    assert Pow10(2) == 100;
    assert !(ParseDecimal(text).value.unscaled * 100 < l.balance * Pow10(ParseDecimal(text).value.scale));
    WithdrawalOutcome(l, token, text, at);
  }

  /** Asking for the statement or quitting returns a no-op or quit record and changes nothing. */
  lemma PrintAndQuitChangeNothing(l: Ledger, token: string, amountText: string, at: Timestamp)
    ensures token == "p" || token == "P" ==>
      Transition(l, token, amountText, at) == (Record(Noop, l.balance), PrintStatement, l)
    ensures token == "q" || token == "Q" ==>
      Transition(l, token, amountText, at) == (Record(Quit, l.balance), PrintGoodbyeMessage, l)
  {
    RecognisedTokens(token);
  }

  /**
   * Every call either records a transaction, moving the balance by exactly its signed
   * amount and appending exactly that record, or returns a no-op or quit record with
   * the account untouched. The quit record comes from q/Q alone.
   */
  lemma TransitionOutcome(l: Ledger, token: string, amountText: string, at: Timestamp)
    ensures var (r, signal, after) := Transition(l, token, amountText, at);
      && r.balance == after.balance
      && (signal == NoWarning <==> r.ContainsTransaction())
      && (r.ContainsTransaction() ==> after == Ledger(l.balance + SignedAmount(r.command), l.history + [r]))
      && (!r.ContainsTransaction() ==> after == l)
      && (r.GetAction() == "QUIT" <==> token == "q" || token == "Q")
  {
    RecognisedTokens(token);
  }

  /**
   * The ledger invariant holds across every call: the balance stays a non-negative
   * whole number of cents equal to the net of the history.
   */
  lemma TransitionKeepsSound(l: Ledger, token: string, amountText: string, at: Timestamp)
    requires Sound(l)
    ensures Sound(Transition(l, token, amountText, at).2)
  {
    var input := SanitiseInput(token);
    if IsValidCommand(input) {
      var (cmd, _) := Handle(l.balance, input, amountText, at);
      EffectKeepsSound(cmd, l);
    }
  }

  /** One menu line and the amount line its prompt would read, with the clock at that moment. */
  datatype Input = Input(token: string, amountText: string, at: Timestamp)

  /** The ledger after a sequence of executeInput calls. */
  function Run(l: Ledger, inputs: seq<Input>): Ledger
    decreases |inputs|
  {
    if inputs == [] then l
    else
      var i := inputs[0];
      Run(Transition(l, i.token, i.amountText, i.at).2, inputs[1..])
  }

  /** No sequence of calls breaks the invariant: no overdraft, no money created or lost. */
  lemma {:induction false} RunKeepsSound(l: Ledger, inputs: seq<Input>)
    requires Sound(l)
    ensures Sound(Run(l, inputs))
    decreases |inputs|
  {
    if inputs != [] {
      var i := inputs[0];
      TransitionKeepsSound(l, i.token, i.amountText, i.at);
      RunKeepsSound(Transition(l, i.token, i.amountText, i.at).2, inputs[1..]);
    }
  }

  /** From a new account, any sequence of calls leaves a sound ledger with a balance of at least 0. */
  lemma NewAccountStaysSound(inputs: seq<Input>)
    ensures Sound(Run(Ledger(InitialBalance, []), inputs))
    ensures Run(Ledger(InitialBalance, []), inputs).balance >= 0
  {
    InitialLedgerSound();
    RunKeepsSound(Ledger(InitialBalance, []), inputs);
  }

  /** The session loop's test: go on until the previous record's action is QUIT. */
  predicate ContinuesAfter(prev: Option<Record>)
  {
    prev.None? || prev.value.GetAction() != "QUIT"
  }

  /** The loop stops after a call exactly when its token was q or Q. */
  lemma SessionStopsOnQuit(l: Ledger, token: string, amountText: string, at: Timestamp)
    ensures !ContinuesAfter(Some(Transition(l, token, amountText, at).0)) <==> token == "q" || token == "Q"
  {
    TransitionOutcome(l, token, amountText, at);
  }
}
