/**
 * The closed family of commands (Command, Transaction, Deposit, Withdraw, Noop, Quit)
 * and the read-only Record that wraps an executed command with a balance.
 */
module Records {
  import opened Wrappers
  import opened Decimals

  /** The moment a transaction was created; the clock is outside the model. */
  datatype Timestamp = Timestamp(ticks: int)

  /**
   * A command. Deposit and Withdraw are the transactions: they carry an amount in
   * whole cents and the time they were created.
   */
  datatype Command =
    | Deposit(amount: int, datetime: Timestamp)
    | Withdraw(amount: int, datetime: Timestamp)
    | Noop
    | Quit
  {
    /** The action tag each kind of command sets in its constructor. */
    function Action(): (tag: string)
      ensures tag == "DEPOSIT" <==> Deposit?
      ensures tag == "WITHDRAW" <==> Withdraw?
      ensures tag == "NOOP" <==> Noop?
      ensures tag == "QUIT" <==> Quit?
    {
      match this
      case Deposit(_, _) => "DEPOSIT"
      case Withdraw(_, _) => "WITHDRAW"
      case Noop => "NOOP"
      case Quit => "QUIT"
    }

    /** Whether the command is an instance of Transaction. */
    predicate IsTransaction()
    {
      Deposit? || Withdraw?
    }
  }

  /**
   * An executed command and the account balance (in cents) when it finished.
   * Both fields are fixed at construction: a Record is a value.
   */
  datatype Record = Record(command: Command, balance: int)
  {
    /** The action tag of the wrapped command. */
    function GetAction(): (tag: string)
      ensures tag == "DEPOSIT" <==> command.Deposit?
      ensures tag == "WITHDRAW" <==> command.Withdraw?
    {
      command.Action()
    }

    /** Whether the wrapped command is an instance of Transaction. */
    predicate ContainsTransaction()
    {
      command.IsTransaction()
    }

    /** The transaction amount rendered as "#0.00"; None (Java's null) for other commands. */
    function GetAmount(): (s: Option<string>)
      ensures s.Some? <==> ContainsTransaction()
    {
      if !ContainsTransaction() then None else Some(FormatCents(command.amount))
    }

    /** The creation time of the transaction; None for other commands. */
    function GetDateTime(): (t: Option<Timestamp>)
      ensures t.Some? <==> ContainsTransaction()
      ensures t.Some? ==> t.value == command.datetime
    {
      if !ContainsTransaction() then None else Some(command.datetime)
    }

    /** The balance after the transaction rendered as "#0.00"; None for other commands. */
    function GetBalance(): (s: Option<string>)
      ensures s.Some? <==> ContainsTransaction()
    {
      if !ContainsTransaction() then None else Some(FormatCents(balance))
    }
  }

  /** The Transaction subclasses are exactly the commands tagged DEPOSIT and WITHDRAW. */
  lemma IsTransactionIffTag(c: Command)
    ensures c.IsTransaction() <==> c.Action() == "DEPOSIT" || c.Action() == "WITHDRAW"
  {
  }

  /** A record contains a transaction exactly when its action tag is DEPOSIT or WITHDRAW. */
  lemma TransactionIffTag(r: Record)
    ensures r.ContainsTransaction() <==> r.GetAction() == "DEPOSIT" || r.GetAction() == "WITHDRAW"
  {
  }

  /**
   * Both renderings of a transaction record have the "#0.00" shape and are exact:
   * reading them back gives the amount and the balance, in cents.
   */
  lemma RenderingIsExact(r: Record)
    requires r.ContainsTransaction()
    ensures IsHashZeroPointZeroZero(r.GetAmount().value)
    ensures ParseDecimal(r.GetAmount().value) == Some(FromCents(r.command.amount))
    ensures IsHashZeroPointZeroZero(r.GetBalance().value)
    ensures ParseDecimal(r.GetBalance().value) == Some(FromCents(r.balance))
  {
    FormatCentsShape(r.command.amount);
    FormatCentsRoundTrip(r.command.amount);
    FormatCentsShape(r.balance);
    FormatCentsRoundTrip(r.balance);
  }

  /** A deposit of 200 renders its amount as "200.00". */
  lemma RenderingExample(at: Timestamp)
    ensures Record(Deposit(20000, at), 20000).GetAmount() == Some("200.00")
  {
    assert NatToDigits(200) == "200" by {
      assert NatToDigits(2) == "2";
      assert NatToDigits(20) == "2" + "0";
    }
    assert DigitChar(0) == '0';
    assert FormatCents(20000) == "200" + "." + "00";
    assert "200" + "." + "00" == "200.00";
  }
}
