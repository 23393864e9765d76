/**
 * What executing each kind of command does to an account. Deposit and Withdraw
 * are the only commands that change the balance, and each appends exactly one
 * record; Noop and Quit only read the balance. None of them validates its amount:
 * the controller does that before it builds a transaction.
 */
module Commands {
  import opened Records
  import opened Accounts

  /** Executing cmd against a ledger: the record returned and the ledger afterwards. */
  function Effect(cmd: Command, l: Ledger): (Record, Ledger)
  {
    match cmd
    case Deposit(amount, _) =>
      var r := Record(cmd, l.balance + amount);
      (r, Ledger(r.balance, l.history + [r]))
    case Withdraw(amount, _) =>
      var r := Record(cmd, l.balance - amount);
      (r, Ledger(r.balance, l.history + [r]))
    case _ =>
      (Record(cmd, l.balance), l)
  }

  /**
   * Deposit.execute: adds the amount to the balance, then appends a record of this
   * deposit carrying the new balance, and returns that record.
   */
  method ExecuteDeposit(deposit: Command, account: Account) returns (r: Record)
    requires deposit.Deposit?
    modifies account
    ensures account.balance == old(account.balance) + deposit.amount
    ensures account.history == old(account.history) + [r]
    ensures r.command == deposit && r.balance == account.balance
  {
    var balance := account.GetBalance();
    account.SetBalance(balance + deposit.amount);
    balance := account.GetBalance();
    r := Record(deposit, balance);
    account.SetHistory(r);
  }

  /**
   * Withdraw.execute: subtracts the amount from the balance, then appends a record
   * of this withdrawal carrying the new balance, and returns that record. There is
   * no overdraft check here.
   */
  method ExecuteWithdraw(withdraw: Command, account: Account) returns (r: Record)
    requires withdraw.Withdraw?
    modifies account
    ensures account.balance == old(account.balance) - withdraw.amount
    ensures account.history == old(account.history) + [r]
    ensures r.command == withdraw && r.balance == account.balance
  {
    var balance := account.GetBalance();
    account.SetBalance(balance - withdraw.amount);
    balance := account.GetBalance();
    r := Record(withdraw, balance);
    account.SetHistory(r);
  }

  /** Noop.execute: a record of the no-op with the current balance; nothing is written. */
  function ExecuteNoop(account: Account): (r: Record)
    reads account
    ensures r.GetAction() == "NOOP" && !r.ContainsTransaction()
    ensures r.balance == account.balance
  {
    Record(Noop, account.balance)
  }

  /**
   * Quit.execute without the process exit: a record of the quit with the current
   * balance, which the session loop reads as its signal to stop.
   */
  function ExecuteQuit(account: Account): (r: Record)
    reads account
    ensures r.GetAction() == "QUIT" && !r.ContainsTransaction()
    ensures r.balance == account.balance
  {
    Record(Quit, account.balance)
  }

  /** Command.execute, dispatched on the kind of command. */
  method Execute(cmd: Command, account: Account) returns (r: Record)
    modifies account
    ensures (r, account.State()) == Effect(cmd, old(account.State()))
  {
    match cmd
    case Deposit(_, _) => r := ExecuteDeposit(cmd, account);
    case Withdraw(_, _) => r := ExecuteWithdraw(cmd, account);
    case Noop => r := ExecuteNoop(account);
    case Quit => r := ExecuteQuit(account);
  }

  /**
   * Only transactions touch the ledger, each by appending exactly the record it
   * returns, and the balance moves by exactly the signed amount: money is neither
   * created nor lost.
   */
  lemma EffectConservesMoney(cmd: Command, l: Ledger)
    ensures var (r, after) := Effect(cmd, l);
      && after.balance == l.balance + SignedAmount(cmd)
      && Net(after.history) - Net(l.history) == SignedAmount(cmd)
      && r.balance == after.balance
      && (if cmd.IsTransaction() then after.history == l.history + [r] else after == l)
  {
    var (r, after) := Effect(cmd, l);
    if cmd.IsTransaction() {
      assert after.history[..|after.history| - 1] == l.history;
    }
  }

  /**
   * A deposit of a positive amount, or a withdrawal of a positive amount below the
   * balance, keeps a sound ledger sound; other commands leave it as it is.
   */
  lemma EffectKeepsSound(cmd: Command, l: Ledger)
    requires Sound(l)
    requires cmd.Deposit? ==> cmd.amount > 0
    requires cmd.Withdraw? ==> 0 < cmd.amount < l.balance
    ensures Sound(Effect(cmd, l).1)
  {
    if cmd.IsTransaction() {
      AppendKeepsSound(l, Effect(cmd, l).0);
    }
  }
}
