/**
 * The single bank account: a balance in cents, overwritten in place, and a history
 * of records, appended to in place. Also the ledger invariant that the
 * controller keeps: money is neither created nor lost and no balance goes below zero.
 */
module Accounts {
  import opened Records

  /** The value of an account's state at one moment. */
  datatype Ledger = Ledger(balance: int, history: seq<Record>)

  const InitialBalance := 0

  class Account {
    var balance: int
    var history: seq<Record>

    /** A new account: balance 0 and no history. */
    constructor ()
      ensures balance == InitialBalance && history == []
    {
      balance := InitialBalance;
      history := [];
    }

    function State(): Ledger
      reads this
    {
      Ledger(balance, history)
    }

    /** Reads the balance and changes nothing. */
    method GetBalance() returns (b: int)
      ensures b == balance
    {
      b := balance;
    }

    /** Replaces the balance; the history is untouched. */
    method SetBalance(value: int)
      modifies this`balance
      ensures balance == value && history == old(history)
    {
      balance := value;
    }

    /**
     * A copy of the history. Sequences are values, so what the caller does with the
     * copy cannot reach the account.
     */
    method GetHistory() returns (h: seq<Record>)
      ensures h == history
    {
      h := history;
    }

    /** Despite its name, appends one record at the end; earlier records keep their places. */
    method SetHistory(r: Record)
      modifies this`history
      ensures history == old(history) + [r] && balance == old(balance)
    {
      history := history + [r];
    }
  }

  /** What a command adds to the balance: +amount, -amount or nothing. */
  function SignedAmount(c: Command): int
  {
    match c
    case Deposit(amount, _) => amount
    case Withdraw(amount, _) => -amount
    case _ => 0
  }

  /** The net amount deposited by the records of a history: deposits minus withdrawals. */
  function Net(history: seq<Record>): int
  {
    if history == [] then 0
    else Net(history[..|history| - 1]) + SignedAmount(history[|history| - 1].command)
  }

  /**
   * The i-th entry of a history is a transaction of a positive amount whose stored
   * balance is positive and is the net of the history up to and including it.
   */
  predicate EntrySound(history: seq<Record>, i: int)
    requires 0 <= i < |history|
  {
    var r := history[i];
    && r.ContainsTransaction()
    && r.command.amount > 0
    && r.balance > 0
    && r.balance == Net(history[..i + 1])
  }

  /**
   * The ledger invariant: the balance is never negative and equals the net of the
   * history (no money created or lost), and every entry is a sound transaction.
   */
  predicate Sound(l: Ledger)
  {
    && l.balance >= 0
    && l.balance == Net(l.history)
    && forall i | 0 <= i < |l.history| :: EntrySound(l.history, i)
  }

  lemma InitialLedgerSound()
    ensures Sound(Ledger(InitialBalance, []))
  {
  }

  /**
   * Appending a transaction of a positive amount, stamped with the balance it leads
   * to, keeps a sound ledger sound provided that balance is positive.
   */
  lemma AppendKeepsSound(l: Ledger, r: Record)
    requires Sound(l)
    requires r.ContainsTransaction() && r.command.amount > 0
    requires r.balance == l.balance + SignedAmount(r.command) && r.balance > 0
    ensures Sound(Ledger(r.balance, l.history + [r]))
  {
    var h := l.history + [r];
    assert h[..|h| - 1] == l.history;
    forall i | 0 <= i < |h| ensures EntrySound(h, i) {
      if i < |l.history| {
        assert h[..i + 1] == l.history[..i + 1];
        assert EntrySound(l.history, i);
      } else {
        assert h[..i + 1] == h;
      }
    }
  }

  /** In a sound ledger with no transaction on record the history is empty and the balance 0. */
  lemma NoTransactionsMeansZero(l: Ledger)
    requires Sound(l)
    ensures (forall i | 0 <= i < |l.history| :: !l.history[i].ContainsTransaction())
      ==> l.history == [] && l.balance == 0
  {
    if l.history != [] {
      assert EntrySound(l.history, 0);
    }
  }
}
