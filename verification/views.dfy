/**
 * The account statement: the history projected onto three text columns (date,
 * amount, balance), each column right-padded with spaces to its widest entry so
 * that the table lines up. Console output is not modelled: the lines the
 * statement would print are returned instead.
 */
module Views {
  import opened Wrappers
  import opened Decimals
  import opened Records
  import opened Accounts

  /** One row of the statement: the entries of the three columns at one index. */
  datatype Row = Row(date: string, amount: string, balance: string)

  const Header := Row("Date", "Amount", "Balance")

  /** The only row under the header when the history holds no transaction. */
  const NoTransactions := Row("No transactions yet", "NIL", "0.00")

  // ---------------------------------------------------------------------------
  // The rows of a statement

  /** The amount entry of a transaction: a deposit as rendered, a withdrawal with '-' in front. */
  function AmountCell(r: Record): string
    requires r.ContainsTransaction()
  {
    var amount := r.GetAmount().value;
    if r.GetAction() == "DEPOSIT" then amount
    else if r.GetAction() == "WITHDRAW" then "-" + amount
    else "NIL"
  }

  /** The statement row of a transaction record; dateText stands for the date formatter. */
  function RowOf(r: Record, dateText: Timestamp -> string): Row
    requires r.ContainsTransaction()
  {
    Row(dateText(r.GetDateTime().value), AmountCell(r), r.GetBalance().value)
  }

  /** The records of history that are transactions, in history order; the rest are skipped. */
  function Transactions(history: seq<Record>): (t: seq<Record>)
    ensures |t| <= |history|
    ensures forall i | 0 <= i < |t| :: t[i].ContainsTransaction()
  {
    if history == [] then []
    else
      var r := history[|history| - 1];
      Transactions(history[..|history| - 1]) + (if r.ContainsTransaction() then [r] else [])
  }

  /** One row per transaction, at the same index. */
  function RowsOf(t: seq<Record>, dateText: Timestamp -> string): (rows: seq<Row>)
    requires forall i | 0 <= i < |t| :: t[i].ContainsTransaction()
    ensures |rows| == |t|
  {
    seq(|t|, i requires 0 <= i < |t| => RowOf(t[i], dateText))
  }

  /** The whole statement: the header, then the transaction rows or, if there are none, the placeholder. */
  function Statement(history: seq<Record>, dateText: Timestamp -> string): (rows: seq<Row>)
    ensures |rows| >= 2 && rows[0] == Header
  {
    var t := Transactions(history);
    [Header] + (if t == [] then [NoTransactions] else RowsOf(t, dateText))
  }

  function Dates(rows: seq<Row>): seq<string>
  {
    seq(|rows|, i requires 0 <= i < |rows| => rows[i].date)
  }

  function Amounts(rows: seq<Row>): seq<string>
  {
    seq(|rows|, i requires 0 <= i < |rows| => rows[i].amount)
  }

  function Balances(rows: seq<Row>): seq<string>
  {
    seq(|rows|, i requires 0 <= i < |rows| => rows[i].balance)
  }

  /** The amount entry of a transaction of a positive amount is its signed amount, rendered. */
  lemma AmountIsSigned(r: Record, dateText: Timestamp -> string)
    requires r.ContainsTransaction() && r.command.amount > 0
    ensures RowOf(r, dateText).amount == FormatCents(SignedAmount(r.command))
  {
    if r.command.Withdraw? {
      FormatCentsNegated(r.command.amount);
    }
  }

  /** The amount entry of a transaction of a positive amount reads back as its signed amount. */
  lemma AmountReadsBack(r: Record, dateText: Timestamp -> string)
    requires r.ContainsTransaction() && r.command.amount > 0
    ensures ParseDecimal(RowOf(r, dateText).amount) == Some(FromCents(SignedAmount(r.command)))
    ensures r.command.Withdraw? <==> RowOf(r, dateText).amount[0] == '-'
  {
    AmountIsSigned(r, dateText);
    FormatCentsRoundTrip(SignedAmount(r.command));
  }

  /** The date entry is the formatted creation time and the balance entry the rendered balance. */
  lemma DateAndBalanceShown(r: Record, dateText: Timestamp -> string)
    requires r.ContainsTransaction()
    ensures RowOf(r, dateText).date == dateText(r.command.datetime)
    ensures RowOf(r, dateText).balance == FormatCents(r.balance)
  {
  }

  /** The balance entry reads back as the balance after the transaction. */
  lemma BalanceReadsBack(r: Record, dateText: Timestamp -> string)
    requires r.ContainsTransaction()
    ensures ParseDecimal(RowOf(r, dateText).balance) == Some(FromCents(r.balance))
  {
    DateAndBalanceShown(r, dateText);
    FormatCentsRoundTrip(r.balance);
  }

  /** The transactions of two histories one after the other are those of each, one after the other. */
  lemma {:induction false} TransactionsAppend(a: seq<Record>, b: seq<Record>)
    ensures Transactions(a + b) == Transactions(a) + Transactions(b)
    decreases |b|
  {
    if b == [] {
      assert a + b == a;
    } else {
      var c := b[..|b| - 1];
      assert (a + b)[..|a + b| - 1] == a + c;
      assert (a + b)[|a + b| - 1] == b[|b| - 1];
      TransactionsAppend(a, c);
    }
  }

  /** The statement falls back to the placeholder row exactly when no record is a transaction. */
  lemma {:induction false} NoRowsIffNoTransactions(history: seq<Record>)
    ensures Transactions(history) == []
      <==> forall i | 0 <= i < |history| :: !history[i].ContainsTransaction()
  {
    if history != [] {
      var front := history[..|history| - 1];
      NoRowsIffNoTransactions(front);
      assert forall i | 0 <= i < |front| :: front[i] == history[i];
    }
  }

  /** A history made only of transactions keeps every record, so it gets one row per record. */
  lemma {:induction false} AllTransactionsKept(history: seq<Record>)
    requires forall i | 0 <= i < |history| :: history[i].ContainsTransaction()
    ensures Transactions(history) == history
  {
    if history != [] {
      var front := history[..|history| - 1];
      assert forall i | 0 <= i < |front| :: front[i] == history[i];
      AllTransactionsKept(front);
      assert front + [history[|history| - 1]] == history;
    }
  }

  /** The placeholder's balance entry is a zero balance, rendered. */
  lemma PlaceholderBalanceIsZero()
    ensures NoTransactions.balance == FormatCents(0)
  {
    assert NatToDigits(0) == "0";
    assert DigitChar(0) == '0';
  }

  /**
   * The statement of a sound ledger: every record of the history is a transaction
   * and so has its row, one per record under the header (or the placeholder when the
   * history is empty), and the last balance entry is the account balance, rendered.
   */
  lemma StatementOfSoundLedger(l: Ledger, dateText: Timestamp -> string)
    requires Sound(l)
    ensures Transactions(l.history) == l.history
    ensures var rows := Statement(l.history, dateText);
      && |rows| == 1 + (if l.history == [] then 1 else |l.history|)
      && rows[|rows| - 1].balance == FormatCents(l.balance)
  {
    SoundEntriesAreTransactions(l);
    AllTransactionsKept(l.history);
    if l.history == [] {
      PlaceholderBalanceIsZero();
    } else {
      LastRowOfSound(l, dateText);
    }
  }

  lemma SoundEntriesAreTransactions(l: Ledger)
    requires Sound(l)
    ensures forall i | 0 <= i < |l.history| :: l.history[i].ContainsTransaction()
  {
    forall i | 0 <= i < |l.history| ensures l.history[i].ContainsTransaction() {
      assert EntrySound(l.history, i);
    }
  }

  /** In a non-empty sound ledger the last row belongs to the last record and shows the balance. */
  lemma LastRowOfSound(l: Ledger, dateText: Timestamp -> string)
    requires Sound(l) && l.history != [] && Transactions(l.history) == l.history
    ensures var rows := Statement(l.history, dateText);
      |rows| == 1 + |l.history| && rows[|rows| - 1].balance == FormatCents(l.balance)
  {
    var h := l.history;
    var n := |h| - 1;
    assert EntrySound(h, n);
    assert h[..n + 1] == h;
    var rows := Statement(h, dateText);
    assert rows[|rows| - 1] == RowOf(h[n], dateText);
    DateAndBalanceShown(h[n], dateText);
  }

  /** The last balance entry of a sound ledger's statement reads back as the account balance. */
  lemma StatementEndsWithBalance(l: Ledger, dateText: Timestamp -> string)
    requires Sound(l)
    ensures var rows := Statement(l.history, dateText);
      ParseDecimal(rows[|rows| - 1].balance) == Some(FromCents(l.balance))
  {
    StatementOfSoundLedger(l, dateText);
    FormatCentsRoundTrip(l.balance);
  }

  /** Taking one more record of the history adds it to the transactions if it is one. */
  lemma TransactionsStep(history: seq<Record>, k: int)
    requires 0 <= k < |history|
    ensures Transactions(history[..k + 1])
      == Transactions(history[..k]) + (if history[k].ContainsTransaction() then [history[k]] else [])
  {
    assert history[..k + 1][..k] == history[..k];
  }

  /** Taking one more record of the history adds its row if it is a transaction. */
  lemma RowsStep(history: seq<Record>, k: int, dateText: Timestamp -> string)
    requires 0 <= k < |history|
    ensures RowsOf(Transactions(history[..k + 1]), dateText)
      == RowsOf(Transactions(history[..k]), dateText)
         + (if history[k].ContainsTransaction() then [RowOf(history[k], dateText)] else [])
  {
    TransactionsStep(history, k);
    var t := Transactions(history[..k]);
    if history[k].ContainsTransaction() {
      RowsOfAppend(t, history[k], dateText);
    } else {
      assert t + [] == t;
    }
  }

  lemma RowsOfAppend(t: seq<Record>, r: Record, dateText: Timestamp -> string)
    requires forall i | 0 <= i < |t| :: t[i].ContainsTransaction()
    requires r.ContainsTransaction()
    ensures RowsOf(t + [r], dateText) == RowsOf(t, dateText) + [RowOf(r, dateText)]
  {
  }

  /**
   * Three columns holding the header and then the rows of the transactions of
   * history, or the placeholder when there are none, hold the rows of its statement.
   */
  lemma ColumnsOfStatement(history: seq<Record>, dateText: Timestamp -> string,
                           dates: seq<string>, amounts: seq<string>, balances: seq<string>)
    requires var rows := RowsOf(Transactions(history), dateText);
      && |dates| == |amounts| == |balances| == 1 + (if rows == [] then 1 else |rows|)
      && Row(dates[0], amounts[0], balances[0]) == Header
      && (rows == [] ==> Row(dates[1], amounts[1], balances[1]) == NoTransactions)
      && (forall i | 1 <= i < |dates| && rows != [] :: Row(dates[i], amounts[i], balances[i]) == rows[i - 1])
    ensures var rows := Statement(history, dateText);
      && |dates| == |amounts| == |balances| == |rows|
      && forall i | 0 <= i < |rows| :: Row(dates[i], amounts[i], balances[i]) == rows[i]
  {
  }

  /** Three columns whose entries at each index form the row there are the columns of those rows. */
  lemma ColumnsOfRows(rows: seq<Row>, dates: seq<string>, amounts: seq<string>, balances: seq<string>)
    requires |dates| == |amounts| == |balances| == |rows|
    requires forall i | 0 <= i < |rows| :: Row(dates[i], amounts[i], balances[i]) == rows[i]
    ensures dates == Dates(rows) && amounts == Amounts(rows) && balances == Balances(rows)
  {
  }

  /** The date, amount and balance entries the loop of extractRecords adds for a transaction. */
  method EntriesOf(record: Record, dateText: Timestamp -> string)
    returns (date: string, amount: string, balance: string)
    requires record.ContainsTransaction()
    ensures Row(date, amount, balance) == RowOf(record, dateText)
  {
    date := dateText(record.GetDateTime().value);
    balance := record.GetBalance().value;
    if record.GetAction() == "DEPOSIT" {
      amount := record.GetAmount().value;
    } else if record.GetAction() == "WITHDRAW" {
      amount := "-" + record.GetAmount().value;
    } else {
      amount := "NIL";
    }
  }

  /**
   * The loop of View.extractRecords: the header, then for each record of the history
   * that is a transaction its date, signed amount and balance, in history order.
   */
  method CollectEntries(history: seq<Record>, dateText: Timestamp -> string)
    returns (dates: seq<string>, amounts: seq<string>, balances: seq<string>)
    ensures var rows := RowsOf(Transactions(history), dateText);
      && |dates| == |amounts| == |balances| == 1 + |rows|
      && Row(dates[0], amounts[0], balances[0]) == Header
      && forall i | 1 <= i < |dates| :: Row(dates[i], amounts[i], balances[i]) == rows[i - 1]
  {
    dates := ["Date"];
    amounts := ["Amount"];
    balances := ["Balance"];
    ghost var rows: seq<Row> := [];
    var k := 0;
    while k < |history|
      invariant 0 <= k <= |history|
      invariant rows == RowsOf(Transactions(history[..k]), dateText)
      invariant |dates| == |amounts| == |balances| == 1 + |rows|
      invariant Row(dates[0], amounts[0], balances[0]) == Header
      invariant forall i | 1 <= i < |dates| :: Row(dates[i], amounts[i], balances[i]) == rows[i - 1]
    {
      var record := history[k];
      RowsStep(history, k, dateText);
      if record.ContainsTransaction() {
        var date, amount, balance := EntriesOf(record, dateText);
        dates := dates + [date];
        amounts := amounts + [amount];
        balances := balances + [balance];
        rows := rows + [RowOf(record, dateText)];
      }
      k := k + 1;
    }
    assert history[..k] == history;
  }

  /**
   * View.extractRecords: the entries the loop collects, then the placeholder row if
   * nothing was added. The three columns are the columns of the statement.
   */
  method ExtractRecords(account: Account, dateText: Timestamp -> string)
    returns (dates: seq<string>, amounts: seq<string>, balances: seq<string>)
    ensures var rows := Statement(account.history, dateText);
      dates == Dates(rows) && amounts == Amounts(rows) && balances == Balances(rows)
  {
    var history := account.GetHistory();
    dates, amounts, balances := CollectEntries(history, dateText);
    if |dates| == 1 {
      dates := dates + ["No transactions yet"];
      amounts := amounts + ["NIL"];
      balances := balances + ["0.00"];
    }
    ColumnsOfStatement(history, dateText, dates, amounts, balances);
    ColumnsOfRows(Statement(history, dateText), dates, amounts, balances);
  }

  // ---------------------------------------------------------------------------
  // Padding the columns

  function Spaces(n: nat): (s: string)
    ensures |s| == n && forall j | 0 <= j < n :: s[j] == ' '
  {
    seq(n, _ => ' ')
  }

  /**
   * String.format("%1$-" + length + "s", s): s followed by spaces up to length, and
   * s itself when it is already that long. A width of 0 makes the format throw.
   */
  function RightPadToLength(s: string, length: int): (r: string)
    requires length > 0
    ensures |s| >= length ==> r == s
    ensures |r| == if |s| >= length then |s| else length
  {
    if |s| >= length then s else s + Spaces(length - |s|)
  }

  /** The length of the longest entry of a column, 0 for an empty column. */
  function MaxLength(col: seq<string>): (m: nat)
    ensures forall j | 0 <= j < |col| :: |col[j]| <= m
    ensures col == [] ==> m == 0
  {
    if col == [] then 0
    else
      var m := MaxLength(col[..|col| - 1]);
      var last := |col[|col| - 1]|;
      if last > m then last else m
  }

  /** Some entry of a non-empty column is as long as the longest. */
  lemma {:induction false} MaxLengthAttained(col: seq<string>)
    requires col != []
    ensures exists j | 0 <= j < |col| :: |col[j]| == MaxLength(col)
  {
    var front := col[..|col| - 1];
    if front != [] && MaxLength(front) >= |col[|col| - 1]| {
      MaxLengthAttained(front);
      var j :| 0 <= j < |front| && |front[j]| == MaxLength(front);
      assert col[j] == front[j];
    } else {
      assert |col[|col| - 1]| == MaxLength(col);
    }
  }

  /**
   * Padding an entry to its column's width gives exactly that width: the entry
   * itself, then nothing but spaces.
   */
  lemma PaddedEntry(col: seq<string>, j: int)
    requires 0 <= j < |col| && MaxLength(col) > 0
    ensures var padded := RightPadToLength(col[j], MaxLength(col));
      && |padded| == MaxLength(col)
      && padded[..|col[j]|] == col[j]
      && forall k | |col[j]| <= k < |padded| :: padded[k] == ' '
  {
  }

  /**
   * View.formatRecords: each of the first dates.Length entries of every column is
   * right-padded, in place, to the length of the longest entry of its column.
   */
  method FormatRecords(dates: array<string>, amounts: array<string>, balances: array<string>)
    requires amounts.Length >= dates.Length && balances.Length >= dates.Length
    requires dates.Length > 0 ==>
      MaxLength(dates[..]) > 0 && MaxLength(amounts[..]) > 0 && MaxLength(balances[..]) > 0
    requires dates != amounts && dates != balances && amounts != balances
    modifies dates, amounts, balances
    ensures forall j | 0 <= j < dates.Length ::
      && dates[j] == RightPadToLength(old(dates[j]), MaxLength(old(dates[..])))
      && amounts[j] == RightPadToLength(old(amounts[j]), MaxLength(old(amounts[..])))
      && balances[j] == RightPadToLength(old(balances[j]), MaxLength(old(balances[..])))
    ensures forall j | dates.Length <= j < amounts.Length :: amounts[j] == old(amounts[j])
    ensures forall j | dates.Length <= j < balances.Length :: balances[j] == old(balances[j])
  {
    var longestDateLength := MaxLength(dates[..]);
    var longestAmountLength := MaxLength(amounts[..]);
    var longestBalanceLength := MaxLength(balances[..]);
    ghost var d, a, b := dates[..], amounts[..], balances[..];
    for i := 0 to dates.Length
      invariant forall j | 0 <= j < i :: dates[j] == RightPadToLength(d[j], longestDateLength)
      invariant forall j | 0 <= j < i :: amounts[j] == RightPadToLength(a[j], longestAmountLength)
      invariant forall j | 0 <= j < i :: balances[j] == RightPadToLength(b[j], longestBalanceLength)
      invariant forall j | i <= j < dates.Length :: dates[j] == d[j]
      invariant forall j | i <= j < amounts.Length :: amounts[j] == a[j]
      invariant forall j | i <= j < balances.Length :: balances[j] == b[j]
    {
      dates[i] := RightPadToLength(dates[i], longestDateLength);
      amounts[i] := RightPadToLength(amounts[i], longestAmountLength);
      balances[i] := RightPadToLength(balances[i], longestBalanceLength);
    }
  }

  // ---------------------------------------------------------------------------
  // The printed table

  /** The line printed for row i: the three padded entries separated by " | ". */
  function Line(rows: seq<Row>, i: int): string
    requires 0 <= i < |rows|
    requires MaxLength(Dates(rows)) > 0 && MaxLength(Amounts(rows)) > 0 && MaxLength(Balances(rows)) > 0
  {
    RightPadToLength(rows[i].date, MaxLength(Dates(rows))) + " | "
      + RightPadToLength(rows[i].amount, MaxLength(Amounts(rows))) + " | "
      + RightPadToLength(rows[i].balance, MaxLength(Balances(rows)))
  }

  /** The header's entries are not empty, so no column of a statement is zero wide. */
  lemma StatementColumnsNotEmpty(history: seq<Record>, dateText: Timestamp -> string)
    ensures var rows := Statement(history, dateText);
      MaxLength(Dates(rows)) >= 4 && MaxLength(Amounts(rows)) >= 6 && MaxLength(Balances(rows)) >= 7
  {
    var rows := Statement(history, dateText);
    assert Dates(rows)[0] == "Date";
    assert Amounts(rows)[0] == "Amount";
    assert Balances(rows)[0] == "Balance";
  }

  /**
   * The table lines up: every line has the same length, starts with its date entry,
   * and has its two separators at the same columns as every other line.
   */
  lemma LinesLineUp(rows: seq<Row>, i: int)
    requires 0 <= i < |rows|
    requires MaxLength(Dates(rows)) > 0 && MaxLength(Amounts(rows)) > 0 && MaxLength(Balances(rows)) > 0
    ensures var wd, wa, wb := MaxLength(Dates(rows)), MaxLength(Amounts(rows)), MaxLength(Balances(rows));
      var line := Line(rows, i);
      && |line| == wd + wa + wb + 6
      && line[..|rows[i].date|] == rows[i].date
      && line[wd..wd + 3] == " | "
      && line[wd + 3 + wa..wd + wa + 6] == " | "
  {
    var wd, wa, wb := MaxLength(Dates(rows)), MaxLength(Amounts(rows)), MaxLength(Balances(rows));
    assert Dates(rows)[i] == rows[i].date;
    assert Amounts(rows)[i] == rows[i].amount;
    assert Balances(rows)[i] == rows[i].balance;
    var d := RightPadToLength(rows[i].date, wd);
    var a := RightPadToLength(rows[i].amount, wa);
    var b := RightPadToLength(rows[i].balance, wb);
    assert |d| == wd && |a| == wa && |b| == wb;
    var line := d + " | " + a + " | " + b;
    assert line == Line(rows, i);
    assert line[..|rows[i].date|] == d[..|rows[i].date|];
    assert line[wd..wd + 3] == " | ";
    assert line[wd + 3 + wa..wd + wa + 6] == " | ";
  }

  /**
   * View.printRecords without the console: the line of each index, its three entries
   * joined by " | ", as many lines as there are dates.
   */
  method PrintRecords(dates: seq<string>, amounts: seq<string>, balances: seq<string>)
    returns (lines: seq<string>)
    requires |amounts| >= |dates| && |balances| >= |dates|
    ensures |lines| == |dates|
    ensures forall j | 0 <= j < |dates| :: lines[j] == dates[j] + " | " + amounts[j] + " | " + balances[j]
  {
    lines := [];
    for i := 0 to |dates|
      invariant |lines| == i
      invariant forall j | 0 <= j < i :: lines[j] == dates[j] + " | " + amounts[j] + " | " + balances[j]
    {
      lines := lines + [dates[i] + " | " + amounts[i] + " | " + balances[i]];
    }
  }

  /** Columns padded to their widths, joined entry by entry with " | ", give the lines of the rows. */
  lemma PaddedColumnsMakeLines(rows: seq<Row>, d: seq<string>, a: seq<string>, b: seq<string>,
                                pd: seq<string>, pa: seq<string>, pb: seq<string>)
    requires d == Dates(rows) && a == Amounts(rows) && b == Balances(rows)
    requires MaxLength(d) > 0 && MaxLength(a) > 0 && MaxLength(b) > 0
    requires |pd| == |pa| == |pb| == |rows|
    requires forall j | 0 <= j < |rows| ::
      && pd[j] == RightPadToLength(d[j], MaxLength(d))
      && pa[j] == RightPadToLength(a[j], MaxLength(a))
      && pb[j] == RightPadToLength(b[j], MaxLength(b))
    ensures forall j | 0 <= j < |rows| :: pd[j] + " | " + pa[j] + " | " + pb[j] == Line(rows, j)
  {
    forall j | 0 <= j < |rows| ensures pd[j] + " | " + pa[j] + " | " + pb[j] == Line(rows, j) {
      assert d[j] == rows[j].date;
      assert a[j] == rows[j].amount;
      assert b[j] == rows[j].balance;
    }
  }

  /**
   * The part of View.printStatement after the extraction: copy the columns of rows
   * into arrays, pad them in place, and return the line of each row.
   */
  method PadAndPrint(ghost rows: seq<Row>, d: seq<string>, a: seq<string>, b: seq<string>)
    returns (lines: seq<string>)
    requires d == Dates(rows) && a == Amounts(rows) && b == Balances(rows)
    requires MaxLength(d) > 0 && MaxLength(a) > 0 && MaxLength(b) > 0
    ensures |lines| == |rows|
    ensures forall i | 0 <= i < |lines| :: lines[i] == Line(rows, i)
  {
    var dates := new string[|d|](i requires 0 <= i < |d| => d[i]);
    var amounts := new string[|a|](i requires 0 <= i < |a| => a[i]);
    var balances := new string[|b|](i requires 0 <= i < |b| => b[i]);
    assert dates[..] == d && amounts[..] == a && balances[..] == b;
    FormatRecords(dates, amounts, balances);
    var pd, pa, pb := dates[..], amounts[..], balances[..];
    PaddedColumnsMakeLines(rows, d, a, b, pd, pa, pb);
    lines := PrintRecords(pd, pa, pb);
  }

  /**
   * View.printStatement without the console: extract the columns, pad them, and
   * return the lines printRecords would print, one per statement row.
   */
  method PrintStatement(account: Account, dateText: Timestamp -> string) returns (lines: seq<string>)
    ensures var rows := Statement(account.history, dateText);
      && MaxLength(Dates(rows)) > 0 && MaxLength(Amounts(rows)) > 0 && MaxLength(Balances(rows)) > 0
      && |lines| == |rows|
      && forall i | 0 <= i < |lines| :: lines[i] == Line(rows, i)
  {
    StatementColumnsNotEmpty(account.history, dateText);
    var d, a, b := ExtractRecords(account, dateText);
    lines := PadAndPrint(Statement(account.history, dateText), d, a, b);
  }
}
