# Single-account ledger, modelled in Dafny

A model of a console banking program. It keeps one account: a balance and a history of
records. A user types one-letter commands at a menu:

- **D** deposits an amount.
- **W** withdraws an amount.
- **P** prints a statement.
- **Q** quits.

Letters are accepted in either case. The controller checks each amount before it builds
a transaction:

- It must read as a decimal number.
- It must be strictly above zero.
- It must have at most two decimals.
- A withdrawal must also be strictly below the balance.

Every rejection becomes a no-op record plus a warning. The statement is a three-column
table (date, amount, balance). Each column is right-padded to its widest entry so that
the columns line up.

The modules follow the program's packages:

| module | file | models |
|---|---|---|
| `Decimals` | `decimals.dfy` | The parts of `BigDecimal` the controller uses: parsing a plain numeral into an unscaled value and a scale; `compareTo` by value; `multiply(100)`; `toBigInteger` (truncation toward zero). Also `DecimalFormat("#0.00")` applied to whole cents. |
| `Records` | `records.dfy` | The command family (Deposit, Withdraw, Noop, Quit) and the read-only `Record`. |
| `Accounts` | `accounts.dfy` | The `Account` class, whose balance and history are updated in place. It also holds the ledger invariant `Sound`: the balance is never negative, it equals deposits minus withdrawals, and every record is a positive transaction. |
| `Commands` | `commands.dfy` | `execute` of each command, against the account. |
| `Controllers` | `controllers.dfy` | `executeInput` and its helpers. `Transition` is the pure function that specifies them. `Run` folds `Transition` over a session. |
| `Views` | `views.dfy` | How the statement is built: extracting the columns, padding them in place, and the lines printed. |
| `Scenarios` | `scenarios.dfy` | The controller and account test cases, replayed on the model. |

### Money

The program parses amounts as `BigDecimal`. The model keeps a parsed amount as
`Decimal(unscaled, scale)`, whose value is `unscaled / 10^scale`. Once an amount passes
`monetaryValueIsValid`, it is a whole number of cents. The lemma
`Controllers.HasTwoDecimalMeansWholeCents` proves this, and from there on balances and
amounts are unbounded integers counting cents. This is exact. `BigDecimal` never
rounds on these paths, and the controller test with values around 10^17 replays
exactly (`Scenarios.LargeValues`).

### Warnings

The controller's warning, statement and goodbye calls on the View are returned as a `Signal` value:

- `warnInvalidCommand`
- `warnInvalidValue`
- `printStatement`
- `printGoodbyeMessage`

### Inputs

The amount line that `Scanner.nextLine` would read is the parameter `amountText`. The
clock reading that `new Date()` takes is the parameter `at`. The date formatter of the
statement is the function parameter `dateText`.

### Code versus comments

Where a comment in the code and the code itself disagree, the model follows the code:

- The `Record` constructor's comment says non-transaction records carry a balance of
  -1. `Noop.execute` and `Quit.execute` in fact store the current balance, and so does
  the model.
- The comment on `monetaryValueIsValid` says "non-negative". The code demands strictly
  positive values (`compareTo(ZERO) > 0`), and so does the model.
- `setHistory` appends a record; it does not replace the history.

## Model

| member | source | states |
|---|---|---|
| Decimals.TruncDiv | main/controllers/Controller.java:191 | The quotient truncates toward zero. For a ≥ 0 the remainder lies in [0, b). For a < 0 it lies in (−b, 0]. |
| Decimals.TruncDivExact | main/controllers/Controller.java:191-192 | Truncating division is exact exactly when b divides a. |
| Decimals.CompareToMeansValueOrder | main/controllers/Controller.java:184 | compareTo follows the numeric order of the two values. It is negative, zero or positive exactly when the first value is below, equal to or above the second, whatever their scales. |
| Decimals.CompareToIgnoresScale | main/controllers/Controller.java:192 | compareTo compares values, not scales. Adding trailing zeros to either side does not change the result. |
| Decimals.Times100Value | main/controllers/Controller.java:191 | multiply(BigDecimal.valueOf(100)) is worth exactly 100 times the value it multiplies. |
| Decimals.ToBigInteger | main/controllers/Controller.java:191 | toBigInteger drops the fraction toward zero. The dropped part is less than one unit and has the sign of the input. |
| Decimals.IndexOf | main/controllers/Controller.java:136 | The first occurrence of a character, or −1 exactly when it is absent. |
| Decimals.PointPosition | main/controllers/Controller.java:136 | The integer digits end at the first '.', or at the end of the text. |
| Decimals.ParseUnsigned | main/controllers/Controller.java:87 | An unsigned numeral never parses to a negative value. |
| Decimals.ParseUnsignedValue | main/controllers/Controller.java:87 | Every unsigned numeral, including ".5" and "5.", parses to its integer digits plus its fraction digits over 10 to the number of fraction digits, with that number as the scale. |
| Decimals.SignedParse | main/controllers/Controller.java:87 | A leading '+' changes nothing. A leading '-' negates the unscaled value and keeps the scale, and a body that does not parse stays unparsed. |
| Decimals.UnsignedParse | main/controllers/Controller.java:87 | Text without a sign parses as the unsigned numeral it is. |
| Decimals.ParseDecimalValue | main/controllers/Controller.java:87 | Every numeral parses to the value its digits denote, negated exactly after a leading '-', with the number of fraction digits as the scale. |
| Decimals.NumeralSplitsAtPoint | main/controllers/Controller.java:136 | A numeral can only be read one way: its integer digits end at its first '.'. |
| Decimals.ParseDecimalAcceptsNumerals | main/controllers/Controller.java:134-141 | inputIsNumeric accepts exactly the plain numerals: an optional sign, digits, then optionally a '.' followed by zero or more digits, with at least one digit in all ("5." and ".5" are accepted). |
| Decimals.DigitChar | main/commands/Record.java:63-64 | Each digit printed is a decimal digit of the intended value. |
| Decimals.NatToDigitsValue | main/commands/Record.java:63-64 | The integer digits of a rendering denote the number. Only 0 is written with a leading zero. |
| Decimals.DigitsValueAppend | main/controllers/Controller.java:87 | Joining two digit strings multiplies the first value by a power of ten and adds the second. |
| Decimals.FormatCentsShape | main/commands/Record.java:63-64 | The rendering has the "#0.00" shape: an optional '-', integer digits without leading zeros, a '.', and exactly two digits. The '-' is there exactly for a negative amount. |
| Decimals.FormatCentsNegated | main/commands/Record.java:63-64 | A negative amount renders as '-' followed by the rendering of its magnitude. |
| Decimals.FormatCentsSplits | main/commands/Record.java:63-64 | After its sign, the rendering is the whole part, a '.', and the two cent digits. |
| Decimals.CentsDigitsValue | main/commands/Record.java:63-64 | The whole-part digits followed by the two cent digits denote the amount in cents. |
| Decimals.CentsBodyValue | main/commands/Record.java:63-64 | The unsigned rendering of m cents reads back as m hundredths. |
| Decimals.FormatCentsRoundTrip | main/commands/Record.java:60-65 | "#0.00" loses nothing for whole cents. Parsing the rendering gives back exactly the amount. |
| Decimals.ParsePointed | main/controllers/Controller.java:87 | Digits, a '.' and digits parse with the fraction digits as the scale. |
| Decimals.TwoDigits | main/commands/Record.java:63-64 | The two cent digits denote the amount modulo 100. |
| Records.Command.Action | main/commands/transactions/Deposit.java:19-23 | The action tag is DEPOSIT, WITHDRAW, NOOP or QUIT exactly for the matching kind of command, as the four constructors set it (Deposit.java:21, Withdraw.java:21, Noop.java:15, Quit.java:15). |
| Records.IsTransactionIffTag | main/commands/transactions/Transaction.java:11 | A command is a Transaction exactly when its action tag is DEPOSIT or WITHDRAW. |
| Records.Record.GetAction | main/commands/Record.java:39-41 | The record's action is DEPOSIT exactly for a wrapped deposit and WITHDRAW exactly for a wrapped withdrawal. |
| Records.TransactionIffTag | main/commands/Record.java:50-52 | A record contains a transaction exactly when its action is DEPOSIT or WITHDRAW. |
| Records.Record.GetAmount | main/commands/Record.java:60-65 | The amount is present (non-null) exactly for a transaction record. |
| Records.Record.GetDateTime | main/commands/Record.java:74-78 | The date is present exactly for a transaction, and it is the transaction's creation time. |
| Records.Record.GetBalance | main/commands/Record.java:88-93 | The balance text is present exactly for a transaction record. |
| Records.RenderingIsExact | main/commands/Record.java:60-93 | Both renderings of a transaction record have the "#0.00" shape, and they read back as the amount and the balance. |
| Records.RenderingExample | main/commands/Record.java:60-65 | A deposit of 200 renders its amount as "200.00". |
| Accounts.Account.constructor | main/models/Account.java:22-25 | A new account has balance 0 and an empty history. |
| Accounts.Account.GetBalance | main/models/Account.java:31-33 | Returns the balance and changes nothing. |
| Accounts.Account.SetBalance | main/models/Account.java:39-41 | Replaces the balance. The history is untouched. |
| Accounts.Account.GetHistory | main/models/Account.java:46-48 | Returns the history as a value that the caller cannot use to change the account. |
| Accounts.Account.SetHistory | main/models/Account.java:54-56 | Appends exactly one record at the end. The balance is untouched. |
| Accounts.InitialLedgerSound | main/models/Account.java:13-25 | A new account satisfies the ledger invariant. |
| Accounts.AppendKeepsSound | main/commands/transactions/Deposit.java:33-38 | Appending a positive transaction that carries the balance it leads to keeps the invariant, provided that balance is positive. |
| Accounts.NoTransactionsMeansZero | main/views/View.java:181-185 | In a sound ledger with no transaction on record, the history is empty and the balance is 0. |
| Commands.ExecuteDeposit | main/commands/transactions/Deposit.java:33-38 | The balance grows by the amount. Exactly one record is appended: the deposit with the new balance, which is also returned. |
| Commands.ExecuteWithdraw | main/commands/transactions/Withdraw.java:33-38 | The balance shrinks by the amount, with no overdraft check. Exactly one record is appended and returned. |
| Commands.ExecuteNoop | main/commands/Noop.java:27-29 | A NOOP record, not a transaction, carrying the current balance. The account is unchanged. |
| Commands.ExecuteQuit | main/commands/Quit.java:31-34 | A QUIT record, not a transaction, carrying the current balance. The account is unchanged. |
| Commands.Execute | main/commands/Command.java:12 | Executing any command changes the account exactly as the specification `Effect` says. |
| Commands.EffectConservesMoney | main/commands/transactions/Deposit.java:33-38 | The balance moves by exactly the signed amount, and so does the net of the history. Only transactions append, and each appends exactly the record it returns. |
| Commands.EffectKeepsSound | main/commands/transactions/Withdraw.java:33-38 | A positive deposit, or a positive withdrawal below the balance, keeps a sound ledger sound. |
| Controllers.UpperAscii | main/controllers/Controller.java:176 | ASCII lower-case letters a–z map to upper case. Every other character is unchanged. |
| Controllers.SanitiseInput | main/controllers/Controller.java:175-177 | Upper-cases the token character by character, keeping its length. Each ASCII letter becomes its upper case and every other character is unchanged (see Left out). |
| Controllers.Cents | main/controllers/Controller.java:89 | A value with at most two decimals converts exactly to whole cents, and a positive value gives positive cents. |
| Controllers.HasTwoDecimalMeansWholeCents | main/controllers/Controller.java:190-193 | hasTwoDecimal holds exactly when 100 times the value is a whole number. |
| Controllers.MonetaryValueIsValidMeans | main/controllers/Controller.java:183-185 | monetaryValueIsValid holds exactly for positive values that are a whole number of cents. |
| Controllers.TrailingZerosAccepted | main/controllers/Controller.java:190-193 | "1.000" passes hasTwoDecimal and "1.005" does not. |
| Controllers.WithdrawValueInCents | main/controllers/Controller.java:198-200 | For whole cents, withdrawValueIsValid holds exactly when the cents are below the balance. |
| Controllers.DepositAmount | main/controllers/Controller.java:77-98 | A deposit amount is accepted exactly when the text is numeric and valid. The cents accepted are positive and equal in value to the text. |
| Controllers.WithdrawalAmount | main/controllers/Controller.java:108-129 | A withdrawal amount is accepted exactly when the text is numeric, valid and strictly below the balance. The cents lie in (0, balance) and equal the text in value. |
| Controllers.ExecuteInput | main/controllers/Controller.java:40-49 | The returned record, the signal and the account afterwards are exactly those of `Transition`. |
| Controllers.HandleInput | main/controllers/Controller.java:56-67 | Dispatches D, W, P and Q to their processes, and anything else to a silent no-op, as the specification `Handle` says. |
| Controllers.BeginDepositProcess | main/controllers/Controller.java:77-98 | A valid amount deposits exactly its cents and appends the record, with no warning. Otherwise it returns a no-op record, leaves the account untouched and warns of an invalid value. |
| Controllers.BeginWithdrawalProcess | main/controllers/Controller.java:108-129 | A valid amount below the balance withdraws exactly its cents. Otherwise it returns a no-op record, leaves the account untouched and warns of an invalid value. |
| Controllers.BeginPrintStatementProcess | main/controllers/Controller.java:150-153 | Asks for the statement and returns a no-op record with the current balance. |
| Controllers.BeginQuitProgramProcess | main/controllers/Controller.java:165-168 | Says goodbye and returns the QUIT record with the current balance. |
| Controllers.RecognisedTokens | main/controllers/Controller.java:25-31 | After upper-casing, exactly d/D, w/W, p/P and q/Q are valid commands, each mapping to its letter. |
| Controllers.TokenIsCaseInsensitive | main/controllers/Controller.java:41 | The lower-case and upper-case spellings of each command take the same path. |
| Controllers.UnknownTokenRejected | main/controllers/Controller.java:43-45 | Any other token gives a no-op record and the invalid-command warning, and changes nothing. |
| Controllers.NonNumericAmountRejected | main/controllers/Controller.java:81-84 | A deposit or withdrawal whose amount text is not a numeral gives a no-op record and the invalid-value warning, and changes nothing. |
| Controllers.DepositOutcome | main/controllers/Controller.java:77-98 | A deposit goes through exactly when the amount is a numeral above zero with a whole number of cents. It then adds exactly that amount and appends one DEPOSIT record. Otherwise nothing changes. |
| Controllers.WithdrawalOutcome | main/controllers/Controller.java:108-129 | As for deposits, with the amount also strictly below the balance. The balance drops by exactly that amount. |
| Controllers.DepositAccepted | main/controllers/Controller.java:86-90 | A deposit call with an accepted amount deposits exactly that amount, appends its record and gives no warning. |
| Controllers.WithdrawalAccepted | main/controllers/Controller.java:117-121 | A withdrawal call with an accepted amount withdraws exactly that amount, appends its record and gives no warning. |
| Controllers.WholeBalanceWithdrawalRejected | main/controllers/Controller.java:198-200 | Because the comparison is strict, withdrawing the whole balance as "#0.00" shows it is refused. |
| Controllers.PrintAndQuitChangeNothing | main/controllers/Controller.java:150-168 | p/P give a no-op record with the print signal; q/Q give the QUIT record with the goodbye signal. Neither changes the account. |
| Controllers.TransitionOutcome | main/controllers/Controller.java:40-67 | Either a transaction is recorded, moving the balance by its signed amount and appending exactly that record, or the account is untouched. The signal is NoWarning (no warning, statement or goodbye call) exactly when a transaction was recorded; P and Q record none but still signal the statement or the goodbye. The QUIT record comes from q/Q alone. |
| Controllers.TransitionKeepsSound | main/controllers/Controller.java:40-49 | Each call keeps the ledger invariant: no overdraft, and no money created or lost. |
| Controllers.RunKeepsSound | main/Main.java:18-22 | Any sequence of calls keeps the ledger invariant. |
| Controllers.NewAccountStaysSound | main/Main.java:14-22 | From a new account, every session leaves a sound ledger with a balance of at least 0. |
| Controllers.SessionStopsOnQuit | main/Main.java:18 | The session loop stops after a call exactly when its token was q or Q. |
| Scenarios.DepositStep | main/controllers/Controller.java:86-90 | A deposit whose text is worth a positive number of cents appends that deposit and adds the cents. |
| Scenarios.WithdrawalStep | main/controllers/Controller.java:117-121 | A withdrawal worth cents, with 0 < cents < balance, appends that withdrawal and subtracts the cents. |
| Scenarios.NotPositiveStep | main/controllers/Controller.java:183-185 | A deposit or withdrawal of a value not above zero changes nothing. |
| Scenarios.OverdraftStep | main/controllers/Controller.java:198-200 | A withdrawal not below the balance changes nothing. |
| Scenarios.UsualCase | tests/ControllerTest.java:18-41 | d 200, w 150, D 300.44 and W 200.12 leave balances of 200, 50, 350.44 and 150.32. |
| Scenarios.LargeValues | tests/ControllerTest.java:44-68 | The same sequence at 10^17 is exact and ends at 150000000000000000.32. |
| Scenarios.Overdraft | tests/ControllerTest.java:71-94 | Withdrawing 350 from 200, and 300.12 from 200.44, is refused. |
| Scenarios.NegativeValues | tests/ControllerTest.java:97-120 | -150 and -0.44 are refused. 100.12 then leaves 99.88. |
| Scenarios.DepositThenWithdraw | tests/AccountTest.java:28-29 | d 200 then w 150 leave exactly two records and 50.00. |
| Scenarios.DepositThenWithdrawAgain | tests/AccountTest.java:31-32 | From 50.00, D 300.44 then W 200.12 append exactly those two records. |
| Scenarios.OnlyTransactionsRecorded | tests/AccountTest.java:16-39 | Statement requests add nothing. The history holds exactly the four transactions. |
| Views.Transactions | main/views/View.java:163-164 | The records kept for the statement are all transactions, and there are no more of them than records. |
| Views.RowsOf | main/views/View.java:163-179 | One row per transaction. |
| Views.Statement | main/views/View.java:154-186 | The statement starts with the header and has at least one row under it. |
| Views.AmountIsSigned | main/views/View.java:171-177 | The amount entry is the rendering of the signed amount: a deposit as is, a withdrawal with '-' in front. |
| Views.AmountReadsBack | main/views/View.java:171-177 | The amount entry reads back as the signed amount. It starts with '-' exactly for a withdrawal. |
| Views.DateAndBalanceShown | main/views/View.java:166-169 | The date entry is the formatted creation time, and the balance entry is the rendered balance after the transaction. |
| Views.BalanceReadsBack | main/views/View.java:169 | The balance entry reads back as the balance after the transaction. |
| Views.TransactionsAppend | main/views/View.java:163-164 | Filtering is compositional: the transactions of a + b are those of a followed by those of b. |
| Views.NoRowsIffNoTransactions | main/views/View.java:181-185 | The placeholder row appears exactly when no record is a transaction. |
| Views.AllTransactionsKept | main/views/View.java:163-164 | A history made only of transactions keeps every record, in order. |
| Views.PlaceholderBalanceIsZero | main/views/View.java:184 | The placeholder's "0.00" is the rendering of a zero balance. |
| Views.StatementOfSoundLedger | main/views/View.java:154-186 | For a sound ledger, every record gets a row (or the placeholder appears when there are none), and the last balance entry is the account balance. |
| Views.StatementEndsWithBalance | main/views/View.java:169 | The last balance entry of a sound ledger's statement reads back as the account balance. |
| Views.EntriesOf | main/views/View.java:166-177 | The date, amount and balance a transaction adds are exactly the cells of its statement row: the amount as rendered for DEPOSIT, with '-' in front for WITHDRAW. |
| Views.CollectEntries | main/views/View.java:159-179 | After the header, the columns hold one entry per transaction of the history, in history order, and each index forms that transaction's row. |
| Views.ExtractRecords | main/views/View.java:154-186 | The three columns are exactly the columns of `Statement`: the header, the rows of the transactions in history order, then the placeholder if none was added. |
| Views.Spaces | main/views/View.java:244 | n space characters. |
| Views.RightPadToLength | main/views/View.java:243-245 | A text at least as long as the width is unchanged. A shorter one is padded to exactly the width. |
| Views.MaxLength | main/views/View.java:202-204 | No entry is longer than the result. An empty column gives 0. |
| Views.MaxLengthAttained | main/views/View.java:202-204 | Some entry of a non-empty column has exactly the maximum length. |
| Views.PaddedEntry | main/views/View.java:206-210 | A padded entry is exactly as wide as its column: the entry, then nothing but spaces. |
| Views.FormatRecords | main/views/View.java:198-211 | Each of the first dates.size() entries of every column is replaced in place by its padding to the column's maximum. Entries beyond that index are untouched. |
| Views.StatementColumnsNotEmpty | main/views/View.java:159-161 | Because of the header, the columns are at least 4, 6 and 7 wide. |
| Views.LinesLineUp | main/views/View.java:228-231 | Every line has the same length and starts with its date, and the two " \| " separators sit at the same columns on every line. |
| Views.PrintRecords | main/views/View.java:223-234 | One line per date entry: the three entries at that index joined by " \| ". |
| Views.PaddedColumnsMakeLines | main/views/View.java:206-210 | Entries padded to their column widths and joined by " \| " give exactly the table line of each row. |
| Views.PadAndPrint | main/views/View.java:98-99 | Padding the extracted columns in place and then printing them gives exactly the table line of each row. |
| Views.PrintStatement | main/views/View.java:92-100 | Returns one line per statement row: the padded date, amount and balance, joined by " \| ". |

## Left out

- Console I/O is not modelled: `Scanner`, `System.out`, the menu (`displayMenu`) and the
  wording of the prompts and warnings. The controller returns a `Signal` instead of
  calling the View.
- The amount prompt `queryAmountDesired`, which the controller calls on every D and W
  before it reads the amount, is not recorded in the `Signal`. Only the warning,
  statement and goodbye calls are.
- The amount line is a parameter (`amountText`). `ExecuteInput` accepts one even for P, Q
  and invalid tokens, where the program reads no line. It is unused in those cases.
- `new Date()` and `SimpleDateFormat` are not modelled. The creation time is a parameter
  and the date formatter is the function parameter `dateText`.
- `System.exit` in `Quit.execute` is not modelled. `ExecuteQuit` returns the QUIT record,
  and `ContinuesAfter` models the session loop's test in `Main.java`.
- `View` as a singleton is not modelled. Neither are `printRecords`' blank lines before and
  after the table: `Views.PrintStatement` returns the table lines instead of printing them.
- The number grammar is partial. `ParseDecimal` accepts the plain numerals of
  `new BigDecimal(String)`: an optional '+' or '-', ASCII digits, then optionally a '.'
  followed by zero or more digits, with at least one digit in all. It rejects the exponent
  form ("1E3") and non-ASCII digits, which the Java parser accepts.
- `Controllers.SanitiseInput`: upper-cases ASCII letters only. Java's `toUpperCase` also
  upper-cases other letters ('é' to 'É') and can change the length ('ß' to "SS"). The
  model leaves those unchanged. Neither difference affects which tokens are commands:
  the only characters whose upper case is D, W, P or Q are d, w, p and q, so the model
  accepts exactly the tokens the program accepts.
- `Decimals.FormatCents`: assumes a locale whose decimal separator is '.' and whose
  minus sign is '-'. `new DecimalFormat("#0.00")` takes its symbols from the default
  format locale, so under a German locale, for example, the program prints "200,00". The
  placeholder "0.00" in the statement is written literally, whatever the locale.
- The `InputMismatchException` handlers are not modelled. `new BigDecimal` never throws
  that exception, and `inputIsNumeric` has already excluded every text that would throw.
- `DecimalFormat` rounding (HALF_EVEN) is not modelled. Every amount and balance the model
  formats is a whole number of cents, so nothing is rounded.
- `BigDecimal` is not used for the balance: it is kept in whole cents. The scale of the
  stored `BigDecimal` (for example 200 against 200.00) is not tracked. Only its value is,
  which is all that `compareTo` and `DecimalFormat` look at.
- `Views.RightPadToLength`: requires a width above 0. `String.format` with width 0
  throws, and statement columns are never that narrow (`Views.StatementColumnsNotEmpty`).
- `Views.FormatRecords`: requires three distinct arrays. The program always passes three
  separate lists.
- `Commands.ExecuteDeposit` and `Commands.ExecuteWithdraw`: take a command already built.
  Building it (`new Deposit(value)`) means converting the value to cents with
  `Controllers.Cents` and taking the clock reading.
