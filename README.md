# Notebook helpers for a Netezza database: a Dafny model

The repository is a set of notebook helpers around the `nzpy` driver. They open
and close a connection, run one SQL statement with console logging, optionally
return its rows, and check a "student ID" setting. This project models the three
parts of `config.py` that make decisions. It proves what each part promises.

- **Student-ID check** (`verify_student_id`, module `StudentId`, file `student_id.dfy`).
  The sentinel `"XX"` means "not configured". A string of decimal digits whose
  value lies in 1..30 is accepted. Anything else is rejected. The configuration
  fields are echoed only on acceptance. The model is a function from the ID to a
  `Report(outcome, echoed)`. It is proved that the three outcomes partition the
  inputs and that echoing happens iff the ID is accepted. An independent
  description of the accepted set is also proved equivalent: a canonical numeral
  from 1 to 30 with any number of leading zeros.
- **Read/write test** (`sql_command.strip().upper().startswith("SELECT")`, module
  `SqlKind`, file `sql_kind.dfy`). It is modelled as Python's `strip`, `upper`
  and `startswith` on ASCII text. It is proved equivalent to "some run of
  whitespace, then the six letters S-E-L-E-C-T in any case".
- **Executors and teardown** (`run_nzsql`, `run_nzsql_withresults`, `disconnect`,
  module `Executor`, file `executor.dfy`). The driver is abstract. Each driver
  call (`cursor`, `execute`, `fetchall`, `commit`, `cursor.close`,
  `connection.close`) is appended to a trace. For the two executors, whether a
  call succeeds or raises comes from an injected `Driver` record. For
  `disconnect`, the outcomes of its two `connection.close()` calls are the
  parameters `first` (closed, `AttributeError` or another error) and `second`.
  Each executor is a method that runs
  the stages in the source's order and returns the trace, the stage messages it
  printed and, for `run_nzsql_withresults`, the returned rows. Its postcondition
  ties all three outputs to closed-form functions of the inputs. Lemmas prove the ordering
  and "called iff" properties about those functions.

`ascii.dfy` (module `Ascii`) holds the ASCII meaning of `isdigit`, `isspace` and
`upper`.

Behaviour of the code worth knowing, which the model keeps:

- `disconnect` catches only `AttributeError` from `close()`, and calls `close()`
  a second time inside that handler. An error of another kind from the first
  close, or any error from the second close, escapes to the caller. The model
  reports this as `escaped`.
- An ID must pass `isdigit()` before `int()` is applied, so `" 5"` and `"+5"`
  are rejected although `int()` would accept them. Leading zeros are accepted
  (`"0015"`), up to the interpreter's digit limit noted under "## Left out".
- If `fetchall` raises, the execution handler catches it. The console then shows
  both the execution success message and the execution error message. The result
  stays absent.

## Model

| member | source | states |
|---|---|---|
| StudentId.Classification | config.py:107-128 | The outcome is "not configured" iff the ID is exactly `"XX"`. It is "accepted" iff the ID is not `"XX"`, is all digits and has a value in 1..30. Otherwise it is "rejected". The fields are echoed iff the ID is accepted. |
| StudentId.SentinelIsNotConfigured | config.py:112-114 | `"XX"` gives the not-configured outcome, and no field is echoed. |
| StudentId.VerifyStudentId | config.py:107-128 | The validator: the sentinel test, then `isdigit` and the 1..30 range test, then acceptance; `echoed` is the `flag` of config.py:109-121. Its contract is stated by Classification, SentinelIsNotConfigured and AcceptedIffPaddedNumeral. |
| StudentId.IsDigits | config.py:115 | `isdigit()` on ASCII text: non-empty and every character a digit. Used by Classification. |
| StudentId.DecimalValue | config.py:115 | `int()` of a digit string. NumeralValue (reading back a numeral) and PaddedValue (leading zeros do not change the value) state its contract. |
| Ascii.IsDigit | config.py:115 | `isdigit()` on one ASCII character: '0' to '9'. |
| Ascii.IsSpace | config.py:156 | `isspace()` on one ASCII character: space, 9..13 and 28..31. Used by TrimStartSpec and TrimEnd. |
| Ascii.ToUpper | config.py:156 | `upper()` on one ASCII character, as a plain definition with no contract of its own. The read test's meaning in terms of it is stated by IsReadIff, and KeywordIsNotSpace proves that no character folding to a letter of SELECT is whitespace. |
| StudentId.Examples | config.py:112-121 | `"01"`, `"15"`, `"30"` and `"0015"` are accepted and echoed. `""`, `"0"`, `"31"`, `"abc"`, `" 5"`, `"+5"` and `"xx"` are rejected and not echoed. |
| StudentId.AcceptedIffPaddedNumeral | config.py:115-119 | An ID is accepted iff it is the canonical numeral of some n in 1..30 with zero or more leading zeros, under Python's unbounded `int` (see "## Left out" for the digit limit). |
| SqlKind.TrimStart | config.py:156 | `lstrip()`. Its contract is TrimStartSpec; TrimStartAt says it drops exactly the whitespace before the first non-space character. |
| SqlKind.Strip | config.py:156 | `strip()`, as `rstrip` after `lstrip`. Its contract is the conjunction of TrimStartSpec and TrimEnd's `ensures`. |
| SqlKind.Upper | config.py:156 | `upper()` on a string, as a plain definition with no contract of its own: ToUpper applied to each character. IsReadIff proves what it means for the read test. |
| SqlKind.StartsWith | config.py:156 | `startswith(prefix)`: the prefix is no longer than the string and equals its first characters. Used through IsReadIff. |
| SqlKind.IsRead | config.py:156-164 | The read test of both lines. IsReadIff states its contract. |
| SqlKind.TrimStartSpec | config.py:156 | Left-stripping removes only whitespace from the front. What remains is a suffix of the input that is empty or starts with a non-space character. |
| SqlKind.TrimEnd | config.py:156 | Right-stripping yields a prefix of the input. Everything it drops is whitespace, and the result is empty or ends with a non-space character. |
| SqlKind.IsReadIff | config.py:156 | A command counts as a read iff, after some whitespace, its next six characters spell SELECT ignoring case. |
| SqlKind.LowerCaseSelectIsRead | config.py:156 | `"  select * from t"` is a read. |
| SqlKind.MixedCaseSelectIsRead | config.py:156 | `"\n\tSeLeCt 1\n"` is a read. |
| SqlKind.UpdateIsWrite | config.py:164 | `"UPDATE t SET x=1"` is not a read. |
| SqlKind.DeleteIsWrite | config.py:164 | `"DELETE FROM t"` is not a read. |
| SqlKind.WithQueryIsWrite | config.py:164 | A query that opens with `WITH` is not a read, although it returns rows. |
| SqlKind.ShortCommandsAreWrites | config.py:164 | The empty command and `"SELEC"` are not reads. |
| Executor.RunNzsql | config.py:59-105 | Its trace and printed stage messages are exactly those of the functions `NzsqlCalls` and `NzsqlNotices`. |
| Executor.NzsqlCursorDiscipline | config.py:67-104 | A cursor is requested iff the handle is not null. It is closed exactly once, as the last call, iff it was obtained. Without it, no execute, commit or close happens. |
| Executor.NzsqlExecuteThenCommit | config.py:73-90 | With a cursor, execute and commit are each attempted once, execute before commit, whatever execute did. |
| Executor.NzsqlNoticesIff | config.py:77-104 | The setup error is printed iff no cursor was obtained. Each of execute success, execute error, commit error and close error is printed iff a cursor was obtained and the driver call had that outcome. |
| Executor.RunNzsqlWithResults | config.py:130-188 | Its returned rows, trace and printed stage messages are exactly those of `WithResultsValue`, `WithResultsCalls` and `WithResultsNotices`. |
| Executor.WithResultsCursorDiscipline | config.py:141-184 | As for `run_nzsql`: a cursor is requested iff the handle is not null. It is closed exactly once, last, iff obtained. Nothing else is called without it. |
| Executor.WithResultsFetchOrCommit | config.py:151-170 | Execute happens iff a cursor was obtained. Commit happens iff a cursor was obtained and the command is not a read, whether or not execute succeeded. Fetch happens iff there is a cursor, the command is a read and execute succeeded. Fetch and commit never both happen. |
| Executor.WithResultsValueIff | config.py:142-188 | Rows are returned iff they were fetched and `fetchall` succeeded. The returned rows are exactly the driver's rows. Otherwise the result is none. |
| Executor.WithResultsNoticesIff | config.py:151-184 | The execute error is printed iff execute raised, or a read's `fetchall` raised. The commit error is printed only for a non-read. The setup error is printed iff no cursor was obtained. The close error is printed iff close raised. |
| Executor.SelectIsFetchedNotCommitted | config.py:151-170 | For `"  select * from t"` that executes, rows are fetched and no commit is made. |
| Executor.UpdateIsCommittedNotFetched | config.py:151-170 | For `"UPDATE t SET x=1"`, commit is made and no rows are fetched. |
| Executor.WithResultsCallOrder | config.py:146-184 | With a cursor, the calls start with the cursor request and then the single execute. Any fetch or commit comes after the execute and before the close. |
| Executor.FailedSelectReturnsNothing | config.py:151-170 | Any read (ASCII command passing the SELECT test) whose execute raises returns none and is not committed. |
| Executor.Disconnect | config.py:50-57 | A null handle causes no driver call, no message and no error. A live handle is closed once, or twice after an `AttributeError`. An error escapes iff the first close raised something else or the retry raised. The success or failure message is printed as in the code. |

## Left out

- `apply_table_styling` (config.py:6-11) is left out. It only emits a style directive into the notebook display, and there is nothing to decide.
- `connect_nzdb` (config.py:13-47) is left out. It is one foreign call to `nzpy.connect`, plus console output. It returns `None` whenever that call, or the `int(nz_port)` conversion, raises.
- The console text is not modelled, including the printed password at config.py:44 and config.py:125. The model records only which stage messages appear, and whether the student-ID fields are echoed. The banner lines at config.py:69, 105, 144 and 186 are not modelled.
- The internals of the `nzpy` driver are not modelled. Each driver call is opaque, and its success or failure is an input. The SQL text is passed to `execute` unchanged; the model records it in the `Execute` call.
- StudentId.VerifyStudentId, SqlKind.IsRead, Executor.RunNzsqlWithResults, Executor.WithResultsCalls, Executor.WithResultsValue and Executor.WithResultsNotices require ASCII input, so a command with a non-ASCII literal (`... WHERE name = 'Zoë'`) is outside the model. Python's `isdigit`, `isspace` and `upper` differ from the ASCII rules on other characters. For example, a superscript digit passes `isdigit()` but makes `int()` raise, and `'ſ'.upper()` is `'S'`.
- StudentId.VerifyStudentId: does not model the limit on the digits `int()` converts (4300 by default since Python 3.11 and in the releases that backported it; leading zeros count). On such an interpreter an ID of more than 4300 digits, such as 4299 zeros followed by `15`, passes `isdigit()` and then makes `int()` raise an uncaught `ValueError` at config.py:115; the model accepts it. The limit depends on the interpreter version and its settings, so the model keeps Python's unbounded `int` and AcceptedIffPaddedNumeral describes that behaviour.
- The model assumes a cursor and a connection object are truthy (`if cursor:`, `if nz_connection:`), as ordinary driver objects are. It assumes `sql_command` and `student_id` are strings: a non-string `student_id`, such as the integer `15`, makes `isdigit` raise an uncaught `AttributeError` at config.py:115, and the model does not represent that.
- Exceptions outside `Exception`, such as `KeyboardInterrupt`, are not modelled, and neither are errors raised by `print`.
- Concurrency is not modelled. The helpers are single-threaded and blocking.
