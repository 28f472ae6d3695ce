/** The statement executors `run_nzsql` and `run_nzsql_withresults` and the
    teardown `disconnect`. The database driver is abstract: each driver call
    is recorded in a trace, and whether it succeeds or raises is an input
    (a `Driver` record). Each executor also reports which stage messages it
    printed; the text of the messages is not modelled. */
module Executor {
  import opened Ascii
  import opened SqlKind

  datatype Option<T> = None | Some(value: T)

  /** A connection handle as the caller holds it: `None` when connecting
      failed, otherwise a live connection object. */
  datatype Handle = Null | Live

  /** The outcome the driver gives one call. */
  datatype Step = Succeeds | Raises

  /** A row of a result set; its columns are whatever the driver returns. */
  datatype Row = Row(columns: seq<string>)

  /** The outcome of `cursor.fetchall()`. */
  datatype Fetched = Rows(rows: seq<Row>) | FetchRaises

  /** What the driver does on each call of one executor run. Every call is
      made at most once per run, so one outcome per call suffices. */
  datatype Driver = Driver(cursor: Step, execute: Step, fetch: Fetched, commit: Step, close: Step)

  /** Driver calls: `connection.cursor()`, `cursor.execute(sql)`,
      `cursor.fetchall()`, `connection.commit()`, `cursor.close()` and
      `connection.close()`. */
  datatype Call = Cursor | Execute(sql: string) | Fetch | Commit | Close | CloseConnection

  /** The stage messages printed to the console. */
  datatype Notice =
    | Executed          // "Successfully executed command."
    | ExecuteFailed     // "Error executing command."
    | CommitFailed      // "Error committing transaction"
    | SetupFailed       // "Error setting up cursor or executing command"
    | CloseFailed       // "Error closing cursor"
    | Disconnected      // "Successfully disconnected from the database ..."
    | DisconnectFailed  // "Error: Failed to disconnect from the database ..."

  /** The executor holds a cursor: the handle is live and `cursor()` returned.
      On a `None` handle, `cursor()` raises AttributeError before reaching
      any driver. */
  predicate CursorObtained(conn: Handle, d: Driver) {
    conn.Live? && d.cursor == Succeeds
  }

  /** The cursor discipline both executors keep: the cursor is requested iff
      there is a connection; it is closed exactly once, as the last call, iff
      it was obtained; and without it no other call is made. */
  predicate CursorDiscipline(calls: seq<Call>, conn: Handle, d: Driver) {
    (Cursor in calls <==> conn.Live?) &&
    multiset(calls)[Close] == (if CursorObtained(conn, d) then 1 else 0) &&
    (CursorObtained(conn, d) ==> calls != [] && calls[|calls| - 1] == Close) &&
    (!CursorObtained(conn, d) ==> forall c :: c in calls ==> c == Cursor)
  }

  // ---------------------------------------------------------------------------
  // run_nzsql

  /** The driver calls of `run_nzsql`. */
  function NzsqlCalls(conn: Handle, sql: string, d: Driver): seq<Call> {
    if conn.Null? then []
    else if d.cursor == Raises then [Cursor]
    else [Cursor, Execute(sql), Commit, Close]
  }

  /** The stage messages of `run_nzsql`, in the order they are printed. */
  function NzsqlNotices(conn: Handle, d: Driver): seq<Notice> {
    if !CursorObtained(conn, d) then [SetupFailed]
    else [if d.execute == Succeeds then Executed else ExecuteFailed]
         + (if d.commit == Raises then [CommitFailed] else [])
         + (if d.close == Raises then [CloseFailed] else [])
  }

  /** `run_nzsql`: acquire a cursor, execute, commit whatever the execution
      did, and close the cursor in `finally`; every failure is printed and
      the run goes on. */
  method RunNzsql(conn: Handle, sql: string, d: Driver) returns (trace: seq<Call>, notices: seq<Notice>)
    ensures trace == NzsqlCalls(conn, sql, d)
    ensures notices == NzsqlNotices(conn, d)
  {
    trace, notices := [], [];
    var cursor := false;  // cursor = None
    if conn.Live? {
      trace := trace + [Cursor];
      cursor := d.cursor == Succeeds;
    }
    if cursor {
      trace := trace + [Execute(sql)];
      notices := notices + [if d.execute == Succeeds then Executed else ExecuteFailed];
      trace := trace + [Commit];
      if d.commit == Raises {
        notices := notices + [CommitFailed];
      }
    } else {
      // the outer `except`: `cursor()` raised, or the handle is `None`
      notices := notices + [SetupFailed];
    }
    // finally
    if cursor {
      trace := trace + [Close];
      if d.close == Raises {
        notices := notices + [CloseFailed];
      }
    }
  }

  lemma NzsqlCursorDiscipline(conn: Handle, sql: string, d: Driver)
    ensures CursorDiscipline(NzsqlCalls(conn, sql, d), conn, d)
  {
  }

  /** Once the cursor is obtained, execute is attempted and then commit, even
      when execute raised; each exactly once. */
  lemma NzsqlExecuteThenCommit(conn: Handle, sql: string, d: Driver)
    requires CursorObtained(conn, d)
    ensures var calls := NzsqlCalls(conn, sql, d);
      multiset(calls)[Execute(sql)] == 1 && multiset(calls)[Commit] == 1 &&
      exists i, j :: 0 <= i < j < |calls| && calls[i] == Execute(sql) && calls[j] == Commit
  {
    var calls := NzsqlCalls(conn, sql, d);
    assert calls[1] == Execute(sql) && calls[2] == Commit;
  }

  /** Each stage's failure is reported on its own, and the setup message
      appears exactly when no cursor was obtained. */
  lemma NzsqlNoticesIff(conn: Handle, d: Driver)
    ensures var notices := NzsqlNotices(conn, d);
      (SetupFailed in notices <==> !CursorObtained(conn, d)) &&
      (Executed in notices <==> CursorObtained(conn, d) && d.execute == Succeeds) &&
      (ExecuteFailed in notices <==> CursorObtained(conn, d) && d.execute == Raises) &&
      (CommitFailed in notices <==> CursorObtained(conn, d) && d.commit == Raises) &&
      (CloseFailed in notices <==> CursorObtained(conn, d) && d.close == Raises)
  {
  }

  // ---------------------------------------------------------------------------
  // run_nzsql_withresults

  /** The driver calls of `run_nzsql_withresults`. */
  function WithResultsCalls(conn: Handle, sql: string, d: Driver): seq<Call>
    requires IsAscii(sql)
  {
    if conn.Null? then []
    else if d.cursor == Raises then [Cursor]
    else [Cursor, Execute(sql)]
         + (if d.execute == Succeeds && IsRead(sql) then [Fetch] else [])
         + (if IsRead(sql) then [] else [Commit])
         + [Close]
  }

  /** The value `run_nzsql_withresults` returns. */
  function WithResultsValue(conn: Handle, sql: string, d: Driver): Option<seq<Row>>
    requires IsAscii(sql)
  {
    if CursorObtained(conn, d) && d.execute == Succeeds && IsRead(sql) && d.fetch.Rows?
    then Some(d.fetch.rows) else None
  }

  /** The stage messages of `run_nzsql_withresults`, in the order they are
      printed. A failing `fetchall` is reported by the execution handler,
      after the success message of the execution. */
  function WithResultsNotices(conn: Handle, sql: string, d: Driver): seq<Notice>
    requires IsAscii(sql)
  {
    if !CursorObtained(conn, d) then [SetupFailed]
    else (if d.execute == Raises then [ExecuteFailed]
          else [Executed] + (if IsRead(sql) && d.fetch == FetchRaises then [ExecuteFailed] else []))
         + (if !IsRead(sql) && d.commit == Raises then [CommitFailed] else [])
         + (if d.close == Raises then [CloseFailed] else [])
  }

  /** `run_nzsql_withresults`: as `run_nzsql`, but a read fetches its rows
      after a successful execution and is never committed, while any other
      command is committed and returns nothing. */
  method RunNzsqlWithResults(conn: Handle, sql: string, d: Driver)
    returns (results: Option<seq<Row>>, trace: seq<Call>, notices: seq<Notice>)
    requires IsAscii(sql)
    ensures results == WithResultsValue(conn, sql, d)
    ensures trace == WithResultsCalls(conn, sql, d)
    ensures notices == WithResultsNotices(conn, sql, d)
  {
    trace, notices := [], [];
    var cursor := false;  // cursor = None
    results := None;
    if conn.Live? {
      trace := trace + [Cursor];
      cursor := d.cursor == Succeeds;
    }
    if cursor {
      trace := trace + [Execute(sql)];
      if d.execute == Succeeds {
        notices := notices + [Executed];
        if IsRead(sql) {
          trace := trace + [Fetch];
          match d.fetch
          case Rows(rows) =>
            results := Some(rows);
          case FetchRaises =>
            notices := notices + [ExecuteFailed];
        }
      } else {
        notices := notices + [ExecuteFailed];
      }
      if !IsRead(sql) {
        trace := trace + [Commit];
        if d.commit == Raises {
          notices := notices + [CommitFailed];
        }
      }
    } else {
      // the outer `except`: `cursor()` raised, or the handle is `None`
      notices := notices + [SetupFailed];
    }
    // finally
    if cursor {
      trace := trace + [Close];
      if d.close == Raises {
        notices := notices + [CloseFailed];
      }
    }
  }

  lemma WithResultsCursorDiscipline(conn: Handle, sql: string, d: Driver)
    requires IsAscii(sql)
    ensures CursorDiscipline(WithResultsCalls(conn, sql, d), conn, d)
  {
  }

  /** Commit is attempted iff a cursor was obtained and the command is not a
      read, whether or not the execution succeeded; rows are fetched only for
      a read that executed; the two never both happen. */
  lemma WithResultsFetchOrCommit(conn: Handle, sql: string, d: Driver)
    requires IsAscii(sql)
    ensures var calls := WithResultsCalls(conn, sql, d);
      (Execute(sql) in calls <==> CursorObtained(conn, d)) &&
      (Commit in calls <==> CursorObtained(conn, d) && !IsRead(sql)) &&
      (Fetch in calls <==> CursorObtained(conn, d) && IsRead(sql) && d.execute == Succeeds) &&
      !(Fetch in calls && Commit in calls)
  {
  }

  /** With a cursor, the cursor request comes first and the single execute
      second; a fetch or commit comes after the execute and before the close. */
  lemma WithResultsCallOrder(conn: Handle, sql: string, d: Driver)
    requires IsAscii(sql) && CursorObtained(conn, d)
    ensures var calls := WithResultsCalls(conn, sql, d);
      calls[0] == Cursor && calls[1] == Execute(sql) && multiset(calls)[Execute(sql)] == 1 &&
      forall k :: 0 <= k < |calls| && (calls[k] == Fetch || calls[k] == Commit) ==> 1 < k < |calls| - 1
  {
  }

  /** Rows are returned iff they were fetched successfully, and they are the
      rows the driver gave. */
  lemma WithResultsValueIff(conn: Handle, sql: string, d: Driver)
    requires IsAscii(sql)
    ensures var r := WithResultsValue(conn, sql, d);
      (r.Some? <==> Fetch in WithResultsCalls(conn, sql, d) && d.fetch.Rows?) &&
      (r.Some? ==> r.value == d.fetch.rows)
  {
  }

  /** Each stage's failure is reported on its own; a failing fetch shows as an
      execution error. */
  lemma WithResultsNoticesIff(conn: Handle, sql: string, d: Driver)
    requires IsAscii(sql)
    ensures var notices := WithResultsNotices(conn, sql, d);
      (SetupFailed in notices <==> !CursorObtained(conn, d)) &&
      (Executed in notices <==> CursorObtained(conn, d) && d.execute == Succeeds) &&
      (ExecuteFailed in notices <==>
         CursorObtained(conn, d) && (d.execute == Raises || (IsRead(sql) && d.fetch == FetchRaises))) &&
      (CommitFailed in notices <==> CursorObtained(conn, d) && !IsRead(sql) && d.commit == Raises) &&
      (CloseFailed in notices <==> CursorObtained(conn, d) && d.close == Raises)
  {
  }

  /** A lower-case SELECT with leading whitespace is fetched and not committed. */
  lemma SelectIsFetchedNotCommitted(sql: string, d: Driver)
    requires sql == "  select * from t"
    requires d.cursor == Succeeds && d.execute == Succeeds
    ensures var calls := WithResultsCalls(Live, sql, d);
      Fetch in calls && Commit !in calls
  {
    LowerCaseSelectIsRead();
  }

  /** An UPDATE is committed and not fetched. */
  lemma UpdateIsCommittedNotFetched(sql: string, d: Driver)
    requires sql == "UPDATE t SET x=1"
    requires d.cursor == Succeeds
    ensures var calls := WithResultsCalls(Live, sql, d);
      Commit in calls && Fetch !in calls
  {
    UpdateIsWrite();
  }

  /** A read whose execution raises returns nothing and is not committed. */
  lemma FailedSelectReturnsNothing(sql: string, d: Driver)
    requires IsAscii(sql) && IsRead(sql)
    requires d.cursor == Succeeds && d.execute == Raises
    ensures WithResultsValue(Live, sql, d) == None
    ensures Commit !in WithResultsCalls(Live, sql, d)
  {
  }

  // ---------------------------------------------------------------------------
  // disconnect

  /** The outcome of the first `connection.close()` in `disconnect`: only an
      AttributeError is handled. */
  datatype CloseOutcome = Closed | AttributeErrorRaised | OtherErrorRaised

  /** `disconnect`: a null handle is left alone; otherwise the connection is
      closed, and on AttributeError closed once more. An error the handler
      does not catch escapes to the caller (`escaped`). */
  method Disconnect(conn: Handle, first: CloseOutcome, second: Step)
    returns (trace: seq<Call>, notices: seq<Notice>, escaped: bool)
    ensures conn.Null? ==> trace == [] && notices == [] && !escaped
    ensures conn.Live? ==> trace == if first == AttributeErrorRaised then [CloseConnection, CloseConnection]
                                    else [CloseConnection]
    ensures escaped <==> conn.Live? && (first == OtherErrorRaised || (first == AttributeErrorRaised && second == Raises))
    ensures notices == if conn.Live? && first == Closed then [Disconnected]
                       else if conn.Live? && first == AttributeErrorRaised && second == Succeeds then [DisconnectFailed]
                       else []
  {
    trace, notices, escaped := [], [], false;
    if conn.Live? {
      trace := trace + [CloseConnection];
      match first
      case Closed =>
        notices := notices + [Disconnected];
      case AttributeErrorRaised =>
        trace := trace + [CloseConnection];
        if second == Succeeds {
          notices := notices + [DisconnectFailed];
        } else {
          escaped := true;
        }
      case OtherErrorRaised =>
        escaped := true;
    }
  }
}
