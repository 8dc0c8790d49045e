/** The admin audit-log table: page/pageSize pagination, one fetch per page, and a render that
    puts the spinner before the error and the error before the table. */
module AuditLogTable {
  import opened Wrappers

  datatype AuditLog = AuditLog(
    id: string, timestamp: string, userId: string, action: string,
    targetId: string, targetType: string, details: string)

  /** The JSON the audit-log endpoint answers with: a bare array, or an object that may carry
      `items` and `total`. */
  datatype AuditData =
    | Bare(rows: seq<AuditLog>)
    | Paged(items: Option<seq<AuditLog>>, total: Option<int>)

  /** What the `logs` cell holds: a list of rows, or (when the answer was an object without
      `items`) that object itself. */
  datatype LogsCell = Rows(rows: seq<AuditLog>) | Whole(data: AuditData)

  /** `data.items ?? data` */
  function LogsOf(data: AuditData): (logs: LogsCell)
    ensures data.Paged? && data.items.Some? ==> logs == Rows(data.items.value)
    ensures data.Bare? ==> logs == Rows(data.rows)
    ensures data.Paged? && data.items.None? ==> logs == Whole(data)
  {
    match data
    case Bare(rows) => Rows(rows)
    case Paged(items, _) => if items.Some? then Rows(items.value) else Whole(data)
  }

  /** `data.total ?? 0` (an array has no `total`). */
  function TotalOf(data: AuditData): (total: int)
    ensures data.Paged? && data.total.Some? ==> total == data.total.value
    ensures data.Bare? || data.total.None? ==> total == 0
  {
    if data.Paged? then data.total.GetOr(0) else 0
  }

  /** The outcome of `getAccessTokenSilently()`. */
  datatype TokenOutcome = TokenThrew(message: string) | Token(value: string)

  /** The outcome of `fetchAuditLogs(...)`. */
  datatype FetchOutcome = FetchThrew(message: string) | Fetched(data: AuditData)

  /** What the component renders. `Broken` is `logs.map` on a non-array, which throws. */
  datatype View =
    | Spinner
    | ErrorText(message: string)
    | LogTable(rows: seq<AuditLog>, count: int, page: int, rowsPerPage: int)
    | Broken

  /** The request `fetchAuditLogs(token, page + 1, pageSize)` makes: the UI's 0-based page
      becomes the API's 1-based page. */
  function PageRequest(page: int, pageSize: int): (req: (int, int))
    ensures req.0 - 1 == page && req.1 == pageSize
  {
    (page + 1, pageSize)
  }

  class AuditLogTableView {
    var logs: LogsCell
    var loading: bool
    var error: Option<string>
    var page: int
    var pageSize: int
    var total: int

    /** Initial state: no logs, loading, no error, page 0 of 20 rows, total 0. */
    constructor ()
      ensures logs == Rows([]) && loading && error == None
      ensures page == 0 && pageSize == 20 && total == 0
    {
      logs := Rows([]);
      loading := true;
      error := None;
      page := 0;
      pageSize := 20;
      total := 0;
    }

    /** Loading first, then a truthy (non-empty) error, then the table of the logs; a `logs` cell
        holding the whole answer object makes `logs.map` throw (`Broken`). */
    function Render(): (v: View)
      reads this
      ensures loading <==> v == Spinner
      ensures !loading && error.Some? && error.value != "" <==> v.ErrorText?
      ensures !loading && !(error.Some? && error.value != "") ==>
        (v.LogTable? <==> logs.Rows?) && (v.Broken? <==> logs.Whole?)
      ensures v.LogTable? ==>
        logs == Rows(v.rows) && v.count == total && v.page == page && v.rowsPerPage == pageSize
    {
      if loading then Spinner
      else if error.Some? && error.value != "" then ErrorText(error.value)
      else match logs
        case Rows(rows) => LogTable(rows, total, page, pageSize)
        case Whole(_) => Broken
    }

    /** The effect `fetchData`, started after mount and whenever page or pageSize change. An empty
        token stops with "Not authenticated" before any request; a throw stores its message;
        a response fills `logs` and `total`. Loading is off afterwards in every case. */
    method FetchData(token: TokenOutcome, fetched: FetchOutcome) returns (request: Option<(int, int)>)
      modifies this`logs, this`loading, this`error, this`total
      ensures !loading && Render() != Spinner
      ensures token.TokenThrew? ==>
        request == None && error == Some(token.message)
        && logs == old(logs) && total == old(total)
      ensures token == Token("") ==>
        request == None && error == Some("Not authenticated")
        && logs == old(logs) && total == old(total)
      ensures token.Token? && token.value != "" ==> request == Some(PageRequest(page, pageSize))
      ensures token.Token? && token.value != "" && fetched.FetchThrew? ==>
        error == Some(fetched.message) && logs == old(logs) && total == old(total)
      ensures token.Token? && token.value != "" && fetched.Fetched? ==>
        error == None && logs == LogsOf(fetched.data) && total == TotalOf(fetched.data)
    {
      loading := true;
      error := None;
      request := None;
      match token {
        case TokenThrew(message) =>
          error := Some(message);
        case Token(value) =>
          if value == "" {
            error := Some("Not authenticated");
            loading := false;
            return;
          }
          request := Some(PageRequest(page, pageSize));
          match fetched {
            case FetchThrew(message) =>
              error := Some(message);
            case Fetched(data) =>
              logs := LogsOf(data);
              total := TotalOf(data);
          }
      }
      loading := false;
    }

    /** `onPageChange` */
    method ChangePage(newPage: int)
      modifies this`page
      ensures page == newPage
    {
      page := newPage;
    }

    /** `onRowsPerPageChange`: the new size, back to the first page. */
    method ChangeRowsPerPage(size: int)
      modifies this`page, this`pageSize
      ensures pageSize == size && page == 0
    {
      pageSize := size;
      page := 0;
    }
  }
}
