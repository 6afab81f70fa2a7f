/**
 The attendance-log endpoints of the Express server: `POST /record` appends
 one row to the sheet and then tries to send a welcome message, and
 `GET /records` turns the sheet's rows into records, newest first. The sheet
 and the messaging client are the environment: their replies are parameters,
 and the handler's result lists the calls it made and the response it sent.
 */
module AttendanceLog {
  import opened JsValues

  /** The four body fields `POST /record` reads. */
  datatype LogRequest = LogRequest(name: Option<string>, phone: Option<string>,
                                   timestamp: Option<string>, status: Option<string>)

  /** A sheet row as sent: an absent body field is an empty cell. */
  type Row = seq<Option<string>>

  datatype LogCall =
    | AppendRow(row: Row)                     // spreadsheets.values.append on A:D
    | SendMessage(to: string, body: string)   // messages.create

  /** Whether a call to a collaborator returned or threw. */
  datatype Reply = Returned | Threw(message: string)

  datatype LogBody =
    | Recorded(message: string, timestamp: Option<string>)     // { success: true, message, timestamp }
    | LogFailed(error: string, details: Option<string>)        // { error[, details] }

  datatype LogResponse = LogResponse(status: nat, body: LogBody)

  datatype LogOutcome = LogOutcome(calls: seq<LogCall>, response: LogResponse)

  const MissingFieldsError: string := "Name and phone are required"
  const AppendFailedError: string := "Failed to record attendance"
  const RecordedPrefix: string := "Attendance recorded for "
  const ListFailedError: string := "Failed to fetch records"
  const ListLimit: nat := 50

  /** `[[name, phone, timestamp, status]]` */
  function LogRow(req: LogRequest): (row: Row)
    ensures |row| == 4
    ensures row[0] == req.name && row[1] == req.phone
    ensures row[2] == req.timestamp && row[3] == req.status
  {
    [req.name, req.phone, req.timestamp, req.status]
  }

  const WelcomePrefix: string := "Welcome "

  /**
   The welcome text: it opens with the guest's name and ends with the time.
   `localTime` is the timestamp as the server's locale prints it.
   */
  function WelcomeText(name: string, localTime: string): (text: string)
    ensures StartsWith(text, WelcomePrefix + name)
    ensures IsSuffix(localTime + ".", text)
  {
    var text := WelcomePrefix + name + "! You are checked in at " + localTime + ".";
    StartsWithConcat(WelcomePrefix + name, "! You are checked in at " + localTime + ".");
    assert text == (WelcomePrefix + name) + ("! You are checked in at " + localTime + ".");
    SuffixOfConcat(WelcomePrefix + name + "! You are checked in at ", localTime + ".");
    assert text == (WelcomePrefix + name + "! You are checked in at ") + (localTime + ".");
    text
  }

  /**
   `POST /record`: both name and phone are required; the row is appended; a
   failed append is a 500; the welcome message is best effort.
   */
  function HandleRecord(req: LogRequest, localTime: string, append: Reply, notify: Reply): (o: LogOutcome)
    ensures o.response.status in {200, 400, 500}
    ensures Truthy(req.name) && Truthy(req.phone) && append.Returned? ==> o.response.status == 200
    ensures o.response.status == 400 <==> !Truthy(req.name) || !Truthy(req.phone)
    ensures o.response.status == 400 ==> o.calls == []
    ensures o.response.status == 500 <==> Truthy(req.name) && Truthy(req.phone) && append.Threw?
    ensures o.response.status == 500 ==> o.calls == [AppendRow(LogRow(req))]
    ensures o.response.status == 500 ==> o.response.body == LogFailed(AppendFailedError, Some(append.message))
    ensures o.response.status == 200 ==>
      && o.calls == [AppendRow(LogRow(req)), SendMessage(req.phone.value, WelcomeText(req.name.value, localTime))]
      && o.response.body == Recorded(RecordedPrefix + req.name.value, req.timestamp)
  {
    if !Truthy(req.name) || !Truthy(req.phone) then
      LogOutcome([], LogResponse(400, LogFailed(MissingFieldsError, None)))
    else
      var row := LogRow(req);
      match append
      case Threw(m) => LogOutcome([AppendRow(row)], LogResponse(500, LogFailed(AppendFailedError, Some(m))))
      case Returned =>
        var send := SendMessage(req.phone.value, WelcomeText(req.name.value, localTime));
        var recorded := LogOutcome([AppendRow(row), send],
                                   LogResponse(200, Recorded(RecordedPrefix + req.name.value, req.timestamp)));
        match notify
        case Returned => recorded
        case Threw(_) => recorded   // caught and logged; the answer is the same
  }

  /** A failed welcome message changes nothing: same calls, same success response. */
  lemma NotificationIsBestEffort(req: LogRequest, localTime: string, append: Reply, notify1: Reply, notify2: Reply)
    ensures HandleRecord(req, localTime, append, notify1) == HandleRecord(req, localTime, append, notify2)
  {
  }

  /** A rejected request appends nothing and sends nothing. */
  lemma MissingFieldsAppendNothing(req: LogRequest, localTime: string, append: Reply, notify: Reply)
    requires !Truthy(req.name) || !Truthy(req.phone)
    ensures HandleRecord(req, localTime, append, notify)
         == LogOutcome([], LogResponse(400, LogFailed(MissingFieldsError, None)))
  {
  }

  /** A record of `GET /records`; a cell past the end of a short row is absent. */
  datatype AttendanceRecord = AttendanceRecord(name: Option<string>, phone: Option<string>,
                                               timestamp: Option<string>, status: Option<string>)

  /** `row[i]` in JavaScript: undefined past the end. */
  function Cell(row: seq<string>, i: nat): (c: Option<string>)
    ensures c.Some? <==> i < |row|
    ensures i < |row| ==> c.value == row[i]
  {
    if i < |row| then Some(row[i]) else None
  }

  /**
   Columns A..D are name, phone, timestamp and status, in that order; a
   column the row does not reach is absent, and columns past D are dropped.
   */
  function ToRecord(row: seq<string>): (rec: AttendanceRecord)
    ensures |row| >= 1 ==> rec.name == Some(row[0])
    ensures |row| >= 2 ==> rec.phone == Some(row[1])
    ensures |row| >= 3 ==> rec.timestamp == Some(row[2])
    ensures |row| >= 4 ==> rec.status == Some(row[3])
    ensures |row| < 1 ==> rec.name == None
    ensures |row| < 2 ==> rec.phone == None
    ensures |row| < 3 ==> rec.timestamp == None
    ensures |row| < 4 ==> rec.status == None
  {
    AttendanceRecord(Cell(row, 0), Cell(row, 1), Cell(row, 2), Cell(row, 3))
  }

  /** `rows.slice(1).map(...)`: every row but the header, in sheet order. */
  function RecordsOf(rows: seq<seq<string>>): (records: seq<AttendanceRecord>)
    ensures |records| == if |rows| == 0 then 0 else |rows| - 1
    ensures forall i :: 0 <= i < |records| ==> records[i] == ToRecord(rows[i + 1])
  {
    if |rows| == 0 then [] else seq(|rows| - 1, i requires 0 <= i < |rows| - 1 => ToRecord(rows[i + 1]))
  }

  /**
   `xs.slice(-n)` for a positive `n`: the last `n` elements, or all of them
   when there are fewer. (`slice(-0)` would be the whole array; the server
   only ever passes fifty.)
   */
  function LastN<T(==)>(xs: seq<T>, n: nat): (r: seq<T>)
    requires n > 0
    ensures |r| == if |xs| < n then |xs| else n
    ensures IsSuffix(r, xs)
  {
    if |xs| <= n then xs else xs[|xs| - n..]
  }

  /** `xs.reverse()` */
  function Reverse<T>(xs: seq<T>): (r: seq<T>)
    ensures |r| == |xs|
    ensures forall i :: 0 <= i < |xs| ==> r[i] == xs[|xs| - 1 - i]
  {
    if |xs| == 0 then [] else [xs[|xs| - 1]] + Reverse(xs[..|xs| - 1])
  }

  /** `records.slice(-n).reverse()` for a positive `n`: the latest `n` records, newest first. */
  function MostRecentFirst<T(==)>(records: seq<T>, n: nat): (out: seq<T>)
    requires n > 0
    ensures |out| == if |records| < n then |records| else n
    ensures forall i :: 0 <= i < |out| ==> out[i] == records[|records| - 1 - i]
  {
    var last := LastN(records, n);
    var out := Reverse(last);
    assert forall i :: 0 <= i < |out| ==> out[i] == records[|records| - 1 - i] by {
      forall i | 0 <= i < |out| ensures out[i] == records[|records| - 1 - i] {
        assert out[i] == last[|last| - 1 - i];
        assert records[|records| - |last|..][|last| - 1 - i] == records[|records| - 1 - i];
      }
    }
    out
  }

  /** What the sheet read gave back. */
  datatype SheetRead =
    | ReadThrew(message: string)
    | ReadValues(values: Option<seq<seq<string>>>)   // `response.data.values`, absent when the sheet is empty

  datatype ListBody =
    | Listing(count: nat, records: seq<AttendanceRecord>)   // { success: true, count, records }
    | ListFailed(error: string, details: string)

  datatype ListResponse = ListResponse(status: nat, body: ListBody)

  /** `response.data.values || []` */
  function RowsOf(read: SheetRead): (rows: seq<seq<string>>)
    requires read.ReadValues?
    ensures read.values.Some? ==> rows == read.values.value
    ensures read.values.None? ==> rows == []
  {
    match read.values
    case None => []
    case Some(rows) => rows
  }

  /**
   The listing body for the sheet's rows: the count is the number of rows
   below the header, and record `i` is row `|rows| - 1 - i`, for at most fifty
   records; the header row (row 0) is never among them.
   */
  function ListRows(rows: seq<seq<string>>): (body: ListBody)
    ensures body.Listing?
    ensures body.count == if |rows| == 0 then 0 else |rows| - 1
    ensures |body.records| == if body.count < ListLimit then body.count else ListLimit
    ensures forall i :: 0 <= i < |body.records| ==>
              0 < |rows| - 1 - i < |rows| && body.records[i] == ToRecord(rows[|rows| - 1 - i])
  {
    RecentRowsShape(rows);
    Listing(|RecordsOf(rows)|, MostRecentFirst(RecordsOf(rows), ListLimit))
  }

  /** Record `i` of the newest-first list is sheet row `|rows| - 1 - i`, never the header. */
  lemma RecentRowsShape(rows: seq<seq<string>>)
    ensures var out := MostRecentFirst(RecordsOf(rows), ListLimit);
            forall i :: 0 <= i < |out| ==> 0 < |rows| - 1 - i < |rows| && out[i] == ToRecord(rows[|rows| - 1 - i])
  {
    var records := RecordsOf(rows);
    var out := MostRecentFirst(records, ListLimit);
    forall i | 0 <= i < |out|
      ensures 0 < |rows| - 1 - i < |rows| && out[i] == ToRecord(rows[|rows| - 1 - i])
    {
      NewestFirstIndex(rows, records, out, i);
    }
  }

  /** The index arithmetic behind `RecentRowsShape`, with the facts it needs spelled out. */
  lemma NewestFirstIndex(rows: seq<seq<string>>, records: seq<AttendanceRecord>, out: seq<AttendanceRecord>, i: nat)
    requires |rows| > 0 && |records| == |rows| - 1
    requires forall j :: 0 <= j < |records| ==> records[j] == ToRecord(rows[j + 1])
    requires |out| <= |records|
    requires forall j :: 0 <= j < |out| ==> out[j] == records[|records| - 1 - j]
    requires i < |out|
    ensures 0 < |rows| - 1 - i < |rows| && out[i] == ToRecord(rows[|rows| - 1 - i])
  {
    var j := |records| - 1 - i;
    assert out[i] == records[j];
    assert records[j] == ToRecord(rows[j + 1]);
  }

  /** `GET /records`: the sheet's rows (none when it has no values) listed, or a 500. */
  function HandleList(read: SheetRead): (resp: ListResponse)
    ensures resp.status == 200 <==> read.ReadValues?
    ensures read.ReadThrew? ==> resp == ListResponse(500, ListFailed(ListFailedError, read.message))
    ensures read == ReadValues(None) ==> resp.body == Listing(0, [])
    ensures read.ReadValues? ==> resp.body == ListRows(RowsOf(read))
  {
    match read
    case ReadThrew(m) => ListResponse(500, ListFailed(ListFailedError, m))
    case ReadValues(_) => ListResponse(200, ListRows(RowsOf(read)))
  }

  /** Every listed record comes from a row below the header. */
  lemma HeaderNeverListed(rows: seq<seq<string>>, rec: AttendanceRecord)
    requires rec in ListRows(rows).records
    ensures exists j :: 1 <= j < |rows| && rec == ToRecord(rows[j])
  {
    var out := ListRows(rows).records;
    var i :| 0 <= i < |out| && out[i] == rec;
    assert rec == ToRecord(rows[|rows| - 1 - i]);
  }

  /** The sheet keeps an appended row as its cells, an empty cell read back as "". */
  function StoredRow(row: Row): (cells: seq<string>)
    ensures |cells| == |row|
    ensures forall i :: 0 <= i < |row| ==> cells[i] == (if row[i].Some? then row[i].value else "")
  {
    seq(|row|, i requires 0 <= i < |row| => if row[i].Some? then row[i].value else "")
  }

  /**
   Logging then listing: once a request's row is appended below an existing
   header, the next listing counts it and shows it first, with the request's
   name and phone in their columns. This holds on the sheet of `StoredRow`,
   which keeps strings as sent; the real sheet appends with USER_ENTERED
   parsing (server.js:58), so a phone like "0770…" is read back as a number
   without its leading zero, and there the phone clause would fail.
   */
  lemma {:induction false} RecordThenList(rows: seq<seq<string>>, req: LogRequest, localTime: string, notify: Reply)
    requires |rows| > 0
    requires HandleRecord(req, localTime, Returned, notify).response.status == 200
    ensures var after := rows + [StoredRow(LogRow(req))];
            var body := HandleList(ReadValues(Some(after))).body;
            && body.Listing?
            && body.count == |rows|
            && |body.records| > 0
            && body.records[0].name == req.name
            && body.records[0].phone == req.phone
            && (req.timestamp.Some? ==> body.records[0].timestamp == req.timestamp)
            && (req.status.Some? ==> body.records[0].status == req.status)
  {
    var after := rows + [StoredRow(LogRow(req))];
    assert HandleList(ReadValues(Some(after))).body == ListRows(after);
    assert after[|after| - 1] == StoredRow(LogRow(req));
  }

  /** On a sheet with no header yet, the first logged row becomes the header and is not listed. */
  lemma FirstRowBecomesHeader(req: LogRequest)
    ensures HandleList(ReadValues(Some([StoredRow(LogRow(req))]))).body == Listing(0, [])
  {
  }
}
