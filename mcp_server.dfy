/**
 * The MCP server's one tool, `telegram_get_messages`: it gets the shared
 * connection manager, reads the time window, asks the downloader for the
 * chat's messages and keeps those inside the window as small records, and
 * turns every exception into an error response.
 *
 * `datetime.fromisoformat`, `strftime("%Y-%m-%d")`, `download_chat`, the
 * display-name lookup and the clock are parameters. Instants are seconds;
 * a naive datetime is kept as the instant its wall clock would be in UTC.
 */
module McpServer {
  import opened Wrappers
  import opened Text
  import opened Json
  import Messages
  import McpConnection

  // ---------------------------------------------------------------------------
  // Datetimes
  // ---------------------------------------------------------------------------

  /** A datetime: its instant and, when it is aware, its UTC offset in seconds. */
  datatype Stamp = Stamp(utc: int, offset: Option<int>)

  /** `datetime.fromisoformat`: the datetime, or the text of the `ValueError` it raises. */
  type Iso = string -> Result<Stamp, string>

  /** `dt.replace(tzinfo=timezone.utc)` when `dt` is naive; an aware datetime is kept. */
  function AsUtc(t: Stamp): (r: Stamp)
    ensures r.offset.Some?
    ensures t.offset.None? ==> r == Stamp(t.utc, Some(0))
    ensures t.offset.Some? ==> r == t
  {
    if t.offset.None? then Stamp(t.utc, Some(0)) else t
  }

  /** The lower end of the window: `min_datetime` read as UTC when naive, or the error response's text. */
  function MinBound(text: string, parse: Iso): (r: Result<Stamp, string>)
    ensures parse(text).Failure? ==> r == Failure("Invalid min_datetime format: " + parse(text).error)
    ensures parse(text).Success? ==> r.Success? && r.value.utc == parse(text).value.utc && r.value.offset.Some?
    ensures parse(text).Success? && parse(text).value.offset.Some? ==> r.value == parse(text).value
  {
    match parse(text)
    case Failure(e) => Failure("Invalid min_datetime format: " + e)
    case Success(t) => Success(AsUtc(t))
  }

  /** The upper end: `max_datetime` read as UTC when naive, now (in UTC) when it is not given. */
  function MaxBound(text: Option<string>, now: int, parse: Iso): (r: Result<Stamp, string>)
    ensures text.None? ==> r == Success(Stamp(now, Some(0)))
    ensures text.Some? && parse(text.value).Failure? ==>
      r == Failure("Invalid max_datetime format: " + parse(text.value).error)
    ensures text.Some? && parse(text.value).Success? ==>
      r.Success? && r.value.utc == parse(text.value).value.utc && r.value.offset.Some?
  {
    if text.None? then Success(Stamp(now, Some(0)))
    else
      match parse(text.value)
      case Failure(e) => Failure("Invalid max_datetime format: " + e)
      case Success(t) => Success(AsUtc(t))
  }

  /** The wall-clock reading `strftime` formats: the instant moved by the offset. */
  function Wall(t: Stamp): int
  {
    t.utc + t.offset.GetOr(0)
  }

  // ---------------------------------------------------------------------------
  // Exceptions
  // ---------------------------------------------------------------------------

  /**
   * What a call can raise, with `str()` of it as `text`. For the
   * unregistered auth key, `text` is that of the fresh instance the
   * handler records.
   */
  datatype Exc =
    | AuthKeyUnregistered(text: string)
    | FloodWait(seconds: int, text: string)
    | Rpc(message: string, code: Option<int>, text: string)
    | Runtime(text: string)
    | Other(text: string)

  /** Python's name for the type of a value, as its error messages print it. */
  function TypeName(v: Value): string
  {
    match v
    case Null => "NoneType"
    case Bool(_) => "bool"
    case Int(_) => "int"
    case Float(_) => "float"
    case Str(_) => "str"
    case List(_) => "list"
    case Tuple(_) => "tuple"
    case Obj(_) => "dict"
    case Opaque(_) => "object"
  }

  /** The `AttributeError` of asking `v` for a missing attribute. */
  function NoAttribute(v: Value, attr: string): Exc
  {
    Other("'" + TypeName(v) + "' object has no attribute '" + attr + "'")
  }

  /** The `TypeError` of comparing a naive datetime with an aware one. */
  const NaiveAware := Other("can't compare offset-naive and offset-aware datetimes")

  /** `RuntimeError("Not authenticated")`. */
  const NotAuthenticated := Runtime("Not authenticated")

  /** The `AttributeError` of calling `manager.execute`, which the manager class does not define. */
  const NoExecute := Other("'TelegramConnectionManager' object has no attribute 'execute'")

  /** The `ValidationError` of a record `TelegramMessage` refuses. */
  const Invalid := Other("validation error for TelegramMessage")

  // ---------------------------------------------------------------------------
  // _fetch_messages
  // ---------------------------------------------------------------------------

  /** The keyword arguments of the `download_chat` call. */
  datatype Request = Request(
    chatId: string, fromDate: string, untilDate: string,
    totalLimit: int, requestLimit: int, savePartial: bool, silent: bool)

  /**
   * The download asked for: back from the day of the upper end (the
   * downloader's `from_date`) to the day of the lower end, at most `limit`
   * messages, at most 100 per request, with no partial saves.
   */
  function FetchRequest(chat: string, lo: Stamp, hi: Stamp, limit: int, day: int -> string): (r: Request)
    ensures r.chatId == chat
    ensures r.fromDate == day(Wall(hi)) && r.untilDate == day(Wall(lo))
    ensures r.totalLimit == limit
    ensures r.requestLimit <= 100 && r.requestLimit <= limit && (r.requestLimit == 100 || r.requestLimit == limit)
    ensures !r.savePartial && r.silent
  {
    Request(chat, day(Wall(hi)), day(Wall(lo)), limit, if limit < 100 then limit else 100, false, true)
  }

  /** The record `_fetch_messages` builds for a message it keeps. */
  datatype Row = Row(id: Value, date: Value, text: Value, userName: string, replyToMsgId: Value)

  /** The sender's id: the `user_id` or else the `channel_id` of a dict `from_id`, an int `from_id` itself, `None` otherwise. */
  function SenderId(fromId: Value): (r: Value)
    ensures fromId.Obj? && Truthy(Field(fromId, "user_id")) ==> r == Field(fromId, "user_id")
    ensures fromId.Obj? && !Truthy(Field(fromId, "user_id")) ==> r == Field(fromId, "channel_id")
    ensures (fromId.Int? || fromId.Bool?) ==> r == fromId
    ensures !fromId.Obj? && !fromId.Int? && !fromId.Bool? ==> r == Null
  {
    // a bool is an int to `isinstance`
    if fromId.Obj? then Or(Field(fromId, "user_id"), Field(fromId, "channel_id"))
    else if fromId.Int? || fromId.Bool? then fromId
    else Null
  }

  /** The sender's display name: looked up for a truthy id, `"Unknown"` otherwise. */
  function UserName(fromId: Value, names: Value -> string): (r: string)
    ensures !Truthy(SenderId(fromId)) ==> r == "Unknown"
    ensures Truthy(SenderId(fromId)) ==> r == names(SenderId(fromId))
  {
    var id := SenderId(fromId);
    if Truthy(id) then names(id) else "Unknown"
  }

  /** A kept message's record; a `reply_to` that is truthy but not a dict raises. */
  function Project(s: Fields, names: Value -> string): (r: Result<Row, Exc>)
    ensures r.Success? <==> !Truthy(Field(Obj(s), "reply_to")) || Field(Obj(s), "reply_to").Obj?
    ensures r.Success? ==> r.value.id == Field(Obj(s), "id") && r.value.date == Field(Obj(s), "date")
    ensures r.Success? ==> r.value.text == Get(s, "message").GetOr(Str(""))
    ensures r.Success? ==> r.value.userName == UserName(Field(Obj(s), "from_id"), names)
    ensures r.Success? && !Truthy(Field(Obj(s), "reply_to")) ==> r.value.replyToMsgId == Null
    ensures r.Success? && Truthy(Field(Obj(s), "reply_to")) ==>
      r.value.replyToMsgId == Field(Field(Obj(s), "reply_to"), "reply_to_msg_id")
  {
    var m := Obj(s);
    var replyTo := Field(m, "reply_to");
    var name := UserName(Field(m, "from_id"), names);
    if Truthy(replyTo) && !replyTo.Obj? then Failure(NoAttribute(replyTo, "get"))
    else
      var reply := if Truthy(replyTo) then Field(replyTo, "reply_to_msg_id") else Null;
      Success(Row(Field(m, "id"), Field(m, "date"), Get(s, "message").GetOr(Str("")), name, reply))
  }

  /** A message date inside the window: text that parses, once `Z` is spelled `+00:00`, to an aware instant in `[lo, hi]`. */
  predicate InWindow(date: Value, lo: Stamp, hi: Stamp, parse: Iso)
  {
    date.Str? && parse(ReplaceAll(date.s, "Z", "+00:00")).Success?
    && var t := parse(ReplaceAll(date.s, "Z", "+00:00")).value;
    t.offset.Some? && lo.utc <= t.utc <= hi.utc
  }

  /**
   * One message of the download: skipped (`None`) when its date lies
   * outside the window, its record otherwise, or the exception it raises:
   * a message that is not a dict, a date that is not text, does not
   * parse, or is naive (the window's ends are aware).
   */
  function Process(m: Value, lo: Stamp, hi: Stamp, parse: Iso, names: Value -> string): Result<Option<Row>, Exc>
  {
    var s := Messages.Serializable(m);
    if !s.Obj? then Failure(NoAttribute(s, "get"))
    else
      var date := Field(s, "date");
      if !Truthy(date) then
        var row := Project(s.fields, names);
        if row.Failure? then Failure(row.error) else Success(Some(row.value))
      else if !date.Str? then Failure(NoAttribute(date, "replace"))
      else
        match parse(ReplaceAll(date.s, "Z", "+00:00"))
        case Failure(e) => Failure(Other(e))
        case Success(t) =>
          if t.offset.None? then Failure(NaiveAware)
          else if t.utc < lo.utc || t.utc > hi.utc then Success(None)
          else
            var row := Project(s.fields, names);
            if row.Failure? then Failure(row.error) else Success(Some(row.value))
  }

  /**
   * What one message comes to: a record kept is undated or inside the
   * window, a message skipped is dated outside it, and an undated dict
   * whose `reply_to` is falsy is always kept.
   */
  lemma ProcessContract(m: Value, lo: Stamp, hi: Stamp, parse: Iso, names: Value -> string)
    ensures var r := Process(m, lo, hi, parse, names);
      && (r.Success? && r.value.Some? ==>
            var date := r.value.value.date;
            date == Field(Messages.Serializable(m), "date") && (!Truthy(date) || InWindow(date, lo, hi, parse)))
      && (r.Success? && r.value.None? ==>
            var date := Field(Messages.Serializable(m), "date");
            Truthy(date) && !InWindow(date, lo, hi, parse))
      && (m.Obj? && !Truthy(Field(Messages.Serializable(m), "date")) && !Truthy(Field(Messages.Serializable(m), "reply_to")) ==>
            r.Success? && r.value.Some?)
      && (!m.Obj? ==> r == Failure(NoAttribute(Messages.Serializable(m), "get")))
  {
  }

  /** What one message comes to, as `_fetch_messages` processes it. */
  type Step = Value -> Result<Option<Row>, Exc>

  /** `Process` within one window. */
  function Processor(lo: Stamp, hi: Stamp, parse: Iso, names: Value -> string): Step
  {
    m => Process(m, lo, hi, parse, names)
  }

  /** The records of the messages kept, in order, or the first exception a message raises. */
  function Projected(ms: seq<Value>, step: Step): Result<seq<Row>, Exc>
    decreases |ms|
  {
    if |ms| == 0 then Success([])
    else
      match Projected(ms[..|ms| - 1], step)
      case Failure(e) => Failure(e)
      case Success(rows) =>
        match step(ms[|ms| - 1])
        case Failure(e) => Failure(e)
        case Success(kept) => Success(rows + if kept.Some? then [kept.value] else [])
  }

  /**
   * When no message raises, the records are exactly those of the messages
   * kept, in the order of the download, and no more of them than messages.
   */
  lemma {:induction false} ProjectedKeeps(ms: seq<Value>, step: Step)
    requires Projected(ms, step).Success?
    decreases |ms|
    ensures var rows := Projected(ms, step).value;
      && |rows| <= |ms|
      && (forall i :: 0 <= i < |ms| ==> step(ms[i]).Success?)
      && (forall i :: 0 <= i < |ms| && step(ms[i]).value.Some? ==>
            step(ms[i]).value.value in rows)
      && (forall row :: row in rows ==> exists i :: 0 <= i < |ms| && step(ms[i]) == Success(Some(row)))
  {
    if |ms| > 0 {
      var n := |ms| - 1;
      ProjectedKeeps(ms[..n], step);
      var rows := Projected(ms[..n], step).value;
      var kept := step(ms[n]).value;
      assert Projected(ms, step).value == rows + if kept.Some? then [kept.value] else [];
      assert forall i :: 0 <= i < n ==> ms[..n][i] == ms[i];
    }
  }

  /** When a message raises, the first one that does ends the fetch with its exception. */
  lemma {:induction false} ProjectedRaises(ms: seq<Value>, step: Step)
    requires Projected(ms, step).Failure?
    decreases |ms|
    ensures exists i ::
      && 0 <= i < |ms| && step(ms[i]) == Failure(Projected(ms, step).error)
      && forall j :: 0 <= j < i ==> step(ms[j]).Success?
  {
    var n := |ms| - 1;
    assert forall i :: 0 <= i < n ==> ms[..n][i] == ms[i];
    if Projected(ms[..n], step).Failure? {
      ProjectedRaises(ms[..n], step);
    } else {
      ProjectedKeeps(ms[..n], step);
      assert step(ms[n]).Failure?;
    }
  }

  /** `download_chat`: the messages it returns, each as its `to_dict()`, or the exception it raises. */
  type Download = Request -> Result<seq<Value>, Exc>

  /** `_fetch_messages`: `Not authenticated` without a client, the downloader's exception, or the window filter over its messages. */
  function Fetched(client: bool, req: Request, lo: Stamp, hi: Stamp, download: Download, parse: Iso, names: Value -> string): (r: Result<seq<Row>, Exc>)
    ensures !client ==> r == Failure(NotAuthenticated)
    ensures client && download(req).Failure? ==> r == Failure(download(req).error)
  {
    if !client then Failure(NotAuthenticated)
    else
      match download(req)
      case Failure(e) => Failure(e)
      case Success(ms) => Projected(ms, Processor(lo, hi, parse, names))
  }

  /**
   * `_fetch_messages`: `Not authenticated` without a client, then the
   * download, then the loop over its messages.
   */
  method FetchMessages(downloader: McpConnection.Downloader, chat: string, lo: Stamp, hi: Stamp, limit: int,
                       day: int -> string, download: Download, parse: Iso, names: Value -> string)
    returns (r: Result<seq<Row>, Exc>)
    ensures r == Fetched(downloader.client.Some?, FetchRequest(chat, lo, hi, limit, day), lo, hi, download, parse, names)
  {
    if downloader.client.None? {
      return Failure(NotAuthenticated);
    }
    var messages := download(FetchRequest(chat, lo, hi, limit, day));
    if messages.Failure? {
      return Failure(messages.error);
    }
    r := KeepMessages(messages.value, Processor(lo, hi, parse, names));
  }

  /**
   * The loop of `_fetch_messages` over the downloaded messages: each is
   * processed in turn, the record of each one kept is appended, and the
   * first exception ends it.
   */
  method KeepMessages(ms: seq<Value>, step: Step) returns (r: Result<seq<Row>, Exc>)
    ensures r == Projected(ms, step)
  {
    var resultMessages: seq<Row> := [];
    var i := 0;
    assert ms[..0] == [];
    while i < |ms|
      invariant 0 <= i <= |ms|
      invariant Projected(ms[..i], step) == Success(resultMessages)
    {
      var kept := step(ms[i]);
      if kept.Failure? {
        ProjectedStops(ms, i, step);
        return Failure(kept.error);
      }
      ProjectedNext(ms, i, step, resultMessages);
      resultMessages := resultMessages + if kept.value.Some? then [kept.value.value] else [];
      i := i + 1;
    }
    assert ms[..i] == ms;
    r := Success(resultMessages);
  }

  /** One more message that does not raise adds its record, if it is kept, after the others. */
  lemma ProjectedNext(ms: seq<Value>, i: nat, step: Step, rows: seq<Row>)
    requires i < |ms| && Projected(ms[..i], step) == Success(rows) && step(ms[i]).Success?
    ensures Projected(ms[..i + 1], step) == Success(rows + if step(ms[i]).value.Some? then [step(ms[i]).value.value] else [])
  {
    assert ms[..i + 1][..i] == ms[..i];
  }

  /** A message that raises ends the window filter over every longer prefix with its exception. */
  lemma {:induction false} ProjectedStops(ms: seq<Value>, i: nat, step: Step)
    requires i < |ms| && Projected(ms[..i], step).Success?
    requires step(ms[i]).Failure?
    decreases |ms| - i
    ensures Projected(ms, step) == Failure(step(ms[i]).error)
  {
    assert ms[..i + 1][..i] == ms[..i];
    if i + 1 < |ms| {
      StopsLater(ms, i + 1, step(ms[i]).error, step);
    } else {
      assert ms[..i + 1] == ms;
    }
  }

  /** Once a prefix has raised, every longer one raises the same. */
  lemma {:induction false} StopsLater(ms: seq<Value>, k: nat, e: Exc, step: Step)
    requires 0 < k <= |ms| && Projected(ms[..k], step) == Failure(e)
    decreases |ms| - k
    ensures Projected(ms, step) == Failure(e)
  {
    if k < |ms| {
      assert ms[..k + 1][..k] == ms[..k];
      StopsLater(ms, k + 1, e, step);
    } else {
      assert ms[..k] == ms;
    }
  }

  // ---------------------------------------------------------------------------
  // Responses
  // ---------------------------------------------------------------------------

  /** `TelegramMessage`. */
  datatype TelegramMessage = TelegramMessage(id: int, date: string, text: string, userName: string, replyToMsgId: Option<int>)

  /** `TelegramMessagesResponse` and `TelegramErrorResponse`. */
  datatype Response =
    | MessagesResponse(messages: seq<TelegramMessage>)
    | ErrorResponse(error: string, code: Option<string>, retryAfter: Option<int>, rpcCode: Option<int>)

  /** `TelegramMessage(**row)`: an int id, text date and text, an int or no reply id; anything else is refused. */
  function Validate(row: Row): (r: Option<TelegramMessage>)
    ensures r.Some? <==> row.id.Int? && row.date.Str? && row.text.Str? && (row.replyToMsgId.Null? || row.replyToMsgId.Int?)
    ensures r.Some? ==>
      && r.value.id == row.id.i && r.value.date == row.date.s && r.value.text == row.text.s
      && r.value.userName == row.userName
      && r.value.replyToMsgId == (if row.replyToMsgId.Int? then Some(row.replyToMsgId.i) else None)
  {
    if row.id.Int? && row.date.Str? && row.text.Str? && (row.replyToMsgId.Null? || row.replyToMsgId.Int?) then
      Some(TelegramMessage(row.id.i, row.date.s, row.text.s, row.userName,
                           if row.replyToMsgId.Int? then Some(row.replyToMsgId.i) else None))
    else None
  }

  /** Every record validated, in order; `None` as soon as one is refused. */
  function ValidateAll(rows: seq<Row>): (r: Option<seq<TelegramMessage>>)
    ensures r.Some? <==> forall i :: 0 <= i < |rows| ==> Validate(rows[i]).Some?
    ensures r.Some? ==> |r.value| == |rows| && forall i :: 0 <= i < |rows| ==> r.value[i] == Validate(rows[i]).value
    decreases |rows|
  {
    if |rows| == 0 then Some([])
    else
      var rest := ValidateAll(rows[1..]);
      assert forall i :: 1 <= i < |rows| ==> rows[1..][i - 1] == rows[i];
      if Validate(rows[0]).None? || rest.None? then None
      else Some([Validate(rows[0]).value] + rest.value)
  }

  /**
   * The error response for an exception: the unregistered auth key, a
   * flood wait with the seconds to wait, an RPC error with its code, a
   * `RuntimeError` with its own text and no code, anything else as
   * `UNKNOWN` with its text.
   */
  function ErrorFor(e: Exc): (r: Response)
    ensures r.ErrorResponse?
    ensures e.AuthKeyUnregistered? ==>
      r == ErrorResponse("Authentication expired. Please re-authenticate via CLI or GUI.", Some("AUTH_KEY_UNREGISTERED"), None, None)
    ensures e.FloodWait? ==>
      && r.code == Some("FLOOD_WAIT") && r.retryAfter == Some(e.seconds) && r.rpcCode.None?
      && r.error == "Rate limited by Telegram. Retry after " + IntToString(e.seconds) + " seconds."
    ensures e.Rpc? ==> r == ErrorResponse("Telegram API error: " + e.message, Some("RPC_ERROR"), None, e.code)
    ensures e.Runtime? ==> r == ErrorResponse(e.text, None, None, None)
    ensures e.Other? ==> r == ErrorResponse(e.text, Some("UNKNOWN"), None, None)
  {
    match e
    case AuthKeyUnregistered(_) =>
      ErrorResponse("Authentication expired. Please re-authenticate via CLI or GUI.", Some("AUTH_KEY_UNREGISTERED"), None, None)
    case FloodWait(seconds, _) =>
      ErrorResponse("Rate limited by Telegram. Retry after " + IntToString(seconds) + " seconds.", Some("FLOOD_WAIT"), Some(seconds), None)
    case Rpc(message, code, _) => ErrorResponse("Telegram API error: " + message, Some("RPC_ERROR"), None, code)
    case Runtime(text) => ErrorResponse(text, None, None, None)
    case Other(text) => ErrorResponse(text, Some("UNKNOWN"), None, None)
  }

  /** The message `record_error` is given: every exception's text but a `RuntimeError`'s, which is not recorded. */
  function Recorded(e: Exc): (r: Option<string>)
    ensures r.None? <==> e.Runtime?
    ensures r.Some? ==> r.value == e.text
  {
    if e.Runtime? then None else Some(e.text)
  }

  /** What the fetch comes to: the response, and the message recorded as an error, if any. */
  function Respond(outcome: Result<seq<Row>, Exc>): (r: (Response, Option<string>))
    ensures outcome.Failure? ==> r == (ErrorFor(outcome.error), Recorded(outcome.error))
    ensures outcome.Success? && ValidateAll(outcome.value).Some? ==> r == (MessagesResponse(ValidateAll(outcome.value).value), None)
    ensures outcome.Success? && ValidateAll(outcome.value).None? ==> r == (ErrorFor(Invalid), Recorded(Invalid))
  {
    match outcome
    case Failure(e) => (ErrorFor(e), Recorded(e))
    case Success(rows) =>
      match ValidateAll(rows)
      case Some(ms) => (MessagesResponse(ms), None)
      case None => (ErrorFor(Invalid), Recorded(Invalid))
  }

  /**
   * `telegram_get_messages` once it has the manager: not connected, a
   * window end that does not parse, or what the fetch comes to. With
   * `viaExecute` the fetch is `manager.execute(...)` as the handler
   * calls it; without, `_fetch_messages` is called on the manager's
   * downloader directly.
   */
  function Answer(connected: bool, downloader: Option<McpConnection.Downloader>, chat: string,
                  minText: string, maxText: Option<string>, limit: int, viaExecute: bool, now: int,
                  parse: Iso, day: int -> string, download: Download, names: Value -> string): (Response, Option<string>)
  {
    if !connected then (ErrorResponse("Not connected to Telegram", None, None, None), None)
    else
      match MinBound(minText, parse)
      case Failure(m) => (ErrorResponse(m, None, None, None), None)
      case Success(lo) =>
        match MaxBound(maxText, now, parse)
        case Failure(m) => (ErrorResponse(m, None, None, None), None)
        case Success(hi) =>
          if viaExecute then Respond(Failure(NoExecute))
          else if downloader.None? then Respond(Failure(NoAttribute(Null, "client")))
          else Respond(Fetched(downloader.value.client.Some?, FetchRequest(chat, lo, hi, limit, day), lo, hi, download, parse, names))
  }

  /**
   * A disconnected manager, or a window end that does not parse, gives an
   * error response without a code before anything is fetched, and nothing
   * is recorded.
   */
  lemma RefusedBeforeFetch(connected: bool, downloader: Option<McpConnection.Downloader>, chat: string,
                           minText: string, maxText: Option<string>, limit: int, viaExecute: bool, now: int,
                           parse: Iso, day: int -> string, download: Download, names: Value -> string)
    requires !connected || parse(minText).Failure? || (maxText.Some? && parse(maxText.value).Failure?)
    ensures var r := Answer(connected, downloader, chat, minText, maxText, limit, viaExecute, now, parse, day, download, names);
      && r.1.None? && r.0.ErrorResponse? && r.0.code.None?
      && (!connected ==> r.0.error == "Not connected to Telegram")
      && (connected && parse(minText).Failure? ==> r.0.error == "Invalid min_datetime format: " + parse(minText).error)
      && (connected && parse(minText).Success? ==> r.0.error == "Invalid max_datetime format: " + parse(maxText.value).error)
  {
  }

  /**
   * As written, every request that gets past the window ends in the
   * `AttributeError` of the missing `execute`: an `UNKNOWN` error response,
   * recorded, whatever the chat holds.
   */
  lemma AsWrittenAlwaysUnknown(downloader: Option<McpConnection.Downloader>, chat: string,
                               minText: string, maxText: Option<string>, limit: int, now: int,
                               parse: Iso, day: int -> string, download: Download, names: Value -> string)
    requires parse(minText).Success? && (maxText.Some? ==> parse(maxText.value).Success?)
    ensures Answer(true, downloader, chat, minText, maxText, limit, true, now, parse, day, download, names)
      == (ErrorResponse("'TelegramConnectionManager' object has no attribute 'execute'", Some("UNKNOWN"), None, None),
          Some("'TelegramConnectionManager' object has no attribute 'execute'"))
  {
  }

  /**
   * With the fetch called directly, a request that gets past the window
   * and whose download returns messages of which none raises answers with
   * one message per record kept, each undated or inside the window; a
   * manager without a client answers `Not authenticated`, unrecorded.
   */
  lemma CorrectedAnswers(d: McpConnection.Downloader, chat: string,
                         minText: string, maxText: Option<string>, limit: int, now: int,
                         parse: Iso, day: int -> string, download: Download, names: Value -> string)
    requires MinBound(minText, parse).Success? && MaxBound(maxText, now, parse).Success?
    ensures var r := Answer(true, Some(d), chat, minText, maxText, limit, false, now, parse, day, download, names);
      d.client.None? ==> r == (ErrorResponse("Not authenticated", None, None, None), None)
    ensures var lo := MinBound(minText, parse).value;
      var hi := MaxBound(maxText, now, parse).value;
      var req := FetchRequest(chat, lo, hi, limit, day);
      var r := Answer(true, Some(d), chat, minText, maxText, limit, false, now, parse, day, download, names);
      d.client.Some? && download(req).Success? && Projected(download(req).value, Processor(lo, hi, parse, names)).Success?
      && ValidateAll(Projected(download(req).value, Processor(lo, hi, parse, names)).value).Some? ==>
        && r.1.None? && r.0.MessagesResponse?
        && |r.0.messages| == |Projected(download(req).value, Processor(lo, hi, parse, names)).value| <= |download(req).value|
        && forall k :: 0 <= k < |r.0.messages| ==>
             var row := Projected(download(req).value, Processor(lo, hi, parse, names)).value[k];
             r.0.messages[k] == Validate(row).value && (!Truthy(row.date) || InWindow(row.date, lo, hi, parse))
  {
    var lo := MinBound(minText, parse).value;
    var hi := MaxBound(maxText, now, parse).value;
    var req := FetchRequest(chat, lo, hi, limit, day);
    if d.client.Some? && download(req).Success? && Projected(download(req).value, Processor(lo, hi, parse, names)).Success? {
      var ms := download(req).value;
      var step := Processor(lo, hi, parse, names);
      ProjectedKeeps(ms, step);
      var rows := Projected(ms, step).value;
      forall k | 0 <= k < |rows| ensures !Truthy(rows[k].date) || InWindow(rows[k].date, lo, hi, parse) {
        assert rows[k] in rows;
        var i :| 0 <= i < |ms| && step(ms[i]) == Success(Some(rows[k]));
        ProcessContract(ms[i], lo, hi, parse, names);
      }
    }
  }

  // ---------------------------------------------------------------------------
  // The server
  // ---------------------------------------------------------------------------

  /** The module's globals: the connection manager, made on first use. */
  class Server {
    var manager: McpConnection.ConnectionManager?

    /** A manager, once there is one, is between calls. */
    predicate Valid()
      reads this, manager
    {
      manager != null ==> manager.Valid()
    }

    constructor()
      ensures Valid() && manager == null
    {
      manager := null;
    }

    /**
     * `_get_manager`: the manager there is, or a new one that tries once
     * to connect (`a`); a failed first connection is only logged.
     */
    method GetManager(a: McpConnection.Attempt, now: int) returns (m: McpConnection.ConnectionManager)
      requires Valid()
      modifies this
      ensures Valid() && manager == m
      ensures old(manager) != null ==> m == old(manager)
      ensures old(manager) == null ==>
        && fresh(m) && (m.IsConnected() <==> a.Opened?)
        && m.stats.errorCount == (if a.Opened? then 0 else 1) && m.stats.requestCount == 0
    {
      if manager == null {
        m := new McpConnection.ConnectionManager();
        var connected := m.Connect(a, now);
        manager := m;
      } else {
        m := manager;
      }
    }

    /**
     * `telegram_get_messages`: `a` is the first connection attempt when
     * the manager is made by this call, `now` the clock. The response is
     * what `Answer` gives on the manager's state, and the error it records
     * is added to the manager's statistics; nothing else changes.
     */
    method TelegramGetMessages(chat: string, minText: string, maxText: Option<string>, limit: int, viaExecute: bool,
                               a: McpConnection.Attempt, now: int, parse: Iso, day: int -> string,
                               download: Download, names: Value -> string)
      returns (resp: Response)
      requires Valid()
      modifies this, manager
      ensures Valid() && manager != null
      ensures old(manager) != null ==> manager == old(manager)
      ensures old(manager) == null ==> fresh(manager) && (manager.IsConnected() <==> a.Opened?)
      ensures var r := Answer(manager.IsConnected(), manager.downloader, chat, minText, maxText, limit, viaExecute,
                              now, parse, day, download, names);
        && resp == r.0
        && (old(manager) != null ==>
              manager.stats == if r.1.Some? then McpConnection.RecordedError(old(manager.stats), r.1.value, now) else old(manager.stats))
        && (old(manager) == null ==> manager.stats.errorCount == (if a.Opened? then 0 else 1) + (if r.1.Some? then 1 else 0))
      ensures old(manager) != null ==> manager.state == old(manager.state) && manager.downloader == old(manager.downloader)
    {
      var m := GetManager(a, now);
      var r: (Response, Option<string>);
      if !m.IsConnected() {
        r := (ErrorResponse("Not connected to Telegram", None, None, None), None);
      } else {
        var lo := MinBound(minText, parse);
        var hi := MaxBound(maxText, now, parse);
        if lo.Failure? {
          r := (ErrorResponse(lo.error, None, None, None), None);
        } else if hi.Failure? {
          r := (ErrorResponse(hi.error, None, None, None), None);
        } else if viaExecute {
          r := Respond(Failure(NoExecute));
        } else if m.downloader.None? {
          r := Respond(Failure(NoAttribute(Null, "client")));
        } else {
          var fetched := FetchMessages(m.downloader.value, chat, lo.value, hi.value, limit, day, download, parse, names);
          r := Respond(fetched);
        }
      }
      if r.1.Some? {
        m.RecordError(r.1.value, now);
      }
      resp := r.0;
    }
  }
}
