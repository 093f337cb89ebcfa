/**
 * The MCP server's connection manager: a small state machine around the
 * Telegram client with counters for diagnostics.
 *
 * Opening the client (constructing the downloader, its context, and entering
 * the context) is an `Attempt` the caller supplies; the clock is a parameter
 * `now`, read as one instant for the whole of a call; `asyncio.sleep` is
 * recorded in `sleeps` instead of waited for.
 */
module McpConnection {
  import opened Wrappers
  import opened Json

  /** `ConnectionState`. */
  datatype ConnectionState = Disconnected | Connecting | Connected | Reconnecting | Error

  /** `ConnectionState.value`. */
  function StateValue(s: ConnectionState): string
  {
    match s
    case Disconnected => "disconnected"
    case Connecting => "connecting"
    case Connected => "connected"
    case Reconnecting => "reconnecting"
    case Error => "error"
  }

  /** The Telegram client: `connected` is what `is_connected()` returns, `None` when it raises. */
  datatype Client = Client(connected: Option<bool>)

  /** The downloader the manager holds; `client` is `None` when `downloader.client` is falsy. */
  datatype Downloader = Downloader(client: Option<Client>)

  /**
   * One try at opening the client: it opens, or it raises while constructing
   * the downloader, while constructing its context, or while entering the
   * context. The last two leave the new downloader in the manager.
   */
  datatype Attempt =
    | Opened(made: Downloader)
    | DownloaderFailed(message: string)
    | ContextFailed(made: Downloader, message: string)
    | EnterFailed(made: Downloader, message: string)

  /** `ConnectionStats`; instants are the clock's readings. */
  datatype Stats = Stats(
    connectedAt: Option<int>,
    lastRequestAt: Option<int>,
    requestCount: int,
    errorCount: int,
    reconnectCount: int,
    lastError: Option<string>,
    lastErrorAt: Option<int>)

  const NoStats := Stats(None, None, 0, 0, 0, None, None)

  /** What an exception does to the statistics: one more error, its text and its time. */
  function RecordedError(s: Stats, message: string, now: int): (r: Stats)
    ensures r.errorCount == s.errorCount + 1 && r.lastError == Some(message) && r.lastErrorAt == Some(now)
    ensures r.(errorCount := s.errorCount, lastError := s.lastError, lastErrorAt := s.lastErrorAt) == s
  {
    s.(errorCount := s.errorCount + 1, lastError := Some(message), lastErrorAt := Some(now))
  }

  /** `isoformat()` of an optional instant, `None` when absent. */
  function Stamp(t: Option<int>, iso: int -> string): Value
  {
    match t
    case None => Null
    case Some(x) => Str(iso(x))
  }

  /** `ConnectionStats.to_dict`; `iso` is `datetime.isoformat`. */
  function StatsDict(s: Stats, iso: int -> string): Value
  {
    Obj([
      ("connected_at", Stamp(s.connectedAt, iso)),
      ("last_request_at", Stamp(s.lastRequestAt, iso)),
      ("request_count", Int(s.requestCount)),
      ("error_count", Int(s.errorCount)),
      ("reconnect_count", Int(s.reconnectCount)),
      ("last_error", if s.lastError.Some? then Str(s.lastError.value) else Null),
      ("last_error_at", Stamp(s.lastErrorAt, iso))])
  }

  /** The keys before each counter's are other keys. */
  lemma StatsKeysDistinct()
    ensures "request_count" != "connected_at" && "request_count" != "last_request_at"
    ensures "error_count" != "connected_at" && "error_count" != "last_request_at" && "error_count" != "request_count"
    ensures "reconnect_count" != "connected_at" && "reconnect_count" != "last_request_at"
    ensures "reconnect_count" != "request_count" && "reconnect_count" != "error_count"
    ensures "last_error" != "connected_at" && "last_error" != "last_request_at" && "last_error" != "request_count"
    ensures "last_error" != "error_count" && "last_error" != "reconnect_count"
  {
  }

  /** Each counter and the last error can be read back from the dict under its own key. */
  lemma StatsDictFields(s: Stats, iso: int -> string)
    ensures Field(StatsDict(s, iso), "request_count") == Int(s.requestCount)
    ensures Field(StatsDict(s, iso), "error_count") == Int(s.errorCount)
    ensures Field(StatsDict(s, iso), "reconnect_count") == Int(s.reconnectCount)
    ensures Field(StatsDict(s, iso), "last_error") == if s.lastError.Some? then Str(s.lastError.value) else Null
  {
    StatsKeysDistinct();
    var d := StatsDict(s, iso);
    LaterKey(d.fields, 2);
    LaterKey(d.fields, 3);
    LaterKey(d.fields, 4);
    LaterKey(d.fields, 5);
  }

  /** `get` finds the entry at `i` of a seven-entry dict whose key differs from the keys before it. */
  lemma LaterKey(fs: Fields, i: nat)
    requires |fs| == 7 && 2 <= i <= 5
    requires fs[i].0 != fs[0].0 && fs[i].0 != fs[1].0
    requires i > 2 ==> fs[i].0 != fs[2].0
    requires i > 3 ==> fs[i].0 != fs[3].0
    requires i > 4 ==> fs[i].0 != fs[4].0
    ensures Get(fs, fs[i].0) == Some(fs[i].1)
  {
    GetFirst(fs, i);
  }

  const MaxReconnectAttempts: nat := 3
  const InitialBackoffSeconds: real := 1.0

  /** The number of the first attempt from `k` on, up to the last, that opens the client. */
  function FirstOpened(attempt: nat -> Attempt, k: nat): (r: Option<nat>)
    requires 1 <= k
    ensures r.Some? ==> k <= r.value <= MaxReconnectAttempts && attempt(r.value).Opened?
    ensures r.Some? ==> forall j :: k <= j < r.value ==> !attempt(j).Opened?
    ensures r.None? ==> forall j :: k <= j <= MaxReconnectAttempts ==> !attempt(j).Opened?
    decreases MaxReconnectAttempts + 1 - k
  {
    if k > MaxReconnectAttempts then None
    else if attempt(k).Opened? then Some(k)
    else FirstOpened(attempt, k + 1)
  }

  /** How many attempts of a reconnection fail. */
  function Failures(attempt: nat -> Attempt): nat
  {
    match FirstOpened(attempt, 1)
    case Some(k) => k - 1
    case None => MaxReconnectAttempts
  }

  /** `2 ** n`. */
  function Pow2(n: nat): real
  {
    if n == 0 then 1.0 else 2.0 * Pow2(n - 1)
  }

  /** The sleeps after `n` failed attempts: the backoff doubles, and the last attempt is not followed by one. */
  function Backoffs(n: nat): (r: seq<real>)
  {
    if n == 0 then []
    else Backoffs(n - 1) + (if n < MaxReconnectAttempts then [InitialBackoffSeconds * Pow2(n - 1)] else [])
  }

  /** One sleep per failed attempt but the last; the first lasts one second and each doubles the one before. */
  lemma {:induction false} BackoffSchedule(n: nat)
    ensures |Backoffs(n)| == if n < MaxReconnectAttempts then n else MaxReconnectAttempts - 1
    ensures |Backoffs(n)| > 0 ==> Backoffs(n)[0] == 1.0
    ensures forall i :: 0 < i < |Backoffs(n)| ==> Backoffs(n)[i] == 2.0 * Backoffs(n)[i - 1]
  {
    if n > 0 {
      BackoffSchedule(n - 1);
    }
  }

  /** Sleeping once more after attempt `n` extends the schedule to `n` failures. */
  lemma SleepStep(before: seq<real>, n: nat)
    requires 1 <= n < MaxReconnectAttempts
    ensures before + Backoffs(n - 1) + [InitialBackoffSeconds * Pow2(n - 1)] == before + Backoffs(n)
  {
    assert Backoffs(n) == Backoffs(n - 1) + [InitialBackoffSeconds * Pow2(n - 1)];
  }

  /** A full round of failures sleeps one second, then two. */
  lemma AllFailingSleeps()
    ensures Backoffs(MaxReconnectAttempts) == [1.0, 2.0]
  {
    assert Backoffs(1) == [1.0];
  }

  /** `TelegramConnectionManager`; the lock is left out with the rest of the concurrency. */
  class ConnectionManager {
    var state: ConnectionState
    var downloader: Option<Downloader>
    /** `_context is not None`. */
    var hasContext: bool
    var stats: Stats
    /** The seconds passed to `asyncio.sleep`, in order. */
    var sleeps: seq<real>

    /**
     * Between calls the state is never a transitional one; a disconnected
     * manager holds nothing and a connected one holds a downloader and its context.
     */
    predicate Valid()
      reads this
    {
      && state != Connecting && state != Reconnecting
      && (state == Disconnected ==> downloader.None? && !hasContext)
      && (state == Connected ==> downloader.Some? && hasContext)
    }

    /** `is_connected`. */
    predicate IsConnected()
      reads this
    {
      state == Connected
    }

    constructor()
      ensures Valid()
      ensures state == Disconnected && downloader == None && !hasContext && stats == NoStats && sleeps == []
    {
      state := Disconnected;
      downloader := None;
      hasContext := false;
      stats := NoStats;
      sleeps := [];
    }

    /** One try at opening the client, as `connect` and `_reconnect_internal` both make it. */
    method Open(a: Attempt, now: int)
      modifies this
      ensures a.Opened? ==> state == Connected && downloader == Some(a.made) && hasContext
      ensures a.Opened? ==> stats == old(stats).(connectedAt := Some(now))
      ensures !a.Opened? ==> state == old(state) && stats == RecordedError(old(stats), a.message, now)
      ensures (a.ContextFailed? || a.EnterFailed?) ==> downloader == Some(a.made)
      ensures a.DownloaderFailed? ==> downloader == old(downloader)
      ensures !a.Opened? ==> hasContext == (old(hasContext) || a.EnterFailed?)
      ensures sleeps == old(sleeps)
    {
      match a
      case Opened(d) =>
        downloader := Some(d);
        hasContext := true;
        state := Connected;
        stats := stats.(connectedAt := Some(now));
      case DownloaderFailed(message) =>
        stats := RecordedError(stats, message, now);
      case ContextFailed(d, message) =>
        downloader := Some(d);
        stats := RecordedError(stats, message, now);
      case EnterFailed(d, message) =>
        downloader := Some(d);
        hasContext := true;
        stats := RecordedError(stats, message, now);
    }

    /** `connect`. */
    method Connect(a: Attempt, now: int) returns (ok: bool)
      requires Valid()
      modifies this
      ensures Valid()
      ensures old(state) == Connected ==>
        ok && state == old(state) && downloader == old(downloader) && hasContext == old(hasContext) && stats == old(stats)
      ensures old(state) != Connected ==> (ok <==> a.Opened?)
      ensures old(state) != Connected && a.Opened? ==> stats == old(stats).(connectedAt := Some(now))
      ensures old(state) != Connected && !a.Opened? ==> state == Error && stats == RecordedError(old(stats), a.message, now)
      ensures ok <==> state == Connected
      ensures sleeps == old(sleeps)
    {
      if state == Connected {
        return true;
      }
      state := Connecting;
      Open(a, now);
      if a.Opened? {
        ok := true;
      } else {
        state := Error;
        ok := false;
      }
    }

    /** `_disconnect_internal`; an exception from leaving the context is logged and changes nothing else. */
    method Disconnect()
      modifies this
      ensures Valid()
      ensures state == Disconnected && downloader == None && !hasContext
      ensures stats == old(stats) && sleeps == old(sleeps)
    {
      if hasContext {
        hasContext := false;
      }
      downloader := None;
      state := Disconnected;
    }

    /** `_reconnect_internal`: up to three attempts, with a doubling sleep between two of them. */
    method Reconnect(attempt: nat -> Attempt, now: int) returns (ok: bool)
      modifies this
      ensures Valid()
      ensures stats.reconnectCount == old(stats.reconnectCount) + 1
      ensures stats.requestCount == old(stats.requestCount)
      ensures ok <==> FirstOpened(attempt, 1).Some?
      ensures ok <==> state == Connected
      ensures !ok ==> state == Error
      ensures ok ==> downloader == Some(attempt(FirstOpened(attempt, 1).value).made)
      ensures stats.errorCount == old(stats.errorCount) + Failures(attempt)
      ensures Failures(attempt) > 0 ==> stats.lastError == Some(attempt(Failures(attempt)).message)
      ensures sleeps == old(sleeps) + Backoffs(Failures(attempt))
    {
      state := Reconnecting;
      stats := stats.(reconnectCount := stats.reconnectCount + 1);
      ghost var counted := stats;
      Disconnect();
      var backoff := InitialBackoffSeconds;
      var n: nat := 1;
      while n <= MaxReconnectAttempts
        invariant 1 <= n <= MaxReconnectAttempts + 1
        invariant FirstOpened(attempt, 1) == FirstOpened(attempt, n)
        invariant state == Disconnected
        invariant stats.reconnectCount == counted.reconnectCount && stats.requestCount == counted.requestCount
        invariant stats.errorCount == counted.errorCount + n - 1
        invariant n > 1 ==> stats.lastError == Some(attempt(n - 1).message)
        invariant sleeps == old(sleeps) + Backoffs(n - 1)
        invariant n <= MaxReconnectAttempts ==> backoff == InitialBackoffSeconds * Pow2(n - 1)
      {
        var a := attempt(n);
        Open(a, now);
        if a.Opened? {
          assert FirstOpened(attempt, n) == Some(n);
          return true;
        }
        if n < MaxReconnectAttempts {
          SleepStep(old(sleeps), n);
          sleeps := sleeps + [backoff];
          assert Pow2(n) == 2.0 * Pow2(n - 1);
          backoff := backoff * 2.0;
        } else {
          assert Backoffs(n) == Backoffs(n - 1) + [];
        }
        n := n + 1;
      }
      state := Error;
      ok := false;
    }

    /** `health_check`: the client's own answer, and false without a downloader or a client or when asking raises. */
    function HealthCheck(): (healthy: bool)
      reads this
      ensures healthy ==> downloader.Some? && downloader.value.client.Some?
      ensures healthy <==> downloader.Some? && downloader.value.client.Some? && downloader.value.client.value.connected == Some(true)
    {
      match downloader
      case None => false
      case Some(d) =>
        match d.client
        case None => false
        case Some(c) => c.connected.GetOr(false)
    }

    /**
     * `ensure_connected`: a healthy connection is kept as it is, a broken one
     * or an error is reconnected, a disconnected manager connects with the
     * first attempt.
     */
    method EnsureConnected(attempt: nat -> Attempt, now: int) returns (ok: bool)
      requires Valid()
      modifies this
      ensures Valid()
      ensures ok <==> state == Connected
      ensures old(state) == Connected && old(HealthCheck()) ==>
        ok && state == old(state) && downloader == old(downloader) && stats == old(stats) && sleeps == old(sleeps)
      ensures (old(state) == Connected && !old(HealthCheck())) || old(state) == Error ==>
        stats.reconnectCount == old(stats.reconnectCount) + 1 && (ok <==> FirstOpened(attempt, 1).Some?)
        && sleeps == old(sleeps) + Backoffs(Failures(attempt))
      ensures old(state) == Disconnected ==>
        stats.reconnectCount == old(stats.reconnectCount) && (ok <==> attempt(1).Opened?) && sleeps == old(sleeps)
    {
      if state == Connected {
        if HealthCheck() {
          return true;
        }
        ok := Reconnect(attempt, now);
        return;
      }
      if state == Error {
        ok := Reconnect(attempt, now);
        return;
      }
      if state == Disconnected {
        ok := Connect(attempt(1), now);
        return;
      }
      ok := state == Connected;
    }

    /** `record_request`. */
    method RecordRequest(now: int)
      modifies this
      ensures stats == old(stats).(requestCount := old(stats.requestCount) + 1, lastRequestAt := Some(now))
      ensures state == old(state) && downloader == old(downloader) && hasContext == old(hasContext) && sleeps == old(sleeps)
    {
      stats := stats.(requestCount := stats.requestCount + 1, lastRequestAt := Some(now));
    }

    /** `record_error`. */
    method RecordError(message: string, now: int)
      modifies this
      ensures stats == RecordedError(old(stats), message, now)
      ensures state == old(state) && downloader == old(downloader) && hasContext == old(hasContext) && sleeps == old(sleeps)
    {
      stats := RecordedError(stats, message, now);
    }

    /** `get_status`: the client entry is `None` without a downloader or a client. */
    function Status(iso: int -> string): (r: Value)
      reads this
    {
      var client :=
        match downloader
        case None => Null
        case Some(d) =>
          match d.client
          case None => Null
          case Some(c) => Obj([("is_connected", Bool(c.connected.GetOr(false)))]);
      Obj([("state", Str(StateValue(state))), ("stats", StatsDict(stats, iso)), ("client", client)])
    }

    /** The status reports the state, and its client entry answers as the health check does. */
    lemma StatusAgreesWithHealth(iso: int -> string)
      ensures Field(Status(iso), "state") == Str(StateValue(state))
      ensures Field(Status(iso), "client") == Null <==> downloader.None? || downloader.value.client.None?
      ensures Field(Status(iso), "client") != Null ==> Field(Field(Status(iso), "client"), "is_connected") == Bool(HealthCheck())
    {
      var fs := Status(iso).fields;
      GetUnique(fs, 0);
      GetUnique(fs, 2);
      match downloader
      case None =>
      case Some(d) =>
        match d.client
        case None =>
        case Some(c) =>
          GetUnique(fs[2].1.fields, 0);
    }
  }
}
