/**
 * The older single-file downloader, `telegram-download-chat.py`: nested
 * configuration lookup, the pickled snapshot checkpoint, its history loop,
 * the entity-name fallback, its TXT line format and the subchat filter of
 * its `--json` mode. Its `make_serializable` is the same recursion as the
 * package's and is `Messages.Serializable`.
 */
module Legacy {
  import opened Wrappers
  import opened Text
  import opened Json
  import opened Paths
  import Entities

  // ---------------------------------------------------------------------------
  // get_config_value
  // ---------------------------------------------------------------------------

  /** The value at the end of the key path, when every step is a dict holding the next key. */
  function Nested(config: Value, keys: seq<string>): Option<Value>
    decreases |keys|
  {
    if |keys| == 0 then Some(config)
    else if config.Obj? && keys[0] in Keys(config.fields) then Nested(Get(config.fields, keys[0]).value, keys[1..])
    else None
  }

  /** One more key: a dict found on the path is asked for it, anything else ends the lookup. */
  lemma {:induction false} NestedAppend(config: Value, keys: seq<string>, key: string)
    decreases |keys|
    ensures Nested(config, keys + [key]) ==
      match Nested(config, keys)
      case Some(Obj(fs)) => if key in Keys(fs) then Get(fs, key) else None
      case _ => None
  {
    if |keys| > 0 {
      assert (keys + [key])[0] == keys[0] && (keys + [key])[1..] == keys[1..] + [key];
      if config.Obj? && keys[0] in Keys(config.fields) {
        NestedAppend(Get(config.fields, keys[0]).value, keys[1..], key);
      }
    } else {
      assert keys + [key] == [key];
    }
  }

  /** What `get_config_value(config, *keys, default=default)` returns. */
  function ConfigValue(config: Value, keys: seq<string>, default: Value): Value
  {
    if Nested(config, keys).Some? then Nested(config, keys).value else default
  }

  /**
   * `get_config_value`: walks the keys through nested dicts and gives the
   * value found, or `default` as soon as a step is not a dict holding the
   * key; with no keys, the configuration itself.
   */
  method GetConfigValue(config: Value, keys: seq<string>, default: Value) returns (r: Value)
    ensures r == ConfigValue(config, keys, default)
    ensures keys == [] ==> r == config
  {
    var value := config;
    var i := 0;
    while i < |keys|
      invariant 0 <= i <= |keys|
      invariant Nested(config, keys) == Nested(value, keys[i..])
    {
      assert keys[i..][0] == keys[i] && keys[i..][1..] == keys[i + 1..];
      if value.Obj? && keys[i] in Keys(value.fields) {
        value := Get(value.fields, keys[i]).value;
      } else {
        return default;
      }
      i := i + 1;
    }
    assert keys[i..] == [];
    r := value;
  }

  // ---------------------------------------------------------------------------
  // The log level
  // ---------------------------------------------------------------------------

  /** `getattr(logging, name, logging.INFO)` for the level names `logging` defines. */
  function LevelNamed(name: string): (level: int)
    ensures name == "DEBUG" ==> level == 10
    ensures name == "INFO" ==> level == 20
  {
    if name == "CRITICAL" || name == "FATAL" then 50
    else if name == "ERROR" then 40
    else if name == "WARNING" || name == "WARN" then 30
    else if name == "DEBUG" then 10
    else if name == "NOTSET" then 0
    else 20
  }

  /** `getattr(logging, str(v).upper(), logging.INFO)`. */
  function LevelOf(v: Value): int
  {
    match PyStr(v)
    case Some(s) => LevelNamed(Upper(s))
    case None => 20
  }

  const LevelPath: seq<string> := ["settings", "logging", "log_level"]

  /** The level of the log file as written: `"INFO"` is passed as a fourth key, not as the default. */
  function LogLevelAsWritten(config: Value): int
  {
    LevelOf(ConfigValue(config, LevelPath + ["INFO"], Null))
  }

  /** The level of the log file with `"INFO"` as the default. */
  function LogLevel(config: Value): int
  {
    LevelOf(ConfigValue(config, LevelPath, Str("INFO")))
  }

  /** As written, a configured level name is never used: the lookup goes one key too deep and the level is always INFO. */
  lemma {:induction false} AsWrittenIgnoresLevel(config: Value, name: string)
    requires Nested(config, LevelPath) == Some(Str(name))
    ensures LogLevelAsWritten(config) == 20
  {
    NestedAppend(config, LevelPath, "INFO");
    assert Upper("None") == "NONE";
  }

  /** With the default in its place, the configured level name is the level, and a missing one is INFO. */
  lemma ConfiguredLevel(config: Value, name: string)
    ensures Nested(config, LevelPath) == Some(Str(name)) ==> LogLevel(config) == LevelNamed(Upper(name))
    ensures Nested(config, LevelPath).None? ==> LogLevel(config) == 20
  {
    assert Upper("INFO") == "INFO";
  }

  /** `log_level: debug` in the configuration: INFO as written, DEBUG as intended. */
  lemma DebugLevelExample(config: Value)
    requires Nested(config, LevelPath) == Some(Str("debug"))
    ensures LogLevelAsWritten(config) == 20 && LogLevel(config) == 10
  {
    AsWrittenIgnoresLevel(config, "debug");
    ConfiguredLevel(config, "debug");
    assert Upper("debug") == "DEBUG";
  }

  // ---------------------------------------------------------------------------
  // The snapshot checkpoint
  // ---------------------------------------------------------------------------

  /** `get_temp_file_path`: `.part` after the output's suffix. `None` is the `ValueError` for an empty name. */
  function TempPath(output: Path): (r: Option<Path>)
    ensures r.Some? <==> output.name != ""
    ensures r.Some? ==> r.value == Path(output.dir, output.name + ".part")
  {
    var suffix := Suffix(output.name) + ".part";
    if output.name == "" then WithSuffix(output, suffix)
    else
      WithSuffixName(output, suffix);
      assert Stem(output.name) + suffix == (Stem(output.name) + Suffix(output.name)) + ".part";
      WithSuffix(output, suffix)
  }

  /** A message as the old script keeps it: its id and the rest of its `to_dict()`, which is what a snapshot stores of it. */
  datatype Message = Message(id: int, data: Value)

  /** A pickled snapshot: unreadable, or the `to_dict()` records of the messages saved. */
  datatype Snapshot = Unreadable | Records(records: seq<Message>)

  type Files = map<Path, Snapshot>

  /**
   * `Message._new(None, msg_data, None, None)` on one saved record: the
   * message rebuilt, or `None` where it raises and the record is skipped.
   * It is Telethon's and is a parameter here.
   */
  type Rebuild = Message -> Option<Message>

  /** A rebuild that gives back every saved message as it was. */
  ghost predicate Faithful(rebuild: Rebuild)
  {
    forall m :: rebuild(m) == Some(m)
  }

  /** `save_partial_messages`: the file is overwritten with the whole current list. */
  function SaveSnapshot(files: Files, messages: seq<Message>, temp: Path): Files
  {
    files[temp := Records(messages)]
  }

  /** Each saved record passed through `rebuild`, in order. */
  function Rebuilt(records: seq<Message>, rebuild: Rebuild): seq<Option<Message>>
  {
    seq(|records|, i requires 0 <= i < |records| => rebuild(records[i]))
  }

  /** The records `Message._new` accepts, in order. */
  function Accepted(records: seq<Option<Message>>): (r: seq<Message>)
    ensures |r| <= |records|
    ensures forall m :: m in r ==> Some(m) in records
  {
    if |records| == 0 then []
    else
      var rest := Accepted(records[1..]);
      assert forall m :: Some(m) in records[1..] ==> Some(m) in records;
      (if records[0].Some? then [records[0].value] else []) + rest
  }

  /**
   * `load_partial_messages`: no file, or one that cannot be unpickled,
   * gives `([], 0)`; otherwise the accepted records and the id of the last
   * of them (0 when none is accepted).
   */
  function LoadSnapshot(files: Files, temp: Path, rebuild: Rebuild): (r: (seq<Message>, int))
    ensures r.0 == [] ==> r.1 == 0
    ensures r.0 != [] ==> r.1 == r.0[|r.0| - 1].id
  {
    if temp !in files || files[temp].Unreadable? then ([], 0)
    else
      var ms := Accepted(Rebuilt(files[temp].records, rebuild));
      (ms, if ms == [] then 0 else ms[|ms| - 1].id)
  }

  lemma {:induction false} AcceptedAll(ms: seq<Message>)
    ensures Accepted(seq(|ms|, i requires 0 <= i < |ms| => Some(ms[i]))) == ms
  {
    var rs := seq(|ms|, i requires 0 <= i < |ms| => Some(ms[i]));
    if |ms| > 0 {
      assert rs[1..] == seq(|ms[1..]|, i requires 0 <= i < |ms[1..]| => Some(ms[1..][i]));
      AcceptedAll(ms[1..]);
      assert ms == [ms[0]] + ms[1..];
    }
  }

  /**
   * Loading what was saved gives back at most as many messages, each
   * rebuilt from a saved record; when the rebuild gives every message back
   * as it was, it is the list itself, with the last message's id as the
   * resume point.
   */
  lemma SnapshotRoundTrip(files: Files, messages: seq<Message>, temp: Path, rebuild: Rebuild)
    ensures var loaded := LoadSnapshot(SaveSnapshot(files, messages, temp), temp, rebuild).0;
      |loaded| <= |messages| && forall m :: m in loaded ==> exists k :: 0 <= k < |messages| && rebuild(messages[k]) == Some(m)
    ensures Faithful(rebuild) ==>
      LoadSnapshot(SaveSnapshot(files, messages, temp), temp, rebuild) ==
        (messages, if messages == [] then 0 else messages[|messages| - 1].id)
  {
    var rs := Rebuilt(messages, rebuild);
    assert forall m :: Some(m) in rs ==> exists k :: 0 <= k < |messages| && rebuild(messages[k]) == Some(m);
    if Faithful(rebuild) {
      assert rs == seq(|messages|, i requires 0 <= i < |messages| => Some(messages[i]));
      AcceptedAll(messages);
    }
  }

  // ---------------------------------------------------------------------------
  // fetch_history
  // ---------------------------------------------------------------------------

  /** What one history request gives: a page of messages, or a flood-wait error. */
  datatype Reply = Page(messages: seq<Message>) | FloodWait(seconds: int)

  function Ids(ms: seq<Message>): set<int>
  {
    set m | m in ms :: m.id
  }

  /** The page's messages whose id is not among those already gathered, in page order. */
  function NewMessages(page: seq<Message>, all: seq<Message>): seq<Message>
  {
    if |page| == 0 then []
    else (if page[0].id !in Ids(all) then [page[0]] else []) + NewMessages(page[1..], all)
  }

  /** A message is new exactly when it is on the page and its id is not gathered yet. */
  lemma {:induction false} NewMessagesSpec(page: seq<Message>, all: seq<Message>)
    ensures |NewMessages(page, all)| <= |page|
    ensures forall m :: m in NewMessages(page, all) <==> m in page && m.id !in Ids(all)
  {
    if |page| > 0 {
      NewMessagesSpec(page[1..], all);
      assert forall m :: m in page <==> m == page[0] || m in page[1..];
    }
  }

  /** The smallest id of a non-empty list. */
  function MinId(ms: seq<Message>): int
    requires ms != []
  {
    if |ms| == 1 then ms[0].id
    else
      var rest := MinId(ms[1..]);
      if ms[0].id <= rest then ms[0].id else rest
  }

  /** `MinId` is one of the ids, and no id is smaller. */
  lemma {:induction false} MinIdSpec(ms: seq<Message>)
    requires ms != []
    ensures MinId(ms) in Ids(ms)
    ensures forall m :: m in ms ==> MinId(ms) <= m.id
  {
    if |ms| > 1 {
      MinIdSpec(ms[1..]);
      assert forall m :: m in ms ==> m == ms[0] || m in ms[1..];
      assert ms[1..][0] in ms;
      assert forall m :: m in ms[1..] ==> m in ms;
    }
  }

  /** The sleeps of the flood-waits among the replies: one second more than asked. */
  function Waits(replies: seq<Reply>): (r: seq<int>)
    ensures |r| <= |replies|
  {
    if |replies| == 0 then []
    else (if replies[0].FloodWait? then [replies[0].seconds + 1] else []) + Waits(replies[1..])
  }

  lemma WaitsAppend(replies: seq<Reply>, reply: Reply)
    ensures Waits(replies + [reply]) == Waits(replies) + (if reply.FloodWait? then [reply.seconds + 1] else [])
  {
    if |replies| > 0 {
      assert (replies + [reply])[1..] == replies[1..] + [reply];
      WaitsAppend(replies[1..], reply);
    } else {
      assert replies + [reply] == [reply];
    }
  }

  /** The messages a download resumes from, and the cursor it starts at. */
  function Resume(files: Files, temp: Option<Path>, rebuild: Rebuild): (r: (seq<Message>, int))
    ensures r.0 == [] ==> r.1 == 0
  {
    if temp.None? then ([], 0) else LoadSnapshot(files, temp.value, rebuild)
  }

  /** The loop's variables: the list, the snapshot files, the sleeps so far, the cursor, the replies read, and whether it stopped. */
  datatype State = State(all: seq<Message>, files: Files, slept: seq<int>, offset: int, read: nat, stopped: bool)

  /** The snapshot files after saving `all` when partial saves are on and `save` holds. */
  function SaveIf(files: Files, all: seq<Message>, temp: Option<Path>, save: bool): Files
  {
    if temp.Some? && save then SaveSnapshot(files, all, temp.value) else files
  }

  /** One turn of the `while True` loop on the next reply. */
  function Step(reply: Reply, limit: int, temp: Option<Path>, due: nat -> bool, s: State): State
  {
    match reply
    case FloodWait(seconds) =>
      State(s.all, SaveIf(s.files, s.all, temp, s.all != []), s.slept + [seconds + 1], s.offset, s.read + 1, false)
    case Page(page) =>
      var added := NewMessages(page, s.all);
      var all := s.all + added;
      if added == [] then State(all, s.files, s.slept, s.offset, s.read + 1, true)
      else State(all, SaveIf(s.files, all, temp, due(s.read) || |page| < limit), s.slept, MinId(added), s.read + 1, false)
  }

  /** The loop run to its end: until it stops or the replies run out. */
  function Loop(replies: seq<Reply>, limit: int, temp: Option<Path>, due: nat -> bool, s: State): State
    decreases |replies| - s.read
  {
    if s.read >= |replies| || s.stopped then s
    else Loop(replies, limit, temp, due, Step(replies[s.read], limit, temp, due, s))
  }

  /** `fetch_history`: resume, loop, and save the snapshot once more when there is anything to save. */
  function Fetch(replies: seq<Reply>, limit: int, temp: Option<Path>, files: Files, due: nat -> bool, rebuild: Rebuild): State
  {
    var resumed := Resume(files, temp, rebuild);
    var s := Loop(replies, limit, temp, due, State(resumed.0, files, [], resumed.1, 0, false));
    s.(files := SaveIf(s.files, s.all, temp, s.all != []))
  }

  /** Files that differ from `files` at most in the snapshot file. */
  ghost predicate SameElsewhere(files: Files, other: Files, temp: Path)
  {
    forall p :: p != temp ==> (p in other <==> p in files) && (p in files ==> other[p] == files[p])
  }

  /**
   * A flood-wait retries the same request: nothing is gathered, the cursor
   * stays, the sleep is one second longer than asked, and the gathered list
   * is saved first when there is one.
   */
  lemma FloodWaitRetries(seconds: int, limit: int, temp: Option<Path>, due: nat -> bool, s: State, rebuild: Rebuild)
    ensures var r := Step(FloodWait(seconds), limit, temp, due, s);
      && r.all == s.all && r.offset == s.offset && !r.stopped
      && r.slept == s.slept + [seconds + 1]
      && (Faithful(rebuild) && temp.Some? && s.all != [] ==> LoadSnapshot(r.files, temp.value, rebuild).0 == s.all)
      && (temp.None? || s.all == [] ==> r.files == s.files)
  {
    if temp.Some? {
      SnapshotRoundTrip(s.files, s.all, temp.value, rebuild);
    }
  }

  /**
   * A page adds the messages whose id is new, in page order; the loop
   * stops exactly when none is new, and otherwise the next request starts
   * at the smallest new id. The list is saved when the save is due or the
   * page came back short.
   */
  lemma PageAdvances(page: seq<Message>, limit: int, temp: Option<Path>, due: nat -> bool, s: State, rebuild: Rebuild)
    ensures var r := Step(Page(page), limit, temp, due, s);
      && r.all == s.all + NewMessages(page, s.all)
      && (r.stopped <==> forall m :: m in page ==> m.id in Ids(s.all))
      && (!r.stopped ==> r.offset in Ids(NewMessages(page, s.all)))
      && (!r.stopped ==> forall m :: m in page && m.id !in Ids(s.all) ==> r.offset <= m.id)
      && r.slept == s.slept
      && (Faithful(rebuild) && temp.Some? && !r.stopped && (due(s.read) || |page| < limit) ==>
            LoadSnapshot(r.files, temp.value, rebuild).0 == r.all)
      && (temp.None? || r.stopped || !(due(s.read) || |page| < limit) ==> r.files == s.files)
  {
    var added := NewMessages(page, s.all);
    NewMessagesSpec(page, s.all);
    if added != [] {
      assert added[0] in added;
      MinIdSpec(added);
      if temp.Some? {
        SnapshotRoundTrip(s.files, s.all + added, temp.value, rebuild);
      }
    }
  }

  /** The loop reads replies until the first that stops it, or all of them; an empty page always stops it. */
  lemma {:induction false} LoopEnds(replies: seq<Reply>, limit: int, temp: Option<Path>, due: nat -> bool, s: State)
    requires s.read <= |replies|
    decreases |replies| - s.read
    ensures var r := Loop(replies, limit, temp, due, s);
      && s.read <= r.read <= |replies|
      && (r.read < |replies| ==> r.stopped)
      && (s.stopped ==> r == s)
      && (forall j :: s.read <= j < r.read && replies[j] == Page([]) ==> j == r.read - 1 && r.stopped)
  {
    if s.read < |replies| && !s.stopped {
      var s1 := Step(replies[s.read], limit, temp, due, s);
      LoopEnds(replies, limit, temp, due, s1);
      if replies[s.read] == Page([]) {
        assert NewMessages([], s.all) == [];
        assert Loop(replies, limit, temp, due, s1) == s1;
      }
    }
  }

  lemma AppendTail<T>(a: seq<T>, b: seq<T>, c: seq<T>)
    ensures (a + b) + c == a + (b + c)
  {
  }

  /** `longer` is `shorter` followed only by messages whose id `shorter` does not have. */
  predicate Extends(shorter: seq<Message>, longer: seq<Message>)
  {
    |shorter| <= |longer| && longer[..|shorter|] == shorter
    && forall m :: m in longer[|shorter|..] ==> m.id !in Ids(shorter)
  }

  lemma ExtendsTrans(a: seq<Message>, b: seq<Message>, c: seq<Message>)
    requires Extends(a, b) && Extends(b, c)
    ensures Extends(a, c)
  {
    assert Ids(a) <= Ids(b) by {
      assert forall m :: m in a ==> m in b;
    }
    assert c[..|a|] == b[..|a|];
    assert forall m :: m in c[|a|..] ==> m in b[|a|..] || m in c[|b|..] by {
      assert c[|a|..] == b[|a|..] + c[|b|..];
    }
  }

  /** One turn only appends, and only messages whose id is new. */
  lemma StepGathers(reply: Reply, limit: int, temp: Option<Path>, due: nat -> bool, s: State)
    ensures Extends(s.all, Step(reply, limit, temp, due, s).all)
  {
    var s1 := Step(reply, limit, temp, due, s);
    if reply.Page? {
      var added := NewMessages(reply.messages, s.all);
      NewMessagesSpec(reply.messages, s.all);
      assert s1.all == s.all + added;
      assert s1.all[|s.all|..] == added;
    } else {
      assert s1.all[|s.all|..] == [];
    }
  }

  /** The loop only appends, and only messages whose id was not gathered before it. */
  lemma {:induction false} LoopGathers(replies: seq<Reply>, limit: int, temp: Option<Path>, due: nat -> bool, s: State)
    requires s.read <= |replies|
    decreases |replies| - s.read
    ensures Extends(s.all, Loop(replies, limit, temp, due, s).all)
  {
    if s.read < |replies| && !s.stopped {
      var s1 := Step(replies[s.read], limit, temp, due, s);
      LoopGathers(replies, limit, temp, due, s1);
      StepGathers(replies[s.read], limit, temp, due, s);
      ExtendsTrans(s.all, s1.all, Loop(replies, limit, temp, due, s1).all);
    } else {
      assert s.all[|s.all|..] == [];
    }
  }

  /** The loop sleeps once per flood-wait it reads, one second longer than asked. */
  lemma {:induction false} LoopSleeps(replies: seq<Reply>, limit: int, temp: Option<Path>, due: nat -> bool, s: State)
    requires s.read <= |replies|
    decreases |replies| - s.read
    ensures var r := Loop(replies, limit, temp, due, s);
      s.read <= r.read <= |replies| && r.slept == s.slept + Waits(replies[s.read..r.read])
  {
    if s.read < |replies| && !s.stopped {
      var reply := replies[s.read];
      var s1 := Step(reply, limit, temp, due, s);
      StepSleeps(reply, limit, temp, due, s);
      LoopSleeps(replies, limit, temp, due, s1);
      var r := Loop(replies, limit, temp, due, s1);
      var rest := replies[s1.read..r.read];
      var head := if reply.FloodWait? then [reply.seconds + 1] else [];
      assert replies[s.read..r.read] == [reply] + rest;
      WaitsCons(reply, rest);
      AppendTail(s.slept, head, Waits(rest));
    } else {
      assert replies[s.read..s.read] == [];
    }
  }

  lemma StepSleeps(reply: Reply, limit: int, temp: Option<Path>, due: nat -> bool, s: State)
    ensures var s1 := Step(reply, limit, temp, due, s);
      s1.read == s.read + 1 && s1.slept == s.slept + (if reply.FloodWait? then [reply.seconds + 1] else [])
  {
  }

  lemma WaitsCons(reply: Reply, rest: seq<Reply>)
    ensures Waits([reply] + rest) == (if reply.FloodWait? then [reply.seconds + 1] else []) + Waits(rest)
  {
    assert ([reply] + rest)[1..] == rest;
  }

  /** The loop writes no file but the snapshot, and that one only once something is gathered. */
  lemma {:induction false} LoopSaves(replies: seq<Reply>, limit: int, temp: Option<Path>, due: nat -> bool, s: State)
    requires s.read <= |replies|
    decreases |replies| - s.read
    ensures var r := Loop(replies, limit, temp, due, s);
      && (temp.None? || r.all == [] ==> r.files == s.files)
      && (temp.Some? ==> SameElsewhere(s.files, r.files, temp.value))
  {
    if s.read < |replies| && !s.stopped {
      var s1 := Step(replies[s.read], limit, temp, due, s);
      LoopSaves(replies, limit, temp, due, s1);
      LoopGathers(replies, limit, temp, due, s1);
      StepGathers(replies[s.read], limit, temp, due, s);
    }
  }

  /**
   * What `fetch_history` leaves behind: without partial saves no file is
   * touched; with them only the snapshot file, which then resumes exactly
   * the list returned (untouched when nothing was gathered). The list
   * starts with the resumed messages and adds only messages with new ids.
   */
  lemma FetchLeavesSnapshot(replies: seq<Reply>, limit: int, temp: Option<Path>, files: Files, due: nat -> bool, rebuild: Rebuild)
    ensures var f := Fetch(replies, limit, temp, files, due, rebuild);
      && (temp.None? ==> f.files == files)
      && (temp.Some? ==> SameElsewhere(files, f.files, temp.value))
      && (Faithful(rebuild) && temp.Some? && f.all != [] ==> Resume(f.files, temp, rebuild) == (f.all, f.all[|f.all| - 1].id))
      && (f.all == [] ==> f.files == files)
      && Extends(Resume(files, temp, rebuild).0, f.all)
  {
    var resumed := Resume(files, temp, rebuild);
    var s0 := State(resumed.0, files, [], resumed.1, 0, false);
    LoopSaves(replies, limit, temp, due, s0);
    LoopGathers(replies, limit, temp, due, s0);
    var s := Loop(replies, limit, temp, due, s0);
    var saved := SaveIf(s.files, s.all, temp, s.all != []);
    assert Fetch(replies, limit, temp, files, due, rebuild) == s.(files := saved);
    if temp.Some? {
      SaveIfElsewhere(s.files, s.all, temp.value, s.all != []);
      SameElsewhereTrans(files, s.files, saved, temp.value);
      if s.all != [] {
        SnapshotRoundTrip(s.files, s.all, temp.value, rebuild);
      }
    }
  }

  lemma SaveIfElsewhere(files: Files, all: seq<Message>, temp: Path, save: bool)
    ensures SameElsewhere(files, SaveIf(files, all, Some(temp), save), temp)
  {
  }

  lemma SameElsewhereTrans(a: Files, b: Files, c: Files, temp: Path)
    requires SameElsewhere(a, b, temp) && SameElsewhere(b, c, temp)
    ensures SameElsewhere(a, c, temp)
  {
  }

  /** `fetch_history` gathers the replies it reads up to where it stops, and sleeps for each flood-wait among them. */
  lemma FetchReads(replies: seq<Reply>, limit: int, temp: Option<Path>, files: Files, due: nat -> bool, rebuild: Rebuild)
    ensures var f := Fetch(replies, limit, temp, files, due, rebuild);
      && f.read <= |replies|
      && (f.read < |replies| ==> f.stopped)
      && (forall j :: 0 <= j < f.read && replies[j] == Page([]) ==> j == f.read - 1)
      && f.slept == Waits(replies[..f.read])
  {
    var resumed := Resume(files, temp, rebuild);
    var s0 := State(resumed.0, files, [], resumed.1, 0, false);
    LoopEnds(replies, limit, temp, due, s0);
    LoopSleeps(replies, limit, temp, due, s0);
  }

  /**
   * `fetch_history` against the `replies` the server gives in turn
   * (running out of them ends the loop like an empty page would); `temp`
   * is the snapshot file when partial saves are on, and `due(k)` says
   * whether five minutes have passed since the last save when reply `k`
   * arrives; `rebuild` turns a saved record back into a message. Returns
   * the messages, the snapshot files afterwards and the sleeps made.
   */
  method FetchHistory(replies: seq<Reply>, limit: int, temp: Option<Path>, files: Files, due: nat -> bool, rebuild: Rebuild)
    returns (all: seq<Message>, saved: Files, slept: seq<int>)
    ensures var f := Fetch(replies, limit, temp, files, due, rebuild); all == f.all && saved == f.files && slept == f.slept
  {
    var (start, offset) := Resume(files, temp, rebuild);
    all := start;
    saved := files;
    slept := [];
    var stopped := false;
    var i := 0;
    ghost var s0 := State(start, files, [], offset, 0, false);
    while i < |replies| && !stopped
      invariant i <= |replies|
      invariant Loop(replies, limit, temp, due, State(all, saved, slept, offset, i, stopped)) == Loop(replies, limit, temp, due, s0)
      decreases |replies| - i
    {
      ghost var before := State(all, saved, slept, offset, i, stopped);
      match replies[i] {
        case FloodWait(seconds) =>
          if temp.Some? && all != [] {
            saved := SaveSnapshot(saved, all, temp.value);
          }
          slept := slept + [seconds + 1];
          assert Step(replies[i], limit, temp, due, before) == State(all, saved, slept, offset, i + 1, stopped);
        case Page(page) =>
          var added := NewMessages(page, all);
          all := all + added;
          if added == [] {
            stopped := true;
          } else {
            offset := MinId(added);
            if temp.Some? && (due(i) || |page| < limit) {
              saved := SaveSnapshot(saved, all, temp.value);
            }
          }
          assert Step(replies[i], limit, temp, due, before) == State(all, saved, slept, offset, i + 1, stopped);
      }
      i := i + 1;
    }
    if temp.Some? && all != [] {
      saved := SaveSnapshot(saved, all, temp.value);
    }
  }

  // ---------------------------------------------------------------------------
  // save_messages_as_txt
  // ---------------------------------------------------------------------------

  /** `msg.get(key, default)`. */
  function GetOr(fields: Fields, key: string, default: Value): Value
  {
    Get(fields, key).GetOr(default)
  }

  /**
   * The sender the TXT writer finds: `from_id`, else `sender_id`. A dict
   * gives its `user_id`, `channel_id` or `chat_id`; anything else is
   * replaced by the `user_id` of `peer_id`. `None` is the `AttributeError`
   * of a `peer_id` that is present but not a dict.
   */
  function TxtSender(fields: Fields): Option<Value>
  {
    var sender := Or(Or(GetOr(fields, "from_id", Null), GetOr(fields, "sender_id", Null)), Str(""));
    if sender.Obj? then
      var inner := sender.fields;
      Some(Or(Or(Or(GetOr(inner, "user_id", Null), GetOr(inner, "channel_id", Null)), GetOr(inner, "chat_id", Null)), Str("")))
    else
      var peer := GetOr(fields, "peer_id", Obj([]));
      if peer.Obj? then Some(Or(GetOr(peer.fields, "user_id", Null), Str(""))) else None
  }

  /** `int(sender)`, or the sender itself when `int()` raises. */
  function SenderId(sender: Value): (r: Value)
    ensures r.Int? || r == sender
  {
    match PyInt(sender)
    case Some(n) => Int(n)
    case None => sender
  }

  /**
   * `users_map.get(sender_id, sender_id) if sender_id else ''`. `None` is the
   * `TypeError` of looking up a list or dict, which cannot be a key.
   */
  function SenderName(id: Value, users: map<Value, Value>): (r: Option<Value>)
    ensures !Truthy(id) ==> r == Some(Str(""))
    ensures Truthy(id) && !id.List? && !id.Obj? ==> r == Some(if id in users then users[id] else id)
  {
    if !Truthy(id) then Some(Str(""))
    else if id.List? || id.Obj? then None
    else Some(if id in users then users[id] else id)
  }

  /**
   * The date shown: empty for a missing or falsy date; a string is cut at
   * the first `+` and given to `reformat` (`fromisoformat` then
   * `strftime`), the raw value kept when that fails or the date is not a string.
   */
  function DateText(fields: Fields, reformat: string -> Option<string>): (r: Value)
    ensures !Truthy(GetOr(fields, "date", Str(""))) ==> r == Str("")
    ensures var date := GetOr(fields, "date", Str(""));
      Truthy(date) && date.Str? ==> r.Str? && (r == date || reformat(Split(date.s, '+')[0]) == Some(r.s))
    ensures var date := GetOr(fields, "date", Str("")); Truthy(date) && !date.Str? ==> r == date
  {
    var date := GetOr(fields, "date", Str(""));
    if !Truthy(date) then Str("")
    else if date.Str? then
      match reformat(Split(date.s, '+')[0])
      case Some(t) => Str(t)
      case None => date
    else date
  }

  /** `str(v)`: the text `PyStr` gives, else the one `other` gives for floats, lists and dicts. */
  function Show(v: Value, other: Value -> string): string
  {
    match PyStr(v)
    case Some(s) => s
    case None => other(v)
  }

  /** The text of a message, with `None` shown as the empty string. */
  function TextOf(fields: Fields): Value
  {
    var text := GetOr(fields, "message", Str(""));
    if text.Null? then Str("") else text
  }

  /**
   * One message as a TXT entry: `"date sender:\ntext\n\n"` when it has a
   * date or a sender name, `"text\n\n"` otherwise. `None` is an exception
   * the writer catches, skipping the message: one that is not a dict, or
   * whose sender cannot be found or looked up.
   */
  function Entry(msg: Value, users: map<Value, Value>, reformat: string -> Option<string>, other: Value -> string): Option<string>
  {
    if !msg.Obj? then None
    else
      var fields := msg.fields;
      var date := DateText(fields, reformat);
      match TxtSender(fields)
      case None => None
      case Some(sender) =>
        match SenderName(SenderId(sender), users)
        case None => None
        case Some(name) =>
          var body := Show(TextOf(fields), other) + "\n\n";
          if Truthy(date) || Truthy(name) then Some(Show(date, other) + " " + Show(name, other) + ":\n" + body)
          else Some(body)
  }

  /** The entry of each message, for the given `users_map` and formatting. */
  function EntryIn(users: map<Value, Value>, reformat: string -> Option<string>, other: Value -> string): Value -> Option<string>
  {
    msg => Entry(msg, users, reformat, other)
  }

  /** The TXT file the entries make, and the number of messages written. */
  function TxtFile(messages: seq<Value>, entry: Value -> Option<string>): (string, nat)
    decreases |messages|
  {
    if messages == [] then ("", 0)
    else
      var before := TxtFile(messages[..|messages| - 1], entry);
      match entry(messages[|messages| - 1])
      case Some(e) => (before.0 + e, before.1 + 1)
      case None => before
  }

  /** The loop of the writing pass: each message's entry in order, skipping those without one, and the count written. */
  method WriteEntries(messages: seq<Value>, entry: Value -> Option<string>) returns (text: string, saved: nat)
    ensures (text, saved) == TxtFile(messages, entry)
  {
    text := "";
    saved := 0;
    var i := 0;
    while i < |messages|
      invariant i <= |messages|
      invariant (text, saved) == TxtFile(messages[..i], entry)
    {
      assert messages[..i + 1] == messages[..i] + [messages[i]];
      TxtFileSnoc(messages[..i], messages[i], entry);
      match entry(messages[i]) {
        case Some(e) =>
          text := text + e;
          saved := saved + 1;
        case None =>
      }
      i := i + 1;
    }
    assert messages[..i] == messages;
  }

  /**
   * The writing pass of `save_messages_as_txt`: each message's entry in
   * order, skipping those that raise; returns the file's text and the
   * count of messages written. `users` is the `users_map` of the
   * configuration.
   */
  method SaveMessagesAsTxt(messages: seq<Value>, users: map<Value, Value>, reformat: string -> Option<string>, other: Value -> string)
    returns (text: string, saved: nat)
    ensures (text, saved) == TxtFile(messages, EntryIn(users, reformat, other))
  {
    text, saved := WriteEntries(messages, EntryIn(users, reformat, other));
  }

  /** One more message adds its entry, if it makes one. */
  lemma TxtFileSnoc(messages: seq<Value>, msg: Value, entry: Value -> Option<string>)
    ensures TxtFile(messages + [msg], entry) ==
      if entry(msg).Some? then (TxtFile(messages, entry).0 + entry(msg).value, TxtFile(messages, entry).1 + 1)
      else TxtFile(messages, entry)
  {
    var all := messages + [msg];
    assert all[..|all| - 1] == messages;
    assert all[|all| - 1] == msg;
  }

  /** At most every message is counted, and every one exactly when none raises. */
  lemma {:induction false} TxtCount(messages: seq<Value>, entry: Value -> Option<string>)
    decreases |messages|
    ensures TxtFile(messages, entry).1 <= |messages|
    ensures TxtFile(messages, entry).1 == |messages| <==> forall i :: 0 <= i < |messages| ==> entry(messages[i]).Some?
  {
    if messages != [] {
      var n := |messages| - 1;
      TxtCount(messages[..n], entry);
      assert forall i :: 0 <= i < n ==> messages[..n][i] == messages[i];
    }
  }

  /** Writing two lists one after the other writes their concatenation. */
  lemma {:induction false} TxtAppend(a: seq<Value>, b: seq<Value>, entry: Value -> Option<string>)
    decreases |b|
    ensures TxtFile(a + b, entry) == (TxtFile(a, entry).0 + TxtFile(b, entry).0, TxtFile(a, entry).1 + TxtFile(b, entry).1)
  {
    if b == [] {
      assert a + b == a;
      assert TxtFile(a, entry).0 + "" == TxtFile(a, entry).0;
    } else {
      var n := |b| - 1;
      TxtAppend(a, b[..n], entry);
      assert (a + b)[..|a + b| - 1] == a + b[..n];
      assert (a + b)[|a + b| - 1] == b[n];
      var ta := TxtFile(a, entry).0;
      var tb := TxtFile(b[..n], entry).0;
      if entry(b[n]).Some? {
        assert (ta + tb) + entry(b[n]).value == ta + (tb + entry(b[n]).value);
      }
    }
  }

  /** A message that is not a dict is skipped. */
  lemma NonDictSkipped(msg: Value, users: map<Value, Value>, reformat: string -> Option<string>, other: Value -> string)
    requires !msg.Obj?
    ensures Entry(msg, users, reformat, other).None?
  {
  }

  /** A message with no date and no sender is just its text. */
  lemma BareEntry(fields: Fields, users: map<Value, Value>, reformat: string -> Option<string>, other: Value -> string)
    requires !Truthy(GetOr(fields, "date", Str(""))) && TxtSender(fields) == Some(Str(""))
    ensures Entry(Obj(fields), users, reformat, other) == Some(Show(TextOf(fields), other) + "\n\n")
  {
    assert PyInt(Str("")) == None by {
      assert Strip("") == "";
    }
    assert SenderName(SenderId(Str("")), users) == Some(Str(""));
  }

  /** Every entry ends with the message's text and a blank line. */
  lemma EntryEndsWithText(msg: Value, users: map<Value, Value>, reformat: string -> Option<string>, other: Value -> string)
    requires Entry(msg, users, reformat, other).Some?
    ensures EndsWith(Entry(msg, users, reformat, other).value, Show(TextOf(msg.fields), other) + "\n\n")
  {
    var fields := msg.fields;
    var body := Show(TextOf(fields), other) + "\n\n";
    var date := DateText(fields, reformat);
    var name := SenderName(SenderId(TxtSender(fields).value), users).value;
    if Truthy(date) || Truthy(name) {
      ConcatEndsWith(Show(date, other) + " " + Show(name, other) + ":\n", body);
    } else {
      ConcatEndsWith("", body);
    }
  }

  lemma ConcatEndsWith(head: string, tail: string)
    ensures EndsWith(head + tail, tail)
  {
    assert (head + tail)[|head|..] == tail;
  }

  /** A sender that is not a dict is replaced by `peer_id.user_id`, whatever it was. */
  lemma NonDictSenderUsesPeer(fields: Fields, user: Value)
    requires !Or(GetOr(fields, "from_id", Null), GetOr(fields, "sender_id", Null)).Obj?
    requires Get(fields, "peer_id") == Some(Obj([("user_id", user)]))
    ensures TxtSender(fields) == Some(Or(user, Str("")))
  {
    assert Get([("user_id", user)], "user_id") == Some(user);
  }

  /** A user id known to `users_map` is shown by its mapped name in the header. */
  lemma KnownUserNamed(fields: Fields, n: int, users: map<Value, Value>, reformat: string -> Option<string>, other: Value -> string)
    requires n != 0 && TxtSender(fields) == Some(Int(n)) && Int(n) in users && Truthy(users[Int(n)])
    ensures Entry(Obj(fields), users, reformat, other) ==
      Some(Show(DateText(fields, reformat), other) + " " + Show(users[Int(n)], other) + ":\n" + (Show(TextOf(fields), other) + "\n\n"))
  {
    assert SenderName(SenderId(Int(n)), users) == Some(users[Int(n)]);
  }

  // ---------------------------------------------------------------------------
  // get_entity_name and the output name
  // ---------------------------------------------------------------------------

  /**
   * The old `get_entity_name`: `"chat_history"` for an empty identifier;
   * the entity's name stripped and sanitised when `client.get_entity`
   * finds it (`entity`) and naming it does not raise; the name derived from
   * the identifier otherwise.
   */
  function LegacyEntityName(chat: string, entity: Option<Entities.Entity>): (r: string)
    ensures Entities.IsSafeName(r)
  {
    if chat == "" then
      var d := "chat_history";
      assert forall i :: 0 <= i < |d| ==> Entities.IsSafeChar(d[i]);
      d
    else if entity.Some? && Entities.RawName(entity.value).Some? then
      Entities.OrDefaultSafe(Strip(Entities.RawName(entity.value).value));
      Entities.OrDefault(Entities.Sanitize(Strip(Entities.RawName(entity.value).value)))
    else
      FallbackSafe(chat);
      Entities.FallbackName(Str(chat)).value
  }

  lemma FallbackSafe(chat: string)
    ensures Entities.FallbackName(Str(chat)).Some? && Entities.IsSafeName(Entities.FallbackName(Str(chat)).value)
  {
    var c :=
      if StartsWith(chat, "@") then chat[1..]
      else if Contains(chat, "//") then
        var last := Entities.LastSegment(chat);
        if StartsWith(last, "+") then "invite_" + last[1..] else last
      else chat;
    Entities.OrDefaultSafe(c);
  }

  /**
   * The old name agrees with the package's `get_entity_name` whenever the
   * entity is found; where the package gives `None` for an entity that is
   * not found, the old one falls back to the identifier's name.
   */
  lemma LegacyAgreesWhenFound(chat: string, entity: Option<Entities.Entity>)
    ensures chat == "" || entity.Some? ==> Entities.EntityName(Str(chat), entity) == Some(Entities.Named(LegacyEntityName(chat, entity)))
    ensures chat != "" && entity.None? ==>
      Entities.EntityName(Str(chat), entity) == Some(Entities.NotFound) && LegacyEntityName(chat, entity) == Entities.FallbackName(Str(chat)).value
  {
    if chat == "" {
      assert !Truthy(Str(chat));
    } else {
      assert Truthy(Str(chat));
      if entity.Some? && Entities.RawName(entity.value).None? {
        FallbackSafe(chat);
      }
    }
  }

  /** The output `main` writes to: `chat_history.json` with a chat given is renamed after the entity, in the same directory. */
  function OutputPath(output: Path, chat: string, entity: Option<Entities.Entity>): (r: Path)
    ensures r.dir == output.dir
    ensures output.name == "chat_history.json" && chat != "" ==> r.name == LegacyEntityName(chat, entity) + ".json"
    ensures output.name != "chat_history.json" || chat == "" ==> r == output
  {
    if output.name == "chat_history.json" && chat != "" then Path(output.dir, LegacyEntityName(chat, entity) + ".json")
    else output
  }

  // ---------------------------------------------------------------------------
  // The --json --subchat mode
  // ---------------------------------------------------------------------------

  /** The JSON file the `--json` mode reads: the output with `.json` as its suffix. `None` is the `ValueError` of an empty name. */
  function JsonInput(output: Path): (r: Option<Path>)
    ensures r.Some? <==> output.name != ""
    ensures r.Some? ==> r.value.dir == output.dir
  {
    if Suffix(output.name) == ".json" then Some(output) else WithSuffix(output, ".json")
  }

  /** The file read always has the suffix `.json`, and an output that has it is read as it is. */
  lemma JsonInputSuffix(output: Path)
    requires output.name != ""
    ensures Suffix(JsonInput(output).value.name) == ".json"
    ensures Suffix(output.name) == ".json" ==> JsonInput(output) == Some(output)
  {
    if Suffix(output.name) != ".json" {
      assert "." + "json" == ".json";
      WithDottedSuffix(output, "json");
    }
  }

  /** `json_path.with_name(f"{json_path.stem}_subchat_{subchat_id}.json")`. */
  function SubchatOutput(input: Path, subchat: string): (r: Path)
    ensures r.dir == input.dir
    ensures r.name == Stem(input.name) + "_subchat_" + subchat + ".json"
  {
    Path(input.dir, Stem(input.name) + "_subchat_" + subchat + ".json")
  }

  /**
   * A reply id against the `--subchat` text: `asWritten` compares the value
   * with the string itself, as the script does; otherwise an integer or
   * string id is compared by its text.
   */
  predicate SameReply(id: Option<Value>, subchat: string, asWritten: bool)
  {
    if asWritten then id == Some(Str(subchat))
    else id.Some? && (id.value.Int? || id.value.Str?) && PyStr(id.value) == Some(subchat)
  }

  /**
   * Whether the loop keeps `msg`: its `reply_to` (a dict when missing)
   * replies to the subchat by `reply_to_msg_id` or `reply_to_top_id`.
   * `None` is the `AttributeError` of a message or `reply_to` that is not a dict.
   */
  function KeepsReply(msg: Value, subchat: string, asWritten: bool): Option<bool>
  {
    if !msg.Obj? then None
    else
      var replyTo := GetOr(msg.fields, "reply_to", Obj([]));
      if !replyTo.Obj? then None
      else Some(SameReply(Get(replyTo.fields, "reply_to_msg_id"), subchat, asWritten)
        || SameReply(Get(replyTo.fields, "reply_to_top_id"), subchat, asWritten))
  }

  /** The messages the subchat loop keeps, in order; `None` when one of them raises. */
  function SubchatFilter(messages: seq<Value>, subchat: string, asWritten: bool): Option<seq<Value>>
    decreases |messages|
  {
    if messages == [] then Some([])
    else
      var n := |messages| - 1;
      match SubchatFilter(messages[..n], subchat, asWritten)
      case None => None
      case Some(kept) =>
        match KeepsReply(messages[n], subchat, asWritten)
        case None => None
        case Some(keep) => Some(if keep then kept + [messages[n]] else kept)
  }

  /**
   * The subchat loop with the reply ids compared by their text: the
   * messages that reply to the subchat, in order. `None` when a message or
   * its `reply_to` is not a dict.
   */
  method FilterSubchat(messages: seq<Value>, subchat: string) returns (r: Option<seq<Value>>)
    ensures r == SubchatFilter(messages, subchat, false)
  {
    var filtered := [];
    var i := 0;
    while i < |messages|
      invariant i <= |messages|
      invariant SubchatFilter(messages[..i], subchat, false) == Some(filtered)
    {
      assert messages[..i + 1][..i] == messages[..i];
      var msg := messages[i];
      if !msg.Obj? {
        SubchatKeeps(messages, subchat, false);
        return None;
      }
      var replyTo := GetOr(msg.fields, "reply_to", Obj([]));
      if !replyTo.Obj? {
        SubchatKeeps(messages, subchat, false);
        return None;
      }
      if SameReply(Get(replyTo.fields, "reply_to_msg_id"), subchat, false)
        || SameReply(Get(replyTo.fields, "reply_to_top_id"), subchat, false)
      {
        filtered := filtered + [msg];
      }
      i := i + 1;
    }
    assert messages[..i] == messages;
    r := Some(filtered);
  }

  /** Both comparisons fail on the same messages, and keep exactly the messages that reply to the subchat, in order. */
  lemma {:induction false} SubchatKeeps(messages: seq<Value>, subchat: string, asWritten: bool)
    decreases |messages|
    ensures SubchatFilter(messages, subchat, asWritten).None? <==> exists i :: 0 <= i < |messages| && KeepsReply(messages[i], subchat, asWritten).None?
    ensures SubchatFilter(messages, subchat, asWritten).Some? ==>
      forall m :: m in SubchatFilter(messages, subchat, asWritten).value <==> m in messages && KeepsReply(m, subchat, asWritten) == Some(true)
  {
    if messages != [] {
      var n := |messages| - 1;
      SubchatKeeps(messages[..n], subchat, asWritten);
      assert messages == messages[..n] + [messages[n]];
      assert forall i :: 0 <= i < n ==> messages[..n][i] == messages[i];
    }
  }

  /** An id stored as a string. */
  predicate TextId(id: Option<Value>)
  {
    id.Some? && id.value.Str?
  }

  /** A message whose reply ids are not stored as strings (Telegram's `to_dict` stores integers). */
  predicate NumericReply(msg: Value)
  {
    msg.Obj? && var replyTo := GetOr(msg.fields, "reply_to", Obj([]));
    !(replyTo.Obj? && (TextId(Get(replyTo.fields, "reply_to_msg_id")) || TextId(Get(replyTo.fields, "reply_to_top_id"))))
  }

  /** As written, no message whose reply ids are stored as integers is ever kept: the `str` from the command line never equals an `int`. */
  lemma AsWrittenKeepsNone(messages: seq<Value>, subchat: string)
    requires forall i :: 0 <= i < |messages| ==> NumericReply(messages[i])
    ensures SubchatFilter(messages, subchat, true).Some? ==> SubchatFilter(messages, subchat, true).value == []
  {
    SubchatKeeps(messages, subchat, true);
  }

  /** A reply to message 1, filtered with `--subchat 1`: dropped as written, kept with the ids compared as text. */
  lemma SubchatExample()
    ensures var m := Obj([("id", Int(2)), ("reply_to", Obj([("reply_to_msg_id", Int(1))]))]);
      SubchatFilter([m], "1", true) == Some([]) && SubchatFilter([m], "1", false) == Some([m])
  {
    var reply := [("reply_to_msg_id", Int(1))];
    var m := Obj([("id", Int(2)), ("reply_to", Obj(reply))]);
    assert [m][..0] == [];
    assert GetOr(m.fields, "reply_to", Obj([])) == Obj(reply);
    assert Get(reply, "reply_to_msg_id") == Some(Int(1));
    assert Get(reply, "reply_to_top_id") == None;
    assert PyStr(Int(1)) == Some("1");
    assert KeepsReply(m, "1", true) == Some(false);
    assert KeepsReply(m, "1", false) == Some(true);
    assert SubchatFilter([], "1", true) == Some([]);
    assert SubchatFilter([], "1", false) == Some([]);
    assert SubchatFilter([m], "1", true) == Some([]);
    assert [] + [m] == [m];
  }
}
