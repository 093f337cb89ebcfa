/**
 * The command-line entry point: presets applied over the parsed options,
 * `--last-days` turned into `--until`, each chat dispatched to conversion,
 * folder download or chat download, the results flattened into an exit
 * code; `show_config`; and the choice between the GUI and the CLI in `main`.
 */
module Cli {
  import opened Wrappers
  import opened Text
  import opened Json
  import opened Arguments
  import ChatDownload

  // ---------------------------------------------------------------------------
  // Options as attributes
  // ---------------------------------------------------------------------------

  function OptStr(s: Option<string>): Value
  {
    if s.Some? then Str(s.value) else Null
  }

  function OptInt(i: Option<int>): Value
  {
    if i.Some? then Int(i.value) else Null
  }

  /** The value of the attribute `OptionFields[i]`. */
  function OptionValue(o: CLIOptions, i: nat): Value
  {
    if i == 0 then OptStr(o.chat)
    else if i == 1 then List(seq(|o.chats|, k requires 0 <= k < |o.chats| => Str(o.chats[k])))
    else if i == 2 then OptStr(o.output)
    else if i == 3 then Int(o.limit)
    else if i == 4 then OptInt(o.sinceId)
    else if i == 5 then OptStr(o.config)
    else if i == 6 then Bool(o.debug)
    else if i == 7 then Bool(o.showConfig)
    else if i == 8 then OptStr(o.subchat)
    else if i == 9 then OptStr(o.subchatName)
    else if i == 10 then OptStr(o.user)
    else if i == 11 then OptStr(o.fromDate)
    else if i == 12 then OptInt(o.lastDays)
    else if i == 13 then OptStr(o.until)
    else if i == 14 then OptStr(o.split)
    else if i == 15 then Str(o.sort)
    else if i == 16 then Bool(o.resultsJson)
    else if i == 17 then OptStr(o.keywords)
    else OptStr(o.preset)
  }

  /** The options object as its attributes, in declaration order: what `getattr`, `hasattr` and `setattr` act on. */
  function Attributes(o: CLIOptions): (r: Fields)
    ensures |r| == |OptionFields| && forall i :: 0 <= i < |r| ==> r[i] == (OptionFields[i], OptionValue(o, i))
  {
    seq(|OptionFields|, i requires 0 <= i < |OptionFields| => (OptionFields[i], OptionValue(o, i)))
  }

  /** The options have exactly the declared attributes. */
  lemma AttributeNames(o: CLIOptions)
    ensures Keys(Attributes(o)) == OptionFields
  {
    forall i | 0 <= i < |OptionFields| ensures Keys(Attributes(o))[i] == OptionFields[i] {
      KeysAt(Attributes(o), i);
    }
  }

  /** `getattr(args, key)`. */
  function Attr(attrs: Fields, key: string): Value
  {
    Get(attrs, key).GetOr(Null)
  }

  // ---------------------------------------------------------------------------
  // Presets
  // ---------------------------------------------------------------------------

  /** How `async_main` ends: it returns an exit code, or an exception escapes it. */
  datatype Ending = Returned(code: int) | Raised

  /**
   * Python's `for x in v`: the items of a list or tuple, the characters
   * of a string, the keys of a dict; `None` when `v` is not iterable.
   */
  function Iterate(v: Value): (r: Option<seq<Value>>)
    ensures r.Some? ==> (|r.value| == 0 <==> !Truthy(v))
    ensures r.None? <==> !(v.List? || v.Tuple? || v.Str? || v.Obj?)
    ensures v.Str? ==> r.Some? && |r.value| == |v.s| && forall i :: 0 <= i < |v.s| ==> r.value[i] == Str([v.s[i]])
  {
    match v
    case List(xs) => Some(xs)
    case Tuple(xs) => Some(xs)
    case Str(s) => Some(seq(|s|, i requires 0 <= i < |s| => Str([s[i]])))
    case Obj(fs) => Some(seq(|fs|, i requires 0 <= i < |fs| => Str(fs[i].0)))
    case _ => None
  }

  /** `p.get("name") == name` for a dict `p`. */
  predicate Matches(p: Value, name: string)
  {
    Field(p, "name") == Str(name)
  }

  /**
   * The `args` of the first preset in a list whose `name` is `name`;
   * `None` when there is none. `Raised` when an entry before it is not a
   * dict, where `.get` raises `AttributeError`.
   */
  function FindInList(presets: seq<Value>, name: string): (r: Result<Option<Value>, Ending>)
    ensures r.Failure? <==>
      exists i :: 0 <= i < |presets| && !presets[i].Obj? && forall j :: 0 <= j < i ==> !Matches(presets[j], name)
    ensures r.Failure? ==> r.error == Raised
  {
    if |presets| == 0 then Success(None)
    else if !presets[0].Obj? then Failure(Raised)
    else if Matches(presets[0], name) then Success(Some(Field(presets[0], "args")))
    else FindInList(presets[1..], name)
  }

  /**
   * The preset's arguments: a dict-shaped `presets` is looked up by key,
   * anything else is iterated in search of the first entry with that name.
   * A preset missing or empty ends the run with 1; `presets` that cannot
   * be iterated, an entry before the match that is not a dict, or a preset
   * that is not a dict, raise.
   */
  function PresetArgs(config: Fields, name: string): (r: Result<Fields, Ending>)
    ensures r.Failure? && r.error.Returned? ==> r.error.code == 1
    ensures r.Success? ==> r.value != []
  {
    var presets := Get(config, "presets").GetOr(List([]));
    var found :=
      if presets.Obj? then Success(Get(presets.fields, name))
      else if Iterate(presets).Some? then FindInList(Iterate(presets).value, name)
      else Failure(Raised);
    if found.Failure? then Failure(found.error)
    else if found.value.None? || !Truthy(found.value.value) then Failure(Returned(1))
    else if !found.value.value.Obj? then Failure(Raised)
    else Success(found.value.value.fields)
  }

  /** The options after the `setattr` loop over `preset`, entry by entry in order. */
  function Applied(attrs: Fields, preset: Fields): Fields
    decreases |preset|
  {
    if |preset| == 0 then attrs
    else
      var (key, value) := preset[0];
      Applied(if key in Keys(attrs) then Put(attrs, key, value) else attrs, preset[1..])
  }

  /**
   * The `setattr` loop: each entry of the preset overwrites the attribute
   * of that name when the options have one; other entries are ignored.
   */
  method ApplyPreset(attrs: Fields, preset: Fields) returns (r: Fields)
    ensures r == Applied(attrs, preset)
  {
    r := attrs;
    var i := 0;
    while i < |preset|
      invariant 0 <= i <= |preset|
      invariant Applied(r, preset[i..]) == Applied(attrs, preset)
    {
      var (key, value) := preset[i];
      assert preset[i..][1..] == preset[i + 1..];
      if key in Keys(r) {
        r := Put(r, key, value);
      }
      i := i + 1;
    }
  }

  /** An attribute after a preset: the preset's value when both have the key, the attribute's own otherwise. */
  function Overwritten(attrs: Fields, preset: Fields, k: string): Option<Value>
  {
    if k in Keys(attrs) && k in Keys(preset) then Get(preset, k) else Get(attrs, k)
  }

  /**
   * What applying a preset (a dict, so each key once) does: the options
   * keep their attribute names; an attribute the preset names takes the
   * preset's value, every other keeps its own, and a preset key the
   * options do not have is ignored.
   */
  lemma {:induction false} AppliedContract(attrs: Fields, preset: Fields)
    requires UniqueKeys(preset)
    decreases |preset|
    ensures Keys(Applied(attrs, preset)) == Keys(attrs)
    ensures forall k :: Get(Applied(attrs, preset), k) == Overwritten(attrs, preset, k)
  {
    if |preset| > 0 {
      var (key, value) := preset[0];
      var next := if key in Keys(attrs) then Put(attrs, key, value) else attrs;
      PutKeys(attrs, key, value);
      assert UniqueKeys(preset[1..]) by {
        forall a, b | 0 <= a < b < |preset[1..]| ensures preset[1..][a].0 != preset[1..][b].0 {
          assert preset[1..][a] == preset[a + 1] && preset[1..][b] == preset[b + 1];
        }
      }
      assert key !in Keys(preset[1..]) by {
        forall j | 0 <= j < |preset[1..]| ensures Keys(preset[1..])[j] != key {
          KeysAt(preset[1..], j);
          assert preset[1..][j] == preset[j + 1];
        }
      }
      AppliedContract(next, preset[1..]);
      assert Keys(preset) == [key] + Keys(preset[1..]);
    }
  }

  /** The options once the preset, if `--preset` names one, has been applied. */
  function Resolved(o: CLIOptions, config: Fields): Result<Fields, Ending>
  {
    var attrs := Attributes(o);
    if o.preset.None? || o.preset.value == "" then Success(attrs)
    else
      var found := PresetArgs(config, o.preset.value);
      if found.Failure? then Failure(found.error) else Success(Applied(attrs, found.value))
  }

  // ---------------------------------------------------------------------------
  // show_config
  // ---------------------------------------------------------------------------

  /** What reading the configuration file gives. */
  datatype ConfigText = Absent | Readable(text: string) | Unreadable(error: string)

  /** `Path(config) if config else get_default_config_path()`; `None` where `Path` raises on a value that is not a string. */
  function ConfigPath(config: Value, defaultPath: string): (r: Option<string>)
    ensures !Truthy(config) ==> r == Some(defaultPath)
    ensures Truthy(config) ==> (r.Some? <==> config.Str?) && (config.Str? ==> r.value == config.s)
  {
    if !Truthy(config) then Some(defaultPath)
    else if config.Str? then Some(config.s)
    else None
  }

  /**
   * `show_config`: exit code and the records it logs. It always succeeds;
   * the first record names the file; an existing file is announced and
   * followed by its text, or by the error that reading it raised; a
   * missing one is reported as created on first run.
   */
  function ShowConfig(path: string, file: ConfigText): (r: (int, seq<string>))
    ensures r.0 == 0
    ensures |r.1| >= 2 && r.1[0] == "Configuration file: " + path
    ensures |r.1| == if file.Absent? then 2 else 3
    ensures file.Absent? ==> r.1[1] == "\nConfiguration file does not exist yet. It will be created on first run."
    ensures !file.Absent? ==> r.1[1] == "\nCurrent configuration:"
    ensures file.Readable? ==> r.1[2] == file.text
    ensures file.Unreadable? ==> r.1[2] == "\nError reading config file: " + file.error
  {
    var head := ["Configuration file: " + path];
    match file
    case Absent => (0, head + ["\nConfiguration file does not exist yet. It will be created on first run."])
    case Readable(text) => (0, head + ["\nCurrent configuration:", text])
    case Unreadable(e) => (0, head + ["\nCurrent configuration:", "\nError reading config file: " + e])
  }

  // ---------------------------------------------------------------------------
  // --last-days
  // ---------------------------------------------------------------------------

  /**
   * The whole days `timedelta(days=n)` moves a midnight date back: `n`
   * itself for an integer (a boolean counts as 0 or 1), the ceiling for a
   * float; `None` for a value `timedelta` refuses.
   */
  function Days(n: Value): (r: Option<int>)
    ensures n.Int? ==> r == Some(n.i)
    ensures n.Float? ==> r.Some? && (r.value - 1) as real < n.r <= r.value as real
  {
    match n
    case Int(i) => Some(i)
    case Bool(b) => Some(if b then 1 else 0)
    case Float(x) => Some(-((-x).Floor))
    case _ => None
  }

  /**
   * The options after `--last-days`: with `last_days` set, `until`
   * becomes the base day (`from_date`, or today as `strftime` writes it)
   * minus `last_days` days. A base that does not parse ends the run with 1,
   * one that is not a string or a count `timedelta` refuses raises.
   */
  function WithLastDays(attrs: Fields, cal: ChatDownload.Calendar): Result<Fields, Ending>
  {
    var n := Attr(attrs, "last_days");
    if n.Null? then Success(attrs)
    else
      var baseStr := Or(Attr(attrs, "from_date"), Str(cal.format(cal.today)));
      if !baseStr.Str? then Failure(Raised)
      else
        var base := cal.parse(baseStr.s);
        if base.None? then Failure(Returned(1))
        else if Days(n).None? then Failure(Raised)
        else Success(Put(attrs, "until", Str(cal.format(base.value - Days(n).value))))
  }

  /**
   * `--last-days N` with a `--from` date that parses puts the date N days
   * before it in `until`, a full N days and not N - 1; without `--from`
   * the base is today when the calendar reads back what it writes. Every
   * other option is left as it was.
   */
  lemma LastDaysSetsUntil(attrs: Fields, cal: ChatDownload.Calendar, n: int)
    requires Attr(attrs, "last_days") == Int(n)
    requires var f := Attr(attrs, "from_date"); !Truthy(f) || (f.Str? && cal.parse(f.s).Some?)
    requires !Truthy(Attr(attrs, "from_date")) ==> cal.parse(cal.format(cal.today)) == Some(cal.today)
    ensures WithLastDays(attrs, cal).Success?
    ensures var base := if Truthy(Attr(attrs, "from_date")) then cal.parse(Attr(attrs, "from_date").s).value else cal.today;
      Attr(WithLastDays(attrs, cal).value, "until") == Str(cal.format(base - n))
    ensures forall k :: k != "until" ==> Get(WithLastDays(attrs, cal).value, k) == Get(attrs, k)
  {
    var from := Attr(attrs, "from_date");
    var baseStr := Or(from, Str(cal.format(cal.today)));
    var base := if Truthy(from) then cal.parse(from.s).value else cal.today;
    assert baseStr.Str? && cal.parse(baseStr.s) == Some(base);
    LastDaysOf(attrs, cal, n, baseStr.s, base);
  }

  /** `WithLastDays` once the base day has been read: `until` is `n` days before it. */
  lemma LastDaysOf(attrs: Fields, cal: ChatDownload.Calendar, n: int, baseText: string, base: int)
    requires Attr(attrs, "last_days") == Int(n)
    requires Or(Attr(attrs, "from_date"), Str(cal.format(cal.today))) == Str(baseText)
    requires cal.parse(baseText) == Some(base)
    ensures WithLastDays(attrs, cal).Success?
    ensures Attr(WithLastDays(attrs, cal).value, "until") == Str(cal.format(base - n))
    ensures forall k :: k != "until" ==> Get(WithLastDays(attrs, cal).value, k) == Get(attrs, k)
  {
    assert Days(Int(n)) == Some(n);
  }

  // ---------------------------------------------------------------------------
  // Dispatch
  // ---------------------------------------------------------------------------

  /** `args.chats or ([args.chat] if args.chat else [])`. */
  function ChatsOf(attrs: Fields): (r: Value)
    ensures Truthy(r) <==> Truthy(Attr(attrs, "chats")) || Truthy(Attr(attrs, "chat"))
  {
    var chat := Attr(attrs, "chat");
    Or(Attr(attrs, "chats"), List(if Truthy(chat) then [chat] else []))
  }

  /** Where a chat goes. */
  datatype Route = ConvertJson | DownloadFolder | DownloadChat

  function RouteOf(chat: string): Route
  {
    if EndsWith(chat, ".json") then ConvertJson
    else if StartsWith(chat, "folder:") then DownloadFolder
    else DownloadChat
  }

  /** `--subchat` without `--output` needs a JSON file as the chat. */
  predicate SubchatBlocked(attrs: Fields, chat: string)
  {
    Truthy(Attr(attrs, "subchat")) && !Truthy(Attr(attrs, "output")) && !EndsWith(chat, ".json")
  }

  /** `replace(args, chat=chat_id, chats=[chat_id])`. */
  function ChatArgs(attrs: Fields, chat: Value): Fields
  {
    Put(Put(attrs, "chat", chat), "chats", List([chat]))
  }

  /**
   * What one chat's turn of the loop gives: the command's result, or
   * `None` when the chat is not a string, is blocked, or its command raises.
   */
  function Turn(attrs: Fields, chat: Value, run: (Route, Fields) -> Option<Value>): Option<Value>
  {
    if chat.Str? && !SubchatBlocked(attrs, chat.s) then run(RouteOf(chat.s), ChatArgs(attrs, chat)) else None
  }

  /** A chat the loop gets through: a string, not blocked, whose command returns. */
  predicate Runs(attrs: Fields, chat: Value, run: (Route, Fields) -> Option<Value>)
  {
    Turn(attrs, chat, run).Some?
  }

  /** The loop stops at chat `i`: every chat before it runs and it does not. */
  predicate StopsAt(attrs: Fields, chats: seq<Value>, run: (Route, Fields) -> Option<Value>, i: int)
  {
    0 <= i < |chats| && !Runs(attrs, chats[i], run) && forall j :: 0 <= j < i ==> Runs(attrs, chats[j], run)
  }

  /** How a chat that does not run ends the loop: 1 for a blocked chat, an exception otherwise. */
  function StopOf(attrs: Fields, chat: Value): Ending
  {
    if chat.Str? && SubchatBlocked(attrs, chat.s) then Returned(1) else Raised
  }

  /**
   * What the loop over the chats gives: every chat's result, in order,
   * or how the first chat that does not run ends it.
   */
  function Turns(attrs: Fields, chats: seq<Value>, run: (Route, Fields) -> Option<Value>): Result<seq<Value>, Ending>
    decreases |chats|
  {
    if |chats| == 0 then Success([])
    else
      var first := Turn(attrs, chats[0], run);
      if first.None? then Failure(StopOf(attrs, chats[0]))
      else
        var rest := Turns(attrs, chats[1..], run);
        if rest.Failure? then Failure(rest.error) else Success([first.value] + rest.value)
  }

  /**
   * Every chat is run, in order, unless one stops the loop: the loop gets
   * through exactly when every chat runs, each result is that chat's
   * command's, and otherwise the first chat that does not run ends it, a
   * blocked chat with 1, any other by raising.
   */
  lemma {:induction false} TurnsContract(attrs: Fields, chats: seq<Value>, run: (Route, Fields) -> Option<Value>)
    ensures var r := Turns(attrs, chats, run);
      && (r.Success? <==> forall i :: 0 <= i < |chats| ==> Runs(attrs, chats[i], run))
      && (r.Success? ==> |r.value| == |chats| && forall i :: 0 <= i < |chats| ==>
            r.value[i] == Turn(attrs, chats[i], run).value)
      && (r.Failure? ==> exists i :: StopsAt(attrs, chats, run, i) && r.error == StopOf(attrs, chats[i]))
      && (r.Failure? ==> r.error == Raised || r.error == Returned(1))
  {
    TurnsRun(attrs, chats, run);
    TurnsStop(attrs, chats, run);
  }

  /** The loop gets through exactly when every chat runs, with each chat's result in its place. */
  lemma {:induction false} TurnsRun(attrs: Fields, chats: seq<Value>, run: (Route, Fields) -> Option<Value>)
    decreases |chats|
    ensures var r := Turns(attrs, chats, run);
      && (r.Success? <==> forall i :: 0 <= i < |chats| ==> Runs(attrs, chats[i], run))
      && (r.Success? ==> |r.value| == |chats| && forall i :: 0 <= i < |chats| ==>
            r.value[i] == Turn(attrs, chats[i], run).value)
  {
    if |chats| > 0 && Turn(attrs, chats[0], run).Some? {
      TurnsRun(attrs, chats[1..], run);
      assert forall i :: 1 <= i < |chats| ==> chats[1..][i - 1] == chats[i];
    }
  }

  /** A loop that does not get through stops at the first chat that does not run, and ends as that chat does. */
  lemma {:induction false} TurnsStop(attrs: Fields, chats: seq<Value>, run: (Route, Fields) -> Option<Value>)
    decreases |chats|
    ensures var r := Turns(attrs, chats, run);
      r.Failure? ==> exists i :: StopsAt(attrs, chats, run, i) && r.error == StopOf(attrs, chats[i])
  {
    if |chats| > 0 {
      if Turn(attrs, chats[0], run).None? {
        assert StopsAt(attrs, chats, run, 0);
      } else {
        TurnsStop(attrs, chats[1..], run);
        var rest := Turns(attrs, chats[1..], run);
        if rest.Failure? {
          var k :| StopsAt(attrs, chats[1..], run, k) && rest.error == StopOf(attrs, chats[1..][k]);
          assert forall i :: 1 <= i <= k ==> chats[1..][i - 1] == chats[i];
          assert StopsAt(attrs, chats, run, k + 1);
        }
      }
    }
  }

  /** `Turns` with the results gathered so far in front of those still to come. */
  function After(done: seq<Value>, rest: Result<seq<Value>, Ending>): Result<seq<Value>, Ending>
  {
    if rest.Success? then Success(done + rest.value) else rest
  }

  /** One turn of the loop: the chat at `i` either stops it or puts its result before the rest. */
  lemma TurnsFrom(attrs: Fields, chats: seq<Value>, run: (Route, Fields) -> Option<Value>, done: seq<Value>, i: int)
    requires 0 <= i < |chats|
    ensures Turn(attrs, chats[i], run).None? ==>
      After(done, Turns(attrs, chats[i..], run)) == Failure(StopOf(attrs, chats[i]))
    ensures Turn(attrs, chats[i], run).Some? ==>
      After(done, Turns(attrs, chats[i..], run))
      == After(done + [Turn(attrs, chats[i], run).value], Turns(attrs, chats[i + 1..], run))
  {
    assert chats[i..][0] == chats[i] && chats[i..][1..] == chats[i + 1..];
    var rest := Turns(attrs, chats[i + 1..], run);
    if Turn(attrs, chats[i], run).Some? && rest.Success? {
      assert done + ([Turn(attrs, chats[i], run).value] + rest.value)
          == (done + [Turn(attrs, chats[i], run).value]) + rest.value;
    }
  }

  /**
   * The loop over the chats. `run` stands for the three commands: the
   * value one returns, or `None` when it raises.
   */
  method RunChats(attrs: Fields, chats: seq<Value>, run: (Route, Fields) -> Option<Value>)
    returns (outcome: Result<seq<Value>, Ending>)
    ensures outcome == Turns(attrs, chats, run)
  {
    var results: seq<Value> := [];
    var i := 0;
    assert chats[0..] == chats;
    var all := Turns(attrs, chats, run);
    assert all.Success? ==> results + all.value == all.value;
    while i < |chats|
      invariant 0 <= i <= |chats|
      invariant all == After(results, Turns(attrs, chats[i..], run))
    {
      var chatId := chats[i];
      var result := Turn(attrs, chatId, run);
      TurnsFrom(attrs, chats, run, results, i);
      if result.None? {
        return Failure(StopOf(attrs, chatId));
      }
      results := results + [result.value];
      i := i + 1;
    }
    assert chats[i..] == [] && results + [] == results;
    outcome := Success(results);
  }

  // ---------------------------------------------------------------------------
  // Results and the exit code
  // ---------------------------------------------------------------------------

  /** The results one level flat: a list result gives its items, any other result itself. */
  function Flatten(results: seq<Value>): seq<Value>
  {
    if |results| == 0 then []
    else (if results[0].List? then results[0].items else [results[0]]) + Flatten(results[1..])
  }

  /** A result that counts as success: a dict without an `error` key. */
  predicate Succeeded(v: Value)
  {
    v.Obj? && "error" !in Keys(v.fields)
  }

  /** The exit code of a run that got through every chat. */
  function ExitCode(flat: seq<Value>): (code: int)
    ensures code == 0 || code == 1
  {
    if forall v :: v in flat ==> Succeeded(v) then 0 else 1
  }

  /**
   * The exit code is 0 exactly when every result succeeded: every item of
   * a list result (so an empty list counts as success) and every other
   * result itself.
   */
  lemma {:induction false} ExitCodeOfResults(results: seq<Value>)
    ensures ExitCode(Flatten(results)) == 0 <==> forall r :: r in results ==>
      if r.List? then forall v :: v in r.items ==> Succeeded(v) else Succeeded(r)
  {
    if |results| > 0 {
      ExitCodeOfResults(results[1..]);
      var head := if results[0].List? then results[0].items else [results[0]];
      assert Flatten(results) == head + Flatten(results[1..]);
      assert forall r :: r in results <==> r == results[0] || r in results[1..];
      assert forall v :: v in Flatten(results) <==> v in head || v in Flatten(results[1..]);
    }
  }

  /** Flattening keeps the results' order: flattening a concatenation concatenates. */
  lemma {:induction false} FlattenAppend(a: seq<Value>, b: seq<Value>)
    ensures Flatten(a + b) == Flatten(a) + Flatten(b)
  {
    if |a| > 0 {
      assert (a + b)[0] == a[0] && (a + b)[1..] == a[1..] + b;
      FlattenAppend(a[1..], b);
    } else {
      assert a + b == b;
    }
  }

  /** What `--results-json` prints. */
  function Report(flat: seq<Value>): Value
  {
    Obj([("results", List(flat))])
  }

  // ---------------------------------------------------------------------------
  // async_main
  // ---------------------------------------------------------------------------

  /** The record `--debug` logs once it has lowered the logger's level. */
  function DebugLog(args: Fields): seq<string>
  {
    if Truthy(Attr(args, "debug")) then ["Debug logging enabled"] else []
  }

  /**
   * `async_main` on the parsed options and the loaded configuration:
   * how it ends, the records it logs, and the flattened results (printed
   * with `--results-json`). `defaultPath`, `file`, the calendar and `run`
   * stand for the file system, the clock and the commands. An exception
   * inside the main `try` becomes exit code 1; only the preset step lets
   * one escape.
   */
  method AsyncMain(o: CLIOptions, config: Fields, defaultPath: string, file: string -> ConfigText,
                   cal: ChatDownload.Calendar, run: (Route, Fields) -> Option<Value>)
    returns (ending: Ending, log: seq<string>, flat: seq<Value>)
    ensures ending.Returned? ==> ending.code == 0 || ending.code == 1
    ensures ending.Raised? <==> Resolved(o, config) == Failure(Raised)
    ensures Resolved(o, config).Failure? ==> ending == Resolved(o, config).error && flat == []
    ensures Resolved(o, config) == Failure(Returned(1)) ==> log == ["Preset '" + o.preset.value + "' not found"]
    ensures Resolved(o, config) == Failure(Raised) ==> log == []
    ensures Resolved(o, config).Success? && Truthy(Attr(Resolved(o, config).value, "show_config")) ==>
      var path := ConfigPath(Attr(Resolved(o, config).value, "config"), defaultPath);
      && flat == []
      && (path.Some? ==> ending == Returned(0) && log == ShowConfig(path.value, file(path.value)).1)
      && (path.None? ==> ending == Returned(1))
    ensures Resolved(o, config).Success? && !Truthy(Attr(Resolved(o, config).value, "show_config")) ==>
      var args := Resolved(o, config).value;
      var w := WithLastDays(args, cal);
      && (w.Failure? ==>
            && ending == Returned(1) && flat == []
            && (w.error == Returned(1) ==> log == DebugLog(args) + ["Invalid date format for --from"]))
      && (w.Success? && !Truthy(ChatsOf(w.value)) ==>
            ending == Returned(1) && flat == [] && log == DebugLog(args) + ["Chat identifier is required"])
      && (w.Success? && Truthy(ChatsOf(w.value)) && Iterate(ChatsOf(w.value)).None? ==>
            ending == Returned(1) && flat == [])
      && (w.Success? && Truthy(ChatsOf(w.value)) && Iterate(ChatsOf(w.value)).Some? ==>
            var outcome := Turns(w.value, Iterate(ChatsOf(w.value)).value, run);
            && (outcome.Failure? ==>
                  && ending == Returned(1) && flat == []
                  && (outcome.error == Returned(1) ==>
                        log == DebugLog(args) + ["--subchat requires an existing JSON file as input"]))
            && (outcome.Success? ==>
                  flat == Flatten(outcome.value) && ending == Returned(ExitCode(flat)) && log == DebugLog(args)))
  {
    log := [];
    flat := [];
    var args := Attributes(o);
    if o.preset.Some? && o.preset.value != "" {
      var found := PresetArgs(config, o.preset.value);
      if found.Failure? {
        if found.error == Returned(1) {
          log := ["Preset '" + o.preset.value + "' not found"];
        }
        return found.error, log, flat;
      }
      args := ApplyPreset(args, found.value);
    }
    assert Resolved(o, config) == Success(args);
    if Truthy(Attr(args, "show_config")) {
      var path := ConfigPath(Attr(args, "config"), defaultPath);
      if path.None? {
        return Returned(1), log, flat;
      }
      var shown := ShowConfig(path.value, file(path.value));
      return Returned(shown.0), shown.1, flat;
    }
    log := DebugLog(args);
    var withUntil := WithLastDays(args, cal);
    if withUntil.Failure? {
      if withUntil.error == Returned(1) {
        log := log + ["Invalid date format for --from"];
      }
      return Returned(1), log, flat;
    }
    var chats := ChatsOf(withUntil.value);
    if !Truthy(chats) {
      return Returned(1), log + ["Chat identifier is required"], flat;
    }
    var items := Iterate(chats);
    if items.None? {
      return Returned(1), log, flat;
    }
    var outcome := RunChats(withUntil.value, items.value, run);
    if outcome.Failure? {
      if outcome.error == Returned(1) {
        log := log + ["--subchat requires an existing JSON file as input"];
      }
      return Returned(1), log, flat;
    }
    flat := Flatten(outcome.value);
    ending := Returned(ExitCode(flat));
  }

  /**
   * A run that gets past the options ends with 0 exactly when every chat
   * ran and every result, or every item of a list result, is a dict
   * without an `error` key.
   */
  lemma SucceedsExactly(o: CLIOptions, config: Fields, cal: ChatDownload.Calendar,
                        run: (Route, Fields) -> Option<Value>, ending: Ending, flat: seq<Value>)
    requires Resolved(o, config).Success? && !Truthy(Attr(Resolved(o, config).value, "show_config"))
    requires var w := WithLastDays(Resolved(o, config).value, cal);
      w.Success? && Truthy(ChatsOf(w.value)) && Iterate(ChatsOf(w.value)).Some? &&
      var outcome := Turns(w.value, Iterate(ChatsOf(w.value)).value, run);
      (outcome.Failure? ==> ending == Returned(1)) &&
      (outcome.Success? ==> flat == Flatten(outcome.value) && ending == Returned(ExitCode(flat)))
    ensures var w := WithLastDays(Resolved(o, config).value, cal);
      var chats := Iterate(ChatsOf(w.value)).value;
      ending == Returned(0) <==>
        (forall i :: 0 <= i < |chats| ==> Runs(w.value, chats[i], run)) &&
        forall i :: 0 <= i < |chats| ==> var r := Turn(w.value, chats[i], run).value;
          if r.List? then forall v :: v in r.items ==> Succeeded(v) else Succeeded(r)
  {
    var w := WithLastDays(Resolved(o, config).value, cal);
    var chats := Iterate(ChatsOf(w.value)).value;
    TurnsContract(w.value, chats, run);
    var outcome := Turns(w.value, chats, run);
    if outcome.Success? {
      ExitCodeOfResults(outcome.value);
      assert forall r :: r in outcome.value <==> exists i :: 0 <= i < |chats| && r == Turn(w.value, chats[i], run).value;
    }
  }

  // ---------------------------------------------------------------------------
  // main
  // ---------------------------------------------------------------------------

  /** The GUI: not installed, started and closed normally, or raising. */
  datatype Gui = NotInstalled | Ran | Failed

  /** The command line asks for the GUI: no arguments, or `gui` first. */
  predicate WantsGui(argv: seq<string>)
  {
    |argv| == 1 || (|argv| >= 2 && argv[1] == "gui")
  }

  /**
   * `main`: the GUI when the command line asks for it, `async_main`
   * otherwise, whose escaping exception (or an interrupt) becomes 1.
   */
  function Main(argv: seq<string>, gui: Gui, cli: Ending): (code: int)
    ensures WantsGui(argv) ==> (code == 0 <==> gui == Ran)
    ensures !WantsGui(argv) && cli.Returned? ==> code == cli.code
    ensures !WantsGui(argv) && cli.Raised? ==> code == 1
  {
    if WantsGui(argv) then (if gui == Ran then 0 else 1)
    else if cli.Returned? then cli.code
    else 1
  }

  /** `main` exits with 0 or 1 whatever `async_main` did. */
  method MainExit(argv: seq<string>, gui: Gui, o: CLIOptions, config: Fields, defaultPath: string,
                  file: string -> ConfigText, cal: ChatDownload.Calendar, run: (Route, Fields) -> Option<Value>)
    returns (code: int)
    ensures code == 0 || code == 1
    ensures WantsGui(argv) ==> (code == 0 <==> gui == Ran)
  {
    if WantsGui(argv) {
      code := Main(argv, gui, Raised);
    } else {
      var ending, _, _ := AsyncMain(o, config, defaultPath, file, cal, run);
      code := Main(argv, gui, ending);
    }
  }
}
