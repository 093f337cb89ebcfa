/**
 * The wiring of `process_chat_download` and `folder` in the command layer:
 * the output file name, where a download resumes from, the keyword
 * arguments handed to `download_chat`, how the messages already in the
 * output file and the new ones are combined and filtered, and which peers a
 * folder download visits.
 */
module ChatDownload {
  import opened Wrappers
  import opened Text
  import opened Json
  import opened Paths
  import opened Arguments
  import opened Commands

  /** Python truthiness of an optional string option. */
  predicate Given(s: Option<string>) { s.Some? && s.value != "" }

  /**
   * The options `process_chat_download` reads: the declared `CLIOptions`
   * and the three flags it reads besides, `overwrite`, `media` and
   * `media_original_names`, which a command line that does not give them
   * leaves false.
   */
  datatype ProcessOptions = ProcessOptions(cli: CLIOptions, overwrite: bool, media: bool, mediaOriginalNames: bool)

  /**
   * Dates as UTC day numbers: `parse` is `strptime(s, "%Y-%m-%d")`, `None`
   * for its `ValueError`; `format` is `strftime("%Y-%m-%d")`; `today` is the
   * current UTC day.
   */
  datatype Calendar = Calendar(parse: string -> Option<int>, format: int -> string, today: int)

  /** The base day of `--last-days`: the `--from` date when given, else today; `None` when `--from` does not parse. */
  function BaseDay(fromDate: Option<string>, cal: Calendar): Option<int>
  {
    if Given(fromDate) then cal.parse(fromDate.value) else Some(cal.today)
  }

  /**
   * The first day of the `--last-days n` window ending on `base`: the window
   * from it to the base day, both included, holds `n` days, and one day
   * when `n` is not positive.
   */
  function LastDaysStart(base: int, n: int): (d: int)
    ensures d <= base
    ensures base - d + 1 == if n >= 1 then n else 1
  {
    base - if n - 1 > 0 then n - 1 else 0
  }

  // ---------------------------------------------------------------------------
  // The output file
  // ---------------------------------------------------------------------------

  /** `output_dir / name`. */
  function ChildOf(dir: Path, name: string): Path
  {
    Path(dir.dir + [dir.name], name)
  }

  /**
   * The output file: `--output` resolved (by `resolve`, which stands for
   * `Path.resolve`), with `.json` added when it has no suffix; otherwise
   * `<chat name>.json` in the output directory, with `_subchat_<id>` added to
   * its stem when `--subchat` is given. `None` is the `ValueError` of
   * `with_suffix`/`with_stem` on an empty name.
   */
  function OutputFileFor(output: Option<string>, resolve: string -> Path, outputDir: Path, chatName: string, subchat: Option<string>): Option<Path>
  {
    if Given(output) then
      var p := resolve(output.value);
      if Suffix(p.name) == "" then WithSuffix(p, ".json") else Some(p)
    else
      var file := ChildOf(outputDir, chatName + ".json");
      if Given(subchat) then WithStem(file, Stem(file.name) + "_subchat_" + subchat.value) else Some(file)
  }

  /**
   * Without `--output`, the file is `<chat name>[_subchat_<id>].json` in the
   * output directory; a subchat id holding `/` makes `with_stem` raise. The
   * chat name is the sanitised one, which holds no `/`.
   */
  lemma DefaultOutputFile(outputDir: Path, chatName: string, subchat: Option<string>, resolve: string -> Path)
    requires chatName != "" && '/' !in chatName
    ensures OutputFileFor(None, resolve, outputDir, chatName, subchat)
      == if Given(subchat) && '/' in subchat.value then None
         else Some(ChildOf(outputDir, chatName + (if Given(subchat) then "_subchat_" + subchat.value else "") + ".json"))
  {
    if Given(subchat) {
      if '/' in subchat.value {
        SubchatWithSeparator(outputDir, chatName, subchat.value, resolve);
      } else {
        SubchatFile(outputDir, chatName, subchat.value, resolve);
      }
    } else {
      assert chatName + "" + ".json" == chatName + ".json";
    }
  }

  /** A subchat id holding `/` makes `with_stem` raise. */
  lemma SubchatWithSeparator(outputDir: Path, chatName: string, sub: string, resolve: string -> Path)
    requires chatName != "" && '/' in sub
    ensures OutputFileFor(None, resolve, outputDir, chatName, Some(sub)) == None
  {
    var stem := Stem(chatName + ".json") + "_subchat_" + sub;
    assert '/' in stem;
    SeparatorInStemRefused(ChildOf(outputDir, chatName + ".json"), stem);
  }

  /** Any other non-empty subchat id is put after the chat name, before `.json`. */
  lemma SubchatFile(outputDir: Path, chatName: string, sub: string, resolve: string -> Path)
    requires chatName != "" && '/' !in chatName && sub != "" && '/' !in sub
    ensures OutputFileFor(None, resolve, outputDir, chatName, Some(sub)) == Some(ChildOf(outputDir, chatName + ("_subchat_" + sub) + ".json"))
  {
    JsonSuffix(chatName);
    var stem := chatName + "_subchat_" + sub;
    assert '/' !in "_subchat_";
    assert '/' !in stem;
    WithStemOfJson(outputDir, chatName, stem);
    assert chatName + ("_subchat_" + sub) == stem;
  }

  /** The suffix of `<base>.json` is `.json`, and its stem the base. */
  lemma JsonSuffix(base: string)
    requires base != ""
    ensures Suffix(base + ".json") == ".json" && Stem(base + ".json") == base
  {
    SuffixOfDotted(base, "json");
    assert base + "." + "json" == base + ".json";
  }

  /** Giving `<base>.json` a new stem keeps the `.json` suffix, when `with_name` accepts the result. */
  lemma WithStemOfJson(dir: Path, base: string, stem: string)
    requires base != "" && stem != "" && '/' !in stem
    ensures WithStem(ChildOf(dir, base + ".json"), stem) == Some(ChildOf(dir, stem + ".json"))
  {
    JsonSuffix(base);
    assert |stem + ".json"| > 1;
  }

  /** With `--output`, the resolved path is kept when it has a suffix; otherwise `.json` is put after its name. */
  lemma GivenOutputFile(output: string, resolve: string -> Path, outputDir: Path, chatName: string, subchat: Option<string>)
    requires output != "" && resolve(output).name != ""
    ensures var p := resolve(output);
      OutputFileFor(Some(output), resolve, outputDir, chatName, subchat)
        == Some(if Suffix(p.name) == "" then Path(p.dir, p.name + ".json") else p)
  {
    var p := resolve(output);
    if Suffix(p.name) == "" {
      WithSuffixName(p, ".json");
      assert p.name[..|p.name| - 0] == p.name;
    }
  }

  // ---------------------------------------------------------------------------
  // Resuming from the output file
  // ---------------------------------------------------------------------------

  /** What `process_chat_download` finds at the output path. */
  datatype OutputFile = Absent | Unreadable | Holds(data: Value)

  /** `[m.get("id") for m in data if isinstance(m, dict) and "id" in m]`. */
  function StoredIds(data: seq<Value>): seq<Value>
  {
    if data == [] then []
    else
      var n := |data| - 1;
      StoredIds(data[..n]) + match GetKey(data[n], "id") case Some(v) => [v] case None => []
  }

  /** The stored ids are exactly the `"id"` values of the dicts that have one. */
  lemma {:induction false} StoredIdsFrom(data: seq<Value>, v: Value)
    ensures v in StoredIds(data) <==> HasId(data, v)
  {
    if data != [] {
      var n := |data| - 1;
      StoredIdsFrom(data[..n], v);
      HasIdSnoc(data, v);
    }
  }

  /** Some dict of `data` has `v` as its `"id"`. */
  predicate HasId(data: seq<Value>, v: Value)
  {
    exists i :: 0 <= i < |data| && GetKey(data[i], "id") == Some(v)
  }

  /** A dict with id `v` is in the prefix or is the last one. */
  lemma HasIdSnoc(data: seq<Value>, v: Value)
    requires data != []
    ensures HasId(data, v) <==> HasId(data[..|data| - 1], v) || GetKey(data[|data| - 1], "id") == Some(v)
  {
    var n := |data| - 1;
    if HasId(data, v) {
      var i :| 0 <= i < |data| && GetKey(data[i], "id") == Some(v);
      if i < n {
        assert data[..n][i] == data[i];
      }
    }
    if HasId(data[..n], v) {
      var i :| 0 <= i < n && GetKey(data[..n][i], "id") == Some(v);
      assert data[i] == data[..n][i];
    }
  }

  /** The ids as integers, when every one of them is an `int`. */
  function IntIds(vs: seq<Value>): (r: Option<seq<int>>)
    ensures r.Some? <==> forall i :: 0 <= i < |vs| ==> vs[i].Int?
    ensures r.Some? ==> |r.value| == |vs| && forall i :: 0 <= i < |vs| ==> vs[i] == Int(r.value[i])
  {
    if vs == [] then Some([])
    else
      var n := |vs| - 1;
      var rest := IntIds(vs[..n]);
      assert forall i :: 0 <= i < n ==> vs[..n][i] == vs[i];
      if rest.Some? && vs[n].Int? then Some(rest.value + [vs[n].i]) else None
  }

  /** `max(ids)`. */
  function MaxOf(xs: seq<int>): (m: int)
    requires xs != []
    ensures m in xs
    ensures forall i :: 0 <= i < |xs| ==> xs[i] <= m
  {
    if |xs| == 1 then xs[0]
    else
      var n := |xs| - 1;
      var m := MaxOf(xs[..n]);
      assert forall i :: 0 <= i < n ==> xs[..n][i] == xs[i];
      if xs[n] > m then xs[n] else m
  }

  /** The messages already saved, which are merged with the new ones, and the `since_id` of the download. */
  datatype Resume = Resume(existing: seq<Value>, sinceId: Option<int>)

  /**
   * Unless `--overwrite` or `--since-id` is given, a list in the output file
   * becomes the existing messages, and the largest of their ids the
   * `since_id`. A file that cannot be read or parsed leaves both unset.
   * The model takes the `since_id` only when every stored id is an
   * integer; for other ids (strings, floats, a mix) it leaves `since_id`
   * unset after the existing messages were taken, where Python's `max`
   * may raise inside the same `try` or return a non-integer.
   */
  function ResumePoint(overwrite: bool, sinceId: Option<int>, file: OutputFile): Resume
  {
    if overwrite || sinceId.Some? || file.Absent? then Resume([], sinceId)
    else if file.Unreadable? || !file.data.List? then Resume([], None)
    else
      var items := file.data.items;
      var ids := StoredIds(items);
      match IntIds(ids)
      case Some(ns) => Resume(items, if ns == [] then None else Some(MaxOf(ns)))
      case None => Resume(items, None)
  }

  /** An explicit `since_id` or `--overwrite` leaves the file alone; only a list in the file gives existing messages. */
  lemma ResumeOnlyWhenAllowed(overwrite: bool, sinceId: Option<int>, file: OutputFile)
    ensures var r := ResumePoint(overwrite, sinceId, file);
      && (sinceId.Some? ==> r.sinceId == sinceId)
      && (overwrite ==> r == Resume([], sinceId))
      && (r.existing != [] ==> !overwrite && sinceId.None? && file.Holds? && file.data == List(r.existing))
  {
  }

  /** A resumed download starts after the newest saved message: `since_id` is the id of a saved message and no saved id exceeds it. */
  lemma ResumeFromNewest(file: OutputFile)
    requires file.Holds? && file.data.List?
    requires forall i :: 0 <= i < |file.data.items| && GetKey(file.data.items[i], "id").Some? ==> GetKey(file.data.items[i], "id").value.Int?
    requires exists i :: 0 <= i < |file.data.items| && GetKey(file.data.items[i], "id").Some?
    ensures var r := ResumePoint(false, None, file); var items := file.data.items;
      && r.existing == items
      && r.sinceId.Some?
      && (exists i :: 0 <= i < |items| && GetKey(items[i], "id") == Some(Int(r.sinceId.value)))
      && (forall i :: 0 <= i < |items| && GetKey(items[i], "id").Some? ==> GetKey(items[i], "id").value.i <= r.sinceId.value)
  {
    var items := file.data.items;
    var ns := NewestOf(items);
    assert ResumePoint(false, None, file) == Resume(items, Some(MaxOf(ns)));
  }

  /** Integer ids, at least one of them, convert to a non-empty list whose largest is a stored id bounding all others. */
  lemma NewestOf(items: seq<Value>) returns (ns: seq<int>)
    requires forall i :: 0 <= i < |items| && GetKey(items[i], "id").Some? ==> GetKey(items[i], "id").value.Int?
    requires exists i :: 0 <= i < |items| && GetKey(items[i], "id").Some?
    ensures IntIds(StoredIds(items)) == Some(ns) && ns != []
    ensures exists i :: 0 <= i < |items| && GetKey(items[i], "id") == Some(Int(MaxOf(ns)))
    ensures forall i :: 0 <= i < |items| && GetKey(items[i], "id").Some? ==> GetKey(items[i], "id").value.i <= MaxOf(ns)
  {
    IdsAreInts(items);
    ns := IntIds(StoredIds(items)).value;
    var i0 :| 0 <= i0 < |items| && GetKey(items[i0], "id").Some?;
    StoredIdsFrom(items, GetKey(items[i0], "id").value);
    NewestStored(items, ns);
    NewestBounds(items, ns);
  }

  /** Integer ids make every stored id convert. */
  lemma IdsAreInts(items: seq<Value>)
    requires forall i :: 0 <= i < |items| && GetKey(items[i], "id").Some? ==> GetKey(items[i], "id").value.Int?
    ensures IntIds(StoredIds(items)).Some?
  {
    var ids := StoredIds(items);
    forall k | 0 <= k < |ids| ensures ids[k].Int? {
      StoredIdsFrom(items, ids[k]);
    }
  }

  /** The largest id is the id of a stored message. */
  lemma NewestStored(items: seq<Value>, ns: seq<int>)
    requires IntIds(StoredIds(items)) == Some(ns) && ns != []
    ensures exists i :: 0 <= i < |items| && GetKey(items[i], "id") == Some(Int(MaxOf(ns)))
  {
    var ids := StoredIds(items);
    var k :| 0 <= k < |ns| && ns[k] == MaxOf(ns);
    StoredIdsFrom(items, ids[k]);
  }

  /** No stored id exceeds the largest one. */
  lemma NewestBounds(items: seq<Value>, ns: seq<int>)
    requires forall i :: 0 <= i < |items| && GetKey(items[i], "id").Some? ==> GetKey(items[i], "id").value.Int?
    requires IntIds(StoredIds(items)) == Some(ns) && ns != []
    ensures forall i :: 0 <= i < |items| && GetKey(items[i], "id").Some? ==> GetKey(items[i], "id").value.i <= MaxOf(ns)
  {
    var ids := StoredIds(items);
    forall i | 0 <= i < |items| && GetKey(items[i], "id").Some?
      ensures GetKey(items[i], "id").value.i <= MaxOf(ns)
    {
      var v := GetKey(items[i], "id").value;
      StoredIdsFrom(items, v);
      var j :| 0 <= j < |ids| && ids[j] == v;
    }
  }

  // ---------------------------------------------------------------------------
  // The keyword arguments of `download_chat`
  // ---------------------------------------------------------------------------

  /** The keyword arguments `process_chat_download` passes to `download_chat`; an absent key is `None`. */
  datatype DownloadKwargs = DownloadKwargs(
    chatId: Value,
    requestLimit: int,
    totalLimit: int,
    outputFile: Path,
    silent: bool,
    savePartial: bool,
    untilDate: Option<string>,
    fromDate: Option<string>,
    sinceId: Option<int>)

  /**
   * `download_kwargs`: the page size and total limit from `--limit`, partial
   * saves unless overwriting, the lower date bound from `--last-days` (which
   * wins over `--until`), the upper one from `--from`, and the resume point.
   * `None` is the `ValueError` of a `--from` date that does not parse when
   * `--last-days` is given.
   */
  function Kwargs(o: ProcessOptions, chatId: Value, outputFile: Path, sinceId: Option<int>, cal: Calendar): Option<DownloadKwargs>
  {
    var limit := o.cli.limit;
    var base := BaseDay(o.cli.fromDate, cal);
    if o.cli.lastDays.Some? && base.None? then None
    else
      var until :=
        if o.cli.lastDays.Some? then Some(cal.format(LastDaysStart(base.value, o.cli.lastDays.value)))
        else if Given(o.cli.until) then o.cli.until
        else None;
      Some(DownloadKwargs(
        chatId,
        if limit > 0 then limit else 100,
        if limit > 0 then limit else 0,
        outputFile,
        false,
        !o.overwrite,
        until,
        if Given(o.cli.fromDate) then o.cli.fromDate else None,
        sinceId))
  }

  /** A positive `--limit` is both the page size and the total limit; otherwise pages hold 100 and there is no total limit. */
  lemma KwargsLimits(o: ProcessOptions, chatId: Value, outputFile: Path, sinceId: Option<int>, cal: Calendar)
    requires Kwargs(o, chatId, outputFile, sinceId, cal).Some?
    ensures var k := Kwargs(o, chatId, outputFile, sinceId, cal).value;
      && k.requestLimit > 0 && k.totalLimit >= 0
      && (o.cli.limit > 0 <==> k.totalLimit > 0)
      && (o.cli.limit > 0 ==> k.requestLimit == k.totalLimit == o.cli.limit)
      && (o.cli.limit <= 0 ==> k.requestLimit == 100)
  {
  }

  /** Partial saves are on exactly when not overwriting; the resume point and the output file are passed through. */
  lemma KwargsCheckpointing(o: ProcessOptions, chatId: Value, outputFile: Path, sinceId: Option<int>, cal: Calendar)
    requires Kwargs(o, chatId, outputFile, sinceId, cal).Some?
    ensures var k := Kwargs(o, chatId, outputFile, sinceId, cal).value;
      (k.savePartial <==> !o.overwrite) && k.sinceId == sinceId && k.outputFile == outputFile && k.chatId == chatId && !k.silent
  {
  }

  /**
   * With `--last-days n` the lower date bound is the day `n - 1` days before
   * the base day, whatever `--until` says; without it, `--until` is passed
   * when given. A base day that does not parse raises.
   */
  lemma LastDaysWins(o: ProcessOptions, chatId: Value, outputFile: Path, sinceId: Option<int>, cal: Calendar)
    ensures Kwargs(o, chatId, outputFile, sinceId, cal).None? <==> o.cli.lastDays.Some? && BaseDay(o.cli.fromDate, cal).None?
    ensures Kwargs(o, chatId, outputFile, sinceId, cal).Some? ==>
      var k := Kwargs(o, chatId, outputFile, sinceId, cal).value;
      && (o.cli.lastDays.Some? ==>
            exists d :: d == BaseDay(o.cli.fromDate, cal).value - (if o.cli.lastDays.value >= 1 then o.cli.lastDays.value - 1 else 0)
              && k.untilDate == Some(cal.format(d)))
      && (o.cli.lastDays.None? ==> (k.untilDate.Some? <==> Given(o.cli.until)) && (Given(o.cli.until) ==> k.untilDate == o.cli.until))
      && (k.fromDate.Some? <==> Given(o.cli.fromDate))
  {
    if Kwargs(o, chatId, outputFile, sinceId, cal).Some? && o.cli.lastDays.Some? {
      var base := BaseDay(o.cli.fromDate, cal).value;
      var d := LastDaysStart(base, o.cli.lastDays.value);
      assert d == base - (if o.cli.lastDays.value >= 1 then o.cli.lastDays.value - 1 else 0);
    }
  }

  // ---------------------------------------------------------------------------
  // Preparing a download
  // ---------------------------------------------------------------------------

  /** Why `process_chat_download` ends early: an unresolved chat (an error entry), or an exception. */
  datatype Failure = Unresolved | Raised(error: string)

  /** What the download is started with: the keyword arguments, the existing messages, and whether the checkpoint file is deleted first. */
  datatype Prepared = Prepared(kwargs: DownloadKwargs, existing: seq<Value>, discardCheckpoint: bool)

  /**
   * Everything `process_chat_download` does before calling `download_chat`.
   * `chatName` is what `get_entity_name` returned; `file` is what the output
   * path holds on disk.
   */
  function PrepareDownload(o: ProcessOptions, chatId: Value, chatName: Option<string>, outputDir: Path, resolve: string -> Path, file: OutputFile, cal: Calendar): Result<Prepared, Failure>
  {
    if !Given(chatName) then Failure(Unresolved)
    else
      match OutputFileFor(o.cli.output, resolve, outputDir, chatName.value, o.cli.subchat)
      case None => Failure(Raised("ValueError"))
      case Some(out) =>
        var resume := ResumePoint(o.overwrite, o.cli.sinceId, file);
        match Kwargs(o, chatId, out, resume.sinceId, cal)
        case None => Failure(Raised("ValueError"))
        case Some(k) => Success(Prepared(k, resume.existing, o.overwrite))
  }

  /** Overwriting deletes the checkpoint, starts from nothing and saves no partial progress; otherwise the checkpoint is kept. */
  lemma OverwriteStartsFresh(o: ProcessOptions, chatId: Value, chatName: Option<string>, outputDir: Path, resolve: string -> Path, file: OutputFile, cal: Calendar)
    requires PrepareDownload(o, chatId, chatName, outputDir, resolve, file, cal).Success?
    ensures var p := PrepareDownload(o, chatId, chatName, outputDir, resolve, file, cal).value;
      && (p.discardCheckpoint <==> o.overwrite)
      && (p.kwargs.savePartial <==> !o.overwrite)
      && (o.overwrite ==> p.existing == [] && p.kwargs.sinceId == o.cli.sinceId)
  {
    var out := OutputFileFor(o.cli.output, resolve, outputDir, chatName.value, o.cli.subchat).value;
    var resume := ResumePoint(o.overwrite, o.cli.sinceId, file);
    ResumeOnlyWhenAllowed(o.overwrite, o.cli.sinceId, file);
    KwargsCheckpointing(o, chatId, out, resume.sinceId, cal);
  }

  /**
   * `process_chat_download` as written reads `args.overwrite` (and later
   * `args.media`, `args.media_original_names`), which `CLIOptions` does not
   * declare: once the chat name resolves, the read raises `AttributeError`.
   */
  function PrepareAsWritten(o: CLIOptions, chatId: Value, chatName: Option<string>, outputDir: Path, resolve: string -> Path, file: OutputFile, cal: Calendar): Result<Prepared, Failure>
  {
    if !Given(chatName) then Failure(Unresolved)
    else if OutputFileFor(o.output, resolve, outputDir, chatName.value, o.subchat).None? then Failure(Raised("ValueError"))
    else if "overwrite" !in OptionFields then Failure(Raised("AttributeError: overwrite"))
    else PrepareDownload(ProcessOptions(o, false, false, false), chatId, chatName, outputDir, resolve, file, cal)
  }

  /** As written, no download is ever started from the command line: every resolved chat raises. */
  lemma AsWrittenNeverDownloads(o: CLIOptions, chatId: Value, chatName: Option<string>, outputDir: Path, resolve: string -> Path, file: OutputFile, cal: Calendar)
    ensures PrepareAsWritten(o, chatId, chatName, outputDir, resolve, file, cal).Failure?
    ensures Given(chatName) ==> PrepareAsWritten(o, chatId, chatName, outputDir, resolve, file, cal).error.Raised?
  {
    assert OptionFields[..] == OptionFields;
    assert forall i :: 0 <= i < |OptionFields| ==> OptionFields[i] != "overwrite";
  }

  /**
   * With the three flags declared and left at false, a resolved chat whose
   * dates parse reaches `download_chat` and resumes from the file, unless a
   * subchat id holding `/` makes `with_stem` raise.
   */
  lemma CorrectedDownloads(o: CLIOptions, chatId: Value, chatName: string, outputDir: Path, resolve: string -> Path, file: OutputFile, cal: Calendar)
    requires chatName != "" && '/' !in chatName && !Given(o.output)
    requires o.lastDays.None? || BaseDay(o.fromDate, cal).Some?
    ensures var p := PrepareDownload(ProcessOptions(o, false, false, false), chatId, Some(chatName), outputDir, resolve, file, cal);
      p.Success? <==> !(Given(o.subchat) && '/' in o.subchat.value)
    ensures var p := PrepareDownload(ProcessOptions(o, false, false, false), chatId, Some(chatName), outputDir, resolve, file, cal);
      p.Success? ==>
        p.value.kwargs.savePartial && !p.value.discardCheckpoint
        && p.value.existing == ResumePoint(false, o.sinceId, file).existing
        && p.value.kwargs.sinceId == ResumePoint(false, o.sinceId, file).sinceId
  {
    DefaultOutputFile(outputDir, chatName, o.subchat, resolve);
  }

  // ---------------------------------------------------------------------------
  // After the download
  // ---------------------------------------------------------------------------

  /**
   * The messages that are saved: the existing ones followed by the new ones,
   * deduplicated, when the file held some (an id the deduplication's set
   * cannot hold raises `TypeError`); then the subchat filter when
   * `--subchat` is given, then the keyword filter when `--keywords` has a
   * non-blank keyword. A failure is the exception a filter raises.
   */
  function Combine(existing: seq<Value>, downloaded: seq<Value>, subchat: Option<string>, keywords: Option<string>): Result<seq<Value>, string>
  {
    if existing != [] && !IdsHashable(existing + downloaded) then Failure("TypeError")
    else
    var merged := if existing != [] then Dedup(existing + downloaded) else downloaded;
    var bySubchat := if Given(subchat) then FilterBySubchat(merged, subchat.value) else Success(merged);
    match bySubchat
    case Failure(e) => Failure(e)
    case Success(ms) =>
      var kws := if Given(keywords) then NonBlankStripped(Split(keywords.value, ',')) else [];
      if kws == [] then Success(ms)
      else
        match FilterByKeywords(ms, kws)
        case None => Failure("AttributeError")
        case Some(r) => Success(r)
  }

  /** Deduplicating a longer list starts with the deduplication of its prefix. */
  lemma {:induction false} DedupPrefix(ms: seq<Value>, k: nat)
    requires k <= |ms|
    ensures |Dedup(ms[..k])| <= |Dedup(ms)| && Dedup(ms)[..|Dedup(ms[..k])|] == Dedup(ms[..k])
  {
    if k < |ms| {
      var n := |ms| - 1;
      DedupPrefix(ms[..n], k);
      assert ms[..n][..k] == ms[..k];
      assert ms[..n + 1] == ms;
      DedupStep(ms, n);
      PrefixExtends(Dedup(ms[..k]), Dedup(ms[..n]), if IsFirst(ms, n) then [ms[n]] else [], Dedup(ms));
    } else {
      assert ms[..k] == ms;
    }
  }

  /** A prefix of `d` is a prefix of `d + t`. */
  lemma PrefixExtends(p: seq<Value>, d: seq<Value>, t: seq<Value>, r: seq<Value>)
    requires |p| <= |d| && d[..|p|] == p && r == d + t
    ensures |p| <= |r| && r[..|p|] == p
  {
    assert r[..|d|] == d;
  }

  /** A deduplicated concatenation keeps a list with distinct ids as its prefix. */
  lemma DedupKeepsUniquePrefix(existing: seq<Value>, downloaded: seq<Value>)
    requires UniqueIds(existing)
    ensures var r := Dedup(existing + downloaded); |existing| <= |r| && r[..|existing|] == existing
  {
    var all := existing + downloaded;
    assert all[..|existing|] == existing;
    DedupPrefix(all, |existing|);
    DedupOfUnique(existing);
  }

  /**
   * Resuming keeps every saved message, in place and ahead of the new ones,
   * when the saved ids are distinct; the result has distinct ids, and every
   * id from either side appears. It raises exactly when some id is
   * unhashable.
   */
  lemma ResumedMerge(existing: seq<Value>, downloaded: seq<Value>)
    requires existing != [] && UniqueIds(existing)
    ensures Combine(existing, downloaded, None, None).Success? <==> IdsHashable(existing + downloaded)
    ensures Combine(existing, downloaded, None, None).Success? ==>
      var r := Combine(existing, downloaded, None, None).value;
      && |existing| <= |r| && r[..|existing|] == existing
      && UniqueIds(r)
      && KeySet(r) == KeySet(existing + downloaded)
      && IsSubsequence(r, existing + downloaded)
  {
    var all := existing + downloaded;
    if !IdsHashable(all) {
      return;
    }
    assert Combine(existing, downloaded, None, None) == Success(Dedup(all));
    DedupKeepsUniquePrefix(existing, downloaded);
    DedupIds(all);
    DedupSubsequence(all);
  }

  /** Without saved messages and filters, the new messages are saved as downloaded. */
  lemma FreshDownloadUnchanged(downloaded: seq<Value>, keywords: Option<string>)
    requires !Given(keywords) || NonBlankStripped(Split(keywords.value, ',')) == []
    ensures Combine([], downloaded, None, keywords) == Success(downloaded)
  {
  }

  // ---------------------------------------------------------------------------
  // Folder downloads
  // ---------------------------------------------------------------------------

  /** A chat folder as `list_folders` gives it: its title text and its pinned and included peers. */
  datatype Folder = Folder(title: string, pinnedPeers: seq<Value>, includePeers: seq<Value>)

  /** `chat.split(":", 1)[1]`: everything after the first colon; `None` is the `IndexError` without one. */
  function FolderName(chat: string): (r: Option<string>)
    ensures r.Some? <==> ':' in chat
    ensures r.Some? ==> exists k :: 0 <= k < |chat| && chat[k] == ':' && ':' !in chat[..k] && r.value == chat[k + 1..]
  {
    match Find(chat, ':')
    case None => None
    case Some(k) => Some(chat[k + 1..])
  }

  /** The folder of a `folder:<name>` argument is named by everything after the prefix. */
  lemma FolderNameOfPrefixed(head: string, name: string)
    requires head == "folder"
    ensures FolderName(head + ":" + name) == Some(name)
  {
    var chat := head + ":" + name;
    assert chat == head + [':'] + name;
    FindAfter(head, ':', name);
    assert chat[|head| + 1..] == name;
  }

  /** The first folder with the given title. */
  function FirstWithTitle(folders: seq<Folder>, name: string): (r: Option<nat>)
    ensures r.Some? ==> r.value < |folders| && folders[r.value].title == name
    ensures r.Some? ==> forall j :: 0 <= j < r.value ==> folders[j].title != name
    ensures r.None? ==> forall j :: 0 <= j < |folders| ==> folders[j].title != name
  {
    if folders == [] then None
    else if folders[0].title == name then Some(0)
    else
      match FirstWithTitle(folders[1..], name)
      case None => None
      case Some(i) => Some(i + 1)
  }

  /** The search loop of `folder`: the first folder whose title matches. */
  method FindFolder(folders: seq<Folder>, name: string) returns (target: Option<Folder>)
    ensures target.Some? <==> exists j :: 0 <= j < |folders| && folders[j].title == name
    ensures target.Some? ==> target.value == folders[FirstWithTitle(folders, name).value]
  {
    for i := 0 to |folders|
      invariant forall j :: 0 <= j < i ==> folders[j].title != name
    {
      if folders[i].title == name {
        return Some(folders[i]);
      }
    }
    return None;
  }

  /**
   * The downloads `folder` starts, in order: each pinned peer, then each
   * included peer of the matching folder, into `<downloads>/<name>`; none
   * when no folder matches. `None` is the `IndexError` of a name without colon.
   * A title holding `/` stays one component here, where `pathlib` makes it
   * several nested directories; the directory's text is the same.
   */
  function FolderVisits(chat: string, folders: seq<Folder>, downloadsDir: Path): Option<seq<(Value, Path)>>
  {
    match FolderName(chat)
    case None => None
    case Some(name) =>
      match FirstWithTitle(folders, name)
      case None => Some([])
      case Some(i) =>
        var peers := folders[i].pinnedPeers + folders[i].includePeers;
        Some(seq(|peers|, j requires 0 <= j < |peers| => (peers[j], ChildOf(downloadsDir, name))))
  }

  /** The matching folder is the first one with the title. */
  lemma FirstWithTitleIs(folders: seq<Folder>, name: string, i: nat)
    requires i < |folders| && folders[i].title == name
    requires forall j :: 0 <= j < i ==> folders[j].title != name
    ensures FirstWithTitle(folders, name) == Some(i)
  {
  }

  /**
   * A folder download visits the pinned then the included peers of the
   * first folder titled with the name after the colon, each into the
   * folder's own directory, or nothing when no folder has that title.
   */
  lemma FolderVisitsPeers(chat: string, name: string, folders: seq<Folder>, downloadsDir: Path, i: nat)
    requires FolderName(chat) == Some(name)
    requires i < |folders| && folders[i].title == name
    requires forall j :: 0 <= j < i ==> folders[j].title != name
    ensures FolderVisits(chat, folders, downloadsDir).Some?
    ensures var v := FolderVisits(chat, folders, downloadsDir).value; var f := folders[i];
      && |v| == |f.pinnedPeers| + |f.includePeers|
      && (forall j :: 0 <= j < |v| ==> v[j].1 == ChildOf(downloadsDir, name))
      && (forall j :: 0 <= j < |f.pinnedPeers| ==> v[j].0 == f.pinnedPeers[j])
      && (forall j :: 0 <= j < |f.includePeers| ==> v[|f.pinnedPeers| + j].0 == f.includePeers[j])
  {
    FirstWithTitleIs(folders, name, i);
  }

  /** No folder with the title: nothing is downloaded. */
  lemma FolderNotFound(chat: string, name: string, folders: seq<Folder>, downloadsDir: Path)
    requires FolderName(chat) == Some(name)
    requires forall j :: 0 <= j < |folders| ==> folders[j].title != name
    ensures FolderVisits(chat, folders, downloadsDir) == Some([])
  {
  }
}
