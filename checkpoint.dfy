/**
 * The checkpoint store of partial downloads (`PartialDownloadManager`): a
 * `.part.jsonl` file beside the output file, one `{"m": message, "i": id}`
 * record per line, and an in-memory watermark per checkpoint file that makes
 * every save append only messages whose id is above it.
 */
module Checkpoint {
  import opened Wrappers
  import opened Text
  import opened Paths

  /** A message as the download engine accumulates and checkpoints it: its id (absent on some stored records) and its UTC calendar day. */
  datatype Message = Message(id: Option<int>, day: Option<int>)

  /** One line of a checkpoint file. */
  datatype Line =
    | Blank                               // empty, or whitespace only
    | Corrupt                             // not valid JSON
    | Other                               // valid JSON, but not an object with an "m" key
    | Record(m: Message, i: Option<int>)  // {"m": m, "i": i}; `i` is None when the key is absent

  /** `serialized.get("id", 0)`: the id a save compares and records. */
  function SavedId(m: Message): int { m.id.GetOr(0) }

  /** The checkpoint file of `output`, keyed by topic when there is one. `None` is the `ValueError` for an empty file name. */
  function TempFilePath(output: Path, topic: Option<int>): (r: Option<Path>)
    ensures r.Some? <==> output.name != ""
    ensures r.Some? ==> r.value.dir == output.dir && EndsWith(r.value.name, ".part.jsonl")
  {
    match topic
    case Some(t) =>
      var r := WithSuffix(output, "." + IntToString(t) + ".part.jsonl");
      assert r.Some? ==> EndsWith(r.value.name, ".part.jsonl") by {
        if r.Some? { EndsWithTail(r.value.name, "." + IntToString(t), ".part.jsonl"); }
      }
      r
    case None => WithSuffix(output, ".part.jsonl")
  }

  /** The suffix `TempFilePath` puts on the output file's stem. */
  function TempSuffix(topic: Option<int>): (r: string)
    ensures |r| >= |".part.jsonl"|
  {
    if topic.Some? then "." + IntToString(topic.value) + ".part.jsonl" else ".part.jsonl"
  }

  lemma TempFileName(output: Path, topic: Option<int>)
    requires output.name != ""
    ensures TempFilePath(output, topic)
      == Some(Path(output.dir, output.name[..|output.name| - |Suffix(output.name)|] + TempSuffix(topic)))
  {
    WithSuffixName(output, TempSuffix(topic));
  }

  lemma SuffixOfPartFile(n: string)
    requires EndsWith(n, ".part.jsonl")
    ensures Suffix(n) == ".jsonl"
  {
    assert EndsWith(n, ".jsonl") by { EndsWithTail(n, ".part", ".jsonl"); }
    LastDotOfEnding(n, "jsonl");
    assert n[|n| - 11] == '.';
    assert n[|n| - 6..] == ".jsonl";
  }

  /** The checkpoint is never the output file itself. */
  lemma TempFileIsNotOutput(output: Path, topic: Option<int>)
    requires output.name != ""
    ensures TempFilePath(output, topic).value != output
  {
    TempFileName(output, topic);
    var n := output.name;
    var r := TempFilePath(output, topic).value;
    if EndsWith(n, ".part.jsonl") {
      SuffixOfPartFile(n);
      assert |r.name| == |n| - 6 + |TempSuffix(topic)|;
    } else {
      assert EndsWith(r.name, ".part.jsonl");
    }
  }

  /** Different topics of one output file checkpoint to different files. */
  lemma TempFilesPerTopic(output: Path, t1: Option<int>, t2: Option<int>)
    requires output.name != "" && t1 != t2
    ensures TempFilePath(output, t1) != TempFilePath(output, t2)
  {
    TempFileName(output, t1);
    TempFileName(output, t2);
    var stem := output.name[..|output.name| - |Suffix(output.name)|];
    if TempFilePath(output, t1) == TempFilePath(output, t2) {
      var x, y := stem + TempSuffix(t1), stem + TempSuffix(t2);
      assert x == y;
      assert TempSuffix(t1) == x[|stem|..] == y[|stem|..] == TempSuffix(t2);
      if t1.Some? && t2.Some? {
        var a, b := IntToString(t1.value), IntToString(t2.value);
        assert |a| == |b|;
        assert a == TempSuffix(t1)[1..1 + |a|];
        assert b == TempSuffix(t2)[1..1 + |b|];
        ParseIntToString(t1.value);
        ParseIntToString(t2.value);
      }
    }
  }

  lemma ExampleSuffix()
    ensures Suffix("test_output.json") == ".json"
  {
    LastDotOfEnding("test_output.json", "json");
  }

  /** The test suite's example: `test_output.json` checkpoints to `test_output.part.jsonl`. */
  lemma TempFileExample()
    ensures TempFilePath(Path([], "test_output.json"), None) == Some(Path([], "test_output.part.jsonl"))
  {
    var n := "test_output.json";
    TempFileName(Path([], n), None);
    ExampleSuffix();
    var stem := n[..|n| - |Suffix(n)|];
    assert stem == n[..11] == "test_output";
    assert stem + TempSuffix(None) == "test_output.part.jsonl";
  }

  /** The messages a save appends, in order: those whose id is above the watermark. */
  function Unsaved(ms: seq<Message>, mark: int): (r: seq<Message>)
    ensures |r| <= |ms|
  {
    if ms == [] then []
    else
      var last := ms[|ms| - 1];
      Unsaved(ms[..|ms| - 1], mark) + (if SavedId(last) > mark then [last] else [])
  }

  /** A save appends exactly the messages whose id is above the watermark. */
  lemma {:induction false} UnsavedMembers(ms: seq<Message>, mark: int)
    ensures forall m :: m in Unsaved(ms, mark) <==> m in ms && SavedId(m) > mark
  {
    if ms != [] {
      UnsavedMembers(ms[..|ms| - 1], mark);
      assert ms == ms[..|ms| - 1] + [ms[|ms| - 1]];
    }
  }

  /** The watermark after a save: the largest id seen, never below the old watermark. */
  function Raised(ms: seq<Message>, mark: int): (r: int)
    ensures r >= mark
    ensures r > mark <==> Unsaved(ms, mark) != []
  {
    if ms == [] then mark
    else
      var last := ms[|ms| - 1];
      var r := Raised(ms[..|ms| - 1], mark);
      if SavedId(last) > r then SavedId(last) else r
  }

  /** No message saved has an id above the raised watermark. */
  lemma {:induction false} RaisedBounds(ms: seq<Message>, mark: int)
    ensures forall m :: m in ms ==> SavedId(m) <= Raised(ms, mark)
  {
    if ms != [] {
      RaisedBounds(ms[..|ms| - 1], mark);
      assert ms == ms[..|ms| - 1] + [ms[|ms| - 1]];
    }
  }

  /** The lines a save appends for `ms`. */
  function Records(ms: seq<Message>): (r: seq<Line>)
    ensures |r| == |ms|
  {
    if ms == [] then [] else Records(ms[..|ms| - 1]) + [Record(ms[|ms| - 1], Some(SavedId(ms[|ms| - 1])))]
  }

  lemma {:induction false} RecordsAppend(a: seq<Message>, b: seq<Message>)
    ensures Records(a + b) == Records(a) + Records(b)
    decreases |b|
  {
    if b != [] {
      var init := b[..|b| - 1];
      RecordsAppend(a, init);
      assert (a + b)[..|a + b| - 1] == a + init;
    } else {
      assert a + b == a;
    }
  }

  /** Saving the same messages again right after a save appends nothing. */
  lemma SaveIsIdempotent(ms: seq<Message>, mark: int)
    ensures Unsaved(ms, Raised(ms, mark)) == []
  {
    RaisedBounds(ms, mark);
    BackwardWalkWritesNothing(ms, Raised(ms, mark));
  }

  /** A walk toward older messages, whose ids all lie at or below the watermark, appends nothing. */
  lemma {:induction false} BackwardWalkWritesNothing(ms: seq<Message>, mark: int)
    requires forall m :: m in ms ==> SavedId(m) <= mark
    ensures Unsaved(ms, mark) == [] && Raised(ms, mark) == mark
  {
    if ms != [] {
      var init := ms[..|ms| - 1];
      assert forall m :: m in init ==> m in ms;
      BackwardWalkWritesNothing(init, mark);
      assert ms[|ms| - 1] in ms;
    }
  }

  /** Messages without an id count as id 0 and are never written above a non-negative watermark. */
  lemma IdlessNeverWritten(ms: seq<Message>, mark: int)
    requires mark >= 0
    ensures forall m :: m in Unsaved(ms, mark) ==> m.id.Some?
  {
    UnsavedMembers(ms, mark);
  }

  /** What reading a checkpoint file gives: the messages, and the id to resume from. */
  datatype Replayed = Replayed(messages: seq<Message>, lastId: int)

  /**
   * What `load_messages` reads back from the lines of a checkpoint file: the
   * `m` of every record in file order, and the `i` of the last record that
   * has one (0 when none has).
   */
  function Replay(lines: seq<Line>): Replayed
  {
    if lines == [] then Replayed([], 0)
    else
      var prior := Replay(lines[..|lines| - 1]);
      match lines[|lines| - 1]
      case Record(m, i) => Replayed(prior.messages + [m], i.GetOr(prior.lastId))
      case _ => prior
  }

  /** Reading a checkpoint after appending records gives back the old messages followed by the new ones. */
  lemma {:induction false} ReplayAfterSave(lines: seq<Line>, ms: seq<Message>)
    ensures Replay(lines + Records(ms)).messages == Replay(lines).messages + ms
    ensures Replay(lines + Records(ms)).lastId == if ms == [] then Replay(lines).lastId else SavedId(ms[|ms| - 1])
    decreases |ms|
  {
    if ms == [] {
      assert lines + Records(ms) == lines;
    } else {
      var init := ms[..|ms| - 1];
      ReplayAfterSave(lines, init);
      var all := lines + Records(ms);
      assert all[..|all| - 1] == lines + Records(init);
      assert init + [ms[|ms| - 1]] == ms;
    }
  }

  /** Records written by one process, loaded back: the messages themselves, and the last record's id as watermark. */
  lemma SaveLoadRoundTrip(ms: seq<Message>, mark: int)
    ensures Replay(Records(Unsaved(ms, mark))).messages == Unsaved(ms, mark)
  {
    var u := Unsaved(ms, mark);
    ReplayAfterSave([], u);
    assert [] + Records(u) == Records(u);
  }

  /**
   * The watermark a load restores is the id of the LAST record, not the
   * largest: after a walk toward older messages it is the smallest id saved.
   */
  lemma LoadedWatermarkIsLastRecord()
    ensures Replay([Record(Message(Some(5), None), Some(5)), Record(Message(Some(3), None), Some(3))]).lastId == 3
  {
    var lines := [Record(Message(Some(5), None), Some(5)), Record(Message(Some(3), None), Some(3))];
    assert lines[..1] == [lines[0]];
    assert lines[..1][..0] == [];
  }

  /** The watermark recorded for `path`, 0 when there is none. */
  function Watermark(marks: map<Path, int>, path: Path): int
  {
    if path in marks then marks[path] else 0
  }

  /** The lines of `path`; opening a missing file for appending creates it empty. */
  function FileLines(files: map<Path, seq<Line>>, path: Path): seq<Line>
  {
    if path in files then files[path] else []
  }

  /** The checkpoint files on disk and the in-memory watermarks. */
  datatype Store = Store(files: map<Path, seq<Line>>, marks: map<Path, int>)

  /** The store after `save_messages(ms)` on checkpoint file `temp`. */
  function AfterSave(st: Store, temp: Path, ms: seq<Message>): Store
  {
    var mark := Watermark(st.marks, temp);
    var added := Records(Unsaved(ms, mark));
    Store(st.files[temp := FileLines(st.files, temp) + added],
          if Unsaved(ms, mark) != [] then st.marks[temp := Raised(ms, mark)] else st.marks)
  }

  /** One more message: the records written and the raised watermark grow as the loop of `save_messages` makes them grow. */
  lemma SaveStep(ms: seq<Message>, i: nat, mark: int)
    requires i < |ms|
    ensures var m := ms[i];
      Records(Unsaved(ms[..i + 1], mark))
        == Records(Unsaved(ms[..i], mark)) + (if SavedId(m) > mark then [Record(m, Some(SavedId(m)))] else [])
      && Raised(ms[..i + 1], mark) == (if SavedId(m) > Raised(ms[..i], mark) then SavedId(m) else Raised(ms[..i], mark))
  {
    var m := ms[i];
    assert ms[..i + 1][..i] == ms[..i];
    var before := Unsaved(ms[..i], mark);
    if SavedId(m) > mark {
      assert Unsaved(ms[..i + 1], mark) == before + [m];
      RecordsAppend(before, [m]);
      assert [m][..0] == [];
    } else {
      assert Unsaved(ms[..i + 1], mark) == before + [];
      assert before + [] == before;
    }
  }

  /** A save touches only its own checkpoint file and watermark. */
  lemma SaveTouchesOnlyItsFile(st: Store, temp: Path, ms: seq<Message>, p: Path)
    requires p != temp
    ensures FileLines(AfterSave(st, temp, ms).files, p) == FileLines(st.files, p)
    ensures Watermark(AfterSave(st, temp, ms).marks, p) == Watermark(st.marks, p)
  {
  }

  /** A save never lowers a watermark, and appends to the file rather than rewriting it. */
  lemma SaveOnlyAppends(st: Store, temp: Path, ms: seq<Message>)
    ensures Watermark(AfterSave(st, temp, ms).marks, temp) >= Watermark(st.marks, temp)
    ensures FileLines(AfterSave(st, temp, ms).files, temp)[..|FileLines(st.files, temp)|] == FileLines(st.files, temp)
    ensures Replay(FileLines(AfterSave(st, temp, ms).files, temp)).messages
      == Replay(FileLines(st.files, temp)).messages + Unsaved(ms, Watermark(st.marks, temp))
  {
    ReplayAfterSave(FileLines(st.files, temp), Unsaved(ms, Watermark(st.marks, temp)));
  }

  /** The store after a sequence of saves of snapshots on `temp`, in order. */
  function AfterSaves(st: Store, temp: Path, saves: seq<seq<Message>>): Store
  {
    if saves == [] then st else AfterSave(AfterSaves(st, temp, saves[..|saves| - 1]), temp, saves[|saves| - 1])
  }

  lemma AfterSavesSnoc(st: Store, temp: Path, saves: seq<seq<Message>>, ms: seq<Message>)
    ensures AfterSaves(st, temp, saves + [ms]) == AfterSave(AfterSaves(st, temp, saves), temp, ms)
  {
    assert (saves + [ms])[..|saves|] == saves;
  }

  /** What `load_messages` gives: the messages, the id to resume from, and the store afterwards. */
  datatype Loaded = Loaded(messages: seq<Message>, lastId: int, store: Store)

  /** `load_messages` on `temp`: the messages and id read back and the store afterwards. */
  function AfterLoad(st: Store, temp: Path): (r: Loaded)
    ensures r.store.files == st.files
    ensures temp !in st.files ==> r == Loaded([], 0, st)
  {
    if temp in st.files then
      var read := Replay(st.files[temp]);
      Loaded(read.messages, read.lastId, Store(st.files, st.marks[temp := read.lastId]))
    else Loaded([], 0, st)
  }

  class PartialDownloadManager {
    /** The checkpoint files on disk. */
    var files: map<Path, seq<Line>>
    /** `_last_saved_ids`: per checkpoint file, the highest id this process has appended or loaded. */
    var lastSavedIds: map<Path, int>

    constructor (disk: map<Path, seq<Line>>)
      ensures State() == Store(disk, map[])
    {
      files := disk;
      lastSavedIds := map[];
    }

    function State(): Store
      reads this
    {
      Store(files, lastSavedIds)
    }

    /** `save_messages`: appends the messages above the file's watermark and raises the watermark to the largest id appended. */
    method SaveMessages(messages: seq<Message>, output: Path, topic: Option<int>) returns (ok: bool)
      modifies this
      ensures ok <==> output.name != ""
      ensures !ok ==> State() == old(State())
      ensures ok ==> State() == AfterSave(old(State()), TempFilePath(output, topic).value, messages)
    {
      var path := TempFilePath(output, topic);
      if path.None? {
        return false;
      }
      var temp := path.value;
      var mark := Watermark(lastSavedIds, temp);
      var written: seq<Line> := [];
      var newLast := mark;
      var i := 0;
      while i < |messages|
        invariant 0 <= i <= |messages|
        invariant written == Records(Unsaved(messages[..i], mark))
        invariant newLast == Raised(messages[..i], mark)
        invariant files == old(files) && lastSavedIds == old(lastSavedIds)
      {
        var m := messages[i];
        SaveStep(messages, i, mark);
        if SavedId(m) > mark {
          written := written + [Record(m, Some(SavedId(m)))];
          if SavedId(m) > newLast {
            newLast := SavedId(m);
          }
        }
        i := i + 1;
      }
      assert messages[..i] == messages;
      assert written == Records(Unsaved(messages, mark));
      ghost var expected := AfterSave(State(), temp, messages);
      files := files[temp := FileLines(files, temp) + written];
      if newLast > mark {
        lastSavedIds := lastSavedIds[temp := newLast];
      }
      assert State() == expected;
      ok := true;
    }

    /**
     * `load_messages`: a missing checkpoint gives no messages and id 0;
     * otherwise every record's message in order, the last record's id, and
     * that id becomes the file's watermark.
     */
    method LoadMessages(output: Path, topic: Option<int>) returns (ok: bool, messages: seq<Message>, lastId: int)
      modifies this
      ensures ok <==> output.name != ""
      ensures !ok ==> State() == old(State())
      ensures ok ==> Loaded(messages, lastId, State()) == AfterLoad(old(State()), TempFilePath(output, topic).value)
    {
      messages, lastId := [], 0;
      var path := TempFilePath(output, topic);
      if path.None? {
        return false, messages, lastId;
      }
      ok := true;
      var temp := path.value;
      if temp !in files {
        return;
      }
      var lines := files[temp];
      var i := 0;
      while i < |lines|
        invariant 0 <= i <= |lines|
        invariant Replayed(messages, lastId) == Replay(lines[..i])
      {
        assert lines[..i + 1][..i] == lines[..i];
        if lines[i].Record? {
          messages := messages + [lines[i].m];
          lastId := lines[i].i.GetOr(lastId);
        }
        i := i + 1;
      }
      assert lines[..i] == lines;
      lastSavedIds := lastSavedIds[temp := lastId];
    }
  }
}
