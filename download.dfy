/**
 * The history walk of `download_chat`: it pages backwards from the newest
 * message (or from a checkpoint), skips ids already collected, applies the
 * date window and the `since_id` bound, sleeps through rate limits,
 * checkpoints periodically, and stops on a stop request, an exhausted
 * history, a date boundary, the `since_id` bound or the total limit.
 */
module Download {
  import opened Wrappers
  import opened Paths
  import opened Checkpoint

  /** A message of a history page. Telegram always gives it an id; `day` is its UTC calendar day, when it has a date. */
  datatype Fetched = Fetched(id: int, day: Option<int>)

  /** What one history request yields: a page of messages (newest first), or a rate-limit error asking to wait `seconds`. */
  datatype HistoryResult = Page(messages: seq<Fetched>) | FloodWait(seconds: nat)

  /** The arguments of `download_chat` that shape the walk; dates are UTC day numbers. */
  datatype Options = Options(
    requestLimit: int,
    totalLimit: int,
    outputFile: Option<Path>,
    savePartial: bool,
    untilDay: Option<int>,
    fromDay: Option<int>,
    sinceId: Option<int>)

  /**
   * A history request as sent: the cursor, the exclusive upper date bound
   * (the day after `from_date`), the page size and the lower id bound.
   */
  datatype Request = Request(offsetId: int, offsetDay: Option<int>, limit: int, minId: int)

  /** The request `download_chat` sends from the cursor `offset`. */
  function RequestAt(opts: Options, offset: int): Request
  {
    Request(offset, if opts.fromDay.Some? then Some(opts.fromDay.value + 1) else None, opts.requestLimit, opts.sinceId.GetOr(0))
  }

  /**
   * What the world does during the walk, one entry per loop iteration: the
   * result of the history request; whether a stop was requested from outside
   * (by `stop()` from a signal handler, or by another process creating the
   * stop file) before the iteration's check; whether more than 60 seconds
   * have passed since the last periodic save. Past the end of `results` the
   * history is exhausted and a request returns an empty page.
   */
  datatype Environment = Environment(results: seq<HistoryResult>, interrupts: seq<bool>, saveDue: seq<bool>)

  /** What `download_chat` returns, and the requests and sleeps it made on the way. */
  datatype Outcome = Outcome(messages: seq<Message>, requests: seq<Request>, sleeps: seq<nat>)

  predicate Saving(opts: Options) { opts.outputFile.Some? && opts.savePartial }

  function ResultAt(env: Environment, k: nat): HistoryResult
  {
    if k < |env.results| then env.results[k] else Page([])
  }

  predicate At(s: seq<bool>, k: nat) { k < |s| && s[k] }

  function ToMessage(f: Fetched): Message { Message(Some(f.id), f.day) }

  /** `existing_ids`: the ids of the messages collected, without `None`. */
  function IdsOf(ms: seq<Message>): set<int>
  {
    set m | m in ms && m.id.Some? :: m.id.value
  }

  /** `min(msg.id for msg in page)`. */
  function MinId(page: seq<Fetched>): (r: int)
    requires page != []
    ensures exists i :: 0 <= i < |page| && page[i].id == r
    ensures forall i :: 0 <= i < |page| ==> r <= page[i].id
  {
    if |page| == 1 then page[0].id
    else
      var m := MinId(page[1..]);
      assert forall i :: 1 <= i < |page| ==> page[i] == page[1..][i - 1];
      if page[0].id <= m then page[0].id else m
  }

  /** The scan of one page so far: messages accepted, ids seen, and whether the `until` boundary was crossed. */
  datatype Scan = Scan(accepted: seq<Message>, seen: set<int>, hitUntil: bool)

  /** The inner loop over a page from position `i` on. */
  function ScanFrom(page: seq<Fetched>, opts: Options, i: nat, acc: Scan): (r: Scan)
    requires i <= |page|
    ensures |r.accepted| <= |acc.accepted| + |page| - i
    ensures r.hitUntil && !acc.hitUntil ==> opts.untilDay.Some? && |r.accepted| < |acc.accepted| + |page| - i
    decreases |page| - i
  {
    if i == |page| then acc
    else
      var f := page[i];
      if f.id in acc.seen then ScanFrom(page, opts, i + 1, acc)
      else if opts.untilDay.Some? && f.day.Some? && f.day.value < opts.untilDay.value then acc.(hitUntil := true)
      else if opts.fromDay.Some? && f.day.Some? && f.day.value > opts.fromDay.value then ScanFrom(page, opts, i + 1, acc)
      else if opts.sinceId.None? || f.id > opts.sinceId.value then
        ScanFrom(page, opts, i + 1, Scan(acc.accepted + [ToMessage(f)], acc.seen + {f.id}, acc.hitUntil))
      else ScanFrom(page, opts, i + 1, acc)
  }

  function ScanPage(page: seq<Fetched>, opts: Options, seen: set<int>): Scan
  {
    ScanFrom(page, opts, 0, Scan([], seen, false))
  }

  /** A message the walk may accept under the date window and the `since_id` bound. */
  predicate Admissible(m: Message, opts: Options)
  {
    m.id.Some?
    && (opts.sinceId.Some? ==> m.id.value > opts.sinceId.value)
    && (opts.untilDay.Some? && m.day.Some? ==> m.day.value >= opts.untilDay.value)
    && (opts.fromDay.Some? && m.day.Some? ==> m.day.value <= opts.fromDay.value)
  }

  /** Messages that are admissible, carry ids outside `base`, and carry pairwise different ids. */
  predicate FreshBatch(added: seq<Message>, base: set<int>, opts: Options)
  {
    (forall i :: 0 <= i < |added| ==> Admissible(added[i], opts) && added[i].id.value !in base)
    && (forall i, j :: 0 <= i < j < |added| ==> added[i].id != added[j].id)
  }

  /** The state of the walk between iterations. */
  datatype Walk = Walk(
    offset: int,                // offset_id, the cursor
    all: seq<Message>,          // all_messages
    seen: set<int>,             // existing_ids
    saves: seq<seq<Message>>,   // the lists handed to the checkpoint store, in order
    sleeps: seq<nat>,           // flood-wait sleeps, in seconds
    requests: seq<Request>,     // history requests sent
    stopped: bool)              // the walk ended on a stop request

  /** The state before the first iteration, given what the checkpoint load returned. */
  function Begin(opts: Options, loaded: seq<Message>, lastId: int): (w: Walk)
    ensures w.all == loaded && w.seen == IdsOf(loaded)
    ensures w.offset == (if loaded != [] && opts.sinceId.None? then lastId else 0)
  {
    Walk(if loaded != [] && opts.sinceId.None? then lastId else 0, loaded, IdsOf(loaded), [], [], [], false)
  }

  /** The state after one iteration, and whether the loop goes on. */
  datatype Turn = Turn(next: Walk, more: bool)

  /**
   * One iteration of the `while True` loop: the new state, and whether the
   * loop goes on. `stopFlag` is whether a stop was requested, or the stop
   * file existed, when the download began.
   */
  function Step(opts: Options, env: Environment, stopFlag: bool, w: Walk, k: nat): (r: Turn)
    ensures r.more ==> k < |env.results|
    ensures |w.saves| <= |r.next.saves| <= |w.saves| + 1 && r.next.saves[..|w.saves|] == w.saves
    ensures |r.next.saves| == |w.saves| + 1 ==> Saving(opts) && r.next.saves[|w.saves|] == r.next.all
    ensures r.next.stopped == (w.stopped || stopFlag || At(env.interrupts, k))
  {
    if stopFlag || At(env.interrupts, k) then Turn(w.(stopped := true), false)
    else
      var w1 := w.(requests := w.requests + [RequestAt(opts, w.offset)]);
      match ResultAt(env, k)
      case FloodWait(n) =>
        var saves := if Saving(opts) && w.all != [] then w.saves + [w.all] else w.saves;
        Turn(w1.(saves := saves, sleeps := w.sleeps + [n + 1]), true)
      case Page(page) =>
        if page == [] then Turn(w1, false)
        else
          var sc := ScanPage(page, opts, w.seen);
          var all := w.all + sc.accepted;
          var w2 := w1.(all := all, seen := sc.seen);
          if sc.accepted == [] then
            if sc.hitUntil then Turn(w2, false)
            else if opts.fromDay.Some? then
              var offset := MinId(page);
              Turn(w2.(offset := offset), !(opts.sinceId.Some? && offset <= opts.sinceId.value))
            else Turn(w2, false)
          else if opts.untilDay.Some? && |sc.accepted| < |page| then Turn(w2, false)
          else
            var offset := MinId(page);
            if opts.sinceId.Some? && offset <= opts.sinceId.value then Turn(w2.(offset := offset), false)
            else
              var saves := if Saving(opts) && At(env.saveDue, k) then w.saves + [all] else w.saves;
              Turn(w2.(offset := offset, saves := saves), !(opts.totalLimit > 0 && |all| >= opts.totalLimit))
  }

  /** The loop from iteration `k` on: the state it ends in. */
  function Loop(opts: Options, env: Environment, stopFlag: bool, w: Walk, k: nat): Walk
    requires k <= |env.results|
    decreases |env.results| - k
  {
    var turn := Step(opts, env, stopFlag, w, k);
    if turn.more then Loop(opts, env, stopFlag, turn.next, k + 1) else turn.next
  }

  lemma LoopUnfold(opts: Options, env: Environment, stopFlag: bool, w: Walk, k: nat)
    requires k <= |env.results|
    ensures var turn := Step(opts, env, stopFlag, w, k);
      Loop(opts, env, stopFlag, w, k) == if turn.more then Loop(opts, env, stopFlag, turn.next, k + 1) else turn.next
  {
  }

  /** One iteration moves the loop on: to the rest of the loop, or to its end. */
  lemma LoopAdvance(opts: Options, env: Environment, stopFlag: bool, w: Walk, k: nat, target: Walk)
    requires k <= |env.results| && Loop(opts, env, stopFlag, w, k) == target
    ensures var turn := Step(opts, env, stopFlag, w, k);
      (turn.more ==> k + 1 <= |env.results| && Loop(opts, env, stopFlag, turn.next, k + 1) == target)
      && (!turn.more ==> turn.next == target)
  {
    LoopUnfold(opts, env, stopFlag, w, k);
  }

  /** The checkpoint store after one more iteration's saves, if it made one. */
  lemma StepSaves(opts: Options, env: Environment, stopFlag: bool, w: Walk, k: nat, st: Store)
    ensures var r := Step(opts, env, stopFlag, w, k).next; var temp := CheckpointPath(opts);
      AfterSaves(st, temp, r.saves) ==
        if |r.saves| == |w.saves| then AfterSaves(st, temp, w.saves)
        else AfterSave(AfterSaves(st, temp, w.saves), temp, r.all)
  {
    var r := Step(opts, env, stopFlag, w, k).next;
    if |r.saves| == |w.saves| {
      assert r.saves == r.saves[..|w.saves|];
    } else {
      assert r.saves == w.saves + [r.all];
      AfterSavesSnoc(st, CheckpointPath(opts), w.saves, r.all);
    }
  }

  /** After the loop: the final checkpoint save of everything collected. */
  function Finish(opts: Options, w: Walk): Walk
  {
    if Saving(opts) && w.all != [] then w.(saves := w.saves + [w.all]) else w
  }

  /** After the loop: at most `total_limit` messages are returned, the first ones collected. */
  function Truncate(opts: Options, all: seq<Message>): (r: seq<Message>)
    ensures opts.totalLimit > 0 ==> |r| <= opts.totalLimit
    ensures |r| <= |all| && r == all[..|r|]
    ensures opts.totalLimit <= 0 || |all| <= opts.totalLimit ==> r == all
    ensures opts.totalLimit > 0 && |all| >= opts.totalLimit ==> |r| == opts.totalLimit
  {
    if opts.totalLimit > 0 && |all| >= opts.totalLimit then all[..opts.totalLimit] else all
  }

  /** The checkpoint file of a saving download (a placeholder path otherwise). */
  function CheckpointPath(opts: Options): Path
  {
    if Saving(opts) && opts.outputFile.value.name != "" then TempFilePath(opts.outputFile.value, None).value
    else Path([], "")
  }

  /** The complete walk: the final state (with the final save) given the checkpoint load's result. */
  function Walked(opts: Options, env: Environment, stopFlag: bool, loaded: seq<Message>, lastId: int): Walk
  {
    Finish(opts, Loop(opts, env, stopFlag, Begin(opts, loaded, lastId), 0))
  }

  /** What `download_chat` returns, the checkpoint store afterwards, and whether it ended on a stop request. */
  datatype Finished = Finished(outcome: Outcome, store: Store, stopped: bool)

  /**
   * `download_chat` as a value: what it returns, the checkpoint store
   * afterwards, and whether it ended on a stop request. `None` is the
   * `ValueError` raised when the checkpoint path cannot be formed.
   */
  function DownloadSpec(opts: Options, env: Environment, stopFlag: bool, store: Store): Option<Finished>
  {
    if Saving(opts) && opts.outputFile.value.name == "" then None
    else
      var load := if Saving(opts) then AfterLoad(store, CheckpointPath(opts)) else Loaded([], 0, store);
      var w := Walked(opts, env, stopFlag, load.messages, load.lastId);
      Some(Finished(Outcome(Truncate(opts, w.all), w.requests, w.sleeps),
                    AfterSaves(load.store, CheckpointPath(opts), w.saves),
                    w.stopped))
  }

  lemma IdsOfAppend(a: seq<Message>, b: seq<Message>)
    ensures IdsOf(a + b) == IdsOf(a) + IdsOf(b)
  {
    assert forall m :: m in a + b <==> m in a || m in b;
  }

  /** Two fresh batches, the second fresh also against the first, make one fresh batch. */
  lemma {:induction false} FreshAppend(a: seq<Message>, b: seq<Message>, base: set<int>, opts: Options)
    requires FreshBatch(a, base, opts) && FreshBatch(b, base + IdsOf(a), opts)
    ensures FreshBatch(a + b, base, opts)
  {
    forall i, j | 0 <= i < j < |a + b|
      ensures (a + b)[i].id != (a + b)[j].id
    {
      if i < |a| && j >= |a| {
        assert a[i] in a;
        assert a[i].id.value in IdsOf(a);
        assert (a + b)[j] == b[j - |a|];
      }
    }
  }

  /** `r` is `acc` with a fresh batch appended, and the batch's ids added to the seen ones. */
  predicate ScanGrows(acc: Scan, r: Scan, opts: Options)
  {
    |acc.accepted| <= |r.accepted| && r.accepted[..|acc.accepted|] == acc.accepted
    && FreshBatch(r.accepted[|acc.accepted|..], acc.seen, opts)
    && r.seen == acc.seen + IdsOf(r.accepted[|acc.accepted|..])
  }

  lemma ScanGrowsRefl(acc: Scan, opts: Options)
    ensures ScanGrows(acc, acc.(hitUntil := true), opts) && ScanGrows(acc, acc, opts)
  {
    assert acc.accepted[|acc.accepted|..] == [];
  }

  /** Accepting one admissible message with an unseen id, then growing further, grows the scan. */
  lemma AcceptOne(acc: Scan, m: Message, r: Scan, opts: Options)
    requires Admissible(m, opts) && m.id.value !in acc.seen
    requires ScanGrows(Scan(acc.accepted + [m], acc.seen + {m.id.value}, acc.hitUntil), r, opts)
    ensures ScanGrows(acc, r, opts)
  {
    var n := |acc.accepted|;
    var rest := r.accepted[n + 1..];
    assert r.accepted[..n] == acc.accepted;
    assert r.accepted[n..] == [m] + rest;
    assert IdsOf([m]) == {m.id.value};
    FreshAppend([m], rest, acc.seen, opts);
    IdsOfAppend([m], rest);
  }

  /**
   * The page scan only appends: what it appends are admissible messages
   * whose ids were not seen and are pairwise different, and the ids seen
   * grow by exactly their ids.
   */
  lemma {:induction false} ScanIsFresh(page: seq<Fetched>, opts: Options, i: nat, acc: Scan)
    requires i <= |page|
    ensures ScanGrows(acc, ScanFrom(page, opts, i, acc), opts)
    decreases |page| - i
  {
    ScanGrowsRefl(acc, opts);
    if i < |page| {
      var f := page[i];
      if f.id in acc.seen {
        ScanIsFresh(page, opts, i + 1, acc);
      } else if opts.untilDay.Some? && f.day.Some? && f.day.value < opts.untilDay.value {
      } else if opts.fromDay.Some? && f.day.Some? && f.day.value > opts.fromDay.value {
        ScanIsFresh(page, opts, i + 1, acc);
      } else if opts.sinceId.None? || f.id > opts.sinceId.value {
        var acc' := Scan(acc.accepted + [ToMessage(f)], acc.seen + {f.id}, acc.hitUntil);
        ScanIsFresh(page, opts, i + 1, acc');
        AcceptOne(acc, ToMessage(f), ScanFrom(page, opts, i + 1, acc'), opts);
      } else {
        ScanIsFresh(page, opts, i + 1, acc);
      }
    }
  }

  // ---------------------------------------------------------------------------
  // Where the page scan stops and what it takes
  // ---------------------------------------------------------------------------

  /** A message that `from_date` does not skip and that lies above `since_id`: what the scan takes once it is new. */
  predicate Passes(f: Fetched, opts: Options)
  {
    !(opts.fromDay.Some? && f.day.Some? && f.day.value > opts.fromDay.value)
    && (opts.sinceId.None? || f.id > opts.sinceId.value)
  }

  /** The messages of `ps` that pass, in order. */
  function Eligible(ps: seq<Fetched>, opts: Options): (r: seq<Fetched>)
    ensures |r| <= |ps|
  {
    if ps == [] then []
    else
      var n := |ps| - 1;
      Eligible(ps[..n], opts) + (if Passes(ps[n], opts) then [ps[n]] else [])
  }

  function FetchedIds(ps: seq<Fetched>): set<int>
  {
    set f | f in ps :: f.id
  }

  /** The first message of each id in `ps` whose id is not in `seen`, in order. */
  function FirstNew(ps: seq<Fetched>, seen: set<int>): (r: seq<Fetched>)
    ensures |r| <= |ps|
  {
    if ps == [] then []
    else
      var n := |ps| - 1;
      FirstNew(ps[..n], seen) + (if ps[n].id in seen || ps[n].id in FetchedIds(ps[..n]) then [] else [ps[n]])
  }

  function ToMessages(ps: seq<Fetched>): (r: seq<Message>)
    ensures |r| == |ps|
  {
    seq(|ps|, k requires 0 <= k < |ps| => ToMessage(ps[k]))
  }

  /**
   * The `j`-th message ends the scan: it is dated before the `until` day and
   * was not skipped as already collected, that is its id is neither in
   * `seen` nor the id of an earlier message that passes.
   */
  predicate Crosses(page: seq<Fetched>, opts: Options, seen: set<int>, j: nat)
    requires j < |page|
  {
    opts.untilDay.Some? && page[j].day.Some? && page[j].day.value < opts.untilDay.value
    && page[j].id !in seen && page[j].id !in FetchedIds(Eligible(page[..j], opts))
  }

  /** The first position from `j` on where the scan stops, or the page's length when it reads the whole page. */
  function BoundaryFrom(page: seq<Fetched>, opts: Options, seen: set<int>, j: nat): (b: nat)
    requires j <= |page|
    ensures j <= b <= |page|
    ensures b < |page| ==> Crosses(page, opts, seen, b)
    decreases |page| - j
  {
    if j == |page| then |page|
    else if Crosses(page, opts, seen, j) then j
    else BoundaryFrom(page, opts, seen, j + 1)
  }

  /** The first position where the scan stops: no position before it crosses the `until` day. */
  function Boundary(page: seq<Fetched>, opts: Options, seen: set<int>): (b: nat)
    ensures b <= |page|
    ensures b < |page| ==> Crosses(page, opts, seen, b)
  {
    BoundaryFrom(page, opts, seen, 0)
  }

  lemma {:induction false} BoundaryFromFirst(page: seq<Fetched>, opts: Options, seen: set<int>, j: nat, k: nat)
    requires j <= |page| && j <= k < BoundaryFrom(page, opts, seen, j)
    ensures !Crosses(page, opts, seen, k)
    decreases |page| - j
  {
    if j < k {
      BoundaryFromFirst(page, opts, seen, j + 1, k);
    }
  }

  /** No message before the boundary crosses the `until` day. */
  lemma BoundaryIsFirst(page: seq<Fetched>, opts: Options, seen: set<int>, k: nat)
    requires k < Boundary(page, opts, seen)
    ensures !Crosses(page, opts, seen, k)
  {
    BoundaryFromFirst(page, opts, seen, 0, k);
  }

  lemma FetchedIdsSnoc(ps: seq<Fetched>, f: Fetched)
    ensures FetchedIds(ps + [f]) == FetchedIds(ps) + {f.id}
  {
    assert forall g :: g in ps + [f] <==> g in ps || g == f;
  }

  lemma {:induction false} FirstNewIds(ps: seq<Fetched>, seen: set<int>)
    ensures seen + FetchedIds(FirstNew(ps, seen)) == seen + FetchedIds(ps)
  {
    if ps != [] {
      var n := |ps| - 1;
      FirstNewIds(ps[..n], seen);
      assert ps == ps[..n] + [ps[n]];
      FetchedIdsSnoc(ps[..n], ps[n]);
      if !(ps[n].id in seen || ps[n].id in FetchedIds(ps[..n])) {
        assert FirstNew(ps, seen) == FirstNew(ps[..n], seen) + [ps[n]];
        FetchedIdsSnoc(FirstNew(ps[..n], seen), ps[n]);
      } else {
        assert FirstNew(ps, seen) == FirstNew(ps[..n], seen);
      }
    }
  }

  /** One more message of the page, before the boundary: the scan's state follows `Eligible` and `FirstNew`. */
  lemma PrefixStep(page: seq<Fetched>, opts: Options, seen: set<int>, i: nat)
    requires i < |page|
    ensures Eligible(page[..i + 1], opts) == Eligible(page[..i], opts) + (if Passes(page[i], opts) then [page[i]] else [])
    ensures var e := Eligible(page[..i], opts);
      FirstNew(Eligible(page[..i + 1], opts), seen)
        == FirstNew(e, seen) + (if Passes(page[i], opts) && page[i].id !in seen + FetchedIds(e) then [page[i]] else [])
    ensures seen + FetchedIds(Eligible(page[..i + 1], opts))
        == seen + FetchedIds(Eligible(page[..i], opts)) + (if Passes(page[i], opts) then {page[i].id} else {})
  {
    assert page[..i + 1][..i] == page[..i];
    var e := Eligible(page[..i], opts);
    if Passes(page[i], opts) {
      var x := page[i];
      assert (e + [x])[..|e|] == e;
      assert (e + [x])[|e|] == x;
      FetchedIdsSnoc(e, x);
      assert FirstNew(e + [x], seen) == FirstNew(e, seen) + (if x.id in seen || x.id in FetchedIds(e) then [] else [x]);
      assert Eligible(page[..i + 1], opts) == e + [x];
    } else {
      assert Eligible(page[..i + 1], opts) == e;
    }
  }

  function ScanState(page: seq<Fetched>, opts: Options, seen: set<int>, b: nat, hit: bool): Scan
    requires b <= |page|
  {
    var e := Eligible(page[..b], opts);
    Scan(ToMessages(FirstNew(e, seen)), seen + FetchedIds(e), hit)
  }

  lemma ToMessagesSnoc(ps: seq<Fetched>, f: Fetched)
    ensures ToMessages(ps + [f]) == ToMessages(ps) + [ToMessage(f)]
  {
  }

  /** The scan from position `i`, in the state the prefix before `i` leaves, ends at the boundary in the state of its prefix. */
  lemma {:induction false} ScanFromBoundary(page: seq<Fetched>, opts: Options, seen: set<int>, i: nat)
    requires i <= |page|
    ensures var b := BoundaryFrom(page, opts, seen, i);
      ScanFrom(page, opts, i, ScanState(page, opts, seen, i, false)) == ScanState(page, opts, seen, b, b < |page|)
    decreases |page| - i
  {
    if i < |page| {
      var f := page[i];
      var acc := ScanState(page, opts, seen, i, false);
      var e := Eligible(page[..i], opts);
      PrefixStep(page, opts, seen, i);
      FirstNewIds(e, seen);
      if f.id in acc.seen {
        assert !Crosses(page, opts, seen, i);
        assert ScanState(page, opts, seen, i + 1, false) == acc;
        ScanFromBoundary(page, opts, seen, i + 1);
      } else if opts.untilDay.Some? && f.day.Some? && f.day.value < opts.untilDay.value {
        assert Crosses(page, opts, seen, i);
      } else if !Passes(f, opts) {
        assert ScanState(page, opts, seen, i + 1, false) == acc;
        ScanFromBoundary(page, opts, seen, i + 1);
      } else {
        ToMessagesSnoc(FirstNew(e, seen), f);
        assert ScanState(page, opts, seen, i + 1, false)
            == Scan(acc.accepted + [ToMessage(f)], acc.seen + {f.id}, acc.hitUntil);
        ScanFromBoundary(page, opts, seen, i + 1);
      }
    }
  }

  /**
   * The page scan stops exactly at the first message that is dated before
   * the `until` day and not already collected, and takes, in order, the first
   * message of each new id among those before that point that `from_date`
   * does not skip and that lie above `since_id`; a message `from_date`
   * skips does not end the scan.
   */
  lemma ScanStopsAtBoundary(page: seq<Fetched>, opts: Options, seen: set<int>)
    ensures var b := Boundary(page, opts, seen);
      var r := ScanPage(page, opts, seen);
      && (r.hitUntil <==> b < |page|)
      && r.accepted == ToMessages(FirstNew(Eligible(page[..b], opts), seen))
      && r.seen == seen + FetchedIds(Eligible(page[..b], opts))
  {
    assert page[..0] == [];
    assert ScanState(page, opts, seen, 0, false) == Scan([], seen, false);
    ScanFromBoundary(page, opts, seen, 0);
  }

  /** Every request asks for `request_limit` messages above `since_id`, with the date bound of `from_date`. */
  predicate RequestsWellFormed(opts: Options, requests: seq<Request>)
  {
    forall j :: 0 <= j < |requests| ==> requests[j] == RequestAt(opts, requests[j].offsetId)
  }

  /**
   * What holds of the walk at every iteration: the loaded messages come
   * first, everything collected after them is a fresh batch, the seen ids
   * are exactly the ids collected, and every request is well formed.
   */
  predicate Consistent(opts: Options, loaded: seq<Message>, w: Walk)
  {
    |loaded| <= |w.all| && w.all[..|loaded|] == loaded
    && FreshBatch(w.all[|loaded|..], IdsOf(loaded), opts)
    && w.seen == IdsOf(w.all)
    && RequestsWellFormed(opts, w.requests)
  }

  lemma BeginConsistent(opts: Options, loaded: seq<Message>, lastId: int)
    ensures Consistent(opts, loaded, Begin(opts, loaded, lastId))
  {
    assert loaded[|loaded|..] == [];
  }

  /** What one iteration does to the requests, the messages and the seen ids. */
  lemma StepEffect(opts: Options, env: Environment, stopFlag: bool, w: Walk, k: nat)
    ensures var r := Step(opts, env, stopFlag, w, k).next;
      var stop := stopFlag || At(env.interrupts, k);
      var result := ResultAt(env, k);
      && r.requests == (if stop then w.requests else w.requests + [RequestAt(opts, w.offset)])
      && (!stop && result.Page? && result.messages != [] ==>
            var sc := ScanPage(result.messages, opts, w.seen);
            r.all == w.all + sc.accepted && r.seen == sc.seen)
      && (stop || !result.Page? || result.messages == [] ==> r.all == w.all && r.seen == w.seen)
  {
  }

  lemma RequestsAppend(opts: Options, requests: seq<Request>, offset: int)
    requires RequestsWellFormed(opts, requests)
    ensures RequestsWellFormed(opts, requests + [RequestAt(opts, offset)])
  {
  }

  /** Appending a fresh batch, with its ids added to the seen ones, keeps the walk consistent. */
  lemma AppendConsistent(opts: Options, loaded: seq<Message>, w: Walk, added: seq<Message>, r: Walk)
    requires Consistent(opts, loaded, w)
    requires FreshBatch(added, w.seen, opts)
    requires r.all == w.all + added && r.seen == w.seen + IdsOf(added)
    requires RequestsWellFormed(opts, r.requests)
    ensures Consistent(opts, loaded, r)
  {
    assert r.all[..|loaded|] == loaded;
    var a := w.all[|loaded|..];
    assert r.all[|loaded|..] == a + added;
    assert w.all == loaded + a;
    IdsOfAppend(loaded, a);
    FreshAppend(a, added, IdsOf(loaded), opts);
    IdsOfAppend(w.all, added);
  }

  lemma StepConsistent(opts: Options, env: Environment, stopFlag: bool, loaded: seq<Message>, w: Walk, k: nat)
    requires Consistent(opts, loaded, w)
    ensures Consistent(opts, loaded, Step(opts, env, stopFlag, w, k).next)
  {
    var r := Step(opts, env, stopFlag, w, k).next;
    StepEffect(opts, env, stopFlag, w, k);
    if !(stopFlag || At(env.interrupts, k)) {
      RequestsAppend(opts, w.requests, w.offset);
    }
    var result := ResultAt(env, k);
    if !(stopFlag || At(env.interrupts, k)) && result.Page? && result.messages != [] {
      var sc := ScanPage(result.messages, opts, w.seen);
      ScanIsFresh(result.messages, opts, 0, Scan([], w.seen, false));
      assert sc.accepted[0..] == sc.accepted && sc.accepted[..0] == [];
      AppendConsistent(opts, loaded, w, sc.accepted, r);
    }
  }

  lemma {:induction false} LoopConsistent(opts: Options, env: Environment, stopFlag: bool, loaded: seq<Message>, w: Walk, k: nat)
    requires k <= |env.results| && Consistent(opts, loaded, w)
    ensures Consistent(opts, loaded, Loop(opts, env, stopFlag, w, k))
    decreases |env.results| - k
  {
    StepConsistent(opts, env, stopFlag, loaded, w, k);
    var turn := Step(opts, env, stopFlag, w, k);
    if turn.more {
      LoopConsistent(opts, env, stopFlag, loaded, turn.next, k + 1);
    }
  }

  /**
   * The messages `download_chat` returns begin with the checkpoint's (as
   * many as fit the total limit); every message after them is admissible
   * under the date window and `since_id`, and no id occurs twice among them
   * or among the checkpoint's ids. Every request was well formed.
   */
  lemma DownloadedMessagesAreFresh(opts: Options, env: Environment, stopFlag: bool, loaded: seq<Message>, lastId: int)
    ensures var w := Walked(opts, env, stopFlag, loaded, lastId);
      var out := Truncate(opts, w.all);
      out == w.all[..|out|]
      && (|loaded| <= |out| ==> out[..|loaded|] == loaded && FreshBatch(out[|loaded|..], IdsOf(loaded), opts))
      && (|out| < |loaded| ==> out == loaded[..|out|])
      && RequestsWellFormed(opts, w.requests)
  {
    BeginConsistent(opts, loaded, lastId);
    LoopConsistent(opts, env, stopFlag, loaded, Begin(opts, loaded, lastId), 0);
    var w := Walked(opts, env, stopFlag, loaded, lastId);
    var out := Truncate(opts, w.all);
    if |loaded| <= |out| {
      assert out[|loaded|..] == w.all[|loaded|..][..|out| - |loaded|];
    }
  }

  /** A stop request seen at the top of the loop ends the walk before any request, and keeps what was collected. */
  lemma StopEndsWalk(opts: Options, env: Environment, stopFlag: bool, w: Walk, k: nat)
    requires stopFlag || At(env.interrupts, k)
    ensures var r := Step(opts, env, stopFlag, w, k).next; var more := Step(opts, env, stopFlag, w, k).more;
      !more && r.stopped && r.all == w.all && r.requests == w.requests && r.saves == w.saves
  {
  }

  /** A download that begins with the stop flag set (or the stop file present) sends no request and returns what it loaded. */
  lemma StoppedBeforeStart(opts: Options, env: Environment, loaded: seq<Message>, lastId: int)
    ensures var w := Walked(opts, env, true, loaded, lastId);
      w.stopped && w.requests == [] && w.all == loaded
      && w.saves == (if Saving(opts) && loaded != [] then [loaded] else [])
  {
    assert Step(opts, env, true, Begin(opts, loaded, lastId), 0).more == false;
  }

  /**
   * A rate-limit error: the walk sleeps one second longer than asked,
   * checkpoints what it has when saving, and goes on from the same cursor
   * with nothing collected.
   */
  lemma FloodWaitRetries(opts: Options, env: Environment, stopFlag: bool, w: Walk, k: nat, n: nat)
    requires !(stopFlag || At(env.interrupts, k)) && ResultAt(env, k) == FloodWait(n)
    ensures var r := Step(opts, env, stopFlag, w, k).next; var more := Step(opts, env, stopFlag, w, k).more;
      more && r.offset == w.offset && r.all == w.all && r.seen == w.seen
      && r.sleeps == w.sleeps + [n + 1]
      && r.saves == (if Saving(opts) && w.all != [] then w.saves + [w.all] else w.saves)
  {
  }

  /** An empty page ends the walk. */
  lemma EmptyPageEndsWalk(opts: Options, env: Environment, stopFlag: bool, w: Walk, k: nat)
    requires !(stopFlag || At(env.interrupts, k)) && ResultAt(env, k) == Page([])
    ensures var r := Step(opts, env, stopFlag, w, k).next; var more := Step(opts, env, stopFlag, w, k).more;
      !more && r.all == w.all && |r.requests| == |w.requests| + 1
  {
  }

  /** Crossing the `until` day ends the walk, whether or not the page gave new messages. */
  lemma UntilBoundaryEndsWalk(opts: Options, env: Environment, stopFlag: bool, w: Walk, k: nat)
    requires !(stopFlag || At(env.interrupts, k)) && ResultAt(env, k).Page?
    requires ScanPage(ResultAt(env, k).messages, opts, w.seen).hitUntil
    ensures !Step(opts, env, stopFlag, w, k).more
  {
  }

  /**
   * With an `until` day, a page that adds something but less than its raw
   * length ends the walk, whatever caused the shortfall (a crossed boundary,
   * a duplicate, a message outside the window); the cursor stays where it was.
   */
  lemma UntilShortfallEndsWalk(opts: Options, env: Environment, stopFlag: bool, w: Walk, k: nat)
    requires !(stopFlag || At(env.interrupts, k)) && ResultAt(env, k).Page?
    requires opts.untilDay.Some? && ResultAt(env, k).messages != []
    requires var sc := ScanPage(ResultAt(env, k).messages, opts, w.seen);
      sc.accepted != [] && |sc.accepted| < |ResultAt(env, k).messages|
    ensures var turn := Step(opts, env, stopFlag, w, k);
      !turn.more && turn.next.offset == w.offset
      && turn.next.all == w.all + ScanPage(ResultAt(env, k).messages, opts, w.seen).accepted
  {
  }

  /**
   * A duplicate alone is enough: with an `until` day far in the past, the
   * page [5, 4] after 4 was already collected adds 5 and ends the walk.
   */
  lemma UntilDuplicateEndsWalk()
    ensures var opts := Options(100, 0, None, false, Some(0), None, None);
      var env := Environment([Page([Fetched(5, Some(10)), Fetched(4, Some(10))]), Page([Fetched(3, Some(10))])], [], []);
      var w := Walked(opts, env, false, [Msg(4)], 4);
      w.all == [Msg(4), Message(Some(5), Some(10))] && |w.requests| == 1
  {
    var opts := Options(100, 0, None, false, Some(0), None, None);
    var page := [Fetched(5, Some(10)), Fetched(4, Some(10))];
    var env := Environment([Page(page), Page([Fetched(3, Some(10))])], [], []);
    var w0 := Begin(opts, [Msg(4)], 4);
    assert w0.seen == {4} by {
      assert IdsOf([Msg(4)]) == {4};
    }
    var five := Message(Some(5), Some(10));
    assert ScanFrom(page, opts, 2, Scan([five], {4, 5}, false)) == Scan([five], {4, 5}, false);
    assert ScanFrom(page, opts, 1, Scan([five], {4, 5}, false)) == Scan([five], {4, 5}, false);
    assert ScanFrom(page, opts, 0, Scan([], {4}, false)) == Scan([five], {4, 5}, false);
    UntilShortfallEndsWalk(opts, env, false, w0, 0);
    LoopUnfold(opts, env, false, w0, 0);
  }

  /**
   * When the walk goes on after a page, the new cursor is the page's
   * smallest id (no message of the page lies below it) and, with
   * `since_id`, it is still above `since_id`.
   */
  lemma CursorFollowsPage(opts: Options, env: Environment, stopFlag: bool, w: Walk, k: nat)
    requires !(stopFlag || At(env.interrupts, k)) && ResultAt(env, k).Page?
    requires Step(opts, env, stopFlag, w, k).more
    ensures var page := ResultAt(env, k).messages; var r := Step(opts, env, stopFlag, w, k).next;
      page != [] && r.offset == MinId(page)
      && (forall i :: 0 <= i < |page| ==> r.offset <= page[i].id)
      && (opts.sinceId.Some? ==> r.offset > opts.sinceId.value)
  {
  }

  /** The walk goes on past the total limit only after a step that collected nothing. */
  lemma TotalLimitEndsWalk(opts: Options, env: Environment, stopFlag: bool, w: Walk, k: nat)
    requires opts.totalLimit > 0
    ensures var r := Step(opts, env, stopFlag, w, k).next; var more := Step(opts, env, stopFlag, w, k).more;
      more && |r.all| >= opts.totalLimit ==> r.all == w.all
  {
  }

  /** The final checkpoint save, when there is one, holds everything collected. */
  lemma FinalSaveHoldsAll(opts: Options, env: Environment, stopFlag: bool, loaded: seq<Message>, lastId: int)
    requires Saving(opts)
    ensures var w := Walked(opts, env, stopFlag, loaded, lastId);
      w.all != [] ==> |w.saves| > 0 && w.saves[|w.saves| - 1] == w.all
  {
  }

  /**
   * The first request starts from the checkpoint's last id when resuming a
   * first-time download, and from the newest message otherwise.
   */
  lemma FirstRequestCursor(opts: Options, env: Environment, loaded: seq<Message>, lastId: int)
    requires !At(env.interrupts, 0)
    ensures var w := Walked(opts, env, false, loaded, lastId);
      |w.requests| >= 1
      && w.requests[0].offsetId == (if loaded != [] && opts.sinceId.None? then lastId else 0)
  {
    var w0 := Begin(opts, loaded, lastId);
    var first := RequestAt(opts, w0.offset);
    var turn := Step(opts, env, false, w0, 0);
    StepEffect(opts, env, false, w0, 0);
    assert turn.next.requests == [first];
    LoopUnfold(opts, env, false, w0, 0);
    var l := Loop(opts, env, false, w0, 0);
    if turn.more {
      LoopExtends(opts, env, false, turn.next, 1);
      assert l.requests[..1] == [first];
    }
    assert l.requests[0] == first;
    assert Walked(opts, env, false, loaded, lastId).requests == l.requests;
  }

  /** The loop only appends to the requests and to the messages collected. */
  lemma {:induction false} LoopExtends(opts: Options, env: Environment, stopFlag: bool, w: Walk, k: nat)
    requires k <= |env.results|
    ensures var r := Loop(opts, env, stopFlag, w, k);
      |w.requests| <= |r.requests| && r.requests[..|w.requests|] == w.requests
      && |w.all| <= |r.all| && r.all[..|w.all|] == w.all
    decreases |env.results| - k
  {
    var turn := Step(opts, env, stopFlag, w, k);
    assert turn.next.requests[..|w.requests|] == w.requests;
    assert turn.next.all[..|w.all|] == w.all;
    if turn.more {
      LoopExtends(opts, env, stopFlag, turn.next, k + 1);
    }
  }

  function Msg(id: int): Message { Message(Some(id), None) }

  /**
   * An incremental update with `since_id = 8` over pages [10, 9] and [8, 7]:
   * it keeps 10 and 9, moves the cursor to 9, and stops on the second page,
   * which holds nothing above 8.
   */
  lemma SinceIdExample()
    ensures var opts := Options(2, 0, None, true, None, None, Some(8));
      var env := Environment([Page([Fetched(10, None), Fetched(9, None)]), Page([Fetched(8, None), Fetched(7, None)])], [], []);
      var w := Walked(opts, env, false, [], 0);
      w.all == [Msg(10), Msg(9)] && w.requests == [RequestAt(opts, 0), RequestAt(opts, 9)]
  {
    var opts := Options(2, 0, None, true, None, None, Some(8));
    var p1 := [Fetched(10, None), Fetched(9, None)];
    var p2 := [Fetched(8, None), Fetched(7, None)];
    var env := Environment([Page(p1), Page(p2)], [], []);
    SinceIdScans();
    var w0 := Begin(opts, [], 0);
    assert w0.seen == {} by {
      assert IdsOf([]) == {};
    }
    var first := Step(opts, env, false, w0, 0);
    assert first.more && first.next.offset == 9 && first.next.seen == {10, 9};
    var second := Step(opts, env, false, first.next, 1);
    assert !second.more;
    LoopUnfold(opts, env, false, w0, 0);
    LoopUnfold(opts, env, false, first.next, 1);
  }

  lemma SinceIdScans()
    ensures var opts := Options(2, 0, None, true, None, None, Some(8));
      && ScanPage([Fetched(10, None), Fetched(9, None)], opts, {}) == Scan([Msg(10), Msg(9)], {10, 9}, false)
      && ScanPage([Fetched(8, None), Fetched(7, None)], opts, {10, 9}).accepted == []
  {
    var opts := Options(2, 0, None, true, None, None, Some(8));
    var p1 := [Fetched(10, None), Fetched(9, None)];
    assert ScanFrom(p1, opts, 2, Scan([Msg(10), Msg(9)], {10, 9}, false)) == Scan([Msg(10), Msg(9)], {10, 9}, false);
    assert ScanFrom(p1, opts, 1, Scan([Msg(10)], {10}, false)) == Scan([Msg(10), Msg(9)], {10, 9}, false);
    assert ScanFrom(p1, opts, 0, Scan([], {}, false)) == Scan([Msg(10), Msg(9)], {10, 9}, false);
    var p2 := [Fetched(8, None), Fetched(7, None)];
    var s := Scan([], {10, 9}, false);
    assert ScanFrom(p2, opts, 2, s) == s;
    assert ScanFrom(p2, opts, 1, s) == s;
  }

  /**
   * A total limit of 2 over a source that answers every request with the
   * same page [1, 2, 3, 4]: one request, and the first two messages.
   */
  lemma TotalLimitExample()
    ensures var opts := Options(100, 2, None, true, None, None, None);
      var page := [Fetched(1, None), Fetched(2, None), Fetched(3, None), Fetched(4, None)];
      var env := Environment([Page(page), Page(page)], [], []);
      var w := Walked(opts, env, false, [], 0);
      Truncate(opts, w.all) == [Msg(1), Msg(2)] && |w.requests| == 1
  {
    var opts := Options(100, 2, None, true, None, None, None);
    var page := [Fetched(1, None), Fetched(2, None), Fetched(3, None), Fetched(4, None)];
    var env := Environment([Page(page), Page(page)], [], []);
    TotalLimitScan();
    var w0 := Begin(opts, [], 0);
    assert w0.seen == {} by {
      assert IdsOf([]) == {};
    }
    var first := Step(opts, env, false, w0, 0);
    assert !first.more && first.next.all == [Msg(1), Msg(2), Msg(3), Msg(4)];
    LoopUnfold(opts, env, false, w0, 0);
  }

  lemma TotalLimitScan()
    ensures ScanPage([Fetched(1, None), Fetched(2, None), Fetched(3, None), Fetched(4, None)], Options(100, 2, None, true, None, None, None), {}).accepted
      == [Msg(1), Msg(2), Msg(3), Msg(4)]
  {
    var opts := Options(100, 2, None, true, None, None, None);
    var page := [Fetched(1, None), Fetched(2, None), Fetched(3, None), Fetched(4, None)];
    var all := [Msg(1), Msg(2), Msg(3), Msg(4)];
    assert ScanFrom(page, opts, 4, Scan(all, {1, 2, 3, 4}, false)).accepted == all;
    assert ScanFrom(page, opts, 3, Scan(all[..3], {1, 2, 3}, false)).accepted == all;
    assert ScanFrom(page, opts, 2, Scan(all[..2], {1, 2}, false)).accepted == all;
    assert ScanFrom(page, opts, 1, Scan(all[..1], {1}, false)).accepted == all;
    assert ScanFrom(page, opts, 0, Scan([], {}, false)).accepted == all;
  }

  /** The downloader's own state: the stop flag, the stop file, and the checkpoint store. */
  class Downloader {
    var stopRequested: bool
    var stopFile: Option<Path>
    /** Whether the stop file exists on disk. */
    var stopFileExists: bool
    const partial: PartialDownloadManager

    constructor (disk: map<Path, seq<Line>>)
      ensures !stopRequested && stopFile.None? && !stopFileExists
      ensures fresh(partial) && partial.State() == Store(disk, map[])
    {
      stopRequested := false;
      stopFile := None;
      stopFileExists := false;
      partial := new PartialDownloadManager(disk);
    }

    /** Whether the check at the top of the loop would stop right now, before any outside event. */
    function StopFlag(): bool
      reads this
    {
      stopRequested || (stopFile.Some? && stopFileExists)
    }

    /** `stop()`: sets the flag and creates the stop file when one is configured. */
    method Stop()
      modifies this
      ensures stopRequested && stopFile == old(stopFile)
      ensures stopFileExists == (old(stopFileExists) || stopFile.Some?)
    {
      stopRequested := true;
      if stopFile.Some? {
        stopFileExists := true;
      }
    }

    /** `set_stop_file(path)`: records the path and deletes a stale file there. */
    method SetStopFile(path: Path)
      modifies this
      ensures stopFile == Some(path) && !stopFileExists && stopRequested == old(stopRequested)
    {
      stopFile := Some(path);
      stopFileExists := false;
    }

    /** `cleanup_stop_file()`: deletes the stop file if it exists. */
    method CleanupStopFile()
      modifies this
      ensures stopFile == old(stopFile) && stopRequested == old(stopRequested)
      ensures stopFileExists == (old(stopFileExists) && stopFile.None?)
    {
      if stopFile.Some? && stopFileExists {
        stopFileExists := false;
      }
    }

    /**
     * The end of `save_messages`: once the output is written, the checkpoint
     * file is deleted unless the download was stopped, so that a stopped
     * download can resume.
     */
    method DiscardCheckpoint(output: Path)
      requires output.name != ""
      modifies partial
      ensures var temp := TempFilePath(output, None).value;
        partial.files == (if temp in old(partial.files) && !stopRequested then old(partial.files) - {temp} else old(partial.files))
      ensures partial.lastSavedIds == old(partial.lastSavedIds)
    {
      var temp := TempFilePath(output, None).value;
      if temp in partial.files && !stopRequested {
        partial.files := partial.files - {temp};
      }
    }

    /** The loop over one page's messages. */
    method ScanMessages(page: seq<Fetched>, opts: Options, seen: set<int>) returns (s: Scan)
      ensures s == ScanPage(page, opts, seen)
    {
      var accepted: seq<Message> := [];
      var ids := seen;
      var i := 0;
      while i < |page|
        invariant 0 <= i <= |page|
        invariant ScanFrom(page, opts, i, Scan(accepted, ids, false)) == ScanPage(page, opts, seen)
      {
        var f := page[i];
        if f.id in ids {
          i := i + 1;
          continue;
        }
        if opts.untilDay.Some? && f.day.Some? && f.day.value < opts.untilDay.value {
          return Scan(accepted, ids, true);
        }
        if opts.fromDay.Some? && f.day.Some? && f.day.value > opts.fromDay.value {
          i := i + 1;
          continue;
        }
        if opts.sinceId.None? || f.id > opts.sinceId.value {
          ids := ids + {f.id};
          accepted := accepted + [ToMessage(f)];
        }
        i := i + 1;
      }
      return Scan(accepted, ids, false);
    }

    /** One iteration of the `while True` loop of `download_chat`. */
    method Iteration(opts: Options, env: Environment, stopFlag: bool, w: Walk, k: nat) returns (next: Walk, more: bool)
      requires Saving(opts) ==> opts.outputFile.value.name != ""
      requires !w.stopped
      modifies this, partial
      ensures Turn(next, more) == Step(opts, env, stopFlag, w, k)
      ensures partial.State() == (if |next.saves| == |w.saves| then old(partial.State())
                                  else AfterSave(old(partial.State()), CheckpointPath(opts), next.all))
      ensures stopRequested == (old(stopRequested) || next.stopped) && stopFile == old(stopFile)
      ensures stopFileExists == old(stopFileExists)
    {
      if stopFlag || At(env.interrupts, k) {
        stopRequested := true;
        return w.(stopped := true), false;
      }
      var requests := w.requests + [RequestAt(opts, w.offset)];
      var result := ResultAt(env, k);
      if result.FloodWait? {
        var saves := w.saves;
        if Saving(opts) && w.all != [] {
          var _ := partial.SaveMessages(w.all, opts.outputFile.value, None);
          saves := saves + [w.all];
        }
        return w.(requests := requests, saves := saves, sleeps := w.sleeps + [result.seconds + 1]), true;
      }
      var page := result.messages;
      if page == [] {
        return w.(requests := requests), false;
      }
      var scan := ScanMessages(page, opts, w.seen);
      next := w.(requests := requests, all := w.all + scan.accepted, seen := scan.seen);
      if scan.accepted == [] {
        if scan.hitUntil {
          return next, false;
        }
        if opts.fromDay.Some? {
          var offset := MinId(page);
          return next.(offset := offset), !(opts.sinceId.Some? && offset <= opts.sinceId.value);
        }
        return next, false;
      }
      if opts.untilDay.Some? && |scan.accepted| < |page| {
        return next, false;
      }
      next := next.(offset := MinId(page));
      if opts.sinceId.Some? && next.offset <= opts.sinceId.value {
        return next, false;
      }
      if Saving(opts) && At(env.saveDue, k) {
        var _ := partial.SaveMessages(next.all, opts.outputFile.value, None);
        next := next.(saves := next.saves + [next.all]);
      }
      more := !(opts.totalLimit > 0 && |next.all| >= opts.totalLimit);
    }

    /** The `while True` loop of `download_chat`, from the state `start`. */
    method RunLoop(opts: Options, env: Environment, stopFlag: bool, start: Walk) returns (w: Walk)
      requires Saving(opts) ==> opts.outputFile.value.name != ""
      requires !start.stopped && start.saves == []
      modifies this, partial
      ensures w == Loop(opts, env, stopFlag, start, 0)
      ensures partial.State() == AfterSaves(old(partial.State()), CheckpointPath(opts), w.saves)
      ensures stopRequested == (old(stopRequested) || w.stopped)
    {
      w := start;
      var k := 0;
      var more := true;
      while more
        invariant k <= |env.results|
        invariant more ==> !w.stopped
        invariant more ==> Loop(opts, env, stopFlag, w, k) == Loop(opts, env, stopFlag, start, 0)
        invariant !more ==> w == Loop(opts, env, stopFlag, start, 0)
        invariant partial.State() == AfterSaves(old(partial.State()), CheckpointPath(opts), w.saves)
        invariant stopRequested == (old(stopRequested) || w.stopped)
        decreases |env.results| - k, more
      {
        LoopAdvance(opts, env, stopFlag, w, k, Loop(opts, env, stopFlag, start, 0));
        StepSaves(opts, env, stopFlag, w, k, old(partial.State()));
        w, more := Iteration(opts, env, stopFlag, w, k);
        if more {
          k := k + 1;
        }
      }
    }

    /** `download_chat`. */
    method DownloadChat(opts: Options, env: Environment) returns (r: Option<Outcome>)
      modifies this, partial
      ensures r.None? <==> Saving(opts) && opts.outputFile.value.name == ""
      ensures r.None? ==> partial.State() == old(partial.State()) && stopRequested == old(stopRequested)
      ensures r.Some? ==>
        var spec := DownloadSpec(opts, env, old(StopFlag()), old(partial.State())).value;
        r.value == spec.outcome && partial.State() == spec.store && stopRequested == (old(stopRequested) || spec.stopped)
    {
      var loaded: seq<Message> := [];
      var lastId := 0;
      if Saving(opts) {
        var ok;
        ok, loaded, lastId := partial.LoadMessages(opts.outputFile.value, None);
        if !ok {
          return None;
        }
      }
      ghost var loadedStore := partial.State();
      assert Loaded(loaded, lastId, loadedStore) ==
        if Saving(opts) then AfterLoad(old(partial.State()), CheckpointPath(opts)) else Loaded([], 0, old(partial.State()));
      var stopFlag := StopFlag();
      var w := RunLoop(opts, env, stopFlag, Begin(opts, loaded, lastId));
      if Saving(opts) && w.all != [] {
        var _ := partial.SaveMessages(w.all, opts.outputFile.value, None);
        w := w.(saves := w.saves + [w.all]);
      }
      assert w == Walked(opts, env, stopFlag, loaded, lastId);
      r := Some(Outcome(Truncate(opts, w.all), w.requests, w.sleeps));
    }
  }
}
