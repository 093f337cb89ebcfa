/**
 * The helpers of the command-line commands: order-preserving deduplication
 * by id, the split of messages by month or year, the subchat filter with its
 * target parser, the keyword filter and keyword report, the argument wiring
 * of a chat download, and the folder expansion.
 */
module Commands {
  import opened Wrappers
  import opened Text
  import opened Json
  import opened Paths
  import opened Arguments

  /** `b` can be turned into `a` by deleting elements. */
  predicate IsSubsequence<T(==)>(a: seq<T>, b: seq<T>)
    decreases |b|
  {
    a == [] || (b != [] &&
      ((a[|a| - 1] == b[|b| - 1] && IsSubsequence(a[..|a| - 1], b[..|b| - 1])) || IsSubsequence(a, b[..|b| - 1])))
  }

  lemma {:induction false} SubsequenceMembers<T>(a: seq<T>, b: seq<T>)
    requires IsSubsequence(a, b)
    ensures forall x :: x in a ==> x in b
    decreases |b|
  {
    if a != [] {
      var a', b' := a[..|a| - 1], b[..|b| - 1];
      if a[|a| - 1] == b[|b| - 1] && IsSubsequence(a', b') {
        SubsequenceMembers(a', b');
        assert a == a' + [a[|a| - 1]] && b == b' + [b[|b| - 1]];
      } else {
        SubsequenceMembers(a, b');
        assert b == b' + [b[|b| - 1]];
      }
    }
  }

  // ---------------------------------------------------------------------
  // Deduplication
  // ---------------------------------------------------------------------

  /** `m.get("id")` for a dict; other values carry no id here. */
  function IdOf(m: Value): Value { Field(m, "id") }

  /** The non-null ids of `ms`, compared as values. */
  function IdSet(ms: seq<Value>): set<Value>
  {
    if ms == [] then {}
    else
      var m := ms[|ms| - 1];
      IdSet(ms[..|ms| - 1]) + (if IdOf(m) != Null then {IdOf(m)} else {})
  }

  lemma {:induction false} IdSetMembers(ms: seq<Value>, v: Value)
    ensures v in IdSet(ms) <==> v != Null && CarriesId(ms, v)
  {
    if ms != [] {
      var n := |ms| - 1;
      IdSetMembers(ms[..n], v);
      CarriesIdSnoc(ms, v);
    }
  }

  /** Some message of `ms` has id `v`. */
  predicate CarriesId(ms: seq<Value>, v: Value)
  {
    exists j :: 0 <= j < |ms| && IdOf(ms[j]) == v
  }

  /** A message with id `v` is in the prefix or is the last one. */
  lemma CarriesIdSnoc(ms: seq<Value>, v: Value)
    requires ms != []
    ensures CarriesId(ms, v) <==> CarriesId(ms[..|ms| - 1], v) || IdOf(ms[|ms| - 1]) == v
  {
    var n := |ms| - 1;
    if CarriesId(ms[..n], v) {
      var j :| 0 <= j < n && IdOf(ms[..n][j]) == v;
      assert ms[j] == ms[..n][j];
    }
    if CarriesId(ms, v) {
      var j :| 0 <= j < |ms| && IdOf(ms[j]) == v;
      if j < n {
        assert ms[..n][j] == ms[j];
      }
    }
  }

  /**
   * What the `seen` set tells message `m` apart by: the Python key of its id
   * (`HashKey`), so `1`, `1.0` and `True` are one id. `None` for a message
   * without an id, and for one whose id is unhashable, where the deduplication
   * raises instead.
   */
  function IdKey(m: Value): Option<Value>
  {
    if IdOf(m) == Null then None else HashKey(IdOf(m))
  }

  /** The `seen` set after `ms`: the keys of the ids met so far. */
  function KeySet(ms: seq<Value>): set<Value>
  {
    if ms == [] then {}
    else
      var k := IdKey(ms[|ms| - 1]);
      KeySet(ms[..|ms| - 1]) + (if k.Some? then {k.value} else {})
  }

  /** Some message of `ms` has an id with key `k`. */
  predicate CarriesKey(ms: seq<Value>, k: Value)
  {
    exists j :: 0 <= j < |ms| && IdKey(ms[j]) == Some(k)
  }

  lemma {:induction false} KeySetMembers(ms: seq<Value>, k: Value)
    ensures k in KeySet(ms) <==> CarriesKey(ms, k)
  {
    if ms != [] {
      var n := |ms| - 1;
      KeySetMembers(ms[..n], k);
      if CarriesKey(ms[..n], k) {
        var j :| 0 <= j < n && IdKey(ms[..n][j]) == Some(k);
        assert ms[j] == ms[..n][j];
      }
      if CarriesKey(ms, k) {
        var j :| 0 <= j < |ms| && IdKey(ms[j]) == Some(k);
        if j < n {
          assert ms[..n][j] == ms[j];
        }
      }
    }
  }

  /** The id of `m` is `None` or hashable: the `seen` set can be asked about it. */
  predicate HashableId(m: Value)
  {
    IdOf(m) == Null || HashKey(IdOf(m)).Some?
  }

  /** Every id of `ms` is `None` or hashable: the deduplication does not raise. */
  predicate IdsHashable(ms: seq<Value>)
  {
    ms == [] || (IdsHashable(ms[..|ms| - 1]) && HashableId(ms[|ms| - 1]))
  }

  /** Each message of a list whose ids are all hashable has a hashable id. */
  lemma {:induction false} IdsHashableAt(ms: seq<Value>, i: nat)
    requires i < |ms| && IdsHashable(ms)
    ensures HashableId(ms[i])
  {
    var n := |ms| - 1;
    if i < n {
      IdsHashableAt(ms[..n], i);
    }
  }

  /** Message `i` has no key, or its key has not been seen before it. */
  predicate IsFirst(ms: seq<Value>, i: nat)
    requires i < |ms|
  {
    IdKey(ms[i]).None? || IdKey(ms[i]).value !in KeySet(ms[..i])
  }

  /** Being first means that no earlier message carries the same key. */
  lemma FirstMeansNoEarlier(ms: seq<Value>, i: nat)
    requires i < |ms|
    ensures IsFirst(ms, i) <==> IdKey(ms[i]).None? || forall j :: 0 <= j < i ==> IdKey(ms[j]) != IdKey(ms[i])
  {
    if IdKey(ms[i]).Some? {
      KeySetMembers(ms[..i], IdKey(ms[i]).value);
    }
    assert forall j :: 0 <= j < i ==> ms[..i][j] == ms[j];
  }

  /**
   * The messages `_dedup_messages` keeps when it does not raise: the first
   * message of each id and every message without one, in order.
   */
  function Dedup(ms: seq<Value>): (r: seq<Value>)
    ensures |r| <= |ms|
  {
    if ms == [] then []
    else
      var n := |ms| - 1;
      Dedup(ms[..n]) + (if IsFirst(ms, n) then [ms[n]] else [])
  }

  /** No two messages whose ids are the same set member. */
  predicate UniqueIds(xs: seq<Value>)
  {
    forall i, j :: 0 <= i < j < |xs| && IdKey(xs[j]).Some? ==> IdKey(xs[i]) != IdKey(xs[j])
  }

  lemma DedupStep(ms: seq<Value>, i: nat)
    requires i < |ms|
    ensures Dedup(ms[..i + 1]) == Dedup(ms[..i]) + (if IsFirst(ms, i) then [ms[i]] else [])
    ensures KeySet(ms[..i + 1]) == KeySet(ms[..i]) + (if IdKey(ms[i]).Some? then {IdKey(ms[i]).value} else {})
  {
    var p := ms[..i + 1];
    assert p[..i] == ms[..i] && p[i] == ms[i];
  }

  /** One turn of the deduplication loop, stated on the loop's own variables. */
  lemma DedupLoopStep(ms: seq<Value>, i: nat, kept: seq<Value>, seen: set<Value>)
    requires i < |ms| && kept == Dedup(ms[..i]) && seen == KeySet(ms[..i])
    ensures var key := IdKey(ms[i]);
      && (key.None? || key.value !in seen ==> Dedup(ms[..i + 1]) == kept + [ms[i]])
      && (key.Some? && key.value in seen ==> Dedup(ms[..i + 1]) == kept)
      && (key.Some? ==> KeySet(ms[..i + 1]) == seen + {key.value})
      && (key.None? ==> KeySet(ms[..i + 1]) == seen)
      && (IdsHashable(ms[..i]) && HashableId(ms[i]) ==> IdsHashable(ms[..i + 1]))
      && (!HashableId(ms[i]) ==> !IdsHashable(ms))
  {
    DedupStep(ms, i);
    var p := ms[..i + 1];
    assert p[..i] == ms[..i] && p[i] == ms[i];
    if IdsHashable(ms) {
      IdsHashableAt(ms, i);
    }
  }

  /**
   * `_dedup_messages`: keeps the first message of each id and every id-less
   * one, in order. `None` is the `TypeError` of an id the set cannot hold.
   */
  method DedupMessages(messages: seq<Value>) returns (deduped: Option<seq<Value>>)
    ensures deduped.Some? <==> IdsHashable(messages)
    ensures deduped.Some? ==> deduped.value == Dedup(messages)
  {
    var seen: set<Value> := {};
    var kept := [];
    var i := 0;
    while i < |messages|
      invariant 0 <= i <= |messages|
      invariant kept == Dedup(messages[..i])
      invariant seen == KeySet(messages[..i])
      invariant IdsHashable(messages[..i])
    {
      var m := messages[i];
      var key := IdKey(m);
      DedupLoopStep(messages, i, kept, seen);
      if !HashableId(m) {
        return None;
      }
      if key.None? || key.value !in seen {
        if key.Some? {
          seen := seen + {key.value};
        }
        kept := kept + [m];
      } else {
        assert seen + {key.value} == seen;
      }
      i := i + 1;
    }
    assert messages[..i] == messages;
    deduped := Some(kept);
  }

  /** The result holds the key of every id of the input, each exactly once. */
  lemma {:induction false} DedupIds(ms: seq<Value>)
    ensures KeySet(Dedup(ms)) == KeySet(ms)
    ensures UniqueIds(Dedup(ms))
  {
    if ms != [] {
      var n := |ms| - 1;
      var p := ms[..n];
      var r' := Dedup(p);
      var m := ms[n];
      DedupIds(p);
      assert ms == p + [m] && ms[..n] == p;
      if IsFirst(ms, n) {
        var r := r' + [m];
        assert r[..|r| - 1] == r' && Dedup(ms) == r;
        forall i, j | 0 <= i < j < |r| && IdKey(r[j]).Some?
          ensures IdKey(r[i]) != IdKey(r[j])
        {
          assert r[i] == r'[i];
          if j == |r'| {
            KeySetMembers(r', IdKey(m).value);
          } else {
            assert r[j] == r'[j];
          }
        }
      } else {
        assert Dedup(ms) == r';
        assert KeySet(ms) == KeySet(p) + {IdKey(m).value};
      }
    }
  }

  /** A list whose ids are already distinct is returned unchanged. */
  lemma {:induction false} DedupOfUnique(xs: seq<Value>)
    requires UniqueIds(xs)
    ensures Dedup(xs) == xs
  {
    if xs != [] {
      var n := |xs| - 1;
      assert UniqueIds(xs[..n]);
      DedupOfUnique(xs[..n]);
      FirstMeansNoEarlier(xs, n);
      assert xs == xs[..n] + [xs[n]];
    }
  }

  /** Deduplicating twice gives the same list as deduplicating once. */
  lemma DedupIdempotent(ms: seq<Value>)
    ensures Dedup(Dedup(ms)) == Dedup(ms)
  {
    DedupIds(ms);
    DedupOfUnique(Dedup(ms));
  }

  /** The result keeps the input's order: it is the input with some messages deleted. */
  lemma {:induction false} DedupSubsequence(ms: seq<Value>)
    ensures IsSubsequence(Dedup(ms), ms)
  {
    if ms != [] {
      var n := |ms| - 1;
      DedupSubsequence(ms[..n]);
      var r := Dedup(ms);
      assert ms[..|ms| - 1] == ms[..n];
      if IsFirst(ms, n) {
        assert r[..|r| - 1] == Dedup(ms[..n]) && r[|r| - 1] == ms[n];
      } else {
        assert r == Dedup(ms[..n]);
      }
    }
  }

  /** Every message that is the first of its id, or has none, is kept. */
  lemma {:induction false} DedupKeepsFirsts(ms: seq<Value>, i: nat)
    requires i < |ms| && IsFirst(ms, i)
    ensures ms[i] in Dedup(ms)
  {
    var n := |ms| - 1;
    if i < n {
      assert IsFirst(ms[..n], i) by {
        assert ms[..n][..i] == ms[..i] && ms[..n][i] == ms[i];
      }
      DedupKeepsFirsts(ms[..n], i);
    }
  }

  /** `1`, `1.0` and `True` are one id, so only the first of them is kept. */
  lemma DedupNumericIds(a: Value, b: Value, c: Value)
    requires IdOf(a) == Int(1) && IdOf(b) == Float(1.0) && IdOf(c) == Bool(true)
    ensures Dedup([a, b, c]) == [a]
  {
    var ms := [a, b, c];
    assert IdKey(a) == Some(Int(1)) && IdKey(b) == Some(Int(1)) && IdKey(c) == Some(Int(1));
    FirstOfAll(ms);
    assert Dedup(ms[..1]) == [a] by {
      DedupStep(ms, 0);
      assert ms[..0] == [];
    }
    assert Dedup(ms[..2]) == [a] by {
      DedupStep(ms, 1);
    }
    assert Dedup(ms[..3]) == [a] by {
      DedupStep(ms, 2);
    }
    assert ms[..3] == ms;
  }

  /** A list id makes the deduplication raise. */
  lemma DedupListIdRaises(a: Value, l: Value)
    requires IdOf(l) == List([Int(1)])
    ensures !IdsHashable([a, l])
  {
    assert IdOf([a, l][1]) == List([Int(1)]);
  }

  /** After the first message, every later one with the same key is a repeat. */
  lemma FirstOfAll(ms: seq<Value>)
    requires |ms| > 1 && IdKey(ms[0]).Some?
    ensures forall i | 0 < i < |ms| && IdKey(ms[i]) == IdKey(ms[0]) :: !IsFirst(ms, i)
  {
    forall i | 0 < i < |ms| && IdKey(ms[i]) == IdKey(ms[0])
      ensures !IsFirst(ms, i)
    {
      FirstMeansNoEarlier(ms, i);
      assert IdKey(ms[0]) == IdKey(ms[i]);
    }
  }

  // ---------------------------------------------------------------------
  // Split by date
  // ---------------------------------------------------------------------

  /** A calendar date as `datetime` holds it. */
  datatype Date = Date(year: int, month: int, day: int)

  /** The group key: `strftime("%Y-%m")` for a monthly split, `strftime("%Y")` otherwise. */
  datatype SplitKey = YearKey(year: int) | MonthKey(year: int, month: int)

  /** Stands for `datetime.fromisoformat`: `None` where it raises `ValueError`. */
  type IsoParser = string -> Option<Date>

  /**
   * `_parse_date`: nothing for a falsy value, otherwise what `fromisoformat`
   * makes of its text with `Z` read as `+00:00`. A `datetime` value is an
   * `Opaque` whose text `fromisoformat` reads back to the same date.
   */
  function ParseDate(v: Value, iso: IsoParser): (r: Option<Date>)
    ensures !Truthy(v) ==> r.None?
    ensures v.Str? && Truthy(v) ==> r == iso(ReplaceAll(v.s, "Z", "+00:00"))
  {
    if !Truthy(v) then None
    else match PyStr(v)
      case None => None
      case Some(s) => iso(ReplaceAll(s, "Z", "+00:00"))
  }

  function KeyOf(d: Date, split: string): SplitKey
  {
    if split == "month" then MonthKey(d.year, d.month) else YearKey(d.year)
  }

  /** The group a message goes to, or none when it has no parseable `date`. */
  function MessageKey(msg: Value, split: string, iso: IsoParser): Option<SplitKey>
  {
    match ParseDate(Field(msg, "date"), iso)
    case None => None
    case Some(d) => Some(KeyOf(d, split))
  }

  /** The result dictionary: keys in insertion order, each with its messages. */
  type Groups = seq<(SplitKey, seq<Value>)>

  function GroupOf(g: Groups, k: SplitKey): Option<seq<Value>>
  {
    if g == [] then None else if g[0].0 == k then Some(g[0].1) else GroupOf(g[1..], k)
  }

  predicate DistinctKeys(g: Groups)
  {
    forall i, j :: 0 <= i < j < |g| ==> g[i].0 != g[j].0
  }

  /** `groups.setdefault(k, []).append(m)`. */
  function AddTo(g: Groups, k: SplitKey, m: Value): (r: Groups)
    ensures GroupOf(r, k) == Some(GroupOf(g, k).GetOr([]) + [m])
    ensures forall k' :: k' != k ==> GroupOf(r, k') == GroupOf(g, k')
    ensures forall i :: 0 <= i < |r| ==> r[i].0 == k || exists j :: 0 <= j < |g| && g[j].0 == r[i].0
    ensures DistinctKeys(g) ==> DistinctKeys(r)
  {
    if g == [] then
      var r := [(k, [m])];
      assert r[1..] == [] && GroupOf(g, k).GetOr([]) + [m] == [m];
      r
    else if g[0].0 == k then
      var r := [(k, g[0].1 + [m])] + g[1..];
      assert r[1..] == g[1..];
      r
    else
      var rest := AddTo(g[1..], k, m);
      assert forall i :: 0 < i < |g| ==> g[1..][i - 1] == g[i];
      var r := [g[0]] + rest;
      assert r[0] == g[0] && r[1..] == rest;
      r
  }

  /** The messages of `ms`, in order, whose key is `k`. */
  function WithKey(ms: seq<Value>, split: string, iso: IsoParser, k: SplitKey): seq<Value>
  {
    if ms == [] then []
    else
      var n := |ms| - 1;
      WithKey(ms[..n], split, iso, k) + (if MessageKey(ms[n], split, iso) == Some(k) then [ms[n]] else [])
  }

  /** `split_messages_by_date`. */
  function SplitByDate(ms: seq<Value>, split: string, iso: IsoParser): Groups
  {
    if ms == [] then []
    else
      var n := |ms| - 1;
      var g := SplitByDate(ms[..n], split, iso);
      match MessageKey(ms[n], split, iso)
      case None => g
      case Some(k) => AddTo(g, k, ms[n])
  }

  /**
   * Each key's group holds exactly the messages with that key, in input
   * order, and a key no message has gets no group.
   */
  lemma {:induction false} SplitGroups(ms: seq<Value>, split: string, iso: IsoParser, k: SplitKey)
    ensures GroupOf(SplitByDate(ms, split, iso), k) ==
      (var w := WithKey(ms, split, iso, k); if w == [] then None else Some(w))
  {
    if ms != [] {
      var n := |ms| - 1;
      var g := SplitByDate(ms[..n], split, iso);
      var w' := WithKey(ms[..n], split, iso, k);
      SplitGroups(ms[..n], split, iso, k);
      match MessageKey(ms[n], split, iso)
      case None =>
        assert WithKey(ms, split, iso, k) == w';
      case Some(k') =>
        assert SplitByDate(ms, split, iso) == AddTo(g, k', ms[n]);
        if k' == k {
          assert WithKey(ms, split, iso, k) == w' + [ms[n]];
        } else {
          assert WithKey(ms, split, iso, k) == w';
        }
    }
  }

  /** No key appears twice in the result. */
  lemma {:induction false} SplitKeysDistinct(ms: seq<Value>, split: string, iso: IsoParser)
    ensures DistinctKeys(SplitByDate(ms, split, iso))
  {
    if ms != [] {
      SplitKeysDistinct(ms[..|ms| - 1], split, iso);
    }
  }

  /**
   * A group is the input with the other messages deleted: it keeps input
   * order and holds exactly the messages whose key is `k`, so a message
   * without a parseable date lands in no group.
   */
  lemma {:induction false} WithKeyIsFilter(ms: seq<Value>, split: string, iso: IsoParser, k: SplitKey)
    ensures IsSubsequence(WithKey(ms, split, iso, k), ms)
    ensures forall m :: m in WithKey(ms, split, iso, k) <==> m in ms && MessageKey(m, split, iso) == Some(k)
  {
    if ms != [] {
      var n := |ms| - 1;
      var w' := WithKey(ms[..n], split, iso, k);
      var w := WithKey(ms, split, iso, k);
      WithKeyIsFilter(ms[..n], split, iso, k);
      assert ms == ms[..n] + [ms[n]] && ms[..|ms| - 1] == ms[..n];
      if MessageKey(ms[n], split, iso) == Some(k) {
        assert w == w' + [ms[n]] && w[..|w| - 1] == w';
      } else {
        assert w == w';
      }
    }
  }

  /** The loop of `split_messages_by_date`, updating the dictionary message by message. */
  method SplitMessagesByDate(messages: seq<Value>, split: string, iso: IsoParser) returns (groups: Groups)
    ensures groups == SplitByDate(messages, split, iso)
  {
    groups := [];
    for i := 0 to |messages|
      invariant groups == SplitByDate(messages[..i], split, iso)
    {
      assert messages[..i + 1][..i] == messages[..i];
      var key := MessageKey(messages[i], split, iso);
      if key.Some? {
        groups := AddTo(groups, key.value, messages[i]);
      }
    }
    assert messages[..|messages|] == messages;
  }

  // ---------------------------------------------------------------------
  // Filtering with a check that may raise
  // ---------------------------------------------------------------------

  /** A per-message test of a filter loop: keep, drop, or `None` for the exception it raises. */
  type Check = Value -> Option<bool>

  /** The messages `keep` accepts, in order; `None` when it raises on some message. */
  function Filtered(ms: seq<Value>, keep: Check): Option<seq<Value>>
  {
    if ms == [] then Some([])
    else
      var n := |ms| - 1;
      match Filtered(ms[..n], keep)
      case None => None
      case Some(r) =>
        match keep(ms[n])
        case None => None
        case Some(b) => Some(r + if b then [ms[n]] else [])
  }

  /**
   * The filter raises iff the check raises on some message; otherwise it
   * keeps, in order, exactly the messages the check accepts.
   */
  lemma {:induction false} FilteredSpec(ms: seq<Value>, keep: Check)
    ensures Filtered(ms, keep).None? <==> exists i :: 0 <= i < |ms| && keep(ms[i]).None?
    ensures Filtered(ms, keep).Some? ==>
      var r := Filtered(ms, keep).value;
      IsSubsequence(r, ms) && forall m :: m in r <==> m in ms && keep(m) == Some(true)
  {
    FilteredRaises(ms, keep);
    if Filtered(ms, keep).Some? {
      FilteredKeeps(ms, keep);
    }
  }

  /** The exception half of `FilteredSpec`. */
  lemma {:induction false} FilteredRaises(ms: seq<Value>, keep: Check)
    ensures Filtered(ms, keep).None? <==> exists i :: 0 <= i < |ms| && keep(ms[i]).None?
  {
    if ms != [] {
      var n := |ms| - 1;
      var p := ms[..n];
      FilteredRaises(p, keep);
      assert ms[..|ms| - 1] == p;
      if exists i :: 0 <= i < |ms| && keep(ms[i]).None? {
        var i :| 0 <= i < |ms| && keep(ms[i]).None?;
        if i < n {
          assert p[i] == ms[i];
        }
      }
      if exists i :: 0 <= i < n && keep(p[i]).None? {
        var i :| 0 <= i < n && keep(p[i]).None?;
        assert ms[i] == p[i];
      }
    }
  }

  /** The selection half of `FilteredSpec`. */
  lemma {:induction false} FilteredKeeps(ms: seq<Value>, keep: Check)
    requires Filtered(ms, keep).Some?
    ensures var r := Filtered(ms, keep).value;
      IsSubsequence(r, ms) && forall m :: m in r <==> m in ms && keep(m) == Some(true)
  {
    if ms != [] {
      var n := |ms| - 1;
      var p := ms[..n];
      assert ms[..|ms| - 1] == p;
      FilteredKeeps(p, keep);
      assert ms == p + [ms[n]];
      KeepsStep(p, ms[n], keep, Filtered(p, keep).value, Filtered(ms, keep).value);
    }
  }

  /** One more message keeps the selection a subsequence of exactly the accepted messages. */
  lemma KeepsStep(p: seq<Value>, x: Value, keep: Check, r': seq<Value>, r: seq<Value>)
    requires keep(x).Some? && r == r' + if keep(x) == Some(true) then [x] else []
    requires IsSubsequence(r', p) && forall m :: m in r' <==> m in p && keep(m) == Some(true)
    ensures IsSubsequence(r, p + [x]) && forall m :: m in r <==> m in p + [x] && keep(m) == Some(true)
  {
    var q := p + [x];
    assert q[..|q| - 1] == p && q[|q| - 1] == x;
    if keep(x) == Some(true) {
      assert r[..|r| - 1] == r' && r[|r| - 1] == x;
    } else {
      assert r == r';
    }
  }

  /** Once the check raises on a prefix, the whole filter raises. */
  lemma {:induction false} FilteredPrefixFails(ms: seq<Value>, keep: Check, k: nat)
    requires k <= |ms| && Filtered(ms[..k], keep).None?
    ensures Filtered(ms, keep).None?
    decreases |ms| - k
  {
    if k < |ms| {
      assert ms[..k + 1][..k] == ms[..k];
      FilteredPrefixFails(ms, keep, k + 1);
    } else {
      assert ms[..k] == ms;
    }
  }

  /** The loop shared by the filters: appends each accepted message, stops at the first exception. */
  method FilterLoop(messages: seq<Value>, keep: Check) returns (r: Option<seq<Value>>)
    ensures r == Filtered(messages, keep)
  {
    var filtered := [];
    for i := 0 to |messages|
      invariant Filtered(messages[..i], keep) == Some(filtered)
    {
      assert messages[..i + 1][..i] == messages[..i] && messages[..i + 1][i] == messages[i];
      var accepted := keep(messages[i]);
      if accepted.None? {
        FilteredPrefixFails(messages, keep, i + 1);
        return None;
      }
      filtered := filtered + if accepted.value then [messages[i]] else [];
    }
    assert messages[..|messages|] == messages;
    return Some(filtered);
  }

  // ---------------------------------------------------------------------
  // Subchat filter
  // ---------------------------------------------------------------------

  const TmeUrlPrefix := "https://t.me/c/"

  /**
   * The message id a subchat argument names: the last path segment of a
   * `https://t.me/c/…` link, or the argument itself as an integer. The
   * failures carry the `ValueError` messages.
   */
  function SubchatTarget(subchat: string): Result<int, string>
  {
    if StartsWith(subchat, TmeUrlPrefix) then
      var parts := Split(StripChars(subchat, {'/'}), '/');
      if |parts| >= 3 then
        match ParseInt(parts[|parts| - 1])
        case Some(t) => Success(t)
        case None => Failure("Invalid message ID in URL: " + subchat)
      else Failure("Invalid Telegram chat URL format: " + subchat)
    else
      match ParseInt(subchat)
      case Some(t) => Success(t)
      case None => Failure("Invalid message ID format: " + subchat)
  }

  /** Stripping slashes from a link leaves its head `https://t.me/c` in place. */
  lemma LinkKeepsHead(s: string)
    requires StartsWith(s, TmeUrlPrefix)
    ensures var t := StripChars(s, {'/'}); |t| >= 8 && t[..8] == s[..8]
  {
    assert s[..15] == TmeUrlPrefix;
    assert s[0] == 'h' && s[13] == 'c';
    var l := LStrip(s, {'/'});
    assert l == s;
    var t := RStrip(s, {'/'});
    assert |t| > 13;
  }

  /** A text starting `xxxxxx//` has at least three `/`-separated pieces. */
  lemma SplitOfSchemeHead(t: string)
    requires |t| >= 8 && '/' !in t[..6] && t[6] == '/' && t[7] == '/'
    ensures |Split(t, '/')| >= 3
  {
    var a := t[..6];
    assert t == a + ['/'] + t[7..];
    SplitAfter(a, '/', t[7..]);
    assert t[7..] == [] + ['/'] + t[8..];
    SplitAfter([], '/', t[8..]);
  }

  /** A link always has at least three segments, so the URL-format error is never raised. */
  lemma UrlFormatErrorUnreachable(s: string)
    requires StartsWith(s, TmeUrlPrefix)
    ensures |Split(StripChars(s, {'/'}), '/')| >= 3
    ensures SubchatTarget(s).Success? || SubchatTarget(s) == Failure("Invalid message ID in URL: " + s)
  {
    LinkKeepsHead(s);
    var t := StripChars(s, {'/'});
    LinkScheme(s);
    SchemeSlashes(t);
    SplitOfSchemeHead(t);
  }

  /** A link starts with `https://`. */
  lemma LinkScheme(s: string)
    requires StartsWith(s, TmeUrlPrefix)
    ensures |s| >= 8 && s[..8] == "https://"
  {
    assert s[..8] == s[..15][..8];
  }

  /** Where `https://` starts a text, its first six characters hold no `/` and the next two are `/`. */
  lemma SchemeSlashes(t: string)
    requires |t| >= 8 && t[..8] == "https://"
    ensures '/' !in t[..6] && t[6] == '/' && t[7] == '/'
  {
    assert t[..6] == t[..8][..6];
    assert t[6] == t[..8][6] && t[7] == t[..8][7];
  }

  /** In a link ending in `/last`, the target is `int(last)`. */
  lemma UrlLastSegment(url: string, head: string, last: string)
    requires StartsWith(url, TmeUrlPrefix) && url == head + ['/'] + last
    requires '/' !in last && last != []
    ensures SubchatTarget(url) ==
      match ParseInt(last)
      case Some(t) => Success(t)
      case None => Failure("Invalid message ID in URL: " + url)
  {
    assert url[0] == TmeUrlPrefix[0] && url[|url| - 1] == last[|last| - 1];
    StripCharsOfUnstripped(url, {'/'});
    UrlFormatErrorUnreachable(url);
    SplitLastPiece(head, '/', last);
    var parts := Split(StripChars(url, {'/'}), '/');
    assert |parts| >= 3 && parts[|parts| - 1] == last;
  }

  /** `https://t.me/c/<chat>/<n>` names message `n`. */
  lemma UrlTarget(url: string, chat: nat, t: nat)
    requires url == TmeUrlPrefix + NatToString(chat) + "/" + NatToString(t)
    ensures SubchatTarget(url) == Success(t)
  {
    var c, n := NatToString(chat), NatToString(t);
    assert IsDigits(c) && IsDigits(n);
    assert '/' !in c && '/' !in n;
    assert url[..15] == TmeUrlPrefix;
    assert url == (TmeUrlPrefix + c) + ['/'] + n;
    UrlLastSegment(url, TmeUrlPrefix + c, n);
    ParseIntOfNatural(t);
  }

  /** A plain integer argument names that message. */
  lemma PlainTarget(t: int)
    ensures SubchatTarget(IntToString(t)) == Success(t)
  {
    var s := IntToString(t);
    IntToStringHead(t);
    assert s[0] != TmeUrlPrefix[0];
    ParseIntToString(t);
  }

  /** An id matches the target when its `str()` is the target's `str()`. */
  predicate SameId(v: Value, target: int)
  {
    PyStr(v) == Some(IntToString(target))
  }

  /** Because the comparison is between texts, an integer id and its decimal string both match. */
  lemma SameIdCases(v: Value, target: int)
    ensures SameId(v, target) <==>
      v == Int(target) || v == Str(IntToString(target)) || v == Opaque(Some(IntToString(target)))
  {
    IntToStringHead(target);
    var t := IntToString(target);
    match v
    case Int(i) => IntToStringInjective(i, target);
    case Null => assert "None"[0] == 'N';
    case Bool(b) => assert "True"[0] == 'T' && "False"[0] == 'F';
    case _ =>
  }

  /**
   * Whether a message is in the subchat of `target`: it has a truthy
   * `reply_to` whose `reply_to_msg_id` or `reply_to_top_id` is the target.
   * `None` stands for the `AttributeError` of `.get` on a message, or on a
   * truthy `reply_to`, that is not a dict.
   */
  function RepliesTo(msg: Value, target: int): Option<bool>
  {
    if !msg.Obj? then None
    else
      var replyTo := Field(msg, "reply_to");
      if !Truthy(replyTo) then Some(false)
      else if !replyTo.Obj? then None
      else Some(SameId(Field(replyTo, "reply_to_msg_id"), target) || SameId(Field(replyTo, "reply_to_top_id"), target))
  }

  function SubchatCheck(target: int): Check
  {
    m => RepliesTo(m, target)
  }

  /** `filter_messages_by_subchat`: the target's parse error, the `AttributeError`, or the matching messages. */
  function FilterBySubchat(ms: seq<Value>, subchat: string): Result<seq<Value>, string>
  {
    match SubchatTarget(subchat)
    case Failure(e) => Failure(e)
    case Success(t) =>
      match Filtered(ms, SubchatCheck(t))
      case None => Failure("AttributeError")
      case Some(r) => Success(r)
  }

  /** `filter_messages_by_subchat`: parses the target, then filters. */
  method FilterMessagesBySubchat(messages: seq<Value>, subchat: string) returns (r: Result<seq<Value>, string>)
    ensures r == FilterBySubchat(messages, subchat)
  {
    var target := SubchatTarget(subchat);
    if target.Failure? {
      return Failure(target.error);
    }
    var filtered := FilterLoop(messages, SubchatCheck(target.value));
    if filtered.None? {
      return Failure("AttributeError");
    }
    return Success(filtered.value);
  }

  function ReplyMessage(id: int, replyTo: Value): Value
  {
    Obj([("id", Int(id)), ("reply_to", replyTo)])
  }

  /** Messages 1 and 3 reply to the target, 2 to another message, 4 to none. */
  function ExampleMessages(t: int, u: int): seq<Value>
  {
    [ReplyMessage(1, Obj([("reply_to_msg_id", Int(t))])),
     ReplyMessage(2, Obj([("reply_to_msg_id", Int(u))])),
     ReplyMessage(3, Obj([("reply_to_msg_id", Int(t))])),
     ReplyMessage(4, Null)]
  }

  lemma ExampleChecks(t: int, u: int)
    requires u != t
    ensures var ms := ExampleMessages(t, u); var keep := SubchatCheck(t);
      keep(ms[0]) == Some(true) && keep(ms[1]) == Some(false) && keep(ms[2]) == Some(true) && keep(ms[3]) == Some(false)
  {
    var ms := ExampleMessages(t, u);
    SameIdCases(Int(u), t);
    SameIdCases(Int(t), t);
    SameIdCases(Null, t);
    assert RepliesTo(ms[0], t) == Some(true);
    assert RepliesTo(ms[1], t) == Some(false);
    assert RepliesTo(ms[2], t) == Some(true);
    assert RepliesTo(ms[3], t) == Some(false);
  }

  lemma ExampleMatches(t: int, u: int)
    requires u != t
    ensures var ms := ExampleMessages(t, u); Filtered(ms, SubchatCheck(t)) == Some([ms[0], ms[2]])
  {
    var ms := ExampleMessages(t, u);
    ExampleChecks(t, u);
    assert ms[..1][..0] == [] && ms[..1][0] == ms[0];
    assert Filtered(ms[..1][..0], SubchatCheck(t)) == Some([]);
    assert [] + [ms[0]] == [ms[0]];
    assert Filtered(ms[..1], SubchatCheck(t)) == Some([ms[0]]);
    assert ms[..2][..1] == ms[..1] && ms[..2][1] == ms[1];
    assert [ms[0]] + [] == [ms[0]];
    assert Filtered(ms[..2], SubchatCheck(t)) == Some([ms[0]]);
    assert ms[..3][..2] == ms[..2] && ms[..3][2] == ms[2];
    assert [ms[0]] + [ms[2]] == [ms[0], ms[2]];
    assert Filtered(ms[..3], SubchatCheck(t)) == Some([ms[0], ms[2]]);
    assert [ms[0], ms[2]] + [] == [ms[0], ms[2]];
    assert ms[..3] == ms[..|ms| - 1];
  }

  /** Filtering the example by the target's number, or by a link ending in it, keeps messages 1 and 3. */
  lemma SubchatExample(t: nat, u: int, chat: nat, url: string)
    requires u != t && url == TmeUrlPrefix + NatToString(chat) + "/" + NatToString(t)
    ensures var ms := ExampleMessages(t, u);
      FilterBySubchat(ms, IntToString(t)) == Success([ms[0], ms[2]]) &&
      FilterBySubchat(ms, url) == Success([ms[0], ms[2]])
  {
    ExampleMatches(t, u);
    PlainTarget(t);
    UrlTarget(url, chat, t);
  }

  /** A non-numeric argument is rejected before any message is looked at. */
  lemma NonNumericTarget(s: string, ms: seq<Value>)
    requires s == "abc"
    ensures FilterBySubchat(ms, s) == Failure("Invalid message ID format: abc")
  {
    assert !StartsWith(s, TmeUrlPrefix);
    StripOfUnspaced(s);
    assert !IsDigitGroups(s);
    assert ParseInt(s) == None;
    assert SubchatTarget(s) == Failure("Invalid message ID format: " + s);
    assert "Invalid message ID format: " + s == "Invalid message ID format: abc";
  }

  // ---------------------------------------------------------------------
  // Keywords
  // ---------------------------------------------------------------------

  /**
   * One piece of a list-shaped text: a string as is, a dict's `text`
   * (default `""`). `None` stands for the `AttributeError` of `.get` on any
   * other piece and the `TypeError` of joining a non-string.
   */
  function PartText(part: Value): Option<string>
  {
    match part
    case Str(s) => Some(s)
    case Obj(fs) =>
      (match Get(fs, "text").GetOr(Str(""))
       case Str(s) => Some(s)
       case _ => None)
    case _ => None
  }

  /** `"".join(...)` of the pieces. */
  function JoinParts(parts: seq<Value>): Option<string>
  {
    if parts == [] then Some("")
    else
      match PartText(parts[0])
      case None => None
      case Some(h) =>
        match JoinParts(parts[1..])
        case None => None
        case Some(t) => Some(h + t)
  }

  /**
   * `_message_text`: the `message`, else the `text`, else `""`, with a list of
   * pieces joined. Any other value has no `to_dict` here and gives `""`.
   * `None` stands for an exception, or for a `str()` the model does not
   * render (floats, dicts, tuples).
   */
  function MessageText(msg: Value): Option<string>
  {
    var t := if msg.Obj? then Or(Or(Field(msg, "message"), Field(msg, "text")), Str("")) else Str("");
    if t.List? then JoinParts(t.items) else PyStr(t)
  }

  /** A non-empty `message` string wins; without `message` and `text` the text is empty. */
  lemma MessageTextChoice(fs: Fields, s: string)
    ensures Get(fs, "message") == Some(Str(s)) && s != "" ==> MessageText(Obj(fs)) == Some(s)
    ensures !Truthy(Field(Obj(fs), "message")) && Get(fs, "text") == Some(Str(s)) && s != "" ==> MessageText(Obj(fs)) == Some(s)
    ensures !Truthy(Field(Obj(fs), "message")) && !Truthy(Field(Obj(fs), "text")) ==> MessageText(Obj(fs)) == Some("")
  {
  }

  /** A text made of plain strings is their concatenation. */
  lemma {:induction false} JoinPlainParts(parts: seq<string>)
    ensures JoinParts(seq(|parts|, i requires 0 <= i < |parts| => Str(parts[i]))) == Some(Concat(parts))
  {
    var vs := seq(|parts|, i requires 0 <= i < |parts| => Str(parts[i]));
    if parts != [] {
      assert vs[1..] == seq(|parts[1..]|, i requires 0 <= i < |parts[1..]| => Str(parts[1..][i]));
      JoinPlainParts(parts[1..]);
    }
  }

  function Concat(parts: seq<string>): string
  {
    if parts == [] then "" else parts[0] + Concat(parts[1..])
  }

  /** `[k.strip().lower() for k in keywords if k.strip()]`. */
  function LoweredKeywords(keywords: seq<string>): (r: seq<string>)
    ensures |r| == |NonBlankStripped(keywords)|
  {
    var ks := NonBlankStripped(keywords);
    seq(|ks|, i requires 0 <= i < |ks| => Lower(ks[i]))
  }

  /** `any(kw in text.lower() for kw in kws)`. */
  predicate MentionsAny(text: string, kws: seq<string>)
  {
    exists kw :: kw in kws && Contains(Lower(text), kw)
  }

  function KeywordCheck(kws: seq<string>): Check
  {
    m => match MessageText(m)
      case None => None
      case Some(text) => Some(MentionsAny(text, kws))
  }

  /** `filter_messages_by_keywords`; `None` where extracting a text raises. */
  function FilterByKeywords(ms: seq<Value>, keywords: seq<string>): Option<seq<Value>>
  {
    if keywords == [] then Some(ms)
    else
      var kws := LoweredKeywords(keywords);
      if kws == [] then Some(ms) else Filtered(ms, KeywordCheck(kws))
  }

  /** `filter_messages_by_keywords`. */
  method FilterMessagesByKeywords(messages: seq<Value>, keywords: seq<string>) returns (r: Option<seq<Value>>)
    ensures r == FilterByKeywords(messages, keywords)
  {
    if keywords == [] {
      return Some(messages);
    }
    var kws := LoweredKeywords(keywords);
    if kws == [] {
      return Some(messages);
    }
    r := FilterLoop(messages, KeywordCheck(kws));
  }

  /** With no keyword that is not blank, the messages come back unchanged. */
  lemma KeywordFilterWithoutKeywords(ms: seq<Value>, keywords: seq<string>)
    requires forall i :: 0 <= i < |keywords| ==> Strip(keywords[i]) == ""
    ensures FilterByKeywords(ms, keywords) == Some(ms)
  {
    NonBlankStrippedEmpty(keywords);
  }

  /** The message's lower-cased text contains some stripped, lower-cased keyword that is not blank. */
  predicate MentionsKeyword(m: Value, keywords: seq<string>)
  {
    MessageText(m).Some? &&
    exists i :: 0 <= i < |keywords| && Strip(keywords[i]) != "" && Contains(Lower(MessageText(m).value), Lower(Strip(keywords[i])))
  }

  lemma MentionsAnyFrom(text: string, keywords: seq<string>)
    requires MentionsAny(text, LoweredKeywords(keywords))
    ensures exists i :: 0 <= i < |keywords| && Strip(keywords[i]) != "" && Contains(Lower(text), Lower(Strip(keywords[i])))
  {
    var kws := LoweredKeywords(keywords);
    var ks := NonBlankStripped(keywords);
    var kw :| kw in kws && Contains(Lower(text), kw);
    var j :| 0 <= j < |kws| && kws[j] == kw;
    NonBlankStrippedFrom(keywords, ks[j]);
    var i :| 0 <= i < |keywords| && Strip(keywords[i]) == ks[j];
    assert Contains(Lower(text), Lower(Strip(keywords[i])));
  }

  lemma MentionsAnyOf(text: string, keywords: seq<string>, i: nat)
    requires i < |keywords| && Strip(keywords[i]) != "" && Contains(Lower(text), Lower(Strip(keywords[i])))
    ensures MentionsAny(text, LoweredKeywords(keywords))
  {
    var kws := LoweredKeywords(keywords);
    var ks := NonBlankStripped(keywords);
    NonBlankStrippedKeeps(keywords, i);
    var j :| 0 <= j < |ks| && ks[j] == Strip(keywords[i]);
    assert kws[j] in kws;
  }

  /** The filter's check accepts exactly the messages that mention a keyword. */
  lemma KeywordCheckMeans(m: Value, keywords: seq<string>)
    ensures KeywordCheck(LoweredKeywords(keywords))(m) == Some(true) <==> MentionsKeyword(m, keywords)
  {
    if MessageText(m).Some? {
      var text := MessageText(m).value;
      if MentionsAny(text, LoweredKeywords(keywords)) {
        MentionsAnyFrom(text, keywords);
      }
      if exists i :: 0 <= i < |keywords| && Strip(keywords[i]) != "" && Contains(Lower(text), Lower(Strip(keywords[i]))) {
        var i :| 0 <= i < |keywords| && Strip(keywords[i]) != "" && Contains(Lower(text), Lower(Strip(keywords[i])));
        MentionsAnyOf(text, keywords, i);
      }
    }
  }

  /**
   * Otherwise a message is kept iff it mentions a keyword, and the kept
   * messages are in input order.
   */
  lemma KeywordFilterKeeps(ms: seq<Value>, keywords: seq<string>, m: Value)
    requires exists i :: 0 <= i < |keywords| && Strip(keywords[i]) != ""
    requires FilterByKeywords(ms, keywords).Some?
    ensures IsSubsequence(FilterByKeywords(ms, keywords).value, ms)
    ensures m in FilterByKeywords(ms, keywords).value <==> m in ms && MentionsKeyword(m, keywords)
  {
    var i :| 0 <= i < |keywords| && Strip(keywords[i]) != "";
    NonBlankStrippedKeeps(keywords, i);
    FilteredSpec(ms, KeywordCheck(LoweredKeywords(keywords)));
    KeywordCheckMeans(m, keywords);
  }

  /** One entry of a keyword's `messages` list. */
  datatype KeywordMatch = KeywordMatch(username: Option<string>, text: string, url: Option<string>)

  /** One element of the result of `analyze_keywords`. */
  datatype KeywordReport = KeywordReport(text: string, count: nat, messages: seq<KeywordMatch>)

  /** The id behind `@username`: `from_id`, else `sender_id`; of a dict its user, channel or chat id. */
  function SenderOf(msg: Value): Value
  {
    var s := Or(Or(Field(msg, "from_id"), Field(msg, "sender_id")), Obj([]));
    if s.Obj? then Or(Or(Field(s, "user_id"), Field(s, "channel_id")), Field(s, "chat_id")) else s
  }

  /** The chat id of the link: `peer_id`, else `to_id`; of a dict its channel, chat or user id. */
  function ChatIdOf(msg: Value): Value
  {
    var p := Or(Or(Field(msg, "peer_id"), Field(msg, "to_id")), Obj([]));
    if p.Obj? then Or(Or(Field(p, "channel_id"), Field(p, "chat_id")), Field(p, "user_id")) else p
  }

  /**
   * The entry for a message that matched: `@sender` when there is a sender,
   * and a `https://t.me/c/<chat>/<id>` link when both are known. `None`
   * stands for `.get` on a non-dict and for a `str()` the model does not render.
   */
  function MatchEntry(msg: Value, text: string): Option<KeywordMatch>
  {
    if !msg.Obj? then None
    else
      var sender, chat, id := SenderOf(msg), ChatIdOf(msg), Field(msg, "id");
      var linked := Truthy(chat) && Truthy(id);
      if (Truthy(sender) && PyStr(sender).None?) || (linked && (PyStr(chat).None? || PyStr(id).None?)) then None
      else
        Some(KeywordMatch(
          if Truthy(sender) then Some("@" + PyStr(sender).value) else None,
          text,
          if linked then Some(TmeUrlPrefix + PyStr(chat).value + "/" + PyStr(id).value) else None))
  }

  /** The link of an entry leads the subchat parser back to the message. */
  lemma MatchLinkNamesMessage(msg: Value, text: string, chat: nat, id: nat)
    requires msg.Obj? && ChatIdOf(msg) == Int(chat) && Field(msg, "id") == Int(id) && chat > 0 && id > 0
    requires MatchEntry(msg, text).Some?
    ensures MatchEntry(msg, text).value.url.Some?
    ensures SubchatTarget(MatchEntry(msg, text).value.url.value) == Success(id)
  {
    UrlTarget(MatchEntry(msg, text).value.url.value, chat, id);
  }

  /** The entries for one lower-cased keyword, in message order. */
  function KeywordMatches(kw: string, ms: seq<Value>): Option<seq<KeywordMatch>>
  {
    if ms == [] then Some([])
    else
      var n := |ms| - 1;
      match KeywordMatches(kw, ms[..n])
      case None => None
      case Some(found) =>
        match MessageText(ms[n])
        case None => None
        case Some(text) =>
          if !Contains(Lower(text), kw) then Some(found)
          else
            match MatchEntry(ms[n], text)
            case None => None
            case Some(e) => Some(found + [e])
  }

  /** `analyze_keywords`: one report per keyword that is not blank, in order. */
  function KeywordReports(keywords: seq<string>, ms: seq<Value>): Option<seq<KeywordReport>>
  {
    if keywords == [] then Some([])
    else
      var n := |keywords| - 1;
      match KeywordReports(keywords[..n], ms)
      case None => None
      case Some(reports) =>
        var kw := Strip(keywords[n]);
        if kw == "" then Some(reports)
        else
          match KeywordMatches(Lower(kw), ms)
          case None => None
          case Some(found) => Some(reports + [KeywordReport(kw, |found|, found)])
  }

  /** The reports follow the non-blank keywords, stripped, one each, and each count is its number of entries. */
  lemma {:induction false} KeywordReportsShape(keywords: seq<string>, ms: seq<Value>)
    requires KeywordReports(keywords, ms).Some?
    ensures var r := KeywordReports(keywords, ms).value; var ks := NonBlankStripped(keywords);
      |r| == |ks| && forall i :: 0 <= i < |r| ==> r[i].text == ks[i] && r[i].count == |r[i].messages|
  {
    if keywords != [] {
      var n := |keywords| - 1;
      var p := keywords[..n];
      KeywordReportsShape(p, ms);
      var kw := Strip(keywords[n]);
      var r' := KeywordReports(p, ms).value;
      var r := KeywordReports(keywords, ms).value;
      assert NonBlankStripped(keywords) == NonBlankStripped(p) + if kw != "" then [kw] else [];
      if kw != "" {
        var found := KeywordMatches(Lower(kw), ms).value;
        assert r == r' + [KeywordReport(kw, |found|, found)];
      } else {
        assert r == r';
      }
    }
  }

  /** A keyword's count is the number of messages the keyword filter keeps for that keyword alone. */
  lemma {:induction false} KeywordCountIsFilterSize(kw: string, ms: seq<Value>)
    requires KeywordMatches(Lower(kw), ms).Some?
    ensures Filtered(ms, KeywordCheck([Lower(kw)])).Some?
    ensures |Filtered(ms, KeywordCheck([Lower(kw)])).value| == |KeywordMatches(Lower(kw), ms).value|
  {
    if ms != [] {
      var n := |ms| - 1;
      KeywordCountIsFilterSize(kw, ms[..n]);
      var text := MessageText(ms[n]).value;
      assert MentionsAny(text, [Lower(kw)]) <==> Contains(Lower(text), Lower(kw));
    }
  }

  /** The inner loop of `analyze_keywords`, counting and collecting the matches of one keyword. */
  method CollectMatches(kw: string, messages: seq<Value>) returns (count: nat, found: Option<seq<KeywordMatch>>)
    ensures found == KeywordMatches(kw, messages)
    ensures found.Some? ==> count == |found.value|
  {
    var matches := [];
    count := 0;
    for i := 0 to |messages|
      invariant KeywordMatches(kw, messages[..i]) == Some(matches)
      invariant count == |matches|
    {
      assert messages[..i + 1][..i] == messages[..i] && messages[..i + 1][i] == messages[i];
      var text := MessageText(messages[i]);
      if text.None? {
        KeywordMatchesPrefixFails(kw, messages, i + 1);
        return count, None;
      }
      if Contains(Lower(text.value), kw) {
        count := count + 1;
        var e := MatchEntry(messages[i], text.value);
        if e.None? {
          KeywordMatchesPrefixFails(kw, messages, i + 1);
          return count, None;
        }
        matches := matches + [e.value];
      }
    }
    assert messages[..|messages|] == messages;
    return count, Some(matches);
  }

  lemma {:induction false} KeywordMatchesPrefixFails(kw: string, ms: seq<Value>, k: nat)
    requires k <= |ms| && KeywordMatches(kw, ms[..k]).None?
    ensures KeywordMatches(kw, ms).None?
    decreases |ms| - k
  {
    if k < |ms| {
      assert ms[..k + 1][..k] == ms[..k];
      KeywordMatchesPrefixFails(kw, ms, k + 1);
    } else {
      assert ms[..k] == ms;
    }
  }

  /** `analyze_keywords`: the outer loop over the keywords. */
  method AnalyzeKeywords(keywords: seq<string>, messages: seq<Value>) returns (r: Option<seq<KeywordReport>>)
    ensures r == KeywordReports(keywords, messages)
  {
    var results := [];
    for j := 0 to |keywords|
      invariant KeywordReports(keywords[..j], messages) == Some(results)
    {
      assert keywords[..j + 1][..j] == keywords[..j] && keywords[..j + 1][j] == keywords[j];
      var kw := Strip(keywords[j]);
      if kw != "" {
        var count, found := CollectMatches(Lower(kw), messages);
        if found.None? {
          KeywordReportsPrefixFails(keywords, messages, j + 1);
          return None;
        }
        results := results + [KeywordReport(kw, count, found.value)];
      }
    }
    assert keywords[..|keywords|] == keywords;
    return Some(results);
  }

  lemma {:induction false} KeywordReportsPrefixFails(keywords: seq<string>, ms: seq<Value>, k: nat)
    requires k <= |keywords| && KeywordReports(keywords[..k], ms).None?
    ensures KeywordReports(keywords, ms).None?
    decreases |keywords| - k
  {
    if k < |keywords| {
      assert keywords[..k + 1][..k] == keywords[..k];
      KeywordReportsPrefixFails(keywords, ms, k + 1);
    } else {
      assert keywords[..k] == keywords;
    }
  }
}
