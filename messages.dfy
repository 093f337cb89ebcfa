/**
 * What the downloader does with a list of message dicts once it has them:
 * the reply-tree order of the text export, the conversion of values to
 * JSON-ready data, the conversion of a Telegram Desktop archive, and the
 * lines of the text export.
 */
module Messages {
  import opened Wrappers
  import opened Text
  import opened Json
  import opened Commands
  import opened Entities
  import opened TxtLayout
  import Paths
  import Checkpoint
  import Download

  // ---------------------------------------------------------------------------
  // Dates as sort keys
  // ---------------------------------------------------------------------------

  /** A `datetime` as `fromisoformat` returns it: with a UTC offset (aware) or without (naive); `t` orders datetimes of one kind. */
  datatype Instant = Instant(aware: bool, t: int)

  /** Stands for `datetime.fromisoformat`; `None` where it raises. */
  type IsoClock = string -> Option<Instant>

  /** The key `parse_dt` gives a message: `datetime.min` or a parsed datetime. */
  datatype Stamp = Min | At(instant: Instant)

  /**
   * `parse_dt`: `datetime.min` for a falsy `date` or one `fromisoformat`
   * refuses, else the parsed text with `Z` read as `+00:00`. A value whose
   * text the model leaves open (a float, a container) never reads as a date.
   */
  function DateKey(msg: Value, iso: IsoClock): (r: Stamp)
    ensures !Truthy(Field(msg, "date")) ==> r == Min
    ensures Field(msg, "date").Str? && Truthy(Field(msg, "date")) ==>
      r == (match iso(ReplaceAll(Field(msg, "date").s, "Z", "+00:00")) case None => Min case Some(i) => At(i))
  {
    var d := Field(msg, "date");
    if !Truthy(d) then Min
    else match PyStr(d)
      case None => Min
      case Some(s) =>
        match iso(ReplaceAll(s, "Z", "+00:00"))
        case None => Min
        case Some(i) => At(i)
  }

  /** The order of keys: `datetime.min` before every parsed datetime, parsed datetimes by `t`. */
  predicate Less(a: Stamp, b: Stamp)
  {
    (a.Min? && b.At?) || (a.At? && b.At? && a.instant.t < b.instant.t)
  }

  /** `a` must come before `b`: a smaller key ascending, a larger key with `reverse=True`. */
  predicate Precedes(a: Stamp, b: Stamp, desc: bool)
  {
    if desc then Less(b, a) else Less(a, b)
  }

  /** Keys that compare neither way are equal for the sort, and this is transitive. */
  lemma PrecedesIsWeakOrder(a: Stamp, b: Stamp, c: Stamp, desc: bool)
    ensures !Precedes(a, a, desc)
    ensures Precedes(a, b, desc) ==> !Precedes(b, a, desc)
    ensures Precedes(a, b, desc) && Precedes(b, c, desc) ==> Precedes(a, c, desc)
    ensures !Precedes(a, b, desc) && !Precedes(b, c, desc) ==> !Precedes(a, c, desc)
  {
  }

  predicate IsAware(s: Stamp) { s.At? && s.instant.aware }

  /** A naive key; `datetime.min` is naive as the program writes it, and below everything once corrected. */
  predicate IsNaive(s: Stamp, minIsNaive: bool)
  {
    if s.Min? then minIsNaive else !s.instant.aware
  }

  /**
   * `sorted` raises `TypeError` on the group: one key is aware and another
   * naive. A comparison sort decides the order of every two neighbours of its
   * result by comparing them, so a group holding both kinds has a compared
   * aware-naive pair; a group of one kind never compares across kinds.
   */
  predicate Clashes(ms: seq<Value>, iso: IsoClock, minIsNaive: bool)
  {
    exists i, j :: 0 <= i < |ms| && 0 <= j < |ms| && IsAware(DateKey(ms[i], iso)) && IsNaive(DateKey(ms[j], iso), minIsNaive)
  }

  // ---------------------------------------------------------------------------
  // The stable sort
  // ---------------------------------------------------------------------------

  /** Puts `x` before the first element it does not have to follow. */
  function Insert(x: Value, s: seq<Value>, iso: IsoClock, desc: bool): (r: seq<Value>)
    ensures |r| == |s| + 1
  {
    if s == [] then [x]
    else if Precedes(DateKey(s[0], iso), DateKey(x, iso), desc) then
      [s[0]] + Insert(x, s[1..], iso, desc)
    else [x] + s
  }

  /** Inserting adds the message and loses none. */
  lemma {:induction false} InsertPermutes(x: Value, s: seq<Value>, iso: IsoClock, desc: bool)
    ensures multiset(Insert(x, s, iso, desc)) == multiset(s) + multiset{x}
  {
    if s != [] && Precedes(DateKey(s[0], iso), DateKey(x, iso), desc) {
      InsertPermutes(x, s[1..], iso, desc);
      assert s == [s[0]] + s[1..];
    }
  }

  /** `sorted(msgs, key=parse_dt, reverse=desc)`: a stable sort, so messages with equal keys keep their order in both directions. */
  function SortBy(ms: seq<Value>, iso: IsoClock, desc: bool): (r: seq<Value>)
    ensures |r| == |ms|
  {
    if ms == [] then []
    else Insert(ms[0], SortBy(ms[1..], iso, desc), iso, desc)
  }

  /** The sort is a permutation: it keeps every message as often as it occurs. */
  lemma {:induction false} SortPermutes(ms: seq<Value>, iso: IsoClock, desc: bool)
    ensures multiset(SortBy(ms, iso, desc)) == multiset(ms)
  {
    if ms != [] {
      SortPermutes(ms[1..], iso, desc);
      InsertPermutes(ms[0], SortBy(ms[1..], iso, desc), iso, desc);
      assert ms == [ms[0]] + ms[1..];
    }
  }

  /** No message has to come before one that precedes it. */
  predicate SortedBy(s: seq<Value>, iso: IsoClock, desc: bool)
  {
    forall i, j :: 0 <= i < j < |s| ==> !Precedes(DateKey(s[j], iso), DateKey(s[i], iso), desc)
  }

  lemma {:induction false} InsertSorted(x: Value, s: seq<Value>, iso: IsoClock, desc: bool)
    requires SortedBy(s, iso, desc)
    ensures SortedBy(Insert(x, s, iso, desc), iso, desc)
  {
    if s != [] {
      var kx := DateKey(x, iso);
      var k0 := DateKey(s[0], iso);
      if Precedes(k0, kx, desc) {
        var t := Insert(x, s[1..], iso, desc);
        SortedTail(s, iso, desc);
        InsertSorted(x, s[1..], iso, desc);
        InsertPermutes(x, s[1..], iso, desc);
        NoneBeforeHead(x, s, t, iso, desc);
        ConsSorted(s[0], t, iso, desc);
      } else {
        forall j | 0 <= j < |s| ensures !Precedes(DateKey(s[j], iso), kx, desc) {
          if j > 0 {
            PrecedesIsWeakOrder(DateKey(s[j], iso), k0, kx, desc);
          }
        }
        ConsSorted(x, s, iso, desc);
      }
    }
  }

  lemma SortedTail(s: seq<Value>, iso: IsoClock, desc: bool)
    requires s != [] && SortedBy(s, iso, desc)
    ensures SortedBy(s[1..], iso, desc)
  {
    forall i, j | 0 <= i < j < |s[1..]| ensures !Precedes(DateKey(s[1..][j], iso), DateKey(s[1..][i], iso), desc) {
      assert s[1..][i] == s[i + 1] && s[1..][j] == s[j + 1];
    }
  }

  /** What `x` goes into after the head of a sorted list holds nothing that has to come before the head. */
  lemma NoneBeforeHead(x: Value, s: seq<Value>, t: seq<Value>, iso: IsoClock, desc: bool)
    requires s != [] && SortedBy(s, iso, desc) && Precedes(DateKey(s[0], iso), DateKey(x, iso), desc)
    requires multiset(t) == multiset(s[1..]) + multiset{x}
    ensures forall j | 0 <= j < |t| :: !Precedes(DateKey(t[j], iso), DateKey(s[0], iso), desc)
  {
    var k0 := DateKey(s[0], iso);
    forall j | 0 <= j < |t| ensures !Precedes(DateKey(t[j], iso), k0, desc) {
      assert t[j] in multiset(t);
      if t[j] == x {
        PrecedesIsWeakOrder(k0, DateKey(x, iso), k0, desc);
      } else {
        assert t[j] in multiset(s[1..]);
        var k :| 0 <= k < |s[1..]| && s[1..][k] == t[j];
        assert s[k + 1] == t[j];
      }
    }
  }

  lemma ConsSorted(h: Value, t: seq<Value>, iso: IsoClock, desc: bool)
    requires SortedBy(t, iso, desc)
    requires forall j | 0 <= j < |t| :: !Precedes(DateKey(t[j], iso), DateKey(h, iso), desc)
    ensures SortedBy([h] + t, iso, desc)
  {
    var r := [h] + t;
    forall i, j | 0 <= i < j < |r| ensures !Precedes(DateKey(r[j], iso), DateKey(r[i], iso), desc) {
      assert r[j] == t[j - 1];
      if i > 0 {
        assert r[i] == t[i - 1];
      }
    }
  }

  /** The sort puts no message after one that has to follow it. */
  lemma {:induction false} SortSorted(ms: seq<Value>, iso: IsoClock, desc: bool)
    ensures SortedBy(SortBy(ms, iso, desc), iso, desc)
  {
    if ms != [] {
      SortSorted(ms[1..], iso, desc);
      InsertSorted(ms[0], SortBy(ms[1..], iso, desc), iso, desc);
    }
  }

  function Reverse<T>(s: seq<T>): (r: seq<T>)
    ensures |r| == |s| && forall i :: 0 <= i < |s| ==> r[i] == s[|s| - 1 - i]
    ensures multiset(r) == multiset(s)
  {
    if s == [] then [] else
      assert s == [s[0]] + s[1..];
      Reverse(s[1..]) + [s[0]]
  }

  /** Any two messages of the group have keys of which one is smaller. */
  predicate DistinctKeys(ms: seq<Value>, iso: IsoClock)
  {
    forall i, j :: 0 <= i < |ms| && 0 <= j < |ms| && i != j ==> Less(DateKey(ms[i], iso), DateKey(ms[j], iso)) || Less(DateKey(ms[j], iso), DateKey(ms[i], iso))
  }

  /** Strictly ordered: every message precedes every later one. */
  predicate StrictlySorted(s: seq<Value>, iso: IsoClock, desc: bool)
  {
    forall i, j :: 0 <= i < j < |s| ==> Precedes(DateKey(s[i], iso), DateKey(s[j], iso), desc)
  }

  /** Two strictly ordered arrangements of the same messages start alike. */
  lemma StrictlySortedHeads(a: seq<Value>, b: seq<Value>, iso: IsoClock, desc: bool)
    requires StrictlySorted(a, iso, desc) && StrictlySorted(b, iso, desc)
    requires multiset(a) == multiset(b) && a != []
    ensures b != [] && a[0] == b[0]
  {
    assert a[0] in multiset(b);
    var k :| 0 <= k < |b| && b[k] == a[0];
    assert b[0] in multiset(a);
    var m :| 0 <= m < |a| && a[m] == b[0];
    if k != 0 {
      if m == 0 {
        assert Precedes(DateKey(b[0], iso), DateKey(b[k], iso), desc);
        PrecedesIsWeakOrder(DateKey(b[0], iso), DateKey(b[0], iso), DateKey(b[0], iso), desc);
      } else {
        assert Precedes(DateKey(b[0], iso), DateKey(a[0], iso), desc);
        assert Precedes(DateKey(a[0], iso), DateKey(b[0], iso), desc);
        PrecedesIsWeakOrder(DateKey(a[0], iso), DateKey(b[0], iso), DateKey(b[0], iso), desc);
      }
    }
  }

  lemma StrictTail(a: seq<Value>, iso: IsoClock, desc: bool)
    requires StrictlySorted(a, iso, desc) && a != []
    ensures StrictlySorted(a[1..], iso, desc)
  {
    assert forall i :: 0 <= i < |a| - 1 ==> a[1..][i] == a[i + 1];
  }

  lemma SameTails(a: seq<Value>, b: seq<Value>)
    requires multiset(a) == multiset(b) && a != [] && b != [] && a[0] == b[0]
    ensures multiset(a[1..]) == multiset(b[1..])
  {
    assert a == [a[0]] + a[1..] && b == [b[0]] + b[1..];
    assert multiset(a[1..]) == multiset(a) - multiset{a[0]};
    assert multiset(b[1..]) == multiset(b) - multiset{b[0]};
  }

  /** Two strictly ordered arrangements of the same messages are the same. */
  lemma {:induction false} StrictlySortedUnique(a: seq<Value>, b: seq<Value>, iso: IsoClock, desc: bool)
    requires StrictlySorted(a, iso, desc) && StrictlySorted(b, iso, desc)
    requires multiset(a) == multiset(b)
    ensures a == b
    decreases |a|
  {
    if a == [] {
      assert |b| == |multiset(b)| == 0;
    } else {
      StrictlySortedHeads(a, b, iso, desc);
      SameTails(a, b);
      StrictTail(a, iso, desc);
      StrictTail(b, iso, desc);
      StrictlySortedUnique(a[1..], b[1..], iso, desc);
      assert a == [a[0]] + a[1..] && b == [b[0]] + b[1..];
    }
  }

  /** With pairwise distinct keys a sorted arrangement is strictly sorted. */
  lemma SortedDistinctIsStrict(s: seq<Value>, iso: IsoClock, desc: bool)
    requires SortedBy(s, iso, desc) && DistinctKeys(s, iso)
    ensures StrictlySorted(s, iso, desc)
  {
  }

  lemma DistinctKeysOfPermutation(a: seq<Value>, b: seq<Value>, iso: IsoClock)
    requires DistinctKeys(a, iso) && multiset(a) == multiset(b)
    ensures DistinctKeys(b, iso)
  {
    forall i, j | 0 <= i < |b| && 0 <= j < |b| && i != j
      ensures Less(DateKey(b[i], iso), DateKey(b[j], iso)) || Less(DateKey(b[j], iso), DateKey(b[i], iso))
    {
      assert b[i] in multiset(a) && b[j] in multiset(a);
      var x :| 0 <= x < |a| && a[x] == b[i];
      var y :| 0 <= y < |a| && a[y] == b[j];
      if x == y {
        DistinctKeysSingle(a, iso, x);
        TwiceCounted(b, i, j);
      }
    }
  }

  /** A value at two positions is counted at least twice. */
  lemma TwiceCounted(b: seq<Value>, i: nat, j: nat)
    requires i < |b| && j < |b| && i != j && b[i] == b[j]
    ensures multiset(b)[b[i]] >= 2
  {
    var lo, hi := if i < j then i else j, if i < j then j else i;
    assert b == b[..lo] + [b[lo]] + b[lo + 1..];
    assert b[lo + 1..][hi - lo - 1] == b[hi];
    assert b[hi] in b[lo + 1..];
  }

  /** A message of a group with distinct keys occurs in it once. */
  lemma DistinctKeysSingle(a: seq<Value>, iso: IsoClock, x: nat)
    requires DistinctKeys(a, iso) && x < |a|
    ensures multiset(a)[a[x]] == 1
  {
    var v := a[x];
    assert a == a[..x] + [v] + a[x + 1..];
    assert v !in a[..x] by {
      forall k | 0 <= k < x ensures a[k] != v {
        assert Less(DateKey(a[k], iso), DateKey(a[x], iso)) || Less(DateKey(a[x], iso), DateKey(a[k], iso));
      }
    }
    assert v !in a[x + 1..] by {
      forall k | x < k < |a| ensures a[k] != v {
        assert Less(DateKey(a[k], iso), DateKey(a[x], iso)) || Less(DateKey(a[x], iso), DateKey(a[k], iso));
      }
    }
  }

  /** Reversing an ascending order gives a descending one. */
  lemma ReverseStrict(up: seq<Value>, iso: IsoClock)
    requires StrictlySorted(up, iso, false)
    ensures StrictlySorted(Reverse(up), iso, true)
  {
    var rev := Reverse(up);
    forall i, j | 0 <= i < j < |rev| ensures Precedes(DateKey(rev[i], iso), DateKey(rev[j], iso), true) {
      assert rev[i] == up[|up| - 1 - i] && rev[j] == up[|up| - 1 - j];
    }
  }

  /** With pairwise distinct keys the descending order is the ascending order reversed. */
  lemma DescIsReversedAsc(ms: seq<Value>, iso: IsoClock)
    requires DistinctKeys(ms, iso)
    ensures SortBy(ms, iso, true) == Reverse(SortBy(ms, iso, false))
  {
    var up := SortBy(ms, iso, false);
    var down := SortBy(ms, iso, true);
    var rev := Reverse(up);
    SortPermutes(ms, iso, false);
    SortPermutes(ms, iso, true);
    assert StrictlySorted(up, iso, false) by {
      SortSorted(ms, iso, false);
      DistinctKeysOfPermutation(ms, up, iso);
      SortedDistinctIsStrict(up, iso, false);
    }
    assert StrictlySorted(down, iso, true) by {
      SortSorted(ms, iso, true);
      DistinctKeysOfPermutation(ms, down, iso);
      SortedDistinctIsStrict(down, iso, true);
    }
    ReverseStrict(up, iso);
    StrictlySortedUnique(down, rev, iso, true);
  }

  // ---------------------------------------------------------------------------
  // The reply tree
  // ---------------------------------------------------------------------------

  /**
   * `(msg.get("reply_to") or {}).get("reply_to_msg_id") or msg.get("reply_to_msg_id")`.
   * `None` is the `AttributeError` of a message that is not a dict or whose
   * truthy `reply_to` is not one.
   */
  function ReplyTarget(msg: Value): (r: Option<Value>)
    ensures r.None? <==> !msg.Obj? || !Or(Field(msg, "reply_to"), Obj([])).Obj?
  {
    var reply := Or(Field(msg, "reply_to"), Obj([]));
    if msg.Obj? && reply.Obj? then Some(Or(Field(reply, "reply_to_msg_id"), Field(msg, "reply_to_msg_id"))) else None
  }

  /** The message replies to a message of the batch: its target is truthy and is one of the batch's ids. */
  predicate RepliesWithin(msg: Value, ids: set<Value>)
  {
    var t := ReplyTarget(msg);
    t.Some? && Truthy(t.value) && t.value in ids
  }

  /** The grouping loop reads every message's reply target without raising. */
  predicate TargetsReadable(ms: seq<Value>)
  {
    forall i :: 0 <= i < |ms| ==> ReplyTarget(ms[i]).Some?
  }

  /** `children.get(id, [])`: the messages replying to `id`, in batch order. */
  function Replies(ms: seq<Value>, ids: set<Value>, id: Value): (r: seq<Value>)
    ensures |r| <= |ms|
  {
    if ms == [] then []
    else
      var n := |ms| - 1;
      Replies(ms[..n], ids, id) + (if RepliesWithin(ms[n], ids) && ReplyTarget(ms[n]).value == id then [ms[n]] else [])
  }

  /** `roots`: the messages that reply to nothing in the batch, in batch order. */
  function Roots(ms: seq<Value>, ids: set<Value>): (r: seq<Value>)
    ensures |r| <= |ms|
  {
    if ms == [] then []
    else
      var n := |ms| - 1;
      Roots(ms[..n], ids) + (if RepliesWithin(ms[n], ids) then [] else [ms[n]])
  }

  /** A message is a root exactly when it replies to nothing in the batch. */
  lemma {:induction false} RootsAreNonReplies(ms: seq<Value>, ids: set<Value>, x: Value)
    ensures x in Roots(ms, ids) <==> x in ms && !RepliesWithin(x, ids)
  {
    if ms != [] {
      var n := |ms| - 1;
      RootsAreNonReplies(ms[..n], ids, x);
      assert ms == ms[..n] + [ms[n]];
    }
  }

  /** A message is listed under `id` exactly when it replies to `id` within the batch. */
  lemma {:induction false} RepliesAreReplies(ms: seq<Value>, ids: set<Value>, id: Value, x: Value)
    ensures x in Replies(ms, ids, id) <==> x in ms && RepliesWithin(x, ids) && ReplyTarget(x).value == id
  {
    if ms != [] {
      var n := |ms| - 1;
      RepliesAreReplies(ms[..n], ids, id, x);
      LastSplit(ms, x);
    }
  }

  /** A message is in a non-empty list exactly when it is in the front or is the last one. */
  lemma LastSplit(ms: seq<Value>, x: Value)
    requires ms != []
    ensures x in ms <==> x in ms[..|ms| - 1] || x == ms[|ms| - 1]
  {
    assert ms == ms[..|ms| - 1] + [ms[|ms| - 1]];
  }

  /** The `children` dict: each batch id with a reply mapped to its replies, in batch order. */
  function Children(ms: seq<Value>, ids: set<Value>): map<Value, seq<Value>>
  {
    if ms == [] then map[]
    else
      var n := |ms| - 1;
      var c := Children(ms[..n], ids);
      if RepliesWithin(ms[n], ids) then
        var id := ReplyTarget(ms[n]).value;
        c[id := (if id in c then c[id] else []) + [ms[n]]]
      else c
  }

  /** `children.get(id, [])` lists exactly the replies to `id`. */
  lemma {:induction false} ChildrenLookup(ms: seq<Value>, ids: set<Value>, id: Value)
    ensures (if id in Children(ms, ids) then Children(ms, ids)[id] else []) == Replies(ms, ids, id)
  {
    if ms != [] {
      ChildrenLookup(ms[..|ms| - 1], ids, id);
    }
  }

  lemma ChildrenStep(ms: seq<Value>, i: nat, ids: set<Value>)
    requires i < |ms|
    ensures Children(ms[..i + 1], ids) ==
      var c := Children(ms[..i], ids);
      if RepliesWithin(ms[i], ids) then
        var id := ReplyTarget(ms[i]).value;
        c[id := (if id in c then c[id] else []) + [ms[i]]]
      else c
  {
    assert ms[..i + 1][..i] == ms[..i];
  }

  lemma ReadableStep(ms: seq<Value>, i: nat)
    requires i < |ms| && TargetsReadable(ms[..i]) && ReplyTarget(ms[i]).Some?
    ensures TargetsReadable(ms[..i + 1])
  {
    assert ms[..i + 1] == ms[..i] + [ms[i]];
  }

  lemma RootsStep(ms: seq<Value>, i: nat, ids: set<Value>)
    requires i < |ms|
    ensures Roots(ms[..i + 1], ids) == Roots(ms[..i], ids) + (if RepliesWithin(ms[i], ids) then [] else [ms[i]])
  {
    assert ms[..i + 1][..i] == ms[..i];
  }

  /** The `children` dict and the `roots` list the grouping loop builds. */
  datatype Grouping = Grouping(children: map<Value, seq<Value>>, roots: seq<Value>)

  /**
   * The grouping loop of `prepare_messages_for_txt`: a reply to a message of
   * the batch goes under its target's id, every other message is a root.
   */
  method GroupReplies(messages: seq<Value>, ids: set<Value>) returns (r: Option<Grouping>)
    ensures r.None? <==> !TargetsReadable(messages)
    ensures r.Some? ==> r.value.roots == Roots(messages, ids)
    ensures r.Some? ==> r.value.children == Children(messages, ids)
  {
    var children: map<Value, seq<Value>> := map[];
    var roots: seq<Value> := [];
    for i := 0 to |messages|
      invariant TargetsReadable(messages[..i])
      invariant roots == Roots(messages[..i], ids)
      invariant children == Children(messages[..i], ids)
    {
      var msg := messages[i];
      var target := ReplyTarget(msg);
      if target.None? {
        return None;
      }
      var replyId := target.value;
      ReadableStep(messages, i);
      RootsStep(messages, i, ids);
      ChildrenStep(messages, i, ids);
      if Truthy(replyId) && replyId in ids {
        children := children[replyId := (if replyId in children then children[replyId] else []) + [msg]];
      } else {
        roots := roots + [msg];
      }
    }
    assert messages[..|messages|] == messages;
    return Some(Grouping(children, roots));
  }

  /**
   * `traverse(msg)`: the message and, after it (`asc`) or before it
   * (`desc`), the traversals of its replies in sorted order. `None` is the
   * `TypeError` of a sort, or a recursion deeper than `fuel`.
   */
  function Traverse(ms: seq<Value>, ids: set<Value>, m: Value, iso: IsoClock, desc: bool, minIsNaive: bool, fuel: nat): Option<seq<Value>>
    decreases fuel, 0, 0
  {
    if fuel == 0 then None
    else
      var kids := Replies(ms, ids, IdOf(m));
      if Clashes(kids, iso, minIsNaive) then None
      else match TraverseAll(ms, ids, SortBy(kids, iso, desc), iso, desc, minIsNaive, fuel - 1)
        case None => None
        case Some(sub) => Some(if desc then sub + [m] else [m] + sub)
  }

  /** The traversals of a sorted group, one after another. */
  function TraverseAll(ms: seq<Value>, ids: set<Value>, group: seq<Value>, iso: IsoClock, desc: bool, minIsNaive: bool, fuel: nat): Option<seq<Value>>
    decreases fuel, 1, |group|
  {
    if group == [] then Some([])
    else
      var n := |group| - 1;
      match TraverseAll(ms, ids, group[..n], iso, desc, minIsNaive, fuel)
      case None => None
      case Some(front) =>
        match Traverse(ms, ids, group[n], iso, desc, minIsNaive, fuel)
        case None => None
        case Some(t) => Some(front + t)
  }

  /**
   * `prepare_messages_for_txt`: the roots sorted, each followed (`asc`) or
   * preceded (`desc`) by its replies, recursively. With `minIsNaive` the
   * date-less key is the naive `datetime.min` the program uses; without it,
   * a key below every datetime of either kind. The recursion may go as deep
   * as the batch is long.
   */
  function Prepare(ms: seq<Value>, order: string, iso: IsoClock, minIsNaive: bool): Option<seq<Value>>
  {
    if !TargetsReadable(ms) then None
    else
      var ids := IdSet(ms);
      var desc := order == "desc";
      var roots := Roots(ms, ids);
      if Clashes(roots, iso, minIsNaive) then None
      else TraverseAll(ms, ids, SortBy(roots, iso, desc), iso, desc, minIsNaive, |ms| + 1)
  }

  /** A group whose front fails fails as a whole. */
  lemma FrontFails(ms: seq<Value>, ids: set<Value>, group: seq<Value>, iso: IsoClock, desc: bool, minIsNaive: bool, fuel: nat)
    requires group != [] && TraverseAll(ms, ids, group[..|group| - 1], iso, desc, minIsNaive, fuel).None?
    ensures TraverseAll(ms, ids, group, iso, desc, minIsNaive, fuel).None?
  {
  }

  lemma {:induction false} TraverseAllPrefixFails(ms: seq<Value>, ids: set<Value>, group: seq<Value>, iso: IsoClock, desc: bool, minIsNaive: bool, fuel: nat, k: nat)
    requires k <= |group| && TraverseAll(ms, ids, group[..k], iso, desc, minIsNaive, fuel).None?
    ensures TraverseAll(ms, ids, group, iso, desc, minIsNaive, fuel).None?
    decreases |group|
  {
    if k < |group| {
      var front := group[..|group| - 1];
      assert front[..k] == group[..k];
      TraverseAllPrefixFails(ms, ids, front, iso, desc, minIsNaive, fuel, k);
      FrontFails(ms, ids, group, iso, desc, minIsNaive, fuel);
    } else {
      assert group[..k] == group;
    }
  }

  /** The loop over the sorted roots: each root's traversal appended to the result. */
  method TraverseRoots(ms: seq<Value>, ids: set<Value>, sorted: seq<Value>, iso: IsoClock, desc: bool, minIsNaive: bool, fuel: nat) returns (r: Option<seq<Value>>)
    ensures r == TraverseAll(ms, ids, sorted, iso, desc, minIsNaive, fuel)
  {
    var ordered: seq<Value> := [];
    for i := 0 to |sorted|
      invariant TraverseAll(ms, ids, sorted[..i], iso, desc, minIsNaive, fuel) == Some(ordered)
    {
      assert sorted[..i + 1][..i] == sorted[..i] && sorted[..i + 1][i] == sorted[i];
      var t := Traverse(ms, ids, sorted[i], iso, desc, minIsNaive, fuel);
      if t.None? {
        TraverseAllPrefixFails(ms, ids, sorted, iso, desc, minIsNaive, fuel, i + 1);
        return None;
      }
      ordered := ordered + t.value;
    }
    assert sorted[..|sorted|] == sorted;
    return Some(ordered);
  }

  /**
   * `prepare_messages_for_txt` as the program writes it: the key of a message
   * without a readable date is the naive `datetime.min`. `None` is the
   * `TypeError` the sort raises.
   */
  method PrepareMessagesForTxt(messages: seq<Value>, order: string, iso: IsoClock) returns (r: Option<seq<Value>>)
    ensures r == PrepareAsWritten(messages, order, iso)
  {
    var ids := IdSet(messages);
    var grouped := GroupReplies(messages, ids);
    if grouped.None? {
      return None;
    }
    var roots := grouped.value.roots;
    if Clashes(roots, iso, true) {
      return None;
    }
    var desc := order == "desc";
    r := TraverseRoots(messages, ids, SortBy(roots, iso, desc), iso, desc, true, |messages| + 1);
  }

  // ---------------------------------------------------------------------------
  // What the order promises
  // ---------------------------------------------------------------------------

  /** `prepare_messages_for_txt` as the program writes it: `datetime.min` is naive. */
  function PrepareAsWritten(ms: seq<Value>, order: string, iso: IsoClock): (r: Option<seq<Value>>)
    ensures r.Some? ==> TargetsReadable(ms)
  {
    Prepare(ms, order, iso, true)
  }

  /** A message traverses before its replies ascending and after them descending. */
  lemma ParentPlacement(ms: seq<Value>, ids: set<Value>, m: Value, iso: IsoClock, desc: bool, minIsNaive: bool, fuel: nat)
    requires Traverse(ms, ids, m, iso, desc, minIsNaive, fuel).Some?
    ensures var s := Traverse(ms, ids, m, iso, desc, minIsNaive, fuel).value;
      s != [] && (if desc then s[|s| - 1] == m else s[0] == m)
  {
  }

  /** A message with no replies traverses to itself alone. */
  lemma LeafTraverse(ms: seq<Value>, ids: set<Value>, m: Value, iso: IsoClock, desc: bool, minIsNaive: bool, fuel: nat)
    requires fuel > 0 && Replies(ms, ids, IdOf(m)) == []
    ensures Traverse(ms, ids, m, iso, desc, minIsNaive, fuel) == Some([m])
  {
    var kids := Replies(ms, ids, IdOf(m));
    assert !Clashes(kids, iso, minIsNaive);
    assert SortBy(kids, iso, desc) == [];
    assert TraverseAll(ms, ids, SortBy(kids, iso, desc), iso, desc, minIsNaive, fuel - 1) == Some([]);
    assert [] + [m] == [m] + [] == [m];
  }

  /** Traversing one more message of a group appends its traversal. */
  lemma TraverseAllAppend(ms: seq<Value>, ids: set<Value>, front: seq<Value>, x: Value, iso: IsoClock, desc: bool, minIsNaive: bool, fuel: nat, a: seq<Value>, b: seq<Value>)
    requires TraverseAll(ms, ids, front, iso, desc, minIsNaive, fuel) == Some(a)
    requires Traverse(ms, ids, x, iso, desc, minIsNaive, fuel) == Some(b)
    ensures TraverseAll(ms, ids, front + [x], iso, desc, minIsNaive, fuel) == Some(a + b)
  {
    var g := front + [x];
    assert g[..|g| - 1] == front && g[|g| - 1] == x;
  }

  /** A group of messages without replies traverses to itself. */
  lemma {:induction false} LeavesTraverseAll(ms: seq<Value>, ids: set<Value>, group: seq<Value>, iso: IsoClock, desc: bool, minIsNaive: bool, fuel: nat)
    requires fuel > 0 && forall x | x in group :: Replies(ms, ids, IdOf(x)) == []
    ensures TraverseAll(ms, ids, group, iso, desc, minIsNaive, fuel) == Some(group)
    decreases |group|
  {
    if group != [] {
      var n := |group| - 1;
      var front, last := group[..n], group[n];
      assert forall x | x in front :: x in group;
      LeavesTraverseAll(ms, ids, front, iso, desc, minIsNaive, fuel);
      LeafTraverse(ms, ids, last, iso, desc, minIsNaive, fuel);
      TraverseAllAppend(ms, ids, front, last, iso, desc, minIsNaive, fuel, front, [last]);
      assert front + [last] == group;
    }
  }

  /** Every message a traversal lists is the message itself or one of the batch. */
  lemma {:induction false} TraverseFromBatch(ms: seq<Value>, ids: set<Value>, m: Value, iso: IsoClock, desc: bool, minIsNaive: bool, fuel: nat)
    ensures Traverse(ms, ids, m, iso, desc, minIsNaive, fuel).Some? ==>
      forall x | x in Traverse(ms, ids, m, iso, desc, minIsNaive, fuel).value :: x == m || x in ms
    decreases fuel, 0, 0
  {
    if fuel > 0 {
      var kids := Replies(ms, ids, IdOf(m));
      var sorted := SortBy(kids, iso, desc);
      TraverseAllFromBatch(ms, ids, sorted, iso, desc, minIsNaive, fuel - 1);
      forall x | x in kids
        ensures x in ms
      {
        RepliesAreReplies(ms, ids, IdOf(m), x);
      }
      SortedWithin(kids, iso, desc, ms);
    }
  }

  /** Sorting keeps a group's messages, so a group drawn from the batch sorts to messages of the batch. */
  lemma SortedWithin(group: seq<Value>, iso: IsoClock, desc: bool, ms: seq<Value>)
    requires forall x | x in group :: x in ms
    ensures forall x | x in SortBy(group, iso, desc) :: x in ms
  {
    SortPermutes(group, iso, desc);
    forall x | x in SortBy(group, iso, desc)
      ensures x in ms
    {
      assert x in multiset(SortBy(group, iso, desc));
    }
  }

  /** Every message a group's traversals list is in the group or in the batch. */
  lemma {:induction false} TraverseAllFromBatch(ms: seq<Value>, ids: set<Value>, group: seq<Value>, iso: IsoClock, desc: bool, minIsNaive: bool, fuel: nat)
    ensures TraverseAll(ms, ids, group, iso, desc, minIsNaive, fuel).Some? ==>
      forall x | x in TraverseAll(ms, ids, group, iso, desc, minIsNaive, fuel).value :: x in group || x in ms
    decreases fuel, 1, |group|
  {
    if group != [] {
      var n := |group| - 1;
      TraverseAllFromBatch(ms, ids, group[..n], iso, desc, minIsNaive, fuel);
      TraverseFromBatch(ms, ids, group[n], iso, desc, minIsNaive, fuel);
      assert forall x | x in group[..n] :: x in group;
    }
  }

  /** The text export lists only messages of the batch. */
  lemma PrepareFromBatch(ms: seq<Value>, order: string, iso: IsoClock, minIsNaive: bool)
    ensures Prepare(ms, order, iso, minIsNaive).Some? ==> forall x | x in Prepare(ms, order, iso, minIsNaive).value :: x in ms
  {
    if Prepare(ms, order, iso, minIsNaive).Some? {
      var ids := IdSet(ms);
      var roots := Roots(ms, ids);
      var sorted := SortBy(roots, iso, order == "desc");
      TraverseAllFromBatch(ms, ids, sorted, iso, order == "desc", minIsNaive, |ms| + 1);
      forall x | x in roots
        ensures x in ms
      {
        RootsAreNonReplies(ms, ids, x);
      }
      SortedWithin(roots, iso, order == "desc", ms);
    }
  }

  lemma {:induction false} FlatRoots(ms: seq<Value>, ids: set<Value>)
    requires forall i | 0 <= i < |ms| :: !RepliesWithin(ms[i], ids)
    ensures Roots(ms, ids) == ms
  {
    if ms != [] {
      FlatRoots(ms[..|ms| - 1], ids);
      assert ms[..|ms| - 1] + [ms[|ms| - 1]] == ms;
    }
  }

  lemma {:induction false} FlatReplies(ms: seq<Value>, ids: set<Value>, id: Value)
    requires forall i | 0 <= i < |ms| :: !RepliesWithin(ms[i], ids)
    ensures Replies(ms, ids, id) == []
  {
    if ms != [] {
      FlatReplies(ms[..|ms| - 1], ids, id);
    }
  }

  /** A batch without replies comes out in date order: the stable sort of the whole batch. */
  lemma FlatBatchIsSorted(ms: seq<Value>, order: string, iso: IsoClock, minIsNaive: bool)
    requires TargetsReadable(ms) && !Clashes(ms, iso, minIsNaive)
    requires forall i | 0 <= i < |ms| :: !RepliesWithin(ms[i], IdSet(ms))
    ensures Prepare(ms, order, iso, minIsNaive) == Some(SortBy(ms, iso, order == "desc"))
  {
    var ids := IdSet(ms);
    FlatRoots(ms, ids);
    forall x | x in SortBy(ms, iso, order == "desc")
      ensures Replies(ms, ids, IdOf(x)) == []
    {
      FlatReplies(ms, ids, IdOf(x));
    }
    LeavesTraverseAll(ms, ids, SortBy(ms, iso, order == "desc"), iso, order == "desc", minIsNaive, |ms| + 1);
  }

  /**
   * As written, a root without a date next to a root with a Telegram date
   * (which carries `+00:00`) makes the sort of the roots raise.
   */
  lemma AsWrittenUndatedRootFails(ms: seq<Value>, order: string, iso: IsoClock, i: nat, j: nat)
    requires TargetsReadable(ms) && i < |ms| && j < |ms|
    requires !RepliesWithin(ms[i], IdSet(ms)) && !RepliesWithin(ms[j], IdSet(ms))
    requires IsAware(DateKey(ms[i], iso)) && DateKey(ms[j], iso) == Min
    ensures PrepareAsWritten(ms, order, iso) == None
  {
    var roots := Roots(ms, IdSet(ms));
    RootsAreNonReplies(ms, IdSet(ms), ms[i]);
    RootsAreNonReplies(ms, IdSet(ms), ms[j]);
    ClashBetween(roots, ms[i], ms[j], iso, true);
  }

  /** A group holding an aware key and a naive one clashes. */
  lemma ClashBetween(group: seq<Value>, x: Value, y: Value, iso: IsoClock, minIsNaive: bool)
    requires x in group && y in group
    requires IsAware(DateKey(x, iso)) && IsNaive(DateKey(y, iso), minIsNaive)
    ensures Clashes(group, iso, minIsNaive)
  {
    var i :| 0 <= i < |group| && group[i] == x;
    var j :| 0 <= j < |group| && group[j] == y;
    assert IsAware(DateKey(group[i], iso)) && IsNaive(DateKey(group[j], iso), minIsNaive);
  }

  /** With the date-less key below every datetime, a batch of Telegram dates and missing dates never raises. */
  lemma CorrectedNeverClashes(ms: seq<Value>, iso: IsoClock)
    requires forall i | 0 <= i < |ms| :: DateKey(ms[i], iso) == Min || IsAware(DateKey(ms[i], iso))
    ensures !Clashes(ms, iso, false)
  {
  }

  /**
   * The corrected order on a batch of Telegram-dated or undated messages
   * without replies: the stable date sort of the batch, undated first
   * ascending and last descending.
   */
  lemma CorrectedUndatedRootSorted(ms: seq<Value>, order: string, iso: IsoClock)
    requires TargetsReadable(ms)
    requires forall i | 0 <= i < |ms| :: !RepliesWithin(ms[i], IdSet(ms))
    requires forall i | 0 <= i < |ms| :: DateKey(ms[i], iso) == Min || IsAware(DateKey(ms[i], iso))
    ensures Prepare(ms, order, iso, false) == Some(SortBy(ms, iso, order == "desc"))
    ensures SortedBy(SortBy(ms, iso, order == "desc"), iso, order == "desc")
  {
    CorrectedNeverClashes(ms, iso);
    FlatBatchIsSorted(ms, order, iso, false);
    SortSorted(ms, iso, order == "desc");
  }

  // ---------------------------------------------------------------------------
  // Worked threads
  // ---------------------------------------------------------------------------

  /** A message dict with an id, a date and a text. */
  function Posted(id: int, date: string, text: string): Value
  {
    Obj([("id", Int(id)), ("date", Str(date)), ("text", Str(text))])
  }

  /** A message dict replying to message `to`. */
  function ReplyPosted(id: int, date: string, text: string, to: int): Value
  {
    Obj([("id", Int(id)), ("date", Str(date)), ("text", Str(text)), ("reply_to", Obj([("reply_to_msg_id", Int(to))]))])
  }

  lemma PostedReads(id: int, date: string, text: string, iso: IsoClock)
    requires date != ""
    ensures IdOf(Posted(id, date, text)) == Int(id)
    ensures ReplyTarget(Posted(id, date, text)) == Some(Null)
    ensures DateKey(Posted(id, date, text), iso) ==
      match iso(ReplaceAll(date, "Z", "+00:00")) case None => Min case Some(i) => At(i)
  {
    PostedFields(id, date, text);
    assert Field(Obj([]), "reply_to_msg_id") == Null;
    DatedKey(Posted(id, date, text), date, iso);
  }

  /** The fields a posted message has, and the reply fields it lacks. */
  lemma PostedFields(id: int, date: string, text: string)
    ensures Field(Posted(id, date, text), "id") == Int(id)
    ensures Field(Posted(id, date, text), "date") == Str(date)
    ensures Field(Posted(id, date, text), "reply_to") == Null
    ensures Field(Posted(id, date, text), "reply_to_msg_id") == Null
  {
    var fs := Posted(id, date, text).fields;
    assert fs[1..][1..][1..] == [];
    assert Get(fs[1..][1..], "reply_to") == None && Get(fs[1..][1..], "reply_to_msg_id") == None;
    assert Get(fs[1..], "reply_to") == None && Get(fs[1..], "reply_to_msg_id") == None;
    assert Get(fs[1..], "date") == Some(Str(date));
  }

  lemma ReplyPostedReplyTo(id: int, date: string, text: string, to: int)
    ensures Field(ReplyPosted(id, date, text, to), "id") == Int(id)
    ensures Field(ReplyPosted(id, date, text, to), "date") == Str(date)
    ensures Field(ReplyPosted(id, date, text, to), "reply_to") == Obj([("reply_to_msg_id", Int(to))])
  {
    var fs := ReplyPosted(id, date, text, to).fields;
    var reply := Obj([("reply_to_msg_id", Int(to))]);
    assert fs[1..][1..][1..] == [("reply_to", reply)];
    assert Get(fs[1..][1..], "reply_to") == Some(reply);
    assert Get(fs[1..], "reply_to") == Some(reply);
    assert Get(fs[1..], "date") == Some(Str(date));
    assert Get(fs, "id") == Some(Int(id));
  }

  lemma ReplyPostedReads(id: int, date: string, text: string, to: int, iso: IsoClock)
    requires date != "" && to != 0
    ensures IdOf(ReplyPosted(id, date, text, to)) == Int(id)
    ensures ReplyTarget(ReplyPosted(id, date, text, to)) == Some(Int(to))
    ensures DateKey(ReplyPosted(id, date, text, to), iso) ==
      match iso(ReplaceAll(date, "Z", "+00:00")) case None => Min case Some(i) => At(i)
  {
    ReplyPostedReplyTo(id, date, text, to);
    ReplyIdOf(to);
    DatedKey(ReplyPosted(id, date, text, to), date, iso);
  }

  lemma ReplyIdOf(to: int)
    requires to != 0
    ensures Or(Field(Obj([("reply_to_msg_id", Int(to))]), "reply_to_msg_id"), Null) == Int(to)
  {
    assert Field(Obj([("reply_to_msg_id", Int(to))]), "reply_to_msg_id") == Int(to);
  }

  /** The key of a message with a non-empty `date` text. */
  lemma DatedKey(m: Value, date: string, iso: IsoClock)
    requires Field(m, "date") == Str(date) && date != ""
    ensures DateKey(m, iso) == match iso(ReplaceAll(date, "Z", "+00:00")) case None => Min case Some(i) => At(i)
  {
  }

  lemma ThreadIds(m1: Value, m2: Value, m3: Value)
    requires IdOf(m1) == Int(1) && IdOf(m2) == Int(2) && IdOf(m3) == Int(3)
    ensures IdSet([m1, m2, m3]) == {Int(1), Int(2), Int(3)}
  {
    assert [m1, m2, m3][..2] == [m1, m2] && [m1, m2][..1] == [m1] && [m1][..0] == [];
    assert IdSet([m1]) == {Int(1)};
    assert IdSet([m1, m2]) == {Int(1), Int(2)};
  }

  /** Appending one message adds it to the roots exactly when it replies to nothing in the batch. */
  lemma RootsSnoc(ms: seq<Value>, x: Value, ids: set<Value>)
    ensures Roots(ms + [x], ids) == Roots(ms, ids) + (if RepliesWithin(x, ids) then [] else [x])
  {
    assert (ms + [x])[..|ms|] == ms;
  }

  /** Appending one message adds it to the replies of `id` exactly when it replies to `id` within the batch. */
  lemma RepliesSnoc(ms: seq<Value>, x: Value, ids: set<Value>, id: Value)
    ensures Replies(ms + [x], ids, id) ==
      Replies(ms, ids, id) + (if RepliesWithin(x, ids) && ReplyTarget(x).value == id then [x] else [])
  {
    assert (ms + [x])[..|ms|] == ms;
  }

  /** Which of a parent and two replies to it reply within the batch. */
  lemma ThreadWithin(m1: Value, m2: Value, m3: Value, ids: set<Value>)
    requires Int(1) in ids
    requires ReplyTarget(m1) == Some(Null) && ReplyTarget(m2) == Some(Int(1)) && ReplyTarget(m3) == Some(Int(1))
    ensures !RepliesWithin(m1, ids) && RepliesWithin(m2, ids) && RepliesWithin(m3, ids)
  {
  }

  lemma ThreeReadable(m1: Value, m2: Value, m3: Value)
    requires ReplyTarget(m1).Some? && ReplyTarget(m2).Some? && ReplyTarget(m3).Some?
    ensures TargetsReadable([m1, m2, m3])
  {
    var ms := [m1, m2, m3];
    forall i | 0 <= i < |ms|
      ensures ReplyTarget(ms[i]).Some?
    {
      if i == 0 { assert ms[i] == m1; } else if i == 1 { assert ms[i] == m2; } else { assert ms[i] == m3; }
    }
  }

  /** The grouping of a parent and two replies to it. */
  lemma ThreadGroups(m1: Value, m2: Value, m3: Value, ids: set<Value>)
    requires ids == {Int(1), Int(2), Int(3)}
    requires ReplyTarget(m1) == Some(Null) && ReplyTarget(m2) == Some(Int(1)) && ReplyTarget(m3) == Some(Int(1))
    ensures TargetsReadable([m1, m2, m3])
    ensures Roots([m1, m2, m3], ids) == [m1]
    ensures Replies([m1, m2, m3], ids, Int(1)) == [m2, m3]
  {
    ThreadWithin(m1, m2, m3, ids);
    ThreeReadable(m1, m2, m3);
    ThreadRoots(m1, m2, m3, ids);
    ThreadReplies(m1, m2, m3, ids);
  }

  lemma ThreadRoots(m1: Value, m2: Value, m3: Value, ids: set<Value>)
    requires !RepliesWithin(m1, ids) && RepliesWithin(m2, ids) && RepliesWithin(m3, ids)
    ensures Roots([m1, m2, m3], ids) == [m1]
  {
    var one := [m1];
    var two := one + [m2];
    assert one == [] + [m1] && two == [m1, m2] && two + [m3] == [m1, m2, m3];
    RootsSnoc([], m1, ids);
    assert Roots(one, ids) == [m1];
    RootsSnoc(one, m2, ids);
    assert Roots(two, ids) == [m1];
    RootsSnoc(two, m3, ids);
  }

  lemma ThreadReplies(m1: Value, m2: Value, m3: Value, ids: set<Value>)
    requires !RepliesWithin(m1, ids) && RepliesWithin(m2, ids) && RepliesWithin(m3, ids)
    requires ReplyTarget(m2) == Some(Int(1)) && ReplyTarget(m3) == Some(Int(1))
    ensures Replies([m1, m2, m3], ids, Int(1)) == [m2, m3]
  {
    var one := [m1];
    var two := one + [m2];
    assert one == [] + [m1] && two == [m1, m2] && two + [m3] == [m1, m2, m3];
    RepliesSnoc([], m1, ids, Int(1));
    assert Replies(one, ids, Int(1)) == [];
    RepliesSnoc(one, m2, ids, Int(1));
    assert Replies(two, ids, Int(1)) == [m2];
    RepliesSnoc(two, m3, ids, Int(1));
  }

  /** A reply to message 1 is not a reply to any other id. */
  lemma ThreadLeaves(m1: Value, m2: Value, m3: Value, ids: set<Value>, id: Value)
    requires id != Int(1)
    requires ReplyTarget(m1) == Some(Null) && ReplyTarget(m2) == Some(Int(1)) && ReplyTarget(m3) == Some(Int(1))
    ensures Replies([m1, m2, m3], ids, id) == []
  {
    var one := [m1];
    var two := one + [m2];
    assert one == [] + [m1] && two == [m1, m2] && two + [m3] == [m1, m2, m3];
    RepliesSnoc([], m1, ids, id);
    assert Replies(one, ids, id) == [];
    RepliesSnoc(one, m2, ids, id);
    assert Replies(two, ids, id) == [];
    RepliesSnoc(two, m3, ids, id);
  }

  /** With readable targets and roots that sort, the export is the traversal of the sorted roots. */
  lemma PrepareOfRoots(ms: seq<Value>, order: string, iso: IsoClock, minIsNaive: bool)
    requires TargetsReadable(ms) && !Clashes(Roots(ms, IdSet(ms)), iso, minIsNaive)
    ensures Prepare(ms, order, iso, minIsNaive) ==
      TraverseAll(ms, IdSet(ms), SortBy(Roots(ms, IdSet(ms)), iso, order == "desc"), iso, order == "desc", minIsNaive, |ms| + 1)
  {
  }

  lemma SortOne(x: Value, iso: IsoClock, desc: bool)
    ensures SortBy([x], iso, desc) == [x]
  {
    assert [x][1..] == [];
  }

  /** Two replies with offset datetimes, the later second: their sorted order. */
  lemma TwoRepliesSorted(m2: Value, m3: Value, iso: IsoClock, desc: bool, minIsNaive: bool, t2: int, t3: int)
    requires DateKey(m2, iso) == At(Instant(true, t2)) && DateKey(m3, iso) == At(Instant(true, t3)) && t2 < t3
    ensures !Clashes([m2, m3], iso, minIsNaive)
    ensures SortBy([m2, m3], iso, desc) == if desc then [m3, m2] else [m2, m3]
  {
    var ms := [m2, m3];
    forall i | 0 <= i < |ms|
      ensures IsAware(DateKey(ms[i], iso))
    {
      if i == 0 { assert ms[i] == m2; } else { assert ms[i] == m3; }
    }
    SortPair(m2, m3, iso, desc);
  }

  /** Two messages sort as the second one goes first exactly when it has to. */
  lemma SortPair(x: Value, y: Value, iso: IsoClock, desc: bool)
    ensures SortBy([x, y], iso, desc) == if Precedes(DateKey(y, iso), DateKey(x, iso), desc) then [y, x] else [x, y]
  {
    assert [x, y] == [x] + [y];
    SortCons(x, [y], iso, desc);
    SortOne(y, iso, desc);
    InsertIntoOne(x, y, iso, desc);
  }

  lemma SortCons(x: Value, s: seq<Value>, iso: IsoClock, desc: bool)
    ensures SortBy([x] + s, iso, desc) == Insert(x, SortBy(s, iso, desc), iso, desc)
  {
    assert ([x] + s)[0] == x && ([x] + s)[1..] == s;
  }

  lemma InsertIntoOne(x: Value, y: Value, iso: IsoClock, desc: bool)
    ensures Insert(x, [y], iso, desc) == if Precedes(DateKey(y, iso), DateKey(x, iso), desc) then [y, x] else [x, y]
  {
    assert [y][0] == y && [y][1..] == [];
    assert [y] + [x] == [y, x] && [x] + [y] == [x, y];
  }

  /** A parent whose sorted replies traverse to themselves. */
  lemma ParentOfLeaves(ms: seq<Value>, ids: set<Value>, m: Value, kids: seq<Value>, iso: IsoClock, desc: bool, minIsNaive: bool, fuel: nat)
    requires fuel > 1 && !Clashes(Replies(ms, ids, IdOf(m)), iso, minIsNaive)
    requires SortBy(Replies(ms, ids, IdOf(m)), iso, desc) == kids
    requires TraverseAll(ms, ids, kids, iso, desc, minIsNaive, fuel - 1) == Some(kids)
    ensures TraverseAll(ms, ids, [m], iso, desc, minIsNaive, fuel) == Some(if desc then kids + [m] else [m] + kids)
  {
    ParentTraverse(ms, ids, m, kids, iso, desc, minIsNaive, fuel);
    TraverseAllOne(ms, ids, m, iso, desc, minIsNaive, fuel, if desc then kids + [m] else [m] + kids);
  }

  lemma ParentTraverse(ms: seq<Value>, ids: set<Value>, m: Value, kids: seq<Value>, iso: IsoClock, desc: bool, minIsNaive: bool, fuel: nat)
    requires fuel > 1 && !Clashes(Replies(ms, ids, IdOf(m)), iso, minIsNaive)
    requires SortBy(Replies(ms, ids, IdOf(m)), iso, desc) == kids
    requires TraverseAll(ms, ids, kids, iso, desc, minIsNaive, fuel - 1) == Some(kids)
    ensures Traverse(ms, ids, m, iso, desc, minIsNaive, fuel) == Some(if desc then kids + [m] else [m] + kids)
  {
  }

  /** A group of one traverses as its message does. */
  lemma TraverseAllOne(ms: seq<Value>, ids: set<Value>, m: Value, iso: IsoClock, desc: bool, minIsNaive: bool, fuel: nat, b: seq<Value>)
    requires Traverse(ms, ids, m, iso, desc, minIsNaive, fuel) == Some(b)
    ensures TraverseAll(ms, ids, [m], iso, desc, minIsNaive, fuel) == Some(b)
  {
    assert TraverseAll(ms, ids, [], iso, desc, minIsNaive, fuel) == Some([]);
    TraverseAllAppend(ms, ids, [], m, iso, desc, minIsNaive, fuel, [], b);
    assert [] + [m] == [m] && [] + b == b;
  }

  /** The thread of the ordering test on any three messages that read as its three. */
  lemma ThreadOrder(m1: Value, m2: Value, m3: Value, iso: IsoClock, order: string, minIsNaive: bool, t2: int, t3: int)
    requires IdOf(m1) == Int(1) && IdOf(m2) == Int(2) && IdOf(m3) == Int(3)
    requires ReplyTarget(m1) == Some(Null) && ReplyTarget(m2) == Some(Int(1)) && ReplyTarget(m3) == Some(Int(1))
    requires DateKey(m1, iso).At? && DateKey(m1, iso).instant.aware
    requires DateKey(m2, iso) == At(Instant(true, t2)) && DateKey(m3, iso) == At(Instant(true, t3)) && t2 < t3
    ensures Prepare([m1, m2, m3], order, iso, minIsNaive) == Some(if order == "desc" then [m3, m2, m1] else [m1, m2, m3])
  {
    var ms := [m1, m2, m3];
    var desc := order == "desc";
    ThreadIds(m1, m2, m3);
    var ids := IdSet(ms);
    ThreadGroups(m1, m2, m3, ids);
    TwoRepliesSorted(m2, m3, iso, desc, minIsNaive, t2, t3);
    var kids := if desc then [m3, m2] else [m2, m3];
    ThreadRepliesAreLeaves(m1, m2, m3, ids, kids);
    var fuel := |ms| + 1;
    LeavesTraverseAll(ms, ids, kids, iso, desc, minIsNaive, fuel - 1);
    ParentOfLeaves(ms, ids, m1, kids, iso, desc, minIsNaive, fuel);
    OneNeverClashes(m1, iso, minIsNaive);
    PrepareOfRoots(ms, order, iso, minIsNaive);
    SortOne(m1, iso, desc);
    ThreeInARow(m3, m2, m1);
    ThreeInARow(m1, m2, m3);
  }

  lemma ThreadRepliesAreLeaves(m1: Value, m2: Value, m3: Value, ids: set<Value>, kids: seq<Value>)
    requires IdOf(m2) == Int(2) && IdOf(m3) == Int(3)
    requires ReplyTarget(m1) == Some(Null) && ReplyTarget(m2) == Some(Int(1)) && ReplyTarget(m3) == Some(Int(1))
    requires kids == [m3, m2] || kids == [m2, m3]
    ensures forall x | x in kids :: Replies([m1, m2, m3], ids, IdOf(x)) == []
  {
    ThreadLeaves(m1, m2, m3, ids, Int(2));
    ThreadLeaves(m1, m2, m3, ids, Int(3));
    forall x | x in kids
      ensures Replies([m1, m2, m3], ids, IdOf(x)) == []
    {
      if x == m2 {
        assert IdOf(x) == Int(2);
      } else {
        assert x == m3;
      }
    }
  }

  /** One message alone never makes the sort raise. */
  lemma OneNeverClashes(x: Value, iso: IsoClock, minIsNaive: bool)
    ensures !Clashes([x], iso, minIsNaive)
  {
  }

  lemma ThreeInARow(a: Value, b: Value, c: Value)
    ensures [a, b] + [c] == [a, b, c] == [a] + [b, c]
  {
  }

  /**
   * The thread of the ordering test: a parent and two later replies to it
   * come out replies-newest-first then parent descending, and parent then
   * replies oldest-first ascending, whatever the three date texts are as
   * long as they parse to datetimes with an offset, the second reply later
   * than the first.
   */
  lemma ReplyThreadOrder(d1: string, d2: string, d3: string, iso: IsoClock, t1: int, t2: int, t3: int, order: string, minIsNaive: bool)
    requires d1 != "" && d2 != "" && d3 != ""
    requires iso(ReplaceAll(d1, "Z", "+00:00")) == Some(Instant(true, t1))
    requires iso(ReplaceAll(d2, "Z", "+00:00")) == Some(Instant(true, t2))
    requires iso(ReplaceAll(d3, "Z", "+00:00")) == Some(Instant(true, t3))
    requires t2 < t3
    ensures var m1, m2, m3 := Posted(1, d1, "parent"), ReplyPosted(2, d2, "reply1", 1), ReplyPosted(3, d3, "reply2", 1);
      Prepare([m1, m2, m3], order, iso, minIsNaive) == Some(if order == "desc" then [m3, m2, m1] else [m1, m2, m3])
  {
    PostedReads(1, d1, "parent", iso);
    ReplyPostedReads(2, d2, "reply1", 1, iso);
    ReplyPostedReads(3, d3, "reply2", 1, iso);
    ThreadOrder(Posted(1, d1, "parent"), ReplyPosted(2, d2, "reply1", 1), ReplyPosted(3, d3, "reply2", 1), iso, order, minIsNaive, t2, t3);
  }

  /** A dated message and an undated one, neither a reply: the as-written and the corrected export. */
  lemma DatedAndUndated(dated: Value, undated: Value, iso: IsoClock, order: string)
    requires ReplyTarget(dated) == Some(Null) && ReplyTarget(undated) == Some(Null)
    requires IsAware(DateKey(dated, iso)) && DateKey(undated, iso) == Min
    ensures PrepareAsWritten([dated, undated], order, iso) == None
    ensures Prepare([dated, undated], order, iso, false) == Some(if order == "desc" then [dated, undated] else [undated, dated])
  {
    var ms := [dated, undated];
    assert ms[0] == dated && ms[1] == undated;
    NoTargetsNoReplies(dated, undated, IdSet(ms));
    forall i | 0 <= i < |ms|
      ensures DateKey(ms[i], iso) == Min || IsAware(DateKey(ms[i], iso))
    {
      if i == 0 { assert ms[i] == dated; } else { assert ms[i] == undated; }
    }
    AsWrittenUndatedRootFails(ms, order, iso, 0, 1);
    CorrectedUndatedRootSorted(ms, order, iso);
    TwoSorted(dated, undated, iso, order == "desc");
  }

  lemma NoTargetsNoReplies(a: Value, b: Value, ids: set<Value>)
    requires ReplyTarget(a) == Some(Null) && ReplyTarget(b) == Some(Null)
    ensures TargetsReadable([a, b]) && forall i | 0 <= i < 2 :: !RepliesWithin([a, b][i], ids)
  {
    var ms := [a, b];
    forall i | 0 <= i < 2
      ensures ReplyTarget(ms[i]) == Some(Null)
    {
      if i == 0 { assert ms[i] == a; } else { assert ms[i] == b; }
    }
  }

  lemma TwoSorted(dated: Value, undated: Value, iso: IsoClock, desc: bool)
    requires IsAware(DateKey(dated, iso)) && DateKey(undated, iso) == Min
    ensures SortBy([dated, undated], iso, desc) == if desc then [dated, undated] else [undated, dated]
  {
    SortPair(dated, undated, iso, desc);
  }

  /**
   * The smallest batch that shows the as-written failure: a message with a
   * Telegram date (one with an offset) and one without a date. As written the
   * export raises; corrected, the undated message comes first ascending.
   */
  lemma UndatedNextToDated(d: string, iso: IsoClock, t: int)
    requires d != "" && iso(ReplaceAll(d, "Z", "+00:00")) == Some(Instant(true, t))
    ensures var dated, undated := Posted(1, d, "dated"), Obj([("id", Int(2))]);
      PrepareAsWritten([dated, undated], "asc", iso) == None &&
      Prepare([dated, undated], "asc", iso, false) == Some([undated, dated])
  {
    PostedReads(1, d, "dated", iso);
    var undated := Obj([("id", Int(2))]);
    assert DateKey(undated, iso) == Min && ReplyTarget(undated) == Some(Null);
    DatedAndUndated(Posted(1, d, "dated"), undated, iso, "asc");
  }

  // ---------------------------------------------------------------------------
  // JSON-ready values
  // ---------------------------------------------------------------------------

  /** A value `json.dump` writes as it is: no tuples and no other objects, at any depth. */
  predicate IsJson(v: Value)
  {
    match v
    case List(xs) => forall i | 0 <= i < |xs| :: IsJson(xs[i])
    case Obj(fs) => forall i | 0 <= i < |fs| :: IsJson(fs[i].1)
    case Tuple(_) => false
    case Opaque(_) => false
    case _ => true
  }

  /**
   * `make_serializable`: dicts and lists rebuilt with their parts made
   * serializable, tuples become lists, scalars stay, and any other object
   * becomes its `str()` text, or `None` when `str()` raises.
   */
  function Serializable(v: Value): (r: Value)
    ensures v.Obj? ==> r.Obj? && |r.fields| == |v.fields| && forall i | 0 <= i < |v.fields| :: r.fields[i].0 == v.fields[i].0
    ensures (v.List? || v.Tuple?) ==> r.List? && |r.items| == |if v.List? then v.items else v.elems|
    ensures v.Opaque? ==> r == (if v.text.Some? then Str(v.text.value) else Null)
    ensures (v.Null? || v.Bool? || v.Int? || v.Float? || v.Str?) ==> r == v
  {
    match v
    case Obj(fs) => Obj(seq(|fs|, i requires 0 <= i < |fs| => (fs[i].0, Serializable(fs[i].1))))
    case List(xs) => List(seq(|xs|, i requires 0 <= i < |xs| => Serializable(xs[i])))
    case Tuple(xs) => List(seq(|xs|, i requires 0 <= i < |xs| => Serializable(xs[i])))
    case Opaque(t) => if t.Some? then Str(t.value) else Null
    case _ => v
  }

  /** What `make_serializable` returns is JSON-ready. */
  lemma {:induction false} SerializableIsJson(v: Value)
    ensures IsJson(Serializable(v))
  {
    match v
    case Obj(fs) =>
      forall i | 0 <= i < |fs|
        ensures IsJson(Serializable(v).fields[i].1)
      {
        SerializableIsJson(fs[i].1);
      }
    case List(xs) =>
      forall i | 0 <= i < |xs|
        ensures IsJson(Serializable(v).items[i])
      {
        SerializableIsJson(xs[i]);
      }
    case Tuple(xs) =>
      forall i | 0 <= i < |xs|
        ensures IsJson(Serializable(v).items[i])
      {
        SerializableIsJson(xs[i]);
      }
    case _ =>
  }

  /** A JSON-ready value comes back unchanged. */
  lemma {:induction false} SerializableKeepsJson(v: Value)
    requires IsJson(v)
    ensures Serializable(v) == v
  {
    match v
    case Obj(fs) =>
      forall i | 0 <= i < |fs|
        ensures Serializable(fs[i].1) == fs[i].1
      {
        SerializableKeepsJson(fs[i].1);
      }
      assert Serializable(v).fields == fs;
    case List(xs) =>
      forall i | 0 <= i < |xs|
        ensures Serializable(xs[i]) == xs[i]
      {
        SerializableKeepsJson(xs[i]);
      }
      assert Serializable(v).items == xs;
    case _ =>
  }

  /** Making a message serializable twice is making it serializable once. */
  lemma SerializableIdempotent(v: Value)
    ensures Serializable(Serializable(v)) == Serializable(v)
  {
    SerializableIsJson(v);
    SerializableKeepsJson(Serializable(v));
  }

  // ---------------------------------------------------------------------------
  // Telegram Desktop archives
  // ---------------------------------------------------------------------------

  /** `for x in v`: a list's or tuple's items, a dict's keys, a string's characters; `None` where iterating raises. */
  function Iterated(v: Value): (r: Option<seq<Value>>)
    ensures r.Some? <==> v.List? || v.Tuple? || v.Obj? || v.Str?
    ensures v.List? ==> r == Some(v.items)
    ensures v.Obj? ==> r.Some? && |r.value| == |v.fields|
    ensures v.Str? ==> r.Some? && |r.value| == |v.s|
  {
    match v
    case List(xs) => Some(xs)
    case Tuple(xs) => Some(xs)
    case Obj(fs) => Some(seq(|fs|, i requires 0 <= i < |fs| => Str(fs[i].0)))
    case Str(s) => Some(seq(|s|, i requires 0 <= i < |s| => Str([s[i]])))
    case _ => None
  }

  /**
   * One piece of a list-valued archive `text`: a string as it is, a dict's
   * `text` (default `""`), nothing for anything else. `None` is the
   * `TypeError` of joining a dict's text that is not a string.
   */
  function ArchivePart(part: Value): (r: Option<string>)
    ensures part.Str? ==> r == Some(part.s)
    ensures !part.Str? && !part.Obj? ==> r == Some("")
  {
    match part
    case Str(s) => Some(s)
    case Obj(fs) => (match Get(fs, "text").GetOr(Str("")) case Str(s) => Some(s) case _ => None)
    case _ => Some("")
  }

  /** `"".join(text_parts)` of the pieces. */
  function ArchiveJoin(parts: seq<Value>): Option<string>
  {
    if parts == [] then Some("")
    else
      var n := |parts| - 1;
      match ArchiveJoin(parts[..n])
      case None => None
      case Some(front) =>
        match ArchivePart(parts[n])
        case None => None
        case Some(t) => Some(front + t)
  }

  /** Pieces that are all strings join to their concatenation, in order. */
  lemma {:induction false} ArchiveJoinOfStrings(parts: seq<Value>, texts: seq<string>)
    requires |parts| == |texts| && forall i | 0 <= i < |parts| :: parts[i] == Str(texts[i])
    ensures ArchiveJoin(parts) == Some(Join(texts, ""))
  {
    if parts != [] {
      var n := |parts| - 1;
      ArchiveJoinOfStrings(parts[..n], texts[..n]);
      JoinSnoc(texts[..n], texts[n]);
      assert texts[..n] + [texts[n]] == texts;
    }
  }

  lemma {:induction false} JoinSnoc(texts: seq<string>, t: string)
    ensures Join(texts + [t], "") == Join(texts, "") + t
  {
    if texts != [] {
      assert (texts + [t])[1..] == texts[1..] + [t];
      JoinSnoc(texts[1..], t);
    }
  }

  /**
   * The text of an archive message: its `text` (default `""`), a list of
   * pieces joined, anything else through `str()`. `None` is a failed join,
   * or a `str()` the model does not render (a float, a dict, a tuple).
   */
  function ArchiveText(message: Value): Option<string>
  {
    var t := GetKey(message, "text").GetOr(Str(""));
    if t.List? then ArchiveJoin(t.items) else PyStr(t)
  }

  /** The sender: `"user<digits>"` becomes the number, anything else stays as it is. */
  function UserId(message: Value): (r: Value)
    ensures r.Int? || r == GetKey(message, "from_id").GetOr(Str(""))
  {
    var f := GetKey(message, "from_id").GetOr(Str(""));
    if f.Str? && StartsWith(f.s, "user") then
      (match ParseInt(f.s[4..]) case Some(n) => Int(n) case None => f)
    else f
  }

  /**
   * The user filter as the conversion compares it, `""` for none: a filter
   * starting with `user` loses every `user` it contains.
   */
  function NormalFilter(userFilter: Option<string>): (r: string)
    ensures userFilter.Some? && !StartsWith(userFilter.value, "user") ==> r == userFilter.value
  {
    if userFilter.None? || userFilter.value == "" then ""
    else if StartsWith(userFilter.value, "user") then ReplaceAll(userFilter.value, "user", "")
    else userFilter.value
  }

  /** The message survives the user filter: no filter, or `str(user_id)` is the filter. */
  predicate PassesFilter(userId: Value, filter: string)
  {
    filter == "" || PyStr(userId) == Some(filter)
  }

  /** `peer_id` of a chat: `PeerChat` for a group, `PeerChannel` otherwise; the id under `channel_id` for channels and public supergroups, `user_id` otherwise. */
  function ChatPeer(chat: Value): (r: Value)
    ensures r.Obj? && |r.fields| == 2 && r.fields[1].1 == Field(chat, "id")
    ensures r.fields[0] == ("_", Str(if Field(chat, "type") == Str("group") then "PeerChat" else "PeerChannel"))
    ensures r.fields[1].0 == if Field(chat, "type") in {Str("channel"), Str("public_supergroup")} then "channel_id" else "user_id"
  {
    var kind := Field(chat, "type");
    Obj([("_", Str(if kind == Str("group") then "PeerChat" else "PeerChannel")),
         (if kind == Str("channel") || kind == Str("public_supergroup") then "channel_id" else "user_id", Field(chat, "id"))])
  }

  /** The fields every converted message has, in the order the conversion writes them. */
  function RecordFields(message: Value, chat: Value, text: string, userId: Value): Fields
  {
    [("id", Field(message, "id")), ("peer_id", ChatPeer(chat)), ("date", Field(message, "date")),
     ("message", Str(text)), ("from_id", Obj([("_", Str("PeerUser")), ("user_id", userId)]))]
  }

  /** The converted message, with `reply_to_msg_id` exactly when the archive message has `reply_to_message_id`. */
  function Record(message: Value, chat: Value, text: string, userId: Value): (r: Value)
    ensures r.Obj? && |r.fields| >= 5 && r.fields[..5] == RecordFields(message, chat, text, userId)
    ensures GetKey(message, "reply_to_message_id").None? <==> |r.fields| == 5
    ensures GetKey(message, "reply_to_message_id").Some? ==> r.fields[5..] == [("reply_to_msg_id", GetKey(message, "reply_to_message_id").value)]
  {
    var base := RecordFields(message, chat, text, userId);
    match GetKey(message, "reply_to_message_id")
    case Some(v) => Obj(base + [("reply_to_msg_id", v)])
    case None => Obj(base)
  }

  /**
   * One archive message: nothing when it is not of type `message` or fails
   * the filter, its record otherwise. `None` is the exception of a message
   * that is not a dict or whose text cannot be made.
   */
  function Converted(message: Value, chat: Value, filter: string): Option<seq<Value>>
  {
    if !message.Obj? then None
    else if Field(message, "type") != Str("message") then Some([])
    else match ArchiveText(message)
      case None => None
      case Some(text) =>
        var u := UserId(message);
        if !PassesFilter(u, filter) then Some([]) else Some([Record(message, chat, text, u)])
  }

  /** The records of a chat's messages, in order. */
  function ConvertMessages(ms: seq<Value>, chat: Value, filter: string): Option<seq<Value>>
  {
    if ms == [] then Some([])
    else
      var n := |ms| - 1;
      match ConvertMessages(ms[..n], chat, filter)
      case None => None
      case Some(front) =>
        match Converted(ms[n], chat, filter)
        case None => None
        case Some(last) => Some(front + last)
  }

  /** One chat: nothing without a truthy id, else the records of its `messages` (default none). */
  function ChatConverted(chat: Value, filter: string): Option<seq<Value>>
  {
    if !chat.Obj? then None
    else if !Truthy(Field(chat, "id")) then Some([])
    else match Iterated(GetKey(chat, "messages").GetOr(List([])))
      case None => None
      case Some(ms) => ConvertMessages(ms, chat, filter)
  }

  /** The records of the chats, chat after chat. */
  function ConvertChats(chats: seq<Value>, filter: string): Option<seq<Value>>
  {
    if chats == [] then Some([])
    else
      var n := |chats| - 1;
      match ConvertChats(chats[..n], filter)
      case None => None
      case Some(front) =>
        match ChatConverted(chats[n], filter)
        case None => None
        case Some(last) => Some(front + last)
  }

  /** `chats.list` followed by `left_chats.list`, each defaulting to empty. */
  function ArchiveChats(archive: Fields): Option<seq<Value>>
  {
    var chatsBox := Get(archive, "chats").GetOr(Obj([]));
    var leftBox := Get(archive, "left_chats").GetOr(Obj([]));
    if !chatsBox.Obj? || !leftBox.Obj? then None
    else
      var chats := Get(chatsBox.fields, "list").GetOr(List([]));
      if !chats.List? then None
      else match Iterated(Get(leftBox.fields, "list").GetOr(List([])))
        case None => None
        case Some(left) => Some(chats.items + left)
  }

  /** `convert_archive_to_messages`. */
  function ConvertArchive(archive: Fields, userFilter: Option<string>): Option<seq<Value>>
  {
    match ArchiveChats(archive)
    case None => None
    case Some(chats) => ConvertChats(chats, NormalFilter(userFilter))
  }

  lemma {:induction false} ConvertMessagesPrefixFails(ms: seq<Value>, chat: Value, filter: string, k: nat)
    requires k <= |ms| && ConvertMessages(ms[..k], chat, filter).None?
    ensures ConvertMessages(ms, chat, filter).None?
    decreases |ms| - k
  {
    if k < |ms| {
      assert ms[..k + 1][..k] == ms[..k];
      ConvertMessagesPrefixFails(ms, chat, filter, k + 1);
    } else {
      assert ms[..k] == ms;
    }
  }

  lemma {:induction false} ConvertChatsPrefixFails(chats: seq<Value>, filter: string, k: nat)
    requires k <= |chats| && ConvertChats(chats[..k], filter).None?
    ensures ConvertChats(chats, filter).None?
    decreases |chats| - k
  {
    if k < |chats| {
      assert chats[..k + 1][..k] == chats[..k];
      ConvertChatsPrefixFails(chats, filter, k + 1);
    } else {
      assert chats[..k] == chats;
    }
  }

  lemma ConvertMessagesStep(ms: seq<Value>, chat: Value, filter: string, k: nat)
    requires k < |ms|
    ensures ConvertMessages(ms[..k + 1], chat, filter) ==
      match ConvertMessages(ms[..k], chat, filter)
      case None => None
      case Some(front) => match Converted(ms[k], chat, filter) case None => None case Some(last) => Some(front + last)
  {
    assert ms[..k + 1][..k] == ms[..k] && ms[..k + 1][k] == ms[k];
  }

  lemma ConvertChatsStep(chats: seq<Value>, filter: string, c: nat)
    requires c < |chats|
    ensures ConvertChats(chats[..c + 1], filter) ==
      match ConvertChats(chats[..c], filter)
      case None => None
      case Some(front) => match ChatConverted(chats[c], filter) case None => None case Some(last) => Some(front + last)
  {
    assert chats[..c + 1][..c] == chats[..c] && chats[..c + 1][c] == chats[c];
  }

  /** The inner loop of the conversion: the messages of one chat. */
  method ConvertChat(chat: Value, filter: string) returns (r: Option<seq<Value>>)
    ensures r == ChatConverted(chat, filter)
  {
    if !chat.Obj? {
      return None;
    }
    if !Truthy(Field(chat, "id")) {
      return Some([]);
    }
    var items := Iterated(GetKey(chat, "messages").GetOr(List([])));
    if items.None? {
      return None;
    }
    var ms := items.value;
    var records: seq<Value> := [];
    for k := 0 to |ms|
      invariant ConvertMessages(ms[..k], chat, filter) == Some(records)
    {
      ConvertMessagesStep(ms, chat, filter, k);
      var message := ms[k];
      if !message.Obj? {
        ConvertMessagesPrefixFails(ms, chat, filter, k + 1);
        return None;
      }
      if Field(message, "type") == Str("message") {
        var text := ArchiveText(message);
        if text.None? {
          ConvertMessagesPrefixFails(ms, chat, filter, k + 1);
          return None;
        }
        var userId := UserId(message);
        if PassesFilter(userId, filter) {
          records := records + [Record(message, chat, text.value, userId)];
        } else {
          assert records + [] == records;
        }
      } else {
        assert records + [] == records;
      }
    }
    assert ms[..|ms|] == ms;
    return Some(records);
  }

  /** The outer loop of `convert_archive_to_messages`: chat after chat. */
  method ConvertArchiveToMessages(archive: Fields, userFilter: Option<string>) returns (r: Option<seq<Value>>)
    ensures r == ConvertArchive(archive, userFilter)
  {
    var filter := "";
    if userFilter.Some? && userFilter.value != "" {
      filter := if StartsWith(userFilter.value, "user") then ReplaceAll(userFilter.value, "user", "") else userFilter.value;
    }
    var found := ArchiveChats(archive);
    if found.None? {
      return None;
    }
    var chats := found.value;
    var messages: seq<Value> := [];
    for c := 0 to |chats|
      invariant ConvertChats(chats[..c], filter) == Some(messages)
    {
      ConvertChatsStep(chats, filter, c);
      var converted := ConvertChat(chats[c], filter);
      if converted.None? {
        ConvertChatsPrefixFails(chats, filter, c + 1);
        return None;
      }
      messages := messages + converted.value;
    }
    assert chats[..|chats|] == chats;
    return Some(messages);
  }

  /** A `user<digits>` filter compares against the digits. */
  lemma UserTagFilter(d: string)
    requires IsDigits(d)
    ensures NormalFilter(Some("user" + d)) == d
  {
    var tag := "user" + d;
    assert tag[..4] == "user" && tag[4..] == d;
    ReplaceAllAbsent(d, "user", "");
  }

  /** A sender written `user<k>` is the number `k`. */
  lemma NumberedSender(m: Value, k: nat)
    requires GetKey(m, "from_id") == Some(Str("user" + NatToString(k)))
    ensures UserId(m) == Int(k)
  {
    var tag := "user" + NatToString(k);
    assert tag[..4] == "user" && tag[4..] == NatToString(k);
    ParseIntToString(k);
  }

  /** A filter of digits is compared as it is. */
  lemma DigitFilter(d: string)
    requires IsDigits(d)
    ensures NormalFilter(Some(d)) == d
  {
    assert !StartsWith(d, "user") by {
      assert IsDigit(d[0]);
    }
  }

  /** Both the filter `user<n>` and the filter `<n>` keep the sender `user<k>` exactly when `k` is `n`. */
  lemma SenderFilter(m: Value, k: nat, n: nat)
    requires GetKey(m, "from_id") == Some(Str("user" + NatToString(k)))
    ensures PassesFilter(UserId(m), NormalFilter(Some("user" + NatToString(n)))) <==> k == n
    ensures PassesFilter(UserId(m), NormalFilter(Some(NatToString(n)))) <==> k == n
  {
    NumberedSender(m, k);
    UserTagFilter(NatToString(n));
    DigitFilter(NatToString(n));
    IntToStringInjective(k, n);
  }

  /** The filter `user` compares against nothing, so it keeps every message. */
  lemma UserAloneFiltersNothing(archive: Fields)
    ensures ConvertArchive(archive, Some("user")) == ConvertArchive(archive, None)
  {
    assert NormalFilter(Some("user")) == "";
  }

  /** A converted message the filter admits: a text and a `from_id` whose `user_id` passes the filter. */
  predicate Admitted(r: Value, filter: string)
  {
    r.Obj? && |r.fields| >= 5 && r.fields[3] == ("message", r.fields[3].1) && r.fields[3].1.Str? &&
    r.fields[4].0 == "from_id" && r.fields[4].1.Obj? && |r.fields[4].1.fields| == 2 &&
    PassesFilter(r.fields[4].1.fields[1].1, filter)
  }

  lemma ConvertedAdmitted(message: Value, chat: Value, filter: string)
    ensures Converted(message, chat, filter).Some? ==> forall r | r in Converted(message, chat, filter).value :: Admitted(r, filter)
  {
    if message.Obj? && Field(message, "type") == Str("message") && ArchiveText(message).Some? {
      var u := UserId(message);
      if PassesFilter(u, filter) {
        RecordAdmitted(message, chat, ArchiveText(message).value, u, filter);
      }
    }
  }

  lemma RecordAdmitted(message: Value, chat: Value, text: string, u: Value, filter: string)
    requires PassesFilter(u, filter)
    ensures Admitted(Record(message, chat, text, u), filter)
  {
    var fs := Record(message, chat, text, u).fields;
    var base := RecordFields(message, chat, text, u);
    assert fs[3] == base[3] == ("message", Str(text));
    assert fs[4] == base[4] == ("from_id", Obj([("_", Str("PeerUser")), ("user_id", u)]));
  }

  lemma {:induction false} ConvertMessagesAdmitted(ms: seq<Value>, chat: Value, filter: string)
    ensures ConvertMessages(ms, chat, filter).Some? ==> forall r | r in ConvertMessages(ms, chat, filter).value :: Admitted(r, filter)
  {
    if ms != [] {
      ConvertMessagesAdmitted(ms[..|ms| - 1], chat, filter);
      ConvertedAdmitted(ms[|ms| - 1], chat, filter);
    }
  }

  lemma {:induction false} ConvertChatsAdmitted(chats: seq<Value>, filter: string)
    ensures ConvertChats(chats, filter).Some? ==> forall r | r in ConvertChats(chats, filter).value :: Admitted(r, filter)
  {
    if chats != [] {
      var chat := chats[|chats| - 1];
      ConvertChatsAdmitted(chats[..|chats| - 1], filter);
      if chat.Obj? && Truthy(Field(chat, "id")) && Iterated(GetKey(chat, "messages").GetOr(List([]))).Some? {
        ConvertMessagesAdmitted(Iterated(GetKey(chat, "messages").GetOr(List([]))).value, chat, filter);
      }
    }
  }

  /** Every message the conversion returns carries a text and a sender the user filter admits. */
  lemma ConvertArchiveAdmitted(archive: Fields, userFilter: Option<string>)
    ensures ConvertArchive(archive, userFilter).Some? ==>
      forall r | r in ConvertArchive(archive, userFilter).value :: Admitted(r, NormalFilter(userFilter))
  {
    if ArchiveChats(archive).Some? {
      ConvertChatsAdmitted(ArchiveChats(archive).value, NormalFilter(userFilter));
    }
  }

  /** A key no field carries is not among the keys. */
  lemma NotAKey(fs: Fields, key: string)
    requires forall i | 0 <= i < |fs| :: fs[i].0 != key
    ensures key !in Keys(fs)
  {
    forall i | 0 <= i < |fs|
      ensures Keys(fs)[i] != key
    {
      KeysAt(fs, i);
    }
  }

  /** Looking past fields that do not carry the key. */
  lemma {:induction false} GetPast(a: Fields, b: Fields, key: string)
    requires forall i | 0 <= i < |a| :: a[i].0 != key
    ensures Get(a + b, key) == Get(b, key)
  {
    if a != [] {
      assert (a + b)[1..] == a[1..] + b;
      assert (a + b)[0].0 != key;
      GetPast(a[1..], b, key);
    } else {
      assert a + b == b;
    }
  }

  /** The keys of the fields every converted message has. */
  predicate RecordKey(key: string)
  {
    key == "id" || key == "peer_id" || key == "date" || key == "message" || key == "from_id"
  }

  lemma RecordFieldsAvoid(message: Value, chat: Value, text: string, u: Value, key: string)
    requires !RecordKey(key)
    ensures forall i | 0 <= i < 5 :: RecordFields(message, chat, text, u)[i].0 != key
  {
    var base := RecordFields(message, chat, text, u);
    forall i | 0 <= i < 5
      ensures base[i].0 != key
    {
      if i == 0 { assert base[i].0 == "id"; }
      else if i == 1 { assert base[i].0 == "peer_id"; }
      else if i == 2 { assert base[i].0 == "date"; }
      else if i == 3 { assert base[i].0 == "message"; }
      else { assert base[i].0 == "from_id"; }
    }
  }

  lemma RecordLacksReplyTo(message: Value, chat: Value, text: string, u: Value)
    ensures Field(Record(message, chat, text, u), "reply_to") == Null
  {
    var fs := Record(message, chat, text, u).fields;
    RecordFieldsAvoid(message, chat, text, u, "reply_to");
    forall i | 0 <= i < |fs|
      ensures fs[i].0 != "reply_to"
    {
      if i < 5 {
        assert fs[i] == fs[..5][i];
      } else {
        assert fs[i] == fs[5..][i - 5];
      }
    }
    NotAKey(fs, "reply_to");
  }

  lemma RecordReplyId(message: Value, chat: Value, text: string, u: Value, v: Value)
    requires GetKey(message, "reply_to_message_id") == Some(v)
    ensures Field(Record(message, chat, text, u), "reply_to_msg_id") == v
  {
    var base := RecordFields(message, chat, text, u);
    assert Record(message, chat, text, u).fields == base + [("reply_to_msg_id", v)];
    RecordFieldsAvoid(message, chat, text, u, "reply_to_msg_id");
    GetPast(base, [("reply_to_msg_id", v)], "reply_to_msg_id");
  }

  /**
   * An archive message answering message `v` (a truthy id) converts to one
   * the reply tree of the text export files under `v`.
   */
  lemma ArchiveReplyFeedsTree(message: Value, chat: Value, text: string, u: Value, v: Value)
    requires GetKey(message, "reply_to_message_id") == Some(v) && Truthy(v)
    ensures ReplyTarget(Record(message, chat, text, u)) == Some(v)
  {
    RecordLacksReplyTo(message, chat, text, u);
    RecordReplyId(message, chat, text, u, v);
  }

  // ---------------------------------------------------------------------------
  // The text export
  // ---------------------------------------------------------------------------

  /** Stands for `strftime("%Y-%m-%d %H:%M:%S")`. */
  type Strftime = Instant -> string

  /**
   * The date column: `""` for a falsy `date` or one `fromisoformat` refuses,
   * else the formatted datetime. `None` is the `AttributeError` of a truthy
   * date that is not a string, which the export catches by skipping the
   * message.
   */
  function DateColumn(msg: Value, iso: IsoClock, fmt: Strftime): (r: Option<string>)
    ensures !Truthy(Field(msg, "date")) ==> r == Some("")
    ensures r.None? <==> Truthy(Field(msg, "date")) && !Field(msg, "date").Str?
  {
    var d := Field(msg, "date");
    if !Truthy(d) then Some("")
    else if !d.Str? then None
    else match iso(ReplaceAll(d.s, "Z", "+00:00")) case None => Some("") case Some(i) => Some(fmt(i))
  }

  /** The text column: `text` (default `""`), or `message` when the text is falsy and the message has that key. */
  function TextColumn(msg: Value): (r: Value)
    ensures Truthy(Field(msg, "text")) ==> r == Field(msg, "text")
    ensures !Truthy(Field(msg, "text")) && GetKey(msg, "message").Some? ==> r == GetKey(msg, "message").value
  {
    var t := GetKey(msg, "text").GetOr(Str(""));
    if !Truthy(t) && GetKey(msg, "message").Some? then GetKey(msg, "message").value else t
  }

  /** The recipient's id when it is truthy, whatever its type: the only case the export looks it up. */
  function RecipientToName(msg: Value, selfId: Option<int>): (r: Option<Value>)
    requires msg.Obj?
    ensures r.Some? ==> Truthy(r.value) && r.value == RecipientId(msg, selfId)
    ensures r.None? <==> !Truthy(RecipientId(msg, selfId))
  {
    var rid := RecipientId(msg, selfId);
    if Truthy(rid) then Some(rid) else None
  }

  /**
   * The sender column: empty without a non-zero sender id, the cached name
   * of a known user, else the name fetched for it.
   */
  predicate SenderColumn(msg: Value, known: NameMap, users: Value -> Option<Entity>, sender: string)
    requires msg.Obj?
  {
    var sid := SenderId(msg);
    (sid.None? || sid.value == 0 ==> sender == "") &&
    (sid.Some? && sid.value != 0 && Int(sid.value) in known ==> sender == known[Int(sid.value)]) &&
    (sid.Some? && sid.value != 0 && Int(sid.value) !in known ==>
       sender == FetchUserName(IntToString(sid.value), users(Int(sid.value))))
  }

  /** The users map once the sender's name is looked up: the fetched name is added when the sender was not cached. */
  function UsersAfterSender(msg: Value, known: NameMap, users: Value -> Option<Entity>): (r: NameMap)
    requires msg.Obj?
    ensures known.Keys <= r.Keys && forall k | k in known :: r[k] == known[k]
  {
    var sid := SenderId(msg);
    if sid.Some? && sid.value != 0 && Int(sid.value) !in known
    then known[Int(sid.value) := FetchUserName(IntToString(sid.value), users(Int(sid.value)))]
    else known
  }

  /**
   * The recipient column, given the name maps as they stand when the
   * recipient is looked up: empty without a truthy recipient id; else the
   * cached user name, the cached chat name, a group's title, or the user
   * name fetched for the id, all found by the id's `HashKey`. `None` is a
   * lookup that raises: an unhashable id, or a group without a `title`.
   */
  function RecipientName(msg: Value, selfId: Option<int>, knownUsers: NameMap, knownChats: NameMap,
                         entities: Value -> Option<Entity>, users: Value -> Option<Entity>, show: Value -> string): (r: Option<string>)
    requires msg.Obj?
  {
    match RecipientToName(msg, selfId)
    case None => Some("")
    case Some(rid) =>
      match HashKey(rid)
      case None => None
      case Some(key) =>
        if key in knownUsers then Some(knownUsers[key])
        else if key in knownChats then Some(knownChats[key])
        else if IsGroup(entities(rid)) then ChatTitle(Shown(rid, show), entities(rid).value)
        else Some(FetchUserName(Shown(rid, show), users(rid)))
  }

  /**
   * A recipient id is looked up whatever its type: the text `"42"` that a
   * JSON file may hold, uncached and unknown to the network, is shown as
   * `42`; the float `42.0` finds the name cached for `42`; a list makes the
   * lookup raise, so the message is skipped.
   */
  lemma RecipientOfAnyType(msg: Value, peer: Value, knownUsers: NameMap, knownChats: NameMap,
                           entities: Value -> Option<Entity>, users: Value -> Option<Entity>, show: Value -> string, name: string)
    requires msg.Obj? && Field(msg, "peer_id") == Obj([("user_id", peer)])
    ensures peer == Str("42") && Str("42") !in knownUsers && Str("42") !in knownChats && entities(peer).None? && users(peer).None?
      ==> RecipientName(msg, None, knownUsers, knownChats, entities, users, show) == Some("42")
    ensures peer == Float(42.0) && knownUsers == map[Int(42) := name] ==>
      RecipientName(msg, None, knownUsers, knownChats, entities, users, show) == Some(name)
    ensures peer == List([Int(1)]) ==> RecipientName(msg, None, knownUsers, knownChats, entities, users, show).None?
  {
    var p := Obj([("user_id", peer)]);
    assert Keys(p.fields) == ["user_id"];
    assert RecipientId(msg, None) == peer;
  }

  /**
   * One message of `save_messages_as_txt`: the date column, the sender's
   * display name, the recipient's display name, the text. `None` is a
   * message the export skips: not a dict, a date that is not a string, an
   * unhashable recipient id, or a recipient group without a title. `users`
   * and `entities` stand for the network's answers to
   * `get_entity(PeerUser(id))` and `get_entity(id)`.
   */
  method TxtEntry(cache: NameCache, msg: Value, iso: IsoClock, fmt: Strftime, show: Value -> string, selfId: Option<int>,
                  users: Value -> Option<Entity>, entities: Value -> Option<Entity>)
    returns (line: Option<string>, sender: string, recipient: string)
    requires cache.Valid()
    modifies cache
    ensures cache.Valid()
    ensures !msg.Obj? || DateColumn(msg, iso, fmt).None? ==> line.None? && unchanged(cache)
    ensures line.Some? ==>
      msg.Obj? && DateColumn(msg, iso, fmt).Some? &&
      line.value == TxtLine(DateColumn(msg, iso, fmt).value, sender, recipient, Shown(TextColumn(msg), show))
    ensures msg.Obj? && DateColumn(msg, iso, fmt).Some? ==>
      var name := RecipientName(msg, selfId, UsersAfterSender(msg, old(cache.usersMap), users), old(cache.chatsMap), entities, users, show);
      SenderColumn(msg, old(cache.usersMap), users, sender)
      && (line.None? <==> name.None?)
      && (line.Some? ==> recipient == name.value)
    ensures old(cache.fetchedUsernames) <= cache.fetchedUsernames <= old(cache.fetchedUsernames) + 2
    ensures old(cache.fetchedChatnames) <= cache.fetchedChatnames <= old(cache.fetchedChatnames) + 1
    ensures cache.flushes == old(cache.flushes)
  {
    sender, recipient := "", "";
    if !msg.Obj? {
      return None, sender, recipient;
    }
    var date := DateColumn(msg, iso, fmt);
    if date.None? {
      return None, sender, recipient;
    }
    sender := SenderEntry(cache, msg, users, show);
    var text := Shown(TextColumn(msg), show);
    var name := RecipientEntry(cache, msg, selfId, users, entities, show);
    if name.None? {
      return None, sender, recipient;
    }
    recipient := name.value;
    line := Some(TxtLine(date.value, sender, recipient, text));
  }

  /** The sender's display name, looked up when the sender id is non-zero. */
  method SenderEntry(cache: NameCache, msg: Value, users: Value -> Option<Entity>, show: Value -> string) returns (sender: string)
    requires cache.Valid() && msg.Obj?
    modifies cache
    ensures cache.Valid()
    ensures SenderColumn(msg, old(cache.usersMap), users, sender)
    ensures cache.usersMap == UsersAfterSender(msg, old(cache.usersMap), users) && cache.chatsMap == old(cache.chatsMap)
    ensures old(cache.fetchedUsernames) <= cache.fetchedUsernames <= old(cache.fetchedUsernames) + 1
    ensures cache.fetchedChatnames == old(cache.fetchedChatnames) && cache.flushes == old(cache.flushes)
  {
    sender := "";
    var sid := SenderId(msg);
    if sid.Some? && sid.value != 0 {
      var name := cache.UserDisplayName(Int(sid.value), users(Int(sid.value)), show);
      sender := name.value;
    }
  }

  /** The recipient's display name: `""` without a truthy recipient id, `None` where the lookup raises. */
  method RecipientEntry(cache: NameCache, msg: Value, selfId: Option<int>, users: Value -> Option<Entity>,
                        entities: Value -> Option<Entity>, show: Value -> string)
    returns (name: Option<string>)
    requires cache.Valid() && msg.Obj?
    modifies cache
    ensures cache.Valid()
    ensures name == RecipientName(msg, selfId, old(cache.usersMap), old(cache.chatsMap), entities, users, show)
    ensures old(cache.fetchedUsernames) <= cache.fetchedUsernames <= old(cache.fetchedUsernames) + 1
    ensures old(cache.fetchedChatnames) <= cache.fetchedChatnames <= old(cache.fetchedChatnames) + 1
    ensures cache.flushes == old(cache.flushes)
  {
    var rid := RecipientToName(msg, selfId);
    if rid.None? {
      return Some("");
    }
    name := cache.PeerDisplayName(rid.value, entities(rid.value), users(rid.value), show);
  }

  /** A message the export always writes: a dict with a usable date and no recipient to look up. */
  predicate AlwaysWritten(msg: Value, iso: IsoClock, fmt: Strftime, selfId: Option<int>)
  {
    msg.Obj? && DateColumn(msg, iso, fmt).Some? && RecipientToName(msg, selfId).None?
  }

  /** `out[k]` is the entry of `ordered[picked[k]]`, in order, each picked below `bound`. */
  predicate EntriesOf(out: seq<string>, picked: seq<nat>, ordered: seq<Value>, show: Value -> string, bound: nat)
  {
    |out| == |picked| && bound <= |ordered| &&
    (forall k | 0 <= k < |picked| :: picked[k] < bound) &&
    (forall k | 0 <= k < |picked| :: EndsWith(out[k], Shown(TextColumn(ordered[picked[k]]), show) + "\n\n")) &&
    (forall k, l | 0 <= k < l < |picked| :: picked[k] < picked[l])
  }

  /** Every message below `bound` that the export always writes has an entry. */
  predicate NoneMissed(picked: seq<nat>, ordered: seq<Value>, iso: IsoClock, fmt: Strftime, selfId: Option<int>, bound: nat)
  {
    bound <= |ordered| && forall i | 0 <= i < bound && AlwaysWritten(ordered[i], iso, fmt, selfId) :: i in picked
  }

  /** The loop of `save_messages_as_txt` over the ordered messages. */
  method WriteEntries(cache: NameCache, ordered: seq<Value>, iso: IsoClock, fmt: Strftime, show: Value -> string,
                      selfId: Option<int>, users: Value -> Option<Entity>, entities: Value -> Option<Entity>)
    returns (out: seq<string>, saved: nat, ghost picked: seq<nat>)
    requires cache.Valid()
    modifies cache
    ensures cache.Valid() && cache.flushes == old(cache.flushes)
    ensures saved == |out|
    ensures EntriesOf(out, picked, ordered, show, |ordered|)
    ensures NoneMissed(picked, ordered, iso, fmt, selfId, |ordered|)
  {
    out, saved, picked := [], 0, [];
    for j := 0 to |ordered|
      invariant cache.Valid() && cache.flushes == old(cache.flushes)
      invariant saved == |out|
      invariant EntriesOf(out, picked, ordered, show, j)
      invariant NoneMissed(picked, ordered, iso, fmt, selfId, j)
    {
      var line, sender, recipient := TxtEntry(cache, ordered[j], iso, fmt, show, selfId, users, entities);
      if line.Some? {
        EntriesStep(out, picked, ordered, show, j, line.value);
        NoneMissedStep(picked, ordered, iso, fmt, selfId, j, true);
        out, saved, picked := out + [line.value], saved + 1, picked + [j];
      } else {
        NoneMissedStep(picked, ordered, iso, fmt, selfId, j, false);
        EntriesBound(out, picked, ordered, show, j);
      }
    }
  }

  lemma EntriesStep(out: seq<string>, picked: seq<nat>, ordered: seq<Value>, show: Value -> string, j: nat, line: string)
    requires EntriesOf(out, picked, ordered, show, j) && j < |ordered|
    requires EndsWith(line, Shown(TextColumn(ordered[j]), show) + "\n\n")
    ensures EntriesOf(out + [line], picked + [j], ordered, show, j + 1)
  {
  }

  lemma EntriesBound(out: seq<string>, picked: seq<nat>, ordered: seq<Value>, show: Value -> string, j: nat)
    requires EntriesOf(out, picked, ordered, show, j) && j < |ordered|
    ensures EntriesOf(out, picked, ordered, show, j + 1)
  {
  }

  lemma NoneMissedStep(picked: seq<nat>, ordered: seq<Value>, iso: IsoClock, fmt: Strftime, selfId: Option<int>, j: nat, written: bool)
    requires NoneMissed(picked, ordered, iso, fmt, selfId, j) && j < |ordered|
    requires !written ==> !AlwaysWritten(ordered[j], iso, fmt, selfId)
    ensures NoneMissed(if written then picked + [j] else picked, ordered, iso, fmt, selfId, j + 1)
  {
  }

  /**
   * `save_messages_as_txt`: the entries of the messages in reply-tree order,
   * as appended to the file, and their count; `picked` says which message
   * each entry came from. A skipped message leaves no entry; one that needs
   * no recipient lookup is never skipped. The names fetched are saved once
   * more at the end when any name was fetched since start-up. `None` is the
   * `TypeError` of ordering the messages.
   */
  method SaveMessagesAsTxt(cache: NameCache, messages: seq<Value>, order: string, iso: IsoClock, fmt: Strftime,
                           show: Value -> string, selfId: Option<int>,
                           users: Value -> Option<Entity>, entities: Value -> Option<Entity>)
    returns (lines: Option<seq<string>>, saved: nat, ghost picked: seq<nat>)
    requires cache.Valid()
    modifies cache
    ensures cache.Valid()
    ensures lines.None? <==> PrepareAsWritten(messages, order, iso).None?
    ensures lines.None? ==> unchanged(cache)
    ensures lines.Some? ==> saved == |lines.value|
    ensures lines.Some? ==> EntriesOf(lines.value, picked, PrepareAsWritten(messages, order, iso).value, show, |PrepareAsWritten(messages, order, iso).value|)
    ensures lines.Some? ==> NoneMissed(picked, PrepareAsWritten(messages, order, iso).value, iso, fmt, selfId, |PrepareAsWritten(messages, order, iso).value|)
    ensures lines.Some? ==>
      cache.flushes == old(cache.flushes) + (if cache.fetchedUsernames > 0 || cache.fetchedChatnames > 0 then 1 else 0)
  {
    var prepared := PrepareMessagesForTxt(messages, order, iso);
    if prepared.None? {
      return None, 0, [];
    }
    var out;
    out, saved, picked := WriteEntries(cache, prepared.value, iso, fmt, show, selfId, users, entities);
    cache.FlushAfterExport();
    lines := Some(out);
  }

  // ---------------------------------------------------------------------
  // Saving a download
  // ---------------------------------------------------------------------

  /**
   * `save_messages`: serialises every message, writes them as the JSON
   * output, exports the TXT file next to it when asked, and deletes the
   * checkpoint file of the output unless a stop was requested. `json` is
   * what is written to the output; `None` when the output has no file
   * name, where opening it fails before anything else happens. A TXT export
   * that raises (`lines` is `None`) leaves `save_messages` before the
   * checkpoint is touched, so the checkpoint survives.
   */
  method SaveMessages(d: Download.Downloader, cache: NameCache, messages: seq<Value>, output: Paths.Path,
                      saveTxt: bool, order: string, iso: IsoClock, fmt: Strftime, show: Value -> string,
                      selfId: Option<int>, users: Value -> Option<Entity>, entities: Value -> Option<Entity>)
    returns (json: Option<seq<Value>>, lines: Option<seq<string>>)
    requires cache.Valid()
    modifies d.partial, cache
    ensures cache.Valid() && d.partial.lastSavedIds == old(d.partial.lastSavedIds)
    ensures json.None? <==> output.name == ""
    ensures json.None? ==> lines.None? && unchanged(d.partial) && unchanged(cache)
    ensures json.Some? ==> |json.value| == |messages|
    ensures json.Some? ==> forall k :: 0 <= k < |messages| ==> json.value[k] == Serializable(messages[k]) && IsJson(json.value[k])
    ensures json.Some? && !saveTxt ==> lines.None? && unchanged(cache)
    ensures json.Some? && saveTxt ==> (lines.Some? <==> PrepareAsWritten(json.value, order, iso).Some?)
    ensures json.Some? && saveTxt && lines.None? ==> unchanged(d.partial)
    ensures json.Some? && !(saveTxt && lines.None?) ==>
      var temp := Checkpoint.TempFilePath(output, None).value;
      d.partial.files == if temp in old(d.partial.files) && !d.stopRequested
                         then old(d.partial.files) - {temp} else old(d.partial.files)
  {
    if output.name == "" {
      return None, None;
    }
    var serial: seq<Value> := [];
    var i := 0;
    while i < |messages|
      invariant 0 <= i <= |messages| && |serial| == i
      invariant forall k :: 0 <= k < i ==> serial[k] == Serializable(messages[k])
    {
      serial := serial + [Serializable(messages[i])];
      i := i + 1;
    }
    forall k | 0 <= k < |serial|
      ensures IsJson(serial[k])
    {
      SerializableIsJson(messages[k]);
    }
    json := Some(serial);
    lines := None;
    if saveTxt {
      var saved;
      ghost var picked;
      lines, saved, picked := SaveMessagesAsTxt(cache, serial, order, iso, fmt, show, selfId, users, entities);
      if lines.None? {
        return;
      }
    }
    var temp := Checkpoint.TempFilePath(output, None).value;
    if temp in d.partial.files && !d.stopRequested {
      d.partial.files := d.partial.files - {temp};
    }
  }
}
