/**
 * The reply-tree order of the text export keeps every message exactly once
 * when the batch's ids are distinct and its reply links have no cycle.
 *
 * Acyclicity is stated with a rank: a function on messages that is smaller
 * for a message than for every reply to it within the batch. A batch has
 * such a rank exactly when following reply links never comes back to where
 * it started.
 */
module ReplyForest {
  import opened Wrappers
  import opened Json
  import opened Commands
  import opened Messages

  /** Every message of the batch has an id, and no two share one. */
  predicate DistinctIds(ms: seq<Value>)
  {
    (forall i :: 0 <= i < |ms| ==> IdOf(ms[i]) != Null)
    && (forall i, j :: 0 <= i < j < |ms| ==> IdOf(ms[i]) != IdOf(ms[j]))
  }

  /** `y` replies, within the batch, to the message `p`. */
  predicate RepliesTo(ms: seq<Value>, y: Value, p: Value)
  {
    RepliesWithin(y, IdSet(ms)) && ReplyTarget(y).value == IdOf(p)
  }

  /** `rank` grows from every message of the batch to each of its replies: the reply links have no cycle. */
  predicate Ranked(ms: seq<Value>, rank: Value -> nat)
  {
    forall y, p {:trigger RepliesTo(ms, y, p)} :: y in ms && p in ms && RepliesTo(ms, y, p) ==> rank(p) < rank(y)
  }

  /** The message of the batch a reply within the batch answers. */
  ghost function Parent(ms: seq<Value>, y: Value): (p: Value)
    requires y in ms && RepliesWithin(y, IdSet(ms))
    ensures p in ms && RepliesTo(ms, y, p)
  {
    var t := ReplyTarget(y).value;
    IdSetMembers(ms, t);
    var j :| 0 <= j < |ms| && IdOf(ms[j]) == t;
    ms[j]
  }

  /** With distinct ids a reply has one parent. */
  lemma ParentUnique(ms: seq<Value>, y: Value, p: Value)
    requires DistinctIds(ms) && y in ms && p in ms && RepliesTo(ms, y, p)
    ensures Parent(ms, y) == p
  {
    var q := Parent(ms, y);
    var i :| 0 <= i < |ms| && ms[i] == p;
    var j :| 0 <= j < |ms| && ms[j] == q;
    assert IdOf(ms[i]) == IdOf(ms[j]);
  }

  /** `x` is `y` or an ancestor of `y` along the reply links of the batch. */
  ghost predicate Above(ms: seq<Value>, rank: Value -> nat, x: Value, y: Value)
    requires Ranked(ms, rank) && y in ms
    decreases rank(y)
  {
    y == x || (RepliesWithin(y, IdSet(ms)) && Above(ms, rank, x, Parent(ms, y)))
  }

  /** `Above` for any `y`: false outside the batch. */
  ghost predicate AboveIn(ms: seq<Value>, rank: Value -> nat, x: Value, y: Value)
    requires Ranked(ms, rank)
  {
    y in ms && Above(ms, rank, x, y)
  }

  /** An ancestor ranks no higher than its descendants. */
  lemma {:induction false} AboveRank(ms: seq<Value>, rank: Value -> nat, x: Value, y: Value)
    requires Ranked(ms, rank) && y in ms && Above(ms, rank, x, y)
    ensures rank(x) <= rank(y)
    decreases rank(y)
  {
    if y != x {
      AboveRank(ms, rank, x, Parent(ms, y));
    }
  }

  /** A reply to `x` descends from `x` and so does everything below it; none of them is `x`. */
  lemma {:induction false} BelowChild(ms: seq<Value>, rank: Value -> nat, x: Value, c: Value, y: Value)
    requires DistinctIds(ms) && Ranked(ms, rank) && x in ms && c in ms && y in ms
    requires RepliesTo(ms, c, x) && Above(ms, rank, c, y)
    ensures Above(ms, rank, x, y) && y != x
    decreases rank(y)
  {
    AboveRank(ms, rank, c, y);
    if y == c {
      ParentUnique(ms, c, x);
    } else {
      BelowChild(ms, rank, x, c, Parent(ms, y));
    }
  }

  /** A strict descendant of `x` descends from one of its replies. */
  lemma {:induction false} ThroughChild(ms: seq<Value>, rank: Value -> nat, x: Value, y: Value) returns (c: Value)
    requires DistinctIds(ms) && Ranked(ms, rank) && x in ms && y in ms
    requires Above(ms, rank, x, y) && y != x
    ensures c in ms && RepliesTo(ms, c, x) && Above(ms, rank, c, y)
    decreases rank(y)
  {
    var p := Parent(ms, y);
    if p == x {
      c := y;
    } else {
      c := ThroughChild(ms, rank, x, p);
    }
  }

  /** At most one reply to `x` lies above a given message. */
  lemma {:induction false} OneChildAbove(ms: seq<Value>, rank: Value -> nat, x: Value, c: Value, d: Value, y: Value)
    requires DistinctIds(ms) && Ranked(ms, rank) && x in ms && c in ms && d in ms && y in ms
    requires RepliesTo(ms, c, x) && RepliesTo(ms, d, x)
    requires Above(ms, rank, c, y) && Above(ms, rank, d, y)
    ensures c == d
    decreases rank(y)
  {
    ParentUnique(ms, c, x);
    ParentUnique(ms, d, x);
    if y == c {
      if d != c {
        AboveRank(ms, rank, d, x);
      }
    } else if y == d {
      AboveRank(ms, rank, c, x);
    } else {
      OneChildAbove(ms, rank, x, c, d, Parent(ms, y));
    }
  }

  /** Every message lies below a root, a message replying to nothing in the batch. */
  lemma {:induction false} RootAbove(ms: seq<Value>, rank: Value -> nat, y: Value) returns (r: Value)
    requires Ranked(ms, rank) && y in ms
    ensures r in ms && !RepliesWithin(r, IdSet(ms)) && Above(ms, rank, r, y)
    decreases rank(y)
  {
    if !RepliesWithin(y, IdSet(ms)) {
      r := y;
    } else {
      r := RootAbove(ms, rank, Parent(ms, y));
    }
  }

  /** At most one root lies above a given message. */
  lemma {:induction false} OneRootAbove(ms: seq<Value>, rank: Value -> nat, r: Value, s: Value, y: Value)
    requires Ranked(ms, rank) && y in ms
    requires !RepliesWithin(r, IdSet(ms)) && !RepliesWithin(s, IdSet(ms))
    requires Above(ms, rank, r, y) && Above(ms, rank, s, y)
    ensures r == s
    decreases rank(y)
  {
    if y != r && y != s {
      OneRootAbove(ms, rank, r, s, Parent(ms, y));
    }
  }

  /** How many messages of `g` (with repeats) lie above `y`. */
  ghost function CountAbove(ms: seq<Value>, rank: Value -> nat, g: seq<Value>, y: Value): nat
    requires Ranked(ms, rank)
  {
    if g == [] then 0
    else
      var n := |g| - 1;
      CountAbove(ms, rank, g[..n], y) + (if AboveIn(ms, rank, g[n], y) then 1 else 0)
  }

  /** When `c0` is the only candidate of `g` above `y`, the count is how often `c0` occurs. */
  lemma {:induction false} CountOnly(ms: seq<Value>, rank: Value -> nat, g: seq<Value>, y: Value, c0: Value)
    requires Ranked(ms, rank)
    requires forall c :: c in g && AboveIn(ms, rank, c, y) ==> c == c0
    ensures CountAbove(ms, rank, g, y) == if AboveIn(ms, rank, c0, y) then multiset(g)[c0] else 0
  {
    if g != [] {
      var n := |g| - 1;
      assert forall c :: c in g[..n] ==> c in g;
      CountOnly(ms, rank, g[..n], y, c0);
      assert g == g[..n] + [g[n]];
    }
  }

  /** A message of a batch with distinct ids occurs in it once. */
  lemma OnceInBatch(ms: seq<Value>, v: Value)
    requires DistinctIds(ms)
    ensures multiset(ms)[v] == if v in ms then 1 else 0
    decreases |ms|
  {
    if ms != [] {
      var n := |ms| - 1;
      assert DistinctIds(ms[..n]);
      OnceInBatch(ms[..n], v);
      assert ms == ms[..n] + [ms[n]];
      if v == ms[n] {
        forall i | 0 <= i < n ensures ms[..n][i] != v {
          assert IdOf(ms[i]) != IdOf(ms[n]);
        }
      }
    }
  }

  /** The replies to an id occur in them no more often than in the batch. */
  lemma {:induction false} RepliesCount(ms: seq<Value>, ids: set<Value>, id: Value, v: Value)
    ensures multiset(Replies(ms, ids, id))[v] <= multiset(ms)[v]
  {
    if ms != [] {
      var n := |ms| - 1;
      RepliesCount(ms[..n], ids, id, v);
      var kept: seq<Value> := if RepliesWithin(ms[n], ids) && ReplyTarget(ms[n]).value == id then [ms[n]] else [];
      assert Replies(ms, ids, id) == Replies(ms[..n], ids, id) + kept;
      KeepLastCount(ms, kept, v);
    }
  }

  /** Keeping at most the last message of a batch adds at most its occurrences there. */
  lemma KeepLastCount(ms: seq<Value>, kept: seq<Value>, v: Value)
    requires ms != [] && (kept == [] || kept == [ms[|ms| - 1]])
    ensures multiset(kept)[v] + multiset(ms[..|ms| - 1])[v] <= multiset(ms)[v]
  {
    assert ms == ms[..|ms| - 1] + [ms[|ms| - 1]];
  }

  /** The roots occur in them no more often than in the batch. */
  lemma {:induction false} RootsCount(ms: seq<Value>, ids: set<Value>, v: Value)
    ensures multiset(Roots(ms, ids))[v] <= multiset(ms)[v]
  {
    if ms != [] {
      var n := |ms| - 1;
      RootsCount(ms[..n], ids, v);
      var kept: seq<Value> := if RepliesWithin(ms[n], ids) then [] else [ms[n]];
      assert Roots(ms, ids) == Roots(ms[..n], ids) + kept;
      KeepLastCount(ms, kept, v);
    }
  }

  /** The sorted replies to `x` are the replies to `x` of the batch. */
  lemma SortedKids(ms: seq<Value>, x: Value, iso: IsoClock, desc: bool)
    ensures var kids := Replies(ms, IdSet(ms), IdOf(x));
      multiset(SortBy(kids, iso, desc)) == multiset(kids)
      && forall c | c in SortBy(kids, iso, desc) :: c in ms && RepliesTo(ms, c, x)
  {
    var kids := Replies(ms, IdSet(ms), IdOf(x));
    var sorted := SortBy(kids, iso, desc);
    SortPermutes(kids, iso, desc);
    forall c | c in sorted ensures c in ms && RepliesTo(ms, c, x) {
      assert c in multiset(sorted);
      RepliesAreReplies(ms, IdSet(ms), IdOf(x), c);
    }
  }

  /** The sorted replies to `x` are messages of the batch. */
  lemma KidsInBatch(ms: seq<Value>, x: Value, iso: IsoClock, desc: bool)
    ensures forall c | c in SortBy(Replies(ms, IdSet(ms), IdOf(x)), iso, desc) :: c in ms
  {
    SortedKids(ms, x, iso, desc);
  }

  /** Exactly one reply to `x` lies above each strict descendant of `x`, and none above anything else. */
  lemma KidsCount(ms: seq<Value>, rank: Value -> nat, x: Value, y: Value, iso: IsoClock, desc: bool)
    requires DistinctIds(ms) && Ranked(ms, rank) && x in ms
    ensures CountAbove(ms, rank, SortBy(Replies(ms, IdSet(ms), IdOf(x)), iso, desc), y) == if y != x && AboveIn(ms, rank, x, y) then 1 else 0
  {
    var kids := Replies(ms, IdSet(ms), IdOf(x));
    var sorted := SortBy(kids, iso, desc);
    SortedKids(ms, x, iso, desc);
    if y != x && AboveIn(ms, rank, x, y) {
      var c0 := ThroughChild(ms, rank, x, y);
      forall c | c in sorted && AboveIn(ms, rank, c, y) ensures c == c0 {
        OneChildAbove(ms, rank, x, c, c0, y);
      }
      CountOnly(ms, rank, sorted, y, c0);
      RepliesAreReplies(ms, IdSet(ms), IdOf(x), c0);
      RepliesCount(ms, IdSet(ms), IdOf(x), c0);
      OnceInBatch(ms, c0);
      assert multiset(kids)[c0] >= 1;
    } else {
      forall c | c in sorted && AboveIn(ms, rank, c, y) ensures false {
        BelowChild(ms, rank, x, c, y);
      }
      CountOnly(ms, rank, sorted, y, x);
      assert x !in sorted by {
        if x in sorted {
          ParentUnique(ms, x, x);
          assert false;
        }
      }
    }
  }

  /** `sorted` is the replies to `x` in the order the export sorts them. */
  ghost predicate SortedReplies(ms: seq<Value>, x: Value, iso: IsoClock, desc: bool, sorted: seq<Value>)
  {
    sorted == SortBy(Replies(ms, IdSet(ms), IdOf(x)), iso, desc)
  }

  /**
   * The traversals of the group `g` over the ids of the batch. Naming them
   * keeps the proofs below from unfolding the traversal deeper than each step
   * needs.
   */
  ghost function Walk(ms: seq<Value>, g: seq<Value>, iso: IsoClock, desc: bool, minIsNaive: bool, fuel: nat): Option<seq<Value>>
  {
    TraverseAll(ms, IdSet(ms), g, iso, desc, minIsNaive, fuel)
  }

  /** The traversal of the message `x` over the ids of the batch. */
  ghost function Visit(ms: seq<Value>, x: Value, iso: IsoClock, desc: bool, minIsNaive: bool, fuel: nat): Option<seq<Value>>
  {
    Traverse(ms, IdSet(ms), x, iso, desc, minIsNaive, fuel)
  }

  /** The traversals of a group list each message as often as messages of the group lie above it. */
  lemma {:induction false} TraverseAllCounts(ms: seq<Value>, rank: Value -> nat, g: seq<Value>, iso: IsoClock, desc: bool, minIsNaive: bool, fuel: nat, out: seq<Value>, y: Value)
    requires DistinctIds(ms) && Ranked(ms, rank) && forall c | c in g :: c in ms
    requires Walk(ms, g, iso, desc, minIsNaive, fuel) == Some(out)
    ensures multiset(out)[y] == CountAbove(ms, rank, g, y)
    decreases fuel, 1, |g|
  {
    if g != [] {
      var front, t := SplitGroup(ms, g, iso, desc, minIsNaive, fuel, out, y);
      TraverseAllCounts(ms, rank, g[..|g| - 1], iso, desc, minIsNaive, fuel, front, y);
      TraverseCounts(ms, rank, g[|g| - 1], iso, desc, minIsNaive, fuel, t, y);
      CountAboveLast(ms, rank, g, y);
    }
  }

  /** The messages of a non-empty group above `y`: those of its front, and its last one if that is above `y`. */
  lemma CountAboveLast(ms: seq<Value>, rank: Value -> nat, g: seq<Value>, y: Value)
    requires Ranked(ms, rank) && g != []
    ensures CountAbove(ms, rank, g, y) == CountAbove(ms, rank, g[..|g| - 1], y) + if AboveIn(ms, rank, g[|g| - 1], y) then 1 else 0
  {
  }

  /** The traversal of a message lists each message once if it lies below that message, and not at all otherwise. */
  lemma {:induction false} TraverseCounts(ms: seq<Value>, rank: Value -> nat, x: Value, iso: IsoClock, desc: bool, minIsNaive: bool, fuel: nat, t: seq<Value>, y: Value)
    requires DistinctIds(ms) && Ranked(ms, rank) && x in ms
    requires Visit(ms, x, iso, desc, minIsNaive, fuel) == Some(t)
    ensures multiset(t)[y] == if AboveIn(ms, rank, x, y) then 1 else 0
    decreases fuel, 0, 0
  {
    var sorted, sub := SplitNode(ms, x, iso, desc, minIsNaive, fuel, t, y);
    TraverseAllCounts(ms, rank, sorted, iso, desc, minIsNaive, fuel - 1, sub, y);
    NodeCount(ms, rank, x, y, iso, desc, sorted);
  }

  /** A message lies above `y` when it is `y` or exactly when one of its sorted replies does. */
  lemma NodeCount(ms: seq<Value>, rank: Value -> nat, x: Value, y: Value, iso: IsoClock, desc: bool, sorted: seq<Value>)
    requires DistinctIds(ms) && Ranked(ms, rank) && x in ms
    requires SortedReplies(ms, x, iso, desc, sorted)
    ensures (if AboveIn(ms, rank, x, y) then 1 else 0) == CountAbove(ms, rank, sorted, y) + (if y == x then 1 else 0)
  {
    KidsCount(ms, rank, x, y, iso, desc);
    assert AboveIn(ms, rank, x, x);
  }

  /** The traversals of a non-empty group are those of its front, then that of its last message. */
  lemma SplitGroup(ms: seq<Value>, g: seq<Value>, iso: IsoClock, desc: bool, minIsNaive: bool, fuel: nat, out: seq<Value>, y: Value) returns (front: seq<Value>, t: seq<Value>)
    requires g != [] && Walk(ms, g, iso, desc, minIsNaive, fuel) == Some(out) && forall c | c in g :: c in ms
    ensures Walk(ms, g[..|g| - 1], iso, desc, minIsNaive, fuel) == Some(front) && forall c | c in g[..|g| - 1] :: c in ms
    ensures g[|g| - 1] in ms && Visit(ms, g[|g| - 1], iso, desc, minIsNaive, fuel) == Some(t)
    ensures multiset(out)[y] == multiset(front)[y] + multiset(t)[y]
  {
    var ids := IdSet(ms);
    var n := |g| - 1;
    assert forall c | c in g[..n] :: c in g;
    front := TraverseAll(ms, ids, g[..n], iso, desc, minIsNaive, fuel).value;
    t := Traverse(ms, ids, g[n], iso, desc, minIsNaive, fuel).value;
    assert out == front + t;
    assert multiset(front + t) == multiset(front) + multiset(t);
  }

  /** The traversal of a message is the message with the traversals of its sorted replies. */
  lemma SplitNode(ms: seq<Value>, x: Value, iso: IsoClock, desc: bool, minIsNaive: bool, fuel: nat, t: seq<Value>, y: Value) returns (sorted: seq<Value>, sub: seq<Value>)
    requires x in ms && Visit(ms, x, iso, desc, minIsNaive, fuel) == Some(t)
    ensures SortedReplies(ms, x, iso, desc, sorted) && forall c | c in sorted :: c in ms
    ensures fuel > 0 && Walk(ms, sorted, iso, desc, minIsNaive, fuel - 1) == Some(sub)
    ensures multiset(t)[y] == multiset(sub)[y] + (if y == x then 1 else 0)
  {
    var ids := IdSet(ms);
    sorted := SortBy(Replies(ms, ids, IdOf(x)), iso, desc);
    KidsInBatch(ms, x, iso, desc);
    sub := TraverseAll(ms, ids, sorted, iso, desc, minIsNaive, fuel - 1).value;
    assert t == (if desc then sub + [x] else [x] + sub);
    assert multiset(t) == multiset(sub) + multiset{x};
  }

  /** The sorted roots are the roots of the batch. */
  lemma SortedRoots(ms: seq<Value>, iso: IsoClock, desc: bool)
    ensures var roots := Roots(ms, IdSet(ms));
      multiset(SortBy(roots, iso, desc)) == multiset(roots)
      && forall c | c in SortBy(roots, iso, desc) :: c in ms && !RepliesWithin(c, IdSet(ms))
  {
    var roots := Roots(ms, IdSet(ms));
    var sorted := SortBy(roots, iso, desc);
    SortPermutes(roots, iso, desc);
    forall c | c in sorted ensures c in ms && !RepliesWithin(c, IdSet(ms)) {
      assert c in multiset(sorted);
      RootsAreNonReplies(ms, IdSet(ms), c);
    }
  }

  /** Exactly one root lies above each message of the batch, and none above anything else. */
  lemma RootsCountAbove(ms: seq<Value>, rank: Value -> nat, roots: seq<Value>, sorted: seq<Value>, y: Value)
    requires DistinctIds(ms) && Ranked(ms, rank)
    requires roots == Roots(ms, IdSet(ms)) && multiset(sorted) == multiset(roots)
    requires forall c | c in sorted :: c in ms && !RepliesWithin(c, IdSet(ms))
    ensures CountAbove(ms, rank, sorted, y) == multiset(ms)[y]
  {
    OnceInBatch(ms, y);
    if y in ms {
      var r0 := RootAbove(ms, rank, y);
      forall c | c in sorted && AboveIn(ms, rank, c, y) ensures c == r0 {
        OneRootAbove(ms, rank, c, r0, y);
      }
      CountOnly(ms, rank, sorted, y, r0);
      RootsAreNonReplies(ms, IdSet(ms), r0);
      RootsCount(ms, IdSet(ms), r0);
      OnceInBatch(ms, r0);
      assert multiset(roots)[r0] >= 1;
    } else {
      CountOnly(ms, rank, sorted, y, y);
    }
  }

  /**
   * With distinct ids and no reply cycle, the reply-tree order, when it does
   * not raise, holds every message of the batch exactly once: it is a
   * permutation of the batch. This holds for the program as written and for
   * the corrected date key alike.
   */
  lemma PreparePermutes(ms: seq<Value>, order: string, iso: IsoClock, minIsNaive: bool, rank: Value -> nat)
    requires DistinctIds(ms) && Ranked(ms, rank)
    requires Prepare(ms, order, iso, minIsNaive).Some?
    ensures multiset(Prepare(ms, order, iso, minIsNaive).value) == multiset(ms)
  {
    var ids := IdSet(ms);
    var desc := order == "desc";
    var roots := Roots(ms, ids);
    var sorted := SortBy(roots, iso, desc);
    assert Prepare(ms, order, iso, minIsNaive) == TraverseAll(ms, ids, sorted, iso, desc, minIsNaive, |ms| + 1);
    var out := Prepare(ms, order, iso, minIsNaive).value;
    SortedRoots(ms, iso, desc);
    forall y ensures multiset(out)[y] == multiset(ms)[y] {
      TraverseAllCounts(ms, rank, sorted, iso, desc, minIsNaive, |ms| + 1, out, y);
      RootsCountAbove(ms, rank, roots, sorted, y);
    }
  }

  // ---------------------------------------------------------------------------
  // The corrected order is always produced
  // ---------------------------------------------------------------------------

  /** Every message has a Telegram date, which is aware, or no date, whose key is `datetime.min`. */
  predicate TelegramDated(ms: seq<Value>, iso: IsoClock)
  {
    forall x | x in ms :: DateKey(x, iso) == Min || IsAware(DateKey(x, iso))
  }

  /** With the corrected key, no group of such messages makes the sort raise. */
  lemma NoClashWithin(ms: seq<Value>, g: seq<Value>, iso: IsoClock)
    requires TelegramDated(ms, iso) && forall c | c in g :: c in ms
    ensures !Clashes(g, iso, false)
  {
    forall j | 0 <= j < |g| ensures !IsNaive(DateKey(g[j], iso), false) {
      assert g[j] in ms;
    }
  }

  /** `x` and the messages above it: the chain of messages `x` replies to, up to its root. */
  ghost function Anc(ms: seq<Value>, rank: Value -> nat, x: Value): set<Value>
    requires Ranked(ms, rank) && x in ms
  {
    set a | a in ms && Above(ms, rank, a, x)
  }

  /** A set of messages of a batch has no more members than the batch has entries. */
  lemma {:induction false} FewerThanBatch(ms: seq<Value>, s: set<Value>)
    requires forall a | a in s :: a in ms
    ensures |s| <= |ms|
  {
    if ms != [] {
      var n := |ms| - 1;
      var rest := s - {ms[n]};
      forall a | a in rest ensures a in ms[..n] {
        LastSplit(ms, a);
      }
      FewerThanBatch(ms[..n], rest);
    } else {
      assert s == {};
    }
  }

  /** The chain above a reply is the chain above the message it answers, and the reply itself. */
  lemma AncOfReply(ms: seq<Value>, rank: Value -> nat, x: Value, c: Value)
    requires DistinctIds(ms) && Ranked(ms, rank) && x in ms && c in ms && RepliesTo(ms, c, x)
    ensures Anc(ms, rank, c) == Anc(ms, rank, x) + {c} && c !in Anc(ms, rank, x)
    ensures |Anc(ms, rank, c)| == |Anc(ms, rank, x)| + 1
  {
    ParentUnique(ms, c, x);
    assert c !in Anc(ms, rank, x) by {
      if Above(ms, rank, c, x) {
        AboveRank(ms, rank, c, x);
      }
    }
  }

  /**
   * The traversal of a message succeeds when its fuel and the length of its
   * chain together exceed the batch: the sorts never raise, and each level
   * down the chain grows by one message of the batch.
   */
  lemma {:induction false} VisitSucceeds(ms: seq<Value>, rank: Value -> nat, x: Value, iso: IsoClock, desc: bool, fuel: nat)
    requires DistinctIds(ms) && Ranked(ms, rank) && TelegramDated(ms, iso) && x in ms
    requires |Anc(ms, rank, x)| + fuel > |ms|
    ensures Visit(ms, x, iso, desc, false, fuel).Some?
    decreases fuel, 0, 0
  {
    var sorted := NodeStep(ms, rank, x, iso, desc, fuel);
    WalkSucceeds(ms, rank, sorted, iso, desc, fuel - 1);
    assert Walk(ms, sorted, iso, desc, false, fuel - 1).Some?;
  }

  /** One level down: the traversal of `x` succeeds once that of its sorted replies does, each of which has a longer chain. */
  lemma NodeStep(ms: seq<Value>, rank: Value -> nat, x: Value, iso: IsoClock, desc: bool, fuel: nat) returns (sorted: seq<Value>)
    requires DistinctIds(ms) && Ranked(ms, rank) && TelegramDated(ms, iso) && x in ms
    requires |Anc(ms, rank, x)| + fuel > |ms|
    ensures fuel > 0
    ensures forall c | c in sorted :: c in ms && |Anc(ms, rank, c)| + (fuel - 1) > |ms|
    ensures Walk(ms, sorted, iso, desc, false, fuel - 1).Some? ==> Visit(ms, x, iso, desc, false, fuel).Some?
  {
    sorted := KidsSorted(ms, x, iso, desc);
    KidsDeeper(ms, rank, x, sorted, fuel);
    if Walk(ms, sorted, iso, desc, false, fuel - 1).Some? {
      JoinNode(ms, x, iso, desc, fuel, sorted);
    }
  }

  /** Each reply to `x` has a chain one longer than that of `x`, and the chain of `x` fits in the batch. */
  lemma KidsDeeper(ms: seq<Value>, rank: Value -> nat, x: Value, sorted: seq<Value>, fuel: nat)
    requires DistinctIds(ms) && Ranked(ms, rank) && x in ms
    requires |Anc(ms, rank, x)| + fuel > |ms|
    requires forall c | c in sorted :: c in ms && RepliesTo(ms, c, x)
    ensures fuel > 0
    ensures forall c | c in sorted :: c in ms && |Anc(ms, rank, c)| + (fuel - 1) > |ms|
  {
    FewerThanBatch(ms, Anc(ms, rank, x));
    forall c | c in sorted ensures c in ms && |Anc(ms, rank, c)| + (fuel - 1) > |ms| {
      AncOfReply(ms, rank, x, c);
    }
  }

  /** The sorted replies to `x`: replies of the batch, whose sort does not raise with the corrected key. */
  lemma KidsSorted(ms: seq<Value>, x: Value, iso: IsoClock, desc: bool) returns (sorted: seq<Value>)
    requires TelegramDated(ms, iso)
    ensures SortedReplies(ms, x, iso, desc, sorted)
    ensures forall c | c in sorted :: c in ms && RepliesTo(ms, c, x)
    ensures !Clashes(Replies(ms, IdSet(ms), IdOf(x)), iso, false)
  {
    var ids := IdSet(ms);
    var kids := Replies(ms, ids, IdOf(x));
    sorted := SortBy(kids, iso, desc);
    SortedKids(ms, x, iso, desc);
    forall c | c in kids ensures c in ms {
      RepliesAreReplies(ms, ids, IdOf(x), c);
    }
    NoClashWithin(ms, kids, iso);
  }

  /** A message whose replies sort without raising and traverse is traversed. */
  lemma JoinNode(ms: seq<Value>, x: Value, iso: IsoClock, desc: bool, fuel: nat, sorted: seq<Value>)
    requires fuel > 0 && SortedReplies(ms, x, iso, desc, sorted)
    requires !Clashes(Replies(ms, IdSet(ms), IdOf(x)), iso, false)
    requires Walk(ms, sorted, iso, desc, false, fuel - 1).Some?
    ensures Visit(ms, x, iso, desc, false, fuel).Some?
  {
  }

  /** The traversals of a group succeed when each of its messages' traversals does. */
  lemma {:induction false} WalkSucceeds(ms: seq<Value>, rank: Value -> nat, g: seq<Value>, iso: IsoClock, desc: bool, fuel: nat)
    requires DistinctIds(ms) && Ranked(ms, rank) && TelegramDated(ms, iso)
    requires forall c | c in g :: c in ms && |Anc(ms, rank, c)| + fuel > |ms|
    ensures Walk(ms, g, iso, desc, false, fuel).Some?
    decreases fuel, 1, |g|
  {
    if g != [] {
      var n := |g| - 1;
      assert forall c | c in g[..n] :: c in g;
      WalkSucceeds(ms, rank, g[..n], iso, desc, fuel);
      assert g[n] in g;
      VisitSucceeds(ms, rank, g[n], iso, desc, fuel);
    }
  }

  /**
   * With the corrected date key, a batch whose reply targets can be read,
   * whose ids are distinct, whose reply links have no cycle and whose
   * messages have Telegram dates or none always gets its reply-tree order,
   * and that order is a permutation of the batch.
   */
  lemma PrepareSucceeds(ms: seq<Value>, order: string, iso: IsoClock, rank: Value -> nat)
    requires TargetsReadable(ms) && DistinctIds(ms) && Ranked(ms, rank) && TelegramDated(ms, iso)
    ensures Prepare(ms, order, iso, false).Some?
    ensures multiset(Prepare(ms, order, iso, false).value) == multiset(ms)
  {
    var ids := IdSet(ms);
    var desc := order == "desc";
    var roots := Roots(ms, ids);
    var sorted := SortBy(roots, iso, desc);
    SortedRoots(ms, iso, desc);
    forall c | c in roots ensures c in ms {
      RootsAreNonReplies(ms, ids, c);
    }
    NoClashWithin(ms, roots, iso);
    forall c | c in sorted ensures c in ms && |Anc(ms, rank, c)| + (|ms| + 1) > |ms| {
    }
    WalkSucceeds(ms, rank, sorted, iso, desc, |ms| + 1);
    assert Prepare(ms, order, iso, false) == TraverseAll(ms, ids, sorted, iso, desc, false, |ms| + 1);
    PreparePermutes(ms, order, iso, false, rank);
  }
}
