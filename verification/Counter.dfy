/** `incrWithTtl` as a fixed-window counter: what a rate limiter built on it lets through. */
module Counter {
  import opened Wrappers
  import Json
  import opened Redis
  import opened Sums

  /** The answers to calls at the given times, on one key that nothing else touches. */
  function Answers(store: Store, key: string, ttl: int, times: seq<int>): (answers: seq<int>)
    ensures |answers| == |times|
  {
    AnswersFrom(store, key, ttl, times, 0)
  }

  function AnswersFrom(store: Store, key: string, ttl: int, times: seq<int>, from: nat): (answers: seq<int>)
    requires from <= |times|
    ensures |answers| == |times| - from
    decreases |times| - from
  {
    if from == |times| then []
    else
      var (after, n) := Counted(store, times[from], key, ttl);
      [n] + AnswersFrom(after, key, ttl, times, from + 1)
  }

  predicate Ascending(times: seq<int>) {
    forall i, j | 0 <= i < j < |times| :: times[i] <= times[j]
  }

  /** The call that opened the window call `i` falls in: the first call opens one, and so does each call at or
      after the deadline of the window before. */
  function Opener(ttl: int, times: seq<int>, i: nat): (o: nat)
    requires i < |times|
    ensures o <= i
  {
    if i == 0 then 0
    else if times[i] < times[Opener(ttl, times, i - 1)] + ttl then Opener(ttl, times, i - 1)
    else i
  }

  function Position(ttl: int, times: seq<int>, i: nat): nat
    requires i < |times|
  {
    i - Opener(ttl, times, i) + 1
  }

  // -------------------------------------------------------------------------------------------
  // Answers are positions.

  /** The store after the call that has position `n` in a window with this deadline. */
  predicate Holds(store: Store, key: string, n: nat, deadline: int) {
    key in store && store[key] == Entry(Json.IntText(n), Some(deadline))
  }

  /** The store after call `i`. */
  predicate HoldsCall(store: Store, key: string, ttl: int, times: seq<int>, i: nat)
    requires i < |times|
  {
    Holds(store, key, Position(ttl, times, i), times[Opener(ttl, times, i)] + ttl)
  }

  lemma CountedOpens(store: Store, now: int, key: string, ttl: int)
    requires ttl > 0 && !Live(store, now, key)
    ensures Counted(store, now, key, ttl).1 == 1
    ensures Holds(Counted(store, now, key, ttl).0, key, 1, now + ttl)
  {
  }

  lemma CountedAdvances(store: Store, now: int, key: string, ttl: int, n: nat, deadline: int)
    requires Holds(store, key, n, deadline) && now < deadline
    ensures Counted(store, now, key, ttl).1 == n + 1
    ensures Holds(Counted(store, now, key, ttl).0, key, n + 1, deadline)
  {
    CountTextReads(n);
  }

  function Positions(ttl: int, times: seq<int>, from: nat): (ps: seq<int>)
    requires from <= |times|
    ensures |ps| == |times| - from
    ensures forall i | 0 <= i < |ps| :: ps[i] == Position(ttl, times, from + i)
    decreases |times| - from
  {
    if from == |times| then [] else [Position(ttl, times, from)] + Positions(ttl, times, from + 1)
  }

  lemma PositionsStep(ttl: int, times: seq<int>, from: nat)
    requires from < |times|
    ensures Positions(ttl, times, from) == [Position(ttl, times, from)] + Positions(ttl, times, from + 1)
  {
  }

  /** The first call opens the first window. */
  lemma FirstAnswer(store: Store, key: string, ttl: int, times: seq<int>) returns (after: Store)
    requires ttl > 0 && times != [] && !Live(store, times[0], key)
    ensures Counted(store, times[0], key, ttl) == (after, Position(ttl, times, 0))
    ensures HoldsCall(after, key, ttl, times, 0)
  {
    after := Counted(store, times[0], key, ttl).0;
    CountedOpens(store, times[0], key, ttl);
    assert Opener(ttl, times, 0) == 0;
  }

  /** Every call's answer is its position in its window. */
  lemma AnswersArePositions(store: Store, key: string, ttl: int, times: seq<int>)
    requires ttl > 0 && times != [] && !Live(store, times[0], key)
    ensures Answers(store, key, ttl, times) == Positions(ttl, times, 0)
  {
    var after := FirstAnswer(store, key, ttl, times);
    AnswersStep(store, key, ttl, times, 0, after, Position(ttl, times, 0));
    LaterAnswers(after, key, ttl, times, 0);
    PositionsStep(ttl, times, 0);
  }

  /** Whether call `i + 1` falls in the window of call `i`, or opens its own. */
  lemma NextPosition(ttl: int, times: seq<int>, i: nat)
    requires ttl > 0 && i + 1 < |times|
    ensures var o := Opener(ttl, times, i);
            if times[i + 1] < times[o] + ttl
            then Opener(ttl, times, i + 1) == o && Position(ttl, times, i + 1) == Position(ttl, times, i) + 1
            else Opener(ttl, times, i + 1) == i + 1 && Position(ttl, times, i + 1) == 1
  {
  }

  /** A call at time `now` is answered `n`, in a window with this deadline. */
  predicate CountsTo(store: Store, now: int, key: string, ttl: int, n: nat, deadline: int) {
    Counted(store, now, key, ttl).1 == n && Holds(Counted(store, now, key, ttl).0, key, n, deadline)
  }

  lemma CountsNext(store: Store, now: int, key: string, ttl: int, n: nat, deadline: int)
    requires ttl > 0 && Holds(store, key, n, deadline)
    ensures if now < deadline then CountsTo(store, now, key, ttl, n + 1, deadline)
            else CountsTo(store, now, key, ttl, 1, now + ttl)
  {
    if now < deadline {
      CountedAdvances(store, now, key, ttl, n, deadline);
    } else {
      CountedOpens(store, now, key, ttl);
    }
  }

  lemma NextAnswer(store: Store, key: string, ttl: int, times: seq<int>, i: nat)
    requires ttl > 0 && i + 1 < |times|
    requires HoldsCall(store, key, ttl, times, i)
    ensures CountsTo(store, times[i + 1], key, ttl, Position(ttl, times, i + 1), times[Opener(ttl, times, i + 1)] + ttl)
  {
    CountsNext(store, times[i + 1], key, ttl, Position(ttl, times, i), times[Opener(ttl, times, i)] + ttl);
    NextPosition(ttl, times, i);
  }

  lemma AnswersStep(store: Store, key: string, ttl: int, times: seq<int>, from: nat, after: Store, n: int)
    requires from < |times| && Counted(store, times[from], key, ttl) == (after, n)
    ensures AnswersFrom(store, key, ttl, times, from) == [n] + AnswersFrom(after, key, ttl, times, from + 1)
  {
  }

  /** The answers after call `i`. */
  lemma {:induction false} LaterAnswers(store: Store, key: string, ttl: int, times: seq<int>, i: nat)
    requires ttl > 0 && i < |times|
    requires HoldsCall(store, key, ttl, times, i)
    ensures AnswersFrom(store, key, ttl, times, i + 1) == Positions(ttl, times, i + 1)
    decreases |times| - i
  {
    if i + 1 < |times| {
      NextAnswer(store, key, ttl, times, i);
      var after := Counted(store, times[i + 1], key, ttl).0;
      AnswersStep(store, key, ttl, times, i + 1, after, Position(ttl, times, i + 1));
      LaterAnswers(after, key, ttl, times, i + 1);
      PositionsStep(ttl, times, i + 1);
    }
  }

  // -------------------------------------------------------------------------------------------
  // How many calls get a low answer.

  /** The calls from `lo` up to `hi` that are answered at most `limit`. */
  function Low(ttl: int, times: seq<int>, lo: nat, hi: nat, limit: nat): set<nat>
    requires hi <= |times|
  {
    set i: nat | lo <= i < hi && Position(ttl, times, i) <= limit
  }

  function Range(lo: nat, hi: nat): (r: set<nat>)
    ensures forall i: nat :: i in r <==> lo <= i < hi
    ensures |r| == if lo <= hi then hi - lo else 0
    decreases hi
  {
    if lo < hi then Range(lo, hi - 1) + {hi - 1} else {}
  }

  /** From an opener `m` on, calls before its deadline share its window. */
  lemma {:induction false} SameWindow(ttl: int, times: seq<int>, m: nat, i: nat)
    requires m <= i < |times| && Ascending(times) && times[i] < times[Opener(ttl, times, m)] + ttl
    ensures Opener(ttl, times, i) == Opener(ttl, times, m)
    decreases i
  {
    if m < i {
      SameWindow(ttl, times, m, i - 1);
    }
  }

  /** The first call from `lo` on that opens a window after the one `lo` falls in, or `hi`. */
  lemma {:induction false} NextOpener(ttl: int, times: seq<int>, lo: nat, hi: nat) returns (m: nat)
    requires lo < hi <= |times|
    ensures lo < m <= hi
    ensures forall i | lo <= i < m :: Opener(ttl, times, i) == Opener(ttl, times, lo)
    ensures m < hi ==> Opener(ttl, times, m) == m
    decreases hi
  {
    if lo + 1 == hi {
      m := hi;
    } else {
      m := NextOpener(ttl, times, lo, hi - 1);
      if m == hi - 1 && Opener(ttl, times, m) == Opener(ttl, times, lo) {
        m := hi;
      } else if m == hi - 1 {
        assert Opener(ttl, times, m - 1) == Opener(ttl, times, lo);
      }
    }
  }

  /** Calls that lie within one TTL of each other: fewer than twice the limit get an answer within it. */
  lemma FewLowAnswers(ttl: int, times: seq<int>, lo: nat, hi: nat, limit: nat)
    requires ttl > 0 && Ascending(times) && lo < hi <= |times| && times[hi - 1] < times[lo] + ttl
    ensures |Low(ttl, times, lo, hi, limit)| <= if limit == 0 then 0 else 2 * limit - 1
  {
    var low, o := Low(ttl, times, lo, hi, limit), Opener(ttl, times, lo);
    var m := NextOpener(ttl, times, lo, hi);
    if m == hi {
      forall i | i in low ensures i in Range(o, o + limit) {}
      SubsetSize(low, Range(o, o + limit));
    } else {
      assert o != lo;
      forall i | i in low ensures i in Range(o + 1, o + limit) + Range(m, m + limit) {
        if m <= i { SameWindow(ttl, times, m, i); }
      }
      assert |Range(o + 1, o + limit) + Range(m, m + limit)| <= |Range(o + 1, o + limit)| + |Range(m, m + limit)|;
      SubsetSize(low, Range(o + 1, o + limit) + Range(m, m + limit));
    }
  }

  /** The same of the answers themselves, from any store in which the key is not live. */
  lemma LimiterBound(store: Store, key: string, ttl: int, times: seq<int>, lo: nat, hi: nat, limit: nat)
    requires ttl > 0 && Ascending(times) && lo < hi <= |times| && times[hi - 1] < times[lo] + ttl
    requires !Live(store, times[0], key)
    ensures |set i: nat | lo <= i < hi && Answers(store, key, ttl, times)[i] <= limit|
         <= if limit == 0 then 0 else 2 * limit - 1
  {
    AnswersArePositions(store, key, ttl, times);
    FewLowAnswers(ttl, times, lo, hi, limit);
    assert (set i: nat | lo <= i < hi && Answers(store, key, ttl, times)[i] <= limit) == Low(ttl, times, lo, hi, limit);
  }

  /** The bound is reached: one call opens a window, the rest of the limit comes at its last moment, and a full
      limit at the first moment of the next. */
  function Burst(ttl: int, limit: nat): seq<int>
    requires limit > 0
  {
    [0] + seq(limit - 1, _ => ttl - 1) + seq(limit, _ => ttl)
  }

  lemma BurstPositions(ttl: int, times: seq<int>, limit: nat, i: nat)
    requires ttl > 1 && 1 <= i < 2 * limit == |times| && Ascending(times) && times[0] == 0
    requires forall j | 1 <= j < limit :: times[j] == ttl - 1
    requires forall j | limit <= j < 2 * limit :: times[j] == ttl
    ensures Position(ttl, times, i) <= limit
  {
    if i < limit {
      SameWindow(ttl, times, 0, i);
    } else {
      SameWindow(ttl, times, 0, limit - 1);
      assert Opener(ttl, times, limit) == limit;
      SameWindow(ttl, times, limit, i);
    }
  }

  lemma BurstReachesBound(ttl: int, limit: nat)
    requires ttl > 1 && limit > 0
    ensures var times := Burst(ttl, limit);
            && Ascending(times) && |times| == 2 * limit && times[2 * limit - 1] < times[1] + ttl
            && |Low(ttl, times, 1, 2 * limit, limit)| == 2 * limit - 1
  {
    var times := Burst(ttl, limit);
    assert |times| == 2 * limit && times[0] == 0;
    assert forall j | 1 <= j < limit :: times[j] == ttl - 1;
    assert forall j | limit <= j < 2 * limit :: times[j] == ttl;
    assert Ascending(times);
    forall i: nat | 1 <= i < 2 * limit ensures Position(ttl, times, i) <= limit {
      BurstPositions(ttl, times, limit, i);
    }
    assert Low(ttl, times, 1, 2 * limit, limit) == Range(1, 2 * limit);
  }
}
