/** The limiter against a plain log of hits. */
module RateLimitTheorems {
  import opened Wrappers
  import opened Text
  import opened RateLimit

  // ---------------------------------------------------------------- runs

  function StoreAfter(run: seq<Hit>): Store {
    if run == [] then map[] else Enforced(StoreAfter(run[..|run| - 1]), run[|run| - 1]).1
  }

  function VerdictAt(run: seq<Hit>, i: nat): Verdict
    requires i < |run|
  {
    Enforced(StoreAfter(run[..i]), run[i]).0
  }

  predicate Counted(h: Hit, key: string) {
    h.key == key && h.fate != Lost(false)
  }

  /** The log: the times of the hits on `key` that reached the script. */
  function Log(run: seq<Hit>, key: string): (times: seq<int>)
    ensures |times| <= |run|
  {
    if run == [] then []
    else
      var before := Log(run[..|run| - 1], key);
      if Counted(run[|run| - 1], key) then before + [run[|run| - 1].now] else before
  }

  /** The index of the hit that opened the window hit i falls in: a window opens at the
      first hit, and at each hit later than the end of the window before. */
  function Opener(times: seq<int>, window: int, i: nat): (s: nat)
    requires i < |times|
    ensures s <= i
  {
    if i == 0 then 0
    else
      var s := Opener(times, window, i - 1);
      if times[i] > times[s] + window then i else s
  }

  /** All hits on the key share one limit and one window of at least a second. */
  ghost predicate Uniform(run: seq<Hit>, key: string, limit: int, seconds: int) {
    seconds >= 1 && forall i | 0 <= i < |run| && run[i].key == key ::
      run[i].limit == limit && run[i].windowSeconds == seconds
  }

  lemma {:induction false} OpenerOfPrefix(times: seq<int>, more: seq<int>, window: int, i: nat)
    requires i < |times|
    ensures Opener(times + more, window, i) == Opener(times, window, i)
  {
    if i > 0 {
      OpenerOfPrefix(times, more, window, i - 1);
    }
  }

  function WindowEntry(times: seq<int>, window: int): Entry
    requires times != []
  {
    var s := Opener(times, window, |times| - 1);
    Entry(|times| - s, Some(times[s] + window))
  }

  /** The stored counter is the number of logged hits in the current window, and its expiry
      the end of that window. */
  lemma {:induction false} StoreIsLog(run: seq<Hit>, key: string, limit: int, seconds: int)
    requires Uniform(run, key, limit, seconds)
    ensures var store := StoreAfter(run);
            var times := Log(run, key);
            && (KEY_PREFIX + key in store <==> times != [])
            && (times != [] ==> store[KEY_PREFIX + key] == WindowEntry(times, seconds * 1000))
  {
    if run != [] {
      var n := |run| - 1;
      var prefix, h := run[..n], run[n];
      StoreIsLog(prefix, key, limit, seconds);
      HitStep(StoreAfter(prefix), Log(prefix, key), key, h, limit, seconds);
    }
  }

  lemma HitStep(store: Store, times: seq<int>, key: string, h: Hit, limit: int, seconds: int)
    requires seconds >= 1 && (h.key == key ==> h.limit == limit && h.windowSeconds == seconds)
    requires KEY_PREFIX + key in store <==> times != []
    requires times != [] ==> store[KEY_PREFIX + key] == WindowEntry(times, seconds * 1000)
    ensures var after := Enforced(store, h).1;
            var times' := if Counted(h, key) then times + [h.now] else times;
            && (KEY_PREFIX + key in after <==> times' != [])
            && (times' != [] ==> after[KEY_PREFIX + key] == WindowEntry(times', seconds * 1000))
    ensures h.key == key && h.fate.Up? ==>
              var times' := times + [h.now];
              Enforced(store, h).0.Admitted? <==> |times| - Opener(times', seconds * 1000, |times|) < limit
  {
    if h.key == key {
      var window := seconds * 1000;
      var times' := times + [h.now];
      if times != [] {
        OpenerOfPrefix(times, [h.now], window, |times| - 1);
      }
    } else {
      assert KEY_PREFIX + h.key != KEY_PREFIX + key by {
        assert (KEY_PREFIX + h.key)[|KEY_PREFIX|..] == h.key;
        assert (KEY_PREFIX + key)[|KEY_PREFIX|..] == key;
      }
    }
  }

  /** Refinement: a hit is admitted exactly if it is one of the first `limit` logged hits of
      its window. A lost call is always admitted. */
  lemma VerdictIsLog(run: seq<Hit>, key: string, limit: int, seconds: int, i: nat)
    requires Uniform(run, key, limit, seconds) && i < |run| && run[i].key == key
    ensures var times := Log(run[..i], key) + [run[i].now];
            VerdictAt(run, i).Admitted? <==>
            run[i].fate.Lost? || |times| - 1 - Opener(times, seconds * 1000, |times| - 1) < limit
  {
    StoreIsLog(run[..i], key, limit, seconds);
    HitStep(StoreAfter(run[..i]), Log(run[..i], key), key, run[i], limit, seconds);
  }

  // ---------------------------------------------------------------- intervals

  ghost predicate Sorted(times: seq<int>) {
    forall i, j | 0 <= i <= j < |times| :: times[i] <= times[j]
  }

  lemma {:induction false} OpenerMonotone(times: seq<int>, window: int, i: nat, j: nat)
    requires i <= j < |times|
    ensures Opener(times, window, i) <= Opener(times, window, j)
  {
    if i < j {
      OpenerMonotone(times, window, i, j - 1);
    }
  }

  lemma {:induction false} OpenerOpens(times: seq<int>, window: int, i: nat)
    requires i < |times| && window >= 0
    ensures var s := Opener(times, window, i);
            && times[i] <= times[s] + window
            && Opener(times, window, s) == s
            && (s > 0 ==> times[s] > times[Opener(times, window, s - 1)] + window)
  {
    if i > 0 {
      OpenerOpens(times, window, i - 1);
    }
  }

  /** Two windows: the later one opens more than a window's length after any hit that came
      before the earlier one's end. */
  lemma LaterWindow(times: seq<int>, window: int, i: nat, j: nat)
    requires Sorted(times) && window >= 0 && i < |times| && j < |times|
    requires Opener(times, window, i) < Opener(times, window, j)
    ensures i < Opener(times, window, j)
    ensures times[Opener(times, window, j)] > times[Opener(times, window, i)] + window
  {
    var s, u := Opener(times, window, i), Opener(times, window, j);
    OpenerOpens(times, window, j);
    if u <= i {
      OpenerMonotone(times, window, u, i);
    }
    OpenerMonotone(times, window, i, u - 1);
  }

  function Range(from: nat, n: nat): (r: set<nat>)
    ensures forall x: nat :: x in r <==> from <= x < from + n
    ensures |r| == n
  {
    if n == 0 then {} else Range(from, n - 1) + {from + n - 1}
  }

  /** The log indices of hits inside a closed interval of a window's length that are among
      the first `limit` of their window: at most two windows' worth. */
  lemma IntervalCovered(times: seq<int>, window: int, limit: nat, from: int, a: nat)
    returns (cover: set<nat>)
    requires Sorted(times) && window >= 0
    requires a < |times| && from <= times[a]
    requires forall i: nat | i < |times| && from <= times[i] :: a <= i
    ensures |cover| <= 2 * limit
    ensures forall i: nat | i < |times| && from <= times[i] <= from + window
              && i - Opener(times, window, i) < limit :: i in cover
  {
    var s := Opener(times, window, a);
    if b: nat :| b < |times| && times[b] <= from + window && Opener(times, window, b) > s {
      var m := Opener(times, window, b);
      LaterWindow(times, window, a, b);
      forall i: nat | i < |times| && from <= times[i] <= from + window
        ensures Opener(times, window, i) == s || Opener(times, window, i) == m
      {
        OpenerMonotone(times, window, a, i);
        if s < Opener(times, window, i) {
          LaterWindow(times, window, a, i);
          if Opener(times, window, i) < m {
            LaterWindow(times, window, i, b);
          } else if m < Opener(times, window, i) {
            LaterWindow(times, window, b, i);
          }
        }
      }
      cover := Range(s, limit) + Range(m, limit);
    } else {
      forall i: nat | i < |times| && from <= times[i] <= from + window
        ensures Opener(times, window, i) == s
      {
        OpenerMonotone(times, window, a, i);
      }
      cover := Range(s, limit);
    }
  }

  lemma {:induction false} InjectionBound<T>(s: set<T>, f: T -> nat, cover: set<nat>)
    requires forall i | i in s :: f(i) in cover
    requires forall i, j | i in s && j in s && i != j :: f(i) != f(j)
    ensures |s| <= |cover|
  {
    if s != {} {
      var i :| i in s;
      InjectionBound(s - {i}, f, cover - {f(i)});
    }
  }

  /** The position a run index has in the log. */
  function LogIndex(run: seq<Hit>, key: string, i: nat): nat {
    if i <= |run| then |Log(run[..i], key)| else 0
  }

  lemma {:induction false} LogGrows(run: seq<Hit>, key: string, i: nat, j: nat)
    requires i < j <= |run| && Counted(run[i], key)
    ensures LogIndex(run, key, i) < LogIndex(run, key, j)
    ensures Log(run[..i], key) + [run[i].now] <= Log(run[..j], key)
    decreases j
  {
    assert run[..j][..j - 1] == run[..j - 1];
    if i < j - 1 {
      LogGrows(run, key, i, j - 1);
    }
  }

  /** The clock never runs backwards. */
  ghost predicate Clocked(run: seq<Hit>) {
    forall i, j | 0 <= i <= j < |run| :: run[i].now <= run[j].now
  }

  lemma {:induction false} LogFromRun(run: seq<Hit>, key: string, n: nat)
    requires n <= |run| && Clocked(run)
    ensures Sorted(Log(run[..n], key))
    ensures forall k | 0 <= k < |Log(run[..n], key)| :: n > 0 && Log(run[..n], key)[k] <= run[n - 1].now
  {
    if n > 0 {
      LogFromRun(run, key, n - 1);
      assert run[..n][..n - 1] == run[..n - 1];
    }
  }

  /** The admitted hits on a key in a closed interval, by run index. */
  ghost function AdmittedIn(run: seq<Hit>, key: string, from: int, to: int): set<nat> {
    set i: nat | i < |run| && run[i].key == key && from <= run[i].now <= to && VerdictAt(run, i).Admitted?
  }

  ghost function LostIn(run: seq<Hit>, key: string, from: int, to: int): set<nat> {
    set i: nat | i < |run| && run[i].key == key && from <= run[i].now <= to && run[i].fate.Lost?
  }

  /** The place of an admitted hit in the whole log. */
  lemma AdmittedInLog(run: seq<Hit>, key: string, limit: int, seconds: int, i: nat)
    requires Uniform(run, key, limit, seconds) && i < |run| && run[i].key == key && run[i].fate.Up?
    requires VerdictAt(run, i).Admitted?
    ensures var times := Log(run, key);
            var k := LogIndex(run, key, i);
            k < |times| && times[k] == run[i].now && k - Opener(times, seconds * 1000, k) < limit
  {
    VerdictIsLog(run, key, limit, seconds, i);
    LogGrows(run, key, i, |run|);
    assert run[..|run|] == run;
    var times := Log(run, key);
    var k := LogIndex(run, key, i);
    var head := Log(run[..i], key) + [run[i].now];
    assert times == head + times[|head|..];
    OpenerOfPrefix(head, times[|head|..], seconds * 1000, k);
  }

  /** The admitted hits that Redis answered, in an interval. */
  ghost function AnsweredIn(run: seq<Hit>, key: string, from: int, to: int): set<nat> {
    AdmittedIn(run, key, from, to) - LostIn(run, key, from, to)
  }

  lemma AnsweredCovered(run: seq<Hit>, key: string, limit: nat, seconds: int, from: int) returns (cover: set<nat>)
    requires Uniform(run, key, limit, seconds) && Clocked(run)
    ensures |cover| <= 2 * limit
    ensures forall i | i in AnsweredIn(run, key, from, from + seconds * 1000) :: LogIndex(run, key, i) in cover
  {
    var answered := AnsweredIn(run, key, from, from + seconds * 1000);
    var times := Log(run, key);
    cover := {};
    if some :| some in answered {
      AdmittedInLog(run, key, limit, seconds, some);
      assert run[..|run|] == run;
      LogFromRun(run, key, |run|);
      var a := FirstFrom(times, from, LogIndex(run, key, some));
      cover := IntervalCovered(times, seconds * 1000, limit, from, a);
      forall i | i in answered
        ensures LogIndex(run, key, i) in cover
      {
        AdmittedInLog(run, key, limit, seconds, i);
      }
    }
  }

  lemma LogIndexInjective(run: seq<Hit>, key: string, i: nat, j: nat)
    requires i < |run| && j < |run| && i != j && Counted(run[i], key) && Counted(run[j], key)
    ensures LogIndex(run, key, i) != LogIndex(run, key, j)
  {
    if i < j {
      LogGrows(run, key, i, j);
    } else {
      LogGrows(run, key, j, i);
    }
  }

  /** A set of counted hits whose log places lie in `cover` is no larger than it. */
  lemma PlacesBound(run: seq<Hit>, key: string, hits: set<nat>, cover: set<nat>)
    requires forall i | i in hits :: i < |run| && Counted(run[i], key) && LogIndex(run, key, i) in cover
    ensures |hits| <= |cover|
  {
    forall i, j | i in hits && j in hits && i != j
      ensures LogIndex(run, key, i) != LogIndex(run, key, j)
    {
      LogIndexInjective(run, key, i, j);
    }
    InjectionBound(hits, i => LogIndex(run, key, i), cover);
  }

  /** Each window admits at most `limit` of the hits Redis answered. */
  lemma WindowBound(run: seq<Hit>, key: string, limit: nat, seconds: int, opener: nat, hits: set<nat>)
    requires Uniform(run, key, limit, seconds)
    requires forall i | i in hits ::
               && i < |run| && run[i].key == key && run[i].fate.Up? && VerdictAt(run, i).Admitted?
               && LogIndex(run, key, i) < |Log(run, key)|
               && Opener(Log(run, key), seconds * 1000, LogIndex(run, key, i)) == opener
    ensures |hits| <= limit
  {
    forall i | i in hits
      ensures LogIndex(run, key, i) in Range(opener, limit)
    {
      AdmittedInLog(run, key, limit, seconds, i);
    }
    PlacesBound(run, key, hits, Range(opener, limit));
  }

  lemma AnsweredBound(run: seq<Hit>, key: string, limit: nat, seconds: int, from: int)
    requires Uniform(run, key, limit, seconds) && Clocked(run)
    ensures |AnsweredIn(run, key, from, from + seconds * 1000)| <= 2 * limit
  {
    var cover := AnsweredCovered(run, key, limit, seconds, from);
    PlacesBound(run, key, AnsweredIn(run, key, from, from + seconds * 1000), cover);
  }

  lemma DifferenceBound(a: set<nat>, b: set<nat>)
    ensures |a| <= |a - b| + |b|
  {
    assert a == (a - b) + (a * b);
    assert b == (b - a) + (a * b);
  }

  /** Any time interval of the window's length, however placed, contains at most twice the
      limit of admitted hits on a key, plus one for each call Redis lost. */
  lemma IntervalBound(run: seq<Hit>, key: string, limit: nat, seconds: int, from: int)
    requires Uniform(run, key, limit, seconds) && Clocked(run)
    ensures |AdmittedIn(run, key, from, from + seconds * 1000)|
            <= 2 * limit + |LostIn(run, key, from, from + seconds * 1000)|
  {
    var to := from + seconds * 1000;
    AnsweredBound(run, key, limit, seconds, from);
    DifferenceBound(AdmittedIn(run, key, from, to), LostIn(run, key, from, to));
  }

  lemma {:induction false} FirstFrom(times: seq<int>, from: int, k: nat) returns (a: nat)
    requires Sorted(times) && k < |times| && from <= times[k]
    ensures a <= k && from <= times[a]
    ensures forall i: nat | i < |times| && from <= times[i] :: a <= i
    decreases k
  {
    if k > 0 && from <= times[k - 1] {
      a := FirstFrom(times, from, k - 1);
    } else {
      a := k;
    }
  }

  // ---------------------------------------------------------------- time to live

  ghost predicate AllTimed(store: Store) {
    forall key | key in store :: store[key].expireAt.Some?
  }

  /** From an empty store no key is ever left without a time to live. */
  lemma {:induction false} KeysAlwaysTimed(run: seq<Hit>)
    ensures AllTimed(StoreAfter(run))
  {
    if run != [] {
      KeysAlwaysTimed(run[..|run| - 1]);
    }
  }

  /** Over the limit, even a key found without a time to live gets one back: Retry-After
      lies between 1 and the window, the key ends within that time, and a later hit on the
      key alone is admitted exactly if it comes after the end. */
  lemma RejectionEnds(store: Store, h: Hit, again: Hit)
    requires h.windowSeconds >= 1 && h.fate.Up? && Enforced(store, h).0.TooMany?
    requires forall e | KEY_PREFIX + h.key in store && store[KEY_PREFIX + h.key].expireAt == Some(e) ::
               e <= h.now + h.windowSeconds * 1000
    requires again.key == h.key && again.limit == h.limit >= 1 && again.fate.Up? && again.now >= h.now
    ensures var (verdict, after) := Enforced(store, h);
            && 1 <= verdict.retryAfter <= h.windowSeconds
            && KEY_PREFIX + h.key in after && after[KEY_PREFIX + h.key].expireAt.Some?
            && var end := after[KEY_PREFIX + h.key].expireAt.value;
               && h.now <= end <= h.now + verdict.retryAfter * 1000
               && (Enforced(after, again).0.Admitted? <==> again.now > end)
  {
  }

  /** The end of the window that a hit at `now` after the logged times falls in. */
  function WindowEnd(times: seq<int>, now: int, window: int): int {
    var all := times + [now];
    all[Opener(all, window, |times|)] + window
  }

  lemma OneLogged(run: seq<Hit>, key: string, i: nat)
    requires i < |run| && Counted(run[i], key)
    ensures Log(run[..i + 1], key) == Log(run[..i], key) + [run[i].now]
  {
    assert run[..i + 1][..i] == run[..i];
  }

  /** Hits that never reached the script, and hits on other keys, leave the log alone. */
  lemma {:induction false} LogUnchanged(run: seq<Hit>, key: string, i: nat, j: nat)
    requires i <= j <= |run| && forall k | i <= k < j :: !Counted(run[k], key)
    ensures Log(run[..j], key) == Log(run[..i], key)
    decreases j - i
  {
    if i < j {
      assert run[..j][..j - 1] == run[..j - 1];
      LogUnchanged(run, key, i, j - 1);
    }
  }

  /** A hit past the limit falls in the window of the hits before it. */
  lemma RejectedWindow(times: seq<int>, now: int, window: int, limit: int)
    requires window >= 0 && limit >= 1
    requires |times| - Opener(times + [now], window, |times|) >= limit
    ensures times != [] && Opener(times + [now], window, |times|) == Opener(times, window, |times| - 1)
    ensures now <= WindowEnd(times, now, window) == times[Opener(times, window, |times| - 1)] + window
  {
    OpenerOpens(times + [now], window, |times|);
    OpenerOfPrefix(times, [now], window, |times| - 1);
  }

  lemma StoreRejects(store: Store, h: Hit, end: int)
    requires KEY_PREFIX + h.key in store && store[KEY_PREFIX + h.key].count >= 1
    requires store[KEY_PREFIX + h.key].expireAt == Some(end)
    requires h.now <= end && h.fate.Up? && Enforced(store, h).0.TooMany?
    ensures Enforced(store, h).0 == TooMany(RetryAfter(end - h.now))
  {
  }

  lemma WaitBounds(left: int, seconds: int)
    requires 0 <= left <= seconds * 1000 && seconds >= 1
    ensures 1 <= RetryAfter(left) <= seconds && left <= RetryAfter(left) * 1000
  {
  }

  lemma OpenerTime(run: seq<Hit>, key: string, i: nat, window: int)
    requires i < |run| && Clocked(run) && Log(run[..i], key) != []
    ensures var times := Log(run[..i], key);
            times[Opener(times, window, |times| - 1)] <= run[i].now
  {
    LogFromRun(run, key, i);
    assert run[i - 1].now <= run[i].now;
  }

  lemma TtlOfRejection(run: seq<Hit>, key: string, limit: int, seconds: int, i: nat)
    requires Uniform(run, key, limit, seconds) && Clocked(run) && limit >= 1
    requires i < |run| && run[i].key == key && VerdictAt(run, i).TooMany?
    ensures var end := WindowEnd(Log(run[..i], key), run[i].now, seconds * 1000);
            && run[i].fate.Up?
            && VerdictAt(run, i) == TooMany(RetryAfter(end - run[i].now))
            && run[i].now <= end <= run[i].now + seconds * 1000
  {
    var times, h := Log(run[..i], key), run[i];
    VerdictIsLog(run, key, limit, seconds, i);
    RejectedWindow(times, h.now, seconds * 1000, limit);
    StoreIsLog(run[..i], key, limit, seconds);
    OpenerTime(run, key, i, seconds * 1000);
    StoreRejects(StoreAfter(run[..i]), h, WindowEnd(times, h.now, seconds * 1000));
  }

  /** After a rejection at `now`, a hit is in an early place exactly if it opens a window. */
  lemma NextPlace(times: seq<int>, now: int, later: int, window: int, limit: int)
    requires limit >= 1 && |times| - Opener(times + [now], window, |times|) >= limit
    ensures var all := times + [now];
            |all| - Opener(all + [later], window, |all|) < limit <==> later > WindowEnd(times, now, window)
  {
    OpenerOfPrefix(times + [now], [later], window, |times|);
  }

  lemma NextVerdict(run: seq<Hit>, key: string, limit: int, seconds: int, i: nat, j: nat)
    requires Uniform(run, key, limit, seconds) && limit >= 1
    requires i < j < |run| && run[i].key == key && run[j].key == key && run[j].fate.Up?
    requires VerdictAt(run, i).TooMany? && forall k | i < k < j :: !Counted(run[k], key)
    ensures VerdictAt(run, j).Admitted? <==> run[j].now > WindowEnd(Log(run[..i], key), run[i].now, seconds * 1000)
  {
    VerdictIsLog(run, key, limit, seconds, i);
    VerdictIsLog(run, key, limit, seconds, j);
    OneLogged(run, key, i);
    LogUnchanged(run, key, i + 1, j);
    NextPlace(Log(run[..i], key), run[i].now, run[j].now, seconds * 1000, limit);
  }

  /** Over any run from an empty store: a rejection's Retry-After lies between 1 and the
      window, and the next hit on the key, if Redis answers it, is admitted exactly if it
      comes after the end of the window, which lies within the wait. */
  lemma RetryAfterHolds(run: seq<Hit>, key: string, limit: int, seconds: int, i: nat, j: nat)
    requires Uniform(run, key, limit, seconds) && Clocked(run) && limit >= 1
    requires i < j < |run| && run[i].key == key && run[j].key == key && run[j].fate.Up?
    requires VerdictAt(run, i).TooMany? && forall k | i < k < j :: !Counted(run[k], key)
    ensures var end := WindowEnd(Log(run[..i], key), run[i].now, seconds * 1000);
            var wait := VerdictAt(run, i).retryAfter;
            && 1 <= wait <= seconds
            && run[i].now <= end <= run[i].now + wait * 1000
            && (VerdictAt(run, j).Admitted? <==> run[j].now > end)
  {
    TtlOfRejection(run, key, limit, seconds, i);
    WaitBounds(WindowEnd(Log(run[..i], key), run[i].now, seconds * 1000) - run[i].now, seconds);
    NextVerdict(run, key, limit, seconds, i, j);
  }
}
