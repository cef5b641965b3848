/**
 The fixed-window rate limiter of server/upm-server/src/ratelimit.rs.

 `Check` is one call on the bounded, sweeping table; `IdealCheck` is the same limiter
 with one window per key for ever. The clock is an input of every call.
 */
module RateLimiter {

  datatype Window = Window(start: nat, count: nat)

  type Key = string

  type Table = map<Key, Window>

  datatype Config = Config(limit: nat, windowSecs: nat, maxTrackedKeys: nat)

  /** `FailedOpen` is an allowed call that the limiter did not count. */
  datatype Verdict = Allowed | Blocked | FailedOpen

  const DEFAULT_MAX_TRACKED_KEYS: nat := 10_000
  const U32_LIMIT: nat := 0x1_0000_0000

  function SaturatingSub(a: nat, b: nat): nat {
    if a <= b then 0 else a - b
  }

  predicate Live(c: Config, w: Window, now: nat) {
    SaturatingSub(now, w.start) < c.windowSecs
  }

  /** `HashMap::retain` over the live windows. */
  function Sweep(c: Config, t: Table, now: nat): Table {
    map k | k in t && Live(c, t[k], now) :: t[k]
  }

  /** The window of one more hit: restarted if it ran out, and counted in 32 bits. */
  function Hit(c: Config, w: Window, now: nat): Window {
    var w' := if Live(c, w, now) then w else Window(now, 0);
    w'.(count := if w'.count + 1 == U32_LIMIT then 0 else w'.count + 1)
  }

  function Admit(c: Config, t: Table, key: Key, now: nat): (Table, Verdict) {
    var w := Hit(c, if key in t then t[key] else Window(now, 0), now);
    (t[key := w], if w.count <= c.limit then Allowed else Blocked)
  }

  function Check(c: Config, t: Table, key: Key, now: nat): (Table, Verdict) {
    if |t| >= c.maxTrackedKeys && key !in t then
      var swept := Sweep(c, t, now);
      if |swept| >= c.maxTrackedKeys then (swept, FailedOpen) else Admit(c, swept, key, now)
    else
      Admit(c, t, key, now)
  }

  /** The limiter that never forgets a window. */
  function IdealCheck(c: Config, t: Table, key: Key, now: nat): (Table, Verdict) {
    Admit(c, t, key, now)
  }

  class RateLimiter {
    const config: Config
    var state: Table

    constructor (limit: nat, windowSecs: nat)
      ensures config == Config(limit, windowSecs, DEFAULT_MAX_TRACKED_KEYS) && state == map[]
    {
      config := Config(limit, windowSecs, DEFAULT_MAX_TRACKED_KEYS);
      state := map[];
    }

    method CheckCall(key: Key, now: nat) returns (allowed: bool)
      modifies this
      ensures state == Check(config, old(state), key, now).0
      ensures allowed <==> Check(config, old(state), key, now).1 != Blocked
    {
      if |state| >= config.maxTrackedKeys && key !in state {
        state := map k | k in state && SaturatingSub(now, state[k].start) < config.windowSecs :: state[k];
        assert state == Sweep(config, old(state), now);
        if |state| >= config.maxTrackedKeys {
          return true;
        }
      }
      if key !in state {
        state := state[key := Window(now, 0)];
      }
      var entry := state[key];
      if SaturatingSub(now, entry.start) >= config.windowSecs {
        entry := Window(now, 0);
      }
      entry := entry.(count := if entry.count + 1 == U32_LIMIT then 0 else entry.count + 1);
      state := state[key := entry];
      allowed := entry.count <= config.limit;
    }
  }

  // ---- runs -----------------------------------------------------------------------

  datatype Call = Call(key: Key, now: nat)

  function Answers(c: Config, t: Table, calls: seq<Call>): seq<Verdict>
    decreases |calls|
  {
    if calls == [] then []
    else
      var (t', v) := Check(c, t, calls[0].key, calls[0].now);
      [v] + Answers(c, t', calls[1..])
  }

  function Final(c: Config, t: Table, calls: seq<Call>): Table
    decreases |calls|
  {
    if calls == [] then t else Final(c, Check(c, t, calls[0].key, calls[0].now).0, calls[1..])
  }

  /** The ideal limiter on the same calls; it does not see those that failed open. */
  function IdealAnswers(c: Config, ideal: Table, calls: seq<Call>, seen: seq<Verdict>): seq<Verdict>
    requires |calls| == |seen|
    decreases |calls|
  {
    if calls == [] then []
    else if seen[0] == FailedOpen then [FailedOpen] + IdealAnswers(c, ideal, calls[1..], seen[1..])
    else
      var (t', v) := IdealCheck(c, ideal, calls[0].key, calls[0].now);
      [v] + IdealAnswers(c, t', calls[1..], seen[1..])
  }

  predicate ClockFrom(calls: seq<Call>, now: nat) {
    calls == [] || (now <= calls[0].now && ClockFrom(calls[1..], calls[0].now))
  }

  lemma {:induction false} AnswerEach(c: Config, t: Table, calls: seq<Call>)
    ensures |Answers(c, t, calls)| == |calls|
    decreases |calls|
  {
    if calls != [] {
      AnswerEach(c, Check(c, t, calls[0].key, calls[0].now).0, calls[1..]);
    }
  }

  // ---- the bounded table refines the ideal one ---------------------------------------

  /** The real table holds windows of the ideal one; what it has forgotten had run out by `now`. */
  ghost predicate Refines(c: Config, t: Table, ideal: Table, now: nat) {
    && (forall k :: k in t ==> k in ideal && t[k] == ideal[k])
    && (forall k :: k in ideal && k !in t ==> !Live(c, ideal[k], now))
  }

  function LiveKeys(c: Config, t: Table, now: nat): set<Key> {
    set k | k in t && Live(c, t[k], now)
  }

  lemma SweepKeys(c: Config, t: Table, ideal: Table, now: nat)
    requires Refines(c, t, ideal, now)
    ensures Sweep(c, t, now).Keys == LiveKeys(c, ideal, now)
    ensures |Sweep(c, t, now)| == |LiveKeys(c, ideal, now)|
    ensures LiveKeys(c, ideal, now) <= t.Keys && |LiveKeys(c, ideal, now)| <= |t|
    ensures Refines(c, Sweep(c, t, now), ideal, now)
  {
    assert Sweep(c, t, now).Keys == LiveKeys(c, ideal, now);
    assert t.Keys == LiveKeys(c, ideal, now) + (t.Keys - LiveKeys(c, ideal, now));
  }

  lemma AdmitAlike(c: Config, t: Table, ideal: Table, key: Key, now: nat)
    requires Refines(c, t, ideal, now)
    ensures Admit(c, t, key, now).1 == IdealCheck(c, ideal, key, now).1
    ensures Refines(c, Admit(c, t, key, now).0, IdealCheck(c, ideal, key, now).0, now)
  {
  }

  lemma CheckRefines(c: Config, t: Table, ideal: Table, key: Key, now: nat)
    requires Refines(c, t, ideal, now)
    ensures var (t', v) := Check(c, t, key, now);
            && (v == FailedOpen <==> key !in t && |LiveKeys(c, ideal, now)| >= c.maxTrackedKeys)
            && (v != FailedOpen ==> v == IdealCheck(c, ideal, key, now).1
                                    && Refines(c, t', IdealCheck(c, ideal, key, now).0, now))
            && (v == FailedOpen ==> Refines(c, t', ideal, now))
  {
    SweepKeys(c, t, ideal, now);
    AdmitAlike(c, t, ideal, key, now);
    AdmitAlike(c, Sweep(c, t, now), ideal, key, now);
  }

  lemma {:induction false} AnswersRefine(c: Config, t: Table, ideal: Table, calls: seq<Call>, now: nat)
    requires Refines(c, t, ideal, now) && ClockFrom(calls, now)
    ensures |Answers(c, t, calls)| == |calls|
    ensures Answers(c, t, calls) == IdealAnswers(c, ideal, calls, Answers(c, t, calls))
    decreases |calls|
  {
    AnswerEach(c, t, calls);
    if calls != [] {
      var call, rest := calls[0], calls[1..];
      var (t', v) := Check(c, t, call.key, call.now);
      var ideal' := if v == FailedOpen then ideal else IdealCheck(c, ideal, call.key, call.now).0;
      assert Refines(c, t, ideal, call.now);
      CheckRefines(c, t, ideal, call.key, call.now);
      AnswersRefine(c, t', ideal', rest, call.now);
      assert ([v] + Answers(c, t', rest))[1..] == Answers(c, t', rest);
    }
  }

  /**
   Limiter refinement. With a clock that does not go back, the sweeping bounded limiter answers
   every call as the ideal one does, except the calls that fail open, which the ideal does not see.
   */
  lemma SweepingIsInvisible(c: Config, calls: seq<Call>)
    requires ClockFrom(calls, 0)
    ensures |Answers(c, map[], calls)| == |calls|
    ensures Answers(c, map[], calls) == IdealAnswers(c, map[], calls, Answers(c, map[], calls))
  {
    AnswersRefine(c, map[], map[], calls, 0);
  }

  lemma CheckKeepsBound(c: Config, t: Table, key: Key, now: nat)
    requires |t| <= c.maxTrackedKeys
    ensures |Check(c, t, key, now).0| <= c.maxTrackedKeys
  {
    var swept := Sweep(c, t, now);
    assert swept.Keys <= t.Keys;
    assert t.Keys == swept.Keys + (t.Keys - swept.Keys);
  }

  /** The table never tracks more keys than its bound, whatever the clock does. */
  lemma {:induction false} TableStaysBounded(c: Config, t: Table, calls: seq<Call>)
    requires |t| <= c.maxTrackedKeys
    ensures |Final(c, t, calls)| <= c.maxTrackedKeys
    decreases |calls|
  {
    if calls != [] {
      CheckKeepsBound(c, t, calls[0].key, calls[0].now);
      TableStaysBounded(c, Check(c, t, calls[0].key, calls[0].now).0, calls[1..]);
    }
  }

  // ---- the law of the answers, on the history alone -----------------------------------------

  /** When the calls of `key` came that were counted. */
  function CountedTimes(calls: seq<Call>, vs: seq<Verdict>, key: Key): seq<nat>
    requires |calls| == |vs|
  {
    if calls == [] then []
    else
      var n := |calls| - 1;
      CountedTimes(calls[..n], vs[..n], key) + if calls[n].key == key && vs[n] != FailedOpen then [calls[n].now] else []
  }

  /**
   Which of the calls opened the window that the last one falls into: the first opens one, and the next is opened by
   the first call that comes a window length after that or later.
   */
  function Opening(c: Config, times: seq<nat>): (k: nat)
    requires times != []
    ensures k < |times|
  {
    var n := |times| - 1;
    if n > 0 && times[n] < times[Opening(c, times[..n])] + c.windowSecs then Opening(c, times[..n]) else n
  }

  /** How many counted calls of its key precede the last one in its window. */
  function Preceding(c: Config, times: seq<nat>): nat
    requires times != []
  {
    |times| - 1 - Opening(c, times)
  }

  /** A count as the 32-bit counter shows it. */
  function Count32(n: nat): nat {
    n % U32_LIMIT
  }

  /** The table holds for each key the window that its history cuts out, or none if that has run out. */
  ghost predicate Tracks(c: Config, t: Table, calls: seq<Call>, vs: seq<Verdict>, now: nat)
    requires |calls| == |vs|
  {
    && (forall k :: k in t ==> IsWindow(c, t[k], CountedTimes(calls, vs, k)))
    && (forall k :: k !in t ==> HasRunOut(c, CountedTimes(calls, vs, k), now))
    && (forall k :: HasOpened(c, CountedTimes(calls, vs, k), now))
  }

  predicate HasOpened(c: Config, times: seq<nat>, now: nat) {
    times != [] ==> times[Opening(c, times)] <= now
  }

  predicate IsWindow(c: Config, w: Window, times: seq<nat>) {
    times != [] && w == Window(times[Opening(c, times)], Count32(Preceding(c, times) + 1))
  }

  predicate HasRunOut(c: Config, times: seq<nat>, now: nat) {
    times == [] || times[Opening(c, times)] + c.windowSecs <= now
  }

  lemma OneMoreTime(calls: seq<Call>, vs: seq<Verdict>, call: Call, v: Verdict, key: Key)
    requires |calls| == |vs|
    ensures CountedTimes(calls + [call], vs + [v], key)
         == if call.key == key && v != FailedOpen then CountedTimes(calls, vs, key) + [call.now]
            else CountedTimes(calls, vs, key)
  {
    assert (calls + [call])[..|calls|] == calls && (vs + [v])[..|vs|] == vs;
  }

  /** One hit on the window of a history, or on none, gives the window of the history with one call more. */
  lemma HitTracks(c: Config, w: Window, times: seq<nat>, now: nat)
    requires IsWindow(c, w, times) || (w == Window(now, 0) && HasRunOut(c, times, now))
    requires HasOpened(c, times, now)
    ensures IsWindow(c, Hit(c, w, now), times + [now]) && HasOpened(c, times + [now], now)
    ensures Hit(c, w, now).count == Count32(Preceding(c, times + [now]) + 1)
  {
    assert (times + [now])[..|times|] == times;
  }

  lemma AdmitTracks(c: Config, t: Table, calls: seq<Call>, vs: seq<Verdict>, call: Call)
    requires |calls| == |vs| && Tracks(c, t, calls, vs, call.now)
    ensures var (t', v) := Admit(c, t, call.key, call.now);
            && v != FailedOpen && Tracks(c, t', calls + [call], vs + [v], call.now)
            && (v == Allowed <==> LetsThrough(c, CountedTimes(calls, vs, call.key) + [call.now]))
  {
    hide Opening, Hit, CountedTimes, IsWindow, HasRunOut, HasOpened, Preceding;
    var (t', v) := Admit(c, t, call.key, call.now);
    HitTracks(c, if call.key in t then t[call.key] else Window(call.now, 0), CountedTimes(calls, vs, call.key),
              call.now);
    forall k
      ensures k in t' ==> IsWindow(c, t'[k], CountedTimes(calls + [call], vs + [v], k))
      ensures k !in t' ==> HasRunOut(c, CountedTimes(calls + [call], vs + [v], k), call.now)
      ensures HasOpened(c, CountedTimes(calls + [call], vs + [v], k), call.now)
    {
      OneMoreTime(calls, vs, call, v, k);
    }
  }

  lemma SweepTracks(c: Config, t: Table, calls: seq<Call>, vs: seq<Verdict>, now: nat)
    requires |calls| == |vs| && Tracks(c, t, calls, vs, now)
    ensures Tracks(c, Sweep(c, t, now), calls, vs, now)
  {
  }

  /** One call of the limiter, whatever becomes of the table. */
  lemma CheckTracks(c: Config, t: Table, calls: seq<Call>, vs: seq<Verdict>, call: Call)
    requires |calls| == |vs| && Tracks(c, t, calls, vs, call.now)
    ensures var (t', v) := Check(c, t, call.key, call.now);
            && Tracks(c, t', calls + [call], vs + [v], call.now)
            && (v != FailedOpen ==>
                  (v == Allowed <==> LetsThrough(c, CountedTimes(calls, vs, call.key) + [call.now])))
  {
    hide Tracks, CountedTimes, Preceding, Opening;
    SweepTracks(c, t, calls, vs, call.now);
    var swept := Sweep(c, t, call.now);
    if Check(c, t, call.key, call.now).1 == FailedOpen {
      UncountedTracks(c, swept, calls, vs, call);
    } else {
      AdmitTracks(c, if |t| >= c.maxTrackedKeys && call.key !in t then swept else t, calls, vs, call);
    }
  }

  lemma UncountedTracks(c: Config, t: Table, calls: seq<Call>, vs: seq<Verdict>, call: Call)
    requires |calls| == |vs| && Tracks(c, t, calls, vs, call.now)
    ensures Tracks(c, t, calls + [call], vs + [FailedOpen], call.now)
  {
    forall k
      ensures CountedTimes(calls + [call], vs + [FailedOpen], k) == CountedTimes(calls, vs, k)
    {
      OneMoreTime(calls, vs, call, FailedOpen, k);
    }
  }

  /** The answers to the first calls are the first answers. */
  lemma {:induction false} AnswersSoFar(c: Config, t: Table, calls: seq<Call>, call: Call)
    ensures |Answers(c, t, calls)| == |calls|
    ensures Answers(c, t, calls + [call])
         == Answers(c, t, calls) + [Check(c, Final(c, t, calls), call.key, call.now).1]
    ensures Final(c, t, calls + [call]) == Check(c, Final(c, t, calls), call.key, call.now).0
    decreases |calls|
  {
    hide Check;
    AnswerEach(c, t, calls);
    if calls == [] {
      assert [] + [call] == [call] && [call][1..] == [];
    } else {
      var (t', v) := Check(c, t, calls[0].key, calls[0].now);
      AnswersSoFar(c, t', calls[1..], call);
      assert (calls + [call])[1..] == calls[1..] + [call];
    }
  }

  lemma LaterTracks(c: Config, t: Table, calls: seq<Call>, vs: seq<Verdict>, now: nat, later: nat)
    requires |calls| == |vs| && Tracks(c, t, calls, vs, now) && now <= later
    ensures Tracks(c, t, calls, vs, later)
  {
    hide CountedTimes, Opening;
  }

  lemma {:induction false} ClockAtEnd(calls: seq<Call>, now: nat)
    requires ClockFrom(calls, now)
    ensures calls != [] ==> ClockFrom(calls[..|calls| - 1], now)
    ensures LastTime(calls, now) >= now
    ensures |calls| > 1 ==> calls[|calls| - 2].now <= calls[|calls| - 1].now
    decreases |calls|
  {
    if |calls| > 1 {
      ClockAtEnd(calls[1..], calls[0].now);
      assert calls[..|calls| - 1][1..] == calls[1..][..|calls| - 2];
    }
  }

  function LastTime(calls: seq<Call>, now: nat): nat {
    if calls == [] then now else calls[|calls| - 1].now
  }

  /** The table after a run tracks the run's history, and the answer to each counted call is the history's. */
  lemma {:induction false} RunTracks(c: Config, calls: seq<Call>)
    requires ClockFrom(calls, 0)
    ensures |Answers(c, map[], calls)| == |calls|
    ensures Tracks(c, Final(c, map[], calls), calls, Answers(c, map[], calls), LastTime(calls, 0))
    ensures forall n :: 0 <= n < |calls| ==> IsAnswer(c, calls, Answers(c, map[], calls), n)
    decreases |calls|
  {
    AnswerEach(c, map[], calls);
    if calls != [] {
      hide Check, Tracks, IsAnswer, LetsThrough;
      var n := |calls| - 1;
      var before, call := calls[..n], calls[n];
      assert before + [call] == calls;
      ClockAtEnd(calls, 0);
      RunTracks(c, before);
      AnswersSoFar(c, map[], before, call);
      var vs, t := Answers(c, map[], before), Final(c, map[], before);
      var v := Check(c, t, call.key, call.now).1;
      LaterTracks(c, t, before, vs, LastTime(before, 0), call.now);
      CheckTracks(c, t, before, vs, call);
      NextAnswer(c, before, vs, call, v);
    }
  }

  /** A counted call is let through exactly if the counter, with it, shows at most `limit`. */
  predicate IsAnswer(c: Config, calls: seq<Call>, vs: seq<Verdict>, n: nat)
    requires n < |calls| == |vs|
  {
    vs[n] != FailedOpen ==>
      var times := CountedTimes(calls[..n + 1], vs[..n + 1], calls[n].key);
      times != [] && (vs[n] == Allowed <==> LetsThrough(c, times))
  }

  /** The counter, with the last of these calls, shows at most `limit`. */
  predicate LetsThrough(c: Config, times: seq<nat>)
    requires times != []
  {
    Count32(Preceding(c, times) + 1) <= c.limit
  }

  lemma NextAnswer(c: Config, calls: seq<Call>, vs: seq<Verdict>, call: Call, v: Verdict)
    requires |calls| == |vs| && forall n :: 0 <= n < |calls| ==> IsAnswer(c, calls, vs, n)
    requires v != FailedOpen ==>
               (v == Allowed <==> LetsThrough(c, CountedTimes(calls, vs, call.key) + [call.now]))
    ensures forall n :: 0 <= n < |calls| + 1 ==> IsAnswer(c, calls + [call], vs + [v], n)
  {
    hide CountedTimes, LetsThrough;
    var calls', vs' := calls + [call], vs + [v];
    OneMoreTime(calls, vs, call, v, call.key);
    forall n | 0 <= n < |calls'|
      ensures IsAnswer(c, calls', vs', n)
    {
      if n < |calls| {
        assert IsAnswer(c, calls, vs, n);
        assert calls'[..n + 1] == calls[..n + 1] && vs'[..n + 1] == vs[..n + 1];
      } else {
        assert calls'[..n + 1] == calls' && vs'[..n + 1] == vs';
      }
    }
  }

  /**
   The law of the limiter, on the times of the calls alone. In every run with a monotone clock every counted call is let
   through if and only if fewer than `limit` counted calls of its key precede it in its window, or, past 2^32 of them,
   as many as the 32-bit counter shows. Blocked calls count, and do not put off the next window.
   */
  lemma AllowedByHistory(c: Config, calls: seq<Call>, n: nat)
    requires ClockFrom(calls, 0) && n < |calls|
    ensures |Answers(c, map[], calls)| == |calls|
    ensures Answers(c, map[], calls)[n] != FailedOpen ==>
              var vs := Answers(c, map[], calls);
              var times := CountedTimes(calls[..n + 1], vs[..n + 1], calls[n].key);
              && times != []
              && (vs[n] == Allowed <==> (Preceding(c, times) + 1) % U32_LIMIT <= c.limit)
              && (Preceding(c, times) + 1 < U32_LIMIT ==> (vs[n] == Allowed <==> Preceding(c, times) < c.limit))
  {
    hide CountedTimes, Preceding, Answers;
    RunTracks(c, calls);
    assert IsAnswer(c, calls, Answers(c, map[], calls), n);
  }

  // ---- the sliding bound -----------------------------------------------------------------

  /** Counted calls of `key` that were allowed between `lo` and `hi`. */
  function AllowedBetween(calls: seq<Call>, vs: seq<Verdict>, key: Key, lo: nat, hi: nat): nat
    requires |calls| == |vs|
  {
    if calls == [] then 0
    else
      (if calls[0].key == key && lo <= calls[0].now <= hi && vs[0] == Allowed then 1 else 0)
      + AllowedBetween(calls[1..], vs[1..], key, lo, hi)
  }

  /** The most calls of one key that can get through in a stretch of one window length. */
  function MostAllowed(c: Config): nat {
    if c.windowSecs == 1 || c.limit == 0 then c.limit else 2 * c.limit - 1
  }

  /** How many more calls `key` can get through from `lo` up to, not including, `lo + windowSecs`. */
  function Potential(c: Config, ideal: Table, key: Key, lo: nat): nat {
    if key !in ideal || ideal[key].start + c.windowSecs <= lo then MostAllowed(c)
    else SaturatingSub(c.limit, ideal[key].count) + if ideal[key].start < lo then c.limit else 0
  }

  /** No window of the run counts 2^32 calls: after a counted call its counter is not back at zero. */
  ghost predicate NeverWraps(c: Config, t: Table, calls: seq<Call>)
    decreases |calls|
  {
    calls == [] ||
    var t' := Check(c, t, calls[0].key, calls[0].now).0;
    (calls[0].key in t' ==> t'[calls[0].key].count > 0) && NeverWraps(c, t', calls[1..])
  }

  lemma {:induction false} NothingAfter(calls: seq<Call>, vs: seq<Verdict>, key: Key, lo: nat, hi: nat, now: nat)
    requires |calls| == |vs| && ClockFrom(calls, now) && hi < now
    ensures AllowedBetween(calls, vs, key, lo, hi) == 0
  {
    if calls != [] {
      NothingAfter(calls[1..], vs[1..], key, lo, hi, calls[0].now);
    }
  }

  /** One counted call spends what it is allowed: window starts stay a window length apart. */
  lemma PotentialStep(c: Config, ideal: Table, key: Key, call: Call, lo: nat)
    requires c.windowSecs > 0
    requires key in ideal ==> ideal[key].start <= call.now && ideal[key].count > 0
    requires IdealCheck(c, ideal, call.key, call.now).0[call.key].count > 0
    requires call.now < lo + c.windowSecs
    ensures var (ideal', v) := IdealCheck(c, ideal, call.key, call.now);
            var spent := if call.key == key && lo <= call.now && v == Allowed then 1 else 0;
            spent + Potential(c, ideal', key, lo) <= Potential(c, ideal, key, lo)
  {
  }

  lemma {:induction false} AllowedWithinPotential(c: Config, t: Table, ideal: Table, calls: seq<Call>, key: Key,
                                                  lo: nat, now: nat)
    requires c.windowSecs > 0 && ClockFrom(calls, now) && Refines(c, t, ideal, now) && NeverWraps(c, t, calls)
    requires key in ideal ==> ideal[key].start <= now && ideal[key].count > 0
    ensures |Answers(c, t, calls)| == |calls|
    ensures AllowedBetween(calls, Answers(c, t, calls), key, lo, lo + c.windowSecs - 1) <= Potential(c, ideal, key, lo)
    decreases |calls|
  {
    hide Refines, Check, Potential;
    AnswerEach(c, t, calls);
    if calls != [] {
      var call, rest := calls[0], calls[1..];
      var (t', v) := Check(c, t, call.key, call.now);
      var hi := lo + c.windowSecs - 1;
      LaterStillRefines(c, t, ideal, now, call.now);
      CheckRefines(c, t, ideal, call.key, call.now);
      AnswerEach(c, t', rest);
      assert Answers(c, t, calls)[1..] == Answers(c, t', rest);
      if call.now > hi {
        NothingAfter(rest, Answers(c, t', rest), key, lo, hi, call.now);
      } else if v == FailedOpen {
        AllowedWithinPotential(c, t', ideal, rest, key, lo, call.now);
      } else {
        var ideal' := IdealCheck(c, ideal, call.key, call.now).0;
        CountedInBoth(c, t, ideal, call);
        PotentialStep(c, ideal, key, call, lo);
        AllowedWithinPotential(c, t', ideal', rest, key, lo, call.now);
      }
    }
  }

  lemma LaterStillRefines(c: Config, t: Table, ideal: Table, now: nat, later: nat)
    requires Refines(c, t, ideal, now) && now <= later
    ensures Refines(c, t, ideal, later)
  {
  }

  /** A counted call leaves the same window in the real table and in the ideal one. */
  lemma CountedInBoth(c: Config, t: Table, ideal: Table, call: Call)
    requires Refines(c, t, ideal, call.now) && Check(c, t, call.key, call.now).1 != FailedOpen
    ensures var t', ideal' := Check(c, t, call.key, call.now).0, IdealCheck(c, ideal, call.key, call.now).0;
            call.key in t' && call.key in ideal' && ideal'[call.key] == t'[call.key]
  {
    CheckRefines(c, t, ideal, call.key, call.now);
  }

  /**
   Sliding bound. In any stretch of `windowSecs` seconds at most MostAllowed counted calls of one key get
   through the real limiter, evictions notwithstanding, as long as no 32-bit counter wraps.
   */
  lemma SlidingBound(c: Config, calls: seq<Call>, key: Key, lo: nat)
    requires c.windowSecs > 0 && ClockFrom(calls, 0) && NeverWraps(c, map[], calls)
    ensures |Answers(c, map[], calls)| == |calls|
    ensures AllowedBetween(calls, Answers(c, map[], calls), key, lo, lo + c.windowSecs - 1) <= MostAllowed(c)
  {
    AllowedWithinPotential(c, map[], map[], calls, key, lo, 0);
  }

  // ---- the bound is attained ----------------------------------------------------------------

  function Burst(key: Key, at: nat, n: nat): seq<Call> {
    if n == 0 then [] else [Call(key, at)] + Burst(key, at, n - 1)
  }

  lemma {:induction false} BurstClock(key: Key, at: nat, n: nat, rest: seq<Call>, now: nat)
    requires now <= at && ClockFrom(rest, at)
    ensures ClockFrom(Burst(key, at, n) + rest, now)
    decreases n
  {
    if n == 0 {
      assert Burst(key, at, n) + rest == rest;
    } else {
      BurstClock(key, at, n - 1, rest, at);
      assert (Burst(key, at, n) + rest)[1..] == Burst(key, at, n - 1) + rest;
    }
  }

  /** What is allowed of a run between `lo` and `hi`, and whether a counter wraps in it. */
  ghost predicate Outcome(c: Config, t: Table, calls: seq<Call>, key: Key, lo: nat, hi: nat, allowed: nat) {
    && |Answers(c, t, calls)| == |calls|
    && AllowedBetween(calls, Answers(c, t, calls), key, lo, hi) == allowed
    && NeverWraps(c, t, calls)
  }

  lemma OneAllowed(c: Config, key: Key, w: Window, at: nat, rest: seq<Call>, lo: nat, hi: nat, allowed: nat)
    requires Live(c, w, at) && w.count + 1 <= c.limit < U32_LIMIT
    requires Outcome(c, map[key := w.(count := w.count + 1)], rest, key, lo, hi, allowed)
    ensures Outcome(c, map[key := w], [Call(key, at)] + rest, key, lo, hi, allowed + if lo <= at <= hi then 1 else 0)
  {
    var calls, w1 := [Call(key, at)] + rest, w.(count := w.count + 1);
    assert map[key := w][key := w1] == map[key := w1];
    assert Check(c, map[key := w], key, at) == (map[key := w1], Allowed);
    assert calls[1..] == rest;
    assert Answers(c, map[key := w], calls)[1..] == Answers(c, map[key := w1], rest);
  }

  /** A tracked key's live window admits what is left of its limit. */
  lemma {:induction false} BurstAllowed(c: Config, key: Key, w: Window, at: nat, n: nat, rest: seq<Call>, lo: nat,
                                        hi: nat, allowed: nat)
    requires Live(c, w, at) && w.count + n <= c.limit < U32_LIMIT
    requires Outcome(c, map[key := w.(count := w.count + n)], rest, key, lo, hi, allowed)
    ensures Outcome(c, map[key := w], Burst(key, at, n) + rest, key, lo, hi, allowed + if lo <= at <= hi then n else 0)
    decreases n
  {
    hide Outcome, Burst;
    if n == 0 {
      NoBurst(key, at, rest);
    } else {
      var w1 := w.(count := w.count + 1);
      BurstAllowed(c, key, w1, at, n - 1, rest, lo, hi, allowed);
      OneAllowed(c, key, w, at, Burst(key, at, n - 1) + rest, lo, hi, allowed + if lo <= at <= hi then n - 1 else 0);
      FirstOfBurst(key, at, n, rest);
    }
  }

  lemma NoBurst(key: Key, at: nat, rest: seq<Call>)
    ensures Burst(key, at, 0) + rest == rest
  {
  }

  lemma FirstOfBurst(key: Key, at: nat, n: nat, rest: seq<Call>)
    requires n > 0
    ensures Burst(key, at, n) + rest == [Call(key, at)] + (Burst(key, at, n - 1) + rest)
  {
  }

  /** A window that has run out, or is not there yet, counts from zero again. */
  lemma RestartAllowed(c: Config, t: Table, key: Key, at: nat, rest: seq<Call>, lo: nat, hi: nat, allowed: nat)
    requires (t == map[] && c.maxTrackedKeys > 0) || (t.Keys == {key} && !Live(c, t[key], at))
    requires rest != [] && rest[0] == Call(key, at)
    requires Outcome(c, map[key := Window(at, 0)], rest, key, lo, hi, allowed)
    ensures Outcome(c, t, rest, key, lo, hi, allowed)
  {
    assert Check(c, t, key, at).0 == Check(c, map[key := Window(at, 0)], key, at).0;
  }

  /** As many calls as get through in a stretch of one window length: one early, the rest about the window's end. */
  function Worst(c: Config, key: Key): (seq<Call>, nat)
    requires c.windowSecs > 0
  {
    if c.windowSecs == 1 || c.limit <= 1 then (Burst(key, 0, c.limit), 0)
    else (Burst(key, 0, 1) + (Burst(key, c.windowSecs - 1, c.limit - 1) + Burst(key, c.windowSecs, c.limit)), 1)
  }

  lemma NothingYet(c: Config, t: Table, key: Key, lo: nat, hi: nat)
    ensures Outcome(c, t, [], key, lo, hi, 0) && ClockFrom([], 0)
  {
  }

  lemma WorstInTwoWindows(c: Config, key: Key)
    requires 2 <= c.limit < U32_LIMIT && 2 <= c.windowSecs && c.maxTrackedKeys > 0
    ensures var (calls, lo) := Worst(c, key);
            && ClockFrom(calls, 0)
            && Outcome(c, map[], calls, key, lo, lo + c.windowSecs - 1, 2 * c.limit - 1)
  {
    hide Outcome;
    var w, l := c.windowSecs, c.limit;
    var third := Burst(key, w, l);
    var second := Burst(key, w - 1, l - 1) + third;
    assert third + [] == third;
    NothingYet(c, map[key := Window(w, l)], key, 1, w);
    BurstAllowed(c, key, Window(w, 0), w, l, [], 1, w, 0);
    RestartAllowed(c, map[key := Window(0, l)], key, w, third, 1, w, l);
    BurstAllowed(c, key, Window(0, 1), w - 1, l - 1, third, 1, w, l);
    BurstAllowed(c, key, Window(0, 0), 0, 1, second, 1, w, 2 * l - 1);
    RestartAllowed(c, map[], key, 0, Burst(key, 0, 1) + second, 1, w, 2 * l - 1);
    BurstClock(key, w, l, [], w - 1);
    BurstClock(key, w - 1, l - 1, third, 0);
    BurstClock(key, 0, 1, second, 0);
  }

  /** The bound is sharp: for every configuration of a tracking limiter there is a run that attains it. */
  lemma BoundIsAttained(c: Config, key: Key)
    requires c.limit < U32_LIMIT && c.windowSecs > 0 && c.maxTrackedKeys > 0
    ensures var (calls, lo) := Worst(c, key);
            && ClockFrom(calls, 0)
            && Outcome(c, map[], calls, key, lo, lo + c.windowSecs - 1, MostAllowed(c))
  {
    if c.windowSecs == 1 || c.limit <= 1 {
      var calls := Burst(key, 0, c.limit);
      assert calls + [] == calls;
      NothingYet(c, map[key := Window(0, c.limit)], key, 0, c.windowSecs - 1);
      BurstAllowed(c, key, Window(0, 0), 0, c.limit, [], 0, c.windowSecs - 1, 0);
      BurstClock(key, 0, c.limit, [], 0);
      if c.limit == 0 {
        NothingYet(c, map[], key, 0, c.windowSecs - 1);
      } else {
        RestartAllowed(c, map[], key, 0, calls, 0, c.windowSecs - 1, c.limit);
      }
    } else {
      WorstInTwoWindows(c, key);
    }
  }

  /** Counted calls of `key` that the limiter lets through in the `windowSecs` seconds from `lo` on. */
  function AllowedFrom(c: Config, calls: seq<Call>, key: Key, lo: nat): nat
    requires c.windowSecs > 0
  {
    AnswerEach(c, map[], calls);
    AllowedBetween(calls, Answers(c, map[], calls), key, lo, lo + c.windowSecs - 1)
  }

  /** At most `limit` counted calls in every stretch of one window length, in every run in which no counter wraps. */
  ghost predicate KeepsItsPromise(c: Config)
    requires c.windowSecs > 0
  {
    forall calls: seq<Call>, key: Key, lo: nat ::
      ClockFrom(calls, 0) && NeverWraps(c, map[], calls) ==> AllowedFrom(c, calls, key, lo) <= c.limit
  }

  /** The promise of at most `limit` hits per window holds exactly for these configurations. */
  lemma PromiseHoldsIff(c: Config)
    requires c.limit < U32_LIMIT && c.windowSecs > 0 && c.maxTrackedKeys > 0
    ensures KeepsItsPromise(c) <==> c.limit <= 1 || c.windowSecs == 1
  {
    if c.limit <= 1 || c.windowSecs == 1 {
      forall calls: seq<Call>, key: Key, lo: nat | ClockFrom(calls, 0) && NeverWraps(c, map[], calls)
        ensures AllowedFrom(c, calls, key, lo) <= c.limit
      {
        SlidingBound(c, calls, key, lo);
      }
    } else {
      BoundIsAttained(c, "");
      var (calls, lo) := Worst(c, "");
      assert AllowedFrom(c, calls, "", lo) > c.limit;
    }
  }

  /** A zero-length window never blocks a counted call, unless the limit is zero. */
  lemma ZeroWindowNeverBlocks(c: Config, t: Table, key: Key, now: nat)
    requires c.windowSecs == 0 && c.limit > 0
    ensures Check(c, t, key, now).1 != Blocked
  {
  }
}
