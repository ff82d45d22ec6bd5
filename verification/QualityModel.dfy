/**
 Adaptive quality: a window of frame times, in nanoseconds, and a quality that every
 evaluation moves by what the window's average says. Ratios are compared exactly.
 */
module QualityModel {
  import opened Numbers

  const SECOND: nat := 1_000_000_000

  const WINDOW := 30

  datatype Config = Config(
    fps: int,
    quality: int,
    maxWidth: int,
    maxHeight: int,
    adaptive: bool,
    minQuality: int,
    maxQuality: int)

  /** A configuration with the defaults filled in and the quality brought between its bounds. */
  function Normalize(c: Config): Config {
    var fps := if c.fps <= 0 then 15 else c.fps;
    var q := if c.quality <= 0 then 60 else c.quality;
    var lo := if c.minQuality <= 0 then 20 else c.minQuality;
    var hi0 := if c.maxQuality <= 0 then 90 else c.maxQuality;
    var hi := if hi0 < lo then lo + 10 else hi0;
    var q1 := if q < lo then lo else q;
    c.(fps := fps, quality := if q1 > hi then hi else q1, minQuality := lo, maxQuality := hi)
  }

  ghost predicate Normal(c: Config) {
    c.fps > 0 && 0 < c.minQuality <= c.quality <= c.maxQuality
  }

  lemma NormalizeIsNormal(c: Config)
    ensures Normal(Normalize(c))
    ensures Normal(c) ==> Normalize(c) == c
  {
  }

  function Sum(times: seq<nat>): nat {
    if times == [] then 0 else Sum(times[..|times| - 1]) + times[|times| - 1]
  }

  function Average(times: seq<nat>): nat
    requires times != []
  {
    Sum(times) / |times|
  }

  function Interval(fps: int): nat
    requires fps > 0
  {
    SECOND / fps
  }

  /** Whether a duration is more (less) than `percent` of the frame budget. */
  predicate Over(d: nat, percent: nat, budget: nat) {
    d * 100 > percent * budget
  }

  predicate Under(d: nat, percent: nat, budget: nat) {
    d * 100 < percent * budget
  }

  function Adjusted(c: Config, average: nat): int
    requires c.fps > 0
  {
    var budget := Interval(c.fps);
    var q :=
      if Over(average, 85, budget) then c.quality - 5
      else if Under(average, 40, budget) && c.quality < c.maxQuality then c.quality + 5
      else if Under(average, 60, budget) && c.quality < c.maxQuality then c.quality + 2
      else c.quality;
    var q1 := if q < c.minQuality then c.minQuality else q;
    if q1 > c.maxQuality then c.maxQuality else q1
  }

  /** The configuration after one evaluation. */
  function Evaluate(c: Config, times: seq<nat>): Config
    requires c.fps > 0
  {
    if !c.adaptive || times == [] then c else c.(quality := Adjusted(c, Average(times)))
  }

  function Push(times: seq<nat>, elapsed: nat): seq<nat> {
    var all := times + [elapsed];
    if |all| > WINDOW then all[1..] else all
  }

  // ---- Runs ----

  datatype StreamState = StreamState(cfg: Config, times: seq<nat>)

  /**
   A frame that was sent, one whose encoding failed, one that could not be captured, and a
   request for statistics. All but the failed capture evaluate the quality.
   */
  datatype Event = Sent(elapsed: nat) | EncodeFailed | CaptureFailed | Query

  function Step(s: StreamState, e: Event): StreamState
    requires s.cfg.fps > 0
  {
    StreamState(if e.CaptureFailed? then s.cfg else Evaluate(s.cfg, s.times),
                if e.Sent? then Push(s.times, e.elapsed) else s.times)
  }

  function Run(s: StreamState, events: seq<Event>): (t: StreamState)
    requires s.cfg.fps > 0
    ensures t.cfg == s.cfg.(quality := t.cfg.quality)
    decreases |events|
  {
    if events == [] then s else Run(Step(s, events[0]), events[1..])
  }

  function Elapsed(events: seq<Event>): seq<nat> {
    if events == [] then []
    else (if events[0].Sent? then [events[0].elapsed] else []) + Elapsed(events[1..])
  }

  function Evaluations(events: seq<Event>): nat {
    if events == [] then 0 else (if events[0].CaptureFailed? then 0 else 1) + Evaluations(events[1..])
  }

  /** The last min(|s|, 30) elements. */
  function Last(s: seq<nat>): seq<nat> {
    if |s| > WINDOW then s[|s| - WINDOW..] else s
  }

  lemma PushKeepsTheLast(before: seq<nat>, elapsed: nat)
    ensures Push(Last(before), elapsed) == Last(before + [elapsed])
  {
  }

  /** All the frame times recorded once an event is past. */
  function Recorded(before: seq<nat>, e: Event): seq<nat> {
    if e.Sent? then before + [e.elapsed] else before
  }

  lemma RecordedFirst(before: seq<nat>, events: seq<Event>)
    requires events != []
    ensures before + Elapsed(events) == Recorded(before, events[0]) + Elapsed(events[1..])
  {
    var e, rest := events[0], Elapsed(events[1..]);
    if e.Sent? {
      assert before + ([e.elapsed] + rest) == before + [e.elapsed] + rest;
    } else {
      assert [] + rest == rest;
    }
  }

  lemma StepWindow(s: StreamState, before: seq<nat>, e: Event)
    requires s.cfg.fps > 0 && s.times == Last(before)
    ensures Step(s, e).times == Last(Recorded(before, e))
  {
    if e.Sent? {
      PushKeepsTheLast(before, e.elapsed);
    }
  }

  /** In every run the window is the last min(n, 30) of all the frame times ever recorded. */
  lemma {:induction false} WindowIsTheLastFrames(s: StreamState, before: seq<nat>, events: seq<Event>)
    requires s.cfg.fps > 0 && s.times == Last(before)
    ensures Run(s, events).times == Last(before + Elapsed(events))
    decreases |events|
  {
    if events == [] {
      assert before + Elapsed(events) == before;
    } else {
      StepWindow(s, before, events[0]);
      WindowIsTheLastFrames(Step(s, events[0]), Recorded(before, events[0]), events[1..]);
      RecordedFirst(before, events);
    }
  }

  /**
   So after a run from the start it holds as many frame times as were recorded, at most 30,
   and they are the latest.
   */
  lemma WindowHoldsThirty(s: StreamState, events: seq<Event>)
    requires s.cfg.fps > 0 && s.times == []
    ensures var all, window := Elapsed(events), Run(s, events).times;
      |window| == (if |all| <= 30 then |all| else 30) && window == all[|all| - |window|..]
  {
    WindowFromTheStart(s, events);
  }

  lemma WindowFromTheStart(s: StreamState, events: seq<Event>)
    requires s.cfg.fps > 0 && s.times == []
    ensures Run(s, events).times == Last(Elapsed(events))
  {
    WindowIsTheLastFrames(s, [], events);
    assert [] + Elapsed(events) == Elapsed(events);
  }

  lemma {:induction false} ElapsedParts(a: seq<Event>, b: seq<Event>)
    ensures Elapsed(a + b) == Elapsed(a) + Elapsed(b)
  {
    if a == [] {
      assert a + b == b;
    } else {
      assert (a + b)[0] == a[0] && (a + b)[1..] == a[1..] + b;
      ElapsedParts(a[1..], b);
    }
  }

  /** In every run the quality stays within its bounds, and is fixed unless it is adaptive. */
  lemma {:induction false} QualityStaysInBounds(s: StreamState, events: seq<Event>)
    requires Normal(s.cfg)
    ensures Normal(Run(s, events).cfg)
    ensures !s.cfg.adaptive ==> Run(s, events).cfg == s.cfg
    decreases |events|
  {
    if events != [] {
      QualityStaysInBounds(Step(s, events[0]), events[1..]);
    }
  }

  // ---- Response to load ----

  lemma {:induction false} SumAtLeast(times: seq<nat>, m: nat)
    requires forall i | 0 <= i < |times| :: times[i] >= m
    ensures Sum(times) >= |times| * m
  {
    if times != [] {
      SumAtLeast(times[..|times| - 1], m);
    }
  }

  lemma {:induction false} SumAtMost(times: seq<nat>, m: nat)
    requires forall i | 0 <= i < |times| :: times[i] <= m
    ensures Sum(times) <= |times| * m
  {
    if times != [] {
      SumAtMost(times[..|times| - 1], m);
    }
  }

  lemma QuotientAtLeast(total: nat, n: nat, m: nat)
    requires n > 0 && total >= n * m
    ensures total / n >= m
  {
    var q := total / n;
    assert total == n * q + total % n;
    assert m * n < (q + 1) * n;
    Cancel(m, q + 1, n);
  }

  lemma QuotientAtMost(total: nat, n: nat, m: nat)
    requires n > 0 && total <= n * m
    ensures total / n <= m
  {
    var q := total / n;
    assert total == n * q + total % n;
    assert q * n < (m + 1) * n;
    Cancel(q, m + 1, n);
  }

  ghost predicate AllOver(times: seq<nat>, percent: nat, budget: nat) {
    forall i | 0 <= i < |times| :: Over(times[i], percent, budget)
  }

  ghost predicate AllUnder(times: seq<nat>, percent: nat, budget: nat) {
    forall i | 0 <= i < |times| :: Under(times[i], percent, budget)
  }

  /** Rounding the average down does not take it back under a threshold that every frame exceeds. */
  lemma AverageOver(times: seq<nat>, percent: nat, budget: nat)
    requires times != [] && AllOver(times, percent, budget)
    ensures Over(Average(times), percent, budget)
  {
    var m := percent * budget / 100 + 1;
    SumAtLeast(times, m);
    QuotientAtLeast(Sum(times), |times|, m);
  }

  lemma {:induction false} Peak(times: seq<nat>) returns (i: nat)
    requires times != []
    ensures i < |times| && forall j | 0 <= j < |times| :: times[j] <= times[i]
  {
    i := 0;
    if |times| > 1 {
      var rest := times[..|times| - 1];
      i := Peak(rest);
      assert forall j | 0 <= j < |rest| :: times[j] == rest[j];
      if times[|times| - 1] > times[i] {
        i := |times| - 1;
      }
    }
  }

  lemma AverageUnder(times: seq<nat>, percent: nat, budget: nat)
    requires times != [] && AllUnder(times, percent, budget)
    ensures Under(Average(times), percent, budget)
  {
    var i := Peak(times);
    SumAtMost(times, times[i]);
    QuotientAtMost(Sum(times), |times|, times[i]);
    assert Under(times[i], percent, budget);
  }

  /** Every frame of the run took more (less) than the given part of the budget. */
  ghost predicate SlowEvents(events: seq<Event>, budget: nat) {
    forall i | 0 <= i < |events| :: events[i].Sent? ==> Over(events[i].elapsed, 85, budget)
  }

  ghost predicate FastEvents(events: seq<Event>, budget: nat) {
    forall i | 0 <= i < |events| :: events[i].Sent? ==> Under(events[i].elapsed, 40, budget)
  }

  /** While every frame in sight is slow, n evaluations lower the quality by exactly 5n, down to the minimum. */
  lemma {:induction false} SlowFramesLowerQuality(s: StreamState, events: seq<Event>)
    requires Normal(s.cfg) && s.cfg.adaptive && s.times != []
    requires AllOver(s.times, 85, Interval(s.cfg.fps)) && SlowEvents(events, Interval(s.cfg.fps))
    ensures Run(s, events).cfg.quality == Max(s.cfg.minQuality, s.cfg.quality - 5 * Evaluations(events))
    decreases |events|
  {
    if events != [] {
      AverageOver(s.times, 85, Interval(s.cfg.fps));
      assert SlowEvents(events[1..], Interval(s.cfg.fps));
      SlowFramesLowerQuality(Step(s, events[0]), events[1..]);
    }
  }

  /** And while every frame in sight takes less than 40% of the budget, they raise it by 5n, up to the maximum. */
  lemma {:induction false} FastFramesRaiseQuality(s: StreamState, events: seq<Event>)
    requires Normal(s.cfg) && s.cfg.adaptive && s.times != []
    requires AllUnder(s.times, 40, Interval(s.cfg.fps)) && FastEvents(events, Interval(s.cfg.fps))
    ensures Run(s, events).cfg.quality == Min(s.cfg.maxQuality, s.cfg.quality + 5 * Evaluations(events))
    decreases |events|
  {
    if events != [] {
      AverageUnder(s.times, 40, Interval(s.cfg.fps));
      assert FastEvents(events[1..], Interval(s.cfg.fps));
      FastFramesRaiseQuality(Step(s, events[0]), events[1..]);
    }
  }

  /** Every duration is between two parts of the budget: `from` included, `to` excluded or included. */
  ghost predicate AllBetween(times: seq<nat>, from: nat, to: nat, budget: nat) {
    forall i | 0 <= i < |times| :: !Under(times[i], from, budget) && Under(times[i], to, budget)
  }

  ghost predicate AllWithin(times: seq<nat>, from: nat, to: nat, budget: nat) {
    forall i | 0 <= i < |times| :: !Under(times[i], from, budget) && !Over(times[i], to, budget)
  }

  lemma AverageNotUnder(times: seq<nat>, percent: nat, budget: nat)
    requires times != [] && forall i | 0 <= i < |times| :: !Under(times[i], percent, budget)
    ensures !Under(Average(times), percent, budget)
  {
    var m := (percent * budget + 99) / 100;
    SumAtLeast(times, m);
    QuotientAtLeast(Sum(times), |times|, m);
  }

  lemma AverageNotOver(times: seq<nat>, percent: nat, budget: nat)
    requires times != [] && forall i | 0 <= i < |times| :: !Over(times[i], percent, budget)
    ensures !Over(Average(times), percent, budget)
  {
    var i := Peak(times);
    SumAtMost(times, times[i]);
    QuotientAtMost(Sum(times), |times|, times[i]);
  }

  ghost predicate ModerateEvents(events: seq<Event>, budget: nat) {
    forall i | 0 <= i < |events| && events[i].Sent? ::
      !Under(events[i].elapsed, 40, budget) && Under(events[i].elapsed, 60, budget)
  }

  ghost predicate SteadyEvents(events: seq<Event>, budget: nat) {
    forall i | 0 <= i < |events| && events[i].Sent? ::
      !Under(events[i].elapsed, 60, budget) && !Over(events[i].elapsed, 85, budget)
  }

  /**
   While every frame in sight takes from 40% to under 60% of the budget, n evaluations raise the
   quality by 2n, up to the maximum.
   */
  lemma {:induction false} ModerateFramesRaiseQualitySlowly(s: StreamState, events: seq<Event>)
    requires Normal(s.cfg) && s.cfg.adaptive && s.times != []
    requires AllBetween(s.times, 40, 60, Interval(s.cfg.fps)) && ModerateEvents(events, Interval(s.cfg.fps))
    ensures Run(s, events).cfg.quality == Min(s.cfg.maxQuality, s.cfg.quality + 2 * Evaluations(events))
    decreases |events|
  {
    if events != [] {
      AverageNotUnder(s.times, 40, Interval(s.cfg.fps));
      AverageUnder(s.times, 60, Interval(s.cfg.fps));
      assert ModerateEvents(events[1..], Interval(s.cfg.fps));
      ModerateFramesRaiseQualitySlowly(Step(s, events[0]), events[1..]);
    }
  }

  /** And while every frame in sight takes from 60% to 85% of it, the quality stays as it is. */
  lemma {:induction false} SteadyFramesKeepQuality(s: StreamState, events: seq<Event>)
    requires Normal(s.cfg) && s.times != []
    requires AllWithin(s.times, 60, 85, Interval(s.cfg.fps)) && SteadyEvents(events, Interval(s.cfg.fps))
    ensures Run(s, events).cfg.quality == s.cfg.quality
    decreases |events|
  {
    if events != [] {
      AverageNotUnder(s.times, 60, Interval(s.cfg.fps));
      AverageNotOver(s.times, 85, Interval(s.cfg.fps));
      assert SteadyEvents(events[1..], Interval(s.cfg.fps));
      SteadyFramesKeepQuality(Step(s, events[0]), events[1..]);
    }
  }

  lemma {:induction false} RunConcat(s: StreamState, a: seq<Event>, b: seq<Event>)
    requires s.cfg.fps > 0
    ensures Run(s, a + b) == Run(Run(s, a), b)
    decreases |a|
  {
    if a == [] {
      assert a + b == b;
    } else {
      assert (a + b)[1..] == a[1..] + b;
      RunConcat(Step(s, a[0]), a[1..], b);
    }
  }

  lemma {:induction false} ElapsedAreSlow(events: seq<Event>, budget: nat)
    requires SlowEvents(events, budget)
    ensures AllOver(Elapsed(events), 85, budget)
  {
    if events != [] {
      assert SlowEvents(events[1..], budget);
      ElapsedAreSlow(events[1..], budget);
    }
  }

  lemma LastOfSuffix(a: seq<nat>, b: seq<nat>)
    requires |b| >= WINDOW
    ensures Last(a + b) == b[|b| - WINDOW..]
  {
  }

  /** After thirty frames the window holds nothing older than them. */
  lemma WindowForgets(s: StreamState, history: seq<Event>, recent: seq<Event>)
    requires s.cfg.fps > 0 && s.times == [] && |Elapsed(recent)| >= WINDOW
    ensures Run(s, history + recent).times == Elapsed(recent)[|Elapsed(recent)| - WINDOW..]
  {
    WindowFromTheStart(s, history + recent);
    ElapsedParts(history, recent);
    LastOfSuffix(Elapsed(history), Elapsed(recent));
  }

  lemma SuffixOver(times: seq<nat>, k: nat, percent: nat, budget: nat)
    requires k <= |times| && AllOver(times, percent, budget)
    ensures AllOver(times[k..], percent, budget)
  {
  }

  lemma AfterThirtySlow(s: StreamState, history: seq<Event>, slow: seq<Event>)
    requires Normal(s.cfg) && s.times == []
    requires SlowEvents(slow, Interval(s.cfg.fps)) && |Elapsed(slow)| >= WINDOW
    ensures SlowNow(Run(s, history + slow), Interval(s.cfg.fps))
  {
    QualityStaysInBounds(s, history + slow);
    WindowForgets(s, history, slow);
    ElapsedAreSlow(slow, Interval(s.cfg.fps));
    SuffixOver(Elapsed(slow), |Elapsed(slow)| - WINDOW, 85, Interval(s.cfg.fps));
  }

  /**
   Thirty slow frames wipe out the past: whatever happened before them, each later
   evaluation that sees only slow frames lowers the quality by five.
   */
  lemma SlowFramesTakeOver(s: StreamState, history: seq<Event>, slow: seq<Event>, events: seq<Event>)
    requires Normal(s.cfg) && s.cfg.adaptive && s.times == []
    requires SlowEvents(slow, Interval(s.cfg.fps)) && |Elapsed(slow)| >= WINDOW
    requires SlowEvents(events, Interval(s.cfg.fps))
    ensures var t := Run(s, history + slow);
      Run(s, history + slow + events).cfg.quality == Max(s.cfg.minQuality, t.cfg.quality - 5 * Evaluations(events))
  {
    AfterThirtySlow(s, history, slow);
    SlowAfter(s, history + slow, events);
  }

  lemma SlowFromRun(s: StreamState, before: seq<Event>, events: seq<Event>)
    requires s.cfg.fps > 0 && s.cfg.adaptive && SlowEvents(events, Interval(s.cfg.fps))
    requires SlowNow(Run(s, before), Interval(s.cfg.fps))
    ensures Run(Run(s, before), events).cfg.quality
            == Max(s.cfg.minQuality, Run(s, before).cfg.quality - 5 * Evaluations(events))
  {
    RunKeepsConfig(s, before);
    SlowFrom(Run(s, before), events, s.cfg.minQuality, Interval(s.cfg.fps));
  }

  lemma SlowAfter(s: StreamState, before: seq<Event>, events: seq<Event>)
    requires s.cfg.fps > 0 && s.cfg.adaptive && SlowEvents(events, Interval(s.cfg.fps))
    requires SlowNow(Run(s, before), Interval(s.cfg.fps))
    ensures Run(s, before + events).cfg.quality
            == Max(s.cfg.minQuality, Run(s, before).cfg.quality - 5 * Evaluations(events))
  {
    SlowFromRun(s, before, events);
    RunConcat(s, before, events);
  }

  /** A state whose window holds only slow frames. */
  ghost predicate SlowNow(t: StreamState, budget: nat) {
    Normal(t.cfg) && t.times != [] && AllOver(t.times, 85, budget)
  }

  lemma RunKeepsConfig(s: StreamState, events: seq<Event>)
    requires s.cfg.fps > 0
    ensures var c := Run(s, events).cfg;
      c.fps == s.cfg.fps && c.adaptive == s.cfg.adaptive && c.minQuality == s.cfg.minQuality
  {
  }

  lemma SlowFrom(t: StreamState, events: seq<Event>, least: int, budget: nat)
    requires SlowNow(t, budget) && t.cfg.adaptive && SlowEvents(events, budget)
    requires least == t.cfg.minQuality && budget == Interval(t.cfg.fps)
    ensures Run(t, events).cfg.quality == Max(least, t.cfg.quality - 5 * Evaluations(events))
  {
    SlowFramesLowerQuality(t, events);
  }

  // ---- What an evaluation does ----

  /** A total of durations: it adds up over parts, and one duration totals itself. */
  ghost predicate IsTotal(total: seq<nat> -> nat) {
    && (forall a, b :: total(a + b) == total(a) + total(b))
    && (forall d :: total([d]) == d)
  }

  lemma {:induction false} SumIsTheTotal(times: seq<nat>, total: seq<nat> -> nat)
    requires IsTotal(total)
    ensures Sum(times) == total(times)
  {
    if times == [] {
      assert total([] + []) == total([]) + total([]);
      assert [] + [] == times;
    } else {
      var n := |times| - 1;
      SumIsTheTotal(times[..n], total);
      assert times == times[..n] + [times[n]];
    }
  }

  lemma QuotientIs(total: nat, n: nat, a: nat)
    requires n > 0 && a * n <= total < (a + 1) * n
    ensures total / n == a
  {
    var q := total / n;
    assert total == q * n + total % n;
    assert q * n <= total < (q + 1) * n;
    Cancel(a, q + 1, n);
    Cancel(q, a + 1, n);
  }

  /** The quality moved by `step` and brought between its bounds. */
  predicate MovedBy(c: Config, step: int, quality: int) {
    var q := c.quality + step;
    && (q < c.minQuality ==> quality == c.minQuality)
    && (c.minQuality <= q <= c.maxQuality ==> quality == q)
    && (q > c.maxQuality ==> quality == c.maxQuality)
  }

  /**
   Let a be the whole part of the window's average and b that of a second divided by the
   frame rate. An evaluation lowers the quality by 5 if a is over 85% of b; otherwise, below
   the maximum, it raises it by 5 if a is under 40% of b and by 2 if it is under 60%.
   */
  lemma EvaluationMeaning(s: StreamState, e: Event, total: seq<nat> -> nat, a: nat, b: nat)
    requires IsTotal(total) && s.cfg.fps > 0 && s.cfg.minQuality <= s.cfg.maxQuality
    requires s.cfg.adaptive && s.times != [] && !e.CaptureFailed?
    requires a * |s.times| <= total(s.times) < (a + 1) * |s.times|
    requires b * s.cfg.fps <= 1_000_000_000 < (b + 1) * s.cfg.fps
    ensures var c := s.cfg;
      MovedBy(c,
              if 100 * a > 85 * b then -5
              else if c.quality >= c.maxQuality then 0
              else if 100 * a < 40 * b then 5
              else if 100 * a < 60 * b then 2
              else 0,
              Step(s, e).cfg.quality)
  {
    SumIsTheTotal(s.times, total);
    QuotientIs(Sum(s.times), |s.times|, a);
    QuotientIs(1_000_000_000, s.cfg.fps, b);
  }

  /** Without adaptive quality, or before the first frame, and for a failed capture, the quality stays. */
  lemma NoEvaluation(s: StreamState, e: Event)
    requires s.cfg.fps > 0 && (!s.cfg.adaptive || s.times == [] || e.CaptureFailed?)
    ensures Step(s, e).cfg == s.cfg
  {
  }

  lemma {:induction false} SumParts(a: seq<nat>, b: seq<nat>)
    ensures Sum(a + b) == Sum(a) + Sum(b)
  {
    if b == [] {
      assert a + b == a;
    } else {
      var n := |b| - 1;
      assert (a + b)[..|a + b| - 1] == a + b[..n];
      SumParts(a, b[..n]);
    }
  }

  lemma {:induction false} SumOfSameFrames(a: seq<nat>, b: seq<nat>)
    requires multiset(a) == multiset(b)
    ensures Sum(a) == Sum(b) && |a| == |b|
    decreases |a|
  {
    assert |multiset(a)| == |a| && |multiset(b)| == |b|;
    if a != [] {
      var n := |a| - 1;
      assert a == a[..n] + [a[n]];
      assert a[n] in multiset(b);
      var i :| 0 <= i < |b| && b[i] == a[n];
      var rest := b[..i] + b[i + 1..];
      assert b == b[..i] + ([b[i]] + b[i + 1..]);
      assert multiset(rest) == multiset(b) - multiset{b[i]} == multiset(a[..n]);
      SumOfSameFrames(a[..n], rest);
      SumParts(b[..i], [b[i]] + b[i + 1..]);
      SumParts([b[i]], b[i + 1..]);
      SumParts(b[..i], b[i + 1..]);
      assert [b[i]][..0] == [];
    }
  }

  lemma SumIsATotal() returns (total: seq<nat> -> nat)
    ensures IsTotal(total)
  {
    total := (times: seq<nat>) => Sum(times);
    forall a: seq<nat>, b: seq<nat> ensures Sum(a + b) == Sum(a) + Sum(b) {
      SumParts(a, b);
    }
    forall d: nat ensures Sum([d]) == d {
      assert [d][..0] == [];
    }
  }

  /** Windows with the same frame times, in whatever order, give the same quality. */
  lemma OrderDoesNotMatter(s: StreamState, times: seq<nat>, e: Event)
    requires s.cfg.fps > 0 && multiset(times) == multiset(s.times)
    ensures Step(s.(times := times), e).cfg == Step(s, e).cfg
  {
    SumOfSameFrames(times, s.times);
  }

  /**
   What a new streamer makes of its configuration: values given are kept where they agree,
   and the defaults are 15, 60, 20 and 90.
   */
  lemma NormalizeMeaning(c: Config)
    ensures var n := Normalize(c);
      && (c.fps > 0 ==> n.fps == c.fps) && (c.fps <= 0 ==> n.fps == 15)
      && (c.minQuality > 0 ==> n.minQuality == c.minQuality) && (c.minQuality <= 0 ==> n.minQuality == 20)
      && (c.maxQuality >= n.minQuality ==> n.maxQuality == c.maxQuality)
      && (0 < c.maxQuality < n.minQuality ==> n.maxQuality == n.minQuality + 10)
      && (c.maxQuality <= 0 ==> n.maxQuality == if n.minQuality <= 90 then 90 else n.minQuality + 10)
      && MovedBy(n.(quality := if c.quality > 0 then c.quality else 60), 0, n.quality)
      && n.adaptive == c.adaptive && n.maxWidth == c.maxWidth && n.maxHeight == c.maxHeight
  {
  }
}
