/**
 The reconnect loops of one engine as a machine of interleaved steps: any number of loops,
 the connected handler and callers of Close, each lock region or callback one step.
 A stop is handed over to a loop that is parked in its wait at that moment, if there is one,
 and lost otherwise.
 */
module ReconnectModel {
  import opened Options
  import opened Numbers

  /** Durations in any unit; `maxAttempts` is positive, so the loop is bounded. */
  datatype Config = Config(initial: nat, maxBackoff: nat, maxAttempts: nat)

  datatype Ending = AlreadyRunning | Recovered | Stopped | GaveUp

  /** `Pausing` is past a failed attempt and about to wait; `Waiting` is parked in the wait. */
  datatype Place =
    | Entering
    | Ready
    | Trying
    | Pausing
    | Waiting
    | Leaving(end: Ending)
    | Reporting
    | Closing
    | Done(end: Ending)

  /** One loop: where it is, its variables, and what it has done so far. */
  datatype Loop = Loop(at: Place, attempt: nat, backoff: nat, starts: seq<nat>, waits: seq<nat>, failures: nat)

  datatype Engine = Engine(closed: bool, restarting: bool, loops: seq<Loop>, successCalls: nat, failedCalls: seq<nat>)

  datatype Event =
    | Launch
    | Enter(i: nat)
    | Begin(i: nat)
    | Offer(i: nat, sent: bool)
    | Park(i: nat)
    | Elapse(i: nat)
    | Leave(i: nat)
    | Report(i: nat)
    | CloseOwn(i: nat, to: Option<nat>)
    | Connected(to: Option<nat>)
    | CloseCall(to: Option<nat>)

  function NewLoop(c: Config): Loop {
    Loop(Entering, 0, c.initial, [], [], 0)
  }

  function Next(c: Config, backoff: nat): nat {
    if backoff * 2 > c.maxBackoff then c.maxBackoff else backoff * 2
  }

  // ---- One loop's steps ----

  function Entered(l: Loop, restarting: bool): Loop {
    l.(at := if restarting then Done(AlreadyRunning) else Ready)
  }

  function Begun(l: Loop): Loop {
    l.(at := Trying, attempt := l.attempt + 1, starts := l.starts + [l.attempt + 1])
  }

  function Tried(c: Config, l: Loop, ok: bool): Loop {
    if ok then l.(at := Leaving(Recovered))
    else l.(at := if l.attempt >= c.maxAttempts then Leaving(GaveUp) else Pausing, failures := l.failures + 1)
  }

  function Parked(l: Loop): Loop {
    l.(at := Waiting)
  }

  function Waited(c: Config, l: Loop): Loop {
    l.(at := Ready, waits := l.waits + [l.backoff], backoff := Next(c, l.backoff))
  }

  function Left(l: Loop): Loop
    requires l.at.Leaving?
  {
    l.(at := if l.at.end == GaveUp then Reporting else Done(l.at.end))
  }

  function StopLoop(l: Loop): Loop {
    l.(at := Leaving(Stopped))
  }

  // ---- The engine's steps ----

  predicate At(e: Engine, i: nat, place: Place) {
    i < |e.loops| && e.loops[i].at == place
  }

  /** A stop that is sent goes to a parked loop, and to none only if none is parked. */
  predicate Receives(e: Engine, to: Option<nat>) {
    match to
    case Some(i) => At(e, i, Waiting)
    case None => forall i | 0 <= i < |e.loops| :: e.loops[i].at != Waiting
  }

  /** A stop is sent only while the flag is set. */
  predicate Stops(e: Engine, to: Option<nat>) {
    if e.restarting then Receives(e, to) else to == None
  }

  /** `sent` says whether the new offer went out; a closed engine never gets that far. */
  predicate Enabled(e: Engine, v: Event) {
    match v
    case Launch => true
    case Enter(i) => At(e, i, Entering)
    case Begin(i) => At(e, i, Ready)
    case Offer(i, sent) => At(e, i, Trying) && (e.closed ==> !sent)
    case Park(i) => At(e, i, Pausing)
    case Elapse(i) => At(e, i, Waiting)
    case Leave(i) => i < |e.loops| && e.loops[i].at.Leaving?
    case Report(i) => At(e, i, Reporting)
    case CloseOwn(i, to) => At(e, i, Closing) && (if e.closed then to == None else Stops(e, to))
    case Connected(to) => Stops(e, to)
    case CloseCall(to) => if e.closed then to == None else Stops(e, to)
  }

  function Deliver(loops: seq<Loop>, to: Option<nat>): seq<Loop>
    requires to.Some? ==> to.value < |loops|
  {
    if to.Some? then loops[to.value := StopLoop(loops[to.value])] else loops
  }

  function CloseEngine(e: Engine, to: Option<nat>): Engine
    requires to.Some? ==> to.value < |e.loops|
  {
    if e.closed then e else e.(closed := true, restarting := false, loops := Deliver(e.loops, to))
  }

  function SetLoop(e: Engine, i: nat, l: Loop): Engine
    requires i < |e.loops|
  {
    e.(loops := e.loops[i := l])
  }

  function Step(c: Config, e: Engine, v: Event): Engine
    requires Enabled(e, v)
  {
    match v
    case Launch => e.(loops := e.loops + [NewLoop(c)])
    case Enter(i) => SetLoop(e.(restarting := true), i, Entered(e.loops[i], e.restarting))
    case Begin(i) => SetLoop(e, i, Begun(e.loops[i]))
    case Offer(i, sent) => SetLoop(e, i, Tried(c, e.loops[i], sent))
    case Park(i) => SetLoop(e, i, Parked(e.loops[i]))
    case Elapse(i) => SetLoop(e, i, Waited(c, e.loops[i]))
    case Leave(i) => SetLoop(e.(restarting := false), i, Left(e.loops[i]))
    case Report(i) => SetLoop(e.(failedCalls := e.failedCalls + [i]), i, e.loops[i].(at := Closing))
    case CloseOwn(i, to) =>
      var after := CloseEngine(e, to);
      SetLoop(after, i, after.loops[i].(at := Done(GaveUp)))
    case Connected(to) =>
      if !e.restarting then e
      else e.(restarting := false, loops := Deliver(e.loops, to), successCalls := e.successCalls + 1)
    case CloseCall(to) => CloseEngine(e, to)
  }

  const INITIAL := Engine(false, false, [], 0, [])

  ghost predicate IsRun(c: Config, e: Engine, run: seq<Event>)
    decreases |run|
  {
    run == [] || (Enabled(e, run[0]) && IsRun(c, Step(c, e, run[0]), run[1..]))
  }

  function After(c: Config, e: Engine, run: seq<Event>): Engine
    requires IsRun(c, e, run)
    decreases |run|
  {
    if run == [] then e else After(c, Step(c, e, run[0]), run[1..])
  }

  // ---- Backoff ----

  function Power2(k: nat): (p: nat)
    ensures p >= 1
  {
    if k == 0 then 1 else 2 * Power2(k - 1)
  }

  /** The wait after failed attempt k + 1: doubling from the first, capped from the second on. */
  function Wait(c: Config, k: nat): nat {
    if k == 0 then c.initial else Min(c.initial * Power2(k), c.maxBackoff)
  }

  lemma NextWait(c: Config, k: nat)
    ensures Next(c, Wait(c, k)) == Wait(c, k + 1)
  {
    var p := c.initial * Power2(k);
    assert c.initial * Power2(k + 1) == 2 * p by {
      assert Power2(k + 1) == 2 * Power2(k);
    }
    assert k == 0 ==> p == c.initial by {
      assert Power2(0) == 1;
    }
  }

  /** The first wait is not capped, so every wait is the capped doubling exactly when the first is within the cap. */
  lemma CappedFromTheStart(c: Config)
    ensures (forall k: nat :: Wait(c, k) == Min(c.initial * Power2(k), c.maxBackoff)) <==> c.initial <= c.maxBackoff
  {
    assert Power2(0) == 1;
    assert Wait(c, 0) == c.initial;
    if c.initial > c.maxBackoff {
      assert Wait(c, 0) != Min(c.initial * Power2(0), c.maxBackoff);
    }
  }

  function TotalWait(c: Config, n: nat): nat {
    if n == 0 then 0 else TotalWait(c, n - 1) + Wait(c, n - 1)
  }

  lemma Telescopes(a: nat, p: nat)
    requires p >= 1
    ensures a * (p - 1) + a * p == a * (2 * p - 1)
  {
  }

  /** While no wait has reached the cap, n waits add up to initial * (2^n - 1). */
  lemma {:induction false} TotalWhileDoubling(c: Config, n: nat)
    requires n == 0 || c.initial * Power2(n - 1) <= c.maxBackoff
    ensures TotalWait(c, n) == c.initial * (Power2(n) - 1)
  {
    if n == 0 {
      assert Power2(0) == 1;
    } else {
      if n == 1 {
        assert Power2(0) == 1;
      } else {
        Halved(c.initial, Power2(n - 2), c.maxBackoff);
      }
      TotalWhileDoubling(c, n - 1);
      Telescopes(c.initial, Power2(n - 1));
    }
  }

  lemma Halved(a: nat, p: nat, bound: nat)
    requires a * (2 * p) <= bound
    ensures a * p <= bound
  {
    assert a * (2 * p) == 2 * (a * p);
  }

  /** Once wait j has reached the cap, every later wait adds exactly the cap. */
  lemma {:induction false} TotalOnceCapped(c: Config, j: nat, n: nat)
    requires 1 <= j <= n && c.initial * Power2(j) >= c.maxBackoff
    ensures TotalWait(c, n) == TotalWait(c, j) + (n - j) * c.maxBackoff
  {
    if n > j {
      TotalOnceCapped(c, j, n - 1);
      WaitCapped(c, j, n - 1);
      OneMore(n - j, c.maxBackoff);
    }
  }

  lemma OneMore(k: nat, cap: nat)
    requires k > 0
    ensures k * cap == (k - 1) * cap + cap
  {
  }

  lemma WaitCapped(c: Config, j: nat, n: nat)
    requires 1 <= j <= n && c.initial * Power2(j) >= c.maxBackoff
    ensures Wait(c, n) == c.maxBackoff
  {
    StillCapped(c, j, n);
  }

  lemma {:induction false} StillCapped(c: Config, j: nat, n: nat)
    requires j <= n && c.initial * Power2(j) >= c.maxBackoff
    ensures c.initial * Power2(n) >= c.maxBackoff
  {
    if n > j {
      StillCapped(c, j, n - 1);
      assert Power2(n) == 2 * Power2(n - 1);
      assert c.initial * (2 * Power2(n - 1)) == 2 * (c.initial * Power2(n - 1));
    }
  }

  /** So n waits, the first j of them below the cap and the others at it, have a closed form. */
  lemma TotalInClosedForm(c: Config, j: nat, n: nat)
    requires 1 <= j <= n
    requires c.initial * Power2(j - 1) <= c.maxBackoff <= c.initial * Power2(j)
    ensures TotalWait(c, n) == c.initial * (Power2(j) - 1) + (n - j) * c.maxBackoff
  {
    TotalWhileDoubling(c, j);
    TotalOnceCapped(c, j, n);
  }

  function Sum(s: seq<nat>): nat {
    if s == [] then 0 else Sum(s[..|s| - 1]) + s[|s| - 1]
  }

  lemma {:induction false} SumOfWaits(c: Config, waits: seq<nat>)
    requires forall k | 0 <= k < |waits| :: waits[k] == Wait(c, k)
    ensures Sum(waits) == TotalWait(c, |waits|)
  {
    if waits != [] {
      SumOfWaits(c, waits[..|waits| - 1]);
    }
  }

  // ---- What every loop keeps ----

  /** How many attempts, failures and waits a loop at this place has behind it. */
  predicate Tally(c: Config, l: Loop) {
    match l.at
    case Entering => l.attempt == 0 && l.failures == 0 && l.waits == []
    case Ready => l.attempt < c.maxAttempts && l.failures == l.attempt == |l.waits|
    case Trying => l.attempt >= 1 && l.failures == l.attempt - 1 == |l.waits|
    case Pausing => Ended(c, l, Stopped)
    case Waiting => Ended(c, l, Stopped)
    case Leaving(end) => Ended(c, l, end) && end != AlreadyRunning
    case Reporting => Ended(c, l, GaveUp)
    case Closing => Ended(c, l, GaveUp)
    case Done(end) => Ended(c, l, end)
  }

  predicate Ended(c: Config, l: Loop, end: Ending) {
    match end
    case AlreadyRunning => l.attempt == 0 && l.failures == 0 && l.waits == []
    case Recovered => l.attempt >= 1 && l.failures == l.attempt - 1 == |l.waits|
    case Stopped => 1 <= l.attempt < c.maxAttempts && l.failures == l.attempt && |l.waits| == l.attempt - 1
    case GaveUp => l.attempt == c.maxAttempts == l.failures && |l.waits| == c.maxAttempts - 1
  }

  ghost predicate LoopOk(c: Config, l: Loop) {
    && l.attempt <= c.maxAttempts
    && Numbered(l.starts, l.attempt)
    && BackedOff(c, l.waits, l.backoff)
    && Tally(c, l)
  }

  /** The attempts were announced as 1, 2, .. n. */
  ghost predicate Numbered(starts: seq<nat>, n: nat) {
    |starts| == n && forall k | 0 <= k < |starts| :: starts[k] == k + 1
  }

  /** The waits so far and the one to come are the capped doublings. */
  ghost predicate BackedOff(c: Config, waits: seq<nat>, backoff: nat) {
    && (forall k | 0 <= k < |waits| :: waits[k] == Wait(c, k))
    && backoff == Wait(c, |waits|)
  }

  lemma NewLoopOk(c: Config)
    requires c.maxAttempts > 0
    ensures LoopOk(c, NewLoop(c))
  {
  }

  lemma NextStart(starts: seq<nat>, n: nat)
    requires Numbered(starts, n)
    ensures Numbered(starts + [n + 1], n + 1)
  {
  }

  lemma NextBackoff(c: Config, waits: seq<nat>, backoff: nat)
    requires BackedOff(c, waits, backoff)
    ensures BackedOff(c, waits + [backoff], Next(c, backoff))
  {
    NextWait(c, |waits|);
  }

  lemma BegunOk(c: Config, l: Loop)
    requires LoopOk(c, l) && l.at == Ready
    ensures LoopOk(c, Begun(l))
  {
    NextStart(l.starts, l.attempt);
  }

  lemma WaitedOk(c: Config, l: Loop)
    requires LoopOk(c, l) && l.at == Waiting
    ensures LoopOk(c, Waited(c, l))
  {
    NextBackoff(c, l.waits, l.backoff);
  }

  lemma TriedOk(c: Config, l: Loop, ok: bool)
    requires LoopOk(c, l) && l.at == Trying
    ensures LoopOk(c, Tried(c, l, ok))
  {
  }

  lemma LoopStepsOk(c: Config, l: Loop)
    requires c.maxAttempts > 0 && LoopOk(c, l)
    ensures l.at == Entering ==> LoopOk(c, Entered(l, true)) && LoopOk(c, Entered(l, false))
    ensures l.at == Ready ==> LoopOk(c, Begun(l))
    ensures l.at == Trying ==> LoopOk(c, Tried(c, l, true)) && LoopOk(c, Tried(c, l, false))
    ensures l.at == Pausing ==> LoopOk(c, Parked(l))
    ensures l.at == Waiting ==> LoopOk(c, Waited(c, l)) && LoopOk(c, StopLoop(l))
    ensures l.at.Leaving? ==> LoopOk(c, Left(l))
    ensures l.at == Reporting ==> LoopOk(c, l.(at := Closing))
    ensures l.at == Closing ==> LoopOk(c, l.(at := Done(GaveUp)))
  {
    if l.at == Ready {
      BegunOk(c, l);
    }
    if l.at == Trying {
      TriedOk(c, l, true);
      TriedOk(c, l, false);
    }
    if l.at == Waiting {
      WaitedOk(c, l);
    }
  }

  ghost predicate Reported(l: Loop) {
    l.at == Closing || l.at == Done(GaveUp)
  }

  /**
   Every loop is in order; the failure callbacks are those of the loops that gave up, once each;
   giving up leaves the engine closed.
   */
  ghost predicate Inv(c: Config, e: Engine) {
    && AllOk(c, e.loops)
    && (forall i | 0 <= i < |e.loops| :: e.loops[i].at == Done(GaveUp) ==> e.closed)
    && CallsMatch(e.loops, e.failedCalls)
  }

  ghost predicate AllOk(c: Config, loops: seq<Loop>) {
    forall i | 0 <= i < |loops| :: LoopOk(c, loops[i])
  }

  ghost predicate CallsMatch(loops: seq<Loop>, calls: seq<nat>) {
    && (forall k | 0 <= k < |calls| :: calls[k] < |loops| && Reported(loops[calls[k]]))
    && (forall i: nat | i < |loops| && Reported(loops[i]) :: i in calls)
    && (forall j, k | 0 <= j < k < |calls| :: calls[j] != calls[k])
  }

  lemma DeliverKeeps(c: Config, e: Engine, to: Option<nat>)
    requires AllOk(c, e.loops) && CallsMatch(e.loops, e.failedCalls) && (to.Some? ==> Receives(e, to))
    ensures var loops := Deliver(e.loops, to);
      AllOk(c, loops) && CallsMatch(loops, e.failedCalls)
  {
    if to.Some? {
      StopOk(c, e.loops[to.value]);
    }
  }

  lemma StopOk(c: Config, l: Loop)
    requires LoopOk(c, l) && l.at == Waiting
    ensures LoopOk(c, StopLoop(l))
  {
  }

  lemma SetKeeps(c: Config, loops: seq<Loop>, calls: seq<nat>, i: nat, l: Loop)
    requires AllOk(c, loops) && CallsMatch(loops, calls) && i < |loops| && LoopOk(c, l)
    requires Reported(l) <==> Reported(loops[i])
    ensures AllOk(c, loops[i := l]) && CallsMatch(loops[i := l], calls)
  {
  }

  lemma ReportKeeps(c: Config, loops: seq<Loop>, calls: seq<nat>, i: nat, l: Loop)
    requires AllOk(c, loops) && CallsMatch(loops, calls) && i < |loops| && LoopOk(c, l)
    requires Reported(l) && !Reported(loops[i])
    ensures AllOk(c, loops[i := l]) && CallsMatch(loops[i := l], calls + [i])
  {
  }

  lemma LaunchKeeps(c: Config, loops: seq<Loop>, calls: seq<nat>)
    requires c.maxAttempts > 0 && AllOk(c, loops) && CallsMatch(loops, calls)
    ensures AllOk(c, loops + [NewLoop(c)]) && CallsMatch(loops + [NewLoop(c)], calls)
  {
    NewLoopOk(c);
  }

  lemma SetInv(c: Config, e: Engine, f: Engine, i: nat, l: Loop)
    requires Inv(c, e) && i < |e.loops| && LoopOk(c, l) && !Reported(l) && !Reported(e.loops[i])
    requires f.loops == e.loops[i := l] && f.closed == e.closed && f.failedCalls == e.failedCalls
    ensures Inv(c, f)
  {
    SetKeeps(c, e.loops, e.failedCalls, i, l);
  }

  /** A loop's own steps, up to the point where it reports. */
  lemma OwnStepInv(c: Config, e: Engine, v: Event)
    requires c.maxAttempts > 0 && Inv(c, e) && Enabled(e, v)
    requires v.Enter? || v.Begin? || v.Offer? || v.Park? || v.Elapse? || v.Leave?
    ensures Inv(c, Step(c, e, v))
  {
    var i := v.i;
    LoopStepsOk(c, e.loops[i]);
    SetInv(c, e, Step(c, e, v), i, Step(c, e, v).loops[i]);
  }

  lemma CloseOwnInv(c: Config, e: Engine, i: nat, to: Option<nat>)
    requires c.maxAttempts > 0 && Inv(c, e) && Enabled(e, CloseOwn(i, to))
    ensures Inv(c, Step(c, e, CloseOwn(i, to)))
  {
    LoopStepsOk(c, e.loops[i]);
    DeliverKeeps(c, e, to);
    var after := CloseEngine(e, to);
    SetKeeps(c, after.loops, after.failedCalls, i, e.loops[i].(at := Done(GaveUp)));
  }

  lemma StepInv(c: Config, e: Engine, v: Event)
    requires c.maxAttempts > 0 && Inv(c, e) && Enabled(e, v)
    ensures Inv(c, Step(c, e, v))
  {
    match v
    case Launch => LaunchKeeps(c, e.loops, e.failedCalls);
    case Connected(to) => DeliverKeeps(c, e, to);
    case CloseCall(to) => DeliverKeeps(c, e, to);
    case Report(i) =>
      LoopStepsOk(c, e.loops[i]);
      ReportKeeps(c, e.loops, e.failedCalls, i, e.loops[i].(at := Closing));
    case CloseOwn(i, to) => CloseOwnInv(c, e, i, to);
    case _ => OwnStepInv(c, e, v);
  }

  lemma {:induction false} RunInv(c: Config, e: Engine, run: seq<Event>)
    requires c.maxAttempts > 0 && Inv(c, e) && IsRun(c, e, run)
    ensures Inv(c, After(c, e, run))
    decreases |run|
  {
    if run != [] {
      StepInv(c, e, run[0]);
      RunInv(c, Step(c, e, run[0]), run[1..]);
    }
  }

  lemma InitialInv(c: Config)
    ensures Inv(c, INITIAL)
  {
  }

  /**
   In every interleaving, every loop announces its attempts as 1, 2, .. up to at most
   MaxAttempts, and has waited the capped doublings, all but the last failure once each.
   */
  lemma EveryLoopBacksOff(c: Config, run: seq<Event>, i: nat)
    requires c.maxAttempts > 0 && IsRun(c, INITIAL, run) && i < |After(c, INITIAL, run).loops|
    ensures var l := After(c, INITIAL, run).loops[i];
      && Numbered(l.starts, l.attempt) && l.attempt <= c.maxAttempts
      && |l.waits| <= c.maxAttempts - 1
      && (forall k | 0 <= k < |l.waits| :: l.waits[k] == Wait(c, k))
      && Sum(l.waits) == TotalWait(c, |l.waits|)
  {
    InitialInv(c);
    RunInv(c, INITIAL, run);
    SumOfWaits(c, After(c, INITIAL, run).loops[i].waits);
  }

  /**
   In every interleaving, the failure callback was made exactly once by each loop that gave
   up and by no other; such a loop failed all MaxAttempts attempts, was never stopped, and
   leaves the engine closed.
   */
  lemma FailureIsReportedOnce(c: Config, run: seq<Event>, i: nat)
    requires c.maxAttempts > 0 && IsRun(c, INITIAL, run) && i < |After(c, INITIAL, run).loops|
    ensures var e := After(c, INITIAL, run);
      var l := e.loops[i];
      && multiset(e.failedCalls)[i] == (if Reported(l) then 1 else 0)
      && (Reported(l) ==> Numbered(l.starts, c.maxAttempts) && l.failures == c.maxAttempts)
      && (l.at == Done(GaveUp) ==> e.closed)
      && (l.at == Done(Stopped) || l.at == Done(Recovered) || l.at == Done(AlreadyRunning) ==> i !in e.failedCalls)
  {
    InitialInv(c);
    RunInv(c, INITIAL, run);
    var e := After(c, INITIAL, run);
    OnceInList(e.failedCalls, i);
  }

  lemma {:induction false} OnceInList(s: seq<nat>, x: nat)
    requires forall j, k | 0 <= j < k < |s| :: s[j] != s[k]
    ensures multiset(s)[x] == (if x in s then 1 else 0)
  {
    if s != [] {
      var n := |s| - 1;
      assert s == s[..n] + [s[n]];
      OnceInList(s[..n], x);
    }
  }

  // ---- Termination ----

  function Owner(v: Event): Option<nat> {
    if v.Launch? || v.Connected? || v.CloseCall? then None else Some(v.i)
  }

  /** The steps of its own that a loop can still take. */
  function Fuel(c: Config, l: Loop): int {
    var left := 4 * (c.maxAttempts - l.attempt);
    match l.at
    case Entering => left + 2
    case Ready => left + 1
    case Trying => left + 4
    case Pausing => left + 3
    case Waiting => left + 2
    case Leaving(_) => 3
    case Reporting => 2
    case Closing => 1
    case Done(_) => 0
  }

  function FuelAt(c: Config, e: Engine, i: nat): int {
    if i < |e.loops| then Fuel(c, e.loops[i]) else 4 * c.maxAttempts + 2
  }

  function OwnSteps(run: seq<Event>, i: nat): nat {
    if run == [] then 0 else (if Owner(run[0]) == Some(i) then 1 else 0) + OwnSteps(run[1..], i)
  }

  lemma StepBurnsFuel(c: Config, e: Engine, v: Event, i: nat)
    requires Enabled(e, v)
    requires i < |e.loops| ==> e.loops[i].attempt <= c.maxAttempts && Tally(c, e.loops[i])
    ensures FuelAt(c, Step(c, e, v), i) + (if Owner(v) == Some(i) then 1 else 0) <= FuelAt(c, e, i)
  {
  }

  lemma {:induction false} RunBurnsFuel(c: Config, e: Engine, run: seq<Event>, i: nat)
    requires c.maxAttempts > 0 && Inv(c, e) && IsRun(c, e, run)
    ensures FuelAt(c, After(c, e, run), i) + OwnSteps(run, i) <= FuelAt(c, e, i)
    decreases |run|
  {
    if run != [] {
      StepInv(c, e, run[0]);
      assert i < |e.loops| ==> LoopOk(c, e.loops[i]);
      StepBurnsFuel(c, e, run[0], i);
      RunBurnsFuel(c, Step(c, e, run[0]), run[1..], i);
    }
  }

  /** Whatever the other loops and callers do, a loop takes at most 4 * MaxAttempts + 2 steps. */
  lemma EveryLoopTerminates(c: Config, run: seq<Event>, i: nat)
    requires c.maxAttempts > 0 && IsRun(c, INITIAL, run)
    ensures OwnSteps(run, i) <= 4 * c.maxAttempts + 2
  {
    InitialInv(c);
    RunInv(c, INITIAL, run);
    RunBurnsFuel(c, INITIAL, run, i);
    var e := After(c, INITIAL, run);
    if i < |e.loops| {
      assert LoopOk(c, e.loops[i]);
    }
  }

  /** Whoever hears a stop. */
  lemma Hearer(e: Engine) returns (to: Option<nat>)
    ensures Receives(e, to)
  {
    to := None;
    if !Receives(e, None) {
      var i: nat :| i < |e.loops| && e.loops[i].at == Waiting;
      to := Some(i);
    }
  }

  /** And it is never stuck: until it is done, it always has a step to take. */
  lemma NeverStuck(c: Config, e: Engine, i: nat) returns (v: Event)
    requires i < |e.loops| && !e.loops[i].at.Done?
    ensures Owner(v) == Some(i) && Enabled(e, v)
  {
    match e.loops[i].at
    case Entering => v := Enter(i);
    case Ready => v := Begin(i);
    case Trying => v := Offer(i, false);
    case Pausing => v := Park(i);
    case Waiting => v := Elapse(i);
    case Leaving(_) => v := Leave(i);
    case Reporting => v := Report(i);
    case Closing =>
      var to := Hearer(e);
      v := CloseOwn(i, if e.closed || !e.restarting then None else to);
  }

  // ---- Close ----

  predicate Recovering(l: Loop) {
    l.at == Leaving(Recovered) || l.at == Done(Recovered)
  }

  /** Once the engine is closed it stays closed and no loop recovers that had not already. */
  lemma {:induction false} ClosedNeverRecovers(c: Config, e: Engine, run: seq<Event>, i: nat)
    requires e.closed && IsRun(c, e, run)
    requires i < |After(c, e, run).loops| && Recovering(After(c, e, run).loops[i])
    ensures After(c, e, run).closed && i < |e.loops| && Recovering(e.loops[i])
    decreases |run|
  {
    if run != [] {
      var v := run[0];
      ClosedNeverRecovers(c, Step(c, e, v), run[1..], i);
    }
  }

  // ---- One loop at a time ----

  predicate Active(l: Loop) {
    l.at == Ready || l.at == Trying || l.at == Pausing || l.at == Waiting || l.at.Leaving?
  }

  ghost predicate NoneActive(e: Engine) {
    forall i | 0 <= i < |e.loops| :: !Active(e.loops[i])
  }

  ghost predicate Exclusive(e: Engine) {
    forall i, j | 0 <= i < j < |e.loops| && Active(e.loops[i]) :: !Active(e.loops[j])
  }

  /** At most one loop is active, and the flag says so. */
  ghost predicate Guarded(e: Engine) {
    Exclusive(e) && (e.restarting || NoneActive(e))
  }

  /** The steps, other than a loop's own leaving, that clear the flag. */
  predicate Frees(e: Engine, v: Event) {
    (v.Connected? && e.restarting) || ((v.CloseCall? || v.CloseOwn?) && !e.closed)
  }

  lemma FreedIsUnguarded(c: Config, e: Engine, v: Event, i: nat)
    requires Enabled(e, v) && Frees(e, v) && i < |e.loops| && Active(e.loops[i])
    ensures i < |Step(c, e, v).loops| && Active(Step(c, e, v).loops[i]) && !Step(c, e, v).restarting
  {
  }

  /** A step keeps the guard if and only if it does not clear the flag under a loop at work. */
  lemma StepGuardedIff(c: Config, e: Engine, v: Event)
    requires Guarded(e) && Enabled(e, v)
    ensures Guarded(Step(c, e, v)) <==> (Frees(e, v) ==> NoneActive(e))
  {
    if Frees(e, v) && !NoneActive(e) {
      var i: nat :| i < |e.loops| && Active(e.loops[i]);
      FreedIsUnguarded(c, e, v, i);
    }
  }

  ghost predicate AlwaysGuarded(c: Config, e: Engine, run: seq<Event>)
    requires IsRun(c, e, run)
    decreases |run|
  {
    Guarded(e) && (run == [] || AlwaysGuarded(c, Step(c, e, run[0]), run[1..]))
  }

  /** No step of the run clears the flag while a loop is active. */
  ghost predicate NeverFreedAtWork(c: Config, e: Engine, run: seq<Event>)
    requires IsRun(c, e, run)
    decreases |run|
  {
    run == [] || ((Frees(e, run[0]) ==> NoneActive(e)) && NeverFreedAtWork(c, Step(c, e, run[0]), run[1..]))
  }

  /** So the guard holds all along a run if and only if no step of it clears the flag while a loop is active. */
  lemma {:induction false} AlwaysGuardedIff(c: Config, e: Engine, run: seq<Event>)
    requires Guarded(e) && IsRun(c, e, run)
    ensures AlwaysGuarded(c, e, run) <==> NeverFreedAtWork(c, e, run)
    decreases |run|
  {
    if run != [] {
      StepGuardedIff(c, e, run[0]);
      if Guarded(Step(c, e, run[0])) {
        AlwaysGuardedIff(c, Step(c, e, run[0]), run[1..]);
      } else {
        assert !AlwaysGuarded(c, Step(c, e, run[0]), run[1..]);
      }
    }
  }

  /** Two loops become active at once in exactly one way: one enters while another is active and the flag is clear. */
  lemma StepExclusiveIff(c: Config, e: Engine, v: Event)
    requires Exclusive(e) && Enabled(e, v)
    ensures Exclusive(Step(c, e, v)) <==> !(v.Enter? && !e.restarting && !NoneActive(e))
  {
    if v.Enter? && !e.restarting && !NoneActive(e) {
      var i: nat :| i < |e.loops| && Active(e.loops[i]);
      var t := Step(c, e, v);
      assert Active(t.loops[i]) && Active(t.loops[v.i]) && i != v.i;
    }
  }

  /** And once the flag has been cleared under an active loop, a second one can start beside it at once. */
  lemma SecondLoopCanStart(c: Config, e: Engine)
    requires !e.restarting && !NoneActive(e)
    ensures IsRun(c, e, [Launch, Enter(|e.loops|)]) && !Exclusive(After(c, e, [Launch, Enter(|e.loops|)]))
  {
    var v, n := Enter(|e.loops|), |e.loops|;
    var i: nat :| i < n && Active(e.loops[i]);
    Extend(c, e, [], Launch);
    Extend(c, e, [] + [Launch], v);
    assert [] + [Launch] + [v] == [Launch, v];
    var t := After(c, e, [Launch, v]);
    assert Active(t.loops[i]) && Active(t.loops[n]);
  }

  // ---- The flag does not stick ----

  /** While the flag is set, some loop is active. */
  ghost predicate FlagMeansWork(e: Engine) {
    e.restarting ==> !NoneActive(e)
  }

  lemma StillActive(c: Config, e: Engine, v: Event, i: nat)
    requires Enabled(e, v) && i < |e.loops| && Active(e.loops[i]) && v != Leave(i)
    ensures i < |Step(c, e, v).loops| && Active(Step(c, e, v).loops[i])
  {
  }

  lemma StepFlag(c: Config, e: Engine, v: Event)
    requires FlagMeansWork(e) && Enabled(e, v)
    ensures FlagMeansWork(Step(c, e, v))
  {
    var t := Step(c, e, v);
    if t.restarting {
      if v.Enter? && !e.restarting {
        assert Active(t.loops[v.i]);
      } else {
        var i: nat :| i < |e.loops| && Active(e.loops[i]);
        StillActive(c, e, v, i);
      }
    }
  }

  lemma {:induction false} RunFlag(c: Config, e: Engine, run: seq<Event>)
    requires FlagMeansWork(e) && IsRun(c, e, run)
    ensures FlagMeansWork(After(c, e, run))
    decreases |run|
  {
    if run != [] {
      StepFlag(c, e, run[0]);
      RunFlag(c, Step(c, e, run[0]), run[1..]);
    }
  }

  /** In every run, when no loop is active the flag is clear, so the next loop to enter goes to work. */
  lemma NextLoopCanWork(c: Config, run: seq<Event>, i: nat)
    requires IsRun(c, INITIAL, run) && NoneActive(After(c, INITIAL, run)) && At(After(c, INITIAL, run), i, Entering)
    ensures var e := After(c, INITIAL, run);
      Enabled(e, Enter(i)) && Step(c, e, Enter(i)).loops[i].at == Ready && Step(c, e, Enter(i)).restarting
  {
    RunFlag(c, INITIAL, run);
  }

  // ---- Runs of one loop ----

  lemma {:induction false} Extend(c: Config, e: Engine, run: seq<Event>, v: Event)
    requires IsRun(c, e, run) && Enabled(After(c, e, run), v)
    ensures IsRun(c, e, run + [v]) && After(c, e, run + [v]) == Step(c, After(c, e, run), v)
    decreases |run|
  {
    if run == [] {
      assert run + [v] == [v];
    } else {
      assert (run + [v])[1..] == run[1..] + [v];
      Extend(c, Step(c, e, run[0]), run[1..], v);
    }
  }

  lemma {:induction false} Join(c: Config, e: Engine, run: seq<Event>, more: seq<Event>)
    requires IsRun(c, e, run) && IsRun(c, After(c, e, run), more)
    ensures IsRun(c, e, run + more) && After(c, e, run + more) == After(c, After(c, e, run), more)
    decreases |run|
  {
    if run == [] {
      assert run + more == more;
    } else {
      assert (run + more)[0] == run[0] && (run + more)[1..] == run[1..] + more;
      Join(c, Step(c, e, run[0]), run[1..], more);
    }
  }

  lemma Prepend(c: Config, e: Engine, v: Event, run: seq<Event>)
    requires Enabled(e, v) && IsRun(c, Step(c, e, v), run)
    ensures IsRun(c, e, [v] + run) && After(c, e, [v] + run) == After(c, Step(c, e, v), run)
  {
    assert ([v] + run)[0] == v && ([v] + run)[1..] == run;
  }

  /** The places from which a loop can still come to report a failure. */
  predicate MayReport(l: Loop) {
    || l.at == Entering || l.at == Ready || l.at == Trying || l.at == Pausing || l.at == Waiting
    || l.at == Leaving(GaveUp) || l.at == Reporting
  }

  /** Nothing has changed but the flag and loop i. */
  ghost predicate OnlyLoop(e: Engine, t: Engine, i: nat) {
    && i < |e.loops| && |t.loops| == |e.loops|
    && t.closed == e.closed && t.successCalls == e.successCalls && t.failedCalls == e.failedCalls
    && forall j | 0 <= j < |e.loops| && j != i :: t.loops[j] == e.loops[j]
  }

  /** The next step towards a failure. */
  function Onward(l: Loop, i: nat): Event
    requires MayReport(l) && l.at != Reporting
  {
    match l.at
    case Entering => Enter(i)
    case Ready => Begin(i)
    case Trying => Offer(i, false)
    case Pausing => Park(i)
    case Waiting => Elapse(i)
    case _ => Leave(i)
  }

  lemma OnwardStep(c: Config, e: Engine, i: nat)
    requires c.maxAttempts > 0 && i < |e.loops| && LoopOk(c, e.loops[i]) && MayReport(e.loops[i])
              && e.loops[i].at != Reporting
    requires e.loops[i].at == Entering ==> !e.restarting
    ensures var v := Onward(e.loops[i], i);
      && Enabled(e, v)
      && var t := Step(c, e, v);
         && OnlyLoop(e, t, i) && LoopOk(c, t.loops[i]) && MayReport(t.loops[i]) && t.loops[i].at != Entering
         && 0 <= Fuel(c, t.loops[i]) < Fuel(c, e.loops[i])
  {
    LoopStepsOk(c, e.loops[i]);
  }

  /** Left to itself, with every offer failing, such a loop comes to report a failure. */
  lemma {:induction false} ComesToReport(c: Config, e: Engine, i: nat) returns (run: seq<Event>)
    requires c.maxAttempts > 0 && i < |e.loops| && LoopOk(c, e.loops[i]) && MayReport(e.loops[i])
    requires e.loops[i].at == Entering ==> !e.restarting
    ensures IsRun(c, e, run) && OnlyLoop(e, After(c, e, run), i) && After(c, e, run).loops[i].at == Reporting
    decreases Fuel(c, e.loops[i])
  {
    run := [];
    if e.loops[i].at != Reporting {
      var v := Onward(e.loops[i], i);
      OnwardStep(c, e, i);
      run := ComesToReport(c, Step(c, e, v), i);
      Prepend(c, e, v, run);
      run := [v] + run;
    }
  }

  /** A loop that cannot report any more, or is past it, never comes to report. */
  lemma {:induction false} NeverReports(c: Config, e: Engine, run: seq<Event>, i: nat)
    requires IsRun(c, e, run) && i < |e.loops| && !MayReport(e.loops[i])
    ensures i < |After(c, e, run).loops| && !MayReport(After(c, e, run).loops[i])
    decreases |run|
  {
    if run != [] {
      NeverReports(c, Step(c, e, run[0]), run[1..], i);
    }
  }

  ghost predicate CanComeToReport(c: Config, e: Engine, i: nat) {
    exists run :: IsRun(c, e, run) && i < |After(c, e, run).loops| && After(c, e, run).loops[i].at == Reporting
  }

  lemma CanReportIff(c: Config, e: Engine, i: nat)
    requires c.maxAttempts > 0 && Inv(c, e) && i < |e.loops| && !e.restarting
    ensures CanComeToReport(c, e, i) <==> MayReport(e.loops[i])
  {
    if MayReport(e.loops[i]) {
      var run := ComesToReport(c, e, i);
    } else {
      forall run | IsRun(c, e, run) ensures i < |After(c, e, run).loops| && After(c, e, run).loops[i].at != Reporting {
        NeverReports(c, e, run, i);
      }
    }
  }

  /**
   When the connection recovers during a cycle, a loop that could still report a failure is
   kept from it if and only if it is the one that hears the stop; every other can go on to
   report one.
   */
  lemma RecoveryEndsOnlyTheReceiver(c: Config, e: Engine, to: Option<nat>, i: nat)
    requires c.maxAttempts > 0 && Inv(c, e) && e.restarting && Enabled(e, Connected(to)) && i < |e.loops|
    ensures CanComeToReport(c, Step(c, e, Connected(to)), i) <==> MayReport(e.loops[i]) && to != Some(i)
  {
    StepInv(c, e, Connected(to));
    CanReportIff(c, Step(c, e, Connected(to)), i);
  }

  /** The same of a call that closes the engine. */
  lemma CloseEndsOnlyTheReceiver(c: Config, e: Engine, to: Option<nat>, i: nat)
    requires c.maxAttempts > 0 && Inv(c, e) && !e.closed && Enabled(e, CloseCall(to)) && i < |e.loops|
    ensures CanComeToReport(c, Step(c, e, CloseCall(to)), i) <==> MayReport(e.loops[i]) && to != Some(i)
  {
    StepInv(c, e, CloseCall(to));
    CanReportIff(c, Step(c, e, CloseCall(to)), i);
  }

  /** A loop parked in its wait hears a stop for certain when it is the only one parked. */
  ghost predicate OnlyParked(e: Engine, i: nat) {
    At(e, i, Waiting) && forall j | 0 <= j < |e.loops| && j != i :: e.loops[j].at != Waiting
  }

  lemma OnlyParkedHears(e: Engine, to: Option<nat>, i: nat)
    requires OnlyParked(e, i)
    ensures Receives(e, to) <==> to == Some(i)
  {
    if to == None {
      assert e.loops[i].at == Waiting;
    }
  }

  /** A stop sent while at most one loop is active reaches it exactly when it is parked. */
  lemma GuardedHears(e: Engine, to: Option<nat>, i: nat)
    requires Guarded(e) && e.restarting && Stops(e, to) && i < |e.loops|
    ensures to == Some(i) <==> e.loops[i].at == Waiting
  {
    if e.loops[i].at == Waiting {
      forall j | 0 <= j < |e.loops| && j != i ensures e.loops[j].at != Waiting {
        assert Active(e.loops[i]);
      }
      OnlyParkedHears(e, to, i);
    }
  }

  /**
   So while at most one loop is active, a recovery or a close keeps a loop that could still
   report a failure from it if and only if that loop is parked in its wait.
   */
  lemma StopsExactlyTheParked(c: Config, e: Engine, v: Event, i: nat)
    requires c.maxAttempts > 0 && Inv(c, e) && Guarded(e) && e.restarting && Enabled(e, v) && i < |e.loops|
    requires v.Connected? || (v.CloseCall? && !e.closed)
    ensures CanComeToReport(c, Step(c, e, v), i) <==> MayReport(e.loops[i]) && e.loops[i].at != Waiting
  {
    GuardedHears(e, v.to, i);
    if v.Connected? {
      RecoveryEndsOnlyTheReceiver(c, e, v.to, i);
    } else {
      CloseEndsOnlyTheReceiver(c, e, v.to, i);
    }
  }

  /** With several loops active the same holds of the only one parked. */
  lemma StopsTheOnlyParked(c: Config, e: Engine, v: Event, i: nat)
    requires c.maxAttempts > 0 && Inv(c, e) && OnlyParked(e, i) && e.restarting && Enabled(e, v)
    requires v.Connected? || (v.CloseCall? && !e.closed)
    ensures Step(c, e, v).loops[i] == StopLoop(e.loops[i]) && !CanComeToReport(c, Step(c, e, v), i)
  {
    OnlyParkedHears(e, v.to, i);
    if v.Connected? {
      RecoveryEndsOnlyTheReceiver(c, e, v.to, i);
    } else {
      CloseEndsOnlyTheReceiver(c, e, v.to, i);
    }
  }

  // ---- Runs from the start ----

  /** A loop in the middle of its first attempt. */
  lemma FirstAttempt(c: Config) returns (run: seq<Event>)
    ensures IsRun(c, INITIAL, run)
    ensures After(c, INITIAL, run) == Engine(false, true, [Begun(Entered(NewLoop(c), false))], 0, [])
  {
    run := [];
    Extend(c, INITIAL, run, Launch);
    run := run + [Launch];
    Extend(c, INITIAL, run, Enter(0));
    run := run + [Enter(0)];
    Extend(c, INITIAL, run, Begin(0));
    run := run + [Begin(0)];
  }

  /** The connected handler frees the flag while a loop is still at work, so a second loop can start beside it. */
  lemma ConnectedLetsASecondLoopIn(c: Config) returns (run: seq<Event>)
    requires c.maxAttempts > 0
    ensures IsRun(c, INITIAL, run) && !Exclusive(After(c, INITIAL, run))
  {
    run := FirstAttempt(c);
    Extend(c, INITIAL, run, Connected(None));
    run := run + [Connected(None)];
    var e := After(c, INITIAL, run);
    assert Active(e.loops[0]);
    SecondLoopCanStart(c, e);
    Join(c, INITIAL, run, [Launch, Enter(|e.loops|)]);
    run := run + [Launch, Enter(|e.loops|)];
  }

  /** From any run in which loop 0 can still come to report, it can come to close the engine. */
  lemma GoesOnToClose(c: Config, start: seq<Event>) returns (run: seq<Event>)
    requires c.maxAttempts > 0 && IsRun(c, INITIAL, start)
    requires var e := After(c, INITIAL, start);
      !e.restarting && |e.loops| == 1 && MayReport(e.loops[0]) && e.failedCalls == []
    ensures start <= run && IsRun(c, INITIAL, run)
    ensures var e, t := After(c, INITIAL, start), After(c, INITIAL, run);
      t.successCalls == e.successCalls && t.failedCalls == [0] && t.closed
  {
    var e := After(c, INITIAL, start);
    InitialInv(c);
    RunInv(c, INITIAL, start);
    var more := ComesToReport(c, e, 0);
    Join(c, INITIAL, start, more);
    run := start + more;
    Extend(c, INITIAL, run, Report(0));
    run := run + [Report(0)];
    Extend(c, INITIAL, run, CloseOwn(0, None));
    run := run + [CloseOwn(0, None)];
  }

  /** So a recovery can be announced as a success, and the loop still report a failure and close the engine. */
  lemma RecoveredEngineCanBeClosed(c: Config) returns (run: seq<Event>)
    requires c.maxAttempts > 0
    ensures IsRun(c, INITIAL, run)
    ensures var e := After(c, INITIAL, run); e.successCalls == 1 && e.failedCalls == [0] && e.closed
  {
    run := FirstAttempt(c);
    Extend(c, INITIAL, run, Connected(None));
    run := GoesOnToClose(c, run + [Connected(None)]);
  }

  /** And an engine can be closed by its owner, and a failure reported afterwards. */
  lemma ClosedEngineCanReportAFailure(c: Config) returns (closing: seq<Event>, run: seq<Event>)
    requires c.maxAttempts > 0
    ensures IsRun(c, INITIAL, closing) && After(c, INITIAL, closing).closed
              && After(c, INITIAL, closing).failedCalls == []
    ensures closing <= run && IsRun(c, INITIAL, run) && After(c, INITIAL, run).failedCalls == [0]
  {
    var start := FirstAttempt(c);
    Extend(c, INITIAL, start, CloseCall(None));
    closing := start + [CloseCall(None)];
    run := GoesOnToClose(c, closing);
  }
}
