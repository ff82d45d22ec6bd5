/**
 The engine as an object with its reconnect loop. What the rest of the world does during a
 cycle is a parameter: for attempt k, whether the offer can be sent, whether somebody closes
 the engine before it, and what stops the wait after it, if anything: the connected handler,
 or a call that closes the engine.
 */
module ReconnectObjects {
  import opened ReconnectModel

  datatype Stop = NoStop | ByHandler | ByClose

  datatype World = World(sent: nat -> bool, closes: nat -> bool, stops: nat -> Stop)

  ghost predicate ClosedBy(w: World, closed: bool, k: nat) {
    closed || exists j :: 1 <= j <= k && w.closes(j)
  }

  ghost predicate Works(w: World, closed: bool, k: nat) {
    w.sent(k) && !ClosedBy(w, closed, k)
  }

  class ReconnectEngine {
    const cfg: Config
    var closed: bool
    var restarting: bool
    var starts: seq<nat>
    var failedCalls: nat

    constructor (cfg: Config)
      ensures this.cfg == cfg && !closed && !restarting && starts == [] && failedCalls == 0
    {
      this.cfg := cfg;
      closed, restarting, starts, failedCalls := false, false, [], 0;
    }

    method Close()
      modifies this`closed, this`restarting
      ensures closed && restarting == (old(closed) && old(restarting))
    {
      if closed {
        return;
      }
      closed := true;
      if restarting {
        restarting := false;
      }
    }

    method RestartICE(sent: bool) returns (ok: bool)
      ensures ok == (sent && !closed)
    {
      if closed {
        return false;
      }
      return sent;
    }

    /** One attempt: announced, then tried unless somebody closed the engine before it. */
    method Attempt(w: World, l: Loop, ghost before: bool) returns (tried: Loop, ok: bool)
      requires LoopOk(cfg, l) && l.at == Ready && closed == ClosedBy(w, before, l.attempt)
      modifies this
      ensures tried == Tried(cfg, Begun(l), ok) && LoopOk(cfg, tried)
      ensures starts == old(starts) + [tried.attempt] && failedCalls == old(failedCalls)
      ensures closed == ClosedBy(w, before, tried.attempt) && ok == Works(w, before, tried.attempt)
    {
      var begun := Begun(l);
      LoopStepsOk(cfg, l);
      LoopStepsOk(cfg, begun);
      if w.closes(begun.attempt) {
        Close();
      }
      starts := starts + [begun.attempt];
      ok := RestartICE(w.sent(begun.attempt));
      tried := Tried(cfg, begun, ok);
    }

    method GiveUp(l: Loop) returns (done: Loop)
      requires LoopOk(cfg, l) && l.at == Leaving(GaveUp)
      modifies this
      ensures LoopOk(cfg, done) && done == l.(at := Done(GaveUp))
      ensures closed && !restarting && failedCalls == old(failedCalls) + 1 && starts == old(starts)
    {
      restarting := false;
      failedCalls := failedCalls + 1;
      Close();
      done := l.(at := Done(GaveUp));
    }

    /**
     A cycle makes attempts until the first that works, the first wait that is stopped, or the
     last one allowed, and in that last case alone reports a failure, once, and closes the engine.
     */
    method ReconnectLoop(w: World) returns (l: Loop)
      requires cfg.maxAttempts > 0
      modifies this
      ensures LoopOk(cfg, l) && l.at.Done?
      ensures old(restarting) <==> l.at.end == AlreadyRunning
      ensures old(restarting) ==> unchanged(this)
      ensures !old(restarting) ==>
                && starts == old(starts) + l.starts && !restarting
                && (forall k: nat | 1 <= k < l.attempt :: !Works(w, old(closed), k) && w.stops(k) == NoStop)
                && l.at.end == (if Works(w, old(closed), l.attempt) then Recovered
                                else if l.attempt == cfg.maxAttempts then GaveUp
                                else Stopped)
                && (l.at.end == Stopped ==> w.stops(l.attempt) != NoStop)
                && failedCalls == old(failedCalls) + (if l.at.end == GaveUp then 1 else 0)
                && closed == (|| l.at.end == GaveUp
                              || (l.at.end == Stopped && w.stops(l.attempt) == ByClose)
                              || ClosedBy(w, old(closed), l.attempt))
    {
      l := NewLoop(cfg);
      if restarting {
        return Entered(l, true);
      }
      restarting := true;
      l := Entered(l, false);
      while true
        invariant LoopOk(cfg, l) && l.at == Ready
        invariant starts == old(starts) + l.starts && failedCalls == old(failedCalls)
        invariant forall k: nat | 1 <= k <= l.attempt :: !Works(w, old(closed), k) && w.stops(k) == NoStop
        invariant closed == ClosedBy(w, old(closed), l.attempt)
        decreases cfg.maxAttempts - l.attempt
      {
        var ok;
        l, ok := Attempt(w, l, old(closed));
        if ok {
          restarting := false;
          return Left(l);
        }
        if l.attempt >= cfg.maxAttempts {
          l := GiveUp(l);
          return;
        }
        if w.stops(l.attempt) != NoStop {
          if w.stops(l.attempt) == ByClose {
            Close();
          }
          restarting := false;
          return Left(StopLoop(Parked(l)));
        }
        ParkedWaitedOk(cfg, l);
        l := Waited(cfg, Parked(l));
      }
    }
  }

  lemma ParkedWaitedOk(c: Config, l: Loop)
    requires LoopOk(c, l) && l.at == Pausing
    ensures LoopOk(c, Waited(c, Parked(l)))
  {
    NextBackoff(c, l.waits, l.backoff);
  }
}
