/**
Reconnecting a websocket. Each attempt waits twice as long as the one before, counted from the one before, and a
success or the last failure starts over. Times are seconds, as real numbers.
 */
module Backoff {
  import opened Prelude

  datatype ContextState = ContextState(count: nat, last: real, wait: real)

  function Pow2(n: nat): real {
    if n == 0 then 1.0 else 2.0 * Pow2(n - 1)
  }

  /** One look at the clock, and at whether the reactor still runs, in the waiting loop. */
  datatype Poll = Poll(now: real, running: bool)

  datatype Outcome = Attempted | ShutDown | GaveUp | StillWaiting

  predicate Elapsed(s: ContextState, now: real) {
    (if now < s.last then 0.0 else now - s.last) >= s.wait
  }

  /** The index of the poll that ends the waiting loop, if one does. */
  function WaitEnds(s: ContextState, polls: seq<Poll>): Option<nat> {
    if polls == [] then None
    else if Elapsed(s, polls[0].now) || !polls[0].running then Some(0)
    else match WaitEnds(s, polls[1..]) case Some(i) => Some(i + 1) case None => None
  }

  class Context {
    var count: nat
    var last: real
    var wait: real

    ghost function State(): ContextState
      reads this
    {
      ContextState(count, last, wait)
    }

    constructor (now: real)
      ensures State() == ContextState(0, now, 1.0)
    {
      count, last, wait := 0, now, 1.0;
    }

    method WsConnected()
      modifies this
      ensures State() == ContextState(0, old(last), 1.0)
    {
      wait := 1.0;
      count := 0;
    }

    method TryReconnect(enabled: bool, limit: nat, polls: seq<Poll>, now: real) returns (r: Outcome)
      modifies this
      ensures (State(), r) == Try(old(State()), enabled, limit, polls, now)
    {
      if enabled && count < limit {
        r := Reconnect(polls, now);
      } else {
        wait := 1.0;
        count := 0;
        r := GaveUp;
      }
    }

    /** `now` is the clock reading after the waiting loop. */
    method Reconnect(polls: seq<Poll>, now: real) returns (r: Outcome)
      modifies this
      ensures (State(), r) == AfterWaiting(old(State()), polls, now)
    {
      var i := 0;
      assert polls[0..] == polls;
      while true
        invariant 0 <= i <= |polls|
        invariant AfterWaiting(State(), polls[i..], now) == AfterWaiting(old(State()), polls, now)
        invariant State() == old(State())
        decreases |polls| - i
      {
        if i == |polls| {
          return StillWaiting;
        }
        var elapsed := if polls[i].now < last then 0.0 else polls[i].now - last;
        if elapsed >= wait {
          break;
        }
        if !polls[i].running {
          return ShutDown;
        }
        assert polls[i..][1..] == polls[i + 1..];
        i := i + 1;
      }
      count := count + 1;
      last := now;
      wait := wait * 2.0;
      return Attempted;
    }
  }

  function AfterWaiting(s: ContextState, polls: seq<Poll>, now: real): (ContextState, Outcome) {
    match WaitEnds(s, polls)
    case None => (s, StillWaiting)
    case Some(i) =>
      if i < |polls| && Elapsed(s, polls[i].now) then (ContextState(s.count + 1, now, s.wait * 2.0), Attempted)
      else (s, ShutDown)
  }

  function Try(s: ContextState, enabled: bool, limit: nat, polls: seq<Poll>, now: real): (ContextState, Outcome) {
    if enabled && s.count < limit then AfterWaiting(s, polls, now) else (ContextState(0, s.last, 1.0), GaveUp)
  }

  // -- Every run --

  /** The reading after the loop is no earlier than those in it, and none is earlier than the last attempt. */
  predicate Monotone(s: ContextState, polls: seq<Poll>, now: real) {
    s.last <= now && forall p <- polls :: s.last <= p.now <= now
  }

  datatype Step = Connected | Reconnect(enabled: bool, polls: seq<Poll>, now: real)

  /** `base` is the last attempt's time when the count was last reset, and `attempts` how many were made since. */
  datatype Tracked = Tracked(state: ContextState, base: real, attempts: nat)

  function Next(t: Tracked, step: Step, limit: nat): Tracked {
    match step
    case Connected => Tracked(ContextState(0, t.state.last, 1.0), t.state.last, 0)
    case Reconnect(enabled, polls, now) =>
      var (s, r) := Try(t.state, enabled, limit, polls, now);
      if r == GaveUp then Tracked(s, s.last, 0)
      else Tracked(s, t.base, if r == Attempted then t.attempts + 1 else t.attempts)
  }

  ghost predicate Legal(t: Tracked, step: Step) {
    step.Reconnect? ==> Monotone(t.state, step.polls, step.now)
  }

  ghost predicate Reaches(t: Tracked, steps: seq<Step>, limit: nat, u: Tracked)
    decreases |steps|
  {
    if steps == [] then t == u
    else Legal(t, steps[0]) && Reaches(Next(t, steps[0], limit), steps[1..], limit, u)
  }

  /**
  The count is the attempts made since the last reset, the wait doubles with it, and the attempts so far took at least
  the sum of the waits before them.
   */
  ghost predicate Sound(t: Tracked, limit: nat) {
    && t.state.count == t.attempts <= limit
    && t.state.wait == Pow2(t.state.count)
    && t.state.last >= t.base + Pow2(t.state.count) - 1.0
  }

  lemma {:induction false} WaitEndsAtPoll(s: ContextState, polls: seq<Poll>)
    ensures
      var e := WaitEnds(s, polls);
      e.Some? ==> e.value < |polls| && (Elapsed(s, polls[e.value].now) || !polls[e.value].running)
  {
    if polls != [] && !Elapsed(s, polls[0].now) && polls[0].running {
      WaitEndsAtPoll(s, polls[1..]);
    }
  }

  /** A poll that ends the waiting loop: the wait is over, or the reactor stops. */
  predicate Decides(s: ContextState, p: Poll) {
    p.now - s.last >= s.wait || !p.running
  }

  /**
  When an attempt is made, and what comes of every other call: the first poll that ends the loop decides, an attempt is
  made iff the wait is over by then, and only an attempt or a reset changes the context.
   */
  lemma AttemptMadeIff(s: ContextState, enabled: bool, limit: nat, polls: seq<Poll>, now: real)
    requires s.wait > 0.0
    ensures
      var (s', r) := Try(s, enabled, limit, polls, now);
      && (r == GaveUp <==> !enabled || s.count >= limit)
      && (r == GaveUp ==> s' == ContextState(0, s.last, 1.0))
      && (r == Attempted ==> s' == ContextState(s.count + 1, now, s.wait * 2.0))
      && (r in {ShutDown, StillWaiting} ==> s' == s)
      && (enabled && s.count < limit ==>
            && (r == StillWaiting <==> forall i | 0 <= i < |polls| :: !Decides(s, polls[i]))
            && (forall i | 0 <= i < |polls| && Decides(s, polls[i])
                           && forall j | 0 <= j < i :: !Decides(s, polls[j]) ::
                  r == if polls[i].now - s.last >= s.wait then Attempted else ShutDown))
  {
    FirstDecides(s, polls);
    var e := WaitEnds(s, polls);
    if e.Some? {
      assert Decides(s, polls[e.value]);
    }
  }

  lemma {:induction false} FirstDecides(s: ContextState, polls: seq<Poll>)
    requires s.wait > 0.0
    ensures
      match WaitEnds(s, polls)
      case None => forall i | 0 <= i < |polls| :: !Decides(s, polls[i])
      case Some(i) => i < |polls| && Decides(s, polls[i]) && forall j | 0 <= j < i :: !Decides(s, polls[j])
  {
    if polls != [] && !Decides(s, polls[0]) {
      FirstDecides(s, polls[1..]);
      assert forall i | 0 < i < |polls| :: polls[i] == polls[1..][i - 1];
    }
  }

  lemma {:induction false} Pow2IsPositive(n: nat)
    ensures Pow2(n) >= 1.0
  {
    if n > 0 {
      Pow2IsPositive(n - 1);
    }
  }

  lemma StepSound(t: Tracked, step: Step, limit: nat)
    requires Sound(t, limit) && Legal(t, step)
    ensures Sound(Next(t, step, limit), limit)
  {
    if step.Reconnect? {
      WaitEndsAtPoll(t.state, step.polls);
      Pow2IsPositive(t.state.count);
      var e := WaitEnds(t.state, step.polls);
      if e.Some? {
        assert step.polls[e.value] in step.polls;
      }
    }
  }

  /** A new context is where such runs begin: created at `now`, it has made no attempt since. */
  lemma NewContextIsSound(now: real, limit: nat)
    ensures Sound(Tracked(ContextState(0, now, 1.0), now, 0), limit)
  {
  }

  /** So the attempts of every run of a new context are spread out from its creation on. */
  lemma EveryNewContextIsSpreadOut(now: real, steps: seq<Step>, limit: nat, u: Tracked)
    requires Reaches(Tracked(ContextState(0, now, 1.0), now, 0), steps, limit, u)
    ensures Sound(u, limit)
  {
    NewContextIsSound(now, limit);
    EveryRunIsSpreadOut(Tracked(ContextState(0, now, 1.0), now, 0), steps, limit, u);
  }

  /** In every run under a monotone clock the count stays within the limit and the attempts are spread out. */
  lemma {:induction false} EveryRunIsSpreadOut(t: Tracked, steps: seq<Step>, limit: nat, u: Tracked)
    requires Sound(t, limit) && Reaches(t, steps, limit, u)
    ensures Sound(u, limit)
    decreases |steps|
  {
    if steps != [] {
      StepSound(t, steps[0], limit);
      EveryRunIsSpreadOut(Next(t, steps[0], limit), steps[1..], limit, u);
    }
  }
}
