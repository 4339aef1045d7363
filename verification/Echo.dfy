/**
Echo messages. A node sends an echo meant for it back where it came from and any other echo on to its recipient,
one time-to-live lower, until none is left. Nodes may be connected in any way and messages may get lost.
 */
module Echoes {
  import opened Prelude

  const MIN: int := -0x8000_0000
  const MAX: int := 0x7fff_ffff

  type Int32 = n: int | MIN <= n <= MAX

  datatype Echo = Echo(recipient: string, timeToLive: Int32)

  /** One less, wrapping around as 32-bit arithmetic without overflow checks does. */
  function Lowered(t: Int32): Int32 {
    if t == MIN then MAX else t - 1
  }

  /** An echo on its way from one node to another. */
  datatype Parcel = Parcel(from: string, at: string, echo: Echo)

  /** What the node does with the echo: the one it sends on, if any. */
  function Handle(nodeId: string, source: string, echo: Echo): Option<(string, Echo)> {
    var recipient := if echo.recipient == nodeId then source else echo.recipient;
    var left := Lowered(echo.timeToLive);
    if left <= 0 then None else Some((recipient, echo.(timeToLive := left)))
  }

  /** An echo goes back to its source if it was for this node, else on to whom it is for, unchanged but for its age. */
  lemma EchoGoesOn(nodeId: string, source: string, echo: Echo)
    ensures
      var r := Handle(nodeId, source, echo);
      && (r.Some? <==> echo.timeToLive > 1 || echo.timeToLive == MIN)
      && (r.Some? ==>
            && r.value.0 == (if echo.recipient == nodeId then source else echo.recipient)
            && r.value.1.recipient == echo.recipient
            && r.value.1.timeToLive == if echo.timeToLive == MIN then MAX else echo.timeToLive - 1)
  {
  }

  datatype Network = Network(inFlight: seq<Parcel>, forwards: nat)

  datatype Step = Arrive(index: nat) | Lose(index: nat)

  function Next(n: Network, step: Step): Network {
    if step.index >= |n.inFlight| then n
    else
      var p := n.inFlight[step.index];
      var rest := n.inFlight[..step.index] + n.inFlight[step.index + 1..];
      match step
      case Lose(_) => n.(inFlight := rest)
      case Arrive(_) =>
        match Handle(p.at, p.from, p.echo)
        case None => n.(inFlight := rest)
        case Some((to, echo)) => Network(rest + [Parcel(p.at, to, echo)], n.forwards + 1)
  }

  function Run(n: Network, steps: seq<Step>): Network
    decreases |steps|
  {
    if steps == [] then n else Run(Next(n, steps[0]), steps[1..])
  }

  function AtLeastZero(n: int): nat {
    if n < 0 then 0 else n
  }

  /** How often the parcels in flight can still be forwarded, at most. */
  function Budget(parcels: seq<Parcel>): nat {
    if parcels == [] then 0
    else AtLeastZero(Lowered(parcels[0].echo.timeToLive)) + Budget(parcels[1..])
  }

  /** The positive times-to-live in flight. */
  function Life(parcels: seq<Parcel>): nat {
    if parcels == [] then 0 else AtLeastZero(parcels[0].echo.timeToLive) + Life(parcels[1..])
  }

  lemma {:induction false} SumsAppend(a: seq<Parcel>, b: seq<Parcel>)
    ensures Budget(a + b) == Budget(a) + Budget(b)
    ensures Life(a + b) == Life(a) + Life(b)
  {
    if a == [] {
      assert a + b == b;
    } else {
      assert (a + b)[1..] == a[1..] + b;
      SumsAppend(a[1..], b);
    }
  }

  lemma SumsWithout(parcels: seq<Parcel>, i: nat)
    requires i < |parcels|
    ensures
      var p, rest := parcels[i], parcels[..i] + parcels[i + 1..];
      && Budget(parcels) == Budget(rest) + AtLeastZero(Lowered(p.echo.timeToLive))
      && Life(parcels) == Life(rest) + AtLeastZero(p.echo.timeToLive)
  {
    var before, after := parcels[..i], parcels[i + 1..];
    assert parcels == before + ([parcels[i]] + after);
    assert ([parcels[i]] + after)[1..] == after;
    SumsAppend(before, [parcels[i]] + after);
    SumsAppend(before, after);
  }

  /** A forward costs one unit of the budget; every arrival with a positive time-to-live costs life. */
  lemma StepSpends(n: Network, step: Step)
    ensures
      var n' := Next(n, step);
      && n'.forwards + Budget(n'.inFlight) <= n.forwards + Budget(n.inFlight)
      && (step.Arrive? && step.index < |n.inFlight| && n.inFlight[step.index].echo.timeToLive > 0 ==>
            Life(n'.inFlight) < Life(n.inFlight))
  {
    if step.index < |n.inFlight| {
      SumsWithout(n.inFlight, step.index);
      var p := n.inFlight[step.index];
      var rest := n.inFlight[..step.index] + n.inFlight[step.index + 1..];
      if step.Arrive? && Handle(p.at, p.from, p.echo).Some? {
        var (to, echo) := Handle(p.at, p.from, p.echo).value;
        var sent := [Parcel(p.at, to, echo)];
        SumsAppend(rest, sent);
        assert sent[1..] == [];
      }
    }
  }

  lemma {:induction false} RunSpends(n: Network, steps: seq<Step>)
    ensures Run(n, steps).forwards + Budget(Run(n, steps).inFlight) <= n.forwards + Budget(n.inFlight)
    decreases |steps|
  {
    if steps != [] {
      StepSpends(n, steps[0]);
      RunSpends(Next(n, steps[0]), steps[1..]);
    }
  }

  /** However the nodes are connected, an echo is forwarded at most as often as its lowered time-to-live says. */
  lemma ForwardsAreBounded(p: Parcel, steps: seq<Step>)
    ensures Run(Network([p], 0), steps).forwards <= AtLeastZero(Lowered(p.echo.timeToLive))
  {
    RunSpends(Network([p], 0), steps);
    assert [p][1..] == [];
  }

  /**
  In every run an echo of time-to-live t is forwarded at most t - 1 times, and not at all for t below one; for every t
  but the least one, which the subtraction turns into the greatest.
   */
  lemma EchoDiesOutIff(p: Parcel)
    ensures
      (forall steps: seq<Step> :: Run(Network([p], 0), steps).forwards <= AtLeastZero(p.echo.timeToLive - 1))
      <==> p.echo.timeToLive != MIN
  {
    if p.echo.timeToLive == MIN {
      LeastIsForwarded(p);
    } else {
      forall steps: seq<Step>
        ensures Run(Network([p], 0), steps).forwards <= AtLeastZero(p.echo.timeToLive - 1)
      {
        ForwardsAreBounded(p, steps);
      }
    }
  }

  lemma LeastIsForwarded(p: Parcel)
    requires p.echo.timeToLive == MIN
    ensures Run(Network([p], 0), [Arrive(0)]).forwards == 1
  {
    assert [Arrive(0)][1..] == [];
  }

  function Repeat(k: nat): seq<Step> {
    if k == 0 then [] else [Arrive(0)] + Repeat(k - 1)
  }

  /** The bound is tight: between two nodes an echo goes back and forth until its time-to-live is used up. */
  lemma {:induction false} PingPongUsesItAll(a: string, b: string, here: string, t: nat, forwards: nat)
    requires a != b && here in {a, b} && 0 < t <= MAX
    ensures
      var there := if here == a then b else a;
      Run(Network([Parcel(there, here, Echo(b, t))], forwards), Repeat(t)) == Network([], forwards + t - 1)
    decreases t
  {
    var there := if here == a then b else a;
    var n := Network([Parcel(there, here, Echo(b, t))], forwards);
    assert Repeat(t)[1..] == Repeat(t - 1);
    assert n.inFlight[..0] + n.inFlight[1..] == [];
    if t > 1 {
      assert Next(n, Arrive(0)) == Network([Parcel(here, there, Echo(b, t - 1))], forwards + 1);
      PingPongUsesItAll(a, b, there, t - 1, forwards + 1);
    } else {
      assert Next(n, Arrive(0)) == Network([], forwards);
    }
  }

  /** From the least time-to-live that is 2^31 - 1 forwards. */
  lemma LeastLivesLongest(a: string, b: string)
    requires a != b
    ensures Run(Network([Parcel(a, b, Echo(b, MIN))], 0), [Arrive(0)] + Repeat(MAX)) == Network([], MAX)
  {
    var n := Network([Parcel(a, b, Echo(b, MIN))], 0);
    assert ([Arrive(0)] + Repeat(MAX))[1..] == Repeat(MAX);
    assert n.inFlight[..0] + n.inFlight[1..] == [];
    assert Next(n, Arrive(0)) == Network([Parcel(b, a, Echo(b, MAX))], 1);
    PingPongUsesItAll(a, b, a, MAX, 1);
  }
}
