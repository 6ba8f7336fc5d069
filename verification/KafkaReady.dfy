/** The session loop of the Kafka connector's main, the ready channel it replaces, and main's
    wait for that channel. */
module KafkaReady {
  /** One call of client.Consume: whether the session got as far as Setup, and whether the
      context was done when it returned. */
  datatype Session = Session(reachesSetup: bool, ctxDone: bool)

  function Rounds(sessions: seq<Session>): (n: nat)
    ensures n <= |sessions|
    ensures forall i :: 0 <= i < n - 1 ==> !sessions[i].ctxDone
    ensures n < |sessions| ==> n > 0 && sessions[n - 1].ctxDone
  {
    if sessions == [] then 0
    else if sessions[0].ctxDone then 1
    else 1 + Rounds(sessions[1..])
  }

  /** Channels are numbered in the order main makes them. */
  class Main {
    var ready: nat
    var closed: set<nat>

    constructor ()
      ensures ready == 0 && closed == {}
    {
      ready, closed := 0, {};
    }

    /** close(conn.ready); closing a closed channel panics. */
    method Setup()
      requires ready !in closed
      modifies this`closed
      ensures closed == old(closed) + {ready}
    {
      closed := closed + {ready};
    }

    /** The goroutine that consumes: each session closes its own channel and no channel is
        closed twice. */
    method SessionLoop(sessions: seq<Session>)
      requires ready == 0 && closed == {}
      modifies this
      ensures forall i: nat :: i in closed <==> i < Rounds(sessions) && sessions[i].reachesSetup
    {
      var n := 0;
      ghost var total := Rounds(sessions);
      while n < |sessions|
        invariant 0 <= n <= |sessions| && ready == n
        invariant total == n + Rounds(sessions[n..])
        invariant forall i: nat :: i in closed <==> i < n && sessions[i].reachesSetup
      {
        if sessions[n].reachesSetup {
          Setup();
        }
        if sessions[n].ctxDone {
          return;
        }
        ready := ready + 1;
        n := n + 1;
      }
    }
  }

  // That goroutine beside main, which reads conn.ready once, waits for that channel to be
  // closed, and only then listens for signals and cancels.

  datatype Consumer = InSession(setUp: bool) | Between | Stopped

  datatype Waiter = Starting | Waiting(channel: nat) | Up | HasCancelled

  datatype State = State(ready: nat, closed: set<nat>, consumer: Consumer, main: Waiter)

  datatype Label = ReachSetup | EndSession | MakeReady | Stop | ReadReady | GoOn | Cancel

  ghost predicate Init(c: State) {
    c == State(0, {}, InSession(false), Starting)
  }

  ghost predicate Next(c: State, l: Label, c': State) {
    match l
    case ReachSetup =>
      c.consumer == InSession(false) && c' == c.(closed := c.closed + {c.ready}, consumer := InSession(true))
    case EndSession =>
      c.consumer.InSession? && c' == c.(consumer := Between)
    case MakeReady =>
      c.consumer.Between? && !c.main.HasCancelled? && c' == c.(ready := c.ready + 1, consumer := InSession(false))
    case Stop =>
      c.consumer.Between? && c.main.HasCancelled? && c' == c.(consumer := Stopped)
    case ReadReady =>
      c.main.Starting? && c' == c.(main := Waiting(c.ready))
    case GoOn =>
      c.main.Waiting? && c.main.channel in c.closed && c' == c.(main := Up)
    case Cancel =>
      c.main.Up? && c' == c.(main := HasCancelled)
  }

  ghost predicate IsPath(states: seq<State>, labels: seq<Label>) {
    && |states| == |labels| + 1
    && forall i :: 0 <= i < |labels| ==> Next(states[i], labels[i], states[i + 1])
  }

  ghost predicate IsRun(states: seq<State>, labels: seq<Label>) {
    IsPath(states, labels) && Init(states[0])
  }

  /** The session that was given this channel has reached Setup. */
  ghost predicate ReachedSetup(states: seq<State>, labels: seq<Label>, i: nat, channel: nat)
    requires |states| == |labels| + 1
  {
    exists j :: 0 <= j < i <= |labels| && labels[j].ReachSetup? && states[j].ready == channel
  }

  ghost predicate Inv(c: State) {
    && (forall r :: r in c.closed ==> r <= c.ready)
    && (c.consumer.InSession? ==> (c.ready in c.closed <==> c.consumer.setUp))
    && (c.main.Waiting? ==> c.main.channel <= c.ready)
  }

  lemma {:induction false} ClosedBySetup(states: seq<State>, labels: seq<Label>, i: nat)
    requires IsRun(states, labels) && i < |states|
    ensures Inv(states[i])
    ensures forall r :: r in states[i].closed <==> ReachedSetup(states, labels, i, r)
  {
    if i > 0 {
      ClosedBySetup(states, labels, i - 1);
      var c, l, c' := states[i - 1], labels[i - 1], states[i];
      assert Next(c, l, states[i - 1 + 1]);
      forall r ensures r in c'.closed <==> ReachedSetup(states, labels, i, r) {
        assert ReachedSetup(states, labels, i, r) <==>
               ReachedSetup(states, labels, i - 1, r) || (l.ReachSetup? && c.ready == r);
      }
    }
  }

  /** No channel is ever closed twice. */
  lemma SetupFindsItsChannelOpen(states: seq<State>, labels: seq<Label>, i: nat)
    requires IsRun(states, labels) && i < |labels| && labels[i].ReachSetup?
    ensures states[i].ready !in states[i].closed
  {
    ClosedBySetup(states, labels, i);
    assert Next(states[i], labels[i], states[i + 1]);
  }

  /** main gets past its receive exactly when the session of the channel it waits for has
      reached Setup, however many other sessions have. */
  lemma MainGoesOnExactlyWhen(states: seq<State>, labels: seq<Label>, i: nat)
    requires IsRun(states, labels) && i < |states| && states[i].main.Waiting?
    ensures (exists c' :: Next(states[i], GoOn, c')) <==> ReachedSetup(states, labels, i, states[i].main.channel)
  {
    ClosedBySetup(states, labels, i);
    if states[i].main.channel in states[i].closed {
      assert Next(states[i], GoOn, states[i].(main := Up));
    }
  }

  /** The channel main waits for is closed, or its session is under way and may yet close it. */
  predicate MayGoOn(c: State)
    requires c.main.Waiting?
  {
    c.main.channel in c.closed || (c.main.channel == c.ready && c.consumer == InSession(false))
  }

  /** Once the session of main's channel is over without Setup, main waits for ever. */
  lemma {:induction false} StaysBlocked(states: seq<State>, labels: seq<Label>, i: nat)
    requires IsPath(states, labels) && Inv(states[0]) && states[0].main.Waiting? && !MayGoOn(states[0])
    requires i < |states|
    ensures Inv(states[i]) && states[i].main == states[0].main && !MayGoOn(states[i])
  {
    if i > 0 {
      StaysBlocked(states, labels, i - 1);
      assert Next(states[i - 1], labels[i - 1], states[i - 1 + 1]);
    }
  }

  ghost predicate LeadsOn(states: seq<State>, labels: seq<Label>, c: State) {
    IsPath(states, labels) && states[0] == c && states[|labels|].main.Up?
  }

  /** From a reachable state main can get past its receive in some continuation if and only
      if its channel is closed or the session of its channel has not come to Setup yet. */
  lemma CanEverGoOnExactlyWhen(states: seq<State>, labels: seq<Label>, i: nat)
    requires IsRun(states, labels) && i < |states| && states[i].main.Waiting?
    ensures (exists ss, ls :: LeadsOn(ss, ls, states[i])) <==> MayGoOn(states[i])
  {
    var c := states[i];
    ClosedBySetup(states, labels, i);
    if c.main.channel in c.closed {
      assert LeadsOn([c, c.(main := Up)], [GoOn], c);
    } else if MayGoOn(c) {
      var s := c.(closed := c.closed + {c.ready}, consumer := InSession(true));
      assert LeadsOn([c, s, s.(main := Up)], [ReachSetup, GoOn], c);
    } else if ss, ls :| LeadsOn(ss, ls, c) {
      StaysBlocked(ss, ls, |ls|);
    }
  }

  const FIRST := State(0, {}, InSession(false), Waiting(0))

  const BLOCKING_LABELS: seq<Label> := [ReadReady, EndSession, MakeReady, ReachSetup]

  const BLOCKING_STATES: seq<State> := [
    FIRST.(main := Starting),
    FIRST,
    FIRST.(consumer := Between),
    FIRST.(ready := 1),
    FIRST.(ready := 1, closed := {1}, consumer := InSession(true))]

  /** The run that blocks main for good: it has read the first channel, the first session
      ends before Setup, and the second one is set up. Signals are not listened for then. */
  lemma FailedFirstSessionBlocksMain()
    ensures IsRun(BLOCKING_STATES, BLOCKING_LABELS)
    ensures BLOCKING_STATES[4].main == Waiting(0) && BLOCKING_STATES[4].consumer == InSession(true)
    ensures !exists ss, ls :: LeadsOn(ss, ls, BLOCKING_STATES[4])
  {
    assert FIRST.closed + {1} == {1};
    CanEverGoOnExactlyWhen(BLOCKING_STATES, BLOCKING_LABELS, 4);
  }
}
