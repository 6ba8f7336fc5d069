/** A feeder that takes a semaphore token per message and one handler per message, as the
    JetStream callback and the RabbitMQ delivery loop both do, under any interleaving,
    redelivery and crash. */
module BoundedHandlers {
  import opened Basics
  import opened Handling

  datatype Handler = Handler(msg: nat, stage: Stage)

  datatype Feeder = Idle | Acquiring(msg: nat) | Acquired(msg: nat)

  /** held: the messages the broker still holds, delivered or not; transit: those with an
      ack on its way to the broker. */
  datatype State = State(
    policy: Policy,
    produced: set<nat>,
    held: set<nat>,
    transit: set<nat>,
    tokens: int,
    closed: bool,
    feeder: Feeder,
    handlers: seq<Handler>)

  datatype Label =
    | Arrive(msg: nat)
    | Deliver(msg: nat)
    | Acquire
    | Spawn
    | Do(k: nat, act: Act)
    | SeeAck(msg: nat)
    | LoseAck(msg: nat)
    | Close
    | Crash

  ghost predicate Init(c: State) {
    c.held == c.produced && c.transit == {} && c.tokens == 0 && !c.closed && c.feeder == Idle && c.handlers == []
  }

  function AllGone(hs: seq<Handler>): seq<Handler> {
    seq(|hs|, k requires 0 <= k < |hs| => hs[k].(stage := Gone))
  }

  /** The broker may deliver, or deliver again, any message it still holds; it forgets one
      when an ack arrives, and an ack that was sent may be lost. A send on the semaphore
      blocks while it is full; a receive blocks while it is empty and open. */
  ghost predicate Next(c: State, l: Label, c': State) {
    match l
    case Arrive(m) =>
      m !in c.produced && c' == c.(produced := c.produced + {m}, held := c.held + {m})
    case Deliver(m) =>
      m in c.held && c.feeder.Idle? && c' == c.(feeder := Acquiring(m))
    case Acquire =>
      && c.feeder.Acquiring? && c.tokens < c.policy.capacity && !c.closed
      && c' == c.(feeder := Acquired(c.feeder.msg), tokens := c.tokens + 1)
    case Spawn =>
      && c.feeder.Acquired?
      && c' == c.(feeder := Idle, handlers := c.handlers + [Handler(c.feeder.msg, Calling)])
    case Do(k, a) =>
      && k < |c.handlers|
      && (a.Release? ==> c.tokens > 0 || c.closed)
      && exists s' ::
           && HandlerStep(c.policy, c.handlers[k].stage, a, s')
           && c' == c.(handlers := c.handlers[k := c.handlers[k].(stage := s')],
                       tokens := if a.Release? && c.tokens > 0 then c.tokens - 1 else c.tokens,
                       transit := if a.AckSent? then c.transit + {c.handlers[k].msg} else c.transit)
    case SeeAck(m) =>
      m in c.transit && c' == c.(transit := c.transit - {m}, held := c.held - {m})
    case LoseAck(m) =>
      m in c.transit && c' == c.(transit := c.transit - {m})
    case Close =>
      !c.closed && c' == c.(closed := true)
    case Crash =>
      c' == c.(tokens := 0, closed := false, feeder := Idle, handlers := AllGone(c.handlers))
  }

  ghost predicate TakesStep(states: seq<State>, labels: seq<Label>, i: nat)
    requires |states| == |labels| + 1 && i < |labels|
  {
    Next(states[i], labels[i], states[i + 1])
  }

  ghost predicate IsPath(states: seq<State>, labels: seq<Label>) {
    && |states| == |labels| + 1
    && forall i: nat :: i < |labels| ==> TakesStep(states, labels, i)
  }

  ghost predicate IsRun(states: seq<State>, labels: seq<Label>) {
    IsPath(states, labels) && Init(states[0])
  }

  lemma StepOfRun(states: seq<State>, labels: seq<Label>, i: nat)
    requires IsRun(states, labels) && i < |labels|
    ensures Next(states[i], labels[i], states[i + 1])
    ensures labels[..i + 1] == labels[..i] + [labels[i]]
  {
    assert TakesStep(states, labels, i);
  }

  lemma PathSnoc(path: seq<State>, labels: seq<Label>, l: Label, next: State)
    requires IsPath(path, labels) && Next(path[|labels|], l, next)
    ensures IsPath(path + [next], labels + [l])
  {
    forall i: nat | i < |labels + [l]| ensures TakesStep(path + [next], labels + [l], i) {
      if i < |labels| {
        assert TakesStep(path, labels, i);
      }
    }
  }

  // The semaphore

  function Live(hs: seq<Handler>): nat {
    if hs == [] then 0 else Live(hs[..|hs| - 1]) + if hs[|hs| - 1].stage.Gone? then 0 else 1
  }

  lemma {:induction false} LiveUpdate(hs: seq<Handler>, k: nat, x: Handler)
    requires k < |hs|
    ensures Live(hs[k := x]) == Live(hs) - (if hs[k].stage.Gone? then 0 else 1) + (if x.stage.Gone? then 0 else 1)
  {
    var n := |hs| - 1;
    if k == n {
      assert hs[k := x][..n] == hs[..n];
    } else {
      assert hs[k := x][..n] == hs[..n][k := x];
      LiveUpdate(hs[..n], k, x);
    }
  }

  lemma {:induction false} NoneLive(hs: seq<Handler>)
    requires forall k :: 0 <= k < |hs| ==> hs[k].stage.Gone?
    ensures Live(hs) == 0
  {
    if hs != [] {
      NoneLive(hs[..|hs| - 1]);
    }
  }

  lemma {:induction false} SomeLive(hs: seq<Handler>, k: nat)
    requires k < |hs| && !hs[k].stage.Gone?
    ensures Live(hs) >= 1
  {
    if k < |hs| - 1 {
      SomeLive(hs[..|hs| - 1], k);
    }
  }

  ghost predicate TokensOk(c: State) {
    && c.tokens == Live(c.handlers) + (if c.feeder.Acquired? then 1 else 0)
    && c.tokens <= c.policy.capacity
  }

  lemma TokensSurviveDo(c: State, k: nat, a: Act, c': State)
    requires TokensOk(c) && Next(c, Do(k, a), c')
    ensures TokensOk(c') && c'.policy == c.policy
  {
    LiveUpdate(c.handlers, k, c'.handlers[k]);
    if !c.handlers[k].stage.Gone? {
      SomeLive(c.handlers, k);
    }
  }

  lemma TokensSurviveSpawn(c: State, c': State)
    requires TokensOk(c) && Next(c, Spawn, c')
    ensures TokensOk(c') && c'.policy == c.policy
  {
    assert c'.handlers[..|c.handlers|] == c.handlers;
  }

  lemma TokensSurviveCrash(c: State, c': State)
    requires TokensOk(c) && Next(c, Crash, c')
    ensures TokensOk(c') && c'.policy == c.policy
  {
    NoneLive(c'.handlers);
  }

  lemma TokensSurviveOthers(c: State, l: Label, c': State)
    requires TokensOk(c) && Next(c, l, c') && !l.Do? && !l.Spawn? && !l.Crash?
    ensures TokensOk(c') && c'.policy == c.policy
  {
  }

  lemma TokensStep(c: State, l: Label, c': State)
    requires TokensOk(c) && Next(c, l, c')
    ensures TokensOk(c') && c'.policy == c.policy
  {
    match l
    case Do(k, a) => TokensSurviveDo(c, k, a, c');
    case Spawn => TokensSurviveSpawn(c, c');
    case Crash => TokensSurviveCrash(c, c');
    case _ => TokensSurviveOthers(c, l, c');
  }

  lemma {:induction false} TokensAlways(states: seq<State>, labels: seq<Label>, i: nat)
    requires IsRun(states, labels) && i < |states|
    ensures TokensOk(states[i]) && states[i].policy == states[0].policy
  {
    if i > 0 {
      TokensAlways(states, labels, i - 1);
      StepOfRun(states, labels, i - 1);
      TokensStep(states[i - 1], labels[i - 1], states[i]);
    }
  }

  /** Tokens count the live handlers plus at most one message between its token and its
      handler, so handlers never exceed the capacity; a handler that gives its token back
      never blocks, before or after the semaphore is closed. */
  lemma HandlersNeverExceedCapacity(states: seq<State>, labels: seq<Label>, i: nat)
    requires IsRun(states, labels) && i < |states|
    ensures states[i].tokens == Live(states[i].handlers) + (if states[i].feeder.Acquired? then 1 else 0)
    ensures Live(states[i].handlers) <= states[0].policy.capacity
    ensures forall k :: 0 <= k < |states[i].handlers| && states[i].handlers[k].stage == Releasing ==>
              exists c' :: Next(states[i], Do(k, Release), c')
  {
    TokensAlways(states, labels, i);
    var c := states[i];
    forall k | 0 <= k < |c.handlers| && c.handlers[k].stage == Releasing
      ensures exists c' :: Next(c, Do(k, Release), c')
    {
      SomeLive(c.handlers, k);
      assert HandlerStep(c.policy, c.handlers[k].stage, Release, Gone);
      var c' := c.(handlers := c.handlers[k := c.handlers[k].(stage := Gone)], tokens := c.tokens - 1);
      assert Next(c, Do(k, Release), c');
    }
  }

  function Cost(s: Stage): nat {
    match s
    case Gone => 0
    case Releasing => 1
    case ReportingAck => 2
    case Acking => 3
    case Reporting => 4
    case Publishing => 4
    case Calling => 5
  }

  function AnAct(p: Policy, s: Stage): Act {
    match s
    case Calling => CallAnswers
    case Reporting => Reported
    case Publishing => if p.hasResponseTopic then Published else NoTopic
    case Acking => AckSent
    case ReportingAck => AckReported
    case _ => Release
  }

  /** A feeder blocked on a full semaphore waits for a live handler; every live handler can
      take a step, and every step brings it nearer to giving its token back. With no
      capacity the feeder is blocked for good. */
  lemma BlockedFeederHasALiveHandler(states: seq<State>, labels: seq<Label>, i: nat)
    requires IsRun(states, labels) && i < |states|
    requires states[i].feeder.Acquiring? && states[i].tokens >= states[i].policy.capacity
    ensures states[0].policy.capacity >= 1 <==>
            exists k :: 0 <= k < |states[i].handlers| && !states[i].handlers[k].stage.Gone?
  {
    TokensAlways(states, labels, i);
    var c := states[i];
    if forall k :: 0 <= k < |c.handlers| ==> c.handlers[k].stage.Gone? {
      NoneLive(c.handlers);
    } else {
      var k :| 0 <= k < |c.handlers| && !c.handlers[k].stage.Gone?;
      SomeLive(c.handlers, k);
    }
  }

  lemma ActsLowerTheCost(p: Policy, s: Stage, a: Act, s': Stage)
    requires HandlerStep(p, s, a, s')
    ensures Cost(s') < Cost(s) <= 5
  {
  }

  lemma ThereIsAnAct(p: Policy, s: Stage)
    requires !s.Gone?
    ensures After(p, s, AnAct(p, s)).Some?
    ensures AnAct(p, s).Release? ==> s == Releasing
  {
  }

  lemma LiveHandlersCanStep(states: seq<State>, labels: seq<Label>, i: nat, k: nat)
    requires IsRun(states, labels) && i < |states|
    requires k < |states[i].handlers| && !states[i].handlers[k].stage.Gone?
    ensures exists a, c' :: Next(states[i], Do(k, a), c')
    ensures forall a, s' :: HandlerStep(states[i].policy, states[i].handlers[k].stage, a, s') ==>
              Cost(s') < Cost(states[i].handlers[k].stage) <= 5
  {
    var c := states[i];
    var s := c.handlers[k].stage;
    var a := AnAct(c.policy, s);
    ThereIsAnAct(c.policy, s);
    if a.Release? {
      HandlersNeverExceedCapacity(states, labels, i);
    } else {
      var s' := After(c.policy, s, a).value;
      assert HandlerStep(c.policy, s, a, s');
      assert Next(c, Do(k, a), c.(handlers := c.handlers[k := c.handlers[k].(stage := s')],
                                  transit := if a.AckSent? then c.transit + {c.handlers[k].msg} else c.transit));
    }
    forall a', s' | HandlerStep(c.policy, s, a', s') ensures Cost(s') < Cost(s) <= 5 {
      ActsLowerTheCost(c.policy, s, a', s');
    }
  }

  // A handler's acts, one after the other

  function Doing(k: nat, acts: seq<Act>): seq<Label> {
    seq(|acts|, i requires 0 <= i < |acts| => Do(k, acts[i]))
  }

  /** The acts have taken handler k to this stage, its token is given back if it is gone, and
      nothing else happened but that acks went out. */
  ghost predicate LeadsTo(c: State, k: nat, s: Stage, c': State)
    requires k < |c.handlers|
  {
    c' == c.(handlers := c.handlers[k := c.handlers[k].(stage := s)],
             tokens := if s.Gone? then c.tokens - 1 else c.tokens, transit := c'.transit)
  }

  lemma AfterAct(c: State, k: nat, a: Act, s: Stage) returns (next: State)
    requires k < |c.handlers| && After(c.policy, c.handlers[k].stage, a) == Some(s) && c.tokens > 0
    ensures Next(c, Do(k, a), next) && LeadsTo(c, k, s, next)
  {
    next := c.(handlers := c.handlers[k := c.handlers[k].(stage := s)],
               tokens := if a.Release? then c.tokens - 1 else c.tokens,
               transit := if a.AckSent? then c.transit + {c.handlers[k].msg} else c.transit);
    assert HandlerStep(c.policy, c.handlers[k].stage, a, s);
  }

  lemma {:induction false} ActsAreAPath(c: State, k: nat, acts: seq<Act>) returns (path: seq<State>)
    requires k < |c.handlers| && c.handlers[k].stage == Calling && c.tokens > 0
    requires Reached(c.policy, acts).Some?
    ensures IsPath(path, Doing(k, acts)) && path[0] == c
    ensures LeadsTo(c, k, Reached(c.policy, acts).value, path[|acts|])
  {
    if acts == [] {
      path := [c];
      assert c.handlers[k := c.handlers[k].(stage := Calling)] == c.handlers;
    } else {
      var n := |acts| - 1;
      var a := acts[n];
      path := ActsAreAPath(c, k, acts[..n]);
      var here, s := path[n], Reached(c.policy, acts).value;
      var next := AfterAct(here, k, a, s);
      assert Doing(k, acts) == Doing(k, acts[..n]) + [Do(k, a)];
      assert here.handlers[k := here.handlers[k].(stage := s)] == c.handlers[k := c.handlers[k].(stage := s)];
      PathSnoc(path, Doing(k, acts[..n]), Do(k, a), next);
      path := path + [next];
    }
  }

  /** In a reachable state, acts that take a new handler to its end are a path of the system,
      which gives the handler's token back. */
  lemma HandlerRunsToTheEnd(c: State, k: nat, acts: seq<Act>) returns (path: seq<State>)
    requires TokensOk(c) && k < |c.handlers| && c.handlers[k].stage == Calling
    requires Reached(c.policy, acts) == Some(Gone)
    ensures IsPath(path, Doing(k, acts)) && path[0] == c && LeadsTo(c, k, Gone, path[|acts|])
  {
    SomeLive(c.handlers, k);
    path := ActsAreAPath(c, k, acts);
  }

  // Acks and outcomes

  /** The act that entitles a handler to ack. */
  predicate Entitles(p: Policy, a: Act) {
    a.Published? || (a.Reported? && p.ackAfterError) || (a.NoTopic? && p.emptyTopicSucceeds)
  }

  ghost predicate Entitled(p: Policy, h: seq<Label>, k: nat) {
    exists j :: 0 <= j < |h| && h[j].Do? && h[j].k == k && Entitles(p, h[j].act)
  }

  function Acks(h: seq<Label>, k: nat): nat {
    if h == [] then 0 else Acks(h[..|h| - 1], k) + if h[|h| - 1] == Do(k, AckSent) then 1 else 0
  }

  predicate BeforeTheAck(s: Stage) {
    s.Calling? || s.Reporting? || s.Publishing? || s.Acking?
  }

  ghost predicate HandlerOk(c: State, h: seq<Label>, k: nat)
    requires k < |c.handlers|
  {
    && (c.handlers[k].stage == Acking ==> Entitled(c.policy, h, k))
    && Acks(h, k) <= (if BeforeTheAck(c.handlers[k].stage) then 0 else 1)
    && (Acks(h, k) > 0 ==> Entitled(c.policy, h, k))
  }

  /** Some handler of this message was entitled to ack. */
  ghost predicate HasOutcome(c: State, h: seq<Label>, m: nat) {
    exists k :: 0 <= k < |c.handlers| && c.handlers[k].msg == m && Entitled(c.policy, h, k)
  }

  /** A message is safe while the broker holds it or some handler of it was entitled to ack. */
  ghost predicate Safe(c: State, h: seq<Label>, m: nat) {
    m in c.held || HasOutcome(c, h, m)
  }

  ghost predicate Inv(c: State, h: seq<Label>) {
    && (forall k :: 0 <= k < |c.handlers| ==> HandlerOk(c, h, k))
    && (forall j :: 0 <= j < |h| && h[j].Do? ==> h[j].k < |c.handlers|)
    && (forall k :: 0 <= k < |c.handlers| ==> c.handlers[k].msg in c.produced)
    && (!c.feeder.Idle? ==> c.feeder.msg in c.produced)
    && (forall m :: m in c.transit ==> HasOutcome(c, h, m))
    && (forall m :: m in c.produced ==> Safe(c, h, m))
    && c.held <= c.produced
  }

  lemma HistorySnoc(p: Policy, h: seq<Label>, l: Label)
    ensures forall k: nat :: Acks(h + [l], k) == Acks(h, k) + if l == Do(k, AckSent) then 1 else 0
    ensures forall k: nat :: Entitled(p, h + [l], k) <==>
                             Entitled(p, h, k) || (l.Do? && l.k == k && Entitles(p, l.act))
  {
    assert (h + [l])[..|h|] == h;
    forall k: nat ensures Entitled(p, h + [l], k) <==> Entitled(p, h, k) || (l.Do? && l.k == k && Entitles(p, l.act)) {
      if Entitled(p, h, k) {
        var j :| 0 <= j < |h| && h[j].Do? && h[j].k == k && Entitles(p, h[j].act);
        assert (h + [l])[j] == h[j];
      }
      assert (h + [l])[|h|] == l;
    }
  }

  lemma {:induction false} NoActsNoAcks(h: seq<Label>, k: nat)
    requires forall j :: 0 <= j < |h| && h[j].Do? ==> h[j].k != k
    ensures Acks(h, k) == 0
  {
    if h != [] {
      NoActsNoAcks(h[..|h| - 1], k);
    }
  }

  lemma OutcomeStays(c: State, h: seq<Label>, l: Label, c': State, m: nat)
    requires Next(c, l, c') && HasOutcome(c, h, m)
    ensures HasOutcome(c', h + [l], m)
  {
    HistorySnoc(c.policy, h, l);
    var k :| 0 <= k < |c.handlers| && c.handlers[k].msg == m && Entitled(c.policy, h, k);
    assert c'.handlers[k].msg == m && Entitled(c'.policy, h + [l], k);
  }

  lemma ActingHandlerOk(c: State, h: seq<Label>, k: nat, a: Act, c': State)
    requires Next(c, Do(k, a), c') && HandlerOk(c, h, k)
    ensures HandlerOk(c', h + [Do(k, a)], k)
  {
    HistorySnoc(c.policy, h, Do(k, a));
    assert After(c.policy, c.handlers[k].stage, a) == Some(c'.handlers[k].stage);
  }

  lemma OtherHandlersOk(c: State, h: seq<Label>, k: nat, a: Act, c': State, j: nat)
    requires Next(c, Do(k, a), c') && j < |c.handlers| && j != k && HandlerOk(c, h, j)
    ensures HandlerOk(c', h + [Do(k, a)], j)
  {
    HistorySnoc(c.policy, h, Do(k, a));
    assert c'.handlers[j] == c.handlers[j];
  }

  lemma HandlersSurviveOthers(c: State, h: seq<Label>, l: Label, c': State, j: nat)
    requires Inv(c, h) && Next(c, l, c') && !l.Do? && j < |c'.handlers|
    ensures HandlerOk(c', h + [l], j)
  {
    HistorySnoc(c.policy, h, l);
    if j < |c.handlers| {
      assert HandlerOk(c, h, j);
    } else {
      NoActsNoAcks(h, j);
    }
  }

  lemma AckGoesOut(c: State, h: seq<Label>, k: nat, c': State)
    requires Next(c, Do(k, AckSent), c') && HandlerOk(c, h, k)
    ensures HasOutcome(c', h + [Do(k, AckSent)], c.handlers[k].msg)
  {
    HistorySnoc(c.policy, h, Do(k, AckSent));
    assert Entitled(c'.policy, h + [Do(k, AckSent)], k) && c'.handlers[k].msg == c.handlers[k].msg;
  }

  lemma MessagesStaySafe(c: State, h: seq<Label>, l: Label, c': State)
    requires Inv(c, h) && Next(c, l, c')
    ensures forall m :: m in c'.transit ==> HasOutcome(c', h + [l], m)
    ensures forall m :: m in c'.produced ==> Safe(c', h + [l], m)
  {
    forall m | m in c'.transit ensures HasOutcome(c', h + [l], m) {
      if m in c.transit {
        OutcomeStays(c, h, l, c', m);
      } else {
        AckGoesOut(c, h, l.k, c');
      }
    }
    forall m | m in c'.produced ensures Safe(c', h + [l], m) {
      if m in c.produced && m !in c'.held {
        assert Safe(c, h, m);
        OutcomeStays(c, h, l, c', m);
      }
    }
  }

  lemma InvStep(c: State, h: seq<Label>, l: Label, c': State)
    requires Inv(c, h) && Next(c, l, c')
    ensures Inv(c', h + [l])
  {
    forall j | 0 <= j < |c'.handlers| ensures HandlerOk(c', h + [l], j) {
      if l.Do? {
        if j == l.k {
          ActingHandlerOk(c, h, l.k, l.act, c');
        } else {
          OtherHandlersOk(c, h, l.k, l.act, c', j);
        }
      } else {
        HandlersSurviveOthers(c, h, l, c', j);
      }
    }
    MessagesStaySafe(c, h, l, c');
  }

  lemma InvAtNext(states: seq<State>, labels: seq<Label>, i: nat)
    requires IsRun(states, labels) && i < |labels| && Inv(states[i], labels[..i])
    ensures Inv(states[i + 1], labels[..i + 1])
  {
    StepOfRun(states, labels, i);
    InvStep(states[i], labels[..i], labels[i], states[i + 1]);
  }

  lemma {:induction false} InvAlways(states: seq<State>, labels: seq<Label>, i: nat)
    requires IsRun(states, labels) && i < |states|
    ensures Inv(states[i], labels[..i])
  {
    if i == 0 {
      assert labels[..0] == [];
    } else {
      var j := i - 1;
      InvAlways(states, labels, j);
      InvAtNext(states, labels, j);
    }
  }

  lemma AcksAreEntitled(c: State, h: seq<Label>, k: nat)
    requires Inv(c, h)
    ensures Acks(h, k) <= 1
    ensures k < |c.handlers| && c.handlers[k].stage == Acking ==> Entitled(c.policy, h, k)
  {
    if k < |c.handlers| {
      assert HandlerOk(c, h, k);
    } else {
      NoActsNoAcks(h, k);
    }
  }

  /** Every ack follows, in the same handler, the act that entitles it; no handler acks
      twice; and every message produced is held by the broker or has such an outcome. */
  lemma AcksFollowOutcomes(states: seq<State>, labels: seq<Label>, i: nat, k: nat)
    requires IsRun(states, labels) && i < |states|
    ensures i < |labels| && labels[i] == Do(k, AckSent) ==> Entitled(states[0].policy, labels[..i], k)
    ensures Acks(labels[..i], k) <= 1
    ensures forall m :: m in states[i].produced ==> Safe(states[i], labels[..i], m)
  {
    InvAlways(states, labels, i);
    TokensAlways(states, labels, i);
    AcksAreEntitled(states[i], labels[..i], k);
    if i < |labels| && labels[i] == Do(k, AckSent) {
      StepOfRun(states, labels, i);
    }
  }

  // Refinement of an atomic queue

  /** A queue that forgets a message only when an outcome has been recorded for it. */
  datatype Queue = Queue(produced: set<nat>, held: set<nat>, recorded: set<nat>)

  ghost predicate QueueInit(q: Queue) {
    q.held == q.produced && q.recorded == {}
  }

  ghost predicate QueueNext(q: Queue, q': Queue) {
    || q' == q
    || (exists m :: m !in q.produced && q' == q.(produced := q.produced + {m}, held := q.held + {m}))
    || (exists m :: m in q.produced && q' == q.(recorded := q.recorded + {m}))
    || (exists m :: m in q.recorded && q' == q.(held := q.held - {m}))
  }

  function MessageOf(c: State, k: nat): nat
    requires k < |c.handlers|
  {
    c.handlers[k].msg
  }

  ghost function Recorded(c: State, h: seq<Label>): set<nat> {
    set k | 0 <= k < |c.handlers| && Entitled(c.policy, h, k) :: MessageOf(c, k)
  }

  ghost function Abstract(c: State, h: seq<Label>): Queue {
    Queue(c.produced, c.held, Recorded(c, h))
  }

  lemma RecordedSurvives(c: State, h: seq<Label>, l: Label, c': State)
    requires Inv(c, h) && Next(c, l, c')
    ensures Recorded(c', h + [l]) == if l.Do? && Entitles(c.policy, l.act) then Recorded(c, h) + {MessageOf(c, l.k)}
                                     else Recorded(c, h)
  {
    HistorySnoc(c.policy, h, l);
    assert forall k :: 0 <= k < |c.handlers| ==> MessageOf(c', k) == MessageOf(c, k);
    assert !Entitled(c.policy, h, |c.handlers|);
    var before, after := Recorded(c, h), Recorded(c', h + [l]);
    forall m ensures m in after <==> m in before || (l.Do? && Entitles(c.policy, l.act) && m == MessageOf(c, l.k)) {
      if m in after {
        var k :| 0 <= k < |c'.handlers| && Entitled(c.policy, h + [l], k) && MessageOf(c', k) == m;
        if Entitled(c.policy, h, k) {
          assert k < |c.handlers|;
          assert MessageOf(c, k) in before;
        }
      }
      if m in before {
        var k :| 0 <= k < |c.handlers| && Entitled(c.policy, h, k) && MessageOf(c, k) == m;
        assert MessageOf(c', k) in after;
      }
      if l.Do? && Entitles(c.policy, l.act) {
        assert MessageOf(c', l.k) in after;
      }
    }
  }

  lemma StepRefines(c: State, h: seq<Label>, l: Label, c': State)
    requires Inv(c, h) && Next(c, l, c')
    ensures QueueNext(Abstract(c, h), Abstract(c', h + [l]))
  {
    RecordedSurvives(c, h, l, c');
    var q, q' := Abstract(c, h), Abstract(c', h + [l]);
    if l.Do? && Entitles(c.policy, l.act) {
      var m := MessageOf(c, l.k);
      assert m in q.produced && q' == q.(recorded := q.recorded + {m});
    } else if l.SeeAck? {
      assert HasOutcome(c, h, l.msg);
      var k :| 0 <= k < |c.handlers| && MessageOf(c, k) == l.msg && Entitled(c.policy, h, k);
      assert l.msg in q.recorded && q' == q.(held := q.held - {l.msg});
    } else if l.Arrive? {
      assert q' == q.(produced := q.produced + {l.msg}, held := q.held + {l.msg});
    } else {
      assert q' == q;
    }
  }

  /** However handlers interleave, messages are redelivered, acks are lost and the connector
      crashes, the run is one of the atomic queue: it starts as one of its starts and each
      step is one of its steps. */
  lemma RefinesAtomicQueue(states: seq<State>, labels: seq<Label>, i: nat)
    requires IsRun(states, labels) && i < |labels|
    ensures QueueInit(Abstract(states[0], labels[..0]))
    ensures QueueNext(Abstract(states[i], labels[..i]), Abstract(states[i + 1], labels[..i + 1]))
  {
    assert labels[..0] == [];
    InvAlways(states, labels, i);
    StepOfRun(states, labels, i);
    StepRefines(states[i], labels[..i], labels[i], states[i + 1]);
  }
}
