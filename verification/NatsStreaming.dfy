/** The NATS Streaming connector: one subscriber, one message in flight, manual acks. */
module NatsStreaming {
  import opened Basics
  import opened Handling

  /** One message at a time; a failed call is reported and not acked, a missing response
      topic is a failed response step, and a failed ack is reported. */
  function PolicyOf(hasTopic: bool): Policy {
    Policy(1, hasTopic, false, false, true)
  }

  datatype Callback = Idle | Busy(msg: nat, stage: Stage)

  /** Messages are numbered in the order of the subject's log. outstanding is the one the
      server has sent and not seen acked; inbox holds the deliveries the client has not
      handed to the callback yet; transit the acks on their way. */
  datatype State = State(
    hasTopic: bool,
    produced: nat,
    nextToSend: nat,
    outstanding: Option<nat>,
    acked: set<nat>,
    inbox: seq<nat>,
    callback: Callback,
    transit: set<nat>)

  datatype Label =
    | Arrive
    | Send(msg: nat)
    | Resend(msg: nat)
    | Begin(msg: nat)
    | Do(msg: nat, act: Act)
    | SeeAck(msg: nat)
    | LoseAck(msg: nat)
    | Crash

  ghost predicate Init(c: State) {
    && c.nextToSend == 0 && c.outstanding == None && c.acked == {}
    && c.inbox == [] && c.callback == Idle && c.transit == {}
  }

  ghost predicate Next(c: State, l: Label, c': State) {
    match l
    case Arrive =>
      c' == c.(produced := c.produced + 1)
    case Send(m) =>
      && c.outstanding.None? && m == c.nextToSend && m < c.produced
      && c' == c.(outstanding := Some(m), nextToSend := m + 1, inbox := c.inbox + [m])
    case Resend(m) =>
      c.outstanding == Some(m) && c' == c.(inbox := c.inbox + [m])
    case Begin(m) =>
      && c.callback.Idle? && c.inbox != [] && m == c.inbox[0]
      && c' == c.(callback := Busy(m, Calling), inbox := c.inbox[1..])
    case Do(m, a) =>
      && c.callback.Busy? && m == c.callback.msg
      && var s := After(PolicyOf(c.hasTopic), c.callback.stage, a);
         s.Some? && c' == c.(callback := if s.value.Gone? then Idle else Busy(m, s.value),
                             transit := if a.AckSent? then c.transit + {m} else c.transit)
    case SeeAck(m) =>
      && m in c.transit
      && c' == c.(transit := c.transit - {m}, acked := c.acked + {m},
                  outstanding := if c.outstanding == Some(m) then None else c.outstanding)
    case LoseAck(m) =>
      m in c.transit && c' == c.(transit := c.transit - {m})
    case Crash =>
      c' == c.(inbox := [], callback := Idle)
  }

  ghost predicate TakesStep(states: seq<State>, labels: seq<Label>, i: nat)
    requires |states| == |labels| + 1 && i < |labels|
  {
    Next(states[i], labels[i], states[i + 1])
  }

  ghost predicate IsPath(states: seq<State>, labels: seq<Label>) {
    && |states| == |labels| + 1
    && forall i: nat :: i < |labels| ==> TakesStep(states, labels, i)
  }

  ghost predicate IsRun(states: seq<State>, labels: seq<Label>) {
    IsPath(states, labels) && Init(states[0])
  }

  lemma StepOfRun(states: seq<State>, labels: seq<Label>, i: nat)
    requires IsRun(states, labels) && i < |labels|
    ensures Next(states[i], labels[i], states[i + 1])
    ensures labels[..i + 1] == labels[..i] + [labels[i]]
  {
    assert TakesStep(states, labels, i);
  }

  lemma PathSnoc(path: seq<State>, labels: seq<Label>, l: Label, next: State)
    requires IsPath(path, labels) && Next(path[|labels|], l, next)
    ensures IsPath(path + [next], labels + [l])
  {
    forall i: nat | i < |labels + [l]| ensures TakesStep(path + [next], labels + [l], i) {
      if i < |labels| {
        assert TakesStep(path, labels, i);
      }
    }
  }

  function ResponseBy(l: Label): seq<nat> {
    if l.Do? && l.act.Published? then [l.msg] else []
  }

  /** The messages whose responses were published, in publishing order. */
  function Responses(h: seq<Label>): seq<nat> {
    if h == [] then [] else Responses(h[..|h| - 1]) + ResponseBy(h[|h| - 1])
  }

  /** The first message that is not acked yet. */
  function Front(c: State): nat {
    if c.outstanding.Some? then c.outstanding.value else c.nextToSend
  }

  /** Everything still to be handled is at or past every response so far. */
  ghost predicate OrderOk(c: State, r: seq<nat>) {
    && (forall x, i :: x in r && 0 <= i < |c.inbox| ==> x <= c.inbox[i])
    && (forall x :: x in r && c.callback.Busy? ==> x <= c.callback.msg)
    && (forall i, j :: 0 <= i < j < |c.inbox| ==> c.inbox[i] <= c.inbox[j])
    && (forall i :: 0 <= i < |c.inbox| ==> c.inbox[i] <= Front(c) && c.inbox[i] < c.nextToSend)
    && (c.callback.Busy? ==> c.callback.msg <= Front(c) && c.callback.msg < c.nextToSend)
    && (forall i :: 0 <= i < |c.inbox| && c.callback.Busy? ==> c.callback.msg <= c.inbox[i])
    && (forall x :: x in r ==> x <= Front(c))
  }

  ghost predicate AckOk(c: State, r: seq<nat>) {
    && (c.outstanding.Some? ==> c.outstanding.value + 1 == c.nextToSend)
    && (forall m: nat :: m in c.acked <==> m < Front(c))
    && (forall m :: m in c.acked ==> m in r)
    && (forall m :: m in c.transit ==> m in r && m < c.nextToSend)
    && (c.callback.Busy? && (c.callback.stage.Acking? || c.callback.stage.ReportingAck?) ==>
          r != [] && r[|r| - 1] == c.callback.msg)
    && (!c.hasTopic ==> r == [])
  }

  /** Responses start at the first message, never go back and never skip one. */
  ghost predicate InLogOrder(r: seq<nat>) {
    && (r != [] ==> r[0] == 0)
    && (forall i :: 0 <= i < |r| - 1 ==> r[i] <= r[i + 1] <= r[i] + 1)
    && (forall i, j :: 0 <= i < j < |r| ==> r[i] <= r[j])
  }

  ghost predicate Inv(c: State, h: seq<Label>) {
    OrderOk(c, Responses(h)) && AckOk(c, Responses(h)) && InLogOrder(Responses(h))
  }

  lemma ResponsesSnoc(h: seq<Label>, l: Label)
    ensures Responses(h + [l]) == Responses(h) + ResponseBy(l)
  {
    assert (h + [l])[..|h|] == h;
  }

  /** A response published now is for the last message answered or the one after it. */
  lemma NextResponseInOrder(c: State, r: seq<nat>, m: nat)
    requires OrderOk(c, r) && AckOk(c, r) && InLogOrder(r) && c.callback.Busy? && c.callback.msg == m
    ensures InLogOrder(r + [m])
  {
    assert m > 0 ==> 0 in c.acked;
    if r != [] {
      var last := r[|r| - 1];
      assert last in r;
      if m > last {
        assert m - 1 in c.acked;
        var i :| 0 <= i < |r| && r[i] == m - 1;
        assert r[i] <= last;
      }
      forall i | 0 <= i < |r| ensures r[i] <= m {
        assert r[i] in r;
      }
    }
  }

  lemma OrderSurvivesDelivery(c: State, r: seq<nat>, l: Label, c': State)
    requires OrderOk(c, r) && AckOk(c, r) && Next(c, l, c') && (l.Send? || l.Resend?)
    ensures OrderOk(c', r)
  {
    assert Front(c') == c'.inbox[|c.inbox|] == l.msg;
    assert forall i :: 0 <= i < |c.inbox| ==> c'.inbox[i] == c.inbox[i] <= l.msg;
  }

  lemma OrderSurvivesBegin(c: State, r: seq<nat>, m: nat, c': State)
    requires OrderOk(c, r) && Next(c, Begin(m), c')
    ensures OrderOk(c', r)
  {
    assert forall i :: 0 <= i < |c'.inbox| ==> c'.inbox[i] == c.inbox[i + 1];
  }

  lemma OrderSurvivesOthers(c: State, r: seq<nat>, l: Label, c': State)
    requires OrderOk(c, r) && AckOk(c, r) && Next(c, l, c') && !l.Send? && !l.Resend? && !l.Begin?
    ensures OrderOk(c', r + ResponseBy(l))
  {
    assert Front(c) <= Front(c') && c'.nextToSend == c.nextToSend;
    assert c'.inbox == c.inbox || c'.inbox == [];
  }

  lemma OrderStep(c: State, r: seq<nat>, l: Label, c': State)
    requires OrderOk(c, r) && AckOk(c, r) && Next(c, l, c')
    ensures OrderOk(c', r + ResponseBy(l))
  {
    match l
    case Begin(m) =>
      OrderSurvivesBegin(c, r, m, c');
      assert r + ResponseBy(l) == r;
    case Send(_) =>
      OrderSurvivesDelivery(c, r, l, c');
      assert r + ResponseBy(l) == r;
    case Resend(_) =>
      OrderSurvivesDelivery(c, r, l, c');
      assert r + ResponseBy(l) == r;
    case _ =>
      OrderSurvivesOthers(c, r, l, c');
  }

  lemma AckSurvivesPublish(c: State, r: seq<nat>, m: nat, c': State)
    requires AckOk(c, r) && Next(c, Do(m, Published), c') && m < c.nextToSend
    ensures AckOk(c', r + [m])
  {
    var r' := r + [m];
    assert r'[|r|] == m;
    assert forall x :: x in r ==> x in r';
  }

  lemma AckSurvivesDo(c: State, r: seq<nat>, m: nat, a: Act, c': State)
    requires OrderOk(c, r) && AckOk(c, r) && Next(c, Do(m, a), c') && !a.Published?
    ensures AckOk(c', r)
  {
    if a.AckSent? {
      assert r[|r| - 1] in r;
    }
  }

  lemma AckSurvivesSeeAck(c: State, r: seq<nat>, m: nat, c': State)
    requires OrderOk(c, r) && AckOk(c, r) && Next(c, SeeAck(m), c')
    ensures AckOk(c', r)
  {
  }

  lemma AckSurvivesOthers(c: State, r: seq<nat>, l: Label, c': State)
    requires AckOk(c, r) && Next(c, l, c') && !l.Do? && !l.SeeAck?
    ensures AckOk(c', r)
  {
  }

  lemma AckStep(c: State, r: seq<nat>, l: Label, c': State)
    requires OrderOk(c, r) && AckOk(c, r) && Next(c, l, c')
    ensures AckOk(c', r + ResponseBy(l))
  {
    match l
    case Do(m, a) =>
      if a.Published? {
        AckSurvivesPublish(c, r, m, c');
      } else {
        AckSurvivesDo(c, r, m, a, c');
        assert r + ResponseBy(l) == r;
      }
    case SeeAck(m) =>
      AckSurvivesSeeAck(c, r, m, c');
      assert r + ResponseBy(l) == r;
    case _ =>
      AckSurvivesOthers(c, r, l, c');
      assert r + ResponseBy(l) == r;
  }

  lemma InvStep(c: State, h: seq<Label>, l: Label, c': State)
    requires Inv(c, h) && Next(c, l, c')
    ensures Inv(c', h + [l])
  {
    var r := Responses(h);
    ResponsesSnoc(h, l);
    OrderStep(c, r, l, c');
    AckStep(c, r, l, c');
    if l.Do? && l.act.Published? {
      NextResponseInOrder(c, r, l.msg);
    } else {
      assert r + ResponseBy(l) == r;
    }
  }

  lemma InvAtNext(states: seq<State>, labels: seq<Label>, i: nat)
    requires IsRun(states, labels) && i < |labels| && Inv(states[i], labels[..i])
    ensures Inv(states[i + 1], labels[..i + 1]) && states[i + 1].hasTopic == states[i].hasTopic
  {
    StepOfRun(states, labels, i);
    InvStep(states[i], labels[..i], labels[i], states[i + 1]);
  }

  lemma {:induction false} InvAlways(states: seq<State>, labels: seq<Label>, i: nat)
    requires IsRun(states, labels) && i < |states|
    ensures Inv(states[i], labels[..i]) && states[i].hasTopic == states[0].hasTopic
  {
    if i == 0 {
      assert labels[..0] == [];
    } else {
      var j := i - 1;
      InvAlways(states, labels, j);
      InvAtNext(states, labels, j);
    }
  }

  /** acked holds exactly the first n messages, each of them answered. */
  ghost predicate IsAnsweredPrefix(acked: set<nat>, n: nat, r: seq<nat>) {
    && (forall m: nat :: m in acked <==> m < n)
    && (forall m: nat :: m < n ==> m in r)
  }

  /** In every run, with redeliveries, lost acks and crashes: the acked messages are a
      prefix of the log, each with its response published; responses follow the log with
      repeats only of the message just answered; and without a response topic nothing is
      ever acked. */
  lemma AckedPrefixIsAnswered(states: seq<State>, labels: seq<Label>, i: nat)
    requires IsRun(states, labels) && i < |states|
    ensures exists n: nat :: IsAnsweredPrefix(states[i].acked, n, Responses(labels[..i]))
    ensures InLogOrder(Responses(labels[..i]))
    ensures !states[0].hasTopic ==> states[i].acked == {} && Responses(labels[..i]) == []
  {
    InvAlways(states, labels, i);
    assert IsAnsweredPrefix(states[i].acked, Front(states[i]), Responses(labels[..i]));
    assert !states[0].hasTopic ==> forall m :: m in states[i].acked ==> m in Responses(labels[..i]);
  }

  /** Every ack is for the message whose response was published last. */
  lemma EveryAckFollowsItsResponse(states: seq<State>, labels: seq<Label>, i: nat)
    requires IsRun(states, labels) && i < |labels| && labels[i].Do? && labels[i].act.AckSent?
    ensures var r := Responses(labels[..i]); r != [] && r[|r| - 1] == labels[i].msg
  {
    InvAlways(states, labels, i);
    StepOfRun(states, labels, i);
  }

  // The callback

  datatype Config = Config(responseTopic: string, errorTopic: string)

  datatype Outcome = Outcome(call: Invocation, published: bool, acked: bool, rejected: string, reported: bool)

  datatype Effect =
    | Invoke(message: string)
    | Publish(subject: string, data: string, accepted: bool)
    | Ack(accepted: bool)

  function ErrorEffects(c: Config, text: string, accepted: bool): seq<Effect> {
    if c.errorTopic == "" then [] else [Publish(c.errorTopic, text, accepted)]
  }

  function ActsFor(c: Config, o: Outcome): seq<Act> {
    match o.call
    case Answered(_) =>
      if c.responseTopic == "" then [CallAnswers, NoTopic, Release]
      else if !o.published then [CallAnswers, PublishFails, Release]
      else if o.acked then [CallAnswers, Published, AckSent, Release]
      else [CallAnswers, Published, AckFails, AckReported, Release]
    case _ => [CallFails, Reported, Release]
  }

  lemma ActsReachTheEnd(c: Config, o: Outcome)
    ensures Reached(PolicyOf(c.responseTopic != ""), ActsFor(c, o)) == Some(Gone)
  {
    var p := PolicyOf(c.responseTopic != "");
    if !o.call.Answered? {
      ReachedByThree(p, CallFails, Reported, Release);
    } else if c.responseTopic == "" {
      ReachedByThree(p, CallAnswers, NoTopic, Release);
    } else if !o.published {
      ReachedByThree(p, CallAnswers, PublishFails, Release);
    } else if o.acked {
      ReachedByFour(p, CallAnswers, Published, AckSent, Release);
    } else {
      ReachedByFive(p, CallAnswers, Published, AckFails, AckReported, Release);
    }
  }

  function Doing(m: nat, acts: seq<Act>): seq<Label> {
    seq(|acts|, i requires 0 <= i < |acts| => Do(m, acts[i]))
  }

  /** The acts have taken the callback of m to this stage and nothing else happened but that
      an ack went out. */
  ghost predicate LeadsTo(c: State, m: nat, s: Stage, c': State) {
    c' == c.(callback := if s.Gone? then Idle else Busy(m, s), transit := c'.transit)
  }

  lemma {:induction false} ActsAreAPath(c: State, m: nat, acts: seq<Act>) returns (path: seq<State>)
    requires c.callback == Busy(m, Calling) && Reached(PolicyOf(c.hasTopic), acts).Some?
    ensures IsPath(path, Doing(m, acts)) && path[0] == c
    ensures LeadsTo(c, m, Reached(PolicyOf(c.hasTopic), acts).value, path[|acts|])
  {
    if acts == [] {
      path := [c];
    } else {
      var n := |acts| - 1;
      path := ActsAreAPath(c, m, acts[..n]);
      var here, s := path[n], Reached(PolicyOf(c.hasTopic), acts).value;
      var next := here.(callback := if s.Gone? then Idle else Busy(m, s),
                        transit := if acts[n].AckSent? then here.transit + {m} else here.transit);
      assert Doing(m, acts) == Doing(m, acts[..n]) + [Do(m, acts[n])];
      PathSnoc(path, Doing(m, acts[..n]), Do(m, acts[n]), next);
      path := path + [next];
    }
  }

  /** A callback that returns has taken a path of the transition system to its end. */
  lemma CallbackIsAPath(c: Config, o: Outcome, s: State, m: nat) returns (path: seq<State>)
    requires s.callback == Busy(m, Calling) && s.hasTopic == (c.responseTopic != "")
    ensures IsPath(path, Doing(m, ActsFor(c, o))) && path[0] == s
    ensures LeadsTo(s, m, Gone, path[|ActsFor(c, o)|])
  {
    ActsReachTheEnd(c, o);
    path := ActsAreAPath(s, m, ActsFor(c, o));
  }

  /** What an answer leads to: the publish, and if that is accepted the ack. */
  function AnswerEffects(c: Config, body: string, o: Outcome): seq<Effect> {
    if c.responseTopic == "" then []
    else if !o.published then [Publish(c.responseTopic, body, false)]
    else [Publish(c.responseTopic, body, true), Ack(o.acked)]
         + if o.acked then [] else ErrorEffects(c, o.rejected, o.reported)
  }

  /** The calls of a callback that returned. */
  function CallbackEffects(c: Config, data: string, o: Outcome): seq<Effect> {
    [Invoke(data)] +
    match o.call
    case Failed(e) => ErrorEffects(c, e, o.published)
    case Unreadable(e) => ErrorEffects(c, e, o.published)
    case Answered(body) => AnswerEffects(c, body, o)
  }

  /** The calls each act stands for. */
  function CallsOf(c: Config, data: string, o: Outcome, a: Act): seq<Effect> {
    match a
    case CallFails => [Invoke(data)]
    case CallAnswers => [Invoke(data)]
    case Reported => if o.call.Answered? then [] else ErrorEffects(c, o.call.err, o.published)
    case Published => if o.call.Answered? then [Publish(c.responseTopic, o.call.body, true)] else []
    case PublishFails => if o.call.Answered? then [Publish(c.responseTopic, o.call.body, false)] else []
    case AckSent => [Ack(true)]
    case AckFails => [Ack(false)]
    case AckReported => ErrorEffects(c, o.rejected, o.reported)
    case _ => []
  }

  function EachCalls(c: Config, data: string, o: Outcome): Act -> seq<Effect> {
    a => CallsOf(c, data, o, a)
  }

  lemma ErrorCalls(c: Config, data: string, o: Outcome)
    requires !o.call.Answered?
    ensures CallbackEffects(c, data, o) == Calls(EachCalls(c, data, o), ActsFor(c, o))
  {
    CallsByThree(EachCalls(c, data, o), CallFails, Reported, Release);
  }

  lemma UnpublishedCalls(c: Config, data: string, o: Outcome)
    requires o.call.Answered? && (c.responseTopic == "" || !o.published)
    ensures CallbackEffects(c, data, o) == Calls(EachCalls(c, data, o), ActsFor(c, o))
  {
    CallsByThree(EachCalls(c, data, o), CallAnswers, if c.responseTopic == "" then NoTopic else PublishFails,
                 Release);
  }

  lemma AckedCalls(c: Config, data: string, o: Outcome)
    requires o.call.Answered? && c.responseTopic != "" && o.published && o.acked
    ensures CallbackEffects(c, data, o) == Calls(EachCalls(c, data, o), ActsFor(c, o))
  {
    CallsByFour(EachCalls(c, data, o), CallAnswers, Published, AckSent, Release);
  }

  lemma FailedAckCalls(c: Config, data: string, o: Outcome)
    requires o.call.Answered? && c.responseTopic != "" && o.published && !o.acked
    ensures CallbackEffects(c, data, o) == Calls(EachCalls(c, data, o), ActsFor(c, o))
  {
    CallsByFive(EachCalls(c, data, o), CallAnswers, Published, AckFails, AckReported, Release);
  }

  /** The calls are those the acts stand for, act by act. */
  lemma CallsFollowTheActs(c: Config, data: string, o: Outcome)
    ensures CallbackEffects(c, data, o) == Calls(EachCalls(c, data, o), ActsFor(c, o))
  {
    if !o.call.Answered? {
      ErrorCalls(c, data, o);
    } else if c.responseTopic == "" || !o.published {
      UnpublishedCalls(c, data, o);
    } else if o.acked {
      AckedCalls(c, data, o);
    } else {
      FailedAckCalls(c, data, o);
    }
  }

  /** What a callback's calls say: the message is put through the function once; an error's
      text goes to the error topic, if there is one; an answer's body goes to the response
      topic, if there is one, and only if that was accepted the message is acked, a failed ack
      being reported to the error topic. */
  ghost predicate Says(c: Config, data: string, o: Outcome, es: seq<Effect>) {
    && |es| > 0 && es[0] == Invoke(data)
    && (!o.call.Answered? ==>
          es[1..] == if c.errorTopic == "" then [] else [Publish(c.errorTopic, o.call.err, o.published)])
    && (o.call.Answered? && c.responseTopic == "" ==> es[1..] == [])
    && (o.call.Answered? && c.responseTopic != "" && !o.published ==>
          es[1..] == [Publish(c.responseTopic, o.call.body, false)])
    && (o.call.Answered? && c.responseTopic != "" && o.published ==>
          es[1..] == [Publish(c.responseTopic, o.call.body, true), Ack(o.acked)]
                     + if o.acked || c.errorTopic == "" then []
                       else [Publish(c.errorTopic, o.rejected, o.reported)])
  }

  lemma CallbacksSay(c: Config, data: string, o: Outcome)
    ensures Says(c, data, o, CallbackEffects(c, data, o))
  {
  }

  /** The ack a call made comes right after the accepted publish of its response, and only
      the report of its failure comes after it. */
  ghost predicate AckAt(c: Config, o: Outcome, es: seq<Effect>, i: nat) {
    && i < |es| && es[i].Ack? && i > 0 && o.call.Answered?
    && es[i - 1] == Publish(c.responseTopic, o.call.body, true)
    && es[i + 1..] == if es[i].accepted || c.errorTopic == "" then []
                      else [Publish(c.errorTopic, o.rejected, o.reported)]
  }

  /** There is at most one ack, exactly when the response was published. */
  ghost predicate AcksOnce(c: Config, o: Outcome, es: seq<Effect>) {
    && (forall i, j :: 0 <= i < |es| && 0 <= j < |es| && es[i].Ack? && es[j].Ack? ==> i == j)
    && (forall i :: 0 <= i < |es| && es[i].Ack? ==> AckAt(c, o, es, i))
    && ((exists i :: AckAt(c, o, es, i)) <==> o.call.Answered? && c.responseTopic != "" && o.published)
  }

  lemma CallbacksAckOnce(c: Config, data: string, o: Outcome, es: seq<Effect>)
    requires es == CallbackEffects(c, data, o)
    ensures AcksOnce(c, o, es)
  {
    if o.call.Answered? && c.responseTopic != "" && o.published {
      assert AckAt(c, o, es, 2);
    }
  }

  class Connector {
    const config: Config
    var effects: seq<Effect>
    ghost var acts: seq<Act>

    constructor (config: Config)
      ensures this.config == config && effects == [] && acts == []
    {
      this.config, effects, acts := config, [], [];
    }

    method ErrorHandler(text: string, accepted: bool)
      modifies this`effects
      ensures effects == old(effects) + ErrorEffects(config, text, accepted)
    {
      if |config.errorTopic| == 0 {
        return;
      }
      effects := effects + [Publish(config.errorTopic, text, accepted)];
    }

    method ResponseHandler(body: string, accepted: bool) returns (ok: bool)
      modifies this`effects
      ensures effects == old(effects) + if config.responseTopic == "" then []
                                        else [Publish(config.responseTopic, body, accepted)]
      ensures ok <==> config.responseTopic != "" && accepted
    {
      if |config.responseTopic| == 0 {
        return false;
      }
      effects := effects + [Publish(config.responseTopic, body, accepted)];
      return accepted;
    }

    /** m.Ack, and the report of its failure. */
    method Acknowledge(o: Outcome)
      modifies this
      ensures effects == old(effects) + [Ack(o.acked)]
                         + if o.acked then [] else ErrorEffects(config, o.rejected, o.reported)
      ensures acts == old(acts) + if o.acked then [AckSent] else [AckFails, AckReported]
    {
      effects := effects + [Ack(o.acked)];
      if o.acked {
        acts := acts + [AckSent];
      } else {
        ErrorHandler(o.rejected, o.reported);
        acts := acts + [AckFails, AckReported];
      }
    }

    /** The callback from the answer on. */
    method HandleAnswer(body: string, o: Outcome)
      requires o.call == Answered(body)
      modifies this
      ensures acts == old(acts) + ActsFor(config, o)
      ensures effects == old(effects) + AnswerEffects(config, body, o)
    {
      var success := ResponseHandler(body, o.published);
      acts := acts + [CallAnswers, if config.responseTopic == "" then NoTopic
                                   else if o.published then Published else PublishFails];
      if success {
        Acknowledge(o);
      }
      acts := acts + [Release];
    }

    /** The subscription's callback for one delivery. */
    method OnMessage(data: string, o: Outcome)
      modifies this
      ensures acts == old(acts) + ActsFor(config, o)
      ensures effects == old(effects) + CallbackEffects(config, data, o)
      ensures AcksOnce(config, o, CallbackEffects(config, data, o))
      ensures CallbackEffects(config, data, o) == Calls(EachCalls(config, data, o), ActsFor(config, o))
      ensures Says(config, data, o, CallbackEffects(config, data, o))
    {
      effects := effects + [Invoke(data)];
      match o.call {
        case Failed(e) =>
          ErrorHandler(e, o.published);
          acts := acts + [CallFails, Reported, Release];
        case Unreadable(e) =>
          ErrorHandler(e, o.published);
          acts := acts + [CallFails, Reported, Release];
        case Answered(body) => HandleAnswer(body, o);
      }
      CallbacksAckOnce(config, data, o, CallbackEffects(config, data, o));
      CallsFollowTheActs(config, data, o);
      CallbacksSay(config, data, o);
    }
  }
}
