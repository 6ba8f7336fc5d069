/** The JetStream connector: its capacity, and the handler of one message. */
module JetStream {
  import opened Basics
  import opened Headers
  import opened Handling
  import BH = BoundedHandlers

  datatype Config = Config(
    topic: string,
    responseTopic: string,
    errorTopic: string,
    contentType: string,
    source: string)

  datatype Message = Message(data: string, headers: Header)

  /** How one message turned out: the function call, whether a publish was accepted, whether
      the ack was. */
  datatype Outcome = Outcome(call: Invocation, published: bool, acked: bool)

  datatype Effect =
    | Invoke(message: string, headers: Header)
    | Publish(subject: string, data: string, accepted: bool)
    | Ack(accepted: bool)

  /** make(chan int, concurrency): the value of CONCURRENT, None when it is unset or is not
      a number, is never taken below one. */
  method InitialiseConcurrency(concurrent: Option<int>) returns (capacity: nat)
    ensures capacity >= 1
    ensures concurrent.Some? && concurrent.value >= 1 ==> capacity == concurrent.value
    ensures concurrent.None? || concurrent.value < 1 ==> capacity == 1
  {
    var concurrency := 1;
    if concurrent.Some? {
      concurrency := concurrent.value;
    }
    if concurrency < 1 {
      concurrency := 1;
    }
    return concurrency;
  }

  function PolicyOf(c: Config, capacity: nat): Policy {
    Policy(capacity, c.responseTopic != "", true, false, false)
  }

  function BaseHeaders(c: Config): Header {
    map["Topic" := [c.topic], "RespTopic" := [c.responseTopic], "ErrorTopic" := [c.errorTopic],
        "Content-Type" := [c.contentType], "Source-Name" := [c.source]]
  }

  /** The acts of a handler that ran to its end. */
  function ActsFor(c: Config, o: Outcome): seq<Act> {
    var ack := if o.acked then AckSent else AckFails;
    match o.call
    case Answered(_) =>
      if c.responseTopic == "" then [CallAnswers, NoTopic, Release]
      else if o.published then [CallAnswers, Published, ack, Release]
      else [CallAnswers, PublishFails, Release]
    case _ => [CallFails, Reported, ack, Release]
  }

  function ErrorEffects(c: Config, text: string, accepted: bool): seq<Effect> {
    if c.errorTopic == "" then [] else [Publish(c.errorTopic, text, accepted)]
  }

  /** The calls of a handler that ran to its end. The message's own headers win over the
      connector's, key by key. */
  function HandlerEffects(c: Config, msg: Message, o: Outcome): seq<Effect> {
    [Invoke(msg.data, BaseHeaders(c) + msg.headers)] +
    match o.call
    case Answered(body) =>
      if c.responseTopic == "" then []
      else [Publish(c.responseTopic, body, o.published)] + if o.published then [Ack(o.acked)] else []
    case Failed(e) => ErrorEffects(c, e, o.published) + [Ack(o.acked)]
    case Unreadable(e) => ErrorEffects(c, e, o.published) + [Ack(o.acked)]
  }

  /** The calls each act stands for. */
  function CallsOf(c: Config, msg: Message, o: Outcome, a: Act): seq<Effect> {
    match a
    case CallFails => [Invoke(msg.data, BaseHeaders(c) + msg.headers)]
    case CallAnswers => [Invoke(msg.data, BaseHeaders(c) + msg.headers)]
    case Reported => if o.call.Answered? then [] else ErrorEffects(c, o.call.err, o.published)
    case Published => if o.call.Answered? then [Publish(c.responseTopic, o.call.body, true)] else []
    case PublishFails => if o.call.Answered? then [Publish(c.responseTopic, o.call.body, false)] else []
    case AckSent => [Ack(true)]
    case AckFails => [Ack(false)]
    case _ => []
  }

  function EachCalls(c: Config, msg: Message, o: Outcome): Act -> seq<Effect> {
    a => CallsOf(c, msg, o, a)
  }

  lemma ErrorCalls(c: Config, msg: Message, o: Outcome)
    requires !o.call.Answered?
    ensures HandlerEffects(c, msg, o) == Calls(EachCalls(c, msg, o), ActsFor(c, o))
  {
    CallsByFour(EachCalls(c, msg, o), CallFails, Reported, if o.acked then AckSent else AckFails, Release);
  }

  lemma PublishedCalls(c: Config, msg: Message, o: Outcome)
    requires o.call.Answered? && c.responseTopic != "" && o.published
    ensures HandlerEffects(c, msg, o) == Calls(EachCalls(c, msg, o), ActsFor(c, o))
  {
    CallsByFour(EachCalls(c, msg, o), CallAnswers, Published, if o.acked then AckSent else AckFails, Release);
  }

  lemma UnpublishedCalls(c: Config, msg: Message, o: Outcome)
    requires o.call.Answered? && (c.responseTopic == "" || !o.published)
    ensures HandlerEffects(c, msg, o) == Calls(EachCalls(c, msg, o), ActsFor(c, o))
  {
    CallsByThree(EachCalls(c, msg, o), CallAnswers, if c.responseTopic == "" then NoTopic else PublishFails, Release);
  }

  /** The calls are those the acts stand for, act by act. */
  lemma CallsFollowTheActs(c: Config, msg: Message, o: Outcome, es: seq<Effect>, acts: seq<Act>)
    requires es == HandlerEffects(c, msg, o) && acts == ActsFor(c, o)
    ensures es == Calls(EachCalls(c, msg, o), acts)
  {
    if !o.call.Answered? {
      ErrorCalls(c, msg, o);
    } else if c.responseTopic != "" && o.published {
      PublishedCalls(c, msg, o);
    } else {
      UnpublishedCalls(c, msg, o);
    }
  }

  /** The request headers: the message's own, and under the connector's names its own values
      where the message has none; no others. */
  ghost predicate CarriesHeaders(c: Config, msg: Message, h: Header) {
    && (forall k :: k in msg.headers ==> k in h && h[k] == msg.headers[k])
    && (forall k :: k in h && k !in msg.headers ==>
          k == "Topic" || k == "RespTopic" || k == "ErrorTopic" || k == "Content-Type" || k == "Source-Name")
    && ("Topic" !in msg.headers ==> Values(h, "Topic") == [c.topic])
    && ("RespTopic" !in msg.headers ==> Values(h, "RespTopic") == [c.responseTopic])
    && ("ErrorTopic" !in msg.headers ==> Values(h, "ErrorTopic") == [c.errorTopic])
    && ("Content-Type" !in msg.headers ==> Values(h, "Content-Type") == [c.contentType])
    && ("Source-Name" !in msg.headers ==> Values(h, "Source-Name") == [c.source])
  }

  /** What a handler's calls say: the message is put through the function once; an answer's
      body is then published to the response topic and acked if that was accepted, or left
      unacked if there is no such topic; an error's text goes to the error topic, if there is
      one, and the message is acked. */
  ghost predicate Says(c: Config, msg: Message, o: Outcome, es: seq<Effect>) {
    && |es| > 0 && es[0].Invoke? && es[0].message == msg.data && CarriesHeaders(c, msg, es[0].headers)
    && (o.call.Answered? ==>
          es[1..] == if c.responseTopic == "" then []
                     else if o.published then [Publish(c.responseTopic, o.call.body, true), Ack(o.acked)]
                     else [Publish(c.responseTopic, o.call.body, false)])
    && (!o.call.Answered? ==>
          es[1..] == if c.errorTopic == "" then [Ack(o.acked)]
                     else [Publish(c.errorTopic, o.call.err, o.published), Ack(o.acked)])
  }

  lemma HeadersAreCarried(c: Config, msg: Message)
    ensures CarriesHeaders(c, msg, BaseHeaders(c) + msg.headers)
  {
  }

  lemma HandlersSay(c: Config, msg: Message, o: Outcome, es: seq<Effect>)
    requires es == HandlerEffects(c, msg, o)
    ensures Says(c, msg, o, es)
  {
    HeadersAreCarried(c, msg);
  }

  /** There is at most one ack, it is the very last call, it is made exactly when the response
      was published or the call failed, and it comes right after that publish, or after the
      error's, if one is configured. */
  ghost predicate AcksLast(c: Config, o: Outcome, es: seq<Effect>) {
    var n := |es|;
    && n > 0
    && (forall i :: 0 <= i < n && es[i].Ack? ==> i == n - 1)
    && (es[n - 1].Ack? <==> !o.call.Answered? || (c.responseTopic != "" && o.published))
    && (es[n - 1].Ack? ==>
          && n > 1
          && (o.call.Answered? ==> es[n - 2] == Publish(c.responseTopic, o.call.body, true))
          && (!o.call.Answered? && c.errorTopic != "" ==> es[n - 2] == Publish(c.errorTopic, o.call.err, o.published)))
  }

  lemma HandlersAckLast(c: Config, msg: Message, o: Outcome, es: seq<Effect>)
    requires es == HandlerEffects(c, msg, o)
    ensures AcksLast(c, o, es)
  {
  }

  class Handler {
    const config: Config
    var effects: seq<Effect>
    ghost var acts: seq<Act>

    constructor (config: Config)
      ensures this.config == config && effects == [] && acts == []
    {
      this.config, effects, acts := config, [], [];
    }

    method ErrorHandler(text: string, accepted: bool)
      modifies this`effects
      ensures effects == old(effects) + ErrorEffects(config, text, accepted)
    {
      if |config.errorTopic| == 0 {
        return;
      }
      effects := effects + [Publish(config.errorTopic, text, accepted)];
    }

    method ResponseHandler(body: string, accepted: bool) returns (ok: bool)
      modifies this`effects
      ensures effects == old(effects) + if config.responseTopic == "" then []
                                        else [Publish(config.responseTopic, body, accepted)]
      ensures ok <==> config.responseTopic != "" && accepted
    {
      if |config.responseTopic| == 0 {
        return false;
      }
      effects := effects + [Publish(config.responseTopic, body, accepted)];
      return accepted;
    }

    method AcknowledgeMsg(accepted: bool)
      modifies this`effects, this`acts
      ensures effects == old(effects) + [Ack(accepted)]
      ensures acts == old(acts) + [if accepted then AckSent else AckFails]
    {
      effects := effects + [Ack(accepted)];
      acts := acts + [if accepted then AckSent else AckFails];
    }

    /** The goroutine of one message, to the receive that gives its token back. */
    method HandleHTTPRequest(msg: Message, o: Outcome)
      requires effects == [] && acts == []
      modifies this
      ensures acts == ActsFor(config, o)
      ensures effects == HandlerEffects(config, msg, o) && AcksLast(config, o, effects)
      ensures effects == Calls(EachCalls(config, msg, o), acts)
      ensures Says(config, msg, o, effects)
    {
      var headers := BaseHeaders(config);
      headers := headers + msg.headers;
      effects := [Invoke(msg.data, headers)];
      match o.call {
        case Failed(e) =>
          ErrorHandler(e, o.published);
          acts := [CallFails, Reported];
          AcknowledgeMsg(o.acked);
        case Unreadable(e) =>
          ErrorHandler(e, o.published);
          acts := [CallFails, Reported];
          AcknowledgeMsg(o.acked);
        case Answered(body) =>
          var success := ResponseHandler(body, o.published);
          acts := [CallAnswers, if config.responseTopic == "" then NoTopic
                                   else if o.published then Published else PublishFails];
          if success {
            AcknowledgeMsg(o.acked);
          }
      }
      acts := acts + [Release];
      HandlersAckLast(config, msg, o, effects);
      CallsFollowTheActs(config, msg, o, effects, acts);
      HandlersSay(config, msg, o, effects);
    }
  }

  /** A handler that runs to its end takes only steps of the bounded-handlers system. */
  lemma ActsReachTheEnd(c: Config, o: Outcome, capacity: nat)
    ensures Reached(PolicyOf(c, capacity), ActsFor(c, o)) == Some(Gone)
  {
    var p := PolicyOf(c, capacity);
    var ack := if o.acked then AckSent else AckFails;
    if !o.call.Answered? {
      ReachedByFour(p, CallFails, Reported, ack, Release);
    } else if c.responseTopic == "" {
      ReachedByThree(p, CallAnswers, NoTopic, Release);
    } else if o.published {
      ReachedByFour(p, CallAnswers, Published, ack, Release);
    } else {
      ReachedByThree(p, CallAnswers, PublishFails, Release);
    }
  }

  /** In a reachable state a new handler's acts are a path of the system to its end. */
  lemma HandlerIsAPath(c: Config, o: Outcome, s: BH.State, k: nat) returns (path: seq<BH.State>)
    requires BH.TokensOk(s) && s.policy == PolicyOf(c, s.policy.capacity)
    requires k < |s.handlers| && s.handlers[k].stage == Calling
    ensures BH.IsPath(path, BH.Doing(k, ActsFor(c, o))) && path[0] == s
    ensures BH.LeadsTo(s, k, Gone, path[|ActsFor(c, o)|])
  {
    ActsReachTheEnd(c, o, s.policy.capacity);
    path := BH.HandlerRunsToTheEnd(s, k, ActsFor(c, o));
  }

  ghost predicate PublishedBy(h: seq<BH.Label>, k: nat) {
    exists j :: 0 <= j < |h| && h[j] == BH.Do(k, Published)
  }

  ghost predicate ErrorHandledBy(h: seq<BH.Label>, k: nat) {
    exists j :: 0 <= j < |h| && h[j] == BH.Do(k, Reported)
  }

  /** In any run of the connector each handler acks at most once, and only after its
      response was published or its error handler ran; without a response topic only the
      latter; and no message leaves the broker without one of the two in its history. */
  lemma AcksOnlyAfterAnOutcome(c: Config, states: seq<BH.State>, labels: seq<BH.Label>, i: nat, k: nat)
    requires BH.IsRun(states, labels) && i < |states|
    requires states[0].policy == PolicyOf(c, states[0].policy.capacity)
    ensures BH.Acks(labels[..i], k) <= 1
    ensures i < |labels| && labels[i] == BH.Do(k, AckSent) ==>
              (c.responseTopic != "" && PublishedBy(labels[..i], k)) || ErrorHandledBy(labels[..i], k)
    ensures forall m :: m in states[i].produced && m !in states[i].held ==>
              exists j :: 0 <= j < |states[i].handlers| && states[i].handlers[j].msg == m
                          && (PublishedBy(labels[..i], j) || ErrorHandledBy(labels[..i], j))
  {
    BH.AcksFollowOutcomes(states, labels, i, k);
    BH.TokensAlways(states, labels, i);
    var p, h := states[0].policy, labels[..i];
    if i < |labels| && labels[i] == BH.Do(k, AckSent) {
      EntitledMeans(c, p.capacity, states, labels, i, k);
    }
    forall m | m in states[i].produced && m !in states[i].held
      ensures exists j :: 0 <= j < |states[i].handlers| && states[i].handlers[j].msg == m
                          && (PublishedBy(h, j) || ErrorHandledBy(h, j))
    {
      assert BH.Safe(states[i], h, m);
      var j :| 0 <= j < |states[i].handlers| && states[i].handlers[j].msg == m && BH.Entitled(p, h, j);
      EntitledMeans(c, p.capacity, states, labels, i, j);
    }
  }

  lemma EntitledMeans(c: Config, capacity: nat, states: seq<BH.State>, labels: seq<BH.Label>, i: nat, k: nat)
    requires BH.IsRun(states, labels) && i < |states| && states[0].policy == PolicyOf(c, capacity)
    requires BH.Entitled(states[0].policy, labels[..i], k)
    ensures (c.responseTopic != "" && PublishedBy(labels[..i], k)) || ErrorHandledBy(labels[..i], k)
  {
    var h := labels[..i];
    var j :| 0 <= j < |h| && h[j].Do? && h[j].k == k && BH.Entitles(states[0].policy, h[j].act);
    assert h[j] == BH.Do(k, h[j].act);
    assert labels[j] == h[j];
    BH.StepOfRun(states, labels, j);
    BH.TokensAlways(states, labels, j);
  }
}
