/** The RabbitMQ connector: the goroutine of one delivery, and what its runs guarantee. */
module RabbitMq {
  import opened Basics
  import opened Handling
  import BH = BoundedHandlers

  datatype Config = Config(responseTopic: string, errorTopic: string)

  /** How one delivery turned out. rejected is the text of a failed ack. */
  datatype Outcome = Outcome(call: Invocation, published: bool, acked: bool, rejected: string, reported: bool)

  datatype Effect =
    | Invoke(message: string)
    | Publish(queue: string, data: string, accepted: bool)
    | Ack(accepted: bool)

  function PolicyOf(c: Config, capacity: nat): Policy {
    Policy(capacity, c.responseTopic != "", false, true, true)
  }

  function ActsFor(c: Config, o: Outcome): seq<Act> {
    match o.call
    case Answered(_) =>
      if c.responseTopic != "" && !o.published then [CallAnswers, PublishFails, Release]
      else
        var step := if c.responseTopic == "" then NoTopic else Published;
        if o.acked then [CallAnswers, step, AckSent, Release]
        else [CallAnswers, step, AckFails, AckReported, Release]
    case _ => [CallFails, Reported, Release]
  }

  function ErrorEffects(c: Config, text: string, accepted: bool): seq<Effect> {
    if c.errorTopic == "" then [] else [Publish(c.errorTopic, text, accepted)]
  }

  /** The calls of a goroutine that ran to its end. */
  function HandlerEffects(c: Config, body: string, o: Outcome): seq<Effect> {
    [Invoke(body)] +
    match o.call
    case Failed(e) => ErrorEffects(c, e, o.published)
    case Unreadable(e) => ErrorEffects(c, e, o.published)
    case Answered(text) =>
      if c.responseTopic != "" && !o.published then [Publish(c.responseTopic, text, false)]
      else
        (if c.responseTopic == "" then [] else [Publish(c.responseTopic, text, true)])
        + [Ack(o.acked)]
        + if o.acked then [] else ErrorEffects(c, o.rejected, o.reported)
  }

  /** The calls each act stands for. */
  function CallsOf(c: Config, body: string, o: Outcome, a: Act): seq<Effect> {
    match a
    case CallFails => [Invoke(body)]
    case CallAnswers => [Invoke(body)]
    case Reported => if o.call.Answered? then [] else ErrorEffects(c, o.call.err, o.published)
    case Published => if o.call.Answered? then [Publish(c.responseTopic, o.call.body, true)] else []
    case PublishFails => if o.call.Answered? then [Publish(c.responseTopic, o.call.body, false)] else []
    case AckSent => [Ack(true)]
    case AckFails => [Ack(false)]
    case AckReported => ErrorEffects(c, o.rejected, o.reported)
    case _ => []
  }

  function EachCalls(c: Config, body: string, o: Outcome): Act -> seq<Effect> {
    a => CallsOf(c, body, o, a)
  }

  lemma ErrorCalls(c: Config, body: string, o: Outcome)
    requires !o.call.Answered?
    ensures HandlerEffects(c, body, o) == Calls(EachCalls(c, body, o), ActsFor(c, o))
  {
    CallsByThree(EachCalls(c, body, o), CallFails, Reported, Release);
  }

  lemma UnpublishedCalls(c: Config, body: string, o: Outcome)
    requires o.call.Answered? && c.responseTopic != "" && !o.published
    ensures HandlerEffects(c, body, o) == Calls(EachCalls(c, body, o), ActsFor(c, o))
  {
    CallsByThree(EachCalls(c, body, o), CallAnswers, PublishFails, Release);
  }

  lemma AckedCalls(c: Config, body: string, o: Outcome)
    requires o.call.Answered? && (c.responseTopic == "" || o.published) && o.acked
    ensures HandlerEffects(c, body, o) == Calls(EachCalls(c, body, o), ActsFor(c, o))
  {
    CallsByFour(EachCalls(c, body, o), CallAnswers, if c.responseTopic == "" then NoTopic else Published,
                AckSent, Release);
  }

  lemma FailedAckCalls(c: Config, body: string, o: Outcome)
    requires o.call.Answered? && (c.responseTopic == "" || o.published) && !o.acked
    ensures HandlerEffects(c, body, o) == Calls(EachCalls(c, body, o), ActsFor(c, o))
  {
    CallsByFive(EachCalls(c, body, o), CallAnswers, if c.responseTopic == "" then NoTopic else Published,
                AckFails, AckReported, Release);
  }

  /** The calls are those the acts stand for, act by act. */
  lemma CallsFollowTheActs(c: Config, body: string, o: Outcome, es: seq<Effect>, acts: seq<Act>)
    requires es == HandlerEffects(c, body, o) && acts == ActsFor(c, o)
    ensures es == Calls(EachCalls(c, body, o), acts)
  {
    if !o.call.Answered? {
      ErrorCalls(c, body, o);
    } else if c.responseTopic != "" && !o.published {
      UnpublishedCalls(c, body, o);
    } else if o.acked {
      AckedCalls(c, body, o);
    } else {
      FailedAckCalls(c, body, o);
    }
  }

  /** What a goroutine's calls say: the delivery is put through the function once; an error's
      text goes to the error queue, if there is one, and nothing is acked; an answer's body
      goes to the response queue, if there is one, and unless that was refused the delivery is
      acked, a failed ack being reported to the error queue. */
  ghost predicate Says(c: Config, body: string, o: Outcome, es: seq<Effect>) {
    && |es| > 0 && es[0] == Invoke(body)
    && (!o.call.Answered? ==>
          es[1..] == if c.errorTopic == "" then [] else [Publish(c.errorTopic, o.call.err, o.published)])
    && (o.call.Answered? && c.responseTopic != "" && !o.published ==>
          es[1..] == [Publish(c.responseTopic, o.call.body, false)])
    && (o.call.Answered? && (c.responseTopic == "" || o.published) ==>
          es[1..] == (if c.responseTopic == "" then [] else [Publish(c.responseTopic, o.call.body, true)])
                     + [Ack(o.acked)]
                     + if o.acked || c.errorTopic == "" then []
                       else [Publish(c.errorTopic, o.rejected, o.reported)])
  }

  lemma HandlersSay(c: Config, body: string, o: Outcome, es: seq<Effect>)
    requires es == HandlerEffects(c, body, o)
    ensures Says(c, body, o, es)
  {
  }

  /** The ack that a call made, and what surrounds it: right before it the accepted publish
      of the response, or the call if there is no response queue; after it nothing, or the
      report of its failure. */
  ghost predicate AckAt(c: Config, o: Outcome, es: seq<Effect>, i: nat) {
    && i < |es| && es[i].Ack? && i > 0 && o.call.Answered?
    && (if c.responseTopic == "" then es[i - 1].Invoke?
        else es[i - 1] == Publish(c.responseTopic, o.call.body, true))
    && es[i + 1..] == if es[i].accepted || c.errorTopic == "" then []
                      else [Publish(c.errorTopic, o.rejected, o.reported)]
  }

  /** There is at most one ack, exactly when the response step succeeded; a failed call is
      never acked. */
  ghost predicate AcksOnce(c: Config, o: Outcome, es: seq<Effect>) {
    && (forall i, j :: 0 <= i < |es| && 0 <= j < |es| && es[i].Ack? && es[j].Ack? ==> i == j)
    && (forall i :: 0 <= i < |es| && es[i].Ack? ==> AckAt(c, o, es, i))
    && ((exists i :: AckAt(c, o, es, i)) <==> o.call.Answered? && (c.responseTopic == "" || o.published))
  }

  lemma HandlersAckOnce(c: Config, body: string, o: Outcome, es: seq<Effect>)
    requires es == HandlerEffects(c, body, o)
    ensures AcksOnce(c, o, es)
  {
    if o.call.Answered? && (c.responseTopic == "" || o.published) {
      assert AckAt(c, o, es, if c.responseTopic == "" then 1 else 2);
    }
  }

  class Handler {
    const config: Config
    var effects: seq<Effect>
    ghost var acts: seq<Act>

    constructor (config: Config)
      ensures this.config == config && effects == [] && acts == []
    {
      this.config, effects, acts := config, [], [];
    }

    method ErrorHandler(text: string, accepted: bool)
      modifies this`effects
      ensures effects == old(effects) + ErrorEffects(config, text, accepted)
    {
      if |config.errorTopic| > 0 {
        effects := effects + [Publish(config.errorTopic, text, accepted)];
      }
    }

    method ResponseHandler(body: string, accepted: bool) returns (ok: bool)
      modifies this`effects
      ensures effects == old(effects) + if config.responseTopic == "" then []
                                        else [Publish(config.responseTopic, body, accepted)]
      ensures ok <==> config.responseTopic == "" || accepted
    {
      if |config.responseTopic| > 0 {
        effects := effects + [Publish(config.responseTopic, body, accepted)];
        if !accepted {
          return false;
        }
      }
      return true;
    }

    /** d.Ack, and the report of its failure. */
    method Acknowledge(o: Outcome)
      modifies this
      ensures effects == old(effects) + [Ack(o.acked)]
                         + if o.acked then [] else ErrorEffects(config, o.rejected, o.reported)
      ensures acts == old(acts) + if o.acked then [AckSent] else [AckFails, AckReported]
    {
      effects := effects + [Ack(o.acked)];
      if o.acked {
        acts := acts + [AckSent];
      } else {
        ErrorHandler(o.rejected, o.reported);
        acts := acts + [AckFails, AckReported];
      }
    }

    /** The goroutine of one delivery, to the receive that gives its token back. */
    method Handle(body: string, o: Outcome)
      requires effects == [] && acts == []
      modifies this
      ensures acts == ActsFor(config, o)
      ensures effects == HandlerEffects(config, body, o) && AcksOnce(config, o, effects)
      ensures effects == Calls(EachCalls(config, body, o), acts)
      ensures Says(config, body, o, effects)
    {
      effects := [Invoke(body)];
      match o.call {
        case Failed(e) =>
          ErrorHandler(e, o.published);
          acts := [CallFails, Reported];
        case Unreadable(e) =>
          ErrorHandler(e, o.published);
          acts := [CallFails, Reported];
        case Answered(text) =>
          var success := ResponseHandler(text, o.published);
          acts := [CallAnswers, if config.responseTopic == "" then NoTopic
                                   else if o.published then Published else PublishFails];
          if success {
            Acknowledge(o);
          }
      }
      acts := acts + [Release];
      HandlersAckOnce(config, body, o, effects);
      CallsFollowTheActs(config, body, o, effects, acts);
      HandlersSay(config, body, o, effects);
    }
  }

  /** A handler that runs to its end takes only steps of the bounded-handlers system. */
  lemma ActsReachTheEnd(c: Config, o: Outcome, capacity: nat)
    ensures Reached(PolicyOf(c, capacity), ActsFor(c, o)) == Some(Gone)
  {
    var p := PolicyOf(c, capacity);
    var step := if c.responseTopic == "" then NoTopic else Published;
    if !o.call.Answered? {
      ReachedByThree(p, CallFails, Reported, Release);
    } else if c.responseTopic != "" && !o.published {
      ReachedByThree(p, CallAnswers, PublishFails, Release);
    } else if o.acked {
      ReachedByFour(p, CallAnswers, step, AckSent, Release);
    } else {
      ReachedByFive(p, CallAnswers, step, AckFails, AckReported, Release);
    }
  }

  /** In a reachable state a new goroutine's acts are a path of the system to its end. */
  lemma HandlerIsAPath(c: Config, o: Outcome, s: BH.State, k: nat) returns (path: seq<BH.State>)
    requires BH.TokensOk(s) && s.policy == PolicyOf(c, s.policy.capacity)
    requires k < |s.handlers| && s.handlers[k].stage == Calling
    ensures BH.IsPath(path, BH.Doing(k, ActsFor(c, o))) && path[0] == s
    ensures BH.LeadsTo(s, k, Gone, path[|ActsFor(c, o)|])
  {
    ActsReachTheEnd(c, o, s.policy.capacity);
    path := BH.HandlerRunsToTheEnd(s, k, ActsFor(c, o));
  }

  /** Every ack of a delivery follows a successful publish of its response by the same
      goroutine, or an answer when no response queue is configured; an error never
      leads to an ack. */
  lemma AcksOnlyAfterTheResponse(c: Config, states: seq<BH.State>, labels: seq<BH.Label>, i: nat, k: nat)
    requires BH.IsRun(states, labels) && i < |labels| && labels[i] == BH.Do(k, AckSent)
    requires states[0].policy == PolicyOf(c, states[0].policy.capacity)
    ensures exists j :: 0 <= j < i
                        && labels[j] == BH.Do(k, if c.responseTopic == "" then NoTopic else Published)
  {
    BH.AcksFollowOutcomes(states, labels, i, k);
    var h := labels[..i];
    var j :| 0 <= j < |h| && h[j].Do? && h[j].k == k && BH.Entitles(states[0].policy, h[j].act);
    assert labels[j] == h[j];
    BH.StepOfRun(states, labels, j);
    BH.TokensAlways(states, labels, j);
  }

  /** Handlers in flight never exceed the capacity; with a capacity of zero, which the
      connector does not rule out, no delivery is ever handled. */
  lemma InFlightWithinCapacity(c: Config, states: seq<BH.State>, labels: seq<BH.Label>, i: nat)
    requires BH.IsRun(states, labels) && i < |labels|
    requires states[0].policy == PolicyOf(c, states[0].policy.capacity)
    ensures BH.Live(states[i].handlers) <= states[0].policy.capacity
    ensures states[0].policy.capacity == 0 ==> !labels[i].Spawn?
  {
    BH.HandlersNeverExceedCapacity(states, labels, i);
    BH.TokensAlways(states, labels, i);
    BH.StepOfRun(states, labels, i);
  }
}
