/** What becomes of one message in the connectors that publish before they ack: the stages a
    handler goes through, the acts that take it on, and the calls these acts stand for. */
module Handling {
  import opened Basics

  /** Where the connectors differ. */
  datatype Policy = Policy(
    capacity: nat,                // messages handled at the same time
    hasResponseTopic: bool,
    ackAfterError: bool,          // the error handler is followed by an ack
    emptyTopicSucceeds: bool,     // no response topic counts as a successful response step
    reportsFailedAck: bool)       // a failed ack goes to the error handler

  datatype Stage = Calling | Reporting | Publishing | Acking | ReportingAck | Releasing | Gone

  datatype Act =
    | CallFails | CallAnswers
    | Reported
    | Published | PublishFails | NoTopic
    | AckSent | AckFails | AckReported
    | Release

  /** Where an act takes a handler, from the function call to the end, where it gives its token
      back if it holds one. */
  function After(p: Policy, s: Stage, a: Act): Option<Stage> {
    match (s, a)
    case (Calling, CallFails) => Some(Reporting)
    case (Calling, CallAnswers) => Some(Publishing)
    case (Reporting, Reported) => Some(if p.ackAfterError then Acking else Releasing)
    case (Publishing, Published) => if p.hasResponseTopic then Some(Acking) else None
    case (Publishing, PublishFails) => if p.hasResponseTopic then Some(Releasing) else None
    case (Publishing, NoTopic) =>
      if p.hasResponseTopic then None else Some(if p.emptyTopicSucceeds then Acking else Releasing)
    case (Acking, AckSent) => Some(Releasing)
    case (Acking, AckFails) => Some(if p.reportsFailedAck then ReportingAck else Releasing)
    case (ReportingAck, AckReported) => Some(Releasing)
    case (Releasing, Release) => Some(Gone)
    case _ => None
  }

  predicate HandlerStep(p: Policy, s: Stage, a: Act, s': Stage) {
    After(p, s, a) == Some(s')
  }

  /** Where a sequence of acts takes a new handler, if each is possible in its turn. */
  function Reached(p: Policy, acts: seq<Act>): Option<Stage> {
    if acts == [] then Some(Calling)
    else
      var before := Reached(p, acts[..|acts| - 1]);
      if before.Some? then After(p, before.value, acts[|acts| - 1]) else None
  }

  function Then(p: Policy, s: Option<Stage>, a: Act): Option<Stage> {
    if s.Some? then After(p, s.value, a) else None
  }

  lemma ReachedSnoc(p: Policy, acts: seq<Act>, a: Act)
    ensures Reached(p, acts + [a]) == Then(p, Reached(p, acts), a)
  {
    assert (acts + [a])[..|acts|] == acts;
  }

  lemma ReachedByTwo(p: Policy, a: Act, b: Act)
    ensures Reached(p, [a, b]) == Then(p, Then(p, Some(Calling), a), b)
  {
    ReachedSnoc(p, [], a);
    assert [] + [a] == [a];
    ReachedSnoc(p, [a], b);
    assert [a] + [b] == [a, b];
  }

  lemma ReachedByThree(p: Policy, a: Act, b: Act, c: Act)
    ensures Reached(p, [a, b, c]) == Then(p, Then(p, Then(p, Some(Calling), a), b), c)
  {
    ReachedByTwo(p, a, b);
    ReachedSnoc(p, [a, b], c);
    assert [a, b] + [c] == [a, b, c];
  }

  lemma ReachedByFour(p: Policy, a: Act, b: Act, c: Act, d: Act)
    ensures Reached(p, [a, b, c, d]) == Then(p, Then(p, Then(p, Then(p, Some(Calling), a), b), c), d)
  {
    ReachedByThree(p, a, b, c);
    ReachedSnoc(p, [a, b, c], d);
    assert [a, b, c] + [d] == [a, b, c, d];
  }

  lemma ReachedByFive(p: Policy, a: Act, b: Act, c: Act, d: Act, e: Act)
    ensures Reached(p, [a, b, c, d, e])
            == Then(p, Then(p, Then(p, Then(p, Then(p, Some(Calling), a), b), c), d), e)
  {
    ReachedByFour(p, a, b, c, d);
    ReachedSnoc(p, [a, b, c, d], e);
    assert [a, b, c, d] + [e] == [a, b, c, d, e];
  }

  /** The calls made by these acts, when `each` gives those of each. */
  function Calls<E>(each: Act -> seq<E>, acts: seq<Act>): seq<E> {
    if acts == [] then [] else Calls(each, acts[..|acts| - 1]) + each(acts[|acts| - 1])
  }

  lemma CallsSnoc<E>(each: Act -> seq<E>, acts: seq<Act>, a: Act)
    ensures Calls(each, acts + [a]) == Calls(each, acts) + each(a)
  {
    assert (acts + [a])[..|acts|] == acts;
  }

  lemma CallsByTwo<E>(each: Act -> seq<E>, a: Act, b: Act)
    ensures Calls(each, [a, b]) == each(a) + each(b)
  {
    CallsSnoc(each, [], a);
    assert [] + [a] == [a];
    CallsSnoc(each, [a], b);
    assert [a] + [b] == [a, b];
  }

  lemma CallsByThree<E>(each: Act -> seq<E>, a: Act, b: Act, c: Act)
    ensures Calls(each, [a, b, c]) == each(a) + each(b) + each(c)
  {
    CallsByTwo(each, a, b);
    CallsSnoc(each, [a, b], c);
    assert [a, b] + [c] == [a, b, c];
  }

  lemma CallsByFour<E>(each: Act -> seq<E>, a: Act, b: Act, c: Act, d: Act)
    ensures Calls(each, [a, b, c, d]) == each(a) + each(b) + each(c) + each(d)
  {
    CallsByThree(each, a, b, c);
    CallsSnoc(each, [a, b, c], d);
    assert [a, b, c] + [d] == [a, b, c, d];
  }

  lemma CallsByFive<E>(each: Act -> seq<E>, a: Act, b: Act, c: Act, d: Act, e: Act)
    ensures Calls(each, [a, b, c, d, e]) == each(a) + each(b) + each(c) + each(d) + each(e)
  {
    CallsByFour(each, a, b, c, d);
    CallsSnoc(each, [a, b, c, d], e);
    assert [a, b, c, d] + [e] == [a, b, c, d, e];
  }
}
