/** The three Redis lists the connector works on, as pure values: what a run of pops and
    pushes leaves in them. */
module RedisLists {
  import opened Basics

  datatype Config = Config(topic: string, responseTopic: string, errorTopic: string)

  type Lists = map<string, seq<string>>

  function Items(lists: Lists, key: string): seq<string> {
    if key in lists then lists[key] else []
  }

  function Push(lists: Lists, key: string, value: string): Lists {
    lists[key := Items(lists, key) + [value]]
  }

  /** Another client's push of a message, or one message taken and dealt with; pushed tells
      whether the push of its outcome, if one was attempted, was applied. */
  datatype Entry =
    | Arrival(value: string)
    | Taken(value: string, call: Invocation, pushed: bool)

  /** The list and the text the outcome of a call is pushed to. */
  function Target(c: Config, call: Invocation): (string, string) {
    match call
    case Failed(e) => (c.errorTopic, e)
    case Unreadable(e) => (c.errorTopic, e)
    case Answered(body) => (c.responseTopic, body)
  }

  function AfterPop(c: Config, lists: Lists): Lists
    requires Items(lists, c.topic) != []
  {
    lists[c.topic := Items(lists, c.topic)[1..]]
  }

  function AfterOutcome(c: Config, lists: Lists, call: Invocation, pushed: bool): Lists {
    var (key, value) := Target(c, call);
    if key != "" && pushed then Push(lists, key, value) else lists
  }

  function AfterEntry(c: Config, lists: Lists, e: Entry): Lists {
    match e
    case Arrival(v) => Push(lists, c.topic, v)
    case Taken(v, call, pushed) =>
      if Items(lists, c.topic) == [] then lists else AfterOutcome(c, AfterPop(c, lists), call, pushed)
  }

  function AfterAll(c: Config, lists: Lists, log: seq<Entry>): Lists {
    if log == [] then lists else AfterEntry(c, AfterAll(c, lists, log[..|log| - 1]), log[|log| - 1])
  }

  /** Each message taken was at the head of the source list. */
  predicate IsLog(c: Config, lists: Lists, log: seq<Entry>) {
    log != [] ==>
      var before, e := log[..|log| - 1], log[|log| - 1];
      && IsLog(c, lists, before)
      && (e.Taken? ==> var source := Items(AfterAll(c, lists, before), c.topic);
                       source != [] && e.value == source[0])
  }

  function Arrivals(log: seq<Entry>): seq<string> {
    if log == [] then []
    else
      var e := log[|log| - 1];
      Arrivals(log[..|log| - 1]) + if e.Arrival? then [e.value] else []
  }

  function Popped(log: seq<Entry>): seq<string> {
    if log == [] then []
    else
      var e := log[|log| - 1];
      Popped(log[..|log| - 1]) + if e.Taken? then [e.value] else []
  }

  /** The texts that reached their list, in pop order: the bodies of the answers, or the texts
      of the errors. */
  function Pushed(log: seq<Entry>, answers: bool): seq<string> {
    if log == [] then []
    else Pushed(log[..|log| - 1], answers) + PushedBy(log[|log| - 1], answers)
  }

  function PushedBy(e: Entry, answers: bool): seq<string> {
    if !e.Taken? || !e.pushed || e.call.Answered? != answers then []
    else [if answers then e.call.body else e.call.err]
  }

  // What the connector does, push attempts that fail included

  /** A message popped, a message put through HandleHTTPRequest, and an RPush, accepted or not. */
  datatype Op =
    | Took(message: string)
    | Called(message: string, call: Invocation)
    | Tried(key: string, value: string, accepted: bool)

  /** The one push an outcome asks for, if its list is configured. */
  function Attempts(c: Config, call: Invocation, accepted: bool): seq<Op> {
    var (key, value) := Target(c, call);
    if key == "" then [] else [Tried(key, value, accepted)]
  }

  function OpsFor(c: Config, e: Entry): seq<Op> {
    match e
    case Arrival(_) => []
    case Taken(m, call, pushed) => [Took(m), Called(m, call)] + Attempts(c, call, pushed)
  }

  function Trace(c: Config, log: seq<Entry>): seq<Op> {
    if log == [] then [] else Trace(c, log[..|log| - 1]) + OpsFor(c, log[|log| - 1])
  }

  lemma LogSnoc(c: Config, lists: Lists, log: seq<Entry>, e: Entry)
    ensures AfterAll(c, lists, log + [e]) == AfterEntry(c, AfterAll(c, lists, log), e)
    ensures IsLog(c, lists, log + [e]) <==>
            && IsLog(c, lists, log)
            && (e.Taken? ==>
                  var source := Items(AfterAll(c, lists, log), c.topic); source != [] && e.value == source[0])
    ensures Arrivals(log + [e]) == Arrivals(log) + if e.Arrival? then [e.value] else []
    ensures Popped(log + [e]) == Popped(log) + if e.Taken? then [e.value] else []
    ensures forall answers :: Pushed(log + [e], answers) == Pushed(log, answers) + PushedBy(e, answers)
    ensures Trace(c, log + [e]) == Trace(c, log) + OpsFor(c, e)
  {
    assert (log + [e])[..|log|] == log;
  }

  /** The configured topics are different lists. */
  predicate Distinct(c: Config) {
    && (c.responseTopic != "" ==> c.responseTopic != c.topic)
    && (c.errorTopic != "" ==> c.errorTopic != c.topic)
    && (c.responseTopic != "" ==> c.errorTopic != c.responseTopic)
  }

  ghost predicate ConsumedInOrder(c: Config, lists: Lists, log: seq<Entry>) {
    Popped(log) + Items(AfterAll(c, lists, log), c.topic) == Items(lists, c.topic) + Arrivals(log)
  }

  function OutputTopic(c: Config, answers: bool): string {
    if answers then c.responseTopic else c.errorTopic
  }

  ghost predicate Gains(c: Config, lists: Lists, log: seq<Entry>, answers: bool) {
    var key := OutputTopic(c, answers);
    key != "" ==> Items(AfterAll(c, lists, log), key) == Items(lists, key) + Pushed(log, answers)
  }

  /** What the connector promises of a log: the source list is consumed in order, each
      message once; the response list gains exactly the pushed answers and the error list
      exactly the pushed errors, both in pop order. */
  ghost predicate Faithful(c: Config, lists: Lists, log: seq<Entry>) {
    ConsumedInOrder(c, lists, log) && Gains(c, lists, log, true) && Gains(c, lists, log, false)
  }

  lemma Reassociate(a: seq<string>, b: seq<string>, c: seq<string>)
    ensures a + (b + c) == a + b + c
  {
  }

  lemma ItemsAfterArrival(c: Config, lists: Lists, v: string, key: string)
    ensures Items(AfterEntry(c, lists, Arrival(v)), key)
            == if key == c.topic then Items(lists, key) + [v] else Items(lists, key)
  {
  }

  lemma ArrivalKeepsOrder(c: Config, lists: Lists, log: seq<Entry>, v: string)
    requires ConsumedInOrder(c, lists, log)
    ensures ConsumedInOrder(c, lists, log + [Arrival(v)])
  {
    LogSnoc(c, lists, log, Arrival(v));
    var after := AfterAll(c, lists, log);
    ItemsAfterArrival(c, after, v, c.topic);
    Reassociate(Popped(log), Items(after, c.topic), [v]);
    Reassociate(Items(lists, c.topic), Arrivals(log), [v]);
    assert Popped(log) + [] == Popped(log);
  }

  lemma ArrivalKeepsGains(c: Config, lists: Lists, log: seq<Entry>, v: string, answers: bool)
    requires Distinct(c) && Gains(c, lists, log, answers)
    ensures Gains(c, lists, log + [Arrival(v)], answers)
  {
    LogSnoc(c, lists, log, Arrival(v));
    ItemsAfterArrival(c, AfterAll(c, lists, log), v, OutputTopic(c, answers));
    assert Pushed(log, answers) + [] == Pushed(log, answers);
  }

  /** With distinct lists a message leaves the source list from its head. */
  lemma SourceAfterTaken(c: Config, lists: Lists, v: string, call: Invocation, pushed: bool)
    requires Distinct(c) && Items(lists, c.topic) != []
    ensures Items(AfterEntry(c, lists, Taken(v, call, pushed)), c.topic) == Items(lists, c.topic)[1..]
  {
  }

  /** With distinct lists its outcome touches only the list it is meant for. */
  lemma OutputAfterTaken(c: Config, lists: Lists, v: string, call: Invocation, pushed: bool, answers: bool)
    requires Distinct(c) && Items(lists, c.topic) != [] && OutputTopic(c, answers) != ""
    ensures var key := OutputTopic(c, answers);
            Items(AfterEntry(c, lists, Taken(v, call, pushed)), key)
            == Items(lists, key) + PushedBy(Taken(v, call, pushed), answers)
  {
  }

  lemma TakenKeepsOrder(c: Config, lists: Lists, log: seq<Entry>, v: string, call: Invocation, pushed: bool)
    requires Distinct(c) && ConsumedInOrder(c, lists, log) && IsLog(c, lists, log + [Taken(v, call, pushed)])
    ensures ConsumedInOrder(c, lists, log + [Taken(v, call, pushed)])
  {
    LogSnoc(c, lists, log, Taken(v, call, pushed));
    var source := Items(AfterAll(c, lists, log), c.topic);
    SourceAfterTaken(c, AfterAll(c, lists, log), v, call, pushed);
    assert source == [v] + source[1..];
    Reassociate(Popped(log), [v], source[1..]);
  }

  lemma TakenKeepsGains(c: Config, lists: Lists, log: seq<Entry>, v: string, call: Invocation, pushed: bool,
                        answers: bool)
    requires Distinct(c) && Gains(c, lists, log, answers) && IsLog(c, lists, log + [Taken(v, call, pushed)])
    ensures Gains(c, lists, log + [Taken(v, call, pushed)], answers)
  {
    var key := OutputTopic(c, answers);
    if key != "" {
      LogSnoc(c, lists, log, Taken(v, call, pushed));
      OutputAfterTaken(c, AfterAll(c, lists, log), v, call, pushed, answers);
      Reassociate(Items(lists, key), Pushed(log, answers), PushedBy(Taken(v, call, pushed), answers));
    }
  }

  lemma {:induction false} DistinctListsAreFaithful(c: Config, lists: Lists, log: seq<Entry>)
    requires IsLog(c, lists, log) && Distinct(c)
    ensures Faithful(c, lists, log)
  {
    if log != [] {
      var before, e := log[..|log| - 1], log[|log| - 1];
      assert log == before + [e];
      DistinctListsAreFaithful(c, lists, before);
      match e
      case Arrival(v) =>
        ArrivalKeepsOrder(c, lists, before, v);
        ArrivalKeepsGains(c, lists, before, v, true);
        ArrivalKeepsGains(c, lists, before, v, false);
      case Taken(v, call, pushed) =>
        TakenKeepsOrder(c, lists, before, v, call, pushed);
        TakenKeepsGains(c, lists, before, v, call, pushed, true);
        TakenKeepsGains(c, lists, before, v, call, pushed, false);
    }
  }

  lemma OneMessage(c: Config, m: string, call: Invocation)
    returns (log: seq<Entry>)
    ensures IsLog(c, map[], log)
    ensures AfterAll(c, map[], log) == AfterOutcome(c, map[c.topic := []], call, true)
    ensures Popped(log) == [m] && Arrivals(log) == [m]
    ensures forall answers :: Pushed(log, answers) == PushedBy(Taken(m, call, true), answers)
  {
    var lists: Lists := map[];
    log := [] + [Arrival(m)] + [Taken(m, call, true)];
    LogSnoc(c, lists, [], Arrival(m));
    LogSnoc(c, lists, [] + [Arrival(m)], Taken(m, call, true));
    assert AfterAll(c, lists, [] + [Arrival(m)]) == Push(lists, c.topic, m);
    assert AfterPop(c, Push(lists, c.topic, m)) == map[c.topic := []];
  }

  /** The promise holds for every log exactly when the topics are different lists: sharing
      the source list makes the connector consume its own output, and sharing an output
      list mixes answers and errors. */
  lemma FaithfulExactlyWhenDistinct(c: Config)
    requires c.topic != ""
    ensures (forall lists: Lists, log: seq<Entry> :: IsLog(c, lists, log) ==> Faithful(c, lists, log)) <==> Distinct(c)
  {
    if Distinct(c) {
      forall lists: Lists, log: seq<Entry> | IsLog(c, lists, log) ensures Faithful(c, lists, log) {
        DistinctListsAreFaithful(c, lists, log);
      }
    } else {
      var call := if c.responseTopic != "" && c.responseTopic == c.topic then Answered("a") else Failed("e");
      var log := OneMessage(c, "m", call);
      assert |Items(AfterAll(c, map[], log), Target(c, call).0)| == 1;
      assert !Faithful(c, map[], log);
    }
  }

  lemma OpsForTaken(c: Config, trace: seq<Op>, m: string, call: Invocation, pushed: bool)
    ensures trace + OpsFor(c, Taken(m, call, pushed))
            == trace + [Took(m)] + [Called(m, call)] + Attempts(c, call, pushed)
  {
    assert [Took(m), Called(m, call)] == [Took(m)] + [Called(m, call)];
  }

  lemma TakenSnoc(c: Config, lists: Lists, log: seq<Entry>, m: string, call: Invocation, pushed: bool)
    requires IsLog(c, lists, log)
    requires var source := Items(AfterAll(c, lists, log), c.topic); source != [] && m == source[0]
    ensures var log' := log + [Taken(m, call, pushed)];
            && IsLog(c, lists, log')
            && AfterAll(c, lists, log') == AfterOutcome(c, AfterPop(c, AfterAll(c, lists, log)), call, pushed)
            && Trace(c, log') == Trace(c, log) + [Took(m)] + [Called(m, call)] + Attempts(c, call, pushed)
  {
    LogSnoc(c, lists, log, Taken(m, call, pushed));
    OpsForTaken(c, Trace(c, log), m, call, pushed);
  }

  // Once per message

  function TookIn(trace: seq<Op>): seq<string> {
    if trace == [] then []
    else TookIn(trace[..|trace| - 1])
         + if trace[|trace| - 1].Took? then [trace[|trace| - 1].message] else []
  }

  function CalledIn(trace: seq<Op>): seq<string> {
    if trace == [] then []
    else CalledIn(trace[..|trace| - 1])
         + if trace[|trace| - 1].Called? then [trace[|trace| - 1].message] else []
  }

  /** What the connector has in hand: nothing, a message to call, or an outcome to push. */
  datatype Hand = Free | Holding(message: string) | Owing(key: string, value: string)

  /** An answer's body is owed to the response list and an error's text to the error list, if
      that is configured. */
  function Owed(c: Config, call: Invocation): Hand {
    match call
    case Answered(body) => if c.responseTopic == "" then Free else Owing(c.responseTopic, body)
    case Failed(e) => if c.errorTopic == "" then Free else Owing(c.errorTopic, e)
    case Unreadable(e) => if c.errorTopic == "" then Free else Owing(c.errorTopic, e)
  }

  /** Where an operation takes it; None when the operation is out of turn: a pop comes with
      free hands, a call is for the message in hand, and the one push attempt of what is owed
      frees the hands whether or not it is accepted. */
  function AfterOp(c: Config, hand: Option<Hand>, op: Op): Option<Hand> {
    match (hand, op)
    case (Some(Free), Took(m)) => Some(Holding(m))
    case (Some(Holding(m)), Called(n, call)) =>
      if m == n then Some(Owed(c, call)) else None
    case (Some(Owing(k, v)), Tried(key, value, _)) => if k == key && v == value then Some(Free) else None
    case _ => None
  }

  function HandAfter(c: Config, trace: seq<Op>): Option<Hand> {
    if trace == [] then Some(Free) else AfterOp(c, HandAfter(c, trace[..|trace| - 1]), trace[|trace| - 1])
  }

  /** Every message popped has had one call, and every outcome its one push attempt, in turn. */
  predicate OncePerMessage(c: Config, trace: seq<Op>) {
    HandAfter(c, trace) == Some(Free)
  }

  lemma HandSnoc(c: Config, trace: seq<Op>, op: Op)
    ensures HandAfter(c, trace + [op]) == AfterOp(c, HandAfter(c, trace), op)
  {
    assert (trace + [op])[..|trace|] == trace;
  }

  lemma CountsSnoc(trace: seq<Op>, op: Op)
    ensures TookIn(trace + [op]) == TookIn(trace) + if op.Took? then [op.message] else []
    ensures CalledIn(trace + [op]) == CalledIn(trace) + if op.Called? then [op.message] else []
  {
    assert (trace + [op])[..|trace|] == trace;
  }

  lemma HandAfterCall(c: Config, trace: seq<Op>, m: string, call: Invocation)
    requires OncePerMessage(c, trace)
    ensures HandAfter(c, trace + [Took(m)] + [Called(m, call)]) == Some(Owed(c, call))
  {
    HandSnoc(c, trace, Took(m));
    HandSnoc(c, trace + [Took(m)], Called(m, call));
  }

  lemma OwedIsAttempted(c: Config, call: Invocation, pushed: bool)
    ensures var owed := Owed(c, call);
            Attempts(c, call, pushed) == if owed.Owing? then [Tried(owed.key, owed.value, pushed)] else []
  {
  }

  lemma StaysOncePerMessage(c: Config, trace: seq<Op>, m: string, call: Invocation, pushed: bool)
    requires OncePerMessage(c, trace)
    ensures OncePerMessage(c, trace + OpsFor(c, Taken(m, call, pushed)))
  {
    OpsForTaken(c, trace, m, call, pushed);
    HandAfterCall(c, trace, m, call);
    OwedIsAttempted(c, call, pushed);
    var called, owed := trace + [Took(m)] + [Called(m, call)], Owed(c, call);
    if owed.Owing? {
      HandSnoc(c, called, Tried(owed.key, owed.value, pushed));
    } else {
      assert called + [] == called;
    }
  }

  lemma {:induction false} HandsBefore(c: Config, trace: seq<Op>, n: nat)
    requires HandAfter(c, trace).Some? && n <= |trace|
    ensures HandAfter(c, trace[..n]).Some?
  {
    if n == |trace| {
      assert trace[..n] == trace;
    } else {
      HandsBefore(c, trace[..|trace| - 1], n);
      assert trace[..|trace| - 1][..n] == trace[..n];
    }
  }

  lemma HandAt(c: Config, trace: seq<Op>, n: nat)
    requires HandAfter(c, trace).Some? && n < |trace|
    ensures HandAfter(c, trace[..n]).Some?
    ensures HandAfter(c, trace[..n + 1]) == AfterOp(c, HandAfter(c, trace[..n]), trace[n]) != None
  {
    HandsBefore(c, trace, n);
    HandsBefore(c, trace, n + 1);
    HandSnoc(c, trace[..n], trace[n]);
    assert trace[..n + 1] == trace[..n] + [trace[n]];
  }

  /** What surrounds a call: right before it the pop of its message, and right after it the
      attempt to push the answer's own body to the response list, or the error's own text to
      the error list; or, if that list is not configured, the next pop or nothing. */
  lemma PushFollowsItsCall(c: Config, trace: seq<Op>, i: nat)
    requires OncePerMessage(c, trace) && i < |trace| && trace[i].Called?
    ensures i > 0 && trace[i - 1] == Took(trace[i].message)
    ensures var key := if trace[i].call.Answered? then c.responseTopic else c.errorTopic;
            var text := if trace[i].call.Answered? then trace[i].call.body else trace[i].call.err;
            if key == "" then i + 1 == |trace| || trace[i + 1].Took?
            else i + 1 < |trace| && trace[i + 1].Tried? && trace[i + 1].key == key && trace[i + 1].value == text
  {
    HandAt(c, trace, i);
    if i > 0 {
      HandAt(c, trace, i - 1);
    }
    if i + 1 == |trace| {
      assert trace[..i + 1] == trace;
    } else {
      HandAt(c, trace, i + 1);
    }
  }

  lemma CountsOfTaken(c: Config, trace: seq<Op>, m: string, call: Invocation, pushed: bool)
    ensures var after := trace + OpsFor(c, Taken(m, call, pushed));
            TookIn(after) == TookIn(trace) + [m] && CalledIn(after) == CalledIn(trace) + [m]
  {
    OpsForTaken(c, trace, m, call, pushed);
    var took := trace + [Took(m)];
    CountsSnoc(trace, Took(m));
    var called := took + [Called(m, call)];
    CountsSnoc(took, Called(m, call));
    var (key, value) := Target(c, call);
    if key == "" {
      assert called + [] == called;
    } else {
      CountsSnoc(called, Tried(key, value, pushed));
    }
  }

  /** Each popped message is put through HandleHTTPRequest exactly once, in pop order, right
      after its pop, and gets at most one push attempt, accepted or not, right after that. */
  lemma {:induction false} EachMessageOnce(c: Config, log: seq<Entry>)
    ensures OncePerMessage(c, Trace(c, log))
    ensures TookIn(Trace(c, log)) == CalledIn(Trace(c, log)) == Popped(log)
  {
    if log != [] {
      var before, e := log[..|log| - 1], log[|log| - 1];
      EachMessageOnce(c, before);
      match e
      case Arrival(_) => assert Trace(c, before) + [] == Trace(c, before);
      case Taken(m, call, pushed) =>
        StaysOncePerMessage(c, Trace(c, before), m, call, pushed);
        CountsOfTaken(c, Trace(c, before), m, call, pushed);
    }
  }
}
