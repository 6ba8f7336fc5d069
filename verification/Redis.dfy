/** The Redis connector's loops: pop, call, push; and restart until the context is done. */
module Redis {
  import opened Basics
  import opened RedisLists

  /** What happens at one moment: messages pushed by other clients, and how a call made now
      turns out. */
  datatype Choice = Choice(arrivals: seq<string>, fails: bool, short: bool, call: Invocation, applied: bool)

  datatype PopResult = PopFailed | Short | Got(value: string)

  /** The server, the clock and the context. Every call takes time; one made on a cancelled
      context fails, one under way when the cancellation comes may still succeed. */
  class Server {
    const choices: nat -> Choice
    const cancelAt: nat
    const config: Config
    var now: nat
    var lists: Lists
    ghost var log: seq<Entry>
    ghost var trace: seq<Op>       // every pop, call and push attempt, in order
    ghost var latePops: nat        // pops that came back after the cancellation

    constructor (config: Config, choices: nat -> Choice, cancelAt: nat, lists: Lists)
      ensures this.config == config && this.choices == choices && this.cancelAt == cancelAt
      ensures now == 0 && this.lists == lists && log == [] && trace == [] && latePops == 0
    {
      this.config, this.choices, this.cancelAt, this.lists := config, choices, cancelAt, lists;
      now, log, trace, latePops := 0, [], [], 0;
    }

    /** lists is what the log makes of the lists at the start, and what was done is what the
        log says: for each message taken one call and at most one push attempt. */
    ghost predicate Follows(start: Lists)
      reads this`lists, this`log, this`trace
    {
      && IsLog(config, start, log) && lists == AfterAll(config, start, log)
      && trace == Trace(config, log)
    }

    /** The same, with a message just popped and not dealt with yet. */
    ghost predicate Holds(start: Lists, message: string)
      reads this`lists, this`log, this`trace
    {
      var before := AfterAll(config, start, log);
      && IsLog(config, start, log)
      && Items(before, config.topic) != [] && message == Items(before, config.topic)[0]
      && lists == AfterPop(config, before)
      && trace == Trace(config, log) + [Took(message)]
    }

    /** ctx.Err() */
    method Cancelled() returns (done: bool)
      modifies this`now
      ensures done <==> old(now) >= cancelAt
      ensures now == old(now) + 1
    {
      done := now >= cancelAt;
      now := now + 1;
    }

    method Arrive(values: seq<string>, ghost start: Lists)
      requires Follows(start)
      modifies this`lists, this`log
      ensures Follows(start) && Popped(log) == old(Popped(log))
    {
      var i := 0;
      while i < |values|
        invariant 0 <= i <= |values|
        invariant Follows(start) && Popped(log) == old(Popped(log))
      {
        LogSnoc(config, start, log, Arrival(values[i]));
        assert (log + [Arrival(values[i])])[..|log|] == log;
        assert trace + [] == trace;
        log := log + [Arrival(values[i])];
        lists := Push(lists, config.topic, values[i]);
        i := i + 1;
      }
    }

    /** BLPop without a time limit: on an empty list it returns only when the context is
        done. The pop is logged together with what becomes of the message. */
    method BLPop(ghost start: Lists) returns (r: PopResult)
      requires Follows(start)
      modifies this`now, this`lists, this`log, this`trace, this`latePops
      ensures now > old(now)
      ensures latePops == old(latePops) + if r.Got? && now >= cancelAt then 1 else 0
      ensures r.Got? || r.Short? ==> old(now) < cancelAt
      ensures Popped(log) == old(Popped(log))
      ensures if r.Got? then Holds(start, r.value) else Follows(start)
    {
      var live := now < cancelAt;
      var c := choices(now);
      Arrive(c.arrivals, start);
      now := now + 1;
      if !live || c.fails {
        return PopFailed;
      }
      if c.short {
        return Short;
      }
      var source := Items(lists, config.topic);
      if source == [] {
        if now < cancelAt {
          now := cancelAt;
        }
        return PopFailed;
      }
      lists := AfterPop(config, lists);
      trace := trace + [Took(source[0])];
      if now >= cancelAt {
        latePops := latePops + 1;
      }
      return Got(source[0]);
    }

    method RPush(key: string, value: string) returns (ok: bool)
      modifies this`now, this`lists, this`trace
      ensures now == old(now) + 1
      ensures trace == old(trace) + [Tried(key, value, ok)]
      ensures lists == if ok then Push(old(lists), key, value) else old(lists)
      ensures ok ==> old(now) < cancelAt
    {
      var live := now < cancelAt;
      ok := live && choices(now).applied;
      now := now + 1;
      if ok {
        lists := Push(lists, key, value);
      }
      trace := trace + [Tried(key, value, ok)];
    }

    /** HandleHTTPRequest and the reading of the body. */
    method Call(message: string) returns (call: Invocation)
      modifies this`now, this`trace
      ensures now == old(now) + 1
      ensures trace == old(trace) + [Called(message, call)]
    {
      call := choices(now).call;
      now := now + 1;
      trace := trace + [Called(message, call)];
    }
  }

  datatype Error = ContextCanceled | Wrapped

  class Connector {
    const server: Server
    const config: Config
    ghost var lateCalls: nat       // consumeMessage calls running after the cancellation

    constructor (server: Server)
      ensures this.server == server && config == server.config && lateCalls == 0
    {
      this.server, config, lateCalls := server, server.config, 0;
    }

    /** errorHandler or responseHandler: one push attempt if the list is configured. */
    method PushOutcome(call: Invocation) returns (pushed: bool)
      requires config == server.config
      modifies server`now, server`lists, server`trace
      ensures server.trace == old(server.trace) + Attempts(config, call, pushed)
      ensures call.Answered? && config.responseTopic != "" ==>
                && server.trace == old(server.trace) + [Tried(config.responseTopic, call.body, pushed)]
                && (pushed ==> server.lists == Push(old(server.lists), config.responseTopic, call.body))
      ensures !call.Answered? && config.errorTopic != "" ==>
                && server.trace == old(server.trace) + [Tried(config.errorTopic, call.err, pushed)]
                && (pushed ==> server.lists == Push(old(server.lists), config.errorTopic, call.err))
      ensures !pushed ==> server.lists == old(server.lists)
      ensures old(server.now) <= server.now
      ensures server.lists == AfterOutcome(config, old(server.lists), call, pushed)
    {
      pushed := false;
      match call {
        case Failed(e) =>
          if |config.errorTopic| > 0 {
            pushed := server.RPush(config.errorTopic, e);
          }
        case Unreadable(e) =>
          if |config.errorTopic| > 0 {
            pushed := server.RPush(config.errorTopic, e);
          }
        case Answered(body) =>
          if |config.responseTopic| > 0 {
            pushed := server.RPush(config.responseTopic, body);
          }
      }
    }

    /** What follows a pop: exactly one call, and at most one attempt to push its outcome. */
    method Deal(message: string, ghost start: Lists) returns (ghost call: Invocation, ghost pushed: bool)
      requires config == server.config && server.Holds(start, message)
      modifies server`now, server`lists, server`log, server`trace
      ensures server.Follows(start) && old(server.now) < server.now
      ensures server.log == old(server.log) + [Taken(message, call, pushed)]
      ensures server.trace == old(server.trace) + [Called(message, call)] + Attempts(config, call, pushed)
    {
      var outcome := server.Call(message);
      var accepted := PushOutcome(outcome);
      call, pushed := outcome, accepted;
      TakenSnoc(config, start, server.log, message, call, pushed);
      server.log := server.log + [Taken(message, call, pushed)];
    }

    /** The pop loop: it returns the bare context error only from its own check; a failed
        pop is wrapped, whatever made it fail. */
    method ConsumeMessage(ghost start: Lists) returns (err: Error)
      requires config == server.config && server.Follows(start)
      requires server.latePops == 0 || server.now >= server.cancelAt
      modifies server`now, server`lists, server`log, server`trace, server`latePops, this`lateCalls
      ensures server.Follows(start) && server.now > old(server.now)
      ensures err == ContextCanceled ==> server.now > server.cancelAt
      ensures err == Wrapped ==> old(server.now) < server.cancelAt
      ensures server.latePops <= old(server.latePops) + 1
      ensures server.latePops > 0 ==> server.now >= server.cancelAt
      ensures old(server.now) >= server.cancelAt ==> err == ContextCanceled && server.latePops == old(server.latePops)
      ensures lateCalls == old(lateCalls) + if server.now >= server.cancelAt then 1 else 0
    {
      err := PopLoop(start);
      if server.now >= server.cancelAt {
        lateCalls := lateCalls + 1;
      }
    }

    method PopLoop(ghost start: Lists) returns (err: Error)
      requires config == server.config && server.Follows(start)
      requires server.latePops == 0 || server.now >= server.cancelAt
      modifies server`now, server`lists, server`log, server`trace, server`latePops
      ensures server.Follows(start) && server.now > old(server.now)
      ensures err == ContextCanceled ==> server.now > server.cancelAt
      ensures err == Wrapped ==> old(server.now) < server.cancelAt
      ensures server.latePops <= old(server.latePops) + 1
      ensures server.latePops > 0 ==> server.now >= server.cancelAt
      ensures old(server.now) >= server.cancelAt ==> err == ContextCanceled && server.latePops == old(server.latePops)
    {
      while true
        invariant server.Follows(start) && old(server.now) <= server.now
        invariant server.latePops <= old(server.latePops) + 1
        invariant server.latePops > 0 ==> server.now >= server.cancelAt
        invariant old(server.now) >= server.cancelAt ==>
                    server.latePops == old(server.latePops) && server.now == old(server.now)
        decreases if server.now < server.cancelAt then server.cancelAt - server.now else 0
      {
        var done := server.Cancelled();
        if done {
          return ContextCanceled;
        }
        var r := server.BLPop(start);
        if r.PopFailed? {
          return Wrapped;
        }
        if r.Got? {
          ghost var _, _ := Deal(r.value, start);
        }
      }
    }

    /** The restart loop: consumeMessage again after every error but the bare context error.
        Each message popped is called once and has at most one push attempt, the lists are
        what the logged pops and pushes make of them, and after the cancellation there is at
        most one more pop and at most two calls of consumeMessage counting the one under way. */
    method Serve(ghost start: Lists)
      requires config == server.config && start == server.lists && server.log == [] && server.trace == []
      requires server.latePops == 0 && lateCalls == 0
      modifies server`now, server`lists, server`log, server`trace, server`latePops, this`lateCalls
      ensures server.Follows(start)
      ensures OncePerMessage(config, server.trace) && CalledIn(server.trace) == Popped(server.log)
      ensures Distinct(config) ==> Faithful(config, start, server.log)
      ensures server.now > server.cancelAt && server.latePops <= 1 && lateCalls <= 2
    {
      var err := Wrapped;
      while err != ContextCanceled
        invariant server.Follows(start)
        invariant server.latePops <= 1 && lateCalls <= (if err == ContextCanceled then 2 else 1)
        invariant server.latePops > 0 || lateCalls > 0 ==> server.now >= server.cancelAt
        invariant err == ContextCanceled ==> server.now > server.cancelAt
        decreases err == Wrapped, if server.now < server.cancelAt then server.cancelAt - server.now else 0
      {
        err := ConsumeMessage(start);
      }
      EachMessageOnce(config, server.log);
      if Distinct(config) {
        DistinctListsAreFaithful(config, start, server.log);
      }
    }
  }
}
