/** What the Kinesis connector guarantees over whole runs. */
module KinesisGuarantees {
  import opened Basics
  import opened KinesisModel
  import opened KinesisSafety

  /** A record of s has been handed over and its checkpoint not yet stored. */
  ghost predicate BetweenCallAndStore(c: Config, s: ShardId) {
    exists k :: 0 <= k < |c.workers| && c.workers[k].shard == s && c.workers[k].pc.Storing?
  }

  /** s's checkpoint, while there is one, stands at the end of what was handed over, one
      record behind only between the call and the store. */
  ghost predicate CheckpointKeepsUp(c: Config, h: seq<Label>, s: ShardId) {
    s in c.checkpoints ==>
      var n := |Deliveries(h, s)|;
      && s in c.shards && n <= |c.shards[s].records|
      && (if BetweenCallAndStore(c, s) then n >= 1 && c.checkpoints[s] == CheckpointAt(c.shards[s].records, n - 1)
          else c.checkpoints[s] == CheckpointAt(c.shards[s].records, n))
  }

  lemma StartedShard(c: Config, h: seq<Label>, k: nat)
    requires PipelineOk(c, h) && k < |c.workers| && WorkerOk(c, h, k)
    ensures var s := c.workers[k].shard;
            s in c.shards && Deliveries(h, s) <= c.shards[s].records && CheckpointKeepsUp(c, h, s)
  {
    var s := c.workers[k].shard;
    assert BetweenCallAndStore(c, s) <==> c.workers[k].pc.Storing? by {
      if j :| 0 <= j < |c.workers| && c.workers[j].shard == s && c.workers[j].pc.Storing? {
        WorkerOfShardIsUnique(c, h, j, k);
      }
    }
  }

  lemma UnstartedShard(c: Config, h: seq<Label>, s: ShardId)
    requires StructureOk(c) && UnstartedOk(c, h, s) && s !in WorkerShards(c)
    ensures Deliveries(h, s) == [] && (s in c.checkpoints ==> s in c.shards) && CheckpointKeepsUp(c, h, s)
  {
    forall k | 0 <= k < |c.workers| ensures c.workers[k].shard != s {
      assert WorkerShards(c)[k] == c.workers[k].shard;
    }
    if s in Initialised(c.dispatcher) {
      assert Pipeline(c)[|c.workers|] == s;
      assert s in ToSet(Pipeline(c));
    }
  }

  /** The records handed over for a shard are exactly a prefix of its log, and its checkpoint
      keeps up with them. */
  lemma DeliveriesAreAPrefix(states: seq<Config>, labels: seq<Label>, i: nat, s: ShardId)
    requires IsRun(states, labels) && i < |states|
    ensures s in states[i].shards ==> Deliveries(labels[..i], s) <= states[i].shards[s].records
    ensures s !in states[i].shards ==> Deliveries(labels[..i], s) == [] && s !in states[i].checkpoints
    ensures CheckpointKeepsUp(states[i], labels[..i], s)
  {
    var c, h := states[i], labels[..i];
    InvAlways(states, labels, i);
    if s in WorkerShards(c) {
      var k :| 0 <= k < |c.workers| && WorkerShards(c)[k] == s;
      StartedShard(c, h, k);
    } else {
      UnstartedShard(c, h, s);
    }
  }

  /** However often listings repeat a shard, it is sent at most once, gets its empty
      checkpoint at most once and one worker at most, in the order of discovery. */
  lemma EachShardOnce(states: seq<Config>, labels: seq<Label>, i: nat)
    requires IsRun(states, labels) && i < |states|
    ensures NoDuplicates(Sends(labels[..i]))
    ensures Spawns(labels[..i]) <= Initialisations(labels[..i]) <= Sends(labels[..i])
    ensures |Sends(labels[..i])| <= |Spawns(labels[..i])| + 2
    ensures ToSet(Sends(labels[..i])) <= states[i].seen
  {
    var c := states[i];
    InvAlways(states, labels, i);
    assert Sends(labels[..i]) == Pipeline(c)[..|c.workers| + |InHand(c.dispatcher)| + |c.chan|];
    forall s | s in ToSet(Sends(labels[..i])) ensures s in c.seen {
      assert s in ToSet(Pipeline(c));
    }
  }

  /** What a listing named is seen, or still to be looked at. */
  ghost predicate Noted(c: Config, found: seq<ShardId>) {
    forall s :: s in found ==> s in c.seen || s in Todo(c.lister)
  }

  lemma ListingIsNoted(c: Config, found: seq<ShardId>, c': Config)
    requires Next(c, Listed(found), c')
    ensures Noted(c', found)
  {
  }

  lemma NotedStep(c: Config, l: Label, c': Config, found: seq<ShardId>)
    requires Noted(c, found) && Next(c, l, c') && !l.Listed?
    ensures Noted(c', found)
  {
    if l.Work? {
      WorkLeavesThePipeline(c, l, c');
    }
  }

  /** A listing is only made when the one before has been worked off. */
  lemma NoNewListingWhileTodo(c: Config, l: Label, c': Config)
    requires Next(c, l, c') && l.Listed?
    ensures Todo(c.lister) == [] && c.seen <= c'.seen
  {
  }

  lemma {:induction false} NotedAlways(states: seq<Config>, labels: seq<Label>, j: nat, i: nat)
    requires IsRun(states, labels) && j < i < |states| && labels[j].Listed?
    ensures Noted(states[i], labels[j].found)
    decreases i
  {
    var m := i - 1;
    StepOfRun(states, labels, m);
    if j == m {
      ListingIsNoted(states[m], labels[j].found, states[i]);
    } else {
      NotedAlways(states, labels, j, m);
      if labels[m].Listed? {
        NoNewListingWhileTodo(states[m], labels[m], states[i]);
      } else {
        NotedStep(states[m], labels[m], states[i], labels[j].found);
      }
    }
  }

  lemma SeenIsSent(c: Config, h: seq<Label>, s: ShardId)
    requires PipelineOk(c, h) && s in c.seen && !c.lister.Handing?
    ensures s in Sends(h)
  {
    assert Pipeline(c) == Sends(h);
    assert s in ToSet(Pipeline(c));
  }

  /** Once the lister has worked off its listings every shard that any of them named has been
      sent. */
  lemma ListedShardsAreSent(states: seq<Config>, labels: seq<Label>, j: nat, i: nat, s: ShardId)
    requires IsRun(states, labels) && j < i < |states| && labels[j].Listed? && s in labels[j].found
    requires states[i].lister.Waiting? || states[i].lister.Listing?
    ensures s in Sends(labels[..i])
  {
    InvAlways(states, labels, i);
    NotedAlways(states, labels, j, i);
    SeenIsSent(states[i], labels[..i], s);
  }

  /** The "shard not found" return and the fall-through after a missing delete never run. */
  lemma NoWorkerLosesItsCheckpoint(states: seq<Config>, labels: seq<Label>, i: nat)
    requires IsRun(states, labels) && i < |labels| && labels[i].Work?
    ensures !labels[i].act.Missing? && !labels[i].act.NothingToDelete?
  {
    InvAlways(states, labels, i);
    var c, l := states[i], labels[i];
    StepOfRun(states, labels, i);
    var pc', cell' := WorkEffect(c, l.k, l.shard, l.act, states[i + 1]);
    assert WorkerOk(c, labels[..i], l.k);
  }

  function HasLeft(pc: Pc): bool {
    pc.Exiting? || pc.Exited?
  }

  lemma LeavingIsFinal(c: Config, h: seq<Label>, l: Label, c': Config, k: nat)
    requires Inv(c, h) && Next(c, l, c') && k < |c.workers| && HasLeft(c.workers[k].pc)
    ensures k < |c'.workers| && c'.workers[k].shard == c.workers[k].shard
    ensures HasLeft(c'.workers[k].pc) && c'.workers[k].pc.why == c.workers[k].pc.why
    ensures Deliveries(h + [l], c.workers[k].shard) == Deliveries(h, c.workers[k].shard)
  {
    var s := c.workers[k].shard;
    ShardHistorySnoc(h, l, s);
    if l.Work? && l.shard == s {
      var pc', cell' := WorkEffect(c, l.k, l.shard, l.act, c');
      WorkerOfShardIsUnique(c, h, l.k, k);
      ActsSnoc(Acts(h, s), l.act);
    } else if !l.Work? {
      OutsideSteps(c, l, c');
    }
  }

  ghost predicate LeftFor(c: Config, k: nat, s: ShardId, why: Exit) {
    k < |c.workers| && c.workers[k].shard == s && HasLeft(c.workers[k].pc) && c.workers[k].pc.why == why
  }

  lemma LeavingIsFinalAt(states: seq<Config>, labels: seq<Label>, j: nat, k: nat, s: ShardId, why: Exit)
    requires IsRun(states, labels) && j < |labels| && LeftFor(states[j], k, s, why)
    ensures LeftFor(states[j + 1], k, s, why)
    ensures Deliveries(labels[..j + 1], s) == Deliveries(labels[..j], s)
  {
    InvAlways(states, labels, j);
    StepOfRun(states, labels, j);
    LeavingIsFinal(states[j], labels[..j], labels[j], states[j + 1], k);
  }

  lemma {:induction false} StaysLeft(states: seq<Config>, labels: seq<Label>, i: nat, j: nat,
                                     k: nat, s: ShardId, why: Exit)
    requires IsRun(states, labels) && i <= j < |states| && LeftFor(states[i], k, s, why)
    ensures LeftFor(states[j], k, s, why)
    ensures Deliveries(labels[..j], s) == Deliveries(labels[..i], s)
    decreases j
  {
    if i < j {
      var m := j - 1;
      StaysLeft(states, labels, i, m, k, s, why);
      LeavingIsFinalAt(states, labels, m, k, s, why);
    }
  }

  /** Once a shard's worker has returned nothing more of the shard is handed over in this
      run; if it returned because the shard was closed, every record of the shard has been
      handed over and its checkpoint stays gone. */
  lemma AfterAWorkerReturns(states: seq<Config>, labels: seq<Label>, i: nat, j: nat, k: nat, s: ShardId, why: Exit)
    requires IsRun(states, labels) && i <= j < |states| && LeftFor(states[i], k, s, why)
    ensures Deliveries(labels[..j], s) == Deliveries(labels[..i], s)
    ensures s in states[j].shards
    ensures why == ShardClosed ==>
              Deliveries(labels[..j], s) == states[j].shards[s].records && s !in states[j].checkpoints
  {
    StaysLeft(states, labels, i, j, k, s, why);
    InvAlways(states, labels, j);
    assert WorkerOk(states[j], labels[..j], k);
  }

  /** The operations Go answers with a panic: a send on a closed channel, closing it twice,
      a negative wait-group counter. */
  ghost predicate AboutToPanic(c: Config) {
    || (c.lister.Handing? && c.chanClosed)
    || (c.lister.HasCancelled? && c.chanClosed)
    || (exists k :: 0 <= k < |c.workers| && c.workers[k].pc.Exiting? && c.wg < 1)
  }

  /** The wait group counts the registered workers that have not finished, and
      pullRecords returns only with the channel closed and drained and every worker done. */
  lemma WaitGroupAndChannel(states: seq<Config>, labels: seq<Label>, i: nat)
    requires IsRun(states, labels) && i < |states|
    ensures !AboutToPanic(states[i])
    ensures states[i].wg == Unfinished(states[i].workers) + (if states[i].dispatcher.Spawning? then 1 else 0)
    ensures states[i].dispatcher.PullReturned? ==>
              && states[i].chanClosed && states[i].chan == []
              && forall k :: 0 <= k < |states[i].workers| ==> states[i].workers[k].pc.Exited?
  {
    InvAlways(states, labels, i);
    var c := states[i];
    forall k | 0 <= k < |c.workers| && c.workers[k].pc.Exiting? ensures c.wg >= 1 {
      SomeUnfinished(c.workers, k);
    }
    if c.dispatcher.PullReturned? {
      forall k | 0 <= k < |c.workers| ensures c.workers[k].pc.Exited? {
        NoneUnfinished(c.workers, k);
      }
    }
  }

  ghost predicate Draining(c: Config) {
    c.chanClosed && c.lister.HasClosed? && c.chan == [] && (c.dispatcher.AwaitingWorkers? || c.dispatcher.PullReturned?)
  }

  lemma DrainingStep(c: Config, l: Label, c': Config)
    requires Draining(c) && Next(c, l, c')
    ensures Draining(c')
    ensures !l.Send? && !l.AddWorker? && !l.Spawn? && !l.Receive?
  {
    if l.Work? {
      WorkLeavesTheRest(c, l.k, l.shard, l.act, c');
    }
  }

  lemma {:induction false} DrainingStays(states: seq<Config>, labels: seq<Label>, i: nat, j: nat)
    requires IsRun(states, labels) && i <= j < |states| && Draining(states[i])
    ensures Draining(states[j])
  {
    if i < j {
      DrainingStays(states, labels, i, j - 1);
      StepOfRun(states, labels, j - 1);
      DrainingStep(states[j - 1], labels[j - 1], states[j]);
    }
  }

  lemma WaitBeginsDraining(c: Config, c': Config)
    requires WaitOk(c) && Next(c, BeginWait, c')
    ensures Draining(c')
  {
  }

  /** No shard is sent, no Add is made and no worker is started once Wait has begun. */
  lemma NothingStartsAfterWait(states: seq<Config>, labels: seq<Label>, i: nat, j: nat)
    requires IsRun(states, labels) && i < j < |labels| && labels[i].BeginWait?
    ensures !labels[j].Send? && !labels[j].AddWorker? && !labels[j].Spawn? && !labels[j].Receive?
  {
    InvAlways(states, labels, i);
    StepOfRun(states, labels, i);
    WaitBeginsDraining(states[i], states[i + 1]);
    DrainingStays(states, labels, i + 1, j);
    StepOfRun(states, labels, j);
    DrainingStep(states[j], labels[j], states[j + 1]);
  }
}
