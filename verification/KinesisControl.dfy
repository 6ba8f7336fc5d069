/** The order in which a worker of the Kinesis connector does things, told by its acts alone,
    and what follows for a shard that is closed. */
module KinesisControl {
  import opened Basics
  import opened KinesisModel
  import opened KinesisSafety
  import opened KinesisGuarantees

  function LastAct(acts: seq<Act>): Option<Act> {
    if acts == [] then None else Some(acts[|acts| - 1])
  }

  /** The page last read: its length, whether it ends a closed shard, and how many of its
      records have been handed over. */
  datatype PageSeen = PageSeen(count: nat, last: bool, handed: nat)

  function CurrentPage(acts: seq<Act>): PageSeen {
    if acts == [] then PageSeen(0, false, 0)
    else
      var before := CurrentPage(acts[..|acts| - 1]);
      match acts[|acts| - 1]
      case GotPage(count, last) => PageSeen(count, last, 0)
      case Deliver(_, _) => before.(handed := before.handed + 1)
      case _ => before
  }

  /** What may come next: a round looks up the checkpoint, asks for an iterator, reads a page
      with it, hands each record over and stores its checkpoint; then, if the page ended a
      closed shard, the checkpoint is deleted, and otherwise the worker waits for a tick,
      which starts the next round, or for the cancellation. An error, the deletion and the
      cancellation are followed by the end and by nothing else. */
  predicate MayCome(before: seq<Act>, a: Act) {
    var page := CurrentPage(before);
    match LastAct(before)
    case None => a.Load?
    case Some(Load) => a.GotIterator? || a.NoIterator? || a.IteratorError?
    case Some(GotIterator(_)) => a.GotPage? || a.PageError?
    case Some(GotPage(_, _)) => if page.count == 0 then a.PageDone? else a.Deliver?
    case Some(Deliver(_, _)) => a.Store?
    case Some(Store) => if page.handed < page.count then a.Deliver? else page.handed == page.count && a.PageDone?
    case Some(PageDone) => if page.last then a.Delete? else a.SeeTick? || a.SeeDone?
    case Some(NoIterator) => a.SeeTick? || a.SeeDone?
    case Some(SeeTick) => a.Load?
    case Some(IteratorError) => a.Finish?
    case Some(PageError) => a.Finish?
    case Some(Delete) => a.Finish?
    case Some(SeeDone) => a.Finish?
    case _ => false
  }

  /** Each act may come after those before it. */
  predicate InOrder(acts: seq<Act>) {
    acts != [] ==> InOrder(acts[..|acts| - 1]) && MayCome(acts[..|acts| - 1], acts[|acts| - 1])
  }

  predicate Leaves(a: Act, why: Exit) {
    match why
    case IteratorFailed => a.IteratorError?
    case ReadFailed => a.PageError?
    case ShardClosed => a.Delete?
    case Cancelled => a.SeeDone?
    case ShardNotFound => false
  }

  /** The acts so far are those of a worker at pc. */
  predicate LeadTo(acts: seq<Act>, pc: Pc) {
    var page, last := CurrentPage(acts), LastAct(acts);
    match pc
    case Loading => last.None? || last.value.SeeTick?
    case GettingIterator(_, _) => last == Some(Load)
    case GettingRecords(_, _) => last.Some? && last.value.GotIterator?
    case Delivering(records, i, end) =>
      && page == PageSeen(|records|, end, i) && i <= |records|
      && last.Some? && (if i == 0 then last.value.GotPage? else last.value.Store?)
    case Storing(records, i, end) =>
      page == PageSeen(|records|, end, i + 1) && i < |records| && last.Some? && last.value.Deliver?
    case Closing => page.last && last == Some(PageDone)
    case Selecting => last == Some(NoIterator) || (last == Some(PageDone) && !page.last)
    case Exiting(why) => last.Some? && Leaves(last.value, why)
    case Exited(why) => last == Some(Finish) && |acts| >= 2 && Leaves(acts[|acts| - 2], why)
  }

  lemma ActSnoc(acts: seq<Act>, a: Act)
    ensures LastAct(acts + [a]) == Some(a)
    ensures InOrder(acts + [a]) <==> InOrder(acts) && MayCome(acts, a)
    ensures CurrentPage(acts + [a])
            == match a
               case GotPage(count, last) => PageSeen(count, last, 0)
               case Deliver(_, _) => CurrentPage(acts).(handed := CurrentPage(acts).handed + 1)
               case _ => CurrentPage(acts)
  {
    assert (acts + [a])[..|acts|] == acts;
  }

  lemma PageStepInOrder(sh: Shard, ctxDone: bool, pc: Pc, cell: Option<string>, a: Act, pc': Pc, cell': Option<string>,
                        acts: seq<Act>)
    requires WorkerStep(sh, ctxDone, pc, cell, a, pc', cell') && LeadTo(acts, pc)
    requires a.GotPage? || a.Deliver? || a.Store? || a.PageDone?
    ensures MayCome(acts, a) && LeadTo(acts + [a], pc')
  {
    ActSnoc(acts, a);
  }

  lemma EndStepInOrder(sh: Shard, ctxDone: bool, pc: Pc, cell: Option<string>, a: Act, pc': Pc, cell': Option<string>,
                       acts: seq<Act>)
    requires WorkerStep(sh, ctxDone, pc, cell, a, pc', cell') && LeadTo(acts, pc)
    requires pc.Closing? ==> cell.Some?
    requires a.Delete? || a.NothingToDelete? || a.SeeDone? || a.SeeTick? || a.Finish?
    ensures MayCome(acts, a) && LeadTo(acts + [a], pc')
  {
    ActSnoc(acts, a);
    if a.Finish? {
      assert (acts + [a])[|acts| - 1] == acts[|acts| - 1];
    }
  }

  lemma StartStepInOrder(sh: Shard, ctxDone: bool, pc: Pc, cell: Option<string>, a: Act, pc': Pc, cell': Option<string>,
                         acts: seq<Act>)
    requires WorkerStep(sh, ctxDone, pc, cell, a, pc', cell') && LeadTo(acts, pc)
    requires pc.Loading? ==> cell.Some?
    requires a.Load? || a.Missing? || a.GotIterator? || a.NoIterator? || a.IteratorError? || a.PageError?
    ensures MayCome(acts, a) && LeadTo(acts + [a], pc')
  {
    ActSnoc(acts, a);
  }

  /** A step of a worker that finds its checkpoint comes in order. */
  lemma StepInOrder(sh: Shard, ctxDone: bool, pc: Pc, cell: Option<string>, a: Act, pc': Pc, cell': Option<string>,
                    acts: seq<Act>)
    requires WorkerStep(sh, ctxDone, pc, cell, a, pc', cell') && InOrder(acts) && LeadTo(acts, pc)
    requires pc.Loading? || pc.Closing? ==> cell.Some?
    ensures InOrder(acts + [a]) && LeadTo(acts + [a], pc')
  {
    ActSnoc(acts, a);
    if a.GotPage? || a.Deliver? || a.Store? || a.PageDone? {
      PageStepInOrder(sh, ctxDone, pc, cell, a, pc', cell', acts);
    } else if a.Delete? || a.NothingToDelete? || a.SeeDone? || a.SeeTick? || a.Finish? {
      EndStepInOrder(sh, ctxDone, pc, cell, a, pc', cell', acts);
    } else {
      StartStepInOrder(sh, ctxDone, pc, cell, a, pc', cell', acts);
    }
  }

  // Over runs

  /** What worker k has done came in order and has led it where it is. */
  ghost predicate ControlOk(c: Config, h: seq<Label>, k: nat)
    requires k < |c.workers|
  {
    InOrder(Acts(h, c.workers[k].shard)) && LeadTo(Acts(h, c.workers[k].shard), c.workers[k].pc)
  }

  lemma FindsItsCheckpoint(sh: Shard, pc: Pc, cell: Option<string>, done: seq<Record>)
    requires LocalOk(sh, pc, cell, done) && (pc.Loading? || pc.Closing?)
    ensures cell.Some?
  {
  }

  lemma ControlSurvivesOwnStep(c: Config, h: seq<Label>, l: Label, c': Config)
    requires l.Work? && WorkNext(c, l.k, l.shard, l.act, c') && WorkerOk(c, h, l.k) && ControlOk(c, h, l.k)
    ensures l.k < |c'.workers| && ControlOk(c', h + [l], l.k)
  {
    var s := l.shard;
    ShardHistorySnoc(h, l, s);
    var pc', cell' := WorkEffect(c, l.k, s, l.act, c');
    var pc, cell := c.workers[l.k].pc, Cell(c.checkpoints, s);
    if pc.Loading? || pc.Closing? {
      FindsItsCheckpoint(c.shards[s], pc, cell, Deliveries(h, s));
    }
    StepInOrder(c.shards[s], c.ctxDone, pc, cell, l.act, pc', cell', Acts(h, s));
  }

  lemma ControlSurvivesOthers(c: Config, h: seq<Label>, l: Label, c': Config, k: nat)
    requires PipelineOk(c, h) && Next(c, l, c') && k < |c.workers| && ControlOk(c, h, k) && !(l.Work? && l.k == k)
    ensures k < |c'.workers| && ControlOk(c', h + [l], k)
  {
    ShardHistorySnoc(h, l, c.workers[k].shard);
    if l.Work? {
      var pc', cell' := WorkEffect(c, l.k, l.shard, l.act, c');
      if l.shard == c.workers[k].shard {
        WorkerOfShardIsUnique(c, h, l.k, k);
      }
    } else {
      OutsideSteps(c, l, c');
    }
  }

  lemma ControlOfNewWorker(c: Config, h: seq<Label>, s: ShardId, c': Config)
    requires Inv(c, h) && OutsideStep(c, Spawn(s), c')
    ensures ControlOk(c', h + [Spawn(s)], |c.workers|)
  {
    SpawnIsFirst(c, h, s, c');
    ShardHistorySnoc(h, Spawn(s), s);
  }

  lemma ControlStep(c: Config, h: seq<Label>, l: Label, c': Config, k: nat)
    requires Inv(c, h) && Next(c, l, c') && k < |c'.workers| && (k < |c.workers| ==> ControlOk(c, h, k))
    ensures ControlOk(c', h + [l], k)
  {
    if l.Work? && l.k == k {
      assert WorkerOk(c, h, k);
      ControlSurvivesOwnStep(c, h, l, c');
    } else if k < |c.workers| {
      ControlSurvivesOthers(c, h, l, c', k);
    } else {
      OnlySpawnsAddWorkers(c, l, c', k);
      ControlOfNewWorker(c, h, l.shard, c');
    }
  }

  lemma OnlySpawnsAddWorkers(c: Config, l: Label, c': Config, k: nat)
    requires Next(c, l, c') && |c.workers| <= k < |c'.workers|
    ensures l.Spawn? && k == |c.workers| && OutsideStep(c, l, c')
  {
    if l.Work? {
      var pc', cell' := WorkEffect(c, l.k, l.shard, l.act, c');
    } else {
      OutsideSteps(c, l, c');
    }
  }

  lemma ControlAtNext(states: seq<Config>, labels: seq<Label>, i: nat, k: nat)
    requires IsRun(states, labels) && i < |labels| && k < |states[i + 1].workers|
    requires k < |states[i].workers| ==> ControlOk(states[i], labels[..i], k)
    ensures ControlOk(states[i + 1], labels[..i + 1], k)
  {
    InvAlways(states, labels, i);
    StepOfRun(states, labels, i);
    ControlStep(states[i], labels[..i], labels[i], states[i + 1], k);
  }

  lemma {:induction false} ControlAlways(states: seq<Config>, labels: seq<Label>, i: nat, k: nat)
    requires IsRun(states, labels) && i < |states| && k < |states[i].workers|
    ensures ControlOk(states[i], labels[..i], k)
    decreases i
  {
    if i > 0 {
      var j := i - 1;
      if k < |states[j].workers| {
        ControlAlways(states, labels, j, k);
      }
      ControlAtNext(states, labels, j, k);
    }
  }

  /** In every run the acts on every shard come in the order the goroutine's code gives them. */
  lemma ActsComeInOrder(states: seq<Config>, labels: seq<Label>, i: nat, s: ShardId)
    requires IsRun(states, labels) && i < |states|
    ensures InOrder(Acts(labels[..i], s))
  {
    var c, h := states[i], labels[..i];
    if s in WorkerShards(c) {
      var k :| 0 <= k < |c.workers| && WorkerShards(c)[k] == s;
      ControlAlways(states, labels, i, k);
    } else {
      InvAlways(states, labels, i);
      assert UnstartedOk(c, h, s);
    }
  }

  // A closed shard is left

  /** After the page that ends a closed shard: its records, their checkpoints, the deletion,
      the end. */
  predicate EndsTheShard(a: Act) {
    a.Deliver? || a.Store? || a.PageDone? || a.Delete? || a.Finish?
  }

  lemma {:induction false} AfterTheLastPage(acts: seq<Act>, g: nat)
    requires InOrder(acts) && g < |acts| && acts[g].GotPage? && acts[g].last
    ensures forall k :: g < k < |acts| ==> EndsTheShard(acts[k])
    ensures CurrentPage(acts).last
  {
    var n := |acts| - 1;
    if g < n {
      AfterTheLastPage(acts[..n], g);
      var before := acts[n - 1];
      assert n - 1 == g || EndsTheShard(acts[..n][n - 1]);
      assert MayCome(acts[..n], acts[n]);
    }
  }

  lemma NoNewRound(acts: seq<Act>, g: nat, pc: Pc)
    requires InOrder(acts) && LeadTo(acts, pc) && g < |acts| && acts[g].GotPage? && acts[g].last
    ensures !pc.Loading? && !pc.Selecting? && !pc.GettingIterator? && !pc.GettingRecords?
  {
    AfterTheLastPage(acts, g);
  }

  lemma TheEndIsTheDeletion(acts: seq<Act>, g: nat, why: Exit)
    requires InOrder(acts) && g < |acts| && acts[g].GotPage? && acts[g].last
    requires LeadTo(acts, Exiting(why)) || LeadTo(acts, Exited(why))
    ensures why == ShardClosed
  {
    AfterTheLastPage(acts, g);
  }

  lemma LeftAClosedShard(states: seq<Config>, labels: seq<Label>, i: nat, k: nat, g: nat)
    requires IsRun(states, labels) && i < |states| && k < |states[i].workers| && HasLeft(states[i].workers[k].pc)
    requires ControlOk(states[i], labels[..i], k)
    requires var acts := Acts(labels[..i], states[i].workers[k].shard);
             g < |acts| && acts[g].GotPage? && acts[g].last
    ensures var s := states[i].workers[k].shard;
            && states[i].workers[k].pc.why == ShardClosed && s !in states[i].checkpoints && s in states[i].shards
            && Deliveries(labels[..i], s) == states[i].shards[s].records
  {
    var s, pc := states[i].workers[k].shard, states[i].workers[k].pc;
    TheEndIsTheDeletion(Acts(labels[..i], s), g, pc.why);
    AfterAWorkerReturns(states, labels, i, i, k, s, ShardClosed);
  }

  /** Once a worker has read a page that ends a closed shard it starts no further round and
      waits for nothing: it hands the page over, deletes the checkpoint and returns. If it
      has left, it is for that reason, with every record handed over and the checkpoint gone. */
  lemma ClosedShardIsLeft(states: seq<Config>, labels: seq<Label>, i: nat, k: nat, g: nat)
    requires IsRun(states, labels) && i < |states| && k < |states[i].workers|
    requires var acts := Acts(labels[..i], states[i].workers[k].shard);
             g < |acts| && acts[g].GotPage? && acts[g].last
    ensures var s, pc := states[i].workers[k].shard, states[i].workers[k].pc;
            var acts := Acts(labels[..i], s);
            && (forall j :: g < j < |acts| ==>
                  && !acts[j].Load? && !acts[j].SeeTick? && !acts[j].SeeDone?
                  && !acts[j].GotIterator? && !acts[j].GotPage?)
            && !pc.Loading? && !pc.Selecting? && !pc.GettingIterator? && !pc.GettingRecords?
            && (HasLeft(pc) ==>
                  && pc.why == ShardClosed && s !in states[i].checkpoints && s in states[i].shards
                  && Deliveries(labels[..i], s) == states[i].shards[s].records)
  {
    var s, pc := states[i].workers[k].shard, states[i].workers[k].pc;
    ControlAlways(states, labels, i, k);
    AfterTheLastPage(Acts(labels[..i], s), g);
    if HasLeft(pc) {
      LeftAClosedShard(states, labels, i, k, g);
    } else {
      NoNewRound(Acts(labels[..i], s), g, pc);
    }
  }
}
