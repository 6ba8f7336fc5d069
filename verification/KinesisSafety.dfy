/** What holds in every reachable state of the Kinesis connector. */
module KinesisSafety {
  import opened Basics
  import opened KinesisModel

  // One worker and its shard

  /** pc and cell are right for a worker that has handed over exactly `done`. */
  ghost predicate LocalOk(sh: Shard, pc: Pc, cell: Option<string>, done: seq<Record>) {
    ValidShard(sh) && done <= sh.records && PlaceOk(sh, pc, cell, |done|)
  }

  /** The same, of the number of records handed over. */
  ghost predicate PlaceOk(sh: Shard, pc: Pc, cell: Option<string>, n: nat)
    requires n <= |sh.records|
  {
    match pc
    case Delivering(page, i, last) => DeliveringOk(sh, page, i, last, cell, n)
    case Storing(page, i, last) => n >= 1 && i < |page| && DeliveringOk(sh, page, i, last, cell, n - 1)
    case GettingIterator(checkpoint, _) =>
      cell == Some(CheckpointAt(sh.records, n)) && checkpoint == CheckpointAt(sh.records, n)
    case GettingRecords(pos, _) =>
      cell == Some(CheckpointAt(sh.records, n)) && pos == n
    case Closing =>
      cell == Some(CheckpointAt(sh.records, n)) && sh.closed && n == |sh.records|
    case Exiting(why) => ExitOk(sh, why, cell, n)
    case Exited(why) => ExitOk(sh, why, cell, n)
    case _ =>
      cell == Some(CheckpointAt(sh.records, n))
  }

  /** The first i records of the page are the last of the n whose checkpoint is stored. */
  ghost predicate DeliveringOk(sh: Shard, page: seq<Record>, i: nat, last: bool, cell: Option<string>, n: nat)
    requires n <= |sh.records|
  {
    && cell == Some(CheckpointAt(sh.records, n))
    && PageAt(sh, page, n - i) && i <= |page|
    && (last ==> sh.closed && n - i + |page| == |sh.records|)
  }

  ghost predicate PageAt(sh: Shard, page: seq<Record>, start: int) {
    |page| <= LIMIT && 0 <= start && start + |page| <= |sh.records| && page == sh.records[start..start + |page|]
  }

  ghost predicate ExitOk(sh: Shard, why: Exit, cell: Option<string>, n: nat)
    requires n <= |sh.records|
  {
    && why != ShardNotFound
    && (if why == ShardClosed then cell == None && sh.closed && n == |sh.records|
        else cell == Some(CheckpointAt(sh.records, n)))
  }

  /** A shard may take records until it is closed, and then stays as it is. */
  ghost predicate Extends(a: Shard, b: Shard) {
    a.records <= b.records && (a.closed ==> b == a) && ValidShard(b)
  }

  lemma PageStaysAt(a: Shard, b: Shard, page: seq<Record>, start: int)
    requires PageAt(a, page, start) && a.records <= b.records
    ensures PageAt(b, page, start)
  {
    assert a.records == b.records[..|a.records|];
    assert b.records[start..start + |page|] == a.records[start..start + |page|];
  }

  lemma CheckpointStaysAt(a: Shard, b: Shard, n: nat)
    requires n <= |a.records| && a.records <= b.records
    ensures CheckpointAt(a.records, n) == CheckpointAt(b.records, n)
  {
  }

  lemma DeliveringSurvivesGrowth(a: Shard, b: Shard, page: seq<Record>, i: nat, last: bool,
                                 cell: Option<string>, n: nat)
    requires n <= |a.records| && DeliveringOk(a, page, i, last, cell, n) && Extends(a, b)
    ensures DeliveringOk(b, page, i, last, cell, n)
  {
    CheckpointStaysAt(a, b, n);
    PageStaysAt(a, b, page, n - i);
  }

  /** Away from a page only the checkpoint counts. */
  lemma RestSurvivesGrowth(a: Shard, b: Shard, pc: Pc, cell: Option<string>, n: nat)
    requires n <= |a.records| <= |b.records| && PlaceOk(a, pc, cell, n)
    requires CheckpointAt(a.records, n) == CheckpointAt(b.records, n) && !a.closed
    requires !pc.Delivering? && !pc.Storing?
    ensures PlaceOk(b, pc, cell, n)
  {
  }

  lemma PlaceSurvivesGrowth(a: Shard, b: Shard, pc: Pc, cell: Option<string>, n: nat)
    requires n <= |a.records| && PlaceOk(a, pc, cell, n) && Extends(a, b)
    ensures PlaceOk(b, pc, cell, n)
  {
    if a.closed {
      assert b == a;
    } else if pc.Delivering? {
      DeliveringSurvivesGrowth(a, b, pc.page, pc.i, pc.last, cell, n);
    } else if pc.Storing? {
      DeliveringSurvivesGrowth(a, b, pc.page, pc.i, pc.last, cell, n - 1);
    } else {
      CheckpointStaysAt(a, b, n);
      RestSurvivesGrowth(a, b, pc, cell, n);
    }
  }

  lemma LocalSurvivesGrowth(a: Shard, b: Shard, pc: Pc, cell: Option<string>, done: seq<Record>)
    requires LocalOk(a, pc, cell, done) && Extends(a, b)
    ensures LocalOk(b, pc, cell, done)
  {
    PlaceSurvivesGrowth(a, b, pc, cell, |done|);
  }

  /** An iterator rebuilt from the checkpoint points just past what was handed over. */
  lemma CheckpointFindsItsPlace(sh: Shard, n: nat, pos: nat)
    requires ValidShard(sh) && n <= |sh.records| && IteratorAt(sh, CheckpointAt(sh.records, n), pos)
    ensures pos == n
  {
    if n > 0 {
      assert sh.records[n - 1].seqNo != "";
      assert sh.records[pos - 1].seqNo == sh.records[n - 1].seqNo;
    }
  }

  lemma PageKeepsPlace(sh: Shard, ctxDone: bool, pc: Pc, cell: Option<string>, n: nat, a: Act, pc': Pc)
    requires ValidShard(sh) && n <= |sh.records| && PlaceOk(sh, pc, cell, n) && (a.GotIterator? || a.GotPage?)
    requires WorkerStep(sh, ctxDone, pc, cell, a, pc', cell)
    ensures PlaceOk(sh, pc', cell, n)
  {
    if a.GotIterator? {
      CheckpointFindsItsPlace(sh, n, a.pos);
    }
  }

  /** The checkpoint of the record handed over completes the step. */
  lemma StoreKeepsPlace(sh: Shard, page: seq<Record>, i: nat, last: bool, cell: Option<string>, n: nat)
    requires 1 <= n <= |sh.records| && i < |page| && DeliveringOk(sh, page, i, last, cell, n - 1)
    ensures DeliveringOk(sh, page, i + 1, last, Some(page[i].seqNo), n)
  {
    NextOnPage(sh, page, n - 1 - i, i);
  }

  lemma BareStepKeepsPlace(sh: Shard, ctxDone: bool, pc: Pc, cell: Option<string>, n: nat,
                           a: Act, pc': Pc, cell': Option<string>)
    requires n <= |sh.records| && PlaceOk(sh, pc, cell, n)
    requires !a.Deliver? && !a.Store? && !a.GotIterator? && !a.GotPage?
    requires WorkerStep(sh, ctxDone, pc, cell, a, pc', cell')
    ensures PlaceOk(sh, pc', cell', n)
  {
  }

  lemma NextOnPage(sh: Shard, page: seq<Record>, start: int, i: nat)
    requires PageAt(sh, page, start) && i < |page|
    ensures page[i] == sh.records[start + i]
  {
  }

  lemma ExtendsPrefix(log: seq<Record>, done: seq<Record>)
    requires done <= log && |done| < |log|
    ensures done + [log[|done|]] <= log
  {
  }

  /** The record handed over is the next one of the log. */
  lemma DeliverKeepsLocal(sh: Shard, page: seq<Record>, i: nat, last: bool, cell: Option<string>, done: seq<Record>)
    requires LocalOk(sh, Delivering(page, i, last), cell, done) && i < |page|
    ensures LocalOk(sh, Storing(page, i, last), cell, done + [page[i]])
  {
    NextOnPage(sh, page, |done| - i, i);
    ExtendsPrefix(sh.records, done);
  }

  lemma QuietStepKeepsPlace(sh: Shard, ctxDone: bool, pc: Pc, cell: Option<string>, n: nat,
                            a: Act, pc': Pc, cell': Option<string>)
    requires ValidShard(sh) && n <= |sh.records| && PlaceOk(sh, pc, cell, n) && !a.Deliver?
    requires WorkerStep(sh, ctxDone, pc, cell, a, pc', cell')
    ensures PlaceOk(sh, pc', cell', n)
  {
    if a.Store? {
      StoreKeepsPlace(sh, pc.page, pc.i, pc.last, cell, n);
    } else if a.GotIterator? || a.GotPage? {
      PageKeepsPlace(sh, ctxDone, pc, cell, n, a, pc');
    } else {
      BareStepKeepsPlace(sh, ctxDone, pc, cell, n, a, pc', cell');
    }
  }

  lemma WorkerStepKeepsLocal(sh: Shard, ctxDone: bool, pc: Pc, cell: Option<string>, done: seq<Record>,
                             a: Act, pc': Pc, cell': Option<string>)
    requires LocalOk(sh, pc, cell, done)
    requires WorkerStep(sh, ctxDone, pc, cell, a, pc', cell')
    ensures LocalOk(sh, pc', cell', done + DeliveredBy(a))
  {
    if a.Deliver? {
      DeliverKeepsLocal(sh, pc.page, pc.i, pc.last, cell, done);
    } else {
      assert done + DeliveredBy(a) == done;
      QuietStepKeepsPlace(sh, ctxDone, pc, cell, |done|, a, pc', cell');
    }
  }

  // The way a shard takes from discovery to its worker

  function WorkerShards(c: Config): seq<ShardId> {
    seq(|c.workers|, k requires 0 <= k < |c.workers| => c.workers[k].shard)
  }

  function InHand(d: Dispatcher): seq<ShardId> {
    if d.Initialising? || d.Adding? || d.Spawning? then [d.shard] else []
  }

  function Initialised(d: Dispatcher): seq<ShardId> {
    if d.Adding? || d.Spawning? then [d.shard] else []
  }

  function Handed(l: Lister): seq<ShardId> {
    if l.Handing? then [l.shard] else []
  }

  function Todo(l: Lister): seq<ShardId> {
    if l.Scanning? || l.Handing? then l.todo else []
  }

  /** Every shard discovered so far, in the order of discovery. */
  function Pipeline(c: Config): seq<ShardId> {
    WorkerShards(c) + InHand(c.dispatcher) + c.chan + Handed(c.lister)
  }

  ghost predicate PipelineOk(c: Config, h: seq<Label>) {
    StructureOk(c) && HistoryOk(c, Sends(h), Initialisations(h), Spawns(h))
  }

  ghost predicate StructureOk(c: Config) {
    && NoDuplicates(Pipeline(c))
    && ToSet(Pipeline(c)) == c.seen
    && c.seen <= c.shards.Keys
    && (forall s :: s in Todo(c.lister) ==> s in c.shards)
    && |c.chan| <= CAPACITY
  }

  lemma WorkKeepsShards(c: Config, l: Label, c': Config)
    requires Next(c, l, c') && l.Work?
    ensures WorkerShards(c') == WorkerShards(c)
  {
  }

  /** Sends, initial checkpoints and workers so far, as far as the state shows them. */
  ghost predicate HistoryOk(c: Config, sends: seq<ShardId>, inits: seq<ShardId>, spawns: seq<ShardId>) {
    && sends == WorkerShards(c) + InHand(c.dispatcher) + c.chan
    && inits == WorkerShards(c) + Initialised(c.dispatcher)
    && spawns == WorkerShards(c)
  }

  lemma ListerDiscovers(c: Config, s: ShardId, c': Config)
    requires StructureOk(c) && ListerNext(c, Discover(s), c')
    ensures StructureOk(c')
  {
    assert WorkerShards(c') == WorkerShards(c);
    assert Pipeline(c') == Pipeline(c) + [s];
    NoDuplicatesSnoc(Pipeline(c), s);
  }

  lemma ListerMoves(c: Config, l: Label, c': Config)
    requires StructureOk(c) && ListerNext(c, l, c') && !l.Discover?
    ensures StructureOk(c')
  {
    assert WorkerShards(c') == WorkerShards(c);
    assert Pipeline(c') == Pipeline(c);
  }

  lemma ListerSends(c: Config, l: Label, c': Config)
    requires ListerNext(c, l, c')
    ensures c'.workers == c.workers && c'.dispatcher == c.dispatcher && c'.chan == c.chan + SentBy(l)
    ensures InitialisedBy(l) == [] && SpawnedBy(l) == []
  {
  }

  /** The lister adds new shards at the end of the pipeline and sends them. */
  lemma ListerKeepsHistory(c: Config, l: Label, c': Config,
                           sends: seq<ShardId>, inits: seq<ShardId>, spawns: seq<ShardId>)
    requires StructureOk(c) && HistoryOk(c, sends, inits, spawns) && ListerNext(c, l, c')
    ensures StructureOk(c')
    ensures HistoryOk(c', sends + SentBy(l), inits + InitialisedBy(l), spawns + SpawnedBy(l))
  {
    if l.Discover? {
      ListerDiscovers(c, l.shard, c');
    } else {
      ListerMoves(c, l, c');
    }
    ListerSends(c, l, c');
    assert WorkerShards(c') == WorkerShards(c);
  }

  /** The dispatcher moves one shard at a time from the channel to its worker. */
  lemma DispatcherMoves(c: Config, l: Label, c': Config)
    requires StructureOk(c) && DispatcherNext(c, l, c')
    ensures StructureOk(c')
    ensures SentBy(l) == []
    ensures WorkerShards(c') == WorkerShards(c) + SpawnedBy(l)
    ensures WorkerShards(c') + InHand(c'.dispatcher) + c'.chan == WorkerShards(c) + InHand(c.dispatcher) + c.chan
    ensures WorkerShards(c') + Initialised(c'.dispatcher)
            == WorkerShards(c) + Initialised(c.dispatcher) + InitialisedBy(l)
  {
    assert WorkerShards(c') == WorkerShards(c) + SpawnedBy(l);
    assert WorkerShards(c') + InHand(c'.dispatcher) + c'.chan == WorkerShards(c) + InHand(c.dispatcher) + c.chan;
    assert Pipeline(c') == Pipeline(c);
  }

  /** A step that touches no part of the pipeline. */
  lemma PipelineUntouched(c: Config, l: Label, c': Config,
                          sends: seq<ShardId>, inits: seq<ShardId>, spawns: seq<ShardId>)
    requires StructureOk(c) && HistoryOk(c, sends, inits, spawns)
    requires WorkerShards(c') == WorkerShards(c) && c'.dispatcher == c.dispatcher && c'.chan == c.chan
    requires c'.lister == c.lister && c'.seen == c.seen && c.shards.Keys <= c'.shards.Keys
    requires SentBy(l) == InitialisedBy(l) == SpawnedBy(l) == []
    ensures StructureOk(c')
    ensures HistoryOk(c', sends + SentBy(l), inits + InitialisedBy(l), spawns + SpawnedBy(l))
  {
    assert Pipeline(c') == Pipeline(c);
    assert sends + [] == sends && inits + [] == inits && spawns + [] == spawns;
  }

  lemma EnvLeavesThePipeline(c: Config, l: Label, c': Config)
    requires EnvNext(c, l, c')
    ensures c'.workers == c.workers && c'.dispatcher == c.dispatcher && c'.chan == c.chan
    ensures c'.lister == c.lister && c'.seen == c.seen && c.shards.Keys <= c'.shards.Keys
    ensures SentBy(l) == InitialisedBy(l) == SpawnedBy(l) == []
  {
  }

  lemma WorkLeavesThePipeline(c: Config, l: Label, c': Config)
    requires l.Work? && WorkNext(c, l.k, l.shard, l.act, c')
    ensures WorkerShards(c') == WorkerShards(c) && c'.dispatcher == c.dispatcher && c'.chan == c.chan
    ensures c'.lister == c.lister && c'.seen == c.seen && c.shards.Keys <= c'.shards.Keys
    ensures SentBy(l) == InitialisedBy(l) == SpawnedBy(l) == []
  {
  }

  lemma HistoryStep(c: Config, l: Label, c': Config, sends: seq<ShardId>, inits: seq<ShardId>, spawns: seq<ShardId>)
    requires StructureOk(c) && HistoryOk(c, sends, inits, spawns) && Next(c, l, c')
    ensures StructureOk(c')
    ensures HistoryOk(c', sends + SentBy(l), inits + InitialisedBy(l), spawns + SpawnedBy(l))
  {
    if l.Work? {
      WorkLeavesThePipeline(c, l, c');
      PipelineUntouched(c, l, c', sends, inits, spawns);
    } else if EnvNext(c, l, c') {
      EnvLeavesThePipeline(c, l, c');
      assert WorkerShards(c') == WorkerShards(c);
      PipelineUntouched(c, l, c', sends, inits, spawns);
    } else if ListerNext(c, l, c') {
      ListerKeepsHistory(c, l, c', sends, inits, spawns);
    } else {
      DispatcherMoves(c, l, c');
    }
  }

  lemma PipelineStep(c: Config, h: seq<Label>, l: Label, c': Config)
    requires PipelineOk(c, h) && Next(c, l, c')
    ensures PipelineOk(c', h + [l])
  {
    HistorySnoc(h, l);
    HistoryStep(c, l, c', Sends(h), Initialisations(h), Spawns(h));
  }

  // Records and checkpoints

  ghost predicate WorkerOk(c: Config, h: seq<Label>, k: nat)
    requires k < |c.workers|
  {
    var w := c.workers[k];
    w.shard in c.shards && LocalOk(c.shards[w.shard], w.pc, Cell(c.checkpoints, w.shard), Deliveries(h, w.shard))
  }

  /** A shard without a worker: untouched, with "" as its checkpoint from the moment the
      dispatcher has stored it. */
  ghost predicate UnstartedOk(c: Config, h: seq<Label>, s: ShardId) {
    && Acts(h, s) == []
    && Cell(c.checkpoints, s) == if s in Initialised(c.dispatcher) then Some("") else None
  }

  ghost predicate DataOk(c: Config, h: seq<Label>) {
    && (forall s :: s in c.shards ==> ValidShard(c.shards[s]))
    && (forall k :: 0 <= k < |c.workers| ==> WorkerOk(c, h, k))
    && (forall s :: s !in WorkerShards(c) ==> UnstartedOk(c, h, s))
  }

  lemma WorkerOfShardIsUnique(c: Config, h: seq<Label>, i: nat, j: nat)
    requires PipelineOk(c, h) && i < |c.workers| && j < |c.workers|
    requires c.workers[i].shard == c.workers[j].shard
    ensures i == j
  {
    assert Pipeline(c)[i] == WorkerShards(c)[i] && Pipeline(c)[j] == WorkerShards(c)[j];
  }

  lemma InHandHasNoWorker(c: Config, h: seq<Label>, s: ShardId)
    requires PipelineOk(c, h) && s in InHand(c.dispatcher)
    ensures s !in WorkerShards(c)
  {
    var n := |c.workers|;
    assert Pipeline(c)[n] == s;
    forall k | 0 <= k < n ensures WorkerShards(c)[k] != s {
      assert Pipeline(c)[k] == WorkerShards(c)[k];
    }
  }

  /** A worker stays right when its shard, its cell and its history are left alone. */
  lemma WorkerFrame(c: Config, h: seq<Label>, c': Config, h': seq<Label>, j: nat)
    requires j < |c.workers| && j < |c'.workers| && c'.workers[j] == c.workers[j]
    requires WorkerOk(c, h, j)
    requires c.workers[j].shard in c'.shards
    requires Extends(c.shards[c.workers[j].shard], c'.shards[c.workers[j].shard])
    requires Cell(c'.checkpoints, c.workers[j].shard) == Cell(c.checkpoints, c.workers[j].shard)
    requires Acts(h', c.workers[j].shard) == Acts(h, c.workers[j].shard)
    ensures WorkerOk(c', h', j)
  {
    var w := c.workers[j];
    LocalSurvivesGrowth(c.shards[w.shard], c'.shards[w.shard], w.pc, Cell(c.checkpoints, w.shard),
                        Deliveries(h, w.shard));
  }

  lemma WorkEffect(c: Config, k: nat, s: ShardId, a: Act, c': Config) returns (pc': Pc, cell': Option<string>)
    requires WorkNext(c, k, s, a, c')
    ensures WorkerStep(c.shards[s], c.ctxDone, c.workers[k].pc, Cell(c.checkpoints, s), a, pc', cell')
    ensures c'.workers == c.workers[k := Worker(s, pc')]
    ensures c'.shards == c.shards && c'.dispatcher == c.dispatcher && c'.ctxDone == c.ctxDone
    ensures c'.lister == c.lister
    ensures Cell(c'.checkpoints, s) == cell'
    ensures forall t :: t != s ==> Cell(c'.checkpoints, t) == Cell(c.checkpoints, t)
  {
    pc', cell' :| WorkerStep(c.shards[s], c.ctxDone, c.workers[k].pc, Cell(c.checkpoints, s), a, pc', cell')
                  && c' == c.(workers := c.workers[k := Worker(s, pc')],
                              checkpoints := if a.Store? || a.Delete? then WithCell(c.checkpoints, s, cell')
                                             else c.checkpoints,
                              wg := if a.Finish? then c.wg - 1 else c.wg);
  }

  lemma WorkLeavesTheRest(c: Config, k: nat, s: ShardId, a: Act, c': Config)
    requires WorkNext(c, k, s, a, c')
    ensures c'.lister == c.lister && c'.chan == c.chan && c'.chanClosed == c.chanClosed
    ensures c'.dispatcher == c.dispatcher && c'.ctxDone == c.ctxDone
  {
  }

  lemma WorkerSurvivesWork(c: Config, h: seq<Label>, k: nat, s: ShardId, a: Act, c': Config, j: nat)
    requires PipelineOk(c, h) && WorkNext(c, k, s, a, c')
    requires WorkerOk(c, h, k) && j < |c.workers| && WorkerOk(c, h, j)
    requires c.workers[j].shard in c.shards && ValidShard(c.shards[c.workers[j].shard])
    ensures |c'.workers| == |c.workers| && WorkerOk(c', h + [Work(k, s, a)], j)
  {
    ShardHistorySnoc(h, Work(k, s, a), c.workers[j].shard);
    var pc', cell' := WorkEffect(c, k, s, a, c');
    if j == k {
      ActsSnoc(Acts(h, s), a);
      WorkerStepKeepsLocal(c.shards[s], c.ctxDone, c.workers[k].pc, Cell(c.checkpoints, s), Deliveries(h, s),
                           a, pc', cell');
    } else {
      if c.workers[j].shard == s {
        WorkerOfShardIsUnique(c, h, j, k);
      }
      WorkerFrame(c, h, c', h + [Work(k, s, a)], j);
    }
  }

  lemma DataSurvivesWork(c: Config, h: seq<Label>, k: nat, s: ShardId, a: Act, c': Config)
    requires PipelineOk(c, h) && DataOk(c, h) && WorkNext(c, k, s, a, c')
    ensures DataOk(c', h + [Work(k, s, a)])
  {
    var l := Work(k, s, a);
    var pc', cell' := WorkEffect(c, k, s, a, c');
    forall j | 0 <= j < |c'.workers| ensures WorkerOk(c', h + [l], j) {
      assert WorkerOk(c, h, k) && WorkerOk(c, h, j);
      WorkerSurvivesWork(c, h, k, s, a, c', j);
    }
    WorkKeepsShards(c, l, c');
    assert WorkerShards(c)[k] == s;
    forall t | t !in WorkerShards(c') ensures UnstartedOk(c', h + [l], t) {
      assert UnstartedOk(c, h, t);
      ShardHistorySnoc(h, l, t);
    }
  }

  /** What a step of the stream, the lister or the dispatcher can change that a worker can see. */
  ghost predicate OutsideStep(c: Config, l: Label, c': Config) {
    && !l.Work?
    && c'.workers == (if l.Spawn? then c.workers + [Worker(l.shard, Loading)] else c.workers)
    && c'.checkpoints == (if l.InitCheckpoint? then c.checkpoints[l.shard := ""] else c.checkpoints)
    && Initialised(c'.dispatcher)
       == (if l.InitCheckpoint? then [l.shard] else if l.Spawn? then [] else Initialised(c.dispatcher))
    && (l.InitCheckpoint? ==> c.dispatcher == Initialising(l.shard))
    && (l.Spawn? ==> c.dispatcher == Spawning(l.shard))
    && (forall s :: s in c.shards ==>
          s in c'.shards && (ValidShard(c.shards[s]) ==> Extends(c.shards[s], c'.shards[s])))
    && (forall s :: s in c'.shards && s !in c.shards ==> ValidShard(c'.shards[s]))
  }

  lemma EnvIsOutside(c: Config, l: Label, c': Config)
    requires EnvNext(c, l, c')
    ensures OutsideStep(c, l, c')
  {
  }

  lemma ListerIsOutside(c: Config, l: Label, c': Config)
    requires ListerNext(c, l, c')
    ensures OutsideStep(c, l, c')
  {
    assert c'.shards == c.shards;
  }

  lemma DispatcherIsOutside(c: Config, l: Label, c': Config)
    requires DispatcherNext(c, l, c')
    ensures OutsideStep(c, l, c')
  {
    assert c'.shards == c.shards;
  }

  lemma OutsideSteps(c: Config, l: Label, c': Config)
    requires Next(c, l, c') && !l.Work?
    ensures OutsideStep(c, l, c')
  {
    if EnvNext(c, l, c') {
      EnvIsOutside(c, l, c');
    } else if ListerNext(c, l, c') {
      ListerIsOutside(c, l, c');
    } else {
      DispatcherIsOutside(c, l, c');
    }
  }

  lemma WorkerSurvivesOthers(c: Config, h: seq<Label>, l: Label, c': Config, j: nat)
    requires PipelineOk(c, h) && OutsideStep(c, l, c')
    requires j < |c.workers| && WorkerOk(c, h, j)
    ensures j < |c'.workers| && WorkerOk(c', h + [l], j)
  {
    ShardHistorySnoc(h, l, c.workers[j].shard);
    assert WorkerShards(c)[j] == c.workers[j].shard;
    if l.InitCheckpoint? {
      InHandHasNoWorker(c, h, l.shard);
    }
    WorkerFrame(c, h, c', h + [l], j);
  }

  lemma UnstartedSurvivesOthers(c: Config, h: seq<Label>, l: Label, c': Config, t: ShardId)
    requires OutsideStep(c, l, c') && UnstartedOk(c, h, t) && !(l.Spawn? && l.shard == t)
    ensures UnstartedOk(c', h + [l], t)
  {
    ShardHistorySnoc(h, l, t);
  }

  lemma FreshWorkerOk(c: Config, h: seq<Label>, s: ShardId, c': Config)
    requires PipelineOk(c, h) && OutsideStep(c, Spawn(s), c') && UnstartedOk(c, h, s)
    requires s in c'.shards ==> ValidShard(c'.shards[s])
    ensures WorkerOk(c', h + [Spawn(s)], |c.workers|)
  {
    ShardHistorySnoc(h, Spawn(s), s);
    assert Pipeline(c)[|c.workers|] == s;
    assert s in ToSet(Pipeline(c));
    assert Deliveries(h + [Spawn(s)], s) == [];
  }

  lemma WorkersSurviveOthers(c: Config, h: seq<Label>, l: Label, c': Config)
    requires PipelineOk(c, h) && DataOk(c, h) && OutsideStep(c, l, c')
    ensures forall j :: 0 <= j < |c.workers| ==> j < |c'.workers| && WorkerOk(c', h + [l], j)
  {
    forall j | 0 <= j < |c.workers| ensures j < |c'.workers| && WorkerOk(c', h + [l], j) {
      assert WorkerOk(c, h, j);
      WorkerSurvivesOthers(c, h, l, c', j);
    }
  }

  lemma UnstartedSurviveSpawn(c: Config, h: seq<Label>, s: ShardId, c': Config)
    requires OutsideStep(c, Spawn(s), c')
    requires forall t :: t !in WorkerShards(c) ==> UnstartedOk(c, h, t)
    ensures forall t :: t !in WorkerShards(c') ==> UnstartedOk(c', h + [Spawn(s)], t)
  {
    assert WorkerShards(c') == WorkerShards(c) + [s];
    forall t | t !in WorkerShards(c') ensures UnstartedOk(c', h + [Spawn(s)], t) {
      assert t !in WorkerShards(c) && t != s;
      UnstartedSurvivesOthers(c, h, Spawn(s), c', t);
    }
  }

  lemma DataSurvivesSpawn(c: Config, h: seq<Label>, s: ShardId, c': Config)
    requires PipelineOk(c, h) && DataOk(c, h) && OutsideStep(c, Spawn(s), c')
    ensures DataOk(c', h + [Spawn(s)])
  {
    InHandHasNoWorker(c, h, s);
    WorkersSurviveOthers(c, h, Spawn(s), c');
    FreshWorkerOk(c, h, s, c');
    forall j | 0 <= j < |c'.workers| ensures WorkerOk(c', h + [Spawn(s)], j) {
      assert j < |c.workers| || j == |c.workers|;
    }
    UnstartedSurviveSpawn(c, h, s, c');
  }

  lemma DataSurvivesOthers(c: Config, h: seq<Label>, l: Label, c': Config)
    requires PipelineOk(c, h) && DataOk(c, h) && OutsideStep(c, l, c') && !l.Spawn?
    ensures DataOk(c', h + [l])
  {
    WorkersSurviveOthers(c, h, l, c');
    assert WorkerShards(c') == WorkerShards(c);
    forall t | t !in WorkerShards(c') ensures UnstartedOk(c', h + [l], t) {
      assert UnstartedOk(c, h, t);
      UnstartedSurvivesOthers(c, h, l, c', t);
    }
  }

  lemma DataStep(c: Config, h: seq<Label>, l: Label, c': Config)
    requires PipelineOk(c, h) && DataOk(c, h) && Next(c, l, c')
    ensures DataOk(c', h + [l])
  {
    if l.Work? {
      DataSurvivesWork(c, h, l.k, l.shard, l.act, c');
    } else {
      OutsideSteps(c, l, c');
      if l.Spawn? {
        DataSurvivesSpawn(c, h, l.shard, c');
      } else {
        DataSurvivesOthers(c, h, l, c');
      }
    }
  }

  // The wait group and the channel

  /** Workers that have not yet run their deferred wg.Done. */
  function Unfinished(ws: seq<Worker>): nat {
    if ws == [] then 0
    else Unfinished(ws[..|ws| - 1]) + if ws[|ws| - 1].pc.Exited? then 0 else 1
  }

  lemma {:induction false} UnfinishedUpdate(ws: seq<Worker>, k: nat, w: Worker)
    requires k < |ws|
    ensures Unfinished(ws[k := w])
            == Unfinished(ws) - (if ws[k].pc.Exited? then 0 else 1) + (if w.pc.Exited? then 0 else 1)
  {
    var n := |ws| - 1;
    if k == n {
      assert ws[k := w][..n] == ws[..n];
    } else {
      assert ws[k := w][..n] == ws[..n][k := w];
      UnfinishedUpdate(ws[..n], k, w);
    }
  }

  lemma {:induction false} NoneUnfinished(ws: seq<Worker>, k: nat)
    requires k < |ws| && Unfinished(ws) == 0
    ensures ws[k].pc.Exited?
  {
    if k < |ws| - 1 {
      NoneUnfinished(ws[..|ws| - 1], k);
    }
  }

  lemma {:induction false} SomeUnfinished(ws: seq<Worker>, k: nat)
    requires k < |ws| && !ws[k].pc.Exited?
    ensures Unfinished(ws) >= 1
  {
    if k < |ws| - 1 {
      SomeUnfinished(ws[..|ws| - 1], k);
    }
  }

  ghost predicate WaitOk(c: Config) {
    && c.wg == Unfinished(c.workers) + (if c.dispatcher.Spawning? then 1 else 0)
    && (c.chanClosed <==> c.lister.HasClosed?)
    && (c.lister.HasCancelled? || c.lister.HasClosed? ==> c.ctxDone)
    && (c.dispatcher.AwaitingWorkers? || c.dispatcher.PullReturned? ==> c.chanClosed && c.chan == [])
    && (c.dispatcher.PullReturned? ==> c.wg == 0)
  }

  lemma WaitSurvivesWork(c: Config, k: nat, s: ShardId, a: Act, c': Config)
    requires WaitOk(c) && WorkNext(c, k, s, a, c')
    ensures WaitOk(c')
  {
    var pc', _ := WorkEffect(c, k, s, a, c');
    UnfinishedUpdate(c.workers, k, Worker(s, pc'));
    if c.dispatcher.PullReturned? {
      NoneUnfinished(c.workers, k);
    }
  }

  lemma WaitSurvivesSpawn(c: Config, s: ShardId, c': Config)
    requires WaitOk(c) && DispatcherNext(c, Spawn(s), c')
    ensures WaitOk(c')
  {
    assert c'.workers[..|c.workers|] == c.workers;
  }

  lemma WaitSurvivesDispatcher(c: Config, l: Label, c': Config)
    requires WaitOk(c) && DispatcherNext(c, l, c') && !l.Spawn?
    ensures WaitOk(c')
  {
    assert c'.workers == c.workers;
  }

  lemma WaitSurvivesLister(c: Config, l: Label, c': Config)
    requires WaitOk(c) && ListerNext(c, l, c')
    ensures WaitOk(c')
  {
    assert c'.workers == c.workers;
  }

  lemma WaitSurvivesEnv(c: Config, l: Label, c': Config)
    requires WaitOk(c) && EnvNext(c, l, c')
    ensures WaitOk(c')
  {
  }

  lemma WaitStep(c: Config, l: Label, c': Config)
    requires WaitOk(c) && Next(c, l, c')
    ensures WaitOk(c')
  {
    if l.Work? {
      WaitSurvivesWork(c, l.k, l.shard, l.act, c');
    } else if l.Spawn? {
      WaitSurvivesSpawn(c, l.shard, c');
    } else if EnvNext(c, l, c') {
      WaitSurvivesEnv(c, l, c');
    } else if ListerNext(c, l, c') {
      WaitSurvivesLister(c, l, c');
    } else {
      WaitSurvivesDispatcher(c, l, c');
    }
  }

  // Every reachable state

  ghost predicate Inv(c: Config, h: seq<Label>) {
    PipelineOk(c, h) && DataOk(c, h) && WaitOk(c)
  }

  lemma SpawnIsFirst(c: Config, h: seq<Label>, s: ShardId, c': Config)
    requires Inv(c, h) && OutsideStep(c, Spawn(s), c')
    ensures Acts(h, s) == []
  {
    InHandHasNoWorker(c, h, s);
    assert UnstartedOk(c, h, s);
  }

  lemma InvInit(c: Config)
    requires Init(c)
    ensures Inv(c, [])
  {
  }

  lemma InvStep(c: Config, h: seq<Label>, l: Label, c': Config)
    requires Inv(c, h) && Next(c, l, c')
    ensures Inv(c', h + [l])
  {
    PipelineStep(c, h, l, c');
    DataStep(c, h, l, c');
    WaitStep(c, l, c');
  }

  lemma InvAtNext(states: seq<Config>, labels: seq<Label>, i: nat)
    requires IsRun(states, labels) && i < |labels| && Inv(states[i], labels[..i])
    ensures Inv(states[i + 1], labels[..i + 1])
  {
    StepOfRun(states, labels, i);
    InvStep(states[i], labels[..i], labels[i], states[i + 1]);
  }

  lemma {:induction false} InvAlways(states: seq<Config>, labels: seq<Label>, i: nat)
    requires IsRun(states, labels) && i < |states|
    ensures Inv(states[i], labels[..i])
  {
    if i == 0 {
      InvInit(states[0]);
      assert labels[..0] == [];
    } else {
      var j := i - 1;
      InvAlways(states, labels, j);
      InvAtNext(states, labels, j);
    }
  }
}
