/** The Kinesis connector as a labelled transition system: one lister, one dispatcher, any
    number of shard workers, and the stream behind them. */
module KinesisModel {
  import opened Basics

  type ShardId = string

  /** maxRecords: the largest page a worker asks for. */
  const LIMIT: nat := 10

  /** shardc's capacity. */
  const CAPACITY: nat := 1

  datatype Record = Record(seqNo: string, key: string, data: string)

  /** The log of one shard. A closed shard takes no more records. */
  datatype Shard = Shard(records: seq<Record>, closed: bool)

  /** Sequence numbers are never empty and never repeat within a shard. */
  ghost predicate ValidShard(sh: Shard) {
    && (forall i :: 0 <= i < |sh.records| ==> sh.records[i].seqNo != "")
    && (forall i, j :: 0 <= i < j < |sh.records| ==> sh.records[i].seqNo != sh.records[j].seqNo)
  }

  /** The checkpoint of a reader that has finished the first n records. */
  function CheckpointAt(records: seq<Record>, n: nat): string
    requires n <= |records|
  {
    if n == 0 then "" else records[n - 1].seqNo
  }

  /** Where an iterator made from a checkpoint points: TRIM_HORIZON for "", otherwise
      AFTER_SEQUENCE_NUMBER. */
  predicate IteratorAt(sh: Shard, checkpoint: string, pos: nat) {
    if checkpoint == "" then pos == 0
    else 0 < pos <= |sh.records| && sh.records[pos - 1].seqNo == checkpoint
  }

  /** What happened to one record in consumeMessage: the function call, and whether the
      publish that followed it, if any, was accepted. */
  datatype Outcome = Outcome(call: Invocation, published: bool)

  datatype Exit = ShardNotFound | IteratorFailed | ReadFailed | ShardClosed | Cancelled

  /** Where a worker is. live: the AWS call under way was made before the cancellation. */
  datatype Pc =
    | Loading
    | GettingIterator(checkpoint: string, live: bool)
    | GettingRecords(pos: nat, live: bool)
    | Delivering(page: seq<Record>, i: nat, last: bool)
    | Storing(page: seq<Record>, i: nat, last: bool)
    | Closing
    | Selecting
    | Exiting(why: Exit)
    | Exited(why: Exit)

  datatype Act =
    | Load
    | Missing
    | GotIterator(pos: nat)
    | NoIterator
    | IteratorError
    | GotPage(count: nat, last: bool)
    | PageError
    | Deliver(record: Record, outcome: Outcome)
    | Store
    | PageDone
    | Delete
    | NothingToDelete
    | SeeDone
    | SeeTick
    | Finish

  /** One step of a worker. It reads its shard, the cancellation and its own checkpoint cell. */
  ghost predicate WorkerStep(sh: Shard, ctxDone: bool, pc: Pc, cell: Option<string>,
                             a: Act, pc': Pc, cell': Option<string>)
  {
    && (a.Store? || a.Delete? || cell' == cell)
    && match a
       case Load =>
         pc.Loading? && cell.Some? && pc' == GettingIterator(cell.value, !ctxDone)
       case Missing =>
         pc.Loading? && cell.None? && pc' == Exiting(ShardNotFound)
       case GotIterator(pos) =>
         pc.GettingIterator? && pc.live && IteratorAt(sh, pc.checkpoint, pos) && pc' == GettingRecords(pos, !ctxDone)
       case NoIterator =>
         pc.GettingIterator? && pc.live && pc' == Selecting
       case IteratorError =>
         pc.GettingIterator? && pc' == Exiting(IteratorFailed)
       case GotPage(count, last) =>
         && pc.GettingRecords? && pc.live
         && count <= LIMIT && pc.pos + count <= |sh.records|
         && (last ==> sh.closed && pc.pos + count == |sh.records|)
         && pc' == Delivering(sh.records[pc.pos..pc.pos + count], 0, last)
       case PageError =>
         pc.GettingRecords? && pc' == Exiting(ReadFailed)
       case Deliver(r, _) =>
         pc.Delivering? && pc.i < |pc.page| && r == pc.page[pc.i] && pc' == Storing(pc.page, pc.i, pc.last)
       case Store =>
         && pc.Storing? && pc.i < |pc.page|
         && pc' == Delivering(pc.page, pc.i + 1, pc.last) && cell' == Some(pc.page[pc.i].seqNo)
       case PageDone =>
         pc.Delivering? && pc.i == |pc.page| && pc' == if pc.last then Closing else Selecting
       case Delete =>
         pc.Closing? && cell.Some? && pc' == Exiting(ShardClosed) && cell' == None
       case NothingToDelete =>
         pc.Closing? && cell.None? && pc' == Selecting
       case SeeDone =>
         pc.Selecting? && ctxDone && pc' == Exiting(Cancelled)
       case SeeTick =>
         pc.Selecting? && pc' == Loading
       case Finish =>
         pc.Exiting? && pc' == Exited(pc.why)
  }

  datatype Lister =
    | Waiting                                            // the select of findNewShards
    | Listing(live: bool)                                // DescribeStream under way
    | Scanning(todo: seq<ShardId>)                       // the range over the listing
    | Handing(shard: ShardId, todo: seq<ShardId>)        // conn.shardc <- &s
    | Returned                                           // findNewShards has returned
    | HasCancelled                                       // cancel() has run
    | HasClosed                                          // close(shardc) has run

  datatype Dispatcher =
    | Receiving                                          // the range over shardc
    | Initialising(shard: ShardId)                       // before checkpoints.Store
    | Adding(shard: ShardId)                             // before wg.Add
    | Spawning(shard: ShardId)                           // before the go statement
    | AwaitingWorkers                                    // wg.Wait
    | PullReturned

  datatype Worker = Worker(shard: ShardId, pc: Pc)

  datatype Config = Config(
    shards: map<ShardId, Shard>,
    ctxDone: bool,
    lister: Lister,
    seen: set<ShardId>,
    chan: seq<ShardId>,
    chanClosed: bool,
    dispatcher: Dispatcher,
    checkpoints: map<ShardId, string>,
    wg: int,
    workers: seq<Worker>)

  datatype Label =
    // the stream and the operator
    | Produce(shard: ShardId, record: Record)
    | OpenShard(shard: ShardId)
    | CloseShard(shard: ShardId)
    | Signal
    // the lister
    | Tick
    | StopListing
    | Listed(found: seq<ShardId>)
    | ListError
    | SkipSeen(shard: ShardId)
    | Discover(shard: ShardId)
    | Send(shard: ShardId)
    | ListingDone
    | CancelAll
    | CloseChannel
    // the dispatcher
    | Receive(shard: ShardId)
    | InitCheckpoint(shard: ShardId)
    | AddWorker(shard: ShardId)
    | Spawn(shard: ShardId)
    | BeginWait
    | PullReturn
    // worker number k, which reads the given shard
    | Work(k: nat, shard: ShardId, act: Act)

  function Cell(checkpoints: map<ShardId, string>, s: ShardId): Option<string> {
    if s in checkpoints then Some(checkpoints[s]) else None
  }

  function WithCell(checkpoints: map<ShardId, string>, s: ShardId, cell: Option<string>): map<ShardId, string> {
    if cell.Some? then checkpoints[s := cell.value] else checkpoints - {s}
  }

  ghost predicate Init(c: Config) {
    && (forall s :: s in c.shards ==> ValidShard(c.shards[s]))
    && !c.ctxDone && c.lister == Waiting && c.seen == {}
    && c.chan == [] && !c.chanClosed && c.dispatcher == Receiving
    && c.checkpoints == map[] && c.wg == 0 && c.workers == []
  }

  /** The stream appends to open shards, splits and closes them; the operator interrupts. */
  ghost predicate EnvNext(c: Config, l: Label, c': Config) {
    match l
    case Produce(s, r) =>
      && s in c.shards && !c.shards[s].closed
      && var grown := Shard(c.shards[s].records + [r], false);
         ValidShard(grown) && c' == c.(shards := c.shards[s := grown])
    case OpenShard(s) =>
      s !in c.shards && c' == c.(shards := c.shards[s := Shard([], false)])
    case CloseShard(s) =>
      s in c.shards && c' == c.(shards := c.shards[s := c.shards[s].(closed := true)])
    case Signal =>
      c' == c.(ctxDone := true)
    case _ => false
  }

  /** findNewShards and the goroutine around it. A listing is any list of existing shards. */
  ghost predicate ListerNext(c: Config, l: Label, c': Config) {
    match l
    case Tick =>
      c.lister.Waiting? && c' == c.(lister := Listing(!c.ctxDone))
    case StopListing =>
      c.lister.Waiting? && c.ctxDone && c' == c.(lister := Returned)
    case Listed(found) =>
      && c.lister.Listing? && c.lister.live && (forall s :: s in found ==> s in c.shards)
      && c' == c.(lister := Scanning(found))
    case ListError =>
      c.lister.Listing? && c' == c.(lister := Returned)
    case SkipSeen(s) =>
      && c.lister.Scanning? && c.lister.todo != [] && s == c.lister.todo[0] && s in c.seen
      && c' == c.(lister := Scanning(c.lister.todo[1..]))
    case Discover(s) =>
      && c.lister.Scanning? && c.lister.todo != [] && s == c.lister.todo[0] && s !in c.seen
      && c' == c.(lister := Handing(s, c.lister.todo[1..]), seen := c.seen + {s})
    case Send(s) =>
      && c.lister.Handing? && s == c.lister.shard && |c.chan| < CAPACITY
      && c' == c.(lister := Scanning(c.lister.todo), chan := c.chan + [s])
    case ListingDone =>
      c.lister == Scanning([]) && c' == c.(lister := Waiting)
    case CancelAll =>
      c.lister.Returned? && c' == c.(lister := HasCancelled, ctxDone := true)
    case CloseChannel =>
      c.lister.HasCancelled? && c' == c.(lister := HasClosed, chanClosed := true)
    case _ => false
  }

  /** The outer loop of pullRecords. */
  ghost predicate DispatcherNext(c: Config, l: Label, c': Config) {
    match l
    case Receive(s) =>
      && c.dispatcher.Receiving? && c.chan != [] && s == c.chan[0]
      && c' == c.(dispatcher := Initialising(s), chan := c.chan[1..])
    case InitCheckpoint(s) =>
      && c.dispatcher == Initialising(s)
      && c' == c.(dispatcher := Adding(s), checkpoints := c.checkpoints[s := ""])
    case AddWorker(s) =>
      c.dispatcher == Adding(s) && c' == c.(dispatcher := Spawning(s), wg := c.wg + 1)
    case Spawn(s) =>
      && c.dispatcher == Spawning(s)
      && c' == c.(dispatcher := Receiving, workers := c.workers + [Worker(s, Loading)])
    case BeginWait =>
      && c.dispatcher.Receiving? && c.chan == [] && c.chanClosed
      && c' == c.(dispatcher := AwaitingWorkers)
    case PullReturn =>
      c.dispatcher.AwaitingWorkers? && c.wg == 0 && c' == c.(dispatcher := PullReturned)
    case _ => false
  }

  ghost predicate WorkNext(c: Config, k: nat, s: ShardId, a: Act, c': Config) {
    && k < |c.workers| && c.workers[k].shard == s && s in c.shards
    && exists pc', cell' ::
         && WorkerStep(c.shards[s], c.ctxDone, c.workers[k].pc, Cell(c.checkpoints, s), a, pc', cell')
         && c' == c.(workers := c.workers[k := Worker(s, pc')],
                     checkpoints := if a.Store? || a.Delete? then WithCell(c.checkpoints, s, cell')
                                    else c.checkpoints,
                     wg := if a.Finish? then c.wg - 1 else c.wg)
  }

  ghost predicate Next(c: Config, l: Label, c': Config) {
    match l
    case Work(k, s, a) => WorkNext(c, k, s, a, c')
    case _ => EnvNext(c, l, c') || ListerNext(c, l, c') || DispatcherNext(c, l, c')
  }

  ghost predicate TakesStep(states: seq<Config>, labels: seq<Label>, i: nat)
    requires |states| == |labels| + 1 && i < |labels|
  {
    Next(states[i], labels[i], states[i + 1])
  }

  /** A run: one more state than labels, every step allowed. */
  ghost predicate IsRun(states: seq<Config>, labels: seq<Label>) {
    && |states| == |labels| + 1
    && Init(states[0])
    && forall i: nat :: i < |labels| ==> TakesStep(states, labels, i)
  }

  lemma StepOfRun(states: seq<Config>, labels: seq<Label>, i: nat)
    requires IsRun(states, labels) && i < |labels|
    ensures Next(states[i], labels[i], states[i + 1])
    ensures labels[..i + 1] == labels[..i] + [labels[i]]
  {
    assert TakesStep(states, labels, i);
  }

  // What the labels of a run so far say was done.

  function SentBy(l: Label): seq<ShardId> { if l.Send? then [l.shard] else [] }
  function InitialisedBy(l: Label): seq<ShardId> { if l.InitCheckpoint? then [l.shard] else [] }
  function SpawnedBy(l: Label): seq<ShardId> { if l.Spawn? then [l.shard] else [] }
  function DeliveredBy(a: Act): seq<Record> { if a.Deliver? then [a.record] else [] }
  function OutcomesBy(a: Act): seq<Outcome> { if a.Deliver? then [a.outcome] else [] }

  function Sends(h: seq<Label>): seq<ShardId> {
    if h == [] then [] else Sends(h[..|h| - 1]) + SentBy(h[|h| - 1])
  }

  function Initialisations(h: seq<Label>): seq<ShardId> {
    if h == [] then [] else Initialisations(h[..|h| - 1]) + InitialisedBy(h[|h| - 1])
  }

  function Spawns(h: seq<Label>): seq<ShardId> {
    if h == [] then [] else Spawns(h[..|h| - 1]) + SpawnedBy(h[|h| - 1])
  }

  function ActOn(l: Label, s: ShardId): seq<Act> {
    if l.Work? && l.shard == s then [l.act] else []
  }

  /** The acts of shard s's workers, in order. */
  function Acts(h: seq<Label>, s: ShardId): seq<Act> {
    if h == [] then [] else Acts(h[..|h| - 1], s) + ActOn(h[|h| - 1], s)
  }

  function Delivered(acts: seq<Act>): seq<Record> {
    if acts == [] then [] else Delivered(acts[..|acts| - 1]) + DeliveredBy(acts[|acts| - 1])
  }

  function Outcomes(acts: seq<Act>): seq<Outcome> {
    if acts == [] then [] else Outcomes(acts[..|acts| - 1]) + OutcomesBy(acts[|acts| - 1])
  }

  /** The records handed to consumeMessage for shard s, in order. */
  function Deliveries(h: seq<Label>, s: ShardId): seq<Record> {
    Delivered(Acts(h, s))
  }

  lemma ActsSnoc(acts: seq<Act>, a: Act)
    ensures Delivered(acts + [a]) == Delivered(acts) + DeliveredBy(a)
    ensures Outcomes(acts + [a]) == Outcomes(acts) + OutcomesBy(a)
  {
    assert (acts + [a])[..|acts|] == acts;
  }

  lemma HistorySnoc(h: seq<Label>, l: Label)
    ensures Sends(h + [l]) == Sends(h) + SentBy(l)
    ensures Initialisations(h + [l]) == Initialisations(h) + InitialisedBy(l)
    ensures Spawns(h + [l]) == Spawns(h) + SpawnedBy(l)
  {
    assert (h + [l])[..|h|] == h;
  }

  lemma ShardHistorySnoc(h: seq<Label>, l: Label, s: ShardId)
    ensures Acts(h + [l], s) == if l.Work? && l.shard == s then Acts(h, s) + [l.act] else Acts(h, s)
  {
    assert (h + [l])[..|h|] == h;
    assert Acts(h, s) + [] == Acts(h, s);
  }
}
