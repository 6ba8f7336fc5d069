/** How the Kinesis connector comes to an end once its context is cancelled. */
module KinesisShutdown {
  import opened Basics
  import opened KinesisModel
  import opened KinesisSafety

  /** Everything but the stream and the operator. */
  predicate IsSystem(l: Label) {
    !(l.Produce? || l.OpenShard? || l.CloseShard? || l.Signal?)
  }

  // A variant for cancelled configurations

  function WorkerCost(pc: Pc): nat {
    match pc
    case Exited(_) => 0
    case Exiting(_) => 1
    case GettingIterator(_, live) => if live then 5 else 2
    case GettingRecords(_, live) => if live then 7 + 2 * LIMIT else 2
    case Loading => 3
    case Selecting => 4
    case Closing => 5
    case Delivering(page, i, _) => 6 + 2 * Left(page, i)
    case Storing(page, i, _) => 5 + 2 * Left(page, i)
  }

  function Left(page: seq<Record>, i: nat): nat {
    if i <= |page| then |page| - i else 0
  }

  function WorkersCost(ws: seq<Worker>): nat {
    if ws == [] then 0 else WorkersCost(ws[..|ws| - 1]) + WorkerCost(ws[|ws| - 1].pc)
  }

  function ListerCost(l: Lister): nat {
    match l
    case HasClosed => 0
    case HasCancelled => 1
    case Returned => 2
    case Listing(live) => if live then 6 else 3
    case Waiting => 4
    case Scanning(todo) => 5 + 9 * |todo|
    case Handing(_, todo) => 13 + 9 * |todo|
  }

  function DispatcherCost(d: Dispatcher): nat {
    match d
    case PullReturned => 0
    case AwaitingWorkers => 1
    case Receiving => 2
    case Spawning(_) => 6
    case Adding(_) => 7
    case Initialising(_) => 8
  }

  function Variant(c: Config): nat {
    ListerCost(c.lister) + 7 * |c.chan| + DispatcherCost(c.dispatcher) + WorkersCost(c.workers)
  }

  /** A listing that was already under way brings its own work with it. */
  function Credit(l: Label): nat {
    if l.Listed? then 9 * |l.found| else 0
  }

  function InFlight(l: Lister): nat {
    if l.Listing? && l.live then 1 else 0
  }

  lemma {:induction false} WorkersCostUpdate(ws: seq<Worker>, k: nat, w: Worker)
    requires k < |ws|
    ensures WorkersCost(ws[k := w]) + WorkerCost(ws[k].pc) == WorkersCost(ws) + WorkerCost(w.pc)
  {
    var n := |ws| - 1;
    if k == n {
      assert ws[k := w][..n] == ws[..n];
    } else {
      assert ws[k := w][..n] == ws[..n][k := w];
      WorkersCostUpdate(ws[..n], k, w);
    }
  }

  lemma WorkerStepDecreases(sh: Shard, pc: Pc, cell: Option<string>, a: Act, pc': Pc, cell': Option<string>)
    requires WorkerStep(sh, true, pc, cell, a, pc', cell')
    ensures WorkerCost(pc') < WorkerCost(pc)
  {
  }

  lemma CancelledWork(c: Config, k: nat, s: ShardId, a: Act, c': Config)
    requires WorkNext(c, k, s, a, c') && c.ctxDone
    ensures c'.ctxDone && c'.lister == c.lister && Variant(c') < Variant(c)
  {
    var pc', cell' := WorkEffect(c, k, s, a, c');
    WorkerStepDecreases(c.shards[s], c.workers[k].pc, Cell(c.checkpoints, s), a, pc', cell');
    WorkersCostUpdate(c.workers, k, Worker(s, pc'));
    WorkLeavesTheRest(c, k, s, a, c');
  }

  lemma CancelledListerStep(c: Config, l: Label, c': Config)
    requires ListerNext(c, l, c') && c.ctxDone
    ensures c'.ctxDone && IsSystem(l) && Variant(c') < Variant(c) + Credit(l)
    ensures InFlight(c'.lister) + (if l.Listed? then 1 else 0) <= InFlight(c.lister)
  {
  }

  lemma CancelledDispatcherStep(c: Config, l: Label, c': Config)
    requires DispatcherNext(c, l, c') && c.ctxDone
    ensures c'.ctxDone && c'.lister == c.lister && IsSystem(l) && !l.Listed? && Variant(c') < Variant(c)
  {
    if l.Spawn? {
      assert c'.workers[..|c.workers|] == c.workers;
    }
  }

  lemma CancelledEnvStep(c: Config, l: Label, c': Config)
    requires EnvNext(c, l, c') && c.ctxDone
    ensures c'.ctxDone && c'.lister == c.lister && !IsSystem(l) && Credit(l) == 0 && Variant(c') == Variant(c)
  {
  }

  /** After the cancellation each step of the connector uses up some of the variant, the
      stream cannot add to it, and only a listing under way can succeed. */
  lemma CancelledStep(c: Config, l: Label, c': Config)
    requires Next(c, l, c') && c.ctxDone
    ensures c'.ctxDone
    ensures if IsSystem(l) then Variant(c') < Variant(c) + Credit(l) else Variant(c') == Variant(c)
    ensures InFlight(c'.lister) + (if l.Listed? then 1 else 0) <= InFlight(c.lister)
  {
    if l.Work? {
      CancelledWork(c, l.k, l.shard, l.act, c');
    } else if EnvNext(c, l, c') {
      CancelledEnvStep(c, l, c');
    } else if ListerNext(c, l, c') {
      CancelledListerStep(c, l, c');
    } else {
      CancelledDispatcherStep(c, l, c');
    }
  }

  lemma CancelledStays(states: seq<Config>, labels: seq<Label>, i: nat)
    requires IsRun(states, labels) && i < |labels| && states[i].ctxDone
    ensures states[i + 1].ctxDone
  {
    StepOfRun(states, labels, i);
    CancelledStep(states[i], labels[i], states[i + 1]);
  }

  lemma {:induction false} CancelledLasts(states: seq<Config>, labels: seq<Label>, i: nat, j: nat)
    requires IsRun(states, labels) && i <= j < |states| && states[i].ctxDone
    ensures states[j].ctxDone
  {
    if i < j {
      CancelledLasts(states, labels, i, j - 1);
      CancelledStays(states, labels, j - 1);
    }
  }

  function SystemSteps(labels: seq<Label>): nat {
    if labels == [] then 0 else SystemSteps(labels[..|labels| - 1]) + if IsSystem(labels[|labels| - 1]) then 1 else 0
  }

  function Credits(labels: seq<Label>): nat {
    if labels == [] then 0 else Credits(labels[..|labels| - 1]) + Credit(labels[|labels| - 1])
  }

  function ListedCount(labels: seq<Label>): nat {
    if labels == [] then 0 else ListedCount(labels[..|labels| - 1]) + if labels[|labels| - 1].Listed? then 1 else 0
  }

  /** Steps taken and variant left, against the listings that brought work. */
  ghost predicate WithinBudget(labels: seq<Label>, first: Config, last: Config) {
    && last.ctxDone
    && SystemSteps(labels) + Variant(last) <= Variant(first) + Credits(labels)
    && ListedCount(labels) + InFlight(last.lister) <= InFlight(first.lister) <= 1
  }

  lemma BudgetStep(labels: seq<Label>, first: Config, c: Config, l: Label, c': Config)
    requires WithinBudget(labels, first, c) && Next(c, l, c')
    ensures WithinBudget(labels + [l], first, c')
  {
    assert (labels + [l])[..|labels|] == labels;
    CancelledStep(c, l, c');
  }

  /** From the cancellation on the connector takes at most as many steps as the variant
      allows, plus those of one listing that was under way; no other listing succeeds. */
  lemma {:induction false} BoundedAfterCancellation(states: seq<Config>, labels: seq<Label>, i: nat, j: nat)
    requires IsRun(states, labels) && i <= j < |states| && states[i].ctxDone
    ensures WithinBudget(labels[i..j], states[i], states[j])
  {
    if i < j {
      BoundedAfterCancellation(states, labels, i, j - 1);
      assert labels[i..j] == labels[i..j - 1] + [labels[j - 1]];
      StepOfRun(states, labels, j - 1);
      BudgetStep(labels[i..j - 1], states[i], states[j - 1], labels[j - 1], states[j]);
    }
  }

  // Something can always be done until everything is over

  ghost predicate Terminated(c: Config) {
    && c.lister.HasClosed? && c.dispatcher.PullReturned?
    && forall k :: 0 <= k < |c.workers| ==> c.workers[k].pc.Exited?
  }

  ghost predicate CanMove(c: Config) {
    exists l, c' :: Next(c, l, c') && IsSystem(l)
  }

  lemma IsAMove(c: Config, l: Label, c': Config)
    requires Next(c, l, c') && IsSystem(l)
    ensures CanMove(c)
  {
  }

  /** What a worker relies on to take its next step. */
  predicate Ready(pc: Pc, cell: Option<string>) {
    match pc
    case Loading => cell.Some?
    case Closing => cell.Some?
    case Delivering(page, i, _) => i <= |page|
    case Storing(page, i, _) => i < |page|
    case Exited(_) => false
    case _ => true
  }

  lemma WorkersAreReady(sh: Shard, pc: Pc, cell: Option<string>, done: seq<Record>)
    requires LocalOk(sh, pc, cell, done) && !pc.Exited?
    ensures Ready(pc, cell)
  {
  }

  function NextAct(pc: Pc, o: Outcome): Act {
    match pc
    case Loading => Load
    case GettingIterator(_, _) => IteratorError
    case GettingRecords(_, _) => PageError
    case Delivering(page, i, _) => if i < |page| then Deliver(page[i], o) else PageDone
    case Storing(_, _, _) => Store
    case Closing => Delete
    case Selecting => SeeDone
    case _ => Finish
  }

  lemma WorkerCanMove(sh: Shard, pc: Pc, cell: Option<string>, o: Outcome) returns (pc': Pc, cell': Option<string>)
    requires Ready(pc, cell)
    ensures WorkerStep(sh, true, pc, cell, NextAct(pc, o), pc', cell')
  {
    cell' := cell;
    match pc {
      case Loading => pc' := GettingIterator(cell.value, false);
      case GettingIterator(_, _) => pc' := Exiting(IteratorFailed);
      case GettingRecords(_, _) => pc' := Exiting(ReadFailed);
      case Delivering(page, i, last) =>
        pc' := if i < |page| then Storing(page, i, last) else if last then Closing else Selecting;
      case Storing(page, i, last) => pc', cell' := Delivering(page, i + 1, last), Some(page[i].seqNo);
      case Closing => pc', cell' := Exiting(ShardClosed), None;
      case Selecting => pc' := Exiting(Cancelled);
      case Exiting(why) => pc' := Exited(why);
    }
  }

  lemma WorkerStepIsAMove(c: Config, k: nat, s: ShardId, a: Act, pc': Pc, cell': Option<string>)
    requires k < |c.workers| && c.workers[k].shard == s && s in c.shards
    requires WorkerStep(c.shards[s], c.ctxDone, c.workers[k].pc, Cell(c.checkpoints, s), a, pc', cell')
    ensures CanMove(c)
  {
    var c' := c.(workers := c.workers[k := Worker(s, pc')],
                 checkpoints := if a.Store? || a.Delete? then WithCell(c.checkpoints, s, cell') else c.checkpoints,
                 wg := if a.Finish? then c.wg - 1 else c.wg);
    assert WorkNext(c, k, s, a, c');
    IsAMove(c, Work(k, s, a), c');
  }

  lemma AWorkerCanMove(c: Config, h: seq<Label>, k: nat)
    requires Inv(c, h) && c.ctxDone && k < |c.workers| && !c.workers[k].pc.Exited?
    ensures CanMove(c)
  {
    assert WorkerOk(c, h, k);
    var s := c.workers[k].shard;
    var pc, cell, o := c.workers[k].pc, Cell(c.checkpoints, s), Outcome(Failed(""), false);
    WorkersAreReady(c.shards[s], pc, cell, Deliveries(h, s));
    var pc', cell' := WorkerCanMove(c.shards[s], pc, cell, o);
    WorkerStepIsAMove(c, k, s, NextAct(pc, o), pc', cell');
  }

  lemma TheDispatcherCanMove(c: Config)
    requires WaitOk(c)
    requires c.chan != [] || c.dispatcher.Initialising? || c.dispatcher.Adding? || c.dispatcher.Spawning?
    ensures CanMove(c)
  {
    match c.dispatcher
    case Initialising(s) =>
      IsAMove(c, InitCheckpoint(s), c.(dispatcher := Adding(s), checkpoints := c.checkpoints[s := ""]));
    case Adding(s) =>
      IsAMove(c, AddWorker(s), c.(dispatcher := Spawning(s), wg := c.wg + 1));
    case Spawning(s) =>
      IsAMove(c, Spawn(s), c.(dispatcher := Receiving, workers := c.workers + [Worker(s, Loading)]));
    case Receiving =>
      IsAMove(c, Receive(c.chan[0]), c.(dispatcher := Initialising(c.chan[0]), chan := c.chan[1..]));
    case _ =>
  }

  lemma TheScanCanMove(c: Config)
    requires c.lister.Scanning?
    ensures CanMove(c)
  {
    var todo := c.lister.todo;
    if todo == [] {
      IsAMove(c, ListingDone, c.(lister := Waiting));
    } else if todo[0] in c.seen {
      IsAMove(c, SkipSeen(todo[0]), c.(lister := Scanning(todo[1..])));
    } else {
      IsAMove(c, Discover(todo[0]), c.(lister := Handing(todo[0], todo[1..]), seen := c.seen + {todo[0]}));
    }
  }

  lemma TheListerCanMove(c: Config)
    requires WaitOk(c) && c.ctxDone && !c.lister.HasClosed?
    ensures CanMove(c)
  {
    match c.lister
    case Waiting =>
      IsAMove(c, StopListing, c.(lister := Returned));
    case Listing(_) =>
      IsAMove(c, ListError, c.(lister := Returned));
    case Scanning(_) =>
      TheScanCanMove(c);
    case Handing(s, todo) =>
      if |c.chan| < CAPACITY {
        IsAMove(c, Send(s), c.(lister := Scanning(todo), chan := c.chan + [s]));
      } else {
        TheDispatcherCanMove(c);
      }
    case Returned =>
      IsAMove(c, CancelAll, c.(lister := HasCancelled, ctxDone := true));
    case HasCancelled =>
      IsAMove(c, CloseChannel, c.(lister := HasClosed, chanClosed := true));
  }

  lemma {:induction false} AllFinished(ws: seq<Worker>)
    requires forall k :: 0 <= k < |ws| ==> ws[k].pc.Exited?
    ensures Unfinished(ws) == 0
  {
    if ws != [] {
      AllFinished(ws[..|ws| - 1]);
    }
  }

  /** No deadlock after the cancellation: the lister blocked on a full channel, the
      dispatcher in Wait, a worker mid-page, each can go on or is waited for by one that can. */
  lemma MovesUntilTerminated(states: seq<Config>, labels: seq<Label>, i: nat)
    requires IsRun(states, labels) && i < |states| && states[i].ctxDone
    ensures CanMove(states[i]) || Terminated(states[i])
  {
    var c, h := states[i], labels[..i];
    InvAlways(states, labels, i);
    if k :| 0 <= k < |c.workers| && !c.workers[k].pc.Exited? {
      AWorkerCanMove(c, h, k);
    } else if !c.lister.HasClosed? {
      TheListerCanMove(c);
    } else if c.chan != [] || c.dispatcher.Initialising? || c.dispatcher.Adding? || c.dispatcher.Spawning? {
      TheDispatcherCanMove(c);
    } else if c.dispatcher.Receiving? {
      IsAMove(c, BeginWait, c.(dispatcher := AwaitingWorkers));
    } else if c.dispatcher.AwaitingWorkers? {
      AllFinished(c.workers);
      IsAMove(c, PullReturn, c.(dispatcher := PullReturned));
    }
  }

  lemma {:induction false} NoCostMeansExited(ws: seq<Worker>)
    ensures WorkersCost(ws) == 0 <==> forall k :: 0 <= k < |ws| ==> ws[k].pc.Exited?
  {
    if ws != [] {
      var n := |ws| - 1;
      NoCostMeansExited(ws[..n]);
      assert forall k :: 0 <= k < n ==> ws[..n][k] == ws[k];
      assert WorkerCost(ws[n].pc) == 0 <==> ws[n].pc.Exited?;
    }
  }

  /** The variant is used up exactly when pullRecords has returned, the channel is closed
      and every worker is done. */
  lemma SpentExactlyWhenTerminated(states: seq<Config>, labels: seq<Label>, i: nat)
    requires IsRun(states, labels) && i < |states|
    ensures Variant(states[i]) == 0 <==> Terminated(states[i])
  {
    InvAlways(states, labels, i);
    NoCostMeansExited(states[i].workers);
  }

  // Termination of infinite runs

  ghost predicate IsInfiniteRun(states: nat -> Config, labels: nat -> Label) {
    Init(states(0)) && forall i: nat :: StepAt(states, labels, i)
  }

  ghost predicate StepAt(states: nat -> Config, labels: nat -> Label, i: nat) {
    Next(states(i), labels(i), states(i + 1))
  }

  ghost predicate SystemStepFrom(labels: nat -> Label, n: nat, j: nat) {
    n <= j && IsSystem(labels(j))
  }

  /** The scheduler does not starve the connector as a whole: while some step of it is
      possible, some step of it is eventually taken. */
  ghost predicate IsFair(states: nat -> Config, labels: nat -> Label) {
    forall n: nat :: CanMove(states(n)) ==> exists j: nat :: SystemStepFrom(labels, n, j)
  }

  lemma PrefixIsRun(states: nat -> Config, labels: nat -> Label, n: nat) returns (ss: seq<Config>, ls: seq<Label>)
    requires IsInfiniteRun(states, labels)
    ensures IsRun(ss, ls) && |ls| == n && ss[n] == states(n)
  {
    ss := seq(n + 1, i requires 0 <= i <= n => states(i));
    ls := seq(n, i requires 0 <= i < n => labels(i));
    forall i: nat | i < n ensures TakesStep(ss, ls, i) {
      assert StepAt(states, labels, i);
    }
  }

  /** Going on from n to the next step of the connector, at j, the measure gets smaller: no
      listing can succeed twice, and otherwise the variant goes down. */
  lemma {:induction false} MeasureUntil(states: nat -> Config, labels: nat -> Label, n: nat, j: nat)
    requires IsInfiniteRun(states, labels) && states(n).ctxDone && n <= j
    requires forall i: nat :: n <= i < j ==> !IsSystem(labels(i))
    ensures states(j).ctxDone
    ensures InFlight(states(j).lister) <= InFlight(states(n).lister)
    ensures InFlight(states(j).lister) == InFlight(states(n).lister) ==> Variant(states(j)) == Variant(states(n))
    decreases j - n
  {
    if n < j {
      assert StepAt(states, labels, n) && !IsSystem(labels(n));
      CancelledStep(states(n), labels(n), states(n + 1));
      MeasureUntil(states, labels, n + 1, j);
    }
  }

  lemma {:induction false} FirstSystemStep(labels: nat -> Label, n: nat, j: nat) returns (first: nat)
    requires SystemStepFrom(labels, n, j)
    ensures n <= first <= j && IsSystem(labels(first))
    ensures forall i: nat :: n <= i < first ==> !IsSystem(labels(i))
    decreases j - n
  {
    if IsSystem(labels(n)) {
      first := n;
    } else {
      first := FirstSystemStep(labels, n + 1, j);
    }
  }

  lemma SystemStepDrops(states: nat -> Config, labels: nat -> Label, j: nat)
    requires IsInfiniteRun(states, labels) && states(j).ctxDone && IsSystem(labels(j))
    ensures states(j + 1).ctxDone && InFlight(states(j + 1).lister) <= InFlight(states(j).lister)
    ensures InFlight(states(j + 1).lister) == InFlight(states(j).lister) ==> Variant(states(j + 1)) < Variant(states(j))
  {
    assert StepAt(states, labels, j);
    CancelledStep(states(j), labels(j), states(j + 1));
  }

  /** While the connector has not terminated there is a later moment at which the measure is
      smaller. */
  lemma MeasureDrops(states: nat -> Config, labels: nat -> Label, n: nat) returns (m: nat)
    requires IsInfiniteRun(states, labels) && IsFair(states, labels) && states(n).ctxDone && CanMove(states(n))
    ensures n < m && states(m).ctxDone
    ensures InFlight(states(m).lister) <= InFlight(states(n).lister)
    ensures InFlight(states(m).lister) == InFlight(states(n).lister) ==> Variant(states(m)) < Variant(states(n))
  {
    var j: nat :| SystemStepFrom(labels, n, j);
    j := FirstSystemStep(labels, n, j);
    MeasureUntil(states, labels, n, j);
    SystemStepDrops(states, labels, j);
    m := j + 1;
  }

  lemma MovesAt(states: nat -> Config, labels: nat -> Label, n: nat)
    requires IsInfiniteRun(states, labels) && states(n).ctxDone
    ensures CanMove(states(n)) || Terminated(states(n))
  {
    var ss, ls := PrefixIsRun(states, labels, n);
    MovesUntilTerminated(ss, ls, n);
  }

  /** Under a fair scheduler every run that is cancelled comes to its end: pullRecords
      returns with the channel closed and every worker done, whatever the stream does. */
  lemma {:induction false} CancelledRunsTerminate(states: nat -> Config, labels: nat -> Label, n: nat)
    returns (end: nat)
    requires IsInfiniteRun(states, labels) && IsFair(states, labels) && states(n).ctxDone
    ensures n <= end && Terminated(states(end))
    decreases InFlight(states(n).lister), Variant(states(n))
  {
    if Terminated(states(n)) {
      end := n;
    } else {
      MovesAt(states, labels, n);
      var m := MeasureDrops(states, labels, n);
      end := CancelledRunsTerminate(states, labels, m);
    }
  }

  // What is still handed over after the cancellation

  /** Records a worker may still hand over although its context is done. */
  function Remaining(pc: Pc): nat {
    match pc
    case Delivering(page, i, _) => Left(page, i)
    case Storing(page, i, _) => Left(page, i + 1)
    case GettingRecords(_, live) => if live then LIMIT else 0
    case _ => 0
  }

  lemma CancelledStepUsesRemaining(sh: Shard, pc: Pc, cell: Option<string>, a: Act, pc': Pc, cell': Option<string>)
    requires WorkerStep(sh, true, pc, cell, a, pc', cell')
    ensures |DeliveredBy(a)| + Remaining(pc') <= Remaining(pc)
  {
  }

  lemma CancelledWorkDelivers(c: Config, h: seq<Label>, l: Label, c': Config, k: nat)
    requires PipelineOk(c, h) && l.Work? && WorkNext(c, l.k, l.shard, l.act, c') && c.ctxDone && k < |c.workers|
    ensures k < |c'.workers| && c'.workers[k].shard == c.workers[k].shard
    ensures var s := c.workers[k].shard;
            |Deliveries(h + [l], s)| + Remaining(c'.workers[k].pc) <= |Deliveries(h, s)| + Remaining(c.workers[k].pc)
  {
    var s := c.workers[k].shard;
    ShardHistorySnoc(h, l, s);
    var pc', cell' := WorkEffect(c, l.k, l.shard, l.act, c');
    if l.shard == s {
      WorkerOfShardIsUnique(c, h, l.k, k);
      ActsSnoc(Acts(h, s), l.act);
      CancelledStepUsesRemaining(c.shards[s], c.workers[k].pc, Cell(c.checkpoints, s), l.act, pc', cell');
    }
  }

  lemma CancelledWorkerStep(c: Config, h: seq<Label>, l: Label, c': Config, k: nat)
    requires PipelineOk(c, h) && Next(c, l, c') && c.ctxDone && k < |c.workers|
    ensures k < |c'.workers| && c'.workers[k].shard == c.workers[k].shard
    ensures var s := c.workers[k].shard;
            |Deliveries(h + [l], s)| + Remaining(c'.workers[k].pc) <= |Deliveries(h, s)| + Remaining(c.workers[k].pc)
  {
    if l.Work? {
      CancelledWorkDelivers(c, h, l, c', k);
    } else {
      OutsideSteps(c, l, c');
      ShardHistorySnoc(h, l, c.workers[k].shard);
    }
  }

  /** Handed over so far, plus what worker k may still hand over. */
  function Reach(c: Config, h: seq<Label>, k: nat): nat
    requires k < |c.workers|
  {
    |Deliveries(h, c.workers[k].shard)| + Remaining(c.workers[k].pc)
  }

  /** PipelineOk alone, so that callers are spared the rest of the invariant. */
  lemma PipelineAlways(states: seq<Config>, labels: seq<Label>, j: nat)
    requires IsRun(states, labels) && j < |states|
    ensures PipelineOk(states[j], labels[..j])
  {
    InvAlways(states, labels, j);
  }

  /** From i to j worker k has at most used up what it could still hand over. */
  ghost predicate ReachShrinks(states: seq<Config>, labels: seq<Label>, i: nat, j: nat, k: nat)
    requires |states| == |labels| + 1 && i < |states| && j < |states| && k < |states[i].workers|
  {
    && k < |states[j].workers| && states[j].workers[k].shard == states[i].workers[k].shard
    && Reach(states[j], labels[..j], k) <= Reach(states[i], labels[..i], k)
  }

  lemma ReachShrinksAt(states: seq<Config>, labels: seq<Label>, j: nat, k: nat)
    requires IsRun(states, labels) && j < |labels| && states[j].ctxDone && k < |states[j].workers|
    ensures ReachShrinks(states, labels, j, j + 1, k)
  {
    PipelineAlways(states, labels, j);
    StepOfRun(states, labels, j);
    CancelledWorkerStep(states[j], labels[..j], labels[j], states[j + 1], k);
  }

  lemma ReachShrinksOn(states: seq<Config>, labels: seq<Label>, i: nat, j: nat, k: nat)
    requires IsRun(states, labels) && i < |states| && j < |labels| && k < |states[i].workers|
    requires ReachShrinks(states, labels, i, j, k) && states[j].ctxDone
    ensures ReachShrinks(states, labels, i, j + 1, k)
  {
    ReachShrinksAt(states, labels, j, k);
  }

  lemma {:induction false} RemainingBoundsDeliveries(states: seq<Config>, labels: seq<Label>, i: nat, j: nat, k: nat)
    requires IsRun(states, labels) && i <= j < |states| && states[i].ctxDone && k < |states[i].workers|
    ensures ReachShrinks(states, labels, i, j, k)
    decreases j
  {
    if i == j {
      assert ReachShrinks(states, labels, i, i, k);
    } else {
      var m := j - 1;
      RemainingBoundsDeliveries(states, labels, i, m, k);
      CancelledLasts(states, labels, i, m);
      ReachShrinksOn(states, labels, i, m, k);
    }
  }

  /** All that a worker does that starts after the cancellation: it loads its checkpoint,
      fails its first AWS call and finishes. */
  predicate AreLate(acts: seq<Act>) {
    match |acts|
    case 0 => true
    case 1 => acts == [Load]
    case 2 => acts == [Load, IteratorError]
    case 3 => acts == [Load, IteratorError, Finish]
    case _ => false
  }

  /** Where it is after so many of these acts. */
  predicate IsLate(pc: Pc, n: nat) {
    match n
    case 0 => pc.Loading?
    case 1 => pc.GettingIterator? && !pc.live
    case 2 => pc == Exiting(IteratorFailed)
    case 3 => pc == Exited(IteratorFailed)
    case _ => false
  }

  lemma LateStep(sh: Shard, pc: Pc, cell: Option<string>, a: Act, pc': Pc, cell': Option<string>, n: nat)
    requires WorkerStep(sh, true, pc, cell, a, pc', cell') && IsLate(pc, n) && (pc.Loading? ==> cell.Some?)
    ensures IsLate(pc', n + 1)
    ensures n < 3 && a == match n case 0 => Load case 1 => IteratorError case _ => Finish
  {
  }

  /** So far this shard's worker, if it has one, has done these acts and no others. */
  ghost predicate OnlyLate(c: Config, h: seq<Label>, s: ShardId) {
    && AreLate(Acts(h, s))
    && forall k :: 0 <= k < |c.workers| && c.workers[k].shard == s ==> IsLate(c.workers[k].pc, |Acts(h, s)|)
  }

  lemma {:induction false} NoDeliverNoRecord(acts: seq<Act>)
    requires forall i :: 0 <= i < |acts| ==> !acts[i].Deliver?
    ensures Delivered(acts) == []
  {
    if acts != [] {
      NoDeliverNoRecord(acts[..|acts| - 1]);
    }
  }

  lemma LateActsDeliverNothing(acts: seq<Act>)
    requires AreLate(acts)
    ensures Delivered(acts) == []
  {
    NoDeliverNoRecord(acts);
  }

  lemma LateActsInOrder(acts: seq<Act>)
    requires AreLate(acts)
    ensures acts <= [Load, IteratorError, Finish]
  {
    assert acts == [Load, IteratorError, Finish][..|acts|];
  }

  lemma LateActsSnoc(acts: seq<Act>, a: Act)
    requires AreLate(acts) && |acts| < 3
    requires a == match |acts| case 0 => Load case 1 => IteratorError case _ => Finish
    ensures AreLate(acts + [a])
  {
  }

  lemma LateWork(c: Config, h: seq<Label>, l: Label, c': Config)
    requires PipelineOk(c, h) && l.Work? && WorkNext(c, l.k, l.shard, l.act, c') && c.ctxDone
    requires WorkerOk(c, h, l.k) && OnlyLate(c, h, l.shard)
    ensures OnlyLate(c', h + [l], l.shard)
  {
    var s := l.shard;
    ShardHistorySnoc(h, l, s);
    var pc', cell' := WorkEffect(c, l.k, s, l.act, c');
    LateStep(c.shards[s], c.workers[l.k].pc, Cell(c.checkpoints, s), l.act, pc', cell', |Acts(h, s)|);
    LateActsSnoc(Acts(h, s), l.act);
    forall k | 0 <= k < |c'.workers| && c'.workers[k].shard == s ensures k == l.k {
      WorkerOfShardIsUnique(c, h, k, l.k);
    }
  }

  lemma LateElsewhere(c: Config, h: seq<Label>, l: Label, c': Config, s: ShardId)
    requires l.Work? && WorkNext(c, l.k, l.shard, l.act, c') && l.shard != s && OnlyLate(c, h, s)
    ensures OnlyLate(c', h + [l], s)
  {
    ShardHistorySnoc(h, l, s);
    var pc', cell' := WorkEffect(c, l.k, l.shard, l.act, c');
  }

  lemma LateOutside(c: Config, h: seq<Label>, l: Label, c': Config, s: ShardId)
    requires OutsideStep(c, l, c') && OnlyLate(c, h, s) && (l.Spawn? && l.shard == s ==> Acts(h, s) == [])
    ensures OnlyLate(c', h + [l], s)
  {
    ShardHistorySnoc(h, l, s);
    assert Acts(h + [l], s) == Acts(h, s);
    var n := |Acts(h, s)|;
    forall k | 0 <= k < |c'.workers| && c'.workers[k].shard == s ensures IsLate(c'.workers[k].pc, n) {
      if k < |c.workers| {
        assert c'.workers[k] == c.workers[k];
      } else {
        assert l.Spawn? && c'.workers[k] == Worker(l.shard, Loading);
      }
    }
  }

  lemma LateStepOfRun(c: Config, h: seq<Label>, l: Label, c': Config, s: ShardId)
    requires Inv(c, h) && Next(c, l, c') && c.ctxDone && OnlyLate(c, h, s)
    ensures OnlyLate(c', h + [l], s)
  {
    if !l.Work? {
      OutsideSteps(c, l, c');
      if l.Spawn? && l.shard == s {
        SpawnIsFirst(c, h, s, c');
      }
      LateOutside(c, h, l, c', s);
    } else if l.shard == s {
      assert WorkerOk(c, h, l.k);
      LateWork(c, h, l, c');
    } else {
      LateElsewhere(c, h, l, c', s);
    }
  }

  ghost predicate LateAt(states: seq<Config>, labels: seq<Label>, i: nat, s: ShardId)
    requires |states| == |labels| + 1 && i < |states|
  {
    OnlyLate(states[i], labels[..i], s)
  }

  lemma LateStaysAt(states: seq<Config>, labels: seq<Label>, i: nat, s: ShardId)
    requires IsRun(states, labels) && i < |labels| && states[i].ctxDone && LateAt(states, labels, i, s)
    ensures LateAt(states, labels, i + 1, s)
  {
    InvAlways(states, labels, i);
    StepOfRun(states, labels, i);
    LateStepOfRun(states[i], labels[..i], labels[i], states[i + 1], s);
  }

  lemma LateStaysOn(states: seq<Config>, labels: seq<Label>, i: nat, j: nat, s: ShardId)
    requires IsRun(states, labels) && i <= j < |labels| && states[i].ctxDone && LateAt(states, labels, j, s)
    ensures LateAt(states, labels, j + 1, s)
  {
    CancelledLasts(states, labels, i, j);
    LateStaysAt(states, labels, j, s);
  }

  lemma {:induction false} LateStays(states: seq<Config>, labels: seq<Label>, i: nat, j: nat, s: ShardId)
    requires IsRun(states, labels) && i <= j < |states| && states[i].ctxDone && LateAt(states, labels, i, s)
    ensures LateAt(states, labels, j, s)
    decreases j
  {
    if i < j {
      var m := j - 1;
      LateStays(states, labels, i, m, s);
      LateStaysOn(states, labels, i, m, s);
    }
  }

  /** A shard that has no worker at the cancellation gets at most one that loads its
      checkpoint, fails its first AWS call and finishes, in that order and no further; no
      record of the shard is handed over. */
  lemma LateShardsFail(states: seq<Config>, labels: seq<Label>, i: nat, j: nat, s: ShardId)
    requires IsRun(states, labels) && i <= j < |states| && states[i].ctxDone && s !in WorkerShards(states[i])
    ensures Acts(labels[..j], s) <= [Load, IteratorError, Finish]
    ensures forall k :: 0 <= k < |states[j].workers| && states[j].workers[k].shard == s ==>
              IsLate(states[j].workers[k].pc, |Acts(labels[..j], s)|)
    ensures Deliveries(labels[..j], s) == []
  {
    InvAlways(states, labels, i);
    var c, h := states[i], labels[..i];
    assert UnstartedOk(c, h, s);
    forall k | 0 <= k < |c.workers| ensures c.workers[k].shard != s {
      assert WorkerShards(c)[k] == c.workers[k].shard;
    }
    LateStays(states, labels, i, j, s);
    LateActsDeliverNothing(Acts(labels[..j], s));
    LateActsInOrder(Acts(labels[..j], s));
  }

  /** After the cancellation at most one page's worth of records is handed over per shard. */
  lemma AtMostOnePageAfterCancellation(states: seq<Config>, labels: seq<Label>, i: nat, j: nat, s: ShardId)
    requires IsRun(states, labels) && i <= j < |states| && states[i].ctxDone
    ensures |Deliveries(labels[..j], s)| <= |Deliveries(labels[..i], s)| + 10
  {
    if s in WorkerShards(states[i]) {
      InvAlways(states, labels, i);
      var k :| 0 <= k < |states[i].workers| && WorkerShards(states[i])[k] == s;
      assert WorkerOk(states[i], labels[..i], k);
      RemainingBoundsDeliveries(states, labels, i, j, k);
    } else {
      LateShardsFail(states, labels, i, j, s);
    }
  }
}
