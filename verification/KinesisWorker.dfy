/** The goroutine of one shard, as the loop it is, proved to take only the steps the
    transition system allows a worker. */
module KinesisWorker {
  import opened Basics
  import opened KinesisModel
  import opened KinesisSafety
  import opened KinesisControl
  import opened KinesisEffects

  /** A shard iterator is a pointer; what it points at is a position in the shard. */
  class Iterator {
    const pos: nat

    constructor (pos: nat)
      ensures this.pos == pos
    {
      this.pos := pos;
    }
  }

  /** No next cursor, or the very same pointer, means the shard is closed. */
  predicate IsShardClosed(next: Iterator?, current: Iterator) {
    next == null || next == current
  }

  /** What the service and the ticker choose at one moment. */
  datatype Choice = Choice(fails: bool, noIterator: bool, pageSize: nat, reportEnd: bool, tickFirst: bool)

  function Find(records: seq<Record>, seqNo: string): (pos: Option<nat>)
    ensures pos.Some? ==> 0 < pos.value <= |records| && records[pos.value - 1].seqNo == seqNo
    ensures pos.None? ==> forall i :: 0 <= i < |records| ==> records[i].seqNo != seqNo
  {
    if records == [] then None
    else if records[|records| - 1].seqNo == seqNo then Some(|records|)
    else Find(records[..|records| - 1], seqNo)
  }

  /** The log of a shard over time: always well formed, growing until it is closed. */
  ghost predicate GrowingLog(log: nat -> Shard) {
    && (forall t: nat :: ValidShard(log(t)))
    && (forall t: nat, u: nat :: t <= u ==> Extends(log(t), log(u)))
  }

  /** The shard as it stands at each moment, the moment of the cancellation, and the choices.
      Every call takes time, the calls for a record included; a read made after the
      cancellation fails. */
  class Stream {
    const log: nat -> Shard
    const cancelAt: nat
    const choices: nat -> Choice
    const outcomes: nat -> Outcome
    var now: nat

    predicate Done()
      reads this`now
    {
      now >= cancelAt
    }

    /** What a GetShardIterator made at moment t comes back with: an error, no iterator, or
        one at a position. */
    function IteratorReply(t: nat, checkpoint: string): Option<Option<nat>> {
      if t >= cancelAt || choices(t + 1).fails then None
      else if choices(t + 1).noIterator then Some(None)
      else if checkpoint == "" then Some(Some(0))
      else
        var pos := Find(log(t + 1).records, checkpoint);
        if pos.None? then None else Some(pos)
    }

    /** What a GetRecords made at moment t comes back with: an error, or a page and whether it
        is the end of a closed shard. */
    function RecordsReply(t: nat, pos: nat, limit: nat): Option<(seq<Record>, bool)> {
      var c, sh := choices(t + 1), log(t + 1);
      if t >= cancelAt || c.fails || pos > |sh.records| then None
      else
        var room := |sh.records| - pos;
        var asked := if c.pageSize <= limit then c.pageSize else limit;
        var count := if room < asked then room else asked;
        Some((sh.records[pos..pos + count], c.reportEnd && sh.closed && count == room))
    }

    /** From t0 on the shard is closed and stays as it is, no call fails, every page brings
        something while there is something, the end is reported, and the cancellation leaves
        time enough for all records. */
    ghost predicate Cooperates(t0: nat) {
      && log(t0).closed && (forall t: nat :: t0 <= t ==> log(t) == log(t0))
      && (forall t: nat :: var c := choices(t); !c.fails && !c.noIterator && c.pageSize >= 1 && c.reportEnd)
      && t0 + 3 * |log(t0).records| + 2 <= cancelAt
    }

    /** With such a service a round reads on from where the worker stands: at the end it is
        told so, and before that it gets at least one record. */
    lemma Serves(t0: nat, t: nat, n: nat)
      requires Cooperates(t0) && t0 <= t && t + 1 < cancelAt && ValidShard(log(t0)) && n <= |log(t0).records|
      ensures IteratorReply(t, CheckpointAt(log(t0).records, n)) == Some(Some(n))
      ensures RecordsReply(t + 1, n, LIMIT).Some?
      ensures var records := log(t0).records;
              var (page, end) := RecordsReply(t + 1, n, LIMIT).value;
              (end <==> n + |page| == |records|) && n + |page| <= |records| && (n < |records| ==> |page| > 0)
    {
      assert log(t + 1) == log(t0) == log(t + 2);
      if n > 0 {
        FindsItsPlace(log(t0).records, n);
      }
    }

    method GetShardIterator(checkpoint: string) returns (ok: bool, it: Iterator?)
      modifies this`now
      ensures now == old(now) + 1
      ensures ok ==> !old(Done())
      ensures ok && it != null ==> fresh(it) && IteratorAt(log(now), checkpoint, it.pos)
      ensures IteratorReply(old(now), checkpoint)
              == if !ok then None else if it == null then Some(None) else Some(Some(it.pos))
    {
      var reply := IteratorReply(now, checkpoint);
      now := now + 1;
      if reply.None? {
        return false, null;
      }
      if reply.value.None? {
        return true, null;
      }
      it := new Iterator(reply.value.value);
      return true, it;
    }

    method GetRecords(it: Iterator, limit: nat) returns (ok: bool, page: seq<Record>, next: Iterator?)
      modifies this`now
      ensures now == old(now) + 1
      ensures ok ==> !old(Done())
      ensures ok ==> && |page| <= limit && it.pos + |page| <= |log(now).records|
                     && page == log(now).records[it.pos..it.pos + |page|]
                     && (next == null ==> log(now).closed && it.pos + |page| == |log(now).records|)
                     && (next != null ==> fresh(next))
      ensures !ok ==> next == null
      ensures RecordsReply(old(now), it.pos, limit) == if ok then Some((page, next == null)) else None
    {
      var reply := RecordsReply(now, it.pos, limit);
      now := now + 1;
      if reply.None? {
        return false, [], null;
      }
      page := reply.value.0;
      if reply.value.1 {
        next := null;
      } else {
        next := new Iterator(it.pos + |page|);
      }
      return true, page, next;
    }
  }

  /** One step taken at a moment. */
  datatype Taken = Taken(time: nat, pc: Pc, cell: Option<string>, act: Act, pc': Pc, cell': Option<string>)

  /** The steps taken so far, the last one outermost. */
  datatype Trail = Start | Then(before: Trail, step: Taken)

  /** Where the trail has got to; a worker starts at the top of its loop with "". */
  function Here(trail: Trail): Pc {
    if trail.Start? then Loading else trail.step.pc'
  }

  function CellHere(trail: Trail): Option<string> {
    if trail.Start? then Some("") else trail.step.cell'
  }

  function TimeHere(trail: Trail): nat {
    if trail.Start? then 0 else trail.step.time
  }

  /** The trail is a run of the transition system's worker. */
  ghost predicate IsTrail(trail: Trail, log: nat -> Shard, cancelAt: nat) {
    match trail
    case Start => true
    case Then(before, t) =>
      && IsTrail(before, log, cancelAt)
      && t.pc == Here(before) && t.cell == CellHere(before) && t.time >= TimeHere(before)
      && WorkerStep(log(t.time), t.time >= cancelAt, t.pc, t.cell, t.act, t.pc', t.cell')
  }

  function DeliveredIn(trail: Trail): seq<Record> {
    match trail
    case Start => []
    case Then(before, t) => DeliveredIn(before) + DeliveredBy(t.act)
  }

  function OutcomesIn(trail: Trail): seq<Outcome> {
    match trail
    case Start => []
    case Then(before, t) => OutcomesIn(before) + OutcomesBy(t.act)
  }

  function ActsIn(trail: Trail): seq<Act> {
    match trail
    case Start => []
    case Then(before, t) => ActsIn(before) + [t.act]
  }

  function EffectsIn(topics: Topics, trail: Trail): seq<Effect> {
    match trail
    case Start => []
    case Then(before, t) => EffectsIn(topics, before) + ActEffects(topics, t.act)
  }

  /** Every trail leaves its worker right for the records it has handed over. */
  lemma {:induction false} TrailKeepsLocal(trail: Trail, log: nat -> Shard, cancelAt: nat)
    requires IsTrail(trail, log, cancelAt) && GrowingLog(log)
    ensures LocalOk(log(TimeHere(trail)), Here(trail), CellHere(trail), DeliveredIn(trail))
  {
    match trail
    case Start =>
    case Then(before, t) =>
      TrailKeepsLocal(before, log, cancelAt);
      var done := DeliveredIn(before);
      LocalSurvivesGrowth(log(TimeHere(before)), log(t.time), Here(before), CellHere(before), done);
      WorkerStepKeepsLocal(log(t.time), t.time >= cancelAt, t.pc, t.cell, done, t.act, t.pc', t.cell');
  }

  /** Every trail comes in the order of the goroutine's code. */
  lemma {:induction false} TrailComesInOrder(trail: Trail, log: nat -> Shard, cancelAt: nat)
    requires IsTrail(trail, log, cancelAt) && GrowingLog(log)
    ensures InOrder(ActsIn(trail)) && LeadTo(ActsIn(trail), Here(trail))
  {
    match trail
    case Start =>
    case Then(before, t) =>
      TrailComesInOrder(before, log, cancelAt);
      if t.pc.Loading? || t.pc.Closing? {
        TrailKeepsLocal(before, log, cancelAt);
        FindsItsCheckpoint(log(TimeHere(before)), t.pc, t.cell, DeliveredIn(before));
      }
      StepInOrder(log(t.time), t.time >= cancelAt, t.pc, t.cell, t.act, t.pc', t.cell', ActsIn(before));
  }

  /** The trail has read a page that ends a closed shard. */
  ghost predicate SawTheEnd(acts: seq<Act>) {
    exists g :: 0 <= g < |acts| && acts[g].GotPage? && acts[g].last
  }

  lemma {:induction false} ADeletionFollowsTheEnd(acts: seq<Act>)
    requires InOrder(acts) && CurrentPage(acts).last
    ensures SawTheEnd(acts)
  {
    if acts != [] {
      var n := |acts| - 1;
      if !acts[n].GotPage? {
        ADeletionFollowsTheEnd(acts[..n]);
        var g :| 0 <= g < |acts[..n]| && acts[..n][g].GotPage? && acts[..n][g].last;
        assert acts[g].GotPage? && acts[g].last;
      } else {
        assert acts[n].last;
      }
    }
  }

  lemma {:induction false} DeletesOnlyAtTheEnd(acts: seq<Act>)
    requires InOrder(acts) && LeadTo(acts, Exited(ShardClosed))
    ensures CurrentPage(acts).last
  {
    var n := |acts|;
    assert acts[n - 2].Delete? && acts[n - 1].Finish?;
    assert acts[..n - 1][..n - 2] == acts[..n - 2];
    assert MayCome(acts[..n - 2], Delete);
  }

  /** A worker that has finished left because its shard was closed exactly if it read the page
      that ends the shard. */
  lemma LeavesClosedExactlyAtTheEnd(acts: seq<Act>, why: Exit)
    requires InOrder(acts) && LeadTo(acts, Exited(why))
    ensures why == ShardClosed <==> SawTheEnd(acts)
  {
    if why == ShardClosed {
      DeletesOnlyAtTheEnd(acts);
      ADeletionFollowsTheEnd(acts);
    } else if g :| 0 <= g < |acts| && acts[g].GotPage? && acts[g].last {
      TheEndIsTheDeletion(acts, g, why);
    }
  }

  /** The calls made along a trail are those of one pass over what it handed over. */
  lemma {:induction false} TrailIsOnePass(topics: Topics, trail: Trail)
    ensures |DeliveredIn(trail)| == |OutcomesIn(trail)|
    ensures EffectsIn(topics, trail) == OnePass(topics, DeliveredIn(trail), OutcomesIn(trail))
  {
    match trail
    case Start =>
    case Then(before, t) =>
      TrailIsOnePass(topics, before);
      var d, o := DeliveredIn(before), OutcomesIn(before);
      if t.act.Deliver? {
        assert (d + [t.act.record])[..|d|] == d && (o + [t.act.outcome])[..|d|] == o;
      } else {
        assert DeliveredIn(trail) == d && OutcomesIn(trail) == o;
      }
  }

  lemma FindsItsPlace(records: seq<Record>, n: nat)
    requires 0 < n <= |records|
    requires forall i, j :: 0 <= i < j < |records| ==> records[i].seqNo != records[j].seqNo
    ensures Find(records, records[n - 1].seqNo) == Some(n)
  {
  }

  lemma OneMore(before: seq<Record>, page: seq<Record>, i: nat)
    requires i < |page|
    ensures before + page[..i + 1] == before + page[..i] + [page[i]]
  {
  }

  class ShardWorker {
    const shard: ShardId
    const stream: Stream
    const topics: Topics
    var checkpoints: map<ShardId, string>
    var effects: seq<Effect>
    ghost var trail: Trail

    constructor (shard: ShardId, stream: Stream, topics: Topics, checkpoints: map<ShardId, string>)
      requires shard in checkpoints && checkpoints[shard] == ""
      ensures this.shard == shard && this.stream == stream && this.topics == topics
      ensures this.checkpoints == checkpoints && effects == [] && trail == Start
      ensures Valid() && At(Loading)
    {
      this.shard, this.stream, this.topics, this.checkpoints := shard, stream, topics, checkpoints;
      effects, trail := [], Start;
    }

    ghost predicate Valid()
      reads this, stream`now
    {
      && IsTrail(trail, stream.log, stream.cancelAt)
      && TimeHere(trail) <= stream.now
      && CellHere(trail) == Cell(checkpoints, shard)
      && effects == EffectsIn(topics, trail)
    }

    ghost predicate At(pc: Pc)
      reads this`trail
    {
      Here(trail) == pc
    }

    /** The records this worker has handed over. */
    ghost function Done(): seq<Record>
      reads this`trail
    {
      DeliveredIn(trail)
    }

    ghost predicate OthersUntouched(before: map<ShardId, string>)
      reads this`checkpoints
    {
      forall s :: s != shard ==> Cell(checkpoints, s) == Cell(before, s)
    }

    /** Records the step just taken, which found the given value in the checkpoint cell. */
    ghost method Take(a: Act, pc': Pc, cell: Option<string>)
      requires IsTrail(trail, stream.log, stream.cancelAt) && TimeHere(trail) <= stream.now
      requires CellHere(trail) == cell
      requires effects == EffectsIn(topics, trail) + ActEffects(topics, a)
      requires WorkerStep(stream.log(stream.now), stream.Done(), Here(trail), cell, a, pc', Cell(checkpoints, shard))
      modifies this`trail
      ensures Valid() && At(pc') && Done() == old(Done()) + DeliveredBy(a)
    {
      trail := Then(trail, Taken(stream.now, Here(trail), cell, a, pc', Cell(checkpoints, shard)));
    }

    /** A step that hands over no record and leaves the checkpoint alone. */
    ghost method Move(a: Act, pc': Pc)
      requires Valid() && !a.Deliver? && !a.Store? && !a.Delete?
      requires WorkerStep(stream.log(stream.now), stream.Done(), Here(trail), CellHere(trail), a, pc', CellHere(trail))
      modifies this`trail
      ensures Valid() && At(pc') && Done() == old(Done())
    {
      Take(a, pc', CellHere(trail));
    }

    /** consumeMessage for one record; how it turns out is the environment's choice, and the
        cancellation may come meanwhile. */
    method ConsumeMessage(r: Record) returns (ghost o: Outcome)
      modifies this`effects, stream`now
      ensures stream.now == old(stream.now) + 1
      ensures o == stream.outcomes(|old(effects)|)
      ensures effects == old(effects) + RecordEffects(topics, r, o)
      ensures o.call.Answered? ==>
                effects == old(effects) + [Invoke(r.data)]
                           + if topics.response == "" then []
                             else [Publish(topics.response, o.call.body, r.key, r.seqNo, o.published)]
      ensures !o.call.Answered? ==>
                effects == old(effects) + [Invoke(r.data)]
                           + if topics.error == "" then []
                             else [Publish(topics.error, o.call.err, r.key, r.seqNo, o.published)]
    {
      var outcome := stream.outcomes(|effects|);
      o := outcome;
      effects := effects + [Invoke(r.data)];
      match outcome.call {
        case Failed(e) => ErrorHandler(r, e, outcome.published);
        case Unreadable(e) => ErrorHandler(r, e, outcome.published);
        case Answered(body) => ResponseHandler(r, body, outcome.published);
      }
      stream.now := stream.now + 1;
    }

    method ErrorHandler(r: Record, text: string, accepted: bool)
      modifies this`effects
      ensures effects == old(effects) + if topics.error == "" then []
                                        else [Publish(topics.error, text, r.key, r.seqNo, accepted)]
    {
      if |topics.error| > 0 {
        effects := effects + [Publish(topics.error, text, r.key, r.seqNo, accepted)];
      }
    }

    method ResponseHandler(r: Record, body: string, accepted: bool)
      modifies this`effects
      ensures effects == old(effects) + if topics.response == "" then []
                                        else [Publish(topics.response, body, r.key, r.seqNo, accepted)]
    {
      if |topics.response| > 0 {
        effects := effects + [Publish(topics.response, body, r.key, r.seqNo, accepted)];
      }
    }

    /** checkpoints.Store */
    method StoreCheckpoint(ghost page: seq<Record>, ghost i: nat, ghost last: bool, seqNo: string)
      requires i < |page| && seqNo == page[i].seqNo && Valid() && At(Storing(page, i, last))
      modifies this`checkpoints, this`trail
      ensures Valid() && At(Delivering(page, i + 1, last)) && Done() == old(Done())
      ensures OthersUntouched(old(checkpoints)) && shard in checkpoints
    {
      ghost var cell := Cell(checkpoints, shard);
      checkpoints := checkpoints[shard := seqNo];
      Take(Store, Delivering(page, i + 1, last), cell);
    }

    /** One record of a page: consumed, then its checkpoint stored, whatever came of it. */
    method ConsumeAndStore(page: seq<Record>, i: nat, ghost last: bool)
      requires i < |page| && Valid() && At(Delivering(page, i, last))
      modifies this`checkpoints, this`effects, this`trail, stream`now
      ensures stream.now == old(stream.now) + 1
      ensures Valid() && At(Delivering(page, i + 1, last))
      ensures Done() == old(Done()) + [page[i]]
      ensures OthersUntouched(old(checkpoints)) && shard in checkpoints
    {
      var r := page[i];
      ghost var o := ConsumeMessage(r);
      Take(Deliver(r, o), Storing(page, i, last), Cell(checkpoints, shard));
      StoreCheckpoint(page, i, last, r.seqNo);
    }

    /** The range over one page. */
    method ConsumePage(page: seq<Record>, ghost last: bool)
      requires Valid() && At(Delivering(page, 0, last))
      modifies this`checkpoints, this`effects, this`trail, stream`now
      ensures stream.now == old(stream.now) + |page|
      ensures old(shard in checkpoints) ==> shard in checkpoints
      ensures Valid() && At(Delivering(page, |page|, last))
      ensures Done() == old(Done()) + page
      ensures OthersUntouched(old(checkpoints))
    {
      ghost var before := Done();
      var i := 0;
      assert before + page[..0] == before;
      while i < |page|
        invariant 0 <= i <= |page| && stream.now == old(stream.now) + i
        invariant old(shard in checkpoints) ==> shard in checkpoints
        invariant Valid() && At(Delivering(page, i, last))
        invariant Done() == before + page[..i]
        invariant OthersUntouched(old(checkpoints))
      {
        ConsumeAndStore(page, i, last);
        OneMore(before, page, i);
        i := i + 1;
      }
      assert page[..i] == page;
    }

    /** getIterator from the stored checkpoint; no iterator means nothing to read this round. */
    method OpenIterator(checkpoint: string) returns (ok: bool, cursor: Iterator?)
      requires Valid() && At(Loading) && CellHere(trail) == Some(checkpoint)
      modifies this`trail, stream`now
      ensures Valid() && Done() == old(Done()) && stream.now == old(stream.now) + 1
      ensures ok ==> old(stream.now) < stream.cancelAt
      ensures stream.IteratorReply(old(stream.now), checkpoint)
              == if !ok then None else if cursor == null then Some(None) else Some(Some(cursor.pos))
      ensures if !ok then At(Exiting(IteratorFailed))
              else if cursor == null then At(Selecting)
              else At(GettingRecords(cursor.pos, !stream.Done()))
    {
      Move(Load, GettingIterator(checkpoint, !stream.Done()));
      ok, cursor := stream.GetShardIterator(checkpoint);
      if !ok {
        Move(IteratorError, Exiting(IteratorFailed));
      } else if cursor == null {
        Move(NoIterator, Selecting);
      } else {
        Move(GotIterator(cursor.pos), GettingRecords(cursor.pos, !stream.Done()));
      }
    }

    /** getRecords from an iterator. */
    method FetchPage(cursor: Iterator) returns (ok: bool, page: seq<Record>, next: Iterator?)
      requires Valid() && At(GettingRecords(cursor.pos, !stream.Done()))
      modifies this`trail, stream`now
      ensures Valid() && Done() == old(Done()) && stream.now == old(stream.now) + 1
      ensures next != cursor
      ensures stream.RecordsReply(old(stream.now), cursor.pos, LIMIT) == if ok then Some((page, next == null)) else None
      ensures if ok then At(Delivering(page, 0, next == null)) else At(Exiting(ReadFailed))
    {
      ok, page, next := stream.GetRecords(cursor, LIMIT);
      if ok {
        Move(GotPage(|page|, next == null), Delivering(page, 0, next == null));
      } else {
        Move(PageError, Exiting(ReadFailed));
      }
    }

    /** checkpoints.Load, then checkpoints.Delete, for a closed shard. */
    method DropCheckpoint() returns (done: bool)
      requires Valid() && At(Closing)
      modifies this`checkpoints, this`trail
      ensures Valid() && Done() == old(Done()) && OthersUntouched(old(checkpoints))
      ensures if done then At(Exiting(ShardClosed)) else At(Selecting)
      ensures (done <==> old(shard in checkpoints)) && shard !in checkpoints
    {
      if shard in checkpoints {
        ghost var cell := Cell(checkpoints, shard);
        checkpoints := checkpoints - {shard};
        Take(Delete, Exiting(ShardClosed), cell);
        return true;
      }
      Move(NothingToDelete, Selecting);
      return false;
    }

    /** The test for closure after a page. */
    method FinishPage(ghost page: seq<Record>, cursor: Iterator, next: Iterator?) returns (done: bool)
      requires Valid() && At(Delivering(page, |page|, next == null)) && next != cursor
      modifies this`checkpoints, this`trail
      ensures Valid() && Done() == old(Done()) && OthersUntouched(old(checkpoints))
      ensures if done then At(Exiting(ShardClosed)) else At(Selecting)
      ensures done <==> old(shard in checkpoints) && (next == null || next == cursor)
      ensures done ==> shard !in checkpoints
    {
      if IsShardClosed(next, cursor) {
        Move(PageDone, Closing);
        done := DropCheckpoint();
        return done;
      }
      Move(PageDone, Selecting);
      return false;
    }

    /** What a round comes to once there is an iterator: the page that comes back is handed
        over, and the worker is done exactly if the read fails or the page ends the shard. */
    ghost predicate PageRead(t: nat, pos: nat, before: seq<Record>, done: bool, why: Exit)
      reads this`trail
    {
      match stream.RecordsReply(t, pos, LIMIT)
      case None => done && why == ReadFailed && Done() == before
      case Some((page, end)) => Done() == before + page && (done <==> end) && (done ==> why == ShardClosed)
    }

    /** A round once there is an iterator: one page and the test for closure. */
    method ReadPage(cursor: Iterator) returns (done: bool, why: Exit)
      requires Valid() && At(GettingRecords(cursor.pos, !stream.Done())) && shard in checkpoints
      modifies this`checkpoints, this`effects, this`trail, stream`now
      ensures Valid() && OthersUntouched(old(checkpoints)) && old(stream.now) < stream.now
      ensures if done then At(Exiting(why)) else At(Selecting)
      ensures PageRead(old(stream.now), cursor.pos, old(Done()), done, why)
      ensures stream.now + |old(Done())| == old(stream.now) + 1 + |Done()|
    {
      var ok, page, next := FetchPage(cursor);
      if !ok {
        return true, ReadFailed;
      }
      ConsumePage(page, next == null);
      done := FinishPage(page, cursor, next);
      return done, ShardClosed;
    }

    /** What a round comes to, by what the service answers. */
    ghost predicate RoundDone(t: nat, cell: Option<string>, before: seq<Record>, done: bool, why: Exit)
      reads this`trail
    {
      if cell.None? then done && why == ShardNotFound && Done() == before
      else
        match stream.IteratorReply(t, cell.value)
        case None => done && why == IteratorFailed && Done() == before
        case Some(None) => !done && Done() == before
        case Some(Some(pos)) => PageRead(t + 1, pos, before, done, why)
    }

    /** One round, from the lookup of the checkpoint to the select. */
    method Round() returns (done: bool, why: Exit)
      requires Valid() && At(Loading)
      modifies this`checkpoints, this`effects, this`trail, stream`now
      ensures Valid() && OthersUntouched(old(checkpoints))
      ensures done ==> At(Exiting(why))
      ensures !done ==> At(Selecting) && old(stream.now) < stream.now && old(stream.now) < stream.cancelAt
      ensures RoundDone(old(stream.now), Cell(old(checkpoints), shard), old(Done()), done, why)
      ensures stream.now + |old(Done())| <= old(stream.now) + 2 + |Done()|
    {
      if shard !in checkpoints {
        Move(Missing, Exiting(ShardNotFound));
        return true, ShardNotFound;
      }
      var ok, cursor := OpenIterator(checkpoints[shard]);
      if !ok {
        return true, IteratorFailed;
      }
      if cursor != null {
        done, why := ReadPage(cursor);
        return done, why;
      }
      return false, Cancelled;
    }

    /** With such a service there is time for what is still to be handed over. */
    ghost predicate InTime(t0: nat)
      reads this`trail, stream`now
    {
      && stream.Cooperates(t0) && t0 <= stream.now
      && stream.now + 3 * (|stream.log(t0).records| - |Done()|) + 2 <= stream.cancelAt
    }

    lemma StandsInTheLog()
      requires Valid() && At(Loading) && GrowingLog(stream.log)
      ensures var records := stream.log(stream.now).records;
              |Done()| <= |records| && Cell(checkpoints, shard) == Some(CheckpointAt(records, |Done()|))
      ensures ValidShard(stream.log(stream.now))
    {
      TrailKeepsLocal(trail, stream.log, stream.cancelAt);
      LocalSurvivesGrowth(stream.log(TimeHere(trail)), stream.log(stream.now), Here(trail), CellHere(trail), Done());
    }

    /** A round that is in time leaves by the closed-shard branch or stays in time. */
    method NextRound(ghost t0: nat) returns (done: bool, why: Exit)
      requires Valid() && At(Loading) && GrowingLog(stream.log)
      modifies this`checkpoints, this`effects, this`trail, stream`now
      ensures Valid() && OthersUntouched(old(checkpoints))
      ensures done ==> At(Exiting(why))
      ensures !done ==> At(Selecting) && old(stream.now) < stream.now && old(stream.now) < stream.cancelAt
      ensures old(InTime(t0)) ==> if done then why == ShardClosed else InTime(t0) && !stream.Done()
    {
      if InTime(t0) {
        StandsInTheLog();
        stream.Serves(t0, stream.now, |Done()|);
      }
      done, why := Round();
    }

    /** The goroutine: rounds until it returns, waiting for a tick or the cancellation. */
    method Run() returns (why: Exit)
      requires Valid() && At(Loading) && GrowingLog(stream.log)
      modifies this`checkpoints, this`effects, this`trail, stream`now
      ensures Valid() && At(Exited(why))
      ensures OthersUntouched(old(checkpoints))
      ensures old(InTime(stream.now)) ==> why == ShardClosed
    {
      ghost var t0 := stream.now;
      var done := false;
      while true
        invariant Valid() && At(Loading)
        invariant OthersUntouched(old(checkpoints))
        invariant old(InTime(stream.now)) ==> InTime(t0)
        decreases if stream.now < stream.cancelAt then stream.cancelAt - stream.now else 0
      {
        done, why := NextRound(t0);
        if done {
          break;
        }
        if stream.Done() && !stream.choices(stream.now).tickFirst {
          why := Cancelled;
          Move(SeeDone, Exiting(Cancelled));
          break;
        }
        Move(SeeTick, Loading);
      }
      // the deferred wg.Done
      Move(Finish, Exited(why));
    }

    /** What a whole run of the goroutine comes to. */
    method Scan() returns (why: Exit)
      requires Valid() && At(Loading) && GrowingLog(stream.log)
      modifies this`checkpoints, this`effects, this`trail, stream`now
      ensures Valid() && At(Exited(why)) && why != ShardNotFound
      // What was handed over is a prefix of the log, and the calls are those of one pass over it.
      ensures Done() <= stream.log(stream.now).records
      ensures |OutcomesIn(trail)| == |Done()|
      ensures effects == OnePass(topics, Done(), OutcomesIn(trail))
      ensures if why == ShardClosed
              then stream.log(stream.now).closed && Done() == stream.log(stream.now).records && shard !in checkpoints
              else Cell(checkpoints, shard) == Some(CheckpointAt(stream.log(stream.now).records, |Done()|))
      ensures OthersUntouched(old(checkpoints))
      // It returns as from a closed shard exactly if it read the page that ends one, and it
      // does if the service cooperates.
      ensures why == ShardClosed <==> SawTheEnd(ActsIn(trail))
      ensures stream.Cooperates(old(stream.now)) ==> why == ShardClosed
    {
      assert stream.Cooperates(stream.now) ==> InTime(stream.now);
      why := Run();
      TrailComesInOrder(trail, stream.log, stream.cancelAt);
      LeavesClosedExactlyAtTheEnd(ActsIn(trail), why);
      TrailKeepsLocal(trail, stream.log, stream.cancelAt);
      LocalSurvivesGrowth(stream.log(TimeHere(trail)), stream.log(stream.now), Here(trail), CellHere(trail), Done());
      TrailIsOnePass(topics, trail);
    }
  }
}
