/** What consumeMessage does for each record, and what that adds up to over a run. */
module KinesisEffects {
  import opened Basics
  import opened KinesisModel
  import opened KinesisSafety
  import opened KinesisGuarantees

  datatype Topics = Topics(response: string, error: string)

  /** The calls consumeMessage makes: one through HandleHTTPRequest, and PutRecord. */
  datatype Effect =
    | Invoke(data: string)
    | Publish(stream: string, data: string, key: string, orderAfter: string, accepted: bool)

  /** The stream and the text consumeMessage wants to publish for an outcome. */
  function Target(topics: Topics, call: Invocation): (string, string) {
    match call
    case Failed(e) => (topics.error, e)
    case Unreadable(e) => (topics.error, e)
    case Answered(body) => (topics.response, body)
  }

  function RecordEffects(topics: Topics, r: Record, o: Outcome): seq<Effect> {
    var (stream, data) := Target(topics, o.call);
    [Invoke(r.data)] + if stream == "" then [] else [Publish(stream, data, r.key, r.seqNo, o.published)]
  }

  /** The simple reader: one pass over the records, one outcome each. */
  function OnePass(topics: Topics, records: seq<Record>, outcomes: seq<Outcome>): seq<Effect>
    requires |records| == |outcomes|
  {
    if records == [] then []
    else
      var n := |records| - 1;
      OnePass(topics, records[..n], outcomes[..n]) + RecordEffects(topics, records[n], outcomes[n])
  }

  function ActEffects(topics: Topics, a: Act): seq<Effect> {
    if a.Deliver? then RecordEffects(topics, a.record, a.outcome) else []
  }

  /** The calls made by a worker that took these acts. */
  function Effects(topics: Topics, acts: seq<Act>): seq<Effect> {
    if acts == [] then []
    else Effects(topics, acts[..|acts| - 1]) + ActEffects(topics, acts[|acts| - 1])
  }

  lemma {:induction false} EffectsFollowDeliveries(topics: Topics, acts: seq<Act>)
    ensures |Delivered(acts)| == |Outcomes(acts)|
    ensures Effects(topics, acts) == OnePass(topics, Delivered(acts), Outcomes(acts))
  {
    if acts != [] {
      var n := |acts| - 1;
      var a := acts[n];
      EffectsFollowDeliveries(topics, acts[..n]);
      var d, o := Delivered(acts[..n]), Outcomes(acts[..n]);
      if a.Deliver? {
        assert (d + [a.record])[..|d|] == d && (o + [a.outcome])[..|d|] == o;
      } else {
        assert Delivered(acts) == d && Outcomes(acts) == o;
      }
    }
  }

  /** Paged, checkpoint-driven reading refines the one-pass loop: whatever the page sizes,
      empty pages and schedules were, the calls made for a shard are those of one pass over
      a prefix of its log. */
  lemma PagedReadingIsOnePass(states: seq<Config>, labels: seq<Label>, i: nat, s: ShardId, topics: Topics)
    requires IsRun(states, labels) && i < |states| && s in states[i].shards
    ensures var acts := Acts(labels[..i], s);
            var n := |Deliveries(labels[..i], s)|;
            && n <= |states[i].shards[s].records| && |Outcomes(acts)| == n
            && Effects(topics, acts) == OnePass(topics, states[i].shards[s].records[..n], Outcomes(acts))
  {
    EffectsFollowDeliveries(topics, Acts(labels[..i], s));
    DeliveriesAreAPrefix(states, labels, i, s);
    assert Deliveries(labels[..i], s) == states[i].shards[s].records[..|Deliveries(labels[..i], s)|];
  }

  lemma ShardsStayValid(states: seq<Config>, labels: seq<Label>, i: nat, s: ShardId)
    requires IsRun(states, labels) && i < |states| && s in states[i].shards
    ensures ValidShard(states[i].shards[s])
  {
    InvAlways(states, labels, i);
  }

  // What is published for a record, read off the calls by themselves

  /** The publishes that carry this sequence number, in order. */
  function PublishesOf(effects: seq<Effect>, seqNo: string): seq<Effect> {
    if effects == [] then []
    else
      var e := effects[|effects| - 1];
      PublishesOf(effects[..|effects| - 1], seqNo) + if e.Publish? && e.orderAfter == seqNo then [e] else []
  }

  /** The data the function was called with, in order. */
  function Invoked(effects: seq<Effect>): seq<string> {
    if effects == [] then []
    else
      var e := effects[|effects| - 1];
      Invoked(effects[..|effects| - 1]) + if e.Invoke? then [e.data] else []
  }

  function DataOf(records: seq<Record>): seq<string> {
    seq(|records|, i requires 0 <= i < |records| => records[i].data)
  }

  lemma {:induction false} PublishesOfConcat(a: seq<Effect>, b: seq<Effect>, seqNo: string)
    ensures PublishesOf(a + b, seqNo) == PublishesOf(a, seqNo) + PublishesOf(b, seqNo)
  {
    if b == [] {
      assert a + b == a;
    } else {
      var n := |b| - 1;
      assert (a + b)[..|a + b| - 1] == a + b[..n];
      PublishesOfConcat(a, b[..n], seqNo);
    }
  }

  lemma {:induction false} InvokedConcat(a: seq<Effect>, b: seq<Effect>)
    ensures Invoked(a + b) == Invoked(a) + Invoked(b)
  {
    if b == [] {
      assert a + b == a;
    } else {
      var n := |b| - 1;
      assert (a + b)[..|a + b| - 1] == a + b[..n];
      InvokedConcat(a, b[..n]);
    }
  }

  /** The one publish an outcome leads to: the answer's body to the response stream, or the
      error's text to the error stream, with the record's key and sequence number; none if
      that stream is not set. */
  ghost predicate ArePublishesFor(topics: Topics, r: Record, o: Outcome, es: seq<Effect>) {
    match o.call
    case Answered(body) =>
      if topics.response == "" then es == []
      else es == [Publish(topics.response, body, r.key, r.seqNo, o.published)]
    case Failed(e) =>
      if topics.error == "" then es == [] else es == [Publish(topics.error, e, r.key, r.seqNo, o.published)]
    case Unreadable(e) =>
      if topics.error == "" then es == [] else es == [Publish(topics.error, e, r.key, r.seqNo, o.published)]
  }

  lemma OneRecordsCalls(topics: Topics, r: Record, o: Outcome, seqNo: string)
    ensures Invoked(RecordEffects(topics, r, o)) == [r.data]
    ensures if r.seqNo == seqNo then ArePublishesFor(topics, r, o, PublishesOf(RecordEffects(topics, r, o), seqNo))
            else PublishesOf(RecordEffects(topics, r, o), seqNo) == []
  {
    var es := RecordEffects(topics, r, o);
    InvokedConcat([Invoke(r.data)], es[1..]);
    PublishesOfConcat([Invoke(r.data)], es[1..], seqNo);
    assert es == [Invoke(r.data)] + es[1..];
    assert [Invoke(r.data)][..0] == [];
    if es[1..] != [] {
      assert es[1..][..0] == [];
    }
  }

  lemma {:induction false} OnePassInvokes(topics: Topics, records: seq<Record>, outcomes: seq<Outcome>)
    requires |records| == |outcomes|
    ensures Invoked(OnePass(topics, records, outcomes)) == DataOf(records)
  {
    if records != [] {
      var n := |records| - 1;
      OnePassInvokes(topics, records[..n], outcomes[..n]);
      InvokedConcat(OnePass(topics, records[..n], outcomes[..n]), RecordEffects(topics, records[n], outcomes[n]));
      OneRecordsCalls(topics, records[n], outcomes[n], records[n].seqNo);
      assert DataOf(records) == DataOf(records[..n]) + [records[n].data];
    }
  }

  lemma {:induction false} OnePassPublishesNothingElse(topics: Topics, records: seq<Record>, outcomes: seq<Outcome>,
                                                       seqNo: string)
    requires |records| == |outcomes| && forall i :: 0 <= i < |records| ==> records[i].seqNo != seqNo
    ensures PublishesOf(OnePass(topics, records, outcomes), seqNo) == []
  {
    if records != [] {
      var n := |records| - 1;
      OnePassPublishesNothingElse(topics, records[..n], outcomes[..n], seqNo);
      PublishesOfConcat(OnePass(topics, records[..n], outcomes[..n]),
                        RecordEffects(topics, records[n], outcomes[n]), seqNo);
      OneRecordsCalls(topics, records[n], outcomes[n], seqNo);
    }
  }

  lemma {:induction false} OnePassPublishes(topics: Topics, records: seq<Record>, outcomes: seq<Outcome>, i: nat)
    requires |records| == |outcomes| && i < |records|
    requires forall j, k :: 0 <= j < k < |records| ==> records[j].seqNo != records[k].seqNo
    ensures ArePublishesFor(topics, records[i], outcomes[i],
                            PublishesOf(OnePass(topics, records, outcomes), records[i].seqNo))
  {
    var n := |records| - 1;
    var before, part := OnePass(topics, records[..n], outcomes[..n]), RecordEffects(topics, records[n], outcomes[n]);
    PublishesOfConcat(before, part, records[i].seqNo);
    OneRecordsCalls(topics, records[n], outcomes[n], records[i].seqNo);
    if i == n {
      OnePassPublishesNothingElse(topics, records[..n], outcomes[..n], records[n].seqNo);
      assert [] + PublishesOf(part, records[n].seqNo) == PublishesOf(part, records[n].seqNo);
    } else {
      OnePassPublishes(topics, records[..n], outcomes[..n], i);
      assert PublishesOf(before, records[i].seqNo) + [] == PublishesOf(before, records[i].seqNo);
    }
  }

  /** Every publish comes right after the call for its record. */
  ghost predicate PublishesFollowCalls(records: seq<Record>, effects: seq<Effect>) {
    forall p :: 0 <= p < |effects| && effects[p].Publish? ==> FollowsItsCall(records, effects, p)
  }

  ghost predicate FollowsItsCall(records: seq<Record>, effects: seq<Effect>, p: nat)
    requires p < |effects| && effects[p].Publish?
  {
    p > 0 && exists r :: r in records && effects[p - 1] == Invoke(r.data) && effects[p].orderAfter == r.seqNo
                         && effects[p].key == r.key
  }

  lemma {:induction false} OnePassPublishesFollowCalls(topics: Topics, records: seq<Record>, outcomes: seq<Outcome>)
    requires |records| == |outcomes|
    ensures PublishesFollowCalls(records, OnePass(topics, records, outcomes))
  {
    if records != [] {
      var n := |records| - 1;
      var before := OnePass(topics, records[..n], outcomes[..n]);
      var es := OnePass(topics, records, outcomes);
      OnePassPublishesFollowCalls(topics, records[..n], outcomes[..n]);
      forall p | 0 <= p < |es| && es[p].Publish? ensures FollowsItsCall(records, es, p) {
        if p < |before| {
          assert es[p] == before[p] && FollowsItsCall(records[..n], before, p);
          var r :| r in records[..n] && before[p - 1] == Invoke(r.data) && before[p].orderAfter == r.seqNo
                   && before[p].key == r.key;
          assert r in records && es[p - 1] == before[p - 1];
        } else {
          assert p == |before| + 1 && es[p - 1] == Invoke(records[n].data) && records[n] in records;
        }
      }
    }
  }

  /** Over a whole run: the function is called with the data of the delivered records, once
      each and in order; the publishes that carry a delivered record's sequence number are
      exactly the one its own outcome asks for; a record not delivered has none; and each
      comes right after the call for its record. */
  lemma OnePublishPerRecord(states: seq<Config>, labels: seq<Label>, i: nat, s: ShardId, topics: Topics)
    requires IsRun(states, labels) && i < |states| && s in states[i].shards
    ensures var records, acts := states[i].shards[s].records, Acts(labels[..i], s);
            var effects, n := Effects(topics, acts), |Deliveries(labels[..i], s)|;
            && n <= |records| && |Outcomes(acts)| == n
            && Invoked(effects) == DataOf(records[..n])
            && PublishesFollowCalls(records[..n], effects)
            && (forall j :: 0 <= j < n ==>
                  ArePublishesFor(topics, records[j], Outcomes(acts)[j], PublishesOf(effects, records[j].seqNo)))
            && (forall j :: n <= j < |records| ==> PublishesOf(effects, records[j].seqNo) == [])
  {
    ShardsStayValid(states, labels, i, s);
    PagedReadingIsOnePass(states, labels, i, s, topics);
    var records, acts := states[i].shards[s].records, Acts(labels[..i], s);
    var n := |Deliveries(labels[..i], s)|;
    var read := records[..n];
    OnePassInvokes(topics, read, Outcomes(acts));
    OnePassPublishesFollowCalls(topics, read, Outcomes(acts));
    forall j | 0 <= j < n
      ensures ArePublishesFor(topics, records[j], Outcomes(acts)[j],
                              PublishesOf(Effects(topics, acts), records[j].seqNo))
    {
      assert read[j] == records[j];
      OnePassPublishes(topics, read, Outcomes(acts), j);
    }
    forall j | n <= j < |records| ensures PublishesOf(Effects(topics, acts), records[j].seqNo) == [] {
      OnePassPublishesNothingElse(topics, read, Outcomes(acts), records[j].seqNo);
    }
  }
}
