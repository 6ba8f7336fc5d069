/** The Kafka connector's claim loop: what is called, what is published, what is marked. */
module KafkaClaim {
  import opened Basics
  import opened Headers

  /** A record header; utf8 tells whether its value is valid UTF-8. */
  datatype RecordHeader = RecordHeader(key: string, value: string, utf8: bool)

  datatype Message = Message(offset: nat, value: string, headers: seq<RecordHeader>)

  datatype Config = Config(
    topic: string,
    responseTopic: string,
    errorTopic: string,
    contentType: string,
    source: string)

  /** How one message turned out: the function call, the response's headers, and whether
      the producer accepted what was sent to it. */
  datatype Outcome = Outcome(call: Invocation, respHeaders: Header, accepted: bool)

  datatype Effect =
    | Invoke(message: string, headers: Header)
    | Produce(topic: string, value: string, listed: seq<(string, string)>, accepted: bool)

  // Request headers

  function BaseHeaders(c: Config): Header {
    map["KEDA-Topic" := [c.topic], "KEDA-Response-Topic" := [c.responseTopic], "KEDA-Error-Topic" := [c.errorTopic],
        "Content-Type" := [c.contentType], "KEDA-Source-Name" := [c.source]]
  }

  /** The base headers overlaid with the message's own valid ones, later ones winning. */
  function Overlaid(base: Header, own: seq<RecordHeader>): Header {
    if own == [] then base
    else
      var h := own[|own| - 1];
      var before := Overlaid(base, own[..|own| - 1]);
      if h.utf8 then SetTo(before, h.key, h.value) else before
  }

  /** The valid header that decides a canonical name: the last one. */
  ghost predicate Decides(own: seq<RecordHeader>, name: string, i: nat) {
    && i < |own| && own[i].utf8 && Canonical(own[i].key) == name
    && forall j :: i < j < |own| && own[j].utf8 ==> Canonical(own[j].key) != name
  }

  lemma SettingAnotherName(h: Header, key: string, val: string, name: string)
    requires Canonical(key) != name
    ensures Values(SetTo(h, key, val), name) == Values(h, name)
    ensures name in SetTo(h, key, val) <==> name in h
  {
  }

  lemma {:induction false} DecidedNameHoldsTheHeader(base: Header, own: seq<RecordHeader>, name: string, i: nat)
    requires Decides(own, name, i)
    ensures Values(Overlaid(base, own), name) == [own[i].value]
  {
    var n := |own| - 1;
    if i < n {
      DecidedNameHoldsTheHeader(base, own[..n], name, i);
      if own[n].utf8 {
        SettingAnotherName(Overlaid(base, own[..n]), own[n].key, own[n].value, name);
      }
    }
  }

  lemma {:induction false} UndecidedNameIsKept(base: Header, own: seq<RecordHeader>, name: string)
    requires forall i :: 0 <= i < |own| && own[i].utf8 ==> Canonical(own[i].key) != name
    ensures Values(Overlaid(base, own), name) == Values(base, name)
    ensures name in Overlaid(base, own) <==> name in base
  {
    if own != [] {
      var n := |own| - 1;
      UndecidedNameIsKept(base, own[..n], name);
      if own[n].utf8 {
        SettingAnotherName(Overlaid(base, own[..n]), own[n].key, own[n].value, name);
      }
    }
  }

  /** Each name holds the last valid header of that canonical name, or what it held before. */
  lemma LastValidHeaderWins(base: Header, own: seq<RecordHeader>, name: string)
    ensures forall i: nat :: Decides(own, name, i) ==> Values(Overlaid(base, own), name) == [own[i].value]
    ensures (forall i :: 0 <= i < |own| && own[i].utf8 ==> Canonical(own[i].key) != name)
            ==> (&& Values(Overlaid(base, own), name) == Values(base, name)
                 && (name in Overlaid(base, own) <==> name in base))
  {
    forall i: nat | Decides(own, name, i) ensures Values(Overlaid(base, own), name) == [own[i].value] {
      DecidedNameHoldsTheHeader(base, own, name, i);
    }
    if forall i :: 0 <= i < |own| && own[i].utf8 ==> Canonical(own[i].key) != name {
      UndecidedNameIsKept(base, own, name);
    }
  }

  lemma CapitalisedIsCanonical(s: string, t: string)
    requires |s| == |t| && forall i :: 0 <= i < |s| ==> IsTokenChar(s[i]) && t[i] == CapitalisedAt(s, i)
    ensures Canonical(s) == t
  {
    forall c | c in s ensures IsTokenChar(c) {
      var i :| 0 <= i < |s| && s[i] == c;
    }
    forall i | 0 <= i < |s| ensures Capitalised(s)[i] == t[i] {
      assert Capitalised(s)[i] == CapitalisedAt(s, i);
    }
  }

  // The names the connector writes, as they stand in a request.

  lemma TopicName()
    ensures Canonical("KEDA-Topic") == "Keda-Topic"
  {
    CapitalisedIsCanonical("KEDA-Topic", "Keda-Topic");
  }

  lemma ResponseTopicName()
    ensures Canonical("KEDA-Response-Topic") == "Keda-Response-Topic"
  {
    CapitalisedIsCanonical("KEDA-Response-Topic", "Keda-Response-Topic");
  }

  lemma ErrorTopicName()
    ensures Canonical("KEDA-Error-Topic") == "Keda-Error-Topic"
  {
    CapitalisedIsCanonical("KEDA-Error-Topic", "Keda-Error-Topic");
  }

  lemma SourceName()
    ensures Canonical("KEDA-Source-Name") == "Keda-Source-Name"
  {
    CapitalisedIsCanonical("KEDA-Source-Name", "Keda-Source-Name");
  }

  lemma ContentTypeName()
    ensures Canonical("Content-Type") == "Content-Type"
  {
    CapitalisedIsCanonical("Content-Type", "Content-Type");
  }

  // Response headers

  /** The values listed under a key, in list order. */
  function ValuesUnder(list: seq<(string, string)>, key: string): seq<string> {
    if list == [] then []
    else ValuesUnder(list[..|list| - 1], key) + if list[|list| - 1].0 == key then [list[|list| - 1].1] else []
  }

  lemma ValuesUnderSnoc(list: seq<(string, string)>, k: string, v: string, key: string)
    ensures ValuesUnder(list + [(k, v)], key) == ValuesUnder(list, key) + if k == key then [v] else []
  {
    assert (list + [(k, v)])[..|list|] == list;
  }

  /** The inner range: one key's values, in order. */
  method Append(list: seq<(string, string)>, k: string, vals: seq<string>) returns (longer: seq<(string, string)>)
    ensures forall key :: ValuesUnder(longer, key) == ValuesUnder(list, key) + if key == k then vals else []
  {
    longer := list;
    var i := 0;
    while i < |vals|
      invariant 0 <= i <= |vals|
      invariant forall key :: ValuesUnder(longer, key) == ValuesUnder(list, key) + if key == k then vals[..i] else []
    {
      ghost var before := longer;
      longer := longer + [(k, vals[i])];
      forall key ensures ValuesUnder(longer, key) == ValuesUnder(before, key) + if key == k then [vals[i]] else [] {
        ValuesUnderSnoc(before, k, vals[i], key);
      }
      assert vals[..i + 1] == vals[..i] + [vals[i]];
      i := i + 1;
    }
    assert vals[..i] == vals;
  }

  /** The list holds the values of these keys of the header and no others. */
  ghost predicate ListsKeys(list: seq<(string, string)>, resp: Header, keys: set<string>) {
    forall key :: ValuesUnder(list, key) == if key in keys then Values(resp, key) else []
  }

  lemma ListsOneMore(list: seq<(string, string)>, longer: seq<(string, string)>, resp: Header,
                     keys: set<string>, k: string)
    requires ListsKeys(list, resp, keys) && k in resp && k !in keys
    requires forall key :: ValuesUnder(longer, key) == ValuesUnder(list, key) + if key == k then resp[k] else []
    ensures ListsKeys(longer, resp, keys + {k})
  {
    forall key ensures ValuesUnder(longer, key) == if key in keys + {k} then Values(resp, key) else [] {
      assert ValuesUnder(longer, key) == ValuesUnder(list, key) + if key == k then resp[k] else [];
    }
  }

  /** Every response header value becomes a record header; Go's map order is free. */
  method RecordHeaders(resp: Header) returns (list: seq<(string, string)>)
    ensures forall key :: ValuesUnder(list, key) == Values(resp, key)
  {
    list := [];
    var remaining := resp.Keys;
    while remaining != {}
      invariant remaining <= resp.Keys
      invariant ListsKeys(list, resp, resp.Keys - remaining)
      decreases remaining
    {
      var k :| k in remaining;
      ghost var before, done := list, resp.Keys - remaining;
      list := Append(list, k, resp[k]);
      ListsOneMore(before, list, resp, done, k);
      remaining := remaining - {k};
      assert resp.Keys - remaining == done + {k};
    }
  }

  // Marks

  /** The response step succeeded, which is what marks a message. */
  predicate Succeeded(c: Config, o: Outcome) {
    o.call.Answered? && (c.responseTopic == "" || o.accepted)
  }

  /** Marking an offset moves the mark just past it, never backwards. */
  function Marked(mark: nat, offset: nat): nat {
    if offset + 1 > mark then offset + 1 else mark
  }

  function MarkAfter(c: Config, mark: nat, messages: seq<Message>, outcomes: seq<Outcome>): nat
    requires |messages| == |outcomes|
  {
    if messages == [] then mark
    else
      var n := |messages| - 1;
      var before := MarkAfter(c, mark, messages[..n], outcomes[..n]);
      if Succeeded(c, outcomes[n]) then Marked(before, messages[n].offset) else before
  }

  ghost predicate Increasing(offsets: seq<nat>) {
    forall i, j :: 0 <= i < j < |offsets| ==> offsets[i] < offsets[j]
  }

  function Offsets(messages: seq<Message>): seq<nat> {
    seq(|messages|, i requires 0 <= i < |messages| => messages[i].offset)
  }

  ghost predicate IsLastSuccess(c: Config, outcomes: seq<Outcome>, i: nat) {
    && i < |outcomes| && Succeeded(c, outcomes[i])
    && forall j :: i < j < |outcomes| ==> !Succeeded(c, outcomes[j])
  }

  /** The mark is one past the last message whose response step succeeded, and unmoved
      when there is none. */
  lemma {:induction false} MarkIsOnePastTheLastSuccess(c: Config, mark: nat,
                                                       messages: seq<Message>, outcomes: seq<Outcome>)
    requires |messages| == |outcomes| && Increasing(Offsets(messages))
    requires forall i :: 0 <= i < |messages| ==> mark <= messages[i].offset
    ensures forall i: nat :: IsLastSuccess(c, outcomes, i) ==>
              MarkAfter(c, mark, messages, outcomes) == messages[i].offset + 1
    ensures (forall i :: 0 <= i < |outcomes| ==> !Succeeded(c, outcomes[i]))
            ==> MarkAfter(c, mark, messages, outcomes) == mark
    ensures messages != [] ==> MarkAfter(c, mark, messages, outcomes) <= messages[|messages| - 1].offset + 1
  {
    if messages != [] {
      var n := |messages| - 1;
      var offsets := Offsets(messages);
      assert Offsets(messages[..n]) == offsets[..n];
      forall i | 0 <= i < n ensures messages[i].offset < messages[n].offset {
        assert offsets[i] < offsets[n];
      }
      MarkIsOnePastTheLastSuccess(c, mark, messages[..n], outcomes[..n]);
      forall i: nat | IsLastSuccess(c, outcomes, i)
        ensures MarkAfter(c, mark, messages, outcomes) == messages[i].offset + 1
      {
        if i < n {
          assert IsLastSuccess(c, outcomes[..n], i);
        }
      }
    }
  }

  lemma {:induction false} LastSuccess(c: Config, outcomes: seq<Outcome>) returns (last: Option<nat>)
    ensures last.Some? ==> IsLastSuccess(c, outcomes, last.value)
    ensures last.None? ==> forall i :: 0 <= i < |outcomes| ==> !Succeeded(c, outcomes[i])
  {
    if outcomes == [] {
      last := None;
    } else if Succeeded(c, outcomes[|outcomes| - 1]) {
      last := Some(|outcomes| - 1);
    } else {
      last := LastSuccess(c, outcomes[..|outcomes| - 1]);
      if last.Some? {
        assert IsLastSuccess(c, outcomes, last.value);
      }
    }
  }

  /** The mark leaves a message behind exactly when that message or a later one succeeded. */
  lemma MarkLeavesTheFailedTail(c: Config, mark: nat, messages: seq<Message>, outcomes: seq<Outcome>, i: nat)
    requires |messages| == |outcomes| && Increasing(Offsets(messages)) && i < |messages|
    requires forall j :: 0 <= j < |messages| ==> mark <= messages[j].offset
    ensures MarkAfter(c, mark, messages, outcomes) <= messages[i].offset
            <==> forall j :: i <= j < |messages| ==> !Succeeded(c, outcomes[j])
  {
    MarkIsOnePastTheLastSuccess(c, mark, messages, outcomes);
    var offsets := Offsets(messages);
    var last := LastSuccess(c, outcomes);
    if last.Some? {
      if i <= last.value {
        assert offsets[i] <= offsets[last.value];
        assert Succeeded(c, outcomes[last.value]);
      } else {
        assert offsets[last.value] < offsets[i];
      }
    }
  }

  // The loop

  function MessageEffects(c: Config, m: Message, o: Outcome, list: Listing): seq<Effect> {
    [Invoke(m.value, Overlaid(BaseHeaders(c), m.headers))]
    + match o.call
      case Failed(e) => Reported(c.errorTopic, e, [], o.accepted)
      case Unreadable(e) => Reported(c.errorTopic, e, [], o.accepted)
      case Answered(body) => Reported(c.responseTopic, body, list, o.accepted)
  }

  function Reported(topic: string, value: string, list: seq<(string, string)>, accepted: bool): seq<Effect> {
    if topic == "" then [] else [Produce(topic, value, list, accepted)]
  }

  type Listing = seq<(string, string)>

  /** The calls made for the claim's messages, in claim order. */
  function ClaimEffects(c: Config, messages: seq<Message>, outcomes: seq<Outcome>, lists: seq<Listing>): seq<Effect>
    requires |messages| == |outcomes| == |lists|
  {
    if messages == [] then []
    else
      var n := |messages| - 1;
      ClaimEffects(c, messages[..n], outcomes[..n], lists[..n]) + MessageEffects(c, messages[n], outcomes[n], lists[n])
  }

  ghost predicate Lists(list: Listing, resp: Header) {
    forall key :: ValuesUnder(list, key) == Values(resp, key)
  }

  ghost predicate AllListed(lists: seq<Listing>, results: seq<Outcome>) {
    && |lists| == |results|
    && forall i :: 0 <= i < |results| && results[i].call.Answered? ==> Lists(lists[i], results[i].respHeaders)
  }

  ghost predicate AreOutcomes(outcomes: nat -> Outcome, results: seq<Outcome>) {
    forall i :: 0 <= i < |results| ==> results[i] == outcomes(i)
  }

  // What the calls say, read by themselves

  /** The request headers hold the connector's own values under the names it writes; only
      Content-Type can give way to a valid record header. */
  ghost predicate CarriesOwn(c: Config, m: Message, h: Header) {
    && Values(h, "KEDA-Topic") == [c.topic]
    && Values(h, "KEDA-Response-Topic") == [c.responseTopic]
    && Values(h, "KEDA-Error-Topic") == [c.errorTopic]
    && Values(h, "KEDA-Source-Name") == [c.source]
    && ((forall i :: 0 <= i < |m.headers| && m.headers[i].utf8 ==> Canonical(m.headers[i].key) != "Content-Type") ==>
          Values(h, "Content-Type") == [c.contentType])
  }

  /** The message is put through the function once; then an answer's body goes to the response
      topic with the response's headers, or an error's text to the error topic with none, and
      if that topic is not set nothing is produced. */
  ghost predicate Says(c: Config, m: Message, o: Outcome, es: seq<Effect>) {
    var topic := if o.call.Answered? then c.responseTopic else c.errorTopic;
    var value := if o.call.Answered? then o.call.body else o.call.err;
    && |es| == (if topic == "" then 1 else 2)
    && es[0].Invoke? && es[0].message == m.value && CarriesOwn(c, m, es[0].headers)
    && (topic != "" ==>
          && es[1].Produce? && es[1].topic == topic && es[1].value == value && es[1].accepted == o.accepted
          && (if o.call.Answered? then Lists(es[1].listed, o.respHeaders) else es[1].listed == []))
  }

  lemma OwnValuesAreCarried(c: Config, m: Message)
    ensures CarriesOwn(c, m, Overlaid(BaseHeaders(c), m.headers))
  {
    TopicName();
    ResponseTopicName();
    ErrorTopicName();
    SourceName();
    LiteralKeyIsKept(BaseHeaders(c), m.headers, "KEDA-Topic");
    LiteralKeyIsKept(BaseHeaders(c), m.headers, "KEDA-Response-Topic");
    LiteralKeyIsKept(BaseHeaders(c), m.headers, "KEDA-Error-Topic");
    LiteralKeyIsKept(BaseHeaders(c), m.headers, "KEDA-Source-Name");
    if forall i :: 0 <= i < |m.headers| && m.headers[i].utf8 ==> Canonical(m.headers[i].key) != "Content-Type" {
      UndecidedNameIsKept(BaseHeaders(c), m.headers, "Content-Type");
    }
  }

  lemma MessageSays(c: Config, m: Message, o: Outcome, list: Listing)
    requires o.call.Answered? ==> Lists(list, o.respHeaders)
    ensures Says(c, m, o, MessageEffects(c, m, o, list))
  {
    OwnValuesAreCarried(c, m);
  }

  function Concat(parts: seq<seq<Effect>>): seq<Effect> {
    if parts == [] then [] else Concat(parts[..|parts| - 1]) + parts[|parts| - 1]
  }

  /** The calls are made message by message in claim order, whatever fails. */
  ghost predicate InTurn(c: Config, messages: seq<Message>, outcomes: seq<Outcome>, parts: seq<seq<Effect>>) {
    && |messages| == |outcomes| == |parts|
    && (parts != [] ==>
          var n := |parts| - 1;
          InTurn(c, messages[..n], outcomes[..n], parts[..n]) && Says(c, messages[n], outcomes[n], parts[n]))
  }

  lemma {:induction false} ClaimSaysInTurn(c: Config, messages: seq<Message>, outcomes: seq<Outcome>,
                                           lists: seq<Listing>)
    returns (parts: seq<seq<Effect>>)
    requires |messages| == |outcomes| && AllListed(lists, outcomes)
    ensures InTurn(c, messages, outcomes, parts) && Concat(parts) == ClaimEffects(c, messages, outcomes, lists)
  {
    if messages == [] {
      parts := [];
    } else {
      var n := |messages| - 1;
      var before := ClaimSaysInTurn(c, messages[..n], outcomes[..n], lists[..n]);
      MessageSays(c, messages[n], outcomes[n], lists[n]);
      parts := before + [MessageEffects(c, messages[n], outcomes[n], lists[n])];
      assert parts[..n] == before;
    }
  }

  class Connector {
    const config: Config
    const outcomes: nat -> Outcome
    var mark: nat
    var effects: seq<Effect>

    constructor (config: Config, outcomes: nat -> Outcome, mark: nat)
      ensures this.config == config && this.outcomes == outcomes && this.mark == mark && effects == []
    {
      this.config, this.outcomes, this.mark, effects := config, outcomes, mark, [];
    }

    method MarkMessage(m: Message)
      modifies this`mark
      ensures old(mark) <= mark && m.offset < mark
      ensures mark == old(mark) || mark == m.offset + 1
    {
      if m.offset + 1 > mark {
        mark := m.offset + 1;
      }
    }

    method ErrorHandler(text: string, accepted: bool)
      modifies this`effects
      ensures effects == old(effects) + Reported(config.errorTopic, text, [], accepted)
    {
      if |config.errorTopic| > 0 {
        effects := effects + [Produce(config.errorTopic, text, [], accepted)];
      }
    }

    method ResponseHandler(body: string, list: seq<(string, string)>, accepted: bool) returns (ok: bool)
      modifies this`effects
      ensures effects == old(effects) + Reported(config.responseTopic, body, list, accepted)
      ensures ok <==> config.responseTopic == "" || accepted
    {
      if |config.responseTopic| > 0 {
        effects := effects + [Produce(config.responseTopic, body, list, accepted)];
        if !accepted {
          return false;
        }
      }
      return true;
    }

    method RequestHeaders(m: Message) returns (h: Header)
      ensures h == Overlaid(BaseHeaders(config), m.headers)
    {
      h := BaseHeaders(config);
      var i := 0;
      while i < |m.headers|
        invariant 0 <= i <= |m.headers|
        invariant h == Overlaid(BaseHeaders(config), m.headers[..i])
      {
        if m.headers[i].utf8 {
          h := SetTo(h, m.headers[i].key, m.headers[i].value);
        }
        assert m.headers[..i + 1][..i] == m.headers[..i];
        i := i + 1;
      }
      assert m.headers[..i] == m.headers;
    }

    /** One message of the claim. */
    method Handle(m: Message, o: Outcome) returns (list: Listing)
      modifies this
      ensures o.call.Answered? ==> Lists(list, o.respHeaders)
      ensures effects == old(effects) + MessageEffects(config, m, o, list)
      ensures mark == if Succeeded(config, o) then Marked(old(mark), m.offset) else old(mark)
      ensures Says(config, m, o, MessageEffects(config, m, o, list))
      ensures if o.call.Answered? && (config.responseTopic == "" || o.accepted)
              then old(mark) <= mark && m.offset < mark && (mark == old(mark) || mark == m.offset + 1)
              else mark == old(mark)
    {
      var headers := RequestHeaders(m);
      effects := effects + [Invoke(m.value, headers)];
      list := [];
      match o.call {
        case Failed(e) => ErrorHandler(e, o.accepted);
        case Unreadable(e) => ErrorHandler(e, o.accepted);
        case Answered(body) =>
          list := RecordHeaders(o.respHeaders);
          var success := ResponseHandler(body, list, o.accepted);
          if success {
            MarkMessage(m);
          }
      }
      MessageSays(config, m, o, list);
    }

    /** One round of the claim loop, after these messages with these outcomes. */
    method HandleNext(m: Message, o: Outcome, ghost mark0: nat, ghost effects0: seq<Effect>,
                      ghost messages: seq<Message>, ghost results: seq<Outcome>, ghost lists: seq<Listing>)
      returns (ghost lists': seq<Listing>)
      requires Claimed(config, mark0, effects0, messages, results, lists, mark, effects)
      modifies this
      ensures Claimed(config, mark0, effects0, messages + [m], results + [o], lists', mark, effects)
    {
      var list := Handle(m, o);
      ClaimedSnoc(config, mark0, effects0, messages, results, lists, old(mark), old(effects), m, o, list);
      lists' := lists + [list];
    }

    /** The claim loop: it goes on after every failure and marks only successes. */
    method ConsumeClaim(messages: seq<Message>)
      returns (ghost results: seq<Outcome>, ghost lists: seq<Listing>, ghost parts: seq<seq<Effect>>)
      modifies this
      ensures |results| == |messages| && AreOutcomes(outcomes, results)
      ensures Claimed(config, old(mark), old(effects), messages, results, lists, mark, effects)
      ensures InTurn(config, messages, results, parts) && effects == old(effects) + Concat(parts)
    {
      results, lists := [], [];
      var i := 0;
      assert effects + [] == effects;
      while i < |messages|
        invariant 0 <= i <= |messages| && |results| == i && AreOutcomes(outcomes, results)
        invariant Claimed(config, old(mark), old(effects), messages[..i], results, lists, mark, effects)
      {
        var m, o := messages[i], outcomes(i);
        lists := HandleNext(m, o, old(mark), old(effects), messages[..i], results, lists);
        assert messages[..i + 1] == messages[..i] + [m];
        results := results + [o];
        i := i + 1;
      }
      assert messages[..i] == messages;
      parts := ClaimedInTurn(config, old(mark), old(effects), messages, results, lists, mark, effects);
    }
  }

  /** What the claim loop has come to: the mark and the calls follow from the outcomes. */
  ghost predicate Claimed(c: Config, mark0: nat, effects0: seq<Effect>, messages: seq<Message>, outcomes: seq<Outcome>,
                          lists: seq<Listing>, mark: nat, effects: seq<Effect>)
  {
    && |messages| == |outcomes| && AllListed(lists, outcomes)
    && mark == MarkAfter(c, mark0, messages, outcomes)
    && effects == effects0 + ClaimEffects(c, messages, outcomes, lists)
  }

  lemma ClaimedInTurn(c: Config, mark0: nat, effects0: seq<Effect>, messages: seq<Message>, outcomes: seq<Outcome>,
                      lists: seq<Listing>, mark: nat, effects: seq<Effect>)
    returns (parts: seq<seq<Effect>>)
    requires Claimed(c, mark0, effects0, messages, outcomes, lists, mark, effects)
    ensures InTurn(c, messages, outcomes, parts) && effects == effects0 + Concat(parts)
  {
    parts := ClaimSaysInTurn(c, messages, outcomes, lists);
  }

  lemma ClaimedSnoc(c: Config, mark0: nat, effects0: seq<Effect>, messages: seq<Message>, outcomes: seq<Outcome>,
                    lists: seq<Listing>, mark: nat, effects: seq<Effect>, m: Message, o: Outcome, list: Listing)
    requires Claimed(c, mark0, effects0, messages, outcomes, lists, mark, effects)
    requires o.call.Answered? ==> Lists(list, o.respHeaders)
    ensures Claimed(c, mark0, effects0, messages + [m], outcomes + [o], lists + [list],
                    if Succeeded(c, o) then Marked(mark, m.offset) else mark, effects + MessageEffects(c, m, o, list))
  {
    var n := |messages|;
    assert (messages + [m])[..n] == messages && (outcomes + [o])[..n] == outcomes && (lists + [list])[..n] == lists;
    assert effects0 + (ClaimEffects(c, messages, outcomes, lists) + MessageEffects(c, m, o, list))
        == (effects0 + ClaimEffects(c, messages, outcomes, lists)) + MessageEffects(c, m, o, list);
  }

  /** The keys of the overlaid headers: the connector's own, and canonical names. */
  lemma {:induction false} KeysOfOverlaid(base: Header, own: seq<RecordHeader>)
    ensures base.Keys <= Overlaid(base, own).Keys
    ensures forall k :: k in Overlaid(base, own) && k !in base ==> Canonical(k) == k
  {
    if own != [] {
      var n := |own| - 1;
      KeysOfOverlaid(base, own[..n]);
      CanonicalIsIdempotent(own[n].key);
    }
  }

  /** A key that is not in canonical form keeps its value. */
  lemma LiteralKeyIsKept(base: Header, own: seq<RecordHeader>, k: string)
    requires k in base && Canonical(k) != k
    ensures k in Overlaid(base, own) && Overlaid(base, own)[k] == base[k]
  {
    forall j | 0 <= j < |own| ensures Canonical(own[j].key) != k {
      CanonicalIsIdempotent(own[j].key);
    }
    UndecidedNameIsKept(base, own, k);
    assert Values(Overlaid(base, own), k) == Values(base, k);
  }

  /** The connector writes no other key that shares this name's header line. */
  ghost predicate WritesOnlyCanonically(base: Header, name: string) {
    forall k :: k in base && Canonical(k) == name ==> k == name
  }

  /** x and y stand at two different places of the list. */
  ghost predicate BothListed(list: seq<string>, x: seq<string>, y: seq<string>) {
    exists a, b :: BlockAt(list, x, a) && BlockAt(list, y, b) && a != b
  }

  lemma TwoKeysTwoPlaces(src: Header, h: Header, k: string, name: string)
    requires CopyOf(h, src) && k in src && name in src && k != name
    requires Canonical(k) == Canonical(name) == name && |src[k]| == 1 && |src[name]| == 1
    ensures BothListed(Values(h, name), src[k], src[name])
  {
    var order :| IsOrderOf(order, src.Keys) && h == Collected(src, order);
    assert k in ToSet(order) && name in ToSet(order);
    var a, b := TwoBlocks(src, order, k, name);
  }

  /** Another key of the name leaves its own value beside the record header's. */
  lemma SecondKeyAddsAValue(base: Header, own: seq<RecordHeader>, name: string, i: nat, h: Header, k: string)
    requires Decides(own, name, i) && CopyOf(h, Overlaid(base, own))
    requires k in base && Canonical(k) == name && k != name && |base[k]| == 1
    ensures BothListed(Values(h, name), base[k], [own[i].value])
  {
    LiteralKeyIsKept(base, own, k);
    DecidedNameHoldsTheHeader(base, own, name, i);
    CanonicalIsIdempotent(own[i].key);
    TwoKeysTwoPlaces(Overlaid(base, own), h, k, name);
  }

  lemma HeaderReplaces(base: Header, own: seq<RecordHeader>, name: string, i: nat, h: Header)
    requires Decides(own, name, i) && CopyOf(h, Overlaid(base, own)) && WritesOnlyCanonically(base, name)
    ensures Values(h, name) == [own[i].value]
  {
    KeysOfOverlaid(base, own);
    CanonicalIsIdempotent(own[i].key);
    DecidedNameHoldsTheHeader(base, own, name, i);
    OnlyKeyFixesTheValues(Overlaid(base, own), h, name);
  }

  /** A valid record header replaces the connector's value exactly when the connector writes
      that name in canonical form; otherwise the request carries both. */
  lemma RecordHeaderReplacesExactlyWhen(c: Config, own: seq<RecordHeader>, name: string, i: nat, h: Header)
    requires Decides(own, name, i) && CopyOf(h, Overlaid(BaseHeaders(c), own))
    ensures Values(h, name) == [own[i].value] <==> WritesOnlyCanonically(BaseHeaders(c), name)
  {
    if k :| k in BaseHeaders(c) && Canonical(k) == name && k != name {
      SecondKeyAddsAValue(BaseHeaders(c), own, name, i, h, k);
    } else {
      HeaderReplaces(BaseHeaders(c), own, name, i, h);
    }
  }

  /** Of the names the connector writes only Content-Type can be replaced by a record header. */
  lemma OnlyContentTypeIsReplaced(c: Config, name: string)
    ensures WritesOnlyCanonically(BaseHeaders(c), name)
            <==> name !in {"Keda-Topic", "Keda-Response-Topic", "Keda-Error-Topic", "Keda-Source-Name"}
  {
    TopicName();
    ResponseTopicName();
    ErrorTopicName();
    SourceName();
    ContentTypeName();
    assert "KEDA-Topic" in BaseHeaders(c) && "KEDA-Response-Topic" in BaseHeaders(c);
    assert "KEDA-Error-Topic" in BaseHeaders(c) && "KEDA-Source-Name" in BaseHeaders(c);
  }

  /** A record header called KEDA-Topic is sent beside the configured topic. */
  lemma OwnKedaTopicIsAddedNotReplaced(c: Config, own: seq<RecordHeader>, i: nat, h: Header)
    requires Decides(own, "Keda-Topic", i) && CopyOf(h, Overlaid(BaseHeaders(c), own))
    ensures BothListed(Values(h, "Keda-Topic"), [c.topic], [own[i].value])
  {
    TopicName();
    assert BaseHeaders(c)["KEDA-Topic"] == [c.topic];
    SecondKeyAddsAValue(BaseHeaders(c), own, "Keda-Topic", i, h, "KEDA-Topic");
  }

  lemma CanonicalIsIdempotent(s: string)
    ensures Canonical(Canonical(s)) == Canonical(s)
  {
    if IsToken(s) {
      CapitalisedKeepsToken(s);
      CapitalisedKeepsLower(s);
      LowerFixesCapitalised(s, Capitalised(s));
    }
  }

  /** Two source keys of one canonical name fill two different places of its value list. */
  lemma {:induction false} TwoBlocks(src: Header, order: seq<string>, k1: string, k2: string) returns (a: nat, b: nat)
    requires k1 != k2 && k1 in order && k2 in order && Canonical(k1) == Canonical(k2)
    requires k1 in src && k2 in src && |src[k1]| == 1 && |src[k2]| == 1
    ensures BlockAt(Values(Collected(src, order), Canonical(k1)), src[k1], a)
    ensures BlockAt(Values(Collected(src, order), Canonical(k1)), src[k2], b) && a != b
  {
    var n := |order| - 1;
    var name := Canonical(k1);
    CollectedLast(src, order, name);
    var before := Values(Collected(src, order[..n]), name);
    if order[n] == k1 {
      b := BlockInOrder(src, order[..n], k2);
      a := |before|;
      BlockAtEnd(before, src[k1]);
      BlockStays(before, src[k1], src[k2], b);
    } else if order[n] == k2 {
      a := BlockInOrder(src, order[..n], k1);
      b := |before|;
      BlockAtEnd(before, src[k2]);
      BlockStays(before, src[k2], src[k1], a);
    } else {
      a, b := TwoBlocks(src, order[..n], k1, k2);
      BlockStays(before, Contribution(src, order[n], name), src[k1], a);
      BlockStays(before, Contribution(src, order[n], name), src[k2], b);
    }
  }
}
