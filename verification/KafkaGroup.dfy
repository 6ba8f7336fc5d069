/** One Kafka partition over sessions, rebalances and crashes of the consumers that own it. */
module KafkaGroup {
  import opened Basics
  import KC = KafkaClaim

  /** Where a group without a committed offset begins; the connector's default is Latest. */
  datatype Policy = Earliest | Latest

  /** The message next to come: not called yet, or called and not yet through its response
      or error step. */
  datatype Stage = Idle | Called

  /** The session of the consumer that owns the partition: the index of the message in hand
      or next to come, and every value its mark has had. */
  datatype Session = Session(next: nat, stage: Stage, marks: set<nat>)

  /** origin: where the group first began, at a committed offset or at the start of its first
      session. base: where the session began that made the first commit or, until there is
      one, the latest session. */
  datatype State = State(
    policy: Policy,
    offsets: seq<nat>,
    committed: Option<nat>,
    origin: Option<nat>,
    base: Option<nat>,
    session: Option<Session>)

  datatype Label =
    | Append(offset: nat)
    | Begin(start: nat)
    | Call(index: nat)
    | Settle(index: nat, success: bool)
    | Commit(offset: nat)
    | EndOrCrash

  function EndOffset(offsets: seq<nat>): nat {
    if offsets == [] then 0 else offsets[|offsets| - 1] + 1
  }

  /** The index at which a session that asks for an offset begins reading. */
  ghost predicate StartsAt(offsets: seq<nat>, from: nat, start: nat) {
    && start <= |offsets|
    && (forall i :: 0 <= i < start ==> offsets[i] < from)
    && (forall i :: start <= i < |offsets| ==> from <= offsets[i])
  }

  /** The offset a new session asks for. */
  function StartOffset(c: State): nat {
    match c.committed
    case Some(v) => v
    case None => if c.policy.Earliest? then 0 else EndOffset(c.offsets)
  }

  ghost predicate Init(c: State) {
    KC.Increasing(c.offsets) && c.session == None && c.origin == c.base == c.committed
  }

  ghost predicate Next(c: State, l: Label, c': State) {
    match l
    case Append(o) =>
      EndOffset(c.offsets) <= o && c' == c.(offsets := c.offsets + [o])
    case Begin(start) =>
      && c.session.None? && StartsAt(c.offsets, StartOffset(c), start)
      && c' == c.(session := Some(Session(start, Idle, {})),
                  origin := if c.origin.Some? then c.origin else Some(StartOffset(c)),
                  base := if c.committed.Some? then c.base else Some(StartOffset(c)))
    case Call(i) =>
      && c.session.Some? && c.session.value.stage.Idle? && i == c.session.value.next && i < |c.offsets|
      && c' == c.(session := Some(c.session.value.(stage := Called)))
    case Settle(i, success) =>
      && c.session.Some? && c.session.value.stage.Called? && i == c.session.value.next && i < |c.offsets|
      && var s := c.session.value;
         c' == c.(session := Some(Session(i + 1, Idle, if success then s.marks + {c.offsets[i] + 1} else s.marks)))
    case Commit(v) =>
      && c.session.Some? && v in c.session.value.marks && (c.committed.Some? ==> c.committed.value <= v)
      && c' == c.(committed := Some(v))
    case EndOrCrash =>
      c.session.Some? && c' == c.(session := None)
  }

  ghost predicate TakesStep(states: seq<State>, labels: seq<Label>, i: nat)
    requires |states| == |labels| + 1 && i < |labels|
  {
    Next(states[i], labels[i], states[i + 1])
  }

  ghost predicate IsPath(states: seq<State>, labels: seq<Label>) {
    && |states| == |labels| + 1
    && forall i: nat :: i < |labels| ==> TakesStep(states, labels, i)
  }

  ghost predicate IsRun(states: seq<State>, labels: seq<Label>) {
    IsPath(states, labels) && Init(states[0])
  }

  /** Message i has been called and has gone through its response or error step. */
  ghost predicate Attempted(h: seq<Label>, i: nat) {
    exists j :: 0 <= j < |h| && h[j].Settle? && h[j].index == i
  }

  /** No message from this offset up to the committed one was passed over. */
  ghost predicate NothingSkippedFrom(c: State, h: seq<Label>, first: Option<nat>) {
    c.committed.Some? && first.Some? ==>
      forall i :: 0 <= i < |c.offsets| && first.value <= c.offsets[i] < c.committed.value ==> Attempted(h, i)
  }

  ghost predicate SessionOk(c: State, h: seq<Label>) {
    c.session.Some? ==>
      && c.base.Some?
      && c.session.value.next <= |c.offsets|
      && (forall i :: 0 <= i < c.session.value.next && c.base.value <= c.offsets[i] ==> Attempted(h, i))
      && (forall m, i :: m in c.session.value.marks && 0 <= i < |c.offsets| && c.offsets[i] < m ==>
            i < c.session.value.next)
  }

  ghost predicate Inv(c: State, h: seq<Label>) {
    && KC.Increasing(c.offsets)
    && (c.committed.Some? ==> c.base.Some? && (c.committed.value <= EndOffset(c.offsets) || c.committed == c.base))
    && NothingSkippedFrom(c, h, c.base)
    && SessionOk(c, h)
    && (c.session.Some? ==> forall m :: m in c.session.value.marks ==> m <= EndOffset(c.offsets))
  }

  lemma AttemptedGrows(h: seq<Label>, l: Label)
    ensures forall i: nat :: Attempted(h, i) ==> Attempted(h + [l], i)
    ensures l.Settle? ==> Attempted(h + [l], l.index)
  {
    forall i: nat | Attempted(h, i) ensures Attempted(h + [l], i) {
      var j :| 0 <= j < |h| && h[j].Settle? && h[j].index == i;
      assert (h + [l])[j] == h[j];
    }
    assert (h + [l])[|h|] == l;
  }

  lemma BeginKeepsInv(c: State, h: seq<Label>, start: nat, c': State)
    requires Inv(c, h) && Next(c, Begin(start), c')
    ensures Inv(c', h + [Begin(start)])
  {
    AttemptedGrows(h, Begin(start));
  }

  lemma SettleKeepsInv(c: State, h: seq<Label>, i: nat, success: bool, c': State)
    requires Inv(c, h) && Next(c, Settle(i, success), c')
    ensures Inv(c', h + [Settle(i, success)])
  {
    AttemptedGrows(h, Settle(i, success));
  }

  lemma AppendKeepsInv(c: State, h: seq<Label>, o: nat, c': State)
    requires Inv(c, h) && Next(c, Append(o), c')
    ensures Inv(c', h + [Append(o)])
  {
    AttemptedGrows(h, Append(o));
    assert c'.offsets[..|c.offsets|] == c.offsets;
  }

  lemma CommitKeepsInv(c: State, h: seq<Label>, v: nat, c': State)
    requires Inv(c, h) && Next(c, Commit(v), c')
    ensures Inv(c', h + [Commit(v)])
  {
    AttemptedGrows(h, Commit(v));
  }

  lemma BareStepKeepsInv(c: State, h: seq<Label>, l: Label, c': State)
    requires Inv(c, h) && Next(c, l, c') && (l.Call? || l.EndOrCrash?)
    ensures Inv(c', h + [l])
  {
    AttemptedGrows(h, l);
  }

  lemma InvStep(c: State, h: seq<Label>, l: Label, c': State)
    requires Inv(c, h) && Next(c, l, c')
    ensures Inv(c', h + [l])
  {
    match l
    case Append(o) => AppendKeepsInv(c, h, o, c');
    case Begin(start) => BeginKeepsInv(c, h, start, c');
    case Settle(i, success) => SettleKeepsInv(c, h, i, success, c');
    case Commit(v) => CommitKeepsInv(c, h, v, c');
    case _ => BareStepKeepsInv(c, h, l, c');
  }

  lemma StepOfRun(states: seq<State>, labels: seq<Label>, i: nat)
    requires IsRun(states, labels) && i < |labels|
    ensures Next(states[i], labels[i], states[i + 1])
    ensures labels[..i + 1] == labels[..i] + [labels[i]]
  {
    assert TakesStep(states, labels, i);
  }

  lemma InvAtNext(states: seq<State>, labels: seq<Label>, i: nat)
    requires IsRun(states, labels) && i < |labels| && Inv(states[i], labels[..i])
    ensures Inv(states[i + 1], labels[..i + 1])
  {
    StepOfRun(states, labels, i);
    InvStep(states[i], labels[..i], labels[i], states[i + 1]);
  }

  lemma {:induction false} InvAlways(states: seq<State>, labels: seq<Label>, i: nat)
    requires IsRun(states, labels) && i < |states|
    ensures Inv(states[i], labels[..i])
  {
    if i == 0 {
      assert labels[..0] == [];
    } else {
      var j := i - 1;
      InvAlways(states, labels, j);
      InvAtNext(states, labels, j);
    }
  }

  /** Nothing moves base once there is a commit. */
  lemma {:induction false} BaseStays(states: seq<State>, labels: seq<Label>, i: nat, j: nat)
    requires IsRun(states, labels) && i <= j < |states| && states[i].committed.Some?
    ensures states[j].committed.Some? && states[j].base == states[i].base
    decreases j
  {
    if i < j {
      BaseStays(states, labels, i, j - 1);
      StepOfRun(states, labels, j - 1);
    }
  }

  /** Until the next session begins, base is what this one asked for. */
  lemma {:induction false} BaseOfTheSession(states: seq<State>, labels: seq<Label>, b: nat, n: nat)
    requires IsRun(states, labels) && b < n < |states| && labels[b].Begin? && states[b].committed.None?
    requires forall m :: b < m < n ==> !labels[m].Begin?
    ensures states[n].base == Some(StartOffset(states[b]))
    decreases n
  {
    StepOfRun(states, labels, n - 1);
    if b < n - 1 {
      BaseOfTheSession(states, labels, b, n - 1);
    }
  }

  /** Over any sequence of sessions, rebalances and crashes, under either policy: when the
      session that began at b makes the group's first commit, at j, then ever after every
      message from where that session began up to the committed offset has been called and
      gone through its response or error step. */
  lemma NothingSkippedSinceTheFirstCommitter(states: seq<State>, labels: seq<Label>, b: nat, j: nat, i: nat)
    requires IsRun(states, labels) && b < j < i < |states|
    requires labels[b].Begin? && labels[j].Commit? && states[j].committed.None?
    requires forall m :: b < m < j ==> !labels[m].Begin?
    ensures states[i].committed.Some?
    ensures NothingSkippedFrom(states[i], labels[..i], Some(StartOffset(states[b])))
  {
    if states[b].committed.Some? {
      BaseStays(states, labels, b, j);
      assert false;
    }
    BaseOfTheSession(states, labels, b, j);
    StepOfRun(states, labels, j);
    BaseStays(states, labels, j + 1, i);
    InvAlways(states, labels, i);
  }

  /** Where the group began and where its first committer began are the same place. */
  ghost predicate OneBeginning(c: State) {
    && c.origin == c.base
    && (c.committed.Some? || c.session.Some? ==> c.origin.Some?)
    && (c.committed.None? ==> c.policy.Earliest? && (c.origin.Some? ==> c.origin.value == 0))
  }

  lemma {:induction false} OneBeginningAlways(states: seq<State>, labels: seq<Label>, i: nat)
    requires IsRun(states, labels) && i < |states|
    requires states[0].committed.Some? || states[0].policy.Earliest?
    ensures OneBeginning(states[i])
  {
    if i > 0 {
      OneBeginningAlways(states, labels, i - 1);
      StepOfRun(states, labels, i - 1);
    }
  }

  /** In every run that starts with this policy and this committed offset nothing since the
      group's beginning is passed over. */
  ghost predicate NeverSkips(policy: Policy, committed: Option<nat>) {
    forall states: seq<State>, labels: seq<Label> ::
      IsRun(states, labels) && states[0].policy == policy && states[0].committed == committed
      ==> NothingSkippedFrom(states[|labels|], labels, states[|labels|].origin)
  }

  // A run that skips: under the default policy with nothing committed a first session ends
  // without a success, a second one starts at the new end of the log, and a success there
  // commits past the message in between.

  const IDLE := State(Latest, [], None, Some(0), Some(0), None)

  const SKIPPING_LABELS: seq<Label> :=
    [Begin(0), EndOrCrash, Append(0), Begin(1), Append(1), Call(1), Settle(1, true), Commit(2)]

  const SECOND := IDLE.(offsets := [0], base := Some(1))

  const SKIPPING_STATES: seq<State> := [
    IDLE.(origin := None, base := None),
    IDLE.(session := Some(Session(0, Idle, {}))),
    IDLE,
    IDLE.(offsets := [0]),
    SECOND.(session := Some(Session(1, Idle, {}))),
    SECOND.(offsets := [0, 1], session := Some(Session(1, Idle, {}))),
    SECOND.(offsets := [0, 1], session := Some(Session(1, Called, {}))),
    SECOND.(offsets := [0, 1], session := Some(Session(2, Idle, {2}))),
    SECOND.(offsets := [0, 1], session := Some(Session(2, Idle, {2})), committed := Some(2))]

  ghost predicate SkippingStep(i: nat)
    requires i < |SKIPPING_LABELS|
  {
    Next(SKIPPING_STATES[i], SKIPPING_LABELS[i], SKIPPING_STATES[i + 1])
  }

  lemma SkippingFirstSession()
    ensures SkippingStep(0) && SkippingStep(1)
  {
  }

  lemma SkippingSecondSessionBegins()
    ensures SkippingStep(2) && SkippingStep(3)
  {
  }

  lemma SkippingCall()
    ensures SkippingStep(4) && SkippingStep(5)
  {
  }

  lemma SkippingCommit()
    ensures SkippingStep(6) && SkippingStep(7)
  {
    var marks: set<nat> := {};
    assert marks + {SKIPPING_STATES[6].offsets[1] + 1} == {2};
  }

  lemma LatestCanSkip()
    ensures IsRun(SKIPPING_STATES, SKIPPING_LABELS)
    ensures SKIPPING_STATES[0].policy == Latest && SKIPPING_STATES[0].committed == None
    ensures var last := SKIPPING_STATES[|SKIPPING_LABELS|];
            !NothingSkippedFrom(last, SKIPPING_LABELS, last.origin)
  {
    SkippingFirstSession();
    SkippingSecondSessionBegins();
    SkippingCall();
    SkippingCommit();
    forall i: nat | i < |SKIPPING_LABELS| ensures TakesStep(SKIPPING_STATES, SKIPPING_LABELS, i) {
      assert i == 0 || i == 1 || i == 2 || i == 3 || i == 4 || i == 5 || i == 6 || i == 7;
      assert SkippingStep(i);
    }
    assert !Attempted(SKIPPING_LABELS, 0);
    assert SKIPPING_STATES[8].offsets[0] == 0;
  }

  /** Over any sequence of sessions, rebalances and crashes every message from the group's
      first offset up to the committed one has been called and gone through its response or
      error step: in all runs exactly when reading starts at the earliest offset or the
      group already had a committed one. */
  lemma NeverSkipsExactlyWhen(policy: Policy, committed: Option<nat>)
    ensures NeverSkips(policy, committed) <==> policy == Earliest || committed.Some?
  {
    if policy == Earliest || committed.Some? {
      forall states: seq<State>, labels: seq<Label>
        | IsRun(states, labels) && states[0].policy == policy && states[0].committed == committed
        ensures NothingSkippedFrom(states[|labels|], labels, states[|labels|].origin)
      {
        InvAlways(states, labels, |labels|);
        OneBeginningAlways(states, labels, |labels|);
        assert labels[..|labels|] == labels;
      }
    } else {
      LatestCanSkip();
    }
  }

  // The claim loop as a run of the partition

  /** The labels of a claim loop that goes through messages from index `start` on. */
  function ClaimLabels(c: KC.Config, start: nat, outcomes: seq<KC.Outcome>): seq<Label> {
    if outcomes == [] then []
    else
      var n := |outcomes| - 1;
      ClaimLabels(c, start, outcomes[..n]) + [Call(start + n), Settle(start + n, KC.Succeeded(c, outcomes[n]))]
  }

  lemma PathSnoc(path: seq<State>, labels: seq<Label>, l: Label, next: State)
    requires IsPath(path, labels) && Next(path[|labels|], l, next)
    ensures IsPath(path + [next], labels + [l])
  {
    forall i: nat | i < |labels + [l]| ensures TakesStep(path + [next], labels + [l], i) {
      if i < |labels| {
        assert TakesStep(path, labels, i);
      }
    }
  }

  /** The partition after the claim loop has gone through these messages. */
  function AfterClaim(c: KC.Config, p: State, messages: seq<KC.Message>, outcomes: seq<KC.Outcome>): State
    requires p.session.Some? && |messages| == |outcomes|
  {
    p.(session := Some(Session(p.session.value.next + |messages|, Idle,
                               p.session.value.marks + MarksOf(c, messages, outcomes))))
  }

  function MarksOf(c: KC.Config, messages: seq<KC.Message>, outcomes: seq<KC.Outcome>): set<nat>
    requires |messages| == |outcomes|
  {
    if messages == [] then {}
    else
      var n := |messages| - 1;
      MarksOf(c, messages[..n], outcomes[..n]) + if KC.Succeeded(c, outcomes[n]) then {messages[n].offset + 1} else {}
  }

  /** The messages are those of the log from the session's next one on. */
  ghost predicate IsClaim(p: State, messages: seq<KC.Message>) {
    && p.session.Some? && p.session.value.stage.Idle?
    && p.session.value.next + |messages| <= |p.offsets|
    && forall i :: 0 <= i < |messages| ==> messages[i].offset == p.offsets[p.session.value.next + i]
  }

  /** A claim loop is a path of the partition: message by message, called and then settled. */
  lemma {:induction false} ClaimIsAPath(c: KC.Config, p: State, messages: seq<KC.Message>, outcomes: seq<KC.Outcome>)
    returns (path: seq<State>)
    requires IsClaim(p, messages) && |messages| == |outcomes|
    ensures IsPath(path, ClaimLabels(c, p.session.value.next, outcomes))
    ensures path[0] == p && path[|path| - 1] == AfterClaim(c, p, messages, outcomes)
  {
    var start := p.session.value.next;
    if messages == [] {
      path := [p];
      assert p.session.value.marks + {} == p.session.value.marks;
    } else {
      var n := |messages| - 1;
      path := ClaimIsAPath(c, p, messages[..n], outcomes[..n]);
      var before := AfterClaim(c, p, messages[..n], outcomes[..n]);
      var success := KC.Succeeded(c, outcomes[n]);
      var called := before.(session := Some(before.session.value.(stage := Called)));
      var labels := ClaimLabels(c, start, outcomes[..n]);
      PathSnoc(path, labels, Call(start + n), called);
      assert p.session.value.marks + MarksOf(c, messages, outcomes)
          == if success then before.session.value.marks + {p.offsets[start + n] + 1} else before.session.value.marks;
      path := path + [called];
      PathSnoc(path, labels + [Call(start + n)], Settle(start + n, success), AfterClaim(c, p, messages, outcomes));
      path := path + [AfterClaim(c, p, messages, outcomes)];
      assert labels + [Call(start + n)] + [Settle(start + n, success)] == ClaimLabels(c, start, outcomes);
    }
  }

  /** The claim loop's mark is the greatest offset the session may commit. */
  lemma {:induction false} MarkIsTheGreatest(c: KC.Config, mark: nat,
                                             messages: seq<KC.Message>, outcomes: seq<KC.Outcome>)
    requires |messages| == |outcomes|
    ensures forall m :: m in MarksOf(c, messages, outcomes) ==> m <= KC.MarkAfter(c, mark, messages, outcomes)
    ensures KC.MarkAfter(c, mark, messages, outcomes) in MarksOf(c, messages, outcomes) + {mark}
  {
    if messages != [] {
      var n := |messages| - 1;
      MarkIsTheGreatest(c, mark, messages[..n], outcomes[..n]);
    }
  }

  /** A session that began where it asked to, at `from`, and has moved no mark yet; messages
      may have been appended since. */
  ghost predicate JustBegun(p: State, from: nat) {
    && KC.Increasing(p.offsets) && p.session.Some? && p.session.value.marks == {}
    && StartsAt(p.offsets, from, p.session.value.next)
    && (p.committed.Some? ==> from == p.committed.value)
    && (p.committed.None? && p.policy.Earliest? ==> from == 0)
  }

  /** Sessions begin so, under either policy, and stay so while messages arrive. */
  lemma SessionsBeginSo(c: State, start: nat, p: State, o: nat, p': State)
    requires KC.Increasing(c.offsets) && Next(c, Begin(start), p)
    requires Next(p, Append(o), p') && StartOffset(c) <= o
    ensures JustBegun(p, StartOffset(c)) && JustBegun(p', StartOffset(c))
  {
  }

  /** The partition once the claim loop is through, its mark is committed if it moved, and
      the session is over. */
  function AfterSession(c: KC.Config, p: State, from: nat, messages: seq<KC.Message>, outcomes: seq<KC.Outcome>): State
    requires p.session.Some? && |messages| == |outcomes|
  {
    var mark := KC.MarkAfter(c, from, messages, outcomes);
    p.(session := None, committed := if mark == from then p.committed else Some(mark))
  }

  function SessionLabels(c: KC.Config, p: State, from: nat, messages: seq<KC.Message>,
                         outcomes: seq<KC.Outcome>): seq<Label>
    requires p.session.Some? && |messages| == |outcomes|
  {
    var mark := KC.MarkAfter(c, from, messages, outcomes);
    ClaimLabels(c, p.session.value.next, outcomes)
    + (if mark == from then [] else [Commit(mark)])
    + [EndOrCrash]
  }

  lemma ClaimOffsets(p: State, from: nat, messages: seq<KC.Message>)
    requires JustBegun(p, from) && IsClaim(p, messages)
    ensures KC.Increasing(KC.Offsets(messages))
    ensures forall i :: 0 <= i < |messages| ==> from <= messages[i].offset
  {
    var start, offsets := p.session.value.next, KC.Offsets(messages);
    forall i, j | 0 <= i < j < |messages| ensures offsets[i] < offsets[j] {
      assert p.offsets[start + i] < p.offsets[start + j];
    }
  }

  lemma {:induction false} MarkNeverFallsBack(c: KC.Config, mark: nat,
                                              messages: seq<KC.Message>, outcomes: seq<KC.Outcome>)
    requires |messages| == |outcomes|
    ensures mark <= KC.MarkAfter(c, mark, messages, outcomes)
  {
    if messages != [] {
      MarkNeverFallsBack(c, mark, messages[..|messages| - 1], outcomes[..|messages| - 1]);
    }
  }

  /** A whole session with its commit is a path of the partition. */
  lemma SessionIsAPath(c: KC.Config, p: State, from: nat, messages: seq<KC.Message>, outcomes: seq<KC.Outcome>)
    returns (path: seq<State>)
    requires JustBegun(p, from) && IsClaim(p, messages) && |messages| == |outcomes|
    ensures IsPath(path, SessionLabels(c, p, from, messages, outcomes))
    ensures path[0] == p && path[|path| - 1] == AfterSession(c, p, from, messages, outcomes)
  {
    path := ClaimIsAPath(c, p, messages, outcomes);
    var labels := ClaimLabels(c, p.session.value.next, outcomes);
    var mark := KC.MarkAfter(c, from, messages, outcomes);
    var here := AfterClaim(c, p, messages, outcomes);
    MarkIsTheGreatest(c, from, messages, outcomes);
    MarkNeverFallsBack(c, from, messages, outcomes);
    if mark == from {
      assert labels + [] == labels;
    } else {
      var committed := here.(committed := Some(mark));
      PathSnoc(path, labels, Commit(mark), committed);
      path, labels, here := path + [committed], labels + [Commit(mark)], committed;
    }
    PathSnoc(path, labels, EndOrCrash, here.(session := None));
    path := path + [here.(session := None)];
  }

  /** The group remembers where the session was: only a first session under the default
      policy that ends without a success leaves nothing behind. */
  ghost predicate Remembers(c: KC.Config, p: State, outcomes: seq<KC.Outcome>) {
    p.committed.Some? || p.policy.Earliest? || exists j :: 0 <= j < |outcomes| && KC.Succeeded(c, outcomes[j])
  }

  lemma NextStart(c: KC.Config, p: State, from: nat, messages: seq<KC.Message>, outcomes: seq<KC.Outcome>)
    requires JustBegun(p, from) && IsClaim(p, messages) && |messages| == |outcomes|
    ensures StartOffset(AfterSession(c, p, from, messages, outcomes))
            == if Remembers(c, p, outcomes) then KC.MarkAfter(c, from, messages, outcomes) else EndOffset(p.offsets)
  {
    ClaimOffsets(p, from, messages);
    KC.MarkIsOnePastTheLastSuccess(c, from, messages, outcomes);
    var last := KC.LastSuccess(c, outcomes);
  }

  lemma MarkAtOrBelow(c: KC.Config, p: State, from: nat, messages: seq<KC.Message>, outcomes: seq<KC.Outcome>, i: nat)
    requires JustBegun(p, from) && IsClaim(p, messages) && |messages| == |outcomes| && i < |p.offsets|
    ensures var first := p.session.value.next;
            KC.MarkAfter(c, from, messages, outcomes) <= p.offsets[i] <==>
            first <= i && forall j :: i - first <= j < |outcomes| ==> !KC.Succeeded(c, outcomes[j])
  {
    var first := p.session.value.next;
    ClaimOffsets(p, from, messages);
    MarkNeverFallsBack(c, from, messages, outcomes);
    KC.MarkIsOnePastTheLastSuccess(c, from, messages, outcomes);
    if first <= i < first + |messages| {
      KC.MarkLeavesTheFailedTail(c, from, messages, outcomes, i - first);
    } else if first + |messages| <= i && messages != [] {
      assert p.offsets[first + |messages| - 1] < p.offsets[i];
    }
  }

  /** When the mark is what gets committed, the next session reads exactly the failed tail
      and whatever follows it on the partition: a message is read again, or for the first
      time, if and only if it is at or past the session's start and neither it nor any later
      one of the session succeeded. A group that remembers nothing reads none of them. */
  lemma NextSessionReadsTheFailedTail(c: KC.Config, p: State, from: nat,
                                      messages: seq<KC.Message>, outcomes: seq<KC.Outcome>,
                                      start: nat, next: State, i: nat)
    requires JustBegun(p, from) && IsClaim(p, messages) && |messages| == |outcomes|
    requires Next(AfterSession(c, p, from, messages, outcomes), Begin(start), next) && i < |p.offsets|
    ensures var first := p.session.value.next;
            start <= i <==>
            && Remembers(c, p, outcomes) && first <= i
            && forall j :: i - first <= j < |outcomes| ==> !KC.Succeeded(c, outcomes[j])
  {
    NextStart(c, p, from, messages, outcomes);
    assert start <= i <==> StartOffset(AfterSession(c, p, from, messages, outcomes)) <= p.offsets[i];
    if Remembers(c, p, outcomes) {
      MarkAtOrBelow(c, p, from, messages, outcomes, i);
    } else {
      assert p.offsets[i] < EndOffset(p.offsets);
    }
  }
}
