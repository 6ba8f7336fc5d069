/** The loop of findNewShards: its seen-set and what it sends. */
module KinesisLister {
  import opened Basics
  import opened KinesisModel

  /** What one round of the select brings: the cancellation, or a tick and its listing. */
  datatype Round = ContextDone | TickFailed | TickListed(found: seq<ShardId>)

  /** The listings up to the round that ends the loop, one after the other. */
  function Listings(rounds: seq<Round>): seq<ShardId> {
    if rounds == [] || !rounds[0].TickListed? then [] else rounds[0].found + Listings(rounds[1..])
  }

  /** The shards that were not in known, each where it is first listed. */
  function FirstSeen(known: set<ShardId>, found: seq<ShardId>): seq<ShardId>
    decreases |found|
  {
    if found == [] then []
    else if found[0] in known then FirstSeen(known, found[1..])
    else [found[0]] + FirstSeen(known + {found[0]}, found[1..])
  }

  lemma {:induction false} FirstSeenConcat(known: set<ShardId>, a: seq<ShardId>, b: seq<ShardId>)
    ensures FirstSeen(known, a + b) == FirstSeen(known, a) + FirstSeen(known + ToSet(a), b)
    decreases |a|
  {
    if a == [] {
      assert a + b == b && known + ToSet(a) == known;
    } else {
      assert (a + b)[1..] == a[1..] + b;
      assert ToSet(a) == {a[0]} + ToSet(a[1..]);
      if a[0] in known {
        FirstSeenConcat(known, a[1..], b);
        assert known + ToSet(a[1..]) == known + ToSet(a);
      } else {
        FirstSeenConcat(known + {a[0]}, a[1..], b);
        assert (known + {a[0]}) + ToSet(a[1..]) == known + ToSet(a);
        assert [a[0]] + (FirstSeen(known + {a[0]}, a[1..]) + FirstSeen(known + ToSet(a), b))
            == ([a[0]] + FirstSeen(known + {a[0]}, a[1..])) + FirstSeen(known + ToSet(a), b);
      }
    }
  }

  /** Every listed shard that was not known is there exactly once, and nothing else is. */
  lemma {:induction false} FirstSeenIsEachNewShardOnce(known: set<ShardId>, found: seq<ShardId>)
    ensures NoDuplicates(FirstSeen(known, found))
    ensures ToSet(FirstSeen(known, found)) == ToSet(found) - known
    decreases |found|
  {
    var r := FirstSeen(known, found);
    if found != [] {
      var rest := found[1..];
      assert ToSet(found) == {found[0]} + ToSet(rest);
      if found[0] in known {
        FirstSeenIsEachNewShardOnce(known, rest);
      } else {
        FirstSeenIsEachNewShardOnce(known + {found[0]}, rest);
        var tail := FirstSeen(known + {found[0]}, rest);
        assert found[0] !in ToSet(tail);
        assert forall i :: 0 <= i < |tail| ==> tail[i] in ToSet(tail);
        assert ToSet(r) == {found[0]} + ToSet(tail);
      }
    }
  }

  lemma OneMoreListing(rounds: seq<Round>, n: nat, listed: seq<ShardId>)
    requires n < |rounds| && rounds[n].TickListed?
    ensures listed + Listings(rounds[n..]) == listed + rounds[n].found + Listings(rounds[n + 1..])
  {
    assert rounds[n..][1..] == rounds[n + 1..];
    assert Listings(rounds[n..]) == rounds[n].found + Listings(rounds[n + 1..]);
  }

  lemma FirstSeenAfter(listed: seq<ShardId>, found: seq<ShardId>)
    ensures ToSet(listed + found) == ToSet(listed) + ToSet(found)
    ensures FirstSeen({}, listed + found) == FirstSeen({}, listed) + FirstSeen(ToSet(listed), found)
  {
    FirstSeenConcat({}, listed, found);
    assert {} + ToSet(listed) == ToSet(listed);
  }

  /** Where a shard is first listed. */
  function FirstAt(found: seq<ShardId>, s: ShardId): (at: nat)
    requires s in found
    ensures at < |found| && found[at] == s
    ensures forall k :: 0 <= k < at ==> found[k] != s
  {
    if found[0] == s then 0
    else
      var rest := FirstAt(found[1..], s);
      assert forall k :: 0 < k <= rest ==> found[k] == found[1..][k - 1] && found[1..][k - 1] != s;
      1 + rest
  }

  /** The new shards keep the order in which they are first listed. */
  lemma {:induction false} FirstSeenKeepsOrder(known: set<ShardId>, found: seq<ShardId>, i: nat, j: nat)
    requires i < j < |FirstSeen(known, found)|
    ensures var r := FirstSeen(known, found);
            r[i] in found && r[j] in found && FirstAt(found, r[i]) < FirstAt(found, r[j])
    decreases |found|
  {
    var r := FirstSeen(known, found);
    FirstSeenIsEachNewShardOnce(known, found);
    assert r[i] in ToSet(r) && r[j] in ToSet(r) && r[i] != r[j];
    if found[0] in known {
      FirstSeenKeepsOrder(known, found[1..], i, j);
    } else if i > 0 {
      var tail := FirstSeen(known + {found[0]}, found[1..]);
      FirstSeenKeepsOrder(known + {found[0]}, found[1..], i - 1, j - 1);
      assert r[0] == found[0] && r[0] != r[i] && r[0] != r[j];
      assert r[i] == tail[i - 1] && r[j] == tail[j - 1];
    }
  }

  class Lister {
    var seen: set<ShardId>
    var sent: seq<ShardId>

    constructor ()
      ensures seen == {} && sent == []
    {
      seen, sent := {}, [];
    }

    /** The range over one listing: LoadOrStore, then the send if the shard was new. */
    method ScanListing(found: seq<ShardId>)
      modifies this
      ensures seen == old(seen) + ToSet(found)
      ensures sent == old(sent) + FirstSeen(old(seen), found)
    {
      var i := 0;
      while i < |found|
        invariant 0 <= i <= |found|
        invariant seen == old(seen) + ToSet(found[..i])
        invariant sent == old(sent) + FirstSeen(old(seen), found[..i])
      {
        var s := found[i];
        assert found[..i + 1] == found[..i] + [s];
        FirstSeenConcat(old(seen), found[..i], [s]);
        assert ToSet(found[..i + 1]) == ToSet(found[..i]) + {s};
        var loaded := s in seen;
        seen := seen + {s};
        if !loaded {
          sent := sent + [s];
        }
        i := i + 1;
      }
      assert found[..i] == found;
    }

    /** However often and in whatever order listings name a shard, it is sent once. */
    method FindNewShards(rounds: seq<Round>)
      requires seen == {} && sent == []
      modifies this
      ensures sent == FirstSeen({}, Listings(rounds)) && seen == ToSet(Listings(rounds))
      ensures NoDuplicates(sent) && ToSet(sent) == ToSet(Listings(rounds))
    {
      var n := 0;
      ghost var listed: seq<ShardId> := [];
      while n < |rounds| && rounds[n].TickListed?
        invariant 0 <= n <= |rounds|
        invariant Listings(rounds) == listed + Listings(rounds[n..])
        invariant seen == ToSet(listed) && sent == FirstSeen({}, listed)
      {
        OneMoreListing(rounds, n, listed);
        FirstSeenAfter(listed, rounds[n].found);
        ScanListing(rounds[n].found);
        listed := listed + rounds[n].found;
        n := n + 1;
      }
      assert Listings(rounds[n..]) == [];
      assert listed + [] == listed;
      FirstSeenIsEachNewShardOnce({}, Listings(rounds));
    }
  }
}
