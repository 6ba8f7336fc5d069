/** Request headers: net/http's canonical field names and the copying loop of the retry helper. */
module Headers {
  import opened Basics

  type Header = map<string, seq<string>>

  /** The characters allowed in a field name (section 5.6.2 of RFC 9110). */
  predicate IsTokenChar(c: char) {
    'a' <= c <= 'z' || 'A' <= c <= 'Z' || '0' <= c <= '9' || c in "!#$%&'*+-.^_`|~"
  }

  predicate IsToken(s: string) {
    forall c :: c in s ==> IsTokenChar(c)
  }

  function UpperChar(c: char): char {
    if 'a' <= c <= 'z' then (c as int - 32) as char else c
  }

  function LowerChar(c: char): char {
    if 'A' <= c <= 'Z' then (c as int + 32) as char else c
  }

  function Lower(s: string): string {
    seq(|s|, i requires 0 <= i < |s| => LowerChar(s[i]))
  }

  /** Upper case at the start and after each hyphen, lower case elsewhere. */
  function CapitalisedAt(s: string, i: nat): char
    requires i < |s|
  {
    if i == 0 || s[i - 1] == '-' then UpperChar(s[i]) else LowerChar(s[i])
  }

  function Capitalised(s: string): string {
    seq(|s|, i requires 0 <= i < |s| => CapitalisedAt(s, i))
  }

  /** A name with a character that no field name may contain is left as it is. */
  function Canonical(s: string): string {
    if IsToken(s) then Capitalised(s) else s
  }

  lemma CapitalisedKeepsLower(s: string)
    ensures Lower(Capitalised(s)) == Lower(s)
  {
  }

  lemma CapitalisedKeepsToken(s: string)
    requires IsToken(s)
    ensures IsToken(Capitalised(s))
  {
    var t := Capitalised(s);
    forall i | 0 <= i < |t| ensures IsTokenChar(t[i]) {
      assert s[i] in s;
    }
  }

  /** Equal up to case means equal canonical names, one position at a time. */
  lemma LowerFixesCapitalised(a: string, b: string)
    requires Lower(a) == Lower(b)
    ensures Capitalised(a) == Capitalised(b)
  {
    assert |a| == |Lower(a)| == |Lower(b)| == |b|;
    forall i | 0 <= i < |a| ensures Capitalised(a)[i] == Capitalised(b)[i] {
      assert Lower(a)[i] == Lower(b)[i];
      if i > 0 {
        assert Lower(a)[i - 1] == Lower(b)[i - 1];
      }
    }
  }

  /** Two field names share a header line exactly when they differ only in case
      (section 5.1 of RFC 9110); a name that is no token only equals itself. */
  lemma CanonicalIsCaseInsensitive(a: string, b: string)
    ensures Canonical(a) == Canonical(b) <==>
            (a == b || (IsToken(a) && IsToken(b) && Lower(a) == Lower(b)))
  {
    if IsToken(a) {
      CapitalisedKeepsToken(a);
      CapitalisedKeepsLower(a);
    }
    if IsToken(b) {
      CapitalisedKeepsToken(b);
      CapitalisedKeepsLower(b);
    }
    if IsToken(a) && IsToken(b) && Lower(a) == Lower(b) {
      LowerFixesCapitalised(a, b);
    }
  }

  /** The values filed under a name; none when the name is absent. */
  function Values(h: Header, name: string): seq<string> {
    if name in h then h[name] else []
  }

  /** Header.Add of one value. */
  function Added(h: Header, key: string, val: string): Header {
    h[Canonical(key) := Values(h, Canonical(key)) + [val]]
  }

  /** Header.Set: the value replaces what is filed under the canonical name. */
  function SetTo(h: Header, key: string, val: string): Header {
    h[Canonical(key) := [val]]
  }

  /** Header.Add of a whole value list, in list order. */
  function AddedAll(h: Header, key: string, vals: seq<string>): Header {
    if vals == [] then h else h[Canonical(key) := Values(h, Canonical(key)) + vals]
  }

  /** The request header built by visiting the source keys in the given order. */
  function Collected(src: Header, order: seq<string>): Header {
    if order == [] then map[]
    else
      var n := |order| - 1;
      AddedAll(Collected(src, order[..n]), order[n], Values(src, order[n]))
  }

  ghost predicate IsOrderOf(order: seq<string>, keys: set<string>) {
    NoDuplicates(order) && ToSet(order) == keys
  }

  /** h is the copy of src that some iteration order of the source map produces. */
  ghost predicate CopyOf(h: Header, src: Header) {
    exists order :: IsOrderOf(order, src.Keys) && h == Collected(src, order)
  }

  lemma AddedOneMore(h: Header, key: string, vals: seq<string>, i: nat)
    requires i < |vals|
    ensures Added(AddedAll(h, key, vals[..i]), key, vals[i]) == AddedAll(h, key, vals[..i + 1])
  {
    var name := Canonical(key);
    var filed := Values(h, name);
    assert vals[..i + 1] == vals[..i] + [vals[i]];
    assert Values(AddedAll(h, key, vals[..i]), name) == filed + vals[..i];
    assert filed + vals[..i] + [vals[i]] == filed + vals[..i + 1];
    assert Added(AddedAll(h, key, vals[..i]), key, vals[i]) == h[name := filed + vals[..i + 1]];
  }

  /** The inner range: one key's values, in order. */
  method AddValues(before: Header, key: string, vals: seq<string>) returns (h: Header)
    ensures h == AddedAll(before, key, vals)
  {
    h := before;
    var i := 0;
    while i < |vals|
      invariant 0 <= i <= |vals|
      invariant h == AddedAll(before, key, vals[..i])
    {
      AddedOneMore(before, key, vals, i);
      h := Added(h, key, vals[i]);
      i := i + 1;
    }
    assert vals[..i] == vals;
  }

  lemma OrderSnoc(order: seq<string>, keys: set<string>, key: string)
    requires IsOrderOf(order, keys) && key !in keys
    ensures IsOrderOf(order + [key], keys + {key})
  {
    assert key !in ToSet(order);
    NoDuplicatesSnoc(order, key);
  }

  /** The copying loop of the retry helper: Go's map iteration order is free. */
  method CopyHeaders(src: Header) returns (h: Header)
    ensures CopyOf(h, src)
  {
    h := map[];
    var remaining := src.Keys;
    ghost var order: seq<string> := [];
    while remaining != {}
      invariant remaining <= src.Keys
      invariant IsOrderOf(order, src.Keys - remaining)
      invariant h == Collected(src, order)
      decreases remaining
    {
      var key :| key in remaining;
      h := AddValues(h, key, src[key]);
      OrderSnoc(order, src.Keys - remaining, key);
      assert (order + [key])[..|order|] == order;
      assert src.Keys - remaining + {key} == src.Keys - (remaining - {key});
      order := order + [key];
      remaining := remaining - {key};
    }
    assert src.Keys - remaining == src.Keys;
  }

  /** What one source key contributes to a canonical name. */
  function Contribution(src: Header, key: string, name: string): seq<string> {
    if Canonical(key) == name then Values(src, key) else []
  }

  lemma CollectedLast(src: Header, order: seq<string>, name: string)
    requires order != []
    ensures Values(Collected(src, order), name)
            == Values(Collected(src, order[..|order| - 1]), name)
               + Contribution(src, order[|order| - 1], name)
  {
  }

  /** What the source holds under a canonical name: the values of every one of these keys
      that has that name. */
  ghost function Sum(src: Header, keys: set<string>, name: string): multiset<string>
    decreases keys
  {
    if keys == {} then multiset{}
    else
      var k :| k in keys;
      multiset(Contribution(src, k, name)) + Sum(src, keys - {k}, name)
  }

  /** Any key may be taken out first. */
  lemma {:induction false} SumTakesAnyKey(src: Header, keys: set<string>, name: string, key: string)
    requires key in keys
    ensures Sum(src, keys, name) == multiset(Contribution(src, key, name)) + Sum(src, keys - {key}, name)
    decreases keys
  {
    var k :| k in keys && Sum(src, keys, name) == multiset(Contribution(src, k, name)) + Sum(src, keys - {k}, name);
    if k != key {
      SumTakesAnyKey(src, keys - {k}, name, key);
      SumTakesAnyKey(src, keys - {key}, name, k);
      assert keys - {k} - {key} == keys - {key} - {k};
    }
  }

  lemma LastOfSet(order: seq<string>)
    requires NoDuplicates(order) && order != []
    ensures order[|order| - 1] in ToSet(order)
    ensures ToSet(order) - {order[|order| - 1]} == ToSet(order[..|order| - 1])
  {
    var n := |order| - 1;
    assert order == order[..n] + [order[n]];
    NoDuplicatesSnoc(order[..n], order[n]);
  }

  lemma {:induction false} CollectedIsTheSum(src: Header, order: seq<string>, name: string)
    requires NoDuplicates(order)
    ensures multiset(Values(Collected(src, order), name)) == Sum(src, ToSet(order), name)
  {
    if order == [] {
      assert ToSet(order) == {};
    } else {
      var n := |order| - 1;
      CollectedIsTheSum(src, order[..n], name);
      CollectedLast(src, order, name);
      LastOfSet(order);
      SumTakesAnyKey(src, ToSet(order), name, order[n]);
    }
  }

  /** Whatever order a retry's map iteration takes, it carries under every canonical name
      exactly the values of the source keys of that name; so all retries agree. */
  lemma RetriesCarrySameValues(src: Header, h1: Header, h2: Header, name: string)
    requires CopyOf(h1, src) && CopyOf(h2, src)
    ensures multiset(Values(h1, name)) == multiset(Values(h2, name)) == Sum(src, src.Keys, name)
  {
    var o1 :| IsOrderOf(o1, src.Keys) && h1 == Collected(src, o1);
    var o2 :| IsOrderOf(o2, src.Keys) && h2 == Collected(src, o2);
    CollectedIsTheSum(src, o1, name);
    CollectedIsTheSum(src, o2, name);
  }

  ghost predicate BlockAt(s: seq<string>, block: seq<string>, at: nat) {
    at + |block| <= |s| && s[at..at + |block|] == block
  }

  lemma BlockStays(s: seq<string>, more: seq<string>, block: seq<string>, at: nat)
    requires BlockAt(s, block, at)
    ensures BlockAt(s + more, block, at)
  {
    assert (s + more)[at..at + |block|] == s[at..at + |block|];
  }

  lemma BlockAtEnd(s: seq<string>, block: seq<string>)
    ensures BlockAt(s + block, block, |s|)
  {
    assert (s + block)[|s|..|s| + |block|] == block;
  }

  lemma {:induction false} BlockInOrder(src: Header, order: seq<string>, key: string) returns (at: nat)
    requires key in order && key in src
    ensures BlockAt(Values(Collected(src, order), Canonical(key)), src[key], at)
    ensures at + |src[key]| <= |Values(Collected(src, order), Canonical(key))|
  {
    var n := |order| - 1;
    var name := Canonical(key);
    CollectedLast(src, order, name);
    var before := Values(Collected(src, order[..n]), name);
    if order[n] == key {
      at := |before|;
      BlockAtEnd(before, src[key]);
    } else {
      assert key in order[..n];
      at := BlockInOrder(src, order[..n], key);
      BlockStays(before, Contribution(src, order[n], name), src[key], at);
    }
  }

  /** Each source key's values stay together and in their own order. */
  lemma SourceValuesStayInOneBlock(src: Header, h: Header, key: string)
    requires CopyOf(h, src) && key in src
    ensures exists at :: BlockAt(Values(h, Canonical(key)), src[key], at)
  {
    var order :| IsOrderOf(order, src.Keys) && h == Collected(src, order);
    assert key in ToSet(order);
    var at := BlockInOrder(src, order, key);
  }

  ghost predicate DistinctNames(src: Header) {
    forall a, b :: a in src && b in src && Canonical(a) == Canonical(b) ==> a == b
  }

  /** No other source key shares this key's line. */
  ghost predicate OnlyKey(src: Header, key: string) {
    key in src && forall k :: k in src && Canonical(k) == Canonical(key) ==> k == key
  }

  lemma {:induction false} ValuesOfOnlyKey(src: Header, order: seq<string>, key: string)
    requires NoDuplicates(order) && (forall k :: k in order ==> k in src) && OnlyKey(src, key)
    ensures Values(Collected(src, order), Canonical(key)) == if key in order then src[key] else []
  {
    if order != [] {
      var n := |order| - 1;
      CollectedLast(src, order, Canonical(key));
      ValuesOfOnlyKey(src, order[..n], key);
    }
  }

  lemma OnlyKeyFixesTheValues(src: Header, h: Header, key: string)
    requires CopyOf(h, src) && OnlyKey(src, key)
    ensures Values(h, Canonical(key)) == src[key]
  {
    var order :| IsOrderOf(order, src.Keys) && h == Collected(src, order);
    forall k | k in order ensures k in src {
      assert k in ToSet(order);
    }
    ValuesOfOnlyKey(src, order, key);
    assert key in ToSet(order);
  }

  /** When no two source keys differ only in case, each name's value list is fixed
      whatever the iteration order. */
  lemma DistinctNamesFixTheOrder(src: Header, h: Header, key: string)
    requires CopyOf(h, src) && DistinctNames(src) && key in src
    ensures Values(h, Canonical(key)) == src[key]
  {
    OnlyKeyFixesTheValues(src, h, key);
  }
}
