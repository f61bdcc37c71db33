/**
  The bounded agent cache of src/agent/executor.py: an ordered dictionary in which a hit moves its
  entry to the end, a miss appends one, and the first entry goes when there are too many.

  It is proved to be a least-recently-used cache. The specification looks at the history of
  successful requests alone: `Recency` lists the distinct keys by their last use, and the cache holds
  the last `capacity` of them.
*/
module AgentCache {
  import opened Wrappers
  import opened ChatModels

  const MAX_CACHED_AGENTS := 128

  datatype Key = Key(provider: string, model: string, apiKey: Option<string>, baseUrl: Option<string>)

  function Build(key: Key): Result<ChatModel, string>
  {
    BuildChatModel(key.provider, key.model, key.apiKey, key.baseUrl)
  }

  /** The settings that make an agent: a supported provider, with a base URL where it is self-hosted. */
  predicate Buildable(key: Key)
  {
    || key.provider == "openai" || key.provider == "openrouter"
    || key.provider == "anthropic" || key.provider == "google"
    || (key.provider == "openai_compatible" && Truthy(key.baseUrl))
  }

  /** The client of the key's provider, with the key's own model, API key and base URL. */
  ghost predicate IsClientOf(key: Key, model: ChatModel)
  {
    if key.provider == "openai" then model == OpenAI(key.model, key.apiKey, None)
    else if key.provider == "openrouter" then model == OpenRouter(key.model, key.apiKey)
    else if key.provider == "anthropic" then model == Anthropic(key.model, key.apiKey)
    else if key.provider == "google" then model == Gemini(key.model, key.apiKey)
    else
      && key.provider == "openai_compatible" && Truthy(key.baseUrl)
      && model == OpenAI(
           if key.model == "" then "local-model" else key.model,
           if Truthy(key.apiKey) then key.apiKey else Some("no-key"),
           key.baseUrl)
  }

  lemma BuildsOwnClient(key: Key)
    ensures Build(key).Success? <==> Buildable(key)
    ensures Build(key).Success? ==> IsClientOf(key, Build(key).value)
  {
  }

  // `instance` tells agents apart that were built at different times from equal settings.
  datatype Agent = Agent(model: ChatModel, instance: nat)

  datatype Entry = Entry(key: Key, agent: Agent)

  // ---------------------------------------------------------------- the specification

  function Without<T(==)>(s: seq<T>, x: T): seq<T>
  {
    if s == [] then [] else (if s[0] == x then [] else [s[0]]) + Without(s[1..], x)
  }

  /** The distinct elements of a history, ordered by their last occurrence. */
  function Recency<T(==)>(h: seq<T>): seq<T>
  {
    if h == [] then [] else Without(Recency(h[..|h| - 1]), h[|h| - 1]) + [h[|h| - 1]]
  }

  function Latest<T>(s: seq<T>, n: nat): seq<T>
  {
    if |s| <= n then s else s[|s| - n..]
  }

  ghost predicate Distinct<T>(s: seq<T>)
  {
    forall i, j :: 0 <= i < j < |s| ==> s[i] != s[j]
  }

  /** `x` was last used at position `p`. */
  ghost predicate LastUse<T>(h: seq<T>, x: T, p: nat)
  {
    p < |h| && h[p] == x && forall i :: p < i < |h| ==> h[i] != x
  }

  ghost function Elements<T>(s: seq<T>): set<T> { set x | x in s }

  /** `x` was used, and fewer than `n` distinct others since. */
  ghost predicate RecentlyUsed<T>(h: seq<T>, x: T, n: nat)
  {
    exists p: nat :: LastUse(h, x, p) && |Elements(h[p + 1..])| < n
  }

  // ---------------------------------------------------------------- lemmas on Without

  lemma {:induction false} WithoutElements<T>(s: seq<T>, x: T)
    ensures forall y :: y in Without(s, x) <==> y in s && y != x
  {
    if s != [] { WithoutElements(s[1..], x); }
  }

  lemma {:induction false} WithoutAbsent<T>(s: seq<T>, x: T)
    requires x !in s
    ensures Without(s, x) == s
  {
    if s != [] { WithoutAbsent(s[1..], x); }
  }

  /** In a list without duplicates, removal takes out one element and keeps the order of the others. */
  lemma {:induction false} WithoutAt<T>(s: seq<T>, i: nat)
    requires i < |s| && Distinct(s)
    ensures Without(s, s[i]) == s[..i] + s[i + 1..]
  {
    if i == 0 {
      WithoutAbsent(s[1..], s[0]);
    } else {
      WithoutAt(s[1..], i - 1);
      assert s[1..][..i - 1] == s[1..i] && s[1..][i..] == s[i + 1..];
      assert s[..i] == [s[0]] + s[1..i];
    }
  }

  // ---------------------------------------------------------------- Recency is what it should be

  /** Moving an element to the end of a list without duplicates, or adding it there, leaves no duplicates. */
  lemma MovedIsDistinct<T>(r: seq<T>, x: T)
    requires Distinct(r)
    ensures Distinct(Without(r, x) + [x])
    ensures forall y :: y in Without(r, x) + [x] <==> y in r || y == x
  {
    WithoutElements(r, x);
    if x in r {
      var i :| 0 <= i < |r| && r[i] == x;
      WithoutAt(r, i);
    } else {
      WithoutAbsent(r, x);
    }
  }

  lemma {:induction false} RecencyIsDistinct<T>(h: seq<T>)
    ensures Distinct(Recency(h))
    ensures forall x :: x in Recency(h) <==> x in h
  {
    if h != [] {
      var front, x := h[..|h| - 1], h[|h| - 1];
      RecencyIsDistinct(front);
      MovedIsDistinct(Recency(front), x);
      assert h == front + [x];
    }
  }

  /** Keys stand in the order of their last use. */
  lemma {:induction false} RecencyIsOrdered<T>(h: seq<T>, i: nat, j: nat, p: nat, q: nat)
    requires i < j < |Recency(h)| && LastUse(h, Recency(h)[i], p) && LastUse(h, Recency(h)[j], q)
    ensures p < q
  {
    var front, x := h[..|h| - 1], h[|h| - 1];
    var r, s := Recency(h), Recency(front);
    RecencyIsDistinct(front);
    RecencyIsDistinct(h);
    assert r[|r| - 1] == x;
    if j == |r| - 1 {
      assert LastUse(h, x, |h| - 1);
      assert p != |h| - 1;
    } else {
      assert p < |h| - 1 && q < |h| - 1;
      assert LastUse(front, r[i], p) && LastUse(front, r[j], q);
      if x in s {
        var k :| 0 <= k < |s| && s[k] == x;
        WithoutAt(s, k);
        var i', j' := if i < k then i else i + 1, if j < k then j else j + 1;
        assert s[i'] == r[i] && s[j'] == r[j];
        RecencyIsOrdered(front, i', j', p, q);
      } else {
        WithoutAbsent(s, x);
        RecencyIsOrdered(front, i, j, p, q);
      }
    }
  }

  lemma {:induction false} HasLastUse<T>(h: seq<T>, x: T) returns (p: nat)
    requires x in h
    ensures LastUse(h, x, p)
  {
    if h[|h| - 1] == x {
      p := |h| - 1;
    } else {
      p := HasLastUse(h[..|h| - 1], x);
    }
  }

  lemma {:induction false} DistinctCount<T>(s: seq<T>)
    requires Distinct(s)
    ensures |Elements(s)| == |s|
  {
    if s != [] {
      DistinctCount(s[1..]);
      assert Elements(s) == {s[0]} + Elements(s[1..]);
    }
  }

  /** The keys behind a key in the recency list are those used since its last use. */
  lemma BehindInRecency<T>(h: seq<T>, i: nat, p: nat)
    requires i < |Recency(h)| && LastUse(h, Recency(h)[i], p)
    ensures Elements(Recency(h)[i + 1..]) == Elements(h[p + 1..])
  {
    var r := Recency(h);
    var behind, since := Elements(r[i + 1..]), Elements(h[p + 1..]);
    RecencyIsDistinct(h);
    forall x | x in behind
      ensures x in since
    {
      assert x in r && x in h;
      var j :| i < j < |r| && r[j] == x;
      var q := HasLastUse(h, x);
      RecencyIsOrdered(h, i, j, p, q);
      assert h[p + 1..][q - p - 1] == x;
    }
    forall x | x in since
      ensures x in behind
    {
      var k :| p < k < |h| && h[k] == x;
      assert x in h && x in r;
      var q := HasLastUse(h, x);
      var j :| 0 <= j < |r| && r[j] == x;
      assert q >= k;
      if j < i { RecencyIsOrdered(h, j, i, q, p); }
      assert r[i + 1..][j - i - 1] == x;
    }
  }

  /** Among the last `n` by recency are exactly the keys with fewer than `n` distinct others since. */
  lemma LatestIsRecentlyUsed<T>(h: seq<T>, x: T, n: nat)
    ensures x in Latest(Recency(h), n) <==> RecentlyUsed(h, x, n)
  {
    var r := Recency(h);
    RecencyIsDistinct(h);
    if x in h {
      var p := HasLastUse(h, x);
      var i :| 0 <= i < |r| && r[i] == x;
      BehindInRecency(h, i, p);
      DistinctCount(r[i + 1..]);
      assert |Elements(h[p + 1..])| == |r| - i - 1;
      assert forall q: nat :: LastUse(h, x, q) ==> q == p;
      InLatest(r, i, n);
    }
  }

  lemma InLatest<T>(r: seq<T>, i: nat, n: nat)
    requires Distinct(r) && i < |r|
    ensures r[i] in Latest(r, n) <==> i >= |r| - n
  {
    if |r| > n && i >= |r| - n {
      assert r[|r| - n..][i - (|r| - n)] == r[i];
    }
  }

  // ---------------------------------------------------------------- one use

  lemma DropMoved<T>(r: seq<T>, k: nat, j: nat, x: T)
    requires k <= j < |r|
    ensures (r[..j] + r[j + 1..] + [x])[k..] == r[k..][..j - k] + r[k..][j - k + 1..] + [x]
  {
  }

  lemma DropShifted<T>(r: seq<T>, k: nat, i: nat, x: T)
    requires i < k <= |r|
    ensures (r[..i] + r[i + 1..] + [x])[k..] == (r[k..] + [x])[1..]
  {
  }

  lemma RecencyAppend<T>(h: seq<T>, x: T)
    ensures Recency(h + [x]) == Without(Recency(h), x) + [x]
  {
    assert (h + [x])[..|h|] == h;
  }

  lemma LatestOfMovedHit<T>(r: seq<T>, i: nat, n: nat)
    requires Distinct(r) && i < |Latest(r, n)|
    ensures var l := Latest(r, n); Latest(Without(r, l[i]) + [l[i]], n) == l[..i] + l[i + 1..] + [l[i]]
  {
    var l := Latest(r, n);
    var j := |r| - |l| + i;
    assert r[j] == l[i];
    WithoutAt(r, j);
    LatestOfMoved(r, l, i, n);
  }

  lemma LatestOfMoved<T>(r: seq<T>, l: seq<T>, i: nat, n: nat)
    requires l == Latest(r, n) && i < |l| <= |r|
    ensures var j := |r| - |l| + i; Latest(r[..j] + r[j + 1..] + [l[i]], n) == l[..i] + l[i + 1..] + [l[i]]
  {
    var j := |r| - |l| + i;
    var moved := r[..j] + r[j + 1..] + [l[i]];
    LatestFrom(r, n);
    LatestFrom(moved, n);
    DropMoved(r, |r| - |l|, j, l[i]);
  }

  lemma LatestFrom<T>(s: seq<T>, n: nat)
    ensures |Latest(s, n)| == if |s| <= n then |s| else n
    ensures Latest(s, n) == s[|s| - |Latest(s, n)|..]
  {
  }

  lemma LatestOfMovedMiss<T>(r: seq<T>, x: T, n: nat)
    requires Distinct(r) && n >= 1 && x !in Latest(r, n)
    ensures var l := Latest(r, n) + [x];
      Latest(Without(r, x) + [x], n) == if |l| > n then l[1..] else l
  {
    if x in r {
      var i := PositionBefore(r, x, n);
      WithoutAt(r, i);
      LatestOfShifted(r, i, x, n);
    } else {
      WithoutAbsent(r, x);
      LatestOfAppended(r, x, n);
    }
  }

  lemma LatestOfShifted<T>(r: seq<T>, i: nat, x: T, n: nat)
    requires n >= 1 && |r| > n && i < |r| - n
    ensures var l := Latest(r, n) + [x]; |l| > n && Latest(r[..i] + r[i + 1..] + [x], n) == l[1..]
  {
    DropShifted(r, |r| - n, i, x);
  }

  lemma LatestOfAppended<T>(r: seq<T>, x: T, n: nat)
    requires n >= 1
    ensures var l := Latest(r, n) + [x]; Latest(r + [x], n) == if |l| > n then l[1..] else l
  {
  }

  /** An element that is not among the last `n` stands before them. */
  lemma PositionBefore<T>(r: seq<T>, x: T, n: nat) returns (i: nat)
    requires x in r && x !in Latest(r, n)
    ensures |r| > n && i < |r| - n && r[i] == x
  {
    i :| 0 <= i < |r| && r[i] == x;
    assert |r| > n;
    assert forall j :: |r| - n <= j < |r| ==> r[j] == r[|r| - n..][j - (|r| - n)];
  }

  /** A hit moves the key to the end and drops none. */
  lemma LatestAfterHit<T>(h: seq<T>, i: nat, n: nat)
    requires i < |Latest(Recency(h), n)|
    ensures var l := Latest(Recency(h), n);
      Latest(Recency(h + [l[i]]), n) == l[..i] + l[i + 1..] + [l[i]]
  {
    RecencyIsDistinct(h);
    RecencyAppend(h, Latest(Recency(h), n)[i]);
    LatestOfMovedHit(Recency(h), i, n);
  }

  /** A miss appends the key and drops the first one if there are too many. */
  lemma LatestAfterMiss<T>(h: seq<T>, x: T, n: nat)
    requires n >= 1 && x !in Latest(Recency(h), n)
    ensures Latest(Recency(h + [x]), n) ==
      var l := Latest(Recency(h), n) + [x];
      if |l| > n then l[1..] else l
  {
    RecencyIsDistinct(h);
    RecencyAppend(h, x);
    LatestOfMovedMiss(Recency(h), x, n);
  }

  // ---------------------------------------------------------------- the cache

  function Keys(entries: seq<Entry>): seq<Key>
  {
    seq(|entries|, i requires 0 <= i < |entries| => entries[i].key)
  }

  lemma KeysConcat(s: seq<Entry>, t: seq<Entry>)
    ensures Keys(s + t) == Keys(s) + Keys(t)
  {
  }

  lemma KeysSlice(s: seq<Entry>, i: nat, j: nat)
    requires i <= j <= |s|
    ensures Keys(s[i..j]) == Keys(s)[i..j]
  {
  }

  /** Every agent was built from the key it is stored under, as one of the first `built`. */
  ghost predicate OwnAgents(entries: seq<Entry>, built: nat)
  {
    forall e :: e in entries ==> IsClientOf(e.key, e.agent.model) && e.agent.instance < built
  }

  lemma OwnAgentsAppend(entries: seq<Entry>, built: nat, entry: Entry)
    requires OwnAgents(entries, built)
    requires IsClientOf(entry.key, entry.agent.model) && entry.agent.instance == built
    ensures OwnAgents(entries + [entry], built + 1)
  {
  }

  lemma OwnAgentsSlice(entries: seq<Entry>, built: nat)
    requires OwnAgents(entries, built) && entries != []
    ensures OwnAgents(entries[1..], built)
  {
  }

  /** The entries of a cache of this capacity after a history of requests. */
  ghost predicate Holds(entries: seq<Entry>, built: nat, history: seq<Key>, capacity: nat)
  {
    Keys(entries) == Latest(Recency(history), capacity) && OwnAgents(entries, built)
  }

  lemma KeysMoved(entries: seq<Entry>, i: nat)
    requires i < |entries|
    ensures Keys(entries[..i] + entries[i + 1..] + [entries[i]]) ==
      Keys(entries)[..i] + Keys(entries)[i + 1..] + [Keys(entries)[i]]
  {
    KeysSlice(entries, 0, i);
    KeysSlice(entries, i + 1, |entries|);
    KeysConcat(entries[..i], entries[i + 1..]);
    KeysConcat(entries[..i] + entries[i + 1..], [entries[i]]);
  }

  lemma HoldsMoved(entries: seq<Entry>, i: nat, built: nat, history: seq<Key>, capacity: nat)
    requires Holds(entries, built, history, capacity) && i < |entries|
    ensures Holds(entries[..i] + entries[i + 1..] + [entries[i]], built, history + [entries[i].key], capacity)
  {
    KeysMoved(entries, i);
    LatestAfterHit(history, i, capacity);
  }

  function Appended(entries: seq<Entry>, entry: Entry, capacity: nat): seq<Entry>
  {
    if |entries| + 1 > capacity then (entries + [entry])[1..] else entries + [entry]
  }

  lemma AppendedHas(entries: seq<Entry>, entry: Entry, capacity: nat)
    requires capacity >= 1
    ensures entry in Appended(entries, entry, capacity)
    ensures forall e :: e in Appended(entries, entry, capacity) ==> e in entries || e == entry
  {
    var r := Appended(entries, entry, capacity);
    assert r[|r| - 1] == entry;
  }

  lemma HoldsAppended(entries: seq<Entry>, entry: Entry, built: nat, history: seq<Key>, capacity: nat)
    requires Holds(entries, built, history, capacity) && capacity >= 1
    requires entry.key !in Keys(entries)
    requires IsClientOf(entry.key, entry.agent.model) && entry.agent.instance == built
    ensures Holds(Appended(entries, entry, capacity), built + 1, history + [entry.key], capacity)
  {
    LatestAfterMiss(history, entry.key, capacity);
    KeysAppended(entries, entry, capacity);
    OwnAgentsAppend(entries, built, entry);
    OwnAgentsSlice(entries + [entry], built + 1);
  }

  lemma KeysAppended(entries: seq<Entry>, entry: Entry, capacity: nat)
    requires capacity >= 1
    ensures var keys := Keys(entries) + [entry.key];
      Keys(Appended(entries, entry, capacity)) == if |keys| > capacity then keys[1..] else keys
  {
    KeysConcat(entries, [entry]);
    assert Keys([entry]) == [entry.key];
    KeysSlice(entries + [entry], 1, |entries| + 1);
  }

  class Cache {
    const capacity: nat
    var entries: seq<Entry>
    var built: nat
    // The keys requested successfully, oldest first.
    ghost var history: seq<Key>

    constructor (capacity: nat := MAX_CACHED_AGENTS)
      requires capacity >= 1
      ensures Valid() && this.capacity == capacity && history == [] && entries == []
    {
      this.capacity := capacity;
      entries, built, history := [], 0, [];
      new;
      assert Keys(entries) == [];
    }

    /** The keys are those of an LRU cache, and every agent was built from its own key, once. */
    ghost predicate Valid()
      reads this
    {
      capacity >= 1 && Holds(entries, built, history, capacity)
    }

    /** `move_to_end`. */
    method MoveToEnd(i: nat)
      requires Valid() && i < |entries|
      modifies this
      ensures Valid() && history == old(history) + [old(entries)[i].key]
      ensures entries == old(entries)[..i] + old(entries)[i + 1..] + [old(entries)[i]] && built == old(built)
    {
      HoldsMoved(entries, i, built, history, capacity);
      var entry := entries[i];
      entries := entries[..i] + entries[i + 1..] + [entry];
      history := history + [entry.key];
    }

    /** Stores a new entry last, and takes out the first one if there are too many. */
    method Store(key: Key, agent: Agent)
      requires Valid() && key !in Keys(entries)
      requires IsClientOf(key, agent.model) && agent.instance == built
      modifies this
      ensures Valid() && history == old(history) + [key]
      ensures entries == Appended(old(entries), Entry(key, agent), capacity) && built == old(built) + 1
    {
      HoldsAppended(entries, Entry(key, agent), built, history, capacity);
      entries := entries + [Entry(key, agent)];
      built := built + 1;
      if |entries| > capacity {
        entries := entries[1..];
      }
      history := history + [key];
    }

    method GetAgent(key: Key) returns (r: Result<Agent, string>)
      requires Valid()
      modifies this
      ensures Valid()
      ensures r.Success? <==> Buildable(key)
      ensures history == if r.Success? then old(history) + [key] else old(history)
      ensures r.Failure? ==> entries == old(entries) && built == old(built)
      ensures r.Success? ==> IsClientOf(key, r.value.model) && Entry(key, r.value) in entries
      ensures r.Success? ==> forall e :: e in entries ==> e in old(entries) || e == Entry(key, r.value)
      // A hit, exactly when the key was used with fewer than `capacity` distinct others since, returns the
      // cached agent.
      ensures RecentlyUsed(old(history), key, capacity) <==> key in Keys(old(entries))
      ensures RecentlyUsed(old(history), key, capacity) ==>
        r.Success? && Entry(key, r.value) in old(entries) && built == old(built)
      ensures !RecentlyUsed(old(history), key, capacity) && r.Success? ==>
        r.value.instance == old(built) && built == old(built) + 1
    {
      LatestIsRecentlyUsed(history, key, capacity);
      FirstIndexFinds(entries, key);
      var i := FirstIndex(entries, key);
      if i < |entries| {
        var agent := Hit(i);
        r := Success(agent);
      } else {
        r := Miss(key);
      }
    }

    method Hit(i: nat) returns (agent: Agent)
      requires Valid() && i < |entries|
      modifies this
      ensures Valid() && history == old(history) + [old(entries)[i].key] && built == old(built)
      ensures old(entries)[i] == Entry(old(entries)[i].key, agent) && old(entries)[i] in entries
      ensures forall e :: e in entries ==> e in old(entries)
      ensures IsClientOf(old(entries)[i].key, agent.model)
    {
      agent := entries[i].agent;
      MovedHas(entries, i);
      MoveToEnd(i);
    }

    method Miss(key: Key) returns (r: Result<Agent, string>)
      requires Valid() && key !in Keys(entries)
      modifies this
      ensures Valid()
      ensures r.Success? <==> Buildable(key)
      ensures history == if r.Success? then old(history) + [key] else old(history)
      ensures r.Failure? ==> entries == old(entries) && built == old(built)
      ensures r.Success? ==>
        && IsClientOf(key, r.value.model) && Entry(key, r.value) in entries
        && r.value.instance == old(built) && built == old(built) + 1
        && forall e :: e in entries ==> e in old(entries) || e == Entry(key, r.value)
    {
      BuildsOwnClient(key);
      var model := Build(key);
      if model.Failure? {
        return Failure(model.error);
      }
      var agent := Agent(model.value, built);
      AppendedHas(entries, Entry(key, agent), capacity);
      Store(key, agent);
      r := Success(agent);
    }
  }

  lemma MovedHas(entries: seq<Entry>, i: nat)
    requires i < |entries|
    ensures var moved := entries[..i] + entries[i + 1..] + [entries[i]];
      entries[i] in moved && forall e :: e in moved ==> e in entries
  {
    var moved := entries[..i] + entries[i + 1..] + [entries[i]];
    assert moved[|moved| - 1] == entries[i];
  }

  lemma FirstIndexFinds(entries: seq<Entry>, key: Key)
    ensures key in Keys(entries) <==> FirstIndex(entries, key) < |entries|
  {
    var i := FirstIndex(entries, key);
    if i < |entries| { assert Keys(entries)[i] == key; }
  }

  function FirstIndex(entries: seq<Entry>, key: Key): (i: nat)
    ensures i <= |entries|
    ensures i < |entries| ==> entries[i].key == key
    ensures forall k :: 0 <= k < i ==> entries[k].key != key
  {
    if entries == [] || entries[0].key == key then 0 else 1 + FirstIndex(entries[1..], key)
  }

  /** The last `m` are the last `m` of the last `n`. */
  lemma LatestOfLatest<T>(s: seq<T>, m: nat, n: nat)
    requires m <= n
    ensures Latest(Latest(s, n), m) == Latest(s, m)
  {
  }

  /** Two caches that served the same requests: the smaller one's keys are the last of the larger one's. */
  lemma SmallerIsIncluded(small: Cache, large: Cache)
    requires small.Valid() && large.Valid()
    requires small.history == large.history && small.capacity <= large.capacity
    ensures Keys(small.entries) == Latest(Keys(large.entries), small.capacity)
    ensures forall key :: key in Keys(small.entries) ==> key in Keys(large.entries)
  {
    LatestOfLatest(Recency(small.history), small.capacity, large.capacity);
  }

  /** The requests among `calls` that succeed, which does not depend on the cache. */
  function Served(calls: seq<Key>): seq<Key>
  {
    if calls == [] then []
    else Served(calls[..|calls| - 1]) + (if Buildable(calls[|calls| - 1]) then [calls[|calls| - 1]] else [])
  }

  /** One request to both caches. */
  method ServeOne(small: Cache, large: Cache, key: Key)
    requires small != large && small.Valid() && large.Valid()
    requires small.history == large.history
    modifies small, large
    ensures small.Valid() && large.Valid()
    ensures small.history == large.history == old(small.history) + (if Buildable(key) then [key] else [])
  {
    var _ := small.GetAgent(key);
    var _ := large.GetAgent(key);
  }

  /** After any sequence of calls on two caches, the contents of the smaller are included in the larger. */
  method ServeBoth(small: Cache, large: Cache, calls: seq<Key>)
    requires small != large && small.Valid() && large.Valid()
    requires small.history == large.history == [] && small.capacity <= large.capacity
    modifies small, large
    ensures small.Valid() && large.Valid()
    ensures small.history == large.history == Served(calls)
    ensures forall key :: key in Keys(small.entries) ==> key in Keys(large.entries)
  {
    for i := 0 to |calls|
      invariant small.Valid() && large.Valid()
      invariant small.history == large.history == Served(calls[..i])
    {
      ServeOne(small, large, calls[i]);
      assert calls[..i + 1][..i] == calls[..i];
    }
    assert calls[..|calls|] == calls;
    SmallerIsIncluded(small, large);
  }
}
