/**
 The Valkey-backed store. Values expire on the server; a sorted set beside them holds every key with the time it
 was written, so that the oldest can be evicted. The store has to keep the two in agreement.
 */
module Valkey {
  import opened Collections
  import opened Options
  import opened Keys

  // ---------------------------------------------------------------- the server

  /** `Garbled` is a value that does not decode to a record with a reasoning text. */
  datatype Value = Record(reasoning: string) | Garbled

  datatype Held = Held(value: Value, expiresAt: Option<int>)

  /** A name in the server's key space: the value of a cache key, or the index. */
  datatype Name = Entry(key: Key) | Index

  predicate Alive(values: map<Key, Held>, key: Key, now: int) {
    key in values && (values[key].expiresAt.Some? ==> now < values[key].expiresAt.value)
  }

  ghost function Living(values: map<Key, Held>, now: int): set<Key> {
    set k | k in values && Alive(values, k, now)
  }

  ghost predicate Exists(values: map<Key, Held>, index: map<Key, int>, name: Name, now: int) {
    match name case Entry(key) => Alive(values, key, now) case Index => index != map[]
  }

  ghost predicate SubMap(a: map<Key, Value>, b: map<Key, Value>) {
    forall k :: k in a ==> k in b && a[k] == b[k]
  }

  /** The cache keys whose values are named. */
  function KeysNamed(names: seq<Name>): set<Key> {
    set name | name in names && name.Entry? :: name.key
  }

  ghost function Existing(names: seq<Name>, values: map<Key, Held>, index: map<Key, int>, now: int): set<Name> {
    set name | name in names && Exists(values, index, name, now)
  }

  class Server {
    var values: map<Key, Held>
    var index: map<Key, int>

    constructor ()
      ensures values == map[] && index == map[]
    {
      values := map[];
      index := map[];
    }

    method Set(key: Key, value: Value, now: int, ttl: Option<int>)
      modifies this
      ensures values == old(values)[key := Held(value, if ttl.Some? then Some(now + ttl.value) else None)]
        && index == old(index)
    {
      values := values[key := Held(value, if ttl.Some? then Some(now + ttl.value) else None)];
    }

    method Get(key: Key, now: int) returns (value: Option<Value>)
      ensures value == if Alive(values, key, now) then Some(values[key].value) else None
    {
      value := if Alive(values, key, now) then Some(values[key].value) else None;
    }

    /** Removes the named values, and the index if it is named; counts the ones that existed. */
    method Delete(names: seq<Name>, now: int) returns (count: int)
      modifies this
      ensures values == old(values) - KeysNamed(names)
      ensures index == if Index in names then map[] else old(index)
      ensures count == |Existing(names, old(values), old(index), now)|
    {
      var existing := set name | name in names
      && (match name case Entry(key) => Alive(values, key, now) case Index => index != map[]);
      assert existing == Existing(names, values, index, now);
      count := |existing|;
      values := values - KeysNamed(names);
      if Index in names { index := map[]; }
    }

    method Zadd(key: Key, score: int)
      modifies this
      ensures index == old(index)[key := score] && values == old(values)
    {
      index := index[key := score];
    }

    method Zrem(keys: seq<Key>)
      modifies this
      ensures index == old(index) - (set k | k in keys) && values == old(values)
    {
      index := index - set k | k in keys;
    }

    method Zremrangebyscore(max: int) returns (removed: int)
      modifies this
      ensures index == (map k | k in old(index) && old(index)[k] > max :: old(index)[k]) && values == old(values)
      ensures removed == |old(index)| - |index|
    {
      var before := |index|;
      index := map k | k in index && index[k] > max :: index[k];
      removed := before - |index|;
    }

    /** The `n` keys with the lowest scores. */
    method Zrange(n: nat) returns (keys: seq<Key>)
      requires n <= |index|
      ensures Lowest(index, keys, n)
    {
      keys := [];
      var rest := index.Keys;
      while |keys| < n
        invariant |keys| <= n && |keys| + |rest| == |index| && rest <= index.Keys
        invariant AllDistinct(keys) && forall k :: k in index ==> (k in keys <==> k !in rest)
        invariant forall k <- keys :: k in index
        invariant forall k, other :: k in keys && other in rest ==> index[k] <= index[other]
      {
        LowestExists(index, rest);
        var k :| k in rest && forall other <- rest :: index[k] <= index[other];
        keys := keys + [k];
        rest := rest - {k};
      }
    }

    /** Every existing name, possibly more than once. */
    method ScanIter(now: int) returns (names: seq<Name>)
      ensures forall name :: name in names <==> Exists(values, index, name, now)
    {
      names := [];
      var rest := set k | k in values && Alive(values, k, now);
      assert forall k :: k in rest <==> Alive(values, k, now);
      while rest != {}
        invariant forall name <- names :: name.Entry? && Alive(values, name.key, now)
        invariant forall k :: Alive(values, k, now) <==> k in rest || Entry(k) in names
        decreases rest
      {
        var k :| k in rest;
        rest := rest - {k};
        names := names + [Entry(k)];
        if * { names := names + [Entry(k)]; }
      }
      if index != map[] { names := names + [Index]; }
    }
  }

  ghost predicate Lowest(index: map<Key, int>, keys: seq<Key>, n: nat) {
    && |keys| == n && AllDistinct(keys)
    && (forall k <- keys :: k in index)
    && forall k, other :: k in keys && other in index && other !in keys ==> index[k] <= index[other]
  }

  lemma {:induction false} LowestExists(index: map<Key, int>, keys: set<Key>)
    requires keys != {} && keys <= index.Keys
    ensures exists k :: k in keys && forall other <- keys :: index[k] <= index[other]
  {
    var k :| k in keys;
    if keys != {k} {
      LowestExists(index, keys - {k});
      var m :| m in keys - {k} && forall other <- keys - {k} :: index[m] <= index[other];
      var best := if index[k] <= index[m] then k else m;
      assert forall other <- keys :: other == k || other in keys - {k};
      assert best in keys && forall other <- keys :: index[best] <= index[other];
    }
  }

  // ---------------------------------------------------------------- the store

  const BATCH := 500

  ghost function Flatten<T>(batches: seq<seq<T>>): seq<T> {
    if batches == [] then [] else Flatten(batches[..|batches| - 1]) + batches[|batches| - 1]
  }

  ghost predicate CoversInBatches<T>(batches: seq<seq<T>>, all: seq<T>) {
    Flatten(batches) == all && forall i :: 0 <= i < |batches| ==> 0 < |batches[i]| <= BATCH
  }

  /** Every value alive at `now` is in the index, and expires its full age after the time the index gives. */
  ghost predicate InAgreement(values: map<Key, Held>, index: map<Key, int>, now: int, ttl: Option<int>) {
    && (forall k <- Living(values, now) :: k in index)
    && forall k <- index :: k in values ==>
      values[k].expiresAt == if ttl.Some? then Some(index[k] + ttl.value) else None
  }

  ghost function Visible(values: map<Key, Held>, now: int): map<Key, Value> {
    map k | k in values && Alive(values, k, now) :: values[k].value
  }

  lemma EvictionKeepsAgreement(values: map<Key, Held>, index: map<Key, int>, stale: set<Key>, now: int,
                               ttl: Option<int>)
    ensures SubMap(Visible(values - stale, now), Visible(values, now))
    ensures InAgreement(values, index, now, ttl) ==> InAgreement(values - stale, index - stale, now, ttl)
  {
  }

  class ValkeyReasoningStore {
    const client: Server
    const maxAge: Option<int>
    const maxRows: Option<int>
    var closed: bool

    predicate AgeLimited() { maxAge.Some? && maxAge.value > 0 }
    predicate RowLimited() { maxRows.Some? && maxRows.value > 0 }

    ghost function Ttl(): Option<int> {
      if AgeLimited() then Some(maxAge.value) else None
    }

    ghost predicate Agrees(now: int)
      reads client
    {
      InAgreement(client.values, client.index, now, Ttl())
    }

    /** What reads can see. */
    ghost function Contents(now: int): map<Key, Value>
      reads client
    {
      Visible(client.values, now)
    }

    constructor (client: Server, maxAge: Option<int>, maxRows: Option<int>)
      ensures this.client == client && this.maxAge == maxAge && this.maxRows == maxRows && !closed
    {
      this.client, this.maxAge, this.maxRows, closed := client, maxAge, maxRows, false;
    }

    method DeleteKeys(names: seq<Name>, now: int) returns (deleted: int, ghost batches: seq<seq<Name>>)
      modifies client
      ensures CoversInBatches(batches, names)
      ensures client.values == old(client.values) - KeysNamed(names)
      ensures client.index == if Index in names then map[] else old(client.index)
      ensures deleted == |Existing(names, old(client.values), old(client.index), now)|
    {
      deleted, batches := 0, [];
      var i := 0;
      ghost var values, index := client.values, client.index;
      while i < |names|
        invariant 0 <= i <= |names| && CoversInBatches(batches, names[..i])
        invariant client.values == values - KeysNamed(names[..i])
        invariant client.index == if Index in names[..i] then map[] else index
        invariant deleted == |Existing(names[..i], values, index, now)|
      {
        var next := if i + BATCH <= |names| then i + BATCH else |names|;
        var batch := names[i..next];
        NextBatch(names, i, next, values, index, client.values, client.index, now);
        NextBatchCovers(names, i, next, batches);
        var count := client.Delete(batch, now);
        deleted := deleted + count;
        batches := batches + [batch];
        i := next;
      }
      assert names[..i] == names;
    }

    method RemoveIndexEntries(keys: seq<Key>) returns (ghost batches: seq<seq<Key>>)
      modifies client
      ensures CoversInBatches(batches, keys)
      ensures client.index == old(client.index) - (set k | k in keys) && client.values == old(client.values)
    {
      batches := [];
      var i := 0;
      while i < |keys|
        invariant 0 <= i <= |keys| && CoversInBatches(batches, keys[..i])
        invariant client.index == old(client.index) - (set k | k in keys[..i]) && client.values == old(client.values)
      {
        var next := if i + BATCH <= |keys| then i + BATCH else |keys|;
        client.Zrem(keys[i..next]);
        assert keys[..next] == keys[..i] + keys[i..next];
        assert (batches + [keys[i..next]])[..|batches|] == batches;
        batches := batches + [keys[i..next]];
        i := next;
      }
      assert keys[..i] == keys;
    }

    method PruneIndexByAge(now: int) returns (removed: int)
      modifies client
      ensures client.values == old(client.values)
      ensures forall k :: k in client.index ==> k in old(client.index) && client.index[k] == old(client.index)[k]
      ensures forall k :: k in old(client.index) && k !in client.index ==>
        AgeLimited() && old(client.index)[k] + maxAge.value <= now
      ensures AgeLimited() ==> forall k <- client.index :: client.index[k] + maxAge.value > now
      ensures removed == |old(client.index)| - |client.index|
      ensures old(Agrees(now)) ==> Agrees(now)
    {
      removed := 0;
      if AgeLimited() {
        removed := client.Zremrangebyscore(now - maxAge.value);
      }
    }

    method PruneIndexByRows(now: int) returns (removed: int)
      modifies client
      ensures RowLimited() ==>
        |client.index| == if |old(client.index)| <= maxRows.value then |old(client.index)| else maxRows.value
      ensures removed == |old(client.index)| - |client.index|
      ensures client.index.Keys <= old(client.index).Keys
      ensures forall k, other :: k in old(client.index) && k !in client.index && other in client.index ==>
        old(client.index)[k] <= old(client.index)[other]
      ensures client.values == old(client.values) - (old(client.index).Keys - client.index.Keys)
      ensures !RowLimited() ==> client.values == old(client.values)
      ensures SubMap(Contents(now), old(Contents(now)))
      ensures old(Agrees(now)) ==> Agrees(now)
    {
      removed := 0;
      if !RowLimited() { assert client.values == client.values - {}; return; }
      var overflow := |client.index| - maxRows.value;
      if overflow <= 0 { assert client.values == client.values - {}; return; }
      var stale := client.Zrange(overflow);
      ghost var staleSet := set k | k in stale;
      DistinctHasItsSize(stale);
      var names := seq(|stale|, i requires 0 <= i < |stale| => Entry(stale[i]));
      EntriesNameTheirKeys(stale, names);
      var deleted, _ := DeleteKeys(names, now);
      var _ := RemoveIndexEntries(stale);
      EvictedFromIndex(old(client.index), client.index, staleSet);
      EvictionKeepsAgreement(old(client.values), old(client.index), staleSet, now, Ttl());
      hide InAgreement, Visible;
      removed := |stale|;
    }

    /** Sets the value and scores it. */
    method Write(key: Key, reasoning: string, now: int)
      modifies client
      ensures old(Agrees(now)) ==> Agrees(now)
      ensures Contents(now) == old(Contents(now))[key := Record(reasoning)]
    {
      client.Set(key, Record(reasoning), now, if AgeLimited() then Some(maxAge.value) else None);
      client.Zadd(key, now);
    }

    /** After a write the index agrees, and the row limit bounds both it and the living values. */
    method Put(key: Key, reasoning: string, now: int)
      modifies client
      ensures closed ==> client.values == old(client.values) && client.index == old(client.index)
      ensures old(Agrees(now)) ==> Agrees(now)
      ensures !closed && RowLimited() ==> |client.index| <= maxRows.value
      ensures !closed && RowLimited() && old(Agrees(now)) ==> |Living(client.values, now)| <= maxRows.value
      ensures !closed && !RowLimited() ==> Contents(now) == old(Contents(now))[key := Record(reasoning)]
      ensures !closed ==> SubMap(Contents(now), old(Contents(now))[key := Record(reasoning)])
    {
      if closed { return; }
      Write(key, reasoning, now);
      ghost var written := Contents(now);
      var aged := PruneIndexByAge(now);
      assert Contents(now) == written;
      var overflow := PruneIndexByRows(now);
      if RowLimited() && old(Agrees(now)) {
        SubsetIsSmaller(Living(client.values, now), client.index.Keys);
      }
    }

    method Get(key: Key, now: int) returns (reasoning: Option<string>)
      modifies client
      ensures reasoning
           == if !closed && key in old(Contents(now)) && old(Contents(now))[key].Record?
              then Some(old(Contents(now))[key].reasoning)
              else None
      ensures Contents(now)
           == if !closed && key in old(Contents(now)) && old(Contents(now))[key].Garbled?
              then old(Contents(now)) - {key}
              else old(Contents(now))
      ensures old(Agrees(now)) ==> Agrees(now)
    {
      if closed { return None; }
      var raw := client.Get(key, now);
      match raw
      case None =>
        client.Zrem([key]);
        return None;
      case Some(Record(text)) => return Some(text);
      case Some(Garbled) =>
        var count := client.Delete([Entry(key)], now);
        client.Zrem([key]);
        return None;
    }

    /** Leaves neither values nor index entries, and counts the values that were alive. */
    method Clear(now: int) returns (count: int)
      modifies client
      ensures closed ==> count == 0 && client.values == old(client.values) && client.index == old(client.index)
      ensures !closed ==> Living(client.values, now) == {} && client.index == map[]
      ensures !closed ==> count == |Living(old(client.values), now)|
      ensures old(Agrees(now)) ==> Agrees(now)
    {
      if closed { return 0; }
      var names := client.ScanIter(now);
      ghost var values, index := client.values, client.index;
      var deleted, _ := DeleteKeys(names, now);
      if Index !in names {
        var _ := client.Delete([Index], now);
      }
      forall k | k in values && Alive(values, k, now) ensures k !in client.values {
        assert Exists(values, index, Entry(k), now);
        assert Entry(k) in names;
      }
      CountEntries(values, index, names, now);
      count := deleted - (if Index in names then 1 else 0);
      if count < 0 { count := 0; }
    }

    method Prune(now: int) returns (removed: int)
      modifies client
      ensures closed ==> removed == 0 && client.values == old(client.values) && client.index == old(client.index)
      ensures !closed && RowLimited() ==> |client.index| <= maxRows.value
      ensures !closed ==> removed == |old(client.index)| - |client.index|
      ensures old(Agrees(now)) ==> Agrees(now)
    {
      if closed { return 0; }
      var aged := PruneIndexByAge(now);
      var overflow := PruneIndexByRows(now);
      removed := aged + overflow;
    }

    /** Agreement is not lost while time passes: values only die. */
    lemma AgreesLater(now: int, later: int)
      requires Agrees(now) && now <= later
      ensures Agrees(later)
    {
      assert Living(client.values, later) <= Living(client.values, now);
    }

    method Close()
      modifies this
      ensures closed
    {
      closed := true;
    }
  }

  // ---------------------------------------------------------------- counting

  lemma NextBatchCovers(names: seq<Name>, i: nat, next: nat, batches: seq<seq<Name>>)
    requires i < next <= |names| && next - i <= BATCH && CoversInBatches(batches, names[..i])
    ensures CoversInBatches(batches + [names[i..next]], names[..next])
  {
    assert names[..next] == names[..i] + names[i..next];
    assert (batches + [names[i..next]])[..|batches|] == batches;
  }

  /** One batch more: what it removes and counts has not been removed or counted before, names that come again
      included. */
  lemma NextBatch(names: seq<Name>, i: nat, next: nat, values: map<Key, Held>, index: map<Key, int>,
                  nowValues: map<Key, Held>, nowIndex: map<Key, int>, now: int)
    requires i < next <= |names|
    requires nowValues == values - KeysNamed(names[..i])
    requires nowIndex == if Index in names[..i] then map[] else index
    ensures nowValues - KeysNamed(names[i..next]) == values - KeysNamed(names[..next])
    ensures (if Index in names[i..next] then map[] else nowIndex) == if Index in names[..next] then map[] else index
    ensures |Existing(names[..i], values, index, now)| + |Existing(names[i..next], nowValues, nowIndex, now)|
         == |Existing(names[..next], values, index, now)|
  {
    var before, batch := names[..i], names[i..next];
    assert names[..next] == before + batch;
    StillExisting(before, batch, values, index, nowValues, nowIndex, now);
    ExistingConcat(before, batch, values, index, now);
    KeysNamedConcat(before, batch);
    RemovedTwice(values, KeysNamed(before), KeysNamed(batch));
  }

  lemma RemovedTwice(values: map<Key, Held>, a: set<Key>, b: set<Key>)
    ensures (values - a) - b == values - (a + b)
  {
  }

  lemma KeysNamedConcat(a: seq<Name>, b: seq<Name>)
    ensures KeysNamed(a + b) == KeysNamed(a) + KeysNamed(b)
  {
  }

  /** The names of a batch that an earlier batch did not remove. */
  ghost function NewlyExisting(before: seq<Name>, batch: seq<Name>, values: map<Key, Held>, index: map<Key, int>,
                               now: int): set<Name> {
    set name | name in batch && name !in before && Exists(values, index, name, now)
  }

  lemma ExistingConcat(before: seq<Name>, batch: seq<Name>, values: map<Key, Held>, index: map<Key, int>, now: int)
    ensures |Existing(before + batch, values, index, now)|
         == |Existing(before, values, index, now)| + |NewlyExisting(before, batch, values, index, now)|
  {
    var a, b := Existing(before, values, index, now), NewlyExisting(before, batch, values, index, now);
    assert Existing(before + batch, values, index, now) == a + b && a !! b;
  }

  lemma StillExisting(before: seq<Name>, batch: seq<Name>, values: map<Key, Held>, index: map<Key, int>,
                      nowValues: map<Key, Held>, nowIndex: map<Key, int>, now: int)
    requires nowValues == values - KeysNamed(before)
    requires nowIndex == if Index in before then map[] else index
    ensures Existing(batch, nowValues, nowIndex, now) == NewlyExisting(before, batch, values, index, now)
  {
    forall name | name in batch
      ensures Exists(nowValues, nowIndex, name, now) <==> name !in before && Exists(values, index, name, now)
    {
      if name.Entry? {
        assert name.key in KeysNamed(before) <==> name in before;
      }
    }
  }

  lemma EntriesNameTheirKeys(keys: seq<Key>, names: seq<Name>)
    requires AllDistinct(keys) && |names| == |keys| && forall i :: 0 <= i < |keys| ==> names[i] == Entry(keys[i])
    ensures Index !in names && KeysNamed(names) == set k | k in keys
  {
    forall k | k in keys ensures Entry(k) in names {
      var i :| 0 <= i < |keys| && keys[i] == k;
      assert names[i] == Entry(k);
    }
  }

  lemma EvictedFromIndex(before: map<Key, int>, after: map<Key, int>, stale: set<Key>)
    requires stale <= before.Keys && after == before - stale
    ensures before.Keys - after.Keys == stale && |after| == |before| - |stale|
  {
    assert after.Keys == before.Keys - stale;
    assert before.Keys == after.Keys + stale;
  }

  lemma CountEntries(values: map<Key, Held>, index: map<Key, int>, names: seq<Name>, now: int)
    requires forall name :: name in names <==> Exists(values, index, name, now)
    ensures |Existing(names, values, index, now)| == |Living(values, now)| + if Index in names then 1 else 0
  {
    var existing := Existing(names, values, index, now);
    var entries := set k | k in Living(values, now) :: Entry(k);
    assert forall k :: k in Living(values, now) <==> Exists(values, index, Entry(k), now);
    assert existing == entries + if Index in names then {Index} else {};
    CountEntriesOf(Living(values, now));
  }

  lemma {:induction false} CountEntriesOf(keys: set<Key>)
    ensures |set k | k in keys :: Entry(k)| == |keys|
  {
    if keys != {} {
      var x :| x in keys;
      CountEntriesOf(keys - {x});
      assert (set k | k in keys :: Entry(k)) == (set k | k in keys - {x} :: Entry(k)) + {Entry(x)};
    }
  }
}
