/** The reasoning cache: what storing and looking up mean, and the SQLite-backed store. */
module ReasoningCache {
  import opened Collections
  import opened Options
  import opened Transcript
  import opened Keys

  // ---------------------------------------------------------------- the cache as a map

  type Cache = map<Key, string>

  ghost predicate Within(a: Cache, b: Cache) {
    forall k :: k in a ==> k in b && a[k] == b[k]
  }

  ghost function PutAll(cache: Cache, keys: seq<Key>, reasoning: string): Cache {
    cache + map k | k in keys :: reasoning
  }

  lemma PutAllLast(cache: Cache, keys: seq<Key>, key: Key, reasoning: string)
    ensures PutAll(cache, keys + [key], reasoning) == PutAll(cache, keys, reasoning)[key := reasoning]
  {
  }

  /** The first of the keys that is in the cache. */
  ghost function FirstHit(cache: Cache, keys: seq<Key>): (hit: Option<Key>)
    ensures hit.Some? ==> hit.value in cache && hit.value in keys
    ensures hit.None? ==> forall k <- keys :: k !in cache
  {
    if keys == [] then None else if keys[0] in cache then Some(keys[0]) else FirstHit(cache, keys[1..])
  }

  lemma {:induction false} FirstHitOfConcat(cache: Cache, a: seq<Key>, b: seq<Key>)
    ensures FirstHit(cache, a + b) == if FirstHit(cache, a).Some? then FirstHit(cache, a) else FirstHit(cache, b)
  {
    if a == [] {
      assert a + b == b;
    } else {
      assert (a + b)[1..] == a[1..] + b;
      FirstHitOfConcat(cache, a[1..], b);
    }
  }

  ghost function HitText(cache: Cache, keys: seq<Key>): Option<string> {
    match FirstHit(cache, keys) case Some(key) => Some(cache[key]) case None => None
  }

  /** What the family of keys of a message finds. */
  ghost function Lookup(cache: Cache, message: Message, namespace: Namespace, prior: seq<Message>): Option<string> {
    HitText(cache, KeyFamily(message, namespace, prior))
  }

  /** The cache after `store_assistant_message`. */
  ghost function Stored(cache: Cache, message: Message, scope: Scope, namespace: Namespace,
                        prior: seq<Message>): Cache {
    if message.role == Assistant && message.reasoning.Thought?
    then PutAll(cache, ScopedKeys(message, scope) + PortableKeys(message, namespace, prior), message.reasoning.text)
    else cache
  }

  /** How many different keys `store_assistant_message` writes. */
  ghost function KeysStored(message: Message, scope: Scope, namespace: Namespace, prior: seq<Message>): nat {
    if message.role == Assistant && message.reasoning.Thought?
    then |set k | k in ScopedKeys(message, scope) + PortableKeys(message, namespace, prior)|
    else 0
  }

  /** A message with reasoning is stored under its signature at least. */
  lemma SomethingIsStored(message: Message, scope: Scope, namespace: Namespace, prior: seq<Message>)
    ensures KeysStored(message, scope, namespace, prior) > 0
      <==> message.role == Assistant && message.reasoning.Thought?
  {
    var family := ScopedKeys(message, scope) + PortableKeys(message, namespace, prior);
    var keys := set k | k in family;
    assert family[0] == Scoped(scope, Selectors(message)[0]) && family[0] in family && family[0] in keys;
  }

  lemma PutAllMonotone(a: Cache, b: Cache, keys: seq<Key>, reasoning: string)
    requires Within(a, b)
    ensures Within(PutAll(a, keys, reasoning), PutAll(b, keys, reasoning))
  {
  }

  lemma StoredMonotone(a: Cache, b: Cache, message: Message, scope: Scope, namespace: Namespace, prior: seq<Message>)
    requires Within(a, b)
    ensures Within(Stored(a, message, scope, namespace, prior), Stored(b, message, scope, namespace, prior))
  {
    if message.role == Assistant && message.reasoning.Thought? {
      PutAllMonotone(a, b, ScopedKeys(message, scope) + PortableKeys(message, namespace, prior),
                     message.reasoning.text);
    }
  }

  /** The cache after `backfill_portable_aliases`. */
  ghost function Backfilled(cache: Cache, message: Message, reasoning: string, namespace: Namespace,
                            prior: seq<Message>): Cache {
    PutAll(cache, PortableKeys(message, namespace, prior), reasoning)
  }

  ghost function StoredEntries(message: Message, scope: Scope, namespace: Namespace, prior: seq<Message>): seq<Entry> {
    if message.role == Assistant && message.reasoning.Thought?
    then EntriesFor(Distinct(ScopedKeys(message, scope) + PortableKeys(message, namespace, prior)),
                    message.reasoning.text)
    else []
  }

  ghost function AliasEntries(message: Message, reasoning: string, namespace: Namespace,
                              prior: seq<Message>): seq<Entry> {
    EntriesFor(Distinct(PortableKeys(message, namespace, prior)), reasoning)
  }

  /** The keys in order of first occurrence, each once: `dict.fromkeys`. */
  function Distinct(keys: seq<Key>): (distinct: seq<Key>)
    ensures forall k :: k in distinct <==> k in keys
    ensures forall i, j :: 0 <= i < j < |distinct| ==> distinct[i] != distinct[j]
  {
    if keys == [] then []
    else
      var rest := Distinct(keys[..|keys| - 1]);
      var last := keys[|keys| - 1];
      assert keys == keys[..|keys| - 1] + [last];
      if last in rest then rest else rest + [last]
  }

  // ---------------------------------------------------------------- the SQLite table

  datatype Row = Row(reasoning: string, createdAt: int)

  type Table = map<Key, Row>

  /** Absent or non-positive limits are off. */
  datatype Limits = Limits(maxAge: Option<int>, maxRows: Option<int>) {
    predicate AgeLimited() { maxAge.Some? && maxAge.value > 0 }
    predicate RowLimited() { maxRows.Some? && maxRows.value > 0 }
  }

  predicate Expired(row: Row, now: int, limits: Limits) {
    limits.AgeLimited() && row.createdAt < now - limits.maxAge.value
  }

  function Unexpired(table: Table, now: int, limits: Limits): Table {
    map k | k in table && !Expired(table[k], now, limits) :: table[k]
  }

  /** `kept` is a legal answer to `ORDER BY created_at DESC LIMIT limit`, whatever happens between ties. */
  ghost predicate NewestRows(kept: Table, table: Table, limit: nat) {
    && (forall k :: k in kept ==> k in table && kept[k] == table[k])
    && |kept| == (if |table| <= limit then |table| else limit)
    && forall k, d :: k in kept && d in table && d !in kept ==> table[d].createdAt <= table[k].createdAt
  }

  ghost predicate Pruned(after: Table, before: Table, now: int, limits: Limits) {
    var recent := Unexpired(before, now, limits);
    if limits.RowLimited() then NewestRows(after, recent, limits.maxRows.value) else after == recent
  }

  /** A write prunes only when there is a row limit, and then by age as well. The clock is read for the row, and
      again for the cutoff. */
  ghost predicate Written(after: Table, before: Table, key: Key, reasoning: string, at: int, prunedAt: int,
                          limits: Limits) {
    var written := before[key := Row(reasoning, at)];
    if limits.RowLimited() then Pruned(after, written, prunedAt, limits) else after == written
  }

  // ---------------------------------------------------------------- runs of writes

  /** `at` is the time of the row, `prunedAt` the later reading of the clock for the cutoff. */
  datatype Write = Write(key: Key, reasoning: string, at: int, prunedAt: int)

  datatype Entry = Entry(key: Key, reasoning: string)

  /** What the writes put in, in order. */
  ghost function EntriesOf(writes: seq<Write>): (entries: seq<Entry>)
    ensures |entries| == |writes|
  {
    seq(|writes|, i requires 0 <= i < |writes| => Entry(writes[i].key, writes[i].reasoning))
  }

  ghost function EntriesFor(keys: seq<Key>, reasoning: string): (entries: seq<Entry>)
    ensures |entries| == |keys|
  {
    seq(|keys|, i requires 0 <= i < |keys| => Entry(keys[i], reasoning))
  }

  /** `tables[i + 1]` is the table after write `i` to `tables[i]`. */
  ghost predicate Chain(tables: seq<Table>, writes: seq<Write>, limits: Limits) {
    && |tables| == |writes| + 1
    && forall i :: 0 <= i < |writes| ==>
         Written(tables[i + 1], tables[i], writes[i].key, writes[i].reasoning, writes[i].at, writes[i].prunedAt, limits)
  }

  /** The writes, one after the other, lead from one table to the other. */
  ghost predicate Leads(before: Table, after: Table, writes: seq<Write>, limits: Limits) {
    exists tables :: Chain(tables, writes, limits) && tables[0] == before && tables[|writes|] == after
  }

  lemma NoWrites(table: Table, limits: Limits)
    ensures Leads(table, table, [], limits)
  {
    assert Chain([table], [], limits);
  }

  lemma OneWrite(before: Table, after: Table, w: Write, limits: Limits)
    requires Written(after, before, w.key, w.reasoning, w.at, w.prunedAt, limits)
    ensures Leads(before, after, [w], limits)
  {
    hide Written;
    assert Chain([before, after], [w], limits);
  }

  lemma LeadsConcat(a: Table, b: Table, c: Table, first: seq<Write>, second: seq<Write>, limits: Limits)
    requires Leads(a, b, first, limits) && Leads(b, c, second, limits)
    ensures Leads(a, c, first + second, limits)
    ensures EntriesOf(first + second) == EntriesOf(first) + EntriesOf(second)
  {
    hide Written;
    var x :| Chain(x, first, limits) && x[0] == a && x[|first|] == b;
    var y :| Chain(y, second, limits) && y[0] == b && y[|second|] == c;
    assert Chain(x + y[1..], first + second, limits);
  }

  /** The entries, and nothing else, were written, each write pruning what the ones before it left; a closed store is
      left alone. */
  ghost predicate Wrote(closed: bool, before: Table, after: Table, writes: seq<Write>, entries: seq<Entry>,
                        limits: Limits)
  {
    if closed then after == before else Leads(before, after, writes, limits) && EntriesOf(writes) == entries
  }

  lemma WroteNothing(closed: bool, table: Table, limits: Limits)
    ensures Wrote(closed, table, table, [], [], limits)
  {
    NoWrites(table, limits);
  }

  lemma WroteMore(closed: bool, a: Table, b: Table, c: Table, first: seq<Write>, second: seq<Write>,
                  entries: seq<Entry>, more: seq<Entry>, limits: Limits)
    requires Wrote(closed, a, b, first, entries, limits) && Wrote(closed, b, c, second, more, limits)
    ensures Wrote(closed, a, c, first + second, entries + more, limits)
  {
    hide Leads, EntriesOf;
    if !closed { LeadsConcat(a, b, c, first, second, limits); }
  }

  /** A row past its age outlives the writes of other keys exactly when the store has no row limit. */
  lemma ExpiredRowOutlivesWrites(after: Table, before: Table, key: Key, reasoning: string, at: int, prunedAt: int,
                                 limits: Limits, stale: Key)
    requires Written(after, before, key, reasoning, at, prunedAt, limits)
    requires stale in before && stale != key && Expired(before[stale], prunedAt, limits)
    ensures stale in after <==> !limits.RowLimited()
  {
  }

  /** What reads of an open table see, whatever the age of its rows. */
  ghost function Visible(table: Table): Cache {
    map k | k in table :: table[k].reasoning
  }

  /** Such a row is still read: written at second 0 for at most 60 seconds, it is found after a write at second 1000. */
  lemma ExpiredRowIsRead(stale: Key, other: Key)
    requires stale != other
    ensures var limits, before := Limits(Some(60), None), map[stale := Row("r", 0)];
      var after := before[other := Row("q", 1000)];
      && Written(before, map[], stale, "r", 0, 0, limits) && Written(after, before, other, "q", 1000, 1000, limits)
      && Expired(after[stale], 1000, limits) && stale in Visible(after) && Visible(after)[stale] == "r"
  {
    var limits := Limits(Some(60), None);
    assert limits.AgeLimited() && !limits.RowLimited();
  }

  predicate IsNewest(table: Table, keys: set<Key>, key: Key)
    requires keys <= table.Keys
  {
    key in keys && forall j :: j in keys ==> table[j].createdAt <= table[key].createdAt
  }

  lemma {:induction false} NewestExists(table: Table, keys: set<Key>)
    requires keys != {} && keys <= table.Keys
    ensures exists k :: IsNewest(table, keys, k)
  {
    var k :| k in keys;
    if keys == {k} {
      assert IsNewest(table, keys, k);
    } else {
      var rest := keys - {k};
      NewestExists(table, rest);
      var m :| IsNewest(table, rest, m);
      assert IsNewest(table, keys, if table[m].createdAt <= table[k].createdAt then k else m);
    }
  }

  /** The rows selected by `ORDER BY created_at DESC LIMIT limit`. */
  method SelectNewest(table: Table, limit: nat) returns (kept: Table)
    ensures NewestRows(kept, table, limit)
  {
    var chosen, rest: set<Key> := {}, table.Keys;
    while |chosen| < limit && rest != {}
      invariant |chosen| <= limit && NewestSoFar(table, chosen, rest)
      decreases rest
    {
      NewestExists(table, rest);
      var k :| k in rest && IsNewest(table, rest, k);
      OneMoreNewest(table, chosen, rest, k);
      hide NewestSoFar, IsNewest;
      chosen, rest := chosen + {k}, rest - {k};
    }
    ChosenAreNewest(table, chosen, rest, limit);
    hide NewestRows;
    assert chosen <= table.Keys;
    kept := map k | k in chosen :: table[k];
  }

  /** No row outside `chosen` is newer than one inside. */
  ghost predicate NewestSoFar(table: Table, chosen: set<Key>, rest: set<Key>) {
    && chosen !! rest && chosen + rest == table.Keys
    && forall k, d :: k in chosen && d in rest ==> table[d].createdAt <= table[k].createdAt
  }

  lemma ChosenAreNewest(table: Table, chosen: set<Key>, rest: set<Key>, limit: nat)
    requires NewestSoFar(table, chosen, rest) && |chosen| <= limit && (|chosen| == limit || rest == {})
    ensures NewestRows(map k | k in chosen :: table[k], table, limit)
  {
    var kept := map k | k in chosen :: table[k];
    assert kept.Keys == chosen && |table| == |chosen + rest| == |chosen| + |rest|;
  }

  lemma OneMoreNewest(table: Table, chosen: set<Key>, rest: set<Key>, k: Key)
    requires NewestSoFar(table, chosen, rest) && IsNewest(table, rest, k)
    ensures k !in chosen && NewestSoFar(table, chosen + {k}, rest - {k})
  {
    assert (chosen + {k}) + (rest - {k}) == chosen + rest;
  }

  lemma NothingPut(cache: Cache, keys: seq<Key>, reasoning: string)
    ensures PutAll(cache, keys[..0], reasoning) == cache && Within(cache, cache)
      && EntriesFor(keys[..0], reasoning) == []
  {
  }

  lemma OneMorePut(start: Cache, now: Cache, after: Cache, keys: seq<Key>, i: nat, reasoning: string)
    requires i < |keys| && Within(now, PutAll(start, keys[..i], reasoning))
    requires Within(after, now[keys[i] := reasoning])
    ensures Within(after, PutAll(start, keys[..i + 1], reasoning))
    ensures PutAll(start, keys[..i + 1], reasoning) == PutAll(start, keys[..i], reasoning)[keys[i] := reasoning]
    ensures EntriesFor(keys[..i + 1], reasoning) == EntriesFor(keys[..i], reasoning) + [Entry(keys[i], reasoning)]
  {
    assert keys[..i + 1] == keys[..i] + [keys[i]];
    PutAllLast(start, keys[..i], keys[i], reasoning);
  }

  lemma PutIsOneWrite(closed: bool, before: Table, after: Table, w: Write, limits: Limits)
    requires if closed then after == before else Written(after, before, w.key, w.reasoning, w.at, w.prunedAt, limits)
    ensures Wrote(closed, before, after, [w], [Entry(w.key, w.reasoning)], limits)
  {
    hide Written;
    if !closed { OneWrite(before, after, w, limits); }
  }

  class ReasoningStore {
    const limits: Limits
    var rows: Table
    var closed: bool

    /** What reads can see. */
    ghost function Contents(): Cache
      reads this
    {
      if closed then map[] else Visible(rows)
    }

    /** Open and without a row limit: writes never remove anything. */
    ghost predicate Unlimited()
      reads this
    {
      !closed && !limits.RowLimited()
    }

    constructor (limits: Limits)
      ensures this.limits == limits && !closed && rows == map[]
      ensures Contents() == map[]
    {
      this.limits := limits;
      rows := map[];
      closed := false;
    }

    /** Reads the clock, writes the row, and under a row limit reads the clock again and prunes. */
    method Put(key: Key, reasoning: string) returns (at: int, prunedAt: int)
      modifies this`rows
      ensures closed ==> rows == old(rows)
      ensures !closed ==> Written(rows, old(rows), key, reasoning, at, prunedAt, limits)
      ensures Within(Contents(), old(Contents())[key := reasoning])
      ensures Unlimited() ==> Contents() == old(Contents())[key := reasoning]
    {
      at, prunedAt := *, *;
      if closed { return; }
      rows := rows[key := Row(reasoning, at)];
      if limits.RowLimited() {
        var deleted := PruneAt(prunedAt);
      }
    }

    method Get(key: Key) returns (reasoning: Option<string>)
      ensures reasoning == if key in Contents() then Some(Contents()[key]) else None
    {
      if closed || key !in rows { return None; }
      return Some(rows[key].reasoning);
    }

    method PruneAt(now: int) returns (deleted: int)
      modifies this`rows
      ensures Pruned(rows, old(rows), now, limits)
      ensures deleted == |old(rows)| - |rows|
      ensures Within(Contents(), old(Contents()))
    {
      var before := |rows|;
      rows := Unexpired(rows, now, limits);
      if limits.RowLimited() {
        rows := SelectNewest(rows, limits.maxRows.value);
      }
      deleted := before - |rows|;
    }

    method Clear() returns (count: int)
      modifies this`rows
      ensures rows == map[] && count == |old(rows)| && Contents() == map[]
    {
      count := |rows|;
      rows := map[];
    }

    method Close()
      modifies this`closed
      ensures closed && Contents() == map[]
    {
      closed := true;
    }

    /** Writes the keys in order, each write pruning what the ones before it left. */
    method PutEach(keys: seq<Key>, reasoning: string) returns (ghost writes: seq<Write>)
      modifies this`rows
      ensures Wrote(closed, old(rows), rows, writes, EntriesFor(keys, reasoning), limits)
      ensures Within(Contents(), PutAll(old(Contents()), keys, reasoning))
      ensures Unlimited() ==> Contents() == PutAll(old(Contents()), keys, reasoning)
    {
      hide Wrote, Written, Visible, PutAll, Within, EntriesFor;
      var i := 0;
      writes := [];
      WroteNothing(closed, rows, limits);
      NothingPut(Contents(), keys, reasoning);
      while i < |keys|
        invariant 0 <= i <= |keys|
        invariant Wrote(closed, old(rows), rows, writes, EntriesFor(keys[..i], reasoning), limits)
        invariant Within(Contents(), PutAll(old(Contents()), keys[..i], reasoning))
        invariant Unlimited() ==> Contents() == PutAll(old(Contents()), keys[..i], reasoning)
      {
        ghost var before, now := rows, Contents();
        var at, prunedAt := Put(keys[i], reasoning);
        ghost var w := Write(keys[i], reasoning, at, prunedAt);
        PutIsOneWrite(closed, before, rows, w, limits);
        WroteMore(closed, old(rows), before, rows, writes, [w], EntriesFor(keys[..i], reasoning),
                  [Entry(keys[i], reasoning)], limits);
        OneMorePut(old(Contents()), now, Contents(), keys, i, reasoning);
        writes := writes + [w];
        i := i + 1;
      }
      assert keys[..i] == keys;
    }

    method StoreAssistantMessage(message: Message, scope: Scope, namespace: Namespace, prior: seq<Message>)
      returns (stored: nat, ghost writes: seq<Write>)
      modifies this`rows
      ensures Wrote(closed, old(rows), rows, writes, StoredEntries(message, scope, namespace, prior), limits)
      ensures Within(Contents(), Stored(old(Contents()), message, scope, namespace, prior))
      ensures Unlimited() ==> Contents() == Stored(old(Contents()), message, scope, namespace, prior)
      ensures stored
           == KeysStored(message, scope, namespace, prior) == |StoredEntries(message, scope, namespace, prior)|
    {
      hide Wrote, Visible;
      writes := [];
      WroteNothing(closed, rows, limits);
      if message.role != Assistant || !message.reasoning.Thought? { return 0, []; }
      var turn := TurnContextSignature(prior);
      var family := ScopedKeys(message, scope) + TurnKeys(message, namespace, turn);
      var keys := Distinct(family);
      DistinctHasItsSize(keys);
      assert (set k | k in keys) == set k | k in family;
      writes := PutEach(keys, message.reasoning.text);
      PutAllOfSameKeys(old(Contents()), keys, family, message.reasoning.text);
      stored := |keys|;
    }

    method LookupForMessage(message: Message, scope: Scope, namespace: Namespace, prior: seq<Message>)
      returns (reasoning: Option<string>)
      ensures reasoning == HitText(Contents(), ScopedKeys(message, scope) + PortableKeys(message, namespace, prior))
    {
      var turn := TurnContextSignature(prior);
      var keys := ScopedKeys(message, scope) + TurnKeys(message, namespace, turn);
      var i := 0;
      while i < |keys|
        invariant 0 <= i <= |keys|
        invariant HitText(Contents(), keys) == HitText(Contents(), keys[i..])
      {
        reasoning := Get(keys[i]);
        if reasoning.Some? { return; }
        assert keys[i..][1..] == keys[i + 1..];
        i := i + 1;
      }
      return None;
    }

    method BackfillPortableAliases(message: Message, reasoning: string, namespace: Namespace, prior: seq<Message>)
      returns (count: nat, ghost writes: seq<Write>)
      modifies this`rows
      ensures Wrote(closed, old(rows), rows, writes, AliasEntries(message, reasoning, namespace, prior), limits)
      ensures Within(Contents(), Backfilled(old(Contents()), message, reasoning, namespace, prior))
      ensures Unlimited() ==> Contents() == Backfilled(old(Contents()), message, reasoning, namespace, prior)
      ensures count == |PortableKeys(message, namespace, prior)|
    {
      hide Wrote, Visible;
      var turn := TurnContextSignature(prior);
      var keys := TurnKeys(message, namespace, turn);
      if keys == [] {
        assert Backfilled(old(Contents()), message, reasoning, namespace, prior) == old(Contents());
        WroteNothing(closed, rows, limits);
        return 0, [];
      }
      writes := PutEach(Distinct(keys), reasoning);
      PutAllOfSameKeys(old(Contents()), Distinct(keys), keys, reasoning);
      count := |keys|;
    }
  }

  lemma PutAllOfSameKeys(cache: Cache, a: seq<Key>, b: seq<Key>, reasoning: string)
    requires forall k :: k in a <==> k in b
    ensures PutAll(cache, a, reasoning) == PutAll(cache, b, reasoning)
  {
  }

  // ---------------------------------------------------------------- portable aliases

  /** After a hit and its backfill the message is found under every history that shares the turn: with the same
      reasoning, unless a key of that history's own scope hits first. */
  lemma AliasesReachTheWholeTurn(cache: Cache, message: Message, reasoning: string, namespace: Namespace,
                                 prior: seq<Message>, other: seq<Message>)
    requires !namespace.Unnamed?
    requires TurnContext(other) == TurnContext(prior)
    ensures var after := Backfilled(cache, message, reasoning, namespace, prior);
      && Lookup(after, message, namespace, other).Some?
      && (FirstHit(cache, ScopedKeys(message, ConversationScope(other, namespace))).None?
          ==> Lookup(after, message, namespace, other) == Some(reasoning))
      && (FirstHit(cache, ScopedKeys(message, ConversationScope(other, namespace))).Some?
          ==> Lookup(after, message, namespace, other) == Lookup(cache, message, namespace, other))
  {
    var after := Backfilled(cache, message, reasoning, namespace, prior);
    var scoped := ScopedKeys(message, ConversationScope(other, namespace));
    var portable := PortableKeys(message, namespace, other);
    assert portable == PortableKeys(message, namespace, prior);
    assert portable[0] in after && after[portable[0]] == reasoning;
    ScopedKeysUntouched(cache, portable, reasoning, scoped);
    FirstHitOfConcat(after, scoped, portable);
    FirstHitOfConcat(cache, scoped, portable);
  }

  lemma {:induction false} ScopedKeysUntouched(cache: Cache, portable: seq<Key>, reasoning: string, scoped: seq<Key>)
    requires forall k <- portable :: k.Portable?
    requires forall k <- scoped :: k.Scoped?
    ensures FirstHit(PutAll(cache, portable, reasoning), scoped) == FirstHit(cache, scoped)
    ensures HitText(PutAll(cache, portable, reasoning), scoped) == HitText(cache, scoped)
  {
    if scoped != [] {
      assert scoped[0] in scoped;
      ScopedKeysUntouched(cache, portable, reasoning, scoped[1..]);
    }
  }
}
