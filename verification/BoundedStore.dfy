/**
 The bounded store against its write history: with a row limit and a strictly increasing clock, the table
 is a function of the writes alone, although each write prunes only the rows that earlier prunes left.
 */
module BoundedStore {
  import opened Collections
  import opened Options
  import opened Transcript
  import opened Keys
  import opened ReasoningCache

  ghost predicate ClockIncreases(writes: seq<Write>) {
    && (forall i :: 0 <= i < |writes| ==> writes[i].at <= writes[i].prunedAt)
    && forall i, j :: 0 <= i < j < |writes| ==> writes[i].prunedAt < writes[j].at
  }

  /** `tables[i]` is the table after the first `i` writes to an empty store. */
  ghost predicate Run(tables: seq<Table>, writes: seq<Write>, limits: Limits) {
    Chain(tables, writes, limits) && tables[0] == map[]
  }

  lemma ChainFront(tables: seq<Table>, writes: seq<Write>, limits: Limits)
    requires Chain(tables, writes, limits) && ClockIncreases(writes) && writes != []
    ensures var n := |writes| - 1;
      && |tables| == n + 2 && Chain(tables[..n + 1], writes[..n], limits) && ClockIncreases(writes[..n])
      && Written(tables[n + 1], tables[n], writes[n].key, writes[n].reasoning, writes[n].at, writes[n].prunedAt, limits)
      && writes[n].at <= writes[n].prunedAt && (n > 0 ==> writes[n - 1].prunedAt < writes[n].at)
  {
    hide Written;
  }

  lemma ChainAt(tables: seq<Table>, writes: seq<Write>, limits: Limits, i: nat)
    requires Chain(tables, writes, limits) && ClockIncreases(writes) && i < |writes|
    ensures |tables| == |writes| + 1
    ensures Chain(tables[..i + 1], writes[..i], limits) && ClockIncreases(writes[..i])
    ensures Chain(tables[i + 1..], writes[i + 1..], limits) && ClockIncreases(writes[i + 1..])
    ensures Written(tables[i + 1], tables[i], writes[i].key, writes[i].reasoning, writes[i].at, writes[i].prunedAt,
                    limits)
    ensures writes[i].prunedAt <= writes[|writes| - 1].prunedAt
    ensures forall j :: 0 <= j < i ==> writes[j].at < writes[i].at
  {
    hide Written;
  }

  /** The last value written under each key, and when. */
  ghost function LastWrites(writes: seq<Write>): Table {
    if writes == [] then map[]
    else
      var w := writes[|writes| - 1];
      LastWrites(writes[..|writes| - 1])[w.key := Row(w.reasoning, w.at)]
  }

  /** The keys last written after `key` was. */
  ghost function WrittenAfter(table: Table, key: Key): set<Key>
    requires key in table
  {
    set k | k in table && table[k].createdAt > table[key].createdAt
  }

  /** The specification: the `maxRows` most recently written distinct keys that are not too old. */
  ghost function MostRecent(all: Table, now: int, limits: Limits): Table
    requires limits.RowLimited()
  {
    map k | k in all && Stays(all, k, now, limits) :: all[k]
  }

  ghost predicate Stays(all: Table, key: Key, now: int, limits: Limits)
    requires key in all && limits.RowLimited()
  {
    !Expired(all[key], now, limits) && |WrittenAfter(all, key)| < limits.maxRows.value
  }

  ghost predicate DistinctTimes(table: Table) {
    forall j, k :: j in table && k in table && j != k ==> table[j].createdAt != table[k].createdAt
  }

  lemma {:induction false} LastWritesFacts(writes: seq<Write>)
    requires ClockIncreases(writes)
    ensures DistinctTimes(LastWrites(writes))
    ensures forall k :: k in LastWrites(writes) ==> LastWrites(writes)[k].createdAt <= writes[|writes| - 1].prunedAt
  {
    if writes != [] {
      var front := writes[..|writes| - 1];
      LastWritesFacts(front);
    }
  }

  /** Among rows with distinct times the selection is determined: a row is kept iff fewer than `limit` are newer. */
  lemma NewestRowsDetermined(kept: Table, table: Table, limit: nat)
    requires NewestRows(kept, table, limit) && DistinctTimes(table)
    ensures forall k :: k in table ==> (k in kept <==> |WrittenAfter(table, k)| < limit)
  {
    assert kept.Keys <= table.Keys;
    forall k | k in table ensures k in kept <==> |WrittenAfter(table, k)| < limit {
      var newer := WrittenAfter(table, k);
      if k in kept {
        assert newer <= kept.Keys - {k};
        SubsetIsSmaller(newer, kept.Keys - {k});
      } else {
        assert kept.Keys <= newer;
        SubsetIsSmaller(kept.Keys, newer);
        if |table| <= limit { SubsetIsSmaller(kept.Keys + {k}, table.Keys); assert false; }
      }
    }
  }

  /** Whether `k` survives is the same seen from the survivors of the last write as from all keys ever written. */
  lemma SurvivorsSuffice(all: Table, before: int, w: Write, limits: Limits, k: Key)
    requires limits.RowLimited() && DistinctTimes(all)
    requires forall j :: j in all ==> all[j].createdAt <= before
    requires before < w.at <= w.prunedAt
    requires k in all && k != w.key
    ensures var row := Row(w.reasoning, w.at);
      var kept, everything := MostRecent(all, before, limits)[w.key := row], all[w.key := row];
      var recent := Unexpired(kept, w.prunedAt, limits);
      (k in recent && |WrittenAfter(recent, k)| < limits.maxRows.value)
      <==> Stays(everything, k, w.prunedAt, limits)
  {
    var row := Row(w.reasoning, w.at);
    var survivors := MostRecent(all, before, limits);
    var everything := all[w.key := row];
    var recent := Unexpired(survivors[w.key := row], w.prunedAt, limits);
    var newer := WrittenAfter(all, k);
    if k in recent {
      // Everything newer than a survivor survived as well.
      forall j | j in newer ensures j in survivors {
        SubsetIsSmaller(WrittenAfter(all, j), newer);
      }
      assert WrittenAfter(recent, k) == WrittenAfter(everything, k);
    } else if !Expired(all[k], w.prunedAt, limits) {
      assert |newer| >= limits.maxRows.value;
      assert newer <= WrittenAfter(everything, k);
      SubsetIsSmaller(newer, WrittenAfter(everything, k));
    }
  }

  /** The row just written is the newest: it stays unless it has expired by the time of the cutoff. */
  lemma NewRowIsNewest(all: Table, before: int, w: Write, limits: Limits)
    requires limits.RowLimited() && DistinctTimes(all)
    requires forall j :: j in all ==> all[j].createdAt <= before
    requires before < w.at <= w.prunedAt
    ensures var row := Row(w.reasoning, w.at);
      var recent := Unexpired(MostRecent(all, before, limits)[w.key := row], w.prunedAt, limits);
      && DistinctTimes(recent)
      && (forall k :: k in recent ==> k in all[w.key := row] && recent[k] == all[w.key := row][k])
      && (w.key in recent <==> Stays(all[w.key := row], w.key, w.prunedAt, limits))
      && (w.key in recent ==> WrittenAfter(recent, w.key) == {})
  {
    assert WrittenAfter(all[w.key := Row(w.reasoning, w.at)], w.key) == {};
  }

  /** One more write, pruned against what the earlier prunes left, gives the specification again. */
  lemma WriteKeepsMostRecent(after: Table, all: Table, before: int, w: Write, limits: Limits)
    requires limits.RowLimited() && DistinctTimes(all)
    requires forall j :: j in all ==> all[j].createdAt <= before
    requires before < w.at <= w.prunedAt
    requires Written(after, MostRecent(all, before, limits), w.key, w.reasoning, w.at, w.prunedAt, limits)
    ensures after == MostRecent(all[w.key := Row(w.reasoning, w.at)], w.prunedAt, limits)
  {
    var row := Row(w.reasoning, w.at);
    var everything := all[w.key := row];
    var recent := Unexpired(MostRecent(all, before, limits)[w.key := row], w.prunedAt, limits);
    assert NewestRows(after, recent, limits.maxRows.value);
    NewRowIsNewest(all, before, w, limits);
    hide WrittenAfter, MostRecent, Unexpired, DistinctTimes, Stays;
    NewestRowsDetermined(after, recent, limits.maxRows.value);
    forall k | k in everything ensures k in after <==> Stays(everything, k, w.prunedAt, limits) {
      if k != w.key { SurvivorsSuffice(all, before, w, limits, k); }
    }
    SameRows(after, everything, w.prunedAt, limits);
  }

  lemma SameRows(after: Table, everything: Table, now: int, limits: Limits)
    requires limits.RowLimited()
    requires forall k :: k in after ==> k in everything && after[k] == everything[k]
    requires forall k :: k in everything ==> (k in after <==> Stays(everything, k, now, limits))
    ensures after == MostRecent(everything, now, limits)
  {
  }

  /** After any run of writes the store holds exactly the `maxRows` most recently written distinct keys that are not
      older than the age limit, each with the last value written under it. */
  lemma {:induction false} BoundedStoreRefinesHistory(tables: seq<Table>, writes: seq<Write>, limits: Limits)
    requires limits.RowLimited() && ClockIncreases(writes) && Run(tables, writes, limits)
    requires writes != []
    ensures tables[|writes|] == MostRecent(LastWrites(writes), writes[|writes| - 1].prunedAt, limits)
  {
    hide Written, Chain, MostRecent, DistinctTimes, ClockIncreases;
    var n := |writes| - 1;
    ChainFront(tables, writes, limits);
    LastWritesFacts(writes[..n]);
    if n > 0 {
      BoundedStoreRefinesHistory(tables[..n + 1], writes[..n], limits);
      WriteKeepsMostRecent(tables[n + 1], LastWrites(writes[..n]), writes[n - 1].prunedAt, writes[n], limits);
    } else {
      NothingRecent(writes[0].at - 1, limits);
      WriteKeepsMostRecent(tables[1], map[], writes[0].at - 1, writes[0], limits);
    }
  }

  lemma NothingRecent(now: int, limits: Limits)
    requires limits.RowLimited()
    ensures MostRecent(map[], now, limits) == map[] && DistinctTimes(map[])
  {
  }

  // ---------------------------------------------------------------- batches of writes

  ghost function KeysWritten(writes: seq<Write>): set<Key> {
    set w | w in writes :: w.key
  }

  /** The other rows that are at least as new. */
  ghost function AsNewAs(table: Table, key: Key): set<Key>
    requires key in table
  {
    set k | k in table && k != key && table[k].createdAt >= table[key].createdAt
  }

  /** A row that has not expired outlives one write unless as many others are as new as the limit allows. */
  lemma RowOutlivesWrite(after: Table, before: Table, w: Write, limits: Limits, key: Key)
    requires limits.RowLimited() && Written(after, before, w.key, w.reasoning, w.at, w.prunedAt, limits)
    requires var table := before[w.key := Row(w.reasoning, w.at)];
      key in table && !Expired(table[key], w.prunedAt, limits) && |AsNewAs(table, key)| < limits.maxRows.value
    ensures key in after && after[key] == before[w.key := Row(w.reasoning, w.at)][key]
  {
    var table := before[w.key := Row(w.reasoning, w.at)];
    var recent := Unexpired(table, w.prunedAt, limits);
    assert NewestRows(after, recent, limits.maxRows.value);
    hide NewestRows, Expired;
    assert recent.Keys <= table.Keys && forall k :: k in recent ==> recent[k] == table[k];
    NewestKeep(after, recent, limits.maxRows.value, key, AsNewAs(table, key));
  }

  lemma NewestKeep(kept: Table, table: Table, limit: nat, key: Key, rivals: set<Key>)
    requires NewestRows(kept, table, limit) && key in table && |rivals| < limit
    requires forall k :: k in table && k != key && table[k].createdAt >= table[key].createdAt ==> k in rivals
    ensures key in kept && kept[key] == table[key]
  {
    if key !in kept {
      if |table| <= limit {
        SubsetIsSmaller(kept.Keys + {key}, table.Keys);
        assert false;
      } else {
        SubsetIsSmaller(kept.Keys, rivals);
        assert false;
      }
    }
  }

  /** A row outlives writes of other keys, unless it has expired by the last of them, or as many other rows and keys
      written are as new as the limit allows. */
  lemma {:induction false} RowSurvives(tables: seq<Table>, writes: seq<Write>, limits: Limits, key: Key)
    requires limits.RowLimited() && ClockIncreases(writes) && Chain(tables, writes, limits)
    requires key in tables[0] && key !in KeysWritten(writes)
    requires writes != [] ==> !Expired(tables[0][key], writes[|writes| - 1].prunedAt, limits)
    requires |AsNewAs(tables[0], key) + KeysWritten(writes)| < limits.maxRows.value
    ensures var after := tables[|writes|];
      && key in after && after[key] == tables[0][key]
      && AsNewAs(after, key) <= AsNewAs(tables[0], key) + KeysWritten(writes)
  {
    hide Written, Chain, ClockIncreases, AsNewAs, KeysWritten, Expired;
    if writes == [] {
      NoKeysWritten();
    } else {
      var n := |writes| - 1;
      var front, w := writes[..n], writes[n];
      ChainFront(tables, writes, limits);
      OneMoreKey(writes, tables[0][key], key, limits);
      SubsetIsSmaller(AsNewAs(tables[0], key) + KeysWritten(front), AsNewAs(tables[0], key) + KeysWritten(writes));
      RowSurvives(tables[..n + 1], front, limits, key);
      RowSurvivesOne(tables[n + 1], tables[n], w, limits, key, AsNewAs(tables[0], key) + KeysWritten(writes));
    }
  }

  lemma NoKeysWritten()
    ensures KeysWritten([]) == {}
  {
  }

  lemma OneMoreKey(writes: seq<Write>, row: Row, key: Key, limits: Limits)
    requires writes != [] && ClockIncreases(writes) && key !in KeysWritten(writes)
    requires !Expired(row, writes[|writes| - 1].prunedAt, limits)
    ensures var n := |writes| - 1;
      && KeysWritten(writes) == KeysWritten(writes[..n]) + {writes[n].key}
      && key != writes[n].key && key !in KeysWritten(writes[..n])
      && (n > 0 ==> !Expired(row, writes[n - 1].prunedAt, limits))
  {
    var n := |writes| - 1;
    assert writes == writes[..n] + [writes[n]] && writes[n] in writes;
  }

  lemma RowSurvivesOne(after: Table, before: Table, w: Write, limits: Limits, key: Key, rivals: set<Key>)
    requires limits.RowLimited() && Written(after, before, w.key, w.reasoning, w.at, w.prunedAt, limits)
    requires key in before && key != w.key && !Expired(before[key], w.prunedAt, limits)
    requires AsNewAs(before, key) <= rivals && w.key in rivals && |rivals| < limits.maxRows.value
    ensures key in after && after[key] == before[key] && AsNewAs(after, key) <= rivals
  {
    var table := before[w.key := Row(w.reasoning, w.at)];
    assert AsNewAs(table, key) <= AsNewAs(before, key) + {w.key};
    SubsetIsSmaller(AsNewAs(table, key), rivals);
    RowOutlivesWrite(after, before, w, limits, key);
    assert forall k :: k in after ==> k in table && after[k] == table[k];
  }

  /** Every row is from the start or was written. */
  lemma {:induction false} RowsAreOlder(tables: seq<Table>, writes: seq<Write>, limits: Limits, now: int)
    requires limits.RowLimited() && ClockIncreases(writes) && Chain(tables, writes, limits)
    requires forall k :: k in tables[0] ==> tables[0][k].createdAt < now
    requires forall i :: 0 <= i < |writes| ==> writes[i].at < now
    ensures forall k :: k in tables[|writes|] ==> tables[|writes|][k].createdAt < now
  {
    hide Chain, ClockIncreases;
    if writes != [] {
      var n := |writes| - 1;
      ChainFront(tables, writes, limits);
      RowsAreOlder(tables[..n + 1], writes[..n], limits, now);
    }
  }

  /** The last write of a key stays, unless it has expired by the last write of all, if no more keys were written
      than the limit allows. */
  lemma WrittenIsKept(tables: seq<Table>, writes: seq<Write>, limits: Limits, i: nat)
    requires limits.RowLimited() && ClockIncreases(writes) && Chain(tables, writes, limits) && i < |writes|
    requires forall k :: k in tables[0] ==> tables[0][k].createdAt < writes[0].at
    requires |KeysWritten(writes)| <= limits.maxRows.value
    requires forall j :: i < j < |writes| ==> writes[j].key != writes[i].key
    requires !Expired(Row(writes[i].reasoning, writes[i].at), writes[|writes| - 1].prunedAt, limits)
    ensures var w, after := writes[i], tables[|writes|]; w.key in after && after[w.key] == Row(w.reasoning, w.at)
  {
    hide Written, Chain, ClockIncreases, AsNewAs, KeysWritten, Expired;
    var w, later := writes[i], writes[i + 1..];
    ChainAt(tables, writes, limits, i);
    WriteAtIsOlder(tables, writes, i);
    RowsAreOlder(tables[..i + 1], writes[..i], limits, w.at);
    NewRowSurvives(tables[i + 1], tables[i], w, limits, writes[|writes| - 1].prunedAt);
    LaterKeysAreFewer(writes, i);
    assert {} + KeysWritten(later) == KeysWritten(later);
    RowSurvives(tables[i + 1..], later, limits, w.key);
    assert tables[i + 1..][|later|] == tables[|writes|];
  }

  lemma WriteAtIsOlder(tables: seq<Table>, writes: seq<Write>, i: nat)
    requires ClockIncreases(writes) && i < |writes| && tables != []
    requires forall k :: k in tables[0] ==> tables[0][k].createdAt < writes[0].at
    ensures forall k :: k in tables[0] ==> tables[0][k].createdAt < writes[i].at
  {
    assert i > 0 ==> writes[0].prunedAt < writes[i].at;
  }

  /** The row just written is newer than all others. */
  lemma NewRowSurvives(after: Table, before: Table, w: Write, limits: Limits, end: int)
    requires limits.RowLimited() && Written(after, before, w.key, w.reasoning, w.at, w.prunedAt, limits)
    requires forall k :: k in before ==> before[k].createdAt < w.at
    requires w.prunedAt <= end && !Expired(Row(w.reasoning, w.at), end, limits)
    ensures w.key in after && after[w.key] == Row(w.reasoning, w.at) && AsNewAs(after, w.key) == {}
  {
    var table := before[w.key := Row(w.reasoning, w.at)];
    assert AsNewAs(table, w.key) == {};
    RowOutlivesWrite(after, before, w, limits, w.key);
    assert forall k :: k in after ==> k in table && after[k] == table[k];
  }

  lemma LaterKeysAreFewer(writes: seq<Write>, i: nat)
    requires i < |writes| && forall j :: i < j < |writes| ==> writes[j].key != writes[i].key
    ensures writes[i].key !in KeysWritten(writes[i + 1..])
    ensures |KeysWritten(writes[i + 1..])| < |KeysWritten(writes)|
  {
    var later := KeysWritten(writes[i + 1..]);
    assert writes[i] in writes;
    forall k | k in later ensures k in KeysWritten(writes) && k != writes[i].key {
      var w :| w in writes[i + 1..] && w.key == k;
      var j :| i < j < |writes| && writes[j] == w;
    }
    SubsetIsSmaller(later + {writes[i].key}, KeysWritten(writes));
  }

  /** Recording a reply, or anything else that writes distinct keys, no more of them than the limit allows, leaves
      every key in the store with its text, unless the age limit is shorter than the writing takes. */
  lemma BatchIsKept(before: Table, after: Table, writes: seq<Write>, entries: seq<Entry>, limits: Limits, entry: Entry)
    requires Leads(before, after, writes, limits) && EntriesOf(writes) == entries && entry in entries
    requires limits.RowLimited() && ClockIncreases(writes)
    requires forall k :: k in before ==> before[k].createdAt < writes[0].at
    requires forall i, j :: 0 <= i < j < |entries| ==> entries[i].key != entries[j].key
    requires |entries| <= limits.maxRows.value
    requires forall i :: 0 <= i < |writes| ==>
      !Expired(Row(writes[i].reasoning, writes[i].at), writes[|writes| - 1].prunedAt, limits)
    ensures entry.key in Visible(after) && Visible(after)[entry.key] == entry.reasoning
  {
    var tables :| Chain(tables, writes, limits) && tables[0] == before && tables[|writes|] == after;
    var i :| 0 <= i < |entries| && entries[i] == entry;
    hide Written, Chain;
    KeysAreNotMore(writes);
    forall j | i < j < |writes| ensures writes[j].key != writes[i].key { assert entries[i].key != entries[j].key; }
    WrittenIsKept(tables, writes, limits, i);
  }

  /** Recording a reply with reasoning in an open store with a row limit leaves it findable after its history, unless
      it has more keys than the store may hold or the age limit is shorter than the writing takes. */
  lemma ReplyIsKept(before: Table, after: Table, writes: seq<Write>, message: Message, namespace: Namespace,
                    prior: seq<Message>, limits: Limits)
    requires message.role == Assistant && message.reasoning.Thought? && limits.RowLimited()
    requires Wrote(false, before, after, writes,
                   StoredEntries(message, ConversationScope(prior, namespace), namespace, prior), limits)
    requires ClockIncreases(writes) && |writes| <= limits.maxRows.value
    requires writes != [] ==> forall k :: k in before ==> before[k].createdAt < writes[0].at
    requires forall i :: 0 <= i < |writes| ==>
      !Expired(Row(writes[i].reasoning, writes[i].at), writes[|writes| - 1].prunedAt, limits)
    ensures Lookup(Visible(after), message, namespace, prior) == Some(message.reasoning.text)
    ensures forall key <- KeyFamily(message, namespace, prior) ::
      key in Visible(after) && Visible(after)[key] == message.reasoning.text
  {
    var family := KeyFamily(message, namespace, prior);
    var keys := Distinct(family);
    var entries := EntriesFor(keys, message.reasoning.text);
    hide ClockIncreases, Leads, Distinct, ConversationScope, TurnContext, Selectors, Expired, Visible;
    forall key | key in family ensures key in Visible(after) && Visible(after)[key] == message.reasoning.text {
      var i :| 0 <= i < |keys| && keys[i] == key;
      assert entries[i] in entries;
      BatchIsKept(before, after, writes, entries, limits, entries[i]);
    }
    assert family[0] == Scoped(ConversationScope(prior, namespace), Selectors(message)[0]) by { SomeSelector(message); }
    assert family[0] in family;
  }

  lemma SomeSelector(message: Message)
    ensures Selectors(message) != []
  {
  }

  lemma {:induction false} KeysAreNotMore(writes: seq<Write>)
    ensures |KeysWritten(writes)| <= |writes|
  {
    if writes != [] {
      var n := |writes| - 1;
      assert writes == writes[..n] + [writes[n]];
      KeysAreNotMore(writes[..n]);
      assert KeysWritten(writes) == KeysWritten(writes[..n]) + {writes[n].key};
    }
  }

  /** What all writes leave of a table, without pruning. */
  ghost function Overwritten(table: Table, writes: seq<Write>): Table {
    if writes == [] then table
    else
      var w := writes[|writes| - 1];
      Overwritten(table, writes[..|writes| - 1])[w.key := Row(w.reasoning, w.at)]
  }

  /** Exactly: a store that holds the most recent of all keys holds the most recent of all keys after any batch. */
  lemma {:induction false} BatchKeepsMostRecent(tables: seq<Table>, writes: seq<Write>, all: Table, now: int,
                                                limits: Limits)
    requires limits.RowLimited() && ClockIncreases(writes) && Chain(tables, writes, limits)
    requires DistinctTimes(all) && tables[0] == MostRecent(all, now, limits)
    requires (forall k :: k in all ==> all[k].createdAt <= now) && (writes != [] ==> now < writes[0].at)
    ensures var end := if writes == [] then now else writes[|writes| - 1].prunedAt;
      && DistinctTimes(Overwritten(all, writes))
      && (forall k :: k in Overwritten(all, writes) ==> Overwritten(all, writes)[k].createdAt <= end)
      && tables[|writes|] == MostRecent(Overwritten(all, writes), end, limits)
  {
    hide Written, Chain, MostRecent, DistinctTimes, ClockIncreases;
    if writes != [] {
      var n := |writes| - 1;
      ChainFront(tables, writes, limits);
      BatchClock(writes, now);
      BatchKeepsMostRecent(tables[..n + 1], writes[..n], all, now, limits);
      var before := if n == 0 then now else writes[n - 1].prunedAt;
      NewTimeIsDistinct(Overwritten(all, writes[..n]), before, writes[n]);
      WriteKeepsMostRecent(tables[n + 1], Overwritten(all, writes[..n]), before, writes[n], limits);
    }
  }

  lemma BatchClock(writes: seq<Write>, now: int)
    requires ClockIncreases(writes) && writes != [] && now < writes[0].at
    ensures var n := |writes| - 1;
      (if n == 0 then now else writes[n - 1].prunedAt) < writes[n].at && (n > 0 ==> writes[..n][0] == writes[0])
  {
  }

  lemma NewTimeIsDistinct(table: Table, before: int, w: Write)
    requires DistinctTimes(table) && before < w.at && forall k :: k in table ==> table[k].createdAt <= before
    ensures DistinctTimes(table[w.key := Row(w.reasoning, w.at)])
  {
  }
}
