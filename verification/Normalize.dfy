/** Normalising a transcript and repairing its missing reasoning from the cache. */
module Normalize {
  import opened Options
  import opened Transcript
  import opened Keys
  import opened ReasoningCache
  import opened Agreement
  import opened KeyFacts
  import opened Wording

  // ---------------------------------------------------------------- specification

  /** An empty reasoning text counts as missing when it comes from the client. */
  predicate HasThought(message: Message) {
    message.reasoning.Thought? && message.reasoning.text != ""
  }

  ghost predicate NeedsRepair(message: Message, prior: seq<Message>) {
    message.role == Assistant && !HasThought(message) && InToolTurn(message, prior)
  }

  /** Assistants lose reasoning that is empty or not text before the lookup. */
  function Bared(message: Message): Message {
    if message.role == Assistant && !HasThought(message) then message.(reasoning := Absent) else message
  }

  ghost function RepairedMessage(message: Message, prior: seq<Message>, namespace: Namespace, cache: Cache): Message {
    var bare := Bared(Normalized(message, true));
    if NeedsRepair(bare, prior) && Lookup(cache, bare, namespace, prior).Some?
    then bare.(reasoning := Thought(Lookup(cache, bare, namespace, prior).value))
    else bare
  }

  /** A hit under a key of the scope itself is copied to the portable keys of the message. */
  ghost function CacheAfter(message: Message, prior: seq<Message>, namespace: Namespace, cache: Cache): Cache {
    var bare := Bared(Normalized(message, true));
    if NeedsRepair(bare, prior) then AfterLookup(cache, bare, namespace, prior) else cache
  }

  ghost function AfterLookup(cache: Cache, message: Message, namespace: Namespace, prior: seq<Message>): Cache {
    var hit := FirstHit(cache, KeyFamily(message, namespace, prior));
    if hit.Some? && hit.value.Scoped? then Backfilled(cache, message, cache[hit.value], namespace, prior) else cache
  }

  /** What restoring writes. */
  ghost function RestoreEntries(cache: Cache, message: Message, namespace: Namespace, prior: seq<Message>): seq<Entry> {
    var hit := FirstHit(cache, KeyFamily(message, namespace, prior));
    if hit.Some? && hit.value.Scoped? then AliasEntries(message, cache[hit.value], namespace, prior) else []
  }

  datatype Repaired = Repaired(messages: seq<Message>, cache: Cache)

  ghost function RepairFrom(done: seq<Message>, rest: seq<Message>, namespace: Namespace, cache: Cache): Repaired
    decreases |rest|
  {
    if rest == [] then Repaired(done, cache)
    else RepairFrom(done + [RepairedMessage(rest[0], done, namespace, cache)], rest[1..], namespace,
                    CacheAfter(rest[0], done, namespace, cache))
  }

  ghost function Repair(messages: seq<Message>, namespace: Namespace, cache: Cache): Repaired {
    RepairFrom([], messages, namespace, cache)
  }

  /** Equal up to the reasoning of assistants. */
  ghost predicate OnlyReasoningDiffers(a: Message, b: Message) {
    a.(reasoning := Absent) == b.(reasoning := Absent) && (a.role != Assistant ==> a == b)
  }

  ghost predicate AllOnlyReasoningDiffers(a: seq<Message>, b: seq<Message>) {
    |a| == |b| && forall i :: 0 <= i < |a| ==> OnlyReasoningDiffers(a[i], b[i])
  }

  /** How many messages got their reasoning from the cache. */
  ghost function PatchCount(raw: seq<Message>, repaired: seq<Message>): nat
    requires |raw| == |repaired|
  {
    if raw == [] then 0
    else
      var last := |raw| - 1;
      PatchCount(raw[..last], repaired[..last]) + if WasPatched(raw[last], repaired[last]) then 1 else 0
  }

  predicate WasPatched(raw: Message, repaired: Message) {
    repaired.role == Assistant && !HasThought(raw) && repaired.reasoning.Thought?
  }

  /** The message is an assistant's, has reasoning, and came without. */
  ghost predicate GotReasoning(raw: Message, repaired: Message) {
    && repaired.role == Assistant && repaired.reasoning.Thought?
    && !(raw.reasoning.Thought? && raw.reasoning.text != "")
  }

  lemma WasPatchedExactly(raw: Message, repaired: Message)
    ensures WasPatched(raw, repaired) <==> GotReasoning(raw, repaired)
  {
  }

  ghost function AllThatGot(raw: seq<Message>, repaired: seq<Message>): set<int>
    requires |raw| == |repaired|
  {
    set i | 0 <= i < |raw| && GotReasoning(raw[i], repaired[i])
  }

  /** The count is the number of messages that got reasoning. */
  lemma {:induction false} PatchCountExactly(raw: seq<Message>, repaired: seq<Message>)
    requires |raw| == |repaired|
    ensures PatchCount(raw, repaired) == |AllThatGot(raw, repaired)|
  {
    hide GotReasoning, WasPatched, AllThatGot;
    if raw == [] {
      NobodyGot(raw, repaired);
    } else {
      var last := |raw| - 1;
      PatchCountExactly(raw[..last], repaired[..last]);
      WasPatchedExactly(raw[last], repaired[last]);
      OneMoreGot(raw, repaired);
    }
  }

  lemma NobodyGot(raw: seq<Message>, repaired: seq<Message>)
    requires raw == [] && repaired == []
    ensures AllThatGot(raw, repaired) == {}
  {
  }

  lemma OneMoreGot(raw: seq<Message>, repaired: seq<Message>)
    requires |raw| == |repaired| && raw != []
    ensures var last := |raw| - 1;
      |AllThatGot(raw, repaired)|
      == |AllThatGot(raw[..last], repaired[..last])| + if GotReasoning(raw[last], repaired[last]) then 1 else 0
  {
    hide GotReasoning;
    var last := |raw| - 1;
    var front := AllThatGot(raw[..last], repaired[..last]);
    assert AllThatGot(raw, repaired) == front + if GotReasoning(raw[last], repaired[last]) then {last} else {};
  }

  // ---------------------------------------------------------------- any store

  /** What reads see of a table; nothing if the store is closed or missing. */
  ghost function SeenIn(closed: bool, table: Table): Cache {
    if closed then map[] else Visible(table)
  }

  /** What repairing one message writes. */
  ghost function RepairEntries(message: Message, prior: seq<Message>, namespace: Namespace, cache: Cache): seq<Entry> {
    var bare := Bared(Normalized(message, true));
    if NeedsRepair(bare, prior) then RestoreEntries(cache, bare, namespace, prior) else []
  }

  ghost predicate RepairsOne(before: Table, after: Table, message: Message, prior: seq<Message>, normalized: Message,
                             namespace: Namespace, closed: bool, limits: Limits)
  {
    && normalized == RepairedMessage(message, prior, namespace, SeenIn(closed, before))
    && exists writes ::
         Wrote(closed, before, after, writes, RepairEntries(message, prior, namespace, SeenIn(closed, before)), limits)
  }

  /** Each message is repaired from the table that the ones before it left, whatever the store evicts as it writes. */
  ghost predicate RepairsThrough(tables: seq<Table>, messages: seq<Message>, normalized: seq<Message>,
                                 namespace: Namespace, closed: bool, limits: Limits)
  {
    && |tables| == |messages| + 1 && |normalized| == |messages|
    && forall i :: 0 <= i < |messages| ==>
         RepairsOne(tables[i], tables[i + 1], messages[i], normalized[..i], normalized[i], namespace, closed, limits)
  }

  ghost predicate Repairs(before: Table, after: Table, messages: seq<Message>, normalized: seq<Message>,
                          namespace: Namespace, closed: bool, limits: Limits)
  {
    exists tables :: RepairsThrough(tables, messages, normalized, namespace, closed, limits)
      && tables[0] == before && tables[|messages|] == after
  }

  lemma NothingRepaired(table: Table, namespace: Namespace, closed: bool, limits: Limits)
    ensures Repairs(table, table, [], [], namespace, closed, limits)
  {
    assert RepairsThrough([table], [], [], namespace, closed, limits);
  }

  lemma OneMoreRepaired(before: Table, middle: Table, after: Table, messages: seq<Message>, done: seq<Message>,
                        message: Message, normalized: Message, namespace: Namespace, closed: bool, limits: Limits)
    requires Repairs(before, middle, messages, done, namespace, closed, limits)
    requires RepairsOne(middle, after, message, done, normalized, namespace, closed, limits)
    ensures Repairs(before, after, messages + [message], done + [normalized], namespace, closed, limits)
  {
    hide RepairsOne;
    var tables :| RepairsThrough(tables, messages, done, namespace, closed, limits)
      && tables[0] == before && tables[|messages|] == middle;
    var longer, all, out := tables + [after], messages + [message], done + [normalized];
    forall i | 0 <= i < |all|
      ensures RepairsOne(longer[i], longer[i + 1], all[i], out[..i], out[i], namespace, closed, limits)
    {
      assert out[..i] == done[..i];
      if i == |messages| { assert done[..i] == done; }
    }
    assert RepairsThrough(longer, all, out, namespace, closed, limits);
  }

  ghost function TableOf(store: ReasoningStore?): Table
    reads store
  {
    if store == null then map[] else store.rows
  }

  ghost predicate ClosedOf(store: ReasoningStore?)
    reads store
  {
    store == null || store.closed
  }

  ghost function LimitsOf(store: ReasoningStore?): Limits {
    if store == null then Limits(None, None) else store.limits
  }

  // ---------------------------------------------------------------- the methods

  ghost function ContentsOf(store: ReasoningStore?): Cache
    reads store
  {
    if store == null then map[] else store.Contents()
  }

  /** No store, or one whose writes never remove anything. */
  ghost predicate Steady(store: ReasoningStore?)
    reads store
  {
    store == null || store.Unlimited()
  }

  /** The cache has the message under the very history. */
  ghost predicate InScopeOf(cache: Cache, message: Message, namespace: Namespace, prior: seq<Message>) {
    exists selector :: Has(message, selector) && Scoped(ConversationScope(prior, namespace), selector) in cache
  }

  /** In every turn that agrees with that of `prior`, the message is now found, and so is every message that shares
      its content and calls, or the id, form or name of a call; the message itself with the text, unless the cache
      had it under that history already. */
  ghost predicate ReachesTurn(before: Cache, after: Cache, message: Message, namespace: Namespace, prior: seq<Message>,
                              text: string)
  {
    forall other :: TurnsAgree(other, prior) ==>
      && (forall twin, selector :: Has(message, selector) && Has(twin, selector) ==>
            Lookup(after, twin, namespace, other).Some?)
      && Lookup(after, message, namespace, other).Some?
      && (!InScopeOf(before, message, namespace, other) ==> Lookup(after, message, namespace, other) == Some(text))
  }

  lemma ScopedHitExactly(cache: Cache, message: Message, namespace: Namespace, prior: seq<Message>)
    ensures FirstHit(cache, ScopedKeys(message, ConversationScope(prior, namespace))).Some?
      <==> InScopeOf(cache, message, namespace, prior)
  {
    hide Has, ConversationScope, ScopedKeys;
    var scope := ConversationScope(prior, namespace);
    var keys := ScopedKeys(message, scope);
    if FirstHit(cache, keys).Some? {
      var key := FirstHit(cache, keys).value;
      ScopedKeysExactly(message, scope, key);
      assert Scoped(scope, key.selector) == key;
    }
    if selector :| Has(message, selector) && Scoped(scope, selector) in cache {
      ScopedKeysExactly(message, scope, Scoped(scope, selector));
    }
  }

  lemma ScopedHitIsFirst(cache: Cache, message: Message, namespace: Namespace, prior: seq<Message>)
    requires FirstHit(cache, ScopedKeys(message, ConversationScope(prior, namespace))).Some?
    ensures var hit := FirstHit(cache, KeyFamily(message, namespace, prior));
      hit == FirstHit(cache, ScopedKeys(message, ConversationScope(prior, namespace))) && hit.value.Scoped?
      && Lookup(cache, message, namespace, prior) == Some(cache[hit.value])
  {
    FirstHitOfConcat(cache, ScopedKeys(message, ConversationScope(prior, namespace)),
                     PortableKeys(message, namespace, prior));
  }

  lemma AliasFindsTwins(cache: Cache, message: Message, text: string, namespace: Namespace, prior: seq<Message>,
                        other: seq<Message>, twin: Message, selector: Selector)
    requires !namespace.Unnamed? && TurnsAgree(other, prior) && Has(message, selector) && Has(twin, selector)
    ensures Lookup(Backfilled(cache, message, text, namespace, prior), twin, namespace, other).Some?
  {
    hide Has, PortableKeys, TurnContext, TurnsAgree, Lookup, ConversationScope;
    TurnsAgreeExactly(other, prior);
    var key := Portable(namespace, TurnContext(prior), selector);
    PortableKeysExactly(message, namespace, prior, key);
    var after := Backfilled(cache, message, text, namespace, prior);
    assert key in after;
    FoundExactly(after, twin, namespace, other);
    assert InCacheFor(after, selector, namespace, other);
  }

  /** A hit under the history itself makes the text reach the whole turn. */
  lemma RestoringReachesTurn(cache: Cache, message: Message, namespace: Namespace, prior: seq<Message>)
    requires !namespace.Unnamed? && InScopeOf(cache, message, namespace, prior)
    ensures Lookup(cache, message, namespace, prior).Some?
    ensures ReachesTurn(cache, AfterLookup(cache, message, namespace, prior), message, namespace, prior,
                        Lookup(cache, message, namespace, prior).value)
  {
    hide InScopeOf, KeyFamily, ScopedKeys, ConversationScope, TurnContext, TurnsAgree, Backfilled, FirstHit, Has;
    ScopedHitExactly(cache, message, namespace, prior);
    ScopedHitIsFirst(cache, message, namespace, prior);
    var text := Lookup(cache, message, namespace, prior).value;
    var after := AfterLookup(cache, message, namespace, prior);
    assert after == Backfilled(cache, message, text, namespace, prior);
    forall other | TurnsAgree(other, prior)
      ensures forall twin, selector :: Has(message, selector) && Has(twin, selector) ==>
        Lookup(after, twin, namespace, other).Some?
      ensures Lookup(after, message, namespace, other).Some?
      ensures !InScopeOf(cache, message, namespace, other) ==> Lookup(after, message, namespace, other) == Some(text)
    {
      forall twin, selector | Has(message, selector) && Has(twin, selector)
        ensures Lookup(after, twin, namespace, other).Some?
      {
        AliasFindsTwins(cache, message, text, namespace, prior, other, twin, selector);
      }
      TurnsAgreeExactly(other, prior);
      ScopedHitExactly(cache, message, namespace, other);
      AliasesReachTheWholeTurn(cache, message, text, namespace, prior, other);
    }
  }

  lemma ScopedInFamily(cache: Cache, message: Message, namespace: Namespace, prior: seq<Message>, key: Key)
    requires key in KeyFamily(message, namespace, prior) && key.Scoped? && key in cache
    ensures InScopeOf(cache, message, namespace, prior)
  {
    hide Has, ConversationScope, TurnContext, ScopedKeys, PortableKeys;
    ScopedKeysExactly(message, ConversationScope(prior, namespace), key);
    PortableKeysExactly(message, namespace, prior, key);
    assert Has(message, key.selector) && Scoped(ConversationScope(prior, namespace), key.selector) == key;
  }

  /** The loop over the lookup keys, up to the first that hits. */
  method RestoreReasoning(bare: Message, store: ReasoningStore, namespace: Namespace, prior: seq<Message>)
    returns (restored: Option<string>, ghost writes: seq<Write>)
    modifies store`rows
    ensures Wrote(store.closed, old(store.rows), store.rows, writes,
                  RestoreEntries(old(store.Contents()), bare, namespace, prior), store.limits)
    ensures restored == Lookup(old(store.Contents()), bare, namespace, prior)
    ensures Within(store.Contents(), AfterLookup(old(store.Contents()), bare, namespace, prior))
    ensures store.Unlimited() ==> store.Contents() == AfterLookup(old(store.Contents()), bare, namespace, prior)
    ensures store.Unlimited() && !namespace.Unnamed? && InScopeOf(old(store.Contents()), bare, namespace, prior) ==>
      restored.Some? && ReachesTurn(old(store.Contents()), store.Contents(), bare, namespace, prior, restored.value)
    // What only a key of the turn finds is not copied.
    ensures !InScopeOf(old(store.Contents()), bare, namespace, prior) ==> store.rows == old(store.rows)
  {
    hide ReasoningLookupKeys, KeyFamily, ConversationScope, TurnContext, Backfilled, InScopeOf, ReachesTurn, Wrote,
      AliasEntries, FirstHit, Visible;
    writes := [];
    WroteNothing(store.closed, store.rows, store.limits);
    if !namespace.Unnamed? && InScopeOf(store.Contents(), bare, namespace, prior) {
      RestoringReachesTurn(store.Contents(), bare, namespace, prior);
    }
    var scope := ConversationScope(prior, namespace);
    var turn := TurnContextSignature(prior);
    var lookups := ReasoningLookupKeys(bare, scope, namespace, turn);
    ghost var keys := KeyFamily(bare, namespace, prior);
    KeyListsAgree(bare, namespace, prior);
    assert keys[0..] == keys;
    var i := 0;
    while i < |lookups|
      invariant 0 <= i <= |lookups| && store.rows == old(store.rows)
      invariant FirstHit(store.Contents(), keys) == FirstHit(store.Contents(), keys[i..])
    {
      assert lookups[i].key == KeysOf(lookups)[i] == keys[i];
      FirstHitAt(store.Contents(), keys, i);
      restored := store.Get(lookups[i].key);
      if restored.Some? {
        if !lookups[i].portable {
          ScopedInFamily(store.Contents(), bare, namespace, prior, keys[i]);
          BackfillIgnoresReasoning(store.Contents(), bare, restored.value, namespace, prior);
          var count;
          count, writes := store.BackfillPortableAliases(bare.(reasoning := Thought(restored.value)), restored.value,
                                                     namespace, prior);
        }
        return;
      }
      i := i + 1;
    }
    NoHit(store.Contents());
    assert keys[i..] == [];
    restored := None;
  }

  lemma FirstHitAt(cache: Cache, keys: seq<Key>, i: nat)
    requires i < |keys|
    ensures FirstHit(cache, keys[i..]) == if keys[i] in cache then Some(keys[i]) else FirstHit(cache, keys[i + 1..])
  {
    assert keys[i..][0] == keys[i] && keys[i..][1..] == keys[i + 1..];
  }

  lemma NoHit(cache: Cache)
    ensures FirstHit(cache, []).None?
  {
  }

  lemma BackfillIgnoresReasoning(cache: Cache, message: Message, reasoning: string, namespace: Namespace,
                                 prior: seq<Message>)
    ensures Backfilled(cache, message.(reasoning := Thought(reasoning)), reasoning, namespace, prior)
         == Backfilled(cache, message, reasoning, namespace, prior)
    ensures AliasEntries(message.(reasoning := Thought(reasoning)), reasoning, namespace, prior)
         == AliasEntries(message, reasoning, namespace, prior)
  {
    SelectorsIgnoreReasoning(message, Thought(reasoning));
  }

  ghost predicate IsMissing(normalized: Message, prior: seq<Message>) {
    normalized.role == Assistant && InToolTurn(normalized, prior) && !normalized.reasoning.Thought?
  }

  /** The outcome of normalising one message: whether its reasoning came from the cache, and whether it is missing. */
  ghost predicate MessageOutcome(message: Message, prior: seq<Message>, namespace: Namespace, cache: Cache,
                                 normalized: Message, patched: bool, missing: bool, repair: bool, keep: bool)
  {
    if repair && keep then
      && normalized == RepairedMessage(message, prior, namespace, cache)
      && (patched <==> WasPatched(message, normalized))
      && (missing <==> IsMissing(normalized, prior))
    else
      normalized == Normalized(message, keep) && !patched && !missing
  }

  method NormalizeMessage(message: Message, store: ReasoningStore?, prior: seq<Message>, namespace: Namespace,
                          repair: bool, keep: bool)
    returns (normalized: Message, patched: bool, missing: bool)
    modifies store
    ensures store != null ==> store.closed == old(store.closed)
    ensures Steady(store) == old(Steady(store)) && ClosedOf(store) == old(ClosedOf(store))
    ensures MessageOutcome(message, prior, namespace, old(ContentsOf(store)), normalized, patched, missing, repair,
                           keep)
    ensures if repair && keep
      then RepairsOne(old(TableOf(store)), TableOf(store), message, prior, normalized, namespace, ClosedOf(store),
                      LimitsOf(store))
      else TableOf(store) == old(TableOf(store))
    // The reasoning came from the cache exactly if there is one and the client sent none.
    ensures patched
      <==> (repair && keep && normalized.role == Assistant && normalized.reasoning.Thought?
            && !(message.reasoning.Thought? && message.reasoning.text != ""))
    // The client's fields and words, and its own reasoning if it sent any.
    ensures Carries(normalized, message)
    ensures normalized.role == Assistant && keep && message.reasoning.Thought? && message.reasoning.text != "" ==>
      normalized.reasoning == message.reasoning
    ensures normalized.role == Assistant && !keep ==> normalized.reasoning == Absent
    ensures !(repair && keep) ==> ContentsOf(store) == old(ContentsOf(store))
    ensures repair && keep ==> Within(ContentsOf(store), CacheAfter(message, prior, namespace, old(ContentsOf(store))))
    ensures repair && keep && Steady(store) ==>
      ContentsOf(store) == CacheAfter(message, prior, namespace, old(ContentsOf(store)))
  {
    hide KeyFamily, FirstHit, Backfilled, NormalizedContent, NormalizedCalls, InToolTurn, Visible, Carries, Wrote,
      ReachesTurn, InScopeOf;
    normalized := Normalized(message, keep);
    CarriesAnyReasoning(message, keep);
    ghost var cache, writes := ContentsOf(store), [];
    WroteNothing(ClosedOf(store), TableOf(store), LimitsOf(store));
    patched, missing := false, false;
    if normalized.role == Assistant && keep && repair && !HasThought(normalized) {
      normalized := normalized.(reasoning := Absent);
      var needs := AssistantNeedsReasoning(normalized, prior);
      if needs {
        if store != null {
          var restored;
          restored, writes := RestoreReasoning(normalized, store, namespace, prior);
          if restored.Some? {
            normalized := normalized.(reasoning := Thought(restored.value));
            patched := true;
          }
        } else {
          NothingInEmptyCache(normalized, namespace, prior);
        }
        missing := !patched;
      }
    }
    assert repair && keep ==>
      Wrote(ClosedOf(store), old(TableOf(store)), TableOf(store), writes,
            RepairEntries(message, prior, namespace, cache),
            LimitsOf(store));
  }

  lemma CarriesAnyReasoning(message: Message, keep: bool)
    ensures forall reasoning :: Carries(Normalized(message, keep).(reasoning := reasoning), message)
  {
    hide Normalized, Carries;
    NormalizedCarries(message, keep);
    forall reasoning ensures Carries(Normalized(message, keep).(reasoning := reasoning), message) {
      CarriesIgnoresReasoning(Normalized(message, keep), message, reasoning);
    }
  }

  lemma NothingInEmptyCache(message: Message, namespace: Namespace, prior: seq<Message>)
    ensures FirstHit(map[], KeyFamily(message, namespace, prior)).None?
  {
  }

  /** The outcome of normalising `messages`: without repair, message by message; with repair, the reported indices
      are exactly the violations that are left, and only reasoning was touched. */
  ghost predicate Outcome(messages: seq<Message>, normalized: seq<Message>, patched: nat, missing: seq<int>,
                          repair: bool, keep: bool) {
    if repair && keep then
      && AllOnlyReasoningDiffers(normalized, NormalizedAll(messages, true))
      && missing == Violations(normalized)
      && patched == PatchCount(messages, normalized)
    else
      normalized == NormalizedAll(messages, keep) && missing == [] && patched == 0
  }

  method NormalizeMessages(messages: seq<Message>, store: ReasoningStore?, namespace: Namespace, repair: bool,
                           keep: bool)
    returns (normalized: seq<Message>, patched: nat, missing: seq<int>)
    modifies store
    ensures store != null ==> store.closed == old(store.closed)
    ensures ClosedOf(store) == old(ClosedOf(store))
    ensures Outcome(messages, normalized, patched, missing, repair, keep)
    ensures AllCarry(messages, normalized)
    // Each message is repaired from what the store holds by then, whatever its limits.
    ensures if repair && keep
      then Repairs(old(TableOf(store)), TableOf(store), messages, normalized, namespace, ClosedOf(store),
                   LimitsOf(store))
      else TableOf(store) == old(TableOf(store))
    ensures !(repair && keep) ==> ContentsOf(store) == old(ContentsOf(store))
    ensures repair && keep && Steady(store) ==>
      Repaired(normalized, ContentsOf(store)) == Repair(messages, namespace, old(ContentsOf(store)))
  {
    hide *;
    normalized, patched, missing := [], 0, [];
    var i := 0;
    ghost var start, steady := ContentsOf(store), repair && keep && Steady(store);
    NothingYet(messages, namespace, start, repair, keep, steady);
    NothingRepaired(TableOf(store), namespace, ClosedOf(store), LimitsOf(store));
    NothingBefore(messages);
    while i < |messages|
      invariant 0 <= i <= |messages|
      invariant store != null ==> store.closed == old(store.closed)
      invariant Steady(store) == old(Steady(store))
      invariant ClosedOf(store) == old(ClosedOf(store))
      invariant if repair && keep
        then Repairs(old(TableOf(store)), TableOf(store), messages[..i], normalized, namespace, ClosedOf(store),
                     LimitsOf(store))
        else TableOf(store) == old(TableOf(store))
      invariant SoFar(messages, i, normalized, patched, missing, namespace, start, ContentsOf(store), repair, keep,
                      steady)
    {
      ghost var cache, done, count, gaps := ContentsOf(store), normalized, patched, missing;
      ghost var table := TableOf(store);
      var message, wasPatched, isMissing := NormalizeMessage(messages[i], store, normalized, namespace, repair, keep);
      if repair && keep {
        OneMoreRepaired(old(TableOf(store)), table, TableOf(store), messages[..i], normalized, messages[i], message,
                        namespace, ClosedOf(store), LimitsOf(store));
      }
      FrontOf(messages, i);
      normalized := normalized + [message];
      patched := if wasPatched then patched + 1 else patched;
      missing := if isMissing then missing + [|normalized| - 1] else missing;
      i := i + 1;
      OneMoreSoFar(messages, i, done, count, gaps, message, wasPatched, isMissing, normalized, patched, missing,
                   namespace, start, cache, ContentsOf(store), repair, keep, steady);
    }
    AllDone(messages, normalized, patched, missing, namespace, start, ContentsOf(store), repair, keep, steady);
    OutcomeCarries(messages, normalized, patched, missing, repair, keep);
    AllOf(messages);
  }

  lemma NothingBefore(messages: seq<Message>)
    ensures messages[..0] == []
  {
  }

  lemma FrontOf(messages: seq<Message>, i: nat)
    requires i < |messages|
    ensures messages[..i + 1] == messages[..i] + [messages[i]]
  {
  }

  lemma AllOf(messages: seq<Message>)
    ensures messages[..|messages|] == messages
  {
  }

  /** Each message carries the fields and words of the client's. */
  ghost predicate AllCarry(messages: seq<Message>, normalized: seq<Message>) {
    |normalized| == |messages| && forall i :: 0 <= i < |messages| ==> Carries(normalized[i], messages[i])
  }

  lemma OutcomeCarries(messages: seq<Message>, normalized: seq<Message>, patched: nat, missing: seq<int>, repair: bool,
                       keep: bool)
    requires Outcome(messages, normalized, patched, missing, repair, keep)
    ensures AllCarry(messages, normalized)
  {
    hide Carries, Normalized;
    forall i | 0 <= i < |messages| ensures Carries(normalized[i], messages[i]) {
      CarriesAnyReasoning(messages[i], keep);
      var m := Normalized(messages[i], keep);
      assert m.(reasoning := m.reasoning) == m;
      if repair && keep {
        assert OnlyReasoningDiffers(normalized[i], NormalizedAll(messages, true)[i]);
        assert normalized[i] == m.(reasoning := normalized[i].reasoning);
      }
    }
  }

  /** The first `i` messages are done, and repairing the rest from the cache as it is now completes the whole repair. */
  ghost predicate SoFar(messages: seq<Message>, i: int, normalized: seq<Message>, patched: nat, missing: seq<int>,
                        namespace: Namespace, start: Cache, now: Cache, repair: bool, keep: bool, steady: bool)
    requires 0 <= i <= |messages|
  {
    && Outcome(messages[..i], normalized, patched, missing, repair, keep)
    && (!(repair && keep) ==> now == start)
    && (steady ==> RepairFrom(normalized, messages[i..], namespace, now) == Repair(messages, namespace, start))
  }

  lemma NothingYet(messages: seq<Message>, namespace: Namespace, start: Cache, repair: bool, keep: bool, steady: bool)
    ensures SoFar(messages, 0, [], 0, [], namespace, start, start, repair, keep, steady)
  {
    assert messages[0..] == messages;
  }

  lemma OneMoreSoFar(messages: seq<Message>, i: nat, done: seq<Message>, count: nat, gaps: seq<int>, message: Message,
                     wasPatched: bool, isMissing: bool, normalized: seq<Message>, patched: nat, missing: seq<int>,
                     namespace: Namespace, start: Cache, before: Cache, after: Cache, repair: bool, keep: bool,
                     steady: bool)
    requires 0 < i <= |messages|
      && SoFar(messages, i - 1, done, count, gaps, namespace, start, before, repair, keep, steady)
    requires MessageOutcome(messages[i - 1], done, namespace, before, message, wasPatched, isMissing, repair, keep)
    requires normalized == done + [message]
    requires patched == if wasPatched then count + 1 else count
    requires missing == if isMissing then gaps + [|normalized| - 1] else gaps
    requires !(repair && keep) ==> after == before
    requires steady ==> repair && keep && after == CacheAfter(messages[i - 1], done, namespace, before)
    ensures SoFar(messages, i, normalized, patched, missing, namespace, start, after, repair, keep, steady)
  {
    assert messages[..i] == messages[..i - 1] + [messages[i - 1]] && messages[i - 1..][1..] == messages[i..];
    OneMore(messages[..i - 1], messages[i - 1], done, message, count, gaps, wasPatched, isMissing, namespace, before,
            repair, keep);
    if steady {
      RepairStep(done, messages[i - 1..], namespace, before);
      assert message == RepairedMessage(messages[i - 1], done, namespace, before);
    }
  }

  lemma AllDone(messages: seq<Message>, normalized: seq<Message>, patched: nat, missing: seq<int>, namespace: Namespace,
                start: Cache, now: Cache, repair: bool, keep: bool, steady: bool)
    requires SoFar(messages, |messages|, normalized, patched, missing, namespace, start, now, repair, keep, steady)
    ensures Outcome(messages, normalized, patched, missing, repair, keep)
    ensures !(repair && keep) ==> now == start
    ensures steady ==> Repaired(normalized, now) == Repair(messages, namespace, start)
  {
    assert messages[..|messages|] == messages && messages[|messages|..] == [];
  }

  lemma RepairStep(done: seq<Message>, rest: seq<Message>, namespace: Namespace, cache: Cache)
    requires rest != []
    ensures RepairFrom(done, rest, namespace, cache)
         == RepairFrom(done + [RepairedMessage(rest[0], done, namespace, cache)], rest[1..], namespace,
                       CacheAfter(rest[0], done, namespace, cache))
  {
  }

  /** One message more. */
  lemma OneMore(messages: seq<Message>, raw: Message, done: seq<Message>, message: Message, patched: nat,
                missing: seq<int>, wasPatched: bool, isMissing: bool, namespace: Namespace, cache: Cache, repair: bool,
                keep: bool)
    requires Outcome(messages, done, patched, missing, repair, keep)
    requires MessageOutcome(raw, done, namespace, cache, message, wasPatched, isMissing, repair, keep)
    ensures Outcome(messages + [raw], done + [message], if wasPatched then patched + 1 else patched,
                    if isMissing then missing + [|done|] else missing, repair, keep)
  {
    assert NormalizedAll(messages + [raw], keep) == NormalizedAll(messages, keep) + [Normalized(raw, keep)];
    if repair && keep {
      RepairedOnlyReasoning(raw, done, namespace, cache);
      hide Normalized, NormalizedAll, RepairedMessage;
      assert (messages + [raw])[..|messages|] == messages;
      assert (done + [message])[..|done|] == done;
    }
  }

  // ---------------------------------------------------------------- repair is invisible to scoping

  lemma RepairedOnlyReasoning(message: Message, prior: seq<Message>, namespace: Namespace, cache: Cache)
    ensures OnlyReasoningDiffers(RepairedMessage(message, prior, namespace, cache), Normalized(message, true))
  {
  }

  lemma {:induction false} RepairShape(done: seq<Message>, rest: seq<Message>, namespace: Namespace, cache: Cache)
    ensures var r := RepairFrom(done, rest, namespace, cache).messages;
      |r| == |done| + |rest| && r[..|done|] == done && AllOnlyReasoningDiffers(r[|done|..], NormalizedAll(rest, true))
    decreases |rest|
  {
    if rest != [] {
      var first, next := RepairedMessage(rest[0], done, namespace, cache), CacheAfter(rest[0], done, namespace, cache);
      RepairedOnlyReasoning(rest[0], done, namespace, cache);
      RepairStep(done, rest, namespace, cache);
      hide RepairFrom, RepairedMessage, CacheAfter, AllOnlyReasoningDiffers, OnlyReasoningDiffers, Normalized;
      RepairShape(done + [first], rest[1..], namespace, next);
      ShapeOfStep(done, first, rest, RepairFrom(done, rest, namespace, cache).messages);
    }
  }

  lemma ShapeOfStep(done: seq<Message>, first: Message, rest: seq<Message>, r: seq<Message>)
    requires rest != [] && OnlyReasoningDiffers(first, Normalized(rest[0], true))
    requires |r| == |done| + |rest| && r[..|done| + 1] == done + [first]
    requires AllOnlyReasoningDiffers(r[|done| + 1..], NormalizedAll(rest[1..], true))
    ensures r[..|done|] == done && AllOnlyReasoningDiffers(r[|done|..], NormalizedAll(rest, true))
  {
    hide Normalized, OnlyReasoningDiffers;
    assert r[..|done|] == r[..|done| + 1][..|done|];
    assert r[|done|] == r[..|done| + 1][|done|] == first;
    assert r[|done|..] == [first] + r[|done| + 1..];
    assert NormalizedAll(rest, true) == [Normalized(rest[0], true)] + NormalizedAll(rest[1..], true);
  }

  /** Every prefix of the repaired transcript has the scope of the same prefix normalised without repair. */
  lemma RepairIsInvisibleToScopes(messages: seq<Message>, namespace: Namespace, cache: Cache, n: nat)
    requires n <= |messages|
    ensures |Repair(messages, namespace, cache).messages| == |messages|
    ensures ConversationScope(Repair(messages, namespace, cache).messages[..n], namespace)
         == ConversationScope(NormalizedAll(messages, true)[..n], namespace)
  {
    RepairShape([], messages, namespace, cache);
    var r := Repair(messages, namespace, cache).messages;
    assert r[0..] == r;
    assert CanonicalAll(r[..n]) == CanonicalAll(NormalizedAll(messages, true)[..n]);
  }
}
