/**
 Where restored reasoning comes from. A run records responses, restores reasoning for messages (copying scoped
 hits to portable keys) and forgets rows, in any order, for any mix of conversations and namespaces.
 */
module Provenance {
  import opened Options
  import opened Transcript
  import opened Keys
  import opened ReasoningCache
  import opened Normalize
  import opened RepairFacts
  import opened Agreement
  import opened KeyFacts

  /** A recorded response: the messages it answered, and the reply with its reasoning. */
  datatype Recording = Recording(namespace: Namespace, prior: seq<Message>, message: Message)

  datatype Event =
    | Record(recording: Recording)
    | Restore(message: Message, namespace: Namespace, prior: seq<Message>)
    | Forget

  datatype State = State(cache: Cache, log: seq<Recording>)

  /** Every step may also lose rows: the stores evict as they write. */
  ghost predicate Step(before: State, event: Event, after: State) {
    match event
    case Record(r) =>
      && Within(after.cache,
                Stored(before.cache, r.message, ConversationScope(r.prior, r.namespace), r.namespace, r.prior))
      && after.log == before.log + [r]
    case Restore(message, namespace, prior) =>
      Within(after.cache, AfterLookup(before.cache, message, namespace, prior)) && after.log == before.log
    case Forget => Within(after.cache, before.cache) && after.log == before.log
  }

  ghost predicate Run(states: seq<State>, events: seq<Event>) {
    && |states| == |events| + 1
    && states[0] == State(map[], [])
    && forall i :: 0 <= i < |events| ==> Step(states[i], events[i], states[i + 1])
  }

  // ---------------------------------------------------------------- the invariant

  /** `r` is a response in the same namespace and the same turn, with this text. */
  ghost predicate SameTurn(r: Recording, namespace: Namespace, turn: seq<Message>, text: string) {
    r.namespace == namespace && TurnContext(r.prior) == turn && r.message.reasoning == Thought(text)
  }

  /** `r` is a response in the very same scope that shares the selector. */
  ghost predicate SameScope(r: Recording, scope: Scope, selector: Selector, text: string) {
    ConversationScope(r.prior, r.namespace) == scope && selector in Selectors(r.message)
    && r.message.reasoning == Thought(text)
  }

  ghost predicate SourcedKey(log: seq<Recording>, key: Key, text: string) {
    match key
    case Scoped(scope, selector) => exists r <- log :: SameScope(r, scope, selector, text)
    case Portable(namespace, turn, _) => exists r <- log :: SameTurn(r, namespace, turn, text)
  }

  ghost predicate Sourced(log: seq<Recording>, cache: Cache) {
    forall k :: k in cache ==> SourcedKey(log, k, cache[k])
  }

  lemma LongerLog(log: seq<Recording>, r: Recording, key: Key, text: string)
    requires SourcedKey(log, key, text)
    ensures SourcedKey(log + [r], key, text)
  {
    match key
    case Scoped(scope, selector) =>
      var e :| e in log && SameScope(e, scope, selector, text);
      assert e in log + [r];
    case Portable(namespace, turn, _) =>
      var e :| e in log && SameTurn(e, namespace, turn, text);
      assert e in log + [r];
  }

  lemma StoringIsSourced(log: seq<Recording>, cache: Cache, r: Recording)
    requires Sourced(log, cache)
    ensures Sourced(log + [r], Stored(cache, r.message, ConversationScope(r.prior, r.namespace), r.namespace, r.prior))
  {
    var scope := ConversationScope(r.prior, r.namespace);
    var after := Stored(cache, r.message, scope, r.namespace, r.prior);
    var scoped, portable := ScopedKeys(r.message, scope), PortableKeys(r.message, r.namespace, r.prior);
    assert r in log + [r];
    forall k | k in after ensures SourcedKey(log + [r], k, after[k]) {
      if r.message.role == Assistant && r.message.reasoning.Thought? && k in scoped + portable {
        if k in scoped {
          assert k.selector in Selectors(r.message);
          assert SameScope(r, k.scope, k.selector, after[k]);
        } else {
          assert k in portable;
          assert SameTurn(r, k.namespace, k.turn, after[k]);
        }
      } else {
        LongerLog(log, r, k, cache[k]);
      }
    }
  }

  /** A hit of the key family comes from the same namespace and turn. */
  lemma HitIsFromTheTurn(log: seq<Recording>, cache: Cache, key: Key, message: Message, namespace: Namespace,
                         prior: seq<Message>)
    requires Sourced(log, cache) && key in KeyFamily(message, namespace, prior) && key in cache
    ensures exists r <- log :: SameTurn(r, namespace, TurnContext(prior), cache[key])
  {
    assert SourcedKey(log, key, cache[key]);
    if key.Scoped? {
      var r :| r in log && SameScope(r, key.scope, key.selector, cache[key]);
      assert ConversationScope(r.prior, r.namespace) == ConversationScope(prior, namespace);
      ScopeDeterminesTurn(r.prior, prior);
      assert SameTurn(r, namespace, TurnContext(prior), cache[key]);
    }
  }

  lemma RestoringIsSourced(log: seq<Recording>, cache: Cache, message: Message, namespace: Namespace,
                           prior: seq<Message>)
    requires Sourced(log, cache)
    ensures Sourced(log, AfterLookup(cache, message, namespace, prior))
  {
    var hit := FirstHit(cache, KeyFamily(message, namespace, prior));
    if hit.Some? && hit.value.Scoped? {
      HitIsFromTheTurn(log, cache, hit.value, message, namespace, prior);
      var text := cache[hit.value];
      var r :| r in log && SameTurn(r, namespace, TurnContext(prior), text);
      forall k | k in PortableKeys(message, namespace, prior) ensures SourcedKey(log, k, text) {
        assert SameTurn(r, k.namespace, k.turn, text);
      }
    }
  }

  lemma {:induction false} RunIsSourced(states: seq<State>, events: seq<Event>, n: nat)
    requires Run(states, events) && n <= |events|
    ensures Sourced(states[n].log, states[n].cache)
  {
    if n > 0 {
      RunIsSourced(states, events, n - 1);
      var before, after := states[n - 1], states[n];
      assert Step(before, events[n - 1], after);
      match events[n - 1]
      case Record(r) => StoringIsSourced(before.log, before.cache, r);
      case Restore(message, namespace, prior) => RestoringIsSourced(before.log, before.cache, message, namespace,
                   prior);
      case Forget =>
    }
  }

  // ---------------------------------------------------------------- the theorems

  /** `r` answered, in the same namespace, a history whose turn has the same messages, and came with this text. */
  ghost predicate AnsweredTurn(r: Recording, namespace: Namespace, prior: seq<Message>, text: string) {
    r.namespace == namespace && TurnsAgree(r.prior, prior) && r.message.reasoning == Thought(text)
  }

  /** `r` answered, in the same namespace, a history with the same messages, and shares the selector. */
  ghost predicate AnsweredHistory(r: Recording, namespace: Namespace, prior: seq<Message>, selector: Selector,
                                  text: string) {
    && r.namespace == namespace && HistoriesAgree(r.prior, prior)
    && Has(r.message, selector) && r.message.reasoning == Thought(text)
  }

  lemma SameTurnAnswered(r: Recording, namespace: Namespace, prior: seq<Message>, text: string)
    ensures SameTurn(r, namespace, TurnContext(prior), text) <==> AnsweredTurn(r, namespace, prior, text)
  {
    hide TurnContext, TurnsAgree;
    TurnsAgreeExactly(r.prior, prior);
  }

  lemma SameScopeAnswered(r: Recording, namespace: Namespace, prior: seq<Message>, selector: Selector, text: string)
    ensures SameScope(r, ConversationScope(prior, namespace), selector, text)
      <==> AnsweredHistory(r, namespace, prior, selector, text)
  {
    hide ConversationScope, HistoriesAgree, Selectors, Has;
    ScopesAgreeExactly(r.prior, r.namespace, prior, namespace);
    SelectorsExactly(r.message, selector);
  }

  /** Provenance and isolation: in every state of every run, whatever a lookup returns was recorded from a response
      in the same namespace (hence the same model family, endpoint, thinking mode and authorization) to a turn with
      the same messages; and if a key of the scope hit, to a history with the same messages, from a reply with the
      same content and calls, or with a call of the same id, form or name. */
  lemma RestoredReasoningHasASource(states: seq<State>, events: seq<Event>, n: nat, message: Message,
                                    namespace: Namespace, prior: seq<Message>)
    requires Run(states, events) && n <= |events|
    requires Lookup(states[n].cache, message, namespace, prior).Some?
    ensures var text := Lookup(states[n].cache, message, namespace, prior).value;
      && (exists r <- states[n].log :: AnsweredTurn(r, namespace, prior, text))
      && (FirstHit(states[n].cache, KeyFamily(message, namespace, prior)).value.Scoped? ==>
            exists r, selector :: r in states[n].log && Has(message, selector)
              && AnsweredHistory(r, namespace, prior, selector, text))
  {
    hide Sourced, SourcedKey, SameTurn, SameScope, AnsweredTurn, AnsweredHistory, ConversationScope, TurnContext, Has,
      PortableKeys, ScopedKeys;
    var cache, log := states[n].cache, states[n].log;
    var keys, scope := KeyFamily(message, namespace, prior), ConversationScope(prior, namespace);
    var key := FirstHit(cache, keys).value;
    RunIsSourced(states, events, n);
    HitIsFromTheTurn(log, cache, key, message, namespace, prior);
    var t :| t in log && SameTurn(t, namespace, TurnContext(prior), cache[key]);
    SameTurnAnswered(t, namespace, prior, cache[key]);
    if key.Scoped? {
      ScopedKeysExactly(message, scope, key);
      PortableKeysExactly(message, namespace, prior, key);
      var r := ScopedHasASource(log, cache, key);
      SameScopeAnswered(r, namespace, prior, key.selector, cache[key]);
    }
  }

  lemma ScopedHasASource(log: seq<Recording>, cache: Cache, key: Key) returns (r: Recording)
    requires Sourced(log, cache) && key in cache && key.Scoped?
    ensures r in log && SameScope(r, key.scope, key.selector, cache[key])
  {
    assert SourcedKey(log, key, cache[key]);
    r :| r in log && SameScope(r, key.scope, key.selector, cache[key]);
  }

  /** Two callers with different authorization never see each other's reasoning. */
  lemma CallersAreIsolated(states: seq<State>, events: seq<Event>, n: nat, message: Message, namespace: Namespace,
                           prior: seq<Message>)
    requires Run(states, events) && n <= |events| && namespace.Namespace?
    requires forall r <- states[n].log :: r.namespace.Namespace? ==>
      r.namespace.authorization != namespace.authorization
    ensures Lookup(states[n].cache, message, namespace, prior) == None
  {
    if Lookup(states[n].cache, message, namespace, prior).Some? {
      RestoredReasoningHasASource(states, events, n, message, namespace, prior);
      assert false;
    }
  }

  /** Repairing a transcript keeps the invariant. */
  lemma {:induction false} RepairIsSourced(done: seq<Message>, rest: seq<Message>, namespace: Namespace, cache: Cache,
                                           log: seq<Recording>)
    requires Sourced(log, cache)
    ensures Sourced(log, RepairFrom(done, rest, namespace, cache).cache)
    decreases |rest|
  {
    if rest != [] {
      var bare := Bared(Normalized(rest[0], true));
      RestoringIsSourced(log, cache, bare, namespace, done);
      RepairStep(done, rest, namespace, cache);
      hide Sourced, AfterLookup, Normalized, RepairedMessage;
      RepairIsSourced(done + [RepairedMessage(rest[0], done, namespace, cache)], rest[1..], namespace,
                      CacheAfter(rest[0], done, namespace, cache), log);
    }
  }

  /** Reasoning that the message did not bring comes from a lookup. */
  lemma PatchedRaw(message: Message, prior: seq<Message>, namespace: Namespace, cache: Cache)
    requires WasPatched(message, RepairedMessage(message, prior, namespace, cache))
    ensures Lookup(cache, Bared(Normalized(message, true)), namespace, prior)
         == Some(RepairedMessage(message, prior, namespace, cache).reasoning.text)
  {
    hide InToolTurn, KeyFamily, FirstHit;
  }

  /** Every reasoning text a repair adds was recorded in the same namespace, in answer to a turn with the same
      messages. */
  lemma PatchHasASource(a: seq<Message>, message: Message, b: seq<Message>, namespace: Namespace, cache: Cache,
                        log: seq<Recording>)
    requires Sourced(log, cache)
    ensures var sent := Repair(a + [message] + b, namespace, cache).messages;
      |sent| > |a| && (WasPatched(message, sent[|a|]) ==>
        exists r <- log :: AnsweredTurn(r, namespace, sent[..|a|], sent[|a|].reasoning.text))
  {
    hide RepairFrom, InToolTurn, KeyFamily, Sourced, TurnContext, SameTurn, AnsweredTurn, Normalized, FirstHit;
    RepairAt(a, message, b, namespace, cache);
    RepairIsSourced([], a, namespace, cache, log);
    var first := Repair(a, namespace, cache);
    var bare := Bared(Normalized(message, true));
    if WasPatched(message, RepairedMessage(message, first.messages, namespace, first.cache)) {
      PatchedRaw(message, first.messages, namespace, first.cache);
      var key := FirstHit(first.cache, KeyFamily(bare, namespace, first.messages)).value;
      HitIsFromTheTurn(log, first.cache, key, bare, namespace, first.messages);
      var text := first.cache[key];
      var r :| r in log && SameTurn(r, namespace, TurnContext(first.messages), text);
      SameTurnAnswered(r, namespace, first.messages, text);
    }
  }
}
