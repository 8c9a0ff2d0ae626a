/** What repair finds, how it composes, and that a richer cache never repairs less. */
module RepairFacts {
  import opened Transcript
  import opened Keys
  import opened ReasoningCache
  import opened Normalize
  import opened Agreement
  import opened KeyFacts

  /** The transcript is repaired without a gap from this cache. */
  ghost predicate Complete(cache: Cache, namespace: Namespace, messages: seq<Message>) {
    Violations(Repair(messages, namespace, cache).messages) == []
  }

  ghost predicate Findable(cache: Cache, message: Message, namespace: Namespace, prior: seq<Message>) {
    FirstHit(cache, KeyFamily(message, namespace, prior)).Some?
  }

  // ---------------------------------------------------------------- composition

  lemma {:induction false} RepairConcat(done: seq<Message>, a: seq<Message>, b: seq<Message>, namespace: Namespace,
                                        cache: Cache)
    ensures var first := RepairFrom(done, a, namespace, cache);
      RepairFrom(done, a + b, namespace, cache) == RepairFrom(first.messages, b, namespace, first.cache)
    decreases |a|
  {
    if a == [] {
      assert a + b == b;
    } else {
      assert (a + b)[1..] == a[1..] + b;
      RepairStep(done, a, namespace, cache);
      RepairStep(done, a + b, namespace, cache);
      RepairConcat(done + [RepairedMessage(a[0], done, namespace, cache)], a[1..], b, namespace,
                   CacheAfter(a[0], done, namespace, cache));
    }
  }

  /** Each message is repaired against the repaired messages before it. */
  lemma RepairAt(a: seq<Message>, message: Message, b: seq<Message>, namespace: Namespace, cache: Cache)
    ensures var first := Repair(a, namespace, cache);
      var whole := Repair(a + [message] + b, namespace, cache).messages;
      |whole| > |a| && whole[..|a|] == first.messages
      && whole[|a|] == RepairedMessage(message, first.messages, namespace, first.cache)
  {
    var first := Repair(a, namespace, cache);
    hide RepairFrom, RepairedMessage, CacheAfter, AllOnlyReasoningDiffers, NormalizedAll;
    assert a + [message] + b == a + ([message] + b);
    RepairConcat([], a, [message] + b, namespace, cache);
    RepairStep(first.messages, [message] + b, namespace, first.cache);
    assert ([message] + b)[1..] == b;
    var next := RepairedMessage(message, first.messages, namespace, first.cache);
    RepairShape(first.messages + [next], b, namespace, CacheAfter(message, first.messages, namespace, first.cache));
    RepairShape([], a, namespace, cache);
    var whole := Repair(a + [message] + b, namespace, cache).messages;
    assert whole[..|a|] == whole[..|a| + 1][..|a|];
  }

  // ---------------------------------------------------------------- repair writes portable keys only

  lemma {:induction false} RepairKeepsScopedKeys(done: seq<Message>, rest: seq<Message>, namespace: Namespace,
                                                 cache: Cache)
    ensures var after := RepairFrom(done, rest, namespace, cache).cache;
      && cache.Keys <= after.Keys
      && forall k: Key :: k.Scoped? ==> (k in after <==> k in cache) && (k in cache ==> after[k] == cache[k])
    decreases |rest|
  {
    if rest != [] {
      RepairStep(done, rest, namespace, cache);
      RepairKeepsScopedKeys(done + [RepairedMessage(rest[0], done, namespace, cache)], rest[1..], namespace,
                            CacheAfter(rest[0], done, namespace, cache));
    }
  }

  /** A reasoning text that the client sent itself stays. */
  lemma OwnReasoningStays(messages: seq<Message>, namespace: Namespace, cache: Cache, i: nat)
    requires i < |messages| && messages[i].role == Assistant
    requires messages[i].reasoning.Thought? && messages[i].reasoning.text != ""
    ensures var sent := Repair(messages, namespace, cache).messages;
      i < |sent| && sent[i].reasoning == messages[i].reasoning
  {
    assert messages == messages[..i] + [messages[i]] + messages[i + 1..];
    RepairAt(messages[..i], messages[i], messages[i + 1..], namespace, cache);
    RepairShape([], messages[..i], namespace, cache);
    hide RepairFrom, AllOnlyReasoningDiffers, Lookup, InToolTurn, NormalizedContent, NormalizedCalls;
  }

  /** Repairing one message more. */
  lemma RepairOne(a: seq<Message>, message: Message, namespace: Namespace, cache: Cache)
    ensures var first := Repair(a, namespace, cache);
      Repair(a + [message], namespace, cache)
      == Repaired(first.messages + [RepairedMessage(message, first.messages, namespace, first.cache)],
                  CacheAfter(message, first.messages, namespace, first.cache))
  {
    hide RepairFrom, RepairedMessage, CacheAfter;
    var first := Repair(a, namespace, cache);
    RepairConcat([], a, [message], namespace, cache);
    RepairStep(first.messages, [message], namespace, first.cache);
    assert [message][1..] == [];
    RepairNothing(first.messages + [RepairedMessage(message, first.messages, namespace, first.cache)], namespace,
                  CacheAfter(message, first.messages, namespace, first.cache));
  }

  lemma RepairNothing(done: seq<Message>, namespace: Namespace, cache: Cache)
    ensures RepairFrom(done, [], namespace, cache) == Repaired(done, cache)
  {
  }

  /** A message that is restored from its own history is from then on found in its whole turn. */
  lemma RepairReachesTurn(a: seq<Message>, message: Message, b: seq<Message>, namespace: Namespace, cache: Cache)
    requires !namespace.Unnamed?
    requires var first := Repair(a, namespace, cache);
      var bare := Bared(Normalized(message, true));
      NeedsRepair(bare, first.messages) && InScopeOf(cache, bare, namespace, first.messages)
    ensures var first := Repair(a, namespace, cache);
      var bare, next := Bared(Normalized(message, true)), Repair(a + [message], namespace, cache);
      && |next.messages| == |first.messages| + 1 && next.messages[|first.messages|].reasoning.Thought?
      && ReachesTurn(first.cache, next.cache, bare, namespace, first.messages,
                     next.messages[|first.messages|].reasoning.text)
      && forall other :: TurnsAgree(other, first.messages) ==>
           Lookup(Repair(a + [message] + b, namespace, cache).cache, bare, namespace, other).Some?
  {
    hide RepairFrom, NeedsRepair, Normalized, InScopeOf, ReachesTurn, AfterLookup, Lookup, TurnsAgree;
    var first := Repair(a, namespace, cache);
    var bare, next := Bared(Normalized(message, true)), Repair(a + [message], namespace, cache);
    RepairKeepsScopedKeys([], a, namespace, cache);
    ScopedStays(cache, first.cache, bare, namespace, first.messages);
    RestoringReachesTurn(first.cache, bare, namespace, first.messages);
    RepairOne(a, message, namespace, cache);
    RepairConcat([], a + [message], b, namespace, cache);
    RepairKeepsScopedKeys(next.messages, b, namespace, next.cache);
    var after := Repair(a + [message] + b, namespace, cache).cache;
    forall other | TurnsAgree(other, first.messages) ensures Lookup(after, bare, namespace, other).Some? {
      ReachesOne(first.cache, next.cache, bare, namespace, first.messages,
                 next.messages[|first.messages|].reasoning.text, other);
      FoundInRicher(next.cache, after, bare, namespace, other);
    }
  }

  lemma ScopedStays(cache: Cache, later: Cache, message: Message, namespace: Namespace, prior: seq<Message>)
    requires cache.Keys <= later.Keys && InScopeOf(cache, message, namespace, prior)
    ensures InScopeOf(later, message, namespace, prior)
  {
    hide Has, ConversationScope;
  }

  lemma ReachesOne(before: Cache, after: Cache, message: Message, namespace: Namespace, prior: seq<Message>,
                   text: string, other: seq<Message>)
    requires ReachesTurn(before, after, message, namespace, prior, text) && TurnsAgree(other, prior)
    ensures Lookup(after, message, namespace, other).Some?
  {
    hide Lookup, TurnsAgree, InScopeOf;
  }

  lemma FoundInRicher(cache: Cache, richer: Cache, message: Message, namespace: Namespace, prior: seq<Message>)
    requires cache.Keys <= richer.Keys && Lookup(cache, message, namespace, prior).Some?
    ensures Lookup(richer, message, namespace, prior).Some?
  {
    hide Has, Lookup, ConversationScope, TurnContext;
    FoundExactly(cache, message, namespace, prior);
    FoundExactly(richer, message, namespace, prior);
    var selector :| Has(message, selector) && InCacheFor(cache, selector, namespace, prior);
    assert InCacheFor(richer, selector, namespace, prior);
  }

  lemma RepairsOnlyReasoning(messages: seq<Message>, namespace: Namespace, cache: Cache)
    requires AllSettled(messages)
    ensures AllOnlyReasoningDiffers(Repair(messages, namespace, cache).messages, messages)
    ensures cache.Keys <= Repair(messages, namespace, cache).cache.Keys
  {
    RepairShape([], messages, namespace, cache);
    RepairKeepsScopedKeys([], messages, namespace, cache);
    var r := Repair(messages, namespace, cache).messages;
    assert r[0..] == r && NormalizedAll(messages, true) == messages;
  }

  // ---------------------------------------------------------------- a richer cache

  lemma OneMoreThatDiffers(a: seq<Message>, first: Message, b: seq<Message>, second: Message)
    requires AllOnlyReasoningDiffers(a, b) && OnlyReasoningDiffers(first, second)
    ensures AllOnlyReasoningDiffers(a + [first], b + [second])
  {
  }

  lemma SameHistorySameKeys(message: Message, namespace: Namespace, a: seq<Message>, b: seq<Message>)
    requires AllOnlyReasoningDiffers(a, b)
    ensures KeyFamily(message, namespace, a) == KeyFamily(message, namespace, b)
    ensures InToolTurn(message, a) <==> InToolTurn(message, b)
  {
    assert CanonicalAll(a) == CanonicalAll(b);
    ScopeDeterminesTurn(a, b);
    SameRolesSameTurn(message, a, b);
  }

  /** More keys find no less; a scoped hit stays a scoped hit, since scoped keys come first. */
  lemma RicherCacheFindsMore(message: Message, namespace: Namespace, prior: seq<Message>, poor: Cache, rich: Cache)
    requires poor.Keys <= rich.Keys
    ensures var keys := KeyFamily(message, namespace, prior);
      && (FirstHit(poor, keys).Some? ==> FirstHit(rich, keys).Some?)
      && (FirstHit(poor, keys).Some? && FirstHit(poor, keys).value.Scoped? ==> FirstHit(rich, keys).value.Scoped?)
  {
    var scoped := ScopedKeys(message, ConversationScope(prior, namespace));
    var portable := PortableKeys(message, namespace, prior);
    FirstHitOfConcat(poor, scoped, portable);
    FirstHitOfConcat(rich, scoped, portable);
  }

  /** One step of the monotonicity proof. */
  lemma RicherStep(raw: Message, namespace: Namespace, a: seq<Message>, b: seq<Message>, poor: Cache, rich: Cache)
    requires AllOnlyReasoningDiffers(a, b) && poor.Keys <= rich.Keys
    ensures OnlyReasoningDiffers(RepairedMessage(raw, a, namespace, poor), RepairedMessage(raw, b, namespace, rich))
    ensures CacheAfter(raw, a, namespace, poor).Keys <= CacheAfter(raw, b, namespace, rich).Keys
    ensures IsMissing(RepairedMessage(raw, b, namespace, rich), b) ==>
      IsMissing(RepairedMessage(raw, a, namespace, poor), a)
  {
    var bare := Bared(Normalized(raw, true));
    SameHistorySameKeys(bare, namespace, a, b);
    assert PortableKeys(bare, namespace, a) == PortableKeys(bare, namespace, b) by {
      assert CanonicalAll(a) == CanonicalAll(b);
      ScopeDeterminesTurn(a, b);
    }
    hide KeyFamily, InToolTurn, Normalized, FirstHit;
    RicherCacheFindsMore(bare, namespace, a, poor, rich);
    assert IsMissing(RepairedMessage(raw, b, namespace, rich), b) ==>
      IsMissing(RepairedMessage(raw, a, namespace, poor), a) by {
      SameToolTurn(bare, RepairedMessage(raw, a, namespace, poor), a);
      SameToolTurn(bare, RepairedMessage(raw, b, namespace, rich), b);
    }
  }

  lemma SameToolTurn(a: Message, b: Message, prior: seq<Message>)
    requires a.toolCalls == b.toolCalls
    ensures InToolTurn(a, prior) <==> InToolTurn(b, prior)
  {
  }

  lemma ViolationsLast(messages: seq<Message>, message: Message)
    ensures Violations(messages + [message])
         == Violations(messages) + if IsMissing(message, messages) then [|messages|] else []
  {
    assert (messages + [message])[..|messages|] == messages;
  }

  /** A transcript that repairs without a gap from one cache does so from every cache with at least its keys. */
  lemma {:induction false} RicherCacheRepairsMore(a: seq<Message>, b: seq<Message>, rest: seq<Message>,
                                                  namespace: Namespace, poor: Cache, rich: Cache)
    requires AllOnlyReasoningDiffers(a, b) && poor.Keys <= rich.Keys
    requires Violations(a) == [] ==> Violations(b) == []
    ensures Violations(RepairFrom(a, rest, namespace, poor).messages) == []
        ==> Violations(RepairFrom(b, rest, namespace, rich).messages) == []
    decreases |rest|
  {
    if rest != [] {
      var raw := rest[0];
      var first, second := RepairedMessage(raw, a, namespace, poor), RepairedMessage(raw, b, namespace, rich);
      hide RepairedMessage, CacheAfter, Violations, RepairFrom, AllOnlyReasoningDiffers, IsMissing,
        OnlyReasoningDiffers;
      RicherStep(raw, namespace, a, b, poor, rich);
      ViolationsLast(a, first);
      ViolationsLast(b, second);
      RepairStep(a, rest, namespace, poor);
      RepairStep(b, rest, namespace, rich);
      OneMoreThatDiffers(a, first, b, second);
      RicherCacheRepairsMore(a + [first], b + [second], rest[1..], namespace, CacheAfter(raw, a, namespace, poor),
                             CacheAfter(raw, b, namespace, rich));
    }
  }

  lemma CompleteIsMonotone(poor: Cache, rich: Cache, namespace: Namespace, messages: seq<Message>)
    requires Complete(poor, namespace, messages) && poor.Keys <= rich.Keys
    ensures Complete(rich, namespace, messages)
  {
    RicherCacheRepairsMore([], [], messages, namespace, poor, rich);
  }

  // ---------------------------------------------------------------- extending a transcript

  lemma RepairedRole(message: Message, prior: seq<Message>, namespace: Namespace, cache: Cache)
    ensures RepairedMessage(message, prior, namespace, cache).role == NormalizedRole(message.role)
  {
  }

  lemma {:induction false} OthersAreNeverMissing(done: seq<Message>, rest: seq<Message>, namespace: Namespace,
                                                 cache: Cache)
    requires forall i :: 0 <= i < |rest| ==> NormalizedRole(rest[i].role) != Assistant
    ensures Violations(RepairFrom(done, rest, namespace, cache).messages) == Violations(done)
    decreases |rest|
  {
    if rest != [] {
      var first := RepairedMessage(rest[0], done, namespace, cache);
      RepairStep(done, rest, namespace, cache);
      ViolationsLast(done, first);
      RepairedRole(rest[0], done, namespace, cache);
      hide RepairFrom, CacheAfter, RepairedMessage, Violations, InToolTurn;
      OthersAreNeverMissing(done + [first], rest[1..], namespace, CacheAfter(rest[0], done, namespace, cache));
    }
  }

  lemma FindableIsNotMissing(cache: Cache, message: Message, namespace: Namespace, prior: seq<Message>)
    requires Settled(message) && Findable(cache, Bared(message), namespace, prior)
    ensures !IsMissing(RepairedMessage(message, prior, namespace, cache), prior)
  {
    hide KeyFamily, InToolTurn, FirstHit, Normalized;
    SameToolTurn(RepairedMessage(message, prior, namespace, cache), Bared(message), prior);
  }

  /** A reply that is found under the plain history is found under the repaired one. */
  lemma FoundAfterRepair(cache: Cache, namespace: Namespace, messages: seq<Message>, reply: Message)
    requires AllSettled(messages) && Settled(reply) && Findable(cache, Bared(reply), namespace, messages)
    ensures var first := Repair(messages, namespace, cache);
      !IsMissing(RepairedMessage(reply, first.messages, namespace, first.cache), first.messages)
  {
    var first := Repair(messages, namespace, cache);
    hide RepairFrom, AllOnlyReasoningDiffers, NormalizedAll, KeyFamily, FirstHit, Settled, CacheAfter, InToolTurn,
      RepairedMessage, IsMissing, Bared;
    RepairsOnlyReasoning(messages, namespace, cache);
    SameHistorySameKeys(Bared(reply), namespace, first.messages, messages);
    RicherCacheFindsMore(Bared(reply), namespace, messages, cache, first.cache);
    FindableIsNotMissing(first.cache, reply, namespace, first.messages);
  }

  lemma RepairInThreeParts(messages: seq<Message>, reply: Message, additions: seq<Message>, namespace: Namespace,
                           cache: Cache)
    ensures var first := Repair(messages, namespace, cache);
      Repair(messages + [reply] + additions, namespace, cache)
      == RepairFrom(first.messages + [RepairedMessage(reply, first.messages, namespace, first.cache)], additions,
                    namespace, CacheAfter(reply, first.messages, namespace, first.cache))
  {
    hide RepairFrom, RepairedMessage, CacheAfter;
    var first := Repair(messages, namespace, cache);
    assert messages + [reply] + additions == messages + ([reply] + additions);
    RepairConcat([], messages, [reply] + additions, namespace, cache);
    RepairStep(first.messages, [reply] + additions, namespace, first.cache);
    assert ([reply] + additions)[1..] == additions;
  }

  /** A complete transcript stays complete when a findable reply and non-assistant messages are appended. */
  lemma CompleteExtends(before: Cache, after: Cache, namespace: Namespace, messages: seq<Message>, reply: Message,
                        additions: seq<Message>)
    requires AllSettled(messages) && Settled(reply)
    requires Complete(before, namespace, messages) && before.Keys <= after.Keys
    requires Findable(after, Bared(reply), namespace, messages)
    requires forall i :: 0 <= i < |additions| ==> NormalizedRole(additions[i].role) != Assistant
    ensures Complete(after, namespace, messages + [reply] + additions)
  {
    hide RepairFrom, RepairedMessage, CacheAfter, Violations, IsMissing, Bared, Findable, Settled, AllSettled,
      NormalizedRole;
    CompleteIsMonotone(before, after, namespace, messages);
    FoundAfterRepair(after, namespace, messages, reply);
    RepairInThreeParts(messages, reply, additions, namespace, after);
    var first := Repair(messages, namespace, after);
    var next := RepairedMessage(reply, first.messages, namespace, first.cache);
    ViolationsLast(first.messages, next);
    OthersAreNeverMissing(first.messages + [next], additions, namespace,
                          CacheAfter(reply, first.messages, namespace, first.cache));
  }
}
