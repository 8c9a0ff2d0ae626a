/** What the keys of a message are, said of its fields; and who finds what was stored under them. */
module KeyFacts {
  import opened Options
  import opened Transcript
  import opened Keys
  import opened ReasoningCache
  import opened Agreement

  /** The call in its canonical form: a missing kind is a function, and the arguments are text. */
  ghost predicate IsFormOf(form: ToolCall, call: ToolCall) {
    && form.name == call.name && form.kind == (if call.kind == "" then "function" else call.kind)
    && form.arguments.Raw?
    && form.arguments.text
       == match call.arguments { case Raw(text) => text case Structured(rendered) => rendered }
  }

  /** The message has the selector: its content and calls together, or the id, the form or the name of one call. */
  ghost predicate Has(message: Message, selector: Selector) {
    match selector
    case Signature(content, calls) =>
      && (if message.content == None || message.content == Some(Null) || message.content == Some(Parts([]))
          then content == Text("") else message.content == Some(content))
      && |calls| == |message.toolCalls|
      && forall i :: 0 <= i < |calls| ==>
           calls[i].id == message.toolCalls[i].id && IsFormOf(calls[i], message.toolCalls[i])
    case CallId(id) => id != "" && exists call <- message.toolCalls :: call.id == id
    case CallSignature(form) => form.id == "" && exists call <- message.toolCalls :: IsFormOf(form, call)
    case ToolName(name) => name != "" && exists call <- message.toolCalls :: call.name == name
  }

  lemma SignatureExactly(message: Message, selector: Selector)
    requires selector.Signature?
    ensures selector == MessageSignature(message) <==> Has(message, selector)
  {
    var calls := NormalizedCalls(message.toolCalls);
    if Has(message, selector) {
      forall i | 0 <= i < |calls| ensures calls[i] == selector.calls[i] {
        assert IsFormOf(selector.calls[i], message.toolCalls[i]);
      }
      assert calls == selector.calls;
    }
  }

  lemma {:induction false} CallIdsExactly(calls: seq<ToolCall>, selector: Selector)
    ensures selector in CallIds(calls)
      <==> selector.CallId? && selector.id != "" && exists call <- calls :: call.id == selector.id
  {
    if calls != [] {
      assert calls == [calls[0]] + calls[1..];
      CallIdsExactly(calls[1..], selector);
    }
  }

  lemma {:induction false} ToolNamesExactly(calls: seq<ToolCall>, selector: Selector)
    ensures selector in ToolNames(calls)
      <==> selector.ToolName? && selector.name != "" && exists call <- calls :: call.name == selector.name
  {
    if calls != [] {
      assert calls == [calls[0]] + calls[1..];
      ToolNamesExactly(calls[1..], selector);
    }
  }

  lemma CallSignaturesExactly(calls: seq<ToolCall>, selector: Selector)
    ensures selector in CallSignatures(calls)
      <==> selector.CallSignature? && selector.call.id == "" && exists call <- calls :: IsFormOf(selector.call, call)
  {
    if selector.CallSignature? && selector.call.id == "" {
      forall call | call in calls
        ensures IsFormOf(selector.call, call) <==> selector == CallSignature(NormalizedCall(call).(id := ""))
      {
      }
    }
    var signatures := CallSignatures(calls);
    forall i | 0 <= i < |calls| ensures signatures[i] in signatures && calls[i] in calls {}
  }

  lemma SelectorsExactly(message: Message, selector: Selector)
    ensures selector in Selectors(message) <==> Has(message, selector)
  {
    hide MessageSignature, CallIds, CallSignatures, ToolNames, IsFormOf;
    if selector.Signature? { SignatureExactly(message, selector); }
    CallIdsExactly(message.toolCalls, selector);
    CallSignaturesExactly(message.toolCalls, selector);
    ToolNamesExactly(message.toolCalls, selector);
    SignatureIsOne(message);
  }

  lemma SignatureIsOne(message: Message)
    ensures MessageSignature(message).Signature?
  {
  }

  /** How much of the message a selector names: the lookup goes from all of it to a mere tool name. */
  function Looseness(selector: Selector): nat {
    match selector
    case Signature(_, _) => 0
    case CallId(_) => 1
    case CallSignature(_) => 2
    case ToolName(_) => 3
  }

  lemma SelectorsGetLooser(message: Message, j: nat, k: nat)
    requires j < k < |Selectors(message)|
    ensures Looseness(Selectors(message)[j]) <= Looseness(Selectors(message)[k])
  {
    var calls := message.toolCalls;
    var ids, forms, names := CallIds(calls), CallSignatures(calls), ToolNames(calls);
    forall s | s in ids ensures Looseness(s) == 1 { CallIdsExactly(calls, s); }
    forall s | s in forms ensures Looseness(s) == 2 { CallSignaturesExactly(calls, s); }
    forall s | s in names ensures Looseness(s) == 3 { ToolNamesExactly(calls, s); }
    SignatureIsOne(message);
    hide MessageSignature, CallIds, CallSignatures, ToolNames, Looseness;
    assert Looseness(MessageSignature(message)) == 0 by { NoLooseness(message); }
    LoosenessAt(message, j);
    LoosenessAt(message, k);
  }

  lemma NoLooseness(message: Message)
    ensures Looseness(MessageSignature(message)) == 0
  {
  }

  /** Which part of the list an index is in. */
  lemma LoosenessAt(message: Message, j: nat)
    requires j < |Selectors(message)|
    ensures var calls, selector := message.toolCalls, Selectors(message)[j];
      var a := 1 + |CallIds(calls)|;
      if j == 0 then selector == MessageSignature(message)
      else if j < a then selector in CallIds(calls)
      else if j < a + |CallSignatures(calls)| then selector in CallSignatures(calls)
      else selector in ToolNames(calls)
  {
    hide MessageSignature, CallIds, CallSignatures, ToolNames;
  }

  lemma ScopedKeysExactly(message: Message, scope: Scope, key: Key)
    ensures key in ScopedKeys(message, scope) <==> key.Scoped? && key.scope == scope && Has(message, key.selector)
  {
    hide Has, Selectors;
    if key.Scoped? { SelectorsExactly(message, key.selector); }
    var keys, selectors := ScopedKeys(message, scope), Selectors(message);
    forall i | 0 <= i < |selectors| ensures keys[i] in keys && selectors[i] in selectors {}
  }

  lemma PortableKeysExactly(message: Message, namespace: Namespace, prior: seq<Message>, key: Key)
    ensures key in PortableKeys(message, namespace, prior)
      <==> !namespace.Unnamed? && key.Portable? && key.namespace == namespace && key.turn == TurnContext(prior)
           && Has(message, key.selector)
  {
    hide Has, Selectors, TurnContext;
    if key.Portable? { SelectorsExactly(message, key.selector); }
    var keys, selectors := PortableKeys(message, namespace, prior), Selectors(message);
    if !namespace.Unnamed? {
      forall i | 0 <= i < |selectors| ensures keys[i] in keys && selectors[i] in selectors {}
    }
  }

  // ---------------------------------------------------------------- who finds what was stored

  /** The selector is in the cache for the history, under its scope or under its turn. */
  ghost predicate InCacheFor(cache: Cache, selector: Selector, namespace: Namespace, prior: seq<Message>) {
    || Scoped(ConversationScope(prior, namespace), selector) in cache
    || (!namespace.Unnamed? && Portable(namespace, TurnContext(prior), selector) in cache)
  }

  /** A message is found exactly if one of its selectors is in the cache for its history. */
  lemma FoundExactly(cache: Cache, message: Message, namespace: Namespace, prior: seq<Message>)
    ensures Lookup(cache, message, namespace, prior).Some?
      <==> exists selector :: Has(message, selector) && InCacheFor(cache, selector, namespace, prior)
  {
    hide Has, ConversationScope, TurnContext, ScopedKeys, PortableKeys;
    var scope := ConversationScope(prior, namespace);
    var family := KeyFamily(message, namespace, prior);
    forall key
      ensures key in family <==> key in ScopedKeys(message, scope) || key in PortableKeys(message, namespace, prior)
    {
    }
    if Lookup(cache, message, namespace, prior).Some? {
      var key := FirstHit(cache, family).value;
      ScopedKeysExactly(message, scope, key);
      PortableKeysExactly(message, namespace, prior, key);
      assert Has(message, key.selector);
      assert key
          == if key.Scoped? then Scoped(scope, key.selector) else Portable(namespace, TurnContext(prior), key.selector);
    }
    if selector :| Has(message, selector) && InCacheFor(cache, selector, namespace, prior) {
      ScopedKeysExactly(message, scope, Scoped(scope, selector));
      PortableKeysExactly(message, namespace, prior, Portable(namespace, TurnContext(prior), selector));
    }
  }

  /** What is stored for a reply is found by every message that shares its content and calls, or the id, form or name
      of a call with it: behind a history that agrees with the one it answered, or, in a named namespace, in a turn
      that agrees with its turn. */
  lemma SharedSelectorFinds(cache: Cache, reply: Message, namespace: Namespace, prior: seq<Message>, message: Message,
                            other: seq<Message>, selector: Selector)
    requires reply.role == Assistant && reply.reasoning.Thought?
    requires Has(reply, selector) && Has(message, selector)
    requires HistoriesAgree(other, prior) || (!namespace.Unnamed? && TurnsAgree(other, prior))
    ensures Lookup(Stored(cache, reply, ConversationScope(prior, namespace), namespace, prior), message, namespace,
                   other).Some?
  {
    hide Has, HistoriesAgree, TurnsAgree, ConversationScope, TurnContext, ScopedKeys, PortableKeys, Lookup;
    var scope := ConversationScope(prior, namespace);
    var after := Stored(cache, reply, scope, namespace, prior);
    ScopesAgreeExactly(other, namespace, prior, namespace);
    TurnsAgreeExactly(other, prior);
    ScopedKeysExactly(reply, scope, Scoped(scope, selector));
    PortableKeysExactly(reply, namespace, prior, Portable(namespace, TurnContext(prior), selector));
    FoundExactly(after, message, namespace, other);
    assert Scoped(scope, selector) in after;
    assert InCacheFor(after, selector, namespace, other);
  }
}
