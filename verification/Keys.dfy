/**
 Cache keys. The source hashes canonical JSON with SHA-256 and pastes the digests into key strings;
 here a digest is the value it was taken of, so distinct values have distinct digests.
 */
module Keys {
  import opened Options
  import opened Transcript

  datatype Thinking = Enabled(effort: string) | Disabled

  /** The record behind `reasoning_cache_namespace`; `Unnamed` is the empty namespace. */
  datatype Namespace =
    | Unnamed
    | Namespace(baseUrl: string, modelFamily: string, thinking: Thinking, authorization: Option<string>)

  /** A conversation scope: the namespace and every message so far, without reasoning. */
  datatype Scope = Scope(namespace: Namespace, messages: seq<Message>)

  datatype Selector =
    | Signature(content: Content, calls: seq<ToolCall>)
    | CallId(id: string)
    | CallSignature(call: ToolCall)
    | ToolName(name: string)

  datatype Key =
    | Scoped(scope: Scope, selector: Selector)
    | Portable(namespace: Namespace, turn: seq<Message>, selector: Selector)

  // ---------------------------------------------------------------- selectors of a message

  /** `message.get("content") or ""` */
  function SignedContent(content: Option<Content>): Content {
    match content
    case None => Text("")
    case Some(Null) => Text("")
    case Some(Parts(parts)) => if parts == [] then Text("") else content.value
    case Some(value) => value
  }

  function MessageSignature(message: Message): Selector {
    Signature(SignedContent(message.content), NormalizedCalls(message.toolCalls))
  }

  function CallIds(calls: seq<ToolCall>): seq<Selector> {
    if calls == [] then []
    else (if calls[0].id != "" then [CallId(calls[0].id)] else []) + CallIds(calls[1..])
  }

  function CallSignatures(calls: seq<ToolCall>): seq<Selector> {
    seq(|calls|, i requires 0 <= i < |calls| => CallSignature(NormalizedCall(calls[i]).(id := "")))
  }

  function ToolNames(calls: seq<ToolCall>): seq<Selector> {
    if calls == [] then []
    else (if calls[0].name != "" then [ToolName(calls[0].name)] else []) + ToolNames(calls[1..])
  }

  function Selectors(message: Message): seq<Selector> {
    [MessageSignature(message)] + CallIds(message.toolCalls) + CallSignatures(message.toolCalls)
    + ToolNames(message.toolCalls)
  }

  /** Selectors only see the content and the tool calls. */
  lemma SelectorsIgnoreReasoning(message: Message, reasoning: Reasoning)
    ensures Selectors(message.(reasoning := reasoning)) == Selectors(message)
  {
  }

  // ---------------------------------------------------------------- scopes and turns

  function Canonical(message: Message): Message {
    message.(toolCalls := NormalizedCalls(message.toolCalls), reasoning := Absent)
  }

  function CanonicalAll(messages: seq<Message>): (canonical: seq<Message>)
    ensures |canonical| == |messages|
  {
    seq(|messages|, i requires 0 <= i < |messages| => Canonical(messages[i]))
  }

  function ConversationScope(messages: seq<Message>, namespace: Namespace): Scope {
    Scope(namespace, CanonicalAll(messages))
  }

  function LastUser(messages: seq<Message>): (index: int)
    ensures -1 <= index < |messages|
    ensures index >= 0 ==> messages[index].role == User
    ensures forall i :: index < i < |messages| ==> messages[i].role != User
  {
    if messages == [] then -1
    else if messages[|messages| - 1].role == User then |messages| - 1
    else LastUser(messages[..|messages| - 1])
  }

  /** Where the run of user messages that ends at `index` starts. */
  ghost function UserRunStart(messages: seq<Message>, index: nat): (start: nat)
    requires index < |messages|
    ensures start <= index
  {
    if index > 0 && messages[index - 1].role == User then UserRunStart(messages, index - 1) else index
  }

  ghost function TurnStart(messages: seq<Message>): (start: nat)
    ensures start <= |messages|
  {
    if LastUser(messages) == -1 then 0 else UserRunStart(messages, LastUser(messages))
  }

  function WithoutSystem(messages: seq<Message>): seq<Message> {
    if messages == [] then []
    else (if messages[0].role != System then [messages[0]] else []) + WithoutSystem(messages[1..])
  }

  ghost function TurnContext(prior: seq<Message>): seq<Message> {
    CanonicalAll(WithoutSystem(prior[TurnStart(prior)..]))
  }

  /** `turn_context_signature` */
  method TurnContextSignature(prior: seq<Message>) returns (turn: seq<Message>)
    ensures turn == TurnContext(prior)
  {
    var lastUser := LastUser(prior);
    var start := 0;
    if lastUser != -1 {
      start := lastUser;
      while start > 0 && prior[start - 1].role == User
        invariant 0 <= start <= lastUser
        invariant UserRunStart(prior, start) == UserRunStart(prior, lastUser)
      {
        start := start - 1;
      }
    }
    turn := CanonicalAll(WithoutSystem(prior[start..]));
  }

  // ---------------------------------------------------------------- key families

  function ScopedKeys(message: Message, scope: Scope): seq<Key> {
    var selectors := Selectors(message);
    seq(|selectors|, i requires 0 <= i < |selectors| => Scoped(scope, selectors[i]))
  }

  function TurnKeys(message: Message, namespace: Namespace, turn: seq<Message>): seq<Key> {
    var selectors := Selectors(message);
    if namespace.Unnamed? then []
    else seq(|selectors|, i requires 0 <= i < |selectors| => Portable(namespace, turn, selectors[i]))
  }

  ghost function PortableKeys(message: Message, namespace: Namespace, prior: seq<Message>): seq<Key> {
    TurnKeys(message, namespace, TurnContext(prior))
  }

  ghost function KeyFamily(message: Message, namespace: Namespace, prior: seq<Message>): seq<Key> {
    ScopedKeys(message, ConversationScope(prior, namespace)) + PortableKeys(message, namespace, prior)
  }

  // ---------------------------------------------------------------- the second, separately written key list

  datatype LookupKind = BySignature | ByCallId | ByCallSignature | ByToolName

  datatype LookupKey = LookupKey(kind: LookupKind, key: Key, portable: bool)

  function IdLookups(calls: seq<ToolCall>, portable: bool, make: Selector -> Key): seq<LookupKey> {
    if calls == [] then []
    else (if calls[0].id != "" then [LookupKey(ByCallId, make(CallId(calls[0].id)), portable)] else [])
         + IdLookups(calls[1..], portable, make)
  }

  function SignatureLookups(calls: seq<ToolCall>, portable: bool, make: Selector -> Key): seq<LookupKey> {
    if calls == [] then []
    else [LookupKey(ByCallSignature, make(CallSignature(NormalizedCall(calls[0]).(id := ""))), portable)]
         + SignatureLookups(calls[1..], portable, make)
  }

  function NameLookups(calls: seq<ToolCall>, portable: bool, make: Selector -> Key): seq<LookupKey> {
    if calls == [] then []
    else (if calls[0].name != "" then [LookupKey(ByToolName, make(ToolName(calls[0].name)), portable)] else [])
         + NameLookups(calls[1..], portable, make)
  }

  function LookupHalf(message: Message, portable: bool, make: Selector -> Key): seq<LookupKey> {
    [LookupKey(BySignature, make(MessageSignature(message)), portable)]
    + IdLookups(message.toolCalls, portable, make)
    + SignatureLookups(message.toolCalls, portable, make)
    + NameLookups(message.toolCalls, portable, make)
  }

  function InScope(scope: Scope): Selector -> Key {
    selector => Scoped(scope, selector)
  }

  function InTurn(namespace: Namespace, turn: seq<Message>): Selector -> Key {
    selector => Portable(namespace, turn, selector)
  }

  /** `reasoning_lookup_keys` */
  function ReasoningLookupKeys(message: Message, scope: Scope, namespace: Namespace,
                               turn: seq<Message>): seq<LookupKey> {
    LookupHalf(message, false, InScope(scope))
    + if namespace.Unnamed? then [] else LookupHalf(message, true, InTurn(namespace, turn))
  }

  function KeysOf(lookups: seq<LookupKey>): (keys: seq<Key>)
    ensures |keys| == |lookups|
  {
    seq(|lookups|, i requires 0 <= i < |lookups| => lookups[i].key)
  }

  function Apply(make: Selector -> Key, selectors: seq<Selector>): (keys: seq<Key>)
    ensures |keys| == |selectors|
  {
    seq(|selectors|, i requires 0 <= i < |selectors| => make(selectors[i]))
  }

  lemma KeysOfConcat(a: seq<LookupKey>, b: seq<LookupKey>)
    ensures KeysOf(a + b) == KeysOf(a) + KeysOf(b)
  {
  }

  lemma ApplyConcat(make: Selector -> Key, a: seq<Selector>, b: seq<Selector>)
    ensures Apply(make, a + b) == Apply(make, a) + Apply(make, b)
  {
  }

  lemma {:induction false} IdLookupsAgree(calls: seq<ToolCall>, portable: bool, make: Selector -> Key)
    ensures KeysOf(IdLookups(calls, portable, make)) == Apply(make, CallIds(calls))
    ensures forall l <- IdLookups(calls, portable, make) :: l.portable == portable
  {
    if calls != [] {
      IdLookupsAgree(calls[1..], portable, make);
      var selectors := if calls[0].id != "" then [CallId(calls[0].id)] else [];
      var lookups := if calls[0].id != "" then [LookupKey(ByCallId, make(CallId(calls[0].id)), portable)] else [];
      KeysOfConcat(lookups, IdLookups(calls[1..], portable, make));
      ApplyConcat(make, selectors, CallIds(calls[1..]));
      assert KeysOf(lookups) == Apply(make, selectors);
    }
  }

  lemma {:induction false} SignatureLookupsAgree(calls: seq<ToolCall>, portable: bool, make: Selector -> Key)
    ensures KeysOf(SignatureLookups(calls, portable, make)) == Apply(make, CallSignatures(calls))
    ensures forall l <- SignatureLookups(calls, portable, make) :: l.portable == portable
  {
    if calls != [] {
      SignatureLookupsAgree(calls[1..], portable, make);
      var selectors := [CallSignature(NormalizedCall(calls[0]).(id := ""))];
      var lookups := [LookupKey(ByCallSignature, make(selectors[0]), portable)];
      assert CallSignatures(calls) == selectors + CallSignatures(calls[1..]);
      KeysOfConcat(lookups, SignatureLookups(calls[1..], portable, make));
      ApplyConcat(make, selectors, CallSignatures(calls[1..]));
      assert KeysOf(lookups) == Apply(make, selectors);
    }
  }

  lemma {:induction false} NameLookupsAgree(calls: seq<ToolCall>, portable: bool, make: Selector -> Key)
    ensures KeysOf(NameLookups(calls, portable, make)) == Apply(make, ToolNames(calls))
    ensures forall l <- NameLookups(calls, portable, make) :: l.portable == portable
  {
    if calls != [] {
      NameLookupsAgree(calls[1..], portable, make);
      var selectors := if calls[0].name != "" then [ToolName(calls[0].name)] else [];
      var lookups :=
        if calls[0].name != "" then [LookupKey(ByToolName, make(ToolName(calls[0].name)), portable)] else [];
      KeysOfConcat(lookups, NameLookups(calls[1..], portable, make));
      ApplyConcat(make, selectors, ToolNames(calls[1..]));
      assert KeysOf(lookups) == Apply(make, selectors);
    }
  }

  lemma LookupHalfAgrees(message: Message, portable: bool, make: Selector -> Key)
    ensures KeysOf(LookupHalf(message, portable, make)) == Apply(make, Selectors(message))
    ensures forall l <- LookupHalf(message, portable, make) :: l.portable == portable
  {
    IdLookupsAgree(message.toolCalls, portable, make);
    SignatureLookupsAgree(message.toolCalls, portable, make);
    NameLookupsAgree(message.toolCalls, portable, make);
    var calls := message.toolCalls;
    var first := [LookupKey(BySignature, make(MessageSignature(message)), portable)];
    var a, b := IdLookups(calls, portable, make), SignatureLookups(calls, portable, make);
    var c := NameLookups(calls, portable, make);
    KeysOfConcat(first, a);
    KeysOfConcat(first + a, b);
    KeysOfConcat(first + a + b, c);
    var one := [MessageSignature(message)];
    ApplyConcat(make, one, CallIds(calls));
    ApplyConcat(make, one + CallIds(calls), CallSignatures(calls));
    ApplyConcat(make, one + CallIds(calls) + CallSignatures(calls), ToolNames(calls));
    assert KeysOf(first) == Apply(make, one);
  }

  lemma ScopedHalf(message: Message, scope: Scope)
    ensures var lookups := LookupHalf(message, false, InScope(scope));
      KeysOf(lookups) == ScopedKeys(message, scope) && forall l <- lookups :: !l.portable
  {
    LookupHalfAgrees(message, false, InScope(scope));
    hide LookupHalf, Selectors;
    assert Apply(InScope(scope), Selectors(message)) == ScopedKeys(message, scope);
  }

  lemma PortableHalf(message: Message, namespace: Namespace, turn: seq<Message>)
    requires !namespace.Unnamed?
    ensures var lookups := LookupHalf(message, true, InTurn(namespace, turn));
      KeysOf(lookups) == TurnKeys(message, namespace, turn) && forall l <- lookups :: l.portable
  {
    LookupHalfAgrees(message, true, InTurn(namespace, turn));
    hide LookupHalf, Selectors;
    assert Apply(InTurn(namespace, turn), Selectors(message)) == TurnKeys(message, namespace, turn);
  }

  /** A list of lookups that is marked the way its keys are. */
  ghost predicate MarkedByKind(lookups: seq<LookupKey>) {
    forall i :: 0 <= i < |lookups| ==> (lookups[i].portable <==> lookups[i].key.Portable?)
  }

  lemma MarkedAsTheKeysAre(lookups: seq<LookupKey>, keys: seq<Key>, portable: bool)
    requires KeysOf(lookups) == keys && forall l <- lookups :: l.portable == portable
    requires forall k <- keys :: k.Portable? <==> portable
    ensures MarkedByKind(lookups)
  {
    forall i | 0 <= i < |lookups| ensures lookups[i].portable <==> lookups[i].key.Portable? {
      assert lookups[i] in lookups && keys[i] == KeysOf(lookups)[i] && keys[i] in keys;
    }
  }

  /** The lookup list and the storage lists name the same keys in the same order, and mark exactly the keys that do
      not name a scope as portable. */
  lemma KeyListsAgree(message: Message, namespace: Namespace, prior: seq<Message>)
    ensures var lookups := ReasoningLookupKeys(message, ConversationScope(prior, namespace), namespace,
                                               TurnContext(prior));
      KeysOf(lookups) == KeyFamily(message, namespace, prior) && MarkedByKind(lookups)
  {
    var scope, turn := ConversationScope(prior, namespace), TurnContext(prior);
    var scoped := LookupHalf(message, false, InScope(scope));
    ScopedHalf(message, scope);
    MarkedAsTheKeysAre(scoped, ScopedKeys(message, scope), false);
    if !namespace.Unnamed? {
      var portable := LookupHalf(message, true, InTurn(namespace, turn));
      PortableHalf(message, namespace, turn);
      MarkedAsTheKeysAre(portable, TurnKeys(message, namespace, turn), true);
      hide LookupHalf, ScopedKeys, TurnKeys, TurnContext, ConversationScope, InScope, InTurn;
      KeysOfConcat(scoped, portable);
    } else {
      hide LookupHalf, ScopedKeys, TurnContext, ConversationScope, InScope, InTurn;
      assert scoped + [] == scoped && ScopedKeys(message, scope) + [] == ScopedKeys(message, scope);
    }
  }

  // ---------------------------------------------------------------- what scopes and turns depend on

  lemma CanonicalConcat(a: seq<Message>, b: seq<Message>)
    ensures CanonicalAll(a + b) == CanonicalAll(a) + CanonicalAll(b)
  {
  }

  lemma CanonicalKeepsRoles(messages: seq<Message>)
    ensures LastUser(CanonicalAll(messages)) == LastUser(messages)
    ensures TurnStart(CanonicalAll(messages)) == TurnStart(messages)
  {
    if LastUser(messages) != -1 { RunStartOfSameRoles(messages, CanonicalAll(messages), LastUser(messages)); }
  }

  lemma {:induction false} RunStartOfSameRoles(a: seq<Message>, b: seq<Message>, index: nat)
    requires index < |a| == |b|
    requires forall i :: 0 <= i < |a| ==> a[i].role == b[i].role
    ensures UserRunStart(a, index) == UserRunStart(b, index)
  {
    if index > 0 { RunStartOfSameRoles(a, b, index - 1); }
  }

  lemma {:induction false} CanonicalWithoutSystem(messages: seq<Message>)
    ensures CanonicalAll(WithoutSystem(CanonicalAll(messages))) == CanonicalAll(WithoutSystem(messages))
  {
    if messages != [] {
      CanonicalWithoutSystem(messages[1..]);
      NormalizedCallsIdempotent(messages[0].toolCalls);
      assert CanonicalAll(messages)[1..] == CanonicalAll(messages[1..]);
      var a, b := WithoutSystem(CanonicalAll(messages)[1..]), WithoutSystem(messages[1..]);
      if messages[0].role != System {
        CanonicalConcat([Canonical(messages[0])], a);
        CanonicalConcat([messages[0]], b);
        assert CanonicalAll([Canonical(messages[0])]) == CanonicalAll([messages[0]]);
        assert WithoutSystem(CanonicalAll(messages)) == [Canonical(messages[0])] + a;
      } else {
        assert WithoutSystem(CanonicalAll(messages)) == a;
        assert WithoutSystem(messages) == b;
      }
    }
  }

  /** Two histories in one scope are in one turn: the scope determines the turn. */
  lemma ScopeDeterminesTurn(a: seq<Message>, b: seq<Message>)
    requires CanonicalAll(a) == CanonicalAll(b)
    ensures TurnContext(a) == TurnContext(b)
  {
    TurnOfCanonical(a);
    TurnOfCanonical(b);
  }

  lemma TurnOfCanonical(a: seq<Message>)
    ensures TurnContext(CanonicalAll(a)) == TurnContext(a)
  {
    CanonicalKeepsRoles(a);
    var start := TurnStart(a);
    assert CanonicalAll(a)[start..] == CanonicalAll(a[start..]);
    CanonicalWithoutSystem(a[start..]);
  }

  /** The turn does not depend on anything before a user message that starts a run. */
  lemma TurnIgnoresEarlierHistory(a: seq<Message>, b: seq<Message>, tail: seq<Message>)
    requires tail != [] && tail[0].role == User
    requires a != [] ==> a[|a| - 1].role != User
    requires b != [] ==> b[|b| - 1].role != User
    ensures TurnContext(a + tail) == TurnContext(b + tail)
  {
    TurnOfTail(a, tail);
    TurnOfTail(b, tail);
  }

  lemma TurnOfTail(a: seq<Message>, tail: seq<Message>)
    requires tail != [] && tail[0].role == User
    requires a != [] ==> a[|a| - 1].role != User
    ensures TurnContext(a + tail) == TurnContext(tail)
  {
    TurnStartInTail(a, tail);
    hide TurnStart, WithoutSystem, CanonicalAll;
    assert (a + tail)[TurnStart(a + tail)..] == tail[TurnStart(tail)..];
  }

  lemma LastUserInTail(a: seq<Message>, tail: seq<Message>)
    requires tail != [] && tail[0].role == User
    ensures LastUser(a + tail) == |a| + LastUser(tail)
  {
    var whole, last := a + tail, LastUser(tail);
    var w := LastUser(whole);
    assert whole[|a|].role == User;
    assert last >= 0 && whole[|a| + last] == tail[last];
    hide LastUser;
    forall i | |a| + last < i < |whole| ensures whole[i].role != User { assert whole[i] == tail[i - |a|]; }
  }

  lemma TurnStartInTail(a: seq<Message>, tail: seq<Message>)
    requires tail != [] && tail[0].role == User
    requires a != [] ==> a[|a| - 1].role != User
    ensures TurnStart(a + tail) == |a| + TurnStart(tail)
  {
    LastUserInTail(a, tail);
    hide UserRunStart;
    assert LastUser(tail) >= 0;
    RunStartInTail(a, tail, LastUser(tail));
  }

  lemma {:induction false} RunStartInTail(a: seq<Message>, tail: seq<Message>, index: nat)
    requires index < |tail| && tail[0].role == User
    requires a != [] ==> a[|a| - 1].role != User
    ensures UserRunStart(a + tail, |a| + index) == |a| + UserRunStart(tail, index)
  {
    if index > 0 {
      assert (a + tail)[|a| + index - 1] == tail[index - 1];
      RunStartInTail(a, tail, index - 1);
    }
  }
}
