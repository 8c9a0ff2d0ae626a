/** Chat messages, as the client sends them and as the bridge normalises them. */
module Transcript {
  import opened Options
  import opened ThinkingBlocks

  /** `Unset` is a missing or falsy role; `Custom` is any role the bridge does not know. */
  datatype Role = Unset | System | User | Assistant | Tool | Function | Custom(name: string)

  /** A JSON content value. `Parts` holds the text of each list item that has one; `Other` is the rendering of a
      value that is neither text nor a list. */
  datatype Content = Null | Text(text: string) | Parts(parts: seq<Option<string>>) | Other(rendered: string)

  datatype Reasoning = Absent | Thought(text: string) | NotText

  /** Function arguments: text, or a JSON value given by its rendering. */
  datatype Arguments = Raw(text: string) | Structured(rendered: string)

  /** An empty `id`, `kind` or `name` stands for a missing or falsy field. */
  datatype ToolCall = ToolCall(id: string, kind: string, name: string, arguments: Arguments)

  datatype Message = Message(
    role: Role,
    content: Option<Content>,
    name: Option<string>,
    toolCallId: Option<string>,
    toolCalls: seq<ToolCall>,
    reasoning: Reasoning,
    prefix: Option<bool>)

  // The fixed texts are read character by character, so that a proof that only carries one of them
  // around does not have to look at its letters.

  function NoticeChar(i: nat): char
    requires i < 54
  {
    "[deepseek-bridge] Refreshed reasoning_content history."[i]
  }

  function SystemChar1(i: nat): char
    requires i < 62
  {
    "deepseek-bridge recovered this request because older DeepSeek "[i]
  }

  function SystemChar2(i: nat): char
    requires i < 65
  {
    "thinking-mode tool-call reasoning_content was unavailable. Older "[i]
  }

  function SystemChar3(i: nat): char
    requires i < 69
  {
    "unrecoverable tool-call history was omitted; continue using only the "[i]
  }

  function SystemChar4(i: nat): char
    requires i < 28
  {
    "remaining recovered context."[i]
  }

  function RecoveryNoticeText(): (text: string)
    ensures |text| == 54
  {
    seq(54, i requires 0 <= i < 54 => NoticeChar(i))
  }

  function RecoverySystemText(): string {
    seq(62, i requires 0 <= i < 62 => SystemChar1(i))
    + seq(65, i requires 0 <= i < 65 => SystemChar2(i))
    + seq(69, i requires 0 <= i < 69 => SystemChar3(i))
    + seq(28, i requires 0 <= i < 28 => SystemChar4(i))
  }

  function RecoveryNoticeContent(): string { RecoveryNoticeText() + "\n\n" }

  lemma NoticeInPieces()
    ensures "[deepseek-bridge] Refreshed reasoning_content history."
         == "[deepseek-bridge]" + " Refreshed" + " reasoning_content" + " history."
  {
  }

  lemma NoticeHasNoBracket(i: nat)
    requires i < 54
    ensures NoticeChar(i) != '<' && NoticeChar(0) == '['
  {
    NoticeInPieces();
    var text := "[deepseek-bridge] Refreshed reasoning_content history.";
    assert '<' !in text;
    assert NoticeChar(i) in text;
    assert "[deepseek-bridge]"[0] == '[';
  }

  /** The notice is text like any other to the stripping of thinking blocks. */
  lemma NoticeIsPlainText()
    ensures var text := RecoveryNoticeContent(); text != "" && '<' !in text && !IsSpace(text[0])
  {
    hide IsSpace;
    var text := RecoveryNoticeContent();
    forall i | 0 <= i < |text| ensures text[i] != '<' {
      if i < 54 { NoticeHasNoBracket(i); assert text[i] == NoticeChar(i); }
    }
    NoticeHasNoBracket(0);
    assert text[0] == NoticeChar(0);
    BracketIsNoSpace();
  }

  lemma BracketIsNoSpace()
    ensures !IsSpace('[')
  {
  }

  function RecoverySystemMessage(): Message {
    Message(System, Some(Text(RecoverySystemText())), None, None, [], Absent, None)
  }

  // ---------------------------------------------------------------- normalisation of one message

  function JoinParts(parts: seq<Option<string>>): string
  {
    if parts == [] then ""
    else
      var rest := JoinParts(parts[..|parts| - 1]);
      match parts[|parts| - 1]
      case None => rest
      case Some(text) => if text == "" then rest else if rest == "" then text else rest + "\n" + text
  }

  /** `extract_text_content(content) or ""` */
  function ContentText(content: Content): string {
    match content
    case Null => ""
    case Text(text) => text
    case Parts(parts) => JoinParts(parts)
    case Other(rendered) => rendered
  }

  function ArgumentText(arguments: Arguments): string {
    match arguments case Raw(text) => text case Structured(rendered) => rendered
  }

  function NormalizedCall(call: ToolCall): ToolCall {
    ToolCall(call.id, if call.kind == "" then "function" else call.kind, call.name, Raw(ArgumentText(call.arguments)))
  }

  function NormalizedCalls(calls: seq<ToolCall>): (normalized: seq<ToolCall>)
    ensures |normalized| == |calls|
  {
    seq(|calls|, i requires 0 <= i < |calls| => NormalizedCall(calls[i]))
  }

  function NormalizedRole(role: Role): Role {
    match role
    case Unset => User
    case Function => Tool
    case _ => role
  }

  function NormalizedContent(role: Role, content: Option<Content>): Option<Content> {
    match content
    case None => None
    case Some(value) =>
      var text := ContentText(value);
      Some(Text(if role == Assistant then StripThinkingBlocks(text) else text))
  }

  /** The fields `normalize_message` keeps for each role, with their values normalised, and the reasoning as the
      client sent it (dropped from assistants when thinking is disabled). */
  function Normalized(message: Message, keepReasoning: bool): Message {
    var role := NormalizedRole(message.role);
    var content := NormalizedContent(role, message.content);
    var calls := NormalizedCalls(message.toolCalls);
    match role
    case System => Message(role, content, message.name, None, [], Absent, None)
    case User => Message(role, content, message.name, None, [], Absent, None)
    case Assistant =>
      Message(role, content, message.name, None, calls, if keepReasoning then message.reasoning else Absent,
              message.prefix)
    case Tool => Message(role, content, None, message.toolCallId, [], Absent, None)
    case _ => Message(role, content, message.name, message.toolCallId, calls, message.reasoning, message.prefix)
  }

  function NormalizedAll(messages: seq<Message>, keepReasoning: bool): (normalized: seq<Message>)
    ensures |normalized| == |messages|
  {
    seq(|messages|, i requires 0 <= i < |messages| => Normalized(messages[i], keepReasoning))
  }

  // ---------------------------------------------------------------- stability

  /** A normalised message whose content survives being normalised again. */
  ghost predicate Settled(message: Message) {
    Normalized(message, true) == message
  }

  ghost predicate AllSettled(messages: seq<Message>) {
    forall i :: 0 <= i < |messages| ==> Settled(messages[i])
  }

  /** Stripping the message's content a second time finds nothing more to strip. */
  ghost predicate StripsClean(message: Message) {
    NormalizedRole(message.role) == Assistant && message.content.Some? ==>
      var once := StripThinkingBlocks(ContentText(message.content.value));
      StripThinkingBlocks(once) == once
  }

  ghost predicate AllStripClean(messages: seq<Message>) {
    forall i :: 0 <= i < |messages| ==> StripsClean(messages[i])
  }

  lemma NormalizedCallsIdempotent(calls: seq<ToolCall>)
    ensures NormalizedCalls(NormalizedCalls(calls)) == NormalizedCalls(calls)
  {
  }

  lemma NormalizedIsSettled(message: Message, keepReasoning: bool)
    requires StripsClean(message)
    ensures Settled(Normalized(message, keepReasoning))
  {
    NormalizedCallsIdempotent(message.toolCalls);
  }

  lemma NormalizedAllIsSettled(messages: seq<Message>, keepReasoning: bool)
    requires AllStripClean(messages)
    ensures AllSettled(NormalizedAll(messages, keepReasoning))
  {
    forall i | 0 <= i < |messages| ensures Settled(NormalizedAll(messages, keepReasoning)[i]) {
      NormalizedIsSettled(messages[i], keepReasoning);
    }
  }

  // ---------------------------------------------------------------- the tool-turn rule

  /** DeepSeek's rule: an assistant message takes part in a tool turn if it calls tools, or if the nearest tool, user
      or system message before it is a tool message. */
  ghost predicate InToolTurn(message: Message, prior: seq<Message>) {
    || message.toolCalls != []
    || exists j :: 0 <= j < |prior| && prior[j].role == Tool && NoTurnBreakAfter(prior, j)
  }

  ghost predicate NoTurnBreakAfter(prior: seq<Message>, j: int) {
    forall k :: 0 <= k < |prior| && j < k ==> prior[k].role != User && prior[k].role != System
  }

  /** Message `i` is an assistant message of a tool turn without reasoning text: DeepSeek refuses it. */
  ghost predicate Violates(messages: seq<Message>, i: int)
    requires 0 <= i < |messages|
  {
    && messages[i].role == Assistant
    && InToolTurn(messages[i], messages[..i])
    && !messages[i].reasoning.Thought?
  }

  /** The indices of the violating messages, in increasing order. */
  ghost function Violations(messages: seq<Message>): seq<int> {
    if messages == [] then []
    else
      var last := |messages| - 1;
      Violations(messages[..last]) + if Violates(messages, last) then [last] else []
  }

  lemma {:induction false} ViolationsAreExact(messages: seq<Message>)
    ensures forall i :: i in Violations(messages) <==> 0 <= i < |messages| && Violates(messages, i)
    ensures forall a, b :: 0 <= a < b < |Violations(messages)| ==> Violations(messages)[a] < Violations(messages)[b]
  {
    if messages != [] {
      var last := |messages| - 1;
      var front := messages[..last];
      ViolationsAreExact(front);
      forall i | 0 <= i < last ensures Violates(messages, i) <==> Violates(front, i) {
        assert messages[..i] == front[..i];
      }
      var v := Violations(messages);
      assert forall a :: 0 <= a < |Violations(front)| ==> v[a] == Violations(front)[a] && v[a] in Violations(front);
    }
  }

  /** The rule only looks at roles, tool calls and the presence of reasoning text. */
  ghost predicate SameShape(a: seq<Message>, b: seq<Message>) {
    && |a| == |b|
    && forall i :: 0 <= i < |a| ==>
         a[i].role == b[i].role && a[i].toolCalls == b[i].toolCalls && a[i].reasoning == b[i].reasoning
  }

  lemma {:induction false} ViolationsOfSameShape(a: seq<Message>, b: seq<Message>)
    requires SameShape(a, b)
    ensures Violations(a) == Violations(b)
  {
    if a != [] {
      var last := |a| - 1;
      ViolationsOfSameShape(a[..last], b[..last]);
      assert InToolTurn(a[last], a[..last]) <==> InToolTurn(b[last], b[..last]) by {
        SameRolesSameTurn(a[last], a[..last], b[..last]);
      }
    }
  }

  lemma SameRolesSameTurn(message: Message, a: seq<Message>, b: seq<Message>)
    requires |a| == |b| && forall i :: 0 <= i < |a| ==> a[i].role == b[i].role
    ensures InToolTurn(message, a) <==> InToolTurn(message, b)
  {
    forall j | 0 <= j < |a| ensures NoTurnBreakAfter(a, j) <==> NoTurnBreakAfter(b, j) {}
  }

  /** The loop of `assistant_needs_reasoning_for_tool_context`, against the rule. */
  method AssistantNeedsReasoning(message: Message, prior: seq<Message>) returns (needs: bool)
    ensures needs <==> InToolTurn(message, prior)
  {
    if message.toolCalls != [] { return true; }
    var i := |prior|;
    while i > 0
      invariant 0 <= i <= |prior|
      invariant forall k :: i <= k < |prior| ==>
        prior[k].role != Tool && prior[k].role != User && prior[k].role != System
    {
      i := i - 1;
      if prior[i].role == Tool {
        assert NoTurnBreakAfter(prior, i);
        return true;
      }
      if prior[i].role == User || prior[i].role == System {
        assert forall j :: 0 <= j < i ==> !NoTurnBreakAfter(prior, j);
        return false;
      }
    }
    return false;
  }
}
