/** What becomes of a client's message on its way upstream, said of the fields of both messages. */
module Wording {
  import opened Options
  import opened ThinkingBlocks
  import opened Transcript
  import opened Agreement

  // ---------------------------------------------------------------- texts

  /** The texts of a list that has them, empty ones left out. */
  function TextsOf(parts: seq<Option<string>>): seq<string> {
    if parts == [] then []
    else if parts[0].Some? && parts[0].value != "" then [parts[0].value] + TextsOf(parts[1..])
    else TextsOf(parts[1..])
  }

  function Joined(texts: seq<string>): string {
    if texts == [] then "" else if |texts| == 1 then texts[0] else texts[0] + "\n" + Joined(texts[1..])
  }

  /** A text as it is; of a list its non-empty texts in order, a line break between each two. */
  ghost predicate ReadsAs(content: Content, text: string) {
    match content
    case Null => text == ""
    case Text(own) => text == own
    case Parts(parts) => text == Joined(TextsOf(parts))
    case Other(rendered) => text == rendered
  }

  lemma {:induction false} TextsOfConcat(a: seq<Option<string>>, b: seq<Option<string>>)
    ensures TextsOf(a + b) == TextsOf(a) + TextsOf(b)
  {
    if a == [] {
      assert a + b == b;
    } else {
      assert (a + b)[1..] == a[1..] + b;
      TextsOfConcat(a[1..], b);
    }
  }

  lemma {:induction false} JoinedLast(texts: seq<string>, last: string)
    ensures Joined(texts + [last]) == if texts == [] then last else Joined(texts) + "\n" + last
  {
    if |texts| > 1 {
      assert (texts + [last])[1..] == texts[1..] + [last];
      JoinedLast(texts[1..], last);
      var head := texts[0] + "\n";
      assert head + (Joined(texts[1..]) + "\n" + last) == (head + Joined(texts[1..])) + "\n" + last;
    } else if |texts| == 1 {
      assert (texts + [last])[1..] == [last];
      assert texts[0] + "\n" + Joined([last]) == Joined(texts) + "\n" + last;
    }
  }

  lemma {:induction false} TextsAreNotEmpty(parts: seq<Option<string>>)
    ensures forall i :: 0 <= i < |TextsOf(parts)| ==> TextsOf(parts)[i] != ""
  {
    if parts != [] { TextsAreNotEmpty(parts[1..]); }
  }

  lemma {:induction false} JoinedIsEmpty(texts: seq<string>)
    requires forall i :: 0 <= i < |texts| ==> texts[i] != ""
    ensures Joined(texts) == "" <==> texts == []
  {
  }

  lemma {:induction false} PartsReadAsJoined(parts: seq<Option<string>>)
    ensures JoinParts(parts) == Joined(TextsOf(parts))
  {
    if parts != [] {
      var front, last := parts[..|parts| - 1], parts[|parts| - 1];
      assert parts == front + [last];
      PartsReadAsJoined(front);
      TextsOfConcat(front, [last]);
      assert [last][1..] == [];
      TextsAreNotEmpty(front);
      JoinedIsEmpty(TextsOf(front));
      if last.Some? && last.value != "" {
        assert TextsOf([last]) == [last.value] + [];
        assert TextsOf(parts) == TextsOf(front) + [last.value];
        JoinedLast(TextsOf(front), last.value);
      } else {
        assert TextsOf(front) + [] == TextsOf(front);
      }
    }
  }

  lemma ContentReads(content: Content)
    ensures ReadsAs(content, ContentText(content))
  {
    if content.Parts? { PartsReadAsJoined(content.parts); }
  }

  // ---------------------------------------------------------------- fields

  /** A missing role is a user's, and a function is a tool. */
  ghost predicate RoleOf(role: Role, raw: Role) {
    if raw == Unset then role == User else if raw == Function then role == Tool else role == raw
  }

  /** Each role has its fields: what a field of it held is kept, and other fields are left out. */
  ghost predicate FieldsOf(message: Message, raw: Message) {
    && RoleOf(message.role, raw.role)
    && message.name == (if message.role == Tool then None else raw.name)
    && message.toolCallId == (if message.role in {System, User, Assistant} then None else raw.toolCallId)
    && message.prefix == (if message.role in {System, User, Tool} then None else raw.prefix)
    && (if message.role in {System, User, Tool} then message.toolCalls == []
        else
          && |message.toolCalls| == |raw.toolCalls|
          && forall i :: 0 <= i < |raw.toolCalls| ==>
               CallsAgree(message.toolCalls[i], raw.toolCalls[i]) && message.toolCalls[i].kind != ""
               && message.toolCalls[i].arguments.Raw?)
  }

  /** The message has the text of the other, if that has a content at all. */
  ghost predicate WordsOf(message: Message, raw: Message) {
    && (raw.content.None? ==> message.content.None?)
    && (raw.content.Some? ==>
          message.content.Some? && message.content.value.Text?
          && ReadsAs(raw.content.value, message.content.value.text))
  }

  /** The message has the text of the other without its thinking blocks. */
  ghost predicate StrippedWordsOf(message: Message, raw: Message) {
    && (raw.content.None? ==> message.content.None?)
    && (raw.content.Some? ==>
          message.content.Some? && message.content.value.Text?
          && exists text :: ReadsAs(raw.content.value, text) && message.content.value.text == StripThinkingBlocks(text))
  }

  /** What normalising keeps: the fields of the role, and the text; of an assistant, less its thinking blocks. */
  ghost predicate Carries(message: Message, raw: Message) {
    FieldsOf(message, raw) && if message.role == Assistant then StrippedWordsOf(message, raw) else WordsOf(message, raw)
  }

  lemma NormalizedFields(raw: Message, keep: bool)
    ensures FieldsOf(Normalized(raw, keep), raw)
  {
    hide NormalizedContent;
  }

  lemma NormalizedWords(raw: Message, keep: bool)
    ensures var message := Normalized(raw, keep);
      if message.role == Assistant then StrippedWordsOf(message, raw) else WordsOf(message, raw)
  {
    hide ContentText, StripThinkingBlocks, ReadsAs, NormalizedCalls;
    if raw.content.Some? { ContentReads(raw.content.value); }
  }

  lemma NormalizedCarries(raw: Message, keep: bool)
    ensures Carries(Normalized(raw, keep), raw)
  {
    hide FieldsOf, WordsOf, StrippedWordsOf, Normalized;
    NormalizedFields(raw, keep);
    NormalizedWords(raw, keep);
  }

  /** Nothing of this depends on the reasoning. */
  lemma CarriesIgnoresReasoning(message: Message, raw: Message, reasoning: Reasoning)
    ensures Carries(message.(reasoning := reasoning), raw) <==> Carries(message, raw)
  {
    hide ReadsAs, StripThinkingBlocks;
  }
}
