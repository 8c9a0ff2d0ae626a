/**
 Thinking blocks. The bridge shows reasoning to the client by writing it into the visible content as
 an HTML-escaped block, and cuts such blocks out again when the client echoes the message.
 */
module ThinkingBlocks {
  import opened Collections
  import opened Options

  datatype Style = Collapsible | Tagged

  function BlockStart(style: Style): string {
    if style.Collapsible? then "<details>\n<summary>Thinking</summary>\n\n" else "<think>\n"
  }

  function BlockEnd(style: Style): string {
    if style.Collapsible? then "\n</details>\n\n" else "\n</think>\n\n"
  }

  // ---------------------------------------------------------------- printing

  /** `str.replace` with a one-character pattern. */
  function Replace(s: string, pattern: char, entity: string): string {
    if s == "" then "" else (if s[0] == pattern then entity else [s[0]]) + Replace(s[1..], pattern, entity)
  }

  type Replacements = seq<(char, string)>

  const HTML_ENTITIES: Replacements :=
    [('&', "&amp;"), ('<', "&lt;"), ('>', "&gt;"), ('"', "&quot;"), ('\'', "&#x27;")]

  function ReplaceAll(s: string, table: Replacements): string
    decreases |table|
  {
    if table == [] then s else ReplaceAll(Replace(s, table[0].0, table[0].1), table[1..])
  }

  /** `html.escape`: five replacements over the whole text, one after the other. */
  function HtmlEscape(s: string): string { ReplaceAll(s, HTML_ENTITIES) }

  function Fold(style: Style, reasoning: string, content: string): string {
    BlockStart(style) + HtmlEscape(reasoning) + BlockEnd(style) + content
  }

  /** A block is shown only if there is reasoning. */
  function Folded(style: Style, reasoning: string, content: string): string {
    if reasoning == "" then content else Fold(style, reasoning, content)
  }

  // ---------------------------------------------------------------- parsing

  /** The whitespace class of Python's `re` on text. */
  predicate IsSpace(c: char) {
    || '\U{0009}' <= c <= '\U{000D}' || '\U{001C}' <= c <= '\U{0020}' || c == '\U{0085}' || c == '\U{00A0}'
    || c == '\U{1680}' || '\U{2000}' <= c <= '\U{200A}' || c == '\U{2028}' || c == '\U{2029}'
    || c == '\U{202F}' || c == '\U{205F}' || c == '\U{3000}'
  }

  /** Word characters, for the boundary after a tag name. */
  predicate IsWord(c: char) {
    'a' <= c <= 'z' || 'A' <= c <= 'Z' || '0' <= c <= '9' || c == '_'
  }

  /** Case folding as `re.IGNORECASE` applies it to the letters of the pattern. */
  function Lower(c: char): char {
    if 'A' <= c <= 'Z' then (c as int - 'A' as int + 'a' as int) as char
    else if c == '\U{0130}' || c == '\U{0131}' then 'i'
    else if c == '\U{017F}' then 's'
    else if c == '\U{212A}' then 'k'
    else c
  }

  function SkipSpace(s: string): (rest: string)
    ensures |rest| <= |s|
  {
    if s != "" && IsSpace(s[0]) then SkipSpace(s[1..]) else s
  }

  function SkipNewlines(s: string): string {
    if s != "" && (s[0] == '\r' || s[0] == '\n') then SkipNewlines(s[1..]) else s
  }

  /** Matches the literal `word` at the start of `s`, ignoring case, and returns what follows it. */
  function Eat(s: string, word: string): (rest: Option<string>)
    ensures rest.Some? ==> |rest.value| == |s| - |word|
  {
    if word == "" then Some(s)
    else if s == "" || Lower(s[0]) != word[0] then None
    else Eat(s[1..], word[1..])
  }

  /** `[^>]*>` */
  function AfterBracket(s: string): (rest: Option<string>)
    ensures rest.Some? ==> |rest.value| < |s|
  {
    if s == "" then None else if s[0] == '>' then Some(s[1..]) else AfterBracket(s[1..])
  }

  /** `name\b[^>]*>` */
  function EatTag(s: string, name: string): (rest: Option<string>)
    ensures rest.Some? ==> |rest.value| < |s|
  {
    match Eat(s, name)
    case None => None
    case Some(t) => if t != "" && IsWord(t[0]) then None else AfterBracket(t)
  }

  function EatAny(s: string, words: seq<string>): Option<string> {
    if words == [] then None
    else match Eat(s, words[0]) case Some(t) => Some(t) case None => EatAny(s, words[1..])
  }

  /** `[\s\S]*?(?:closer|\Z)`: what follows the earliest closer, or nothing. */
  function AfterCloser(s: string, closers: seq<string>): (rest: string)
    ensures |rest| <= |s|
  {
    if s == "" then ""
    else match EatAny(s, closers)
      case Some(t) => if |t| <= |s| then t else ""
      case None => AfterCloser(s[1..], closers)
  }

  const THINK_CLOSERS: seq<string> := ["</think>", "</thinking>"]
  const DETAILS_CLOSERS: seq<string> := ["</details>"]

  function EatThink(s: string): (rest: Option<string>)
    ensures rest.Some? ==> |rest.value| < |s|
  {
    match EatTag(s, "<think")
    case Some(t) => Some(AfterCloser(t, THINK_CLOSERS))
    case None =>
      match EatTag(s, "<thinking")
      case Some(t) => Some(AfterCloser(t, THINK_CLOSERS))
      case None => None
  }

  function EatDetails(s: string): (rest: Option<string>)
    ensures rest.Some? ==> |rest.value| < |s|
  {
    match EatTag(s, "<details")
    case None => None
    case Some(t) =>
      match EatTag(SkipSpace(t), "<summary")
      case None => None
      case Some(u) =>
        match Eat(SkipSpace(u), "thinking")
        case None => None
        case Some(v) =>
          match Eat(SkipSpace(v), "</summary>")
          case None => None
          case Some(w) => Some(AfterCloser(w, DETAILS_CLOSERS))
  }

  /** One match of the whole pattern at the start of `s`, with the whitespace it swallows. */
  function EatBlock(s: string): (rest: Option<string>)
    ensures rest.Some? ==> |rest.value| < |s|
  {
    match EatThink(s)
    case Some(t) => Some(SkipSpace(t))
    case None => match EatDetails(s) case Some(t) => Some(SkipSpace(t)) case None => None
  }

  /** `re.sub` of the pattern by nothing. */
  function RemoveBlocks(s: string): string
    decreases |s|
  {
    if s == "" then ""
    else match EatBlock(s)
      case Some(t) => RemoveBlocks(t)
      case None => [s[0]] + RemoveBlocks(s[1..])
  }

  function StripThinkingBlocks(s: string): string {
    SkipNewlines(RemoveBlocks(s))
  }

  // ---------------------------------------------------------------- escaping is character-wise

  /** What a lone character becomes: the entity of the first entry for it, else itself. */
  function Entity(c: char, table: Replacements): string {
    if table == [] then [c] else if table[0].0 == c then table[0].1 else Entity(c, table[1..])
  }

  function Entities(s: string): string {
    if s == "" then "" else Entity(s[0], HTML_ENTITIES) + Entities(s[1..])
  }

  lemma {:induction false} ReplaceConcat(a: string, b: string, pattern: char, entity: string)
    ensures Replace(a + b, pattern, entity) == Replace(a, pattern, entity) + Replace(b, pattern, entity)
  {
    if a == "" {
      assert a + b == b;
    } else {
      assert (a + b)[1..] == a[1..] + b;
      ReplaceConcat(a[1..], b, pattern, entity);
    }
  }

  lemma {:induction false} ReplaceAbsent(s: string, pattern: char, entity: string)
    requires pattern !in s
    ensures Replace(s, pattern, entity) == s
  {
    if s != "" { ReplaceAbsent(s[1..], pattern, entity); }
  }

  lemma {:induction false} ReplaceAllConcat(a: string, b: string, table: Replacements)
    ensures ReplaceAll(a + b, table) == ReplaceAll(a, table) + ReplaceAll(b, table)
    decreases |table|
  {
    if table != [] {
      var (pattern, entity) := table[0];
      ReplaceConcat(a, b, pattern, entity);
      ReplaceAllConcat(Replace(a, pattern, entity), Replace(b, pattern, entity), table[1..]);
    }
  }

  lemma {:induction false} ReplaceAllAbsent(s: string, table: Replacements)
    requires forall j :: 0 <= j < |table| ==> table[j].0 !in s
    ensures ReplaceAll(s, table) == s
  {
    if table != [] {
      ReplaceAbsent(s, table[0].0, table[0].1);
      ReplaceAllAbsent(s, table[1..]);
    }
  }

  /** No entity contains a character that a later replacement would touch. */
  predicate LaterLeavesAlone(table: Replacements) {
    forall i, j :: 0 <= i < j < |table| ==> table[j].0 !in table[i].1
  }

  lemma {:induction false} ReplaceAllOne(c: char, table: Replacements)
    requires LaterLeavesAlone(table)
    ensures ReplaceAll([c], table) == Entity(c, table)
  {
    if table != [] {
      var (pattern, entity) := table[0];
      var rest := table[1..];
      if c == pattern {
        assert [c][1..] == "";
        assert Replace([c], pattern, entity) == entity;
        forall j | 0 <= j < |rest| ensures rest[j].0 !in entity { assert rest[j] == table[j + 1]; }
        ReplaceAllAbsent(entity, rest);
      } else {
        ReplaceAbsent([c], pattern, entity);
        ReplaceAllOne(c, rest);
      }
    }
  }

  lemma {:induction false} EntityIsFromTable(c: char, table: Replacements)
    ensures (exists i :: 0 <= i < |table| && Entity(c, table) == table[i].1)
         || (Entity(c, table) == [c] && forall i :: 0 <= i < |table| ==> table[i].0 != c)
  {
    if table != [] && table[0].0 != c {
      var rest := table[1..];
      EntityIsFromTable(c, rest);
      if i :| 0 <= i < |rest| && Entity(c, rest) == rest[i].1 {
        assert Entity(c, table) == table[i + 1].1;
      } else {
        forall i | 0 <= i < |table| ensures table[i].0 != c { if i > 0 { assert table[i] == rest[i - 1]; } }
      }
    }
  }

  lemma HtmlEntitiesAreSafe(c: char)
    ensures LaterLeavesAlone(HTML_ENTITIES)
    ensures '<' !in Entity(c, HTML_ENTITIES) && Entity(c, HTML_ENTITIES) != ""
  {
    EntityIsFromTable(c, HTML_ENTITIES);
    assert HTML_ENTITIES[1].0 == '<';
    assert forall i :: 0 <= i < |HTML_ENTITIES| ==> '<' !in HTML_ENTITIES[i].1 && HTML_ENTITIES[i].1 != "";
  }

  /** Five sequential replacements are one character-wise map, whose image has no opening bracket. */
  lemma {:induction false} EscapeIsCharacterwise(s: string)
    ensures HtmlEscape(s) == Entities(s)
    ensures '<' !in HtmlEscape(s)
    ensures |s| <= |HtmlEscape(s)|
  {
    if s == "" {
      ReplaceAllAbsent(s, HTML_ENTITIES);
    } else {
      assert s == [s[0]] + s[1..];
      HtmlEntitiesAreSafe(s[0]);
      ReplaceAllConcat([s[0]], s[1..], HTML_ENTITIES);
      ReplaceAllOne(s[0], HTML_ENTITIES);
      EscapeIsCharacterwise(s[1..]);
    }
  }

  // ---------------------------------------------------------------- the round trip

  lemma {:induction false} EatLiteral(p: string, word: string, t: string)
    requires |p| == |word|
    requires forall i :: 0 <= i < |p| ==> Lower(p[i]) == word[i]
    ensures Eat(p + t, word) == Some(t)
  {
    if word == "" {
      assert p + t == t;
    } else {
      assert (p + t)[1..] == p[1..] + t;
      EatLiteral(p[1..], word[1..], t);
    }
  }

  lemma EatMismatch(s: string, word: string)
    requires |s| > 1 && |word| > 1 && Lower(s[1]) != word[1]
    ensures Eat(s, word) == None
  {
    assert s[1..][0] == s[1] && word[1..][0] == word[1];
    assert Eat(s[1..], word[1..]) == None;
  }

  /** Text without an opening bracket is passed over in the search for a closer. */
  lemma {:induction false} CloserBeyond(p: string, t: string, closers: seq<string>)
    requires '<' !in p
    requires forall i :: 0 <= i < |closers| ==> closers[i] != "" && closers[i][0] == '<'
    ensures AfterCloser(p + t, closers) == AfterCloser(t, closers)
  {
    if p == "" {
      assert p + t == t;
    } else {
      assert (p + t)[0] == p[0] && p[0] != '<';
      NotEatAny(p + t, closers);
      assert (p + t)[1..] == p[1..] + t;
      CloserBeyond(p[1..], t, closers);
    }
  }

  lemma {:induction false} NotEatAny(s: string, closers: seq<string>)
    requires s != "" && s[0] != '<'
    requires forall i :: 0 <= i < |closers| ==> closers[i] != "" && closers[i][0] == '<'
    ensures EatAny(s, closers) == None
  {
    if closers != [] { NotEatAny(s, closers[1..]); }
  }

  lemma NoBlockWithoutBracket(s: string)
    requires s == "" || s[0] != '<'
    ensures EatBlock(s) == None
  {
  }

  lemma SkipTwoNewlines(t: string)
    ensures SkipSpace("\n\n" + t) == SkipSpace(t)
  {
    assert ("\n\n" + t)[1..] == "\n" + t;
    assert ("\n" + t)[1..] == t;
  }

  /** A tag without attributes. */
  lemma EatPlainTag(name: string, t: string)
    requires forall i :: 0 <= i < |name| ==> Lower(name[i]) == name[i]
    ensures EatTag(name + (">" + t), name) == Some(t)
  {
    EatLiteral(name, name, ">" + t);
    assert (">" + t)[1..] == t;
  }

  /** The body of a folded block up to and including its closer, and the blank line after it. */
  lemma EatBody(body: string, closer: string, closers: seq<string>, content: string)
    requires '<' !in body
    requires forall i :: 0 <= i < |closers| ==> closers[i] != "" && closers[i][0] == '<'
    requires closers != [] && closers[0] == closer
    requires forall i :: 0 <= i < |closer| ==> Lower(closer[i]) == closer[i]
    ensures SkipSpace(AfterCloser(body + (closer + ("\n\n" + content)), closers)) == SkipSpace(content)
  {
    var tail := "\n\n" + content;
    CloserBeyond(body, closer + tail, closers);
    EatLiteral(closer, closer, tail);
    assert (closer + tail)[0] == '<';
    SkipTwoNewlines(content);
  }

  lemma EatFoldedThink(e: string, content: string)
    requires '<' !in e
    ensures EatBlock("<think>\n" + e + "\n</think>\n\n" + content) == Some(SkipSpace(content))
  {
    var body := "\n" + e + "\n";
    var rest := body + ("</think>" + ("\n\n" + content));
    assert "<think>\n" + e + "\n</think>\n\n" + content == "<think" + (">" + rest);
    EatPlainTag("<think", rest);
    EatBody(body, "</think>", THINK_CLOSERS, content);
  }

  /** What follows `<details` in the header of a collapsible block. */
  function AfterDetails(rest: string): string {
    ">" + ("\n" + ("<summary" + (">" + ("Thinking" + ("</summary>" + rest)))))
  }

  lemma SkipOneNewline(t: string)
    requires t != "" && !IsSpace(t[0])
    ensures SkipSpace("\n" + t) == t && SkipSpace(t) == t
  {
    assert ("\n" + t)[1..] == t;
  }

  lemma EatDetailsHeader(rest: string)
    ensures EatDetails("<details" + AfterDetails(rest)) == Some(AfterCloser(rest, DETAILS_CLOSERS))
  {
    var afterThinking := "</summary>" + rest;
    var afterSummary := "Thinking" + afterThinking;
    var summary := "<summary" + (">" + afterSummary);
    EatPlainTag("<details", "\n" + summary);
    EatPlainTag("<summary", afterSummary);
    EatLiteral("Thinking", "thinking", afterThinking);
    EatLiteral("</summary>", "</summary>", rest);
    assert summary[0] == '<' && afterSummary[0] == 'T' && afterThinking[0] == '<';
    SkipOneNewline(summary);
    SkipOneNewline(afterSummary);
    SkipOneNewline(afterThinking);
    hide EatTag, Eat, SkipSpace, AfterCloser, IsSpace;
  }

  lemma DetailsMarkers()
    ensures BlockStart(Collapsible)
         == "<details" + ">" + "\n" + "<summary" + ">" + "Thinking" + "</summary>" + "\n\n"
    ensures BlockEnd(Collapsible) == "\n" + "</details>" + "\n\n"
  {
  }

  lemma RegroupHeader(a: string, b: string, c: string, d: string, e: string, f: string, g: string, h: string)
    ensures a + b + c + d + e + f + g + h == a + (b + (c + (d + (e + (f + (g + h))))))
  {
  }

  lemma RegroupBody(header: string, blank: string, e: string, newline: string, closer: string, content: string)
    ensures (header + blank) + e + (newline + closer + blank) + content
         == header + ((blank + e + newline) + (closer + (blank + content)))
  {
  }

  lemma DetailsIsNotThink(t: string)
    ensures EatThink("<details" + t) == None
  {
    EatMismatch("<details" + t, "<think");
    EatMismatch("<details" + t, "<thinking");
  }

  lemma FoldedDetailsIsHeaderAndBody(e: string, content: string, rest: string)
    requires rest == "\n\n" + e + "\n" + ("</details>" + ("\n\n" + content))
    ensures BlockStart(Collapsible) + e + BlockEnd(Collapsible) + content == "<details" + AfterDetails(rest)
  {
    DetailsMarkers();
    RegroupBody("<details" + ">" + "\n" + "<summary" + ">" + "Thinking" + "</summary>", "\n\n", e, "\n", "</details>",
                content);
    RegroupHeader("<details", ">", "\n", "<summary", ">", "Thinking", "</summary>", rest);
    hide BlockStart, BlockEnd;
  }

  lemma EatDetailsBlock(rest: string)
    ensures EatBlock("<details" + AfterDetails(rest)) == Some(SkipSpace(AfterCloser(rest, DETAILS_CLOSERS)))
  {
    DetailsIsNotThink(AfterDetails(rest));
    EatDetailsHeader(rest);
    hide EatThink, EatDetails, AfterDetails, AfterCloser, SkipSpace;
  }

  lemma EatDetailsBody(e: string, content: string)
    requires '<' !in e
    ensures SkipSpace(AfterCloser("\n\n" + e + "\n" + ("</details>" + ("\n\n" + content)), DETAILS_CLOSERS))
         == SkipSpace(content)
  {
    hide AfterCloser, SkipSpace;
    EatBody("\n\n" + e + "\n", "</details>", DETAILS_CLOSERS, content);
  }

  lemma EatFoldedDetails(e: string, content: string)
    requires '<' !in e
    ensures EatBlock(BlockStart(Collapsible) + e + BlockEnd(Collapsible) + content) == Some(SkipSpace(content))
  {
    hide EatBlock, AfterDetails, AfterCloser, SkipSpace, BlockStart, BlockEnd;
    var rest := "\n\n" + e + "\n" + ("</details>" + ("\n\n" + content));
    FoldedDetailsIsHeaderAndBody(e, content, rest);
    EatDetailsBlock(rest);
    EatDetailsBody(e, content);
  }

  /** Cutting the blocks out of a folded message is cutting them out of its content, less leading whitespace. */
  lemma RemoveFold(style: Style, reasoning: string, content: string)
    ensures RemoveBlocks(Fold(style, reasoning, content)) == RemoveBlocks(SkipSpace(content))
  {
    EscapeIsCharacterwise(reasoning);
    var e := HtmlEscape(reasoning);
    EatFoldedThink(e, content);
    EatFoldedDetails(e, content);
  }

  lemma StripFold(style: Style, reasoning: string, content: string)
    ensures StripThinkingBlocks(Fold(style, reasoning, content)) == StripThinkingBlocks(SkipSpace(content))
  {
    hide RemoveBlocks, SkipSpace, SkipNewlines, Fold;
    RemoveFold(style, reasoning, content);
  }

  ghost predicate HasNoBlock(content: string) { RemoveBlocks(content) == content }

  /** Declarative reading of `HasNoBlock`: the pattern matches at no position. */
  lemma {:induction false} NoBlockMeansNoMatch(content: string)
    ensures HasNoBlock(content) <==> forall i :: 0 <= i < |content| ==> EatBlock(content[i..]).None?
  {
    if content != "" {
      RemovingShortens(content);
      assert content[0..] == content;
      if EatBlock(content).None? {
        var rest := content[1..];
        NoBlockMeansNoMatch(rest);
        assert content == [content[0]] + rest;
        assert HasNoBlock(content) <==> HasNoBlock(rest);
        forall i | 1 <= i < |content| ensures content[i..] == rest[i - 1..] {}
        if HasNoBlock(rest) {
          forall i | 0 <= i < |content| ensures EatBlock(content[i..]).None? {
            if i > 0 { assert content[i..] == rest[i - 1..]; }
          }
        } else {
          var j :| 0 <= j < |rest| && EatBlock(rest[j..]).Some?;
          assert content[j + 1..] == rest[j..];
        }
      } else {
        RemovingShortens(EatBlock(content).value);
      }
    }
  }

  lemma {:induction false} RemovingShortens(s: string)
    ensures |RemoveBlocks(s)| <= |s|
    decreases |s|
  {
    if s != "" {
      match EatBlock(s)
      case Some(t) => RemovingShortens(t);
      case None => RemovingShortens(s[1..]);
    }
  }

  lemma {:induction false} RemovingShortensMore(s: string)
    ensures RemoveBlocks(s) == s || |RemoveBlocks(s)| < |s|
    decreases |s|
  {
    if s != "" {
      match EatBlock(s)
      case Some(t) => RemovingShortens(t);
      case None =>
        RemovingShortensMore(s[1..]);
        assert s == [s[0]] + s[1..];
    }
  }

  lemma {:induction false} SkipNewlinesOnce(s: string)
    ensures SkipNewlines(SkipNewlines(s)) == SkipNewlines(s) && |SkipNewlines(s)| <= |s|
  {
    if s != "" { SkipNewlinesOnce(s[1..]); }
  }

  /** Stripping twice is stripping once exactly when the first pass left nothing that reads as a block. */
  lemma StableWhenNoBlockIsLeft(s: string)
    ensures StripThinkingBlocks(StripThinkingBlocks(s)) == StripThinkingBlocks(s)
      <==> HasNoBlock(StripThinkingBlocks(s))
  {
    hide RemoveBlocks, SkipNewlines;
    var once := StripThinkingBlocks(s);
    SkipNewlinesOnce(RemoveBlocks(s));
    SkipNewlinesOnce(RemoveBlocks(once));
    RemovingShortensMore(once);
  }

  lemma NotABlock(tail: string)
    ensures EatBlock("<thi" + ("<" + tail)) == None
  {
    var s := "<thi" + ("<" + tail);
    EatLiteral("<thi", "<thi", "<" + tail);
    MismatchAfter("<thi", "nk", "<" + tail);
    MismatchAfter("<thi", "nking", "<" + tail);
    assert "<think" == "<thi" + "nk" && "<thinking" == "<thi" + "nking";
    EatMismatch(s, "<details");
  }

  lemma {:induction false} MismatchAfter(p: string, word: string, t: string)
    requires forall i :: 0 <= i < |p| ==> Lower(p[i]) == p[i]
    requires word != "" && t != "" && Lower(t[0]) != word[0]
    ensures Eat(p + t, p + word) == None
  {
    if p == "" {
      assert p + t == t && p + word == word;
    } else {
      assert (p + t)[1..] == p[1..] + t && (p + word)[1..] == p[1..] + word;
      MismatchAfter(p[1..], word, t);
    }
  }

  lemma RemoveOne(c: char, t: string)
    requires EatBlock([c] + t) == None
    ensures RemoveBlocks([c] + t) == [c] + RemoveBlocks(t)
  {
    assert ([c] + t)[1..] == t;
  }

  lemma EmptyThinkBlock(t: string)
    ensures EatBlock("<think" + (">" + ("</think>" + t))) == Some(SkipSpace(t))
  {
    EatPlainTag("<think", "</think>" + t);
    EatLiteral("</think>", "</think>", t);
    assert ("</think>" + t)[0] == '<';
  }

  lemma {:induction false} RemoveNone(p: string, t: string)
    requires '<' !in p
    ensures RemoveBlocks(p + t) == p + RemoveBlocks(t)
  {
    hide EatBlock, RemoveBlocks;
    if p == "" {
      assert p + t == t && p + RemoveBlocks(t) == RemoveBlocks(t);
    } else {
      var first, rest := [p[0]], p[1..];
      assert p == first + rest;
      Associates(first, rest, t);
      Associates(first, rest, RemoveBlocks(t));
      NoBlockWithoutBracket(first + (rest + t));
      RemoveOne(p[0], rest + t);
      RemoveNone(rest, t);
    }
  }

  lemma RemoveBeforeTag(tail: string)
    ensures RemoveBlocks("<thi" + ("<" + tail)) == "<thi" + RemoveBlocks("<" + tail)
  {
    hide EatBlock, RemoveBlocks;
    var block := "<" + tail;
    NotABlock(tail);
    assert "<thi" == ['<'] + "thi";
    Associates(['<'], "thi", block);
    Associates(['<'], "thi", RemoveBlocks(block));
    RemoveOne('<', "thi" + block);
    RemoveNone("thi", block);
  }

  lemma RemoveWholly(s: string, t: string)
    requires s != "" && EatBlock(s) == Some(t)
    ensures RemoveBlocks(s) == RemoveBlocks(t)
  {
  }

  lemma RemoveEmptyBlock()
    ensures RemoveBlocks("<think" + (">" + ("</think>" + "nk>"))) == "nk>"
  {
    hide EatBlock, RemoveBlocks;
    EmptyThinkBlock("nk>");
    assert SkipSpace("nk>") == "nk>";
    RemoveWholly("<think" + (">" + ("</think>" + "nk>")), "nk>");
    RemoveNone("nk>", "");
    assert "nk>" + "" == "nk>";
    RemoveNothing();
  }

  lemma RemoveNothing()
    ensures RemoveBlocks("") == ""
  {
  }

  lemma LoneTagIsABlock()
    ensures EatBlock("<think" + (">" + "")) == Some("")
  {
    EatPlainTag("<think", "");
  }

  /** It can leave one: cutting out a block may join what was around it into another. */
  lemma StripIsNotIdempotent()
    ensures StripThinkingBlocks("<thi<think></think>nk>") == "<think>"
    ensures StripThinkingBlocks("<think>") == ""
  {
    hide EatBlock, RemoveBlocks;
    var tail := "think" + (">" + ("</think>" + "nk>"));
    assert "<" + tail == "<think" + (">" + ("</think>" + "nk>"));
    RemoveBeforeTag(tail);
    RemoveEmptyBlock();
    assert "<thi<think></think>nk>" == "<thi" + ("<" + tail);
    assert "<think>" == "<thi" + "nk>" == "<think" + (">" + "");
    LoneTagIsABlock();
    RemoveWholly("<think>", "");
    RemoveNothing();
  }

  lemma {:induction false} NoBlockAfterSpace(content: string)
    requires HasNoBlock(content)
    ensures HasNoBlock(SkipSpace(content))
    ensures SkipNewlines(SkipSpace(content)) == SkipSpace(content)
  {
    if content != "" && IsSpace(content[0]) {
      NoBlockWithoutBracket(content);
      assert RemoveBlocks(content) == [content[0]] + RemoveBlocks(content[1..]);
      assert RemoveBlocks(content)[1..] == RemoveBlocks(content[1..]);
      NoBlockAfterSpace(content[1..]);
    }
  }

  // ---------------------------------------------------------------- texts that strip clean

  /** The scan keeps no opening bracket before a block that it removes. */
  predicate BlocksComeFirst(s: string, bracketKept: bool)
    decreases |s|
  {
    s == ""
    || match EatBlock(s)
       case Some(t) => !bracketKept && BlocksComeFirst(t, bracketKept)
       case None => BlocksComeFirst(s[1..], bracketKept || s[0] == '<')
  }

  lemma {:induction false} NoBlockAfterBracket(s: string)
    requires BlocksComeFirst(s, true)
    ensures HasNoBlock(s)
    decreases |s|
  {
    if s != "" {
      NoBlockAfterBracket(s[1..]);
      assert s == [s[0]] + s[1..];
    }
  }

  /** At no opening bracket that the scan keeps does the text kept from there on read as a block. */
  predicate NoBracketJoins(s: string)
    decreases |s|
  {
    s == ""
    || match EatBlock(s)
       case Some(t) => NoBracketJoins(t)
       case None => (s[0] == '<' ==> EatBlock([s[0]] + RemoveBlocks(s[1..])) == None) && NoBracketJoins(s[1..])
  }

  lemma {:induction false} NothingJoins(s: string)
    ensures HasNoBlock(RemoveBlocks(s)) <==> NoBracketJoins(s)
    decreases |s|
  {
    if s != "" {
      match EatBlock(s)
      case Some(t) => NothingJoins(t);
      case None =>
        var kept := RemoveBlocks(s[1..]);
        NothingJoins(s[1..]);
        if s[0] != '<' { NoBlockWithoutBracket([s[0]] + kept); }
        HeadAndTail(s[0], kept);
    }
  }

  lemma HeadAndTail(c: char, t: string)
    ensures HasNoBlock([c] + t) <==> EatBlock([c] + t) == None && HasNoBlock(t)
  {
    assert ([c] + t)[1..] == t;
    if EatBlock([c] + t).Some? {
      RemovingShortens(EatBlock([c] + t).value);
    } else {
      RemoveOne(c, t);
      assert ([c] + RemoveBlocks(t))[1..] == RemoveBlocks(t);
    }
  }

  lemma {:induction false} NothingJoinsBehindBlocks(s: string)
    requires BlocksComeFirst(s, false)
    ensures NoBracketJoins(s)
    decreases |s|
  {
    if s != "" {
      match EatBlock(s)
      case Some(t) => NothingJoinsBehindBlocks(t);
      case None =>
        if s[0] == '<' {
          NoBlockAfterBracket(s[1..]);
          assert s == [s[0]] + s[1..];
          HeadAndTail(s[0], s[1..]);
          NothingJoins(s[1..]);
        } else {
          NothingJoinsBehindBlocks(s[1..]);
        }
    }
  }

  lemma {:induction false} NoBlockAfterNewlines(content: string)
    ensures HasNoBlock(SkipNewlines(content)) <==> HasNoBlock(content)
  {
    if content != "" && (content[0] == '\r' || content[0] == '\n') {
      NoBlockWithoutBracket(content);
      assert content == [content[0]] + content[1..];
      HeadAndTail(content[0], content[1..]);
      NoBlockAfterNewlines(content[1..]);
    }
  }

  /** Stripping is stable on a text exactly when no opening bracket that the scan keeps joins with what it keeps
      behind it into a block. */
  lemma StableWhenNothingJoins(s: string)
    ensures StripThinkingBlocks(StripThinkingBlocks(s)) == StripThinkingBlocks(s) <==> NoBracketJoins(s)
  {
    hide RemoveBlocks, SkipNewlines, NoBracketJoins, EatBlock;
    NothingJoins(s);
    NoBlockAfterNewlines(RemoveBlocks(s));
    StableWhenNoBlockIsLeft(s);
  }

  /** In particular it is stable when all blocks come before any other opening bracket. */
  lemma StableWhenBlocksComeFirst(s: string)
    requires BlocksComeFirst(s, false)
    ensures StripThinkingBlocks(StripThinkingBlocks(s)) == StripThinkingBlocks(s)
  {
    hide RemoveBlocks, SkipNewlines, BlocksComeFirst, EatBlock;
    NothingJoinsBehindBlocks(s);
    StableWhenNothingJoins(s);
  }

  /** So it is on everything the bridge itself folds around a content without blocks. */
  lemma FoldedTextIsStable(style: Style, reasoning: string, content: string)
    requires HasNoBlock(content)
    ensures var folded := Fold(style, reasoning, content);
      StripThinkingBlocks(StripThinkingBlocks(folded)) == StripThinkingBlocks(folded)
  {
    hide RemoveBlocks, SkipSpace, Fold;
    DisplayRoundTrip(style, reasoning, content);
    NoBlockAfterSpace(content);
    StableWhenNoBlockIsLeft(Fold(style, reasoning, content));
  }

  /** The printer/parser round trip, for both styles, every reasoning text and every content without a block. */
  lemma DisplayRoundTrip(style: Style, reasoning: string, content: string)
    requires HasNoBlock(content)
    ensures StripThinkingBlocks(Fold(style, reasoning, content)) == SkipSpace(content)
  {
    StripFold(style, reasoning, content);
    NoBlockAfterSpace(content);
  }

  /** A text without brackets that begins with no space is left alone. */
  lemma PlainTextStays(text: string)
    requires '<' !in text && text != "" && !IsSpace(text[0])
    ensures HasNoBlock(text) && StripThinkingBlocks(text) == text
  {
    hide SkipSpace, EatBlock, RemoveBlocks;
    RemoveNone(text, "");
    RemoveNothing();
    assert text + "" == text;
  }

  /** A text in front of the content, with reasoning folded in before it, behind it or both: what is left is the text
      and the content, whose leading whitespace goes with a block in front of it. */
  lemma StripAroundText(style: Style, before: string, text: string, behind: string, content: string)
    requires '<' !in text && text != "" && !IsSpace(text[0]) && HasNoBlock(content)
    ensures StripThinkingBlocks(Folded(style, before, text + Folded(style, behind, content)))
         == text + if behind == "" then content else SkipSpace(content)
  {
    var rest := Folded(style, behind, content);
    RemoveFold(style, behind, content);
    NoBlockAfterSpace(content);
    RemoveNone(text, rest);
    var shown, left := text + rest, text + RemoveBlocks(rest);
    assert SkipSpace(shown) == shown && SkipNewlines(left) == left;
    hide RemoveBlocks, SkipSpace, SkipNewlines, Fold;
    StripFold(style, before, shown);
  }
}
