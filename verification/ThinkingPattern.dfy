/** The pattern of thinking blocks, position by position; and the way back from escaped reasoning. */
module ThinkingPattern {
  import opened Options
  import opened ThinkingBlocks

  // ---------------------------------------------------------------- tags

  /** The text has the word at `i`, whatever its case. */
  ghost predicate WordAt(s: string, i: int, word: string) {
    0 <= i && i + |word| <= |s| && forall j :: 0 <= j < |word| ==> Lower(s[i + j]) == word[j]
  }

  /** The text starts with the tag: its name, no further word character, and up to `end` the first closing bracket. */
  ghost predicate TagTo(s: string, name: string, end: int) {
    && WordAt(s, 0, name) && |name| <= end < |s|
    && !IsWord(s[|name|]) && s[end] == '>' && forall j :: |name| <= j < end ==> s[j] != '>'
  }

  lemma {:induction false} EatExactly(s: string, word: string)
    ensures Eat(s, word) == if WordAt(s, 0, word) then Some(s[|word|..]) else None
  {
    if word == "" {
      assert s[0..] == s;
    } else if s != "" {
      EatExactly(s[1..], word[1..]);
      if WordAt(s, 0, word) {
        forall j | 0 <= j < |word| - 1 ensures Lower(s[1..][0 + j]) == word[1..][j] {
          assert Lower(s[0 + (j + 1)]) == word[j + 1];
        }
      }
      if WordAt(s[1..], 0, word[1..]) && Lower(s[0]) == word[0] {
        forall j | 0 <= j < |word| ensures Lower(s[0 + j]) == word[j] {
          assert j > 0 ==> Lower(s[1..][0 + (j - 1)]) == word[1..][j - 1];
        }
      }
    }
  }

  lemma {:induction false} AfterBracketExactly(s: string, end: nat)
    requires end < |s| && s[end] == '>' && forall j :: 0 <= j < end ==> s[j] != '>'
    ensures AfterBracket(s) == Some(s[end + 1..])
  {
    if end > 0 {
      AfterBracketExactly(s[1..], end - 1);
      assert s[1..][end..] == s[end + 1..];
    }
  }

  lemma {:induction false} BracketAt(s: string) returns (end: int)
    requires AfterBracket(s).Some?
    ensures 0 <= end < |s| && s[end] == '>' && forall j :: 0 <= j < end ==> s[j] != '>'
  {
    if s[0] == '>' {
      end := 0;
    } else {
      var e := BracketAt(s[1..]);
      end := e + 1;
    }
  }

  /** What the scanner takes for a tag. */
  lemma TagExactly(s: string, name: string, end: int)
    requires TagTo(s, name, end)
    ensures EatTag(s, name) == Some(s[end + 1..])
  {
    EatExactly(s, name);
    var rest := s[|name|..];
    AfterBracketExactly(rest, end - |name|);
    assert rest[end - |name| + 1..] == s[end + 1..];
  }

  lemma TagFound(s: string, name: string) returns (end: int)
    requires EatTag(s, name).Some?
    ensures TagTo(s, name, end) && EatTag(s, name) == Some(s[end + 1..])
  {
    EatExactly(s, name);
    var rest := s[|name|..];
    var e := BracketAt(rest);
    end := |name| + e;
    assert rest[0] == s[|name|];
    forall j | |name| <= j < end ensures s[j] != '>' { assert s[j] == rest[j - |name|]; }
    TagExactly(s, name, end);
  }

  // ---------------------------------------------------------------- closers

  /** `rest` is what follows the first place where one of the closers stands, or nothing if none does. */
  ghost predicate ClosedTo(s: string, closers: seq<string>, rest: string) {
    || (rest == "" && forall i, c :: c in closers ==> !WordAt(s, i, c))
    || exists i, c :: c in closers && WordAt(s, i, c) && rest == s[i + |c|..]
         && forall j, d :: 0 <= j < i && d in closers ==> !WordAt(s, j, d)
  }

  lemma {:induction false} EatAnyExactly(s: string, closers: seq<string>)
    ensures match EatAny(s, closers)
      case Some(t) => exists c :: c in closers && WordAt(s, 0, c) && t == s[|c|..]
      case None => forall c <- closers :: !WordAt(s, 0, c)
  {
    if closers != [] {
      EatExactly(s, closers[0]);
      EatAnyExactly(s, closers[1..]);
      hide WordAt;
      assert closers == [closers[0]] + closers[1..];
    }
  }

  lemma WordLater(s: string, i: int, word: string)
    requires s != "" && i >= 0
    ensures WordAt(s[1..], i, word) <==> WordAt(s, i + 1, word)
  {
    if WordAt(s, i + 1, word) {
      forall j | 0 <= j < |word| ensures Lower(s[1..][i + j]) == word[j] { assert Lower(s[i + 1 + j]) == word[j]; }
    }
    if WordAt(s[1..], i, word) {
      forall j | 0 <= j < |word| ensures Lower(s[i + 1 + j]) == word[j] { assert Lower(s[1..][i + j]) == word[j]; }
    }
  }

  lemma {:induction false} CloserExactly(s: string, closers: seq<string>)
    requires forall c <- closers :: c != ""
    ensures ClosedTo(s, closers, AfterCloser(s, closers))
  {
    hide WordAt, EatAny;
    if s == "" {
      NoWordInNothing(closers);
    } else {
      EatAnyExactly(s, closers);
      OnlyInside(s, closers);
      match EatAny(s, closers)
      case Some(t) =>
        var c :| c in closers && WordAt(s, 0, c) && t == s[|c|..];
        assert t == s[0 + |c|..];
      case None =>
        CloserExactly(s[1..], closers);
        CloserLater(s, closers, AfterCloser(s[1..], closers));
    }
  }

  lemma NoWordInNothing(closers: seq<string>)
    requires forall c <- closers :: c != ""
    ensures forall i, c :: c in closers ==> !WordAt("", i, c)
  {
  }

  lemma CloserLater(s: string, closers: seq<string>, rest: string)
    requires s != "" && ClosedTo(s[1..], closers, rest) && forall c <- closers :: !WordAt(s, 0, c)
    ensures ClosedTo(s, closers, rest)
  {
    hide WordAt;
    forall i, c | c in closers && i >= 0 ensures WordAt(s[1..], i, c) <==> WordAt(s, i + 1, c) { WordLater(s, i, c); }
    OnlyInside(s, closers);
    OnlyInside(s[1..], closers);
    if rest == "" && forall i, c :: c in closers ==> !WordAt(s[1..], i, c) {
      forall i, c | c in closers ensures !WordAt(s, i, c) {
        if i > 0 { assert WordAt(s[1..], i - 1, c) <==> WordAt(s, i, c); }
      }
    } else {
      var i, c :| c in closers && WordAt(s[1..], i, c) && rest == s[1..][i + |c|..]
        && forall j, d :: 0 <= j < i && d in closers ==> !WordAt(s[1..], j, d);
      assert WordAt(s, i + 1, c) && rest == s[i + 1 + |c|..];
      forall j, d | 0 <= j < i + 1 && d in closers ensures !WordAt(s, j, d) {
        if j > 0 { assert WordAt(s[1..], j - 1, d) <==> WordAt(s, j, d); }
      }
    }
  }

  lemma OnlyInside(s: string, closers: seq<string>)
    ensures forall i, c :: WordAt(s, i, c) ==> 0 <= i && i + |c| <= |s|
  {
  }

  // ---------------------------------------------------------------- the two kinds of blocks

  /** A `think` or `thinking` tag opens a block, which the first closing tag of either kind ends, or the text. */
  ghost predicate ThinkBlockTo(s: string, rest: string) {
    exists name, end :: (name == "<think" || name == "<thinking") && TagTo(s, name, end)
      && ClosedTo(s[end + 1..], ["</think>", "</thinking>"], rest)
  }

  lemma ThinkExactly(s: string)
    ensures match EatThink(s)
      case Some(rest) => ThinkBlockTo(s, rest)
      case None => forall rest :: !ThinkBlockTo(s, rest)
  {
    hide TagTo, ClosedTo, EatTag, AfterCloser;
    match EatThink(s)
    case Some(rest) =>
      var name := if EatTag(s, "<think").Some? then "<think" else "<thinking";
      var end := TagFound(s, name);
      ClosersAreWords();
      CloserExactly(EatTag(s, name).value, THINK_CLOSERS);
      TagInside(s, name, end);
    case None =>
      forall name, end | (name == "<think" || name == "<thinking") && TagTo(s, name, end) ensures false {
        TagExactly(s, name, end);
      }
  }

  lemma TagInside(s: string, name: string, end: int)
    requires TagTo(s, name, end)
    ensures 0 <= end < |s|
  {
  }

  lemma ClosersAreWords()
    ensures forall c <- THINK_CLOSERS + DETAILS_CLOSERS :: c != ""
  {
  }

  /** White space up to `end`, and a word there. */
  ghost predicate SpacesThen(s: string, end: int, word: string) {
    && WordAt(s, end, word) && forall j :: 0 <= j < end ==> IsSpace(s[j])
  }

  lemma {:induction false} SkipSpaceTo(s: string, end: nat)
    requires end <= |s| && (end == |s| || !IsSpace(s[end])) && forall j :: 0 <= j < end ==> IsSpace(s[j])
    ensures SkipSpace(s) == s[end..]
  {
    if end > 0 {
      SkipSpaceTo(s[1..], end - 1);
      assert s[1..][end - 1..] == s[end..];
    }
  }

  lemma {:induction false} SpacesSkipped(s: string) returns (end: nat)
    ensures end <= |s| && SkipSpace(s) == s[end..] && (end == |s| || !IsSpace(s[end]))
    ensures forall j :: 0 <= j < end ==> IsSpace(s[j])
  {
    if s != "" && IsSpace(s[0]) {
      var e := SpacesSkipped(s[1..]);
      end := e + 1;
    } else {
      end := 0;
    }
  }

  /** A letter or bracket that a word may start with is no white space. */
  lemma WordStartsSolid(s: string, i: int, word: string)
    requires WordAt(s, i, word) && word != "" && (word[0] == '<' || word[0] == 't')
    ensures i < |s| && !IsSpace(s[i])
  {
    assert Lower(s[i + 0]) == word[0];
  }

  lemma WordHere(s: string, i: nat, word: string)
    requires i <= |s|
    ensures WordAt(s[i..], 0, word) <==> WordAt(s, i, word)
  {
    if WordAt(s, i, word) {
      forall j | 0 <= j < |word| ensures Lower(s[i..][0 + j]) == word[j] { assert Lower(s[i + j]) == word[j]; }
    }
    if WordAt(s[i..], 0, word) {
      forall j | 0 <= j < |word| ensures Lower(s[i + j]) == word[j] { assert Lower(s[i..][0 + j]) == word[j]; }
    }
  }

  /** Skipping white space and then eating a word. */
  lemma SkippedWordExactly(s: string, word: string)
    requires word != "" && (word[0] == '<' || word[0] == 't')
    ensures match Eat(SkipSpace(s), word)
      case Some(t) => exists end :: SpacesThen(s, end, word) && t == s[end + |word|..]
      case None => forall end :: !SpacesThen(s, end, word)
    ensures forall end :: SpacesThen(s, end, word) ==> Eat(SkipSpace(s), word) == Some(s[end + |word|..])
  {
    hide WordAt, IsSpace, Eat, SkipSpace, Lower;
    var e := SpacesSkipped(s);
    EatExactly(s[e..], word);
    WordHere(s, e, word);
    OnlyInside(s, []);
    forall end | SpacesThen(s, end, word) ensures end == e {
      WordStartsSolid(s, end, word);
    }
    if WordAt(s, e, word) {
      assert SpacesThen(s, e, word) && s[e..][|word|..] == s[e + |word|..];
    }
  }

  /** A `details` tag, a `summary` tag, the word, and the end of the summary, with nothing but white space between
      them, open a block, which the first closing `details` tag ends, or the text. */
  ghost predicate DetailsBlockTo(s: string, rest: string) {
    exists a :: TagTo(s, "<details", a) && SummaryTo(s[a + 1..], rest)
  }

  ghost predicate SummaryTo(s: string, rest: string) {
    exists b :: 0 <= b <= |s| && (forall j :: 0 <= j < b ==> IsSpace(s[j])) && SummaryTagTo(s[b..], rest)
  }

  ghost predicate SummaryTagTo(s: string, rest: string) {
    exists c :: TagTo(s, "<summary", c) && HeadingTo(s[c + 1..], rest)
  }

  ghost predicate HeadingTo(s: string, rest: string) {
    exists d :: SpacesThen(s, d, "thinking") && HeadingEndTo(s[d + 8..], rest)
  }

  ghost predicate HeadingEndTo(s: string, rest: string) {
    exists e :: SpacesThen(s, e, "</summary>") && ClosedTo(s[e + 10..], ["</details>"], rest)
  }

  function EatHeadingEnd(s: string): Option<string> {
    match Eat(SkipSpace(s), "</summary>") case None => None case Some(w) => Some(AfterCloser(w, DETAILS_CLOSERS))
  }

  function EatHeading(s: string): Option<string> {
    match Eat(SkipSpace(s), "thinking") case None => None case Some(v) => EatHeadingEnd(v)
  }

  function EatSummary(s: string): Option<string> {
    match EatTag(s, "<summary") case None => None case Some(u) => EatHeading(u)
  }

  lemma DetailsInSteps(s: string)
    ensures EatDetails(s) == match EatTag(s, "<details") case None => None case Some(t) => EatSummary(SkipSpace(t))
  {
    hide EatTag, Eat, SkipSpace, AfterCloser;
  }

  /** What is left is what the relation says, and nothing is if the relation has no rest. */
  lemma HeadingEndExactly(s: string)
    ensures match EatHeadingEnd(s)
      case Some(rest) => HeadingEndTo(s, rest)
      case None => forall rest :: !HeadingEndTo(s, rest)
  {
    hide SpacesThen, ClosedTo, Eat, SkipSpace, AfterCloser;
    SkippedWordExactly(s, "</summary>");
    ClosersAreWords();
    if Eat(SkipSpace(s), "</summary>").Some? {
      CloserExactly(Eat(SkipSpace(s), "</summary>").value, DETAILS_CLOSERS);
    }
  }

  lemma HeadingExactly(s: string)
    ensures match EatHeading(s)
      case Some(rest) => HeadingTo(s, rest)
      case None => forall rest :: !HeadingTo(s, rest)
  {
    hide SpacesThen, Eat, SkipSpace, EatHeadingEnd, HeadingEndTo;
    SkippedWordExactly(s, "thinking");
    if Eat(SkipSpace(s), "thinking").Some? { HeadingEndExactly(Eat(SkipSpace(s), "thinking").value); }
  }

  lemma SummaryTagExactly(s: string)
    ensures match EatSummary(s)
      case Some(rest) => SummaryTagTo(s, rest)
      case None => forall rest :: !SummaryTagTo(s, rest)
  {
    hide TagTo, EatTag, EatHeading, HeadingTo;
    if EatTag(s, "<summary").Some? {
      var c := TagFound(s, "<summary");
      TagInside(s, "<summary", c);
      HeadingExactly(EatTag(s, "<summary").value);
    }
    forall c | TagTo(s, "<summary", c) ensures 0 <= c < |s| && EatTag(s, "<summary") == Some(s[c + 1..]) {
      TagInside(s, "<summary", c);
      TagExactly(s, "<summary", c);
    }
  }

  lemma SummaryExactly(s: string)
    ensures match EatSummary(SkipSpace(s))
      case Some(rest) => SummaryTo(s, rest)
      case None => forall rest :: !SummaryTo(s, rest)
  {
    hide IsSpace, SkipSpace, EatSummary, SummaryTagTo;
    var e := SpacesSkipped(s);
    SummaryTagExactly(s[e..]);
    forall b, rest | 0 <= b <= |s| && (forall j :: 0 <= j < b ==> IsSpace(s[j])) && SummaryTagTo(s[b..], rest)
      ensures b == e
    {
      TagStartsSolid(s[b..], rest);
    }
  }

  lemma TagStartsSolid(s: string, rest: string)
    requires SummaryTagTo(s, rest)
    ensures s != "" && !IsSpace(s[0])
  {
    hide HeadingTo;
    var c :| TagTo(s, "<summary", c) && HeadingTo(s[c + 1..], rest);
    WordStartsSolid(s, 0, "<summary");
  }

  lemma DetailsExactly(s: string)
    ensures match EatDetails(s)
      case Some(rest) => DetailsBlockTo(s, rest)
      case None => forall rest :: !DetailsBlockTo(s, rest)
  {
    hide TagTo, EatTag, EatSummary, SkipSpace, SummaryTo, EatDetails;
    DetailsInSteps(s);
    if EatTag(s, "<details").Some? {
      var a := TagFound(s, "<details");
      TagInside(s, "<details", a);
      SummaryExactly(EatTag(s, "<details").value);
    }
    forall a | TagTo(s, "<details", a) ensures 0 <= a < |s| && EatTag(s, "<details") == Some(s[a + 1..]) {
      TagInside(s, "<details", a);
      TagExactly(s, "<details", a);
    }
  }

  /** The scanner finds a block exactly where the pattern has one, and goes on behind the white space after it. */
  lemma BlockExactly(s: string)
    ensures match EatBlock(s)
      case Some(t) => exists rest :: (ThinkBlockTo(s, rest) || DetailsBlockTo(s, rest)) && t == SkipSpace(rest)
      case None => forall rest :: !ThinkBlockTo(s, rest) && !DetailsBlockTo(s, rest)
  {
    hide ThinkBlockTo, DetailsBlockTo, EatThink, EatDetails, SkipSpace;
    ThinkExactly(s);
    DetailsExactly(s);
  }

  // ---------------------------------------------------------------- unescaping

  /** The way back: each entity is the character it stands for. */
  function HtmlUnescape(s: string): string {
    if s == "" then ""
    else if "&amp;" <= s then "&" + HtmlUnescape(s[5..])
    else if "&lt;" <= s then "<" + HtmlUnescape(s[4..])
    else if "&gt;" <= s then ">" + HtmlUnescape(s[4..])
    else if "&quot;" <= s then "\"" + HtmlUnescape(s[6..])
    else if "&#x27;" <= s then "'" + HtmlUnescape(s[6..])
    else [s[0]] + HtmlUnescape(s[1..])
  }

  lemma PrefixThenRest(prefix: string, t: string)
    ensures prefix <= prefix + t && (prefix + t)[|prefix|..] == t
  {
  }

  lemma UnescapeEntity(t: string)
    ensures HtmlUnescape("&amp;" + t) == "&" + HtmlUnescape(t)
    ensures HtmlUnescape("&lt;" + t) == "<" + HtmlUnescape(t)
    ensures HtmlUnescape("&gt;" + t) == ">" + HtmlUnescape(t)
    ensures HtmlUnescape("&quot;" + t) == "\"" + HtmlUnescape(t)
    ensures HtmlUnescape("&#x27;" + t) == "'" + HtmlUnescape(t)
  {
    PrefixThenRest("&amp;", t);
    PrefixThenRest("&lt;", t);
    PrefixThenRest("&gt;", t);
    PrefixThenRest("&quot;", t);
    PrefixThenRest("&#x27;", t);
    assert ("&lt;" + t)[1] == 'l' && ("&gt;" + t)[1] == 'g' && ("&quot;" + t)[1] == 'q' && ("&#x27;" + t)[1] == '#';
  }

  lemma UnescapeOther(c: char, t: string)
    requires c != '&'
    ensures HtmlUnescape([c] + t) == [c] + HtmlUnescape(t)
  {
    assert ([c] + t)[0] == c && ([c] + t)[1..] == t;
  }

  lemma EntityOf(c: char)
    ensures c == '&' ==> Entity(c, HTML_ENTITIES) == "&amp;"
    ensures c == '<' ==> Entity(c, HTML_ENTITIES) == "&lt;"
    ensures c == '>' ==> Entity(c, HTML_ENTITIES) == "&gt;"
    ensures c == '"' ==> Entity(c, HTML_ENTITIES) == "&quot;"
    ensures c == '\'' ==> Entity(c, HTML_ENTITIES) == "&#x27;"
    ensures c !in {'&', '<', '>', '"', '\''} ==> Entity(c, HTML_ENTITIES) == [c]
  {
    var one := HTML_ENTITIES[1..];
    var two := one[1..];
    var three := two[1..];
    var four := three[1..];
    assert one[0].0 == '<' && two[0].0 == '>' && three[0].0 == '"' && four[0].0 == '\'' && four[1..] == [];
    assert Entity(c, four) == if c == '\'' then "&#x27;" else [c];
    assert Entity(c, three) == if c == '"' then "&quot;" else Entity(c, four);
    assert Entity(c, two) == if c == '>' then "&gt;" else Entity(c, three);
    assert Entity(c, one) == if c == '<' then "&lt;" else Entity(c, two);
  }

  /** What one character becomes reads as that character again. */
  lemma UnescapeOne(c: char, t: string)
    ensures HtmlUnescape(Entity(c, HTML_ENTITIES) + t) == [c] + HtmlUnescape(t)
  {
    hide Entity, HtmlUnescape;
    EntityOf(c);
    UnescapeEntity(t);
    if c !in {'&', '<', '>', '"', '\''} { UnescapeOther(c, t); }
  }

  lemma {:induction false} UnescapeEntities(s: string)
    ensures HtmlUnescape(Entities(s)) == s
  {
    if s != "" {
      hide Entity, HtmlUnescape;
      UnescapeOne(s[0], Entities(s[1..]));
      UnescapeEntities(s[1..]);
    }
  }

  /** Escaped reasoning can be read again: no two texts look alike once escaped. */
  lemma UnescapeEscaped(s: string)
    ensures HtmlUnescape(HtmlEscape(s)) == s
  {
    EscapeIsCharacterwise(s);
    UnescapeEntities(s);
  }
}
