/** shared/tagged-message.ts: escaping by whole-string replacement passes, the tagged blocks built
    from it, and the neutralized JSON body. */
module TaggedMessage {
  import opened Options

  /** String.prototype.replaceAll with literal pattern and replacement: leftmost, not overlapping. */
  function ReplaceAll(s: string, pattern: string, replacement: string): string
    requires pattern != ""
    decreases |s|
  {
    if |s| < |pattern| then s
    else if s[..|pattern|] == pattern then replacement + ReplaceAll(s[|pattern|..], pattern, replacement)
    else [s[0]] + ReplaceAll(s[1..], pattern, replacement)
  }

  function EscapeXmlText(value: string): string {
    ReplaceAll(ReplaceAll(ReplaceAll(value, "&", "&amp;"), "<", "&lt;"), ">", "&gt;")
  }

  function UnescapeXmlText(value: string): string {
    ReplaceAll(ReplaceAll(ReplaceAll(value, "&lt;", "<"), "&gt;", ">"), "&amp;", "&")
  }

  function EscapeXmlAttribute(value: string): string {
    ReplaceAll(EscapeXmlText(value), "\"", "&quot;")
  }

  /** The text between the passes of unescaping, when the first `done` entities have been restored. */
  function Entity(c: char, done: nat): string {
    if c == '&' && done < 3 then "&amp;"
    else if c == '<' && done < 1 then "&lt;"
    else if c == '>' && done < 2 then "&gt;"
    else [c]
  }

  function Escaped(s: string, done: nat): string {
    if s == "" then "" else Entity(s[0], done) + Escaped(s[1..], done)
  }

  /** A pattern of one character is replaced character by character. */
  lemma ReplaceCharStep(x: char, rest: string, c: char, replacement: string)
    ensures ReplaceAll([x] + rest, [c], replacement)
         == (if x == c then replacement else [x]) + ReplaceAll(rest, [c], replacement)
  {
    var s := [x] + rest;
    assert s[..1] == [x] && s[1..] == rest;
  }

  lemma {:induction false} ReplaceCharConcat(a: string, b: string, c: char, replacement: string)
    ensures ReplaceAll(a + b, [c], replacement) == ReplaceAll(a, [c], replacement) + ReplaceAll(b, [c], replacement)
    decreases |a|
  {
    if a == "" {
      assert a + b == b;
    } else {
      var x, more := a[0], a[1..];
      assert a == [x] + more;
      assert a + b == [x] + (more + b);
      ReplaceCharStep(x, more, c, replacement);
      ReplaceCharStep(x, more + b, c, replacement);
      ReplaceCharConcat(more, b, c, replacement);
      var first := if x == c then replacement else [x];
      Reassociate(first, ReplaceAll(more, [c], replacement), ReplaceAll(b, [c], replacement));
      hide ReplaceAll;
    }
  }

  lemma ReplaceCharOne(x: char, c: char, replacement: string)
    ensures ReplaceAll([x], [c], replacement) == if x == c then replacement else [x]
  {
    ReplaceCharStep(x, "", c, replacement);
    assert [x] + "" == [x];
  }

  lemma {:induction false} ReplaceCharAbsent(s: string, c: char, replacement: string)
    requires c !in s
    ensures ReplaceAll(s, [c], replacement) == s
    decreases |s|
  {
    if s != "" {
      ReplaceCharAbsent(s[1..], c, replacement);
      assert s == [s[0]] + s[1..] && s[..1] == [s[0]];
    }
  }

  /** The three passes of escaping act on every character by itself. */
  lemma {:induction false} EscapeIsPerCharacter(value: string)
    ensures EscapeXmlText(value) == Escaped(value, 0)
    decreases |value|
  {
    if value != "" {
      var c, rest := value[0], value[1..];
      assert value == [c] + rest;
      EscapeIsPerCharacter(rest);
      hide ReplaceAll;
      ReplaceCharConcat([c], rest, '&', "&amp;");
      ReplaceCharOne(c, '&', "&amp;");
      var first := if c == '&' then "&amp;" else [c];
      var more := ReplaceAll(rest, "&", "&amp;");
      ReplaceCharConcat(first, more, '<', "&lt;");
      if c == '&' {
        ReplaceCharAbsent("&amp;", '<', "&lt;");
        ReplaceCharAbsent("&amp;", '>', "&gt;");
      } else {
        ReplaceCharOne(c, '<', "&lt;");
        ReplaceCharOne(c, '>', "&gt;");
        ReplaceCharAbsent("&lt;", '>', "&gt;");
      }
      var second := if c == '<' then "&lt;" else first;
      ReplaceCharConcat(second, ReplaceAll(more, "<", "&lt;"), '>', "&gt;");
    }
  }

  /** Where the pattern does not start, a character is passed over. */
  lemma PassOne(c: char, rest: string, pattern: string, replacement: string)
    requires pattern != "" && !(pattern <= [c] + rest)
    ensures ReplaceAll([c] + rest, pattern, replacement) == [c] + ReplaceAll(rest, pattern, replacement)
  {
    var s := [c] + rest;
    assert s[0] == c && s[1..] == rest;
  }

  /** A pattern starting with an ampersand passes over text without one. */
  lemma {:induction false} PassOver(plain: string, rest: string, pattern: string, replacement: string)
    requires pattern != "" && pattern[0] == '&' && '&' !in plain
    ensures ReplaceAll(plain + rest, pattern, replacement) == plain + ReplaceAll(rest, pattern, replacement)
    decreases |plain|
  {
    hide ReplaceAll;
    if plain == "" {
      assert plain + rest == rest;
    } else {
      var c, more := plain[0], plain[1..];
      assert plain == [c] + more;
      assert plain + rest == [c] + (more + rest);
      PassOne(c, more + rest, pattern, replacement);
      PassOver(more, rest, pattern, replacement);
      Reassociate([c], more, ReplaceAll(rest, pattern, replacement));
    }
  }

  lemma Reassociate(a: string, b: string, c: string)
    ensures a + (b + c) == (a + b) + c
  {
  }

  /** An entity other than the pattern is passed over whole. */
  lemma PassOverEntity(entity: string, rest: string, pattern: string, replacement: string)
    requires |entity| > 1 && entity[0] == '&' && '&' !in entity[1..]
    requires |pattern| > 1 && pattern[0] == '&' && entity[1] != pattern[1]
    ensures ReplaceAll(entity + rest, pattern, replacement) == entity + ReplaceAll(rest, pattern, replacement)
  {
    hide ReplaceAll;
    var more := entity[1..];
    assert entity == ['&'] + more;
    assert entity + rest == ['&'] + (more + rest);
    assert (entity + rest)[1] == entity[1];
    PassOne('&', more + rest, pattern, replacement);
    PassOver(more, rest, pattern, replacement);
    Reassociate(['&'], more, ReplaceAll(rest, pattern, replacement));
  }

  lemma ReplaceFront(pattern: string, rest: string, replacement: string)
    requires pattern != ""
    ensures ReplaceAll(pattern + rest, pattern, replacement) == replacement + ReplaceAll(rest, pattern, replacement)
  {
    assert (pattern + rest)[..|pattern|] == pattern && (pattern + rest)[|pattern|..] == rest;
  }

  function PassPattern(pass: nat): string {
    if pass == 0 then "&lt;" else if pass == 1 then "&gt;" else "&amp;"
  }

  function PassChar(pass: nat): char {
    if pass == 0 then '<' else if pass == 1 then '>' else '&'
  }

  /** A pass restores its own entity and passes over what stands for any other character. */
  lemma EntityPass(c: char, rest: string, pass: nat)
    requires pass < 3
    ensures ReplaceAll(Entity(c, pass) + rest, PassPattern(pass), [PassChar(pass)])
         == Entity(c, pass + 1) + ReplaceAll(rest, PassPattern(pass), [PassChar(pass)])
  {
    hide ReplaceAll;
    if c == PassChar(pass) {
      ReplaceFront(PassPattern(pass), rest, [c]);
    } else if |Entity(c, pass)| > 1 {
      PassOverEntity(Entity(c, pass), rest, PassPattern(pass), [PassChar(pass)]);
    } else {
      PassOver([c], rest, PassPattern(pass), [PassChar(pass)]);
    }
  }

  /** Each pass of unescaping restores exactly its own entity. */
  lemma {:induction false} UnescapePass(s: string, pass: nat)
    requires pass < 3
    ensures ReplaceAll(Escaped(s, pass), PassPattern(pass), [PassChar(pass)]) == Escaped(s, pass + 1)
    decreases |s|
  {
    if s != "" {
      UnescapePass(s[1..], pass);
      EntityPass(s[0], Escaped(s[1..], pass), pass);
      hide ReplaceAll, Entity, PassPattern, PassChar;
    }
  }

  lemma {:induction false} ThreePassesRestoreAll(s: string)
    ensures Escaped(s, 3) == s
    decreases |s|
  {
    if s != "" {
      ThreePassesRestoreAll(s[1..]);
      assert s == [s[0]] + s[1..];
    }
  }

  /** Unescaping restores every escaped text. */
  lemma UnescapeEscape(s: string)
    ensures UnescapeXmlText(EscapeXmlText(s)) == s
  {
    EscapeIsPerCharacter(s);
    UnescapePass(s, 0);
    UnescapePass(s, 1);
    UnescapePass(s, 2);
    ThreePassesRestoreAll(s);
  }

  lemma {:induction false} EscapedHasNoAngles(s: string)
    ensures '<' !in EscapeXmlText(s) && '>' !in EscapeXmlText(s)
    decreases |s|
  {
    EscapeIsPerCharacter(s);
    if s != "" {
      EscapeIsPerCharacter(s[1..]);
      EscapedHasNoAngles(s[1..]);
    }
  }

  /** What each character becomes in escaped text. */
  lemma EscapeSpelledOut(c: char, rest: string)
    ensures EscapeXmlText("") == ""
    ensures EscapeXmlText([c] + rest) ==
            (if c == '&' then "&amp;" else if c == '<' then "&lt;" else if c == '>' then "&gt;" else [c])
            + EscapeXmlText(rest)
  {
    EscapeIsPerCharacter("");
    EscapeIsPerCharacter(rest);
    EscapeIsPerCharacter([c] + rest);
  }

  predicate OccursAt(s: string, part: string, i: nat) {
    i + |part| <= |s| && s[i..i + |part|] == part
  }

  /** Text in which a pattern does not occur is left as it is. */
  lemma {:induction false} ReplaceAbsent(s: string, pattern: string, replacement: string)
    requires pattern != "" && forall i: nat :: !OccursAt(s, pattern, i)
    ensures ReplaceAll(s, pattern, replacement) == s
    decreases |s|
  {
    if |s| >= |pattern| {
      var c, rest := s[0], s[1..];
      assert s == [c] + rest;
      assert !OccursAt(s, pattern, 0);
      forall i: nat ensures !OccursAt(rest, pattern, i) {
        OccursBehind(c, rest, pattern, i);
        assert !OccursAt(s, pattern, i + 1);
      }
      ReplaceAbsent(rest, pattern, replacement);
      PassOne(c, rest, pattern, replacement);
    }
  }

  lemma OccursBehind(c: char, rest: string, pattern: string, i: nat)
    ensures OccursAt(rest, pattern, i) ==> OccursAt([c] + rest, pattern, i + 1)
  {
    if OccursAt(rest, pattern, i) {
      assert ([c] + rest)[i + 1..i + 1 + |pattern|] == rest[i..i + |pattern|];
    }
  }

  /** Text without one of the three entities is unescaped to itself. */
  lemma UnescapeLeavesOtherText(s: string)
    requires forall i: nat :: !OccursAt(s, "&lt;", i) && !OccursAt(s, "&gt;", i) && !OccursAt(s, "&amp;", i)
    ensures UnescapeXmlText(s) == s
  {
    hide ReplaceAll, OccursAt;
    ReplaceAbsent(s, "&lt;", "<");
    ReplaceAbsent(s, "&gt;", ">");
    ReplaceAbsent(s, "&amp;", "&");
  }

  /** White space and line terminators as String.prototype.trim removes them. */
  predicate IsSpace(c: char) {
    || '\U{0009}' <= c <= '\U{000D}' || c == ' ' || c == '\U{00A0}' || c == '\U{1680}'
    || '\U{2000}' <= c <= '\U{200A}' || c == '\U{2028}' || c == '\U{2029}' || c == '\U{202F}'
    || c == '\U{205F}' || c == '\U{3000}' || c == '\U{FEFF}'
  }

  function TrimStart(s: string): string {
    if s != "" && IsSpace(s[0]) then TrimStart(s[1..]) else s
  }

  function TrimEnd(s: string): string {
    if s != "" && IsSpace(s[|s| - 1]) then TrimEnd(s[..|s| - 1]) else s
  }

  function Trim(s: string): string {
    TrimEnd(TrimStart(s))
  }

  /** The white space of the language, as `trim` removes it. */
  ghost predicate WhiteSpace(c: char) {
    || c in {'\t', '\n', '\U{000B}', '\U{000C}', '\r', ' ', '\U{00A0}', '\U{1680}', '\U{2028}', '\U{2029}'}
    || '\U{2000}' <= c <= '\U{200A}' || c in {'\U{202F}', '\U{205F}', '\U{3000}', '\U{FEFF}'}
  }

  lemma {:induction false} TrimStartCuts(s: string) returns (front: string)
    ensures s == front + TrimStart(s) && forall c :: c in front ==> WhiteSpace(c)
    ensures TrimStart(s) != "" ==> !WhiteSpace(TrimStart(s)[0])
  {
    front := "";
    if s != "" && IsSpace(s[0]) {
      var rest := TrimStartCuts(s[1..]);
      front := [s[0]] + rest;
    }
  }

  lemma {:induction false} TrimEndCuts(s: string) returns (behind: string)
    ensures s == TrimEnd(s) + behind && forall c :: c in behind ==> WhiteSpace(c)
    ensures TrimEnd(s) != "" ==> !WhiteSpace(TrimEnd(s)[|TrimEnd(s)| - 1])
  {
    behind := "";
    if s != "" && IsSpace(s[|s| - 1]) {
      var rest := TrimEndCuts(s[..|s| - 1]);
      behind := rest + [s[|s| - 1]];
    }
  }

  /** A trimmed text is the text without white space in front and behind, and has none at its ends. */
  lemma TrimExactly(s: string) returns (front: string, behind: string)
    ensures s == front + Trim(s) + behind
    ensures (forall c :: c in front ==> WhiteSpace(c)) && (forall c :: c in behind ==> WhiteSpace(c))
    ensures Trim(s) != "" ==> !WhiteSpace(Trim(s)[0]) && !WhiteSpace(Trim(s)[|Trim(s)| - 1])
  {
    hide TrimStart, TrimEnd, WhiteSpace;
    var started := TrimStart(s);
    front := TrimStartCuts(s);
    behind := TrimEndCuts(started);
    Reassociate(front, Trim(s), behind);
  }

  predicate IsNameStart(c: char) {
    'A' <= c <= 'Z' || 'a' <= c <= 'z' || c == '_'
  }

  /** The name pattern of assertXmlName. */
  predicate IsXmlName(s: string) {
    && s != "" && IsNameStart(s[0])
    && forall i :: 0 < i < |s| ==> IsNameStart(s[i]) || '0' <= s[i] <= '9' || s[i] in {'.', '-'}
  }

  function Opening(tag: string): string {
    "<" + tag + ">\n"
  }

  function Closing(tag: string): string {
    "\n</" + tag + ">"
  }

  datatype Rendering = InvalidName | Rendered(text: string)
  datatype Unwrapping = BadName | Absent | Text(text: string)

  function RenderTaggedText(tag: string, value: string): Rendering {
    if !IsXmlName(tag) then InvalidName
    else Rendered(Opening(tag) + EscapeXmlText(Trim(value)) + Closing(tag))
  }

  function UnwrapTaggedText(tag: string, value: string): Unwrapping {
    if !IsXmlName(tag) then BadName else
      var trimmed, opening, closing := Trim(value), Opening(tag), Closing(tag);
      if !(opening <= trimmed) || |trimmed| < |closing| || trimmed[|trimmed| - |closing|..] != closing then Absent
      else if |trimmed| < |opening| + |closing| then Text(UnescapeXmlText(""))
      else Text(UnescapeXmlText(trimmed[|opening|..|trimmed| - |closing|]))
  }

  lemma NothingToTrim(s: string)
    requires s != "" && !IsSpace(s[0]) && !IsSpace(s[|s| - 1])
    ensures Trim(s) == s
  {
  }

  /** Unwrapping a rendered block returns the trimmed text, for every text and every valid tag. */
  lemma UnwrapRender(tag: string, value: string)
    requires IsXmlName(tag)
    ensures UnwrapTaggedText(tag, RenderTaggedText(tag, value).text) == Text(Trim(value))
  {
    hide EscapeXmlText, UnescapeXmlText;
    var body := EscapeXmlText(Trim(value));
    var rendered := Opening(tag) + body + Closing(tag);
    assert rendered[0] == '<' && rendered[|rendered| - 1] == '>';
    NothingToTrim(rendered);
    hide Trim;
    assert rendered[..|Opening(tag)|] == Opening(tag);
    assert rendered[|rendered| - |Closing(tag)|..] == Closing(tag);
    assert rendered[|Opening(tag)|..|rendered| - |Closing(tag)|] == body;
    UnescapeEscape(Trim(value));
  }

  /** An opening tag: the only `<` is its first character, and a name follows it. */
  ghost predicate IsHead(head: string) {
    |head| > 1 && head[0] == '<' && head[1] != '/' && '<' !in head[1..]
  }

  /** The closing tag occurs in a block exactly once, at its end, whatever the body says. */
  lemma ClosingTagOnlyAtEnd(head: string, tag: string, body: string, i: nat)
    requires IsHead(head) && IsXmlName(tag) && '<' !in body
    ensures OccursAt(head + body + Closing(tag), "</" + tag + ">", i) <==> i == |head| + |body| + 1
  {
    var s, end := head + body + Closing(tag), |head| + |body| + 1;
    assert Closing(tag) == "\n" + ("</" + tag + ">");
    assert s[end..] == "</" + tag + ">";
    if OccursAt(s, "</" + tag + ">", i) {
      assert s[i] == s[i..i + |tag| + 3][0] == '<';
      assert s[i + 1] == s[i..i + |tag| + 3][1] == '/';
      AnglesOfBlock(head, tag, body, i);
      assert s[1] == head[1];
    }
  }

  lemma AnglesOfBlock(head: string, tag: string, body: string, i: nat)
    requires IsHead(head) && IsXmlName(tag) && '<' !in body
    requires i < |head + body + Closing(tag)|
    ensures (head + body + Closing(tag))[i] == '<' <==> i == 0 || i == |head| + |body| + 1
  {
    var s, n := head + body + Closing(tag), |head|;
    if i < n {
      assert s[i] == head[i];
      assert 0 < i ==> s[i] == head[1..][i - 1];
    } else if i < n + |body| {
      assert s[i] == body[i - n];
    } else {
      assert s[i] == Closing(tag)[i - n - |body|];
      assert 3 <= i - n - |body| < |tag| + 3 ==> s[i] == tag[i - n - |body| - 3];
    }
  }

  lemma OpeningIsHead(tag: string)
    requires IsXmlName(tag)
    ensures IsHead(Opening(tag))
  {
    assert Opening(tag)[1..] == tag + ">\n" && Opening(tag)[1] == tag[0];
    assert forall k :: 0 < k < |tag| ==> tag[k] != '<';
  }

  /** No text can end the block it is wrapped in. */
  lemma TextCannotCloseBlock(tag: string, value: string, i: nat)
    requires IsXmlName(tag)
    ensures OccursAt(RenderTaggedText(tag, value).text, "</" + tag + ">", i) <==>
            i == |Opening(tag)| + |EscapeXmlText(Trim(value))| + 1
  {
    EscapedHasNoAngles(Trim(value));
    OpeningIsHead(tag);
    ClosingTagOnlyAtEnd(Opening(tag), tag, EscapeXmlText(Trim(value)), i);
  }

  // The JSON body.

  /** The three passes over a serialized JSON text. */
  function Neutralized(json: string): string {
    ReplaceAll(ReplaceAll(ReplaceAll(json, "&", "\\u0026"), "<", "\\u003c"), ">", "\\u003e")
  }

  function NeutralChar(c: char): string {
    if c == '&' then "\\u0026" else if c == '<' then "\\u003c" else if c == '>' then "\\u003e" else [c]
  }

  function NeutralChars(s: string): string {
    if s == "" then "" else NeutralChar(s[0]) + NeutralChars(s[1..])
  }

  lemma {:induction false} NeutralizedIsPerCharacter(s: string)
    ensures Neutralized(s) == NeutralChars(s)
    decreases |s|
  {
    if s != "" {
      var c, rest := s[0], s[1..];
      assert s == [c] + rest;
      NeutralizedIsPerCharacter(rest);
      hide ReplaceAll;
      ReplaceCharConcat([c], rest, '&', "\\u0026");
      ReplaceCharOne(c, '&', "\\u0026");
      var first := if c == '&' then "\\u0026" else [c];
      var more := ReplaceAll(rest, "&", "\\u0026");
      ReplaceCharConcat(first, more, '<', "\\u003c");
      if c == '&' {
        ReplaceCharAbsent(first, '<', "\\u003c");
        ReplaceCharAbsent(first, '>', "\\u003e");
      } else {
        ReplaceCharOne(c, '<', "\\u003c");
        ReplaceCharOne(c, '>', "\\u003e");
        ReplaceCharAbsent("\\u003c", '>', "\\u003e");
      }
      ReplaceCharConcat(if c == '<' then "\\u003c" else first, ReplaceAll(more, "<", "\\u003c"), '>', "\\u003e");
    }
  }

  /** What a JSON text consists of: characters outside strings, and strings by their code values. */
  datatype Token = Raw(c: char) | Begin | Unit(code: nat) | End

  function HexDigit(c: char): Option<nat> {
    if '0' <= c <= '9' then Some((c - '0') as nat)
    else if 'a' <= c <= 'f' then Some((c - 'a') as nat + 10)
    else if 'A' <= c <= 'F' then Some((c - 'A') as nat + 10)
    else None
  }

  function HexValue(s: string): Option<nat>
    requires |s| == 4
  {
    var a, b, c, d := HexDigit(s[0]), HexDigit(s[1]), HexDigit(s[2]), HexDigit(s[3]);
    if a.None? || b.None? || c.None? || d.None? then None
    else Some(4096 * a.value + 256 * b.value + 16 * c.value + d.value)
  }

  /** The two-character escapes of section 7 of RFC 8259. */
  function SimpleEscape(c: char): Option<nat> {
    match c
    case '\"' => Some(0x22)
    case '\\' => Some(0x5C)
    case '/' => Some(0x2F)
    case 'b' => Some(8)
    case 'f' => Some(12)
    case 'n' => Some(10)
    case 'r' => Some(13)
    case 't' => Some(9)
    case _ => None
  }

  function Cons(token: Token, rest: Option<seq<Token>>): Option<seq<Token>> {
    if rest.None? then None else Some([token] + rest.value)
  }

  /** The tokens of a JSON text, by the string grammar of section 7 of RFC 8259; None if a string is
      unterminated or holds an escape or control character the grammar does not allow. */
  function Tokens(s: string, inString: bool): Option<seq<Token>>
    decreases |s|
  {
    if s == "" then if inString then None else Some([])
    else if !inString then
      if s[0] == '\"' then Cons(Begin, Tokens(s[1..], true)) else Cons(Raw(s[0]), Tokens(s[1..], false))
    else if s[0] == '\"' then Cons(End, Tokens(s[1..], false))
    else if s[0] == '\\' then
      if |s| >= 2 && SimpleEscape(s[1]).Some? then Cons(Unit(SimpleEscape(s[1]).value), Tokens(s[2..], true))
      else if |s| >= 6 && s[1] == 'u' && HexValue(s[2..6]).Some? then
          Cons(Unit(HexValue(s[2..6]).value), Tokens(s[6..], true))
      else None
    else if s[0] < ' ' then None
    else Cons(Unit(s[0] as nat), Tokens(s[1..], true))
  }

  predicate IsMarkup(c: char) {
    c in {'&', '<', '>'}
  }

  /** JSON has no such character outside its strings. */
  ghost predicate NoRawMarkup(tokens: seq<Token>) {
    forall i :: 0 <= i < |tokens| && tokens[i].Raw? ==> !IsMarkup(tokens[i].c)
  }

  lemma NeutralFirst(s: string)
    requires s != ""
    ensures NeutralChars(s) == NeutralChar(s[0]) + NeutralChars(s[1..])
    ensures !IsMarkup(s[0]) ==>
        |NeutralChars(s)| > 0 && NeutralChars(s)[0] == s[0] && NeutralChars(s)[1..] == NeutralChars(s[1..])
  {
  }

  lemma {:induction false} NeutralSkip(s: string, n: nat)
    requires n <= |s| && forall i :: 0 <= i < n ==> !IsMarkup(s[i])
    ensures |NeutralChars(s)| >= n && NeutralChars(s)[..n] == s[..n] && NeutralChars(s)[n..] == NeutralChars(s[n..])
    decreases n
  {
    if n > 0 {
      NeutralSkip(s[1..], n - 1);
      NeutralFirst(s);
      var t := NeutralChars(s);
      assert t == [s[0]] + t[1..];
      assert s[1..][n - 1..] == s[n..] && t[1..][n - 1..] == t[n..];
      assert t[..n] == [s[0]] + t[1..][..n - 1] && s[..n] == [s[0]] + s[1..][..n - 1];
    } else {
      assert s[0..] == s;
    }
  }

  /** A neutralized markup character inside a string reads as its own code. */
  lemma MarkupReadsBack(c: char, rest: string)
    requires IsMarkup(c)
    ensures Tokens(NeutralChar(c) + rest, true) == Cons(Unit(c as nat), Tokens(rest, true))
  {
    var s := NeutralChar(c) + rest;
    assert s[2..6] == NeutralChar(c)[2..6] && s[6..] == rest;
    assert s[0] == '\\' && s[1] == 'u' && SimpleEscape('u').None?;
    assert NeutralChar(c)[2..6] == if c == '&' then "0026" else if c == '<' then "003c" else "003e";
  }

  /** Neutralizing a JSON text changes none of its tokens, hence not the value they spell. */
  lemma {:induction false} NeutralizedTokens(s: string, inString: bool)
    requires Tokens(s, inString).Some? && NoRawMarkup(Tokens(s, inString).value)
    ensures Tokens(NeutralChars(s), inString) == Tokens(s, inString)
    decreases |s|
  {
    if s == "" {
    } else if inString && IsMarkup(s[0]) {
      ConsTail(Unit(s[0] as nat), Tokens(s[1..], true));
      NeutralizedTokens(s[1..], true);
      NeutralFirst(s);
      MarkupReadsBack(s[0], NeutralChars(s[1..]));
    } else if inString && s[0] == '\\' {
      if SimpleEscape(s[1]).Some? {
        SimpleEscapeStays(s);
        ConsTail(Unit(SimpleEscape(s[1]).value), Tokens(s[2..], true));
        NeutralizedTokens(s[2..], true);
      } else {
        HexEscapeStays(s);
        ConsTail(Unit(HexValue(s[2..6]).value), Tokens(s[6..], true));
        NeutralizedTokens(s[6..], true);
      }
    } else {
      var next := if s[0] == '\"' then !inString else inString;
      ConsTail(Tokens(s, inString).value[0], Tokens(s[1..], next));
      NeutralizedTokens(s[1..], next);
      NeutralFirst(s);
    }
  }

  /** An escape sequence is left alone: it holds no markup. */
  lemma SimpleEscapeStays(s: string)
    requires |s| >= 2 && s[0] == '\\' && SimpleEscape(s[1]).Some?
    ensures Tokens(NeutralChars(s), true) == Cons(Unit(SimpleEscape(s[1]).value), Tokens(NeutralChars(s[2..]), true))
  {
    NeutralSkip(s, 2);
    var t := NeutralChars(s);
    hide NeutralChars, Tokens;
    assert t[0] == t[..2][0] == s[..2][0] && t[1] == t[..2][1] == s[..2][1];
    ReadSimpleEscape(t);
  }

  lemma HexEscapeIsPlain(s: string)
    requires |s| >= 6 && s[0] == '\\' && s[1] == 'u' && HexValue(s[2..6]).Some?
    ensures forall i :: 0 <= i < 6 ==> !IsMarkup(s[i])
  {
    HexHasNoMarkup(s[2..6]);
    hide HexValue;
    forall i | 0 <= i < 6 ensures !IsMarkup(s[i]) {
      if i >= 2 {
        assert s[i] == s[2..6][i - 2];
      }
    }
  }

  lemma HexEscapeStays(s: string)
    requires |s| >= 6 && s[0] == '\\' && s[1] == 'u' && HexValue(s[2..6]).Some?
    ensures Tokens(NeutralChars(s), true) == Cons(Unit(HexValue(s[2..6]).value), Tokens(NeutralChars(s[6..]), true))
  {
    hide NeutralChars, Tokens, HexValue, IsMarkup;
    HexEscapeIsPlain(s);
    NeutralSkip(s, 6);
    var t := NeutralChars(s);
    assert t[0] == t[..6][0] == s[..6][0] && t[1] == t[..6][1] == s[..6][1];
    assert t[2..6] == t[..6][2..6] == s[..6][2..6] == s[2..6];
    ReadHexEscape(t);
  }

  lemma ReadSimpleEscape(s: string)
    requires |s| >= 2 && s[0] == '\\' && SimpleEscape(s[1]).Some?
    ensures Tokens(s, true) == Cons(Unit(SimpleEscape(s[1]).value), Tokens(s[2..], true))
  {
  }

  lemma ReadHexEscape(s: string)
    requires |s| >= 6 && s[0] == '\\' && s[1] == 'u' && HexValue(s[2..6]).Some?
    ensures Tokens(s, true) == Cons(Unit(HexValue(s[2..6]).value), Tokens(s[6..], true))
  {
  }

  lemma ConsTail(t: Token, tail: Option<seq<Token>>)
    requires Cons(t, tail).Some? && NoRawMarkup(Cons(t, tail).value)
    ensures tail.Some? && NoRawMarkup(tail.value)
    ensures t.Raw? ==> !IsMarkup(t.c)
  {
    var whole := Cons(t, tail).value;
    assert whole[0] == t;
    assert forall i :: 0 <= i < |tail.value| ==> tail.value[i] == whole[i + 1];
  }

  lemma HexHasNoMarkup(s: string)
    requires |s| == 4 && HexValue(s).Some?
    ensures forall i :: 0 <= i < 4 ==> !IsMarkup(s[i])
  {
  }

  lemma {:induction false} NeutralHasNoMarkup(s: string)
    ensures forall c :: c in NeutralChars(s) ==> !IsMarkup(c)
    decreases |s|
  {
    if s != "" {
      NeutralHasNoMarkup(s[1..]);
    }
  }

  /** The substitution keeps what every valid JSON text says and leaves no character of markup in it. */
  lemma NeutralizedKeepsJson(json: string)
    requires Tokens(json, false).Some? && NoRawMarkup(Tokens(json, false).value)
    ensures Tokens(Neutralized(json), false) == Tokens(json, false)
    ensures forall c :: c in Neutralized(json) ==> !IsMarkup(c)
  {
    NeutralizedIsPerCharacter(json);
    NeutralizedTokens(json, false);
    NeutralHasNoMarkup(json);
  }

  lemma {:induction false} ReplaceCharKeepsOut(s: string, c: char, replacement: string, x: char)
    requires x !in s && x !in replacement
    ensures x !in ReplaceAll(s, [c], replacement)
    decreases |s|
  {
    if s != "" {
      ReplaceCharKeepsOut(s[1..], c, replacement, x);
    }
  }

  lemma {:induction false} ReplaceCharRemoves(s: string, c: char, replacement: string)
    requires c !in replacement
    ensures c !in ReplaceAll(s, [c], replacement)
    decreases |s|
  {
    if s != "" {
      ReplaceCharRemoves(s[1..], c, replacement);
      assert s[..1] == [s[0]];
    }
  }

  /** An escaped attribute value holds neither the quote that would end it nor an angle bracket. */
  lemma AttributeIsContained(value: string)
    ensures '\"' !in EscapeXmlAttribute(value) && '<' !in EscapeXmlAttribute(value) && '>' !in EscapeXmlAttribute(value)
  {
    EscapedHasNoAngles(value);
    ReplaceCharRemoves(EscapeXmlText(value), '\"', "&quot;");
    ReplaceCharKeepsOut(EscapeXmlText(value), '\"', "&quot;", '<');
    ReplaceCharKeepsOut(EscapeXmlText(value), '\"', "&quot;", '>');
  }

  function RenderedAttributes(attributes: seq<(string, string)>): string {
    if attributes == [] then "" else
      " " + attributes[0].0 + "=\"" + EscapeXmlAttribute(attributes[0].1) + "\"" + RenderedAttributes(attributes[1..])
  }

  predicate ValidNames(attributes: seq<(string, string)>) {
    forall i :: 0 <= i < |attributes| ==> IsXmlName(attributes[i].0)
  }

  /** renderTaggedJson on the serialized value. */
  function RenderTaggedJson(tag: string, json: string, attributes: seq<(string, string)>): Rendering {
    if !IsXmlName(tag) || !ValidNames(attributes) then InvalidName
    else Rendered("<" + tag + RenderedAttributes(attributes) + ">\n" + Neutralized(json) + Closing(tag))
  }

  lemma {:induction false} AttributesHaveNoAngles(attributes: seq<(string, string)>)
    requires ValidNames(attributes)
    ensures '<' !in RenderedAttributes(attributes)
    decreases |attributes|
  {
    if attributes != [] {
      AttributeIsContained(attributes[0].1);
      AttributesHaveNoAngles(attributes[1..]);
      assert IsXmlName(attributes[0].0);
      assert forall k :: 0 < k < |attributes[0].0| ==> attributes[0].0[k] != '<';
    }
  }

  lemma JsonOpeningIsHead(tag: string, attributes: seq<(string, string)>)
    requires IsXmlName(tag) && ValidNames(attributes)
    ensures IsHead("<" + tag + RenderedAttributes(attributes) + ">\n")
  {
    AttributesHaveNoAngles(attributes);
    var head := "<" + tag + RenderedAttributes(attributes) + ">\n";
    assert head[1..] == tag + RenderedAttributes(attributes) + ">\n" && head[1] == tag[0];
    assert forall k :: 0 < k < |tag| ==> tag[k] != '<';
  }

  /** No JSON value and no attribute can end the block they are rendered in. */
  lemma JsonCannotCloseBlock(tag: string, json: string, attributes: seq<(string, string)>, i: nat)
    requires IsXmlName(tag) && ValidNames(attributes)
    ensures OccursAt(RenderTaggedJson(tag, json, attributes).text, "</" + tag + ">", i) <==>
            i == |tag| + |RenderedAttributes(attributes)| + |Neutralized(json)| + 4
  {
    var head := "<" + tag + RenderedAttributes(attributes) + ">\n";
    JsonOpeningIsHead(tag, attributes);
    NeutralizedIsPerCharacter(json);
    NeutralHasNoMarkup(json);
    assert IsMarkup('<');
    ClosingTagOnlyAtEnd(head, tag, Neutralized(json), i);
    assert |head| == |tag| + |RenderedAttributes(attributes)| + 3;
    hide IsHead, IsXmlName, Neutralized, RenderedAttributes, OccursAt;
  }

  // The same in the letters of the two formats.

  /** A letter or underscore, then letters, digits, underscores, dots and hyphens. */
  ghost predicate ValidName(s: string) {
    && s != "" && (s[0] == '_' || 'a' <= s[0] <= 'z' || 'A' <= s[0] <= 'Z')
    && forall i :: 0 <= i < |s| ==>
         || s[i] in {'_', '.', '-'} || 'a' <= s[i] <= 'z' || 'A' <= s[i] <= 'Z' || '0' <= s[i] <= '9'
  }

  lemma NameIsValid(s: string)
    ensures IsXmlName(s) <==> ValidName(s)
  {
  }

  /** A text block, letter by letter, and which tags it is refused for. */
  lemma RenderedTextIs(tag: string, value: string)
    ensures RenderTaggedText(tag, value) ==
            if ValidName(tag) then Rendered("<" + tag + ">\n" + EscapeXmlText(Trim(value)) + ("\n</" + tag + ">"))
            else InvalidName
  {
    NameIsValid(tag);
    hide EscapeXmlText, Trim, ValidName, IsXmlName;
  }

  /** What a block of the tag holds, of any text: its body unescaped, or nothing where its two tags share the line
      break between them; any other text holds no block. */
  lemma UnwrappedIs(tag: string, value: string, body: string)
    ensures var opening, closing := "<" + tag + ">\n", "\n</" + tag + ">";
            var trimmed := Trim(value);
            && (!ValidName(tag) <==> UnwrapTaggedText(tag, value).BadName?)
            && (ValidName(tag) && trimmed == opening + body + closing ==>
                  UnwrapTaggedText(tag, value) == Text(UnescapeXmlText(body)))
            && (ValidName(tag) && trimmed == opening + closing[1..] ==> UnwrapTaggedText(tag, value) == Text(""))
            && (UnwrapTaggedText(tag, value).Text? <==>
                  && ValidName(tag)
                  && opening <= trimmed && |closing| <= |trimmed| && trimmed[|trimmed| - |closing|..] == closing)
  {
    NameIsValid(tag);
    var opening, closing := Opening(tag), Closing(tag);
    var trimmed := Trim(value);
    hide ReplaceAll, Trim, ValidName, IsXmlName;
    assert opening == "<" + tag + ">\n" && closing == "\n</" + tag + ">";
    if trimmed == opening + body + closing {
      assert trimmed[|opening|..|trimmed| - |closing|] == body && trimmed[|trimmed| - |closing|..] == closing;
      assert trimmed[..|opening|] == opening;
    }
    if trimmed == opening + closing[1..] {
      assert trimmed == opening[..|opening| - 1] + closing;
      assert trimmed[|trimmed| - |closing|..] == closing && trimmed[..|opening|] == opening;
      NothingToUnescape();
    }
  }

  lemma NothingToUnescape()
    ensures UnescapeXmlText("") == ""
  {
  }

  /** An attribute value, letter by letter. */
  lemma AttributeSpelledOut(c: char, rest: string)
    ensures EscapeXmlAttribute("") == ""
    ensures EscapeXmlAttribute([c] + rest) ==
            (if c == '&' then "&amp;" else if c == '<' then "&lt;" else if c == '>' then "&gt;"
             else if c == '"' then "&quot;" else [c])
            + EscapeXmlAttribute(rest)
  {
    NoAttributeText();
    hide ReplaceAll, EscapeXmlText;
    EscapeSpelledOut(c, rest);
    var first := if c == '&' then "&amp;" else if c == '<' then "&lt;" else if c == '>' then "&gt;" else [c];
    ReplaceCharConcat(first, EscapeXmlText(rest), '"', "&quot;");
    if c in {'&', '<', '>'} {
      ReplaceCharAbsent(first, '"', "&quot;");
    } else {
      ReplaceCharOne(c, '"', "&quot;");
    }
  }

  /** A JSON body, letter by letter. */
  lemma NeutralizedSpelledOut(c: char, rest: string)
    ensures Neutralized("") == ""
    ensures Neutralized([c] + rest) ==
            (if c == '&' then "\\u0026" else if c == '<' then "\\u003c" else if c == '>' then "\\u003e" else [c])
            + Neutralized(rest)
  {
    NeutralizedIsPerCharacter("");
    NeutralizedIsPerCharacter(rest);
    NeutralizedIsPerCharacter([c] + rest);
    hide Neutralized;
  }

  /** A JSON block: its opening tag with all attributes, its body, its closing tag. */
  lemma RenderedJsonIs(tag: string, json: string, attributes: seq<(string, string)>)
    ensures RenderTaggedJson(tag, json, attributes) ==
            if ValidName(tag) && forall i :: 0 <= i < |attributes| ==> ValidName(attributes[i].0)
            then Rendered("<" + tag + RenderedAttributes(attributes) + ">\n" + Neutralized(json) + ("\n</" + tag + ">"))
            else InvalidName
    ensures RenderedAttributes([]) == ""
    ensures attributes != [] ==>
              RenderedAttributes(attributes) ==
                " " + attributes[0].0 + "=\"" + EscapeXmlAttribute(attributes[0].1) + "\""
                + RenderedAttributes(attributes[1..])
  {
    NameIsValid(tag);
    forall i | 0 <= i < |attributes| ensures IsXmlName(attributes[i].0) <==> ValidName(attributes[i].0) {
      NameIsValid(attributes[i].0);
    }
    hide Neutralized, EscapeXmlAttribute, ValidName, IsXmlName;
  }

  lemma NoAttributeText()
    ensures EscapeXmlAttribute("") == ""
  {
  }
}
