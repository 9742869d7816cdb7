/** Re-serializing uploaded SVG files (imageValidation.ts, validateSvg and escapeXml).

    The tokenizer is foreign code: its callbacks arrive here as a sequence of events. Only approved
    elements and attributes are printed again; the original text is never stored. */
module Svg {
  import opened Model

  const SVG_NS: string := "http://www.w3.org/2000/svg"

  datatype Attribute = Attribute(name: string, prefix: string, uri: string, value: string)
  datatype Tag = Tag(uri: string, prefix: string, local: string, attributes: seq<Attribute>)

  /** `Refused` stands for an error, a doctype, a processing instruction or a CDATA section. */
  datatype Event = OpenTag(tag: Tag) | CloseTag(local: string) | Text(value: string) | Refused

  /** How the platform reads numbers: the leading number of a text, and the number a text is, if it is a finite
      one. */
  datatype Reading = Reading(parseFloat: string -> real, number: string -> Option<real>)

  datatype Settings = Settings(
    elements: set<string>, attributes: set<string>, maxBytes: nat, maxElements: nat, maxDepth: nat,
    maxAttributeLength: nat, maxDimension: real, maxCoordinate: real, reading: Reading)

  // ---------- Escaping ----------

  function ReplaceAll(s: string, c: char, subst: string): string {
    if s == "" then "" else (if s[0] == c then subst else [s[0]]) + ReplaceAll(s[1..], c, subst)
  }

  function EscapeXml(s: string): string {
    ReplaceAll(ReplaceAll(ReplaceAll(ReplaceAll(s, '&', "&amp;"), '<', "&lt;"), '>', "&gt;"), '"', "&quot;")
  }

  function EscapeChar(c: char): (s: string)
    ensures s != "" && forall x :: x in s ==> x !in {'<', '>', '"'}
  {
    if c == '&' then "&amp;" else if c == '<' then "&lt;" else if c == '>' then "&gt;" else if c == '"' then "&quot;"
        else [c]
  }

  /** Escaping one character at a time. */
  function Escape(s: string): string {
    if s == "" then "" else EscapeChar(s[0]) + Escape(s[1..])
  }

  lemma Assoc(a: string, b: string, c: string)
    ensures (a + b) + c == a + (b + c)
  {
  }

  lemma Uncons(a: string, b: string)
    requires a != ""
    ensures (a + b)[0] == a[0] && (a + b)[1..] == a[1..] + b
  {
  }

  lemma ReplaceStep(s: string, c: char, subst: string)
    requires s != ""
    ensures ReplaceAll(s, c, subst) == (if s[0] == c then subst else [s[0]]) + ReplaceAll(s[1..], c, subst)
  {
  }

  lemma {:induction false} ReplaceAllAppend(a: string, b: string, c: char, subst: string)
    ensures ReplaceAll(a + b, c, subst) == ReplaceAll(a, c, subst) + ReplaceAll(b, c, subst)
  {
    if a == "" {
      assert a + b == b;
      assert ReplaceAll(a, c, subst) + ReplaceAll(b, c, subst) == ReplaceAll(b, c, subst);
    } else {
      hide ReplaceAll;
      ReplaceAllAppend(a[1..], b, c, subst);
      Uncons(a, b);
      ReplaceStep(a + b, c, subst);
      ReplaceStep(a, c, subst);
      Assoc(if a[0] == c then subst else [a[0]], ReplaceAll(a[1..], c, subst), ReplaceAll(b, c, subst));
    }
  }

  lemma {:induction false} ReplaceNothing(s: string, c: char, subst: string)
    requires c !in s
    ensures ReplaceAll(s, c, subst) == s
  {
    if s != "" {
      ReplaceNothing(s[1..], c, subst);
    }
  }

  lemma ReplaceChar(x: char, c: char, subst: string)
    ensures ReplaceAll([x], c, subst) == if x == c then subst else [x]
  {
  }

  lemma EscapeXmlAppend(a: string, b: string)
    ensures EscapeXml(a + b) == EscapeXml(a) + EscapeXml(b)
  {
    hide ReplaceAll;
    var a1, b1 := ReplaceAll(a, '&', "&amp;"), ReplaceAll(b, '&', "&amp;");
    var a2, b2 := ReplaceAll(a1, '<', "&lt;"), ReplaceAll(b1, '<', "&lt;");
    var a3, b3 := ReplaceAll(a2, '>', "&gt;"), ReplaceAll(b2, '>', "&gt;");
    ReplaceAllAppend(a, b, '&', "&amp;");
    ReplaceAllAppend(a1, b1, '<', "&lt;");
    ReplaceAllAppend(a2, b2, '>', "&gt;");
    ReplaceAllAppend(a3, b3, '"', "&quot;");
  }

  lemma EscapeXmlChar(c: char)
    ensures EscapeXml([c]) == EscapeChar(c)
  {
    hide ReplaceAll;
    var h1 := if c == '&' then "&amp;" else [c];
    var h2 := if c == '<' then "&lt;" else h1;
    var h3 := if c == '>' then "&gt;" else h2;
    ReplaceChar(c, '&', "&amp;");
    ReplaceChar(c, '<', "&lt;");
    ReplaceChar(c, '>', "&gt;");
    ReplaceChar(c, '"', "&quot;");
    ReplaceNothing("&amp;", '<', "&lt;");
    ReplaceNothing("&amp;", '>', "&gt;");
    ReplaceNothing("&amp;", '"', "&quot;");
    ReplaceNothing("&lt;", '>', "&gt;");
    ReplaceNothing("&lt;", '"', "&quot;");
    ReplaceNothing("&gt;", '"', "&quot;");
    assert ReplaceAll([c], '&', "&amp;") == h1;
    assert ReplaceAll(h1, '<', "&lt;") == h2;
    assert ReplaceAll(h2, '>', "&gt;") == h3;
  }

  /** The four replacements in a row escape each character on its own: `&` goes first, so no replacement
      touches what another one produced. */
  lemma {:induction false} ChainIsPerCharacter(s: string)
    ensures EscapeXml(s) == Escape(s)
  {
    if s != "" {
      hide EscapeXml;
      ChainIsPerCharacter(s[1..]);
      EscapeXmlAppend([s[0]], s[1..]);
      EscapeXmlChar(s[0]);
      assert s == [s[0]] + s[1..];
    }
  }

  /** A reader's view of escaped text. */
  function Unescape(s: string): string {
    if s == "" then ""
    else if "&amp;" <= s then "&" + Unescape(s[5..])
    else if "&lt;" <= s then "<" + Unescape(s[4..])
    else if "&gt;" <= s then ">" + Unescape(s[4..])
    else if "&quot;" <= s then "\"" + Unescape(s[6..])
    else [s[0]] + Unescape(s[1..])
  }

  lemma {:induction false} UnescapeUndoesEscape(s: string)
    ensures Unescape(Escape(s)) == s
  {
    if s != "" {
      UnescapeUndoesEscape(s[1..]);
      var e, rest := EscapeChar(s[0]), Escape(s[1..]);
      assert Escape(s) == e + rest;
      assert (e + rest)[|e|..] == rest;
      assert e <= e + rest;
      if s[0] !in {'&', '<', '>', '"'} {
        assert (e + rest)[0] == s[0] != '&';
        assert "&amp;"[0] == "&lt;"[0] == "&gt;"[0] == "&quot;"[0] == '&';
      } else {
        assert (e + rest)[1] == e[1];
        assert "&amp;"[1] == 'a' && "&lt;"[1] == 'l' && "&gt;"[1] == 'g' && "&quot;"[1] == 'q';
      }
    }
  }

  lemma {:induction false} EscapedIsInert(s: string)
    ensures forall c :: c in Escape(s) ==> c !in {'<', '>', '"'}
    ensures Escape(s) == "" <==> s == ""
  {
    if s != "" {
      EscapedIsInert(s[1..]);
    }
  }

  lemma EscapeStep(s: string)
    requires s != ""
    ensures Escape(s) == EscapeChar(s[0]) + Escape(s[1..])
  {
  }

  lemma {:induction false} EscapeAppend(a: string, b: string)
    ensures Escape(a + b) == Escape(a) + Escape(b)
  {
    if a == "" {
      assert a + b == b;
      assert Escape(a) + Escape(b) == Escape(b);
    } else {
      hide Escape, EscapeChar;
      EscapeAppend(a[1..], b);
      Uncons(a, b);
      EscapeStep(a + b);
      EscapeStep(a);
      Assoc(EscapeChar(a[0]), Escape(a[1..]), Escape(b));
    }
  }

  // ---------- Which values pass ----------

  predicate IsLetter(c: char) {
    'a' <= c <= 'z' || 'A' <= c <= 'Z'
  }

  predicate IsWord(c: char) {
    IsLetter(c) || '0' <= c <= '9' || c == '_'
  }

  /** White space as regular expressions have it. */
  predicate IsSpace(c: char) {
    c in {' ', '\t', '\n', '\r', '\U{000B}', '\U{000C}', '\U{00A0}', '\U{1680}', '\U{2028}', '\U{2029}', '\U{202F}',
        '\U{205F}', '\U{3000}', '\U{FEFF}'}
    || '\U{2000}' <= c <= '\U{200A}'
  }

  /** A name after `#`: a letter, then letters, digits, `_` and `-`. */
  predicate IsFragment(s: string) {
    s != "" && IsLetter(s[0]) && forall i :: 0 <= i < |s| ==> IsWord(s[i]) || s[i] == '-'
  }

  predicate IsReference(s: string) {
    |s| > 1 && s[0] == '#' && IsFragment(s[1..])
  }

  /** Spaces, then an opening parenthesis. */
  predicate OpensCall(s: string) {
    s != "" && (s[0] == '(' || (IsSpace(s[0]) && OpensCall(s[1..])))
  }

  predicate StartsUrl(s: string) {
    |s| > 3 && s[0] in {'u', 'U'} && s[1] in {'r', 'R'} && s[2] in {'l', 'L'} && OpensCall(s[3..])
  }

  /** Does the value call `url(` anywhere, in any case and spacing? */
  predicate MentionsUrl(s: string) {
    s != "" && (StartsUrl(s) || MentionsUrl(s[1..]))
  }

  predicate IsUrlReference(s: string) {
    |s| > 6 && s[..5] == "url(#" && s[|s| - 1] == ')' && IsFragment(s[5..|s| - 1])
  }

  predicate IsPlainValue(s: string) {
    forall i :: 0 <= i < |s| ==>
        IsWord(s[i]) || IsSpace(s[i]) || s[i] in {'.', ',', '%', '#', '+', '(', ')', ':', ';', '-'}
  }

  predicate IsDigits(s: string) {
    s != "" && forall i :: 0 <= i < |s| ==> '0' <= s[i] <= '9'
  }

  predicate IsDecimal(s: string) {
    IsDigits(s) || exists i :: 0 <= i < |s| && s[i] == '.' && IsDigits(s[..i]) && IsDigits(s[i + 1..])
  }

  /** A decimal number, with or without `px`. */
  predicate IsLength(s: string) {
    IsDecimal(s) || (|s| > 2 && s[|s| - 2..] == "px" && IsDecimal(s[..|s| - 2]))
  }

  predicate DimensionOk(settings: Settings, value: string) {
    IsLength(value) && 0.0 < settings.reading.parseFloat(value) <= settings.maxDimension
  }

  function TrimStart(s: string): string {
    if s != "" && IsSpace(s[0]) then TrimStart(s[1..]) else s
  }

  function TrimEnd(s: string): string {
    if s != "" && IsSpace(s[|s| - 1]) then TrimEnd(s[..|s| - 1]) else s
  }

  predicate IsSeparator(c: char) {
    IsSpace(c) || c == ','
  }

  function DropSeparators(s: string): (rest: string)
    ensures |rest| <= |s|
  {
    if s != "" && IsSeparator(s[0]) then DropSeparators(s[1..]) else s
  }

  /** The pieces between runs of separators, `piece` being what was read of the first. */
  function Split(s: string, piece: string): seq<string>
    decreases |s|
  {
    if s == "" then [piece]
    else if IsSeparator(s[0]) then [piece] + Split(DropSeparators(s[1..]), "")
    else Split(s[1..], piece + [s[0]])
  }

  /** Four finite numbers within bounds, width and height positive. */
  predicate ViewBoxOk(settings: Settings, value: string) {
    var pieces := Split(TrimEnd(TrimStart(value)), "");
    && |pieces| == 4
    && (forall i :: 0 <= i < 4 ==>
          && settings.reading.number(pieces[i]).Some?
          && -settings.maxCoordinate <= settings.reading.number(pieces[i]).value <= settings.maxCoordinate)
    && settings.reading.number(pieces[2]).value > 0.0 && settings.reading.number(pieces[3]).value > 0.0
  }

  predicate IsXmlns(a: Attribute) {
    a.name == "xmlns" && a.value == SVG_NS
  }

  /** What the value of an approved attribute has to be. */
  predicate ValueOk(settings: Settings, name: string, value: string) {
    && |value| <= settings.maxAttributeLength
    && (if name == "href" then IsReference(value)
        else if MentionsUrl(value) then IsUrlReference(value)
        else IsPlainValue(value))
    && (name in {"width", "height"} ==> DimensionOk(settings, value))
    && (name == "viewBox" ==> ViewBoxOk(settings, value))
  }

  predicate AttributeOk(settings: Settings, a: Attribute) {
    || IsXmlns(a)
    || (a.prefix == "" && a.uri == "" && a.name in settings.attributes && ValueOk(settings, a.name, a.value))
  }

  predicate TagOk(settings: Settings, tag: Tag) {
    && tag.uri == SVG_NS && tag.prefix == "" && tag.local in settings.elements
    && forall i :: 0 <= i < |tag.attributes| ==> AttributeOk(settings, tag.attributes[i])
  }

  // ---------- Which streams pass ----------

  function Opens(events: seq<Event>): nat {
    if events == [] then 0
    else Opens(events[..|events| - 1]) + if events[|events| - 1].OpenTag? then 1 else 0
  }

  function Depth(events: seq<Event>): int {
    if events == [] then 0
    else Depth(events[..|events| - 1]) +
         (if events[|events| - 1].OpenTag? then 1 else if events[|events| - 1].CloseTag? then -1 else 0)
  }

  /** The event at `i` is one the handlers let through, given what came before. */
  predicate EventOk(settings: Settings, events: seq<Event>, i: nat)
    requires i < |events|
  {
    match events[i]
    case OpenTag(tag) =>
      && Opens(events[..i]) < settings.maxElements && Depth(events[..i]) < settings.maxDepth
      && TagOk(settings, tag) && (tag.local == "svg" <==> Opens(events[..i]) == 0)
    case Refused => false
    case _ => true
  }

  /** An accepted stream: every event approved, one svg root that comes first, everything closed. */
  predicate Accepted(settings: Settings, events: seq<Event>) {
    && (forall i :: 0 <= i < |events| ==> EventOk(settings, events, i))
    && Opens(events) > 0 && Depth(events) == 0
  }

  // ---------- What is printed ----------

  /** A tag or a run of text, as a reader sees it. */
  datatype Token = Open(name: string, attrs: seq<(string, string)>) | Close(name: string) | Chars(text: string)

  function TokenOf(e: Event): Token
    requires !e.Refused?
  {
    match e
    case OpenTag(tag) => Open(tag.local, seq(|tag.attributes|, i requires 0 <= i < |tag.attributes| =>
                                               (tag.attributes[i].name, tag.attributes[i].value)))
    case CloseTag(local) => Close(local)
    case Text(value) => Chars(value)
  }

  function TokensOf(events: seq<Event>): (tokens: seq<Token>)
    requires forall i :: 0 <= i < |events| ==> !events[i].Refused?
    ensures |tokens| == |events| && forall i :: 0 <= i < |events| ==> tokens[i] == TokenOf(events[i])
  {
    seq(|events|, i requires 0 <= i < |events| => TokenOf(events[i]))
  }

  function PrintAttrs(attrs: seq<(string, string)>): string {
    if attrs == [] then ""
    else " " + attrs[0].0 + "=\"" + Escape(attrs[0].1) + "\"" + PrintAttrs(attrs[1..])
  }

  function Print(t: Token): string {
    match t
    case Open(name, attrs) => "<" + name + PrintAttrs(attrs) + ">"
    case Close(name) => "</" + name + ">"
    case Chars(text) => Escape(text)
  }

  function PrintAll(tokens: seq<Token>): string {
    if tokens == [] then "" else Print(tokens[0]) + PrintAll(tokens[1..])
  }

  function Concat(parts: seq<string>): string {
    if parts == [] then "" else parts[0] + Concat(parts[1..])
  }

  function Join(parts: seq<string>, sep: string): string {
    if parts == [] then "" else if |parts| == 1 then parts[0] else parts[0] + sep + Join(parts[1..], sep)
  }

  // ---------- The handlers ----------

  /** The string the open-tag handler pushes: attributes rendered one by one, then joined with spaces. */
  method RenderOpen(settings: Settings, tag: Tag) returns (ok: bool, text: string)
    ensures ok <==> forall i :: 0 <= i < |tag.attributes| ==> AttributeOk(settings, tag.attributes[i])
    ensures ok ==> text == Print(TokenOf(OpenTag(tag)))
  {
    hide Escape, EscapeXml, PrintAttrs, Join, AttributeOk;
    var attrs: seq<string> := [];
    ghost var pairs := TokenOf(OpenTag(tag)).attrs;
    for i := 0 to |tag.attributes|
      invariant |attrs| == i && forall j :: 0 <= j < i ==> attrs[j] == pairs[j].0 + "=\"" + Escape(pairs[j].1) + "\""
      invariant forall j :: 0 <= j < i ==> AttributeOk(settings, tag.attributes[j])
    {
      var attr := tag.attributes[i];
      assert pairs[i] == (attr.name, attr.value);
      if IsXmlns(attr) {
        NamespaceNeedsNoEscape();
        NamespaceIsOk(settings, attr);
        attrs := attrs + ["xmlns=\"" + SVG_NS + "\""];
        continue;
      }
      if !AttributeOk(settings, attr) {
        return false, "";
      }
      ChainIsPerCharacter(attr.value);
      attrs := attrs + [attr.name + "=\"" + EscapeXml(attr.value) + "\""];
    }
    JoinIsPrint(pairs, attrs);
    return true, "<" + tag.local + (if |attrs| > 0 then " " + Join(attrs, " ") else "") + ">";
  }

  lemma NamespaceIsOk(settings: Settings, a: Attribute)
    requires IsXmlns(a)
    ensures AttributeOk(settings, a)
  {
  }

  lemma NamespaceNeedsNoEscape()
    ensures Escape(SVG_NS) == SVG_NS
  {
    PlainNeedsNoEscape(SVG_NS);
  }

  lemma {:induction false} PlainNeedsNoEscape(s: string)
    requires forall i :: 0 <= i < |s| ==> s[i] !in {'&', '<', '>', '"'}
    ensures Escape(s) == s
  {
    if s != "" {
      PlainNeedsNoEscape(s[1..]);
    }
  }

  lemma JoinStep(parts: seq<string>, sep: string)
    requires |parts| > 0
    ensures sep + Join(parts, sep) == (sep + parts[0]) + if |parts| > 1 then sep + Join(parts[1..], sep) else ""
  {
    if |parts| > 1 {
      Assoc(parts[0], sep, Join(parts[1..], sep));
      Assoc(sep, parts[0], sep + Join(parts[1..], sep));
    }
  }

  lemma PrintAttrsStep(attrs: seq<(string, string)>)
    requires attrs != []
    ensures PrintAttrs(attrs) ==
            " " + attrs[0].0 + "=\"" + Escape(attrs[0].1) + "\"" + PrintAttrs(attrs[1..])
  {
  }

  lemma {:induction false} JoinIsPrint(pairs: seq<(string, string)>, parts: seq<string>)
    requires |parts| == |pairs|
    requires forall j :: 0 <= j < |parts| ==> parts[j] == pairs[j].0 + "=\"" + Escape(pairs[j].1) + "\""
    ensures PrintAttrs(pairs) == if |parts| > 0 then " " + Join(parts, " ") else ""
  {
    if |parts| > 0 {
      hide Escape, PrintAttrs, Join;
      JoinIsPrint(pairs[1..], parts[1..]);
      SpacedAttr(pairs[0].0, Escape(pairs[0].1));
      PrintAttrsStep(pairs);
      JoinStep(parts, " ");
    }
  }

  lemma SpacedAttr(name: string, value: string)
    ensures " " + name + "=\"" + value + "\"" == " " + (name + "=\"" + value + "\"")
  {
    Assoc(" ", name, "=\"");
    Assoc(" ", name + "=\"", value);
    Assoc(" ", name + "=\"" + value, "\"");
  }

  lemma {:induction false} ConcatAppend(parts: seq<string>, last: string)
    ensures Concat(parts + [last]) == Concat(parts) + last
  {
    if parts == [] {
      assert parts + [last] == [last] && [last][1..] == [];
    } else {
      ConcatAppend(parts[1..], last);
      assert (parts + [last])[1..] == parts[1..] + [last];
    }
  }

  lemma {:induction false} PrintAppend(tokens: seq<Token>, t: Token)
    ensures PrintAll(tokens + [t]) == PrintAll(tokens) + Print(t)
  {
    hide Print;
    if tokens == [] {
      assert tokens + [t] == [t] && [t][1..] == [];
      assert PrintAll([t]) == Print(t) + "";
    } else {
      PrintAppend(tokens[1..], t);
      assert (tokens + [t])[1..] == tokens[1..] + [t];
      assert Print(tokens[0]) + (PrintAll(tokens[1..]) + Print(t)) == PrintAll(tokens) + Print(t);
    }
  }

  ghost predicate AcceptedSoFar(settings: Settings, events: seq<Event>) {
    forall i :: 0 <= i < |events| ==> EventOk(settings, events, i)
  }

  lemma PrefixCounts(settings: Settings, events: seq<Event>, i: nat)
    requires i < |events|
    ensures events[..i + 1][..i] == events[..i] && events[..i + 1][i] == events[i]
    ensures Opens(events[..i + 1]) == Opens(events[..i]) + if events[i].OpenTag? then 1 else 0
    ensures Depth(events[..i + 1]) ==
        Depth(events[..i]) + (if events[i].OpenTag? then 1 else if events[i].CloseTag? then -1 else 0)
  {
  }

  /** The handlers, driven by the event stream of a file of this size. */
  method ValidateSvg(settings: Settings, size: nat, events: seq<Event>) returns (result: Option<string>)
    ensures result.Some? <==> size <= settings.maxBytes && Accepted(settings, events)
    ensures result.Some? ==>
        (forall i :: 0 <= i < |events| ==> !events[i].Refused?) && result.value == PrintAll(TokensOf(events))
  {
    hide Depth, Opens, TagOk, Print, PrintAll, Concat;
    if size > settings.maxBytes {
      return None;
    }
    var depth, nodes, rootSeen := 0, 0, false;
    var output: seq<string> := [];
    ghost var tokens: seq<Token> := [];
    EmptyCounts(events);
    for i := 0 to |events|
      invariant nodes == Opens(events[..i]) && depth == Depth(events[..i]) && (rootSeen <==> nodes > 0)
      invariant forall j :: 0 <= j < i ==> EventOk(settings, events, j)
      invariant |tokens| == i && forall j :: 0 <= j < i ==> !events[j].Refused? && tokens[j] == TokenOf(events[j])
      invariant Concat(output) == PrintAll(tokens)
    {
      PrefixCounts(settings, events, i);
      var part: string;
      match events[i] {
        case Refused =>
          assert !EventOk(settings, events, i);
          return None;
        case OpenTag(tag) =>
          nodes := nodes + 1;
          depth := depth + 1;
          var attributesOk: bool;
          attributesOk, part := RenderOpen(settings, tag);
          TagOkMeans(settings, tag);
          if nodes > settings.maxElements || depth > settings.maxDepth || tag.uri != SVG_NS || tag.prefix != ""
             || tag.local !in settings.elements || (!rootSeen && tag.local != "svg") || (rootSeen && tag.local == "svg")
             || !attributesOk {
            assert !EventOk(settings, events, i);
            return None;
          }
          rootSeen := true;
        case CloseTag(local) =>
          part := "</" + local + ">";
          PrintsClose(local);
          depth := depth - 1;
        case Text(value) =>
          ChainIsPerCharacter(value);
          part := EscapeXml(value);
          PrintsChars(value);
      }
      ConcatAppend(output, part);
      PrintAppend(tokens, TokenOf(events[i]));
      output := output + [part];
      tokens := tokens + [TokenOf(events[i])];
    }
    assert events[..|events|] == events;
    if !rootSeen || depth != 0 {
      return None;
    }
    assert tokens == TokensOf(events);
    return Some(Concat(output));
  }

  lemma EmptyCounts(events: seq<Event>)
    ensures Opens(events[..0]) == 0 && Depth(events[..0]) == 0 && Concat([]) == PrintAll([])
  {
  }

  lemma TagOkMeans(settings: Settings, tag: Tag)
    ensures TagOk(settings, tag) <==>
      && tag.uri == SVG_NS && tag.prefix == "" && tag.local in settings.elements
      && forall i :: 0 <= i < |tag.attributes| ==> AttributeOk(settings, tag.attributes[i])
  {
  }

  lemma PrintsClose(name: string)
    ensures Print(Close(name)) == "</" + name + ">"
  {
  }

  lemma PrintsChars(text: string)
    ensures Print(Chars(text)) == Escape(text)
  {
  }

  // ---------- Reading the output back ----------

  /** How far `s` goes before the first character in `stops`. */
  function Find(s: string, stops: set<char>): (n: nat)
    ensures n <= |s|
  {
    if s == "" || s[0] in stops then 0 else 1 + Find(s[1..], stops)
  }

  /** The first tag or run of text, and what follows it. */
  function ReadToken(s: string): Option<(Token, string)>
    requires s != ""
  {
    if s[0] != '<' then
      var n := Find(s, {'<'});
      Some((Chars(Unescape(s[..n])), s[n..]))
    else if |s| > 1 && s[1] == '/' then
      var n := Find(s[2..], {'>'});
      if 2 + n >= |s| then None else Some((Close(s[2..2 + n]), s[3 + n..]))
    else
      var n := Find(s[1..], {' ', '>'});
      match ReadAttrs(s[1 + n..])
      case None => None
      case Some(more) => Some((Open(s[1..1 + n], more.0), more.1))
  }

  /** A plain reader: tags, quoted attributes, text; no knowledge of SVG. */
  function Read(s: string): Option<seq<Token>>
    decreases |s|
  {
    if s == "" then Some([])
    else match ReadToken(s)
      case None => None
      case Some(first) => Prepend(first.0, if |first.1| < |s| then Read(first.1) else None)
  }

  function Prepend(t: Token, rest: Option<seq<Token>>): Option<seq<Token>> {
    if rest.None? then None else Some([t] + rest.value)
  }

  /** Reads attributes up to and including the closing `>`, and returns what follows. */
  function ReadAttrs(s: string): Option<(seq<(string, string)>, string)>
    decreases |s|
  {
    if s == "" then None
    else if s[0] == '>' then Some(([], s[1..]))
    else if s[0] != ' ' then None
    else
      var n := Find(s[1..], {'='});
      if n + 2 >= |s| || s[n + 2] != '"' then None
      else
        var v := s[n + 3..];
        var m := Find(v, {'"'});
        if m >= |v| then None
        else match ReadAttrs(v[m + 1..])
          case None => None
          case Some(more) => Some(([(s[1..1 + n], Unescape(v[..m]))] + more.0, more.1))
  }

  /** A name that cannot be mistaken for anything else in a tag. */
  predicate IsPlainName(name: string) {
    name != "" && forall c :: c in name ==> c !in {' ', '>', '<', '/', '=', '"'}
  }

  ghost predicate PlainToken(t: Token) {
    match t
    case Open(name, attrs) => IsPlainName(name) && forall i :: 0 <= i < |attrs| ==> IsPlainName(attrs[i].0)
    case Close(name) => IsPlainName(name)
    case Chars(_) => true
  }

  /** Adjacent text runs joined and empty ones dropped: what a reader can tell apart. */
  function Merge(tokens: seq<Token>): seq<Token> {
    if tokens == [] then []
    else
      var rest := Merge(tokens[1..]);
      if !tokens[0].Chars? then [tokens[0]] + rest
      else if tokens[0].text == "" then rest
      else if rest != [] && rest[0].Chars? then [Chars(tokens[0].text + rest[0].text)] + rest[1..]
      else [tokens[0]] + rest
  }

  ghost predicate Merged(tokens: seq<Token>) {
    && (forall i :: 0 <= i < |tokens| && tokens[i].Chars? ==> tokens[i].text != "")
    && (forall i :: 0 <= i < |tokens| - 1 ==> !(tokens[i].Chars? && tokens[i + 1].Chars?))
  }

  lemma {:induction false} MergeIsMerged(tokens: seq<Token>)
    requires forall i :: 0 <= i < |tokens| ==> PlainToken(tokens[i])
    ensures Merged(Merge(tokens)) && forall i :: 0 <= i < |Merge(tokens)| ==> PlainToken(Merge(tokens)[i])
  {
    if tokens != [] {
      MergeIsMerged(tokens[1..]);
    }
  }

  lemma PrintStep(t: Token, rest: seq<Token>)
    ensures PrintAll([t] + rest) == Print(t) + PrintAll(rest)
  {
    hide Print;
    assert ([t] + rest)[1..] == rest;
  }

  lemma JoinedTextPrintsTheSame(a: string, b: string, rest: seq<Token>)
    ensures PrintAll([Chars(a + b)] + rest) == Escape(a) + PrintAll([Chars(b)] + rest)
  {
    hide Escape, PrintAll;
    EscapeAppend(a, b);
    PrintStep(Chars(a + b), rest);
    PrintStep(Chars(b), rest);
    Assoc(Escape(a), Escape(b), PrintAll(rest));
  }

  lemma {:induction false} MergePrintsTheSame(tokens: seq<Token>)
    ensures PrintAll(Merge(tokens)) == PrintAll(tokens)
  {
    if tokens != [] {
      var t, rest := tokens[0], Merge(tokens[1..]);
      MergePrintsTheSame(tokens[1..]);
      assert ([t] + rest)[1..] == rest;
      if t.Chars? && t.text == "" {
        assert "" + PrintAll(tokens[1..]) == PrintAll(tokens[1..]);
      } else if t.Chars? && rest != [] && rest[0].Chars? {
        assert rest == [Chars(rest[0].text)] + rest[1..];
        JoinedTextPrintsTheSame(t.text, rest[0].text, rest[1..]);
      }
    }
  }

  lemma {:induction false} FindStops(a: string, b: string, stops: set<char>)
    requires forall c :: c in a ==> c !in stops
    requires b == "" || b[0] in stops
    ensures Find(a + b, stops) == |a| && (a + b)[..|a|] == a && (a + b)[|a|..] == b
  {
    if a == "" {
      assert a + b == b;
    } else {
      FindStops(a[1..], b, stops);
      assert (a + b)[1..] == a[1..] + b;
    }
  }

  /** One attribute, once its name and its value are found. */
  lemma ReadAttrsStep(s: string, n: nat, m: nat)
    requires s != "" && s[0] == ' ' && n == Find(s[1..], {'='}) && n + 2 < |s| && s[n + 2] == '"'
    requires m == Find(s[n + 3..], {'"'}) && m < |s[n + 3..]|
    ensures ReadAttrs(s) == match ReadAttrs(s[n + 3..][m + 1..])
                            case None => None
                            case Some(more) => Some(([(s[1..1 + n], Unescape(s[n + 3..][..m]))] + more.0, more.1))
  {
    hide Unescape, Find;
  }

  lemma AttrParts(s: string, name: string, quoted: string, rest: string)
    requires s == " " + name + "=\"" + quoted + "\"" + rest
    ensures s[0] == ' ' && s[1..] == name + ("=\"" + quoted + "\"" + rest) && |name| + 2 < |s| && s[|name| + 2] == '"'
    ensures s[1..1 + |name|] == name && s[|name| + 3..] == quoted + ("\"" + rest)
    ensures (quoted + ("\"" + rest))[|quoted| + 1..] == rest
  {
    assert s == " " + (name + ("=\"" + quoted + "\"" + rest));
    assert s == (" " + name + "=\"") + (quoted + ("\"" + rest));
    assert s[1..1 + |name|] == s[1..][..|name|];
  }

  lemma ReadsOneAttr(name: string, value: string, rest: string)
    requires IsPlainName(name)
    ensures var s := " " + name + "=\"" + Escape(value) + "\"" + rest;
      ReadAttrs(s) == match ReadAttrs(rest)
                      case None => None
                      case Some(more) => Some(([(name, value)] + more.0, more.1))
  {
    var e := Escape(value);
    EscapedIsInert(value);
    UnescapeUndoesEscape(value);
    hide Escape, Unescape, ReadAttrs, Find;
    var s := " " + name + "=\"" + e + "\"" + rest;
    AttrParts(s, name, e, rest);
    FindStops(name, "=\"" + e + "\"" + rest, {'='});
    FindStops(e, "\"" + rest, {'"'});
    ReadAttrsStep(s, |name|, |e|);
  }

  lemma ReadsNoAttr(rest: string)
    ensures ReadAttrs(">" + rest) == Some(([], rest))
  {
  }

  lemma {:induction false} ReadsAttrs(attrs: seq<(string, string)>, rest: string)
    requires forall i :: 0 <= i < |attrs| ==> IsPlainName(attrs[i].0)
    ensures ReadAttrs(PrintAttrs(attrs) + ">" + rest) == Some((attrs, rest))
  {
    hide ReadAttrs, Escape;
    if attrs == [] {
      ReadsNoAttr(rest);
      assert PrintAttrs(attrs) + ">" + rest == ">" + rest;
    } else {
      ReadsAttrs(attrs[1..], rest);
      var tail := PrintAttrs(attrs[1..]) + ">" + rest;
      ReadsOneAttr(attrs[0].0, attrs[0].1, tail);
      assert PrintAttrs(attrs) + ">" + rest == " " + attrs[0].0 + "=\"" + Escape(attrs[0].1) + "\"" + tail;
      assert [attrs[0]] + attrs[1..] == attrs;
      assert (attrs[0].0, attrs[0].1) == attrs[0];
    }
  }

  lemma {:induction false} PrintAttrsStart(attrs: seq<(string, string)>)
    ensures PrintAttrs(attrs) == "" || PrintAttrs(attrs)[0] == ' '
  {
  }

  lemma TagParts(s: string, name: string, after: string)
    requires s == "<" + name + after && name != ""
    ensures s[0] == '<' && s[1..] == name + after && |s| > 1 && s[1] == name[0]
    ensures s[1..1 + |name|] == name && s[1 + |name|..] == after
  {
    assert s == "<" + (name + after);
    assert s[1..1 + |name|] == s[1..][..|name|];
  }

  lemma ReadsOpen(name: string, attrs: seq<(string, string)>, rest: string)
    requires PlainToken(Open(name, attrs))
    ensures ReadToken(Print(Open(name, attrs)) + rest) == Some((Open(name, attrs), rest))
  {
    hide ReadAttrs, PrintAttrs, Unescape, Find;
    var after := PrintAttrs(attrs) + ">" + rest;
    var s := Print(Open(name, attrs)) + rest;
    ReadsAttrs(attrs, rest);
    PrintAttrsStart(attrs);
    assert s == "<" + name + after;
    TagParts(s, name, after);
    assert name[0] in name;
    FindStops(name, after, {' ', '>'});
  }

  lemma ReadsClose(name: string, rest: string)
    requires IsPlainName(name)
    ensures ReadToken(Print(Close(name)) + rest) == Some((Close(name), rest))
  {
    hide ReadAttrs, Unescape;
    var s := Print(Close(name)) + rest;
    var after := ">" + rest;
    assert s[2..] == name + after;
    FindStops(name, after, {'>'});
    assert s[2..2 + |name|] == s[2..][..|name|];
    assert s[3 + |name|..] == rest;
  }

  lemma ReadsChars(text: string, rest: string)
    requires text != "" && (rest == "" || rest[0] == '<')
    ensures Print(Chars(text)) != "" && ReadToken(Print(Chars(text)) + rest) == Some((Chars(text), rest))
  {
    EscapedIsInert(text);
    UnescapeUndoesEscape(text);
    var e := Escape(text);
    hide Escape, Unescape, ReadAttrs;
    assert e[0] in e;
    FindStops(e, rest, {'<'});
  }

  lemma PrintStart(tokens: seq<Token>)
    requires tokens != [] && !tokens[0].Chars?
    ensures PrintAll(tokens) != "" && PrintAll(tokens)[0] == '<'
  {
  }

  lemma MergedTail(tokens: seq<Token>)
    requires Merged(tokens) && tokens != []
    ensures Merged(tokens[1..])
        && (tokens[0].Chars? ==> tokens[0].text != "" && (tokens[1..] == [] || !tokens[1].Chars?))
  {
  }

  lemma {:induction false} MergedReadsBack(tokens: seq<Token>)
    requires Merged(tokens) && forall i :: 0 <= i < |tokens| ==> PlainToken(tokens[i])
    ensures Read(PrintAll(tokens)) == Some(tokens)
  {
    if tokens != [] {
      hide Read, PrintAll, Print, PlainToken, Merged;
      var t, rest := tokens[0], tokens[1..];
      MergedTail(tokens);
      MergedReadsBack(rest);
      if t.Chars? {
        TextEnds(rest);
      }
      ReadsToken(t, PrintAll(rest));
      assert [t] + rest == tokens;
      PrintStep(t, rest);
    }
  }

  lemma TextEnds(tokens: seq<Token>)
    requires tokens == [] || !tokens[0].Chars?
    ensures PrintAll(tokens) == "" || PrintAll(tokens)[0] == '<'
  {
    if tokens != [] {
      PrintStart(tokens);
    }
  }

  lemma ReadsToken(t: Token, rest: string)
    requires PlainToken(t) && (t.Chars? ==> t.text != "" && (rest == "" || rest[0] == '<'))
    ensures Read(Print(t) + rest) == Prepend(t, Read(rest))
  {
    hide ReadToken, PrintAttrs;
    match t
    case Open(name, attrs) => ReadsOpen(name, attrs, rest);
    case Close(name) => ReadsClose(name, rest);
    case Chars(text) => ReadsChars(text, rest);
  }

  // ---------- What an accepted upload publishes ----------

  /** Names that can be printed bare. The configured lists consist of such names. */
  ghost predicate PlainSettings(settings: Settings) {
    && (forall e :: e in settings.elements ==> IsPlainName(e))
    && (forall a :: a in settings.attributes ==> IsPlainName(a))
  }

  /** What is open after the tokens, innermost first, or none if a closing tag does not match. */
  function StackAfter(tokens: seq<Token>, stack: seq<string>): Option<seq<string>> {
    if tokens == [] then Some(stack)
    else match tokens[0]
      case Open(name, _) => StackAfter(tokens[1..], [name] + stack)
      case Close(name) => if stack != [] && stack[0] == name then StackAfter(tokens[1..], stack[1..]) else None
      case Chars(_) => StackAfter(tokens[1..], stack)
  }

  /** How many elements there are, of any name or of one. */
  function CountOpen(tokens: seq<Token>, name: Option<string>): nat {
    if tokens == [] then 0
    else
      (if tokens[0].Open? && (name.Some? ==> tokens[0].name == name.value) then 1 else 0) + CountOpen(tokens[1..], name)
  }

  function Step(t: Token): int {
    if t.Open? then 1 else if t.Close? then -1 else 0
  }

  /** The nesting depth at its worst, from `depth` on. */
  function Deepest(tokens: seq<Token>, depth: int): int {
    if tokens == [] then depth
    else
      var rest := Deepest(tokens[1..], depth + Step(tokens[0]));
      if depth > rest then depth else rest
  }

  /** Merging drops empty text and joins adjacent text, and that is all. */
  lemma MergeStep(tokens: seq<Token>) returns (text: string)
    requires tokens != [] && tokens[0].Chars?
    ensures var rest := Merge(tokens[1..]);
      || Merge(tokens) == rest || Merge(tokens) == [tokens[0]] + rest
      || (rest != [] && rest[0].Chars? && Merge(tokens) == [Chars(text)] + rest[1..])
  {
    var rest := Merge(tokens[1..]);
    text := if rest != [] && rest[0].Chars? then tokens[0].text + rest[0].text else "";
  }

  /** Merging text does not touch the tags. */
  lemma MergeKeepsTags(tokens: seq<Token>, stack: seq<string>, name: Option<string>, depth: int)
    ensures StackAfter(Merge(tokens), stack) == StackAfter(tokens, stack)
    ensures CountOpen(Merge(tokens), name) == CountOpen(tokens, name)
    ensures Deepest(Merge(tokens), depth) == Deepest(tokens, depth)
  {
    MergeKeepsStack(tokens, stack);
    MergeKeepsCount(tokens, name);
    MergeKeepsDepth(tokens, depth);
  }

  lemma {:induction false} MergeKeepsStack(tokens: seq<Token>, stack: seq<string>)
    ensures StackAfter(Merge(tokens), stack) == StackAfter(tokens, stack)
  {
    if tokens != [] {
      var t, rest := tokens[0], Merge(tokens[1..]);
      assert ([t] + rest)[1..] == rest;
      match t
      case Open(n, _) => MergeKeepsStack(tokens[1..], [n] + stack);
      case Close(n) => MergeKeepsStack(tokens[1..], if stack != [] then stack[1..] else stack);
      case Chars(_) =>
        var text := MergeStep(tokens);
        hide Merge;
        MergeKeepsStack(tokens[1..], stack);
        assert rest != [] ==> ([Chars(text)] + rest[1..])[1..] == rest[1..];
    }
  }

  lemma {:induction false} MergeKeepsCount(tokens: seq<Token>, name: Option<string>)
    ensures CountOpen(Merge(tokens), name) == CountOpen(tokens, name)
  {
    if tokens != [] {
      var t, rest := tokens[0], Merge(tokens[1..]);
      assert ([t] + rest)[1..] == rest;
      MergeKeepsCount(tokens[1..], name);
      if t.Chars? {
        var text := MergeStep(tokens);
        hide Merge;
        assert rest != [] ==> ([Chars(text)] + rest[1..])[1..] == rest[1..];
      }
    }
  }

  lemma DeepestCons(t: Token, rest: seq<Token>, depth: int)
    ensures var below := Deepest(rest, depth + Step(t));
            Deepest([t] + rest, depth) == if depth > below then depth else below
  {
    assert ([t] + rest)[1..] == rest;
  }

  /** Text in front, on its own or joined to the text that follows, is no deeper. */
  lemma TextKeepsDepth(tokens: seq<Token>, depth: int)
    requires tokens != [] && tokens[0].Chars?
    ensures Deepest(Merge(tokens), depth) == Deepest(Merge(tokens[1..]), depth)
  {
    var rest := Merge(tokens[1..]);
    var text := MergeStep(tokens);
    DeepestAtLeast(rest, depth);
    DeepestCons(Chars(text), rest, depth);
    if rest != [] {
      assert rest == [rest[0]] + rest[1..];
      DeepestCons(rest[0], rest[1..], depth);
      DeepestCons(Chars(text), rest[1..], depth);
    }
    hide Merge, Deepest;
  }

  lemma {:induction false} MergeKeepsDepth(tokens: seq<Token>, depth: int)
    ensures Deepest(Merge(tokens), depth) == Deepest(tokens, depth)
  {
    if tokens != [] {
      var t, rest := tokens[0], Merge(tokens[1..]);
      assert tokens == [t] + tokens[1..];
      assert !t.Chars? ==> Merge(tokens) == [t] + rest;
      hide Merge, Deepest;
      MergeKeepsDepth(tokens[1..], depth + Step(t));
      DeepestCons(t, tokens[1..], depth);
      if t.Chars? {
        TextKeepsDepth(tokens, depth);
        DeepestAtLeast(rest, depth);
      } else {
        DeepestCons(t, rest, depth);
      }
    }
  }

  lemma {:induction false} DeepestAtLeast(tokens: seq<Token>, depth: int)
    ensures Deepest(tokens, depth) >= depth
  {
  }

  /** An element the reader may meet: an approved name, approved attributes, approved values. */
  ghost predicate ApprovedToken(settings: Settings, t: Token) {
    t.Open? ==>
      && t.name in settings.elements
      && forall i :: 0 <= i < |t.attrs| ==>
           || (t.attrs[i].0 == "xmlns" && t.attrs[i].1 == SVG_NS)
           || (t.attrs[i].0 in settings.attributes && ValueOk(settings, t.attrs[i].0, t.attrs[i].1))
  }

  lemma {:induction false} MergeKeepsApproval(settings: Settings, tokens: seq<Token>)
    requires forall i :: 0 <= i < |tokens| ==> ApprovedToken(settings, tokens[i])
    ensures forall i :: 0 <= i < |Merge(tokens)| ==> ApprovedToken(settings, Merge(tokens)[i])
  {
    if tokens != [] {
      MergeKeepsApproval(settings, tokens[1..]);
    }
  }

  lemma {:induction false} PrefixesStayWithin(settings: Settings, events: seq<Event>, i: nat)
    requires AcceptedSoFar(settings, events) && i <= |events|
    ensures Opens(events[..i]) <= settings.maxElements && Depth(events[..i]) <= settings.maxDepth
  {
    if i > 0 {
      PrefixesStayWithin(settings, events, i - 1);
      PrefixCounts(settings, events, i - 1);
      assert EventOk(settings, events, i - 1);
    }
  }

  /** The counts the handlers keep are those of the printed tokens. */
  lemma {:induction false} SuffixCounts(settings: Settings, events: seq<Event>, tokens: seq<Token>, i: nat)
    requires AcceptedSoFar(settings, events) && i <= |events| == |tokens|
    requires forall j :: 0 <= j < |events| ==> !events[j].Refused? && tokens[j] == TokenOf(events[j])
    ensures Deepest(tokens[i..], Depth(events[..i])) <= settings.maxDepth
    ensures CountOpen(tokens[i..], None) == Opens(events) - Opens(events[..i])
    ensures CountOpen(tokens[i..], Some("svg")) == if Opens(events[..i]) == 0 < Opens(events) then 1 else 0
    decreases |events| - i
  {
    PrefixesStayWithin(settings, events, i);
    if i == |events| {
      assert events[..i] == events;
    } else {
      SuffixCounts(settings, events, tokens, i + 1);
      PrefixCounts(settings, events, i);
      assert EventOk(settings, events, i);
      assert tokens[i..][1..] == tokens[i + 1..];
    }
  }

  /** Matched closing tags bring the stack back to the depth the handlers count. */
  lemma {:induction false} StackIsDepth(tokens: seq<Token>, stack: seq<string>, depth: int)
    requires StackAfter(tokens, stack).Some?
    ensures |StackAfter(tokens, stack).value| == |stack| + Net(tokens)
  {
    if tokens != [] {
      match tokens[0]
      case Open(name, _) => StackIsDepth(tokens[1..], [name] + stack, depth);
      case Close(_) => StackIsDepth(tokens[1..], stack[1..], depth);
      case Chars(_) => StackIsDepth(tokens[1..], stack, depth);
    }
  }

  function Net(tokens: seq<Token>): int {
    if tokens == [] then 0 else Step(tokens[0]) + Net(tokens[1..])
  }

  lemma {:induction false} NetIsDepth(events: seq<Event>, tokens: seq<Token>, i: nat)
    requires i <= |events| == |tokens|
    requires forall j :: 0 <= j < |events| ==> !events[j].Refused? && tokens[j] == TokenOf(events[j])
    ensures Net(tokens[i..]) == Depth(events) - Depth(events[..i])
    decreases |events| - i
  {
    if i == |events| {
      assert events[..i] == events;
    } else {
      NetIsDepth(events, tokens, i + 1);
      assert events[..i + 1][..i] == events[..i];
      assert tokens[i..][1..] == tokens[i + 1..];
    }
  }

  lemma ApprovedTokens(settings: Settings, events: seq<Event>, i: nat)
    requires AcceptedSoFar(settings, events) && PlainSettings(settings) && i < |events|
    requires events[i].CloseTag? ==> IsPlainName(events[i].local)
    ensures !events[i].Refused? && ApprovedToken(settings, TokenOf(events[i])) && PlainToken(TokenOf(events[i]))
  {
    assert EventOk(settings, events, i);
    assert IsPlainName("xmlns");
    if events[i].OpenTag? {
      var tag := events[i].tag;
      forall j | 0 <= j < |tag.attributes|
        ensures AttributeOk(settings, tag.attributes[j])
      {
      }
    }
  }

  /** What is published reads back as what was approved. A plain reader recovers the events of an accepted
      stream, up to the splitting of text: elements and attributes from the lists only, balanced, one svg
      root, within the limits. The tokenizer guarantees matching closing tags. */
  lemma AcceptedReadsBack(settings: Settings, events: seq<Event>)
    requires PlainSettings(settings) && Accepted(settings, events)
    requires forall i :: 0 <= i < |events| && events[i].CloseTag? ==> IsPlainName(events[i].local)
    ensures forall i :: 0 <= i < |events| ==> !events[i].Refused?
    ensures var tokens := TokensOf(events);
      && Read(PrintAll(tokens)) == Some(Merge(tokens))
      && (forall i :: 0 <= i < |Merge(tokens)| ==> ApprovedToken(settings, Merge(tokens)[i]))
      && CountOpen(Merge(tokens), None) <= settings.maxElements
      && CountOpen(Merge(tokens), Some("svg")) == 1
      && Deepest(Merge(tokens), 0) <= settings.maxDepth
      && (StackAfter(tokens, []).Some? ==> StackAfter(Merge(tokens), []) == Some([]))
  {
    hide ApprovedToken, PlainToken, Read, PrintAll, Merge, Deepest, CountOpen, StackAfter, Depth, Opens, EventOk,
        IsPlainName;
    assert AcceptedSoFar(settings, events);
    forall i | 0 <= i < |events|
      ensures !events[i].Refused? && ApprovedToken(settings, TokenOf(events[i])) && PlainToken(TokenOf(events[i]))
    {
      ApprovedTokens(settings, events, i);
    }
    var tokens := TokensOf(events);
    MergeKeepsApproval(settings, tokens);
    MergeIsMerged(tokens);
    MergePrintsTheSame(tokens);
    MergedReadsBack(Merge(tokens));
    MergeKeepsTags(tokens, [], None, 0);
    MergeKeepsTags(tokens, [], Some("svg"), 0);
    SuffixCounts(settings, events, tokens, 0);
    PrefixesStayWithin(settings, events, |events|);
    NetIsDepth(events, tokens, 0);
    EmptyCounts(events);
    assert tokens[0..] == tokens && events[..|events|] == events;
    if StackAfter(tokens, []).Some? {
      StackIsDepth(tokens, [], 0);
    }
  }

  /** The configured element and attribute names (config.service.ts). */
  const ELEMENTS: seq<string> := [
    "svg", "g", "defs", "path", "rect", "circle", "ellipse", "line", "polygon", "polyline", "linearGradient",
    "radialGradient", "stop", "clipPath", "mask", "use", "title", "desc", "text", "tspan"
  ]
  const GEOMETRY: seq<string> := [
    "id", "viewBox", "width", "height", "x", "y", "x1", "y1", "x2", "y2", "cx", "cy", "r", "rx", "ry", "d",
    "points", "transform"
  ]
  const STROKES: seq<string> := [
    "fill", "fill-opacity", "fill-rule", "stroke", "stroke-width", "stroke-opacity", "stroke-linecap",
    "stroke-linejoin", "stroke-miterlimit", "stroke-dasharray", "stroke-dashoffset", "opacity", "clip-path",
    "clip-rule", "mask"
  ]
  const PAINT_AND_FONTS: seq<string> := [
    "gradientUnits", "gradientTransform", "spreadMethod", "offset", "stop-color", "stop-opacity", "href",
    "preserveAspectRatio", "font-size", "font-family", "font-weight", "text-anchor", "dominant-baseline", "dx",
    "dy"
  ]

  /** The configured names are plain, so the limits above hold of the service as shipped. */
  lemma ConfiguredNamesArePlain(settings: Settings)
    requires forall e :: e in settings.elements ==> e in ELEMENTS
    requires forall a :: a in settings.attributes ==> a in GEOMETRY || a in STROKES || a in PAINT_AND_FONTS
    ensures PlainSettings(settings)
  {
    PlainElements();
    PlainGeometry();
    PlainStrokes();
    PlainPaint();
  }

  lemma PlainElements()
    ensures forall i :: 0 <= i < |ELEMENTS| ==> IsPlainName(ELEMENTS[i])
  {
  }

  lemma PlainGeometry()
    ensures forall i :: 0 <= i < |GEOMETRY| ==> IsPlainName(GEOMETRY[i])
  {
  }

  lemma PlainStrokes()
    ensures forall i :: 0 <= i < |STROKES| ==> IsPlainName(STROKES[i])
  {
  }

  lemma PlainPaint()
    ensures forall i :: 0 <= i < |PAINT_AND_FONTS| ==> IsPlainName(PAINT_AND_FONTS[i])
  {
  }
}
