/** Which uploads the SVG check approves (imageValidation.ts), said without its handlers: references, sizes and
    counts are described as they stand in the file. */
module SvgRules {
  import opened Model
  import opened Svg

  /** A letter, then letters, digits, `_` and `-`. */
  ghost predicate IsIdentifier(s: string) {
    && s != "" && ('a' <= s[0] <= 'z' || 'A' <= s[0] <= 'Z')
    && forall c :: c in s ==> 'a' <= c <= 'z' || 'A' <= c <= 'Z' || '0' <= c <= '9' || c == '_' || c == '-'
  }

  /** Here the value says `url`, in any case, white space, and an opening parenthesis. */
  ghost predicate SaysUrl(s: string, i: nat, j: nat) {
    && i + 3 <= j < |s|
    && s[i] in {'u', 'U'} && s[i + 1] in {'r', 'R'} && s[i + 2] in {'l', 'L'} && s[j] == '('
    && forall l :: i + 3 <= l < j ==> IsSpace(s[l])
  }

  ghost predicate SaysUrlSomewhere(s: string) {
    exists i: nat, j: nat :: SaysUrl(s, i, j)
  }

  ghost predicate IsHarmless(s: string) {
    forall c :: c in s ==>
      'a' <= c <= 'z' || 'A' <= c <= 'Z' || '0' <= c <= '9' || IsSpace(c)
      || c in {'_', '.', ',', '%', '#', '+', '(', ')', ':', ';', '-'}
  }

  /** Digits, with or without a fraction, with or without `px`. */
  ghost predicate IsPixels(s: string) {
    exists number, unit :: s == number + unit && unit in {"", "px"} && IsPlainNumber(number)
  }

  ghost predicate IsPlainNumber(s: string) {
    AllDigits(s) || exists whole, fraction :: s == whole + "." + fraction && AllDigits(whole) && AllDigits(fraction)
  }

  ghost predicate AllDigits(s: string) {
    s != "" && forall c :: c in s ==> '0' <= c <= '9'
  }

  /** References lead inside the file, and sizes are positive and bounded. */
  ghost predicate IsApprovedValue(settings: Settings, name: string, value: string) {
    && |value| <= settings.maxAttributeLength
    && (if name == "href" then exists f :: IsIdentifier(f) && value == "#" + f
        else if SaysUrlSomewhere(value) then exists f :: IsIdentifier(f) && value == "url(#" + f + ")"
        else IsHarmless(value))
    && (name == "width" || name == "height" ==>
          IsPixels(value) && settings.reading.parseFloat(value) > 0.0
          && settings.reading.parseFloat(value) <= settings.maxDimension)
    && (name == "viewBox" ==> IsApprovedBox(settings, value))
  }

  /** The trimmed value falls into four pieces between runs of separators, all numbers within the bound, the last two
      positive. */
  ghost predicate IsApprovedBox(settings: Settings, value: string) {
    exists before, trimmed, after, pieces :: value == before + trimmed + after && IsTrimmed(before, trimmed, after)
      && FallsInto(trimmed, pieces) && |pieces| == 4 && AreBounds(settings, pieces)
  }

  ghost predicate IsTrimmed(before: string, trimmed: string, after: string) {
    && (forall c :: c in before || c in after ==> IsSpace(c))
    && (trimmed == "" ==> after == "")
    && (trimmed != "" ==> !IsSpace(trimmed[0]) && !IsSpace(trimmed[|trimmed| - 1]))
  }

  ghost predicate AreBounds(settings: Settings, pieces: seq<string>)
    requires |pieces| == 4
  {
    && (forall i :: 0 <= i < 4 ==>
          match settings.reading.number(pieces[i])
          case None => false
          case Some(x) => -settings.maxCoordinate <= x && x <= settings.maxCoordinate && (i >= 2 ==> x > 0.0))
  }

  ghost predicate HasSeparator(s: string) {
    exists c :: c in s && (IsSpace(c) || c == ',')
  }

  /** The piece ends at a run of separators, after which the rest begins with something else. */
  ghost predicate IsParted(s: string, piece: string, gap: string, rest: string) {
    && s == piece + gap + rest && gap != "" && (forall c :: c in gap ==> IsSpace(c) || c == ',')
    && (rest != "" ==> !IsSpace(rest[0]) && rest[0] != ',')
  }

  /** The pieces hold no separator, and between them stand runs of separators only. */
  ghost predicate FallsInto(s: string, pieces: seq<string>)
    decreases |pieces|
  {
    && pieces != [] && !HasSeparator(pieces[0])
    && if |pieces| == 1 then s == pieces[0]
       else exists gap, rest :: IsParted(s, pieces[0], gap, rest) && FallsInto(rest, pieces[1..])
  }

  ghost function OpenedBefore(events: seq<Event>, n: nat): nat
    requires n <= |events|
  {
    |set i | 0 <= i < n && events[i].OpenTag?|
  }

  ghost function ClosedBefore(events: seq<Event>, n: nat): nat
    requires n <= |events|
  {
    |set i | 0 <= i < n && events[i].CloseTag?|
  }

  /** An element of the list, in the SVG namespace and without prefix; of its attributes the namespace declaration and
      those of the list, without prefix or namespace, whose values are approved. */
  ghost predicate IsApprovedTag(settings: Settings, tag: Tag) {
    && tag.uri == "http://www.w3.org/2000/svg" && tag.prefix == "" && tag.local in settings.elements
    && forall i :: 0 <= i < |tag.attributes| ==>
         var a := tag.attributes[i];
         || (a.name == "xmlns" && a.value == "http://www.w3.org/2000/svg")
         || (a.prefix == "" && a.uri == "" && a.name in settings.attributes
             && IsApprovedValue(settings, a.name, a.value))
  }

  ghost predicate IsApprovedStream(settings: Settings, events: seq<Event>) {
    && (forall i :: 0 <= i < |events| ==> !events[i].Refused?)
    && (forall i :: 0 <= i < |events| && events[i].OpenTag? ==>
          && IsApprovedTag(settings, events[i].tag)
          && OpenedBefore(events, i) < settings.maxElements
          && OpenedBefore(events, i) - ClosedBefore(events, i) < settings.maxDepth
          && (events[i].tag.local == "svg" <==> OpenedBefore(events, i) == 0))
    && 0 < OpenedBefore(events, |events|) == ClosedBefore(events, |events|)
  }

  lemma NextCount(events: seq<Event>, n: nat)
    requires n < |events|
    ensures OpenedBefore(events, n + 1) == OpenedBefore(events, n) + if events[n].OpenTag? then 1 else 0
    ensures ClosedBefore(events, n + 1) == ClosedBefore(events, n) + if events[n].CloseTag? then 1 else 0
  {
    var opens, closes := set i | 0 <= i < n && events[i].OpenTag?, set i | 0 <= i < n && events[i].CloseTag?;
    assert (set i | 0 <= i < n + 1 && events[i].OpenTag?) == if events[n].OpenTag? then opens + {n} else opens;
    assert (set i | 0 <= i < n + 1 && events[i].CloseTag?) == if events[n].CloseTag? then closes + {n} else closes;
  }

  lemma {:induction false} CountsDecide(settings: Settings, events: seq<Event>, n: nat)
    requires n <= |events|
    ensures Opens(events[..n]) == OpenedBefore(events, n)
    ensures Depth(events[..n]) == OpenedBefore(events, n) - ClosedBefore(events, n)
  {
    if n == 0 {
    } else {
      hide OpenedBefore, ClosedBefore, Opens, Depth;
      CountsDecide(settings, events, n - 1);
      NextCount(events, n - 1);
      PrefixCounts(settings, events, n - 1);
    }
  }

  lemma FragmentDecides(s: string)
    ensures IsFragment(s) <==> IsIdentifier(s)
  {
    if IsIdentifier(s) {
      forall i | 0 <= i < |s| ensures IsWord(s[i]) || s[i] == '-' {
        assert s[i] in s;
      }
    }
  }

  lemma ReferencesDecide(s: string)
    ensures IsReference(s) <==> exists f :: IsIdentifier(f) && s == "#" + f
    ensures IsUrlReference(s) <==> exists f :: IsIdentifier(f) && s == "url(#" + f + ")"
  {
    if |s| > 1 {
      FragmentDecides(s[1..]);
      assert s[0] == '#' ==> s == "#" + s[1..];
    }
    if f :| IsIdentifier(f) && s == "#" + f {
      assert s[1..] == f;
    }
    if |s| > 6 {
      FragmentDecides(s[5..|s| - 1]);
      assert s[..5] == "url(#" && s[|s| - 1] == ')' ==> s == "url(#" + s[5..|s| - 1] + ")";
    }
    if f :| IsIdentifier(f) && s == "url(#" + f + ")" {
      assert s[5..|s| - 1] == f && s[..5] == "url(#";
    }
  }

  lemma {:induction false} CallDecides(s: string)
    ensures OpensCall(s) <==> exists j :: 0 <= j < |s| && s[j] == '(' && forall l :: 0 <= l < j ==> IsSpace(s[l])
  {
    if s != "" {
      CallDecides(s[1..]);
      if s[0] != '(' && IsSpace(s[0]) {
        if j :| 0 <= j < |s[1..]| && s[1..][j] == '(' && forall l :: 0 <= l < j ==> IsSpace(s[1..][l]) {
          assert s[j + 1] == '(' && forall l :: 0 < l < j + 1 ==> s[l] == s[1..][l - 1];
        }
        if j :| 0 <= j < |s| && s[j] == '(' && forall l :: 0 <= l < j ==> IsSpace(s[l]) {
          assert s[1..][j - 1] == '(' && forall l :: 0 <= l < j - 1 ==> s[1..][l] == s[l + 1];
        }
      }
    }
  }

  lemma UrlStartDecides(s: string)
    ensures StartsUrl(s) <==> exists j: nat :: SaysUrl(s, 0, j)
  {
    if |s| > 3 {
      CallDecides(s[3..]);
      if j :| 0 <= j < |s[3..]| && s[3..][j] == '(' && forall l :: 0 <= l < j ==> IsSpace(s[3..][l]) {
        assert forall l :: 3 <= l < j + 3 ==> s[l] == s[3..][l - 3];
        assert StartsUrl(s) ==> SaysUrl(s, 0, j + 3);
      }
      if j: nat :| SaysUrl(s, 0, j) {
        assert s[3..][j - 3] == '(' && forall l :: 0 <= l < j - 3 ==> s[3..][l] == s[l + 3];
      }
    }
  }

  lemma {:induction false} UrlDecides(s: string)
    ensures MentionsUrl(s) <==> SaysUrlSomewhere(s)
  {
    if s != "" {
      UrlDecides(s[1..]);
      UrlStartDecides(s);
      hide StartsUrl;
      if i: nat, j: nat :| SaysUrl(s[1..], i, j) {
        assert forall l :: 0 < l < |s| ==> s[l] == s[1..][l - 1];
        assert SaysUrl(s, i + 1, j + 1);
      }
      if i: nat, j: nat :| SaysUrl(s, i, j) && i > 0 {
        assert forall l :: 0 < l < |s| ==> s[l] == s[1..][l - 1];
        assert SaysUrl(s[1..], i - 1, j - 1);
      }
    }
  }

  lemma HarmlessDecides(s: string)
    ensures IsPlainValue(s) <==> IsHarmless(s)
  {
    if IsHarmless(s) {
      forall i | 0 <= i < |s|
        ensures IsWord(s[i]) || IsSpace(s[i]) || s[i] in {'.', ',', '%', '#', '+', '(', ')', ':', ';', '-'}
      {
        assert s[i] in s;
      }
    }
  }

  lemma DigitsDecide(s: string)
    ensures IsDigits(s) <==> AllDigits(s)
  {
    if AllDigits(s) {
      forall i | 0 <= i < |s| ensures '0' <= s[i] <= '9' {
        assert s[i] in s;
      }
    }
  }

  lemma NumberDecides(s: string)
    ensures IsDecimal(s) <==> IsPlainNumber(s)
  {
    DigitsDecide(s);
    if i :| 0 <= i < |s| && s[i] == '.' && IsDigits(s[..i]) && IsDigits(s[i + 1..]) {
      DigitsDecide(s[..i]);
      DigitsDecide(s[i + 1..]);
      assert s == s[..i] + "." + s[i + 1..];
    }
    if whole, fraction :| s == whole + "." + fraction && AllDigits(whole) && AllDigits(fraction) {
      DigitsDecide(whole);
      DigitsDecide(fraction);
      assert s[..|whole|] == whole && s[|whole|] == '.' && s[|whole| + 1..] == fraction;
    }
  }

  lemma PixelsDecide(s: string)
    ensures IsLength(s) <==> IsPixels(s)
  {
    NumberDecides(s);
    if IsDecimal(s) {
      assert s == s + "";
    }
    if |s| > 2 && s[|s| - 2..] == "px" {
      NumberDecides(s[..|s| - 2]);
      assert s == s[..|s| - 2] + "px";
    }
    if number, unit :| s == number + unit && unit in {"", "px"} && IsPlainNumber(number) {
      NumberDecides(number);
      if unit == "px" {
        assert s[|s| - 2..] == "px" && s[..|s| - 2] == number;
        assert number != "";
      } else {
        assert s == number;
      }
    }
  }

  // ---------- Trimming and splitting ----------

  lemma {:induction false} TrimsStart(before: string, rest: string)
    requires forall c :: c in before ==> IsSpace(c)
    ensures TrimStart(before + rest) == TrimStart(rest)
  {
    if before == "" {
      assert before + rest == rest;
    } else {
      TrimsStart(before[1..], rest);
      assert before[0] in before && (before + rest)[1..] == before[1..] + rest;
    }
  }

  lemma {:induction false} TrimsEnd(rest: string, after: string)
    requires forall c :: c in after ==> IsSpace(c)
    ensures TrimEnd(rest + after) == TrimEnd(rest)
  {
    if after == "" {
      assert rest + after == rest;
    } else {
      var last := |after| - 1;
      TrimsEnd(rest, after[..last]);
      assert after[last] in after && (rest + after)[..|rest + after| - 1] == rest + after[..last];
    }
  }

  lemma TrimIsUnique(before: string, trimmed: string, after: string)
    requires IsTrimmed(before, trimmed, after)
    ensures TrimEnd(TrimStart(before + trimmed + after)) == trimmed
  {
    assert before + trimmed + after == before + (trimmed + after);
    TrimsStart(before, trimmed + after);
    if trimmed != "" {
      assert (trimmed + after)[0] == trimmed[0];
      TrimsEnd(trimmed, after);
    }
  }

  lemma {:induction false} StartsTrimmed(s: string) returns (before: string)
    ensures s == before + TrimStart(s) && forall c :: c in before ==> IsSpace(c)
    ensures TrimStart(s) != "" ==> !IsSpace(TrimStart(s)[0])
  {
    before := "";
    if s != "" && IsSpace(s[0]) {
      var more := StartsTrimmed(s[1..]);
      before := [s[0]] + more;
    }
  }

  lemma {:induction false} EndsTrimmed(s: string) returns (after: string)
    ensures s == TrimEnd(s) + after && forall c :: c in after ==> IsSpace(c)
    ensures TrimEnd(s) != "" ==> !IsSpace(TrimEnd(s)[|TrimEnd(s)| - 1])
  {
    after := "";
    if s != "" && IsSpace(s[|s| - 1]) {
      var more := EndsTrimmed(s[..|s| - 1]);
      after := more + [s[|s| - 1]];
    }
  }

  lemma TrimExists(value: string) returns (before: string, after: string)
    ensures value == before + TrimEnd(TrimStart(value)) + after
    ensures IsTrimmed(before, TrimEnd(TrimStart(value)), after)
  {
    before := StartsTrimmed(value);
    after := EndsTrimmed(TrimStart(value));
    var trimmed := TrimEnd(TrimStart(value));
    assert TrimStart(value) == trimmed + after;
    assert after != "" ==> after[0] in after;
    assert trimmed == "" ==> TrimStart(value) == after;
    assert trimmed != "" ==> TrimStart(value)[0] == trimmed[0];
    assert value == before + trimmed + after;
  }

  lemma {:induction false} DropsGap(gap: string, rest: string)
    requires (forall c :: c in gap ==> IsSpace(c) || c == ',') && (rest != "" ==> !IsSpace(rest[0]) && rest[0] != ',')
    ensures DropSeparators(gap + rest) == rest
  {
    if gap == "" {
      assert gap + rest == rest;
    } else {
      DropsGap(gap[1..], rest);
      assert gap[0] in gap && (gap + rest)[1..] == gap[1..] + rest;
    }
  }

  lemma {:induction false} GapExists(s: string) returns (gap: string)
    ensures s == gap + DropSeparators(s) && forall c :: c in gap ==> IsSpace(c) || c == ','
    ensures var rest := DropSeparators(s); rest != "" ==> !IsSpace(rest[0]) && rest[0] != ','
  {
    gap := "";
    if s != "" && IsSeparator(s[0]) {
      var more := GapExists(s[1..]);
      gap := [s[0]] + more;
    }
  }

  /** Splitting finds the pieces. */
  lemma {:induction false} SplitIsUnique(s: string, piece: string, pieces: seq<string>)
    requires FallsInto(s, pieces)
    ensures Split(s, piece) == [piece + pieces[0]] + pieces[1..]
    decreases |s|, |pieces|
  {
    if pieces[0] != "" {
      FirstIn(s, pieces);
      SplitIsUnique(s[1..], piece + [s[0]], Shorter(pieces));
      assert piece + [s[0]] + pieces[0][1..] == piece + pieces[0];
      hide FallsInto;
    } else if |pieces| == 1 {
      assert piece + pieces[0] == piece;
      assert pieces == [pieces[0]];
    } else {
      var gap, rest :| IsParted(s, pieces[0], gap, rest) && FallsInto(rest, pieces[1..]);
      GapFirst(s, gap, rest);
      hide FallsInto, IsParted;
      SplitIsUnique(rest, "", pieces[1..]);
      assert "" + pieces[1..][0] == pieces[1..][0];
      assert piece + pieces[0] == piece;
      assert [pieces[1..][0]] + pieces[1..][1..] == pieces[1..];
    }
  }

  /** The first piece without its first character. */
  ghost function Shorter(pieces: seq<string>): (shorter: seq<string>)
    requires pieces != [] && pieces[0] != ""
    ensures |shorter| == |pieces| && shorter[0] == pieces[0][1..] && shorter[1..] == pieces[1..]
  {
    [pieces[0][1..]] + pieces[1..]
  }

  lemma GapFirst(s: string, gap: string, rest: string)
    requires IsParted(s, "", gap, rest)
    ensures s != "" && IsSeparator(s[0]) && DropSeparators(s[1..]) == rest && |rest| < |s|
  {
    assert s == gap + rest && gap[0] in gap && s[1..] == gap[1..] + rest;
    DropsGap(gap[1..], rest);
  }

  /** Without its first character the text falls into the same pieces, the first one shorter. */
  lemma FirstIn(s: string, pieces: seq<string>)
    requires FallsInto(s, pieces) && pieces[0] != ""
    ensures s != "" && s[0] == pieces[0][0] && !IsSeparator(s[0]) && FallsInto(s[1..], Shorter(pieces))
  {
    assert pieces[0][0] in pieces[0];
    assert !HasSeparator(pieces[0][1..]) by {
      forall c | c in pieces[0][1..] ensures c in pieces[0] {
        assert pieces[0] == pieces[0][..1] + pieces[0][1..];
      }
    }
    if |pieces| > 1 {
      var gap, rest :| IsParted(s, pieces[0], gap, rest) && FallsInto(rest, pieces[1..]);
      PartedLater(s, pieces[0], gap, rest);
      assert FallsInto(rest, Shorter(pieces)[1..]);
      hide IsParted, HasSeparator;
    }
  }

  lemma PartedLater(s: string, piece: string, gap: string, rest: string)
    requires IsParted(s, piece, gap, rest) && piece != ""
    ensures s != "" && s[0] == piece[0] && IsParted(s[1..], piece[1..], gap, rest)
  {
    assert s[1..] == piece[1..] + gap + rest;
  }

  lemma {:induction false} SplitExists(s: string, piece: string)
    requires !HasSeparator(piece)
    ensures FallsInto(piece + s, Split(s, piece))
    decreases |s|
  {
    if s == "" {
      assert piece + s == piece;
    } else if IsSeparator(s[0]) {
      var rest := DropSeparators(s[1..]);
      var more := GapExists(s[1..]);
      var gap := [s[0]] + more;
      SplitExists(rest, "");
      assert "" + rest == rest;
      assert piece + s == piece + gap + rest;
      assert IsParted(piece + s, piece, gap, rest);
      assert Split(s, piece)[1..] == Split(rest, "");
    } else {
      SplitExists(s[1..], piece + [s[0]]);
      assert piece + [s[0]] + s[1..] == piece + s;
    }
  }

  lemma BoundsDecide(settings: Settings, pieces: seq<string>)
    requires |pieces| == 4
    ensures AreBounds(settings, pieces) <==>
      && (forall i :: 0 <= i < 4 ==>
            && settings.reading.number(pieces[i]).Some?
            && -settings.maxCoordinate <= settings.reading.number(pieces[i]).value <= settings.maxCoordinate)
      && settings.reading.number(pieces[2]).value > 0.0 && settings.reading.number(pieces[3]).value > 0.0
  {
  }

  lemma BoxIsApproved(settings: Settings, value: string)
    requires ViewBoxOk(settings, value)
    ensures IsApprovedBox(settings, value)
  {
    var trimmed := TrimEnd(TrimStart(value));
    var pieces := Split(trimmed, "");
    BoundsDecide(settings, pieces);
    hide AreBounds, IsTrimmed, FallsInto, ViewBoxOk, TrimStart, TrimEnd, Split;
    var before, after := TrimExists(value);
    SplitExists(trimmed, "");
    assert "" + trimmed == trimmed;
  }

  lemma ApprovedBoxPasses(settings: Settings, value: string)
    requires IsApprovedBox(settings, value)
    ensures ViewBoxOk(settings, value)
  {
    var before, middle, after, parts :| value == before + middle + after && IsTrimmed(before, middle, after)
      && FallsInto(middle, parts) && |parts| == 4 && AreBounds(settings, parts);
    BoundsDecide(settings, parts);
    hide AreBounds, IsTrimmed, FallsInto, TrimStart, TrimEnd, Split;
    TrimIsUnique(before, middle, after);
    SplitIsUnique(middle, "", parts);
    assert "" + parts[0] == parts[0];
    assert [parts[0]] + parts[1..] == parts;
  }

  lemma BoxDecides(settings: Settings, value: string)
    ensures ViewBoxOk(settings, value) <==> IsApprovedBox(settings, value)
  {
    hide ViewBoxOk, IsApprovedBox;
    if ViewBoxOk(settings, value) {
      BoxIsApproved(settings, value);
    }
    if IsApprovedBox(settings, value) {
      ApprovedBoxPasses(settings, value);
    }
  }

  // ---------- Values, tags and streams ----------

  lemma ValueDecides(settings: Settings, name: string, value: string)
    ensures ValueOk(settings, name, value) <==> IsApprovedValue(settings, name, value)
  {
    ReferencesDecide(value);
    UrlDecides(value);
    HarmlessDecides(value);
    PixelsDecide(value);
    BoxDecides(settings, value);
    hide IsReference, IsUrlReference, MentionsUrl, IsPlainValue, IsLength, ViewBoxOk;
    hide SaysUrlSomewhere, IsHarmless, IsPixels, IsApprovedBox, IsIdentifier;
  }

  lemma TagDecides(settings: Settings, tag: Tag)
    ensures TagOk(settings, tag) <==> IsApprovedTag(settings, tag)
  {
    forall a: Attribute
      ensures ValueOk(settings, a.name, a.value) <==> IsApprovedValue(settings, a.name, a.value)
    {
      ValueDecides(settings, a.name, a.value);
    }
    hide ValueOk, IsApprovedValue;
  }

  lemma EventDecides(settings: Settings, events: seq<Event>, i: nat)
    requires i < |events|
    ensures EventOk(settings, events, i) <==>
      && !events[i].Refused?
      && (events[i].OpenTag? ==>
            && IsApprovedTag(settings, events[i].tag)
            && OpenedBefore(events, i) < settings.maxElements
            && OpenedBefore(events, i) - ClosedBefore(events, i) < settings.maxDepth
            && (events[i].tag.local == "svg" <==> OpenedBefore(events, i) == 0))
  {
    CountsDecide(settings, events, i);
    if events[i].OpenTag? {
      TagDecides(settings, events[i].tag);
    }
    hide TagOk, IsApprovedTag, OpenedBefore, ClosedBefore, Opens, Depth;
  }

  /** The check accepts exactly the approved streams. */
  lemma AcceptedDecides(settings: Settings, events: seq<Event>)
    ensures Accepted(settings, events) <==> IsApprovedStream(settings, events)
  {
    forall i | 0 <= i < |events|
      ensures EventOk(settings, events, i) <==>
        && !events[i].Refused?
        && (events[i].OpenTag? ==>
              && IsApprovedTag(settings, events[i].tag)
              && OpenedBefore(events, i) < settings.maxElements
              && OpenedBefore(events, i) - ClosedBefore(events, i) < settings.maxDepth
              && (events[i].tag.local == "svg" <==> OpenedBefore(events, i) == 0))
    {
      EventDecides(settings, events, i);
    }
    CountsDecide(settings, events, |events|);
    assert events[..|events|] == events;
    hide EventOk, IsApprovedTag, OpenedBefore, ClosedBefore, Opens, Depth;
  }
}
