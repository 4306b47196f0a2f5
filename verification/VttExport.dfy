/** The WebVTT exporter: entity escaping and its inverse, the shape of a cue payload,
    and a parser that undoes a whole file. */
module VttExport {
  import opened Common
  import opened Text
  import opened ExportUtils

  /* ---------------- escaping ---------------- */

  /** replace(c, with): every occurrence of one character. */
  function Replace(s: string, c: char, with: string): string {
    if s == [] then [] else (if s[0] == c then with else [s[0]]) + Replace(s[1..], c, with)
  }

  function EscapeVttText(s: string): string {
    Replace(Replace(Replace(s, '&', "&amp;"), '<', "&lt;"), '>', "&gt;")
  }

  function Entity(c: char): (e: string)
    ensures e != [] && e[|e| - 1] == if c in "&<>" then ';' else c
    ensures OneLine(e) <==> !IsBreak(c)
    ensures Free(e, '<') && Free(e, '>')
  {
    if c == '&' then "&amp;" else if c == '<' then "&lt;" else if c == '>' then "&gt;" else [c]
  }

  function Mapped(s: string): string {
    if s == [] then [] else Entity(s[0]) + Mapped(s[1..])
  }

  lemma {:induction false} ReplaceConcat(a: string, b: string, c: char, with: string)
    ensures Replace(a + b, c, with) == Replace(a, c, with) + Replace(b, c, with)
  {
    if a == [] {
      assert a + b == b;
    } else {
      ReplaceConcat(a[1..], b, c, with);
      assert (a + b)[1..] == a[1..] + b;
      Glue(if a[0] == c then with else [a[0]], Replace(a[1..], c, with), Replace(b, c, with));
    }
  }

  lemma {:induction false} ReplaceAbsent(s: string, c: char, with: string)
    requires Free(s, c)
    ensures Replace(s, c, with) == s
  {
    if s != [] { ReplaceAbsent(s[1..], c, with); }
  }

  /** The three chained replaces are one map over characters: no replace touches what
      an earlier one produced. */
  lemma {:induction false} EscapeIsPerCharacter(s: string)
    ensures EscapeVttText(s) == Mapped(s)
  {
    if s != [] {
      var head, tail := [s[0]], s[1..];
      assert s == head + tail;
      EscapeIsPerCharacter(tail);
      EscapeConcat(head, tail);
      EscapeOne(s[0]);
    }
  }

  lemma EscapeConcat(a: string, b: string)
    ensures EscapeVttText(a + b) == EscapeVttText(a) + EscapeVttText(b)
  {
    ReplaceConcat(a, b, '&', "&amp;");
    var a1, b1 := Replace(a, '&', "&amp;"), Replace(b, '&', "&amp;");
    ReplaceConcat(a1, b1, '<', "&lt;");
    ReplaceConcat(Replace(a1, '<', "&lt;"), Replace(b1, '<', "&lt;"), '>', "&gt;");
  }

  lemma ReplaceOne(c: char, d: char, with: string)
    ensures Replace([c], d, with) == if c == d then with else [c]
  {}

  lemma EscapeOne(c: char)
    ensures EscapeVttText([c]) == Entity(c)
  {
    ReplaceOne(c, '&', "&amp;");
    if c == '&' {
      ReplaceAbsent("&amp;", '<', "&lt;");
      ReplaceAbsent("&amp;", '>', "&gt;");
    } else {
      ReplaceOne(c, '<', "&lt;");
      if c == '<' {
        ReplaceAbsent("&lt;", '>', "&gt;");
      } else {
        ReplaceOne(c, '>', "&gt;");
      }
    }
  }

  /** A reader of cue text: the three entities become characters, the rest stays. */
  function Decode(s: string): string {
    if s == [] then []
    else if StartsWith(s, "&amp;") then "&" + Decode(s[5..])
    else if StartsWith(s, "&lt;") then "<" + Decode(s[4..])
    else if StartsWith(s, "&gt;") then ">" + Decode(s[4..])
    else [s[0]] + Decode(s[1..])
  }

  lemma SecondChar(s: string, prefix: string)
    requires StartsWith(s, prefix) && |prefix| >= 2
    ensures |s| >= 2 && s[0] == prefix[0] && s[1] == prefix[1]
  {
    assert s[..|prefix|][0] == s[0] && s[..|prefix|][1] == s[1];
  }

  lemma Prefixed(prefix: string, rest: string)
    ensures StartsWith(prefix + rest, prefix) && (prefix + rest)[|prefix|..] == rest
  {}

  /** No entity is the beginning of another one's text. */
  lemma DecodeEntity(c: char, rest: string)
    ensures Decode(Entity(c) + rest) == [c] + Decode(rest)
  {
    var s := Entity(c) + rest;
    Prefixed(Entity(c), rest);
    if StartsWith(s, "&amp;") { SecondChar(s, "&amp;"); }
    if StartsWith(s, "&lt;") { SecondChar(s, "&lt;"); }
    if StartsWith(s, "&gt;") { SecondChar(s, "&gt;"); }
  }

  lemma {:induction false} DecodeMapped(s: string)
    ensures Decode(Mapped(s)) == s
  {
    if s != [] {
      DecodeEntity(s[0], Mapped(s[1..]));
      DecodeMapped(s[1..]);
    }
  }

  /** Decoding gives back every escaped text. */
  lemma EscapeRoundTrip(s: string)
    ensures Decode(EscapeVttText(s)) == s
  {
    EscapeIsPerCharacter(s);
    DecodeMapped(s);
  }

  lemma {:induction false} MappedIsPlain(s: string)
    ensures Free(Mapped(s), '<') && Free(Mapped(s), '>')
    ensures OneLine(s) ==> OneLine(Mapped(s))
    ensures Mapped(s) == [] <==> s == []
  {
    if s != [] { MappedIsPlain(s[1..]); }
  }

  /* ---------------- line breaks and payloads ---------------- */

  lemma TwoChars(s: string)
    requires |s| >= 2
    ensures StartsWith(s, "\r\n") <==> s[0] == '\r' && s[1] == '\n'
  {
    assert s[..2] == [s[0], s[1]];
  }

  lemma MappedTwo(s: string)
    requires |s| >= 2 && IsBreak(s[0])
    ensures |Mapped(s)| >= 2 && Mapped(s)[0] == s[0] && (Mapped(s)[1] == '\n' <==> s[1] == '\n')
    ensures Mapped(s)[1..] == Mapped(s[1..])
    ensures s[1] == '\n' ==> Mapped(s)[2..] == Mapped(s[2..])
  {
    assert s[1..][0] == s[1] && s[1..][1..] == s[2..];
  }

  lemma MappedFront(s: string)
    requires s != []
    ensures Mapped(s) != [] && (IsBreak(Mapped(s)[0]) <==> IsBreak(s[0]))
    ensures IsBreak(s[0]) ==> BreakLength(Mapped(s)) == BreakLength(s)
    ensures IsBreak(s[0]) ==> Mapped(s)[BreakLength(s)..] == Mapped(s[BreakLength(s)..])
  {
    if IsBreak(s[0]) && |s| >= 2 {
      MappedTwo(s);
      TwoChars(s);
      TwoChars(Mapped(s));
    }
  }

  lemma {:induction false} SpacedMapped(s: string)
    ensures Spaced(Mapped(s)) == Mapped(Spaced(s))
    decreases |s|
  {
    if s != [] {
      MappedFront(s);
      SpacedStep(s);
      SpacedMapped(s[Front(s)..]);
      if IsBreak(s[0]) {
        SpacedStep(Mapped(s));
      } else {
        SpacedLine(Entity(s[0]), Mapped(s[1..]));
      }
    }
  }

  lemma MappedConcat(a: string, b: string)
    ensures Mapped(a + b) == Mapped(a) + Mapped(b)
  {
    EscapeConcat(a, b);
    EscapeIsPerCharacter(a);
    EscapeIsPerCharacter(b);
    EscapeIsPerCharacter(a + b);
  }

  lemma MappedSnoc(a: string, c: char)
    ensures Mapped(a + [c]) == Mapped(a) + Entity(c)
  {
    MappedConcat(a, [c]);
    assert Mapped([c]) == Entity(c) + Mapped([]);
  }

  lemma MappedLast(s: string)
    requires s != []
    ensures Mapped(s) != [] && (EndsInBreak(Mapped(s)) <==> EndsInBreak(s))
    ensures EndsInDash(Mapped(s)) <==> EndsInDash(s)
    ensures s[|s| - 1] == ' ' || s[|s| - 1] == '-' ==> DropLast(Mapped(s)) == Mapped(DropLast(s))
  {
    var a, c := DropLast(s), s[|s| - 1];
    var m := MappedSplit(s, a, c);
    LastOfEntity(m, c);
  }

  lemma LastOfEntity(m: string, c: char)
    ensures var r := m + Entity(c);
            && r != [] && (EndsInBreak(r) <==> IsBreak(c)) && (EndsInDash(r) <==> c == '-')
            && (c == ' ' || c == '-' ==> DropLast(r) == m)
  {
    LastOfSum(m, Entity(c));
  }

  lemma MappedSplit(s: string, a: string, c: char) returns (m: string)
    requires s != [] && a == DropLast(s) && c == s[|s| - 1]
    ensures m == Mapped(a) && Mapped(s) == m + Entity(c)
  {
    m := Mapped(a);
    assert s == a + [c];
    MappedSnoc(a, c);
  }

  lemma LastOfSum(a: string, b: string)
    requires b != []
    ensures a + b != [] && (a + b)[|a + b| - 1] == b[|b| - 1]
    ensures |b| == 1 ==> DropLast(a + b) == a
  {}

  /** Escaping and collapsing line breaks commute. */
  lemma CollapseCommutes(s: string)
    ensures CollapseNewlines(EscapeVttText(s)) == EscapeVttText(CollapseNewlines(s))
  {
    EscapeIsPerCharacter(s);
    EscapeIsPerCharacter(CollapseNewlines(s));
    CollapseOfMapped(s);
  }

  lemma CollapseOfMapped(s: string)
    ensures CollapseNewlines(Mapped(s)) == Mapped(CollapseNewlines(s))
  {
    CollapseIsSpaced(s);
    CollapseIsSpaced(Mapped(s));
    SpacedMapped(s);
    if s != [] {
      MappedLast(s);
      SpacedLast(s);
      MappedLast(Spaced(s));
    }
  }

  function FormatText(seg: Segment): string {
    CollapseNewlines((if Spoken(seg) then "<v " + EscapeVttText(seg.speaker.value) + ">" else "")
                     + EscapeVttText(seg.text))
  }

  /** The voice tag of a payload: breaks in a speaker's name become spaces. */
  function Tag(seg: Segment): string {
    if Spoken(seg) then "<v " + EscapeVttText(Spaced(seg.speaker.value)) + ">" else ""
  }

  lemma SpacedTag(name: string)
    ensures Spaced("<v " + name + ">") == "<v " + Spaced(name) + ">"
  {
    SpacedLine("<v ", name + ">");
    Glue("<v ", name, ">");
    SpacedConcat(name, ">");
    SpacedLine(">", "");
    Glue("<v ", Spaced(name), ">");
  }

  lemma CollapseAfter(a: string, b: string)
    requires a != [] && !IsBreak(a[|a| - 1])
    ensures CollapseNewlines(a + b) == Spaced(a) + CollapseNewlines(b)
  {
    CollapseIsSpaced(a + b);
    CollapseIsSpaced(b);
    SpacedConcat(a, b);
    if EndsInBreak(b) {
      SpacedNonEmpty(b);
      DropLastOfSum(Spaced(a), Spaced(b));
    }
  }

  lemma PayloadShape(seg: Segment)
    ensures FormatText(seg) == Tag(seg) + EscapeVttText(CollapseNewlines(seg.text))
  {
    CollapseCommutes(seg.text);
    if Spoken(seg) {
      var name := EscapeVttText(seg.speaker.value);
      CollapseAfter("<v " + name + ">", EscapeVttText(seg.text));
      SpacedTag(name);
      EscapeIsPerCharacter(seg.speaker.value);
      EscapeIsPerCharacter(Spaced(seg.speaker.value));
      SpacedMapped(seg.speaker.value);
    } else {
      assert "" + EscapeVttText(seg.text) == EscapeVttText(seg.text);
    }
  }

  predicate EndsInDash(s: string) { s != [] && s[|s| - 1] == '-' }

  /* ---------------- what a payload holds ---------------- */

  /** A payload is one line whose only angle brackets are those of its voice tag. */
  lemma PayloadIsSafe(seg: Segment)
    ensures var p := FormatText(seg);
            && OneLine(p)
            && |Tag(seg)| <= |p|
            && (forall i :: 0 <= i < |p| ==> (p[i] == '<' <==> Spoken(seg) && i == 0))
            && (forall i :: 0 <= i < |p| ==> (p[i] == '>' <==> Spoken(seg) && i == |Tag(seg)| - 1))
  {
    PayloadShape(seg);
    var text := CollapseNewlines(seg.text);
    CollapseIsSpaced(seg.text);
    EscapeIsPerCharacter(text);
    MappedIsPlain(text);
    if Spoken(seg) {
      var name := Spaced(seg.speaker.value);
      EscapeIsPerCharacter(name);
      MappedIsPlain(name);
      TaggedIsSafe(Mapped(name), Mapped(text));
    }
  }

  lemma TaggedIsSafe(name: string, text: string)
    requires Free(name, '<') && Free(name, '>') && OneLine(name)
    requires Free(text, '<') && Free(text, '>') && OneLine(text)
    ensures var p := "<v " + name + ">" + text;
            && OneLine(p)
            && (forall i :: 0 <= i < |p| ==> (p[i] == '<' <==> i == 0))
            && (forall i :: 0 <= i < |p| ==> (p[i] == '>' <==> i == |name| + 3))
  {}

  /** The voice, if any, and the text of a payload. */
  function ParsePayload(p: string): (Option<string>, string) {
    var i := IndexOf(p, '>');
    if StartsWith(p, "<v ") && 3 <= i < |p| then (Some(Decode(p[3..i])), Decode(p[i + 1..]))
    else (None, Decode(p))
  }

  lemma TaggedReadsBack(name: string, text: string)
    requires Free(name, '>')
    ensures ParsePayload("<v " + name + ">" + text) == (Some(Decode(name)), Decode(text))
  {
    var p := "<v " + name + ">" + text;
    assert p == ("<v " + name) + ['>'] + text;
    IndexAfter("<v " + name, '>', text);
    assert p[..3] == "<v " && p[3..|name| + 3] == name && p[|name| + 4..] == text;
  }

  lemma PlainIsUntagged(p: string)
    requires Free(p, '<')
    ensures ParsePayload("" + p) == (None, Decode(p))
  {
    assert "" + p == p;
    assert |p| >= 3 ==> p[..3][0] == p[0];
  }

  /** Reading a payload gives back the speaker and the text, up to their line breaks. */
  lemma PayloadReadsBack(seg: Segment)
    ensures ParsePayload(FormatText(seg))
         == (if Spoken(seg) then Some(Spaced(seg.speaker.value)) else None, CollapseNewlines(seg.text))
  {
    PayloadShape(seg);
    var text := CollapseNewlines(seg.text);
    EscapeRoundTrip(text);
    if Spoken(seg) {
      var name := Spaced(seg.speaker.value);
      EscapeRoundTrip(name);
      EscapeIsPerCharacter(name);
      MappedIsPlain(name);
      TaggedReadsBack(EscapeVttText(name), EscapeVttText(text));
    } else {
      EscapeIsPerCharacter(text);
      MappedIsPlain(text);
      PlainIsUntagged(Mapped(text));
    }
  }

  /** A speaker whose name ends in two dashes defeats the escaping: the dashes meet
      the closing bracket of the voice tag. */
  predicate DashedSpeaker(seg: Segment) { Spoken(seg) && EndsWith(seg.speaker.value, "--") }

  lemma TwoDashes(s: string)
    ensures EndsWith(s, "--") <==> EndsInDash(s) && EndsInDash(DropLast(s))
  {
    if |s| >= 2 { assert s[|s| - 2..] == [s[|s| - 2], s[|s| - 1]]; }
  }

  lemma SpacedKeepsDash(s: string)
    ensures EndsInDash(Spaced(s)) <==> EndsInDash(s)
    ensures EndsInDash(s) ==> DropLast(Spaced(s)) == Spaced(DropLast(s))
  {
    if s != [] {
      SpacedLast(s);
      if EndsInDash(s) { SpacedDash(s, DropLast(s)); }
    }
  }

  lemma SpacedDash(s: string, front: string)
    requires EndsInDash(s) && front == DropLast(s)
    ensures DropLast(Spaced(s)) == Spaced(front)
  {
    assert s == front + "-";
    SpacedConcat(front, "-");
    SpacedLine("-", "");
    LastOfSum(Spaced(front), "-");
  }

  lemma NameKeepsDash(s: string)
    ensures EndsInDash(Mapped(Spaced(s))) <==> EndsInDash(s)
    ensures EndsInDash(s) ==> DropLast(Mapped(Spaced(s))) == Mapped(Spaced(DropLast(s)))
  {
    SpacedKeepsDash(s);
    if Spaced(s) != [] { MappedLast(Spaced(s)); }
  }

  lemma NameKeepsDashes(s: string)
    ensures EndsWith(Mapped(Spaced(s)), "--") <==> EndsWith(s, "--")
  {
    TwoDashes(s);
    TwoDashes(Mapped(Spaced(s)));
    NameKeepsDash(s);
    NameKeepsDash(DropLast(s));
  }

  lemma TaggedArrow(name: string, text: string)
    requires Free(name, '>') && Free(text, '>') && name != []
    ensures HasArrow("<v " + name + ">" + text) <==> EndsWith(name, "--")
  {
    var p, k := "<v " + name + ">" + text, |name| + 3;
    assert forall i :: 0 <= i < |p| && p[i] == '>' ==> i == k;
    TwoDashes(name);
    if EndsWith(name, "--") {
      assert ArrowAt(p, k - 2);
    }
    if HasArrow(p) {
      var i :| 0 <= i < |p| && ArrowAt(p, i);
      assert i + 2 == k;
      assert p[k - 1] == name[|name| - 1];
    }
  }

  /** The mark of a timing line survives in a payload exactly when the speaker's name
      ends in two dashes. */
  lemma ArrowSurvivesExactlyWhen(seg: Segment)
    ensures HasArrow(FormatText(seg)) <==> DashedSpeaker(seg)
  {
    PayloadShape(seg);
    PayloadIsSafe(seg);
    if Spoken(seg) {
      var name, text := Spaced(seg.speaker.value), CollapseNewlines(seg.text);
      EscapeIsPerCharacter(name);
      EscapeIsPerCharacter(text);
      MappedIsPlain(name);
      MappedIsPlain(text);
      SpacedNonEmpty(seg.speaker.value);
      TaggedArrow(Mapped(name), Mapped(text));
      NameKeepsDashes(seg.speaker.value);
    }
  }

  /** One such payload. */
  lemma ArrowCanSurvive()
    ensures HasArrow(FormatText(Segment(0.0, 1.0, "hi", Some("a--"))))
  {
    var name := "a--";
    assert name[1..] == "--";
    ArrowSurvivesExactlyWhen(Segment(0.0, 1.0, "hi", Some(name)));
  }

  /* ---------------- whole files ---------------- */

  function Block(seg: Segment): (block: seq<string>)
    ensures |block| == 3
  {
    [TimingLine(seg, '.'), FormatText(seg), ""]
  }

  function Blocks(segs: seq<Segment>): (lines: seq<string>)
    ensures |lines| == 3 * |segs|
  {
    if segs == [] then [] else Block(segs[0]) + Blocks(segs[1..])
  }

  const HEADER: seq<string> := ["WEBVTT", ""]

  function Lines(segs: seq<Segment>): seq<string> { HEADER + Blocks(segs) }

  method Export(segs: seq<Segment>) returns (text: string)
    ensures text == Join("\n", Lines(segs))
  {
    var lines: seq<string> := ["WEBVTT", ""];
    assert segs[0..] == segs;
    for i := 0 to |segs|
      invariant lines + Blocks(segs[i..]) == Lines(segs)
    {
      OneMore(lines, segs, i);
      lines := AppendCue(lines, segs[i]);
    }
    assert lines + [] == lines;
    text := Join("\n", lines);
  }

  lemma OneMore(lines: seq<string>, segs: seq<Segment>, i: nat)
    requires i < |segs|
    ensures lines + Blocks(segs[i..]) == lines + Block(segs[i]) + Blocks(segs[i + 1..])
  {
    assert segs[i..][1..] == segs[i + 1..];
  }

  method AppendCue(lines: seq<string>, seg: Segment) returns (r: seq<string>)
    ensures r == lines + Block(seg)
  {
    var timing, payload := TimingLine(seg, '.'), FormatText(seg);
    r := lines + [timing];
    r := r + [payload];
    r := r + [""];
    Three(lines, timing, payload, "");
  }

  lemma Three(lines: seq<string>, a: string, b: string, c: string)
    ensures lines + [a] + [b] + [c] == lines + [a, b, c]
  {}

  datatype Cue = Cue(start: nat, end: nat, voice: Option<string>, text: string)

  function ParseCue(timing: string, payload: string, blank: string): Option<Cue> {
    var t, p := ParseTiming(timing, '.'), ParsePayload(payload);
    if t.Some? && blank == "" then Some(Cue(t.value.0, t.value.1, p.0, p.1)) else None
  }

  function ParseCues(lines: seq<string>): Option<seq<Cue>> {
    if lines == [] then Some([])
    else if |lines| < 3 then None
    else
      var cue, rest := ParseCue(lines[0], lines[1], lines[2]), ParseCues(lines[3..]);
      if cue.Some? && rest.Some? then Some([cue.value] + rest.value) else None
  }

  function Parse(text: string): Option<seq<Cue>> {
    var lines := Split(text, '\n');
    if |lines| >= 2 && lines[..2] == HEADER then ParseCues(lines[2..]) else None
  }

  function CueOf(seg: Segment): Cue {
    Cue(Millis(seg.start), Millis(seg.end), if Spoken(seg) then Some(Spaced(seg.speaker.value)) else None,
        CollapseNewlines(seg.text))
  }

  function Cues(segs: seq<Segment>): (cues: seq<Cue>)
    ensures |cues| == |segs| && forall k :: 0 <= k < |segs| ==> cues[k] == CueOf(segs[k])
  {
    if segs == [] then [] else [CueOf(segs[0])] + Cues(segs[1..])
  }

  lemma CueReadsBack(seg: Segment)
    ensures var b := Block(seg); ParseCue(b[0], b[1], b[2]) == Some(CueOf(seg))
  {
    TimingReadsBack(seg, '.');
    PayloadReadsBack(seg);
  }

  lemma ParseBlock(block: seq<string>, rest: seq<string>, cue: Cue, cues: seq<Cue>)
    requires |block| == 3 && ParseCue(block[0], block[1], block[2]) == Some(cue)
    requires ParseCues(rest) == Some(cues)
    ensures ParseCues(block + rest) == Some([cue] + cues)
  {
    assert (block + rest)[3..] == rest;
  }

  lemma {:induction false} CuesReadBack(segs: seq<Segment>)
    ensures ParseCues(Blocks(segs)) == Some(Cues(segs))
  {
    if segs != [] {
      CuesReadBack(segs[1..]);
      CueReadsBack(segs[0]);
      ParseBlock(Block(segs[0]), Blocks(segs[1..]), CueOf(segs[0]), Cues(segs[1..]));
    }
  }

  /** Which lines are expected to hold the arrow. */
  function Marks(segs: seq<Segment>): (marks: seq<bool>)
    ensures |marks| == 3 * |segs|
  {
    if segs == [] then [] else [true, DashedSpeaker(segs[0]), false] + Marks(segs[1..])
  }

  ghost predicate Match(lines: seq<string>, marks: seq<bool>) {
    |lines| == |marks| && forall j :: 0 <= j < |lines| ==> Free(lines[j], '\n') && (HasArrow(lines[j]) <==> marks[j])
  }

  lemma MatchConcat(a: seq<string>, b: seq<string>, m: seq<bool>, n: seq<bool>)
    requires Match(a, m) && Match(b, n)
    ensures Match(a + b, m + n)
  {}

  lemma BlockMatches(seg: Segment)
    ensures Match(Block(seg), [true, DashedSpeaker(seg), false])
  {
    TimingReadsBack(seg, '.');
    PayloadIsSafe(seg);
    ArrowSurvivesExactlyWhen(seg);
    ThreeMatch(TimingLine(seg, '.'), FormatText(seg), DashedSpeaker(seg));
  }

  lemma ThreeMatch(timing: string, payload: string, dashed: bool)
    requires Free(timing, '\n') && Free(payload, '\n')
    requires HasArrow(timing) && (HasArrow(payload) <==> dashed)
    ensures Match([timing, payload, ""], [true, dashed, false])
  {}

  lemma {:induction false} BlocksMatch(segs: seq<Segment>)
    ensures Match(Blocks(segs), Marks(segs))
  {
    if segs != [] {
      BlockMatches(segs[0]);
      BlocksMatch(segs[1..]);
      MatchConcat(Block(segs[0]), Blocks(segs[1..]), [true, DashedSpeaker(segs[0]), false], Marks(segs[1..]));
    }
  }

  lemma HeaderMatches()
    ensures Match(HEADER, [false, false])
  {}

  lemma LinesMatch(segs: seq<Segment>)
    ensures Match(Lines(segs), [false, false] + Marks(segs))
  {
    BlocksMatch(segs);
    HeaderMatches();
    MatchConcat(HEADER, Blocks(segs), [false, false], Marks(segs));
  }

  lemma {:induction false} MarkAt(segs: seq<Segment>, k: nat)
    requires k < |segs|
    ensures Marks(segs)[3 * k] && !Marks(segs)[3 * k + 2]
    ensures Marks(segs)[3 * k + 1] == DashedSpeaker(segs[k])
  {
    if k > 0 {
      MarkAt(segs[1..], k - 1);
      assert forall j :: 3 <= j < |Marks(segs)| ==> Marks(segs)[j] == Marks(segs[1..])[j - 3];
    }
  }

  lemma LinesSplit(segs: seq<Segment>)
    ensures Split(Join("\n", Lines(segs)), '\n') == Lines(segs)
  {
    LinesMatch(segs);
    SplitUndoesJoin(Lines(segs), '\n');
  }

  /** For every transcript the parser recovers both times, the voice and the text. */
  lemma RoundTrip(segs: seq<Segment>)
    ensures Parse(Join("\n", Lines(segs))) == Some(Cues(segs))
  {
    LinesSplit(segs);
    CuesReadBack(segs);
    assert Lines(segs)[..2] == HEADER && Lines(segs)[2..] == Blocks(segs);
  }

  /** A file opens with the WEBVTT header and an empty line; each cue that follows is its
      timing, its payload and an empty line. */
  lemma FileShape(segs: seq<Segment>)
    ensures var lines := Split(Join("\n", Lines(segs)), '\n');
            && |lines| == 2 + 3 * |segs| && lines[0] == "WEBVTT" && lines[1] == ""
            && forall k :: 0 <= k < |segs| ==>
                 lines[2 + 3 * k] == TimingLine(segs[k], '.') && lines[3 + 3 * k] == FormatText(segs[k])
                 && lines[4 + 3 * k] == ""
  {
    LinesSplit(segs);
    forall k | 0 <= k < |segs|
      ensures Lines(segs)[2 + 3 * k] == TimingLine(segs[k], '.') && Lines(segs)[3 + 3 * k] == FormatText(segs[k])
              && Lines(segs)[4 + 3 * k] == ""
    {
      BlockAt(segs, k);
      AfterHeader(Blocks(segs), Block(segs[k]), 3 * k);
    }
  }

  lemma AfterHeader(lines: seq<string>, block: seq<string>, i: nat)
    requires |block| == 3 && i + 3 <= |lines| && lines[i..i + 3] == block
    ensures (HEADER + lines)[2 + i] == block[0] && (HEADER + lines)[3 + i] == block[1]
    ensures (HEADER + lines)[4 + i] == block[2]
  {
    assert lines[i..i + 3][0] == lines[i] && lines[i..i + 3][1] == lines[i + 1] && lines[i..i + 3][2] == lines[i + 2];
  }

  lemma {:induction false} BlockAt(segs: seq<Segment>, k: nat)
    requires k < |segs|
    ensures Blocks(segs)[3 * k..3 * k + 3] == Block(segs[k])
  {
    if k == 0 {
      FirstSlice(Block(segs[0]), Blocks(segs[1..]));
    } else {
      BlockAt(segs[1..], k - 1);
      LaterSlice(Block(segs[0]), Blocks(segs[1..]), 3 * (k - 1));
    }
  }

  lemma FirstSlice(block: seq<string>, rest: seq<string>)
    requires |block| == 3
    ensures (block + rest)[0..3] == block
  {}

  lemma LaterSlice(block: seq<string>, rest: seq<string>, i: nat)
    requires |block| == 3 && i + 3 <= |rest|
    ensures (block + rest)[i + 3..i + 6] == rest[i..i + 3]
  {}

  /** Line j of a file is the timing line of a cue. */
  predicate IsTiming(j: int) { j >= 2 && (j - 2) % 3 == 0 }

  ghost predicate OnlyTimingLines(lines: seq<string>) {
    forall j :: 0 <= j < |lines| ==> (HasArrow(lines[j]) <==> IsTiming(j))
  }

  predicate OnlyThirds(marks: seq<bool>) {
    forall j :: 0 <= j < |marks| ==> (marks[j] <==> IsTiming(j))
  }

  predicate NoDashedSpeaker(segs: seq<Segment>) {
    forall k :: 0 <= k < |segs| ==> !DashedSpeaker(segs[k])
  }

  lemma MatchingLines(lines: seq<string>, marks: seq<bool>)
    requires Match(lines, marks)
    ensures OnlyThirds(marks) ==> OnlyTimingLines(lines)
    ensures OnlyTimingLines(lines) ==> OnlyThirds(marks)
  {
    if OnlyThirds(marks) {
      forall j | 0 <= j < |lines| ensures HasArrow(lines[j]) <==> IsTiming(j) {
        assert marks[j] <==> IsTiming(j);
      }
    }
    if OnlyTimingLines(lines) {
      forall j | 0 <= j < |marks| ensures marks[j] <==> IsTiming(j) {
        assert HasArrow(lines[j]) <==> IsTiming(j);
      }
    }
  }

  lemma Thirds(j: nat) returns (k: nat, r: nat)
    ensures j == 3 * k + r && r < 3 && (r == 0 <==> j % 3 == 0)
  {
    k, r := j / 3, j % 3;
  }

  lemma UndashedMark(segs: seq<Segment>, k: nat, r: nat)
    requires NoDashedSpeaker(segs) && k < |segs| && r < 3
    ensures 3 * k + r < |Marks(segs)| && (Marks(segs)[3 * k + r] <==> r == 0)
  {
    var marks := Marks(segs);
    MarkAt(segs, k);
    assert !DashedSpeaker(segs[k]);
    assert marks[3 * k] && !marks[3 * k + 1] && !marks[3 * k + 2];
    if r == 0 {
      assert marks[3 * k + r] == marks[3 * k];
    } else if r == 1 {
      assert marks[3 * k + r] == marks[3 * k + 1];
    } else {
      assert marks[3 * k + r] == marks[3 * k + 2];
    }
  }

  lemma UndashedMarksAreThirds(segs: seq<Segment>)
    requires NoDashedSpeaker(segs)
    ensures OnlyThirds([false, false] + Marks(segs))
  {
    var marks := [false, false] + Marks(segs);
    forall j | 0 <= j < |marks| ensures marks[j] <==> IsTiming(j) {
      if j >= 2 {
        var k, r := Thirds(j - 2);
        UndashedMark(segs, k, r);
      }
    }
  }

  lemma ThirdsAreUndashed(segs: seq<Segment>)
    requires OnlyThirds([false, false] + Marks(segs))
    ensures NoDashedSpeaker(segs)
  {
    var marks := [false, false] + Marks(segs);
    forall k | 0 <= k < |segs| ensures !DashedSpeaker(segs[k]) {
      MarkAt(segs, k);
      assert marks[3 * k + 3] == DashedSpeaker(segs[k]);
      assert !IsTiming(3 * k + 3);
    }
  }

  /** Exactly the timing lines of a file hold the arrow if and only if no speaker's
      name ends in two dashes. */
  lemma OnlyTimingLinesExactlyWhen(segs: seq<Segment>)
    ensures |Split(Join("\n", Lines(segs)), '\n')| == 2 + 3 * |segs|
    ensures OnlyTimingLines(Split(Join("\n", Lines(segs)), '\n')) <==> NoDashedSpeaker(segs)
  {
    LinesSplit(segs);
    LinesMatch(segs);
    MatchingLines(Lines(segs), [false, false] + Marks(segs));
    if NoDashedSpeaker(segs) { UndashedMarksAreThirds(segs); }
    if OnlyThirds([false, false] + Marks(segs)) { ThirdsAreUndashed(segs); }
  }
}
