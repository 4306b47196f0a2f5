/** The text and time helpers shared by the subtitle exporters. */
module ExportUtils {
  import opened Common
  import opened Text

  /** An absent and an empty speaker are the same to the exporters. */
  predicate Spoken(seg: Segment) { seg.speaker.Some? && seg.speaker.value != [] }

  /* ---------------- time stamps ---------------- */

  function Mod(x: real, y: real): real
    requires y > 0.0
  {
    x - y * (x / y).Floor as real
  }

  function Clamp(seconds: real): real { if seconds > 0.0 then seconds else 0.0 }

  /** Whole milliseconds since the start, negative times counted as zero. */
  function Millis(seconds: real): nat {
    (1000.0 * Clamp(seconds)).Floor
  }

  function Hours(t: real): int { (t / 3600.0).Floor }
  function Minutes(t: real): int { (Mod(t, 3600.0) / 60.0).Floor }
  function Seconds(t: real): int { Mod(t, 60.0).Floor }
  function Fraction(t: real): int { (Mod(t, 1.0) * 1000.0).Floor }

  lemma WholeSeconds(t: real)
    requires t >= 0.0
    ensures t.Floor >= 0
    ensures Hours(t) == t.Floor / 3600
    ensures Minutes(t) == t.Floor % 3600 / 60
    ensures Seconds(t) == t.Floor % 60
  {
    var n := t.Floor;
    var h := n / 3600;
    assert h as real * 3600.0 <= t < (h + 1) as real * 3600.0;
    assert Hours(t) == h;
    var r := Mod(t, 3600.0);
    assert r == t - (3600 * h) as real;
    assert r.Floor == n % 3600;
    var m := r.Floor / 60;
    assert m as real * 60.0 <= r < (m + 1) as real * 60.0;
    var q := n / 60;
    assert q as real * 60.0 <= t < (q + 1) as real * 60.0;
    assert (t / 60.0).Floor == q;
    assert Mod(t, 60.0) == t - (60 * q) as real;
  }

  lemma Sexagesimal(n: nat)
    ensures (n / 3600 * 60 + n % 3600 / 60) * 60 + n % 60 == n
    ensures n % 3600 / 60 < 60
  {
    var m := n / 60;
    assert n / 3600 == m / 60 && n % 3600 / 60 == m % 60;
  }

  lemma FractionOfSecond(t: real)
    requires t >= 0.0
    ensures 0 <= Fraction(t) < 1000 && Millis(t) == 1000 * t.Floor + Fraction(t)
  {
    var n := t.Floor;
    assert (t / 1.0).Floor == n;
    var f := t - n as real;
    assert Mod(t, 1.0) == f;
    assert 1000.0 * t == (1000 * n) as real + 1000.0 * f;
  }

  /** The four fields are in range and add up to the milliseconds. */
  lemma FieldsAddUp(t: real)
    requires t >= 0.0
    ensures Hours(t) >= 0 && 0 <= Minutes(t) < 60 && 0 <= Seconds(t) < 60 && 0 <= Fraction(t) < 1000
    ensures ((Hours(t) * 60 + Minutes(t)) * 60 + Seconds(t)) * 1000 + Fraction(t) == Millis(t)
  {
    WholeSeconds(t);
    Sexagesimal(t.Floor);
    FractionOfSecond(t);
  }

  function FormatTimestamp(seconds: real, separator: char): (s: string)
    ensures forall i :: 0 <= i < |s| ==> IsDigit(s[i]) || s[i] == ':' || s[i] == separator
  {
    var t := Clamp(seconds);
    FieldsAddUp(t);
    Padded(Hours(t), 2) + ":" + Padded(Minutes(t), 2) + ":" + Padded(Seconds(t), 2)
    + [separator] + Padded(Fraction(t), 3)
  }

  /** Hours of any length, then two, two and three digits. */
  function ParseTimestamp(s: string, separator: char): Option<nat> {
    var k := |s|;
    if k < 11 || s[k - 10] != ':' || s[k - 7] != ':' || s[k - 4] != separator then None
    else
      var h, m := ParseNumber(s[..k - 10]), ParseNumber(s[k - 9..k - 7]);
      var sec, ms := ParseNumber(s[k - 6..k - 4]), ParseNumber(s[k - 3..]);
      if h.Some? && m.Some? && sec.Some? && ms.Some? then
        Some(((h.value * 60 + m.value) * 60 + sec.value) * 1000 + ms.value)
      else None
  }

  lemma PiecesReadBack(h: string, m: string, s: string, ms: string, separator: char)
    requires |h| >= 2 && |m| == |s| == 2 && |ms| == 3
    requires ParseNumber(h).Some? && ParseNumber(m).Some? && ParseNumber(s).Some? && ParseNumber(ms).Some?
    ensures ParseTimestamp(h + ":" + m + ":" + s + [separator] + ms, separator)
         == Some(((ParseNumber(h).value * 60 + ParseNumber(m).value) * 60 + ParseNumber(s).value) * 1000
                 + ParseNumber(ms).value)
  {
    var r := h + ":" + m + ":" + s + [separator] + ms;
    var k := |r|;
    assert k == |h| + 10;
    assert r[k - 10] == ':' && r[k - 7] == ':' && r[k - 4] == separator;
    assert r[..k - 10] == h;
    assert r[k - 9..k - 7] == m;
    assert r[k - 6..k - 4] == s;
    assert r[k - 3..] == ms;
  }

  lemma FieldsReadBack(h: nat, m: nat, s: nat, ms: nat, separator: char)
    requires m < 100 && s < 100 && ms < 1000
    ensures ParseTimestamp(Padded(h, 2) + ":" + Padded(m, 2) + ":" + Padded(s, 2) + [separator] + Padded(ms, 3),
                           separator)
         == Some(((h * 60 + m) * 60 + s) * 1000 + ms)
  {
    PaddedReadsBack(h, 2);
    TwoDigits(m);
    TwoDigits(s);
    ThreeDigits(ms);
    PiecesReadBack(Padded(h, 2), Padded(m, 2), Padded(s, 2), Padded(ms, 3), separator);
  }

  lemma TwoDigits(n: nat)
    requires n < 100
    ensures |Padded(n, 2)| == 2 && ParseNumber(Padded(n, 2)) == Some(n)
  {
    PaddedWidth(n);
    PaddedReadsBack(n, 2);
  }

  lemma ThreeDigits(n: nat)
    requires n < 1000
    ensures |Padded(n, 3)| == 3 && ParseNumber(Padded(n, 3)) == Some(n)
  {
    PaddedWidth(n);
    PaddedReadsBack(n, 3);
  }

  lemma TimestampReadsBack(seconds: real, separator: char)
    ensures ParseTimestamp(FormatTimestamp(seconds, separator), separator) == Some(Millis(seconds))
    ensures Millis(seconds) == if seconds <= 0.0 then 0 else (1000.0 * seconds).Floor
  {
    var t := Clamp(seconds);
    FieldsAddUp(t);
    FieldsReadBack(Hours(t), Minutes(t), Seconds(t), Fraction(t), separator);
  }

  const ARROW := " --> "

  function TimingLine(seg: Segment, separator: char): string {
    FormatTimestamp(seg.start, separator) + ARROW + FormatTimestamp(seg.end, separator)
  }

  function ParseTiming(line: string, separator: char): Option<(nat, nat)> {
    var i := IndexOf(line, ' ');
    if !StartsWith(line[i..], ARROW) then None
    else
      var a, b := ParseTimestamp(line[..i], separator), ParseTimestamp(line[i + 5..], separator);
      if a.Some? && b.Some? then Some((a.value, b.value)) else None
  }

  lemma TwoTimesReadBack(a: string, b: string, separator: char)
    requires Free(a, ' ')
    requires ParseTimestamp(a, separator).Some? && ParseTimestamp(b, separator).Some?
    ensures ParseTiming(a + ARROW + b, separator)
         == Some((ParseTimestamp(a, separator).value, ParseTimestamp(b, separator).value))
  {
    var line := a + ARROW + b;
    assert line == a + [' '] + ("--> " + b);
    IndexAfter(a, ' ', "--> " + b);
    assert line[..|a|] == a;
    assert line[|a|..] == ARROW + b;
    assert (ARROW + b)[..5] == ARROW;
    assert line[|a| + 5..] == b;
  }

  lemma ArrowBetween(a: string, b: string)
    ensures HasArrow(a + ARROW + b)
    ensures Free(a, '\n') && Free(b, '\n') ==> Free(a + ARROW + b, '\n')
  {
    assert ArrowAt(a + ARROW + b, |a| + 1);
  }

  lemma TimestampIsOneWord(seconds: real, separator: char)
    requires separator == ',' || separator == '.'
    ensures Free(FormatTimestamp(seconds, separator), ' ')
    ensures Free(FormatTimestamp(seconds, separator), '\n')
  {}

  /** A timing line gives back both times, holds the arrow and no line break. */
  lemma TimingReadsBack(seg: Segment, separator: char)
    requires separator == ',' || separator == '.'
    ensures ParseTiming(TimingLine(seg, separator), separator) == Some((Millis(seg.start), Millis(seg.end)))
    ensures HasArrow(TimingLine(seg, separator)) && Free(TimingLine(seg, separator), '\n')
  {
    var start, end := seg.start, seg.end;
    TimestampReadsBack(start, separator);
    TimestampReadsBack(end, separator);
    TimestampIsOneWord(start, separator);
    TimestampIsOneWord(end, separator);
    var a := FormatTimestamp(start, separator);
    var b := FormatTimestamp(end, separator);
    TwoTimesReadBack(a, b, separator);
    ArrowBetween(a, b);
    assert TimingLine(seg, separator) == a + ARROW + b;
  }

  /* ---------------- line breaks ---------------- */

  predicate IsBreak(c: char) {
    || '\U{0a}' <= c <= '\U{0d}' || '\U{1c}' <= c <= '\U{1e}'
    || c == '\U{85}' || c == '\U{2028}' || c == '\U{2029}'
  }

  predicate OneLine(s: string) { forall i :: 0 <= i < |s| ==> !IsBreak(s[i]) }

  /** How many characters the break at the front of s takes: two for CR LF. */
  function BreakLength(s: string): (n: nat)
    requires s != []
    ensures 1 <= n <= |s|
  {
    if StartsWith(s, "\r\n") then 2 else 1
  }

  /** The first break, or |s|. */
  function LineEnd(s: string): (i: nat)
    ensures i <= |s| && OneLine(s[..i]) && (i < |s| ==> IsBreak(s[i]))
  {
    if s == [] || IsBreak(s[0]) then 0
    else
      var i := 1 + LineEnd(s[1..]);
      assert s[..i] == [s[0]] + s[1..][..i - 1];
      i
  }

  /** The text after the first line and its break. */
  function NextLines(s: string): (rest: string)
    requires LineEnd(s) < |s|
    ensures |rest| < |s|
  {
    var tail := s[LineEnd(s)..];
    tail[BreakLength(tail)..]
  }

  /** The lines of s without their breaks; a break at the very end opens no line. */
  function SplitLines(s: string): seq<string>
    decreases |s|
  {
    if s == [] then []
    else if LineEnd(s) == |s| then [s]
    else if NextLines(s) == [] then [s[..LineEnd(s)]]
    else [s[..LineEnd(s)]] + SplitLines(NextLines(s))
  }

  function CollapseNewlines(s: string): string { Join(" ", SplitLines(s)) }

  /** Every line break, also a final one, becomes one space; nothing else changes. */
  function Spaced(s: string): (r: string)
    ensures OneLine(r)
    decreases |s|
  {
    if s == [] then []
    else if IsBreak(s[0]) then " " + Spaced(s[BreakLength(s)..])
    else [s[0]] + Spaced(s[1..])
  }

  function DropLast(s: string): string { if s == [] then [] else s[..|s| - 1] }

  predicate EndsInBreak(s: string) { s != [] && IsBreak(s[|s| - 1]) }

  lemma SpacedFirstLine(s: string)
    requires LineEnd(s) < |s|
    ensures Spaced(s) == s[..LineEnd(s)] + " " + Spaced(NextLines(s))
  {
    SpacedAt(s, LineEnd(s));
  }

  lemma SpacedAt(s: string, i: nat)
    requires i < |s| && OneLine(s[..i]) && IsBreak(s[i])
    ensures Spaced(s) == s[..i] + " " + Spaced(s[i..][BreakLength(s[i..])..])
  {
    SpacedLineThenBreak(s, s[..i], s[i..]);
  }

  lemma SpacedLineThenBreak(s: string, line: string, tail: string)
    requires s == line + tail && OneLine(line) && tail != [] && IsBreak(tail[0])
    ensures Spaced(s) == line + " " + Spaced(tail[BreakLength(tail)..])
  {
    SpacedLine(line, tail);
    SpacedBreak(tail);
    Glue(line, " ", Spaced(tail[BreakLength(tail)..]));
  }

  lemma SpacedBreak(s: string)
    requires s != [] && IsBreak(s[0])
    ensures Spaced(s) == " " + Spaced(s[BreakLength(s)..])
  {}

  lemma Glue(a: string, b: string, c: string)
    ensures a + (b + c) == a + b + c
  {}

  lemma LastOfNextLines(s: string)
    requires LineEnd(s) < |s|
    ensures if NextLines(s) == [] then IsBreak(s[|s| - 1])
            else NextLines(s)[|NextLines(s)| - 1] == s[|s| - 1]
  {
    var tail := s[LineEnd(s)..];
    if NextLines(s) == [] && |tail| == 2 {
      assert tail[1] == tail[..2][1];
      assert tail[..2] == "\r\n";
    }
  }

  lemma CollapseFirstLine(s: string)
    requires LineEnd(s) < |s|
    ensures CollapseNewlines(s) == if NextLines(s) == [] then s[..LineEnd(s)]
                                   else s[..LineEnd(s)] + " " + CollapseNewlines(NextLines(s))
  {
    if NextLines(s) != [] {
      JoinCons(s[..LineEnd(s)], SplitLines(NextLines(s)));
    }
  }

  lemma JoinCons(first: string, rest: seq<string>)
    requires rest != []
    ensures Join(" ", [first] + rest) == first + " " + Join(" ", rest)
  {
    assert ([first] + rest)[1..] == rest;
  }

  lemma {:induction false} DropLastOfSum(a: string, b: string)
    requires b != []
    ensures DropLast(a + b) == a + DropLast(b)
  {}

  /** Every line break becomes one space, except that a final one vanishes. */
  function Chomped(s: string): (r: string)
    ensures OneLine(r)
  {
    if EndsInBreak(s) then DropLast(Spaced(s)) else Spaced(s)
  }

  lemma ChompedFirstLine(s: string)
    requires LineEnd(s) < |s|
    ensures Chomped(s) == if NextLines(s) == [] then s[..LineEnd(s)]
                          else s[..LineEnd(s)] + " " + Chomped(NextLines(s))
  {
    SpacedFirstLine(s);
    LastOfNextLines(s);
    ChompedSum(s[..LineEnd(s)], Spaced(NextLines(s)));
    if NextLines(s) != [] { SpacedNonEmpty(NextLines(s)); }
  }

  lemma ChompedSum(line: string, spaced: string)
    ensures if spaced == [] then DropLast(line + " " + spaced) == line
            else DropLast(line + " " + spaced) == line + " " + DropLast(spaced)
  {}

  /** Joining the lines by spaces amounts to replacing the breaks. */
  lemma {:induction false} CollapseIsSpaced(s: string)
    ensures CollapseNewlines(s) == Chomped(s)
    decreases |s|
  {
    if LineEnd(s) == |s| {
      assert s[..LineEnd(s)] == s;
      SpacedLine(s, []);
    } else {
      CollapseFirstLine(s);
      ChompedFirstLine(s);
      if NextLines(s) != [] { CollapseIsSpaced(NextLines(s)); }
    }
  }

  /** The line boundaries, one by one. */
  lemma BreaksAre(c: char)
    ensures IsBreak(c) <==> c in {'\n', '\r', '\U{0b}', '\U{0c}', '\U{1c}', '\U{1d}', '\U{1e}',
                                  '\U{85}', '\U{2028}', '\U{2029}'}
  {}

  /** One boundary: CR LF, or a single character that is not the first half of one. */
  predicate Boundary(brk: string, next: string) {
    brk == "\r\n" || (|brk| == 1 && IsBreak(brk[0]) && (brk == "\r" && next != [] ==> next[0] != '\n'))
  }

  lemma LineEndsThere(a: string, rest: string)
    requires OneLine(a) && (rest != [] ==> IsBreak(rest[0]))
    ensures LineEnd(a + rest) == |a|
  {
    var s, i := a + rest, LineEnd(a + rest);
    assert forall j :: 0 <= j < |a| ==> s[j] == a[j];
    assert forall j :: 0 <= j < i ==> s[j] == s[..i][j];
    assert rest != [] ==> s[|a|] == rest[0];
  }

  lemma BoundaryLength(brk: string, b: string)
    requires Boundary(brk, b)
    ensures BreakLength(brk + b) == |brk| && (brk + b)[|brk|..] == b
  {
    var s := brk + b;
    if |s| >= 2 { assert s[..2] == [s[0], s[1]]; }
  }

  /** Collapsing, line by line: a boundary becomes one space, or nothing at the very end;
      a line without boundaries is not touched. */
  lemma CollapseLine(a: string, brk: string, b: string)
    requires OneLine(a) && Boundary(brk, b)
    ensures CollapseNewlines(a) == a
    ensures CollapseNewlines(a + brk + b) == if b == [] then a else a + " " + CollapseNewlines(b)
  {
    var tail := brk + b;
    var s := a + tail;
    assert a + brk + b == s && s[|a|..] == tail && s[..|a|] == a;
    LineEndsThere(a, tail);
    BoundaryLength(brk, b);
    CollapseFirstLine(s);
    CollapseOneLine(a);
  }

  lemma CollapseOneLine(a: string)
    requires OneLine(a)
    ensures CollapseNewlines(a) == a
  {
    LineEndsThere(a, "");
    assert a + "" == a;
  }

  lemma SpacedNonEmpty(s: string)
    requires s != []
    ensures Spaced(s) != []
  {}

  lemma SpacedPlain(c: char, rest: string)
    requires !IsBreak(c)
    ensures Spaced([c] + rest) == [c] + Spaced(rest)
  {
    assert ([c] + rest)[1..] == rest;
  }

  lemma {:induction false} SpacedLine(line: string, rest: string)
    requires OneLine(line)
    ensures Spaced(line + rest) == line + Spaced(rest)
    ensures Spaced(line) == line
  {
    if line != [] {
      SpacedLine(line[1..], rest);
      SpacedPlain(line[0], line[1..] + rest);
      assert line + rest == [line[0]] + (line[1..] + rest);
    } else {
      assert line + rest == rest;
    }
  }

  function Front(s: string): (k: nat)
    requires s != []
    ensures 1 <= k <= |s|
  {
    if IsBreak(s[0]) then BreakLength(s) else 1
  }

  lemma SpacedStep(s: string)
    requires s != []
    ensures Spaced(s) == [if IsBreak(s[0]) then ' ' else s[0]] + Spaced(s[Front(s)..])
  {}

  /** Spacing works piece by piece when no CR LF straddles the cut. */
  lemma {:induction false} SpacedConcat(a: string, b: string)
    requires !Straddles(a, b)
    ensures Spaced(a + b) == Spaced(a) + Spaced(b)
    decreases |a|
  {
    if a == [] {
      assert a + b == b;
    } else {
      var k := Front(a);
      SpacedConcat(a[k..], b);
      FrontOfConcat(a, b);
      SpacedStep(a);
      SpacedStep(a + b);
      Glue([if IsBreak(a[0]) then ' ' else a[0]], Spaced(a[k..]), Spaced(b));
    }
  }

  predicate Straddles(a: string, b: string) {
    a != [] && b != [] && a[|a| - 1] == '\r' && b[0] == '\n'
  }

  lemma FrontOfConcat(a: string, b: string)
    requires a != [] && !Straddles(a, b)
    ensures Front(a + b) == Front(a) && (a + b)[0] == a[0] && (a + b)[Front(a)..] == a[Front(a)..] + b
  {
    BreakLengthConcat(a, b);
  }

  lemma BreakLengthConcat(a: string, b: string)
    requires a != [] && !Straddles(a, b)
    ensures BreakLength(a + b) == BreakLength(a)
  {
    var c := a + b;
    if |c| >= 2 { assert c[..2] == [c[0], c[1]]; }
    if |a| >= 2 { assert a[..2] == [a[0], a[1]]; }
  }

  /** The last character is kept, or is the space for the last break. */
  lemma {:induction false} SpacedLast(s: string)
    requires s != []
    ensures Spaced(s) != [] && Spaced(s)[|Spaced(s)| - 1] == if EndsInBreak(s) then ' ' else s[|s| - 1]
    decreases |s|
  {
    SpacedStep(s);
    var rest := s[Front(s)..];
    if rest != [] {
      SpacedLast(rest);
      assert rest[|rest| - 1] == s[|s| - 1];
    }
  }

  lemma {:induction false} SpacedFirst(s: string)
    requires s != []
    ensures Spaced(s) != [] && Spaced(s)[0] == if IsBreak(s[0]) then ' ' else s[0]
    ensures !IsBreak(s[0]) ==> Spaced(s)[1..] == Spaced(s[1..])
  {}

  /* ---------------- arrows ---------------- */

  predicate ArrowAt(s: string, i: int) {
    0 <= i && i + 3 <= |s| && s[i] == '-' && s[i + 1] == '-' && s[i + 2] == '>'
  }

  /** s holds the mark "-->" of a timing line. */
  predicate HasArrow(s: string) { exists i :: 0 <= i < |s| && ArrowAt(s, i) }

  /** replace("-->", "→"), scanning from the left. */
  function NeutralizeSrtArrows(s: string): string {
    if s == [] then []
    else if ArrowAt(s, 0) then "\U{2192}" + NeutralizeSrtArrows(s[3..])
    else [s[0]] + NeutralizeSrtArrows(s[1..])
  }

  lemma NeutralizeFirst(s: string)
    requires NeutralizeSrtArrows(s) != [] && (NeutralizeSrtArrows(s)[0] == '-' || NeutralizeSrtArrows(s)[0] == '>')
    ensures s != [] && s[0] == NeutralizeSrtArrows(s)[0]
    ensures NeutralizeSrtArrows(s)[1..] == NeutralizeSrtArrows(s[1..])
  {}

  lemma NeutralizeFront(s: string)
    ensures !ArrowAt(NeutralizeSrtArrows(s), 0)
  {
    var r := NeutralizeSrtArrows(s);
    if |r| >= 3 && r[0] == '-' && r[1] == '-' && r[2] == '>' {
      NeutralizeFirst(s);
      NeutralizeFirst(s[1..]);
      NeutralizeFirst(s[2..]);
      assert false;
    }
  }

  /** No arrow is left, and a text without one is not touched. */
  lemma {:induction false} NeutralizedHasNoArrow(s: string)
    ensures !HasArrow(NeutralizeSrtArrows(s))
    ensures !HasArrow(s) ==> NeutralizeSrtArrows(s) == s
  {
    var r := NeutralizeSrtArrows(s);
    if s != [] {
      var k := if ArrowAt(s, 0) then 3 else 1;
      NeutralizedHasNoArrow(s[k..]);
      assert r[1..] == NeutralizeSrtArrows(s[k..]);
      forall i | 0 <= i < |r| ensures !ArrowAt(r, i) {
        if i > 0 {
          assert ArrowAt(r, i) ==> ArrowAt(r[1..], i - 1);
        } else {
          NeutralizeFront(s);
        }
      }
      if !HasArrow(s) {
        assert !ArrowAt(s, 0);
        forall i | 0 <= i < |s[1..]| ensures !ArrowAt(s[1..], i) {
          assert !ArrowAt(s, i + 1);
        }
      }
    }
  }

  /** The text between the arrows. */
  function Pieces(s: string): (pieces: seq<string>)
    ensures pieces != []
  {
    if s == [] then [""]
    else if ArrowAt(s, 0) then [""] + Pieces(s[3..])
    else
      var rest := Pieces(s[1..]);
      [[s[0]] + rest[0]] + rest[1..]
  }

  lemma JoinGrowsFirst(sep: string, c: char, pieces: seq<string>)
    requires pieces != []
    ensures Join(sep, [[c] + pieces[0]] + pieces[1..]) == [c] + Join(sep, pieces)
  {
    var grown := [[c] + pieces[0]] + pieces[1..];
    assert grown[1..] == pieces[1..];
    if |pieces| > 1 { assert [c] + (pieces[0] + sep + Join(sep, pieces[1..])) == Join(sep, grown); }
  }

  lemma JoinStartsEmpty(sep: string, pieces: seq<string>)
    requires pieces != []
    ensures Join(sep, [""] + pieces) == sep + Join(sep, pieces)
  {
    assert ([""] + pieces)[1..] == pieces;
    assert "" + sep + Join(sep, pieces) == sep + Join(sep, pieces);
  }

  /** Cutting at the arrows loses nothing, and neutralising puts "→" in their place. */
  lemma {:induction false} NeutralizedIsJoined(s: string)
    ensures Join("-->", Pieces(s)) == s
    ensures NeutralizeSrtArrows(s) == Join("\U{2192}", Pieces(s))
  {
    if s != [] {
      if ArrowAt(s, 0) {
        NeutralizedIsJoined(s[3..]);
        JoinStartsEmpty("-->", Pieces(s[3..]));
        JoinStartsEmpty("\U{2192}", Pieces(s[3..]));
        assert s == "-->" + s[3..];
      } else {
        NeutralizedIsJoined(s[1..]);
        JoinGrowsFirst("-->", s[0], Pieces(s[1..]));
        JoinGrowsFirst("\U{2192}", s[0], Pieces(s[1..]));
        assert s == [s[0]] + s[1..];
      }
    }
  }

  lemma {:induction false} FirstPieceIsPrefix(s: string)
    ensures Pieces(s)[0] <= s && !HasArrow(Pieces(s)[0])
  {
    if s != [] && !ArrowAt(s, 0) {
      FirstPieceIsPrefix(s[1..]);
      var rest := Pieces(s[1..])[0];
      var piece := Pieces(s)[0];
      assert piece == [s[0]] + rest && s == [s[0]] + s[1..];
      forall i | 0 <= i < |piece| ensures !ArrowAt(piece, i) {
        if i > 0 {
          assert ArrowAt(piece, i) ==> ArrowAt(rest, i - 1);
        } else {
          assert ArrowAt(piece, 0) ==> ArrowAt(s, 0);
        }
      }
    }
  }

  /** No piece holds an arrow, so the cuts are at all of them. */
  lemma {:induction false} PiecesHoldNoArrow(s: string)
    ensures forall k :: 0 <= k < |Pieces(s)| ==> !HasArrow(Pieces(s)[k])
  {
    FirstPieceIsPrefix(s);
    if s != [] {
      PiecesHoldNoArrow(s[if ArrowAt(s, 0) then 3 else 1..]);
    }
  }

  /** Spacing out line breaks neither makes nor breaks an arrow. */
  lemma {:induction false} SpacedArrow(s: string, i: int)
    requires ArrowAt(Spaced(s), i)
    ensures HasArrow(s)
    decreases |s|
  {
    var r := Spaced(s);
    var k := if IsBreak(s[0]) then BreakLength(s) else 1;
    assert r[1..] == Spaced(s[k..]);
    if i > 0 {
      assert ArrowAt(r[1..], i - 1);
      SpacedArrow(s[k..], i - 1);
      var j :| 0 <= j < |s[k..]| && ArrowAt(s[k..], j);
      assert ArrowAt(s, j + k);
    } else {
      SpacedFirst(s);
      SpacedFirst(s[1..]);
      SpacedFirst(s[2..]);
      assert ArrowAt(s, 0);
    }
  }

  /** What an SRT cue line may hold: one line without the arrow. */
  lemma SanitisedIsSafe(s: string)
    ensures OneLine(CollapseNewlines(NeutralizeSrtArrows(s)))
    ensures !HasArrow(CollapseNewlines(NeutralizeSrtArrows(s)))
  {
    var t := NeutralizeSrtArrows(s);
    var r := CollapseNewlines(t);
    NeutralizedHasNoArrow(s);
    CollapseIsSpaced(t);
    if HasArrow(r) {
      var i :| 0 <= i < |r| && ArrowAt(r, i);
      assert ArrowAt(Spaced(t), i);
      SpacedArrow(t, i);
    }
  }
}
