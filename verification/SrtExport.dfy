/** The SRT exporter, and a parser that undoes it. */
module SrtExport {
  import opened Common
  import opened Text
  import opened ExportUtils

  function FormatText(seg: Segment): string {
    CollapseNewlines(NeutralizeSrtArrows((if Spoken(seg) then "[" + seg.speaker.value + "] " else "") + seg.text))
  }

  /** The four lines of segment i. */
  function Block(seg: Segment, i: nat): (block: seq<string>)
    ensures |block| == 4
  {
    [Decimal(i + 1), TimingLine(seg, ','), FormatText(seg), ""]
  }

  function Blocks(segs: seq<Segment>): (blocks: seq<seq<string>>)
    ensures |blocks| == |segs|
    ensures forall i :: 0 <= i < |segs| ==> blocks[i] == Block(segs[i], i)
  {
    seq(|segs|, i requires 0 <= i < |segs| => Block(segs[i], i))
  }

  function Lines(segs: seq<Segment>): seq<string> { Flatten(Blocks(segs)) }

  method Export(segs: seq<Segment>) returns (text: string)
    ensures text == Join("\n", Lines(segs))
  {
    var lines: seq<string> := [];
    ghost var blocks := Blocks(segs);
    assert blocks[0..] == blocks;
    for i := 0 to |segs|
      invariant lines + Flatten(blocks[i..]) == Flatten(blocks)
    {
      FlattenNext(lines, blocks, i);
      lines := AppendCue(lines, segs[i], i);
    }
    assert lines + [] == lines;
    text := Join("\n", lines);
  }

  method AppendCue(lines: seq<string>, seg: Segment, i: nat) returns (r: seq<string>)
    ensures r == lines + Block(seg, i)
  {
    var number, timing, text := Decimal(i + 1), TimingLine(seg, ','), FormatText(seg);
    r := lines + [number];
    r := r + [timing];
    r := r + [text];
    r := r + [""];
    Four(lines, number, timing, text, "");
  }

  lemma Four(lines: seq<string>, a: string, b: string, c: string, d: string)
    ensures lines + [a] + [b] + [c] + [d] == lines + [a, b, c, d]
  {}

  datatype Cue = Cue(index: nat, start: nat, end: nat, text: string)

  function ParseCue(index: string, timing: string, text: string, blank: string): Option<Cue> {
    var i, t := ParseNumber(index), ParseTiming(timing, ',');
    if i.Some? && t.Some? && blank == "" then Some(Cue(i.value, t.value.0, t.value.1, text)) else None
  }

  function ParseCues(lines: seq<string>): Option<seq<Cue>> {
    if lines == [] then Some([])
    else if |lines| < 4 then None
    else
      var cue, rest := ParseCue(lines[0], lines[1], lines[2], lines[3]), ParseCues(lines[4..]);
      if cue.Some? && rest.Some? then Some([cue.value] + rest.value) else None
  }

  function Parse(text: string): Option<seq<Cue>> { ParseCues(Split(text, '\n')) }

  /** What a reader gets back of a segment: its number, its times in milliseconds, and its
      words: the bracketed speaker, if any, and the text, with "→" between the pieces that
      arrows had separated, on one line. */
  function CueOf(seg: Segment, i: nat): Cue {
    var words := (if seg.speaker.Some? && seg.speaker.value != "" then "[" + seg.speaker.value + "] " else "")
                 + seg.text;
    Cue(i + 1, Millis(seg.start), Millis(seg.end), CollapseNewlines(Join("\U{2192}", Pieces(words))))
  }

  /** Without arrows and line breaks the words are printed as they are. */
  lemma PlainWordsAreKept(seg: Segment)
    requires !HasArrow(seg.text) && OneLine(seg.text)
    requires seg.speaker.Some? ==> !HasArrow(seg.speaker.value) && OneLine(seg.speaker.value)
    ensures FormatText(seg) == if seg.speaker.Some? && seg.speaker.value != ""
                               then "[" + seg.speaker.value + "] " + seg.text else seg.text
  {
    if Spoken(seg) {
      var words := "[" + seg.speaker.value + "] " + seg.text;
      NoArrowAcross(seg.speaker.value, seg.text);
      NeutralizedHasNoArrow(words);
      CollapseOneLine(words);
    } else {
      assert "" + seg.text == seg.text;
      NeutralizedHasNoArrow(seg.text);
      CollapseOneLine(seg.text);
    }
  }

  lemma NoArrowAcross(speaker: string, text: string)
    requires !HasArrow(speaker) && !HasArrow(text)
    ensures !HasArrow("[" + speaker + "] " + text)
  {
    var words, k := "[" + speaker + "] " + text, |speaker|;
    forall i | 0 <= i < |words| ensures !ArrowAt(words, i) {
      if 1 <= i && i + 3 <= k + 1 {
        assert ArrowAt(words, i) ==> ArrowAt(speaker, i - 1);
      } else if i >= k + 3 {
        assert ArrowAt(words, i) ==> ArrowAt(text, i - k - 3);
      } else {
        assert words[0] == '[' && words[k + 1] == ']' && words[k + 2] == ' ';
      }
    }
  }

  function Cues(segs: seq<Segment>): (cues: seq<Cue>)
    ensures |cues| == |segs|
    ensures forall i :: 0 <= i < |segs| ==> cues[i] == CueOf(segs[i], i)
  {
    seq(|segs|, i requires 0 <= i < |segs| => CueOf(segs[i], i))
  }

  /** A block of four lines reads as one cue. */
  predicate Reads(block: seq<string>, cue: Cue) {
    |block| == 4 && ParseCue(block[0], block[1], block[2], block[3]) == Some(cue)
  }

  lemma BlockReadsBack(seg: Segment, i: nat)
    ensures Reads(Block(seg, i), CueOf(seg, i))
  {
    NeutralizedIsJoined((if Spoken(seg) then "[" + seg.speaker.value + "] " else "") + seg.text);
    DecimalReadsBack(i + 1);
    TimingReadsBack(seg, ',');
  }

  lemma {:induction false} CuesReadBack(blocks: seq<seq<string>>, cues: seq<Cue>)
    requires |blocks| == |cues| && forall i :: 0 <= i < |blocks| ==> Reads(blocks[i], cues[i])
    ensures ParseCues(Flatten(blocks)) == Some(cues)
  {
    if blocks != [] {
      CuesReadBack(blocks[1..], cues[1..]);
      assert Reads(blocks[0], cues[0]);
      ParseFirst(blocks[0], Flatten(blocks[1..]), cues[0], cues[1..]);
      assert cues == [cues[0]] + cues[1..];
    }
  }

  lemma ParseFirst(block: seq<string>, rest: seq<string>, cue: Cue, cues: seq<Cue>)
    requires Reads(block, cue) && ParseCues(rest) == Some(cues)
    ensures ParseCues(block + rest) == Some([cue] + cues)
  {
    assert (block + rest)[4..] == rest;
  }

  /** Line k of a cue list holds no newline, and the arrow just when it is a timing line. */
  ghost predicate Clean(line: string, k: nat) {
    Free(line, '\n') && (HasArrow(line) <==> k % 4 == 1)
  }

  ghost predicate AllClean(lines: seq<string>) {
    forall k :: 0 <= k < |lines| ==> Clean(lines[k], k)
  }

  lemma BlockIsClean(seg: Segment, i: nat)
    ensures AllClean(Block(seg, i))
  {
    NumberIsClean(i + 1);
    TimingReadsBack(seg, ',');
    SanitisedIsSafe((if Spoken(seg) then "[" + seg.speaker.value + "] " else "") + seg.text);
    FourClean(Decimal(i + 1), TimingLine(seg, ','), FormatText(seg));
  }

  lemma NumberIsClean(n: nat)
    ensures Clean(Decimal(n), 0)
  {}

  lemma FourClean(number: string, timing: string, text: string)
    requires Clean(number, 0) && Clean(timing, 1) && Clean(text, 2)
    ensures AllClean([number, timing, text, ""])
  {}

  lemma CleanConcat(block: seq<string>, rest: seq<string>)
    requires |block| == 4 && AllClean(block) && AllClean(rest)
    ensures AllClean(block + rest)
  {
    var all := block + rest;
    forall k | 0 <= k < |all| ensures Clean(all[k], k) {
      if k < 4 {
        assert Clean(block[k], k);
      } else {
        assert Clean(rest[k - 4], k - 4);
        assert (k - 4) % 4 == k % 4;
      }
    }
  }

  lemma {:induction false} FlattenedIsClean(blocks: seq<seq<string>>)
    requires forall i :: 0 <= i < |blocks| ==> |blocks[i]| == 4 && AllClean(blocks[i])
    ensures AllClean(Flatten(blocks)) && |Flatten(blocks)| == 4 * |blocks|
  {
    if blocks != [] {
      FlattenedIsClean(blocks[1..]);
      CleanConcat(blocks[0], Flatten(blocks[1..]));
    }
  }

  lemma LinesAreClean(segs: seq<Segment>)
    ensures AllClean(Lines(segs)) && |Lines(segs)| == 4 * |segs|
  {
    var blocks := Blocks(segs);
    forall i | 0 <= i < |blocks| ensures AllClean(blocks[i]) {
      BlockIsClean(segs[i], i);
    }
    FlattenedIsClean(blocks);
  }

  /** For every non-empty transcript: exactly four lines a segment, and exactly the
      timing lines hold "-->". */
  lemma FourLinesEach(segs: seq<Segment>)
    requires segs != []
    ensures var lines := Split(Join("\n", Lines(segs)), '\n');
            && |lines| == 4 * |segs|
            && forall k :: 0 <= k < |lines| ==> (HasArrow(lines[k]) <==> k % 4 == 1)
  {
    LinesSplit(segs);
    LinesAreClean(segs);
    assert forall k :: 0 <= k < |Lines(segs)| ==> Clean(Lines(segs)[k], k);
  }

  lemma LinesSplit(segs: seq<Segment>)
    requires segs != []
    ensures Split(Join("\n", Lines(segs)), '\n') == Lines(segs)
  {
    LinesAreClean(segs);
    var lines := Lines(segs);
    forall k | 0 <= k < |lines| ensures Free(lines[k], '\n') {
      assert Clean(lines[k], k);
    }
    SplitUndoesJoin(lines, '\n');
  }

  /** The parser recovers every index, both times in whole milliseconds, and the
      sanitised text; an empty transcript prints as nothing, which is no cue list. */
  lemma RoundTrip(segs: seq<Segment>)
    ensures Parse(Join("\n", Lines(segs))) == if segs == [] then None else Some(Cues(segs))
  {
    if segs != [] {
      LinesSplit(segs);
      forall i | 0 <= i < |segs| ensures Reads(Blocks(segs)[i], Cues(segs)[i]) {
        BlockReadsBack(segs[i], i);
      }
      CuesReadBack(Blocks(segs), Cues(segs));
    }
  }
}
