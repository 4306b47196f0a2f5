/** The optional LLM correction of a transcript: chunking, response validation and
    the in-place edits. The model's answers are arbitrary. */
module LlmCorrection {
  import opened Common

  datatype Item = Item(idx: int, text: string)

  /** One request: the range to edit, and the texts shown to the model. */
  datatype Chunk = Chunk(editStart: nat, editEnd: nat, before: seq<Item>, edit: seq<Item>, after: seq<Item>)

  datatype Json =
    | JNull | JBool(b: bool) | JInt(n: int) | JFloat(r: real) | JString(s: string)
    | JArray(items: seq<Json>) | JObject(fields: map<string, Json>)

  /** What came back for a chunk: a body (None when it is not JSON at all), a client
      error, or the death penalty of the job queue striking meanwhile. */
  datatype Reply = Body(json: Option<Json>) | ClientError | DeathPenalty

  type Corrections = map<int, string>

  /* ---------------- chunks ---------------- */

  function Items(segments: seq<Segment>, from: nat, to: nat): (items: seq<Item>)
    requires from <= to <= |segments|
    ensures |items| == to - from
    ensures forall k :: 0 <= k < |items| ==> items[k] == Item(from + k, segments[from + k].text)
  {
    seq(to - from, k requires 0 <= k < to - from => Item(from + k, segments[from + k].text))
  }

  function Min(a: int, b: int): int { if a <= b then a else b }

  function Max(a: int, b: int): int { if a >= b then a else b }

  function ChunkAt(segments: seq<Segment>, size: nat, context: nat, start: nat): Chunk
    requires start < |segments| && size > 0
  {
    var n := |segments|;
    var end := Min(start + size, n);
    Chunk(start, end,
          Items(segments, Max(0, start - context), start),
          Items(segments, start, end),
          Items(segments, end, Min(n, end + context)))
  }

  function ChunksFrom(segments: seq<Segment>, size: nat, context: nat, start: nat): seq<Chunk>
    requires size > 0
    decreases |segments| - start
  {
    if start >= |segments| then []
    else [ChunkAt(segments, size, context, start)] + ChunksFrom(segments, size, context, start + size)
  }

  method BuildChunks(segments: seq<Segment>, size: nat, context: nat) returns (chunks: seq<Chunk>)
    requires size > 0
    ensures chunks == ChunksFrom(segments, size, context, 0)
  {
    chunks := [];
    var n := |segments|;
    var start := 0;
    while start < n
      invariant chunks + ChunksFrom(segments, size, context, start) == ChunksFrom(segments, size, context, 0)
      decreases n - start
    {
      var chunk := BuildChunk(segments, size, context, start);
      ghost var rest := ChunksFrom(segments, size, context, start + size);
      assert ChunksFrom(segments, size, context, start) == [chunk] + rest;
      assert chunks + ([chunk] + rest) == (chunks + [chunk]) + rest;
      chunks := chunks + [chunk];
      start := start + size;
    }
  }

  method BuildChunk(segments: seq<Segment>, size: nat, context: nat, start: nat) returns (chunk: Chunk)
    requires start < |segments| && size > 0
    ensures chunk == ChunkAt(segments, size, context, start)
  {
    var n := |segments|;
    var end := if start + size <= n then start + size else n;
    var beforeStart := if start - context >= 0 then start - context else 0;
    var afterEnd := if end + context <= n then end + context else n;
    chunk := Chunk(start, end, Items(segments, beforeStart, start),
                   Items(segments, start, end), Items(segments, end, afterEnd));
  }

  ghost predicate Tiles(chunks: seq<Chunk>, from: nat, n: nat) {
    && (chunks == [] ==> from >= n)
    && (chunks != [] ==> chunks[0].editStart == from && chunks[|chunks| - 1].editEnd == n)
    && (forall k :: 0 <= k < |chunks| ==> chunks[k].editStart < chunks[k].editEnd <= n)
    && (forall j, k :: 0 <= j < k < |chunks| && k == j + 1 ==> chunks[j].editEnd == chunks[k].editStart)
  }

  /** Neighbours shown for reference: original texts, in bounds, within [from, to). */
  predicate Shows(items: seq<Item>, segments: seq<Segment>, from: nat, to: nat) {
    forall k :: 0 <= k < |items| ==>
      from <= items[k].idx < to <= |segments| && items[k].text == segments[items[k].idx].text
  }

  predicate ChunkOk(c: Chunk, segments: seq<Segment>, size: nat, context: nat) {
    && c.editStart < c.editEnd <= |segments| && c.editEnd - c.editStart <= size
    && c.edit == Items(segments, c.editStart, c.editEnd)
    && |c.before| <= context && Shows(c.before, segments, 0, c.editStart)
    && |c.after| <= context && Shows(c.after, segments, c.editEnd, |segments|)
  }

  predicate AllOk(chunks: seq<Chunk>, segments: seq<Segment>, size: nat, context: nat) {
    forall k :: 0 <= k < |chunks| ==> ChunkOk(chunks[k], segments, size, context)
  }

  /** The edit ranges tile [0, n) in order, and each chunk shows the original text
      of its range plus at most `context` neighbours on either side, all in bounds
      and outside the range. */
  lemma ChunksTile(segments: seq<Segment>, size: nat, context: nat, start: nat)
    requires size > 0
    ensures Tiles(ChunksFrom(segments, size, context, start), start, |segments|)
    ensures AllOk(ChunksFrom(segments, size, context, start), segments, size, context)
  {
    RangesTile(segments, size, context, start);
    ChunksAreOk(segments, size, context, start);
  }

  lemma {:induction false} RangesTile(segments: seq<Segment>, size: nat, context: nat, start: nat)
    requires size > 0
    ensures Tiles(ChunksFrom(segments, size, context, start), start, |segments|)
    decreases |segments| - start
  {
    if start < |segments| {
      RangesTile(segments, size, context, start + size);
      ConsTiles(ChunkAt(segments, size, context, start), ChunksFrom(segments, size, context, start + size),
                start, start + size, |segments|);
    }
  }

  lemma {:induction false} ChunksAreOk(segments: seq<Segment>, size: nat, context: nat, start: nat)
    requires size > 0
    ensures AllOk(ChunksFrom(segments, size, context, start), segments, size, context)
    decreases |segments| - start
  {
    if start < |segments| {
      ChunksAreOk(segments, size, context, start + size);
      ChunkIsOk(segments, size, context, start);
    }
  }

  lemma ChunkIsOk(segments: seq<Segment>, size: nat, context: nat, start: nat)
    requires size > 0 && start < |segments|
    ensures ChunkOk(ChunkAt(segments, size, context, start), segments, size, context)
  {}

  lemma ConsTiles(first: Chunk, rest: seq<Chunk>, from: nat, mid: nat, n: nat)
    requires first.editStart == from < first.editEnd == Min(mid, n) && Tiles(rest, mid, n)
    requires rest != [] ==> mid <= n
    ensures Tiles([first] + rest, from, n)
  {
    var all := [first] + rest;
    assert all[0] == first && forall k :: 1 <= k < |all| ==> all[k] == rest[k - 1];
  }

  /** Tiles are disjoint: an index lies in the range of at most one chunk. */
  lemma {:induction false} TilesDisjoint(chunks: seq<Chunk>, from: nat, n: nat, j: nat, k: nat)
    requires Tiles(chunks, from, n) && j < k < |chunks|
    ensures chunks[j].editEnd <= chunks[k].editStart
  {
    if j + 1 < k {
      TilesDisjoint(chunks, from, n, j, k - 1);
      assert chunks[k - 1].editEnd == chunks[k - 1 + 1].editStart;
    }
  }

  /** ... and in at least one. */
  lemma {:induction false} TilesCover(chunks: seq<Chunk>, from: nat, n: nat, i: nat) returns (k: nat)
    requires Tiles(chunks, from, n) && from <= i < n
    ensures k < |chunks| && chunks[k].editStart <= i < chunks[k].editEnd
  {
    k := 0;
    while chunks[k].editEnd <= i
      invariant k < |chunks| && chunks[k].editStart <= i
      decreases |chunks| - k
    {
      assert chunks[k].editEnd == chunks[k + 1].editStart;
      k := k + 1;
    }
  }

  /* ---------------- responses ---------------- */

  /** JSON true and false are ints to the validator, with value 1 and 0. */
  function AsInt(j: Json): Option<int> {
    match j
    case JInt(n) => Some(n)
    case JBool(b) => Some(if b then 1 else 0)
    case _ => None
  }

  function Get(fields: map<string, Json>, key: string): Json {
    if key in fields then fields[key] else JNull
  }

  function Entry(item: Json): Option<Item> {
    if !item.JObject? then None
    else
      var idx, text := AsInt(Get(item.fields, "idx")), Get(item.fields, "text");
      if idx.Some? && text.JString? then Some(Item(idx.value, text.s)) else None
  }

  /** The dictionary built from the entries: the last one wins. */
  function Collected(items: seq<Json>): Corrections
    requires forall k :: 0 <= k < |items| ==> Entry(items[k]).Some?
  {
    if items == [] then map[]
    else
      var last := Entry(items[|items| - 1]).value;
      Collected(items[..|items| - 1])[last.idx := last.text]
  }

  predicate WellFormed(json: Option<Json>) {
    && json.Some? && json.value.JObject? && "segments" in json.value.fields
    && json.value.fields["segments"].JArray?
    && forall k :: 0 <= k < |json.value.fields["segments"].items| ==>
         Entry(json.value.fields["segments"].items[k]).Some?
  }

  function Parsed(json: Option<Json>, expected: set<int>): Option<Corrections> {
    if !WellFormed(json) then None
    else
      var result := Collected(json.value.fields["segments"].items);
      if result.Keys == expected then Some(result) else None
  }

  method ParseResponse(json: Option<Json>, expected: set<int>) returns (r: Option<Corrections>)
    ensures r == Parsed(json, expected)
    ensures r.Some? ==> r.value.Keys == expected
  {
    if json.None? || !json.value.JObject? || "segments" !in json.value.fields {
      return None;
    }
    var segments := json.value.fields["segments"];
    if !segments.JArray? {
      return None;
    }
    var items := segments.items;
    var result: Corrections := map[];
    for k := 0 to |items|
      invariant forall j :: 0 <= j < k ==> Entry(items[j]).Some?
      invariant result == Collected(items[..k])
    {
      var entry := Entry(items[k]);
      if entry.None? {
        return None;
      }
      assert items[..k + 1][..k] == items[..k];
      result := result[entry.value.idx := entry.value.text];
    }
    assert items[..|items|] == items;
    if result.Keys != expected {
      return None;
    }
    return Some(result);
  }

  /* What an answer means, told from the JSON alone. */

  /** The JSON values that denote a number: itself, and true and false for 1 and 0. */
  predicate Denotes(j: Json, n: int) {
    j == JInt(n) || (j == JBool(true) && n == 1) || (j == JBool(false) && n == 0)
  }

  /** An array element of the form {"idx": n, "text": ".."}, whatever else it holds. */
  predicate About(item: Json, n: int) {
    && item.JObject? && "idx" in item.fields && Denotes(item.fields["idx"], n)
    && "text" in item.fields && item.fields["text"].JString?
  }

  predicate Says(item: Json, n: int, t: string) {
    About(item, n) && item.fields["text"].s == t
  }

  /** The elements of the array under "segments", if the answer has one. */
  predicate Lists(json: Option<Json>, items: seq<Json>) {
    && json.Some? && json.value.JObject? && "segments" in json.value.fields
    && json.value.fields["segments"] == JArray(items)
  }

  ghost predicate Expected(item: Json, expected: set<int>) { exists n :: n in expected && About(item, n) }

  ghost predicate Mentioned(items: seq<Json>, n: int) { exists k :: 0 <= k < |items| && About(items[k], n) }

  /** Element k says t about n, and no later element is about n. */
  predicate LastWord(items: seq<Json>, k: nat, n: int, t: string) {
    && k < |items| && Says(items[k], n, t)
    && forall m :: k < m < |items| ==> !About(items[m], n)
  }

  lemma EntryIsAbout(item: Json, n: int)
    ensures About(item, n) <==> Entry(item).Some? && Entry(item).value.idx == n
    ensures About(item, n) ==> Entry(item) == Some(Item(n, item.fields["text"].s))
  {}

  lemma {:induction false} CollectedIsLastWord(items: seq<Json>, n: int)
    requires forall k :: 0 <= k < |items| ==> Entry(items[k]).Some?
    ensures n in Collected(items) <==> Mentioned(items, n)
    ensures n in Collected(items) ==> exists k: nat :: LastWord(items, k, n, Collected(items)[n])
  {
    if items != [] {
      var front, last := items[..|items| - 1], items[|items| - 1];
      CollectedIsLastWord(front, n);
      EntryIsAbout(last, n);
      if About(last, n) {
        assert LastWord(items, |items| - 1, n, Collected(items)[n]);
      } else if n in Collected(front) {
        var k: nat :| LastWord(front, k, n, Collected(front)[n]);
        assert LastWord(items, k, n, Collected(items)[n]);
      } else {
        forall k | 0 <= k < |items| ensures !About(items[k], n) {
          if k < |front| { assert front[k] == items[k]; }
        }
      }
    }
  }

  ghost predicate AllExpected(items: seq<Json>, expected: set<int>) {
    forall k :: 0 <= k < |items| ==> Expected(items[k], expected)
  }

  ghost predicate AllMentioned(items: seq<Json>, expected: set<int>) {
    forall n :: n in expected ==> Mentioned(items, n)
  }

  lemma CollectedKeys(items: seq<Json>, expected: set<int>)
    requires forall k :: 0 <= k < |items| ==> Entry(items[k]).Some?
    ensures Collected(items).Keys == expected ==> AllExpected(items, expected) && AllMentioned(items, expected)
    ensures AllExpected(items, expected) && AllMentioned(items, expected) ==> Collected(items).Keys == expected
  {
    forall n ensures n in Collected(items).Keys <==> Mentioned(items, n) {
      CollectedIsLastWord(items, n);
    }
    KeysAgree(items, Collected(items).Keys, expected);
  }

  lemma KeysAgree(items: seq<Json>, keys: set<int>, expected: set<int>)
    requires forall k :: 0 <= k < |items| ==> Entry(items[k]).Some?
    requires forall n :: n in keys <==> Mentioned(items, n)
    ensures keys == expected ==> AllExpected(items, expected) && AllMentioned(items, expected)
    ensures AllExpected(items, expected) && AllMentioned(items, expected) ==> keys == expected
  {
    if keys == expected {
      forall k | 0 <= k < |items| ensures Expected(items[k], expected) {
        var n := Entry(items[k]).value.idx;
        EntryIsAbout(items[k], n);
        assert Mentioned(items, n);
      }
    }
    if AllExpected(items, expected) && AllMentioned(items, expected) {
      forall n ensures n in keys <==> n in expected {
        if n in keys { MentionedIsExpected(items, expected, n); }
        if n in expected { assert Mentioned(items, n); }
      }
    }
  }

  lemma MentionedIsExpected(items: seq<Json>, expected: set<int>, n: int)
    requires AllExpected(items, expected) && Mentioned(items, n)
    ensures n in expected
  {
    var k :| 0 <= k < |items| && About(items[k], n);
    assert Expected(items[k], expected);
    var m :| m in expected && About(items[k], m);
    AboutOneThing(items[k], n, m);
  }

  lemma AboutOneThing(item: Json, n: int, m: int)
    requires About(item, n) && About(item, m)
    ensures n == m
  {}

  lemma ExpectedIsWellFormed(json: Option<Json>, items: seq<Json>, expected: set<int>)
    requires Lists(json, items) && AllExpected(items, expected)
    ensures WellFormed(json)
  {
    forall k | 0 <= k < |items| ensures Entry(items[k]).Some? {
      assert Expected(items[k], expected);
      var n :| n in expected && About(items[k], n);
      EntryIsAbout(items[k], n);
    }
  }

  /** An answer is accepted exactly when each of its elements is about an expected index,
      and each expected index is mentioned. */
  lemma AcceptedExactlyWhen(json: Option<Json>, items: seq<Json>, expected: set<int>)
    requires Lists(json, items)
    ensures Parsed(json, expected).Some? <==> AllExpected(items, expected) && AllMentioned(items, expected)
  {
    if WellFormed(json) {
      CollectedKeys(items, expected);
    } else if AllExpected(items, expected) {
      ExpectedIsWellFormed(json, items, expected);
    }
  }

  /** ... and what lists nothing is never accepted. */
  lemma NothingListedNothingAccepted(json: Option<Json>, expected: set<int>)
    requires forall items :: !Lists(json, items)
    ensures Parsed(json, expected).None?
  {
    if json.Some? && json.value.JObject? && "segments" in json.value.fields && json.value.fields["segments"].JArray? {
      assert Lists(json, json.value.fields["segments"].items);
    }
  }

  /** Each accepted text is the string of the last element about its index. */
  lemma TextsAreLastWords(json: Option<Json>, items: seq<Json>, expected: set<int>, n: int)
    requires Lists(json, items) && Parsed(json, expected).Some? && n in expected
    ensures n in Parsed(json, expected).value
    ensures exists k: nat :: LastWord(items, k, n, Parsed(json, expected).value[n])
  {
    CollectedIsLastWord(items, n);
  }

  /** The elements say one thing about each of these indices, and nothing else. */
  ghost predicate Spells(items: seq<Json>, texts: Corrections) {
    && (forall k, n :: 0 <= k < |items| && n in texts && About(items[k], n) ==> Says(items[k], n, texts[n]))
    && AllExpected(items, texts.Keys) && AllMentioned(items, texts.Keys)
  }

  /** Such an answer is accepted with exactly those texts. */
  lemma GoodAnswerIsTaken(json: Option<Json>, items: seq<Json>, texts: Corrections)
    requires Lists(json, items) && Spells(items, texts)
    ensures Parsed(json, texts.Keys) == Some(texts)
  {
    AcceptedExactlyWhen(json, items, texts.Keys);
    SpelledTexts(json, items, texts);
  }

  lemma SpelledTexts(json: Option<Json>, items: seq<Json>, texts: Corrections)
    requires Lists(json, items) && Spells(items, texts) && Parsed(json, texts.Keys).Some?
    ensures Parsed(json, texts.Keys).value == texts
  {
    var r := Parsed(json, texts.Keys).value;
    forall n | n in texts ensures n in r && r[n] == texts[n] {
      SpelledText(json, items, texts, n);
    }
    assert r.Keys == texts.Keys;
  }

  lemma SpelledText(json: Option<Json>, items: seq<Json>, texts: Corrections, n: int)
    requires Lists(json, items) && Spells(items, texts) && Parsed(json, texts.Keys).Some? && n in texts
    ensures n in Parsed(json, texts.Keys).value && Parsed(json, texts.Keys).value[n] == texts[n]
  {
    TextsAreLastWords(json, items, texts.Keys, n);
    var t := Parsed(json, texts.Keys).value[n];
    var k: nat :| LastWord(items, k, n, t);
    assert About(items[k], n);
  }

  /** The corrections a reply yields for a chunk, or None when the chunk fails. */
  function Accepted(chunk: Chunk, reply: Reply): Option<Corrections> {
    if reply.Body? then Parsed(reply.json, EditIndices(chunk)) else None
  }

  function EditIndices(chunk: Chunk): set<int> {
    set item | item in chunk.edit :: item.idx
  }

  /* ---------------- edits ---------------- */

  function Edited(segments: seq<Segment>, corrections: Corrections): (r: seq<Segment>)
    ensures |r| == |segments|
  {
    seq(|segments|, i requires 0 <= i < |segments| =>
      if i in corrections then segments[i].(text := corrections[i]) else segments[i])
  }

  function ApplyChunk(segments: seq<Segment>, chunk: Chunk, reply: Reply): (r: seq<Segment>)
    ensures |r| == |segments|
  {
    var c := Accepted(chunk, reply);
    if c.Some? then Edited(segments, c.value) else segments
  }

  predicate Within(order: seq<nat>, n: nat) {
    forall i :: 0 <= i < |order| ==> order[i] < n
  }

  /** Chunks handled one after another, in the given order. */
  function ApplyOrder(segments: seq<Segment>, chunks: seq<Chunk>, replies: seq<Reply>, order: seq<nat>)
    : (r: seq<Segment>)
    requires |replies| == |chunks| && Within(order, |chunks|)
    ensures |r| == |segments|
  {
    if order == [] then segments
    else
      var last := order[|order| - 1];
      ApplyChunk(ApplyOrder(segments, chunks, replies, order[..|order| - 1]), chunks[last], replies[last])
  }

  function FirstTo(k: nat): (r: seq<nat>)
    ensures |r| == k && forall i :: 0 <= i < k ==> r[i] == i
  {
    seq(k, i => i)
  }

  lemma NonEmpty(s: set<int>)
    ensures s == {} || exists i :: i in s
  {
    if forall i :: i !in s {
      assert s == {};
    }
  }

  method ApplyCorrections(segments: array<Segment>, corrections: Corrections)
    modifies segments
    ensures segments[..] == Edited(old(segments[..]), corrections)
  {
    var todo: set<int> := corrections.Keys;
    while todo != {}
      invariant todo <= corrections.Keys
      invariant forall i :: 0 <= i < segments.Length ==>
                  segments[i] == if i in corrections && i !in todo then old(segments[i]).(text := corrections[i])
                                 else old(segments[i])
      decreases todo
    {
      NonEmpty(todo);
      var idx: int :| idx in todo;
      if 0 <= idx < segments.Length {
        segments[idx] := segments[idx].(text := corrections[idx]);
      }
      todo := todo - {idx};
    }
  }

  datatype Notice = Skipped | Running(finished: nat, total: nat) | Degraded(failed: nat, total: nat) | AllDone

  datatype Report = Report(progress: real, notice: Notice)

  /** `Finished` lists the chunks that kept their original text. */
  datatype Result = NotRun | TimedOut(at: nat) | Finished(failed: seq<nat>)

  /** What the reports look like after k of n chunks. */
  predicate ReportsSoFar(reports: seq<Report>, k: nat, total: nat)
    requires k <= total
  {
    |reports| == k && forall i :: 0 <= i < k ==>
      reports[i] == Report((i + 1) as real / total as real, Running(i + 1, total))
  }

  function Closing(failed: seq<nat>, total: nat): Report {
    Report(1.0, if failed != [] && |failed| == total then Skipped
                else if failed != [] then Degraded(|failed|, total) else AllDone)
  }

  /** The state after the first k chunks were answered in time: `now` is the
      transcript, `failed` lists in order the chunks that kept their text. */
  ghost predicate Handled(original: seq<Segment>, chunks: seq<Chunk>, replies: seq<Reply>, k: nat,
                          now: seq<Segment>, failed: seq<nat>, reports: seq<Report>)
    requires |replies| == |chunks| && k <= |chunks|
  {
    && now == ApplyOrder(original, chunks, replies, FirstTo(k))
    && (forall i :: 0 <= i < k ==> !replies[i].DeathPenalty?)
    && failed == FailedAmong(chunks, replies, k)
    && ReportsSoFar(reports, k, |chunks|)
  }

  /** The chunks among the first k whose reply was not accepted, in order. */
  function FailedAmong(chunks: seq<Chunk>, replies: seq<Reply>, k: nat): (failed: seq<nat>)
    requires k <= |chunks| == |replies|
    ensures forall i: nat :: i in failed <==> i < k && Accepted(chunks[i], replies[i]).None?
    ensures |failed| <= k
  {
    if k == 0 then []
    else
      var front := FailedAmong(chunks, replies, k - 1);
      if Accepted(chunks[k - 1], replies[k - 1]).None? then front + [k - 1] else front
  }

  /** One request and its edits; `ok` is false when the chunk keeps its text. */
  method CorrectChunk(segments: array<Segment>, chunk: Chunk, reply: Reply) returns (ok: bool)
    requires !reply.DeathPenalty?
    modifies segments
    ensures segments[..] == ApplyChunk(old(segments[..]), chunk, reply)
    ensures ok == Accepted(chunk, reply).Some?
  {
    if reply.ClientError? {
      return false;
    }
    var corrections := ParseResponse(reply.json, EditIndices(chunk));
    if corrections.None? {
      return false;
    }
    ApplyCorrections(segments, corrections.value);
    return true;
  }

  lemma HandledSnoc(original: seq<Segment>, chunks: seq<Chunk>, replies: seq<Reply>, k: nat,
                    now: seq<Segment>, failed: seq<nat>, reports: seq<Report>)
    requires |replies| == |chunks| && k < |chunks| && !replies[k].DeathPenalty?
    requires Handled(original, chunks, replies, k, now, failed, reports)
    ensures Handled(original, chunks, replies, k + 1, ApplyChunk(now, chunks[k], replies[k]),
                    if Accepted(chunks[k], replies[k]).None? then failed + [k] else failed,
                    reports + [Progress(k, |chunks|)])
  {
    ApplySnoc(original, chunks, replies, k);
    ReportsSnoc(reports, k, |chunks|);
  }

  lemma ApplySnoc(original: seq<Segment>, chunks: seq<Chunk>, replies: seq<Reply>, k: nat)
    requires |replies| == |chunks| && k < |chunks|
    ensures ApplyOrder(original, chunks, replies, FirstTo(k + 1))
         == ApplyChunk(ApplyOrder(original, chunks, replies, FirstTo(k)), chunks[k], replies[k])
  {
    assert FirstTo(k + 1)[..k] == FirstTo(k);
  }

  lemma ReportsSnoc(reports: seq<Report>, k: nat, total: nat)
    requires k < total && ReportsSoFar(reports, k, total)
    ensures ReportsSoFar(reports + [Progress(k, total)], k + 1, total)
  {}

  function Progress(k: nat, total: nat): Report
    requires k < total
  {
    Report((k + 1) as real / total as real, Running(k + 1, total))
  }

  /** A transcript that is flagged, not Chinese or empty, or a missing endpoint, skips
      the stage; a client error or invalid reply only costs its own chunk; the death
      penalty propagates at once. */
  method Execute(segments: array<Segment>, language: string, flagged: bool, endpoint: bool,
                 size: nat, context: nat, replies: seq<Reply>)
    returns (result: Result, reports: seq<Report>)
    requires size > 0
    requires |replies| == |ChunksFrom(segments[..], size, context, 0)|
    modifies segments
    ensures Outcome(old(segments[..]), ChunksFrom(old(segments[..]), size, context, 0), replies,
                    result, segments[..], reports)
    ensures result.NotRun? <==> flagged || language != "zh" || !endpoint || segments.Length == 0
  {
    if flagged || language != "zh" || !endpoint || segments.Length == 0 {
      return NotRun, [Report(1.0, Skipped)];
    }
    ghost var original := segments[..];
    var chunks := BuildChunks(segments[..], size, context);
    var failed: seq<nat> := [];
    reports := [];
    for i := 0 to |chunks|
      invariant Handled(original, chunks, replies, i, segments[..], failed, reports)
    {
      if replies[i].DeathPenalty? {
        return TimedOut(i), reports;
      }
      HandledSnoc(original, chunks, replies, i, segments[..], failed, reports);
      var ok := CorrectChunk(segments, chunks[i], replies[i]);
      if !ok {
        failed := failed + [i];
      }
      reports := reports + [Progress(i, |chunks|)];
    }
    ghost var running := reports;
    result := Finished(failed);
    reports := reports + [Closing(failed, |chunks|)];
    assert reports[..|chunks|] == running;
  }

  ghost predicate Outcome(original: seq<Segment>, chunks: seq<Chunk>, replies: seq<Reply>,
                          result: Result, now: seq<Segment>, reports: seq<Report>)
    requires |replies| == |chunks|
  {
    match result
    case NotRun => now == original && reports == [Report(1.0, Skipped)]
    case TimedOut(at) =>
      && at < |chunks| && replies[at].DeathPenalty?
      && Handled(original, chunks, replies, at, now, FailedAmong(chunks, replies, at), reports)
    case Finished(failed) =>
      && |reports| == |chunks| + 1 && reports[|chunks|] == Closing(failed, |chunks|)
      && Handled(original, chunks, replies, |chunks|, now, failed, reports[..|chunks|])
  }

  /* ---------------- what the edits amount to ---------------- */

  lemma {:induction false} OneSegment(segments: seq<Segment>, size: nat, context: nat, chunks: seq<Chunk>,
                                      replies: seq<Reply>, order: seq<nat>, i: nat, k: nat)
    requires Tiles(chunks, 0, |segments|) && AllOk(chunks, segments, size, context)
    requires |replies| == |chunks| && Within(order, |chunks|)
    requires i < |segments| && k < |chunks| && chunks[k].editStart <= i < chunks[k].editEnd
    ensures ApplyOrder(segments, chunks, replies, order)[i] == Chosen(segments, chunks[k], replies[k], k in order, i)
  {
    if order != [] {
      var front, last := order[..|order| - 1], order[|order| - 1];
      OneSegment(segments, size, context, chunks, replies, front, i, k);
      assert order == front + [last];
      assert ChunkOk(chunks[last], segments, size, context);
      if last < k { TilesDisjoint(chunks, 0, |segments|, last, k); }
      if k < last { TilesDisjoint(chunks, 0, |segments|, k, last); }
      IndicesAreTheRange(segments, chunks[last], i);
    }
  }

  /** The fate of segment i of the chunk: wholly decided by that chunk's reply. */
  function Chosen(segments: seq<Segment>, chunk: Chunk, reply: Reply, handled: bool, i: nat): Segment
    requires i < |segments|
  {
    var c := Accepted(chunk, reply);
    if handled && c.Some? && i in c.value then segments[i].(text := c.value[i]) else segments[i]
  }

  lemma IndicesAreTheRange(segments: seq<Segment>, chunk: Chunk, i: nat)
    requires chunk.editStart <= chunk.editEnd <= |segments|
    requires chunk.edit == Items(segments, chunk.editStart, chunk.editEnd)
    ensures i in EditIndices(chunk) <==> chunk.editStart <= i < chunk.editEnd
  {
    if chunk.editStart <= i < chunk.editEnd {
      assert chunk.edit[i - chunk.editStart] in chunk.edit;
    }
  }

  /** Timings and speakers survive, and a chunk is corrected in full or not at all:
      every segment of its range carries the reply's text, or every one its own. */
  lemma ChunkIsAllOrNothing(segments: seq<Segment>, size: nat, context: nat, replies: seq<Reply>, k: nat)
    requires size > 0
    requires var chunks := ChunksFrom(segments, size, context, 0); |replies| == |chunks| && k < |chunks|
    ensures var chunks := ChunksFrom(segments, size, context, 0);
            var result := ApplyOrder(segments, chunks, replies, FirstTo(|chunks|));
            var c := Accepted(chunks[k], replies[k]);
            && chunks[k].editEnd <= |segments|
            && (c.Some? ==> forall i :: chunks[k].editStart <= i < chunks[k].editEnd ==>
                              i in c.value && result[i] == segments[i].(text := c.value[i]))
            && (c.None? ==> forall i :: chunks[k].editStart <= i < chunks[k].editEnd ==> result[i] == segments[i])
  {
    var chunks := ChunksFrom(segments, size, context, 0);
    ChunksTile(segments, size, context, 0);
    assert FirstTo(|chunks|)[k] == k;
    forall i: nat | chunks[k].editStart <= i < chunks[k].editEnd
      ensures ApplyOrder(segments, chunks, replies, FirstTo(|chunks|))[i]
           == Chosen(segments, chunks[k], replies[k], true, i)
      ensures i in EditIndices(chunks[k])
    {
      OneSegment(segments, size, context, chunks, replies, FirstTo(|chunks|), i, k);
      IndicesAreTheRange(segments, chunks[k], i);
    }
  }

  /** Any order that handles every chunk, repetitions included, gives the same result. */
  lemma OrderDoesNotMatter(segments: seq<Segment>, size: nat, context: nat, replies: seq<Reply>, order: seq<nat>)
    requires size > 0
    requires var chunks := ChunksFrom(segments, size, context, 0);
             |replies| == |chunks| && Within(order, |chunks|) && forall k :: 0 <= k < |chunks| ==> k in order
    ensures var chunks := ChunksFrom(segments, size, context, 0);
            ApplyOrder(segments, chunks, replies, order) == ApplyOrder(segments, chunks, replies, FirstTo(|chunks|))
  {
    var chunks := ChunksFrom(segments, size, context, 0);
    ChunksTile(segments, size, context, 0);
    forall i | 0 <= i < |segments|
      ensures ApplyOrder(segments, chunks, replies, order)[i]
           == ApplyOrder(segments, chunks, replies, FirstTo(|chunks|))[i]
    {
      var k := TilesCover(chunks, 0, |segments|, i);
      assert FirstTo(|chunks|)[k] == k;
      OneSegment(segments, size, context, chunks, replies, order, i, k);
      OneSegment(segments, size, context, chunks, replies, FirstTo(|chunks|), i, k);
    }
  }

  /** The whole way from an answer to the transcript: a chunk whose answer says one thing
      about each segment of its range, and nothing else, ends with exactly those texts. */
  lemma GoodAnswerCorrectsItsChunk(segments: seq<Segment>, size: nat, context: nat, replies: seq<Reply>, k: nat,
                                   items: seq<Json>, texts: Corrections)
    requires size > 0
    requires var chunks := ChunksFrom(segments, size, context, 0);
             && |replies| == |chunks| && k < |chunks| && Answers(chunks[k], replies[k], items, texts)
    ensures var chunks := ChunksFrom(segments, size, context, 0);
            var result := ApplyOrder(segments, chunks, replies, FirstTo(|chunks|));
            && chunks[k].editEnd <= |segments|
            && forall i :: chunks[k].editStart <= i < chunks[k].editEnd ==>
                 result[i] == segments[i].(text := texts[i])
  {
    var chunks := ChunksFrom(segments, size, context, 0);
    ChunksTile(segments, size, context, 0);
    assert ChunkOk(chunks[k], segments, size, context);
    AnswerIsAccepted(segments, chunks[k], replies[k], items, texts);
    ChunkIsAllOrNothing(segments, size, context, replies, k);
  }

  ghost predicate Answers(chunk: Chunk, reply: Reply, items: seq<Json>, texts: Corrections) {
    && reply.Body? && Lists(reply.json, items) && Spells(items, texts)
    && forall i: int :: i in texts <==> chunk.editStart <= i < chunk.editEnd
  }

  lemma AnswerIsAccepted(segments: seq<Segment>, chunk: Chunk, reply: Reply, items: seq<Json>, texts: Corrections)
    requires Answers(chunk, reply, items, texts) && chunk.editStart <= chunk.editEnd <= |segments|
    requires chunk.edit == Items(segments, chunk.editStart, chunk.editEnd)
    ensures Accepted(chunk, reply) == Some(texts)
  {
    RangeIsEdited(segments, chunk, texts);
    GoodAnswerIsTaken(reply.json, items, texts);
  }

  lemma RangeIsEdited(segments: seq<Segment>, chunk: Chunk, texts: Corrections)
    requires chunk.editStart <= chunk.editEnd <= |segments|
    requires chunk.edit == Items(segments, chunk.editStart, chunk.editEnd)
    requires forall i: int :: i in texts <==> chunk.editStart <= i < chunk.editEnd
    ensures EditIndices(chunk) == texts.Keys
  {
    forall i: int ensures i in EditIndices(chunk) <==> i in texts {
      if i >= 0 { IndicesAreTheRange(segments, chunk, i); }
    }
  }

  /** Exactly what a request shows: the range itself, of full size unless it is the last
      one, and the nearest neighbours, as many as there are up to `context`. */
  lemma ChunkShowsExactly(segments: seq<Segment>, size: nat, context: nat, start: nat)
    requires size > 0 && start < |segments|
    ensures var c, n := ChunkAt(segments, size, context, start), |segments|;
            && c.editStart == start && |c.edit| == c.editEnd - start
            && (if n - start <= size then c.editEnd == n else c.editEnd == start + size)
            && |c.before| == (if start <= context then start else context)
            && |c.after| == (if n - c.editEnd <= context then n - c.editEnd else context)
            && (forall j :: 0 <= j < |c.before| ==>
                  var i := start - |c.before| + j; c.before[j] == Item(i, segments[i].text))
            && (forall j :: 0 <= j < |c.edit| ==> c.edit[j] == Item(start + j, segments[start + j].text))
            && (forall j :: 0 <= j < |c.after| ==>
                  var i := c.editEnd + j; c.after[j] == Item(i, segments[i].text))
  {}

  /** The last report: skipped when every chunk failed, degraded when some did. */
  lemma ClosingSays(failed: seq<nat>, total: nat)
    requires total > 0 && |failed| <= total
    ensures Closing(failed, total).progress == 1.0
    ensures Closing(failed, total).notice == if |failed| == total then Skipped
                                             else if |failed| > 0 then Degraded(|failed|, total) else AllDone
  {}
}
