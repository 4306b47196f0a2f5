/** The slice of the global progress bar each stage fills. */
module ProgressBands {
  datatype Weighted = Weighted(name: string, weight: nat)

  datatype Band = Band(start: real, end: real)

  /* ---------------- the stage list ---------------- */

  function Weight(name: string, hasLlm: bool): nat {
    if name == "download" then 15
    else if name == "preprocess" then 5
    else if name == "transcribe" then 50
    else if name == "align" then 10
    else if name == "diarize" then 25
    else if name == "assign_speakers" then 5
    else if name == "postprocess" then if hasLlm then 2 else 5
    else 8
  }

  /** The stages of a pipeline in order, each with its relative weight. */
  function Stages(hasDownload: bool, hasLlm: bool, hasDiarization: bool): seq<Weighted> {
    (if hasDownload then [Of("download", hasLlm)] else [])
    + [Of("preprocess", hasLlm), Of("transcribe", hasLlm), Of("align", hasLlm)]
    + (if hasDiarization then [Of("diarize", hasLlm)] else [])
    + [Of("assign_speakers", hasLlm), Of("postprocess", hasLlm)]
    + (if hasLlm then [Of("llm_correction", hasLlm)] else [])
  }

  function Of(name: string, hasLlm: bool): Weighted { Weighted(name, Weight(name, hasLlm)) }

  predicate Distinct(stages: seq<Weighted>) {
    forall i, j :: 0 <= i < j < |stages| ==> stages[i].name != stages[j].name
  }

  predicate Positive(stages: seq<Weighted>) {
    forall i :: 0 <= i < |stages| ==> stages[i].weight > 0
  }

  method StageList(hasDownload: bool, hasLlm: bool, hasDiarization: bool) returns (stages: seq<Weighted>)
    ensures stages == Stages(hasDownload, hasLlm, hasDiarization)
  {
    stages := [];
    if hasDownload {
      stages := stages + [Of("download", hasLlm)];
    }
    stages := stages + [Of("preprocess", hasLlm), Of("transcribe", hasLlm), Of("align", hasLlm)];
    if hasDiarization {
      stages := stages + [Of("diarize", hasLlm)];
    }
    stages := stages + [Of("assign_speakers", hasLlm)];
    stages := stages + [Of("postprocess", hasLlm)];
    if hasLlm {
      stages := stages + [Of("llm_correction", hasLlm)];
    }
    Regrouped(stages, hasDownload, hasLlm, hasDiarization);
  }

  lemma Regrouped(stages: seq<Weighted>, hasDownload: bool, hasLlm: bool, hasDiarization: bool)
    requires stages == (if hasDownload then [Of("download", hasLlm)] else [])
                       + [Of("preprocess", hasLlm), Of("transcribe", hasLlm), Of("align", hasLlm)]
                       + (if hasDiarization then [Of("diarize", hasLlm)] else [])
                       + [Of("assign_speakers", hasLlm)] + [Of("postprocess", hasLlm)]
                       + (if hasLlm then [Of("llm_correction", hasLlm)] else [])
    ensures stages == Stages(hasDownload, hasLlm, hasDiarization)
  {}

  /** A place for every stage name, apart from each other. */
  function Place(name: string): nat {
    if name == "download" then 0
    else if name == "preprocess" then 1
    else if name == "transcribe" then 2
    else if name == "align" then 3
    else if name == "diarize" then 4
    else if name == "assign_speakers" then 5
    else if name == "postprocess" then 6
    else 7
  }

  predicate Rising(stages: seq<Weighted>, from: nat, to: nat) {
    && (forall i :: 0 <= i < |stages| ==> from <= Place(stages[i].name) < to && stages[i].weight > 0)
    && (forall i, j :: 0 <= i < j < |stages| ==> Place(stages[i].name) < Place(stages[j].name))
  }

  lemma RisingConcat(a: seq<Weighted>, b: seq<Weighted>, from: nat, mid: nat, to: nat)
    requires from <= mid <= to && Rising(a, from, mid) && Rising(b, mid, to)
    ensures Rising(a + b, from, to)
  {}

  lemma RisingIsProper(stages: seq<Weighted>)
    requires Rising(stages, 0, 8)
    ensures Distinct(stages) && Positive(stages)
  {
    forall i, j | 0 <= i < j < |stages| ensures stages[i].name != stages[j].name {
      assert Place(stages[i].name) < Place(stages[j].name);
    }
  }

  lemma PiecesRise(hasLlm: bool, a: seq<Weighted>, b: seq<Weighted>, c: seq<Weighted>, d: seq<Weighted>,
                   e: seq<Weighted>)
    requires a == [] || a == [Of("download", hasLlm)]
    requires b == [Of("preprocess", hasLlm), Of("transcribe", hasLlm), Of("align", hasLlm)]
    requires c == [] || c == [Of("diarize", hasLlm)]
    requires d == [Of("assign_speakers", hasLlm), Of("postprocess", hasLlm)]
    requires e == [] || e == [Of("llm_correction", hasLlm)]
    ensures Rising(a, 0, 1) && Rising(b, 1, 4) && Rising(c, 4, 5) && Rising(d, 5, 7) && Rising(e, 7, 8)
  {}

  /** Every pipeline shape meets what Bands asks of its caller. */
  lemma StagesAreProper(hasDownload: bool, hasLlm: bool, hasDiarization: bool)
    ensures var stages := Stages(hasDownload, hasLlm, hasDiarization);
            stages != [] && Distinct(stages) && Positive(stages)
  {
    var a := if hasDownload then [Of("download", hasLlm)] else [];
    var b := [Of("preprocess", hasLlm), Of("transcribe", hasLlm), Of("align", hasLlm)];
    var c := if hasDiarization then [Of("diarize", hasLlm)] else [];
    var d := [Of("assign_speakers", hasLlm), Of("postprocess", hasLlm)];
    var e := if hasLlm then [Of("llm_correction", hasLlm)] else [];
    PiecesRise(hasLlm, a, b, c, d, e);
    RisingConcat(a, b, 0, 1, 4);
    RisingConcat(a + b, c, 0, 4, 5);
    RisingConcat(a + b + c, d, 0, 5, 7);
    RisingConcat(a + b + c + d, e, 0, 7, 8);
    RisingIsProper(a + b + c + d + e);
  }

  /* ---------------- bands ---------------- */

  /** The weight of the first k stages. */
  function Upto(stages: seq<Weighted>, k: nat): nat
    requires k <= |stages|
  {
    if k == 0 then 0 else Upto(stages, k - 1) + stages[k - 1].weight
  }

  /** What the bands need of a rounding: monotone, and exact at both ends. */
  ghost predicate Rounding(round: real -> real) {
    && round(0.0) == 0.0 && round(1.0) == 1.0
    && forall x, y :: x <= y ==> round(x) <= round(y)
  }

  /** The rounded share of the bar that lies before stage k. */
  function Mark(stages: seq<Weighted>, round: real -> real, k: nat): real
    requires k <= |stages| && stages != [] && Positive(stages)
  {
    TotalIsPositive(stages);
    round(Upto(stages, k) as real / Upto(stages, |stages|) as real)
  }

  lemma TotalIsPositive(stages: seq<Weighted>)
    requires stages != [] && Positive(stages)
    ensures Upto(stages, |stages|) > 0
  {}

  function BandAt(stages: seq<Weighted>, round: real -> real, k: nat): Band
    requires k < |stages| && Positive(stages)
  {
    Band(Mark(stages, round, k), Mark(stages, round, k + 1))
  }

  /** The dictionary after the first k stages. */
  function BandMap(stages: seq<Weighted>, round: real -> real, k: nat): map<string, Band>
    requires k <= |stages| && Positive(stages)
  {
    if k == 0 then map[] else BandMap(stages, round, k - 1)[stages[k - 1].name := BandAt(stages, round, k - 1)]
  }

  method Bands(stages: seq<Weighted>, round: real -> real) returns (bands: map<string, Band>)
    requires Positive(stages)
    ensures bands == BandMap(stages, round, |stages|)
  {
    var total := 0;
    for i := 0 to |stages|
      invariant total == Upto(stages, i)
    {
      total := total + stages[i].weight;
    }
    bands := map[];
    var cursor := 0;
    for i := 0 to |stages|
      invariant cursor == Upto(stages, i)
      invariant bands == BandMap(stages, round, i)
    {
      TotalIsPositive(stages);
      var start := cursor as real / total as real;
      var end := (cursor + stages[i].weight) as real / total as real;
      bands := bands[stages[i].name := Band(round(start), round(end))];
      cursor := cursor + stages[i].weight;
    }
  }

  /** Distinct stages do not overwrite each other's band. */
  lemma {:induction false} EveryStageHasItsBand(stages: seq<Weighted>, round: real -> real, i: nat, k: nat)
    requires i < k <= |stages| && Distinct(stages) && Positive(stages)
    ensures stages[i].name in BandMap(stages, round, k)
    ensures BandMap(stages, round, k)[stages[i].name] == BandAt(stages, round, i)
  {
    if i < k - 1 {
      EveryStageHasItsBand(stages, round, i, k - 1);
      assert stages[i].name != stages[k - 1].name;
    }
  }

  lemma {:induction false} UptoMonotone(stages: seq<Weighted>, j: nat, k: nat)
    requires j <= k <= |stages|
    ensures Upto(stages, j) <= Upto(stages, k)
  {
    if j < k { UptoMonotone(stages, j, k - 1); }
  }

  lemma Share(a: nat, b: nat, total: nat)
    requires a <= b && total > 0
    ensures a as real / total as real <= b as real / total as real
  {}

  lemma ShareEnds(total: nat)
    requires total > 0
    ensures 0 as real / total as real == 0.0 && total as real / total as real == 1.0
  {}

  lemma MarkEnds(stages: seq<Weighted>, round: real -> real)
    requires stages != [] && Positive(stages) && Rounding(round)
    ensures Mark(stages, round, 0) == 0.0 && Mark(stages, round, |stages|) == 1.0
  {
    TotalIsPositive(stages);
    ShareEnds(Upto(stages, |stages|));
  }

  lemma MarksRise(stages: seq<Weighted>, round: real -> real, j: nat, k: nat)
    requires stages != [] && Positive(stages) && Rounding(round) && j <= k <= |stages|
    ensures 0.0 <= Mark(stages, round, j) <= Mark(stages, round, k) <= 1.0
  {
    UptoMonotone(stages, j, k);
    UptoMonotone(stages, k, |stages|);
    TotalIsPositive(stages);
    Share(0, Upto(stages, j), Upto(stages, |stages|));
    Share(Upto(stages, j), Upto(stages, k), Upto(stages, |stages|));
    Share(Upto(stages, k), Upto(stages, |stages|), Upto(stages, |stages|));
    MarkEnds(stages, round);
  }

  /** [0, 1] cut into pieces, in order: the first starts at 0, the last ends at 1, and
      every piece ends, not before it starts, where the next one starts. */
  predicate Tiling(bands: seq<Band>) {
    && bands != [] && bands[0].start == 0.0 && bands[|bands| - 1].end == 1.0
    && (forall i :: 0 <= i < |bands| ==> bands[i].start <= bands[i].end)
    && (forall i, j :: 0 <= i && j == i + 1 < |bands| ==> bands[i].end == bands[j].start)
  }

  /** The bands of the stages as the dictionary has them. */
  function Drawn(stages: seq<Weighted>, bands: map<string, Band>): seq<Band>
    requires forall i :: 0 <= i < |stages| ==> stages[i].name in bands
  {
    seq(|stages|, i requires 0 <= i < |stages| => bands[stages[i].name])
  }

  lemma MarksTile(stages: seq<Weighted>, round: real -> real, bands: seq<Band>)
    requires stages != [] && Positive(stages) && Rounding(round) && |bands| == |stages|
    requires forall i :: 0 <= i < |bands| ==> bands[i] == BandAt(stages, round, i)
    ensures Tiling(bands)
  {
    MarkEnds(stages, round);
    forall i | 0 <= i < |bands| ensures bands[i].start <= bands[i].end {
      MarksRise(stages, round, i, i + 1);
    }
  }

  /** The dictionary has a band for every stage, and in order they tile [0, 1]. */
  lemma BandsTile(stages: seq<Weighted>, round: real -> real)
    requires stages != [] && Distinct(stages) && Positive(stages) && Rounding(round)
    ensures var bands := BandMap(stages, round, |stages|);
            && (forall i :: 0 <= i < |stages| ==> stages[i].name in bands)
            && Tiling(Drawn(stages, bands))
  {
    var bands := BandMap(stages, round, |stages|);
    forall i | 0 <= i < |stages|
      ensures stages[i].name in bands && bands[stages[i].name] == BandAt(stages, round, i)
    {
      EveryStageHasItsBand(stages, round, i, |stages|);
    }
    MarksTile(stages, round, Drawn(stages, bands));
  }

  function Sum(stages: seq<Weighted>): nat {
    if stages == [] then 0 else stages[0].weight + Sum(stages[1..])
  }

  lemma {:induction false} SumSnoc(stages: seq<Weighted>, s: Weighted)
    ensures Sum(stages + [s]) == Sum(stages) + s.weight
  {
    if stages == [] {
      assert stages + [s] == [s];
    } else {
      SumSnoc(stages[1..], s);
      assert (stages + [s])[1..] == stages[1..] + [s];
    }
  }

  lemma {:induction false} UptoIsSum(stages: seq<Weighted>, k: nat)
    requires k <= |stages|
    ensures Upto(stages, k) == Sum(stages[..k])
  {
    if k > 0 {
      UptoIsSum(stages, k - 1);
      SumSnoc(stages[..k - 1], stages[k - 1]);
      assert stages[..k] == stages[..k - 1] + [stages[k - 1]];
    }
  }

  /** Each band is the rounded share of the weights before its stage, and of those up to
      and with it. */
  lemma BandsAreShares(stages: seq<Weighted>, round: real -> real, k: nat)
    requires k < |stages| && Positive(stages)
    ensures Sum(stages) > 0
    ensures var total := Sum(stages) as real;
            BandAt(stages, round, k)
            == Band(round(Sum(stages[..k]) as real / total), round(Sum(stages[..k + 1]) as real / total))
  {
    MarkIsShare(stages, round, k);
    MarkIsShare(stages, round, k + 1);
  }

  lemma MarkIsShare(stages: seq<Weighted>, round: real -> real, k: nat)
    requires k <= |stages| && stages != [] && Positive(stages)
    ensures Sum(stages) > 0
    ensures Mark(stages, round, k) == round(Sum(stages[..k]) as real / Sum(stages) as real)
  {
    TotalIsPositive(stages);
    UptoIsSum(stages, k);
    UptoIsSum(stages, |stages|);
    assert stages[..|stages|] == stages;
  }

  /** The weights, shape by shape. */
  lemma StagesAre(hasDownload: bool, hasLlm: bool, hasDiarization: bool)
    ensures Stages(hasDownload, hasLlm, hasDiarization) ==
              (if hasDownload then [Weighted("download", 15)] else [])
              + [Weighted("preprocess", 5), Weighted("transcribe", 50), Weighted("align", 10)]
              + (if hasDiarization then [Weighted("diarize", 25)] else [])
              + [Weighted("assign_speakers", 5), Weighted("postprocess", if hasLlm then 2 else 5)]
              + (if hasLlm then [Weighted("llm_correction", 8)] else [])
  {}

  /* ---------------- sequential runs ---------------- */

  /** One report of a stage: its position in the list and its local progress. */
  datatype Report = Report(stage: nat, local: real)

  function Global(band: Band, local: real): real { band.start + local * (band.end - band.start) }

  /** Stages one after another, each with local progress in [0, 1] that never falls. */
  predicate Sequential(reports: seq<Report>, n: nat) {
    && (forall i :: 0 <= i < |reports| ==> reports[i].stage < n && 0.0 <= reports[i].local <= 1.0)
    && (forall i, j :: 0 <= i && j == i + 1 < |reports| ==>
          reports[i].stage < reports[j].stage
          || (reports[i].stage == reports[j].stage && reports[i].local <= reports[j].local))
  }

  function Shown(stages: seq<Weighted>, round: real -> real, r: Report): real
    requires stages != [] && Positive(stages) && r.stage < |stages|
  {
    Global(BandAt(stages, round, r.stage), r.local)
  }

  lemma Scale(p: real, q: real, span: real)
    requires p <= q && 0.0 <= span
    ensures p * span <= q * span
  {}

  lemma Interpolates(band: Band, p: real, q: real)
    requires band.start <= band.end && 0.0 <= p <= q <= 1.0
    ensures band.start <= Global(band, p) <= Global(band, q) <= band.end
    ensures Global(band, 0.0) == band.start && Global(band, 1.0) == band.end
  {
    var span := band.end - band.start;
    Scale(0.0, p, span);
    Scale(p, q, span);
    Scale(q, 1.0, span);
  }

  /** The bar of a sequential run never moves back and stays within [0, 1], for any
      weights and any rounding. */
  lemma {:induction false} BarNeverFalls(stages: seq<Weighted>, round: real -> real, reports: seq<Report>,
                                       i: nat, j: nat)
    requires stages != [] && Positive(stages) && Rounding(round)
    requires Sequential(reports, |stages|) && i <= j < |reports|
    ensures 0.0 <= Shown(stages, round, reports[i]) <= Shown(stages, round, reports[j]) <= 1.0
    decreases j - i
  {
    var a, b := reports[i], reports[j];
    InBand(stages, round, a);
    InBand(stages, round, b);
    if i < j {
      BarNeverFalls(stages, round, reports, i, j - 1);
      assert j == j - 1 + 1;
      NextIsHigher(stages, round, reports[j - 1], b);
    }
  }

  lemma InBand(stages: seq<Weighted>, round: real -> real, r: Report)
    requires stages != [] && Positive(stages) && Rounding(round) && r.stage < |stages| && 0.0 <= r.local <= 1.0
    ensures 0.0 <= Mark(stages, round, r.stage) <= Shown(stages, round, r) <= Mark(stages, round, r.stage + 1) <= 1.0
  {
    MarksRise(stages, round, r.stage, r.stage + 1);
    Interpolates(BandAt(stages, round, r.stage), r.local, r.local);
  }

  lemma NextIsHigher(stages: seq<Weighted>, round: real -> real, a: Report, b: Report)
    requires stages != [] && Positive(stages) && Rounding(round)
    requires a.stage < |stages| && b.stage < |stages| && 0.0 <= a.local <= 1.0 && 0.0 <= b.local <= 1.0
    requires a.stage < b.stage || (a.stage == b.stage && a.local <= b.local)
    ensures Shown(stages, round, a) <= Shown(stages, round, b)
  {
    InBand(stages, round, a);
    InBand(stages, round, b);
    if a.stage < b.stage {
      MarksRise(stages, round, a.stage + 1, b.stage);
    } else {
      Interpolates(BandAt(stages, round, a.stage), a.local, b.local);
    }
  }

  /** A run from the start of the first stage to the end of the last goes from 0 to 1. */
  lemma BarRunsFromZeroToOne(stages: seq<Weighted>, round: real -> real)
    requires stages != [] && Positive(stages) && Rounding(round)
    ensures Shown(stages, round, Report(0, 0.0)) == 0.0
    ensures Shown(stages, round, Report(|stages| - 1, 1.0)) == 1.0
  {
    MarkEnds(stages, round);
    MarksRise(stages, round, 0, 1);
    MarksRise(stages, round, |stages| - 1, |stages|);
    Interpolates(BandAt(stages, round, 0), 0.0, 0.0);
    Interpolates(BandAt(stages, round, |stages| - 1), 1.0, 1.0);
  }

  /* ---------------- the rounding in use ---------------- */

  /** Rounding to four places, ties to even, on exact numbers. */
  function Round4(x: real): real { HalfEven(x * 10000.0) as real / 10000.0 }

  function HalfEven(x: real): int {
    var n := x.Floor;
    var rest := x - n as real;
    if rest < 0.5 || (rest == 0.5 && n % 2 == 0) then n else n + 1
  }

  lemma HalfEvenMonotone(x: real, y: real)
    requires x <= y
    ensures HalfEven(x) <= HalfEven(y)
  {
    assert x.Floor <= y.Floor;
  }

  lemma Round4IsARounding()
    ensures Rounding(Round4)
  {
    assert (0.0 * 10000.0).Floor == 0 && (1.0 * 10000.0).Floor == 10000;
    forall x: real, y: real | x <= y ensures Round4(x) <= Round4(y) {
      HalfEvenMonotone(x * 10000.0, y * 10000.0);
    }
  }
}
