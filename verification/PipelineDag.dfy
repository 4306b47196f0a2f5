/** The DAG of sub-jobs that one attempt enqueues, and the context keys each
    stage reads and declares as its outputs. */
module PipelineDag {
  datatype Stage =
    | Download | Preprocess | TranscribeAlign | Diarize | AssignSpeakers | Postprocess | LlmCorrection

  /** The three flags that decide the shape: source_url, enable_diarization, is_llm_active. */
  datatype Shape = Shape(url: bool, diarize: bool, llm: bool)

  datatype SubJob = SubJob(stage: Stage, dependsOn: set<Stage>, onSuccess: bool)

  function Stages(shape: Shape): set<Stage> {
    {Preprocess, TranscribeAlign, AssignSpeakers, Postprocess}
    + (if shape.url then {Download} else {})
    + (if shape.diarize then {Diarize} else {})
    + (if shape.llm then {LlmCorrection} else {})
  }

  function DependsOn(shape: Shape, stage: Stage): set<Stage> {
    match stage
    case Download => {}
    case Preprocess => if shape.url then {Download} else {}
    case TranscribeAlign => {Preprocess}
    case Diarize => {Preprocess}
    case AssignSpeakers => if shape.diarize then {TranscribeAlign, Diarize} else {TranscribeAlign}
    case Postprocess => {AssignSpeakers}
    case LlmCorrection => {Postprocess}
  }

  function Tail(shape: Shape): Stage {
    if shape.llm then LlmCorrection else Postprocess
  }

  /** `enqueue_pipeline` appends one sub-job after another; the flag says which of
      them carries the success callback. */
  method BuildDag(shape: Shape) returns (enqueued: seq<SubJob>)
    ensures enqueued == Dag(shape)
  {
    enqueued := [];
    if shape.url {
      enqueued := enqueued + [SubJob(Download, {}, false)];
      enqueued := enqueued + [SubJob(Preprocess, {Download}, false)];
    } else {
      enqueued := enqueued + [SubJob(Preprocess, {}, false)];
    }
    assert enqueued == (if shape.url then [Job(shape, Download)] else []) + [Job(shape, Preprocess)];
    enqueued := enqueued + [SubJob(TranscribeAlign, {Preprocess}, false)];
    var assignDeps := {TranscribeAlign};
    if shape.diarize {
      enqueued := enqueued + [SubJob(Diarize, {Preprocess}, false)];
      assignDeps := {TranscribeAlign, Diarize};
    }
    assert enqueued == Front(shape);
    enqueued := enqueued + [SubJob(AssignSpeakers, assignDeps, false)];
    enqueued := enqueued + [SubJob(Postprocess, {AssignSpeakers}, !shape.llm)];
    if shape.llm {
      enqueued := enqueued + [SubJob(LlmCorrection, {Postprocess}, true)];
    }
  }

  /** The sub-jobs up to the fan-in. */
  function Front(shape: Shape): seq<SubJob> {
    (if shape.url then [Job(shape, Download)] else [])
    + [Job(shape, Preprocess), Job(shape, TranscribeAlign)]
    + (if shape.diarize then [Job(shape, Diarize)] else [])
  }

  /** The same list as an expression, for use in lemmas. */
  function Dag(shape: Shape): seq<SubJob> {
    Front(shape)
    + [Job(shape, AssignSpeakers), Job(shape, Postprocess)]
    + (if shape.llm then [Job(shape, LlmCorrection)] else [])
  }

  function Job(shape: Shape, stage: Stage): SubJob {
    SubJob(stage, DependsOn(shape, stage), stage == Tail(shape))
  }

  /** Where a stage stands in the list: enqueue order is a topological order. */
  function Position(shape: Shape, stage: Stage): nat {
    var u := if shape.url then 1 else 0;
    var d := if shape.diarize then 1 else 0;
    match stage
    case Download => 0
    case Preprocess => u
    case TranscribeAlign => u + 1
    case Diarize => u + 2
    case AssignSpeakers => u + 2 + d
    case Postprocess => u + 3 + d
    case LlmCorrection => u + 4 + d
  }

  lemma DagPositions(shape: Shape, stage: Stage)
    requires stage in Stages(shape)
    ensures Position(shape, stage) < |Dag(shape)|
    ensures Dag(shape)[Position(shape, stage)] == Job(shape, stage)
    ensures forall d :: d in DependsOn(shape, stage) ==>
                d in Stages(shape) && Position(shape, d) < Position(shape, stage)
  {
  }

  /** The list holds the stages of the shape, each once (at its position), and
      exactly one sub-job, the tail, carries the success callback. */
  lemma OneSuccessCallback(shape: Shape, i: nat)
    requires i < |Dag(shape)|
    ensures Dag(shape)[i].stage in Stages(shape) && Position(shape, Dag(shape)[i].stage) == i
    ensures Dag(shape)[i].onSuccess <==> i == |Dag(shape)| - 1
  {
    if shape.url {
      if shape.diarize { if shape.llm {} else {} } else { if shape.llm {} else {} }
    } else {
      if shape.diarize { if shape.llm {} else {} } else { if shape.llm {} else {} }
    }
  }

  /** Every sub-job precedes the tail: a set of stages that contains the tail and,
      with each stage, the stages it depends on, contains them all. */
  lemma TailDominates(shape: Shape, done: set<Stage>)
    requires Tail(shape) in done
    requires forall s, d :: s in done && d in DependsOn(shape, s) ==> d in done
    ensures Stages(shape) <= done
  {
    assert Postprocess in done by {
      if shape.llm { assert Postprocess in DependsOn(shape, LlmCorrection); }
    }
    assert AssignSpeakers in DependsOn(shape, Postprocess);
    assert TranscribeAlign in DependsOn(shape, AssignSpeakers);
    assert Preprocess in DependsOn(shape, TranscribeAlign);
    if shape.url { assert Download in DependsOn(shape, Preprocess); }
    if shape.diarize { assert Diarize in DependsOn(shape, AssignSpeakers); }
  }

  /** Declared outputs, with the keys the download and preprocess hooks seed. The hooks
      write theirs when the stage starts, not when it finishes; nothing is unordered with
      these two stages, so no other stage can tell. */
  function Writes(stage: Stage): set<string> {
    match stage
    case Download => {"input_path", "video_title", "source_url", "download_dir"}
    case Preprocess => {"audio_path", "duration", "input_path"}
    case TranscribeAlign => {"transcription_result", "aligned_result"}
    case Diarize => {"diarize_result"}
    case AssignSpeakers => {"final_result"}
    case Postprocess => {"transcript_result", "quality_warning"}
    case LlmCorrection => {"transcript_result"}
  }

  function Reads(stage: Stage): set<string> {
    match stage
    case Download => {"source_url", "download_dir", "input_path"}
    case Preprocess => {"input_path"}
    case TranscribeAlign => {"audio_path", "language", "batch_size"}
    case Diarize => {"audio_path", "num_speakers", "duration"}
    case AssignSpeakers => {"diarize_result", "aligned_result"}
    case Postprocess => {"final_result", "aligned_result", "transcription_result", "language", "duration"}
    case LlmCorrection => {"transcript_result", "quality_warning"}
  }
}
