/** Small datatypes shared by every module of the model. */
module Common {
  datatype Option<+T> = None | Some(value: T)

  /** One segment of a transcript, as the correction stage edits it and the exporters
      print it. */
  datatype Segment = Segment(start: real, end: real, text: string, speaker: Option<string>)
}
