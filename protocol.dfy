/**
 * The question the backend sends and the browser app receives
 * (`{audio_url, options, answer_index, artist_info, scene_info}`).
 */
module Protocol {
  import opened Wrappers

  datatype Quiz = Quiz(
    audioUrl: string,
    options: seq<string>,
    answerIndex: int,
    artistInfo: Option<string>,
    sceneInfo: Option<string>)
  {
    /** The invariant the front end relies on: the answer names one of the options. */
    predicate WellFormed() {
      0 <= answerIndex < |options|
    }
  }
}
