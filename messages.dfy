/**
 * The user-facing texts of frontend/src/App.js and how `handleSubmit`,
 * `handleVideoSubmit` and `pollVideoStatus` choose among them.
 */
module Messages {
  import opened Wrappers

  /**
   * How an axios request failed: the server answered outside 2xx (with the
   * body's `detail`, if any, and the status line), no answer came back, or
   * the request could not be made.
   */
  datatype RequestFailure = ErrorResponse(detail: Option<string>, statusText: string) | NoResponse | SetupError

  const NoResponseMessage := "No response from server. Please check if the backend is running."
  const ImageDefaultMessage := "Error generating images. Please try again."
  const VideoDefaultMessage := "Error generating video. Please try again."
  const NoImagesMessage := "No images were generated because of filtered words. Please try again with a different prompt."
  const VideoStartFailedMessage := "Failed to start video generation. Please try again."
  const PollErrorMessage := "Error checking video status. Please try again."
  const VideoFailedFallback := "Video generation failed"
  const ServerErrorPrefix := "Server error: "

  /** JavaScript's `value || fallback` for a string that may be missing: empty counts as missing. */
  function OrElse(value: Option<string>, fallback: string): (r: string)
    ensures value.Some? && value.value != "" ==> r == value.value
    ensures value.None? || value.value == "" ==> r == fallback
  {
    if value.Some? && value.value != "" then value.value else fallback
  }

  /** The message `handleSubmit` shows when the image request fails. */
  function ImageFailureMessage(f: RequestFailure): (m: string)
    ensures f.ErrorResponse? ==> m == OrElse(f.detail, f.statusText)
    ensures f.NoResponse? ==> m == NoResponseMessage
    ensures f.SetupError? ==> m == ImageDefaultMessage
  {
    match f
    case ErrorResponse(detail, statusText) => OrElse(detail, statusText)
    case NoResponse => NoResponseMessage
    case SetupError => ImageDefaultMessage
  }

  /** The message `handleVideoSubmit` shows when the video request fails. */
  function VideoFailureMessage(f: RequestFailure): (m: string)
    ensures f.ErrorResponse? ==> m == ServerErrorPrefix + OrElse(f.detail, f.statusText)
    ensures f.NoResponse? ==> m == NoResponseMessage
    ensures f.SetupError? ==> m == VideoDefaultMessage
  {
    match f
    case ErrorResponse(detail, statusText) => ServerErrorPrefix + OrElse(detail, statusText)
    case NoResponse => NoResponseMessage
    case SetupError => VideoDefaultMessage
  }

  /**
   * The two submit handlers agree on server answers up to the video tab's
   * "Server error: " prefix, and show the same text when nothing answers.
   */
  lemma VideoMessageExtendsImageMessage(f: RequestFailure)
    ensures f.ErrorResponse? ==> VideoFailureMessage(f) == ServerErrorPrefix + ImageFailureMessage(f)
    ensures f.NoResponse? ==> VideoFailureMessage(f) == ImageFailureMessage(f)
    ensures f.SetupError? ==> VideoFailureMessage(f) != ImageFailureMessage(f)
  {
    if f.SetupError? {
      assert VideoDefaultMessage[17] != ImageDefaultMessage[17];
    }
  }

  /** The message `pollVideoStatus` shows for a failed job: the server's error, or a fixed fallback. */
  function JobFailedMessage(error: Option<string>): (m: string)
    ensures m != ""
    ensures error.Some? && error.value != "" ==> m == error.value
    ensures error.None? || error.value == "" ==> m == VideoFailedFallback
  {
    OrElse(error, VideoFailedFallback)
  }
}
