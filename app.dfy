/**
 * The `App` component of frontend/src/App.js as a state machine: its
 * `useState` hooks are the fields of `AppState`, and each event handler is
 * a method. Network answers, `atob` and timer firings are parameters of the
 * methods; the browser's live timers and open requests are recorded beside
 * the hooks.
 */
module App {
  import opened Wrappers
  import opened Text
  import opened Messages
  import opened Playback
  import opened Download
  import opened Sequences
  import ImageRequest
  import Aggregation

  type Image = ImageRequest.Image

  /** The choices of the "Number of Images" selector. */
  const NumImageChoices: seq<int> := [1, 2, 4, 6, 8, 10, 20, 30, 40, 50, 75, 100]
  /** The range of the duration slider, in seconds. */
  const MinDuration := 1
  const MaxDuration := 10
  const DownloadErrorMessage := "Error downloading image. Please try again."

  /** The characters JavaScript's `String.prototype.trim` removes. */
  predicate JsWhiteSpace(c: char)
  {
    c == '\t' || c == '\n' || c == '\U{000B}' || c == '\U{000C}' || c == '\r' || c == ' '
    || c == '\U{00A0}' || c == '\U{1680}' || ('\U{2000}' <= c <= '\U{200A}')
    || c == '\U{2028}' || c == '\U{2029}' || c == '\U{202F}' || c == '\U{205F}'
    || c == '\U{3000}' || c == '\U{FEFF}'
  }

  /** `s.trim()` is empty. */
  predicate Blank(s: string)
  {
    forall i :: 0 <= i < |s| ==> JsWhiteSpace(s[i])
  }

  /** How the image request ended: a 2xx body, whose `images` may be missing, or a failure. */
  datatype ImagesReply = ImagesBody(images: Option<seq<Image>>) | ImagesFailed(failure: RequestFailure)

  /** How the video request ended: a 2xx body, whose `job_id` may be missing or empty, or a failure. */
  datatype VideoReply = JobBody(jobId: Option<string>) | VideoFailed(failure: RequestFailure)

  /** How one status poll ended: a 2xx body, or any failure of the request. */
  datatype StatusReply = StatusBody(status: string, frames: seq<Image>, error: Option<string>) | StatusFailed

  /** What `pollVideoStatus` does with one answer. */
  datatype PollDecision = ShowFrames(frames: seq<Image>) | ShowFailure(message: string) | PollAgain | PollBroken

  function DecidePoll(reply: StatusReply): (d: PollDecision)
    ensures d.ShowFrames? <==> reply.StatusBody? && reply.status == "completed"
    ensures d.ShowFrames? ==> d.frames == reply.frames
    ensures d.ShowFailure? <==> reply.StatusBody? && reply.status == "failed"
    ensures d.ShowFailure? ==> d.message == JobFailedMessage(reply.error)
    ensures d.PollAgain? <==> reply.StatusBody? && reply.status != "completed" && reply.status != "failed"
    ensures d.PollBroken? <==> reply.StatusFailed?
  {
    match reply
    case StatusFailed => PollBroken
    case StatusBody(status, frames, error) =>
      if status == "completed" then ShowFrames(frames)
      else if status == "failed" then ShowFailure(JobFailedMessage(error))
      else PollAgain
  }

  /** A saved download: its file name and the byte arrays of the `Blob`. */
  datatype SavedFile = SavedFile(name: string, arrays: seq<seq<Byte>>)

  /**
   * `file` is the download of `decoded` under `name`: the slices of the
   * decoded text, all 512 bytes long but the last, laid end to end are
   * exactly its bytes.
   */
  predicate SavedAs(file: SavedFile, name: string, decoded: string)
  {
    && file.name == name
    && |file.arrays| == SliceCount(|decoded|)
    && (forall k :: 0 <= k < |file.arrays| ==> 0 < |file.arrays[k]| <= SliceLength)
    && (forall k :: 0 <= k < |file.arrays| - 1 ==> |file.arrays[k]| == SliceLength)
    && Flatten(file.arrays) == CharCodes(decoded)
  }

  /**
   * The component's state: one field per `useState` hook (`activeTab` only
   * selects what is rendered and is left out), then the browser around it.
   * `playbackInterval` holds a timer handle; browsers hand out positive
   * handles, so `Some` is the truthy case. `intervals` maps each live
   * `setInterval` timer to the frame count its callback captured,
   * `videoRequestOpen` marks a `POST /generate-video` awaiting its answer,
   * and `pendingPoll` the job whose next status poll is scheduled or
   * awaiting its answer.
   */
  datatype Screen = Screen(
    prompt: string, platform: string, stylePreset: string, numImages: int,
    images: seq<Image>, loading: bool, error: string, openSnackbar: bool,
    successMessage: string, openSuccessSnackbar: bool,
    videoPrompt: string, videoDuration: int, videoStylePreset: string,
    videoJobId: Option<string>, videoStatus: Option<string>, videoFrames: seq<Image>,
    videoLoading: bool, videoError: string, currentFrameIndex: int,
    isPlaying: bool, playbackInterval: Option<nat>,
    intervals: map<nat, nat>, videoRequestOpen: bool, pendingPoll: Option<string>)

  // The forms' starting values. They are the page's own, written in its
  // `useState` calls, and are kept apart from the service's request-model
  // defaults (`ImageRequest.DefaultPlatform` and the rest), which they
  // happen to equal.
  const InitialPlatform := "web"
  const InitialStylePreset := "photographic"
  const InitialNumImages := 4
  const InitialDuration := 5

  /** The state of a freshly mounted component. */
  const Initial := Screen(
    "", InitialPlatform, InitialStylePreset, InitialNumImages,
    [], false, "", false,
    "", false,
    "", InitialDuration, InitialStylePreset,
    None, None, [],
    false, "", 0,
    false, None,
    map[], false, None)

  /**
   * The frame index points at a frame whenever there are frames; at most
   * one playback timer runs, it is the one held in state, it captured the
   * current frame count, and it runs exactly while `isPlaying`; while a
   * video is being requested or polled there are no frames and no timer.
   */
  ghost predicate Consistent(s: Screen)
  {
    && 1 <= s.numImages <= ImageRequest.MaxImages
    && MinDuration <= s.videoDuration <= MaxDuration
    && (s.videoFrames == [] ==> s.currentFrameIndex == 0)
    && (s.videoFrames != [] ==> 0 <= s.currentFrameIndex < |s.videoFrames|)
    && (forall h :: h in s.intervals ==> s.intervals[h] == |s.videoFrames| && s.playbackInterval == Some(h))
    && (s.isPlaying <==> s.intervals != map[])
    && (s.videoRequestOpen ==> s.videoLoading && s.videoFrames == [] && s.intervals == map[] && s.pendingPoll.None?)
    && (s.pendingPoll.Some? ==> s.videoLoading && s.videoFrames == [] && s.intervals == map[])
  }

  /**
   * The text of the one error notice, `{error || videoError}`: the image
   * tab's error wins whenever it is non-empty, so a video error shows only
   * while `error` is empty.
   */
  function SnackbarText(s: Screen): (text: string)
    ensures s.error != "" ==> text == s.error
    ensures s.error == "" ==> text == s.videoError
  {
    OrElse(Some(s.error), s.videoError)
  }

  /**
   * A video error reaches the notice exactly when the image tab holds no
   * error of its own or the very same text: `handleVideoSubmit` never
   * clears `error`, so a stale image error hides every later video error.
   */
  lemma VideoErrorShownIff(s: Screen)
    ensures SnackbarText(s) == s.videoError <==> s.error == "" || s.error == s.videoError
  {
  }

  class AppState {
    var state: Screen

    ghost predicate Valid()
      reads this
    {
      Consistent(state)
    }

    constructor()
      ensures Valid()
      ensures state == Initial
    {
      state := Initial;
    }

    /** The image form's `onChange` handlers; the count comes from its selector. */
    method EditImageForm(prompt: string, platform: string, stylePreset: string, numImages: int)
      requires Valid() && numImages in NumImageChoices
      modifies this
      ensures Valid()
      ensures state == old(state).(prompt := prompt, platform := platform, stylePreset := stylePreset,
                                   numImages := numImages)
    {
      state := state.(prompt := prompt, platform := platform, stylePreset := stylePreset, numImages := numImages);
    }

    /** The video form's `onChange` handlers; the duration comes from its slider. */
    method EditVideoForm(prompt: string, duration: int, stylePreset: string)
      requires Valid() && MinDuration <= duration <= MaxDuration
      modifies this
      ensures Valid()
      ensures state == old(state).(videoPrompt := prompt, videoDuration := duration, videoStylePreset := stylePreset)
    {
      state := state.(videoPrompt := prompt, videoDuration := duration, videoStylePreset := stylePreset);
    }

    /**
     * `handleSubmit` up to its `await`: the button is enabled only when no
     * request runs and the prompt is not blank. The body sent always passes
     * the backend's count check.
     */
    method BeginSubmit() returns (request: ImageRequest.PromptRequest)
      requires Valid() && !state.loading && !Blank(state.prompt)
      modifies this
      ensures Valid()
      ensures request == ImageRequest.PromptRequest(state.prompt, state.platform, state.stylePreset, state.numImages)
      ensures ImageRequest.ValidateNumImages(request.numImages) == Ok(request.numImages)
      ensures state == old(state).(loading := true, error := "", images := [])
    {
      state := state.(loading := true, error := "", images := []);
      request := ImageRequest.PromptRequest(state.prompt, state.platform, state.stylePreset, state.numImages);
    }

    /** `handleSubmit` after its `await`. */
    method FinishSubmit(reply: ImagesReply)
      requires Valid() && state.loading
      modifies this
      ensures Valid()
      ensures reply.ImagesBody? && reply.images.Some? && |reply.images.value| > 0 ==>
                state == old(state).(loading := false, images := reply.images.value)
      ensures reply.ImagesBody? && (reply.images.None? || |reply.images.value| == 0) ==>
                state == old(state).(loading := false, error := NoImagesMessage, openSnackbar := true)
      ensures reply.ImagesFailed? ==>
                state == old(state).(loading := false, error := ImageFailureMessage(reply.failure), openSnackbar := true)
    {
      match reply
      case ImagesBody(found) =>
        if found.Some? && |found.value| > 0 {
          state := state.(loading := false, images := found.value);
        } else {
          state := state.(loading := false, error := NoImagesMessage, openSnackbar := true);
        }
      case ImagesFailed(failure) =>
        state := state.(loading := false, error := ImageFailureMessage(failure), openSnackbar := true);
    }

    /**
     * `handleVideoSubmit` up to its `await`: the button is enabled only when
     * no video is loading and the prompt is not empty. It resets the video
     * tab and stops any playback timer; the duration sent asks for 10 to 30
     * frames.
     */
    method BeginVideoSubmit() returns (request: Aggregation.VideoRequest)
      requires Valid() && !state.videoLoading && state.videoPrompt != ""
      modifies this
      ensures Valid()
      ensures request == Aggregation.VideoRequest(state.videoPrompt, state.videoDuration, state.videoStylePreset)
      ensures 10 <= Aggregation.NumFrames(request.duration) <= Aggregation.MaxFrames
      ensures state == old(state).(videoLoading := true, videoError := "", videoFrames := [], videoStatus := None,
                                   currentFrameIndex := 0, isPlaying := false, playbackInterval := None,
                                   intervals := map[], videoRequestOpen := true)
    {
      state := state.(videoLoading := true, videoError := "", videoFrames := [], videoStatus := None,
                      currentFrameIndex := 0, isPlaying := false);
      if state.playbackInterval.Some? {
        state := state.(intervals := state.intervals - {state.playbackInterval.value}, playbackInterval := None);
      }
      assert state.intervals == map[];
      state := state.(videoRequestOpen := true);
      request := Aggregation.VideoRequest(state.videoPrompt, state.videoDuration, state.videoStylePreset);
    }

    /**
     * `handleVideoSubmit` after its `await`. A body without a job id leaves
     * `videoLoading` set, as the handler does.
     */
    method FinishVideoSubmit(reply: VideoReply)
      requires Valid() && state.videoRequestOpen
      modifies this
      ensures Valid()
      ensures reply.JobBody? && reply.jobId.Some? && reply.jobId.value != "" ==>
                state == old(state).(videoRequestOpen := false, videoJobId := reply.jobId,
                                     videoStatus := Some("processing"), pendingPoll := reply.jobId)
      ensures reply.JobBody? && (reply.jobId.None? || reply.jobId.value == "") ==>
                state == old(state).(videoRequestOpen := false, videoError := VideoStartFailedMessage,
                                     openSnackbar := true)
      ensures reply.VideoFailed? ==>
                state == old(state).(videoRequestOpen := false, videoError := VideoFailureMessage(reply.failure),
                                     openSnackbar := true, videoLoading := false)
    {
      state := state.(videoRequestOpen := false);
      match reply
      case JobBody(jobId) =>
        if jobId.Some? && jobId.value != "" {
          state := state.(videoJobId := jobId, videoStatus := Some("processing"), pendingPoll := jobId);
        } else {
          state := state.(videoError := VideoStartFailedMessage, openSnackbar := true);
        }
      case VideoFailed(failure) =>
        state := state.(videoError := VideoFailureMessage(failure), openSnackbar := true, videoLoading := false);
    }

    /**
     * One run of `pollVideoStatus` for the pending job: a finished job ends
     * polling with its frames or its error, a running one schedules the
     * next poll of the same job, and a failed request ends polling.
     */
    method PollStep(reply: StatusReply)
      requires Valid() && state.pendingPoll.Some?
      modifies this
      ensures Valid()
      ensures match DecidePoll(reply)
        case ShowFrames(frames) =>
          state == old(state).(videoStatus := Some("completed"), videoFrames := frames,
                               videoLoading := false, pendingPoll := None)
        case ShowFailure(message) =>
          state == old(state).(videoError := message, openSnackbar := true, videoLoading := false, pendingPoll := None)
        case PollAgain =>
          state == old(state).(videoStatus := Some("processing"))
        case PollBroken =>
          state == old(state).(videoError := PollErrorMessage, openSnackbar := true,
                               videoLoading := false, pendingPoll := None)
    {
      match DecidePoll(reply)
      case ShowFrames(frames) =>
        state := state.(videoStatus := Some("completed"), videoFrames := frames, videoLoading := false,
                        pendingPoll := None);
      case ShowFailure(message) =>
        state := state.(videoError := message, openSnackbar := true, videoLoading := false, pendingPoll := None);
      case PollAgain =>
        state := state.(videoStatus := Some("processing"));
      case PollBroken =>
        state := state.(videoError := PollErrorMessage, openSnackbar := true, videoLoading := false,
                        pendingPoll := None);
    }

    /**
     * `handlePlayVideo`, reached through the play/pause toggle, so only when
     * not playing; `handle` is the fresh id `setInterval` returns.
     */
    method Play(handle: nat)
      requires Valid() && !state.isPlaying && handle !in state.intervals
      modifies this
      ensures Valid()
      ensures old(state.videoFrames) == [] ==> state == old(state)
      ensures old(state.videoFrames) != [] ==>
                state == old(state).(isPlaying := true, playbackInterval := Some(handle),
                                     intervals := old(state.intervals)[handle := |old(state.videoFrames)|])
    {
      if |state.videoFrames| == 0 {
        return;
      }
      state := state.(isPlaying := true, intervals := state.intervals[handle := |state.videoFrames|],
                      playbackInterval := Some(handle));
    }

    /**
     * One firing of the live timer `handle`: the index moves as `NextFrame`
     * says, and the firing that wraps to 0 clears that timer and stops
     * playback. The stale handle stays in `playbackInterval`, as in the
     * component.
     */
    method Tick(handle: nat)
      requires Valid() && handle in state.intervals
      modifies this
      ensures Valid()
      ensures var s := NextFrame(old(state.currentFrameIndex), old(state.intervals)[handle]);
        state == if s.stopped
          then old(state).(currentFrameIndex := s.index, isPlaying := false, intervals := old(state.intervals) - {handle})
          else old(state).(currentFrameIndex := s.index)
    {
      var s := NextFrame(state.currentFrameIndex, state.intervals[handle]);
      if s.stopped {
        state := state.(intervals := state.intervals - {handle}, isPlaying := false);
      }
      state := state.(currentFrameIndex := s.index);
    }

    /**
     * `handlePauseVideo`: afterwards nothing plays and no handle is held,
     * so pausing again changes nothing.
     */
    method Pause()
      requires Valid()
      modifies this
      ensures Valid()
      ensures !state.isPlaying && state.playbackInterval.None? && state.intervals == map[]
      ensures state == old(state).(isPlaying := false, playbackInterval := None, intervals := map[])
      ensures old(!state.isPlaying && state.playbackInterval.None?) ==> state == old(state)
    {
      if state.playbackInterval.Some? {
        state := state.(intervals := state.intervals - {state.playbackInterval.value}, playbackInterval := None);
      }
      assert state.intervals == map[];
      state := state.(isPlaying := false);
    }

    /** `handleFrameChange`, from the frame slider, whose range is the frame indices. */
    method FrameChange(newValue: int)
      requires Valid() && state.videoFrames != [] && 0 <= newValue < |state.videoFrames|
      modifies this
      ensures Valid()
      ensures state == old(state).(currentFrameIndex := newValue)
    {
      state := state.(currentFrameIndex := newValue);
    }

    /** `handleCloseSnackbar`: hides the error notice of either tab. */
    method CloseSnackbar()
      requires Valid()
      modifies this
      ensures Valid()
      ensures state == old(state).(openSnackbar := false)
    {
      state := state.(openSnackbar := false);
    }

    /** `handleCloseSuccessSnackbar`: hides the download notice. */
    method CloseSuccessSnackbar()
      requires Valid()
      modifies this
      ensures Valid()
      ensures state == old(state).(openSuccessSnackbar := false)
    {
      state := state.(openSuccessSnackbar := false);
    }

    /**
     * `handleDownloadImage`; `decodeBase64` stands for `atob`, `None` when
     * it throws. The file holds the decoded bytes under the download name.
     */
    method DownloadImage(base64Data: string, index: nat, platform: string, stylePreset: string,
                         decodeBase64: string -> Option<string>)
      returns (file: Option<SavedFile>)
      requires Valid()
      modifies this
      ensures Valid()
      ensures file.Some? <==> decodeBase64(base64Data).Some?
      ensures file.Some? ==>
                SavedAs(file.value, DownloadFilename(platform, stylePreset, index), decodeBase64(base64Data).value)
      ensures file.Some? ==>
                state == old(state).(successMessage := DownloadedMessage(index), openSuccessSnackbar := true)
      ensures file.None? ==> state == old(state).(error := DownloadErrorMessage, openSnackbar := true)
    {
      match decodeBase64(base64Data)
      case None =>
        state := state.(error := DownloadErrorMessage, openSnackbar := true);
        file := None;
      case Some(decoded) =>
        var arrays := ByteArrays(decoded);
        file := Some(SavedFile(DownloadFilename(platform, stylePreset, index), arrays));
        state := state.(successMessage := DownloadedMessage(index), openSuccessSnackbar := true);
    }

    /** `handleDownloadVideo`: saves the frame on screen as a "video" image of the video's style. */
    method DownloadVideo(decodeBase64: string -> Option<string>) returns (file: Option<SavedFile>)
      requires Valid()
      modifies this
      ensures Valid()
      ensures old(state.videoFrames) == [] ==> file.None? && state == old(state)
      ensures old(state.videoFrames) != [] ==>
                var index := old(state.currentFrameIndex);
                var decoded := decodeBase64(old(state.videoFrames)[index].base64);
                && (file.Some? <==> decoded.Some?)
                && (file.Some? ==> SavedAs(file.value, DownloadFilename("video", old(state.videoStylePreset), index),
                                           decoded.value))
                && (file.Some? ==> state == old(state).(successMessage := DownloadedMessage(index),
                                                        openSuccessSnackbar := true))
                && (file.None? ==> state == old(state).(error := DownloadErrorMessage, openSnackbar := true))
    {
      file := None;
      if |state.videoFrames| > 0 && state.currentFrameIndex < |state.videoFrames| {
        var frame := state.videoFrames[state.currentFrameIndex];
        file := DownloadImage(frame.base64, state.currentFrameIndex, "video", state.videoStylePreset, decodeBase64);
      }
    }
  }

  const DownloadedLead := "Image "
  const DownloadedTail := " downloaded successfully!"

  /** The success notice of a download: it names the image by its number, counted from 1. */
  function DownloadedMessage(index: nat): (m: string)
    ensures |DownloadedLead| + |DownloadedTail| < |m|
    ensures m[..|DownloadedLead|] == DownloadedLead
    ensures m[|m| - |DownloadedTail|..] == DownloadedTail
    ensures forall i :: |DownloadedLead| <= i < |m| - |DownloadedTail| ==> IsDigit(m[i])
    ensures ParseDecimal(m[|DownloadedLead|..|m| - |DownloadedTail|]) == index + 1
    ensures m[|DownloadedLead|] != '0'
  {
    NumberedParts(DownloadedLead, index + 1, DownloadedTail);
    DownloadedLead + NatToString(index + 1) + DownloadedTail
  }
}
