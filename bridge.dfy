/**
 * How the page and the service meet: the JSON answers of backend/main.py
 * as frontend/src/App.js reads them, and what the page then shows.
 */
module Bridge {
  import opened Wrappers
  import opened ImageErrorTexts
  import opened Messages
  import opened ImageRequest
  import opened Aggregation
  import opened VideoJobs
  import opened App
  import Labels
  import Text

  /** The reason phrase axios reports as `statusText` for the codes the service sends. */
  function StatusText(status: int): string
  {
    match status
    case 400 => "Bad Request"
    case 403 => "Forbidden"
    case 404 => "Not Found"
    case 500 => "Internal Server Error"
    case _ => ""
  }

  /** An `HTTPException` as axios rejects with it: a response whose body carries `detail`. */
  function HttpFailure(e: HttpError): RequestFailure
  {
    ErrorResponse(Some(e.detail), StatusText(e.status))
  }

  /** The answer to `POST /generate-images` as the page receives it. */
  function ImagesAnswer(r: Result<seq<Image>, HttpError>): ImagesReply
  {
    match r
    case Ok(images) => ImagesBody(Some(images))
    case Err(e) => ImagesFailed(HttpFailure(e))
  }

  /**
   * The answer to `GET /video-status/{job_id}` as the page receives it: an
   * error status rejects the request, and a body carries the status text,
   * the frames of a completed job and the error of a failed one.
   */
  function StatusAnswer(r: Result<StatusResponse, HttpError>): (reply: StatusReply)
    ensures reply.StatusFailed? <==> r.Err?
    ensures reply.StatusBody? ==> reply.status == "completed" || reply.status == "failed" || reply.status == "processing"
    ensures reply.StatusBody? && reply.status == "completed" <==> r.Ok? && r.value.CompletedStatus?
    ensures r.Ok? && r.value.CompletedStatus? ==> reply.frames == r.value.frames
    ensures reply.StatusBody? && reply.status == "failed" <==> r.Ok? && r.value.FailedStatus?
    ensures r.Ok? && r.value.FailedStatus? ==> reply.error == r.value.error
  {
    match r
    case Err(_) => StatusFailed
    case Ok(CompletedStatus(_, frames)) => StatusBody("completed", frames, None)
    case Ok(FailedStatus(error)) => StatusBody("failed", [], error)
    case Ok(ProcessingStatus(_)) => StatusBody("processing", [], None)
  }

  /** A service error with a detail shows that detail, on the video tab after "Server error: ". */
  lemma ErrorDetailShown(e: HttpError)
    requires e.detail != ""
    ensures ImageFailureMessage(HttpFailure(e)) == e.detail
    ensures VideoFailureMessage(HttpFailure(e)) == ServerErrorPrefix + e.detail
  {
  }

  /**
   * Whatever the image tasks answer, the page either lists a non-empty
   * set of images or shows the service's 500 "no images" detail: its "no
   * images because of filtered words" branch is never taken for this
   * service.
   */
  lemma ImagesOutcomeOnPage(request: PromptRequest, replies: seq<Reply>)
    requires |replies| == |ImageTasks(request)|
    ensures var r := ImagesOutcome(RunTasks(ImageTasks(request), replies));
      && (r.Ok? ==> ImagesAnswer(r) == ImagesBody(Some(r.value)) && |r.value| > 0)
      && (r.Err? ==> r.error == HttpError(500, NoImagesDetail) && ImagesAnswer(r).ImagesFailed?
                     && ImageFailureMessage(ImagesAnswer(r).failure) == NoImagesDetail)
  {
    var r := ImagesOutcome(RunTasks(ImageTasks(request), replies));
    NoAdditionalFiltering(request, replies);
    if r.Err? {
      assert |NoImagesDetail| > 0;
      ErrorDetailShown(r.error);
    }
  }

  /**
   * With the corrected collection the page likewise lists images or shows
   * the service's own detail: the length message, the refusal message or
   * the "no images" detail.
   */
  lemma ImagesOutcomeOnPageIntended(request: PromptRequest, replies: seq<Reply>)
    requires |replies| == |ImageTasks(request)|
    ensures var r := ImagesOutcomeIntended(RunTasks(ImageTasks(request), replies));
      && (r.Ok? ==> ImagesAnswer(r) == ImagesBody(Some(r.value)) && |r.value| > 0)
      && (r.Err? ==> ImagesAnswer(r).ImagesFailed? && ImageFailureMessage(ImagesAnswer(r).failure) == r.error.detail)
  {
    var r := ImagesOutcomeIntended(RunTasks(ImageTasks(request), replies));
    IntendedOutcomeShape(request, replies);
    if r.Err? {
      assert |NoImagesDetail| > 0;
      assert |RefusalMessage(request.prompt)| > 0;
      assert |PromptTooLongMessage| > 0;
      ErrorDetailShown(r.error);
    }
  }

  /** Every choice of the count selector passes `validate_num_images`. */
  lemma NumImageChoicesAccepted()
    ensures forall n :: n in NumImageChoices ==> ValidateNumImages(n) == Ok(n)
  {
  }

  /** Every duration the slider offers asks for 10, 20 or 30 frames. */
  lemma DurationChoicesFrames(request: VideoRequest)
    requires MinDuration <= request.duration <= MaxDuration
    ensures |FrameTasks(request)| == if request.duration < 3 then 10 * request.duration else MaxFrames
    ensures 10 <= |FrameTasks(request)| <= MaxFrames
  {
  }

  /**
   * A poll of a job in the job table: an unknown job ends polling with the
   * poll error, a completed one shows its one to thirty frames, a failed
   * one shows the job's error, and a running one is polled again.
   */
  lemma PollFollowsJob(table: JobTable, jobId: string)
    requires table.Valid()
    ensures var d := DecidePoll(StatusAnswer(table.VideoStatus(jobId)));
      && (jobId !in table.jobs ==> d == PollBroken)
      && (jobId in table.jobs && table.jobs[jobId].status == Completed ==>
            d == ShowFrames(table.jobs[jobId].frames) && 1 <= |d.frames| <= MaxFrames)
      && (jobId in table.jobs && table.jobs[jobId].status == Failed ==>
            d == ShowFailure(JobFailedMessage(table.jobs[jobId].error)))
      && (jobId in table.jobs && table.jobs[jobId].status == Processing ==> d == PollAgain)
  {
  }

  /**
   * A video job from request to page: the job is created, processed
   * against the image service's replies, and polled. The page shows the
   * frames the backend kept, or the backend's "no frames" message when
   * none was kept.
   */
  method VideoOnPage(jobId: string, request: VideoRequest, replies: seq<Reply>) returns (d: PollDecision)
    requires |replies| == |FrameTasks(request)|
    ensures var outcome := FramesOutcome(RunTasks(FrameTasks(request), replies));
      d == if outcome.Ok? then ShowFrames(outcome.value) else ShowFailure(NoFramesMessage)
    ensures d.ShowFrames? ==> 1 <= |d.frames| <= MaxFrames
    ensures (forall i :: 0 <= i < |replies| ==> replies[i].ServiceError?) ==> d == ShowFailure(NoFramesMessage)
  {
    var table := new JobTable();
    var _ := table.GenerateVideo(jobId);
    table.StartProcessing(jobId);
    table.FinishProcessing(jobId, request, replies);
    FramesOutcomeShape(request, replies);
    PollFollowsJob(table, jobId);
    d := DecidePoll(StatusAnswer(table.VideoStatus(jobId)));
    if forall i :: 0 <= i < |replies| ==> replies[i].ServiceError? {
      FailedRepliesNoFrames(request, replies);
    }
  }

  /** The page's forms start from the same values the service's request models default to. */
  lemma FormDefaultsMatchRequestDefaults()
    ensures App.InitialPlatform == DefaultPlatform && App.InitialStylePreset == DefaultStylePreset
    ensures App.InitialNumImages == DefaultNumImages && App.InitialDuration == DefaultDuration
  {
  }

  lemma Decimal768()
    ensures Text.NatToString(768) == "768"
  {
    assert Text.NatToString(7) == "7";
    assert Text.NatToString(76) == "76";
  }

  lemma Decimal1024()
    ensures Text.NatToString(1024) == "1024"
  {
    assert Text.NatToString(1) == "1";
    assert Text.NatToString(10) == "10";
    assert Text.NatToString(102) == "102";
  }

  /** The image card's platform label names the size the service renders for that platform. */
  lemma PlatformLabelMatchesDimensions(platform: string)
    ensures var d := Dimensions(platform);
      Labels.PlatformLabel(platform) ==
        (if platform == "mobile" then "Mobile" else if platform == "desktop" then "Desktop" else "Web")
        + " (" + Text.NatToString(d.width) + "×" + Text.NatToString(d.height) + ")"
  {
    Decimal768();
    Decimal1024();
  }
}
