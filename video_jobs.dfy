/**
 * The in-memory `video_jobs` dictionary of backend/main.py and the three
 * operations on it: `generate_video` creates a record, the background task
 * `process_video_generation` moves it to a terminal state, and
 * `get_video_status` reads it.
 */
module VideoJobs {
  import opened Wrappers
  import opened ImageRequest
  import opened Aggregation

  datatype Status = Processing | Completed | Failed

  /** One record of `video_jobs`. */
  datatype Job = Job(status: Status, progress: int, frames: seq<Image>, error: Option<string>)

  /** The record `generate_video` stores for a new job. */
  const NewJob := Job(Processing, 0, [], None)
  const JobNotFoundDetail := "Video job not found"

  /**
   * The states a record can be in between two awaits: a processing record
   * has no payload yet, a completed one has its frames, a failed one its
   * error.
   */
  predicate WellFormed(job: Job)
  {
    match job.status
    case Processing => job.frames == [] && job.error == None && (job.progress == 0 || job.progress == 10)
    case Completed => job.progress == 100 && 1 <= |job.frames| <= MaxFrames && job.error == None
    case Failed => job.frames == [] && job.error.Some? && job.progress == 10
  }

  /** The answer of `POST /generate-video`. */
  datatype Created = Created(jobId: string, status: string)

  /** The answer of `GET /video-status/{job_id}` when the job exists. */
  datatype StatusResponse =
    | CompletedStatus(progress: int, frames: seq<Image>)
    | FailedStatus(error: Option<string>)
    | ProcessingStatus(progress: int)

  class JobTable {
    var jobs: map<string, Job>

    ghost predicate Valid()
      reads this
    {
      forall id :: id in jobs ==> WellFormed(jobs[id])
    }

    constructor ()
      ensures Valid() && jobs == map[]
    {
      jobs := map[];
    }

    /**
     * `generate_video`: store a processing record under `jobId`, the id the
     * backend drew from `uuid4`, and answer with it.
     */
    method GenerateVideo(jobId: string) returns (created: Created)
      requires Valid()
      modifies this
      ensures Valid()
      ensures jobs == old(jobs)[jobId := NewJob]
      ensures created == Created(jobId, "processing")
    {
      jobs := jobs[jobId := NewJob];
      created := Created(jobId, "processing");
    }

    /** `process_video_generation` up to its first await: progress 10. */
    method StartProcessing(jobId: string)
      requires Valid() && jobId in jobs && jobs[jobId].status == Processing
      modifies this
      ensures Valid()
      ensures jobs == old(jobs)[jobId := old(jobs[jobId]).(progress := 10)]
    {
      jobs := jobs[jobId := jobs[jobId].(status := Processing)];
      jobs := jobs[jobId := jobs[jobId].(progress := 10)];
    }

    /**
     * The success branch of `process_video_generation`: the frames are
     * stored, then the record is marked completed at progress 100.
     */
    method CompleteJob(jobId: string, frames: seq<Image>)
      requires Valid() && jobId in jobs && jobs[jobId].status == Processing && jobs[jobId].progress == 10
      requires 1 <= |frames| <= MaxFrames
      modifies this
      ensures Valid()
      ensures jobs == old(jobs)[jobId := old(jobs[jobId]).(status := Completed, progress := 100, frames := frames)]
    {
      ghost var before := jobs;
      ghost var job := jobs[jobId];
      jobs := jobs[jobId := jobs[jobId].(progress := 50)];
      jobs := jobs[jobId := jobs[jobId].(frames := frames)];
      jobs := jobs[jobId := jobs[jobId].(status := Completed)];
      jobs := jobs[jobId := jobs[jobId].(progress := 100)];
      assert jobs == before[jobId := job.(status := Completed, progress := 100, frames := frames)];
      assert WellFormed(jobs[jobId]);
    }

    /**
     * The exception handler of `process_video_generation`: the record is
     * marked failed with the exception's text.
     */
    method FailJob(jobId: string, message: string)
      requires Valid() && jobId in jobs && jobs[jobId].status == Processing && jobs[jobId].progress == 10
      modifies this
      ensures Valid()
      ensures jobs == old(jobs)[jobId := old(jobs[jobId]).(status := Failed, error := Some(message))]
    {
      ghost var before := jobs;
      ghost var job := jobs[jobId];
      jobs := jobs[jobId := jobs[jobId].(status := Failed)];
      jobs := jobs[jobId := jobs[jobId].(error := Some(message))];
      assert jobs == before[jobId := job.(status := Failed, error := Some(message))];
      assert WellFormed(jobs[jobId]);
    }

    /**
     * `process_video_generation` after `generate_video_frames` returns or
     * raises: the record ends completed with its frames, or failed with the
     * exception's text; no other record changes.
     */
    method FinishProcessing(jobId: string, request: VideoRequest, replies: seq<Reply>)
      requires Valid() && jobId in jobs && jobs[jobId].status == Processing && jobs[jobId].progress == 10
      requires |replies| == |FrameTasks(request)|
      modifies this
      ensures Valid()
      ensures var outcome := FramesOutcome(RunTasks(FrameTasks(request), replies));
        jobs == old(jobs)[jobId :=
          if outcome.Ok? then old(jobs[jobId]).(status := Completed, progress := 100, frames := outcome.value)
          else old(jobs[jobId]).(status := Failed, error := Some(outcome.error.message))]
    {
      var frames := GenerateVideoFrames(request, replies);
      FramesOutcomeShape(request, replies);
      if frames.Ok? {
        CompleteJob(jobId, frames.value);
      } else {
        FailJob(jobId, frames.error.message);
      }
    }

    /** `get_video_status`. */
    function VideoStatus(jobId: string): (r: Result<StatusResponse, HttpError>)
      reads this
      ensures r.Err? <==> jobId !in jobs
      ensures r.Err? ==> r.error == HttpError(404, JobNotFoundDetail)
      ensures r.Ok? ==> (r.value.CompletedStatus? <==> jobs[jobId].status == Completed)
      ensures r.Ok? ==> (r.value.FailedStatus? <==> jobs[jobId].status == Failed)
      ensures r.Ok? && r.value.CompletedStatus? ==> r.value.progress == 100 && r.value.frames == jobs[jobId].frames
      ensures r.Ok? && r.value.FailedStatus? ==> r.value.error == jobs[jobId].error
      ensures r.Ok? && r.value.ProcessingStatus? ==> r.value.progress == jobs[jobId].progress
      ensures Valid() && r.Ok? && r.value.CompletedStatus? ==> 1 <= |r.value.frames| <= MaxFrames
      ensures Valid() && r.Ok? && r.value.FailedStatus? ==> r.value.error.Some?
      ensures Valid() && r.Ok? && r.value.ProcessingStatus? ==> r.value.progress == 0 || r.value.progress == 10
    {
      if jobId !in jobs then Err(HttpError(404, JobNotFoundDetail))
      else
        var job := jobs[jobId];
        match job.status
        case Completed => Ok(CompletedStatus(100, job.frames))
        case Failed => Ok(FailedStatus(job.error))
        case Processing => Ok(ProcessingStatus(job.progress))
    }
  }

  /**
   * One job's life as a client sees it through the status endpoint, next
   * to an unrelated job `other` that was already in the table: processing
   * at 0, processing at 10, then completed with the frames or failed with
   * the error; the other job's status never changes.
   */
  method JobLifecycle(jobId: string, other: string, request: VideoRequest, replies: seq<Reply>)
    returns (created: Created, atStart: Result<StatusResponse, HttpError>,
             running: Result<StatusResponse, HttpError>, finished: Result<StatusResponse, HttpError>,
             otherBefore: Result<StatusResponse, HttpError>, otherAfter: Result<StatusResponse, HttpError>)
    requires jobId != other
    requires |replies| == |FrameTasks(request)|
    ensures created == Created(jobId, "processing")
    ensures atStart == Ok(ProcessingStatus(0)) && running == Ok(ProcessingStatus(10))
    ensures var outcome := FramesOutcome(RunTasks(FrameTasks(request), replies));
      finished == if outcome.Ok? then Ok(CompletedStatus(100, outcome.value))
                  else Ok(FailedStatus(Some(NoFramesMessage)))
    ensures otherBefore == otherAfter == Ok(ProcessingStatus(0))
  {
    var table := new JobTable();
    var _ := table.GenerateVideo(other);
    otherBefore := table.VideoStatus(other);
    created := table.GenerateVideo(jobId);
    atStart := table.VideoStatus(jobId);
    table.StartProcessing(jobId);
    running := table.VideoStatus(jobId);
    table.FinishProcessing(jobId, request, replies);
    FramesOutcomeShape(request, replies);
    finished := table.VideoStatus(jobId);
    otherAfter := table.VideoStatus(other);
  }
}
