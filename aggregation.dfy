/**
 * Fan-out and collection in backend/main.py: the `for` loops that build one
 * image task per seed, and the loops that keep the successful results of
 * `asyncio.gather(..., return_exceptions=True)` for `generate_images` and
 * `generate_video_frames`. A gathered result is `Ok(Some(image))`,
 * `Ok(None)` or `Err(exception)`.
 */
module Aggregation {
  import opened Wrappers
  import opened Text
  import opened Sequences
  import opened ImageRequest
  import opened ImageErrorTexts
  import FilteredWords

  /** Seed distance between consecutive tasks: task `i` uses seed `i * 100`. */
  const SeedStep := 100
  const FramesPerSecond := 10
  const MaxFrames := 30
  /** Video frames are always requested in the desktop size. */
  const VideoPlatform := "desktop"

  const NoFramesMessage := "No frames were generated for the video"
  const AdditionalFilteringDetail := "Additional content filtering applied by the AI system. Please modify your prompt."
  const NoImagesDetail := "No images were generated. Please try again with a different prompt."

  /** The arguments of one `asyncio.to_thread(generate_single_image, ...)` task. */
  datatype Task = Task(prompt: string, seed: int, platform: string, stylePreset: string)

  type TaskResult = Result<Option<Image>, Exception>

  /** `VideoPromptRequest`, the body of `POST /generate-video`. */
  datatype VideoRequest = VideoRequest(prompt: string, duration: int, stylePreset: string)

  /** The video request model's default length, in seconds. */
  const DefaultDuration := 5

  /** The request a body holding only `prompt` becomes: five seconds, hence thirty frames, photographic. */
  function PromptOnlyVideoRequest(prompt: string): (r: VideoRequest)
    ensures r.prompt == prompt && r.stylePreset == DefaultStylePreset
    ensures r.duration == DefaultDuration
    ensures NumFrames(r.duration) == MaxFrames
  {
    VideoRequest(prompt, DefaultDuration, DefaultStylePreset)
  }

  /** `len(range(n))`. */
  function RangeLength(n: int): (k: nat)
    ensures n >= 0 ==> k == n
    ensures n < 0 ==> k == 0
  {
    if n < 0 then 0 else n
  }

  /** `min(duration * fps, 30)`: ten frames a second, capped at thirty. */
  function NumFrames(duration: int): (n: int)
    ensures n <= MaxFrames
    ensures n == MaxFrames <==> duration >= 3
    ensures n < MaxFrames ==> n == duration * FramesPerSecond
  {
    if duration * FramesPerSecond < MaxFrames then duration * FramesPerSecond else MaxFrames
  }

  /** The loop `for i in range(count): tasks.append(... seed=i*100 ...)`. */
  method PlanTasks(prompt: string, count: int, platform: string, stylePreset: string) returns (tasks: seq<Task>)
    ensures |tasks| == RangeLength(count)
    ensures forall i :: 0 <= i < |tasks| ==> tasks[i] == Task(prompt, i * SeedStep, platform, stylePreset)
  {
    tasks := [];
    var i := 0;
    while i < count
      invariant 0 <= i <= RangeLength(count)
      invariant |tasks| == i
      invariant forall j :: 0 <= j < i ==> tasks[j] == Task(prompt, j * SeedStep, platform, stylePreset)
    {
      tasks := tasks + [Task(prompt, i * SeedStep, platform, stylePreset)];
      i := i + 1;
    }
  }

  /** The tasks `generate_images` starts for a request. */
  function ImageTasks(request: PromptRequest): (tasks: seq<Task>)
    ensures |tasks| == RangeLength(request.numImages)
    ensures forall i :: 0 <= i < |tasks| ==>
              && tasks[i].seed == i * SeedStep && tasks[i].prompt == request.prompt
              && tasks[i].platform == request.platform && tasks[i].stylePreset == request.stylePreset
  {
    seq(RangeLength(request.numImages),
        i => Task(request.prompt, i * SeedStep, request.platform, request.stylePreset))
  }

  /** The tasks `generate_video_frames` starts for a request: at most thirty, all desktop-sized. */
  function FrameTasks(request: VideoRequest): (tasks: seq<Task>)
    ensures |tasks| == RangeLength(NumFrames(request.duration)) <= MaxFrames
    ensures forall i :: 0 <= i < |tasks| ==>
              && tasks[i].seed == i * SeedStep && tasks[i].prompt == request.prompt
              && tasks[i].platform == VideoPlatform && tasks[i].stylePreset == request.stylePreset
  {
    seq(RangeLength(NumFrames(request.duration)),
        i => Task(request.prompt, i * SeedStep, VideoPlatform, request.stylePreset))
  }

  /** Distinct tasks of one request get distinct seeds. */
  lemma SeedsDistinct(tasks: seq<Task>, prompt: string, platform: string, stylePreset: string, i: nat, j: nat)
    requires forall k :: 0 <= k < |tasks| ==> tasks[k] == Task(prompt, k * SeedStep, platform, stylePreset)
    requires i < j < |tasks|
    ensures tasks[i].seed < tasks[j].seed
  {
  }

  /** One task run against the service reply it received. */
  function RunTask(t: Task, reply: Reply): TaskResult
  {
    GenerateSingleImage(t.prompt, t.seed, t.platform, t.stylePreset, reply)
  }

  /** `await asyncio.gather(*tasks, return_exceptions=True)`, given each task's reply. */
  function RunTasks(tasks: seq<Task>, replies: seq<Reply>): (results: seq<TaskResult>)
    requires |replies| == |tasks|
    ensures |results| == |tasks|
    ensures forall i :: 0 <= i < |tasks| ==> results[i] == RunTask(tasks[i], replies[i])
  {
    seq(|tasks|, i requires 0 <= i < |tasks| => RunTask(tasks[i], replies[i]))
  }

  /** The gathered results that are neither exceptions nor `None`, in order. */
  function Successes(results: seq<TaskResult>): (images: seq<Image>)
    ensures |images| <= |results|
    ensures forall img :: img in images <==> Ok(Some(img)) in results
    decreases |results|
  {
    if |results| == 0 then []
    else (if results[0].Ok? && results[0].value.Some? then [results[0].value.value] else [])
         + Successes(results[1..])
  }

  lemma {:induction false} SuccessesAppend(a: seq<TaskResult>, b: seq<TaskResult>)
    ensures Successes(a + b) == Successes(a) + Successes(b)
    decreases |a|
  {
    if |a| == 0 {
      assert a + b == b;
    } else {
      assert (a + b)[1..] == a[1..] + b;
      SuccessesAppend(a[1..], b);
    }
  }

  /** A gathered result that carries an image. */
  predicate HoldsImage(r: TaskResult)
  {
    r.Ok? && r.value.Some?
  }

  /** The images of results that all carry one. */
  function ImagesOf(rs: seq<TaskResult>): (images: seq<Image>)
    requires forall i :: 0 <= i < |rs| ==> HoldsImage(rs[i])
    ensures |images| == |rs|
  {
    seq(|rs|, i requires 0 <= i < |rs| && HoldsImage(rs[i]) => rs[i].value.value)
  }

  /**
   * The kept images are exactly those of the results that carry one, in
   * result order: the subsequence `Filter` selects.
   */
  lemma {:induction false} SuccessesInOrder(results: seq<TaskResult>)
    ensures forall i :: 0 <= i < |Filter(results, HoldsImage)| ==> HoldsImage(Filter(results, HoldsImage)[i])
    ensures Successes(results) == ImagesOf(Filter(results, HoldsImage))
    decreases |results|
  {
    FilterKeeps(results, HoldsImage);
    if |results| > 0 {
      SuccessesInOrder(results[1..]);
      var rest := Filter(results[1..], HoldsImage);
      if HoldsImage(results[0]) {
        ImagesOfCons(results[0], rest);
      } else {
        assert Filter(results, HoldsImage) == rest;
      }
    }
  }

  lemma ImagesOfCons(r: TaskResult, rest: seq<TaskResult>)
    requires HoldsImage(r) && forall i :: 0 <= i < |rest| ==> HoldsImage(rest[i])
    ensures ImagesOf([r] + rest) == [r.value.value] + ImagesOf(rest)
  {
  }

  /** One more result adds its image, if it holds one. */
  lemma SuccessesSnoc(prefix: seq<TaskResult>, x: TaskResult)
    ensures Successes(prefix + [x]) == Successes(prefix) + (if x.Ok? && x.value.Some? then [x.value.value] else [])
  {
    SuccessesAppend(prefix, [x]);
    assert Successes([x]) == (if x.Ok? && x.value.Some? then [x.value.value] else []) + Successes([]);
  }

  /** When every task returned an image, every image is kept, in task order. */
  lemma {:induction false} SuccessesAll(results: seq<TaskResult>)
    requires forall i :: 0 <= i < |results| ==> results[i].Ok? && results[i].value.Some?
    ensures |Successes(results)| == |results|
    ensures forall i :: 0 <= i < |results| ==> Successes(results)[i] == results[i].value.value
    decreases |results|
  {
    if |results| > 0 {
      SuccessesAll(results[1..]);
    }
  }

  /** What `generate_video_frames` makes of the gathered results. */
  function FramesOutcome(results: seq<TaskResult>): (r: Result<seq<Image>, Exception>)
    ensures r.Err? <==> forall i :: 0 <= i < |results| ==> !(results[i].Ok? && results[i].value.Some?)
    ensures r.Err? ==> r.error == Failure(NoFramesMessage)
    ensures r.Ok? ==> r.value == Successes(results)
  {
    var frames := Successes(results);
    if frames == [] then
      assert forall i :: 0 <= i < |results| && results[i].Ok? && results[i].value.Some? ==>
        results[i].value.value in frames;
      Err(Failure(NoFramesMessage))
    else
      assert frames[0] in frames;
      Ok(frames)
  }

  /** The collecting loop of `generate_video_frames`. */
  method CollectFrames(results: seq<TaskResult>) returns (r: Result<seq<Image>, Exception>)
    ensures r == FramesOutcome(results)
  {
    var frames: seq<Image> := [];
    for i := 0 to |results|
      invariant frames == Successes(results[..i])
    {
      assert results[..i + 1] == results[..i] + [results[i]];
      SuccessesSnoc(results[..i], results[i]);
      if results[i].Err? {
        continue;
      }
      if results[i].value.Some? {
        frames := frames + [results[i].value.value];
      }
    }
    assert results[..|results|] == results;
    if frames == [] {
      r := Err(Failure(NoFramesMessage));
    } else {
      r := Ok(frames);
    }
  }

  /** A gathered exception whose text reports a refusal by the image service. */
  predicate IsRefusalResult(r: TaskResult)
  {
    r.Err? && IsContentRefusal(r.error.message)
  }

  /** What the collecting loop of `generate_images` makes of the gathered results. */
  function ImagesOutcome(results: seq<TaskResult>): (r: Result<seq<Image>, HttpError>)
    ensures r.Ok? ==> |r.value| > 0 && forall img :: img in r.value ==> Ok(Some(img)) in results
    ensures (exists i :: 0 <= i < |results| && IsRefusalResult(results[i])) ==>
              r == Err(HttpError(400, AdditionalFilteringDetail))
    ensures !(exists i :: 0 <= i < |results| && IsRefusalResult(results[i])) ==>
              && (r.Ok? <==> Successes(results) != [])
              && (r.Err? ==> r.error == HttpError(500, NoImagesDetail))
    ensures r.Ok? ==> r.value == Successes(results)
  {
    if exists i :: 0 <= i < |results| && IsRefusalResult(results[i]) then
      Err(HttpError(400, AdditionalFilteringDetail))
    else if Successes(results) == [] then Err(HttpError(500, NoImagesDetail))
    else Ok(Successes(results))
  }

  /** The collecting loop of `generate_images`: it aborts on a refusal and skips other exceptions. */
  method CollectImages(results: seq<TaskResult>) returns (r: Result<seq<Image>, HttpError>)
    ensures r == ImagesOutcome(results)
  {
    var images: seq<Image> := [];
    for i := 0 to |results|
      invariant images == Successes(results[..i])
      invariant forall j :: 0 <= j < i ==> !IsRefusalResult(results[j])
    {
      assert results[..i + 1] == results[..i] + [results[i]];
      SuccessesSnoc(results[..i], results[i]);
      if results[i].Err? {
        if IsContentRefusal(results[i].error.message) {
          return Err(HttpError(400, AdditionalFilteringDetail));
        }
        continue;
      }
      if results[i].value.Some? {
        images := images + [results[i].value.value];
      }
    }
    assert results[..|results|] == results;
    if images == [] {
      r := Err(HttpError(500, NoImagesDetail));
    } else {
      r := Ok(images);
    }
  }

  /** Results produced by `generate_single_image` never report a refusal. */
  lemma NoRefusalResults(tasks: seq<Task>, replies: seq<Reply>)
    requires |replies| == |tasks|
    ensures forall i :: 0 <= i < |tasks| ==> !IsRefusalResult(RunTasks(tasks, replies)[i])
  {
  }

  /** `generate_video_frames`: plan the frame tasks, run them, collect the frames. */
  method GenerateVideoFrames(request: VideoRequest, replies: seq<Reply>) returns (r: Result<seq<Image>, Exception>)
    requires |replies| == |FrameTasks(request)|
    ensures r == FramesOutcome(RunTasks(FrameTasks(request), replies))
  {
    var tasks := PlanTasks(request.prompt, NumFrames(request.duration), VideoPlatform, request.stylePreset);
    assert tasks == FrameTasks(request);
    var results := RunTasks(tasks, replies);
    r := CollectFrames(results);
  }

  /** When the image service fails every frame request, the video has no frames. */
  lemma FailedRepliesNoFrames(request: VideoRequest, replies: seq<Reply>)
    requires |replies| == |FrameTasks(request)|
    requires forall i :: 0 <= i < |replies| ==> replies[i].ServiceError?
    ensures FramesOutcome(RunTasks(FrameTasks(request), replies)) == Err(Failure(NoFramesMessage))
  {
    var results := RunTasks(FrameTasks(request), replies);
    AllFailedNoSuccesses(results);
  }

  /**
   * What a video job can produce: between one and thirty desktop-sized
   * frames in the requested style, or the "no frames" failure.
   */
  lemma {:induction false} FramesOutcomeShape(request: VideoRequest, replies: seq<Reply>)
    requires |replies| == |FrameTasks(request)|
    ensures var r := FramesOutcome(RunTasks(FrameTasks(request), replies));
      && (r.Err? ==> r.error == Failure(NoFramesMessage))
      && (r.Ok? ==> 1 <= |r.value| <= MaxFrames)
      && (r.Ok? ==> forall k :: 0 <= k < |r.value| ==>
            && r.value[k].platform == VideoPlatform && r.value[k].stylePreset == request.stylePreset
            && r.value[k].width == 1024 && r.value[k].height == 768)
      && (request.duration <= 0 ==> r.Err?)
  {
    var tasks := FrameTasks(request);
    var results := RunTasks(tasks, replies);
    var r := FramesOutcome(results);
    if r.Ok? {
      forall k | 0 <= k < |r.value|
        ensures && r.value[k].platform == VideoPlatform && r.value[k].stylePreset == request.stylePreset
                && r.value[k].width == 1024 && r.value[k].height == 768
      {
        assert r.value[k] in Successes(results);
        var i :| 0 <= i < |results| && results[i] == Ok(Some(r.value[k]));
        assert results[i] == RunTask(tasks[i], replies[i]);
      }
    }
  }

  // The two ends of the filtered-words detail, shared by the pre-check
  // answer and the refusal handler.
  const FilteredLead := "Your prompt contains filtered words that are not allowed"
  const FilteredTail := ". Please modify your prompt to avoid inappropriate or sensitive content."

  /** The detail of the 400 answer to a prompt that fails the word pre-check: it names every flagged word. */
  function FilteredDetail(words: seq<string>): (detail: string)
    ensures |FilteredLead| + |FilteredTail| < |detail|
    ensures detail[..|FilteredLead|] == FilteredLead
    ensures detail[|detail| - |FilteredTail|..] == FilteredTail
    ensures forall k :: 0 <= k < |words| ==> Contains(detail, words[k])
  {
    var middle := ": " + Join(words, ", ");
    ContainsAllWithin(": ", Join(words, ", "), "", words);
    assert ": " + Join(words, ", ") + "" == middle;
    ContainsAllWithin(FilteredLead, middle, FilteredTail, words);
    Framed(FilteredLead, middle, FilteredTail);
    FilteredLead + middle + FilteredTail
  }

  /**
   * The checks `generate_images` makes before any task starts: the count
   * check, then the word pre-check, each answered with 400.
   */
  method CheckRequest(request: PromptRequest) returns (r: Result<int, HttpError>)
    ensures ValidateNumImages(request.numImages).Err? ==>
              r == Err(HttpError(400, ValidateNumImages(request.numImages).error.message))
    ensures ValidateNumImages(request.numImages).Ok? && FilteredWords.CheckFilteredWords(request.prompt).0 ==>
              r == Err(HttpError(400, FilteredDetail(FilteredWords.CheckFilteredWords(request.prompt).1)))
    ensures r.Ok? <==> ValidateNumImages(request.numImages).Ok? && !FilteredWords.CheckFilteredWords(request.prompt).0
    ensures r.Ok? ==> r.value == request.numImages
  {
    var count := ValidateNumImages(request.numImages);
    if count.Err? {
      return Err(HttpError(400, count.error.message));
    }
    var (hasFiltered, filtered) := FilteredWords.CheckFilteredWords(request.prompt);
    if hasFiltered {
      return Err(HttpError(400, FilteredDetail(filtered)));
    }
    r := Ok(count.value);
  }

  /** `generate_images` up to its outer handlers, as written: check, fan out, gather, collect. */
  method GenerateImages(request: PromptRequest, replies: seq<Reply>) returns (r: Result<seq<Image>, HttpError>)
    requires |replies| == |ImageTasks(request)|
    ensures ValidateNumImages(request.numImages).Err? ==>
              r == Err(HttpError(400, ValidateNumImages(request.numImages).error.message))
    ensures ValidateNumImages(request.numImages).Ok? && FilteredWords.CheckFilteredWords(request.prompt).0 ==>
              r == Err(HttpError(400, FilteredDetail(FilteredWords.CheckFilteredWords(request.prompt).1)))
    ensures ValidateNumImages(request.numImages).Ok? && !FilteredWords.CheckFilteredWords(request.prompt).0 ==>
              r == ImagesOutcome(RunTasks(ImageTasks(request), replies))
  {
    var count := CheckRequest(request);
    if count.Err? {
      return Err(count.error);
    }
    var tasks := PlanTasks(request.prompt, count.value, request.platform, request.stylePreset);
    assert tasks == ImageTasks(request);
    var results := RunTasks(tasks, replies);
    r := CollectImages(results);
  }

  /** `generate_images` with the corrected collection: the same checks and tasks. */
  method GenerateImagesIntended(request: PromptRequest, replies: seq<Reply>) returns (r: Result<seq<Image>, HttpError>)
    requires |replies| == |ImageTasks(request)|
    ensures ValidateNumImages(request.numImages).Err? ==>
              r == Err(HttpError(400, ValidateNumImages(request.numImages).error.message))
    ensures ValidateNumImages(request.numImages).Ok? && FilteredWords.CheckFilteredWords(request.prompt).0 ==>
              r == Err(HttpError(400, FilteredDetail(FilteredWords.CheckFilteredWords(request.prompt).1)))
    ensures ValidateNumImages(request.numImages).Ok? && !FilteredWords.CheckFilteredWords(request.prompt).0 ==>
              r == ImagesOutcomeIntended(RunTasks(ImageTasks(request), replies))
  {
    var count := CheckRequest(request);
    if count.Err? {
      return Err(count.error);
    }
    var tasks := PlanTasks(request.prompt, count.value, request.platform, request.stylePreset);
    assert tasks == ImageTasks(request);
    var results := RunTasks(tasks, replies);
    r := CollectImagesIntended(results);
  }

  /**
   * The "additional filtering" answer of `generate_images` never arises:
   * no exception a task raises reports a refusal.
   */
  lemma NoAdditionalFiltering(request: PromptRequest, replies: seq<Reply>)
    requires |replies| == |ImageTasks(request)|
    ensures ImagesOutcome(RunTasks(ImageTasks(request), replies)).Ok? ||
            ImagesOutcome(RunTasks(ImageTasks(request), replies)) == Err(HttpError(500, NoImagesDetail))
  {
    NoRefusalResults(ImageTasks(request), replies);
  }

  /**
   * A successful image answer holds between one and `num_images` images,
   * each in the requested platform's size and style.
   */
  lemma ImagesOutcomeShape(request: PromptRequest, replies: seq<Reply>)
    requires |replies| == |ImageTasks(request)|
    ensures var r := ImagesOutcome(RunTasks(ImageTasks(request), replies));
      && (r.Ok? ==> 1 <= |r.value| <= RangeLength(request.numImages))
      && (r.Ok? ==> forall k :: 0 <= k < |r.value| ==>
            && r.value[k].platform == request.platform && r.value[k].stylePreset == request.stylePreset
            && Size(r.value[k].width, r.value[k].height) == Dimensions(request.platform))
  {
    var tasks := ImageTasks(request);
    var results := RunTasks(tasks, replies);
    var r := ImagesOutcome(results);
    if r.Ok? {
      assert r.value == Successes(results);
      forall k | 0 <= k < |r.value|
        ensures && r.value[k].platform == request.platform && r.value[k].stylePreset == request.stylePreset
                && Size(r.value[k].width, r.value[k].height) == Dimensions(request.platform)
      {
        assert r.value[k] in r.value;
        var i :| 0 <= i < |results| && results[i] == Ok(Some(r.value[k]));
        assert results[i] == RunTask(tasks[i], replies[i]);
      }
    }
  }

  /**
   * As written, a prompt over the length limit that passes the word
   * pre-check is answered with the 500 "no images" error: every task raises
   * the length `ValueError`, and the collecting loop skips it.
   */
  lemma LongPromptAnswers500(request: PromptRequest, replies: seq<Reply>)
    requires |replies| == |ImageTasks(request)|
    requires |request.prompt| > MaxPromptLength
    ensures ImagesOutcome(RunTasks(ImageTasks(request), replies)) == Err(HttpError(500, NoImagesDetail))
  {
    var tasks := ImageTasks(request);
    var results := RunTasks(tasks, replies);
    NoRefusalResults(tasks, replies);
    forall i | 0 <= i < |results|
      ensures results[i].Err?
    {
      assert tasks[i].prompt == request.prompt;
    }
    AllFailedNoSuccesses(results);
  }

  /** Results that are all exceptions yield no image. */
  lemma {:induction false} AllFailedNoSuccesses(results: seq<TaskResult>)
    requires forall i :: 0 <= i < |results| ==> results[i].Err?
    ensures Successes(results) == []
    decreases |results|
  {
    if |results| > 0 {
      assert forall i :: 0 <= i < |results[1..]| ==> results[1..][i] == results[i + 1];
      AllFailedNoSuccesses(results[1..]);
    }
  }

  /** The message of the first `ValueError` among the gathered results. */
  function FirstValueError(results: seq<TaskResult>): (m: Option<string>)
    ensures m.Some? <==> exists i :: 0 <= i < |results| && results[i].Err? && results[i].error.ValueError?
    ensures m.Some? ==> exists i :: 0 <= i < |results| && results[i] == Err(ValueError(m.value))
                                  && forall j :: 0 <= j < i ==> !(results[j].Err? && results[j].error.ValueError?)
    decreases |results|
  {
    if |results| == 0 then None
    else if results[0].Err? && results[0].error.ValueError? then
      assert results[0] == Err(ValueError(results[0].error.message));
      Some(results[0].error.message)
    else
      var m := FirstValueError(results[1..]);
      assert forall i :: 1 <= i < |results| ==> results[i] == results[1..][i - 1];
      if m.Some? then
        var i :| 0 <= i < |results[1..]| && results[1..][i] == Err(ValueError(m.value))
                 && forall j :: 0 <= j < i ==> !(results[1..][j].Err? && results[1..][j].error.ValueError?);
        assert forall j :: 0 <= j < i + 1 ==> !(results[j].Err? && results[j].error.ValueError?);
        m
      else m
  }

  /**
   * The collection `generate_images` evidently intends: a `ValueError`
   * raised by a task reaches the endpoint's `except ValueError` handler and
   * is answered with 400 and its message, as a `ValueError` raised in the
   * endpoint itself is; everything else is collected as before.
   */
  function ImagesOutcomeIntended(results: seq<TaskResult>): (r: Result<seq<Image>, HttpError>)
    ensures FirstValueError(results).None? ==> r == ImagesOutcome(results)
    ensures FirstValueError(results).Some? ==> r == Err(HttpError(400, FirstValueError(results).value))
  {
    match FirstValueError(results)
    case Some(message) => Err(HttpError(400, message))
    case None => ImagesOutcome(results)
  }

  /** Corrected: an over-long prompt is answered with 400 and the length message. */
  lemma IntendedLongPromptAnswers400(request: PromptRequest, replies: seq<Reply>)
    requires |replies| == |ImageTasks(request)| > 0
    requires |request.prompt| > MaxPromptLength
    ensures ImagesOutcomeIntended(RunTasks(ImageTasks(request), replies)) == Err(HttpError(400, PromptTooLongMessage))
  {
    var results := RunTasks(ImageTasks(request), replies);
    assert results[0] == Err(ValueError(PromptTooLongMessage));
  }

  /**
   * Corrected: when the service refuses the first image's prompt, the
   * answer is 400 with the words the refusal scan found.
   */
  lemma IntendedRefusalAnswers400(request: PromptRequest, replies: seq<Reply>)
    requires |replies| == |ImageTasks(request)| > 0
    requires |request.prompt| <= MaxPromptLength
    requires replies[0].ServiceError? && IsContentRefusal(replies[0].message)
    ensures ImagesOutcomeIntended(RunTasks(ImageTasks(request), replies)) ==
            Err(HttpError(400, RefusalMessage(request.prompt)))
  {
    var results := RunTasks(ImageTasks(request), replies);
    assert results[0] == Err(ValueError(RefusalMessage(request.prompt)));
  }

  /** The corrected collection: a task's `ValueError` is answered first, then the loop runs as before. */
  method CollectImagesIntended(results: seq<TaskResult>) returns (r: Result<seq<Image>, HttpError>)
    ensures r == ImagesOutcomeIntended(results)
  {
    match FirstValueError(results)
    case Some(message) =>
      r := Err(HttpError(400, message));
    case None =>
      r := CollectImages(results);
  }

  /** The only `ValueError`s an image task raises are the length error and the refusal message. */
  lemma TaskValueErrors(request: PromptRequest, replies: seq<Reply>, i: int, message: string)
    requires |replies| == |ImageTasks(request)|
    requires 0 <= i < |replies| && RunTasks(ImageTasks(request), replies)[i] == Err(ValueError(message))
    ensures message == PromptTooLongMessage || message == RefusalMessage(request.prompt)
  {
    var tasks := ImageTasks(request);
    assert RunTasks(tasks, replies)[i] ==
           GenerateSingleImage(request.prompt, tasks[i].seed, request.platform, request.stylePreset, replies[i]);
  }

  /**
   * Corrected: the endpoint answers a request that passed its checks with
   * images, with 400 and the length or refusal message, or with the 500
   * "no images" error; a successful answer has the shape of the original's.
   */
  lemma IntendedOutcomeShape(request: PromptRequest, replies: seq<Reply>)
    requires |replies| == |ImageTasks(request)|
    ensures var r := ImagesOutcomeIntended(RunTasks(ImageTasks(request), replies));
      && (r.Ok? || r == Err(HttpError(400, PromptTooLongMessage))
          || r == Err(HttpError(400, RefusalMessage(request.prompt))) || r == Err(HttpError(500, NoImagesDetail)))
      && (r.Ok? ==> r == ImagesOutcome(RunTasks(ImageTasks(request), replies)))
  {
    var results := RunTasks(ImageTasks(request), replies);
    match FirstValueError(results)
    case Some(message) =>
      var i :| 0 <= i < |results| && results[i] == Err(ValueError(message));
      TaskValueErrors(request, replies, i, message);
    case None =>
      NoAdditionalFiltering(request, replies);
  }
}
