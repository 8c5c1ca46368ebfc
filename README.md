# T-shirt design generator: a verified model

The system is a React page (`frontend/src/App.js`) in front of a FastAPI
service (`backend/main.py`). The page asks the service for T-shirt design
images, or for a short "video" made of frames. The service renders each
image with a Stable Diffusion model hosted on AWS Bedrock.

This project models the rules inside both programs and proves properties
about them:

- **Service.**
  - the image-count check and the prompt-length check;
  - the platform-to-size table;
  - the filtered-word scanner (lower-case, split on whitespace, keep the words that contain a category);
  - one image request and its handling of the service's reply;
  - the fan-out into tasks seeded `i * 100`;
  - the loops that collect successful results, for images and for video frames;
  - the outer exception handlers that choose an HTTP status;
  - the in-memory `video_jobs` table as a class over a map, with `generate_video`,
    `process_video_generation` (split at its `await`) and `get_video_status`.
- **Page.**
  - the component's `useState` hooks as the single record field of a class, one method per
    event handler;
  - the playback tick;
  - the play/pause guards;
  - one status poll;
  - the 512-character slicing of a decoded image into byte arrays;
  - the download file name;
  - the platform and style labels;
  - the error messages the submit handlers choose.
- **Bridge.** How the service's answers look on the page.

The AWS service, `asyncio`, the HTTP client, timers and `atob` are inputs.
For example, a task's reply is a `Reply` value, a status poll's answer is a
`StatusReply`, a timer firing is a call to `Tick`, and `atob` is a function
parameter that may fail.

Modules (one file each, `image_request.dfy` holds two):

- `Wrappers`: `Option` and `Result`.
- `Text`: Python's string `in`, `join`, ASCII `lower`, argument-less `split`, and decimal rendering.
- `Sequences`: `Filter` and `Flatten`.
- `FilteredWords`: the word scanner.
- `ImageErrorTexts` and `ImageRequest`: one image request.
- `Aggregation`: task planning and collection, `generate_images`, `generate_video_frames`.
- `ErrorMapping`: the endpoint's outer exception handlers.
- `VideoJobs`: the job table.
- `Playback`, `Messages`, `Download`, `Labels`: the page's pure rules.
- `App`: the component's state machine.
- `Bridge`: the page reading the service's answers.

## Model

| member | source | states |
|---|---|---|
| ImageRequest.ValidateNumImages | backend/main.py:40-46 | The count comes back unchanged exactly when it lies in 1..100. Below 1 the error is the "at least 1" ValueError; above 100 it is the "cannot exceed 100" one. |
| ImageRequest.CountErrorsDistinct | backend/main.py:42-45 | The rejection below the range and the one above it carry different messages. |
| ImageRequest.Dimensions | backend/main.py:64-71 | The table is total: mobile gets 768×1024, desktop 1024×768, and every other platform 1024×1024. |
| ImageRequest.DimensionsShape | backend/main.py:63-71 | Every size has sides in 512..1024. Portrait happens iff the platform is mobile, landscape iff desktop, square iff neither. |
| ImageRequest.BuildRequestBody | backend/main.py:59-86 | The request is rejected with the length ValueError iff the prompt is over 1000 characters, before any body exists. Otherwise the body carries the prompt, the seed, 50 steps, the style and the platform's size. |
| ImageRequest.PromptOnlyRequest | backend/main.py:34-38 | A request that gives only a prompt keeps its prompt and takes platform "web", style "photographic" and 4 images. That count passes `validate_num_images`, and the web platform is rendered at 1024×1024. |
| ImageRequest.IsContentRefusal | backend/main.py:111 | A message reports a refusal iff it contains both "ValidationException" and "invalid_prompts", each at some offset. |
| ImageRequest.RefusalMessage | backend/main.py:115-122 | The message starts "Filtered words detected in prompt: " and names every flagged word of the prompt. With no flagged word it ends "Content not allowed by safety system". |
| ImageRequest.RefusalMessageNotRefusal | backend/main.py:110-122 | The "Filtered words detected" message built for a service refusal has no capital V. So it never reads as a service refusal again. |
| ImageRequest.GenerateSingleImage | backend/main.py:56-126 | A long prompt gives the length ValueError. Otherwise: the first artifact becomes an image with the platform's size and the request's style; an empty reply gives None; a refusal gives the refusal ValueError; any other error is re-raised. No raised message reports a refusal. |
| FilteredWords.FlaggedWords | backend/main.py:115-120 | A word is kept iff it is a word of the lower-cased, whitespace-split prompt and contains a category. The kept words are a subsequence of the prompt's words, in order. Each word occurs as many times as in the prompt if it contains a category, and not at all otherwise. |
| FilteredWords.FlaggedWordsShape | backend/main.py:169-174 | Every flagged word is non-empty, holds no whitespace and holds no upper-case ASCII letter. |
| FilteredWords.CheckFilteredWords | backend/main.py:167-175 | The list is the words flagged against the sixteen pre-check categories. The flag is true iff the list is non-empty. |
| FilteredWords.ChildrenSubsumed | backend/main.py:172 | A word that contains "children" also contains "child", so the last category never adds a word. |
| Text.Lower | backend/main.py:169 | Lower-casing keeps the length and leaves no upper-case ASCII letter: each one becomes its lower-case form, 32 code points higher, and every other character stays as it is. |
| Text.Words | backend/main.py:169 | The words of `split()` are non-empty and hold no whitespace. Which words they are is fixed by `WordsOfWord` and `WordsAtSpace`. |
| Text.WordsSound | backend/main.py:169 | Laid end to end, the words of `split()` are the text without its whitespace. |
| Text.Join | backend/main.py:194 | `', '.join(words)` contains every word it joins. |
| Text.Contains | backend/main.py:174 | A contained word is no longer than the text, and the empty word is in every text. |
| Text.WordsOfJoin | backend/main.py:169 | Splitting whitespace-free words joined by single spaces gives the words back. |
| Text.WordsOfWord | backend/main.py:169 | A non-empty word without whitespace splits into just itself. |
| Text.WordsAtSpace | backend/main.py:169 | `split()` breaks at every whitespace character: the text on either side of one is split separately and the words are laid end to end. |
| Text.JoinSnoc | backend/main.py:122 | Joining one more word appends the separator and then the word, so the words appear in order with one separator between each two. |
| Text.ContainsIff | backend/main.py:174 | Python's substring `in` holds iff some offset of the word starts a copy of the category. |
| Aggregation.RangeLength | backend/main.py:142 | `range(n)` has n elements for n ≥ 0 and none for negative n. |
| Aggregation.PromptOnlyVideoRequest | backend/main.py:48-51 | A video request that gives only a prompt keeps its prompt and takes style "photographic" and a 5-second duration, which asks for the full 30 frames. |
| Aggregation.NumFrames | backend/main.py:131-136 | The frame count never exceeds 30. It is 30 iff the duration is at least 3 seconds, and ten frames a second below that. |
| Aggregation.PlanTasks | backend/main.py:141-145 | The loop plans one task per `range` element. Task i has seed i·100 and the given prompt, platform and style. |
| Aggregation.FrameTasks | backend/main.py:141-145 | A video plans at most 30 frame tasks, one per frame of `NumFrames`. Frame task i has seed i·100, the request's prompt and style, and the desktop platform. |
| Aggregation.ImageTasks | backend/main.py:202-204 | An image request plans one task per requested image. Task i has seed i·100 and the request's prompt, platform and style. |
| Aggregation.RunTasks | backend/main.py:208 | The gathered results are in task order: result i is what task i gives for reply i. |
| Aggregation.SeedsDistinct | backend/main.py:144 | Tasks planned by the loop have strictly increasing, hence distinct, seeds. |
| Aggregation.Successes | backend/main.py:152-157 | An image is kept iff some gathered result is that image. There are never more kept images than results. |
| Aggregation.SuccessesInOrder | backend/main.py:210-223 | The kept images are exactly the images of the results that are neither exceptions nor None, in result order. |
| Aggregation.SuccessesAll | backend/main.py:152-157 | When every task returned an image, every image is kept at its task's position. |
| Aggregation.FramesOutcome | backend/main.py:159-162 | The frames step fails iff no result carries an image, and then it raises "No frames were generated for the video". A success is the kept images, `Successes` of the results, in result order. |
| Aggregation.CollectFrames | backend/main.py:149-162 | The collecting loop skips exceptions and None and keeps images in order. It raises "No frames were generated" when nothing is left. |
| Aggregation.ImagesOutcome | backend/main.py:207-229 | Any gathered refusal gives 400 "Additional content filtering". Without one, the answer succeeds iff some result is kept, and otherwise is 500 "No images were generated". A success is the kept images, `Successes` of the results, in result order. |
| Aggregation.CollectImages | backend/main.py:207-229 | The collecting loop of `generate_images` as written: it aborts on a refusal, skips every other exception and None, and answers 500 when nothing is left. |
| Aggregation.NoRefusalResults | backend/main.py:211-221 | No exception raised by `generate_single_image` reports a refusal. |
| Aggregation.GenerateVideoFrames | backend/main.py:128-165 | Planning, running and collecting the frame tasks gives the `FramesOutcome` of the gathered results. |
| Aggregation.FailedRepliesNoFrames | backend/main.py:149-162 | When the image service fails every frame request, the frames step raises "No frames were generated". |
| Aggregation.FramesOutcomeShape | backend/main.py:128-165 | A video yields 1 to 30 desktop-sized (1024×768) frames in its style, or the "no frames" failure. A non-positive duration always fails. |
| Aggregation.FilteredDetail | backend/main.py:191-195 | The pre-check's 400 detail starts "Your prompt contains filtered words that are not allowed", ends with the request to modify the prompt, and names every flagged word in between. |
| Aggregation.CheckRequest | backend/main.py:180-195 | A bad count is rejected with 400 and the validator's message; a flagged prompt with 400 and the filtered-words detail. The request passes iff the count is valid and no word is flagged, and then the count is the request's. |
| Aggregation.GenerateImages | backend/main.py:177-231 | The endpoint as written. A bad count answers 400 with the validator's message; a flagged prompt answers 400 with the filtered-words detail. Otherwise the answer is `ImagesOutcome` of the gathered results. |
| Aggregation.GenerateImagesIntended | backend/main.py:177-239 | The endpoint with the corrected collection: the same two 400 answers, and otherwise `ImagesOutcomeIntended` of the gathered results. |
| Aggregation.NoAdditionalFiltering | backend/main.py:215-220 | The collecting loop as written only ever succeeds or answers 500. Its "Additional content filtering" branch is unreachable. |
| Aggregation.ImagesOutcomeShape | backend/main.py:99-106 | A successful answer holds 1 to `num_images` images, each with the requested platform, style and size. |
| Aggregation.LongPromptAnswers500 | backend/main.py:210-229 | As written, a prompt over 1000 characters that passes the word check is answered with the 500 "No images were generated" error. |
| Aggregation.FirstValueError | backend/main.py:235-239 | There is a message iff some gathered result is a ValueError. The message is that of a ValueError result with no ValueError before it. |
| Aggregation.ImagesOutcomeIntended | backend/main.py:235-239 | Corrected: a task's ValueError answers 400 with its message. Without one, the answer is the loop's outcome as written. |
| Aggregation.CollectImagesIntended | backend/main.py:207-239 | The corrected collection method computes `ImagesOutcomeIntended`. |
| Aggregation.IntendedLongPromptAnswers400 | backend/main.py:59-60 | Corrected: a long prompt, with at least one image requested, answers 400 with the length message. |
| Aggregation.IntendedRefusalAnswers400 | backend/main.py:110-122 | Corrected: when the service refuses the first request, the answer is 400 with the refusal message naming the words found. |
| Aggregation.TaskValueErrors | backend/main.py:59-60 | An image task raises no ValueError other than the length message and the refusal message. |
| Aggregation.IntendedOutcomeShape | backend/main.py:177-239 | Corrected: a request past its checks gets images, one of the two 400 messages, or the 500 error. A success equals the original's. |
| ErrorMapping.ImagesErrorResponse | backend/main.py:233-270 | A ValueError answers 400 with its text. Access denied answers 403. A refusal answers 400 with the word list; another validation error 400 "Invalid request parameters"; anything else 500 "Error generating images". As written, the try body (backend/main.py:179-231) raises only HTTPExceptions, which line 233 re-raises unchanged, because `gather(..., return_exceptions=True)` returns task errors as results. So as written the handlers at backend/main.py:235-270 are never reached; the corrected collection reaches the `except ValueError` one. |
| ErrorMapping.RefusedPromptDetail | backend/main.py:249-255 | The refusal handler's detail starts "Your prompt contains filtered words that are not allowed" and ends with the request to modify the prompt. It names every flagged word; with none, it is just those two parts. |
| ErrorMapping.RefusedDetailMatchesPrecheck | backend/main.py:249-260 | When the prompt has flagged words, the refusal handler's detail is the same text as the pre-check's 400 detail. |
| ErrorMapping.IntendedMatchesValueErrorHandler | backend/main.py:235-239 | The corrected collection answers a task's ValueError as the endpoint's `except ValueError` handler does. |
| VideoJobs.JobTable.constructor | backend/main.py:54 | The job table starts empty. |
| VideoJobs.JobTable.GenerateVideo | backend/main.py:272-289 | A processing record with progress 0, no frames and no error is stored under the fresh id. Nothing else changes, and the answer names the id. |
| VideoJobs.JobTable.StartProcessing | backend/main.py:299-303 | Only that job's progress becomes 10. |
| VideoJobs.JobTable.CompleteJob | backend/main.py:309-315 | Only that job changes: it holds the frames and is completed at progress 100. Every record stays well formed. |
| VideoJobs.JobTable.FailJob | backend/main.py:317-321 | Only that job changes: it is failed with the exception's text. Every record stays well formed. |
| VideoJobs.JobTable.FinishProcessing | backend/main.py:305-321 | Only that job changes. It becomes completed with progress 100 and the frames, or failed with the exception's text. Every record stays well formed. |
| VideoJobs.JobTable.VideoStatus | backend/main.py:323-348 | An unknown id answers 404 "Video job not found". Completed returns progress 100 with the frames; failed returns the error; anything else returns processing with the stored progress. For a well-formed table, completed jobs have 1 to 30 frames and failed jobs an error. |
| VideoJobs.JobLifecycle | backend/main.py:272-348 | A client polling one job sees processing at 0, processing at 10, then completed with the frames or failed with "No frames were generated". Another job's status never changes. |
| Playback.NextFrame | frontend/src/App.js:335-342 | A tick stops exactly when the index is at or past the last frame, and then the index becomes 0. Otherwise the index moves one forward. A valid index stays valid. |
| Playback.PlayAdvances | frontend/src/App.js:334-343 | Before the last frame, each tick moves exactly one frame forward. |
| Playback.PlayStopsAtEnd | frontend/src/App.js:334-343 | Started at frame s, playback shows frames s..n-1 in order. It stops at index 0 on tick n-s. |
| Playback.PlayStaysInRange | frontend/src/App.js:334-343 | Any number of ticks keeps the index inside the frames. |
| Messages.OrElse | frontend/src/App.js:165 | JavaScript's `||` on a string: a non-empty value is kept, and a missing or empty one gives the fallback. |
| Messages.ImageFailureMessage | frontend/src/App.js:158-170 | A server answer shows its detail, or else its status text. No answer shows "No response from server". Anything else shows the default. |
| Messages.VideoFailureMessage | frontend/src/App.js:284-295 | The same cases, with "Server error: " before a server answer's text and the video default. |
| Messages.VideoMessageExtendsImageMessage | frontend/src/App.js:286-295 | The two handlers agree up to the "Server error: " prefix and on a missing answer. They differ on the default. |
| Messages.JobFailedMessage | frontend/src/App.js:314 | The text a failed job puts in `videoError`: never empty, a non-empty server error as is, and "Video generation failed" for a missing or empty one. |
| Download.ToUint8 | frontend/src/App.js:201 | Storing in a `Uint8Array` keeps values 0..255 and reduces any other value modulo 256. |
| Download.CharCodes | frontend/src/App.js:196-199 | One byte per character: its `charCodeAt` value stored as a `Uint8Array` element. |
| Download.ByteArrays | frontend/src/App.js:190-205 | There are ⌈n/512⌉ arrays, each holding 1 to 512 bytes, all full but the last. Laid end to end they are exactly the bytes of the decoded text. |
| Download.BinaryStringRoundTrip | frontend/src/App.js:190-201 | For a binary string (every character below 256), reading the bytes back gives the string. |
| Download.DownloadFilename | frontend/src/App.js:211-213 | The name is `tshirt-design-` + platform + `-` + style + `-`, then a run of digits with no leading zero, then `.png`. The digits read back as index + 1. |
| Download.DownloadFilenameInjective | frontend/src/App.js:211-213 | Two images of one platform and style never share a file name. |
| Download.FirstWebPhotographicName | frontend/src/App.js:211-213 | The first web image in the photographic style is saved as `tshirt-design-web-photographic-1.png`. |
| Labels.FindPreset | frontend/src/App.js:246 | `find` returns the first preset with the value. It finds nothing iff no preset has it. |
| Labels.PresetValuesDistinct | frontend/src/App.js:59-131 | The fifteen presets have distinct values. |
| Labels.StylePresetLabel | frontend/src/App.js:245-248 | A preset's value shows that preset's label. Any other value is shown as itself. |
| Labels.PlatformLabel | frontend/src/App.js:233-243 | Mobile and desktop get their labels. Every other platform, `web` included, gets the web label. |
| Labels.PlatformLabelTexts | frontend/src/App.js:236-241 | The labels read "Mobile (768×1024)", "Desktop (1024×768)" and "Web (1024×1024)". |
| App.DownloadedMessage | frontend/src/App.js:224 | The notice starts "Image " and ends " downloaded successfully!". Between them is a run of digits, with no leading zero, that reads back as index + 1. |
| App.DecidePoll | frontend/src/App.js:309-327 | Completed hands over the frames and failed the job's message, neither rescheduling. Any other status polls again. A failed request stops polling. Each case holds iff its condition does. |
| App.SnackbarText | frontend/src/App.js:749 | The error notice shows `error` when it is non-empty and `videoError` otherwise. |
| App.VideoErrorShownIff | frontend/src/App.js:136 | A video error reaches the notice iff the image tab's `error` is empty or the same text. A stale image error, which only an image submit clears, hides every later video error. |
| App.AppState.constructor | frontend/src/App.js:33-56 | The initial values of every hook. |
| App.AppState.EditImageForm | frontend/src/App.js:465-475 | Editing the image form changes only its four fields. The count comes from the selector. |
| App.AppState.EditVideoForm | frontend/src/App.js:511-516 | Editing the video form changes only its fields. The duration stays in 1..10. |
| App.AppState.BeginSubmit | frontend/src/App.js:133-148 | Starting an image submit sets loading and clears the error and images. It sends the form's values, and the count always passes `validate_num_images`. |
| App.AppState.FinishSubmit | frontend/src/App.js:150-176 | Loading ends. Images from the reply are shown; a missing or empty list shows the filtered-words notice; a failure shows `ImageFailureMessage`. |
| App.AppState.BeginVideoSubmit | frontend/src/App.js:251-272 | Starting a video submit sets loading and resets frames, status, index and playing. It stops and clears any playback timer, and the duration asks for 10 to 30 frames. |
| App.AppState.FinishVideoSubmit | frontend/src/App.js:274-300 | A job id starts polling that job as processing. A body without one sets `videoError` to the start failure but leaves loading set. A failure sets `videoError` to `VideoFailureMessage` and ends loading. |
| App.AppState.PollStep | frontend/src/App.js:303-328 | Applies `DecidePoll`. Frames end loading and polling; a failed job sets `videoError` to its message; a running job keeps polling the same job; a failed request sets `videoError` to the poll error and stops. |
| App.AppState.Play | frontend/src/App.js:330-346 | With no frames nothing changes. Otherwise one timer starts, capturing the frame count, and playing is set. |
| App.AppState.Tick | frontend/src/App.js:334-343 | One timer firing moves the index as `NextFrame` says. The firing that wraps to 0 clears the timer and stops playing. |
| App.AppState.Pause | frontend/src/App.js:348-354 | Afterwards nothing plays, no handle is held and no timer runs. Pausing twice is pausing once. |
| App.AppState.FrameChange | frontend/src/App.js:356-358 | The slider's value becomes the frame index, and nothing else changes. |
| App.AppState.CloseSnackbar | frontend/src/App.js:179-181 | Only the error notice closes. |
| App.AppState.CloseSuccessSnackbar | frontend/src/App.js:183-185 | Only the download notice closes. |
| App.AppState.DownloadImage | frontend/src/App.js:187-231 | A file is saved iff `atob` succeeds. It is named by `DownloadFilename` and holds ⌈n/512⌉ arrays of 1 to 512 bytes, all full but the last, which laid end to end are the decoded bytes. Success shows `DownloadedMessage`; a decoding error shows the download error. Nothing else changes. |
| App.AppState.DownloadVideo | frontend/src/App.js:360-378 | With no frames nothing happens. Otherwise the frame on screen is saved iff its data decodes: named by `DownloadFilename` for the "video" platform, the video form's current style and the frame index, and holding the decoded bytes in 512-byte slices. Success shows `DownloadedMessage`; a decoding error shows the download error. Nothing else changes. |
| Bridge.StatusAnswer | frontend/src/App.js:303-327 | An error status reaches the page as a failed request. Otherwise the body's status is "completed", "failed" or "processing" exactly as the job's; a completed body carries the job's frames and a failed one its error. |
| Bridge.ErrorDetailShown | frontend/src/App.js:162-165 | An HTTP error with a detail gives that detail as the image tab's `error`, and as the video tab's message after "Server error: ". |
| Bridge.ImagesOutcomeOnPage | frontend/src/App.js:150-165 | For any task replies, the answer of `generate_images` as written (`ImagesOutcome`) either lists a non-empty set of images on the page, or is the 500 "No images were generated" error, whose detail the page shows. The page's "no images because of filtered words" branch is never taken. |
| Bridge.ImagesOutcomeOnPageIntended | frontend/src/App.js:150-165 | With the corrected collection (`ImagesOutcomeIntended`), the page lists a non-empty set of images or shows the service's own detail, never the status text. |
| Bridge.NumImageChoicesAccepted | frontend/src/App.js:469 | Every choice of the count selector passes `validate_num_images`. |
| Bridge.DurationChoicesFrames | frontend/src/App.js:511-516 | Every slider duration asks for 10, 20 or 30 frames. |
| Bridge.PollFollowsJob | frontend/src/App.js:309-327 | Polling a job in the table: unknown stops with the poll error; completed hands over its 1 to 30 frames; failed hands over its error for `videoError`; running polls again. |
| Bridge.VideoOnPage | frontend/src/App.js:303-327 | A job created, processed against the frame replies and then polled hands the page the kept frames (1 to 30) when there are any, and otherwise the backend's "No frames were generated" message for `videoError`. When every frame request fails, that message is the outcome. |
| Bridge.FormDefaultsMatchRequestDefaults | frontend/src/App.js:34-48 | The page's forms start with platform "web", style "photographic", 4 images and 5 seconds, the same values the service's request models default to. |
| Bridge.PlatformLabelMatchesDimensions | frontend/src/App.js:233-243 | Each platform label names the size the service renders for that platform. |

## Left out

- The AWS Bedrock client, `invoke_model` and the JSON encoding of request and reply are a foreign service. Each task's reply is an input `Reply`, and the floating-point `cfg_scale` and `weight` are not modelled.
- `asyncio.gather`, `to_thread` and `create_task` are concurrency. The gathered results are one sequence in task order. The background job runs as two steps with the `await` between them.
- FastAPI routing, CORS, `uvicorn`, `print` logging and `uuid4` are web plumbing. The fresh job id is a parameter.
- `generate_video`'s `except` clause (backend/main.py:291-297) is not modelled: storing a record in a dictionary cannot raise in the model.
- A pydantic error while building the request model, and a non-string `detail`, are not modelled. Field defaults are modelled by `PromptOnlyRequest` and `PromptOnlyVideoRequest`; other fields are always given.
- `axios`, `setTimeout`, `setInterval` and the `useEffect` cleanup are network and timers. Answers are method inputs; a timer firing is a call to `Tick`; the next poll is the `pendingPoll` field.
- Browser timer handles are taken to be positive (truthy), as browsers return them.
- `atob` is a parameter that may fail. `Blob`, object URLs and DOM link clicking are browser APIs and are left out.
- JSX and Material-UI rendering, the `activeTab` hook and the presets' descriptions are display only.
- `handleDownloadVideo`'s own `catch` is not modelled: `handleDownloadImage` catches every error itself, so that branch is never taken.
- A completed status answer without `frames` is not modelled; the service always sends them.
- Aggregation.TaskValueErrors and Aggregation.IntendedOutcomeShape: every error of the image service is a plain exception in the model. A malformed reply body makes `json.loads` raise `JSONDecodeError` (backend/main.py:97), a ValueError subclass, which the corrected reading would answer with 400 and its text; these two lemmas do not cover it.
- Text.Lower: only ASCII letters are lower-cased. Python's full-Unicode `str.lower` is not modelled.
- Download.CharCodes: characters are Dafny `char` values. UTF-16 surrogate pairs are not modelled.
- App.AppState.Play: it requires that nothing is playing, because the page reaches it only through the play/pause toggle (frontend/src/App.js:711). Then no timer is live, so the `useEffect` cleanup (frontend/src/App.js:381-387) that clears the previous handle has nothing to stop. A call while playing would start a second timer, and that cleanup would then clear the first; this sequence is not modelled.
- The test scripts `backend/test_api.py` and `backend/test_bedrock.py` only make live calls and print.

## Findings

| source | as written | input that shows it | evidently intended | confidence | as-written member | corrected member |
|---|---|---|---|---|---|---|
| backend/main.py:210-229 | The collecting loop of `generate_images` skips every exception a task raised that is not a service refusal. That includes the ValueErrors `generate_single_image` raises for a prompt over 1000 characters and for a refused prompt. The request then gets 500 "No images were generated", and the endpoint's `except ValueError` handler (backend/main.py:235-239) never sees those messages. | A prompt of 1001 letters with no flagged word and `num_images` 1: every task raises "Prompt is too long…", and the answer is 500 instead of 400. | A task's ValueError answers 400 with its message, as a ValueError raised in the endpoint itself does. For a refusal the comment at backend/main.py:216 suggests the other 400 answer, "Additional content filtering applied by the AI system"; the corrected model keeps the ValueError's own text, and on either reading the status is 400, not 500. | medium, not executed | Aggregation.LongPromptAnswers500 | Aggregation.ImagesOutcomeIntended |
