/**
 * Fixed error texts raised by `generate_single_image` (backend/main.py).
 * They sit in a module of their own so that facts about their characters
 * are proved in a small context.
 */
module ImageErrorTexts {
  // Each text is written in short pieces: facts about the characters of a
  // short literal are cheap to prove, and a concatenation adds nothing.
  const PromptTooLongMessage := "Prompt is too long. " + "Maximum length " + "is 1000 characters."
  const RefusalPrefix := "Filtered words " + "detected in prompt: "
  const RefusalFallback := "Content not allowed " + "by safety system"

  /** The fixed message texts hold no capital `V`. */
  lemma PromptTooLongLacksV()
    ensures 'V' !in PromptTooLongMessage
  {
    assert 'V' !in "Prompt is too long. ";
    assert 'V' !in "Maximum length ";
    assert 'V' !in "is 1000 characters.";
  }

  lemma RefusalPrefixLacksV()
    ensures 'V' !in RefusalPrefix
  {
    assert 'V' !in "Filtered words ";
    assert 'V' !in "detected in prompt: ";
  }

  lemma RefusalFallbackLacksV()
    ensures 'V' !in RefusalFallback
  {
    assert 'V' !in "Content not allowed ";
    assert 'V' !in "by safety system";
  }
}

/**
 * One image request to the backend's image service (backend/main.py):
 * the request model's count check, the prompt-length check, the platform
 * dimension table, the request body, and `generate_single_image`'s
 * handling of the service's reply.
 */
module ImageRequest {
  import opened Wrappers
  import opened Text
  import FilteredWords
  import opened ImageErrorTexts

  const MaxImages := 100
  const MaxPromptLength := 1000
  /** Diffusion steps requested for every image. */
  const Steps := 50

  const TooFewImagesMessage := "Number of images must be at least 1"
  const TooManyImagesMessage := "Number of images cannot exceed 100"

  /**
   * A Python exception as the backend raises it: a `ValueError`, or any
   * other exception class (the AWS client's errors, a bare `Exception`),
   * each carried by its `str`.
   */
  datatype Exception = ValueError(message: string) | Failure(message: string)

  /** An `HTTPException`: the status code and the `detail` sent to the client. */
  datatype HttpError = HttpError(status: int, detail: string)

  /** `PromptRequest`, the body of `POST /generate-images`. */
  datatype PromptRequest = PromptRequest(prompt: string, platform: string, stylePreset: string, numImages: int)

  /** The request model's defaults for a body that names only the prompt. */
  const DefaultPlatform := "web"
  const DefaultStylePreset := "photographic"
  const DefaultNumImages := 4

  /**
   * The request a body holding only `prompt` becomes: four square images
   * in the photographic style, a count the check accepts.
   */
  function PromptOnlyRequest(prompt: string): (r: PromptRequest)
    ensures r.prompt == prompt && r.stylePreset == DefaultStylePreset
    ensures r.platform == DefaultPlatform && r.numImages == DefaultNumImages
    ensures ValidateNumImages(r.numImages) == Ok(DefaultNumImages)
    ensures Dimensions(r.platform) == Size(1024, 1024)
  {
    PromptRequest(prompt, DefaultPlatform, DefaultStylePreset, DefaultNumImages)
  }

  /** `PromptRequest.validate_num_images`. */
  function ValidateNumImages(numImages: int): (r: Result<int, Exception>)
    ensures r.Ok? <==> 1 <= numImages <= MaxImages
    ensures r.Ok? ==> r.value == numImages
    ensures numImages < 1 ==> r == Err(ValueError(TooFewImagesMessage))
    ensures numImages > MaxImages ==> r == Err(ValueError(TooManyImagesMessage))
  {
    if numImages < 1 then Err(ValueError(TooFewImagesMessage))
    else if numImages > MaxImages then Err(ValueError(TooManyImagesMessage))
    else Ok(numImages)
  }

  /** The two rejections of `validate_num_images` can be told apart by their message. */
  lemma CountErrorsDistinct()
    ensures ValidateNumImages(0) != ValidateNumImages(MaxImages + 1)
  {
    assert TooFewImagesMessage[17] != TooManyImagesMessage[17];
  }

  datatype Size = Size(width: nat, height: nat)

  /** The platform dimension table: portrait for mobile, landscape for desktop, square otherwise. */
  function Dimensions(platform: string): (d: Size)
    ensures platform == "mobile" ==> d == Size(768, 1024)
    ensures platform == "desktop" ==> d == Size(1024, 768)
    ensures platform != "mobile" && platform != "desktop" ==> d == Size(1024, 1024)
  {
    if platform == "mobile" then Size(768, 1024)
    else if platform == "desktop" then Size(1024, 768)
    else Size(1024, 1024)
  }

  /**
   * Every platform gets a size the image model accepts (sides between 512
   * and 1024), and the orientation tells the platform class apart.
   */
  lemma DimensionsShape(platform: string)
    ensures var d := Dimensions(platform);
      && 512 <= d.width <= 1024 && 512 <= d.height <= 1024
      && (d.height > d.width <==> platform == "mobile")
      && (d.width > d.height <==> platform == "desktop")
      && (d.width == d.height <==> platform != "mobile" && platform != "desktop")
  {
  }

  /** The request body sent to the image model; the floating-point guidance values are not modelled. */
  datatype RequestBody = RequestBody(text: string, steps: nat, width: nat, height: nat, seed: int, stylePreset: string)

  /** The part of `generate_single_image` before the service is called. */
  function BuildRequestBody(prompt: string, seed: int, platform: string, stylePreset: string): (r: Result<RequestBody, Exception>)
    ensures r.Err? <==> |prompt| > MaxPromptLength
    ensures r.Err? ==> r.error == ValueError(PromptTooLongMessage)
    ensures r.Ok? ==> && r.value.text == prompt && r.value.seed == seed && r.value.steps == Steps
                      && Size(r.value.width, r.value.height) == Dimensions(platform)
                      && r.value.stylePreset == stylePreset
  {
    if |prompt| > MaxPromptLength then Err(ValueError(PromptTooLongMessage))
    else
      var d := Dimensions(platform);
      Ok(RequestBody(prompt, Steps, d.width, d.height, seed, stylePreset))
  }

  /**
   * What the image service does with a request body: it answers with a
   * list of base64 artifacts (a reply without the `artifacts` key behaves
   * like an empty list), or it raises an error with a message.
   */
  datatype Reply = Artifacts(base64s: seq<string>) | ServiceError(message: string)

  /** The image record the backend returns to its client. */
  datatype Image = Image(base64: string, platform: string, width: nat, height: nat, stylePreset: string)

  /**
   * The service refused the prompt for its content: both marker texts
   * occur somewhere in the error's text.
   */
  predicate IsContentRefusal(message: string)
    ensures IsContentRefusal(message) <==>
              (exists i :: OccursAt(message, "ValidationException", i)) &&
              (exists j :: OccursAt(message, "invalid_prompts", j))
  {
    ContainsIff(message, "ValidationException");
    ContainsIff(message, "invalid_prompts");
    Contains(message, "ValidationException") && Contains(message, "invalid_prompts")
  }

  /**
   * The `ValueError` message raised when the service refuses a prompt: it
   * names every word the refusal scan flags, or says the safety system
   * refused when the scan flags none.
   */
  function RefusalMessage(prompt: string): (m: string)
    ensures |RefusalPrefix| <= |m| && m[..|RefusalPrefix|] == RefusalPrefix
    ensures var flagged := FilteredWords.FlaggedWords(prompt, FilteredWords.RefusalCategories);
      forall k :: 0 <= k < |flagged| ==> Contains(m, flagged[k])
    ensures FilteredWords.FlaggedWords(prompt, FilteredWords.RefusalCategories) == [] ==>
              m == RefusalPrefix + RefusalFallback
  {
    var flagged := FilteredWords.FlaggedWords(prompt, FilteredWords.RefusalCategories);
    var tail := if |flagged| > 0 then Join(flagged, ", ") else RefusalFallback;
    ContainsAllWithin(RefusalPrefix, tail, "", flagged);
    var m := RefusalPrefix + tail;
    assert m + "" == m;
    assert m[..|RefusalPrefix|] == RefusalPrefix;
    m
  }

  /** A text without a capital `V` cannot report a service refusal. */
  lemma LacksVNotRefusal(message: string)
    requires 'V' !in message
    ensures !IsContentRefusal(message)
  {
    assert "ValidationException"[0] == 'V';
    MissingCharNotContained(message, "ValidationException", 'V');
  }

  /** The refusal message has no capital `V`, so it never reads as a service refusal itself. */
  lemma RefusalMessageNotRefusal(prompt: string)
    ensures 'V' !in RefusalMessage(prompt)
    ensures !IsContentRefusal(RefusalMessage(prompt))
  {
    var flagged := FilteredWords.FlaggedWords(prompt, FilteredWords.RefusalCategories);
    var tail := if |flagged| > 0 then Join(flagged, ", ") else RefusalFallback;
    RefusalPrefixLacksV();
    RefusalFallbackLacksV();
    if |flagged| > 0 && 'V' in tail {
      JoinChars(flagged, ", ", 'V');
      var k :| 0 <= k < |flagged| && 'V' in flagged[k];
      FilteredWords.FlaggedWordsShape(prompt, FilteredWords.RefusalCategories, k);
      assert false;
    }
    assert RefusalMessage(prompt) == RefusalPrefix + tail;
    LacksVNotRefusal(RefusalMessage(prompt));
  }

  /**
   * `generate_single_image`: `Ok(Some(image))` for a returned artifact,
   * `Ok(None)` for an empty reply, `Err` for a raised exception.
   */
  function GenerateSingleImage(prompt: string, seed: int, platform: string, stylePreset: string, reply: Reply)
    : (r: Result<Option<Image>, Exception>)
    ensures |prompt| > MaxPromptLength ==> r == Err(ValueError(PromptTooLongMessage))
    ensures r.Ok? <==> |prompt| <= MaxPromptLength && reply.Artifacts?
    ensures r == Ok(None) <==> |prompt| <= MaxPromptLength && reply.Artifacts? && |reply.base64s| == 0
    ensures r.Ok? && r.value.Some? ==>
              && r.value.value.base64 == reply.base64s[0]
              && r.value.value.platform == platform && r.value.value.stylePreset == stylePreset
              && Size(r.value.value.width, r.value.value.height) == Dimensions(platform)
    ensures |prompt| <= MaxPromptLength && reply.ServiceError? ==>
              r == if IsContentRefusal(reply.message) then Err(ValueError(RefusalMessage(prompt)))
                   else Err(Failure(reply.message))
    ensures r.Err? ==> !IsContentRefusal(r.error.message)
  {
    match BuildRequestBody(prompt, seed, platform, stylePreset)
    case Err(e) =>
      PromptTooLongLacksV();
      LacksVNotRefusal(PromptTooLongMessage);
      Err(e)
    case Ok(body) =>
      match reply
      case Artifacts(base64s) =>
        if |base64s| > 0 then Ok(Some(Image(base64s[0], platform, body.width, body.height, stylePreset)))
        else Ok(None)
      case ServiceError(message) =>
        if IsContentRefusal(message) then
          RefusalMessageNotRefusal(prompt);
          Err(ValueError(RefusalMessage(prompt)))
        else Err(Failure(message))
  }
}
