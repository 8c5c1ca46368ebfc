/**
 * The outer `except` clauses of `generate_images` (backend/main.py): how an
 * exception that escapes the endpoint's body becomes an HTTP status and
 * detail. An `HTTPException` raised inside the body is passed on unchanged
 * and is not an input here.
 */
module ErrorMapping {
  import opened Wrappers
  import opened Text
  import opened ImageRequest
  import FilteredWords
  import Aggregation

  const AccessDeniedDetail := "AWS Bedrock access denied. Please check your credentials and permissions."

  /**
   * The detail built when the service refused a prompt: it names every
   * word the pre-check scan flags, and only the two fixed ends when there
   * are none.
   */
  function RefusedPromptDetail(prompt: string): (detail: string)
    ensures |Aggregation.FilteredLead| + |Aggregation.FilteredTail| <= |detail|
    ensures detail[..|Aggregation.FilteredLead|] == Aggregation.FilteredLead
    ensures detail[|detail| - |Aggregation.FilteredTail|..] == Aggregation.FilteredTail
    ensures var words := FilteredWords.CheckFilteredWords(prompt).1;
      forall k :: 0 <= k < |words| ==> Contains(detail, words[k])
    ensures FilteredWords.CheckFilteredWords(prompt).1 == [] ==>
              detail == Aggregation.FilteredLead + Aggregation.FilteredTail
  {
    var (_, words) := FilteredWords.CheckFilteredWords(prompt);
    var middle := if |words| > 0 then ": " + Join(words, ", ") else "";
    Framed(Aggregation.FilteredLead, middle, Aggregation.FilteredTail);
    var detail := Aggregation.FilteredLead + middle + Aggregation.FilteredTail;
    if |words| > 0 then
      ContainsAllWithin(": ", Join(words, ", "), "", words);
      assert ": " + Join(words, ", ") + "" == middle;
      ContainsAllWithin(Aggregation.FilteredLead, middle, Aggregation.FilteredTail, words);
      detail
    else
      assert Aggregation.FilteredLead + middle == Aggregation.FilteredLead;
      detail
  }

  /** `raise HTTPException(...)` for an exception caught by the endpoint's outer handlers. */
  function ImagesErrorResponse(e: Exception, prompt: string): (r: HttpError)
    ensures r.status == 400 || r.status == 403 || r.status == 500
    ensures e.ValueError? ==> r == HttpError(400, e.message)
    ensures r.status == 403 <==> e.Failure? && Contains(e.message, "AccessDeniedException")
    ensures r.status == 403 ==> r.detail == AccessDeniedDetail
    ensures r.status == 500 <==>
              e.Failure? && !Contains(e.message, "AccessDeniedException") && !Contains(e.message, "ValidationException")
    ensures r.status == 500 ==> r.detail == "Error generating images: " + e.message
    ensures e.Failure? && !Contains(e.message, "AccessDeniedException") && IsContentRefusal(e.message) ==>
              r == HttpError(400, RefusedPromptDetail(prompt))
    ensures e.Failure? && !Contains(e.message, "AccessDeniedException") &&
            Contains(e.message, "ValidationException") && !Contains(e.message, "invalid_prompts") ==>
              r == HttpError(400, "Invalid request parameters: " + e.message)
  {
    match e
    case ValueError(message) => HttpError(400, message)
    case Failure(message) =>
      if Contains(message, "AccessDeniedException") then HttpError(403, AccessDeniedDetail)
      else if IsContentRefusal(message) then HttpError(400, RefusedPromptDetail(prompt))
      else if Contains(message, "ValidationException") then HttpError(400, "Invalid request parameters: " + message)
      else HttpError(500, "Error generating images: " + message)
  }

  /**
   * When the prompt has flagged words, the refusal handler's detail is the
   * same text the word pre-check answers with.
   */
  lemma RefusedDetailMatchesPrecheck(prompt: string)
    requires FilteredWords.CheckFilteredWords(prompt).0
    ensures RefusedPromptDetail(prompt) == Aggregation.FilteredDetail(FilteredWords.CheckFilteredWords(prompt).1)
  {
    var words := FilteredWords.CheckFilteredWords(prompt).1;
    assert RefusedPromptDetail(prompt) ==
           Aggregation.FilteredLead + (": " + Join(words, ", ")) + Aggregation.FilteredTail;
  }

  /**
   * The corrected collection answers a task's `ValueError` exactly as the
   * endpoint's own `except ValueError` handler would.
   */
  lemma IntendedMatchesValueErrorHandler(results: seq<Aggregation.TaskResult>, prompt: string)
    requires Aggregation.FirstValueError(results).Some?
    ensures Aggregation.ImagesOutcomeIntended(results) ==
            Err(ImagesErrorResponse(ValueError(Aggregation.FirstValueError(results).value), prompt))
  {
  }
}
