/** `getReview`: the per-request decision of the review endpoint.

    The GitHub fetch (`fetchGithubCode`) and the review generator are
    parameters that return a text or throw; the response is a value, and the
    calls made to the two collaborators are returned in order, so that which
    of them ran, and with what, can be stated.
 */
module AiController {
  import opened Base
  import opened JsString
  import GithubUrl
  import GithubService

  /** `req.body`: each field a string, or absent (undefined or null). */
  datatype ReviewRequest = ReviewRequest(code: Option<string>, language: Option<string>, githubUrl: Option<string>)

  /** A call to a collaborator: `fetchGithubCode(url)` or `aiService(code, language)`. */
  datatype Call = FetchCall(url: string) | GenerateCall(code: string, language: Option<string>)

  /** What is sent: the review text with status 200 (`res.send`), or a JSON
      error body with its status (`res.status(...).json(...)`). */
  datatype Response =
    | Review(text: string)
    | JsonError(status: nat, error: string, message: Option<string>)

  /** The response sent together with the calls made, in order. */
  datatype Handled = Handled(response: Response, calls: seq<Call>)

  const FetchFailedError: string := "Failed to fetch code from GitHub"
  const RequiredError: string := "Code or GitHub URL is required"
  const InternalError: string := "Internal server error"

  /** `v && v.trim()` is truthy: the value is present and not blank (see
      NonBlankIsTruthyTrim). */
  predicate NonBlank(v: Option<string>) {
    v.Some? && !Blank(v.value)
  }

  /** Validation and review of `codeToReview`, once it is settled. */
  function ReviewStep(codeToReview: Option<string>, language: Option<string>,
                      generate: (string, Option<string>) -> Result<string>): Handled
  {
    if !NonBlank(codeToReview) then Handled(JsonError(400, RequiredError, None), [])
    else
      var call := GenerateCall(codeToReview.value, language);
      match generate(codeToReview.value, language)
      case Ok(text) => Handled(Review(text), [call])
      case Err(m) => Handled(JsonError(500, InternalError, Some(m)), [call])
  }

  /** `getReview` as a decision: fetch from GitHub when a URL is given, in
      which case the fetched text replaces `code`; then validate; then review. */
  function Handle(req: ReviewRequest, fetch: string -> Result<string>,
                  generate: (string, Option<string>) -> Result<string>): Handled
  {
    if NonBlank(req.githubUrl) then
      var url := req.githubUrl.value;
      match fetch(url)
      case Err(m) => Handled(JsonError(400, FetchFailedError, Some(m)), [FetchCall(url)])
      case Ok(githubCode) =>
        var h := ReviewStep(Some(githubCode), req.language, generate);
        Handled(h.response, [FetchCall(url)] + h.calls)
    else ReviewStep(req.code, req.language, generate)
  }

  /** `getReview`, step by step: `codeToReview` starts as `code`, is replaced
      by the fetched text, and each failure returns at once. */
  method GetReview(req: ReviewRequest, fetch: string -> Result<string>,
                   generate: (string, Option<string>) -> Result<string>)
    returns (response: Response, calls: seq<Call>)
    ensures Handled(response, calls) == Handle(req, fetch, generate)
  {
    calls := [];
    var codeToReview := req.code;
    if NonBlank(req.githubUrl) {
      var githubUrl := req.githubUrl.value;
      calls := calls + [FetchCall(githubUrl)];
      var fetched := fetch(githubUrl);
      if fetched.Err? {
        return JsonError(400, FetchFailedError, Some(fetched.message)), calls;
      }
      codeToReview := Some(fetched.value);
    }
    if !NonBlank(codeToReview) {
      return JsonError(400, RequiredError, None), calls;
    }
    calls := calls + [GenerateCall(codeToReview.value, req.language)];
    var generated := generate(codeToReview.value, req.language);
    if generated.Ok? {
      response := Review(generated.value);
    } else {
      response := JsonError(500, InternalError, Some(generated.message));
    }
  }

  // ---------------------------------------------------------------------
  // Properties of the decision

  /** The text that reaches validation: the fetched text when a URL is given
      and the fetch succeeds, `code` when no URL is given. */
  function TextUnderReview(req: ReviewRequest, fetch: string -> Result<string>): Option<string> {
    if NonBlank(req.githubUrl) then
      match fetch(req.githubUrl.value)
      case Ok(t) => Some(t)
      case Err(_) => None
    else req.code
  }

  /** With no URL, or a blank one, the fetcher is never called and `code` is
      what gets validated and reviewed. */
  lemma NoUrlNoFetch(req: ReviewRequest, fetch: string -> Result<string>,
                     generate: (string, Option<string>) -> Result<string>)
    requires !NonBlank(req.githubUrl)
    ensures forall c :: c in Handle(req, fetch, generate).calls ==> !c.FetchCall?
    ensures NonBlank(req.code) ==> Handle(req, fetch, generate).calls == [GenerateCall(req.code.value, req.language)]
  {
  }

  /** `v && v.trim()` is falsy exactly when the value is absent or `trim`
      leaves nothing of it. */
  lemma NonBlankIsTruthyTrim(v: Option<string>)
    ensures NonBlank(v) <==> v.Some? && v.value != "" && Trim(v.value) != ""
  {
    if v.Some? {
      TrimEmptyIffBlank(v.value);
    }
  }

  /** A failed fetch answers 400 "Failed to fetch code from GitHub" with the
      fetch error's message, after calling only the fetcher. */
  lemma FetchFailureIs400(req: ReviewRequest, fetch: string -> Result<string>,
                          generate: (string, Option<string>) -> Result<string>)
    requires NonBlank(req.githubUrl) && fetch(req.githubUrl.value).Err?
    ensures Handle(req, fetch, generate)
            == Handled(JsonError(400, FetchFailedError, Some(fetch(req.githubUrl.value).message)),
                       [FetchCall(req.githubUrl.value)])
  {
  }

  /** A successful fetch replaces `code` entirely: the outcome is that of a
      request whose only text is the fetched one, after the single fetch. */
  lemma FetchedTextReplacesCode(req: ReviewRequest, fetch: string -> Result<string>,
                                generate: (string, Option<string>) -> Result<string>)
    requires NonBlank(req.githubUrl) && fetch(req.githubUrl.value).Ok?
    ensures var alone := Handle(ReviewRequest(Some(fetch(req.githubUrl.value).value), req.language, None), fetch, generate);
            Handle(req, fetch, generate) == Handled(alone.response, [FetchCall(req.githubUrl.value)] + alone.calls)
  {
  }

  /** A blank or absent text to review, `code` or a fetched file alike,
      answers 400 "Code or GitHub URL is required" without calling the
      generator. */
  lemma BlankTextIsRequired(req: ReviewRequest, fetch: string -> Result<string>,
                            generate: (string, Option<string>) -> Result<string>)
    requires !NonBlank(req.githubUrl) || fetch(req.githubUrl.value).Ok?
    requires !NonBlank(TextUnderReview(req, fetch))
    ensures Handle(req, fetch, generate).response == JsonError(400, RequiredError, None)
    ensures forall c :: c in Handle(req, fetch, generate).calls ==> !c.GenerateCall?
  {
  }

  /** A non-blank text is reviewed by exactly one generator call, the last
      call made, with that text and the request's language; its text is sent
      verbatim, its failure answers 500 "Internal server error" with its
      message. */
  lemma GeneratorCalledOnce(req: ReviewRequest, fetch: string -> Result<string>,
                            generate: (string, Option<string>) -> Result<string>)
    requires NonBlank(TextUnderReview(req, fetch))
    ensures var t := TextUnderReview(req, fetch).value; var h := Handle(req, fetch, generate);
            && |h.calls| >= 1 && h.calls[|h.calls| - 1] == GenerateCall(t, req.language)
            && (forall j :: 0 <= j < |h.calls| - 1 ==> !h.calls[j].GenerateCall?)
            && h.response == match generate(t, req.language)
                             case Ok(text) => Review(text)
                             case Err(m) => JsonError(500, InternalError, Some(m))
  {
  }

  /** Every request gets exactly one of the four answers: the review, the
      fetch failure, the missing-code error, or the internal error; and the
      fetcher is called at most once, before the generator, which is called at
      most once. */
  lemma OneOfFourResponses(req: ReviewRequest, fetch: string -> Result<string>,
                           generate: (string, Option<string>) -> Result<string>)
    ensures var h := Handle(req, fetch, generate);
            || h.response.Review?
            || (h.response.JsonError? && h.response.status == 400 && h.response.error == FetchFailedError
                && h.response.message.Some?)
            || h.response == JsonError(400, RequiredError, None)
            || (h.response.JsonError? && h.response.status == 500 && h.response.error == InternalError
                && h.response.message.Some?)
    ensures var h := Handle(req, fetch, generate);
            h.calls in {[], [FetchCall(req.githubUrl.GetOr(""))],
                        [GenerateCall(TextUnderReview(req, fetch).GetOr(""), req.language)],
                        [FetchCall(req.githubUrl.GetOr("")),
                         GenerateCall(TextUnderReview(req, fetch).GetOr(""), req.language)]}
  {
    var h := Handle(req, fetch, generate);
    var f := FetchCall(req.githubUrl.GetOr(""));
    var g := GenerateCall(TextUnderReview(req, fetch).GetOr(""), req.language);
    if NonBlank(req.githubUrl) && fetch(req.githubUrl.value).Ok? {
      assert h.calls == [f] || h.calls == [f, g];
    } else if NonBlank(req.githubUrl) {
      assert h.calls == [f];
    } else {
      assert h.calls == [] || h.calls == [g];
    }
  }

  // ---------------------------------------------------------------------
  // With the GitHub service in place of the fetcher

  /** The fetcher `getReview` calls: `fetchGithubCode` as written. */
  function GithubFetch(get: string -> GithubService.HttpOutcome, decode: string -> string): string -> Result<string> {
    url => GithubService.CodeFromUrl(url, get, decode).outcome
  }

  /** A URL naming a repository the contents API answers 404 for gets a 400
      carrying the not-found message, never a 500, and the generator is not
      called. */
  lemma MissingRepositoryIs400(req: ReviewRequest, get: string -> GithubService.HttpOutcome,
                               decode: string -> string, generate: (string, Option<string>) -> Result<string>)
    requires NonBlank(req.githubUrl) && GithubUrl.ParseGithubUrl(req.githubUrl.value).Some?
    requires var r := GithubUrl.ParseGithubUrl(req.githubUrl.value).value;
             var api := GithubService.ApiUrl(r.owner, r.repo, r.path);
             get(api).Rejected? && get(api).error.status == Some(404)
    ensures Handle(req, GithubFetch(get, decode), generate)
            == Handled(JsonError(400, FetchFailedError, Some(GithubService.NotFoundMessage)),
                       [FetchCall(req.githubUrl.value)])
  {
    GithubService.RejectedRequestGivesMappedMessage(req.githubUrl.value, get, decode);
  }

  /** A URL that does not parse gets a 400 carrying the invalid-URL message. */
  lemma InvalidUrlIs400(req: ReviewRequest, get: string -> GithubService.HttpOutcome,
                        decode: string -> string, generate: (string, Option<string>) -> Result<string>)
    requires NonBlank(req.githubUrl) && GithubUrl.ParseGithubUrl(req.githubUrl.value).None?
    ensures Handle(req, GithubFetch(get, decode), generate)
            == Handled(JsonError(400, FetchFailedError, Some(GithubService.InvalidUrlMessage)),
                       [FetchCall(req.githubUrl.value)])
  {
  }

  /** As written, a GitHub directory listing, a repository root included,
      answers 400 with the TypeError text of reading `result.type`. */
  lemma DirectoryUrlIs400(req: ReviewRequest, get: string -> GithubService.HttpOutcome,
                          decode: string -> string, generate: (string, Option<string>) -> Result<string>)
    requires NonBlank(req.githubUrl) && GithubUrl.ParseGithubUrl(req.githubUrl.value).Some?
    requires var r := GithubUrl.ParseGithubUrl(req.githubUrl.value).value;
             var api := GithubService.ApiUrl(r.owner, r.repo, r.path);
             get(api).Response? && get(api).data.kind.None? && get(api).data.items.Some?
    ensures Handle(req, GithubFetch(get, decode), generate)
            == Handled(JsonError(400, FetchFailedError, Some(GithubService.UndefinedTypeMessage)),
                       [FetchCall(req.githubUrl.value)])
  {
    GithubService.ListingFallsThrough(req.githubUrl.value, get, decode);
  }

  /** The fetcher with the corrected parse and directory test. */
  function GithubFetchFixed(get: string -> GithubService.HttpOutcome, decode: string -> string): string -> Result<string> {
    url => GithubService.CodeFromUrlFixed(url, get, decode).outcome
  }

  /** With the correction, a directory listing whose file requests all
      succeed is reviewed as one text: the files' sections joined by the
      separator, exactly as if that text had been pasted as `code`. */
  lemma FixedDirectoryIsReviewed(req: ReviewRequest, get: string -> GithubService.HttpOutcome,
                                 decode: string -> string, generate: (string, Option<string>) -> Result<string>)
    requires NonBlank(req.githubUrl) && GithubUrl.ParseGithubUrlFixed(req.githubUrl.value).Some?
    requires var r := GithubUrl.ParseGithubUrlFixed(req.githubUrl.value).value;
             var api := GithubService.ApiUrl(r.owner, r.repo, r.path);
             && get(api).Response? && get(api).data.items.Some?
             && var fe := GithubService.FileEntries(get(api).data.items.value);
                forall k :: 0 <= k < |fe| ==> get(fe[k].url).Response?
    ensures var r := GithubUrl.ParseGithubUrlFixed(req.githubUrl.value).value;
            var api := GithubService.ApiUrl(r.owner, r.repo, r.path);
            var files := GithubService.ListedFiles(get(api).data.items.value, get, decode);
            var text := GithubService.Join(GithubService.Sections(files), GithubService.Separator);
            var pasted := Handle(ReviewRequest(Some(text), req.language, None), GithubFetchFixed(get, decode), generate);
            Handle(req, GithubFetchFixed(get, decode), generate)
            == Handled(pasted.response, [FetchCall(req.githubUrl.value)] + pasted.calls)
  {
    GithubService.FixedListingIsFlattened(req.githubUrl.value, get, decode);
  }
}
