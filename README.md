# AI Code Reviewer backend: GitHub fetching and the review endpoint

This project models the backend of the AI Code Reviewer in Dafny, and proves properties of the model. The backend is a small request proxy. A review request carries pasted `code` or a `githubUrl`. For a URL, the service fetches the file, or every file of a directory, from the GitHub contents API. It then hands the text to a review generator and sends back the review or one of three JSON errors.

Modules, one per concern:

- `Base` (base.dfy): `Option` for a value that may be `undefined`/`null`. `Result` for a call that returns a value or throws an `Error`, of which only the `message` is observed.
- `JsString` (js_string.dfy): the JavaScript string built-ins the code relies on.
  - `trim`, with the ECMAScript WhiteSpace and LineTerminator sets.
  - The first-occurrence `replace` with a string pattern.
  - The line terminators that a regular-expression `.` refuses.
- `GithubUrl` (github_url.dfy): `parseGithubUrl`.
  - The regular expression `github\.com\/([^\/]+)\/([^\/]+)(?:\/(?:blob|tree)\/[^\/]+\/(.+))?` is matched by hand: leftmost start, greedy runs, optional group skipped exactly when it cannot match.
  - A declarative predicate states what the pattern accepts, and the matcher is proved to agree with it.
- `GithubService` (github_service.dfy): `fetchFileContent` and `fetchGithubCode`.
  - The HTTP layer is a parameter `get` from URL to outcome (a response or a thrown error with an optional status).
  - Node's base64/UTF-8 decoding is a parameter `decode`.
  - Each operation returns the URLs it requested, in order.
  - The directory loop is the method `WalkListing`, proved against the function `Walked`.
  - The `forEach` flatten is the method `Flatten`, proved against the function `Flattened`.
  - `Flattened` is in turn proved equal to an independent `join`.
- `AiController` (ai_controller.dfy): `getReview`.
  - The GitHub fetch and the review generator are parameters that return `Ok(text)` or `Err(message)`.
  - The response is a datatype.
  - The calls made to the two collaborators are returned in order.
  - The method `GetReview`, with its early returns, is proved equal to the decision function `Handle`.

Two places where the code does not do what the rest of the code evidently expects are modelled as written:

- The directory branch of `fetchFileContent` (BackEnd/src/services/github.service.js:39) tests `response.data.type === 'dir'`. The contents API sends a directory as an array, which has no `type`, so the branch never runs for a directory. Three places in the code expect directories to work:
  - the invalid-URL message (BackEnd/src/services/github.service.js:81) offers `https://github.com/owner/repo`, a repository root, which the contents API returns as an array;
  - the branch itself iterates the data as a listing with `for (const item of response.data)` (BackEnd/src/services/github.service.js:42);
  - the review prompt (BackEnd/src/services/ai.service.js:17) expects several files marked by `// File:` comments.
  As written, a directory falls through to `undefined`, and `fetchGithubCode` throws a TypeError on `result.type`.
- `.replace('.git', '')` (BackEnd/src/services/github.service.js:10) is evidently meant for clone URLs ending in `.git`. It deletes the first `.git` anywhere in the repository segment.

Both are logged under "## Findings". Each has a corrected version beside it.

## Model

| member | source | states |
|---|---|---|
| JsString.Trim | BackEnd/src/controllers/ai.controller.js:12 | definition of `s.trim()`: drop the leading, then the trailing, WhiteSpace and LineTerminator characters; characterised by TrimStart, TrimEnd and TrimEmptyIffBlank |
| JsString.TrimStart | BackEnd/src/controllers/ai.controller.js:12 | what is left is a suffix of the input, everything dropped is trimmable, and it is empty or starts with a character `trim` keeps |
| JsString.TrimEnd | BackEnd/src/controllers/ai.controller.js:12 | what is left is a prefix of the input, everything dropped is trimmable, and it is empty or ends with a character `trim` keeps |
| JsString.TrimEmptyIffBlank | BackEnd/src/controllers/ai.controller.js:12 | `s.trim()` is empty exactly when every character of `s` is a WhiteSpace or LineTerminator code point |
| JsString.RemoveFirst | BackEnd/src/services/github.service.js:10 | `replace` with a string pattern: with no occurrence the string is unchanged; otherwise the result is one pattern shorter, and re-inserting the pattern at its first occurrence gives the input back |
| JsString.IndexOf | BackEnd/src/services/github.service.js:10 | the index found holds an occurrence, and no earlier index at or after `from` does; None means no index has one |
| GithubUrl.ParseGithubUrl | BackEnd/src/services/github.service.js:2-18 | definition as written: null without a match; otherwise the owner, the repository segment with its first `.git` deleted, and group 3 or `''` as the path; characterised by ParseNullIff and ParseAtLeftmostMatch |
| GithubUrl.Match | BackEnd/src/services/github.service.js:4-5 | definition of `url.match(regex)`: the captures at the first start position whose attempt succeeds; characterised by FirstMatch and MatchAtLeftmost |
| GithubUrl.CapturesAt | BackEnd/src/services/github.service.js:4 | definition of one match attempt: host, greedy owner run, `/`, greedy repository run, then the optional group; characterised by CapturesAtIffPattern and ParsedSegmentsAreMaximal |
| GithubUrl.PathAfter | BackEnd/src/services/github.service.js:4 | definition of group 3 after the repository segment; characterised by PathAfterIffSuffix and PathIsRestOfLine |
| GithubUrl.SegmentEnd | BackEnd/src/services/github.service.js:4 | the greedy `[^\/]+` run ends at the first `/` or at the end of the string, with no `/` inside |
| GithubUrl.LineEnd | BackEnd/src/services/github.service.js:4 | the greedy `.+` run ends at the first line terminator or at the end, with no line terminator inside |
| GithubUrl.FirstMatch | BackEnd/src/services/github.service.js:4-5 | `match` picks the leftmost start position whose attempt succeeds; every earlier attempt fails, and None means every attempt fails |
| GithubUrl.CapturesAtIffPattern | BackEnd/src/services/github.service.js:4 | an attempt at `i` succeeds iff `github.com/` stands at `i`, followed by a non-empty slash-free owner, a `/` and a character that is not `/` |
| GithubUrl.PathAfterIffSuffix | BackEnd/src/services/github.service.js:4 | group 3 takes part iff `/blob/` or `/tree/`, a non-empty slash-free ref, a `/` and a non-line-terminator follow the repository segment |
| GithubUrl.PathIsRestOfLine | BackEnd/src/services/github.service.js:4 | when it takes part, group 3 is everything after the ref's `/` up to the first line terminator or the end |
| GithubUrl.ParseNullIff | BackEnd/src/services/github.service.js:4-14 | `parseGithubUrl` returns null (it does not throw) exactly when the pattern matches from no position |
| GithubUrl.ParsedSegmentsAreMaximal | BackEnd/src/services/github.service.js:4-10 | a successful attempt captures a non-empty slash-free owner right after `github.com/`, closed by `/`, and a non-empty slash-free repository segment closed by `/` or the end: both are maximal runs |
| GithubUrl.ParseAtLeftmostMatch | BackEnd/src/services/github.service.js:4-12 | at the leftmost matching position the result is that owner, that segment with its first `.git` deleted, and group 3 or `''` as the path |
| GithubUrl.MatchAtLeftmost | BackEnd/src/services/github.service.js:4-5 | `url.match` returns the captures of the leftmost position where the pattern matches |
| GithubUrl.FirstMatchIsLeftmostPattern | BackEnd/src/services/github.service.js:4-5 | the search settles on the leftmost position where the pattern can match |
| GithubUrl.StripGitSuffix | BackEnd/src/services/github.service.js:10 | corrected rule: the result is the name, or the name with a trailing `.git` removed |
| GithubUrl.ParseGithubUrlFixed | BackEnd/src/services/github.service.js:2-18 | definition of the corrected parse: the same match, with the suffix rule for the repository; characterised by FixedParseAgrees and PagesRepositoryIsMangled |
| GithubUrl.StripGitSuffixInverse | BackEnd/src/services/github.service.js:10 | corrected rule: stripping undoes appending `.git` and leaves a name without that suffix unchanged, even when `.git` occurs inside it |
| GithubUrl.FixedParseAgrees | BackEnd/src/services/github.service.js:8-14 | the corrected parse fails exactly when the original does, and agrees on owner and path; it agrees on the repository too when the segment has no `.git`, or when its first `.git` is its suffix |
| GithubUrl.OnlySuffixDotGitAgrees | BackEnd/src/services/github.service.js:10 | when the first `.git` of a segment is its suffix, `replace` and the suffix rule both delete just that suffix |
| GithubUrl.FirstDotGitAfterDotFreePrefix | BackEnd/src/services/github.service.js:10 | in `pre + ".git" + post` with no `.` in `pre`, the first `.git` is the one after `pre`, and `replace` gives `pre + post` |
| GithubUrl.StripKeepsOtherEndings | BackEnd/src/services/github.service.js:10 | corrected rule: a name not ending in `t` is left as it is |
| GithubUrl.NoDotGitUntouched | BackEnd/src/services/github.service.js:10 | a segment without `.git` comes out unchanged under both rules |
| GithubUrl.FirstDotGitOfPagesName | BackEnd/src/services/github.service.js:10 | `user.github.io` becomes `userhub.io` under `replace`, and stays as it is under the suffix rule |
| GithubUrl.PagesRepositoryIsMangled | BackEnd/src/services/github.service.js:2-18 | `parseGithubUrl("https://github.com/user/user.github.io")` gives repository `userhub.io`; the corrected parse gives `user.github.io` |
| GithubService.ApiUrl | BackEnd/src/services/github.service.js:23 | definition of the contents API URL template; characterised by FirstRequestIsContentsApi |
| GithubService.CatchMessage | BackEnd/src/services/github.service.js:64-72 | definition of the message thrown from the catch block; characterised by CatchMessageClassifies |
| GithubService.CatchMessageClassifies | BackEnd/src/services/github.service.js:64-72 | the not-found text exactly for a 404 response, the rate-limit text exactly for a 403 response, otherwise (with or without a response) `Failed to fetch from GitHub: ` followed by the original message |
| GithubService.FileEntries | BackEnd/src/services/github.service.js:42-43 | the entries kept are at most the listing, and all of type `file` |
| GithubService.FileEntriesAreTheFileItems | BackEnd/src/services/github.service.js:42-43 | the kept entries are exactly the `file` entries of the listing: each comes from the listing, and no `file` entry is dropped |
| GithubService.Walked | BackEnd/src/services/github.service.js:40-57 | definition of the state the `for…of` loop ends in; characterised by WalkKeepsFileEntries and WalkStopsAtFirstRejection, and implemented by WalkListing |
| GithubService.WalkListing | BackEnd/src/services/github.service.js:40-57 | the `for…of` loop pushes, requests and stops exactly as `Walked` states |
| GithubService.WalkKeepsFileEntries | BackEnd/src/services/github.service.js:40-62 | with no rejection, the walk requests exactly the `file` entries' URLs in listing order, and holds one file per `file` entry, in order, with the entry's name and path and the decoded response content; other entries are skipped, not recursed into |
| GithubService.WalkStopsAtFirstRejection | BackEnd/src/services/github.service.js:44-72 | the first rejected file request ends the walk with that error, having requested the file URLs up to and including it and none after |
| GithubService.Content | BackEnd/src/services/github.service.js:21-74 | definition of `fetchFileContent` as written: file object, `dir`-tagged value, fall-through to `undefined`, mapped errors; implemented by FetchFileContent |
| GithubService.FetchFileContent | BackEnd/src/services/github.service.js:21-74 | one request for the contents API URL; a `file` object gives the decoded content with its name and path; a `dir`-tagged value is walked (a non-iterable one fails as a caught TypeError); anything else gives `undefined`; every caught error leaves as its mapped message — all as `Content` states |
| GithubService.FirstRequestIsContentsApi | BackEnd/src/services/github.service.js:23-24 | a URL that parses leads to at least one request, the first for `https://api.github.com/repos/<owner>/<repo>/contents/<path>` |
| GithubService.Flattened | BackEnd/src/services/github.service.js:90-98 | definition of the flattened text; characterised by FlattenedIsJoin and FlattenedLength, and implemented by Flatten |
| GithubService.Flatten | BackEnd/src/services/github.service.js:90-98 | the `forEach` accumulates exactly the text `Flattened` describes |
| GithubService.FlattenedIsJoin | BackEnd/src/services/github.service.js:90-98 | the flattened text is the sections `// File: <path>\n<content>`, in list order, joined by the separator: `""` for no files, no separator after the last |
| GithubService.FlattenedLength | BackEnd/src/services/github.service.js:90-98 | N files flatten to their sections plus N − 1 separators' worth of text |
| GithubService.JoinSnoc | BackEnd/src/services/github.service.js:94-96 | one more part adds one separator and that part at the end |
| GithubService.Shaped | BackEnd/src/services/github.service.js:84-102 | definition of what `fetchGithubCode` makes of `fetchFileContent`'s result: content, flattened files, the `result.type` TypeError for `undefined`, or the error rethrown |
| GithubService.CodeFromUrl | BackEnd/src/services/github.service.js:77-103 | definition of `fetchGithubCode` as written; characterised by InvalidUrlFetchesNothing, FirstRequestIsContentsApi, FileResponseGivesContent, RejectedRequestGivesMappedMessage, DirValueIsFlattened and ListingFallsThrough, and implemented by FetchGithubCode |
| GithubService.FetchGithubCode | BackEnd/src/services/github.service.js:77-103 | parse, fetch and shape exactly as `CodeFromUrl` states: invalid-URL error before any request, file content, flattened directory, TypeError text for `undefined`, caught errors rethrown unchanged |
| GithubService.InvalidUrlFetchesNothing | BackEnd/src/services/github.service.js:78-82 | a URL that does not parse throws the invalid-URL message and issues no request |
| GithubService.FileResponseGivesContent | BackEnd/src/services/github.service.js:31-38 | a `file` response yields exactly its decoded content, after that single request |
| GithubService.RejectedRequestGivesMappedMessage | BackEnd/src/services/github.service.js:64-72 | a rejected contents request fails with the mapped message, after that single request |
| GithubService.DirValueIsFlattened | BackEnd/src/services/github.service.js:39-62 | a `dir`-tagged iterable value whose file requests all succeed flattens the walk's files, after the contents request and each file URL in order |
| GithubService.ListingFallsThrough | BackEnd/src/services/github.service.js:31-63 | a GitHub directory listing (an array without `type`) fails with the TypeError text of reading `result.type` after the single contents request |
| GithubService.ContentFixed | BackEnd/src/services/github.service.js:21-74 | definition of the corrected fetch: an array response is a listing; characterised by FixedListingIsFlattened and FixedAgreesOnFiles |
| GithubService.CodeFromUrlFixed | BackEnd/src/services/github.service.js:77-103 | definition of `fetchGithubCode` over the corrected parse and fetch; characterised by FixedListingIsFlattened |
| GithubService.FixedListingIsFlattened | BackEnd/src/services/github.service.js:39-62 | corrected fetch: a listing whose file requests all succeed gives the join of one section per `file` entry, in listing order |
| GithubService.FixedAgreesOnFiles | BackEnd/src/services/github.service.js:31-38 | the correction leaves a `file` object's result unchanged |
| AiController.NonBlank | BackEnd/src/controllers/ai.controller.js:12 | definition of `v && v.trim()` being truthy; characterised by NonBlankIsTruthyTrim |
| AiController.ReviewStep | BackEnd/src/controllers/ai.controller.js:24-39 | definition of validation and review of the settled text; characterised by BlankTextIsRequired and GeneratorCalledOnce |
| AiController.Handle | BackEnd/src/controllers/ai.controller.js:5-40 | definition of `getReview` as a decision; characterised by the lemmas below and implemented by GetReview |
| AiController.GetReview | BackEnd/src/controllers/ai.controller.js:5-40 | the method with its early returns sends the response, and makes the calls, that `Handle` states |
| AiController.NonBlankIsTruthyTrim | BackEnd/src/controllers/ai.controller.js:12-25 | `v && v.trim()` is truthy exactly when `v` is present, non-empty, and `trim` leaves something |
| AiController.NoUrlNoFetch | BackEnd/src/controllers/ai.controller.js:9-12 | with an absent, empty or whitespace-only URL the fetcher is never called, and a non-blank `code` is reviewed by a single generator call |
| AiController.FetchFailureIs400 | BackEnd/src/controllers/ai.controller.js:13-21 | a failed fetch answers 400 `Failed to fetch code from GitHub` with the fetch error's message; the generator is not called |
| AiController.FetchedTextReplacesCode | BackEnd/src/controllers/ai.controller.js:14-15 | after a successful fetch the outcome is that of a request holding only the fetched text, whatever `code` was |
| AiController.BlankTextIsRequired | BackEnd/src/controllers/ai.controller.js:25-27 | an absent or blank text to review, pasted or fetched, answers 400 `Code or GitHub URL is required` without calling the generator |
| AiController.GeneratorCalledOnce | BackEnd/src/controllers/ai.controller.js:30-39 | a non-blank text is reviewed by exactly one generator call, the last call, with that text and the language; its text is sent verbatim, its failure answers 500 `Internal server error` with its message |
| AiController.OneOfFourResponses | BackEnd/src/controllers/ai.controller.js:12-39 | every request gets exactly one of the four responses, and the fetcher is called at most once, before the generator, which is called at most once |
| AiController.MissingRepositoryIs400 | BackEnd/src/controllers/ai.controller.js:13-21 | with the GitHub service as fetcher, a 404 from the contents API answers 400 with the not-found message, never 500 |
| AiController.DirectoryUrlIs400 | BackEnd/src/controllers/ai.controller.js:13-21 | as written, with the GitHub service as fetcher, a directory listing answers 400 with the TypeError text of reading `result.type` |
| AiController.FixedDirectoryIsReviewed | BackEnd/src/controllers/ai.controller.js:12-31 | with the corrected fetcher, a directory whose file requests all succeed is reviewed as the join of its files' sections, exactly as if that text had been pasted as `code` |
| AiController.InvalidUrlIs400 | BackEnd/src/controllers/ai.controller.js:13-21 | with the GitHub service as fetcher, a URL that does not parse answers 400 with the invalid-URL message |

## Left out

- HTTP: axios, its request headers, the network and the GitHub contents API itself. Each request is a lookup in the parameter `get`. The same URL always gives the same outcome.
- Base64 and UTF-8 decoding (`Buffer.from(..., 'base64').toString('utf-8')`): an opaque parameter `decode`. No round-trip is claimed.
- async/await: each awaited step is a plain sequential step.
- Fields of unexpected JavaScript type are not modelled. Examples are a non-string `code` or `githubUrl` reaching `.trim()`, a missing `content` on a file response, or a missing `req.body`. Request fields are strings or absent.
- The `catch` of `parseGithubUrl` (BackEnd/src/services/github.service.js:15-17) is not modelled. It only runs when `url.match` throws, which it does not for a string.
- Strings are sequences of Dafny characters, i.e. Unicode scalar values, not UTF-16 code units.
- The TypeError texts `response.data is not iterable` and `Cannot read properties of undefined (reading 'type')` are V8's. Another engine words them differently.
- The review generator (BackEnd/src/services/ai.service.js) is the parameter `generate`. Its prompt template (BackEnd/src/services/ai.service.js:21-23) and the model SDK are not part of this model.
- The `console.error` log at BackEnd/src/controllers/ai.controller.js:34 is not modelled.
- The Express wiring (BackEnd/server.js, BackEnd/src/app.js) is not part of this model.
- The React front end (Frontend/src/App.jsx) is not part of this model. Its URL check reuses the same regular expression.

## Findings

| source | as written | input that shows it | evidently intended | confidence | as-written member | corrected member |
|---|---|---|---|---|---|---|
| BackEnd/src/services/github.service.js:39-42 | a directory is recognised by `response.data.type === 'dir'` and then iterated; GitHub sends a directory listing as an array, which has no `type`, so it falls through to `undefined` and `fetchGithubCode` fails on `result.type` | `https://github.com/owner/repo` (a repository root is a directory) | an array response is a listing and is flattened | medium, not executed | GithubService.ListingFallsThrough | GithubService.FixedListingIsFlattened |
| BackEnd/src/services/github.service.js:10 | `.replace('.git', '')` deletes the first `.git` anywhere in the repository segment | `https://github.com/user/user.github.io` gives repository `userhub.io` | strip a trailing `.git` only | high, not executed | GithubUrl.PagesRepositoryIsMangled | GithubUrl.StripGitSuffixInverse |
