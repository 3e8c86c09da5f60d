/** `fetchFileContent` and `fetchGithubCode`: one request to the GitHub
    contents API, a walk over a directory listing that fetches every `file`
    entry in turn, the mapping of failures to messages, and the flattening
    of a directory's files into one text.

    The HTTP layer is a parameter `get` from URL to outcome, and Node's
    base64/UTF-8 decoding a parameter `decode`. Every operation also returns
    the URLs it requested, in order, so that what is fetched and what is not
    can be stated.
 */
module GithubService {
  import opened Base
  import opened GithubUrl

  /** A thrown error: `status` is `error.response.status`, None when the error
      has no `response` (a network failure, a TypeError). */
  datatype Thrown = Thrown(status: Option<int>, message: string)

  /** An element of a directory listing (`item.type`, `item.name`, ...). */
  datatype Entry = Entry(kind: string, name: string, path: string, url: string)

  /** `response.data`: the value of its `type`, `content`, `name` and `path`
      properties, and its elements when it is iterable. GitHub sends a file as
      an object (`kind` "file", `items` None) and a directory as an array
      (`kind` None, `items` the entries). */
  datatype Data = Data(kind: Option<string>, content: string, name: string, path: string,
                       items: Option<seq<Entry>>)

  /** What awaiting `axios.get(url)` gives: a response, or a thrown error. */
  datatype HttpOutcome = Response(data: Data) | Rejected(error: Thrown)

  datatype FetchedFile = FetchedFile(name: string, content: string, path: string)

  /** The value `fetchFileContent` returns; `Undefined` when it falls off the
      end of its `try` block. */
  datatype Fetched =
    | FileResult(content: string, name: string, path: string)
    | Directory(files: seq<FetchedFile>)
    | Undefined

  /** The outcome of an operation together with the URLs it requested. */
  datatype Run<+T> = Run(outcome: Result<T>, requests: seq<string>)

  const NotFoundMessage: string := "Repository or file not found. " + "Make sure the repository is public."
  const RateLimitMessage: string := "GitHub API rate limit exceeded. " + "Please try again later."
  const FetchFailedPrefix: string := "Failed to fetch from GitHub: "
  const InvalidUrlMessage: string :=
    "Invalid GitHub URL. Please use format: https://github.com/owner/repo or https://github.com/owner/repo/blob/branch/path"
  /** V8's TypeError text for `for (const item of response.data)` over a
      value that is not iterable. */
  const NotIterableMessage: string := "response.data is not iterable"
  /** V8's TypeError text for `result.type` when `result` is undefined. */
  const UndefinedTypeMessage: string := "Cannot read properties of undefined (reading 'type')"

  const FileMarker: string := "// File: "
  const Separator: string := "\n\n// ========================\n\n"

  /** The contents API URL for `owner/repo/path`. */
  function ApiUrl(owner: string, repo: string, path: string): string {
    "https://api.github.com/repos/" + owner + "/" + repo + "/contents/" + path
  }

  // ---------------------------------------------------------------------
  // The catch block of fetchFileContent

  /** The message of the error `fetchFileContent` throws for a caught one. */
  function CatchMessage(e: Thrown): string {
    if e.status == Some(404) then NotFoundMessage
    else if e.status == Some(403) then RateLimitMessage
    else FetchFailedPrefix + e.message
  }

  /** The three messages tell the cases apart: the not-found text exactly for
      a 404 response, the rate-limit text exactly for a 403 response, and
      otherwise, with or without a response, the prefixed original message. */
  lemma CatchMessageClassifies(e: Thrown)
    ensures CatchMessage(e) == NotFoundMessage <==> e.status == Some(404)
    ensures CatchMessage(e) == RateLimitMessage <==> e.status == Some(403)
    ensures e.status != Some(404) && e.status != Some(403) <==>
            |CatchMessage(e)| >= |FetchFailedPrefix| && CatchMessage(e)[..|FetchFailedPrefix|] == FetchFailedPrefix
    ensures e.status != Some(404) && e.status != Some(403) ==>
            CatchMessage(e)[|FetchFailedPrefix|..] == e.message
  {
    var m := CatchMessage(e);
    if e.status == Some(404) || e.status == Some(403) {
      assert m[..|FetchFailedPrefix|][0] == m[0];
    } else {
      assert m == FetchFailedPrefix + e.message;
      assert m[0] == FetchFailedPrefix[0];
    }
  }

  // ---------------------------------------------------------------------
  // The directory walk

  /** The state the `for…of` loop over a listing ends in: the files pushed,
      the error that stopped it, and the URLs requested. */
  datatype Walk = Walk(files: seq<FetchedFile>, failure: Option<Thrown>, requests: seq<string>)

  /** The loop over `items`, stated as a function: each `file` entry is
      fetched from its `url` and pushed with its own name and path and the
      decoded content; other entries are skipped; the first rejected request
      ends the walk. */
  function Walked(items: seq<Entry>, get: string -> HttpOutcome, decode: string -> string): Walk
    decreases |items|
  {
    if items == [] then Walk([], None, [])
    else if items[0].kind != "file" then Walked(items[1..], get, decode)
    else
      match get(items[0].url)
      case Rejected(e) => Walk([], Some(e), [items[0].url])
      case Response(data) =>
        var rest := Walked(items[1..], get, decode);
        Walk([FetchedFile(items[0].name, decode(data.content), items[0].path)] + rest.files,
             rest.failure, [items[0].url] + rest.requests)
  }

  /** The entries of type `file`, in listing order. */
  function FileEntries(items: seq<Entry>): (r: seq<Entry>)
    ensures |r| <= |items|
    ensures forall k :: 0 <= k < |r| ==> r[k].kind == "file"
    decreases |items|
  {
    if items == [] then []
    else if items[0].kind == "file" then [items[0]] + FileEntries(items[1..])
    else FileEntries(items[1..])
  }

  /** The kept entries are exactly the `file` entries of the listing: each
      comes from it, and none of its `file` entries is dropped. */
  lemma {:induction false} FileEntriesAreTheFileItems(items: seq<Entry>)
    ensures forall e :: e in FileEntries(items) ==> e in items
    ensures forall k :: 0 <= k < |items| && items[k].kind == "file" ==> items[k] in FileEntries(items)
    decreases |items|
  {
    if items != [] {
      FileEntriesAreTheFileItems(items[1..]);
      assert forall k :: 1 <= k < |items| ==> items[k] == items[1..][k - 1];
    }
  }

  /** The URLs of `entries`, in order. */
  function Urls(entries: seq<Entry>): (r: seq<string>)
    ensures |r| == |entries| && forall k :: 0 <= k < |r| ==> r[k] == entries[k].url
  {
    seq(|entries|, k requires 0 <= k < |entries| => entries[k].url)
  }

  /** When every `file` entry is fetched without error, the walk ends without
      failure, has requested exactly their URLs in listing order, and holds
      one file per `file` entry, in listing order, with that entry's name and
      path and the decoded content of its response. */
  lemma WalkKeepsFileEntries(items: seq<Entry>, get: string -> HttpOutcome, decode: string -> string)
    requires forall k :: 0 <= k < |FileEntries(items)| ==> get(FileEntries(items)[k].url).Response?
    ensures var w := Walked(items, get, decode); var fe := FileEntries(items);
            && w.failure == None && w.requests == Urls(fe) && |w.files| == |fe|
            && forall k :: 0 <= k < |fe| ==>
                 w.files[k] == FetchedFile(fe[k].name, decode(get(fe[k].url).data.content), fe[k].path)
  {
    WalkRequestsFileUrls(items, get, decode);
    WalkFilesMatchEntries(items, get, decode);
  }

  /** Without a rejection, the walk requests the `file` URLs in order. */
  lemma {:induction false} WalkRequestsFileUrls(items: seq<Entry>, get: string -> HttpOutcome, decode: string -> string)
    requires forall k :: 0 <= k < |FileEntries(items)| ==> get(FileEntries(items)[k].url).Response?
    ensures Walked(items, get, decode).failure == None
    ensures Walked(items, get, decode).requests == Urls(FileEntries(items))
    decreases |items|
  {
    if items != [] {
      var fe := FileEntries(items);
      var fe' := FileEntries(items[1..]);
      if items[0].kind == "file" {
        assert fe == [items[0]] + fe';
        assert get(fe[0].url).Response?;
        forall k | 0 <= k < |fe'| ensures get(fe'[k].url).Response? {
          assert fe'[k] == fe[k + 1];
        }
        WalkRequestsFileUrls(items[1..], get, decode);
        assert Urls(fe) == [items[0].url] + Urls(fe');
      } else {
        assert fe == fe';
        WalkRequestsFileUrls(items[1..], get, decode);
      }
    }
  }

  /** Without a rejection, the walk holds one file per `file` entry. */
  lemma {:induction false} WalkFilesMatchEntries(items: seq<Entry>, get: string -> HttpOutcome, decode: string -> string)
    requires forall k :: 0 <= k < |FileEntries(items)| ==> get(FileEntries(items)[k].url).Response?
    ensures var w := Walked(items, get, decode); var fe := FileEntries(items);
            && |w.files| == |fe|
            && forall k :: 0 <= k < |fe| ==>
                 w.files[k] == FetchedFile(fe[k].name, decode(get(fe[k].url).data.content), fe[k].path)
    decreases |items|
  {
    if items != [] {
      var fe := FileEntries(items);
      var fe' := FileEntries(items[1..]);
      if items[0].kind == "file" {
        assert fe == [items[0]] + fe';
        assert get(fe[0].url).Response?;
        forall k | 0 <= k < |fe'| ensures get(fe'[k].url).Response? {
          assert fe'[k] == fe[k + 1];
        }
        WalkFilesMatchEntries(items[1..], get, decode);
        var w' := Walked(items[1..], get, decode);
        var f := FetchedFile(items[0].name, decode(get(items[0].url).data.content), items[0].path);
        assert Walked(items, get, decode).files == [f] + w'.files;
      } else {
        assert fe == fe';
        WalkFilesMatchEntries(items[1..], get, decode);
      }
    }
  }

  /** When the request for the `file` entry at index `k` of the file entries
      is rejected and all before it succeed, the walk fails with that error,
      having requested the URLs of the file entries up to and including it
      and nothing after. */
  lemma {:induction false} WalkStopsAtFirstRejection(items: seq<Entry>, get: string -> HttpOutcome,
                                                     decode: string -> string, k: nat)
    requires k < |FileEntries(items)| && get(FileEntries(items)[k].url).Rejected?
    requires forall j :: 0 <= j < k ==> get(FileEntries(items)[j].url).Response?
    ensures Walked(items, get, decode).failure == Some(get(FileEntries(items)[k].url).error)
    ensures Walked(items, get, decode).requests == Urls(FileEntries(items)[..k + 1])
    decreases |items|
  {
    var fe := FileEntries(items);
    var fe' := FileEntries(items[1..]);
    if items[0].kind == "file" {
      assert fe == [items[0]] + fe';
      if k > 0 {
        assert get(fe[0].url).Response?;
        forall j | 0 <= j < k - 1 ensures get(fe'[j].url).Response? {
          assert fe'[j] == fe[j + 1];
        }
        assert fe'[k - 1] == fe[k];
        WalkStopsAtFirstRejection(items[1..], get, decode, k - 1);
        assert fe[..k + 1] == [items[0]] + fe'[..k];
      }
    } else {
      assert fe == fe';
      WalkStopsAtFirstRejection(items[1..], get, decode, k);
    }
  }

  // ---------------------------------------------------------------------
  // fetchFileContent

  /** What `fetchFileContent` does with a listing it iterates. */
  function ListingRun(api: string, items: seq<Entry>, get: string -> HttpOutcome,
                      decode: string -> string): Run<Fetched>
  {
    var w := Walked(items, get, decode);
    match w.failure
    case Some(e) => Run(Err(CatchMessage(e)), [api] + w.requests)
    case None => Run(Ok(Directory(w.files)), [api] + w.requests)
  }

  /** `fetchFileContent(owner, repo, path)` as written: a `file` object gives
      the decoded file; a value whose `type` is `dir` is iterated; anything
      else falls through to `undefined`. */
  function Content(owner: string, repo: string, path: string,
                   get: string -> HttpOutcome, decode: string -> string): Run<Fetched>
  {
    var api := ApiUrl(owner, repo, path);
    match get(api)
    case Rejected(e) => Run(Err(CatchMessage(e)), [api])
    case Response(data) =>
      if data.kind == Some("file") then
        Run(Ok(FileResult(decode(data.content), data.name, data.path)), [api])
      else if data.kind == Some("dir") then
        match data.items
        case None => Run(Err(CatchMessage(Thrown(None, NotIterableMessage))), [api])
        case Some(items) => ListingRun(api, items, get, decode)
      else Run(Ok(Undefined), [api])
  }

  /** The `for…of` loop of `fetchFileContent`, step by step: one request
      per `file` entry in listing order, each pushing a file, and the first
      rejected request ending the loop with its error. */
  method WalkListing(items: seq<Entry>, get: string -> HttpOutcome, decode: string -> string)
    returns (files: seq<FetchedFile>, failure: Option<Thrown>, requests: seq<string>)
    ensures Walk(files, failure, requests) == Walked(items, get, decode)
  {
    files, requests := [], [];
    var i := 0;
    assert items[0..] == items;
    while i < |items|
      invariant 0 <= i <= |items|
      invariant var rest := Walked(items[i..], get, decode);
                Walked(items, get, decode) == Walk(files + rest.files, rest.failure, requests + rest.requests)
    {
      var item := items[i];
      assert items[i..][1..] == items[i + 1..];
      if item.kind == "file" {
        requests := requests + [item.url];
        var fileResponse := get(item.url);
        if fileResponse.Rejected? {
          return files, Some(fileResponse.error), requests;
        }
        files := files + [FetchedFile(item.name, decode(fileResponse.data.content), item.path)];
      }
      i := i + 1;
    }
    assert items[i..] == [];
    failure := None;
  }

  /** `fetchFileContent`, step by step: one request for the contents API URL,
      then, for a `dir` value, the walk over its listing; every caught error
      leaves as its mapped message. */
  method FetchFileContent(owner: string, repo: string, path: string,
                          get: string -> HttpOutcome, decode: string -> string)
    returns (outcome: Result<Fetched>, requests: seq<string>)
    ensures Run(outcome, requests) == Content(owner, repo, path, get, decode)
  {
    var api := ApiUrl(owner, repo, path);
    requests := [api];
    var response := get(api);
    if response.Rejected? {
      return Err(CatchMessage(response.error)), requests;
    }
    var data := response.data;
    if data.kind == Some("file") {
      outcome := Ok(FileResult(decode(data.content), data.name, data.path));
    } else if data.kind == Some("dir") {
      if data.items.None? {
        return Err(CatchMessage(Thrown(None, NotIterableMessage))), requests;
      }
      var files, failure, fileRequests := WalkListing(data.items.value, get, decode);
      requests := requests + fileRequests;
      if failure.Some? {
        return Err(CatchMessage(failure.value)), requests;
      }
      outcome := Ok(Directory(files));
    } else {
      outcome := Ok(Undefined);
    }
  }

  // ---------------------------------------------------------------------
  // Flattening

  /** One file's part of the flattened text: its marker line, then its content. */
  function Section(f: FetchedFile): string {
    FileMarker + f.path + "\n" + f.content
  }

  /** The text `fetchGithubCode` builds from `files`, one file at a time. */
  function Flattened(files: seq<FetchedFile>): string
    decreases |files|
  {
    if |files| == 0 then ""
    else if |files| == 1 then Section(files[0])
    else Flattened(files[..|files| - 1]) + Separator + Section(files[|files| - 1])
  }

  /** `parts.join(sep)`: an independent statement of "a separator between
      consecutive parts only". */
  function Join(parts: seq<string>, sep: string): string
    decreases |parts|
  {
    if |parts| == 0 then ""
    else if |parts| == 1 then parts[0]
    else parts[0] + sep + Join(parts[1..], sep)
  }

  function Sections(files: seq<FetchedFile>): (r: seq<string>)
    ensures |r| == |files| && forall k :: 0 <= k < |r| ==> r[k] == Section(files[k])
  {
    seq(|files|, k requires 0 <= k < |files| => Section(files[k]))
  }

  /** Joining one more part appends the separator and that part. */
  lemma {:induction false} JoinSnoc(parts: seq<string>, sep: string, x: string)
    requires parts != []
    ensures Join(parts + [x], sep) == Join(parts, sep) + sep + x
    decreases |parts|
  {
    if |parts| > 1 {
      assert (parts + [x])[1..] == parts[1..] + [x];
      JoinSnoc(parts[1..], sep, x);
    }
  }

  /** The flattened text is the files' sections, in order, joined by the
      separator: nothing before the first, nothing after the last, exactly
      one separator between neighbours, and "" for no files. */
  lemma {:induction false} FlattenedIsJoin(files: seq<FetchedFile>)
    ensures Flattened(files) == Join(Sections(files), Separator)
    decreases |files|
  {
    if |files| > 1 {
      var n := |files|;
      FlattenedIsJoin(files[..n - 1]);
      assert Sections(files) == Sections(files[..n - 1]) + [Section(files[n - 1])];
      JoinSnoc(Sections(files[..n - 1]), Separator, Section(files[n - 1]));
    }
  }

  /** The total length of the sections of `files`. */
  function SectionsLength(files: seq<FetchedFile>): nat
    decreases |files|
  {
    if files == [] then 0 else |Section(files[0])| + SectionsLength(files[1..])
  }

  lemma {:induction false} SectionsLengthSnoc(files: seq<FetchedFile>, f: FetchedFile)
    ensures SectionsLength(files + [f]) == SectionsLength(files) + |Section(f)|
    decreases |files|
  {
    if files != [] {
      assert (files + [f])[1..] == files[1..] + [f];
      SectionsLengthSnoc(files[1..], f);
    }
  }

  /** N files flatten to their sections plus N - 1 separators' worth of text. */
  lemma {:induction false} FlattenedLength(files: seq<FetchedFile>)
    requires files != []
    ensures |Flattened(files)| == SectionsLength(files) + (|files| - 1) * |Separator|
    decreases |files|
  {
    var n := |files|;
    if n == 1 {
      assert files == [] + [files[0]];
      SectionsLengthSnoc([], files[0]);
    } else {
      var init := files[..n - 1];
      FlattenedLength(init);
      assert files == init + [files[n - 1]];
      SectionsLengthSnoc(init, files[n - 1]);
      assert |Flattened(files)| == |Flattened(init)| + |Separator| + |Section(files[n - 1])|;
    }
  }

  // ---------------------------------------------------------------------
  // fetchGithubCode

  /** What `fetchGithubCode` returns for what `fetchFileContent` gave it; a
      thrown error passes through unchanged (it is caught and rethrown). */
  function Shaped(result: Result<Fetched>): Result<string> {
    match result
    case Err(m) => Err(m)
    case Ok(FileResult(content, _, _)) => Ok(content)
    case Ok(Directory(files)) => Ok(Flattened(files))
    case Ok(Undefined) => Err(UndefinedTypeMessage)
  }

  /** `fetchGithubCode(url)` as written. */
  function CodeFromUrl(url: string, get: string -> HttpOutcome, decode: string -> string): Run<string> {
    match ParseGithubUrl(url)
    case None => Run(Err(InvalidUrlMessage), [])
    case Some(r) =>
      var c := Content(r.owner, r.repo, r.path, get, decode);
      Run(Shaped(c.outcome), c.requests)
  }

  /** The `forEach` of `fetchGithubCode` over a directory's files: each
      file's marker line and content, then the separator unless it is the
      last file. */
  method Flatten(files: seq<FetchedFile>) returns (combinedCode: string)
    ensures combinedCode == Flattened(files)
  {
    combinedCode := "";
    for index := 0 to |files|
      invariant combinedCode == if index == 0 then ""
                                else Flattened(files[..index]) + (if index < |files| then Separator else "")
    {
      assert files[..index + 1][..index] == files[..index];
      combinedCode := combinedCode + FileMarker + files[index].path + "\n";
      combinedCode := combinedCode + files[index].content;
      assert combinedCode == (if index == 0 then "" else Flattened(files[..index]) + Separator)
                             + Section(files[index]);
      if index < |files| - 1 {
        combinedCode := combinedCode + Separator;
      }
    }
    assert files[..|files|] == files;
  }

  /** `fetchGithubCode`, step by step: parse, fetch, and for a directory the
      `forEach` that appends each file's marker and content and a separator
      after every file but the last. */
  method FetchGithubCode(url: string, get: string -> HttpOutcome, decode: string -> string)
    returns (outcome: Result<string>, requests: seq<string>)
    ensures Run(outcome, requests) == CodeFromUrl(url, get, decode)
  {
    var parsed := ParseGithubUrl(url);
    if parsed.None? {
      return Err(InvalidUrlMessage), [];
    }
    var result;
    result, requests := FetchFileContent(parsed.value.owner, parsed.value.repo, parsed.value.path, get, decode);
    if result.Err? {
      return Err(result.message), requests;
    }
    match result.value
    case FileResult(content, _, _) =>
      outcome := Ok(content);
    case Directory(files) =>
      var combinedCode := Flatten(files);
      outcome := Ok(combinedCode);
    case Undefined =>
      outcome := Err(UndefinedTypeMessage);
  }

  // ---------------------------------------------------------------------
  // Properties of fetchGithubCode

  /** A URL that does not parse is refused with the invalid-URL message
      before any request is made. */
  lemma InvalidUrlFetchesNothing(url: string, get: string -> HttpOutcome, decode: string -> string)
    requires ParseGithubUrl(url).None?
    ensures CodeFromUrl(url, get, decode) == Run(Err(InvalidUrlMessage), [])
  {
  }

  /** A URL that parses leads to exactly one first request, for the
      contents API URL of the parsed owner, repository and path. */
  lemma FirstRequestIsContentsApi(url: string, get: string -> HttpOutcome, decode: string -> string)
    requires ParseGithubUrl(url).Some?
    ensures var r := ParseGithubUrl(url).value; var run := CodeFromUrl(url, get, decode);
            |run.requests| >= 1 && run.requests[0] == ApiUrl(r.owner, r.repo, r.path)
  {
    var r := ParseGithubUrl(url).value;
    var api := ApiUrl(r.owner, r.repo, r.path);
    var c := Content(r.owner, r.repo, r.path, get, decode);
    assert CodeFromUrl(url, get, decode).requests == c.requests;
    if get(api).Response? && get(api).data.kind == Some("dir") && get(api).data.items.Some? {
      assert c.requests == [api] + Walked(get(api).data.items.value, get, decode).requests;
    } else {
      assert c.requests == [api];
    }
  }

  /** For a `file` response, the result is exactly the decoded content, after
      that single request. */
  lemma FileResponseGivesContent(url: string, get: string -> HttpOutcome, decode: string -> string)
    requires ParseGithubUrl(url).Some?
    requires var r := ParseGithubUrl(url).value; var api := ApiUrl(r.owner, r.repo, r.path);
             get(api).Response? && get(api).data.kind == Some("file")
    ensures var r := ParseGithubUrl(url).value; var api := ApiUrl(r.owner, r.repo, r.path);
            CodeFromUrl(url, get, decode) == Run(Ok(decode(get(api).data.content)), [api])
  {
  }

  /** A rejected contents API request fails with the mapped message after
      that single request: a 404 response gives the not-found message. */
  lemma RejectedRequestGivesMappedMessage(url: string, get: string -> HttpOutcome, decode: string -> string)
    requires ParseGithubUrl(url).Some?
    requires var r := ParseGithubUrl(url).value; get(ApiUrl(r.owner, r.repo, r.path)).Rejected?
    ensures var r := ParseGithubUrl(url).value; var api := ApiUrl(r.owner, r.repo, r.path);
            CodeFromUrl(url, get, decode) == Run(Err(CatchMessage(get(api).error)), [api])
  {
  }

  /** A `dir` value whose `file` entries all respond flattens to the files of
      the walk, having requested the contents API URL and then each file
      entry's URL in listing order. */
  lemma DirValueIsFlattened(url: string, get: string -> HttpOutcome, decode: string -> string)
    requires ParseGithubUrl(url).Some?
    requires var r := ParseGithubUrl(url).value; var api := ApiUrl(r.owner, r.repo, r.path);
             && get(api).Response? && get(api).data.kind == Some("dir") && get(api).data.items.Some?
             && var fe := FileEntries(get(api).data.items.value);
                forall k :: 0 <= k < |fe| ==> get(fe[k].url).Response?
    ensures var r := ParseGithubUrl(url).value; var api := ApiUrl(r.owner, r.repo, r.path);
            var items := get(api).data.items.value;
            CodeFromUrl(url, get, decode)
            == Run(Ok(Flattened(Walked(items, get, decode).files)), [api] + Urls(FileEntries(items)))
  {
    var r := ParseGithubUrl(url).value;
    var api := ApiUrl(r.owner, r.repo, r.path);
    WalkKeepsFileEntries(get(api).data.items.value, get, decode);
  }

  // ---------------------------------------------------------------------
  // Finding: GitHub lists a directory as an array, which has no `type`

  /** A GitHub directory listing, an array of entries without a `type`
      property of its own, falls through to `undefined`; `fetchGithubCode`
      then fails with the TypeError of reading `result.type`, so no
      directory, the repository root included, is ever flattened. */
  lemma ListingFallsThrough(url: string, get: string -> HttpOutcome, decode: string -> string)
    requires ParseGithubUrl(url).Some?
    requires var r := ParseGithubUrl(url).value; var api := ApiUrl(r.owner, r.repo, r.path);
             get(api).Response? && get(api).data.kind.None? && get(api).data.items.Some?
    ensures var r := ParseGithubUrl(url).value; var api := ApiUrl(r.owner, r.repo, r.path);
            CodeFromUrl(url, get, decode) == Run(Err(UndefinedTypeMessage), [api])
  {
  }

  /** `fetchFileContent` as evidently intended: an array is a directory
      listing (`Array.isArray(response.data)`), a `file` object a file. */
  function ContentFixed(owner: string, repo: string, path: string,
                        get: string -> HttpOutcome, decode: string -> string): Run<Fetched>
  {
    var api := ApiUrl(owner, repo, path);
    match get(api)
    case Rejected(e) => Run(Err(CatchMessage(e)), [api])
    case Response(data) =>
      match data.items
      case Some(items) => ListingRun(api, items, get, decode)
      case None =>
        if data.kind == Some("file") then
          Run(Ok(FileResult(decode(data.content), data.name, data.path)), [api])
        else Run(Ok(Undefined), [api])
  }

  /** One file per `file` entry of a listing, in listing order, with the
      entry's name and path and the decoded content of its response. */
  function ListedFiles(items: seq<Entry>, get: string -> HttpOutcome, decode: string -> string): (r: seq<FetchedFile>)
    requires forall k :: 0 <= k < |FileEntries(items)| ==> get(FileEntries(items)[k].url).Response?
    ensures |r| == |FileEntries(items)|
  {
    var fe := FileEntries(items);
    seq(|fe|, k requires 0 <= k < |fe| => FetchedFile(fe[k].name, decode(get(fe[k].url).data.content), fe[k].path))
  }

  /** `fetchGithubCode` over the corrected parse and fetch. */
  function CodeFromUrlFixed(url: string, get: string -> HttpOutcome, decode: string -> string): Run<string> {
    match ParseGithubUrlFixed(url)
    case None => Run(Err(InvalidUrlMessage), [])
    case Some(r) =>
      var c := ContentFixed(r.owner, r.repo, r.path, get, decode);
      Run(Shaped(c.outcome), c.requests)
  }

  /** With the correction, a GitHub directory listing whose `file` entries
      all respond is flattened: the result joins, in listing order, one
      section per `file` entry, made of that entry's path and the decoded
      content of its response, and the requests are the contents API URL
      followed by each file entry's URL. */
  lemma FixedListingIsFlattened(url: string, get: string -> HttpOutcome, decode: string -> string)
    requires ParseGithubUrlFixed(url).Some?
    requires var r := ParseGithubUrlFixed(url).value; var api := ApiUrl(r.owner, r.repo, r.path);
             && get(api).Response? && get(api).data.items.Some?
             && var fe := FileEntries(get(api).data.items.value);
                forall k :: 0 <= k < |fe| ==> get(fe[k].url).Response?
    ensures var r := ParseGithubUrlFixed(url).value; var api := ApiUrl(r.owner, r.repo, r.path);
            var items := get(api).data.items.value;
            CodeFromUrlFixed(url, get, decode)
            == Run(Ok(Join(Sections(ListedFiles(items, get, decode)), Separator)), [api] + Urls(FileEntries(items)))
  {
    var r := ParseGithubUrlFixed(url).value;
    var api := ApiUrl(r.owner, r.repo, r.path);
    var items := get(api).data.items.value;
    var files := ListedFiles(items, get, decode);
    WalkKeepsFileEntries(items, get, decode);
    assert Walked(items, get, decode).files == files;
    FlattenedIsJoin(files);
  }

  /** The correction changes nothing for a file: both versions give the
      decoded content of a GitHub `file` object. */
  lemma FixedAgreesOnFiles(owner: string, repo: string, path: string,
                           get: string -> HttpOutcome, decode: string -> string)
    requires var api := ApiUrl(owner, repo, path);
             get(api).Response? && get(api).data.kind == Some("file") && get(api).data.items.None?
    ensures ContentFixed(owner, repo, path, get, decode) == Content(owner, repo, path, get, decode)
  {
  }
}
