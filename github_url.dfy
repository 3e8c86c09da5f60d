/** `parseGithubUrl`: the unanchored, case-sensitive pattern

      github\.com\/([^\/]+)\/([^\/]+)(?:\/(?:blob|tree)\/[^\/]+\/(.+))?

    matched by hand over a string. The search tries each start position from
    the left; at a start position every `[^\/]+` is greedy and, since the
    character after it must be `/` (or anything, for the repository), a
    shorter run can never succeed where the maximal one failed. So the
    captures are maximal runs, and the optional group, tried first, is
    skipped exactly when it cannot match.
 */
module GithubUrl {
  import opened Base
  import opened JsString

  /** The `{owner, repo, path}` object; `path` is "" for a repository root. */
  datatype GithubRef = GithubRef(owner: string, repo: string, path: string)

  /** The three capture groups of a match; `path` is None when group 3 did
      not take part in the match. */
  datatype Captures = Captures(owner: string, repo: string, path: Option<string>)

  const Host: string := "github.com/"
  const Blob: string := "/blob/"
  const Tree: string := "/tree/"
  const GitSuffix: string := ".git"

  ghost predicate SlashFree(t: string) {
    forall k :: 0 <= k < |t| ==> t[k] != '/'
  }

  ghost predicate NoLineTerminator(t: string) {
    forall k :: 0 <= k < |t| ==> !IsLineTerminator(t[k])
  }

  // ---------------------------------------------------------------------
  // The pattern, stated declaratively

  /** The mandatory part `github\.com\/([^\/]+)\/([^\/]+)` can match from
      index `i`: the host, a non-empty slash-free owner, a `/`, and at least
      one character that is not `/`. */
  ghost predicate PatternAt(s: string, i: nat) {
    && OccursAt(s, Host, i)
    && exists b :: i + |Host| < b < |s| - 1 && s[b] == '/' && s[b + 1] != '/'
                   && SlashFree(s[i + |Host|..b])
  }

  /** The optional group `\/(?:blob|tree)\/[^\/]+\/(.+)` can match from
      index `c`: `/blob/` or `/tree/`, a non-empty slash-free ref, a `/`, and
      at least one character other than a line terminator. */
  ghost predicate SuffixAt(s: string, c: nat) {
    && (OccursAt(s, Blob, c) || OccursAt(s, Tree, c))
    && exists d :: c + |Blob| < d < |s| - 1 && s[d] == '/' && !IsLineTerminator(s[d + 1])
                   && SlashFree(s[c + |Blob|..d])
  }

  // ---------------------------------------------------------------------
  // The matcher

  /** End of the greedy `[^\/]+` run from `i`: the first `/` at or after
      `i`, or the end of the string. */
  function SegmentEnd(s: string, i: nat): (e: nat)
    requires i <= |s|
    ensures i <= e <= |s|
    ensures forall k :: i <= k < e ==> s[k] != '/'
    ensures e == |s| || s[e] == '/'
    decreases |s| - i
  {
    if i == |s| || s[i] == '/' then i else SegmentEnd(s, i + 1)
  }

  /** End of the greedy `.+` run from `i`: the first line terminator at or
      after `i`, or the end of the string. */
  function LineEnd(s: string, i: nat): (e: nat)
    requires i <= |s|
    ensures i <= e <= |s|
    ensures forall k :: i <= k < e ==> !IsLineTerminator(s[k])
    ensures e == |s| || IsLineTerminator(s[e])
    decreases |s| - i
  {
    if i == |s| || IsLineTerminator(s[i]) then i else LineEnd(s, i + 1)
  }

  /** Group 3, when the optional group matches right after the repository
      segment that ends at `c`. */
  function PathAfter(s: string, c: nat): Option<string>
    requires c <= |s|
  {
    if OccursAt(s, Blob, c) || OccursAt(s, Tree, c) then
      var d := SegmentEnd(s, c + |Blob|);
      if d == c + |Blob| || d == |s| then None
      else
        var e := LineEnd(s, d + 1);
        if e == d + 1 then None else Some(s[d + 1..e])
    else None
  }

  /** The match attempt at start position `i`. */
  function CapturesAt(s: string, i: nat): Option<Captures>
    requires i <= |s|
  {
    if !OccursAt(s, Host, i) then None
    else
      var a := i + |Host|;
      var b := SegmentEnd(s, a);
      if b == a || b == |s| then None
      else
        var c := SegmentEnd(s, b + 1);
        if c == b + 1 then None
        else Some(Captures(s[a..b], s[b + 1..c], PathAfter(s, c)))
  }

  /** The leftmost start position at or after `i` where a match attempt
      succeeds. */
  function FirstMatch(s: string, i: nat): (r: Option<nat>)
    requires i <= |s|
    ensures r.Some? ==> i <= r.value <= |s| && CapturesAt(s, r.value).Some?
    ensures r.Some? ==> forall j :: i <= j < r.value ==> CapturesAt(s, j).None?
    ensures r.None? ==> forall j :: i <= j <= |s| ==> CapturesAt(s, j).None?
    decreases |s| - i
  {
    if CapturesAt(s, i).Some? then Some(i)
    else if i == |s| then None
    else FirstMatch(s, i + 1)
  }

  /** `url.match(regex)`: the captures of the leftmost match, or null. */
  function Match(url: string): Option<Captures> {
    match FirstMatch(url, 0)
    case None => None
    case Some(i) => CapturesAt(url, i)
  }

  /** `parseGithubUrl(url)`: owner and repository from the match, with the
      first `.git` anywhere in the repository segment deleted, and group 3
      or "" as the path. */
  function ParseGithubUrl(url: string): Option<GithubRef> {
    match Match(url)
    case None => None
    case Some(m) => Some(GithubRef(m.owner, RemoveFirst(m.repo, GitSuffix), m.path.GetOr("")))
  }

  // ---------------------------------------------------------------------
  // The matcher agrees with the pattern

  /** From `a`, a slash-free stretch closed by `/` or the end is exactly
      the greedy run. */
  lemma SegmentEndUnique(s: string, a: nat, b: nat)
    requires a <= b <= |s|
    requires SlashFree(s[a..b]) && (b == |s| || s[b] == '/')
    ensures SegmentEnd(s, a) == b
  {
  }

  /** From `a`, a stretch without line terminators closed by one or by the
      end is exactly the greedy `.+` run. */
  lemma LineEndUnique(s: string, a: nat, e: nat)
    requires a <= e <= |s|
    requires NoLineTerminator(s[a..e]) && (e == |s| || IsLineTerminator(s[e]))
    ensures LineEnd(s, a) == e
  {
  }

  /** A match attempt at `i` succeeds exactly when the pattern can match
      from `i`. */
  lemma CapturesAtIffPattern(s: string, i: nat)
    requires i <= |s|
    ensures CapturesAt(s, i).Some? <==> PatternAt(s, i)
  {
    if CapturesAt(s, i).Some? {
      CapturesAtGivesPattern(s, i);
    }
    if PatternAt(s, i) {
      PatternGivesCapturesAt(s, i);
    }
  }

  /** A successful attempt is a match of the mandatory part. */
  lemma CapturesAtGivesPattern(s: string, i: nat)
    requires i <= |s| && CapturesAt(s, i).Some?
    ensures PatternAt(s, i)
  {
    var a := i + |Host|;
    var b := SegmentEnd(s, a);
    assert SlashFree(s[a..b]);
    assert s[b + 1] != '/';
  }

  /** A match of the mandatory part makes the attempt succeed. */
  lemma PatternGivesCapturesAt(s: string, i: nat)
    requires i <= |s| && PatternAt(s, i)
    ensures CapturesAt(s, i).Some?
  {
    var a := i + |Host|;
    var b :| a < b < |s| - 1 && s[b] == '/' && s[b + 1] != '/' && SlashFree(s[a..b]);
    SegmentEndUnique(s, a, b);
  }

  /** Group 3 takes part exactly when the optional group can match after the
      repository segment. */
  lemma {:induction false} PathAfterIffSuffix(s: string, c: nat)
    requires c <= |s|
    ensures PathAfter(s, c).Some? <==> SuffixAt(s, c)
  {
    if OccursAt(s, Blob, c) || OccursAt(s, Tree, c) {
      var d := SegmentEnd(s, c + |Blob|);
      if PathAfter(s, c).Some? {
        assert SlashFree(s[c + |Blob|..d]);
        assert !IsLineTerminator(s[d + 1]);
      }
      if SuffixAt(s, c) {
        var d' :| c + |Blob| < d' < |s| - 1 && s[d'] == '/' && !IsLineTerminator(s[d' + 1])
                  && SlashFree(s[c + |Blob|..d']);
        SegmentEndUnique(s, c + |Blob|, d');
      }
    }
  }

  /** When `/blob/` or `/tree/`, a slash-free ref and a `/` follow the
      repository segment, group 3 is everything after that `/` up to the
      first line terminator, provided that is not empty. */
  lemma PathIsRestOfLine(s: string, c: nat, d: nat, e: nat)
    requires c + |Blob| < d && d + 1 < e <= |s|
    requires OccursAt(s, Blob, c) || OccursAt(s, Tree, c)
    requires s[d] == '/' && SlashFree(s[c + |Blob|..d])
    requires NoLineTerminator(s[d + 1..e]) && (e == |s| || IsLineTerminator(s[e]))
    ensures PathAfter(s, c) == Some(s[d + 1..e])
  {
    SegmentEndUnique(s, c + |Blob|, d);
    LineEndUnique(s, d + 1, e);
  }

  /** `parseGithubUrl` returns null exactly when the pattern can match from
      no position of the string. */
  lemma ParseNullIff(url: string)
    ensures ParseGithubUrl(url).None? <==> forall i :: 0 <= i <= |url| ==> !PatternAt(url, i)
  {
    match FirstMatch(url, 0)
    case None =>
      forall i | 0 <= i <= |url| ensures !PatternAt(url, i) {
        CapturesAtIffPattern(url, i);
      }
    case Some(i) =>
      CapturesAtIffPattern(url, i);
  }

  /** At the leftmost position `i` where the pattern can match, with the
      owner the slash-free stretch up to the `/` at `b` and the repository
      segment the slash-free stretch from `b + 1` up to `c` (a `/` or the end),
      the result holds that owner, that segment with its first `.git`
      deleted, and the path group 3 yields there. */
  lemma ParseAtLeftmostMatch(url: string, i: nat, b: nat, c: nat)
    requires i + |Host| < b && b + 1 < c <= |url|
    requires OccursAt(url, Host, i) && forall j :: 0 <= j < i ==> !PatternAt(url, j)
    requires url[b] == '/' && SlashFree(url[i + |Host|..b])
    requires SlashFree(url[b + 1..c]) && (c == |url| || url[c] == '/')
    ensures ParseGithubUrl(url)
            == Some(GithubRef(url[i + |Host|..b], RemoveFirst(url[b + 1..c], GitSuffix),
                              PathAfter(url, c).GetOr("")))
  {
    MatchAtLeftmost(url, i, b, c);
  }

  /** The same, for the captures of `url.match(regex)`. */
  lemma MatchAtLeftmost(url: string, i: nat, b: nat, c: nat)
    requires i + |Host| < b && b + 1 < c <= |url|
    requires OccursAt(url, Host, i) && forall j :: 0 <= j < i ==> !PatternAt(url, j)
    requires url[b] == '/' && SlashFree(url[i + |Host|..b])
    requires SlashFree(url[b + 1..c]) && (c == |url| || url[c] == '/')
    ensures Match(url) == Some(Captures(url[i + |Host|..b], url[b + 1..c], PathAfter(url, c)))
  {
    CapturesAtSegments(url, i, b, c);
    assert url[b + 1..c][0] == url[b + 1];
    assert PatternAt(url, i);
    FirstMatchIsLeftmostPattern(url, i);
  }

  /** The attempt at `i` captures the maximal segments that close at `b` and `c`. */
  lemma CapturesAtSegments(url: string, i: nat, b: nat, c: nat)
    requires i + |Host| < b && b + 1 < c <= |url|
    requires OccursAt(url, Host, i)
    requires url[b] == '/' && SlashFree(url[i + |Host|..b])
    requires SlashFree(url[b + 1..c]) && (c == |url| || url[c] == '/')
    ensures CapturesAt(url, i) == Some(Captures(url[i + |Host|..b], url[b + 1..c], PathAfter(url, c)))
  {
    SegmentEndUnique(url, i + |Host|, b);
    SegmentEndUnique(url, b + 1, c);
  }

  /** The search settles on the leftmost position where the pattern can match. */
  lemma FirstMatchIsLeftmostPattern(url: string, i: nat)
    requires i <= |url| && PatternAt(url, i) && forall j :: 0 <= j < i ==> !PatternAt(url, j)
    ensures FirstMatch(url, 0) == Some(i)
  {
    CapturesAtIffPattern(url, i);
    forall j | 0 <= j < i ensures CapturesAt(url, j).None? {
      CapturesAtIffPattern(url, j);
    }
    FirstMatchFrom(url, 0, i);
  }

  /** The search from `k` stops at the first successful attempt. */
  lemma {:induction false} FirstMatchFrom(url: string, k: nat, i: nat)
    requires k <= i <= |url| && CapturesAt(url, i).Some?
    requires forall j :: k <= j < i ==> CapturesAt(url, j).None?
    ensures FirstMatch(url, k) == Some(i)
    decreases i - k
  {
    if k < i {
      assert CapturesAt(url, k).None?;
      FirstMatchFrom(url, k + 1, i);
    }
  }

  /** A successful attempt at `i` (the leftmost one is what `url.match`
      returns) captures a non-empty slash-free owner closed by `/` and a
      non-empty slash-free repository segment closed by `/` or the end: both
      are maximal runs. */
  lemma ParsedSegmentsAreMaximal(s: string, i: nat)
    requires i <= |s| && CapturesAt(s, i).Some?
    ensures var m := CapturesAt(s, i).value;
            var b := i + |Host| + |m.owner|; var c := b + 1 + |m.repo|;
            && OccursAt(s, Host, i) && m.owner != [] && m.repo != []
            && c <= |s| && s[i + |Host|..b] == m.owner && s[b] == '/'
            && s[b + 1..c] == m.repo && (c == |s| || s[c] == '/')
            && SlashFree(m.owner) && SlashFree(m.repo)
  {
    var a := i + |Host|;
    var b := SegmentEnd(s, a);
    var c := SegmentEnd(s, b + 1);
    var m := CapturesAt(s, i).value;
    assert m.owner == s[a..b] && m.repo == s[b + 1..c];
    assert a + |m.owner| == b && b + 1 + |m.repo| == c;
    assert SlashFree(m.owner) && SlashFree(m.repo);
  }

  // ---------------------------------------------------------------------
  // Finding: `.replace('.git', '')` deletes the first `.git` anywhere

  /** The evidently intended clean-up: a trailing `.git` suffix only. */
  function StripGitSuffix(seg: string): (r: string)
    ensures r == seg || r + GitSuffix == seg
  {
    if |seg| >= |GitSuffix| && seg[|seg| - |GitSuffix|..] == GitSuffix then seg[..|seg| - |GitSuffix|]
    else seg
  }

  /** Stripping undoes appending the suffix, and leaves a name without the
      suffix alone even when `.git` occurs inside it. */
  lemma StripGitSuffixInverse(name: string)
    ensures StripGitSuffix(name + GitSuffix) == name
    ensures (|name| < |GitSuffix| || name[|name| - |GitSuffix|..] != GitSuffix) ==> StripGitSuffix(name) == name
  {
    assert (name + GitSuffix)[|name|..] == GitSuffix;
  }

  /** `parseGithubUrl` with the evidently intended suffix stripping. */
  function ParseGithubUrlFixed(url: string): Option<GithubRef> {
    match Match(url)
    case None => None
    case Some(m) => Some(GithubRef(m.owner, StripGitSuffix(m.repo), m.path.GetOr("")))
  }

  /** The corrected parse agrees with the original on owner and path, and on
      the repository whenever the segment has no `.git` or its first `.git`
      is its suffix. */
  lemma FixedParseAgrees(url: string)
    ensures ParseGithubUrlFixed(url).None? <==> ParseGithubUrl(url).None?
    ensures ParseGithubUrl(url).Some? ==>
      && ParseGithubUrlFixed(url).value.owner == ParseGithubUrl(url).value.owner
      && ParseGithubUrlFixed(url).value.path == ParseGithubUrl(url).value.path
    ensures Match(url).Some? && IndexOf(Match(url).value.repo, GitSuffix, 0).None? ==>
      ParseGithubUrlFixed(url) == ParseGithubUrl(url)
    ensures Match(url).Some? && |Match(url).value.repo| >= |GitSuffix|
            && IndexOf(Match(url).value.repo, GitSuffix, 0) == Some(|Match(url).value.repo| - |GitSuffix|) ==>
      ParseGithubUrlFixed(url) == ParseGithubUrl(url)
  {
    match Match(url)
    case None =>
    case Some(m) =>
      if IndexOf(m.repo, GitSuffix, 0).None? {
        NoDotGitUntouched(m.repo);
      } else if |m.repo| >= |GitSuffix| && IndexOf(m.repo, GitSuffix, 0) == Some(|m.repo| - |GitSuffix|) {
        OnlySuffixDotGitAgrees(m.repo);
      }
  }

  /** Both clean-ups leave a segment without `.git` as it is. */
  lemma NoDotGitUntouched(seg: string)
    requires IndexOf(seg, GitSuffix, 0).None?
    ensures StripGitSuffix(seg) == seg && RemoveFirst(seg, GitSuffix) == seg
  {
    if |seg| >= |GitSuffix| {
      assert !OccursAt(seg, GitSuffix, |seg| - |GitSuffix|);
    }
  }

  /** When the first `.git` of a segment is its suffix, both clean-ups
      delete that suffix and nothing else. */
  lemma OnlySuffixDotGitAgrees(seg: string)
    requires |seg| >= |GitSuffix| && IndexOf(seg, GitSuffix, 0) == Some(|seg| - |GitSuffix|)
    ensures RemoveFirst(seg, GitSuffix) == StripGitSuffix(seg) == seg[..|seg| - |GitSuffix|]
  {
    var r := RemoveFirst(seg, GitSuffix);
    assert r[..|r|] == r && r[|r|..] == [];
    assert r + GitSuffix == seg;
    assert seg[|seg| - |GitSuffix|..] == GitSuffix;
  }

  /** A string in which `/` does not occur is slash-free. */
  lemma SlashFreeOfNoSlash(t: string)
    requires '/' !in t
    ensures SlashFree(t)
  {
  }

  /** The first `.git` in `user.github.io` is inside the name, not at its end. */
  lemma FirstDotGitOfPagesName()
    ensures RemoveFirst("user.github.io", GitSuffix) == "userhub.io"
    ensures StripGitSuffix("user.github.io") == "user.github.io"
  {
    var seg := "user.github.io";
    assert seg == "user" + GitSuffix + "hub.io";
    assert '.' !in "user";
    FirstDotGitAfterDotFreePrefix("user", "hub.io");
    assert seg[|seg| - 1] == 'o';
    StripKeepsOtherEndings(seg);
  }

  /** A name whose last character is not the `t` of `.git` has no `.git`
      suffix to strip. */
  lemma StripKeepsOtherEndings(seg: string)
    requires seg != [] && seg[|seg| - 1] != 't'
    ensures StripGitSuffix(seg) == seg
  {
    if |seg| >= |GitSuffix| {
      assert seg[|seg| - |GitSuffix|..][|GitSuffix| - 1] == seg[|seg| - 1];
    }
  }

  /** In `pre + ".git" + post` with no `.` in `pre`, the first `.git` is the
      one after `pre`, and `replace` leaves `pre + post`. */
  lemma FirstDotGitAfterDotFreePrefix(pre: string, post: string)
    requires '.' !in pre
    ensures IndexOf(pre + GitSuffix + post, GitSuffix, 0) == Some(|pre|)
    ensures RemoveFirst(pre + GitSuffix + post, GitSuffix) == pre + post
  {
    var seg := pre + GitSuffix + post;
    assert OccursAt(seg, GitSuffix, |pre|) by {
      assert seg[|pre|..|pre| + |GitSuffix|] == GitSuffix;
    }
    forall j | 0 <= j < |pre| ensures !OccursAt(seg, GitSuffix, j) {
      assert seg[j] == pre[j];
      if j + |GitSuffix| <= |seg| {
        assert seg[j..j + |GitSuffix|][0] == seg[j];
      }
    }
    assert seg[..|pre|] == pre && seg[|pre| + |GitSuffix|..] == post;
  }

  /** In the Pages URL the host starts at index 8 and nowhere before. */
  lemma PagesUrlHost(url: string)
    requires url == "https://github.com/user/user.github.io"
    ensures |url| == 38 && OccursAt(url, Host, 8)
    ensures forall j :: 0 <= j < 8 ==> !PatternAt(url, j)
  {
    var scheme := "https://";
    assert url == scheme + (Host + ("user" + ("/" + "user.github.io")));
    assert url[8..19] == Host;
    NoHostInScheme(url, scheme);
  }

  /** The host cannot start inside a leading `https://`. */
  lemma NoHostInScheme(url: string, scheme: string)
    requires scheme == "https://" && |url| >= |scheme| && url[..|scheme|] == scheme
    ensures forall j :: 0 <= j < |scheme| ==> !PatternAt(url, j)
  {
    forall j | 0 <= j < |scheme| ensures !OccursAt(url, Host, j) {
      assert url[j] == scheme[j] != 'g';
      if j + |Host| <= |url| {
        assert url[j..j + |Host|][0] == url[j];
      }
    }
  }

  /** In the Pages URL the owner `user` ends at the `/` at index 23 and the
      repository segment `user.github.io` runs to the end. */
  lemma PagesUrlSegments(url: string)
    requires url == "https://github.com/user/user.github.io"
    ensures url[23] == '/' && url[19..23] == "user" && url[24..] == "user.github.io"
  {
    UrlLayout(url, "https://" + Host, "user", "user.github.io");
  }

  /** Where the owner, the `/` and the name sit in `pre + owner + "/" + name`. */
  lemma UrlLayout(url: string, pre: string, owner: string, name: string)
    requires url == pre + owner + "/" + name
    ensures var b := |pre| + |owner|;
            url[b] == '/' && url[|pre|..b] == owner && url[b + 1..] == name
  {
    var b := |pre| + |owner|;
    assert url[b] == (pre + owner + "/")[b];
  }

  /** Neither segment of the Pages URL holds a `/`. */
  lemma PagesUrlSegmentsSlashFree(url: string)
    requires url == "https://github.com/user/user.github.io"
    ensures SlashFree(url[19..23]) && SlashFree(url[24..])
  {
    PagesUrlSegments(url);
    SlashFreeOfNoSlash("user");
    SlashFreeOfNoSlash("user.github.io");
  }

  /** The repository `user.github.io` (a GitHub Pages site) comes out as
      `userhub.io` under `.replace('.git', '')`, but intact under the
      suffix rule. */
  lemma PagesRepositoryIsMangled(url: string)
    requires url == "https://github.com/user/user.github.io"
    ensures ParseGithubUrl(url) == Some(GithubRef("user", "userhub.io", ""))
    ensures ParseGithubUrlFixed(url) == Some(GithubRef("user", "user.github.io", ""))
  {
    PagesUrlHost(url);
    PagesUrlSegments(url);
    PagesUrlSegmentsSlashFree(url);
    MatchAtLeftmost(url, 8, 23, |url|);
    assert url[24..|url|] == url[24..];
    assert PathAfter(url, |url|) == None;
    assert Match(url) == Some(Captures("user", "user.github.io", None));
    FirstDotGitOfPagesName();
  }
}
