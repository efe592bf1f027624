/** The URL dispatch table `txt_url_regexes` of bot.py: four patterns tried
    in a fixed order, each hand-coded from its regular expression as Python's
    `re.match` applies it (anchored at the start; `$` also matches just before
    a final newline; `.` never matches a newline; quantifiers are greedy). */
module Urls {
  import opened Text

  /** The fetch strategy a pattern selects, with its captured groups. */
  datatype Route =
    | Gist(id: string)                   // unpack_gist: the hex gist id
    | Paste(base: string, id: string)    // unpack_pastebin: "https://pastebin.com/", "abc123"
    | Github(repo: string, path: string) // unpack_github: "owner/repo", "/branch/file"
    | File(url: string)                  // unpack_url_file: the whole URL

  datatype Pattern = GistPage | PastePage | GithubBlob | TextFile

  /** The patterns in the order the bot tries them. */
  const Table: seq<Pattern> := [GistPage, PastePage, GithubBlob, TextFile]

  const GistHost := "gist.github.com/"
  const HastebinHost := "hastebin.com/"
  const PastebinHost := "pastebin.com/"
  const GithubHost := "github.com/"
  const BlobMarker := "/blob"

  predicate NotNewline(c: char) { c != '\n' }

  predicate NoNewline(s: string) {
    forall i :: 0 <= i < |s| ==> s[i] != '\n'
  }

  /** `[a-f0-9]` */
  predicate IsHex(c: char) { '0' <= c <= '9' || 'a' <= c <= 'f' }

  /** `\w`, restricted to ASCII. */
  predicate IsWord(c: char) { 'a' <= c <= 'z' || 'A' <= c <= 'Z' || '0' <= c <= '9' || c == '_' }

  /** Length of the `https?://` scheme `s` starts with, if it has one. */
  function SchemeLength(s: string): (r: Option<nat>)
    ensures r == Some(7) <==> "http://" <= s
    ensures r == Some(8) <==> "https://" <= s
    ensures r.None? || r == Some(7) || r == Some(8)
  {
    assert "http://" <= s ==> s[4] == ':';
    assert "https://" <= s ==> s[4] == 's';
    if "http://" <= s then Some(7)
    else if "https://" <= s then Some(8)
    else None
  }

  /** What a pattern ending in `$` can match: the whole text, or the text
      without its final newline. */
  function EndAnchored(s: string): (b: string)
    ensures b == s || b + "\n" == s
    ensures b <= s
  {
    if |s| > 0 && s[|s| - 1] == '\n' then s[..|s| - 1] else s
  }

  /** What a pattern without `$` can reach: everything up to the first newline. */
  function FirstLine(s: string): (r: string)
    ensures r <= s && NoNewline(r)
    ensures |r| < |s| ==> s[|r|] == '\n'
  {
    s[..LeadingCount(s, NotNewline)]
  }

  /** `.+\/([a-f0-9]+)` matched against the whole of `tail`: the group is
      the maximal run of hex digits at the end, which must follow a '/'
      that itself follows a non-empty, newline-free owner part. */
  function GistId(tail: string): (r: Option<string>)
    ensures r.Some? ==> |r.value| < |tail| && r.value == tail[|tail| - |r.value|..]
  {
    var h := TrailingCount(tail, IsHex);
    var slash := |tail| - h - 1;
    if h == 0 || slash < 1 || tail[slash] != '/' || !NoNewline(tail[..slash]) then None
    else Some(tail[slash + 1..])
  }

  /** `^https?://gist\.github\.com\/.+\/([a-f0-9]+)$` */
  function MatchGist(s: string): (r: Option<Route>)
    ensures r.Some? ==> r.value.Gist?
    ensures r.Some? ==> SchemeLength(s).Some? && GistHost <= s[SchemeLength(s).value..]
  {
    match SchemeLength(s)
    case None => None
    case Some(k) =>
      var b := EndAnchored(s);
      if !(GistHost <= s[k..]) || |b| < k + |GistHost| then None
      else
        match GistId(b[k + |GistHost|..])
        case None => None
        case Some(id) => Some(Gist(id))
  }

  predicate AllWord(s: string) {
    forall i :: 0 <= i < |s| ==> IsWord(s[i])
  }

  /** `^(https?://(?:h|p)astebin\.com\/)(\w+)$` */
  function MatchPaste(s: string): (r: Option<Route>)
    ensures r.Some? ==> r.value.Paste?
    ensures r.Some? ==> SchemeLength(s).Some?
                        && (HastebinHost <= s[SchemeLength(s).value..] || PastebinHost <= s[SchemeLength(s).value..])
  {
    match SchemeLength(s)
    case None => None
    case Some(k) =>
      var b := EndAnchored(s);
      if !(HastebinHost <= s[k..] || PastebinHost <= s[k..]) || |b| < k + |PastebinHost| then None
      else
        var id := b[k + |PastebinHost|..];
        if |id| == 0 || !AllWord(id) then None
        else Some(Paste(b[..k + |PastebinHost|], id))
  }

  /** `.+\/.+` on text without newlines: a '/' with something on both sides. */
  predicate RepoShaped(g: string) {
    exists m :: 1 <= m < |g| - 1 && g[m] == '/'
  }

  /** `\/.+\/.+` on text without newlines. */
  predicate PathShaped(g: string) {
    |g| > 0 && g[0] == '/' && RepoShaped(g[1..])
  }

  /** `(.+\/.+)\/blob(\/.+\/.+)` can put the end of its first group at `j`
      of the newline-free text `line`. */
  predicate BlobSplit(line: string, j: nat) {
    && j + |BlobMarker| <= |line|
    && line[j..j + |BlobMarker|] == BlobMarker
    && RepoShaped(line[..j])
    && PathShaped(line[j + |BlobMarker|..])
  }

  /** The largest split point at or below `j`. */
  function LastSplit(line: string, j: nat): (r: Option<nat>)
    ensures r.Some? ==> r.value <= j && BlobSplit(line, r.value)
                        && forall k :: r.value < k <= j ==> !BlobSplit(line, k)
    ensures r.None? ==> forall k :: 0 <= k <= j ==> !BlobSplit(line, k)
  {
    if BlobSplit(line, j) then Some(j)
    else if j == 0 then None
    else LastSplit(line, j - 1)
  }

  /** `(.+\/.+)\/blob(\/.+\/.+)` matched from the start of the newline-free
      `tail`. The greedy engine maximises the first `.+`, then the second; a
      later split point never allows fewer characters to either, so the
      groups it reports are those of the LAST split point that works, and the
      second group runs to the end of `tail`. */
  function GithubGroups(tail: string): (r: Option<(string, string)>)
    ensures r.Some? ==> tail == r.value.0 + BlobMarker + r.value.1
  {
    match LastSplit(tail, |tail|)
    case None => None
    case Some(j) =>
      assert tail == tail[..j] + BlobMarker + tail[j + |BlobMarker|..];
      Some((tail[..j], tail[j + |BlobMarker|..]))
  }

  /** `https?:\/\/github\.com\/(.+\/.+)\/blob(\/.+\/.+)`, applied with
      `re.match` and so anchored at the start only; the groups come from the
      first line. */
  function MatchGithub(s: string): (r: Option<Route>)
    ensures r.Some? ==> r.value.Github?
    ensures r.Some? ==> SchemeLength(s).Some? && GithubHost <= s[SchemeLength(s).value..]
  {
    match SchemeLength(s)
    case None => None
    case Some(k) =>
      var line := FirstLine(s);
      if !(GithubHost <= s[k..]) || |line| < k + |GithubHost| then None
      else
        match GithubGroups(line[k + |GithubHost|..])
        case None => None
        case Some(g) => Some(Github(g.0, g.1))
  }

  /** `^(https?://.+\.txt)$` */
  function MatchTextFile(s: string): (r: Option<Route>)
    ensures r.Some? ==> r.value.File?
  {
    var b := EndAnchored(s);
    match SchemeLength(b)
    case None => None
    case Some(k) =>
      if |b| - k >= 5 && ".txt" == b[|b| - 4..] && NoNewline(b) then Some(File(b)) else None
  }

  function Match(p: Pattern, url: string): Option<Route> {
    match p
    case GistPage => MatchGist(url)
    case PastePage => MatchPaste(url)
    case GithubBlob => MatchGithub(url)
    case TextFile => MatchTextFile(url)
  }

  /** The loop over `txt_url_regexes` with its `break`: the position of the
      first pattern that matches, if any. */
  function FirstMatch(table: seq<Pattern>, url: string): (r: Option<nat>)
    ensures r.Some? ==> r.value < |table| && Match(table[r.value], url).Some?
                        && forall j :: 0 <= j < r.value ==> Match(table[j], url).None?
    ensures r.None? <==> forall j :: 0 <= j < |table| ==> Match(table[j], url).None?
  {
    if |table| == 0 then None
    else if Match(table[0], url).Some? then Some(0)
    else
      match FirstMatch(table[1..], url)
      case None => None
      case Some(i) => Some(i + 1)
  }

  /** The route the bot takes for `url`: the first pattern of `Table` that
      matches, none when no pattern matches. */
  function Dispatch(url: string): (r: Option<Route>)
    ensures r.None? <==> forall j :: 0 <= j < |Table| ==> Match(Table[j], url).None?
  {
    match FirstMatch(Table, url)
    case None => None
    case Some(i) => Match(Table[i], url)
  }

  /** First match wins: gist first, then paste host, then github blob,
      then `.txt`. */
  lemma DispatchOrder(url: string)
    ensures MatchGist(url).Some? ==> Dispatch(url) == MatchGist(url)
    ensures MatchGist(url).None? && MatchPaste(url).Some? ==> Dispatch(url) == MatchPaste(url)
    ensures MatchGist(url).None? && MatchPaste(url).None? && MatchGithub(url).Some? ==>
              Dispatch(url) == MatchGithub(url)
    ensures MatchGist(url).None? && MatchPaste(url).None? && MatchGithub(url).None? ==>
              Dispatch(url) == MatchTextFile(url)
  {
    var m := FirstMatch(Table, url);
    assert Match(Table[0], url) == MatchGist(url);
    assert Match(Table[1], url) == MatchPaste(url);
    assert Match(Table[2], url) == MatchGithub(url);
    assert Match(Table[3], url) == MatchTextFile(url);
  }
}
