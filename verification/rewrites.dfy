/** Which request the bot issues for a URL of each recognised shape. */
module Rewrites {
  import opened Text
  import opened Urls
  import opened UrlShapes
  import opened Fetch

  /** A gist page is fetched through the gist API, by its id. */
  lemma GistFetchUrl(scheme: string, owner: string, id: string, end: string)
    requires IsScheme(scheme) && |owner| > 0 && NoNewline(owner)
    requires |id| > 0 && AllHex(id) && IsLineEnd(end)
    ensures var url := scheme + GistHost + owner + "/" + id + end;
            && Dispatch(url) == Some(Gist(id))
            && RequestFor(Dispatch(url).value) == GetJson(GistApi + id)
  {
    var url := scheme + GistHost + owner + "/" + id + end;
    GistAccepts(scheme, owner, id, end);
    DispatchOrder(url);
  }

  /** A paste-host page is fetched from its raw form: the base, "raw/", the id. */
  lemma PasteFetchUrl(scheme: string, host: string, id: string, end: string)
    requires IsScheme(scheme) && (host == HastebinHost || host == PastebinHost)
    requires |id| > 0 && AllWord(id) && IsLineEnd(end)
    ensures var url := scheme + host + id + end;
            && Dispatch(url) == Some(Paste(scheme + host, id))
            && RequestFor(Dispatch(url).value) == Get(scheme + host + "raw/" + id)
  {
    var url := scheme + host + id + end;
    PasteAccepts(scheme, host, id, end);
    HostsExclusive(url);
    DispatchOrder(url);
  }

  /** A github blob page is fetched from raw.githubusercontent.com over
      https, whichever scheme the link used. */
  lemma GithubFetchUrl(scheme: string, repo: string, path: string, rest: string)
    requires IsScheme(scheme) && NoNewline(repo) && NoNewline(path)
    requires RepoShaped(repo) && PathShaped(path) && BlobFree(path)
    requires rest == "" || rest[0] == '\n'
    ensures var url := scheme + GithubHost + repo + BlobMarker + path + rest;
            && Dispatch(url) == Some(Github(repo, path))
            && RequestFor(Dispatch(url).value) == Get(RawGithub + repo + path)
  {
    var url := scheme + GithubHost + repo + BlobMarker + path + rest;
    GithubAccepts(scheme, repo, path, rest);
    GithubBeatsTextFile(url);
  }

  /** Every URL that goes to the github fetcher is fetched from the raw host:
      the request is the raw prefix followed by the first line of the URL
      after `github.com/`, with the "/blob" between repo and path removed. */
  lemma GithubRequestShape(url: string) returns (scheme: string, repo: string, path: string, rest: string)
    requires Dispatch(url).Some? && Dispatch(url).value.Github?
    ensures url == scheme + GithubHost + repo + BlobMarker + path + rest
    ensures IsScheme(scheme) && (rest == "" || rest[0] == '\n') && NoNewline(repo) && NoNewline(path)
    ensures RequestFor(Dispatch(url).value) == Get(RawGithub + repo + path)
  {
    GithubDispatched(url);
    scheme, repo, path, rest := GithubParts(url);
    GithubBeatsTextFile(url);
  }

  /** Only the github pattern yields a github route. */
  lemma GithubDispatched(url: string)
    requires Dispatch(url).Some? && Dispatch(url).value.Github?
    ensures MatchGithub(url).Some?
  {
    DispatchOrder(url);
    if MatchGithub(url).None? {
      assert false;
    }
  }

  /** A `.txt` link that is not a github blob page is fetched verbatim,
      less any final newline. */
  lemma TextFileFetchUrl(scheme: string, name: string, end: string)
    requires IsScheme(scheme) && |name| > 0 && NoNewline(name) && IsLineEnd(end)
    requires MatchGithub(scheme + name + ".txt" + end).None?
    ensures var url := scheme + name + ".txt" + end;
            && Dispatch(url) == Some(File(scheme + name + ".txt"))
            && RequestFor(Dispatch(url).value) == Get(scheme + name + ".txt")
  {
    var url := scheme + name + ".txt" + end;
    var file := File(scheme + name + ".txt");
    assert RequestFor(file) == Get(scheme + name + ".txt");
    assert MatchTextFile(url) == Some(file) by {
      TextFileAccepts(scheme, name, end);
    }
    DispatchTextFile(url);
  }

  /** A URL that only the `.txt` pattern matches goes to the file fetcher. */
  lemma DispatchTextFile(url: string)
    requires MatchTextFile(url).Some? && MatchGithub(url).None?
    ensures Dispatch(url) == MatchTextFile(url)
  {
    TextFileNotGistOrPaste(url);
    DispatchOrder(url);
  }
}
