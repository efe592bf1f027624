/** What each pattern of the dispatch table accepts and captures, stated as
    the shape of the URL, and how the patterns overlap. */
module UrlShapes {
  import opened Text
  import opened Urls

  predicate IsScheme(scheme: string) {
    scheme == "http://" || scheme == "https://"
  }

  predicate AllHex(s: string) {
    forall i :: 0 <= i < |s| ==> IsHex(s[i])
  }

  /** What `$` may leave after the matched text. */
  predicate IsLineEnd(end: string) {
    end == "" || end == "\n"
  }

  lemma SchemeIs(scheme: string, s: string)
    requires IsScheme(scheme) && scheme <= s
    ensures SchemeLength(s) == Some(|scheme|)
  {
  }

  lemma SchemeText(s: string)
    requires SchemeLength(s).Some?
    ensures IsScheme(s[..SchemeLength(s).value])
  {
  }

  lemma EndText(s: string)
    ensures IsLineEnd(s[|EndAnchored(s)|..])
    ensures s == EndAnchored(s) + s[|EndAnchored(s)|..]
  {
    var b := EndAnchored(s);
    if b != s {
      assert s[|b|..] == "\n";
    }
  }

  lemma LineText(s: string)
    ensures var rest := s[|FirstLine(s)|..];
            (rest == "" || rest[0] == '\n') && s == FirstLine(s) + rest
  {
  }

  lemma NoNewlineParts(a: string, b: string, c: string)
    requires NoNewline(a + b + c)
    ensures NoNewline(a) && NoNewline(c)
  {
    assert forall i :: 0 <= i < |a| ==> a[i] == (a + b + c)[i];
    assert forall i :: 0 <= i < |c| ==> c[i] == (a + b + c)[|a| + |b| + i];
  }

  lemma EndAnchoredDrops(b: string, end: string)
    requires IsLineEnd(end)
    requires |b| > 0 && b[|b| - 1] != '\n'
    ensures EndAnchored(b + end) == b
  {
  }

  /** The head and the tail of a URL built from a prefix and the rest. */
  lemma HostPrefix(scheme: string, host: string, tail: string, end: string)
    requires IsScheme(scheme) && |host| > 0
    ensures var s := scheme + host + tail + end;
            && SchemeLength(s) == Some(|scheme|)
            && host <= s[|scheme|..]
            && (scheme + host + tail)[|scheme| + |host|..] == tail
            && (scheme + host + tail)[..|scheme| + |host|] == scheme + host
  {
    var s := scheme + host + tail + end;
    assert s == scheme + (host + tail + end);
    SchemeIs(scheme, s);
    assert s[|scheme|..] == host + (tail + end);
  }

  /** Reassembling a URL from its pieces. */
  lemma Assemble(s: string, b: string, end: string, head: string, tail: string, x: string, sep: string, y: string)
    requires s == b + end && b == head + tail && tail == x + sep + y
    ensures s == head + x + sep + y + end
  {
  }

  /** Cutting a URL after a host name that follows position `k`. */
  lemma HostCut(s: string, b: string, k: nat, host: string)
    requires b <= s && k + |host| <= |b| && host <= s[k..]
    ensures b == s[..k] + host + b[k + |host|..]
  {
    assert s[k..][..|host|] == host;
    assert b[..k + |host|] == s[..k + |host|];
    assert s[..k + |host|] == s[..k] + s[k..][..|host|];
    assert b == b[..k + |host|] + b[k + |host|..];
  }

  lemma GistIdAccepts(owner: string, id: string)
    requires |owner| > 0 && NoNewline(owner) && |id| > 0 && AllHex(id)
    ensures GistId(owner + "/" + id) == Some(id)
  {
    var tail := owner + "/" + id;
    assert tail[|tail| - |id| - 1] == '/';
    assert forall i :: |tail| - |id| <= i < |tail| ==> IsHex(tail[i]);
    assert tail[..|owner|] == owner;
    assert tail[|owner| + 1..] == id;
  }

  lemma GistIdParts(tail: string) returns (owner: string)
    requires GistId(tail).Some?
    ensures |owner| > 0 && NoNewline(owner) && |GistId(tail).value| > 0 && AllHex(GistId(tail).value)
    ensures tail == owner + "/" + GistId(tail).value
  {
    var h := TrailingCount(tail, IsHex);
    var slash := |tail| - h - 1;
    owner := tail[..slash];
    assert tail == owner + "/" + tail[slash + 1..];
  }

  /** `MatchGist` once its scheme, host and end checks have passed. */
  lemma MatchGistFrom(s: string, k: nat, b: string)
    requires SchemeLength(s) == Some(k) && GistHost <= s[k..]
    requires EndAnchored(s) == b && k + |GistHost| <= |b|
    ensures GistId(b[k + |GistHost|..]).Some? ==> MatchGist(s) == Some(Gist(GistId(b[k + |GistHost|..]).value))
  {
  }

  /** A gist page URL: scheme, gist host, a non-empty owner part, '/', a
      hex id, then at most a final newline. Its group is the id. */
  lemma GistAccepts(scheme: string, owner: string, id: string, end: string)
    requires IsScheme(scheme) && |owner| > 0 && NoNewline(owner)
    requires |id| > 0 && AllHex(id) && IsLineEnd(end)
    ensures MatchGist(scheme + GistHost + owner + "/" + id + end) == Some(Gist(id))
  {
    var tail := owner + "/" + id;
    var b := scheme + GistHost + tail;
    var s := scheme + GistHost + owner + "/" + id + end;
    var k := |scheme|;
    assert s == b + end;
    assert EndAnchored(s) == b by {
      assert b[|b| - 1] == id[|id| - 1];
      EndAnchoredDrops(b, end);
    }
    assert SchemeLength(s) == Some(k) && GistHost <= s[k..] && b[k + |GistHost|..] == tail by {
      HostPrefix(scheme, GistHost, tail, end);
    }
    assert GistId(tail) == Some(id) by {
      GistIdAccepts(owner, id);
    }
    MatchGistFrom(s, k, b);
  }

  /** How `MatchGist` reached its verdict on `s`. */
  lemma GistView(s: string) returns (k: nat, tail: string)
    requires MatchGist(s).Some?
    ensures SchemeLength(s) == Some(k) && GistHost <= s[k..]
    ensures k + |GistHost| <= |EndAnchored(s)| && tail == EndAnchored(s)[k + |GistHost|..]
    ensures GistId(tail).Some? && MatchGist(s) == Some(Gist(GistId(tail).value))
  {
    k := SchemeLength(s).value;
    tail := EndAnchored(s)[k + |GistHost|..];
  }

  /** Every URL the gist pattern accepts has that shape. */
  lemma GistParts(s: string) returns (scheme: string, owner: string, id: string, end: string)
    requires MatchGist(s).Some?
    ensures MatchGist(s) == Some(Gist(id))
    ensures IsScheme(scheme) && |owner| > 0 && NoNewline(owner) && IsLineEnd(end)
    ensures |id| > 0 && AllHex(id)
    ensures s == scheme + GistHost + owner + "/" + id + end
  {
    var k, tail := GistView(s);
    scheme := s[..k];
    SchemeText(s);
    var b := EndAnchored(s);
    end := s[|b|..];
    EndText(s);
    owner := GistIdParts(tail);
    id := GistId(tail).value;
    HostCut(s, b, k, GistHost);
    assert s == b + end;
    Assemble(s, b, end, scheme + GistHost, tail, owner, "/", id);
  }

  /** A paste-host URL: scheme, `hastebin.com/` or `pastebin.com/`, a word id,
      then at most a final newline. Its groups are the base and the id. */
  lemma PasteAccepts(scheme: string, host: string, id: string, end: string)
    requires IsScheme(scheme) && (host == HastebinHost || host == PastebinHost)
    requires |id| > 0 && AllWord(id) && IsLineEnd(end)
    ensures MatchPaste(scheme + host + id + end) == Some(Paste(scheme + host, id))
  {
    var b := scheme + host + id;
    assert scheme + host + id + end == b + end;
    assert b[|b| - 1] == id[|id| - 1];
    EndAnchoredDrops(b, end);
    HostPrefix(scheme, host, id, end);
  }

  lemma PasteParts(s: string) returns (scheme: string, host: string, end: string)
    requires MatchPaste(s).Some?
    ensures IsScheme(scheme) && (host == HastebinHost || host == PastebinHost) && IsLineEnd(end)
    ensures MatchPaste(s).value.base == scheme + host
    ensures |MatchPaste(s).value.id| > 0 && AllWord(MatchPaste(s).value.id)
    ensures s == scheme + host + MatchPaste(s).value.id + end
  {
    var k := SchemeLength(s).value;
    scheme := s[..k];
    var b := EndAnchored(s);
    end := s[|b|..];
    host := s[k..][..|PastebinHost|];
    var id := b[k + |PastebinHost|..];
    HostCut(s, b, k, host);
    assert s == b + end;
  }

  /** "/blob" starts at position `i` of `s`. */
  predicate BlobAt(s: string, i: nat) {
    i + |BlobMarker| <= |s| && s[i..i + |BlobMarker|] == BlobMarker
  }

  ghost predicate BlobFree(s: string) {
    forall i: nat :: !BlobAt(s, i)
  }

  lemma FirstLineIs(line: string, rest: string)
    requires NoNewline(line) && (rest == "" || rest[0] == '\n')
    ensures FirstLine(line + rest) == line
  {
    var s := line + rest;
    assert forall i :: 0 <= i < |line| ==> NotNewline(s[i]);
    assert |line| < |s| ==> !NotNewline(s[|line|]);
  }

  /** No "/blob" split lies past the one after `repo` when the path holds
      no "/blob" of its own. */
  lemma NoLaterSplit(repo: string, path: string, i: nat)
    requires BlobFree(path)
    requires |repo| < i <= |repo + BlobMarker + path|
    ensures !BlobSplit(repo + BlobMarker + path, i)
  {
    var tail := repo + BlobMarker + path;
    var j := |repo|;
    if i < j + 5 {
      assert tail[i] == BlobMarker[i - j];
    } else if i + 5 <= |tail| {
      assert tail[j + 5..] == path;
      assert tail[i..i + 5] == path[i - j - 5..i - j];
      assert !BlobAt(path, i - j - 5);
    }
  }

  lemma GithubGroupsAccept(repo: string, path: string)
    requires RepoShaped(repo) && PathShaped(path) && BlobFree(path)
    ensures GithubGroups(repo + BlobMarker + path) == Some((repo, path))
  {
    var tail := repo + BlobMarker + path;
    var j := |repo|;
    assert tail[..j] == repo;
    assert tail[j..j + 5] == BlobMarker;
    assert tail[j + 5..] == path;
    assert BlobSplit(tail, j);
    forall i | j < i <= |tail|
      ensures !BlobSplit(tail, i)
    {
      NoLaterSplit(repo, path, i);
    }
  }

  /** A github blob URL whose path holds no further "/blob": scheme,
      `github.com/`, an `owner/repo` part, "/blob", a `/branch/file` path and
      then nothing or a new line. The fetch groups are the repo and the path. */
  lemma GithubAccepts(scheme: string, repo: string, path: string, rest: string)
    requires IsScheme(scheme) && NoNewline(repo) && NoNewline(path)
    requires RepoShaped(repo) && PathShaped(path) && BlobFree(path)
    requires rest == "" || rest[0] == '\n'
    ensures MatchGithub(scheme + GithubHost + repo + BlobMarker + path + rest) == Some(Github(repo, path))
  {
    var tail := repo + BlobMarker + path;
    var line := scheme + GithubHost + tail;
    var s := scheme + GithubHost + repo + BlobMarker + path + rest;
    var k := |scheme|;
    assert s == line + rest;
    assert FirstLine(s) == line by {
      assert NoNewline(tail);
      assert NoNewline(line);
      FirstLineIs(line, rest);
    }
    assert SchemeLength(s) == Some(k) && GithubHost <= s[k..] && line[k + |GithubHost|..] == tail by {
      HostPrefix(scheme, GithubHost, tail, rest);
    }
    assert GithubGroups(tail) == Some((repo, path)) by {
      GithubGroupsAccept(repo, path);
    }
    MatchGithubFrom(s, k, line);
  }

  /** With a further "/blob" in the path the text still has groups: the
      repo group extends the given repo part and the path group is a
      suffix of the given path. */
  lemma GithubGroupsSome(repo: string, path: string)
    requires RepoShaped(repo) && PathShaped(path)
    ensures var g := GithubGroups(repo + BlobMarker + path);
            && g.Some?
            && repo <= g.value.0
            && |g.value.1| <= |path| && g.value.1 == path[|path| - |g.value.1|..]
  {
    var tail := repo + BlobMarker + path;
    var n := |repo|;
    assert tail[..n] == repo;
    assert tail[n..n + 5] == BlobMarker;
    assert tail[n + 5..] == path;
    assert BlobSplit(tail, n);
    var j := LastSplit(tail, |tail|).value;
    assert n <= j;
    assert tail[..j][..n] == repo;
    assert tail[j + 5..] == path[j - n..];
  }

  /** The first line of a github URL and what follows its host. */
  lemma GithubLine(scheme: string, tail: string, rest: string)
    requires IsScheme(scheme) && NoNewline(tail) && (rest == "" || rest[0] == '\n')
    ensures var s := scheme + GithubHost + tail + rest;
            var k := |scheme|;
            && SchemeLength(s) == Some(k) && GithubHost <= s[k..]
            && FirstLine(s) == scheme + GithubHost + tail
            && k + |GithubHost| <= |FirstLine(s)|
            && FirstLine(s)[k + |GithubHost|..] == tail
  {
    var line := scheme + GithubHost + tail;
    assert NoNewline(line);
    FirstLineIs(line, rest);
    HostPrefix(scheme, GithubHost, tail, rest);
  }

  lemma RegroupTail(head: string, repo: string, path: string, rest: string)
    ensures head + (repo + BlobMarker + path) + rest == head + repo + BlobMarker + path + rest
  {
    assert head + (repo + BlobMarker + path) == head + repo + BlobMarker + path;
  }

  /** A github URL whose first line after the host has groups matches with
      those groups. */
  lemma GithubMatchOf(scheme: string, tail: string, rest: string)
    requires IsScheme(scheme) && NoNewline(tail) && (rest == "" || rest[0] == '\n')
    requires GithubGroups(tail).Some?
    ensures MatchGithub(scheme + GithubHost + tail + rest)
              == Some(Github(GithubGroups(tail).value.0, GithubGroups(tail).value.1))
  {
    GithubLine(scheme, tail, rest);
    MatchGithubFrom(scheme + GithubHost + tail + rest, |scheme|, scheme + GithubHost + tail);
  }

  /** `GithubMatches` with the text after the host kept in one piece. */
  lemma GithubMatchesTail(scheme: string, repo: string, path: string, rest: string)
    requires IsScheme(scheme) && NoNewline(repo + BlobMarker + path)
    requires RepoShaped(repo) && PathShaped(path)
    requires rest == "" || rest[0] == '\n'
    ensures var r := MatchGithub(scheme + GithubHost + (repo + BlobMarker + path) + rest);
            && r.Some?
            && repo <= r.value.repo
            && |r.value.path| <= |path| && r.value.path == path[|path| - |r.value.path|..]
  {
    GithubGroupsSome(repo, path);
    GithubMatchOf(scheme, repo + BlobMarker + path, rest);
  }

  /** Every github blob URL matches, whatever its path holds: the pattern
      can always split at the first "/blob", so a match exists, and the
      split it takes is never earlier than that one. */
  lemma GithubMatches(scheme: string, repo: string, path: string, rest: string)
    requires IsScheme(scheme) && NoNewline(repo) && NoNewline(path)
    requires RepoShaped(repo) && PathShaped(path)
    requires rest == "" || rest[0] == '\n'
    ensures var r := MatchGithub(scheme + GithubHost + repo + BlobMarker + path + rest);
            && r.Some?
            && repo <= r.value.repo
            && |r.value.path| <= |path| && r.value.path == path[|path| - |r.value.path|..]
  {
    assert NoNewline(repo + BlobMarker + path);
    GithubMatchesTail(scheme, repo, path, rest);
    RegroupTail(scheme + GithubHost, repo, path, rest);
  }

  /** A repo part followed by "/blob" and more is still repo-shaped. */
  lemma RepoExtends(repo: string, mid: string)
    requires NoNewline(repo) && NoNewline(mid) && RepoShaped(repo)
    ensures RepoShaped(repo + BlobMarker + mid) && NoNewline(repo + BlobMarker + mid)
  {
    var outer := repo + BlobMarker + mid;
    var m :| 1 <= m < |repo| - 1 && repo[m] == '/';
    assert outer[m] == '/';
    forall i | 0 <= i < |outer| ensures outer[i] != '\n' {
      if i < |repo| {
        assert outer[i] == repo[i];
      } else if i < |repo| + 5 {
        assert outer[i] == BlobMarker[i - |repo|];
      } else {
        assert outer[i] == mid[i - |repo| - 5];
      }
    }
  }

  lemma Regroup(head: string, repo: string, mid: string, path: string, rest: string)
    ensures head + (repo + BlobMarker + mid) + BlobMarker + path + rest
         == head + repo + BlobMarker + mid + BlobMarker + path + rest
  {
    assert head + (repo + BlobMarker + mid) == head + repo + BlobMarker + mid;
    var a := head + (repo + BlobMarker + mid);
    var b := head + repo + BlobMarker + mid;
    assert a + BlobMarker + path + rest == b + BlobMarker + path + rest;
  }

  /** A second "/blob" moves the split: the repo group takes everything up to
      the last "/blob" and the path group only what follows it, so the raw
      file fetched is not the one the link names. */
  lemma GithubSplitsAtLastBlob(scheme: string, repo: string, mid: string, path: string, rest: string)
    requires IsScheme(scheme) && NoNewline(repo) && NoNewline(mid) && NoNewline(path)
    requires RepoShaped(repo) && PathShaped(path) && BlobFree(path)
    requires rest == "" || rest[0] == '\n'
    ensures MatchGithub(scheme + GithubHost + repo + BlobMarker + mid + BlobMarker + path + rest)
              == Some(Github(repo + BlobMarker + mid, path))
  {
    RepoExtends(repo, mid);
    GithubAccepts(scheme, repo + BlobMarker + mid, path, rest);
    Regroup(scheme + GithubHost, repo, mid, path, rest);
  }

  /** `MatchGithub` on text whose scheme and host checks pass. */
  lemma MatchGithubFrom(s: string, k: nat, line: string)
    requires SchemeLength(s) == Some(k) && GithubHost <= s[k..]
    requires FirstLine(s) == line && k + |GithubHost| <= |line|
    ensures GithubGroups(line[k + |GithubHost|..]).Some? ==>
              var g := GithubGroups(line[k + |GithubHost|..]).value;
              MatchGithub(s) == Some(Github(g.0, g.1))
  {
  }

  /** How `MatchGithub` reached its verdict on `s`. */
  lemma GithubView(s: string) returns (k: nat, tail: string)
    requires MatchGithub(s).Some?
    ensures SchemeLength(s) == Some(k) && GithubHost <= s[k..]
    ensures k + |GithubHost| <= |FirstLine(s)| && tail == FirstLine(s)[k + |GithubHost|..]
    ensures GithubGroups(tail).Some?
    ensures MatchGithub(s) == Some(Github(GithubGroups(tail).value.0, GithubGroups(tail).value.1))
  {
    k := SchemeLength(s).value;
    tail := FirstLine(s)[k + |GithubHost|..];
  }

  lemma GithubParts(s: string) returns (scheme: string, repo: string, path: string, rest: string)
    requires MatchGithub(s).Some?
    ensures MatchGithub(s) == Some(Github(repo, path))
    ensures IsScheme(scheme) && NoNewline(repo) && NoNewline(path)
    ensures RepoShaped(repo) && PathShaped(path)
    ensures rest == "" || rest[0] == '\n'
    ensures s == scheme + GithubHost + repo + BlobMarker + path + rest
    ensures forall i :: |repo| < i <= |repo + BlobMarker + path| ==> !BlobSplit(repo + BlobMarker + path, i)
  {
    var k, tail := GithubView(s);
    scheme := s[..k];
    SchemeText(s);
    var line := FirstLine(s);
    rest := s[|line|..];
    LineText(s);
    var g := GithubGroups(tail).value;
    repo, path := g.0, g.1;
    assert tail == repo + BlobMarker + path;
    HostCut(s, line, k, GithubHost);
    assert s == line + rest;
    Assemble(s, line, rest, scheme + GithubHost, tail, repo, BlobMarker, path);
    assert NoNewline(tail);
    NoNewlineParts(repo, BlobMarker, path);
  }

  /** `MatchTextFile` on text whose every check passes. */
  lemma MatchTextFileFrom(s: string, b: string, k: nat)
    requires EndAnchored(s) == b && SchemeLength(b) == Some(k)
    requires |b| - k >= 5 && b[|b| - 4..] == ".txt" && NoNewline(b)
    ensures MatchTextFile(s) == Some(File(b))
  {
  }

  /** A `.txt` URL: scheme, a non-empty name, ".txt", then at most a final
      newline. Its group is the URL without that newline. */
  lemma TextFileAccepts(scheme: string, name: string, end: string)
    requires IsScheme(scheme) && |name| > 0 && NoNewline(name) && IsLineEnd(end)
    ensures MatchTextFile(scheme + name + ".txt" + end) == Some(File(scheme + name + ".txt"))
  {
    var b := scheme + name + ".txt";
    var s := scheme + name + ".txt" + end;
    assert s == b + end;
    assert EndAnchored(s) == b by {
      EndAnchoredDrops(b, end);
    }
    assert SchemeLength(b) == Some(|scheme|) by {
      SchemeIs(scheme, b);
    }
    assert b[|b| - 4..] == ".txt";
    assert NoNewline(b) by {
      assert forall i :: 0 <= i < |scheme| ==> b[i] == scheme[i];
      assert forall i :: |scheme| <= i < |scheme| + |name| ==> b[i] == name[i - |scheme|];
    }
    MatchTextFileFrom(s, b, |scheme|);
  }

  lemma TextFileParts(s: string) returns (scheme: string, name: string, end: string)
    requires MatchTextFile(s).Some?
    ensures IsScheme(scheme) && |name| > 0 && NoNewline(name) && IsLineEnd(end)
    ensures MatchTextFile(s).value.url == scheme + name + ".txt"
    ensures s == scheme + name + ".txt" + end
  {
    var b := EndAnchored(s);
    var k := SchemeLength(b).value;
    scheme := b[..k];
    name := b[k..|b| - 4];
    end := s[|b|..];
    assert b == scheme + name + ".txt";
    assert s == b + end;
  }

  /** The gist, paste-host and github patterns exclude each other: they
      demand different host names right after the scheme. */
  lemma HostsExclusive(url: string)
    ensures MatchGist(url).Some? ==> MatchPaste(url).None? && MatchGithub(url).None?
    ensures MatchPaste(url).Some? ==> MatchGithub(url).None?
  {
    if SchemeLength(url).Some? {
      var rest := url[SchemeLength(url).value..];
      assert GistHost <= rest ==> rest[0] == 'g' && rest[2] == 's';
      assert GithubHost <= rest ==> rest[0] == 'g' && rest[2] == 't';
      assert HastebinHost <= rest ==> rest[0] == 'h';
      assert PastebinHost <= rest ==> rest[0] == 'p';
    }
  }

  /** A `.txt` URL is no gist page: a gist id ends in a hex digit. */
  lemma TextFileNotGist(url: string)
    requires MatchTextFile(url).Some?
    ensures MatchGist(url).None?
  {
    var b := EndAnchored(url);
    assert b[|b| - 1] == 't';
    match SchemeLength(url) {
      case None =>
      case Some(k) =>
        if GistHost <= url[k..] && |b| >= k + |GistHost| {
          var tail := b[k + |GistHost|..];
          if |tail| > 0 {
            assert tail[|tail| - 1] == 't';
          }
          assert TrailingCount(tail, IsHex) == 0;
        }
    }
  }

  /** After a host ending in '/', text ending in ".txt" leaves a '.' in
      what follows the host. */
  lemma DotAfterHost(b: string, k: nat)
    requires k + |PastebinHost| <= |b| && b[k + 12] == '/' && b[|b| - 4..] == ".txt"
    ensures !AllWord(b[k + |PastebinHost|..])
  {
    assert b[|b| - 4] == '.' && b[|b| - 3] == 't' && b[|b| - 2] == 'x' && b[|b| - 1] == 't' by {
      assert b[|b| - 4..][0] == '.';
    }
    assert |b| - 4 > k + 12;
    var id := b[k + |PastebinHost|..];
    assert id[|id| - 4] == '.';
  }

  /** A `.txt` URL is no paste-host page: the '.' of ".txt" would have to
      fall inside the id, which is all word characters. */
  lemma TextFileNotPaste(url: string)
    requires MatchTextFile(url).Some?
    ensures MatchPaste(url).None?
  {
    var b := EndAnchored(url);
    assert b[|b| - 4..] == ".txt";
    match SchemeLength(url) {
      case None =>
      case Some(k) =>
        if (HastebinHost <= url[k..] || PastebinHost <= url[k..]) && |b| >= k + |PastebinHost| {
          assert b[k + 12] == '/' by {
            assert url[k..][12] == '/';
          }
          DotAfterHost(b, k);
        }
    }
  }

  /** A `.txt` URL never looks like a gist or a paste-host page. */
  lemma TextFileNotGistOrPaste(url: string)
    requires MatchTextFile(url).Some?
    ensures MatchGist(url).None? && MatchPaste(url).None?
  {
    TextFileNotGist(url);
    TextFileNotPaste(url);
  }

  /** Appending ".txt" cannot complete a `github.com/` prefix: the only
      '.' of the host is followed by "com/". */
  lemma NoGithubPrefix(name: string, tail: string)
    requires !(GithubHost <= name)
    ensures !(GithubHost <= name + ".txt" + tail)
  {
    var r := name + ".txt" + tail;
    if |name| >= |GithubHost| {
      assert r[..|GithubHost|] == name[..|GithubHost|];
    } else {
      assert r[|name|] == '.' && r[|name| + 1] == 't';
    }
  }

  /** A `.txt` link whose host part does not start with `github.com/` is
      no github blob link. */
  lemma NotGithubHost(scheme: string, name: string, end: string)
    requires IsScheme(scheme) && !(GithubHost <= name)
    ensures MatchGithub(scheme + name + ".txt" + end).None?
  {
    var s := scheme + name + ".txt" + end;
    var rest := name + ".txt" + end;
    assert s == scheme + rest;
    SchemeIs(scheme, s);
    assert s[|scheme|..] == rest;
    NoGithubPrefix(name, end);
  }

  /** A github blob URL is fetched through the github rewrite even when it
      ends in `.txt` and the raw-file pattern would match it too. */
  lemma GithubBeatsTextFile(url: string)
    requires MatchGithub(url).Some?
    ensures Dispatch(url) == MatchGithub(url)
  {
    HostsExclusive(url);
    DispatchOrder(url);
  }

  /** Every URL the bot recognises goes to the route of the one pattern
      that claims it, except that github wins over `.txt`. */
  lemma RouteKinds(url: string)
    ensures Dispatch(url).Some? && Dispatch(url).value.File? ==>
              MatchGithub(url).None? && Dispatch(url) == MatchTextFile(url)
    ensures MatchTextFile(url).Some? ==>
              Dispatch(url).Some? && (Dispatch(url).value.File? || Dispatch(url).value.Github?)
  {
    if MatchGithub(url).Some? {
      GithubBeatsTextFile(url);
    }
    DispatchOrder(url);
    if MatchTextFile(url).Some? {
      TextFileNotGistOrPaste(url);
    }
  }
}
