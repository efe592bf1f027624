/** The fetchers of bot.py (`get_url_contents`, `unpack_url_file`,
    `unpack_pastebin`, `unpack_gist`, `unpack_github`) with the HTTP client
    replaced by an oracle from URL to reply. */
module Fetch {
  import opened Text
  import opened Urls

  /** The one HTTP request a fetcher issues: a text GET, or a GET whose body
      is decoded as JSON (the gist API). */
  datatype Request = Get(url: string) | GetJson(url: string)

  const RawGithub := "https://raw.githubusercontent.com/"
  const GistApi := "https://api.github.com/gists/"
  const RawSegment := "raw/"

  /** The URL each fetcher rewrites its groups into. */
  function RequestFor(route: Route): (r: Request)
    ensures r.GetJson? <==> route.Gist?
  {
    match route
    case Gist(id) => GetJson(GistApi + id)
    case Paste(base, id) => Get(base + RawSegment + id)
    case Github(repo, path) => Get(RawGithub + repo + path)
    case File(url) => Get(url)
  }

  /** What the HTTP client hands back: a status with the decoded body, or an
      exception raised while requesting or decoding. Only a `ValueError`
      (which includes text and JSON decoding errors) is caught by the bot. */
  datatype Reply<B> = Answered(status: int, body: B) | Raised(valueError: bool, message: string)

  /** The decoded gist API document: the `content` of every entry of its
      `files` object in the object's order, or None when that lookup fails
      (a missing key or a value of the wrong type), together with the
      document's text as `str(data)` renders it. */
  datatype GistJson = GistJson(files: Option<seq<string>>, shown: string)

  /** The HTTP client: one reply per URL for text and for JSON requests. */
  datatype Network = Network(text: string -> Reply<string>, json: string -> Reply<GistJson>)

  /** What a fetcher ends in: text, a caught `ValueError` with its message,
      or any other exception, which ends the message handler at once. */
  datatype Fetched = Content(text: string) | Failed(message: string) | Crashed

  function Raise(valueError: bool, message: string): Fetched {
    if valueError then Failed(message) else Crashed
  }

  /** The message of the `ValueError` a bad status raises. */
  function StatusError(status: int): (m: string)
    ensures |m| > 7 && m[..7] == "Error: "
  {
    "Error: " + IntText(status)
  }

  /** `get_url_contents`: the body when the status is 200, otherwise a
      `ValueError` naming the status. The body is decoded before the
      status is looked at, so a decoding error wins over a bad status. */
  function UrlContents(reply: Reply<string>): (r: Fetched)
    ensures r.Content? <==> reply.Answered? && reply.status == 200
    ensures r.Content? ==> r.text == reply.body
    ensures reply.Answered? && reply.status != 200 ==> r == Failed(StatusError(reply.status))
    ensures reply.Raised? ==> r == Raise(reply.valueError, reply.message)
  {
    match reply
    case Raised(valueError, message) => Raise(valueError, message)
    case Answered(status, body) =>
      if status != 200 then Failed(StatusError(status)) else Content(body)
  }

  const FileSeparator := "\n\n"

  /** `unpack_gist` after its request: on a non-200 status a `ValueError`
      carrying the decoded document; otherwise every file's content, joined
      with a blank line. */
  function GistContents(reply: Reply<GistJson>): (r: Fetched)
    ensures r.Content? <==> reply.Answered? && reply.status == 200 && reply.body.files.Some?
    ensures r.Content? ==> r.text == Join(FileSeparator, reply.body.files.value)
    ensures reply.Answered? && reply.status != 200 ==> r == Failed(reply.body.shown)
    ensures reply.Answered? && reply.status == 200 && reply.body.files == Some([]) ==> r == Content("")
    ensures forall x :: reply.Answered? && reply.status == 200 && reply.body.files == Some([x]) ==> r == Content(x)
    ensures reply.Answered? && reply.status == 200 && reply.body.files.None? ==> r == Crashed
    ensures reply.Raised? ==> r == Raise(reply.valueError, reply.message)
  {
    match reply
    case Raised(valueError, message) => Raise(valueError, message)
    case Answered(status, data) =>
      if status != 200 then Failed(data.shown)
      else
        match data.files
        case None => Crashed
        case Some(files) => Content(Join(FileSeparator, files))
  }

  /** Run the fetcher a route selects: it yields text only when its one
      request was answered with status 200, and for the three text fetchers
      that text is the reply's body; any other status is the `ValueError`
      naming it, and an exception from the client passes through. */
  function FetchRoute(route: Route, net: Network): (r: Fetched)
    ensures RequestFor(route).Get? ==>
              (r.Content? <==> net.text(RequestFor(route).url).Answered?
                               && net.text(RequestFor(route).url).status == 200)
    ensures RequestFor(route).Get? && r.Content? ==> net.text(RequestFor(route).url) == Answered(200, r.text)
    ensures route.Gist? && r.Content? ==>
              net.json(RequestFor(route).url).Answered? && net.json(RequestFor(route).url).status == 200
    ensures RequestFor(route).Get? && net.text(RequestFor(route).url).Answered?
              && net.text(RequestFor(route).url).status != 200 ==>
              r == Failed(StatusError(net.text(RequestFor(route).url).status))
    ensures RequestFor(route).Get? && net.text(RequestFor(route).url).Raised? ==>
              r == Raise(net.text(RequestFor(route).url).valueError, net.text(RequestFor(route).url).message)
    ensures route.Gist? ==> r == GistContents(net.json(RequestFor(route).url))
  {
    match RequestFor(route)
    case GetJson(url) => GistContents(net.json(url))
    case Get(url) => UrlContents(net.text(url))
  }

  /** The error message names the status: it reads "Error: " followed by
      the status in decimal. */
  lemma StatusErrorNamesStatus(status: int)
    ensures var m := StatusError(status);
            && m[..7] == "Error: "
            && (status < 0 <==> m[7] == '-')
            && (status >= 0 ==> ValueOf(m[7..]) == status)
            && (status < 0 ==> ValueOf(m[8..]) == -status)
  {
    var m := StatusError(status);
    var t := IntText(status);
    assert m[7..] == t;
    if status < 0 {
      assert m[8..] == t[1..];
    }
  }
}
