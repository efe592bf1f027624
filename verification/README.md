# discord-paste-unpacker, modelled in Dafny

The bot answers one chat command. A message reading `<prefix>extract <url>` or
`<prefix>unpack <url>`, or the same command with a file attached, names a
paste. The bot recognises the URL against a table of four regular expressions:
a GitHub gist page, a hastebin or pastebin page, a GitHub blob page, and any
`.txt` URL. It rewrites the URL into a raw-text (or gist API) address and
fetches it. It cuts the text to the author's character limit and escapes
markdown and mentions. It then posts the text back in 2000-character pieces.
A `ValueError` raised while fetching is posted as its message in a code fence.

The model follows `on_message`, the four fetchers, the URL table and
`send_message` of `bot.py`. The HTTP client and the chat channel are oracles.
The HTTP client is a function from URL to reply. The channel is a function from
(send number, text) to "delivered" or "raised with this error".

Modules, one file each:

- `Text` (`text.dfy`) holds the Python string operations the handler uses.
  These are `isspace`, `strip(chars)`, `split()`, `lower()`, `sep.join`, the
  slice `s[:n]` including negative `n`, `str(int)` and the error code fence.
- `Urls` (`urls.dfy`) holds the four patterns, written out by hand as
  `re.match` applies them, and the first-match dispatch over the table.
- `UrlShapes` (`url_shapes.dfy`) characterises each pattern. For each one,
  a lemma shows that URLs of a given shape match, and another shows that every
  match has that shape. It also proves how the patterns overlap.
- `Fetch` (`fetch.dfy`) holds the request each route makes and the
  fetchers' outcomes: text, a caught `ValueError`, or any other exception.
- `Rewrites` (`rewrites.dfy`) takes a URL of each shape through dispatch to
  the exact request the bot makes.
- `Sender` (`sender.dfy`) holds `send_message`: chunking, the recursion, and
  the nested `except` handlers with their fenced notices.
- `Bot` (`bot.dfy`) holds `on_message`: the gate, the command parse, the
  outcome of the fetch, the limit, the escaping and the hand-off to the sender.
- `Handling` (`handling.dfy`) holds end-to-end properties of one message.

## Model

| member | source | states |
|---|---|---|
| Text.Strip | bot.py:50 | `strip("<>")` removes the longest run of dropped characters at each end: the result is a contiguous middle part whose ends are kept characters, and it is empty exactly when every character is dropped |
| Text.StripKeeps | bot.py:50 | a URL that neither starts nor ends with `<` or `>` is left unchanged by the strip |
| Text.Words | bot.py:31-34 | `split()` yields non-empty whitespace-free tokens, and no tokens exactly when the text is all whitespace (the `if not content.strip(): return` case) |
| Text.WordsKeepText | bot.py:34 | the tokens of `split()`, glued back together, are exactly the non-whitespace characters of the input, in order |
| Text.WordsSkipSpaces | bot.py:34 | leading whitespace does not change the split |
| Text.WordsFront | bot.py:34 | a token followed by whitespace is the first item of the split, followed by the split of the rest |
| Text.WordsOfWord | bot.py:34 | a single token splits into itself |
| Text.LowerChar | bot.py:36 | `lower()` gives an ASCII lower-case letter exactly for ASCII letters and the Kelvin sign; it maps `A`-`Z` to `a`-`z`, leaves `a`-`z` as they are, and maps the Kelvin sign to `k` |
| Text.LowerSpells | bot.py:36 | a word lower-cases to a given all-lower-case ASCII word exactly when it has the same length and each character is that letter, its upper case, or (for `k`) the Kelvin sign |
| Text.Join | bot.py:110 | `"\n\n".join` of no parts is empty, of one part is that part, and in general has the parts' length plus one separator between each pair of neighbours |
| Text.JoinAppend | bot.py:110 | joining two non-empty lists is joining each and putting one separator between them |
| Text.SliceTo | bot.py:77 | `s[:n]` is a prefix of `s` of length `min(n, len(s))` for `n >= 0`, and drops the last `-n` characters for negative `n` |
| Text.IntText | bot.py:89 | `str(status)` is a minus sign for negative numbers followed by decimal digits, without leading zeros, that denote the magnitude |
| Text.DigitsRoundTrip | bot.py:89 | the decimal digits of a number read back as that number |
| Text.Fence | bot.py:67 | the fenced error text is the message between a three-backtick line and a closing three-backtick line, eight characters longer |
| Urls.MatchGist | bot.py:122 | a gist match is a gist route on a `gist.github.com/` URL; UrlShapes.GistAccepts and UrlShapes.GistParts characterise exactly which URLs match |
| Urls.MatchPaste | bot.py:123 | a paste match is a paste route on a hastebin or pastebin URL; UrlShapes.PasteAccepts and UrlShapes.PasteParts characterise exactly which URLs match |
| Urls.MatchGithub | bot.py:124 | a github match is a github route on a `github.com/` URL; UrlShapes.GithubMatches, UrlShapes.GithubAccepts and UrlShapes.GithubParts characterise which URLs match and with which groups |
| Urls.MatchTextFile | bot.py:125 | a `.txt` match is a file route; UrlShapes.TextFileAccepts and UrlShapes.TextFileParts characterise exactly which URLs match |
| Urls.SchemeLength | bot.py:122-125 | `https?://` is recognised with length 7 for `http://` and 8 for `https://`, and nothing else is recognised |
| Urls.EndAnchored | bot.py:122 | what a `$`-anchored pattern must match is the whole text or the text without its final newline |
| Urls.FirstLine | bot.py:124 | what an unanchored `.`-pattern can reach is the longest newline-free prefix |
| Urls.GistId | bot.py:122 | the gist id group is a proper suffix of the text after the host |
| Urls.LastSplit | bot.py:124 | the split point found for `(.+\/.+)\/blob(\/.+\/.+)` is a valid split, and no later position is one; none is found exactly when no position works |
| Urls.GithubGroups | bot.py:124 | the two github groups, with `/blob` between them, rebuild the whole first line after the host |
| Urls.FirstMatch | bot.py:54-68 | the loop with its `break` selects the first pattern that matches: every earlier pattern fails, and none is selected only when all fail |
| Urls.Dispatch | bot.py:54-68 | a URL is left without a route exactly when no pattern of the table matches it |
| Urls.DispatchOrder | bot.py:121-126 | gist wins over all others, then paste host, then github blob, then `.txt` |
| UrlShapes.GistAccepts | bot.py:122 | every `http(s)://gist.github.com/<owner>/<hex id>` URL, with or without a final newline, matches with the hex id as its group |
| UrlShapes.GistParts | bot.py:122 | every gist match has that shape: scheme, host, a non-empty newline-free owner part, `/`, a non-empty hex id, then at most a newline |
| UrlShapes.GistIdParts | bot.py:122 | a found gist id is all hex and is preceded by `/` and a non-empty newline-free owner part |
| UrlShapes.PasteAccepts | bot.py:123 | every hastebin or pastebin URL followed by a non-empty run of word characters matches, with the scheme and host as the first group and the run as the second |
| UrlShapes.PasteParts | bot.py:123 | every paste match has that shape |
| UrlShapes.GithubAccepts | bot.py:124 | a github blob URL whose path holds no further `/blob` matches with the `owner/repo` part and the `/branch/file` path as its groups, whatever follows on later lines |
| UrlShapes.GithubMatches | bot.py:124 | every github blob URL matches, including one whose path holds a further `/blob`; the first group extends the repo part and the second is a suffix of the path |
| UrlShapes.GithubSplitsAtLastBlob | bot.py:124 | when the path holds a further `/blob`, the split moves to the last one: the first group takes in everything before it, and the second group is only the part after it |
| UrlShapes.GithubParts | bot.py:124 | every github match has the shape scheme, host, repo part, `/blob`, path, rest-of-text, and its split is the last possible one |
| UrlShapes.GithubGroupsAccept | bot.py:124 | with no `/blob` in the path, the groups are exactly the repo part and the path |
| UrlShapes.TextFileAccepts | bot.py:125 | every `http(s)://<non-empty name>.txt` URL, with or without a final newline, matches, and its group is the URL without that newline |
| UrlShapes.TextFileParts | bot.py:125 | every `.txt` match has that shape |
| UrlShapes.HostsExclusive | bot.py:121-126 | a gist URL is never a paste or github URL, and a paste URL is never a github URL, so their order in the table does not matter |
| UrlShapes.TextFileNotGistOrPaste | bot.py:121-126 | a `.txt` URL is never taken by the gist or paste patterns |
| UrlShapes.NotGithubHost | bot.py:124 | a `.txt` URL whose host part does not start with `github.com/` never matches the github pattern |
| UrlShapes.GithubBeatsTextFile | bot.py:121-126 | a URL matching the github pattern goes to `unpack_github`, even when it also ends in `.txt` |
| UrlShapes.RouteKinds | bot.py:121-126 | a URL is sent to `unpack_url_file` only when the github pattern fails, and every `.txt` match is routed either as a file or as a github blob |
| Fetch.StatusError | bot.py:89 | the status error starts with `Error: ` and is longer than that; Fetch.StatusErrorNamesStatus states that the status can be read back |
| Fetch.RequestFor | bot.py:93-118 | only gist routes make a JSON request; the other three fetchers make a text GET |
| Fetch.UrlContents | bot.py:85-90 | the result is text exactly when the reply has status 200, and that text is the body; any other status is a `ValueError` reading `Error: <status>`; an exception from the client passes through |
| Fetch.StatusErrorNamesStatus | bot.py:89 | the status error starts with `Error: ` and the status can be read back from the rest |
| Fetch.GistContents | bot.py:103-112 | the result is text exactly when the status is 200 and the `files` lookup succeeds, and that text is every file's content joined with a blank line; a non-200 status raises a `ValueError` carrying the decoded document; no files gives empty text, one file gives its content; a 200 reply whose `files` lookup fails ends the handler; an exception from the client passes through |
| Fetch.FetchRoute | bot.py:93-118 | a text-GET route yields text exactly when the client answers its URL with status 200, and that text is the body; any other status is the `ValueError` `Error: <status>`, and an exception from the client passes through; a gist route's outcome is that of `unpack_gist` on the reply to its JSON request |
| Rewrites.GistFetchUrl | bot.py:103-104 | a gist page URL leads to the JSON request `https://api.github.com/gists/<id>` |
| Rewrites.PasteFetchUrl | bot.py:97-100 | a paste page URL leads to the GET of `<scheme><host>raw/<id>` |
| Rewrites.GithubFetchUrl | bot.py:115-118 | a github blob URL whose path holds no further `/blob` leads to the GET of `https://raw.githubusercontent.com/<repo><path>` |
| Rewrites.GithubRequestShape | bot.py:115-118 | every URL routed to `unpack_github` is scheme, `github.com/`, repo, `/blob`, path, rest, and its request is the raw-host URL of repo and path |
| Rewrites.TextFileFetchUrl | bot.py:93-94 | a `.txt` URL the github pattern does not take leads to the GET of the URL itself, less any final newline |
| Sender.Chunks | bot.py:132-134 | the pieces rebuild the text; each is at most 2000 characters and all but the last exactly 2000; there is one piece per started 2000 characters and one for the empty text |
| Sender.SendMessage | bot.py:129-147 | the first send carries the first piece |
| Sender.FirstFailure | bot.py:137 | every send before the first failed one was delivered |
| Sender.SendMessageHeeds | bot.py:131-138 | every send, the `i`-th being send number `k + i`, is recorded as failed exactly when the channel raised on it, with the channel's error |
| Sender.SendMessageRelays | bot.py:129-147 | each send ends as the channel answered it; the sends are the pieces in order up to the first one the channel raised on; after it, each send is the fenced notice of the error before it; there are at most as many notices as pending frames; an exception escapes only when every frame's notice also failed |
| Sender.RelaysFirstFails | bot.py:137-138 | a frame whose own send raised answers with the fenced notice of that error |
| Sender.RelaysRestRaised | bot.py:134-138 | when an exception escapes the recursive call, the frame sends one more fenced notice of it |
| Sender.SendAllDelivered | bot.py:129-136 | on a channel that delivers everything, the sends are exactly the pieces, rebuild the whole text, are each at most 2000 characters, and nothing escapes |
| Bot.Admitted | bot.py:22-28 | only a message from a human author, in a channel the bot can write to, with non-empty content that starts with the prefix is admitted; an admitted message is the prefix followed by the rest; a message that is only the prefix is admitted exactly when the prefix is non-empty and the author and channel pass; with an empty prefix every non-empty human message in a writable channel is admitted |
| Bot.IsCommand | bot.py:36 | a command word has six or seven characters; Bot.CommandSpelling gives the exact spellings |
| Bot.CommandSpelling | bot.py:36 | a word is a command exactly when it spells `extract` or `unpack` letter by letter, each letter in either case, with the Kelvin sign allowed for `k`; no longer or shorter word is one |
| Bot.CommandExamples | bot.py:36 | `Extract` and `UNPACK` are commands, and `extracts` is not |
| Bot.Target | bot.py:22-50 | a target exists only for an admitted command message (`extract` or `unpack` in any case); it is the first attachment's URL when there is one, otherwise the second word, with `<` and `>` stripped; it exists exactly when that URL is non-empty |
| Bot.Unpacked | bot.py:52-71 | nothing is sent exactly for empty content or an exception other than `ValueError`; a `ValueError` is sent as its message in a code fence, without markdown escaping; non-empty content is sent with markdown escaping |
| Bot.CharLimit | bot.py:73-75 | the manage-messages limit applies exactly to authors who may manage messages, the normal one to everyone else; the limit is always one of the two, and lies between them when they are configured in order |
| Bot.FormatOrder | bot.py:77-80 | mention escaping is applied last, to the text otherwise formatted; on a path that does not ask for markdown escaping, the markdown escaper has no effect; with escapers that change nothing, the result is a prefix of the relayed text of length `min(limit, len(text))` for a non-negative limit; Bot.Format itself only spells out the composition |
| Bot.HandleMessage | bot.py:21-82 | a message that fails the gate causes nothing; at most one request is made, exactly when a target exists and matches a pattern, and it is that route's request; nothing is sent without a request |
| Handling.CommandTarget | bot.py:30-50 | `<prefix><command> <url>` targets the URL less its angle brackets, unless a non-empty attachment URL takes precedence |
| Handling.CommandAlone | bot.py:42-48 | the command word alone has a target only through an attachment |
| Handling.HandleSends | bot.py:52-82 | once a URL is routed, the one request is made and the sends are those of `send_message` on the formatted text, in the order `Relays` describes, each ending as the channel answered it; empty content and other exceptions send nothing |
| Handling.HandleDelivers | bot.py:70-82 | on a channel that delivers everything, fetched text arrives cut to the author's limit, markdown- and mention-escaped, in pieces of at most 2000 characters |
| Handling.HandleReportsError | bot.py:59-67 | a `ValueError` arrives as its fenced message, cut to the limit and mention-escaped but never markdown-escaped |
| Handling.HandleReportsStatus | bot.py:59-90 | a text fetch answered with a status other than 200 makes its one request and arrives as `Error: <status>` in a code fence, cut to the limit and mention-escaped, not markdown-escaped |
| Handling.HandleQuiet | bot.py:70-71 | empty content, and an exception other than `ValueError`, end the handler after its one request without any send |
| Handling.GateRejects | bot.py:22-28 | a message from a bot, in a channel the bot cannot write to, with empty content or without the prefix makes no request and no send |
| Handling.HandleTruncates | bot.py:73-77 | with escaping that changes nothing, what arrives is a prefix of the fetched text of length `min(limit, len(text))` |
| Handling.PasteCommand | bot.py:97-100 | `<prefix>extract https://pastebin.com/<id>` (or `unpack`, or hastebin, in any letter case) makes exactly one GET of `<scheme><host>raw/<id>`, and a 200 reply arrives cut to the limit and escaped |
| Handling.AttachmentCommand | bot.py:42-43 | `<prefix>unpack` with a `.txt` attachment not on github.com fetches the attachment URL itself, and with escaping that changes nothing the channel receives a prefix of the file of length `min(limit, len(file))` |

## Left out

- The chat client, the HTTP session, `on_ready`, logging to standard output and error, tracebacks, and `bot.run` are I/O. The web and the channel are oracle parameters. `print` calls have no effect in the model.
- A message in a direct-message channel has no guild, and the gate would raise there. The model takes the bot's send permission as a given boolean.
- `config.json` loading is not modelled. The prefix and the two limits are a `Config` value. Nothing requires the elevated limit to be at least the normal one, because the code does not require it.
- `discord.utils.escape_markdown` and `escape_mentions` are library code. They are arbitrary `string -> string` parameters, and every property holds for all of them.
- Asynchrony is not modelled. One message is handled from start to end.
- The regular expressions are written out by hand per pattern, not through a general regex engine. `\w` is ASCII `[A-Za-z0-9_]` only; Python's Unicode word characters are not modelled.
- Text.LowerChar: `lower()` is exact for ASCII letters and the Kelvin sign, the only characters whose lower case can spell `extract` or `unpack`. Other characters are mapped to themselves, not to their Python lower case.
- The gist JSON document is modelled only as far as the handler reads it. That means the list of file contents, or a failed lookup, plus the document's text form. A failed `data["files"]` lookup raises `KeyError` or `TypeError`, which ends the handler, so it is not a `ValueError`; Fetch.GistContents states this as `Crashed`.
- Text decoding and JSON decoding failures are part of the client oracle's reply (`Raised` with `valueError`). The body is decoded before the status is checked, so a decoding error wins over a bad status.
- UrlShapes.GithubAccepts: gives the groups exactly only for paths without a further `/blob`. UrlShapes.GithubMatches shows that a URL with one still matches. UrlShapes.GithubSplitsAtLastBlob shows that the split then moves to the last `/blob`, so the raw file fetched is not the one the URL names.
- Handling.AttachmentCommand: stated only for names not starting with `github.com/`. On that host the github pattern can take the URL first (UrlShapes.GithubBeatsTextFile).
- `bot.py` has no redirect-following step and no pattern for raw paste or raw GitHub URLs; an unmatched URL ends the handler silently.
- Escaping happens after truncation (bot.py:77-80), so the sent text can be longer than the limit; Handling.HandleDelivers states this, and Handling.HandleTruncates states the limit only for identity escapers.
