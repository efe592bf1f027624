/** What `on_message` does, end to end: which commands it answers, what it
    fetches and what reaches the channel. */
module Handling {
  import opened Text
  import opened Urls
  import opened UrlShapes
  import opened Fetch
  import opened Rewrites
  import opened Sender
  import opened Bot

  /** The command word followed by a URL: the URL, less its angle brackets,
      is the target, unless an attachment supplies one first. */
  lemma CommandTarget(m: Message, cfg: Config, word: string, sep: string, url: string)
    requires !m.authorIsBot && m.botCanSend
    requires m.content == cfg.prefix + word + sep + url
    requires IsToken(word) && IsCommand(word) && |sep| > 0 && AllSpace(sep) && IsToken(url)
    ensures |m.attachments| == 0 ==> Target(m, cfg) == Some(Strip(url, IsAngle))
    ensures |m.attachments| > 0 && m.attachments[0] != "" ==> Target(m, cfg) == Some(Strip(m.attachments[0], IsAngle))
  {
    assert m.content[|cfg.prefix|..] == word + sep + url;
    WordsFront(word, sep, url);
    WordsOfWord(url);
    var args := Arguments(m, cfg);
    assert args == [word, url];
    assert Admitted(m, cfg) && |args| > 1 && IsCommand(args[0]);
  }

  /** The command word alone: only an attachment gives a target. */
  lemma CommandAlone(m: Message, cfg: Config, word: string)
    requires !m.authorIsBot && m.botCanSend
    requires m.content == cfg.prefix + word
    requires IsToken(word) && IsCommand(word)
    ensures |m.attachments| == 0 ==> Target(m, cfg).None?
    ensures |m.attachments| > 0 && m.attachments[0] != "" ==> Target(m, cfg) == Some(Strip(m.attachments[0], IsAngle))
  {
    assert m.content[|cfg.prefix|..] == word;
    WordsOfWord(word);
    var args := Arguments(m, cfg);
    assert args == [word];
    assert Admitted(m, cfg) && |args| == 1 && IsCommand(args[0]);
  }

  /** Once a URL has been recognised, the one request is made, and the
      sends are those of `send_message` on the formatted result, chunk by
      chunk as `Relays` describes; nothing is sent for empty content or an
      exception other than `ValueError`. */
  lemma HandleSends(m: Message, cfg: Config, net: Network,
                    markdown: string -> string, mentions: string -> string,
                    channel: Channel, url: string, route: Route)
    requires Target(m, cfg) == Some(url) && Dispatch(url) == Some(route)
    ensures var e := HandleMessage(m, cfg, net, markdown, mentions, channel);
            && e.requests == [RequestFor(route)]
            && (Unpacked(FetchRoute(route, net)).None? ==> e.attempts == [])
            && (Unpacked(FetchRoute(route, net)).Some? ==>
                  var text := Format(Unpacked(FetchRoute(route, net)).value, CharLimit(m, cfg), markdown, mentions);
                  && e.attempts == SendMessage(text, 0, channel).attempts
                  && Relays(Chunks(text), SendMessage(text, 0, channel))
                  && Heeds(SendMessage(text, 0, channel), 0, channel))
  {
    match Unpacked(FetchRoute(route, net))
    case None =>
    case Some(relay) =>
      var text := Format(relay, CharLimit(m, cfg), markdown, mentions);
      SendMessageRelays(text, 0, channel);
  }

  /** Fetched text reaches a channel that takes every send as the text cut
      to the author's limit, markdown- and mention-escaped, in pieces of at
      most 2000 characters. */
  lemma HandleDelivers(m: Message, cfg: Config, net: Network,
                       markdown: string -> string, mentions: string -> string,
                       channel: Channel, url: string, route: Route, body: string)
    requires Target(m, cfg) == Some(url) && Dispatch(url) == Some(route)
    requires FetchRoute(route, net) == Content(body) && body != ""
    requires Delivers(channel)
    ensures var e := HandleMessage(m, cfg, net, markdown, mentions, channel);
            && e.requests == [RequestFor(route)]
            && Concat(Texts(e.attempts)) == mentions(markdown(SliceTo(body, CharLimit(m, cfg))))
            && forall i :: 0 <= i < |e.attempts| ==> e.attempts[i].error.None? && |e.attempts[i].text| <= ChunkSize
  {
    var text := mentions(markdown(SliceTo(body, CharLimit(m, cfg))));
    HandleSends(m, cfg, net, markdown, mentions, channel, url, route);
    assert HandleMessage(m, cfg, net, markdown, mentions, channel).attempts == SendMessage(text, 0, channel).attempts;
    SendAllDelivered(text, 0, channel);
  }

  /** A `ValueError` raised while fetching reaches the channel as its
      message in a code fence, cut to the limit, mention-escaped but never
      markdown-escaped. */
  lemma HandleReportsError(m: Message, cfg: Config, net: Network,
                           markdown: string -> string, mentions: string -> string,
                           channel: Channel, url: string, route: Route, message: string)
    requires Target(m, cfg) == Some(url) && Dispatch(url) == Some(route)
    requires FetchRoute(route, net) == Failed(message)
    requires Delivers(channel)
    ensures var e := HandleMessage(m, cfg, net, markdown, mentions, channel);
            Concat(Texts(e.attempts)) == mentions(SliceTo(Fence(message), CharLimit(m, cfg)))
  {
    var text := mentions(SliceTo(Fence(message), CharLimit(m, cfg)));
    assert HandleMessage(m, cfg, net, markdown, mentions, channel).attempts == SendMessage(text, 0, channel).attempts;
    SendAllDelivered(text, 0, channel);
  }

  /** A text fetch answered with a status other than 200 reaches the
      channel as `Error: <status>` in a code fence, cut to the limit and
      mention-escaped but not markdown-escaped. */
  lemma HandleReportsStatus(m: Message, cfg: Config, net: Network,
                            markdown: string -> string, mentions: string -> string,
                            channel: Channel, url: string, route: Route, status: int, body: string)
    requires Target(m, cfg) == Some(url) && Dispatch(url) == Some(route)
    requires RequestFor(route).Get? && net.text(RequestFor(route).url) == Answered(status, body) && status != 200
    requires Delivers(channel)
    ensures var e := HandleMessage(m, cfg, net, markdown, mentions, channel);
            && e.requests == [RequestFor(route)]
            && Concat(Texts(e.attempts)) == mentions(SliceTo(Fence(StatusError(status)), CharLimit(m, cfg)))
  {
    assert FetchRoute(route, net) == Failed(StatusError(status));
    HandleReportsError(m, cfg, net, markdown, mentions, channel, url, route, StatusError(status));
  }

  /** The gate of bot.py: a message from a bot, in a channel the bot cannot
      write to, with empty content or without the prefix causes nothing. */
  lemma GateRejects(m: Message, cfg: Config, net: Network,
                    markdown: string -> string, mentions: string -> string, channel: Channel)
    requires m.authorIsBot || !m.botCanSend || m.content == "" || !(cfg.prefix <= m.content)
    ensures HandleMessage(m, cfg, net, markdown, mentions, channel) == Effect([], [])
  {
  }

  /** Empty content, and an exception other than `ValueError`, end the
      handler after its request without any send. */
  lemma HandleQuiet(m: Message, cfg: Config, net: Network,
                    markdown: string -> string, mentions: string -> string,
                    channel: Channel, url: string, route: Route)
    requires Target(m, cfg) == Some(url) && Dispatch(url) == Some(route)
    requires FetchRoute(route, net) == Content("") || FetchRoute(route, net).Crashed?
    ensures HandleMessage(m, cfg, net, markdown, mentions, channel) == Effect([RequestFor(route)], [])
  {
  }

  /** The character limit cuts from the start: with escaping that changes
      nothing, what reaches the channel is the first `limit` characters of
      the fetched text, or all of it when it is shorter. */
  lemma HandleTruncates(m: Message, cfg: Config, net: Network,
                        channel: Channel, url: string, route: Route, body: string)
    requires Target(m, cfg) == Some(url) && Dispatch(url) == Some(route)
    requires FetchRoute(route, net) == Content(body) && body != ""
    requires Delivers(channel) && CharLimit(m, cfg) >= 0
    ensures var e := HandleMessage(m, cfg, net, Keep, Keep, channel);
            var sent := Concat(Texts(e.attempts));
            && e.requests == [RequestFor(route)]
            && sent <= body
            && |sent| == if CharLimit(m, cfg) < |body| then CharLimit(m, cfg) else |body|
  {
    HandleDelivers(m, cfg, net, Keep, Keep, channel, url, route, body);
  }

  lemma FetchFile(url: string, net: Network, body: string)
    requires net.text(url) == Answered(200, body)
    ensures FetchRoute(File(url), net) == Content(body)
  {
  }

  lemma FetchPaste(base: string, id: string, net: Network, body: string)
    requires net.text(base + "raw/" + id) == Answered(200, body)
    ensures FetchRoute(Paste(base, id), net) == Content(body)
  {
  }

  /** A paste-host URL is one token that does not start or end with an
      angle bracket. */
  lemma PasteUrlToken(scheme: string, host: string, id: string)
    requires IsScheme(scheme) && (host == HastebinHost || host == PastebinHost)
    requires |id| > 0 && AllWord(id)
    ensures var url := scheme + host + id;
            IsToken(url) && !IsAngle(url[0]) && !IsAngle(url[|url| - 1])
  {
    var url := scheme + host + id;
    forall i | 0 <= i < |url| ensures NotSpace(url[i]) {
      if i < |scheme + host| {
        assert url[i] == (scheme + host)[i];
      } else {
        assert url[i] == id[i - |scheme + host|];
      }
    }
    assert url[|url| - 1] == id[|id| - 1];
  }

  /** `<prefix>extract https://pastebin.com/<id>` (or `unpack`, or
      hastebin, in any letter case of the command word) makes one GET of the
      paste's raw form, and a 200 reply reaches a channel that takes every
      send as the reply cut to the author's limit and escaped. */
  lemma PasteCommand(m: Message, cfg: Config, net: Network,
                     markdown: string -> string, mentions: string -> string, channel: Channel,
                     word: string, sep: string, scheme: string, host: string, id: string, body: string)
    requires !m.authorIsBot && m.botCanSend && |m.attachments| == 0
    requires IsToken(word) && IsCommand(word) && |sep| > 0 && AllSpace(sep)
    requires IsScheme(scheme) && (host == HastebinHost || host == PastebinHost)
    requires |id| > 0 && AllWord(id)
    requires m.content == cfg.prefix + word + sep + (scheme + host + id)
    requires net.text(scheme + host + "raw/" + id) == Answered(200, body) && body != ""
    requires Delivers(channel)
    ensures var e := HandleMessage(m, cfg, net, markdown, mentions, channel);
            && e.requests == [Get(scheme + host + "raw/" + id)]
            && Concat(Texts(e.attempts)) == mentions(markdown(SliceTo(body, CharLimit(m, cfg))))
  {
    var url := scheme + host + id;
    var route := Paste(scheme + host, id);
    PasteCommandRoute(m, cfg, word, sep, scheme, host, id);
    FetchPaste(scheme + host, id, net, body);
    HandleDelivers(m, cfg, net, markdown, mentions, channel, url, route, body);
  }

  /** The paste URL of such a command is its target, and it is routed to
      `unpack_paste` with the scheme and host as base and the id. */
  lemma PasteCommandRoute(m: Message, cfg: Config, word: string, sep: string,
                          scheme: string, host: string, id: string)
    requires |m.attachments| == 0
    requires IsToken(word) && IsCommand(word) && |sep| > 0 && AllSpace(sep)
    requires IsScheme(scheme) && (host == HastebinHost || host == PastebinHost)
    requires |id| > 0 && AllWord(id)
    requires m.content == cfg.prefix + word + sep + (scheme + host + id)
    requires !m.authorIsBot && m.botCanSend
    ensures Target(m, cfg) == Some(scheme + host + id)
    ensures Dispatch(scheme + host + id) == Some(Paste(scheme + host, id))
  {
    var url := scheme + host + id;
    assert Target(m, cfg) == Some(url) by {
      PasteUrlToken(scheme, host, id);
      CommandTarget(m, cfg, word, sep, url);
      StripKeeps(url, IsAngle);
    }
    assert Dispatch(url) == Some(Paste(scheme + host, id)) by {
      PasteFetchUrl(scheme, host, id, "");
      assert url + "" == url;
    }
  }

  /** `<prefix>unpack` with a `.txt` file attached (not on github.com): the
      file is fetched as it is, and with escaping that changes nothing the
      channel receives its first `limit` characters. */
  lemma AttachmentCommand(m: Message, cfg: Config, net: Network, channel: Channel,
                          word: string, scheme: string, name: string, body: string)
    requires !m.authorIsBot && m.botCanSend && CharLimit(m, cfg) >= 0
    requires IsToken(word) && IsCommand(word) && m.content == cfg.prefix + word
    requires IsScheme(scheme) && |name| > 0 && NoNewline(name)
    requires |m.attachments| > 0 && m.attachments[0] == scheme + name + ".txt"
    requires !(GithubHost <= name)
    requires net.text(scheme + name + ".txt") == Answered(200, body) && body != ""
    requires Delivers(channel)
    ensures var e := HandleMessage(m, cfg, net, Keep, Keep, channel);
            var sent := Concat(Texts(e.attempts));
            && e.requests == [Get(scheme + name + ".txt")]
            && sent <= body
            && |sent| == if CharLimit(m, cfg) < |body| then CharLimit(m, cfg) else |body|
  {
    var url := scheme + name + ".txt";
    var route := File(url);
    assert RequestFor(route) == Get(url);
    assert Target(m, cfg) == Some(url) by {
      assert url[0] == 'h' && url[|url| - 1] == 't';
      CommandAlone(m, cfg, word);
      StripKeeps(url, IsAngle);
    }
    assert Dispatch(url) == Some(route) by {
      assert url + "" == url;
      NotGithubHost(scheme, name, "");
      TextFileFetchUrl(scheme, name, "");
    }
    FetchFile(url, net, body);
    HandleTruncates(m, cfg, net, channel, url, route, body);
  }
}
