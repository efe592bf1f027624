/** `on_message` of bot.py: the gate, the command parse, the dispatch over
    the URL table, the error fence, the character limit, the escaping and
    the hand-off to `send_message`. */
module Bot {
  import opened Text
  import opened Urls
  import opened Fetch
  import opened Sender

  /** The parts of a chat message (and of its channel's permissions) the
      handler reads. */
  datatype Message = Message(
    authorIsBot: bool,           // message.author.bot
    botCanSend: bool,            // the bot's send_messages permission in the channel
    authorManagesMessages: bool, // the author's manage_messages permission in the channel
    content: string,
    attachments: seq<string>)    // the URL of each attachment, in order

  /** `config.json` as far as the handler reads it. */
  datatype Config = Config(prefix: string, normalLimit: int, manageLimit: int)

  /** The early return of the first `if`: messages from bots, channels the
      bot cannot write to, empty messages and messages without the prefix
      are ignored. */
  function Admitted(m: Message, cfg: Config): (b: bool)
    ensures b ==> !m.authorIsBot && m.botCanSend && m.content != "" && cfg.prefix <= m.content
    ensures b ==> |cfg.prefix| <= |m.content| && m.content == cfg.prefix + m.content[|cfg.prefix|..]
    ensures m.content == cfg.prefix ==> (b <==> !m.authorIsBot && m.botCanSend && cfg.prefix != "")
    ensures !m.authorIsBot && m.botCanSend && m.content != "" && cfg.prefix == "" ==> b
  {
    !m.authorIsBot && m.botCanSend && |m.content| > 0 && cfg.prefix <= m.content
  }

  /** The text after the prefix, split on whitespace. */
  function Arguments(m: Message, cfg: Config): seq<string>
    requires Admitted(m, cfg)
  {
    Words(m.content[|cfg.prefix|..])
  }

  /** `content[0].lower() in ("extract", "unpack")` */
  function IsCommand(word: string): (b: bool)
    ensures b ==> |word| == 6 || |word| == 7
  {
    Lower(word) == "extract" || Lower(word) == "unpack"
  }

  /** The command words are `extract` and `unpack` in any mix of letter
      cases, with the Kelvin sign allowed for `k`, and nothing else: in
      particular no longer or shorter word. */
  lemma CommandSpelling(w: string)
    ensures IsCommand(w) <==>
              || (|w| == 7 && forall i :: 0 <= i < 7 ==> LowersTo(w[i], "extract"[i]))
              || (|w| == 6 && forall i :: 0 <= i < 6 ==> LowersTo(w[i], "unpack"[i]))
  {
    LowerSpells(w, "extract");
    LowerSpells(w, "unpack");
  }

  /** `Extract` and `UNPACK` are commands; `extracts` is not. */
  lemma CommandExamples()
    ensures IsCommand("Extract") && IsCommand("UNPACK") && !IsCommand("extracts")
  {
    CommandSpelling("Extract");
    CommandSpelling("UNPACK");
    CommandSpelling("extracts");
  }

  predicate IsAngle(c: char) { c == '<' || c == '>' }

  /** The URL the command names: the first attachment's URL when there is an
      attachment, the second word otherwise, with `<` and `>` stripped from
      both ends. None when the handler returns before fetching anything. */
  function Target(m: Message, cfg: Config): (r: Option<string>)
    ensures r.Some? ==> Admitted(m, cfg) && |Arguments(m, cfg)| > 0 && IsCommand(Arguments(m, cfg)[0])
    ensures r.Some? && |m.attachments| > 0 ==> r.value == Strip(m.attachments[0], IsAngle)
    ensures r.Some? && |m.attachments| == 0 ==>
              |Arguments(m, cfg)| > 1 && r.value == Strip(Arguments(m, cfg)[1], IsAngle)
    ensures r.Some? && |r.value| > 0 ==> !IsAngle(r.value[0]) && !IsAngle(r.value[|r.value| - 1])
    ensures Admitted(m, cfg) && |Arguments(m, cfg)| > 0 && IsCommand(Arguments(m, cfg)[0]) ==>
              (r.Some? <==> (if |m.attachments| > 0 then m.attachments[0] != "" else |Arguments(m, cfg)| > 1))
  {
    if !Admitted(m, cfg) then None
    else
      var words := Arguments(m, cfg);
      if |words| == 0 || !IsCommand(words[0]) then None
      else
        var url := if |m.attachments| > 0 then m.attachments[0]
                   else if |words| > 1 then words[1]
                   else "";
        if url == "" then None else Some(Strip(url, IsAngle))
  }

  /** An escaping function that changes nothing. */
  function Keep(t: string): string { t }

  /** What the handler goes on to send, before truncation and escaping, and
      whether markdown in it is to be escaped. */
  datatype Relay = Relay(text: string, escapeMarkdown: bool)

  /** The outcome of the fetch as the handler takes it: a caught
      `ValueError` becomes its message in a code fence, sent without
      markdown escaping; empty content and any other exception end the
      handler without a word. */
  function Unpacked(f: Fetched): (r: Option<Relay>)
    ensures r.None? <==> f == Content("") || f.Crashed?
    ensures f.Failed? ==> r == Some(Relay(Fence(f.message), false))
    ensures f.Content? && f.text != "" ==> r == Some(Relay(f.text, true))
    ensures r.Some? ==> |r.value.text| > 0
  {
    match f
    case Crashed => None
    case Failed(message) => Some(Relay(Fence(message), false))
    case Content(text) => if text == "" then None else Some(Relay(text, true))
  }

  /** The character limit: the manage-messages allowance for authors who
      may manage messages in the channel, the normal one for everyone else. */
  function CharLimit(m: Message, cfg: Config): (n: int)
    ensures m.authorManagesMessages ==> n == cfg.manageLimit
    ensures !m.authorManagesMessages ==> n == cfg.normalLimit
    ensures n == cfg.normalLimit || n == cfg.manageLimit
    ensures cfg.normalLimit <= cfg.manageLimit ==> cfg.normalLimit <= n <= cfg.manageLimit
  {
    if m.authorManagesMessages then cfg.manageLimit else cfg.normalLimit
  }

  /** Truncate to the limit, escape markdown unless the text is an error
      fence, and always escape mentions. */
  function Format(relay: Relay, limit: int, markdown: string -> string, mentions: string -> string): (r: string)
    ensures relay.escapeMarkdown ==> r == mentions(markdown(SliceTo(relay.text, limit)))
    ensures !relay.escapeMarkdown ==> r == mentions(SliceTo(relay.text, limit))
  {
    var cut := SliceTo(relay.text, limit);
    mentions(if relay.escapeMarkdown then markdown(cut) else cut)
  }

  /** Mention escaping comes last, after everything else; the markdown
      escaper plays no part for an error fence; and what is escaped is the
      first `limit` characters of the relayed text. */
  lemma FormatOrder(relay: Relay, limit: int, markdown: string -> string, mentions: string -> string)
    ensures Format(relay, limit, markdown, mentions) == mentions(Format(relay, limit, markdown, Keep))
    ensures !relay.escapeMarkdown ==> Format(relay, limit, markdown, mentions) == Format(relay, limit, Keep, mentions)
    ensures 0 <= limit ==>
              var r := Format(relay, limit, Keep, Keep);
              && r <= relay.text
              && |r| == if limit < |relay.text| then limit else |relay.text|
  {
  }

  /** What one message causes: the requests made to the web (at most one)
      and the sends attempted on the channel. */
  datatype Effect = Effect(requests: seq<Request>, attempts: seq<Attempt>)

  /** `on_message`. The web and the chat channel are oracles, and the two
      escaping functions of the chat library are parameters. */
  function HandleMessage(m: Message, cfg: Config, net: Network,
                         markdown: string -> string, mentions: string -> string,
                         channel: Channel): (e: Effect)
    ensures !Admitted(m, cfg) ==> e == Effect([], [])
    ensures |e.requests| <= 1
    ensures |e.requests| == 1 <==> Target(m, cfg).Some? && Dispatch(Target(m, cfg).value).Some?
    ensures |e.requests| == 1 ==> e.requests[0] == RequestFor(Dispatch(Target(m, cfg).value).value)
    ensures |e.requests| == 0 ==> e.attempts == []
  {
    match Target(m, cfg)
    case None => Effect([], [])
    case Some(url) =>
      match Dispatch(url)
      case None => Effect([], [])
      case Some(route) =>
        var request := RequestFor(route);
        match Unpacked(FetchRoute(route, net))
        case None => Effect([request], [])
        case Some(relay) =>
          var text := Format(relay, CharLimit(m, cfg), markdown, mentions);
          Effect([request], SendMessage(text, 0, channel).attempts)
  }
}
