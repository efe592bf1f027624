/** `send_message` of bot.py: text longer than the platform's message limit
    goes out as consecutive 2000-character pieces, one send per piece, by
    recursion; a failed send is answered with a fenced error notice to the
    same channel. */
module Sender {
  import opened Text

  /** The largest message the chat platform takes in one send. */
  const ChunkSize: nat := 2000

  /** The pieces `send_message` sends when nothing fails. */
  function Chunks(s: string): (cs: seq<string>)
    ensures |cs| >= 1
    ensures Concat(cs) == s
    ensures forall i :: 0 <= i < |cs| ==> |cs[i]| <= ChunkSize
    ensures forall i :: 0 <= i < |cs| - 1 ==> |cs[i]| == ChunkSize
    ensures |cs| == 1 <==> |s| <= ChunkSize
    ensures |cs| == if |s| == 0 then 1 else (|s| + ChunkSize - 1) / ChunkSize
    decreases |s|
  {
    if |s| > ChunkSize then
      var rest := Chunks(s[ChunkSize..]);
      assert ([s[..ChunkSize]] + rest)[1..] == rest;
      assert s == s[..ChunkSize] + s[ChunkSize..];
      [s[..ChunkSize]] + rest
    else [s]
  }

  /** The chat channel: whether the `k`-th send of this handler, with the
      given text, is delivered (None) or raises (Some(error text)). */
  type Channel = (nat, string) -> Option<string>

  /** One call of `dest.send`. */
  datatype Attempt = Attempt(text: string, error: Option<string>)

  /** Every send attempted, and the exception `send_message` lets escape. */
  datatype Sent = Sent(attempts: seq<Attempt>, raised: Option<string>)

  /** The `except` branch of the frame whose first send was number `k` and
      which has already attempted `done`: send the fenced notice; if that
      send raises too, the exception leaves this frame. */
  function Recover(done: seq<Attempt>, error: string, k: nat, channel: Channel): Sent {
    var notice := Fence(error);
    var outcome := channel(k + |done|, notice);
    Sent(done + [Attempt(notice, outcome)], outcome)
  }

  /** `send_message(dest, content)` whose first send is number `k`. */
  function SendMessage(content: string, k: nat, channel: Channel): (r: Sent)
    ensures |r.attempts| >= 1
    ensures r.attempts[0].text == Chunks(content)[0]
    decreases |content|
  {
    if |content| > ChunkSize then
      var head := content[..ChunkSize];
      var first := Attempt(head, channel(k, head));
      if first.error.Some? then Recover([first], first.error.value, k, channel)
      else
        var rest := SendMessage(content[ChunkSize..], k + 1, channel);
        if rest.raised.Some? then Recover([first] + rest.attempts, rest.raised.value, k, channel)
        else Sent([first] + rest.attempts, None)
    else
      var only := Attempt(content, channel(k, content));
      if only.error.Some? then Recover([only], only.error.value, k, channel)
      else Sent([only], None)
  }

  function Texts(a: seq<Attempt>): (ts: seq<string>)
    ensures |ts| == |a|
    ensures forall i :: 0 <= i < |a| ==> ts[i] == a[i].text
  {
    seq(|a|, i requires 0 <= i < |a| => a[i].text)
  }

  /** Position of the first send that raised, `|a|` when none did. */
  function FirstFailure(a: seq<Attempt>): (f: nat)
    ensures f <= |a|
    ensures forall i :: 0 <= i < f ==> a[i].error.None?
    ensures f < |a| ==> a[f].error.Some?
  {
    if |a| == 0 || a[0].error.Some? then 0 else 1 + FirstFailure(a[1..])
  }

  /** What `send_message` does with `chunks`: it sends them in order until
      one raises; from then on every send is a fenced notice quoting the
      error of the send before it, at most one notice per pending frame
      (frames 0 to f), and the chain stops at the first notice that gets
      through; an exception escapes only when every frame's notice failed. */
  ghost predicate Relays(chunks: seq<string>, r: Sent) {
    var a := r.attempts;
    var f := FirstFailure(a);
    && |a| >= 1
    && (f == |a| ==> Texts(a) == chunks && r.raised.None?)
    && (f < |a| ==>
          && f < |chunks|
          && Leads(a, chunks, f)
          && 2 <= |a| - f <= f + 2
          && Chained(a, f)
          && r.raised == a[|a| - 1].error
          && (|a| - f < f + 2 ==> r.raised.None?))
  }

  /** The sends up to and including `f` carried the chunks up to `f`. */
  ghost predicate Leads(a: seq<Attempt>, chunks: seq<string>, f: nat)
    requires f < |a| && f < |chunks|
  {
    forall i :: 0 <= i <= f ==> a[i].text == chunks[i]
  }

  /** From `f` on, every send raised and the next one is the fenced notice
      of its error. */
  ghost predicate Chained(a: seq<Attempt>, f: nat) {
    forall i :: f <= i < |a| - 1 ==> a[i].error.Some? && a[i + 1].text == Fence(a[i].error.value)
  }

  /** A notice answering the last failed send extends the chain. */
  lemma ChainedExtend(a: seq<Attempt>, f: nat, notice: Attempt)
    requires Chained(a, f) && f < |a| && a[|a| - 1].error.Some?
    requires notice.text == Fence(a[|a| - 1].error.value)
    ensures Chained(a + [notice], f)
  {
    var b := a + [notice];
    forall i | f <= i < |b| - 1
      ensures b[i].error.Some? && b[i + 1].text == Fence(b[i].error.value)
    {
      if i < |a| - 1 {
        assert b[i] == a[i] && b[i + 1] == a[i + 1];
      } else {
        assert b[i] == a[|a| - 1];
      }
    }
  }

  lemma FirstFailureSkips(first: Attempt, a: seq<Attempt>)
    requires first.error.None?
    ensures FirstFailure([first] + a) == 1 + FirstFailure(a)
  {
    assert ([first] + a)[1..] == a;
  }

  lemma {:induction false} FirstFailureKeeps(a: seq<Attempt>, b: seq<Attempt>)
    requires FirstFailure(a) < |a|
    ensures FirstFailure(a + b) == FirstFailure(a)
  {
    if a[0].error.None? {
      assert (a + b)[1..] == a[1..] + b;
      FirstFailureKeeps(a[1..], b);
    }
  }

  /** The first send of a frame raised: one notice follows. */
  lemma RelaysFirstFails(chunks: seq<string>, first: Attempt, k: nat, channel: Channel)
    requires |chunks| > 0 && first.text == chunks[0] && first.error.Some?
    ensures Relays(chunks, Recover([first], first.error.value, k, channel))
  {
    var r := Recover([first], first.error.value, k, channel);
    assert FirstFailure(r.attempts) == 0;
  }

  /** Putting one delivered send in front of a relay keeps the relay's
      failure pattern, shifted by one: first the sends up to the failure, */
  lemma RelaysShiftHead(tail: seq<string>, first: Attempt, rest: Sent)
    requires first.error.None? && Relays(tail, rest)
    requires FirstFailure(rest.attempts) < |rest.attempts|
    ensures var a := [first] + rest.attempts;
            var f := FirstFailure(a);
            var chunks := [first.text] + tail;
            && f == FirstFailure(rest.attempts) + 1
            && f < |a| && f < |chunks|
            && Leads(a, chunks, f)
  {
    var ra := rest.attempts;
    var a := [first] + ra;
    var chunks := [first.text] + tail;
    FirstFailureSkips(first, ra);
    var f := FirstFailure(ra) + 1;
    forall i | 1 <= i <= f
      ensures a[i].text == chunks[i]
    {
      assert a[i] == ra[i - 1] && chunks[i] == tail[i - 1];
    }
  }

  /** then the notices after it. */
  lemma RelaysShiftNotices(tail: seq<string>, first: Attempt, rest: Sent)
    requires first.error.None? && Relays(tail, rest)
    requires FirstFailure(rest.attempts) < |rest.attempts|
    ensures var a := [first] + rest.attempts;
            var f := FirstFailure(rest.attempts) + 1;
            && 2 <= |a| - f <= f + 1
            && Chained(a, f)
            && a[|a| - 1].error == rest.raised
            && (|a| - f < f + 1 ==> rest.raised.None?)
  {
    var ra := rest.attempts;
    var a := [first] + ra;
    var f := FirstFailure(ra) + 1;
    forall i | f <= i < |a| - 1
      ensures a[i].error.Some? && a[i + 1].text == Fence(a[i].error.value)
    {
      assert a[i] == ra[i - 1] && a[i + 1] == ra[i];
    }
    assert a[|a| - 1] == ra[|ra| - 1];
  }

  /** The first send of a frame went through and so did every later one. */
  lemma RelaysRestDelivered(tail: seq<string>, first: Attempt, rest: Sent)
    requires first.error.None? && Relays(tail, rest) && rest.raised.None?
    requires FirstFailure(rest.attempts) == |rest.attempts|
    ensures Relays([first.text] + tail, Sent([first] + rest.attempts, None))
  {
    var a := [first] + rest.attempts;
    FirstFailureSkips(first, rest.attempts);
    assert FirstFailure(a) == |a|;
    assert Texts(a) == [first.text] + Texts(rest.attempts);
  }

  /** The first send of a frame went through, a later one failed and its
      notice got through. */
  lemma RelaysRestRecovered(tail: seq<string>, first: Attempt, rest: Sent)
    requires first.error.None? && Relays(tail, rest) && rest.raised.None?
    requires FirstFailure(rest.attempts) < |rest.attempts|
    ensures Relays([first.text] + tail, Sent([first] + rest.attempts, None))
  {
    RelaysShiftHead(tail, first, rest);
    RelaysShiftNotices(tail, first, rest);
  }

  /** The first send of a frame went through and the rest was relayed
      without an exception escaping. */
  lemma RelaysRestSettled(tail: seq<string>, first: Attempt, rest: Sent)
    requires first.error.None? && Relays(tail, rest) && rest.raised.None?
    ensures Relays([first.text] + tail, Sent([first] + rest.attempts, None))
  {
    if FirstFailure(rest.attempts) == |rest.attempts| {
      RelaysRestDelivered(tail, first, rest);
    } else {
      RelaysRestRecovered(tail, first, rest);
    }
  }

  /** The first send of a frame went through and an exception escaped the
      rest: this frame sends its own notice. */
  lemma RelaysRestRaised(tail: seq<string>, first: Attempt, rest: Sent, k: nat, channel: Channel)
    requires first.error.None? && Relays(tail, rest) && rest.raised.Some?
    ensures Relays([first.text] + tail, Recover([first] + rest.attempts, rest.raised.value, k, channel))
  {
    var done := [first] + rest.attempts;
    var error := rest.raised.value;
    var notice := Attempt(Fence(error), channel(k + |done|, Fence(error)));
    var a := done + [notice];
    assert Recover(done, error, k, channel) == Sent(a, notice.error);
    var f := FirstFailure(done);
    assert f == FirstFailure(rest.attempts) + 1 && f < |done| by {
      FirstFailureSkips(first, rest.attempts);
    }
    RelaysShiftHead(tail, first, rest);
    RelaysShiftNotices(tail, first, rest);
    assert done[|done| - 1].error == Some(error);
    FirstFailureKeeps(done, [notice]);
    assert FirstFailure(a) == f;
    forall i | 0 <= i <= f
      ensures a[i].text == ([first.text] + tail)[i]
    {
      assert a[i] == done[i];
    }
    ChainedExtend(done, f, notice);
  }

  /** Every send of `r`, the `i`-th of them being send number `k + i`, ended
      as the channel answered it. */
  predicate Heeds(r: Sent, k: nat, channel: Channel) {
    forall i :: 0 <= i < |r.attempts| ==> r.attempts[i].error == channel(k + i, r.attempts[i].text)
  }

  /** A frame whose own send the channel answered, followed by the sends
      of the recursive call, which the channel answered too. */
  lemma HeedsShift(first: Attempt, rest: Sent, k: nat, channel: Channel)
    requires first.error == channel(k, first.text) && Heeds(rest, k + 1, channel)
    ensures Heeds(Sent([first] + rest.attempts, rest.raised), k, channel)
  {
    var done := [first] + rest.attempts;
    forall i | 1 <= i < |done|
      ensures done[i].error == channel(k + i, done[i].text)
    {
      assert done[i] == rest.attempts[i - 1];
    }
  }

  /** The fenced notice is the next send and ends as the channel answers it. */
  lemma HeedsRecover(done: seq<Attempt>, error: string, k: nat, channel: Channel)
    requires Heeds(Sent(done, None), k, channel)
    ensures Heeds(Recover(done, error, k, channel), k, channel)
  {
    var a := Recover(done, error, k, channel).attempts;
    forall i | 0 <= i < |a|
      ensures a[i].error == channel(k + i, a[i].text)
    {
      if i < |done| {
        assert a[i] == done[i];
      }
    }
  }

  /** The errors `send_message` records are the channel's answers: a send
      counts as failed exactly when the channel raised on it. */
  lemma {:induction false} SendMessageHeeds(content: string, k: nat, channel: Channel)
    ensures Heeds(SendMessage(content, k, channel), k, channel)
    decreases |content|
  {
    if |content| > ChunkSize {
      var head := content[..ChunkSize];
      var first := Attempt(head, channel(k, head));
      if first.error.Some? {
        HeedsRecover([first], first.error.value, k, channel);
      } else {
        var rest := SendMessage(content[ChunkSize..], k + 1, channel);
        SendMessageHeeds(content[ChunkSize..], k + 1, channel);
        HeedsShift(first, rest, k, channel);
        if rest.raised.Some? {
          assert Heeds(Sent([first] + rest.attempts, None), k, channel);
          HeedsRecover([first] + rest.attempts, rest.raised.value, k, channel);
        }
      }
    } else {
      var only := Attempt(content, channel(k, content));
      if only.error.Some? {
        HeedsRecover([only], only.error.value, k, channel);
      }
    }
  }

  /** `send_message` relays the chunks of its content as `Relays` says, and
      each send ends as the channel answered it. */
  lemma {:induction false} SendMessageRelays(content: string, k: nat, channel: Channel)
    ensures Relays(Chunks(content), SendMessage(content, k, channel))
    ensures Heeds(SendMessage(content, k, channel), k, channel)
    decreases |content|
  {
    SendMessageHeeds(content, k, channel);
    var chunks := Chunks(content);
    if |content| > ChunkSize {
      var head := content[..ChunkSize];
      var first := Attempt(head, channel(k, head));
      var tail := Chunks(content[ChunkSize..]);
      assert chunks == [head] + tail;
      if first.error.Some? {
        RelaysFirstFails(chunks, first, k, channel);
      } else {
        var rest := SendMessage(content[ChunkSize..], k + 1, channel);
        SendMessageRelays(content[ChunkSize..], k + 1, channel);
        if rest.raised.Some? {
          RelaysRestRaised(tail, first, rest, k, channel);
        } else {
          RelaysRestSettled(tail, first, rest);
        }
      }
    } else {
      var only := Attempt(content, channel(k, content));
      if only.error.Some? {
        RelaysFirstFails(chunks, only, k, channel);
      } else {
        assert Texts([only]) == chunks;
      }
    }
  }

  /** A channel on which every send goes through. */
  ghost predicate Delivers(channel: Channel) {
    forall k: nat, t: string :: channel(k, t).None?
  }

  /** When every send goes through, the sends are exactly the chunks, in
      order: together they spell the content, each holds at most 2000
      characters, and content of at most 2000 characters is one send. */
  lemma {:induction false} SendAllDelivered(content: string, k: nat, channel: Channel)
    requires Delivers(channel)
    ensures var r := SendMessage(content, k, channel);
            && Texts(r.attempts) == Chunks(content)
            && Concat(Texts(r.attempts)) == content
            && (forall i :: 0 <= i < |r.attempts| ==> r.attempts[i].error.None? && |r.attempts[i].text| <= ChunkSize)
            && r.raised.None?
            && (|content| <= ChunkSize ==> |r.attempts| == 1)
    decreases |content|
  {
    var r := SendMessage(content, k, channel);
    if |content| > ChunkSize {
      SendAllDelivered(content[ChunkSize..], k + 1, channel);
      var head := content[..ChunkSize];
      var rest := SendMessage(content[ChunkSize..], k + 1, channel);
      assert r.attempts == [Attempt(head, None)] + rest.attempts;
      assert Chunks(content) == [head] + Chunks(content[ChunkSize..]);
    }
  }
}
