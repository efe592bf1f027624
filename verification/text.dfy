/** Python string primitives the bot relies on: `str.isspace`, `str.strip`,
    `str.split()`, `str.lower` (as far as keyword comparison needs it),
    `str.join`, slicing `s[:n]` and `str(int)`. */
module Text {

  datatype Option<+T> = None | Some(value: T)

  /** The characters for which Python's `str.isspace()` holds. */
  predicate IsSpace(c: char) {
    || c == ' '
    || ('\t' <= c <= '\r')
    || ('\U{1c}' <= c <= '\U{1f}')
    || c == '\U{85}' || c == '\U{a0}' || c == '\U{1680}'
    || ('\U{2000}' <= c <= '\U{200a}')
    || c == '\U{2028}' || c == '\U{2029}' || c == '\U{202f}'
    || c == '\U{205f}' || c == '\U{3000}'
  }

  predicate NotSpace(c: char) { !IsSpace(c) }

  ghost predicate AllSpace(s: string) {
    forall i :: 0 <= i < |s| ==> IsSpace(s[i])
  }

  /** Number of leading characters of `s` that `drop` accepts. */
  function LeadingCount(s: string, drop: char -> bool): (n: nat)
    ensures n <= |s|
    ensures forall i :: 0 <= i < n ==> drop(s[i])
    ensures n < |s| ==> !drop(s[n])
  {
    if |s| == 0 || !drop(s[0]) then 0 else 1 + LeadingCount(s[1..], drop)
  }

  /** Number of trailing characters of `s` that `drop` accepts. */
  function TrailingCount(s: string, drop: char -> bool): (n: nat)
    ensures n <= |s|
    ensures forall i :: |s| - n <= i < |s| ==> drop(s[i])
    ensures n < |s| ==> !drop(s[|s| - n - 1])
  {
    if |s| == 0 || !drop(s[|s| - 1]) then 0 else 1 + TrailingCount(s[..|s| - 1], drop)
  }

  /** Python's `s.strip(chars)`: drop every leading and trailing character
      that `drop` accepts. The result is the unique slice of `s` that neither
      starts nor ends with such a character and outside of which only such
      characters occur. */
  function Strip(s: string, drop: char -> bool): (r: string)
    ensures LeadingCount(s, drop) + |r| <= |s|
    ensures r == s[LeadingCount(s, drop)..LeadingCount(s, drop) + |r|]
    ensures forall i :: LeadingCount(s, drop) + |r| <= i < |s| ==> drop(s[i])
    ensures |r| > 0 ==> !drop(r[0]) && !drop(r[|r| - 1])
    ensures |r| == 0 <==> forall i :: 0 <= i < |s| ==> drop(s[i])
  {
    var a := LeadingCount(s, drop);
    var t := s[a..];
    var b := TrailingCount(t, drop);
    assert forall i :: a + (|t| - b) <= i < |s| ==> drop(s[i]) by {
      forall i | a + (|t| - b) <= i < |s| ensures drop(s[i]) {
        assert s[i] == t[i - a];
      }
    }
    t[..|t| - b]
  }

  /** Stripping leaves text alone that neither starts nor ends with a
      character to drop. */
  lemma StripKeeps(s: string, drop: char -> bool)
    requires |s| > 0 && !drop(s[0]) && !drop(s[|s| - 1])
    ensures Strip(s, drop) == s
  {
    assert LeadingCount(s, drop) == 0;
  }

  /** A non-empty run of non-whitespace characters: one item of `split()`. */
  predicate IsToken(w: string) {
    |w| > 0 && forall i :: 0 <= i < |w| ==> NotSpace(w[i])
  }

  /** Python's `s.split()` with no separator: the maximal runs of
      non-whitespace characters, in order. */
  function Words(s: string): (ws: seq<string>)
    ensures forall i :: 0 <= i < |ws| ==> IsToken(ws[i])
    ensures |ws| == 0 <==> AllSpace(s)
    decreases |s|, 1
  {
    var a := LeadingCount(s, IsSpace);
    assert a < |s| ==> !IsSpace(s[a]);
    WordsFrom(s[a..])
  }

  /** `split()` of text that is empty or starts with a non-whitespace
      character: the leading run, then the split of the rest. */
  function WordsFrom(t: string): (ws: seq<string>)
    requires |t| == 0 || NotSpace(t[0])
    ensures forall i :: 0 <= i < |ws| ==> IsToken(ws[i])
    ensures |ws| == 0 <==> |t| == 0
    decreases |t|, 0
  {
    if |t| == 0 then []
    else
      var n := LeadingCount(t, NotSpace);
      var rest := Words(t[n..]);
      assert IsToken(t[..n]);
      assert forall i :: 1 <= i < |rest| + 1 ==> ([t[..n]] + rest)[i] == rest[i - 1];
      [t[..n]] + rest
  }

  /** The non-whitespace characters of `s`, in order. */
  function Visible(s: string): string {
    if |s| == 0 then "" else (if IsSpace(s[0]) then "" else [s[0]]) + Visible(s[1..])
  }

  function Concat(parts: seq<string>): string {
    if |parts| == 0 then "" else parts[0] + Concat(parts[1..])
  }

  lemma {:induction false} VisibleAppend(a: string, b: string)
    ensures Visible(a + b) == Visible(a) + Visible(b)
    decreases |a|
  {
    if |a| == 0 {
      assert a + b == b;
    } else {
      assert (a + b)[1..] == a[1..] + b;
      VisibleAppend(a[1..], b);
    }
  }

  lemma {:induction false} VisibleOfSpaces(s: string)
    requires AllSpace(s)
    ensures Visible(s) == ""
    decreases |s|
  {
    if |s| > 0 {
      VisibleOfSpaces(s[1..]);
    }
  }

  lemma {:induction false} VisibleOfWord(s: string)
    requires forall i :: 0 <= i < |s| ==> NotSpace(s[i])
    ensures Visible(s) == s
    decreases |s|
  {
    if |s| > 0 {
      VisibleOfWord(s[1..]);
    }
  }

  lemma VisibleSkipsSpaces(s: string)
    ensures Visible(s) == Visible(s[LeadingCount(s, IsSpace)..])
  {
    var a := LeadingCount(s, IsSpace);
    assert s == s[..a] + s[a..];
    VisibleAppend(s[..a], s[a..]);
    VisibleOfSpaces(s[..a]);
  }

  lemma VisibleKeepsWord(t: string)
    ensures Visible(t) == t[..LeadingCount(t, NotSpace)] + Visible(t[LeadingCount(t, NotSpace)..])
  {
    var n := LeadingCount(t, NotSpace);
    assert t == t[..n] + t[n..];
    VisibleAppend(t[..n], t[n..]);
    VisibleOfWord(t[..n]);
  }

  /** Splitting on whitespace loses exactly the whitespace: the words,
      glued back together, are the visible characters of the input. */
  lemma {:induction false} WordsKeepText(s: string)
    ensures Concat(Words(s)) == Visible(s)
    decreases |s|
  {
    var t := s[LeadingCount(s, IsSpace)..];
    VisibleSkipsSpaces(s);
    if |t| > 0 {
      var n := LeadingCount(t, NotSpace);
      var rest := Words(t[n..]);
      assert Words(s) == WordsFrom(t) == [t[..n]] + rest;
      assert ([t[..n]] + rest)[1..] == rest;
      WordsKeepText(t[n..]);
      VisibleKeepsWord(t);
    }
  }

  /** `LeadingCount` is determined by where the accepted run stops. */
  lemma {:induction false} LeadingCountIs(s: string, drop: char -> bool, n: nat)
    requires n <= |s| && (forall i :: 0 <= i < n ==> drop(s[i])) && (n < |s| ==> !drop(s[n]))
    ensures LeadingCount(s, drop) == n
    decreases n
  {
    if n > 0 {
      LeadingCountIs(s[1..], drop, n - 1);
    }
  }

  /** A run of accepted characters in front adds its length to the count. */
  lemma LeadingCountAppend(a: string, b: string, drop: char -> bool)
    requires forall i :: 0 <= i < |a| ==> drop(a[i])
    ensures LeadingCount(a + b, drop) == |a| + LeadingCount(b, drop)
  {
    var n := LeadingCount(b, drop);
    assert forall i :: |a| <= i < |a| + n ==> (a + b)[i] == b[i - |a|];
    LeadingCountIs(a + b, drop, |a| + n);
  }

  lemma WordsUnfold(s: string)
    ensures Words(s) == WordsFrom(s[LeadingCount(s, IsSpace)..])
  {
  }

  /** Leading whitespace does not change the split. */
  lemma WordsSkipSpaces(sep: string, s: string)
    requires AllSpace(sep)
    ensures Words(sep + s) == Words(s)
  {
    var a := LeadingCount(s, IsSpace);
    var t := sep + s;
    LeadingCountAppend(sep, s, IsSpace);
    var u := t[LeadingCount(t, IsSpace)..];
    assert u == s[a..];
    WordsUnfold(t);
    WordsUnfold(s);
  }

  /** A word followed by whitespace is the first item of the split. */
  lemma WordsFront(w: string, sep: string, s: string)
    requires IsToken(w) && |sep| > 0 && AllSpace(sep)
    ensures Words(w + sep + s) == [w] + Words(s)
  {
    var t := w + sep + s;
    LeadingCountIs(t, IsSpace, 0);
    assert t == w + (sep + s);
    assert !NotSpace(t[|w|]);
    LeadingCountIs(t, NotSpace, |w|);
    assert t[0..] == t && t[..|w|] == w && t[|w|..] == sep + s;
    assert Words(t) == WordsFrom(t) == [w] + Words(sep + s);
    WordsSkipSpaces(sep, s);
  }

  /** A single word splits into itself. */
  lemma WordsOfWord(w: string)
    requires IsToken(w)
    ensures Words(w) == [w]
  {
    LeadingCountIs(w, IsSpace, 0);
    LeadingCountIs(w, NotSpace, |w|);
    assert w[0..] == w && w[..|w|] == w && w[|w|..] == "";
    assert Words("") == [] by {
      assert !AllSpace("") ==> false;
    }
    assert Words(w) == WordsFrom(w) == [w] + Words("");
  }

  /** Python's `c.lower()` as far as it can yield an ASCII letter: ASCII
      capitals and the Kelvin sign (U+212A) lower to ASCII letters; every
      other character either stays itself or lowers to non-ASCII text. */
  function LowerChar(c: char): (r: char)
    ensures 'a' <= r <= 'z' <==> ('a' <= c <= 'z' || 'A' <= c <= 'Z' || c == '\U{212A}')
    ensures 'A' <= c <= 'Z' ==> r as int == c as int + 32
    ensures 'a' <= c <= 'z' ==> r == c
    ensures c == '\U{212A}' ==> r == 'k'
  {
    if 'A' <= c <= 'Z' then (c as int + 32) as char
    else if c == '\U{212A}' then 'k'
    else c
  }

  function Lower(s: string): (r: string)
    ensures |r| == |s|
  {
    seq(|s|, i requires 0 <= i < |s| => LowerChar(s[i]))
  }

  /** `c` is one of the characters that `lower()` turns into the ASCII
      lower-case letter `d`: `d` itself, its capital, or the Kelvin sign for `k`. */
  predicate LowersTo(c: char, d: char) {
    c == d || c as int == d as int - 32 || (d == 'k' && c == '\U{212A}')
  }

  predicate AllLowerAscii(s: string) {
    forall i :: 0 <= i < |s| ==> 'a' <= s[i] <= 'z'
  }

  lemma LowerCharIs(c: char, d: char)
    requires 'a' <= d <= 'z'
    ensures LowerChar(c) == d <==> LowersTo(c, d)
  {
  }

  /** The words that lower to a given lower-case ASCII word are exactly
      those spelled with, at each place, that letter, its capital, or (for
      `k`) the Kelvin sign. */
  lemma LowerSpells(w: string, word: string)
    requires AllLowerAscii(word)
    ensures Lower(w) == word <==> |w| == |word| && forall i :: 0 <= i < |w| ==> LowersTo(w[i], word[i])
  {
    forall i | 0 <= i < |w| && i < |word| {
      LowerCharIs(w[i], word[i]);
    }
    if |w| == |word| && forall i :: 0 <= i < |w| ==> LowersTo(w[i], word[i]) {
      assert forall i :: 0 <= i < |w| ==> Lower(w)[i] == word[i];
    }
  }

  /** Python's `sep.join(parts)`. */
  function Join(sep: string, parts: seq<string>): (r: string)
    ensures |parts| == 0 ==> r == ""
    ensures |parts| == 1 ==> r == parts[0]
    ensures |parts| > 0 ==> |r| == |Concat(parts)| + (|parts| - 1) * |sep|
  {
    if |parts| == 0 then ""
    else if |parts| == 1 then parts[0]
    else parts[0] + sep + Join(sep, parts[1..])
  }

  /** Joining splits at every boundary between parts: with `Join(sep, [x]) == x`
      this pins the joined text down completely, parts in order and exactly
      one `sep` between neighbours. */
  lemma {:induction false} JoinAppend(sep: string, a: seq<string>, b: seq<string>)
    requires |a| > 0 && |b| > 0
    ensures Join(sep, a + b) == Join(sep, a) + sep + Join(sep, b)
    decreases |a|
  {
    if |a| == 1 {
      assert (a + b)[1..] == b;
    } else {
      assert (a + b)[1..] == a[1..] + b;
      JoinAppend(sep, a[1..], b);
    }
  }

  /** Python's `s[:n]`: a non-negative `n` keeps at most `n` characters,
      a negative `n` drops the last `-n` characters. */
  function SliceTo(s: string, n: int): (r: string)
    ensures r <= s
    ensures 0 <= n ==> |r| == if n < |s| then n else |s|
    ensures n < 0 ==> |r| == if |s| + n > 0 then |s| + n else 0
  {
    if 0 <= n then (if n < |s| then s[..n] else s)
    else if |s| + n > 0 then s[..|s| + n]
    else ""
  }

  predicate IsDigit(c: char) { '0' <= c <= '9' }

  function DigitChar(d: nat): (c: char)
    requires d < 10
    ensures IsDigit(c)
  {
    ('0' as int + d) as char
  }

  function DigitValue(c: char): nat
    requires IsDigit(c)
  {
    c as int - '0' as int
  }

  /** Decimal digits of `n`, most significant first, without leading zeros. */
  function Digits(n: nat): (s: string)
    ensures |s| > 0
    ensures forall i :: 0 <= i < |s| ==> IsDigit(s[i])
    ensures |s| > 1 ==> s[0] != '0'
  {
    if n < 10 then [DigitChar(n)] else Digits(n / 10) + [DigitChar(n % 10)]
  }

  /** The number a string of decimal digits denotes. */
  function ValueOf(s: string): nat
    requires forall i :: 0 <= i < |s| ==> IsDigit(s[i])
  {
    if |s| == 0 then 0 else 10 * ValueOf(s[..|s| - 1]) + DigitValue(s[|s| - 1])
  }

  lemma {:induction false} DigitsRoundTrip(n: nat)
    ensures ValueOf(Digits(n)) == n
  {
    var s := Digits(n);
    if n >= 10 {
      DigitsRoundTrip(n / 10);
      assert s[..|s| - 1] == Digits(n / 10);
    }
  }

  /** Python's `str(n)` for an integer. */
  function IntText(n: int): (s: string)
    ensures |s| > 0
    ensures n < 0 <==> s[0] == '-'
    ensures forall i :: (if n < 0 then 1 else 0) <= i < |s| ==> IsDigit(s[i])
    ensures n < 0 ==> ValueOf(s[1..]) == -n
    ensures 0 <= n ==> ValueOf(s) == n
    ensures |s| > (if n < 0 then 2 else 1) ==> s[if n < 0 then 1 else 0] != '0'
  {
    if n < 0 then
      DigitsRoundTrip(-n);
      assert ("-" + Digits(-n))[1..] == Digits(-n);
      "-" + Digits(-n)
    else
      DigitsRoundTrip(n);
      Digits(n)
  }

  /** The code block the bot wraps error texts in. */
  function Fence(message: string): (r: string)
    ensures |r| == |message| + 8
    ensures r[..4] == "```\n" && r[4..|r| - 4] == message && r[|r| - 4..] == "\n```"
  {
    "```\n" + message + "\n```"
  }
}
