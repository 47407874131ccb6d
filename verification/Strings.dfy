/** The JavaScript string functions that the cron parser calls. */
module Strings {
  import opened Types

  /** `s.split(sep)` for a separator of one character. */
  function Split(s: string, sep: char): (pieces: seq<string>)
    ensures pieces != [] && (|pieces| > 1 <==> sep in s)
  {
    if s == "" then [""]
    else
      var rest := Split(s[1..], sep);
      if s[0] == sep then [""] + rest else [[s[0]] + rest[0]] + rest[1..]
  }

  function Join(pieces: seq<string>, sep: char): string
    requires pieces != []
  {
    if |pieces| == 1 then pieces[0] else pieces[0] + [sep] + Join(pieces[1..], sep)
  }

  lemma {:induction false} SplitWord(word: string, sep: char)
    requires sep !in word
    ensures Split(word, sep) == [word]
  {
    if word != "" {
      SplitWord(word[1..], sep);
      assert [word[0]] + word[1..] == word;
    }
  }

  lemma {:induction false} SplitFirst(word: string, sep: char, rest: string)
    requires sep !in word
    ensures Split(word + [sep] + rest, sep) == [word] + Split(rest, sep)
  {
    var s := word + [sep] + rest;
    if word == "" {
      assert s[1..] == rest;
    } else {
      SplitFirst(word[1..], sep, rest);
      assert s[1..] == word[1..] + [sep] + rest;
      assert [word[0]] + word[1..] == word;
    }
  }

  /** Splitting undoes joining. */
  lemma {:induction false} SplitJoin(pieces: seq<string>, sep: char)
    requires pieces != [] && forall p :: p in pieces ==> sep !in p
    ensures Split(Join(pieces, sep), sep) == pieces
  {
    if |pieces| == 1 {
      SplitWord(pieces[0], sep);
    } else {
      SplitJoin(pieces[1..], sep);
      SplitFirst(pieces[0], sep, Join(pieces[1..], sep));
    }
  }

  predicate IsDigit(c: char) {
    '0' <= c <= '9'
  }

  predicate AllDigits(s: string) {
    forall c :: c in s ==> IsDigit(c)
  }

  /** A decimal numeral, leading zeros allowed. */
  type Numeral = s: string | s != "" && AllDigits(s) witness "0"

  function DigitRun(s: string): (r: string)
    ensures r <= s && AllDigits(r)
  {
    if s == "" || !IsDigit(s[0]) then "" else [s[0]] + DigitRun(s[1..])
  }

  function DigitValue(c: char): nat
    requires IsDigit(c)
  {
    c as int - '0' as int
  }

  function DecimalValue(s: string): nat
    requires AllDigits(s)
  {
    if s == "" then 0
    else DecimalValue(s[..|s| - 1]) * 10 + DigitValue(s[|s| - 1])
  }

  function Unsigned(s: string): string {
    if s != "" && (s[0] == '+' || s[0] == '-') then s[1..] else s
  }

  predicate IsNegative(s: string) {
    s != "" && s[0] == '-'
  }

  function Signed(negative: bool, n: int): int {
    if negative then -n else n
  }

  /** `parseInt(s, 10)` on a string without leading white space; None is NaN. */
  function ParseInt(s: string): Option<int> {
    var digits := DigitRun(Unsigned(s));
    if digits == "" then None
    else Some(Signed(IsNegative(s), DecimalValue(digits)))
  }

  /** `Number(s)` on an empty string or an optionally signed decimal integer; None, which is NaN, on all others. */
  function ToNumber(s: string): Option<int> {
    if s == "" then Some(0)
    else if Unsigned(s) == "" || !AllDigits(Unsigned(s)) then None
    else Some(Signed(IsNegative(s), DecimalValue(Unsigned(s))))
  }

  /** The numeral of n without leading zeros. */
  function Digits(n: nat): Numeral {
    var last := [('0' as int + n % 10) as char];
    if n < 10 then last else Digits(n / 10) + last
  }

  lemma {:induction false} DigitsValue(n: nat)
    ensures DecimalValue(Digits(n)) == n
  {
    var s := Digits(n);
    if n < 10 {
      assert s[..0] == "";
    } else {
      DigitsValue(n / 10);
      assert s[..|s| - 1] == Digits(n / 10);
    }
  }

  lemma {:induction false} DigitRunOfDigits(s: string)
    requires AllDigits(s)
    ensures DigitRun(s) == s
  {
    if s != "" {
      DigitRunOfDigits(s[1..]);
      assert [s[0]] + s[1..] == s;
    }
  }

  /** A numeral is read as its decimal value. */
  lemma NumeralIsRead(s: Numeral)
    ensures ParseInt(s) == Some(DecimalValue(s)) && ToNumber(s) == Some(DecimalValue(s))
  {
    assert s[0] in s && IsDigit(s[0]);
    DigitRunOfDigits(s);
  }

  /** Ten digits, with the values 0 to 9. */
  lemma DigitsTold(c: char)
    ensures IsDigit(c) <==> c in "0123456789"
    ensures IsDigit(c) ==> "0123456789"[DigitValue(c)..][..1] == [c] && DecimalValue([c]) == DigitValue(c)
  {
    var n := c as int - '0' as int;
    if IsDigit(c) {
      assert n in {0, 1, 2, 3, 4, 5, 6, 7, 8, 9};
      assert [c][..0] == "";
    }
  }

  function Pow10(n: nat): nat {
    if n == 0 then 1 else 10 * Pow10(n - 1)
  }

  /** Numerals are positional, with base ten. */
  lemma {:induction false} DecimalValueIsPositional(a: string, b: string)
    requires AllDigits(a) && AllDigits(b)
    ensures AllDigits(a + b) && DecimalValue(a + b) == DecimalValue(a) * Pow10(|b|) + DecimalValue(b)
    decreases |b|
  {
    if b == "" {
      assert a + b == a;
    } else {
      var front, all := b[..|b| - 1], a + b;
      DecimalValueIsPositional(a, front);
      assert all[..|all| - 1] == a + front && all[|all| - 1] == b[|b| - 1];
      assert DecimalValue(a) * Pow10(|b|) == 10 * (DecimalValue(a) * Pow10(|front|));
    }
  }

  lemma {:induction false} DigitRunStops(digits: string, rest: string)
    requires AllDigits(digits) && (rest == "" || !IsDigit(rest[0]))
    ensures DigitRun(digits + rest) == digits
  {
    var s := digits + rest;
    if digits == "" {
      assert s == rest;
    } else {
      DigitRunStops(digits[1..], rest);
      assert s[1..] == digits[1..] + rest;
      assert [digits[0]] + digits[1..] == digits;
    }
  }

  lemma SignTold(sign: string, body: string)
    requires sign in {"", "+", "-"} && body != "" && body[0] != '+' && body[0] != '-'
    ensures Unsigned(sign + body) == body && (IsNegative(sign + body) <==> sign == "-")
  {
    var s := sign + body;
    assert sign == "" ==> s == body;
    assert sign != "" ==> |sign| == 1 && s[0] == sign[0] && s[1..] == body;
  }

  /** A sign, a numeral and anything else: the numeral counts, negative after a minus. */
  lemma ParseIntTold(sign: string, digits: Numeral, rest: string)
    requires sign in {"", "+", "-"} && (rest == "" || !IsDigit(rest[0]))
    ensures var n: int := DecimalValue(digits);
            ParseInt(sign + (digits + rest)) == Some(if sign == "-" then -n else n)
  {
    var body := digits + rest;
    assert digits[0] in digits && IsDigit(digits[0]) && body[0] == digits[0];
    DigitRunStops(digits, rest);
    SignTold(sign, body);
    assert DigitRun(Unsigned(sign + body)) == digits;
  }

  /** Anything else is no number: no digit comes first, and none after a sign. */
  lemma ParseIntFails(s: string)
    requires s != "" ==> !IsDigit(s[0])
    requires |s| > 1 && (s[0] == '+' || s[0] == '-') ==> !IsDigit(s[1])
    ensures ParseInt(s) == None
  {
  }

  /** `Number` on the strings it is asked for: empty, or an optionally signed numeral and nothing else. */
  lemma ToNumberTold(sign: string, digits: string)
    requires sign in {"", "+", "-"}
    requires digits != "" ==> digits[0] != '+' && digits[0] != '-'
    ensures var n: int := if AllDigits(digits) then DecimalValue(digits) else 0;
            ToNumber(sign + digits) ==
            if sign + digits == "" then Some(0)
            else if digits == "" || !AllDigits(digits) then None
            else Some(if sign == "-" then -n else n)
  {
    var s := sign + digits;
    assert sign == "" ==> s == digits;
    assert sign != "" ==> s[0] == sign[0] && s[1..] == digits;
  }

  // ----- White space -----

  /** The WhiteSpace and LineTerminator code points of ECMA-262, which `trim` and `\s` share. */
  predicate IsSpace(c: char) {
    var n := c as int;
    (9 <= n <= 13) || n == 0x20 || n == 0xA0 || n == 0x1680 || (0x2000 <= n <= 0x200A)
    || n == 0x2028 || n == 0x2029 || n == 0x202F || n == 0x205F || n == 0x3000 || n == 0xFEFF
  }

  /** They are 25 characters, from the tabulator to the byte order mark. */
  lemma SpacesTold(c: char)
    ensures IsSpace(c) <==>
              c in "\t\n\U{000B}\U{000C}\r \U{00A0}\U{1680}\U{2028}\U{2029}\U{202F}\U{205F}\U{3000}\U{FEFF}"
              || c in "\U{2000}\U{2001}\U{2002}\U{2003}\U{2004}\U{2005}\U{2006}\U{2007}\U{2008}\U{2009}\U{200A}"
  {
  }

  predicate IsWord(s: string) {
    s != "" && forall c :: c in s ==> !IsSpace(c)
  }

  predicate IsBlank(s: string) {
    forall c :: c in s ==> IsSpace(c)
  }

  function TrimStart(s: string): (r: string)
    ensures |r| <= |s| && (s != "" && IsSpace(s[0]) ==> |r| < |s|)
  {
    if s == "" || !IsSpace(s[0]) then s else TrimStart(s[1..])
  }

  function TrimEnd(s: string): string {
    if s == "" || !IsSpace(s[|s| - 1]) then s else TrimEnd(s[..|s| - 1])
  }

  function Trim(s: string): string {
    TrimEnd(TrimStart(s))
  }

  function FirstWord(s: string): (w: string)
    ensures w <= s && (|w| < |s| ==> IsSpace(s[|w|]))
  {
    if s == "" || IsSpace(s[0]) then "" else [s[0]] + FirstWord(s[1..])
  }

  /** `s.split(/\s+/)`. */
  function SplitSpaces(s: string): seq<string>
    decreases |s|
  {
    var word := FirstWord(s);
    if word == s then [s] else [word] + SplitSpaces(TrimStart(s[|word|..]))
  }

  lemma {:induction false} FirstWordEnds(word: string, rest: string)
    requires (forall c :: c in word ==> !IsSpace(c)) && (rest != "" ==> IsSpace(rest[0]))
    ensures FirstWord(word + rest) == word
  {
    if word == "" {
      assert word + rest == rest;
    } else {
      FirstWordEnds(word[1..], rest);
      assert (word + rest)[1..] == word[1..] + rest;
      assert [word[0]] + word[1..] == word;
    }
  }

  lemma {:induction false} TrimStartDrops(blank: string, s: string)
    requires IsBlank(blank) && s != "" && !IsSpace(s[0])
    ensures TrimStart(blank + s) == s
  {
    if blank == "" {
      assert blank + s == s;
    } else {
      TrimStartDrops(blank[1..], s);
      assert (blank + s)[1..] == blank[1..] + s;
    }
  }

  lemma {:induction false} TrimEndDrops(s: string, blank: string)
    requires IsBlank(blank) && s != "" && !IsSpace(s[|s| - 1])
    ensures TrimEnd(s + blank) == s
    decreases |blank|
  {
    var all := s + blank;
    if blank == "" {
      assert all == s;
    } else {
      TrimEndDrops(s, blank[..|blank| - 1]);
      assert all[..|all| - 1] == s + blank[..|blank| - 1] && all[|all| - 1] == blank[|blank| - 1];
    }
  }

  predicate AreWords(words: seq<string>) {
    words != [] && forall w :: w in words ==> IsWord(w)
  }

  /** White space to stand between words. */
  predicate AreGaps(gaps: seq<string>) {
    forall g :: g in gaps ==> g != "" && IsBlank(g)
  }

  function Weave(words: seq<string>, gaps: seq<string>): string
    requires words != [] && |gaps| == |words| - 1
  {
    if |words| == 1 then words[0] else words[0] + gaps[0] + Weave(words[1..], gaps[1..])
  }

  lemma {:induction false} WovenIsTrimmed(words: seq<string>, gaps: seq<string>)
    requires AreWords(words) && |gaps| == |words| - 1
    ensures var s := Weave(words, gaps); s != "" && !IsSpace(s[0]) && !IsSpace(s[|s| - 1])
    decreases |words|
  {
    assert IsWord(words[0]) && words[0][0] in words[0] && words[0][|words[0]| - 1] in words[0];
    if |words| > 1 {
      WovenIsTrimmed(words[1..], gaps[1..]);
    }
  }

  lemma SplitSpacesFirst(word: string, gap: string, rest: string)
    requires IsWord(word) && gap != "" && IsBlank(gap) && rest != "" && !IsSpace(rest[0])
    ensures SplitSpaces(word + gap + rest) == [word] + SplitSpaces(rest)
  {
    var s, tail := word + gap + rest, gap + rest;
    assert tail[0] == gap[0] && gap[0] in gap;
    FirstWordEnds(word, tail);
    assert s == word + tail && s[|word|..] == tail;
    TrimStartDrops(gap, rest);
  }

  lemma {:induction false} SplitSpacesWoven(words: seq<string>, gaps: seq<string>)
    requires AreWords(words) && AreGaps(gaps) && |gaps| == |words| - 1
    ensures SplitSpaces(Weave(words, gaps)) == words
    decreases |words|
  {
    var s := Weave(words, gaps);
    assert IsWord(words[0]);
    if |words| == 1 {
      FirstWordEnds(s, "");
      assert s + "" == s;
    } else {
      var restWords, restGaps := words[1..], gaps[1..];
      assert gaps[0] in gaps && forall g :: g in restGaps ==> g in gaps;
      assert AreWords(restWords) && AreGaps(restGaps) by {
        assert forall w :: w in restWords ==> w in words;
        assert restWords[0] in restWords;
      }
      WovenIsTrimmed(restWords, restGaps);
      SplitSpacesFirst(words[0], gaps[0], Weave(restWords, restGaps));
      SplitSpacesWoven(restWords, restGaps);
    }
  }

  /** Words come back from trimming and splitting, whatever white space is between and around them. */
  lemma WordsRoundTrip(before: string, words: seq<string>, gaps: seq<string>, after: string)
    requires IsBlank(before) && AreWords(words) && AreGaps(gaps) && |gaps| == |words| - 1 && IsBlank(after)
    ensures var s := before + Weave(words, gaps) + after; s != "" && SplitSpaces(Trim(s)) == words
  {
    var s := Weave(words, gaps);
    WovenIsTrimmed(words, gaps);
    assert before + s + after == before + (s + after) && (s + after)[0] == s[0];
    TrimStartDrops(before, s + after);
    TrimEndDrops(s, after);
    SplitSpacesWoven(words, gaps);
  }
}
