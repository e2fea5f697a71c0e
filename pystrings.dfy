/**
 * The parts of Python's string and integer formatting that the scraper relies on:
 * `str.isspace`, `str.split()` with no separator, `str.zfill`, `str(int)` and
 * `format(n, ',')`.
 */
module PyStrings {

  /** Python's `str.isspace` on one character (bidirectional class WS, B or S, or category Zs). */
  predicate IsSpace(c: char) {
    || ('\t' <= c <= '\r')
    || ('\U{1C}' <= c <= '\U{1F}')
    || c == ' '
    || c == '\U{85}'
    || c == '\U{A0}'
    || c == '\U{1680}'
    || ('\U{2000}' <= c <= '\U{200A}')
    || c == '\U{2028}'
    || c == '\U{2029}'
    || c == '\U{202F}'
    || c == '\U{205F}'
    || c == '\U{3000}'
  }

  /**
   * Characters that matter in Persian text: the ASCII blank, tab and newline and the
   * no-break space separate tokens; the zero-width non-joiner and joiner that Persian
   * words carry, and the zero-width space, do not.
   */
  lemma PersianSpacing()
    ensures IsSpace(' ') && IsSpace('\t') && IsSpace('\n') && IsSpace('\U{A0}')
    ensures !IsSpace('\U{200B}') && !IsSpace('\U{200C}') && !IsSpace('\U{200D}')
  {
  }

  predicate NoSpace(s: string) {
    forall i :: 0 <= i < |s| ==> !IsSpace(s[i])
  }

  /** The characters of `s` that are not whitespace, in order. */
  function NonSpace(s: string): string {
    if s == [] then []
    else if IsSpace(s[0]) then NonSpace(s[1..])
    else [s[0]] + NonSpace(s[1..])
  }

  /** Concatenation of a sequence of strings, built from the left as `+=` does. */
  function Concat(parts: seq<string>): string {
    if parts == [] then [] else Concat(parts[..|parts| - 1]) + parts[|parts| - 1]
  }

  lemma AppendAssociative(a: string, b: string, c: string)
    ensures (a + b) + c == a + (b + c)
  {
  }

  lemma {:induction false} ConcatPrepend(t: string, parts: seq<string>)
    ensures Concat([t] + parts) == t + Concat(parts)
    decreases |parts|
  {
    if parts == [] {
      assert [t] + parts == [t];
      assert Concat([t]) == Concat([]) + t;
    } else {
      var n := |parts|;
      assert ([t] + parts)[..n] == [t] + parts[..n - 1];
      ConcatPrepend(t, parts[..n - 1]);
    }
  }

  lemma {:induction false} ConcatAppend(parts: seq<string>, more: seq<string>)
    ensures Concat(parts + more) == Concat(parts) + Concat(more)
    decreases |more|
  {
    if more == [] {
      assert parts + more == parts;
    } else {
      var n := |more|;
      assert (parts + more)[..|parts + more| - 1] == parts + more[..n - 1];
      ConcatAppend(parts, more[..n - 1]);
    }
  }

  /** Length of the longest whitespace-free prefix of `s`. */
  function TokenLength(s: string): (n: nat)
    ensures n <= |s|
    ensures NoSpace(s[..n])
    ensures n == |s| || IsSpace(s[n])
  {
    if s == [] || IsSpace(s[0]) then 0 else 1 + TokenLength(s[1..])
  }

  /**
   * Python's `s.split()`: the maximal runs of non-whitespace characters, in order;
   * leading, trailing and repeated whitespace produce no empty tokens.
   */
  function Split(s: string): (tokens: seq<string>)
    ensures forall k :: 0 <= k < |tokens| ==> tokens[k] != [] && NoSpace(tokens[k])
    decreases |s|
  {
    if s == [] then []
    else if IsSpace(s[0]) then Split(s[1..])
    else
      var n := TokenLength(s);
      [s[..n]] + Split(s[n..])
  }

  lemma {:induction false} NonSpacePrefix(t: string, rest: string)
    requires NoSpace(t)
    ensures NonSpace(t + rest) == t + NonSpace(rest)
    decreases |t|
  {
    if t != [] {
      assert (t + rest)[1..] == t[1..] + rest;
      NonSpacePrefix(t[1..], rest);
    } else {
      assert t + rest == rest;
    }
  }

  /** Splitting loses only whitespace: the tokens put together are the non-whitespace characters. */
  lemma {:induction false} SplitKeepsNonSpace(s: string)
    ensures Concat(Split(s)) == NonSpace(s)
    decreases |s|
  {
    if s == [] {
    } else if IsSpace(s[0]) {
      SplitKeepsNonSpace(s[1..]);
    } else {
      var n := TokenLength(s);
      SplitKeepsNonSpace(s[n..]);
      ConcatPrepend(s[..n], Split(s[n..]));
      assert s == s[..n] + s[n..];
      NonSpacePrefix(s[..n], s[n..]);
    }
  }

  /** A non-empty string without whitespace is a single token. */
  lemma {:induction false} SplitWord(t: string)
    requires t != [] && NoSpace(t)
    ensures Split(t) == [t]
  {
    TokenLengthAll(t);
    assert t[..|t|] == t;
    assert t[|t|..] == [];
    assert Split(t) == [t[..|t|]] + Split(t[|t|..]);
  }

  lemma {:induction false} TokenLengthAll(t: string)
    requires NoSpace(t)
    ensures TokenLength(t) == |t|
    decreases |t|
  {
    if t != [] {
      TokenLengthAll(t[1..]);
    }
  }

  /** Two words around one whitespace character are split into exactly those two words. */
  lemma SplitTwoWords(a: string, c: char, b: string)
    requires a != [] && NoSpace(a) && b != [] && NoSpace(b) && IsSpace(c)
    ensures Split(a + [c] + b) == [a, b]
  {
    SplitAtSpace(a, c, b);
    SplitWord(a);
    SplitWord(b);
  }

  /** A string made only of whitespace has no tokens. */
  lemma {:induction false} SplitBlank(w: string)
    requires forall i :: 0 <= i < |w| ==> IsSpace(w[i])
    ensures Split(w) == []
    decreases |w|
  {
    if w != [] {
      SplitBlank(w[1..]);
    }
  }

  lemma {:induction false} TokenLengthStops(a: string, c: char, b: string)
    requires IsSpace(c)
    ensures TokenLength(a) == TokenLength(a + [c] + b)
    decreases |a|
  {
    if a == [] {
      assert a + [c] + b == [c] + b;
    } else if !IsSpace(a[0]) {
      assert (a + [c] + b)[1..] == a[1..] + [c] + b;
      TokenLengthStops(a[1..], c, b);
    }
  }

  /** Whitespace separates tokens: splitting at a whitespace character splits the token list. */
  lemma {:induction false} SplitAtSpace(a: string, c: char, b: string)
    requires IsSpace(c)
    ensures Split(a + [c] + b) == Split(a) + Split(b)
    decreases |a|
  {
    var s := a + [c] + b;
    if a == [] {
      assert s == [c] + b;
      assert s[1..] == b;
    } else if IsSpace(a[0]) {
      assert s[1..] == a[1..] + [c] + b;
      SplitAtSpace(a[1..], c, b);
    } else {
      var n := TokenLength(a);
      TokenLengthStops(a, c, b);
      assert s[..n] == a[..n];
      assert s[n..] == a[n..] + [c] + b;
      SplitAtSpace(a[n..], c, b);
    }
  }

  // ---------------------------------------------------------------- digits

  predicate IsDigit(c: char) {
    '0' <= c <= '9'
  }

  predicate AllDigits(s: string) {
    forall i :: 0 <= i < |s| ==> IsDigit(s[i])
  }

  /** The ASCII digit for 0..9. */
  function DigitChar(d: nat): (c: char)
    requires d < 10
    ensures IsDigit(c) && c as int - '0' as int == d
  {
    ('0' as int + d) as char
  }

  /** The number a string of decimal digits denotes. */
  function DigitsValue(s: string): nat
    requires AllDigits(s)
  {
    if s == [] then 0
    else DigitsValue(s[..|s| - 1]) * 10 + (s[|s| - 1] as int - '0' as int)
  }

  /** Python's `str(n)` for a non-negative integer. */
  function DecimalString(n: nat): (s: string)
    ensures s != [] && AllDigits(s)
  {
    if n < 10 then [DigitChar(n)] else DecimalString(n / 10) + [DigitChar(n % 10)]
  }

  /** `str(n)` is read back as `n`: the decimal string is a faithful representation. */
  lemma {:induction false} DecimalStringValue(n: nat)
    ensures DigitsValue(DecimalString(n)) == n
  {
    if n >= 10 {
      var s := DecimalString(n);
      assert s[..|s| - 1] == DecimalString(n / 10);
      DecimalStringValue(n / 10);
    }
  }

  /** `str(n)` has no leading zero, except for `n == 0` itself. */
  lemma {:induction false} DecimalStringNoLeadingZero(n: nat)
    ensures DecimalString(n)[0] == '0' <==> n == 0
  {
    if n >= 10 {
      DecimalStringNoLeadingZero(n / 10);
    }
  }

  // ---------------------------------------------------------------- zfill

  function Zeros(k: nat): (z: string)
    ensures |z| == k && forall i :: 0 <= i < k ==> z[i] == '0'
  {
    seq(k, _ => '0')
  }

  /**
   * Python's `s.zfill(width)`: pads on the left with '0' up to `width`, keeping a leading
   * '+' or '-' in front of the padding; a string already `width` long or longer is returned as is.
   */
  function Zfill(s: string, width: nat): (r: string)
    ensures |r| == if |s| >= width then |s| else width
    ensures |s| >= width ==> r == s
    ensures r[|r| - |s| + (if s != [] && s[0] in "+-" then 1 else 0)..] == s[(if s != [] && s[0] in "+-" then 1 else 0)..]
    ensures |s| < width ==>
      var p := if s != [] && s[0] in "+-" then 1 else 0;
      r[..p] == s[..p] && forall i :: p <= i < p + width - |s| ==> r[i] == '0'
  {
    if |s| >= width then s
    else if s != [] && (s[0] == '+' || s[0] == '-') then [s[0]] + Zeros(width - |s|) + s[1..]
    else Zeros(width - |s|) + s
  }

  lemma {:induction false} LeadingZerosValue(k: nat, s: string)
    requires AllDigits(s)
    ensures AllDigits(Zeros(k) + s) && DigitsValue(Zeros(k) + s) == DigitsValue(s)
    decreases |s|
  {
    var z := Zeros(k) + s;
    if s == [] {
      assert z == Zeros(k);
      ZerosValue(k);
    } else {
      assert z[..|z| - 1] == Zeros(k) + s[..|s| - 1];
      LeadingZerosValue(k, s[..|s| - 1]);
    }
  }

  lemma {:induction false} ZerosValue(k: nat)
    ensures DigitsValue(Zeros(k)) == 0
  {
    if k > 0 {
      assert Zeros(k)[..k - 1] == Zeros(k - 1);
      ZerosValue(k - 1);
    }
  }

  /**
   * For a day token made of digits, `zfill` keeps the digits and their value, right-aligned,
   * and makes the result at least `width` long.
   */
  lemma ZfillDigits(s: string, width: nat)
    requires AllDigits(s)
    ensures var r := Zfill(s, width);
      && |r| >= width && AllDigits(r) && DigitsValue(r) == DigitsValue(s)
      && r[|r| - |s|..] == s
  {
    if |s| < width {
      if s != [] {
        assert s[0] !in "+-";
      }
      LeadingZerosValue(width - |s|, s);
    }
  }

  // ---------------------------------------------------------------- format(n, ',')

  /** The last three decimal digits of `n`, zero-padded. */
  function ThreeDigits(n: nat): (s: string)
    ensures |s| == 3 && AllDigits(s)
  {
    [DigitChar(n / 100 % 10), DigitChar(n / 10 % 10), DigitChar(n % 10)]
  }

  /** Python's `format(n, ',')` for a non-negative integer. */
  function Grouped(n: nat): string {
    if n < 1000 then DecimalString(n) else Grouped(n / 1000) + "," + ThreeDigits(n % 1000)
  }

  /** Python's `format(n, ',')` for any integer: a '-' sign in front of the grouped magnitude. */
  function WithThousands(n: int): string {
    if n < 0 then "-" + Grouped(-n) else Grouped(n)
  }

  /** Without its commas, `format(n, ',')` is `str(n)`: the sign, if any, then the digits of the magnitude. */
  lemma WithThousandsDigits(n: int)
    ensures n >= 0 ==> DropCommas(WithThousands(n)) == DecimalString(n)
    ensures n < 0 ==> var r := WithThousands(n); r != [] && r[0] == '-' && DropCommas(r[1..]) == DecimalString(-n)
  {
    if n < 0 {
      GroupedDigits(-n);
      assert WithThousands(n)[1..] == Grouped(-n);
    } else {
      GroupedDigits(n);
    }
  }

  /** The string with every ',' removed. */
  function DropCommas(s: string): string {
    if s == [] then []
    else if s[0] == ',' then DropCommas(s[1..])
    else [s[0]] + DropCommas(s[1..])
  }

  lemma {:induction false} DropCommasAppend(a: string, b: string)
    ensures DropCommas(a + b) == DropCommas(a) + DropCommas(b)
    decreases |a|
  {
    if a == [] {
      assert a + b == b;
    } else {
      assert (a + b)[1..] == a[1..] + b;
      DropCommasAppend(a[1..], b);
    }
  }

  lemma {:induction false} DropCommasDigits(s: string)
    requires AllDigits(s)
    ensures DropCommas(s) == s
    decreases |s|
  {
    if s != [] {
      DropCommasDigits(s[1..]);
    }
  }

  lemma DecimalStringThousands(n: nat)
    requires n >= 1000
    ensures DecimalString(n) == DecimalString(n / 1000) + ThreeDigits(n % 1000)
  {
    var a := n / 10;
    var b := a / 10;
    var c := b / 10;
    assert c == n / 1000;
    assert b % 10 == n % 1000 / 100 % 10;
    assert a % 10 == n % 1000 / 10 % 10;
    assert n % 10 == n % 1000 % 10;
    assert DecimalString(n) == DecimalString(a) + [DigitChar(n % 10)];
    assert DecimalString(a) == DecimalString(b) + [DigitChar(a % 10)];
    assert DecimalString(b) == DecimalString(c) + [DigitChar(b % 10)];
  }

  /** Removing the separators from `format(n, ',')` gives back `str(n)`. */
  lemma {:induction false} GroupedDigits(n: nat)
    ensures DropCommas(Grouped(n)) == DecimalString(n)
  {
    if n < 1000 {
      DropCommasDigits(DecimalString(n));
    } else {
      var g, t := Grouped(n / 1000), ThreeDigits(n % 1000);
      GroupedDigits(n / 1000);
      assert Grouped(n) == (g + ",") + t;
      DropCommasAppend(g + ",", t);
      DropCommasAppend(g, ",");
      assert DropCommas(",") == DropCommas([]);
      DropCommasDigits(t);
      DecimalStringThousands(n);
    }
  }

  /**
   * The layout of a thousands-grouped numeral: it starts with a digit, every other
   * character is a digit, and a ',' stands exactly at every fourth position counted from
   * the right, so that each ',' is followed by a group of three digits.
   */
  predicate GroupLayout(r: string) {
    && r != [] && IsDigit(r[0])
    && forall i :: 0 <= i < |r| ==> if (|r| - i) % 4 == 0 then r[i] == ',' else IsDigit(r[i])
  }

  lemma LayoutExtend(g: string, t: string)
    requires GroupLayout(g) && |t| == 3 && AllDigits(t)
    ensures GroupLayout(g + "," + t)
  {
    var r := g + "," + t;
    forall i | 0 <= i < |r|
      ensures if (|r| - i) % 4 == 0 then r[i] == ',' else IsDigit(r[i])
    {
      if i < |g| {
        assert r[i] == g[i];
        assert |r| - i == (|g| - i) + 4;
      } else if i > |g| {
        assert r[i] == t[i - |g| - 1];
      }
    }
  }

  /** `format(n, ',')` is laid out in groups of three digits separated by ','. */
  lemma {:induction false} GroupedLayout(n: nat)
    ensures GroupLayout(Grouped(n))
  {
    if n < 1000 {
      DecimalStringLength(n);
    } else {
      GroupedLayout(n / 1000);
      LayoutExtend(Grouped(n / 1000), ThreeDigits(n % 1000));
    }
  }

  lemma {:induction false} DecimalStringLength(n: nat)
    ensures n < 10 ==> |DecimalString(n)| == 1
    ensures n < 100 ==> |DecimalString(n)| <= 2
    ensures n < 1000 ==> |DecimalString(n)| <= 3
  {
    if n >= 10 {
      DecimalStringLength(n / 10);
    }
  }
}
