/**
 * The JavaScript built-ins that the request handlers rely on, stated as
 * functions on Dafny strings: truthiness of a string that may be missing,
 * String.prototype.trim, String.prototype.split(/\s+/), String.prototype.includes
 * and parseInt(_, 10).
 */
module Js {

  /** A value that may be missing: None stands for both `undefined` and `null`. */
  datatype Option<+T> = None | Some(value: T)

  newtype byte = x: int | 0 <= x < 256

  /** `!!s` for a string that may be missing: undefined, null and "" are falsy. */
  function Truthy(s: Option<string>): (b: bool)
    ensures b <==> s.Some? && |s.value| > 0
  {
    s.Some? && s.value != ""
  }

  // ---------------------------------------------------------------------------
  // White space
  // ---------------------------------------------------------------------------

  /**
   * The characters that `\s` matches and that `trim()` removes: the
   * ECMAScript WhiteSpace and LineTerminator code points.
   */
  function IsSpace(c: char): (b: bool)
    ensures b ==> !('0' <= c <= '9') && c != '+' && c != '-'
  {
    var n := c as int;
    (0x09 <= n <= 0x0D) || n == 0x20 || n == 0xA0 || n == 0x1680
    || (0x2000 <= n <= 0x200A) || n == 0x2028 || n == 0x2029
    || n == 0x202F || n == 0x205F || n == 0x3000 || n == 0xFEFF
  }

  /** Every character of s at an index in [lo, hi) is white space. */
  predicate SpacesIn(s: string, lo: int, hi: int) {
    forall j :: 0 <= lo <= j < hi <= |s| ==> IsSpace(s[j])
  }

  predicate AllSpace(s: string) {
    SpacesIn(s, 0, |s|)
  }

  predicate NoSpace(s: string) {
    forall i :: 0 <= i < |s| ==> !IsSpace(s[i])
  }

  /** The index of the first character at or after i that is not white space, or |s|. */
  function FirstNonSpace(s: string, i: nat): (k: nat)
    requires i <= |s|
    ensures i <= k <= |s| && SpacesIn(s, i, k)
    ensures k == |s| || !IsSpace(s[k])
    decreases |s| - i
  {
    if i < |s| && IsSpace(s[i]) then FirstNonSpace(s, i + 1) else i
  }

  /** The index just past the last character before j that is not white space, or 0. */
  function EndOfNonSpace(s: string, j: nat): (k: nat)
    requires j <= |s|
    ensures k <= j && SpacesIn(s, k, j)
    ensures k == 0 || !IsSpace(s[k - 1])
  {
    if j > 0 && IsSpace(s[j - 1]) then EndOfNonSpace(s, j - 1) else j
  }

  /** `s.trimStart()`: the suffix left after the leading white space. */
  function TrimStart(s: string): (r: string)
    ensures r == [] || !IsSpace(r[0])
    ensures exists i :: 0 <= i <= |s| && SpacesIn(s, 0, i) && r == s[i..]
  {
    var k := FirstNonSpace(s, 0);
    assert SpacesIn(s, 0, k) && s[k..] == s[k..];
    s[k..]
  }

  /** r sits at offset i of s with nothing but white space around it. */
  predicate Padded(s: string, r: string, i: int) {
    0 <= i && i + |r| <= |s| && s[i..i + |r|] == r
    && SpacesIn(s, 0, i) && SpacesIn(s, i + |r|, |s|)
  }

  /**
   * `s.trim()`: s with its leading and trailing white space removed. The
   * result is the unique infix of s that is surrounded only by white space
   * and neither starts nor ends with it.
   */
  function Trim(s: string): (r: string)
    ensures exists i :: Padded(s, r, i)
    ensures r == [] || (!IsSpace(r[0]) && !IsSpace(r[|r| - 1]))
    ensures r == [] <==> AllSpace(s)
  {
    var a := FirstNonSpace(s, 0);
    if a == |s| then
      assert Padded(s, [], |s|);
      []
    else
      var b := EndOfNonSpace(s, |s|);
      assert a < b;
      assert Padded(s, s[a..b], a);
      s[a..b]
  }

  lemma TrimOfUnpadded(s: string)
    requires s == [] || (!IsSpace(s[0]) && !IsSpace(s[|s| - 1]))
    ensures Trim(s) == s
  {
  }

  /** Trimming twice is trimming once. */
  lemma TrimIdempotent(s: string)
    ensures Trim(Trim(s)) == Trim(s)
  {
    TrimOfUnpadded(Trim(s));
  }

  // ---------------------------------------------------------------------------
  // Splitting on white space and counting words
  // ---------------------------------------------------------------------------

  /**
   * `s.split(/\s+/)`: the pieces between maximal runs of white space. A
   * leading (trailing) run yields an empty first (last) piece, and the empty
   * string splits into one empty piece.
   */
  function SplitWs(s: string): (pieces: seq<string>)
    ensures |pieces| >= 1
    ensures forall k :: 0 <= k < |pieces| ==> NoSpace(pieces[k])
    decreases |s|
  {
    if s == [] then
      [[]]
    else if IsSpace(s[0]) then
      [[]] + SplitWs(s[FirstNonSpace(s, 0)..])
    else
      var rest := SplitWs(s[1..]);
      assert NoSpace(rest[0]);
      [[s[0]] + rest[0]] + rest[1..]
  }

  /**
   * The number of words of s, a word being a maximal run of characters that
   * are not white space; each word is counted at its last character.
   */
  function CountWords(s: string): nat {
    if s == [] then 0
    else (if !IsSpace(s[0]) && (|s| == 1 || IsSpace(s[1])) then 1 else 0) + CountWords(s[1..])
  }

  lemma {:induction false} CountWordsDropSpaces(s: string, k: nat)
    requires k <= |s| && SpacesIn(s, 0, k)
    ensures CountWords(s[k..]) == CountWords(s)
  {
    if k > 0 {
      assert IsSpace(s[0]);
      assert s[1..][k - 1..] == s[k..];
      CountWordsDropSpaces(s[1..], k - 1);
    }
  }

  lemma {:induction false} CountWordsAppendSpace(t: string, c: char)
    requires IsSpace(c)
    ensures CountWords(t + [c]) == CountWords(t)
  {
    if t != [] {
      assert (t + [c])[1..] == t[1..] + [c];
      CountWordsAppendSpace(t[1..], c);
    }
  }

  lemma {:induction false} CountWordsDropTrailingSpaces(s: string, k: nat)
    requires k <= |s| && SpacesIn(s, k, |s|)
    ensures CountWords(s[..k]) == CountWords(s)
    decreases |s| - k
  {
    if k == |s| {
      assert s[..k] == s;
    } else {
      var init := s[..|s| - 1];
      assert s == init + [s[|s| - 1]];
      CountWordsAppendSpace(init, s[|s| - 1]);
      assert init[..k] == s[..k];
      CountWordsDropTrailingSpaces(init, k);
    }
  }

  /** A blank text has no words. */
  lemma {:induction false} CountWordsOfAllSpace(s: string)
    requires AllSpace(s)
    ensures CountWords(s) == 0
  {
    CountWordsDropSpaces(s, |s|);
    assert s[|s|..] == [];
  }

  /** Trimming does not change the number of words. */
  lemma CountWordsTrim(s: string)
    ensures CountWords(Trim(s)) == CountWords(s)
  {
    var a := FirstNonSpace(s, 0);
    CountWordsDropSpaces(s, a);
    if a < |s| {
      var b := EndOfNonSpace(s, |s|);
      assert a < b;
      CountWordsInfix(s, a, b);
    }
  }

  lemma CountWordsInfix(s: string, a: nat, b: nat)
    requires a <= b <= |s| && SpacesIn(s, b, |s|)
    ensures CountWords(s[a..b]) == CountWords(s[a..])
  {
    var u := s[a..];
    assert u[..b - a] == s[a..b];
    CountWordsDropTrailingSpaces(u, b - a);
  }

  /**
   * On text that neither starts nor ends with white space, split(/\s+/)
   * yields exactly one non-empty piece per word.
   */
  lemma {:induction false} SplitWsCountsWords(s: string)
    requires s != [] && !IsSpace(s[0]) && !IsSpace(s[|s| - 1])
    ensures |SplitWs(s)| == CountWords(s)
    ensures forall k :: 0 <= k < |SplitWs(s)| ==> SplitWs(s)[k] != []
    decreases |s|
  {
    var tail := s[1..];
    if tail == [] {
      assert SplitWs(tail) == [[]];
    } else if !IsSpace(tail[0]) {
      SplitWsCountsWords(tail);
    } else {
      var k := FirstNonSpace(tail, 0);
      assert tail[|tail| - 1] == s[|s| - 1];
      assert k < |tail|;
      var t := tail[k..];
      assert t[|t| - 1] == s[|s| - 1];
      SplitWsCountsWords(t);
      CountWordsDropSpaces(tail, k);
      assert SplitWs(tail) == [[]] + SplitWs(t);
    }
  }

  /** sub occurs in s starting at index i. */
  predicate OccursAt(s: string, sub: string, i: nat) {
    i + |sub| <= |s| && s[i..i + |sub|] == sub
  }

  /** `s.includes(sub)`: sub occurs somewhere in s. */
  function Includes(s: string, sub: string): (b: bool)
    ensures b <==> exists i: nat :: OccursAt(s, sub, i)
    decreases |s|
  {
    if sub <= s then
      assert OccursAt(s, sub, 0);
      true
    else if s == [] then
      false
    else
      IncludesShift(s, sub);
      Includes(s[1..], sub)
  }

  /** Past a first position where sub does not start, the occurrences in s are those in s[1..], one index on. */
  lemma IncludesShift(s: string, sub: string)
    requires s != [] && !(sub <= s)
    ensures (exists i: nat :: OccursAt(s, sub, i)) <==> (exists i: nat :: OccursAt(s[1..], sub, i))
  {
    if i: nat :| OccursAt(s, sub, i) {
      assert i != 0;
      assert s[1..][i - 1..i - 1 + |sub|] == s[i..i + |sub|];
      assert OccursAt(s[1..], sub, i - 1);
    }
    if i: nat :| OccursAt(s[1..], sub, i) {
      assert s[1..][i..i + |sub|] == s[i + 1..i + 1 + |sub|];
      assert OccursAt(s, sub, i + 1);
    }
  }

  lemma {:induction false} IncludesSuffix(a: string, b: string)
    ensures Includes(a + b, b)
  {
    if a != [] {
      assert (a + b)[1..] == a[1..] + b;
      IncludesSuffix(a[1..], b);
    }
  }

  // ---------------------------------------------------------------------------
  // parseInt(_, 10)
  // ---------------------------------------------------------------------------

  predicate IsDigit(c: char) {
    '0' <= c <= '9'
  }

  predicate AllDigits(s: string) {
    forall i :: 0 <= i < |s| ==> IsDigit(s[i])
  }

  function DigitValue(c: char): (d: nat)
    requires IsDigit(c)
    ensures d < 10
  {
    c as int - '0' as int
  }

  function DigitChar(d: nat): (c: char)
    requires d < 10
    ensures IsDigit(c) && DigitValue(c) == d
  {
    ('0' as int + d) as char
  }

  /** The longest prefix of s made of decimal digits. */
  function DigitPrefix(s: string): (r: string)
    ensures |r| <= |s| && r == s[..|r|] && AllDigits(r)
    ensures |r| == |s| || !IsDigit(s[|r|])
  {
    if s != [] && IsDigit(s[0]) then
      var r := [s[0]] + DigitPrefix(s[1..]);
      assert s[..|r|] == [s[0]] + s[1..][..|r| - 1];
      r
    else
      []
  }

  /** The value of a decimal numeral, most significant digit first. */
  function NumeralValue(ds: string): nat
    requires AllDigits(ds)
  {
    if ds == [] then 0
    else 10 * NumeralValue(ds[..|ds| - 1]) + DigitValue(ds[|ds| - 1])
  }

  /** What `parseInt` reads after the leading white space: an optional sign removed. */
  function Unsigned(t: string): string {
    if t != [] && (t[0] == '+' || t[0] == '-') then t[1..] else t
  }

  /**
   * `parseInt(s, 10)` with None for NaN: leading white space is skipped, an
   * optional sign is read, then the longest run of digits; no digit means NaN.
   */
  function ParseInt(s: string): (r: Option<int>)
    ensures r.None? <==> DigitPrefix(Unsigned(TrimStart(s))) == []
    ensures r.Some? && TrimStart(s)[0] != '-' ==> r.value >= 0
  {
    var t := TrimStart(s);
    var digits := DigitPrefix(Unsigned(t));
    if digits == [] then None
    else
      var v: int := NumeralValue(digits);
      Some(if t[0] == '-' then -v else v)
  }

  /** The shortest decimal numeral of n: no leading zero except for n == 0. */
  function Decimal(n: nat): (r: string)
    ensures r != [] && AllDigits(r)
    ensures NumeralValue(r) == n
  {
    if n < 10 then
      [DigitChar(n)]
    else
      var r := Decimal(n / 10) + [DigitChar(n % 10)];
      assert r[..|r| - 1] == Decimal(n / 10);
      r
  }

  lemma {:induction false} DigitPrefixOfNumeral(ds: string, rest: string)
    requires AllDigits(ds)
    requires rest == [] || !IsDigit(rest[0])
    ensures DigitPrefix(ds + rest) == ds
  {
    if ds != [] {
      assert (ds + rest)[1..] == ds[1..] + rest;
      DigitPrefixOfNumeral(ds[1..], rest);
    } else {
      assert ds + rest == rest;
    }
  }

  lemma {:induction false} FirstNonSpaceAt(s: string, i: nat, k: nat)
    requires i <= k <= |s| && SpacesIn(s, i, k)
    requires k == |s| || !IsSpace(s[k])
    ensures FirstNonSpace(s, i) == k
    decreases k - i
  {
    if i < k {
      FirstNonSpaceAt(s, i + 1, k);
    }
  }

  /** Leading white space is all that trimStart removes. */
  lemma TrimStartSkipsSpaces(ws: string, x: string)
    requires AllSpace(ws)
    requires x == [] || !IsSpace(x[0])
    ensures TrimStart(ws + x) == x
  {
    var s := ws + x;
    FirstNonSpaceAt(s, 0, |ws|);
    assert s[|ws|..] == x;
  }

  /** A run of '0' digits, which `parseInt` reads as leading zeros. */
  predicate AllZeros(z: string) {
    forall i :: 0 <= i < |z| ==> z[i] == '0'
  }

  /** Leading zeros do not change the value of a numeral. */
  lemma {:induction false} NumeralValueOfPadded(zeros: string, ds: string)
    requires AllZeros(zeros) && AllDigits(ds)
    ensures AllDigits(zeros + ds) && NumeralValue(zeros + ds) == NumeralValue(ds)
    decreases |ds|
  {
    var s := zeros + ds;
    assert AllDigits(s) by {
      forall i | 0 <= i < |s| ensures IsDigit(s[i]) {
        if i < |zeros| { assert s[i] == zeros[i]; } else { assert s[i] == ds[i - |zeros|]; }
      }
    }
    if ds == [] {
      assert s == zeros;
      ZerosHaveNoValue(zeros);
    } else {
      assert s[..|s| - 1] == zeros + ds[..|ds| - 1];
      assert s[|s| - 1] == ds[|ds| - 1];
      NumeralValueOfPadded(zeros, ds[..|ds| - 1]);
    }
  }

  lemma {:induction false} ZerosHaveNoValue(zeros: string)
    requires AllZeros(zeros)
    ensures AllDigits(zeros) && NumeralValue(zeros) == 0
    decreases |zeros|
  {
    if zeros != [] {
      ZerosHaveNoValue(zeros[..|zeros| - 1]);
    }
  }

  /**
   * parseInt reads a numeral back: after any white space and an optional
   * sign, the numeral of n, with any number of leading zeros, followed by
   * anything that is not a digit parses to n, negated under a minus sign.
   */
  lemma ParseIntReadsNumeral(ws: string, sign: string, zeros: string, n: nat, rest: string)
    requires AllSpace(ws)
    requires sign == "" || sign == "+" || sign == "-"
    requires AllZeros(zeros)
    requires rest == [] || !IsDigit(rest[0])
    ensures ParseInt(ws + sign + zeros + Decimal(n) + rest) == Some(if sign == "-" then -(n as int) else n)
  {
    NumeralValueOfPadded(zeros, Decimal(n));
    Regroup(ws, sign, zeros, Decimal(n), rest);
    ParseIntReadsDigits(ws, sign, zeros + Decimal(n), rest);
  }

  lemma ParseIntReadsDigits(ws: string, sign: string, d: string, rest: string)
    requires AllSpace(ws)
    requires sign == "" || sign == "+" || sign == "-"
    requires d != [] && AllDigits(d)
    requires rest == [] || !IsDigit(rest[0])
    ensures ParseInt(ws + sign + d + rest) == Some(if sign == "-" then -(NumeralValue(d) as int) else NumeralValue(d))
  {
    var t := sign + d + rest;
    SignedNumeral(sign, d, rest);
    DigitPrefixOfNumeral(d, rest);
    Associative(ws, sign, d, rest);
    TrimStartSkipsSpaces(ws, t);
    ParseIntOfTrimmed(ws + t, t, d, sign == "-");
  }

  lemma Regroup(a: string, b: string, c: string, d: string, e: string)
    ensures a + b + c + d + e == a + b + (c + d) + e
  {
  }

  lemma Associative(a: string, b: string, c: string, d: string)
    ensures a + b + c + d == a + (b + c + d)
  {
  }

  lemma SignedNumeral(sign: string, d: string, rest: string)
    requires sign == "" || sign == "+" || sign == "-"
    requires d != [] && AllDigits(d)
    ensures var t := sign + d + rest;
      t != [] && !IsSpace(t[0]) && (t[0] == '-') == (sign == "-") && Unsigned(t) == d + rest
  {
    var t := sign + d + rest;
    if sign == "" {
      assert t == d + rest;
    } else {
      assert t == [sign[0]] + (d + rest);
    }
  }

  lemma ParseIntOfTrimmed(s: string, t: string, d: string, neg: bool)
    requires TrimStart(s) == t && t != []
    requires DigitPrefix(Unsigned(t)) == d && d != []
    requires (t[0] == '-') == neg
    ensures ParseInt(s) == Some(if neg then -(NumeralValue(d) as int) else NumeralValue(d))
  {
  }

  lemma {:induction false} EndOfNonSpaceAt(s: string, j: nat, k: nat)
    requires k <= j <= |s| && SpacesIn(s, k, j)
    requires k == 0 || !IsSpace(s[k - 1])
    ensures EndOfNonSpace(s, j) == k
    decreases j - k
  {
    if k < j {
      EndOfNonSpaceAt(s, j - 1, k);
    }
  }

  /** Trim removes exactly the white space around a text that starts and ends with a non-space character. */
  lemma TrimPadded(ws1: string, x: string, ws2: string)
    requires AllSpace(ws1) && AllSpace(ws2)
    requires x != [] && !IsSpace(x[0]) && !IsSpace(x[|x| - 1])
    ensures Trim(ws1 + x + ws2) == x
  {
    var s := ws1 + x + ws2;
    var a, b := |ws1|, |ws1| + |x|;
    assert s[a] == x[0] && s[b - 1] == x[|x| - 1];
    FirstNonSpaceAt(s, 0, a);
    EndOfNonSpaceAt(s, |s|, b);
    assert s[a..b] == x;
  }
}
