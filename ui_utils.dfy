/**
 * Text helpers of the editor: JavaScript's `parseInt` as the size box and the
 * tutorial quiz use it, `trim`-based blank checks, `parseSizeTuple` of
 * uiUtils.js and the in-place `shuffleArray`.
 */
module UiUtils {
  import opened ArcConstants
  import opened ArcUtils

  // ---------------------------------------------------------------------------
  // JavaScript parseInt
  // ---------------------------------------------------------------------------

  /** ECMAScript WhiteSpace and LineTerminator code points: what `trim` and `parseInt` skip. */
  predicate IsJsSpace(c: char) {
    || c == '\t' || c == '\n' || c == '\U{B}' || c == '\U{C}' || c == '\r' || c == ' '
    || c == '\U{A0}' || c == '\U{1680}' || ('\U{2000}' <= c <= '\U{200A}')
    || c == '\U{2028}' || c == '\U{2029}' || c == '\U{202F}' || c == '\U{205F}'
    || c == '\U{3000}' || c == '\U{FEFF}'
  }

  /** Drops leading white space. */
  function TrimStart(s: string): (t: string)
    ensures |t| <= |s| && t == s[|s| - |t|..]
    ensures t == [] || !IsJsSpace(t[0])
  {
    if s != [] && IsJsSpace(s[0]) then TrimStart(s[1..]) else s
  }

  /** `s.trim() === ''`: the string is empty or white space only. */
  predicate IsBlank(s: string) {
    forall k :: 0 <= k < |s| ==> IsJsSpace(s[k])
  }

  /** The digit's value in any radix up to 36; 36 for a character that is no digit. */
  function DigitValue(c: char): (v: nat)
    ensures v <= 36
  {
    if '0' <= c <= '9' then c as int - '0' as int
    else if 'a' <= c <= 'z' then c as int - 'a' as int + 10
    else if 'A' <= c <= 'Z' then c as int - 'A' as int + 10
    else 36
  }

  /** Length of the longest prefix of `s` made of digits of the radix. */
  function DigitRun(s: string, radix: nat): (n: nat)
    ensures n <= |s|
    ensures forall k :: 0 <= k < n ==> DigitValue(s[k]) < radix
    ensures n < |s| ==> DigitValue(s[n]) >= radix
  {
    if s != [] && DigitValue(s[0]) < radix then 1 + DigitRun(s[1..], radix) else 0
  }

  /** The value of a digit string, most significant digit first. */
  function DigitsValue(d: string, radix: nat): nat {
    if d == [] then 0 else DigitsValue(d[..|d| - 1], radix) * radix + DigitValue(d[|d| - 1])
  }

  /** Whether a sign leads, and the text after it: parseInt reads one '-' or '+'. */
  function StripSign(t: string): (bool, string) {
    if t != [] && (t[0] == '-' || t[0] == '+') then (t[0] == '-', t[1..]) else (false, t)
  }

  /** An absent radix (0) or radix 16 accepts a leading `0x` or `0X`. */
  predicate HexPrefixed(u: string, radix: int) {
    (radix == 0 || radix == 16) && |u| >= 2 && u[0] == '0' && (u[1] == 'x' || u[1] == 'X')
  }

  /** The longest digit run at the start of `body`, or None when there is none. */
  function ReadDigits(body: string, radix: nat): (r: Option<nat>) {
    var n := DigitRun(body, radix);
    if n == 0 then None else Some(DigitsValue(body[..n], radix))
  }

  /**
   * `parseInt(s, radix)` with `radix` 0 standing for an absent radix: leading
   * white space is skipped, one sign is read, an absent radix or radix 16
   * accepts a `0x`/`0X` prefix (an absent radix then means 16, otherwise 10),
   * and the longest run of digits is read; no digit at all is NaN (None).
   * Radixes outside 2..36 give NaN. JavaScript's -0 is 0 here.
   */
  function ParseInt(s: string, radix: int): (r: Option<int>)
  {
    if radix != 0 && (radix < 2 || radix > 36) then None
    else
      var (negative, unsigned) := StripSign(TrimStart(s));
      ApplySign(negative, ParseUnsigned(unsigned, radix))
  }

  /** The digits after the sign, in the radix the prefix and the radix argument select. */
  function ParseUnsigned(u: string, radix: int): Option<nat>
    requires radix == 0 || 2 <= radix <= 36
  {
    if HexPrefixed(u, radix) then ReadDigits(u[2..], 16)
    else ReadDigits(u, if radix == 0 then 10 else radix)
  }

  function ApplySign(negative: bool, digits: Option<nat>): Option<int> {
    match digits
    case None => None
    case Some(v) => Some(if negative then -(v as int) else v)
  }

  /** Reading digits followed by a non-digit gives their value. */
  lemma ReadDigitsStops(d: string, tail: string, radix: nat)
    requires d != [] && forall k :: 0 <= k < |d| ==> DigitValue(d[k]) < radix
    requires tail == [] || DigitValue(tail[0]) >= radix
    ensures ReadDigits(d + tail, radix) == Some(DigitsValue(d, radix))
  {
    DigitRunOfDigits(d, tail, radix);
    assert (d + tail)[..|d|] == d;
  }

  lemma {:induction false} DigitsValueOfNatString(n: nat)
    ensures DigitsValue(NatString(n), 10) == n
    ensures forall k :: 0 <= k < |NatString(n)| ==> DigitValue(NatString(n)[k]) < 10
    decreases n
  {
    var s := NatString(n);
    if n >= 10 {
      DigitsValueOfNatString(n / 10);
      assert s[..|s| - 1] == NatString(n / 10);
    }
  }

  lemma {:induction false} DigitRunOfDigits(d: string, tail: string, radix: nat)
    requires forall k :: 0 <= k < |d| ==> DigitValue(d[k]) < radix
    requires tail == [] || DigitValue(tail[0]) >= radix
    ensures DigitRun(d + tail, radix) == |d|
  {
    if d != [] {
      assert (d + tail)[1..] == d[1..] + tail;
      DigitRunOfDigits(d[1..], tail, radix);
    } else {
      assert d + tail == tail;
    }
  }

  /**
   * Decimal parseInt reads a run of decimal digits and stops at the first
   * character that is no digit: "5.9" and "5 cells" both read as 5.
   */
  lemma ParseIntReadsDigits(d: string, tail: string)
    requires d != [] && forall k :: 0 <= k < |d| ==> '0' <= d[k] <= '9'
    requires tail == [] || DigitValue(tail[0]) >= 10
    ensures ParseInt(d + tail, 10) == Some(DigitsValue(d, 10))
  {
    NoSpaceFirst(d + tail);
    assert StripSign(d + tail) == (false, d + tail);
    ReadDigitsStops(d, tail, 10);
  }

  /** A leading minus sign negates the number the digits after it read as. */
  lemma ParseIntReadsNegative(d: string, v: int)
    requires d != [] && '0' <= d[0] <= '9'
    requires ParseInt(d, 10) == Some(v)
    ensures ParseInt("-" + d, 10) == Some(-v)
  {
    DigitFirstReadsUnsigned(d);
    MinusFirstReadsNegative(d);
    SignFlips(ParseUnsigned(d, 10), v);
  }

  lemma DigitFirstReadsUnsigned(d: string)
    requires d != [] && '0' <= d[0] <= '9'
    ensures ParseInt(d, 10) == ApplySign(false, ParseUnsigned(d, 10))
  {
    NoSpaceFirst(d);
  }

  lemma MinusFirstReadsNegative(d: string)
    ensures ParseInt("-" + d, 10) == ApplySign(true, ParseUnsigned(d, 10))
  {
    MinusSign(d);
  }

  lemma SignFlips(u: Option<nat>, v: int)
    requires ApplySign(false, u) == Some(v)
    ensures ApplySign(true, u) == Some(-v)
  {
  }

  lemma MinusSign(d: string)
    ensures StripSign(TrimStart("-" + d)) == (true, d)
  {
    NoSpaceFirst("-" + d);
    assert ("-" + d)[1..] == d;
  }

  lemma NoSpaceFirst(s: string)
    requires s != [] && (s[0] == '-' || '0' <= s[0] <= '9')
    ensures TrimStart(s) == s
  {
  }

  /** Decimal parseInt reads a number's decimal text back. */
  lemma ParseIntReadsNatString(n: nat)
    ensures ParseInt(NatString(n), 10) == Some(n)
  {
    DigitsValueOfNatString(n);
    ParseIntReadsDigits(NatString(n), []);
    assert NatString(n) + [] == NatString(n);
  }

  /** Text whose first character after white space and sign is no digit reads as NaN. */
  lemma ParseIntNoDigits(s: string)
    requires var t := TrimStart(s);
             var u := if t != [] && (t[0] == '-' || t[0] == '+') then t[1..] else t;
             u == [] || DigitValue(u[0]) >= 10
    ensures ParseInt(s, 10) == None
  {
  }

  /** Without a radix a `0x` prefix switches to hexadecimal; with radix 10 the same text reads as 0. */
  lemma ParseIntHexPrefix(h: string)
    requires h != [] && forall k :: 0 <= k < |h| ==> DigitValue(h[k]) < 16
    ensures ParseInt("0x" + h, 0) == Some(DigitsValue(h, 16))
    ensures ParseInt("0x" + h, 10) == Some(0)
  {
    var s := "0x" + h;
    NoSpaceFirst(s);
    assert StripSign(s) == (false, s);
    HexDigitsAfterPrefix(h);
    ZeroBeforeX(h);
  }

  lemma HexDigitsAfterPrefix(h: string)
    requires h != [] && forall k :: 0 <= k < |h| ==> DigitValue(h[k]) < 16
    ensures ParseUnsigned("0x" + h, 0) == Some(DigitsValue(h, 16))
  {
    var s := "0x" + h;
    assert HexPrefixed(s, 0);
    assert s[2..] == h + [];
    ReadDigitsStops(h, [], 16);
  }

  lemma ZeroBeforeX(h: string)
    ensures ParseUnsigned("0x" + h, 10) == Some(0)
  {
    var s := "0x" + h;
    assert !HexPrefixed(s, 10);
    assert s == "0" + ("x" + h);
    ReadDigitsStops("0", "x" + h, 10);
    assert "0"[..0] == [];
  }

  // ---------------------------------------------------------------------------
  // parseSizeTuple
  // ---------------------------------------------------------------------------

  datatype Size = Size(height: int, width: int)

  /** The four messages `parseSizeTuple` can show, in the order it checks them. */
  datatype SizeError = BadFormat | NotNumbers | TooSmall | TooLarge

  datatype SizeResult = Accepted(size: Size) | Rejected(error: SizeError)

  /**
   * Reads "HxW": exactly one 'x', two decimal numbers read leniently by
   * parseInt, each between 1 and MaxSize. The first failing check decides the
   * error; notifying the user of it is left out.
   */
  function ParseSizeTuple(s: string): (r: SizeResult)
    ensures r.Accepted? ==> 1 <= r.size.height <= MaxSize && 1 <= r.size.width <= MaxSize
    ensures r.Accepted? ==> |Split(s, 'x')| == 2
    ensures r.Accepted? ==> ParseInt(Split(s, 'x')[0], 10) == Some(r.size.height)
    ensures r.Accepted? ==> ParseInt(Split(s, 'x')[1], 10) == Some(r.size.width)
    ensures r == Rejected(BadFormat) <==> |Split(s, 'x')| != 2
  {
    var parts := Split(s, 'x');
    if |parts| != 2 then Rejected(BadFormat)
    else
      var height := ParseInt(parts[0], 10);
      var width := ParseInt(parts[1], 10);
      if height.None? || width.None? then Rejected(NotNumbers)
      else if height.value < 1 || width.value < 1 then Rejected(TooSmall)
      else if height.value > MaxSize || width.value > MaxSize then Rejected(TooLarge)
      else Accepted(Size(height.value, width.value))
  }

  /** The text the size box shows for a size. */
  function SizeText(h: nat, w: nat): string {
    NatString(h) + "x" + NatString(w)
  }

  /** "HxW" for two numbers splits at its one 'x' into their decimal texts, each read back by parseInt. */
  lemma SizeTextParts(h: nat, w: nat)
    ensures Split(SizeText(h, w), 'x') == [NatString(h), NatString(w)]
    ensures ParseInt(NatString(h), 10) == Some(h) && ParseInt(NatString(w), 10) == Some(w)
  {
    var a, b := NatString(h), NatString(w);
    assert 'x' !in a && 'x' !in b;
    SplitPrefix(a, 'x', b);
    SplitNone(b, 'x');
    ParseIntReadsNatString(h);
    ParseIntReadsNatString(w);
  }

  /** Any size the editor allows survives being written as "HxW" and parsed again. */
  lemma ParseSizeTupleRoundTrip(h: nat, w: nat)
    requires 1 <= h <= MaxSize && 1 <= w <= MaxSize
    ensures ParseSizeTuple(SizeText(h, w)) == Accepted(Size(h, w))
  {
    SizeTextParts(h, w);
  }

  /** Sizes out of range are refused with the message of the first check they fail. */
  lemma ParseSizeTupleRejects(h: nat, w: nat)
    ensures h < 1 || w < 1 ==> ParseSizeTuple(SizeText(h, w)) == Rejected(TooSmall)
    ensures h >= 1 && w >= 1 && (h > MaxSize || w > MaxSize) ==> ParseSizeTuple(SizeText(h, w)) == Rejected(TooLarge)
  {
    SizeTextParts(h, w);
  }

  // ---------------------------------------------------------------------------
  // shuffleArray
  // ---------------------------------------------------------------------------

  /**
   * The in-place Fisher-Yates shuffle: walking down from the end, each slot is
   * swapped with a slot at or below it, chosen at random (here: any such slot).
   * The loop runs once per element. Returns the same array, holding the same
   * elements.
   */
  method ShuffleArray<T>(a: array<T>) returns (r: array<T>, ghost iterations: nat)
    modifies a
    ensures r == a && iterations == a.Length
    ensures multiset(a[..]) == multiset(old(a[..]))
  {
    var currentIndex := a.Length;
    iterations := 0;
    while currentIndex != 0
      invariant 0 <= currentIndex <= a.Length
      invariant iterations == a.Length - currentIndex
      invariant multiset(a[..]) == multiset(old(a[..]))
    {
      var randomIndex :| 0 <= randomIndex < currentIndex;
      currentIndex := currentIndex - 1;
      a[currentIndex], a[randomIndex] := a[randomIndex], a[currentIndex];
      iterations := iterations + 1;
    }
    return a, iterations;
  }
}
