/**
 `getTokenName`: cutting the string out of an ABI-encoded answer, stripping its padding by reversing it,
 and turning it into character codes, which the UTF-8 decoder then takes over.
 */
module TokenName {
  import opened Base

  type Byte = b: int | 0 <= b < 256

  // ---------------------------------------------------------------------------------------------
  // Hexadecimal
  // ---------------------------------------------------------------------------------------------

  const DIGITS: string := "0123456789abcdef"

  predicate IsHexDigit(c: char) {
    '0' <= c <= '9' || 'a' <= c <= 'f' || 'A' <= c <= 'F'
  }

  function DigitValue(c: char): nat {
    if '0' <= c <= '9' then (c - '0') as nat
    else if 'a' <= c <= 'f' then (c - 'a') as nat + 10
    else if 'A' <= c <= 'F' then (c - 'A') as nat + 10
    else 0
  }

  /** Two digits a byte, high nibble first. */
  function Hex(bs: seq<Byte>): (s: string)
    ensures |s| == 2 * |bs|
  {
    if bs == [] then "" else [DIGITS[bs[0] / 16], DIGITS[bs[0] % 16]] + Hex(bs[1..])
  }

  /** The same with the nibbles of every byte swapped. */
  function SwappedHex(bs: seq<Byte>): string {
    if bs == [] then "" else [DIGITS[bs[0] % 16], DIGITS[bs[0] / 16]] + SwappedHex(bs[1..])
  }

  function Reverse<T>(s: seq<T>): (r: seq<T>)
    ensures |r| == |s|
  {
    if s == [] then [] else Reverse(s[1..]) + [s[0]]
  }

  /** `replace(/^0x/i, '')` */
  function StripPrefix(s: string): string {
    if |s| >= 2 && s[0] == '0' && (s[1] == 'x' || s[1] == 'X') then s[2..] else s
  }

  /** Remove every leading "00". */
  function StripPairs(s: string): string {
    if |s| >= 2 && s[0] == '0' && s[1] == '0' then StripPairs(s[2..]) else s
  }

  /** White space and line terminators of ECMAScript, which `parseInt` skips. */
  predicate IsSpace(c: char) {
    || '\U{9}' <= c <= '\U{D}' || c == ' ' || c == '\U{A0}' || c == '\U{1680}' || '\U{2000}' <= c <= '\U{200A}'
    || c == '\U{2028}' || c == '\U{2029}' || c == '\U{202F}' || c == '\U{205F}' || c == '\U{3000}' || c == '\U{FEFF}'
  }

  function TrimStart(s: string): string {
    if s != "" && IsSpace(s[0]) then TrimStart(s[1..]) else s
  }

  /** The digits a string begins with. */
  function LeadingDigits(s: string): string {
    if s != "" && IsHexDigit(s[0]) then [s[0]] + LeadingDigits(s[1..]) else ""
  }

  function HexValue(digits: string): nat {
    if digits == "" then 0
    else HexValue(digits[..|digits| - 1]) * 16 + DigitValue(digits[|digits| - 1])
  }

  /** `parseInt(s, 16)`; None is NaN. */
  function ParseHex(s: string): Option<int> {
    var trimmed := TrimStart(s);
    var negative := trimmed != "" && trimmed[0] == '-';
    var unsigned := if trimmed != "" && trimmed[0] in {'-', '+'} then trimmed[1..] else trimmed;
    var digits := LeadingDigits(StripPrefix(unsigned));
    if digits == "" then None else Some(if negative then 0 - HexValue(digits) else HexValue(digits))
  }

  /** `String.fromCharCode(code)`, as the code unit it makes: 16 bits of the number, zero for NaN. */
  function CharCode(code: Option<int>): (unit: nat)
    ensures unit <= 0xFFFF
  {
    match code
    case None => 0
    case Some(value) => value % 0x1_0000
  }

  /** The code of every other `hex.substr(i, 2)`. */
  function Codes(s: string): seq<nat> {
    if s == "" then []
    else if |s| == 1 then [CharCode(ParseHex(s))]
    else [CharCode(ParseHex(s[..2]))] + Codes(s[2..])
  }

  function Strip(s: string): string {
    Reverse(StripPairs(Reverse(StripPairs(StripPrefix(s)))))
  }

  /** `hexToUtf8` up to the UTF-8 decoding of `str`. */
  method HexToCodes(input: string) returns (str: seq<nat>)
    ensures str == Codes(Strip(input))
  {
    str := [];
    var hex := StripPrefix(input);
    hex := StripPairs(hex);
    hex := Reverse(hex);
    hex := StripPairs(hex);
    hex := Reverse(hex);
    hide ParseHex, CharCode;
    var l := |hex|;
    var i := 0;
    assert hex[0..] == hex;
    while i < l
      invariant 0 <= i
      invariant Codes(hex) == str + Codes(if i <= l then hex[i..] else "")
    {
      var code := ParseHex(if i + 2 <= l then hex[i..i + 2] else hex[i..]);
      if i + 2 <= l {
        assert hex[i..][2..] == hex[i + 2..] && hex[i..][..2] == hex[i..i + 2];
      }
      str := str + [CharCode(code)];
      i := i + 2;
    }
  }

  // ---------------------------------------------------------------------------------------------
  // Stripping is trimming
  // ---------------------------------------------------------------------------------------------

  function DropLeading(bs: seq<Byte>): seq<Byte> {
    if bs != [] && bs[0] == 0 then DropLeading(bs[1..]) else bs
  }

  function DropTrailing(bs: seq<Byte>): seq<Byte> {
    if bs != [] && bs[|bs| - 1] == 0 then DropTrailing(bs[..|bs| - 1]) else bs
  }

  /** The bytes without zero bytes at either end. */
  function TrimZeros(bs: seq<Byte>): seq<Byte> {
    DropTrailing(DropLeading(bs))
  }

  lemma {:induction false} StripPairsHex(bs: seq<Byte>)
    ensures StripPairs(Hex(bs)) == Hex(DropLeading(bs))
    ensures StripPairs(SwappedHex(bs)) == SwappedHex(DropLeading(bs))
  {
    if bs != [] {
      DigitZero(bs[0]);
      assert Hex(bs)[2..] == Hex(bs[1..]) && SwappedHex(bs)[2..] == SwappedHex(bs[1..]);
      StripPairsHex(bs[1..]);
    }
  }

  lemma DigitZero(b: Byte)
    ensures DIGITS[b / 16] == '0' && DIGITS[b % 16] == '0' <==> b == 0
    ensures DigitValue(DIGITS[b / 16]) == b / 16 && DigitValue(DIGITS[b % 16]) == b % 16
    ensures IsHexDigit(DIGITS[b / 16]) && IsHexDigit(DIGITS[b % 16])
    ensures DIGITS[b / 16] != 'x' && DIGITS[b % 16] != 'x' && DIGITS[b / 16] != 'X' && DIGITS[b % 16] != 'X'
  {
    assert forall d :: 0 <= d < 16 ==>
      && DigitValue(DIGITS[d]) == d && IsHexDigit(DIGITS[d]) && DIGITS[d] !in {'x', 'X'}
      && (DIGITS[d] == '0' <==> d == 0);
  }

  lemma {:induction false} ReverseConcat<T>(a: seq<T>, b: seq<T>)
    ensures Reverse(a + b) == Reverse(b) + Reverse(a)
  {
    if a == [] {
      assert a + b == b;
    } else {
      assert (a + b)[1..] == a[1..] + b;
      ReverseConcat(a[1..], b);
    }
  }

  lemma {:induction false} HexConcat(a: seq<Byte>, b: seq<Byte>)
    ensures Hex(a + b) == Hex(a) + Hex(b) && SwappedHex(a + b) == SwappedHex(a) + SwappedHex(b)
  {
    if a == [] {
      assert a + b == b;
    } else {
      assert (a + b)[1..] == a[1..] + b;
      HexConcat(a[1..], b);
    }
  }

  /** Reversing the digits reverses the bytes and swaps their nibbles. */
  lemma {:induction false} ReverseHex(bs: seq<Byte>)
    ensures Reverse(Hex(bs)) == SwappedHex(Reverse(bs))
    ensures Reverse(SwappedHex(bs)) == Hex(Reverse(bs))
  {
    if bs != [] {
      var hi, lo := DIGITS[bs[0] / 16], DIGITS[bs[0] % 16];
      ReverseHex(bs[1..]);
      ReverseConcat([hi, lo], Hex(bs[1..]));
      ReverseConcat([lo, hi], SwappedHex(bs[1..]));
      HexConcat(Reverse(bs[1..]), [bs[0]]);
      assert [bs[0]][1..] == [] && Hex([bs[0]]) == [hi, lo] && SwappedHex([bs[0]]) == [lo, hi];
      ReversePair(hi, lo);
      ReversePair(lo, hi);
    }
  }

  lemma ReversePair<T>(a: T, b: T)
    ensures Reverse([a, b]) == [b, a]
  {
    assert [a, b][1..] == [b] && [b][1..] == [];
  }

  lemma {:induction false} ReverseTwice<T>(s: seq<T>)
    ensures Reverse(Reverse(s)) == s
  {
    if s != [] {
      ReverseConcat(Reverse(s[1..]), [s[0]]);
      ReverseTwice(s[1..]);
      assert [s[0]][1..] == [] && Reverse([s[0]]) == [s[0]];
    }
  }

  lemma {:induction false} DropTrailingIsReversed(bs: seq<Byte>)
    ensures Reverse(DropLeading(Reverse(bs))) == DropTrailing(bs)
    decreases |bs|
  {
    if bs != [] {
      var init, last := bs[..|bs| - 1], bs[|bs| - 1];
      assert bs == init + [last] && [last][1..] == [];
      ReverseConcat(init, [last]);
      assert Reverse(bs) == [last] + Reverse(init) && Reverse(bs)[1..] == Reverse(init);
      if last == 0 {
        DropTrailingIsReversed(init);
      } else {
        ReverseTwice(bs);
      }
    }
  }

  /** On printed bytes, prefixed or not, strip, reverse, strip, reverse trims zero bytes and nothing else. */
  lemma StripHex(bs: seq<Byte>)
    ensures Strip(Hex(bs)) == Strip("0x" + Hex(bs)) == Strip("0X" + Hex(bs)) == Hex(TrimZeros(bs))
  {
    HexPrefix(bs);
    hide StripPrefix;
    var lead := DropLeading(bs);
    StripPairsHex(bs);
    ReverseHex(lead);
    StripPairsHex(Reverse(lead));
    ReverseHex(DropLeading(Reverse(lead)));
    DropTrailingIsReversed(lead);
  }

  lemma HexPrefix(bs: seq<Byte>)
    ensures StripPrefix(Hex(bs)) == StripPrefix("0x" + Hex(bs)) == StripPrefix("0X" + Hex(bs)) == Hex(bs)
  {
    assert ("0x" + Hex(bs))[2..] == ("0X" + Hex(bs))[2..] == Hex(bs);
    if bs != [] {
      DigitZero(bs[0]);
    }
  }

  lemma Nibbles(b: Byte)
    ensures b == b / 16 * 16 + b % 16
  {
  }

  lemma {:induction false} CodesHex(bs: seq<Byte>)
    ensures Codes(Hex(bs)) == bs
  {
    hide DigitValue, IsHexDigit, ParseHex, CharCode;
    if bs != [] {
      var s, hi, lo := Hex(bs), DIGITS[bs[0] / 16], DIGITS[bs[0] % 16];
      assert s == [hi, lo] + Hex(bs[1..]);
      DigitZero(bs[0]);
      Nibbles(bs[0]);
      CodesHex(bs[1..]);
      CodesPair(hi, lo, Hex(bs[1..]));
    }
  }

  lemma CodesPair(hi: char, lo: char, rest: string)
    requires IsHexDigit(hi) && IsHexDigit(lo)
    ensures Codes([hi, lo] + rest) == [DigitValue(hi) * 16 + DigitValue(lo)] + Codes(rest)
  {
    hide ParseHex, CharCode;
    assert ([hi, lo] + rest)[2..] == rest && ([hi, lo] + rest)[..2] == [hi, lo];
    TwoDigits(hi, lo);
  }

  lemma TwoDigits(hi: char, lo: char)
    requires IsHexDigit(hi) && IsHexDigit(lo)
    ensures CharCode(ParseHex([hi, lo])) == DigitValue(hi) * 16 + DigitValue(lo)
  {
    var s := [hi, lo];
    assert TrimStart(s) == s && StripPrefix(s) == s && LeadingDigits(s) == s by {
      assert s[1..] == [lo] && s[1..][1..] == "";
      assert LeadingDigits(s[1..][1..]) == "" && LeadingDigits(s[1..]) == [lo];
    }
    assert HexValue(s) == DigitValue(hi) * 16 + DigitValue(lo) by {
      assert s[..1] == [hi] && s[..1][..0] == "";
      assert HexValue(s[..1][..0]) == 0 && HexValue(s[..1]) == DigitValue(hi);
    }
    hide TrimStart, StripPrefix, LeadingDigits, HexValue;
    assert ParseHex(s) == Some(HexValue(s));
  }

  lemma DigitValues()
    ensures forall i :: 0 <= i < 16 ==> DigitValue("0123456789abcdef"[i]) == i && DigitValue("0123456789ABCDEF"[i]) == i
    ensures forall c :: IsHexDigit(c) <==> c in "0123456789abcdefABCDEF"
  {
    var all := "0123456789abcdefABCDEF";
    forall c | IsHexDigit(c) ensures c in all {
      var k := if c <= '9' then (c - '0') as nat else if c >= 'a' then (c - 'a') as nat + 10 else (c - 'A') as nat + 16;
      assert all[k] == c;
    }
  }

  /**
   The code of any two characters. What is no number counts as far as it is one: a sign or white space may lead,
   a character that is no digit ends it, and where there is no digit the code is zero.
   */
  lemma PairCode(a: char, b: char)
    ensures CharCode(ParseHex([a, b])) ==
            if IsHexDigit(a) then if IsHexDigit(b) then DigitValue(a) * 16 + DigitValue(b) else DigitValue(a)
            else if IsHexDigit(b) && (IsSpace(a) || a == '+') then DigitValue(b)
            else if IsHexDigit(b) && a == '-' then (0x1_0000 - DigitValue(b)) % 0x1_0000
            else 0
  {
    if IsHexDigit(a) && IsHexDigit(b) {
      TwoDigits(a, b);
    } else {
      var s := [a, b];
      assert s[1..] == [b] && s[1..][1..] == "" && s[2..] == "";
      OneDigit(a);
      OneDigit(b);
      hide HexValue, DigitValue;
      assert TrimStart("") == "" && LeadingDigits("") == "";
      assert TrimStart([b]) == (if IsSpace(b) then "" else [b]);
      assert LeadingDigits([b]) == (if IsHexDigit(b) then [b] else "");
      assert LeadingDigits(s) == (if IsHexDigit(a) then [a] else "");
    }
  }

  lemma OneDigit(c: char)
    ensures HexValue([c]) == DigitValue(c) < 16
    ensures TrimStart([c]) == (if IsSpace(c) then "" else [c])
    ensures CharCode(ParseHex([c])) == if IsHexDigit(c) then DigitValue(c) else 0
  {
    assert [c][..0] == "" && [c][1..] == "";
    assert HexValue([c][..0]) == 0 && HexValue([c]) == DigitValue(c);
    assert LeadingDigits([c]) == (if IsHexDigit(c) then [c] else "");
    hide HexValue;
  }

  // ---------------------------------------------------------------------------------------------
  // The ABI encoding of a string
  // ---------------------------------------------------------------------------------------------

  function Zeros(n: nat): (bs: seq<Byte>)
    ensures |bs| == n
  {
    seq(n, _ => 0)
  }

  /** `n` in `width` bytes, big-endian. */
  function BigEndian(n: nat, width: nat): (bs: seq<Byte>)
    ensures |bs| == width
  {
    if width == 0 then [] else BigEndian(n / 256, width - 1) + [n % 256]
  }

  /** A string as the only return value: an offset word, a length word, the bytes padded with zeros to whole words. */
  function AbiEncode(bs: seq<Byte>): string {
    "0x" + Hex(BigEndian(32, 32) + BigEndian(|bs|, 32) + bs + Zeros((32 - |bs| % 32) % 32))
  }

  /** `getTokenName`: drop the prefix and the two words, and convert the rest. */
  function NameCodes(answer: string): seq<nat> {
    Codes(Strip(if |answer| <= 130 then "" else answer[130..]))
  }

  lemma {:induction false} TrimPadding(bs: seq<Byte>, n: nat)
    ensures TrimZeros(bs + Zeros(n)) == TrimZeros(bs)
    decreases n
  {
    if n == 0 {
      assert bs + Zeros(0) == bs;
    } else {
      DropLeadingPadding(bs, n);
    }
  }

  lemma {:induction false} DropLeadingPadding(bs: seq<Byte>, n: nat)
    ensures DropTrailing(DropLeading(bs + Zeros(n))) == DropTrailing(DropLeading(bs))
    decreases |bs|
  {
    if bs == [] {
      assert bs + Zeros(n) == Zeros(n);
      DropAllZeros(n);
    } else if bs[0] == 0 {
      assert (bs + Zeros(n))[1..] == bs[1..] + Zeros(n);
      DropLeadingPadding(bs[1..], n);
    } else {
      DropTrailingPadding(bs, n);
    }
  }

  lemma {:induction false} DropAllZeros(n: nat)
    ensures DropLeading(Zeros(n)) == []
  {
    if n > 0 {
      assert Zeros(n)[1..] == Zeros(n - 1);
      DropAllZeros(n - 1);
    }
  }

  lemma {:induction false} DropTrailingPadding(bs: seq<Byte>, n: nat)
    ensures DropTrailing(bs + Zeros(n)) == DropTrailing(bs)
    decreases n
  {
    if n == 0 {
      assert bs + Zeros(0) == bs;
    } else {
      var padded := bs + Zeros(n);
      assert padded[..|padded| - 1] == bs + Zeros(n - 1);
      DropTrailingPadding(bs, n - 1);
    }
  }

  lemma {:induction false} TrimLength(bs: seq<Byte>)
    ensures |DropLeading(bs)| <= |bs| && |DropTrailing(bs)| <= |bs|
    decreases |bs|
  {
    if bs != [] {
      TrimLength(bs[1..]);
      TrimLength(bs[..|bs| - 1]);
    }
  }

  /**
   Token names: the codes handed to the UTF-8 decoder are the encoded bytes without zero bytes at either
   end, for every byte string, so they are exactly the encoded bytes if and only if those neither begin nor
   end with a zero byte. A zero nibble at the end is no obstacle.
   */
  lemma NameRoundTrip(bs: seq<Byte>)
    ensures NameCodes(AbiEncode(bs)) == TrimZeros(bs)
    ensures NameCodes(AbiEncode(bs)) == bs <==> bs == [] || (bs[0] != 0 && bs[|bs| - 1] != 0)
  {
    var header, pad := BigEndian(32, 32) + BigEndian(|bs|, 32), Zeros((32 - |bs| % 32) % 32);
    HexConcat(header, bs + pad);
    assert BigEndian(32, 32) + BigEndian(|bs|, 32) + bs + pad == header + (bs + pad);
    var answer := AbiEncode(bs);
    assert answer == ("0x" + Hex(header)) + Hex(bs + pad);
    assert (if |answer| <= 130 then "" else answer[130..]) == Hex(bs + pad);
    StripHex(bs + pad);
    TrimPadding(bs, |pad|);
    CodesHex(TrimZeros(bs));
    if bs != [] {
      TrimLength(bs);
      TrimLength(bs[1..]);
      TrimLength(bs[..|bs| - 1]);
      TrimLength(DropLeading(bs));
    }
  }
}
