/** Byte strings: big-endian integers, left padding, hex text and cutting at a separator, as
    `math/big`, `encoding/hex`, `bytes` and go-ethereum's `common` package define them. */
module Bytes {
  import opened Outcomes

  type Byte = b: int | 0 <= b < 256

  // ---------- big-endian integers ----------

  /** big.Int.Bytes: the shortest big-endian representation; zero is the empty string. */
  function ToBytes(n: nat): seq<Byte> {
    if n == 0 then [] else ToBytes(n / 256) + [n % 256]
  }

  /** big.Int.SetBytes. */
  function SetBytes(s: seq<Byte>): nat {
    if s == [] then 0 else 256 * SetBytes(s[..|s| - 1]) + s[|s| - 1]
  }

  function Pow256(k: nat): nat {
    if k == 0 then 1 else 256 * Pow256(k - 1)
  }

  function Zeros(n: nat): seq<Byte> {
    seq(n, _ => 0)
  }

  /** common.LeftPadBytes: a string that is already long enough is left alone. */
  function LeftPad(s: seq<Byte>, n: nat): seq<Byte> {
    if |s| >= n then s else Zeros(n - |s|) + s
  }

  /** SetBytes undoes Bytes. */
  lemma {:induction false} SetBytesToBytes(n: nat)
    ensures SetBytes(ToBytes(n)) == n
  {
    if n != 0 {
      SetBytesToBytes(n / 256);
      var s := ToBytes(n);
      assert s[..|s| - 1] == ToBytes(n / 256);
    }
  }

  /** A number below 256^k needs at most k bytes. */
  lemma {:induction false} ToBytesLength(n: nat, k: nat)
    requires n < Pow256(k)
    ensures |ToBytes(n)| <= k
  {
    if n != 0 {
      ToBytesLength(n / 256, k - 1);
    }
  }

  lemma {:induction false} SetBytesZeros(n: nat, s: seq<Byte>)
    ensures SetBytes(Zeros(n) + s) == SetBytes(s)
    decreases |s|, n
  {
    var t := Zeros(n) + s;
    if s != [] {
      assert t[..|t| - 1] == Zeros(n) + s[..|s| - 1];
      SetBytesZeros(n, s[..|s| - 1]);
    } else if n != 0 {
      assert t[..|t| - 1] == Zeros(n - 1) + s;
      SetBytesZeros(n - 1, s);
    }
  }

  /** Padding keeps the number and makes the width exact. */
  lemma PaddedRoundTrip(n: nat, k: nat)
    requires n < Pow256(k)
    ensures |LeftPad(ToBytes(n), k)| == k
    ensures SetBytes(LeftPad(ToBytes(n), k)) == n
  {
    ToBytesLength(n, k);
    SetBytesToBytes(n);
    SetBytesZeros(k - |ToBytes(n)|, ToBytes(n));
  }

  /** Bytes appended on the right never make the number smaller. */
  lemma {:induction false} SetBytesGrows(s: seq<Byte>, extra: seq<Byte>)
    ensures SetBytes(s + extra) >= SetBytes(s)
    decreases |extra|
  {
    if extra == [] {
      assert s + extra == s;
    } else {
      var t := s + extra;
      assert t[..|t| - 1] == s + extra[..|extra| - 1];
      SetBytesGrows(s, extra[..|extra| - 1]);
    }
  }

  // ---------- hex text ----------

  function HexDigit(d: nat): char
    requires d < 16
  {
    if d < 10 then '0' + d as char else 'a' + (d - 10) as char
  }

  /** The value of a hex digit of either case. */
  function HexValue(c: char): Option<nat> {
    if '0' <= c <= '9' then Some(c as int - '0' as int)
    else if 'a' <= c <= 'f' then Some(c as int - 'a' as int + 10)
    else if 'A' <= c <= 'F' then Some(c as int - 'A' as int + 10)
    else None
  }

  /** hex.EncodeToString, which is also common.Bytes2Hex. */
  function ToHex(s: seq<Byte>): string {
    if s == [] then "" else [HexDigit(s[0] / 16), HexDigit(s[0] % 16)] + ToHex(s[1..])
  }

  /** The bytes read before the first fault; hex.DecodeString hands them out next to its error. */
  function DecodedPrefix(h: string): seq<Byte> {
    if |h| < 2 then []
    else
      match (HexValue(h[0]), HexValue(h[1]))
      case (Some(hi), Some(lo)) =>
        if hi < 16 && lo < 16 then [16 * hi + lo] + DecodedPrefix(h[2..]) else []
      case _ => []
  }

  /** hex.DecodeString: an odd length or a foreign character is an error. */
  function DecodeString(h: string): Option<seq<Byte>> {
    var s := DecodedPrefix(h);
    if 2 * |s| == |h| then Some(s) else None
  }

  /** common.FromHex: an optional 0x, a missing leading zero, errors ignored. */
  function FromHex(h: string): seq<Byte> {
    var bare := if |h| >= 2 && h[0] == '0' && (h[1] == 'x' || h[1] == 'X') then h[2..] else h;
    DecodedPrefix(if |bare| % 2 == 1 then "0" + bare else bare)
  }

  /** hexutil.Encode and common.Hash.Hex. */
  function Prefixed(s: seq<Byte>): string {
    "0x" + ToHex(s)
  }

  lemma HexDigitRoundTrip(d: nat)
    requires d < 16
    ensures HexValue(HexDigit(d)) == Some(d)
  {
  }

  lemma {:induction false} HexRoundTrip(s: seq<Byte>)
    ensures |ToHex(s)| == 2 * |s|
    ensures DecodedPrefix(ToHex(s)) == s
    ensures DecodeString(ToHex(s)) == Some(s)
  {
    if s != [] {
      HexDigitRoundTrip(s[0] / 16);
      HexDigitRoundTrip(s[0] % 16);
      HexRoundTrip(s[1..]);
      assert ToHex(s)[2..] == ToHex(s[1..]);
      assert s == [s[0]] + s[1..];
    }
  }

  /** FromHex reads back both spellings the bridge uses, with and without the 0x. */
  lemma FromHexRoundTrip(s: seq<Byte>)
    ensures FromHex(ToHex(s)) == s
    ensures FromHex(Prefixed(s)) == s
  {
    HexRoundTrip(s);
    assert Prefixed(s)[2..] == ToHex(s);
    if s != [] {
      assert ToHex(s)[1] == HexDigit(s[0] % 16);
    }
  }

  const HEX_DIGITS: string := "0123456789abcdefABCDEF"

  /** The digits are these and no others. */
  lemma HexValueIff(c: char)
    ensures HexValue(c).Some? <==> c in HEX_DIGITS
  {
    assert c in HEX_DIGITS <==> exists i :: 0 <= i < 22 && HEX_DIGITS[i] == c;
    if HexValue(c).Some? {
      var v := HexValue(c).value;
      var i := if 'A' <= c <= 'F' then v + 6 else v;
      assert HEX_DIGITS[i] == c;
    }
  }

  lemma {:induction false} DecodedLength(h: string)
    ensures 2 * |DecodedPrefix(h)| <= |h|
    ensures 2 * |DecodedPrefix(h)| == |h| <==> |h| % 2 == 0 && forall i :: 0 <= i < |h| ==> HexValue(h[i]).Some?
  {
    if |h| >= 2 && HexValue(h[0]).Some? && HexValue(h[1]).Some? {
      DecodedLength(h[2..]);
      assert forall i :: 2 <= i < |h| ==> h[i] == h[2..][i - 2];
      assert (forall i :: 0 <= i < |h| ==> HexValue(h[i]).Some?)
          <==> (forall i :: 0 <= i < |h[2..]| ==> HexValue(h[2..][i]).Some?);
    }
  }

  /** A text decodes if and only if its length is even and all its characters are digits. */
  lemma DecodeStringIff(h: string)
    ensures DecodeString(h).Some? <==> |h| % 2 == 0 && forall i :: 0 <= i < |h| ==> h[i] in HEX_DIGITS
  {
    DecodedLength(h);
    forall i | 0 <= i < |h|
      ensures HexValue(h[i]).Some? <==> h[i] in HEX_DIGITS
    {
      HexValueIff(h[i]);
    }
  }

  /** c is d, or the capital of d. */
  predicate SameLetter(c: char, d: char) {
    c == d || ('a' <= d <= 'f' && c as int == d as int - ('a' as int - 'A' as int))
  }

  /** h is t but for capitals, as the EIP-55 spelling of an address is. */
  predicate SameButCase(h: string, t: string) {
    |h| == |t| && forall i :: 0 <= i < |h| ==> SameLetter(h[i], t[i])
  }

  lemma CapitalDigit(c: char, d: nat)
    requires d < 16 && SameLetter(c, HexDigit(d))
    ensures HexValue(c) == Some(d) && c != 'x' && c != 'X'
  {
  }

  /** Letter case does not matter. */
  lemma {:induction false} CaseDoesNotMatter(s: seq<Byte>, h: string)
    requires SameButCase(h, ToHex(s))
    ensures |h| == 2 * |s| && DecodedPrefix(h) == s
  {
    if s != [] {
      assert ToHex(s)[0] == HexDigit(s[0] / 16) && ToHex(s)[1] == HexDigit(s[0] % 16) && ToHex(s)[2..] == ToHex(s[1..]);
      CapitalDigit(h[0], s[0] / 16);
      CapitalDigit(h[1], s[0] % 16);
      forall i | 0 <= i < |h[2..]|
        ensures SameLetter(h[2..][i], ToHex(s[1..])[i])
      {
        assert h[2..][i] == h[i + 2] && ToHex(s)[2..][i] == ToHex(s)[i + 2];
      }
      CaseDoesNotMatter(s[1..], h[2..]);
      assert s == [s[0]] + s[1..];
    }
  }

  /** h spells s, with or without the 0x and in any letter case. */
  predicate Spelled(h: string, s: seq<Byte>) {
    SameButCase(h, ToHex(s)) || (|h| >= 2 && h[..2] == "0x" && SameButCase(h[2..], ToHex(s)))
  }

  lemma FromHexOfSpelling(h: string, s: seq<Byte>)
    requires Spelled(h, s)
    ensures FromHex(h) == s
  {
    HexRoundTrip(s);
    if SameButCase(h, ToHex(s)) {
      CaseDoesNotMatter(s, h);
      if s != [] {
        assert ToHex(s)[1] == HexDigit(s[0] % 16);
        CapitalDigit(h[1], s[0] % 16);
      }
    } else {
      CaseDoesNotMatter(s, h[2..]);
      assert h[..2][0] == '0' && h[..2][1] == 'x';
    }
  }

  /** An odd number of digits is read as if a zero stood in front. */
  lemma OddSpelling(d: nat, s: seq<Byte>)
    requires d < 16
    ensures FromHex([HexDigit(d)] + ToHex(s)) == [d] + s
  {
    HexRoundTrip(s);
    HexDigitRoundTrip(d);
    var h := [HexDigit(d)] + ToHex(s);
    var padded := "0" + h;
    assert padded[2..] == ToHex(s) && padded[0] == '0' && padded[1] == HexDigit(d);
    if s != [] {
      assert h[1] == HexDigit(s[0] / 16);
    }
  }

  // ---------- cutting ----------

  /** bytes.Cut(s, {0}): the part before the first zero byte. */
  function BeforeZero(s: seq<Byte>): seq<Byte> {
    if s == [] || s[0] == 0 then [] else [s[0]] + BeforeZero(s[1..])
  }

  predicate NoZero(s: seq<Byte>) {
    forall i :: 0 <= i < |s| ==> s[i] != 0
  }

  /** A name is cut out again, whatever stands behind the zero byte that ends it. */
  lemma {:induction false} NameIsCutOut(name: seq<Byte>, rest: seq<Byte>)
    requires NoZero(name)
    ensures BeforeZero(name + [0] + rest) == name
    ensures BeforeZero(name) == name
  {
    if name != [] {
      NameIsCutOut(name[1..], rest);
      assert (name + [0] + rest)[1..] == name[1..] + [0] + rest;
    }
  }

  /** A symbol as the contracts pass it: the name, filled up to a word with zero bytes. */
  function SymbolWord(name: seq<Byte>): seq<Byte>
    requires |name| <= 32
  {
    name + Zeros(32 - |name|)
  }

  lemma SymbolIsCutOut(name: seq<Byte>)
    requires NoZero(name) && |name| <= 32
    ensures |SymbolWord(name)| == 32 && SymbolWord(name)[..|name|] == name && BeforeZero(SymbolWord(name)) == name
  {
    if |name| < 32 {
      NameIsCutOut(name, Zeros(31 - |name|));
      assert SymbolWord(name) == name + [0] + Zeros(31 - |name|);
    } else {
      NameIsCutOut(name, []);
      assert SymbolWord(name) == name;
    }
  }
}
