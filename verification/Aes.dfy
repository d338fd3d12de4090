/** Password encryption (tools/aes.go): PKCS#7 padding (section 6.3 of RFC 5652), CBC (section 6.2 of
    NIST SP 800-38A) and hex, over an invertible block function. */
module Aes {
  import opened Bytes

  const BLOCK: nat := 16

  /** The block cipher; `createKey` is CreateKey(seed, 16), of which only the length matters. */
  datatype Cipher = Cipher(enc: (seq<Byte>, seq<Byte>) -> seq<Byte>, dec: (seq<Byte>, seq<Byte>) -> seq<Byte>,
                           createKey: nat -> seq<Byte>)

  ghost predicate IsCipher(c: Cipher) {
    && (forall key, b :: |b| == BLOCK ==> |c.enc(key, b)| == BLOCK && c.dec(key, c.enc(key, b)) == b)
    && (forall key, b :: |b| == BLOCK ==> |c.dec(key, b)| == BLOCK)
    && (forall seed :: |c.createKey(seed)| == 16)
  }

  /** aes.NewCipher accepts keys of three lengths. */
  predicate KeyOk(key: seq<Byte>) {
    |key| == 16 || |key| == 24 || |key| == 32
  }

  // ---------- exclusive or ----------

  /** The exclusive or of the low n bits. */
  function XorBits(a: nat, b: nat, n: nat): nat {
    if n == 0 then 0 else 2 * XorBits(a / 2, b / 2, n - 1) + if a % 2 == b % 2 then 0 else 1
  }

  function Pow2(n: nat): nat {
    if n == 0 then 1 else 2 * Pow2(n - 1)
  }

  lemma {:induction false} XorTwice(a: nat, b: nat, n: nat)
    requires a < Pow2(n)
    ensures XorBits(a, b, n) < Pow2(n) && XorBits(XorBits(a, b, n), b, n) == a
  {
    if n > 0 {
      XorTwice(a / 2, b / 2, n - 1);
      var x := XorBits(a, b, n);
      assert x / 2 == XorBits(a / 2, b / 2, n - 1);
    }
  }

  /** Bit k of a number. */
  function Bit(a: nat, k: nat): nat {
    if k == 0 then a % 2 else Bit(a / 2, k - 1)
  }

  /** A bit of the exclusive or is set exactly when the two bits differ. */
  lemma {:induction false} XorIsBitwise(a: nat, b: nat, n: nat, k: nat)
    requires k < n
    ensures Bit(XorBits(a, b, n), k) == 1 <==> Bit(a, k) != Bit(b, k)
    ensures Bit(XorBits(a, b, n), k) <= 1
  {
    var x := XorBits(a, b, n);
    assert x / 2 == XorBits(a / 2, b / 2, n - 1);
    if k > 0 {
      XorIsBitwise(a / 2, b / 2, n - 1, k - 1);
    }
  }

  function XorByte(a: Byte, b: Byte): Byte {
    assert Pow2(8) == 256;
    XorTwice(a, b, 8);
    XorBits(a, b, 8)
  }

  function Xor(a: seq<Byte>, b: seq<Byte>): (r: seq<Byte>)
    requires |a| == |b|
    ensures |r| == |a|
  {
    seq(|a|, i requires 0 <= i < |a| => XorByte(a[i], b[i]))
  }

  lemma XorUndone(a: seq<Byte>, b: seq<Byte>)
    requires |a| == |b|
    ensures Xor(Xor(a, b), b) == a
  {
    assert Pow2(8) == 256;
    forall i | 0 <= i < |a|
      ensures XorByte(XorByte(a[i], b[i]), b[i]) == a[i]
    {
      XorTwice(a[i], b[i], 8);
    }
  }

  /** Byte by byte and bit by bit. */
  lemma XorMeans(a: seq<Byte>, b: seq<Byte>, i: nat, k: nat)
    requires |a| == |b| && i < |a| && k < 8
    ensures Bit(Xor(a, b)[i], k) == 1 <==> Bit(a[i], k) != Bit(b[i], k)
  {
    XorIsBitwise(a[i], b[i], 8, k);
  }

  // ---------- padding ----------

  function Pad(s: seq<Byte>): (r: seq<Byte>)
    ensures |r| == BLOCK * (|s| / BLOCK + 1)
  {
    var padding := BLOCK - |s| % BLOCK;
    s + seq(padding, _ => padding)
  }

  /** Removes as many bytes as the last one says; a text that would vanish or is too short is nil. */
  function Unpad(s: seq<Byte>): seq<Byte>
    requires s != []
  {
    var unpadding := s[|s| - 1];
    if |s| > unpadding then s[..|s| - unpadding] else []
  }

  /** PKCS#7: behind the text stand as many bytes as are missing to the next block, at least one, and
      each of them is their number. */
  lemma PadMeans(s: seq<Byte>)
    ensures var r, n := Pad(s), |Pad(s)| - |s|;
            && 1 <= n <= 16 && |r| % 16 == 0 && r[..|s|] == s
            && forall i :: |s| <= i < |r| ==> r[i] == n
  {
    assert |s| == BLOCK * (|s| / BLOCK) + |s| % BLOCK;
  }

  lemma UnpadPad(s: seq<Byte>)
    ensures Unpad(Pad(s)) == s
  {
    var r := Pad(s);
    assert r[|r| - 1] == BLOCK - |s| % BLOCK;
    assert r[..|s|] == s;
  }

  // ---------- cipher block chaining ----------

  function CbcEncrypt(c: Cipher, key: seq<Byte>, iv: seq<Byte>, s: seq<Byte>): (r: seq<Byte>)
    requires |iv| == BLOCK && |s| % BLOCK == 0
    requires forall k, b :: |b| == BLOCK ==> |c.enc(k, b)| == BLOCK
    ensures |r| == |s|
    decreases |s|
  {
    if s == [] then []
    else
      var block := c.enc(key, Xor(s[..BLOCK], iv));
      block + CbcEncrypt(c, key, block, s[BLOCK..])
  }

  function CbcDecrypt(c: Cipher, key: seq<Byte>, iv: seq<Byte>, s: seq<Byte>): (r: seq<Byte>)
    requires |iv| == BLOCK && |s| % BLOCK == 0
    requires forall k, b :: |b| == BLOCK ==> |c.dec(k, b)| == BLOCK
    ensures |r| == |s|
    decreases |s|
  {
    if s == [] then []
    else Xor(c.dec(key, s[..BLOCK]), iv) + CbcDecrypt(c, key, s[..BLOCK], s[BLOCK..])
  }

  /** Block j of a text. */
  function BlockAt(s: seq<Byte>, j: nat): seq<Byte>
    requires BLOCK * (j + 1) <= |s|
  {
    if j == 0 then s[..BLOCK] else BlockAt(s[BLOCK..], j - 1)
  }

  lemma {:induction false} BlockAtIs(s: seq<Byte>, j: nat)
    requires 16 * (j + 1) <= |s|
    ensures BlockAt(s, j) == s[16 * j..16 * (j + 1)]
  {
    if j > 0 {
      BlockAtIs(s[16..], j - 1);
      assert s[16..][16 * (j - 1)..16 * j] == s[16 * j..16 * (j + 1)];
    }
  }

  /** CBC (section 6.2 of NIST SP 800-38A): each block is encrypted after an exclusive or with the block
      of ciphertext before it, the first one with the iv. */
  lemma {:induction false} CbcMeans(c: Cipher, key: seq<Byte>, iv: seq<Byte>, s: seq<Byte>, j: nat)
    requires IsCipher(c) && |iv| == BLOCK && |s| % BLOCK == 0 && BLOCK * (j + 1) <= |s|
    ensures var r := CbcEncrypt(c, key, iv, s);
            var plain := BlockAt(s, j);
            |plain| == BLOCK && BlockAt(r, j) == c.enc(key, Xor(plain, if j == 0 then iv else BlockBefore(r, j)))
    decreases |s|
  {
    var block := c.enc(key, Xor(s[..BLOCK], iv));
    var r, rest := CbcEncrypt(c, key, iv, s), CbcEncrypt(c, key, block, s[BLOCK..]);
    assert r[..BLOCK] == block && r[BLOCK..] == rest;
    if j > 0 {
      CbcMeans(c, key, block, s[BLOCK..], j - 1);
    }
  }

  /** The block in front of block j. */
  function BlockBefore(s: seq<Byte>, j: nat): (r: seq<Byte>)
    requires j > 0 && BLOCK * (j + 1) <= |s|
    ensures |r| == BLOCK
  {
    BlockAtIs(s, j - 1);
    BlockAt(s, j - 1)
  }

  lemma {:induction false} CbcRoundTrip(c: Cipher, key: seq<Byte>, iv: seq<Byte>, s: seq<Byte>)
    requires IsCipher(c) && |iv| == BLOCK && |s| % BLOCK == 0
    ensures CbcDecrypt(c, key, iv, CbcEncrypt(c, key, iv, s)) == s
    decreases |s|
  {
    if s != [] {
      var block := c.enc(key, Xor(s[..BLOCK], iv));
      var r := CbcEncrypt(c, key, iv, s);
      assert r[..BLOCK] == block && r[BLOCK..] == CbcEncrypt(c, key, block, s[BLOCK..]);
      XorUndone(s[..BLOCK], iv);
      CbcRoundTrip(c, key, block, s[BLOCK..]);
      assert s == s[..BLOCK] + s[BLOCK..];
    }
  }

  /** The block before position n, or the iv. */
  function Predecessor(iv: seq<Byte>, s: seq<Byte>, n: nat): seq<Byte>
    requires n <= |s| && (n == 0 || n >= BLOCK)
  {
    if n == 0 then iv else s[n - BLOCK..n]
  }

  /** Decrypting from one block earlier puts that block's plaintext in front. */
  lemma DecryptOneEarlier(c: Cipher, key: seq<Byte>, iv: seq<Byte>, s: seq<Byte>, start: nat)
    requires IsCipher(c) && |iv| == BLOCK && |s| % BLOCK == 0 && start % BLOCK == 0 && start + BLOCK <= |s|
    ensures CbcDecrypt(c, key, Predecessor(iv, s, start), s[start..])
         == Xor(c.dec(key, s[start..start + BLOCK]), Predecessor(iv, s, start))
            + CbcDecrypt(c, key, s[start..start + BLOCK], s[start + BLOCK..])
  {
    assert s[start..][..BLOCK] == s[start..start + BLOCK] && s[start..][BLOCK..] == s[start + BLOCK..];
  }

  /** What is read of an array whose first n bytes are still those of `was`. */
  lemma StillThere(now: seq<Byte>, was: seq<Byte>, n: nat, lo: nat, hi: nat)
    requires lo <= hi <= n <= |now| && n <= |was| && now[..n] == was[..n]
    ensures now[lo..hi] == was[lo..hi] && now[..hi] == was[..hi]
  {
    assert now[..n][lo..hi] == now[lo..hi] && was[..n][lo..hi] == was[lo..hi];
    assert now[..n][..hi] == now[..hi] && was[..n][..hi] == was[..hi];
  }

  /** The block that ends at n, decrypted in place while everything before it is still ciphertext. */
  method DecryptBlockAt(c: Cipher, key: seq<Byte>, iv: seq<Byte>, a: array<Byte>, n: nat, ghost was: seq<Byte>)
    requires IsCipher(c) && |iv| == BLOCK && a.Length == |was| && |was| % BLOCK == 0
    requires BLOCK <= n <= a.Length && n % BLOCK == 0 && a[..n] == was[..n]
    modifies a
    ensures a[..n - BLOCK] == was[..n - BLOCK]
    ensures a[n - BLOCK..] == Xor(c.dec(key, was[n - BLOCK..n]), Predecessor(iv, was, n - BLOCK)) + old(a[n..])
  {
    var block := PlainBlock(c, key, iv, a, n, was);
    StillThere(a[..], was, n, 0, n - BLOCK);
    assert a[..n - BLOCK] == was[..n - BLOCK];
    StoreBlock(a, n - BLOCK, block);
    assert n - BLOCK + |block| == n;
  }

  /** The plaintext of the block that ends at n, from ciphertext that still stands. */
  method PlainBlock(c: Cipher, key: seq<Byte>, iv: seq<Byte>, a: array<Byte>, n: nat, ghost was: seq<Byte>)
    returns (block: seq<Byte>)
    requires IsCipher(c) && |iv| == BLOCK && a.Length == |was| && |was| % BLOCK == 0
    requires BLOCK <= n <= a.Length && n % BLOCK == 0 && a[..n] == was[..n]
    ensures |block| == BLOCK && block == Xor(c.dec(key, was[n - BLOCK..n]), Predecessor(iv, was, n - BLOCK))
  {
    var start := n - BLOCK;
    var current, previous := a[start..n], if start == 0 then iv else a[start - BLOCK..start];
    StillThere(a[..], was, n, start, n);
    StillThere(a[..], was, n, if start == 0 then 0 else start - BLOCK, start);
    assert current == was[start..n] && previous == Predecessor(iv, was, start);
    block := Xor(c.dec(key, current), previous);
  }

  /** CBC decryption in place. It runs from the last block to the first, so that each block still
      finds the ciphertext of its predecessor. */
  method CryptBlocksInPlace(c: Cipher, key: seq<Byte>, iv: seq<Byte>, a: array<Byte>)
    requires IsCipher(c) && |iv| == BLOCK && a.Length % BLOCK == 0
    modifies a
    ensures a[..] == CbcDecrypt(c, key, iv, old(a[..]))
  {
    ghost var was := a[..];
    var n := a.Length;
    while n > 0
      invariant 0 <= n <= a.Length && n % BLOCK == 0
      invariant a[..n] == was[..n]
      invariant a[n..] == CbcDecrypt(c, key, Predecessor(iv, was, n), was[n..])
    {
      DecryptOneEarlier(c, key, iv, was, n - BLOCK);
      DecryptBlockAt(c, key, iv, a, n, was);
      n := n - BLOCK;
    }
    assert a[0..] == a[..] && was[0..] == was;
  }

  method StoreBlock(a: array<Byte>, start: nat, block: seq<Byte>)
    requires start + |block| <= a.Length
    modifies a
    ensures a[..start] == old(a[..start])
    ensures a[start..] == block + old(a[start + |block|..])
  {
    for i := 0 to |block|
      invariant forall k :: 0 <= k < a.Length && !(start <= k < start + i) ==> a[k] == old(a[k])
      invariant forall k :: 0 <= k < i ==> a[start + k] == block[k]
    {
      a[start + i] := block[i];
    }
  }

  // ---------- strings ----------

  /** getKeyAndIv: a 32-byte key from three seeds, the iv from the fourth. */
  function KeyAndIv(c: Cipher, seeds: (nat, nat, nat, nat)): (seq<Byte>, seq<Byte>)
    requires forall seed :: |c.createKey(seed)| == 16
  {
    (c.createKey(seeds.0) + c.createKey(seeds.1)[..8] + c.createKey(seeds.2)[8..], c.createKey(seeds.3))
  }

  /** The key: all of the first seed's, the front half of the second's, the back half of the third's. */
  lemma KeyAndIvMeans(c: Cipher, seeds: (nat, nat, nat, nat))
    requires forall seed :: |c.createKey(seed)| == 16
    ensures var (key, iv) := KeyAndIv(c, seeds);
            && |key| == 32 && KeyOk(key) && |iv| == 16
            && key[..16] == c.createKey(seeds.0)
            && key[16..24] == c.createKey(seeds.1)[..8]
            && key[24..] == c.createKey(seeds.2)[8..]
            && iv == c.createKey(seeds.3)
  {
  }

  /** AesCBCEncrypt: an unusable key gives the empty string; the iv is cut to a block. */
  method AesCBCEncrypt(c: Cipher, source: seq<Byte>, key: seq<Byte>, aesCbcIv: seq<Byte>) returns (r: string)
    requires IsCipher(c) && |aesCbcIv| >= BLOCK
    ensures !KeyOk(key) ==> r == ""
    ensures KeyOk(key) ==> r == Encrypted(c, source, key, aesCbcIv[..BLOCK])
  {
    if !KeyOk(key) {
      return "";
    }
    var rawData := Pad(source);
    var cipherText := CbcEncrypt(c, key, aesCbcIv[..BLOCK], rawData);
    return ToHex(cipherText);
  }

  /** What a text decrypts to: not hex, or not a positive number of blocks, gives nothing. */
  function Decrypted(c: Cipher, encrypt: string, key: seq<Byte>, iv: seq<Byte>): seq<Byte>
    requires forall k, b :: |b| == BLOCK ==> |c.dec(k, b)| == BLOCK
    requires |iv| == BLOCK
  {
    var decoded := DecodeString(encrypt);
    if decoded.None? || |decoded.value| < BLOCK || |decoded.value| % BLOCK != 0 then []
    else Unpad(CbcDecrypt(c, key, iv, decoded.value))
  }

  /** A text that is empty, not whole blocks of hex digits, or holds another character gives nothing. */
  lemma MalformedGivesNothing(c: Cipher, encrypt: string, key: seq<Byte>, iv: seq<Byte>)
    requires IsCipher(c) && |iv| == BLOCK
    requires |encrypt| == 0 || |encrypt| % 32 != 0 || exists i :: 0 <= i < |encrypt| && encrypt[i] !in HEX_DIGITS
    ensures Decrypted(c, encrypt, key, iv) == []
  {
    MalformedIsNoBlocks(encrypt);
  }

  lemma MalformedIsNoBlocks(encrypt: string)
    requires |encrypt| == 0 || |encrypt| % 32 != 0 || exists i :: 0 <= i < |encrypt| && encrypt[i] !in HEX_DIGITS
    ensures var decoded := DecodeString(encrypt);
            decoded.None? || |decoded.value| < BLOCK || |decoded.value| % BLOCK != 0
  {
    DecodeStringIff(encrypt);
    TwoDigitsAByte(|DecodedPrefix(encrypt)|);
  }

  lemma TwoDigitsAByte(n: nat)
    ensures 2 * n % 32 == 0 <==> n % BLOCK == 0
  {
    assert n == BLOCK * (n / BLOCK) + n % BLOCK;
  }

  method AesCBCDecrypt(c: Cipher, encrypt: string, key: seq<Byte>, aesCbcIv: seq<Byte>) returns (r: seq<Byte>)
    requires IsCipher(c) && |aesCbcIv| >= BLOCK
    ensures r == if KeyOk(key) then Decrypted(c, encrypt, key, aesCbcIv[..BLOCK]) else []
    ensures |key| != 16 && |key| != 24 && |key| != 32 ==> r == []
  {
    if !KeyOk(key) {
      return [];
    }
    var decoded := DecodeString(encrypt);
    if decoded.None? || |decoded.value| < BLOCK || |decoded.value| % BLOCK != 0 {
      return [];
    }
    r := DecryptBlocks(c, key, aesCbcIv[..BLOCK], decoded.value);
  }

  /** Decrypts in place and cuts the padding off. */
  method DecryptBlocks(c: Cipher, key: seq<Byte>, iv: seq<Byte>, data: seq<Byte>) returns (r: seq<Byte>)
    requires IsCipher(c) && |iv| == BLOCK && |data| >= BLOCK && |data| % BLOCK == 0
    ensures r == Unpad(CbcDecrypt(c, key, iv, data))
  {
    var enData := new Byte[|data|](i requires 0 <= i < |data| => data[i]);
    assert enData[..] == data;
    CryptBlocksInPlace(c, key, iv, enData);
    var length := enData.Length;
    var unpadding := enData[length - 1];
    if length > unpadding {
      return enData[..length - unpadding];
    }
    return [];
  }

  /** What a text encrypts to. */
  function Encrypted(c: Cipher, source: seq<Byte>, key: seq<Byte>, iv: seq<Byte>): string
    requires forall k, b :: |b| == BLOCK ==> |c.enc(k, b)| == BLOCK
    requires |iv| == BLOCK
  {
    ToHex(CbcEncrypt(c, key, iv, Pad(source)))
  }

  /** Decrypting undoes encrypting for every byte string, empty or not, every key and every iv, given
      only that the block function is invertible; the ciphertext has 2 * 16 * (n / 16 + 1) hex digits. */
  lemma DecryptUndoesEncrypt(c: Cipher, source: seq<Byte>, key: seq<Byte>, iv: seq<Byte>)
    requires IsCipher(c) && |iv| == BLOCK
    ensures |Encrypted(c, source, key, iv)| == 2 * BLOCK * (|source| / BLOCK + 1)
    ensures Decrypted(c, Encrypted(c, source, key, iv), key, iv) == source
  {
    HexRoundTrip(CbcEncrypt(c, key, iv, Pad(source)));
    assert Decrypted(c, Encrypted(c, source, key, iv), key, iv)
        == Unpad(CbcDecrypt(c, key, iv, CbcEncrypt(c, key, iv, Pad(source))));
    CbcRoundTrip(c, key, iv, Pad(source));
    UnpadPad(source);
  }

  method GetEncryptString(c: Cipher, source: seq<Byte>, seeds: (nat, nat, nat, nat)) returns (r: string)
    requires IsCipher(c)
    ensures r == Encrypted(c, source, KeyAndIv(c, seeds).0, KeyAndIv(c, seeds).1)
    ensures |r| == 2 * BLOCK * (|source| / BLOCK + 1)
  {
    var (key, iv) := KeyAndIv(c, seeds);
    assert iv[..BLOCK] == iv;
    r := AesCBCEncrypt(c, source, key, iv);
    DecryptUndoesEncrypt(c, source, key, iv);
  }

  method GetDecryptString(c: Cipher, encrypt: string, seeds: (nat, nat, nat, nat)) returns (r: seq<Byte>)
    requires IsCipher(c)
    ensures r == Decrypted(c, encrypt, KeyAndIv(c, seeds).0, KeyAndIv(c, seeds).1)
  {
    var (key, iv) := KeyAndIv(c, seeds);
    assert iv[..BLOCK] == iv;
    r := AesCBCDecrypt(c, encrypt, key, iv);
  }
}
