/**
 * Payload crypter of the sensing node (ESP32S3Crypter.cpp).
 *
 * The device key is the first half of a SHA-256 digest of the Wi-Fi station
 * MAC address; a payload is padded up to the next multiple of 16 bytes and
 * sent as `IV || AES-128-CBC(padded)`.  AES-128 (FIPS 197) and SHA-256
 * (FIPS 180-4) are not modelled: they are passed in as functions, and the
 * round-trip lemmas assume only that block decryption inverts block
 * encryption under the same key.  CBC chaining follows section 6.2 of
 * NIST SP 800-38A.
 *
 * The methods model the code as written, including its padding rule, which
 * adds no pad at all to block-aligned input.  A corrected PKCS#7 codec
 * (section 6.3 of RFC 5652) sits beside it with its round trip proved.
 */
module Crypter {

  /** A byte as a bit-vector: the CBC chaining needs its exclusive or. */
  type byte = bv8

  /** One AES block; the AES-128 key has the same size. */
  type Block = s: seq<byte> | |s| == 16 witness seq(16, _ => 0)
  type Key = Block

  /** The 6-byte Wi-Fi station MAC address and a 32-byte SHA-256 digest. */
  type Mac = s: seq<byte> | |s| == 6 witness seq(6, _ => 0)
  type Digest = s: seq<byte> | |s| == 32 witness seq(32, _ => 0)

  /** size_t on the 32-bit ESP32-S3 wraps modulo 2^32. */
  const SizeTModulus: int := 0x1_0000_0000

  // ---------------------------------------------------------------------
  // Padding as written (line 33-36)
  // ---------------------------------------------------------------------

  /** The padded length: `((input_len + 15) / 16) * 16`. */
  function PaddedLen(n: nat): (r: nat)
    ensures r % 16 == 0
    ensures n <= r < n + 16
  {
    (n + 15) / 16 * 16
  }

  /** Number of pad bytes the code appends: 0..15, and 0 exactly on aligned input. */
  function PadCount(n: nat): (r: nat)
    ensures r < 16
    ensures r == 0 <==> n % 16 == 0
    ensures (n + r) % 16 == 0
  {
    PaddedLen(n) - n
  }

  /** The padded buffer: the input followed by `PadCount` copies of the byte `PadCount`. */
  function Pad(p: seq<byte>): (r: seq<byte>)
    ensures |r| == PaddedLen(|p|) && |r| % 16 == 0
    ensures r[..|p|] == p
    ensures forall i :: |p| <= i < |r| ==> r[i] as int == PadCount(|p|)
  {
    var n := PadCount(|p|);
    SmallByte(n);
    p + seq(n, _ => n as byte)
  }

  /** A pad count (at most 16) survives the conversion to a byte and back. */
  lemma SmallByte(n: nat)
    requires n <= 16
    ensures (n as byte) as int == n
  {
    // one literal case at a time keeps the bit-vector conversion concrete
    match n
    case 0 => case 1 => case 2 => case 3 => case 4 => case 5 => case 6 => case 7 => case 8 =>
    case 9 => case 10 => case 11 => case 12 => case 13 => case 14 => case 15 => case 16 =>
  }

  // ---------------------------------------------------------------------
  // CBC chaining (NIST SP 800-38A, section 6.2)
  // ---------------------------------------------------------------------

  /** Byte-wise exclusive or of two blocks. */
  function XorBlock(a: Block, b: Block): Block
  {
    seq(16, i requires 0 <= i < 16 => a[i] ^ b[i])
  }

  lemma XorBlockCancel(a: Block, b: Block)
    ensures XorBlock(XorBlock(a, b), b) == a
  {
    var r := XorBlock(XorBlock(a, b), b);
    forall i | 0 <= i < 16 ensures r[i] == a[i] {
      assert r[i] == (a[i] ^ b[i]) ^ b[i];
    }
  }

  /** `enc`/`dec` are a block cipher pair: decryption undoes encryption under the same key. */
  ghost predicate Inverts(enc: (Key, Block) -> Block, dec: (Key, Block) -> Block)
  {
    forall k: Key, b: Block :: dec(k, enc(k, b)) == b
  }

  /** CBC encryption: C_i = E(P_i xor C_{i-1}), with C_{-1} the IV. */
  function CbcEncrypt(enc: (Key, Block) -> Block, key: Key, iv: Block, p: seq<byte>): (c: seq<byte>)
    requires |p| % 16 == 0
    ensures |c| == |p|
    decreases |p|
  {
    if |p| == 0 then []
    else
      var c0 := enc(key, XorBlock(p[..16], iv));
      c0 + CbcEncrypt(enc, key, c0, p[16..])
  }

  /** CBC decryption: P_i = D(C_i) xor C_{i-1}, with C_{-1} the IV. */
  function CbcDecrypt(dec: (Key, Block) -> Block, key: Key, iv: Block, c: seq<byte>): (p: seq<byte>)
    requires |c| % 16 == 0
    ensures |p| == |c|
    decreases |c|
  {
    if |c| == 0 then []
    else
      XorBlock(dec(key, c[..16]), iv) + CbcDecrypt(dec, key, c[..16], c[16..])
  }

  /** The block before block `i` of a ciphertext: the IV for the first one. */
  function ChainBlock(iv: Block, c: seq<byte>, i: nat): Block
    requires 16 * i <= |c|
  {
    if i == 0 then iv else c[16 * (i - 1) .. 16 * i]
  }

  /** Every ciphertext block is the encryption of its plaintext block xor the previous ciphertext block. */
  lemma {:induction false} CbcEncryptBlock(enc: (Key, Block) -> Block, key: Key, iv: Block, p: seq<byte>, i: nat)
    requires |p| % 16 == 0
    requires 16 * i + 16 <= |p|
    ensures var c := CbcEncrypt(enc, key, iv, p);
            c[16 * i .. 16 * i + 16] == enc(key, XorBlock(p[16 * i .. 16 * i + 16], ChainBlock(iv, c, i)))
    decreases i
  {
    var c := CbcEncrypt(enc, key, iv, p);
    var c0 := enc(key, XorBlock(p[..16], iv));
    var rest := CbcEncrypt(enc, key, c0, p[16..]);
    assert c == c0 + rest;
    if i > 0 {
      CbcEncryptBlock(enc, key, c0, p[16..], i - 1);
      assert p[16..][16 * (i - 1) .. 16 * (i - 1) + 16] == p[16 * i .. 16 * i + 16];
      assert c[16 * i .. 16 * i + 16] == rest[16 * (i - 1) .. 16 * (i - 1) + 16];
      if i == 1 {
        assert c[..16] == c0;
      } else {
        assert c[16 * (i - 1) .. 16 * i] == rest[16 * (i - 2) .. 16 * (i - 1)];
      }
    }
  }

  /** CBC decryption undoes CBC encryption under the same key and IV. */
  lemma {:induction false} CbcRoundTrip(enc: (Key, Block) -> Block, dec: (Key, Block) -> Block, key: Key, iv: Block, p: seq<byte>)
    requires Inverts(enc, dec)
    requires |p| % 16 == 0
    ensures CbcDecrypt(dec, key, iv, CbcEncrypt(enc, key, iv, p)) == p
    decreases |p|
  {
    if |p| > 0 {
      var c := CbcEncrypt(enc, key, iv, p);
      var c0 := enc(key, XorBlock(p[..16], iv));
      assert c[..16] == c0 && c[16..] == CbcEncrypt(enc, key, c0, p[16..]);
      XorBlockCancel(p[..16], iv);
      CbcRoundTrip(enc, dec, key, c0, p[16..]);
      assert p == p[..16] + p[16..];
    }
  }

  // ---------------------------------------------------------------------
  // The wire format as written
  // ---------------------------------------------------------------------

  /** What `encrypt` emits for payload `p` and random IV `iv`. */
  function EncryptMessage(enc: (Key, Block) -> Block, key: Key, iv: Block, p: seq<byte>): (m: seq<byte>)
    ensures |m| == PaddedLen(|p|) + 16
    ensures m[..16] == iv
    ensures |m| % 16 == 0 && |p| + 16 <= |m| < |p| + 32
  {
    iv + CbcEncrypt(enc, key, iv, Pad(p))
  }

  /** `*output_len` of `decrypt`: the plaintext length minus its last byte, in size_t arithmetic. */
  function DecryptedLength(plain: seq<byte>): (n: nat)
    requires 0 < |plain| < SizeTModulus
    ensures n < SizeTModulus
    ensures plain[|plain| - 1] as int <= |plain| ==> n == |plain| - plain[|plain| - 1] as int
    ensures plain[|plain| - 1] as int > |plain| ==> n > SizeTModulus - 256
  {
    var x := |plain| - plain[|plain| - 1] as int;
    WrapSizeT(x);
    x % SizeTModulus
  }

  /** Reduction modulo 2^32 of a value within one modulus of the range. */
  lemma WrapSizeT(x: int)
    requires -SizeTModulus <= x < SizeTModulus
    ensures x % SizeTModulus == if x < 0 then x + SizeTModulus else x
  {
    var q, r := x / SizeTModulus, x % SizeTModulus;
    assert x == q * SizeTModulus + r && 0 <= r < SizeTModulus;
    if x < 0 {
      assert q == -1;
    } else {
      assert q == 0;
    }
  }

  /** Decrypting an encrypted payload whose length is not a multiple of 16 gives the payload back. */
  lemma RoundTripUnaligned(enc: (Key, Block) -> Block, dec: (Key, Block) -> Block, key: Key, iv: Block, p: seq<byte>)
    requires Inverts(enc, dec)
    requires |p| % 16 != 0 && |p| + 32 < SizeTModulus
    ensures var m := EncryptMessage(enc, key, iv, p);
            var plain := CbcDecrypt(dec, key, m[..16], m[16..]);
            |m| > 16 && plain == Pad(p) && DecryptedLength(plain) == |p| && plain[..|p|] == p
  {
    var m := EncryptMessage(enc, key, iv, p);
    assert m[16..] == CbcEncrypt(enc, key, iv, Pad(p));
    CbcRoundTrip(enc, dec, key, iv, Pad(p));
    var plain := Pad(p);
    assert plain[|plain| - 1] as int == PadCount(|p|);
  }

  /**
   * On a non-empty block-aligned payload nothing is padded, so decryption
   * strips as many bytes as the payload's own last byte says.
   */
  lemma RoundTripAligned(enc: (Key, Block) -> Block, dec: (Key, Block) -> Block, key: Key, iv: Block, p: seq<byte>)
    requires Inverts(enc, dec)
    requires |p| % 16 == 0 && 0 < |p| && |p| + 16 < SizeTModulus
    ensures var m := EncryptMessage(enc, key, iv, p);
            var plain := CbcDecrypt(dec, key, m[..16], m[16..]);
            |m| == |p| + 16 && plain == p
            && DecryptedLength(plain) == (|p| - p[|p| - 1] as int) % SizeTModulus
  {
    var m := EncryptMessage(enc, key, iv, p);
    assert Pad(p) == p;
    assert m[16..] == CbcEncrypt(enc, key, iv, p);
    CbcRoundTrip(enc, dec, key, iv, p);
  }

  /** An empty payload is sent as the bare IV, which `decrypt` cannot accept (it needs more than 16 bytes). */
  lemma EmptyPayloadIsBareIv(enc: (Key, Block) -> Block, key: Key, iv: Block)
    ensures EncryptMessage(enc, key, iv, []) == iv
  {
    assert Pad([]) == [];
  }

  /** A concrete failure: sixteen bytes of 0x05 come back as only eleven bytes. */
  lemma AlignedRoundTripFails(enc: (Key, Block) -> Block, dec: (Key, Block) -> Block, key: Key, iv: Block)
    requires Inverts(enc, dec)
    ensures var p := seq(16, _ => 5 as byte);
            var m := EncryptMessage(enc, key, iv, p);
            var plain := CbcDecrypt(dec, key, m[..16], m[16..]);
            DecryptedLength(plain) == 11 != |p|
  {
    var p := seq(16, _ => 5 as byte);
    RoundTripAligned(enc, dec, key, iv, p);
  }

  // ---------------------------------------------------------------------
  // Corrected codec: PKCS#7 padding (RFC 5652, section 6.3)
  // ---------------------------------------------------------------------

  datatype PaddingError = PaddingError

  datatype Result<T> = Ok(value: T) | Err(error: PaddingError)

  /** PKCS#7 pad: always 1..16 bytes, each holding the pad length. */
  function Pkcs7Pad(p: seq<byte>): (r: seq<byte>)
    ensures |r| == (|p| / 16 + 1) * 16
    ensures r[..|p|] == p
    ensures 1 <= r[|r| - 1] as int <= 16 && |r| - |p| == r[|r| - 1] as int
    ensures forall i :: |p| <= i < |r| ==> r[i] == r[|r| - 1]
  {
    var n := 16 - |p| % 16;
    SmallByte(n);
    assert |p| + n == (|p| / 16 + 1) * 16;
    p + seq(n, _ => n as byte)
  }

  /** PKCS#7 unpad: reject a last byte of 0, above 16, or above the plaintext length. */
  function Pkcs7Unpad(plain: seq<byte>): (r: Result<seq<byte>>)
    ensures r.Ok? <==> |plain| > 0 && 1 <= plain[|plain| - 1] as int <= 16 && plain[|plain| - 1] as int <= |plain|
    ensures r.Ok? ==> r.value == plain[..|plain| - plain[|plain| - 1] as int]
  {
    if |plain| == 0 then Err(PaddingError)
    else
      var n := plain[|plain| - 1] as int;
      if n == 0 || n > 16 || n > |plain| then Err(PaddingError)
      else Ok(plain[..|plain| - n])
  }

  function EncryptFixed(enc: (Key, Block) -> Block, key: Key, iv: Block, p: seq<byte>): (m: seq<byte>)
    ensures |m| == 16 + (|p| / 16 + 1) * 16
    ensures m[..16] == iv
  {
    iv + CbcEncrypt(enc, key, iv, Pkcs7Pad(p))
  }

  function DecryptFixed(dec: (Key, Block) -> Block, key: Key, m: seq<byte>): (r: Result<seq<byte>>)
    requires |m| >= 32 && |m| % 16 == 0
    ensures r.Ok? ==> |r.value| < |m| - 16
  {
    Pkcs7Unpad(CbcDecrypt(dec, key, m[..16], m[16..]))
  }

  /** The corrected codec round-trips every payload, block-aligned and empty ones included. */
  lemma Pkcs7RoundTrip(enc: (Key, Block) -> Block, dec: (Key, Block) -> Block, key: Key, iv: Block, p: seq<byte>)
    requires Inverts(enc, dec)
    ensures var m := EncryptFixed(enc, key, iv, p);
            |m| >= 32 && |m| % 16 == 0 && DecryptFixed(dec, key, m) == Ok(p)
  {
    var m := EncryptFixed(enc, key, iv, p);
    assert m[16..] == CbcEncrypt(enc, key, iv, Pkcs7Pad(p));
    CbcRoundTrip(enc, dec, key, iv, Pkcs7Pad(p));
  }

  // ---------------------------------------------------------------------
  // mbedtls_aes_crypt_cbc, in place on arrays
  // ---------------------------------------------------------------------

  /** Stores `s` at `a[at..at + |s|]`, leaving the rest of `a` alone. */
  method StoreBytes(a: array<byte>, at: nat, s: seq<byte>)
    requires at + |s| <= a.Length
    modifies a
    ensures a[..at] == old(a[..at]) && a[at .. at + |s|] == s && a[at + |s| ..] == old(a[at + |s| ..])
  {
    forall j | 0 <= j < |s| {
      a[at + j] := s[j];
    }
  }

  /**
   * `mbedtls_aes_crypt_cbc` in the encrypt direction: CBC-encrypts `src`
   * under `iv` into `dst[off..]`.  The library routine is modelled by what
   * it computes; the IV it advances in place is not read again by its callers.
   */
  method CryptCbcEncrypt(enc: (Key, Block) -> Block, key: Key, iv: Block, src: array<byte>, dst: array<byte>, off: nat)
    requires src.Length % 16 == 0 && off + src.Length <= dst.Length
    requires dst != src
    modifies dst
    ensures dst[off .. off + src.Length] == CbcEncrypt(enc, key, iv, old(src[..]))
    ensures dst[..off] == old(dst[..off]) && dst[off + src.Length ..] == old(dst[off + src.Length ..])
  {
    StoreBytes(dst, off, CbcEncrypt(enc, key, iv, src[..]));
  }

  /**
   * `mbedtls_aes_crypt_cbc` in the decrypt direction: a length that is not a
   * multiple of 16 is refused (`MBEDTLS_ERR_AES_INVALID_INPUT_LENGTH`) and
   * nothing is written; otherwise `src[from..from + len]` is CBC-decrypted
   * into `dst[..len]`.
   */
  method CryptCbcDecrypt(dec: (Key, Block) -> Block, key: Key, iv: Block, src: array<byte>, from: nat, len: nat, dst: array<byte>)
    returns (ok: bool)
    requires from + len <= src.Length && len <= dst.Length
    requires dst != src
    modifies dst
    ensures ok <==> len % 16 == 0
    ensures ok ==> dst[..len] == CbcDecrypt(dec, key, iv, old(src[from .. from + len]))
    ensures !ok ==> dst[..len] == old(dst[..len])
    ensures dst[len..] == old(dst[len..])
  {
    if len % 16 != 0 {
      return false;
    }
    StoreBytes(dst, 0, CbcDecrypt(dec, key, iv, src[from .. from + len]));
    return true;
  }

  // ---------------------------------------------------------------------
  // The crypter object
  // ---------------------------------------------------------------------

  class ESP32S3Crypter {
    /** `uint8_t key[16]` */
    var key: array<byte>

    ghost predicate Valid()
      reads this
    {
      key.Length == 16
    }

    /** The constructor derives the key at once. */
    constructor (mac: Mac, sha256: seq<byte> -> Digest)
      ensures Valid() && fresh(key)
      ensures key[..] == sha256(mac)[..16]
    {
      key := new byte[16];
      new;
      GenerateKeyFromMac(mac, sha256);
    }

    /** The key is the first 16 bytes of SHA-256 over the 6 MAC bytes. */
    method GenerateKeyFromMac(mac: Mac, sha256: seq<byte> -> Digest)
      requires Valid()
      modifies key
      ensures key[..] == sha256(mac)[..16]
    {
      var shaResult := sha256(mac);
      forall i | 0 <= i < 16 {
        key[i] := shaResult[i];
      }
    }

    /**
     * Pads `input[..inputLen]`, writes `IV || CBC(padded)` to `output` and
     * returns `*output_len`.  `random` stands for what `esp_fill_random` draws.
     */
    method Encrypt(input: array<byte>, inputLen: nat, output: array<byte>, enc: (Key, Block) -> Block, random: Block)
      returns (outputLen: nat)
      requires Valid()
      requires inputLen <= input.Length
      requires PaddedLen(inputLen) + 16 <= output.Length && PaddedLen(inputLen) + 16 < SizeTModulus
      requires output != key
      modifies output
      ensures outputLen == PaddedLen(inputLen) + 16
      ensures output[..outputLen] == EncryptMessage(enc, key[..], random, old(input[..inputLen]))
      ensures output[outputLen..] == old(output[outputLen..])
    {
      ghost var payload := input[..inputLen];
      var iv: Block := random;
      var padded := PadInput(input, inputLen);
      var paddedLen := padded.Length;
      ghost var original := output[..];
      StoreBytes(output, 0, iv);
      ghost var withIv := output[..];
      assert withIv[16 + paddedLen ..] == original[16 + paddedLen ..] by {
        assert withIv[16..] == original[16..];
      }
      CryptCbcEncrypt(enc, key[..], iv, padded, output, 16);
      outputLen := paddedLen + 16;
      assert output[..16] == withIv[..16] == random;
      assert output[16 .. outputLen] == CbcEncrypt(enc, key[..], random, Pad(payload));
      assert output[..outputLen] == output[..16] + output[16 .. outputLen];
    }

    /**
     * The padding step of `encrypt`: a fresh buffer of `PaddedLen(inputLen)`
     * bytes holding the input followed by the pad bytes.
     */
    static method PadInput(input: array<byte>, inputLen: nat) returns (padded: array<byte>)
      requires inputLen <= input.Length
      ensures fresh(padded) && padded[..] == Pad(input[..inputLen])
    {
      var paddedLen := (inputLen + 15) / 16 * 16;
      padded := new byte[paddedLen];
      forall i | 0 <= i < inputLen {
        padded[i] := input[i];
      }
      forall i | inputLen <= i < paddedLen {
        padded[i] := (paddedLen - inputLen) as byte;
      }
      assert padded[..] == Pad(input[..inputLen]);
    }

    /**
     * Splits off the IV, CBC-decrypts the rest into `output` and returns
     * `*output_len`: the ciphertext length minus the last plaintext byte,
     * unchecked and in size_t arithmetic.  When the ciphertext length is not
     * a multiple of 16 the CBC routine refuses and `output` keeps its old
     * bytes, whose last one is read all the same.
     */
    method Decrypt(input: array<byte>, inputLen: nat, output: array<byte>, dec: (Key, Block) -> Block)
      returns (outputLen: nat)
      requires Valid()
      requires 16 < inputLen <= input.Length && inputLen < SizeTModulus
      requires inputLen - 16 <= output.Length
      requires output != input && output != key
      modifies output
      ensures var n := inputLen - 16;
              && ((n % 16 == 0 ==> output[..n] == CbcDecrypt(dec, key[..], input[..16], input[16 .. inputLen]))
              && (n % 16 != 0 ==> output[..n] == old(output[..n])))
              && output[n..] == old(output[n..])
              && outputLen == DecryptedLength(output[..n])
    {
      var iv: Block := input[..16];
      var ciphertextLen := inputLen - 16;
      var _ := CryptCbcDecrypt(dec, key[..], iv, input, 16, ciphertextLen, output);
      var paddingLength := output[ciphertextLen - 1];
      outputLen := (ciphertextLen - paddingLength as int) % SizeTModulus;
    }
  }
}
