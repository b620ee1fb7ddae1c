/**
 * The collaborators the engine consumes but does not implement: bytes,
 * textual keys, and the cryptographic and key-encoding primitives of the
 * Stellar SDK.  The primitives are uninterpreted: they are fields of a
 * `Crypto` record that every operation needing them takes as a parameter,
 * so nothing is assumed about them beyond what a lemma states in its
 * `requires`.
 */
module Primitives {

  newtype byte = x: int | 0 <= x < 256

  type Bytes = seq<byte>

  /** A key in its textual (StrKey) form; its first character tags its kind. */
  type Key = string

  /** A signature hint in hexadecimal form. */
  type Hint = string

  datatype Crypto = Crypto(
    /** Keypair.fromPublicKey(key).verify(message, signature) */
    verify: (Key, Bytes, Bytes) -> bool,
    /** StellarSdk.hash: SHA-256 */
    hash: Bytes -> Bytes,
    /** StrKey.encodeSha256Hash: raw hash to an 'X' key */
    encodeSha256Hash: Bytes -> Key,
    /** StrKey.decodeSha256Hash: an 'X' key back to its raw hash */
    decodeSha256Hash: Key -> Bytes,
    /** Keypair.fromPublicKey(key).signatureHint(): the raw 4-byte hint */
    pubKeyHint: Key -> Bytes
  )

  /** `key[0] === 'G'`: an ed25519 public key. */
  predicate IsPublicKey(key: Key) {
    |key| > 0 && key[0] == 'G'
  }

  /** `key[0] === 'X'`: a sha256 hash(x) key. */
  predicate IsHashKey(key: Key) {
    |key| > 0 && key[0] == 'X'
  }

  /** One lower-case hexadecimal digit, as Buffer.toString('hex') writes it. */
  function HexDigit(n: nat): (ch: char)
    requires n < 16
    ensures n < 10 ==> '0' <= ch <= '9'
    ensures 10 <= n ==> 'a' <= ch <= 'f'
  {
    if n < 10 then ('0' as int + n) as char else ('a' as int + n - 10) as char
  }

  /** Buffer.toString('hex'): two digits per byte, high nibble first. */
  function Hex(b: Bytes): (s: string)
    ensures |s| == 2 * |b|
  {
    if b == [] then []
    else [HexDigit(b[0] as nat / 16), HexDigit(b[0] as nat % 16)] + Hex(b[1..])
  }

  /** Hex encoding loses nothing: equal hex strings come from equal bytes. */
  lemma {:induction false} HexInjective(a: Bytes, b: Bytes)
    requires Hex(a) == Hex(b)
    ensures a == b
  {
    if a != [] {
      assert |b| == |a|;
      var x, y := a[0] as nat, b[0] as nat;
      assert Hex(a)[0] == Hex(b)[0] && Hex(a)[1] == Hex(b)[1];
      assert x / 16 == y / 16 && x % 16 == y % 16;
      assert x == 16 * (x / 16) + x % 16;
      assert y == 16 * (y / 16) + y % 16;
      assert Hex(a)[2..] == Hex(a[1..]) && Hex(b)[2..] == Hex(b[1..]);
      HexInjective(a[1..], b[1..]);
      assert a == [a[0]] + a[1..] && b == [b[0]] + b[1..];
    }
  }

  /** Buffer.slice(28): the bytes from offset 28 on, empty for a shorter buffer. */
  function From28(b: Bytes): (r: Bytes)
    ensures |b| == 32 ==> r == b[|b| - 4..] && |r| == 4
    ensures |b| <= 28 ==> r == []
  {
    if |b| <= 28 then [] else b[28..]
  }
}
