/**
 * Signature hints (src/hints.ts): the short tag that narrows the search for
 * the signer of a signature.
 */
module Hints {
  import opened Wrappers
  import opened Primitives
  import opened Ledger

  /** getHintFromPubKey: the hex form of the key pair's signature hint. */
  function GetHintFromPubKey(c: Crypto, key: Key): (h: Hint)
    ensures |h| == 2 * |c.pubKeyHint(key)|
  {
    Hex(c.pubKeyHint(key))
  }

  /** getHintFromHash: the decoded hash from offset 28 on, in hex; for a 32-byte hash its last 4 bytes. */
  function GetHintFromHash(c: Crypto, key: Key): (h: Hint)
    ensures |c.decodeSha256Hash(key)| == 32 ==>
              |h| == 8 && h == Hex(c.decodeSha256Hash(key)[28..32])
  {
    var d := c.decodeSha256Hash(key);
    assert |d| == 32 ==> From28(d) == d[28..32];
    Hex(From28(d))
  }

  /** The two functions the dispatch table can name. */
  datatype HintFunction = FromHash | FromPubKey

  /** The `hintFunc` table: Horizon's and the SDK's spelling of a type select the same function. */
  function HintFunc(signerType: string): (f: Option<HintFunction>)
    ensures f == Some(FromHash) <==> signerType in {SHA256_HASH, SHA256_HASH_FIELD}
    ensures f == Some(FromPubKey) <==> signerType in {ED25519_PUBLIC_KEY, ED25519_PUBLIC_KEY_FIELD}
    ensures f == None <==> signerType !in {SHA256_HASH, SHA256_HASH_FIELD, ED25519_PUBLIC_KEY, ED25519_PUBLIC_KEY_FIELD}
  {
    if signerType == SHA256_HASH || signerType == SHA256_HASH_FIELD then Some(FromHash)
    else if signerType == ED25519_PUBLIC_KEY || signerType == ED25519_PUBLIC_KEY_FIELD then Some(FromPubKey)
    else None
  }

  /**
   * getHintFromSigner: dispatch on the signer's type through the table. A type
   * the table lacks, such as `preauth_tx`, is a failed lookup (`None`).
   */
  function GetHintFromSigner(c: Crypto, signer: Signer): (r: Option<Hint>)
    ensures r.None? <==> signer.signerType !in {SHA256_HASH, SHA256_HASH_FIELD, ED25519_PUBLIC_KEY, ED25519_PUBLIC_KEY_FIELD}
    ensures signer.signerType in {SHA256_HASH, SHA256_HASH_FIELD} ==> r == Some(GetHintFromHash(c, signer.key))
    ensures signer.signerType in {ED25519_PUBLIC_KEY, ED25519_PUBLIC_KEY_FIELD} ==> r == Some(GetHintFromPubKey(c, signer.key))
  {
    match HintFunc(signer.signerType)
    case None => None
    case Some(FromHash) => Some(GetHintFromHash(c, signer.key))
    case Some(FromPubKey) => Some(GetHintFromPubKey(c, signer.key))
  }

  /**
   * The dispatch table lists both spellings of each key type (Horizon's
   * `sha256_hash` and the SDK's `sha256Hash`, and likewise for ed25519), and
   * both spellings of one type give a key the same hint. getSigners itself only
   * adds signers carrying the requested Horizon type.
   */
  lemma SpellingsShareHint(c: Crypto, key: Key, t1: string, t2: string, w1: nat, w2: nat)
    requires (t1 in {SHA256_HASH, SHA256_HASH_FIELD} && t2 in {SHA256_HASH, SHA256_HASH_FIELD})
          || (t1 in {ED25519_PUBLIC_KEY, ED25519_PUBLIC_KEY_FIELD} && t2 in {ED25519_PUBLIC_KEY, ED25519_PUBLIC_KEY_FIELD})
    ensures GetHintFromSigner(c, Signer(key, t1, w1)).Some?
    ensures GetHintFromSigner(c, Signer(key, t1, w1)) == GetHintFromSigner(c, Signer(key, t2, w2))
  {
  }

  /** The type of pre-authorized transaction signers has no hint function. */
  lemma PreauthHasNoHint(c: Crypto, key: Key, w: nat)
    ensures GetHintFromSigner(c, Signer(key, PREAUTH_TX, w)).None?
  {
  }

  /** getHintFromSignature: the signature's embedded hint, in hex. */
  function GetHintFromSignature(sig: DecoratedSignature): (h: Hint)
    ensures |h| == 2 * |sig.hint|
  {
    Hex(sig.hint)
  }

  /** Two signatures fall in the same bucket exactly when their embedded hints are equal. */
  lemma SignatureHintsAgree(s1: DecoratedSignature, s2: DecoratedSignature)
    ensures GetHintFromSignature(s1) == GetHintFromSignature(s2) <==> s1.hint == s2.hint
  {
    if GetHintFromSignature(s1) == GetHintFromSignature(s2) {
      HexInjective(s1.hint, s2.hint);
    }
  }

  /** createPreimageSignature (src/sign.ts): hint `hash(p)` from offset 28, payload `p` itself. */
  function CreatePreimageSignature(c: Crypto, preimage: Bytes): (sig: DecoratedSignature)
    ensures sig.signature == preimage
    ensures |c.hash(preimage)| == 32 ==> sig.hint == c.hash(preimage)[28..32]
  {
    assert |c.hash(preimage)| == 32 ==> From28(c.hash(preimage)) == c.hash(preimage)[28..32];
    DecoratedSignature(From28(c.hash(preimage)), preimage)
  }

  /**
   * A preimage signature lands in the hint bucket of the hash(x) signer that
   * commits to its preimage, provided decoding undoes encoding.
   */
  lemma PreimageHintAgrees(c: Crypto, preimage: Bytes)
    requires c.decodeSha256Hash(c.encodeSha256Hash(c.hash(preimage))) == c.hash(preimage)
    ensures GetHintFromSignature(CreatePreimageSignature(c, preimage))
         == GetHintFromSigner(c, Signer(c.encodeSha256Hash(c.hash(preimage)), SHA256_HASH, 1)).value
  {
  }
}
