/**
 * The values the engine reads: account records as Horizon returns them, and
 * transactions with their operations as the Stellar SDK decodes them.
 * Also the two source-account helpers of src/multisig.ts.
 */
module Ledger {
  import opened Wrappers
  import opened Primitives

  /** Horizon's signer type tags. */
  const ED25519_PUBLIC_KEY: string := "ed25519_public_key"
  const SHA256_HASH: string := "sha256_hash"
  const PREAUTH_TX: string := "preauth_tx"

  /** The field names of the key inside a setOptions operation's `signer`. */
  const ED25519_PUBLIC_KEY_FIELD: string := "ed25519PublicKey"
  const SHA256_HASH_FIELD: string := "sha256Hash"
  const PREAUTH_TX_FIELD: string := "preAuthTx"

  /** A signer of an account record: `{key, type, weight}`; the type is free text. */
  datatype Signer = Signer(key: Key, signerType: string, weight: nat)

  /** `{low_threshold, med_threshold, high_threshold}` of an account record. */
  datatype ThresholdRecord = ThresholdRecord(low: nat, med: nat, high: nat)

  datatype AccountRecord = AccountRecord(id: Key, signers: seq<Signer>, thresholds: ThresholdRecord)

  /** The signer types a caller may ask the index for (Horizon.AccountSignerType). */
  datatype AccountSignerType = Ed25519PublicKeySigner | Sha256HashSigner | PreauthTxSigner
  {
    function Tag(): (t: string)
      ensures t in {ED25519_PUBLIC_KEY, SHA256_HASH, PREAUTH_TX}
    {
      match this
      case Ed25519PublicKeySigner => ED25519_PUBLIC_KEY
      case Sha256HashSigner => SHA256_HASH
      case PreauthTxSigner => PREAUTH_TX
    }
  }

  /** The key of a setOptions signer; a hash key is raw bytes, not yet StrKey-encoded. */
  datatype SignerKey = Ed25519PublicKey(publicKey: Key) | Sha256Hash(hash: Bytes) | PreAuthTx(txHash: Bytes)
  {
    /** The name of the one key field the SDK's signer object carries. */
    function Field(): (f: string)
      ensures f in {ED25519_PUBLIC_KEY_FIELD, SHA256_HASH_FIELD, PREAUTH_TX_FIELD}
    {
      match this
      case Ed25519PublicKey(_) => ED25519_PUBLIC_KEY_FIELD
      case Sha256Hash(_) => SHA256_HASH_FIELD
      case PreAuthTx(_) => PREAUTH_TX_FIELD
    }
  }

  datatype OpSigner = OpSigner(key: SignerKey, weight: nat)

  /**
   * The operation bodies. Absent numeric fields of setOptions are `None`;
   * JavaScript truthiness treats `None` and `Some(0)` alike.
   */
  datatype OpBody =
    | SetOptions(masterWeight: Option<nat>, lowThreshold: Option<nat>, medThreshold: Option<nat>,
                 highThreshold: Option<nat>, signer: Option<OpSigner>)
    | AccountMerge
    | AllowTrust
    | BumpSequence
    | Inflation
    | CreateAccount
    | Payment
    | PathPayment
    | ManageOffer
    | CreatePassiveOffer
    | ChangeTrust
    | ManageData

  datatype Operation = Operation(source: Option<Key>, body: OpBody)

  datatype Transaction = Transaction(source: Key, operations: seq<Operation>)

  /** A decorated signature: the raw hint bytes and the signature bytes. */
  datatype DecoratedSignature = DecoratedSignature(hint: Bytes, signature: Bytes)

  /** JavaScript truthiness of an optional number: present and non-zero. */
  predicate Truthy(v: Option<nat>) {
    v.Some? && v.value != 0
  }

  /** The set of ids of the supplied account records. */
  function AccountIds(accounts: seq<AccountRecord>): set<Key> {
    set i | 0 <= i < |accounts| :: accounts[i].id
  }

  /** getOperationSourceAccount_: the operation's own source when it is set, else the envelope's. */
  function OperationSource(op: Operation, tx: Transaction): (k: Key)
    ensures op.source.None? ==> k == tx.source
    ensures op.source.Some? && op.source.value != "" ==> k == op.source.value
    ensures op.source == Some("") ==> k == tx.source
  {
    if op.source.Some? && op.source.value != "" then op.source.value else tx.source
  }

  /**
   * getTransactionSourceAccounts: the set of the operations' source accounts.
   * The envelope source is a member only when some operation is sourced from it.
   */
  function TransactionSourceAccounts(tx: Transaction): (r: set<Key>)
    ensures forall i :: 0 <= i < |tx.operations| ==> OperationSource(tx.operations[i], tx) in r
    ensures forall k :: k in r <==> exists i :: 0 <= i < |tx.operations| && OperationSource(tx.operations[i], tx) == k
  {
    set i | 0 <= i < |tx.operations| :: OperationSource(tx.operations[i], tx)
  }

  /** A transaction of one payment that names a source other than the envelope's. */
  function ForeignSourcedPayment(): Transaction {
    Transaction("GALICE", [Operation(Some("GBOB"), Payment)])
  }

  /**
   * As written, the set of source accounts can leave out the envelope source,
   * whose record the threshold computation reads first.
   */
  lemma EnvelopeSourceOmitted()
    ensures var tx := ForeignSourcedPayment();
            tx.source !in TransactionSourceAccounts(tx) && tx.source in RequiredAccounts(tx)
  {
    var tx := ForeignSourcedPayment();
    forall k | k in TransactionSourceAccounts(tx) ensures k == "GBOB" {
      var i :| 0 <= i < |tx.operations| && OperationSource(tx.operations[i], tx) == k;
      assert i == 0;
    }
    assert "GALICE" != "GBOB";
  }

  /**
   * Every account whose record the engine reads: the envelope source and every
   * operation's source.
   */
  function RequiredAccounts(tx: Transaction): (r: set<Key>)
    ensures tx.source in r
    ensures forall i :: 0 <= i < |tx.operations| ==> OperationSource(tx.operations[i], tx) in r
    ensures forall k :: k in r <==> k == tx.source || exists i :: 0 <= i < |tx.operations| && OperationSource(tx.operations[i], tx) == k
  {
    TransactionSourceAccounts(tx) + {tx.source}
  }
}
