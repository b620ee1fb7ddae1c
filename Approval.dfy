/**
 * Signature resolution (validateSignature) and the approval scan
 * (isApproved_common_, isApproved_prevalidated, isApproved).
 */
module Approval {
  import opened Wrappers
  import opened Primitives
  import opened Ledger
  import opened Hints
  import opened Thresholds
  import opened SignerIndex
  import opened Weights

  /** The one error the scan raises. */
  datatype Error = TooManySignatures

  // ---------------------------------------------------------------- validateSignature

  /**
   * The signature proves `key`: a 'G' key it verifies under, or an 'X' key
   * that is the encoded hash of its payload. Keys of any other kind are never proved.
   */
  predicate Proves(c: Crypto, message: Bytes, key: Key, sig: DecoratedSignature) {
    if IsPublicKey(key) then c.verify(key, message, sig.signature)
    else if IsHashKey(key) then c.encodeSha256Hash(c.hash(sig.signature)) == key
    else false
  }

  /** The first key of a bucket, in insertion order, that the signature proves. */
  function FirstMatch(c: Crypto, message: Bytes, keys: seq<Key>, sig: DecoratedSignature): (r: Option<Key>)
    ensures r.Some? ==> r.value in keys && Proves(c, message, r.value, sig)
    ensures r.None? <==> forall k :: k in keys ==> !Proves(c, message, k, sig)
  {
    if keys == [] then None
    else if Proves(c, message, keys[0], sig) then Some(keys[0])
    else FirstMatch(c, message, keys[1..], sig)
  }

  /** The key validateSignature returns: none when the signature's hint has no bucket. */
  function ResolvedKey(c: Crypto, message: Bytes, signers: Signers, sig: DecoratedSignature): (r: Option<Key>)
    ensures GetHintFromSignature(sig) !in signers.hints ==> r.None?
    ensures r.Some? ==> r.value in signers.hints[GetHintFromSignature(sig)] && Proves(c, message, r.value, sig)
  {
    var hint := GetHintFromSignature(sig);
    if hint !in signers.hints then None else FirstMatch(c, message, signers.hints[hint], sig)
  }

  /** FirstMatch picks the earliest proved key. */
  lemma {:induction false} FirstMatchIsEarliest(c: Crypto, message: Bytes, keys: seq<Key>, sig: DecoratedSignature, i: nat)
    requires i < |keys| && Proves(c, message, keys[i], sig)
    requires forall j :: 0 <= j < i ==> !Proves(c, message, keys[j], sig)
    ensures FirstMatch(c, message, keys, sig) == Some(keys[i])
  {
    if i > 0 {
      FirstMatchIsEarliest(c, message, keys[1..], sig, i - 1);
    }
  }

  /** validateSignature */
  method ValidateSignature(c: Crypto, message: Bytes, signers: Signers, sig: DecoratedSignature) returns (r: Option<Key>)
    ensures r == ResolvedKey(c, message, signers, sig)
  {
    var hint := GetHintFromSignature(sig);
    if hint !in signers.hints {
      return None;
    }
    var keys := signers.hints[hint];
    var i := 0;
    while i < |keys|
      invariant i <= |keys|
      invariant FirstMatch(c, message, keys[i..], sig) == FirstMatch(c, message, keys, sig)
    {
      var key := keys[i];
      assert keys[i..][1..] == keys[i + 1..];
      if |key| > 0 && key[0] == 'G' {
        if c.verify(key, message, sig.signature) {
          return Some(key);
        }
      } else if |key| > 0 && key[0] == 'X' {
        var preimage := sig.signature;
        var hashx := c.hash(preimage);
        var hashxKey := c.encodeSha256Hash(hashx);
        if hashxKey == key {
          return Some(key);
        }
      }
      i := i + 1;
    }
    return None;
  }

  /**
   * A preimage signature resolves, in an index of hash(x) signers, to the
   * 'X' key of its preimage's hash, provided that key was indexed, the
   * index holds only 'X' keys, and decoding an encoded hash gives it back.
   */
  lemma PreimageSignatureResolves(c: Crypto, message: Bytes, es: seq<Entry>, preimage: Bytes, weight: nat, account: Key)
    requires forall e :: e in es ==> Hintable(e) && IsHashKey(e.signer.key)
    requires Entry(Signer(c.encodeSha256Hash(c.hash(preimage)), SHA256_HASH, weight), account) in es
    requires c.decodeSha256Hash(c.encodeSha256Hash(c.hash(preimage))) == c.hash(preimage)
    ensures ResolvedKey(c, message, AddAll(Hinter(c), Empty, es), CreatePreimageSignature(c, preimage))
         == Some(c.encodeSha256Hash(c.hash(preimage)))
  {
    var key := c.encodeSha256Hash(c.hash(preimage));
    var e := Entry(Signer(key, SHA256_HASH, weight), account);
    var sig := CreatePreimageSignature(c, preimage);
    var signers := AddAll(Hinter(c), Empty, es);
    PreimageHintAgrees(c, preimage);
    assert GetHintFromSignature(sig) == HintOf(c, e);
    BucketsHoldAddedKeys(Hinter(c), es, HintOf(c, e), key);
    var bucket := signers.hints[HintOf(c, e)];
    forall k | k in bucket
      ensures IsHashKey(k)
    {
      BucketsHoldAddedKeys(Hinter(c), es, HintOf(c, e), k);
    }
    BucketsDistinct(Hinter(c), es, HintOf(c, e));
    var i :| 0 <= i < |bucket| && bucket[i] == key;
    forall j | 0 <= j < i
      ensures !Proves(c, message, bucket[j], sig)
    {
      assert bucket[j] in bucket;
    }
    FirstMatchIsEarliest(c, message, bucket, sig, i);
  }

  // ---------------------------------------------------------------- candidates

  /** The (index, key) pairs a validatedKeys generator yields. */
  type Candidates = seq<(nat, Key)>

  /** isApproved_prevalidated's generator: every signing key with its index, whatever the index. */
  function KeyCandidates(signingKeys: seq<Key>): (r: Candidates)
    ensures |r| == |signingKeys|
    ensures forall i :: 0 <= i < |r| ==> r[i] == (i, signingKeys[i])
  {
    seq(|signingKeys|, i requires 0 <= i < |signingKeys| => (i, signingKeys[i]))
  }

  function PrevalidatedCandidates(signingKeys: seq<Key>): Signers -> Candidates {
    (s: Signers) => KeyCandidates(signingKeys)
  }

  /** isApproved's generator over the first `n` signatures: each index whose signature resolves, with its key. */
  function SignatureCandidates(c: Crypto, message: Bytes, signers: Signers, sigs: seq<DecoratedSignature>, n: nat): (r: Candidates)
    requires n <= |sigs|
    ensures forall p :: p in r <==> p.0 < n && ResolvedKey(c, message, signers, sigs[p.0]) == Some(p.1)
  {
    if n == 0 then []
    else
      var prev := SignatureCandidates(c, message, signers, sigs, n - 1);
      match ResolvedKey(c, message, signers, sigs[n - 1])
      case None => prev
      case Some(key) => prev + [(n - 1, key)]
  }

  /** Strictly increasing signature indices: each index at most once, in signature order. */
  predicate Increasing(r: Candidates) {
    forall a, b :: 0 <= a < b < |r| ==> r[a].0 < r[b].0
  }

  /** The generator yields each resolved index once, in the order of the signatures. */
  lemma {:induction false} SignatureCandidatesIncreasing(c: Crypto, message: Bytes, signers: Signers,
                                                         sigs: seq<DecoratedSignature>, n: nat)
    requires n <= |sigs|
    ensures Increasing(SignatureCandidates(c, message, signers, sigs, n))
  {
    if n == 0 {
      assert SignatureCandidates(c, message, signers, sigs, n) == [];
    } else {
      SignatureCandidatesIncreasing(c, message, signers, sigs, n - 1);
      SignatureCandidatesExtend(c, message, signers, sigs, n);
    }
  }

  lemma SignatureCandidatesExtend(c: Crypto, message: Bytes, signers: Signers, sigs: seq<DecoratedSignature>, n: nat)
    requires 0 < n <= |sigs|
    requires Increasing(SignatureCandidates(c, message, signers, sigs, n - 1))
    ensures Increasing(SignatureCandidates(c, message, signers, sigs, n))
  {
    SignatureCandidatesBelow(c, message, signers, sigs, n - 1);
    SignatureCandidatesStep(c, message, signers, sigs, n);
    AppendIncreasing(SignatureCandidates(c, message, signers, sigs, n - 1),
                     SignatureCandidates(c, message, signers, sigs, n), n - 1);
  }

  /** Every offered index is one of the first `n`. */
  lemma SignatureCandidatesBelow(c: Crypto, message: Bytes, signers: Signers, sigs: seq<DecoratedSignature>, n: nat)
    requires n <= |sigs|
    ensures IndicesBelow(SignatureCandidates(c, message, signers, sigs, n), n)
  {
    var r := SignatureCandidates(c, message, signers, sigs, n);
    forall a | 0 <= a < |r|
      ensures r[a].0 < n
    {
      assert r[a] in r;
    }
  }

  /** One more signature either offers nothing or appends its own index. */
  lemma SignatureCandidatesStep(c: Crypto, message: Bytes, signers: Signers, sigs: seq<DecoratedSignature>, n: nat)
    requires 0 < n <= |sigs|
    ensures AppendsAt(SignatureCandidates(c, message, signers, sigs, n - 1),
                      SignatureCandidates(c, message, signers, sigs, n), n - 1)
  {
  }

  predicate IndicesBelow(r: Candidates, n: nat) {
    forall a :: 0 <= a < |r| ==> r[a].0 < n
  }

  /** `r` is `prev`, or `prev` with one candidate for index `last` appended. */
  predicate AppendsAt(prev: Candidates, r: Candidates, last: nat) {
    r == prev || (|r| == |prev| + 1 && r[..|prev|] == prev && r[|prev|].0 == last)
  }

  lemma AppendIncreasing(prev: Candidates, r: Candidates, last: nat)
    requires Increasing(prev)
    requires IndicesBelow(prev, last)
    requires AppendsAt(prev, r, last)
    ensures Increasing(r)
  {
    if r != prev {
      forall a, b | 0 <= a < b < |r|
        ensures r[a].0 < r[b].0
      {
        assert r[a] == prev[a];
        if b < |prev| {
          assert r[b] == prev[b];
        }
      }
    }
  }

  function ResolvedCandidates(c: Crypto, message: Bytes, sigs: seq<DecoratedSignature>): Signers -> Candidates {
    (s: Signers) => SignatureCandidates(c, message, s, sigs, |sigs|)
  }

  // ---------------------------------------------------------------- the scan

  /** The scan's mutable state: accumulated weights, isDone, and the indices consumed. */
  datatype ScanState = ScanState(weights: SignatureWeights, isDone: bool, used: set<nat>)

  /** The state after checkSignatures' loop has been offered the first `n` candidates; it stops once isDone. */
  function Consume(st: ScanState, signers: Signers, cands: Candidates, thresholds: map<Key, nat>, n: nat): ScanState
    requires n <= |cands|
  {
    if n == 0 then st
    else
      var prev := Consume(st, signers, cands, thresholds, n - 1);
      if prev.isDone then prev
      else
        var w := AddSignature(prev.weights, signers, cands[n - 1].1);
        ScanState(w, HasEnoughApprovals(w, thresholds), prev.used + {cands[n - 1].0})
  }

  /** checkSignatures: an empty signer index is skipped. */
  function Checked(st: ScanState, signers: Signers, cands: Candidates, thresholds: map<Key, nat>): ScanState {
    if signers.isEmpty then st else Consume(st, signers, cands, thresholds, |cands|)
  }

  /** The state of the preAuth loop: it returned true, or it goes on with these weights. */
  datatype PreAuthState = ReturnedEarly | Continued(weights: SignatureWeights, isDone: bool)

  /** The preAuth loop over its first `n` keys: it returns true when isDone holds at the top of an iteration. */
  function PreAuthPass(signers: Signers, keys: seq<Key>, thresholds: map<Key, nat>, n: nat): PreAuthState
    requires n <= |keys|
  {
    if n == 0 then Continued(map[], false)
    else
      match PreAuthPass(signers, keys, thresholds, n - 1)
      case ReturnedEarly => ReturnedEarly
      case Continued(w, done) =>
        if done then ReturnedEarly
        else
          var w' := AddSignature(w, signers, keys[n - 1]);
          Continued(w', HasEnoughApprovals(w', thresholds))
  }

  /** Reference: the weights of the first `n` keys, counted without stopping. */
  function CountedWeights(signers: Signers, keys: seq<Key>, n: nat): SignatureWeights
    requires n <= |keys|
  {
    if n == 0 then map[] else AddSignature(CountedWeights(signers, keys, n - 1), signers, keys[n - 1])
  }

  /** {0, ..., n - 1}: the bits of allSignaturesMask. */
  function Indices(n: nat): (r: set<nat>)
    ensures forall i: nat :: i in r <==> i < n
  {
    if n == 0 then {} else Indices(n - 1) + {n - 1}
  }

  function PreAuthOutcome(c: Crypto, tx: Transaction, accounts: seq<AccountRecord>, preAuth: Option<seq<Key>>): PreAuthState {
    if preAuth.None? then Continued(map[], false)
    else
      PreAuthPass(SignersOf(c, tx, accounts, Ed25519PublicKeySigner), preAuth.value, ThresholdsOf(tx, accounts),
                  |preAuth.value|)
  }

  /** The two checkSignatures calls, hash(x) signers first, from the state the preAuth loop left. */
  function Scan(hashX: Signers, ed: Signers, thresholds: map<Key, nat>, validatedKeys: Signers -> Candidates,
                weights: SignatureWeights, isDone: bool): ScanState
  {
    Checked(Checked(ScanState(weights, isDone, {}), hashX, validatedKeys(hashX), thresholds), ed, validatedKeys(ed), thresholds)
  }

  /**
   * What isApproved_common_ returns once its two signer indexes, its
   * thresholds and the outcome of its preAuth loop are known: true on an
   * early return, TooManySignatures when an index was never marked, else isDone.
   */
  function Decide(pre: PreAuthState, hashX: Signers, ed: Signers, thresholds: map<Key, nat>,
                  validatedKeys: Signers -> Candidates, signatureCount: nat): Result<bool, Error>
  {
    match pre
    case ReturnedEarly => Ok(true)
    case Continued(w, done) =>
      var st := Scan(hashX, ed, thresholds, validatedKeys, w, done);
      if st.used != Indices(signatureCount) then Err(TooManySignatures) else Ok(st.isDone)
  }

  /** The result of isApproved_common_. */
  function ApprovedCommon(c: Crypto, tx: Transaction, accounts: seq<AccountRecord>, validatedKeys: Signers -> Candidates,
                          signatureCount: nat, preAuth: Option<seq<Key>>): Result<bool, Error>
  {
    Decide(PreAuthOutcome(c, tx, accounts, preAuth), SignersOf(c, tx, accounts, Sha256HashSigner),
           SignersOf(c, tx, accounts, Ed25519PublicKeySigner), ThresholdsOf(tx, accounts), validatedKeys, signatureCount)
  }

  // ---------------------------------------------------------------- scan methods

  /** The checkSignatures closure. */
  method CheckSignatures(signers: Signers, candidates: Candidates, thresholds: map<Key, nat>,
                         weights0: SignatureWeights, isDone0: bool, used0: set<nat>)
    returns (weights: SignatureWeights, isDone: bool, used: set<nat>)
    ensures ScanState(weights, isDone, used) == Checked(ScanState(weights0, isDone0, used0), signers, candidates, thresholds)
  {
    weights, isDone, used := weights0, isDone0, used0;
    if signers.isEmpty {
      return;
    }
    ghost var st0 := ScanState(weights0, isDone0, used0);
    var i := 0;
    while i < |candidates|
      invariant i <= |candidates|
      invariant ScanState(weights, isDone, used) == Consume(st0, signers, candidates, thresholds, i)
    {
      var (index, signingKey) := candidates[i];
      if isDone {
        ConsumeHalts(st0, signers, candidates, thresholds, i, |candidates|);
        break;
      }
      weights := AddSignatureToWeights(weights, signers, signingKey);
      isDone := HasEnoughApprovals(weights, thresholds);
      used := used + {index};
      i := i + 1;
    }
  }

  /** The preAuth loop of isApproved_common_: pre-authorised keys count as ed25519 signers. */
  method PreAuthLoop(ed25519Signers: Signers, keys: seq<Key>, thresholds: map<Key, nat>) returns (pre: PreAuthState)
    ensures pre == PreAuthPass(ed25519Signers, keys, thresholds, |keys|)
  {
    var weights: SignatureWeights := map[];
    var isDone := false;
    var k := 0;
    while k < |keys|
      invariant k <= |keys|
      invariant PreAuthPass(ed25519Signers, keys, thresholds, k) == Continued(weights, isDone)
    {
      if isDone {
        PreAuthHalts(ed25519Signers, keys, thresholds, k + 1, |keys|);
        return ReturnedEarly;
      }
      weights := AddSignatureToWeights(weights, ed25519Signers, keys[k]);
      isDone := HasEnoughApprovals(weights, thresholds);
      k := k + 1;
    }
    return Continued(weights, isDone);
  }

  /** isApproved_common_ */
  method IsApprovedCommon(c: Crypto, tx: Transaction, accounts: seq<AccountRecord>, validatedKeys: Signers -> Candidates,
                          signatureCount: nat, preAuth: Option<seq<Key>>)
    returns (r: Result<bool, Error>)
    requires RequiredAccounts(tx) <= AccountIds(accounts)
    ensures r == ApprovedCommon(c, tx, accounts, validatedKeys, signatureCount, preAuth)
  {
    var hashXSigners := GetSigners(c, tx, accounts, Sha256HashSigner);
    var ed25519Signers := GetSigners(c, tx, accounts, Ed25519PublicKeySigner);
    var thresholds := GetThresholds(tx, accounts);
    var weights: SignatureWeights := map[];
    var isDone := false;

    if preAuth.Some? {
      var pre := PreAuthLoop(ed25519Signers, preAuth.value, thresholds);
      if pre.ReturnedEarly? {
        return Ok(true);
      }
      weights, isDone := pre.weights, pre.isDone;
    }

    var used: set<nat> := {};
    weights, isDone, used := CheckSignatures(hashXSigners, validatedKeys(hashXSigners), thresholds, weights, isDone, used);
    weights, isDone, used := CheckSignatures(ed25519Signers, validatedKeys(ed25519Signers), thresholds, weights, isDone, used);

    if used != Indices(signatureCount) {
      return Err(TooManySignatures);
    }
    return Ok(isDone);
  }

  /** isApproved_prevalidated: every signing key is a candidate. */
  method IsApprovedPrevalidated(c: Crypto, tx: Transaction, accounts: seq<AccountRecord>, signingKeys: seq<Key>,
                                preAuth: Option<seq<Key>>)
    returns (r: Result<bool, Error>)
    requires RequiredAccounts(tx) <= AccountIds(accounts)
    ensures r == ApprovedCommon(c, tx, accounts, PrevalidatedCandidates(signingKeys), |signingKeys|, preAuth)
  {
    r := IsApprovedCommon(c, tx, accounts, PrevalidatedCandidates(signingKeys), |signingKeys|, preAuth);
  }

  /** isApproved: a signature is a candidate when it resolves against the index; `txHash` is the signed transaction hash. */
  method IsApproved(c: Crypto, tx: Transaction, txHash: Bytes, accounts: seq<AccountRecord>,
                    signatures: seq<DecoratedSignature>, preAuth: Option<seq<Key>>)
    returns (r: Result<bool, Error>)
    requires RequiredAccounts(tx) <= AccountIds(accounts)
    ensures r == ApprovedCommon(c, tx, accounts, ResolvedCandidates(c, txHash, signatures), |signatures|, preAuth)
  {
    r := IsApprovedCommon(c, tx, accounts, ResolvedCandidates(c, txHash, signatures), |signatures|, preAuth);
  }

  // ---------------------------------------------------------------- properties of the scan

  /** Once isDone holds, the loop consumes nothing more. */
  lemma {:induction false} ConsumeHalts(st: ScanState, signers: Signers, cands: Candidates, thresholds: map<Key, nat>,
                                        i: nat, n: nat)
    requires i <= n <= |cands|
    requires Consume(st, signers, cands, thresholds, i).isDone
    ensures Consume(st, signers, cands, thresholds, n) == Consume(st, signers, cands, thresholds, i)
  {
    if n > i {
      ConsumeHalts(st, signers, cands, thresholds, i, n - 1);
    }
  }

  /** isDone stays equal to hasEnoughApprovals of the accumulated weights. */
  lemma {:induction false} ConsumeTracksQuorum(st: ScanState, signers: Signers, cands: Candidates,
                                               thresholds: map<Key, nat>, n: nat)
    requires n <= |cands|
    requires st.isDone == HasEnoughApprovals(st.weights, thresholds)
    ensures var r := Consume(st, signers, cands, thresholds, n);
            r.isDone == HasEnoughApprovals(r.weights, thresholds)
  {
    if n > 0 {
      ConsumeTracksQuorum(st, signers, cands, thresholds, n - 1);
    }
  }

  /** An index is marked exactly when it was marked before or a candidate carrying it was consumed before quorum. */
  lemma {:induction false} ConsumeMarks(st: ScanState, signers: Signers, cands: Candidates, thresholds: map<Key, nat>,
                                        n: nat, x: nat)
    requires n <= |cands|
    ensures x in Consume(st, signers, cands, thresholds, n).used <==>
            x in st.used || exists j :: 0 <= j < n && cands[j].0 == x && !Consume(st, signers, cands, thresholds, j).isDone
  {
    if n > 0 {
      ConsumeMarks(st, signers, cands, thresholds, n - 1, x);
      var prev := Consume(st, signers, cands, thresholds, n - 1);
      if prev.isDone && (exists j :: 0 <= j < n && cands[j].0 == x && !Consume(st, signers, cands, thresholds, j).isDone) {
        var j :| 0 <= j < n && cands[j].0 == x && !Consume(st, signers, cands, thresholds, j).isDone;
        assert j < n - 1;
      }
    }
  }

  /** Once the preAuth loop has returned, it stays returned. */
  lemma {:induction false} PreAuthHalts(signers: Signers, keys: seq<Key>, thresholds: map<Key, nat>, i: nat, n: nat)
    requires i <= n <= |keys|
    requires PreAuthPass(signers, keys, thresholds, i) == ReturnedEarly
    ensures PreAuthPass(signers, keys, thresholds, n) == ReturnedEarly
  {
    if n > i {
      PreAuthHalts(signers, keys, thresholds, i, n - 1);
    }
  }

  /**
   * The preAuth loop returns true early exactly when the keys before the last
   * one already reach quorum; otherwise it has counted every key, and isDone
   * says whether they reach quorum.
   */
  lemma {:induction false} PreAuthEarlyIffQuorumBeforeLastKey(signers: Signers, keys: seq<Key>,
                                                              thresholds: map<Key, nat>, n: nat)
    requires n <= |keys|
    ensures PreAuthPass(signers, keys, thresholds, n) == ReturnedEarly <==>
            n >= 2 && HasEnoughApprovals(CountedWeights(signers, keys, n - 1), thresholds)
    ensures PreAuthPass(signers, keys, thresholds, n).Continued? ==>
            PreAuthPass(signers, keys, thresholds, n)
              == Continued(CountedWeights(signers, keys, n),
                           n > 0 && HasEnoughApprovals(CountedWeights(signers, keys, n), thresholds))
  {
    if n > 0 {
      PreAuthEarlyIffQuorumBeforeLastKey(signers, keys, thresholds, n - 1);
      if n >= 2 && HasEnoughApprovals(CountedWeights(signers, keys, n - 2), thresholds) {
        ApprovalsMonotone(CountedWeights(signers, keys, n - 2), signers, keys[n - 2], thresholds);
      }
    }
  }

  /** A state that is already done goes through checkSignatures untouched. */
  lemma CheckedAfterQuorum(st: ScanState, signers: Signers, cands: Candidates, thresholds: map<Key, nat>)
    requires st.isDone
    ensures Checked(st, signers, cands, thresholds) == st
  {
    if !signers.isEmpty {
      ConsumeHalts(st, signers, cands, thresholds, 0, |cands|);
    }
  }

  /** checkSignatures marks only indices its candidates carry. */
  lemma CheckedMarksOnlyCandidates(st: ScanState, signers: Signers, cands: Candidates, thresholds: map<Key, nat>, x: nat)
    requires x !in st.used
    requires forall j :: 0 <= j < |cands| ==> cands[j].0 != x
    ensures x !in Checked(st, signers, cands, thresholds).used
  {
    if !signers.isEmpty {
      ConsumeMarks(st, signers, cands, thresholds, |cands|, x);
    }
  }

  /** The thresholds have an entry for the envelope source, so the empty weights do not reach quorum. */
  lemma NoQuorumWithoutWeight(tx: Transaction, accounts: seq<AccountRecord>)
    requires RequiredAccounts(tx) <= AccountIds(accounts)
    ensures !HasEnoughApprovals(map[], ThresholdsOf(tx, accounts))
  {
    ThresholdsCharacterised(tx, accounts, tx.source);
  }

  /** When the scan starts with isDone equal to quorum, an answer it returns is whether its final weights reach quorum. */
  lemma DecisionReflectsQuorum(pre: PreAuthState, hashX: Signers, ed: Signers, thresholds: map<Key, nat>,
                               validatedKeys: Signers -> Candidates, signatureCount: nat)
    requires pre.Continued? && pre.isDone == HasEnoughApprovals(pre.weights, thresholds)
    ensures var r := Decide(pre, hashX, ed, thresholds, validatedKeys, signatureCount);
            r.Ok? ==> r.value == HasEnoughApprovals(Scan(hashX, ed, thresholds, validatedKeys, pre.weights, pre.isDone).weights,
                                                    thresholds)
  {
    var st0 := ScanState(pre.weights, pre.isDone, {});
    if !hashX.isEmpty {
      ConsumeTracksQuorum(st0, hashX, validatedKeys(hashX), thresholds, |validatedKeys(hashX)|);
    }
    var st1 := Checked(st0, hashX, validatedKeys(hashX), thresholds);
    if !ed.isEmpty {
      ConsumeTracksQuorum(st1, ed, validatedKeys(ed), thresholds, |validatedKeys(ed)|);
    }
  }

  /** Without an early preAuth return, an answer isApproved_common_ returns is whether the scan's weights reach quorum. */
  lemma ApprovalReflectsQuorum(c: Crypto, tx: Transaction, accounts: seq<AccountRecord>,
                               validatedKeys: Signers -> Candidates, signatureCount: nat, preAuth: Option<seq<Key>>)
    requires RequiredAccounts(tx) <= AccountIds(accounts)
    requires PreAuthOutcome(c, tx, accounts, preAuth).Continued?
    ensures var pre := PreAuthOutcome(c, tx, accounts, preAuth);
            var thresholds := ThresholdsOf(tx, accounts);
            var r := ApprovedCommon(c, tx, accounts, validatedKeys, signatureCount, preAuth);
            r.Ok? ==>
              r.value == HasEnoughApprovals(Scan(SignersOf(c, tx, accounts, Sha256HashSigner),
                                                 SignersOf(c, tx, accounts, Ed25519PublicKeySigner),
                                                 thresholds, validatedKeys, pre.weights, pre.isDone).weights,
                                            thresholds)
  {
    var thresholds := ThresholdsOf(tx, accounts);
    var ed := SignersOf(c, tx, accounts, Ed25519PublicKeySigner);
    var pre := PreAuthOutcome(c, tx, accounts, preAuth);
    NoQuorumWithoutWeight(tx, accounts);
    if preAuth.Some? {
      PreAuthEarlyIffQuorumBeforeLastKey(ed, preAuth.value, thresholds, |preAuth.value|);
    }
    DecisionReflectsQuorum(pre, SignersOf(c, tx, accounts, Sha256HashSigner), ed, thresholds, validatedKeys, signatureCount);
  }

  /** An index that neither signer index's candidates carry stays unmarked: TooManySignatures. */
  lemma UnattributedIndexRejected(pre: PreAuthState, hashX: Signers, ed: Signers, thresholds: map<Key, nat>,
                                  validatedKeys: Signers -> Candidates, signatureCount: nat, x: nat)
    requires x < signatureCount && pre.Continued?
    requires forall j :: 0 <= j < |validatedKeys(hashX)| ==> validatedKeys(hashX)[j].0 != x
    requires forall j :: 0 <= j < |validatedKeys(ed)| ==> validatedKeys(ed)[j].0 != x
    ensures Decide(pre, hashX, ed, thresholds, validatedKeys, signatureCount) == Err(TooManySignatures)
  {
    var st0 := ScanState(pre.weights, pre.isDone, {});
    CheckedMarksOnlyCandidates(st0, hashX, validatedKeys(hashX), thresholds, x);
    var st1 := Checked(st0, hashX, validatedKeys(hashX), thresholds);
    CheckedMarksOnlyCandidates(st1, ed, validatedKeys(ed), thresholds, x);
    assert x in Indices(signatureCount);
  }

  /** A signature that resolves against neither signer index makes isApproved fail with TooManySignatures. */
  lemma UnresolvedSignatureRejected(c: Crypto, tx: Transaction, txHash: Bytes, accounts: seq<AccountRecord>,
                                    signatures: seq<DecoratedSignature>, preAuth: Option<seq<Key>>, i: nat)
    requires i < |signatures|
    requires PreAuthOutcome(c, tx, accounts, preAuth).Continued?
    requires ResolvedKey(c, txHash, SignersOf(c, tx, accounts, Sha256HashSigner), signatures[i]).None?
    requires ResolvedKey(c, txHash, SignersOf(c, tx, accounts, Ed25519PublicKeySigner), signatures[i]).None?
    ensures ApprovedCommon(c, tx, accounts, ResolvedCandidates(c, txHash, signatures), |signatures|, preAuth)
         == Err(TooManySignatures)
  {
    var vk := ResolvedCandidates(c, txHash, signatures);
    var hashX := SignersOf(c, tx, accounts, Sha256HashSigner);
    var ed := SignersOf(c, tx, accounts, Ed25519PublicKeySigner);
    forall j | 0 <= j < |vk(hashX)|
      ensures vk(hashX)[j].0 != i
    {
      assert vk(hashX)[j] in vk(hashX);
    }
    forall j | 0 <= j < |vk(ed)|
      ensures vk(ed)[j].0 != i
    {
      assert vk(ed)[j] in vk(ed);
    }
    UnattributedIndexRejected(PreAuthOutcome(c, tx, accounts, preAuth), hashX, ed, ThresholdsOf(tx, accounts), vk,
                              |signatures|, i);
  }

  /**
   * Once the hash(x) pass reaches quorum it consumes nothing more, and the
   * ed25519 pass consumes nothing at all: a later candidate whose index no
   * earlier candidate carries stays unmarked, so the result is TooManySignatures.
   */
  lemma CandidateAfterQuorumRejected(pre: PreAuthState, hashX: Signers, ed: Signers, thresholds: map<Key, nat>,
                                     validatedKeys: Signers -> Candidates, signatureCount: nat, j: nat, k: nat)
    requires pre.Continued? && !hashX.isEmpty
    requires j <= k < |validatedKeys(hashX)| && validatedKeys(hashX)[k].0 < signatureCount
    requires Consume(ScanState(pre.weights, pre.isDone, {}), hashX, validatedKeys(hashX), thresholds, j).isDone
    requires forall m :: 0 <= m < j ==> validatedKeys(hashX)[m].0 != validatedKeys(hashX)[k].0
    ensures Decide(pre, hashX, ed, thresholds, validatedKeys, signatureCount) == Err(TooManySignatures)
  {
    var cands := validatedKeys(hashX);
    var st0 := ScanState(pre.weights, pre.isDone, {});
    var x := cands[k].0;
    ConsumeHalts(st0, hashX, cands, thresholds, j, |cands|);
    ConsumeMarks(st0, hashX, cands, thresholds, j, x);
    var st1 := Checked(st0, hashX, cands, thresholds);
    CheckedAfterQuorum(st1, ed, validatedKeys(ed), thresholds);
    assert x in Indices(signatureCount);
  }

  /**
   * The same in the ed25519 pass, which runs whether or not there are hash(x)
   * signers: once it reaches quorum it consumes nothing more, so a later
   * candidate whose index the hash(x) pass left unmarked and no earlier ed25519
   * candidate carries stays unmarked, and the result is TooManySignatures.
   */
  lemma EdCandidateAfterQuorumRejected(pre: PreAuthState, hashX: Signers, ed: Signers, thresholds: map<Key, nat>,
                                       validatedKeys: Signers -> Candidates, signatureCount: nat, j: nat, k: nat)
    requires pre.Continued? && !ed.isEmpty
    requires j <= k < |validatedKeys(ed)| && validatedKeys(ed)[k].0 < signatureCount
    requires validatedKeys(ed)[k].0 !in Checked(ScanState(pre.weights, pre.isDone, {}), hashX, validatedKeys(hashX), thresholds).used
    requires Consume(Checked(ScanState(pre.weights, pre.isDone, {}), hashX, validatedKeys(hashX), thresholds),
                     ed, validatedKeys(ed), thresholds, j).isDone
    requires forall m :: 0 <= m < j ==> validatedKeys(ed)[m].0 != validatedKeys(ed)[k].0
    ensures Decide(pre, hashX, ed, thresholds, validatedKeys, signatureCount) == Err(TooManySignatures)
  {
    var cands := validatedKeys(ed);
    var st1 := Checked(ScanState(pre.weights, pre.isDone, {}), hashX, validatedKeys(hashX), thresholds);
    var x := cands[k].0;
    ConsumeHalts(st1, ed, cands, thresholds, j, |cands|);
    ConsumeMarks(st1, ed, cands, thresholds, j, x);
    assert x in Indices(signatureCount);
  }

  /**
   * isApproved_prevalidated marks every key it is offered, signer or not: when
   * quorum is never reached and some signer index is non-empty, the answer is
   * false, never TooManySignatures.
   */
  lemma PrevalidatedBelowQuorumMarksAll(pre: PreAuthState, hashX: Signers, ed: Signers, thresholds: map<Key, nat>,
                                        signingKeys: seq<Key>)
    requires pre.Continued? && (!hashX.isEmpty || !ed.isEmpty)
    requires !Scan(hashX, ed, thresholds, PrevalidatedCandidates(signingKeys), pre.weights, pre.isDone).isDone
    ensures Decide(pre, hashX, ed, thresholds, PrevalidatedCandidates(signingKeys), |signingKeys|) == Ok(false)
  {
    var cands := KeyCandidates(signingKeys);
    var n := |signingKeys|;
    var st0 := ScanState(pre.weights, pre.isDone, {});
    var st1 := Checked(st0, hashX, cands, thresholds);
    var st2 := Checked(st1, ed, cands, thresholds);
    assert !st2.isDone;
    if st1.isDone {
      CheckedAfterQuorum(st1, ed, cands, thresholds);
    }
    if st0.isDone {
      CheckedAfterQuorum(st0, hashX, cands, thresholds);
    }
    forall x: nat
      ensures x in st2.used <==> x < n
    {
      if !hashX.isEmpty {
        ConsumeMarks(st0, hashX, cands, thresholds, n, x);
        if x < n && Consume(st0, hashX, cands, thresholds, x).isDone {
          ConsumeHalts(st0, hashX, cands, thresholds, x, n);
        }
      }
      if !ed.isEmpty {
        ConsumeMarks(st1, ed, cands, thresholds, n, x);
        if x < n && Consume(st1, ed, cands, thresholds, x).isDone {
          ConsumeHalts(st1, ed, cands, thresholds, x, n);
        }
      }
    }
    assert st2.used == Indices(n);
  }

  /**
   * With every candidate index below the signature count, the scan fails with
   * TooManySignatures exactly when some supplied index was left unmarked.
   */
  lemma RejectedIffUnmarked(pre: PreAuthState, hashX: Signers, ed: Signers, thresholds: map<Key, nat>,
                            validatedKeys: Signers -> Candidates, signatureCount: nat)
    requires pre.Continued?
    requires forall j :: 0 <= j < |validatedKeys(hashX)| ==> validatedKeys(hashX)[j].0 < signatureCount
    requires forall j :: 0 <= j < |validatedKeys(ed)| ==> validatedKeys(ed)[j].0 < signatureCount
    ensures Decide(pre, hashX, ed, thresholds, validatedKeys, signatureCount) == Err(TooManySignatures) <==>
            exists x: nat :: x < signatureCount && x !in Scan(hashX, ed, thresholds, validatedKeys, pre.weights, pre.isDone).used
  {
    var st0 := ScanState(pre.weights, pre.isDone, {});
    var st1 := Checked(st0, hashX, validatedKeys(hashX), thresholds);
    var st2 := Checked(st1, ed, validatedKeys(ed), thresholds);
    forall x: nat | x >= signatureCount
      ensures x !in st2.used
    {
      CheckedMarksOnlyCandidates(st0, hashX, validatedKeys(hashX), thresholds, x);
      CheckedMarksOnlyCandidates(st1, ed, validatedKeys(ed), thresholds, x);
    }
    if st2.used != Indices(signatureCount) {
      var x :| (x in st2.used && x !in Indices(signatureCount)) || (x !in st2.used && x in Indices(signatureCount));
    }
  }

  // ---------------------------------------------------------------- the 32-bit bitmask as written

  function Pow2(k: nat): (p: nat)
    ensures p >= 1
  {
    if k == 0 then 1 else 2 * Pow2(k - 1)
  }

  /** The bit `1 << index` sets: JavaScript shifts a 32-bit value by the count modulo 32. */
  function BitOf(index: nat): nat {
    index % 32
  }

  /** The set bits of `signaturesUsed` after `signaturesUsed |= (1 << index)` for each marked index, from 0. */
  function UsedBits(marked: seq<nat>): set<nat> {
    if marked == [] then {} else UsedBits(marked[..|marked| - 1]) + {BitOf(marked[|marked| - 1])}
  }

  /** The value of the bits below `k`. */
  function LowValue(bits: set<nat>, k: nat): nat {
    if k == 0 then 0 else LowValue(bits, k - 1) + if k - 1 in bits then Pow2(k - 1) else 0
  }

  /** ToInt32: the number a 32-bit pattern stands for, bit 31 weighing -2^31. */
  function Int32(bits: set<nat>): int {
    LowValue(bits, 31) - if 31 in bits then Pow2(31) else 0
  }

  /** `(1 << n) - 1`: the shift is 32-bit, the subtraction is not. */
  function AllSignaturesMask(n: nat): int {
    Int32({BitOf(n)}) - 1
  }

  /** `signaturesUsed !== allSignaturesMask`, the test that throws TooManySignatures, as written. */
  predicate MaskMismatch(marked: seq<nat>, signatureCount: nat) {
    Int32(UsedBits(marked)) != AllSignaturesMask(signatureCount)
  }

  /** The indices 0, ..., n - 1 in order. */
  function Upto(n: nat): (r: seq<nat>)
    ensures |r| == n
    ensures forall i: nat :: i in r <==> i < n
  {
    if n == 0 then [] else Upto(n - 1) + [n - 1]
  }

  lemma {:induction false} UsedBitsUpto(n: nat)
    requires n <= 32
    ensures UsedBits(Upto(n)) == Indices(n)
  {
    if n > 0 {
      UsedBitsUpto(n - 1);
      assert Upto(n)[..n - 1] == Upto(n - 1);
      assert BitOf(n - 1) == n - 1;
      assert UsedBits(Upto(n)) == Indices(n - 1) + {n - 1};
      forall i: nat
        ensures i in Indices(n - 1) + {n - 1} <==> i in Indices(n)
      {
      }
    }
  }

  lemma {:induction false} LowValueOfIndices(n: nat, k: nat)
    requires k <= n
    ensures LowValue(Indices(n), k) == Pow2(k) - 1
  {
    if k > 0 {
      LowValueOfIndices(n, k - 1);
    }
  }

  lemma {:induction false} LowValueOfBit(b: nat, k: nat)
    ensures LowValue({b}, k) == if b < k then Pow2(b) else 0
  {
    if k > 0 {
      LowValueOfBit(b, k - 1);
    }
  }

  /**
   * The bitmask wraps at 31 signatures: every one of them is marked, so the
   * sets of indices agree, yet the test as written throws TooManySignatures.
   */
  lemma ThirtyOneMarkedSignaturesRejected()
    ensures forall i: nat :: i in Upto(31) <==> i in Indices(31)
    ensures MaskMismatch(Upto(31), 31)
  {
    AllMarkedMismatch(31);
  }

  lemma AllMarkedMismatch(n: nat)
    requires n == 31
    ensures MaskMismatch(Upto(n), n)
  {
    UsedBitsUpto(n);
    LowValueOfIndices(n, n);
    LowValueOfBit(n, n);
  }

  /**
   * The bitmask wraps at 33 signatures: index 32 shares bit 0, and with only
   * the first signature marked the test as written passes, although 32
   * supplied signatures were never attributed.
   */
  lemma ThirtyThreeSignaturesOneMarkedAccepted()
    ensures Indices(33) != {0}
    ensures !MaskMismatch([0], 33)
  {
    LowValueOfBit(1, 31);
    LowValueOfBit(0, 31);
    assert UsedBits([0]) == {0} by {
      assert [0][..0] == [];
    }
    assert 1 in Indices(33);
  }
}
