/**
 * Weight accounting (updateSigningWeights_, addSignatureToWeights) and the
 * two threshold tests (hasEnoughApprovals, hasEnoughRejections).
 */
module Weights {
  import opened Primitives
  import opened Ledger
  import opened Thresholds
  import opened SignerIndex

  /** signatureWeights: a weight per account id. */
  type SignatureWeights = map<Key, nat>

  /** The weight accumulated for `id`, counting a missing entry as none. */
  function WeightOf(w: SignatureWeights, id: Key): nat {
    if id in w then w[id] else 0
  }

  /** Every account of `signer` gains the weight listed for it; missing entries are created. */
  function AddWeights(weights: SignatureWeights, signer: map<Key, nat>): (r: SignatureWeights)
    ensures r.Keys == weights.Keys + signer.Keys
    ensures forall id :: WeightOf(r, id) == WeightOf(weights, id) + WeightOf(signer, id)
  {
    map id | id in weights.Keys + signer.Keys :: WeightOf(weights, id) + WeightOf(signer, id)
  }

  /** updateSigningWeights_ */
  method UpdateSigningWeights(weights0: SignatureWeights, signer: map<Key, nat>) returns (weights: SignatureWeights)
    ensures weights == AddWeights(weights0, signer)
  {
    weights := weights0;
    var todo := signer.Keys;
    while todo != {}
      invariant todo <= signer.Keys
      invariant weights.Keys == weights0.Keys + (signer.Keys - todo)
      invariant forall id :: id in weights ==>
                  weights[id] == WeightOf(weights0, id) + if id in todo then 0 else WeightOf(signer, id)
      decreases todo
    {
      var id :| id in todo;
      if id in weights {
        weights := weights[id := weights[id] + signer[id]];
      } else {
        weights := weights[id := signer[id]];
      }
      todo := todo - {id};
    }
  }

  /** The weights after one signing key is counted: its per-account weights if it is a known signer, else no change. */
  function AddSignature(weights: SignatureWeights, signers: Signers, signingKey: Key): SignatureWeights {
    if signingKey in signers.keys then AddWeights(weights, signers.keys[signingKey]) else weights
  }

  /** addSignatureToWeights */
  method AddSignatureToWeights(weights0: SignatureWeights, signers: Signers, signingKey: Key) returns (weights: SignatureWeights)
    ensures weights == AddSignature(weights0, signers, signingKey)
  {
    weights := weights0;
    if signingKey in signers.keys {
      weights := UpdateSigningWeights(weights0, signers.keys[signingKey]);
    }
  }

  /** hasEnoughApprovals: every threshold is met; an account with no weight entry fails. */
  predicate HasEnoughApprovals(weights: SignatureWeights, thresholds: map<Key, nat>)
    ensures HasEnoughApprovals(weights, thresholds) ==> thresholds.Keys <= weights.Keys
  {
    forall id :: id in thresholds ==> id in weights && weights[id] >= thresholds[id]
  }

  /** hasEnoughRejections: every rejection threshold is exceeded; an account with no weight entry fails. */
  predicate HasEnoughRejections(weights: SignatureWeights, rejects: map<Key, int>)
    ensures HasEnoughRejections(weights, rejects) ==> rejects.Keys <= weights.Keys
  {
    forall id :: id in rejects ==> id in weights && weights[id] > rejects[id]
  }

  /** An account with no weight entry fails both tests, even against a threshold of 0 or below. */
  lemma MissingEntryFails(weights: SignatureWeights, thresholds: map<Key, nat>, rejects: map<Key, int>, id: Key)
    requires id !in weights
    ensures id in thresholds ==> !HasEnoughApprovals(weights, thresholds)
    ensures id in rejects ==> !HasEnoughRejections(weights, rejects)
  {
  }

  /** A key that is no known signer leaves the weights unchanged. */
  lemma UnknownKeyAddsNothing(weights: SignatureWeights, signers: Signers, signingKey: Key)
    requires signingKey !in signers.keys
    ensures AddSignature(weights, signers, signingKey) == weights
  {
  }

  /** A known key raises exactly the accounts it signs for, by its weight on each, and creates their entries. */
  lemma KnownKeyAddsItsWeights(weights: SignatureWeights, signers: Signers, signingKey: Key, id: Key)
    requires signingKey in signers.keys
    ensures var r := AddSignature(weights, signers, signingKey);
            (id in r <==> id in weights || id in signers.keys[signingKey])
            && WeightOf(r, id) == WeightOf(weights, id) + WeightOf(signers.keys[signingKey], id)
  {
  }

  /** Counting the same key twice counts its weight twice. */
  lemma SameKeyTwiceDoubles(weights: SignatureWeights, signers: Signers, signingKey: Key, id: Key)
    requires signingKey in signers.keys
    ensures var twice := AddSignature(AddSignature(weights, signers, signingKey), signers, signingKey);
            WeightOf(twice, id) == WeightOf(weights, id) + 2 * WeightOf(signers.keys[signingKey], id)
  {
  }

  /** The order in which two keys are counted does not matter. */
  lemma {:induction false} CountingCommutes(weights: SignatureWeights, signers: Signers, k1: Key, k2: Key)
    ensures AddSignature(AddSignature(weights, signers, k1), signers, k2)
         == AddSignature(AddSignature(weights, signers, k2), signers, k1)
  {
    var a := AddSignature(AddSignature(weights, signers, k1), signers, k2);
    var b := AddSignature(AddSignature(weights, signers, k2), signers, k1);
    assert a.Keys == b.Keys;
    forall id | id in a
      ensures a[id] == b[id]
    {
      assert WeightOf(a, id) == WeightOf(b, id);
    }
  }

  /** Counting a key never withdraws an approval. */
  lemma ApprovalsMonotone(weights: SignatureWeights, signers: Signers, signingKey: Key, thresholds: map<Key, nat>)
    requires HasEnoughApprovals(weights, thresholds)
    ensures HasEnoughApprovals(AddSignature(weights, signers, signingKey), thresholds)
  {
    var r := AddSignature(weights, signers, signingKey);
    forall id | id in thresholds
      ensures id in r && r[id] >= thresholds[id]
    {
      assert WeightOf(r, id) >= WeightOf(weights, id);
    }
  }

  /** hasEnoughRejections over naturals is hasEnoughApprovals with every threshold raised by one. */
  lemma RejectionsAreStrictApprovals(weights: SignatureWeights, rejects: map<Key, int>, raised: map<Key, nat>)
    requires raised.Keys == rejects.Keys
    requires forall id :: id in rejects ==> raised[id] == if rejects[id] < 0 then 0 else rejects[id] + 1
    ensures HasEnoughRejections(weights, rejects) <==> HasEnoughApprovals(weights, raised)
  {
  }

  /** The summed weight of the signers whose positions are (or, with `inside` false, are not) in `chosen`. */
  function PartWeight(signers: seq<Signer>, chosen: set<nat>, inside: bool): nat {
    if signers == [] then 0
    else
      var n := |signers| - 1;
      PartWeight(signers[..n], chosen, inside) + if (n in chosen) == inside then signers[n].weight else 0
  }

  lemma {:induction false} PartsMakeWhole(signers: seq<Signer>, chosen: set<nat>)
    ensures PartWeight(signers, chosen, true) + PartWeight(signers, chosen, false) == SumWeights(signers)
  {
    if signers != [] {
      PartsMakeWhole(signers[..|signers| - 1], chosen);
    }
  }

  /**
   * The meaning of a rejection threshold: once the signers in `chosen` weigh
   * more than an account's rejection threshold, the account's other signers
   * together stay below its threshold, so they cannot approve.
   */
  lemma RejectionExcludesApproval(accounts: seq<AccountRecord>, thresholds: map<Key, nat>, i: nat, chosen: set<nat>,
                                  weights: SignatureWeights)
    requires forall k :: 0 <= k < |accounts| ==> accounts[k].id in thresholds
    requires i < |accounts| && IsLastWithId(accounts, i)
    requires WeightOf(weights, accounts[i].id) == PartWeight(accounts[i].signers, chosen, true)
    requires HasEnoughRejections(weights, RejectionThresholds(accounts, thresholds))
    ensures PartWeight(accounts[i].signers, chosen, false) < thresholds[accounts[i].id]
  {
    var id := accounts[i].id;
    RejectionThresholdOfLast(accounts, thresholds, i);
    PartsMakeWhole(accounts[i].signers, chosen);
  }
}
