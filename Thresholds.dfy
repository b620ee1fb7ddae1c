/**
 * Threshold computation (src/multisig.ts): the category of each operation, the
 * weight each source account must reach, and the rejection thresholds.
 */
module Thresholds {
  import opened Wrappers
  import opened Primitives
  import opened Ledger

  datatype Category = LowThreshold | MedThreshold | HighThreshold

  /** A setOptions operation that changes a weight, a threshold or a signer. */
  predicate TouchesSecurity(body: OpBody)
    requires body.SetOptions?
  {
    Truthy(body.masterWeight) || Truthy(body.lowThreshold) || Truthy(body.medThreshold)
    || Truthy(body.highThreshold) || body.signer.Some?
  }

  /** getOperationCategory_ */
  function OperationCategory(op: Operation): (cat: Category)
    ensures op.body.AccountMerge? ==> cat == HighThreshold
    ensures op.body.SetOptions? ==> (cat == HighThreshold <==> TouchesSecurity(op.body))
    ensures cat == LowThreshold <==> op.body.AllowTrust? || op.body.BumpSequence? || op.body.Inflation?
    ensures cat == HighThreshold <==> op.body.AccountMerge? || (op.body.SetOptions? && TouchesSecurity(op.body))
  {
    match op.body
    case SetOptions(_, _, _, _, _) => if TouchesSecurity(op.body) then HighThreshold else MedThreshold
    case AccountMerge => HighThreshold
    case AllowTrust => LowThreshold
    case BumpSequence => LowThreshold
    case Inflation => LowThreshold
    case _ => MedThreshold
  }

  /** `accountThresholds[category]` */
  function Select(t: ThresholdRecord, cat: Category): nat {
    match cat
    case LowThreshold => t.low
    case MedThreshold => t.med
    case HighThreshold => t.high
  }

  /** The new value a setOptions operation gives to one threshold field, if any. */
  function NewThreshold(body: OpBody, cat: Category): Option<nat> {
    if !body.SetOptions? then None
    else match cat
      case LowThreshold => body.lowThreshold
      case MedThreshold => body.medThreshold
      case HighThreshold => body.highThreshold
  }

  /** A setOptions operation overwrites each threshold field whose new value is truthy. */
  function ApplySetOptions(t: ThresholdRecord, body: OpBody): (r: ThresholdRecord)
    ensures forall cat :: Select(r, cat) == if Truthy(NewThreshold(body, cat)) then NewThreshold(body, cat).value else Select(t, cat)
  {
    if !body.SetOptions? then t
    else
      var lo := if Truthy(body.lowThreshold) then body.lowThreshold.value else t.low;
      var me := if Truthy(body.medThreshold) then body.medThreshold.value else t.med;
      var hi := if Truthy(body.highThreshold) then body.highThreshold.value else t.high;
      ThresholdRecord(lo, me, hi)
  }

  function Max(a: nat, b: nat): nat {
    if a >= b then a else b
  }

  /** `accountMap`: account id to record; a later record with the same id replaces an earlier one. */
  function AccountMap(accounts: seq<AccountRecord>): (m: map<Key, AccountRecord>)
    ensures m.Keys == AccountIds(accounts)
  {
    if accounts == [] then map[]
    else
      var prefix := accounts[..|accounts| - 1];
      assert accounts == prefix + [accounts[|accounts| - 1]];
      AccountMap(prefix)[accounts[|accounts| - 1].id := accounts[|accounts| - 1]]
  }

  /** `accountMap` holds, for each id, the last supplied record with that id. */
  lemma {:induction false} AccountMapLast(accounts: seq<AccountRecord>, i: nat)
    requires i < |accounts| && IsLastWithId(accounts, i)
    ensures accounts[i].id in AccountMap(accounts) && AccountMap(accounts)[accounts[i].id] == accounts[i]
    ensures LedgerThresholds(accounts)[accounts[i].id] == accounts[i].thresholds
  {
    var prefix := accounts[..|accounts| - 1];
    if i < |accounts| - 1 {
      assert accounts[|accounts| - 1].id != accounts[i].id;
      assert IsLastWithId(prefix, i) by {
        forall j | i < j < |prefix| ensures prefix[j].id != prefix[i].id {
          assert prefix[j] == accounts[j];
        }
      }
      AccountMapLast(prefix, i);
      assert prefix[i] == accounts[i];
    }
  }

  /** The baseline requirement of 1 for every supplied account. */
  function Ones(accounts: seq<AccountRecord>): (m: map<Key, nat>)
    ensures m.Keys == AccountIds(accounts)
    ensures forall k :: k in m ==> m[k] == 1
  {
    if accounts == [] then map[]
    else
      var prefix := accounts[..|accounts| - 1];
      assert accounts == prefix + [accounts[|accounts| - 1]];
      Ones(prefix)[accounts[|accounts| - 1].id := 1]
  }

  /** The ledger thresholds of every supplied account. */
  function LedgerThresholds(accounts: seq<AccountRecord>): (m: map<Key, ThresholdRecord>)
    ensures m.Keys == AccountIds(accounts)
  {
    var am := AccountMap(accounts);
    map k | k in am :: am[k].thresholds
  }

  /**
   * The working thresholds of every account once the first `i` operations were
   * scanned, starting from `ledger`: each setOptions overrides its source's record.
   */
  function ThresholdsBefore(tx: Transaction, ledger: map<Key, ThresholdRecord>, i: nat): (m: map<Key, ThresholdRecord>)
    requires i <= |tx.operations|
  {
    if i == 0 then ledger
    else
      var prev := ThresholdsBefore(tx, ledger, i - 1);
      var op := tx.operations[i - 1];
      var src := OperationSource(op, tx);
      if op.body.SetOptions? && src in prev then prev[src := ApplySetOptions(prev[src], op.body)] else prev
  }

  /** The working copy keeps exactly the accounts it started with. */
  lemma {:induction false} ThresholdsBeforeDomain(tx: Transaction, ledger: map<Key, ThresholdRecord>, i: nat)
    requires i <= |tx.operations|
    ensures ThresholdsBefore(tx, ledger, i).Keys == ledger.Keys
  {
    if i > 0 {
      ThresholdsBeforeDomain(tx, ledger, i - 1);
    }
  }

  /** What operation `i` demands of its source account: its category's current threshold. */
  function Charge(tx: Transaction, ledger: map<Key, ThresholdRecord>, i: nat): nat
    requires i < |tx.operations|
  {
    var current := ThresholdsBefore(tx, ledger, i);
    var src := OperationSource(tx.operations[i], tx);
    if src in current then Select(current[src], OperationCategory(tx.operations[i])) else 0
  }

  /** The requirements before any operation: 1 for every account, the envelope source raised to its low threshold. */
  function Initial(tx: Transaction, accounts: seq<AccountRecord>): map<Key, nat> {
    var ones := Ones(accounts);
    var ledger := LedgerThresholds(accounts);
    if tx.source in ones then ones[tx.source := Max(ones[tx.source], ledger[tx.source].low)] else ones
  }

  /** The initial requirements cover the supplied accounts, hence every source. */
  lemma InitialCovers(tx: Transaction, accounts: seq<AccountRecord>)
    requires RequiredAccounts(tx) <= AccountIds(accounts)
    ensures Initial(tx, accounts).Keys == LedgerThresholds(accounts).Keys == AccountIds(accounts)
    ensures forall i :: 0 <= i < |tx.operations| ==> OperationSource(tx.operations[i], tx) in Initial(tx, accounts)
  {
  }

  /** The requirements once the first `i` operations were charged, from `init`. */
  function Required(tx: Transaction, ledger: map<Key, ThresholdRecord>, init: map<Key, nat>, i: nat): (m: map<Key, nat>)
    requires i <= |tx.operations|
  {
    if i == 0 then init
    else
      var prev := Required(tx, ledger, init, i - 1);
      var src := OperationSource(tx.operations[i - 1], tx);
      prev[src := Max(if src in prev then prev[src] else 0, Charge(tx, ledger, i - 1))]
  }

  /** With every source covered, the requirements keep exactly the supplied accounts. */
  lemma {:induction false} RequiredDomain(tx: Transaction, ledger: map<Key, ThresholdRecord>, init: map<Key, nat>, i: nat)
    requires i <= |tx.operations|
    requires forall j :: 0 <= j < |tx.operations| ==> OperationSource(tx.operations[j], tx) in init
    ensures Required(tx, ledger, init, i).Keys == init.Keys
  {
    if i > 0 {
      RequiredDomain(tx, ledger, init, i - 1);
    }
  }

  /** The result of getThresholds. */
  function ThresholdsOf(tx: Transaction, accounts: seq<AccountRecord>): map<Key, nat> {
    Required(tx, LedgerThresholds(accounts), Initial(tx, accounts), |tx.operations|)
  }

  /**
   * getThresholds. The account records are not touched: the threshold changes
   * of setOptions operations go to a local working copy.
   */
  method GetThresholds(tx: Transaction, accounts: seq<AccountRecord>) returns (thresholds: map<Key, nat>)
    requires RequiredAccounts(tx) <= AccountIds(accounts)
    ensures thresholds == ThresholdsOf(tx, accounts)
  {
    thresholds := map[];
    var accountMap: map<Key, AccountRecord> := map[];
    var i := 0;
    while i < |accounts|
      invariant 0 <= i <= |accounts|
      invariant thresholds == Ones(accounts[..i])
      invariant accountMap == AccountMap(accounts[..i])
    {
      assert accounts[..i + 1][..i] == accounts[..i];
      thresholds := thresholds[accounts[i].id := 1];
      accountMap := accountMap[accounts[i].id := accounts[i]];
      i := i + 1;
    }
    assert accounts[..i] == accounts;
    var current: map<Key, ThresholdRecord> := map k | k in accountMap :: accountMap[k].thresholds;
    assert current == LedgerThresholds(accounts);
    var txThreshold := current[tx.source].low;
    thresholds := thresholds[tx.source := Max(thresholds[tx.source], txThreshold)];
    assert thresholds == Initial(tx, accounts);
    thresholds := ChargeOperations(tx, accounts, current, thresholds);
  }

  /** The in-place threshold overrides of a setOptions operation, on the working copy. */
  method OverrideThresholds(t0: ThresholdRecord, body: OpBody) returns (t: ThresholdRecord)
    requires body.SetOptions?
    ensures t == ApplySetOptions(t0, body)
  {
    t := t0;
    if Truthy(body.lowThreshold) {
      t := t.(low := body.lowThreshold.value);
    }
    if Truthy(body.medThreshold) {
      t := t.(med := body.medThreshold.value);
    }
    if Truthy(body.highThreshold) {
      t := t.(high := body.highThreshold.value);
    }
  }

  /** The `forEach` callback of getThresholds: charge operation `j`, then apply its overrides. */
  method ChargeOperation(tx: Transaction, ghost ledger: map<Key, ThresholdRecord>, ghost init: map<Key, nat>, j: nat,
                         current0: map<Key, ThresholdRecord>, thresholds0: map<Key, nat>)
    returns (current: map<Key, ThresholdRecord>, thresholds: map<Key, nat>)
    requires j < |tx.operations|
    requires init.Keys == ledger.Keys
    requires forall i :: 0 <= i < |tx.operations| ==> OperationSource(tx.operations[i], tx) in init
    requires current0 == ThresholdsBefore(tx, ledger, j)
    requires thresholds0 == Required(tx, ledger, init, j)
    ensures current == ThresholdsBefore(tx, ledger, j + 1)
    ensures thresholds == Required(tx, ledger, init, j + 1)
  {
    var op := tx.operations[j];
    var source := OperationSource(op, tx);
    var category := OperationCategory(op);
    ThresholdsBeforeDomain(tx, ledger, j);
    RequiredDomain(tx, ledger, init, j);
    var opThreshold := Select(current0[source], category);
    thresholds := thresholds0[source := Max(thresholds0[source], opThreshold)];
    current := current0;
    if op.body.SetOptions? {
      var t := OverrideThresholds(current[source], op.body);
      current := current[source := t];
    }
  }

  /** The operation scan of getThresholds, from the working copy and requirements before it. */
  method ChargeOperations(tx: Transaction, accounts: seq<AccountRecord>,
                          current0: map<Key, ThresholdRecord>, thresholds0: map<Key, nat>)
    returns (thresholds: map<Key, nat>)
    requires RequiredAccounts(tx) <= AccountIds(accounts)
    requires current0 == LedgerThresholds(accounts)
    requires thresholds0 == Initial(tx, accounts)
    ensures thresholds == ThresholdsOf(tx, accounts)
  {
    ghost var ledger, init := current0, thresholds0;
    InitialCovers(tx, accounts);
    var current := current0;
    thresholds := thresholds0;
    var j := 0;
    while j < |tx.operations|
      invariant j <= |tx.operations|
      invariant current == ThresholdsBefore(tx, ledger, j)
      invariant thresholds == Required(tx, ledger, init, j)
    {
      current, thresholds := ChargeOperation(tx, ledger, init, j, current, thresholds);
      j := j + 1;
    }
  }

  /** One charging step: only the operation's source account can grow, to at most its charge. */
  lemma RequiredStep(tx: Transaction, ledger: map<Key, ThresholdRecord>, init: map<Key, nat>, k: nat, a: Key)
    requires k < |tx.operations|
    requires a in Required(tx, ledger, init, k)
    ensures a in Required(tx, ledger, init, k + 1)
    ensures Required(tx, ledger, init, k + 1)[a] ==
              if OperationSource(tx.operations[k], tx) == a
              then Max(Required(tx, ledger, init, k)[a], Charge(tx, ledger, k))
              else Required(tx, ledger, init, k)[a]
  {
  }

  /** The requirement of one account only grows: it covers its start value and every charge of an operation it sources. */
  lemma {:induction false} RequiredBounds(tx: Transaction, ledger: map<Key, ThresholdRecord>, init: map<Key, nat>, k: nat, a: Key)
    requires k <= |tx.operations|
    requires a in init
    ensures a in Required(tx, ledger, init, k)
    ensures Required(tx, ledger, init, k)[a] >= init[a]
    ensures forall i :: 0 <= i < k && OperationSource(tx.operations[i], tx) == a ==> Required(tx, ledger, init, k)[a] >= Charge(tx, ledger, i)
  {
    if k > 0 {
      RequiredBounds(tx, ledger, init, k - 1, a);
      RequiredBoundsStep(tx, ledger, init, k, a);
    }
  }

  lemma RequiredBoundsStep(tx: Transaction, ledger: map<Key, ThresholdRecord>, init: map<Key, nat>, k: nat, a: Key)
    requires 0 < k <= |tx.operations|
    requires a in init
    requires a in Required(tx, ledger, init, k - 1)
    requires Required(tx, ledger, init, k - 1)[a] >= init[a]
    requires forall i :: 0 <= i < k - 1 && OperationSource(tx.operations[i], tx) == a ==> Required(tx, ledger, init, k - 1)[a] >= Charge(tx, ledger, i)
    ensures a in Required(tx, ledger, init, k)
    ensures Required(tx, ledger, init, k)[a] >= init[a]
    ensures forall i :: 0 <= i < k && OperationSource(tx.operations[i], tx) == a ==> Required(tx, ledger, init, k)[a] >= Charge(tx, ledger, i)
  {
    RequiredStep(tx, ledger, init, k - 1, a);
    var prev, now := Required(tx, ledger, init, k - 1), Required(tx, ledger, init, k);
    assert now[a] >= prev[a];
    forall i | 0 <= i < k && OperationSource(tx.operations[i], tx) == a
      ensures now[a] >= Charge(tx, ledger, i)
    {
      if i < k - 1 {
        assert prev[a] >= Charge(tx, ledger, i);
      }
    }
  }

  /** The requirement of one account is its start value or the charge of an operation it sources. */
  lemma {:induction false} RequiredAttained(tx: Transaction, ledger: map<Key, ThresholdRecord>, init: map<Key, nat>, k: nat, a: Key)
    requires k <= |tx.operations|
    requires a in init
    ensures a in Required(tx, ledger, init, k)
    ensures Required(tx, ledger, init, k)[a] == init[a]
            || exists i :: 0 <= i < k && OperationSource(tx.operations[i], tx) == a && Required(tx, ledger, init, k)[a] == Charge(tx, ledger, i)
  {
    if k > 0 {
      RequiredAttained(tx, ledger, init, k - 1, a);
      RequiredStep(tx, ledger, init, k - 1, a);
      var prev := Required(tx, ledger, init, k - 1);
      var now := Required(tx, ledger, init, k);
      if now[a] != prev[a] {
        assert OperationSource(tx.operations[k - 1], tx) == a && now[a] == Charge(tx, ledger, k - 1);
      } else if prev[a] != init[a] {
        var i :| 0 <= i < k - 1 && OperationSource(tx.operations[i], tx) == a && prev[a] == Charge(tx, ledger, i);
        assert 0 <= i < k && OperationSource(tx.operations[i], tx) == a && now[a] == Charge(tx, ledger, i);
      }
    }
  }

  /**
   * getThresholds returns an entry for exactly the supplied accounts. Each entry
   * is the largest of 1, the envelope source's low threshold (for the envelope
   * source only) and the charge of every operation the account sources.
   */
  lemma ThresholdsCharacterised(tx: Transaction, accounts: seq<AccountRecord>, a: Key)
    requires RequiredAccounts(tx) <= AccountIds(accounts)
    ensures ThresholdsOf(tx, accounts).Keys == AccountIds(accounts)
    ensures a in AccountIds(accounts) ==> ThresholdsOf(tx, accounts)[a] >= 1
    ensures a == tx.source ==> ThresholdsOf(tx, accounts)[a] >= LedgerThresholds(accounts)[a].low
    ensures forall i :: 0 <= i < |tx.operations| && OperationSource(tx.operations[i], tx) == a ==>
              ThresholdsOf(tx, accounts)[a] >= Charge(tx, LedgerThresholds(accounts), i)
    ensures a in AccountIds(accounts) ==>
              || ThresholdsOf(tx, accounts)[a] == 1
              || (a == tx.source && ThresholdsOf(tx, accounts)[a] == LedgerThresholds(accounts)[a].low)
              || exists i :: 0 <= i < |tx.operations| && OperationSource(tx.operations[i], tx) == a
                             && ThresholdsOf(tx, accounts)[a] == Charge(tx, LedgerThresholds(accounts), i)
  {
    var ledger, init := LedgerThresholds(accounts), Initial(tx, accounts);
    InitialCovers(tx, accounts);
    RequiredDomain(tx, ledger, init, |tx.operations|);
    if a in init {
      RequiredBounds(tx, ledger, init, |tx.operations|, a);
      RequiredAttained(tx, ledger, init, |tx.operations|, a);
    }
  }

  /** Operation `i` is sourced from `a` and gives the `cat` threshold a truthy value. */
  predicate Overrides(tx: Transaction, i: nat, a: Key, cat: Category)
    requires i < |tx.operations|
  {
    OperationSource(tx.operations[i], tx) == a && Truthy(NewThreshold(tx.operations[i].body, cat))
  }

  /** One scanning step: only an overriding operation changes what an account's threshold reads. */
  lemma OverrideStep(tx: Transaction, ledger: map<Key, ThresholdRecord>, j: nat, a: Key, cat: Category)
    requires j < |tx.operations|
    requires a in ThresholdsBefore(tx, ledger, j)
    ensures a in ThresholdsBefore(tx, ledger, j + 1)
    ensures Select(ThresholdsBefore(tx, ledger, j + 1)[a], cat) ==
              if Overrides(tx, j, a, cat) then NewThreshold(tx.operations[j].body, cat).value
              else Select(ThresholdsBefore(tx, ledger, j)[a], cat)
  {
  }

  /** An account's threshold that no earlier operation overrode still reads its ledger value. */
  lemma {:induction false} OverrideAbsent(tx: Transaction, ledger: map<Key, ThresholdRecord>, j: nat, a: Key, cat: Category)
    requires j <= |tx.operations|
    requires a in ledger
    requires forall i :: 0 <= i < j ==> !Overrides(tx, i, a, cat)
    ensures a in ThresholdsBefore(tx, ledger, j)
    ensures Select(ThresholdsBefore(tx, ledger, j)[a], cat) == Select(ledger[a], cat)
  {
    if j > 0 {
      OverrideAbsent(tx, ledger, j - 1, a, cat);
      OverrideStep(tx, ledger, j - 1, a, cat);
    }
  }

  /**
   * A threshold set by setOptions is seen only by later operations on the same
   * account: they read the value of the latest earlier setOptions on that
   * account that gave the field a truthy value. A zero or absent value changes nothing.
   */
  lemma {:induction false} OverrideLatest(tx: Transaction, ledger: map<Key, ThresholdRecord>, i: nat, j: nat, a: Key, cat: Category)
    requires i < j <= |tx.operations|
    requires a in ledger
    requires Overrides(tx, i, a, cat)
    requires forall m :: i < m < j ==> !Overrides(tx, m, a, cat)
    ensures a in ThresholdsBefore(tx, ledger, j)
    ensures Select(ThresholdsBefore(tx, ledger, j)[a], cat) == NewThreshold(tx.operations[i].body, cat).value
  {
    if j == i + 1 {
      ThresholdsBeforeDomain(tx, ledger, i);
    } else {
      OverrideLatest(tx, ledger, i, j - 1, a, cat);
    }
    OverrideStep(tx, ledger, j - 1, a, cat);
  }

  /** A setOptions operation is charged at the thresholds in force before it. */
  lemma SetOptionsChargedBeforeChange(tx: Transaction, ledger: map<Key, ThresholdRecord>, i: nat)
    requires i < |tx.operations|
    requires tx.operations[i].body.SetOptions?
    requires OperationSource(tx.operations[i], tx) in ledger
    requires forall m :: 0 <= m < i ==> OperationSource(tx.operations[m], tx) != OperationSource(tx.operations[i], tx)
    ensures Charge(tx, ledger, i) == Select(ledger[OperationSource(tx.operations[i], tx)], OperationCategory(tx.operations[i]))
  {
    var a, cat := OperationSource(tx.operations[i], tx), OperationCategory(tx.operations[i]);
    assert forall m :: 0 <= m < i ==> !Overrides(tx, m, a, cat);
    OverrideAbsent(tx, ledger, i, a, cat);
  }

  /** An account whose thresholds are all 1. */
  function Escrow(): AccountRecord {
    AccountRecord("GESCROW", [Signer("GESCROW", ED25519_PUBLIC_KEY, 1)], ThresholdRecord(1, 1, 1))
  }

  /** Raising the medium threshold to 3, then a payment from the same account. */
  function RaiseThenPay(newMed: nat): Transaction {
    Transaction("GESCROW", [
      Operation(None, SetOptions(None, None, Some(newMed), None, None)),
      Operation(None, Payment)])
  }

  /**
   * The payment after a setOptions raising the medium threshold from 1 to 3
   * requires 3; the setOptions itself is charged at the old high threshold, 1.
   * A zero new threshold is ignored and leaves the requirement at 1.
   */
  lemma RaisedThresholdAppliesLater()
    ensures Charge(RaiseThenPay(3), LedgerThresholds([Escrow()]), 0) == 1
    ensures Charge(RaiseThenPay(3), LedgerThresholds([Escrow()]), 1) == 3
    ensures ThresholdsOf(RaiseThenPay(3), [Escrow()]) == map["GESCROW" := 3]
    ensures ThresholdsOf(RaiseThenPay(0), [Escrow()]) == map["GESCROW" := 1]
  {
    var accounts := [Escrow()];
    assert AccountMap(accounts) == map["GESCROW" := Escrow()] by {
      assert accounts[..0] == [];
    }
    assert LedgerThresholds(accounts) == map["GESCROW" := ThresholdRecord(1, 1, 1)];
    assert Ones(accounts) == map["GESCROW" := 1] by {
      assert accounts[..0] == [];
    }
    var ledger, init := LedgerThresholds(accounts), Initial(RaiseThenPay(3), accounts);
    assert init == map["GESCROW" := 1];
    assert Initial(RaiseThenPay(0), accounts) == map["GESCROW" := 1];
    assert Required(RaiseThenPay(3), ledger, init, 1) == map["GESCROW" := 1];
    assert Required(RaiseThenPay(0), ledger, init, 1) == map["GESCROW" := 1];
    assert Charge(RaiseThenPay(0), ledger, 1) == 1;
  }

  /** The record that `accountMap` keeps for its id: no later record has the same id. */
  predicate IsLastWithId(accounts: seq<AccountRecord>, i: nat)
    requires i < |accounts|
  {
    forall j :: i < j < |accounts| ==> accounts[j].id != accounts[i].id
  }

  /**
   * getThresholds as written: the overrides go to the threshold objects of the
   * caller's records. Besides the requirements it returns the records as the
   * caller sees them afterwards: the record `accountMap` holds for each id now
   * carries the final working thresholds.
   */
  function ThresholdsInPlace(tx: Transaction, accounts: seq<AccountRecord>): (r: (map<Key, nat>, seq<AccountRecord>))
    ensures r.0 == ThresholdsOf(tx, accounts)
    ensures |r.1| == |accounts|
    ensures forall i :: 0 <= i < |accounts| ==> r.1[i].id == accounts[i].id && r.1[i].signers == accounts[i].signers
    ensures forall i :: 0 <= i < |accounts| && IsLastWithId(accounts, i) ==>
              var final := ThresholdsBefore(tx, LedgerThresholds(accounts), |tx.operations|);
              accounts[i].id in final && r.1[i].thresholds == final[accounts[i].id]
    ensures forall i :: 0 <= i < |accounts| && !IsLastWithId(accounts, i) ==> r.1[i].thresholds == accounts[i].thresholds
  {
    var final := ThresholdsBefore(tx, LedgerThresholds(accounts), |tx.operations|);
    ThresholdsBeforeDomain(tx, LedgerThresholds(accounts), |tx.operations|);
    var after := seq(|accounts|, i requires 0 <= i < |accounts| =>
      if IsLastWithId(accounts, i) then accounts[i].(thresholds := final[accounts[i].id])
      else accounts[i]);
    (ThresholdsOf(tx, accounts), after)
  }

  /** A payment, then a setOptions raising the medium threshold to 3. */
  function PayThenRaise(): Transaction {
    Transaction("GESCROW", [
      Operation(None, Payment),
      Operation(None, SetOptions(None, None, Some(3), None, None))])
  }

  /**
   * Evaluating the same transaction twice against the same records gives
   * different requirements: the first evaluation leaves the raised medium
   * threshold in the caller's record, so the second charges the payment at 3.
   */
  lemma ThresholdsLeakIntoNextEvaluation()
    ensures ThresholdsInPlace(PayThenRaise(), [Escrow()]).0 == map["GESCROW" := 1]
    ensures ThresholdsInPlace(PayThenRaise(), ThresholdsInPlace(PayThenRaise(), [Escrow()]).1).0 == map["GESCROW" := 3]
  {
    var tx := PayThenRaise();
    var accounts := [Escrow()];
    assert accounts[..0] == [];
    assert AccountMap(accounts) == map["GESCROW" := Escrow()];
    var ledger := LedgerThresholds(accounts);
    assert ledger == map["GESCROW" := ThresholdRecord(1, 1, 1)];
    assert Ones(accounts) == map["GESCROW" := 1];
    assert Initial(tx, accounts) == map["GESCROW" := 1];
    assert Required(tx, ledger, Initial(tx, accounts), 1) == map["GESCROW" := 1];
    assert ThresholdsBefore(tx, ledger, 1) == ledger;
    assert ThresholdsBefore(tx, ledger, 2) == map["GESCROW" := ThresholdRecord(1, 3, 1)];
    var after := ThresholdsInPlace(tx, accounts).1;
    assert IsLastWithId(accounts, 0);
    assert after == [Escrow().(thresholds := ThresholdRecord(1, 3, 1))];
    assert after[..0] == [];
    assert AccountMap(after) == map["GESCROW" := after[0]];
    var ledger2 := LedgerThresholds(after);
    assert ledger2 == map["GESCROW" := ThresholdRecord(1, 3, 1)];
    assert Ones(after) == map["GESCROW" := 1];
    assert Initial(tx, after) == map["GESCROW" := 1];
    assert Charge(tx, ledger2, 0) == 3;
    assert Required(tx, ledger2, Initial(tx, after), 1) == map["GESCROW" := 3];
  }

  /** The total weight of a list of signers. */
  function SumWeights(signers: seq<Signer>): nat {
    if signers == [] then 0 else SumWeights(signers[..|signers| - 1]) + signers[|signers| - 1].weight
  }

  /**
   * getRejectionThresholds: per account, the sum of all its signer weights minus
   * its threshold; a later record with the same id replaces an earlier one.
   */
  function RejectionThresholds(accounts: seq<AccountRecord>, thresholds: map<Key, nat>): (totals: map<Key, int>)
    requires forall i :: 0 <= i < |accounts| ==> accounts[i].id in thresholds
    ensures totals.Keys == AccountIds(accounts)
  {
    if accounts == [] then map[]
    else
      var prefix, last := accounts[..|accounts| - 1], accounts[|accounts| - 1];
      assert accounts == prefix + [last];
      RejectionThresholds(prefix, thresholds)[last.id := SumWeights(last.signers) - thresholds[last.id]]
  }

  /** The rejection threshold of an account comes from its last record: all its signer weights minus its threshold. */
  lemma {:induction false} RejectionThresholdOfLast(accounts: seq<AccountRecord>, thresholds: map<Key, nat>, i: nat)
    requires forall k :: 0 <= k < |accounts| ==> accounts[k].id in thresholds
    requires i < |accounts| && IsLastWithId(accounts, i)
    ensures accounts[i].id in RejectionThresholds(accounts, thresholds)
    ensures RejectionThresholds(accounts, thresholds)[accounts[i].id] == SumWeights(accounts[i].signers) - thresholds[accounts[i].id]
  {
    var prefix := accounts[..|accounts| - 1];
    if i < |accounts| - 1 {
      assert accounts[|accounts| - 1].id != accounts[i].id;
      assert IsLastWithId(prefix, i) by {
        forall j | i < j < |prefix| ensures prefix[j].id != prefix[i].id {
          assert prefix[j] == accounts[j];
        }
      }
      RejectionThresholdOfLast(prefix, thresholds, i);
      assert prefix[i] == accounts[i];
    }
  }
}
