/**
 * The signer index (getSigners in src/multisig.ts): for one signer type, hint
 * buckets of candidate keys and, per key, the weight it carries on each account.
 */
module SignerIndex {
  import opened Wrappers
  import opened Primitives
  import opened Ledger
  import opened Hints

  /**
   * The `signers` structure. A hint bucket is a JavaScript Set: it holds each
   * key once and iterates in insertion order, so it is a duplicate-free sequence.
   */
  datatype Signers = Signers(hints: map<Hint, seq<Key>>, keys: map<Key, map<Key, nat>>, isEmpty: bool)

  const Empty: Signers := Signers(map[], map[], true)

  /** One call of the `add` closure: a signer and the account it is added to. */
  datatype Entry = Entry(signer: Signer, account: Key)

  /** The signer's type has an entry in the hint dispatch table. */
  predicate Hintable(e: Entry) {
    e.signer.signerType in {SHA256_HASH, SHA256_HASH_FIELD, ED25519_PUBLIC_KEY, ED25519_PUBLIC_KEY_FIELD}
  }

  /**
   * The hint `add` files a signer under. Both passes only add signers whose
   * type the hint table knows (a selected ledger signer has the requested type, and AmendEntry ensures Hintable),
   * so the empty fallback is never used by getSigners.
   */
  function HintOf(c: Crypto, e: Entry): Hint {
    match GetHintFromSigner(c, e.signer)
    case Some(h) => h
    case None => []
  }

  /** HintOf as a function value: the hint function every `add` of getSigners uses. */
  function Hinter(c: Crypto): Entry -> Hint {
    e => HintOf(c, e)
  }

  /**
   * The effect of `add`: the key joins its hint bucket once, its weight for the
   * account is overwritten. The hint function is a parameter, so the lemmas about
   * the index below hold whatever hint each entry gets; getSigners uses Hinter(c).
   */
  function Add(hinter: Entry -> Hint, s: Signers, e: Entry): Signers {
    var hint := hinter(e);
    var bucket := if hint in s.hints then s.hints[hint] else [];
    var perAccount := if e.signer.key in s.keys then s.keys[e.signer.key] else map[];
    Signers(s.hints[hint := if e.signer.key in bucket then bucket else bucket + [e.signer.key]],
            s.keys[e.signer.key := perAccount[e.account := e.signer.weight]],
            false)
  }

  /** `add` applied to each entry in turn. */
  function AddAll(hinter: Entry -> Hint, s: Signers, es: seq<Entry>): Signers {
    if es == [] then s
    else Add(hinter, AddAll(hinter, s, es[..|es| - 1]), es[|es| - 1])
  }

  lemma AddAllSnoc(hinter: Entry -> Hint, s: Signers, es: seq<Entry>, e: Entry)
    ensures AddAll(hinter, s, es + [e]) == Add(hinter, AddAll(hinter, s, es), e)
  {
    assert (es + [e])[..|es|] == es;
  }

  lemma {:induction false} AddAllAppend(hinter: Entry -> Hint, s: Signers, xs: seq<Entry>, ys: seq<Entry>)
    ensures AddAll(hinter, s, xs + ys) == AddAll(hinter, AddAll(hinter, s, xs), ys)
  {
    if ys != [] {
      var prefix := ys[..|ys| - 1];
      assert (xs + ys)[..|xs + ys| - 1] == xs + prefix;
      AddAllAppend(hinter, s, xs, prefix);
    } else {
      assert xs + ys == xs;
    }
  }

  /** The ledger filter: no `preauth_tx` signer, and only the requested type. */
  predicate Selected(signer: Signer, t: AccountSignerType) {
    signer.signerType != PREAUTH_TX && signer.signerType == t.Tag()
  }

  /** What the ledger pass adds for the first `n` signers of one account. */
  function AccountEntries(account: AccountRecord, t: AccountSignerType, n: nat): (es: seq<Entry>)
    requires n <= |account.signers|
    ensures forall e :: e in es ==> e.signer.signerType == t.Tag()
    ensures t == PreauthTxSigner ==> es == []
  {
    if n == 0 then []
    else
      var prev := AccountEntries(account, t, n - 1);
      var signer := account.signers[n - 1];
      if Selected(signer, t) then prev + [Entry(signer, account.id)] else prev
  }

  lemma {:induction false} AccountEntriesMembers(account: AccountRecord, t: AccountSignerType, n: nat, e: Entry)
    requires n <= |account.signers|
    ensures e in AccountEntries(account, t, n) <==>
            e.account == account.id && e.signer in account.signers[..n] && Selected(e.signer, t)
  {
    if n > 0 {
      AccountEntriesMembers(account, t, n - 1, e);
      assert account.signers[..n] == account.signers[..n - 1] + [account.signers[n - 1]];
    }
  }

  /** What the ledger pass adds for a list of accounts, in order. */
  function LedgerEntries(accounts: seq<AccountRecord>, t: AccountSignerType): (es: seq<Entry>)
    ensures forall e :: e in es ==> e.signer.signerType == t.Tag()
    ensures t == PreauthTxSigner ==> es == []
  {
    if accounts == [] then []
    else
      var last := accounts[|accounts| - 1];
      LedgerEntries(accounts[..|accounts| - 1], t) + AccountEntries(last, t, |last.signers|)
  }

  /** The ledger pass adds exactly the selected signers of the listed accounts, each for its own account. */
  lemma {:induction false} LedgerEntriesMembers(accounts: seq<AccountRecord>, t: AccountSignerType, e: Entry)
    ensures e in LedgerEntries(accounts, t) <==>
            exists a :: a in accounts && e.account == a.id && e.signer in a.signers && Selected(e.signer, t)
  {
    if accounts != [] {
      var prefix, last := accounts[..|accounts| - 1], accounts[|accounts| - 1];
      assert accounts == prefix + [last];
      LedgerEntriesMembers(prefix, t, e);
      AccountEntriesMembers(last, t, |last.signers|, e);
      assert last.signers[..|last.signers|] == last.signers;
    }
  }

  /** keyType: the setOptions signer field the requested type reads. */
  function KeyField(t: AccountSignerType): Option<string> {
    match t
    case Ed25519PublicKeySigner => Some(ED25519_PUBLIC_KEY_FIELD)
    case Sha256HashSigner => Some(SHA256_HASH_FIELD)
    case PreauthTxSigner => None
  }

  /**
   * The signer a setOptions operation adds for the requested type: one with a
   * key field of the matching kind and a non-zero weight, on the operation's
   * source account; a hash key is first StrKey-encoded.
   */
  function AmendEntry(c: Crypto, tx: Transaction, op: Operation, t: AccountSignerType): (r: Option<Entry>)
    ensures r.Some? <==> op.body.SetOptions? && op.body.signer.Some? && t != PreauthTxSigner
                         && op.body.signer.value.key.Field() == KeyField(t).value && op.body.signer.value.weight != 0
    ensures r.Some? ==> r.value.account == OperationSource(op, tx) && r.value.signer.weight == op.body.signer.value.weight
                        && r.value.signer.signerType == t.Tag() && Hintable(r.value)
    ensures r.Some? && t == Sha256HashSigner ==> r.value.signer.key == c.encodeSha256Hash(op.body.signer.value.key.hash)
    ensures r.Some? && t == Ed25519PublicKeySigner ==> r.value.signer.key == op.body.signer.value.key.publicKey
  {
    if op.body.SetOptions? && op.body.signer.Some? && KeyField(t).Some?
       && op.body.signer.value.key.Field() == KeyField(t).value && op.body.signer.value.weight != 0
    then
      var s := op.body.signer.value;
      var key := if s.key.Sha256Hash? then c.encodeSha256Hash(s.key.hash) else s.key.publicKey;
      Some(Entry(Signer(key, t.Tag(), s.weight), OperationSource(op, tx)))
    else None
  }

  /** What the amendment pass adds for the first `n` operations, in order. */
  function AmendEntries(c: Crypto, tx: Transaction, t: AccountSignerType, n: nat): (es: seq<Entry>)
    requires n <= |tx.operations|
  {
    if n == 0 then []
    else
      var prev := AmendEntries(c, tx, t, n - 1);
      match AmendEntry(c, tx, tx.operations[n - 1], t)
      case None => prev
      case Some(e) => prev + [e]
  }

  /** The amendment pass adds exactly the signers its operations add. */
  lemma {:induction false} AmendEntriesMembers(c: Crypto, tx: Transaction, t: AccountSignerType, n: nat, e: Entry)
    requires n <= |tx.operations|
    ensures e in AmendEntries(c, tx, t, n) <==> exists i :: 0 <= i < n && AmendEntry(c, tx, tx.operations[i], t) == Some(e)
  {
    if n > 0 {
      AmendEntriesMembers(c, tx, t, n - 1, e);
      AmendMembersStep(c, tx, t, n, e);
    }
  }

  lemma AmendMembersStep(c: Crypto, tx: Transaction, t: AccountSignerType, n: nat, e: Entry)
    requires 0 < n <= |tx.operations|
    requires e in AmendEntries(c, tx, t, n - 1) <==> exists i :: 0 <= i < n - 1 && AmendEntry(c, tx, tx.operations[i], t) == Some(e)
    ensures e in AmendEntries(c, tx, t, n) <==> exists i :: 0 <= i < n && AmendEntry(c, tx, tx.operations[i], t) == Some(e)
  {
    var prev, now := AmendEntries(c, tx, t, n - 1), AmendEntries(c, tx, t, n);
    var r := AmendEntry(c, tx, tx.operations[n - 1], t);
    assert now == if r.Some? then prev + [r.value] else prev;
    if e in now && e !in prev {
      assert r == Some(e);
    }
    if e in prev {
      var i :| 0 <= i < n - 1 && AmendEntry(c, tx, tx.operations[i], t) == Some(e);
      assert 0 <= i < n && AmendEntry(c, tx, tx.operations[i], t) == Some(e);
    }
  }

  /** Every `add` getSigners performs, in order; the amendment pass is skipped for `preauth_tx`. */
  function Entries(c: Crypto, tx: Transaction, accounts: seq<AccountRecord>, t: AccountSignerType): seq<Entry> {
    LedgerEntries(accounts, t) + if t == PreauthTxSigner then [] else AmendEntries(c, tx, t, |tx.operations|)
  }

  /** The result of getSigners. */
  function SignersOf(c: Crypto, tx: Transaction, accounts: seq<AccountRecord>, t: AccountSignerType): Signers {
    AddAll(Hinter(c), Empty, Entries(c, tx, accounts, t))
  }

  /** The `add` closure, updating the index in place. */
  method AddSigner(c: Crypto, s: Signers, signer: Signer, accountId: Key) returns (r: Signers)
    requires Hintable(Entry(signer, accountId))
    ensures r == Add(Hinter(c), s, Entry(signer, accountId))
  {
    var hint := GetHintFromSigner(c, signer).value;
    var hints := s.hints;
    if hint !in hints {
      hints := hints[hint := []];
    }
    if signer.key !in hints[hint] {
      hints := hints[hint := hints[hint] + [signer.key]];
    }
    var keys := s.keys;
    if signer.key !in keys {
      keys := keys[signer.key := map[]];
    }
    keys := keys[signer.key := keys[signer.key][accountId := signer.weight]];
    r := Signers(hints, keys, false);
  }

  lemma LedgerStep(hinter: Entry -> Hint, accounts: seq<AccountRecord>, t: AccountSignerType, i: nat)
    requires i < |accounts|
    ensures AddAll(hinter, Empty, LedgerEntries(accounts[..i + 1], t))
         == AddAll(hinter, AddAll(hinter, Empty, LedgerEntries(accounts[..i], t)), AccountEntries(accounts[i], t, |accounts[i].signers|))
  {
    assert accounts[..i + 1][..i] == accounts[..i];
    AddAllAppend(hinter, Empty, LedgerEntries(accounts[..i], t), AccountEntries(accounts[i], t, |accounts[i].signers|));
  }

  /** The index once the ledger pass has seen the first `j` signers of one account. */
  function AccountIndex(hinter: Entry -> Hint, account: AccountRecord, t: AccountSignerType, s: Signers, j: nat): Signers
    requires j <= |account.signers|
  {
    if j == 0 then s
    else
      var prev := AccountIndex(hinter, account, t, s, j - 1);
      var signer := account.signers[j - 1];
      if Selected(signer, t) then Add(hinter, prev, Entry(signer, account.id)) else prev
  }

  lemma {:induction false} AccountIndexAddsEntries(hinter: Entry -> Hint, account: AccountRecord, t: AccountSignerType, s: Signers, j: nat)
    requires j <= |account.signers|
    ensures AccountIndex(hinter, account, t, s, j) == AddAll(hinter, s, AccountEntries(account, t, j))
  {
    if j > 0 {
      AccountIndexAddsEntries(hinter, account, t, s, j - 1);
      AccountIndexStep(hinter, account, t, s, j);
    }
  }

  lemma AccountIndexStep(hinter: Entry -> Hint, account: AccountRecord, t: AccountSignerType, s: Signers, j: nat)
    requires 0 < j <= |account.signers|
    requires AccountIndex(hinter, account, t, s, j - 1) == AddAll(hinter, s, AccountEntries(account, t, j - 1))
    ensures AccountIndex(hinter, account, t, s, j) == AddAll(hinter, s, AccountEntries(account, t, j))
  {
    if Selected(account.signers[j - 1], t) {
      AddAllSnoc(hinter, s, AccountEntries(account, t, j - 1), Entry(account.signers[j - 1], account.id));
    }
  }

  /** One iteration of the filtered loop over an account's signers: `add` a selected signer, skip any other. */
  method IndexSigner(c: Crypto, account: AccountRecord, t: AccountSignerType, j: nat, signers0: Signers)
    returns (signers: Signers)
    requires j < |account.signers|
    ensures signers == if Selected(account.signers[j], t) then Add(Hinter(c), signers0, Entry(account.signers[j], account.id))
                       else signers0
  {
    var signer := account.signers[j];
    signers := signers0;
    if signer.signerType != PREAUTH_TX && signer.signerType == t.Tag() {
      signers := AddSigner(c, signers, signer, account.id);
    }
  }

  /** The ledger pass of getSigners, for one account. */
  method IndexAccount(c: Crypto, account: AccountRecord, t: AccountSignerType, s: Signers) returns (signers: Signers)
    ensures signers == AddAll(Hinter(c), s, AccountEntries(account, t, |account.signers|))
  {
    signers := s;
    var j := 0;
    while j < |account.signers|
      invariant j <= |account.signers|
      invariant signers == AccountIndex(Hinter(c), account, t, s, j)
    {
      signers := IndexSigner(c, account, t, j, signers);
      j := j + 1;
    }
    AccountIndexAddsEntries(Hinter(c), account, t, s, j);
  }

  /** The ledger pass of getSigners. */
  method IndexLedgerSigners(c: Crypto, accounts: seq<AccountRecord>, t: AccountSignerType) returns (signers: Signers)
    ensures signers == AddAll(Hinter(c), Empty, LedgerEntries(accounts, t))
  {
    signers := Empty;
    var i := 0;
    while i < |accounts|
      invariant i <= |accounts|
      invariant signers == AddAll(Hinter(c), Empty, LedgerEntries(accounts[..i], t))
    {
      signers := IndexAccount(c, accounts[i], t, signers);
      LedgerStep(Hinter(c), accounts, t, i);
      i := i + 1;
    }
    assert accounts[..i] == accounts;
  }

  /** The index once the amendment pass has seen the first `k` operations. */
  function AmendIndex(hinter: Entry -> Hint, c: Crypto, tx: Transaction, t: AccountSignerType, s: Signers, k: nat): Signers
    requires k <= |tx.operations|
  {
    if k == 0 then s
    else
      match AmendEntry(c, tx, tx.operations[k - 1], t)
      case None => AmendIndex(hinter, c, tx, t, s, k - 1)
      case Some(e) => Add(hinter, AmendIndex(hinter, c, tx, t, s, k - 1), e)
  }

  lemma {:induction false} AmendIndexAddsEntries(hinter: Entry -> Hint, c: Crypto, tx: Transaction, t: AccountSignerType, s: Signers, k: nat)
    requires k <= |tx.operations|
    ensures AmendIndex(hinter, c, tx, t, s, k) == AddAll(hinter, s, AmendEntries(c, tx, t, k))
  {
    var i := 0;
    while i < k
      invariant i <= k
      invariant AmendIndex(hinter, c, tx, t, s, i) == AddAll(hinter, s, AmendEntries(c, tx, t, i))
    {
      AmendIndexStep(hinter, c, tx, t, s, i);
      i := i + 1;
    }
  }

  lemma AmendIndexStep(hinter: Entry -> Hint, c: Crypto, tx: Transaction, t: AccountSignerType, s: Signers, k: nat)
    requires k < |tx.operations|
    requires AmendIndex(hinter, c, tx, t, s, k) == AddAll(hinter, s, AmendEntries(c, tx, t, k))
    ensures AmendIndex(hinter, c, tx, t, s, k + 1) == AddAll(hinter, s, AmendEntries(c, tx, t, k + 1))
  {
    match AmendEntry(c, tx, tx.operations[k], t)
    case None =>
    case Some(e) => AddAllSnoc(hinter, s, AmendEntries(c, tx, t, k), e);
  }

  /** One operation of the amendment pass: `add` the signer a matching setOptions carries. */
  method AmendSigner(c: Crypto, tx: Transaction, t: AccountSignerType, keyType: string, ghost s: Signers, k: nat,
                     signers0: Signers)
    returns (signers: Signers)
    requires t != PreauthTxSigner && keyType == KeyField(t).value
    requires k < |tx.operations|
    requires signers0 == AmendIndex(Hinter(c), c, tx, t, s, k)
    ensures signers == AmendIndex(Hinter(c), c, tx, t, s, k + 1)
  {
    var op := tx.operations[k];
    signers := signers0;
    if op.body.SetOptions? && op.body.signer.Some? && op.body.signer.value.key.Field() == keyType
       && op.body.signer.value.weight != 0
    {
      var account := OperationSource(op, tx);
      var key := if op.body.signer.value.key.Sha256Hash? then c.encodeSha256Hash(op.body.signer.value.key.hash)
                 else op.body.signer.value.key.publicKey;
      var weight := op.body.signer.value.weight;
      signers := AddSigner(c, signers, Signer(key, t.Tag(), weight), account);
    }
  }

  /** The amendment pass of getSigners: signers that the transaction's own setOptions add. */
  method AmendSigners(c: Crypto, tx: Transaction, t: AccountSignerType, s: Signers) returns (signers: Signers)
    requires t != PreauthTxSigner
    ensures signers == AmendIndex(Hinter(c), c, tx, t, s, |tx.operations|)
  {
    signers := s;
    var keyType := KeyField(t).value;
    var k := 0;
    while k < |tx.operations|
      invariant k <= |tx.operations|
      invariant signers == AmendIndex(Hinter(c), c, tx, t, s, k)
    {
      signers := AmendSigner(c, tx, t, keyType, s, k, signers);
      k := k + 1;
    }
  }

  /** getSigners */
  method GetSigners(c: Crypto, tx: Transaction, accounts: seq<AccountRecord>, t: AccountSignerType) returns (signers: Signers)
    ensures signers == SignersOf(c, tx, accounts, t)
  {
    signers := IndexLedgerSigners(c, accounts, t);
    if t == PreauthTxSigner {
      assert Entries(c, tx, accounts, t) == LedgerEntries(accounts, t);
      return;
    }
    ghost var ledger := signers;
    signers := AmendSigners(c, tx, t, signers);
    AmendIndexAddsEntries(Hinter(c), c, tx, t, ledger, |tx.operations|);
    AddAllAppend(Hinter(c), Empty, LedgerEntries(accounts, t), AmendEntries(c, tx, t, |tx.operations|));
  }

  /** Reference definition: the weight of the last entry added for `key` on `account`. */
  function LastWeight(es: seq<Entry>, key: Key, account: Key): Option<nat> {
    if es == [] then None
    else if es[|es| - 1].signer.key == key && es[|es| - 1].account == account then Some(es[|es| - 1].signer.weight)
    else LastWeight(es[..|es| - 1], key, account)
  }

  /** The weight table holds, per key and account, the weight of the last signer added for them, and nothing else. */
  lemma {:induction false} WeightsAreLastAdded(hinter: Entry -> Hint, es: seq<Entry>, key: Key, account: Key)
    ensures var r := AddAll(hinter, Empty, es);
            (key in r.keys && account in r.keys[key]) <==> LastWeight(es, key, account).Some?
    ensures var r := AddAll(hinter, Empty, es);
            LastWeight(es, key, account).Some? ==> r.keys[key][account] == LastWeight(es, key, account).value
  {
    if es != [] {
      var prefix := es[..|es| - 1];
      WeightsAreLastAdded(hinter, prefix, key, account);
    }
  }

  /** A key is in a hint bucket exactly when some signer with that key and that hint was added. */
  lemma {:induction false} BucketsHoldAddedKeys(hinter: Entry -> Hint, es: seq<Entry>, h: Hint, key: Key)
    ensures var r := AddAll(hinter, Empty, es);
            (h in r.hints && key in r.hints[h]) <==> exists e :: e in es && e.signer.key == key && hinter(e) == h
  {
    if es != [] {
      var prefix, last := es[..|es| - 1], es[|es| - 1];
      assert es == prefix + [last];
      assert forall e :: e in prefix ==> e in es;
      BucketsHoldAddedKeys(hinter, prefix, h, key);
      var r := AddAll(hinter, Empty, es);
      if (exists e :: e in prefix && e.signer.key == key && hinter(e) == h) {
        assert h in r.hints && key in r.hints[h];
      }
    }
  }

  /** No key occurs twice. */
  predicate Distinct(keys: seq<Key>) {
    forall i, j :: 0 <= i < j < |keys| ==> keys[i] != keys[j]
  }

  /** A hint bucket never holds the same key twice. */
  lemma {:induction false} BucketsDistinct(hinter: Entry -> Hint, es: seq<Entry>, h: Hint)
    ensures var r := AddAll(hinter, Empty, es);
            h in r.hints ==> Distinct(r.hints[h])
  {
    if es != [] {
      var prefix, last := es[..|es| - 1], es[|es| - 1];
      BucketsDistinct(hinter, prefix, h);
      var r0 := AddAll(hinter, Empty, prefix);
      var bucket := if h in r0.hints then r0.hints[h] else [];
      assert Distinct(bucket);
      if hinter(last) == h && last.signer.key !in bucket {
        var grown := bucket + [last.signer.key];
        forall i, j | 0 <= i < j < |grown|
          ensures grown[i] != grown[j]
        {
          if j == |bucket| {
            assert grown[i] == bucket[i] && bucket[i] in bucket;
          }
        }
      }
    }
  }

  /** getSigners for `preauth_tx` indexes nothing: the ledger filter drops every pre-authorised signer. */
  lemma PreauthIndexesNothing(c: Crypto, tx: Transaction, accounts: seq<AccountRecord>)
    ensures SignersOf(c, tx, accounts, PreauthTxSigner) == Empty
  {
    assert Entries(c, tx, accounts, PreauthTxSigner) == [];
  }

  /**
   * The index is empty exactly when no listed account has a signer of the
   * requested type and no setOptions of the transaction adds one.
   */
  lemma IndexEmptyIffNoSigners(c: Crypto, tx: Transaction, accounts: seq<AccountRecord>, t: AccountSignerType)
    ensures SignersOf(c, tx, accounts, t).isEmpty <==>
            (forall a, signer :: a in accounts && signer in a.signers ==> !Selected(signer, t))
            && (t == PreauthTxSigner || forall i :: 0 <= i < |tx.operations| ==> AmendEntry(c, tx, tx.operations[i], t).None?)
  {
    var es := Entries(c, tx, accounts, t);
    AddAllKeepsEmpty(Hinter(c), Empty, es);
    LedgerEntriesEmpty(accounts, t);
    if t != PreauthTxSigner {
      AmendEntriesEmpty(c, tx, t);
    }
  }

  /** The `isEmpty` flag survives exactly the runs that add nothing. */
  lemma AddAllKeepsEmpty(hinter: Entry -> Hint, s: Signers, es: seq<Entry>)
    ensures AddAll(hinter, s, es).isEmpty <==> s.isEmpty && es == []
  {
  }

  lemma LedgerEntriesEmpty(accounts: seq<AccountRecord>, t: AccountSignerType)
    ensures LedgerEntries(accounts, t) == [] <==>
            forall a, signer :: a in accounts && signer in a.signers ==> !Selected(signer, t)
  {
    var ledger := LedgerEntries(accounts, t);
    if ledger != [] {
      LedgerEntriesMembers(accounts, t, ledger[0]);
    } else {
      forall a, signer | a in accounts && signer in a.signers
        ensures !Selected(signer, t)
      {
        LedgerEntriesMembers(accounts, t, Entry(signer, a.id));
      }
    }
  }

  lemma AmendEntriesEmpty(c: Crypto, tx: Transaction, t: AccountSignerType)
    ensures AmendEntries(c, tx, t, |tx.operations|) == [] <==>
            forall i :: 0 <= i < |tx.operations| ==> AmendEntry(c, tx, tx.operations[i], t).None?
  {
    var amended := AmendEntries(c, tx, t, |tx.operations|);
    if amended != [] {
      AmendEntriesMembers(c, tx, t, |tx.operations|, amended[0]);
    } else {
      forall i | 0 <= i < |tx.operations|
        ensures AmendEntry(c, tx, tx.operations[i], t).None?
      {
        var r := AmendEntry(c, tx, tx.operations[i], t);
        if r.Some? {
          AmendEntriesMembers(c, tx, t, |tx.operations|, r.value);
        }
      }
    }
  }

  /** A selected ledger signer is indexed under its hint and carries a weight for its account. */
  lemma LedgerSignerIndexed(c: Crypto, tx: Transaction, accounts: seq<AccountRecord>, t: AccountSignerType,
                            a: AccountRecord, signer: Signer)
    requires a in accounts && signer in a.signers && Selected(signer, t)
    ensures Hintable(Entry(signer, a.id))
    ensures var r := SignersOf(c, tx, accounts, t);
            var h := HintOf(c, Entry(signer, a.id));
            h in r.hints && signer.key in r.hints[h] && signer.key in r.keys && a.id in r.keys[signer.key]
  {
    var e := Entry(signer, a.id);
    var es := Entries(c, tx, accounts, t);
    LedgerEntriesMembers(accounts, t, e);
    assert e in es;
    BucketsHoldAddedKeys(Hinter(c), es, HintOf(c, e), signer.key);
    LastWeightPresent(es, e);
    WeightsAreLastAdded(Hinter(c), es, signer.key, a.id);
  }

  lemma {:induction false} LastWeightPresent(es: seq<Entry>, e: Entry)
    requires e in es
    ensures LastWeight(es, e.signer.key, e.account).Some?
  {
    var last := es[|es| - 1];
    if !(last.signer.key == e.signer.key && last.account == e.account) {
      assert es == es[..|es| - 1] + [last];
      LastWeightPresent(es[..|es| - 1], e);
    }
  }

  /** Operation `k` of the transaction adds `key` to `account` for the requested type. */
  predicate Amends(c: Crypto, tx: Transaction, t: AccountSignerType, k: nat, key: Key, account: Key)
    requires k < |tx.operations|
  {
    var r := AmendEntry(c, tx, tx.operations[k], t);
    r.Some? && r.value.signer.key == key && r.value.account == account
  }

  /**
   * A signer that a setOptions operation of the transaction adds, with no later
   * operation adding the same key to the same account, carries the weight that
   * operation gives it: amendments are applied after the ledger signers.
   */
  lemma AmendmentWeightPrevails(c: Crypto, tx: Transaction, accounts: seq<AccountRecord>, t: AccountSignerType,
                                i: nat, key: Key, account: Key)
    requires i < |tx.operations| && Amends(c, tx, t, i, key, account)
    requires forall k :: i < k < |tx.operations| ==> !Amends(c, tx, t, k, key, account)
    ensures var r := SignersOf(c, tx, accounts, t);
            key in r.keys && account in r.keys[key] && r.keys[key][account] == tx.operations[i].body.signer.value.weight
  {
    AmendLastWeight(c, tx, t, i, |tx.operations|, key, account);
    LastWeightAppend(LedgerEntries(accounts, t), AmendEntries(c, tx, t, |tx.operations|), key, account);
    WeightsAreLastAdded(Hinter(c), Entries(c, tx, accounts, t), key, account);
  }

  lemma {:induction false} AmendLastWeight(c: Crypto, tx: Transaction, t: AccountSignerType, i: nat, n: nat,
                                           key: Key, account: Key)
    requires i < n <= |tx.operations| && Amends(c, tx, t, i, key, account)
    requires forall k :: i < k < n ==> !Amends(c, tx, t, k, key, account)
    ensures LastWeight(AmendEntries(c, tx, t, n), key, account) == Some(tx.operations[i].body.signer.value.weight)
  {
    var r := AmendEntry(c, tx, tx.operations[n - 1], t);
    assert AmendEntries(c, tx, t, n) == if r.Some? then AmendEntries(c, tx, t, n - 1) + [r.value] else AmendEntries(c, tx, t, n - 1);
    if n - 1 > i {
      AmendLastWeight(c, tx, t, i, n - 1, key, account);
      assert !Amends(c, tx, t, n - 1, key, account);
    }
    if r.Some? {
      LastWeightSnoc(AmendEntries(c, tx, t, n - 1), r.value, key, account);
    }
  }

  lemma LastWeightSnoc(xs: seq<Entry>, e: Entry, key: Key, account: Key)
    ensures LastWeight(xs + [e], key, account)
         == if e.signer.key == key && e.account == account then Some(e.signer.weight) else LastWeight(xs, key, account)
  {
    assert (xs + [e])[..|xs|] == xs;
  }

  lemma {:induction false} LastWeightAppend(xs: seq<Entry>, ys: seq<Entry>, key: Key, account: Key)
    ensures LastWeight(xs + ys, key, account)
         == if LastWeight(ys, key, account).Some? then LastWeight(ys, key, account) else LastWeight(xs, key, account)
  {
    if ys == [] {
      assert xs + ys == xs;
    } else {
      assert (xs + ys)[..|xs + ys| - 1] == xs + ys[..|ys| - 1];
      LastWeightAppend(xs, ys[..|ys| - 1], key, account);
    }
  }
}
