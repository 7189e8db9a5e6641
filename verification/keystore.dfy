/**
 The API-key ledger of api_keys.py: a map from the digest of an API key to
 its account record. The JSON file that persists the map is not modelled;
 each operation takes the map and returns its result together with the
 new map. The digest function (SHA-256 in api_keys.py) is an arbitrary
 function supplied by the caller, and so are the current time and the
 random part of a freshly generated key.
 */
module KeyStore {
  import opened Common
  import opened Text

  type Digest = string
  type Timestamp = string
  /** `hash_key`: any deterministic function from keys to digests. */
  type Hasher = string -> Digest

  /** Every generated key starts with this marker. */
  const KeyPrefix: string := "cvapi_"

  datatype KeyRecord = KeyRecord(
    userEmail: string,
    creditsRemaining: int,
    createdAt: Timestamp,
    lastUsed: Option<Timestamp>,
    isActive: bool)

  type Store = map<Digest, KeyRecord>

  /** The outcome of `create_key`: the plaintext key, returned once, and the new store. */
  datatype Minted = Minted(key: string, store: Store)

  /** The outcome of a debit attempt: granted or refused, and the new store. */
  datatype Debit = Debit(ok: bool, store: Store)

  /** A digest names an account that may be used. */
  predicate Usable(store: Store, d: Digest) {
    d in store && store[d].isActive
  }

  /** Every entry other than `d` is the same in `s` and `s'`. */
  ghost predicate OthersUnchanged(s: Store, s': Store, d: Digest) {
    forall x :: x != d ==> (x in s <==> x in s') && (x in s ==> s'[x] == s[x])
  }

  /**
   `s'` is `s` after a debit of `amount` at `d` stamped `now`: the balance
   drops by exactly `amount`, the use time is set, the owner, creation time
   and active flag are kept, and nothing else changes.
   */
  ghost predicate Debited(s: Store, s': Store, d: Digest, amount: int, now: Timestamp) {
    && d in s && d in s'
    && s'[d].creditsRemaining == s[d].creditsRemaining - amount
    && s'[d].lastUsed == Some(now)
    && s'[d].userEmail == s[d].userEmail
    && s'[d].createdAt == s[d].createdAt
    && s'[d].isActive == s[d].isActive
    && OthersUnchanged(s, s', d)
  }

  /** No account holds a negative balance. */
  ghost predicate NonNegative(store: Store) {
    forall d :: d in store ==> store[d].creditsRemaining >= 0
  }

  /** `generate_key`: the marker followed by the random token. */
  function GenerateKey(token: string): (key: string)
    ensures StartsWith(key, KeyPrefix)
    ensures key[|KeyPrefix|..] == token
  {
    KeyPrefix + token
  }

  /**
   `create_key`: stores a fresh active record for the key's digest and
   returns the plaintext key. A digest already present is overwritten, as
   the dictionary assignment in api_keys.py does.
   */
  function CreateKey(store: Store, hash: Hasher, userEmail: string, credits: int,
                     token: string, now: Timestamp): (m: Minted)
    ensures StartsWith(m.key, KeyPrefix)
    ensures m.key == GenerateKey(token)
    ensures hash(m.key) in m.store
    ensures var r := m.store[hash(m.key)];
      && r.userEmail == userEmail
      && r.creditsRemaining == credits
      && r.createdAt == now
      && r.lastUsed == None
      && r.isActive
    ensures m.store.Keys == store.Keys + {hash(m.key)}
    ensures OthersUnchanged(store, m.store, hash(m.key))
    ensures hash(m.key) !in store ==> |m.store| == |store| + 1
  {
    var key := GenerateKey(token);
    var record := KeyRecord(userEmail, credits, now, None, true);
    Minted(key, store[hash(key) := record])
  }

  /** `validate_key`: the stored record when the digest is known and active. */
  function ValidateKey(store: Store, hash: Hasher, key: string): (r: Option<KeyRecord>)
    ensures r.Some? <==> Usable(store, hash(key))
    ensures r.Some? ==> r.value == store[hash(key)] && r.value.isActive
  {
    var d := hash(key);
    if d !in store || !store[d].isActive then None else Some(store[d])
  }

  /**
   `deduct_credits`: refuses, changing nothing, when the account is unknown,
   inactive or short of `amount`; otherwise debits exactly `amount`.
   */
  function DeductCredits(store: Store, hash: Hasher, key: string, amount: int,
                         now: Timestamp): (r: Debit)
    ensures r.ok <==> Usable(store, hash(key)) && store[hash(key)].creditsRemaining >= amount
    ensures !r.ok ==> r.store == store
    ensures r.ok ==> Debited(store, r.store, hash(key), amount, now)
  {
    var d := hash(key);
    if d !in store || !store[d].isActive then Debit(false, store)
    else if store[d].creditsRemaining < amount then Debit(false, store)
    else
      var account := store[d];
      var updated := account.(creditsRemaining := account.creditsRemaining - amount, lastUsed := Some(now));
      Debit(true, store[d := updated])
  }

  /** `get_credits`: the balance exactly when `validate_key` accepts the key. */
  function GetCredits(store: Store, hash: Hasher, key: string): (r: Option<int>)
    ensures r.Some? <==> ValidateKey(store, hash, key).Some?
    ensures r.Some? ==> r.value == ValidateKey(store, hash, key).value.creditsRemaining
  {
    match ValidateKey(store, hash, key)
    case None => None
    case Some(record) => Some(record.creditsRemaining)
  }

  /** A freshly created key reports exactly the credits it was created with. */
  lemma CreateThenGetCredits(store: Store, hash: Hasher, userEmail: string, credits: int,
                             token: string, now: Timestamp)
    ensures var m := CreateKey(store, hash, userEmail, credits, token, now);
      GetCredits(m.store, hash, m.key) == Some(credits)
  {
  }

  /** A granted debit lowers the reported balance by exactly the amount. */
  lemma DeductThenGetCredits(store: Store, hash: Hasher, key: string, amount: int, now: Timestamp)
    requires DeductCredits(store, hash, key, amount, now).ok
    ensures GetCredits(store, hash, key).Some?
    ensures GetCredits(DeductCredits(store, hash, key, amount, now).store, hash, key)
         == Some(GetCredits(store, hash, key).value - amount)
  {
  }

  /** The record written by `create_key` is the same whatever the key: no field carries it. */
  lemma RecordIndependentOfKey(store1: Store, store2: Store, hash: Hasher, userEmail: string,
                               credits: int, token1: string, token2: string, now: Timestamp)
    ensures var m1 := CreateKey(store1, hash, userEmail, credits, token1, now);
            var m2 := CreateKey(store2, hash, userEmail, credits, token2, now);
      m1.store[hash(m1.key)] == m2.store[hash(m2.key)]
  {
  }

  /** An inactive account is never debited, whatever its balance and the amount. */
  lemma InactiveNeverDebited(store: Store, hash: Hasher, key: string, amount: int, now: Timestamp)
    requires hash(key) in store && !store[hash(key)].isActive
    ensures DeductCredits(store, hash, key, amount, now) == Debit(false, store)
  {
  }

  /** Debits of non-negative amounts keep every balance non-negative. */
  lemma DeductKeepsNonNegative(store: Store, hash: Hasher, key: string, amount: int, now: Timestamp)
    requires NonNegative(store) && amount >= 0
    ensures NonNegative(DeductCredits(store, hash, key, amount, now).store)
  {
  }

  /** Creating a key with a non-negative grant keeps every balance non-negative. */
  lemma CreateKeepsNonNegative(store: Store, hash: Hasher, userEmail: string, credits: int,
                               token: string, now: Timestamp)
    requires NonNegative(store) && credits >= 0
    ensures NonNegative(CreateKey(store, hash, userEmail, credits, token, now).store)
  {
  }

  /**
   Two requests each asking for the whole positive balance B, one after the
   other: the first is granted, the second refused, and the balance ends at 0.
   */
  lemma TwoFullDebitsOneWins(store: Store, hash: Hasher, key: string, now1: Timestamp, now2: Timestamp)
    requires Usable(store, hash(key)) && store[hash(key)].creditsRemaining > 0
    ensures var b := store[hash(key)].creditsRemaining;
            var first := DeductCredits(store, hash, key, b, now1);
            var second := DeductCredits(first.store, hash, key, b, now2);
      && first.ok && !second.ok
      && second.store == first.store
      && GetCredits(second.store, hash, key) == Some(0)
  {
  }

  /** Example: 100 credits, a debit of 10, then 90. */
  lemma CreateDebitExample(store: Store, hash: Hasher, userEmail: string, token: string,
                           now1: Timestamp, now2: Timestamp)
    ensures var m := CreateKey(store, hash, userEmail, 100, token, now1);
            var d := DeductCredits(m.store, hash, m.key, 10, now2);
      && GetCredits(m.store, hash, m.key) == Some(100)
      && d.ok
      && GetCredits(d.store, hash, m.key) == Some(90)
  {
  }

  /** The sum of the amounts whose debit was granted. */
  function GrantedSum(amounts: seq<int>, grants: seq<bool>): int
    requires |grants| == |amounts|
  {
    if |amounts| == 0 then 0
    else
      var n := |amounts| - 1;
      GrantedSum(amounts[..n], grants[..n]) + (if grants[n] then amounts[n] else 0)
  }

  function Sum(amounts: seq<int>): int {
    if |amounts| == 0 then 0 else Sum(amounts[..|amounts| - 1]) + amounts[|amounts| - 1]
  }

  /** When every debit was granted, the granted sum is the sum of all amounts. */
  lemma {:induction false} GrantedSumAllGranted(amounts: seq<int>, grants: seq<bool>)
    requires |grants| == |amounts|
    requires forall i :: 0 <= i < |grants| ==> grants[i]
    ensures GrantedSum(amounts, grants) == Sum(amounts)
  {
    if |amounts| > 0 {
      var n := |amounts| - 1;
      GrantedSumAllGranted(amounts[..n], grants[..n]);
    }
  }

  /**
   A sequence of `deduct_credits` calls against one key: the final balance
   is the initial one minus the sum of the granted amounts, an unusable
   account grants nothing, no other account changes, and the balance ends
   either untouched or non-negative, since a grant never overdraws.
   */
  method DebitEach(store: Store, hash: Hasher, key: string, amounts: seq<int>, now: Timestamp) returns (grants: seq<bool>, after: Store)
    ensures |grants| == |amounts|
    ensures !Usable(store, hash(key)) ==> after == store && forall i :: 0 <= i < |grants| ==> !grants[i]
    ensures hash(key) in store ==>
      && hash(key) in after && after == store[hash(key) := after[hash(key)]]
      && after[hash(key)].isActive == store[hash(key)].isActive
    ensures hash(key) in store ==>
      after[hash(key)].creditsRemaining == store[hash(key)].creditsRemaining - GrantedSum(amounts, grants)
    ensures hash(key) in store && (forall i :: 0 <= i < |grants| ==> grants[i]) ==>
      after[hash(key)].creditsRemaining == store[hash(key)].creditsRemaining - Sum(amounts)
    ensures hash(key) in store ==>
      after[hash(key)].creditsRemaining >= 0 || after[hash(key)].creditsRemaining == store[hash(key)].creditsRemaining
    ensures forall i :: 0 <= i < |amounts| ==>
      (grants[i] <==> Usable(store, hash(key))
                      && store[hash(key)].creditsRemaining - GrantedSum(amounts[..i], grants[..i]) >= amounts[i])
  {
    var d := hash(key);
    grants := [];
    after := store;
    var i := 0;
    while i < |amounts|
      invariant 0 <= i <= |amounts|
      invariant |grants| == i
      invariant OthersUnchanged(store, after, d)
      invariant (d in store <==> d in after)
      invariant d in store ==> after[d].isActive == store[d].isActive
      invariant d in store ==>
        after[d].creditsRemaining == store[d].creditsRemaining - GrantedSum(amounts[..i], grants)
      invariant !Usable(store, d) ==> after == store && forall j :: 0 <= j < i ==> !grants[j]
      invariant d in store ==> after[d].creditsRemaining >= 0 || after[d].creditsRemaining == store[d].creditsRemaining
      invariant forall j :: 0 <= j < i ==>
        (grants[j] <==> Usable(store, d)
                        && store[d].creditsRemaining - GrantedSum(amounts[..j], grants[..j]) >= amounts[j])
    {
      var r := DeductCredits(after, hash, key, amounts[i], now);
      assert amounts[..i + 1][..i] == amounts[..i];
      assert (grants + [r.ok])[..i] == grants;
      assert forall j :: 0 <= j < i ==> (grants + [r.ok])[..j] == grants[..j];
      grants := grants + [r.ok];
      after := r.store;
      i := i + 1;
    }
    assert amounts[..i] == amounts;
    if d in store && (forall j :: 0 <= j < |grants| ==> grants[j]) {
      GrantedSumAllGranted(amounts, grants);
    }
  }
}
