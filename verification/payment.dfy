/**
 payment.py: the Stripe checkout metadata, the decision part of session
 verification, and the bearer-token gate that validates a key and debits
 it. Stripe itself is a collaborator: a retrieved session is an input.
 */
module Payment {
  import opened Common
  import opened Text
  import opened KeyStore

  const BearerPrefix: string := "Bearer "
  const PaidStatus: string := "paid"
  const CreditsField: string := "credits"

  /** What Stripe reports about a checkout session. */
  datatype Session = Session(
    id: string,
    paymentStatus: string,
    customerEmail: Option<string>,
    metadata: map<string, string>)

  /** What `verify_session` hands back for a paid session. */
  datatype PaymentInfo = PaymentInfo(sessionId: string, customerEmail: Option<string>, credits: int)

  datatype SessionError =
    | RetrievalFailed    // Stripe raised while retrieving the session
    | NotPaid            // payment_status is not "paid"
    | MalformedCredits   // int() raised on the credits metadata

  /**
   The metadata `create_checkout_session` attaches to a session: the
   purchased quantity under `credits`, stored by Stripe as a string.
   */
  function CheckoutMetadata(quantity: int): (m: map<string, string>)
    ensures m.Keys == {CreditsField}
    ensures ParseInt(m[CreditsField]) == Some(quantity)
  {
    IntRoundTrip(quantity);
    map[CreditsField := IntToString(quantity)]
  }

  /**
   `verify_session`: refuses a session that could not be retrieved or is
   not paid; otherwise reports the integer `credits` metadata, 0 when absent.
   */
  function VerifySession(retrieved: Option<Session>): (r: Result<PaymentInfo, SessionError>)
    ensures retrieved.None? ==> r == Failure(RetrievalFailed)
    ensures retrieved.Some? && retrieved.value.paymentStatus != PaidStatus ==> r == Failure(NotPaid)
    ensures r.Success? ==> && retrieved.Some?
                           && retrieved.value.paymentStatus == PaidStatus
                           && r.value.sessionId == retrieved.value.id
                           && r.value.customerEmail == retrieved.value.customerEmail
    ensures r.Success? && CreditsField !in retrieved.value.metadata ==> r.value.credits == 0
    ensures r.Success? && CreditsField in retrieved.value.metadata ==>
      ParseInt(retrieved.value.metadata[CreditsField]) == Some(r.value.credits)
    ensures r.Success? <==>
      && retrieved.Some? && retrieved.value.paymentStatus == PaidStatus
      && (CreditsField !in retrieved.value.metadata
          || ParseInt(retrieved.value.metadata[CreditsField]).Some?)
    ensures r == Failure(MalformedCredits) <==>
      && retrieved.Some? && retrieved.value.paymentStatus == PaidStatus
      && CreditsField in retrieved.value.metadata
      && ParseInt(retrieved.value.metadata[CreditsField]).None?
  {
    match retrieved
    case None => Failure(RetrievalFailed)
    case Some(session) =>
      if session.paymentStatus != PaidStatus then Failure(NotPaid)
      else
        var credits :=
          if CreditsField in session.metadata then ParseInt(session.metadata[CreditsField]) else Some(0);
        match credits
        case None => Failure(MalformedCredits)
        case Some(c) => Success(PaymentInfo(session.id, session.customerEmail, c))
  }

  /** A paid session created for `quantity` credits verifies to exactly `quantity` credits. */
  lemma CheckoutCreditsRoundTrip(id: string, email: Option<string>, quantity: int)
    ensures VerifySession(Some(Session(id, PaidStatus, email, CheckoutMetadata(quantity))))
         == Success(PaymentInfo(id, email, quantity))
  {
  }

  /**
   The key in an Authorization header: absent unless the header is present
   and starts with `Bearer `; then every `Bearer ` in it is removed and the
   surrounding whitespace stripped.
   */
  function ExtractBearerKey(authorization: Option<string>): (r: Option<string>)
    ensures r.Some? <==> authorization.Some? && StartsWith(authorization.value, BearerPrefix)
    ensures r.Some? ==> IsStripped(r.value) && |r.value| <= |authorization.value| - |BearerPrefix|
  {
    match authorization
    case None => None
    case Some(header) =>
      if |header| == 0 || !StartsWith(header, BearerPrefix) then None
      else Some(Strip(RemoveAll(header, BearerPrefix)))
  }

  /** A header `Bearer k` yields `k` itself when `k` is trimmed and holds no `Bearer `. */
  lemma ExtractPlainKey(k: string)
    requires !HasInfix(k, BearerPrefix) && IsStripped(k)
    ensures ExtractBearerKey(Some(BearerPrefix + k)) == Some(k)
  {
    var header := BearerPrefix + k;
    assert StartsWith(header, BearerPrefix);
    assert header[|BearerPrefix|..] == k;
  }

  /** `str.replace` removes every marker, so `Bearer Bearer k` also yields `k`. */
  lemma ExtractRepeatedMarker(k: string)
    requires !HasInfix(k, BearerPrefix) && IsStripped(k)
    ensures ExtractBearerKey(Some(BearerPrefix + BearerPrefix + k)) == Some(k)
  {
    var header := BearerPrefix + BearerPrefix + k;
    var rest := BearerPrefix + k;
    assert header[..|BearerPrefix|] == BearerPrefix;
    assert header[|BearerPrefix|..] == rest;
    RemoveLeading(header, BearerPrefix);
    assert rest[..|BearerPrefix|] == BearerPrefix;
    assert rest[|BearerPrefix|..] == k;
    RemoveLeading(rest, BearerPrefix);
    assert RemoveAll(header, BearerPrefix) == k;
  }

  /**
   Whitespace between the marker and the key, and after the key, is
   stripped: `Bearer ` + w1 + k + w2 yields `k` for whitespace w1 and w2
   when the rest of the header holds no further marker.
   */
  lemma ExtractPaddedKey(w1: string, k: string, w2: string)
    requires AllSpace(w1) && AllSpace(w2) && IsStripped(k)
    requires !HasInfix(w1 + k + w2, BearerPrefix)
    ensures ExtractBearerKey(Some(BearerPrefix + w1 + k + w2)) == Some(k)
  {
    var rest := w1 + k + w2;
    var header := BearerPrefix + rest;
    assert BearerPrefix + w1 + k + w2 == header;
    assert header[..|BearerPrefix|] == BearerPrefix;
    assert header[|BearerPrefix|..] == rest;
    RemoveLeading(header, BearerPrefix);
    assert RemoveAll(header, BearerPrefix) == rest;
    StripPadded(w1, k, w2);
  }

  /**
   `verify_payment_token`: a malformed header is refused without touching
   the store; otherwise the key is granted exactly when its account is
   usable and holds at least `cost`, and a grant debits exactly `cost`.
   */
  function VerifyPaymentToken(store: Store, hash: Hasher, authorization: Option<string>,
                              cost: int, now: Timestamp): (r: Debit)
    ensures ExtractBearerKey(authorization).None? ==> r == Debit(false, store)
    ensures r.ok <==> && ExtractBearerKey(authorization).Some?
                      && var d := hash(ExtractBearerKey(authorization).value);
                         Usable(store, d) && store[d].creditsRemaining >= cost
    ensures !r.ok ==> r.store == store
    ensures r.ok ==> Debited(store, r.store, hash(ExtractBearerKey(authorization).value), cost, now)
  {
    match ExtractBearerKey(authorization)
    case None => Debit(false, store)
    case Some(key) =>
      if ValidateKey(store, hash, key).None? then Debit(false, store)
      else DeductCredits(store, hash, key, cost, now)
  }

  /**
   Once the header yields a key, the gate behaves exactly as
   `deduct_credits` on that key: the preceding `validate_key` changes nothing.
   */
  lemma GateIsDeduct(store: Store, hash: Hasher, authorization: Option<string>, key: string,
                     cost: int, now: Timestamp)
    requires ExtractBearerKey(authorization) == Some(key)
    ensures VerifyPaymentToken(store, hash, authorization, cost, now)
         == DeductCredits(store, hash, key, cost, now)
  {
  }
}
