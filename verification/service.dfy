/**
 The request rules of main.py around the ledger: website normalisation,
 the per-endpoint costs and the gate, the credit report, the purchase
 range, the settlement of a paid checkout into a new key, and the admin
 path that mints keys. HTTP errors are values; the verification heuristic
 that runs after a granted request is not modelled.
 */
module Service {
  import opened Common
  import opened Text
  import opened KeyStore
  import opened Payment

  /** Credits charged for one company verification. */
  const VerificationCost: int := 10
  /** `BatchVerifyRequest.companies` holds at most this many items. */
  const MaxBatchItems: nat := 10
  const MinPurchase: int := 10
  const MaxPurchase: int := 10000

  const HttpScheme: string := "http://"
  const HttpsScheme: string := "https://"

  const BadRequest: int := 400
  const Unauthorized: int := 401
  const PaymentRequired: int := 402
  const Forbidden: int := 403
  const UnprocessableEntity: int := 422
  const ServerError: int := 500

  datatype HttpError = HttpError(status: int, detail: string)

  /** Python's `a // b` for a positive divisor: the floor of the quotient. */
  function FloorDiv(a: int, b: int): (q: int)
    requires b > 0
    ensures b * q <= a < b * q + b
  {
    a / b
  }

  predicate HasScheme(url: string) {
    StartsWith(url, HttpScheme) || StartsWith(url, HttpsScheme)
  }

  /**
   `CompanyVerifyRequest.validate_website`: a non-empty value without an
   `http://` or `https://` prefix gains `https://`; every other value,
   absent and empty ones included, is returned as it is.
   */
  function ValidateWebsite(website: Option<string>): (r: Option<string>)
    ensures website.None? <==> r.None?
    ensures r.Some? ==> r.value == website.value || r.value == HttpsScheme + website.value
    ensures r.Some? && r.value != "" ==> HasScheme(r.value)
    ensures website.Some? && (website.value == "" || HasScheme(website.value)) ==> r == website
  {
    match website
    case None => None
    case Some(v) =>
      if |v| > 0 && !HasScheme(v) then
        var url := HttpsScheme + v;
        assert url[..|HttpsScheme|] == HttpsScheme;
        Some(url)
      else Some(v)
  }

  /** Normalising a normalised website changes nothing. */
  lemma ValidateWebsiteIdempotent(website: Option<string>)
    ensures ValidateWebsite(ValidateWebsite(website)) == ValidateWebsite(website)
  {
  }

  /** `len(batch.companies) * 10`: one verification's price per company. */
  function BatchCost(count: nat): (c: nat)
    ensures FloorDiv(c, VerificationCost) == count && c % VerificationCost == 0
    ensures count <= MaxBatchItems ==> c <= MaxBatchItems * VerificationCost
  {
    count * VerificationCost
  }

  /** `CompanyVerifyRequest.company_name` holds 1 to this many characters. */
  const MaxNameLength: nat := 200
  /** `CompanyVerifyRequest.website`, when given, holds at most this many characters. */
  const MaxWebsiteLength: nat := 500

  /** The body of `POST /verify`, and one item of a batch body, as the client sent it. */
  datatype CompanyRequest = CompanyRequest(companyName: string, website: Option<string>)

  /**
   The field limits of `CompanyVerifyRequest`. The website's limit applies
   to the value as sent, before `validate_website` prefixes it.
   */
  predicate ValidRequest(q: CompanyRequest) {
    && 1 <= |q.companyName| <= MaxNameLength
    && (q.website.None? || |q.website.value| <= MaxWebsiteLength)
  }

  const InvalidBody: HttpError := HttpError(UnprocessableEntity, "Request body failed validation")

  /**
   Request validation of one body: a 422 when a field limit fails,
   otherwise the request with its website normalised.
   */
  function ParseCompany(q: CompanyRequest): (r: Result<CompanyRequest, HttpError>)
    ensures r.Success? <==> ValidRequest(q)
    ensures r.Failure? ==> r.error == InvalidBody
    ensures r.Success? ==> r.value == CompanyRequest(q.companyName, ValidateWebsite(q.website))
  {
    if ValidRequest(q) then Success(CompanyRequest(q.companyName, ValidateWebsite(q.website)))
    else Failure(InvalidBody)
  }

  /** Every item validated in order, or nothing when one of them fails. */
  function ParseEach(qs: seq<CompanyRequest>): (r: Option<seq<CompanyRequest>>)
    ensures r.Some? <==> forall i :: 0 <= i < |qs| ==> ValidRequest(qs[i])
    ensures r.Some? ==> |r.value| == |qs|
    ensures r.Some? ==> forall i :: 0 <= i < |qs| ==> ParseCompany(qs[i]) == Success(r.value[i])
  {
    if |qs| == 0 then Some([])
    else
      match ParseCompany(qs[0])
      case Failure(_) => None
      case Success(first) =>
        match ParseEach(qs[1..])
        case None => None
        case Some(rest) => Some([first] + rest)
  }

  /**
   Request validation of a batch body: a 422 when it holds more than ten
   items or any item fails its limits, otherwise every item validated.
   */
  function ParseBatch(qs: seq<CompanyRequest>): (r: Result<seq<CompanyRequest>, HttpError>)
    ensures r.Success? <==> |qs| <= MaxBatchItems && forall i :: 0 <= i < |qs| ==> ValidRequest(qs[i])
    ensures r.Failure? ==> r.error == InvalidBody
    ensures r.Success? ==> |r.value| == |qs|
    ensures r.Success? ==> forall i :: 0 <= i < |qs| ==> ParseCompany(qs[i]) == Success(r.value[i])
  {
    if |qs| > MaxBatchItems then Failure(InvalidBody)
    else
      match ParseEach(qs)
      case None => Failure(InvalidBody)
      case Some(parsed) => Success(parsed)
  }

  /**
   A request that passed validation and the gate (the validated companies
   that go on to verification) or its error, and the store after it.
   */
  datatype Charged = Charged(response: Result<seq<CompanyRequest>, HttpError>, store: Store)

  /**
   `POST /verify`: an invalid body is a 422 before the gate runs; otherwise
   the gate with a cost of 10, whose refusal is a 402. Only a grant
   changes the store.
   */
  function VerifyCompany(store: Store, hash: Hasher, authorization: Option<string>,
                         body: CompanyRequest, now: Timestamp): (r: Charged)
    ensures !ValidRequest(body) ==> r == Charged(Failure(InvalidBody), store)
    ensures r.response.Success? <==>
      ValidRequest(body) && VerifyPaymentToken(store, hash, authorization, VerificationCost, now).ok
    ensures r.response.Success? ==>
      && r.response.value == [ParseCompany(body).value]
      && Debited(store, r.store, hash(ExtractBearerKey(authorization).value), VerificationCost, now)
    ensures r.response.Failure? ==> r.store == store
    ensures r.response.Failure? && ValidRequest(body) ==> r.response.error.status == PaymentRequired
  {
    match ParseCompany(body)
    case Failure(e) => Charged(Failure(e), store)
    case Success(company) =>
      var gate := VerifyPaymentToken(store, hash, authorization, VerificationCost, now);
      if !gate.ok then
        Charged(Failure(HttpError(PaymentRequired, "Invalid API key or insufficient credits")), store)
      else Charged(Success([company]), gate.store)
  }

  /**
   `POST /verify/batch`: a body over ten items or with an invalid item is
   a 422 before the gate; otherwise the gate charges 10 per company and a
   refusal is a 402. Only a granted batch changes the store.
   */
  function VerifyBatch(store: Store, hash: Hasher, authorization: Option<string>,
                       companies: seq<CompanyRequest>, now: Timestamp): (r: Charged)
    ensures ParseBatch(companies).Failure? ==> r == Charged(Failure(InvalidBody), store)
    ensures r.response.Success? <==>
      && ParseBatch(companies).Success?
      && VerifyPaymentToken(store, hash, authorization, BatchCost(|companies|), now).ok
    ensures r.response.Success? ==>
      && r.response.value == ParseBatch(companies).value
      && Debited(store, r.store, hash(ExtractBearerKey(authorization).value), BatchCost(|companies|), now)
    ensures r.response.Failure? ==> r.store == store
    ensures r.response.Failure? && ParseBatch(companies).Success? ==>
      r.response.error.status == PaymentRequired
  {
    match ParseBatch(companies)
    case Failure(e) => Charged(Failure(e), store)
    case Success(parsed) =>
      var cost := BatchCost(|companies|);
      var gate := VerifyPaymentToken(store, hash, authorization, cost, now);
      if !gate.ok then Charged(Failure(HttpError(PaymentRequired, "Insufficient credits")), store)
      else Charged(Success(parsed), gate.store)
  }

  /** A batch of one valid company costs and grants exactly what a single verification does. */
  lemma BatchOfOneIsSingle(store: Store, hash: Hasher, authorization: Option<string>,
                           body: CompanyRequest, now: Timestamp)
    ensures VerifyBatch(store, hash, authorization, [body], now).response.Success?
        <==> VerifyCompany(store, hash, authorization, body, now).response.Success?
    ensures VerifyBatch(store, hash, authorization, [body], now).store
         == VerifyCompany(store, hash, authorization, body, now).store
  {
    assert BatchCost(1) == VerificationCost;
  }

  datatype CreditStatus = Active | LowCredits

  datatype CreditsReport = CreditsReport(
    creditsRemaining: int,
    verificationsAvailable: int,
    status: CreditStatus)

  /**
   `GET /credits/check`: 401 for a malformed header or an unknown or
   inactive key; otherwise the balance, how many verifications it pays
   for, and whether it pays for at least one. Nothing is written.
   */
  function CheckCredits(store: Store, hash: Hasher, authorization: Option<string>): (r: Result<CreditsReport, HttpError>)
    ensures r.Failure? ==> r.error.status == Unauthorized
    ensures ExtractBearerKey(authorization).None? ==>
      r == Failure(HttpError(Unauthorized, "Invalid authorization header"))
    ensures r.Success? <==> && ExtractBearerKey(authorization).Some?
                            && Usable(store, hash(ExtractBearerKey(authorization).value))
    ensures r.Success? ==>
      var c := store[hash(ExtractBearerKey(authorization).value)].creditsRemaining;
      && r.value.creditsRemaining == c
      && VerificationCost * r.value.verificationsAvailable <= c
      && c < VerificationCost * (r.value.verificationsAvailable + 1)
      && (r.value.status == Active <==> c >= VerificationCost)
  {
    match ExtractBearerKey(authorization)
    case None => Failure(HttpError(Unauthorized, "Invalid authorization header"))
    case Some(key) =>
      match GetCredits(store, hash, key)
      case None => Failure(HttpError(Unauthorized, "Invalid API key"))
      case Some(c) =>
        Success(CreditsReport(c, FloorDiv(c, VerificationCost), if c >= VerificationCost then Active else LowCredits))
  }

  /** The credit report after a granted single verification is 10 lower than before it. */
  lemma VerifyLowersReport(store: Store, hash: Hasher, authorization: Option<string>,
                           body: CompanyRequest, now: Timestamp)
    requires VerifyCompany(store, hash, authorization, body, now).response.Success?
    ensures CheckCredits(store, hash, authorization).Success?
    ensures CheckCredits(VerifyCompany(store, hash, authorization, body, now).store, hash, authorization).Success?
    ensures CheckCredits(VerifyCompany(store, hash, authorization, body, now).store, hash, authorization).value.creditsRemaining
         == CheckCredits(store, hash, authorization).value.creditsRemaining - VerificationCost
  {
  }

  /** The checkout session Stripe created: its id and the URL of its payment page. */
  datatype CheckoutSession = CheckoutSession(id: string, url: string)

  /** What `POST /purchase` reports, and the metadata of the checkout session it opened. */
  datatype PurchaseQuote = PurchaseQuote(
    checkoutUrl: string,
    sessionId: string,
    credits: int,
    verifications: int,
    metadata: map<string, string>)

  const CheckoutErrorPrefix: string := "Checkout error: "

  /**
   `POST /purchase`: a quantity outside 10..10000 is a 400 before any
   checkout session is requested. Otherwise `create_checkout_session` asks
   Stripe for a session whose metadata carries the quantity; `checkout` is
   Stripe's answer, and a Stripe error becomes a 400 carrying its message.
   */
  function PurchaseCredits(credits: int, checkout: Result<CheckoutSession, string>): (r: Result<PurchaseQuote, HttpError>)
    ensures r.Success? <==> MinPurchase <= credits <= MaxPurchase && checkout.Success?
    ensures r.Failure? ==> r.error.status == BadRequest
    ensures !(MinPurchase <= credits <= MaxPurchase) ==>
      r == Failure(HttpError(BadRequest, "Credits must be between 10 and 10,000"))
    ensures MinPurchase <= credits <= MaxPurchase && checkout.Failure? ==>
      r == Failure(HttpError(BadRequest, CheckoutErrorPrefix + checkout.error))
    ensures r.Success? ==>
      && r.value.checkoutUrl == checkout.value.url
      && r.value.sessionId == checkout.value.id
      && r.value.credits == credits
      && VerificationCost * r.value.verifications <= credits < VerificationCost * (r.value.verifications + 1)
      && r.value.metadata == CheckoutMetadata(credits)
  {
    if credits < MinPurchase || credits > MaxPurchase then
      Failure(HttpError(BadRequest, "Credits must be between 10 and 10,000"))
    else
      match checkout
      case Failure(message) => Failure(HttpError(BadRequest, CheckoutErrorPrefix + message))
      case Success(session) =>
        Success(PurchaseQuote(session.url, session.id, credits, FloorDiv(credits, VerificationCost),
                              CheckoutMetadata(credits)))
  }

  /** Once paid, the session a purchase opened settles to exactly the purchased credits. */
  lemma PurchaseThenVerify(credits: int, checkout: Result<CheckoutSession, string>,
                           email: Option<string>)
    requires PurchaseCredits(credits, checkout).Success?
    ensures var quote := PurchaseCredits(credits, checkout).value;
      VerifySession(Some(Session(quote.sessionId, PaidStatus, email, quote.metadata)))
        == Success(PaymentInfo(quote.sessionId, email, credits))
  {
    CheckoutCreditsRoundTrip(checkout.value.id, email, credits);
  }

  const PlaceholderPrefix: string := "user_"
  const PlaceholderDomain: string := "@stripe.customer"
  /** The placeholder owner keeps at most this many characters of the session id. */
  const PlaceholderIdLength: nat := 8

  function Min(a: nat, b: nat): nat {
    if a <= b then a else b
  }

  /**
   The owner of a settled key: the payer's email when it is a non-empty
   string, otherwise a placeholder built from the first eight characters
   of the session id (all of it when shorter).
   */
  function SettlementOwner(email: Option<string>, sessionId: string): (owner: string)
    ensures email.Some? && email.value != "" ==> owner == email.value
    ensures email.None? || email.value == "" ==>
      var n := Min(PlaceholderIdLength, |sessionId|);
      && |owner| == |PlaceholderPrefix| + n + |PlaceholderDomain|
      && StartsWith(owner, PlaceholderPrefix)
      && owner[|PlaceholderPrefix|..|PlaceholderPrefix| + n] == sessionId[..n]
      && owner[|PlaceholderPrefix| + n..] == PlaceholderDomain
  {
    if email.Some? && email.value != "" then email.value
    else
      var owner := PlaceholderPrefix + sessionId[..Min(PlaceholderIdLength, |sessionId|)] + PlaceholderDomain;
      assert owner[..|PlaceholderPrefix|] == PlaceholderPrefix;
      owner
  }

  /** What `GET /payment/success` returns once: the new key and what it holds. */
  datatype Settlement = Settlement(apiKey: string, credits: int, verificationsAvailable: int, userEmail: string)

  datatype Settled = Settled(response: Result<Settlement, HttpError>, store: Store)

  /** How a failed session verification surfaces over HTTP. */
  function SessionErrorResponse(e: SessionError): (h: HttpError)
    ensures h.status == (if e == MalformedCredits then ServerError else BadRequest)
  {
    match e
    case RetrievalFailed => HttpError(BadRequest, "Session verification failed")
    case NotPaid => HttpError(BadRequest, "Payment not completed")
    case MalformedCredits => HttpError(ServerError, "Payment processing failed")
  }

  /**
   `GET /payment/success`: a session that verifies as paid mints one new
   key funded with the session's credits and owned by the payer; a session
   that does not verify changes nothing. `retrieved` is what Stripe
   returns for `sessionId` (None when the retrieval raised).
   */
  function PaymentSuccess(store: Store, hash: Hasher, sessionId: string, retrieved: Option<Session>,
                          token: string, now: Timestamp): (r: Settled)
    ensures r.response.Success? <==> VerifySession(retrieved).Success?
    ensures r.response.Failure? ==>
      r.store == store && r.response.error == SessionErrorResponse(VerifySession(retrieved).error)
    ensures r.response.Success? ==>
      var info := VerifySession(retrieved).value;
      var s := r.response.value;
      && s.credits == info.credits
      && s.userEmail == SettlementOwner(info.customerEmail, sessionId)
      && StartsWith(s.apiKey, KeyPrefix)
      && VerificationCost * s.verificationsAvailable <= s.credits < VerificationCost * (s.verificationsAvailable + 1)
      && hash(s.apiKey) in r.store
      && r.store[hash(s.apiKey)] == KeyRecord(s.userEmail, s.credits, now, None, true)
      && r.store.Keys == store.Keys + {hash(s.apiKey)}
      && OthersUnchanged(store, r.store, hash(s.apiKey))
  {
    match VerifySession(retrieved)
    case Failure(e) => Settled(Failure(SessionErrorResponse(e)), store)
    case Success(info) =>
      var owner := SettlementOwner(info.customerEmail, sessionId);
      var minted := CreateKey(store, hash, owner, info.credits, token, now);
      Settled(Success(Settlement(minted.key, info.credits, FloorDiv(info.credits, VerificationCost), owner)),
              minted.store)
  }

  /**
   Nothing records settled sessions: confirming the same paid session a
   second time mints a second funded key, so two accounts hold its credits.
   */
  lemma RepeatedSettlementMintsTwice(store: Store, hash: Hasher, sessionId: string, session: Session,
                                     token1: string, token2: string, now1: Timestamp, now2: Timestamp)
    requires VerifySession(Some(session)).Success?
    requires hash(GenerateKey(token1)) != hash(GenerateKey(token2))
    requires hash(GenerateKey(token1)) !in store && hash(GenerateKey(token2)) !in store
    ensures var first := PaymentSuccess(store, hash, sessionId, Some(session), token1, now1);
            var second := PaymentSuccess(first.store, hash, sessionId, Some(session), token2, now2);
            var credits := VerifySession(Some(session)).value.credits;
      && first.response.Success? && second.response.Success?
      && |second.store| == |store| + 2
      && second.store[hash(GenerateKey(token1))].creditsRemaining == credits
      && second.store[hash(GenerateKey(token2))].creditsRemaining == credits
  {
    var first := PaymentSuccess(store, hash, sessionId, Some(session), token1, now1);
    assert hash(GenerateKey(token2)) !in first.store;
  }

  /** What `POST /admin/create-api-key` returns. */
  datatype KeyGrant = KeyGrant(apiKey: string, userEmail: string, credits: int, verifications: int)

  datatype Issued = Issued(response: Result<KeyGrant, HttpError>, store: Store)

  /** Mints a key for the admin path once its secret check has passed. */
  function MintForAdmin(store: Store, hash: Hasher, userEmail: string, credits: int,
                        token: string, now: Timestamp): (r: Issued)
    ensures r.response.Success?
    ensures var g := r.response.value;
      && g.userEmail == userEmail && g.credits == credits
      && StartsWith(g.apiKey, KeyPrefix)
      && VerificationCost * g.verifications <= credits < VerificationCost * (g.verifications + 1)
      && hash(g.apiKey) in r.store
      && r.store[hash(g.apiKey)] == KeyRecord(userEmail, credits, now, None, true)
      && r.store.Keys == store.Keys + {hash(g.apiKey)}
      && OthersUnchanged(store, r.store, hash(g.apiKey))
  {
    var minted := CreateKey(store, hash, userEmail, credits, token, now);
    Issued(Success(KeyGrant(minted.key, userEmail, credits, FloorDiv(credits, VerificationCost))), minted.store)
  }

  /**
   `POST /admin/create-api-key` as written: the `X-Admin-Secret` header is
   compared with the configured secret by plain equality, so when neither
   is set the comparison succeeds. A mismatch is a 403 and changes nothing.
   */
  function CreateApiKey(store: Store, hash: Hasher, adminSecret: Option<string>,
                        configuredSecret: Option<string>, userEmail: string, credits: int,
                        token: string, now: Timestamp): (r: Issued)
    ensures r.response.Success? <==> adminSecret == configuredSecret
    ensures r.response.Failure? ==> r.response.error.status == Forbidden && r.store == store
    ensures r.response.Success? ==> r == MintForAdmin(store, hash, userEmail, credits, token, now)
  {
    if adminSecret != configuredSecret then Issued(Failure(HttpError(Forbidden, "Forbidden")), store)
    else MintForAdmin(store, hash, userEmail, credits, token, now)
  }

  /** With no secret configured, a request without the header mints a funded key. */
  lemma UnsetSecretAdmitsAnyone(store: Store, hash: Hasher, userEmail: string, credits: int,
                                token: string, now: Timestamp)
    ensures var r := CreateApiKey(store, hash, None, None, userEmail, credits, token, now);
      r.response.Success? && hash(r.response.value.apiKey) in r.store
      && r.store[hash(r.response.value.apiKey)].creditsRemaining == credits
  {
  }

  /**
   The admin path with the evident intent: it mints only when a secret is
   configured and the header equals it; an unconfigured service refuses.
   */
  function CreateApiKeyGuarded(store: Store, hash: Hasher, adminSecret: Option<string>,
                               configuredSecret: Option<string>, userEmail: string, credits: int,
                               token: string, now: Timestamp): (r: Issued)
    ensures r.response.Success? <==> configuredSecret.Some? && adminSecret == configuredSecret
    ensures r.response.Failure? ==> r.response.error.status == Forbidden && r.store == store
    ensures r.response.Success? ==> r == MintForAdmin(store, hash, userEmail, credits, token, now)
  {
    if configuredSecret.None? || adminSecret != configuredSecret then
      Issued(Failure(HttpError(Forbidden, "Forbidden")), store)
    else MintForAdmin(store, hash, userEmail, credits, token, now)
  }

  /** The guarded admin path agrees with main.py whenever a secret is configured. */
  lemma GuardedAgreesWhenConfigured(store: Store, hash: Hasher, adminSecret: Option<string>,
                                    secret: string, userEmail: string, credits: int,
                                    token: string, now: Timestamp)
    ensures CreateApiKeyGuarded(store, hash, adminSecret, Some(secret), userEmail, credits, token, now)
         == CreateApiKey(store, hash, adminSecret, Some(secret), userEmail, credits, token, now)
  {
  }

  /**
   Extension, not in main.py: a ledger that also records settled
   session ids, so that a repeated confirmation is refused instead of
   minting again.
   */
  datatype Ledger = Ledger(store: Store, settled: map<string, Digest>)

  datatype LedgerStep = LedgerStep(response: Result<Settlement, HttpError>, ledger: Ledger)

  const Conflict: int := 409

  /** Extension: `PaymentSuccess` guarded by the settled-sessions table. */
  function SettleOnce(ledger: Ledger, hash: Hasher, sessionId: string, retrieved: Option<Session>,
                      token: string, now: Timestamp): (r: LedgerStep)
    ensures sessionId in ledger.settled ==> r.response.Failure? && r.response.error.status == Conflict && r.ledger == ledger
    ensures r.response.Failure? ==> r.ledger == ledger
    ensures r.response.Success? ==>
      && sessionId !in ledger.settled
      && sessionId in r.ledger.settled
      && r.ledger.settled[sessionId] == hash(r.response.value.apiKey)
    ensures sessionId !in ledger.settled ==>
      var plain := PaymentSuccess(ledger.store, hash, sessionId, retrieved, token, now);
      r.response == plain.response && r.ledger.store == plain.store
  {
    if sessionId in ledger.settled then
      LedgerStep(Failure(HttpError(Conflict, "Session already settled")), ledger)
    else
      var plain := PaymentSuccess(ledger.store, hash, sessionId, retrieved, token, now);
      match plain.response
      case Failure(_) => LedgerStep(plain.response, ledger)
      case Success(s) =>
        LedgerStep(plain.response, Ledger(plain.store, ledger.settled[sessionId := hash(s.apiKey)]))
  }

  /** Extension: a second confirmation of a settled session is refused and changes nothing. */
  lemma SettleOnceIdempotent(ledger: Ledger, hash: Hasher, sessionId: string, retrieved: Option<Session>,
                             token1: string, token2: string, now1: Timestamp, now2: Timestamp)
    ensures var first := SettleOnce(ledger, hash, sessionId, retrieved, token1, now1);
            var second := SettleOnce(first.ledger, hash, sessionId, retrieved, token2, now2);
      && second.ledger == first.ledger
      && (first.response.Success? ==> second.response.Failure?)
      && |second.ledger.store| <= |ledger.store| + 1
  {
  }
}
