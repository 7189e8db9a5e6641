# Credit ledger and authorization gate of the company-verification API

The service sells prepaid credits and charges them per company verification.
This project models the part of it with logic of its own:

- **Key store** (`api_keys.py`). A map from the digest of an API key to an account record
  `{user_email, credits_remaining, created_at, last_used, is_active}`. It supports
  `create_key`, `validate_key`, `deduct_credits` and `get_credits`. Each operation is a pure
  function from the map to its result and the new map (module `KeyStore`).
- **Gate and Stripe glue** (`payment.py`). The bearer-header parse, the validate-then-debit gate
  `verify_payment_token`, the `credits` metadata written by `create_checkout_session`, and the
  decision logic of `verify_session` (module `Payment`).
- **Request rules** (`main.py`). Request-body validation, website normalisation, the single and batch verification
  charges, the credit report, the purchase range, settlement of a paid session into a new key,
  and the admin minting path (module `Service`).
- **Python built-ins** the above rely on. These are `str.startswith`, `str.strip()`,
  `str.replace(p, "")`, `str(int)` and `int(str)` (module `Text`). `Common` holds `Option` and `Result`.

Some things are inputs rather than computations:

- The digest function (SHA-256 in `api_keys.py`) is an arbitrary function value `Hasher`.
- The random part of a generated key is a caller-supplied token. The key is `"cvapi_" + token`.
- Timestamps are opaque strings.
- A retrieved Stripe session is a `Session` value. `None` means the retrieval raised.

Read-only operations (`ValidateKey`, `GetCredits`, `CheckCredits`) return no store, so by
construction they cannot change it. HTTP errors are `HttpError(status, detail)` values.

Python's `//` is floor division. Dafny's `/` agrees with it for a positive divisor, which is the
only divisor used (10). `FloorDiv` states the floor property directly, and every report uses it.

## Model

| member | source | states |
|---|---|---|
| KeyStore.GenerateKey | api_keys.py:29-30 | every generated key starts with `cvapi_` and continues with the random token |
| KeyStore.CreateKey | api_keys.py:36-50 | the key's digest maps to a record with the given owner, credits and creation time, no last use, active; the digest set grows by exactly that digest; every other entry is unchanged; a fresh digest grows the store by one |
| KeyStore.RecordIndependentOfKey | api_keys.py:41-47 | the stored record is identical whatever key was generated, so no field carries the plaintext key |
| KeyStore.ValidateKey | api_keys.py:52-59 | returns a record exactly when the digest is present and active, and then it is the stored record |
| KeyStore.DeductCredits | api_keys.py:61-74 | grants iff the account is present, active and holds at least `amount`; a refusal leaves the store identical; a grant lowers the balance by exactly `amount`, sets last use, keeps the other fields and every other record |
| KeyStore.InactiveNeverDebited | api_keys.py:66-67 | an inactive account is refused for every amount and the store is unchanged |
| KeyStore.DeductKeepsNonNegative | api_keys.py:68-71 | with a non-negative amount, all-non-negative balances stay non-negative |
| KeyStore.CreateKeepsNonNegative | api_keys.py:41-47 | creating a key with a non-negative grant keeps all balances non-negative |
| KeyStore.DebitEach | api_keys.py:61-74 | the i-th debit is granted iff the account is usable and its balance after the earlier grants still covers the i-th amount; after the sequence the balance is the initial one minus the sum of the granted amounts, or minus the sum of all amounts when all were granted; an unusable account grants nothing; other accounts never change; the balance ends either untouched or non-negative, since a grant never overdraws |
| KeyStore.TwoFullDebitsOneWins | api_keys.py:68-74 | two successive debits of the whole positive balance: the first is granted, the second refused without effect, and the balance ends at 0 |
| KeyStore.GetCredits | api_keys.py:76-78 | reports a balance exactly when `validate_key` accepts the key, and it is that record's balance |
| KeyStore.CreateThenGetCredits | api_keys.py:36-78 | a freshly created key reports exactly its initial credits |
| KeyStore.DeductThenGetCredits | api_keys.py:61-78 | after a granted debit the reported balance is the earlier one minus the amount |
| KeyStore.CreateDebitExample | api_keys.py:36-78 | create with 100 reports 100; a debit of 10 is granted; then 90 is reported |
| Text.StripLeadingIsSuffix | payment.py:65 | `lstrip()` keeps a suffix of its input and everything it drops is whitespace |
| Text.StripTrailingIsPrefix | payment.py:65 | `rstrip()` keeps a prefix of its input and everything it drops is whitespace |
| Text.Strip | payment.py:65 | the result is no longer than the input and has no whitespace at either end; an input that already has none is returned unchanged |
| Text.StripIsSlice | payment.py:65 | the result is the slice of the input left after removing a whitespace-only prefix and a whitespace-only suffix |
| Text.StripPadded | payment.py:65 | whitespace, then a trimmed `k`, then whitespace strips to exactly `k` |
| Text.RemoveAll | payment.py:65 | replacing `Bearer ` with nothing changes the string iff it contains the marker, and then shortens it by at least the marker's length |
| Text.RemoveAllDeletesOnly | payment.py:65 | removal only deletes: the result's characters are a sub-multiset of the input's |
| Text.IntToString | payment.py:33 | `str(n)` is non-empty, and consists of digits only iff n is non-negative |
| Text.ParseInt | payment.py:56 | the modelled `int(s)` succeeds iff s is digits, or a sign followed by at least one digit; the value is the decimal value, negated after `-` |
| Text.IntRoundTrip | payment.py:56 | `int(str(n)) == n` for every integer |
| Payment.CheckoutMetadata | payment.py:33 | the checkout metadata holds exactly the `credits` field, and it parses back to the quantity |
| Payment.VerifySession | payment.py:44-60 | succeeds iff the session was retrieved, is paid, and its `credits` metadata is absent or parses; a failed retrieval or an unpaid session is refused; a paid one reports its id and email, credits 0 when the metadata lacks `credits`, and otherwise the integer the metadata parses to; a malformed value fails exactly when present and unparsable |
| Payment.CheckoutCreditsRoundTrip | payment.py:33-56 | a paid session carrying the checkout metadata for quantity q verifies to credits q |
| Payment.ExtractBearerKey | payment.py:63-65 | a key is extracted iff the header is present and starts with `Bearer `; it is trimmed and shorter than the header by at least the marker |
| Payment.ExtractPlainKey | payment.py:65 | `Bearer k` yields exactly `k` when `k` is trimmed and contains no `Bearer ` |
| Payment.ExtractRepeatedMarker | payment.py:65 | `Bearer Bearer k` also yields `k`, because every marker is removed |
| Payment.ExtractPaddedKey | payment.py:63-65 | `Bearer ` + whitespace + a trimmed `k` + whitespace yields exactly `k` when no further marker occurs |
| Payment.VerifyPaymentToken | payment.py:62-69 | a malformed header is refused with the store untouched; otherwise it grants iff the key's account is usable and holds at least `cost`; refusals change nothing and a grant debits exactly `cost` |
| Payment.GateIsDeduct | payment.py:66-69 | once the header yields a key, the gate's result and store are exactly those of `deduct_credits` on that key |
| Service.FloorDiv | main.py:226 | `credits // 10` is the floor quotient: 10q <= credits < 10q + 10 |
| Service.ValidateWebsite | main.py:50-54 | absence is kept; the output is the input or `https://` + input; every non-empty output has an `http://` or `https://` prefix; empty and already-prefixed values are unchanged |
| Service.ValidateWebsiteIdempotent | main.py:52-54 | normalising twice equals normalising once |
| Service.BatchCost | main.py:195 | the batch cost is a multiple of 10 whose floor quotient by 10 is the company count; at most 10 items cost at most 100 |
| Service.ParseCompany | main.py:46-54 | a body is accepted iff its name has 1 to 200 characters and its website, when given, at most 500; otherwise 422; an accepted body has its website normalised |
| Service.ParseEach | main.py:56-57 | every item is accepted iff each one meets the field limits, and then each result is that item's validated form, in order |
| Service.ParseBatch | main.py:56-57 | a batch body is accepted iff it has at most 10 items and each meets the field limits; otherwise 422 |
| Service.VerifyCompany | main.py:162-180 | an invalid body is a 422 before the gate, with the store unchanged; otherwise granted iff the gate with cost 10 grants, and then exactly 10 is debited and the validated body goes on to verification; a refusal is a 402 and the store is unchanged |
| Service.VerifyBatch | main.py:188-213 | more than 10 items or an invalid item is rejected (422) before the gate; otherwise granted iff the gate grants 10 per company, which is then debited; any refusal leaves the store unchanged |
| Service.BatchOfOneIsSingle | main.py:164-206 | a batch of one company is granted iff a single verification is, and leaves the same store |
| Service.CheckCredits | main.py:217-228 | a malformed header or an unknown or inactive key is a 401; otherwise it reports the stored balance, its floor quotient by 10, and `active` iff the balance is at least 10 |
| Service.VerifyLowersReport | main.py:169-228 | after a granted single verification the credit report is exactly 10 lower |
| Service.PurchaseCredits | main.py:250-265 | accepted iff 10 <= credits <= 10000 and Stripe creates the session; an out-of-range quantity is a 400 whatever Stripe would do; a Stripe error is a 400 carrying `Checkout error: ` and its message; an accepted quote reports the session's URL and id, the credits, their floor quotient by 10, and checkout metadata carrying the credits |
| Service.PurchaseThenVerify | main.py:254-258 | the session a purchase opens, once paid, verifies to exactly the purchased credits |
| Service.SettlementOwner | main.py:271 | a non-empty payer email is the owner; otherwise the owner is `user_` + the first eight characters of the session id (all of it when shorter) + `@stripe.customer` |
| Service.SessionErrorResponse | main.py:290-293 | session-verification refusals surface as 400; a malformed credits value surfaces as 500 |
| Service.PaymentSuccess | main.py:268-293 | succeeds iff the session verifies as paid, adding exactly one new active record with the session's credits and owner, and every other record unchanged; any failure leaves the store unchanged |
| Service.RepeatedSettlementMintsTwice | main.py:270-273 | confirming the same paid session twice mints two funded keys; the store grows by two |
| Service.MintForAdmin | main.py:238-246 | the admin grant returns a `cvapi_` key stored with the given owner and credits, active, nothing else changed, and reports the floor quotient of the credits by 10 |
| Service.CreateApiKey | main.py:231-246 | mints iff the header equals the configured secret, with two absent values counting as equal; otherwise 403 and the store is unchanged |
| Service.UnsetSecretAdmitsAnyone | main.py:236-237 | with no configured secret, a request without the header mints a funded key |
| Service.CreateApiKeyGuarded | main.py:236-238 | the corrected admin gate mints iff a secret is configured and the header equals it |
| Service.GuardedAgreesWhenConfigured | main.py:236-238 | when a secret is configured, the corrected gate behaves exactly as `main.py` does |

## Findings

| source | as written | input that shows it | evidently intended | confidence | as-written member | corrected member |
|---|---|---|---|---|---|---|
| main.py:236 | `admin_secret != os.getenv("API_SECRET_KEY")` is false when both sides are `None` | `API_SECRET_KEY` unset and a request with no `X-Admin-Secret` header: a funded key is minted | refuse every admin request when no secret is configured | medium, not executed | Service.UnsetSecretAdmitsAnyone | Service.CreateApiKeyGuarded |

## Extension: settle-once ledger

`main.py` records no settled sessions, so a repeated confirmation mints again
(`Service.RepeatedSettlementMintsTwice`). As an extension that is not in `main.py`,
`Service.SettleOnce` keeps a table from settled session ids to the issued digest. It
refuses a repeat with 409. `Service.SettleOnceIdempotent` proves that a second
confirmation changes nothing, so the store gains at most one record per session.

## Left out

- JSON persistence (`_ensure_db_exists`, `_read_db`, `_write_db`): the store is an in-memory map.
- SHA-256 and `secrets.token_urlsafe`: a supplied digest function and a supplied token.
  Digest collisions overwrite, exactly as the dictionary assignment does.
- Clock reads (`datetime.utcnow().isoformat()`): timestamps are parameters.
- Concurrency: `deduct_credits` reads, checks and writes the whole file without a lock, so
  concurrent requests can lose updates. Every call is atomic here, so this race cannot be stated.
- `verify_company_internal`: HTTP fetch, HTML parsing and floating-point scores. A granted
  request returns only the validated companies that go on to verification.
- Stripe calls and money: `PRICE_PER_VERIFICATION`, `unit_amount` and `amount_total / 100` are
  floats. The session Stripe creates, or its error message, is a parameter of `Service.PurchaseCredits`.
- Payment.VerifySession: the `int()` call is modelled for an optional sign followed by ASCII
  digits only. Python also accepts surrounding whitespace, underscores and non-ASCII digits.
- Service.SessionErrorResponse: the details drop the Stripe or Python exception text that
  `payment.py` and `main.py` append.
- Service.PurchaseCredits: the `email` parameter of `purchase_credits` is unused, so it is not a parameter here.
- Text.ParseInt: Python's `int()` also accepts surrounding whitespace (`" 7"`), underscores
  between digits (`"1_000"`) and non-ASCII decimal digits; the model refuses these strings.
- Service.VerifyCompany: the 402 detail is a dict (error, message, pricing, purchase link); the
  model keeps only its message, "Invalid API key or insufficient credits".
- Service.VerifyBatch: the 402 detail is a dict whose message names the credits needed
  (`Insufficient credits. Need N credits`); the model keeps "Insufficient credits" without the count.
- Service.ParseCompany: a 422 carries one fixed detail rather than pydantic's list of the failed
  fields. Lengths count Unicode scalar values, as pydantic counts `str` characters.
- Text.Strip: only the characters below U+0100 that `str.isspace()` accepts count as whitespace,
  because the framework decodes header values as Latin-1 and no other character can occur in one.
- Text.RemoveAll: which characters survive the removal of a marker in the middle of a string is
  not characterised, beyond `Text.RemoveAllDeletesOnly`. The cases the bearer
  parse meets are stated by `Text.RemoveLeading`, `Payment.ExtractPlainKey`,
  `Payment.ExtractRepeatedMarker` and `Payment.ExtractPaddedKey`.
- KeyStore.DebitEach: every debit in the sequence is stamped with one timestamp. Only the
  balance arithmetic is stated across the sequence, not the intermediate use times.
- Settlement credits: `main.py` mints with whatever the metadata says, including 0 or negative
  amounts. The model does the same and adds no positivity check.
- Rate limiting, CORS, Sentry, routing, and the static endpoints (`/`, `/health`,
  `/.well-known/x402`, `/pricing`, `/payment/cancel`).
