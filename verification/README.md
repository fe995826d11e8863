# TURN REST credential issuer, modelled in Dafny

This project models `turnCredentials` from `src/turn_credentials.ts`. The function builds
Express middleware that hands out TURN REST API credentials. It first resolves its
options once: it rejects a falsy shared secret and applies defaults for the separator,
the ttl and the relay URIs. It also turns the polymorphic `apiKey` option into either a
uniform key check or "no check". The handler it returns then decides each request in this
order:

1. the service gate (when `requireServiceQuery` is set, `service` must be exactly `"turn"`);
2. the API-key gate;
3. if both pass, a credential.

The credential's username is `"<expiration>"` or `"<expiration><separator><username>"`.
Its password is the base64 HMAC-SHA1 of exactly that username, keyed by the secret in
force for that request.

Files:

- `wrappers.dfy`: `Option` and `Result`.
- `decimal.dfy`: how a template literal renders an integral number, plus the reading
  back of such a numeral. It proves that reading inverts rendering.
- `turn_credentials.dfy`: the options, their resolution, the handler, and the splitting
  of a signed username as a relay reads it. It also holds the lemmas that tie these
  together.

Inputs of the handler that the source takes from its environment:

- `nowMs`: the clock, in milliseconds.
- `yielded`: the string a callable shared secret returns on this request.
- `hmacSha1` and `base64`: opaque function values that stand for `node:crypto`.

The handler's pass-through to `next()` is the `NotHandled` outcome.

Two behaviours of the code that a looser reading of its intent would change, and that the model keeps as written:

- The ttl falls back to 86400 only when it is not a number or is NaN. A non-NaN number
  is kept, whether negative or infinite.
- The signed username does not always contain exactly one separator. A username may
  itself contain the separator. A separator that begins with a digit runs into the
  digits of the expiration (`DigitSeparatorCollides`).

## Model

| member | source | states |
|---|---|---|
| `TurnCredentials.Resolve` | src/turn_credentials.ts:36-45 | construction fails with the no-shared-secret error exactly when the secret is falsy (missing or ""); otherwise the config holds the resolved flag, separator, ttl, uris, secret provider and key check |
| `TurnCredentials.GetSharedSecretProvider` | src/turn_credentials.ts:16-22 | a callable secret is kept as a callable; a string becomes a constant provider of that very string |
| `TurnCredentials.CurrentSecret` | src/turn_credentials.ts:62 | the secret used for a request is the constant, or whatever the callable yields on that request |
| `TurnCredentials.GetCheckApiKey` | src/turn_credentials.ts:24-34 | a function is used as is; a list authorizes a key iff it is present and in the list; a single key authorizes iff the key equals it (a missing key never does); absent resolves to "no check" and only then |
| `TurnCredentials.ResolveSeparator` | src/turn_credentials.ts:41 | the separator is never empty: ":" when the option is missing or empty, otherwise the option unchanged |
| `TurnCredentials.ResolveTtl` | src/turn_credentials.ts:42 | a non-NaN number is kept as is (negative included), anything else gives 86400 |
| `TurnCredentials.ResolveUris` | src/turn_credentials.ts:43 | the supplied list unchanged (even empty), or the empty list when missing |
| `TurnCredentials.Handle` | src/turn_credentials.ts:47-72 | a failing service gate gives NotHandled whatever the key; a credential is issued iff both gates pass; its username is the signed layout for the expiration, its password the base64 HMAC of exactly that username under the request's secret, its ttl the configured ttl (not the expiration) and its uris the configured list |
| `TurnCredentials.Expiration` | src/turn_credentials.ts:60 | expiration minus ttl is the whole number of seconds in `nowMs` (floor of nowMs/1000) |
| `TurnCredentials.TurnUsername` | src/turn_credentials.ts:61 | with a truthy username it is decimal(expiration), separator, username; otherwise exactly decimal(expiration); it always begins with decimal(expiration) |
| `TurnCredentials.UserText` | src/turn_credentials.ts:49-61 | the username part a request contributes is non-empty exactly when the query's username is truthy |
| `TurnCredentials.TurnUsernameSplits` | src/turn_credentials.ts:61 | with a non-empty separator not starting with a digit, splitting the signed username gives back the expiration and the requested username |
| `TurnCredentials.DigitSeparatorCollides` | src/turn_credentials.ts:41-61 | with separator "1", username "2" at expiration 1 and no username at expiration 112 sign the same string |
| `TurnCredentials.IssuedCredentialAccepted` | src/turn_credentials.ts:60-64 | an issued credential passes a relay's check (same HMAC under the same secret, expiration read back not yet passed) at every second up to its expiration |
| `TurnCredentials.CredentialDeterminedBy` | src/turn_credentials.ts:60-71 | two handled requests with equal secret, whole second, username, separator, ttl and uris get identical credentials, whatever their service and key |
| `TurnCredentials.FixedClockExample` | src/turn_credentials.ts:36-72 | secret "s3cret", ttl 600, clock at second 1000: "alice" gets "1600:alice" signed with "s3cret", no username gets "1600", ttl 600, no uris |
| `TurnCredentials.ApiKeyListExample` | src/turn_credentials.ts:27-28 | with keys ["a", "b"], "a" and "b" pass the key gate, "c" and a missing key do not |
| `Decimal.NatToDecimal` | src/turn_credentials.ts:61 | a natural renders as a non-empty string of digits that starts with '0' only for zero |
| `Decimal.IntToDecimal` | src/turn_credentials.ts:61 | an integer renders with a leading '-' exactly when negative, followed by digits |
| `Decimal.IntToDecimalRoundTrip` | src/turn_credentials.ts:61 | reading the rendered numeral of an integer gives that integer back |
| `Decimal.IntToDecimalInjective` | src/turn_credentials.ts:61 | distinct expirations render as distinct numerals |

## Left out

- HMAC-SHA1 and base64 from `node:crypto` are not modelled. They are opaque function parameters; only the fact that they are applied to exactly the signed username under the request's secret is modelled.
- `Date.now()` is not read. The current time in milliseconds is a natural-number parameter, so `Math.floor(.../1000)` is integer division.
- A callable shared secret is not invoked. The string it yields on a given request is a parameter of the handler. Its own behaviour, including throwing, is not modelled.
- A callable `apiKey` is an opaque function value. What it does is not modelled.
- The HTTP plumbing is not modelled: reading `req.query`, `res.writeHead` with its misspelled content-type header, `res.end`, `next()` and the JSON serialization (key order included). The outcome is a datatype instead.
- Query parameters are missing or strings. The repeated and nested forms Express can also produce (arrays, objects) are not modelled.
- `ResolveTtl` covers only three cases: missing or non-number, NaN, and an integral number. Fractional values, `Infinity` and IEEE double rounding are not modelled.
- `IntToDecimal`: JavaScript renders a number with an absolute value of 1e21 or more in exponent notation. The model always renders plain decimal digits.
- `Resolve` does not model the aliasing of the options object. The source reads `options.requireServiceQuery` on every request, so a caller who mutates the object afterwards changes later decisions. The model reads the flag once, at construction.
