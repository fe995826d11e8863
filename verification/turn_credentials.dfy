/**
 * The TURN REST credential issuer: configuration is resolved once from the
 * raw options, and every request is then answered by a handler that either
 * passes the request on or issues a time-limited username and an HMAC
 * password over exactly that username.
 *
 * The wall clock, the secret callable, HMAC-SHA1 and base64 are inputs of the
 * handler: the current time in milliseconds, the string the secret callable
 * yields on this request, and two opaque function values.
 */
module TurnCredentials {
  import opened Wrappers
  import opened Decimal

  // ---------------------------------------------------------------------
  // Raw options, as a caller passes them
  // ---------------------------------------------------------------------

  /** The `sharedSecret` option: missing (or null), a string, or a callable. */
  datatype SecretOpt = SecretAbsent | SecretText(text: string) | SecretCallable

  /** A key check takes the request's `key` parameter, which may be missing. */
  type KeyCheck = Option<string> -> bool

  /** The `apiKey` option: a callable, a list of keys, a single key, or missing. */
  datatype ApiKeyOpt =
    | ApiKeyFunction(check: KeyCheck)
    | ApiKeyList(keys: seq<string>)
    | ApiKeySingle(key: string)
    | ApiKeyAbsent

  /** The `ttl` option, as far as the handler distinguishes it. */
  datatype TtlOpt = TtlAbsent | TtlNaN | TtlNumber(seconds: int)

  datatype Options = Options(
    sharedSecret: SecretOpt,
    requireServiceQuery: Option<bool>,
    separator: Option<string>,
    ttl: TtlOpt,
    uris: Option<seq<string>>,
    apiKey: ApiKeyOpt)

  // ---------------------------------------------------------------------
  // Resolved configuration
  // ---------------------------------------------------------------------

  /** Where the secret comes from at request time: a fixed string, or the caller's callable. */
  datatype SecretProvider = Constant(secret: string) | Callable

  datatype Config = Config(
    requireServiceQuery: bool,
    separator: string,
    ttl: int,
    uris: seq<string>,
    secret: SecretProvider,
    checkApiKey: Option<KeyCheck>)

  datatype ConfigError = NoSharedSecret

  const NoSharedSecretMessage: string := "No shared secret provided for TURN credentials REST API"

  const DefaultSeparator: string := ":"

  /** 86400 seconds, one day. */
  const DefaultTtl: int := 86400

  /** JavaScript falsiness of the `sharedSecret` option: missing, null or the empty string. */
  predicate IsFalsySecret(opt: SecretOpt) {
    opt.SecretAbsent? || opt == SecretText("")
  }

  /** A callable is used as is; a string becomes a provider that always yields it. */
  function GetSharedSecretProvider(opt: SecretOpt): (p: SecretProvider)
    requires !opt.SecretAbsent?
    ensures opt.SecretCallable? <==> p.Callable?
    ensures opt.SecretText? ==> p == Constant(opt.text)
  {
    match opt
    case SecretCallable => Callable
    case SecretText(text) => Constant(text)
  }

  /** The secret in force for one request; `yielded` is what the callable returns this time. */
  function CurrentSecret(p: SecretProvider, yielded: string): (secret: string)
    ensures p.Constant? ==> secret == p.secret
    ensures p.Callable? ==> secret == yielded
  {
    match p
    case Constant(s) => s
    case Callable => yielded
  }

  /**
   * Resolves the `apiKey` option into a uniform check, or `None` for "no check".
   * A missing `key` parameter matches no listed key and no single key.
   */
  function GetCheckApiKey(opt: ApiKeyOpt): (check: Option<KeyCheck>)
    ensures check.None? <==> opt.ApiKeyAbsent?
    ensures opt.ApiKeyFunction? ==> check == Some(opt.check)
    ensures opt.ApiKeyList? ==>
      forall key: Option<string> :: check.value(key) <==> key.Some? && key.value in opt.keys
    ensures opt.ApiKeySingle? ==>
      forall key: Option<string> :: check.value(key) <==> key == Some(opt.key)
  {
    match opt
    case ApiKeyFunction(f) => Some(f)
    case ApiKeyList(keys) => Some((key: Option<string>) => key.Some? && key.value in keys)
    case ApiKeySingle(k) => Some((key: Option<string>) => key == Some(k))
    case ApiKeyAbsent => None
  }

  /** The separator is ':' when the option is missing or empty, else the option itself. */
  function ResolveSeparator(opt: Option<string>): (sep: string)
    ensures sep != ""
    ensures opt.Some? && opt.value != "" ==> sep == opt.value
    ensures opt.None? || opt.value == "" ==> sep == DefaultSeparator
  {
    match opt
    case Some(s) => if s != "" then s else DefaultSeparator
    case None => DefaultSeparator
  }

  /** A number that is not NaN is kept, negative values included; otherwise one day. */
  function ResolveTtl(opt: TtlOpt): (ttl: int)
    ensures opt.TtlNumber? ==> ttl == opt.seconds
    ensures !opt.TtlNumber? ==> ttl == DefaultTtl
  {
    match opt
    case TtlNumber(n) => n
    case _ => DefaultTtl
  }

  /** The supplied list unchanged (even when empty), or the empty list when missing. */
  function ResolveUris(opt: Option<seq<string>>): (uris: seq<string>)
    ensures opt.Some? ==> uris == opt.value
    ensures opt.None? ==> uris == []
  {
    match opt
    case Some(list) => list
    case None => []
  }

  /** Construction of the handler: fails exactly when the shared secret is falsy. */
  function Resolve(opts: Options): (r: Result<Config, ConfigError>)
    ensures r.Failure? <==> IsFalsySecret(opts.sharedSecret)
    ensures r.Failure? ==> r.error == NoSharedSecret
    ensures r.Success? ==>
      && r.value.requireServiceQuery == (opts.requireServiceQuery == Some(true))
      && r.value.separator == ResolveSeparator(opts.separator)
      && r.value.ttl == ResolveTtl(opts.ttl)
      && r.value.uris == ResolveUris(opts.uris)
      && r.value.secret == GetSharedSecretProvider(opts.sharedSecret)
      && r.value.checkApiKey == GetCheckApiKey(opts.apiKey)
  {
    if IsFalsySecret(opts.sharedSecret) then
      Failure(NoSharedSecret)
    else
      Success(Config(
        opts.requireServiceQuery == Some(true),
        ResolveSeparator(opts.separator),
        ResolveTtl(opts.ttl),
        ResolveUris(opts.uris),
        GetSharedSecretProvider(opts.sharedSecret),
        GetCheckApiKey(opts.apiKey)))
  }

  // ---------------------------------------------------------------------
  // The per-request handler
  // ---------------------------------------------------------------------

  /** The query parameters the handler reads; each may be missing. */
  datatype Query = Query(service: Option<string>, username: Option<string>, key: Option<string>)

  datatype Credential = Credential(username: string, password: string, ttl: int, uris: seq<string>)

  /** `NotHandled` is the pass-through to the next handler in the chain. */
  datatype Outcome = NotHandled | Handled(credential: Credential)

  /** The service gate: only when the flag is set must `service` be exactly "turn". */
  predicate ServiceGatePasses(requireServiceQuery: bool, service: Option<string>) {
    !requireServiceQuery || service == Some("turn")
  }

  /** The key gate: no check configured passes every key, a missing one included. */
  predicate KeyGatePasses(check: Option<KeyCheck>, key: Option<string>) {
    check.None? || check.value(key)
  }

  /** JavaScript truthiness of the `username` parameter: present and non-empty. */
  predicate HasUsername(username: Option<string>) {
    username.Some? && username.value != ""
  }

  /** Whole seconds since the epoch at `nowMs`, plus the ttl. */
  function Expiration(nowMs: nat, ttl: int): (e: int)
    ensures (e - ttl) * 1000 <= nowMs < (e - ttl + 1) * 1000
  {
    nowMs / 1000 + ttl
  }

  /** The signed username: the expiration, then the separator and username when one is given. */
  function TurnUsername(expiration: int, separator: string, username: Option<string>): (s: string)
    ensures IntToDecimal(expiration) <= s
    ensures HasUsername(username) ==> s == IntToDecimal(expiration) + separator + username.value
    ensures !HasUsername(username) ==> s == IntToDecimal(expiration)
  {
    if HasUsername(username) then IntToDecimal(expiration) + separator + username.value
    else IntToDecimal(expiration)
  }

  /** The base64 text of the HMAC-SHA1 of `message` keyed by `secret`. */
  function Password(secret: string, message: string,
                    hmacSha1: (string, string) -> seq<bv8>, base64: seq<bv8> -> string): string
  {
    base64(hmacSha1(secret, message))
  }

  /**
   * One request. The service gate is decided first, then the key gate; only
   * when both pass is a credential issued, its password computed over the
   * very username it carries, with the secret in force for this request.
   */
  function Handle(cfg: Config, q: Query, nowMs: nat, yielded: string,
                  hmacSha1: (string, string) -> seq<bv8>, base64: seq<bv8> -> string): (o: Outcome)
    ensures !ServiceGatePasses(cfg.requireServiceQuery, q.service) ==> o == NotHandled
    ensures o.Handled? <==>
      ServiceGatePasses(cfg.requireServiceQuery, q.service) && KeyGatePasses(cfg.checkApiKey, q.key)
    ensures o.Handled? ==>
      && o.credential.username == TurnUsername(Expiration(nowMs, cfg.ttl), cfg.separator, q.username)
      && o.credential.password == base64(hmacSha1(CurrentSecret(cfg.secret, yielded), o.credential.username))
      && o.credential.ttl == cfg.ttl
      && o.credential.uris == cfg.uris
  {
    if cfg.requireServiceQuery && q.service != Some("turn") then
      NotHandled
    else if cfg.checkApiKey.Some? && !cfg.checkApiKey.value(q.key) then
      NotHandled
    else
      var user := TurnUsername(Expiration(nowMs, cfg.ttl), cfg.separator, q.username);
      Handled(Credential(user, Password(CurrentSecret(cfg.secret, yielded), user, hmacSha1, base64),
                         cfg.ttl, cfg.uris))
  }

  /**
   * The credential depends on nothing but the secret in force, the whole
   * second, the effective username, the separator, the ttl and the uris: not
   * on the service or key parameters that let the request through.
   */
  lemma CredentialDeterminedBy(cfg1: Config, q1: Query, nowMs1: nat, yielded1: string,
                               cfg2: Config, q2: Query, nowMs2: nat, yielded2: string,
                               hmacSha1: (string, string) -> seq<bv8>, base64: seq<bv8> -> string)
    requires Handle(cfg1, q1, nowMs1, yielded1, hmacSha1, base64).Handled?
    requires Handle(cfg2, q2, nowMs2, yielded2, hmacSha1, base64).Handled?
    requires CurrentSecret(cfg1.secret, yielded1) == CurrentSecret(cfg2.secret, yielded2)
    requires nowMs1 / 1000 == nowMs2 / 1000
    requires UserText(q1.username) == UserText(q2.username)
    requires cfg1.separator == cfg2.separator && cfg1.ttl == cfg2.ttl && cfg1.uris == cfg2.uris
    ensures Handle(cfg1, q1, nowMs1, yielded1, hmacSha1, base64)
         == Handle(cfg2, q2, nowMs2, yielded2, hmacSha1, base64)
  {
  }

  // ---------------------------------------------------------------------
  // Reading a signed username back, as the relay does
  // ---------------------------------------------------------------------

  /** The username a request contributes: its `username` parameter when truthy, else "". */
  function UserText(username: Option<string>): (u: string)
    ensures u != "" <==> HasUsername(username)
    ensures HasUsername(username) ==> u == username.value
  {
    if HasUsername(username) then username.value else ""
  }

  /** The length of the leading run of digits of `s`. */
  function DigitRun(s: string): (k: nat)
    ensures k <= |s|
    ensures AllDigits(s[..k])
    ensures k < |s| ==> !IsDigit(s[k])
  {
    if s == [] || !IsDigit(s[0]) then 0 else 1 + DigitRun(s[1..])
  }

  /** The length of the leading numeral of `s`: an optional '-' and then digits. */
  function NumeralLength(s: string): (k: nat)
    ensures k <= |s|
  {
    if |s| >= 1 && s[0] == '-' then 1 + DigitRun(s[1..]) else DigitRun(s)
  }

  /**
   * Splits a signed username into its expiration and its username part: the
   * leading numeral is the expiration; what follows is either nothing or the
   * separator and then the username.
   */
  function SplitTurnUsername(s: string, separator: string): Option<(int, string)>
  {
    var k := NumeralLength(s);
    match ParseInt(s[..k])
    case None => None
    case Some(e) =>
      var rest := s[k..];
      if rest == [] then Some((e, ""))
      else if separator <= rest then Some((e, rest[|separator|..]))
      else None
  }

  /** A separator that cannot be mistaken for more digits of the expiration. */
  predicate UnambiguousSeparator(separator: string) {
    separator != "" && !IsDigit(separator[0])
  }

  lemma {:induction false} DigitRunOfDigits(x: string, t: string)
    requires AllDigits(x)
    requires t == [] || !IsDigit(t[0])
    ensures DigitRun(x + t) == |x|
  {
    if x != [] {
      assert (x + t)[1..] == x[1..] + t;
      DigitRunOfDigits(x[1..], t);
    }
  }

  /** The leading numeral of a rendered expiration followed by a non-digit is that rendering. */
  lemma {:induction false} NumeralLengthOfDecimal(expiration: int, t: string)
    requires t == [] || !IsDigit(t[0])
    ensures NumeralLength(IntToDecimal(expiration) + t) == |IntToDecimal(expiration)|
  {
    var d := IntToDecimal(expiration);
    if expiration < 0 {
      assert (d + t)[1..] == d[1..] + t;
      DigitRunOfDigits(d[1..], t);
    } else {
      DigitRunOfDigits(d, t);
    }
  }

  /** Splitting a signed username recovers the expiration and the username it was built from. */
  lemma {:induction false} TurnUsernameSplits(expiration: int, separator: string, username: Option<string>)
    requires UnambiguousSeparator(separator)
    ensures SplitTurnUsername(TurnUsername(expiration, separator, username), separator)
         == Some((expiration, UserText(username)))
  {
    var d := IntToDecimal(expiration);
    var t := if HasUsername(username) then separator + username.value else [];
    var s := TurnUsername(expiration, separator, username);
    assert s == d + t;
    NumeralLengthOfDecimal(expiration, t);
    assert s[..|d|] == d;
    IntToDecimalRoundTrip(expiration);
    assert s[|d|..] == t;
    if HasUsername(username) {
      assert separator <= t;
      assert t[|separator|..] == username.value;
    }
  }

  /**
   * With a separator that begins with a digit the layout is ambiguous: a
   * request with username "2" and one without a username, made 111 seconds
   * apart, sign the same string and so receive the same password.
   */
  lemma DigitSeparatorCollides()
    ensures TurnUsername(1, "1", Some("2")) == TurnUsername(112, "1", None)
  {
  }

  /** What a relay holding `secret` checks of a presented credential at second `nowSec`. */
  predicate RelayAccepts(username: string, password: string, secret: string, separator: string, nowSec: int,
                         hmacSha1: (string, string) -> seq<bv8>, base64: seq<bv8> -> string)
  {
    && password == Password(secret, username, hmacSha1, base64)
    && var parts := SplitTurnUsername(username, separator);
       parts.Some? && nowSec <= parts.value.0
  }

  /**
   * An issued credential is accepted by a relay sharing the same secret at
   * any second up to its expiration, and the relay reads back the
   * expiration and the requested username.
   */
  lemma {:induction false} IssuedCredentialAccepted(cfg: Config, q: Query, nowMs: nat, yielded: string,
                                                    hmacSha1: (string, string) -> seq<bv8>,
                                                    base64: seq<bv8> -> string, atSec: int)
    requires UnambiguousSeparator(cfg.separator)
    requires Handle(cfg, q, nowMs, yielded, hmacSha1, base64).Handled?
    requires atSec <= Expiration(nowMs, cfg.ttl)
    ensures var c := Handle(cfg, q, nowMs, yielded, hmacSha1, base64).credential;
      && SplitTurnUsername(c.username, cfg.separator) == Some((Expiration(nowMs, cfg.ttl), UserText(q.username)))
      && RelayAccepts(c.username, c.password, CurrentSecret(cfg.secret, yielded), cfg.separator, atSec,
                      hmacSha1, base64)
  {
    TurnUsernameSplits(Expiration(nowMs, cfg.ttl), cfg.separator, q.username);
  }

  // ---------------------------------------------------------------------
  // Worked examples
  // ---------------------------------------------------------------------

  /**
   * Secret "s3cret", ttl 600, default separator, clock at second 1000: the
   * username "alice" yields "1600:alice", a request without one yields "1600".
   */
  lemma FixedClockExample(hmacSha1: (string, string) -> seq<bv8>, base64: seq<bv8> -> string, yielded: string)
    ensures var r := Resolve(Options(SecretText("s3cret"), None, None, TtlNumber(600), None, ApiKeyAbsent));
      && r.Success?
      && Handle(r.value, Query(None, Some("alice"), None), 1000000, yielded, hmacSha1, base64)
         == Handled(Credential("1600:alice", base64(hmacSha1("s3cret", "1600:alice")), 600, []))
      && Handle(r.value, Query(None, None, None), 1000999, yielded, hmacSha1, base64)
         == Handled(Credential("1600", base64(hmacSha1("s3cret", "1600")), 600, []))
  {
    assert NatToDecimal(1) == "1";
    assert NatToDecimal(16) == "16";
    assert NatToDecimal(160) == "160";
    assert IntToDecimal(1600) == "1600";
    var cfg := Resolve(Options(SecretText("s3cret"), None, None, TtlNumber(600), None, ApiKeyAbsent)).value;
    assert Expiration(1000000, cfg.ttl) == 1600 && Expiration(1000999, cfg.ttl) == 1600;
    assert TurnUsername(1600, cfg.separator, Some("alice")) == "1600:alice";
    assert TurnUsername(1600, cfg.separator, None) == "1600";
  }

  /** With `apiKey` ["a", "b"], keys "a" and "b" pass; "c" and a missing key are passed on. */
  lemma ApiKeyListExample()
    ensures var check := GetCheckApiKey(ApiKeyList(["a", "b"]));
      && KeyGatePasses(check, Some("a")) && KeyGatePasses(check, Some("b"))
      && !KeyGatePasses(check, Some("c")) && !KeyGatePasses(check, None)
  {
  }
}
