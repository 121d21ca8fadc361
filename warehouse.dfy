/**
 * `WarehouseService`: issuing and decoding short-lived file-access tokens.
 *
 * A token is base64(UTF-8(`{"w":<warehouse name>,"st":<ciphertext>}`)),
 * where the ciphertext is the warehouse's public-key encryption of
 * `{"expiresAt":<ms>,"fileId":<id>,"salt":<24 characters>}`. Decoding runs
 * the same layers backwards and refuses a token whose expiry has passed.
 *
 * The clock, the salt generator and the RSA library are not part of this
 * model: the current time is the parameter `now` (milliseconds), the salt is
 * a parameter, and encryption and decryption are function parameters whose
 * relationship, where a proof needs one, is a stated hypothesis (`KeyPair`).
 */
module WarehouseService {
  import opened Common
  import Base64
  import Utf8
  import Json

  /** What the warehouse's `/setup/info` endpoint returned at start-up. */
  datatype SetupInfo = SetupInfo(publicKey: string, warehouseName: string)

  datatype RegisterOptions = RegisterOptions(apiKey: string, host: string, configRetryDelay: Option<int>)

  /** The read-only settings the service is constructed with. */
  datatype WarehouseSettings = WarehouseSettings(options: RegisterOptions, setupInfo: SetupInfo)

  datatype SignOptions = SignOptions(fileId: string, expiresAt: Option<int>)

  /** The inner, encrypted payload. */
  datatype SignedToken = SignedToken(expiresAt: int, fileId: string, salt: string)

  /** The outer, plaintext envelope. */
  datatype AccessToken = AccessToken(w: string, st: string)

  datatype FileAccess = FileAccess(url: string, token: string, warehouseHost: string)

  datatype DecodedToken = DecodedToken(warehouseName: string, fileId: string, expiresAt: int, salt: string)

  /** The layer of a token that could not be read. */
  datatype Layer = Base64Text | EnvelopeJson | Ciphertext | PayloadJson

  /**
   * `InvalidExpiry` is the plain `Error` thrown at issue time, `Forbidden`
   * the `ForbiddenException` of an expired token, and `Malformed` whatever
   * `atob`, `JSON.parse` or the RSA decryption throws.
   */
  datatype Failure = InvalidExpiry | Forbidden | Malformed(layer: Layer)

  datatype Result<T> = Ok(value: T) | Err(failure: Failure)

  /** Public-key encryption of a UTF-8 text to a base64 ciphertext. */
  type Encryptor = (string, string) -> string

  /** Private-key decryption of a base64 ciphertext; `None` where the library throws. */
  type Decryptor = (string, string) -> Option<string>

  const SaltLength: nat := 24
  const DefaultLifetimeMs: int := 30 * 60 * 1000
  const FilePath: string := "/warehouse/file?token="

  /** Decryption with `privateKey` undoes encryption with `publicKey`. */
  ghost predicate KeyPair(encrypt: Encryptor, decrypt: Decryptor, publicKey: string, privateKey: string) {
    forall text :: decrypt(privateKey, encrypt(publicKey, text)) == Some(text)
  }

  // ------------------------------------------------------------ wire format

  /** The payload object `{expiresAt, fileId, salt}`, in that order. */
  function PayloadMembers(t: SignedToken): seq<Json.Member> {
    [Json.Member("expiresAt", Json.JInt(t.expiresAt)),
     Json.Member("fileId", Json.JString(t.fileId)),
     Json.Member("salt", Json.JString(t.salt))]
  }

  function PayloadText(t: SignedToken): (r: string)
    ensures |r| >= 2 && r[0] == '{' && r[|r| - 1] == '}'
  {
    Json.Stringify(PayloadMembers(t))
  }

  /** The envelope object `{w, st}`, in that order. */
  function EnvelopeMembers(a: AccessToken): seq<Json.Member> {
    [Json.Member("w", Json.JString(a.w)), Json.Member("st", Json.JString(a.st))]
  }

  function EnvelopeText(a: AccessToken): (r: string)
    ensures |r| >= 2 && r[0] == '{' && r[|r| - 1] == '}'
  {
    Json.Stringify(EnvelopeMembers(a))
  }

  /** The string value of a member of a parsed object. */
  function StringField(ms: seq<Json.Member>, key: string): (r: Option<string>)
    ensures r.Some? <==> Json.Lookup(ms, key).Some? && Json.Lookup(ms, key).value.JString?
    ensures r.Some? ==> Json.Lookup(ms, key) == Some(Json.JString(r.value))
  {
    match Json.Lookup(ms, key)
    case Some(JString(s)) => Some(s)
    case _ => None
  }

  /** The integer value of a member of a parsed object. */
  function IntField(ms: seq<Json.Member>, key: string): (r: Option<int>)
    ensures r.Some? <==> Json.Lookup(ms, key).Some? && Json.Lookup(ms, key).value.JInt?
    ensures r.Some? ==> Json.Lookup(ms, key) == Some(Json.JInt(r.value))
  {
    match Json.Lookup(ms, key)
    case Some(JInt(n)) => Some(n)
    case _ => None
  }

  /** The payload fields are the last members with their keys, of the right JSON types. */
  function ParsePayload(text: string): (r: Option<SignedToken>)
    ensures r.Some? ==> Json.Parse(text).Some?
    ensures r.Some? ==>
      && Json.Lookup(Json.Parse(text).value, "expiresAt") == Some(Json.JInt(r.value.expiresAt))
      && Json.Lookup(Json.Parse(text).value, "fileId") == Some(Json.JString(r.value.fileId))
      && Json.Lookup(Json.Parse(text).value, "salt") == Some(Json.JString(r.value.salt))
  {
    match Json.Parse(text)
    case None => None
    case Some(ms) =>
      var expiresAt, fileId, salt := IntField(ms, "expiresAt"), StringField(ms, "fileId"), StringField(ms, "salt");
      if expiresAt.Some? && fileId.Some? && salt.Some? then
        Some(SignedToken(expiresAt.value, fileId.value, salt.value))
      else None
  }

  /** The envelope fields are the last members with their keys, and both are strings. */
  function ParseEnvelope(text: string): (r: Option<AccessToken>)
    ensures r.Some? ==> Json.Parse(text).Some?
    ensures r.Some? ==>
      && Json.Lookup(Json.Parse(text).value, "w") == Some(Json.JString(r.value.w))
      && Json.Lookup(Json.Parse(text).value, "st") == Some(Json.JString(r.value.st))
  {
    match Json.Parse(text)
    case None => None
    case Some(ms) =>
      var w, st := StringField(ms, "w"), StringField(ms, "st");
      if w.Some? && st.Some? then Some(AccessToken(w.value, st.value)) else None
  }

  /** The token string: base64 of the UTF-8 bytes of the envelope JSON. */
  function EncodeEnvelope(a: AccessToken): (token: string)
    ensures forall i :: 0 <= i < |token| ==> Base64.IsDigit(token[i]) || token[i] == '='
  {
    Base64.EncodeCharset(Utf8.Encode(EnvelopeText(a)));
    Base64.Encode(Utf8.Encode(EnvelopeText(a)))
  }

  /** `atob`, `TextDecoder` and `JSON.parse` of the envelope; either layer can fail. */
  function DecodeEnvelope(token: string): (r: Result<AccessToken>)
    ensures r.Err? ==> r.failure == Malformed(Base64Text) || r.failure == Malformed(EnvelopeJson)
    ensures r == Err(Malformed(Base64Text)) <==> Base64.Atob(token).None?
  {
    match Base64.Atob(token)
    case None => Err(Malformed(Base64Text))
    case Some(bytes) =>
      match ParseEnvelope(Utf8.Decode(bytes))
      case None => Err(Malformed(EnvelopeJson))
      case Some(a) => Ok(a)
  }

  // ------------------------------------------------------------ issuing

  /**
   * The expiry of a new token: a given `expiresAt` must lie strictly after
   * `now`; without one the token lives 30 minutes.
   */
  function ResolveExpiry(expiresAt: Option<int>, now: int): (r: Result<int>)
    ensures r.Ok? <==> expiresAt.None? || expiresAt.value > now
    ensures r.Err? ==> r.failure == InvalidExpiry
    ensures r.Ok? ==> r.value > now
    ensures r.Ok? && expiresAt.Some? ==> r.value == expiresAt.value
    ensures expiresAt.None? ==> r.value - now == DefaultLifetimeMs
  {
    match expiresAt
    case Some(t) => if t > now then Ok(t) else Err(InvalidExpiry)
    case None => Ok(now + DefaultLifetimeMs)
  }

  /** `generateSignedToken`. */
  function GenerateSignedToken(settings: WarehouseSettings, options: SignOptions, now: int,
                               salt: string, encrypt: Encryptor): (r: Result<string>)
    requires |salt| == SaltLength
    ensures r.Err? <==> options.expiresAt.Some? && options.expiresAt.value <= now
    ensures r.Err? ==> r.failure == InvalidExpiry
    ensures r.Ok? ==> forall i :: 0 <= i < |r.value| ==> Base64.IsDigit(r.value[i]) || r.value[i] == '='
  {
    match ResolveExpiry(options.expiresAt, now)
    case Err(f) => Err(f)
    case Ok(expiresAt) =>
      var payload := SignedToken(expiresAt, options.fileId, salt);
      var st := encrypt(settings.setupInfo.publicKey, PayloadText(payload));
      Ok(EncodeEnvelope(AccessToken(settings.setupInfo.warehouseName, st)))
  }

  /** The download URL: the host, the fixed path and the token, concatenated without escaping. */
  function FileUrl(host: string, token: string): (url: string)
    ensures |url| == |host| + |FilePath| + |token|
    ensures url[..|host|] == host
    ensures url[|host|..|host| + |FilePath|] == FilePath
    ensures url[|host| + |FilePath|..] == token
  {
    var url := host + FilePath + token;
    assert url[..|host|] == host;
    assert url[|host|..|host| + |FilePath|] == FilePath;
    assert url[|host| + |FilePath|..] == token;
    url
  }

  /** `generateFileAccess`: the token, and the URL that carries it unescaped. */
  function GenerateFileAccess(settings: WarehouseSettings, options: SignOptions, now: int,
                              salt: string, encrypt: Encryptor): (r: Result<FileAccess>)
    requires |salt| == SaltLength
    ensures r.Err? <==> GenerateSignedToken(settings, options, now, salt, encrypt).Err?
    ensures r.Err? ==> r.failure == InvalidExpiry
    ensures r.Ok? ==>
      var host := settings.options.host;
      && r.value.token == GenerateSignedToken(settings, options, now, salt, encrypt).value
      && r.value.warehouseHost == host
      && |r.value.url| == |host| + |FilePath| + |r.value.token|
      && r.value.url[..|host|] == host
      && r.value.url[|host|..|host| + |FilePath|] == FilePath
      && r.value.url[|host| + |FilePath|..] == r.value.token
  {
    match GenerateSignedToken(settings, options, now, salt, encrypt)
    case Err(f) => Err(f)
    case Ok(token) => Ok(FileAccess(FileUrl(settings.options.host, token), token, settings.options.host))
  }

  // ------------------------------------------------------------ decoding

  /**
   * Every step of `decodeAccessToken` before the expiry check: base64, UTF-8,
   * envelope JSON, decryption of `st`, payload JSON. It does not depend on
   * the clock.
   */
  function ReadToken(token: string, privateKey: string, decrypt: Decryptor): (r: Result<DecodedToken>)
    ensures r.Err? ==> r.failure.Malformed?
    ensures r.Ok? <==>
      && DecodeEnvelope(token).Ok?
      && decrypt(privateKey, DecodeEnvelope(token).value.st).Some?
      && ParsePayload(decrypt(privateKey, DecodeEnvelope(token).value.st).value).Some?
    ensures r.Ok? ==>
      var envelope := DecodeEnvelope(token).value;
      var payload := ParsePayload(decrypt(privateKey, envelope.st).value).value;
      && r.value.warehouseName == envelope.w
      && r.value.fileId == payload.fileId
      && r.value.expiresAt == payload.expiresAt
      && r.value.salt == payload.salt
  {
    match DecodeEnvelope(token)
    case Err(f) => Err(f)
    case Ok(envelope) =>
      match decrypt(privateKey, envelope.st)
      case None => Err(Malformed(Ciphertext))
      case Some(text) =>
        match ParsePayload(text)
        case None => Err(Malformed(PayloadJson))
        case Some(payload) => Ok(DecodedToken(envelope.w, payload.fileId, payload.expiresAt, payload.salt))
  }

  /** `decodeAccessToken`: a token whose expiry is strictly before `now` is forbidden. */
  function DecodeAccessToken(token: string, privateKey: string, now: int, decrypt: Decryptor): (r: Result<DecodedToken>)
    ensures r.Ok? ==> r.value.expiresAt >= now
    ensures r == Err(Forbidden) <==>
      ReadToken(token, privateKey, decrypt).Ok? && ReadToken(token, privateKey, decrypt).value.expiresAt < now
    ensures r.Ok? <==>
      ReadToken(token, privateKey, decrypt).Ok? && ReadToken(token, privateKey, decrypt).value.expiresAt >= now
    ensures r.Ok? ==> r == ReadToken(token, privateKey, decrypt)
  {
    match ReadToken(token, privateKey, decrypt)
    case Err(f) => Err(f)
    case Ok(d) => if d.expiresAt < now then Err(Forbidden) else Ok(d)
  }
}
