/** What issuing and decoding promise about each other. */
module TokenProperties {
  import opened Common
  import Base64
  import Utf8
  import Json
  import JsonProofs
  import opened WarehouseService

  /** Reading a parsed payload object whose three fields are the last of their keys. */
  lemma ParsePayloadFields(text: string, ms: seq<Json.Member>, t: SignedToken)
    requires Json.Parse(text) == Some(ms)
    requires Json.Lookup(ms, "expiresAt") == Some(Json.JInt(t.expiresAt))
    requires Json.Lookup(ms, "fileId") == Some(Json.JString(t.fileId))
    requires Json.Lookup(ms, "salt") == Some(Json.JString(t.salt))
    ensures ParsePayload(text) == Some(t)
  {
  }

  lemma PayloadLookups(t: SignedToken)
    ensures Json.Lookup(PayloadMembers(t), "expiresAt") == Some(Json.JInt(t.expiresAt))
    ensures Json.Lookup(PayloadMembers(t), "fileId") == Some(Json.JString(t.fileId))
    ensures Json.Lookup(PayloadMembers(t), "salt") == Some(Json.JString(t.salt))
  {
    JsonProofs.LookupLast(PayloadMembers(t), 0);
    JsonProofs.LookupLast(PayloadMembers(t), 1);
    JsonProofs.LookupLast(PayloadMembers(t), 2);
  }

  /** The payload JSON is read back field for field. */
  lemma PayloadRoundTrip(t: SignedToken)
    ensures ParsePayload(PayloadText(t)) == Some(t)
  {
    JsonProofs.ParseStringify(PayloadMembers(t));
    PayloadLookups(t);
    ParsePayloadFields(PayloadText(t), PayloadMembers(t), t);
  }

  /** Reading a parsed envelope object whose two fields are the last of their keys. */
  lemma ParseEnvelopeFields(text: string, ms: seq<Json.Member>, a: AccessToken)
    requires Json.Parse(text) == Some(ms)
    requires Json.Lookup(ms, "w") == Some(Json.JString(a.w))
    requires Json.Lookup(ms, "st") == Some(Json.JString(a.st))
    ensures ParseEnvelope(text) == Some(a)
  {
  }

  /** The bytes of the envelope decode back to its JSON text. */
  lemma EnvelopeBytesRoundTrip(a: AccessToken)
    ensures Base64.Atob(EncodeEnvelope(a)) == Some(Utf8.Encode(EnvelopeText(a)))
    ensures Utf8.Decode(Utf8.Encode(EnvelopeText(a))) == EnvelopeText(a)
  {
    var text := EnvelopeText(a);
    Base64.AtobEncode(Utf8.Encode(text));
    assert text[0] == '{';
    Utf8.DecodeEncode(text);
  }

  lemma EnvelopeLookups(a: AccessToken)
    ensures Json.Lookup(EnvelopeMembers(a), "w") == Some(Json.JString(a.w))
    ensures Json.Lookup(EnvelopeMembers(a), "st") == Some(Json.JString(a.st))
  {
    JsonProofs.LookupLast(EnvelopeMembers(a), 0);
    JsonProofs.LookupLast(EnvelopeMembers(a), 1);
  }

  /** Envelope round trip: `atob`, `TextDecoder` and `JSON.parse` recover `w` and `st`. */
  lemma EnvelopeRoundTrip(a: AccessToken)
    ensures DecodeEnvelope(EncodeEnvelope(a)) == Ok(a)
  {
    EnvelopeBytesRoundTrip(a);
    JsonProofs.ParseStringify(EnvelopeMembers(a));
    EnvelopeLookups(a);
    ParseEnvelopeFields(EnvelopeText(a), EnvelopeMembers(a), a);
  }

  /**
   * An issued token is exactly the envelope of the warehouse name and the
   * encryption of the payload with the resolved expiry, the file id and the
   * salt.
   */
  lemma IssuedTokenLayout(settings: WarehouseSettings, options: SignOptions, now: int,
                          salt: string, encrypt: Encryptor)
    requires |salt| == SaltLength
    requires GenerateSignedToken(settings, options, now, salt, encrypt).Ok?
    ensures var token := GenerateSignedToken(settings, options, now, salt, encrypt).value;
      var payload := SignedToken(ResolveExpiry(options.expiresAt, now).value, options.fileId, salt);
      && DecodeEnvelope(token)
         == Ok(AccessToken(settings.setupInfo.warehouseName, encrypt(settings.setupInfo.publicKey, PayloadText(payload))))
      && ParsePayload(PayloadText(payload)) == Some(payload)
  {
    var payload := SignedToken(ResolveExpiry(options.expiresAt, now).value, options.fileId, salt);
    EnvelopeRoundTrip(AccessToken(settings.setupInfo.warehouseName, encrypt(settings.setupInfo.publicKey, PayloadText(payload))));
    PayloadRoundTrip(payload);
  }

  /**
   * Full round trip: with a matching key pair, decoding an issued token at
   * any time up to and including its expiry gives back the warehouse name,
   * the file id, the expiry and the salt; after the expiry it is forbidden.
   */
  lemma IssueThenDecode(settings: WarehouseSettings, options: SignOptions, now: int, salt: string,
                        encrypt: Encryptor, decrypt: Decryptor, privateKey: string, later: int)
    requires |salt| == SaltLength
    requires KeyPair(encrypt, decrypt, settings.setupInfo.publicKey, privateKey)
    requires options.expiresAt.None? || options.expiresAt.value > now
    ensures GenerateSignedToken(settings, options, now, salt, encrypt).Ok?
    ensures var token := GenerateSignedToken(settings, options, now, salt, encrypt).value;
      var expiresAt := if options.expiresAt.Some? then options.expiresAt.value else now + DefaultLifetimeMs;
      DecodeAccessToken(token, privateKey, later, decrypt)
        == if later <= expiresAt
           then Ok(DecodedToken(settings.setupInfo.warehouseName, options.fileId, expiresAt, salt))
           else Err(Forbidden)
  {
    IssuedTokenLayout(settings, options, now, salt, encrypt);
    var payload := SignedToken(ResolveExpiry(options.expiresAt, now).value, options.fileId, salt);
    assert decrypt(privateKey, encrypt(settings.setupInfo.publicKey, PayloadText(payload))) == Some(PayloadText(payload));
  }

  /**
   * The clock only decides between success and `Forbidden`: a token that
   * decodes at some time decodes to the same result at every time up to and
   * including its expiry (`isPast` is strict), and is forbidden after it.
   */
  lemma DecodeExpiryBoundary(token: string, privateKey: string, decrypt: Decryptor, t0: int, now: int)
    requires DecodeAccessToken(token, privateKey, t0, decrypt).Ok?
    ensures var d := DecodeAccessToken(token, privateKey, t0, decrypt).value;
      DecodeAccessToken(token, privateKey, now, decrypt)
        == if now <= d.expiresAt then Ok(d) else Err(Forbidden)
  {
  }

  /** A forbidden token is one that decoded successfully until an expiry before `now`. */
  lemma ForbiddenMeansExpired(token: string, privateKey: string, decrypt: Decryptor, now: int)
    requires DecodeAccessToken(token, privateKey, now, decrypt) == Err(Forbidden)
    ensures exists d: DecodedToken :: d.expiresAt < now && DecodeAccessToken(token, privateKey, d.expiresAt, decrypt) == Ok(d)
  {
    var d := ReadToken(token, privateKey, decrypt).value;
    assert DecodeAccessToken(token, privateKey, d.expiresAt, decrypt) == Ok(d);
  }

  /** A malformed token is malformed at every time. */
  lemma MalformedAtAnyTime(token: string, privateKey: string, decrypt: Decryptor, t0: int, now: int)
    requires DecodeAccessToken(token, privateKey, t0, decrypt).Err?
    requires DecodeAccessToken(token, privateKey, t0, decrypt).failure.Malformed?
    ensures DecodeAccessToken(token, privateKey, now, decrypt) == DecodeAccessToken(token, privateKey, t0, decrypt)
  {
  }

  /** A token holding a character outside the base64 alphabet, `=` and ASCII whitespace is refused by `atob`. */
  lemma ForeignCharacterIsMalformed(token: string, privateKey: string, decrypt: Decryptor, now: int, i: int)
    requires 0 <= i < |token|
    requires !Base64.IsDigit(token[i]) && token[i] != '=' && !Base64.IsAsciiWhitespace(token[i])
    ensures DecodeAccessToken(token, privateKey, now, decrypt) == Err(Malformed(Base64Text))
  {
    if Base64.Atob(token).Some? {
      Base64.AtobCharset(token);
    }
  }

  /**
   * Tokens issued with different salts differ: the salt reaches the token,
   * since under a matching key pair the whole payload can be recovered.
   */
  lemma DistinctSaltsDistinctTokens(settings: WarehouseSettings, options: SignOptions, now: int,
                                    salt1: string, salt2: string,
                                    encrypt: Encryptor, decrypt: Decryptor, privateKey: string)
    requires |salt1| == SaltLength && |salt2| == SaltLength && salt1 != salt2
    requires KeyPair(encrypt, decrypt, settings.setupInfo.publicKey, privateKey)
    requires GenerateSignedToken(settings, options, now, salt1, encrypt).Ok?
    ensures GenerateSignedToken(settings, options, now, salt2, encrypt).Ok?
    ensures GenerateSignedToken(settings, options, now, salt1, encrypt).value
         != GenerateSignedToken(settings, options, now, salt2, encrypt).value
  {
    var expiresAt := ResolveExpiry(options.expiresAt, now).value;
    var p1 := SignedToken(expiresAt, options.fileId, salt1);
    var p2 := SignedToken(expiresAt, options.fileId, salt2);
    IssuedTokenLayout(settings, options, now, salt1, encrypt);
    IssuedTokenLayout(settings, options, now, salt2, encrypt);
    var c1 := encrypt(settings.setupInfo.publicKey, PayloadText(p1));
    var c2 := encrypt(settings.setupInfo.publicKey, PayloadText(p2));
    assert decrypt(privateKey, c1) == Some(PayloadText(p1));
    assert decrypt(privateKey, c2) == Some(PayloadText(p2));
    assert PayloadText(p1) != PayloadText(p2);
  }

  /**
   * The URL of a file access carries, after the host and the fixed path, a
   * token that decodes like the one `generateSignedToken` issued.
   */
  lemma FileAccessUrlCarriesToken(settings: WarehouseSettings, options: SignOptions, now: int, salt: string,
                                  encrypt: Encryptor, decrypt: Decryptor, privateKey: string, later: int)
    requires |salt| == SaltLength
    requires KeyPair(encrypt, decrypt, settings.setupInfo.publicKey, privateKey)
    requires options.expiresAt.None? || options.expiresAt.value > now
    requires later <= (if options.expiresAt.Some? then options.expiresAt.value else now + DefaultLifetimeMs)
    ensures GenerateFileAccess(settings, options, now, salt, encrypt).Ok?
    ensures var access := GenerateFileAccess(settings, options, now, salt, encrypt).value;
      var query := access.url[|settings.options.host| + |FilePath|..];
      DecodeAccessToken(query, privateKey, later, decrypt).Ok?
      && DecodeAccessToken(query, privateKey, later, decrypt).value.fileId == options.fileId
      && DecodeAccessToken(query, privateKey, later, decrypt).value.warehouseName == settings.setupInfo.warehouseName
  {
    IssueThenDecode(settings, options, now, salt, encrypt, decrypt, privateKey, later);
  }
}
