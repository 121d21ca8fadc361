# Warehouse file-access tokens

This project models the token logic of the NestJS warehouse SDK's
`WarehouseService` (`src/services/warehouse.service.ts`).

When a backend wants a client to download a file from a TMW warehouse, it
**issues** a short-lived access token:

- a payload `{expiresAt, fileId, salt}` is serialised with `JSON.stringify`;
- the payload is encrypted with the warehouse's RSA public key;
- the ciphertext is wrapped with the warehouse name in an envelope `{w, st}`;
- the envelope is serialised again, turned into UTF-8 bytes with `TextEncoder`, and written as standard base64.

`generateFileAccess` returns that token together with the download URL
`<host>/warehouse/file?token=<token>`.

The warehouse **decodes** the token by running the same layers backwards:

- `atob`, then `TextDecoder`, then `JSON.parse` of the envelope;
- RSA decryption of `st` with the private key;
- `JSON.parse` of the payload.

It refuses the token with `ForbiddenException` once its expiry is strictly in
the past.

## Modules

| file | module | contents |
|---|---|---|
| `common.dfy` | `Common` | `Option`, `byte`, concatenation regrouping |
| `base64.dfy` | `Base64` | `Buffer.toString("base64")`, and `atob` as WHATWG forgiving-base64 decode (RFC 4648 section 4 alphabet) |
| `utf8.dfy` | `Utf8` | `TextEncoder.encode`, and `TextDecoder.decode` with U+FFFD replacement of ill-formed maximal subparts and a leading byte order mark dropped |
| `json.dfy` | `Json` | `JSON.stringify` and `JSON.parse` for flat objects whose values are strings or integers, and property lookup (the last duplicate key wins) |
| `json_proofs.dfy` | `JsonProofs` | `JSON.parse` inverts `JSON.stringify` |
| `warehouse.dfy` | `WarehouseService` | the service: expiry resolution, issuing, file access, decoding |
| `token_properties.dfy` | `TokenProperties` | what issuing and decoding promise about each other |

## Inputs and abstractions

- **Clock.** The clock is the parameter `now`, an integer number of milliseconds. `isFuture(t)` is `t > now` and `isPast(t)` is `t < now`.
- **Salt.** The salt is a parameter of exactly 24 characters.
- **RSA.** Encryption and decryption are function parameters (`Encryptor`, `Decryptor`). A decryption that throws is `None`. Lemmas that need the two to fit together take the hypothesis `KeyPair`: decrypting with the private key recovers every text encrypted with the public key.
- **Exceptions.** The exceptions become a `Failure`:
  - `InvalidExpiry` is the `Error("expiresAt must be a future time")`.
  - `Forbidden` is the `ForbiddenException`.
  - `Malformed(layer)` is what `atob`, `JSON.parse` or the decryption throws. `layer` names the layer that failed.

## Model

| member | source | states |
|---|---|---|
| WarehouseService.ResolveExpiry | src/services/warehouse.service.ts:28-31 | A given expiry is accepted iff it is strictly after now, and is then used unchanged. Otherwise the failure is InvalidExpiry. Without one, the expiry is exactly now + 30 minutes. An accepted expiry always lies in the future. |
| WarehouseService.GenerateSignedToken | src/services/warehouse.service.ts:24-50 | Issuing fails iff an expiry was given that is not after now, and then fails with InvalidExpiry. A token it issues consists only of base64 alphabet characters and `=`. |
| WarehouseService.EncodeEnvelope | src/services/warehouse.service.ts:45-49 | The token text (base64 of the UTF-8 envelope) uses only the base64 alphabet and `=`. |
| WarehouseService.GenerateFileAccess | src/services/warehouse.service.ts:52-60 | It fails exactly when issuing fails, with the same failure. Otherwise `token` is the issued token and `warehouseHost` is the configured host. `url` is the host, then `/warehouse/file?token=`, then the token, with nothing else. |
| WarehouseService.FileUrl | src/services/warehouse.service.ts:56 | The URL is the host, then `/warehouse/file?token=`, then the token, each at its own position and with nothing escaped. |
| WarehouseService.PayloadText | src/services/warehouse.service.ts:37-41 | The payload JSON is an object text from `{` to `}`. What it means is given by `TokenProperties.PayloadRoundTrip`: it parses back to the same expiry, file id and salt. |
| WarehouseService.EnvelopeText | src/services/warehouse.service.ts:33-43 | The envelope JSON is an object text from `{` to `}`, so it never starts with a byte order mark. Its meaning is given by `TokenProperties.EnvelopeRoundTrip`. |
| WarehouseService.IntField | src/services/warehouse.service.ts:72 | A field reads as an integer iff the last member with that key holds an integer, and then it is that integer. |
| WarehouseService.StringField | src/services/warehouse.service.ts:66 | A field reads as a string iff the last member with that key holds a string, and then it is that string. |
| WarehouseService.ParsePayload | src/services/warehouse.service.ts:68-70 | A payload is read only from text that `JSON.parse` accepts. Its expiry, file id and salt are the values of the last `expiresAt`, `fileId` and `salt` members. Its inverse is `TokenProperties.PayloadRoundTrip`. |
| WarehouseService.ParseEnvelope | src/services/warehouse.service.ts:66 | An envelope is read only from text that `JSON.parse` accepts. Its `w` and `st` are the values of the last `w` and `st` members, both strings. Its inverse is `TokenProperties.EnvelopeRoundTrip`. |
| WarehouseService.DecodeEnvelope | src/services/warehouse.service.ts:64-66 | It fails only at the base64 layer or at the envelope-JSON layer. It fails at the base64 layer exactly when `atob` throws. It inverts `EncodeEnvelope` (`TokenProperties.EnvelopeRoundTrip`). |
| WarehouseService.ReadToken | src/services/warehouse.service.ts:63-77 | For any token, not just issued ones: reading succeeds iff the envelope decodes, `st` decrypts and the plaintext parses as a payload. It then returns the envelope's `w` as the warehouse name and the payload's `fileId`, `expiresAt` and `salt` unchanged. Every failure of these layers is Malformed, never Forbidden. |
| WarehouseService.DecodeAccessToken | src/services/warehouse.service.ts:62-78 | The result is Forbidden iff the token reads correctly and its expiry is strictly before now. It succeeds iff the token reads and the expiry is at or after now, and then returns exactly what was read. A returned expiry is never in the past. |
| TokenProperties.IssueThenDecode | src/services/warehouse.service.ts:24-78 | Take a matching key pair and an accepted expiry. Decoding an issued token at any time up to and including its expiry gives back the warehouse name, the file id, the resolved expiry and the salt. Decoding it at any later time gives Forbidden. |
| TokenProperties.IssuedTokenLayout | src/services/warehouse.service.ts:33-49 | An issued token decodes to the envelope whose `w` is the warehouse name and whose `st` is the public-key encryption of the payload JSON. That payload carries the resolved expiry, the file id and a 24-character salt, and it parses back to itself. |
| TokenProperties.EnvelopeRoundTrip | src/services/warehouse.service.ts:64-66 | `atob`, `TextDecoder` and `JSON.parse` recover exactly the `w` and `st` that lines 33-49 wrote. |
| TokenProperties.PayloadRoundTrip | src/services/warehouse.service.ts:37-41 | The payload JSON parses back to the same expiry, file id and salt. |
| TokenProperties.EnvelopeBytesRoundTrip | src/services/warehouse.service.ts:46-49 | `atob` gives back the UTF-8 bytes of the envelope. `TextDecoder` gives back the envelope text. |
| TokenProperties.DecodeExpiryBoundary | src/services/warehouse.service.ts:72-73 | If a token decodes at one time, then at any other time it decodes to the same value up to and including its expiry and is Forbidden after it. The instant of expiry itself is accepted. |
| TokenProperties.ForbiddenMeansExpired | src/services/warehouse.service.ts:72-73 | A Forbidden token is one that decodes successfully at its own expiry, and that expiry lies before now. |
| TokenProperties.MalformedAtAnyTime | src/services/warehouse.service.ts:64-70 | A malformed token stays malformed, with the same failure, at every time. |
| TokenProperties.ForeignCharacterIsMalformed | src/services/warehouse.service.ts:64 | A token holding any character other than a base64 alphabet character, `=` or ASCII whitespace is refused at the base64 layer. |
| TokenProperties.DistinctSaltsDistinctTokens | src/services/warehouse.service.ts:40 | Under a matching key pair, two tokens issued with the same options and clock but different salts differ. |
| TokenProperties.FileAccessUrlCarriesToken | src/services/warehouse.service.ts:56 | Until the expiry, the part of the URL after the host and the fixed path decodes to the file id and the warehouse name it was issued for. |
| Base64.Encode | src/services/warehouse.service.ts:49 | The encoding's length is 4 * ceil(n / 3) for n bytes, so always a multiple of 4. |
| Base64.EncodeCharset | src/services/warehouse.service.ts:49 | The encoding consists of alphabet characters and `=` only. |
| Base64.Atob | src/services/warehouse.service.ts:64 | An accepted input decodes to 3/4 of its digits once whitespace and padding are removed. |
| Base64.AtobEncode | src/services/warehouse.service.ts:64 | `atob` of the encoding of any byte sequence gives back exactly that sequence. |
| Base64.AtobCharset | src/services/warehouse.service.ts:64 | `atob` accepts only alphabet characters, `=` and ASCII whitespace. |
| Utf8.Encode | src/services/warehouse.service.ts:46-47 | Each character takes between one and four bytes. |
| Utf8.Decode | src/services/warehouse.service.ts:65 | `TextDecoder` yields at most one character per byte. It inverts `TextEncoder` (`Utf8.DecodeEncode`), and a leading byte order mark in front of encoded text yields nothing (`Utf8.DecodeBomEncode`). |
| Utf8.DecodeBomEncode | src/services/warehouse.service.ts:65 | Decoding EF BB BF followed by the encoding of any string gives exactly that string: the byte order mark is dropped and nothing else is. |
| Utf8.DecodeEncode | src/services/warehouse.service.ts:65 | Decoding the encoding of a string gives the string back, unless the string starts with U+FEFF (taken for a byte order mark). |
| Utf8.LeadingBomBytes | src/services/warehouse.service.ts:65 | Only U+FEFF encodes to a leading EF BB BF. |
| JsonProofs.QuoteRoundTrip | src/services/warehouse.service.ts:33-43 | A string written by `JSON.stringify` reads back as the same string, and the rest of the input is untouched. |
| JsonProofs.IntRoundTrip | src/services/warehouse.service.ts:38 | An integer written by `JSON.stringify` reads back as the same integer. |
| JsonProofs.MembersRoundTrip | src/services/warehouse.service.ts:66 | The written members of an object read back in order, and the rest of the input is untouched. |
| Json.Stringify | src/services/warehouse.service.ts:33-43 | `JSON.stringify` of an object is a text from `{` to `}`. `JsonProofs.ParseStringify` proves that `JSON.parse` gives its members back. |
| Json.Parse | src/services/warehouse.service.ts:66-70 | `JSON.parse` accepts only a text whose first non-whitespace character is `{`. On what `JSON.stringify` wrote it returns the members (`JsonProofs.ParseStringify`). |
| JsonProofs.ParseStringify | src/services/warehouse.service.ts:66 | `JSON.parse` of `JSON.stringify` of a flat object gives back its members. |
| Json.Lookup | src/services/warehouse.service.ts:66 | Property access finds a value iff the key occurs. The value found belongs to the last member with that key. |
| JsonProofs.LookupLast | src/services/warehouse.service.ts:66 | A member that no later member with the same key overrides is the one property access returns. |

## Left out

- **Bootstrap module.** `src/modules/warehouse.module.ts` is not part of this model. It fetches `/setup/info` over the network and retries with a delay, and it does NestJS dependency injection. The settings it produces are the `WarehouseSettings` parameter here.
- **RSA.** node-rsa (lines 81-89) is not modelled; encryption and decryption are parameters. The library's randomised padding is folded into the `encrypt` parameter. The key-pair relation is the `KeyPair` hypothesis rather than a property of RSA.
- GenerateSignedToken: encryption is assumed never to throw (`Encryptor` is total). `new NodeRSA(publicKey, "public")` at line 82 throws on a public key it cannot import, and then issuing (and `generateFileAccess`) rejects. The model has no failure for that case, so "issuing fails iff the expiry is not in the future" holds only for keys node-rsa can import.
- **Salt generator.** `randomString` and its alphabet are not part of this model. The salt is a parameter of length 24, and nothing is assumed about its characters.
- **Dates.** `date-fns` and `Date` are replaced by integer milliseconds. `JSON.stringify` writes a `Date` as an ISO-8601 string, and `new Date(...)` parses it back on decode. The model carries the expiry as a JSON integer instead, so ISO-8601 formatting and parsing, and time zones, are not modelled.
- **Payloads the source accepts but the model rejects.** `JSON.parse` of a payload with a missing or unparsable `expiresAt` gives an invalid date, which `isPast` treats as not past. The source then accepts the token; the model reports `Malformed(PayloadJson)` instead. An `expiresAt` of `null` differs again: `new Date(null)` is the epoch, so the source answers Forbidden, where the model reports `Malformed(PayloadJson)`.
- **Missing or mistyped fields.** A missing or mistyped `w`, `fileId` or `salt` is `Malformed` in the model. JavaScript would carry `undefined` or the other value along.
- **Extra payload keys.** The source spreads every inner payload key into its result, so an inner `warehouseName` would override `w`. The model returns only the four named fields.
- **Lone surrogates.** JavaScript strings may hold lone surrogates, and Dafny characters are Unicode scalar values. So `TextEncoder`'s replacement of lone surrogates and `JSON.stringify`'s `\udxxx` output for them are not modelled. On the reading side, a `\u` escape naming a lone surrogate is treated as unreadable.
- **JSON subset.** JSON values other than strings and integers are not modelled: fractions, exponents, `true`, `false`, `null`, arrays and nested objects.
- **Number precision.** Numbers are unbounded integers. The double-precision rounding of very large numbers is not modelled.
- **Framework.** `async`, decorators and the NestJS exception classes are not modelled; exceptions become the `Failure` datatype.
- **URL escaping.** The URL embeds the token without percent-encoding. A consumer that decodes the query string as form data turns `+` into a space, and `atob` then drops that space. The model states only that the raw URL suffix is the token (`TokenProperties.FileAccessUrlCarriesToken`). How the query string is parsed is not part of this model.
