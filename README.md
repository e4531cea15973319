# Volcengine request signing and credential resolution, in Dafny

This project models `sign.py` of the veFaaS MCP server: the client side of the
Volcengine variant of the AWS Signature Version 4 scheme, and the lookup of the
keys it signs with.

- **Query normaliser** (`norm_query`, module `QueryNormalizer`). It walks the
  keys in ascending code-point order. Each value is a string or a list of
  strings, and each becomes one or more `key=value` fields. Keys and values
  are percent-encoded over their UTF-8 bytes, leaving only the unreserved set
  of section 2.3 of RFC 3986. The fields are joined by `&`.
  - The method `NormQuery` keeps the source's nested loops and the trailing
    `&` it trims.
  - It is proved equal to the function `CanonicalQuery`. The lemmas are about
    that function.
- **Signer** (the signing part of `request`, module `Signer`).
  - The per-action policy: content type, API version, service and region.
  - The injected `Action`/`Version` parameters.
  - The canonical request, the credential scope and the string to sign.
  - The HMAC key chain and the `Authorization` header.
  - The two dict merges that build the outgoing headers.
  - `Request` follows the source statement by statement. It is proved equal
    to the function `Sign`, which is layered over `CredentialFor`,
    `ParamFor`, `Derive` and `Authorize`.
  - Module `SignerProperties` states what a signed request carries. It also
    defines a server-side check, `Verifies`, that recomputes the signature
    from what is transmitted, and proves every signed request passes it.
- **Credential resolver** (`get_authorization_credentials`, module
  `Credentials`).
  - The precedence chain: the primary environment pair, then the alternate
    pair, then the request's `authorization` header, then the
    `authorization` environment variable.
  - Stripping the scheme word from the value, then decoding it.
  - It is proved against a reference definition: the first of the available
    sources, in precedence order.

Supporting modules:
- `Dicts`: Python dicts as insertion-ordered sequences with distinct keys;
  `d[k] = v` is `Put` and `{**a, **b}` is `Merge`.
- `Text`: `join`, `split`, `replace` and `upper`.
- `StringOrder`: `sorted` on strings.
- `Utf8`: UTF-8 encoding and decoding.
- `PercentEncoding`: `quote`.
- `Crypto`: hex digests.
- `Dates`: the `%Y%m%dT%H%M%SZ` timestamp.

Outside collaborators become parameters:
- SHA-256 and HMAC-SHA256 are the functions of a `Crypto.Primitives` value.
- The environment is a `map<string, string>` snapshot.
- The inbound request is an optional header list inside `Credentials.Context`.
- The base64, UTF-8 and JSON decoding of a credential payload is a
  `Credentials.Decoder`, which returns `None` when any step fails.

## Model

| member | source | states |
|---|---|---|
| QueryNormalizer.NormQuery | server/mcp_server_vefaas_function/src/mcp_server_vefaas_function/sign.py:56-67 | the string built by the loops, with its last character dropped and `+` replaced, is exactly `CanonicalQuery(params)` |
| QueryNormalizer.AppendPairs | server/mcp_server_vefaas_function/src/mcp_server_vefaas_function/sign.py:59-65 | one key's turn of the outer loop appends one terminated field per list element, in list order, or exactly one field for a scalar |
| QueryNormalizer.Finish | server/mcp_server_vefaas_function/src/mcp_server_vefaas_function/sign.py:66-67 | trimming the final `&` leaves the `&`-join of the fields, and the `+` replacement changes nothing |
| QueryNormalizer.SortedKeys | server/mcp_server_vefaas_function/src/mcp_server_vefaas_function/sign.py:58 | the keys come out strictly ascending and are exactly the mapping's keys |
| QueryNormalizer.PairsKeysInOrder | server/mcp_server_vefaas_function/src/mcp_server_vefaas_function/sign.py:58-65 | the emitted pairs are ordered by key, the keys strictly ascending |
| QueryNormalizer.PairsValues | server/mcp_server_vefaas_function/src/mcp_server_vefaas_function/sign.py:59-65 | the values emitted for a key are its list's elements in list order, or its one scalar; an absent key emits nothing |
| QueryNormalizer.CanonicalQueryOrderIndependent | server/mcp_server_vefaas_function/src/mcp_server_vefaas_function/sign.py:56-58 | two mappings with the same entries inserted in different orders give the same pairs and the same query |
| QueryNormalizer.CanonicalQueryEmpty | server/mcp_server_vefaas_function/src/mcp_server_vefaas_function/sign.py:57-66 | the query is empty exactly when every value is an empty list (the empty mapping included) |
| QueryNormalizer.PairsEmpty | server/mcp_server_vefaas_function/src/mcp_server_vefaas_function/sign.py:57-66 | no pair is emitted exactly when every value is an empty list |
| QueryNormalizer.CanonicalQueryChars | server/mcp_server_vefaas_function/src/mcp_server_vefaas_function/sign.py:62-67 | the query holds no `+`, no space and no line break, and never ends with `&` |
| QueryNormalizer.FieldChars | server/mcp_server_vefaas_function/src/mcp_server_vefaas_function/sign.py:62-65 | a field holds no `+`, space, `&` or line break, and its `=` sits right after the encoded key |
| QueryNormalizer.ParseCanonicalQuery | server/mcp_server_vefaas_function/src/mcp_server_vefaas_function/sign.py:56-67 | splitting the query at `&` and `=` and decoding each piece gives back exactly the emitted pairs, so the query is unambiguous |
| QueryNormalizer.ParseFieldsFields | server/mcp_server_vefaas_function/src/mcp_server_vefaas_function/sign.py:61-65 | decoding a sequence of encoded fields returns the pairs they encode |
| QueryNormalizer.ValuesOfPairsFor | server/mcp_server_vefaas_function/src/mcp_server_vefaas_function/sign.py:58-65 | over distinct keys, a key's emitted values are its own values, and nothing for a key not walked |
| QueryExamples.SpaceIsPercent20 | server/mcp_server_vefaas_function/src/mcp_server_vefaas_function/sign.py:65-67 | a space inside a value is sent as `%20` |
| QueryExamples.ListKeepsOrder | server/mcp_server_vefaas_function/src/mcp_server_vefaas_function/sign.py:59-63 | a two-element list gives two fields in list order, joined by `&` |
| PercentEncoding.UnquoteQuote | server/mcp_server_vefaas_function/src/mcp_server_vefaas_function/sign.py:62-65 | percent-decoding undoes `quote(s, safe="-_.~")` for every string |
| PercentEncoding.QuoteInjective | server/mcp_server_vefaas_function/src/mcp_server_vefaas_function/sign.py:62-65 | distinct strings are encoded differently |
| PercentEncoding.QuoteAlphabet | server/mcp_server_vefaas_function/src/mcp_server_vefaas_function/sign.py:62-67 | encoded text uses only unreserved ASCII characters and `%`: never `+`, space, `&`, `=`, `/` or a line break |
| PercentEncoding.QuoteUnreserved | server/mcp_server_vefaas_function/src/mcp_server_vefaas_function/sign.py:62-65 | a string of unreserved ASCII characters is left unchanged |
| PercentEncoding.QuoteAppend | server/mcp_server_vefaas_function/src/mcp_server_vefaas_function/sign.py:62-65 | encoding distributes over concatenation |
| StringOrder.Sort | server/mcp_server_vefaas_function/src/mcp_server_vefaas_function/sign.py:58 | `sorted` returns an ordered permutation of its input |
| StringOrder.SortedUnique | server/mcp_server_vefaas_function/src/mcp_server_vefaas_function/sign.py:58 | two ordered permutations of the same elements are equal, so the sorted order is unique |
| Utf8.DecodeEncode | server/mcp_server_vefaas_function/src/mcp_server_vefaas_function/sign.py:72-78 | decoding the UTF-8 encoding of a string gives the string back |
| Crypto.HashSha256 | server/mcp_server_vefaas_function/src/mcp_server_vefaas_function/sign.py:77-78 | `hash_sha256` is 64 lower-case hex digits that decode to the SHA-256 digest of the UTF-8 bytes |
| Crypto.UnhexHex | server/mcp_server_vefaas_function/src/mcp_server_vefaas_function/sign.py:170 | `.hex()` is decoded back to the digest's bytes |
| Dates.XDate | server/mcp_server_vefaas_function/src/mcp_server_vefaas_function/sign.py:123 | the timestamp is 16 characters: digits, with `T` at index 8 and `Z` at index 15, and its first 8 are the zero-padded year, month and day |
| Dates.ParseXDateInverse | server/mcp_server_vefaas_function/src/mcp_server_vefaas_function/sign.py:123-124 | reading the timestamp back gives the date it was made from |
| Dates.XDateInverse | server/mcp_server_vefaas_function/src/mcp_server_vefaas_function/sign.py:123 | every timestamp that reads back as a valid date is the rendering of that date |
| Dicts.Put | server/mcp_server_vefaas_function/src/mcp_server_vefaas_function/sign.py:94-99 | `d[k] = v`: `k` maps to `v`, other keys are unchanged, an existing key keeps its position and a new one goes last |
| Dicts.Merge | server/mcp_server_vefaas_function/src/mcp_server_vefaas_function/sign.py:177-178 | `{**a, **b}`: `b`'s entries win, the key set is the union, and `a`'s keys stay first in their order |
| Signer.Injected | server/mcp_server_vefaas_function/src/mcp_server_vefaas_function/sign.py:117 | the two injected parameters, `Action` before `Version`, and nothing else |
| Signer.SignedQuery | server/mcp_server_vefaas_function/src/mcp_server_vefaas_function/sign.py:117 | a caller's `Action`/`Version` overrides the injected one, every other key is the caller's, and `Action`, `Version` lead the key order |
| Signer.NewCredential | server/mcp_server_vefaas_function/src/mcp_server_vefaas_function/sign.py:87-99 | the `credential` dict, with its in-place adjustments, equals `CredentialFor` |
| Signer.ContentTypeAndVersion | server/mcp_server_vefaas_function/src/mcp_server_vefaas_function/sign.py:101-107 | the content type and version picked equal those of `PolicyFor` |
| Signer.Prepare | server/mcp_server_vefaas_function/src/mcp_server_vefaas_function/sign.py:87-120 | the `credential` and `request_param` dicts, after their in-place adjustments, equal `CredentialFor` and `ParamFor` |
| Signer.Request | server/mcp_server_vefaas_function/src/mcp_server_vefaas_function/sign.py:82-178 | the statement-by-statement signing yields exactly `Sign` of its arguments |
| Signer.Authorize | server/mcp_server_vefaas_function/src/mcp_server_vefaas_function/sign.py:123-178 | the call fails exactly when a key is missing, reporting the secret key first; otherwise it sends the method, body and query of the request record |
| Signer.Sign | server/mcp_server_vefaas_function/src/mcp_server_vefaas_function/sign.py:82-178 | it fails exactly when `ak` or `sk` is `None`, `sk` first; otherwise it sends the caller's method and the body, with `None` sent as `""` |
| SignerProperties.PolicyTable | server/mcp_server_vefaas_function/src/mcp_server_vefaas_function/sign.py:87-107 | `POST` gets `application/json` and anything else the form type; `CreateRoute`/`ListRoutes` get `2022-11-12` and others `2021-03-03`; the four upload/dependency actions get `vefaas` and others `apig`; a missing or empty region is `cn-beijing` |
| SignerProperties.InjectedParameters | server/mcp_server_vefaas_function/src/mcp_server_vefaas_function/sign.py:110-118 | the signed query reads back to its pairs; `Action`/`Version` carry the caller's values when given and the injected ones otherwise; every other key carries exactly the caller's values |
| SignerProperties.AbsentBodyIsEmpty | server/mcp_server_vefaas_function/src/mcp_server_vefaas_function/sign.py:119-120 | a `None` body signs and sends exactly like `""` |
| SignerProperties.RegionFallback | server/mcp_server_vefaas_function/src/mcp_server_vefaas_function/sign.py:91 | a `None` or empty region signs exactly like `cn-beijing` |
| SignerProperties.CredentialRegionFallback | server/mcp_server_vefaas_function/src/mcp_server_vefaas_function/sign.py:87-92 | the credential record for a `None` or empty region is the one for `cn-beijing` |
| SignerProperties.SignedHeadersText | server/mcp_server_vefaas_function/src/mcp_server_vefaas_function/sign.py:133-136 | the signed-header list is `content-type;host;x-content-sha256;x-date`, without the security-token header |
| SignerProperties.CanonicalRequestJoin | server/mcp_server_vefaas_function/src/mcp_server_vefaas_function/sign.py:137-153 | the canonical request is the newline-join of its ten lines |
| SignerProperties.CanonicalRequestLines | server/mcp_server_vefaas_function/src/mcp_server_vefaas_function/sign.py:137-153 | for line-break-free parts, splitting the canonical request at line breaks gives: the upper-cased method, the path, the query, the four header lines, an empty line, the signed-header list and the body hash |
| SignerProperties.RequestCanonicalLines | server/mcp_server_vefaas_function/src/mcp_server_vefaas_function/sign.py:110-153 | the canonical request of a call has those lines with `/`, the normalised signed query, the policy's content type, the fixed host, the hash of the body sent and the timestamp |
| SignerProperties.ScopeFields | server/mcp_server_vefaas_function/src/mcp_server_vefaas_function/sign.py:161 | the scope splits at `/` into date, region, service and `request` |
| SignerProperties.RequestScope | server/mcp_server_vefaas_function/src/mcp_server_vefaas_function/sign.py:161 | the scope of a call is the timestamp's first 8 characters, the region after fallback, the action's service, and `request` |
| SignerProperties.StringToSignLines | server/mcp_server_vefaas_function/src/mcp_server_vefaas_function/sign.py:162 | the string to sign splits into `HMAC-SHA256`, the timestamp, the scope and the hashed canonical request |
| SignerProperties.RequestStringToSign | server/mcp_server_vefaas_function/src/mcp_server_vefaas_function/sign.py:157-162 | for a call, the string to sign splits into `HMAC-SHA256`, the call's timestamp, its scope and the hash of its canonical request |
| SignerProperties.AuthorizationRoundTrip | server/mcp_server_vefaas_function/src/mcp_server_vefaas_function/sign.py:172-176 | the `Authorization` value parses back into `<ak>/<scope>` and the 64-character signature |
| SignerProperties.MergeTwice | server/mcp_server_vefaas_function/src/mcp_server_vefaas_function/sign.py:177-178 | after the two merges, the token header beats the computed headers, which beat the caller's; the caller's keys stay first |
| SignerProperties.SignResultEntries | server/mcp_server_vefaas_function/src/mcp_server_vefaas_function/sign.py:126-131 | `sign_result` holds the host, body hash, timestamp, content type and `Authorization`, and no other key |
| SignerProperties.AuthorizeHeaders | server/mcp_server_vefaas_function/src/mcp_server_vefaas_function/sign.py:126-178 | the sent headers hold the computed values, the `Authorization` value over the HMAC key chain date, region, service, `request`, and the token; other caller headers are unchanged and first |
| SignerProperties.OutboundHeaders | server/mcp_server_vefaas_function/src/mcp_server_vefaas_function/sign.py:123-178 | a signed call's headers: the fixed host, the hash of the body sent, the timestamp, the policy's content type, an `Authorization` value, `X-Security-Token` set to the token even when `None`; all other caller headers unchanged and in front |
| SignerProperties.TokenNotSigned | server/mcp_server_vefaas_function/src/mcp_server_vefaas_function/sign.py:133-178 | two calls differing only in the token send the same headers apart from `X-Security-Token`, the same query and the same body: the token is not signed |
| SignerProperties.SplitCredential | server/mcp_server_vefaas_function/src/mcp_server_vefaas_function/sign.py:161-173 | the credential `<ak>/<scope>` splits at `/` into the access key's pieces followed by the four scope fields |
| SignerProperties.VerifiesWhen | server/mcp_server_vefaas_function/src/mcp_server_vefaas_function/sign.py:123-176 | headers that carry a timestamp, the body hash and an `Authorization` value over the recomputed signature pass the server-side check |
| SignerProperties.AuthorizeVerifies | server/mcp_server_vefaas_function/src/mcp_server_vefaas_function/sign.py:123-178 | every request `Authorize` signs, with a `/`-free region and service, passes the check with the keys it used |
| SignerProperties.SignedRequestVerifies | server/mcp_server_vefaas_function/src/mcp_server_vefaas_function/sign.py:82-178 | every request `request` signs, for a `/`-free region, passes the server-side check with the keys it was signed with |
| Credentials.EnvPair | server/mcp_server_vefaas_function/src/mcp_server_vefaas_function/sign.py:203-214 | a static pair is present exactly when both variables are set, and then gives the two values and session token `""` |
| Credentials.HeaderGet | server/mcp_server_vefaas_function/src/mcp_server_vefaas_function/sign.py:221-223 | the header lookup finds a value exactly when some header has the name, and returns the first such value |
| Credentials.HeaderGetFirst | server/mcp_server_vefaas_function/src/mcp_server_vefaas_function/sign.py:223 | the lookup's result is the first of all the values sent under that name |
| Credentials.Payload | server/mcp_server_vefaas_function/src/mcp_server_vefaas_function/sign.py:232-236 | a value without a space is taken whole; otherwise the payload is what follows the first space, after a space-free scheme word |
| Credentials.PayloadAfterScheme | server/mcp_server_vefaas_function/src/mcp_server_vefaas_function/sign.py:232-236 | `<scheme> <payload>` gives back exactly the payload, even one holding spaces |
| Credentials.KeysFrom | server/mcp_server_vefaas_function/src/mcp_server_vefaas_function/sign.py:243-247 | each of `AccessKeyId`, `SecretAccessKey`, `SessionToken` is its field's value when present and `None` when missing |
| Credentials.ResolveFirstSource | server/mcp_server_vefaas_function/src/mcp_server_vefaas_function/sign.py:203-249 | within a request, the result is that of the first available source in precedence order: primary pair, alternate pair, each `authorization` header, the environment's `authorization`; with none, the missing-authorization error |
| Credentials.ResolveWithoutContext | server/mcp_server_vefaas_function/src/mcp_server_vefaas_function/sign.py:203-218 | without a context only the static pairs serve; in their absence the missing-context error is raised |
| Credentials.MissingAuthorizationWhen | server/mcp_server_vefaas_function/src/mcp_server_vefaas_function/sign.py:203-230 | `Missing authorization info.` is raised exactly when neither pair is complete, a context exists, the request has no `authorization` header and the environment no `authorization` |
| Credentials.StaticPairWins | server/mcp_server_vefaas_function/src/mcp_server_vefaas_function/sign.py:203-214 | a complete pair decides the result whatever the request and the decoder, the primary pair first |
| Credentials.HalfPairIgnored | server/mcp_server_vefaas_function/src/mcp_server_vefaas_function/sign.py:203-214 | removing the one variable of a half-present pair changes no result |
| Credentials.HeaderOutranksEnvironment | server/mcp_server_vefaas_function/src/mcp_server_vefaas_function/sign.py:221-227 | with no static pair, the request's header is decoded and the environment's `authorization` is ignored |
| Credentials.BearerHeader | server/mcp_server_vefaas_function/src/mcp_server_vefaas_function/sign.py:232-247 | `authorization: Bearer <payload>` decodes the payload alone and returns its three fields |
| Credentials.UndecodableWhen | server/mcp_server_vefaas_function/src/mcp_server_vefaas_function/sign.py:238-249 | with no static pair, the decoding error is raised exactly when an `authorization` value exists and its payload fails to decode |

## Left out

- The dispatch through `requests.request` and `r.json()` (server/mcp_server_vefaas_function/src/mcp_server_vefaas_function/sign.py:180-186) is network I/O. The model stops at the `Outbound` record of the arguments that call would get.
- The debug `print` calls (server/mcp_server_vefaas_function/src/mcp_server_vefaas_function/sign.py:156, 160, 165) have no effect on the result.
- SHA-256 and HMAC-SHA256 are foreign library code. They are parameters, constrained only to return 32-byte digests.
- `base64.b64decode`, `.decode('utf-8')` and `json.loads` are library parsers. They are the `Decoder` parameter. A decoded object's non-string field values are not modelled.
- The module-level `AK`/`SK` globals (server/mcp_server_vefaas_function/src/mcp_server_vefaas_function/sign.py:48-49) are read only by the `__main__` demo (server/mcp_server_vefaas_function/src/mcp_server_vefaas_function/sign.py:252-277), which is not modelled either.
- The MCP `Context` plumbing is reduced to an optional header list. `ctx` being `None` is the `NoContext` error, the `AttributeError` the source raises.
- Starlette's header lookup compares names case-insensitively. ASGI delivers header names lower-cased, so `Credentials.HeaderGet` matches the name exactly.
- Query values are strings or lists of strings; `quote` of other value types is not modelled.
- Header values are strings or `None`; header keys are strings.
- Python strings holding lone surrogates cannot be represented: Dafny's `char` is a Unicode scalar value, and `.encode("utf-8")` would raise on them.
- Text.Upper: `str.upper()` is modelled for ASCII only. Other characters are left unchanged, whereas Python also maps non-ASCII letters, some into two characters.
- Dates.XDate: years are zero-padded to four digits and limited to 1 through 9999. Some platforms' `strftime` leaves years below 1000 unpadded.
- `Signer.NewCredential` and `Signer.ContentTypeAndVersion` split the body of `request` into steps. The source has them inline.
- The `session_token` entry that `credential` gets only when `token` is not `None` is an `Option` field. The source never reads it back.
- `server/mcp_server_cloud_assistant/src/mcp_server_cloud_assistant/config.py` only reads environment variables into a record. It is not part of this model.
