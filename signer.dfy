/** `request`: the signing half of the Volcengine variant of the SigV4 scheme.
    It applies the per-action policy, builds the canonical request, the
    credential scope and the string to sign, derives the signing key by the
    HMAC chain date, region, service, "request", formats `Authorization` and
    merges the computed headers into the caller's. */
module Signer {
  import opened Wrappers
  import opened Dicts
  import opened Text
  import opened Utf8
  import opened Crypto
  import opened Dates
  import opened QueryNormalizer

  const DefaultService := "apig"
  const DefaultVersion := "2021-03-03"
  const DefaultRegion := "cn-beijing"
  const ServiceHost := "iam.volcengineapi.com"
  const DefaultContentType := "application/x-www-form-urlencoded"
  const JsonContentType := "application/json"
  const RouteVersion := "2022-11-12"
  const FunctionService := "vefaas"
  const Path := "/"
  const Algorithm := "HMAC-SHA256"
  const ScopeTerminator := "request"

  /** The actions served by the function service rather than the gateway. */
  const FunctionServiceActions := ["CodeUploadCallback", "CreateDependencyInstallTask",
    "GetDependencyInstallTaskStatus", "GetDependencyInstallTaskLogDownloadURI"]

  /** The actions of the newer gateway API version. */
  const RouteActions := ["CreateRoute", "ListRoutes"]

  /** The signed headers, in canonical order. The security-token header is
      never among them. */
  const SignedHeaderNames := ["content-type", "host", "x-content-sha256", "x-date"]

  /** A header value; `None` is Python's `None`, which the token header may carry. */
  type HeaderValue = Option<string>

  type Headers = Dict<HeaderValue>

  /** The `credential` dict of `request`. */
  datatype Credential = Credential(
    accessKeyId: Option<string>, secretAccessKey: Option<string>,
    service: string, region: string, sessionToken: Option<string>)

  /** The `request_param` dict of `request`. */
  datatype RequestParam = RequestParam(
    body: Option<string>, host: string, path: string, verb: string,
    contentType: string, date: DateTime, query: Dict<QueryValue>)

  /** The arguments `request` hands to `requests.request`. */
  datatype Outbound = Outbound(verb: string, url: string, headers: Headers, params: Dict<QueryValue>, body: string)

  /** `secret_access_key.encode` on `None` (line 166) and `None + "/"` on the
      access key (line 173) raise in the source. */
  datatype SignError = MissingSecretKey | MissingAccessKey

  /** The per-action protocol choices. */
  datatype Policy = Policy(service: string, region: string, contentType: string, version: string)

  function PolicyFor(verb: string, action: string, region: Option<string>): Policy
  {
    Policy(
      service := if action in FunctionServiceActions then FunctionService else DefaultService,
      region := if region.None? || region.value == "" then DefaultRegion else region.value,
      contentType := if verb == "POST" then JsonContentType else DefaultContentType,
      version := if action in RouteActions then RouteVersion else DefaultVersion)
  }

  /** The two parameters `request` injects, `Action` first. */
  function Injected(action: string, version: string): (r: Dict<QueryValue>)
    ensures Keys(r) == ["Action", "Version"]
    ensures Get(r, "Action") == Some(Scalar(action)) && Get(r, "Version") == Some(Scalar(version))
    ensures forall k :: k != "Action" && k != "Version" ==> Get(r, k) == None
  {
    [("Action", Scalar(action)), ("Version", Scalar(version))]
  }

  /** `{"Action": action, "Version": version, **query}`. */
  function SignedQuery(action: string, version: string, query: Dict<QueryValue>): (r: Dict<QueryValue>)
    ensures Get(r, "Action") == if Get(query, "Action").Some? then Get(query, "Action") else Some(Scalar(action))
    ensures Get(r, "Version") == if Get(query, "Version").Some? then Get(query, "Version") else Some(Scalar(version))
    ensures forall k :: k != "Action" && k != "Version" ==> Get(r, k) == Get(query, k)
    ensures |r| >= 2 && Keys(r)[..2] == ["Action", "Version"]
  {
    Merge(Injected(action, version), query)
  }

  /** `content-type;host;x-content-sha256;x-date`. */
  function SignedHeaders(): string {
    Join(";", SignedHeaderNames)
  }

  /** The four canonical header lines. */
  function CanonicalHeaders(contentType: string, host: string, bodyHash: string, xDate: string): string {
    Join("\n", ["content-type:" + contentType, "host:" + host, "x-content-sha256:" + bodyHash, "x-date:" + xDate])
  }

  function CanonicalRequest(verb: string, path: string, query: string, contentType: string,
                            host: string, bodyHash: string, xDate: string): string {
    Join("\n", [Upper(verb), path, query, CanonicalHeaders(contentType, host, bodyHash, xDate),
                "", SignedHeaders(), bodyHash])
  }

  function CredentialScope(shortDate: string, region: string, service: string): string {
    Join("/", [shortDate, region, service, ScopeTerminator])
  }

  function StringToSign(xDate: string, scope: string, hashedCanonicalRequest: string): string {
    Join("\n", [Algorithm, xDate, scope, hashedCanonicalRequest])
  }

  /** The key chain: HMAC(secret, date), then region, service, "request". */
  function SigningKey(p: Primitives, secret: string, shortDate: string, region: string, service: string): Digest {
    var kDate := HmacSha256(p, Utf8.Encode(secret), shortDate);
    var kRegion := HmacSha256(p, kDate, region);
    var kService := HmacSha256(p, kRegion, service);
    HmacSha256(p, kService, ScopeTerminator)
  }

  function AuthorizationValue(accessKey: string, scope: string, signature: string): string {
    Algorithm + " Credential=" + accessKey + "/" + scope + ", SignedHeaders=" + SignedHeaders() +
    ", Signature=" + signature
  }

  /** The `credential` record once the policy checks have adjusted it; the
      session token is recorded only when given, which `Option` expresses
      directly. */
  function CredentialFor(ak: Option<string>, sk: Option<string>, token: Option<string>, action: string,
                         region: Option<string>): Credential
  {
    var policy := PolicyFor("", action, region);
    Credential(ak, sk, policy.service, policy.region, token)
  }

  /** The `request_param` record once the policy checks have adjusted it. */
  function ParamFor(verb: string, date: DateTime, query: Dict<QueryValue>, action: string,
                    body: Option<string>): RequestParam
  {
    var policy := PolicyFor(verb, action, None);
    RequestParam(Some(if body.None? then "" else body.value), ServiceHost, Path, verb,
                 policy.contentType, date, SignedQuery(action, policy.version, query))
  }

  /** Everything `request` derives from the two records before the keys are used. */
  datatype Derivation = Derivation(
    xDate: string, shortDate: string, bodyHash: string, canonicalRequest: string,
    scope: string, stringToSign: string)

  function Derive(p: Primitives, credential: Credential, param: RequestParam): Derivation
    requires Valid(param.date) && param.body.Some?
  {
    var xDate := XDate(param.date);
    var shortDate := xDate[..8];
    var bodyHash := HashSha256(p, param.body.value);
    var canonical := CanonicalRequest(param.verb, param.path, CanonicalQuery(param.query), param.contentType,
                                      param.host, bodyHash, xDate);
    var scope := CredentialScope(shortDate, credential.region, credential.service);
    Derivation(xDate, shortDate, bodyHash, canonical, scope, StringToSign(xDate, scope, HashSha256(p, canonical)))
  }

  /** The four headers computed before the signature, in the order `request` inserts them. */
  function ComputedHeaders(host: string, bodyHash: string, xDate: string, contentType: string): Headers {
    [("Host", Some(host)), ("X-Content-Sha256", Some(bodyHash)), ("X-Date", Some(xDate)),
     ("Content-Type", Some(contentType))]
  }

  /** The one-entry dict holding the session token, `None` included. */
  function TokenHeader(token: Option<string>): Headers {
    [("X-Security-Token", token)]
  }

  /** The signing half of `request`, from the two records: the signed request
      it dispatches, or the error it raises first. */
  function Authorize(p: Primitives, credential: Credential, param: RequestParam, header: Headers,
                     token: Option<string>): (r: Result<Outbound, SignError>)
    requires Valid(param.date) && param.body.Some?
    ensures r.Err? <==> credential.secretAccessKey.None? || credential.accessKeyId.None?
    ensures r == Err(MissingSecretKey) <==> credential.secretAccessKey.None?
    ensures r.Ok? ==> r.value.verb == param.verb && r.value.body == param.body.value && r.value.params == param.query
  {
    var dv := Derive(p, credential, param);
    if credential.secretAccessKey.None? then Err(MissingSecretKey)
    else if credential.accessKeyId.None? then Err(MissingAccessKey)
    else
      var key := SigningKey(p, credential.secretAccessKey.value, dv.shortDate, credential.region, credential.service);
      var signature := Hex(HmacSha256(p, key, dv.stringToSign));
      var signResult := Put(ComputedHeaders(param.host, dv.bodyHash, dv.xDate, param.contentType), "Authorization",
                            Some(AuthorizationValue(credential.accessKeyId.value, dv.scope, signature)));
      Ok(Outbound(param.verb, "https://" + param.host + param.path, Merge(Merge(header, signResult), TokenHeader(token)),
                  param.query, param.body.value))
  }

  /** What `request` sends for its arguments, or the error it raises. */
  function Sign(p: Primitives, verb: string, date: DateTime, query: Dict<QueryValue>, header: Headers,
                ak: Option<string>, sk: Option<string>, token: Option<string>, action: string,
                body: Option<string>, region: Option<string>): (r: Result<Outbound, SignError>)
    requires Valid(date)
    ensures r.Err? <==> sk.None? || ak.None?
    ensures r == Err(MissingSecretKey) <==> sk.None?
    ensures r.Ok? ==> r.value.verb == verb && r.value.body == (if body.None? then "" else body.value)
  {
    Authorize(p, CredentialFor(ak, sk, token, action, region), ParamFor(verb, date, query, action, body),
              header, token)
  }

  /** The `credential` record of `request`, built and then adjusted in place. */
  method NewCredential(ak: Option<string>, sk: Option<string>, token: Option<string>, action: string,
                       region: Option<string>) returns (credential: Credential)
    ensures credential == CredentialFor(ak, sk, token, action, region)
  {
    credential := Credential(ak, sk, DefaultService,
                             if region.None? || region.value == "" then DefaultRegion else region.value, None);
    if token.Some? {
      credential := credential.(sessionToken := token);
    }
    if action in FunctionServiceActions {
      credential := credential.(service := FunctionService);
    }
  }

  /** The content type and API version `request` picks for a call. */
  method ContentTypeAndVersion(verb: string, action: string) returns (contentType: string, version: string)
    ensures contentType == PolicyFor(verb, action, None).contentType
    ensures version == PolicyFor(verb, action, None).version
  {
    contentType := DefaultContentType;
    version := DefaultVersion;
    if verb == "POST" {
      contentType := JsonContentType;
    }
    if action == "CreateRoute" || action == "ListRoutes" {
      version := RouteVersion;
    }
  }

  /** The first half of `request`: the `credential` and `request_param`
      records, filled in and then adjusted in place by the policy checks. */
  method Prepare(verb: string, date: DateTime, query: Dict<QueryValue>, ak: Option<string>,
                 sk: Option<string>, token: Option<string>, action: string, body: Option<string>,
                 region: Option<string>) returns (credential: Credential, param: RequestParam)
    ensures credential == CredentialFor(ak, sk, token, action, region)
    ensures param == ParamFor(verb, date, query, action, body)
  {
    credential := NewCredential(ak, sk, token, action, region);
    var contentType, version := ContentTypeAndVersion(verb, action);
    param := RequestParam(body, ServiceHost, Path, verb, contentType, date, SignedQuery(action, version, query));
    if body.None? {
      param := param.(body := Some(""));
    }
  }

  /** `request(method, date, query, header, ak, sk, token, action, body, region)`
      up to the dispatch: the source's steps in order, with `header` rebound by
      two merges. */
  method Request(p: Primitives, verb: string, date: DateTime, query: Dict<QueryValue>, header: Headers,
                 ak: Option<string>, sk: Option<string>, token: Option<string>, action: string,
                 body: Option<string>, region: Option<string>) returns (r: Result<Outbound, SignError>)
    requires Valid(date)
    ensures r == Sign(p, verb, date, query, header, ak, sk, token, action, body, region)
  {
    var credential, param := Prepare(verb, date, query, ak, sk, token, action, body, region);
    var xDate := XDate(param.date);
    var shortXDate := xDate[..8];
    var xContentSha256 := HashSha256(p, param.body.value);
    var signResult := ComputedHeaders(param.host, xContentSha256, xDate, param.contentType);
    var signedHeadersStr := SignedHeaders();
    var normalized := NormQuery(param.query);
    var canonicalRequestStr := CanonicalRequest(param.verb, param.path, normalized, param.contentType,
                                                param.host, xContentSha256, xDate);
    var hashedCanonicalRequest := HashSha256(p, canonicalRequestStr);
    var credentialScope := CredentialScope(shortXDate, credential.region, credential.service);
    var stringToSign := StringToSign(xDate, credentialScope, hashedCanonicalRequest);
    if credential.secretAccessKey.None? {
      return Err(MissingSecretKey);
    }
    var kDate := HmacSha256(p, Utf8.Encode(credential.secretAccessKey.value), shortXDate);
    var kRegion := HmacSha256(p, kDate, credential.region);
    var kService := HmacSha256(p, kRegion, credential.service);
    var kSigning := HmacSha256(p, kService, ScopeTerminator);
    var signature := Hex(HmacSha256(p, kSigning, stringToSign));
    if credential.accessKeyId.None? {
      return Err(MissingAccessKey);
    }
    signResult := Put(signResult, "Authorization",
                      Some(AuthorizationValue(credential.accessKeyId.value, credentialScope, signature)));
    var merged := Merge(header, signResult);
    merged := Merge(merged, TokenHeader(token));
    r := Ok(Outbound(param.verb, "https://" + param.host + param.path, merged, param.query, param.body.value));
  }
}
