/** `get_authorization_credentials`: where the signer's keys come from. A
    complete pair of static keys in the environment wins (the primary names
    first); otherwise an `authorization` value, from the inbound request's
    headers or else from the environment, is stripped of its scheme word and
    decoded into the access key, the secret key and the session token. */
module Credentials {
  import opened Wrappers

  const AccessKeyVar := "VOLCENGINE_ACCESS_KEY"
  const SecretKeyVar := "VOLCENGINE_SECRET_KEY"
  const AltAccessKeyVar := "VOLC_ACCESSKEY"
  const AltSecretKeyVar := "VOLC_SECRETKEY"
  const AuthorizationName := "authorization"

  /** A snapshot of `os.environ`. */
  type Environment = map<string, string>

  /** The inbound request's headers in arrival order. ASGI delivers header
      names lower-cased, and the lookup compares them with the lower-cased
      name asked for. */
  type InboundHeaders = seq<(string, string)>

  /** The server context; `request` is `None` outside an HTTP request. */
  datatype Context = Context(request: Option<InboundHeaders>)

  /** The string fields of the decoded JSON object; a field the object lacks
      is absent from the map. */
  type Fields = map<string, string>

  /** Base64 decoding, UTF-8 decoding and JSON parsing of a payload, in that
      order: `None` when any of them raises or the JSON is not an object. */
  type Decoder = string -> Option<Fields>

  /** `(access_key, secret_key, session_token)`; a field may be `None`. */
  datatype Keys = Keys(accessKey: Option<string>, secretKey: Option<string>, sessionToken: Option<string>)

  /** The exceptions the resolver raises: reading the request of a missing
      context, `Missing authorization info.`, and the failed decoding. */
  datatype CredentialError = NoContext | MissingAuthorization | Undecodable

  /** A pair of static keys, present only when both variables are set. */
  function EnvPair(env: Environment, accessVar: string, secretVar: string): (r: Option<Keys>)
    ensures r.Some? <==> accessVar in env && secretVar in env
    ensures r.Some? ==> r.value == Keys(Some(env[accessVar]), Some(env[secretVar]), Some(""))
  {
    if accessVar in env && secretVar in env then Some(Keys(Some(env[accessVar]), Some(env[secretVar]), Some("")))
    else None
  }

  /** `headers.get(name)`: the value of the first header with that name. */
  function HeaderGet(headers: InboundHeaders, name: string): (r: Option<string>)
    ensures r.None? <==> forall i :: 0 <= i < |headers| ==> headers[i].0 != name
    ensures r.Some? ==> exists i :: 0 <= i < |headers| && headers[i] == (name, r.value) &&
                                    forall j :: 0 <= j < i ==> headers[j].0 != name
  {
    if headers == [] then None
    else if headers[0].0 == name then
      assert headers[0] == (name, headers[0].1);
      Some(headers[0].1)
    else
      var rest := HeaderGet(headers[1..], name);
      if rest.Some? then
        assert forall j :: 0 < j < |headers| ==> headers[j] == headers[1..][j - 1];
        rest
      else
        assert forall i :: 0 < i < |headers| ==> headers[i] == headers[1..][i - 1];
        rest
  }

  /** The position of the first `c` in `s`. */
  function FirstIndex(s: string, c: char): (i: nat)
    requires c in s
    ensures i < |s| && s[i] == c && c !in s[..i]
  {
    if s[0] == c then 0 else 1 + FirstIndex(s[1..], c)
  }

  /** `auth.split(' ', 1)[1]` when `auth` holds a space, else `auth` itself:
      what follows the scheme word and the first space. */
  function Payload(auth: string): (r: string)
    ensures ' ' !in auth ==> r == auth
    ensures ' ' in auth ==> |r| < |auth| && auth == auth[..|auth| - |r| - 1] + " " + r && ' ' !in auth[..|auth| - |r| - 1]
  {
    if ' ' in auth then
      var i := FirstIndex(auth, ' ');
      assert auth == auth[..i] + " " + auth[i + 1..];
      auth[i + 1..]
    else auth
  }

  /** The three `data.get(...)` reads: a field the object lacks comes back
      as `None`. */
  function KeysFrom(fields: Fields): (r: Keys)
    ensures r.accessKey.Some? <==> "AccessKeyId" in fields
    ensures r.secretKey.Some? <==> "SecretAccessKey" in fields
    ensures r.sessionToken.Some? <==> "SessionToken" in fields
    ensures r.accessKey.Some? ==> r.accessKey.value == fields["AccessKeyId"]
    ensures r.secretKey.Some? ==> r.secretKey.value == fields["SecretAccessKey"]
    ensures r.sessionToken.Some? ==> r.sessionToken.value == fields["SessionToken"]
  {
    Keys(if "AccessKeyId" in fields then Some(fields["AccessKeyId"]) else None,
         if "SecretAccessKey" in fields then Some(fields["SecretAccessKey"]) else None,
         if "SessionToken" in fields then Some(fields["SessionToken"]) else None)
  }

  /** Decoding an `authorization` value. */
  function DecodeAuthorization(auth: string, decode: Decoder): Result<Keys, CredentialError> {
    match decode(Payload(auth))
    case None => Err(Undecodable)
    case Some(fields) => Ok(KeysFrom(fields))
  }

  /** The `authorization` value: the request header, else the environment's. */
  function IncomingAuthorization(env: Environment, request: Option<InboundHeaders>): Option<string> {
    var fromRequest := if request.Some? then HeaderGet(request.value, AuthorizationName) else None;
    if fromRequest.Some? then fromRequest
    else if AuthorizationName in env then Some(env[AuthorizationName])
    else None
  }

  /** `get_authorization_credentials(ctx)` over an environment snapshot. */
  function Resolve(env: Environment, ctx: Option<Context>, decode: Decoder): Result<Keys, CredentialError> {
    var primary := EnvPair(env, AccessKeyVar, SecretKeyVar);
    var alternate := EnvPair(env, AltAccessKeyVar, AltSecretKeyVar);
    if primary.Some? then Ok(primary.value)
    else if alternate.Some? then Ok(alternate.value)
    else if ctx.None? then Err(NoContext)
    else
      var auth := IncomingAuthorization(env, ctx.value.request);
      if auth.None? then Err(MissingAuthorization)
      else DecodeAuthorization(auth.value, decode)
  }

  /** The scheme word is dropped whatever the payload holds, spaces included. */
  lemma {:induction false} PayloadAfterScheme(scheme: string, data: string)
    requires ' ' !in scheme
    ensures Payload(scheme + " " + data) == data
  {
    var auth := scheme + " " + data;
    assert auth[|scheme|] == ' ';
    var i := FirstIndex(auth, ' ');
    assert auth[..|scheme|] == scheme;
    assert auth[i + 1..] == data;
  }

  /** Where a credential can come from. */
  datatype Source = StaticPair(accessKey: string, secretKey: string) | Encoded(value: string)

  /** The complete static pairs in the environment, primary names first. */
  function StaticSources(env: Environment): seq<Source> {
    (if AccessKeyVar in env && SecretKeyVar in env then [StaticPair(env[AccessKeyVar], env[SecretKeyVar])] else []) +
    (if AltAccessKeyVar in env && AltSecretKeyVar in env then [StaticPair(env[AltAccessKeyVar], env[AltSecretKeyVar])] else [])
  }

  /** The values of every header with the given name, in arrival order. */
  function Named(headers: InboundHeaders, name: string): seq<string> {
    if headers == [] then []
    else (if headers[0].0 == name then [headers[0].1] else []) + Named(headers[1..], name)
  }

  /** Every credential source available, in order of precedence: the static
      pairs, each `authorization` request header, the `authorization`
      environment variable. */
  function Sources(env: Environment, request: Option<InboundHeaders>): seq<Source> {
    var headers := if request.Some? then Named(request.value, AuthorizationName) else [];
    StaticSources(env) +
    seq(|headers|, i requires 0 <= i < |headers| => Encoded(headers[i])) +
    (if AuthorizationName in env then [Encoded(env[AuthorizationName])] else [])
  }

  /** The keys one source yields. */
  function FromSource(source: Source, decode: Decoder): Result<Keys, CredentialError> {
    match source
    case StaticPair(accessKey, secretKey) => Ok(Keys(Some(accessKey), Some(secretKey), Some("")))
    case Encoded(value) => DecodeAuthorization(value, decode)
  }

  /** The header lookup finds the first of the headers with that name. */
  lemma {:induction false} HeaderGetFirst(headers: InboundHeaders, name: string)
    ensures HeaderGet(headers, name) == if Named(headers, name) == [] then None else Some(Named(headers, name)[0])
  {
    if headers != [] && headers[0].0 != name {
      HeaderGetFirst(headers[1..], name);
    }
  }

  /** Within a request, the resolver takes the first available source and
      reports the missing authorization exactly when there is none. */
  lemma ResolveFirstSource(env: Environment, ctx: Context, decode: Decoder)
    ensures var sources := Sources(env, ctx.request);
      Resolve(env, Some(ctx), decode) == if sources == [] then Err(MissingAuthorization) else FromSource(sources[0], decode)
  {
    if ctx.request.Some? {
      HeaderGetFirst(ctx.request.value, AuthorizationName);
    }
  }

  /** Without a context only the static pairs can serve; the missing
      context is reported in their absence. */
  lemma ResolveWithoutContext(env: Environment, decode: Decoder)
    ensures var sources := StaticSources(env);
      Resolve(env, None, decode) == if sources == [] then Err(NoContext) else FromSource(sources[0], decode)
  {
  }

  /** The missing-authorization error, stated on the inputs. */
  lemma MissingAuthorizationWhen(env: Environment, ctx: Option<Context>, decode: Decoder)
    ensures Resolve(env, ctx, decode) == Err(MissingAuthorization) <==>
      && !(AccessKeyVar in env && SecretKeyVar in env)
      && !(AltAccessKeyVar in env && AltSecretKeyVar in env)
      && ctx.Some?
      && (ctx.value.request.Some? ==> forall i :: 0 <= i < |ctx.value.request.value| ==> ctx.value.request.value[i].0 != AuthorizationName)
      && AuthorizationName !in env
  {
    if ctx.Some? {
      ResolveFirstSource(env, ctx.value, decode);
    }
  }

  /** A static pair, once complete, decides the result whatever the request
      or the decoder. */
  lemma StaticPairWins(env: Environment, ctx: Option<Context>, ctx': Option<Context>, decode: Decoder, decode': Decoder)
    requires (AccessKeyVar in env && SecretKeyVar in env) || (AltAccessKeyVar in env && AltSecretKeyVar in env)
    ensures Resolve(env, ctx, decode) == Resolve(env, ctx', decode')
    ensures Resolve(env, ctx, decode) ==
      if AccessKeyVar in env && SecretKeyVar in env then Ok(Keys(Some(env[AccessKeyVar]), Some(env[SecretKeyVar]), Some("")))
      else Ok(Keys(Some(env[AltAccessKeyVar]), Some(env[AltSecretKeyVar]), Some("")))
  {
  }

  /** The four variable names and `authorization` are distinct. */
  lemma NamesDistinct()
    ensures AccessKeyVar != SecretKeyVar && AccessKeyVar != AltAccessKeyVar && AccessKeyVar != AltSecretKeyVar
    ensures SecretKeyVar != AltAccessKeyVar && SecretKeyVar != AltSecretKeyVar && AltAccessKeyVar != AltSecretKeyVar
    ensures AuthorizationName !in {AccessKeyVar, SecretKeyVar, AltAccessKeyVar, AltSecretKeyVar}
  {
    assert AccessKeyVar[11] != SecretKeyVar[11];
    assert AltAccessKeyVar[5] != AltSecretKeyVar[5];
  }

  /** A half-present pair counts for nothing: removing its one variable
      changes no result. */
  lemma HalfPairIgnored(env: Environment, name: string, ctx: Option<Context>, decode: Decoder)
    requires (name == AccessKeyVar && SecretKeyVar !in env) || (name == SecretKeyVar && AccessKeyVar !in env) ||
             (name == AltAccessKeyVar && AltSecretKeyVar !in env) || (name == AltSecretKeyVar && AltAccessKeyVar !in env)
    ensures Resolve(env, ctx, decode) == Resolve(env - {name}, ctx, decode)
  {
    NamesDistinct();
  }

  /** A request header outranks the environment's `authorization` value. */
  lemma HeaderOutranksEnvironment(env: Environment, headers: InboundHeaders, value: string, decode: Decoder)
    requires !(AccessKeyVar in env && SecretKeyVar in env) && !(AltAccessKeyVar in env && AltSecretKeyVar in env)
    requires HeaderGet(headers, AuthorizationName) == Some(value)
    ensures Resolve(env, Some(Context(Some(headers))), decode) == DecodeAuthorization(value, decode)
    ensures Resolve(env, Some(Context(Some(headers))), decode) == Resolve(env - {AuthorizationName}, Some(Context(Some(headers))), decode)
  {
    NamesDistinct();
  }

  /** `Authorization: Bearer <payload>`: the payload alone is decoded, and
      the three fields of its object are the result. */
  lemma BearerHeader(env: Environment, payload: string, decode: Decoder, fields: Fields)
    requires !(AccessKeyVar in env && SecretKeyVar in env) && !(AltAccessKeyVar in env && AltSecretKeyVar in env)
    requires decode(payload) == Some(fields)
    ensures Resolve(env, Some(Context(Some([(AuthorizationName, "Bearer " + payload)]))), decode) ==
      Ok(KeysFrom(fields))
  {
    assert ' ' !in "Bearer";
    PayloadAfterScheme("Bearer", payload);
    assert "Bearer" + " " + payload == "Bearer " + payload;
    var headers := [(AuthorizationName, "Bearer " + payload)];
    assert HeaderGet(headers, AuthorizationName) == Some("Bearer " + payload);
    assert IncomingAuthorization(env, Some(headers)) == Some("Bearer " + payload);
    assert DecodeAuthorization("Bearer " + payload, decode) == Ok(KeysFrom(fields));
  }

  /** A value the decoder rejects is reported as undecodable, never as
      missing. */
  lemma UndecodableWhen(env: Environment, ctx: Context, decode: Decoder)
    requires StaticSources(env) == []
    ensures var auth := IncomingAuthorization(env, ctx.request);
      Resolve(env, Some(ctx), decode) == Err(Undecodable) <==> auth.Some? && decode(Payload(auth.value)).None?
  {
  }
}
