/** What the signer promises: the shape of the strings it signs, the headers
    it sends, the parameters it injects, and that a server holding the same
    secret key can recompute the signature from the transmitted request alone. */
module SignerProperties {
  import opened Wrappers
  import opened Dicts
  import opened Text
  import opened Crypto
  import opened Dates
  import opened QueryNormalizer
  import opened Signer

  /** The header names `request` writes itself. */
  const WrittenHeaders := ["Host", "X-Content-Sha256", "X-Date", "Content-Type", "Authorization", "X-Security-Token"]

  lemma Join4(sep: string, a: string, b: string, c: string, d: string)
    ensures Join(sep, [a, b, c, d]) == a + sep + b + sep + c + sep + d
  {
    assert [a, b, c, d][..3] == [a, b, c];
    assert [a, b, c][..2] == [a, b];
    assert [a, b][..1] == [a];
    assert Join(sep, [a, b]) == a + sep + b;
    assert Join(sep, [a, b, c]) == a + sep + b + sep + c;
  }

  /** The signed-header list names the four signed headers, in order. */
  lemma SignedHeadersText()
    ensures SignedHeaders() == "content-type;host;x-content-sha256;x-date"
  {
    Join4(";", "content-type", "host", "x-content-sha256", "x-date");
  }

  /** A server's reading of an `Authorization` value: the credential (access
      key and scope) and the 64-digit signature, or `None` when the value
      does not have the fixed frame. */
  function ParseAuthorization(a: string): (r: Option<(string, string)>)
    ensures r.Some? ==> |r.value.1| == 64
  {
    var prefix := Algorithm + " Credential=";
    var middle := ", SignedHeaders=" + SignedHeaders() + ", Signature=";
    if |a| < |prefix| + |middle| + 64 || a[..|prefix|] != prefix then None
    else
      var cut := |a| - 64 - |middle|;
      if a[cut..|a| - 64] != middle then None
      else Some((a[|prefix|..cut], a[|a| - 64..]))
  }

  /** `Authorization` round-trips: its credential is the access key and the
      scope, its signature the hex digest. */
  lemma AuthorizationRoundTrip(accessKey: string, scope: string, signature: string)
    requires |signature| == 64
    ensures ParseAuthorization(AuthorizationValue(accessKey, scope, signature)) == Some((accessKey + "/" + scope, signature))
  {
    var prefix := Algorithm + " Credential=";
    var middle := ", SignedHeaders=" + SignedHeaders() + ", Signature=";
    var credential := accessKey + "/" + scope;
    var a := AuthorizationValue(accessKey, scope, signature);
    assert a == prefix + credential + middle + signature;
    var cut := |a| - 64 - |middle|;
    assert cut == |prefix| + |credential|;
    assert a[..|prefix|] == prefix;
    assert a[cut..|a| - 64] == middle;
    assert a[|prefix|..cut] == credential;
    assert a[|a| - 64..] == signature;
  }

  /** The computed headers once `Authorization` is in: five entries, `Authorization` last. */
  lemma SignResultEntries(host: string, bodyHash: string, xDate: string, contentType: string, authorization: string)
    ensures var s := Put(ComputedHeaders(host, bodyHash, xDate, contentType), "Authorization", Some(authorization));
      && Get(s, "Host") == Some(Some(host))
      && Get(s, "X-Content-Sha256") == Some(Some(bodyHash))
      && Get(s, "X-Date") == Some(Some(xDate))
      && Get(s, "Content-Type") == Some(Some(contentType))
      && Get(s, "Authorization") == Some(Some(authorization))
      && (forall k :: k !in WrittenHeaders ==> Get(s, k) == None)
  {
    var computed := ComputedHeaders(host, bodyHash, xDate, contentType);
    assert Keys(computed) == ["Host", "X-Content-Sha256", "X-Date", "Content-Type"];
    assert Get(computed, "Host") == Some(Some(host));
    assert Get(computed, "X-Content-Sha256") == Some(Some(bodyHash));
    assert Get(computed, "X-Date") == Some(Some(xDate));
    assert Get(computed, "Content-Type") == Some(Some(contentType));
  }

  lemma TokenEntry(token: Option<string>)
    ensures Get(TokenHeader(token), "X-Security-Token") == Some(token)
    ensures forall k :: k != "X-Security-Token" ==> Get(TokenHeader(token), k) == None
  {
    assert Keys(TokenHeader(token)) == ["X-Security-Token"];
  }

  /** `header = {**header, **s}` and then `{**header, **t}`: a later dict wins,
      and the caller's keys stay first, in order. */
  lemma MergeTwice(header: Headers, s: Headers, t: Headers)
    ensures var m := Merge(Merge(header, s), t);
      && (forall k :: Get(m, k) == if Get(t, k).Some? then Get(t, k) else if Get(s, k).Some? then Get(s, k) else Get(header, k))
      && |header| <= |m| && Keys(m)[..|header|] == Keys(header)
  {
    var m1 := Merge(header, s);
    var m2 := Merge(m1, t);
    assert |header| <= |m1| <= |m2|;
    assert Keys(m2)[..|m1|] == Keys(m1);
    assert Keys(m2)[..|header|] == Keys(m2)[..|m1|][..|header|];
  }

  /** The headers `Authorize` sends: the five computed ones and the token
      override the caller's, every other caller header is kept unchanged, and
      the caller's headers keep their order at the front. */
  lemma AuthorizeHeaders(p: Primitives, c: Credential, rp: RequestParam, header: Headers, token: Option<string>)
    requires Valid(rp.date) && rp.body.Some?
    requires c.secretAccessKey.Some? && c.accessKeyId.Some?
    ensures var o := Authorize(p, c, rp, header, token).value;
      var dv := Derive(p, c, rp);
      && Get(o.headers, "Host") == Some(Some(rp.host))
      && Get(o.headers, "X-Content-Sha256") == Some(Some(dv.bodyHash))
      && Get(o.headers, "X-Date") == Some(Some(dv.xDate))
      && Get(o.headers, "Content-Type") == Some(Some(rp.contentType))
      && Get(o.headers, "Authorization") == Some(Some(AuthorizationValue(c.accessKeyId.value, dv.scope,
           Hex(HmacSha256(p, SigningKey(p, c.secretAccessKey.value, dv.shortDate, c.region, c.service), dv.stringToSign)))))
      && Get(o.headers, "X-Security-Token") == Some(token)
      && (forall k :: k !in WrittenHeaders ==> Get(o.headers, k) == Get(header, k))
      && |header| <= |o.headers| && Keys(o.headers)[..|header|] == Keys(header)
  {
    var dv := Derive(p, c, rp);
    var signature := Hex(HmacSha256(p, SigningKey(p, c.secretAccessKey.value, dv.shortDate, c.region, c.service), dv.stringToSign));
    var authorization := AuthorizationValue(c.accessKeyId.value, dv.scope, signature);
    var signResult := Put(ComputedHeaders(rp.host, dv.bodyHash, dv.xDate, rp.contentType), "Authorization", Some(authorization));
    assert Authorize(p, c, rp, header, token).value.headers == Merge(Merge(header, signResult), TokenHeader(token));
    SignResultEntries(rp.host, dv.bodyHash, dv.xDate, rp.contentType, authorization);
    TokenEntry(token);
    MergeTwice(header, signResult, TokenHeader(token));
  }

  lemma UpperKeepsNewline(s: string)
    requires '\n' !in s
    ensures '\n' !in Upper(s)
  {
    forall i | 0 <= i < |s| ensures Upper(s)[i] != '\n' {
    }
  }

  /** The ten lines of a canonical request, before they are joined. */
  function CanonicalLines(verb: string, path: string, query: string, contentType: string,
                          host: string, bodyHash: string, xDate: string): seq<string>
  {
    [Upper(verb), path, query, "content-type:" + contentType, "host:" + host, "x-content-sha256:" + bodyHash,
     "x-date:" + xDate, "", "content-type;host;x-content-sha256;x-date", bodyHash]
  }

  /** Nesting the four header lines inside the outer join is the same as
      joining all ten lines. */
  lemma CanonicalRequestJoin(verb: string, path: string, query: string, contentType: string,
                             host: string, bodyHash: string, xDate: string)
    ensures CanonicalRequest(verb, path, query, contentType, host, bodyHash, xDate) ==
      Join("\n", CanonicalLines(verb, path, query, contentType, host, bodyHash, xDate))
  {
    SignedHeadersText();
    var a := [Upper(verb), path, query];
    var h := ["content-type:" + contentType, "host:" + host, "x-content-sha256:" + bodyHash, "x-date:" + xDate];
    var c := ["", SignedHeaders(), bodyHash];
    var j := Join("\n", h);
    assert [Upper(verb), path, query, j, "", SignedHeaders(), bodyHash] == a + ([j] + c);
    JoinFlatten("\n", a, [j] + c);
    JoinFlatten("\n", [j], c);
    JoinFlatten("\n", a, h + c);
    JoinFlatten("\n", h, c);
    assert CanonicalLines(verb, path, query, contentType, host, bodyHash, xDate) == a + (h + c);
  }

  lemma LabelsPlain()
    ensures '\n' !in "content-type:" && '\n' !in "host:" && '\n' !in "x-content-sha256:" && '\n' !in "x-date:"
    ensures '\n' !in "content-type;host;x-content-sha256;x-date"
  {
  }

  /** The canonical request is exactly ten lines: method, path, query, the four
      signed headers as `name:value`, an empty line, the signed-header list
      and the body hash. */
  lemma CanonicalRequestLines(verb: string, path: string, query: string, contentType: string,
                              host: string, bodyHash: string, xDate: string)
    requires '\n' !in verb && '\n' !in path && '\n' !in query && '\n' !in contentType
    requires '\n' !in host && '\n' !in bodyHash && '\n' !in xDate
    ensures Split(CanonicalRequest(verb, path, query, contentType, host, bodyHash, xDate), '\n') ==
      CanonicalLines(verb, path, query, contentType, host, bodyHash, xDate)
  {
    CanonicalRequestJoin(verb, path, query, contentType, host, bodyHash, xDate);
    UpperKeepsNewline(verb);
    LabelsPlain();
    var lines := CanonicalLines(verb, path, query, contentType, host, bodyHash, xDate);
    forall i | 0 <= i < |lines| ensures '\n' !in lines[i] {
    }
    SplitJoin(lines, '\n');
  }

  /** The credential scope is four `/`-separated fields: date, region, service, `request`. */
  lemma ScopeFields(shortDate: string, region: string, service: string)
    requires '/' !in shortDate && '/' !in region && '/' !in service
    ensures Split(CredentialScope(shortDate, region, service), '/') == [shortDate, region, service, "request"]
  {
    SplitJoin([shortDate, region, service, ScopeTerminator], '/');
  }

  lemma ScopeAvoids(shortDate: string, region: string, service: string, x: char)
    requires x != '/' && x !in shortDate && x !in region && x !in service && x !in ScopeTerminator
    ensures x !in CredentialScope(shortDate, region, service)
  {
    JoinAvoids("/", [shortDate, region, service, ScopeTerminator], x);
  }

  /** The string to sign is four lines: algorithm, timestamp, scope, canonical-request hash. */
  lemma StringToSignLines(xDate: string, scope: string, hashed: string)
    requires '\n' !in xDate && '\n' !in scope && '\n' !in hashed
    ensures Split(StringToSign(xDate, scope, hashed), '\n') == ["HMAC-SHA256", xDate, scope, hashed]
  {
    SplitJoin([Algorithm, xDate, scope, hashed], '\n');
  }

  /** The strings `request` derives for its arguments; the keys and the
      token play no part in them. */
  function RequestDerivation(p: Primitives, verb: string, date: DateTime, query: Dict<QueryValue>,
                             action: string, body: Option<string>, region: Option<string>): Derivation
    requires Valid(date)
  {
    Derive(p, CredentialFor(None, None, None, action, region), ParamFor(verb, date, query, action, body))
  }

  /** None of the fixed strings holds a line break, and the names that go
      into the scope hold no `/`. */
  lemma ConstantsPlain()
    ensures '\n' !in DefaultContentType && '\n' !in JsonContentType && '\n' !in ServiceHost && '\n' !in Path
    ensures '\n' !in DefaultRegion && '\n' !in DefaultService && '\n' !in FunctionService && '\n' !in ScopeTerminator
    ensures '/' !in DefaultRegion && '/' !in DefaultService && '/' !in FunctionService
  {
    NewlineFreeHeaderConstants();
    NewlineFreeScopeConstants();
    SlashFreeConstants();
  }

  lemma NewlineFreeHeaderConstants()
    ensures '\n' !in DefaultContentType && '\n' !in JsonContentType && '\n' !in ServiceHost && '\n' !in Path
  {
  }

  lemma NewlineFreeScopeConstants()
    ensures '\n' !in DefaultRegion && '\n' !in DefaultService && '\n' !in FunctionService && '\n' !in ScopeTerminator
  {
  }

  lemma SlashFreeConstants()
    ensures '/' !in DefaultRegion && '/' !in DefaultService && '/' !in FunctionService
  {
  }

  lemma XDateAvoids(d: DateTime, c: char)
    requires Valid(d) && c != 'T' && c != 'Z' && !Digit(c)
    ensures c !in XDate(d) && c !in XDate(d)[..8]
  {
    var s := XDate(d);
    assert forall i :: 0 <= i < |s| ==> s[i] != c by {
      forall i | 0 <= i < |s| ensures s[i] != c {
        if i != 8 && i != 15 {
          assert Digit(s[i]);
        }
      }
    }
  }

  lemma HashAvoids(p: Primitives, content: string, c: char)
    requires !LowerHexDigit(c)
    ensures c !in HashSha256(p, content)
  {
    var h := HashSha256(p, content);
    assert forall i :: 0 <= i < |h| ==> LowerHexDigit(h[i]);
  }

  /** The canonical request of a call: the upper-cased method, `/`, the
      normalised query, the content type (`application/json` exactly when the
      method is `POST`), the fixed host, the body hash (of the empty string
      when there is no body) and the timestamp. */
  lemma RequestCanonicalLines(p: Primitives, verb: string, date: DateTime, query: Dict<QueryValue>,
                              action: string, body: Option<string>, region: Option<string>)
    requires Valid(date) && '\n' !in verb
    ensures var bodyHash := HashSha256(p, if body.None? then "" else body.value);
      Split(RequestDerivation(p, verb, date, query, action, body, region).canonicalRequest, '\n') ==
        CanonicalLines(verb, Path, CanonicalQuery(ParamFor(verb, date, query, action, body).query),
                       if verb == "POST" then JsonContentType else DefaultContentType,
                       ServiceHost, bodyHash, XDate(date))
  {
    var rp := ParamFor(verb, date, query, action, body);
    CanonicalQueryChars(rp.query);
    XDateAvoids(date, '\n');
    HashAvoids(p, rp.body.value, '\n');
    ConstantsPlain();
    CanonicalRequestLines(verb, rp.path, CanonicalQuery(rp.query), rp.contentType, rp.host,
                          HashSha256(p, rp.body.value), XDate(date));
  }

  /** The credential scope of a call: the date (`YYYYMMDD`), the region (the caller's when
      non-empty, else `cn-beijing`), the service (`vefaas` for the four
      function-service actions, else `apig`) and `request`. */
  lemma RequestScope(p: Primitives, verb: string, date: DateTime, query: Dict<QueryValue>,
                     action: string, body: Option<string>, region: Option<string>)
    requires Valid(date) && (region.Some? ==> '/' !in region.value)
    ensures Split(RequestDerivation(p, verb, date, query, action, body, region).scope, '/') ==
      [XDate(date)[..8],
       if region.None? || region.value == "" then "cn-beijing" else region.value,
       if action in FunctionServiceActions then "vefaas" else "apig",
       "request"]
  {
    var c := CredentialFor(None, None, None, action, region);
    XDateAvoids(date, '/');
    ConstantsPlain();
    ScopeFields(XDate(date)[..8], c.region, c.service);
  }

  /** The string to sign of a call: the algorithm, the timestamp, the scope
      and the hash of the canonical request. */
  lemma RequestStringToSign(p: Primitives, verb: string, date: DateTime, query: Dict<QueryValue>,
                            action: string, body: Option<string>, region: Option<string>)
    requires Valid(date) && (region.Some? ==> '\n' !in region.value)
    ensures var dv := RequestDerivation(p, verb, date, query, action, body, region);
      Split(dv.stringToSign, '\n') == ["HMAC-SHA256", XDate(date), dv.scope, HashSha256(p, dv.canonicalRequest)]
  {
    var c := CredentialFor(None, None, None, action, region);
    var dv := RequestDerivation(p, verb, date, query, action, body, region);
    XDateAvoids(date, '\n');
    ConstantsPlain();
    ScopeAvoids(XDate(date)[..8], c.region, c.service, '\n');
    HashAvoids(p, dv.canonicalRequest, '\n');
    StringToSignLines(XDate(date), dv.scope, HashSha256(p, dv.canonicalRequest));
  }

  /** The policy table: JSON exactly for `POST`, the newer API version
      exactly for the two route actions, the function service exactly for
      its four actions, and the caller's region unless it is absent or empty. */
  lemma PolicyTable(verb: string, action: string, region: Option<string>)
    ensures PolicyFor(verb, action, region).contentType == (if verb == "POST" then "application/json" else "application/x-www-form-urlencoded")
    ensures PolicyFor(verb, action, region).version == (if action in RouteActions then "2022-11-12" else "2021-03-03")
    ensures PolicyFor(verb, action, region).service == (if action in FunctionServiceActions then "vefaas" else "apig")
    ensures PolicyFor(verb, action, region).region == (if region.None? || region.value == "" then "cn-beijing" else region.value)
  {
  }

  /** The query `request` signs and sends: reading the canonical query back
      gives its pairs; `Action` and `Version` carry the caller's values when
      the caller supplies those keys and the injected ones otherwise; every
      other key carries exactly the caller's values. */
  lemma InjectedParameters(verb: string, date: DateTime, query: Dict<QueryValue>, action: string, body: Option<string>)
    ensures var q := ParamFor(verb, date, query, action, body).query;
      && ParseQuery(CanonicalQuery(q)) == Some(Pairs(q))
      && ValuesOf(Pairs(q), "Action") == (if Get(query, "Action").Some? then ValuesAt(query, "Action") else [action])
      && ValuesOf(Pairs(q), "Version") == (if Get(query, "Version").Some? then ValuesAt(query, "Version")
                                            else [PolicyFor(verb, action, None).version])
      && (forall k :: k != "Action" && k != "Version" ==> ValuesOf(Pairs(q), k) == ValuesAt(query, k))
  {
    var q := ParamFor(verb, date, query, action, body).query;
    ParseCanonicalQuery(q);
    PairsValues(q, "Action");
    PairsValues(q, "Version");
    forall k | k != "Action" && k != "Version" ensures ValuesOf(Pairs(q), k) == ValuesAt(query, k) {
      PairsValues(q, k);
    }
  }

  /** A missing body is signed and sent exactly as an empty one. */
  lemma AbsentBodyIsEmpty(p: Primitives, verb: string, date: DateTime, query: Dict<QueryValue>, header: Headers,
                          ak: Option<string>, sk: Option<string>, token: Option<string>, action: string,
                          region: Option<string>)
    requires Valid(date)
    ensures Sign(p, verb, date, query, header, ak, sk, token, action, None, region) ==
            Sign(p, verb, date, query, header, ak, sk, token, action, Some(""), region)
  {
    assert ParamFor(verb, date, query, action, None) == ParamFor(verb, date, query, action, Some(""));
  }

  /** A missing or empty region is signed as `cn-beijing`. */
  lemma RegionFallback(p: Primitives, verb: string, date: DateTime, query: Dict<QueryValue>, header: Headers,
                       ak: Option<string>, sk: Option<string>, token: Option<string>, action: string,
                       body: Option<string>)
    requires Valid(date)
    ensures Sign(p, verb, date, query, header, ak, sk, token, action, body, None) ==
            Sign(p, verb, date, query, header, ak, sk, token, action, body, Some(DefaultRegion))
    ensures Sign(p, verb, date, query, header, ak, sk, token, action, body, Some("")) ==
            Sign(p, verb, date, query, header, ak, sk, token, action, body, Some(DefaultRegion))
  {
    CredentialRegionFallback(ak, sk, token, action);
  }

  lemma CredentialRegionFallback(ak: Option<string>, sk: Option<string>, token: Option<string>, action: string)
    ensures CredentialFor(ak, sk, token, action, None) == CredentialFor(ak, sk, token, action, Some(DefaultRegion))
    ensures CredentialFor(ak, sk, token, action, Some("")) == CredentialFor(ak, sk, token, action, Some(DefaultRegion))
  {
    assert DefaultRegion != "";
  }

  /** The headers of a signed call: the fixed host, the hash of the body sent,
      the timestamp, the policy's content type, the `Authorization` value and
      the session token (even when absent) replace the caller's; the caller's
      other headers pass through unchanged and keep their order at the front. */
  lemma OutboundHeaders(p: Primitives, verb: string, date: DateTime, query: Dict<QueryValue>, header: Headers,
                        ak: Option<string>, sk: Option<string>, token: Option<string>, action: string,
                        body: Option<string>, region: Option<string>, o: Outbound)
    requires Valid(date) && Sign(p, verb, date, query, header, ak, sk, token, action, body, region) == Ok(o)
    ensures Get(o.headers, "Host") == Some(Some(ServiceHost))
      && Get(o.headers, "X-Content-Sha256") == Some(Some(HashSha256(p, o.body)))
      && Get(o.headers, "X-Date") == Some(Some(XDate(date)))
      && Get(o.headers, "Content-Type") == Some(Some(if verb == "POST" then JsonContentType else DefaultContentType))
      && Get(o.headers, "Authorization").Some? && Get(o.headers, "Authorization").value.Some?
      && Get(o.headers, "X-Security-Token") == Some(token)
      && (forall k :: k !in WrittenHeaders ==> Get(o.headers, k) == Get(header, k))
      && |header| <= |o.headers| && Keys(o.headers)[..|header|] == Keys(header)
  {
    AuthorizeHeaders(p, CredentialFor(ak, sk, token, action, region), ParamFor(verb, date, query, action, body),
                     header, token);
  }

  /** The session token is sent but not signed: two calls that differ only in
      the token send the same `Authorization` and the same other headers. */
  lemma TokenNotSigned(p: Primitives, verb: string, date: DateTime, query: Dict<QueryValue>, header: Headers,
                       ak: Option<string>, sk: Option<string>, token1: Option<string>, token2: Option<string>,
                       action: string, body: Option<string>, region: Option<string>, o1: Outbound, o2: Outbound)
    requires Valid(date)
    requires Sign(p, verb, date, query, header, ak, sk, token1, action, body, region) == Ok(o1)
    requires Sign(p, verb, date, query, header, ak, sk, token2, action, body, region) == Ok(o2)
    ensures (forall k :: k != "X-Security-Token" ==> Get(o1.headers, k) == Get(o2.headers, k))
      && o1.params == o2.params && o1.body == o2.body
  {
    var rp := ParamFor(verb, date, query, action, body);
    var c1 := CredentialFor(ak, sk, token1, action, region);
    var c2 := CredentialFor(ak, sk, token2, action, region);
    assert Derive(p, c1, rp) == Derive(p, c2, rp);
    AuthorizeHeaders(p, c1, rp, header, token1);
    AuthorizeHeaders(p, c2, rp, header, token2);
  }

  /** The credential `access-key/date/region/service/request` splits into the
      access key's own fields followed by the four scope fields. */
  lemma {:induction false} SplitCredential(accessKey: string, shortDate: string, region: string, service: string)
    requires '/' !in shortDate && '/' !in region && '/' !in service
    ensures Split(accessKey + "/" + CredentialScope(shortDate, region, service), '/') ==
      Split(accessKey, '/') + [shortDate, region, service, ScopeTerminator]
  {
    var x1 := accessKey + ['/'] + shortDate;
    var x2 := x1 + ['/'] + region;
    CredentialText(accessKey, shortDate, region, service);
    SplitAppend(x2 + ['/'] + service, '/', ScopeTerminator);
    SplitAppend(x1 + ['/'] + region, '/', service);
    SplitAppend(accessKey + ['/'] + shortDate, '/', region);
    SplitAppend(accessKey, '/', shortDate);
  }

  lemma CredentialText(accessKey: string, shortDate: string, region: string, service: string)
    ensures accessKey + "/" + CredentialScope(shortDate, region, service) ==
      accessKey + ['/'] + shortDate + ['/'] + region + ['/'] + service + ['/'] + ScopeTerminator
  {
    Join4("/", shortDate, region, service, ScopeTerminator);
  }

  /** A server's check of a received request, given the access key and the
      secret key it holds for it: `Authorization` must name that access key
      and a scope dated like `X-Date` and ending in `request`, `X-Content-Sha256`
      must be the hash of the body received, and the signature must be the one
      recomputed from the method, `/`, the normalised query, the signed header
      values as received and the scope. */
  function Verifies(p: Primitives, accessKey: string, secret: string, o: Outbound): bool
  {
    var auth, xDate := HeaderText(o.headers, "Authorization"), HeaderText(o.headers, "X-Date");
    var contentType, host := HeaderText(o.headers, "Content-Type"), HeaderText(o.headers, "Host");
    var bodyHash := HeaderText(o.headers, "X-Content-Sha256");
    if auth.None? || xDate.None? || contentType.None? || host.None? || bodyHash.None? then false
    else match ParseAuthorization(auth.value)
      case None => false
      case Some((credential, signature)) =>
        var fields := Split(credential, '/');
        && |fields| >= 5 && |xDate.value| >= 8
        && fields[|fields| - 4] == xDate.value[..8] && fields[|fields| - 1] == ScopeTerminator
        && bodyHash.value == HashSha256(p, o.body)
        && (var shortDate, region, service := fields[|fields| - 4], fields[|fields| - 3], fields[|fields| - 2];
            var scope := CredentialScope(shortDate, region, service);
            var canonical := CanonicalRequest(o.verb, Path, CanonicalQuery(o.params), contentType.value, host.value,
                                              bodyHash.value, xDate.value);
            && credential == accessKey + "/" + scope
            && signature == Hex(HmacSha256(p, SigningKey(p, secret, shortDate, region, service),
                                           StringToSign(xDate.value, scope, HashSha256(p, canonical)))))
  }

  /** The text of a header that is present and not `None`. */
  function HeaderText(headers: Headers, name: string): Option<string> {
    var entry := Get(headers, name);
    if entry.Some? && entry.value.Some? then Some(entry.value.value) else None
  }

  /** The server's check passes when the headers carry a timestamp, the body
      hash and an `Authorization` value built from a `/`-free scope dated like
      the timestamp and the signature recomputed from them. */
  lemma VerifiesWhen(p: Primitives, accessKey: string, secret: string, o: Outbound, xDate: string,
                     contentType: string, host: string, region: string, service: string)
    requires |xDate| >= 8 && '/' !in xDate[..8] && '/' !in region && '/' !in service
    requires HeaderText(o.headers, "X-Date") == Some(xDate)
    requires HeaderText(o.headers, "Content-Type") == Some(contentType)
    requires HeaderText(o.headers, "Host") == Some(host)
    requires HeaderText(o.headers, "X-Content-Sha256") == Some(HashSha256(p, o.body))
    requires var scope := CredentialScope(xDate[..8], region, service);
      var canonical := CanonicalRequest(o.verb, Path, CanonicalQuery(o.params), contentType, host,
                                        HashSha256(p, o.body), xDate);
      HeaderText(o.headers, "Authorization") == Some(AuthorizationValue(accessKey, scope,
        Hex(HmacSha256(p, SigningKey(p, secret, xDate[..8], region, service),
                       StringToSign(xDate, scope, HashSha256(p, canonical))))))
    ensures Verifies(p, accessKey, secret, o)
  {
    var scope := CredentialScope(xDate[..8], region, service);
    var canonical := CanonicalRequest(o.verb, Path, CanonicalQuery(o.params), contentType, host,
                                      HashSha256(p, o.body), xDate);
    var signature := Hex(HmacSha256(p, SigningKey(p, secret, xDate[..8], region, service),
                                    StringToSign(xDate, scope, HashSha256(p, canonical))));
    AuthorizationRoundTrip(accessKey, scope, signature);
    SplitCredential(accessKey, xDate[..8], region, service);
    var fields := Split(accessKey + "/" + scope, '/');
    assert fields[|fields| - 4..] == [xDate[..8], region, service, ScopeTerminator];
  }

  /** Every request `request` signs passes the server's check with the keys it
      was signed with: what is transmitted is enough to recompute the signature. */
  lemma SignedRequestVerifies(p: Primitives, verb: string, date: DateTime, query: Dict<QueryValue>, header: Headers,
                              accessKey: string, secret: string, token: Option<string>, action: string,
                              body: Option<string>, region: Option<string>, o: Outbound)
    requires Valid(date) && (region.Some? ==> '/' !in region.value)
    requires Sign(p, verb, date, query, header, Some(accessKey), Some(secret), token, action, body, region) == Ok(o)
    ensures Verifies(p, accessKey, secret, o)
  {
    var c := CredentialFor(Some(accessKey), Some(secret), token, action, region);
    var rp := ParamFor(verb, date, query, action, body);
    CredentialForKeys(accessKey, secret, token, action, region);
    AuthorizeVerifies(p, c, rp, header, token, o);
  }

  lemma CredentialForKeys(accessKey: string, secret: string, token: Option<string>, action: string,
                          region: Option<string>)
    requires region.Some? ==> '/' !in region.value
    ensures var c := CredentialFor(Some(accessKey), Some(secret), token, action, region);
      c.accessKeyId == Some(accessKey) && c.secretAccessKey == Some(secret) && '/' !in c.region && '/' !in c.service
  {
    SlashFreeConstants();
  }

  /** The same, one layer down: any call `Authorize` signs with a `/`-free
      region and service passes the check. */
  lemma AuthorizeVerifies(p: Primitives, c: Credential, rp: RequestParam, header: Headers, token: Option<string>,
                          o: Outbound)
    requires Valid(rp.date) && rp.body.Some? && c.secretAccessKey.Some? && c.accessKeyId.Some?
    requires '/' !in c.region && '/' !in c.service && rp.path == Path
    requires Authorize(p, c, rp, header, token) == Ok(o)
    ensures Verifies(p, c.accessKeyId.value, c.secretAccessKey.value, o)
  {
    var dv := Derive(p, c, rp);
    AuthorizeHeaders(p, c, rp, header, token);
    XDateAvoids(rp.date, '/');
    assert o.verb == rp.verb && o.params == rp.query && o.body == rp.body.value;
    VerifiesWhen(p, c.accessKeyId.value, c.secretAccessKey.value, o, dv.xDate, rp.contentType, rp.host,
                 c.region, c.service);
  }
}
