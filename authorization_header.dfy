/**
 * `AuthorizationHeader`: the version switch of `Create` and the OAuth 1.0
 * `Authorization` header of RFC 5849 section 3.5.1 that `OAuthAuthorizationHeader10`
 * renders from one signed parameter set.
 */
module AuthorizationHeaders {
  import opened Text
  import opened Results
  import opened Ordinal
  import opened HttpUtil
  import opened OAuthSignature
  import opened RandomString
  import opened ParameterSets
  import opened SignedParameters
  import opened SigningFixture

  const SupportedVersion: string := "1.0"

  /** The exception `Create` throws for a version, or None for the one it supports. */
  function VersionError(version: string): (r: Option<Exception>)
    ensures r.None? <==> version == SupportedVersion
  {
    if version == SupportedVersion then None
    else Some(ApplicationException("Version " + version + " is not supported"))
  }

  /** Only "1.0" is accepted: "1.0a", and the "" a default-constructed parameter set holds, are not. */
  lemma VersionExamples()
    ensures VersionError("1.0") == None
    ensures VersionError("1.0a").Some?
    ensures VersionError("").Some?
  {
    assert "1.0a" != SupportedVersion by { assert |"1.0a"| == 4; }
  }

  /** One `name="value"` field, the value escaped. */
  function HeaderField(name: string, value: string): string
  {
    name + "=\"" + Esc(value) + "\""
  }

  /** The seven fields, in the order the header writes them. */
  function HeaderFields(p: SigningInput, signature: string): (r: seq<string>)
    ensures |r| == 7
  {
    [HeaderField("oauth_signature", signature),
     HeaderField("oauth_nonce", p.nonce),
     HeaderField("oauth_signature_method", p.signatureMethod),
     HeaderField("oauth_timestamp", p.timestamp),
     HeaderField("oauth_consumer_key", p.consumerKey),
     HeaderField("oauth_token", p.token),
     HeaderField("oauth_version", p.oauthVersion)]
  }

  const HeaderPrefix: string := "OAuth realm=\"\","

  /** `GetHeaderString`: the realm, then the seven fields separated by commas, none after the last. */
  function HeaderString(p: SigningInput, signature: string): string
  {
    HeaderPrefix + Join(",", HeaderFields(p, signature))
  }

  /** The header, or the exception reading the signature throws. */
  function HeaderResult(p: SigningInput, hmacBase64: (string, string) -> string): (r: Result<string>)
    ensures r.Success? <==> p.signatureMethod == HmacSha1
    ensures r.Success? ==> r.value == HeaderString(p, hmacBase64(SigningKey(p), BaseString(p)))
    ensures r.Failure? ==> r.error == ApplicationException("Signature method " + p.signatureMethod + " is not supported")
  {
    match OAuthSignature.Signature(p, hmacBase64)
    case Success(signature) => Success(HeaderString(p, signature))
    case Failure(e) => Failure(e)
  }

  /** One more field appended after a trailing comma extends the comma-joined list by that field. */
  lemma AppendStep(prefix: string, f: seq<string>, k: nat, sb: string)
    requires 0 < k < |f|
    requires sb == prefix + Join(",", f[..k]) + ","
    ensures sb + f[k] == prefix + Join(",", f[..k + 1])
    ensures sb + f[k] + "," == prefix + Join(",", f[..k + 1]) + ","
  {
    assert f[..k + 1] == f[..k] + [f[k]];
    NameValues.JoinSnoc(",", f[..k], f[k]);
  }

  /** Seven fields appended, each but the last with a trailing comma: the comma-joined list. */
  lemma AppendsJoin(prefix: string, a: string, b: string, c: string, d: string, e: string, g: string, h: string)
    ensures prefix + a + "," + b + "," + c + "," + d + "," + e + "," + g + "," + h ==
      prefix + Join(",", [a, b, c, d, e, g, h])
  {
    var f := [a, b, c, d, e, g, h];
    assert f[..1] == [a];
    AppendStep(prefix, f, 1, prefix + a + ",");
    AppendStep(prefix, f, 2, prefix + a + "," + b + ",");
    AppendStep(prefix, f, 3, prefix + a + "," + b + "," + c + ",");
    AppendStep(prefix, f, 4, prefix + a + "," + b + "," + c + "," + d + ",");
    AppendStep(prefix, f, 5, prefix + a + "," + b + "," + c + "," + d + "," + e + ",");
    AppendStep(prefix, f, 6, prefix + a + "," + b + "," + c + "," + d + "," + e + "," + g + ",");
    assert f[..7] == f;
  }

  /** A field never contains a comma: escaped values have none. */
  lemma FieldNoComma(name: string, value: string)
    requires ',' !in name
    ensures ',' !in HeaderField(name, value)
  {
    EscAlphabet(value);
    var e := Esc(value);
    var f := HeaderField(name, value);
    assert f == name + ("=\"" + e + "\"");
    forall i | 0 <= i < |f| ensures f[i] != ',' {
      if i >= |name| + 2 && i < |name| + 2 + |e| {
        assert f[i] == e[i - |name| - 2];
      }
    }
  }

  /** RFC 5849 section 3.5.1: splitting after the realm at ',' gives back exactly the seven fields, in order. */
  lemma HeaderFieldsSplit(p: SigningInput, signature: string)
    ensures HeaderString(p, signature)[..|HeaderPrefix|] == HeaderPrefix
    ensures Split(HeaderString(p, signature)[|HeaderPrefix|..], ',') == HeaderFields(p, signature)
  {
    var f := HeaderFields(p, signature);
    FieldNoComma("oauth_signature", signature);
    FieldNoComma("oauth_nonce", p.nonce);
    FieldNoComma("oauth_signature_method", p.signatureMethod);
    FieldNoComma("oauth_timestamp", p.timestamp);
    FieldNoComma("oauth_consumer_key", p.consumerKey);
    FieldNoComma("oauth_token", p.token);
    FieldNoComma("oauth_version", p.oauthVersion);
    assert forall i :: 0 <= i < |f| ==> ',' !in f[i];
    SplitJoin(f, ',');
    var h := HeaderString(p, signature);
    assert h[|HeaderPrefix|..] == Join(",", f);
  }

  /** Each field's value part decodes back to the value it was rendered from. */
  lemma HeaderFieldDecodes(name: string, value: string)
    ensures var f := HeaderField(name, value);
      |f| >= |name| + 3 && f[..|name|] == name && f[|name|..|name| + 2] == "=\"" && f[|f| - 1] == '"' &&
      UnescapeDataString(f[|name| + 2..|f| - 1]) == value
  {
    var f := HeaderField(name, value);
    assert f[|name| + 2..|f| - 1] == Esc(value);
    UnescapeEsc(value);
  }

  /** The header's nonce field carries the nonce whose `oauth_nonce` entry the signature covers. */
  lemma HeaderNonceSigned(p: SigningInput, signature: string)
    ensures HeaderFields(p, signature)[1] == HeaderField("oauth_nonce", p.nonce)
    ensures "oauth_nonce=" + p.nonce in Sort(ParameterList(p))
  {
    assert HeaderFields(p, signature)[1] == HeaderField("oauth_nonce", p.nonce);
    OAuthEntrySigned(p, 2);
  }

  /** The header's timestamp field carries the timestamp whose `oauth_timestamp` entry the signature covers. */
  lemma HeaderTimestampSigned(p: SigningInput, signature: string)
    ensures HeaderFields(p, signature)[3] == HeaderField("oauth_timestamp", p.timestamp)
    ensures "oauth_timestamp=" + p.timestamp in Sort(ParameterList(p))
  {
    assert HeaderFields(p, signature)[3] == HeaderField("oauth_timestamp", p.timestamp);
    OAuthEntrySigned(p, 4);
  }

  /** Every OAuth entry is among the sorted parameters the signature covers. */
  lemma OAuthEntrySigned(p: SigningInput, k: nat)
    requires k < 6
    ensures OAuthParameters(p)[k] in Sort(ParameterList(p))
  {
    var l := ParameterList(p);
    assert l[k] == OAuthParameters(p)[k];
    assert l[k] in multiset(l);
    assert multiset(Sort(l)) == multiset(l);
  }

  /** Escaping distributes over a piece, one more character, and an unreserved piece. */
  lemma EscThen(x: string, c: string, y: string)
    requires AllUnreserved(y)
    ensures Esc(x + c + y) == Esc(x) + Esc(c) + y
  {
    EscUnreserved(y);
    EscapeConcat(x, c, {});
    EscapeConcat(x + c, y, {});
  }

  /** A Base64 signature escapes only its '/', '+' and '=' characters. */
  lemma EscBase64Shape(a: string, b: string, c: string)
    requires AllUnreserved(a) && AllUnreserved(b) && AllUnreserved(c)
    ensures Esc(a + "/" + b + "+" + c + "=") == a + "%2F" + b + "%2B" + c + "%3D"
  {
    EscDelimiters();
    EscThen(a, "/", b);
    EscUnreserved(a);
    EscThen(a + "/" + b, "+", c);
    EscThen(a + "/" + b + "+" + c, "=", "");
    assert a + "/" + b + "+" + c + "=" + "" == a + "/" + b + "+" + c + "=";
  }

  /** The signature field of the GET test header: the Base64 signature with '/', '+' and '=' escaped. */
  lemma SignatureFieldExample()
    ensures HeaderField("oauth_signature", "1597pqb8c9xEm3kkGX" + "/" + "fGc" + "+" + "TbHU" + "=") ==
      "oauth_signature" + "=\"" + ("1597pqb8c9xEm3kkGX" + "%2F" + "fGc" + "%2B" + "TbHU" + "%3D") + "\""
  {
    assert AllUnreserved("1597pqb8c9xEm3kkGX") && AllUnreserved("fGc") && AllUnreserved("TbHU");
    EscBase64Shape("1597pqb8c9xEm3kkGX", "fGc", "TbHU");
  }

  /** `OAuthAuthorizationHeader10`: a header over one signed parameter set built at construction. */
  class OAuthAuthorizationHeader10 {
    const parameters: SignedParameterSet10

    /** Builds the signed set (`CreateSignedParameterSet`) from a nonce generator and a clock reading. */
    constructor (baseParams: HttpParameterSet, random: RandomStringImpl, epochTotalSeconds: int)
      modifies random.random
      ensures fresh(parameters)
      ensures parameters.url == baseParams.url && parameters.requestMethod == baseParams.requestMethod
      ensures parameters.postData == baseParams.postData
      ensures parameters.oauthVersion == baseParams.oauthVersion
      ensures parameters.signatureMethod == baseParams.signatureMethod
      ensures parameters.consumerKey == baseParams.consumerKey
      ensures parameters.consumerSecret == baseParams.consumerSecret
      ensures parameters.token == baseParams.token && parameters.tokenSecret == baseParams.tokenSecret
      ensures parameters.nonce == RandomText(random.random.draw, old(random.random.calls), NonceLength)
      ensures parameters.timestamp == IntToString(epochTotalSeconds)
      ensures random.random.calls == old(random.random.calls) + NonceLength
    {
      parameters := new SignedParameterSet10(baseParams, random, epochTotalSeconds);
    }

    /** `GetHeaderString`: reads the signature, then appends the realm and the seven fields. */
    method GetHeaderString(hmacBase64: (string, string) -> string) returns (r: Result<string>)
      requires parameters.postData.Valid()
      ensures r == HeaderResult(parameters.Input(), hmacBase64)
    {
      var signature := parameters.Signature(hmacBase64);
      if signature.Failure? {
        return Failure(signature.error);
      }
      var signatureField := HeaderField("oauth_signature", signature.value);
      var nonceField := HeaderField("oauth_nonce", parameters.nonce);
      var methodField := HeaderField("oauth_signature_method", parameters.signatureMethod);
      var timestampField := HeaderField("oauth_timestamp", parameters.timestamp);
      var consumerKeyField := HeaderField("oauth_consumer_key", parameters.consumerKey);
      var tokenField := HeaderField("oauth_token", parameters.token);
      var versionField := HeaderField("oauth_version", parameters.oauthVersion);
      var sb := HeaderPrefix;
      sb := sb + signatureField + ",";
      sb := sb + nonceField + ",";
      sb := sb + methodField + ",";
      sb := sb + timestampField + ",";
      sb := sb + consumerKeyField + ",";
      sb := sb + tokenField + ",";
      sb := sb + versionField;
      AppendsJoin(HeaderPrefix, signatureField, nonceField, methodField, timestampField,
        consumerKeyField, tokenField, versionField);
      r := Success(sb);
    }
  }

  /**
   * `AuthorizationHeader.Create`: a header for version "1.0", otherwise the
   * "Version ... is not supported" exception, before any nonce is drawn.
   */
  method Create(parameters: HttpParameterSet, random: RandomStringImpl, epochTotalSeconds: int)
    returns (r: Result<OAuthAuthorizationHeader10>)
    modifies random.random
    ensures r.Success? <==> VersionError(parameters.oauthVersion).None?
    ensures r.Failure? ==> r.error == VersionError(parameters.oauthVersion).value
    ensures r.Failure? ==> random.random.calls == old(random.random.calls)
    ensures r.Success? ==> random.random.calls == old(random.random.calls) + NonceLength
    ensures r.Success? ==> r.value.parameters.postData == parameters.postData
    ensures r.Success? ==> fresh(r.value.parameters) && r.value.parameters.Input() == SigningInput(
      parameters.consumerKey, parameters.consumerSecret, parameters.token, parameters.tokenSecret,
      parameters.oauthVersion, parameters.signatureMethod, parameters.url, parameters.requestMethod,
      parameters.postData.entries,
      RandomText(random.random.draw, old(random.random.calls), NonceLength),
      IntToString(epochTotalSeconds))
    ensures unchanged(parameters, parameters.postData)
  {
    if parameters.oauthVersion == "1.0" {
      var header := new OAuthAuthorizationHeader10(parameters, random, epochTotalSeconds);
      r := Success(header);
    } else {
      r := Failure(ApplicationException("Version " + parameters.oauthVersion + " is not supported"));
    }
  }
}
