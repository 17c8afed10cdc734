/**
 * `SignedParameterSet10Impl`: a copy of a request's parameter set together with a
 * nonce and a timestamp fixed at construction, and the methods that collect, sort
 * and join the parameters, build the base string and compute the signature.
 */
module SignedParameters {
  import opened Text
  import opened Results
  import opened NameValues
  import opened Ordinal
  import opened HttpUtil
  import opened OAuthSignature
  import opened RandomString
  import opened ParameterSets

  const NonceLength: nat := 11

  /** The `List<string>` the `Add*Parameters` methods append to. */
  class ParamList {
    var items: seq<string>

    constructor ()
      ensures items == []
    {
      items := [];
    }

    method Add(item: string)
      modifies this
      ensures items == old(items) + [item]
    {
      items := items + [item];
    }

    /** `Sort(...)` with the ordinal comparison. */
    method SortItems()
      modifies this
      ensures items == Sort(old(items))
    {
      items := Sort(items);
    }
  }

  class SignedParameterSet10 {
    var url: string
    var requestMethod: string
    var postData: NameValueCollection
    var oauthVersion: string
    var consumerKey: string
    var consumerSecret: string
    var token: string
    var tokenSecret: string
    var signatureMethod: string

    const random: RandomStringImpl
    /** Drawn once, in the constructor; every read of `Nonce` returns it. */
    const nonce: string
    /** Read from the clock once, in the constructor; every read of `Timestamp` returns it. */
    const timestamp: string

    /**
     * Copies the nine fields of `baseParams` (sharing its PostData), draws an 11-letter
     * nonce and renders the clock's epoch seconds in decimal.
     */
    constructor (baseParams: HttpParameterSet, random: RandomStringImpl, epochTotalSeconds: int)
      modifies random.random
      ensures url == baseParams.url && requestMethod == baseParams.requestMethod
      ensures postData == baseParams.postData
      ensures oauthVersion == baseParams.oauthVersion && signatureMethod == baseParams.signatureMethod
      ensures consumerKey == baseParams.consumerKey && consumerSecret == baseParams.consumerSecret
      ensures token == baseParams.token && tokenSecret == baseParams.tokenSecret
      ensures this.random == random
      ensures nonce == RandomText(random.random.draw, old(random.random.calls), NonceLength)
      ensures random.random.calls == old(random.random.calls) + NonceLength
      ensures timestamp == IntToString(epochTotalSeconds)
    {
      url := baseParams.url;
      requestMethod := baseParams.requestMethod;
      postData := baseParams.postData;
      oauthVersion := baseParams.oauthVersion;
      consumerKey := baseParams.consumerKey;
      consumerSecret := baseParams.consumerSecret;
      token := baseParams.token;
      tokenSecret := baseParams.tokenSecret;
      signatureMethod := baseParams.signatureMethod;
      this.random := random;
      var n := random.NextRandomString(NonceLength);
      nonce := n;
      timestamp := IntToString(epochTotalSeconds);
    }

    /** What signing reads from this set right now. */
    function Input(): SigningInput
      reads this, postData
    {
      SigningInput(consumerKey, consumerSecret, token, tokenSecret, oauthVersion, signatureMethod,
        url, requestMethod, postData.entries, nonce, timestamp)
    }

    method AddOAuthParameters(paramList: ParamList)
      modifies paramList
      ensures paramList.items == old(paramList.items) + OAuthParameters(Input())
    {
      paramList.Add("oauth_version=" + oauthVersion);
      paramList.Add("oauth_consumer_key=" + consumerKey);
      paramList.Add("oauth_nonce=" + nonce);
      paramList.Add("oauth_signature_method=" + signatureMethod);
      paramList.Add("oauth_timestamp=" + timestamp);
      paramList.Add("oauth_token=" + token);
    }

    method AddPostParameters(paramList: ParamList)
      requires postData.Valid()
      modifies paramList
      ensures paramList.items == old(paramList.items) + PostParameters(postData.entries)
    {
      var entries := postData.entries;
      ghost var before := paramList.items;
      var keys := Keys(entries);
      for i := 0 to |keys|
        invariant paramList.items == before + PostParameters(entries)[..i]
      {
        var key := keys[i];
        var value := postData.Item(key).value;
        PostStep(entries, i, before, paramList.items);
        paramList.Add(Esc(key) + "=" + Esc(value));
      }
      SnocSlice(PostParameters(entries), |keys|);
    }

    method AddGetParameters(paramList: ParamList)
      modifies paramList
      ensures paramList.items == old(paramList.items) + GetParameters(url)
    {
      var queryString := GetQueryString(url);
      var getParams := SplitNonEmpty(queryString, '&');
      for i := 0 to |getParams|
        invariant paramList.items == old(paramList.items) + getParams[..i]
      {
        paramList.Add(getParams[i]);
        SnocSlice(getParams, i);
      }
      SnocSlice(getParams, |getParams|);
    }

    /** Collects the OAuth, POST and GET entries, sorts them and joins them with '&'. */
    method GetNormalizedRequestParameters() returns (r: string)
      requires postData.Valid()
      ensures r == NormalizedParameters(Input())
    {
      ghost var p := Input();
      var paramList := new ParamList();
      AddOAuthParameters(paramList);
      assert paramList.items == OAuthParameters(p);
      AddPostParameters(paramList);
      assert paramList.items == OAuthParameters(p) + PostParameters(p.postData);
      AddGetParameters(paramList);
      assert paramList.items == ParameterList(p);
      paramList.SortItems();
      r := Join("&", paramList.items);
    }

    method GetBaseString() returns (r: string)
      requires postData.Valid()
      ensures r == BaseString(Input())
    {
      var requestMethodUpper := ToUpper(requestMethod);
      var normalized := GetNormalizedRequestParameters();
      var absoluteUrl := RemoveQueryString(url);
      r := requestMethodUpper + "&" + Esc(absoluteUrl) + "&" + Esc(normalized);
    }

    /** The `Signature` getter; the method is checked when it is read, not when the set is built. */
    method Signature(hmacBase64: (string, string) -> string) returns (r: Result<string>)
      requires postData.Valid()
      ensures r == OAuthSignature.Signature(Input(), hmacBase64)
    {
      if signatureMethod == "HMAC-SHA1" {
        var baseString := GetBaseString();
        var key := Esc(consumerSecret) + "&" + Esc(tokenSecret);
        r := Success(hmacBase64(key, baseString));
      } else {
        r := Failure(ApplicationException("Signature method " + signatureMethod + " is not supported"));
      }
    }
  }

  /** Appending the entry for the i-th key extends the collected POST entries by one. */
  lemma PostStep(entries: seq<Entry>, i: nat, before: seq<string>, items: seq<string>)
    requires WellFormed(entries) && i < |entries|
    requires items == before + PostParameters(entries)[..i]
    ensures Get(entries, entries[i].key).Some?
    ensures items + [Esc(entries[i].key) + "=" + Esc(Get(entries, entries[i].key).value)] ==
      before + PostParameters(entries)[..i + 1]
  {
    GetOwnKey(entries, i);
    PostParametersAt(entries, i);
    AppendNext(before, PostParameters(entries), i, items);
  }

  /** After a prefix of `s`, the next element of `s` extends the prefix by one. */
  lemma AppendNext(before: seq<string>, s: seq<string>, i: nat, items: seq<string>)
    requires i < |s| && items == before + s[..i]
    ensures items + [s[i]] == before + s[..i + 1]
  {
    assert s[..i + 1] == s[..i] + [s[i]];
  }

  lemma SnocSlice(s: seq<string>, i: nat)
    requires i <= |s|
    ensures i < |s| ==> s[..i + 1] == s[..i] + [s[i]]
    ensures i == |s| ==> s[..i] == s
  {
  }

  /** The nonce has 11 letters, none of them 'V' or 'v'; the timestamp reads back as the clock value. */
  lemma NonceAndTimestamp(draw: nat -> nat, start: nat, epochTotalSeconds: int)
    ensures |RandomText(draw, start, NonceLength)| == 11
    ensures forall i :: 0 <= i < NonceLength ==> RandomText(draw, start, NonceLength)[i] in CHARS
    ensures ParseInt(IntToString(epochTotalSeconds)) == epochTotalSeconds
  {
    ParseIntToString(epochTotalSeconds);
  }
}
