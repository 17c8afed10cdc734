/**
 * OAuth 1.0 signing as `SignedParameterSet10Impl` computes it: the normalized
 * parameter string and signature base string of RFC 5849 section 3.4.1, the
 * signing key of section 3.4.2, and the signature-method switch. HMAC-SHA1 with
 * its Base64 rendering is a function parameter.
 */
module OAuthSignature {
  import opened Text
  import opened Results
  import opened NameValues
  import opened Ordinal
  import opened HttpUtil

  /** What signing reads from a parameter set: its nine fields plus the nonce and timestamp. */
  datatype SigningInput = SigningInput(
    consumerKey: string,
    consumerSecret: string,
    token: string,
    tokenSecret: string,
    oauthVersion: string,
    signatureMethod: string,
    url: string,
    requestMethod: string,
    postData: seq<Entry>,
    nonce: string,
    timestamp: string)

  const HmacSha1: string := "HMAC-SHA1"

  /** `AddOAuthParameters`: six `name=value` entries, values not escaped. */
  function OAuthParameters(p: SigningInput): (r: seq<string>)
    ensures |r| == 6
  {
    ["oauth_version=" + p.oauthVersion,
     "oauth_consumer_key=" + p.consumerKey,
     "oauth_nonce=" + p.nonce,
     "oauth_signature_method=" + p.signatureMethod,
     "oauth_timestamp=" + p.timestamp,
     "oauth_token=" + p.token]
  }

  /** `AddPostParameters`: one `Esc(key)=Esc(value)` entry per key, in key order. */
  function PostParameters(postData: seq<Entry>): (r: seq<string>)
    ensures |r| == |postData|
  {
    FormPairs(Flattened(postData))
  }

  /** The i-th POST entry: the i-th key and its joined values, each escaped. */
  lemma PostParametersAt(postData: seq<Entry>, i: nat)
    requires i < |postData|
    ensures PostParameters(postData)[i] == Esc(postData[i].key) + "=" + Esc(Join(",", postData[i].values))
  {
    FormPairsAt(Flattened(postData), i);
    FlattenedAt(postData, i);
  }

  /** `AddGetParameters`: the non-empty '&'-segments of the query, copied as they are. */
  function GetParameters(url: string): seq<string>
  {
    SplitNonEmpty(GetQueryString(url), '&')
  }

  /** The list before sorting: OAuth entries, then POST entries, then GET entries. */
  function ParameterList(p: SigningInput): seq<string>
  {
    OAuthParameters(p) + PostParameters(p.postData) + GetParameters(p.url)
  }

  /** `GetNormalizedRequestParameters`: the list sorted and joined with '&'. */
  function NormalizedParameters(p: SigningInput): string
  {
    Join("&", Sort(ParameterList(p)))
  }

  /** `GetBaseString`: METHOD & Esc(URL without query) & Esc(normalized parameters). */
  function BaseString(p: SigningInput): string
  {
    ToUpper(p.requestMethod) + "&" + Esc(RemoveQueryString(p.url)) + "&" + Esc(NormalizedParameters(p))
  }

  /** The HMAC-SHA1 key: Esc(consumer secret) & Esc(token secret). */
  function SigningKey(p: SigningInput): string
  {
    Esc(p.consumerSecret) + "&" + Esc(p.tokenSecret)
  }

  /**
   * The `Signature` getter. `hmacBase64(key, text)` stands for the Base64 rendering of
   * HMAC-SHA1 over the ASCII bytes of `text` with the ASCII bytes of `key`.
   */
  function Signature(p: SigningInput, hmacBase64: (string, string) -> string): (r: Result<string>)
    ensures r.Success? <==> p.signatureMethod == HmacSha1
    ensures r.Success? ==> r.value == hmacBase64(SigningKey(p), BaseString(p))
    ensures r.Failure? ==>
      r.error == ApplicationException("Signature method " + p.signatureMethod + " is not supported")
  {
    if p.signatureMethod == HmacSha1 then Success(hmacBase64(SigningKey(p), BaseString(p)))
    else Failure(ApplicationException("Signature method " + p.signatureMethod + " is not supported"))
  }

  // ---------------------------------------------------------------------------
  // Properties

  /** The sorted list holds exactly the six OAuth entries, the POST entries and the GET segments. */
  lemma SortedParameterList(p: SigningInput)
    ensures Sorted(Sort(ParameterList(p)))
    ensures |Sort(ParameterList(p))| == 6 + |p.postData| + |GetParameters(p.url)|
    ensures multiset(Sort(ParameterList(p))) ==
      multiset(OAuthParameters(p)) + multiset(PostParameters(p.postData)) + multiset(GetParameters(p.url))
  {
  }

  /** Pairs that are a permutation of each other give form entries that are a permutation too. */
  lemma {:induction false} FormPairsPermutation(a: seq<(string, string)>, b: seq<(string, string)>)
    requires multiset(a) == multiset(b)
    ensures multiset(FormPairs(a)) == multiset(FormPairs(b))
    decreases |a|
  {
    if a == [] {
      assert |b| == |multiset(b)| == 0;
    } else {
      var x := a[0];
      assert x in multiset(b);
      var j :| 0 <= j < |b| && b[j] == x;
      var rest := b[..j] + b[j + 1..];
      assert b == b[..j] + [x] + b[j + 1..];
      assert a == [x] + a[1..];
      assert multiset(b) == multiset(b[..j]) + multiset{x} + multiset(b[j + 1..]);
      assert multiset(rest) == multiset(b[..j]) + multiset(b[j + 1..]);
      assert multiset(a) == multiset{x} + multiset(a[1..]);
      assert multiset(a[1..]) == multiset(a) - multiset{x};
      assert multiset(rest) == multiset(b) - multiset{x};
      FormPairsPermutation(a[1..], rest);
      FormPairsConcat(b[..j] + [x], b[j + 1..]);
      FormPairsConcat(b[..j], [x]);
      FormPairsConcat(b[..j], b[j + 1..]);
      FormPairsConcat([x], a[1..]);
      var fx := FormPairs([x]);
      assert FormPairs(b) == FormPairs(b[..j]) + fx + FormPairs(b[j + 1..]);
      assert FormPairs(rest) == FormPairs(b[..j]) + FormPairs(b[j + 1..]);
      assert FormPairs(a) == fx + FormPairs(a[1..]);
    }
  }

  /**
   * The normalized string does not depend on the order the POST pairs were added in
   * nor on the order of the query's segments.
   */
  lemma NormalizedOrderIndependent(p: SigningInput, q: SigningInput)
    requires OAuthParameters(p) == OAuthParameters(q)
    requires multiset(Flattened(p.postData)) == multiset(Flattened(q.postData))
    requires multiset(GetParameters(p.url)) == multiset(GetParameters(q.url))
    ensures NormalizedParameters(p) == NormalizedParameters(q)
  {
    FormPairsPermutation(Flattened(p.postData), Flattened(q.postData));
    SortPermutationInvariant(ParameterList(p), ParameterList(q));
  }

  /** None of the escaped parts contains '&'. */
  lemma EscNoAmpersand(s: string)
    ensures '&' !in Esc(s)
  {
    EscAlphabet(s);
  }

  lemma ToUpperNoAmpersand(s: string)
    requires '&' !in s
    ensures '&' !in ToUpper(s)
  {
    var u := ToUpper(s);
    forall i | 0 <= i < |u| ensures u[i] != '&' {
      assert u[i] == UpperChar(s[i]);
    }
  }

  /** Three '&'-free strings joined by '&' split back into those three. */
  lemma SplitThree(m: string, u: string, n: string)
    requires '&' !in m && '&' !in u && '&' !in n
    ensures Split(m + "&" + u + "&" + n, '&') == [m, u, n]
  {
    JoinCons("&", m, [u, n]);
    JoinCons("&", u, [n]);
    assert [m, u, n][1..] == [u, n];
    assert [u, n][1..] == [n];
    assert Join("&", [m, u, n]) == m + "&" + u + "&" + n;
    SplitJoin([m, u, n], '&');
  }

  /**
   * RFC 5849 section 3.4.1.1: for a method without '&', the base string splits at '&'
   * into exactly its three parts, and the last two decode to the URL without its
   * query and to the normalized parameters.
   */
  lemma BaseStringParts(p: SigningInput)
    requires '&' !in p.requestMethod
    ensures Split(BaseString(p), '&') ==
      [ToUpper(p.requestMethod), Esc(RemoveQueryString(p.url)), Esc(NormalizedParameters(p))]
    ensures UnescapeDataString(Split(BaseString(p), '&')[1]) == RemoveQueryString(p.url)
    ensures UnescapeDataString(Split(BaseString(p), '&')[2]) == NormalizedParameters(p)
  {
    ToUpperNoAmpersand(p.requestMethod);
    EscNoAmpersand(RemoveQueryString(p.url));
    EscNoAmpersand(NormalizedParameters(p));
    SplitThree(ToUpper(p.requestMethod), Esc(RemoveQueryString(p.url)), Esc(NormalizedParameters(p)));
    UnescapeEsc(NormalizedParameters(p));
    UnescapeEsc(RemoveQueryString(p.url));
  }

  /** RFC 5849 section 3.4.2: the key splits at '&' into the two escaped secrets, which decode back. */
  lemma SigningKeyParts(p: SigningInput)
    ensures Split(SigningKey(p), '&') == [Esc(p.consumerSecret), Esc(p.tokenSecret)]
    ensures UnescapeDataString(Split(SigningKey(p), '&')[0]) == p.consumerSecret
    ensures UnescapeDataString(Split(SigningKey(p), '&')[1]) == p.tokenSecret
  {
    var c, t := Esc(p.consumerSecret), Esc(p.tokenSecret);
    EscNoAmpersand(p.consumerSecret);
    EscNoAmpersand(p.tokenSecret);
    JoinCons("&", c, [t]);
    assert [c, t][1..] == [t];
    SplitJoin([c, t], '&');
    UnescapeEsc(p.consumerSecret);
    UnescapeEsc(p.tokenSecret);
  }
}
