/**
 * The GET request of the signing unit test: its normalized parameter string and
 * its signature base string, derived from the definitions in `OAuthSignature`.
 * The long expected strings are written as concatenations of their entries; each
 * equals the corresponding single literal of the test.
 */
module SigningFixture {
  import opened Text
  import opened NameValues
  import opened Ordinal
  import opened HttpUtil
  import opened OAuthSignature

  const FixturePath: string := "http://www.gant.com/test"
  const FixtureQuery: string := ("first" + "=" + "value1") + "&" + ("second" + "=" + "value2")
  const FixtureUrl: string := FixturePath + "?" + FixtureQuery

  const Fixture: SigningInput := SigningInput(
    "consumerKey", "consumerSecret", "token", "tokenSecret", "1.0", "HMAC-SHA1",
    FixtureUrl, "GET", [], "fixedString", "100000")

  /** The fixture's name/value pairs in ordinal order of their entries. */
  const SortedPairs: seq<(string, string)> := [
    ("first", "value1"), ("oauth_consumer_key", "consumerKey"), ("oauth_nonce", "fixedString"),
    ("oauth_signature_method", "HMAC-SHA1"), ("oauth_timestamp", "100000"), ("oauth_token", "token"),
    ("oauth_version", "1.0"), ("second", "value2")]

  /** The fixture's entries `name=value` in ordinal order. */
  const SortedEntries: seq<string> := [
    "first" + "=" + "value1", "oauth_consumer_key" + "=" + "consumerKey",
    "oauth_nonce" + "=" + "fixedString", "oauth_signature_method" + "=" + "HMAC-SHA1",
    "oauth_timestamp" + "=" + "100000", "oauth_token" + "=" + "token",
    "oauth_version" + "=" + "1.0", "second" + "=" + "value2"]

  /** The same entries with their '=' escaped. */
  const EscapedEntries: seq<string> := [
    "first" + "%3D" + "value1", "oauth_consumer_key" + "%3D" + "consumerKey",
    "oauth_nonce" + "%3D" + "fixedString", "oauth_signature_method" + "%3D" + "HMAC-SHA1",
    "oauth_timestamp" + "%3D" + "100000", "oauth_token" + "%3D" + "token",
    "oauth_version" + "%3D" + "1.0", "second" + "%3D" + "value2"]

  /** The test's expected normalized parameters. */
  const ExpectedNormalized: string :=
    ("first" + "=" + "value1") + "&" +
    ("oauth_consumer_key" + "=" + "consumerKey") + "&" +
    ("oauth_nonce" + "=" + "fixedString") + "&" +
    ("oauth_signature_method" + "=" + "HMAC-SHA1") + "&" +
    ("oauth_timestamp" + "=" + "100000") + "&" +
    ("oauth_token" + "=" + "token") + "&" +
    ("oauth_version" + "=" + "1.0") + "&" +
    ("second" + "=" + "value2")

  const EscapedPath: string := "http" + "%3A" + "%2F" + "%2F" + "www.gant.com" + "%2F" + "test"

  const EscapedNormalized: string :=
    ("first" + "%3D" + "value1") + "%26" +
    ("oauth_consumer_key" + "%3D" + "consumerKey") + "%26" +
    ("oauth_nonce" + "%3D" + "fixedString") + "%26" +
    ("oauth_signature_method" + "%3D" + "HMAC-SHA1") + "%26" +
    ("oauth_timestamp" + "%3D" + "100000") + "%26" +
    ("oauth_token" + "%3D" + "token") + "%26" +
    ("oauth_version" + "%3D" + "1.0") + "%26" +
    ("second" + "%3D" + "value2")

  /** The test's expected signature base string. */
  const ExpectedBaseString: string := "GET" + "&" + EscapedPath + "&" + EscapedNormalized

  /** Each pair written as name, separator, value. */
  function Entries(ps: seq<(string, string)>, sep: string): (r: seq<string>)
    ensures |r| == |ps|
    ensures forall i :: 0 <= i < |ps| ==> r[i] == ps[i].0 + sep + ps[i].1
  {
    if ps == [] then [] else [ps[0].0 + sep + ps[0].1] + Entries(ps[1..], sep)
  }

  /** Eight pieces joined, written out. */
  lemma JoinEight(sep: string, e: seq<string>)
    requires |e| == 8
    ensures Join(sep, e) == e[0] + sep + e[1] + sep + e[2] + sep + e[3] + sep + e[4] + sep + e[5] + sep + e[6] + sep + e[7]
  {
    assert e[..1] == [e[0]];
    for k := 1 to 8
      invariant Join(sep, e[..k]) == (
        if k == 1 then e[0]
        else if k == 2 then e[0] + sep + e[1]
        else if k == 3 then e[0] + sep + e[1] + sep + e[2]
        else if k == 4 then e[0] + sep + e[1] + sep + e[2] + sep + e[3]
        else if k == 5 then e[0] + sep + e[1] + sep + e[2] + sep + e[3] + sep + e[4]
        else if k == 6 then e[0] + sep + e[1] + sep + e[2] + sep + e[3] + sep + e[4] + sep + e[5]
        else if k == 7 then e[0] + sep + e[1] + sep + e[2] + sep + e[3] + sep + e[4] + sep + e[5] + sep + e[6]
        else e[0] + sep + e[1] + sep + e[2] + sep + e[3] + sep + e[4] + sep + e[5] + sep + e[6] + sep + e[7])
    {
      assert e[..k + 1] == e[..k] + [e[k]];
      JoinSnoc(sep, e[..k], e[k]);
    }
    assert e[..8] == e;
  }

  predicate AllUnreserved(s: string)
  {
    forall i :: 0 <= i < |s| ==> Unreserved(s[i])
  }

  lemma OAuthNamesUnreserved()
    ensures AllUnreserved("oauth_consumer_key") && AllUnreserved("oauth_nonce")
    ensures AllUnreserved("oauth_signature_method") && AllUnreserved("oauth_timestamp")
  {
  }

  lemma OtherNamesUnreserved()
    ensures AllUnreserved("first") && AllUnreserved("oauth_token")
    ensures AllUnreserved("oauth_version") && AllUnreserved("second")
  {
  }

  lemma FixtureNamesUnreserved()
    ensures forall j :: 0 <= j < |SortedPairs| ==> AllUnreserved(SortedPairs[j].0)
  {
    OAuthNamesUnreserved();
    OtherNamesUnreserved();
  }

  lemma KeyValuesUnreserved()
    ensures AllUnreserved("value1") && AllUnreserved("consumerKey") && AllUnreserved("fixedString")
    ensures AllUnreserved("value2")
  {
  }

  lemma OtherValuesUnreserved()
    ensures AllUnreserved("HMAC-SHA1") && AllUnreserved("100000") && AllUnreserved("token")
    ensures AllUnreserved("1.0")
  {
  }

  lemma FixtureValuesUnreserved()
    ensures forall j :: 0 <= j < |SortedPairs| ==> AllUnreserved(SortedPairs[j].1)
  {
    KeyValuesUnreserved();
    OtherValuesUnreserved();
  }

  /** Escaping entries of unreserved names and values only escapes the separators. */
  lemma {:induction false} EscJoinedEntries(ps: seq<(string, string)>)
    requires forall j :: 0 <= j < |ps| ==> AllUnreserved(ps[j].0) && AllUnreserved(ps[j].1)
    ensures Esc(Join("&", Entries(ps, "="))) == Join("%26", Entries(ps, "%3D"))
  {
    EscAsciiReserved('=');
    EscAsciiReserved('&');
    if ps != [] {
      var (k, v) := ps[0];
      EscUnreserved(k);
      EscUnreserved(v);
      EscapeConcat(k, "=", {});
      EscapeConcat(k + "=", v, {});
      var x := k + "=" + v;
      assert Esc(x) == k + "%3D" + v;
      if |ps| > 1 {
        var rest := Entries(ps[1..], "=");
        assert Entries(ps, "=") == [x] + rest;
        assert Entries(ps, "%3D") == [k + "%3D" + v] + Entries(ps[1..], "%3D");
        JoinCons("&", x, rest);
        JoinCons("%26", k + "%3D" + v, Entries(ps[1..], "%3D"));
        EscapeConcat(x, "&", {});
        EscapeConcat(x + "&", Join("&", rest), {});
        EscJoinedEntries(ps[1..]);
      } else {
        assert Entries(ps, "=") == [x];
        assert Entries(ps, "%3D") == [k + "%3D" + v];
      }
    }
  }

  lemma FixtureUrlParts()
    ensures RemoveQueryString(FixtureUrl) == FixturePath
    ensures GetQueryString(FixtureUrl) == FixtureQuery
  {
    assert '?' !in FixturePath;
    UrlParts(FixturePath, FixtureQuery);
  }

  /** Two non-empty '&'-free segments joined by '&' split into those two. */
  lemma SplitTwo(a: string, b: string)
    requires '&' !in a && '&' !in b && a != "" && b != ""
    ensures SplitNonEmpty(a + "&" + b, '&') == [a, b]
  {
    assert a + "&" + b == a + ['&'] + b;
    SplitConcat(a, b, '&');
    assert Split(a, '&') == [a] && Split(b, '&') == [b];
    RemoveEmptyAll([a, b]);
  }

  /** The query's two segments are the GET entries. */
  lemma FixtureGetParameters()
    ensures GetParameters(FixtureUrl) == ["first" + "=" + "value1", "second" + "=" + "value2"]
  {
    FixtureUrlParts();
    assert '&' !in "first" + "=" + "value1";
    assert '&' !in "second" + "=" + "value2";
    SplitTwo("first" + "=" + "value1", "second" + "=" + "value2");
  }

  lemma OAuthPrefixes()
    ensures "oauth_version=" == "oauth_version" + "="
    ensures "oauth_consumer_key=" == "oauth_consumer_key" + "="
    ensures "oauth_nonce=" == "oauth_nonce" + "="
    ensures "oauth_signature_method=" == "oauth_signature_method" + "="
    ensures "oauth_timestamp=" == "oauth_timestamp" + "="
    ensures "oauth_token=" == "oauth_token" + "="
  {
  }

  /** The sorted pairs written as entries. */
  lemma SortedPairEntries()
    ensures Entries(SortedPairs, "=") == SortedEntries
  {
  }

  /** The sorted pairs written as entries with an escaped '='. */
  lemma EscapedPairEntries()
    ensures Entries(SortedPairs, "%3D") == EscapedEntries
  {
  }

  /** The six OAuth entries of the fixture. */
  lemma FixtureOAuthEntries()
    ensures OAuthParameters(Fixture) == [
      SortedEntries[6], SortedEntries[1], SortedEntries[2], SortedEntries[3], SortedEntries[4], SortedEntries[5]]
  {
    OAuthPrefixes();
  }

  /** Without POST data the list is the OAuth entries followed by the GET segments. */
  lemma NoPostParameters(p: SigningInput)
    requires p.postData == []
    ensures ParameterList(p) == OAuthParameters(p) + GetParameters(p.url)
  {
    assert PostParameters([]) == [];
  }

  /** The collected list is the sorted entries in another order. */
  lemma FixtureList()
    ensures ParameterList(Fixture) == [
      SortedEntries[6], SortedEntries[1], SortedEntries[2], SortedEntries[3],
      SortedEntries[4], SortedEntries[5], SortedEntries[0], SortedEntries[7]]
  {
    FixtureGetParameters();
    FixtureOAuthEntries();
    NoPostParameters(Fixture);
  }

  /** `x` sorts before `y` when they agree up to `k` and differ there in `y`'s favour. */
  lemma LessEqAt(x: string, y: string, k: nat)
    requires k < |x| && k < |y| && x[..k] == y[..k] && x[k] < y[k]
    ensures LessEq(x, y)
  {
    assert x == x[..k] + x[k..] && y == y[..k] + y[k..];
    LessEqCommonPrefix(x[..k], x[k..], y[k..]);
  }

  /** The sorted entries are in ordinal order. */
  lemma SortedEntriesInOrder()
    ensures Sorted(SortedEntries)
  {
    var e := SortedEntries;
    LessEqAt(e[1], e[2], 6);
    LessEqAt(e[2], e[3], 6);
    LessEqAt(e[3], e[4], 6);
    LessEqAt(e[4], e[5], 7);
    LessEqAt(e[5], e[6], 6);
    SortedFromNeighbours(e);
  }

  /** Exchanging two elements keeps the multiset. */
  lemma SwapPermutation(s: seq<string>, i: nat, j: nat)
    requires i < j < |s|
    ensures multiset(s[i := s[j]][j := s[i]]) == multiset(s)
  {
    var t := s[i := s[j]];
    assert multiset(t) == multiset(s) - multiset{s[i]} + multiset{s[j]};
    assert t[j] == s[j];
    assert multiset(t[j := s[i]]) == multiset(t) - multiset{s[j]} + multiset{s[i]};
  }

  lemma PermutationOfEight(e: seq<string>)
    requires |e| == 8
    ensures multiset([e[6], e[1], e[2], e[3], e[4], e[5], e[0], e[7]]) == multiset(e)
  {
    assert [e[6], e[1], e[2], e[3], e[4], e[5], e[0], e[7]] == e[0 := e[6]][6 := e[0]];
    SwapPermutation(e, 0, 6);
  }

  /** Sorting the collected list gives the fixture's ordinal order. */
  lemma FixtureSorted()
    ensures Sort(ParameterList(Fixture)) == SortedEntries
  {
    var e := SortedEntries;
    FixtureList();
    PermutationOfEight(e);
    SortedEntriesInOrder();
    SortedUnique(Sort(ParameterList(Fixture)), e);
  }

  /** The test's expected normalized parameter string. */
  lemma FixtureNormalized()
    ensures NormalizedParameters(Fixture) == ExpectedNormalized
  {
    FixtureSorted();
    JoinEight("&", SortedEntries);
  }

  lemma FixtureEscapedNormalized()
    ensures Esc(ExpectedNormalized) == EscapedNormalized
  {
    FixtureNormalized();
    FixtureNamesUnreserved();
    FixtureValuesUnreserved();
    EscJoinedEntries(SortedPairs);
    SortedPairEntries();
    EscapedPairEntries();
    JoinEight("%26", EscapedEntries);
    JoinEight("&", SortedEntries);
  }

  /** A URL of the fixture's shape escapes only its ':' and '/'. */
  lemma EscPathShape(scheme: string, host: string, path: string)
    requires AllUnreserved(scheme) && AllUnreserved(host) && AllUnreserved(path)
    ensures Esc(scheme + ":" + "/" + "/" + host + "/" + path) == scheme + "%3A" + "%2F" + "%2F" + host + "%2F" + path
  {
    EscAsciiReserved(':');
    EscAsciiReserved('/');
    EscUnreserved(scheme);
    EscUnreserved(host);
    EscUnreserved(path);
    EscapeConcat(scheme, ":", {});
    EscapeConcat(scheme + ":", "/", {});
    EscapeConcat(scheme + ":" + "/", "/", {});
    EscapeConcat(scheme + ":" + "/" + "/", host, {});
    EscapeConcat(scheme + ":" + "/" + "/" + host, "/", {});
    EscapeConcat(scheme + ":" + "/" + "/" + host + "/", path, {});
  }

  lemma FixturePathPieces()
    ensures FixturePath == "http" + ":" + "/" + "/" + "www.gant.com" + "/" + "test"
  {
  }

  lemma FixtureEscapedPath()
    ensures Esc(FixturePath) == EscapedPath
  {
    FixturePathPieces();
    assert AllUnreserved("http") && AllUnreserved("www.gant.com") && AllUnreserved("test");
    EscPathShape("http", "www.gant.com", "test");
  }

  lemma UpperGet()
    ensures ToUpper("GET") == "GET"
  {
    var u := ToUpper("GET");
    assert u[0] == 'G' && u[1] == 'E' && u[2] == 'T';
  }

  /** The test's expected signature base string. */
  lemma FixtureBaseString()
    ensures BaseString(Fixture) == ExpectedBaseString
  {
    FixtureNormalized();
    FixtureEscapedNormalized();
    FixtureUrlParts();
    FixtureEscapedPath();
    UpperGet();
  }
}
