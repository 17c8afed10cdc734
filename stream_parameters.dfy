/**
 * `StreamingAPIParameters` and the two builders that turn them into request
 * parameters: the query string of the GET-based sources
 * (`ConstructUrlWithQueryString`) and the form data of the POST-based sources
 * (`ConstructPostData`, identical in both POST revisions), plus the endpoint URLs.
 */
module StreamParameters {
  import opened Text
  import opened Results
  import opened NameValues
  import opened HttpUtil

  /**
   * Count, Delimited, Follow, Track and Locations. Location values are doubles in the
   * source; here they are the strings `double.ToString` renders them as.
   */
  datatype StreamingAPIParameters = StreamingAPIParameters(
    count: int,
    delimited: int,
    follow: seq<int>,
    track: seq<string>,
    locations: seq<string>)

  /** `new StreamingAPIParameters()`: zero counts and empty arrays. */
  const DefaultParameters := StreamingAPIParameters(0, 0, [], [], [])

  const DefaultRetweetUrl: string := "https://stream.twitter.com/1/statuses/retweet.json"
  const DefaultLinkStreamUrl: string := "https://stream.twitter.com/1/statuses/links.json"
  const DefaultSampleStreamUrl: string := "https://stream.twitter.com/1/statuses/sample.json"
  const DefaultUserStreamUrl: string := "https://userstream.twitter.com/2/user.json"
  const DefaultFilterStreamUrl: string := "https://stream.twitter.com/1/statuses/filter.json"

  /** A null parameter object reads as no parameters at all. */
  function CountOf(p: Option<StreamingAPIParameters>): int { if p.Some? then p.value.count else 0 }
  function DelimitedOf(p: Option<StreamingAPIParameters>): int { if p.Some? then p.value.delimited else 0 }
  function FollowOf(p: Option<StreamingAPIParameters>): seq<int> { if p.Some? then p.value.follow else [] }
  function TrackOf(p: Option<StreamingAPIParameters>): seq<string> { if p.Some? then p.value.track else [] }
  function LocationsOf(p: Option<StreamingAPIParameters>): seq<string> { if p.Some? then p.value.locations else [] }

  /** One `Add(key, value)` when the condition holds, none otherwise. */
  function AddIf(condition: bool, key: string, value: string): (r: seq<(string, string)>)
    ensures condition <==> r == [(key, value)]
    ensures !condition <==> r == []
  {
    if condition then [(key, value)] else []
  }

  /** `x.ToString()` for each element. */
  function IntStrings(xs: seq<int>): (r: seq<string>)
    ensures |r| == |xs|
    ensures forall i :: 0 <= i < |xs| ==> r[i] == IntToString(xs[i])
  {
    if xs == [] then [] else [IntToString(xs[0])] + IntStrings(xs[1..])
  }

  // ---------------------------------------------------------------------------
  // The GET builder

  /** The `Add` calls `ConstructUrlWithQueryString` makes: count, then delimited, each when non-zero. */
  function QueryPairs(p: Option<StreamingAPIParameters>): seq<(string, string)>
  {
    AddIf(CountOf(p) != 0, "count", IntToString(CountOf(p))) +
    AddIf(DelimitedOf(p) != 0, "delimited", IntToString(DelimitedOf(p)))
  }

  /** `key=value` for each pair. */
  function PairTexts(pairs: seq<(string, string)>): (r: seq<string>)
    ensures |r| == |pairs|
    ensures forall i :: 0 <= i < |pairs| ==> r[i] == pairs[i].0 + "=" + pairs[i].1
  {
    if pairs == [] then [] else [pairs[0].0 + "=" + pairs[0].1] + PairTexts(pairs[1..])
  }

  /** The rendered query: the pairs joined with '&'. The values are digits, so nothing needs encoding. */
  function QueryText(pairs: seq<(string, string)>): string
  {
    Join("&", PairTexts(pairs))
  }

  /** `ConstructUrlWithQueryString`: the URL, followed by '?' and the query when there is one. */
  function ConstructUrlWithQueryString(url: string, p: Option<StreamingAPIParameters>): string
  {
    var pairs := QueryPairs(p);
    url + (if |pairs| == 0 then "" else "?" + QueryText(pairs))
  }

  /** The URL is returned unchanged exactly when both Count and Delimited are zero (or p is null). */
  lemma UrlUnchanged(url: string, p: Option<StreamingAPIParameters>)
    ensures ConstructUrlWithQueryString(url, p) == url <==> CountOf(p) == 0 && DelimitedOf(p) == 0
  {
    var r := ConstructUrlWithQueryString(url, p);
    if CountOf(p) != 0 || DelimitedOf(p) != 0 {
      assert |r| > |url|;
    }
  }

  /** count is in the query exactly when Count is non-zero, delimited exactly when Delimited is, in decimal. */
  lemma QueryKeys(p: Option<StreamingAPIParameters>)
    ensures ("count", IntToString(CountOf(p))) in QueryPairs(p) <==> CountOf(p) != 0
    ensures ("delimited", IntToString(DelimitedOf(p))) in QueryPairs(p) <==> DelimitedOf(p) != 0
    ensures |QueryPairs(p)| <= 2
    ensures forall i :: 0 <= i < |QueryPairs(p)| ==> ParseInt(QueryPairs(p)[i].1) != 0
  {
    assert "count" != "delimited";
    ParseIntToString(CountOf(p));
    ParseIntToString(DelimitedOf(p));
  }

  /** Keys and values without '&' or '?' give non-empty `key=value` texts without them. */
  lemma PairTextsAlphabet(pairs: seq<(string, string)>)
    requires forall i :: 0 <= i < |pairs| ==> '&' !in pairs[i].0 && '?' !in pairs[i].0
    requires forall i :: 0 <= i < |pairs| ==> '&' !in pairs[i].1 && '?' !in pairs[i].1
    ensures forall i :: 0 <= i < |pairs| ==> '&' !in PairTexts(pairs)[i] && '?' !in PairTexts(pairs)[i]
    ensures forall i :: 0 <= i < |pairs| ==> PairTexts(pairs)[i] != ""
  {
    forall i | 0 <= i < |pairs|
      ensures '&' !in PairTexts(pairs)[i] && '?' !in PairTexts(pairs)[i]
    {
      NoSeparators(pairs[i].0, pairs[i].1);
    }
  }

  lemma NoSeparators(k: string, v: string)
    requires '&' !in k && '?' !in k && '&' !in v && '?' !in v
    ensures '&' !in k + "=" + v && '?' !in k + "=" + v
  {
    var t := k + "=" + v;
    forall j | 0 <= j < |t| ensures t[j] != '&' && t[j] != '?' {
      if j < |k| { assert t[j] == k[j]; }
      else if j > |k| { assert t[j] == v[j - |k| - 1]; }
    }
  }

  /** Decimal renderings contain neither '&' nor '?'. */
  lemma DecimalNoSeparators(n: int)
    ensures '&' !in IntToString(n) && '?' !in IntToString(n)
  {
    var t := IntToString(n);
    forall j | 0 <= j < |t| ensures t[j] != '&' && t[j] != '?' {
      assert IsDigit(t[j]) || t[j] == '-';
    }
  }

  /**
   * For a base URL without '?', the query of the built URL is exactly the appended
   * pairs, so signing reads them back as the GET parameters, and the path is the base URL.
   */
  lemma QueryOfConstructedUrl(url: string, p: Option<StreamingAPIParameters>)
    requires '?' !in url
    requires CountOf(p) != 0 || DelimitedOf(p) != 0
    ensures RemoveQueryString(ConstructUrlWithQueryString(url, p)) == url
    ensures GetQueryString(ConstructUrlWithQueryString(url, p)) == QueryText(QueryPairs(p))
    ensures SplitNonEmpty(GetQueryString(ConstructUrlWithQueryString(url, p)), '&') == PairTexts(QueryPairs(p))
  {
    var pairs := QueryPairs(p);
    var q := QueryText(pairs);
    var r := ConstructUrlWithQueryString(url, p);
    assert r == url + "?" + q;
    UrlParts(url, q);
    QueryTextsAlphabet(p);
    SplitJoin(PairTexts(pairs), '&');
    RemoveEmptyAll(PairTexts(pairs));
  }

  lemma QueryTextsAlphabet(p: Option<StreamingAPIParameters>)
    ensures forall i :: 0 <= i < |QueryPairs(p)| ==> '&' !in PairTexts(QueryPairs(p))[i]
    ensures forall i :: 0 <= i < |QueryPairs(p)| ==> PairTexts(QueryPairs(p))[i] != ""
  {
    DecimalNoSeparators(CountOf(p));
    DecimalNoSeparators(DelimitedOf(p));
    assert '&' !in "count" && '?' !in "count" && '&' !in "delimited" && '?' !in "delimited";
    PairTextsAlphabet(QueryPairs(p));
  }

  lemma TenAndHundred()
    ensures IntToString(10) == "10" && IntToString(100) == "100"
  {
    assert NatToString(1) == "1";
    assert NatToString(10) == NatToString(1) + [DigitChar(0)];
    assert NatToString(100) == NatToString(10) + [DigitChar(0)];
  }

  /** The unit test's input: Count 10 and Delimited 100 give `?count=10&delimited=100`. */
  lemma UrlExample()
    ensures ConstructUrlWithQueryString("http://www.test.com/test",
      Some(StreamingAPIParameters(10, 100, [], [], []))) ==
      "http://www.test.com/test" + "?" + ("count" + "=" + "10") + "&" + ("delimited" + "=" + "100")
  {
    TenAndHundred();
    var p := Some(StreamingAPIParameters(10, 100, [], [], []));
    assert QueryPairs(p) == [("count", "10"), ("delimited", "100")];
    var t := PairTexts(QueryPairs(p));
    assert t == ["count" + "=" + "10", "delimited" + "=" + "100"];
    assert t[1..] == ["delimited" + "=" + "100"];
  }

  // ---------------------------------------------------------------------------
  // The POST builder

  /** The position of a key among the five `ConstructPostData` tries, in order. */
  type KeyIndex = k: nat | k < 5

  /** The five keys, in the order `ConstructPostData` tries them. */
  function PostKey(k: KeyIndex): string
  {
    if k == 0 then "count" else if k == 1 then "delimited" else if k == 2 then "follow"
    else if k == 3 then "locations" else "track"
  }

  /** Whether the k-th key is added: its number is non-zero, or its array non-empty. */
  function Present(p: Option<StreamingAPIParameters>, k: KeyIndex): bool
  {
    if k == 0 then CountOf(p) != 0 else if k == 1 then DelimitedOf(p) != 0
    else if k == 2 then |FollowOf(p)| != 0 else if k == 3 then |LocationsOf(p)| != 0
    else |TrackOf(p)| != 0
  }

  /** The value added under the k-th key: the number in decimal, or the array joined with ','. */
  function PostValue(p: Option<StreamingAPIParameters>, k: KeyIndex): string
  {
    if k == 0 then IntToString(CountOf(p)) else if k == 1 then IntToString(DelimitedOf(p))
    else if k == 2 then Join(",", IntStrings(FollowOf(p)))
    else if k == 3 then Join(",", LocationsOf(p)) else Join(",", TrackOf(p))
  }

  /** The key `ConstructPostData` starts from. */
  const FirstKey: nat := 0

  /** The pairs for keys k onwards, in key order. */
  function PairsFrom(p: Option<StreamingAPIParameters>, k: nat): seq<(string, string)>
    requires k <= 5
    decreases 5 - k
  {
    if k == 5 then [] else AddIf(Present(p, k), PostKey(k), PostValue(p, k)) + PairsFrom(p, k + 1)
  }

  /**
   * `ConstructPostData`: a new collection with the five conditional `Add` calls made
   * in order, count, delimited, follow, locations, track.
   */
  function ConstructPostData(p: Option<StreamingAPIParameters>): (r: seq<Entry>)
    ensures WellFormed(r)
  {
    AddPairs([], PairsFrom(p, FirstKey))
  }

  /** The indexes of the keys that are added, from k onwards. */
  function KeyIndexes(p: Option<StreamingAPIParameters>, k: nat): seq<KeyIndex>
    requires k <= 5
    decreases 5 - k
  {
    if k == 5 then [] else (if Present(p, k) then [k] else []) + KeyIndexes(p, k + 1)
  }

  /** The pairs from k onwards are the added keys, in index order, each with its value. */
  lemma {:induction false} PairsFromShape(p: Option<StreamingAPIParameters>, k: nat)
    requires k <= 5
    ensures |PairsFrom(p, k)| == |KeyIndexes(p, k)|
    ensures forall i :: 0 <= i < |KeyIndexes(p, k)| ==>
      PairsFrom(p, k)[i] == (PostKey(KeyIndexes(p, k)[i]), PostValue(p, KeyIndexes(p, k)[i]))
    decreases 5 - k
  {
    if k < 5 {
      PairsFromShape(p, k + 1);
      if Present(p, k) {
        var pairs := PairsFrom(p, k);
        var idx := KeyIndexes(p, k);
        assert pairs == [(PostKey(k), PostValue(p, k))] + PairsFrom(p, k + 1);
        assert idx == [k] + KeyIndexes(p, k + 1);
        forall i | 0 <= i < |idx| ensures pairs[i] == (PostKey(idx[i]), PostValue(p, idx[i])) {
          if i > 0 {
            assert pairs[i] == PairsFrom(p, k + 1)[i - 1];
            assert idx[i] == KeyIndexes(p, k + 1)[i - 1];
          }
        }
      } else {
        assert PairsFrom(p, k) == PairsFrom(p, k + 1);
        assert KeyIndexes(p, k) == KeyIndexes(p, k + 1);
      }
    }
  }

  /** The added indexes from k onwards lie in k..4 and strictly increase. */
  lemma {:induction false} KeyIndexesIncreasing(p: Option<StreamingAPIParameters>, k: nat)
    requires k <= 5
    ensures forall i :: 0 <= i < |KeyIndexes(p, k)| ==> k <= KeyIndexes(p, k)[i] < 5
    ensures forall i, j :: 0 <= i < j < |KeyIndexes(p, k)| ==> KeyIndexes(p, k)[i] < KeyIndexes(p, k)[j]
    decreases 5 - k
  {
    if k < 5 {
      KeyIndexesIncreasing(p, k + 1);
      var idx := KeyIndexes(p, k);
      var rest := KeyIndexes(p, k + 1);
      if Present(p, k) {
        assert idx == [k] + rest;
        assert forall i :: 0 < i < |idx| ==> idx[i] == rest[i - 1];
      } else {
        assert idx == rest;
      }
    }
  }

  /** Two lower-case keys with different first letters never compare equal. */
  lemma DistinctInitials(a: string, b: string)
    requires a != [] && b != [] && IsAsciiLower(a[0]) && IsAsciiLower(b[0]) && a[0] != b[0]
    ensures !SameKey(a, b)
  {
    assert ToLower(a)[0] == a[0] && ToLower(b)[0] == b[0];
  }

  /** The five keys are pairwise different under the collection's case-insensitive comparer. */
  lemma PostKeyDistinct(i: KeyIndex, j: KeyIndex)
    requires i != j
    ensures !SameKey(PostKey(i), PostKey(j))
  {
    var initials := ['c', 'd', 'f', 'l', 't'];
    assert PostKey(i) != [] && PostKey(i)[0] == initials[i];
    assert PostKey(j) != [] && PostKey(j)[0] == initials[j];
    DistinctInitials(PostKey(i), PostKey(j));
  }

  /** A strictly increasing list of indexes below 5 has at most five elements. */
  lemma {:induction false} IncreasingBounded(idx: seq<KeyIndex>)
    requires forall i :: 0 <= i < |idx| ==> idx[i] < 5
    requires forall i, j :: 0 <= i < j < |idx| ==> idx[i] < idx[j]
    ensures |idx| <= 5
  {
    if |idx| > 5 {
      var k := 0;
      while k < 5
        invariant k <= 5 && idx[k] >= k
      {
        k := k + 1;
      }
    }
  }

  /**
   * Each key is added at most once and in the fixed order count, delimited, follow,
   * locations, track, so the collection is one single-valued entry per added key.
   */
  lemma PostDataEntries(p: Option<StreamingAPIParameters>)
    ensures ConstructPostData(p) == SingleEntries(PairsFrom(p, 0))
    ensures |ConstructPostData(p)| == |KeyIndexes(p, 0)| <= 5
    ensures forall i :: 0 <= i < |KeyIndexes(p, 0)| ==>
      ConstructPostData(p)[i] == Entry(PostKey(KeyIndexes(p, 0)[i]), [PostValue(p, KeyIndexes(p, 0)[i])])
  {
    EntriesFrom(p, 0);
  }

  /** `PostDataEntries` for the keys from k onwards. */
  lemma EntriesFrom(p: Option<StreamingAPIParameters>, k: nat)
    requires k <= 5
    ensures AddPairs([], PairsFrom(p, k)) == SingleEntries(PairsFrom(p, k))
    ensures |SingleEntries(PairsFrom(p, k))| == |KeyIndexes(p, k)| <= 5
    ensures forall i :: 0 <= i < |KeyIndexes(p, k)| ==>
      SingleEntries(PairsFrom(p, k))[i] == Entry(PostKey(KeyIndexes(p, k)[i]), [PostValue(p, KeyIndexes(p, k)[i])])
  {
    var pairs := PairsFrom(p, k);
    EntriesWellFormed(p, k);
    assert [] + SingleEntries(pairs) == SingleEntries(pairs);
    AddPairsFresh([], pairs);
    PairsFromShape(p, k);
    KeyIndexesIncreasing(p, k);
    IncreasingBounded(KeyIndexes(p, k));
  }

  /** One single-valued entry per added key is a well-formed collection: the keys differ. */
  lemma EntriesWellFormed(p: Option<StreamingAPIParameters>, k: nat)
    requires k <= 5
    ensures WellFormed(SingleEntries(PairsFrom(p, k)))
  {
    PairsFromShape(p, k);
    KeyIndexesIncreasing(p, k);
    var idx := KeyIndexes(p, k);
    var es := SingleEntries(PairsFrom(p, k));
    forall i, j | 0 <= i < j < |es| ensures !SameKey(es[i].key, es[j].key) {
      assert es[i].key == PostKey(idx[i]) && es[j].key == PostKey(idx[j]);
      PostKeyDistinct(idx[i], idx[j]);
    }
  }

  /** With no key present there are no pairs. */
  lemma {:induction false} NoPairs(p: Option<StreamingAPIParameters>, k: nat)
    requires k <= 5
    requires forall j: KeyIndex :: !Present(p, j)
    ensures PairsFrom(p, k) == []
    decreases 5 - k
  {
    if k < 5 {
      NoPairs(p, k + 1);
      assert !Present(p, k);
    }
  }

  /** `ConstructPostData(null)`, or with the defaults, adds nothing; the defaults add no query either. */
  lemma NothingWithoutParameters(url: string)
    ensures ConstructPostData(None) == []
    ensures ConstructPostData(Some(DefaultParameters)) == []
    ensures ConstructUrlWithQueryString(url, None) == url
    ensures ConstructUrlWithQueryString(url, Some(DefaultParameters)) == url
  {
    NoPairs(None, 0);
    NoPairs(Some(DefaultParameters), 0);
  }

  /** The value of the first pair whose key compares equal to `key`. */
  function Lookup(pairs: seq<(string, string)>, key: string): Option<string>
  {
    if pairs == [] then None
    else if SameKey(pairs[0].0, key) then Some(pairs[0].1)
    else Lookup(pairs[1..], key)
  }

  /** Looking a key up in a one-entry-per-pair collection finds the first matching pair. */
  lemma {:induction false} GetSingleEntries(pairs: seq<(string, string)>, key: string)
    ensures Get(SingleEntries(pairs), key) == Lookup(pairs, key)
  {
    var es := SingleEntries(pairs);
    if pairs != [] {
      GetSingleEntries(pairs[1..], key);
      assert es[1..] == SingleEntries(pairs[1..]);
      assert es[0] == Entry(pairs[0].0, [pairs[0].1]);
    }
  }

  /** Looking up the j-th key among the pairs from k onwards finds its value exactly when it is added. */
  lemma {:induction false} LookupPairsFrom(p: Option<StreamingAPIParameters>, k: nat, j: KeyIndex)
    requires k <= 5
    ensures Lookup(PairsFrom(p, k), PostKey(j)) == if k <= j && Present(p, j) then Some(PostValue(p, j)) else None
    decreases 5 - k
  {
    if k < 5 {
      LookupPairsFrom(p, k + 1, j);
      var head := AddIf(Present(p, k), PostKey(k), PostValue(p, k));
      var rest := PairsFrom(p, k + 1);
      if Present(p, k) {
        assert (head + rest)[0] == (PostKey(k), PostValue(p, k));
        assert (head + rest)[1..] == rest;
        if k != j {
          PostKeyDistinct(k, j);
        }
      } else {
        assert head + rest == rest;
      }
    }
  }

  /** The k-th key looks up its value exactly when it was added. */
  lemma PostDataLookup(p: Option<StreamingAPIParameters>, k: KeyIndex)
    ensures Get(ConstructPostData(p), PostKey(k)) == if Present(p, k) then Some(PostValue(p, k)) else None
  {
    PostDataEntries(p);
    GetSingleEntries(PairsFrom(p, 0), PostKey(k));
    LookupPairsFrom(p, 0, k);
  }

  /** Each key is present exactly when its field is non-zero or non-empty, with the decimal or comma-joined value. */
  lemma PostDataLookups(p: Option<StreamingAPIParameters>)
    ensures Get(ConstructPostData(p), "count") ==
      if CountOf(p) != 0 then Some(IntToString(CountOf(p))) else None
    ensures Get(ConstructPostData(p), "delimited") ==
      if DelimitedOf(p) != 0 then Some(IntToString(DelimitedOf(p))) else None
    ensures Get(ConstructPostData(p), "follow") ==
      if |FollowOf(p)| != 0 then Some(Join(",", IntStrings(FollowOf(p)))) else None
    ensures Get(ConstructPostData(p), "locations") ==
      if |LocationsOf(p)| != 0 then Some(Join(",", LocationsOf(p))) else None
    ensures Get(ConstructPostData(p), "track") ==
      if |TrackOf(p)| != 0 then Some(Join(",", TrackOf(p))) else None
  {
    assert PostKey(0) == "count" && PostKey(1) == "delimited" && PostKey(2) == "follow";
    assert PostKey(3) == "locations" && PostKey(4) == "track";
    PostDataLookup(p, 0);
    PostDataLookup(p, 1);
    PostDataLookup(p, 2);
    PostDataLookup(p, 3);
    PostDataLookup(p, 4);
  }

  /** The unit test of the POST revision: Track {track1, track2} with Count 10 gives two entries. */
  lemma PostDataExample()
    ensures |ConstructPostData(Some(StreamingAPIParameters(10, 0, [], ["track1", "track2"], [])))| == 2
    ensures Get(ConstructPostData(Some(StreamingAPIParameters(10, 0, [], ["track1", "track2"], []))), "track") ==
      Some("track1" + "," + "track2")
    ensures Get(ConstructPostData(Some(StreamingAPIParameters(10, 0, [], ["track1", "track2"], []))), "count") ==
      Some("10")
  {
    var p := Some(StreamingAPIParameters(10, 0, [], ["track1", "track2"], []));
    TenAndHundred();
    assert KeyIndexes(p, 0) == [0, 4];
    PostDataEntries(p);
    PostDataLookup(p, 0);
    PostDataLookup(p, 4);
    assert ["track1", "track2"][1..] == ["track2"];
  }
}
