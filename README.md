# TweetSource core, modelled in Dafny

This project models the core of TweetSource, a C# client library for the Twitter
Streaming API. The library:

- signs each streaming request with OAuth 1.0 (HMAC-SHA1);
- renders the `Authorization` header;
- builds a GET request (parameters in the query) or a form POST (parameters in the body);
- runs a reader that turns the lines of the response into queued `TweetEventArgs`;
- hands those events to the client through `Dispatch`, with `SourceUp` and `SourceDown`
  notifications around the connection.

The model follows the code's own structure, one module per concern:

| module | file | models |
|---|---|---|
| `Text` | text.dfy | the .NET string operations used: `IndexOf`, `Split` (with and without empty entries), `Join`, `StringBuilder.Replace`, ASCII `ToUpper`, `Int32.ToString` |
| `Ordinal` | ordinal.dfy | the ordinal string order and the sort of the parameter list |
| `Results` | results.dfy | `Option`, `Result` and the two exception kinds the library handles (`ApplicationException`, `WebException`); the `ArgumentNullException` and `UriFormatException` that `Uri.EscapeDataString` can throw are not modelled (see "## Left out") |
| `Utf8` | utf8.dfy | UTF-8 encoding of one character, which `Uri.EscapeDataString` percent-encodes |
| `NameValues` | name_values.dfy | `NameValueCollection`: ordered keys, case-insensitive lookup, values joined with ',' |
| `HttpUtil` | http_util.dfy | `HttpUtil`: query-string split and strip, RFC 3986 escaping, form encoding, query parsing |
| `RandomString` | random_string.dfy | `RandomStringImpl` and the `CHARS` alphabet, with `System.Random` as a sequence of draws |
| `ParameterSets` | parameter_sets.dfy | `AuthParameterSet` and `HttpParameterSet` (default and copy constructors) |
| `OAuthSignature` | signature_base.dfy | the normalized parameters, base string, signing key and signature switch of `SignedParameterSet10Impl`, as functions |
| `SignedParameters` | signed_parameter_set.dfy | `SignedParameterSet10Impl` as a class: the nonce and timestamp fixed at construction, and the `Add*Parameters` loops proved against those functions |
| `AuthorizationHeaders` | authorization_header.dfy | `AuthorizationHeader.Create` and `OAuthAuthorizationHeader10.GetHeaderString` |
| `SigningFixture` | signing_fixture.dfy | the golden GET fixture of the signing unit test: the normalized string and the base string |
| `EventSources` | event_source.dfy | `EventSourceBaseImpl`: the `Fire*` helpers, `EnqueueEvent` and the drain loop of `Dispatch` |
| `StreamParameters` | stream_parameters.dfy | `StreamingAPIParameters`, `ConstructUrlWithQueryString` (GET) and `ConstructPostData` (POST), and the endpoint URLs |
| `TweetEventSources` | tweet_event_source.dfy | `StreamingTweetEventSource`: the three `CreateWebRequest` overrides, `Start`/`StartThread`/`Stop`/`Cleanup`, the reader (`RunThead`, `RequestData`) and the factories |

The HMAC-SHA1 and Base64 computation, the clock and the random-number generator are
parameters:

- `hmacBase64(key, text)` stands for the Base64 rendering of HMAC-SHA1 over the ASCII bytes.
- `epochTotalSeconds` is the clock reading.
- `draw: nat -> nat` is the sequence of `Random` draws.

The network is a value:

- `Response` is what `GetResponse` and `ReadLine` deliver: either an exception, or a finite
  sequence of lines followed by end-of-stream or an exception.
- `connectError` is the `WebException` that `GetRequestStream` may throw.

Handlers are modelled by the set of subscribed channels. Every handler call and every
enqueue is recorded in a trace, so order and counts can be stated.

Where the code and other descriptions of this library disagree, the model follows the code:

- `Create` accepts the version "1.0" only; "1.0a" is rejected (TweetSourceLib/OAuth/AuthorizationHeader.cs:52-58).
- The signing fixture's URL is `http://www.gant.com/test?first=value1&second=value2`.
- The header fields are written in the order signature, nonce, signature method, timestamp,
  consumer key, token, version. The unit test's expected header lists them in another order.
- The six `oauth_*` entries and the query segments enter the normalized list unescaped. Whole
  `k=v` strings are sorted.

## Model

| member | source | states |
|---|---|---|
| Text.IndexOf | TweetSourceLib/Util/HttpUtil.cs:49 | -1 exactly when the character is absent; otherwise the first position holding it |
| Text.Split | TweetSourceLib/Util/HttpUtil.cs:95 | at least one piece, and no piece contains the separator |
| Text.JoinSplit | TweetSourceLib/Util/HttpUtil.cs:95 | joining the pieces of a split with the separator gives back the string |
| Text.SplitJoin | TweetSourceLib/OAuth/SignedParameterSet.cs:142-143 | splitting a join of separator-free pieces gives back the pieces |
| Text.SplitConcat | TweetSourceLib/Util/HttpUtil.cs:95 | a separator between two strings splits into the pieces of each |
| Text.RemoveEmptyConcat | TweetSourceLib/Util/HttpUtil.cs:95 | dropping empty pieces distributes over concatenation |
| Text.RemoveEmpty | TweetSourceLib/OAuth/SignedParameterSet.cs:187-188 | keeps only non-empty pieces, each one of the input's |
| Text.Replace | TweetSourceLib/Util/HttpUtil.cs:151 | no occurrence remains when the replacement lacks the character; no change when the string lacks it |
| Text.ReplaceConcat | TweetSourceLib/Util/HttpUtil.cs:151 | replacing distributes over concatenation |
| Text.ToUpper | TweetSourceLib/OAuth/SignedParameterSet.cs:138 | same length; every character upper-cased |
| Text.ToUpperIdempotent | TweetSourceLib/OAuth/SignedParameterSet.cs:138 | upper-casing twice is upper-casing once |
| Text.IntToString | TweetSourceLib/OAuth/SignedParameterSet.cs:96 | non-empty decimal digits, with a leading '-' exactly for negative values |
| Text.ParseIntToString | TweetSourceLib/OAuth/SignedParameterSet.cs:96 | the decimal rendering reads back as the number, so it is injective |
| Ordinal.Insert | TweetSourceLib/OAuth/SignedParameterSet.cs:158 | inserting into a sorted list keeps it sorted and adds exactly that element |
| Ordinal.Sort | TweetSourceLib/OAuth/SignedParameterSet.cs:158 | the result is sorted and a permutation of the input |
| Ordinal.Total | TweetSourceLib/OAuth/SignedParameterSet.cs:158 | any two strings are ordered one way or the other |
| Ordinal.Transitive | TweetSourceLib/OAuth/SignedParameterSet.cs:158 | the order is transitive |
| Ordinal.Antisymmetric | TweetSourceLib/OAuth/SignedParameterSet.cs:158 | strings ordered both ways are equal |
| Ordinal.SortedUnique | TweetSourceLib/OAuth/SignedParameterSet.cs:158 | two sorted lists with the same elements are equal |
| Ordinal.SortPermutationInvariant | TweetSourceLib/OAuth/SignedParameterSet.cs:157-161 | the sorted list depends only on the multiset of entries, not on insertion order |
| Utf8.Encode | TweetSourceLib/Util/HttpUtil.cs:146 | one to four bytes; a single byte, equal to the code point, exactly for ASCII |
| Utf8.DecodeEncode | TweetSourceLib/Util/HttpUtil.cs:146 | decoding the encoding of a character returns it and its byte count |
| NameValues.Find | TweetSourceLib/Util/HttpUtil.cs:107 | the first entry whose key matches case-insensitively, or -1 when none does |
| NameValues.Keys | TweetSourceLib/Util/HttpUtil.cs:80 | `AllKeys`: the keys in insertion order |
| NameValues.GetAfterAdd | TweetSourceLib/Util/HttpUtil.cs:107 | after `Add`, the same key reads the old values plus the new one joined with ','; a new key reads the value; other keys are unchanged |
| NameValues.GetOwnKey | TweetSourceLib/OAuth/SignedParameterSet.cs:176-179 | each key is found at its own position and reads its values joined with ',' |
| NameValues.AddPairsFresh | TweetSourceLib/EventSource/PostBasedTweetEventSource.cs:64-86 | adding pairs with fresh distinct keys appends one single-valued entry per pair |
| NameValues.FlattenedAt | TweetSourceLib/Util/HttpUtil.cs:81 | the i-th flattened pair is the i-th key and its values joined with ',' |
| NameValues.SingleEntries | TweetSourceLib/Util/HttpUtil.cs:107 | one single-valued entry per pair, in order |
| NameValues.NameValueCollection.Add | TweetSourceLib/EventSource/PostBasedTweetEventSource.cs:69 | the collection becomes the old one with the pair added, and keys stay distinct |
| NameValues.NameValueCollection.AddCollection | TweetSourceLib/EventSource/PostBasedTweetEventSource.cs:43 | every entry of the other collection added in order |
| NameValues.NameValueCollection.Clear | TweetSourceLib/EventSource/TweetEventSource.cs:266 | the collection is empty |
| HttpUtil.GetQueryString | TweetSourceLib/Util/HttpUtil.cs:47-55 | "" when the URL has no '?'; otherwise strictly shorter than the URL |
| HttpUtil.RemoveQueryString | TweetSourceLib/Util/HttpUtil.cs:62-69 | never contains '?'; unchanged without '?'; otherwise the prefix, with `prefix + "?" + GetQueryString(url) == url` |
| HttpUtil.UrlParts | TweetSourceLib/Util/HttpUtil.cs:47-69 | for a '?'-free path, `path?query` strips back to the path and yields the query |
| HttpUtil.PercentByte | TweetSourceLib/Util/HttpUtil.cs:146 | '%' and two upper-case hex digits whose value is the byte |
| HttpUtil.EscapeUriDataStringRfc3986 | TweetSourceLib/Util/HttpUtil.cs:140-156 | the platform escape (RFC 2396 marks kept) followed by the replace loop over the five marks equals `Esc`, RFC 3986 percent-encoding |
| HttpUtil.ReplaceMark | TweetSourceLib/Util/HttpUtil.cs:149-152 | each replace step equals escaping with one mark fewer kept |
| HttpUtil.EscapeConcat | TweetSourceLib/Util/HttpUtil.cs:146 | escaping distributes over concatenation |
| HttpUtil.EscUnreserved | TweetSourceLib/Util/HttpUtil.cs:124-127 | a string of RFC 3986 unreserved characters is unchanged |
| HttpUtil.EscAsciiReserved | TweetSourceLib/Util/HttpUtil.cs:140-156 | every other ASCII character becomes '%' and its two upper-case hex digits |
| HttpUtil.EscMarks | TweetSourceLib/Util/HttpUtil.cs:40 | `!` `*` `'` `(` `)` become %21 %2A %27 %28 %29 |
| HttpUtil.EscSpaceQuote | TweetSourceClientDemo/Tests/Util/HttpUtilTest.cs:38-47 | space becomes %20 and '"' becomes %22 |
| HttpUtil.EscRun | TweetSourceClientDemo/Tests/Util/HttpUtilTest.cs:42-43 | `@#$` becomes %40%23%24 |
| HttpUtil.EscDelimiters | TweetSourceLib/OAuth/AuthorizationHeader.cs:88-89 | '/', '+' and '=' become %2F, %2B, %3D |
| HttpUtil.EscAlphabet | TweetSourceLib/Util/HttpUtil.cs:140-156 | the output holds only unreserved characters and '%' |
| HttpUtil.EscWellEscaped | TweetSourceLib/Util/HttpUtil.cs:140-156 | every '%' of the output starts a triple with two upper-case hex digits |
| HttpUtil.UnescapeEsc | TweetSourceLib/Util/HttpUtil.cs:140-156 | percent-decoding the output returns the input (RFC 3986 section 2.1) |
| HttpUtil.EscInjective | TweetSourceLib/Util/HttpUtil.cs:140-156 | different strings escape differently |
| HttpUtil.FormPairsAt | TweetSourceLib/Util/HttpUtil.cs:81 | the i-th piece is `Esc(key)=Esc(value)` of the i-th pair |
| HttpUtil.FormPairsConcat | TweetSourceLib/Util/HttpUtil.cs:80-81 | the pieces of two pair lists are the pieces of each, in order |
| HttpUtil.FormEncodingEmpty | TweetSourceClientDemo/Tests/Util/HttpUtilTest.cs:28-35 | the form encoding is "" exactly when the collection is empty |
| HttpUtil.EncodeFormPostData | TweetSourceLib/Util/HttpUtil.cs:76-84 | the loop's result is `Esc(key)=Esc(value)` for each key in key order, joined with '&' |
| HttpUtil.AppendEntry | TweetSourceLib/Util/HttpUtil.cs:80-81 | one loop step: the key is found, and `Esc(key)=Esc(value)` of its looked-up value is appended, extending the entries of the first i pairs by one |
| HttpUtil.ParsePairs | TweetSourceLib/Util/HttpUtil.cs:96-113 | one parsed pair per segment, in order |
| HttpUtil.ParseQuery | TweetSourceLib/Util/HttpUtil.cs:91-116 | the parsed collection has distinct keys |
| HttpUtil.QueryStringToNameValueCollection | TweetSourceLib/Util/HttpUtil.cs:91-116 | the loop's collection is the parse of the query |
| HttpUtil.ParsePairSplits | TweetSourceLib/Util/HttpUtil.cs:98-107 | a segment splits at its first '=' and each non-empty side is decoded |
| HttpUtil.ParsePairNoEquals | TweetSourceLib/Util/HttpUtil.cs:109-112 | a segment without '=' becomes (segment, ""), undecoded |
| HttpUtil.ParseQuerySkipsEmpty | TweetSourceLib/Util/HttpUtil.cs:95 | an empty inner '&' segment is skipped |
| HttpUtil.ParseQuerySkipsLeading | TweetSourceLib/Util/HttpUtil.cs:95 | a leading '&' adds nothing |
| HttpUtil.ParseQuerySkipsTrailing | TweetSourceLib/Util/HttpUtil.cs:95 | a trailing '&' adds nothing |
| HttpUtil.FormPairShape | TweetSourceLib/Util/HttpUtil.cs:81 | a form piece is non-empty and holds no '&' |
| HttpUtil.ParseFormPair | TweetSourceLib/Util/HttpUtil.cs:98-107 | a form piece parses back to its key and value |
| HttpUtil.FormPairsSplit | TweetSourceLib/Util/HttpUtil.cs:83 | splitting the joined pieces at '&' gives the pieces back |
| HttpUtil.FormPairsParse | TweetSourceLib/Util/HttpUtil.cs:96-113 | parsing the pieces gives back the pairs |
| HttpUtil.FormRoundTrip | TweetSourceLib/Util/HttpUtil.cs:76-116 | parsing the form encoding of a collection recovers its keys in order, each with its joined value |
| RandomString.CharsAlphabet | TweetSourceLib/Util/RandomString.cs:36-37 | `CHARS` is 50 ASCII letters, none of them 'V' or 'v' |
| RandomString.RandomText | TweetSourceLib/Util/RandomString.cs:54-62 | the string has the requested length and every character is one of `CHARS` |
| RandomString.RandomTextSplit | TweetSourceLib/Util/RandomString.cs:52 | consecutive calls read consecutive draws: two strings are one longer string split |
| RandomString.RandomTextLetters | TweetSourceLib/Util/RandomString.cs:59 | every character is an ASCII letter other than 'V' and 'v' |
| RandomString.Random.Next | TweetSourceLib/Util/RandomString.cs:59 | the next draw, reduced into [0, maxValue); one draw consumed |
| RandomString.RandomStringImpl.NextRandomString | TweetSourceLib/Util/RandomString.cs:54-62 | the buffer loop returns `length` characters, the i-th being `CHARS[draw(start + i) % 50]`, and consumes exactly `length` draws |
| ParameterSets.AuthParameterSet.constructor | TweetSourceLib/OAuth/AuthorizationHeader.cs:135-144 | version "1.0", signature method "HMAC-SHA1", keys empty |
| ParameterSets.HttpParameterSet.constructor | TweetSourceLib/OAuth/AuthorizationHeader.cs:196-207 | every string field "", version and method included, and a fresh empty `PostData` |
| ParameterSets.HttpParameterSet.Copy | TweetSourceLib/OAuth/AuthorizationHeader.cs:181-194 | all nine fields copied, `PostData` shared by reference |
| OAuthSignature.PostParametersAt | TweetSourceLib/OAuth/SignedParameterSet.cs:174-181 | the i-th POST entry is `Esc(key)=Esc(values joined with ',')` |
| OAuthSignature.Signature | TweetSourceLib/OAuth/SignedParameterSet.cs:99-134 | succeeds exactly for "HMAC-SHA1", with the HMAC of the base string under the signing key; otherwise "Signature method {0} is not supported" |
| OAuthSignature.SortedParameterList | TweetSourceLib/OAuth/SignedParameterSet.cs:148-192 | the sorted list is sorted, has 6 + POST keys + non-empty query segments entries, and is exactly the three sources' entries |
| OAuthSignature.FormPairsPermutation | TweetSourceLib/OAuth/SignedParameterSet.cs:174-181 | permuted pairs give permuted POST entries |
| OAuthSignature.NormalizedOrderIndependent | TweetSourceLib/OAuth/SignedParameterSet.cs:157-161 | the normalized string does not depend on POST insertion order or query-segment order |
| OAuthSignature.EscNoAmpersand | TweetSourceLib/OAuth/SignedParameterSet.cs:142-143 | an escaped part never holds '&' |
| OAuthSignature.BaseStringParts | TweetSourceLib/OAuth/SignedParameterSet.cs:136-146 | the base string splits at '&' into the upper-cased method, Esc(URL without query) and Esc(normalized), and the last two decode back |
| OAuthSignature.SigningKeyParts | TweetSourceLib/OAuth/SignedParameterSet.cs:121-123 | the key splits at '&' into the two escaped secrets, which decode back |
| SignedParameters.ParamList.Add | TweetSourceLib/OAuth/SignedParameterSet.cs:166 | the item is appended at the end |
| SignedParameters.ParamList.SortItems | TweetSourceLib/OAuth/SignedParameterSet.cs:158 | the list becomes its ordinal sort |
| SignedParameters.SignedParameterSet10.constructor | TweetSourceLib/OAuth/SignedParameterSet.cs:84-97 | the base fields are copied; the nonce is the next 11 generated characters and the timestamp the clock's decimal, both immutable |
| SignedParameters.SignedParameterSet10.AddOAuthParameters | TweetSourceLib/OAuth/SignedParameterSet.cs:164-172 | appends the six unescaped `oauth_*=value` entries in the code's order |
| SignedParameters.SignedParameterSet10.AddPostParameters | TweetSourceLib/OAuth/SignedParameterSet.cs:174-181 | the loop appends one escaped entry per POST key, in key order |
| SignedParameters.SignedParameterSet10.AddGetParameters | TweetSourceLib/OAuth/SignedParameterSet.cs:183-192 | the loop appends the non-empty '&'-segments of the query, verbatim |
| SignedParameters.SignedParameterSet10.GetNormalizedRequestParameters | TweetSourceLib/OAuth/SignedParameterSet.cs:148-162 | the collected, sorted, '&'-joined list equals the normalized-parameters function |
| SignedParameters.SignedParameterSet10.GetBaseString | TweetSourceLib/OAuth/SignedParameterSet.cs:136-146 | equals the base-string function |
| SignedParameters.SignedParameterSet10.Signature | TweetSourceLib/OAuth/SignedParameterSet.cs:99-134 | equals the signature function: the method is checked when the signature is read |
| SignedParameters.PostStep | TweetSourceLib/OAuth/SignedParameterSet.cs:176-179 | the entry for the i-th key extends the collected POST entries by one |
| SignedParameters.NonceAndTimestamp | TweetSourceLib/OAuth/SignedParameterSet.cs:64 | the nonce has 11 characters of `CHARS`; the timestamp reads back as the clock value |
| AuthorizationHeaders.VersionError | TweetSourceLib/OAuth/AuthorizationHeader.cs:50-60 | no error exactly for version "1.0" |
| AuthorizationHeaders.VersionExamples | TweetSourceLib/OAuth/AuthorizationHeader.cs:52-58 | "1.0" is accepted; "1.0a" and "" are rejected |
| AuthorizationHeaders.HeaderResult | TweetSourceLib/OAuth/AuthorizationHeader.cs:82-112 | the header exactly when the signature method is HMAC-SHA1, else the signature's exception |
| AuthorizationHeaders.AppendsJoin | TweetSourceLib/OAuth/AuthorizationHeader.cs:86-107 | the seven appends, each but the last with a trailing comma, are the comma-joined fields |
| AuthorizationHeaders.FieldNoComma | TweetSourceLib/OAuth/AuthorizationHeader.cs:88-107 | a field never holds a comma |
| AuthorizationHeaders.HeaderFieldsSplit | TweetSourceLib/OAuth/AuthorizationHeader.cs:82-112 | the header starts with the realm, and the rest splits at ',' into the seven fields in the code's order (RFC 5849 section 3.5.1) |
| AuthorizationHeaders.HeaderFieldDecodes | TweetSourceLib/OAuth/AuthorizationHeader.cs:88-107 | each field starts with the name and `="`, ends with `"`, and the text between the quotes decodes back to the value |
| AuthorizationHeaders.HeaderNonceSigned | TweetSourceLib/OAuth/AuthorizationHeader.cs:91-92 | the header's nonce is the one whose `oauth_nonce` entry the signature covers |
| AuthorizationHeaders.HeaderTimestampSigned | TweetSourceLib/OAuth/AuthorizationHeader.cs:97-98 | the header's timestamp is the one whose `oauth_timestamp` entry the signature covers |
| AuthorizationHeaders.OAuthEntrySigned | TweetSourceLib/OAuth/SignedParameterSet.cs:164-172 | every OAuth entry is among the sorted, signed parameters |
| AuthorizationHeaders.EscThen | TweetSourceLib/OAuth/AuthorizationHeader.cs:88-89 | escaping splits over a piece, one character and an unreserved piece |
| AuthorizationHeaders.EscBase64Shape | TweetSourceLib/OAuth/AuthorizationHeader.cs:88-89 | a Base64 signature escapes only its '/', '+' and '=' |
| AuthorizationHeaders.SignatureFieldExample | TweetSourceTest/OAuth/OAuthSignedParameterSet10Test.cs:58-61 | the test's signature appears in the header as `1597pqb8c9xEm3kkGX%2FfGc%2BTbHU%3D` |
| AuthorizationHeaders.OAuthAuthorizationHeader10.constructor | TweetSourceLib/OAuth/AuthorizationHeader.cs:77-80 | one signed parameter set, built from the base fields, with one nonce and one timestamp |
| AuthorizationHeaders.OAuthAuthorizationHeader10.GetHeaderString | TweetSourceLib/OAuth/AuthorizationHeader.cs:82-112 | the appends equal the header function over that set's own fields, nonce and timestamp |
| AuthorizationHeaders.Create | TweetSourceLib/OAuth/AuthorizationHeader.cs:50-60 | a header over a fresh signed set exactly for version "1.0", else "Version {0} is not supported" with no draw consumed |
| SigningFixture.EscJoinedEntries | TweetSourceTest/OAuth/OAuthSignedParameterSet10Test.cs:55-56 | escaping '&'-joined unreserved `k=v` pieces writes each separator as %26 and %3D |
| SigningFixture.FixtureUrlParts | TweetSourceTest/OAuth/OAuthSignedParameterSet10Test.cs:41 | the fixture URL strips to its path and yields its query |
| SigningFixture.FixtureGetParameters | TweetSourceTest/OAuth/OAuthSignedParameterSet10Test.cs:41 | the GET entries are `first=value1` and `second=value2` |
| SigningFixture.FixtureList | TweetSourceTest/OAuth/OAuthSignedParameterSet10Test.cs:30-48 | the unsorted list: six OAuth entries, then the two GET entries |
| SigningFixture.SortedEntriesInOrder | TweetSourceTest/OAuth/OAuthSignedParameterSet10Test.cs:52-53 | the expected order is ordinally sorted |
| SigningFixture.FixtureSorted | TweetSourceTest/OAuth/OAuthSignedParameterSet10Test.cs:52-53 | sorting the list gives the expected order |
| SigningFixture.FixtureNormalized | TweetSourceTest/OAuth/OAuthSignedParameterSet10Test.cs:52-53 | the normalized string is the expected one |
| SigningFixture.FixtureEscapedNormalized | TweetSourceTest/OAuth/OAuthSignedParameterSet10Test.cs:55-56 | its escape is the expected third part of the base string |
| SigningFixture.EscPathShape | TweetSourceTest/OAuth/OAuthSignedParameterSet10Test.cs:56 | `scheme://host/path` with unreserved pieces escapes to `scheme%3A%2F%2Fhost%2Fpath` |
| SigningFixture.FixtureEscapedPath | TweetSourceTest/OAuth/OAuthSignedParameterSet10Test.cs:56 | the escaped URL without query is `http%3A%2F%2Fwww.gant.com%2Ftest` |
| SigningFixture.FixtureBaseString | TweetSourceTest/OAuth/OAuthSignedParameterSet10Test.cs:55-56 | the fixture's base string is the expected one |
| EventSources.Firing | TweetSourceLib/EventSource/EventSource.cs:80-104 | one handler call when the channel is subscribed, nothing otherwise |
| EventSources.DeliveriesInOrder | TweetSourceLib/EventSource/EventSource.cs:163-164 | with a handler, one `EventReceived` per queued event, the i-th carrying the i-th event; none without a handler |
| EventSources.DeliveriesConcat | TweetSourceLib/EventSource/EventSource.cs:154-166 | draining two batches in turn delivers the same as draining them together |
| EventSources.EventSourceBaseImpl.constructor | TweetSourceLib/EventSource/EventSource.cs:117 | no handlers, an empty queue and no calls |
| EventSources.EventSourceBaseImpl.Subscribe | TweetSourceLib/EventSource/EventSource.cs:43-59 | the channel gains a handler; queue and trace unchanged |
| EventSources.EventSourceBaseImpl.FireEventReceived | TweetSourceLib/EventSource/EventSource.cs:80-84 | the trace gains the call only when a handler is subscribed; the queue is unchanged |
| EventSources.EventSourceBaseImpl.FireSourceDown | TweetSourceLib/EventSource/EventSource.cs:90-94 | the trace gains the call only when a handler is subscribed; the queue is unchanged |
| EventSources.EventSourceBaseImpl.FireSourceUp | TweetSourceLib/EventSource/EventSource.cs:100-104 | the trace gains the call only when a handler is subscribed; the queue is unchanged |
| EventSources.EventSourceBaseImpl.EnqueueEvent | TweetSourceLib/EventSource/EventSource.cs:141-148 | appends at the tail whatever the length, so the count grows by one and earlier entries stay |
| EventSources.EventSourceBaseImpl.Dispatch | TweetSourceLib/EventSource/EventSource.cs:161-165 | the drain loop empties the queue and makes exactly the deliveries of the old queue, in FIFO order |
| EventSources.DispatchOrderExample | TweetSourceLib/EventSource/EventSource.cs:141-166 | enqueueing A, B, C then dispatching calls the handler with A, B, C and leaves 0 queued |
| EventSources.QuietExample | TweetSourceLib/EventSource/EventSource.cs:161-165 | dispatching an empty queue, and firing without a handler, call nothing |
| StreamParameters.AddIf | TweetSourceLib/EventSource/GetBasedTweetEventSourceImpl.cs:46-49 | one pair exactly when the condition holds |
| StreamParameters.IntStrings | TweetSourceLib/EventSource/PostBasedTweetEventSource.cs:75-76 | each integer in decimal, in order |
| StreamParameters.PairTexts | TweetSourceLib/EventSource/GetBasedTweetEventSourceImpl.cs:52 | `key=value` per pair, in order |
| StreamParameters.UrlUnchanged | TweetSourceLib/EventSource/GetBasedTweetEventSourceImpl.cs:44-52 | the URL is unchanged exactly when count and delimited are both 0 (or there are no parameters) |
| StreamParameters.QueryKeys | TweetSourceLib/EventSource/GetBasedTweetEventSourceImpl.cs:46-49 | `count` is present exactly when non-zero, likewise `delimited`, in decimal; at most two pairs |
| StreamParameters.QueryOfConstructedUrl | TweetSourceLib/EventSource/GetBasedTweetEventSourceImpl.cs:52 | for a '?'-free base URL, the result strips back to it and its query segments are exactly the appended pairs, which are signed as GET entries |
| StreamParameters.QueryTextsAlphabet | TweetSourceLib/EventSource/GetBasedTweetEventSourceImpl.cs:52 | each appended pair is non-empty and '&'-free |
| StreamParameters.UrlExample | TweetSourceClientDemo/Tests/EventSource/GetBasedTweetEventSourceImplTest.cs:16-29 | count 10 with delimited 100 gives `?count=10&delimited=100` |
| StreamParameters.ConstructPostData | TweetSourceLib/EventSource/PostBasedTweetEventSource.cs:62-87 | a collection with distinct keys |
| StreamParameters.PairsFromShape | TweetSourceLib/EventSource/PostBasedTweetEventSource.cs:68-83 | one pair per present key, with that key's value |
| StreamParameters.KeyIndexesIncreasing | TweetSourceLib/EventSource/PostBasedTweetEventSource.cs:68-83 | keys appear in the order count, delimited, follow, locations, track |
| StreamParameters.PostKeyDistinct | TweetSourceLib/EventSource/PostBasedTweetEventSource.cs:68-83 | the five keys differ even case-insensitively |
| StreamParameters.PostDataEntries | TweetSourceLib/EventSource/PostBasedTweetEventSourceImpl.cs:39-50 | at most five single-valued entries, in key order |
| StreamParameters.NothingWithoutParameters | TweetSourceLib/EventSource/PostBasedTweetEventSource.cs:62-86 | no parameters, or the defaults, give no post data and the bare URL |
| StreamParameters.PostDataLookup | TweetSourceLib/EventSource/PostBasedTweetEventSource.cs:68-83 | each key reads its value exactly when present |
| StreamParameters.PostDataLookups | TweetSourceLib/EventSource/PostBasedTweetEventSourceImpl.cs:39-50 | count and delimited exactly when non-zero; follow, locations, track exactly when non-empty, comma-joined in order |
| StreamParameters.PostDataExample | TweetSourceClientDemo/Tests/EventSource/PostBasedTweetEventSourceImplTest.cs:16-25 | track {track1, track2} with count 10 gives exactly two entries, `track1,track2` and `10` |
| TweetEventSources.Authorization | TweetSourceLib/EventSource/TweetEventSource.cs:269-288 | the header exactly for version "1.0" and HMAC-SHA1; otherwise the version error first, then the method error |
| TweetEventSources.PostDataAfter | TweetSourceLib/EventSource/PostBasedTweetEventSource.cs:43 | the merged collection keeps distinct keys |
| TweetEventSources.StartError | TweetSourceLib/EventSource/TweetEventSource.cs:159-162 | a WebException becomes ApplicationException("Could not start: " + message); others pass through |
| TweetEventSources.LineEvents | TweetSourceLib/EventSource/TweetEventSource.cs:235-244 | one event per line read, in order, with `InfoText` "Got new data" |
| TweetEventSources.HttpWebRequest.constructor | TweetSourceLib/EventSource/GetBasedTweetEventSourceImpl.cs:59 | a new request is a GET with no headers and no body |
| TweetEventSources.HttpWebRequest.Prepare | TweetSourceLib/EventSource/PostBasedTweetEventSource.cs:45-57 | a fresh request with the given method, content type, headers and body |
| TweetEventSources.StreamingTweetEventSource.constructor | TweetSourceLib/EventSource/TweetEventSource.cs:146-150 | default configuration, empty post data, no reader |
| TweetEventSources.StreamingTweetEventSource.CreateAuthHeader | TweetSourceLib/EventSource/TweetEventSource.cs:269-288 | signs the six configuration values plus the request's URL, method and current post data, with one nonce and one timestamp |
| TweetEventSources.StreamingTweetEventSource.RequestParameters | TweetSourceLib/EventSource/TweetEventSource.cs:271-285 | the parameter set holds the six configuration values, the URL, the method and the shared post data |
| TweetEventSources.StreamingTweetEventSource.SignRequest | TweetSourceLib/EventSource/GetBasedTweetEventSourceImpl.cs:62-63 | the header value is `Authorization` over the current state, or the exception signing throws |
| TweetEventSources.StreamingTweetEventSource.CreateWebRequest | TweetSourceLib/EventSource/TweetEventSource.cs:290 | the request built matches the expected request of its style, or the same exception is thrown; POST styles merge the parameters into the post data |
| TweetEventSources.StreamingTweetEventSource.CreateGetRequest | TweetSourceLib/EventSource/GetBasedTweetEventSourceImpl.cs:56-66 | GET to the URL with the query appended, signed over that final URL |
| TweetEventSources.StreamingTweetEventSource.CreatePostRequest | TweetSourceLib/EventSource/PostBasedTweetEventSource.cs:41-59 | merges the parameters into the post data, then builds the form POST from the merged collection |
| TweetEventSources.StreamingTweetEventSource.FormRequest | TweetSourceLib/EventSource/PostBasedTweetEventSourceImpl.cs:15-31 | signs (signed style only), then opens the request stream and writes the encoded body |
| TweetEventSources.StreamingTweetEventSource.Start | TweetSourceLib/EventSource/TweetEventSource.cs:152-163 | a build error is rethrown (wrapped if a WebException) with the request unchanged; otherwise the request is replaced, then a second reader is refused |
| TweetEventSources.StreamingTweetEventSource.StartThread | TweetSourceLib/EventSource/TweetEventSource.cs:165-176 | refuses with "Cannot start new stream ..." while a reader exists; otherwise registers one |
| TweetEventSources.StreamingTweetEventSource.RequestData | TweetSourceLib/EventSource/TweetEventSource.cs:222-246 | `SourceUp` once the response arrives, then one queued event per line in order; returns the exception that ended reading |
| TweetEventSources.StreamingTweetEventSource.RunThread | TweetSourceLib/EventSource/TweetEventSource.cs:178-220 | the reader trace, one `SourceDown` with the kind's text after an exception, then `Cleanup` in every outcome |
| TweetEventSources.StreamingTweetEventSource.Stop | TweetSourceLib/EventSource/TweetEventSource.cs:253-261 | interrupts exactly when a reader exists, and always ends inactive with empty post data |
| TweetEventSources.StreamingTweetEventSource.Cleanup | TweetSourceLib/EventSource/TweetEventSource.cs:263-267 | no reader and empty post data |
| TweetEventSources.CreateFilterStream | TweetSourceLib/EventSource/TweetEventSource.cs:84-87 | a signed form-POST source for the filter endpoint |
| TweetEventSources.CreateRetweetStream | TweetSourceLib/EventSource/TweetEventSource.cs:93-96 | a GET source for the retweet endpoint |
| TweetEventSources.CreateLinkStream | TweetSourceLib/EventSource/TweetEventSource.cs:102-105 | a GET source for the links endpoint |
| TweetEventSources.CreateSampleStream | TweetSourceLib/EventSource/TweetEventSource.cs:111-114 | a GET source for the sample endpoint |
| TweetEventSources.CreateUserStream | TweetSourceLib/EventSource/TweetEventSource.cs:120-123 | a signed form-POST source for the user-stream endpoint |
| TweetEventSources.ReaderQueuesLines | TweetSourceLib/EventSource/TweetEventSource.cs:235-244 | the reader queues exactly one event per line of an opened response, in order, and nothing else |
| TweetEventSources.ReaderHandlerCalls | TweetSourceLib/EventSource/TweetEventSource.cs:178-246 | one `SourceUp` call when the response opens, one `SourceDown` call exactly when an exception ends it, no `EventReceived` |
| TweetEventSources.ReaderOrder | TweetSourceLib/EventSource/TweetEventSource.cs:178-246 | `SourceUp` comes first, and `SourceDown` comes last, after every queued line |
| TweetEventSources.RequestOutcome | TweetSourceLib/EventSource/TweetEventSource.cs:152-163 | a request fails exactly when signing fails (signed styles) or the request stream cannot be opened (POST styles), checked in that order |
| TweetEventSources.GetOutcome | TweetSourceLib/EventSource/GetBasedTweetEventSourceImpl.cs:56-66 | the GET request, or the signing error, and nothing else |
| TweetEventSources.PostOutcome | TweetSourceLib/EventSource/PostBasedTweetEventSource.cs:41-59 | the form POST with its header and body, or the signing error, then the WebException |
| TweetEventSources.RequestContents | TweetSourceLib/EventSource/PostBasedTweetEventSource.cs:41-59 | what is signed is what is sent: the header signs the request's own URL, method and the collection its body encodes; the unsigned style sends no header |
| TweetEventSources.SignedBodyCovered | TweetSourceLib/EventSource/PostBasedTweetEventSource.cs:43-57 | every `key=value` of a signed POST body is among the sorted parameters the signature covers |
| TweetEventSources.PostBodyDecodes | TweetSourceLib/EventSource/PostBasedTweetEventSource.cs:52-57 | the POST body parses back as the merged collection, one value per key |
| TweetEventSources.NoParametersNoChange | TweetSourceLib/EventSource/GetBasedTweetEventSourceImpl.cs:44-52 | with no parameters, the POST styles send the collection as it was and GET asks for the bare URL |

## Left out

- Threads and blocking: `Thread`, `Interrupt`, `lock`, `AutoResetEvent` and the timed or indefinite wait of `Dispatch` are not modelled. The queue is sequential, and the reader is a method run to completion.
- EventSources.EventSourceBaseImpl.Dispatch: models the drain loop only. It does not wait for an event and has no timeout.
- TweetEventSources.StreamingTweetEventSource.Stop: the interrupt is not delivered to a reader running concurrently. A reader ended by an interrupt is a `Response` ending in `ThreadInterrupted`.
- TweetEventSources.StreamingTweetEventSource.RunThread: runs over a finite `Response`; an endless stream is not modelled.
- The network: `WebRequest.Create`, `GetResponse`, `GetRequestStream`, `StreamReader.ReadLine` and `StreamWriter` are foreign calls. They are replaced by the `Response` value and the `connectError` parameter.
- `HttpWebRequest` is reduced to the fields the library sets: URL, method, content type, headers and body.
- TweetEventSources.StreamingTweetEventSource.CreateGetRequest: the request object is allocated after signing rather than before. Signing reads only the URL and the method, which is the same either way.
- TweetEventSources.StreamingTweetEventSource.FormRequest: the same reordering as for GET.
- HMAC-SHA1, Base64 and the ASCII byte encoding are the `hmacBase64` parameter. The golden signature `1597pqb8c9xEm3kkGX/fGc+TbHU=` therefore cannot be checked; only its escaping in the header is.
- The clock (`SystemClock`, `FixedClock`) is the `epochTotalSeconds` parameter. `System.Random` is the `draw` oracle.
- `Trace` and `Debug` logging are left out.
- Ordinal.Sort: models the ordinal (code-point) order, not the culture-sensitive `string.Compare` of the source. The two orders agree on a pair of entries only when one is a prefix of the other, or when they first differ in two lower-case letters or two digits. That covers the library's own lower-case keys (`oauth_consumer_key`, `oauth_nonce`, `oauth_signature_method`, `oauth_timestamp`, `oauth_token`, `oauth_version`, `count`, `delimited`, `follow`, `locations`, `track`) and its decimal values. It does not cover mixed case or punctuation against a digit. Culture order puts "a" before "B", and '=' and '_' before the digits and letters. Ordinal order puts 'B' (0x42) before 'a' (0x61), '=' (0x3D) after the digits, and '_' (0x5F) between the upper- and lower-case letters. So for a user query segment such as `Foo=1` sorted against `count=10`, or two same-keyed segments whose values differ first in case, the model's normalized string, base string and signature differ from the library's.
- Text.ToUpper: folds only the ASCII letters.
- NameValues.SameKey: `NameValueCollection` key comparison folds only ASCII letters.
- HttpUtil.UnescapeDataString: models decoding of well-formed escapes, which is what `Esc` produces. Malformed `%` sequences are not modelled.
- `Locations` is a `double[]`. The model takes the values as already-formatted strings, because `double.ToString` is not modelled.
- `HttpUtility.ParseQueryString(...).ToString()`: the GET query holds only decimal digits, so it is modelled as a plain `k=v` join with '&'.
- `null` is modelled as `""` for strings and `None` for `StreamingAPIParameters`.
- ParameterSets.AuthParameterSet.constructor: leaves the four credentials at `""`. The source leaves `ConsumerKey`, `ConsumerSecret`, `Token` and `TokenSecret` `null`.
- TweetEventSources.StreamingTweetEventSource.Start: a missing credential is signed as `""` and the start succeeds. In the library, `HttpUtil.Esc(null)` calls `Uri.EscapeDataString(null)`, which throws `ArgumentNullException`. It is reached from the signing key and from `GetHeaderString`. `Start` catches only `WebException`, so the exception escapes `Start`.
- TweetEventSources.StreamingTweetEventSource.constructor: for the same reason, a source whose credentials are never set is not modelled as failing at `Start`.
- Input length: `Uri.EscapeDataString`, which `HttpUtil.Esc` calls, throws `UriFormatException` for inputs longer than 32766 characters on .NET Framework. The model escapes strings of any length.
- RandomString.RandomStringImpl.NextRandomString: `length` is a `nat`. The source takes an `int`, and `new char[length]` throws `OverflowException` for a negative length. The only caller passes 11.
- An exception's `ToString()` is an opaque description string.
- `MaxQueueSize` (`MAX_QUEUE_SIZE`) is declared and never compared, so the queue is unbounded, as in the code.
- Multicast handlers are a set of subscribed channels. Each handler call is one trace entry; the handler code itself is not modelled.
- `PostBasedTweetEventSourceImpl.ConstructPostData` is line for line the same as `PostBasedTweetEventSource.ConstructPostData`. One function models both.
- TweetSourceLib/OAuth/CalculatedParameterSet.cs is not part of this model; it is an older revision that the header code does not use.
- TweetSourceLib/OAuth/OAuthWebRequest.cs is not part of this model; it is I/O plumbing over a helper that `HttpUtil` does not define.
- `TweetEventSourceBaseImpl`, the base of the GET classes and of `PostBasedTweetEventSourceImpl`, is not part of this model. It is taken to provide the same `CreateAuthHeader` and `PostData` as `StreamingTweetEventSource`.
- The factories name classes of another revision (`RetweetStreamEventSource` and others). They are modelled as the GET or POST source of the matching endpoint.
- `OAuthSignedParameterSet10`, `RandomStringGenerator` and `SystemClock`, named by `CreateSignedParameterSet`, are modelled as `SignedParameterSet10Impl`, `RandomStringImpl` and the clock parameter.
- The demo program, the assembly info and the test classes are not modelled. The tests' expected values appear as example lemmas.
