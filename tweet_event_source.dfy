/**
 * `StreamingTweetEventSource`: builds the Streaming API request for one of three
 * request styles, starts the reader, and turns what the connection delivers into
 * `SourceUp`, queued tweets and `SourceDown`. The reader thread is modelled as a
 * method run to completion over a finite `Response`; the network, the thread and
 * the clock are parameters.
 */
module TweetEventSources {
  import opened Text
  import opened Results
  import opened NameValues
  import opened HttpUtil
  import opened OAuthSignature
  import opened RandomString
  import opened ParameterSets
  import opened SignedParameters
  import opened AuthorizationHeaders
  import opened EventSources
  import opened StreamParameters
  import opened Ordinal

  /**
   * The three `CreateWebRequest` overrides: signed GET with the parameters in the
   * query (`GetBasedTweetEventSourceImpl`), signed form POST
   * (`PostBasedTweetEventSource`), and form POST without an Authorization header
   * (`PostBasedTweetEventSourceImpl`).
   */
  datatype RequestStyle = GetBased | PostBasedSigned | PostBasedUnsigned

  /** `TweetEventArgs`. */
  datatype TweetEventArgs = TweetEventArgs(jsonText: string, infoText: string)

  /** The exception kinds the reader thread tells apart; the string is the exception's `ToString()`. */
  datatype Thrown =
    | ThreadInterrupted
    | Web(description: string)
    | Application(description: string)
    | Unhandled(description: string)

  /** How reading the response stream ends: the last line was read, or an exception interrupted it. */
  datatype StreamEnd = EndOfStream | Broken(cause: Thrown)

  /** What `GetResponse` and the stream reader deliver: an exception, or lines followed by an end. */
  datatype Response = Refused(cause: Thrown) | Opened(lines: seq<string>, end: StreamEnd)

  /** The request a `CreateWebRequest` override hands back, as values. */
  datatype WebRequestSpec = WebRequestSpec(
    url: string,
    httpMethod: string,
    contentType: string,
    headers: seq<(string, string)>,
    body: string)

  /** The six fields of `AuthParameterSet`. */
  datatype AuthFields = AuthFields(
    consumerKey: string,
    consumerSecret: string,
    token: string,
    tokenSecret: string,
    oauthVersion: string,
    signatureMethod: string)

  const FormContentType: string := "application/x-www-form-urlencoded"
  const AlreadyActiveMessage: string :=
    "Cannot start new stream because another stream is still active. Call Stop() first"
  const EstablishedInfo: string := "Connection established"
  const NewDataInfo: string := "Got new data"

  // ---------------------------------------------------------------------------
  // The request

  /** What `CreateAuthHeader` signs: the configuration plus the request's URL, method and form data. */
  function SigningFor(auth: AuthFields, url: string, httpMethod: string, entries: seq<Entry>,
                      nonce: string, timestamp: string): SigningInput
  {
    SigningInput(auth.consumerKey, auth.consumerSecret, auth.token, auth.tokenSecret,
      auth.oauthVersion, auth.signatureMethod, url, httpMethod, entries, nonce, timestamp)
  }

  /** `CreateAuthHeader(...).GetHeaderString()`: the version check of `Create`, then the header. */
  function Authorization(input: SigningInput, hmacBase64: (string, string) -> string): (r: Result<string>)
    ensures r.Success? <==> input.oauthVersion == SupportedVersion && input.signatureMethod == HmacSha1
    ensures r.Success? ==> r.value == HeaderString(input, hmacBase64(SigningKey(input), BaseString(input)))
    ensures input.oauthVersion != SupportedVersion ==>
      r == Failure(ApplicationException("Version " + input.oauthVersion + " is not supported"))
    ensures input.oauthVersion == SupportedVersion && input.signatureMethod != HmacSha1 ==>
      r == Failure(ApplicationException("Signature method " + input.signatureMethod + " is not supported"))
  {
    match VersionError(input.oauthVersion)
    case Some(e) => Failure(e)
    case None => HeaderResult(input, hmacBase64)
  }

  /** The collection after `PostData.Add(ConstructPostData(p))`: GET leaves it alone. */
  function PostDataAfter(style: RequestStyle, entries: seq<Entry>, p: Option<StreamingAPIParameters>): (r: seq<Entry>)
    requires WellFormed(entries)
    ensures WellFormed(r)
  {
    if style == GetBased then entries else AddAll(entries, ConstructPostData(p))
  }

  /**
   * What each `CreateWebRequest` override builds or throws. `entries` is the shared
   * collection beforehand, `nonce` and `timestamp` what signing draws, and
   * `connectError` the WebException `GetRequestStream` may throw.
   */
  function ExpectedRequest(style: RequestStyle, streamUrl: string, auth: AuthFields,
                           p: Option<StreamingAPIParameters>, entries: seq<Entry>,
                           nonce: string, timestamp: string,
                           hmacBase64: (string, string) -> string,
                           connectError: Option<string>): Result<WebRequestSpec>
    requires WellFormed(entries)
  {
    if style == GetBased then
      ExpectedGet(ConstructUrlWithQueryString(streamUrl, p), auth, entries, nonce, timestamp, hmacBase64)
    else
      ExpectedPost(style == PostBasedSigned, streamUrl, auth, AddAll(entries, ConstructPostData(p)),
        nonce, timestamp, hmacBase64, connectError)
  }

  /** The GET request to `url`, which already holds the query, with its Authorization header. */
  function ExpectedGet(url: string, auth: AuthFields, entries: seq<Entry>, nonce: string, timestamp: string,
                       hmacBase64: (string, string) -> string): Result<WebRequestSpec>
  {
    var header := Authorization(SigningFor(auth, url, "GET", entries, nonce, timestamp), hmacBase64);
    if header.Failure? then Failure(header.error)
    else Success(WebRequestSpec(url, "GET", "", [("Authorization", header.value)], ""))
  }

  /** The form POST of `entries`, the already merged collection, signed when `signed` holds. */
  function ExpectedPost(signed: bool, url: string, auth: AuthFields, entries: seq<Entry>,
                        nonce: string, timestamp: string,
                        hmacBase64: (string, string) -> string,
                        connectError: Option<string>): Result<WebRequestSpec>
  {
    var header := Authorization(SigningFor(auth, url, "POST", entries, nonce, timestamp), hmacBase64);
    if signed && header.Failure? then Failure(header.error)
    else if connectError.Some? then Failure(WebException(connectError.value))
    else Success(WebRequestSpec(url, "POST", FormContentType,
      if signed then [("Authorization", header.value)] else [], FormEncoding(entries)))
  }

  /** The exception `Start` lets out: a WebException is wrapped, anything else passes through. */
  function StartError(e: Exception): (r: Exception)
    ensures r.ApplicationException?
    ensures e.WebException? <==> r == ApplicationException("Could not start: " + e.message)
  {
    match e
    case WebException(m) => ApplicationException("Could not start: " + m)
    case ApplicationException(m) =>
      assert |e.message| < |"Could not start: " + e.message|;
      e
  }

  // ---------------------------------------------------------------------------
  // The reader

  /** The `InfoText` of the `SourceDown` event for each exception kind. */
  function DownInfo(t: Thrown): string
  {
    match t
    case ThreadInterrupted => "Connection down: Request thread ended due to interrupt"
    case Web(d) => "Connection down (web exception): " + d
    case Application(d) => "Connection down: " + d
    case Unhandled(d) => "Connection down (unhandled exception): " + d
  }

  /** The exception that ends the reader, if any. */
  function EndCause(response: Response): Option<Thrown>
  {
    match response
    case Refused(t) => Some(t)
    case Opened(_, EndOfStream) => None
    case Opened(_, Broken(t)) => Some(t)
  }

  /** One queued event per line read, in order. */
  function LineEvents(lines: seq<string>): (r: seq<TweetEventArgs>)
    ensures |r| == |lines|
    ensures forall i :: 0 <= i < |lines| ==> r[i] == TweetEventArgs(lines[i], NewDataInfo)
  {
    if lines == [] then [] else [TweetEventArgs(lines[0], NewDataInfo)] + LineEvents(lines[1..])
  }

  /** The trace of queueing each event in turn. */
  function Enqueues<T>(events: seq<T>): seq<Action<T>>
  {
    if events == [] then [] else [Queued(events[0])] + Enqueues(events[1..])
  }

  /** What `RequestData` does before it returns or throws. */
  function ReadTrace(subscribed: set<Channel>, response: Response): seq<Action<TweetEventArgs>>
  {
    match response
    case Refused(_) => []
    case Opened(lines, _) =>
      Firing(subscribed, SourceUp, TweetEventArgs("", EstablishedInfo)) + Enqueues(LineEvents(lines))
  }

  /** The whole of `RunThead`: the reading, then `SourceDown` if an exception ended it. */
  function ReaderTrace(subscribed: set<Channel>, response: Response): seq<Action<TweetEventArgs>>
  {
    ReadTrace(subscribed, response) +
      match EndCause(response)
      case None => []
      case Some(t) => Firing(subscribed, SourceDown, TweetEventArgs("", DownInfo(t)))
  }

  /** The events a trace puts in the queue, in order. */
  function QueuedData<T>(trace: seq<Action<T>>): seq<T>
  {
    if trace == [] then []
    else (if trace[0].Queued? then [trace[0].data] else []) + QueuedData(trace[1..])
  }

  /** How many handler calls on `channel` a trace holds. */
  function FiredCount<T>(trace: seq<Action<T>>, channel: Channel): nat
  {
    if trace == [] then 0
    else (if trace[0].Fired? && trace[0].channel == channel then 1 else 0) + FiredCount(trace[1..], channel)
  }

  // ---------------------------------------------------------------------------
  // Objects

  /** A built request matches its specification, or the same exception was thrown. */
  ghost predicate Built(r: Result<HttpWebRequest>, e: Result<WebRequestSpec>)
    reads if r.Success? then {r.value} else {}
  {
    && (r.Success? <==> e.Success?)
    && (r.Failure? ==> r.error == e.error)
    && (r.Success? && e.Success? ==> r.value.Snapshot() == e.value)
  }

  /** The part of `HttpWebRequest` the library sets: a new request is a GET with no headers and no body. */
  class HttpWebRequest {
    var url: string
    var httpMethod: string
    var contentType: string
    var headers: seq<(string, string)>
    /** What was written to the request stream. */
    var body: string

    /** `WebRequest.Create(url)`. */
    constructor (url: string)
      ensures this.url == url && httpMethod == "GET" && contentType == "" && headers == [] && body == ""
    {
      this.url := url;
      httpMethod, contentType, headers, body := "GET", "", [], "";
    }

    function Snapshot(): WebRequestSpec
      reads this
    {
      WebRequestSpec(url, httpMethod, contentType, headers, body)
    }

    /**
     * `WebRequest.Create(url)` followed by setting `Method` and `ContentType`,
     * adding the headers and writing the body to the request stream.
     */
    static method Prepare(wanted: WebRequestSpec) returns (req: HttpWebRequest)
      ensures fresh(req) && req.Snapshot() == wanted
    {
      req := new HttpWebRequest(wanted.url);
      req.httpMethod := wanted.httpMethod;
      req.contentType := wanted.contentType;
      req.headers := req.headers + wanted.headers;
      if wanted.body != "" {
        req.body := wanted.body;
      }
    }
  }

  class StreamingTweetEventSource {
    const style: RequestStyle
    var streamRequestUrl: string
    const config: AuthParameterSet
    /** The form data; signing and the request body read the same collection. */
    const postData: NameValueCollection
    /** The `EventSourceBaseImpl` part: handlers, queue and the trace of their calls. */
    const events: EventSourceBaseImpl<TweetEventArgs>
    var request: Option<HttpWebRequest>
    /** Whether `requestThread` refers to a thread. */
    var requestThread: bool

    ghost predicate Valid()
      reads this, postData
    {
      postData.Valid()
    }

    /** The constructor, with the `StreamRequestUrl` a concrete source sets. */
    constructor (style: RequestStyle, url: string)
      ensures this.style == style && streamRequestUrl == url
      ensures Valid() && postData.entries == [] && request == None && !requestThread
      ensures fresh(config) && fresh(postData) && fresh(events)
      ensures AuthConfig() == AuthFields("", "", "", "", DefaultOAuthVersion, DefaultSignatureMethod)
      ensures events.subscribed == {} && events.eventQueue == [] && events.trace == []
    {
      this.style := style;
      streamRequestUrl := url;
      config := new AuthParameterSet();
      postData := new NameValueCollection();
      events := new EventSourceBaseImpl<TweetEventArgs>();
      request := None;
      requestThread := false;
    }

    /** `AuthConfig`, as values. */
    function AuthConfig(): AuthFields
      reads this, config
    {
      AuthFields(config.consumerKey, config.consumerSecret, config.token, config.tokenSecret,
        config.oauthVersion, config.signatureMethod)
    }

    /** `Active`: a reader thread is registered. */
    function Active(): bool
      reads this
    {
      requestThread
    }

    /**
     * `CreateAuthHeader`: a parameter set over the configuration and the request's
     * URL and method, sharing `postData`, handed to `AuthorizationHeader.Create`.
     */
    method CreateAuthHeader(url: string, httpMethod: string, random: RandomStringImpl, epochTotalSeconds: int)
      returns (r: Result<OAuthAuthorizationHeader10>)
      requires Valid()
      modifies random.random
      ensures r.Success? <==> VersionError(config.oauthVersion).None?
      ensures r.Failure? ==> r.error == VersionError(config.oauthVersion).value
      ensures r.Failure? ==> random.random.calls == old(random.random.calls)
      ensures r.Success? ==> random.random.calls == old(random.random.calls) + NonceLength
      ensures r.Success? ==> fresh(r.value.parameters) && r.value.parameters.postData == postData
      ensures r.Success? ==> r.value.parameters.Input() == SigningFor(AuthConfig(), url, httpMethod,
        postData.entries, RandomText(random.random.draw, old(random.random.calls), NonceLength),
        IntToString(epochTotalSeconds))
    {
      var parameters := RequestParameters(url, httpMethod);
      r := Create(parameters, random, epochTotalSeconds);
    }

    /** The object initializer in `CreateAuthHeader`: six fields from `config`, then URL, method and `postData`. */
    method RequestParameters(url: string, httpMethod: string) returns (parameters: HttpParameterSet)
      ensures fresh(parameters)
      ensures parameters.consumerKey == config.consumerKey && parameters.consumerSecret == config.consumerSecret
      ensures parameters.token == config.token && parameters.tokenSecret == config.tokenSecret
      ensures parameters.oauthVersion == config.oauthVersion && parameters.signatureMethod == config.signatureMethod
      ensures parameters.url == url && parameters.requestMethod == httpMethod && parameters.postData == postData
    {
      parameters := new HttpParameterSet();
      parameters.consumerKey, parameters.consumerSecret, parameters.token, parameters.tokenSecret :=
        config.consumerKey, config.consumerSecret, config.token, config.tokenSecret;
      parameters.oauthVersion, parameters.signatureMethod := config.oauthVersion, config.signatureMethod;
      parameters.url, parameters.requestMethod, parameters.postData := url, httpMethod, postData;
    }

    /** `CreateAuthHeader(request).GetHeaderString()`: the Authorization value, or the exception signing throws. */
    method SignRequest(url: string, httpMethod: string, random: RandomStringImpl, epochTotalSeconds: int,
                       hmacBase64: (string, string) -> string)
      returns (r: Result<string>)
      requires Valid()
      modifies random.random
      ensures r == old(Authorization(SigningFor(AuthConfig(), url, httpMethod, postData.entries,
        RandomText(random.random.draw, random.random.calls, NonceLength),
        IntToString(epochTotalSeconds)), hmacBase64))
      ensures random.random.calls == old(random.random.calls +
        if VersionError(config.oauthVersion).None? then NonceLength else 0)
      ensures unchanged(this, config, postData)
    {
      var header := CreateAuthHeader(url, httpMethod, random, epochTotalSeconds);
      if header.Failure? {
        r := Failure(header.error);
      } else {
        r := header.value.GetHeaderString(hmacBase64);
      }
    }

    /** The three `CreateWebRequest` overrides, selected by `style`. */
    method CreateWebRequest(p: Option<StreamingAPIParameters>, random: RandomStringImpl, epochTotalSeconds: int,
                            hmacBase64: (string, string) -> string, connectError: Option<string>)
      returns (r: Result<HttpWebRequest>)
      requires Valid()
      modifies postData, random.random
      ensures Valid()
      ensures postData.entries == PostDataAfter(style, old(postData.entries), p)
      ensures r.Success? ==> fresh(r.value)
      ensures Built(r, old(ExpectedRequest(style, streamRequestUrl, AuthConfig(), p, postData.entries,
        RandomText(random.random.draw, random.random.calls, NonceLength),
        IntToString(epochTotalSeconds), hmacBase64, connectError)))
      ensures random.random.calls == old(random.random.calls +
        if style != PostBasedUnsigned && VersionError(config.oauthVersion).None? then NonceLength else 0)
      ensures unchanged(this)
    {
      if style == GetBased {
        r := CreateGetRequest(p, random, epochTotalSeconds, hmacBase64);
      } else {
        r := CreatePostRequest(p, random, epochTotalSeconds, hmacBase64, connectError);
      }
    }

    /**
     * `GetBasedTweetEventSourceImpl.CreateWebRequest`: the parameters go into the
     * signed URL. Signing reads only the URL and the method, so the request object
     * is allocated once the header is known.
     */
    method CreateGetRequest(p: Option<StreamingAPIParameters>, random: RandomStringImpl, epochTotalSeconds: int,
                            hmacBase64: (string, string) -> string)
      returns (r: Result<HttpWebRequest>)
      requires Valid() && style == GetBased
      modifies random.random
      ensures r.Success? ==> fresh(r.value)
      ensures Built(r, old(ExpectedGet(ConstructUrlWithQueryString(streamRequestUrl, p), AuthConfig(),
        postData.entries, RandomText(random.random.draw, random.random.calls, NonceLength),
        IntToString(epochTotalSeconds), hmacBase64)))
      ensures random.random.calls == old(random.random.calls +
        if VersionError(config.oauthVersion).None? then NonceLength else 0)
      ensures unchanged(this)
    {
      var url := ConstructUrlWithQueryString(streamRequestUrl, p);
      var header := SignRequest(url, "GET", random, epochTotalSeconds, hmacBase64);
      if header.Failure? {
        return Failure(header.error);
      }
      var req := HttpWebRequest.Prepare(WebRequestSpec(url, "GET", "", [("Authorization", header.value)], ""));
      r := Success(req);
    }

    /**
     * The two form-POST overrides: the parameters are merged into `postData`, the
     * request is signed (`PostBasedTweetEventSource` only), and the encoded
     * collection is written as the body.
     */
    method CreatePostRequest(p: Option<StreamingAPIParameters>, random: RandomStringImpl, epochTotalSeconds: int,
                             hmacBase64: (string, string) -> string, connectError: Option<string>)
      returns (r: Result<HttpWebRequest>)
      requires Valid() && style != GetBased
      modifies postData, random.random
      ensures Valid()
      ensures postData.entries == AddAll(old(postData.entries), ConstructPostData(p))
      ensures r.Success? ==> fresh(r.value)
      ensures Built(r, ExpectedPost(style == PostBasedSigned, streamRequestUrl, AuthConfig(), postData.entries,
        RandomText(random.random.draw, old(random.random.calls), NonceLength),
        IntToString(epochTotalSeconds), hmacBase64, connectError))
      ensures random.random.calls == old(random.random.calls +
        if style == PostBasedSigned && VersionError(config.oauthVersion).None? then NonceLength else 0)
      ensures unchanged(this)
    {
      postData.AddCollection(ConstructPostData(p));
      r := FormRequest(random, epochTotalSeconds, hmacBase64, connectError);
    }

    /**
     * The rest of the form-POST overrides once `postData` holds the merged
     * collection: the request object, its Authorization header (signed style
     * only), then `GetRequestStream` and the encoded body.
     */
    method FormRequest(random: RandomStringImpl, epochTotalSeconds: int,
                       hmacBase64: (string, string) -> string, connectError: Option<string>)
      returns (r: Result<HttpWebRequest>)
      requires Valid() && style != GetBased
      modifies random.random
      ensures r.Success? ==> fresh(r.value)
      ensures Built(r, old(ExpectedPost(style == PostBasedSigned, streamRequestUrl, AuthConfig(), postData.entries,
        RandomText(random.random.draw, random.random.calls, NonceLength),
        IntToString(epochTotalSeconds), hmacBase64, connectError)))
      ensures random.random.calls == old(random.random.calls +
        if style == PostBasedSigned && VersionError(config.oauthVersion).None? then NonceLength else 0)
      ensures unchanged(this, config, postData)
    {
      var header: Result<string> := Success("");
      if style == PostBasedSigned {
        header := SignRequest(streamRequestUrl, "POST", random, epochTotalSeconds, hmacBase64);
        if header.Failure? {
          return Failure(header.error);
        }
      }
      if connectError.Some? {
        return Failure(WebException(connectError.value));
      }
      var encoded := EncodeFormPostData(postData.entries);
      var headers := if style == PostBasedSigned then [("Authorization", header.value)] else [];
      var req := HttpWebRequest.Prepare(WebRequestSpec(streamRequestUrl, "POST", FormContentType, headers, encoded));
      r := Success(req);
    }

    /**
     * `Start`: builds the request, then registers the reader unless one is active.
     * The result is the exception `Start` throws, if any.
     */
    method Start(p: Option<StreamingAPIParameters>, random: RandomStringImpl, epochTotalSeconds: int,
                 hmacBase64: (string, string) -> string, connectError: Option<string>)
      returns (thrown: Option<Exception>)
      requires Valid()
      modifies this, postData, random.random
      ensures Valid()
      ensures postData.entries == PostDataAfter(style, old(postData.entries), p)
      ensures var e := old(ExpectedRequest(style, streamRequestUrl, AuthConfig(), p, postData.entries,
          RandomText(random.random.draw, random.random.calls, NonceLength),
          IntToString(epochTotalSeconds), hmacBase64, connectError));
        && (e.Failure? ==> thrown == Some(StartError(e.error)) && request == old(request))
        && (e.Success? ==> request.Some? && fresh(request.value) && request.value.Snapshot() == e.value)
        && (e.Success? && old(requestThread) ==> thrown == Some(ApplicationException(AlreadyActiveMessage)))
        && (e.Success? && !old(requestThread) ==> thrown == None)
      ensures Active() == (old(Active()) || thrown == None)
      ensures streamRequestUrl == old(streamRequestUrl)
    {
      var r := CreateWebRequest(p, random, epochTotalSeconds, hmacBase64, connectError);
      if r.Failure? {
        return Some(StartError(r.error));
      }
      request := Some(r.value);
      thrown := StartThread();
    }

    /** `StartThread`: refuses while a reader is active, otherwise starts one. */
    method StartThread() returns (thrown: Option<Exception>)
      modifies this
      ensures requestThread
      ensures old(requestThread) ==> thrown == Some(ApplicationException(AlreadyActiveMessage))
      ensures !old(requestThread) ==> thrown == None
      ensures request == old(request) && streamRequestUrl == old(streamRequestUrl)
    {
      if requestThread {
        return Some(ApplicationException(AlreadyActiveMessage));
      }
      requestThread := true;
      thrown := None;
    }

    /** `RequestData`: `SourceUp` once the response arrives, then one queued event per line. */
    method RequestData(response: Response) returns (thrown: Option<Thrown>)
      modifies events
      ensures thrown == EndCause(response)
      ensures events.subscribed == old(events.subscribed)
      ensures events.trace == old(events.trace) + ReadTrace(events.subscribed, response)
      ensures events.eventQueue == old(events.eventQueue) + (if response.Opened? then LineEvents(response.lines) else [])
    {
      if response.Refused? {
        return Some(response.cause);
      }
      events.FireSourceUp(TweetEventArgs("", EstablishedInfo));
      ghost var afterUp := events.trace;
      var lines := response.lines;
      for i := 0 to |lines|
        invariant events.subscribed == old(events.subscribed)
        invariant events.trace == afterUp + Enqueues(LineEvents(lines[..i]))
        invariant events.eventQueue == old(events.eventQueue) + LineEvents(lines[..i])
      {
        ReadStep(lines, i);
        events.EnqueueEvent(TweetEventArgs(lines[i], NewDataInfo));
      }
      assert lines[..|lines|] == lines;
      thrown := if response.end.Broken? then Some(response.end.cause) else None;
    }

    /** `RunThead`: reads, reports the exception that ended the reading as `SourceDown`, then cleans up. */
    method RunThread(response: Response)
      modifies this, postData, events
      ensures events.subscribed == old(events.subscribed)
      ensures events.trace == old(events.trace) + ReaderTrace(events.subscribed, response)
      ensures events.eventQueue == old(events.eventQueue) + (if response.Opened? then LineEvents(response.lines) else [])
      ensures !Active() && Valid() && postData.entries == []
      ensures request == old(request) && streamRequestUrl == old(streamRequestUrl)
    {
      var thrown := RequestData(response);
      if thrown.Some? {
        events.FireSourceDown(TweetEventArgs("", DownInfo(thrown.value)));
      }
      Cleanup();
    }

    /** `Stop`: interrupts a running reader, if there is one, and cleans up. */
    method Stop() returns (interrupted: bool)
      modifies this, postData
      ensures interrupted == old(Active())
      ensures !Active() && Valid() && postData.entries == []
      ensures request == old(request) && streamRequestUrl == old(streamRequestUrl)
    {
      interrupted := requestThread;
      Cleanup();
    }

    /** `Cleanup`: forgets the reader and empties the form data, ready for the next `Start`. */
    method Cleanup()
      modifies this, postData
      ensures !Active() && Valid() && postData.entries == []
      ensures request == old(request) && streamRequestUrl == old(streamRequestUrl)
    {
      requestThread := false;
      postData.Clear();
    }
  }

  // ---------------------------------------------------------------------------
  // Factories

  method CreateFilterStream() returns (s: StreamingTweetEventSource)
    ensures fresh(s) && s.style == PostBasedSigned && s.streamRequestUrl == DefaultFilterStreamUrl
    ensures s.Valid() && !s.Active() && s.postData.entries == []
  {
    s := new StreamingTweetEventSource(PostBasedSigned, DefaultFilterStreamUrl);
  }

  method CreateRetweetStream() returns (s: StreamingTweetEventSource)
    ensures fresh(s) && s.style == GetBased && s.streamRequestUrl == DefaultRetweetUrl
    ensures s.Valid() && !s.Active() && s.postData.entries == []
  {
    s := new StreamingTweetEventSource(GetBased, DefaultRetweetUrl);
  }

  method CreateLinkStream() returns (s: StreamingTweetEventSource)
    ensures fresh(s) && s.style == GetBased && s.streamRequestUrl == DefaultLinkStreamUrl
    ensures s.Valid() && !s.Active() && s.postData.entries == []
  {
    s := new StreamingTweetEventSource(GetBased, DefaultLinkStreamUrl);
  }

  method CreateSampleStream() returns (s: StreamingTweetEventSource)
    ensures fresh(s) && s.style == GetBased && s.streamRequestUrl == DefaultSampleStreamUrl
    ensures s.Valid() && !s.Active() && s.postData.entries == []
  {
    s := new StreamingTweetEventSource(GetBased, DefaultSampleStreamUrl);
  }

  /** `CreateUserStrean` (spelled so in the source). */
  method CreateUserStream() returns (s: StreamingTweetEventSource)
    ensures fresh(s) && s.style == PostBasedSigned && s.streamRequestUrl == DefaultUserStreamUrl
    ensures s.Valid() && !s.Active() && s.postData.entries == []
  {
    s := new StreamingTweetEventSource(PostBasedSigned, DefaultUserStreamUrl);
  }

  // ---------------------------------------------------------------------------
  // Helper lemmas for the reader loop

  lemma {:induction false} LineEventsSnoc(lines: seq<string>, line: string)
    ensures LineEvents(lines + [line]) == LineEvents(lines) + [TweetEventArgs(line, NewDataInfo)]
  {
    var l := LineEvents(lines + [line]);
    var r := LineEvents(lines) + [TweetEventArgs(line, NewDataInfo)];
    assert |l| == |r|;
    forall i | 0 <= i < |l| ensures l[i] == r[i] {
      assert (lines + [line])[i] == if i < |lines| then lines[i] else line;
    }
  }

  /** One more line read: one more event, queued at the end. */
  lemma ReadStep(lines: seq<string>, i: nat)
    requires i < |lines|
    ensures LineEvents(lines[..i + 1]) == LineEvents(lines[..i]) + [TweetEventArgs(lines[i], NewDataInfo)]
    ensures Enqueues(LineEvents(lines[..i + 1])) ==
      Enqueues(LineEvents(lines[..i])) + [Queued(TweetEventArgs(lines[i], NewDataInfo))]
  {
    var e := TweetEventArgs(lines[i], NewDataInfo);
    assert lines[..i + 1] == lines[..i] + [lines[i]];
    LineEventsSnoc(lines[..i], lines[i]);
    EnqueuesConcat(LineEvents(lines[..i]), [e]);
    assert Enqueues([e]) == [Queued(e)];
  }

  lemma {:induction false} EnqueuesConcat<T>(a: seq<T>, b: seq<T>)
    ensures Enqueues(a + b) == Enqueues(a) + Enqueues(b)
  {
    if a == [] {
      assert a + b == b;
    } else {
      assert (a + b)[1..] == a[1..] + b;
      EnqueuesConcat(a[1..], b);
    }
  }

  // ---------------------------------------------------------------------------
  // What the reader does, over the whole trace

  lemma {:induction false} QueuedDataConcat<T>(a: seq<Action<T>>, b: seq<Action<T>>)
    ensures QueuedData(a + b) == QueuedData(a) + QueuedData(b)
  {
    if a == [] {
      assert a + b == b;
    } else {
      assert (a + b)[1..] == a[1..] + b;
      QueuedDataConcat(a[1..], b);
    }
  }

  lemma {:induction false} FiredCountConcat<T>(a: seq<Action<T>>, b: seq<Action<T>>, channel: Channel)
    ensures FiredCount(a + b, channel) == FiredCount(a, channel) + FiredCount(b, channel)
  {
    if a == [] {
      assert a + b == b;
    } else {
      assert (a + b)[1..] == a[1..] + b;
      FiredCountConcat(a[1..], b, channel);
    }
  }

  /** Queueing calls no handler and queues exactly the events given. */
  lemma {:induction false} EnqueuesOnlyQueue<T>(events: seq<T>, channel: Channel)
    ensures QueuedData(Enqueues(events)) == events
    ensures FiredCount(Enqueues(events), channel) == 0
  {
    if events != [] {
      var t := Enqueues(events);
      assert t[1..] == Enqueues(events[1..]);
      EnqueuesOnlyQueue(events[1..], channel);
      assert events == [events[0]] + events[1..];
    }
  }

  /** Firing queues nothing and makes one call on its channel when a handler is subscribed. */
  lemma FiringOnlyCalls<T>(subscribed: set<Channel>, fired: Channel, data: T, channel: Channel)
    ensures QueuedData(Firing(subscribed, fired, data)) == []
    ensures FiredCount(Firing(subscribed, fired, data), channel) ==
      if fired in subscribed && fired == channel then 1 else 0
  {
    if fired in subscribed {
      assert Firing(subscribed, fired, data)[1..] == [];
    }
  }

  /** The reader queues one event per line of an opened response, in order, and nothing else. */
  lemma ReaderQueuesLines(subscribed: set<Channel>, response: Response)
    ensures QueuedData(ReaderTrace(subscribed, response)) ==
      if response.Opened? then LineEvents(response.lines) else []
  {
    var down := match EndCause(response)
      case None => []
      case Some(t) => Firing(subscribed, SourceDown, TweetEventArgs("", DownInfo(t)));
    assert ReaderTrace(subscribed, response) == ReadTrace(subscribed, response) + down;
    QueuedDataConcat(ReadTrace(subscribed, response), down);
    if EndCause(response).Some? {
      FiringOnlyCalls(subscribed, SourceDown, TweetEventArgs("", DownInfo(EndCause(response).value)), SourceDown);
    }
    if response.Opened? {
      var up := Firing(subscribed, SourceUp, TweetEventArgs("", EstablishedInfo));
      QueuedDataConcat(up, Enqueues(LineEvents(response.lines)));
      FiringOnlyCalls(subscribed, SourceUp, TweetEventArgs("", EstablishedInfo), SourceUp);
      EnqueuesOnlyQueue(LineEvents(response.lines), SourceUp);
    }
  }

  /**
   * The reader calls the `SourceUp` handler once when the response arrives, the
   * `SourceDown` handler once when an exception ends it, and never `EventReceived`:
   * tweets reach clients only through `Dispatch`.
   */
  lemma ReaderHandlerCalls(subscribed: set<Channel>, response: Response, channel: Channel)
    ensures FiredCount(ReaderTrace(subscribed, response), channel) ==
      (if channel == SourceUp && SourceUp in subscribed && response.Opened? then 1 else 0) +
      (if channel == SourceDown && SourceDown in subscribed && EndCause(response).Some? then 1 else 0)
  {
    var down := match EndCause(response)
      case None => []
      case Some(t) => Firing(subscribed, SourceDown, TweetEventArgs("", DownInfo(t)));
    assert ReaderTrace(subscribed, response) == ReadTrace(subscribed, response) + down;
    FiredCountConcat(ReadTrace(subscribed, response), down, channel);
    if EndCause(response).Some? {
      FiringOnlyCalls(subscribed, SourceDown, TweetEventArgs("", DownInfo(EndCause(response).value)), channel);
    }
    if response.Opened? {
      var up := Firing(subscribed, SourceUp, TweetEventArgs("", EstablishedInfo));
      FiredCountConcat(up, Enqueues(LineEvents(response.lines)), channel);
      FiringOnlyCalls(subscribed, SourceUp, TweetEventArgs("", EstablishedInfo), channel);
      EnqueuesOnlyQueue(LineEvents(response.lines), channel);
    }
  }

  /** `SourceUp` comes before every queued line, and `SourceDown` after all of them. */
  lemma ReaderOrder(subscribed: set<Channel>, response: Response)
    ensures response.Opened? && SourceUp in subscribed ==>
      ReaderTrace(subscribed, response)[0] == Fired(SourceUp, TweetEventArgs("", EstablishedInfo))
    ensures EndCause(response).Some? && SourceDown in subscribed ==>
      var t := ReaderTrace(subscribed, response);
      |t| > 0 && t[|t| - 1] == Fired(SourceDown, TweetEventArgs("", DownInfo(EndCause(response).value)))
  {
  }

  // ---------------------------------------------------------------------------
  // What the request is

  /** The error signing reports, when it fails. */
  function SigningError(auth: AuthFields): Option<Exception>
  {
    if auth.oauthVersion != SupportedVersion then
      Some(ApplicationException("Version " + auth.oauthVersion + " is not supported"))
    else if auth.signatureMethod != HmacSha1 then
      Some(ApplicationException("Signature method " + auth.signatureMethod + " is not supported"))
    else None
  }

  /**
   * A request fails exactly when signing fails (the signed styles) or the request
   * stream cannot be opened (the POST styles); signing is checked first.
   */
  lemma RequestOutcome(style: RequestStyle, streamUrl: string, auth: AuthFields,
                       p: Option<StreamingAPIParameters>, entries: seq<Entry>,
                       nonce: string, timestamp: string,
                       hmacBase64: (string, string) -> string, connectError: Option<string>)
    requires WellFormed(entries)
    ensures var r := ExpectedRequest(style, streamUrl, auth, p, entries, nonce, timestamp, hmacBase64, connectError);
      && (style != PostBasedUnsigned && SigningError(auth).Some? ==> r == Failure(SigningError(auth).value))
      && ((style == PostBasedUnsigned || SigningError(auth).None?) && style != GetBased && connectError.Some? ==>
           r == Failure(WebException(connectError.value)))
      && (r.Success? <==>
           (style == PostBasedUnsigned || SigningError(auth).None?) && (style == GetBased || connectError.None?))
  {
    if style == GetBased {
      GetOutcome(ConstructUrlWithQueryString(streamUrl, p), auth, entries, nonce, timestamp, hmacBase64);
    } else {
      PostOutcome(style == PostBasedSigned, streamUrl, auth, AddAll(entries, ConstructPostData(p)),
        nonce, timestamp, hmacBase64, connectError);
    }
  }

  lemma GetOutcome(url: string, auth: AuthFields, entries: seq<Entry>, nonce: string, timestamp: string,
                   hmacBase64: (string, string) -> string)
    ensures var r := ExpectedGet(url, auth, entries, nonce, timestamp, hmacBase64);
      && (SigningError(auth).Some? ==> r == Failure(SigningError(auth).value))
      && (r.Success? <==> SigningError(auth).None?)
      && (r.Success? ==>
           var input := SigningFor(auth, url, "GET", entries, nonce, timestamp);
           r.value == WebRequestSpec(url, "GET", "", [("Authorization",
             HeaderString(input, hmacBase64(SigningKey(input), BaseString(input))))], ""))
  {
    var header := Authorization(SigningFor(auth, url, "GET", entries, nonce, timestamp), hmacBase64);
    assert header.Failure? <==> SigningError(auth).Some?;
  }

  lemma PostOutcome(signed: bool, url: string, auth: AuthFields, entries: seq<Entry>,
                    nonce: string, timestamp: string,
                    hmacBase64: (string, string) -> string, connectError: Option<string>)
    ensures var r := ExpectedPost(signed, url, auth, entries, nonce, timestamp, hmacBase64, connectError);
      && (signed && SigningError(auth).Some? ==> r == Failure(SigningError(auth).value))
      && ((!signed || SigningError(auth).None?) && connectError.Some? ==> r == Failure(WebException(connectError.value)))
      && (r.Success? <==> (!signed || SigningError(auth).None?) && connectError.None?)
      && (r.Success? ==>
           var input := SigningFor(auth, url, "POST", entries, nonce, timestamp);
           && r.value.url == url && r.value.httpMethod == "POST" && r.value.contentType == FormContentType
           && r.value.body == Join("&", PostParameters(entries))
           && r.value.headers == if signed then [("Authorization",
                HeaderString(input, hmacBase64(SigningKey(input), BaseString(input))))] else [])
  {
    var header := Authorization(SigningFor(auth, url, "POST", entries, nonce, timestamp), hmacBase64);
    assert header.Failure? <==> SigningError(auth).Some?;
  }

  /**
   * What is signed is what is sent: the Authorization header of a built request
   * signs the request's own URL and method and the collection whose entries form
   * its body; the unsigned style sends no header at all.
   */
  lemma RequestContents(style: RequestStyle, streamUrl: string, auth: AuthFields,
                        p: Option<StreamingAPIParameters>, entries: seq<Entry>,
                        nonce: string, timestamp: string,
                        hmacBase64: (string, string) -> string, connectError: Option<string>)
    requires WellFormed(entries)
    requires ExpectedRequest(style, streamUrl, auth, p, entries, nonce, timestamp, hmacBase64, connectError).Success?
    ensures var q := ExpectedRequest(style, streamUrl, auth, p, entries, nonce, timestamp, hmacBase64, connectError).value;
      var merged := PostDataAfter(style, entries, p);
      var input := SigningFor(auth, q.url, q.httpMethod, merged, nonce, timestamp);
      && q.httpMethod == (if style == GetBased then "GET" else "POST")
      && q.url == (if style == GetBased then ConstructUrlWithQueryString(streamUrl, p) else streamUrl)
      && (q.headers == [] <==> style == PostBasedUnsigned)
      && (style != PostBasedUnsigned ==>
           q.headers == [("Authorization", HeaderString(input, hmacBase64(SigningKey(input), BaseString(input))))])
      && (style == GetBased ==> q.body == "" && q.contentType == "")
      && (style != GetBased ==> q.body == Join("&", PostParameters(merged)) && q.contentType == FormContentType)
  {
    if style == GetBased {
      GetOutcome(ConstructUrlWithQueryString(streamUrl, p), auth, entries, nonce, timestamp, hmacBase64);
    } else {
      PostOutcome(style == PostBasedSigned, streamUrl, auth, AddAll(entries, ConstructPostData(p)),
        nonce, timestamp, hmacBase64, connectError);
    }
  }

  /**
   * A signed POST signs every piece of its body: each `key=value` of the body is
   * one of the sorted parameters the signature covers.
   */
  lemma SignedBodyCovered(streamUrl: string, auth: AuthFields, p: Option<StreamingAPIParameters>,
                          entries: seq<Entry>, nonce: string, timestamp: string)
    requires WellFormed(entries)
    ensures var merged := PostDataAfter(PostBasedSigned, entries, p);
      var input := SigningFor(auth, streamUrl, "POST", merged, nonce, timestamp);
      multiset(PostParameters(merged)) <= multiset(Sort(ParameterList(input)))
  {
    var merged := PostDataAfter(PostBasedSigned, entries, p);
    SortedParameterList(SigningFor(auth, streamUrl, "POST", merged, nonce, timestamp));
  }

  /** The form data the POST styles send parses back as the merged collection, one value per key. */
  lemma PostBodyDecodes(style: RequestStyle, streamUrl: string, auth: AuthFields,
                        p: Option<StreamingAPIParameters>, entries: seq<Entry>,
                        nonce: string, timestamp: string,
                        hmacBase64: (string, string) -> string, connectError: Option<string>)
    requires WellFormed(entries) && style != GetBased
    requires ExpectedRequest(style, streamUrl, auth, p, entries, nonce, timestamp, hmacBase64, connectError).Success?
    ensures ParseQuery(ExpectedRequest(style, streamUrl, auth, p, entries, nonce, timestamp, hmacBase64, connectError).value.body)
      == SingleEntries(Flattened(AddAll(entries, ConstructPostData(p))))
  {
    FormRoundTrip(AddAll(entries, ConstructPostData(p)));
  }

  /** With no parameters, the POST styles send the collection as it was, and GET asks for the bare URL. */
  lemma NoParametersNoChange(style: RequestStyle, streamUrl: string, entries: seq<Entry>)
    requires WellFormed(entries)
    ensures PostDataAfter(style, entries, None) == entries
    ensures ConstructUrlWithQueryString(streamUrl, None) == streamUrl
  {
    NothingWithoutParameters(streamUrl);
    AddAllEmpty(entries);
  }
}
