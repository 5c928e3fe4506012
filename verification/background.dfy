/** The extension's background worker (background.js): the API URL helpers and the message
    handler that validates a request, starts at most one fetch, and turns its outcome into the
    `{ success, data | user | error }` reply.

    A fetch is not performed here: its outcome (a reply, a timeout abort or another failure) is
    an argument, and `encodeURIComponent` is the parameter `encode`. */
module Background {
  import opened Wrappers
  import opened Text
  import Config

  // ---------------------------------------------------------------------------------------------
  // URLs
  // ---------------------------------------------------------------------------------------------

  /** `API_DEFAULTS.USE_DEV`. */
  const UseDev: bool := false

  /** `base.replace(/\/$/, "")`: drops one trailing '/', and only one. */
  function StripTrailingSlash(base: string): (r: string)
    ensures base != [] && base[|base| - 1] == '/' ==> r + "/" == base
    ensures !(base != [] && base[|base| - 1] == '/') ==> r == base
  {
    if base != [] && base[|base| - 1] == '/' then base[..|base| - 1] else base
  }

  /** `resolveApiHost`. */
  function ResolveApiHost(): (host: string)
    ensures host == Config.ProductionUrl
    ensures host != [] && host[|host| - 1] != '/'
  {
    StripTrailingSlash(if UseDev then Config.DevelopmentUrl else Config.ProductionUrl)
  }

  /** `resolveApiUrl`: the host alone for an empty endpoint; otherwise the host, exactly one '/'
      contributed by the endpoint or inserted, and the rest of the endpoint. */
  function ResolveApiUrl(endpoint: string): (url: string)
    ensures endpoint == "" ==> url == ResolveApiHost()
    ensures endpoint != "" ==>
              var host := ResolveApiHost();
              |url| > |host| && url[..|host|] == host && url[|host|] == '/'
              && url[|host| + 1..] == if endpoint[0] == '/' then endpoint[1..] else endpoint
  {
    var host := ResolveApiHost();
    if endpoint == "" then host
    else host + (if StartsWith(endpoint, "/") then endpoint else "/" + endpoint)
  }

  /** Writing an endpoint with or without its leading '/' gives the same URL. */
  lemma LeadingSlashOptional(path: string)
    requires path != "" && path[0] != '/'
    ensures ResolveApiUrl("/" + path) == ResolveApiUrl(path)
  {
    var host := ResolveApiHost();
    var a := ResolveApiUrl("/" + path);
    var b := ResolveApiUrl(path);
    assert ("/" + path)[1..] == path;
    assert a == a[..|host|] + a[|host|..] && a[|host|..] == [a[|host|]] + a[|host| + 1..];
    assert b == b[..|host|] + b[|host|..] && b[|host|..] == [b[|host|]] + b[|host| + 1..];
  }

  const StreamerSetPath: string := "api/emotes/sets/user/"

  // ---------------------------------------------------------------------------------------------
  // Fetch outcomes
  // ---------------------------------------------------------------------------------------------

  /** An HTTP reply; `body` is its parsed JSON (or, for a user lookup failure, its text). */
  datatype HttpReply = HttpReply(ok: bool, status: nat, statusText: string, body: string)

  /** What a `fetch` comes to: a reply, the request's timeout abort, or another error carrying its
      message. */
  datatype Transport = Replied(reply: HttpReply) | TimedOut | Failed(message: string)

  /** A settled promise: its value, or the message of the error it rejects with. */
  datatype Outcome = Value(data: string) | Error(message: string)

  const EmotesTimeoutMessage: string := "API request timed out"
  const UserTimeoutMessage: string := "User request timed out"

  /** `fetchEmotes`: the JSON of a 2xx reply; otherwise an error, with a fixed message for a
      timeout and the status for a non-2xx reply. */
  function FetchEmotes(t: Transport): (r: Outcome)
    ensures r.Value? <==> t.Replied? && t.reply.ok
    ensures r.Value? ==> r.data == t.reply.body
    ensures t.TimedOut? ==> r.message == EmotesTimeoutMessage
    ensures t.Replied? && !t.reply.ok ==>
              StartsWith(r.message, "API request failed: ")
              && |r.message| > |t.reply.statusText| && r.message[|r.message| - |t.reply.statusText|..] == t.reply.statusText
              && r.message == "API request failed: " + NatToString(t.reply.status) + " " + t.reply.statusText
    ensures t.Failed? ==> r.message == t.message
  {
    match t
    case TimedOut => Error(EmotesTimeoutMessage)
    case Failed(m) => Error(m)
    case Replied(reply) =>
      if !reply.ok then
        Error("API request failed: " + NatToString(reply.status) + " " + reply.statusText)
      else Value(reply.body)
  }

  /** `fetchUserByName`: like `FetchEmotes`, with its own timeout message, and the reply's text
      (when non-empty) appended to a non-2xx error. */
  function FetchUser(t: Transport): (r: Outcome)
    ensures r.Value? <==> t.Replied? && t.reply.ok
    ensures r.Value? ==> r.data == t.reply.body
    ensures t.TimedOut? ==> r.message == UserTimeoutMessage
    ensures t.Replied? && !t.reply.ok ==>
              StartsWith(r.message, "User request failed: ")
              && (t.reply.body != "" ==>
                    |r.message| > |t.reply.body| + 3 && r.message[|r.message| - |t.reply.body| - 3..] == " | " + t.reply.body)
              && StartsWith(r.message, "User request failed: " + NatToString(t.reply.status) + " " + t.reply.statusText)
              && (t.reply.body == "" ==>
                    r.message == "User request failed: " + NatToString(t.reply.status) + " " + t.reply.statusText)
    ensures t.Failed? ==> r.message == t.message
  {
    match t
    case TimedOut => Error(UserTimeoutMessage)
    case Failed(m) => Error(m)
    case Replied(reply) =>
      if !reply.ok then
        var detail := if reply.body != "" then " | " + reply.body else "";
        Error("User request failed: " + NatToString(reply.status) + " " + reply.statusText + detail)
      else Value(reply.body)
  }

  // ---------------------------------------------------------------------------------------------
  // The message handler
  // ---------------------------------------------------------------------------------------------

  /** The `action`s the handler answers, with the fields it reads; absent fields are "". */
  datatype Request =
    | FetchEmotesRequest(url: string)
    | InjectHelper
    | FetchUserByName(url: string, token: string)
    | GetUserInfo
    | FetchStreamerEmoteSet(streamerName: string, url: string)
    | OtherAction

  /** What `sendResponse` is called with. */
  datatype Reply = Success(data: string) | UserFound(user: string) | Failure(error: string)

  /** The handler's effect: its return value (true keeps the channel open for a later reply),
      the URL it fetches, if any, and the reply it sends, if any. */
  datatype Handled = Handled(keepOpen: bool, fetched: Option<string>, reply: Option<Reply>)

  /** A rejected fetch's reply: its message, or the action's default when the message is empty. */
  function Wrap(o: Outcome, default: string, success: string -> Reply): (r: Reply)
    ensures o.Value? ==> r == success(o.data)
    ensures o.Error? ==> r == Failure(if o.message != "" then o.message else default)
  {
    match o
    case Value(d) => success(d)
    case Error(m) => Failure(if m != "" then m else default)
  }

  const EmotesDefault: string := "Failed to fetch emotes"
  const UserDefault: string := "User lookup failed"
  const StreamerSetDefault: string := "Failed to fetch streamer emote set"
  const MissingUserUrl: string := "Missing user lookup URL"
  const MissingStreamer: string := "Missing streamer name"
  const NoTokenMessage: string := "No auth token found, please login first"
  const UserInfoPath: string := "/api/users/me"

  /** `getUserInfo`'s own error handling: an abort is "Request timeout", any other error keeps
      its message (with no default), and a non-2xx reply reports its status and body. */
  function UserInfoReply(t: Transport): (r: Reply)
    ensures r.UserFound? <==> t.Replied? && t.reply.ok
    ensures r.UserFound? ==> r.user == t.reply.body
    ensures t.TimedOut? ==> r == Failure("Request timeout")
    ensures t.Failed? ==> r == Failure(t.message)
    ensures t.Replied? && !t.reply.ok ==> r.Failure? && StartsWith(r.error, "API Error: ")
    ensures t.Replied? && !t.reply.ok ==>
              r.error == "API Error: " + NatToString(t.reply.status) + ", data: " + t.reply.body
  {
    match t
    case TimedOut => Failure("Request timeout")
    case Failed(m) => Failure(m)
    case Replied(reply) =>
      if !reply.ok then Failure("API Error: " + NatToString(reply.status) + ", data: " + reply.body)
      else UserFound(reply.body)
  }

  /** The `onMessage` listener for one request. `t` is the outcome of the fetch the request
      starts, `storedToken` the token `getUserInfo` reads from storage ("" when there is none). */
  function HandleMessage(request: Request, t: Transport, storedToken: string, encode: string -> string): (h: Handled)
    // a request that fails validation is answered at once and fetches nothing
    ensures request.FetchUserByName? && request.url == "" ==>
              h == Handled(false, None, Some(Failure(MissingUserUrl)))
    ensures request.FetchStreamerEmoteSet? && request.streamerName == "" ==>
              h == Handled(false, None, Some(Failure(MissingStreamer)))
    ensures request.GetUserInfo? && storedToken == "" ==>
              h == Handled(true, None, Some(Failure(NoTokenMessage)))
    // a valid request fetches its URL, and the streamer set has a default URL
    ensures request.FetchEmotesRequest? ==> h.fetched == Some(request.url)
    ensures request.FetchUserByName? && request.url != "" ==> h.fetched == Some(request.url)
    ensures request.FetchStreamerEmoteSet? && request.streamerName != "" ==>
              h.fetched == Some(if request.url != "" then request.url
                                else ResolveApiUrl(StreamerSetPath + encode(request.streamerName)))
    ensures request.GetUserInfo? && storedToken != "" ==>
              h.keepOpen && h.fetched == Some(ResolveApiUrl(UserInfoPath)) && h.reply == Some(UserInfoReply(t))
    // the fetching actions report every failure with a non-empty message, success exactly on 2xx
    ensures (request.FetchEmotesRequest? || request.FetchUserByName? || request.FetchStreamerEmoteSet?)
            && h.fetched.Some? ==>
              h.keepOpen && h.reply.Some?
              && (h.reply.value.Failure? <==> !(t.Replied? && t.reply.ok))
              && (h.reply.value.Failure? ==> h.reply.value.error != "")
    // the reply relays the fetch's outcome: the data or user on 2xx, else `error.message || default`
    ensures (request.FetchEmotesRequest? || request.FetchStreamerEmoteSet?) && h.fetched.Some?
            && t.Replied? && t.reply.ok ==>
              h.reply == Some(Success(t.reply.body))
    ensures request.FetchUserByName? && h.fetched.Some? && t.Replied? && t.reply.ok ==>
              h.reply == Some(UserFound(t.reply.body))
    ensures request.FetchEmotesRequest? && FetchEmotes(t).Error? ==>
              h.reply == Some(Failure(if FetchEmotes(t).message != "" then FetchEmotes(t).message else EmotesDefault))
    ensures request.FetchStreamerEmoteSet? && h.fetched.Some? && FetchEmotes(t).Error? ==>
              h.reply == Some(Failure(if FetchEmotes(t).message != "" then FetchEmotes(t).message else StreamerSetDefault))
    ensures request.FetchUserByName? && h.fetched.Some? && FetchUser(t).Error? ==>
              h.reply == Some(Failure(if FetchUser(t).message != "" then FetchUser(t).message else UserDefault))
    ensures request.InjectHelper? ==> h == Handled(true, None, None)
    ensures request.OtherAction? ==> h == Handled(false, None, None)
  {
    match request
    case FetchEmotesRequest(url) =>
      Handled(true, Some(url), Some(Wrap(FetchEmotes(t), EmotesDefault, d => Success(d))))
    case InjectHelper => Handled(true, None, None)
    case FetchUserByName(url, token) =>
      if url == "" then Handled(false, None, Some(Failure(MissingUserUrl)))
      else Handled(true, Some(url), Some(Wrap(FetchUser(t), UserDefault, u => UserFound(u))))
    case GetUserInfo =>
      if storedToken == "" then Handled(true, None, Some(Failure(NoTokenMessage)))
      else Handled(true, Some(ResolveApiUrl(UserInfoPath)), Some(UserInfoReply(t)))
    case FetchStreamerEmoteSet(name, url) =>
      if name == "" then Handled(false, None, Some(Failure(MissingStreamer)))
      else
        var fetchUrl := if url != "" then url else ResolveApiUrl(StreamerSetPath + encode(name));
        Handled(true, Some(fetchUrl), Some(Wrap(FetchEmotes(t), StreamerSetDefault, d => Success(d))))
    case OtherAction => Handled(false, None, None)
  }

  /** The default streamer-set URL is the host, "/api/emotes/sets/user/" and the encoded name. */
  lemma DefaultStreamerUrl(name: string, t: Transport, encode: string -> string)
    requires name != ""
    ensures HandleMessage(FetchStreamerEmoteSet(name, ""), t, "", encode).fetched
            == Some(Config.ProductionUrl + "/" + StreamerSetPath + encode(name))
  {
    var endpoint := StreamerSetPath + encode(name);
    var url := ResolveApiUrl(endpoint);
    var host := ResolveApiHost();
    assert endpoint[0] == 'a';
    assert url == url[..|host|] + [url[|host|]] + url[|host| + 1..];
    assert url == host + "/" + endpoint;
    assert host + "/" + endpoint == Config.ProductionUrl + "/" + StreamerSetPath + encode(name);
    assert HandleMessage(FetchStreamerEmoteSet(name, ""), t, "", encode).fetched == Some(url);
  }

  /** A timed-out fetch is never reported as a raw abort: each action has a fixed message. */
  lemma TimeoutsHaveFixedMessages(url: string, token: string, name: string, encode: string -> string)
    requires url != "" && name != ""
    ensures HandleMessage(FetchEmotesRequest(url), TimedOut, "", encode).reply == Some(Failure(EmotesTimeoutMessage))
    ensures HandleMessage(FetchUserByName(url, token), TimedOut, "", encode).reply == Some(Failure(UserTimeoutMessage))
    ensures HandleMessage(FetchStreamerEmoteSet(name, url), TimedOut, "", encode).reply == Some(Failure(EmotesTimeoutMessage))
  {
  }
}
