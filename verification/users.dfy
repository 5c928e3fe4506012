/** The user cache of the content scripts (users-management.js): a recency-ordered map from
    normalised user names to user records, bounded at one hundred entries, with deduplication of
    lookups that are in flight, and the search for the current streamer's name on the page.

    The relay round trip of a lookup is split in two events: `FetchUserByName` starts it and
    `SettleLookup` delivers its outcome. `encodeURIComponent` is a parameter; the page is
    represented by functions from a CSS selector to the text of the first element it selects. */
module Users {
  import opened Wrappers
  import opened Text
  import Config

  const MaxCacheSize: nat := 100

  /** A user record as the relay returns it: `Username` and `username` are the two spellings of
      the name field the code consults ("" when absent). `NoUser` is a lookup that resolved to
      `undefined`. */
  datatype User = NoUser | User(capitalName: string, name: string, id: string)

  /** `normalise`: "" for a falsy name, otherwise trimmed and lower-cased (ASCII only). */
  function Normalise(username: string): (r: string)
    ensures r != [] ==> !IsSpace(r[0]) && !IsSpace(r[|r| - 1])
  {
    if username == [] then [] else Lower(Trim(username))
  }

  lemma LowerKeepsNonSpace(c: char)
    requires !IsSpace(c)
    ensures !IsSpace(LowerChar(c))
  {
  }

  /** Normalising twice is normalising once. */
  lemma NormaliseIdempotent(username: string)
    ensures Normalise(Normalise(username)) == Normalise(username)
  {
    var n := Normalise(username);
    if n != [] {
      var t := Trim(username);
      LowerKeepsNonSpace(t[0]);
      LowerKeepsNonSpace(t[|t| - 1]);
      assert TrimStart(n) == n;
      assert TrimEnd(n) == n;
      LowerIdempotent(t);
    }
  }

  /** `username || user?.Username || user?.username`. */
  function KeySource(username: string, user: User): string {
    if username != [] then username
    else if user.User? && user.capitalName != [] then user.capitalName
    else if user.User? then user.name
    else []
  }

  const UserPath: string := "/api/users/name/"
  const FallbackBase: string := "https://localhost:7256"

  /** `resolveUserEndpoint`: through `getApiUrl` when the constants are loaded, otherwise the
      fallback base (its one trailing slash removed; it has none) followed by the path. */
  function UserEndpoint(username: string, encode: string -> string, constantsLoaded: bool): (url: string)
  {
    var path := UserPath + encode(username);
    if constantsLoaded then Config.GetApiUrl(path)
    else (if FallbackBase != [] && FallbackBase[|FallbackBase| - 1] == '/' then FallbackBase[..|FallbackBase| - 1] else FallbackBase) + path
  }

  /** Both branches name the same backend: the development base, then the user path. */
  lemma UserEndpointIgnoresConstants(username: string, encode: string -> string)
    ensures UserEndpoint(username, encode, true) == UserEndpoint(username, encode, false)
    ensures UserEndpoint(username, encode, true) == Config.DevelopmentUrl + UserPath + encode(username)
  {
    assert FallbackBase[|FallbackBase| - 1] == '6';
  }

  // ---------------------------------------------------------------------------------------------
  // Recency order
  // ---------------------------------------------------------------------------------------------

  /** A cache key: a non-empty normalised name, that is, no white space at either end and no
      upper-case ASCII letter. */
  predicate IsKey(k: string) {
    k != [] && !IsSpace(k[0]) && !IsSpace(k[|k| - 1]) && forall i :: 0 <= i < |k| ==> !IsUpper(k[i])
  }

  /** The keys are exactly the non-empty results of `Normalise`, and `Normalise` keeps them. */
  lemma KeysAreNormalised(username: string)
    ensures Normalise(username) != [] ==> IsKey(Normalise(username))
    ensures IsKey(username) ==> Normalise(username) == username
  {
    if Normalise(username) != [] {
      NormalisedHasNoUpper(username);
    }
    if IsKey(username) {
      TrimKeepsKey(username);
      LowerKeepsKey(username);
    }
  }

  lemma NormalisedHasNoUpper(username: string)
    ensures forall i :: 0 <= i < |Normalise(username)| ==> !IsUpper(Normalise(username)[i])
  {
  }

  lemma TrimKeepsKey(k: string)
    requires k != [] && !IsSpace(k[0]) && !IsSpace(k[|k| - 1])
    ensures Trim(k) == k
  {
    assert TrimStart(k) == k;
  }

  lemma LowerKeepsKey(k: string)
    requires forall i :: 0 <= i < |k| ==> !IsUpper(k[i])
    ensures Lower(k) == k
  {
  }

  predicate Distinct(s: seq<string>) {
    forall i, j :: 0 <= i < j < |s| ==> s[i] != s[j]
  }

  /** `s` without `k` (a `Map.delete` on the key order). */
  function Remove(s: seq<string>, k: string): (r: seq<string>)
  {
    if s == [] then [] else (if s[0] == k then [] else [s[0]]) + Remove(s[1..], k)
  }

  lemma {:induction false} RemoveSpec(s: seq<string>, k: string)
    ensures forall x :: x in Remove(s, k) <==> x in s && x != k
    ensures |Remove(s, k)| <= |s|
    ensures Distinct(s) ==> Distinct(Remove(s, k))
  {
    if s != [] {
      RemoveSpec(s[1..], k);
      var rest := Remove(s[1..], k);
      assert Remove(s, k) == (if s[0] == k then [] else [s[0]]) + rest;
      if Distinct(s) && s[0] != k {
        assert s[0] !in rest;
        assert Distinct([s[0]] + rest) by {
          forall i, j | 0 <= i < j < |[s[0]] + rest|
            ensures ([s[0]] + rest)[i] != ([s[0]] + rest)[j]
          {
            if i == 0 {
              assert ([s[0]] + rest)[j] == rest[j - 1];
              assert rest[j - 1] in rest;
            } else {
              assert ([s[0]] + rest)[i] == rest[i - 1];
              assert ([s[0]] + rest)[j] == rest[j - 1];
            }
          }
        }
      }
    }
  }

  /** The key order after the eviction loop: the newest `MaxCacheSize` keys. */
  function Evict(s: seq<string>): (r: seq<string>)
  {
    if |s| <= MaxCacheSize then s else s[|s| - MaxCacheSize..]
  }

  /** Eviction keeps the newest keys in their order, at most `MaxCacheSize` of them, and drops
      only the oldest ones. */
  lemma EvictKeepsNewest(s: seq<string>)
    ensures |Evict(s)| == if |s| <= MaxCacheSize then |s| else MaxCacheSize
    ensures Evict(s) == s[|s| - |Evict(s)|..]
    ensures s != [] ==> Evict(s)[|Evict(s)| - 1] == s[|s| - 1]
  {
  }

  /** The key order after `cacheUser(key)`: the key moved (or added) to the newest end, then the
      oldest keys evicted. */
  function OrderAfterCaching(order: seq<string>, key: string): (r: seq<string>)
  {
    Evict(Remove(order, key) + [key])
  }

  /** Caching makes its key the newest entry and keeps every other key that survives eviction. */
  lemma CachingRefreshesRecency(order: seq<string>, key: string, other: string)
    requires Distinct(order) && |order| <= MaxCacheSize
    ensures var r := OrderAfterCaching(order, key);
            r != [] && r[|r| - 1] == key && |r| <= MaxCacheSize
            && (other in order && other != key && |Remove(order, key)| < MaxCacheSize ==> other in r)
  {
    RemoveSpec(order, key);
  }

  /** The selectors tried for the streamer's name, in this order. */
  datatype Selector =
    | ChannelNameLink           // "#channel-name .yt-simple-endpoint.yt-formatted-string"
    | ChannelNameText           // "#channel-name yt-formatted-string"
    | ChannelNameElement        // "ytd-channel-name yt-formatted-string"
    | LiveChatHeaderTitle       // "yt-live-chat-header-renderer #title"
    | LiveChatFixedPanelTitle   // "yt-live-chat-fixed-panel-renderer #title"

  const StreamerNameSelectors: seq<Selector> :=
    [ChannelNameLink, ChannelNameText, ChannelNameElement, LiveChatHeaderTitle, LiveChatFixedPanelTitle]

  /** A document as the name search sees it: the `textContent` of the first element a selector
      finds, or none. */
  type Root = Selector -> Option<string>

  /** The trimmed `textContent` a selector finds, blank when it finds nothing. */
  function SelectorText(root: Root, selector: Selector): string {
    Trim(root(selector).GetOr([]))
  }

  /** The trimmed text of the first selector, in order, whose text is not blank. */
  function FirstNamed(root: Root, selectors: seq<Selector>): (r: Option<string>)
  {
    if selectors == [] then None
    else
      var text := SelectorText(root, selectors[0]);
      if text != [] then Some(text) else FirstNamed(root, selectors[1..])
  }

  /** When every selector's text is blank, `FirstNamed` finds no name. */
  lemma {:induction false} AllBlankGivesNone(root: Root, selectors: seq<Selector>)
    requires forall i :: 0 <= i < |selectors| ==> SelectorText(root, selectors[i]) == []
    ensures FirstNamed(root, selectors).None?
  {
    if selectors != [] {
      var rest := selectors[1..];
      forall j | 0 <= j < |rest|
        ensures SelectorText(root, rest[j]) == []
      {
        assert rest[j] == selectors[j + 1];
      }
      AllBlankGivesNone(root, rest);
    }
  }

  /** When `FirstNamed` finds no name, every selector's text is blank. */
  lemma {:induction false} NoneGivesBlank(root: Root, selectors: seq<Selector>)
    requires FirstNamed(root, selectors).None?
    ensures forall i :: 0 <= i < |selectors| ==> SelectorText(root, selectors[i]) == []
  {
    if selectors != [] {
      var rest := selectors[1..];
      var text := SelectorText(root, selectors[0]);
      assert FirstNamed(root, selectors) == if text != [] then Some(text) else FirstNamed(root, rest);
      assert text == [];
      assert FirstNamed(root, rest).None?;
      NoneGivesBlank(root, rest);
      forall i | 1 <= i < |selectors|
        ensures SelectorText(root, selectors[i]) == []
      {
        assert selectors[i] == rest[i - 1];
      }
    }
  }

  /** `FirstNamed` finds no name iff every selector's text is blank. */
  lemma FirstNamedNone(root: Root, selectors: seq<Selector>)
    ensures FirstNamed(root, selectors).None? <==>
              forall i :: 0 <= i < |selectors| ==> SelectorText(root, selectors[i]) == []
  {
    if forall i :: 0 <= i < |selectors| ==> SelectorText(root, selectors[i]) == [] {
      AllBlankGivesNone(root, selectors);
    }
    if FirstNamed(root, selectors).None? {
      NoneGivesBlank(root, selectors);
    }
  }

  /** `name` is the non-blank text of `selectors[i]`, and every earlier selector's text is blank. */
  ghost predicate FirstNamedAt(root: Root, selectors: seq<Selector>, i: int, name: string) {
    0 <= i < |selectors| && name == SelectorText(root, selectors[i]) && name != []
    && forall j :: 0 <= j < i ==> SelectorText(root, selectors[j]) == []
  }

  /** A name `FirstNamed` finds is the non-blank text of some selector all of whose predecessors
      have blank text. */
  lemma {:induction false} FirstNamedFirst(root: Root, selectors: seq<Selector>)
    ensures FirstNamed(root, selectors).Some? ==>
              exists i :: FirstNamedAt(root, selectors, i, FirstNamed(root, selectors).value)
  {
    if selectors != [] {
      var name := SelectorText(root, selectors[0]);
      if name != [] {
        assert FirstNamedAt(root, selectors, 0, name);
      } else if FirstNamed(root, selectors).Some? {
        var rest := selectors[1..];
        var found := FirstNamed(root, rest).value;
        FirstNamedFirst(root, rest);
        var i :| FirstNamedAt(root, rest, i, found);
        forall j | 0 < j < i + 1
          ensures SelectorText(root, selectors[j]) == []
        {
          assert selectors[j] == rest[j - 1];
        }
        assert selectors[i + 1] == rest[i];
        assert FirstNamedAt(root, selectors, i + 1, found);
      }
    }
  }

  /** `extractStreamerName`: the first non-blank selector text of `root`; none without a root. */
  method ExtractStreamerName(root: Option<Root>) returns (name: Option<string>)
    ensures name == if root.None? then None else FirstNamed(root.value, StreamerNameSelectors)
  {
    if root.None? {
      return None;
    }
    name := SearchSelectors(root.value, StreamerNameSelectors);
  }

  /** The `for ... of` loop of `extractStreamerName`. */
  method SearchSelectors(root: Root, selectors: seq<Selector>) returns (name: Option<string>)
    ensures name == FirstNamed(root, selectors)
  {
    for i := 0 to |selectors|
      invariant FirstNamed(root, selectors[i..]) == FirstNamed(root, selectors)
    {
      var text := SelectorText(root, selectors[i]);
      FirstNamedStep(root, selectors, i);
      if text != [] {
        return Some(text);
      }
    }
    return None;
  }

  /** One step of the search from position `i`. */
  lemma FirstNamedStep(root: Root, selectors: seq<Selector>, i: nat)
    requires i < |selectors|
    ensures var text := SelectorText(root, selectors[i]);
            FirstNamed(root, selectors[i..]) == if text != [] then Some(text) else FirstNamed(root, selectors[i + 1..])
  {
    assert selectors[i..][0] == selectors[i];
    assert selectors[i..][1..] == selectors[i + 1..];
  }

  /** The top window as the page sees it: the same window, another readable document, or one
      whose document cannot be read (a cross-origin access throws). */
  datatype TopWindow = SameWindow | Readable(root: Root) | Unreadable

  /** `getCurrentStreamer`: the local document first, then the top document. */
  method GetCurrentStreamer(local: Root, top: TopWindow) returns (name: Option<string>)
    ensures FirstNamed(local, StreamerNameSelectors).Some? ==> name == FirstNamed(local, StreamerNameSelectors)
    ensures FirstNamed(local, StreamerNameSelectors).None? ==>
              name == if top.Readable? then FirstNamed(top.root, StreamerNameSelectors) else None
  {
    name := ExtractStreamerName(Some(local));
    if name.Some? {
      return;
    }
    if top.Readable? {
      name := ExtractStreamerName(Some(top.root));
    } else {
      name := None;
    }
  }

  // ---------------------------------------------------------------------------------------------
  // The cache
  // ---------------------------------------------------------------------------------------------

  lemma DistinctAppend(s: seq<string>, k: string)
    requires Distinct(s) && k !in s
    ensures Distinct(s + [k])
  {
    forall i, j | 0 <= i < j < |s + [k]|
      ensures (s + [k])[i] != (s + [k])[j]
    {
      if j == |s| {
        assert (s + [k])[i] == s[i];
      }
    }
  }

  /** The eviction loop of `cacheUser`: while there are more than `MaxCacheSize` entries, the
      oldest one is deleted. */
  method EvictOldest(order0: seq<string>, users0: map<string, User>) returns (order: seq<string>, users: map<string, User>)
    requires Distinct(order0) && forall k :: k in order0 <==> k in users0
    ensures order == Evict(order0) && Distinct(order)
    ensures forall k :: k in order <==> k in users
    ensures forall k :: k in users ==> k in users0 && users[k] == users0[k]
  {
    order, users := order0, users0;
    ghost var dropped := 0;
    while |order| > MaxCacheSize
      invariant 0 <= dropped <= |order0| && order == order0[dropped..]
      invariant dropped == 0 || |order| >= MaxCacheSize
      invariant Distinct(order)
      invariant forall k :: k in order <==> k in users
      invariant forall k :: k in users ==> k in users0 && users[k] == users0[k]
      decreases |order|
    {
      var oldest := order[0];
      assert oldest !in order[1..];
      order := order[1..];
      users := users - {oldest};
      dropped := dropped + 1;
    }
  }

  /** The body of `cacheUser` once its key is known: delete the key, set it again (so it is the
      newest), then evict. */
  method InsertNewest(order0: seq<string>, users0: map<string, User>, key: string, user: User)
      returns (order: seq<string>, users: map<string, User>)
    requires Distinct(order0) && forall k :: k in order0 <==> k in users0
    ensures order == OrderAfterCaching(order0, key) && Distinct(order) && |order| <= MaxCacheSize
    ensures forall k :: k in order <==> k in users
    ensures key in users && users[key] == user
    ensures forall k :: k in users ==> k == key || (k in users0 && users[k] == users0[k])
  {
    RemoveSpec(order0, key);
    var grown := Remove(order0, key) + [key];
    var full := (users0 - {key})[key := user];
    DistinctAppend(Remove(order0, key), key);
    EvictKeepsNewest(grown);
    order, users := EvictOldest(grown, full);
    assert order[|order| - 1] == key;
  }

  /** Where a lookup stands when `fetchUserByName` returns: rejected, resolved from the cache,
      joined to a lookup already in flight, or a new relay request to `endpoint`. */
  datatype Lookup = Rejected(message: string) | Resolved(user: User) | Joined | Started(endpoint: string)

  /** What first happens to a started lookup's message: a reply with `success` carrying its
      `user`, a reply without `success`, a reply with `chrome.runtime.lastError` set, or the
      timer firing before any reply. */
  datatype LookupEvent = Replied(user: User) | FailureReply | RuntimeError | TimerFired

  /** `userCache` (its keys in insertion order and its entries) and `inFlightLookups` (its keys). */
  class UserCache {
    var order: seq<string>
    var users: map<string, User>
    var inFlight: set<string>

    /** At most `MaxCacheSize` entries; the order lists each key once; every key is a non-empty
        normalised name. */
    ghost predicate Valid()
      reads this
    {
      |order| <= MaxCacheSize
      && Distinct(order)
      && (forall k :: k in order <==> k in users)
      && (forall k :: k in users ==> IsKey(k))
    }

    constructor ()
      ensures Valid() && order == [] && users == map[] && inFlight == {}
    {
      order := [];
      users := map[];
      inFlight := {};
    }

    /** `getCachedUser`: the entry under the normalised name, or none (also for an entry that
        resolved to `undefined`). Reading does not touch the order. */
    function GetCachedUser(username: string): (r: Option<User>)
      reads this
      ensures r.Some? ==> Normalise(username) in users && r.value == users[Normalise(username)] && r.value.User?
      ensures r.None? ==> Normalise(username) !in users || users[Normalise(username)] == NoUser
    {
      var key := Normalise(username);
      if key in users && users[key].User? then Some(users[key]) else None
    }

    /** `cacheUser`: the key becomes the newest entry with `user` as its value and the oldest
        entries beyond `MaxCacheSize` are evicted; an empty key changes nothing. */
    method CacheUser(username: string, user: User)
      requires Valid()
      modifies this
      ensures Valid() && inFlight == old(inFlight)
      ensures Normalise(KeySource(username, user)) == [] ==> order == old(order) && users == old(users)
      ensures var key := Normalise(KeySource(username, user));
              key != [] ==>
                order == OrderAfterCaching(old(order), key)
                && key in users && users[key] == user
                && forall k :: k in users ==> k == key || (k in old(users) && users[k] == old(users)[k])
    {
      var key := Normalise(KeySource(username, user));
      if key == [] {
        return;
      }
      KeysAreNormalised(KeySource(username, user));
      Store(key, user);
    }

    /** `cacheUser` past its empty-key check. */
    method Store(key: string, user: User)
      requires Valid() && IsKey(key)
      modifies this
      ensures Valid() && inFlight == old(inFlight)
      ensures order == OrderAfterCaching(old(order), key)
      ensures key in users && users[key] == user
      ensures forall k :: k in users ==> k == key || (k in old(users) && users[k] == old(users)[k])
    {
      var newOrder, newUsers := InsertNewest(order, users, key, user);
      assert forall k :: k in newUsers ==> IsKey(k) by {
        forall k | k in newUsers
          ensures IsKey(k)
        {
          if k != key {
            assert k in users;
          }
        }
      }
      order, users := newOrder, newUsers;
    }

    /** `fetchUserByName`, up to the point where it returns a promise. */
    method FetchUserByName(username: string, encode: string -> string, constantsLoaded: bool) returns (r: Lookup)
      requires Valid()
      modifies this
      ensures Valid() && order == old(order) && users == old(users)
      ensures var key := Normalise(username);
              r == if key == [] then Rejected("Username is required")
                   else if key in old(users) then Resolved(old(users)[key])
                   else if key in old(inFlight) then Joined
                   else Started(UserEndpoint(username, encode, constantsLoaded))
      ensures inFlight == if r.Started? then old(inFlight) + {Normalise(username)} else old(inFlight)
    {
      var key := Normalise(username);
      if key == [] {
        return Rejected("Username is required");
      }
      if key in users {
        return Resolved(users[key]);
      }
      if key in inFlight {
        return Joined;
      }
      inFlight := inFlight + {key};
      return Started(UserEndpoint(username, encode, constantsLoaded));
    }

    /** A started lookup settles: a resolved user is cached under the normalised name (`then`),
        and the in-flight entry is removed either way (`finally`). `outcome` is `None` for a
        rejection: `chrome.runtime.lastError` on the reply, or the timeout when no reply came. */
    method SettleLookup(key: string, outcome: Option<User>)
      requires Valid() && key in inFlight && IsKey(key)
      modifies this
      ensures Valid() && inFlight == old(inFlight) - {key}
      ensures outcome.Some? ==> order == OrderAfterCaching(old(order), key) && key in users && users[key] == outcome.value
      ensures outcome.None? ==> order == old(order) && users == old(users)
    {
      if outcome.Some? {
        KeysAreNormalised(key);
        CacheUser(key, outcome.value);
      }
      inFlight := inFlight - {key};
    }

    /** The promise of `fetchUserFromApi` as written: a reply clears the timer first, and a reply
        without `success` only logs, its `reject` being commented out, so that promise never
        settles and the key is never released. */
    method AnswerLookup(key: string, event: LookupEvent)
      requires Valid() && key in inFlight && IsKey(key)
      modifies this
      ensures Valid()
      ensures event.FailureReply? ==> order == old(order) && users == old(users) && inFlight == old(inFlight)
      ensures event.Replied? ==> inFlight == old(inFlight) - {key} && order == OrderAfterCaching(old(order), key)
                                 && key in users && users[key] == event.user
      ensures event.RuntimeError? || event.TimerFired? ==>
                inFlight == old(inFlight) - {key} && order == old(order) && users == old(users)
    {
      match event
      case Replied(user) => SettleLookup(key, Some(user));
      case FailureReply =>
      case RuntimeError => SettleLookup(key, None);
      case TimerFired => SettleLookup(key, None);
    }

    /** `fetchUserFromApi` with the failure reply rejecting: every event settles the lookup and
        releases the key. */
    method AnswerLookupRejecting(key: string, event: LookupEvent)
      requires Valid() && key in inFlight && IsKey(key)
      modifies this
      ensures Valid() && inFlight == old(inFlight) - {key}
      ensures event.Replied? ==> order == OrderAfterCaching(old(order), key) && key in users && users[key] == event.user
      ensures !event.Replied? ==> order == old(order) && users == old(users)
    {
      if event.Replied? {
        SettleLookup(key, Some(event.user));
      } else {
        SettleLookup(key, None);
      }
    }

    /** `getUser`: like `fetchUserByName`, with its own message for an empty name. */
    method GetUser(username: string, encode: string -> string, constantsLoaded: bool) returns (r: Lookup)
      requires Valid()
      modifies this
      ensures Valid() && order == old(order) && users == old(users)
      ensures var key := Normalise(username);
              r == if key == [] then Rejected("\U{1F41D}[Users] Username is required")
                   else if key in old(users) then Resolved(old(users)[key])
                   else if key in old(inFlight) then Joined
                   else Started(UserEndpoint(username, encode, constantsLoaded))
    {
      var key := Normalise(username);
      if key == [] {
        return Rejected("\U{1F41D}[Users] Username is required");
      }
      if key in users {
        return Resolved(users[key]);
      }
      r := FetchUserByName(username, encode, constantsLoaded);
    }

    /** `updateUserList`: `null` for an empty name, the cached user on a hit, otherwise the
        lookup of `fetchUserByName`. */
    method UpdateUserList(username: string, encode: string -> string, constantsLoaded: bool) returns (r: Option<Lookup>)
      requires Valid()
      modifies this
      ensures Valid() && order == old(order) && users == old(users)
      ensures var key := Normalise(username);
              r == if key == [] then None
                   else if key in old(users) then Some(Resolved(old(users)[key]))
                   else if key in old(inFlight) then Some(Joined)
                   else Some(Started(UserEndpoint(username, encode, constantsLoaded)))
    {
      var key := Normalise(username);
      if key == [] {
        return None;
      }
      if key in users {
        return Some(Resolved(users[key]));
      }
      var lookup := FetchUserByName(username, encode, constantsLoaded);
      r := Some(lookup);
    }

    /** `removeUser`: the entry under the normalised name is gone, the rest keep their order. */
    method RemoveUser(username: string)
      requires Valid()
      modifies this
      ensures Valid() && inFlight == old(inFlight)
      ensures order == Remove(old(order), Normalise(username))
      ensures Normalise(username) !in users
      ensures forall k :: k in users <==> k in old(users) && k != Normalise(username)
      ensures forall k :: k in users ==> users[k] == old(users)[k]
    {
      var key := Normalise(username);
      RemoveSpec(order, key);
      order := Remove(order, key);
      users := users - {key};
    }

    /** `clearCache`: the cache is emptied; lookups in flight are not touched. */
    method ClearCache()
      requires Valid()
      modifies this
      ensures Valid() && order == [] && users == map[] && inFlight == old(inFlight)
    {
      order := [];
      users := map[];
    }
  }

  /** A name differing only in ASCII case and surrounding whitespace reads the same entry. */
  lemma CachedUserIgnoresCase(c: UserCache, username: string)
    ensures c.GetCachedUser(username) == c.GetCachedUser(Normalise(username))
  {
    NormaliseIdempotent(username);
  }

  /** A lookup answered by a reply without `success`, as written: the key stays in flight, and
      every later lookup of the same name joins the promise that never settles. */
  method LookupAfterFailureReply(c: UserCache, username: string, encode: string -> string, constantsLoaded: bool)
    returns (first: Lookup, second: Lookup)
    requires c.Valid()
    requires Normalise(username) != [] && Normalise(username) !in c.users && Normalise(username) !in c.inFlight
    modifies c
    ensures first == Started(UserEndpoint(username, encode, constantsLoaded))
    ensures second == Joined && Normalise(username) in c.inFlight
  {
    first := c.FetchUserByName(username, encode, constantsLoaded);
    KeysAreNormalised(username);
    c.AnswerLookup(Normalise(username), FailureReply);
    second := c.FetchUserByName(username, encode, constantsLoaded);
  }

  /** The same sequence with the failure reply rejecting: the key is released, and the next
      lookup of the name starts a new request. */
  method LookupAfterRejectedReply(c: UserCache, username: string, encode: string -> string, constantsLoaded: bool)
    returns (first: Lookup, second: Lookup)
    requires c.Valid()
    requires Normalise(username) != [] && Normalise(username) !in c.users && Normalise(username) !in c.inFlight
    modifies c
    ensures first == Started(UserEndpoint(username, encode, constantsLoaded))
    ensures second == first && Normalise(username) in c.inFlight
  {
    first := c.FetchUserByName(username, encode, constantsLoaded);
    KeysAreNormalised(username);
    c.AnswerLookupRejecting(Normalise(username), FailureReply);
    second := c.FetchUserByName(username, encode, constantsLoaded);
  }
}
