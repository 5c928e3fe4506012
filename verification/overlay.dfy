/** The floating controls panel of the watch page (overlay-chat.js): its token-to-image map built
    from the emote lists, and the drag, resize and show/hide behaviour of the panel element.

    Pixel geometry (mouse coordinates, bounding rectangles, the viewport) is given in whole
    pixels as method parameters; `Math.round` of a whole number is that number. */
module Overlay {
  import opened Wrappers
  import opened CatalogLists
  import EmoteMap

  // ---------------------------------------------------------------------------------------------
  // Image map
  // ---------------------------------------------------------------------------------------------

  /** `item && item.token`. */
  predicate HasToken(item: RawEntry) {
    item.RawEntry? && item.token != []
  }

  /** The `reduce` of `mergeListsToImageMap` over `items`: each item with a token sets
      `acc[token] = url || ""`, so a later item overrides an earlier one. */
  function ImageMapOf(items: seq<RawEntry>): (r: map<string, string>)
  {
    if items == [] then map[]
    else
      var acc := ImageMapOf(items[..|items| - 1]);
      var item := items[|items| - 1];
      if HasToken(item) then acc[item.token := item.url] else acc
  }

  /** `mergeListsToImageMap(global, streamer)`. */
  function MergeListsToImageMap(lists: Lists): (r: map<string, string>)
  {
    ImageMapOf(Combined(lists))
  }

  /** The keys are exactly the tokens of the items that have one, and each key's image is the
      url of the LAST item with that token. */
  lemma {:induction false} ImageMapSpec(items: seq<RawEntry>, k: string)
    ensures k in ImageMapOf(items) <==> exists i :: 0 <= i < |items| && HasToken(items[i]) && items[i].token == k
    ensures k in ImageMapOf(items) ==>
              exists i :: 0 <= i < |items| && HasToken(items[i]) && items[i].token == k
                          && ImageMapOf(items)[k] == items[i].url
                          && forall j :: i < j < |items| ==> !(HasToken(items[j]) && items[j].token == k)
  {
    if items != [] {
      var init := items[..|items| - 1];
      var last := items[|items| - 1];
      ImageMapSpec(init, k);
      if HasToken(last) && last.token == k {
        assert ImageMapOf(items)[k] == last.url;
      } else {
        assert ImageMapOf(items) == ImageMapOf(init) || ImageMapOf(items) == ImageMapOf(init)[last.token := last.url];
        if exists i :: 0 <= i < |items| && HasToken(items[i]) && items[i].token == k {
          var i :| 0 <= i < |items| && HasToken(items[i]) && items[i].token == k;
          assert i < |init| && init[i] == items[i];
        }
        if k in ImageMapOf(init) {
          var i :| 0 <= i < |init| && HasToken(init[i]) && init[i].token == k
                   && ImageMapOf(init)[k] == init[i].url
                   && forall j :: i < j < |init| ==> !(HasToken(init[j]) && init[j].token == k);
          assert items[i] == init[i];
          assert forall j :: i < j < |items| ==> !(HasToken(items[j]) && items[j].token == k) by {
            forall j | i < j < |items|
              ensures !(HasToken(items[j]) && items[j].token == k)
            {
              if j < |init| {
                assert items[j] == init[j];
              }
            }
          }
        }
      }
    }
  }

  /** A streamer emote overrides a global one with the same token: the image is that of the last
      streamer item with the token. */
  lemma StreamerOverridesGlobal(lists: Lists, k: string, s: nat)
    requires s < |lists.streamer.GetOr([])|
    requires HasToken(lists.streamer.GetOr([])[s]) && lists.streamer.GetOr([])[s].token == k
    requires forall j :: s < j < |lists.streamer.GetOr([])| ==> !(HasToken(lists.streamer.GetOr([])[j]) && lists.streamer.GetOr([])[j].token == k)
    ensures k in MergeListsToImageMap(lists)
    ensures MergeListsToImageMap(lists)[k] == lists.streamer.GetOr([])[s].url
  {
    var g := lists.global.GetOr([]);
    var st := lists.streamer.GetOr([]);
    var items := Combined(lists);
    assert items[|g| + s] == st[s];
    ImageMapSpec(items, k);
    var i :| 0 <= i < |items| && HasToken(items[i]) && items[i].token == k
             && ImageMapOf(items)[k] == items[i].url
             && forall j :: i < j < |items| ==> !(HasToken(items[j]) && items[j].token == k);
    assert HasToken(items[|g| + s]) && items[|g| + s].token == k;
    assert forall t :: |g| <= t < |items| ==> items[t] == st[t - |g|];
  }

  /** With the store as it is, the image map is empty. */
  lemma StoreGivesNoImages()
    ensures MergeListsToImageMap(StoreListArgument) == map[]
  {
  }

  // ---------------------------------------------------------------------------------------------
  // Geometry
  // ---------------------------------------------------------------------------------------------

  const MinWidth: int := 200
  const MinHeight: int := 100
  const ViewportMargin: int := 20
  const PanelWidth: int := 200
  const PanelHeight: int := 80
  const FallbackLeft: int := 20
  const FallbackTop: int := 100

  function Min(a: int, b: int): int { if a <= b then a else b }
  function Max(a: int, b: int): int { if a >= b then a else b }

  /** `Math.min(maxV, Math.max(minV, v))`: never above the viewport bound, at least the minimum
      whenever the viewport leaves room for it, and a size already in range is kept. */
  function ClampSize(v: int, minV: int, maxV: int): (r: int)
    ensures r <= maxV
    ensures minV <= maxV ==> minV <= r
    ensures minV <= v <= maxV ==> r == v
    ensures maxV < minV ==> r == maxV
  {
    Min(maxV, Max(minV, v))
  }

  /** `Math.max(0, Math.min(v, viewport - size))`: never negative, keeps the panel inside the
      viewport when the viewport is large enough, and leaves a fitting coordinate alone. */
  function ClampToViewport(v: int, viewport: int, size: int): (r: int)
    ensures r >= 0
    ensures viewport >= size ==> r + size <= viewport
    ensures 0 <= v <= viewport - size ==> r == v
  {
    Max(0, Min(v, viewport - size))
  }

  // ---------------------------------------------------------------------------------------------
  // The controls
  // ---------------------------------------------------------------------------------------------

  datatype Display = Unset | Flex | NoDisplay

  /** A `width`/`height` style: unset, a pixel count, or `auto`. */
  datatype Length = NoLength | Px(n: int) | Auto

  /** The panel's inline style. */
  datatype Style = Style(display: Display, left: Length, top: Length, width: Length, height: Length)

  datatype Point = Point(x: int, y: int)
  datatype Size = Size(width: int, height: int)

  /** `resizeAxis`. */
  datatype Axis = X | Y | Both

  /** The chat container's top-left corner, when `findChatContainer` finds one. */
  type ChatRect = Option<Point>

  /** The selectors `findChatContainer` tries, in order. */
  datatype ChatSelector =
    | ChatFrameId        // #chatframe
    | LiveChatFrame      // ytd-live-chat-frame
    | ChatId             // #chat
    | LiveChatRenderer   // yt-live-chat-renderer
    | SecondaryChat      // #secondary #chat
    | WatchSecondaryChat // ytd-watch-flexy #secondary #chat

  const ChatSelectors: seq<ChatSelector> :=
    [ChatFrameId, LiveChatFrame, ChatId, LiveChatRenderer, SecondaryChat, WatchSecondaryChat]

  /** A matched element's bounding rectangle. */
  datatype Rect = Rect(left: int, top: int, width: int)

  /** `document.querySelector`, for the chat selectors. */
  type ChatPage = ChatSelector -> Option<Rect>

  predicate IsShown(found: Option<Rect>) {
    found.Some? && found.value.width > 0
  }

  /** The first selector whose element has a positive width. */
  function FirstShown(page: ChatPage, selectors: seq<ChatSelector>): (r: Option<Rect>)
  {
    if selectors == [] then None
    else if IsShown(page(selectors[0])) then page(selectors[0])
    else FirstShown(page, selectors[1..])
  }

  /** `FirstShown` finds a container iff some selector's element has a positive width, and what
      it finds is the element of the first such selector. */
  lemma {:induction false} FirstShownSpec(page: ChatPage, selectors: seq<ChatSelector>)
    ensures FirstShown(page, selectors).Some? <==> exists i :: 0 <= i < |selectors| && IsShown(page(selectors[i]))
    ensures FirstShown(page, selectors).Some? ==>
              exists i :: 0 <= i < |selectors| && FirstShown(page, selectors) == page(selectors[i])
                          && IsShown(page(selectors[i]))
                          && forall j :: 0 <= j < i ==> !IsShown(page(selectors[j]))
  {
    if selectors != [] && !IsShown(page(selectors[0])) {
      var rest := selectors[1..];
      FirstShownSpec(page, rest);
      if FirstShown(page, rest).Some? {
        var i :| 0 <= i < |rest| && FirstShown(page, rest) == page(rest[i]) && IsShown(page(rest[i]))
                 && forall j :: 0 <= j < i ==> !IsShown(page(rest[j]));
        assert selectors[i + 1] == rest[i];
        assert forall j :: 0 <= j < i + 1 ==> !IsShown(page(selectors[j])) by {
          forall j | 0 <= j < i + 1
            ensures !IsShown(page(selectors[j]))
          {
            if j > 0 {
              assert selectors[j] == rest[j - 1];
            }
          }
        }
      }
      if exists i :: 0 <= i < |selectors| && IsShown(page(selectors[i])) {
        var i :| 0 <= i < |selectors| && IsShown(page(selectors[i]));
        assert selectors[i] == rest[i - 1];
      }
    }
  }

  /** `findChatContainer`: the loop over the chat selectors. */
  method FindChatContainer(page: ChatPage, selectors: seq<ChatSelector>) returns (found: Option<Rect>)
    ensures found == FirstShown(page, selectors)
  {
    for i := 0 to |selectors|
      invariant FirstShown(page, selectors[i..]) == FirstShown(page, selectors)
    {
      assert selectors[i..][1..] == selectors[i + 1..];
      var element := page(selectors[i]);
      if IsShown(element) {
        return element;
      }
    }
    assert selectors[|selectors|..] == [];
    return None;
  }

  /** The corner of the container that `findChatContainer` finds on `page`. */
  function ChatCorner(page: ChatPage): (r: ChatRect)
  {
    var found := FirstShown(page, ChatSelectors);
    if found.Some? then Some(Point(found.value.left, found.value.top)) else None
  }

  /** The inline style after `repositionToChatContainer`: at the chat container's corner, clamped
      into the viewport, keeping a width or height already set; at the fallback place with the
      default sizes without a container. */
  function Placed(s: Style, page: ChatPage, innerWidth: int, innerHeight: int): (r: Style)
    ensures r.display == s.display
    ensures r.left.Px? && r.left.n >= 0 && r.top.Px? && r.top.n >= 0
    ensures r.width != NoLength && r.height != NoLength
    ensures ChatCorner(page).Some? ==> (s.width != NoLength ==> r.width == s.width) && (s.height != NoLength ==> r.height == s.height)
  {
    var corner := ChatCorner(page);
    if corner.Some? then
      s.(left := Px(ClampToViewport(corner.value.x, innerWidth, PanelWidth)),
         top := Px(ClampToViewport(corner.value.y, innerHeight, PanelHeight)),
         width := if s.width == NoLength then Px(PanelWidth) else s.width,
         height := if s.height == NoLength then Auto else s.height)
    else
      s.(left := Px(FallbackLeft), top := Px(FallbackTop), width := Px(PanelWidth), height := Auto)
  }

  /** Placing an already placed panel again on the same page changes nothing. */
  lemma PlacedTwice(s: Style, page: ChatPage, innerWidth: int, innerHeight: int)
    ensures Placed(Placed(s, page, innerWidth, innerHeight), page, innerWidth, innerHeight)
         == Placed(s, page, innerWidth, innerHeight)
  {
  }

  /** The inline style after `show` on a panel: placed by the chat unless the user placed it,
      then displayed as `flex`. */
  function Shown(s: Style, userPositioned: bool, page: ChatPage, innerWidth: int, innerHeight: int): (r: Style)
    ensures r.display == Flex
    ensures userPositioned ==> r == s.(display := Flex)
    ensures !userPositioned ==> r.left.Px? && r.left.n >= 0 && r.top.Px? && r.top.n >= 0
  {
    (if userPositioned then s else Placed(s, page, innerWidth, innerHeight)).(display := Flex)
  }

  /** The inline style after `toggle` on a panel: a `flex` panel is hidden, any other shown. */
  function Toggled(s: Style, userPositioned: bool, page: ChatPage, innerWidth: int, innerHeight: int): (r: Style)
    ensures r.display == if s.display == Flex then NoDisplay else Flex
    ensures s.display == Flex ==> r == s.(display := NoDisplay)
  {
    if s.display == Flex then s.(display := NoDisplay) else Shown(s, userPositioned, page, innerWidth, innerHeight)
  }

  /** Toggling twice brings a shown or hidden panel back, provided the user placed it; a panel
      the chat places may move. */
  lemma ToggleTwice(s: Style, page: ChatPage, innerWidth: int, innerHeight: int)
    requires s.display == Flex || s.display == NoDisplay
    ensures Toggled(Toggled(s, true, page, innerWidth, innerHeight), true, page, innerWidth, innerHeight) == s
  {
  }

  /** What `createOverlay` leaves: the fetch of the template failed (caught, `overlay` kept), the
      template has no panel element (`overlay` becomes `null`), or a new panel element with the
      template's inline style was added. */
  datatype CreateOutcome = FetchFailed | NoPanel | Created(template: Style)

  /** `BeeHappyControls`. `hasOverlay` says whether `overlay` is set; `style` is its inline style;
      `initRetryPending` says whether the retry of `init` is armed. */
  class Controls {
    var hasOverlay: bool
    var style: Style
    var isDragging: bool
    var isResizing: bool
    var userPositioned: bool
    var resizeAxis: Axis
    var dragOffset: Point
    var resizeStart: Point
    var originalSize: Size
    var imageMap: map<string, string>
    var initRetryPending: bool

    /** The constructor's field values; `Init` is what it then starts. */
    constructor ()
      ensures !hasOverlay && !isDragging && !isResizing && !userPositioned && !initRetryPending
      ensures dragOffset == Point(0, 0) && resizeStart == Point(0, 0) && originalSize == Size(0, 0)
    {
      hasOverlay := false;
      style := Style(Unset, NoLength, NoLength, NoLength, NoLength);
      isDragging := false;
      isResizing := false;
      userPositioned := false;
      resizeAxis := Both;
      dragOffset := Point(0, 0);
      resizeStart := Point(0, 0);
      originalSize := Size(0, 0);
      imageMap := map[];
      initRetryPending := false;
    }

    /** `init`: with a truthy `init()` answer `createOverlay` runs, the image map is built from
        the lists and the panel is toggled, which shows a new panel; with any other answer a retry
        is armed, with no bound on the number of retries. `initAnswer` is what the store's
        `init()` resolves to (`None` is `undefined`). */
    method Init(initAnswer: Option<bool>, created: CreateOutcome, lists: Lists, page: ChatPage, innerWidth: int, innerHeight: int)
      modifies this
      ensures initAnswer != Some(true) ==>
                initRetryPending && hasOverlay == old(hasOverlay) && imageMap == old(imageMap) && style == old(style)
      ensures initAnswer == Some(true) ==> imageMap == MergeListsToImageMap(lists) && initRetryPending == old(initRetryPending)
      ensures initAnswer == Some(true) && created.Created? ==>
                hasOverlay && style == Shown(created.template.(display := NoDisplay), old(userPositioned), page, innerWidth, innerHeight)
      ensures initAnswer == Some(true) && created.NoPanel? ==> !hasOverlay && style == old(style)
      ensures initAnswer == Some(true) && created.FetchFailed? ==>
                hasOverlay == old(hasOverlay)
                && style == if old(hasOverlay) then Toggled(old(style), old(userPositioned), page, innerWidth, innerHeight) else old(style)
      ensures isDragging == old(isDragging) && isResizing == old(isResizing) && userPositioned == old(userPositioned)
    {
      if initAnswer != Some(true) {
        initRetryPending := true;
        return;
      }
      match created {
        case FetchFailed =>
        case NoPanel =>
          hasOverlay := false;
        case Created(template) =>
          hasOverlay := true;
          style := template.(display := NoDisplay);
      }
      imageMap := MergeListsToImageMap(lists);
      Toggle(page, innerWidth, innerHeight);
    }

    /** The update listener registered by `init`. */
    method OnStoreUpdate(lists: Lists)
      modifies this
      ensures imageMap == MergeListsToImageMap(lists)
      ensures hasOverlay == old(hasOverlay) && style == old(style)
    {
      imageMap := MergeListsToImageMap(lists);
    }

    /** `startDrag`: ignored while the emote picker is open. `rect` is the panel's top-left. */
    method StartDrag(pickerVisible: bool, client: Point, rect: Point)
      modifies this
      ensures pickerVisible ==> isDragging == old(isDragging) && dragOffset == old(dragOffset)
      ensures !pickerVisible ==> isDragging && dragOffset == Point(client.x - rect.x, client.y - rect.y)
      ensures style == old(style) && isResizing == old(isResizing) && userPositioned == old(userPositioned)
    {
      if pickerVisible {
        return;
      }
      isDragging := true;
      dragOffset := Point(client.x - rect.x, client.y - rect.y);
    }

    /** `drag`: while dragging, the panel's corner follows the pointer at the grab offset. */
    method Drag(client: Point)
      modifies this
      ensures old(isDragging) ==>
                style == old(style).(left := Px(client.x - dragOffset.x), top := Px(client.y - dragOffset.y))
      ensures !old(isDragging) ==> style == old(style)
      ensures isDragging == old(isDragging) && dragOffset == old(dragOffset) && userPositioned == old(userPositioned)
      ensures isResizing == old(isResizing)
    {
      if !isDragging {
        return;
      }
      style := style.(left := Px(client.x - dragOffset.x), top := Px(client.y - dragOffset.y));
    }

    /** `stopDrag`: ends a drag and marks the panel as placed by the user; no effect otherwise. */
    method StopDrag()
      modifies this
      ensures !isDragging
      ensures userPositioned == (old(userPositioned) || old(isDragging))
      ensures style == old(style) && isResizing == old(isResizing)
    {
      if isDragging {
        isDragging := false;
        userPositioned := true;
      }
    }

    /** `startResize`: records the pointer, the axis and the panel's size. */
    method StartResize(axis: Axis, client: Point, rect: Size)
      modifies this
      ensures old(hasOverlay) ==> isResizing && resizeAxis == axis && resizeStart == client && originalSize == rect
      ensures !old(hasOverlay) ==> isResizing == old(isResizing) && resizeAxis == old(resizeAxis)
      ensures style == old(style) && isDragging == old(isDragging) && userPositioned == old(userPositioned)
    {
      if !hasOverlay {
        return;
      }
      isResizing := true;
      resizeAxis := axis;
      resizeStart := client;
      originalSize := rect;
    }

    /** `_onResizeMouseMove`: while resizing, the axis' dimensions follow the pointer, clamped
        between the minimum and the viewport less a margin; the other dimension is untouched. */
    method ResizeMove(client: Point, innerWidth: int, innerHeight: int)
      modifies this
      ensures var w := ClampSize(originalSize.width + client.x - resizeStart.x, MinWidth, innerWidth - ViewportMargin);
              var h := ClampSize(originalSize.height + client.y - resizeStart.y, MinHeight, innerHeight - ViewportMargin);
              style == if !old(isResizing) then old(style)
                       else old(style).(width := if resizeAxis != Y then Px(w) else old(style.width),
                                        height := if resizeAxis != X then Px(h) else old(style.height))
      ensures isResizing == old(isResizing) && resizeAxis == old(resizeAxis)
      ensures originalSize == old(originalSize) && resizeStart == old(resizeStart)
      ensures isDragging == old(isDragging) && userPositioned == old(userPositioned)
    {
      if !isResizing {
        return;
      }
      var dx := client.x - resizeStart.x;
      var dy := client.y - resizeStart.y;
      if resizeAxis == Both || resizeAxis == X {
        var newW := originalSize.width + dx;
        style := style.(width := Px(ClampSize(newW, MinWidth, innerWidth - ViewportMargin)));
      }
      if resizeAxis == Both || resizeAxis == Y {
        var newH := originalSize.height + dy;
        style := style.(height := Px(ClampSize(newH, MinHeight, innerHeight - ViewportMargin)));
      }
    }

    /** `_onResizeMouseUp`. */
    method ResizeUp()
      modifies this
      ensures !isResizing
      ensures style == old(style) && isDragging == old(isDragging) && userPositioned == old(userPositioned)
    {
      if !isResizing {
        return;
      }
      isResizing := false;
    }

    /** `repositionToChatContainer` (also run on every window resize, whether or not the user has
        placed the panel): at the chat container's corner, clamped into the viewport, with default
        sizes where none is set; at a fixed fallback place without a container. The source
        dereferences the panel without a check, so it needs one. */
    method Reposition(page: ChatPage, innerWidth: int, innerHeight: int)
      requires hasOverlay
      modifies this
      ensures ChatCorner(page).Some? ==>
                style == old(style).(left := Px(ClampToViewport(ChatCorner(page).value.x, innerWidth, PanelWidth)),
                                     top := Px(ClampToViewport(ChatCorner(page).value.y, innerHeight, PanelHeight)),
                                     width := if old(style.width) == NoLength then Px(PanelWidth) else old(style.width),
                                     height := if old(style.height) == NoLength then Auto else old(style.height))
      ensures ChatCorner(page).None? ==>
                style == old(style).(left := Px(FallbackLeft), top := Px(FallbackTop), width := Px(PanelWidth), height := Auto)
      ensures style == Placed(old(style), page, innerWidth, innerHeight)
      ensures style.left.Px? && style.left.n >= 0 && style.top.Px? && style.top.n >= 0
      ensures isDragging == old(isDragging) && isResizing == old(isResizing) && userPositioned == old(userPositioned)
      ensures hasOverlay == old(hasOverlay)
      ensures imageMap == old(imageMap) && initRetryPending == old(initRetryPending)
    {
      var found := FindChatContainer(page, ChatSelectors);
      var chat: ChatRect := if found.Some? then Some(Point(found.value.left, found.value.top)) else None;
      if chat.Some? {
        var finalLeft := ClampToViewport(chat.value.x, innerWidth, PanelWidth);
        var finalTop := ClampToViewport(chat.value.y, innerHeight, PanelHeight);
        style := style.(left := Px(finalLeft), top := Px(finalTop));
        if style.width == NoLength {
          style := style.(width := Px(PanelWidth));
        }
        if style.height == NoLength {
          style := style.(height := Auto);
        }
      } else {
        style := style.(left := Px(FallbackLeft), top := Px(FallbackTop), width := Px(PanelWidth), height := Auto);
      }
    }

    /** `hide` (and `closeOverlay`). */
    method Hide()
      modifies this
      ensures old(hasOverlay) ==> style == old(style).(display := NoDisplay)
      ensures !old(hasOverlay) ==> style == old(style)
      ensures hasOverlay == old(hasOverlay) && userPositioned == old(userPositioned)
      ensures isDragging == old(isDragging) && isResizing == old(isResizing)
      ensures imageMap == old(imageMap) && initRetryPending == old(initRetryPending)
    {
      if hasOverlay {
        style := style.(display := NoDisplay);
      }
    }

    /** `show`: repositions next to the chat only while the user has not placed the panel. */
    method Show(page: ChatPage, innerWidth: int, innerHeight: int)
      modifies this
      ensures old(hasOverlay) ==> style == Shown(old(style), old(userPositioned), page, innerWidth, innerHeight)
      ensures old(hasOverlay) ==> style.display == Flex
      ensures old(hasOverlay) && old(userPositioned) ==> style == old(style).(display := Flex)
      ensures old(hasOverlay) && !old(userPositioned) ==>
                style.left.Px? && style.left.n >= 0 && style.top.Px? && style.top.n >= 0
      ensures !old(hasOverlay) ==> style == old(style)
      ensures hasOverlay == old(hasOverlay) && userPositioned == old(userPositioned)
      ensures isDragging == old(isDragging) && isResizing == old(isResizing)
      ensures imageMap == old(imageMap) && initRetryPending == old(initRetryPending)
    {
      if hasOverlay {
        if !userPositioned {
          Reposition(page, innerWidth, innerHeight);
        }
        style := style.(display := Flex);
      }
    }

    /** `toggle`: a panel showing `flex` is hidden, any other is shown. */
    method Toggle(page: ChatPage, innerWidth: int, innerHeight: int)
      modifies this
      ensures old(hasOverlay) ==> style == Toggled(old(style), old(userPositioned), page, innerWidth, innerHeight)
      ensures old(hasOverlay) ==> style.display == if old(style.display) == Flex then NoDisplay else Flex
      ensures !old(hasOverlay) ==> style == old(style)
      ensures hasOverlay == old(hasOverlay) && userPositioned == old(userPositioned)
      ensures isDragging == old(isDragging) && isResizing == old(isResizing)
      ensures imageMap == old(imageMap) && initRetryPending == old(initRetryPending)
    {
      if hasOverlay {
        if style.display == Flex {
          Hide();
        } else {
          Show(page, innerWidth, innerHeight);
        }
      }
    }
  }

  /** `init` against the store as written: `init()` resolves to `undefined`, so every run only arms
      the next retry, a second later, forever; no panel is created and the image map stays as
      it was. */
  method InitWithStore(c: Controls, store: EmoteMap.EmoteStore, created: CreateOutcome, lists: Lists,
                       page: ChatPage, innerWidth: int, innerHeight: int)
    modifies c
    ensures c.initRetryPending
    ensures c.hasOverlay == old(c.hasOverlay) && c.style == old(c.style) && c.imageMap == old(c.imageMap)
  {
    var answer := store.Init();
    c.Init(answer, created, lists, page, innerWidth, innerHeight);
  }

  /** `init` with `init()` resolving to what `ensureInitialized` reports: once the map is loaded the
      image map is built and a created panel is shown, with no retry armed. */
  method InitWithReportingStore(c: Controls, store: EmoteMap.EmoteStore, created: CreateOutcome, lists: Lists,
                                page: ChatPage, innerWidth: int, innerHeight: int)
    modifies c
    ensures store.tokenMap.Some? ==> c.imageMap == MergeListsToImageMap(lists) && c.initRetryPending == old(c.initRetryPending)
    ensures store.tokenMap.Some? && created.Created? ==> c.hasOverlay && c.style.display == Flex
    ensures store.tokenMap.None? ==> c.initRetryPending && c.imageMap == old(c.imageMap)
  {
    var answer := store.InitReporting();
    c.Init(answer, created, lists, page, innerWidth, innerHeight);
  }
}
