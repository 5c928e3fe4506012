/** The emote picker of the controls panel (emote-picker.js): two tabs of emotes, a search
    filter, the records fetched from the API with their fallback, and the picker's visibility. */
module Picker {
  import opened Wrappers
  import opened Text
  import opened Seqs

  // ---------------------------------------------------------------------------------------------
  // Emotes
  // ---------------------------------------------------------------------------------------------

  /** `type`: 'youtube' or 'beehappy'. */
  datatype Kind = Youtube | BeeHappy

  /** A picker emote; a missing `url` is "". */
  datatype Emote = Emote(id: string, name: string, url: string, kind: Kind)

  /** The constructor's `youtubeEmojis`. */
  const YoutubeEmojis: seq<string> := [
     "😀", "😃", "😄", "😁", "😅", "😂", "🤣", "😊", "😇", "🙂", "🙃", "😉", "😌",
     "😍", "🥰", "😘", "😗", "😙", "😚", "😋", "😛", "😝", "😜", "🤪", "🤨", "🧐",
     "🤓", "😎", "🤩", "🥳", "😏", "😒", "😞", "😔", "😟", "😕", "🙁", "☹️", "😣",
     "😖", "😫", "😩", "🥺", "😢", "😭", "😤", "😠", "😡", "🤬", "🤯", "😳", "🥵",
     "🥶", "😱", "😨", "😰", "😥", "😓", "🤗", "🤔", "🤭", "🤫", "🤥", "😶", "😐",
     "😑", "😬", "🙄", "😯", "😦", "😧", "😮", "😲", "🥱", "😴", "🤤", "😪", "😵"
  ]

  /** `loadEmotes`' youtube list: one emote per emoji, named by the emoji itself. */
  function YoutubeList(emojis: seq<string>): (r: seq<Emote>)
    ensures |r| == |emojis|
    ensures forall i :: 0 <= i < |r| ==> r[i].id == emojis[i] && r[i].name == emojis[i] && r[i].kind == Youtube
  {
    seq(|emojis|, i requires 0 <= i < |emojis| => Emote(emojis[i], emojis[i], "", Youtube))
  }

  /** An element of the API's `data` array; absent or falsy string fields are "". */
  datatype ApiRecord = NotAnObject | ApiRecord(id: string, name: string, url: string)

  /** The `fetch_emotes` reply: `success`, and `data` when it is an array. */
  datatype Response = Response(success: bool, data: Option<seq<ApiRecord>>)

  /** The name given to a record without one. */
  function Placeholder(id: string): (r: string)
  {
    "[bh:" + (if id != "" then id else "unknown") + "]"
  }

  /** The `map` callback of `loadEmotes`. */
  function FromRecord(rec: ApiRecord): (r: Emote)
    requires rec.ApiRecord?
    ensures r.kind == BeeHappy && r.id == rec.id && r.url == rec.url
    ensures rec.name != "" ==> r.name == rec.name
    ensures rec.name == "" ==> r.name == Placeholder(rec.id) && StartsWith(r.name, "[bh:")
  {
    Emote(rec.id, if rec.name != "" then rec.name else Placeholder(rec.id), rec.url, BeeHappy)
  }

  /** The six emotes used when the API cannot be reached or answers badly. */
  const DefaultEmotes: seq<Emote> := [
    Emote("poggers", "[bh:poggers]", "", BeeHappy),
    Emote("kappa", "[bh:kappa]", "", BeeHappy),
    Emote("lul", "[bh:lul]", "", BeeHappy),
    Emote("pepe", "[bh:pepe]", "", BeeHappy),
    Emote("test", "[bh:test]", "", BeeHappy),
    Emote("emote", "[bh:emote]", "", BeeHappy)
  ]

  /** Reading a field of a `null` element throws inside `map`, which the fallback catches. */
  predicate AllRecords(data: seq<ApiRecord>) {
    forall i :: 0 <= i < |data| ==> data[i].ApiRecord?
  }

  /** `loadEmotes`' beehappy list: without a runtime, without a reply, or with a reply that is
      not a success carrying an array of objects, exactly the six defaults, all drawn as text;
      otherwise one emote per record, in order. */
  function BeeHappyList(runtimeAvailable: bool, reply: Option<Response>): (r: seq<Emote>)
    ensures forall i :: 0 <= i < |r| ==> r[i].kind == BeeHappy
    ensures var good := runtimeAvailable && reply.Some? && reply.value.success && reply.value.data.Some?
                        && AllRecords(reply.value.data.value);
            (good ==> |r| == |reply.value.data.value|
                      && forall i :: 0 <= i < |r| ==> r[i] == FromRecord(reply.value.data.value[i]))
            && (!good ==> r == DefaultEmotes && |r| == 6 && forall i :: 0 <= i < |r| ==> r[i].url == "")
  {
    if runtimeAvailable && reply.Some? && reply.value.success && reply.value.data.Some?
       && AllRecords(reply.value.data.value)
    then
      var data := reply.value.data.value;
      seq(|data|, i requires 0 <= i < |data| => FromRecord(data[i]))
    else DefaultEmotes
  }

  // ---------------------------------------------------------------------------------------------
  // Rendering
  // ---------------------------------------------------------------------------------------------

  /** The search filter: the lowercased name, or the lowercased non-empty id, contains `term`. */
  predicate MatchesTerm(e: Emote, term: string) {
    Contains(Lower(e.name), term) || (e.id != "" && Contains(Lower(e.id), term))
  }

  /** `emotes.filter(...)` on a non-empty term. */
  function FilterTerm(emotes: seq<Emote>, term: string): (r: seq<Emote>)
  {
    if emotes == [] then []
    else
      var head := if MatchesTerm(emotes[0], term) then [emotes[0]] else [];
      head + FilterTerm(emotes[1..], term)
  }

  /** `renderEmotes`' list: the whole tab without a search term, the matching emotes otherwise. */
  function Filtered(emotes: seq<Emote>, term: string): (r: seq<Emote>)
  {
    if term == "" then emotes else FilterTerm(emotes, term)
  }

  /** The filter keeps each matching emote as often as it occurs and drops every other one. */
  lemma {:induction false} FilterTermCounts(emotes: seq<Emote>, term: string, e: Emote)
    ensures multiset(FilterTerm(emotes, term))[e] == if MatchesTerm(e, term) then multiset(emotes)[e] else 0
  {
    if emotes != [] {
      FilterTermCounts(emotes[1..], term, e);
      assert emotes == [emotes[0]] + emotes[1..];
    }
  }

  /** The filter keeps the order of the tab. */
  lemma {:induction false} FilterTermOrdered(emotes: seq<Emote>, term: string)
    ensures Subsequence(FilterTerm(emotes, term), emotes)
  {
    if emotes != [] {
      var rest := FilterTerm(emotes[1..], term);
      FilterTermOrdered(emotes[1..], term);
      if MatchesTerm(emotes[0], term) {
        var r := FilterTerm(emotes, term);
        assert r == [emotes[0]] + rest;
        assert r[0] == emotes[0] && r[1..] == rest;
      } else {
        assert FilterTerm(emotes, term) == rest;
      }
    }
  }

  /** Searching: every emote of the tab appears iff the term is empty or it matches, as often as
      in the tab, and in the tab's order. */
  lemma FilteredSpec(emotes: seq<Emote>, term: string, e: Emote)
    ensures multiset(Filtered(emotes, term))[e] ==
              if term == "" || MatchesTerm(e, term) then multiset(emotes)[e] else 0
    ensures e in Filtered(emotes, term) <==> e in emotes && (term == "" || MatchesTerm(e, term))
    ensures Subsequence(Filtered(emotes, term), emotes)
  {
    if term == "" {
      SubsequenceOfItself(emotes);
    } else {
      FilterTermCounts(emotes, term, e);
      FilterTermOrdered(emotes, term);
    }
  }

  lemma {:induction false} SubsequenceOfItself<T>(s: seq<T>)
    ensures Subsequence(s, s)
  {
    if s != [] {
      SubsequenceOfItself(s[1..]);
    }
  }

  /** What a grid cell shows. */
  datatype Item = Image(src: string, alt: string) | Label(text: string)

  /** A cell of `renderEmotes`: a beehappy emote with a url is its image, every other emote
      is its name as text. */
  function ItemOf(e: Emote): (r: Item)
    ensures r.Image? <==> e.kind == BeeHappy && e.url != ""
    ensures r.Image? ==> r.src == e.url && r.alt == e.name
    ensures r.Label? ==> r.text == e.name
  {
    match e.kind
    case Youtube => Label(e.name)
    case BeeHappy => if e.url != "" then Image(e.url, e.name) else Label(e.name)
  }

  function ItemsOf(emotes: seq<Emote>): (r: seq<Item>)
    ensures |r| == |emotes|
    ensures forall i :: 0 <= i < |r| ==> r[i] == ItemOf(emotes[i])
  {
    seq(|emotes|, i requires 0 <= i < |emotes| => ItemOf(emotes[i]))
  }

  // ---------------------------------------------------------------------------------------------
  // The picker
  // ---------------------------------------------------------------------------------------------

  const MaxRetries: nat := 10

  /** The tabs' `data-tab` values. */
  datatype Tab = YoutubeTab | BeeHappyTab

  /** Which of the picker's elements `getElementById` / `querySelectorAll` find. */
  datatype Elements = Elements(picker: bool, searchInput: bool, grid: bool, tabs: bool)

  predicate AllFound(found: Elements) {
    found.picker && found.searchInput && found.grid && found.tabs
  }

  /** `retryCount`, `initialized`, and whether a retry of `init` is armed (set by `Init`, cleared
      when the timer fires in `RetryFires`). */
  datatype InitState = InitState(retryCount: nat, initialized: bool, retryPending: bool)

  /** `this.emotes`. */
  datatype EmoteTabs = EmoteTabs(youtube: seq<Emote>, beehappy: seq<Emote>)

  function TabList(tabs: EmoteTabs, tab: Tab): seq<Emote> {
    if tab == YoutubeTab then tabs.youtube else tabs.beehappy
  }

  /** `BeeHappyEmotePicker`. `visible` is the `visible` class of the picker element, `grid` the
      cells of the emote grid, `inputValue` the search box's value. */
  class EmotePicker {
    var elements: Elements
    var boot: InitState
    var emotes: EmoteTabs
    var currentTab: Tab
    var searchTerm: string
    var inputValue: string
    var visible: bool
    var grid: seq<Item>

    /** Retries of `init` never exceed the maximum. */
    predicate Valid()
      reads this
    {
      boot.retryCount <= MaxRetries
    }

    /** The constructor's field values; `Init` is what it then starts. */
    constructor ()
      ensures Valid()
      ensures boot == InitState(0, false, false) && emotes == EmoteTabs([], []) && currentTab == YoutubeTab
      ensures searchTerm == "" && !visible && grid == []
    {
      elements := Elements(false, false, false, false);
      boot := InitState(0, false, false);
      emotes := EmoteTabs([], []);
      currentTab := YoutubeTab;
      searchTerm := "";
      inputValue := "";
      visible := false;
      grid := [];
    }

    /** `init`: while an element is missing, arms a retry unless `MaxRetries` retries have been
        made; once all are found, sets the picker up the first time only. */
    method Init(found: Elements, runtimeAvailable: bool, reply: Option<Response>)
      requires Valid()
      modifies this
      ensures Valid()
      ensures elements == found
      ensures !AllFound(found) && old(boot.retryCount) >= MaxRetries ==> boot == old(boot)
      ensures !AllFound(found) && old(boot.retryCount) < MaxRetries ==>
                boot == old(boot).(retryCount := old(boot.retryCount) + 1, retryPending := true)
      ensures !AllFound(found) ==> emotes == old(emotes) && visible == old(visible) && grid == old(grid)
      ensures AllFound(found) && old(boot.initialized) ==>
                boot == old(boot) && emotes == old(emotes) && visible == old(visible) && grid == old(grid)
      ensures AllFound(found) && !old(boot.initialized) ==>
                boot == old(boot).(initialized := true) && !visible
                && emotes == EmoteTabs(YoutubeList(YoutubeEmojis), BeeHappyList(runtimeAvailable, reply))
                && grid == ItemsOf(Filtered(TabList(emotes, currentTab), searchTerm))
      ensures currentTab == old(currentTab) && searchTerm == old(searchTerm) && inputValue == old(inputValue)
    {
      elements := found;
      if !AllFound(found) {
        if boot.retryCount >= MaxRetries {
          return;
        }
        boot := boot.(retryCount := boot.retryCount + 1, retryPending := true);
        return;
      }
      if !boot.initialized {
        boot := boot.(initialized := true);
        SetupPicker(runtimeAvailable, reply);
      }
    }

    /** The armed `setTimeout(() => this.init(), 100)` fires: the retry is no longer pending, and
        `init` runs again with the elements found by then. */
    method RetryFires(found: Elements, runtimeAvailable: bool, reply: Option<Response>)
      requires Valid() && boot.retryPending
      modifies this
      ensures Valid()
      ensures elements == found
      ensures !AllFound(found) && old(boot.retryCount) >= MaxRetries ==> boot == old(boot).(retryPending := false)
      ensures !AllFound(found) && old(boot.retryCount) < MaxRetries ==>
                boot == old(boot).(retryCount := old(boot.retryCount) + 1)
      ensures !AllFound(found) ==> emotes == old(emotes) && visible == old(visible) && grid == old(grid)
      ensures AllFound(found) && old(boot.initialized) ==>
                boot == old(boot).(retryPending := false) && emotes == old(emotes) && visible == old(visible)
                && grid == old(grid)
      ensures AllFound(found) && !old(boot.initialized) ==>
                boot == old(boot).(initialized := true, retryPending := false) && !visible
                && emotes == EmoteTabs(YoutubeList(YoutubeEmojis), BeeHappyList(runtimeAvailable, reply))
                && grid == ItemsOf(Filtered(TabList(emotes, currentTab), searchTerm))
      ensures currentTab == old(currentTab) && searchTerm == old(searchTerm) && inputValue == old(inputValue)
    {
      boot := boot.(retryPending := false);
      Init(found, runtimeAvailable, reply);
    }

    /** `retryInit`: starts over with a fresh retry budget. */
    method RetryInit(found: Elements, runtimeAvailable: bool, reply: Option<Response>)
      modifies this
      ensures Valid()
      ensures elements == found
      ensures !AllFound(found) ==> boot == old(boot).(retryCount := 1, retryPending := true)
      ensures AllFound(found) && old(boot.initialized) ==>
                boot == old(boot).(retryCount := 0) && emotes == old(emotes) && visible == old(visible)
                && grid == old(grid)
      ensures AllFound(found) && !old(boot.initialized) ==>
                boot == old(boot).(retryCount := 0, initialized := true) && !visible
                && emotes == EmoteTabs(YoutubeList(YoutubeEmojis), BeeHappyList(runtimeAvailable, reply))
                && grid == ItemsOf(Filtered(TabList(emotes, currentTab), searchTerm))
      ensures !AllFound(found) ==> emotes == old(emotes) && visible == old(visible) && grid == old(grid)
      ensures currentTab == old(currentTab) && searchTerm == old(searchTerm) && inputValue == old(inputValue)
    {
      boot := boot.(retryCount := 0);
      Init(found, runtimeAvailable, reply);
    }

    /** `setupPicker`: hidden, loaded and drawn. */
    method SetupPicker(runtimeAvailable: bool, reply: Option<Response>)
      modifies this
      ensures !visible
      ensures emotes == EmoteTabs(YoutubeList(YoutubeEmojis), BeeHappyList(runtimeAvailable, reply))
      ensures elements.grid ==> grid == ItemsOf(Filtered(TabList(emotes, currentTab), searchTerm))
      ensures !elements.grid ==> grid == old(grid)
      ensures elements == old(elements) && boot == old(boot) && currentTab == old(currentTab)
      ensures searchTerm == old(searchTerm) && inputValue == old(inputValue)
    {
      visible := false;
      emotes := EmoteTabs(YoutubeList(YoutubeEmojis), BeeHappyList(runtimeAvailable, reply));
      RenderEmotes();
    }

    /** `renderEmotes`: the grid shows the current tab through the search filter. */
    method RenderEmotes()
      modifies this
      ensures elements.grid ==> grid == ItemsOf(Filtered(TabList(emotes, currentTab), searchTerm))
      ensures !elements.grid ==> grid == old(grid)
      ensures elements == old(elements) && boot == old(boot) && emotes == old(emotes)
      ensures currentTab == old(currentTab) && searchTerm == old(searchTerm) && visible == old(visible)
      ensures inputValue == old(inputValue)
    {
      if elements.grid {
        grid := ItemsOf(Filtered(TabList(emotes, currentTab), searchTerm));
      }
    }

    /** The search box's `input` listener: the term is the lowercased value. */
    method OnSearchInput(value: string)
      modifies this
      ensures searchTerm == Lower(value) && inputValue == value
      ensures elements.grid ==> grid == ItemsOf(Filtered(TabList(emotes, currentTab), searchTerm))
      ensures elements == old(elements) && boot == old(boot) && emotes == old(emotes)
      ensures currentTab == old(currentTab) && visible == old(visible)
    {
      inputValue := value;
      searchTerm := Lower(value);
      RenderEmotes();
    }

    /** A tab's `click` listener. */
    method SelectTab(tab: Tab)
      modifies this
      ensures currentTab == tab
      ensures elements.grid ==> grid == ItemsOf(Filtered(TabList(emotes, tab), searchTerm))
      ensures elements == old(elements) && boot == old(boot) && emotes == old(emotes)
      ensures searchTerm == old(searchTerm) && visible == old(visible) && inputValue == old(inputValue)
    {
      currentTab := tab;
      RenderEmotes();
    }

    /** `showPicker`. */
    method ShowPicker()
      modifies this
      ensures visible == (old(visible) || elements.picker)
      ensures elements == old(elements) && boot == old(boot) && emotes == old(emotes) && grid == old(grid)
      ensures searchTerm == old(searchTerm) && inputValue == old(inputValue) && currentTab == old(currentTab)
    {
      if !elements.picker {
        return;
      }
      visible := true;
    }

    /** `hidePicker`: hides the picker and clears the search, without redrawing the grid. */
    method HidePicker()
      modifies this
      ensures visible == (old(visible) && !elements.picker)
      ensures elements.picker && elements.searchInput ==> searchTerm == "" && inputValue == ""
      ensures !(elements.picker && elements.searchInput) ==>
                searchTerm == old(searchTerm) && inputValue == old(inputValue)
      ensures elements == old(elements) && boot == old(boot) && emotes == old(emotes) && grid == old(grid)
      ensures currentTab == old(currentTab)
    {
      if !elements.picker {
        return;
      }
      visible := false;
      if elements.searchInput {
        inputValue := "";
        searchTerm := "";
      }
    }

    /** `togglePicker`: flips the picker's visibility. */
    method TogglePicker()
      modifies this
      ensures elements.picker ==> visible == !old(visible)
      ensures !elements.picker ==> visible == old(visible)
      ensures old(visible) && elements.picker && elements.searchInput ==> searchTerm == "" && inputValue == ""
      ensures !(old(visible) && elements.picker && elements.searchInput) ==>
                searchTerm == old(searchTerm) && inputValue == old(inputValue)
      ensures elements == old(elements) && boot == old(boot) && emotes == old(emotes) && grid == old(grid)
      ensures currentTab == old(currentTab)
    {
      if !elements.picker {
        return;
      }
      if visible {
        HidePicker();
      } else {
        ShowPicker();
      }
    }

    /** `selectEmote`: with a picker, the emote's name is copied and the picker is hidden,
        whether or not the copy succeeds. */
    method SelectEmote(e: Emote) returns (copied: Option<string>)
      modifies this
      ensures elements.picker ==> copied == Some(e.name) && !visible
      ensures !elements.picker ==> copied == None && visible == old(visible)
      ensures elements == old(elements) && boot == old(boot) && emotes == old(emotes) && grid == old(grid)
      ensures currentTab == old(currentTab)
    {
      if !elements.picker {
        return None;
      }
      copied := Some(e.name);
      HidePicker();
    }
  }
}
