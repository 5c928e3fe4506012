/** The emote-suggestion panel of the YouTube watch page (emote-suggestions.js): the word being
    typed in the chat input is looked up in a catalogue of emotes, up to eight matches are listed,
    the arrow keys move a highlight through them and Enter or Tab writes the highlighted token
    into the input. A bootstrap state machine with a bounded retry counter and a health check
    attaches the panel to the chat frame.

    The page (the chat frame, its input element, timers, the store object on `window`) is not
    modelled as objects: what the code learns from it arrives as method parameters. */
module Suggestions {
  import opened Wrappers
  import opened Text
  import EmoteMap
  import opened CatalogLists
  import opened Seqs

  // ---------------------------------------------------------------------------------------------
  // Constants of the constructor
  // ---------------------------------------------------------------------------------------------

  const MaxResults: nat := 8
  const MaxBootstrapAttempts: nat := 20
  const HealthCheckMissThreshold: nat := 3
  const NoActive: int := -1

  // ---------------------------------------------------------------------------------------------
  // The word at the end of the input
  // ---------------------------------------------------------------------------------------------

  /** `[\w:\[\]\-]`: the characters the current word is made of. */
  predicate IsQueryChar(c: char) {
    IsWordChar(c) || c == ':' || c == '[' || c == ']' || c == '-'
  }

  /** `text.replace(/\u00A0/g, " ")`. */
  function ReplaceNbsp(text: string): (r: string)
    ensures |r| == |text|
    ensures forall i :: 0 <= i < |text| ==> r[i] == (if text[i] == '\U{A0}' then ' ' else text[i])
  {
    seq(|text|, i requires 0 <= i < |text| => if text[i] == '\U{A0}' then ' ' else text[i])
  }

  /** The longest run of query characters at the end of `s` (`/([\w:\[\]\-]+)$/`; "" when the
      pattern does not match). */
  function QuerySuffix(s: string): (r: string)
    ensures |r| <= |s|
  {
    if s == [] || !IsQueryChar(s[|s| - 1]) then [] else QuerySuffix(s[..|s| - 1]) + [s[|s| - 1]]
  }

  lemma {:induction false} QuerySuffixIsLongest(s: string)
    ensures |QuerySuffix(s)| <= |s|
    ensures s[|s| - |QuerySuffix(s)|..] == QuerySuffix(s)
    ensures forall i :: 0 <= i < |QuerySuffix(s)| ==> IsQueryChar(QuerySuffix(s)[i])
    ensures |QuerySuffix(s)| < |s| ==> !IsQueryChar(s[|s| - |QuerySuffix(s)| - 1])
  {
    if s != [] && IsQueryChar(s[|s| - 1]) {
      var init := s[..|s| - 1];
      QuerySuffixIsLongest(init);
      assert s == init + [s[|s| - 1]];
    }
  }

  /** `extractCurrentWord`: the word being typed, "" for empty input. */
  function ExtractCurrentWord(text: string): (r: string)
    ensures |r| <= |text|
  {
    if text == [] then [] else QuerySuffix(ReplaceNbsp(text))
  }

  /** The current word is a suffix of the input itself, made only of query characters, and it
      cannot be extended to the left: the character before it (if any) is not a query character.
      A no-break space acts as a separator. */
  lemma CurrentWordIsLongestSuffix(text: string)
    ensures |ExtractCurrentWord(text)| <= |text|
    ensures text[|text| - |ExtractCurrentWord(text)|..] == ExtractCurrentWord(text)
    ensures forall i :: 0 <= i < |ExtractCurrentWord(text)| ==> IsQueryChar(ExtractCurrentWord(text)[i])
    ensures |ExtractCurrentWord(text)| < |text| ==> !IsQueryChar(text[|text| - |ExtractCurrentWord(text)| - 1])
  {
    if text != [] {
      var spaced := ReplaceNbsp(text);
      var w := QuerySuffix(spaced);
      QuerySuffixIsLongest(spaced);
      assert ExtractCurrentWord(text) == w;
      var start := |text| - |w|;
      assert spaced[start..] == w;
      forall i | start <= i < |text|
        ensures text[i] == spaced[i]
      {
        assert spaced[i] == w[i - start];
        assert IsQueryChar(spaced[i]);
      }
      assert text[start..] == spaced[start..];
      if start > 0 {
        assert !IsQueryChar(spaced[start - 1]);
        assert text[start - 1] == '\U{A0}' || text[start - 1] == spaced[start - 1];
      }
    }
  }

  /** A text ending in a space has no current word, so it never opens the panel. */
  lemma NoWordAfterSpace(text: string)
    requires text != [] && text[|text| - 1] == ' '
    ensures ExtractCurrentWord(text) == []
  {
    assert ReplaceNbsp(text)[|text| - 1] == ' ';
  }

  // ---------------------------------------------------------------------------------------------
  // Normalisation and lookup
  // ---------------------------------------------------------------------------------------------

  /** `.replace(/[\u0300-\u036f]/g, "")` */
  function StripMarks(s: string): (r: string)
  {
    if s == [] then [] else (if EmoteMap.IsCombiningMark(s[0]) then [] else [s[0]]) + StripMarks(s[1..])
  }

  /** `.replace(/[^a-z0-9]+/gi, "")` */
  function AsciiAlnums(s: string): (r: string)
    ensures forall i :: 0 <= i < |r| ==> IsAlnum(r[i])
  {
    if s == [] then [] else (if IsAlnum(s[0]) then [s[0]] else []) + AsciiAlnums(s[1..])
  }

  /** `normalizeForMatch`: marks stripped, everything but ASCII letters and digits removed,
      lower-cased. The `catch` branch is unreachable (`normalize("NFD")` does not throw). */
  function NormalizeForMatch(value: string): (r: string)
    ensures forall i :: 0 <= i < |r| ==> IsLowerAlnum(r[i])
  {
    if value == [] then [] else Lower(AsciiAlnums(StripMarks(value)))
  }

  lemma {:induction false} LowerAppend(a: string, b: string)
    ensures Lower(a + b) == Lower(a) + Lower(b)
  {
  }

  lemma {:induction false} NormalizeStep(s: string)
    ensures Lower(AsciiAlnums(StripMarks(s))) == EmoteMap.Alnums(EmoteMap.Fold(s))
  {
    if s != [] {
      NormalizeStep(s[1..]);
      var head := if EmoteMap.IsCombiningMark(s[0]) then [] else [s[0]];
      assert StripMarks(s) == head + StripMarks(s[1..]);
      AsciiAlnumsAppend(head, StripMarks(s[1..]));
      LowerAppend(AsciiAlnums(head), AsciiAlnums(StripMarks(s[1..])));
      EmoteMap.AlnumsAppend(if EmoteMap.IsCombiningMark(s[0]) then [] else [LowerChar(s[0])], EmoteMap.Fold(s[1..]));
    }
  }

  lemma {:induction false} AsciiAlnumsAppend(a: string, b: string)
    ensures AsciiAlnums(a + b) == AsciiAlnums(a) + AsciiAlnums(b)
  {
    if a == [] {
      assert a + b == b;
    } else {
      assert (a + b)[1..] == a[1..] + b;
      AsciiAlnumsAppend(a[1..], b);
    }
  }

  /** The suggestion matcher folds names exactly as the emote map's slugs do: its normal form is
      the `[a-z0-9]` characters of the slug folding. */
  lemma NormalizeAgreesWithSlugFold(value: string)
    ensures NormalizeForMatch(value) == EmoteMap.Alnums(EmoteMap.Fold(value))
  {
    NormalizeStep(value);
  }

  lemma {:induction false} FoldOfLowerAlnums(s: string)
    requires forall i :: 0 <= i < |s| ==> IsLowerAlnum(s[i])
    ensures EmoteMap.Alnums(EmoteMap.Fold(s)) == s
  {
    if s != [] {
      FoldOfLowerAlnums(s[1..]);
      assert !EmoteMap.IsCombiningMark(s[0]);
      EmoteMap.AlnumsAppend([LowerChar(s[0])], EmoteMap.Fold(s[1..]));
    }
  }

  /** Normalising twice is normalising once. */
  lemma NormalizeIdempotent(value: string)
    ensures NormalizeForMatch(NormalizeForMatch(value)) == NormalizeForMatch(value)
  {
    var n := NormalizeForMatch(value);
    NormalizeAgreesWithSlugFold(n);
    FoldOfLowerAlnums(n);
  }

  /** One catalogue entry, as `updateCatalogueFromLists` builds it. */
  datatype Entry = Entry(token: string, labelText: string, url: string, scope: string, byUser: string)

  /** The filter predicate of `lookupSuggestions`: the lower-cased token or label starts with the
      lower-cased query, or, when the query has a non-empty normal form, the normal form of the
      token or of the label starts with it. */
  predicate Matches(e: Entry, lowered: string, normalizedQuery: string) {
    var tokenLower := Lower(e.token);
    var labelLower := Lower(e.labelText);
    StartsWith(tokenLower, lowered) || StartsWith(labelLower, lowered)
    || (normalizedQuery != []
        && ((NormalizeForMatch(tokenLower) != [] && StartsWith(NormalizeForMatch(tokenLower), normalizedQuery))
            || (NormalizeForMatch(labelLower) != [] && StartsWith(NormalizeForMatch(labelLower), normalizedQuery))))
  }

  /** `currentEmotes.filter(...)`. */
  function Filter(entries: seq<Entry>, lowered: string, normalizedQuery: string): (r: seq<Entry>)
  {
    if entries == [] then []
    else
      var head := if Matches(entries[0], lowered, normalizedQuery) then [entries[0]] else [];
      head + Filter(entries[1..], lowered, normalizedQuery)
  }

  /** `lookupSuggestions`: the first `MaxResults` matching entries. */
  function Lookup(entries: seq<Entry>, partial: string): (r: seq<Entry>)
    ensures |r| <= MaxResults
  {
    var lowered := Lower(partial);
    var matches := Filter(entries, lowered, NormalizeForMatch(lowered));
    if |matches| <= MaxResults then matches else matches[..MaxResults]
  }

  /** The filter keeps exactly the matching entries. */
  lemma {:induction false} FilterExact(entries: seq<Entry>, lowered: string, nq: string, e: Entry)
    ensures e in Filter(entries, lowered, nq) <==> e in entries && Matches(e, lowered, nq)
  {
    if entries != [] {
      FilterExact(entries[1..], lowered, nq, e);
      assert e in entries <==> e == entries[0] || e in entries[1..];
    }
  }

  /** The filtered list lists catalogue entries in catalogue order. */
  lemma {:induction false} FilterOrdered(entries: seq<Entry>, lowered: string, nq: string)
    ensures Subsequence(Filter(entries, lowered, nq), entries)
  {
    if entries != [] {
      var rest := Filter(entries[1..], lowered, nq);
      FilterOrdered(entries[1..], lowered, nq);
      if Matches(entries[0], lowered, nq) {
        assert Filter(entries, lowered, nq) == [entries[0]] + rest;
        SubsequenceKeep(entries[0], rest, entries[1..]);
      } else {
        assert Filter(entries, lowered, nq) == rest;
        SubsequenceSkip(entries[0], rest, entries[1..]);
      }
      assert [entries[0]] + entries[1..] == entries;
    }
  }

  /** Every prefix of the filtered list lists catalogue entries in catalogue order. */
  lemma FilterPrefixOrdered(entries: seq<Entry>, lowered: string, nq: string, k: nat)
    requires k <= |Filter(entries, lowered, nq)|
    ensures Subsequence(Filter(entries, lowered, nq)[..k], entries)
  {
    FilterOrdered(entries, lowered, nq);
    SubsequencePrefix(Filter(entries, lowered, nq), entries, k);
  }

  /** The suggestions are catalogue entries, in catalogue order, each matching the query; when
      fewer than `MaxResults` entries match, every match is suggested. */
  lemma LookupSpec(entries: seq<Entry>, partial: string, e: Entry)
    ensures Subsequence(Lookup(entries, partial), entries)
    ensures e in Lookup(entries, partial) ==> e in entries && Matches(e, Lower(partial), NormalizeForMatch(Lower(partial)))
    ensures |Filter(entries, Lower(partial), NormalizeForMatch(Lower(partial)))| <= MaxResults ==>
              (e in Lookup(entries, partial) <==> e in entries && Matches(e, Lower(partial), NormalizeForMatch(Lower(partial))))
  {
    var lowered := Lower(partial);
    var nq := NormalizeForMatch(lowered);
    var f := Filter(entries, lowered, nq);
    var k := if |f| <= MaxResults then |f| else MaxResults;
    assert Lookup(entries, partial) == f[..k];
    FilterPrefixOrdered(entries, lowered, nq, k);
    FilterExact(entries, lowered, nq, e);
    if e in f[..k] {
      assert e in f;
    }
  }

  // ---------------------------------------------------------------------------------------------
  // Catalogue
  // ---------------------------------------------------------------------------------------------

  function Or(a: string, b: string): string { if a != [] then a else b }

  function EntryOf(item: RawEntry): (e: Entry)
  {
    match item
    case NotAnObject => Entry("", "", "", "global", "")
    case RawEntry(token, name, url, kind, byUser) =>
      Entry(Or(token, name), Or(name, token), url, Or(kind, "global"), byUser)
  }

  function EntriesOf(items: seq<RawEntry>): (r: seq<Entry>)
  {
    if items == [] then []
    else
      var head := if EntryOf(items[0]).token != [] then [EntryOf(items[0])] else [];
      head + EntriesOf(items[1..])
  }

  /** `updateCatalogueFromLists`: global entries, then streamer entries, without tokenless ones. */
  function Catalogue(lists: Lists): (r: seq<Entry>)
  {
    EntriesOf(lists.global.GetOr([])) + EntriesOf(lists.streamer.GetOr([]))
  }

  lemma {:induction false} EntriesOfSpec(items: seq<RawEntry>, e: Entry)
    ensures e in EntriesOf(items) <==> e.token != [] && exists item :: item in items && EntryOf(item) == e
  {
    if items != [] {
      EntriesOfSpec(items[1..], e);
      if e.token != [] && EntryOf(items[0]) != e && (exists item :: item in items && EntryOf(item) == e) {
        var item :| item in items && EntryOf(item) == e;
        assert item in items[1..];
      }
    }
  }

  /** A catalogue entry has a non-empty token, and it comes from an item of one of the two lists
      whose token (or, lacking one, name) is that token; its label is the item's name, or the
      token when the item has none. */
  lemma CatalogueEntries(lists: Lists, e: Entry)
    ensures e in Catalogue(lists) <==>
              e.token != [] && exists item :: (item in lists.global.GetOr([]) || item in lists.streamer.GetOr([]))
                                               && EntryOf(item) == e
    ensures e in Catalogue(lists) ==> e.labelText != []
  {
    EntriesOfSpec(lists.global.GetOr([]), e);
    EntriesOfSpec(lists.streamer.GetOr([]), e);
  }

  /** Every item's entry, tokenless ones included, in list order. */
  function AllEntriesOf(items: seq<RawEntry>): (r: seq<Entry>)
    ensures |r| == |items| && forall i :: 0 <= i < |items| ==> r[i] == EntryOf(items[i])
  {
    seq(|items|, i requires 0 <= i < |items| => EntryOf(items[i]))
  }

  /** The kept entries keep the order of their items. */
  lemma {:induction false} EntriesOfOrdered(items: seq<RawEntry>)
    ensures Subsequence(EntriesOf(items), AllEntriesOf(items))
  {
    if items != [] {
      var rest := items[1..];
      EntriesOfOrdered(rest);
      var all := AllEntriesOf(items);
      assert all == [EntryOf(items[0])] + AllEntriesOf(rest);
      if EntryOf(items[0]).token != [] {
        assert EntriesOf(items) == [EntryOf(items[0])] + EntriesOf(rest);
        SubsequenceKeep(EntryOf(items[0]), EntriesOf(rest), AllEntriesOf(rest));
      } else {
        assert EntriesOf(items) == EntriesOf(rest);
        SubsequenceSkip(EntryOf(items[0]), EntriesOf(rest), AllEntriesOf(rest));
      }
    }
  }

  /** The catalogue lists the global entries first and the streamer entries after them, each
      part in the order of its list. */
  lemma CatalogueOrder(lists: Lists)
    ensures var g := EntriesOf(lists.global.GetOr([]));
            Catalogue(lists)[..|g|] == g
            && Catalogue(lists)[|g|..] == EntriesOf(lists.streamer.GetOr([]))
    ensures Subsequence(EntriesOf(lists.global.GetOr([])), AllEntriesOf(lists.global.GetOr([])))
    ensures Subsequence(EntriesOf(lists.streamer.GetOr([])), AllEntriesOf(lists.streamer.GetOr([])))
  {
    EntriesOfOrdered(lists.global.GetOr([]));
    EntriesOfOrdered(lists.streamer.GetOr([]));
  }

  /** With what the store actually hands over, the catalogue is empty. */
  lemma StoreUpdatesEmptyTheCatalogue()
    ensures Catalogue(StoreListArgument) == []
  {
  }

  // ---------------------------------------------------------------------------------------------
  // Highlight movement and suggestion text
  // ---------------------------------------------------------------------------------------------

  /** JavaScript's `%` (the sign follows the dividend). */
  function JsRem(a: int, n: int): int
    requires n > 0
  {
    if a >= 0 then a % n else -((-a) % n)
  }

  /** One arrow-key step over `n` rows wraps around both ends and stays on a row. */
  lemma CycleStaysOnARow(active: int, delta: int, n: int)
    requires n > 0 && -1 <= active < n && (delta == 1 || delta == -1)
    ensures 0 <= JsRem(active + delta + n, n) < n
    ensures JsRem(active + delta + n, n) == (active + delta + n) % n
    ensures active == n - 1 && delta == 1 ==> JsRem(active + delta + n, n) == 0
    ensures active == 0 && delta == -1 ==> JsRem(active + delta + n, n) == n - 1
  {
  }

  /** The input text with the current word replaced by `token` and a space. */
  function Completed(raw: string, token: string): (r: string)
  {
    var word := ExtractCurrentWord(raw);
    var base := if word != [] then raw[..|raw| - |word|] else raw;
    base + token + " "
  }

  /** Completion keeps everything before the current word, ends with the token and a space, and
      leaves no current word behind. */
  lemma CompletedSpec(raw: string, token: string)
    ensures var word := ExtractCurrentWord(raw);
            var r := Completed(raw, token);
            raw[..|raw| - |word|] + word == raw
            && r == raw[..|raw| - |word|] + token + " "
    ensures ExtractCurrentWord(Completed(raw, token)) == []
  {
    CurrentWordIsLongestSuffix(raw);
    NoWordAfterSpace(Completed(raw, token));
  }
  // ---------------------------------------------------------------------------------------------
  // The manager
  // ---------------------------------------------------------------------------------------------

  /** What one bootstrap attempt learns from the page. */
  datatype BootEnv = BootEnv(
    storeHasInit: bool,      // `window.BeeHappyEmotes.init` is a function
    storeHasOnUpdate: bool,  // `window.BeeHappyEmotes.onUpdate` exists
    initAnswer: Option<bool>, // what `init()` resolves to; `None` is `undefined`
    lists: Lists,            // `getLists?.() || {}`
    chatDocFound: bool,      // `getChatDoc()` found a loaded chat frame document
    chatInputFound: bool)    // `findChatInput` found the input
  {
    /** The `if (!emotesReady)` test passes: `init()` resolved to a truthy value. */
    predicate InitOk() {
      initAnswer == Some(true)
    }
  }

  datatype Key = ArrowDown | ArrowUp | Enter | Tab | Escape | OtherKey

  /** The panel fields: `container` is set, `visible`, the rendered rows, `activeIndex` and
      `lastQuery`. */
  datatype Panel = Panel(hasContainer: bool, visible: bool, rows: seq<Entry>, activeIndex: int, lastQuery: string)
  {
    /** The panel after `hideSuggestions`, which only acts on a visible panel with a container. */
    function Hidden(): (p: Panel)
      ensures !p.visible || !hasContainer
      ensures p.hasContainer == hasContainer
      ensures !(hasContainer && visible) ==> p == this
      ensures hasContainer && visible ==> !p.visible && p.rows == [] && p.activeIndex == NoActive && p.lastQuery == []
    {
      if hasContainer && visible then this.(rows := [], visible := false, activeIndex := NoActive, lastQuery := [])
      else this
    }

    /** The panel after `renderSuggestions(items)`: shown with the first row highlighted, or
        with no row highlighted when there are no items; nothing happens without a container. */
    function Rendered(items: seq<Entry>): (p: Panel)
      ensures hasContainer ==> p.visible && p.rows == items
      ensures hasContainer && items != [] ==> p.activeIndex == 0
      ensures hasContainer && items == [] ==> p.activeIndex == NoActive
      ensures !hasContainer ==> p == this
      ensures p.lastQuery == lastQuery && p.hasContainer == hasContainer
    {
      if hasContainer then this.(rows := items, visible := true, activeIndex := if |items| > 0 then 0 else NoActive)
      else this
    }
  }

  const InitialPanel := Panel(false, false, [], NoActive, [])

  /** The attachment and bootstrap fields: `chatDoc` and `chatInput` are set, `isReady`,
      `pendingInit`, `bootstrapAttempts`, and whether the retry timeout is armed. */
  datatype Boot = Boot(hasChatDoc: bool, hasChatInput: bool, isReady: bool, pendingInit: bool,
                       attempts: nat, retryPending: bool)

  const InitialBoot := Boot(false, false, false, false, 0, false)

  /** The health-check fields: whether the interval runs, and the miss counter. */
  datatype Health = Health(running: bool, missCount: nat)

  /** Hiding twice is hiding once. */
  lemma HiddenSpec(p: Panel)
    ensures p.Hidden().Hidden() == p.Hidden()
  {
  }

  /** `BeeHappyEmoteSuggestions`, its fields grouped by concern; `inputText` is the chat input's
      text. */
  class Manager {
    var panel: Panel
    var boot: Boot
    var health: Health
    var currentEmotes: seq<Entry>
    var hasRegisteredUpdateListener: bool
    var inputText: string

    /** Between events: the attempt counter is bounded, the miss counter is below its threshold,
        the highlight is on a row or on none, a visible panel has a container, rows live only in
        a container, a ready manager has its input, document and container, and no bootstrap is
        half-way (the awaits inside one are not interleaved with other events in this model). */
    ghost predicate Valid()
      reads this
    {
      boot.attempts <= MaxBootstrapAttempts
      && health.missCount < HealthCheckMissThreshold
      && NoActive <= panel.activeIndex < |panel.rows|
      && (panel.visible ==> panel.hasContainer)
      && (!panel.hasContainer ==> panel.rows == [])
      && (boot.isReady ==> boot.hasChatDoc && boot.hasChatInput && panel.hasContainer)
      && !boot.pendingInit
    }

    /** The constructor's field values, then `setupListeners`, whose `registerUpdateListener`
        registers with the store when the store already offers `onUpdate`; the bootstrap it
        starts next is `BootstrapIfReady`. */
    constructor (storeHasOnUpdate: bool)
      ensures Valid()
      ensures panel == InitialPanel && boot == InitialBoot && health == Health(false, 0)
      ensures currentEmotes == [] && inputText == []
      ensures hasRegisteredUpdateListener == storeHasOnUpdate
    {
      panel := InitialPanel;
      boot := InitialBoot;
      health := Health(false, 0);
      currentEmotes := [];
      hasRegisteredUpdateListener := storeHasOnUpdate;
      inputText := [];
    }

    /** `hideSuggestions`. */
    method Hide()
      requires Valid()
      modifies this
      ensures Valid() && !panel.visible
      ensures panel == old(panel).Hidden()
      ensures boot == old(boot) && health == old(health) && currentEmotes == old(currentEmotes)
      ensures hasRegisteredUpdateListener == old(hasRegisteredUpdateListener) && inputText == old(inputText)
    {
      if !panel.hasContainer || !panel.visible {
        return;
      }
      panel := panel.(rows := [], visible := false, activeIndex := NoActive, lastQuery := []);
    }

    /** `renderSuggestions`: one row per item. */
    method Render(items: seq<Entry>)
      requires Valid()
      modifies this
      ensures Valid()
      ensures panel == old(panel).Rendered(items)
      ensures boot == old(boot) && health == old(health) && currentEmotes == old(currentEmotes)
      ensures hasRegisteredUpdateListener == old(hasRegisteredUpdateListener) && inputText == old(inputText)
    {
      if !panel.hasContainer {
        return;
      }
      panel := panel.(rows := items, visible := true, activeIndex := if |items| > 0 then 0 else NoActive);
    }

    /** `handleInputEvent`: a current word of at least two characters that differs from the last
        query becomes the last query and is looked up; its matches are rendered, and no match or
        a shorter word hides the panel. */
    method HandleInput()
      requires Valid()
      modifies this
      ensures Valid()
      ensures var word := ExtractCurrentWord(old(inputText));
              var found := Lookup(old(currentEmotes), word);
              panel == if !old(boot.hasChatInput) then old(panel)
                       else if |word| < 2 then old(panel).Hidden()
                       else if word == old(panel.lastQuery) then old(panel)
                       else if found == [] then old(panel).(lastQuery := word).Hidden()
                       else old(panel).(lastQuery := word).Rendered(found)
      ensures boot == old(boot) && health == old(health) && currentEmotes == old(currentEmotes)
      ensures hasRegisteredUpdateListener == old(hasRegisteredUpdateListener) && inputText == old(inputText)
    {
      if !boot.hasChatInput {
        return;
      }
      var word := ExtractCurrentWord(inputText);
      if word == [] || |word| < 2 {
        Hide();
        return;
      }
      if word == panel.lastQuery {
        return;
      }
      panel := panel.(lastQuery := word);
      var found := Lookup(currentEmotes, word);
      if |found| == 0 {
        Hide();
        return;
      }
      Render(found);
    }

    /** `moveActive` for the arrow keys: the highlight steps by `delta` rows and wraps. */
    method MoveActive(delta: int)
      requires Valid() && (delta == 1 || delta == -1)
      modifies this
      ensures Valid()
      ensures old(panel.hasContainer) && old(panel.rows) != [] ==>
                panel == old(panel).(activeIndex := (old(panel.activeIndex) + delta + |old(panel.rows)|) % |old(panel.rows)|)
      ensures !old(panel.hasContainer) || old(panel.rows) == [] ==> panel == old(panel)
      ensures boot == old(boot) && health == old(health) && currentEmotes == old(currentEmotes)
      ensures hasRegisteredUpdateListener == old(hasRegisteredUpdateListener) && inputText == old(inputText)
    {
      if !panel.hasContainer {
        return;
      }
      var n := |panel.rows|;
      if n == 0 {
        return;
      }
      CycleStaysOnARow(panel.activeIndex, delta, n);
      panel := panel.(activeIndex := JsRem(panel.activeIndex + delta + n, n));
    }

    /** `setActiveIndex` (pointer over row `index`). */
    method SetActive(index: nat)
      requires Valid() && index < |panel.rows|
      modifies this
      ensures Valid() && panel == old(panel).(activeIndex := index)
      ensures boot == old(boot) && health == old(health) && currentEmotes == old(currentEmotes)
      ensures hasRegisteredUpdateListener == old(hasRegisteredUpdateListener) && inputText == old(inputText)
    {
      panel := panel.(activeIndex := index);
    }

    /** `clearActiveIndex` (pointer leaves the rows). */
    method ClearActive()
      requires Valid()
      modifies this
      ensures Valid() && panel == old(panel).(activeIndex := NoActive)
      ensures boot == old(boot) && health == old(health) && currentEmotes == old(currentEmotes)
      ensures hasRegisteredUpdateListener == old(hasRegisteredUpdateListener) && inputText == old(inputText)
    {
      panel := panel.(activeIndex := NoActive);
    }

    /** `applySuggestion`: the current word is replaced by the token and a space. The `input`
        event it dispatches runs `HandleInput`, which finds no current word after the space, and
        the panel ends up hidden. */
    method ApplySuggestion(emote: Entry)
      requires Valid()
      modifies this
      ensures Valid()
      ensures old(boot.hasChatInput) ==> inputText == Completed(old(inputText), emote.token) && panel == old(panel).Hidden()
      ensures !old(boot.hasChatInput) ==> inputText == old(inputText) && panel == old(panel)
      ensures boot == old(boot) && health == old(health) && currentEmotes == old(currentEmotes)
      ensures hasRegisteredUpdateListener == old(hasRegisteredUpdateListener)
    {
      if !boot.hasChatInput {
        return;
      }
      var raw := inputText;
      var word := ExtractCurrentWord(raw);
      var base := if word != [] then raw[..|raw| - |word|] else raw;
      inputText := base + emote.token + " ";
      CompletedSpec(raw, emote.token);
      HandleInput();
      Hide();
    }

    /** Enter or Tab on a visible panel: the highlighted row, if any, is clicked, and its click
        handler applies it. */
    method ClickActive()
      requires Valid() && panel.visible
      modifies this
      ensures Valid()
      ensures 0 <= old(panel.activeIndex) && old(boot.hasChatInput) ==>
                inputText == Completed(old(inputText), old(panel.rows)[old(panel.activeIndex)].token)
                && panel == old(panel).Hidden()
      ensures old(panel.activeIndex) < 0 || !old(boot.hasChatInput) ==> panel == old(panel) && inputText == old(inputText)
      ensures boot == old(boot) && health == old(health) && currentEmotes == old(currentEmotes)
      ensures hasRegisteredUpdateListener == old(hasRegisteredUpdateListener)
    {
      if panel.activeIndex >= 0 {
        ApplySuggestion(panel.rows[panel.activeIndex]);
      }
    }

    /** `handleKeydown`: only while the panel is visible. */
    method HandleKeydown(key: Key)
      requires Valid()
      modifies this
      ensures Valid()
      ensures !old(panel.visible) ==> panel == old(panel) && inputText == old(inputText)
      ensures old(panel.visible) && key == Escape ==> panel == old(panel).Hidden() && !panel.visible && inputText == old(inputText)
      ensures old(panel.visible) && (key == Enter || key == Tab) && 0 <= old(panel.activeIndex) && old(boot.hasChatInput) ==>
                inputText == Completed(old(inputText), old(panel.rows)[old(panel.activeIndex)].token)
                && panel == old(panel).Hidden() && !panel.visible
      ensures old(panel.visible) && (key == Enter || key == Tab) && (old(panel.activeIndex) < 0 || !old(boot.hasChatInput)) ==>
                panel == old(panel) && inputText == old(inputText)
      ensures old(panel.visible) && (key == ArrowDown || key == ArrowUp) && old(panel.rows) != [] ==>
                panel == old(panel).(activeIndex :=
                  (old(panel.activeIndex) + (if key == ArrowDown then 1 else -1) + |old(panel.rows)|) % |old(panel.rows)|)
                && inputText == old(inputText)
      ensures old(panel.visible) && (key == ArrowDown || key == ArrowUp) && old(panel.rows) == [] ==>
                panel == old(panel) && inputText == old(inputText)
      ensures old(panel.visible) && key == OtherKey ==> panel == old(panel) && inputText == old(inputText)
      ensures boot == old(boot) && health == old(health) && currentEmotes == old(currentEmotes)
      ensures hasRegisteredUpdateListener == old(hasRegisteredUpdateListener)
    {
      if !panel.visible {
        return;
      }
      match key {
        case ArrowDown => MoveActive(1);
        case ArrowUp => MoveActive(-1);
        case Enter => ClickActive();
        case Tab => ClickActive();
        case Escape => Hide();
        case OtherKey =>
      }
    }

    /** `handleBlur`, and a click in the chat document outside the panel and the input. */
    method Dismiss()
      requires Valid()
      modifies this
      ensures Valid() && !panel.visible && panel == old(panel).Hidden()
      ensures boot == old(boot) && health == old(health) && currentEmotes == old(currentEmotes)
      ensures inputText == old(inputText) && hasRegisteredUpdateListener == old(hasRegisteredUpdateListener)
    {
      Hide();
    }

    /** `stopHealthCheck`. */
    method StopHealthCheck()
      requires Valid()
      modifies this
      ensures Valid() && health == Health(false, 0)
      ensures panel == old(panel) && boot == old(boot) && currentEmotes == old(currentEmotes)
      ensures hasRegisteredUpdateListener == old(hasRegisteredUpdateListener) && inputText == old(inputText)
    {
      health := Health(false, 0);
    }

    /** `startHealthCheck`: a fresh interval with the miss counter at zero. */
    method StartHealthCheck()
      requires Valid()
      modifies this
      ensures Valid() && health == Health(true, 0)
      ensures panel == old(panel) && boot == old(boot) && currentEmotes == old(currentEmotes)
      ensures hasRegisteredUpdateListener == old(hasRegisteredUpdateListener) && inputText == old(inputText)
    {
      StopHealthCheck();
      health := Health(true, 0);
    }

    /** `resetState`: listeners detached, panel hidden and dropped, the attachment and bootstrap
        fields back to their initial values; the catalogue and the update-listener flag stay. */
    method ResetState()
      requires Valid()
      modifies this
      ensures Valid()
      ensures panel == InitialPanel && boot == InitialBoot && health == Health(false, 0)
      ensures currentEmotes == old(currentEmotes) && inputText == old(inputText)
      ensures hasRegisteredUpdateListener == old(hasRegisteredUpdateListener)
    {
      StopHealthCheck();
      Hide();
      panel := InitialPanel;
      boot := InitialBoot;
    }

    /** `scheduleBootstrapRetry` (after `rescheduleBootstrap` cleared `pendingInit`): a retry is
        armed only while attempts remain; at the limit an already armed one is left alone. */
    method ScheduleRetry()
      requires Valid()
      modifies this
      ensures Valid()
      ensures boot == old(boot).(retryPending := old(boot.attempts) < MaxBootstrapAttempts || old(boot.retryPending))
      ensures panel == old(panel) && health == old(health) && currentEmotes == old(currentEmotes)
      ensures hasRegisteredUpdateListener == old(hasRegisteredUpdateListener) && inputText == old(inputText)
    {
      if boot.attempts >= MaxBootstrapAttempts {
        boot := boot.(pendingInit := false);
        return;
      }
      boot := boot.(retryPending := true);
    }

    /** `registerUpdateListener`: registers once, and only when the store offers `onUpdate`. */
    method RegisterUpdateListener(storeHasOnUpdate: bool)
      requires Valid()
      modifies this
      ensures Valid()
      ensures hasRegisteredUpdateListener == (old(hasRegisteredUpdateListener) || storeHasOnUpdate)
      ensures panel == old(panel) && boot == old(boot) && health == old(health)
      ensures currentEmotes == old(currentEmotes) && inputText == old(inputText)
    {
      if hasRegisteredUpdateListener {
        return;
      }
      if storeHasOnUpdate {
        hasRegisteredUpdateListener := true;
      }
    }

    /** `bootstrapIfReady`, with its awaits run to completion. Skipped when ready, while an
        attempt is pending, or once the attempts are used up; otherwise it counts an attempt and
        either attaches to the chat (attempts back to 0, retry disarmed, health check started) or
        arms a retry while attempts remain. */
    method BootstrapIfReady(env: BootEnv)
      requires Valid()
      modifies this
      ensures Valid()
      ensures old(boot.isReady) || old(boot.attempts) >= MaxBootstrapAttempts ==>
                boot == old(boot) && panel == old(panel) && health == old(health) && currentEmotes == old(currentEmotes)
      ensures !old(boot.isReady) && old(boot.attempts) < MaxBootstrapAttempts ==>
                (boot.isReady <==> env.storeHasInit && env.InitOk() && env.chatDocFound && env.chatInputFound)
      ensures !old(boot.isReady) && old(boot.attempts) < MaxBootstrapAttempts && !boot.isReady ==>
                boot == old(boot).(attempts := old(boot.attempts) + 1,
                                   retryPending := old(boot.attempts) + 1 < MaxBootstrapAttempts || old(boot.retryPending))
                && panel == old(panel) && health == old(health)
      ensures !old(boot.isReady) && boot.isReady ==>
                boot == Boot(true, true, true, false, 0, false) && panel == old(panel).(hasContainer := true)
                && health == Health(true, 0)
                && hasRegisteredUpdateListener == (old(hasRegisteredUpdateListener) || env.storeHasOnUpdate)
      ensures !old(boot.isReady) && old(boot.attempts) < MaxBootstrapAttempts && env.storeHasInit && env.InitOk() ==>
                currentEmotes == Catalogue(env.lists)
      ensures !(!old(boot.isReady) && old(boot.attempts) < MaxBootstrapAttempts && env.storeHasInit && env.InitOk()) ==>
                currentEmotes == old(currentEmotes)
      ensures !(!old(boot.isReady) && boot.isReady) ==> hasRegisteredUpdateListener == old(hasRegisteredUpdateListener)
      ensures inputText == old(inputText)
    {
      if boot.isReady || boot.pendingInit {
        return;
      }
      if boot.attempts >= MaxBootstrapAttempts {
        return;
      }
      boot := boot.(pendingInit := true, attempts := boot.attempts + 1);
      if !env.storeHasInit || !env.InitOk() {
        boot := boot.(pendingInit := false);
        ScheduleRetry();
        return;
      }
      currentEmotes := Catalogue(env.lists);
      if !env.chatDocFound || !env.chatInputFound {
        boot := boot.(pendingInit := false);
        ScheduleRetry();
        return;
      }
      boot := boot.(pendingInit := false);
      Attach(env.storeHasOnUpdate);
    }

    /** The successful end of a bootstrap: chat document and input stored, container ensured,
        update listener registered, ready, health check started, retry timer cleared and the
        attempt counter reset. The caller has already cleared `pendingInit`, which the
        `finally` does in the source; nothing in between reads it. */
    method Attach(storeHasOnUpdate: bool)
      requires Valid() && !boot.isReady
      modifies this
      ensures Valid()
      ensures boot == Boot(true, true, true, false, 0, false) && panel == old(panel).(hasContainer := true)
      ensures health == Health(true, 0)
      ensures hasRegisteredUpdateListener == (old(hasRegisteredUpdateListener) || storeHasOnUpdate)
      ensures currentEmotes == old(currentEmotes) && inputText == old(inputText)
    {
      boot := boot.(hasChatDoc := true, hasChatInput := true);
      panel := panel.(hasContainer := true);
      RegisterUpdateListener(storeHasOnUpdate);
      boot := boot.(isReady := true);
      StartHealthCheck();
      boot := boot.(retryPending := false, attempts := 0);
    }

    /** The retry timeout firing: it clears `pendingInit` and bootstraps. */
    method RetryFires(env: BootEnv)
      requires Valid() && boot.retryPending
      modifies this
      ensures Valid()
      ensures old(boot.isReady) || old(boot.attempts) >= MaxBootstrapAttempts ==>
                boot == old(boot).(retryPending := false) && panel == old(panel) && health == old(health)
                && currentEmotes == old(currentEmotes)
      ensures !old(boot.isReady) && old(boot.attempts) < MaxBootstrapAttempts ==>
                (boot.isReady <==> env.storeHasInit && env.InitOk() && env.chatDocFound && env.chatInputFound)
      ensures !old(boot.isReady) && old(boot.attempts) < MaxBootstrapAttempts && !boot.isReady ==>
                boot == old(boot).(attempts := old(boot.attempts) + 1,
                                   retryPending := old(boot.attempts) + 1 < MaxBootstrapAttempts)
                && panel == old(panel) && health == old(health)
      ensures !old(boot.isReady) && boot.isReady ==>
                boot == Boot(true, true, true, false, 0, false) && panel == old(panel).(hasContainer := true)
                && health == Health(true, 0)
                && hasRegisteredUpdateListener == (old(hasRegisteredUpdateListener) || env.storeHasOnUpdate)
      ensures !old(boot.isReady) && old(boot.attempts) < MaxBootstrapAttempts && env.storeHasInit && env.InitOk() ==>
                currentEmotes == Catalogue(env.lists)
      ensures !(!old(boot.isReady) && old(boot.attempts) < MaxBootstrapAttempts && env.storeHasInit && env.InitOk()) ==>
                currentEmotes == old(currentEmotes)
      ensures !(!old(boot.isReady) && boot.isReady) ==> hasRegisteredUpdateListener == old(hasRegisteredUpdateListener)
      ensures inputText == old(inputText)
    {
      boot := boot.(retryPending := false, pendingInit := false);
      BootstrapIfReady(env);
    }

    /** One tick of the health-check interval. `inputLive` is the DOM check: the input is
        connected, belongs to the chat document, and that document is not loading. A healthy
        tick clears the miss counter; the third miss in a row resets the manager and arms a
        fresh bootstrap. */
    method HealthTick(inputLive: bool)
      requires Valid() && health.running
      modifies this
      ensures Valid()
      ensures old(boot.hasChatInput) && old(boot.hasChatDoc) && inputLive ==>
                health == Health(true, 0) && boot == old(boot) && panel == old(panel)
      ensures !(old(boot.hasChatInput) && old(boot.hasChatDoc) && inputLive) && old(health.missCount) + 1 < HealthCheckMissThreshold ==>
                health == Health(true, old(health.missCount) + 1) && boot == old(boot) && panel == old(panel)
      ensures !(old(boot.hasChatInput) && old(boot.hasChatDoc) && inputLive) && old(health.missCount) + 1 >= HealthCheckMissThreshold ==>
                health == Health(false, 0) && boot == InitialBoot.(retryPending := true) && panel == InitialPanel
      ensures currentEmotes == old(currentEmotes) && inputText == old(inputText)
      ensures hasRegisteredUpdateListener == old(hasRegisteredUpdateListener)
    {
      var misses := health.missCount;
      if !boot.hasChatInput || !boot.hasChatDoc {
        misses := misses + 1;
      } else if !inputLive {
        misses := misses + 1;
      } else {
        misses := 0;
      }
      if misses >= HealthCheckMissThreshold {
        health := health.(missCount := 0);
        ResetState();
        ScheduleRetry();
      } else {
        health := health.(missCount := misses);
      }
    }

    /** The store's update listener: the catalogue is rebuilt from what the store passes, and an
        open panel is refreshed through `HandleInput`, which leaves the panel as it is when the
        current word is still the last query. */
    method OnStoreUpdate(lists: Lists)
      requires Valid()
      modifies this
      ensures Valid()
      ensures currentEmotes == Catalogue(lists)
      ensures var word := ExtractCurrentWord(old(inputText));
              !old(panel.visible) || (|word| >= 2 && word == old(panel.lastQuery)) ==> panel == old(panel)
      ensures var word := ExtractCurrentWord(old(inputText));
              var found := Lookup(Catalogue(lists), word);
              old(panel.visible) && old(boot.hasChatInput) ==>
                panel == if |word| < 2 then old(panel).Hidden()
                         else if word == old(panel.lastQuery) then old(panel)
                         else if found == [] then old(panel).(lastQuery := word).Hidden()
                         else old(panel).(lastQuery := word).Rendered(found)
      ensures !old(boot.hasChatInput) ==> panel == old(panel)
      ensures boot == old(boot) && health == old(health) && inputText == old(inputText)
      ensures hasRegisteredUpdateListener == old(hasRegisteredUpdateListener)
    {
      currentEmotes := Catalogue(lists);
      if panel.visible && boot.hasChatInput {
        HandleInput();
      }
    }

    /** The `url_changed` message, after its delay: reset, then bootstrap from scratch. */
    method OnUrlChanged(env: BootEnv)
      requires Valid()
      modifies this
      ensures Valid()
      ensures boot.isReady <==> env.storeHasInit && env.InitOk() && env.chatDocFound && env.chatInputFound
      ensures boot.isReady ==>
                boot == Boot(true, true, true, false, 0, false) && panel == InitialPanel.(hasContainer := true)
                && health == Health(true, 0)
                && hasRegisteredUpdateListener == (old(hasRegisteredUpdateListener) || env.storeHasOnUpdate)
      ensures !boot.isReady ==>
                boot == InitialBoot.(attempts := 1, retryPending := true) && panel == InitialPanel
                && health == Health(false, 0) && hasRegisteredUpdateListener == old(hasRegisteredUpdateListener)
      ensures env.storeHasInit && env.InitOk() ==> currentEmotes == Catalogue(env.lists)
      ensures !(env.storeHasInit && env.InitOk()) ==> currentEmotes == old(currentEmotes)
      ensures inputText == old(inputText)
    {
      ResetState();
      BootstrapIfReady(env);
    }
  }

  /** The manager's bootstrap against the store as written: `init()` resolves to `undefined`, so
      every attempt, the first and each retry, fails the `emotesReady` test; the manager is never
      ready and stops retrying only when the attempts run out. */
  method BootstrapWithStore(store: EmoteMap.EmoteStore, lists: Lists, docFound: bool, inputFound: bool)
    returns (m: Manager)
    ensures !m.boot.isReady && !m.boot.retryPending
    ensures m.boot.attempts == MaxBootstrapAttempts
    ensures m.panel == InitialPanel && m.currentEmotes == []
  {
    m := new Manager(true);
    var answer := store.Init();
    m.BootstrapIfReady(BootEnv(true, true, answer, lists, docFound, inputFound));
    while m.boot.retryPending
      invariant m.Valid() && !m.boot.isReady
      invariant 1 <= m.boot.attempts <= MaxBootstrapAttempts
      invariant m.boot.retryPending <==> m.boot.attempts < MaxBootstrapAttempts
      invariant m.panel == InitialPanel && m.currentEmotes == []
      decreases MaxBootstrapAttempts - m.boot.attempts
    {
      answer := store.Init();
      m.RetryFires(BootEnv(true, true, answer, lists, docFound, inputFound));
    }
  }

  /** After an SPA navigation the reset manager bootstraps once more against the same store, and
      fails again with a retry armed. */
  method NavigateWithStore(m: Manager, store: EmoteMap.EmoteStore, lists: Lists, docFound: bool, inputFound: bool)
    requires m.Valid()
    modifies m
    ensures m.Valid() && !m.boot.isReady
    ensures m.boot == InitialBoot.(attempts := 1, retryPending := true)
  {
    var answer := store.Init();
    m.OnUrlChanged(BootEnv(true, true, answer, lists, docFound, inputFound));
  }

  /** The bootstrap with `init()` resolving to what `ensureInitialized` reports: the first attempt
      succeeds exactly when the map is loaded and the chat frame and input are there. */
  method BootstrapWithReportingStore(store: EmoteMap.EmoteStore, lists: Lists, docFound: bool, inputFound: bool)
    returns (m: Manager)
    ensures m.Valid()
    ensures m.boot.isReady <==> store.tokenMap.Some? && docFound && inputFound
    ensures store.tokenMap.Some? ==> m.currentEmotes == Catalogue(lists)
    ensures !m.boot.isReady ==> m.boot.attempts == 1 && m.boot.retryPending
  {
    m := new Manager(true);
    var answer := store.InitReporting();
    m.BootstrapIfReady(BootEnv(true, true, answer, lists, docFound, inputFound));
  }
}
