/** The `{ global, streamer }` emote-list object that the suggestion panel and the overlay
    controls expect from the emote store. The store never supplies one: it has no `getLists`,
    and its update listeners receive the flat list array instead. */
module CatalogLists {
  import opened Wrappers

  /** An element of `lists.global` / `lists.streamer`; absent or falsy string fields are "". */
  datatype RawEntry = NotAnObject | RawEntry(token: string, name: string, url: string, kind: string, byUser: string)

  /** `global` and `streamer` are each an array, or something else (`undefined`). */
  datatype Lists = Lists(global: Option<seq<RawEntry>>, streamer: Option<seq<RawEntry>>)

  /** What an update listener receives as `lists`: the store passes its list ARRAY, whose
      `global` and `streamer` properties are undefined. `getLists?.() || {}` gives the same. */
  const StoreListArgument: Lists := Lists(None, None)

  /** The items of both lists, global first (`[...globalList, ...streamerList]`). */
  function Combined(lists: Lists): seq<RawEntry> {
    lists.global.GetOr([]) + lists.streamer.GetOr([])
  }
}
