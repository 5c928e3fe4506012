/** The emote catalog (`window.BeeHappyEmotes`): a process-wide store holding the
    token → text map, the combined token regex, the picker list and the update listeners,
    refreshed from the relay's `fetch_emotes` reply. */
module EmoteMap {
  import opened Wrappers
  import opened Text
  import Config

  /** `API_URL`: the store always asks the relay for this URL. */
  const ApiUrl: string := Config.GetApiUrl(Config.EmotesEndpoint)

  // ------------------------------------------------------------------
  // Slugs and tokens
  // ------------------------------------------------------------------

  /** What `slugify` returns when nothing of the name survives. */
  const Placeholder: string := "unsupported emote name"

  /** U+0300 .. U+036F, the combining marks slugify strips after decomposition. */
  predicate IsCombiningMark(c: char) { '\U{300}' <= c <= '\U{36F}' }

  /** The `normalize("NFD")`, mark-stripping and `toLowerCase()` steps of slugify.
      Decomposition itself and non-ASCII case mapping are not modelled: a precomposed
      letter such as 'ộ' stays one non-ASCII character. */
  function Fold(s: string): (r: string)
  {
    if s == [] then []
    else (if IsCombiningMark(s[0]) then [] else [LowerChar(s[0])]) + Fold(s[1..])
  }

  /** The `[a-z0-9]` characters of `s`, in order. */
  function Alnums(s: string): (r: string)
  {
    if s == [] then [] else (if IsLowerAlnum(s[0]) then [s[0]] else []) + Alnums(s[1..])
  }

  lemma {:induction false} AlnumsAppend(a: string, b: string)
    ensures Alnums(a + b) == Alnums(a) + Alnums(b)
  {
    if a == [] {
      assert a + b == b;
    } else {
      var head := if IsLowerAlnum(a[0]) then [a[0]] else [];
      assert (a + b)[0] == a[0] && (a + b)[1..] == a[1..] + b;
      assert Alnums(a + b) == head + Alnums(a[1..] + b);
      AlnumsAppend(a[1..], b);
      assert Alnums(a) == head + Alnums(a[1..]);
    }
  }

  /** A character slugify can leave: `[a-z0-9_]`. */
  predicate IsSlugChar(c: char) { IsLowerAlnum(c) || c == '_' }

  /** Every character is a slug character. */
  ghost predicate SlugChars(r: string) {
    forall i :: 0 <= i < |r| ==> IsSlugChar(r[i])
  }

  /** No two underscores in a row. */
  ghost predicate NoDoubleUnderscore(r: string) {
    forall i, j :: 0 <= i < |r| && j == i + 1 && j < |r| ==> r[i] != '_' || r[j] != '_'
  }

  /** A string is a slug: non-empty, over `[a-z0-9_]`, without an underscore at either end
      and without two underscores in a row. */
  ghost predicate IsSlug(r: string) {
    r != [] && SlugChars(r) && r[0] != '_' && r[|r| - 1] != '_' && NoDoubleUnderscore(r)
  }

  /** Drops a run of characters outside `[a-z0-9]`. */
  function SkipRun(s: string): (r: string)
    ensures |r| <= |s|
    ensures r == [] || IsLowerAlnum(r[0])
    ensures Alnums(r) == Alnums(s)
  {
    if s != [] && !IsLowerAlnum(s[0]) then SkipRun(s[1..]) else s
  }

  /** `.replace(/[^a-z0-9]+/g, "_")`: every maximal run of other characters becomes one '_'. */
  function Collapse(s: string): (r: string)
    ensures (r == []) == (s == [])
    ensures r != [] ==> ((r[0] == '_') == !IsLowerAlnum(s[0]))
    ensures SlugChars(r) && NoDoubleUnderscore(r)
    ensures Alnums(r) == Alnums(s)
    decreases |s|
  {
    if s == [] then []
    else
      var rest := if IsLowerAlnum(s[0]) then Collapse(s[1..]) else Collapse(SkipRun(s[1..]));
      var head := if IsLowerAlnum(s[0]) then [s[0]] else "_";
      AlnumsAppend(head, rest);
      head + rest
  }

  function TrimLeadingUnderscores(s: string): (r: string)
    ensures r == [] || r[0] != '_'
    ensures SlugChars(s) ==> SlugChars(r)
    ensures NoDoubleUnderscore(s) ==> NoDoubleUnderscore(r)
    ensures Alnums(r) == Alnums(s)
  {
    if s != [] && s[0] == '_' then TrimLeadingUnderscores(s[1..]) else s
  }

  function TrimTrailingUnderscores(s: string): (r: string)
    ensures r == [] || r[|r| - 1] != '_'
    ensures r != [] ==> s != [] && r[0] == s[0]
    ensures SlugChars(s) ==> SlugChars(r)
    ensures NoDoubleUnderscore(s) ==> NoDoubleUnderscore(r)
    ensures Alnums(r) == Alnums(s)
  {
    if s != [] && s[|s| - 1] == '_' then
      var init := s[..|s| - 1];
      AlnumsAppend(init, "_");
      assert init + "_" == s;
      assert SlugChars(s) ==> SlugChars(init);
      assert NoDoubleUnderscore(s) ==> NoDoubleUnderscore(init);
      TrimTrailingUnderscores(init)
    else s
  }

  /** `.replace(/^_+|_+$/g, "")`. */
  function TrimUnderscores(s: string): (r: string)
    ensures r == [] || (r[0] != '_' && r[|r| - 1] != '_')
    ensures SlugChars(s) ==> SlugChars(r)
    ensures NoDoubleUnderscore(s) ==> NoDoubleUnderscore(r)
    ensures Alnums(r) == Alnums(s)
  {
    TrimTrailingUnderscores(TrimLeadingUnderscores(s))
  }

  /** `s[i..j]` is what is left of `s` once underscores alone are cut from both ends. */
  ghost predicate CutAtEnds(s: string, i: int, j: int) {
    0 <= i <= j <= |s|
    && (forall k :: 0 <= k < i ==> s[k] == '_')
    && (forall k :: j <= k < |s| ==> s[k] == '_')
  }

  /** Only leading underscores are dropped: the result is a suffix after underscores. */
  lemma {:induction false} TrimLeadingDropsUnderscores(s: string)
    ensures CutAtEnds(s, |s| - |TrimLeadingUnderscores(s)|, |s|)
    ensures TrimLeadingUnderscores(s) == s[|s| - |TrimLeadingUnderscores(s)|..]
  {
    if s != [] && s[0] == '_' {
      TrimLeadingDropsUnderscores(s[1..]);
    }
  }

  /** Only trailing underscores are dropped: the result is a prefix before underscores. */
  lemma {:induction false} TrimTrailingDropsUnderscores(s: string)
    ensures CutAtEnds(s, 0, |TrimTrailingUnderscores(s)|)
    ensures TrimTrailingUnderscores(s) == s[..|TrimTrailingUnderscores(s)|]
  {
    if s != [] && s[|s| - 1] == '_' {
      var init := s[..|s| - 1];
      TrimTrailingDropsUnderscores(init);
      var n := |TrimTrailingUnderscores(init)|;
      assert init[..n] == s[..n];
      forall k | n <= k < |s|
        ensures s[k] == '_'
      {
        if k < |s| - 1 {
          assert s[k] == init[k];
        }
      }
    }
  }

  /** `TrimUnderscores` cuts underscores at both ends and nothing else: its result is a slice
      `s[i..j]` with only underscores outside it; since the result neither starts nor ends with
      one, the cut is the largest such. */
  lemma {:induction false} TrimUnderscoresCutsEnds(s: string)
    ensures var r := TrimUnderscores(s);
            var i := |s| - |TrimLeadingUnderscores(s)|;
            CutAtEnds(s, i, i + |r|) && r == s[i..i + |r|]
  {
    var lead := TrimLeadingUnderscores(s);
    TrimLeadingDropsUnderscores(s);
    var r := TrimTrailingUnderscores(lead);
    TrimTrailingDropsUnderscores(lead);
    assert r == TrimUnderscores(s);
    CutsCompose(s, lead, r);
  }

  /** Cutting a suffix after underscores, then a prefix before underscores, is one cut. */
  lemma {:induction false} CutsCompose(s: string, lead: string, r: string)
    requires |lead| <= |s| && CutAtEnds(s, |s| - |lead|, |s|) && lead == s[|s| - |lead|..]
    requires |r| <= |lead| && CutAtEnds(lead, 0, |r|) && r == lead[..|r|]
    ensures CutAtEnds(s, |s| - |lead|, |s| - |lead| + |r|) && r == s[|s| - |lead|..|s| - |lead| + |r|]
  {
    var i := |s| - |lead|;
    forall k | i + |r| <= k < |s|
      ensures s[k] == '_'
    {
      assert s[k] == lead[k - i];
    }
  }

  /** A string of letters and digits alone collapses to itself. */
  lemma {:induction false} CollapseKeepsAlnums(s: string)
    requires forall k :: 0 <= k < |s| ==> IsLowerAlnum(s[k])
    ensures Collapse(s) == s
  {
    if s != [] {
      CollapseKeepsAlnums(s[1..]);
      assert Collapse(s) == [s[0]] + Collapse(s[1..]);
      assert [s[0]] + s[1..] == s;
    }
  }

  /** Skipping a run that ends where a letter or digit starts leaves exactly what follows it. */
  lemma {:induction false} SkipRunAll(run: string, b: string)
    requires forall k :: 0 <= k < |run| ==> !IsLowerAlnum(run[k])
    requires b == [] || IsLowerAlnum(b[0])
    ensures SkipRun(run + b) == b
  {
    if run != [] {
      assert (run + b)[1..] == run[1..] + b;
      SkipRunAll(run[1..], b);
    } else {
      assert run + b == b;
    }
  }

  /** Skipping a run stops inside `x` when `x` ends in a letter or digit: what follows `x` is
      kept, and the rest of `x` still ends in that character. */
  lemma {:induction false} SkipRunStopsEarly(x: string, y: string)
    requires x != [] && IsLowerAlnum(x[|x| - 1])
    ensures SkipRun(x + y) == SkipRun(x) + y
    ensures SkipRun(x) != [] && |SkipRun(x)| <= |x| && SkipRun(x)[|SkipRun(x)| - 1] == x[|x| - 1]
  {
    if !IsLowerAlnum(x[0]) {
      var t := x[1..];
      assert (x + y)[1..] == t + y;
      SkipRunStopsEarly(t, y);
    }
  }

  /** `Collapse` keeps a leading letter or digit. */
  lemma CollapseAlnumHead(x: string)
    requires x != [] && IsLowerAlnum(x[0])
    ensures Collapse(x) == [x[0]] + Collapse(x[1..])
  {
  }

  /** `Collapse` turns a leading run of other characters into one '_'. */
  lemma CollapseRunHead(x: string)
    requires x != [] && !IsLowerAlnum(x[0])
    ensures Collapse(x) == "_" + Collapse(SkipRun(x[1..]))
  {
  }

  /** Regrouping around the '_' the split inserts. */
  lemma Regroup(h: string, p: string, q: string)
    ensures h + (p + "_" + q) == (h + p) + "_" + q
  {
  }

  /** The requirements of `CollapseSplits`: `run` is a non-empty run of characters outside
      `[a-z0-9]`, `a` is empty or ends in a letter or digit, `b` is empty or starts with one. */
  ghost predicate SplitsAt(a: string, run: string, b: string) {
    run != [] && (forall k :: 0 <= k < |run| ==> !IsLowerAlnum(run[k]))
    && (a == [] || IsLowerAlnum(a[|a| - 1]))
    && (b == [] || IsLowerAlnum(b[0]))
  }

  /** A non-empty run of characters outside `[a-z0-9]`, standing between letters or digits (or
      the ends), becomes exactly one '_' and splits the collapse in two. */
  lemma {:induction false} CollapseSplits(a: string, run: string, b: string)
    requires run != [] && forall k :: 0 <= k < |run| ==> !IsLowerAlnum(run[k])
    requires a == [] || IsLowerAlnum(a[|a| - 1])
    requires b == [] || IsLowerAlnum(b[0])
    ensures Collapse(a + run + b) == Collapse(a) + "_" + Collapse(b)
    decreases |a|, 1
  {
    assert SplitsAt(a, run, b);
    if a == [] {
      CollapseSplitsAtStart(a, run, b);
    } else if IsLowerAlnum(a[0]) {
      CollapseSplitsAfterAlnum(a, run, b);
    } else {
      CollapseSplitsAfterRun(a, run, b);
    }
  }

  lemma CollapseSplitsAtStart(a: string, run: string, b: string)
    requires SplitsAt(a, run, b) && a == []
    ensures Collapse(a + run + b) == Collapse(a) + "_" + Collapse(b)
  {
    var x := a + run + b;
    assert x == run + b;
    assert x[1..] == run[1..] + b;
    SkipRunAll(run[1..], b);
    CollapseRunHead(x);
  }

  lemma {:induction false} CollapseSplitsAfterAlnum(a: string, run: string, b: string)
    requires SplitsAt(a, run, b) && a != [] && IsLowerAlnum(a[0])
    ensures Collapse(a + run + b) == Collapse(a) + "_" + Collapse(b)
    decreases |a|, 0
  {
    var x := a + run + b;
    var t := a[1..];
    assert x[1..] == t + run + b;
    CollapseSplits(t, run, b);
    CollapseAlnumHead(x);
    CollapseAlnumHead(a);
    Regroup([a[0]], Collapse(t), Collapse(b));
  }

  lemma {:induction false} CollapseSplitsAfterRun(a: string, run: string, b: string)
    requires SplitsAt(a, run, b) && a != [] && !IsLowerAlnum(a[0])
    ensures Collapse(a + run + b) == Collapse(a) + "_" + Collapse(b)
    decreases |a|, 0
  {
    var x := a + run + b;
    var t := a[1..];
    assert x[1..] == t + (run + b);
    SkipRunStopsEarly(t, run + b);
    var u := SkipRun(t);
    assert SkipRun(x[1..]) == u + run + b;
    CollapseSplits(u, run, b);
    CollapseRunHead(x);
    CollapseRunHead(a);
    Regroup("_", Collapse(u), Collapse(b));
  }

  /** A slug keeps at least one letter or digit. */
  lemma SlugHasAlnum(t: string)
    requires t != [] && SlugChars(t) && t[0] != '_'
    ensures Alnums(t) != []
  {
    assert IsLowerAlnum(t[0]);
  }

  /** `slugify`: the placeholder exactly when no `[a-z0-9]` character survives folding,
      otherwise a slug that keeps every surviving letter and digit in order. */
  function Slug(name: string): (r: string)
    ensures r != []
    ensures r == Placeholder || IsSlug(r)
    ensures r == Placeholder <==> Alnums(Fold(name)) == []
    ensures r != Placeholder ==> Alnums(r) == Alnums(Fold(name))
  {
    var t := TrimUnderscores(Collapse(Fold(name)));
    if t == [] then Placeholder
    else
      SlugHasAlnum(t);
      assert !IsSlugChar(Placeholder[11]);
      t
  }

  /** `[bh:<slug>]`, the token a record named `name` is written as in chat. */
  function TokenOf(name: string): string {
    "[bh:" + Slug(name) + "]"
  }

  /** A string has the shape of a token. */
  predicate IsToken(t: string) {
    |t| >= 5 && t[..4] == "[bh:" && t[|t| - 1] == ']'
  }

  /** The slug a token carries. */
  function SlugOfToken(t: string): string
    requires IsToken(t)
  {
    t[4..|t| - 1]
  }

  /** Wrapping a non-empty string gives a token that carries it. */
  lemma TokenShape(slug: string)
    requires slug != []
    ensures IsToken("[bh:" + slug + "]") && SlugOfToken("[bh:" + slug + "]") == slug
  {
    var t := "[bh:" + slug + "]";
    assert t[..4] == "[bh:";
    assert t[4..|t| - 1] == slug;
  }

  /** Every token has the token shape and gives back its slug, so two names share a
      token exactly when they share a slug. */
  lemma TokenRoundTrip(name: string, other: string)
    ensures IsToken(TokenOf(name)) && SlugOfToken(TokenOf(name)) == Slug(name)
    ensures TokenOf(name) == TokenOf(other) <==> Slug(name) == Slug(other)
  {
    TokenShape(Slug(name));
    TokenShape(Slug(other));
  }

  // ------------------------------------------------------------------
  // The token map (a JavaScript object used as a dictionary)
  // ------------------------------------------------------------------

  /** Keys in insertion order (the order `Object.keys` reports for non-numeric keys)
      and the value each key holds. */
  datatype TokenMap = TokenMap(keys: seq<string>, entries: map<string, string>) {

    ghost predicate Valid() {
      && (forall i, j :: 0 <= i < j < |keys| ==> keys[i] != keys[j])
      && (forall k :: k in entries <==> k in keys)
    }

    /** `obj[k]`, with a missing key read as "" (both are falsy). */
    function Get(k: string): string {
      if k in entries then entries[k] else ""
    }

    /** `obj[k] = v`: a new key goes last, an existing key keeps its place. */
    function Set(k: string, v: string): (r: TokenMap)
      requires Valid()
      ensures r.Valid()
      ensures r.entries == entries[k := v]
      ensures r.keys == if k in entries then keys else keys + [k]
    {
      TokenMap(if k in entries then keys else keys + [k], entries[k := v])
    }
  }

  const EmptyMap: TokenMap := TokenMap([], map[])

  /** All keys have the token shape (they are never empty). */
  ghost predicate TokensOnly(m: TokenMap) {
    forall k :: k in m.keys ==> IsToken(k)
  }

  // ------------------------------------------------------------------
  // The combined regex
  // ------------------------------------------------------------------

  /** A compiled regex, kept as its source text; the flags are always "g". */
  datatype Regex = Regex(source: string)

  /** The characters `escapeToken` escapes: `. * + ? ^ $ { } ( ) | [ ] \`. */
  predicate IsMeta(c: char) {
    c in {'.', '*', '+', '?', '^', '$', '{', '}', '(', ')', '|', '[', ']', '\\'}
  }

  /** `escapeToken`: a backslash before every metacharacter. */
  function Escape(s: string): string {
    if s == [] then [] else (if IsMeta(s[0]) then ['\\', s[0]] else [s[0]]) + Escape(s[1..])
  }

  /** `keys.map(escapeToken).join("|")`. */
  function Source(keys: seq<string>): string
    requires keys != []
  {
    if |keys| == 1 then Escape(keys[0]) else Escape(keys[0]) + "|" + Source(keys[1..])
  }

  /** `buildRegex`: null exactly when the map has no keys; otherwise a regex whose
      alternatives are the keys, each read literally, in key order. */
  function BuildRegex(m: TokenMap): (r: Option<Regex>)
    ensures r.None? <==> m.keys == []
    ensures r.Some? ==> Alternatives(r.value) == m.keys
  {
    if m.keys == [] then None
    else
      ParseSource(m.keys);
      Some(Regex(Source(m.keys)))
  }

  /** The regex of an optional map, as the store keeps it (`null` map, `null` regex). */
  function RegexOf(m: Option<TokenMap>): Option<Regex> {
    if m.None? then None else BuildRegex(m.value)
  }

  /** How a pattern made of escaped literals and `|` reads: the literal strings it
      matches, one per alternative, in order. */
  function Alternatives(r: Regex): seq<string> {
    Parse(r.source)
  }

  function Parse(src: string): (alts: seq<string>)
    ensures |alts| >= 1
    decreases |src|
  {
    if src == [] then [""]
    else if src[0] == '\\' && |src| >= 2 then PushChar(src[1], Parse(src[2..]))
    else if src[0] == '|' then [""] + Parse(src[1..])
    else PushChar(src[0], Parse(src[1..]))
  }

  function PushChar(c: char, alts: seq<string>): seq<string>
    requires |alts| >= 1
  {
    [[c] + alts[0]] + alts[1..]
  }

  /** An escaped character is read as itself. */
  lemma ParseBackslash(c: char, tail: string)
    ensures Parse(['\\', c] + tail) == PushChar(c, Parse(tail))
  {
    var src := ['\\', c] + tail;
    assert src[0] == '\\' && src[1] == c && src[2..] == tail;
  }

  /** A character other than `\` and `|` is read as itself. */
  lemma ParsePlain(c: char, tail: string)
    requires c != '\\' && c != '|'
    ensures Parse([c] + tail) == PushChar(c, Parse(tail))
  {
    var src := [c] + tail;
    assert src[0] == c && src[1..] == tail;
  }

  /** The escaped form of `k` followed by `rest`: the first character, escaped if needed,
      then the rest of `k` escaped, then `rest`. */
  lemma EscapeCons(k: string, rest: string)
    requires k != []
    ensures Escape(k) + rest == (if IsMeta(k[0]) then ['\\', k[0]] else [k[0]]) + (Escape(k[1..]) + rest)
  {
  }

  /** The first character of an escaped key is read as itself. */
  lemma ParseEscapedHead(k: string, rest: string)
    requires k != []
    ensures Parse(Escape(k) + rest) == PushChar(k[0], Parse(Escape(k[1..]) + rest))
  {
    EscapeCons(k, rest);
    if IsMeta(k[0]) {
      ParseBackslash(k[0], Escape(k[1..]) + rest);
    } else {
      ParsePlain(k[0], Escape(k[1..]) + rest);
    }
  }

  lemma ParseEscapeEmpty(rest: string)
    ensures Parse(Escape([]) + rest) == [[] + Parse(rest)[0]] + Parse(rest)[1..]
  {
    var p := Parse(rest);
    assert Escape([]) + rest == rest;
    assert [] + p[0] == p[0];
    assert [p[0]] + p[1..] == p;
  }

  lemma PushCharJoin(k: string, p: seq<string>)
    requires k != [] && |p| >= 1
    ensures PushChar(k[0], [k[1..] + p[0]] + p[1..]) == [k + p[0]] + p[1..]
  {
    assert [k[0]] + (k[1..] + p[0]) == k + p[0];
  }

  /** Reading an escaped key followed by `rest` puts the key in front of the first
      alternative of `rest`. */
  lemma {:induction false} ParseEscape(k: string, rest: string)
    ensures Parse(Escape(k) + rest) == [k + Parse(rest)[0]] + Parse(rest)[1..]
  {
    if k == [] {
      ParseEscapeEmpty(rest);
    } else {
      ParseEscape(k[1..], rest);
      ParseEscapedHead(k, rest);
      PushCharJoin(k, Parse(rest));
    }
  }

  /** An unescaped `|` starts a new alternative. */
  lemma ParseBar(tail: string)
    ensures Parse("|" + tail) == [""] + Parse(tail)
  {
    var src := "|" + tail;
    assert src[0] == '|' && src[1..] == tail;
  }

  /** A lone escaped key is read as exactly that key. */
  lemma ParseEscapeAlone(k: string)
    ensures Parse(Escape(k)) == [k]
  {
    ParseEscape(k, "");
    assert Escape(k) + "" == Escape(k);
    assert Parse("") == [""];
    assert k + "" == k;
  }

  /** An escaped key, a `|` and then a source read as `keys` is read as the key followed by `keys`. */
  lemma ParseEscapeBar(k: string, tail: string, keys: seq<string>)
    requires Parse(tail) == keys
    ensures Parse(Escape(k) + ("|" + tail)) == [k] + keys
  {
    ParseBar(tail);
    ParseEscape(k, "|" + tail);
    assert k + "" == k;
  }

  /** Escaping makes the join unambiguous: parsing the source gives back the keys. */
  lemma {:induction false} ParseSource(keys: seq<string>)
    requires keys != []
    ensures Parse(Source(keys)) == keys
  {
    if |keys| == 1 {
      ParseEscapeAlone(keys[0]);
      assert keys == [keys[0]];
    } else {
      ParseSource(keys[1..]);
      ParseEscapeBar(keys[0], Source(keys[1..]), keys[1..]);
      assert Source(keys) == Escape(keys[0]) + ("|" + Source(keys[1..]));
      assert keys == [keys[0]] + keys[1..];
    }
  }

  // ------------------------------------------------------------------
  // Relay replies and their normalisation
  // ------------------------------------------------------------------

  /** A file entry of a record; a missing, null or empty `url` is "". */
  datatype RawFile = RawFile(url: string)

  /** One element of `resp.data`: a falsy element, or an object whose `name` is a string
      (`Some`) or anything else (`None`) and whose `files` is an array (`Some`) or not. */
  datatype RawItem = Falsy | Record(name: Option<string>, files: Option<seq<RawFile>>)

  /** The relay's answer to `fetch_emotes`: none at all, or `{success, data}` where
      `data` is an array (`Some`) or not. */
  datatype Reply = NoReply | Reply(success: bool, data: Option<seq<RawItem>>)

  /** What `chrome.runtime.sendMessage` gives back: a rejection or a reply. */
  datatype RelayOutcome = Rejected | Resolved(reply: Reply)

  /** The reply carries an array of records. */
  predicate Usable(reply: Reply) {
    reply.Reply? && reply.success && reply.data.Some?
  }

  /** `{ token, name, url }`, an element of `state.list`. */
  datatype ListEntry = ListEntry(token: string, name: string, url: string)

  /** Records with a string name are kept; everything else is skipped. */
  predicate IsNamed(item: RawItem) {
    item.Record? && item.name.Some?
  }

  /** The image URL of a record: its FIRST file's url made absolute, or "". */
  function FileUrl(item: RawItem, toAbs: string -> string): string
    requires item.Record?
  {
    if item.files.Some? && |item.files.value| > 0 && item.files.value[0].url != ""
    then toAbs(item.files.value[0].url)
    else ""
  }

  function EntryOf(item: RawItem, toAbs: string -> string): ListEntry
    requires IsNamed(item)
  {
    ListEntry(TokenOf(item.name.value), item.name.value, FileUrl(item, toAbs))
  }

  /** The records the `forEach` keeps, in order. */
  function NamedItems(items: seq<RawItem>): (r: seq<RawItem>)
    ensures forall x :: x in r ==> IsNamed(x)
  {
    if items == [] then []
    else (if IsNamed(items[0]) then [items[0]] else []) + NamedItems(items[1..])
  }

  /** The list entry one element contributes: one per named record. */
  function EntriesOf(item: RawItem, toAbs: string -> string): seq<ListEntry> {
    if IsNamed(item) then [EntryOf(item, toAbs)] else []
  }

  /** The list the `forEach` builds: one entry per named record, duplicates included. */
  function ListOf(items: seq<RawItem>, toAbs: string -> string): seq<ListEntry> {
    if items == [] then [] else EntriesOf(items[0], toAbs) + ListOf(items[1..], toAbs)
  }

  /** One step of the `forEach` on the map: `if (!next[token]) next[token] = item.name`. */
  function MergeOne(m: TokenMap, item: RawItem): (r: TokenMap)
    requires m.Valid()
    ensures r.Valid()
  {
    if !IsNamed(item) then m
    else
      var token := TokenOf(item.name.value);
      if m.Get(token) == "" then m.Set(token, item.name.value) else m
  }

  /** The map the `forEach` builds from a copy of the old one. */
  function Merge(m: TokenMap, items: seq<RawItem>): (r: TokenMap)
    requires m.Valid()
    ensures r.Valid()
    decreases |items|
  {
    if items == [] then m else Merge(MergeOne(m, items[0]), items[1..])
  }

  /** The token of one element, if it is a named record. */
  function TokenSet(item: RawItem): set<string> {
    if IsNamed(item) then {TokenOf(item.name.value)} else {}
  }

  /** The tokens of the named records. */
  function TokensOf(items: seq<RawItem>): set<string> {
    if items == [] then {} else TokenSet(items[0]) + TokensOf(items[1..])
  }

  /** The name one element offers for token `k`. */
  function NameFor(k: string, item: RawItem): seq<string> {
    if IsNamed(item) && TokenOf(item.name.value) == k then [item.name.value] else []
  }

  /** The names of the named records whose token is `k`, in order. */
  function NamesFor(k: string, items: seq<RawItem>): seq<string> {
    if items == [] then [] else NameFor(k, items[0]) + NamesFor(k, items[1..])
  }

  /** The first non-empty string of a sequence, or "". */
  function FirstNonEmpty(s: seq<string>): string {
    if s == [] then "" else if s[0] != "" then s[0] else FirstNonEmpty(s[1..])
  }

  lemma FirstNonEmptyCons(a: string, s: seq<string>)
    ensures FirstNonEmpty([a] + s) == if a != "" then a else FirstNonEmpty(s)
  {
    assert ([a] + s)[0] == a && ([a] + s)[1..] == s;
  }

  /** One step keeps the old keys in order and adds at most the element's token. */
  lemma MergeOneKeys(m: TokenMap, item: RawItem)
    requires m.Valid()
    ensures m.keys <= MergeOne(m, item).keys
    ensures MergeOne(m, item).entries.Keys == m.entries.Keys + TokenSet(item)
  {
  }

  /** The merge never drops a key or reorders the old keys, only appends new tokens;
      its keys are the old keys and the tokens of the named records. */
  lemma {:induction false} MergeKeys(m: TokenMap, items: seq<RawItem>)
    requires m.Valid()
    ensures m.keys <= Merge(m, items).keys
    ensures Merge(m, items).entries.Keys == m.entries.Keys + TokensOf(items)
    decreases |items|
  {
    if items != [] {
      var m1 := MergeOne(m, items[0]);
      MergeOneKeys(m, items[0]);
      MergeKeys(m1, items[1..]);
    }
  }

  /** One step sets `k` only when the element carries token `k` and `k` held nothing. */
  lemma MergeOneValue(m: TokenMap, item: RawItem, k: string)
    requires m.Valid()
    ensures MergeOne(m, item).Get(k) == if m.Get(k) == "" && NameFor(k, item) != [] then NameFor(k, item)[0] else m.Get(k)
  {
  }

  /** The value of every token after the merge: the old value if it was non-empty,
      otherwise the first non-empty name among the records carrying that token
      (so a duplicate never overwrites, and an empty old value is replaced). */
  lemma {:induction false} MergeValue(m: TokenMap, items: seq<RawItem>, k: string)
    requires m.Valid()
    ensures Merge(m, items).Get(k) == FirstNonEmpty([m.Get(k)] + NamesFor(k, items))
    decreases |items|
  {
    if items == [] {
      FirstNonEmptyCons(m.Get(k), []);
    } else {
      var m1 := MergeOne(m, items[0]);
      var rest := NamesFor(k, items[1..]);
      MergeValue(m1, items[1..], k);
      MergeOneValue(m, items[0], k);
      FirstNonEmptyCons(m.Get(k), NamesFor(k, items));
      FirstNonEmptyCons(m1.Get(k), rest);
      if NameFor(k, items[0]) != [] {
        assert NamesFor(k, items) == [NameFor(k, items[0])[0]] + rest;
        FirstNonEmptyCons(NameFor(k, items[0])[0], rest);
      } else {
        assert NamesFor(k, items) == rest;
      }
    }
  }

  /** A refresh never overwrites a non-empty value. */
  lemma KeepsExistingValues(m: TokenMap, items: seq<RawItem>, k: string)
    requires m.Valid() && k in m.entries && m.entries[k] != ""
    ensures k in Merge(m, items).entries && Merge(m, items).entries[k] == m.entries[k]
  {
    MergeKeys(m, items);
    MergeValue(m, items, k);
    FirstNonEmptyCons(m.Get(k), NamesFor(k, items));
  }

  /** `list` holds, position by position, the entry of each record of `named`. */
  ghost predicate EntryPerRecord(list: seq<ListEntry>, named: seq<RawItem>, toAbs: string -> string) {
    |list| == |named| && forall i :: 0 <= i < |named| ==> IsNamed(named[i]) && list[i] == EntryOf(named[i], toAbs)
  }

  /** A named record in front adds its entry in front. */
  lemma EntryPerRecordCons(x: RawItem, list: seq<ListEntry>, named: seq<RawItem>, toAbs: string -> string)
    requires IsNamed(x) && EntryPerRecord(list, named, toAbs)
    ensures EntryPerRecord([EntryOf(x, toAbs)] + list, [x] + named, toAbs)
  {
    var l, n := [EntryOf(x, toAbs)] + list, [x] + named;
    forall i | 0 < i < |n|
      ensures IsNamed(n[i]) && l[i] == EntryOf(n[i], toAbs)
    {
      assert l[i] == list[i - 1] && n[i] == named[i - 1];
    }
  }

  /** The list has one entry per named record, in input order, duplicates included. */
  lemma {:induction false} ListIsPerRecord(items: seq<RawItem>, toAbs: string -> string)
    ensures EntryPerRecord(ListOf(items, toAbs), NamedItems(items), toAbs)
  {
    if items != [] {
      var rest, named := ListOf(items[1..], toAbs), NamedItems(items[1..]);
      ListIsPerRecord(items[1..], toAbs);
      if IsNamed(items[0]) {
        EntryPerRecordCons(items[0], rest, named, toAbs);
        assert ListOf(items, toAbs) == [EntryOf(items[0], toAbs)] + rest;
        assert NamedItems(items) == [items[0]] + named;
      } else {
        assert ListOf(items, toAbs) == rest && NamedItems(items) == named;
      }
    }
  }

  /** Every listed token is the token of some named record. */
  lemma {:induction false} ListTokens(items: seq<RawItem>, toAbs: string -> string)
    ensures forall e :: e in ListOf(items, toAbs) ==> e.token in TokensOf(items)
  {
    if items != [] {
      ListTokens(items[1..], toAbs);
    }
  }

  /** Every listed token is a key of the merged map. */
  lemma ListedTokensAreKeys(m: TokenMap, items: seq<RawItem>, toAbs: string -> string)
    requires m.Valid()
    ensures forall e :: e in ListOf(items, toAbs) ==> e.token in Merge(m, items).entries
  {
    ListTokens(items, toAbs);
    MergeKeys(m, items);
  }

  /** The tokens of the records all have the token shape. */
  lemma {:induction false} TokensOfAreTokens(items: seq<RawItem>)
    ensures forall k :: k in TokensOf(items) ==> IsToken(k)
  {
    if items != [] {
      TokensOfAreTokens(items[1..]);
      if IsNamed(items[0]) {
        TokenRoundTrip(items[0].name.value, items[0].name.value);
      }
    }
  }

  /** Every key a refresh adds is a token. */
  lemma MergeTokensOnly(m: TokenMap, items: seq<RawItem>)
    requires m.Valid() && TokensOnly(m)
    ensures TokensOnly(Merge(m, items))
  {
    MergeKeys(m, items);
    TokensOfAreTokens(items);
    var r := Merge(m, items);
    forall k | k in r.keys ensures IsToken(k) {
      assert k in r.entries;
    }
  }

  /** Unfolding `Merge` at position `i`. */
  lemma MergeAt(m: TokenMap, items: seq<RawItem>, i: nat)
    requires m.Valid() && i < |items|
    ensures Merge(m, items[i..]) == Merge(MergeOne(m, items[i]), items[i + 1..])
  {
    assert items[i..][0] == items[i] && items[i..][1..] == items[i + 1..];
  }

  lemma {:induction false} ListOfAppend(a: seq<RawItem>, b: seq<RawItem>, toAbs: string -> string)
    ensures ListOf(a + b, toAbs) == ListOf(a, toAbs) + ListOf(b, toAbs)
  {
    if a == [] {
      assert a + b == b;
    } else {
      assert (a + b)[0] == a[0] && (a + b)[1..] == a[1..] + b;
      ListOfAppend(a[1..], b, toAbs);
    }
  }

  /** The list after element `i` extends the list before it by that element's entry. */
  lemma ListAt(items: seq<RawItem>, i: nat, toAbs: string -> string)
    requires i < |items|
    ensures ListOf(items[..i + 1], toAbs) == ListOf(items[..i], toAbs) + EntriesOf(items[i], toAbs)
  {
    assert items[..i + 1] == items[..i] + [items[i]];
    ListOfAppend(items[..i], [items[i]], toAbs);
    assert [items[i]][1..] == [];
  }

  /** The `forEach` over `resp.data`: builds the new map from a copy of the old one and
      the new list, element by element. */
  method MergeRecords(base: TokenMap, items: seq<RawItem>, toAbs: string -> string)
    returns (next: TokenMap, entries: seq<ListEntry>)
    requires base.Valid()
    ensures next == Merge(base, items)
    ensures entries == ListOf(items, toAbs)
  {
    next := base;
    entries := [];
    var i := 0;
    while i < |items|
      invariant 0 <= i <= |items|
      invariant next.Valid()
      invariant Merge(next, items[i..]) == Merge(base, items)
      invariant entries == ListOf(items[..i], toAbs)
    {
      MergeAt(next, items, i);
      ListAt(items, i, toAbs);
      next, entries := MergeItem(next, entries, items[i], toAbs);
      i := i + 1;
    }
    assert items[|items|..] == [];
    assert items[..|items|] == items;
  }

  /** The `forEach` callback for one element: a named record adds its entry to the list and
      sets its token unless the token already has a non-empty value. */
  method MergeItem(next: TokenMap, entries: seq<ListEntry>, item: RawItem, toAbs: string -> string)
    returns (next': TokenMap, entries': seq<ListEntry>)
    requires next.Valid()
    ensures next' == MergeOne(next, item) && next'.Valid()
    ensures entries' == entries + EntriesOf(item, toAbs)
  {
    next', entries' := next, entries;
    if item.Record? && item.name.Some? {
      var token := TokenOf(item.name.value);
      var url := if item.files.Some? && |item.files.value| > 0 && item.files.value[0].url != ""
                 then toAbs(item.files.value[0].url) else "";
      entries' := entries + [ListEntry(token, item.name.value, url)];
      if next.Get(token) == "" {
        next' := next.Set(token, item.name.value);
      }
    } else {
      assert entries + [] == entries;
    }
  }

  // ------------------------------------------------------------------
  // The store
  // ------------------------------------------------------------------

  /** What listeners receive: `(state.map, state.regex, state.list)`. */
  datatype Snapshot = Snapshot(tokenMap: TokenMap, regex: Option<Regex>, list: seq<ListEntry>)

  /** A registered callback; whether calling it throws is part of its behaviour. */
  datatype Listener = Listener(id: nat, throws: bool)

  /** The argument of `onUpdate`: a function, or some other value. */
  datatype Callback = Function(listener: Listener) | NotAFunction

  /** One call of a listener during a notification. */
  datatype Delivery = Delivery(listener: nat, snapshot: Snapshot, threw: bool)

  class EmoteStore {
    var tokenMap: Option<TokenMap>
    var regex: Option<Regex>
    var list: seq<ListEntry>
    var listeners: seq<Listener>
    var inFlight: bool

    /** The regex always matches the tokenMap, and the tokenMap holds only tokens. */
    ghost predicate Valid()
      reads this
    {
      && (tokenMap.Some? ==> tokenMap.value.Valid() && TokensOnly(tokenMap.value))
      && regex == RegexOf(tokenMap)
    }

    constructor ()
      ensures Valid()
      ensures tokenMap.None? && regex.None? && list == [] && listeners == [] && !inFlight
    {
      tokenMap, regex, list, listeners, inFlight := None, None, [], [], false;
    }

    /** `ensureInitialized`: true exactly when a tokenMap has been loaded. */
    method EnsureInitialized() returns (ready: bool)
      ensures ready <==> tokenMap.Some?
    {
      ready := tokenMap.Some?;
    }

    /** `init`: awaits `ensureInitialized` and discards its answer, so the promise
      resolves to `undefined` (None) whatever the state. */
    method Init() returns (r: Option<bool>)
      ensures r.None?
    {
      var _ := EnsureInitialized();
      r := None;
    }

    /** `init` as its callers evidently mean it: resolves to what `ensureInitialized`
      reports, so a loaded map reads as ready. */
    method InitReporting() returns (r: Option<bool>)
      ensures r == Some(tokenMap.Some?)
    {
      var ready := EnsureInitialized();
      r := Some(ready);
    }

    /** `onUpdate`: registers functions only, at the end of the list. */
    method OnUpdate(fn: Callback)
      modifies this`listeners
      ensures listeners == if fn.Function? then old(listeners) + [fn.listener] else old(listeners)
    {
      if fn.Function? {
        listeners := listeners + [fn.listener];
      }
    }

    /** The `state.listeners.forEach` with a try/catch around each call: every listener
      is called, in registration order, with the same snapshot, whether or not an
      earlier one threw. */
    method Notify(snapshot: Snapshot) returns (log: seq<Delivery>)
      ensures |log| == |listeners|
      ensures forall i :: 0 <= i < |log| ==>
        log[i] == Delivery(listeners[i].id, snapshot, listeners[i].throws)
    {
      log := [];
      var i := 0;
      while i < |listeners|
        invariant 0 <= i <= |listeners|
        invariant |log| == i
        invariant forall j :: 0 <= j < i ==> log[j] == Delivery(listeners[j].id, snapshot, listeners[j].throws)
      {
        var l := listeners[i];
        // the call throws or not; the catch swallows it and the loop goes on
        log := log + [Delivery(l.id, snapshot, l.throws)];
        i := i + 1;
      }
    }

    /** The guard at the start of `refreshFromApi`: a refresh already in flight makes
      the new one return false without touching anything. */
    method BeginRefresh() returns (started: bool)
      modifies this`inFlight
      ensures started == !old(inFlight)
      ensures inFlight
    {
      if inFlight {
        return false;
      }
      inFlight := true;
      started := true;
    }

    /** The rest of `refreshFromApi`, once the relay has answered. A rejection clears the
      flag and fails; an unusable reply fails and leaves the flag SET; a usable reply
      merges the records into a copy of the old tokenMap, rebuilds the regex, replaces the
      list, notifies every listener and clears the flag. */
    method CompleteRefresh(outcome: RelayOutcome, toAbs: string -> string) returns (ok: bool, log: seq<Delivery>)
      requires Valid() && inFlight
      modifies this`tokenMap, this`regex, this`list, this`inFlight
      ensures Valid()
      ensures ok <==> outcome.Resolved? && Usable(outcome.reply)
      ensures !ok ==> tokenMap == old(tokenMap) && regex == old(regex) && list == old(list) && log == []
      ensures outcome.Rejected? ==> !inFlight
      ensures outcome.Resolved? && !Usable(outcome.reply) ==> inFlight
      ensures ok ==> (
        && !inFlight
        && tokenMap == Some(Merge(old(tokenMap).GetOr(EmptyMap), outcome.reply.data.value))
        && regex == BuildRegex(tokenMap.value)
        && list == ListOf(outcome.reply.data.value, toAbs)
        && |log| == |listeners|
        && forall i :: 0 <= i < |log| ==>
             log[i] == Delivery(listeners[i].id, Snapshot(tokenMap.value, regex, list), listeners[i].throws))
    {
      if outcome.Rejected? {
        inFlight := false;
        return false, [];
      }
      var reply := outcome.reply;
      if !Usable(reply) {
        return false, [];
      }
      var items := reply.data.value;
      var base := tokenMap.GetOr(EmptyMap);
      var next, entries := MergeRecords(base, items, toAbs);
      MergeTokensOnly(base, items);
      tokenMap := Some(next);
      regex := BuildRegex(next);
      list := entries;
      log := Notify(Snapshot(next, regex, list));
      inFlight := false;
      ok := true;
    }

    /** `CompleteRefresh` with the guard released on every path, the unusable reply
      included: what the `_inFlight` flag is evidently for. */
    method CompleteRefreshReleasing(outcome: RelayOutcome, toAbs: string -> string) returns (ok: bool, log: seq<Delivery>)
      requires Valid() && inFlight
      modifies this`tokenMap, this`regex, this`list, this`inFlight
      ensures Valid() && !inFlight
      ensures ok <==> outcome.Resolved? && Usable(outcome.reply)
      ensures !ok ==> tokenMap == old(tokenMap) && regex == old(regex) && list == old(list) && log == []
      ensures ok ==> (
        && tokenMap == Some(Merge(old(tokenMap).GetOr(EmptyMap), outcome.reply.data.value))
        && regex == BuildRegex(tokenMap.value)
        && list == ListOf(outcome.reply.data.value, toAbs)
        && |log| == |listeners|
        && forall i :: 0 <= i < |log| ==>
             log[i] == Delivery(listeners[i].id, Snapshot(tokenMap.value, regex, list), listeners[i].throws))
    {
      ok, log := CompleteRefresh(outcome, toAbs);
      inFlight := false;
    }

    /** `refreshFromApi` run to completion with the relay's outcome given. */
    method RefreshFromApi(outcome: RelayOutcome, toAbs: string -> string) returns (ok: bool, log: seq<Delivery>)
      requires Valid()
      modifies this`tokenMap, this`regex, this`list, this`inFlight
      ensures Valid()
      ensures old(inFlight) ==> !ok && inFlight && tokenMap == old(tokenMap) && regex == old(regex) && list == old(list) && log == []
      ensures !old(inFlight) ==> (ok <==> outcome.Resolved? && Usable(outcome.reply))
      ensures !old(inFlight) ==> (inFlight <==> outcome.Resolved? && !Usable(outcome.reply))
      ensures !ok ==> tokenMap == old(tokenMap) && regex == old(regex) && list == old(list) && log == []
      ensures ok ==> (
        && !inFlight
        && tokenMap == Some(Merge(old(tokenMap).GetOr(EmptyMap), outcome.reply.data.value))
        && regex == BuildRegex(tokenMap.value)
        && list == ListOf(outcome.reply.data.value, toAbs)
        && |log| == |listeners|
        && forall i :: 0 <= i < |log| ==>
             log[i] == Delivery(listeners[i].id, Snapshot(tokenMap.value, regex, list), listeners[i].throws))
    {
      var started := BeginRefresh();
      if !started {
        return false, [];
      }
      ok, log := CompleteRefresh(outcome, toAbs);
    }
  }
  /** A reply without an array of records leaves `_inFlight` set, so every later refresh
      is skipped: the second refresh below does not start. */
  method StuckAfterUnusableReply(toAbs: string -> string) returns (firstOk: bool, secondStarted: bool)
    ensures !firstOk && !secondStarted
  {
    var store := new EmoteStore();
    var started := store.BeginRefresh();
    var log;
    firstOk, log := store.CompleteRefresh(Resolved(NoReply), toAbs);
    secondStarted := store.BeginRefresh();
  }

  /** With the guard released, a refresh after an unusable reply starts again. */
  method RestartsAfterUnusableReply(toAbs: string -> string) returns (firstOk: bool, secondStarted: bool)
    ensures !firstOk && secondStarted
  {
    var store := new EmoteStore();
    var started := store.BeginRefresh();
    var log;
    firstOk, log := store.CompleteRefreshReleasing(Resolved(NoReply), toAbs);
    secondStarted := store.BeginRefresh();
  }
}
