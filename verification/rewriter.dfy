/** The chat text rewriter (`BeeHappyEmoteReplacer`): finds emote tokens in the text
    nodes of chat messages and replaces each token by a `span.bh-emote` holding the
    emote's text. A message is the flat sequence of its leaves in document order. */
module Rewriter {
  import opened Wrappers
  import opened EmoteMap

  /** A leaf of a message: a text node, or one of our `span.bh-emote` elements. */
  datatype Node = TextNode(value: string) | EmoteSpan(text: string)

  type Message = seq<Node>

  // ------------------------------------------------------------------
  // Matching a literal alternation, as `RegExp.prototype.exec` does
  // ------------------------------------------------------------------

  /** The alternatives are all non-empty, so every match consumes input. */
  ghost predicate NonEmptyAlts(alts: seq<string>) {
    forall i :: 0 <= i < |alts| ==> alts[i] != []
  }

  /** The first alternative, from index `i` on, that is a prefix of `t`. */
  function FirstKeyFrom(alts: seq<string>, t: string, i: nat): (r: Option<nat>)
    requires i <= |alts|
    ensures r.Some? ==> i <= r.value < |alts| && alts[r.value] <= t
    decreases |alts| - i
  {
    if i == |alts| then None
    else if alts[i] <= t then Some(i)
    else FirstKeyFrom(alts, t, i + 1)
  }

  /** No alternative between `i` and the one picked (or the end) is a prefix of `t`:
      the pick is the first in order. */
  lemma {:induction false} FirstKeyIsFirst(alts: seq<string>, t: string, i: nat)
    requires i <= |alts|
    ensures var r := FirstKeyFrom(alts, t, i);
      forall j :: i <= j < (if r.Some? then r.value else |alts|) ==> !(alts[j] <= t)
    decreases |alts| - i
  {
    if i < |alts| && !(alts[i] <= t) {
      FirstKeyIsFirst(alts, t, i + 1);
    }
  }

  /** The alternative an alternation picks at the start of `t`: the first one, in
      order, that is a prefix of `t`. */
  function FirstKey(alts: seq<string>, t: string): Option<nat> {
    FirstKeyFrom(alts, t, 0)
  }

  /** Some alternative matches at position `q` of `s`. */
  predicate MatchesAt(alts: seq<string>, s: string, q: nat)
    requires q <= |s|
  {
    FirstKey(alts, s[q..]).Some?
  }

  /** A match: where it starts and which alternative it is. */
  datatype Found = Found(pos: nat, alt: nat)

  /** `exec` from `lastIndex == from`: the first position at or after `from` where some
      alternative matches, with the first alternative in order that matches there. */
  function Exec(alts: seq<string>, s: string, from: nat): (r: Option<Found>)
    requires from <= |s|
    ensures r.Some? ==> from <= r.value.pos && r.value.alt < |alts| && r.value.pos + |alts[r.value.alt]| <= |s|
    decreases |s| - from
  {
    var k := FirstKey(alts, s[from..]);
    if k.Some? then Some(Found(from, k.value))
    else if from == |s| then None
    else Exec(alts, s, from + 1)
  }

  /** What `exec` reports is a match: at the reported position, the alternation picks the
      reported alternative. */
  lemma {:induction false} ExecFinds(alts: seq<string>, s: string, from: nat)
    requires from <= |s|
    ensures var r := Exec(alts, s, from);
      r.Some? ==> FirstKey(alts, s[r.value.pos..]) == Some(r.value.alt)
    decreases |s| - from
  {
    if FirstKey(alts, s[from..]).None? && from < |s| {
      ExecFinds(alts, s, from + 1);
    }
  }

  /** The match `exec` reports is the leftmost one: no alternative matches between
      `from` and the reported position, nor anywhere when there is no match. */
  lemma {:induction false} ExecLeftmost(alts: seq<string>, s: string, from: nat)
    requires from <= |s|
    ensures forall q :: from <= q < (if Exec(alts, s, from).Some? then Exec(alts, s, from).value.pos else |s| + 1) ==>
      !MatchesAt(alts, s, q)
    decreases |s| - from
  {
    if FirstKey(alts, s[from..]).None? && from < |s| {
      ExecLeftmost(alts, s, from + 1);
    }
  }

  /** `test` after resetting `lastIndex`: some alternative occurs in `s`. */
  predicate Test(alts: seq<string>, s: string) {
    Exec(alts, s, 0).Some?
  }

  /** An alternative that is a prefix means the alternation picks something. */
  lemma PrefixGivesKey(alts: seq<string>, t: string, j: nat)
    requires j < |alts| && alts[j] <= t
    ensures FirstKey(alts, t).Some?
  {
    FirstKeyIsFirst(alts, t, 0);
  }

  /** A match anywhere makes `test` succeed. */
  lemma MatchGivesTest(alts: seq<string>, s: string, q: nat)
    requires q <= |s| && MatchesAt(alts, s, q)
    ensures Test(alts, s)
  {
    ExecLeftmost(alts, s, 0);
  }

  // ------------------------------------------------------------------
  // Splitting a text into plain segments and tokens
  // ------------------------------------------------------------------

  /** A segment of a rewritten text: plain text, or a matched token. */
  datatype Piece = Plain(text: string) | Token(key: string)

  /** The plain segment before a match at `pos`, emitted only when `pos > last`. */
  function Gap(s: string, last: nat, pos: nat): seq<Piece>
    requires last <= pos <= |s|
  {
    if pos > last then [Plain(s[last..pos])] else []
  }

  /** The segments the `exec` loop produces from position `last` on. */
  function Pieces(alts: seq<string>, s: string, last: nat): seq<Piece>
    requires last <= |s| && NonEmptyAlts(alts)
    decreases |s| - last
  {
    match Exec(alts, s, last)
    case None => if last < |s| then [Plain(s[last..])] else []
    case Some(f) =>
      var k := alts[f.alt];
      Gap(s, last, f.pos) + [Token(k)] + Pieces(alts, s, f.pos + |k|)
  }

  /** The segments read back as text: plain text as is, a token as the token. */
  function Join(ps: seq<Piece>): string {
    if ps == [] then [] else (if ps[0].Plain? then ps[0].text else ps[0].key) + Join(ps[1..])
  }

  /** The text of an emote span: `emoteMap[tok] || tok`. */
  function Display(m: TokenMap, tok: string): string {
    if m.Get(tok) != "" then m.Get(tok) else tok
  }

  /** The text of the span for each token, as `Display` reads it from the map. */
  function Show(m: TokenMap): string -> string {
    tok => Display(m, tok)
  }

  /** The node a segment becomes: a text node, or a span showing the emote. */
  function NodeOf(show: string -> string, p: Piece): Node {
    if p.Plain? then TextNode(p.text) else EmoteSpan(show(p.key))
  }

  /** The nodes of the document fragment built from the segments. */
  function Fragment(show: string -> string, ps: seq<Piece>): seq<Node> {
    if ps == [] then [] else [NodeOf(show, ps[0])] + Fragment(show, ps[1..])
  }

  /** `Fragment` element by element. */
  lemma {:induction false} FragmentAt(show: string -> string, ps: seq<Piece>)
    ensures |Fragment(show, ps)| == |ps|
    ensures forall i :: 0 <= i < |ps| ==> Fragment(show, ps)[i] == NodeOf(show, ps[i])
  {
    if ps != [] {
      FragmentAt(show, ps[1..]);
    }
  }

  lemma {:induction false} FragmentAppend(show: string -> string, a: seq<Piece>, b: seq<Piece>)
    ensures Fragment(show, a + b) == Fragment(show, a) + Fragment(show, b)
  {
    if a == [] {
      assert a + b == b;
    } else {
      assert (a + b)[0] == a[0] && (a + b)[1..] == a[1..] + b;
      FragmentAppend(show, a[1..], b);
    }
  }

  lemma {:induction false} JoinAppend(a: seq<Piece>, b: seq<Piece>)
    ensures Join(a + b) == Join(a) + Join(b)
  {
    if a == [] {
      assert a + b == b;
    } else {
      assert (a + b)[0] == a[0] && (a + b)[1..] == a[1..] + b;
      JoinAppend(a[1..], b);
    }
  }

  /** The match found by `exec` lies inside the text and reads as its alternative. */
  lemma MatchInText(alts: seq<string>, s: string, last: nat)
    requires last <= |s| && Exec(alts, s, last).Some?
    ensures var f := Exec(alts, s, last).value;
      f.alt < |alts| && f.pos + |alts[f.alt]| <= |s| && s[f.pos..f.pos + |alts[f.alt]|] == alts[f.alt]
  {
    var f := Exec(alts, s, last).value;
    ExecFinds(alts, s, last);
    assert alts[f.alt] <= s[f.pos..];
  }

  lemma JoinGap(s: string, last: nat, pos: nat)
    requires last <= pos <= |s|
    ensures Join(Gap(s, last, pos)) == s[last..pos]
  {
    if pos > last {
      assert Join(Gap(s, last, pos)) == s[last..pos] + [];
    }
  }

  lemma JoinThree(g: seq<Piece>, k: string, rest: seq<Piece>)
    ensures Join(g + [Token(k)] + rest) == Join(g) + k + Join(rest)
  {
    JoinAppend(g + [Token(k)], rest);
    JoinAppend(g, [Token(k)]);
    assert Join([Token(k)]) == k + [];
  }

  lemma SliceThree(s: string, a: nat, b: nat, c: nat)
    requires a <= b <= c <= |s|
    ensures s[a..] == s[a..b] + s[b..c] + s[c..]
  {
  }

  /** Putting the plain segments and the matched tokens back together, in order, gives
      the original text exactly. */
  lemma {:induction false} Reassembly(alts: seq<string>, s: string, last: nat)
    requires last <= |s| && NonEmptyAlts(alts)
    ensures Join(Pieces(alts, s, last)) == s[last..]
    decreases |s| - last
  {
    var r := Exec(alts, s, last);
    if r.None? {
      if last < |s| {
        assert Join([Plain(s[last..])]) == s[last..] + [];
      }
    } else {
      var f := r.value;
      var k := alts[f.alt];
      var stop := f.pos + |k|;
      MatchInText(alts, s, last);
      Reassembly(alts, s, stop);
      JoinGap(s, last, f.pos);
      JoinThree(Gap(s, last, f.pos), k, Pieces(alts, s, stop));
      SliceThree(s, last, f.pos, stop);
    }
  }

  /** A segment is well formed: plain text is non-empty, a token is an alternative. */
  predicate PieceOk(alts: seq<string>, p: Piece) {
    (p.Plain? ==> p.text != []) && (p.Token? ==> p.key in alts)
  }

  ghost predicate Shaped(alts: seq<string>, ps: seq<Piece>) {
    forall i :: 0 <= i < |ps| ==> PieceOk(alts, ps[i])
  }

  lemma ShapedAppend(alts: seq<string>, a: seq<Piece>, b: seq<Piece>)
    requires Shaped(alts, a) && Shaped(alts, b)
    ensures Shaped(alts, a + b)
  {
    forall i | 0 <= i < |a + b| ensures PieceOk(alts, (a + b)[i]) {
      if i < |a| {
        assert (a + b)[i] == a[i];
      } else {
        assert (a + b)[i] == b[i - |a|];
      }
    }
  }

  lemma ShapedStep(alts: seq<string>, g: seq<Piece>, k: string, rest: seq<Piece>)
    requires Shaped(alts, g) && k in alts && Shaped(alts, rest)
    ensures Shaped(alts, g + [Token(k)] + rest)
  {
    assert PieceOk(alts, Token(k));
    ShapedAppend(alts, g, [Token(k)]);
    ShapedAppend(alts, g + [Token(k)], rest);
  }

  /** Plain segments are never empty, and every token is one of the alternatives. */
  lemma {:induction false} PiecesShape(alts: seq<string>, s: string, last: nat)
    requires last <= |s| && NonEmptyAlts(alts)
    ensures Shaped(alts, Pieces(alts, s, last))
    decreases |s| - last
  {
    var r := Exec(alts, s, last);
    if r.None? {
      assert last < |s| ==> PieceOk(alts, Plain(s[last..]));
    } else {
      var f := r.value;
      var k := alts[f.alt];
      PiecesShape(alts, s, f.pos + |k|);
      assert f.pos > last ==> PieceOk(alts, Plain(s[last..f.pos]));
      ShapedStep(alts, Gap(s, last, f.pos), k, Pieces(alts, s, f.pos + |k|));
    }
  }

  /** A text in which some alternative occurs yields at least one emote span. */
  lemma FragmentHasSpan(show: string -> string, alts: seq<string>, s: string)
    requires NonEmptyAlts(alts) && Test(alts, s)
    ensures exists i :: 0 <= i < |Fragment(show, Pieces(alts, s, 0))| && Fragment(show, Pieces(alts, s, 0))[i].EmoteSpan?
  {
    var f := Exec(alts, s, 0).value;
    var k := alts[f.alt];
    var g := Gap(s, 0, f.pos);
    var ps := Pieces(alts, s, 0);
    assert ps == g + [Token(k)] + Pieces(alts, s, f.pos + |k|);
    assert ps[|g|] == Token(k);
    FragmentAt(show, ps);
  }

  /** One turn of the `exec` loop on the fragment: the gap's text node (if any), the
      span, then the fragment of the rest. */
  lemma FragmentStep(show: string -> string, alts: seq<string>, s: string, last: nat)
    requires last <= |s| && NonEmptyAlts(alts) && Exec(alts, s, last).Some?
    ensures var f := Exec(alts, s, last).value;
      Fragment(show, Pieces(alts, s, last))
        == Fragment(show, Gap(s, last, f.pos)) + [EmoteSpan(show(alts[f.alt]))] + Fragment(show, Pieces(alts, s, f.pos + |alts[f.alt]|))
  {
    var f := Exec(alts, s, last).value;
    var k := alts[f.alt];
    var rest := Pieces(alts, s, f.pos + |k|);
    assert Pieces(alts, s, last) == Gap(s, last, f.pos) + [Token(k)] + rest;
    FragmentOfThree(show, Gap(s, last, f.pos), k, rest);
  }

  /** The fragment of a token between two runs of segments. */
  lemma FragmentOfThree(show: string -> string, g: seq<Piece>, k: string, rest: seq<Piece>)
    ensures Fragment(show, g + [Token(k)] + rest) == Fragment(show, g) + [EmoteSpan(show(k))] + Fragment(show, rest)
  {
    FragmentAppend(show, g + [Token(k)], rest);
    FragmentAppend(show, g, [Token(k)]);
    assert Fragment(show, [Token(k)]) == [EmoteSpan(show(k))] + [];
  }

  lemma FragmentGap(show: string -> string, s: string, last: nat, pos: nat)
    requires last <= pos <= |s|
    ensures Fragment(show, Gap(s, last, pos)) == GapNode(s, last, pos)
  {
    if pos > last {
      assert Fragment(show, Gap(s, last, pos)) == [TextNode(s[last..pos])] + [];
    }
  }

  lemma Regroup<T>(front: seq<T>, x: seq<T>, a: seq<T>, b: seq<T>, rest: seq<T>, whole: seq<T>)
    requires x == a + b + rest && front + x == whole
    ensures (front + a + b) + rest == whole
  {
  }

  /** The text node `exec`'s loop emits before a match at `pos`, if `pos > last`. */
  function GapNode(s: string, last: nat, pos: nat): seq<Node>
    requires last <= pos <= |s|
  {
    if pos > last then [TextNode(s[last..pos])] else []
  }

  /** One turn of the `exec` loop keeps the fragment built so far, followed by the
      fragment still to come, equal to the whole fragment. */
  lemma RewriteStep(show: string -> string, alts: seq<string>, s: string, last: nat, frag: seq<Node>, whole: seq<Node>)
    requires last <= |s| && NonEmptyAlts(alts) && Exec(alts, s, last).Some?
    requires frag + Fragment(show, Pieces(alts, s, last)) == whole
    ensures var f := Exec(alts, s, last).value;
      (frag + GapNode(s, last, f.pos) + [EmoteSpan(show(alts[f.alt]))])
        + Fragment(show, Pieces(alts, s, f.pos + |alts[f.alt]|)) == whole
  {
    var f := Exec(alts, s, last).value;
    var k := alts[f.alt];
    FragmentStep(show, alts, s, last);
    FragmentGap(show, s, last, f.pos);
    Regroup(frag, Fragment(show, Pieces(alts, s, last)), GapNode(s, last, f.pos), [EmoteSpan(show(k))],
            Fragment(show, Pieces(alts, s, f.pos + |k|)), whole);
  }

  /** The segments turned into nodes: the plain segments become text nodes, the tokens
      become spans, in the same order. */
  method Rewrite(show: string -> string, alts: seq<string>, original: string) returns (frag: seq<Node>)
    requires NonEmptyAlts(alts)
    ensures frag == Fragment(show, Pieces(alts, original, 0))
  {
    frag := [];
    var last := 0;
    var found := Exec(alts, original, 0);
    ghost var whole := Fragment(show, Pieces(alts, original, 0));
    while found.Some?
      invariant last <= |original|
      invariant found == Exec(alts, original, last)
      invariant frag + Fragment(show, Pieces(alts, original, last)) == whole
      decreases |original| - last
    {
      frag, last := EmitMatch(show, alts, original, last, frag, whole);
      found := Exec(alts, original, last);
    }
    FragmentTail(show, alts, original, last, frag, whole);
    if last < |original| {
      frag := frag + [TextNode(original[last..])];
    }
  }

  /** The body of the `exec` loop for the match it found: the text before the match (if
      any) as a text node, then the span, and `lastIndex` moved past the token. */
  method EmitMatch(show: string -> string, alts: seq<string>, original: string, last: nat,
                   frag: seq<Node>, ghost whole: seq<Node>)
      returns (frag': seq<Node>, last': nat)
    requires last <= |original| && NonEmptyAlts(alts) && Exec(alts, original, last).Some?
    requires frag + Fragment(show, Pieces(alts, original, last)) == whole
    ensures last < last' <= |original|
    ensures frag' + Fragment(show, Pieces(alts, original, last')) == whole
  {
    var found := Exec(alts, original, last);
    RewriteStep(show, alts, original, last, frag, whole);
    var start := found.value.pos;
    var tok := alts[found.value.alt];
    frag' := frag + GapNode(original, last, start) + [EmoteSpan(show(tok))];
    last' := start + |tok|;
  }

  /** After the last match, the text after it (if any) becomes the final text node. */
  lemma FragmentTail(show: string -> string, alts: seq<string>, s: string, last: nat, frag: seq<Node>, whole: seq<Node>)
    requires last <= |s| && NonEmptyAlts(alts) && Exec(alts, s, last).None?
    requires frag + Fragment(show, Pieces(alts, s, last)) == whole
    ensures whole == if last < |s| then frag + [TextNode(s[last..])] else frag
  {
    if last < |s| {
      assert Fragment(show, [Plain(s[last..])]) == [TextNode(s[last..])] + [];
    } else {
      assert frag + [] == frag;
    }
  }

  // ------------------------------------------------------------------
  // Messages
  // ------------------------------------------------------------------

  /** `msg.querySelector('.bh-emote')` found something. */
  predicate HasSpan(msg: Message) {
    exists n :: n in msg && n.EmoteSpan?
  }

  /** A text node the tree walker keeps: non-empty and matching. */
  predicate IsTarget(alts: seq<string>, n: Node) {
    n.TextNode? && n.value != [] && Test(alts, n.value)
  }

  /** What a node becomes: its fragment if it is a target, otherwise itself. */
  function RewriteNode(m: TokenMap, alts: seq<string>, n: Node): seq<Node>
    requires NonEmptyAlts(alts)
  {
    if IsTarget(alts, n) then Fragment(Show(m), Pieces(alts, n.value, 0)) else [n]
  }

  function RewriteNodes(m: TokenMap, alts: seq<string>, msg: Message): Message
    requires NonEmptyAlts(alts)
  {
    if msg == [] then [] else RewriteNode(m, alts, msg[0]) + RewriteNodes(m, alts, msg[1..])
  }

  lemma {:induction false} RewriteNodesAppend(m: TokenMap, alts: seq<string>, a: Message, b: Message)
    requires NonEmptyAlts(alts)
    ensures RewriteNodes(m, alts, a + b) == RewriteNodes(m, alts, a) + RewriteNodes(m, alts, b)
  {
    if a == [] {
      assert a + b == b;
    } else {
      assert (a + b)[0] == a[0] && (a + b)[1..] == a[1..] + b;
      RewriteNodesAppend(m, alts, a[1..], b);
    }
  }

  /** `transformMessage` as a function of the message: unchanged when it already holds
      a span or there is no regex, otherwise every target text node replaced by its
      fragment. */
  function Transformed(m: TokenMap, regex: Option<Regex>, msg: Message): Message
    requires regex.Some? ==> NonEmptyAlts(Alternatives(regex.value))
  {
    if HasSpan(msg) || regex.None? then msg else RewriteNodes(m, Alternatives(regex.value), msg)
  }

  /** A rewrite that changes anything leaves a span behind. */
  lemma {:induction false} RewriteLeavesSpan(m: TokenMap, alts: seq<string>, msg: Message)
    requires NonEmptyAlts(alts)
    ensures RewriteNodes(m, alts, msg) == msg || HasSpan(RewriteNodes(m, alts, msg))
  {
    if msg != [] {
      var out := RewriteNodes(m, alts, msg);
      RewriteLeavesSpan(m, alts, msg[1..]);
      if IsTarget(alts, msg[0]) {
        FragmentHasSpan(Show(m), alts, msg[0].value);
        var frag := RewriteNode(m, alts, msg[0]);
        var i :| 0 <= i < |frag| && frag[i].EmoteSpan?;
        assert out[i] == frag[i];
      } else if HasSpan(RewriteNodes(m, alts, msg[1..])) {
        var rest := RewriteNodes(m, alts, msg[1..]);
        var n :| n in rest && n.EmoteSpan?;
        assert n in out;
      } else {
        assert msg == [msg[0]] + msg[1..];
      }
    }
  }

  /** A second pass over a rewritten message changes nothing. */
  lemma TransformIdempotent(m: TokenMap, regex: Option<Regex>, msg: Message)
    requires regex.Some? ==> NonEmptyAlts(Alternatives(regex.value))
    ensures Transformed(m, regex, Transformed(m, regex, msg)) == Transformed(m, regex, msg)
  {
    if !HasSpan(msg) && regex.Some? {
      RewriteLeavesSpan(m, Alternatives(regex.value), msg);
    }
  }

  /** A text node in which no alternative occurs is kept as it is. */
  lemma UnmatchedNodeKept(m: TokenMap, alts: seq<string>, n: Node)
    requires NonEmptyAlts(alts) && n.TextNode? && !Test(alts, n.value)
    ensures RewriteNode(m, alts, n) == [n]
  {
  }

  /** The text a message shows (`textContent`). */
  function TextContent(msg: Message): string {
    if msg == [] then [] else (if msg[0].TextNode? then msg[0].value else msg[0].text) + TextContent(msg[1..])
  }

  /** An occurrence inside a part of a text is an occurrence in the whole text. */
  lemma TestInfix(alts: seq<string>, a: string, v: string, b: string)
    ensures Test(alts, v) ==> Test(alts, a + v + b)
  {
    if Test(alts, v) {
      var f := Exec(alts, v, 0).value;
      MatchInText(alts, v, 0);
      var k := alts[f.alt];
      var s := a + v + b;
      var q := |a| + f.pos;
      assert s[q..q + |k|] == v[f.pos..f.pos + |k|];
      assert k <= s[q..];
      PrefixGivesKey(alts, s[q..], f.alt);
      MatchGivesTest(alts, s, q);
    }
  }

  /** If the whole text of a message has no occurrence, no text node has one. */
  lemma {:induction false} NoTargetsWithoutMatch(alts: seq<string>, msg: Message)
    requires !Test(alts, TextContent(msg))
    ensures forall n :: n in msg ==> !IsTarget(alts, n)
  {
    if msg != [] {
      var head := if msg[0].TextNode? then msg[0].value else msg[0].text;
      var rest := TextContent(msg[1..]);
      TestInfix(alts, [], head, rest);
      TestInfix(alts, head, rest, []);
      assert [] + head + rest == TextContent(msg);
      assert head + rest + [] == TextContent(msg);
      NoTargetsWithoutMatch(alts, msg[1..]);
    }
  }

  lemma {:induction false} RewriteWithoutTargets(m: TokenMap, alts: seq<string>, msg: Message)
    requires NonEmptyAlts(alts)
    requires forall n :: n in msg ==> !IsTarget(alts, n)
    ensures RewriteNodes(m, alts, msg) == msg
  {
    if msg != [] {
      assert msg[0] in msg;
      RewriteWithoutTargets(m, alts, msg[1..]);
      assert msg == [msg[0]] + msg[1..];
    }
  }

  /** `rescanExisting` on one message: transform it only when it holds no span and its
      whole text matches. */
  function Rescanned(m: TokenMap, regex: Option<Regex>, msg: Message): Message
    requires regex.Some? ==> NonEmptyAlts(Alternatives(regex.value))
  {
    if HasSpan(msg) then msg
    else if regex.Some? && Test(Alternatives(regex.value), TextContent(msg)) then Transformed(m, regex, msg)
    else msg
  }

  /** The whole-text test of `rescanExisting` only skips messages that the transform
      would leave unchanged anyway: rescanning a message equals transforming it. */
  lemma RescanAgreesWithTransform(m: TokenMap, regex: Option<Regex>, msg: Message)
    requires regex.Some? ==> NonEmptyAlts(Alternatives(regex.value))
    ensures Rescanned(m, regex, msg) == Transformed(m, regex, msg)
  {
    if !HasSpan(msg) && regex.Some? && !Test(Alternatives(regex.value), TextContent(msg)) {
      NoTargetsWithoutMatch(Alternatives(regex.value), msg);
      RewriteWithoutTargets(m, Alternatives(regex.value), msg);
    }
  }

  /** The regex of a map whose keys are tokens has only non-empty alternatives. */
  lemma TokenAltsNonEmpty(m: TokenMap)
    requires TokensOnly(m)
    ensures BuildRegex(m).Some? ==> NonEmptyAlts(Alternatives(BuildRegex(m).value))
  {
    if BuildRegex(m).Some? {
      forall i | 0 <= i < |m.keys| ensures m.keys[i] != [] {
        assert m.keys[i] in m.keys;
      }
    }
  }

  // ------------------------------------------------------------------
  // The replacer
  // ------------------------------------------------------------------

  class Replacer {
    var emoteMap: TokenMap
    var tokenRegex: Option<Regex>
    var isProcessing: bool
    /** The chat messages the message selectors find in the document. */
    var chat: seq<Message>

    /** The regex never has an empty alternative (its keys are tokens). */
    ghost predicate Valid()
      reads this
    {
      tokenRegex.Some? ==> NonEmptyAlts(Alternatives(tokenRegex.value))
    }

    /** `emoteMap = getMap() || {}` and the regex built from its keys; `storeMap` is what
        the store holds (None before its first refresh). */
    constructor (storeMap: Option<TokenMap>, messages: seq<Message>)
      requires storeMap.Some? ==> TokensOnly(storeMap.value)
      ensures Valid()
      ensures emoteMap == storeMap.GetOr(EmptyMap) && tokenRegex == BuildRegex(emoteMap)
      ensures !isProcessing && chat == messages
    {
      emoteMap := storeMap.GetOr(EmptyMap);
      tokenRegex := BuildRegex(storeMap.GetOr(EmptyMap));
      isProcessing := false;
      chat := messages;
      TokenAltsNonEmpty(storeMap.GetOr(EmptyMap));
    }

    /** `transformMessage`: the tree-walker pass collects the matching text nodes, then
        each of them is replaced by its fragment. */
    method TransformMessage(msg: Message) returns (out: Message)
      requires Valid()
      ensures out == Transformed(emoteMap, tokenRegex, msg)
    {
      if HasSpan(msg) || tokenRegex.None? {
        return msg;
      }
      var alts := Alternatives(tokenRegex.value);
      var targets: seq<nat> := [];
      var i := 0;
      while i < |msg|
        invariant 0 <= i <= |msg|
        invariant forall j: nat :: j in targets <==> j < i && IsTarget(alts, msg[j])
      {
        var n := msg[i];
        if n.TextNode? && n.value != [] && Test(alts, n.value) {
          targets := targets + [i];
        }
        i := i + 1;
      }
      out := [];
      i := 0;
      while i < |msg|
        invariant 0 <= i <= |msg|
        invariant out == RewriteNodes(emoteMap, alts, msg[..i])
      {
        assert msg[..i + 1] == msg[..i] + [msg[i]];
        RewriteNodesAppend(emoteMap, alts, msg[..i], [msg[i]]);
        assert RewriteNodes(emoteMap, alts, [msg[i]]) == RewriteNode(emoteMap, alts, msg[i]) + [];
        if i in targets {
          var frag := Rewrite(Show(emoteMap), alts, msg[i].value);
          out := out + frag;
        } else {
          out := out + [msg[i]];
        }
        i := i + 1;
      }
      assert msg[..|msg|] == msg;
    }

    /** `rescanExisting`: every message without a span whose text matches is transformed. */
    method RescanExisting()
      requires Valid()
      modifies this`chat
      ensures |chat| == |old(chat)|
      ensures forall i :: 0 <= i < |chat| ==> chat[i] == Rescanned(emoteMap, tokenRegex, old(chat)[i])
    {
      var i := 0;
      while i < |chat|
        invariant 0 <= i <= |chat| == |old(chat)|
        invariant forall j :: 0 <= j < i ==> chat[j] == Rescanned(emoteMap, tokenRegex, old(chat)[j])
        invariant forall j :: i <= j < |chat| ==> chat[j] == old(chat)[j]
      {
        var msg := chat[i];
        if !HasSpan(msg) && tokenRegex.Some? && Test(Alternatives(tokenRegex.value), TextContent(msg)) {
          var out := TransformMessage(msg);
          chat := chat[i := out];
        }
        i := i + 1;
      }
    }

    /** `replaceEmotes`: returns at once while a pass is running; otherwise transforms
        every message and always clears the flag on the way out. */
    method ReplaceEmotes()
      requires Valid()
      modifies this`chat, this`isProcessing
      ensures old(isProcessing) ==> isProcessing && chat == old(chat)
      ensures !old(isProcessing) ==> (
        && !isProcessing
        && |chat| == |old(chat)|
        && forall i :: 0 <= i < |chat| ==> chat[i] == Transformed(emoteMap, tokenRegex, old(chat)[i]))
    {
      if isProcessing {
        return;
      }
      isProcessing := true;
      var i := 0;
      while i < |chat|
        invariant 0 <= i <= |chat| == |old(chat)|
        invariant forall j :: 0 <= j < i ==> chat[j] == Transformed(emoteMap, tokenRegex, old(chat)[j])
        invariant forall j :: i <= j < |chat| ==> chat[j] == old(chat)[j]
      {
        var out := TransformMessage(chat[i]);
        chat := chat[i := out];
        i := i + 1;
      }
      isProcessing := false;
    }

    /** The `onUpdate` callback: adopt the store's new map and regex, then rescan. */
    method OnStoreUpdate(newMap: TokenMap, newRegex: Option<Regex>)
      requires TokensOnly(newMap) && newRegex == BuildRegex(newMap)
      modifies this`emoteMap, this`tokenRegex, this`chat
      ensures Valid() && emoteMap == newMap && tokenRegex == newRegex
      ensures |chat| == |old(chat)|
      ensures forall i :: 0 <= i < |chat| ==> chat[i] == Transformed(newMap, newRegex, old(chat)[i])
    {
      TokenAltsNonEmpty(newMap);
      emoteMap, tokenRegex := newMap, newRegex;
      RescanExisting();
      forall i | 0 <= i < |chat|
        ensures chat[i] == Transformed(newMap, newRegex, old(chat)[i])
      {
        RescanAgreesWithTransform(newMap, newRegex, old(chat)[i]);
      }
    }
  }
}
