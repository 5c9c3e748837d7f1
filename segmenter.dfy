/** The reply segmenter of `formatAIMessage` (handlers/minecraftEvents.js):
    a reply longer than 80 characters is cut at single spaces into chunks that
    are packed greedily up to 75 characters. This module holds the fixed
    decoration lists, the specification of the packing loop, the loop itself,
    and what is proved about the chunks. The per-user pending map that the
    chunks after the first are stored in belongs to the bridge state (see
    `Bridge.ChatBridge.FormatAIMessage`). */
module Segmenter {
  import opened Text

  /** A chunk may grow to this many characters before the next word opens a
      new one. */
  const MaxChunk := 75

  /** Replies longer than this are split. */
  const SplitThreshold := 80

  /** The ten sender tags, one picked at random per reply. */
  const Prefixes: seq<string> :=
    ["✦ AI", "⚡ AI", "☆ AI", "◆ AI", "▲ AI", "♦ AI", "◈ AI", "✨ AI", "⭐ AI", "🔮 AI"]

  /** The ten trailing ornaments of an unsplit reply. */
  const Decorations: seq<string> :=
    ["✦", "⚡", "☆", "◆", "▲", "♦", "◈", "✨", "⭐", "🔮"]

  // ---------------------------------------------------------------------------
  // The packing loop, as a specification
  // ---------------------------------------------------------------------------

  /** The loop's two variables: the chunk being built (each word followed by
      a space) and the chunks finished so far. */
  datatype Packing = Packing(current: string, messages: seq<string>)

  /** One iteration: if the word would push the current chunk past 75
      characters and the chunk is non-empty, the trimmed chunk is finished;
      then the word and a space are appended. */
  function Step(p: Packing, word: string): Packing {
    var flushed :=
      if |p.current + word| > MaxChunk && p.current != "" then Packing("", p.messages + [Trim(p.current)])
      else p;
    Packing(flushed.current + word + " ", flushed.messages)
  }

  /** The loop state after the given words. */
  function Pack(words: seq<string>): Packing {
    if words == [] then Packing("", [])
    else Step(Pack(words[..|words| - 1]), words[|words| - 1])
  }

  /** The chunks of a reply: the finished chunks, plus the last one unless it
      trims to nothing. */
  function Chunks(response: string): seq<string> {
    var p := Pack(Split(response));
    if Trim(p.current) != "" then p.messages + [Trim(p.current)] else p.messages
  }

  /** What `${messages[0]}` renders as: the first chunk, or "undefined" when
      there is none. */
  function FirstOrUndefined(chunks: seq<string>): string {
    if chunks == [] then "undefined" else chunks[0]
  }

  /** The packing loop of `formatAIMessage`, over the words of
      `response.split(' ')`. */
  method SplitReply(response: string) returns (messages: seq<string>)
    ensures messages == Chunks(response)
  {
    var words := Split(response);
    var currentMessage := "";
    messages := [];
    for i := 0 to |words|
      invariant Packing(currentMessage, messages) == Pack(words[..i])
    {
      var word := words[i];
      if |currentMessage + word| > MaxChunk {
        if currentMessage != "" {
          messages := messages + [Trim(currentMessage)];
          currentMessage := "";
        }
      }
      currentMessage := currentMessage + word + " ";
      assert words[..i + 1][..i] == words[..i];
    }
    assert words[..|words|] == words;
    if Trim(currentMessage) != "" {
      messages := messages + [Trim(currentMessage)];
    }
  }

  // ---------------------------------------------------------------------------
  // What the chunks satisfy
  // ---------------------------------------------------------------------------

  /** A word of a reply whose words are separated by single spaces: free of
      spaces, and with no white space at either end (a line break inside the
      word is allowed). */
  predicate PlainWord(w: string) {
    Clean(w) && ' ' !in w
  }

  predicate PlainWords(words: seq<string>) {
    forall i :: 0 <= i < |words| ==> PlainWord(words[i])
  }

  /** A chunk respects the limit: at most 75 characters, or a single word
      (no space) that is longer on its own. */
  predicate Fits(c: string) {
    |c| <= MaxChunk || ' ' !in c
  }

  predicate GoodChunk(c: string) {
    Clean(c) && Fits(c)
  }

  /** What holds of the loop state after a prefix of plain words: the current
      chunk is a good chunk followed by one space, the finished chunks are
      good, and all of them joined by spaces are the words joined by spaces. */
  predicate PackInv(words: seq<string>, p: Packing) {
    if words == [] then p == Packing("", [])
    else
      && |p.current| >= 1 && p.current[|p.current| - 1] == ' '
      && var last := p.current[..|p.current| - 1];
      && GoodChunk(last)
      && (forall k :: 0 <= k < |p.messages| ==> GoodChunk(p.messages[k]))
      && Join(p.messages + [last]) == Join(words)
  }

  lemma {:induction false} PackKeepsInvariant(words: seq<string>)
    requires PlainWords(words)
    ensures PackInv(words, Pack(words))
    decreases |words|
  {
    if words != [] {
      var front, w := words[..|words| - 1], words[|words| - 1];
      assert words == front + [w];
      assert PlainWords(front) && PlainWord(w);
      PackKeepsInvariant(front);
      StepKeepsInvariant(front, w, Pack(front));
    }
  }

  /** One iteration of the loop keeps `PackInv`. */
  lemma StepKeepsInvariant(front: seq<string>, w: string, p: Packing)
    requires PackInv(front, p) && PlainWord(w)
    ensures PackInv(front + [w], Step(p, w))
  {
    if front == [] {
      assert Step(p, w) == Packing(w + " ", []);
      assert (w + " ")[..|w|] == w;
      assert front + [w] == [w];
    } else {
      var last := p.current[..|p.current| - 1];
      assert p.current == last + " ";
      JoinSnoc(front, w);
      if |p.current + w| > MaxChunk {
        FlushKeepsInvariant(front, w, p, last);
      } else {
        GrowKeepsInvariant(front, w, p, last);
      }
    }
  }

  /** The word does not fit: the current chunk is finished and the word
      opens the next one. */
  lemma FlushKeepsInvariant(front: seq<string>, w: string, p: Packing, last: string)
    requires PackInv(front, p) && PlainWord(w) && front != []
    requires p.current == last + " " && |p.current + w| > MaxChunk
    requires Join(front + [w]) == Join(front) + " " + w
    ensures PackInv(front + [w], Step(p, w))
  {
    assert last == p.current[..|p.current| - 1];
    FlushStep(p, w, last);
    var done := p.messages + [last];
    assert (w + " ")[..|w|] == w;
    PlainWordIsGood(w);
    JoinSnoc(done, w);
  }

  /** The step that closes the open chunk. */
  lemma FlushStep(p: Packing, w: string, last: string)
    requires Clean(last) && p.current == last + " " && |p.current + w| > MaxChunk
    ensures Step(p, w) == Packing(w + " ", p.messages + [last])
  {
    TrimSpaced(last);
  }

  /** A plain word makes a good chunk on its own. */
  lemma PlainWordIsGood(w: string)
    requires PlainWord(w)
    ensures GoodChunk(w)
  {
  }

  /** The word fits: it is appended to the current chunk. */
  lemma GrowKeepsInvariant(front: seq<string>, w: string, p: Packing, last: string)
    requires PackInv(front, p) && PlainWord(w) && front != []
    requires p.current == last + " " && |p.current + w| <= MaxChunk
    requires Join(front + [w]) == Join(front) + " " + w
    ensures PackInv(front + [w], Step(p, w))
  {
    assert last == p.current[..|p.current| - 1];
    var grown := last + " " + w;
    var p' := Step(p, w);
    assert p' == Packing(grown + " ", p.messages);
    assert p'.current[..|p'.current| - 1] == grown;
    assert GoodChunk(grown) by {
      assert grown[0] == last[0] && grown[|grown| - 1] == w[|w| - 1];
    }
    JoinGrowLast(p.messages, last, w);
  }

  /** Extending the last of several chunks by a space and a word extends
      their join the same way. */
  lemma JoinGrowLast(chunks: seq<string>, last: string, w: string)
    ensures Join(chunks + [last + " " + w]) == Join(chunks + [last]) + " " + w
  {
    if chunks == [] {
      assert [] + [last + " " + w] == [last + " " + w];
      assert [] + [last] == [last];
    } else {
      JoinSnoc(chunks, last);
      JoinSnoc(chunks, last + " " + w);
    }
  }

  /** For a reply whose words are separated by single spaces there is at
      least one chunk, every chunk is non-empty and at most 75 characters
      unless it is one word longer than that, and the chunks joined by single
      spaces give the reply back: no word is split or dropped. */
  lemma ChunksRebuildReply(response: string)
    requires PlainWords(Split(response))
    ensures |Chunks(response)| >= 1
    ensures forall k :: 0 <= k < |Chunks(response)| ==> Chunks(response)[k] != "" && Fits(Chunks(response)[k])
    ensures Join(Chunks(response)) == response
  {
    var words := Split(response);
    PackKeepsInvariant(words);
    var cs := FinishedChunks(words, Pack(words));
    assert Chunks(response) == cs;
    JoinSplit(response);
  }

  /** The chunks are trimmed, so white space at the end of a word that closes
      a chunk is lost: a short word ending in a line break, followed by a word
      too long to join it, comes back without the line break. */
  lemma EdgeWhiteSpaceDropped(w: string, x: string)
    requires PlainWord(w) && PlainWord(x) && |x| > MaxChunk
    ensures Chunks(w + "\n " + x) == [w, x]
    ensures Join(Chunks(w + "\n " + x)) != w + "\n " + x
  {
    var response := w + "\n " + x;
    assert response == (w + "\n") + " " + x;
    ChunksOfLinePair(w, x);
    assert Join([w, x]) == w + " " + x;
    assert |Join([w, x])| < |response|;
  }

  lemma ChunksOfLinePair(w: string, x: string)
    requires PlainWord(w) && PlainWord(x) && |x| > MaxChunk
    ensures Chunks((w + "\n") + " " + x) == [w, x]
  {
    SplitPair(w + "\n", x);
    PackPair(w, x);
    TrimSpaced(x);
  }

  /** The two ' '-free pieces around a single space are the words. */
  lemma SplitPair(u: string, v: string)
    requires ' ' !in u && ' ' !in v
    ensures Split(u + " " + v) == [u, v]
  {
    assert Join([u, v]) == u + " " + v;
    SplitJoin([u, v]);
  }

  /** The loop over a short word ending in a line break and a long word:
      the first chunk is closed, trimmed, when the long word arrives. */
  lemma PackPair(w: string, x: string)
    requires Clean(w) && |x| > MaxChunk
    ensures Pack([w + "\n", x]) == Packing(x + " ", [w])
  {
    var w' := w + "\n";
    assert [w', x][..1] == [w'];
    assert Pack([w']) == Packing(w' + " ", []);
    TrimLineBreak(w);
  }

  lemma TrimLineBreak(w: string)
    requires Clean(w)
    ensures Trim(w + "\n" + " ") == w
  {
    var w' := w + "\n";
    assert TrimStart(w' + " ") == w' + " ";
    assert (w' + " ")[..|w'|] == w';
    assert TrimEnd(w' + " ") == TrimEnd(w');
    assert w'[..|w|] == w;
    assert TrimEnd(w') == TrimEnd(w) == w;
  }

  /** After the last word the open chunk trims to a good chunk, so it is
      kept, and every chunk is good. */
  lemma FinishedChunks(words: seq<string>, p: Packing) returns (cs: seq<string>)
    requires words != [] && PackInv(words, p)
    ensures Trim(p.current) != "" && cs == p.messages + [Trim(p.current)]
    ensures forall k :: 0 <= k < |cs| ==> GoodChunk(cs[k])
    ensures Join(cs) == Join(words)
  {
    var last := p.current[..|p.current| - 1];
    assert p.current == last + " ";
    TrimSpaced(last);
    cs := p.messages + [last];
  }

  /** An empty word (a leading space, or two spaces in a row) still opens
      the chunk with a lone space, which `if (currentMessage)` finds truthy:
      when the next word does not fit, an empty chunk is finished. A reply of
      a space and a word of 75 or more characters has the chunks `""` and
      the word. */
  lemma EmptyWordMakesEmptyChunk(x: string)
    requires PlainWord(x) && |x| >= MaxChunk
    ensures Chunks(" " + x) == ["", x]
  {
    assert " " + x == "" + " " + x;
    SplitPair("", x);
    PackEmptyThenLong(x);
    TrimSpaced(x);
  }

  /** The loop over an empty word and a word of 75 or more characters. */
  lemma PackEmptyThenLong(x: string)
    requires |x| >= MaxChunk
    ensures Pack(["", x]) == Packing(x + " ", [""])
  {
    assert ["", x][..1] == [""];
    assert Pack([""]) == Packing(" ", []);
    LoneSpaceTrims();
  }

  lemma LoneSpaceTrims()
    ensures Trim(" ") == ""
  {
    assert TrimStart(" ") == TrimStart(" "[1..]);
  }

  /** A reply made of one blank word (white space only, no space
      character) packs to no chunk at all, so the line sent reads
      "undefined" after the tag. */
  lemma BlankReplyHasNoChunk(response: string)
    requires ' ' !in response
    requires forall j :: 0 <= j < |response| ==> IsJsSpace(response[j])
    ensures Chunks(response) == []
    ensures FirstOrUndefined(Chunks(response)) == "undefined"
  {
    assert Split(response) == [response];
    assert [response][..0] == [];
    assert Pack([response]) == Step(Packing("", []), response);
    assert "" + response == response;
    var p := Pack([response]);
    assert p == Packing(response + " ", []);
    BlankTrimsAway(response + " ");
  }

  lemma {:induction false} BlankTrimsAway(s: string)
    requires forall j :: 0 <= j < |s| ==> IsJsSpace(s[j])
    ensures Trim(s) == ""
    decreases |s|
  {
    if s != [] {
      BlankTrimsAway(s[1..]);
    }
  }
}
