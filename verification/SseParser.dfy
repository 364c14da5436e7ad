/** The incremental server-sent-events parser (packages/console-core/index.js):
    text arrives in chunks, blocks end at a blank line, and what is left over is
    kept for the next chunk. */
module SseParser {
  import opened Strings

  /** An emitted frame. `data` of the source is `JSON.parse(rawData)` or `rawData` itself. */
  datatype SseFrame = SseFrame(id: string, event: string, rawData: string)

  // ----- Line breaks -----

  predicate StartsWith(s: string, prefix: string) {
    prefix <= s
  }

  /** Length of a line break `\r?\n` at the front of `s`, 0 if there is none. */
  function BreakLen(s: string): (n: nat)
    ensures n <= |s| && n <= 2
  {
    if |s| >= 1 && s[0] == '\n' then 1
    else if |s| >= 2 && s[0] == '\r' && s[1] == '\n' then 2
    else 0
  }

  /** Length of a block separator `\r?\n\r?\n` at the front of `s`, 0 if there is none. */
  function SepLen(s: string): (n: nat)
    ensures n <= |s| && (n == 0 || 2 <= n <= 4)
  {
    var a := BreakLen(s);
    if a == 0 then 0
    else
      var b := BreakLen(s[a..]);
      if b == 0 then 0 else a + b
  }

  /** Position of the first separator, `|s|` if there is none. */
  function FirstSep(s: string): (i: nat)
    ensures i <= |s|
  {
    if s == "" || SepLen(s) > 0 then 0 else 1 + FirstSep(s[1..])
  }

  /** `FirstSep` is a separator's position, and no earlier position is one. */
  lemma {:induction false} FirstSepSpec(s: string, j: nat)
    requires j <= FirstSep(s)
    ensures SepLen(s[j..]) > 0 <==> j == FirstSep(s) < |s|
  {
    if s == "" || SepLen(s) > 0 {
      assert s[j..] == s;
    } else if j > 0 {
      FirstSepSpec(s[1..], j - 1);
      assert s[j..] == s[1..][j - 1..];
    } else {
      assert s[j..] == s;
    }
  }

  /** The complete blocks of a text, and what follows the last separator. */
  function Blocks(s: string): seq<string>
    decreases |s|
  {
    if FirstSep(s) == |s| then [] else [s[..FirstSep(s)]] + Blocks(s[SepEnd(s)..])
  }

  function Rest(s: string): string
    decreases |s|
  {
    if FirstSep(s) == |s| then s else Rest(s[SepEnd(s)..])
  }

  /** What is retained never holds a complete separator. */
  lemma {:induction false} RestHasNoSeparator(s: string)
    ensures FirstSep(Rest(s)) == |Rest(s)|
    decreases |s|
  {
    if FirstSep(s) < |s| { RestHasNoSeparator(s[SepEnd(s)..]); }
  }

  // ----- Chunk invariance -----

  lemma BreakLenStable(a: string, b: string)
    requires BreakLen(a) > 0 || |a| >= 2
    ensures BreakLen(a + b) == BreakLen(a)
  {}

  lemma SepLenStable(a: string, b: string)
    requires SepLen(a) > 0 || |a| >= 4
    ensures SepLen(a + b) == SepLen(a)
  {
    BreakLenStable(a, b);
    var k := BreakLen(a);
    if k > 0 {
      BreakLenStable(a[k..], b);
      assert (a + b)[k..] == a[k..] + b;
    }
  }

  /** A text that holds a later separator does not become one by growing. */
  lemma NoStraddle(a: string, b: string)
    requires SepLen(a) == 0 && FirstSep(a) < |a|
    ensures SepLen(a + b) == 0
  {
    var i := FirstSep(a);
    FirstSepSpec(a, i);
    assert i >= 1;
    if |a| >= 4 {
      SepLenStable(a, b);
    } else {
      assert |a| == 3 && i == 1 && a[1..][0] == a[1] == '\n' && a[1..][1] == a[2];
    }
  }

  /** More text moves no separator that is already complete. */
  lemma {:induction false} FirstSepStable(a: string, b: string)
    requires FirstSep(a) < |a|
    ensures FirstSep(a + b) == FirstSep(a)
    ensures SepLen((a + b)[FirstSep(a)..]) == SepLen(a[FirstSep(a)..])
  {
    if SepLen(a) > 0 {
      SepLenStable(a, b);
      assert (a + b)[0..] == a + b && a[0..] == a;
    } else {
      NoStraddle(a, b);
      FirstSepStable(a[1..], b);
      var i := FirstSep(a[1..]);
      assert (a + b)[1..] == a[1..] + b;
      assert (a + b)[1 + i..] == (a[1..] + b)[i..] && a[1 + i..] == a[1..][i..];
    }
  }

  /** End of the first separator. */
  function SepEnd(s: string): (n: nat)
    requires FirstSep(s) < |s|
    ensures FirstSep(s) < n <= |s|
  {
    FirstSepSpec(s, FirstSep(s));
    FirstSep(s) + SepLen(s[FirstSep(s)..])
  }

  lemma SplitStep(s: string, head: string, tail: string)
    requires FirstSep(s) < |s| && head == s[..FirstSep(s)] && tail == s[SepEnd(s)..]
    ensures Blocks(s) == [head] + Blocks(tail) && Rest(s) == Rest(tail)
  {}

  /** Splitting after more text arrived is splitting the text so far, then the rest with the new text. */
  lemma {:induction false} SplitIsIncremental(a: string, b: string)
    ensures Blocks(a + b) == Blocks(a) + Blocks(Rest(a) + b)
    ensures Rest(a + b) == Rest(Rest(a) + b)
    decreases |a|
  {
    if FirstSep(a) < |a| {
      var head, tail := a[..FirstSep(a)], a[SepEnd(a)..];
      SplitStep(a, head, tail);
      SplitGrown(a, b);
      SplitIsIncremental(tail, b);
      Prepended(head, Blocks(tail), Blocks(Rest(tail) + b));
    }
  }

  lemma Prepended(head: string, x: seq<string>, y: seq<string>)
    ensures [head] + (x + y) == ([head] + x) + y
  {}

  /** The first block of a text stays its first block when more text arrives. */
  lemma SplitGrown(a: string, b: string)
    requires FirstSep(a) < |a|
    ensures Blocks(a + b) == [a[..FirstSep(a)]] + Blocks(a[SepEnd(a)..] + b) && Rest(a + b) == Rest(a[SepEnd(a)..] + b)
  {
    var i, n := FirstSep(a), SepEnd(a);
    FirstSepStable(a, b);
    assert (a + b)[n..] == a[n..] + b && (a + b)[..i] == a[..i];
    SplitStep(a + b, a[..i], a[n..] + b);
  }

  // ----- Frames -----

  function Lines(s: string): (lines: seq<string>)
    ensures |lines| > 0
  {
    LinesFrom(s, "")
  }

  /** Lines of `line + s`, where `line` holds no line break. */
  function LinesFrom(s: string, line: string): (lines: seq<string>)
    ensures |lines| > 0
    decreases |s|
  {
    if s == "" then [line]
    else if BreakLen(s) > 0 then [line] + LinesFrom(s[BreakLen(s)..], "")
    else LinesFrom(s[1..], line + [s[0]])
  }

  /** What the lines read so far say: last id, last event, data lines. */
  datatype Fields = Fields(id: string, event: string, data: seq<string>)

  const NO_FIELDS := Fields("", "message", [])

  function ReadLine(f: Fields, line: string): Fields {
    if StartsWith(line, ":") then f
    else if StartsWith(line, "id:") then f.(id := Trim(line[3..]))
    else if StartsWith(line, "event:") then f.(event := Trim(line[6..]))
    else if StartsWith(line, "data:") then f.(data := f.data + [Trim(line[5..])])
    else f
  }

  function Fold(read: (Fields, string) -> Fields, f: Fields, lines: seq<string>): Fields {
    if lines == [] then f else read(Fold(read, f, lines[..|lines| - 1]), lines[|lines| - 1])
  }

  function ReadLines(f: Fields, lines: seq<string>): Fields {
    Fold(ReadLine, f, lines)
  }

  function Join(parts: seq<string>, glue: string): string {
    if parts == [] then ""
    else if |parts| == 1 then parts[0]
    else parts[0] + glue + Join(parts[1..], glue)
  }

  function FrameOf(f: Fields): SseFrame {
    SseFrame(f.id, f.event, Join(f.data, "\n"))
  }

  /** The frames one block yields: none when it is blank. */
  function BlockFrames(block: string): seq<SseFrame> {
    var trimmed := Trim(block);
    if trimmed == "" then [] else [FrameOf(ReadLines(NO_FIELDS, Lines(trimmed)))]
  }

  function AllFrames(blocks: seq<string>): seq<SseFrame> {
    if blocks == [] then [] else AllFrames(blocks[..|blocks| - 1]) + BlockFrames(blocks[|blocks| - 1])
  }

  lemma AllFramesSnoc(blocks: seq<string>, block: string)
    ensures AllFrames(blocks + [block]) == AllFrames(blocks) + BlockFrames(block)
  {
    assert (blocks + [block])[..|blocks|] == blocks;
  }

  lemma NextFrames(start: seq<SseFrame>, blocks: seq<string>, i: nat)
    requires i < |blocks|
    ensures start + AllFrames(blocks[..i]) + BlockFrames(blocks[i]) == start + AllFrames(blocks[..i + 1])
  {
    AllFramesSnoc(blocks[..i], blocks[i]);
    assert blocks[..i + 1] == blocks[..i] + [blocks[i]];
  }

  lemma {:induction false} AllFramesConcat(a: seq<string>, b: seq<string>)
    ensures AllFrames(a + b) == AllFrames(a) + AllFrames(b)
  {
    if b == [] {
      assert a + b == a;
    } else {
      var init, last := b[..|b| - 1], b[|b| - 1];
      AllFramesConcat(a, init);
      assert (a + b)[..|a + b| - 1] == a + init && (a + b)[|a + b| - 1] == last;
      assert AllFrames(a + b) == AllFrames(a + init) + BlockFrames(last);
    }
  }

  /** The frames of a whole text that is then ended. */
  function TextFrames(text: string): seq<SseFrame> {
    AllFrames(Blocks(text)) + BlockFrames(Rest(text))
  }

  function Concat(chunks: seq<string>): string {
    if chunks == [] then "" else Concat(chunks[..|chunks| - 1]) + chunks[|chunks| - 1]
  }

  // ----- The parser object -----

  /** Buffer and frames emitted so far. */
  datatype State = State(buffer: string, emitted: seq<SseFrame>)

  function PushChunk(s: State, chunk: string): State {
    State(Rest(s.buffer + chunk), s.emitted + AllFrames(Blocks(s.buffer + chunk)))
  }

  function EndInput(s: State): State {
    State("", s.emitted + BlockFrames(s.buffer))
  }

  function Feed(chunks: seq<string>): State {
    if chunks == [] then State("", []) else PushChunk(Feed(chunks[..|chunks| - 1]), chunks[|chunks| - 1])
  }

  /** After any chunks the parser is where one push of the whole text would leave it. */
  lemma {:induction false} FeedIsOnePush(chunks: seq<string>)
    ensures Feed(chunks) == State(Rest(Concat(chunks)), AllFrames(Blocks(Concat(chunks))))
  {
    if chunks == [] {
      assert Rest("") == "" && Blocks("") == [];
    } else {
      var init, chunk := chunks[..|chunks| - 1], chunks[|chunks| - 1];
      FeedIsOnePush(init);
      SplitIsIncremental(Concat(init), chunk);
      AllFramesConcat(Blocks(Concat(init)), Blocks(Rest(Concat(init)) + chunk));
    }
  }

  /** However a text is cut into chunks, the same frames come out. */
  lemma ChunkInvariance(chunks: seq<string>)
    ensures EndInput(Feed(chunks)).emitted == TextFrames(Concat(chunks))
    ensures EndInput(Feed(chunks)) == EndInput(Feed([Concat(chunks)]))
    ensures forall j :: 0 <= j <= |Feed(chunks).buffer| ==> SepLen(Feed(chunks).buffer[j..]) == 0
  {
    var text := Concat(chunks);
    FeedIsOnePush(chunks);
    FeedIsOnePush([text]);
    assert [text][..0] == [] && Concat([]) + text == text;
    RestHasNoSeparator(text);
    forall j | 0 <= j <= |Rest(text)| ensures SepLen(Rest(text)[j..]) == 0 {
      FirstSepSpec(Rest(text), j);
    }
  }

  class Parser {
    var buffer: string
    var emitted: seq<SseFrame>

    ghost function Abs(): State
      reads this
    {
      State(buffer, emitted)
    }

    constructor ()
      ensures Abs() == State("", [])
    {
      buffer, emitted := "", [];
    }

    method FlushBlock(block: string)
      modifies this`emitted
      ensures emitted == old(emitted) + BlockFrames(block)
    {
      var trimmed := Trim(block);
      if trimmed == "" {
        return;
      }
      var lines := Lines(trimmed);
      var id, event, dataLines := "", "message", [];
      for i := 0 to |lines|
        invariant Fields(id, event, dataLines) == ReadLines(NO_FIELDS, lines[..i])
      {
        var line := lines[i];
        assert lines[..i + 1][..i] == lines[..i];
        if StartsWith(line, ":") {
        } else if StartsWith(line, "id:") {
          id := Trim(line[3..]);
        } else if StartsWith(line, "event:") {
          event := Trim(line[6..]);
        } else if StartsWith(line, "data:") {
          dataLines := dataLines + [Trim(line[5..])];
        }
      }
      assert lines[..|lines|] == lines;
      emitted := emitted + [SseFrame(id, event, Join(dataLines, "\n"))];
    }

    method FlushAll(parts: seq<string>)
      modifies this`emitted
      ensures emitted == old(emitted) + AllFrames(parts)
    {
      assert emitted == emitted + AllFrames(parts[..0]);
      for i := 0 to |parts|
        invariant emitted == old(emitted) + AllFrames(parts[..i])
      {
        FlushBlock(parts[i]);
        NextFrames(old(emitted), parts, i);
      }
      assert parts[..|parts|] == parts;
    }

    method Push(chunk: string)
      modifies this
      ensures Abs() == PushChunk(old(Abs()), chunk)
    {
      buffer := buffer + chunk;
      var parts := Blocks(buffer);
      buffer := Rest(buffer);
      FlushAll(parts);
    }

    method End()
      modifies this
      ensures Abs() == EndInput(old(Abs()))
    {
      if Trim(buffer) != "" {
        FlushBlock(buffer);
      }
      buffer := "";
    }
  }
}
