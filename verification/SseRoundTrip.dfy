/** Events written in the wire format come back unchanged, whichever line break
    each uses and however the stream is cut into chunks. */
module SseRoundTrip {
  import opened Strings
  import opened SseParser

  datatype Event = Event(id: string, event: string, data: seq<string>)

  predicate IsBreakChar(c: char) {
    c == '\r' || c == '\n'
  }

  /** A field value survives trimming and holds no line break. */
  predicate Clean(v: string) {
    && (forall c :: c in v ==> !IsBreakChar(c))
    && (v != "" ==> !IsSpace(v[0]) && !IsSpace(v[|v| - 1]))
  }

  predicate Sendable(e: Event) {
    Clean(e.id) && Clean(e.event) && forall d :: d in e.data ==> Clean(d)
  }

  predicate IsNewline(nl: string) {
    nl == "\n" || nl == "\r\n"
  }

  function DataLines(data: seq<string>): (lines: seq<string>)
    ensures |lines| == |data|
    ensures forall i :: 0 <= i < |data| ==> lines[i] == "data:" + data[i]
  {
    seq(|data|, i requires 0 <= i < |data| => "data:" + data[i])
  }

  function EventLines(e: Event): seq<string> {
    ["id:" + e.id, "event:" + e.event] + DataLines(e.data)
  }

  function Block(e: Event, nl: string): string {
    Join(EventLines(e), nl)
  }

  datatype Sent = Sent(event: Event, newline: string)

  function Encode(sent: seq<Sent>): string {
    if sent == [] then ""
    else Block(sent[0].event, sent[0].newline) + (sent[0].newline + sent[0].newline + Encode(sent[1..]))
  }

  function Expected(sent: seq<Sent>): seq<SseFrame> {
    if sent == [] then []
    else var e := sent[0].event; [SseFrame(e.id, e.event, Join(e.data, "\n"))] + Expected(sent[1..])
  }

  /** A line: not empty, starts with a letter, ends without a space, holds no break. */
  predicate IsLine(s: string) {
    s != "" && !IsSpace(s[0]) && !IsSpace(s[|s| - 1]) && forall c :: c in s ==> !IsBreakChar(c)
  }

  lemma EventLinesAreLines(e: Event)
    requires Sendable(e)
    ensures forall l :: l in EventLines(e) ==> IsLine(l)
  {
    forall l | l in EventLines(e) ensures IsLine(l) {
      var i :| 0 <= i < |EventLines(e)| && EventLines(e)[i] == l;
      var head := if i == 0 then "id:" else if i == 1 then "event:" else "data:";
      var tail := if i == 0 then e.id else if i == 1 then e.event else e.data[i - 2];
      assert l == head + tail && Clean(tail);
      TaggedIsLine(head, tail);
    }
  }

  lemma TaggedIsLine(head: string, tail: string)
    requires head == "id:" || head == "event:" || head == "data:"
    requires Clean(tail)
    ensures IsLine(head + tail)
  {
    var l := head + tail;
    assert l[|l| - 1] == if tail == "" then ':' else tail[|tail| - 1];
    assert forall c :: c in l <==> c in head || c in tail;
  }

  // ----- Separators fall exactly between events -----

  lemma {:induction false} SkipLine(line: string, u: string)
    requires forall c :: c in line ==> !IsBreakChar(c)
    ensures FirstSep(line + u) == |line| + FirstSep(u)
  {
    if line == "" {
      assert line + u == u;
    } else {
      assert line[0] in line;
      assert (line + u)[1..] == line[1..] + u;
      SkipLine(line[1..], u);
    }
  }

  lemma SkipNewline(nl: string, u: string)
    requires IsNewline(nl) && u != "" && !IsBreakChar(u[0])
    ensures FirstSep(nl + u) == |nl| + FirstSep(u)
  {
    assert (nl + u)[|nl|..] == u;
    if nl == "\r\n" {
      assert (nl + u)[1..] == "\n" + u && ("\n" + u)[1..] == u;
    } else {
      assert (nl + u)[1..] == u;
    }
  }

  lemma DoubleNewline(nl: string, t: string)
    requires IsNewline(nl)
    ensures SepLen(nl + nl + t) == 2 * |nl|
  {
    assert (nl + nl + t)[|nl|..] == nl + t;
  }

  lemma JoinCons(lines: seq<string>, nl: string, end: string)
    requires |lines| > 1
    ensures Join(lines, nl) + end == lines[0] + (nl + (Join(lines[1..], nl) + end))
    ensures |Join(lines, nl)| == |lines[0]| + |nl| + |Join(lines[1..], nl)|
  {}

  lemma SkipLineAndBreak(line: string, nl: string, u: string)
    requires IsLine(line) && IsNewline(nl) && u != "" && !IsBreakChar(u[0])
    ensures FirstSep(line + (nl + u)) == |line| + |nl| + FirstSep(u)
  {
    SkipLine(line, nl + u);
    SkipNewline(nl, u);
  }

  lemma {:induction false} FirstSepAfterLines(lines: seq<string>, nl: string, t: string)
    requires lines != [] && IsNewline(nl) && forall l :: l in lines ==> IsLine(l)
    ensures FirstSep(Join(lines, nl) + (nl + nl + t)) == |Join(lines, nl)|
  {
    var end, line := nl + nl + t, lines[0];
    assert line in lines;
    if |lines| == 1 {
      SkipLine(line, end);
      DoubleNewline(nl, t);
    } else {
      var tail := lines[1..];
      assert tail[0] in lines && forall l :: l in tail ==> l in lines;
      FirstSepAfterLines(tail, nl, t);
      JoinStart(tail, nl);
      SkipLineAndBreak(line, nl, Join(tail, nl) + end);
      JoinCons(lines, nl, end);
    }
  }

  lemma JoinStart(lines: seq<string>, nl: string)
    requires lines != [] && IsLine(lines[0])
    ensures Join(lines, nl) != "" && Join(lines, nl)[0] == lines[0][0]
    ensures !IsSpace(Join(lines, nl)[0]) && !IsBreakChar(Join(lines, nl)[0])
  {
    assert lines[0][0] in lines[0];
  }

  lemma {:induction false} JoinEnd(lines: seq<string>, nl: string)
    requires lines != [] && forall l :: l in lines ==> IsLine(l)
    ensures Join(lines, nl) != "" && !IsSpace(Join(lines, nl)[|Join(lines, nl)| - 1])
  {
    if |lines| == 1 {
      assert IsLine(lines[0]);
    } else {
      JoinEnd(lines[1..], nl);
    }
  }

  // ----- Lines and fields of one block -----

  lemma {:induction false} LinesOfLine(line: string, u: string, acc: string)
    requires forall c :: c in line ==> !IsBreakChar(c)
    ensures LinesFrom(line + u, acc) == LinesFrom(u, acc + line)
  {
    if line == "" {
      assert line + u == u && acc + line == acc;
    } else {
      assert line[0] in line;
      assert (line + u)[1..] == line[1..] + u;
      LinesOfLine(line[1..], u, acc + [line[0]]);
      assert acc + [line[0]] + line[1..] == acc + line;
    }
  }

  lemma LinesOfBreak(line: string, nl: string, u: string)
    requires IsLine(line) && IsNewline(nl)
    ensures Lines(line + (nl + u)) == [line] + Lines(u)
  {
    LinesOfLine(line, nl + u, "");
    assert "" + line == line;
    assert (nl + u)[|nl|..] == u;
  }

  lemma JoinUnfolds(lines: seq<string>, nl: string)
    requires |lines| > 1
    ensures Join(lines, nl) == lines[0] + (nl + Join(lines[1..], nl))
  {}

  lemma {:induction false} LinesOfJoin(lines: seq<string>, nl: string)
    requires lines != [] && IsNewline(nl) && forall l :: l in lines ==> IsLine(l)
    ensures Lines(Join(lines, nl)) == lines
  {
    var line := lines[0];
    assert line in lines;
    if |lines| == 1 {
      LinesOfLine(line, "", "");
      assert line + "" == line && "" + line == line;
    } else {
      var tail := lines[1..];
      assert forall l :: l in tail ==> l in lines;
      LinesOfJoin(tail, nl);
      LinesOfBreak(line, nl, Join(tail, nl));
      JoinUnfolds(lines, nl);
      assert lines == [line] + tail;
    }
  }

  lemma ReadTagged(f: Fields, v: string)
    requires Clean(v)
    ensures ReadLine(f, "id:" + v) == f.(id := v)
    ensures ReadLine(f, "event:" + v) == f.(event := v)
    ensures ReadLine(f, "data:" + v) == f.(data := f.data + [v])
  {
    TrimFixed(v);
    var id, event, data := "id:" + v, "event:" + v, "data:" + v;
    assert id[0] == 'i' && event[0] == 'e' && data[0] == 'd';
    assert id[..3] == "id:" && id[3..] == v;
    assert event[..6] == "event:" && event[6..] == v;
    assert data[..5] == "data:" && data[5..] == v;
  }

  lemma ReadLinesSnoc(f: Fields, lines: seq<string>, line: string)
    ensures ReadLines(f, lines + [line]) == ReadLine(ReadLines(f, lines), line)
  {
    assert (lines + [line])[..|lines|] == lines;
  }

  /** `read` takes the line as one more data value. */
  ghost predicate AddsData(read: (Fields, string) -> Fields, line: string, d: string) {
    forall f {:trigger read(f, line)} :: read(f, line) == Fields(f.id, f.event, f.data + [d])
  }

  lemma {:induction false} FoldData(read: (Fields, string) -> Fields, f: Fields, head: seq<string>, lines: seq<string>,
                                    data: seq<string>)
    requires |lines| == |data| && forall i :: 0 <= i < |data| ==> AddsData(read, lines[i], data[i])
    ensures var g := Fold(read, f, head);
            Fold(read, f, head + lines) == Fields(g.id, g.event, g.data + data)
  {
    var g, n := Fold(read, f, head), |lines| - 1;
    if lines == [] {
      assert head + lines == head && g.data + data == g.data;
    } else {
      FoldData(read, f, head, lines[..n], data[..n]);
      assert (head + lines)[..|head| + n] == head + lines[..n];
      assert AddsData(read, lines[n], data[n]);
      assert g.data + data == (g.data + data[..n]) + [data[n]];
    }
  }

  lemma DataFields(f: Fields, data: seq<string>, head: seq<string>)
    requires forall d :: d in data ==> Clean(d)
    ensures var g := ReadLines(f, head);
            ReadLines(f, head + DataLines(data)) == Fields(g.id, g.event, g.data + data)
  {
    forall i | 0 <= i < |data| ensures AddsData(ReadLine, DataLines(data)[i], data[i]) {
      assert Clean(data[i]);
      forall g
        ensures ReadLine(g, "data:" + data[i]) == Fields(g.id, g.event, g.data + [data[i]])
      {
        ReadTagged(g, data[i]);
      }
    }
    FoldData(ReadLine, f, head, DataLines(data), data);
  }

  lemma HeadFields(e: Event)
    requires Sendable(e)
    ensures ReadLines(NO_FIELDS, ["id:" + e.id, "event:" + e.event]) == Fields(e.id, e.event, [])
  {
    ReadTagged(NO_FIELDS, e.id);
    ReadTagged(NO_FIELDS.(id := e.id), e.event);
    ReadLinesSnoc(NO_FIELDS, [], "id:" + e.id);
    ReadLinesSnoc(NO_FIELDS, ["id:" + e.id], "event:" + e.event);
    assert [] + ["id:" + e.id] == ["id:" + e.id];
    assert ["id:" + e.id] + ["event:" + e.event] == ["id:" + e.id, "event:" + e.event];
  }

  lemma BlockRoundTrip(e: Event, nl: string)
    requires Sendable(e) && IsNewline(nl)
    ensures BlockFrames(Block(e, nl)) == [SseFrame(e.id, e.event, Join(e.data, "\n"))]
  {
    var lines := EventLines(e);
    EventLinesAreLines(e);
    assert IsLine(lines[0]);
    JoinStart(lines, nl);
    JoinEnd(lines, nl);
    TrimFixed(Block(e, nl));
    LinesOfJoin(lines, nl);
    HeadFields(e);
    DataFields(NO_FIELDS, e.data, ["id:" + e.id, "event:" + e.event]);
    assert [] + e.data == e.data;
  }

  // ----- Streams -----

  lemma SplitOffBlock(e: Event, nl: string, rest: string)
    requires Sendable(e) && IsNewline(nl)
    ensures var text := Block(e, nl) + (nl + nl + rest);
            Blocks(text) == [Block(e, nl)] + Blocks(rest) && Rest(text) == Rest(rest)
  {
    var block := Block(e, nl);
    var text := block + (nl + nl + rest);
    EventLinesAreLines(e);
    FirstSepAfterLines(EventLines(e), nl, rest);
    assert text[|block|..] == nl + nl + rest;
    DoubleNewline(nl, rest);
    assert text[..|block|] == block && text[|block| + 2 * |nl|..] == rest;
    SplitStep(text, block, rest);
  }

  lemma FirstEvent(e: Event, nl: string, rest: string)
    requires Sendable(e) && IsNewline(nl)
    ensures var text := Block(e, nl) + (nl + nl + rest);
            && AllFrames(Blocks(text)) == [SseFrame(e.id, e.event, Join(e.data, "\n"))] + AllFrames(Blocks(rest))
            && Rest(text) == Rest(rest)
  {
    var block := Block(e, nl);
    SplitOffBlock(e, nl, rest);
    AllFramesConcat([block], Blocks(rest));
    assert AllFrames([block]) == BlockFrames(block) by {
      AllFramesSnoc([], block);
      assert [] + [block] == [block];
    }
    BlockRoundTrip(e, nl);
  }

  lemma {:induction false} StreamRoundTrip(sent: seq<Sent>)
    requires forall s :: s in sent ==> Sendable(s.event) && IsNewline(s.newline)
    ensures AllFrames(Blocks(Encode(sent))) == Expected(sent) && Rest(Encode(sent)) == ""
  {
    if sent != [] {
      var e, nl, rest := sent[0].event, sent[0].newline, Encode(sent[1..]);
      assert sent[0] in sent && forall s :: s in sent[1..] ==> s in sent;
      StreamRoundTrip(sent[1..]);
      FirstEvent(e, nl, rest);
    }
  }

  /** Any chunking of any encoded events yields exactly those events. */
  lemma EncodedEventsComeBack(sent: seq<Sent>, chunks: seq<string>)
    requires forall s :: s in sent ==> Sendable(s.event) && IsNewline(s.newline)
    requires Concat(chunks) == Encode(sent)
    ensures EndInput(Feed(chunks)) == State("", Expected(sent))
  {
    ChunkInvariance(chunks);
    StreamRoundTrip(sent);
    assert Trim("") == "";
  }
}
