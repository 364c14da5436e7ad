/** Console frames, their identity keys and the pairwise transcript order
    (console/src/lib/identity-log.ts, console/src/ConsoleApp.tsx). */
module Frames {
  import opened Wrappers

  /** The fields the log reads; every other field of a frame lives in `rest`. */
  datatype Frame = Frame(
    id: Option<string>,
    cursor: Option<string>,
    timestampMs: Option<int>,
    frameVersion: Option<int>,
    rest: map<string, string>
  )

  const MAX_SAFE_INTEGER: int := 9007199254740991

  predicate Truthy(s: Option<string>) {
    s.Some? && s.value != ""
  }

  predicate IsDigit(c: char) {
    '0' <= c <= '9'
  }

  function DigitsValue(s: string): nat
    requires forall c :: c in s ==> IsDigit(c)
  {
    if s == "" then 0
    else assert IsDigit(s[|s| - 1]); 10 * DigitsValue(s[..|s| - 1]) + (s[|s| - 1] as int - '0' as int)
  }

  /** The sequence number of an aggregate cursor `console:<digits>`. */
  function CursorSeq(cursor: Option<string>): Option<nat> {
    if !Truthy(cursor) then None
    else
      var c := cursor.value;
      if |c| > 8 && c[..8] == "console:" && forall d :: d in c[8..] ==> IsDigit(d)
      then Some(DigitsValue(c[8..]))
      else None
  }

  function Decimal(n: int): string
    decreases if n < 0 then 1 - n else n
  {
    if n < 0 then "-" + Decimal(-n)
    else if n < 10 then [('0' as int + n) as char]
    else Decimal(n / 10) + [('0' as int + n % 10) as char]
  }

  function Field(f: Frame, name: string, absent: string): string {
    if name in f.rest then f.rest[name] else absent
  }

  /** The identity of a frame across the RPC and SSE pipelines. */
  function FrameKey(f: Frame): string {
    if Truthy(f.id) then f.id.value
    else if Truthy(f.cursor) then f.cursor.value
    else Field(f, "event", "undefined") + ":" + Field(f, "identity", "") + ":"
         + Field(f, "interactionId", "") + ":" + Decimal(if f.timestampMs.Some? then f.timestampMs.value else 0)
  }

  function Override<T>(previous: Option<T>, updated: Option<T>): Option<T> {
    if updated.Some? then updated else previous
  }

  /** Object spread: every field the update carries replaces the old one. */
  function Spread(previous: Frame, updated: Frame): Frame {
    Frame(Override(previous.id, updated.id),
          Override(previous.cursor, updated.cursor),
          Override(previous.timestampMs, updated.timestampMs),
          Override(previous.frameVersion, updated.frameVersion),
          previous.rest + updated.rest)
  }

  function VersionOf(f: Frame): int {
    if f.frameVersion.Some? then f.frameVersion.value else 0
  }

  function TimeOf(f: Frame): int {
    if f.timestampMs.Some? then f.timestampMs.value else MAX_SAFE_INTEGER
  }

  /** What the transcript order reads of a frame. */
  datatype Stamp = Stamp(time: int, seqNo: Option<nat>)

  function StampOf(f: Frame): Stamp {
    Stamp(TimeOf(f), CursorSeq(f.cursor))
  }

  /** Timestamp, then aggregate cursor sequence, then arrival index; negative when `a` comes first. */
  function StampOrder(a: Stamp, aIndex: int, b: Stamp, bIndex: int): int {
    if a.time != b.time then a.time - b.time
    else if a.seqNo.Some? && b.seqNo.Some? && a.seqNo != b.seqNo then a.seqNo.value - b.seqNo.value
    else aIndex - bIndex
  }

  function TranscriptOrder(a: Frame, aIndex: int, b: Frame, bIndex: int): int {
    StampOrder(StampOf(a), aIndex, StampOf(b), bIndex)
  }
}
