/**
 Presentation anchors on their way through the queued audio pipeline: stream writer -> decoded ring
 -> DSP thread -> processed ring -> device callback (audio/queued_audio_source.cpp and
 audio/output_callback.cpp).
 */
module QueuedAudio {
  import opened Arithmetic
  import Timeline = SpscAudioTimeline

  // Frames are identified by their position in each ring. Every frame carries, as history, the tag of the
  // write call it came from, so that the clock the callback computes can be compared with the truth.

  type Anchor = Timeline.Anchor

  /** Frame `offset` of a write call that started at `startUs`; a call without a timestamp is Unstamped. */
  datatype Tag = Unstamped | Stamped(startUs: int, offset: nat, serial: int)

  /** One ring with its timeline. The timeline has room for 2 * capacity + 1 anchors. */
  datatype Lane = Lane(capacity: nat, read: nat, write: nat, anchors: seq<Anchor>, tags: seq<Tag>)

  /** What the DSP thread holds between reading and publishing. */
  datatype Chunk = NoChunk | Chunk(position: nat, frames: nat)

  /** The writer between appending its anchor and publishing its frames. */
  datatype Pending = NoWrite | Publishing(first: Tag, frames: nat)

  datatype Reading = NoReading | Reading(position: nat, ptsUs: int, serial: int)

  /**
   The DSP thread keeps at most `target` frames processed ahead.
   `floor` is history: the callback's last clock update popped every later anchor at or before it.
   `aborted` records that an append found its timeline full, or a chunk found its ring full.
   */
  datatype Pipeline = Pipeline(
    rate: nat,
    target: nat,
    decoded: Lane,
    processed: Lane,
    chunk: Chunk,
    pending: Pending,
    owesClock: bool,
    floor: nat,
    clock: Reading,
    aborted: bool)

  datatype Step =
    | BeginChunkWrite(first: Tag, frames: nat)  // under the queue lock: append the chunk's anchor
    | PublishChunkWrite                         // write the frames, release the lock
    | DspRead(frames: nat)
    | DspPublish
    | CallbackRead(frames: nat)
    | CallbackClock(delayFrames: nat)           // what the device still holds back
    | Reset                                     // resetQueuedTransport, dropping a chunk in hand

  const CHUNK_FRAMES: nat := 2048

  /** The decoded ring is no larger than this. */
  const HANDOFF_FRAMES: nat := 4096

  // ----- arithmetic of time stamps -----

  function Micros(frames: nat, rate: nat): (us: nat)
    requires rate > 0
    ensures rate * us <= frames * 1000000 < rate * us + rate
  {
    Quotient(frames * 1000000, rate)
  }

  lemma QuotientSum(x: nat, y: nat, d: nat)
    requires d > 0
    ensures Quotient(x, d) + Quotient(y, d) <= Quotient(x + y, d) <= Quotient(x, d) + Quotient(y, d) + 1
  {
    hide Quotient;
    var q := Quotient(x, d) + Quotient(y, d);
    assert d * q == d * Quotient(x, d) + d * Quotient(y, d);
    if x + y < d * q + d {
      QuotientIs(x + y, d, q, Quotient(x + y, d));
    } else {
      assert d * (q + 1) == d * q + d;
      QuotientIs(x + y, d, q + 1, Quotient(x + y, d));
    }
  }

  /** Splitting a duration loses at most one microsecond. */
  lemma MicrosSplit(a: nat, b: nat, rate: nat)
    requires rate > 0
    ensures Micros(a, rate) + Micros(b, rate) <= Micros(a + b, rate) <= Micros(a, rate) + Micros(b, rate) + 1
  {
    QuotientSum(a * 1000000, b * 1000000, rate);
  }

  function PtsAt(anchor: Anchor, position: nat, rate: nat): int
    requires rate > 0 && anchor.framePosition <= position
  {
    anchor.ptsUs + Micros(position - anchor.framePosition, rate)
  }

  // ----- anchor queues -----

  ghost predicate Ascending(anchors: seq<Anchor>) {
    forall i, j | 0 <= i < j < |anchors| :: anchors[i].framePosition < anchors[j].framePosition
  }

  /** Index of the last anchor at or before `position`, or -1. */
  function Latest(anchors: seq<Anchor>, position: nat): (i: int)
    requires Ascending(anchors)
    ensures -1 <= i < |anchors|
    ensures i >= 0 ==> anchors[i].framePosition <= position
    ensures forall k | i < k < |anchors| :: anchors[k].framePosition > position
  {
    if anchors == [] then -1
    else if anchors[|anchors| - 1].framePosition <= position then |anchors| - 1
    else Latest(anchors[..|anchors| - 1], position)
  }

  /** What is left by a loop that pops the front while its successor is at or before `position`. */
  function DropThrough(anchors: seq<Anchor>, position: int): seq<Anchor>
    decreases |anchors|
  {
    if |anchors| >= 2 && anchors[1].framePosition <= position then DropThrough(anchors[1..], position) else anchors
  }

  /** The loop leaves a suffix whose front is the last anchor at or before `position`, if there is one. */
  lemma {:induction false} DropIsSuffix(anchors: seq<Anchor>, position: int) returns (k: nat)
    ensures k <= |anchors| && (anchors != [] ==> k < |anchors|)
    ensures DropThrough(anchors, position) == anchors[k..]
    ensures k > 0 ==> anchors[k].framePosition <= position
    ensures k + 1 < |anchors| ==> anchors[k + 1].framePosition > position
    decreases |anchors|
  {
    if |anchors| >= 2 && anchors[1].framePosition <= position {
      k := DropIsSuffix(anchors[1..], position);
      k := k + 1;
    } else {
      k := 0;
    }
  }

  /** Popping in two stages is popping once. */
  lemma {:induction false} DropTwice(anchors: seq<Anchor>, first: int, second: int)
    requires first <= second
    ensures DropThrough(DropThrough(anchors, first), second) == DropThrough(anchors, second)
    decreases |anchors|
  {
    if |anchors| >= 2 && anchors[1].framePosition <= first {
      DropTwice(anchors[1..], first, second);
    }
  }

  /** How many leading anchors lie before `end`. */
  function CountBelow(anchors: seq<Anchor>, end: nat): (n: nat)
    ensures n <= |anchors|
    ensures forall k | 0 <= k < n :: anchors[k].framePosition < end
    ensures n < |anchors| ==> anchors[n].framePosition >= end
  {
    if anchors == [] || anchors[0].framePosition >= end then 0 else 1 + CountBelow(anchors[1..], end)
  }

  /** A decoded anchor as the DSP thread re-issues it for a chunk read at `input` and written at `output`. */
  function Rebase(anchor: Anchor, input: nat, output: nat, rate: nat): Anchor
    requires rate > 0
  {
    if anchor.framePosition <= input then Timeline.Anchor(output, PtsAt(anchor, input, rate), anchor.serial)
    else Timeline.Anchor(output + (anchor.framePosition - input), anchor.ptsUs, anchor.serial)
  }

  function Rebased(anchors: seq<Anchor>, input: nat, frames: nat, output: nat, rate: nat): seq<Anchor>
    requires rate > 0
  {
    seq(CountBelow(anchors, input + frames), i requires 0 <= i < |anchors| => Rebase(anchors[i], input, output, rate))
  }

  /** A suffix that still starts at or before a position has the same governing anchor there. */
  lemma SuffixLatest(anchors: seq<Anchor>, n: nat, position: nat)
    requires Ascending(anchors) && n <= |anchors|
    requires n > 0 ==> n < |anchors| && anchors[n].framePosition <= position
    ensures Ascending(anchors[n..])
    ensures Latest(anchors[n..], position) >= 0 ==> Latest(anchors, position) == n + Latest(anchors[n..], position)
    ensures Latest(anchors[n..], position) < 0 ==> Latest(anchors, position) < 0
  {
    var i := Latest(anchors[n..], position);
    if i >= 0 {
      assert anchors[n..][i] == anchors[n + i];
      if n + i + 1 < |anchors| {
        assert anchors[n..][i + 1] == anchors[n + i + 1];
      }
      LatestIs(anchors, position, n + i);
    } else if n == 0 {
      assert anchors[n..] == anchors;
    }
  }

  lemma LatestIs(anchors: seq<Anchor>, position: nat, i: nat)
    requires Ascending(anchors) && i < |anchors|
    requires anchors[i].framePosition <= position
    requires i + 1 < |anchors| ==> anchors[i + 1].framePosition > position
    ensures Latest(anchors, position) == i
  {
  }

  /** Strictly rising positions: all but the first in a window bound the count by the window. */
  lemma {:induction false} CountInWindow(anchors: seq<Anchor>, low: int, high: int)
    requires Ascending(anchors) && low <= high
    requires forall i | 1 <= i < |anchors| :: low <= anchors[i].framePosition < high
    ensures |anchors| <= 1 + (high - low)
    decreases |anchors|
  {
    if |anchors| >= 2 {
      var last := anchors[|anchors| - 1].framePosition;
      CountInWindow(anchors[..|anchors| - 1], low, last);
    }
  }

  // ----- steps -----

  function Shifted(tag: Tag, k: nat): Tag {
    match tag
    case Unstamped => Unstamped
    case Stamped(startUs, offset, serial) => Stamped(startUs, offset + k, serial)
  }

  function TagsFrom(first: Tag, frames: nat): seq<Tag> {
    seq(frames, k requires 0 <= k => Shifted(first, k))
  }

  function AnchorRoom(lane: Lane): nat {
    2 * lane.capacity + 1
  }

  function Buffered(lane: Lane): int {
    lane.write - lane.read
  }

  predicate Enabled(p: Pipeline, step: Step) {
    && p.rate > 0
    && match step
       case BeginChunkWrite(_, frames) =>
         p.pending.NoWrite? && 1 <= frames <= p.decoded.capacity - Buffered(p.decoded)
       case PublishChunkWrite => p.pending.Publishing?
       case DspRead(frames) =>
         && p.chunk.NoChunk?
         && 1 <= frames <= CHUNK_FRAMES
         && frames <= Buffered(p.decoded)
         && frames <= p.processed.capacity - Buffered(p.processed)
         && frames <= p.target - Buffered(p.processed)
       case DspPublish => p.chunk.Chunk? && p.chunk.position + p.chunk.frames <= |p.decoded.tags|
       case CallbackRead(frames) => !p.owesClock && 1 <= frames <= Buffered(p.processed)
       case CallbackClock(_) => p.owesClock
       case Reset => p.pending.NoWrite?
  }

  function Apply(p: Pipeline, step: Step): Pipeline
    requires Enabled(p, step)
  {
    match step
    case BeginChunkWrite(first, frames) => AfterBeginWrite(p, first, frames)
    case PublishChunkWrite =>
      var d := p.decoded;
      p.(decoded := d.(write := d.write + p.pending.frames,
                       tags := d.tags + TagsFrom(p.pending.first, p.pending.frames)),
      pending := NoWrite)
    case DspRead(frames) =>
      var d := p.decoded;
      p.(decoded := d.(read := d.read + frames), chunk := Chunk(d.read, frames))
    case DspPublish => AfterPublish(p)
    case CallbackRead(frames) =>
      p.(processed := p.processed.(read := p.processed.read + frames), owesClock := true)
    case CallbackClock(delayFrames) => AfterClock(p, delayFrames)
    case Reset =>
      p.(decoded := Emptied(p.decoded), processed := Emptied(p.processed), chunk := NoChunk, floor := p.processed.write)
  }

  function AfterBeginWrite(p: Pipeline, first: Tag, frames: nat): Pipeline
    requires p.rate > 0
  {
    var d := p.decoded;
    match first
    case Unstamped => p.(pending := Publishing(first, frames))
    case Stamped(startUs, offset, serial) =>
      if |d.anchors| >= AnchorRoom(d) then p.(aborted := true)
      else
        p.(decoded := d.(anchors := d.anchors + [Timeline.Anchor(d.write, startUs + Micros(offset, p.rate), serial)]),
        pending := Publishing(first, frames))
  }

  function AfterPublish(p: Pipeline): Pipeline
    requires p.rate > 0 && p.chunk.Chunk? && p.chunk.position + p.chunk.frames <= |p.decoded.tags|
  {
    var d, o := p.decoded, p.processed;
    var input, end := p.chunk.position, p.chunk.position + p.chunk.frames;
    var kept := DropThrough(d.anchors, input);
    var issued := Rebased(kept, input, p.chunk.frames, o.write, p.rate);
    if (issued != [] && |o.anchors| + |issued| > AnchorRoom(o)) || p.chunk.frames > o.capacity - Buffered(o)
    then p.(aborted := true)
    else
      p.(decoded := d.(anchors := DropThrough(kept, end - 1)),
      processed := o.(write := o.write + p.chunk.frames, anchors := o.anchors + issued,
                      tags := o.tags + d.tags[input..end]),
      chunk := NoChunk)
  }

  function ClockAt(anchors: seq<Anchor>, position: nat, delayFrames: nat, rate: nat, before: Reading): Reading
    requires rate > 0
  {
    if anchors != [] && anchors[0].framePosition <= position
    then Reading(position, PtsAt(anchors[0], position, rate) - Micros(delayFrames, rate), anchors[0].serial)
    else before
  }

  function AfterClock(p: Pipeline, delayFrames: nat): Pipeline
    requires p.rate > 0
  {
    var o := p.processed;
    var kept := DropThrough(o.anchors, o.read);
    p.(processed := o.(anchors := kept), owesClock := false, floor := o.read,
    clock := ClockAt(kept, o.read, delayFrames, p.rate, p.clock))
  }

  function Emptied(lane: Lane): Lane {
    lane.(read := lane.write, anchors := [])
  }

  predicate Initial(p: Pipeline) {
    && p.rate > 0 && p.decoded.capacity > 0 && 0 < p.target <= p.processed.capacity
    && p.decoded == Lane(p.decoded.capacity, 0, 0, [], [])
    && p.processed == Lane(p.processed.capacity, 0, 0, [], [])
    && p.chunk == NoChunk && p.pending == NoWrite && !p.owesClock && p.floor == 0 && !p.aborted
  }

  predicate Executes(p: Pipeline, steps: seq<Step>, last: Pipeline)
    decreases |steps|
  {
    if steps == [] then last == p
    else Enabled(p, steps[0]) && Executes(Apply(p, steps[0]), steps[1..], last)
  }

  // ----- invariant -----

  /** The anchor tells the time of the frame at `position` up to `slack` microseconds too early. */
  ghost predicate Tells(anchor: Anchor, position: nat, tag: Tag, slack: nat, rate: nat)
    requires rate > 0 && tag.Stamped?
  {
    && anchor.framePosition <= position <= anchor.framePosition + tag.offset
    && anchor.serial == tag.serial
    && var ideal := tag.startUs + Micros(tag.offset - (position - anchor.framePosition), rate);
       ideal - slack <= anchor.ptsUs <= ideal
  }

  ghost predicate Covered(anchors: seq<Anchor>, position: nat, tag: Tag, slack: nat, rate: nat)
    requires rate > 0
  {
    tag.Stamped? ==>
      && Ascending(anchors)
      && Latest(anchors, position) >= 0
      && Tells(anchors[Latest(anchors, position)], position, tag, slack, rate)
  }

  ghost predicate LaneOk(lane: Lane) {
    && lane.capacity > 0
    && lane.read <= lane.write <= lane.read + lane.capacity
    && |lane.tags| == lane.write
    && Ascending(lane.anchors)
  }

  /** First position whose governing anchor is still needed: the chunk in hand counts. */
  function Low(p: Pipeline): nat {
    if p.chunk.Chunk? then p.chunk.position else p.decoded.read
  }

  /** No chunk is larger than the decoded ring, what may be processed ahead, or the DSP thread's buffer. */
  function LargestChunk(p: Pipeline): nat {
    Min(CHUNK_FRAMES, Min(p.decoded.capacity, p.target))
  }

  /** The most anchors the decoded timeline can hold: what the ring and a chunk in hand span, and one before it. */
  function DecodedPeak(p: Pipeline): nat {
    p.decoded.capacity + LargestChunk(p) + 1
  }

  /** And the processed one: what was read since the last clock, what is ahead, and one before them. */
  function ProcessedPeak(p: Pipeline): nat {
    2 * p.target + 1
  }

  ghost predicate DecodedOk(p: Pipeline)
    requires p.rate > 0
  {
    var d := p.decoded;
    && LaneOk(d)
    && (p.chunk.Chunk? ==> 1 <= p.chunk.frames <= LargestChunk(p) && p.chunk.position + p.chunk.frames == d.read)
    && AnchorsWithin(d.anchors, Low(p), d.write)
    && PendingOk(p)
    && LaneCovered(d, Low(p), 0, p.rate)
  }

  /** All anchors but the first lie at or after `low`, and none lies after `high`. */
  ghost predicate AnchorsWithin(anchors: seq<Anchor>, low: nat, high: nat) {
    && (forall i | 1 <= i < |anchors| :: low <= anchors[i].framePosition)
    && (forall i | 0 <= i < |anchors| :: anchors[i].framePosition <= high)
  }

  /** Every frame from `low` on can be dated by its governing anchor. */
  ghost predicate LaneCovered(lane: Lane, low: nat, slack: nat, rate: nat)
    requires rate > 0 && |lane.tags| == lane.write
  {
    forall q | low <= q < lane.write :: Covered(lane.anchors, q, lane.tags[q], slack, rate)
  }

  ghost predicate PendingOk(p: Pipeline)
    requires p.rate > 0
  {
    var d := p.decoded;
    match p.pending
    case NoWrite => forall i | 0 <= i < |d.anchors| :: d.anchors[i].framePosition < d.write
    case Publishing(first, frames) =>
      && 1 <= frames <= d.capacity - Buffered(d)
      && (first.Unstamped? ==> forall i | 0 <= i < |d.anchors| :: d.anchors[i].framePosition < d.write)
      && (first.Stamped? ==> d.anchors != [] && Tells(d.anchors[|d.anchors| - 1], d.write, first, 0, p.rate)
                             && d.anchors[|d.anchors| - 1].framePosition == d.write)
  }

  ghost predicate ProcessedOk(p: Pipeline)
    requires p.rate > 0
  {
    var o := p.processed;
    && LaneOk(o)
    && 0 < p.target <= o.capacity
    && Buffered(o) + (if p.chunk.Chunk? then p.chunk.frames else 0) <= p.target
    && AnchorsWithin(o.anchors, p.floor, o.write)
    && (forall i | 0 <= i < |o.anchors| :: o.anchors[i].framePosition < o.write)
    && p.floor <= o.read <= p.floor + p.target
    && (!p.owesClock ==> p.floor == o.read)
    && LaneCovered(o, p.floor, 1, p.rate)
  }

  ghost predicate Inv(p: Pipeline) {
    p.rate > 0 && !p.aborted && DecodedOk(p) && ProcessedOk(p)
  }

  // ----- the writer -----

  lemma AppendKeepsCovered(anchors: seq<Anchor>, more: seq<Anchor>, position: nat, tag: Tag, slack: nat, rate: nat)
    requires rate > 0 && Ascending(anchors + more)
    requires Covered(anchors, position, tag, slack, rate)
    requires forall i | 0 <= i < |more| :: more[i].framePosition > position
    ensures Covered(anchors + more, position, tag, slack, rate)
  {
    if tag.Stamped? {
      LatestIs(anchors + more, position, Latest(anchors, position));
    }
  }

  /** The decoded timeline always has room for one more anchor when the ring has room for a frame. */
  lemma DecodedHasRoom(p: Pipeline)
    requires Inv(p) && p.pending.NoWrite? && p.decoded.capacity > Buffered(p.decoded)
    ensures |p.decoded.anchors| < AnchorRoom(p.decoded)
  {
    CountInWindow(p.decoded.anchors, Low(p), p.decoded.write);
  }

  /** An append to a full timeline would abort the program, and so would a chunk that does not fit. */
  lemma FullTimelineAborts(p: Pipeline, startUs: int, offset: nat, serial: int, frames: nat)
    requires p.rate > 0 && !p.aborted
    ensures AfterBeginWrite(p, Stamped(startUs, offset, serial), frames).aborted <==>
              |p.decoded.anchors| >= 2 * p.decoded.capacity + 1
    ensures p.chunk.Chunk? && p.chunk.position + p.chunk.frames <= |p.decoded.tags| ==>
              (AfterPublish(p).aborted <==>
                 || (Issued(p) != [] && |p.processed.anchors| + |Issued(p)| > 2 * p.processed.capacity + 1)
                 || p.chunk.frames > p.processed.capacity - Buffered(p.processed))
  {
  }

  lemma BeginWriteOk(p: Pipeline, first: Tag, frames: nat)
    requires Inv(p) && Enabled(p, BeginChunkWrite(first, frames))
    ensures Inv(AfterBeginWrite(p, first, frames))
  {
    DecodedHasRoom(p);
    var t := AfterBeginWrite(p, first, frames);
    if first.Stamped? {
      var d := p.decoded;
      var anchor := t.decoded.anchors[|d.anchors|];
      forall q | Low(t) <= q < d.write
        ensures Covered(t.decoded.anchors, q, d.tags[q], 0, p.rate)
      {
        AppendKeepsCovered(d.anchors, [anchor], q, d.tags[q], 0, p.rate);
      }
    }
  }

  lemma PublishWriteOk(p: Pipeline)
    requires Inv(p) && Enabled(p, PublishChunkWrite)
    ensures Inv(Apply(p, PublishChunkWrite))
  {
    var t := Apply(p, PublishChunkWrite);
    var d := p.decoded;
    forall q | Low(t) <= q < t.decoded.write
      ensures Covered(t.decoded.anchors, q, t.decoded.tags[q], 0, p.rate)
    {
      if q >= d.write && p.pending.first.Stamped? {
        LatestIs(d.anchors, q, |d.anchors| - 1);
      }
    }
  }

  // ----- the DSP thread -----

  lemma DspReadOk(p: Pipeline, frames: nat)
    requires Inv(p) && Enabled(p, DspRead(frames))
    ensures Inv(Apply(p, DspRead(frames)))
  {
  }

  /** The anchors re-issued for a chunk, in the order and window of the output they describe. */
  lemma RebasedAscends(kept: seq<Anchor>, input: nat, frames: nat, output: nat, rate: nat)
    requires rate > 0 && Ascending(kept) && frames > 0
    requires |kept| >= 2 ==> kept[1].framePosition > input
    ensures var issued := Rebased(kept, input, frames, output, rate);
            && Ascending(issued)
            && forall i | 0 <= i < |issued| :: output <= issued[i].framePosition < output + frames
  {
  }

  /** Re-issuing an anchor keeps its time to the frames after the chunk start within one microsecond. */
  lemma RebaseTells(anchor: Anchor, input: nat, output: nat, position: nat, tag: Tag, rate: nat)
    requires rate > 0 && tag.Stamped? && input <= position
    requires Tells(anchor, position, tag, 0, rate)
    ensures Tells(Rebase(anchor, input, output, rate), output + (position - input), tag, 1, rate)
  {
    if anchor.framePosition <= input {
      MicrosSplit(tag.offset - (position - anchor.framePosition), input - anchor.framePosition, rate);
    }
  }

  lemma IssuedCovers(before: seq<Anchor>, kept: seq<Anchor>, input: nat, frames: nat, output: nat, rate: nat,
                     position: nat, tag: Tag)
    requires rate > 0 && Ascending(kept) && input <= position < input + frames
    requires |kept| >= 2 ==> kept[1].framePosition > input
    requires Covered(kept, position, tag, 0, rate)
    requires Ascending(before + Rebased(kept, input, frames, output, rate))
    ensures Covered(before + Rebased(kept, input, frames, output, rate), output + (position - input), tag, 1, rate)
  {
    hide Micros;
    if tag.Stamped? {
      var i := Latest(kept, position);
      var issued := Rebased(kept, input, frames, output, rate);
      assert issued[i] == Rebase(kept[i], input, output, rate);
      RebaseTells(kept[i], input, output, position, tag, rate);
      if i + 1 < |issued| {
        assert issued[i + 1] == Rebase(kept[i + 1], input, output, rate);
      }
      LatestIs(before + issued, output + (position - input), |before| + i);
    }
  }

  /** Dropping leading anchors does not change which anchor governs a later position. */
  lemma DropKeepsCovered(anchors: seq<Anchor>, through: int, position: nat, tag: Tag, slack: nat, rate: nat)
    requires rate > 0 && Ascending(anchors) && through <= position
    requires Covered(anchors, position, tag, slack, rate)
    ensures Covered(DropThrough(anchors, through), position, tag, slack, rate)
  {
    var k := DropIsSuffix(anchors, through);
    SuffixLatest(anchors, k, position);
  }

  lemma DropAscends(anchors: seq<Anchor>, through: int)
    requires Ascending(anchors)
    ensures Ascending(DropThrough(anchors, through))
    ensures |DropThrough(anchors, through)| >= 2 ==> DropThrough(anchors, through)[1].framePosition > through
  {
    var k := DropIsSuffix(anchors, through);
  }

  lemma DropKeepsLaneCovered(lane: Lane, through: int, low: nat, slack: nat, rate: nat)
    requires rate > 0 && |lane.tags| == lane.write && Ascending(lane.anchors) && through <= low
    requires LaneCovered(lane, low, slack, rate)
    ensures LaneCovered(lane.(anchors := DropThrough(lane.anchors, through)), low, slack, rate)
  {
    forall q | low <= q < lane.write
      ensures Covered(DropThrough(lane.anchors, through), q, lane.tags[q], slack, rate)
    {
      DropKeepsCovered(lane.anchors, through, q, lane.tags[q], slack, rate);
    }
  }

  function Kept(p: Pipeline): seq<Anchor>
    requires p.chunk.Chunk?
  {
    DropThrough(p.decoded.anchors, p.chunk.position)
  }

  function Issued(p: Pipeline): seq<Anchor>
    requires p.rate > 0 && p.chunk.Chunk?
  {
    Rebased(Kept(p), p.chunk.position, p.chunk.frames, p.processed.write, p.rate)
  }

  /** The processed timeline has room for everything one chunk re-issues. */
  lemma ProcessedHasRoom(p: Pipeline)
    requires Inv(p) && p.chunk.Chunk?
    ensures Ascending(Kept(p)) && (|Kept(p)| >= 2 ==> Kept(p)[1].framePosition > p.chunk.position)
    ensures Ascending(p.processed.anchors + Issued(p))
    ensures forall i | 0 <= i < |Issued(p)| ::
            p.processed.write <= Issued(p)[i].framePosition < p.processed.write + p.chunk.frames
    ensures |p.processed.anchors| + |Issued(p)| <= ProcessedPeak(p) <= AnchorRoom(p.processed)
  {
    var o := p.processed;
    var end := o.write + p.chunk.frames;
    DropAscends(p.decoded.anchors, p.chunk.position);
    RebasedAscends(Kept(p), p.chunk.position, p.chunk.frames, o.write, p.rate);
    var all := o.anchors + Issued(p);
    IssuedBeyondFloor(p, all);
    CountInWindow(all, p.floor, end);
  }

  lemma IssuedBeyondFloor(p: Pipeline, all: seq<Anchor>)
    requires Inv(p) && p.chunk.Chunk? && all == p.processed.anchors + Issued(p)
    requires Ascending(Issued(p))
    requires forall i | 0 <= i < |Issued(p)| ::
             p.processed.write <= Issued(p)[i].framePosition < p.processed.write + p.chunk.frames
    ensures Ascending(all)
    ensures forall i | 1 <= i < |all| :: p.floor <= all[i].framePosition < p.processed.write + p.chunk.frames
  {
    var o := p.processed;
    forall i | 1 <= i < |all|
      ensures p.floor <= all[i].framePosition < o.write + p.chunk.frames
    {
      if i >= |o.anchors| {
        assert all[i] == Issued(p)[i - |o.anchors|];
      }
    }
  }

  lemma SuffixKeepsPending(p: Pipeline, t: Pipeline, k: nat)
    requires p.rate > 0 && PendingOk(p)
    requires k <= |p.decoded.anchors| && (p.decoded.anchors != [] ==> k < |p.decoded.anchors|)
    requires t.rate == p.rate && t.pending == p.pending
    requires t.decoded == p.decoded.(anchors := p.decoded.anchors[k..])
    ensures PendingOk(t)
  {
    var left := t.decoded.anchors;
    assert forall i | 0 <= i < |left| :: left[i] == p.decoded.anchors[k + i];
  }

  /** What a publish leaves, in one piece. */
  function Published(p: Pipeline): Pipeline
    requires p.rate > 0 && p.chunk.Chunk? && p.chunk.position + p.chunk.frames <= |p.decoded.tags|
  {
    var d, o := p.decoded, p.processed;
    var end := p.chunk.position + p.chunk.frames;
    p.(decoded := d.(anchors := DropThrough(d.anchors, end - 1)),
    processed := o.(write := o.write + p.chunk.frames, anchors := o.anchors + Issued(p),
                    tags := o.tags + d.tags[p.chunk.position..end]),
    chunk := NoChunk)
  }

  lemma PublishSucceeds(p: Pipeline)
    requires Inv(p) && p.chunk.Chunk?
    ensures AfterPublish(p) == Published(p)
  {
    ProcessedHasRoom(p);
    DropTwice(p.decoded.anchors, p.chunk.position, p.chunk.position + p.chunk.frames - 1);
  }

  lemma PublishKeepsDecoded(p: Pipeline, t: Pipeline)
    requires p.rate > 0 && DecodedOk(p) && p.chunk.Chunk? && t == Published(p)
    ensures DecodedOk(t)
  {
    var d := p.decoded;
    var end := p.chunk.position + p.chunk.frames;
    DropKeepsLaneCovered(d, end - 1, end, 0, p.rate);
    DropAscends(d.anchors, end - 1);
    LeftWithin(p, t);
  }

  lemma LeftWithin(p: Pipeline, t: Pipeline)
    requires p.rate > 0 && DecodedOk(p) && p.chunk.Chunk?
    requires var end := p.chunk.position + p.chunk.frames;
             t.decoded == p.decoded.(anchors := DropThrough(p.decoded.anchors, end - 1))
    requires t.rate == p.rate && t.pending == p.pending
    ensures AnchorsWithin(t.decoded.anchors, p.chunk.position + p.chunk.frames, t.decoded.write) && PendingOk(t)
  {
    var anchors := p.decoded.anchors;
    var end := p.chunk.position + p.chunk.frames;
    var k := DropIsSuffix(anchors, end - 1);
    forall i | k < i < |anchors|
      ensures end <= anchors[i].framePosition
    {
      assert anchors[k + 1].framePosition <= anchors[i].framePosition;
    }
    SuffixKeepsPending(p, t, k);
  }

  lemma {:induction false} ChunkCovered(p: Pipeline, anchors: seq<Anchor>, tags: seq<Tag>, n: nat)
    requires p.rate > 0 && DecodedOk(p) && p.chunk.Chunk? && n <= p.chunk.frames
    requires anchors == p.processed.anchors + Issued(p) && Ascending(anchors)
    requires tags == p.decoded.tags[p.chunk.position..p.chunk.position + p.chunk.frames]
    ensures forall i | 0 <= i < n :: Covered(anchors, p.processed.write + i, tags[i], 1, p.rate)
  {
    hide Covered, Issued, Micros;
    if n > 0 {
      ChunkCovered(p, anchors, tags, n - 1);
      ChunkFrameCovered(p, n - 1);
      assert tags[n - 1] == p.decoded.tags[p.chunk.position + (n - 1)];
    }
  }

  lemma LongerLaneCovered(o: Lane, low: nat, frames: nat, tags: seq<Tag>, slack: nat, rate: nat)
    requires rate > 0 && |o.tags| == o.write && |tags| == frames
    requires LaneCovered(o, low, slack, rate)
    requires forall i | 0 <= i < |tags| :: Covered(o.anchors, o.write + i, tags[i], slack, rate)
    ensures LaneCovered(o.(write := o.write + frames, tags := o.tags + tags), low, slack, rate)
  {
    var t := o.(write := o.write + frames, tags := o.tags + tags);
    forall q | low <= q < t.write
      ensures Covered(o.anchors, q, t.tags[q], slack, rate)
    {
      if q >= o.write {
        assert t.tags[q] == tags[q - o.write];
        assert Covered(o.anchors, o.write + (q - o.write), tags[q - o.write], slack, rate);
      }
    }
  }

  lemma PublishedLaneCovered(p: Pipeline, o: Lane)
    requires Inv(p) && p.chunk.Chunk? && Ascending(p.processed.anchors + Issued(p))
    requires forall i | 0 <= i < |Issued(p)| :: p.processed.write <= Issued(p)[i].framePosition
    requires o == p.processed.(write := p.processed.write + p.chunk.frames, anchors := p.processed.anchors + Issued(p),
                               tags := p.processed.tags
                                       + p.decoded.tags[p.chunk.position..p.chunk.position + p.chunk.frames])
    ensures |o.tags| == o.write && LaneCovered(o, p.floor, 1, p.rate)
  {
    var before := p.processed;
    var tags := p.decoded.tags[p.chunk.position..p.chunk.position + p.chunk.frames];
    EarlierFramesCovered(before, p.floor, Issued(p), p.rate);
    ChunkCovered(p, o.anchors, tags, p.chunk.frames);
    LongerLaneCovered(before.(anchors := o.anchors), p.floor, p.chunk.frames, tags, 1, p.rate);
  }

  lemma EarlierFramesCovered(o: Lane, low: nat, more: seq<Anchor>, rate: nat)
    requires rate > 0 && LaneOk(o) && LaneCovered(o, low, 1, rate) && Ascending(o.anchors + more)
    requires forall i | 0 <= i < |more| :: o.write <= more[i].framePosition
    ensures LaneCovered(o.(anchors := o.anchors + more), low, 1, rate)
  {
    forall q | low <= q < o.write
      ensures Covered(o.anchors + more, q, o.tags[q], 1, rate)
    {
      AppendKeepsCovered(o.anchors, more, q, o.tags[q], 1, rate);
    }
  }

  lemma PublishedAnchorsWithin(p: Pipeline)
    requires Inv(p) && p.chunk.Chunk?
    ensures var all := p.processed.anchors + Issued(p);
            && AnchorsWithin(all, p.floor, p.processed.write + p.chunk.frames)
            && forall i | 0 <= i < |all| :: all[i].framePosition < p.processed.write + p.chunk.frames
  {
    hide LaneCovered, Rebased, DropThrough, Ascending, Issued, DecodedOk;
    ProcessedHasRoom(p);
    var o, issued := p.processed, Issued(p);
    var all := o.anchors + issued;
    AscendingSuffix(o.anchors, issued);
    IssuedBeyondFloor(p, all);
    forall i | 0 <= i < |all| ensures all[i].framePosition < o.write + p.chunk.frames {
      if i >= |o.anchors| {
        assert all[i] == issued[i - |o.anchors|];
      }
    }
  }

  lemma AscendingSuffix(front: seq<Anchor>, back: seq<Anchor>)
    requires Ascending(front + back)
    ensures Ascending(back)
  {
    forall i, j | 0 <= i < j < |back| ensures back[i].framePosition < back[j].framePosition {
      assert (front + back)[|front| + i] == back[i] && (front + back)[|front| + j] == back[j];
    }
  }

  lemma PublishKeepsProcessed(p: Pipeline, t: Pipeline)
    requires Inv(p) && p.chunk.Chunk? && t == Published(p)
    ensures ProcessedOk(t)
  {
    hide LaneCovered, AnchorsWithin, Issued, Rebased, DropThrough;
    ProcessedHasRoom(p);
    PublishedAnchorsWithin(p);
    PublishedLaneCovered(p, t.processed);
  }

  lemma ChunkFrameCovered(p: Pipeline, i: nat)
    requires p.rate > 0 && DecodedOk(p) && p.chunk.Chunk? && i < p.chunk.frames
    requires Ascending(p.processed.anchors + Issued(p))
    ensures Covered(p.processed.anchors + Issued(p), p.processed.write + i, p.decoded.tags[p.chunk.position + i], 1,
                    p.rate)
  {
    hide Micros, Covered;
    var d, o := p.decoded, p.processed;
    var input, position := p.chunk.position, p.chunk.position + i;
    DropAscends(d.anchors, input);
    DropKeepsCovered(d.anchors, input, position, d.tags[position], 0, p.rate);
    IssuedCovers(o.anchors, Kept(p), input, p.chunk.frames, o.write, p.rate, position, d.tags[position]);
  }

  // ----- the callback -----

  lemma ClockOk(p: Pipeline, delayFrames: nat)
    requires Inv(p) && p.owesClock
    ensures Inv(AfterClock(p, delayFrames))
  {
    hide ClockAt, Micros;
    var t := AfterClock(p, delayFrames);
    var o := p.processed;
    DropAscends(o.anchors, o.read);
    DropKeepsLaneCovered(o, o.read, o.read, 1, p.rate);
    var k := DropIsSuffix(o.anchors, o.read);
  }

  lemma StepKeepsInv(p: Pipeline, step: Step)
    requires Inv(p) && Enabled(p, step)
    ensures Inv(Apply(p, step))
  {
    match step
    case BeginChunkWrite(first, frames) => BeginWriteOk(p, first, frames);
    case PublishChunkWrite => PublishWriteOk(p);
    case DspRead(frames) => DspReadOk(p, frames);
    case DspPublish =>
      PublishSucceeds(p);
      PublishKeepsDecoded(p, Published(p));
      PublishKeepsProcessed(p, Published(p));
    case CallbackRead(_) =>
    case CallbackClock(delayFrames) => ClockOk(p, delayFrames);
    case Reset =>
  }

  lemma {:induction false} RunKeepsInv(p: Pipeline, steps: seq<Step>, last: Pipeline)
    requires Inv(p) && Executes(p, steps, last)
    ensures Inv(last)
    decreases |steps|
  {
    if steps != [] {
      StepKeepsInv(p, steps[0]);
      RunKeepsInv(Apply(p, steps[0]), steps[1..], last);
    }
  }

  /** The abort in appendTimelineAnchor is unreachable, however writer, DSP, callback and resets interleave. */
  lemma RunNeverAborts(p: Pipeline, steps: seq<Step>, last: Pipeline)
    requires Initial(p) && Executes(p, steps, last)
    ensures !last.aborted
    ensures |last.decoded.anchors| <= DecodedPeak(last) <= AnchorRoom(last.decoded)
    ensures |last.processed.anchors| <= ProcessedPeak(last) <= AnchorRoom(last.processed)
  {
    RunKeepsInv(p, steps, last);
    var d, o := last.decoded, last.processed;
    CountInWindow(d.anchors, Low(last), if last.pending.NoWrite? then d.write else d.write + 1);
    CountInWindow(o.anchors, last.floor, o.write);
  }

  /**
   The callback's clock as a time of one frame of a write call, at most two microseconds early, less what
   the device holds back.
   */
  ghost predicate Dates(clock: Reading, position: nat, tag: Tag, offset: nat, delayFrames: nat, rate: nat)
    requires rate > 0 && tag.Stamped?
  {
    var truth := tag.startUs + Micros(offset, rate) - Micros(delayFrames, rate);
    clock.Reading? && clock.position == position && clock.serial == tag.serial && truth - 2 <= clock.ptsUs <= truth
  }

  /**
   The clock the callback sets is within two microseconds of the time the stream's own write calls give it:
   the error does not grow with the number of chunks the stream was cut into. While frames are left it is
   the time of the next one; once the ring is drained, it is the time at which the last one delivered ends,
   unless a reset has come between that delivery and the clock.
   */
  lemma ClockIsWithinTwoMicros(p: Pipeline, steps: seq<Step>, last: Pipeline, delayFrames: nat)
    requires Initial(p) && Executes(p, steps, last) && Enabled(last, CallbackClock(delayFrames))
    ensures var o := last.processed;
            var clock := Apply(last, CallbackClock(delayFrames)).clock;
            && last.floor <= o.read <= o.write == |o.tags|
            && (o.read < o.write && o.tags[o.read].Stamped? ==>
                  Dates(clock, o.read, o.tags[o.read], o.tags[o.read].offset, delayFrames, last.rate))
            && (last.floor < o.read == o.write && o.tags[o.read - 1].Stamped? ==>
                  Dates(clock, o.read, o.tags[o.read - 1], o.tags[o.read - 1].offset + 1, delayFrames, last.rate))
  {
    RunKeepsInv(p, steps, last);
    var o := last.processed;
    if o.read < o.write && o.tags[o.read].Stamped? {
      FrontTells(o.anchors, o.read, o.tags[o.read], last.rate);
    }
    if last.floor < o.read == o.write && o.tags[o.read - 1].Stamped? {
      DrainedFrontTells(o.anchors, o.read, o.tags[o.read - 1], last.rate);
    }
  }

  /** With no anchor at or after the read position, the front is the one of the frame before it. */
  lemma DrainedFrontTells(anchors: seq<Anchor>, position: nat, tag: Tag, rate: nat)
    requires rate > 0 && Ascending(anchors) && tag.Stamped? && position > 0
    requires forall i | 0 <= i < |anchors| :: anchors[i].framePosition < position
    requires Covered(anchors, position - 1, tag, 1, rate)
    ensures var kept := DropThrough(anchors, position);
            && kept != [] && kept[0].framePosition <= position && kept[0].serial == tag.serial
            && var truth := tag.startUs + Micros(tag.offset + 1, rate);
               truth - 2 <= PtsAt(kept[0], position, rate) <= truth
  {
    hide Micros;
    var k := DropIsSuffix(anchors, position);
    LatestIs(anchors, position - 1, k);
    var behind := position - anchors[k].framePosition;
    MicrosSplit(tag.offset - (behind - 1), behind, rate);
  }

  /** After the callback's pops the front anchor is the one that governs its read position. */
  lemma FrontTells(anchors: seq<Anchor>, position: nat, tag: Tag, rate: nat)
    requires rate > 0 && Ascending(anchors) && tag.Stamped? && Covered(anchors, position, tag, 1, rate)
    ensures var kept := DropThrough(anchors, position);
            && kept != [] && kept[0].framePosition <= position && kept[0].serial == tag.serial
            && var truth := tag.startUs + Micros(tag.offset, rate);
               truth - 2 <= PtsAt(kept[0], position, rate) <= truth
  {
    hide Micros;
    var kept := DropThrough(anchors, position);
    DropAscends(anchors, position);
    DropKeepsCovered(anchors, position, position, tag, 1, rate);
    var behind := position - kept[0].framePosition;
    MicrosSplit(tag.offset - behind, behind, rate);
  }

  // ----- the room is exact -----

  lemma {:induction false} ExecutesAppend(p: Pipeline, first: seq<Step>, middle: Pipeline, second: seq<Step>,
                                          last: Pipeline)
    requires Executes(p, first, middle) && Executes(middle, second, last)
    ensures Executes(p, first + second, last)
    decreases |first|
  {
    if first == [] {
      assert first + second == second;
    } else {
      ExecutesAppend(Apply(p, first[0]), first[1..], middle, second, last);
      assert (first + second)[1..] == first[1..] + second;
    }
  }

  ghost predicate Consecutive(anchors: seq<Anchor>, from: nat) {
    forall i | 0 <= i < |anchors| :: anchors[i].framePosition == from + i
  }

  /** `n` timestamped one-frame writes leave one anchor each. */
  lemma {:induction false} SingleWrites(p: Pipeline, n: nat, from: nat) returns (steps: seq<Step>, last: Pipeline)
    requires Inv(p) && p.pending.NoWrite? && n <= p.decoded.capacity - Buffered(p.decoded)
    requires Consecutive(p.decoded.anchors, from) && from + |p.decoded.anchors| == p.decoded.write
    ensures Executes(p, steps, last) && Inv(last)
    ensures last == p.(decoded := last.decoded)
    ensures last.decoded == p.decoded.(write := p.decoded.write + n, anchors := last.decoded.anchors,
                                       tags := last.decoded.tags)
    ensures |last.decoded.anchors| == |p.decoded.anchors| + n && Consecutive(last.decoded.anchors, from)
    decreases n
  {
    if n == 0 {
      steps, last := [], p;
    } else {
      var begin := BeginChunkWrite(Stamped(0, 0, 0), 1);
      DecodedHasRoom(p);
      var q := Apply(p, begin);
      StepKeepsInv(p, begin);
      var r := Apply(q, PublishChunkWrite);
      StepKeepsInv(q, PublishChunkWrite);
      var more, end := SingleWrites(r, n - 1, from);
      assert Executes(q, [PublishChunkWrite] + more, end);
      steps, last := [begin] + ([PublishChunkWrite] + more), end;
      assert steps[1..] == [PublishChunkWrite] + more;
    }
  }

  lemma OneStep(p: Pipeline, step: Step)
    requires Enabled(p, step)
    ensures Executes(p, [step], Apply(p, step))
  {
    assert Executes(Apply(p, step), [], Apply(p, step));
  }

  lemma DropConsecutive(anchors: seq<Anchor>, from: nat, c: nat)
    requires Consecutive(anchors, from) && c < |anchors|
    ensures Consecutive(DropThrough(anchors, from + c), from + c) && |DropThrough(anchors, from + c)| == |anchors| - c
  {
    var k := DropIsSuffix(anchors, from + c);
  }

  /** A pipeline at rest but for a full decoded ring of one-frame writes, all anchors from `from` on in place. */
  ghost predicate FullOfAnchors(p: Pipeline, from: nat) {
    && Inv(p) && p.pending.NoWrite? && Buffered(p.decoded) == p.decoded.capacity
    && Consecutive(p.decoded.anchors, from) && from + |p.decoded.anchors| == p.decoded.write
  }

  /** Reading a chunk out of a full ring and filling the ring again behind it. */
  lemma ReadAndRefill(p: Pipeline, from: nat) returns (steps: seq<Step>, last: Pipeline)
    requires FullOfAnchors(p, from) && p.chunk.NoChunk? && Buffered(p.processed) == 0
    ensures var c := LargestChunk(p);
            && Executes(p, steps, last) && FullOfAnchors(last, from)
            && |last.decoded.anchors| == |p.decoded.anchors| + c && last.chunk == Chunk(p.decoded.read, c)
            && last.processed == p.processed && last.owesClock == p.owesClock
            && last.decoded.capacity == p.decoded.capacity && last.decoded.read == p.decoded.read + c
            && last.target == p.target
  {
    var c := LargestChunk(p);
    var read := DspRead(c);
    StepKeepsInv(p, read);
    OneStep(p, read);
    var q := Apply(p, read);
    var more, end := SingleWrites(q, c, from);
    ExecutesAppend(p, [read], q, more, end);
    steps, last := [read] + more, end;
  }

  /** Publishing that chunk leaves its last anchor; the callback empties the processed ring. */
  lemma PublishAndDrain(p: Pipeline) returns (steps: seq<Step>, last: Pipeline)
    requires FullOfAnchors(p, 0) && p.chunk == Chunk(0, LargestChunk(p)) && Buffered(p.processed) == 0 && !p.owesClock
    requires p.decoded.read == LargestChunk(p)
    ensures var c := LargestChunk(p);
            && Executes(p, steps, last) && FullOfAnchors(last, c - 1) && last.chunk.NoChunk?
            && Buffered(last.processed) == 0 && last.processed.capacity == p.processed.capacity
            && last.target == p.target
            && last.decoded.capacity == p.decoded.capacity && |last.decoded.anchors| == p.decoded.capacity + 1
  {
    var c := LargestChunk(p);
    StepKeepsInv(p, DspPublish);
    var q := Apply(p, DspPublish);
    DropTwice(p.decoded.anchors, 0, c - 1);
    DropConsecutive(p.decoded.anchors, 0, c - 1);
    PublishSucceeds(p);
    last := Apply(q, CallbackRead(c));
    StepKeepsInv(q, CallbackRead(c));
    OneStep(p, DspPublish);
    OneStep(q, CallbackRead(c));
    ExecutesAppend(p, [DspPublish], q, [CallbackRead(c)], last);
    steps := [DspPublish] + [CallbackRead(c)];
  }

  function Empty(rate: nat, decoded: nat, processed: nat, target: nat): Pipeline {
    Pipeline(rate, target, Lane(decoded, 0, 0, [], []), Lane(processed, 0, 0, [], []), NoChunk, NoWrite, false, 0,
             NoReading, false)
  }

  /** For any two ring sizes and any target some run fills the decoded timeline up to its bound. */
  lemma DecodedPeakIsReached(rate: nat, decoded: nat, processed: nat, target: nat)
    returns (steps: seq<Step>, last: Pipeline)
    requires rate > 0 && decoded > 0 && 0 < target <= processed
    ensures Initial(Empty(rate, decoded, processed, target))
    ensures Executes(Empty(rate, decoded, processed, target), steps, last)
    ensures |last.decoded.anchors| == decoded + Min(CHUNK_FRAMES, Min(decoded, target)) + 1
  {
    var p0 := Empty(rate, decoded, processed, target);
    var s1, p1 := SingleWrites(p0, decoded, 0);
    var s2, p2 := ReadAndRefill(p1, 0);
    var s3, p3 := PublishAndDrain(p2);
    var s4, p4 := ReadAndRefill(p3, LargestChunk(p0) - 1);
    ExecutesAppend(p0, s1, p1, s2, p2);
    ExecutesAppend(p0, s1 + s2, p2, s3, p3);
    ExecutesAppend(p0, s1 + s2 + s3, p3, s4, p4);
    steps, last := s1 + s2 + s3 + s4, p4;
  }

  /** All that is buffered is in the processed ring, one anchor a frame from `from` on. */
  ghost predicate Streaming(p: Pipeline, from: nat) {
    && Inv(p) && p.pending.NoWrite? && p.chunk.NoChunk? && Buffered(p.decoded) == 0
    && |p.decoded.anchors| <= 1
    && Consecutive(p.processed.anchors, from) && from + |p.processed.anchors| == p.processed.write
  }

  ghost predicate SameSetting(p: Pipeline, q: Pipeline) {
    && q.rate == p.rate && q.target == p.target && q.floor == p.floor && q.owesClock == p.owesClock
    && q.decoded.capacity == p.decoded.capacity && q.processed.capacity == p.processed.capacity
    && q.processed.read == p.processed.read
  }

  const ONE_FRAME := BeginChunkWrite(Stamped(0, 0, 0), 1)

  /** One timestamped frame, written and read as a chunk. */
  lemma OneFrameIn(p: Pipeline, from: nat) returns (steps: seq<Step>, last: Pipeline)
    requires Streaming(p, from) && Buffered(p.processed) < p.target
    ensures Executes(p, steps, last) && Inv(last) && SameSetting(p, last) && last.processed == p.processed
    ensures last.pending.NoWrite? && last.chunk == Chunk(p.decoded.write, 1) && Buffered(last.decoded) == 0
    ensures last.decoded.write == p.decoded.write + 1
    ensures |last.decoded.anchors| == |p.decoded.anchors| + 1 <= 2
    ensures last.decoded.anchors[|p.decoded.anchors|].framePosition == p.decoded.write
  {
    DecodedHasRoom(p);
    var q := Apply(p, ONE_FRAME);
    StepKeepsInv(p, ONE_FRAME);
    var r := Apply(q, PublishChunkWrite);
    StepKeepsInv(q, PublishChunkWrite);
    last := Apply(r, DspRead(1));
    StepKeepsInv(r, DspRead(1));
    OneStep(r, DspRead(1));
    assert Executes(q, [PublishChunkWrite] + [DspRead(1)], last);
    steps := [ONE_FRAME] + ([PublishChunkWrite] + [DspRead(1)]);
    assert steps[1..] == [PublishChunkWrite] + [DspRead(1)];
  }

  /** And published, with its anchor. */
  lemma OneFrameOut(p: Pipeline, from: nat)
    requires Inv(p) && p.pending.NoWrite? && p.chunk.Chunk? && p.chunk.frames == 1 && Buffered(p.decoded) == 0
    requires 1 <= |p.decoded.anchors| <= 2 &&
             p.decoded.anchors[|p.decoded.anchors| - 1].framePosition == p.chunk.position
    requires Consecutive(p.processed.anchors, from) && from + |p.processed.anchors| == p.processed.write
    ensures var q := Apply(p, DspPublish);
            Streaming(q, from) && SameSetting(p, q) && |q.processed.anchors| == |p.processed.anchors| + 1
  {
    PublishSucceeds(p);
    StepKeepsInv(p, DspPublish);
    var kept := Kept(p);
    if |p.decoded.anchors| == 2 {
      assert DropThrough(p.decoded.anchors[1..], p.chunk.position) == p.decoded.anchors[1..];
    }
    assert |kept| == 1 && kept[0].framePosition == p.chunk.position;
    assert kept[1..] == [];
    assert CountBelow(kept, p.chunk.position + 1) == 1;
  }

  lemma {:induction false} FillProcessed(p: Pipeline, n: nat, from: nat) returns (steps: seq<Step>, last: Pipeline)
    requires Streaming(p, from) && n <= p.target - Buffered(p.processed)
    ensures Executes(p, steps, last) && Streaming(last, from) && SameSetting(p, last)
    ensures |last.processed.anchors| == |p.processed.anchors| + n && last.processed.write == p.processed.write + n
    decreases n
  {
    if n == 0 {
      steps, last := [], p;
    } else {
      var s1, q := OneFrameIn(p, from);
      OneFrameOut(q, from);
      var r := Apply(q, DspPublish);
      OneStep(q, DspPublish);
      ExecutesAppend(p, s1, q, [DspPublish], r);
      var s2;
      s2, last := FillProcessed(r, n - 1, from);
      ExecutesAppend(p, s1 + [DspPublish], r, s2, last);
      steps := s1 + [DspPublish] + s2;
    }
  }

  /** The callback takes all that is processed ahead, with its clock update or before it. */
  lemma Drain(p: Pipeline, from: nat) returns (last: Pipeline)
    requires Streaming(p, from) && !p.owesClock && Buffered(p.processed) > 0
    ensures Executes(p, [CallbackRead(Buffered(p.processed))], last) && Streaming(last, from)
    ensures last == p.(processed := p.processed.(read := p.processed.write), owesClock := true)
  {
    var read := CallbackRead(Buffered(p.processed));
    StepKeepsInv(p, read);
    OneStep(p, read);
    last := Apply(p, read);
  }

  lemma EmptyStreams(rate: nat, decoded: nat, processed: nat, target: nat)
    requires rate > 0 && decoded > 0 && 0 < target <= processed
    ensures Streaming(Empty(rate, decoded, processed, target), 0)
    ensures Initial(Empty(rate, decoded, processed, target))
  {
  }

  /** The processed timeline's bound is reached in some run too: the ring's own size does not matter. */
  lemma ProcessedPeakIsReached(rate: nat, decoded: nat, processed: nat, target: nat)
    returns (steps: seq<Step>, last: Pipeline)
    requires rate > 0 && decoded > 0 && 0 < target <= processed
    ensures Initial(Empty(rate, decoded, processed, target))
    ensures Executes(Empty(rate, decoded, processed, target), steps, last)
    ensures |last.processed.anchors| == 2 * target + 1
  {
    hide Streaming, Executes, Apply, Initial;
    var p0 := Empty(rate, decoded, processed, target);
    EmptyStreams(rate, decoded, processed, target);
    var s1, p1 := FillProcessed(p0, target, 0);
    var p2 := Drain(p1, 0);
    var p3 := ClockAfterDrain(p2);
    var s4, p4 := FillProcessed(p3, target, target - 1);
    var p5 := Drain(p4, target - 1);
    var s6, p6 := FillProcessed(p5, target, target - 1);
    var read, clock := [CallbackRead(target)], [CallbackClock(0)];
    ExecutesAppend(p0, s1, p1, read, p2);
    ExecutesAppend(p0, s1 + read, p2, clock, p3);
    ExecutesAppend(p0, s1 + read + clock, p3, s4, p4);
    ExecutesAppend(p0, s1 + read + clock + s4, p4, read, p5);
    ExecutesAppend(p0, s1 + read + clock + s4 + read, p5, s6, p6);
    steps, last := s1 + read + clock + s4 + read + s6, p6;
  }

  /** How the source is started for a file and for a stream: ring, target and prime. */
  datatype Priming = Priming(capacityFrames: nat, targetFrames: nat, primeFrames: nat)

  function ForFile(rate: nat): Priming {
    var capacity := Max(rate / 2, 8192);
    var target := Min(capacity, Max(rate / 4, 4096));
    Priming(capacity, target, Min(target, Max(rate / 10, 4096)))
  }

  function ForStream(rate: nat): Priming {
    var capacity := Max(rate, 8192);
    Priming(capacity, Min(capacity, Max(rate / 2, ForFile(rate).targetFrames)), ForFile(rate).primeFrames)
  }

  /**
   Started for a file or a stream of any rate, the processed timeline always has room to spare, and so has the
   decoded one, with never more than 6145 anchors. Some run meets each bound, as the two lemmas above show.
   */
  lemma StartedPeaks(rate: nat, priming: Priming, steps: seq<Step>, last: Pipeline)
    requires rate > 0 && (priming == ForFile(rate) || priming == ForStream(rate))
    requires Executes(Started(rate, priming), steps, last)
    ensures Initial(Started(rate, priming)) && priming.primeFrames <= priming.targetFrames
    ensures |last.processed.anchors| <= 2 * priming.targetFrames + 1 < AnchorRoom(last.processed)
    ensures |last.decoded.anchors| <= 6145 < AnchorRoom(last.decoded)
  {
    RunNeverAborts(Started(rate, priming), steps, last);
    RunKeepsSizes(Started(rate, priming), steps, last);
  }

  /**
   From 40960 Hz on, half a second is kept for a file, a quarter processed ahead and a tenth before it starts to sound;
   for a stream a whole second and half of it. Low rates have 8192 and 4096 frames.
   */
  lemma PrimingIs(rate: nat)
    ensures rate >= 40960 ==>
              ForFile(rate) == Priming(rate / 2, rate / 4, rate / 10) &&
                ForStream(rate) == Priming(rate, rate / 2, rate / 10)
    ensures 8192 < rate <= 16384 ==>
              ForFile(rate) == Priming(8192, 4096, 4096) && ForStream(rate) == Priming(rate, Max(rate / 2, 4096), 4096)
    ensures rate <= 8192 ==>
              ForFile(rate) == Priming(8192, 4096, 4096) && ForStream(rate) == Priming(8192, 4096, 4096)
    ensures 16384 < rate < 40960 ==>
              && ForFile(rate) == Priming(Max(rate / 2, 8192), Max(rate / 4, 4096), 4096)
              && ForStream(rate) == Priming(rate, rate / 2, 4096)
  {
  }

  function Started(rate: nat, priming: Priming): Pipeline {
    Empty(rate, Min(priming.capacityFrames, HANDOFF_FRAMES), priming.capacityFrames, priming.targetFrames)
  }

  lemma {:induction false} RunKeepsSizes(p: Pipeline, steps: seq<Step>, last: Pipeline)
    requires Executes(p, steps, last)
    ensures last.target == p.target && last.decoded.capacity == p.decoded.capacity
    ensures last.processed.capacity == p.processed.capacity
    decreases |steps|
  {
    if steps != [] {
      RunKeepsSizes(Apply(p, steps[0]), steps[1..], last);
    }
  }

  /** The clock update leaves one anchor of a drained ring: the last frame's. */
  lemma ClockAfterDrain(p: Pipeline) returns (last: Pipeline)
    requires Streaming(p, 0) && p.owesClock && Buffered(p.processed) == 0 && p.processed.write == p.target
    ensures Executes(p, [CallbackClock(0)], last) && Streaming(last, p.target - 1) && !last.owesClock
    ensures Buffered(last.processed) == 0 && |last.processed.anchors| == 1 && last.target == p.target
  {
    StepKeepsInv(p, CallbackClock(0));
    OneStep(p, CallbackClock(0));
    last := Apply(p, CallbackClock(0));
    var k := DropIsSuffix(p.processed.anchors, p.target);
  }

  // ----- the loops -----

  lemma RebasedAtLeast(anchors: seq<Anchor>, input: nat, frames: nat, output: nat, rate: nat, n: nat)
    requires rate > 0 && n < |anchors| && forall k | 0 <= k <= n :: anchors[k].framePosition < input + frames
    ensures |Rebased(anchors, input, frames, output, rate)| > n
  {
  }

  lemma RebasedIs(anchors: seq<Anchor>, input: nat, frames: nat, output: nat, rate: nat, done: seq<Anchor>)
    requires rate > 0 && |done| <= |anchors|
    requires forall k | 0 <= k < |done| ::
             anchors[k].framePosition < input + frames && done[k] == Rebase(anchors[k], input, output, rate)
    requires |done| < |anchors| ==> anchors[|done|].framePosition >= input + frames
    ensures Rebased(anchors, input, frames, output, rate) == done
  {
  }

  datatype Timestamp = NoTimestamp | At(us: int)

  /** The queue state the writer, the DSP thread and the callback each update in place. */
  class AudioState {
    const sampleRate: nat
    const outputTargetFrames: nat
    var decoded: Lane
    var processed: Lane
    var clock: Reading
    var streamClockReady: bool
    var streamUpdateCounter: nat
    var streamSerial: int
    var streamDiscardPtsUs: nat
    var streamQueueEnabled: bool
    var aborted: bool

    constructor (sampleRate: nat, outputCapacityFrames: nat, outputTargetFrames: nat, serial: int)
      requires sampleRate > 0 && 0 < outputTargetFrames <= outputCapacityFrames
      ensures this.sampleRate == sampleRate && this.outputTargetFrames == outputTargetFrames && Valid() && !aborted
      ensures decoded == Lane(Min(outputCapacityFrames, HANDOFF_FRAMES), 0, 0, [], [])
      ensures processed == Lane(outputCapacityFrames, 0, 0, [], [])
    {
      this.sampleRate, this.outputTargetFrames := sampleRate, outputTargetFrames;
      decoded := Lane(Min(outputCapacityFrames, HANDOFF_FRAMES), 0, 0, [], []);
      processed := Lane(outputCapacityFrames, 0, 0, [], []);
      clock, streamClockReady, streamUpdateCounter := NoReading, false, 0;
      streamSerial, streamDiscardPtsUs, streamQueueEnabled, aborted := serial, 0, true, false;
    }

    ghost predicate Valid()
      reads this
    {
      sampleRate > 0 && LaneOk(decoded) && LaneOk(processed) && 0 < outputTargetFrames <= processed.capacity
    }

    /** What a write call finds here at its start; it does not look at the rest yet. */
    ghost function Found(): Look
      reads this
    {
      Look(decoded, streamSerial, streamDiscardPtsUs, streamQueueEnabled, false, false)
    }

    /** How much the DSP thread reads in one go: the most it may, and nothing if it has to wait. */
    method FramesToProcess() returns (frames: nat)
      requires Valid()
      ensures forall now: Pipeline, n: nat | n > 0 && now.rate > 0 && now.chunk.NoChunk? && now.decoded == decoded
                && now.processed == processed && now.target == outputTargetFrames ::
                Enabled(now, DspRead(n)) <==> n <= frames
    {
      var inputFrames := decoded.write - decoded.read;
      var outputFrames := processed.write - processed.read;
      var outputWritable := processed.capacity - outputFrames;
      if inputFrames == 0 || outputWritable == 0 || outputFrames >= outputTargetFrames {
        return 0;
      }
      frames := Min(Min(inputFrames, outputWritable), Min(outputTargetFrames - outputFrames, CHUNK_FRAMES));
    }

    /** Pops decoded anchors while the one behind the front is at or before `position`. */
    method RetireDecoded(position: int)
      modifies this`decoded
      ensures decoded == old(decoded).(anchors := DropThrough(old(decoded).anchors, position))
    {
      while |decoded.anchors| >= 2 && decoded.anchors[1].framePosition <= position
        invariant decoded == old(decoded).(anchors := decoded.anchors)
        invariant DropThrough(decoded.anchors, position) == DropThrough(old(decoded).anchors, position)
        decreases |decoded.anchors|
      {
        decoded := decoded.(anchors := decoded.anchors[1..]);
      }
    }

    /** Appends to the processed timeline what the decoded one says about a chunk. */
    method ReissueAnchors(inputPosition: nat, frames: nat)
      requires sampleRate > 0 && frames > 0 && !aborted
      requires forall k | 1 <= k < |decoded.anchors| :: decoded.anchors[k].framePosition > inputPosition
      modifies this`processed, this`aborted
      ensures var issued := Rebased(decoded.anchors, inputPosition, frames, old(processed).write, sampleRate);
              && aborted == (issued != [] && |old(processed).anchors| + |issued| > AnchorRoom(old(processed)))
              && (!aborted ==> processed == old(processed).(anchors := old(processed).anchors + issued))
    {
      var outputPosition := processed.write;
      var inputEnd := inputPosition + frames;
      var input, output := decoded.anchors, processed.anchors;
      var room := AnchorRoom(processed);
      ghost var before := processed.anchors;
      ghost var done: seq<Anchor> := [];
      var anchorOffset := 0;
      if input != [] && input[0].framePosition <= inputPosition {
        RebasedAtLeast(input, inputPosition, frames, outputPosition, sampleRate, 0);
        if |output| >= room {
          aborted := true;
          return;
        }
        output := output + [Timeline.Anchor(outputPosition, PtsAt(input[0], inputPosition, sampleRate),
                                            input[0].serial)];
        anchorOffset, done := 1, [Rebase(input[0], inputPosition, outputPosition, sampleRate)];
      }
      while anchorOffset < |input|
        invariant |done| == anchorOffset <= |input|
        invariant forall k | 0 <= k < anchorOffset ::
                    input[k].framePosition < inputEnd &&
                      done[k] == Rebase(input[k], inputPosition, outputPosition, sampleRate)
        invariant anchorOffset < |input| ==> input[anchorOffset].framePosition > inputPosition
        invariant output == before + done
        invariant |output| <= room || anchorOffset == 0
        invariant !aborted && processed == old(processed)
      {
        var anchor := input[anchorOffset];
        if anchor.framePosition >= inputEnd {
          break;
        }
        if anchor.framePosition > inputPosition {
          if |output| >= room {
            RebasedAtLeast(input, inputPosition, frames, outputPosition, sampleRate, anchorOffset);
            aborted := true;
            return;
          }
          output := output + [Timeline.Anchor(outputPosition + anchor.framePosition - inputPosition, anchor.ptsUs,
                                              anchor.serial)];
        }
        done := done + [Rebase(anchor, inputPosition, outputPosition, sampleRate)];
        anchorOffset := anchorOffset + 1;
      }
      RebasedIs(input, inputPosition, frames, outputPosition, sampleRate, done);
      processed := processed.(anchors := output);
    }

    /** Re-issues the anchors of a chunk, publishes its frames and retires what is behind it. */
    method PublishProcessedAudio(inputPosition: nat, frames: nat)
      requires Valid() && frames > 0 && inputPosition + frames <= |decoded.tags| && !aborted
      modifies this`decoded, this`processed, this`aborted
      ensures var before := Pipeline(sampleRate, outputTargetFrames, old(decoded), old(processed),
                                     Chunk(inputPosition, frames), NoWrite, false, 0, NoReading, false);
              var after := AfterPublish(before);
              && aborted == after.aborted
              && (!aborted ==> decoded == after.decoded && processed == after.processed)
    {
      DropAscends(decoded.anchors, inputPosition);
      RetireDecoded(inputPosition);
      ReissueAnchors(inputPosition, frames);
      if aborted {
        return;
      }
      if frames > processed.capacity - (processed.write - processed.read) {
        aborted := true;
        return;
      }
      var inputEnd := inputPosition + frames;
      processed := processed.(write := processed.write + frames,
                              tags := processed.tags + decoded.tags[inputPosition..inputEnd]);
      RetireDecoded(inputEnd - 1);
    }

    /** The callback's clock update after it has read frames; it is announced only if there is a time to tell. */
    method UpdateStreamClock(delayFrames: nat)
      requires Valid()
      modifies this`processed, this`clock, this`streamClockReady, this`streamUpdateCounter
      ensures processed == old(processed).(anchors := DropThrough(old(processed).anchors, old(processed).read))
      ensures clock == ClockAt(processed.anchors, processed.read, delayFrames, sampleRate, old(clock))
      ensures var told := processed.anchors != [] && processed.anchors[0].framePosition <= processed.read;
              && streamClockReady == (old(streamClockReady) || told)
              && streamUpdateCounter == old(streamUpdateCounter) + if told then 1 else 0
    {
      var currentReadPosition := processed.read;
      while |processed.anchors| >= 2 && processed.anchors[1].framePosition <= currentReadPosition
        invariant processed == old(processed).(anchors := processed.anchors)
        invariant DropThrough(processed.anchors, currentReadPosition) ==
                  DropThrough(old(processed).anchors, currentReadPosition)
        invariant clock == old(clock) && streamClockReady == old(streamClockReady)
        invariant streamUpdateCounter == old(streamUpdateCounter)
        decreases |processed.anchors|
      {
        processed := processed.(anchors := processed.anchors[1..]);
      }
      if processed.anchors != [] && currentReadPosition >= processed.anchors[0].framePosition {
        var anchor := processed.anchors[0];
        var offset := currentReadPosition - anchor.framePosition;
        var pts := anchor.ptsUs + offset * 1000000 / sampleRate;
        clock := Reading(currentReadPosition, pts - delayFrames * 1000000 / sampleRate, anchor.serial);
        streamClockReady := true;
        streamUpdateCounter := streamUpdateCounter + 1;
      }
    }

    /** One turn of a write call under the queue lock, where it finds what others have left. */
    method WriteChunk(call: WriteCall, totalWritten: nat, look: Look) returns (turn: Turn)
      requires sampleRate > 0 && totalWritten < call.frames
      modifies this`decoded, this`streamSerial, this`streamDiscardPtsUs, this`streamQueueEnabled, this`aborted
      ensures (turn, decoded, streamDiscardPtsUs) == TurnOf(call, sampleRate, totalWritten, look)
      ensures aborted == (old(aborted) || turn == Ends(Abort))
    {
      decoded, streamSerial, streamDiscardPtsUs := look.decoded, look.serial, look.discardUntilUs;
      streamQueueEnabled := look.enabled;
      if look.stopped || look.blocked || !streamQueueEnabled {
        return Ends(Refused);
      }
      if call.serial != streamSerial {
        return Ends(Superseded);
      }
      if Discards(streamDiscardPtsUs, call.timestamp, totalWritten, sampleRate) {
        return Ends(Discarded);
      }
      streamDiscardPtsUs := 0;
      var framesToWrite := Fitting(decoded, call.frames - totalWritten);
      if framesToWrite == 0 {
        return if call.allowBlock then Waits else Ends(Done(totalWritten));
      }
      if call.timestamp.At? && |decoded.anchors| >= AnchorRoom(decoded) {
        aborted := true;
        return Ends(Abort);
      }
      var first := FirstTag(call.timestamp, totalWritten, call.serial);
      turn := Queues(ChunkWrite(decoded, first, framesToWrite));
      decoded := QueuedChunk(decoded, first, framesToWrite, sampleRate);
    }

    /**
     A write while others are at work: `looks` is what the call finds each time it takes the queue lock. At the
     end of the list it is still at it, or waits.
     */
    method Write(call: WriteCall, looks: seq<Look>)
      returns (accepted: bool, writtenFrames: nat, ghost run: WriteRun)
      requires Valid()
      modifies this`decoded, this`streamSerial, this`streamDiscardPtsUs, this`streamQueueEnabled, this`aborted
      ensures run == WriteAll(call, sampleRate, old(Found()), looks)
      ensures decoded == run.decoded && streamDiscardPtsUs == run.discardUntilUs
      ensures aborted == (old(aborted) || run.end.Abort?)
      ensures (accepted, writtenFrames) == Answer(run.end, call.frames)
    {
      hide TurnOf, LaneOk;
      run := WriteAll(call, sampleRate, Found(), looks);
      if call.frames == 0 || !streamQueueEnabled {
        return false, 0, run;
      }
      if call.serial != streamSerial {
        return true, 0, run;
      }
      var totalWritten: nat, i: nat := 0, 0;
      ghost var chunks: seq<ChunkWrite> := [];
      while totalWritten < call.frames
        invariant totalWritten <= call.frames && i <= |looks| && aborted == old(aborted)
        invariant run ==
                  Prefixed(chunks, WriteOn(call, sampleRate, decoded, streamDiscardPtsUs, totalWritten, looks[i..]))
        decreases |looks| - i
      {
        if i == |looks| {
          return false, 0, run;
        }
        assert looks[i..][0] == looks[i] && looks[i..][1..] == looks[i + 1..];
        var turn := WriteChunk(call, totalWritten, looks[i]);
        i := i + 1;
        match turn
        case Ends(reason) =>
          accepted, writtenFrames := Answer(reason, call.frames).0, Answer(reason, call.frames).1;
          return;
        case Waits =>
        case Queues(chunk) =>
          chunks := chunks + [chunk];
          totalWritten := totalWritten + chunk.frames;
      }
      accepted, writtenFrames := true, totalWritten;
    }
  }

  // ----- a write call among others -----

  datatype WriteCall = WriteCall(frames: nat, timestamp: Timestamp, serial: int, allowBlock: bool)

  /** What a call finds: `blocked` says that the transition does not let it write now. */
  datatype Look = Look(
    decoded: Lane,
    serial: int,
    discardUntilUs: nat,
    enabled: bool,
    stopped: bool,
    blocked: bool)

  /** Waiting is no end: others have the turn. */
  datatype WriteEnd = Refused | Superseded | Discarded | Done(written: nat) | Waiting | Abort

  /** One chunk as it is queued behind what the lane held. */
  datatype ChunkWrite = ChunkWrite(before: Lane, first: Tag, frames: nat)

  datatype WriteRun = WriteRun(end: WriteEnd, chunks: seq<ChunkWrite>, decoded: Lane, discardUntilUs: nat)

  /** What one turn under the lock comes to. */
  datatype Turn = Ends(reason: WriteEnd) | Waits | Queues(chunk: ChunkWrite)

  /** What the caller is told, acceptance and a number of frames; of a call that has not come back, nothing. */
  function Answer(end: WriteEnd, frames: nat): (bool, nat) {
    match end
    case Superseded => (true, 0)
    case Discarded => (true, frames)
    case Done(written) => (true, written)
    case _ => (false, 0)
  }

  function Prefixed(chunks: seq<ChunkWrite>, run: WriteRun): WriteRun {
    run.(chunks := chunks + run.chunks)
  }

  /** One turn with `total` frames of the call already queued: what it comes to, the lane and the threshold after it. */
  function TurnOf(call: WriteCall, rate: nat, total: nat, look: Look): (r: (Turn, Lane, nat))
    requires rate > 0 && total < call.frames
    ensures r.0.Queues? ==> 1 <= r.0.chunk.frames <= call.frames - total
  {
    var lane := look.decoded;
    var n := Fitting(lane, call.frames - total);
    if look.stopped || look.blocked || !look.enabled then (Ends(Refused), lane, look.discardUntilUs)
    else if look.serial != call.serial then (Ends(Superseded), lane, look.discardUntilUs)
    else if Discards(look.discardUntilUs, call.timestamp, total, rate) then
      (Ends(Discarded), lane, look.discardUntilUs)
    else if n == 0 then (if call.allowBlock then Waits else Ends(Done(total)), lane, 0)
    else if call.timestamp.At? && |lane.anchors| >= AnchorRoom(lane) then (Ends(Abort), lane, 0)
    else
      var first := FirstTag(call.timestamp, total, call.serial);
      (Queues(ChunkWrite(lane, first, n)), QueuedChunk(lane, first, n, rate), 0)
  }

  /** The loop from there on. */
  function WriteOn(call: WriteCall, rate: nat, decoded: Lane, discardUntilUs: nat, total: nat, looks: seq<Look>)
    : WriteRun
    requires rate > 0 && total <= call.frames
    decreases |looks|
  {
    if total == call.frames then WriteRun(Done(total), [], decoded, discardUntilUs)
    else if looks == [] then WriteRun(Waiting, [], decoded, discardUntilUs)
    else
      var (turn, lane, threshold) := TurnOf(call, rate, total, looks[0]);
      match turn
      case Ends(reason) => WriteRun(reason, [], lane, threshold)
      case Waits => WriteOn(call, rate, lane, threshold, total, looks[1..])
      case Queues(chunk) =>
        Prefixed([chunk], WriteOn(call, rate, lane, threshold, total + chunk.frames, looks[1..]))
  }

  /** A whole call, from the unlocked look at its start. */
  function WriteAll(call: WriteCall, rate: nat, start: Look, looks: seq<Look>): WriteRun
    requires rate > 0
  {
    if call.frames == 0 || !start.enabled then WriteRun(Refused, [], start.decoded, start.discardUntilUs)
    else if start.serial != call.serial then WriteRun(Superseded, [], start.decoded, start.discardUntilUs)
    else WriteOn(call, rate, start.decoded, start.discardUntilUs, 0, looks)
  }

  function TagsOf(chunks: seq<ChunkWrite>): seq<Tag> {
    if chunks == [] then [] else TagsFrom(chunks[0].first, chunks[0].frames) + TagsOf(chunks[1..])
  }

  /** A chunk the protocol lets the writer queue where it finds the lane. */
  ghost predicate Fits(chunk: ChunkWrite, serial: int) {
    && 1 <= chunk.frames <= chunk.before.capacity - Buffered(chunk.before)
    && (chunk.first.Stamped? ==> chunk.first.serial == serial)
  }

  /** The call found a sign to stop, another serial, or a discard threshold in force. */
  ghost predicate Disturbed(look: Look, call: WriteCall) {
    look.stopped || look.blocked || !look.enabled || look.serial != call.serial || look.discardUntilUs > 0
  }

  /**
   Whatever others do between its chunks, a call queues its frames in order without gap or repetition, each
   chunk in room the lane has and under the time stamp of its place in the call. Where it comes to its end it
   says how many, all of them if it may block, and only a disturbance brings it to another end.
   */
  lemma {:induction false} WriteOnQueues(call: WriteCall, rate: nat, decoded: Lane, discardUntilUs: nat, total: nat,
                                         looks: seq<Look>)
    requires rate > 0 && total <= call.frames
    ensures var run := WriteOn(call, rate, decoded, discardUntilUs, total, looks);
            var queued := |TagsOf(run.chunks)|;
            && TagsOf(run.chunks) == TagsFrom(FirstTag(call.timestamp, total, call.serial), queued)
            && total + queued <= call.frames
            && (run.end.Done? ==>
                  run.end.written == total + queued && (call.allowBlock ==> run.end.written == call.frames))
            && (forall k | 0 <= k < |run.chunks| :: Fits(run.chunks[k], call.serial))
            && ((run.end.Refused? || run.end.Superseded? || run.end.Discarded?) ==>
                  exists k | 0 <= k < |looks| :: Disturbed(looks[k], call))
    decreases |looks|
  {
    hide TurnOf, FirstTag, TagsFrom, Disturbed, Fits;
    TagsJoin(call, total, 0, 0);
    if total < call.frames && looks != [] {
      var (turn, lane, threshold) := TurnOf(call, rate, total, looks[0]);
      TurnIsOrderly(call, rate, total, looks[0]);
      assert forall k | 0 <= k < |looks[1..]| :: looks[1..][k] == looks[k + 1];
      match turn
      case Ends(_) =>
      case Waits => WriteOnQueues(call, rate, lane, threshold, total, looks[1..]);
      case Queues(chunk) =>
        WriteOnQueues(call, rate, lane, threshold, total + chunk.frames, looks[1..]);
        var rest := WriteOn(call, rate, lane, threshold, total + chunk.frames, looks[1..]).chunks;
        TagsJoin(call, total, chunk.frames, |TagsOf(rest)|);
        assert ([chunk] + rest)[1..] == rest;
    }
  }

  /**
   What the caller is told: nothing of an empty call or a closed queue, an accepted call of 0 frames for a
   stream that is no more, and otherwise what the frames queued amount to, or all of them if they were dropped.
   */
  lemma WriteAnswers(call: WriteCall, rate: nat, start: Look, looks: seq<Look>)
    requires rate > 0
    ensures var run := WriteAll(call, rate, start, looks);
            var answer, queued := Answer(run.end, call.frames), |TagsOf(run.chunks)|;
            if call.frames == 0 || !start.enabled
            then answer == (false, 0) && queued == 0 && run.decoded == start.decoded
            else if start.serial != call.serial then answer == (true, 0) && queued == 0 && run.decoded == start.decoded
            else
              && run == WriteOn(call, rate, start.decoded, start.discardUntilUs, 0, looks)
              && match run.end
                 case Done(_) => answer == (true, queued)
                 case Discarded => answer == (true, call.frames)
                 case Superseded => answer == (true, 0)
                 case _ => answer == (false, 0)
  {
    if call.frames > 0 && start.enabled && start.serial == call.serial {
      WriteOnQueues(call, rate, start.decoded, start.discardUntilUs, 0, looks);
    }
  }

  lemma TagsJoin(call: WriteCall, total: nat, n: nat, m: nat)
    ensures var first := FirstTag(call.timestamp, total, call.serial);
            && |TagsFrom(first, n)| == n
            && TagsFrom(first, n) + TagsFrom(FirstTag(call.timestamp, total + n, call.serial), m)
               == TagsFrom(first, n + m)
            && TagsFrom(first, 0) == []
  {
  }

  /** What a single turn may come to. */
  lemma TurnIsOrderly(call: WriteCall, rate: nat, total: nat, look: Look)
    requires rate > 0 && total < call.frames
    ensures var turn := TurnOf(call, rate, total, look).0;
            match turn
            case Queues(chunk) =>
              Fits(chunk, call.serial) && chunk.first == FirstTag(call.timestamp, total, call.serial)
            case Ends(Done(written)) => written == total && !call.allowBlock
            case Ends(Waiting) => false
            case Ends(Abort) => true
            case Ends(_) => Disturbed(look, call)
            case Waits => call.allowBlock
  {
  }

  predicate Stops(look: Look) {
    look.stopped || look.blocked || !look.enabled
  }

  /**
   What each turn comes to, by what it finds; `us` is the whole microseconds of the frames already queued. A
   chunk that starts before the discard threshold, or has no time, is dropped with the rest of the call; any
   other turn of the right stream clears the threshold and queues what there is room for.
   */
  lemma TurnComesTo(call: WriteCall, rate: nat, total: nat, look: Look, us: nat)
    requires rate > 0 && total < call.frames && rate * us <= total * 1000000 < rate * us + rate
    ensures var (turn, lane, threshold) := TurnOf(call, rate, total, look);
            var late := call.timestamp.NoTimestamp? || call.timestamp.us + us < look.discardUntilUs;
            var room := look.decoded.capacity + look.decoded.read - look.decoded.write;
            if Stops(look) then turn == Ends(Refused) && lane == look.decoded && threshold == look.discardUntilUs
            else if look.serial != call.serial then
              turn == Ends(Superseded) && lane == look.decoded && threshold == look.discardUntilUs
            else if look.discardUntilUs > 0 && late then
              turn == Ends(Discarded) && lane == look.decoded && threshold == look.discardUntilUs
            else if room <= 0 then
              && turn == (if call.allowBlock then Waits else Ends(Done(total)))
              && lane == look.decoded && threshold == 0
            else
              && threshold == 0
              && (turn == Ends(Abort) <==>
                    call.timestamp.At? && |look.decoded.anchors| >= 2 * look.decoded.capacity + 1)
              && (turn != Ends(Abort) ==>
                    && turn.Queues? && turn.chunk.before == look.decoded
                    && turn.chunk.frames == (if call.frames - total < room then call.frames - total else room)
                    && lane.write == look.decoded.write + turn.chunk.frames && lane.read == look.decoded.read)
  {
    QuotientIs(total * 1000000, rate, us, Micros(total, rate));
  }

  /** The chunk does not start before the threshold its turn found. */
  ghost predicate InTime(chunk: ChunkWrite, look: Look, rate: nat)
    requires rate > 0
  {
    && chunk.before == look.decoded && !Stops(look)
    && (look.discardUntilUs > 0 ==>
          chunk.first.Stamped? && chunk.first.startUs + Micros(chunk.first.offset, rate) >= look.discardUntilUs)
  }

  ghost predicate FoundInTime(chunk: ChunkWrite, looks: seq<Look>, rate: nat)
    requires rate > 0
  {
    exists j | 0 <= j < |looks| :: InTime(chunk, looks[j], rate)
  }

  lemma FoundLater(chunk: ChunkWrite, looks: seq<Look>, rate: nat)
    requires rate > 0 && looks != [] && FoundInTime(chunk, looks[1..], rate)
    ensures FoundInTime(chunk, looks, rate)
  {
    var j :| 0 <= j < |looks[1..]| && InTime(chunk, looks[1..][j], rate);
    assert InTime(chunk, looks[j + 1], rate);
  }

  ghost predicate AllInTime(chunks: seq<ChunkWrite>, looks: seq<Look>, rate: nat)
    requires rate > 0
  {
    forall k | 0 <= k < |chunks| :: FoundInTime(chunks[k], looks, rate)
  }

  lemma AllLater(first: seq<ChunkWrite>, chunks: seq<ChunkWrite>, looks: seq<Look>, rate: nat)
    requires rate > 0 && looks != [] && AllInTime(chunks, looks[1..], rate)
    requires forall k | 0 <= k < |first| :: FoundInTime(first[k], looks, rate)
    ensures AllInTime(first + chunks, looks, rate)
  {
    hide FoundInTime;
    forall k | 0 <= k < |chunks| ensures FoundInTime(chunks[k], looks, rate) {
      FoundLater(chunks[k], looks, rate);
    }
  }

  /** Over a whole call, audio before a discard threshold never enters the queue. */
  lemma {:induction false} QueuedInTime(call: WriteCall, rate: nat, decoded: Lane, discardUntilUs: nat, total: nat,
                                        looks: seq<Look>)
    requires rate > 0 && total <= call.frames
    ensures AllInTime(WriteOn(call, rate, decoded, discardUntilUs, total, looks).chunks, looks, rate)
    decreases |looks|
  {
    hide TurnOf, FoundInTime;
    if total < call.frames && looks != [] {
      var (turn, lane, threshold) := TurnOf(call, rate, total, looks[0]);
      match turn
      case Ends(_) =>
      case Waits =>
        QueuedInTime(call, rate, lane, threshold, total, looks[1..]);
        var later := WriteOn(call, rate, lane, threshold, total, looks[1..]).chunks;
        AllLater([], later, looks, rate);
        assert [] + later == later;
      case Queues(chunk) =>
        QueuedInTime(call, rate, lane, threshold, total + chunk.frames, looks[1..]);
        var later := WriteOn(call, rate, lane, threshold, total + chunk.frames, looks[1..]).chunks;
        TurnIsInTime(call, rate, total, looks);
        AllLater([chunk], later, looks, rate);
    }
  }

  lemma TurnIsInTime(call: WriteCall, rate: nat, total: nat, looks: seq<Look>)
    requires rate > 0 && total < call.frames && looks != [] && TurnOf(call, rate, total, looks[0]).0.Queues?
    ensures FoundInTime(TurnOf(call, rate, total, looks[0]).0.chunk, looks, rate)
  {
    assert InTime(TurnOf(call, rate, total, looks[0]).0.chunk, looks[0], rate);
  }

  function FirstTag(timestamp: Timestamp, offset: nat, serial: int): Tag {
    match timestamp
    case NoTimestamp => Unstamped
    case At(us) => Stamped(us, offset, serial)
  }

  /** A chunk that starts before the discard threshold, or has no time stamp, is dropped while the threshold is set. */
  predicate Discards(threshold: nat, timestamp: Timestamp, offset: nat, rate: nat)
    requires rate > 0
  {
    threshold > 0 && (timestamp.NoTimestamp? || timestamp.us + Micros(offset, rate) < threshold)
  }

  function Fitting(lane: Lane, frames: nat): (n: nat)
    ensures n <= frames
  {
    var writable := lane.capacity - Buffered(lane);
    if writable <= 0 then 0 else if frames < writable then frames else writable
  }

  /** A lane after one chunk: its anchor if the call is timestamped, then its frames. */
  function QueuedChunk(lane: Lane, first: Tag, frames: nat, rate: nat): Lane
    requires rate > 0
  {
    if frames == 0 then lane
    else
      lane.(write := lane.write + frames,
      tags := lane.tags + TagsFrom(first, frames),
      anchors := lane.anchors + match first
                                case Unstamped => []
                                case Stamped(startUs, offset, serial) =>
                                  [Timeline.Anchor(lane.write, startUs + Micros(offset, rate), serial)])
  }

  /** The two steps of a chunk write of the protocol queue exactly that chunk. */
  lemma ChunkStepsQueueChunk(p: Pipeline, first: Tag, frames: nat)
    requires Inv(p) && Enabled(p, BeginChunkWrite(first, frames))
    ensures Enabled(Apply(p, BeginChunkWrite(first, frames)), PublishChunkWrite)
    ensures Apply(Apply(p, BeginChunkWrite(first, frames)), PublishChunkWrite)
            == p.(decoded := QueuedChunk(p.decoded, first, frames, p.rate))
  {
    DecodedHasRoom(p);
  }
}
