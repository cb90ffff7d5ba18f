/**
 Exporting a decoded stream to FLAC: the padding trim of audio/audio_export.cpp feeding the block writer of
 audio/flac_writer.cpp. A frame holds one sample per channel. The decoder is a sequence of events, and
 `faults` says which of the coming encoder and muxer calls fail.
 */
module FlacExport {

  import opened Arithmetic
  import opened Options

  datatype Sample = Finite(value: real) | NotFinite

  type Frame = seq<Sample>

  type EncodedFrame = seq<int>

  datatype Block = Block(pts: nat, frames: seq<EncodedFrame>)

  const SCALE := 2147483647.0

  // ----- samples -----

  /** llround: to nearest, halves away from zero. */
  function Round(x: real): int {
    if x >= 0.0 then (x + 0.5).Floor else -((-x + 0.5).Floor)
  }

  function Clamp(x: real): real {
    if x < -1.0 then -1.0 else if x > 1.0 then 1.0 else x
  }

  function Quantised(s: Sample): int {
    if s.Finite? then Round(Clamp(s.value) * SCALE) else Round(Clamp(0.0) * SCALE)
  }

  function QuantisedFrame(f: Frame): (r: EncodedFrame)
    ensures |r| == |f|
  {
    seq(|f|, i requires 0 <= i < |f| => Quantised(f[i]))
  }

  function QuantisedFrames(frames: seq<Frame>): (r: seq<EncodedFrame>)
    ensures |r| == |frames|
  {
    seq(|frames|, i requires 0 <= i < |frames| => QuantisedFrame(frames[i]))
  }

  /**
   Every sample becomes a 32-bit value without wrapping: silence stays silence, sign is symmetric, samples
   out of range saturate, what is not finite is silence, and nothing is off by more than half a step; halves
   go away from zero.
   */
  lemma QuantisedIsFaithful(s: Sample)
    ensures -2147483647 <= Quantised(s) <= 2147483647
    ensures s.NotFinite? ==> Quantised(s) == 0
    ensures s.Finite? && s.value >= 1.0 ==> Quantised(s) == 2147483647
    ensures s.Finite? ==> Quantised(Finite(-s.value)) == -Quantised(s)
    ensures s.Finite? && -1.0 <= s.value <= 1.0 ==> -0.5 <= Quantised(s) as real - s.value * SCALE <= 0.5
    ensures s.Finite? && 0.0 <= s.value <= 1.0 ==> Quantised(s) as real - s.value * SCALE > -0.5
  {
    var x := if s.Finite? then s.value else 0.0;
    assert Clamp(-x) * SCALE == -(Clamp(x) * SCALE);
  }

  // ----- the block writer -----

  datatype Writer = Writer(
    frameSize: int,
    pending: seq<Frame>,
    offset: nat,
    nextPts: nat,
    blocks: seq<Block>,
    finished: bool,
    faults: seq<bool>)

  /** The encoder's frame size, or 4096 where it states none. */
  function BlockSize(w: Writer): (r: nat)
    ensures r > 0
  {
    if w.frameSize > 0 then w.frameSize else 4096
  }

  predicate Faulty(w: Writer) {
    w.faults != [] && w.faults[0]
  }

  function Spent(w: Writer): Writer {
    w.(faults := if w.faults == [] then [] else w.faults[1..])
  }

  /** The time stamp moves on even when the encoder then refuses the block. */
  function Encode(w: Writer, frames: seq<Frame>): (Writer, bool) {
    if frames == [] then (w, true)
    else
      var stamped := w.(nextPts := w.nextPts + |frames|);
      if Faulty(w) then (Spent(stamped), false)
      else (Spent(stamped).(blocks := w.blocks + [Block(w.nextPts, QuantisedFrames(frames))]), true)
  }

  /** Forgets what was encoded: at once when nothing is left, otherwise only when it is much. */
  function Compact(w: Writer): Writer {
    if w.offset == |w.pending| then w.(pending := [], offset := 0)
    else if w.offset > 4 * BlockSize(w) && w.offset <= |w.pending| then
      w.(pending := w.pending[w.offset..], offset := 0)
    else w
  }

  function Drain(w: Writer): (Writer, bool)
    decreases |w.pending| - w.offset
  {
    var size := BlockSize(w);
    if |w.pending| - w.offset < size then (Compact(w), true)
    else
      var (next, ok) := EncodeNext(w);
      if ok then Drain(next) else (next, false)
  }

  /** One whole block from the front of what is pending. */
  function EncodeNext(w: Writer): (r: (Writer, bool))
    requires |w.pending| - w.offset >= BlockSize(w)
    ensures r.1 ==> r.0.pending == w.pending && r.0.offset == w.offset + BlockSize(w)
    ensures BlockSize(r.0) == BlockSize(w)
  {
    var (encoded, ok) := Encode(w, w.pending[w.offset..w.offset + BlockSize(w)]);
    (if ok then encoded.(offset := w.offset + BlockSize(w)) else encoded, ok)
  }

  function WriteFrames(w: Writer, frames: seq<Frame>): (Writer, bool) {
    if w.finished then (w, false)
    else if frames == [] then (w, true)
    else Drain(w.(pending := w.pending + frames))
  }

  /** The end of the encoder and the trailer of the file may fail too. */
  function Finish(w: Writer): (Writer, bool)
    requires w.offset <= |w.pending|
  {
    if w.finished then (w, false)
    else
      var (encoded, ok) := Encode(w, w.pending[w.offset..]);
      if !ok then (encoded, false)
      else
        var cleared := encoded.(pending := [], offset := 0);
        if Faulty(cleared) || Faulty(Spent(cleared)) then (Spent(Spent(cleared)), false)
        else (Spent(Spent(cleared)).(finished := true), true)
  }

  // ----- what the blocks say -----

  /** All frames of the blocks, in order. */
  function Written(blocks: seq<Block>): seq<EncodedFrame> {
    if blocks == [] then [] else Written(blocks[..|blocks| - 1]) + blocks[|blocks| - 1].frames
  }

  /** Every block is stamped with the number of frames before it. */
  ghost predicate Stamped(blocks: seq<Block>) {
    forall k | 0 <= k < |blocks| :: blocks[k].pts == |Written(blocks[..k])|
  }

  ghost predicate AllOfSize(blocks: seq<Block>, size: nat) {
    forall k | 0 <= k < |blocks| :: |blocks[k].frames| == size
  }

  lemma StampedAppend(blocks: seq<Block>, b: Block)
    requires Stamped(blocks) && b.pts == |Written(blocks)|
    ensures Stamped(blocks + [b])
  {
    forall k | 0 <= k < |blocks| + 1 ensures (blocks + [b])[k].pts == |Written((blocks + [b])[..k])| {
      assert (blocks + [b])[..k] == blocks[..k];
      if k == |blocks| {
        assert blocks[..k] == blocks;
      }
    }
  }

  /** A finished file: the frames given, in blocks of one size but for a shorter last one, stamped in order. */
  ghost predicate IsFile(blocks: seq<Block>, size: nat, frames: seq<Frame>) {
    && Written(blocks) == QuantisedFrames(frames)
    && Stamped(blocks)
    && (forall k | 0 <= k < |blocks| - 1 :: |blocks[k].frames| == size)
    && (blocks != [] ==> 0 < |blocks[|blocks| - 1].frames| <= size)
  }

  /** The writer was given `accepted`: full blocks of its beginning, and the rest in waiting. */
  ghost predicate Holds(w: Writer, accepted: seq<Frame>) {
    && w.offset <= |w.pending| && w.nextPts <= |accepted| && !w.finished
    && w.pending[w.offset..] == accepted[w.nextPts..]
    && Written(w.blocks) == QuantisedFrames(accepted[..w.nextPts])
    && Stamped(w.blocks) && AllOfSize(w.blocks, BlockSize(w))
  }

  lemma NextFrames(w: Writer, accepted: seq<Frame>, n: nat)
    requires Holds(w, accepted) && n <= |w.pending| - w.offset
    ensures w.nextPts + n <= |accepted|
    ensures w.pending[w.offset..w.offset + n] == accepted[w.nextPts..w.nextPts + n]
    ensures w.pending[w.offset + n..] == accepted[w.nextPts + n..]
    ensures accepted[..w.nextPts + n] == accepted[..w.nextPts] + w.pending[w.offset..w.offset + n]
  {
    assert |w.pending[w.offset..]| == |accepted[w.nextPts..]|;
    assert w.pending[w.offset..w.offset + n] == w.pending[w.offset..][..n];
    assert w.pending[w.offset + n..] == w.pending[w.offset..][n..] == accepted[w.nextPts..][n..] ==
      accepted[w.nextPts + n..];
  }

  lemma EncodeWrites(w: Writer, accepted: seq<Frame>, n: nat)
    requires Holds(w, accepted) && 0 < n <= |w.pending| - w.offset && !Faulty(w)
    ensures w.nextPts + n <= |accepted|
    ensures var e := Encode(w, w.pending[w.offset..w.offset + n]).0;
            && Written(e.blocks) == QuantisedFrames(accepted[..w.nextPts + n])
            && Stamped(e.blocks)
  {
    var b := Block(w.nextPts, QuantisedFrames(w.pending[w.offset..w.offset + n]));
    NextFrames(w, accepted, n);
    StampedAppend(w.blocks, b);
    assert QuantisedFrames(accepted[..w.nextPts]) + b.frames == QuantisedFrames(accepted[..w.nextPts + n]);
  }

  lemma BlockKeeps(w: Writer, accepted: seq<Frame>)
    requires Holds(w, accepted) && |w.pending| - w.offset >= BlockSize(w)
    ensures EncodeNext(w).1 == !Faulty(w)
    ensures EncodeNext(w).1 ==> Holds(EncodeNext(w).0, accepted) && EncodeNext(w).0.faults == Spent(w).faults
  {
    hide Written, QuantisedFrames, Stamped;
    NextFrames(w, accepted, BlockSize(w));
    if !Faulty(w) {
      EncodeWrites(w, accepted, BlockSize(w));
    }
  }

  lemma CompactKeeps(w: Writer, accepted: seq<Frame>)
    requires Holds(w, accepted)
    ensures Holds(Compact(w), accepted)
    ensures |Compact(w).pending| - Compact(w).offset == |w.pending| - w.offset
  {
  }

  lemma {:induction false} DrainKeeps(w: Writer, accepted: seq<Frame>)
    requires Holds(w, accepted)
    ensures var (d, ok) := Drain(w);
            && BlockSize(d) == BlockSize(w)
            && (ok ==> Holds(d, accepted) && |d.pending| - d.offset < BlockSize(w))
            && (w.faults == [] ==> ok && d.faults == [])
    decreases |w.pending| - w.offset
  {
    hide Holds, EncodeNext;
    if |w.pending| - w.offset < BlockSize(w) {
      CompactKeeps(w, accepted);
    } else {
      BlockKeeps(w, accepted);
      if !Faulty(w) {
        DrainKeeps(EncodeNext(w).0, accepted);
      }
    }
  }

  /** Whatever is written, in whatever pieces and however the buffer is compacted, the writer holds it all. */
  lemma WriteAccepts(w: Writer, accepted: seq<Frame>, frames: seq<Frame>)
    requires Holds(w, accepted)
    ensures var (d, ok) := WriteFrames(w, frames);
            && BlockSize(d) == BlockSize(w)
            && (ok ==> Holds(d, accepted + frames))
            && (w.faults == [] ==> ok && d.faults == [])
            && (ok && |w.pending| - w.offset < BlockSize(w) ==> |d.pending| - d.offset < BlockSize(w))
  {
    if frames == [] {
      assert accepted + frames == accepted;
    } else {
      GrownHolds(w, accepted, frames);
      DrainKeeps(w.(pending := w.pending + frames), accepted + frames);
    }
  }

  lemma GrownHolds(w: Writer, accepted: seq<Frame>, frames: seq<Frame>)
    requires Holds(w, accepted)
    ensures Holds(w.(pending := w.pending + frames), accepted + frames)
  {
    var grown := w.(pending := w.pending + frames);
    assert grown.pending[w.offset..] == w.pending[w.offset..] + frames;
    assert (accepted + frames)[w.nextPts..] == accepted[w.nextPts..] + frames;
    assert (accepted + frames)[..w.nextPts] == accepted[..w.nextPts];
  }

  lemma FinishCompletes(w: Writer, accepted: seq<Frame>)
    requires Holds(w, accepted) && |w.pending| - w.offset < BlockSize(w)
    ensures var (d, ok) := Finish(w);
            && (ok ==> d.finished && d.pending == [] && d.offset == 0 && IsFile(d.blocks, BlockSize(w), accepted))
            && (w.faults == [] ==> ok)
  {
    hide Written, QuantisedFrames, Stamped;
    var rest := |w.pending| - w.offset;
    NextFrames(w, accepted, rest);
    assert |w.pending[w.offset..]| == |accepted[w.nextPts..]|;
    assert accepted[..|accepted|] == accepted;
    assert w.pending[w.offset..w.offset + rest] == w.pending[w.offset..];
    if rest > 0 && !Faulty(w) {
      EncodeWrites(w, accepted, rest);
    }
  }

  /** A finished file takes nothing more and is not finished twice. */
  lemma FinishedRefuses(w: Writer, frames: seq<Frame>)
    requires w.finished && w.offset <= |w.pending|
    ensures WriteFrames(w, frames) == (w, false) && Finish(w) == (w, false)
  {
  }

  /** However much is written, no more than five blocks stay in the buffer, four of them already encoded. */
  lemma {:induction false} BufferIsBounded(w: Writer)
    requires w.offset <= |w.pending|
    ensures var (d, ok) := Drain(w);
            ok ==> |d.pending| - d.offset < BlockSize(w) && d.offset <= 4 * BlockSize(w)
                   && (d.offset == |d.pending| ==> d.pending == [])
    decreases |w.pending| - w.offset
  {
    if |w.pending| - w.offset >= BlockSize(w) && EncodeNext(w).1 {
      BufferIsBounded(EncodeNext(w).0);
    }
  }

  // ----- the export loop -----

  datatype Event = Read(frames: seq<Frame>) | ReadFailed | Cancelled

  datatype Result = Exported | Cancellation | DecodeError | EncodeError | NothingToExport

  datatype Export = Export(writer: Writer, trailing: seq<Frame>, skipped: nat, written: nat)

  /** One read: skip what is left of the initial padding, hold back as much as the trailing padding. */
  function Consume(x: Export, frames: seq<Frame>, initial: nat, trailing: nat): (Export, bool) {
    var remaining := if initial > x.skipped then initial - x.skipped else 0;
    var skip := Min(|frames|, remaining);
    var skipped := x.(skipped := x.skipped + skip);
    if |frames| - skip == 0 then (skipped, true)
    else
      var held := x.trailing + frames[skip..];
      if |held| <= trailing then (skipped.(trailing := held), true)
      else
        var ready := |held| - trailing;
        var (writer, ok) := WriteFrames(x.writer, held[..ready]);
        if !ok then (skipped.(trailing := held, writer := writer), false)
        else (skipped.(trailing := held[ready..], writer := writer, written := x.written + ready), true)
  }

  /** The loop over the decoder; an empty read, like the end of the events, ends it. */
  function Decode(x: Export, events: seq<Event>, initial: nat, trailing: nat): (Export, Option<Result>)
    decreases |events|
  {
    if events == [] then (x, None)
    else
      match events[0]
      case Cancelled => (x, Some(Cancellation))
      case ReadFailed => (x, Some(DecodeError))
      case Read(frames) =>
        if frames == [] then (x, None)
        else
          var (y, ok) := Consume(x, frames, initial, trailing);
          if ok then Decode(y, events[1..], initial, trailing) else (y, Some(EncodeError))
  }

  predicate WriterFits(w: Writer) {
    w.offset <= |w.pending|
  }

  function Start(frameSize: int, faults: seq<bool>): Export {
    Export(Writer(frameSize, [], 0, 0, [], false, faults), [], 0, 0)
  }

  function Conclude(x: Export, cancelled: bool): (Export, Result)
    requires WriterFits(x.writer)
  {
    if cancelled then (x, Cancellation)
    else if x.written == 0 then (x, NothingToExport)
    else
      var (writer, ok) := Finish(x.writer);
      (x.(writer := writer), if ok then Exported else EncodeError)
  }

  // ----- the export delivers the unpadded stream -----

  /** All the decoder delivers. */
  function Delivered(events: seq<Event>): seq<Frame>
    decreases |events|
  {
    if events == [] || !events[0].Read? || events[0].frames == [] then []
    else events[0].frames + Delivered(events[1..])
  }

  /** Neither cancelled nor failed while decoding. */
  predicate Clean(events: seq<Event>)
    decreases |events|
  {
    events == [] || (events[0].Read? && (events[0].frames == [] || Clean(events[1..])))
  }

  function AfterInitial(frames: seq<Frame>, initial: nat): (r: seq<Frame>) {
    frames[Min(initial, |frames|)..]
  }

  function Unpadded(frames: seq<Frame>, initial: nat, trailing: nat): seq<Frame> {
    var usable := AfterInitial(frames, initial);
    if |usable| <= trailing then [] else usable[..|usable| - trailing]
  }

  /** After the frames `decoded`: all but the padding is written, and the held-back frames are the last ones. */
  ghost predicate Follows(x: Export, decoded: seq<Frame>, initial: nat, trailing: nat) {
    var usable := AfterInitial(decoded, initial);
    && x.skipped == Min(initial, |decoded|)
    && x.written == |Unpadded(decoded, initial, trailing)|
    && x.trailing == usable[x.written..]
    && Holds(x.writer, Unpadded(decoded, initial, trailing))
    && |x.writer.pending| - x.writer.offset < BlockSize(x.writer)
  }

  /** Skipping in the reads is dropping in the stream, and holding back is cutting its end. */
  lemma TrimExtends(decoded: seq<Frame>, frames: seq<Frame>, initial: nat, trailing: nat)
    ensures var usable := AfterInitial(decoded, initial);
            var unpadded := Unpadded(decoded, initial, trailing);
            var skip := Min(|frames|,
                            if initial > Min(initial, |decoded|) then initial - Min(initial, |decoded|) else 0);
            var held := usable[|unpadded|..] + frames[skip..];
            && Min(initial, |decoded + frames|) == Min(initial, |decoded|) + skip
            && AfterInitial(decoded + frames, initial) == unpadded + held
            && Unpadded(decoded + frames, initial, trailing)
               == (if |held| <= trailing then unpadded else unpadded + held[..|held| - trailing])
            && 0 <= |usable| - |unpadded| <= trailing
  {
    var usable := AfterInitial(decoded, initial);
    var unpadded := Unpadded(decoded, initial, trailing);
    var skip := Min(|frames|, if initial > Min(initial, |decoded|) then initial - Min(initial, |decoded|) else 0);
    var held := usable[|unpadded|..] + frames[skip..];
    assert AfterInitial(decoded + frames, initial) == usable + frames[skip..];
    assert usable == unpadded + usable[|unpadded|..];
    assert usable + frames[skip..] == unpadded + held;
    if |held| > trailing {
      assert (unpadded + held)[..|unpadded + held| - trailing] == unpadded + held[..|held| - trailing];
    }
  }

  lemma ConsumeFollows(x: Export, decoded: seq<Frame>, frames: seq<Frame>, initial: nat, trailing: nat)
    requires Follows(x, decoded, initial, trailing) && frames != []
    ensures var (y, ok) := Consume(x, frames, initial, trailing);
            && BlockSize(y.writer) == BlockSize(x.writer)
            && (ok ==> Follows(y, decoded + frames, initial, trailing))
            && (x.writer.faults == [] ==> ok && y.writer.faults == [])
  {
    hide Holds, WriteFrames, AfterInitial, Unpadded, BlockSize;
    TrimExtends(decoded, frames, initial, trailing);
    var unpadded := Unpadded(decoded, initial, trailing);
    var remaining := if initial > x.skipped then initial - x.skipped else 0;
    var skip := Min(|frames|, remaining);
    var held := x.trailing + frames[skip..];
    if skip < |frames| {
      if |held| <= trailing {
        assert held == (unpadded + held)[|unpadded|..];
      } else {
        var ready := |held| - trailing;
        WriteAccepts(x.writer, unpadded, held[..ready]);
        assert held[ready..] == (unpadded + held)[|unpadded| + ready..];
      }
    } else {
      var usable := AfterInitial(decoded, initial);
      assert x.trailing == usable[|unpadded|..];
      assert |held| == |usable| - |unpadded|;
      assert held == (unpadded + held)[|unpadded|..];
    }
  }

  lemma {:induction false} DecodeFollows(x: Export, decoded: seq<Frame>, events: seq<Event>, initial: nat,
                                         trailing: nat)
    requires Follows(x, decoded, initial, trailing)
    ensures var (y, stopped) := Decode(x, events, initial, trailing);
            && BlockSize(y.writer) == BlockSize(x.writer)
            && (stopped.None? ==> Clean(events) && Follows(y, decoded + Delivered(events), initial, trailing))
            && (stopped.Some? ==>
                  stopped.value.Cancellation? || stopped.value.DecodeError? || stopped.value.EncodeError?)
            && (x.writer.faults == [] ==> y.writer.faults == [] && (Clean(events) ==> stopped.None?))
    decreases |events|
  {
    hide Follows, Consume, BlockSize;
    if events == [] || !events[0].Read? || events[0].frames == [] {
      assert decoded + Delivered(events) == decoded;
    } else {
      var frames := events[0].frames;
      ConsumeFollows(x, decoded, frames, initial, trailing);
      var (y, ok) := Consume(x, frames, initial, trailing);
      if ok {
        DecodeFollows(y, decoded + frames, events[1..], initial, trailing);
        assert decoded + frames + Delivered(events[1..]) == decoded + (frames + Delivered(events[1..]));
      }
    }
  }

  lemma StartFollows(frameSize: int, faults: seq<bool>, initial: nat, trailing: nat)
    ensures Follows(Start(frameSize, faults), [], initial, trailing)
  {
  }

  /** One whole export, up to the finished file. */
  function ExportToFlac(frameSize: int, events: seq<Event>, initial: nat, trailing: nat, cancelledAtEnd: bool,
                        faults: seq<bool>)
    : (Export, Result)
  {
    StartFollows(frameSize, faults, initial, trailing);
    DecodeFollows(Start(frameSize, faults), [], events, initial, trailing);
    var (x, stopped) := Decode(Start(frameSize, faults), events, initial, trailing);
    if stopped.Some? then (x, stopped.value) else Conclude(x, cancelledAtEnd)
  }

  /**
   A successful export wrote exactly the decoded stream without its padding, sample by sample, in blocks of
   the encoder's frame size with running time stamps, whatever sizes the decoder read in.
   */
  lemma ExportDelivers(frameSize: int, events: seq<Event>, initial: nat, trailing: nat, cancelledAtEnd: bool,
                       faults: seq<bool>)
    ensures var (x, result) := ExportToFlac(frameSize, events, initial, trailing, cancelledAtEnd, faults);
            var decoded := Delivered(events);
            result.Exported? ==>
              && x.writer.finished
              && |decoded| > initial + trailing
              && IsFile(x.writer.blocks, if frameSize > 0 then frameSize else 4096,
                        decoded[initial..|decoded| - trailing])
  {
    hide Decode, Delivered, Holds, IsFile, Finish;
    var start := Start(frameSize, faults);
    StartFollows(frameSize, faults, initial, trailing);
    DecodeFollows(start, [], events, initial, trailing);
    var (x, stopped) := Decode(start, events, initial, trailing);
    var decoded := Delivered(events);
    assert [] + decoded == decoded;
    if stopped.None? && !cancelledAtEnd && x.written > 0 {
      FinishCompletes(x.writer, Unpadded(decoded, initial, trailing));
      assert Unpadded(decoded, initial, trailing) == decoded[initial..|decoded| - trailing];
    }
  }

  /** With nothing failing, there is an output exactly when something is left between the paddings. */
  lemma ExportSucceedsIff(frameSize: int, events: seq<Event>, initial: nat, trailing: nat)
    requires Clean(events)
    ensures var result := ExportToFlac(frameSize, events, initial, trailing, false, []).1;
            && (result.Exported? <==> |Delivered(events)| > initial + trailing)
            && (result.NothingToExport? <==> |Delivered(events)| <= initial + trailing)
  {
    var start := Start(frameSize, []);
    StartFollows(frameSize, [], initial, trailing);
    DecodeFollows(start, [], events, initial, trailing);
    var x := Decode(start, events, initial, trailing).0;
    assert [] + Delivered(events) == Delivered(events);
    FinishCompletes(x.writer, Unpadded(Delivered(events), initial, trailing));
  }

  // ----- exactly when an export succeeds -----

  /** None of the first n steps of the encoder fails. */
  ghost predicate NoneFails(faults: seq<bool>, n: nat) {
    forall i | 0 <= i < n && i < |faults| :: !faults[i]
  }

  /** The writer has spent one step on each block, and none of them failed. */
  ghost predicate Spends(faults: seq<bool>, w: Writer) {
    && NoneFails(faults, |w.blocks|)
    && w.faults == (if |w.blocks| <= |faults| then faults[|w.blocks|..] else [])
  }

  /** Encoding stopped at the step that comes after these blocks. */
  predicate StoppedAfter(faults: seq<bool>, blocks: nat) {
    blocks < |faults| && faults[blocks]
  }

  lemma EncodeSpends(faults: seq<bool>, w: Writer, frames: seq<Frame>)
    requires Spends(faults, w) && frames != []
    ensures var (e, ok) := Encode(w, frames);
            && (ok ==> Spends(faults, e) && |e.blocks| == |w.blocks| + 1)
            && (!ok ==> StoppedAfter(faults, |w.blocks|))
  {
  }

  /** The blocks take up the frames before the stamp of the next one. */
  lemma {:induction false} BlocksFill(blocks: seq<Block>, size: nat)
    requires AllOfSize(blocks, size)
    ensures |Written(blocks)| == |blocks| * size
    decreases |blocks|
  {
    if blocks != [] {
      BlocksFill(blocks[..|blocks| - 1], size);
      OneMore(|blocks| - 1, size);
    }
  }

  /** Draining either keeps the count of steps, or stops where one fails for which there are frames enough. */
  lemma {:induction false} DrainSpends(faults: seq<bool>, w: Writer, accepted: seq<Frame>)
    requires Holds(w, accepted) && Spends(faults, w)
    ensures var (d, ok) := Drain(w);
            && (ok ==> Spends(faults, d))
            && (!ok ==> Fails(faults, BlockSize(w), |accepted|))
    decreases |w.pending| - w.offset
  {
    hide Holds, Spends;
    var size := BlockSize(w);
    if |w.pending| - w.offset < size {
      CompactSpends(faults, w);
    } else {
      BlockKeeps(w, accepted);
      NextSpends(faults, w, accepted);
      if !Faulty(w) {
        DrainSpends(faults, EncodeNext(w).0, accepted);
      } else {
        assert FailsWithin(faults, |w.blocks|, size, |accepted|);
      }
    }
  }

  /** Step k fails, and block k is one of those that n frames need. */
  ghost predicate FailsWithin(faults: seq<bool>, k: nat, size: nat, n: nat) {
    StoppedAfter(faults, k) && k * size < n
  }

  ghost predicate Fails(faults: seq<bool>, size: nat, n: nat) {
    exists k: nat :: FailsWithin(faults, k, size, n)
  }

  lemma CompactSpends(faults: seq<bool>, w: Writer)
    requires Spends(faults, w)
    ensures Spends(faults, Compact(w))
  {
  }

  lemma NextSpends(faults: seq<bool>, w: Writer, accepted: seq<Frame>)
    requires Holds(w, accepted) && Spends(faults, w) && |w.pending| - w.offset >= BlockSize(w)
    ensures EncodeNext(w).1 ==> Spends(faults, EncodeNext(w).0)
    ensures Faulty(w) ==> FailsWithin(faults, |w.blocks|, BlockSize(w), |accepted|)
  {
    hide Written;
    EncodeSpends(faults, w, w.pending[w.offset..w.offset + BlockSize(w)]);
    BlocksFill(w.blocks, BlockSize(w));
    NextFrames(w, accepted, BlockSize(w));
    assert |Written(w.blocks)| == w.nextPts;
  }

  lemma WriteSpends(faults: seq<bool>, w: Writer, accepted: seq<Frame>, frames: seq<Frame>)
    requires Holds(w, accepted) && Spends(faults, w)
    ensures var (d, ok) := WriteFrames(w, frames);
            && (ok ==> Spends(faults, d))
            && (!ok ==> Fails(faults, BlockSize(w), |accepted + frames|))
  {
    hide Drain, Fails, Written, Stamped;
    if frames != [] {
      var grown := w.(pending := w.pending + frames);
      GrownHolds(w, accepted, frames);
      DrainSpends(faults, grown, accepted + frames);
    }
  }

  lemma ConsumeSpends(faults: seq<bool>, x: Export, decoded: seq<Frame>, frames: seq<Frame>, initial: nat,
                      trailing: nat)
    requires Follows(x, decoded, initial, trailing) && Spends(faults, x.writer) && frames != []
    ensures var (y, ok) := Consume(x, frames, initial, trailing);
            && (ok ==> Spends(faults, y.writer))
            && (!ok ==> Fails(faults, BlockSize(x.writer), |Unpadded(decoded + frames, initial, trailing)|))
  {
    hide Holds, Spends, WriteFrames, BlockSize, Fails;
    TrimExtends(decoded, frames, initial, trailing);
    var unpadded := Unpadded(decoded, initial, trailing);
    var remaining := if initial > x.skipped then initial - x.skipped else 0;
    var skip := Min(|frames|, remaining);
    var held := x.trailing + frames[skip..];
    if skip < |frames| && |held| > trailing {
      WriteSpends(faults, x.writer, unpadded, held[..|held| - trailing]);
    }
  }

  lemma {:induction false} DecodeSpends(faults: seq<bool>, x: Export, decoded: seq<Frame>, events: seq<Event>,
                                        initial: nat, trailing: nat)
    requires Follows(x, decoded, initial, trailing) && Spends(faults, x.writer)
    ensures var (y, stopped) := Decode(x, events, initial, trailing);
            && (stopped.None? ==> Spends(faults, y.writer))
            && (stopped.Some? && Clean(events) ==>
                  Fails(faults, BlockSize(x.writer), |Unpadded(decoded + Delivered(events), initial, trailing)|))
    decreases |events|
  {
    hide Follows, Spends, Consume, BlockSize, Fails, Unpadded;
    if events != [] && events[0].Read? && events[0].frames != [] {
      var frames := events[0].frames;
      var rest := Delivered(events[1..]);
      ConsumeFollows(x, decoded, frames, initial, trailing);
      ConsumeSpends(faults, x, decoded, frames, initial, trailing);
      assert decoded + frames + rest == decoded + (frames + rest);
      var (y, ok) := Consume(x, frames, initial, trailing);
      if ok {
        DecodeSpends(faults, y, decoded + frames, events[1..], initial, trailing);
      } else {
        MoreToFail(faults, BlockSize(x.writer), decoded + frames, rest, initial, trailing);
      }
    }
  }

  lemma MoreToFail(faults: seq<bool>, size: nat, decoded: seq<Frame>, more: seq<Frame>, initial: nat, trailing: nat)
    requires Fails(faults, size, |Unpadded(decoded, initial, trailing)|)
    ensures Fails(faults, size, |Unpadded(decoded + more, initial, trailing)|)
  {
    var k: nat :| FailsWithin(faults, k, size, |Unpadded(decoded, initial, trailing)|);
    assert FailsWithin(faults, k, size, |Unpadded(decoded + more, initial, trailing)|);
  }

  /** Block k is needed exactly if it is one of the first `blocks`. */
  lemma NeededBlock(k: nat, blocks: nat, size: nat, n: nat)
    requires size > 0 && n <= blocks * size && k * size < n
    ensures k < blocks
  {
    if k >= blocks {
      TimesMonotone(blocks, k, size);
    }
  }

  lemma TimesMonotone(a: nat, b: nat, size: nat)
    requires a <= b
    ensures a * size <= b * size
  {
  }

  lemma FinishSpends(faults: seq<bool>, w: Writer, accepted: seq<Frame>, blocks: nat)
    requires Holds(w, accepted) && Spends(faults, w) && |w.pending| - w.offset < BlockSize(w)
    requires accepted != [] && (blocks - 1) * BlockSize(w) < |accepted| <= blocks * BlockSize(w)
    ensures Finish(w).1 <==> NoneFails(faults, blocks + 2)
  {
    var rest := w.pending[w.offset..];
    BlocksFill(w.blocks, BlockSize(w));
    assert |rest| == |accepted| - w.nextPts && |Written(w.blocks)| == w.nextPts;
    CountBlocks(|w.blocks|, blocks, BlockSize(w), |rest|, |accepted|);
    if rest != [] {
      EncodeSpends(faults, w, rest);
    }
    var (encoded, ok) := Encode(w, rest);
    if ok {
      LastTwo(faults, encoded, blocks);
    }
  }

  /** Full blocks and a shorter rest make up the blocks that are needed. */
  lemma CountBlocks(full: nat, blocks: nat, size: nat, rest: nat, n: nat)
    requires n == full * size + rest && rest < size && (blocks - 1) * size < n <= blocks * size
    ensures blocks == if rest == 0 then full else full + 1
  {
    if rest == 0 {
      OneMore(if full > 0 then full - 1 else 0, size);
      SameCount(blocks, full, size, n);
    } else {
      OneMore(full, size);
      SameCount(blocks, full + 1, size, n);
    }
  }

  lemma LastTwo(faults: seq<bool>, w: Writer, blocks: nat)
    requires Spends(faults, w) && |w.blocks| == blocks
    ensures !Faulty(w) && !Faulty(Spent(w)) <==> NoneFails(faults, blocks + 2)
  {
  }

  /**
   An export succeeds exactly when the source was decoded to its end, nobody cancelled, something is left between
   the paddings, and neither one of the blocks it takes nor the encoder's end nor the trailer fails.
   */
  lemma ExportedIff(frameSize: int, events: seq<Event>, initial: nat, trailing: nat, cancelledAtEnd: bool,
                    faults: seq<bool>, blocks: nat)
    requires var n, size := |Delivered(events)| - initial - trailing, if frameSize > 0 then frameSize else 4096;
             if n <= 0 then blocks == 0 else (blocks - 1) * size < n <= blocks * size
    ensures ExportToFlac(frameSize, events, initial, trailing, cancelledAtEnd, faults).1.Exported? <==>
              && Clean(events) && !cancelledAtEnd && |Delivered(events)| > initial + trailing
              && NoneFails(faults, blocks + 2)
  {
    hide Decode, Holds, Finish, Spends, Fails;
    var start := Start(frameSize, faults);
    var decoded := Delivered(events);
    var unpadded := Unpadded(decoded, initial, trailing);
    StartFollows(frameSize, faults, initial, trailing);
    StartSpends(frameSize, faults);
    DecodeFollows(start, [], events, initial, trailing);
    DecodeSpends(faults, start, [], events, initial, trailing);
    assert [] + decoded == decoded;
    var (x, stopped) := Decode(start, events, initial, trailing);
    if stopped.Some? {
      if Clean(events) {
        FailureCounts(faults, blocks, BlockSize(start.writer), |unpadded|);
      }
    } else if !cancelledAtEnd && unpadded != [] {
      FinishSpends(faults, x.writer, unpadded, blocks);
    }
  }

  lemma StartSpends(frameSize: int, faults: seq<bool>)
    ensures Spends(faults, Start(frameSize, faults).writer)
  {
  }

  lemma FailureCounts(faults: seq<bool>, blocks: nat, size: nat, n: nat)
    requires Fails(faults, size, n) && size > 0 && n <= blocks * size
    ensures !NoneFails(faults, blocks + 2)
  {
    var k: nat :| FailsWithin(faults, k, size, n);
    NeededBlock(k, blocks, size, n);
  }

  /** The first event that does not deliver frames. */
  function FirstStop(events: seq<Event>): Option<Event>
    decreases |events|
  {
    if events == [] then None
    else if events[0].Read? && events[0].frames != [] then FirstStop(events[1..])
    else Some(events[0])
  }

  /** With an encoder that never fails, the result tells what ended the export. */
  lemma ResultTells(frameSize: int, events: seq<Event>, initial: nat, trailing: nat, cancelledAtEnd: bool)
    ensures var result := ExportToFlac(frameSize, events, initial, trailing, cancelledAtEnd, []).1;
            match FirstStop(events)
            case Some(Cancelled) => result == Cancellation
            case Some(ReadFailed) => result == DecodeError
            case _ =>
              && (result == Cancellation <==> cancelledAtEnd)
              && (result == NothingToExport <==> !cancelledAtEnd && |Delivered(events)| <= initial + trailing)
              && (result == Exported <==> !cancelledAtEnd && |Delivered(events)| > initial + trailing)
  {
    var start := Start(frameSize, []);
    StartFollows(frameSize, [], initial, trailing);
    DecodeFollows(start, [], events, initial, trailing);
    DecodeStops(start, [], events, initial, trailing);
    var (x, stopped) := Decode(start, events, initial, trailing);
    assert [] + Delivered(events) == Delivered(events);
    if stopped.None? {
      FinishCompletes(x.writer, Unpadded(Delivered(events), initial, trailing));
    }
  }

  lemma {:induction false} DecodeStops(x: Export, decoded: seq<Frame>, events: seq<Event>, initial: nat, trailing: nat)
    requires Follows(x, decoded, initial, trailing) && x.writer.faults == []
    ensures Decode(x, events, initial, trailing).1 ==
            match FirstStop(events)
            case Some(Cancelled) => Some(Cancellation)
            case Some(ReadFailed) => Some(DecodeError)
            case _ => None
    decreases |events|
  {
    hide Follows, Consume;
    if events != [] && events[0].Read? && events[0].frames != [] {
      ConsumeFollows(x, decoded, events[0].frames, initial, trailing);
      DecodeStops(Consume(x, events[0].frames, initial, trailing).0, decoded + events[0].frames, events[1..], initial,
                  trailing);
    }
  }

  /** Written grows by whole blocks. */
  lemma {:induction false} WrittenPrefix(blocks: seq<Block>, k: nat)
    requires k <= |blocks|
    ensures |Written(blocks[..k])| <= |Written(blocks)|
    ensures Written(blocks)[..|Written(blocks[..k])|] == Written(blocks[..k])
    decreases |blocks|
  {
    if k == |blocks| {
      assert blocks[..k] == blocks;
    } else {
      var front := blocks[..|blocks| - 1];
      WrittenPrefix(front, k);
      assert front[..k] == blocks[..k];
    }
  }

  lemma BlockIsSlice(blocks: seq<Block>, k: nat)
    requires k < |blocks| && Stamped(blocks)
    ensures blocks[k].pts + |blocks[k].frames| <= |Written(blocks)|
    ensures blocks[k].frames == Written(blocks)[blocks[k].pts..blocks[k].pts + |blocks[k].frames|]
  {
    WrittenPrefix(blocks, k + 1);
    assert blocks[..k + 1][..k] == blocks[..k];
    assert blocks[..k + 1][|blocks[..k + 1]| - 1] == blocks[k];
  }

  /** In a file of blocks of one size the stamps are multiples of it. */
  lemma {:induction false} StampIsMultiple(blocks: seq<Block>, size: nat, k: nat)
    requires Stamped(blocks) && k < |blocks|
    requires forall i | 0 <= i < |blocks| - 1 :: |blocks[i].frames| == size
    ensures blocks[k].pts == k * size
    decreases k
  {
    if k > 0 {
      StampIsMultiple(blocks, size, k - 1);
      assert blocks[..k][..k - 1] == blocks[..k - 1];
      assert blocks[..k][|blocks[..k]| - 1] == blocks[k - 1];
      OneMore(k - 1, size);
    } else {
      assert blocks[..0] == [];
    }
  }

  lemma LengthFixesCount(blocks: seq<Block>, size: nat, frames: seq<Frame>)
    requires size > 0 && IsFile(blocks, size, frames)
    ensures blocks != [] ==> (|blocks| - 1) * size < |frames| <= |blocks| * size
    ensures blocks == [] <==> frames == []
  {
    if blocks != [] {
      var last := |blocks| - 1;
      StampIsMultiple(blocks, size, last);
      BlockIsSlice(blocks, last);
      assert blocks[..last] + [blocks[last]] == blocks;
      OneMore(last, size);
    }
  }

  lemma SameBlock(a: seq<Block>, b: seq<Block>, size: nat, frames: seq<Frame>, k: nat)
    requires IsFile(a, size, frames) && IsFile(b, size, frames) && |a| == |b| && k < |a|
    ensures a[k] == b[k]
  {
    hide Written;
    StampIsMultiple(a, size, k);
    StampIsMultiple(b, size, k);
    BlockIsSlice(a, k);
    BlockIsSlice(b, k);
    if k == |a| - 1 {
      LastReachesEnd(a);
      LastReachesEnd(b);
    }
  }

  /** What IsFile says leaves no choice. */
  lemma FileIsUnique(a: seq<Block>, b: seq<Block>, size: nat, frames: seq<Frame>)
    requires size > 0 && IsFile(a, size, frames) && IsFile(b, size, frames)
    ensures a == b
  {
    hide IsFile;
    LengthFixesCount(a, size, frames);
    LengthFixesCount(b, size, frames);
    SameCount(|a|, |b|, size, |frames|);
    forall k | 0 <= k < |a| ensures a[k] == b[k] {
      SameBlock(a, b, size, frames, k);
    }
  }

  lemma LastReachesEnd(blocks: seq<Block>)
    requires Stamped(blocks) && blocks != []
    ensures blocks[|blocks| - 1].pts + |blocks[|blocks| - 1].frames| == |Written(blocks)|
  {
  }

  lemma SameCount(a: nat, b: nat, size: nat, n: nat)
    requires size > 0
    requires if n == 0 then a == 0 && b == 0
             else a > 0 && b > 0 && (a - 1) * size < n <= a * size && (b - 1) * size < n <= b * size
    ensures a == b
  {
    if n > 0 {
      NotBeyond(a, b, size, n);
      NotBeyond(b, a, size, n);
    }
  }

  lemma NotBeyond(a: nat, b: nat, size: nat, n: nat)
    requires (b - 1) * size < n <= a * size
    ensures b <= a
  {
    if b > a {
      MulGrows(a, b - 1, size);
      assert false;
    }
  }

  lemma MulGrows(a: nat, b: nat, size: nat)
    requires a <= b
    ensures a * size <= b * size
  {
  }

  /** Two exports of one stream write the same file, however the decoder cut it into reads. */
  lemma ReadSizesDoNotMatter(frameSize: int, a: seq<Event>, b: seq<Event>, initial: nat, trailing: nat,
                             faultsA: seq<bool>, faultsB: seq<bool>)
    requires Delivered(a) == Delivered(b)
    requires ExportToFlac(frameSize, a, initial, trailing, false, faultsA).1.Exported?
    requires ExportToFlac(frameSize, b, initial, trailing, false, faultsB).1.Exported?
    ensures ExportToFlac(frameSize, a, initial, trailing, false, faultsA).0.writer.blocks
         == ExportToFlac(frameSize, b, initial, trailing, false, faultsB).0.writer.blocks
  {
    hide ExportToFlac, IsFile, Delivered;
    ExportDelivers(frameSize, a, initial, trailing, false, faultsA);
    ExportDelivers(frameSize, b, initial, trailing, false, faultsB);
    var decoded := Delivered(a);
    FileIsUnique(ExportToFlac(frameSize, a, initial, trailing, false, faultsA).0.writer.blocks,
                 ExportToFlac(frameSize, b, initial, trailing, false, faultsB).0.writer.blocks,
                 if frameSize > 0 then frameSize else 4096, decoded[initial..|decoded| - trailing]);
  }

  // ----- the loops -----

  class FlacWriter {
    const frameSize: int
    var pending: seq<Frame>
    var pendingOffset: nat
    var nextPts: nat
    var blocks: seq<Block>
    var finished: bool
    var faults: seq<bool>

    ghost function Now(): Writer
      reads this
    {
      Writer(frameSize, pending, pendingOffset, nextPts, blocks, finished, faults)
    }

    constructor (frameSize: int, faults: seq<bool>)
      ensures Now() == Start(frameSize, faults).writer
    {
      this.frameSize, this.faults := frameSize, faults;
      pending, pendingOffset, nextPts, blocks, finished := [], 0, 0, [], false;
    }

    method TakeFault() returns (faulty: bool)
      modifies this`faults
      ensures faulty == Faulty(old(Now())) && Now() == Spent(old(Now()))
    {
      faulty := faults != [] && faults[0];
      faults := if faults == [] then [] else faults[1..];
    }

    method EncodeBlock(frames: seq<Frame>) returns (ok: bool)
      modifies this
      ensures (Now(), ok) == Encode(old(Now()), frames)
    {
      if frames == [] {
        return true;
      }
      var encoded: seq<EncodedFrame> := [];
      var i := 0;
      while i < |frames|
        invariant i <= |frames| && Now() == old(Now())
        invariant encoded == QuantisedFrames(frames[..i])
      {
        assert frames[..i + 1][..i] == frames[..i];
        assert QuantisedFrames(frames[..i + 1]) == QuantisedFrames(frames[..i]) + [QuantisedFrame(frames[i])];
        encoded := encoded + [QuantisedFrame(frames[i])];
        i := i + 1;
      }
      assert frames[..|frames|] == frames;
      var pts := nextPts;
      nextPts := nextPts + |frames|;
      var faulty := TakeFault();
      if faulty {
        return false;
      }
      blocks := blocks + [Block(pts, encoded)];
      ok := true;
    }

    method DrainCompleteFrames() returns (ok: bool)
      modifies this
      ensures (Now(), ok) == Drain(old(Now()))
    {
      hide Encode;
      var encoderFrames: nat := if frameSize > 0 then frameSize else 4096;
      while |pending| - pendingOffset >= encoderFrames
        invariant Drain(Now()) == Drain(old(Now()))
        decreases |pending| - pendingOffset
      {
        ghost var before := Now();
        EncodeShape(before, pending[pendingOffset..pendingOffset + encoderFrames]);
        var encoded := EncodeBlock(pending[pendingOffset..pendingOffset + encoderFrames]);
        if !encoded {
          return false;
        }
        pendingOffset := pendingOffset + encoderFrames;
      }
      if pendingOffset == |pending| {
        pending, pendingOffset := [], 0;
      } else if pendingOffset > 4 * encoderFrames && pendingOffset <= |pending| {
        pending, pendingOffset := pending[pendingOffset..], 0;
      }
      ok := true;
    }

    method Write(frames: seq<Frame>) returns (ok: bool)
      modifies this
      ensures (Now(), ok) == WriteFrames(old(Now()), frames)
    {
      if finished {
        return false;
      }
      if frames == [] {
        return true;
      }
      pending := pending + frames;
      ok := DrainCompleteFrames();
    }

    method FinishFile() returns (ok: bool)
      requires pendingOffset <= |pending|
      modifies this
      ensures (Now(), ok) == Finish(old(Now()))
    {
      if finished {
        return false;
      }
      EncodeShape(Now(), pending[pendingOffset..]);
      var encoded := EncodeBlock(pending[pendingOffset..]);
      if !encoded {
        return false;
      }
      pending, pendingOffset := [], 0;
      var flushFailed := TakeFault();
      var trailerFailed := TakeFault();
      if flushFailed || trailerFailed {
        return false;
      }
      finished := true;
      ok := true;
    }
  }

  lemma EncodeShape(w: Writer, frames: seq<Frame>)
    ensures var e := Encode(w, frames).0;
            e.frameSize == w.frameSize && e.pending == w.pending && e.offset == w.offset && e.finished == w.finished
  {
  }

  class AudioExport {
    const writer: FlacWriter
    var trailing: seq<Frame>
    var skippedInitialFrames: nat
    var writtenFrames: nat

    ghost function Now(): Export
      reads this, writer
    {
      Export(writer.Now(), trailing, skippedInitialFrames, writtenFrames)
    }

    constructor (frameSize: int, faults: seq<bool>)
      ensures Now() == Start(frameSize, faults) && fresh(writer)
    {
      var w := new FlacWriter(frameSize, faults);
      writer := w;
      trailing, skippedInitialFrames, writtenFrames := [], 0, 0;
    }

    method ConsumeFrames(frames: seq<Frame>, initialPadding: nat, trailingPadding: nat) returns (ok: bool)
      modifies this, writer
      ensures (Now(), ok) == Consume(old(Now()), frames, initialPadding, trailingPadding)
    {
      hide WriteFrames;
      var remainingInitial := if initialPadding > skippedInitialFrames then initialPadding - skippedInitialFrames
                              else 0;
      var skip := if |frames| < remainingInitial then |frames| else remainingInitial;
      skippedInitialFrames := skippedInitialFrames + skip;
      if |frames| - skip > 0 {
        trailing := trailing + frames[skip..];
        if |trailing| > trailingPadding {
          var ready := |trailing| - trailingPadding;
          var written := writer.Write(trailing[..ready]);
          if !written {
            return false;
          }
          writtenFrames := writtenFrames + ready;
          trailing := trailing[ready..];
        }
      }
      ok := true;
    }

    method DecodeAll(events: seq<Event>, initialPadding: nat, trailingPadding: nat) returns (stopped: Option<Result>)
      modifies this, writer
      ensures (Now(), stopped) == Decode(old(Now()), events, initialPadding, trailingPadding)
    {
      hide Consume;
      var i := 0;
      while i < |events|
        invariant i <= |events|
        invariant Decode(Now(), events[i..], initialPadding, trailingPadding) ==
                  Decode(old(Now()), events, initialPadding, trailingPadding)
      {
        assert events[i..][0] == events[i] && events[i..][1..] == events[i + 1..];
        match events[i]
        case Cancelled => return Some(Cancellation);
        case ReadFailed => return Some(DecodeError);
        case Read(frames) =>
          if frames == [] {
            return None;
          }
          var ok := ConsumeFrames(frames, initialPadding, trailingPadding);
          if !ok {
            return Some(EncodeError);
          }
        i := i + 1;
      }
      stopped := None;
    }

    /** The whole export on a fresh object. */
    method Run(events: seq<Event>, initialPadding: nat, trailingPadding: nat, cancelledAtEnd: bool)
      returns (result: Result)
      requires Now() == Start(writer.frameSize, writer.faults)
      modifies this, writer
      ensures (Now(), result)
           == ExportToFlac(writer.frameSize, events, initialPadding, trailingPadding, cancelledAtEnd,
                           old(writer.faults))
    {
      hide Decode, Finish;
      ghost var start := Now();
      StartFollows(writer.frameSize, writer.faults, initialPadding, trailingPadding);
      DecodeFollows(start, [], events, initialPadding, trailingPadding);
      var stopped := DecodeAll(events, initialPadding, trailingPadding);
      if stopped.Some? {
        return stopped.value;
      }
      if cancelledAtEnd {
        return Cancellation;
      }
      if writtenFrames == 0 {
        return NothingToExport;
      }
      var ok := writer.FinishFile();
      result := if ok then Exported else EncodeError;
    }
  }
}
