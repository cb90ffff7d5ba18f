/**
 The single-producer single-consumer ring (audio/spsc_audio_ring.cpp).

 First the concurrent protocol: every load or store of a shared position and every copied cell is
 one step, and producer and consumer steps interleave freely. One cell holds one interleaved frame.
 */
module SpscAudioRing {
  import opened Arithmetic
  import opened Wrapping

  /** What became of a position the reader has passed. */
  datatype Fate<T> = Delivered(frame: T) | Discarded

  datatype Producer<T> = ProducerIdle | Filling(input: seq<T>, base: nat, count: nat, copied: nat)

  datatype Consumer<T> = ConsumerIdle | Draining(base: nat, count: nat, output: seq<T>)

  /** `stream` and `fates` are history: everything published, and what happened to what was read. */
  datatype State<T> = State(
    cells: seq<T>,
    readPosition: nat,
    writePosition: nat,
    producer: Producer<T>,
    consumer: Consumer<T>,
    stream: seq<T>,
    fates: seq<Fate<T>>)

  datatype Step<T> =
    | BeginWrite(input: seq<T>)  // loads both positions, fixes the count
    | CopyIn                     // copies one cell of the input
    | PublishWrite               // stores the write position
    | BeginRead(frames: nat)     // loads both positions, fixes the count
    | CopyOut                    // copies one cell out
    | PublishRead                // stores the read position
    | Discard                    // discardBufferedFrames, by the idle consumer's thread

  predicate Enabled<T>(s: State<T>, step: Step<T>) {
    && |s.cells| > 0
    && match step {
         case BeginWrite(_) => s.producer.ProducerIdle?
         case CopyIn => s.producer.Filling? && s.producer.copied < s.producer.count <= |s.producer.input|
         case PublishWrite => s.producer.Filling? && s.producer.copied == s.producer.count <= |s.producer.input|
         case BeginRead(_) => s.consumer.ConsumerIdle?
         case CopyOut => s.consumer.Draining? && |s.consumer.output| < s.consumer.count
         case PublishRead => s.consumer.Draining? && |s.consumer.output| == s.consumer.count
         case Discard => s.consumer.ConsumerIdle?
       }
  }

  function Apply<T>(s: State<T>, step: Step<T>): State<T>
    requires Enabled(s, step)
  {
    var capacity := |s.cells|;
    match step
    case BeginWrite(input) =>
      var count := Min(|input|, capacity - (s.writePosition - s.readPosition));
      if count <= 0 then s else s.(producer := Filling(input, s.writePosition, count, 0))
    case CopyIn =>
      var p := s.producer;
      s.(cells := s.cells[(p.base + p.copied) % capacity := p.input[p.copied]],
      producer := p.(copied := p.copied + 1))
    case PublishWrite =>
      var p := s.producer;
      s.(writePosition := p.base + p.count, producer := ProducerIdle, stream := s.stream + p.input[..p.count])
    case BeginRead(frames) =>
      var count := Min(frames, s.writePosition - s.readPosition);
      if count <= 0 then s else s.(consumer := Draining(s.readPosition, count, []))
    case CopyOut =>
      var c := s.consumer;
      s.(consumer := c.(output := c.output + [s.cells[(c.base + |c.output|) % capacity]]))
    case PublishRead =>
      var c := s.consumer;
      s.(readPosition := c.base + c.count, consumer := ConsumerIdle, fates := s.fates + AllDelivered(c.output))
    case Discard =>
      var dropped := if s.writePosition > s.readPosition then s.writePosition - s.readPosition else 0;
      s.(readPosition := s.writePosition, fates := s.fates + seq(dropped, _ => Discarded))
  }

  function AllDelivered<T>(frames: seq<T>): seq<Fate<T>> {
    seq(|frames|, i requires 0 <= i < |frames| => Delivered(frames[i]))
  }

  predicate Initial<T>(s: State<T>) {
    && |s.cells| > 0
    && s.readPosition == 0 && s.writePosition == 0
    && s.producer.ProducerIdle? && s.consumer.ConsumerIdle?
    && s.stream == [] && s.fates == []
  }

  predicate Executes<T(==)>(s: State<T>, steps: seq<Step<T>>, last: State<T>)
    decreases |steps|
  {
    if steps == [] then last == s
    else Enabled(s, steps[0]) && Executes(Apply(s, steps[0]), steps[1..], last)
  }

  /** What holds between any two steps. */
  ghost predicate Inv<T>(s: State<T>) {
    && 0 < |s.cells|
    && s.readPosition <= s.writePosition <= s.readPosition + |s.cells|
    && |s.stream| == s.writePosition
    && |s.fates| == s.readPosition
    && LiveCells(s)
    && FatesFaithful(s)
    && ProducerOk(s)
    && ConsumerOk(s)
  }

  ghost predicate LiveCells<T>(s: State<T>)
    requires 0 < |s.cells| && |s.stream| == s.writePosition
  {
    forall p | s.readPosition <= p < s.writePosition :: s.cells[p % |s.cells|] == s.stream[p]
  }

  ghost predicate FatesFaithful<T>(s: State<T>) {
    && |s.fates| <= |s.stream|
    && forall p | 0 <= p < |s.fates| && s.fates[p].Delivered? :: s.fates[p].frame == s.stream[p]
  }

  ghost predicate ProducerOk<T>(s: State<T>)
    requires 0 < |s.cells|
  {
    s.producer.Filling? ==>
      var p := s.producer;
      && p.base == s.writePosition
      && p.copied <= p.count <= |p.input|
      && p.base + p.count <= s.readPosition + |s.cells|
      && forall k | 0 <= k < p.copied :: s.cells[(p.base + k) % |s.cells|] == p.input[k]
  }

  ghost predicate ConsumerOk<T>(s: State<T>)
    requires |s.stream| == s.writePosition
  {
    s.consumer.Draining? ==>
      var c := s.consumer;
      && c.base == s.readPosition
      && |c.output| <= c.count
      && c.base + c.count <= s.writePosition
      && forall k | 0 <= k < |c.output| :: c.output[k] == s.stream[c.base + k]
  }

  lemma CopyInKeepsInv<T>(s: State<T>)
    requires Inv(s) && Enabled(s, CopyIn)
    ensures Inv(Apply(s, CopyIn))
  {
    var capacity := |s.cells|;
    var p := s.producer;
    var at := p.base + p.copied;
    var t := Apply(s, CopyIn);
    forall q | s.readPosition <= q < s.writePosition
      ensures t.cells[q % capacity] == s.cells[q % capacity]
    {
      DistinctCells(q, at, capacity);
    }
    forall q | p.base <= q < at
      ensures t.cells[q % capacity] == s.cells[q % capacity]
    {
      DistinctCells(q, at, capacity);
    }
  }

  lemma PublishWriteKeepsInv<T>(s: State<T>)
    requires Inv(s) && Enabled(s, PublishWrite)
    ensures Inv(Apply(s, PublishWrite))
  {
    var p := s.producer;
    var t := Apply(s, PublishWrite);
    forall q | t.readPosition <= q < t.writePosition
      ensures t.cells[q % |t.cells|] == t.stream[q]
    {
      if q >= s.writePosition {
        var k := q - p.base;
        assert s.cells[(p.base + k) % |s.cells|] == p.input[k];
      }
    }
  }

  lemma CopyOutKeepsInv<T>(s: State<T>)
    requires Inv(s) && Enabled(s, CopyOut)
    ensures Inv(Apply(s, CopyOut))
  {
    var c := s.consumer;
    assert s.cells[(c.base + |c.output|) % |s.cells|] == s.stream[c.base + |c.output|];
  }

  lemma PublishReadKeepsInv<T>(s: State<T>)
    requires Inv(s) && Enabled(s, PublishRead)
    ensures Inv(Apply(s, PublishRead))
    ensures s.fates <= Apply(s, PublishRead).fates
  {
  }

  /** Every step of either side keeps the invariant, whatever the other side is doing. */
  lemma StepKeepsInv<T>(s: State<T>, step: Step<T>)
    requires Inv(s) && Enabled(s, step)
    ensures Inv(Apply(s, step))
    ensures s.readPosition <= Apply(s, step).readPosition
    ensures s.writePosition <= Apply(s, step).writePosition
    ensures s.stream <= Apply(s, step).stream && s.fates <= Apply(s, step).fates
  {
    match step
    case CopyIn => CopyInKeepsInv(s);
    case PublishWrite => PublishWriteKeepsInv(s);
    case CopyOut => CopyOutKeepsInv(s);
    case PublishRead => PublishReadKeepsInv(s);
    case _ =>
  }

  /**
   Every run: occupancy stays within capacity, positions and history only grow, and every position
   the consumer passed either was discarded or delivered exactly the frame published there, so no
   frame is ever torn, duplicated, reordered or invented.
   */
  lemma {:induction false} RunIsFifo<T>(s: State<T>, steps: seq<Step<T>>, last: State<T>)
    requires Inv(s) && Executes(s, steps, last)
    ensures Inv(last)
    ensures last.readPosition <= last.writePosition <= last.readPosition + |last.cells|
    ensures s.stream <= last.stream && s.fates <= last.fates
    decreases |steps|
  {
    if steps != [] {
      StepKeepsInv(s, steps[0]);
      RunIsFifo(Apply(s, steps[0]), steps[1..], last);
    }
  }

  /** The cells a producer is filling and the cells a consumer is copying never meet. */
  lemma CopiesAreDisjoint<T>(s: State<T>, i: nat, j: nat)
    requires Inv(s) && s.producer.Filling? && s.consumer.Draining?
    requires i < s.producer.count && j < s.consumer.count
    ensures (s.producer.base + i) % |s.cells| != (s.consumer.base + j) % |s.cells|
  {
    DistinctCells(s.consumer.base + j, s.producer.base + i, |s.cells|);
  }

  /** The frames delivered to the consumer so far, in order. */
  function DeliveredFrames<T>(fates: seq<Fate<T>>): seq<T>
  {
    if fates == [] then []
    else
      var before := DeliveredFrames(fates[..|fates| - 1]);
      match fates[|fates| - 1]
      case Delivered(frame) => before + [frame]
      case Discarded => before
  }

  lemma {:induction false} DeliveredArePrefix<T>(fates: seq<Fate<T>>, stream: seq<T>)
    requires |fates| <= |stream|
    requires forall p | 0 <= p < |fates| :: fates[p] == Delivered(stream[p])
    ensures DeliveredFrames(fates) == stream[..|fates|]
  {
    if fates != [] {
      DeliveredArePrefix(fates[..|fates| - 1], stream);
      assert stream[..|fates|] == stream[..|fates| - 1] + [stream[|fates| - 1]];
    }
  }

  lemma {:induction false} NothingDiscarded<T>(s: State<T>, steps: seq<Step<T>>, last: State<T>)
    requires Inv(s) && Executes(s, steps, last) && Discard !in steps
    requires forall p | 0 <= p < |s.fates| :: s.fates[p].Delivered?
    ensures forall p | 0 <= p < |last.fates| :: last.fates[p].Delivered?
    decreases |steps|
  {
    if steps != [] {
      StepKeepsInv(s, steps[0]);
      NothingDiscarded(Apply(s, steps[0]), steps[1..], last);
    }
  }

  /** Without discards the consumed stream is a prefix of the produced stream, across every wrap. */
  lemma ConsumedIsPrefixOfProduced<T>(s: State<T>, steps: seq<Step<T>>, last: State<T>)
    requires Initial(s) && Executes(s, steps, last) && Discard !in steps
    ensures last.readPosition <= |last.stream|
    ensures DeliveredFrames(last.fates) == last.stream[..last.readPosition]
  {
    RunIsFifo(s, steps, last);
    NothingDiscarded(s, steps, last);
    DeliveredArePrefix(last.fates, last.stream);
  }

  /** The abstract queue the ring stands for: published and not yet read. */
  function Queue<T>(s: State<T>): seq<T>
    requires s.readPosition <= |s.stream|
  {
    s.stream[s.readPosition..]
  }

  /**
   Each step is a step of an unbounded FIFO: a push of the copied input, a pop of the copied output, a clear,
   or nothing.
   */
  lemma StepRefinesQueue<T>(s: State<T>, step: Step<T>)
    requires Inv(s) && Enabled(s, step)
    ensures Inv(Apply(s, step))
    ensures match step
            case PublishWrite => Queue(Apply(s, step)) == Queue(s) + s.producer.input[..s.producer.count]
            case PublishRead => Queue(s) == s.consumer.output + Queue(Apply(s, step))
            case Discard => Queue(Apply(s, step)) == []
            case _ => Queue(Apply(s, step)) == Queue(s)
  {
    StepKeepsInv(s, step);
  }

  // ----- a call that nobody interrupts -----

  /** A producer that goes on copies the rest of its input. */
  lemma {:induction false} CopyInRuns<T>(s: State<T>) returns (steps: seq<Step<T>>, last: State<T>)
    requires Inv(s) && s.producer.Filling?
    ensures Executes(s, steps, last) && Inv(last)
    ensures last == s.(cells := last.cells, producer := s.producer.(copied := s.producer.count))
    decreases s.producer.count - (if s.producer.Filling? then s.producer.copied else 0)
  {
    if s.producer.copied == s.producer.count {
      steps, last := [], s;
    } else {
      StepKeepsInv(s, CopyIn);
      var more;
      more, last := CopyInRuns(Apply(s, CopyIn));
      steps := [CopyIn] + more;
    }
  }

  lemma WriteBegins<T>(s: State<T>, input: seq<T>)
    requires Inv(s) && s.producer.ProducerIdle?
    ensures var n := Min(|input|, |s.cells| - |Queue(s)|);
            && 0 <= n && Enabled(s, BeginWrite(input))
            && Apply(s, BeginWrite(input)) ==
               if n == 0 then s else s.(producer := Filling(input, s.writePosition, n, 0))
  {
  }

  lemma WriteEnds<T>(s: State<T>, copied: State<T>, input: seq<T>, n: nat)
    requires |s.stream| == s.writePosition && s.readPosition <= s.writePosition && n <= |input| && |copied.cells| > 0
    requires copied == s.(cells := copied.cells, producer := Filling(input, s.writePosition, n, n))
    requires s.producer.ProducerIdle?
    ensures Enabled(copied, PublishWrite)
    ensures var last := Apply(copied, PublishWrite);
            && last == s.(cells := copied.cells, writePosition := s.writePosition + n, stream := s.stream + input[..n])
            && Queue(last) == Queue(s) + input[..n]
  {
  }

  /** A write takes what fits of its input, all of it if there is room, and adds it to the queue in order. */
  lemma WriteRuns<T>(s: State<T>, input: seq<T>) returns (steps: seq<Step<T>>, last: State<T>)
    requires Inv(s) && s.producer.ProducerIdle?
    ensures Executes(s, steps, last) && Inv(last)
    ensures var room := |s.cells| - |Queue(s)|;
            && Queue(last) == Queue(s) + (if |input| <= room then input else input[..room])
            && last == s.(cells := last.cells, writePosition := last.writePosition, stream := last.stream)
  {
    WriteBegins(s, input);
    var n := Min(|input|, |s.cells| - |Queue(s)|);
    var copying := Apply(s, BeginWrite(input));
    if n == 0 {
      assert Executes(copying, [], s);
      steps, last := [BeginWrite(input)], s;
    } else {
      StepKeepsInv(s, BeginWrite(input));
      var copies, copied := CopyInRuns(copying);
      PositionsAreInOrder(s);
      hide Apply, Executes, Inv, Enabled;
      WriteEnds(s, copied, input, n);
      StepKeepsInv(copied, PublishWrite);
      last := Apply(copied, PublishWrite);
      steps := CallRuns(s, BeginWrite(input), copies, copied, PublishWrite);
    }
  }

  lemma PositionsAreInOrder<T>(s: State<T>)
    requires Inv(s)
    ensures |s.cells| > 0 && |s.stream| == s.writePosition && s.readPosition <= s.writePosition
  {
  }

  /** A consumer that goes on copies the rest of what it takes. */
  lemma {:induction false} CopyOutRuns<T>(s: State<T>) returns (steps: seq<Step<T>>, last: State<T>)
    requires Inv(s) && s.consumer.Draining?
    ensures Executes(s, steps, last) && Inv(last)
    ensures last == s.(consumer := last.consumer) && last.consumer.Draining?
    ensures last.consumer.base == s.consumer.base && last.consumer.count == s.consumer.count
    ensures |last.consumer.output| == s.consumer.count
    decreases s.consumer.count - (if s.consumer.Draining? then |s.consumer.output| else 0)
  {
    if |s.consumer.output| == s.consumer.count {
      steps, last := [], s;
    } else {
      StepKeepsInv(s, CopyOut);
      var more;
      more, last := CopyOutRuns(Apply(s, CopyOut));
      steps := [CopyOut] + more;
    }
  }

  /** A read takes as many of the oldest frames as it may and delivers them in order. */
  lemma ReadRuns<T>(s: State<T>, frames: nat) returns (steps: seq<Step<T>>, last: State<T>)
    requires Inv(s) && s.consumer.ConsumerIdle?
    ensures Executes(s, steps, last) && Inv(last)
    ensures var n := if frames <= |Queue(s)| then frames else |Queue(s)|;
            && Queue(last) == Queue(s)[n..] && last.fates == s.fates + AllDelivered(Queue(s)[..n])
            && last == s.(readPosition := last.readPosition, fates := last.fates)
  {
    hide LiveCells, FatesFaithful, ProducerOk;
    var n := Min(frames, s.writePosition - s.readPosition);
    if n <= 0 {
      assert Executes(Apply(s, BeginRead(frames)), [], s);
      steps, last := [BeginRead(frames)], s;
    } else {
      StepKeepsInv(s, BeginRead(frames));
      var copying := Apply(s, BeginRead(frames));
      var copies, copied := CopyOutRuns(copying);
      hide Executes;
      StepKeepsInv(copied, PublishRead);
      assert copied.consumer.output == Queue(s)[..n];
      last := Apply(copied, PublishRead);
      steps := CallRuns(s, BeginRead(frames), copies, copied, PublishRead);
    }
  }

  lemma CallRuns<T>(s: State<T>, begin: Step<T>, copies: seq<Step<T>>, copied: State<T>, publish: Step<T>)
    returns (steps: seq<Step<T>>)
    requires Enabled(s, begin) && Executes(Apply(s, begin), copies, copied) && Enabled(copied, publish)
    ensures Executes(s, steps, Apply(copied, publish))
  {
    hide Apply, Enabled;
    var last := Apply(copied, publish);
    assert Executes(last, [], last);
    assert Executes(copied, [publish], last);
    RunsJoin(Apply(s, begin), copies, copied, [publish], last);
    steps := [begin] + (copies + [publish]);
    assert steps[1..] == copies + [publish];
  }

  lemma {:induction false} RunsJoin<T>(s: State<T>, first: seq<Step<T>>, middle: State<T>, second: seq<Step<T>>,
                                       last: State<T>)
    requires Executes(s, first, middle) && Executes(middle, second, last)
    ensures Executes(s, first + second, last)
    decreases |first|
  {
    if first == [] {
      assert first + second == second;
    } else {
      RunsJoin(Apply(s, first[0]), first[1..], middle, second, last);
      assert (first + second)[1..] == first[1..] + second;
    }
  }

  /** The frames between two positions of a set of cells. */
  function Window<T>(cells: seq<T>, from: nat, to: nat): (r: seq<T>)
    requires |cells| > 0 && from <= to
    ensures |r| == to - from
  {
    seq(to - from, i requires 0 <= i => cells[(from + i) % |cells|])
  }

  /** In every reachable state the cells between the positions hold exactly the abstract queue. */
  lemma LiveWindowIsQueue<T>(s: State<T>)
    requires Inv(s)
    ensures Window(s.cells, s.readPosition, s.writePosition) == Queue(s)
  {
    forall i | 0 <= i < s.writePosition - s.readPosition
      ensures s.cells[(s.readPosition + i) % |s.cells|] == Queue(s)[i]
    {
      assert s.stream[s.readPosition + i] == Queue(s)[i];
    }
  }

  /** `data` laid down from cell `at`, continuing at cell 0 once the last cell is full. */
  function TwoPartCopied<T>(cells: seq<T>, at: nat, data: seq<T>): (r: seq<T>)
    requires at < |cells| && |data| <= |cells|
    ensures |r| == |cells|
  {
    var first := Min(|data|, |cells| - at);
    data[first..] + cells[|data| - first..at] + data[..first] + cells[at + first..]
  }

  lemma TwoPartCopyLands<T>(cells: seq<T>, start: nat, data: seq<T>, k: nat)
    requires |cells| > 0 && k < |data| <= |cells|
    ensures TwoPartCopied(cells, start % |cells|, data)[(start + k) % |cells|] == data[k]
  {
    CellAfter(start, k, |cells|);
  }

  lemma TwoPartCopySpares<T>(cells: seq<T>, start: nat, data: seq<T>, p: nat)
    requires |cells| > 0 && |data| <= |cells|
    requires p < start && start + |data| <= p + |cells|
    ensures TwoPartCopied(cells, start % |cells|, data)[p % |cells|] == cells[p % |cells|]
  {
    if data != [] {
      CellAfter(p, start - p, |cells|);
    }
  }

  /** Copying `data` behind a window appends it and leaves the window as it was. */
  lemma FilledWindow<T>(cells: seq<T>, from: nat, to: nat, data: seq<T>)
    requires |cells| > 0 && from <= to && to + |data| <= from + |cells|
    ensures Window(TwoPartCopied(cells, to % |cells|, data), from, to + |data|) == Window(cells, from, to) + data
  {
    hide TwoPartCopied;
    var filled := TwoPartCopied(cells, to % |cells|, data);
    forall i | 0 <= i < to - from + |data|
      ensures filled[(from + i) % |cells|] == (Window(cells, from, to) + data)[i]
    {
      if i < to - from {
        TwoPartCopySpares(cells, to, data, from + i);
      } else {
        TwoPartCopyLands(cells, to, data, from + i - to);
      }
    }
  }

  /** What a two-part copy out of the cells delivers. */
  function TwoPartRead<T>(cells: seq<T>, at: nat, count: nat): (r: seq<T>)
    requires at < |cells| && count <= |cells|
    ensures |r| == count
  {
    var first := Min(count, |cells| - at);
    cells[at..at + first] + cells[..count - first]
  }

  lemma TwoPartReadIsWindow<T>(cells: seq<T>, start: nat, count: nat)
    requires |cells| > 0 && count <= |cells|
    ensures TwoPartRead(cells, start % |cells|, count) == Window(cells, start, start + count)
  {
    var read := TwoPartRead(cells, start % |cells|, count);
    forall k | 0 <= k < count ensures read[k] == cells[(start + k) % |cells|] {
      CellAfter(start, k, |cells|);
    }
  }

  lemma WindowSplits<T>(cells: seq<T>, from: nat, middle: nat, to: nat)
    requires |cells| > 0 && from <= middle <= to
    ensures Window(cells, from, to) == Window(cells, from, middle) + Window(cells, middle, to)
  {
    var first, rest := Window(cells, from, middle), Window(cells, middle, to);
    forall i | 0 <= i < to - from ensures Window(cells, from, to)[i] == (first + rest)[i] {
      if i >= middle - from {
        assert from + i == middle + (i - (middle - from));
      }
    }
  }

  /** The sequential view: cells updated in place by two-part copies. */
  class Ring<T> {
    const cells: array<T>
    var readPosition: nat
    var writePosition: nat

    ghost predicate Valid()
      reads this
    {
      && 0 < cells.Length
      && readPosition <= writePosition <= readPosition + cells.Length
    }

    ghost function Contents(): seq<T>
      requires Valid()
      reads this, cells
    {
      Window(cells[..], readPosition, writePosition)
    }

    constructor (capacityFrames: nat, silence: T)
      requires capacityFrames > 0
      ensures Valid() && fresh(cells) && cells.Length == capacityFrames
      ensures Contents() == []
    {
      cells := new T[capacityFrames](_ => silence);
      readPosition, writePosition := 0, 0;
    }

    method BufferedFrames() returns (n: nat)
      requires Valid()
      ensures n == |Contents()|
    {
      n := writePosition - readPosition;
    }

    method WriteSome(input: array<T>) returns (count: nat)
      requires Valid() && input != cells
      modifies this`writePosition, cells
      ensures Valid() && readPosition == old(readPosition)
      ensures count == Min(input.Length, cells.Length - |old(Contents())|)
      ensures writePosition == old(writePosition) + count
      ensures Contents() == old(Contents()) + input[..count]
    {
      hide Window;
      var available := cells.Length - (writePosition - readPosition);
      count := if input.Length < available then input.Length else available;
      if count == 0 {
        assert Contents() + input[..0] == Contents();
        return;
      }
      CopyIn(writePosition % cells.Length, input, count);
      FilledWindow(old(cells[..]), readPosition, writePosition, input[..count]);
      writePosition := writePosition + count;
    }

    method CopyIn(writeIndex: nat, input: array<T>, count: nat)
      requires input != cells && writeIndex < cells.Length && count <= input.Length && count <= cells.Length
      modifies cells
      ensures cells[..] == TwoPartCopied(old(cells[..]), writeIndex, input[..count])
    {
      var first := if count < cells.Length - writeIndex then count else cells.Length - writeIndex;
      forall k | 0 <= k < first {
        cells[writeIndex + k] := input[k];
      }
      if count > first {
        forall k | 0 <= k < count - first {
          cells[k] := input[first + k];
        }
      }
    }

    method ReadSome(output: array<T>) returns (count: nat)
      requires Valid() && output != cells
      modifies this`readPosition, output
      ensures Valid() && writePosition == old(writePosition)
      ensures count == Min(output.Length, |old(Contents())|)
      ensures readPosition == old(readPosition) + count
      ensures old(Contents()) == output[..count] + Contents()
      ensures output[count..] == old(output[count..])
    {
      var buffered := writePosition - readPosition;
      count := if output.Length < buffered then output.Length else buffered;
      if count == 0 {
        assert output[..0] + Contents() == Contents();
        return;
      }
      hide Window, TwoPartRead;
      CopyOut(readPosition % cells.Length, output, count);
      TwoPartReadIsWindow(cells[..], readPosition, count);
      WindowSplits(cells[..], readPosition, readPosition + count, writePosition);
      readPosition := readPosition + count;
    }

    method CopyOut(readIndex: nat, output: array<T>, count: nat)
      requires output != cells && readIndex < cells.Length && count <= output.Length && count <= cells.Length
      modifies output
      ensures output[..count] == TwoPartRead(cells[..], readIndex, count) && output[count..] == old(output[count..])
    {
      var first := if count < cells.Length - readIndex then count else cells.Length - readIndex;
      forall k | 0 <= k < first {
        output[k] := cells[readIndex + k];
      }
      if count > first {
        forall k | 0 <= k < count - first {
          output[first + k] := cells[k];
        }
      }
    }

    method DiscardBufferedFrames()
      requires Valid()
      modifies this`readPosition
      ensures Valid() && Contents() == [] && readPosition == writePosition == old(writePosition)
    {
      readPosition := writePosition;
    }
  }
}
