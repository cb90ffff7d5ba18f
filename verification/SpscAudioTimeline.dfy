/**
 The anchor timeline (audio/spsc_audio_timeline.cpp): a bounded queue of presentation anchors whose
 slots are small sequence locks, so that any number of further threads may look anchors up while one
 thread appends and another pops.

 The concurrent protocol comes first. Every load and every store of a shared variable is one step.
 */
module SpscAudioTimeline {
  import opened Wrapping

  datatype Anchor = Anchor(framePosition: nat, ptsUs: int, serial: int)

  datatype Slot = Slot(sequence: nat, framePosition: nat, ptsUs: int, serial: int)

  /** `stage` counts the stores an append has made: sequence, frame, pts, serial, sequence. */
  datatype Writer = WriterIdle | Appending(anchor: Anchor, position: nat, stage: nat)

  datatype Consumer = ConsumerIdle | Popping(position: nat)

  datatype Query = Peek(offset: nat) | Find(framePosition: nat)

  /** `loads` counts the loads made of the current slot: sequence, frame, pts, serial. */
  datatype Reader =
    | ReaderIdle
    | Starting(query: Query, attempt: nat)
    | LoadedRead(query: Query, attempt: nat, read: nat)
    | Scanning(query: Query, attempt: nat, read: nat, written: nat,
               position: nat, loads: nat, snapshot: Anchor, chosen: nat, candidate: Anchor)
    | Confirming(query: Query, attempt: nat, read: nat, written: nat, chosen: nat, candidate: Anchor)
    | Found(query: Query, read: nat, written: nat, chosen: nat, candidate: Anchor)
    | NotFound(query: Query)

  /** `log` is history: the anchor appended at each position, the one being appended included. */
  datatype Timeline = Timeline(
    slots: seq<Slot>,
    readPosition: nat,
    writePosition: nat,
    writer: Writer,
    consumer: Consumer,
    log: seq<Anchor>)

  datatype State = State(timeline: Timeline, readers: seq<Reader>)

  const SNAPSHOT_ATTEMPTS: nat := 4

  datatype Step =
    | BeginAppend(anchor: Anchor)   // loads both positions and tests for room
    | StoreNext                     // the next of the six stores of an append
    | BeginPop                      // loads both positions
    | FinishPop                     // stores the read position
    | Discard                       // discardAnchors, by the idle consumer's thread
    | StartQuery(reader: nat, query: Query)
    | ReaderLoad(reader: nat)       // the next load of one reader

  predicate Enabled(s: State, step: Step) {
    var t := s.timeline;
    && |t.slots| > 0
    && match step {
         case BeginAppend(_) => t.writer.WriterIdle?
         case StoreNext => t.writer.Appending?
         case BeginPop => t.consumer.ConsumerIdle?
         case FinishPop => t.consumer.Popping?
         case Discard => t.consumer.ConsumerIdle?
         case StartQuery(r, _) =>
           r < |s.readers| && (s.readers[r].ReaderIdle? || s.readers[r].Found? || s.readers[r].NotFound?)
         case ReaderLoad(r) =>
           r < |s.readers| && !s.readers[r].ReaderIdle? && !s.readers[r].Found? && !s.readers[r].NotFound?
       }
  }

  function Apply(s: State, step: Step): State
    requires Enabled(s, step)
  {
    match step
    case BeginAppend(anchor) => s.(timeline := AfterBeginAppend(s.timeline, anchor))
    case StoreNext => s.(timeline := AfterStore(s.timeline))
    case BeginPop =>
      var t := s.timeline;
      if t.readPosition == t.writePosition then s else s.(timeline := t.(consumer := Popping(t.readPosition)))
    case FinishPop =>
      var t := s.timeline;
      s.(timeline := t.(readPosition := t.consumer.position + 1, consumer := ConsumerIdle))
    case Discard => s.(timeline := s.timeline.(readPosition := s.timeline.writePosition))
    case StartQuery(r, query) => s.(readers := s.readers[r := Starting(query, 0)])
    case ReaderLoad(r) => s.(readers := s.readers[r := AfterLoad(s.timeline, s.readers[r])])
  }

  function AfterBeginAppend(t: Timeline, anchor: Anchor): Timeline
    requires |t.slots| > 0 && t.writer.WriterIdle?
  {
    if t.writePosition - t.readPosition == |t.slots| then t
    else t.(writer := Appending(anchor, t.writePosition, 0), log := t.log + [anchor])
  }

  function AfterStore(t: Timeline): Timeline
    requires |t.slots| > 0 && t.writer.Appending?
  {
    var w := t.writer;
    var i := w.position % |t.slots|;
    var slot := t.slots[i];
    var next := w.(stage := w.stage + 1);
    match w.stage
    case 0 => t.(slots := t.slots[i := slot.(sequence := 0)], writer := next)
    case 1 => t.(slots := t.slots[i := slot.(framePosition := w.anchor.framePosition)], writer := next)
    case 2 => t.(slots := t.slots[i := slot.(ptsUs := w.anchor.ptsUs)], writer := next)
    case 3 => t.(slots := t.slots[i := slot.(serial := w.anchor.serial)], writer := next)
    case 4 => t.(slots := t.slots[i := slot.(sequence := w.position + 1)], writer := next)
    case _ => t.(writePosition := w.position + 1, writer := WriterIdle)
  }

  function Retry(r: Reader): Reader
    requires r.Scanning? || r.Confirming?
  {
    if r.attempt + 1 < SNAPSHOT_ATTEMPTS then Starting(r.query, r.attempt + 1) else NotFound(r.query)
  }

  /** A slot was read twice with the same sequence; decide what the loop does next. */
  function Accept(r: Reader): Reader
    requires r.Scanning?
  {
    match r.query
    case Peek(_) => Confirming(r.query, r.attempt, r.read, r.written, r.position, r.snapshot)
    case Find(frame) =>
      if r.position > r.read && r.snapshot.framePosition > frame then
        Confirming(r.query, r.attempt, r.read, r.written, r.chosen, r.candidate)
      else if r.position + 1 < r.written then
        r.(position := r.position + 1, loads := 0, chosen := r.position, candidate := r.snapshot)
      else
        Confirming(r.query, r.attempt, r.read, r.written, r.position, r.snapshot)
  }

  function AfterLoad(t: Timeline, r: Reader): Reader
    requires |t.slots| > 0
    requires !r.ReaderIdle? && !r.Found? && !r.NotFound?
  {
    match r
    case Starting(query, attempt) => LoadedRead(query, attempt, t.readPosition)
    case LoadedRead(query, attempt, read) =>
      var written := t.writePosition;
      var nothing := Anchor(0, 0, 0);
      (match query
       case Peek(offset) =>
         if written < read || offset >= written - read then NotFound(query)
         else Scanning(query, attempt, read, written, read + offset, 0, nothing, 0, nothing)
       case Find(_) =>
         if written <= read then NotFound(query)
         else Scanning(query, attempt, read, written, read, 0, nothing, 0, nothing))
    case Scanning(_, _, _, _, position, loads, snapshot, _, _) =>
      var slot := t.slots[position % |t.slots|];
      (match loads
       case 0 => if slot.sequence != position + 1 then Retry(r) else r.(loads := 1)
       case 1 => r.(loads := 2, snapshot := snapshot.(framePosition := slot.framePosition))
       case 2 => r.(loads := 3, snapshot := snapshot.(ptsUs := slot.ptsUs))
       case 3 => r.(loads := 4, snapshot := snapshot.(serial := slot.serial))
       case _ => if slot.sequence != position + 1 then Retry(r) else Accept(r))
    case Confirming(query, _, read, written, chosen, candidate) =>
      if t.readPosition == read then Found(query, read, written, chosen, candidate) else Retry(r)
  }

  predicate Initial(s: State) {
    var t := s.timeline;
    && |t.slots| > 0
    && (forall i | 0 <= i < |t.slots| :: t.slots[i].sequence == 0)
    && t.readPosition == 0 && t.writePosition == 0 && t.log == []
    && t.writer.WriterIdle? && t.consumer.ConsumerIdle?
    && (forall r | 0 <= r < |s.readers| :: s.readers[r].ReaderIdle?)
  }

  predicate Executes(s: State, steps: seq<Step>, last: State)
    decreases |steps|
  {
    if steps == [] then last == s
    else Enabled(s, steps[0]) && Executes(Apply(s, steps[0]), steps[1..], last)
  }

  // ----- invariant -----

  ghost predicate Holds(slot: Slot, anchor: Anchor) {
    slot.framePosition == anchor.framePosition && slot.ptsUs == anchor.ptsUs && slot.serial == anchor.serial
  }

  /** A published sequence value names the one position whose anchor the slot then holds. */
  ghost predicate SlotOk(t: Timeline, i: nat)
    requires i < |t.slots|
  {
    var slot := t.slots[i];
    slot.sequence > 0 ==>
      && slot.sequence <= |t.log|
      && (slot.sequence - 1) % |t.slots| == i
      && Holds(slot, t.log[slot.sequence - 1])
  }

  ghost predicate WriterOk(t: Timeline)
    requires |t.slots| > 0
  {
    match t.writer
    case WriterIdle => |t.log| == t.writePosition
    case Appending(anchor, position, stage) =>
      && position == t.writePosition
      && |t.log| == position + 1 && t.log[position] == anchor
      && position < t.readPosition + |t.slots|
      && stage <= 5
      && var slot := t.slots[position % |t.slots|];
         && (stage == 0 ==> slot.sequence <= position)
         && (1 <= stage <= 4 ==> slot.sequence == 0)
         && (2 <= stage ==> slot.framePosition == anchor.framePosition)
         && (3 <= stage ==> slot.ptsUs == anchor.ptsUs)
         && (4 <= stage ==> slot.serial == anchor.serial)
         && (stage == 5 ==> slot.sequence == position + 1)
  }

  /** Every live anchor can be read from its slot: an append never overwrites one. */
  ghost predicate LiveReadable(t: Timeline)
    requires |t.slots| > 0
  {
    forall p | t.readPosition <= p < t.writePosition :: t.slots[p % |t.slots|].sequence == p + 1
  }

  ghost predicate TimelineOk(t: Timeline) {
    && 0 < |t.slots|
    && t.readPosition <= t.writePosition <= t.readPosition + |t.slots|
    && WriterOk(t)
    && (forall i | 0 <= i < |t.slots| :: SlotOk(t, i))
    && (t.writer.WriterIdle? || t.writer.stage < 5 ==>
          forall i | 0 <= i < |t.slots| :: t.slots[i].sequence <= t.writePosition)
    && LiveReadable(t)
    && (t.consumer.Popping? ==> t.consumer.position == t.readPosition < t.writePosition)
  }

  /** The slot of `p` no longer carries sequence p + 1 and never will again. */
  ghost predicate Passed(t: Timeline, p: nat)
    requires |t.slots| > 0
  {
    var slot := t.slots[p % |t.slots|];
    || slot.sequence > p + 1
    || (slot.sequence == 0 && t.writer.Appending? && t.writer.position > p
        && t.writer.position % |t.slots| == p % |t.slots| && 1 <= t.writer.stage <= 4)
  }

  /** What the loads so far have seen of log[p], unless the slot has moved on. */
  ghost predicate SnapshotOk(t: Timeline, p: nat, loads: nat, snapshot: Anchor)
    requires |t.slots| > 0 && p < |t.log|
  {
    1 <= loads ==>
      || Passed(t, p)
      || (&& t.slots[p % |t.slots|].sequence == p + 1
          && (2 <= loads ==> snapshot.framePosition == t.log[p].framePosition)
          && (3 <= loads ==> snapshot.ptsUs == t.log[p].ptsUs)
          && (4 <= loads ==> snapshot.serial == t.log[p].serial))
  }

  ghost predicate AllAtOrBefore(log: seq<Anchor>, from: nat, to: nat, frame: nat)
    requires to < |log|
  {
    forall k | from < k <= to :: log[k].framePosition <= frame
  }

  /** `chosen` answers the query over the anchors read..written of the log. */
  ghost predicate Answers(query: Query, log: seq<Anchor>, read: nat, written: nat, chosen: nat, candidate: Anchor) {
    && read <= chosen < written <= |log|
    && candidate == log[chosen]
    && match query
       case Peek(offset) => chosen == read + offset
       case Find(frame) =>
         && AllAtOrBefore(log, read, chosen, frame)
         && (chosen + 1 == written || log[chosen + 1].framePosition > frame)
  }

  ghost predicate ReaderOk(t: Timeline, r: Reader)
    requires TimelineOk(t)
  {
    match r
    case LoadedRead(_, _, read) => read <= t.readPosition
    case Scanning(query, _, read, written, position, loads, snapshot, chosen, candidate) =>
      && read <= t.readPosition
      && read <= position < written <= t.writePosition
      && loads <= 4
      && SnapshotOk(t, position, loads, snapshot)
      && (match query
          case Peek(offset) => position == read + offset
          case Find(frame) =>
            position > read ==>
              && chosen == position - 1
              && candidate == t.log[chosen]
              && AllAtOrBefore(t.log, read, chosen, frame))
    case Confirming(query, _, read, written, chosen, candidate) =>
      read <= t.readPosition && written <= t.writePosition && Answers(query, t.log, read, written, chosen, candidate)
    case Found(query, read, written, chosen, candidate) =>
      written <= t.writePosition && Answers(query, t.log, read, written, chosen, candidate)
    case _ => true
  }

  ghost predicate Inv(s: State) {
    && TimelineOk(s.timeline)
    && forall r | 0 <= r < |s.readers| :: ReaderOk(s.timeline, s.readers[r])
  }

  // ----- writer and consumer steps -----

  lemma BeginAppendOk(t: Timeline, anchor: Anchor)
    requires TimelineOk(t) && t.writer.WriterIdle?
    ensures TimelineOk(AfterBeginAppend(t, anchor))
    ensures t.log <= AfterBeginAppend(t, anchor).log
  {
    var u := AfterBeginAppend(t, anchor);
    forall i | 0 <= i < |u.slots|
      ensures SlotOk(u, i)
    {
      assert SlotOk(t, i);
    }
  }

  lemma StoreKeepsSlots(t: Timeline)
    requires TimelineOk(t) && t.writer.Appending?
    ensures forall i | 0 <= i < |t.slots| :: SlotOk(AfterStore(t), i)
  {
    var u := AfterStore(t);
    var position := t.writer.position;
    forall i | 0 <= i < |t.slots|
      ensures SlotOk(u, i)
    {
      assert SlotOk(t, i);
      if i == position % |t.slots| && t.writer.stage == 0 {
        assert u.slots[i].sequence == 0;
      }
    }
  }

  lemma StoreKeepsLive(t: Timeline)
    requires TimelineOk(t) && t.writer.Appending?
    ensures LiveReadable(AfterStore(t))
  {
    var u := AfterStore(t);
    var n := |t.slots|;
    forall p | t.readPosition <= p < t.writePosition
      ensures u.slots[p % n] == t.slots[p % n]
    {
      DistinctCells(p, t.writer.position, n);
    }
  }

  lemma StoreKeepsWriter(t: Timeline)
    requires TimelineOk(t) && t.writer.Appending?
    ensures WriterOk(AfterStore(t))
    ensures var u := AfterStore(t);
            u.writer.WriterIdle? || u.writer.stage < 5 ==>
              forall i | 0 <= i < |u.slots| :: u.slots[i].sequence <= u.writePosition
  {
    var u := AfterStore(t);
    forall i | 0 <= i < |t.slots|
      ensures u.slots[i].sequence <= t.writePosition + 1
    {
      assert SlotOk(t, i);
    }
  }

  lemma StoreOk(t: Timeline)
    requires TimelineOk(t) && t.writer.Appending?
    ensures TimelineOk(AfterStore(t))
  {
    StoreKeepsSlots(t);
    StoreKeepsLive(t);
    StoreKeepsWriter(t);
  }

  /** No store of an append disturbs what a reader has already seen. */
  lemma StoreKeepsReader(t: Timeline, r: Reader)
    requires TimelineOk(t) && t.writer.Appending? && TimelineOk(AfterStore(t))
    requires ReaderOk(t, r)
    ensures ReaderOk(AfterStore(t), r)
  {
  }

  // ----- reader steps -----

  lemma SlotLoadOk(t: Timeline, r: Reader)
    requires TimelineOk(t) && r.Scanning? && ReaderOk(t, r) && r.loads < 4
    ensures ReaderOk(t, AfterLoad(t, r))
  {
    assert SlotOk(t, r.position % |t.slots|);
  }

  /** Equal sequence values around the three field loads mean an untorn anchor. */
  lemma SnapshotIsWhole(t: Timeline, r: Reader)
    requires TimelineOk(t) && r.Scanning? && ReaderOk(t, r) && r.loads == 4
    requires t.slots[r.position % |t.slots|].sequence == r.position + 1
    ensures r.snapshot == t.log[r.position]
  {
  }

  lemma LoadOk(t: Timeline, r: Reader)
    requires TimelineOk(t) && ReaderOk(t, r)
    requires !r.ReaderIdle? && !r.Found? && !r.NotFound?
    ensures ReaderOk(t, AfterLoad(t, r))
  {
    if r.Scanning? {
      if r.loads < 4 {
        SlotLoadOk(t, r);
      } else if t.slots[r.position % |t.slots|].sequence == r.position + 1 {
        SnapshotIsWhole(t, r);
      }
    }
  }

  lemma PositionsKeepSlots(t: Timeline, u: Timeline)
    requires TimelineOk(t) && u == t.(readPosition := u.readPosition, consumer := u.consumer)
    ensures forall i | 0 <= i < |u.slots| :: SlotOk(u, i)
  {
    forall i | 0 <= i < |u.slots| ensures SlotOk(u, i) {
      assert SlotOk(t, i);
    }
  }

  lemma PositionsKeepTimeline(t: Timeline, u: Timeline)
    requires TimelineOk(t) && u == t.(readPosition := u.readPosition, consumer := u.consumer)
    requires t.readPosition <= u.readPosition <= u.writePosition
    requires u.consumer.Popping? ==> u.consumer.position == u.readPosition < u.writePosition
    ensures TimelineOk(u)
  {
    hide SlotOk;
    PositionsKeepSlots(t, u);
  }

  lemma PositionStepOk(s: State, step: Step)
    requires Inv(s) && Enabled(s, step) && (step.BeginPop? || step.FinishPop? || step.Discard?)
    ensures TimelineOk(Apply(s, step).timeline)
    ensures forall r | 0 <= r < |s.readers| :: ReaderOk(Apply(s, step).timeline, s.readers[r])
  {
    var t := s.timeline;
    var u := Apply(s, step).timeline;
    PositionsKeepTimeline(t, u);
    hide ReaderOk;
    forall r | 0 <= r < |s.readers| ensures ReaderOk(u, s.readers[r]) {
      PositionsKeepReader(t, u, s.readers[r]);
    }
  }

  /** A reader does not care how far the consumer has got. */
  lemma PositionsKeepReader(t: Timeline, u: Timeline, r: Reader)
    requires TimelineOk(t) && TimelineOk(u) && ReaderOk(t, r)
    requires u == t.(readPosition := u.readPosition, consumer := u.consumer) && t.readPosition <= u.readPosition
    ensures ReaderOk(u, r)
  {
  }

  lemma BeginAppendKeepsReader(t: Timeline, anchor: Anchor, r: Reader)
    requires TimelineOk(t) && t.writer.WriterIdle? && TimelineOk(AfterBeginAppend(t, anchor))
    requires ReaderOk(t, r)
    ensures ReaderOk(AfterBeginAppend(t, anchor), r)
  {
  }

  lemma StepKeepsInv(s: State, step: Step)
    requires Inv(s) && Enabled(s, step)
    ensures Inv(Apply(s, step))
    ensures |Apply(s, step).readers| == |s.readers|
    ensures s.timeline.log <= Apply(s, step).timeline.log
  {
    var t := s.timeline;
    match step
    case BeginAppend(anchor) =>
      BeginAppendOk(t, anchor);
      forall r | 0 <= r < |s.readers| ensures ReaderOk(AfterBeginAppend(t, anchor), s.readers[r]) {
        BeginAppendKeepsReader(t, anchor, s.readers[r]);
      }
    case StoreNext =>
      StoreOk(t);
      forall r | 0 <= r < |s.readers| ensures ReaderOk(AfterStore(t), s.readers[r]) {
        StoreKeepsReader(t, s.readers[r]);
      }
    case StartQuery(_, _) =>
    case ReaderLoad(r) => LoadOk(t, s.readers[r]);
    case _ => PositionStepOk(s, step);
  }

  lemma {:induction false} RunKeepsInv(s: State, steps: seq<Step>, last: State)
    requires Inv(s) && Executes(s, steps, last)
    ensures Inv(last) && |last.readers| == |s.readers| && s.timeline.log <= last.timeline.log
    decreases |steps|
  {
    if steps != [] {
      StepKeepsInv(s, steps[0]);
      RunKeepsInv(Apply(s, steps[0]), steps[1..], last);
    }
  }

  /**
   Every run: whatever answer any reader obtained is exactly an anchor of the log, namely the one its
   query asks for among the anchors it saw between the two positions. No answer mixes two anchors.
   */
  lemma AnswersAreNeverTorn(s: State, steps: seq<Step>, last: State, r: nat)
    requires Initial(s) && Executes(s, steps, last)
    requires r < |last.readers| && last.readers[r].Found?
    ensures var f := last.readers[r]; Answers(f.query, last.timeline.log, f.read, f.written, f.chosen, f.candidate)
  {
    RunKeepsInv(s, steps, last);
  }

  // ----- a call that nobody else moves during -----

  lemma {:induction false} ExecutesAppend(s: State, first: seq<Step>, middle: State, second: seq<Step>, last: State)
    requires Executes(s, first, middle) && Executes(middle, second, last)
    ensures Executes(s, first + second, last)
    decreases |first|
  {
    if first == [] {
      assert first + second == second;
    } else {
      ExecutesAppend(Apply(s, first[0]), first[1..], middle, second, last);
      assert (first + second)[1..] == first[1..] + second;
    }
  }

  ghost predicate Leads(s: State, last: State) {
    exists steps :: Executes(s, steps, last)
  }

  lemma Begins(s: State)
    ensures Leads(s, s)
  {
    assert Executes(s, [], s);
  }

  lemma Then(s: State, middle: State, step: Step) returns (last: State)
    requires Leads(s, middle) && Inv(middle) && Enabled(middle, step)
    ensures last == Apply(middle, step) && Inv(last) && Leads(s, last)
  {
    hide Inv;
    last := Apply(middle, step);
    var steps :| Executes(s, steps, middle);
    assert Executes(last, [], last);
    ExecutesAppend(s, steps, middle, [step], last);
    StepKeepsInv(middle, step);
  }

  /** An append adds its anchor if there is room, and otherwise changes nothing, whatever readers are doing. */
  lemma AppendRuns(s: State, anchor: Anchor) returns (last: State)
    requires Inv(s) && s.timeline.writer.WriterIdle?
    ensures Leads(s, last) && Inv(last)
    ensures var t, u := s.timeline, last.timeline;
            if t.writePosition < t.readPosition + |t.slots|
            then last == s.(timeline := t.(slots := u.slots, writePosition := t.writePosition + 1,
                                           log := t.log + [anchor]))
            else last == s
  {
    Begins(s);
    assert TimelineOk(s.timeline);
    hide Leads, Inv, AfterStore;
    last := Then(s, s, BeginAppend(anchor));
    if last.timeline.writer.Appending? {
      last := Stored(s, last, 0);
      last := Stored(s, last, 1);
      last := Stored(s, last, 2);
      last := Stored(s, last, 3);
      last := Stored(s, last, 4);
      last := Published(s, last);
    }
  }

  lemma Stored(s: State, middle: State, stage: nat) returns (last: State)
    requires Leads(s, middle) && Inv(middle) && |middle.timeline.slots| > 0
    requires middle.timeline.writer.Appending? && middle.timeline.writer.stage == stage <= 4
    ensures Leads(s, last) && Inv(last)
    ensures var t := middle.timeline;
            last == middle.(timeline := t.(slots := last.timeline.slots, writer := t.writer.(stage := stage + 1)))
    ensures |last.timeline.slots| == |middle.timeline.slots|
  {
    hide Leads, Inv;
    last := Then(s, middle, StoreNext);
  }

  lemma Published(s: State, middle: State) returns (last: State)
    requires Leads(s, middle) && Inv(middle) && |middle.timeline.slots| > 0
    requires middle.timeline.writer.Appending? && middle.timeline.writer.stage == 5
    ensures Leads(s, last) && Inv(last)
    ensures var t := middle.timeline;
            last == middle.(timeline := t.(writePosition := t.writer.position + 1, writer := WriterIdle))
  {
    hide Leads, Inv;
    last := Then(s, middle, StoreNext);
  }

  /** A pop takes the oldest anchor away, if there is one. */
  lemma PopRuns(s: State) returns (last: State)
    requires Inv(s) && s.timeline.consumer.ConsumerIdle?
    ensures Leads(s, last) && Inv(last)
    ensures var t := s.timeline;
            last == if t.readPosition < t.writePosition
                    then s.(timeline := t.(readPosition := t.readPosition + 1)) else s
  {
    Begins(s);
    assert TimelineOk(s.timeline);
    hide Leads, Inv;
    last := Then(s, s, BeginPop);
    if last.timeline.consumer.Popping? {
      last := Then(s, last, FinishPop);
    }
  }

  /** Reader r is about to read the slot of a live anchor, with the positions it has loaded still in force. */
  ghost predicate AtLiveSlot(s: State, r: nat) {
    && r < |s.readers| && |s.timeline.slots| > 0 && s.readers[r].Scanning? && s.readers[r].loads == 0
    && s.readers[r].read == s.timeline.readPosition && s.readers[r].written == s.timeline.writePosition
  }

  /** Five loads later it has accepted that anchor. */
  lemma SlotIsRead(s: State, middle: State, r: nat) returns (last: State)
    requires Leads(s, middle) && Inv(middle) && AtLiveSlot(middle, r)
    ensures Leads(s, last) && Inv(last)
    ensures middle.readers[r].position < |middle.timeline.log|
    ensures last == middle.(readers := middle.readers[r := Accept(middle.readers[r].(
                      loads := 4, snapshot := middle.timeline.log[middle.readers[r].position]))])
  {
    var position := middle.readers[r].position;
    LiveSlotHolds(middle, r);
    hide Leads, Inv, Accept, Retry, Holds;
    last := Then(s, middle, ReaderLoad(r));
    last := Then(s, last, ReaderLoad(r));
    last := Then(s, last, ReaderLoad(r));
    last := Then(s, last, ReaderLoad(r));
    var slot := middle.timeline.slots[position % |middle.timeline.slots|];
    assert Anchor(slot.framePosition, slot.ptsUs, slot.serial) == middle.timeline.log[position] by {
      HoldsIs(slot, middle.timeline.log[position]);
    }
    last := Then(s, last, ReaderLoad(r));
  }

  lemma HoldsIs(slot: Slot, anchor: Anchor)
    requires Holds(slot, anchor)
    ensures Anchor(slot.framePosition, slot.ptsUs, slot.serial) == anchor
  {
  }

  lemma LiveSlotHolds(s: State, r: nat)
    requires Inv(s) && AtLiveSlot(s, r)
    ensures var t, position := s.timeline, s.readers[r].position;
            && position < |t.log| && t.slots[position % |t.slots|].sequence == position + 1
            && Holds(t.slots[position % |t.slots|], t.log[position])
  {
    var t, position := s.timeline, s.readers[r].position;
    assert ReaderOk(t, s.readers[r]);
    assert SlotOk(t, position % |t.slots|);
  }

  /** A scan goes on to its end. */
  lemma {:induction false} ScanRuns(s: State, middle: State, r: nat) returns (last: State)
    requires Leads(s, middle) && Inv(middle) && AtLiveSlot(middle, r)
    ensures Leads(s, last) && Inv(last)
    ensures |last.readers| == |middle.readers| && last == middle.(readers := middle.readers[r := last.readers[r]])
    ensures var q, f := middle.readers[r], last.readers[r];
            f.Found? && f.query == q.query && f.read == q.read && f.written == q.written
    decreases middle.readers[r].written - middle.readers[r].position
  {
    LiveSlotHolds(middle, r);
    hide Leads, Inv;
    last := SlotIsRead(s, middle, r);
    if last.readers[r].Scanning? {
      last := ScanRuns(s, last, r);
    } else {
      last := Then(s, last, ReaderLoad(r));
    }
  }

  /**
   A query during which no position moves finds its answer in the first attempt, even if writer and consumer have
   been stopped in the middle of a call: it fails only when there is nothing to find.
   */
  lemma QueryRuns(s: State, r: nat, query: Query) returns (last: State)
    requires Inv(s) && Enabled(s, StartQuery(r, query))
    ensures r < |s.readers| && Apply(s, StartQuery(r, query)) == s.(readers := s.readers[r := Starting(query, 0)])
    ensures Leads(s, last) && Inv(last) && last.timeline == s.timeline && r < |last.readers|
    ensures var t, f := s.timeline, last.readers[r];
            var count := t.writePosition - t.readPosition;
            if (if query.Peek? then query.offset < count else count > 0)
            then f.Found? && Answers(query, t.log, t.readPosition, t.writePosition, f.chosen, f.candidate)
            else f.NotFound?
  {
    Begins(s);
    assert TimelineOk(s.timeline);
    hide Leads, Inv;
    last := Then(s, s, StartQuery(r, query));
    last := Then(s, last, ReaderLoad(r));
    last := Then(s, last, ReaderLoad(r));
    if last.readers[r].Scanning? {
      last := ScanRuns(s, last, r);
      FoundAnswers(last, r);
    }
  }

  /**
   An attempt is given up only if the consumer has moved on since it began; the query then starts over, and fails after
   the fourth attempt.
   */
  lemma RetriesOnlyIfOvertaken(t: Timeline, r: Reader)
    requires TimelineOk(t) && ReaderOk(t, r) && (r.Scanning? || r.Confirming?) && r.attempt < 4
    ensures var next := AfterLoad(t, r);
            next.Starting? || next.NotFound? ==>
              && r.read < t.readPosition && next.query == r.query
              && (if r.attempt < 3 then next.Starting? && next.attempt == r.attempt + 1 else next.NotFound?)
  {
  }

  /** Discarding takes all anchors away at once. */
  lemma DiscardEmpties(s: State)
    requires Inv(s) && s.timeline.consumer.ConsumerIdle?
    ensures Enabled(s, Discard)
    ensures Apply(s, Discard) == s.(timeline := s.timeline.(readPosition := s.timeline.writePosition))
  {
  }

  lemma FoundAnswers(s: State, r: nat)
    requires Inv(s) && r < |s.readers| && s.readers[r].Found?
    ensures var f := s.readers[r]; Answers(f.query, s.timeline.log, f.read, f.written, f.chosen, f.candidate)
  {
    assert ReaderOk(s.timeline, s.readers[r]);
  }

  /** Every run: an append always finds room or stores nothing, and every live anchor stays readable in place. */
  lemma LiveAnchorsStayReadable(s: State, steps: seq<Step>, last: State, p: nat)
    requires Initial(s) && Executes(s, steps, last)
    requires last.timeline.readPosition <= p < last.timeline.writePosition
    ensures |last.timeline.slots| > 0 && p < |last.timeline.log|
    ensures var slot := last.timeline.slots[p % |last.timeline.slots|];
            slot.sequence == p + 1 && Holds(slot, last.timeline.log[p])
    ensures last.timeline.writePosition <= last.timeline.readPosition + |last.timeline.slots|
  {
    RunKeepsInv(s, steps, last);
    assert SlotOk(last.timeline, p % |last.timeline.slots|);
  }

  /** At the confirming load the answer is still live: it lies between the read and write positions. */
  lemma ConfirmedAnswerIsLive(s: State, r: nat)
    requires Inv(s) && r < |s.readers| && s.readers[r].Confirming?
    requires Enabled(s, ReaderLoad(r)) && Apply(s, ReaderLoad(r)).readers[r].Found?
    ensures s.timeline.readPosition <= s.readers[r].chosen < s.timeline.writePosition
    ensures s.timeline.log[s.readers[r].chosen] == s.readers[r].candidate
  {
  }

  // ----- the sequential view -----

  function SlotAnchor(slot: Slot): Anchor {
    Anchor(slot.framePosition, slot.ptsUs, slot.serial)
  }

  /** The anchors between two positions of a set of slots. */
  function Window(slots: seq<Slot>, from: nat, to: nat): seq<Anchor>
    requires |slots| > 0 && from <= to
  {
    seq(to - from, i requires 0 <= i => SlotAnchor(slots[(from + i) % |slots|]))
  }

  /** The stepwise loop of a lookup settles on `chosen`. */
  ghost predicate Selects(anchors: seq<Anchor>, frame: nat, chosen: nat) {
    && chosen < |anchors|
    && (forall k | 0 < k <= chosen :: anchors[k].framePosition <= frame)
    && (chosen + 1 < |anchors| ==> anchors[chosen + 1].framePosition > frame)
  }

  lemma AppendedWindow(slots: seq<Slot>, from: nat, to: nat, slot: Slot)
    requires |slots| > 0 && from <= to < from + |slots|
    ensures Window(slots[to % |slots| := slot], from, to + 1) == Window(slots, from, to) + [SlotAnchor(slot)]
    ensures forall p | from <= p < to :: slots[to % |slots| := slot][p % |slots|] == slots[p % |slots|]
  {
    forall p | from <= p < to
      ensures slots[to % |slots| := slot][p % |slots|] == slots[p % |slots|]
    {
      DistinctCells(p, to, |slots|);
    }
  }

  class AnchorTimeline {
    const slots: array<Slot>
    var readPosition: nat
    var writePosition: nat

    ghost predicate Valid()
      reads this, slots
    {
      && 0 < slots.Length
      && readPosition <= writePosition <= readPosition + slots.Length
      && forall p | readPosition <= p < writePosition :: slots[p % slots.Length].sequence == p + 1
    }

    ghost function Contents(): seq<Anchor>
      requires Valid()
      reads this, slots
    {
      Window(slots[..], readPosition, writePosition)
    }

    constructor (capacityAnchors: nat)
      requires capacityAnchors > 0
      ensures Valid() && fresh(slots) && slots.Length == capacityAnchors && Contents() == []
    {
      slots := new Slot[capacityAnchors](_ => Slot(0, 0, 0, 0));
      readPosition, writePosition := 0, 0;
    }

    method DiscardAnchors()
      requires Valid()
      modifies this`readPosition
      ensures Valid() && Contents() == []
    {
      readPosition := writePosition;
    }

    method Append(anchor: Anchor) returns (ok: bool)
      requires Valid()
      modifies this`writePosition, slots
      ensures Valid()
      ensures ok == (|old(Contents())| < slots.Length)
      ensures Contents() == if ok then old(Contents()) + [anchor] else old(Contents())
    {
      if writePosition - readPosition == slots.Length {
        return false;
      }
      var i := writePosition % slots.Length;
      slots[i] := slots[i].(sequence := 0);
      slots[i] := slots[i].(framePosition := anchor.framePosition);
      slots[i] := slots[i].(ptsUs := anchor.ptsUs);
      slots[i] := slots[i].(serial := anchor.serial);
      slots[i] := slots[i].(sequence := writePosition + 1);
      AppendedWindow(old(slots[..]), readPosition, writePosition, slots[i]);
      assert slots[..] == old(slots[..])[i := slots[i]];
      writePosition := writePosition + 1;
      ok := true;
    }

    method ReadSlot(position: nat) returns (ok: bool, anchor: Anchor)
      requires Valid()
      ensures ok == (slots[position % slots.Length].sequence == position + 1)
      ensures ok ==> anchor == SlotAnchor(slots[position % slots.Length])
    {
      anchor := Anchor(0, 0, 0);
      var slot := slots[position % slots.Length];
      if slot.sequence != position + 1 {
        return false, anchor;
      }
      anchor := Anchor(slot.framePosition, slot.ptsUs, slot.serial);
      ok := true;
    }

    method Peek(offset: nat) returns (ok: bool, anchor: Anchor)
      requires Valid()
      ensures ok == (offset < |Contents()|)
      ensures ok ==> anchor == Contents()[offset]
    {
      ok, anchor := false, Anchor(0, 0, 0);
      if offset >= writePosition - readPosition {
        return;
      }
      ok, anchor := ReadSlot(readPosition + offset);
    }

    method PopFront() returns (ok: bool)
      requires Valid()
      modifies this`readPosition
      ensures Valid()
      ensures ok == (old(Contents()) != [])
      ensures Contents() == if ok then old(Contents())[1..] else []
    {
      if readPosition == writePosition {
        return false;
      }
      readPosition := readPosition + 1;
      ok := true;
    }

    method FindAnchorForFramePosition(frame: nat) returns (ok: bool, anchor: Anchor, ghost chosen: nat)
      requires Valid()
      ensures ok == (Contents() != [])
      ensures ok ==> Selects(Contents(), frame, chosen) && anchor == Contents()[chosen]
    {
      ok, anchor, chosen := false, Anchor(0, 0, 0), 0;
      if writePosition <= readPosition {
        return;
      }
      ok, anchor := ReadSlot(readPosition);
      var position := readPosition + 1;
      while position < writePosition
        invariant readPosition < position <= writePosition
        invariant ok && chosen == position - 1 - readPosition
        invariant anchor == Contents()[chosen]
        invariant forall k | 0 < k <= chosen :: Contents()[k].framePosition <= frame
      {
        var whole, next := ReadSlot(position);
        assert next == Contents()[position - readPosition];
        if next.framePosition > frame {
          break;
        }
        anchor, chosen := next, position - readPosition;
        position := position + 1;
      }
    }
  }
}
