/**
 buildSchedule of audio/midiaudio.cpp: MIDI ticks become sample frames through the tempo map. Elapsed time
 is kept exactly, as microseconds times the division.
 */
module MidiSchedule {

  import opened Arithmetic
  import opened Options

  datatype Kind = NoteOn | NoteOff | ProgramChange | ControlChange | PitchBend | Tempo(microsPerQuarter: nat)

  datatype RawEvent = RawEvent(tick: nat, order: nat, kind: Kind, channel: nat, data1: nat, data2: nat)

  datatype ScheduledEvent = ScheduledEvent(frame: nat, order: nat, kind: Kind, channel: nat, data1: nat, data2: nat)

  const DEFAULT_TEMPO := 500000
  const MIN_TEMPO := 1000
  const MAX_TEMPO := 10000000

  /** The parser numbers the events of all tracks in one count. */
  ghost predicate DistinctOrders(raw: seq<RawEvent>) {
    forall i, j | 0 <= i < j < |raw| :: raw[i].order != raw[j].order
  }

  predicate Before(a: RawEvent, b: RawEvent) {
    a.tick < b.tick || (a.tick == b.tick && a.order < b.order)
  }

  ghost predicate Ordered(s: seq<RawEvent>) {
    forall i, j | 0 <= i < j < |s| :: !Before(s[j], s[i])
  }

  // ----- sorting -----

  function Insert(e: RawEvent, s: seq<RawEvent>): seq<RawEvent> {
    if s == [] || !Before(s[0], e) then [e] + s else [s[0]] + Insert(e, s[1..])
  }

  function Sorted(raw: seq<RawEvent>): seq<RawEvent> {
    if raw == [] then [] else Insert(raw[0], Sorted(raw[1..]))
  }

  lemma {:induction false} InsertKeepsAll(e: RawEvent, s: seq<RawEvent>)
    ensures multiset(Insert(e, s)) == multiset(s) + multiset{e}
  {
    if s != [] && Before(s[0], e) {
      InsertKeepsAll(e, s[1..]);
      assert s == [s[0]] + s[1..];
    }
  }

  lemma {:induction false} InsertOrders(e: RawEvent, s: seq<RawEvent>)
    requires Ordered(s)
    ensures Ordered(Insert(e, s))
  {
    if s != [] && Before(s[0], e) {
      InsertOrders(e, s[1..]);
      InsertKeepsAll(e, s[1..]);
      var rest := Insert(e, s[1..]);
      assert s == [s[0]] + s[1..];
      forall j | 0 <= j < |rest| ensures !Before(rest[j], s[0]) {
        assert rest[j] in multiset(rest);
        if rest[j] != e {
          assert rest[j] in s[1..];
        }
      }
    }
  }

  lemma {:induction false} SortedOrders(raw: seq<RawEvent>)
    ensures Ordered(Sorted(raw)) && multiset(Sorted(raw)) == multiset(raw)
  {
    if raw != [] {
      SortedOrders(raw[1..]);
      InsertOrders(raw[0], Sorted(raw[1..]));
      InsertKeepsAll(raw[0], Sorted(raw[1..]));
      assert raw == [raw[0]] + raw[1..];
    }
  }

  // ----- the tempo map, whatever order the events are in -----

  function Clamp(tempo: nat): (r: nat)
    ensures MIN_TEMPO <= r <= MAX_TEMPO
  {
    if tempo < MIN_TEMPO then MIN_TEMPO else if tempo > MAX_TEMPO then MAX_TEMPO else tempo
  }

  /** A tempo of 0 says nothing. */
  predicate Governs(e: RawEvent, t: nat) {
    e.kind.Tempo? && e.kind.microsPerQuarter > 0 && e.tick <= t
  }

  function Later(best: Option<RawEvent>, e: RawEvent, t: nat): Option<RawEvent> {
    if Governs(e, t) && (best.None? || Before(best.value, e)) then Some(e) else best
  }

  /** The last tempo event at or before tick t. */
  function Latest(events: seq<RawEvent>, t: nat): Option<RawEvent> {
    if events == [] then None else Later(Latest(events[..|events| - 1], t), events[|events| - 1], t)
  }

  function TempoOf(best: Option<RawEvent>): (r: nat) {
    if best.Some? && best.value.kind.Tempo? then Clamp(best.value.kind.microsPerQuarter) else DEFAULT_TEMPO
  }

  function TempoAt(events: seq<RawEvent>, t: nat): nat {
    TempoOf(Latest(events, t))
  }

  /** The tempo map summed tick by tick: division times the microseconds before tick t. */
  function Integral(events: seq<RawEvent>, t: nat): nat {
    if t == 0 then 0 else Integral(events, t - 1) + TempoAt(events, t - 1)
  }

  /** llround of micros * rate / 1000000 with micros = scaled / division. */
  function ToFrames(scaled: nat, division: nat, rate: nat): nat
    requires division > 0
  {
    Quotient(2 * (scaled * rate) + division * 1000000, 2 * (division * 1000000))
  }

  function FrameAt(events: seq<RawEvent>, t: nat, division: nat, rate: nat): nat
    requires division > 0
  {
    ToFrames(Integral(events, t), division, rate)
  }

  /** Half a frame is all that rounding costs. */
  lemma FramesAreNearest(scaled: nat, division: nat, rate: nat)
    requires division > 0
    ensures var unit := 2 * (division * 1000000);
            2 * (scaled * rate) - division * 1000000 < unit * ToFrames(scaled, division, rate)
              <= 2 * (scaled * rate) + division * 1000000
  {
    hide Quotient;
  }

  lemma ToFramesMonotone(a: nat, b: nat, division: nat, rate: nat)
    requires a <= b && division > 0
    ensures ToFrames(a, division, rate) <= ToFrames(b, division, rate)
  {
    hide Quotient;
    assert b * rate == a * rate + (b - a) * rate;
    QuotientMonotone(2 * (a * rate) + division * 1000000, 2 * (b * rate) + division * 1000000, 2 * (division * 1000000),
                     ToFrames(a, division, rate), ToFrames(b, division, rate));
  }

  lemma {:induction false} IntegralMonotone(events: seq<RawEvent>, a: nat, b: nat)
    requires a <= b
    ensures Integral(events, a) <= Integral(events, b)
    decreases b
  {
    if a < b {
      IntegralMonotone(events, a, b - 1);
    }
  }

  lemma {:induction false} IntegralOfConstant(events: seq<RawEvent>, a: nat, b: nat, tempo: nat)
    requires a <= b && forall t | a <= t < b :: TempoAt(events, t) == tempo
    ensures Integral(events, b) == Integral(events, a) + (b - a) * tempo
    decreases b
  {
    if a < b {
      IntegralOfConstant(events, a, b - 1, tempo);
      OneMore(b - 1 - a, tempo);
    }
  }

  // ----- the last tempo event does not depend on the order of the list -----

  /** Latest is the greatest of the governing events. */
  lemma {:induction false} LatestIsGreatest(events: seq<RawEvent>, t: nat)
    ensures var best := Latest(events, t);
            && (best.Some? ==> best.value in events && Governs(best.value, t))
            && (forall k | 0 <= k < |events| && Governs(events[k], t) :: best.Some? && !Before(best.value, events[k]))
    decreases |events|
  {
    if events != [] {
      var front := events[..|events| - 1];
      LatestIsGreatest(front, t);
      forall k | 0 <= k < |events| && Governs(events[k], t)
        ensures Latest(events, t).Some? && !Before(Latest(events, t).value, events[k])
      {
        if k < |front| {
          assert front[k] == events[k];
        }
      }
    }
  }

  /** No tempo event at or before tick t says anything. */
  ghost predicate Untold(events: seq<RawEvent>, t: nat) {
    forall k | 0 <= k < |events| ::
      !(events[k].kind.Tempo? && events[k].kind.microsPerQuarter > 0 && events[k].tick <= t)
  }

  /** Event k is a last one that says something at or before tick t. */
  ghost predicate LastTold(events: seq<RawEvent>, k: nat, t: nat)
    requires k < |events|
  {
    && events[k].kind.Tempo? && events[k].kind.microsPerQuarter > 0 && events[k].tick <= t
    && forall j | 0 <= j < |events| && events[j].kind.Tempo? && events[j].kind.microsPerQuarter > 0 &&
       events[j].tick <= t ::
         events[j].tick < events[k].tick || (events[j].tick == events[k].tick && events[j].order <= events[k].order)
  }

  /** The tempo is half a second a quarter until told; what is told holds as it is between 1 ms and 10 s. */
  lemma TempoInForce(events: seq<RawEvent>, t: nat)
    ensures Untold(events, t) ==> TempoAt(events, t) == 500000
    ensures !Untold(events, t) ==>
              exists k | 0 <= k < |events| ::
                && LastTold(events, k, t)
                && var said := events[k].kind.microsPerQuarter;
                   && 1000 <= TempoAt(events, t) <= 10000000
                   && (1000 <= said <= 10000000 ==> TempoAt(events, t) == said)
                   && (said < 1000 ==> TempoAt(events, t) == 1000)
                   && (said > 10000000 ==> TempoAt(events, t) == 10000000)
  {
    LatestIsGreatest(events, t);
    var best := Latest(events, t);
    if best.Some? {
      var k :| 0 <= k < |events| && events[k] == best.value;
      assert LastTold(events, k, t);
    }
  }

  lemma MultisetSame(a: seq<RawEvent>, b: seq<RawEvent>, e: RawEvent)
    requires multiset(a) == multiset(b) && e in a
    ensures e in b
  {
    assert e in multiset(b);
  }

  lemma LatestOfPermutation(a: seq<RawEvent>, b: seq<RawEvent>, t: nat)
    requires multiset(a) == multiset(b) && DistinctOrders(a)
    ensures Latest(a, t) == Latest(b, t)
  {
    LatestIsGreatest(a, t);
    LatestIsGreatest(b, t);
    var x, y := Latest(a, t), Latest(b, t);
    if x.Some? {
      MultisetSame(a, b, x.value);
      assert y.Some?;
    }
    if y.Some? {
      MultisetSame(b, a, y.value);
      assert x.Some?;
    }
  }

  lemma {:induction false} IntegralOfPermutation(a: seq<RawEvent>, b: seq<RawEvent>, t: nat)
    requires multiset(a) == multiset(b) && DistinctOrders(a)
    ensures Integral(a, t) == Integral(b, t)
    decreases t
  {
    if t > 0 {
      LatestOfPermutation(a, b, t - 1);
      IntegralOfPermutation(a, b, t - 1);
    }
  }

  // ----- the tempo in force while walking the sorted events -----

  lemma {:induction false} InsertKeepsDistinct(e: RawEvent, s: seq<RawEvent>)
    requires DistinctOrders(s) && forall k | 0 <= k < |s| :: s[k].order != e.order
    ensures DistinctOrders(Insert(e, s))
    ensures forall x | x in Insert(e, s) :: x == e || x in s
  {
    if s != [] && Before(s[0], e) {
      InsertKeepsDistinct(e, s[1..]);
      var rest := Insert(e, s[1..]);
      forall j | 0 <= j < |rest| ensures rest[j].order != s[0].order {
        assert rest[j] in rest;
      }
    }
  }

  lemma {:induction false} SortedKeepsDistinct(raw: seq<RawEvent>)
    requires DistinctOrders(raw)
    ensures DistinctOrders(Sorted(raw))
    ensures forall x | x in Sorted(raw) :: x in raw
  {
    if raw != [] {
      SortedKeepsDistinct(raw[1..]);
      var rest := Sorted(raw[1..]);
      forall k | 0 <= k < |rest| ensures rest[k].order != raw[0].order {
        assert rest[k] in raw[1..];
      }
      InsertKeepsDistinct(raw[0], rest);
    }
  }

  lemma {:induction false} LatestOfPrefix(s: seq<RawEvent>, i: nat, t: nat)
    requires i <= |s| && forall j | i <= j < |s| :: s[j].tick > t
    ensures Latest(s, t) == Latest(s[..i], t)
    decreases |s|
  {
    if i == |s| {
      assert s[..i] == s;
    } else {
      var front := s[..|s| - 1];
      LatestOfPrefix(front, i, t);
      assert front[..i] == s[..i];
    }
  }

  lemma {:induction false} LatestOnceAll(s: seq<RawEvent>, t: nat, u: nat)
    requires t <= u && forall j | 0 <= j < |s| :: s[j].tick <= t
    ensures Latest(s, t) == Latest(s, u)
    decreases |s|
  {
    if s != [] {
      LatestOnceAll(s[..|s| - 1], t, u);
    }
  }

  function TickBefore(s: seq<RawEvent>, i: nat): nat
    requires i <= |s|
  {
    if i == 0 then 0 else s[i - 1].tick
  }

  /** What the loop knows before event i. */
  ghost predicate Walked(s: seq<RawEvent>, i: nat, elapsed: nat, tempo: nat)
    requires i <= |s|
  {
    elapsed == Integral(s, TickBefore(s, i)) && tempo == TempoAt(s[..i], TickBefore(s, i))
  }

  /** From there the tempo holds up to any tick that no later event precedes. */
  lemma WalkTo(s: seq<RawEvent>, i: nat, elapsed: nat, tempo: nat, tick: nat)
    requires i <= |s| && Ordered(s) && Walked(s, i, elapsed, tempo)
    requires tick >= TickBefore(s, i) && forall j | i <= j < |s| :: s[j].tick >= tick
    ensures Integral(s, tick) == elapsed + (tick - TickBefore(s, i)) * tempo
  {
    var now := TickBefore(s, i);
    forall t | now <= t < tick ensures TempoAt(s, t) == tempo {
      LatestOfPrefix(s, i, t);
      forall j | 0 <= j < i ensures s[j].tick <= now {
        assert j < i - 1 ==> !Before(s[i - 1], s[j]);
      }
      LatestOnceAll(s[..i], now, t);
    }
    IntegralOfConstant(s, now, tick, tempo);
  }

  function TempoAfter(tempo: nat, e: RawEvent): nat {
    if e.kind.Tempo? && e.kind.microsPerQuarter > 0 then Clamp(e.kind.microsPerQuarter) else tempo
  }

  lemma WalkOn(s: seq<RawEvent>, i: nat, elapsed: nat, tempo: nat)
    requires i < |s| && Ordered(s) && DistinctOrders(s) && Walked(s, i, elapsed, tempo)
    ensures s[i].tick >= TickBefore(s, i)
    ensures Walked(s, i + 1, elapsed + (s[i].tick - TickBefore(s, i)) * tempo, TempoAfter(tempo, s[i]))
  {
    var now, e := TickBefore(s, i), s[i];
    assert i > 0 ==> !Before(s[i], s[i - 1]);
    forall j | i <= j < |s| ensures s[j].tick >= e.tick {
      assert j > i ==> !Before(s[j], s[i]);
    }
    WalkTo(s, i, elapsed, tempo, e.tick);
    forall j | 0 <= j < i ensures s[j].tick <= now {
      assert j < i - 1 ==> !Before(s[i - 1], s[j]);
    }
    LatestOnceAll(s[..i], now, e.tick);
    LatestIsGreatest(s[..i], e.tick);
    assert s[..i + 1][..i] == s[..i];
    var best := Latest(s[..i], e.tick);
    if best.Some? {
      var k :| 0 <= k < i && s[..i][k] == best.value;
      assert !Before(s[i], s[k]) && s[k].order != s[i].order;
    }
  }

  // ----- the schedule -----

  function NonTempo(s: seq<RawEvent>): seq<RawEvent> {
    if s == [] then []
    else if s[|s| - 1].kind.Tempo? then NonTempo(s[..|s| - 1])
    else NonTempo(s[..|s| - 1]) + [s[|s| - 1]]
  }

  function ScheduledAt(e: RawEvent, frame: nat): ScheduledEvent {
    ScheduledEvent(frame, e.order, e.kind, e.channel, e.data1, e.data2)
  }

  /** The kept events, each at the frame the tempo map of all events `raw` gives its tick. */
  function Placed(raw: seq<RawEvent>, kept: seq<RawEvent>, division: nat, rate: nat): (r: seq<ScheduledEvent>)
    requires division > 0
    ensures |r| == |kept|
  {
    seq(|kept|, k requires 0 <= k < |kept| => ScheduledAt(kept[k], FrameAt(raw, kept[k].tick, division, rate)))
  }

  function Schedule(raw: seq<RawEvent>, division: nat, rate: nat): seq<ScheduledEvent>
    requires division > 0
  {
    Placed(raw, NonTempo(Sorted(raw)), division, rate)
  }

  predicate IsNote(kind: Kind) {
    kind.NoteOn? || kind.NoteOff?
  }

  predicate HasNotes(events: seq<ScheduledEvent>) {
    exists k | 0 <= k < |events| :: IsNote(events[k].kind)
  }

  function LastNoteFrame(events: seq<ScheduledEvent>): nat {
    if events == [] then 0
    else
      var front := LastNoteFrame(events[..|events| - 1]);
      var last := events[|events| - 1];
      if IsNote(last.kind) then Max(front, last.frame) else front
  }

  /** llround(0.90f * rate), with 0.90f the nearest single-precision number. */
  function TailFrames(rate: nat): nat {
    Quotient(2 * (15099494 * rate) + 16777216, 2 * 16777216)
  }

  function TotalFrames(raw: seq<RawEvent>, division: nat, rate: nat, maxTick: nat): nat
    requires division > 0
  {
    var sorted := Sorted(raw);
    var end := FrameAt(raw, Max(maxTick, TickBefore(sorted, |sorted|)), division, rate);
    var events := Schedule(raw, division, rate);
    if HasNotes(events) then Max(end, LastNoteFrame(events) + TailFrames(rate)) else end
  }

  lemma {:induction false} NoteBeforeLast(events: seq<ScheduledEvent>, k: nat)
    requires k < |events| && IsNote(events[k].kind)
    ensures events[k].frame <= LastNoteFrame(events)
    decreases |events|
  {
    if k < |events| - 1 {
      NoteBeforeLast(events[..|events| - 1], k);
    }
  }

  /** The tail is 0.9 seconds, to half a frame and the precision of the single-precision constant. */
  lemma TailIsNineTenths(rate: nat)
    ensures var off := 10 * TailFrames(rate) - 9 * rate;
            -(5 * 16777216 + 4 * rate) <= 16777216 * off <= 5 * 16777216 + 4 * rate
    ensures var twice := 2 * 16777216 * TailFrames(rate);
            twice <= 2 * 15099494 * rate + 16777216 < twice + 2 * 16777216
  {
    hide Quotient;
  }

  lemma {:induction false} LastNoteIsNote(events: seq<ScheduledEvent>)
    requires HasNotes(events)
    ensures exists k | 0 <= k < |events| :: IsNote(events[k].kind) && events[k].frame == LastNoteFrame(events)
    decreases |events|
  {
    var front, last := events[..|events| - 1], events[|events| - 1];
    if HasNotes(front) {
      LastNoteIsNote(front);
      var k :| 0 <= k < |front| && IsNote(front[k].kind) && front[k].frame == LastNoteFrame(front);
      assert events[k] == front[k];
    } else {
      NoNoteNoFrame(front);
    }
    assert IsNote(last.kind) ==> events[|events| - 1] == last;
  }

  lemma {:induction false} NoNoteNoFrame(events: seq<ScheduledEvent>)
    requires !HasNotes(events)
    ensures LastNoteFrame(events) == 0
    decreases |events|
  {
    if events != [] {
      var front := events[..|events| - 1];
      assert forall k | 0 <= k < |front| :: front[k] == events[k];
      NoNoteNoFrame(front);
    }
  }

  /**
   The piece ends where its last tick does, or the tail after its last note on or note off, whichever is later.
   In particular every note event lies before the end.
   */
  lemma NotesLieInside(raw: seq<RawEvent>, division: nat, rate: nat, maxTick: nat)
    requires division > 0
    ensures var events, total := Schedule(raw, division, rate), TotalFrames(raw, division, rate, maxTick);
            && (forall k | 0 <= k < |events| && (events[k].kind.NoteOn? || events[k].kind.NoteOff?) ::
                  events[k].frame + TailFrames(rate) <= total && (rate > 0 ==> events[k].frame < total))
            && (total == FrameAt(raw, LastTick(raw, maxTick), division, rate)
                || exists k | 0 <= k < |events| ::
                     (events[k].kind.NoteOn? || events[k].kind.NoteOff?) && total == events[k].frame + TailFrames(rate))
            && FrameAt(raw, LastTick(raw, maxTick), division, rate) <= total
  {
    hide Schedule, FrameAt, Sorted;
    var events := Schedule(raw, division, rate);
    LastTickIsLast(raw, maxTick);
    forall k | 0 <= k < |events| && (events[k].kind.NoteOn? || events[k].kind.NoteOff?)
      ensures events[k].frame <= LastNoteFrame(events)
    {
      NoteBeforeLast(events, k);
    }
    if HasNotes(events) {
      LastNoteIsNote(events);
    }
    TailIsNineTenths(rate);
  }

  /** The last tick of all events and the end of the file. */
  function LastTick(raw: seq<RawEvent>, maxTick: nat): nat {
    if raw == [] then maxTick else Max(raw[0].tick, LastTick(raw[1..], maxTick))
  }

  lemma {:induction false} LastTickBounds(raw: seq<RawEvent>, maxTick: nat)
    ensures maxTick <= LastTick(raw, maxTick) && forall e | e in raw :: e.tick <= LastTick(raw, maxTick)
    ensures LastTick(raw, maxTick) == maxTick || exists e | e in raw :: e.tick == LastTick(raw, maxTick)
  {
    if raw != [] {
      LastTickBounds(raw[1..], maxTick);
      assert raw == [raw[0]] + raw[1..];
      if LastTick(raw, maxTick) != maxTick && raw[0].tick != LastTick(raw, maxTick) {
        var e :| e in raw[1..] && e.tick == LastTick(raw[1..], maxTick);
        assert e in raw;
      } else {
        assert raw[0] in raw;
      }
    }
  }

  lemma LastTickIsLast(raw: seq<RawEvent>, maxTick: nat)
    ensures var sorted := Sorted(raw);
            Max(maxTick, TickBefore(sorted, |sorted|)) == LastTick(raw, maxTick)
  {
    var sorted := Sorted(raw);
    SortedOrders(raw);
    LastTickBounds(raw, maxTick);
    if sorted != [] {
      var last := sorted[|sorted| - 1];
      assert last in multiset(sorted);
      forall e | e in raw ensures e.tick <= last.tick {
        assert e in multiset(raw);
        var k :| 0 <= k < |sorted| && sorted[k] == e;
        assert k < |sorted| - 1 ==> !Before(last, sorted[k]);
      }
    } else {
      assert forall e | e in raw :: e in multiset(raw);
    }
  }

  lemma {:induction false} KeptAreSubsequence(s: seq<RawEvent>)
    requires Ordered(s)
    ensures Ordered(NonTempo(s)) && (forall x | x in NonTempo(s) :: x in s && !x.kind.Tempo?)
    decreases |s|
  {
    if s != [] {
      var front := s[..|s| - 1];
      KeptAreSubsequence(front);
      var kept := NonTempo(front);
      forall k | 0 <= k < |kept| ensures !Before(s[|s| - 1], kept[k]) {
        assert kept[k] in front;
      }
    }
  }

  lemma {:induction false} KeptCount(s: seq<RawEvent>, e: RawEvent)
    ensures multiset(NonTempo(s))[e] == if e.kind.Tempo? then 0 else multiset(s)[e]
    decreases |s|
  {
    if s != [] {
      KeptCount(s[..|s| - 1], e);
      assert s == s[..|s| - 1] + [s[|s| - 1]];
    }
  }

  /** Later ticks never fall on earlier frames. */
  lemma FramesNeverGoBack(raw: seq<RawEvent>, a: nat, b: nat, division: nat, rate: nat)
    requires division > 0 && a <= b
    ensures FrameAt(raw, a, division, rate) <= FrameAt(raw, b, division, rate)
  {
    IntegralMonotone(raw, a, b);
    ToFramesMonotone(Integral(raw, a), Integral(raw, b), division, rate);
  }

  lemma KeptOfSorted(raw: seq<RawEvent>)
    ensures multiset(NonTempo(Sorted(raw))) == multiset(NonTempo(raw)) && Ordered(NonTempo(Sorted(raw)))
  {
    SortedOrders(raw);
    KeptAreSubsequence(Sorted(raw));
    forall e ensures multiset(NonTempo(Sorted(raw)))[e] == multiset(NonTempo(raw))[e] {
      KeptCount(Sorted(raw), e);
      KeptCount(raw, e);
    }
  }

  /**
   The schedule holds every event but the tempo changes exactly once, in (tick, order) order, and its
   frames never go back.
   */
  lemma ScheduleIsOrdered(raw: seq<RawEvent>, division: nat, rate: nat)
    requires division > 0
    ensures var kept := NonTempo(Sorted(raw));
            && multiset(kept) == multiset(NonTempo(raw)) && Ordered(kept)
            && Schedule(raw, division, rate) == Placed(raw, kept, division, rate)
            && |Schedule(raw, division, rate)| == |kept|
            && forall k | 0 <= k < |kept| ::
                 Schedule(raw, division, rate)[k] == ScheduledEvent(FrameAt(raw, kept[k].tick, division, rate),
                   kept[k].order, kept[k].kind, kept[k].channel, kept[k].data1, kept[k].data2)
    ensures forall i, j | 0 <= i < j < |Schedule(raw, division, rate)| ::
              Schedule(raw, division, rate)[i].frame <= Schedule(raw, division, rate)[j].frame
  {
    hide NonTempo, Sorted, FrameAt;
    var kept := NonTempo(Sorted(raw));
    KeptOfSorted(raw);
    forall i, j | 0 <= i < j < |kept|
      ensures FrameAt(raw, kept[i].tick, division, rate) <= FrameAt(raw, kept[j].tick, division, rate)
    {
      assert !Before(kept[j], kept[i]);
      FramesNeverGoBack(raw, kept[i].tick, kept[j].tick, division, rate);
    }
  }

  lemma KeptAppend(s: seq<RawEvent>, i: nat)
    requires i < |s|
    ensures NonTempo(s[..i + 1]) == if s[i].kind.Tempo? then NonTempo(s[..i]) else NonTempo(s[..i]) + [s[i]]
  {
    assert s[..i + 1][..i] == s[..i];
  }

  lemma WalkStarts(raw: seq<RawEvent>, s: seq<RawEvent>, division: nat, rate: nat)
    requires division > 0
    ensures !HasNotes([]) && LastNoteFrame([]) == 0
    ensures Walked(s, 0, 0, DEFAULT_TEMPO) && Placed(raw, NonTempo(s[..0]), division, rate) == []
  {
  }

  lemma IntegralIsOfRaw(raw: seq<RawEvent>, t: nat)
    requires DistinctOrders(raw)
    ensures Integral(Sorted(raw), t) == Integral(raw, t)
  {
    SortedOrders(raw);
    IntegralOfPermutation(raw, Sorted(raw), t);
  }

  lemma NotesAppend(events: seq<ScheduledEvent>, e: ScheduledEvent)
    ensures HasNotes(events + [e]) == (HasNotes(events) || IsNote(e.kind))
    ensures LastNoteFrame(events + [e]) == if IsNote(e.kind) then Max(LastNoteFrame(events), e.frame)
                                           else LastNoteFrame(events)
  {
    assert (events + [e])[..|events|] == events;
    assert (events + [e])[|events|] == e;
    if HasNotes(events) {
      var k :| 0 <= k < |events| && IsNote(events[k].kind);
      assert (events + [e])[k] == events[k];
    }
  }

  /** The single pass over the sorted events computes the tempo integral of the unsorted list. */
  method BuildSchedule(raw: seq<RawEvent>, division: nat, rate: nat, maxTick: nat)
    returns (ok: bool, events: seq<ScheduledEvent>, total: nat)
    requires DistinctOrders(raw)
    ensures ok == (division > 0 && rate > 0)
    ensures ok ==> events == Schedule(raw, division, rate) && total == TotalFrames(raw, division, rate, maxTick)
  {
    hide NonTempo, Quotient, Integral, Sorted, TempoAt, HasNotes, LastNoteFrame;
    events, total := [], 0;
    if division == 0 || rate == 0 {
      return false, [], 0;
    }
    var sorted := Sorted(raw);
    SortedOrders(raw);
    SortedKeepsDistinct(raw);
    var tempo: nat, currentTick: nat, elapsed: nat := DEFAULT_TEMPO, 0, 0;
    var hasNotes, lastNoteFrame: nat := false, 0;
    WalkStarts(raw, sorted, division, rate);
    for i := 0 to |sorted|
      invariant currentTick == TickBefore(sorted, i)
      invariant Walked(sorted, i, elapsed, tempo)
      invariant events == Placed(raw, NonTempo(sorted[..i]), division, rate)
      invariant hasNotes == HasNotes(events) && lastNoteFrame == LastNoteFrame(events)
    {
      var e := sorted[i];
      WalkOn(sorted, i, elapsed, tempo);
      if e.tick > currentTick {
        elapsed := elapsed + (e.tick - currentTick) * tempo;
        currentTick := e.tick;
      }
      IntegralIsOfRaw(raw, e.tick);
      var frame := ToFrames(elapsed, division, rate);
      KeptAppend(sorted, i);
      if e.kind.Tempo? {
        if e.kind.microsPerQuarter > 0 {
          tempo := Clamp(e.kind.microsPerQuarter);
        }
        continue;
      }
      NotesAppend(events, ScheduledAt(e, frame));
      events := events + [ScheduledAt(e, frame)];
      if IsNote(e.kind) {
        hasNotes := true;
        lastNoteFrame := Max(lastNoteFrame, frame);
      }
    }
    assert sorted[..|sorted|] == sorted;
    if maxTick > currentTick {
      WalkTo(sorted, |sorted|, elapsed, tempo, maxTick);
      elapsed := elapsed + (maxTick - currentTick) * tempo;
    }
    IntegralIsOfRaw(raw, Max(maxTick, currentTick));
    total := ToFrames(elapsed, division, rate);
    if hasNotes {
      total := Max(total, lastNoteFrame + TailFrames(rate));
    }
    ok := true;
  }
}
