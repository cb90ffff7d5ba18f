/**
 The playing half of audio/midiaudio.cpp: channel controllers, the voice table, reading frames and seeking.
 Envelopes are kept over the reals, because they decide which voice is reused; oscillators and the mixed
 samples are left out.
 */
module MidiPlayback {

  import opened Arithmetic
  import opened MidiSchedule

  const MAX_VOICES: nat := 96
  const CHANNELS: nat := 16

  datatype Channel = Channel(program: nat, volume: nat, expression: nat, pan: nat, pitchBend: nat, sustain: bool)

  const FRESH_CHANNEL := Channel(0, 100, 127, 64, 8192, false)

  datatype Voice = Voice(
    active: bool,
    channel: nat,
    note: nat,
    velocity: nat,
    keyHeld: bool,
    released: bool,
    sustained: bool,
    level: real,
    sustainLevel: real,
    attackRate: real,
    decayRate: real,
    releaseRate: real)

  const SILENT_VOICE := Voice(false, 0, 0, 0, false, false, false, 0.0, 0.0, 0.0, 0.0, 0.0)

  datatype State = State(position: nat, next: nat, channels: seq<Channel>, voices: seq<Voice>)

  predicate Shaped(s: State) {
    |s.channels| == CHANNELS && |s.voices| == MAX_VOICES
  }

  function Reset(): (s: State)
    ensures Shaped(s)
  {
    State(0, 0, seq(CHANNELS, _ => FRESH_CHANNEL), seq(MAX_VOICES, _ => SILENT_VOICE))
  }

  // ----- voices -----

  predicate Sounds(v: Voice, channel: nat) {
    v.active && v.channel == channel
  }

  predicate HeldFor(v: Voice, channel: nat, note: nat) {
    v.active && v.channel == channel && v.note == note && v.keyHeld
  }

  function Release(v: Voice): Voice {
    if v.active then v.(released := true, sustained := false, keyHeld := false) else v
  }

  function KeyUp(v: Voice, sustain: bool): Voice {
    if sustain then v.(keyHeld := false, sustained := true) else Release(v.(keyHeld := false))
  }

  /** Before a note starts again, its key is taken off the voices that held it. */
  function ReleaseHeld(vs: seq<Voice>, channel: nat, note: nat): (r: seq<Voice>)
    ensures |r| == |vs|
  {
    seq(|vs|, i requires 0 <= i < |vs| => if HeldFor(vs[i], channel, note) then Release(vs[i]) else vs[i])
  }

  function KeysUp(vs: seq<Voice>, channel: nat, note: nat, sustain: bool): (r: seq<Voice>)
    ensures |r| == |vs|
  {
    seq(|vs|, i requires 0 <= i < |vs| => if HeldFor(vs[i], channel, note) then KeyUp(vs[i], sustain) else vs[i])
  }

  function ReleaseSustained(vs: seq<Voice>, channel: nat): (r: seq<Voice>)
    ensures |r| == |vs|
  {
    seq(|vs|, i requires 0 <= i < |vs| => if Sounds(vs[i], channel) && vs[i].sustained then Release(vs[i]) else vs[i])
  }

  function ReleaseAll(vs: seq<Voice>, channel: nat): (r: seq<Voice>)
    ensures |r| == |vs|
  {
    seq(|vs|, i requires 0 <= i < |vs| => if Sounds(vs[i], channel) then Release(vs[i]) else vs[i])
  }

  /** A releasing voice counts half. */
  function Score(v: Voice): real {
    if v.released then v.level * 0.5 else v.level
  }

  const FLOAT_MAX := 340282346638528859811704183484516925440.0

  function FirstIdle(vs: seq<Voice>, i: nat): (r: nat)
    requires i <= |vs|
    ensures i <= r <= |vs|
    decreases |vs| - i
  {
    if i == |vs| || !vs[i].active then i else FirstIdle(vs, i + 1)
  }

  function Quietest(vs: seq<Voice>, i: nat, best: nat, bestScore: real): nat
    requires i <= |vs|
    decreases |vs| - i
  {
    if i == |vs| then best
    else if Score(vs[i]) < bestScore then Quietest(vs, i + 1, i, Score(vs[i]))
    else Quietest(vs, i + 1, best, bestScore)
  }

  function FindVoiceSlot(vs: seq<Voice>): nat {
    if FirstIdle(vs, 0) < |vs| then FirstIdle(vs, 0) else Quietest(vs, 0, 0, FLOAT_MAX)
  }

  lemma {:induction false} FirstIdleIsFirst(vs: seq<Voice>, i: nat)
    requires i <= |vs|
    ensures var r := FirstIdle(vs, i);
            (r < |vs| ==> !vs[r].active) && forall k | i <= k < r :: vs[k].active
    decreases |vs| - i
  {
    if i < |vs| && vs[i].active {
      FirstIdleIsFirst(vs, i + 1);
    }
  }

  lemma {:induction false} QuietestIsLeast(vs: seq<Voice>, i: nat, best: nat, bestScore: real)
    requires i <= |vs| && best < |vs| && (i > 0 ==> bestScore == Score(vs[best]))
    requires forall k | 0 <= k < i :: bestScore <= Score(vs[k]) && (k < best ==> bestScore < Score(vs[k]))
    requires i == 0 ==> best == 0 && bestScore == FLOAT_MAX && Score(vs[0]) < FLOAT_MAX
    requires i > 0 ==> best < i
    ensures var r := Quietest(vs, i, best, bestScore);
            && r < |vs|
            && forall k | 0 <= k < |vs| :: Score(vs[r]) <= Score(vs[k]) && (k < r ==> Score(vs[r]) < Score(vs[k]))
    decreases |vs| - i
  {
    if i < |vs| {
      if Score(vs[i]) < bestScore {
        QuietestIsLeast(vs, i + 1, i, Score(vs[i]));
      } else {
        QuietestIsLeast(vs, i + 1, best, bestScore);
      }
    }
  }

  lemma {:induction false} QuietestInRange(vs: seq<Voice>, i: nat, best: nat, bestScore: real)
    requires i <= |vs| && best < |vs|
    ensures Quietest(vs, i, best, bestScore) < |vs|
    decreases |vs| - i
  {
    if i < |vs| {
      if Score(vs[i]) < bestScore {
        QuietestInRange(vs, i + 1, i, Score(vs[i]));
      } else {
        QuietestInRange(vs, i + 1, best, bestScore);
      }
    }
  }

  lemma SlotInRange(vs: seq<Voice>)
    requires vs != []
    ensures FindVoiceSlot(vs) < |vs|
  {
    QuietestInRange(vs, 0, 0, FLOAT_MAX);
  }

  function AtLeastOne(x: real): (r: real)
    ensures r >= 1.0
  {
    if x > 1.0 then x else 1.0
  }

  /** Channel 9 is percussion. */
  function NewVoice(channel: nat, note: nat, velocity: nat, rate: nat): Voice {
    var drums := channel == 9;
    var sustainLevel := if drums then 0.30 else 0.72;
    Voice(true, channel, note, velocity, true, false, false, 0.0, sustainLevel,
          1.0 / AtLeastOne((if drums then 0.001 else 0.004) * rate as real),
          (1.0 - sustainLevel) / AtLeastOne((if drums then 0.060 else 0.090) * rate as real),
          1.0 / AtLeastOne((if drums then 0.080 else 0.130) * rate as real))
  }

  function StartNote(vs: seq<Voice>, channel: nat, note: nat, velocity: nat, rate: nat): (r: seq<Voice>)
    requires vs != []
    ensures |r| == |vs|
  {
    var freed := ReleaseHeld(vs, channel, note);
    SlotInRange(freed);
    freed[FindVoiceSlot(freed) := NewVoice(channel, note, velocity, rate)]
  }

  // ----- events -----

  /** (msb << 7) | lsb: a ninth bit of lsb overlaps the lowest bit of msb. */
  function Bend(lsb: nat, msb: nat): nat {
    msb * 128 + if lsb >= 128 && msb % 2 == 1 then lsb - 128 else lsb
  }

  function WithChannel(s: State, channel: nat, c: Channel): (r: State)
    requires Shaped(s) && channel < CHANNELS
    ensures Shaped(r)
  {
    s.(channels := s.channels[channel := c])
  }

  function ChangeControl(s: State, channel: nat, controller: nat, value: nat): (r: State)
    requires Shaped(s) && channel < CHANNELS
    ensures Shaped(r)
  {
    var c := s.channels[channel];
    match controller
    case 7 => WithChannel(s, channel, c.(volume := value))
    case 10 => WithChannel(s, channel, c.(pan := value))
    case 11 => WithChannel(s, channel, c.(expression := value))
    case 64 =>
      var freed := if c.sustain && value < 64 then s.(voices := ReleaseSustained(s.voices, channel)) else s;
      WithChannel(freed, channel, c.(sustain := value >= 64))
    case 120 => s.(voices := ReleaseAll(s.voices, channel))
    case 123 => s.(voices := ReleaseAll(s.voices, channel))
    case 121 => WithChannel(s, channel, FRESH_CHANNEL.(program := c.program))
    case _ => s
  }

  function EndNote(s: State, channel: nat, note: nat): (r: State)
    requires Shaped(s) && channel < CHANNELS
    ensures Shaped(r)
  {
    s.(voices := KeysUp(s.voices, channel, note, s.channels[channel].sustain))
  }

  /** Velocity 0 is a note off; an event for a channel that is not there is ignored. */
  function Apply(s: State, e: ScheduledEvent, rate: nat): (r: State)
    requires Shaped(s)
    ensures Shaped(r)
  {
    if e.channel >= CHANNELS then s
    else
      match e.kind
      case NoteOn =>
        if e.data2 == 0 then EndNote(s, e.channel, e.data1)
        else s.(voices := StartNote(s.voices, e.channel, e.data1, e.data2, rate))
      case NoteOff => EndNote(s, e.channel, e.data1)
      case ProgramChange => WithChannel(s, e.channel, s.channels[e.channel].(program := e.data1))
      case ControlChange => ChangeControl(s, e.channel, e.data1, e.data2)
      case PitchBend => WithChannel(s, e.channel, s.channels[e.channel].(pitchBend := Bend(e.data1, e.data2)))
      case Tempo(_) => s
  }

  // ----- frames -----

  function Envelope(v: Voice): Voice {
    if !v.active then v
    else if v.released then
      var level := if v.level - v.releaseRate > 0.0 then v.level - v.releaseRate else 0.0;
      if level <= 0.00001 then v.(active := false, level := 0.0) else v.(level := level)
    else
      var attacked := if v.level < 1.0
                      then (if v.level + v.attackRate < 1.0 then v.level + v.attackRate else 1.0)
                      else v.level;
      var decayed := if attacked > v.sustainLevel
                     then (if attacked - v.decayRate > v.sustainLevel then attacked - v.decayRate else v.sustainLevel)
                     else attacked;
      v.(level := decayed)
  }

  function Enveloped(vs: seq<Voice>): (r: seq<Voice>)
    ensures |r| == |vs|
  {
    seq(|vs|, i requires 0 <= i < |vs| => Envelope(vs[i]))
  }

  /** Applies events while they are due by `limit`. */
  function Due(s: State, events: seq<ScheduledEvent>, limit: int, rate: nat): (r: State)
    requires Shaped(s)
    ensures Shaped(r) && r.position == s.position && r.next >= s.next
    decreases |events| - s.next
  {
    if s.next < |events| && events[s.next].frame <= limit
    then Due(Apply(s, events[s.next], rate).(position := s.position, next := s.next + 1), events, limit, rate)
    else s
  }

  function PlayFrame(s: State, events: seq<ScheduledEvent>, rate: nat): (r: State)
    requires Shaped(s)
    ensures Shaped(r) && r.position == s.position + 1 && r.next >= s.next
  {
    var t := Due(s, events, s.position, rate);
    t.(position := s.position + 1, voices := Enveloped(t.voices))
  }

  function PlayFrames(s: State, events: seq<ScheduledEvent>, rate: nat, n: nat): (r: State)
    requires Shaped(s)
    ensures Shaped(r) && r.position == s.position + n && r.next >= s.next
    decreases n
  {
    if n == 0 then s else PlayFrames(PlayFrame(s, events, rate), events, rate, n - 1)
  }

  /** readFrames: the new state and how many frames were rendered; the rest of the buffer is silence. */
  function Read(s: State, events: seq<ScheduledEvent>, rate: nat, total: nat, frames: nat): (r: (State, nat))
    requires Shaped(s)
    ensures Shaped(r.0)
  {
    if s.position >= total then (s, 0)
    else
      var n := Min(total - s.position, frames);
      (PlayFrames(s, events, rate, n), n)
  }

  function Seek(events: seq<ScheduledEvent>, rate: nat, total: nat, target: nat): (r: State)
    ensures Shaped(r)
  {
    var position := Min(target, total);
    Due(Reset().(position := position), events, position - 1, rate)
  }

  // ----- cutting the reading -----

  lemma {:induction false} PlayFramesJoin(s: State, events: seq<ScheduledEvent>, rate: nat, n: nat, m: nat)
    requires Shaped(s)
    ensures PlayFrames(s, events, rate, n + m) == PlayFrames(PlayFrames(s, events, rate, n), events, rate, m)
    decreases n
  {
    if n > 0 {
      PlayFramesJoin(PlayFrame(s, events, rate), events, rate, n - 1, m);
    }
  }

  lemma ReadsJoin(s: State, events: seq<ScheduledEvent>, rate: nat, total: nat, n: nat, m: nat)
    requires Shaped(s)
    ensures Read(Read(s, events, rate, total, n).0, events, rate, total, m).0 == Read(s, events, rate, total, n + m).0
    ensures Read(s, events, rate, total, n).1 + Read(Read(s, events, rate, total, n).0, events, rate, total, m).1
         == Read(s, events, rate, total, n + m).1
  {
    if s.position < total {
      var first := Min(total - s.position, n);
      if first + s.position < total {
        PlayFramesJoin(s, events, rate, first, Min(total - s.position - first, m));
      }
    }
  }

  function ReadAll(s: State, events: seq<ScheduledEvent>, rate: nat, total: nat, sizes: seq<nat>): (r: State)
    requires Shaped(s)
    ensures Shaped(r)
    decreases |sizes|
  {
    if sizes == [] then s else ReadAll(Read(s, events, rate, total, sizes[0]).0, events, rate, total, sizes[1..])
  }

  function Sum(sizes: seq<nat>): nat {
    if sizes == [] then 0 else sizes[0] + Sum(sizes[1..])
  }

  /** However a stretch is cut into reads, voices and envelopes included, the decoder ends in the same state. */
  lemma {:induction false} PartitionDoesNotMatter(s: State, events: seq<ScheduledEvent>, rate: nat, total: nat,
                                                  sizes: seq<nat>)
    requires Shaped(s)
    ensures ReadAll(s, events, rate, total, sizes) == Read(s, events, rate, total, Sum(sizes)).0
    decreases |sizes|
  {
    if sizes != [] {
      PartitionDoesNotMatter(Read(s, events, rate, total, sizes[0]).0, events, rate, total, sizes[1..]);
      ReadsJoin(s, events, rate, total, sizes[0], Sum(sizes[1..]));
    }
  }

  // ----- seeking -----

  /** The same events are behind both, and the controllers agree. */
  predicate SameCues(s: State, t: State) {
    s.next == t.next && s.channels == t.channels
  }

  lemma ApplyCues(s: State, t: State, e: ScheduledEvent, rate: nat)
    requires Shaped(s) && Shaped(t) && SameCues(s, t)
    ensures SameCues(Apply(s, e, rate), Apply(t, e, rate))
    ensures Apply(s, e, rate).next == s.next
  {
  }

  lemma {:induction false} DueCues(s: State, t: State, events: seq<ScheduledEvent>, limit: int, rate: nat)
    requires Shaped(s) && Shaped(t) && SameCues(s, t)
    ensures SameCues(Due(s, events, limit, rate), Due(t, events, limit, rate))
    decreases |events| - s.next
  {
    hide Apply;
    if s.next < |events| && events[s.next].frame <= limit {
      var e := events[s.next];
      ApplyCues(s, t, e, rate);
      DueCues(Apply(s, e, rate).(position := s.position, next := s.next + 1),
              Apply(t, e, rate).(position := t.position, next := t.next + 1), events, limit, rate);
    }
  }

  lemma {:induction false} DueInTwoSteps(s: State, events: seq<ScheduledEvent>, a: int, b: int, rate: nat)
    requires Shaped(s) && a <= b
    ensures Due(Due(s, events, a, rate), events, b, rate) == Due(s, events, b, rate)
    decreases |events| - s.next
  {
    hide Apply;
    if s.next < |events| && events[s.next].frame <= a {
      DueInTwoSteps(Apply(s, events[s.next], rate).(position := s.position, next := s.next + 1), events, a, b, rate);
    }
  }

  lemma {:induction false} PlayedCues(s: State, events: seq<ScheduledEvent>, rate: nat, n: nat)
    requires Shaped(s) && s.position == 0
    ensures SameCues(PlayFrames(s, events, rate, n), Due(s, events, n - 1, rate)) || n == 0
    decreases n
  {
    hide Due;
    if n > 0 {
      var t := PlayFrames(s, events, rate, n - 1);
      PlayFramesJoin(s, events, rate, n - 1, 1);
      assert PlayFrames(t, events, rate, 1) == PlayFrame(t, events, rate);
      if n > 1 {
        PlayedCues(s, events, rate, n - 1);
        DueCues(t, Due(s, events, n - 2, rate), events, n - 1, rate);
        DueInTwoSteps(s, events, n - 2, n - 1, rate);
      }
    }
  }

  /**
   Seeking to a frame and playing up to it from the start, in any reads, agree on the position, the next
   event and all sixteen channels, for every target, in or beyond the piece.
   */
  lemma SeekAgreesWithPlaying(events: seq<ScheduledEvent>, rate: nat, total: nat, target: nat, sizes: seq<nat>)
    requires Sum(sizes) == target
    ensures var played := ReadAll(Reset(), events, rate, total, sizes);
            var sought := Seek(events, rate, total, target);
            played.position == sought.position && SameCues(played, sought)
  {
    PartitionDoesNotMatter(Reset(), events, rate, total, sizes);
    var n := Min(target, total);
    PlayedCues(Reset(), events, rate, n);
    DueCues(Reset(), Reset().(position := n), events, n - 1, rate);
  }

  lemma {:induction false} PlayFramesCues(s: State, t: State, events: seq<ScheduledEvent>, rate: nat, n: nat)
    requires Shaped(s) && Shaped(t) && SameCues(s, t) && s.position == t.position
    ensures SameCues(PlayFrames(s, events, rate, n), PlayFrames(t, events, rate, n))
    decreases n
  {
    if n > 0 {
      DueCues(s, t, events, s.position, rate);
      PlayFramesCues(PlayFrame(s, events, rate), PlayFrame(t, events, rate), events, rate, n - 1);
    }
  }

  /** And they go on agreeing. */
  lemma SeekThenPlayAgrees(events: seq<ScheduledEvent>, rate: nat, total: nat, target: nat, more: nat)
    ensures var played := Read(Reset(), events, rate, total, target + more).0;
            var sought := Read(Seek(events, rate, total, target), events, rate, total, more).0;
            played.position == sought.position && SameCues(played, sought)
  {
    assert Sum([target]) == target + Sum([]);
    SeekAgreesWithPlaying(events, rate, total, target, [target]);
    var first := Read(Reset(), events, rate, total, target).0;
    assert ReadAll(Reset(), events, rate, total, [target]) == ReadAll(first, events, rate, total, []);
    ReadsJoin(Reset(), events, rate, total, target, more);
    var sought := Seek(events, rate, total, target);
    if first.position < total {
      PlayFramesCues(first, sought, events, rate, Min(total - first.position, more));
    }
  }

  // ----- every event in its frame -----

  /** Due stops at the first event that is not due. */
  lemma {:induction false} DueStops(s: State, events: seq<ScheduledEvent>, limit: int, rate: nat)
    requires Shaped(s) && s.next <= |events|
    ensures var r := Due(s, events, limit, rate);
            && r.next <= |events|
            && (r.next < |events| ==> events[r.next].frame > limit)
            && forall j | s.next <= j < r.next :: events[j].frame <= limit
    decreases |events| - s.next
  {
    hide Apply;
    if s.next < |events| && events[s.next].frame <= limit {
      DueStops(Apply(s, events[s.next], rate).(position := s.position, next := s.next + 1), events, limit, rate);
    }
  }

  ghost predicate InOrder(events: seq<ScheduledEvent>) {
    forall i, j | 0 <= i < j < |events| :: events[i].frame <= events[j].frame
  }

  /** An event is applied while its own frame is played: no frame earlier and none later. */
  lemma AppliedInItsFrame(events: seq<ScheduledEvent>, rate: nat, n: nat, k: nat)
    requires InOrder(events) && k < |events|
    ensures k < PlayFrames(Reset(), events, rate, n).next <==> events[k].frame < n
  {
    if n > 0 {
      PlayedCues(Reset(), events, rate, n);
      DueStops(Reset(), events, n - 1, rate);
    }
  }

  /**
   However a piece is cut into reads, they have applied exactly the events of the frames they rendered, and
   once they have gone through the whole piece, every note on and note off.
   */
  lemma NotesArePlayed(raw: seq<RawEvent>, division: nat, rate: nat, maxTick: nat, sizes: seq<nat>, k: nat)
    requires division > 0 && k < |Schedule(raw, division, rate)|
    ensures var events, total := Schedule(raw, division, rate), TotalFrames(raw, division, rate, maxTick);
            var played := ReadAll(Reset(), events, rate, total, sizes);
            && (k < played.next <==> events[k].frame < Min(total, Sum(sizes)))
            && (rate > 0 && IsNote(events[k].kind) && Sum(sizes) >= total ==> k < played.next)
  {
    hide Schedule, TotalFrames;
    var events, total := Schedule(raw, division, rate), TotalFrames(raw, division, rate, maxTick);
    ScheduleIsOrdered(raw, division, rate);
    PartitionDoesNotMatter(Reset(), events, rate, total, sizes);
    AppliedInItsFrame(events, rate, Min(total, Sum(sizes)), k);
    if rate > 0 && IsNote(events[k].kind) {
      NotesLieInside(raw, division, rate, maxTick);
      assert events[k].kind.NoteOn? || events[k].kind.NoteOff?;
    }
  }

  // ----- keys -----

  /** A voice is held by its key, by the pedal, or is dying away: always one of these. Levels are 0 to 1. */
  predicate VoiceOk(v: Voice) {
    && (v.active ==> v.keyHeld || v.sustained || v.released)
    && (v.active ==> !(v.keyHeld && v.released) && !(v.keyHeld && v.sustained) && !(v.sustained && v.released))
    && 0.0 <= v.level <= 1.0 && 0.0 <= v.sustainLevel <= 1.0
    && v.attackRate >= 0.0 && v.decayRate >= 0.0 && v.releaseRate >= 0.0
  }

  /** At most one sounding voice is held by the key of one note of one channel. */
  ghost predicate VoicesOk(vs: seq<Voice>) {
    && (forall i | 0 <= i < |vs| :: VoiceOk(vs[i]))
    && forall i, j {:trigger vs[i], vs[j]} | 0 <= i < j < |vs| && vs[i].active && vs[i].keyHeld ::
         !HeldFor(vs[j], vs[i].channel, vs[i].note)
  }

  lemma StartKeepsVoices(vs: seq<Voice>, channel: nat, note: nat, velocity: nat, rate: nat)
    requires VoicesOk(vs) && vs != []
    ensures VoicesOk(StartNote(vs, channel, note, velocity, rate))
    ensures exists slot | 0 <= slot < |vs| :: Holder(StartNote(vs, channel, note, velocity, rate), slot, channel, note)
  {
    var freed := ReleaseHeld(vs, channel, note);
    SlotInRange(freed);
    var slot := FindVoiceSlot(freed);
    var after := freed[slot := NewVoice(channel, note, velocity, rate)];
    assert forall k | 0 <= k < |vs| && k != slot :: after[k] == freed[k] && !HeldFor(freed[k], channel, note);
    assert Holder(after, slot, channel, note);
  }

  /** Twice how audible a voice is: one that is dying away counts half. */
  function Audibility(v: Voice): real {
    if v.released then v.level else 2.0 * v.level
  }

  /** The first idle voice is taken, and the first of the least audible ones only when none is idle. */
  lemma SlotIsBest(vs: seq<Voice>)
    requires vs != [] && VoicesOk(vs)
    ensures var slot := FindVoiceSlot(vs);
            && slot < |vs|
            && (forall k | 0 <= k < slot :: !vs[slot].active ==> vs[k].active)
            && (vs[slot].active ==>
                  forall k | 0 <= k < |vs| ::
                    vs[k].active && Audibility(vs[slot]) <= Audibility(vs[k])
                    && (k < slot ==> Audibility(vs[slot]) < Audibility(vs[k])))
  {
    FirstIdleIsFirst(vs, 0);
    QuietestIsLeast(vs, 0, 0, FLOAT_MAX);
  }

  /** `slot` holds the key of the note, and nothing else does. */
  ghost predicate Holder(vs: seq<Voice>, slot: nat, channel: nat, note: nat)
    requires slot < |vs|
  {
    HeldFor(vs[slot], channel, note) && forall k | 0 <= k < |vs| && k != slot :: !HeldFor(vs[k], channel, note)
  }

  lemma ApplyKeepsVoices(s: State, e: ScheduledEvent, rate: nat)
    requires Shaped(s) && VoicesOk(s.voices)
    ensures VoicesOk(Apply(s, e, rate).voices)
  {
    hide VoicesOk;
    if e.channel < CHANNELS {
      var vs := s.voices;
      match e.kind
      case NoteOn =>
        if e.data2 == 0 {
          KeysUpKeepsVoices(vs, e.channel, e.data1, s.channels[e.channel].sustain);
        } else {
          StartKeepsVoices(vs, e.channel, e.data1, e.data2, rate);
        }
      case NoteOff => KeysUpKeepsVoices(vs, e.channel, e.data1, s.channels[e.channel].sustain);
      case ControlChange => ReleasesKeepVoices(vs, e.channel);
      case _ =>
    }
  }

  lemma KeysUpKeepsVoices(vs: seq<Voice>, channel: nat, note: nat, sustain: bool)
    requires VoicesOk(vs)
    ensures VoicesOk(KeysUp(vs, channel, note, sustain))
    ensures forall k | 0 <= k < |vs| :: !HeldFor(KeysUp(vs, channel, note, sustain)[k], channel, note)
  {
  }

  lemma ReleasesKeepVoices(vs: seq<Voice>, channel: nat)
    requires VoicesOk(vs)
    ensures VoicesOk(ReleaseAll(vs, channel)) && VoicesOk(ReleaseSustained(vs, channel))
  {
  }

  lemma {:induction false} DueKeepsVoices(s: State, events: seq<ScheduledEvent>, limit: int, rate: nat)
    requires Shaped(s) && VoicesOk(s.voices)
    ensures VoicesOk(Due(s, events, limit, rate).voices)
    decreases |events| - s.next
  {
    hide Apply, VoicesOk;
    if s.next < |events| && events[s.next].frame <= limit {
      ApplyKeepsVoices(s, events[s.next], rate);
      DueKeepsVoices(Apply(s, events[s.next], rate).(position := s.position, next := s.next + 1), events, limit, rate);
    }
  }

  lemma {:induction false} PlayKeepsVoices(s: State, events: seq<ScheduledEvent>, rate: nat, n: nat)
    requires Shaped(s) && VoicesOk(s.voices)
    ensures VoicesOk(PlayFrames(s, events, rate, n).voices)
    decreases n
  {
    hide VoicesOk;
    if n > 0 {
      DueKeepsVoices(s, events, s.position, rate);
      var t := Due(s, events, s.position, rate);
      EnvelopesKeepVoices(t.voices);
      PlayKeepsVoices(PlayFrame(s, events, rate), events, rate, n - 1);
    }
  }

  lemma EnvelopesKeepVoices(vs: seq<Voice>)
    requires VoicesOk(vs)
    ensures VoicesOk(Enveloped(vs))
  {
  }

  datatype Call = ReadFrames(frames: nat) | SeekToFrame(target: nat)

  function After(events: seq<ScheduledEvent>, rate: nat, total: nat, calls: seq<Call>): (r: State)
    ensures Shaped(r)
    decreases |calls|
  {
    if calls == [] then Reset()
    else
      var s := After(events, rate, total, calls[..|calls| - 1]);
      match calls[|calls| - 1]
      case ReadFrames(frames) => Read(s, events, rate, total, frames).0
      case SeekToFrame(target) => Seek(events, rate, total, target)
  }

  /** In every state that reads and seeks can reach, no key holds two voices. */
  lemma {:induction false} KeysHoldOneVoice(events: seq<ScheduledEvent>, rate: nat, total: nat, calls: seq<Call>)
    ensures VoicesOk(After(events, rate, total, calls).voices)
    decreases |calls|
  {
    hide VoicesOk, Due, PlayFrames;
    FreshVoicesOk();
    if calls != [] {
      KeysHoldOneVoice(events, rate, total, calls[..|calls| - 1]);
      var s := After(events, rate, total, calls[..|calls| - 1]);
      match calls[|calls| - 1]
      case ReadFrames(frames) =>
        if s.position < total {
          PlayKeepsVoices(s, events, rate, Min(total - s.position, frames));
        }
      case SeekToFrame(target) =>
        var position := Min(target, total);
        DueKeepsVoices(Reset().(position := position), events, position - 1, rate);
    }
  }

  lemma FreshVoicesOk()
    ensures VoicesOk(Reset().voices)
  {
  }

  /** A struck key is held by exactly one voice, and a released key by none. */
  lemma KeyIsHeldBySlot(s: State, e: ScheduledEvent, rate: nat)
    requires Shaped(s) && VoicesOk(s.voices) && e.channel < CHANNELS && IsNote(e.kind)
    ensures var vs := Apply(s, e, rate).voices;
            if e.kind.NoteOn? && e.data2 > 0
            then exists slot | 0 <= slot < |vs| :: Holder(vs, slot, e.channel, e.data1)
            else forall k | 0 <= k < |vs| :: !HeldFor(vs[k], e.channel, e.data1)
  {
    if e.kind.NoteOn? && e.data2 > 0 {
      StartKeepsVoices(s.voices, e.channel, e.data1, e.data2, rate);
    } else {
      KeysUpKeepsVoices(s.voices, e.channel, e.data1, s.channels[e.channel].sustain);
    }
  }

  /**
   An event leaves the controllers of every other channel alone, and every voice of another channel but
   for the one a new note takes over.
   */
  lemma EventStaysInItsChannel(s: State, e: ScheduledEvent, rate: nat)
    requires Shaped(s)
    ensures var t := Apply(s, e, rate);
            && (forall c | 0 <= c < CHANNELS && c != e.channel :: t.channels[c] == s.channels[c])
            && (e.channel >= CHANNELS ==> t == s)
            && (forall k, l | 0 <= k < l < MAX_VOICES && t.voices[k] != s.voices[k] && t.voices[l] != s.voices[l] ::
                  Sounds(s.voices[k], e.channel) || Sounds(s.voices[l], e.channel))
  {
    if e.channel < CHANNELS && e.kind.NoteOn? && e.data2 > 0 {
      var freed := ReleaseHeld(s.voices, e.channel, e.data1);
      SlotInRange(freed);
      forall k | 0 <= k < MAX_VOICES && k != FindVoiceSlot(freed) && Apply(s, e, rate).voices[k] != s.voices[k]
        ensures Sounds(s.voices[k], e.channel)
      {
      }
    }
  }

  function EnvelopeAfter(v: Voice, n: nat): Voice
    decreases n
  {
    if n == 0 then v else EnvelopeAfter(Envelope(v), n - 1)
  }

  /** A released voice is silent after as many frames as its level needs at its release rate. */
  lemma {:induction false} ReleasedVoiceEnds(v: Voice, n: nat)
    requires VoiceOk(v) && v.released && n > 0 && v.level <= n as real * v.releaseRate + 0.00001
    ensures !EnvelopeAfter(v, n).active
    decreases n
  {
    var next := Envelope(v);
    if !v.active || !next.active {
      SilentStaysSilent(next, n - 1);
    } else {
      assert (n - 1) as real * v.releaseRate == n as real * v.releaseRate - v.releaseRate;
      ReleasedVoiceEnds(next, n - 1);
    }
  }

  /** And not before: its level falls by its release rate a frame until next to nothing is left. */
  lemma {:induction false} ReleasedVoiceSounds(v: Voice, n: nat)
    requires v.active && v.released && v.releaseRate >= 0.0 && v.level - n as real * v.releaseRate > 0.00001
    ensures EnvelopeAfter(v, n) == v.(level := v.level - n as real * v.releaseRate)
    decreases n
  {
    if n > 0 {
      OneMoreTime(n, v.releaseRate);
      NothingLost(n - 1, v.releaseRate);
      assert Envelope(v) == v.(level := v.level - v.releaseRate);
      hide Envelope;
      ReleasedVoiceSounds(Envelope(v), n - 1);
    }
  }

  lemma NothingLost(n: nat, x: real)
    requires x >= 0.0
    ensures n as real * x >= 0.0
  {
  }

  lemma {:induction false} SilentStaysSilent(v: Voice, n: nat)
    requires !v.active
    ensures EnvelopeAfter(v, n) == v
    decreases n
  {
    if n > 0 {
      SilentStaysSilent(v, n - 1);
    }
  }

  /**
   A lifted key lets its note die away: with the pedal up, a note off, or a note on of velocity 0, silences every
   voice the key held after the frames its level needs, and with the pedal down none of them before it is lifted.
   */
  lemma NoteOffEndsNote(s: State, e: ScheduledEvent, rate: nat, k: nat, n: nat)
    requires Shaped(s) && VoicesOk(s.voices) && e.channel < CHANNELS && k < MAX_VOICES
    requires e.kind == NoteOff || (e.kind == NoteOn && e.data2 == 0)
    requires var v := s.voices[k];
             v.active && v.keyHeld && v.channel == e.channel && v.note == e.data1
             && n > 0 && v.level <= n as real * v.releaseRate + 0.00001
    ensures var v := Apply(s, e, rate).voices[k];
            if s.channels[e.channel].sustain
            then EnvelopeAfter(v, n).active && v.sustained && !v.keyHeld
            else v.released && !v.keyHeld && !EnvelopeAfter(v, n).active
  {
    var v := Apply(s, e, rate).voices[k];
    assert VoiceOk(s.voices[k]);
    assert v == KeyUp(s.voices[k], s.channels[e.channel].sustain);
    if s.channels[e.channel].sustain {
      UnreleasedVoiceSounds(v, n);
    } else {
      ReleasedVoiceEnds(v, n);
    }
  }

  /** Only a release ends a voice. */
  lemma {:induction false} UnreleasedVoiceSounds(v: Voice, n: nat)
    requires VoiceOk(v) && v.active && !v.released
    ensures EnvelopeAfter(v, n).active && VoiceOk(EnvelopeAfter(v, n))
    decreases n
  {
    if n > 0 {
      UnreleasedVoiceSounds(Envelope(v), n - 1);
    }
  }

  // ----- the shape of a note -----

  /** A fresh decoder is at the start, with 96 silent voices and the 16 channels at their defaults. */
  lemma FreshDecoder(k: nat, channel: nat)
    requires k < 96 && channel < 16
    ensures var s := Reset();
            && s.position == 0 && s.next == 0 && |s.voices| == 96 && |s.channels| == 16
            && !s.voices[k].active && s.channels[channel] == Channel(0, 100, 127, 64, 8192, false)
  {
  }

  /** One in so many frames, and one at once if that is less than a frame. */
  ghost predicate TakesFrames(rate: real, frames: real, depth: real) {
    if frames <= 1.0 then rate == depth else rate * frames == depth
  }

  /**
   A struck note starts silent and held. It rises in 4 ms and dies away in 130 ms, percussion in 1 ms and 80 ms, or in
   one frame where these are shorter.
   */
  lemma NoteShape(channel: nat, note: nat, velocity: nat, rate: nat)
    ensures var v, r := NewVoice(channel, note, velocity, rate), rate as real;
            && v.active && v.keyHeld && !v.released && !v.sustained && v.level == 0.0
            && v.channel == channel && v.note == note && v.velocity == velocity
            && (channel == 9 ==>
                  && v.sustainLevel == 0.3 && TakesFrames(v.attackRate, 0.001 * r, 1.0)
                  && TakesFrames(v.decayRate, 0.06 * r, 0.7) && TakesFrames(v.releaseRate, 0.08 * r, 1.0))
            && (channel != 9 ==>
                  && v.sustainLevel == 0.72 && TakesFrames(v.attackRate, 0.004 * r, 1.0)
                  && TakesFrames(v.decayRate, 0.09 * r, 0.28) && TakesFrames(v.releaseRate, 0.13 * r, 1.0))
  {
  }

  /** One frame of a held voice: the attack up to full level, and then the decay down to the sustain level. */
  lemma HeldFrame(v: Voice)
    requires v.active && !v.released && v.level <= 1.0
    ensures var w := Envelope(v);
            && w == v.(level := w.level)
            && (v.level < 1.0 && v.level + v.attackRate <= v.sustainLevel && v.sustainLevel <= 1.0 ==>
                  w.level == v.level + v.attackRate)
            && (v.level < 1.0 && v.sustainLevel < v.level + v.attackRate <= 1.0 ==>
                  w.level == (if v.level + v.attackRate - v.decayRate < v.sustainLevel then v.sustainLevel
                              else v.level + v.attackRate - v.decayRate))
            && (v.sustainLevel < 1.0 && (v.level == 1.0 || v.level + v.attackRate >= 1.0) ==>
                  w.level == (if 1.0 - v.decayRate < v.sustainLevel then v.sustainLevel else 1.0 - v.decayRate))
  {
  }

  /** Every voice attacks faster than it decays, and decays no deeper than its sustain level in one frame. */
  lemma AttackOutrunsDecay(channel: nat, note: nat, velocity: nat, rate: nat)
    ensures var v := NewVoice(channel, note, velocity, rate);
            && 0.0 < v.decayRate <= 1.0 - v.sustainLevel
            && v.attackRate - v.decayRate >= 0.3 * v.attackRate > 0.0
  {
    var drums := channel == 9;
    var attack := AtLeastOne((if drums then 0.001 else 0.004) * rate as real);
    var decay := AtLeastOne((if drums then 0.060 else 0.090) * rate as real);
    var depth := 1.0 - if drums then 0.30 else 0.72;
    assert attack <= decay;
    assert depth / decay <= depth / attack == depth * (1.0 / attack);
  }

  /** A held voice rises by the difference of the two rates a frame, up to one decay below full level. */
  lemma {:induction false} HeldLevel(v: Voice, n: nat, gain: real)
    requires v.active && !v.released && 0.0 <= v.level <= 1.0 - v.decayRate
    requires 0.0 < v.decayRate <= 1.0 - v.sustainLevel && gain == v.attackRate - v.decayRate >= 0.0
    ensures var w := EnvelopeAfter(v, n);
            && w == v.(level := w.level) && w.level <= 1.0 - v.decayRate
            && (w.level == 1.0 - v.decayRate || w.level >= v.level + n as real * gain)
    decreases n
  {
    hide Envelope;
    if n > 0 {
      HeldStep(v);
      HeldLevel(Envelope(v), n - 1, gain);
      OneMoreTime(n, gain);
    }
  }

  lemma HeldStep(v: Voice)
    requires v.active && !v.released && 0.0 <= v.level <= 1.0 - v.decayRate
    requires 0.0 < v.decayRate <= 1.0 - v.sustainLevel && v.attackRate >= v.decayRate
    ensures var w := Envelope(v);
            && w == v.(level := w.level) && v.level <= w.level <= 1.0 - v.decayRate
            && (w.level == 1.0 - v.decayRate || w.level >= v.level + (v.attackRate - v.decayRate))
  {
  }

  lemma OneMoreTime(n: nat, x: real)
    requires n > 0
    ensures n as real * x == x + (n - 1) as real * x
  {
  }

  /**
   Attack and decay are both applied in every frame, so a held voice keeps its sustain level exactly if it does not
   attack faster than it decays, or would fall below that level from the top.
   */
  lemma SustainHoldsIff(v: Voice)
    requires VoiceOk(v) && v.active && !v.released && v.level == v.sustainLevel
    ensures Envelope(v).level == v.sustainLevel <==>
              v.attackRate <= v.decayRate || 1.0 - v.sustainLevel <= v.decayRate
  {
  }

  /**
   No voice of this decoder is such a voice: while its key or the pedal holds it, a note that has risen stays at one
   decay below full level, above its sustain level, for as long as it is held.
   */
  lemma HeldNoteNeverDecays(channel: nat, note: nat, velocity: nat, rate: nat, n: nat)
    requires var v := NewVoice(channel, note, velocity, rate);
             0.3 * (n as real * v.attackRate) >= 1.0
    ensures var v := NewVoice(channel, note, velocity, rate);
            && EnvelopeAfter(v, n).level == 1.0 - v.decayRate
            && (rate >= 23 ==> EnvelopeAfter(v, n).level > v.sustainLevel)
  {
    NewVoiceIsSilent(channel, note, velocity, rate);
    AttackOutrunsDecay(channel, note, velocity, rate);
    hide NewVoice, EnvelopeAfter;
    var v := NewVoice(channel, note, velocity, rate);
    HeldLevel(v, n, v.attackRate - v.decayRate);
    RisesEnough(n as real, v.attackRate, v.attackRate - v.decayRate);
  }

  lemma NewVoiceIsSilent(channel: nat, note: nat, velocity: nat, rate: nat)
    ensures var v := NewVoice(channel, note, velocity, rate);
            && v.active && !v.released && v.level == 0.0 <= v.sustainLevel
            && (rate >= 23 ==> v.decayRate < 1.0 - v.sustainLevel)
  {
  }

  lemma RisesEnough(n: real, attack: real, gain: real)
    requires n >= 0.0 && gain >= 0.3 * attack && 0.3 * (n * attack) >= 1.0
    ensures n * gain >= 1.0
  {
    assert n * gain >= n * (0.3 * attack) == 0.3 * (n * attack);
  }

  // ----- the controllers -----

  /** Each of the plain controllers sets one value of its channel, and nothing else anywhere. */
  lemma ControllersSet(s: State, channel: nat, value: nat)
    requires Shaped(s) && channel < CHANNELS
    ensures var c := s.channels[channel];
            && ChangeControl(s, channel, 7, value)
               == s.(channels := s.channels[channel := Channel(c.program, value, c.expression, c.pan, c.pitchBend,
                                                               c.sustain)])
            && ChangeControl(s, channel, 10, value)
               == s.(channels := s.channels[channel := Channel(c.program, c.volume, c.expression, value, c.pitchBend,
                                                               c.sustain)])
            && ChangeControl(s, channel, 11, value)
               == s.(channels := s.channels[channel := Channel(c.program, c.volume, value, c.pan, c.pitchBend,
                                                               c.sustain)])
            && ChangeControl(s, channel, 121, value)
               == s.(channels := s.channels[channel := Channel(c.program, 100, 127, 64, 8192, false)])
    ensures forall controller | controller !in {7, 10, 11, 64, 120, 121, 123} ::
              ChangeControl(s, channel, controller, value) == s
  {
  }

  /** All sound off and all notes off let every voice of the channel die away, and no other. */
  lemma AllOffReleases(s: State, channel: nat, controller: nat, value: nat, k: nat)
    requires Shaped(s) && channel < CHANNELS && k < MAX_VOICES && controller in {120, 123}
    ensures var t := ChangeControl(s, channel, controller, value);
            && t.channels == s.channels && t.position == s.position && t.next == s.next
            && (s.voices[k].active && s.voices[k].channel == channel ==>
                  t.voices[k] == s.voices[k].(released := true, sustained := false, keyHeld := false))
            && (!(s.voices[k].active && s.voices[k].channel == channel) ==> t.voices[k] == s.voices[k])
  {
  }

  /** The pedal controller counts from 64 on as down. */
  lemma PedalSets(s: State, channel: nat, value: nat)
    requires Shaped(s) && channel < CHANNELS
    ensures var t := ChangeControl(s, channel, 64, value);
            && t.channels == s.channels[channel := s.channels[channel].(sustain := value >= 64)]
            && forall k | 0 <= k < MAX_VOICES && t.voices[k] != s.voices[k] ::
                 && s.channels[channel].sustain && value < 64 && PedalHeld(s.voices, channel, k)
                 && t.voices[k] == s.voices[k].(released := true, sustained := false, keyHeld := false)
  {
  }

  /** A program change and a pitch bend set their value of the channel; the bend joins two groups of seven bits. */
  lemma ProgramAndBendSet(s: State, e: ScheduledEvent, rate: nat)
    requires Shaped(s) && e.channel < CHANNELS
    ensures e.kind == ProgramChange ==>
              Apply(s, e, rate) == s.(channels := s.channels[e.channel := s.channels[e.channel].(program := e.data1)])
    ensures e.kind == PitchBend && e.data1 < 128 ==>
              Apply(s, e, rate)
              == s.(channels := s.channels[e.channel := s.channels[e.channel].(pitchBend := 128 * e.data2 + e.data1)])
    ensures e.kind == PitchBend && 128 <= e.data1 < 256 ==>
              Apply(s, e, rate).channels[e.channel].pitchBend
              == 128 * (if e.data2 % 2 == 0 then e.data2 + 1 else e.data2) + (e.data1 - 128)
    ensures e.kind == ControlChange ==> Apply(s, e, rate) == ChangeControl(s, e.channel, e.data1, e.data2)
    ensures e.kind.Tempo? ==> Apply(s, e, rate) == s
  {
  }

  // ----- the pedal -----

  /** Voice k sounds on the channel only because of the pedal. */
  predicate PedalHeld(vs: seq<Voice>, channel: nat, k: int) {
    0 <= k < |vs| && Sounds(vs[k], channel) && vs[k].sustained
  }

  /**
   Lifting the pedal does not always free the voices it held: it does exactly when the channel still
   counted it as down, or when there were none.
   */
  lemma PedalUpFreesIff(s: State, channel: nat, value: nat)
    requires Shaped(s) && channel < CHANNELS && value < 64
    ensures (forall k :: !PedalHeld(ChangeControl(s, channel, 64, value).voices, channel, k))
       <==> s.channels[channel].sustain || (forall k :: !PedalHeld(s.voices, channel, k))
  {
    var after := ChangeControl(s, channel, 64, value).voices;
    if s.channels[channel].sustain {
      assert after == ReleaseSustained(s.voices, channel);
    } else {
      assert after == s.voices;
    }
  }

  /** Controller 121 forgets the pedal without freeing its voices, and then lifting it frees nothing. */
  lemma ResetControllersStrands(s: State, channel: nat, value: nat, k: nat)
    requires Shaped(s) && channel < CHANNELS && value < 64 && PedalHeld(s.voices, channel, k)
    ensures var forgotten := ChangeControl(s, channel, 121, 0);
            PedalHeld(ChangeControl(forgotten, channel, 64, value).voices, channel, k)
  {
  }

  predicate ForgetsPedal(e: ScheduledEvent, channel: nat) {
    e.channel == channel && e.kind == ControlChange && e.data1 == 121
  }

  /** None of the first n events is a controller 121 of the channel. */
  ghost predicate Remembered(events: seq<ScheduledEvent>, n: nat, channel: nat) {
    forall j | 0 <= j < n && j < |events| :: !ForgetsPedal(events[j], channel)
  }

  /** The pedal holds voices only while the channel counts it as down. */
  ghost predicate PedalOk(s: State, channel: nat)
    requires Shaped(s) && channel < CHANNELS
  {
    s.channels[channel].sustain || forall k :: !PedalHeld(s.voices, channel, k)
  }

  lemma ApplyKeepsPedal(s: State, e: ScheduledEvent, rate: nat, channel: nat)
    requires Shaped(s) && channel < CHANNELS && PedalOk(s, channel) && !ForgetsPedal(e, channel)
    ensures PedalOk(Apply(s, e, rate), channel)
  {
    if e.channel < CHANNELS && e.kind.NoteOn? && e.data2 > 0 {
      SlotInRange(ReleaseHeld(s.voices, e.channel, e.data1));
    }
    var t := Apply(s, e, rate);
    forall k | PedalHeld(t.voices, channel, k) ensures t.channels[channel].sustain {
      if !PedalHeld(s.voices, channel, k) {
        assert e.channel == channel;
      }
    }
  }

  lemma {:induction false} DueKeepsPedal(s: State, events: seq<ScheduledEvent>, limit: int, rate: nat, channel: nat)
    requires Shaped(s) && channel < CHANNELS && PedalOk(s, channel)
    requires Remembered(events, Due(s, events, limit, rate).next, channel)
    ensures PedalOk(Due(s, events, limit, rate), channel)
    decreases |events| - s.next
  {
    hide Apply, PedalOk;
    if s.next < |events| && events[s.next].frame <= limit {
      var t := Apply(s, events[s.next], rate).(position := s.position, next := s.next + 1);
      ApplyKeepsPedal(s, events[s.next], rate, channel);
      PedalSeesVoices(Apply(s, events[s.next], rate), t, channel);
      DueKeepsPedal(t, events, limit, rate, channel);
    }
  }

  lemma PedalSeesVoices(s: State, t: State, channel: nat)
    requires Shaped(s) && channel < CHANNELS && PedalOk(s, channel) && t.channels == s.channels
    requires t.voices == s.voices || t.voices == Enveloped(s.voices)
    ensures PedalOk(t, channel)
  {
    forall k | PedalHeld(t.voices, channel, k) ensures PedalHeld(s.voices, channel, k) {
    }
  }

  lemma {:induction false} PlayKeepsPedal(s: State, events: seq<ScheduledEvent>, rate: nat, n: nat, channel: nat)
    requires Shaped(s) && channel < CHANNELS && PedalOk(s, channel)
    requires Remembered(events, PlayFrames(s, events, rate, n).next, channel)
    ensures PedalOk(PlayFrames(s, events, rate, n), channel)
    decreases n
  {
    hide Due, PedalOk, Enveloped;
    if n > 0 {
      var t := PlayFrame(s, events, rate);
      DueKeepsPedal(s, events, s.position, rate, channel);
      PedalSeesVoices(Due(s, events, s.position, rate), t, channel);
      PlayKeepsPedal(t, events, rate, n - 1, channel);
    }
  }

  /**
   Over every run of reads and seeks: unless a controller 121 of the channel is among the events applied, the
   pedal holds voices only while it is down, so that lifting it frees them all. `NoteIsStranded` needs its
   fourth event.
   */
  lemma PedalNeverStrands(events: seq<ScheduledEvent>, rate: nat, total: nat, calls: seq<Call>, channel: nat)
    requires channel < CHANNELS && Remembered(events, After(events, rate, total, calls).next, channel)
    ensures var s := After(events, rate, total, calls);
            && PedalOk(s, channel)
            && forall value: nat, k | value < 64 :: !PedalHeld(ChangeControl(s, channel, 64, value).voices, channel, k)
  {
    ReachedPedal(events, rate, total, calls, channel);
    var s := After(events, rate, total, calls);
    forall value: nat | value < 64
      ensures forall k :: !PedalHeld(ChangeControl(s, channel, 64, value).voices, channel, k)
    {
      PedalUpFreesIff(s, channel, value);
    }
  }

  lemma {:induction false} ReachedPedal(events: seq<ScheduledEvent>, rate: nat, total: nat, calls: seq<Call>,
                                        channel: nat)
    requires channel < CHANNELS && Remembered(events, After(events, rate, total, calls).next, channel)
    ensures PedalOk(After(events, rate, total, calls), channel)
    decreases |calls|
  {
    hide Due, PlayFrames, PedalOk;
    FreshPedalOk(channel);
    if calls != [] {
      var s := After(events, rate, total, calls[..|calls| - 1]);
      match calls[|calls| - 1]
      case ReadFrames(frames) =>
        ReachedPedal(events, rate, total, calls[..|calls| - 1], channel);
        if s.position < total {
          PlayKeepsPedal(s, events, rate, Min(total - s.position, frames), channel);
        }
      case SeekToFrame(target) =>
        var start := Reset().(position := Min(target, total));
        PedalSeesVoices(Reset(), start, channel);
        DueKeepsPedal(start, events, start.position - 1, rate, channel);
    }
  }

  lemma FreshPedalOk(channel: nat)
    requires channel < CHANNELS
    ensures PedalOk(Reset(), channel)
  {
  }

  /** With no event left, a voice the pedal holds sounds on. */
  lemma {:induction false} HeldVoiceStays(s: State, events: seq<ScheduledEvent>, rate: nat, n: nat, channel: nat,
                                          k: nat)
    requires Shaped(s) && s.next >= |events| && PedalHeld(s.voices, channel, k)
    requires !s.voices[k].released
    ensures var t := PlayFrames(s, events, rate, n);
            && PedalHeld(t.voices, channel, k) && !t.voices[k].released && t.voices[k].note == s.voices[k].note
            && t.channels == s.channels && t.next == s.next
    decreases n
  {
    if n > 0 {
      HeldVoiceStays(PlayFrame(s, events, rate), events, rate, n - 1, channel, k);
    }
  }

  /** The pedal goes down, a key is struck and lifted, the controllers are reset, and the pedal comes up. */
  function StrandingEvents(channel: nat, note: nat, velocity: nat): seq<ScheduledEvent> {
    [ScheduledEvent(0, 0, ControlChange, channel, 64, 127),
     ScheduledEvent(0, 1, NoteOn, channel, note, velocity),
     ScheduledEvent(0, 2, NoteOff, channel, note, 0),
     ScheduledEvent(0, 3, ControlChange, channel, 121, 0),
     ScheduledEvent(0, 4, ControlChange, channel, 64, 0)]
  }

  /** The note that no key, release or pedal reaches any more. */
  function StrandedVoice(channel: nat, note: nat, velocity: nat, rate: nat): Voice {
    NewVoice(channel, note, velocity, rate).(keyHeld := false, sustained := true)
  }

  lemma FirstNoteTakesVoiceZero(s: State, e: ScheduledEvent, rate: nat)
    requires Shaped(s) && s.voices == Reset().voices && e.channel < CHANNELS && e.kind == NoteOn && e.data2 > 0
    ensures Apply(s, e, rate) == s.(voices := s.voices[0 := NewVoice(e.channel, e.data1, e.data2, rate)])
  {
    assert ReleaseHeld(s.voices, e.channel, e.data1) == s.voices;
  }

  lemma OnlyVoiceIsLifted(s: State, e: ScheduledEvent, v: Voice, rate: nat)
    requires Shaped(s) && s.voices == Reset().voices[0 := v] && HeldFor(v, e.channel, e.data1)
    requires e.channel < CHANNELS && e.kind == NoteOff && s.channels[e.channel].sustain
    ensures Apply(s, e, rate) == s.(voices := s.voices[0 := v.(keyHeld := false, sustained := true)])
  {
    assert KeysUp(s.voices, e.channel, e.data1, true) == s.voices[0 := v.(keyHeld := false, sustained := true)];
  }

  lemma StrandingEventsDue(channel: nat, note: nat, velocity: nat, rate: nat)
    requires channel < CHANNELS && velocity > 0
    ensures var events := StrandingEvents(channel, note, velocity);
            var s := Due(Reset(), events, 0, rate);
            && s.next == |events| && !s.channels[channel].sustain
            && s.voices == Reset().voices[0 := StrandedVoice(channel, note, velocity, rate)]
  {
    hide StartNote, KeysUp, NewVoice;
    var events := StrandingEvents(channel, note, velocity);
    var down := Apply(Reset(), events[0], rate).(position := 0, next := 1);
    FirstNoteTakesVoiceZero(down, events[1], rate);
    var struck := Apply(down, events[1], rate).(position := 0, next := 2);
    NewVoiceIsHeld(channel, note, velocity, rate);
    OnlyVoiceIsLifted(struck, events[2], struck.voices[0], rate);
    var lifted := Apply(struck, events[2], rate).(position := 0, next := 3);
    var forgotten := Apply(lifted, events[3], rate).(position := 0, next := 4);
    var up := Apply(forgotten, events[4], rate).(position := 0, next := 5);
    AllDue(events, [Reset(), down, struck, lifted, forgotten, up], rate, 0);
  }

  lemma NewVoiceIsHeld(channel: nat, note: nat, velocity: nat, rate: nat)
    ensures HeldFor(NewVoice(channel, note, velocity, rate), channel, note)
    ensures !NewVoice(channel, note, velocity, rate).released
  {
  }

  /** Events that are all due are applied one after the other. */
  lemma {:induction false} AllDue(events: seq<ScheduledEvent>, states: seq<State>, rate: nat, i: nat)
    requires |states| == |events| + 1 && i <= |events|
    requires forall k | 0 <= k <= |events| :: Shaped(states[k]) && states[k].position == 0 && states[k].next == k
    requires forall k | 0 <= k < |events| ::
               events[k].frame == 0 && states[k + 1] == Apply(states[k], events[k], rate).(position := 0, next := k + 1)
    ensures Due(states[i], events, 0, rate) == states[|events|]
    decreases |events| - i
  {
    hide Apply;
    if i < |events| {
      AllDue(events, states, rate, i + 1);
    }
  }

  /** A fresh decoder that plays these has its pedal up and no event left, and the note sounds to the end. */
  lemma NoteIsStranded(channel: nat, note: nat, velocity: nat, rate: nat, total: nat, frames: nat)
    requires channel < CHANNELS && velocity > 0 && 0 < frames <= total
    ensures var events := StrandingEvents(channel, note, velocity);
            var s := Read(Reset(), events, rate, total, frames).0;
            && s.next == |events| && !s.channels[channel].sustain
            && PedalHeld(s.voices, channel, 0) && s.voices[0].note == note && !s.voices[0].released
  {
    hide Due, NewVoice;
    var events := StrandingEvents(channel, note, velocity);
    StrandingEventsDue(channel, note, velocity, rate);
    NewVoiceIsHeld(channel, note, velocity, rate);
    HeldVoiceStays(PlayFrame(Reset(), events, rate), events, rate, frames - 1, channel, 0);
  }

  // ----- the decoder -----

  /** Voices and channels are fixed tables updated in place, as in the source. */
  class MidiDecoder {
    const events: seq<ScheduledEvent>
    const rate: nat
    const totalFrames: nat
    var position: nat
    var nextEvent: nat
    const channels: array<Channel>
    const voices: array<Voice>

    ghost predicate Valid()
      reads this
    {
      channels.Length == CHANNELS && voices.Length == MAX_VOICES
    }

    ghost function Now(): State
      reads this, channels, voices
    {
      State(position, nextEvent, channels[..], voices[..])
    }

    constructor (events: seq<ScheduledEvent>, rate: nat, totalFrames: nat)
      ensures Valid() && Now() == Reset() && fresh(channels) && fresh(voices)
      ensures this.events == events && this.rate == rate && this.totalFrames == totalFrames
    {
      this.events, this.rate, this.totalFrames := events, rate, totalFrames;
      position, nextEvent := 0, 0;
      channels := new Channel[CHANNELS](_ => FRESH_CHANNEL);
      voices := new Voice[MAX_VOICES](_ => SILENT_VOICE);
    }

    method ResetPlaybackState()
      requires Valid()
      modifies this, channels, voices
      ensures Now() == Reset()
    {
      position, nextEvent := 0, 0;
      for i := 0 to channels.Length
        invariant position == 0 && nextEvent == 0
        invariant forall k | 0 <= k < i :: channels[k] == FRESH_CHANNEL
      {
        channels[i] := FRESH_CHANNEL;
      }
      for i := 0 to voices.Length
        invariant forall k | 0 <= k < i :: voices[k] == SILENT_VOICE
        invariant position == 0 && nextEvent == 0
        invariant forall k | 0 <= k < CHANNELS :: channels[k] == FRESH_CHANNEL
      {
        voices[i] := SILENT_VOICE;
      }
      assert channels[..] == Reset().channels && voices[..] == Reset().voices;
    }

    method FindSlot() returns (slot: nat)
      requires Valid()
      ensures slot == FindVoiceSlot(voices[..]) && slot < MAX_VOICES
    {
      SlotInRange(voices[..]);
      for i := 0 to voices.Length
        invariant FirstIdle(voices[..], i) == FirstIdle(voices[..], 0)
      {
        if !voices[i].active {
          return i;
        }
      }
      var best, bestScore := 0, FLOAT_MAX;
      for i := 0 to voices.Length
        invariant Quietest(voices[..], i, best, bestScore) == Quietest(voices[..], 0, 0, FLOAT_MAX)
        invariant best < MAX_VOICES
      {
        var score := voices[i].level;
        if voices[i].released {
          score := score * 0.5;
        }
        if score < bestScore {
          best, bestScore := i, score;
        }
      }
      slot := best;
    }

    method StartKey(channel: nat, note: nat, velocity: nat)
      requires Valid()
      modifies voices
      ensures voices[..] == StartNote(old(voices[..]), channel, note, velocity, rate)
    {
      for i := 0 to voices.Length
        invariant forall k | 0 <= k < voices.Length ::
                    voices[k] == if k < i && HeldFor(old(voices[k]), channel, note) then Release(old(voices[k]))
                                 else old(voices[k])
      {
        if HeldFor(voices[i], channel, note) {
          voices[i] := Release(voices[i]);
        }
      }
      assert voices[..] == ReleaseHeld(old(voices[..]), channel, note);
      var slot := FindSlot();
      voices[slot] := NewVoice(channel, note, velocity, rate);
    }

    method LiftKey(channel: nat, note: nat)
      requires Valid() && channel < CHANNELS
      modifies voices
      ensures voices[..] == KeysUp(old(voices[..]), channel, note, channels[channel].sustain)
    {
      var sustain := channels[channel].sustain;
      for i := 0 to voices.Length
        invariant forall k | 0 <= k < voices.Length ::
                    voices[k] == if k < i && HeldFor(old(voices[k]), channel, note)
                                 then KeyUp(old(voices[k]), sustain) else old(voices[k])
      {
        if HeldFor(voices[i], channel, note) {
          if sustain {
            voices[i] := voices[i].(keyHeld := false, sustained := true);
          } else {
            voices[i] := Release(voices[i].(keyHeld := false));
          }
        }
      }
    }

    method ReleaseOnChannel(channel: nat, sustainedOnly: bool)
      requires Valid()
      modifies voices
      ensures voices[..] == if sustainedOnly then ReleaseSustained(old(voices[..]), channel)
                            else ReleaseAll(old(voices[..]), channel)
    {
      for i := 0 to voices.Length
        invariant forall k | 0 <= k < voices.Length ::
                    voices[k] == if k < i && Sounds(old(voices[k]), channel)
                                    && (sustainedOnly ==> old(voices[k]).sustained)
                                 then Release(old(voices[k])) else old(voices[k])
      {
        if Sounds(voices[i], channel) && (!sustainedOnly || voices[i].sustained) {
          voices[i] := Release(voices[i]);
        }
      }
    }

    method ApplyControlChange(channel: nat, controller: nat, value: nat)
      requires Valid() && channel < CHANNELS
      modifies channels, voices
      ensures Now() == ChangeControl(old(Now()), channel, controller, value)
    {
      if controller == 7 {
        channels[channel] := channels[channel].(volume := value);
      } else if controller == 10 {
        channels[channel] := channels[channel].(pan := value);
      } else if controller == 11 {
        channels[channel] := channels[channel].(expression := value);
      } else if controller == 64 {
        var newSustain := value >= 64;
        if channels[channel].sustain && !newSustain {
          ReleaseOnChannel(channel, true);
        }
        channels[channel] := channels[channel].(sustain := newSustain);
      } else if controller == 120 || controller == 123 {
        ReleaseOnChannel(channel, false);
      } else if controller == 121 {
        channels[channel] := channels[channel].(volume := 100, expression := 127, pan := 64, pitchBend := 8192,
                                                sustain := false);
      }
    }

    method ApplyEvent(e: ScheduledEvent)
      requires Valid()
      modifies channels, voices
      ensures Now() == Apply(old(Now()), e, rate)
    {
      hide ChangeControl, StartNote, KeysUp;
      if e.channel >= CHANNELS {
        return;
      }
      match e.kind
      case NoteOn =>
        if e.data2 == 0 {
          LiftKey(e.channel, e.data1);
        } else {
          StartKey(e.channel, e.data1, e.data2);
        }
      case NoteOff => LiftKey(e.channel, e.data1);
      case ProgramChange => channels[e.channel] := channels[e.channel].(program := e.data1);
      case ControlChange => ApplyControlChange(e.channel, e.data1, e.data2);
      case PitchBend => channels[e.channel] := channels[e.channel].(pitchBend := Bend(e.data1, e.data2));
      case Tempo(_) =>
    }

    method ApplyDue(limit: int)
      requires Valid()
      modifies this`nextEvent, channels, voices
      ensures Now() == Due(old(Now()), events, limit, rate)
    {
      hide Apply;
      while nextEvent < |events| && events[nextEvent].frame <= limit
        invariant Due(Now(), events, limit, rate) == Due(old(Now()), events, limit, rate)
        decreases |events| - nextEvent
      {
        ApplyEvent(events[nextEvent]);
        nextEvent := nextEvent + 1;
      }
    }

    method RenderEnvelopes()
      requires Valid()
      modifies voices
      ensures voices[..] == Enveloped(old(voices[..]))
    {
      for i := 0 to voices.Length
        invariant forall k | 0 <= k < voices.Length ::
                  voices[k] == if k < i then Envelope(old(voices[k])) else old(voices[k])
      {
        voices[i] := Envelope(voices[i]);
      }
    }

    method ReadFrames(frames: nat) returns (framesRead: nat)
      requires Valid()
      modifies this, channels, voices
      ensures (Now(), framesRead) == Read(old(Now()), events, rate, totalFrames, frames)
    {
      hide Due, Enveloped;
      if position >= totalFrames {
        return 0;
      }
      framesRead := if totalFrames - position < frames then totalFrames - position else frames;
      for i := 0 to framesRead
        invariant PlayFrames(Now(), events, rate, framesRead - i) == PlayFrames(old(Now()), events, rate, framesRead)
      {
        ApplyDue(position);
        RenderEnvelopes();
        position := position + 1;
      }
    }

    method SeekToFrame(target: nat)
      requires Valid()
      modifies this, channels, voices
      ensures Now() == Seek(events, rate, totalFrames, target)
    {
      var clamped := if target < totalFrames then target else totalFrames;
      ResetPlaybackState();
      position := clamped;
      ApplyDue(position - 1);
    }
  }
}
