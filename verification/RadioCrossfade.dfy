/**
 The receiver crossfade: audio/radio_filter_transition.cpp driven by the block loop of
 audio/radio_playback.cpp. `full`, the length of a fade, is at least 1 frame; one real stands for the
 samples of one frame. What a receiver makes of a frame is a parameter.
 */
module RadioCrossfade {

  import Fade = PipelineTransition

  datatype Mode = Off | Typical1930s | Philco37116

  datatype Phase = Stable | FadeOut | FadeIn

  /** `wet` / full is the share of the receiver in the next frame while a fade is on. */
  datatype Crossfade = Crossfade(active: Mode, target: Mode, wet: nat, phase: Phase)

  /** What one output frame is made of. `reset` says that the receiver was reset just before it. */
  datatype Heard = Dry | Wet(receiver: Mode, mix: nat, reset: bool)

  const SCRATCH_FRAMES: nat := 2048

  // ----- RadioFilterTransition -----

  function Reset(mode: Mode, full: nat): Crossfade {
    Crossfade(mode, mode, if mode.Off? then 0 else full, Stable)
  }

  /** The flag says that another receiver starts from dry and must be reset. */
  function Retarget(c: Crossfade, mode: Mode): (Crossfade, bool) {
    if mode == c.target then (c, false)
    else
      var d := c.(target := mode);
      match c.phase
      case Stable =>
        if c.active.Off? then
          if mode.Off? then (d, false) else (d.(active := mode, phase := FadeIn), true)
        else (if mode != c.active then d.(phase := FadeOut) else d, false)
      case FadeOut => (if mode == c.active then d.(phase := FadeIn) else d, false)
      case FadeIn => (if mode != c.active then d.(phase := FadeOut) else d, false)
  }

  function CommitAtDryBoundary(c: Crossfade): (Crossfade, bool) {
    if !c.phase.FadeOut? || c.wet != 0 then (c, false)
    else if c.target.Off? then (c.(active := Off, phase := Stable), false)
    else if c.active == c.target then (c.(phase := FadeIn), false)
    else (c.(active := c.target, phase := FadeIn), true)
  }

  function FramesUntilBoundary(c: Crossfade, full: nat): int {
    match c.phase
    case Stable => 0
    case FadeOut => c.wet
    case FadeIn => full - c.wet
  }

  function Stepped(c: Crossfade, full: nat): Crossfade {
    if c.phase.FadeIn? then c.(wet := if c.wet < full then c.wet + 1 else c.wet)
    else c.(wet := if c.wet > 0 then c.wet - 1 else 0)
  }

  /** A fade in ends at full wet; a fade out only at the next commit. */
  function Settled(c: Crossfade, full: nat): Crossfade {
    if c.phase.FadeIn? && c.wet == full then c.(phase := Stable) else c
  }

  // ----- the frame-by-frame meaning of process() -----

  function Frame(c: Crossfade, full: nat): (Crossfade, Heard) {
    var (d, changed) := CommitAtDryBoundary(c);
    if d.active.Off? then (d, Dry)
    else if d.phase.Stable? then (d, Wet(d.active, full, changed))
    else (Settled(Stepped(d, full), full), Wet(d.active, d.wet, changed))
  }

  function Frames(c: Crossfade, full: nat, n: nat): (r: (Crossfade, seq<Heard>))
    ensures |r.1| == n
    decreases n
  {
    if n == 0 then (c, [])
    else
      var (d, first) := Frame(c, full);
      var (e, rest) := Frames(d, full, n - 1);
      (e, [first] + rest)
  }

  /** The crossfade and the reset generation it has applied. */
  datatype Filter = Filter(fade: Crossfade, applied: nat)

  function Entered(f: Filter, mode: Mode, generation: nat): (Crossfade, bool) {
    var (retargeted, started) := Retarget(f.fade, mode);
    var (entered, committed) := CommitAtDryBoundary(retargeted);
    (entered, committed || started || generation != f.applied)
  }

  function WithReset(heard: seq<Heard>, reset: bool): (r: seq<Heard>)
    ensures |r| == |heard|
  {
    if reset && heard != [] && heard[0].Wet? then heard[0 := heard[0].(reset := true)] else heard
  }

  function Process(f: Filter, full: nat, mode: Mode, generation: nat, n: nat): (r: (Filter, seq<Heard>))
    ensures |r.1| == n
  {
    var (entered, reset) := Entered(f, mode, generation);
    var (left, heard) := Frames(entered, full, n);
    (Filter(left, generation), WithReset(heard, reset))
  }

  // ----- what every call keeps -----

  /** Holds inside process() too. In particular a commit never finds the active receiver still wanted. */
  predicate Ok(c: Crossfade, full: nat) {
    && c.wet <= full
    && (c.phase.Stable? ==> c.target == c.active && c.wet == (if c.active.Off? then 0 else full))
    && (c.phase.FadeIn? ==> !c.active.Off? && c.target == c.active && c.wet < full)
    && (c.phase.FadeOut? ==> !c.active.Off? && c.target != c.active)
  }

  /** Holds between calls: no fade is left at full wet. */
  predicate Between(c: Crossfade, full: nat) {
    Ok(c, full) && (!c.phase.Stable? ==> c.wet < full)
  }

  lemma FrameKeepsOk(c: Crossfade, full: nat)
    requires Ok(c, full) && full > 0
    ensures Between(Frame(c, full).0, full)
    ensures Frame(c, full).0.target == c.target
  {
  }

  lemma {:induction false} FramesKeepOk(c: Crossfade, full: nat, n: nat)
    requires Ok(c, full) && full > 0
    ensures Ok(Frames(c, full, n).0, full) && (n > 0 || Between(c, full) ==> Between(Frames(c, full, n).0, full))
    ensures Frames(c, full, n).0.target == c.target
    decreases n
  {
    if n > 0 {
      FrameKeepsOk(c, full);
      FramesKeepOk(Frame(c, full).0, full, n - 1);
    }
  }

  lemma EnterKeepsOk(f: Filter, full: nat, mode: Mode, generation: nat)
    requires Between(f.fade, full) && full > 0
    ensures Ok(Entered(f, mode, generation).0, full)
    ensures Entered(f, mode, generation).0.target == mode
    ensures CommitAtDryBoundary(Entered(f, mode, generation).0) == (Entered(f, mode, generation).0, false)
  {
  }

  /** A call of at least one frame never leaves a fade at full wet, so the next call starts a positive block. */
  lemma ProcessKeepsBetween(f: Filter, full: nat, mode: Mode, generation: nat, n: nat)
    requires Between(f.fade, full) && full > 0 && n > 0
    ensures Between(Process(f, full, mode, generation, n).0.fade, full)
    ensures Process(f, full, mode, generation, n).0.fade.target == mode
  {
    EnterKeepsOk(f, full, mode, generation);
    FramesKeepOk(Entered(f, mode, generation).0, full, n);
  }

  /** The assertion of the block loop. */
  lemma BlockIsPositive(c: Crossfade, full: nat)
    requires Ok(c, full) && full > 0 && CommitAtDryBoundary(c) == (c, false) && !c.phase.Stable?
    ensures FramesUntilBoundary(c, full) > 0
  {
  }

  // ----- cutting a call -----

  lemma {:induction false} FramesJoin(c: Crossfade, full: nat, n: nat, m: nat)
    ensures var (d, first) := Frames(c, full, n);
            var (e, rest) := Frames(d, full, m);
            Frames(c, full, n + m) == (e, first + rest)
    decreases n
  {
    if n > 0 {
      FramesJoin(Frame(c, full).0, full, n - 1, m);
      var tail := Frames(Frame(c, full).0, full, n - 1);
      assert ([Frame(c, full).1] + tail.1) + Frames(tail.0, full, m).1
          == [Frame(c, full).1] + (tail.1 + Frames(tail.0, full, m).1);
    } else {
      assert [] + Frames(c, full, m).1 == Frames(c, full, m).1;
    }
  }

  /** Committing early, on entry to a call, is the same as committing at the first frame. */
  lemma EarlyCommit(c: Crossfade, full: nat, n: nat)
    requires n > 0
    ensures var (d, changed) := CommitAtDryBoundary(c);
            Frames(c, full, n) == (Frames(d, full, n).0, WithReset(Frames(d, full, n).1, changed))
  {
    var (d, changed) := CommitAtDryBoundary(c);
    assert CommitAtDryBoundary(d) == (d, false);
    assert Frame(c, full).0 == Frame(d, full).0;
    var rest := Frames(Frame(d, full).0, full, n - 1).1;
    assert Frames(d, full, n).1 == [Frame(d, full).1] + rest;
    assert Frames(c, full, n).1 == [Frame(c, full).1] + rest;
    assert WithReset([Frame(d, full).1] + rest, changed) == [Frame(c, full).1] + rest;
  }

  /**
   For one requested mode and reset generation, two calls of n and m frames leave the same state and the
   same frames as one call of n + m: receivers, mixes and receiver resets alike.
   */
  lemma SplitsDoNotMatter(f: Filter, full: nat, mode: Mode, generation: nat, n: nat, m: nat)
    requires Between(f.fade, full) && full > 0 && n > 0 && m > 0
    ensures var (g, first) := Process(f, full, mode, generation, n);
            var (h, rest) := Process(g, full, mode, generation, m);
            Process(f, full, mode, generation, n + m) == (h, first + rest)
  {
    var (entered, reset) := Entered(f, mode, generation);
    var (middle, first) := Frames(entered, full, n);
    EnterKeepsOk(f, full, mode, generation);
    FramesKeepOk(entered, full, n);
    assert Retarget(middle, mode) == (middle, false);
    FramesJoin(entered, full, n, m);
    EarlyCommit(middle, full, m);
    var rest := Frames(middle, full, m).1;
    assert WithReset(first + rest, reset) == WithReset(first, reset) + rest;
  }

  // ----- no click -----

  function Mix(h: Heard): nat {
    if h.Dry? then 0 else h.mix
  }

  /** The mix of the next frame; requests do not change it. */
  function NextMix(c: Crossfade, full: nat): nat {
    if c.active.Off? then 0 else if c.phase.Stable? then full else c.wet
  }

  predicate Near(a: nat, b: nat) {
    -1 <= a - b <= 1
  }

  /** The receiver of `next` was not the one heard in `last`. */
  predicate Introduces(last: Heard, next: Heard) {
    next.Wet? && (last.Dry? || last.receiver != next.receiver)
  }

  predicate Joins(last: Heard, next: Heard) {
    Near(Mix(last), Mix(next)) && (Introduces(last, next) ==> next.mix == 0 && next.reset)
  }

  ghost predicate Smooth(heard: seq<Heard>) {
    forall k | 0 < k < |heard| :: Joins(heard[k - 1], heard[k])
  }

  /** `last` is a frame the crossfade may have just put out. */
  predicate Follows(last: Heard, c: Crossfade, full: nat) {
    && Near(Mix(last), NextMix(c, full))
    && (if last.Dry? then c.active.Off? else c.active == last.receiver)
  }

  /** The first frame of a call joins the last one of the call before, whatever was requested in between. */
  lemma CallJoins(last: Heard, f: Filter, full: nat, mode: Mode, generation: nat)
    requires Between(f.fade, full) && full > 0 && Follows(last, f.fade, full)
    ensures var (c, reset) := Entered(f, mode, generation);
            Joins(last, WithReset([Frame(c, full).1], reset)[0])
  {
  }

  lemma {:induction false} FramesSmooth(c: Crossfade, full: nat, n: nat)
    requires Ok(c, full) && full > 0 && n > 0
    ensures Smooth(Frames(c, full, n).1)
    ensures Follows(Frames(c, full, n).1[n - 1], Frames(c, full, n).0, full)
    decreases n
  {
    FrameKeepsOk(c, full);
    if n > 1 {
      var (d, first) := Frame(c, full);
      FramesSmooth(d, full, n - 1);
      var rest := Frames(d, full, n - 1).1;
      assert rest[0] == Frame(d, full).1;
      assert Frames(c, full, n).1 == [first] + rest;
      forall k | 0 < k < n ensures Joins(([first] + rest)[k - 1], ([first] + rest)[k]) {
        if k > 1 {
          assert Joins(rest[k - 2], rest[k - 1]);
        }
      }
    }
  }

  lemma ProcessSmooth(f: Filter, full: nat, mode: Mode, generation: nat, n: nat)
    requires Between(f.fade, full) && full > 0 && n > 0
    ensures var (g, heard) := Process(f, full, mode, generation, n);
            Smooth(heard) && Follows(heard[n - 1], g.fade, full)
    ensures forall last | Follows(last, f.fade, full) :: Joins(last, Process(f, full, mode, generation, n).1[0])
  {
    var (c, reset) := Entered(f, mode, generation);
    EnterKeepsOk(f, full, mode, generation);
    FramesSmooth(c, full, n);
    var raw := Frames(c, full, n).1;
    var heard := WithReset(raw, reset);
    assert raw[0] == Frame(c, full).1;
    forall k | 0 < k < n ensures Joins(heard[k - 1], heard[k]) {
      assert Joins(raw[k - 1], raw[k]);
    }
    forall last | Follows(last, f.fade, full) ensures Joins(last, heard[0]) {
      CallJoins(last, f, full, mode, generation);
    }
  }

  /** A run: calls of process(), each with the mode and the reset generation it finds. */
  datatype Call = Call(mode: Mode, generation: nat, frames: nat)

  function Run(f: Filter, full: nat, calls: seq<Call>): (Filter, seq<Heard>)
    decreases |calls|
  {
    if calls == [] then (f, [])
    else
      var (g, first) := Process(f, full, calls[0].mode, calls[0].generation, calls[0].frames);
      var (h, rest) := Run(g, full, calls[1..]);
      (h, first + rest)
  }

  /**
   Over any run without a change of source, neighbouring frames differ by at most one step of the mix, and
   a receiver that was not heard in the frame before enters at mix 0 and freshly reset.
   */
  lemma {:induction false} RunIsClickFree(f: Filter, full: nat, calls: seq<Call>)
    requires Between(f.fade, full) && full > 0 && forall i | 0 <= i < |calls| :: calls[i].frames > 0
    ensures Smooth(Run(f, full, calls).1)
    ensures Between(Run(f, full, calls).0.fade, full)
    ensures calls != [] ==> Run(f, full, calls).1 != []
    ensures calls != [] ==>
              forall last | Follows(last, f.fade, full) :: Joins(last, Run(f, full, calls).1[0])
    decreases |calls|
  {
    if calls != [] {
      var call := calls[0];
      ProcessSmooth(f, full, call.mode, call.generation, call.frames);
      ProcessKeepsBetween(f, full, call.mode, call.generation, call.frames);
      var (g, first) := Process(f, full, call.mode, call.generation, call.frames);
      RunIsClickFree(g, full, calls[1..]);
    }
  }

  // ----- a request is met -----

  /** Frames still needed before the crossfade rests. */
  function Distance(c: Crossfade, full: nat): int {
    match c.phase
    case Stable => 0
    case FadeIn => full - c.wet
    case FadeOut => c.wet + if c.target.Off? then 1 else full
  }

  lemma {:induction false} FramesSettle(c: Crossfade, full: nat, n: nat)
    requires Ok(c, full) && full > 0 && n >= Distance(c, full)
    ensures Frames(c, full, n).0.phase.Stable?
    decreases n
  {
    if n > 0 {
      FrameKeepsOk(c, full);
      FramesSettle(Frame(c, full).0, full, n - 1);
    }
  }

  /** However many reversals came before: twice the fade length after the last request, it is all there is. */
  lemma RequestIsMet(f: Filter, full: nat, mode: Mode, generation: nat, n: nat)
    requires Between(f.fade, full) && full > 0 && n >= 2 * full
    ensures Process(f, full, mode, generation, n).0.fade == Reset(mode, full)
  {
    EnterKeepsOk(f, full, mode, generation);
    var c := Entered(f, mode, generation).0;
    FramesSettle(c, full, n);
    FramesKeepOk(c, full, n);
  }

  // ----- samples -----

  /** What the receivers make of each frame of a call. */
  type Receivers = (Mode, nat) -> real

  function Sample(dry: real, h: Heard, k: nat, full: nat, receive: Receivers): real
    requires full > 0
  {
    match h
    case Dry => dry
    case Wet(receiver, mix, _) =>
      var share := mix as real / full as real;
      dry * (1.0 - share) + receive(receiver, k) * share
  }

  /** At mix 0 a frame is dry, at full mix it is the receiver's, and in between it lies on the line between them. */
  lemma SampleIsLinear(dry: real, receiver: Mode, mix: nat, reset: bool, k: nat, full: nat, receive: Receivers)
    requires full > 0 && mix <= full
    ensures var wet, sample := receive(receiver, k), Sample(dry, Wet(receiver, mix, reset), k, full, receive);
            && (sample - dry) * full as real == (wet - dry) * mix as real
            && (mix == 0 ==> sample == dry) && (mix == full ==> sample == wet)
    ensures Sample(dry, Dry, k, full, receive) == dry
  {
    var share := mix as real / full as real;
    assert share * full as real == mix as real;
    var wet := receive(receiver, k);
    assert dry * (1.0 - share) + wet * share - dry == (wet - dry) * share;
  }

  /** A receiver not heard before cannot be heard in its first frame: that frame is the dry signal. */
  lemma NewReceiverEntersUnheard(f: Filter, full: nat, calls: seq<Call>, k: nat, dry: real, at: nat, receive: Receivers)
    requires Between(f.fade, full) && full > 0 && forall i | 0 <= i < |calls| :: calls[i].frames > 0
    requires 0 < k < |Run(f, full, calls).1|
    requires Introduces(Run(f, full, calls).1[k - 1], Run(f, full, calls).1[k])
    ensures Sample(dry, Run(f, full, calls).1[k], at, full, receive) == dry
  {
    RunIsClickFree(f, full, calls);
    var next := Run(f, full, calls).1[k];
    assert Joins(Run(f, full, calls).1[k - 1], next);
    assert next.mix as real / full as real == 0.0;
  }

  // ----- blocks -----

  function MixAt(c: Crossfade, k: nat): int {
    if c.phase.FadeIn? then c.wet + k else c.wet - k
  }

  /** Up to its boundary a fade is a straight line. */
  lemma {:induction false} BlockFrames(c: Crossfade, full: nat, n: nat)
    requires Ok(c, full) && full > 0 && !c.phase.Stable? && n <= FramesUntilBoundary(c, full)
    ensures 0 <= MixAt(c, n) <= full
    ensures Frames(c, full, n).0 == Settled(c.(wet := MixAt(c, n)), full)
    ensures forall k | 0 <= k < n :: 0 <= MixAt(c, k) && Frames(c, full, n).1[k] == Wet(c.active, MixAt(c, k), false)
    decreases n
  {
    if n > 0 {
      var d := Frame(c, full).0;
      if n > 1 {
        BlockFrames(d, full, n - 1);
      }
      var rest := Frames(d, full, n - 1).1;
      forall k | 0 <= k < n ensures 0 <= MixAt(c, k) && Frames(c, full, n).1[k] == Wet(c.active, MixAt(c, k), false) {
        if k > 0 {
          assert MixAt(c, k) == MixAt(d, k - 1);
          assert Frames(c, full, n).1[k] == rest[k - 1];
        }
      }
    }
  }

  lemma {:induction false} StableFrames(c: Crossfade, full: nat, n: nat)
    requires c.phase.Stable?
    ensures Frames(c, full, n).0 == c
    ensures forall k | 0 <= k < n ::
              Frames(c, full, n).1[k] == if c.active.Off? then Dry else Wet(c.active, full, false)
    decreases n
  {
    if n > 0 {
      StableFrames(c, full, n - 1);
      assert Frames(c, full, n).1 == [Frame(c, full).1] + Frames(c, full, n - 1).1;
    }
  }

  /** How the block loop extends the frames it has: `o` frames are done, `c` is current, and n more follow. */
  lemma BlockExtends(entered: Crossfade, full: nat, o: nat, n: nat, reset: bool)
    requires Ok(entered, full) && full > 0 && CommitAtDryBoundary(entered) == (entered, false) && n > 0
    ensures var (c, done) := Frames(entered, full, o);
            var (d, changed) := CommitAtDryBoundary(c);
            var (e, block) := Frames(d, full, n);
            Frames(entered, full, o + n).0 == e
            && WithReset(Frames(entered, full, o + n).1, reset)
               == WithReset(done, reset) + WithReset(block, changed || (o == 0 && reset))
  {
    var (c, done) := Frames(entered, full, o);
    var (d, changed) := CommitAtDryBoundary(c);
    var block := Frames(d, full, n).1;
    FramesJoin(entered, full, o, n);
    EarlyCommit(c, full, n);
    assert WithReset(done + WithReset(block, changed), reset)
        == WithReset(done, reset) + WithReset(block, changed || (o == 0 && reset));
  }

  /** `after` is `before` with the frames from `at` on replaced by what `heard` says of them. */
  ghost predicate Mixed(before: seq<real>, after: seq<real>, at: nat, heard: seq<Heard>, full: nat,
                        receive: Receivers)
    requires full > 0
  {
    && |before| == |after| && at + |heard| <= |after|
    && forall k | 0 <= k < |after| ::
         after[k] == if at <= k < at + |heard| then Sample(before[k], heard[k - at], k, full, receive) else before[k]
  }

  /** A frame that is heard dry by-passes the fade in too. */
  function Input(dry: real, h: Heard, gain: real): real {
    if h.Dry? then dry else Fade.Scaled(dry, gain)
  }

  /** The same for a signal that is faded in on its way to the receivers, frame k by gains[k]. */
  ghost predicate Rendered(before: seq<real>, after: seq<real>, at: nat, heard: seq<Heard>, gains: seq<real>,
                           full: nat, receive: Receivers)
    requires full > 0
  {
    && |before| == |after| == |gains| && at + |heard| <= |after|
    && forall k | 0 <= k < |after| ::
         after[k] == if at <= k < at + |heard|
                     then Sample(Input(before[k], heard[k - at], gains[k]), heard[k - at], k, full, receive)
                     else before[k]
  }

  lemma FadedThenMixed(before: seq<real>, faded: seq<real>, after: seq<real>, ramp: Fade.Ramp, left: Fade.Ramp,
                       at: nat, heard: seq<Heard>, gains: seq<real>, full: nat, receive: Receivers)
    requires full > 0 && at + |heard| <= |gains| == |before| && AllWet(heard)
    requires Fade.FadedIn(ramp, left, before, faded, at, |heard|)
    requires gains[at..at + |heard|] == InputGains(ramp, |heard|)
    requires Mixed(faded, after, at, heard, full, receive)
    ensures Rendered(before, after, at, heard, gains, full, receive)
  {
    hide Sample;
    forall k | at <= k < at + |heard| ensures faded[k] == Input(before[k], heard[k - at], gains[k]) {
      assert gains[k] == gains[at..at + |heard|][k - at];
      assert heard[k - at].Wet?;
    }
  }

  lemma RenderedJoin(a: seq<real>, b: seq<real>, c: seq<real>, first: seq<Heard>, rest: seq<Heard>,
                     gains: seq<real>, full: nat, receive: Receivers)
    requires full > 0 && Rendered(a, b, 0, first, gains, full, receive)
    requires Rendered(b, c, |first|, rest, gains, full, receive)
    ensures Rendered(a, c, 0, first + rest, gains, full, receive)
  {
  }

  lemma RenderedWithReset(a: seq<real>, b: seq<real>, at: nat, heard: seq<Heard>, reset: bool, gains: seq<real>,
                          full: nat, receive: Receivers)
    requires full > 0 && Rendered(a, b, at, heard, gains, full, receive)
    ensures Rendered(a, b, at, WithReset(heard, reset), gains, full, receive)
  {
  }

  lemma DryRendersNothing(a: seq<real>, at: nat, heard: seq<Heard>, gains: seq<real>, full: nat, receive: Receivers)
    requires full > 0 && at + |heard| <= |a| == |gains| && forall k | 0 <= k < |heard| :: heard[k].Dry?
    ensures Rendered(a, a, at, heard, gains, full, receive)
  {
  }

  lemma ResetKeepsWet(heard: seq<Heard>, reset: bool)
    ensures forall k | 0 <= k < |heard| :: WithReset(heard, reset)[k].Wet? <==> heard[k].Wet?
  {
  }

  /** What a block, or the dry rest, adds to what the loop has done so far. */
  lemma LoopExtends(entered: Crossfade, full: nat, o: nat, n: nat, reset: bool, before: seq<real>, middle: seq<real>,
                    after: seq<real>, gains: seq<real>, receive: Receivers)
    requires Ok(entered, full) && full > 0 && CommitAtDryBoundary(entered) == (entered, false) && n > 0
    requires Rendered(before, middle, 0, WithReset(Frames(entered, full, o).1, reset), gains, full, receive)
    requires var d := CommitAtDryBoundary(Frames(entered, full, o).0).0;
             Rendered(middle, after, o, Frames(d, full, n).1, gains, full, receive)
    ensures var (c, done) := Frames(entered, full, o);
            var (d, changed) := CommitAtDryBoundary(c);
            var (e, block) := Frames(d, full, n);
            var heard := WithReset(Frames(entered, full, o + n).1, reset);
            && Frames(entered, full, o + n).0 == e
            && heard == WithReset(done, reset) + WithReset(block, changed || (o == 0 && reset))
            && Rendered(before, after, 0, heard, gains, full, receive)
  {
    hide Rendered, Frames, WithReset, CommitAtDryBoundary, Ok;
    var (c, done) := Frames(entered, full, o);
    var (d, changed) := CommitAtDryBoundary(c);
    var block := Frames(d, full, n).1;
    var late := changed || (o == 0 && reset);
    BlockExtends(entered, full, o, n, reset);
    RenderedWithReset(middle, after, o, block, late, gains, full, receive);
    RenderedJoin(before, middle, after, WithReset(done, reset), WithReset(block, late), gains, full, receive);
  }

  lemma LastIsWet(heard: seq<Heard>)
    requires AllWet(heard) && heard != []
    ensures heard[|heard| - 1].Wet?
  {
  }

  lemma CommitKeepsOk(c: Crossfade, full: nat)
    requires Ok(c, full) && full > 0
    ensures var d := CommitAtDryBoundary(c).0;
            Ok(d, full) && CommitAtDryBoundary(d) == (d, false) && (d.active.Off? ==> d.phase.Stable?)
  {
  }

  lemma NothingDone(c: Crossfade, full: nat, reset: bool, samples: seq<real>, gains: seq<real>, receive: Receivers)
    requires full > 0 && |gains| == |samples|
    ensures Frames(c, full, 0) == (c, []) && WithReset([], reset) == []
    ensures Rendered(samples, samples, 0, [], gains, full, receive)
  {
  }

  // ----- the fade in of the input -----

  ghost predicate AllWet(heard: seq<Heard>) {
    forall k | 0 <= k < |heard| :: heard[k].Wet?
  }

  function InputGains(ramp: Fade.Ramp, n: nat): seq<real> {
    Fade.Gains(Fade.BeginIfRequested(ramp), n)
  }

  /** A call that ends dry gives up the fade in. */
  function InputAfter(ramp: Fade.Ramp, heard: seq<Heard>): Fade.Ramp {
    if heard == [] then ramp
    else if heard[|heard| - 1].Dry? then Fade.NO_RAMP
    else Fade.AfterFrames(Fade.BeginIfRequested(ramp), |heard|)
  }

  lemma {:induction false} NothingRequestedLater(ramp: Fade.Ramp, n: nat)
    requires ramp.requested == 0
    ensures Fade.AfterFrames(ramp, n).requested == 0
    decreases n
  {
    if n > 0 {
      NothingRequestedLater(Fade.NextGain(ramp).0, n - 1);
    }
  }

  /** What is left of the ramp after `o` frames gives the gains from there on. */
  lemma GainsFrom(ramp: Fade.Ramp, o: nat, n: nat)
    ensures var begun := Fade.BeginIfRequested(ramp);
            var left := Fade.AfterFrames(begun, o);
            && Fade.BeginIfRequested(left) == left
            && |InputGains(ramp, o + n)| == o + n && |InputGains(ramp, o)| == o
            && InputGains(ramp, o + n)[..o] == InputGains(ramp, o)
            && InputGains(ramp, o + n)[o..] == InputGains(left, n)
  {
    var begun := Fade.BeginIfRequested(ramp);
    NothingRequestedLater(begun, o);
    Fade.BlocksJoin(begun, o, n);
    Fade.GainsLength(begun, o);
    Fade.GainsLength(begun, o + n);
  }

  predicate EndsWet(heard: seq<Heard>) {
    heard == [] || heard[|heard| - 1].Wet?
  }

  /** While a call is wet, the gains go on from block to block. */
  lemma GainsGoOn(ramp: Fade.Ramp, heard: seq<Heard>, n: nat)
    requires EndsWet(heard)
    ensures |InputGains(ramp, |heard| + n)| == |heard| + n
    ensures InputGains(ramp, |heard| + n)[|heard|..] == InputGains(InputAfter(ramp, heard), n)
    ensures InputAfter(ramp, []) == ramp && EndsWet([])
  {
    GainsFrom(ramp, |heard|, n);
  }

  /** So does the ramp; and a dry rest gives it up. */
  lemma RampGoesOn(ramp: Fade.Ramp, heard: seq<Heard>, block: seq<Heard>, reset: bool)
    requires EndsWet(heard) && block != []
    ensures var more := heard + WithReset(block, reset);
            && InputAfter(ramp, more) == InputAfter(InputAfter(ramp, heard), block)
            && (EndsWet(block) <==> EndsWet(more))
            && (block[|block| - 1].Dry? ==> InputAfter(ramp, more) == Fade.NO_RAMP)
  {
    ResetKeepsWet(block, reset);
    GainsFrom(ramp, |heard|, |block|);
    Fade.BlocksJoin(Fade.BeginIfRequested(ramp), |heard|, |block|);
  }

  /** Once a call is dry it stays dry. */
  lemma {:induction false} DryToTheEnd(c: Crossfade, full: nat, n: nat, k: nat)
    requires Ok(c, full) && full > 0 && k < n && Frames(c, full, n).1[k].Dry?
    ensures forall j | k <= j < n :: Frames(c, full, n).1[j].Dry?
    ensures Frames(c, full, n).0.active.Off? && Frames(c, full, n).0.phase.Stable?
    decreases n
  {
    var (d, first) := Frame(c, full);
    FrameKeepsOk(c, full);
    assert Frames(c, full, n).1 == [first] + Frames(d, full, n - 1).1;
    if k > 0 {
      DryToTheEnd(d, full, n - 1, k - 1);
    } else {
      StableFrames(d, full, n - 1);
    }
  }

  /** The first frame of a call is reset exactly for a new reset generation or a receiver that was not active. */
  lemma FirstFrameResetIff(f: Filter, full: nat, mode: Mode, generation: nat, n: nat)
    requires Between(f.fade, full) && full > 0 && n > 0
    ensures var first := Process(f, full, mode, generation, n).1[0];
            first.Wet? ==> (first.reset <==> generation != f.applied || first.receiver != f.fade.active)
    ensures Process(f, full, mode, generation, n).0.applied == generation
  {
    var entered := Entered(f, mode, generation).0;
    assert Frames(entered, full, n).1[0] == Frame(entered, full).1;
  }

  /**
   Over any run: from the call on in which a new reset generation is seen, no receiver is heard before it has
   been reset, however long the signal stays dry.
   */
  lemma {:induction false} NewGenerationResets(f: Filter, full: nat, calls: seq<Call>, k: nat)
    requires Between(f.fade, full) && full > 0 && forall i | 0 <= i < |calls| :: calls[i].frames > 0
    requires calls != [] && (calls[0].generation != f.applied || f.fade.active.Off?)
    requires k < |Run(f, full, calls).1| && Run(f, full, calls).1[k].Wet?
    requires forall j | 0 <= j < k :: Run(f, full, calls).1[j].Dry?
    ensures Run(f, full, calls).1[k].reset
    decreases |calls|
  {
    var call := calls[0];
    var (g, first) := Process(f, full, call.mode, call.generation, call.frames);
    var rest := Run(g, full, calls[1..]).1;
    FirstFrameResetIff(f, full, call.mode, call.generation, call.frames);
    assert forall j | 0 <= j < call.frames :: Run(f, full, calls).1[j] == first[j];
    if first[0].Dry? {
      var (entered, reset) := Entered(f, call.mode, call.generation);
      EnterKeepsOk(f, full, call.mode, call.generation);
      ResetKeepsWet(Frames(entered, full, call.frames).1, reset);
      DryToTheEnd(entered, full, call.frames, 0);
      ProcessKeepsBetween(f, full, call.mode, call.generation, call.frames);
      assert forall j | 0 <= j < |rest| :: Run(f, full, calls).1[call.frames + j] == rest[j];
      NewGenerationResets(g, full, calls[1..], k - call.frames);
    }
  }

  /**
   Nor does the fade in depend on how the frames are cut into calls: the ramp left over is the same, and so
   is the gain of every frame that reaches a receiver.
   */
  lemma FadeInDoesNotSeeSplits(f: Filter, full: nat, mode: Mode, generation: nat, ramp: Fade.Ramp, n: nat, m: nat)
    requires Between(f.fade, full) && full > 0 && n > 0 && m > 0
    ensures var (g, first) := Process(f, full, mode, generation, n);
            var rest := Process(g, full, mode, generation, m).1;
            var whole := Process(f, full, mode, generation, n + m).1;
            var left := InputAfter(ramp, first);
            && InputAfter(ramp, whole) == InputAfter(left, rest)
            && |InputGains(ramp, n)| == n && |InputGains(left, m)| == m && |InputGains(ramp, n + m)| == n + m
            && forall k | 0 <= k < n + m && whole[k].Wet? ::
                 InputGains(ramp, n + m)[k] == (InputGains(ramp, n) + InputGains(left, m))[k]
  {
    hide Frames;
    SplitsDoNotMatter(f, full, mode, generation, n, m);
    var (g, first) := Process(f, full, mode, generation, n);
    var rest := Process(g, full, mode, generation, m).1;
    var whole := Process(f, full, mode, generation, n + m).1;
    var begun := Fade.BeginIfRequested(ramp);
    GainsFrom(ramp, n, m);
    if first[n - 1].Dry? {
      Fade.GainsLength(Fade.NO_RAMP, m);
      EnterKeepsOk(f, full, mode, generation);
      var (entered, reset) := Entered(f, mode, generation);
      ResetKeepsWet(Frames(entered, full, n + m).1, reset);
      DryToTheEnd(entered, full, n + m, n - 1);
      assert forall k | n - 1 <= k < n + m :: whole[k].Dry?;
      assert rest[m - 1] == whole[n + m - 1];
    } else {
      Fade.GainsLength(Fade.AfterFrames(begun, n), m);
      Fade.BlocksJoin(begun, n, m);
      assert rest[m - 1] == whole[n + m - 1];
      assert InputGains(ramp, n + m) == InputGains(ramp, n) + InputGains(Fade.AfterFrames(begun, n), m);
    }
  }

  // ----- the block loop -----

  class RadioPlayback {
    const full: nat
    var fade: Crossfade
    var applied: nat

    ghost predicate Valid()
      reads this
    {
      full > 0 && Between(fade, full)
    }

    constructor (mode: Mode, full: nat, generation: nat)
      requires full > 0
      ensures Valid() && this.full == full && fade == Reset(mode, full) && applied == generation
    {
      this.full, fade, applied := full, Reset(mode, full), generation;
    }

    /** The block already holds the receiver's output; `dry` is what it held before. */
    method Blend(block: array<real>, dry: seq<real>, at: nat, frames: nat)
      requires full > 0 && Ok(fade, full) && !fade.phase.Stable?
      requires 0 < frames <= FramesUntilBoundary(fade, full)
      requires at + frames <= block.Length && |dry| == frames
      modifies this`fade, block
      ensures fade == Settled(old(fade).(wet := MixAt(old(fade), frames)), full)
      ensures forall k | 0 <= k < block.Length ::
                block[k] == if at <= k < at + frames
                  then var share := MixAt(old(fade), k - at) as real / full as real;
                       dry[k - at] * (1.0 - share) + old(block[k]) * share
                  else old(block[k])
    {
      var i := 0;
      ghost var start := fade;
      var fadingIn := fade.phase.FadeIn?;
      while i < frames
        invariant i <= frames
        invariant fade == start.(wet := MixAt(start, i))
        invariant forall k | 0 <= k < block.Length ::
                    block[k] == if at <= k < at + i
                      then var share := MixAt(start, k - at) as real / full as real;
                           dry[k - at] * (1.0 - share) + old(block[k]) * share
                      else old(block[k])
      {
        var share := fade.wet as real / full as real;
        block[at + i] := dry[i] * (1.0 - share) + block[at + i] * share;
        if fadingIn {
          if fade.wet < full {
            fade := fade.(wet := fade.wet + 1);
          }
        } else if fade.wet > 0 {
          fade := fade.(wet := fade.wet - 1);
        }
        i := i + 1;
      }
      if fade.phase.FadeIn? && fade.wet == full {
        fade := fade.(phase := Stable);
      }
    }

    method RunReceiver(block: array<real>, at: nat, frames: nat, receive: Receivers)
      requires at + frames <= block.Length
      modifies block
      ensures forall k | 0 <= k < block.Length ::
                block[k] == if at <= k < at + frames then receive(fade.active, k) else old(block[k])
    {
      var i := at;
      while i < at + frames
        invariant at <= i <= at + frames
        invariant forall k | 0 <= k < block.Length ::
                    block[k] == if at <= k < i then receive(fade.active, k) else old(block[k])
      {
        block[i] := receive(fade.active, i);
        i := i + 1;
      }
    }

    ghost predicate BlockDone(start: Crossfade, before: seq<real>, after: seq<real>, at: nat, frames: nat,
                              receive: Receivers)
      reads this
      requires full > 0
    {
      var (left, heard) := Frames(start, full, frames);
      fade == left && AllWet(heard) && Mixed(before, after, at, heard, full, receive)
    }

    method SteadyBlock(samples: array<real>, at: nat, frames: nat, receive: Receivers)
      requires full > 0 && fade.phase.Stable? && !fade.active.Off?
      requires at + frames <= samples.Length
      modifies samples
      ensures BlockDone(fade, old(samples[..]), samples[..], at, frames, receive)
    {
      RunReceiver(samples, at, frames, receive);
      StableFrames(fade, full, frames);
      forall k | at <= k < at + frames
        ensures samples[k] == Sample(old(samples[k]), Frames(fade, full, frames).1[k - at], k, full, receive)
      {
      }
    }

    method FadingBlock(samples: array<real>, at: nat, frames: nat, receive: Receivers)
      requires full > 0 && Ok(fade, full) && !fade.phase.Stable?
      requires 0 < frames <= FramesUntilBoundary(fade, full) && at + frames <= samples.Length
      modifies this`fade, samples
      ensures BlockDone(old(fade), old(samples[..]), samples[..], at, frames, receive)
    {
      hide Frames, MixAt, Ok;
      var dry := samples[at..at + frames];
      ghost var start := fade;
      BlockFrames(start, full, frames);
      RunReceiver(samples, at, frames, receive);
      Blend(samples, dry, at, frames);
      forall k | at <= k < at + frames
        ensures samples[k] == Sample(old(samples[k]), Frames(start, full, frames).1[k - at], k, full, receive)
      {
        assert Frames(start, full, frames).1[k - at] == Wet(start.active, MixAt(start, k - at), false);
        assert dry[k - at] == old(samples[k]);
      }
    }

    /** One block: at least one frame, at most the scratch buffer, never past the boundary of a fade. */
    method ProcessBlock(samples: array<real>, at: nat, pipeline: Fade.Pipeline, ghost gains: seq<real>,
                        receive: Receivers)
      returns (frames: nat)
      requires full > 0 && Ok(fade, full) && CommitAtDryBoundary(fade) == (fade, false) && !fade.active.Off?
      requires at < samples.Length == |gains| && gains[at..] == InputGains(pipeline.input, samples.Length - at)
      modifies this`fade, pipeline`input, samples
      ensures 0 < frames <= 2048 && at + frames <= samples.Length
      ensures fade == Frames(old(fade), full, frames).0
      ensures Rendered(old(samples[..]), samples[..], at, Frames(old(fade), full, frames).1, gains, full, receive)
      ensures EndsWet(Frames(old(fade), full, frames).1)
      ensures pipeline.input == InputAfter(old(pipeline.input), Frames(old(fade), full, frames).1)
    {
      hide Frames, Mixed, Rendered, InputGains, Ok, AllWet;
      frames := if SCRATCH_FRAMES < samples.Length - at then SCRATCH_FRAMES else samples.Length - at;
      if !fade.phase.Stable? {
        BlockIsPositive(fade, full);
        var boundary := FramesUntilBoundary(fade, full);
        if boundary < frames {
          frames := boundary;
        }
      }
      ghost var start, before, ramp := fade, samples[..], pipeline.input;
      pipeline.ApplyInputFadeIn(samples, at, frames);
      ghost var faded := samples[..];
      if fade.phase.Stable? {
        SteadyBlock(samples, at, frames, receive);
      } else {
        FadingBlock(samples, at, frames, receive);
      }
      GainsFrom(ramp, frames, samples.Length - at - frames);
      assert gains[at..at + frames] == gains[at..][..frames];
      LastIsWet(Frames(start, full, frames).1);
      FadedThenMixed(before, faded, samples[..], ramp, pipeline.input, at, Frames(start, full, frames).1, gains, full,
                     receive);
    }

    /**
     The loop of process(), from a crossfade whose pending commit is done. `heard` is what the code did: the
     receiver and the mix of each frame, and before which frames it reset a receiver.
     */
    method ProcessBlocks(samples: array<real>, reset: bool, pipeline: Fade.Pipeline, receive: Receivers)
      returns (ghost heard: seq<Heard>)
      requires full > 0 && Ok(fade, full) && CommitAtDryBoundary(fade) == (fade, false)
      modifies this`fade, pipeline`input, samples
      ensures fade == Frames(old(fade), full, samples.Length).0
      ensures heard == WithReset(Frames(old(fade), full, samples.Length).1, reset)
      ensures Rendered(old(samples[..]), samples[..], 0, heard, InputGains(old(pipeline.input), samples.Length), full,
                       receive)
      ensures pipeline.input == InputAfter(old(pipeline.input), heard)
    {
      hide Frames, WithReset, Rendered, CommitAtDryBoundary, Ok, InputGains, InputAfter, EndsWet;
      ghost var entered, before, ramp := fade, samples[..], pipeline.input;
      ghost var gains := InputGains(ramp, samples.Length);
      var resetPending := reset;
      heard := [];
      var offset := 0;
      GainsGoOn(ramp, [], samples.Length);
      NothingDone(entered, full, reset, before, gains, receive);
      while offset < samples.Length
        invariant offset <= samples.Length
        invariant resetPending == (offset == 0 && reset)
        invariant fade == Frames(entered, full, offset).0
        invariant heard == WithReset(Frames(entered, full, offset).1, reset)
        invariant Rendered(before, samples[..], 0, heard, gains, full, receive)
        invariant pipeline.input == InputAfter(ramp, heard)
        invariant EndsWet(heard)
      {
        FramesKeepOk(entered, full, offset);
        CommitKeepsOk(fade, full);
        var (current, changed) := CommitAtDryBoundary(fade);
        fade := current;
        resetPending := resetPending || changed;
        ghost var middle := samples[..];
        if fade.active.Off? {
          pipeline.ClearInputFadeIn();
          ghost var rest := Frames(current, full, samples.Length - offset).1;
          StableFrames(current, full, samples.Length - offset);
          DryRendersNothing(middle, offset, rest, gains, full, receive);
          LoopExtends(entered, full, offset, samples.Length - offset, reset, before, middle, middle, gains, receive);
          RampGoesOn(ramp, heard, rest, resetPending);
          heard := heard + WithReset(rest, resetPending);
          break;
        }
        GainsGoOn(ramp, heard, samples.Length - offset);
        var frames := ProcessBlock(samples, offset, pipeline, gains, receive);
        ghost var block := Frames(current, full, frames).1;
        LoopExtends(entered, full, offset, frames, reset, before, middle, samples[..], gains, receive);
        RampGoesOn(ramp, heard, block, resetPending);
        heard := heard + WithReset(block, resetPending);
        resetPending := false;
        offset := offset + frames;
      }
    }

    /**
     process(): for a buffer of any size the blocks come to exactly the frame-by-frame meaning, and every
     sample is the blend its frame asks for, of the input as it is faded in.
     */
    method ProcessAll(samples: array<real>, mode: Mode, generation: nat, pipeline: Fade.Pipeline, receive: Receivers)
      returns (ghost heard: seq<Heard>)
      requires Valid() && samples.Length > 0
      modifies this, pipeline`input, samples
      ensures Valid()
      ensures (Filter(fade, applied), heard) ==
              Process(Filter(old(fade), old(applied)), full, mode, generation, samples.Length)
      ensures Rendered(old(samples[..]), samples[..], 0, heard, InputGains(old(pipeline.input), samples.Length), full,
                       receive)
      ensures pipeline.input == InputAfter(old(pipeline.input), heard)
    {
      hide Frames, Rendered, InputGains;
      ghost var f := Filter(fade, applied);
      EnterKeepsOk(f, full, mode, generation);
      ProcessKeepsBetween(f, full, mode, generation, samples.Length);
      var (retargeted, started) := Retarget(fade, mode);
      var (entered, committed) := CommitAtDryBoundary(retargeted);
      fade := entered;
      if fade.active.Off? {
        applied := generation;
        ghost var gains := InputGains(pipeline.input, samples.Length);
        GainsFrom(pipeline.input, 0, samples.Length);
        pipeline.ClearInputFadeIn();
        StableFrames(fade, full, samples.Length);
        heard := Frames(fade, full, samples.Length).1;
        DryRendersNothing(samples[..], 0, heard, gains, full, receive);
        return;
      }
      var reset := false;
      if started || committed || generation != applied {
        reset := true;
        applied := generation;
      }
      heard := ProcessBlocks(samples, reset, pipeline, receive);
    }
  }
}
