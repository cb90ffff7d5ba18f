/**
 The request / fade out / commit / fade in protocol of audio/pipeline_transition.cpp. Each function is
 one call of the source; the machines that interleave the calls are SourceSeek and StreamReset.
 */
module PipelineTransition {

  import opened Arithmetic

  datatype Phase = Idle | FadeOutRequested | CommitReady | CommitInProgress

  datatype Transition = Transition(phase: Phase, requestSerial: nat, commitSerial: nat)

  const RESET := Transition(Idle, 0, 0)

  function RequestDiscontinuity(t: Transition): Transition {
    t.(requestSerial := t.requestSerial + 1, phase := FadeOutRequested)
  }

  /** The device callback faded to silence; the newest request may now be committed. */
  function BeginFadeOut(t: Transition): Transition {
    if t.phase.FadeOutRequested? then t.(phase := CommitReady, commitSerial := t.requestSerial) else t
  }

  function BeginCommit(t: Transition): Transition {
    if t.phase.CommitReady? then t.(phase := CommitInProgress) else t
  }

  function FinishCommit(t: Transition): (Transition, bool) {
    if t.commitSerial != t.requestSerial then (t, false)
    else if t.phase.CommitInProgress? || t.phase.CommitReady? then (t.(phase := Idle, commitSerial := 0), true)
    else (t, false)
  }

  predicate Active(t: Transition) {
    !t.phase.Idle?
  }

  predicate WaitingForCommit(t: Transition) {
    t.phase.CommitReady? || t.phase.CommitInProgress?
  }

  /** transitionCommitIsCurrent of audio/queued_audio_source.cpp. */
  predicate CommitIsCurrent(t: Transition) {
    t.phase.CommitInProgress? && t.commitSerial == t.requestSerial
  }

  /** Whatever has been faded out or is being committed is the newest request. */
  predicate SerialsOk(t: Transition) {
    WaitingForCommit(t) ==> t.commitSerial == t.requestSerial
  }

  /**
   A new request puts an end to a commit under way: nothing can be finished, nor a commit begun, until the
   callback has faded out for it; the commit that then begins is the newest one.
   */
  lemma RequestSupersedes(t: Transition)
    requires SerialsOk(t)
    ensures var u := RequestDiscontinuity(t);
            && u.requestSerial == t.requestSerial + 1
            && !CommitIsCurrent(u) && !FinishCommit(u).1 && !WaitingForCommit(BeginCommit(u))
            && CommitIsCurrent(BeginCommit(BeginFadeOut(u)))
  {
  }

  /** A commit that is ready or under way can be finished once, if it is of the newest request. */
  lemma FinishesIff(t: Transition)
    ensures var (u, finished) := FinishCommit(t);
            && (finished <==> t.commitSerial == t.requestSerial && (t.phase.CommitReady? || t.phase.CommitInProgress?))
            && u == (if finished then Transition(Idle, t.requestSerial, 0) else t)
            && !FinishCommit(if finished then u else RequestDiscontinuity(t)).1
  {
  }

  // ----- fades -----

  /** A fade in that is running, and the length of one asked for but not begun. */
  datatype Ramp = Ramp(requested: nat, remaining: nat, total: nat)

  const NO_RAMP := Ramp(0, 0, 0)

  predicate RampOk(r: Ramp) {
    r.remaining <= r.total && (r.remaining == 0 ==> r.total == 0)
  }

  function BeginIfRequested(r: Ramp): Ramp {
    if r.requested == 0 then r else Ramp(0, r.requested, r.requested)
  }

  function NextGain(r: Ramp): (Ramp, real) {
    if r.remaining == 0 || r.total == 0 then (r.(remaining := 0, total := 0), 1.0)
    else
      var remaining := if r.remaining < r.total then r.remaining else r.total;
      var gain := (r.total - remaining + 1) as real / r.total as real;
      (r.(remaining := remaining - 1, total := if remaining == 1 then 0 else r.total), gain)
  }

  /** The gains of the next `n` frames of a ramp already begun. */
  function Gains(r: Ramp, n: nat): seq<real>
    decreases n
  {
    if n == 0 then [] else [NextGain(r).1] + Gains(NextGain(r).0, n - 1)
  }

  function AfterFrames(r: Ramp, n: nat): Ramp
    decreases n
  {
    if n == 0 then r else AfterFrames(NextGain(r).0, n - 1)
  }

  /** The k-th frame from now has the gain its place in the whole ramp gives it, and 1 from the ramp's end on. */
  lemma {:induction false} GainAt(r: Ramp, n: nat, k: nat)
    requires RampOk(r) && k < n
    ensures |Gains(r, n)| == n
    ensures Gains(r, n)[k] == if k < r.remaining then (r.total - r.remaining + k + 1) as real / r.total as real else 1.0
    decreases n
  {
    if k == 0 {
      GainsLength(r, n);
    } else {
      GainAt(NextGain(r).0, n - 1, k - 1);
    }
  }

  lemma {:induction false} GainsLength(r: Ramp, n: nat)
    ensures |Gains(r, n)| == n
    decreases n
  {
    if n > 0 {
      GainsLength(NextGain(r).0, n - 1);
    }
  }

  /** A request begins a whole fade in from silence, whatever was left of an earlier one. */
  lemma RequestBegins(r: Ramp, n: nat, k: nat)
    requires r.requested > 0 && k < n
    ensures var begun := BeginIfRequested(r);
            && RampOk(begun) && begun.requested == 0 && |Gains(begun, n)| == n
            && Gains(begun, n)[k] == if k < r.requested then (k + 1) as real / r.requested as real else 1.0
  {
    GainAt(BeginIfRequested(r), n, k);
  }

  /** Without one, a ramp goes on as it is; and no ramp changes nothing. */
  lemma NoRampChangesNothing(r: Ramp, n: nat, k: nat)
    requires k < n
    ensures r.requested == 0 ==> BeginIfRequested(r) == r
    ensures BeginIfRequested(NO_RAMP) == NO_RAMP && |Gains(NO_RAMP, n)| == n && Gains(NO_RAMP, n)[k] == 1.0
  {
    GainAt(NO_RAMP, n, k);
  }

  /** However the frames are cut into blocks, the ramp is the same. */
  lemma {:induction false} BlocksJoin(r: Ramp, m: nat, n: nat)
    ensures Gains(r, m + n) == Gains(r, m) + Gains(AfterFrames(r, m), n)
    ensures AfterFrames(r, m + n) == AfterFrames(AfterFrames(r, m), n)
    decreases m
  {
    if m > 0 {
      BlocksJoin(NextGain(r).0, m - 1, n);
    }
  }

  /** A fade in of `total` frames rises from silence to 1 in equal steps of 1 / total, and stays there. */
  lemma FadeInStepsAreEqual(total: nat, n: nat, k: nat)
    requires total > 0 && k < n
    ensures |Gains(Ramp(0, total, total), n)| == n
    ensures var gains := Gains(Ramp(0, total, total), n);
            var before := if k == 0 then 0.0 else gains[k - 1];
            gains[k] - before == if k < total then 1.0 / total as real else 0.0
  {
    var r := Ramp(0, total, total);
    GainAt(r, n, k);
    if k > 0 {
      GainAt(r, n, k - 1);
    }
    if k < total {
      SameDenominator(k + 1, k, total);
      if k == 0 {
        assert 0.0 / total as real == 0.0;
      }
    } else if k == total {
      assert total as real / total as real == 1.0;
    }
  }

  lemma SameDenominator(a: nat, b: nat, d: nat)
    requires d > 0
    ensures a as real / d as real - b as real / d as real == (a - b) as real / d as real
  {
  }

  function FadeOutGain(frame: nat, fadeFrames: nat): real {
    if frame < fadeFrames then (fadeFrames - frame - 1) as real / fadeFrames as real else 0.0
  }

  /** A fade out falls from 1 to silence in equal steps and stays silent. */
  lemma FadeOutStepsAreEqual(frame: nat, fadeFrames: nat)
    requires fadeFrames > 0
    ensures var before := if frame == 0 then 1.0 else FadeOutGain(frame - 1, fadeFrames);
            before - FadeOutGain(frame, fadeFrames) == if frame < fadeFrames then 1.0 / fadeFrames as real else 0.0
    ensures FadeOutGain(fadeFrames - 1, fadeFrames) == 0.0
  {
    if frame < fadeFrames {
      SameDenominator(fadeFrames - frame, fadeFrames - frame - 1, fadeFrames);
      if frame == 0 {
        assert fadeFrames as real / fadeFrames as real == 1.0;
      }
    }
  }

  /** A gain of 1 or more leaves the sample as it is. */
  function Scaled(sample: real, gain: real): real {
    if gain >= 1.0 then sample else sample * gain
  }

  /** Scaling is multiplying, for every gain there is; a fade in leaves a sample at its full gain alone. */
  lemma ScaledIsProduct(sample: real, gain: real)
    requires 0.0 <= gain <= 1.0
    ensures Scaled(sample, gain) == sample * gain
  {
  }

  /** The last frame of a fade out is silent, and so is every frame after it. */
  lemma FadeOutEndsSilent(sample: real, frame: nat, fadeFrames: nat)
    requires fadeFrames > 0
    ensures 0.0 <= FadeOutGain(frame, fadeFrames) <= 1.0
    ensures frame + 1 >= fadeFrames ==> Scaled(sample, FadeOutGain(frame, fadeFrames)) == 0.0
  {
    if frame + 1 == fadeFrames {
      FadeOutStepsAreEqual(frame, fadeFrames);
    }
  }

  /** Asking again for a shorter fade does not shorten one already asked for. */
  function Asked(r: Ramp, frames: nat): Ramp {
    if r.requested < frames then r.(requested := frames) else r
  }

  /** The longest of the fades asked for is the one that begins. */
  lemma LongestIsKept(r: Ramp, a: nat, b: nat)
    ensures Asked(r, a) == Ramp(Max(r.requested, a), r.remaining, r.total)
    ensures Asked(Asked(r, a), b) == Asked(r, Max(a, b))
  {
  }

  /** Frames at.. of the buffer are faded in, by the ramp that a request, if there is one, begins anew. */
  ghost predicate FadedIn(before: Ramp, after: Ramp, was: seq<real>, now: seq<real>, at: nat, frames: nat) {
    var begun := BeginIfRequested(before);
    && |now| == |was| && at + frames <= |was|
    && after == (if frames == 0 then before else AfterFrames(begun, frames))
    && |Gains(begun, frames)| == frames
    && forall k | 0 <= k < |was| ::
         now[k] == if at <= k < at + frames then Scaled(was[k], Gains(begun, frames)[k - at]) else was[k]
  }

  /** Scales a block in place; one element stands for one frame. */
  method ApplyFadeIn(ramp: Ramp, samples: array<real>, at: nat, frames: nat) returns (after: Ramp)
    requires at + frames <= samples.Length
    modifies samples
    ensures FadedIn(ramp, after, old(samples[..]), samples[..], at, frames)
  {
    ghost var begun := BeginIfRequested(ramp);
    ghost var gains := Gains(begun, frames);
    GainsLength(begun, frames);
    if frames == 0 {
      return ramp;
    }
    after := BeginIfRequested(ramp);
    for frame := 0 to frames
      invariant after == AfterFrames(begun, frame)
      invariant forall k | 0 <= k < samples.Length ::
                  samples[k] == if at <= k < at + frame then Scaled(old(samples[k]), gains[k - at]) else old(samples[k])
    {
      BlocksJoin(begun, frame, 1);
      GainIsNext(begun, frame, frames);
      var gain := NextGain(after).1;
      after := NextGain(after).0;
      samples[at + frame] := Scaled(samples[at + frame], gain);
    }
  }

  method FadeOutToSilence(samples: array<real>, transitionFrames: nat)
    modifies samples
    ensures forall k | 0 <= k < samples.Length ::
              samples[k] == Scaled(old(samples[k]), FadeOutGain(k, Min(samples.Length, transitionFrames)))
  {
    hide Scaled, FadeOutGain;
    var fadeFrames := Min(samples.Length, transitionFrames);
    for frame := 0 to samples.Length
      invariant forall k | frame <= k < samples.Length :: samples[k] == old(samples[k])
      invariant forall k | 0 <= k < frame :: samples[k] == Scaled(old(samples[k]), FadeOutGain(k, fadeFrames))
    {
      samples[frame] := Scaled(samples[frame], FadeOutGain(frame, fadeFrames));
    }
  }

  lemma GainIsNext(r: Ramp, frame: nat, n: nat)
    requires frame < n
    ensures |Gains(r, n)| == n && Gains(r, n)[frame] == NextGain(AfterFrames(r, frame)).1
  {
    BlocksJoin(r, frame, n - frame);
    GainsLength(r, frame);
    GainsLength(r, n);
  }

  // ----- the shared record -----

  /** The record the threads share; each method is one call. */
  class Pipeline {
    var phase: Phase
    var requestSerial: nat
    var commitSerial: nat
    var input: Ramp
    var output: Ramp

    ghost function Now(): Transition
      reads this
    {
      Transition(phase, requestSerial, commitSerial)
    }

    constructor ()
      ensures Now() == RESET && input == NO_RAMP && output == NO_RAMP
    {
      phase, requestSerial, commitSerial := Idle, 0, 0;
      input, output := NO_RAMP, NO_RAMP;
    }

    /** Also forgets the fades in that were asked for; one that has begun goes on. */
    method Request()
      modifies this
      ensures Now() == RequestDiscontinuity(old(Now()))
      ensures input == old(input).(requested := 0) && output == old(output).(requested := 0)
    {
      input, output := input.(requested := 0), output.(requested := 0);
      requestSerial := requestSerial + 1;
      phase := FadeOutRequested;
    }

    method StartFadeOut() returns (started: bool)
      modifies this`phase, this`commitSerial
      ensures Now() == BeginFadeOut(old(Now())) && started == old(phase).FadeOutRequested?
    {
      started := phase.FadeOutRequested?;
      if started {
        phase := CommitReady;
        commitSerial := requestSerial;
      }
    }

    method StartCommit() returns (started: bool)
      modifies this`phase
      ensures Now() == BeginCommit(old(Now())) && started == old(phase).CommitReady?
    {
      started := phase.CommitReady?;
      if started {
        phase := CommitInProgress;
      }
    }

    /** Also accepts a commit that is only ready: one compare-exchange after the other. */
    method Finish() returns (finished: bool)
      modifies this`phase, this`commitSerial
      ensures (Now(), finished) == FinishCommit(old(Now()))
    {
      if commitSerial != requestSerial {
        return false;
      }
      if phase.CommitInProgress? {
        phase := Idle;
      } else if phase.CommitReady? {
        phase := Idle;
      } else {
        return false;
      }
      commitSerial := 0;
      finished := true;
    }

    method RequestSignalFadeIn(frames: nat)
      modifies this`input, this`output
      ensures input == Asked(old(input), frames) && output == Asked(old(output), frames)
    {
      if input.requested < frames {
        input := input.(requested := frames);
      }
      if output.requested < frames {
        output := output.(requested := frames);
      }
    }

    method ApplyInputFadeIn(samples: array<real>, at: nat, frames: nat)
      requires at + frames <= samples.Length
      modifies this`input, samples
      ensures FadedIn(old(input), input, old(samples[..]), samples[..], at, frames)
    {
      input := ApplyFadeIn(input, samples, at, frames);
    }

    method ClearInputFadeIn()
      modifies this`input
      ensures input == NO_RAMP
    {
      input := NO_RAMP;
    }

    method ApplyOutputFadeIn(samples: array<real>)
      modifies this`output, samples
      ensures FadedIn(old(output), output, old(samples[..]), samples[..], 0, samples.Length)
    {
      output := ApplyFadeIn(output, samples, 0, samples.Length);
    }
  }
}
