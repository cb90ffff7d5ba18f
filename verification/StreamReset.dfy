/**
 Stream resets while an external stream feeds the pipeline (audio/queued_audio_source.cpp): the stream's
 owner requests a reset with a new serial, the device callback fades out, the DSP thread commits it.
 */
module StreamReset {
  import opened PipelineTransition

  // Requests and commits are cut at the locks: a request takes the reset lock, records the reset, starts the
  // discontinuity and only then announces the generation; a commit looks, claims the transition and then
  // takes the locks. Writers append an anchor and publish its frames under the queue lock. Before the owner
  // replaces the playback it cancels what is pending, fades out and takes the commit for itself; the
  // replacement ends the run.

  datatype Reset = Reset(generation: nat, serial: int, discardUntilUs: nat, framePosition: nat,
                         resetPlaybackPosition: bool)

  /** The owner inside a request, holding the reset lock, or draining the pipeline for a replacement. */
  datatype Requester = NoRequest | Recorded | Begun | Cancelled | Draining

  /** A writer call: past its unlocked test, inside the queue lock, or between its anchor and its frames. */
  datatype Writer = NoWrite | Tested(serial: int) | Locked(serial: int) | Appended(serial: int)

  datatype Dsp = AtTop | Claiming | Committing | Past | Holding(frames: seq<int>)

  /** Frames and anchors are represented by the serial they were written with. */
  datatype Queues = Queues(decoded: seq<int>, decodedAnchors: seq<int>, processed: seq<int>, processedAnchors: seq<int>)

  datatype State = State(
    transition: Transition,
    pending: Reset,
    requestedGeneration: nat,
    appliedGeneration: nat,
    applied: Reset,
    requester: Requester,
    writer: Writer,
    dsp: Dsp,
    committingReset: bool,
    streamSerial: int,
    queues: Queues)

  datatype Step =
    | RecordRequest(serial: int, discardUntilUs: int, framePosition: nat, resetPlaybackPosition: bool)
    | BeginDiscontinuity
    | AnnounceRequest
    | CancelResets
    | DrainDiscontinuity
    | DrainCommit
    | CallbackFadeOut
    | CallbackRead(frames: nat, anchors: nat)
    | WriterTest(serial: int)
    | WriterLock
    | WriterAppend(timestamped: bool)
    | WriterPublish(frames: nat)
    | DspTop
    | DspClaim
    | DspCommit
    | DspRest(primed: bool, frames: nat)
    | DspEnd(primed: bool, retired: nat, issued: nat)

  predicate HoldsQueueLock(w: Writer) {
    w.Locked? || w.Appended?
  }

  predicate HoldsResetLock(r: Requester) {
    r.Recorded? || r.Begun?
  }

  predicate Drains(r: Requester) {
    r.Cancelled? || r.Draining?
  }

  predicate Enabled(s: State, step: Step) {
    match step
    case RecordRequest(_, _, _, _) => s.requester.NoRequest?
    case BeginDiscontinuity => s.requester.Recorded?
    case AnnounceRequest => s.requester.Begun?
    case CancelResets => s.requester.NoRequest?
    case DrainDiscontinuity => s.requester.Cancelled?
    case DrainCommit => s.requester.Draining?
    case CallbackFadeOut => true
    case CallbackRead(n, a) =>
      !WaitingForCommit(s.transition) && n <= |s.queues.processed| && a <= |s.queues.processedAnchors|
    case WriterTest(_) => s.writer.NoWrite?
    case WriterLock => s.writer.Tested?
    case WriterAppend(_) => s.writer.Locked?
    case WriterPublish(_) => s.writer.Appended?
    case DspTop => s.dsp.AtTop?
    case DspClaim => s.dsp.Claiming?
    case DspCommit => s.dsp.Committing? && !HoldsResetLock(s.requester) && !HoldsQueueLock(s.writer)
    case DspRest(_, n) => s.dsp.Past? && n <= |s.queues.decoded|
    case DspEnd(_, retired, issued) =>
      s.dsp.Holding? && retired <= |s.queues.decodedAnchors| && issued <= |s.queues.decodedAnchors|
  }

  function Apply(s: State, step: Step): State
    requires Enabled(s, step)
  {
    match step
    case RecordRequest(serial, discardUntilUs, framePosition, resetPlaybackPosition) =>
      var discard := if discardUntilUs < 0 then 0 else discardUntilUs;
      s.(pending := Reset(s.pending.generation + 1, serial, discard, framePosition, resetPlaybackPosition),
         requester := Recorded)
    case BeginDiscontinuity => s.(transition := RequestDiscontinuity(s.transition), requester := Begun)
    case AnnounceRequest => s.(requestedGeneration := s.pending.generation, requester := NoRequest)
    case CancelResets => s.(appliedGeneration := s.requestedGeneration, requester := Cancelled)
    case DrainDiscontinuity => s.(transition := RequestDiscontinuity(s.transition), requester := Draining)
    case DrainCommit => s.(transition := BeginCommit(s.transition))
    case CallbackFadeOut => s.(transition := BeginFadeOut(s.transition))
    case CallbackRead(n, a) =>
      s.(queues := s.queues.(processed := s.queues.processed[n..], processedAnchors := s.queues.processedAnchors[a..]))
    case WriterTest(serial) => if serial != s.streamSerial then s else s.(writer := Tested(serial))
    case WriterLock =>
      if s.writer.serial != s.streamSerial then s.(writer := NoWrite) else s.(writer := Locked(s.writer.serial))
    case WriterAppend(timestamped) =>
      s.(writer := Appended(s.writer.serial),
      queues := if timestamped then s.queues.(decodedAnchors := s.queues.decodedAnchors + [s.writer.serial])
                else s.queues)
    case WriterPublish(n) =>
      s.(writer := NoWrite, queues := s.queues.(decoded := s.queues.decoded + seq(n, _ => s.writer.serial)))
    case DspTop =>
      if StreamResetCanBegin(s) then s.(dsp := Claiming) else s.(dsp := Past)
    case DspClaim =>
      if s.transition.phase.CommitReady? then s.(transition := BeginCommit(s.transition), dsp := Committing)
      else s.(dsp := Past)
    case DspCommit => AfterCommit(s)
    case DspRest(primed, n) => AfterRest(s, primed, n)
    case DspEnd(primed, retired, issued) => AfterEnd(s, primed, retired, issued)
  }

  predicate StreamResetCanBegin(s: State) {
    s.requestedGeneration > s.appliedGeneration && s.transition.phase.CommitReady?
  }

  /** applyPendingStreamReset from the lock on; a request superseded meanwhile is left for the next round. */
  function AfterCommit(s: State): State {
    if s.requestedGeneration <= s.appliedGeneration
       || s.pending.generation != s.requestedGeneration
       || !CommitIsCurrent(s.transition)
    then s.(dsp := AtTop)
    else
      s.(queues := Queues([], [], [], []),
      streamSerial := s.pending.serial,
      applied := s.pending,
      appliedGeneration := s.pending.generation,
      committingReset := true,
      dsp := AtTop)
  }

  function AfterFinish(s: State, primed: bool): State {
    if !s.committingReset then s
    else if !CommitIsCurrent(s.transition) then s.(committingReset := false)
    else if !primed then s
    else
      var (t, finished) := FinishCommit(s.transition);
      if finished then s.(transition := t, committingReset := false)
      else s.(committingReset := CommitIsCurrent(t))
  }

  function AfterRest(s: State, primed: bool, n: nat): State
    requires n <= |s.queues.decoded|
  {
    var f := AfterFinish(s, primed);
    if !f.committingReset && Active(f.transition) then f.(dsp := AtTop)
    else if n == 0 then f.(dsp := AtTop)
    else
      var q := s.queues;
      var read := f.(queues := q.(decoded := q.decoded[n..]));
      if StreamResetCanBegin(read) then read.(dsp := AtTop)
      else read.(dsp := Holding(q.decoded[..n]))
  }

  /** The anchors a chunk re-issues and those it retires are both leading parts of the decoded timeline. */
  function AfterEnd(s: State, primed: bool, retired: nat, issued: nat): State
    requires s.dsp.Holding? && retired <= |s.queues.decodedAnchors| && issued <= |s.queues.decodedAnchors|
  {
    if StreamResetCanBegin(s) then s.(dsp := AtTop)
    else
      var q := s.queues;
      AfterFinish(
        s.(dsp := AtTop,
        queues := q.(processed := q.processed + s.dsp.frames,
        processedAnchors := q.processedAnchors + q.decodedAnchors[..issued],
        decodedAnchors := q.decodedAnchors[retired..])),
        primed)
  }

  predicate Initial(s: State) {
    && s.transition == RESET
    && s.pending.generation == 0 && s.requestedGeneration == 0 && s.appliedGeneration == 0 && s.applied == s.pending
    && s.requester == NoRequest && s.writer == NoWrite && s.dsp == AtTop && !s.committingReset
    && s.queues == Queues([], [], [], [])
  }

  predicate Executes(s: State, steps: seq<Step>, last: State)
    decreases |steps|
  {
    if steps == [] then last == s
    else Enabled(s, steps[0]) && Executes(Apply(s, steps[0]), steps[1..], last)
  }

  // ----- invariant -----

  ghost predicate All(serials: seq<int>, serial: int) {
    forall i | 0 <= i < |serials| :: serials[i] == serial
  }

  /** Nothing queued, in hand or half written belongs to another stream. */
  ghost predicate OneStream(s: State) {
    && All(s.queues.decoded, s.streamSerial)
    && All(s.queues.decodedAnchors, s.streamSerial)
    && All(s.queues.processed, s.streamSerial)
    && All(s.queues.processedAnchors, s.streamSerial)
    && (s.dsp.Holding? ==> All(s.dsp.frames, s.streamSerial))
    && (HoldsQueueLock(s.writer) ==> s.writer.serial == s.streamSerial)
  }

  /** Only a cancellation lets the applied generation run ahead of the reset that was applied. */
  ghost predicate GenerationsOk(s: State) {
    && s.appliedGeneration <= s.requestedGeneration
    && s.pending.generation == s.requestedGeneration + (if HoldsResetLock(s.requester) then 1 else 0)
    && s.applied.generation <= s.appliedGeneration
    && (s.applied.generation < s.appliedGeneration ==> Drains(s.requester))
    && (Drains(s.requester) ==> s.appliedGeneration == s.requestedGeneration)
    && (s.pending.generation == s.applied.generation ==> s.applied == s.pending)
    && (s.applied.generation > 0 ==> s.streamSerial == s.applied.serial)
  }

  ghost predicate PhaseOk(s: State) {
    && SerialsOk(s.transition)
    && (s.transition.phase.Idle? ==> s.requestedGeneration == s.appliedGeneration && !s.requester.Begun?)
    && (!Drains(s.requester) ==>
          && (s.transition.phase.FadeOutRequested? || s.transition.phase.CommitReady? ==>
              s.requestedGeneration > s.appliedGeneration || s.requester.Begun?)
          && (s.dsp.Claiming? || s.dsp.Committing? ==>
              s.requestedGeneration > s.appliedGeneration && Active(s.transition))
          && (s.transition.phase.CommitInProgress? && !s.dsp.Committing? ==>
                s.committingReset && s.requestedGeneration == s.appliedGeneration && !s.requester.Begun?))
  }

  ghost predicate Inv(s: State) {
    OneStream(s) && GenerationsOk(s) && PhaseOk(s)
  }

  lemma RequestStepOk(s: State, step: Step)
    requires Inv(s) && Enabled(s, step) && (step.RecordRequest? || step.BeginDiscontinuity? || step.AnnounceRequest?)
    ensures Inv(Apply(s, step))
  {
  }

  lemma DrainStepOk(s: State, step: Step)
    requires Inv(s) && Enabled(s, step) && (step.CancelResets? || step.DrainDiscontinuity? || step.DrainCommit?)
    ensures Inv(Apply(s, step))
  {
  }

  lemma CallbackStepOk(s: State, step: Step)
    requires Inv(s) && Enabled(s, step) && (step.CallbackFadeOut? || step.CallbackRead?)
    ensures Inv(Apply(s, step))
  {
  }

  lemma WriterStepOk(s: State, step: Step)
    requires Inv(s) && Enabled(s, step) &&
             (step.WriterTest? || step.WriterLock? || step.WriterAppend? || step.WriterPublish?)
    ensures Inv(Apply(s, step))
  {
  }

  lemma ClaimStepOk(s: State, step: Step)
    requires Inv(s) && Enabled(s, step) && (step.DspTop? || step.DspClaim?)
    ensures Inv(Apply(s, step))
  {
  }

  lemma CommittedOk(s: State)
    requires Inv(s) && Enabled(s, DspCommit)
    ensures Inv(AfterCommit(s))
  {
  }

  lemma FinishOk(s: State, primed: bool)
    requires Inv(s) && !s.dsp.Claiming? && !s.dsp.Committing?
    ensures Inv(AfterFinish(s, primed))
    ensures AfterFinish(s, primed).queues == s.queues && AfterFinish(s, primed).dsp == s.dsp
  {
  }

  lemma TakeOk(s: State, n: nat)
    requires Inv(s) && s.dsp.Past? && n <= |s.queues.decoded|
    ensures var q := s.queues;
            var read := s.(queues := q.(decoded := q.decoded[n..]));
            && Inv(s.(dsp := AtTop)) && Inv(read.(dsp := AtTop)) && Inv(read.(dsp := Holding(q.decoded[..n])))
  {
  }

  lemma RestOk(s: State, primed: bool, n: nat)
    requires Inv(s) && Enabled(s, DspRest(primed, n))
    ensures Inv(AfterRest(s, primed, n))
  {
    hide Inv, AfterFinish, Active;
    FinishOk(s, primed);
    TakeOk(AfterFinish(s, primed), n);
  }

  lemma EndOk(s: State, primed: bool, retired: nat, issued: nat)
    requires Inv(s) && Enabled(s, DspEnd(primed, retired, issued))
    ensures Inv(AfterEnd(s, primed, retired, issued))
  {
    if !StreamResetCanBegin(s) {
      var q := s.queues;
      FinishOk(
        s.(dsp := AtTop,
        queues := q.(processed := q.processed + s.dsp.frames,
        processedAnchors := q.processedAnchors + q.decodedAnchors[..issued],
        decodedAnchors := q.decodedAnchors[retired..])),
        primed);
    }
  }

  lemma StepKeepsInv(s: State, step: Step)
    requires Inv(s) && Enabled(s, step)
    ensures Inv(Apply(s, step))
  {
    match step
    case RecordRequest(_, _, _, _) => RequestStepOk(s, step);
    case BeginDiscontinuity => RequestStepOk(s, step);
    case AnnounceRequest => RequestStepOk(s, step);
    case CancelResets => DrainStepOk(s, step);
    case DrainDiscontinuity => DrainStepOk(s, step);
    case DrainCommit => DrainStepOk(s, step);
    case CallbackFadeOut => CallbackStepOk(s, step);
    case CallbackRead(_, _) => CallbackStepOk(s, step);
    case DspTop => ClaimStepOk(s, step);
    case DspClaim => ClaimStepOk(s, step);
    case DspCommit => CommittedOk(s);
    case DspRest(primed, n) => RestOk(s, primed, n);
    case DspEnd(primed, retired, issued) => EndOk(s, primed, retired, issued);
    case _ => WriterStepOk(s, step);
  }

  lemma {:induction false} RunKeepsInv(s: State, steps: seq<Step>, last: State)
    requires Inv(s) && Executes(s, steps, last)
    ensures Inv(last)
    decreases |steps|
  {
    if steps != [] {
      StepKeepsInv(s, steps[0]);
      RunKeepsInv(Apply(s, steps[0]), steps[1..], last);
    }
  }

  /**
   Every run: an idle transition means that no announced reset waits any more. The newest one is the one
   applied, and the stream is its stream, unless the owner has cancelled it to replace the playback.
   */
  lemma ResetsAreNotLost(s: State, steps: seq<Step>, last: State)
    requires Initial(s) && Executes(s, steps, last) && last.transition.phase.Idle?
    ensures last.appliedGeneration == last.requestedGeneration
    ensures last.requester.NoRequest? ==> last.applied == last.pending
    ensures Drains(last.requester) && last.applied != last.pending ==> last.applied.generation < last.pending.generation
    ensures last.applied.generation > 0 ==> last.streamSerial == last.applied.serial
  {
    RunKeepsInv(s, steps, last);
  }

  /** Once the owner has cancelled the resets, the stream stays what it was, whatever commit is under way. */
  lemma {:induction false} CancelledResetsAreNotApplied(s: State, before: seq<Step>, t: State, after: seq<Step>,
                                                        last: State)
    requires Initial(s) && Executes(s, before, t) && Drains(t.requester) && Executes(t, after, last)
    ensures last.applied == t.applied && last.streamSerial == t.streamSerial && Drains(last.requester)
  {
    RunKeepsInv(s, before, t);
    DrainKeepsStream(t, after, last);
  }

  lemma {:induction false} DrainKeepsStream(s: State, steps: seq<Step>, last: State)
    requires Inv(s) && Drains(s.requester) && Executes(s, steps, last)
    ensures last.applied == s.applied && last.streamSerial == s.streamSerial && Drains(last.requester)
    decreases |steps|
  {
    hide Inv;
    if steps != [] {
      StepKeepsInv(s, steps[0]);
      DrainStepKeepsStream(s, steps[0]);
      DrainKeepsStream(Apply(s, steps[0]), steps[1..], last);
    }
  }

  lemma DrainStepKeepsStream(s: State, step: Step)
    requires Inv(s) && Drains(s.requester) && Enabled(s, step)
    ensures var t := Apply(s, step);
            t.applied == s.applied && t.streamSerial == s.streamSerial && Drains(t.requester)
  {
  }

  /** Every run, every state: frames and anchors of two streams never meet anywhere in the pipeline. */
  lemma StreamsAreNotMixed(s: State, steps: seq<Step>, last: State)
    requires Initial(s) && Executes(s, steps, last)
    ensures OneStream(last)
  {
    RunKeepsInv(s, steps, last);
  }

  /** A reset is applied at most once, in order, and only by a commit that carries its own serial. */
  lemma GenerationsAdvanceByCommit(s: State, step: Step)
    requires Inv(s) && Enabled(s, step)
    ensures var t := Apply(s, step);
            && s.appliedGeneration <= t.appliedGeneration && s.applied.generation <= t.applied.generation
            && (t.streamSerial != s.streamSerial ==> t.applied != s.applied)
            && (t.applied != s.applied ==>
                  && step.DspCommit? && t.applied == s.pending && t.streamSerial == s.pending.serial
                  && s.appliedGeneration < t.applied.generation == t.appliedGeneration == s.requestedGeneration)
  {
  }

  /** A commit ends only in a primed iteration of the DSP thread, as the newest one. */
  lemma OnlyPrimedCommitsFinish(s: State, step: Step)
    requires Inv(s) && Enabled(s, step) && !s.transition.phase.Idle? && Apply(s, step).transition.phase.Idle?
    ensures (step.DspRest? && step.primed) || (step.DspEnd? && step.primed)
    ensures s.committingReset && CommitIsCurrent(s.transition) && !Apply(s, step).committingReset
  {
  }

  /** And a primed iteration does end it. */
  lemma PrimedCommitFinishes(s: State, n: nat)
    requires Inv(s) && Enabled(s, DspRest(true, n)) && s.committingReset && CommitIsCurrent(s.transition)
    ensures var t := Apply(s, DspRest(true, n));
            t.transition.phase.Idle? && !t.committingReset
  {
  }

  // ----- every reset can be carried out -----

  lemma {:induction false} ExecutesAppend(s: State, first: seq<Step>, middle: State, second: seq<Step>, last: State)
    requires Executes(s, first, middle) && Executes(middle, second, last)
    ensures Executes(s, first + second, last)
    decreases |first|
  {
    if first == [] {
      assert first + second == second;
    } else {
      ExecutesAppend(Apply(s, first[0]), first[1..], middle, second, last);
      assert (first + second)[1..] == first[1..] + second;
    }
  }

  /** `last` is a state the machine can come to from `s` with nobody asking for anything new. */
  ghost predicate Leads(s: State, last: State) {
    exists steps :: Executes(s, steps, last) && Undemanding(steps)
  }

  ghost predicate Undemanding(steps: seq<Step>) {
    forall i | 0 <= i < |steps| :: !steps[i].RecordRequest? && !steps[i].CancelResets?
  }

  lemma Begins(s: State)
    ensures Leads(s, s)
  {
    assert Executes(s, [], s) && Undemanding([]);
  }

  /** One more step of a run. */
  lemma Then(s: State, middle: State, step: Step) returns (last: State)
    requires Leads(s, middle) && Inv(middle) && Enabled(middle, step) && !step.RecordRequest? && !step.CancelResets?
    ensures last == Apply(middle, step) && Inv(last) && Leads(s, last)
  {
    hide Inv;
    last := Apply(middle, step);
    var steps :| Executes(s, steps, middle) && Undemanding(steps);
    assert Executes(last, [], last);
    ExecutesAppend(s, steps, middle, [step], last);
    assert Undemanding(steps + [step]);
    StepKeepsInv(middle, step);
  }

  /** Owner and writer come to the end of their calls. */
  lemma CallsEnd(s: State) returns (last: State)
    requires Inv(s) && !Drains(s.requester)
    ensures Leads(s, last) && Inv(last) && last.requester.NoRequest? && last.writer.NoWrite?
    ensures last.pending == s.pending
  {
    Begins(s);
    hide Leads, Inv;
    last := s;
    if last.requester.Recorded? {
      last := Then(s, last, BeginDiscontinuity);
    }
    if last.requester.Begun? {
      last := Then(s, last, AnnounceRequest);
    }
    if last.writer.Tested? {
      last := Then(s, last, WriterLock);
    }
    if last.writer.Locked? {
      last := Then(s, last, WriterAppend(false));
    }
    if last.writer.Appended? {
      last := Then(s, last, WriterPublish(0));
    }
  }

  /** And the DSP thread to the top of its loop. */
  lemma IterationEnds(s: State, middle: State) returns (last: State)
    requires Leads(s, middle) && Inv(middle) && middle.requester.NoRequest? && middle.writer.NoWrite?
    ensures Leads(s, last) && Inv(last) && last.requester.NoRequest? && last.writer.NoWrite? && last.dsp.AtTop?
    ensures last.pending == middle.pending
  {
    hide Leads, Inv, FinishCommit;
    last := middle;
    if last.dsp.Claiming? {
      last := Then(s, last, DspClaim);
    }
    if last.dsp.Committing? {
      last := Then(s, last, DspCommit);
    } else if last.dsp.Past? {
      last := Then(s, last, DspRest(true, 0));
    } else if last.dsp.Holding? {
      last := Then(s, last, DspEnd(true, 0, 0));
    }
  }

  /** From there on the newest reset is faded out for and committed. */
  lemma ResetIsCommitted(s: State, middle: State) returns (last: State)
    requires Leads(s, middle) && Inv(middle)
    requires middle.requester.NoRequest? && middle.writer.NoWrite? && middle.dsp.AtTop?
    ensures Leads(s, last) && Inv(last)
    ensures last.requester.NoRequest? && last.writer.NoWrite? && last.dsp.AtTop? && last.pending == middle.pending
    ensures last.transition.phase.Idle? || last.transition.phase.CommitInProgress?
  {
    hide Leads, OneStream;
    last := middle;
    if last.transition.phase.FadeOutRequested? {
      last := Then(s, last, CallbackFadeOut);
    }
    if last.transition.phase.CommitReady? {
      last := Then(s, last, DspTop);
      last := Then(s, last, DspClaim);
      last := Then(s, last, DspCommit);
    }
  }

  /** And finished. */
  lemma ResetIsServed(s: State, middle: State) returns (last: State)
    requires Leads(s, middle) && Inv(middle)
    requires middle.requester.NoRequest? && middle.writer.NoWrite? && middle.dsp.AtTop?
    ensures Leads(s, last) && Inv(last)
    ensures last.requester.NoRequest? && last.writer.NoWrite? && last.dsp.AtTop? && last.transition.phase.Idle?
    ensures last.pending == middle.pending
  {
    hide Leads, OneStream;
    last := ResetIsCommitted(s, middle);
    if last.transition.phase.CommitInProgress? {
      last := Then(s, last, DspTop);
      last := Then(s, last, DspRest(true, 0));
    }
  }

  /**
   No state is a dead end: from every state a run can reach, unless its playback is being replaced, the threads can
   carry out the newest recorded reset and come to rest with it applied, if only they go on.
   */
  lemma ResetsCanBeServed(first: State, steps: seq<Step>, s: State) returns (last: State)
    requires Initial(first) && Executes(first, steps, s) && !Drains(s.requester)
    ensures Leads(s, last) && last.transition.phase.Idle?
    ensures last.applied == last.pending == s.pending &&
            (s.pending.generation > 0 ==> last.streamSerial == s.pending.serial)
    ensures last.requester.NoRequest? && last.writer.NoWrite? && last.dsp.AtTop?
  {
    hide Leads;
    RunKeepsInv(first, steps, s);
    var free := CallsEnd(s);
    var top := IterationEnds(s, free);
    last := ResetIsServed(s, top);
  }

  /** A request is recorded with a new generation, no negative threshold, and the rest as it was asked for. */
  lemma RequestIsRecorded(s: State, serial: int, discardUntilUs: int, framePosition: nat, resetPlaybackPosition: bool)
    requires s.requester.NoRequest?
    ensures var t := Apply(s, RecordRequest(serial, discardUntilUs, framePosition, resetPlaybackPosition));
            && t.requester.Recorded? && t == s.(pending := t.pending, requester := t.requester)
            && t.pending.generation == s.pending.generation + 1 && t.pending.serial == serial
            && t.pending.framePosition == framePosition && t.pending.resetPlaybackPosition == resetPlaybackPosition
            && (discardUntilUs >= 0 ==> t.pending.discardUntilUs == discardUntilUs)
            && (discardUntilUs < 0 ==> t.pending.discardUntilUs == 0)
  {
  }

  /** A writer of the stream queues its frames behind its anchor. */
  lemma WriteFlows(s: State, frames: nat) returns (last: State)
    requires Inv(s) && s.writer.NoWrite?
    ensures Leads(s, last) && Inv(last)
    ensures last == s.(queues := s.queues.(decoded := s.queues.decoded + seq(frames, _ => s.streamSerial),
                                           decodedAnchors := s.queues.decodedAnchors + [s.streamSerial]))
  {
    Begins(s);
    hide Leads, Inv;
    last := Then(s, s, WriterTest(s.streamSerial));
    last := Then(s, last, WriterLock);
    last := Then(s, last, WriterAppend(true));
    last := Then(s, last, WriterPublish(frames));
  }

  /** The DSP thread takes all that is decoded to the processed queue. */
  lemma IterationFlows(s: State, middle: State, retired: nat) returns (last: State)
    requires Leads(s, middle) && Inv(middle) && middle.transition.phase.Idle? && middle.dsp.AtTop?
    requires !middle.committingReset && middle.queues.decoded != [] && retired <= |middle.queues.decodedAnchors|
    ensures Leads(s, last) && Inv(last)
    ensures var q := middle.queues;
            last == middle.(queues := Queues([], q.decodedAnchors[retired..], q.processed + q.decoded,
                                             q.processedAnchors + q.decodedAnchors))
  {
    hide Leads, Inv;
    last := Then(s, middle, DspTop);
    last := Then(s, last, DspRest(true, |middle.queues.decoded|));
    last := Then(s, last, DspEnd(true, retired, |middle.queues.decodedAnchors|));
  }

  /** At rest, what a writer of the stream writes passes through both queues to the callback, and nothing else does. */
  lemma AudioFlows(s: State, frames: nat) returns (queued: State, last: State)
    requires Inv(s) && s.transition.phase.Idle? && s.requester.NoRequest? && s.writer.NoWrite? && s.dsp.AtTop?
    requires !s.committingReset && frames > 0
    ensures Leads(s, queued) && Leads(s, last)
    ensures var q, anchor := s.queues, [s.streamSerial];
            && queued == s.(queues := Queues([], anchor,
                                             q.processed + (q.decoded + seq(frames, _ => s.streamSerial)),
                                             q.processedAnchors + (q.decodedAnchors + anchor)))
            && last == s.(queues := Queues([], anchor, [], []))
    ensures forall serial | serial != s.streamSerial :: Apply(s, WriterTest(serial)) == s
  {
    hide Leads, Inv;
    var written := WriteFlows(s, frames);
    queued := IterationFlows(s, written, |s.queues.decodedAnchors|);
    last := Then(s, queued, CallbackRead(|queued.queues.processed|, |queued.queues.processedAnchors|));
  }

  /** A writer that the stream has left behind meanwhile is turned away under the lock. */
  lemma StaleWriterIsRefused(s: State)
    requires s.writer.Tested?
    ensures Apply(s, WriterLock) ==
            s.(writer := if s.writer.serial == s.streamSerial then Locked(s.writer.serial) else NoWrite)
  {
  }

  /** A chunk without a time stamp leaves no anchor. */
  lemma UnstampedLeavesNoAnchor(s: State)
    requires s.writer.Locked?
    ensures Apply(s, WriterAppend(false)) == s.(writer := Appended(s.writer.serial))
  {
  }

  /**
   A reset that has been faded out for is claimed at the top of the DSP thread's loop, and then only. Until it is, the
   thread takes nothing new, and what it has in hand is dropped once the reset can begin.
   */
  lemma RequestStopsOldAudio(s: State, primed: bool, n: nat, retired: nat, issued: nat)
    requires Inv(s) && !Drains(s.requester)
    ensures s.dsp.AtTop? ==>
              Apply(s, DspTop).dsp ==
              if s.transition.phase.CommitReady? && s.requestedGeneration > s.appliedGeneration then Claiming else Past
    ensures s.dsp.Claiming? && !s.transition.phase.CommitReady? ==> Apply(s, DspClaim) == s.(dsp := Past)
    ensures Enabled(s, DspRest(primed, n)) && Active(s.transition) && !s.transition.phase.CommitInProgress? ==>
              var t := Apply(s, DspRest(primed, n));
              t.dsp.AtTop? && t.queues == s.queues && t.transition == s.transition && !t.committingReset
    ensures Enabled(s, DspEnd(primed, retired, issued))
            && s.transition.phase.CommitReady? && s.requestedGeneration > s.appliedGeneration ==>
              Apply(s, DspEnd(primed, retired, issued)) == s.(dsp := AtTop)
  {
  }

  /** Before a replacement the owner can always take the commit for itself. */
  lemma DrainTakesCommit(s: State) returns (last: State)
    requires Inv(s) && s.requester.NoRequest?
    ensures var cancelled := Apply(s, CancelResets);
            Leads(cancelled, last) && last.requester.Draining? && CommitIsCurrent(last.transition)
    ensures last.queues == s.queues && last.streamSerial == s.streamSerial && last.applied == s.applied
  {
    var cancelled := Apply(s, CancelResets);
    StepKeepsInv(s, CancelResets);
    Begins(cancelled);
    hide Leads, Inv;
    last := Then(cancelled, cancelled, DrainDiscontinuity);
    last := Then(cancelled, last, CallbackFadeOut);
    last := Then(cancelled, last, DrainCommit);
  }

  // ----- the shared record -----

  class AudioState {
    const pipeline: Pipeline
    var pending: Reset
    var requestedGeneration: nat
    var appliedGeneration: nat
    var applied: Reset
    var requester: Requester
    var writer: Writer
    var dsp: Dsp
    var committingReset: bool
    var streamSerial: int
    var queues: Queues

    ghost function Now(): State
      reads this, pipeline
    {
      State(pipeline.Now(), pending, requestedGeneration, appliedGeneration, applied, requester, writer, dsp,
            committingReset, streamSerial, queues)
    }

    constructor (serial: int)
      ensures Initial(Now()) && streamSerial == serial && fresh(pipeline)
    {
      pipeline := new Pipeline();
      pending, applied := Reset(0, serial, 0, 0, false), Reset(0, serial, 0, 0, false);
      requestedGeneration, appliedGeneration, requester, writer, dsp := 0, 0, NoRequest, NoWrite, AtTop;
      committingReset, streamSerial, queues := false, serial, Queues([], [], [], []);
    }

    /** applyPendingStreamReset from the lock on. */
    method CommitReset()
      modifies this
      ensures Now() == AfterCommit(old(Now()))
    {
      dsp := AtTop;
      if requestedGeneration <= appliedGeneration || pending.generation != requestedGeneration {
        return;
      }
      if !CommitIsCurrent(Transition(pipeline.phase, pipeline.requestSerial, pipeline.commitSerial)) {
        return;
      }
      queues := Queues([], [], [], []);
      streamSerial := pending.serial;
      applied := pending;
      appliedGeneration := pending.generation;
      committingReset := true;
    }

    method FinishProcessingCommitWhenPrimed(primed: bool)
      modifies this, pipeline
      ensures Now() == AfterFinish(old(Now()), primed)
    {
      if !committingReset {
        return;
      }
      if !CommitIsCurrent(Transition(pipeline.phase, pipeline.requestSerial, pipeline.commitSerial)) {
        committingReset := false;
        return;
      }
      if !primed {
        return;
      }
      var finished := pipeline.Finish();
      committingReset := CommitIsCurrent(Transition(pipeline.phase, pipeline.requestSerial, pipeline.commitSerial));
    }

    method PublishChunk(primed: bool, retired: nat, issued: nat)
      requires dsp.Holding? && retired <= |queues.decodedAnchors| && issued <= |queues.decodedAnchors|
      modifies this, pipeline
      ensures Now() == AfterEnd(old(Now()), primed, retired, issued)
    {
      var chunk := dsp.frames;
      dsp := AtTop;
      if requestedGeneration > appliedGeneration && pipeline.phase.CommitReady? {
        return;
      }
      var anchors := queues.decodedAnchors;
      queues := queues.(processed := queues.processed + chunk,
                        processedAnchors := queues.processedAnchors + anchors[..issued],
                        decodedAnchors := anchors[retired..]);
      FinishProcessingCommitWhenPrimed(primed);
    }
  }
}
