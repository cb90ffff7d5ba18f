/**
 Seeks while a decoder worker feeds the pipeline (file playback): the user thread requests, the device
 callback fades out, the worker commits and seeks, the DSP thread resets the transport and finishes.
 */
module SourceSeek {
  import opened PipelineTransition

  // One step is one call of the transition protocol, one seek request, the worker's begin-commit with its
  // backend seek and reset request, one write, or one half of a DSP iteration (it is cut where the receiver
  // runs). `processed` is the processed ring and `decoded` the decoded ring.

  /** A frame and, as history, the request whose seek the decoder had last served when it decoded it. */
  datatype Frame = Frame(served: nat, position: nat)

  datatype Worker =
    | AtTop
    | AwaitingReset(generation: nat)
    | Decoding
    | Writing(frames: seq<Frame>)

  datatype InHand = Nothing | Holding(frames: seq<Frame>)

  /**
   History: `asked` is what the user asked for in request number `transition.requestSerial`, in or out of
   the piece; `served`, `sought` and `refused` describe the worker's last seek.
   */
  datatype State = State(
    transition: Transition,
    seekRequested: bool,
    pendingSeekFrames: nat,
    totalFrames: nat,
    resetRequested: nat,
    resetApplied: nat,
    resetFrame: nat,
    worker: Worker,
    seekCommitPending: bool,
    framePos: nat,
    committingSeek: bool,
    decoded: seq<Frame>,
    processed: seq<Frame>,
    inHand: InHand,
    asked: int,
    served: nat,
    sought: nat,
    refused: bool)

  datatype Step =
    | RequestSeek(target: int)
    | CallbackFadeOut
    | CallbackRead(frames: nat)
    | WorkerTop(seekWorks: bool)
    | WorkerResetSeen
    | WorkerDecode(frames: nat)
    | WorkerWrite(frames: nat)
    | DspBegin(primed: bool, frames: nat)
    | DspEnd(primed: bool)

  predicate Enabled(s: State, step: Step) {
    match step
    case RequestSeek(_) => true
    case CallbackFadeOut => true
    case CallbackRead(n) => !WaitingForCommit(s.transition) && n <= |s.processed|
    case WorkerTop(_) => s.worker.AtTop?
    case WorkerResetSeen => s.worker.AwaitingReset? && s.resetApplied >= s.worker.generation
    case WorkerDecode(_) => s.worker.Decoding?
    case WorkerWrite(n) => s.worker.Writing? && 1 <= n <= |s.worker.frames|
    case DspBegin(_, n) => s.inHand.Nothing? && n <= |s.decoded|
    case DspEnd(_) => s.inHand.Holding?
  }

  function Apply(s: State, step: Step): State
    requires Enabled(s, step)
  {
    match step
    case RequestSeek(target) => AfterRequest(s, target)
    case CallbackFadeOut => s.(transition := BeginFadeOut(s.transition))
    case CallbackRead(n) => s.(processed := s.processed[n..])
    case WorkerTop(seekWorks) => AfterWorkerTop(s, seekWorks)
    case WorkerResetSeen => s.(seekCommitPending := CommitIsCurrent(s.transition), worker := AtTop)
    case WorkerDecode(n) =>
      if n == 0 then s.(worker := AtTop)
      else s.(worker := Writing(seq(n, k requires 0 <= k => Frame(s.served, s.framePos + k))))
    case WorkerWrite(n) => AfterWorkerWrite(s, n)
    case DspBegin(primed, n) => AfterDspBegin(s, primed, n)
    case DspEnd(primed) => AfterDspEnd(s, primed)
  }

  function Clamped(target: int, total: nat): nat {
    var low: nat := if target < 0 then 0 else target;
    if total > 0 && low > total then total else low
  }

  function AfterRequest(s: State, target: int): State {
    s.(pendingSeekFrames := Clamped(target, s.totalFrames),
    seekRequested := true,
    transition := RequestDiscontinuity(s.transition),
    asked := target)
  }

  function AfterWorkerTop(s: State, seekWorks: bool): State {
    var pending := s.seekCommitPending && s.transition.phase.CommitInProgress?;
    if !pending && s.seekRequested && s.transition.phase.CommitReady? then
      AfterSeekCommit(s, if seekWorks then Clamped(s.pendingSeekFrames, s.totalFrames) else 0, seekWorks)
    else if !pending && Active(s.transition) then s.(seekCommitPending := pending)
    else s.(seekCommitPending := pending, worker := Decoding)
  }

  /** The commit begins, the backend stands at `target`, and the transport is to be reset to it. */
  function AfterSeekCommit(s: State, target: nat, seekWorks: bool): State {
    s.(transition := BeginCommit(s.transition),
    seekCommitPending := false,
    framePos := target,
    resetFrame := target,
    resetRequested := s.resetRequested + 1,
    worker := AwaitingReset(s.resetRequested + 1),
    served := s.transition.requestSerial,
    sought := target,
    refused := !seekWorks)
  }

  predicate WriteBlocked(s: State) {
    Active(s.transition) && (!s.seekCommitPending || !s.transition.phase.CommitInProgress?)
  }

  function AfterWorkerWrite(s: State, n: nat): State
    requires s.worker.Writing? && n <= |s.worker.frames|
  {
    if WriteBlocked(s) then s.(worker := AtTop)
    else
      var rest := s.worker.frames[n..];
      s.(decoded := s.decoded + s.worker.frames[..n],
      framePos := s.framePos + n,
      worker := if rest == [] then AtTop else Writing(rest))
  }

  /** finishProcessingCommitWhenPrimed. */
  function AfterFinish(s: State, primed: bool): State {
    if !s.committingSeek then s
    else if !CommitIsCurrent(s.transition) then s.(committingSeek := false)
    else if !primed then s
    else
      var (t, finished) := FinishCommit(s.transition);
      if finished then s.(transition := t, seekRequested := false, committingSeek := false)
      else s.(committingSeek := CommitIsCurrent(t))
  }

  predicate SourceResetIsPending(s: State) {
    s.resetRequested > s.resetApplied
  }

  function AfterReset(s: State): State {
    var applied := s.(resetApplied := s.resetRequested);
    if CommitIsCurrent(s.transition) then
      applied.(decoded := [], processed := [], pendingSeekFrames := s.resetFrame, committingSeek := true)
    else applied
  }

  /** applyPendingSourceReset, or else the iteration up to the receiver. */
  function AfterDspBegin(s: State, primed: bool, n: nat): State
    requires n <= |s.decoded|
  {
    if SourceResetIsPending(s) then AfterReset(s)
    else
      var f := AfterFinish(s, primed);
      if !f.committingSeek && Active(f.transition) then f
      else if n == 0 then f
      else f.(inHand := Holding(s.decoded[..n]), decoded := s.decoded[n..])
  }

  function AfterDspEnd(s: State, primed: bool): State
    requires s.inHand.Holding?
  {
    if SourceResetIsPending(s) then s.(inHand := Nothing)
    else AfterFinish(s.(processed := s.processed + s.inHand.frames, inHand := Nothing), primed)
  }

  predicate Initial(s: State) {
    && s.transition == RESET && !s.seekRequested
    && s.resetRequested == 0 && s.resetApplied == 0
    && s.worker == AtTop && !s.seekCommitPending && !s.committingSeek
    && s.decoded == [] && s.processed == [] && s.inHand == Nothing
    && s.served == 0 && s.asked == s.sought == s.framePos && !s.refused
    && (s.totalFrames > 0 ==> s.framePos <= s.totalFrames)
  }

  predicate Executes(s: State, steps: seq<Step>, last: State)
    decreases |steps|
  {
    if steps == [] then last == s
    else Enabled(s, steps[0]) && Executes(Apply(s, steps[0]), steps[1..], last)
  }

  // ----- invariant -----

  /** Decoded after the newest request's seek, at or behind the frame that seek went to. */
  ghost predicate AllFresh(frames: seq<Frame>, serial: nat, from: nat) {
    forall i | 0 <= i < |frames| :: frames[i].served == serial && frames[i].position >= from
  }

  ghost predicate QueuesFresh(s: State) {
    && AllFresh(s.decoded, s.transition.requestSerial, s.sought)
    && AllFresh(s.processed, s.transition.requestSerial, s.sought)
    && (s.inHand.Holding? ==> AllFresh(s.inHand.frames, s.transition.requestSerial, s.sought))
  }

  function Distance(a: int, b: int): nat {
    if a < b then b - a else a - b
  }

  /** No frame of the piece, the end included, is nearer to what was asked for. Length 0 means it is not known. */
  ghost predicate Nearest(frame: int, asked: int, total: nat) {
    && 0 <= frame && (total > 0 ==> frame <= total)
    && forall q: nat | total > 0 ==> q <= total :: Distance(frame, asked) <= Distance(q, asked)
  }

  lemma ClampedIsNearest(asked: int, total: nat)
    ensures Nearest(Clamped(asked, total), asked, total)
  {
  }

  ghost predicate SoughtNewest(s: State) {
    && s.served == s.transition.requestSerial
    && (if s.refused then s.sought == 0 else Nearest(s.sought, s.asked, s.totalFrames))
  }

  ghost predicate Inv(s: State) {
    && SerialsOk(s.transition)
    && (s.seekRequested <==> Active(s.transition))
    && (s.transition.phase.FadeOutRequested? || s.transition.phase.CommitReady? ==>
        Nearest(s.pendingSeekFrames, s.asked, s.totalFrames))
    && (s.transition.phase.Idle? || s.transition.phase.CommitInProgress? ==> SoughtNewest(s))
    && s.resetApplied <= s.resetRequested
    && (SourceResetIsPending(s) ==>
          s.worker == AwaitingReset(s.resetRequested) && !s.transition.phase.Idle? && s.resetFrame == s.sought)
    && (s.worker.AwaitingReset? ==> s.worker.generation == s.resetRequested)
    && s.framePos >= s.sought
    && (s.worker.Writing? ==> s.worker.frames != [] && AllFresh(s.worker.frames, s.served, s.sought))
    && (s.transition.phase.Idle? ==> QueuesFresh(s) && (s.served > 0 ==> s.pendingSeekFrames == s.sought))
    && (s.transition.phase.CommitInProgress? && !SourceResetIsPending(s) ==>
          s.committingSeek && QueuesFresh(s) && s.pendingSeekFrames == s.sought)
  }

  lemma WorkerTopOk(s: State, seekWorks: bool)
    requires Inv(s) && s.worker.AtTop?
    ensures Inv(AfterWorkerTop(s, seekWorks))
  {
  }

  /** The assertion in queuedAudioSourceRequestSourceReset: when the worker asks for the reset its commit is current. */
  lemma ResetIsRequestedForCurrentCommit(s: State, seekWorks: bool)
    requires Inv(s) && s.worker.AtTop? && AfterWorkerTop(s, seekWorks).worker.AwaitingReset?
    ensures CommitIsCurrent(AfterWorkerTop(s, seekWorks).transition)
    ensures AfterWorkerTop(s, seekWorks).served == s.transition.requestSerial
  {
  }

  lemma WorkerWriteOk(s: State, n: nat)
    requires Inv(s) && Enabled(s, WorkerWrite(n))
    ensures Inv(AfterWorkerWrite(s, n))
  {
  }

  lemma FinishOk(s: State, primed: bool)
    requires Inv(s) && !SourceResetIsPending(s)
    ensures Inv(AfterFinish(s, primed))
    ensures AfterFinish(s, primed) == s.(transition := AfterFinish(s, primed).transition,
                                         seekRequested := AfterFinish(s, primed).seekRequested,
                                         committingSeek := AfterFinish(s, primed).committingSeek)
  {
  }

  lemma DspBeginOk(s: State, primed: bool, n: nat)
    requires Inv(s) && Enabled(s, DspBegin(primed, n))
    ensures Inv(AfterDspBegin(s, primed, n))
  {
    if !SourceResetIsPending(s) {
      FinishOk(s, primed);
    }
  }

  lemma DspEndOk(s: State, primed: bool)
    requires Inv(s) && s.inHand.Holding?
    ensures Inv(AfterDspEnd(s, primed))
  {
    if !SourceResetIsPending(s) {
      FinishOk(s.(processed := s.processed + s.inHand.frames, inHand := Nothing), primed);
    }
  }

  lemma CallbackStepOk(s: State, step: Step)
    requires Inv(s) && Enabled(s, step) && (step.CallbackFadeOut? || step.CallbackRead?)
    ensures Inv(Apply(s, step))
  {
  }

  lemma RequestOk(s: State, target: int)
    requires Inv(s)
    ensures Inv(AfterRequest(s, target))
  {
  }

  lemma WorkerResetSeenOk(s: State, step: Step)
    requires Inv(s) && Enabled(s, step) && step.WorkerResetSeen?
    ensures Inv(Apply(s, step))
  {
  }

  lemma WorkerDecodeOk(s: State, step: Step)
    requires Inv(s) && Enabled(s, step) && step.WorkerDecode?
    ensures Inv(Apply(s, step))
  {
  }

  lemma StepKeepsInv(s: State, step: Step)
    requires Inv(s) && Enabled(s, step)
    ensures Inv(Apply(s, step))
  {
    match step
    case RequestSeek(target) => RequestOk(s, target);
    case CallbackFadeOut => CallbackStepOk(s, step);
    case CallbackRead(_) => CallbackStepOk(s, step);
    case WorkerTop(seekWorks) => WorkerTopOk(s, seekWorks);
    case WorkerWrite(n) => WorkerWriteOk(s, n);
    case DspBegin(primed, n) => DspBeginOk(s, primed, n);
    case DspEnd(primed) => DspEndOk(s, primed);
    case WorkerResetSeen => WorkerResetSeenOk(s, step);
    case WorkerDecode(_) => WorkerDecodeOk(s, step);
  }

  lemma {:induction false} RunKeepsInv(s: State, steps: seq<Step>, last: State)
    requires Inv(s) && Executes(s, steps, last)
    ensures Inv(last)
    decreases |steps|
  {
    if steps != [] {
      StepKeepsInv(s, steps[0]);
      RunKeepsInv(Apply(s, steps[0]), steps[1..], last);
    }
  }

  /**
   Every run, however often new seeks arrive during a fade out or a commit: the transition is idle exactly
   when no seek is requested, and then every frame in either ring or in the DSP thread's hands was decoded
   after the seek of the newest request, which went to the frame of the piece nearest to what the user asked
   for (or to 0 if the backend refused it). The position the transport was reset to is that frame too.
   */
  lemma NoStaleAudioSurvivesASeek(s: State, steps: seq<Step>, last: State)
    requires Initial(s) && Executes(s, steps, last)
    ensures last.transition.phase.Idle? <==> !last.seekRequested
    ensures last.transition.phase.Idle? ==> SoughtNewest(last) && QueuesFresh(last)
    ensures last.transition.phase.Idle? && last.served > 0 ==> last.pendingSeekFrames == last.sought
  {
    RunKeepsInv(s, steps, last);
  }

  /** A request is never forgotten: it stays pending until a step finishes a commit that served it and is primed. */
  lemma RequestsEndServed(s: State, step: Step)
    requires Inv(s) && Enabled(s, step)
    requires s.seekRequested && !Apply(s, step).seekRequested
    ensures ((step.DspBegin? && step.primed) || (step.DspEnd? && step.primed)) && CommitIsCurrent(s.transition)
    ensures Apply(s, step).served == s.transition.requestSerial == Apply(s, step).transition.requestSerial
    ensures s.resetApplied == s.resetRequested
  {
  }

  /** And a primed iteration does finish it, once the transport has been reset. */
  lemma PrimedCommitFinishes(s: State, n: nat)
    requires Inv(s) && Enabled(s, DspBegin(true, n)) && CommitIsCurrent(s.transition) &&
             s.resetApplied == s.resetRequested
    ensures var t := Apply(s, DspBegin(true, n));
            t.transition.phase.Idle? && !t.seekRequested && !t.committingSeek
  {
  }

  // ----- every seek can be carried out -----

  lemma {:induction false} ExecutesAppend(s: State, first: seq<Step>, middle: State, second: seq<Step>, last: State)
    requires Executes(s, first, middle) && Executes(middle, second, last)
    ensures Executes(s, first + second, last)
    decreases |first|
  {
    if first == [] {
      assert first + second == second;
    } else {
      ExecutesAppend(Apply(s, first[0]), first[1..], middle, second, last);
      assert (first + second)[1..] == first[1..] + second;
    }
  }

  /** `last` is a state the machine can come to from `s` without another request and with a backend that can seek. */
  ghost predicate Leads(s: State, last: State) {
    exists steps :: Executes(s, steps, last) && Undemanding(steps)
  }

  ghost predicate Undemanding(steps: seq<Step>) {
    forall i | 0 <= i < |steps| :: !steps[i].RequestSeek? && steps[i] != WorkerTop(false)
  }

  lemma Begins(s: State)
    ensures Leads(s, s)
  {
    assert Executes(s, [], s) && Undemanding([]);
  }

  /** One more step of a run. */
  lemma Then(s: State, middle: State, step: Step) returns (last: State)
    requires Leads(s, middle) && Inv(middle) && Enabled(middle, step) && !step.RequestSeek? && step != WorkerTop(false)
    ensures last == Apply(middle, step) && Inv(last) && Leads(s, last)
  {
    hide Inv;
    last := Apply(middle, step);
    var steps :| Executes(s, steps, middle) && Undemanding(steps);
    assert Executes(last, [], last);
    ExecutesAppend(s, steps, middle, [step], last);
    assert Undemanding(steps + [step]);
    StepKeepsInv(middle, step);
  }

  /** The newest request has yet to be committed. */
  predicate Unserved(s: State) {
    s.transition.phase.FadeOutRequested? || s.transition.phase.CommitReady?
  }

  predicate AtRest(s: State) {
    s.worker.AtTop? && s.inHand.Nothing?
  }

  /** The reset the worker waits for is applied, and it goes on. */
  lemma ResetIsSeen(s: State, middle: State) returns (last: State)
    requires Leads(s, middle) && Inv(middle) && middle.worker.AwaitingReset? && middle.inHand.Nothing?
    ensures Leads(s, last) && Inv(last) && AtRest(last) && last.asked == middle.asked
    ensures last.transition == middle.transition && last.served == middle.served && last.sought == middle.sought
    ensures last.refused == middle.refused
  {
    hide Leads, Inv, Nearest, AfterFinish;
    last := middle;
    if SourceResetIsPending(last) {
      last := Then(s, last, DspBegin(true, 0));
    }
    WaitingIsOver(last);
    last := Then(s, last, WorkerResetSeen);
  }

  lemma WaitingIsOver(s: State)
    requires Inv(s) && s.worker.AwaitingReset? && !SourceResetIsPending(s)
    ensures Enabled(s, WorkerResetSeen)
  {
  }

  lemma IterationEnds(s: State) returns (last: State)
    requires Inv(s)
    ensures Leads(s, last) && Inv(last) && last.inHand.Nothing? && last.asked == s.asked
    ensures Unserved(s) ==> Unserved(last)
  {
    Begins(s);
    hide Leads, Inv, Nearest;
    last := s;
    if last.inHand.Holding? {
      last := Then(s, last, DspEnd(true));
    }
  }

  /** Worker and DSP thread come to the tops of their loops. */
  lemma CallsEnd(s: State) returns (last: State)
    requires Inv(s)
    ensures Leads(s, last) && Inv(last) && AtRest(last) && last.asked == s.asked
    ensures Unserved(s) ==> Unserved(last)
  {
    hide Leads, Inv, Nearest, AfterFinish;
    last := IterationEnds(s);
    if last.worker.AwaitingReset? {
      last := ResetIsSeen(s, last);
    } else if last.worker.Decoding? {
      last := Then(s, last, WorkerDecode(0));
    } else if last.worker.Writing? {
      FramesAreLeft(last);
      last := Then(s, last, WorkerWrite(|last.worker.frames|));
    }
  }

  lemma FramesAreLeft(s: State)
    requires Inv(s) && s.worker.Writing?
    ensures s.worker.frames != []
  {
  }

  /** The newest seek is faded out for, committed by the worker and reset by the DSP thread. */
  lemma SeekIsCommitted(s: State, middle: State) returns (last: State)
    requires Leads(s, middle) && Inv(middle) && AtRest(middle)
    ensures Leads(s, last) && Inv(last) && AtRest(last) && last.asked == middle.asked
    ensures last.transition.phase.Idle? || last.transition.phase.CommitInProgress?
    ensures Unserved(middle) ==> !last.refused
  {
    hide Leads, QueuesFresh, Nearest;
    last := middle;
    if last.transition.phase.FadeOutRequested? {
      last := Then(s, last, CallbackFadeOut);
    }
    if last.transition.phase.CommitReady? {
      assert last.seekRequested;
      last := Then(s, last, WorkerTop(true));
      assert last.worker.AwaitingReset?;
      assert last.transition.phase.CommitInProgress?;
      last := ResetIsSeen(s, last);
    }
  }

  /** And finished by the DSP thread. */
  lemma SeekIsServed(s: State, middle: State) returns (last: State)
    requires Leads(s, middle) && Inv(middle) && AtRest(middle)
    ensures Leads(s, last) && Inv(last) && AtRest(last) && last.asked == middle.asked && last.transition.phase.Idle?
    ensures Unserved(middle) ==> !last.refused
  {
    hide Leads, QueuesFresh, Nearest;
    last := SeekIsCommitted(s, middle);
    if last.transition.phase.CommitInProgress? {
      last := Then(s, last, DspBegin(true, 0));
    }
  }

  /**
   No state is a dead end: from every state a run can reach, the threads can carry out the newest request and come to
   rest, if only they go on; if it has yet to be committed and the backend can seek, at the frame asked for.
   */
  lemma SeeksCanBeServed(first: State, steps: seq<Step>, s: State) returns (last: State)
    requires Initial(first) && Executes(first, steps, s)
    ensures Leads(s, last) && last.transition.phase.Idle? && !last.seekRequested && AtRest(last)
    ensures last.asked == s.asked && SoughtNewest(last) && QueuesFresh(last)
    ensures Unserved(s) ==> Nearest(last.sought, last.asked, last.totalFrames)
  {
    hide Leads;
    RunKeepsInv(first, steps, s);
    var top := CallsEnd(s);
    last := SeekIsServed(s, top);
  }

  /** A request can come at any time. It is for the nearest frame, and leaves all that is queued for the reset. */
  lemma RequestIsRecorded(s: State, target: int)
    ensures Enabled(s, RequestSeek(target))
    ensures var t := Apply(s, RequestSeek(target));
            && t.asked == target && t.seekRequested && Nearest(t.pendingSeekFrames, target, s.totalFrames)
            && t.transition.phase.FadeOutRequested? && t.transition.requestSerial == s.transition.requestSerial + 1
            && t == s.(asked := target, seekRequested := true, pendingSeekFrames := t.pendingSeekFrames,
                       transition := t.transition)
  {
    ClampedIsNearest(target, s.totalFrames);
  }

  /** Until the reset of a request, the worker gives up what it has in hand, and the DSP thread takes nothing new. */
  lemma RequestStopsOldAudio(s: State, n: nat, primed: bool)
    requires Inv(s) && Active(s.transition) && !s.transition.phase.CommitInProgress?
    ensures Enabled(s, WorkerWrite(n)) ==> Apply(s, WorkerWrite(n)) == s.(worker := AtTop)
    ensures s.worker.AtTop? ==> !Apply(s, WorkerTop(true)).worker.Decoding?
    ensures Enabled(s, DspBegin(primed, n)) ==>
              var t := Apply(s, DspBegin(primed, n));
              t.inHand.Nothing? && t.decoded == s.decoded && t.processed == s.processed && t.transition == s.transition
  {
  }

  /** A write may stop anywhere and goes on from there. */
  lemma WritesJoin(s: State, n: nat, m: nat)
    requires s.worker.Writing? && 0 < n && 0 < m && n + m <= |s.worker.frames| && !WriteBlocked(s)
    ensures var t := Apply(s, WorkerWrite(n));
            Enabled(t, WorkerWrite(m)) && Apply(t, WorkerWrite(m)) == Apply(s, WorkerWrite(n + m))
  {
    var frames := s.worker.frames;
    assert frames[n..][..m] == frames[n..n + m] && frames[n..][m..] == frames[n + m..];
    assert frames[..n] + frames[n..n + m] == frames[..n + m];
    assert s.decoded + frames[..n] + frames[n..n + m] == s.decoded + frames[..n + m];
  }

  /** The transition lets audio through: nothing is going on, or a commit is being primed. */
  predicate Open(s: State) {
    || (s.transition.phase.Idle? && !s.committingSeek)
    || (s.transition.phase.CommitInProgress? && s.seekCommitPending && s.committingSeek)
  }

  function DecodedNext(s: State, frames: nat): seq<Frame> {
    seq(frames, k requires 0 <= k => Frame(s.served, s.framePos + k))
  }

  /** The worker decodes the next frames and queues them. */
  lemma WorkerFlows(s: State, frames: nat) returns (last: State)
    requires Inv(s) && AtRest(s) && Open(s) && !SourceResetIsPending(s) && frames > 0
    ensures Leads(s, last) && Inv(last)
    ensures last == s.(decoded := s.decoded + DecodedNext(s, frames), framePos := s.framePos + frames,
                       seekCommitPending := last.seekCommitPending)
    ensures !s.transition.phase.Idle? ==> last.seekCommitPending
  {
    Begins(s);
    hide Leads, Inv, Nearest;
    last := Then(s, s, WorkerTop(true));
    last := Then(s, last, WorkerDecode(frames));
    last := Then(s, last, WorkerWrite(frames));
  }

  /** The DSP thread takes all that is decoded to the processed ring, primed or not. */
  lemma IterationFlows(s: State, middle: State) returns (last: State)
    requires Leads(s, middle) && Inv(middle) && AtRest(middle) && Open(middle) && !SourceResetIsPending(middle)
    requires middle.decoded != []
    ensures Leads(s, last) && Inv(last)
    ensures last == middle.(decoded := [], processed := middle.processed + middle.decoded)
  {
    OpenIsCurrent(middle);
    hide Leads, Inv, Nearest;
    last := Then(s, middle, DspBegin(false, |middle.decoded|));
    last := Then(s, last, DspEnd(false));
  }

  lemma OpenIsCurrent(s: State)
    requires Inv(s) && Open(s)
    ensures s.committingSeek ==> CommitIsCurrent(s.transition)
  {
  }

  /**
   When nothing is going on, and while a commit is being primed, what the worker decodes passes in order through both
   rings; the callback takes it once there is no commit to wait for.
   */
  lemma AudioFlows(s: State, frames: nat) returns (queued: State)
    requires Inv(s) && AtRest(s) && Open(s) && !SourceResetIsPending(s) && frames > 0
    ensures Leads(s, queued) && Inv(queued)
    ensures queued.processed == s.processed + (s.decoded + DecodedNext(s, frames)) && queued.decoded == []
    ensures queued.framePos == s.framePos + frames && queued.transition == s.transition
    ensures forall n: nat | n <= |queued.processed| && s.transition.phase.Idle? ::
              Enabled(queued, CallbackRead(n))
              && Apply(queued, CallbackRead(n)) == queued.(processed := queued.processed[n..])
    ensures forall n: nat | !s.transition.phase.Idle? :: !Enabled(queued, CallbackRead(n))
  {
    var written := WorkerFlows(s, frames);
    hide Leads, Inv, Nearest;
    queued := IterationFlows(s, written);
  }

  // ----- why the two tests of a finish must be one step -----

  /** finishProcessingCommitWhenPrimed with its currency test made some time earlier. */
  function FinishWithoutRecheck(s: State): State {
    var (t, finished) := FinishCommit(s.transition);
    if finished then s.(transition := t, seekRequested := false, committingSeek := false) else s
  }

  /**
   At a finer grain the property is lost: let the commit be found current, then let a new request arrive
   and fade out before the finish. FinishCommit also accepts CommitReady, so exactly then the request is
   dropped unserved; if the phase is anything else the late finish is harmless.
   */
  lemma LateFinishDropsRequestIff(s: State, target: int, fadesOut: bool)
    requires Inv(s) && CommitIsCurrent(s.transition)
    ensures var requested := AfterRequest(s, target);
            var late := if fadesOut then requested.(transition := BeginFadeOut(requested.transition)) else requested;
            var finished := FinishWithoutRecheck(late);
            && late.seekRequested && late.served != late.transition.requestSerial
            && (!finished.seekRequested <==> fadesOut)
            && (!fadesOut ==> finished == late)
  {
  }

  // ----- the shared record -----

  lemma FinishKeepsQueues(s: State, primed: bool)
    ensures AfterFinish(s, primed).decoded == s.decoded && AfterFinish(s, primed).inHand == s.inHand
  {
  }

  /** AudioState as the three threads update it in place; the history is kept beside it. */
  class AudioState {
    const pipeline: Pipeline
    const totalFrames: nat
    var seekRequested: bool
    var pendingSeekFrames: nat
    var resetRequested: nat
    var resetApplied: nat
    var resetFrame: nat
    var worker: Worker
    var seekCommitPending: bool
    var framePos: nat
    var committingSeek: bool
    var decoded: seq<Frame>
    var processed: seq<Frame>
    var inHand: InHand
    ghost var asked: int
    ghost var served: nat
    ghost var sought: nat
    ghost var refused: bool

    ghost function Now(): State
      reads this, pipeline
    {
      State(pipeline.Now(), seekRequested, pendingSeekFrames, totalFrames, resetRequested, resetApplied, resetFrame,
            worker, seekCommitPending, framePos, committingSeek, decoded, processed, inHand, asked, served,
            sought, refused)
    }

    constructor (totalFrames: nat)
      ensures Initial(Now()) && Now().totalFrames == totalFrames && fresh(pipeline)
    {
      this.totalFrames := totalFrames;
      pipeline := new Pipeline();
      seekRequested, pendingSeekFrames, resetRequested, resetApplied, resetFrame := false, 0, 0, 0, 0;
      worker, seekCommitPending, framePos, committingSeek := AtTop, false, 0, false;
      decoded, processed, inHand := [], [], Nothing;
      asked, served, sought, refused := 0, 0, 0, false;
    }

    method RequestAudioSeekFrame(target: int)
      modifies this, pipeline
      ensures Now() == AfterRequest(old(Now()), target)
    {
      pendingSeekFrames := Clamped(target, totalFrames);
      seekRequested := true;
      pipeline.Request();
      asked := target;
    }

    /** Commits the seek that has been faded out and asks for a transport reset. */
    method CommitSeek(target: nat, seekWorks: bool)
      modifies this, pipeline
      ensures Now() == AfterSeekCommit(old(Now()), target, seekWorks)
    {
      hide BeginCommit;
      var started := pipeline.StartCommit();
      seekCommitPending, framePos, resetFrame := false, target, target;
      resetRequested := resetRequested + 1;
      worker := AwaitingReset(resetRequested);
      served, sought, refused := old(pipeline.requestSerial), target, !seekWorks;
    }

    /** The head of the worker loop: commit a seek that has been faded out, wait, or go on decoding. */
    method ServeSeek(seekWorks: bool)
      requires worker.AtTop?
      modifies this, pipeline
      ensures Now() == AfterWorkerTop(old(Now()), seekWorks)
    {
      hide Clamped, AfterSeekCommit;
      if seekRequested && pipeline.phase.CommitReady? {
        CommitSeek(if seekWorks then Clamped(pendingSeekFrames, totalFrames) else 0, seekWorks);
        return;
      }
      seekCommitPending := seekCommitPending && pipeline.phase.CommitInProgress?;
      if seekCommitPending || pipeline.phase.Idle? {
        worker := Decoding;
      }
    }

    method WriteSome(n: nat)
      requires worker.Writing? && n <= |worker.frames|
      modifies this
      ensures Now() == AfterWorkerWrite(old(Now()), n)
    {
      if !pipeline.phase.Idle? && (!seekCommitPending || !pipeline.phase.CommitInProgress?) {
        worker := AtTop;
        return;
      }
      decoded := decoded + worker.frames[..n];
      framePos := framePos + n;
      var rest := worker.frames[n..];
      worker := if rest == [] then AtTop else Writing(rest);
    }

    method FinishProcessingCommitWhenPrimed(primed: bool)
      modifies this, pipeline
      ensures Now() == AfterFinish(old(Now()), primed)
    {
      if !committingSeek {
        return;
      }
      if !CommitIsCurrent(Transition(pipeline.phase, pipeline.requestSerial, pipeline.commitSerial)) {
        committingSeek := false;
        return;
      }
      if !primed {
        return;
      }
      var finished := pipeline.Finish();
      if finished {
        seekRequested := false;
      }
      committingSeek := CommitIsCurrent(Transition(pipeline.phase, pipeline.requestSerial, pipeline.commitSerial));
    }

    /** A pending reset replaces the whole transport if its commit is still current. */
    method ApplyPendingSourceReset()
      modifies this
      ensures Now() == AfterReset(old(Now()))
    {
      resetApplied := resetRequested;
      if CommitIsCurrent(Transition(pipeline.phase, pipeline.requestSerial, pipeline.commitSerial)) {
        decoded, processed := [], [];
        pendingSeekFrames := resetFrame;
        committingSeek := true;
      }
    }

    /** The DSP thread up to the receiver. */
    method BeginIteration(primed: bool, n: nat)
      requires inHand.Nothing? && n <= |decoded|
      modifies this, pipeline
      ensures Now() == AfterDspBegin(old(Now()), primed, n)
    {
      hide AfterFinish, AfterReset;
      if resetRequested > resetApplied {
        ApplyPendingSourceReset();
        return;
      }
      FinishKeepsQueues(Now(), primed);
      FinishProcessingCommitWhenPrimed(primed);
      if !committingSeek && !pipeline.phase.Idle? {
        return;
      }
      if n > 0 {
        inHand := Holding(decoded[..n]);
        decoded := decoded[n..];
      }
    }

    /** After the receiver: a chunk that a reset has overtaken is dropped. */
    method EndIteration(primed: bool)
      requires inHand.Holding?
      modifies this, pipeline
      ensures Now() == AfterDspEnd(old(Now()), primed)
    {
      var chunk := inHand.frames;
      inHand := Nothing;
      if resetRequested > resetApplied {
        return;
      }
      processed := processed + chunk;
      FinishProcessingCommitWhenPrimed(primed);
    }
  }
}
