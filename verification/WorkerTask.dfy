/**
 WorkerTask of app/media_processing_coordinator.cpp: one background task at a time, an owner that may
 cancel it, and a commit barrier the operation has to pass before it publishes. Each locked region and each
 read of the cancellation flag is one step; the owner and the worker interleave them in any order.
 */
module WorkerTask {

  import opened Options

  datatype Outcome = Succeeded | Failed | Cancelled

  datatype Contract = RequiresPublishedOutput | NoPublishedOutput

  datatype Activity = Activity(id: nat, cancellable: bool, cancelling: bool)

  datatype Completion = Completion(id: nat, outcome: Outcome)

  /** How far run() is. `returned` is what the operation came to; the id in it is the operation's own idea. */
  datatype Worker =
    | Absent
    | Operating
    | Returned(returned: Completion)
    | CommitRead(returned: Completion, judged: Completion)
    | CancelRead(returned: Completion, judged: Completion, seen: bool)

  /** History: how one started task ended. */
  datatype Ended = Ended(
    id: nat,
    contract: Contract,
    cancelAccepted: bool,
    commitClaimed: bool,
    returned: Outcome,
    cancelSeen: bool,
    outcome: Outcome)

  /** The last four fields are history. */
  datatype State = State(
    activity: Option<Activity>,
    completion: Option<Completion>,
    cancelRequested: bool,
    commitStarted: bool,
    contract: Contract,
    worker: Worker,
    cancelAccepted: bool,
    started: seq<nat>,
    taken: seq<Completion>,
    ended: seq<Ended>)

  const INITIAL := State(None, None, false, false, RequiresPublishedOutput, Absent, false, [], [], [])

  datatype Step =
    | TryStart(activity: Activity, contract: Contract, hasOperation: bool, threadStarts: bool)
    | RequestCancel
    | TakeCompletion
    | BeginCommit
    | Return(returned: Completion)
    | Throw
    | ReadCommit
    | ReadCancel
    | Finish

  // ----- the owner's calls -----

  function Started(s: State, activity: Activity, contract: Contract, hasOperation: bool, threadStarts: bool)
    : (State, bool)
  {
    if !hasOperation || s.activity.Some? || s.completion.Some? then (s, false)
    else
      var begun := s.(cancelRequested := false, commitStarted := false, cancelAccepted := false,
                      contract := contract, started := s.started + [activity.id]);
      if threadStarts then (begun.(activity := Some(activity), worker := Operating), true)
      else
        (begun.(completion := Some(Completion(activity.id, Failed)),
                ended := s.ended + [Ended(activity.id, contract, false, false, Failed, false, Failed)]), true)
  }

  function CancelRequested(s: State): (State, bool) {
    if s.activity.None? || !s.activity.value.cancellable || s.activity.value.cancelling then (s, false)
    else
      (s.(activity := Some(s.activity.value.(cancelling := true, cancellable := false)),
          cancelRequested := true, cancelAccepted := true), true)
  }

  function CompletionTaken(s: State): (State, Option<Completion>) {
    if s.completion.None? then (s, None)
    else (s.(completion := None, taken := s.taken + [s.completion.value]), s.completion)
  }

  // ----- the worker -----

  function CommitBegun(s: State): (State, bool) {
    if s.activity.None? || s.activity.value.cancelling || s.cancelRequested then (s, false)
    else (s.(activity := Some(s.activity.value.(cancellable := false)), commitStarted := true), true)
  }

  /** An exception becomes a failure under the id of the running activity. */
  function Thrown(s: State): Completion {
    Completion(if s.activity.Some? then s.activity.value.id else 0, Failed)
  }

  /** Success without the barrier is a failure where output was due. */
  function JudgedByCommit(c: Completion, commitStarted: bool, contract: Contract): Completion {
    if c.outcome.Succeeded? && !commitStarted && contract.RequiresPublishedOutput? then c.(outcome := Failed) else c
  }

  function JudgedByCancel(c: Completion, seen: bool): Completion {
    if seen && !c.outcome.Succeeded? then c.(outcome := Cancelled) else c
  }

  function Finished(s: State): State
    requires s.worker.CancelRead?
  {
    var c := s.worker.judged;
    var completion := if s.activity.Some? then c.(id := s.activity.value.id) else c;
    s.(completion := Some(completion), activity := None, worker := Absent,
       ended := s.ended + [Ended(completion.id, s.contract, s.cancelAccepted, s.commitStarted,
                                 s.worker.returned.outcome, s.worker.seen, completion.outcome)])
  }

  predicate Enabled(s: State, step: Step) {
    match step
    case TryStart(_, _, _, _) => true
    case RequestCancel => true
    case TakeCompletion => true
    case BeginCommit => s.worker.Operating?
    case Return(_) => s.worker.Operating?
    case Throw => s.worker.Operating?
    case ReadCommit => s.worker.Returned?
    case ReadCancel => s.worker.CommitRead?
    case Finish => s.worker.CancelRead?
  }

  function Next(s: State, step: Step): State
    requires Enabled(s, step)
  {
    match step
    case TryStart(activity, contract, hasOperation, threadStarts) =>
      Started(s, activity, contract, hasOperation, threadStarts).0
    case RequestCancel => CancelRequested(s).0
    case TakeCompletion => CompletionTaken(s).0
    case BeginCommit => CommitBegun(s).0
    case Return(returned) => s.(worker := Returned(returned))
    case Throw => s.(worker := Returned(Thrown(s)))
    case ReadCommit =>
      s.(worker := CommitRead(s.worker.returned, JudgedByCommit(s.worker.returned, s.commitStarted, s.contract)))
    case ReadCancel =>
      s.(worker := CancelRead(s.worker.returned, JudgedByCancel(s.worker.judged, s.cancelRequested), s.cancelRequested))
    case Finish => Finished(s)
  }

  ghost predicate Executes(s: State, steps: seq<Step>, last: State)
    decreases |steps|
  {
    if steps == [] then s == last
    else Enabled(s, steps[0]) && Executes(Next(s, steps[0]), steps[1..], last)
  }

  // ----- what every step keeps -----

  function Ids(completions: seq<Completion>): (r: seq<nat>)
    ensures |r| == |completions|
  {
    seq(|completions|, i requires 0 <= i < |completions| => completions[i].id)
  }

  function Pending(s: State): seq<nat> {
    if s.completion.Some? then [s.completion.value.id] else []
  }

  function Running(s: State): seq<nat> {
    if s.activity.Some? then [s.activity.value.id] else []
  }

  /** A task that accepted a cancellation may not claim the barrier any more, nor the other way round. */
  predicate Exclusive(s: State) {
    && !(s.cancelAccepted && s.commitStarted)
    && s.cancelAccepted == s.cancelRequested
    && (s.activity.Some? && s.cancelAccepted ==> s.activity.value.cancelling)
    && (s.activity.Some? && s.commitStarted ==> !s.activity.value.cancellable)
  }

  predicate JudgedOk(s: State) {
    match s.worker
    case CommitRead(returned, judged) =>
      judged == JudgedByCommit(returned, s.commitStarted, s.contract)
    case CancelRead(returned, judged, seen) =>
      judged == JudgedByCancel(JudgedByCommit(returned, s.commitStarted, s.contract), seen) &&
        (seen ==> s.cancelAccepted)
    case _ => true
  }

  predicate EndedOk(e: Ended) {
    && !(e.cancelAccepted && e.commitClaimed)
    && (e.cancelSeen ==> e.cancelAccepted)
    && (e.outcome.Succeeded? <==> Stands(e))
    && (e.outcome.Cancelled? <==> e.returned.Cancelled? || (e.cancelSeen && !Stands(e)))
  }

  /** The operation succeeded, and with it whatever its contract asks for. */
  predicate Stands(e: Ended) {
    e.returned.Succeeded? && (e.contract.RequiresPublishedOutput? ==> e.commitClaimed)
  }

  /** What the owner has taken, and then what waits for it. */
  function Delivered(s: State): seq<Completion> {
    s.taken + if s.completion.Some? then [s.completion.value] else []
  }

  /** The owner is told, in order, how each task ended. */
  ghost predicate ToldOk(s: State) {
    && |Delivered(s)| == |s.ended|
    && forall k | 0 <= k < |s.ended| :: Delivered(s)[k] == Completion(s.ended[k].id, s.ended[k].outcome)
  }

  ghost predicate Inv(s: State) {
    && Exclusive(s) && JudgedOk(s)
    && (s.worker.Absent? <==> s.activity.None?)
    && (s.activity.Some? ==> s.completion.None?)
    && s.started == Ids(s.taken) + Pending(s) + Running(s)
    && (forall k | 0 <= k < |s.ended| :: EndedOk(s.ended[k]))
    && ToldOk(s)
  }

  lemma StepKeepsInv(s: State, step: Step)
    requires Inv(s) && Enabled(s, step)
    ensures Inv(Next(s, step))
  {
    var t := Next(s, step);
    match step
    case TakeCompletion =>
      assert Delivered(t) == Delivered(s);
      assert Ids(t.taken) == Ids(s.taken) + if s.completion.Some? then [s.completion.value.id] else [];
    case _ =>
      assert t.taken == s.taken;
  }

  lemma {:induction false} RunKeepsInv(s: State, steps: seq<Step>, last: State)
    requires Inv(s) && Executes(s, steps, last)
    ensures Inv(last)
    decreases |steps|
  {
    hide Inv, Next, Enabled;
    if steps != [] {
      StepKeepsInv(s, steps[0]);
      RunKeepsInv(Next(s, steps[0]), steps[1..], last);
    }
  }

  /** No run of a task, over or not, both accepted a cancellation and claimed the commit. */
  lemma CancelAndCommitExclude(steps: seq<Step>, last: State)
    requires Executes(INITIAL, steps, last)
    ensures !(last.cancelAccepted && last.commitStarted)
    ensures forall k | 0 <= k < |last.ended| :: !(last.ended[k].cancelAccepted && last.ended[k].commitClaimed)
  {
    RunKeepsInv(INITIAL, steps, last);
  }

  /**
   The completions the owner takes are those of the tasks in the order they ended. The owner is told of success
   exactly when the operation succeeded and, where output is due, the barrier was claimed; there an accepted
   cancellation rules it out.
   */
  lemma SuccessWasCommitted(steps: seq<Step>, last: State, k: nat)
    requires Executes(INITIAL, steps, last) && k < |last.taken|
    ensures k < |last.ended| && last.taken[k] == Completion(last.ended[k].id, last.ended[k].outcome)
    ensures var e := last.ended[k];
            && (last.taken[k].outcome.Succeeded? <==>
                  e.returned.Succeeded? && (e.contract.RequiresPublishedOutput? ==> e.commitClaimed))
            && (e.contract.RequiresPublishedOutput? && e.cancelAccepted ==> !last.taken[k].outcome.Succeeded?)
  {
    RunKeepsInv(INITIAL, steps, last);
    assert Delivered(last)[k] == last.taken[k];
    assert EndedOk(last.ended[k]);
  }

  /** Every task that started is completed once under its own id, in order, or is the one still running. */
  lemma EachTaskCompletesOnce(steps: seq<Step>, last: State)
    requires Executes(INITIAL, steps, last)
    ensures last.started == Ids(last.taken) + Pending(last) + Running(last)
    ensures |Pending(last) + Running(last)| <= 1
  {
    RunKeepsInv(INITIAL, steps, last);
  }

  /**
   The owner is told Cancelled exactly when the operation gave up by itself, or run() saw the flag in its one
   late check and there was no success to let stand. So an accepted cancellation does not always end as
   Cancelled: where output is due, no success can stand beside it, but the check may still come too early.
   */
  lemma EndsCancelledIff(steps: seq<Step>, last: State, k: nat)
    requires Executes(INITIAL, steps, last) && k < |last.taken|
    ensures k < |last.ended| && last.taken[k].id == last.ended[k].id
    ensures var e := last.ended[k];
            && (last.taken[k].outcome.Cancelled? <==> e.returned.Cancelled? || (e.cancelSeen && !Stands(e)))
            && (e.cancelSeen ==> e.cancelAccepted)
            && (e.contract.RequiresPublishedOutput? && e.cancelAccepted ==> !Stands(e))
  {
    SuccessWasCommitted(steps, last, k);
    RunKeepsInv(INITIAL, steps, last);
    assert EndedOk(last.ended[k]);
  }

  // ----- what each call answers -----

  /** Only an idle task whose last completion has been taken starts, and it starts afresh. */
  lemma StartsIff(s: State, activity: Activity, contract: Contract, hasOperation: bool, threadStarts: bool)
    requires Inv(s)
    ensures var (t, ok) := Started(s, activity, contract, hasOperation, threadStarts);
            && (ok <==> hasOperation && Pending(s) + Running(s) == [])
            && (!ok ==> t == s)
            && (ok ==> t.started == s.started + [activity.id] && t.contract == contract
                       && !t.cancelRequested && !t.commitStarted && t.taken == s.taken)
            && (ok && threadStarts ==> t.activity == Some(activity) && t.worker == Operating && t.ended == s.ended)
            && (ok && !threadStarts ==>
                  && t.completion == Some(Completion(activity.id, Failed)) && t.activity.None? && t.worker.Absent?
                  && t.ended == s.ended + [Ended(activity.id, contract, false, false, Failed, false, Failed)])
  {
  }

  /** A cancellation is accepted once, while the task may still be cancelled, and shuts the barrier. */
  lemma CancelsIff(s: State)
    requires Inv(s)
    ensures var (t, ok) := CancelRequested(s);
            && (ok <==> s.activity.Some? && s.activity.value.cancellable && !s.activity.value.cancelling)
            && (!ok ==> t == s)
            && (ok ==> t.cancelRequested && t.activity == Some(Activity(s.activity.value.id, false, true))
                       && t.worker == s.worker && t.contract == s.contract
                       && !CancelRequested(t).1 && !CommitBegun(t).1)
  {
  }

  /** The barrier is claimed unless a cancellation came first, and shuts out any later one. */
  lemma ClaimsIff(s: State)
    requires Inv(s) && s.worker.Operating? && !s.activity.value.cancelling
    ensures var (t, ok) := CommitBegun(s);
            && (ok <==> !s.cancelAccepted)
            && (!ok ==> t == s)
            && (ok ==> t.commitStarted && t.activity == Some(Activity(s.activity.value.id, false, false))
                       && t.worker == s.worker && !CancelRequested(t).1 && CommitBegun(t).1)
  {
  }

  /** Task number n has thrown, or has ended after it. */
  ghost predicate HasThrown(s: State, n: nat, id: nat) {
    if |s.ended| == n then
      && s.activity.Some? && s.activity.value.id == id
      && match s.worker
         case Returned(returned) => returned.outcome.Failed?
         case CommitRead(returned, _) => returned.outcome.Failed?
         case CancelRead(returned, _, _) => returned.outcome.Failed?
         case _ => false
    else |s.ended| > n && s.ended[n].id == id && s.ended[n].returned.Failed?
  }

  lemma {:induction false} ThrownGoesOn(s: State, steps: seq<Step>, last: State, n: nat, id: nat)
    requires Inv(s) && HasThrown(s, n, id) && Executes(s, steps, last)
    ensures HasThrown(last, n, id)
    decreases |steps|
  {
    hide Inv;
    if steps != [] {
      StepKeepsInv(s, steps[0]);
      ThrownStep(s, steps[0], n, id);
      ThrownGoesOn(Next(s, steps[0]), steps[1..], last, n, id);
    }
  }

  lemma ThrownStep(s: State, step: Step, n: nat, id: nat)
    requires Inv(s) && HasThrown(s, n, id) && Enabled(s, step)
    ensures HasThrown(Next(s, step), n, id)
  {
  }

  /** An exception is never told as success, under either contract, and it is told under the task's own id. */
  lemma ThrownIsNoSuccess(before: seq<Step>, s: State, after: seq<Step>, last: State)
    requires Executes(INITIAL, before, s) && Enabled(s, Throw) && Executes(Next(s, Throw), after, last)
    requires |s.ended| < |last.taken|
    ensures s.activity.Some? && last.taken[|s.ended|].id == s.activity.value.id
    ensures !last.taken[|s.ended|].outcome.Succeeded?
  {
    RunKeepsInv(INITIAL, before, s);
    StepKeepsInv(s, Throw);
    RunKeepsInv(Next(s, Throw), after, last);
    ThrownGoesOn(Next(s, Throw), after, last, |s.ended|, s.activity.value.id);
    assert Delivered(last)[|s.ended|] == last.taken[|s.ended|];
    assert EndedOk(last.ended[|s.ended|]);
  }

  lemma {:induction false} ExecutesAppend(s: State, steps: seq<Step>, middle: State, step: Step)
    requires Executes(s, steps, middle) && Enabled(middle, step)
    ensures Executes(s, steps + [step], Next(middle, step))
    decreases |steps|
  {
    hide Next, Enabled;
    if steps == [] {
      assert Executes(Next(s, step), [], Next(s, step));
      assert (steps + [step])[1..] == [];
    } else {
      ExecutesAppend(Next(s, steps[0]), steps[1..], middle, step);
      assert (steps + [step])[1..] == steps[1..] + [step];
    }
  }

  /** The window: a cancellation accepted after the check and before the last lock ends as a failure. */
  lemma LateCancelEndsFailed(activity: Activity, returned: Completion)
    returns (steps: seq<Step>, last: State)
    requires activity.cancellable && !activity.cancelling && returned.outcome.Failed?
    ensures Executes(INITIAL, steps, last) && last.taken == [Completion(activity.id, Failed)]
    ensures last.ended == [Ended(activity.id, RequiresPublishedOutput, true, false, Failed, false, Failed)]
  {
    steps, last := [], INITIAL;
    assert Executes(INITIAL, steps, last);
    hide Executes;
    steps, last := Then(steps, last, Step.TryStart(activity, RequiresPublishedOutput, true, true));
    steps, last := Then(steps, last, Step.Return(returned));
    steps, last := Then(steps, last, ReadCommit);
    steps, last := Then(steps, last, ReadCancel);
    steps, last := Then(steps, last, Step.RequestCancel);
    steps, last := Then(steps, last, Finish);
    steps, last := Then(steps, last, TakeCompletion);
  }

  /** One more step of a run. */
  lemma Then(steps: seq<Step>, middle: State, step: Step) returns (longer: seq<Step>, last: State)
    requires Executes(INITIAL, steps, middle) && Enabled(middle, step)
    ensures last == Next(middle, step) && Executes(INITIAL, longer, last)
  {
    longer, last := steps + [step], Next(middle, step);
    ExecutesAppend(INITIAL, steps, middle, step);
  }

  // ----- the object -----

  /** run() after the operation, with no step of the owner in between. */
  function Undisturbed(s: State, returned: Completion): State {
    var judged := JudgedByCancel(JudgedByCommit(returned, s.commitStarted, s.contract), s.cancelRequested);
    Finished(s.(worker := CancelRead(returned, judged, s.cancelRequested)))
  }

  lemma UndisturbedIsRun(s: State, result: Option<Completion>)
    requires s.worker.Operating?
    ensures var end := if result.Some? then Step.Return(result.value) else Throw;
            Next(Next(Next(Next(s, end), ReadCommit), ReadCancel), Finish)
            == Undisturbed(s, if result.Some? then result.value else Thrown(s))
  {
  }

  class Task {
    var activity: Option<Activity>
    var completion: Option<Completion>
    var cancelRequested: bool
    var commitStarted: bool
    var contract: Contract
    var worker: Worker
    ghost var cancelAccepted: bool
    ghost var started: seq<nat>
    ghost var taken: seq<Completion>
    ghost var ended: seq<Ended>

    ghost function Now(): State
      reads this
    {
      State(activity, completion, cancelRequested, commitStarted, contract, worker, cancelAccepted, started, taken,
            ended)
    }

    constructor ()
      ensures Now() == INITIAL
    {
      activity, completion, cancelRequested, commitStarted := None, None, false, false;
      contract, worker := RequiresPublishedOutput, Absent;
      cancelAccepted, started, taken, ended := false, [], [], [];
    }

    method Start(next: Activity, due: Contract, hasOperation: bool, threadStarts: bool) returns (ok: bool)
      modifies this
      ensures (Now(), ok) == Started(old(Now()), next, due, hasOperation, threadStarts)
    {
      if !hasOperation || activity.Some? || completion.Some? {
        return false;
      }
      cancelRequested, commitStarted, contract := false, false, due;
      cancelAccepted, started := false, started + [next.id];
      activity := Some(next);
      if threadStarts {
        worker := Operating;
      } else {
        completion := Some(Completion(next.id, Failed));
        activity := None;
        ended := ended + [Ended(next.id, due, false, false, Failed, false, Failed)];
      }
      ok := true;
    }

    method Cancel() returns (accepted: bool)
      modifies this
      ensures (Now(), accepted) == CancelRequested(old(Now()))
    {
      if activity.None? || !activity.value.cancellable || activity.value.cancelling {
        return false;
      }
      activity := Some(activity.value.(cancelling := true, cancellable := false));
      cancelRequested, cancelAccepted := true, true;
      accepted := true;
    }

    method Take() returns (r: Option<Completion>)
      modifies this
      ensures (Now(), r) == CompletionTaken(old(Now()))
    {
      r := completion;
      if r.Some? {
        taken := taken + [r.value];
        completion := None;
      }
    }

    method ClaimCommit() returns (ok: bool)
      modifies this
      ensures (Now(), ok) == CommitBegun(old(Now()))
    {
      if activity.None? || activity.value.cancelling || cancelRequested {
        return false;
      }
      activity := Some(activity.value.(cancellable := false));
      commitStarted := true;
      ok := true;
    }

    /** The tail of run(), when nothing comes between its steps. */
    method Complete(result: Option<Completion>)
      requires worker.Operating?
      modifies this
      ensures Now() == Undisturbed(old(Now()), if result.Some? then result.value else Thrown(old(Now())))
    {
      var returned := if result.Some? then result.value
                      else Completion(if activity.Some? then activity.value.id else 0, Failed);
      var judged := returned;
      if judged.outcome.Succeeded? && !commitStarted && contract.RequiresPublishedOutput? {
        judged := judged.(outcome := Failed);
      }
      if cancelRequested && !judged.outcome.Succeeded? {
        judged := judged.(outcome := Cancelled);
      }
      if activity.Some? {
        judged := judged.(id := activity.value.id);
      }
      ended := ended
        + [Ended(judged.id, contract, cancelAccepted, commitStarted, returned.outcome, cancelRequested,
                 judged.outcome)];
      completion, activity, worker := Some(judged), None, Absent;
    }
  }
}
