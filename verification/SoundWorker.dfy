/**
 The sound worker (platform/vita/sound_worker.h): an owner thread that submits one
 job at a time and joins it, and a worker thread that runs it, over a mutex and two
 condition variables. A step is one critical section, or one piece of work between
 critical sections, of one thread; waiters may also wake for no reason. `dispatched`,
 `executed` and `completed` record what happened; no step reads them.
 */
module SoundWorker {
  type Job = nat

  /** What running a job gives: its ticks, and whether it threw. */
  datatype Result = Result(ticks: nat, error: bool)

  /** What the owner does once the running job is joined. */
  datatype Then = Return | Dispatch(job: Job) | Close

  datatype Owner =
    | Ready                                   // outside any call
    | Finishing(next: Then)                   // finish: about to take the mutex
    | Waiting(next: Then)                     // asleep on completed_
    | Woken(next: Then)                       // awake, about to look at done_ again
    | Completing(job: Job, result: Result, next: Then) // mutex released, about to run complete
    | Submitting(job: Job)                    // dispatch: about to take the mutex
    | Stopping                                // close: about to take the mutex
    | Joining                                 // SDL_WaitThread
    | Closed

  datatype Worker = Asleep | Awake | Running(job: Job) | Storing(job: Job, result: Result) | Exited

  datatype State = State(
    queued: bool, busy: bool, done: bool, stopping: bool,
    context: Job, result: Result,
    owner: Owner, worker: Worker,
    dispatched: seq<Job>, executed: seq<(Job, Result)>, completed: seq<(Job, Result)>)

  datatype Step =
    | Call(next: Then)     // the owner calls finish, dispatch or close
    | FinishCheck          // finish looks at busy_ and done_
    | Recheck              // the waiter looks at done_ again
    | Complete             // complete(), then rethrow or go on
    | Submit
    | Stop
    | Join
    | WorkerCheck          // the worker looks at stopping_ and queued_
    | Run(result: Result)  // execute
    | Store                // the result, done_, signal
    | WakeOwner            // spurious
    | WakeWorker           // spurious

  function Start(): State {
    State(false, false, false, false, 0, Result(0, false), Ready, Awake, [], [], [])
  }

  predicate Enabled(s: State, step: Step) {
    match step
    case Call(next) => s.owner.Ready?
    case FinishCheck => s.owner.Finishing?
    case Recheck => s.owner.Woken?
    case Complete => s.owner.Completing?
    case Submit => s.owner.Submitting?
    case Stop => s.owner.Stopping?
    case Join => s.owner.Joining? && s.worker.Exited?
    case WorkerCheck => s.worker.Awake?
    case Run(r) => s.worker.Running?
    case Store => s.worker.Storing?
    case WakeOwner => s.owner.Waiting?
    case WakeWorker => s.worker.Asleep?
  }

  /** Nothing to join: on to the second half of the call. */
  function GoOn(next: Then): Owner {
    match next
    case Return => Ready
    case Dispatch(job) => Submitting(job)
    case Close => Stopping
  }

  /** finish from its look at done_ on. */
  function TakeOrWait(s: State, next: Then): State {
    if !s.done then s.(owner := Waiting(next))
    else s.(owner := Completing(s.context, s.result, next), busy := false)
  }

  /** SDL_CondSignal(ready_) */
  function SignalReady(s: State): State { if s.worker.Asleep? then s.(worker := Awake) else s }

  /** SDL_CondSignal(completed_) */
  function SignalCompleted(s: State): State { if s.owner.Waiting? then s.(owner := Woken(s.owner.next)) else s }

  function Apply(s: State, step: Step): State
    requires Enabled(s, step)
  {
    match step
    case Call(next) => s.(owner := Finishing(next))
    case FinishCheck =>
      if !s.busy then s.(owner := GoOn(s.owner.next)) else TakeOrWait(s, s.owner.next)
    case Recheck => TakeOrWait(s, s.owner.next)
    case Complete =>
      // finish rethrows a worker's error, so a dispatch does not go on; close swallows it
      var o := s.owner;
      s.(completed := s.completed + [(o.job, o.result)],
         owner := if o.result.error && !o.next.Close? then Ready else GoOn(o.next))
    case Submit =>
      SignalReady(s.(context := s.owner.job, done := false, queued := true, busy := true, owner := Ready,
                     dispatched := s.dispatched + [s.owner.job]))
    case Stop => SignalReady(s.(stopping := true, owner := Joining))
    case Join => s.(owner := Closed)
    case WorkerCheck =>
      if s.stopping then s.(worker := Exited)
      else if s.queued then s.(worker := Running(s.context), queued := false)
      else s.(worker := Asleep)
    case Run(r) =>
      s.(worker := Storing(s.worker.job, r), executed := s.executed + [(s.worker.job, r)])
    case Store => SignalCompleted(s.(result := s.worker.result, done := true, worker := Awake))
    case WakeOwner => s.(owner := Woken(s.owner.next))
    case WakeWorker => s.(worker := Awake)
  }

  // ---- The invariant --------------------------------------------------------

  function Jobs(done: seq<(Job, Result)>): seq<Job> {
    seq(|done|, i requires 0 <= i < |done| => done[i].0)
  }

  /** The worker has the job in its hands. */
  predicate Working(w: Worker) { w.Running? || w.Storing? }

  /** A job has been run and its result has not been taken by complete(). */
  predicate Outstanding(s: State) {
    s.worker.Storing? || (s.busy && s.done) || s.owner.Completing?
  }

  ghost predicate BooksOk(s: State) {
    // every job is run once, in order, and the one not yet run is in the mailbox or in the worker's hands
    && s.dispatched == Jobs(s.executed) + (if s.queued || s.worker.Running? then [s.context] else [])
    // every run is completed once, in order, with its own result
    && (if Outstanding(s) then
          && |s.executed| == |s.completed| + 1
          && s.completed == s.executed[..|s.completed|]
          && s.executed[|s.completed|] ==
               (if s.worker.Storing? then (s.worker.job, s.worker.result)
                else if s.owner.Completing? then (s.owner.job, s.owner.result)
                else (s.context, s.result))
        else s.completed == s.executed)
  }

  predicate FlagsOk(s: State) {
    && (!s.busy ==> !s.queued && !Working(s.worker))
    && (s.queued ==> s.busy && !s.done && s.worker.Awake?)
    && (Working(s.worker) ==> !s.queued && !s.done && s.worker.job == s.context)
    && (s.busy && !s.done ==> s.queued || Working(s.worker))
    && (s.owner.Waiting? ==> s.busy && !s.done)
    && (s.owner.Woken? ==> s.busy)
    && (s.owner.Completing? || s.owner.Submitting? || s.owner.Stopping? ==> !s.busy)
    && (s.stopping <==> s.owner.Joining? || s.owner.Closed?)
    && (s.stopping ==> !s.busy && (s.worker.Awake? || s.worker.Exited?))
    && (s.worker.Exited? ==> s.stopping)
  }

  ghost predicate Inv(s: State) { FlagsOk(s) && BooksOk(s) }

  lemma JobsPush(done: seq<(Job, Result)>, j: Job, r: Result)
    ensures Jobs(done + [(j, r)]) == Jobs(done) + [j]
  {
  }

  lemma InvStep(s: State, step: Step)
    requires Inv(s) && Enabled(s, step)
    ensures Inv(Apply(s, step))
  {
    if step.Run? {
      JobsPush(s.executed, s.worker.job, step.result);
    }
  }

  ghost predicate Reaches(s: State, steps: seq<Step>, s': State)
    decreases |steps|
  {
    if steps == [] then s == s'
    else Enabled(s, steps[0]) && Reaches(Apply(s, steps[0]), steps[1..], s')
  }

  lemma {:induction false} InvRun(s: State, steps: seq<Step>, s': State)
    requires Inv(s) && Reaches(s, steps, s')
    ensures Inv(s')
    decreases |steps|
  {
    if steps != [] {
      InvStep(s, steps[0]);
      InvRun(Apply(s, steps[0]), steps[1..], s');
    }
  }

  lemma ReachableInv(steps: seq<Step>, s: State)
    requires Reaches(Start(), steps, s)
    ensures Inv(s)
  {
    assert Jobs([]) == [];
    InvRun(Start(), steps, s);
  }

  // ---- What the owner may rely on -------------------------------------------

  /**
   In every interleaving the runs are the dispatched jobs in order, all but perhaps
   the last one, and the completions are the runs in order with their own results,
   all but perhaps the last one.
   */
  lemma OnceEach(steps: seq<Step>, s: State)
    requires Reaches(Start(), steps, s)
    ensures Jobs(s.executed) <= s.dispatched && |s.dispatched| <= |s.executed| + 1
    ensures s.completed <= s.executed && |s.executed| <= |s.completed| + 1
  {
    ReachableInv(steps, s);
  }

  /**
   When finish goes on, and whenever nothing is busy, the worker holds no job; once
   the completion has run too, every job dispatched has been run and completed.
   */
  lemma FinishJoins(steps: seq<Step>, s: State)
    requires Reaches(Start(), steps, s) && !s.busy
    ensures !Working(s.worker) && !s.queued
    ensures Jobs(s.executed) == s.dispatched
    ensures !s.owner.Completing? ==> s.completed == s.executed
  {
    ReachableInv(steps, s);
  }

  /**
   The step by which finish returns, whether because nothing was outstanding or after
   the completion: the worker no longer uses any job, and every job dispatched has been
   run and completed. It returns to the frontend, into dispatch's second half or into
   close's.
   */
  lemma FinishReturns(steps: seq<Step>, s: State, step: Step)
    requires Reaches(Start(), steps, s) && Enabled(s, step) && (step.FinishCheck? || step.Complete?)
    requires var o := Apply(s, step).owner; o.Ready? || o.Submitting? || o.Stopping?
    ensures var t := Apply(s, step);
            && !t.busy && !t.queued && !Working(t.worker)
            && Jobs(t.executed) == t.dispatched && t.completed == t.executed
  {
    ReachableInv(steps, s);
    InvStep(s, step);
  }

  /** Closing drops nothing: the worker leaves only after every dispatched job is completed. */
  lemma CloseDropsNothing(steps: seq<Step>, s: State)
    requires Reaches(Start(), steps, s) && (s.worker.Exited? || s.owner.Closed?)
    ensures Jobs(s.completed) == s.dispatched
    ensures s.owner.Joining? || s.owner.Closed?
  {
    ReachableInv(steps, s);
  }

  // ---- Nothing gets stuck ---------------------------------------------------

  /** A step that is neither a new call nor a spurious wake-up. */
  predicate Real(step: Step) { !step.Call? && !step.WakeOwner? && !step.WakeWorker? }

  /** In every state in the middle of a call some real step is possible: no wake-up is ever lost. */
  lemma NeverStuck(steps: seq<Step>, s: State) returns (step: Step)
    requires Reaches(Start(), steps, s) && !s.owner.Ready? && !s.owner.Closed?
    ensures Enabled(s, step) && Real(step)
  {
    ReachableInv(steps, s);
    step := match s.owner
            case Finishing(_) => FinishCheck
            case Woken(_) => Recheck
            case Completing(_, _, _) => Complete
            case Submitting(_) => Submit
            case Stopping => Stop
            case Joining => if s.worker.Exited? then Join else WorkerCheck
            case Waiting(_) =>
              (match s.worker
               case Running(_) => Run(Result(0, false))
               case Storing(_, _) => Store
               case _ => WorkerCheck)
            case _ => WorkerCheck;
  }

  function OwnerRank(s: State): nat {
    match s.owner
    case Finishing(_) => 60
    case Woken(_) => if s.done then 45 else 55
    case Waiting(_) => 50
    case Completing(_, _, _) => 40
    case Submitting(_) => 30
    case Stopping => 30
    case Joining => 20
    case _ => 0
  }

  function WorkerRank(s: State): nat {
    match s.worker
    case Awake => if s.queued then 4 else 1
    case Running(_) => 3
    case Storing(_, _) => 2
    case _ => 0
  }

  /** Real steps left before the owner is back and the worker is at rest, at most. */
  function Rank(s: State): nat { OwnerRank(s) + WorkerRank(s) }

  /** Every real step brings the call nearer to its end, so every call returns. */
  lemma RealStepsRunOut(steps: seq<Step>, s: State, step: Step)
    requires Reaches(Start(), steps, s) && Enabled(s, step) && Real(step)
    ensures Rank(Apply(s, step)) < Rank(s)
  {
    ReachableInv(steps, s);
  }

  // ---- What is asked for is dispatched ----------------------------------------------

  /** The job of a dispatch in the middle of its call. */
  function Pending(o: Owner): seq<Job> {
    match o
    case Finishing(next) => JobOf(next)
    case Waiting(next) => JobOf(next)
    case Woken(next) => JobOf(next)
    case Completing(job, result, next) => JobOf(next)
    case Submitting(job) => [job]
    case _ => []
  }

  function JobOf(next: Then): seq<Job> {
    match next case Dispatch(job) => [job] case _ => []
  }

  /** The step ends a dispatch by rethrowing the error of the job before it. */
  predicate Refuses(s: State, step: Step) {
    step.Complete? && s.owner.Completing? && s.owner.result.error && s.owner.next.Dispatch?
  }

  /** The jobs asked for in a run, after those in `asked`, but for the refused ones. */
  function Wanted(asked: seq<Job>, s: State, steps: seq<Step>): seq<Job>
    decreases |steps|
  {
    if steps == [] || !Enabled(s, steps[0]) then asked
    else
      var step := steps[0];
      var now := if step.Call? then asked + JobOf(step.next)
                 else if Refuses(s, step) && asked != [] then asked[..|asked| - 1]
                 else asked;
      Wanted(now, Apply(s, step), steps[1..])
  }

  lemma WantedStep(asked: seq<Job>, s: State, step: Step)
    requires Enabled(s, step) && asked == s.dispatched + Pending(s.owner)
    ensures Refuses(s, step) ==> asked != []
    ensures var now := if step.Call? then asked + JobOf(step.next)
                       else if Refuses(s, step) then asked[..|asked| - 1]
                       else asked;
            now == Apply(s, step).dispatched + Pending(Apply(s, step).owner)
  {
  }

  lemma {:induction false} WantedRun(asked: seq<Job>, s: State, steps: seq<Step>, s': State)
    requires Reaches(s, steps, s') && asked == s.dispatched + Pending(s.owner)
    ensures Wanted(asked, s, steps) == s'.dispatched + Pending(s'.owner)
    decreases |steps|
  {
    if steps != [] {
      var step := steps[0];
      WantedStep(asked, s, step);
      var now := if step.Call? then asked + JobOf(step.next)
                 else if Refuses(s, step) then asked[..|asked| - 1]
                 else asked;
      WantedRun(now, Apply(s, step), steps[1..], s');
    }
  }

  /**
   In every run the jobs dispatched, and the one of a dispatch still in its call, are the
   jobs asked for in order, but for those whose call rethrew the error of the job before.
   */
  lemma CallsAreDispatched(steps: seq<Step>, s: State)
    requires Reaches(Start(), steps, s)
    ensures Wanted([], Start(), steps) == s.dispatched + Pending(s.owner)
  {
    WantedRun([], Start(), steps, s);
  }

  /** All jobs asked for in a run. */
  function Asked(steps: seq<Step>): seq<Job> {
    if steps == [] then [] else (if steps[0].Call? then JobOf(steps[0].next) else []) + Asked(steps[1..])
  }

  /** No job has failed. */
  ghost predicate NoneFailed(s: State) {
    forall k :: 0 <= k < |s.executed| ==> !s.executed[k].1.error
  }

  /** If no job fails, every job asked for is dispatched. */
  lemma AllDispatched(steps: seq<Step>, s: State)
    requires Reaches(Start(), steps, s)
    requires NoneFailed(s)
    ensures Asked(steps) == s.dispatched + Pending(s.owner)
    ensures s.owner.Ready? ==> Asked(steps) == s.dispatched
  {
    assert Jobs([]) == [];
    NoneRefused([], Start(), steps, s);
    WantedRun([], Start(), steps, s);
    assert s.dispatched + [] == s.dispatched;
  }

  lemma NotRefused(s: State, step: Step)
    requires Inv(s) && NoneFailed(s)
    ensures !Refuses(s, step)
  {
    if s.owner.Completing? { assert s.executed[|s.completed|].1 == s.owner.result; }
  }

  lemma {:induction false} NoneRefused(asked: seq<Job>, s: State, steps: seq<Step>, s': State)
    requires Inv(s) && Reaches(s, steps, s')
    requires NoneFailed(s')
    ensures s.executed <= s'.executed
    ensures Wanted(asked, s, steps) == asked + Asked(steps)
    decreases |steps|
  {
    if steps == [] {
      assert asked + [] == asked;
    } else {
      var step := steps[0];
      InvStep(s, step);
      var now := if step.Call? then asked + JobOf(step.next) else asked;
      NoneRefused(now, Apply(s, step), steps[1..], s');
      assert s.executed <= Apply(s, step).executed;
      assert forall k :: 0 <= k < |s.executed| ==> s.executed[k] == s'.executed[k];
      NotRefused(s, step);
      var first := if step.Call? then JobOf(step.next) else [];
      assert now + Asked(steps[1..]) == asked + (first + Asked(steps[1..])) by {
        assert asked + [] == asked;
      }
    }
  }
}
