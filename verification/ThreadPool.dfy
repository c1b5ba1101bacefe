/** The thread pool as a monitor: each section under the mutex is one atomic step, the gap between
    unlocking and `notify_one` is kept, and any interleaving of the steps is a run. */
module ThreadPool {

  type Job = nat

  /** A worker contends for the mutex, sleeps on the condition variable, runs a job, or has returned. */
  datatype Worker = Awake | Waiting | Running(job: Job) | Exited

  /** The monitor, and the record of what happened: all jobs ever enqueued, those taken from the queue,
      those completed, and how many were enqueued when the pool was told to stop. */
  datatype State = State(
    workers: seq<Worker>, jobs: seq<Job>, stop: bool,
    pending: nat, notifiedAll: bool,
    submitted: seq<Job>, dequeued: seq<Job>, completed: multiset<Job>, stopMark: nat)

  function Initial(size: nat): State {
    State(seq(size, i => Awake), [], false, 0, false, [], [], multiset{}, 0)
  }

  datatype Step =
    | Submit(job: Job)    // the locked half of asyncRunJob
    | Notify(woken: nat)  // its notify_one, when somebody waits
    | NotifyNobody        // its notify_one, when nobody does
    | Section(worker: nat) // a worker's locked section, from taking the mutex to releasing it
    | Spurious(worker: nat) // a wake-up without notification
    | Finish(worker: nat)
    | SetStop             // the locked half of the destructor
    | NotifyAll

  predicate NoneWaiting(ws: seq<Worker>) { forall i | 0 <= i < |ws| :: !ws[i].Waiting? }

  predicate Enabled(s: State, t: Step) {
    match t
    case Submit(_) => true
    case Notify(w) => s.pending > 0 && w < |s.workers| && s.workers[w].Waiting?
    case NotifyNobody => s.pending > 0 && NoneWaiting(s.workers)
    case Section(w) => w < |s.workers| && s.workers[w].Awake?
    case Spurious(w) => w < |s.workers| && s.workers[w].Waiting?
    case Finish(w) => w < |s.workers| && s.workers[w].Running?
    case SetStop => !s.stop
    case NotifyAll => s.stop && !s.notifiedAll
  }

  function WakeAll(ws: seq<Worker>): seq<Worker> {
    seq(|ws|, i requires 0 <= i < |ws| => if ws[i].Waiting? then Awake else ws[i])
  }

  function After(s: State, t: Step): State
    requires Enabled(s, t)
  {
    match t
    case Submit(j) =>
      s.(jobs := s.jobs + [j], submitted := s.submitted + [j], pending := if s.stop then s.pending else s.pending + 1)
    case Notify(w) => s.(pending := s.pending - 1, workers := s.workers[w := Awake])
    case NotifyNobody => s.(pending := s.pending - 1)
    case Section(w) =>
      if s.jobs != [] then
        s.(jobs := s.jobs[1..], dequeued := s.dequeued + [s.jobs[0]], workers := s.workers[w := Running(s.jobs[0])])
      else s.(workers := s.workers[w := if s.stop then Exited else Waiting])
    case Spurious(w) => s.(workers := s.workers[w := Awake])
    case Finish(w) =>
      s.(completed := s.completed + multiset{s.workers[w].job}, workers := s.workers[w := Awake])
    case SetStop => s.(stop := true, stopMark := |s.submitted|)
    case NotifyAll => s.(notifiedAll := true, workers := WakeAll(s.workers))
  }

  /** `asyncRunJob` throws exactly when it finds the pool stopped, the job already being in the queue. */
  predicate Throws(s: State, t: Step) { t.Submit? && s.stop }

  // ---------- Sums over the workers ----------

  function Weight(awake: nat, running: nat, w: Worker): nat {
    match w case Awake => awake case Running(_) => running case _ => 0
  }

  function Sum(awake: nat, running: nat, ws: seq<Worker>): nat {
    if ws == [] then 0 else Weight(awake, running, ws[0]) + Sum(awake, running, ws[1..])
  }

  function AwakeCount(s: State): nat { Sum(1, 0, s.workers) }

  function RunningOf(w: Worker): multiset<Job> { if w.Running? then multiset{w.job} else multiset{} }

  function RunningJobs(ws: seq<Worker>): multiset<Job> {
    if ws == [] then multiset{} else RunningOf(ws[0]) + RunningJobs(ws[1..])
  }

  lemma {:induction false} SumUpdate(awake: nat, running: nat, ws: seq<Worker>, i: nat, w: Worker)
    requires i < |ws|
    ensures Sum(awake, running, ws[i := w]) + Weight(awake, running, ws[i]) == Sum(awake, running, ws) + Weight(awake, running, w)
  {
    if i == 0 {
      assert ws[0 := w][1..] == ws[1..];
    } else {
      assert ws[i := w][1..] == ws[1..][i - 1 := w];
      SumUpdate(awake, running, ws[1..], i - 1, w);
    }
  }

  lemma Regroup(a: multiset<Job>, b: multiset<Job>, c: multiset<Job>)
    ensures a + b + c == a + (b + c)
  {
  }

  lemma {:induction false} RunningUpdate(ws: seq<Worker>, i: nat, w: Worker)
    requires i < |ws|
    ensures RunningJobs(ws[i := w]) + RunningOf(ws[i]) == RunningJobs(ws) + RunningOf(w)
  {
    hide RunningOf;
    if i == 0 {
      assert ws[0 := w][1..] == ws[1..];
    } else {
      assert ws[i := w][1..] == ws[1..][i - 1 := w];
      RunningUpdate(ws[1..], i - 1, w);
      Regroup(RunningOf(ws[0]), RunningJobs(ws[1..][i - 1 := w]), RunningOf(ws[i]));
      Regroup(RunningOf(ws[0]), RunningJobs(ws[1..]), RunningOf(w));
    }
  }

  /** A worker that takes, keeps or drops a job changes the running jobs by just that. */
  lemma RunningChange(ws: seq<Worker>, i: nat, w: Worker)
    requires i < |ws|
    ensures !ws[i].Running? && !w.Running? ==> RunningJobs(ws[i := w]) == RunningJobs(ws)
    ensures !ws[i].Running? && w.Running? ==> RunningJobs(ws[i := w]) == RunningJobs(ws) + multiset{w.job}
    ensures ws[i].Running? && !w.Running? ==> RunningJobs(ws[i := w]) + multiset{ws[i].job} == RunningJobs(ws)
  {
    RunningUpdate(ws, i, w);
    var r, r' := RunningJobs(ws), RunningJobs(ws[i := w]);
    assert r + multiset{} == r && r' + multiset{} == r';
  }

  lemma {:induction false} WakeAllRuns(ws: seq<Worker>)
    ensures RunningJobs(WakeAll(ws)) == RunningJobs(ws)
  {
    if ws != [] {
      assert WakeAll(ws)[1..] == WakeAll(ws[1..]);
      WakeAllRuns(ws[1..]);
    }
  }

  lemma {:induction false} SumOfNone(awake: nat, running: nat, ws: seq<Worker>)
    requires forall i | 0 <= i < |ws| :: Weight(awake, running, ws[i]) == 0
    ensures Sum(awake, running, ws) == 0
  {
    if ws != [] { SumOfNone(awake, running, ws[1..]); }
  }

  lemma {:induction false} NoneRunning(ws: seq<Worker>)
    requires forall i | 0 <= i < |ws| :: !ws[i].Running?
    ensures RunningJobs(ws) == multiset{}
  {
    if ws != [] { NoneRunning(ws[1..]); }
  }

  // ---------- What every step keeps ----------

  /** Every job is queued, running or completed, and taken in the order of submission. */
  ghost predicate Accounted(s: State) {
    && s.submitted == s.dequeued + s.jobs
    && multiset(s.dequeued) == RunningJobs(s.workers) + s.completed
  }

  /** Nobody sleeps while there is more work than workers on their way to it. */
  ghost predicate WorkConserving(s: State) {
    NoneWaiting(s.workers) || |s.jobs| <= s.pending + AwakeCount(s)
  }

  ghost predicate Stopping(s: State) {
    && (s.notifiedAll ==> s.stop && NoneWaiting(s.workers))
    && (s.stop ==> s.stopMark <= |s.submitted|)
    && forall i | 0 <= i < |s.workers| && s.workers[i].Exited? :: s.stop && s.stopMark <= |s.dequeued|
  }

  ghost predicate Inv(s: State) {
    Accounted(s) && Stopping(s) && (!s.stop ==> WorkConserving(s))
  }

  lemma StepAccounts(s: State, t: Step)
    requires Enabled(s, t) && Accounted(s)
    ensures Accounted(After(s, t))
  {
    hide RunningJobs;
    match t
    case Submit(j) => assert s.submitted + [j] == s.dequeued + (s.jobs + [j]);
    case Notify(w) => RunningChange(s.workers, w, Awake);
    case NotifyNobody =>
    case Section(w) =>
      RunningChange(s.workers, w, After(s, t).workers[w]);
      if s.jobs != [] {
        assert s.submitted == s.dequeued + [s.jobs[0]] + s.jobs[1..];
        Swap(RunningJobs(s.workers), s.completed, multiset{s.jobs[0]});
      }
    case Spurious(w) => RunningChange(s.workers, w, Awake);
    case Finish(w) =>
      RunningChange(s.workers, w, Awake);
      var r := RunningJobs(s.workers[w := Awake]);
      Swap(r, s.completed, multiset{s.workers[w].job});
      Regroup(r, s.completed, multiset{s.workers[w].job});
    case SetStop =>
    case NotifyAll => WakeAllRuns(s.workers);
  }

  lemma Swap(a: multiset<Job>, b: multiset<Job>, c: multiset<Job>)
    ensures a + b + c == a + c + b
  {
  }

  lemma StepConserves(s: State, t: Step)
    requires Enabled(s, t) && !After(s, t).stop && WorkConserving(s)
    ensures WorkConserving(After(s, t))
  {
    match t
    case Notify(w) => SumUpdate(1, 0, s.workers, w, Awake);
    case Section(w) => SumUpdate(1, 0, s.workers, w, After(s, t).workers[w]);
    case Spurious(w) => SumUpdate(1, 0, s.workers, w, Awake);
    case Finish(w) => SumUpdate(1, 0, s.workers, w, Awake);
    case _ =>
  }

  lemma StepStops(s: State, t: Step)
    requires Enabled(s, t) && Stopping(s) && Accounted(s)
    ensures Stopping(After(s, t))
  {
  }

  lemma StepKeeps(s: State, t: Step)
    requires Inv(s) && Enabled(s, t)
    ensures Inv(After(s, t)) && |After(s, t).workers| == |s.workers|
  {
    hide Accounted, WorkConserving, Stopping;
    StepAccounts(s, t);
    StepStops(s, t);
    if !After(s, t).stop { StepConserves(s, t); }
  }

  lemma InitialInv(size: nat)
    ensures Inv(Initial(size))
  {
    NoneRunning(Initial(size).workers);
  }

  // ---------- The pool as it changes in place ----------

  class Pool {
    var workers: seq<Worker>
    var jobs: seq<Job>
    var stop: bool
    var pending: nat
    var notifiedAll: bool
    ghost var submitted: seq<Job>
    ghost var dequeued: seq<Job>
    ghost var completed: multiset<Job>
    ghost var stopMark: nat

    ghost function Value(): State
      reads this
    {
      State(workers, jobs, stop, pending, notifiedAll, submitted, dequeued, completed, stopMark)
    }

    constructor (size: nat)
      ensures Value() == Initial(size) && Inv(Value())
    {
      InitialInv(size);
      workers := seq(size, i => Awake);
      jobs, stop, pending, notifiedAll := [], false, 0, false;
      submitted, dequeued, completed, stopMark := [], [], multiset{}, 0;
    }

    method Enqueue(job: Job) returns (threw: bool)
      requires Inv(Value())
      modifies this
      ensures Inv(Value())
      ensures Value() == After(old(Value()), Submit(job))
      ensures threw == Throws(old(Value()), Submit(job))
    {
      hide Inv;
      StepKeeps(Value(), Submit(job));
      jobs := jobs + [job];
      submitted := submitted + [job];
      threw := stop;
      if !threw { pending := pending + 1; }
    }

    /** `notify_one` wakes any waiting worker: `woken` says which. */
    method NotifyOne(woken: nat)
      requires pending > 0
      requires NoneWaiting(workers) || Enabled(Value(), Notify(woken))
      requires Inv(Value())
      modifies this
      ensures Inv(Value())
      ensures Value() == After(old(Value()), if NoneWaiting(old(workers)) then NotifyNobody else Notify(woken))
    {
      hide Inv;
      StepKeeps(Value(), if NoneWaiting(workers) then NotifyNobody else Notify(woken));
      pending := pending - 1;
      if !NoneWaiting(workers) { workers := workers[woken := Awake]; }
    }

    /** One round of the worker loop from locking to unlocking, unlocking inside `wait` included. */
    method LockedSection(w: nat) returns (task: seq<Job>)
      requires Enabled(Value(), Section(w))
      requires Inv(Value())
      modifies this
      ensures Inv(Value())
      ensures Value() == After(old(Value()), Section(w))
      ensures task == if old(jobs) != [] then [old(jobs)[0]] else []
    {
      hide Inv;
      StepKeeps(Value(), Section(w));
      task := [];
      if !stop && jobs == [] {
        workers := workers[w := Waiting];
      } else if stop && jobs == [] {
        workers := workers[w := Exited];
      } else {
        task := [jobs[0]];
        workers := workers[w := Running(jobs[0])];
        dequeued := dequeued + [jobs[0]];
        jobs := jobs[1..];
      }
    }

    method WakeSpuriously(w: nat)
      requires Enabled(Value(), Spurious(w))
      requires Inv(Value())
      modifies this
      ensures Inv(Value())
      ensures Value() == After(old(Value()), Spurious(w))
    {
      hide Inv;
      StepKeeps(Value(), Spurious(w));
      workers := workers[w := Awake];
    }

    method Complete(w: nat)
      requires Enabled(Value(), Finish(w))
      requires Inv(Value())
      modifies this
      ensures Inv(Value())
      ensures Value() == After(old(Value()), Finish(w))
    {
      hide Inv;
      StepKeeps(Value(), Finish(w));
      completed := completed + multiset{workers[w].job};
      workers := workers[w := Awake];
    }

    method Stop()
      requires !stop
      requires Inv(Value())
      modifies this
      ensures Inv(Value())
      ensures Value() == After(old(Value()), SetStop)
    {
      hide Inv;
      StepKeeps(Value(), SetStop);
      stop := true;
      stopMark := |submitted|;
    }

    method NotifyEverybody()
      requires stop && !notifiedAll
      requires Inv(Value())
      modifies this
      ensures Inv(Value())
      ensures Value() == After(old(Value()), NotifyAll)
    {
      hide Inv;
      StepKeeps(Value(), NotifyAll);
      notifiedAll := true;
      for i := 0 to |workers|
        invariant Value() == old(Value()).(notifiedAll := true, workers := workers) && |workers| == |old(workers)|
        invariant forall k | 0 <= k < |workers| :: workers[k] == if k < i then WakeAll(old(workers))[k] else old(workers)[k]
      {
        if workers[i].Waiting? { workers := workers[i := Awake]; }
      }
      assert workers == WakeAll(old(workers));
    }
  }

  // ---------- Runs ----------

  ghost predicate IsRun(s: State, ts: seq<Step>)
    decreases |ts|
  {
    ts != [] ==> Enabled(s, ts[0]) && IsRun(After(s, ts[0]), ts[1..])
  }

  ghost function End(s: State, ts: seq<Step>): State
    requires IsRun(s, ts)
    decreases |ts|
  {
    if ts == [] then s else End(After(s, ts[0]), ts[1..])
  }

  lemma {:induction false} RunKeeps(s: State, ts: seq<Step>)
    requires Inv(s) && IsRun(s, ts)
    ensures Inv(End(s, ts)) && |End(s, ts).workers| == |s.workers|
    decreases |ts|
  {
    hide Inv, After, Enabled;
    if ts != [] {
      StepKeeps(s, ts[0]);
      RunKeeps(After(s, ts[0]), ts[1..]);
    }
  }

  ghost predicate AllExited(s: State) { forall i | 0 <= i < |s.workers| :: s.workers[i].Exited? }

  /** In every run: no job is lost or duplicated, and jobs start in the order of submission. */
  lemma NoJobLost(size: nat, ts: seq<Step>)
    requires IsRun(Initial(size), ts)
    ensures var s := End(Initial(size), ts);
            && s.dequeued <= s.submitted
            && multiset(s.submitted) == multiset(s.jobs) + RunningJobs(s.workers) + s.completed
  {
    InitialInv(size);
    RunKeeps(Initial(size), ts);
  }

  /** No lost wake-up: until the pool is stopped, a queued job finds a worker awake, a notification on its
      way, or every worker busy. */
  lemma NoLostWakeUp(size: nat, ts: seq<Step>)
    requires IsRun(Initial(size), ts) && !End(Initial(size), ts).stop
    ensures var s := End(Initial(size), ts);
            && (NoneWaiting(s.workers) || |s.jobs| <= s.pending + AwakeCount(s))
            && (s.jobs != [] ==>
                  || s.pending > 0
                  || (exists w :: 0 <= w < |s.workers| && s.workers[w].Awake?)
                  || forall w | 0 <= w < |s.workers| :: s.workers[w].Running?)
  {
    InitialInv(size);
    RunKeeps(Initial(size), ts);
    var s := End(Initial(size), ts);
    if forall w | 0 <= w < |s.workers| :: !s.workers[w].Awake? { SumOfNone(1, 0, s.workers); }
  }

  /** When all workers of a pool have returned, every job submitted before the stop is completed, and all
      jobs are completed exactly when none is left in the queue. */
  lemma Drained(size: nat, ts: seq<Step>)
    requires IsRun(Initial(size), ts) && size > 0 && AllExited(End(Initial(size), ts))
    ensures var s := End(Initial(size), ts);
            && s.stop && s.stopMark <= |s.dequeued| <= |s.submitted| && s.completed == multiset(s.dequeued)
            && multiset(s.submitted[..s.stopMark]) <= s.completed
            && (s.completed == multiset(s.submitted) <==> s.jobs == [])
            && (|s.submitted| == s.stopMark ==> s.completed == multiset(s.submitted))
  {
    InitialInv(size);
    RunKeeps(Initial(size), ts);
    var s := End(Initial(size), ts);
    NoneRunning(s.workers);
    assert s.workers[0].Exited?;
    var early := s.submitted[..s.stopMark];
    assert s.dequeued == early + s.dequeued[s.stopMark..];
    assert multiset(s.submitted) == multiset(s.dequeued) + multiset(s.jobs);
    if s.jobs != [] { assert s.jobs[0] in multiset(s.jobs); }
  }

  // ---------- The destructor's joins return ----------

  /** The steps left when everybody is awake and nothing more is submitted. */
  ghost function StepsLeft(s: State): nat { s.pending + 3 * |s.jobs| + Sum(1, 2, s.workers) }

  ghost predicate NoSubmits(ts: seq<Step>) { forall i | 0 <= i < |ts| :: !ts[i].Submit? }

  lemma StepsRunOut(s: State, t: Step)
    requires Enabled(s, t) && !t.Submit? && s.notifiedAll && s.stop && NoneWaiting(s.workers)
    ensures StepsLeft(After(s, t)) < StepsLeft(s)
    ensures After(s, t).notifiedAll && After(s, t).stop && NoneWaiting(After(s, t).workers)
  {
    match t
    case Section(w) => SumUpdate(1, 2, s.workers, w, After(s, t).workers[w]);
    case Finish(w) => SumUpdate(1, 2, s.workers, w, Awake);
    case NotifyNobody =>
  }

  lemma {:induction false} RunsOut(s: State, ts: seq<Step>)
    requires IsRun(s, ts) && NoSubmits(ts) && s.notifiedAll && s.stop && NoneWaiting(s.workers)
    ensures |ts| <= StepsLeft(s)
    decreases |ts|
  {
    if ts != [] {
      StepsRunOut(s, ts[0]);
      RunsOut(After(s, ts[0]), ts[1..]);
    }
  }

  /** After `notify_all`, if nothing more is submitted, only so many steps can follow; and as long as a
      worker has not returned one can: the joins neither hang nor spin. */
  lemma JoinReturns(size: nat, ts: seq<Step>, more: seq<Step>)
    requires IsRun(Initial(size), ts) && End(Initial(size), ts).notifiedAll
    requires IsRun(End(Initial(size), ts), more) && NoSubmits(more)
    ensures |more| <= StepsLeft(End(Initial(size), ts))
    ensures !AllExited(End(End(Initial(size), ts), more)) ==>
              exists t :: Enabled(End(End(Initial(size), ts), more), t) && !t.Submit?
  {
    hide Accounted, WorkConserving, End;
    InitialInv(size);
    RunKeeps(Initial(size), ts);
    var s := End(Initial(size), ts);
    RunsOut(s, more);
    RunKeeps(s, more);
    StaysStopped(s, more);
    var e := End(s, more);
    if !AllExited(e) {
      var w :| 0 <= w < |e.workers| && !e.workers[w].Exited?;
      assert Enabled(e, Section(w)) || Enabled(e, Finish(w));
    }
  }

  lemma {:induction false} StaysStopped(s: State, ts: seq<Step>)
    requires IsRun(s, ts)
    ensures s.notifiedAll ==> End(s, ts).notifiedAll
    ensures s.stop ==> End(s, ts).stop && End(s, ts).stopMark == s.stopMark
    decreases |ts|
  {
    if ts != [] { StaysStopped(After(s, ts[0]), ts[1..]); }
  }

  // ---------- Jobs submitted too late ----------

  lemma ExitedStays(s: State, t: Step)
    requires Enabled(s, t) && AllExited(s)
    ensures AllExited(After(s, t)) && After(s, t).completed == s.completed
    ensures After(s, t).dequeued == s.dequeued && s.jobs <= After(s, t).jobs
  {
  }

  /** Once all workers have returned, what is in the queue stays there, and what is submitted joins it:
      such a job never runs. */
  lemma {:induction false} StrandedForEver(s: State, ts: seq<Step>)
    requires AllExited(s) && IsRun(s, ts)
    ensures s.jobs <= End(s, ts).jobs && End(s, ts).completed == s.completed && End(s, ts).dequeued == s.dequeued
    decreases |ts|
  {
    if ts != [] {
      ExitedStays(s, ts[0]);
      StrandedForEver(After(s, ts[0]), ts[1..]);
    }
  }

  /** The job submitted as number `k` is taken, or a worker is left to take it. */
  ghost predicate Awaited(s: State, k: nat) {
    k < |s.submitted| && (AllExited(s) ==> k < |s.dequeued|)
  }

  lemma StepAwaits(s: State, t: Step, k: nat)
    requires Enabled(s, t) && Accounted(s) && Awaited(s, k)
    ensures Awaited(After(s, t), k)
  {
    if AllExited(After(s, t)) && !AllExited(s) {
      var w :| 0 <= w < |s.workers| && !s.workers[w].Exited?;
      assert After(s, t).workers[w].Exited?;
    }
  }

  lemma {:induction false} RunAwaits(s: State, ts: seq<Step>, k: nat)
    requires Inv(s) && IsRun(s, ts) && Awaited(s, k)
    ensures Awaited(End(s, ts), k)
    decreases |ts|
  {
    hide Accounted, WorkConserving, Stopping, Awaited, After, Enabled;
    if ts != [] {
      StepAwaits(s, ts[0], k);
      StepKeeps(s, ts[0]);
      RunAwaits(After(s, ts[0]), ts[1..], k);
    }
  }

  lemma {:induction false} SubmittedStays(s: State, ts: seq<Step>)
    requires IsRun(s, ts)
    ensures s.submitted <= End(s, ts).submitted
    decreases |ts|
  {
    if ts != [] { SubmittedStays(After(s, ts[0]), ts[1..]); }
  }

  /** Whenever a job is submitted, before the stop or after it, when the submission throws: once all workers
      have returned, the job is completed if and only if some worker had not returned at its submission. */
  lemma SubmittedRunsExactly(size: nat, before: seq<Step>, j: Job, after: seq<Step>)
    requires IsRun(Initial(size), before)
    requires IsRun(After(End(Initial(size), before), Submit(j)), after)
    requires AllExited(End(After(End(Initial(size), before), Submit(j)), after))
    ensures var s := End(Initial(size), before);
            var e, k := End(After(s, Submit(j)), after), |s.submitted|;
            && e.completed == multiset(e.dequeued) && e.dequeued <= e.submitted
            && k < |e.submitted| && e.submitted[k] == j
            && (k < |e.dequeued| <==> !AllExited(s))
            && (AllExited(s) ==> e.completed == s.completed && j in e.jobs)
  {
    hide IsRun, End, After, WorkConserving, Stopping;
    InitialInv(size);
    RunKeeps(Initial(size), before);
    var s := End(Initial(size), before);
    StepKeeps(s, Submit(j));
    var t := After(s, Submit(j));
    SubmitIsLast(s, j);
    RunKeeps(t, after);
    SubmittedStays(t, after);
    var e := End(t, after);
    NoneRunning(e.workers);
    assert multiset{} + e.completed == e.completed;
    if AllExited(s) {
      StrandedForEver(t, after);
      assert j in t.jobs;
    } else {
      RunAwaits(t, after, |s.submitted|);
    }
  }

  lemma SubmitIsLast(s: State, j: Job)
    ensures var t := After(s, Submit(j));
            && t.submitted == s.submitted + [j] && t.jobs == s.jobs + [j] && t.completed == s.completed
            && t.dequeued == s.dequeued && t.workers == s.workers
  {
  }

  lemma Then(s: State, t: Step, ts: seq<Step>)
    requires Enabled(s, t) && IsRun(After(s, t), ts)
    ensures IsRun(s, [t] + ts) && End(s, [t] + ts) == End(After(s, t), ts)
  {
    assert ([t] + ts)[1..] == ts;
  }

  /** A witness that the job of a submission that throws may run. */
  lemma ThrownJobMayRun(job: Job)
    ensures exists ts :: IsRun(Initial(1), ts) && ts == [SetStop, Submit(job), Section(0), Finish(0)]
                         && End(Initial(1), ts).completed == multiset{job}
  {
    var s1 := After(Initial(1), SetStop);
    var s2 := After(s1, Submit(job));
    var s3 := After(s2, Section(0));
    Then(s3, Finish(0), []);
    Then(s2, Section(0), [Finish(0)]);
    Then(s1, Submit(job), [Section(0), Finish(0)]);
    Then(Initial(1), SetStop, [Submit(job), Section(0), Finish(0)]);
    assert IsRun(Initial(1), [SetStop] + [Submit(job), Section(0), Finish(0)]);
  }

  /** A witness that it may be left behind. */
  lemma ThrownJobMayStay(job: Job)
    ensures exists ts :: IsRun(Initial(1), ts) && ts == [SetStop, Section(0), Submit(job)]
                         && AllExited(End(Initial(1), ts)) && End(Initial(1), ts).jobs == [job]
  {
    var s1 := After(Initial(1), SetStop);
    var s2 := After(s1, Section(0));
    Then(s2, Submit(job), []);
    Then(s1, Section(0), [Submit(job)]);
    Then(Initial(1), SetStop, [Section(0), Submit(job)]);
    assert IsRun(Initial(1), [SetStop] + [Section(0), Submit(job)]);
  }

  /** A pool without workers completes nothing, whatever is submitted. */
  lemma EmptyPoolCompletesNothing(ts: seq<Step>)
    requires IsRun(Initial(0), ts)
    ensures End(Initial(0), ts).completed == multiset{} && End(Initial(0), ts).jobs == End(Initial(0), ts).submitted
  {
    hide End, After, IsRun, WorkConserving, Stopping;
    InitialInv(0);
    RunKeeps(Initial(0), ts);
    StrandedForEver(Initial(0), ts);
    var s := End(Initial(0), ts);
    assert s.dequeued == [] && [] + s.jobs == s.jobs;
  }

  lemma StepStop(s: State, t: Step)
    requires Enabled(s, t)
    ensures After(s, t).stop <==> s.stop || t == SetStop
  {
  }

  lemma {:induction false} StopsWhenSet(s: State, ts: seq<Step>)
    requires IsRun(s, ts)
    ensures End(s, ts).stop <==> s.stop || SetStop in ts
    decreases |ts|
  {
    hide After, Enabled;
    if ts != [] {
      StepStop(s, ts[0]);
      assert ts == [ts[0]] + ts[1..];
      StopsWhenSet(After(s, ts[0]), ts[1..]);
    }
  }

  /** A pool keeps its number of workers, and a submission throws exactly when the stop came before it. */
  lemma ThrowsExactlyAfterStop(size: nat, ts: seq<Step>, j: Job)
    requires IsRun(Initial(size), ts)
    ensures |End(Initial(size), ts).workers| == size
    ensures Throws(End(Initial(size), ts), Submit(j)) <==> SetStop in ts
  {
    InitialInv(size);
    RunKeeps(Initial(size), ts);
    StopsWhenSet(Initial(size), ts);
  }
}
