// Worker threads drain a queue of tensors and fit each at every bit width, under any interleaving,
// with failures, fatal device errors and exceptions that escape. A report says whether all was done.
module CheckpointRunner {
  import opened Numeric

  // Tensor `job` fitted at the width with index `bit`.
  datatype Done = Done(job: nat, bit: nat)

  datatype Worker =
    | Starting                      // before the device is set
    | Idle                          // at the head of the loop
    | Taken(job: nat)               // a job in hand, not yet counted active
    | Busy(job: nat, done: nat)     // `done` widths completed
    | Leaving(fatal: bool)          // in the finally block
    | Raising                       // there too, with an exception on its way out
    | Exited
    | Crashed                       // an exception escaped: no report will be written

  datatype State = State(queue: seq<nat>, workers: seq<Worker>, completed: seq<Done>, failures: seq<nat>, active: int)

  datatype Step =
    | Start(w: nat)
    | Crash(w: nat)
    | Take(w: nat)
    | Enter(w: nat)
    | Complete(w: nat)
    | Fail(w: nat, fatal: bool)
    | Finish(w: nat)
    | Raise(w: nat, noted: bool)    // what the handler lets through or raises itself
    | Leave(w: nat)
    | Break(w: nat)                 // the finally block raises
    | Stop(w: nat)

  function Upto(n: nat): (xs: seq<nat>)
    ensures |xs| == n && forall i :: 0 <= i < n ==> xs[i] == i
  {
    seq(n, i requires 0 <= i < n => i)
  }

  function Init(jobs: nat, workers: nat): State {
    State(Upto(jobs), seq(workers, i => Starting), [], [], 0)
  }

  predicate Enabled(s: State, widths: nat, step: Step) {
    && step.w < |s.workers|
    && var me := s.workers[step.w];
    match step
    case Start(w) => me.Starting?
    case Crash(w) => me.Starting?
    case Take(w) => me.Idle? && s.queue != []
    case Enter(w) => me.Taken?
    case Complete(w) => me.Busy? && me.done < widths
    case Fail(w, fatal) => me.Busy?
    case Finish(w) => me.Busy? && me.done == widths
    case Raise(w, noted) => me.Busy?
    case Leave(w) => me.Leaving? || me.Raising?
    case Break(w) => me.Leaving? || me.Raising?
    case Stop(w) => me.Idle? && s.queue == []
  }

  function AfterLeaving(me: Worker): Worker
    requires me.Leaving? || me.Raising?
  {
    if me.Raising? then Crashed else if me.fatal then Exited else Idle
  }

  function Next(s: State, widths: nat, step: Step): State
    requires Enabled(s, widths, step)
  {
    var w, me := step.w, s.workers[step.w];
    match step
    case Start(_) => s.(workers := s.workers[w := Idle])
    case Crash(_) => s.(workers := s.workers[w := Crashed])
    case Take(_) => s.(workers := s.workers[w := Taken(s.queue[0])], queue := s.queue[1..])
    case Enter(_) => s.(workers := s.workers[w := Busy(me.job, 0)], active := s.active + 1)
    case Complete(_) =>
      s.(workers := s.workers[w := Busy(me.job, me.done + 1)], completed := s.completed + [Done(me.job, me.done)])
    case Fail(_, fatal) => s.(workers := s.workers[w := Leaving(fatal)], failures := s.failures + [me.job])
    case Finish(_) => s.(workers := s.workers[w := Leaving(false)])
    case Raise(_, noted) =>
      s.(workers := s.workers[w := Raising], failures := s.failures + if noted then [me.job] else [])
    case Leave(_) => s.(workers := s.workers[w := AfterLeaving(me)], active := s.active - 1)
    case Break(_) => s.(workers := s.workers[w := Crashed], active := s.active - 1)
    case Stop(_) => s.(workers := s.workers[w := Exited])
  }

  // Every interleaving of the workers' steps is such a list.
  predicate Run(s: State, widths: nat, steps: seq<Step>)
    decreases |steps|
  {
    |steps| == 0 || (Enabled(s, widths, steps[0]) && Run(Next(s, widths, steps[0]), widths, steps[1..]))
  }

  function Final(s: State, widths: nat, steps: seq<Step>): State
    requires Run(s, widths, steps)
    decreases |steps|
  {
    if |steps| == 0 then s else Final(Next(s, widths, steps[0]), widths, steps[1..])
  }

  // ----- what every step keeps -----

  predicate Holds(me: Worker, job: nat) { (me.Taken? || me.Busy?) && me.job == job }

  predicate Once(xs: seq<Done>) { forall i, j :: 0 <= i < j < |xs| ==> xs[i] != xs[j] }

  predicate QueueOk(s: State, jobs: nat) {
    && (forall i :: 0 <= i < |s.queue| ==> s.queue[i] < jobs)
    && (forall i, j :: 0 <= i < j < |s.queue| ==> s.queue[i] != s.queue[j])
  }

  // A held job is in one hand only and no longer queued.
  predicate HeldOk(s: State, jobs: nat, widths: nat, w: nat)
    requires w < |s.workers|
  {
    var me := s.workers[w];
    me.Taken? || me.Busy? ==>
      && me.job < jobs && me.job !in s.queue
      && (forall v: nat :: v < |s.workers| && Holds(s.workers[v], me.job) ==> v == w)
      && (me.Busy? ==> me.done <= widths && forall k: nat :: k < me.done ==> Done(me.job, k) in s.completed)
  }

  // Completed work belongs to a job that left the queue, and to a width its holder has passed.
  predicate EntryOk(s: State, jobs: nat, widths: nat, d: Done) {
    && d.job < jobs && d.bit < widths && d.job !in s.queue
    && forall w :: 0 <= w < |s.workers| && Holds(s.workers[w], d.job) ==>
      s.workers[w].Busy? && d.bit < s.workers[w].done
  }

  predicate Raised(me: Worker) { me.Raising? || me.Crashed? }

  predicate AnyRaised(workers: seq<Worker>) { exists w :: 0 <= w < |workers| && Raised(workers[w]) }

  // A job neither queued nor held was failed or done at every width, unless an exception escaped.
  predicate JobOk(s: State, widths: nat, job: nat) {
    || AnyRaised(s.workers)
    || job in s.queue
    || (exists w :: 0 <= w < |s.workers| && Holds(s.workers[w], job))
    || job in s.failures
    || forall k: nat :: k < widths ==> Done(job, k) in s.completed
  }

  // Workers stop only on an empty queue or after a failure.
  predicate ExitOk(s: State, w: nat)
    requires w < |s.workers|
  {
    && (s.workers[w].Exited? ==> s.queue == [] || s.failures != [])
    && (s.workers[w] == Leaving(true) ==> s.failures != [])
  }

  predicate Counted(me: Worker) { me.Busy? || me.Leaving? || me.Raising? }

  function ActiveCount(workers: seq<Worker>): nat {
    if |workers| == 0 then 0
    else ActiveCount(workers[..|workers| - 1]) + if Counted(workers[|workers| - 1]) then 1 else 0
  }

  ghost predicate Inv(s: State, jobs: nat, widths: nat) {
    && QueueOk(s, jobs)
    && (forall w :: 0 <= w < |s.workers| ==> HeldOk(s, jobs, widths, w) && ExitOk(s, w))
    && Once(s.completed)
    && (forall d :: d in s.completed ==> EntryOk(s, jobs, widths, d))
    && (forall job: nat :: job < jobs ==> JobOk(s, widths, job))
    && s.active == ActiveCount(s.workers)
  }

  lemma {:induction false} NoneActive(workers: seq<Worker>)
    requires forall w :: 0 <= w < |workers| ==> !Counted(workers[w])
    ensures ActiveCount(workers) == 0
  {
    if |workers| > 0 { NoneActive(workers[..|workers| - 1]); }
  }

  lemma {:induction false} ActiveUpdate(workers: seq<Worker>, w: nat, me: Worker)
    requires w < |workers|
    ensures ActiveCount(workers[w := me])
         == ActiveCount(workers) - (if Counted(workers[w]) then 1 else 0) + (if Counted(me) then 1 else 0)
  {
    var n := |workers| - 1;
    if w == n {
      assert workers[w := me][..n] == workers[..n];
    } else {
      ActiveUpdate(workers[..n], w, me);
      assert workers[w := me][..n] == workers[..n][w := me];
    }
  }

  lemma InitInv(jobs: nat, workers: nat, widths: nat)
    ensures Inv(Init(jobs, workers), jobs, widths)
  {
    var s := Init(jobs, workers);
    NoneActive(s.workers);
    forall job: nat | job < jobs
      ensures JobOk(s, widths, job)
    {
      assert s.queue[job] == job;
    }
  }

  // ----- step by step -----

  lemma RaisedStays(workers: seq<Worker>, w: nat, me: Worker)
    requires w < |workers| && AnyRaised(workers) && (Raised(workers[w]) ==> Raised(me))
    ensures AnyRaised(workers[w := me])
  {
    var v :| 0 <= v < |workers| && Raised(workers[v]);
    assert Raised(workers[w := me][v]);
  }

  // A worker that holds nothing changes to another state that holds nothing.
  lemma QuietKeeps(s: State, jobs: nat, widths: nat, w: nat, me: Worker, active: int)
    requires Inv(s, jobs, widths) && w < |s.workers|
    requires !s.workers[w].Taken? && !s.workers[w].Busy? && !me.Taken? && !me.Busy?
    requires me.Exited? ==> s.queue == [] || s.failures != []
    requires me != Leaving(true) && (Raised(s.workers[w]) ==> Raised(me))
    requires active == ActiveCount(s.workers[w := me])
    ensures Inv(s.(workers := s.workers[w := me], active := active), jobs, widths)
  {
    hide ActiveCount;
    var t := s.(workers := s.workers[w := me], active := active);
    forall v | 0 <= v < |t.workers|
      ensures HeldOk(t, jobs, widths, v) && ExitOk(t, v)
    {
      assert HeldOk(s, jobs, widths, v) && ExitOk(s, v);
    }
    forall d | d in t.completed
      ensures EntryOk(t, jobs, widths, d)
    {
      assert EntryOk(s, jobs, widths, d);
    }
    forall job: nat | job < jobs
      ensures JobOk(t, widths, job)
    {
      assert JobOk(s, widths, job);
      if AnyRaised(s.workers) { RaisedStays(s.workers, w, me); }
      if v :| 0 <= v < |s.workers| && Holds(s.workers[v], job) {
        assert Holds(t.workers[v], job);
      }
    }
  }

  lemma TakeKeeps(s: State, jobs: nat, widths: nat, w: nat)
    requires Inv(s, jobs, widths) && Enabled(s, widths, Take(w))
    ensures Inv(Next(s, widths, Take(w)), jobs, widths)
  {
    var t := Next(s, widths, Take(w));
    var job := s.queue[0];
    ActiveUpdate(s.workers, w, Taken(job));
    hide ActiveCount;
    assert job in s.queue && forall i :: 0 <= i < |t.queue| ==> t.queue[i] == s.queue[i + 1];
    assert job !in t.queue;
    assert forall j :: j in t.queue ==> j in s.queue;
    forall v | 0 <= v < |s.workers|
      ensures !Holds(s.workers[v], job)
    {
      assert HeldOk(s, jobs, widths, v);
    }
    forall v | 0 <= v < |t.workers|
      ensures HeldOk(t, jobs, widths, v) && ExitOk(t, v)
    {
      assert HeldOk(s, jobs, widths, v) && ExitOk(s, v);
    }
    forall d | d in t.completed
      ensures EntryOk(t, jobs, widths, d)
    {
      assert EntryOk(s, jobs, widths, d);
    }
    forall j: nat | j < jobs
      ensures JobOk(t, widths, j)
    {
      assert JobOk(s, widths, j);
      if AnyRaised(s.workers) { RaisedStays(s.workers, w, t.workers[w]); }
      if j == job {
        assert Holds(t.workers[w], j);
      } else if j in s.queue {
        assert j in t.queue;
      } else if v :| 0 <= v < |s.workers| && Holds(s.workers[v], j) {
        assert Holds(t.workers[v], j);
      }
    }
  }

  // The held job stays held: nothing is queued, completed or failed.
  lemma EnterKeeps(s: State, jobs: nat, widths: nat, w: nat)
    requires Inv(s, jobs, widths) && Enabled(s, widths, Enter(w))
    ensures Inv(Next(s, widths, Enter(w)), jobs, widths)
  {
    var t := Next(s, widths, Enter(w));
    ActiveUpdate(s.workers, w, t.workers[w]);
    hide ActiveCount;
    assert HeldOk(s, jobs, widths, w);
    forall v | 0 <= v < |t.workers|
      ensures HeldOk(t, jobs, widths, v) && ExitOk(t, v)
    {
      assert HeldOk(s, jobs, widths, v) && ExitOk(s, v);
    }
    forall d | d in t.completed
      ensures EntryOk(t, jobs, widths, d)
    {
      assert EntryOk(s, jobs, widths, d);
      assert Holds(s.workers[w], s.workers[w].job);
    }
    forall j: nat | j < jobs
      ensures JobOk(t, widths, j)
    {
      assert JobOk(s, widths, j);
      if AnyRaised(s.workers) { RaisedStays(s.workers, w, t.workers[w]); }
      if v :| 0 <= v < |s.workers| && Holds(s.workers[v], j) {
        assert Holds(t.workers[v], j);
      }
    }
  }

  lemma CompleteKeeps(s: State, jobs: nat, widths: nat, w: nat)
    requires Inv(s, jobs, widths) && Enabled(s, widths, Complete(w))
    ensures Inv(Next(s, widths, Complete(w)), jobs, widths)
  {
    var t := Next(s, widths, Complete(w));
    var me := s.workers[w];
    var now := Done(me.job, me.done);
    ActiveUpdate(s.workers, w, t.workers[w]);
    hide ActiveCount;
    assert HeldOk(s, jobs, widths, w) && Holds(me, me.job);
    assert now in s.completed ==> EntryOk(s, jobs, widths, now);
    assert forall d :: d in s.completed ==> d in t.completed;
    assert now in t.completed;
    forall v | 0 <= v < |t.workers|
      ensures HeldOk(t, jobs, widths, v) && ExitOk(t, v)
    {
      assert HeldOk(s, jobs, widths, v) && ExitOk(s, v);
    }
    forall d | d in t.completed
      ensures EntryOk(t, jobs, widths, d)
    {
      assert d == now || EntryOk(s, jobs, widths, d);
    }
    forall j: nat | j < jobs
      ensures JobOk(t, widths, j)
    {
      assert JobOk(s, widths, j);
      if AnyRaised(s.workers) { RaisedStays(s.workers, w, t.workers[w]); }
      if v :| 0 <= v < |s.workers| && Holds(s.workers[v], j) {
        assert Holds(t.workers[v], j);
      }
    }
  }

  // Letting a job go is right when it failed, is done at every width, or takes the worker down.
  lemma ReleaseKeeps(s: State, jobs: nat, widths: nat, w: nat, me: Worker, failures: seq<nat>)
    requires Inv(s, jobs, widths) && w < |s.workers| && s.workers[w].Busy? && (me.Leaving? || me.Raising?)
    requires s.failures <= failures && (me == Leaving(true) ==> failures != [])
    requires s.workers[w].job in failures || s.workers[w].done == widths || me.Raising?
    ensures Inv(s.(workers := s.workers[w := me], failures := failures), jobs, widths)
  {
    var t := s.(workers := s.workers[w := me], failures := failures);
    ActiveUpdate(s.workers, w, me);
    hide ActiveCount;
    assert HeldOk(s, jobs, widths, w);
    assert forall f :: f in s.failures ==> f in failures;
    forall v | 0 <= v < |t.workers|
      ensures HeldOk(t, jobs, widths, v) && ExitOk(t, v)
    {
      assert HeldOk(s, jobs, widths, v) && ExitOk(s, v);
    }
    forall d | d in t.completed
      ensures EntryOk(t, jobs, widths, d)
    {
      assert EntryOk(s, jobs, widths, d);
    }
    forall j: nat | j < jobs
      ensures JobOk(t, widths, j)
    {
      assert JobOk(s, widths, j);
      if AnyRaised(s.workers) { RaisedStays(s.workers, w, me); }
      assert Raised(t.workers[w]) <==> me.Raising?;
      if v :| 0 <= v < |s.workers| && Holds(s.workers[v], j) {
        if v != w { assert Holds(t.workers[v], j); }
      }
    }
  }

  lemma StepKeeps(s: State, jobs: nat, widths: nat, step: Step)
    requires Inv(s, jobs, widths) && Enabled(s, widths, step)
    ensures Inv(Next(s, widths, step), jobs, widths)
  {
    hide Inv;
    var w := step.w;
    match step
    case Take(_) => TakeKeeps(s, jobs, widths, w);
    case Enter(_) => EnterKeeps(s, jobs, widths, w);
    case Complete(_) => CompleteKeeps(s, jobs, widths, w);
    case Fail(_, fatal) => ReleaseKeeps(s, jobs, widths, w, Leaving(fatal), s.failures + [s.workers[w].job]);
    case Finish(_) => ReleaseKeeps(s, jobs, widths, w, Leaving(false), s.failures);
    case Raise(_, noted) => RaiseKeeps(s, jobs, widths, w, noted);
    case _ => QuietStepKeeps(s, jobs, widths, step);
  }

  lemma RaiseKeeps(s: State, jobs: nat, widths: nat, w: nat, noted: bool)
    requires Inv(s, jobs, widths) && Enabled(s, widths, Raise(w, noted))
    ensures Inv(Next(s, widths, Raise(w, noted)), jobs, widths)
  {
    hide Inv;
    ReleaseKeeps(s, jobs, widths, w, Raising, s.failures + if noted then [s.workers[w].job] else []);
  }

  lemma QuietStepKeeps(s: State, jobs: nat, widths: nat, step: Step)
    requires Inv(s, jobs, widths) && Enabled(s, widths, step)
    requires step.Start? || step.Crash? || step.Leave? || step.Break? || step.Stop?
    ensures Inv(Next(s, widths, step), jobs, widths)
  {
    var w := step.w;
    var t := Next(s, widths, step);
    assert ExitOk(s, w);
    ActiveUpdate(s.workers, w, t.workers[w]);
    hide Inv, ActiveCount;
    InvActive(s, jobs, widths);
    QuietKeeps(s, jobs, widths, w, t.workers[w], t.active);
  }

  lemma InvActive(s: State, jobs: nat, widths: nat)
    requires Inv(s, jobs, widths)
    ensures s.active == ActiveCount(s.workers)
  {
  }

  // The invariant holds after every run.
  lemma {:induction false} RunKeeps(s: State, jobs: nat, widths: nat, steps: seq<Step>)
    requires Inv(s, jobs, widths) && Run(s, widths, steps)
    ensures Inv(Final(s, widths, steps), jobs, widths)
    ensures |Final(s, widths, steps).workers| == |s.workers|
    decreases |steps|
  {
    hide Inv, Enabled;
    if |steps| > 0 {
      StepKeeps(s, jobs, widths, steps[0]);
      StepWorkers(s, widths, steps[0]);
      RunKeeps(Next(s, widths, steps[0]), jobs, widths, steps[1..]);
    }
  }

  lemma StepWorkers(s: State, widths: nat, step: Step)
    requires Enabled(s, widths, step)
    ensures |Next(s, widths, step).workers| == |s.workers|
  {
  }

  // ----- every run ends -----

  function Left(me: Worker, widths: nat): nat {
    match me
    case Starting => 2
    case Idle => 1
    case Taken(_) => widths + 4
    case Busy(_, done) => if done <= widths then widths + 3 - done else 3
    case Leaving(_) => 2
    case Raising => 2
    case _ => 0
  }

  function AllLeft(workers: seq<Worker>, widths: nat): nat {
    if |workers| == 0 then 0 else AllLeft(workers[..|workers| - 1], widths) + Left(workers[|workers| - 1], widths)
  }

  function StepsLeft(s: State, widths: nat): nat { |s.queue| * (widths + 5) + AllLeft(s.workers, widths) }

  lemma {:induction false} LeftUpdate(workers: seq<Worker>, widths: nat, w: nat, me: Worker)
    requires w < |workers|
    ensures AllLeft(workers[w := me], widths) == AllLeft(workers, widths) - Left(workers[w], widths) + Left(me, widths)
  {
    hide Left;
    var n := |workers| - 1;
    if w == n {
      assert workers[w := me][..n] == workers[..n];
    } else {
      LeftUpdate(workers[..n], widths, w, me);
      assert workers[w := me][..n] == workers[..n][w := me];
    }
  }

  lemma StepUses(s: State, widths: nat, step: Step)
    requires Enabled(s, widths, step)
    ensures StepsLeft(Next(s, widths, step), widths) < StepsLeft(s, widths)
  {
    var t := Next(s, widths, step);
    LeftUpdate(s.workers, widths, step.w, t.workers[step.w]);
    hide AllLeft;
    if step.Take? {
      OneFewer(|s.queue|, widths + 5);
    }
  }

  lemma OneFewer(n: nat, k: nat)
    requires n > 0
    ensures n * k == (n - 1) * k + k
  {
  }

  // No run is longer than the work there was: the workers cannot go on for ever.
  lemma {:induction false} RunIsBounded(s: State, widths: nat, steps: seq<Step>)
    requires Run(s, widths, steps)
    ensures |steps| <= StepsLeft(s, widths)
    decreases |steps|
  {
    hide StepsLeft, Enabled;
    if |steps| > 0 {
      StepUses(s, widths, steps[0]);
      RunIsBounded(Next(s, widths, steps[0]), widths, steps[1..]);
    }
  }

  predicate Ended(s: State) { forall w :: 0 <= w < |s.workers| ==> s.workers[w].Exited? || s.workers[w].Crashed? }

  // And none gets stuck: some worker can move until all have left.
  lemma NeverStuck(s: State, jobs: nat, widths: nat)
    requires Inv(s, jobs, widths) && !Ended(s)
    ensures exists step :: Enabled(s, widths, step)
  {
    var w :| 0 <= w < |s.workers| && !s.workers[w].Exited? && !s.workers[w].Crashed?;
    assert HeldOk(s, jobs, widths, w);
    match s.workers[w]
    case Starting => assert Enabled(s, widths, Start(w));
    case Idle => assert Enabled(s, widths, if s.queue != [] then Take(w) else Stop(w));
    case Taken(_) => assert Enabled(s, widths, Enter(w));
    case Busy(_, _) => assert Enabled(s, widths, Fail(w, false));
    case Leaving(_) => assert Enabled(s, widths, Leave(w));
    case Raising => assert Enabled(s, widths, Leave(w));
  }

  // ----- the report -----

  datatype Report = Report(completed: seq<Done>, failures: seq<nat>, total: nat, verified: bool)

  // The main thread's last lines: no report after a crash, otherwise verdict and exit code.
  function ReportOf(s: State, jobs: nat, widths: nat): Report {
    Report(s.completed, s.failures, jobs * widths, s.failures == [] && |s.completed| == jobs * widths)
  }

  predicate AnyCrash(s: State) { exists w :: 0 <= w < |s.workers| && s.workers[w].Crashed? }

  // No (tensor, width) is completed twice, in any run.
  lemma NeverTwice(jobs: nat, workers: nat, widths: nat, steps: seq<Step>)
    requires Run(Init(jobs, workers), widths, steps)
    ensures Once(Final(Init(jobs, workers), widths, steps).completed)
    ensures forall d :: d in Final(Init(jobs, workers), widths, steps).completed ==> d.job < jobs && d.bit < widths
  {
    hide Init, Once;
    InitInv(jobs, workers, widths);
    RunKeeps(Init(jobs, workers), jobs, widths, steps);
    var s := Final(Init(jobs, workers), widths, steps);
    forall d | d in s.completed
      ensures d.job < jobs && d.bit < widths
    {
      assert EntryOk(s, jobs, widths, d);
    }
  }

  // ----- what a verdict means -----

  predicate Each(xs: seq<Done>, jobs: nat, widths: nat) {
    forall j: nat, k: nat :: j < jobs && k < widths ==> Done(j, k) in xs
  }

  // The place of (job, width) in a row-by-row table.
  function Cell(d: Done, widths: nat): nat { d.job * widths + d.bit }

  lemma CellsDiffer(a: Done, b: Done, widths: nat)
    requires a.bit < widths && b.bit < widths && Cell(a, widths) == Cell(b, widths)
    ensures a == b
  {
    var d := a.job - b.job;
    assert d * widths == b.bit - a.bit;
    Multiple(d, widths);
  }

  function Cells(xs: seq<Done>, widths: nat): (r: seq<nat>)
    ensures |r| == |xs| && forall i :: 0 <= i < |r| ==> r[i] == Cell(xs[i], widths)
  {
    seq(|xs|, i requires 0 <= i < |xs| => Cell(xs[i], widths))
  }

  lemma CellsInside(xs: seq<Done>, jobs: nat, widths: nat)
    requires Once(xs) && forall d :: d in xs ==> d.job < jobs && d.bit < widths
    ensures Positions(Cells(xs, widths), jobs * widths)
  {
    forall i | 0 <= i < |xs|
      ensures Cell(xs[i], widths) < jobs * widths
    {
      assert xs[i] in xs;
      Slot(xs[i].job, jobs, widths);
    }
    forall i, j | 0 <= i < j < |xs|
      ensures Cell(xs[i], widths) != Cell(xs[j], widths)
    {
      assert xs[i] in xs && xs[j] in xs;
      if Cell(xs[i], widths) == Cell(xs[j], widths) { CellsDiffer(xs[i], xs[j], widths); }
    }
  }

  // Counting is enough: as many entries as there are pairs, none twice, is every pair once.
  lemma CountMeansEach(xs: seq<Done>, jobs: nat, widths: nat)
    requires Once(xs) && forall d :: d in xs ==> d.job < jobs && d.bit < widths
    ensures |xs| <= jobs * widths
    ensures |xs| == jobs * widths <==> Each(xs, jobs, widths)
  {
    hide Once, Each, Cells;
    CellsInside(xs, jobs, widths);
    PositionsFit(Cells(xs, widths), jobs * widths);
    if |xs| == jobs * widths {
      FullMeansEach(xs, jobs, widths);
    }
    if Each(xs, jobs, widths) {
      EachMeansFull(xs, jobs, widths);
    }
  }

  lemma FullMeansEach(xs: seq<Done>, jobs: nat, widths: nat)
    requires Positions(Cells(xs, widths), jobs * widths) && |xs| == jobs * widths
    requires forall d :: d in xs ==> d.job < jobs && d.bit < widths
    ensures Each(xs, jobs, widths)
  {
    hide Positions;
    var cells := Cells(xs, widths);
    forall j: nat, k: nat | j < jobs && k < widths
      ensures Done(j, k) in xs
    {
      Slot(j, jobs, widths);
      PositionsFull(cells, jobs * widths, Cell(Done(j, k), widths));
      var i :| 0 <= i < |cells| && cells[i] == Cell(Done(j, k), widths);
      assert xs[i] in xs;
      CellsDiffer(xs[i], Done(j, k), widths);
    }
  }

  lemma EachMeansFull(xs: seq<Done>, jobs: nat, widths: nat)
    requires Positions(Cells(xs, widths), jobs * widths) && Each(xs, jobs, widths)
    ensures |xs| == jobs * widths
  {
    hide Positions;
    var cells := Cells(xs, widths);
    forall c: nat | c < jobs * widths
      ensures c in cells
    {
      RowOf(c, jobs, widths);
      assert Done(c / widths, c % widths) in xs;
      var i :| 0 <= i < |xs| && xs[i] == Done(c / widths, c % widths);
      assert cells[i] == c;
    }
    PositionsCover(cells, jobs * widths, jobs * widths);
  }

  // A verified report: every tensor at every width, exactly once, and nothing failed.
  lemma VerifiedMeansDone(jobs: nat, workers: nat, widths: nat, steps: seq<Step>)
    requires Run(Init(jobs, workers), widths, steps)
    ensures var s := Final(Init(jobs, workers), widths, steps);
      ReportOf(s, jobs, widths).verified <==> s.failures == [] && Once(s.completed) && Each(s.completed, jobs, widths)
  {
    hide Init, Once, Each;
    NeverTwice(jobs, workers, widths, steps);
    CountMeansEach(Final(Init(jobs, workers), widths, steps).completed, jobs, widths);
  }

  // Once all workers have left and none crashed, the count can only fall short after a failure.
  lemma OnlyFailuresSpoil(jobs: nat, workers: nat, widths: nat, steps: seq<Step>)
    requires workers > 0 && Run(Init(jobs, workers), widths, steps)
    requires var s := Final(Init(jobs, workers), widths, steps); Ended(s) && !AnyCrash(s)
    ensures var s := Final(Init(jobs, workers), widths, steps);
      ReportOf(s, jobs, widths).verified <==> s.failures == []
  {
    hide Once, Each;
    var s := Final(Init(jobs, workers), widths, steps);
    InitInv(jobs, workers, widths);
    RunKeeps(Init(jobs, workers), jobs, widths, steps);
    VerifiedMeansDone(jobs, workers, widths, steps);
    NeverTwice(jobs, workers, widths, steps);
    if s.failures == [] {
      AllDone(s, jobs, widths);
    }
  }

  lemma AllDone(s: State, jobs: nat, widths: nat)
    requires Inv(s, jobs, widths) && Ended(s) && !AnyCrash(s) && |s.workers| > 0 && s.failures == []
    ensures Each(s.completed, jobs, widths)
  {
    assert ExitOk(s, 0);
    forall j: nat, k: nat | j < jobs && k < widths
      ensures Done(j, k) in s.completed
    {
      assert JobOk(s, widths, j);
    }
  }
}
