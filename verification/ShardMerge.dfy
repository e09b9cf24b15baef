// The job list split over single-device processes, their reports merged, and one overall verdict.
module ShardMerge {
  import opened Numeric
  import opened Options
  import opened CheckpointRunner

  // ----- strided shards -----

  // len(jobs[rank::count])
  function ShardSize(jobs: nat, rank: nat, count: nat): nat
    requires count > 0
  {
    if rank >= jobs then 0 else (jobs - rank + count - 1) / count
  }

  // jobs[rank::count]: the shard's i-th job is job rank + i * count of the whole list.
  function Global(rank: nat, count: nat, i: nat): nat { rank + i * count }

  // A shard's jobs are exactly the listed ones of its residue.
  lemma ShardJobs(jobs: nat, rank: nat, count: nat, i: nat)
    requires count > 0 && rank < count
    ensures i < ShardSize(jobs, rank, count) <==> Global(rank, count, i) < jobs
  {
    var size := ShardSize(jobs, rank, count);
    if rank < jobs {
      var d := jobs - rank + count - 1;
      assert d == count * (d / count) + d % count;
      if i < size {
        Slide(i + 1, size, count);
        assert size * count == count * size;
      } else {
        Slide(size, i, count);
        assert size * count == count * size;
      }
    }
  }

  // Every job is in exactly one shard, at one place.
  lemma ShardsPartition(jobs: nat, count: nat, j: nat)
    requires count > 0 && j < jobs
    ensures j % count < count && j / count < ShardSize(jobs, j % count, count)
    ensures Global(j % count, count, j / count) == j
    ensures forall rank: nat, i: nat :: rank < count && Global(rank, count, i) == j ==>
      rank == j % count && i == j / count
  {
    assert j == j / count * count + j % count;
    ShardJobs(jobs, j % count, count, j / count);
    forall rank: nat, i: nat | rank < count && Global(rank, count, i) == j
      ensures rank == j % count && i == j / count
    {
      Unique(rank, i, count, j);
    }
  }

  lemma Unique(r: nat, i: nat, n: nat, j: nat)
    requires r < n && j == r + i * n
    ensures r == j % n && i == j / n
  {
    var d := i - j / n;
    assert j == j / n * n + j % n;
    assert d * n == i * n - j / n * n;
    Multiple(d, n);
  }

  // ----- children -----

  // A finished process: its exit status and whatever report file lies in its place, which may be
  // left over from an earlier run.
  datatype Child = Child(code: int, file: Option<Report>)

  // After its workers have left, a child that did not crash writes its report and exits with 0 just
  // when it is verified; a crash leaves the old file and a nonzero status.
  function ChildOf(s: State, jobs: nat, widths: nat, stale: Option<Report>): Child {
    if AnyCrash(s) then Child(1, stale)
    else Child(if ReportOf(s, jobs, widths).verified then 0 else 1, Some(ReportOf(s, jobs, widths)))
  }

  // A child that ran to its end or was killed on the way.
  ghost predicate Ran(c: Child, jobs: nat, widths: nat) {
    || c.code != 0
    || exists steps: seq<Step>, stale: Option<Report> :: EndedAs(c, jobs, widths, steps, stale)
  }

  ghost predicate EndedAs(c: Child, jobs: nat, widths: nat, steps: seq<Step>, stale: Option<Report>) {
    Run(Init(jobs, 1), widths, steps) && Ended(Final(Init(jobs, 1), widths, steps))
    && c == ChildOf(Final(Init(jobs, 1), widths, steps), jobs, widths, stale)
  }

  // ----- merging -----

  datatype Failure = JobFailed(rank: nat, job: nat) | NoReport(rank: nat) | BadStatus(rank: nat, code: int)

  // The entries of one report under the whole list's job numbers.
  function GlobalEntries(entries: seq<Done>, rank: nat, count: nat): (r: seq<Done>)
    ensures |r| == |entries|
    ensures forall i :: 0 <= i < |r| ==> r[i] == Done(Global(rank, count, entries[i].job), entries[i].bit)
  {
    seq(|entries|, i requires 0 <= i < |entries| => Done(Global(rank, count, entries[i].job), entries[i].bit))
  }

  function ReportEntries(c: Child): seq<Done> { if c.file.Some? then c.file.value.completed else [] }

  // All entries of the first n children.
  function MergedEntries(children: seq<Child>, count: nat, n: nat): seq<Done>
    requires n <= |children|
  {
    if n == 0 then []
    else MergedEntries(children, count, n - 1) + GlobalEntries(ReportEntries(children[n - 1]), n - 1, count)
  }

  predicate Clean(c: Child) { c.code == 0 && c.file.Some? && c.file.value.failures == [] }

  predicate Verdict(children: seq<Child>) {
    forall r :: 0 <= r < |children| ==> Clean(children[r]) && children[r].file.value.verified
  }

  // What the first n children give as reasons.
  predicate Reason(children: seq<Child>, n: nat, f: Failure)
    requires n <= |children|
  {
    && f.rank < n
    && var c := children[f.rank];
    match f
    case JobFailed(_, job) => c.file.Some? && job in c.file.value.failures
    case NoReport(_) => c.file.None?
    case BadStatus(_, code) => c.code == code != 0
  }

  function JobFailures(rank: nat, jobs: seq<nat>): (fs: seq<Failure>)
    ensures |fs| == |jobs| && forall i :: 0 <= i < |fs| ==> fs[i] == JobFailed(rank, jobs[i])
  {
    seq(|jobs|, i requires 0 <= i < |jobs| => JobFailed(rank, jobs[i]))
  }

  // The reasons one child adds.
  function ChildFailures(c: Child, rank: nat): seq<Failure> {
    (if c.file.Some? then JobFailures(rank, c.file.value.failures) else [NoReport(rank)])
    + (if c.code != 0 then [BadStatus(rank, c.code)] else [])
  }

  lemma ReasonStep(children: seq<Child>, n: nat, f: Failure)
    requires n < |children|
    ensures Reason(children, n + 1, f) <==> Reason(children, n, f) || f in ChildFailures(children[n], n)
  {
    var c := children[n];
    if f.JobFailed? && f.rank == n && c.file.Some? {
      var jobs := c.file.value.failures;
      assert f.job in jobs <==> f in JobFailures(n, jobs) by {
        if f.job in jobs {
          var i :| 0 <= i < |jobs| && jobs[i] == f.job;
          assert JobFailures(n, jobs)[i] == f;
        }
      }
    }
  }

  lemma CleanMeansNone(c: Child, rank: nat)
    ensures Clean(c) <==> ChildFailures(c, rank) == []
  {
    if c.file.Some? && c.file.value.failures == [] {
      assert JobFailures(rank, c.file.value.failures) == [];
    }
  }

  // Reads every child's file, fresh or stale; a missing file or a nonzero status is a failure, so a
  // stale verified report cannot pass for the child's own.
  method Merge(children: seq<Child>) returns (entries: seq<Done>, failures: seq<Failure>, verified: bool)
    ensures entries == MergedEntries(children, |children|, |children|)
    ensures forall f :: f in failures <==> Reason(children, |children|, f)
    ensures failures == [] <==> forall r :: 0 <= r < |children| ==> Clean(children[r])
    ensures verified <==> Verdict(children)
  {
    hide Reason, Clean, ChildFailures, GlobalEntries, JobFailures;
    var reports: seq<Report> := [];
    entries, failures := [], [];
    NoReasons(children);
    for rank := 0 to |children|
      invariant entries == MergedEntries(children, |children|, rank)
      invariant forall f :: f in failures <==> Reason(children, rank, f)
      invariant failures == [] <==> forall r :: 0 <= r < rank ==> Clean(children[r])
      invariant |reports| <= rank
      invariant failures == [] ==> |reports| == rank && forall r :: 0 <= r < rank ==>
        Some(reports[r]) == children[r].file
    {
      var child := children[rank];
      ghost var before := failures;
      entries := entries + GlobalEntries(ReportEntries(child), rank, |children|);
      if child.file.Some? {
        reports := reports + [child.file.value];
        failures := failures + JobFailures(rank, child.file.value.failures);
      } else {
        failures := failures + [NoReport(rank)];
      }
      if child.code != 0 {
        failures := failures + [BadStatus(rank, child.code)];
      }
      Added(before, child, rank, failures);
      CleanMeansNone(child, rank);
      forall f
        ensures f in failures <==> Reason(children, rank + 1, f)
      {
        ReasonStep(children, rank, f);
      }
    }
    CleanHasFile(children);
    verified := failures == [] && |reports| == |children| && forall r :: 0 <= r < |reports| ==> reports[r].verified;
  }

  lemma Added(before: seq<Failure>, c: Child, rank: nat, after: seq<Failure>)
    requires var own := if c.file.Some? then JobFailures(rank, c.file.value.failures) else [NoReport(rank)];
      after == if c.code != 0 then before + own + [BadStatus(rank, c.code)] else before + own
    ensures after == before + ChildFailures(c, rank)
    ensures c.file.None? ==> ChildFailures(c, rank) != []
  {
  }

  lemma NoReasons(children: seq<Child>)
    ensures forall f :: !Reason(children, 0, f)
  {
  }

  lemma CleanHasFile(children: seq<Child>)
    ensures forall r :: 0 <= r < |children| && Clean(children[r]) ==> children[r].file.Some?
  {
  }

  // ----- the overall verdict -----

  // A child with exit status 0 completed its whole shard, each pair once.
  lemma ZeroMeansDone(c: Child, jobs: nat, widths: nat)
    requires Ran(c, jobs, widths) && c.code == 0
    ensures Clean(c) && c.file.value.verified
    ensures Once(c.file.value.completed) && Each(c.file.value.completed, jobs, widths)
    ensures forall d :: d in c.file.value.completed ==> d.job < jobs && d.bit < widths
  {
    hide Once, Each, Run, Final, Init, Ended;
    var steps, stale :| EndedAs(c, jobs, widths, steps, stale);
    VerifiedMeansDone(jobs, 1, widths, steps);
    NeverTwice(jobs, 1, widths, steps);
  }

  ghost predicate AllRan(children: seq<Child>, jobs: nat, widths: nat) {
    |children| > 0 && forall r :: 0 <= r < |children| ==> Ran(children[r], ShardSize(jobs, r, |children|), widths)
  }

  predicate AllZero(children: seq<Child>, n: nat)
    requires n <= |children|
  {
    forall r :: 0 <= r < n ==> children[r].code == 0
  }

  // The entries of shards 0 .. n: distinct, in range, and of those shards' residues.
  lemma {:induction false} EntriesSoFar(children: seq<Child>, jobs: nat, widths: nat, n: nat)
    requires AllRan(children, jobs, widths) && n <= |children| && AllZero(children, n)
    ensures Once(MergedEntries(children, |children|, n))
    ensures forall d :: d in MergedEntries(children, |children|, n) ==>
      d.job < jobs && d.bit < widths && d.job % |children| < n
  {
    hide Ran, ShardSize, Each;
    if n > 0 {
      var count := |children|;
      var c := children[n - 1];
      EntriesSoFar(children, jobs, widths, n - 1);
      ZeroMeansDone(c, ShardSize(jobs, n - 1, count), widths);
      ShardEntries(ReportEntries(c), jobs, widths, n - 1, count);
      Apart(MergedEntries(children, count, n - 1), GlobalEntries(ReportEntries(c), n - 1, count), n - 1, count);
    }
  }

  lemma ShardEntries(entries: seq<Done>, jobs: nat, widths: nat, rank: nat, count: nat)
    requires rank < count && Once(entries) && forall d :: d in entries ==>
      d.job < ShardSize(jobs, rank, count) && d.bit < widths
    ensures Once(GlobalEntries(entries, rank, count))
    ensures forall d :: d in GlobalEntries(entries, rank, count) ==>
      d.job < jobs && d.bit < widths && d.job % count == rank
  {
    hide ShardSize;
    var all := GlobalEntries(entries, rank, count);
    forall i | 0 <= i < |all|
      ensures all[i].job < jobs && all[i].bit < widths && all[i].job % count == rank
      ensures all[i].job / count == entries[i].job
    {
      assert entries[i] in entries;
      ShardJobs(jobs, rank, count, entries[i].job);
      Unique(rank, entries[i].job, count, all[i].job);
    }
    forall i, j | 0 <= i < j < |all|
      ensures all[i] != all[j]
    {
      assert entries[i] != entries[j];
    }
  }

  lemma Apart(xs: seq<Done>, ys: seq<Done>, rank: nat, count: nat)
    requires count > 0 && Once(xs) && Once(ys)
    requires forall d :: d in xs ==> d.job % count < rank
    requires forall d :: d in ys ==> d.job % count == rank
    ensures Once(xs + ys)
  {
    var all := xs + ys;
    forall i, j | 0 <= i < j < |all|
      ensures all[i] != all[j]
    {
      if i < |xs| <= j {
        assert xs[i] in xs && ys[j - |xs|] in ys;
      }
    }
  }

  lemma {:induction false} EntryFound(children: seq<Child>, count: nat, n: nat, rank: nat, d: Done)
    requires rank < n <= |children| && d in ReportEntries(children[rank])
    ensures Done(Global(rank, count, d.job), d.bit) in MergedEntries(children, count, n)
  {
    if rank < n - 1 {
      EntryFound(children, count, n - 1, rank, d);
    } else {
      var entries := ReportEntries(children[rank]);
      var i :| 0 <= i < |entries| && entries[i] == d;
      assert GlobalEntries(entries, rank, count)[i] in GlobalEntries(entries, rank, count);
    }
  }

  // The merged verdict holds exactly when every child exits with 0, and then every tensor at every
  // width was completed exactly once over all processes.
  lemma MergedVerdict(children: seq<Child>, jobs: nat, widths: nat)
    requires AllRan(children, jobs, widths)
    ensures Verdict(children) <==> AllZero(children, |children|)
    ensures AllZero(children, |children|) ==>
      var entries := MergedEntries(children, |children|, |children|);
      Once(entries) && Each(entries, jobs, widths) && |entries| == jobs * widths
  {
    hide Ran, ShardSize, Once, MergedEntries;
    var count := |children|;
    if AllZero(children, count) {
      forall r | 0 <= r < count
        ensures Clean(children[r]) && children[r].file.value.verified
      {
        ZeroMeansDone(children[r], ShardSize(jobs, r, count), widths);
      }
      EntriesSoFar(children, jobs, widths, count);
      forall j: nat, k: nat | j < jobs && k < widths
        ensures Done(j, k) in MergedEntries(children, count, count)
      {
        ShardsPartition(jobs, count, j);
        var rank := j % count;
        ZeroMeansDone(children[rank], ShardSize(jobs, rank, count), widths);
        EntryFound(children, count, count, rank, Done(j / count, k));
      }
      CountMeansEach(MergedEntries(children, count, count), jobs, widths);
    }
  }

  // Whatever files earlier runs left behind, the verdict is that of these runs alone: nothing escaped
  // from any child and none of its tensors failed.
  lemma StaleIsRefused(children: seq<Child>, jobs: nat, widths: nat, runs: seq<seq<Step>>, stale: seq<Option<Report>>)
    requires |children| == |runs| == |stale| > 0
    requires forall r :: 0 <= r < |children| ==>
      EndedAs(children[r], ShardSize(jobs, r, |children|), widths, runs[r], stale[r])
    ensures Verdict(children) <==> forall r :: 0 <= r < |children| ==>
      Untroubled(ShardSize(jobs, r, |children|), widths, runs[r])
    ensures forall r :: 0 <= r < |children| ==>
      !Untroubled(ShardSize(jobs, r, |children|), widths, runs[r]) ==> Reason(children, |children|, BadStatus(r, 1))
  {
    hide EndedAs, Untroubled, ShardSize;
    forall r | 0 <= r < |children|
      ensures var size := ShardSize(jobs, r, |children|);
        && Ran(children[r], size, widths)
        && (children[r].code == 0 <==> Untroubled(size, widths, runs[r]))
        && (children[r].code == 0 || children[r].code == 1)
    {
      assert EndedAs(children[r], ShardSize(jobs, r, |children|), widths, runs[r], stale[r]);
      ZeroIsUntroubled(children[r], ShardSize(jobs, r, |children|), widths, runs[r], stale[r]);
    }
    MergedVerdict(children, jobs, widths);
  }

  ghost predicate Untroubled(jobs: nat, widths: nat, steps: seq<Step>) {
    && Run(Init(jobs, 1), widths, steps)
    && var s := Final(Init(jobs, 1), widths, steps); !AnyCrash(s) && s.failures == []
  }

  lemma ZeroIsUntroubled(c: Child, jobs: nat, widths: nat, steps: seq<Step>, stale: Option<Report>)
    requires EndedAs(c, jobs, widths, steps, stale)
    ensures (c.code == 0 <==> Untroubled(jobs, widths, steps)) && (c.code == 0 || c.code == 1)
  {
    hide Run, Final, Init, Ended, AnyCrash;
    if !AnyCrash(Final(Init(jobs, 1), widths, steps)) {
      OnlyFailuresSpoil(jobs, 1, widths, steps);
    }
  }
}
