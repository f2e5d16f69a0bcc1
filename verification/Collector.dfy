/** The main thread's bookkeeping of the results: the status counters, the list of failed
    jobs with its appends and pops, and the exit code. */
module Collector {
  import Dispatcher
  import DispatcherRuns

  /** A job as it comes out of the output queue. `xmlPasses` says whether its result file
      parses and reports PASS or SKIP. */
  datatype Job = Job(isBreak: bool, isExample: bool, isSkip: bool, returnCode: int, xmlPasses: bool)

  datatype Totals = Totals(passed: nat, failed: nat, valgrind: nat, crashed: nat, skipped: nat)

  /** How often the job is left in the list of failed jobs: once for a nonzero return code,
      and, for a test suite, once more unless its result file is valid and reports success. */
  function Residue(job: Job): nat {
    if job.isBreak || job.isSkip then 0
    else
      (if job.returnCode == 0 then 0 else 1) +
      (if job.isExample || (0 <= job.returnCode <= 2 && job.xmlPasses) then 0 else 1)
  }

  function Repeat(i: nat, n: nat): seq<nat> {
    seq(n, _ => i)
  }

  /** The failed jobs, by their position in the output. */
  function FailedList(jobs: seq<Job>): seq<nat> {
    if jobs == [] then []
    else FailedList(jobs[..|jobs| - 1]) + Repeat(|jobs| - 1, Residue(jobs[|jobs| - 1]))
  }

  datatype Status = Pass | Fail | Valgr | Crash | Skip | Interrupted

  function StatusOf(job: Job): Status {
    if job.isBreak then Interrupted
    else if job.isSkip then Skip
    else if job.returnCode == 0 then Pass
    else if job.returnCode == 1 then Fail
    else if job.returnCode == 2 then Valgr
    else Crash
  }

  function Number(jobs: seq<Job>, status: Status): nat {
    if jobs == [] then 0
    else Number(jobs[..|jobs| - 1], status) + if StatusOf(jobs[|jobs| - 1]) == status then 1 else 0
  }

  function TotalsOf(jobs: seq<Job>): Totals {
    Totals(Number(jobs, Pass), Number(jobs, Fail), Number(jobs, Valgr), Number(jobs, Crash),
           Number(jobs, Skip))
  }

  /** A job that does not spoil the run. */
  predicate Good(job: Job) {
    !job.isBreak && (job.isSkip || job.returnCode == 0)
  }

  /** The appends and pops for one job that was not interrupted; each pop removes this job. */
  method UpdateFailed(failedJobs: seq<nat>, i: nat, job: Job) returns (failedJobs': seq<nat>)
    requires !job.isBreak
    ensures failedJobs' == failedJobs + Repeat(i, Residue(job))
  {
    failedJobs' := failedJobs;
    if !job.isSkip {
      failedJobs' := failedJobs' + [i];
      if job.returnCode == 0 {
        assert failedJobs'[|failedJobs'| - 1] == i;
        failedJobs' := failedJobs'[..|failedJobs'| - 1];
      }
      if !job.isExample {
        failedJobs' := failedJobs' + [i];
        if (job.returnCode == 0 || job.returnCode == 1 || job.returnCode == 2) && job.xmlPasses {
          assert failedJobs'[|failedJobs'| - 1] == i;
          failedJobs' := failedJobs'[..|failedJobs'| - 1];
        }
      }
    }
  }

  method CollectResults(jobs: seq<Job>) returns (totals: Totals, failedJobs: seq<nat>, exitCode: int)
    ensures totals == TotalsOf(jobs) && failedJobs == FailedList(jobs)
    ensures exitCode == 0 || exitCode == 1
    ensures exitCode == 0 <==> forall i :: 0 <= i < |jobs| ==> Good(jobs[i])
  {
    var passed, failed, valgrind, crashed, skipped := 0, 0, 0, 0, 0;
    failedJobs := [];
    for i := 0 to |jobs|
      invariant Totals(passed, failed, valgrind, crashed, skipped) == TotalsOf(jobs[..i])
      invariant failedJobs == FailedList(jobs[..i])
    {
      var job := jobs[i];
      assert jobs[..i + 1][..i] == jobs[..i];
      if job.isBreak {
        assert Repeat(i, 0) == [];
        continue;
      }
      if job.isSkip {
        skipped := skipped + 1;
      } else if job.returnCode == 0 {
        passed := passed + 1;
      } else if job.returnCode == 1 {
        failed := failed + 1;
      } else if job.returnCode == 2 {
        valgrind := valgrind + 1;
      } else {
        crashed := crashed + 1;
      }
      failedJobs := UpdateFailed(failedJobs, i, job);
    }
    assert jobs[..|jobs|] == jobs;
    totals := Totals(passed, failed, valgrind, crashed, skipped);
    GoodIffAllCounted(jobs);
    exitCode := if passed + skipped == |jobs| then 0 else 1;
  }

  ghost function With(jobs: seq<Job>, status: Status): set<nat> {
    set i: nat | i < |jobs| && StatusOf(jobs[i]) == status
  }

  lemma WithLast(jobs: seq<Job>, status: Status)
    requires jobs != []
    ensures (var n := |jobs| - 1;
             && n !in With(jobs[..n], status)
             && With(jobs, status) == With(jobs[..n], status) + if StatusOf(jobs[n]) == status then {n} else {})
  {
  }

  /** A counter is the number of the jobs with that status. */
  lemma {:induction false} NumberIsCount(jobs: seq<Job>, status: Status)
    ensures Number(jobs, status) == |With(jobs, status)|
  {
    if jobs != [] {
      NumberIsCount(jobs[..|jobs| - 1], status);
      WithLast(jobs, status);
    }
  }

  /** The five counters, in terms of the jobs' own fields. */
  lemma CountersMean(jobs: seq<Job>)
    ensures (var t := TotalsOf(jobs);
             && t.skipped == |set i: nat | i < |jobs| && !jobs[i].isBreak && jobs[i].isSkip|
             && t.passed == |set i: nat | i < |jobs| && Done(jobs[i]) && jobs[i].returnCode == 0|
             && t.failed == |set i: nat | i < |jobs| && Done(jobs[i]) && jobs[i].returnCode == 1|
             && t.valgrind == |set i: nat | i < |jobs| && Done(jobs[i]) && jobs[i].returnCode == 2|
             && t.crashed == |set i: nat | i < |jobs| && Done(jobs[i]) &&
                                           (jobs[i].returnCode < 0 || jobs[i].returnCode > 2)|)
  {
    CountersOf(jobs, Skip, set i: nat | i < |jobs| && !jobs[i].isBreak && jobs[i].isSkip);
    CountersOf(jobs, Pass, set i: nat | i < |jobs| && Done(jobs[i]) && jobs[i].returnCode == 0);
    CountersOf(jobs, Fail, set i: nat | i < |jobs| && Done(jobs[i]) && jobs[i].returnCode == 1);
    CountersOf(jobs, Valgr, set i: nat | i < |jobs| && Done(jobs[i]) && jobs[i].returnCode == 2);
    CountersOf(jobs, Crash, set i: nat | i < |jobs| && Done(jobs[i]) &&
                                         (jobs[i].returnCode < 0 || jobs[i].returnCode > 2));
  }

  lemma CountersOf(jobs: seq<Job>, status: Status, those: set<nat>)
    requires forall i: nat :: i in those <==> i < |jobs| && StatusOf(jobs[i]) == status
    ensures Number(jobs, status) == |those|
  {
    NumberIsCount(jobs, status);
    assert those == With(jobs, status);
  }

  /** A job that was executed. */
  predicate Done(job: Job) {
    !job.isBreak && !job.isSkip
  }

  /** The five counters and the interrupted jobs account for every job. */
  lemma {:induction false} CountersAddUp(jobs: seq<Job>)
    ensures (var t := TotalsOf(jobs);
             t.passed + t.failed + t.valgrind + t.crashed + t.skipped +
             Number(jobs, Interrupted) == |jobs|)
  {
    if jobs != [] {
      CountersAddUp(jobs[..|jobs| - 1]);
    }
  }

  lemma {:induction false} GoodIffAllCounted(jobs: seq<Job>)
    ensures TotalsOf(jobs).passed + TotalsOf(jobs).skipped <= |jobs|
    ensures TotalsOf(jobs).passed + TotalsOf(jobs).skipped == |jobs| <==>
            forall i :: 0 <= i < |jobs| ==> Good(jobs[i])
  {
    if jobs != [] {
      GoodIffAllCounted(jobs[..|jobs| - 1]);
      assert forall i :: 0 <= i < |jobs| - 1 ==> jobs[..|jobs| - 1][i] == jobs[i];
    }
  }

  /** A suite whose result file was read and reports success. */
  predicate Reported(job: Job) {
    (job.returnCode == 0 || job.returnCode == 1 || job.returnCode == 2) && job.xmlPasses
  }

  /** Every job is in the list of failed jobs at most twice. It is there twice exactly if it is a
      suite that returned nonzero and did not report success; it is not there exactly if it was
      interrupted or skipped, or returned 0 and is an example or reported success. */
  lemma {:induction false} FailedListCounts(jobs: seq<Job>, i: nat)
    ensures Dispatcher.Count(FailedList(jobs), i) == (if i < |jobs| then Residue(jobs[i]) else 0)
    ensures i < |jobs| ==> Residue(jobs[i]) <= 2
    ensures i < |jobs| ==>
              (Residue(jobs[i]) == 2 <==>
               Done(jobs[i]) && jobs[i].returnCode != 0 && !jobs[i].isExample && !Reported(jobs[i]))
    ensures i < |jobs| ==>
              (Residue(jobs[i]) == 0 <==>
               !Done(jobs[i]) || (jobs[i].returnCode == 0 && (jobs[i].isExample || Reported(jobs[i]))))
  {
    if jobs != [] {
      var n := |jobs| - 1;
      FailedListCounts(jobs[..n], i);
      CountConcat(FailedList(jobs[..n]), Repeat(n, Residue(jobs[n])), i);
      CountRepeat(n, Residue(jobs[n]), i);
    }
  }

  /** The failed jobs are listed in the order in which they were collected. */
  lemma {:induction false} FailedListInOrder(jobs: seq<Job>)
    ensures forall i, k :: 0 <= i < k < |FailedList(jobs)| ==> FailedList(jobs)[i] <= FailedList(jobs)[k]
    ensures forall i :: 0 <= i < |FailedList(jobs)| ==> FailedList(jobs)[i] < |jobs|
  {
    if jobs != [] {
      FailedListInOrder(jobs[..|jobs| - 1]);
    }
  }

  lemma {:induction false} CountConcat(s: seq<nat>, t: seq<nat>, i: nat)
    ensures Dispatcher.Count(s + t, i) == Dispatcher.Count(s, i) + Dispatcher.Count(t, i)
  {
    if t == [] {
      assert s + t == s;
    } else {
      assert (s + t)[..|s + t| - 1] == s + t[..|t| - 1];
      CountConcat(s, t[..|t| - 1], i);
    }
  }

  lemma {:induction false} CountRepeat(n: nat, times: nat, i: nat)
    ensures Dispatcher.Count(Repeat(n, times), i) == if i == n then times else 0
  {
    if times > 0 {
      assert Repeat(n, times)[..times - 1] == Repeat(n, times - 1);
      CountRepeat(n, times - 1, i);
    }
  }

  // ----- over the runs of the dispatcher

  /** The collected jobs, given the final state of every job object. */
  function Outcome(table: seq<Job>, collected: seq<nat>): (outcome: seq<Job>)
    requires forall i :: 0 <= i < |collected| ==> collected[i] < |table|
    ensures |outcome| == |collected|
    ensures forall i :: 0 <= i < |collected| ==> outcome[i] == table[collected[i]]
  {
    if collected == [] then []
    else Outcome(table, collected[..|collected| - 1]) + [table[collected[|collected| - 1]]]
  }

  lemma {:induction false} CountedMeansIn(s: seq<nat>, id: nat)
    ensures Dispatcher.Count(s, id) > 0 <==> id in s
  {
    if s != [] {
      CountedMeansIn(s[..|s| - 1], id);
      assert s == s[..|s| - 1] + [s[|s| - 1]];
    }
  }

  /** The final job objects of a run: marked as the run marked them, and skipped if the
      configuration says so. */
  ghost predicate Describes(cfg: Dispatcher.Config, s: Dispatcher.State, table: seq<Job>) {
    && |table| == cfg.jobs
    && (forall id :: 0 <= id < |table| ==> (table[id].isBreak <==> id in s.isBreak))
    && (forall id :: 0 <= id < |table| ==> (table[id].isSkip <==> id in cfg.skipped))
  }

  lemma GoodOutcome(table: seq<Job>, collected: seq<nat>)
    requires forall id: nat :: id in collected <==> id < |table|
    ensures forall i :: 0 <= i < |collected| ==> collected[i] < |table|
    ensures TotalsOf(Outcome(table, collected)).passed + TotalsOf(Outcome(table, collected)).skipped ==
            |Outcome(table, collected)| <==>
            forall id :: 0 <= id < |table| ==> Good(table[id])
  {
    assert forall i :: 0 <= i < |collected| ==> collected[i] in collected;
    var outcome := Outcome(table, collected);
    GoodIffAllCounted(outcome);
    if forall i :: 0 <= i < |outcome| ==> Good(outcome[i]) {
      forall id: nat | id < |table| ensures Good(table[id]) {
        assert id in collected;
        var i :| 0 <= i < |collected| && collected[i] == id;
        assert Good(outcome[i]);
      }
    }
  }

  /** However the workers interleaved, a complete run exits with 0 if and only if no job was
      marked because of an interrupt and every job that is not skipped returned 0. Without an
      interrupt no job is marked, so the return codes alone decide. */
  lemma ExitCodeOfRun(cfg: Dispatcher.Config, run: seq<Dispatcher.Action>, table: seq<Job>)
    requires DispatcherRuns.Complete(cfg, run) && (cfg.workers >= 1 || cfg.jobs == 0)
    requires Describes(cfg, Dispatcher.After(cfg, Dispatcher.Init(cfg), run), table)
    ensures (var s := Dispatcher.After(cfg, Dispatcher.Init(cfg), run);
             && (forall i :: 0 <= i < |s.collected| ==> s.collected[i] < |table|)
             && (TotalsOf(Outcome(table, s.collected)).passed + TotalsOf(Outcome(table, s.collected)).skipped
                 == |Outcome(table, s.collected)| <==>
                 forall id: nat :: id < cfg.jobs ==>
                   id !in s.isBreak && (id in cfg.skipped || table[id].returnCode == 0))
             && (!s.interrupted ==> forall id: nat :: id < cfg.jobs ==> id !in s.isBreak))
  {
    Dispatcher.EveryRunCompletes(cfg, run);
    Dispatcher.InitOk(cfg);
    Dispatcher.RunKeeps(cfg, Dispatcher.Init(cfg), run);
    var s := Dispatcher.After(cfg, Dispatcher.Init(cfg), run);
    forall id: nat ensures id in s.collected <==> id < |table| {
      CountedMeansIn(s.collected, id);
    }
    GoodOutcome(table, s.collected);
    assert forall id: nat :: id < cfg.jobs ==>
      (Good(table[id]) <==> id !in s.isBreak && (id in cfg.skipped || table[id].returnCode == 0));
  }
}
