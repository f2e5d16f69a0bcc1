/** What happens to each job over a run of the dispatcher: whether it is launched, whether it
    is marked by an interrupt, and the order in which the jobs come out. */
module DispatcherRuns {
  import opened Sequences
  import opened Dispatcher

  // ----- what the steps of a run do to one job

  /** How many steps end the execution of job `id`. */
  ghost function Launches(cfg: Config, s: State, run: seq<Action>, id: nat): nat
    requires ValidRun(cfg, s, run)
    decreases |run|
  {
    if run == [] then 0
    else
      (if run[0].Finish? && s.workers[run[0].k].id == id then 1 else 0) +
      Launches(cfg, Apply(cfg, s, run[0]), run[1..], id)
  }

  /** Some worker decides about job `id` when the interrupt has already come. */
  ghost predicate DecidedLate(cfg: Config, s: State, run: seq<Action>, id: nat)
    requires ValidRun(cfg, s, run)
    decreases |run|
  {
    run != [] &&
    ((run[0].Decide? && s.workers[run[0].k].id == id && s.interrupted) ||
     DecidedLate(cfg, Apply(cfg, s, run[0]), run[1..], id))
  }

  /** The jobs in the order in which the workers put them out. */
  ghost function Emitted(cfg: Config, s: State, run: seq<Action>): seq<nat>
    requires ValidRun(cfg, s, run)
    decreases |run|
  {
    if run == [] then []
    else
      (if run[0].Emit? then [s.workers[run[0].k].id] else []) +
      Emitted(cfg, Apply(cfg, s, run[0]), run[1..])
  }

  // ----- launched exactly once, or not at all

  ghost predicate SomeReady(workers: seq<Worker>, id: nat) {
    exists k :: 0 <= k < |workers| && workers[k] == Ready(id)
  }

  /** The decision about the job, and its execution if there was one, are over. */
  ghost predicate Past(s: State, id: nat) {
    SomeReady(s.workers, id) || id in s.output || id in s.collected
  }

  ghost predicate Ran(cfg: Config, s: State, id: nat) {
    Past(s, id) && id !in cfg.skipped && id !in s.isBreak
  }

  /** A job that is executed is not one to be skipped. */
  ghost predicate RunsOk(cfg: Config, s: State) {
    forall k :: 0 <= k < |s.workers| && s.workers[k].Running? ==> s.workers[k].id !in cfg.skipped
  }

  lemma {:induction false} Present(s: seq<nat>, id: nat)
    ensures Count(s, id) == 0 <==> id !in s
  {
    if s != [] {
      Present(s[..|s| - 1], id);
      assert s == s[..|s| - 1] + [s[|s| - 1]];
    }
  }

  /** A job in the hands of a worker that is not ready is not past. */
  lemma HeldIsNotPast(cfg: Config, s: State, k: nat)
    requires Inv(cfg, s) && k < |s.workers| && (s.workers[k].Got? || s.workers[k].Vetted? || s.workers[k].Running?)
    ensures !Past(s, s.workers[k].id)
  {
    var id := s.workers[k].id;
    HeldAlone(cfg, s, k);
    SumAtLeast(s.workers, k, Holds(id));
    Present(s.output, id);
    Present(s.collected, id);
  }

  /** Updating one worker changes whether a job is ready only by what that worker holds. */
  lemma ReadyElsewhere(workers: seq<Worker>, k: nat, w: Worker, id: nat)
    requires k < |workers| && workers[k] != Ready(id)
    ensures SomeReady(workers[k := w], id) <==> SomeReady(workers, id) || w == Ready(id)
  {
    if m :| 0 <= m < |workers| && workers[m] == Ready(id) {
      assert workers[k := w][m] == Ready(id);
    }
    if w == Ready(id) {
      assert workers[k := w][k] == Ready(id);
    }
  }

  lemma EmitStep(cfg: Config, s: State, k: nat, id: nat)
    requires Inv(cfg, s) && Enabled(cfg, s, Emit(k)) && id < cfg.jobs
    ensures Past(Apply(cfg, s, Emit(k)), id) <==> Past(s, id)
  {
    var s' := Apply(cfg, s, Emit(k));
    if s.workers[k].id == id {
      assert s.output + [id] == s'.output && id in s'.output;
      assert s.workers[k] == Ready(id);
    } else {
      ReadyElsewhere(s.workers, k, Idle, id);
    }
  }

  /** One step: it counts as a launch exactly when the job becomes one that ran. */
  lemma LaunchStep(cfg: Config, s: State, a: Action, id: nat)
    requires Inv(cfg, s) && RunsOk(cfg, s) && Enabled(cfg, s, a) && id < cfg.jobs
    ensures RunsOk(cfg, Apply(cfg, s, a))
    ensures (var launched := a.Finish? && s.workers[a.k].id == id;
             && (Ran(cfg, Apply(cfg, s, a), id) <==> Ran(cfg, s, id) || launched)
             && !(Ran(cfg, s, id) && launched))
  {
    var s' := Apply(cfg, s, a);
    match a
    case Put =>
    case Take(k) => ReadyElsewhere(s.workers, k, s'.workers[k], id);
    case Vet(k) => ReadyElsewhere(s.workers, k, s'.workers[k], id);
    case Decide(k) =>
      HeldIsNotPast(cfg, s, k);
      ReadyElsewhere(s.workers, k, s'.workers[k], id);
    case Finish(k) =>
      HeldIsNotPast(cfg, s, k);
      ReadyElsewhere(s.workers, k, s'.workers[k], id);
    case Emit(k) => EmitStep(cfg, s, k, id);
    case Collect =>
      assert s.output == [s.output[0]] + s.output[1..];
    case Join =>
    case Interrupt =>
  }

  lemma {:induction false} LaunchesAre(cfg: Config, s: State, run: seq<Action>, id: nat)
    requires Inv(cfg, s) && RunsOk(cfg, s) && ValidRun(cfg, s, run) && id < cfg.jobs
    ensures Launches(cfg, s, run, id) ==
            if !Ran(cfg, s, id) && Ran(cfg, After(cfg, s, run), id) then 1 else 0
    ensures Ran(cfg, s, id) ==> Ran(cfg, After(cfg, s, run), id)
    decreases |run|
  {
    if run != [] {
      Preserved(cfg, s, run[0]);
      LaunchStep(cfg, s, run[0], id);
      LaunchesAre(cfg, Apply(cfg, s, run[0]), run[1..], id);
    }
  }

  // ----- marked exactly if the interrupt came first

  lemma {:induction false} MarksAre(cfg: Config, s: State, run: seq<Action>, id: nat)
    requires Inv(cfg, s) && ValidRun(cfg, s, run) && id < cfg.jobs
    ensures id in After(cfg, s, run).isBreak <==> id in s.isBreak || DecidedLate(cfg, s, run, id)
    decreases |run|
  {
    if run != [] {
      Preserved(cfg, s, run[0]);
      MarksAre(cfg, Apply(cfg, s, run[0]), run[1..], id);
    }
  }

  // ----- the order of the results

  lemma {:induction false} ResultsInOrder(cfg: Config, s: State, run: seq<Action>)
    requires ValidRun(cfg, s, run)
    ensures After(cfg, s, run).collected + After(cfg, s, run).output ==
            s.collected + s.output + Emitted(cfg, s, run)
    decreases |run|
  {
    if run != [] {
      ResultsInOrder(cfg, Apply(cfg, s, run[0]), run[1..]);
      if run[0].Collect? {
        assert s.collected + [s.output[0]] + s.output[1..] == s.collected + s.output;
      }
    }
  }

  // ----- the main results

  /** A run that cannot go on. */
  ghost predicate Complete(cfg: Config, run: seq<Action>) {
    && ValidRun(cfg, Init(cfg), run)
    && forall a: Action :: Enabled(cfg, After(cfg, Init(cfg), run), a) ==> a.Interrupt?
  }

  /** In every run that cannot go on, a job was executed exactly once if it is neither to be
      skipped nor marked, and never otherwise; and it is marked if and only if a worker decided
      about it after the interrupt. */
  lemma EveryJobRuns(cfg: Config, run: seq<Action>, id: nat)
    requires Complete(cfg, run) && (cfg.workers >= 1 || cfg.jobs == 0) && id < cfg.jobs
    ensures Launches(cfg, Init(cfg), run, id) ==
            if id in cfg.skipped || DecidedLate(cfg, Init(cfg), run, id) then 0 else 1
    ensures id in After(cfg, Init(cfg), run).isBreak <==> DecidedLate(cfg, Init(cfg), run, id)
  {
    InitOk(cfg);
    AllCollected(cfg, run, id);
    LaunchesAre(cfg, Init(cfg), run, id);
    MarksAre(cfg, Init(cfg), run, id);
  }

  lemma AllCollected(cfg: Config, run: seq<Action>, id: nat)
    requires Complete(cfg, run) && (cfg.workers >= 1 || cfg.jobs == 0) && id < cfg.jobs
    ensures id in After(cfg, Init(cfg), run).collected
  {
    EveryRunCompletes(cfg, run);
    Present(After(cfg, Init(cfg), run).collected, id);
  }

  /** The main thread collects the jobs in the order in which the workers put them out. */
  lemma CollectedInOrder(cfg: Config, run: seq<Action>)
    requires Complete(cfg, run) && (cfg.workers >= 1 || cfg.jobs == 0)
    ensures After(cfg, Init(cfg), run).collected == Emitted(cfg, Init(cfg), run)
  {
    EveryRunCompletes(cfg, run);
    ResultsInOrder(cfg, Init(cfg), run);
    var collected, emitted := After(cfg, Init(cfg), run).collected, Emitted(cfg, Init(cfg), run);
    assert collected + [] == collected && [] + [] + emitted == emitted;
  }

  /** Without an interrupt no job is marked, in any run. */
  lemma {:induction false} NoInterruptNoMark(cfg: Config, s: State, run: seq<Action>, id: nat)
    requires ValidRun(cfg, s, run) && !s.interrupted && Interrupt !in run
    ensures !DecidedLate(cfg, s, run, id)
    decreases |run|
  {
    if run != [] {
      assert run[0] in run;
      NoInterruptNoMark(cfg, Apply(cfg, s, run[0]), run[1..], id);
    }
  }
}
