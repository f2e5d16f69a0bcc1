/** The parallel test dispatcher: a main thread that fills an input queue while the workers
    already run, one sentinel job per worker, an interrupt flag, and the collection of the
    results. Every interleaving of their atomic steps is a run.

    Job objects are numbered in the order in which they are put: the real jobs are
    0 to jobs-1, the sentinels follow. */
module Dispatcher {
  import opened Sequences

  /** The number of jobs and of workers, and the jobs marked to be skipped. */
  datatype Config = Config(jobs: nat, workers: nat, skipped: set<nat>)

  /** Where a worker is in its loop, and the job object in its hands. A worker that left
      keeps the sentinel that told it to. */
  datatype Worker =
    | Idle
    | Got(id: nat)
    | Vetted(id: nat)
    | Running(id: nat)
    | Ready(id: nat)
    | Exited(id: nat)

  datatype State = State(next: nat, input: seq<nat>, workers: seq<Worker>, interrupted: bool,
                         isBreak: set<nat>, output: seq<nat>, collected: seq<nat>, joined: nat)

  datatype Action =
    | Put
    | Take(k: nat)
    | Vet(k: nat)
    | Decide(k: nat)
    | Finish(k: nat)
    | Emit(k: nat)
    | Collect
    | Join
    | Interrupt

  function Init(cfg: Config): State {
    State(0, [], seq(cfg.workers, _ => Idle), false, {}, [], [], 0)
  }

  predicate Enabled(cfg: Config, s: State, a: Action) {
    match a
    case Put => s.next < cfg.jobs + cfg.workers
    case Take(k) => k < |s.workers| && s.workers[k].Idle? && s.input != []
    case Vet(k) => k < |s.workers| && s.workers[k].Got?
    case Decide(k) => k < |s.workers| && s.workers[k].Vetted?
    case Finish(k) => k < |s.workers| && s.workers[k].Running?
    case Emit(k) => k < |s.workers| && s.workers[k].Ready?
    case Collect => s.next == cfg.jobs + cfg.workers && |s.collected| < cfg.jobs && s.output != []
    case Join =>
      s.next == cfg.jobs + cfg.workers && |s.collected| == cfg.jobs &&
      s.joined < |s.workers| && s.workers[s.joined].Exited?
    case Interrupt => !s.interrupted
  }

  function Apply(cfg: Config, s: State, a: Action): State
    requires Enabled(cfg, s, a)
  {
    match a
    case Put =>
      s.(next := s.next + 1, input := s.input + [s.next],
         isBreak := if s.next < cfg.jobs then s.isBreak else s.isBreak + {s.next})
    case Take(k) => s.(input := s.input[1..], workers := s.workers[k := Got(s.input[0])])
    case Vet(k) =>
      var id := s.workers[k].id;
      s.(workers := s.workers[k := if id in s.isBreak then Exited(id) else Vetted(id)])
    case Decide(k) =>
      var id := s.workers[k].id;
      if s.interrupted then s.(isBreak := s.isBreak + {id}, workers := s.workers[k := Ready(id)])
      else if id in cfg.skipped then s.(workers := s.workers[k := Ready(id)])
      else s.(workers := s.workers[k := Running(id)])
    case Finish(k) => s.(workers := s.workers[k := Ready(s.workers[k].id)])
    case Emit(k) => s.(output := s.output + [s.workers[k].id], workers := s.workers[k := Idle])
    case Collect => s.(output := s.output[1..], collected := s.collected + [s.output[0]])
    case Join => s.(joined := s.joined + 1)
    case Interrupt => s.(interrupted := true)
  }

  /** A run from `s`: each action is enabled when it happens. */
  ghost predicate ValidRun(cfg: Config, s: State, run: seq<Action>)
    decreases |run|
  {
    run == [] || (Enabled(cfg, s, run[0]) && ValidRun(cfg, Apply(cfg, s, run[0]), run[1..]))
  }

  ghost function After(cfg: Config, s: State, run: seq<Action>): State
    requires ValidRun(cfg, s, run)
    decreases |run|
  {
    if run == [] then s else After(cfg, Apply(cfg, s, run[0]), run[1..])
  }

  /** The main thread has joined every worker. */
  predicate Finished(cfg: Config, s: State) {
    s.joined == cfg.workers && |s.collected| == cfg.jobs && s.next == cfg.jobs + cfg.workers
  }

  // ----- the invariant

  function Sum(workers: seq<Worker>, f: Worker -> nat): nat {
    if workers == [] then 0 else Sum(workers[..|workers| - 1], f) + f(workers[|workers| - 1])
  }

  lemma {:induction false} SumUpdate(workers: seq<Worker>, k: nat, w: Worker, f: Worker -> nat)
    requires k < |workers|
    ensures Sum(workers[k := w], f) + f(workers[k]) == Sum(workers, f) + f(w)
  {
    var last := |workers| - 1;
    if k < last {
      assert workers[k := w][..last] == workers[..last][k := w];
      SumUpdate(workers[..last], k, w, f);
    } else {
      assert workers[k := w][..last] == workers[..last];
    }
  }

  lemma {:induction false} SumAtLeast(workers: seq<Worker>, k: nat, f: Worker -> nat)
    requires k < |workers|
    ensures Sum(workers, f) >= f(workers[k])
  {
    var last := |workers| - 1;
    if k < last {
      SumAtLeast(workers[..last], k, f);
    }
  }

  /** One for a worker that holds job object `id`. */
  function Holds(id: nat): Worker -> nat {
    (w: Worker) => if !w.Idle? && w.id == id then 1 else 0
  }

  /** One for a worker that holds a sentinel, or a real job. */
  function HoldsSentinel(jobs: nat): Worker -> nat {
    (w: Worker) => if !w.Idle? && w.id >= jobs then 1 else 0
  }

  function HoldsReal(jobs: nat): Worker -> nat {
    (w: Worker) => if !w.Idle? && w.id < jobs then 1 else 0
  }

  function Count(s: seq<nat>, id: nat): nat {
    if s == [] then 0 else Count(s[..|s| - 1], id) + if s[|s| - 1] == id then 1 else 0
  }

  lemma {:induction false} CountRest(s: seq<nat>, id: nat)
    requires s != []
    ensures Count(s, id) == Count(s[1..], id) + if s[0] == id then 1 else 0
  {
    if |s| > 1 {
      CountRest(s[..|s| - 1], id);
      assert s[1..][..|s| - 2] == s[..|s| - 1][1..];
    }
  }

  /** The number of job objects that have left the input queue. */
  function Head(s: State): int {
    s.next - |s.input|
  }

  /** The main thread goes through its phases in order. */
  ghost predicate PhasesOk(cfg: Config, s: State) {
    && s.next <= cfg.jobs + cfg.workers && |s.workers| == cfg.workers
    && |s.collected| <= cfg.jobs && s.joined <= cfg.workers
    && (s.joined > 0 ==> |s.collected| == cfg.jobs && s.next == cfg.jobs + cfg.workers)
    && (forall k :: 0 <= k < s.joined ==> s.workers[k].Exited?)
  }

  /** The input queue holds the latest job objects in order; in it, the ones marked as
      break are the sentinels. */
  ghost predicate QueueOk(cfg: Config, s: State) {
    && 0 <= Head(s)
    && (forall i :: 0 <= i < |s.input| ==> s.input[i] == Head(s) + i)
    && (forall id :: Head(s) <= id < s.next ==> (id in s.isBreak <==> id >= cfg.jobs))
    && (forall id :: id in s.isBreak ==> id < s.next)
    && (forall id :: id in s.isBreak && id < cfg.jobs ==> s.interrupted)
  }

  ghost predicate WorkerOk(cfg: Config, isBreak: set<nat>, w: Worker) {
    match w
    case Idle => true
    case Got(id) => id in isBreak <==> id >= cfg.jobs
    case Vetted(id) => id < cfg.jobs && id !in isBreak
    case Running(id) => id < cfg.jobs && id !in isBreak
    case Ready(id) => id < cfg.jobs
    case Exited(id) => id >= cfg.jobs
  }

  ghost predicate WorkersOk(cfg: Config, s: State) {
    && (forall k :: 0 <= k < |s.workers| ==> WorkerOk(cfg, s.isBreak, s.workers[k]))
    && (forall id :: id in s.output || id in s.collected ==> id < cfg.jobs)
  }

  /** Every job object that left the input queue is in exactly one place, once. */
  ghost predicate OnceEach(s: State) {
    forall id: nat ::
      Sum(s.workers, Holds(id)) + Count(s.output, id) + Count(s.collected, id) ==
      if id < Head(s) then 1 else 0
  }

  ghost predicate TallyOk(cfg: Config, s: State) {
    && Sum(s.workers, HoldsSentinel(cfg.jobs)) == (if Head(s) <= cfg.jobs then 0 else Head(s) - cfg.jobs)
    && Sum(s.workers, HoldsReal(cfg.jobs)) + |s.output| + |s.collected| ==
       (if Head(s) <= cfg.jobs then Head(s) else cfg.jobs)
  }

  ghost predicate Inv(cfg: Config, s: State) {
    PhasesOk(cfg, s) && QueueOk(cfg, s) && WorkersOk(cfg, s) && OnceEach(s) && TallyOk(cfg, s)
  }

  lemma {:induction false} SumZero(workers: seq<Worker>, f: Worker -> nat)
    requires forall k :: 0 <= k < |workers| ==> f(workers[k]) == 0
    ensures Sum(workers, f) == 0
  {
    if workers != [] {
      SumZero(workers[..|workers| - 1], f);
    }
  }

  lemma InitOk(cfg: Config)
    ensures Inv(cfg, Init(cfg))
  {
    var s := Init(cfg);
    forall id: nat ensures Sum(s.workers, Holds(id)) == 0 {
      SumZero(s.workers, Holds(id));
    }
    SumZero(s.workers, HoldsSentinel(cfg.jobs));
    SumZero(s.workers, HoldsReal(cfg.jobs));
  }

  /** What worker `k` holds has left the input queue, and no other worker holds it. */
  lemma HeldAlone(cfg: Config, s: State, k: nat)
    requires Inv(cfg, s) && k < |s.workers| && !s.workers[k].Idle?
    ensures s.workers[k].id < Head(s)
    ensures forall m :: 0 <= m < |s.workers| && m != k && !s.workers[m].Idle? ==>
                        s.workers[m].id != s.workers[k].id
  {
    var id := s.workers[k].id;
    SumAtLeast(s.workers, k, Holds(id));
    forall m: nat | m < |s.workers| && m != k && !s.workers[m].Idle? ensures s.workers[m].id != id {
      if s.workers[m].id == id {
        SumUpdate(s.workers, k, Idle, Holds(id));
        SumAtLeast(s.workers[k := Idle], m, Holds(id));
      }
    }
  }

  lemma TokensMove(cfg: Config, s: State, k: nat, w: Worker)
    requires k < |s.workers|
    ensures forall id: nat ::
              Sum(s.workers[k := w], Holds(id)) + Holds(id)(s.workers[k]) ==
              Sum(s.workers, Holds(id)) + Holds(id)(w)
    ensures Sum(s.workers[k := w], HoldsSentinel(cfg.jobs)) + HoldsSentinel(cfg.jobs)(s.workers[k]) ==
            Sum(s.workers, HoldsSentinel(cfg.jobs)) + HoldsSentinel(cfg.jobs)(w)
    ensures Sum(s.workers[k := w], HoldsReal(cfg.jobs)) + HoldsReal(cfg.jobs)(s.workers[k]) ==
            Sum(s.workers, HoldsReal(cfg.jobs)) + HoldsReal(cfg.jobs)(w)
  {
    forall id: nat
      ensures Sum(s.workers[k := w], Holds(id)) + Holds(id)(s.workers[k]) ==
              Sum(s.workers, Holds(id)) + Holds(id)(w)
    {
      SumUpdate(s.workers, k, w, Holds(id));
    }
    SumUpdate(s.workers, k, w, HoldsSentinel(cfg.jobs));
    SumUpdate(s.workers, k, w, HoldsReal(cfg.jobs));
  }

  /** A step of worker `k` that keeps its job object in its hands, and may mark it. */
  lemma KeepsJob(cfg: Config, s: State, k: nat, w: Worker, isBreak: set<nat>)
    requires Inv(cfg, s) && k < |s.workers| && !s.workers[k].Idle? && !s.workers[k].Exited?
    requires !w.Idle? && w.id == s.workers[k].id
    requires isBreak == s.isBreak || (isBreak == s.isBreak + {w.id} && w.id < cfg.jobs && s.interrupted)
    requires WorkerOk(cfg, isBreak, w)
    ensures Inv(cfg, s.(isBreak := isBreak, workers := s.workers[k := w]))
  {
    HeldAlone(cfg, s, k);
    TokensMove(cfg, s, k, w);
  }

  lemma TakeKept(cfg: Config, s: State, k: nat)
    requires Inv(cfg, s) && Enabled(cfg, s, Take(k))
    ensures Inv(cfg, Apply(cfg, s, Take(k)))
  {
    TokensMove(cfg, s, k, Got(s.input[0]));
  }

  lemma EmitKept(cfg: Config, s: State, k: nat)
    requires Inv(cfg, s) && Enabled(cfg, s, Emit(k))
    ensures Inv(cfg, Apply(cfg, s, Emit(k)))
  {
    TokensMove(cfg, s, k, Idle);
    forall id: nat ensures Count(s.output + [s.workers[k].id], id) ==
                           Count(s.output, id) + if s.workers[k].id == id then 1 else 0 {
      assert (s.output + [s.workers[k].id])[..|s.output|] == s.output;
    }
  }

  lemma CollectKept(cfg: Config, s: State)
    requires Inv(cfg, s) && Enabled(cfg, s, Collect)
    ensures Inv(cfg, Apply(cfg, s, Collect))
  {
    forall id: nat
      ensures Count(s.output, id) + Count(s.collected, id) ==
              Count(s.output[1..], id) + Count(s.collected + [s.output[0]], id)
    {
      CountRest(s.output, id);
    }
    forall id | id in s.output[1..] || id in s.collected + [s.output[0]] ensures id < cfg.jobs {
      assert id in s.output || id in s.collected;
    }
  }

  lemma PutKept(cfg: Config, s: State)
    requires Inv(cfg, s) && Enabled(cfg, s, Put)
    ensures Inv(cfg, Apply(cfg, s, Put))
  {
  }

  lemma JoinKept(cfg: Config, s: State)
    requires Inv(cfg, s) && Enabled(cfg, s, Join)
    ensures Inv(cfg, Apply(cfg, s, Join))
  {
  }

  lemma Preserved(cfg: Config, s: State, a: Action)
    requires Inv(cfg, s) && Enabled(cfg, s, a)
    ensures Inv(cfg, Apply(cfg, s, a))
  {
    match a
    case Put => PutKept(cfg, s);
    case Take(k) => TakeKept(cfg, s, k);
    case Vet(k) =>
      var id := s.workers[k].id;
      KeepsJob(cfg, s, k, if id in s.isBreak then Exited(id) else Vetted(id), s.isBreak);
    case Decide(k) => KeepsJob(cfg, s, k, Apply(cfg, s, a).workers[k], Apply(cfg, s, a).isBreak);
    case Finish(k) => KeepsJob(cfg, s, k, Ready(s.workers[k].id), s.isBreak);
    case Emit(k) => EmitKept(cfg, s, k);
    case Collect => CollectKept(cfg, s);
    case Join => JoinKept(cfg, s);
    case Interrupt =>
  }

  lemma {:induction false} RunKeeps(cfg: Config, s: State, run: seq<Action>)
    requires Inv(cfg, s) && ValidRun(cfg, s, run)
    ensures Inv(cfg, After(cfg, s, run))
    decreases |run|
  {
    if run != [] {
      Preserved(cfg, s, run[0]);
      RunKeeps(cfg, Apply(cfg, s, run[0]), run[1..]);
    }
  }

  // ----- safety: what holds in every state of every run

  /** Each real job object is in at most one place, and there once; a worker only leaves
      with a sentinel in its hands, never with a job that was marked when interrupted; and
      a sentinel is taken only when all real jobs have left the input queue. */
  ghost predicate Safe(cfg: Config, s: State) {
    && (forall id: nat ::
          Sum(s.workers, Holds(id)) + Count(s.output, id) + Count(s.collected, id) + Count(s.input, id) <= 1)
    && (forall k :: 0 <= k < |s.workers| && s.workers[k].Exited? ==> s.workers[k].id >= cfg.jobs)
    && (forall k, i | 0 <= k < |s.workers| && 0 <= i < |s.input| ::
          !s.workers[k].Idle? && s.workers[k].id >= cfg.jobs ==> s.input[i] >= cfg.jobs)
  }

  lemma InvIsSafe(cfg: Config, s: State)
    requires Inv(cfg, s)
    ensures Safe(cfg, s)
  {
    forall id: nat
      ensures Sum(s.workers, Holds(id)) + Count(s.output, id) + Count(s.collected, id) + Count(s.input, id) <= 1
    {
      CountInterval(s.input, Head(s), id);
    }
    forall k: nat, i: nat | k < |s.workers| && i < |s.input| && !s.workers[k].Idle? && s.workers[k].id >= cfg.jobs
      ensures s.input[i] >= cfg.jobs
    {
      HeldAlone(cfg, s, k);
    }
  }

  /** Every state of every run is safe, whatever the interleaving. */
  lemma EveryRunIsSafe(cfg: Config, run: seq<Action>)
    requires ValidRun(cfg, Init(cfg), run)
    ensures Safe(cfg, After(cfg, Init(cfg), run))
  {
    InitOk(cfg);
    RunKeeps(cfg, Init(cfg), run);
    InvIsSafe(cfg, After(cfg, Init(cfg), run));
  }

  // ----- no deadlock

  /** Once the input queue is empty for good, every worker holds a sentinel. */
  lemma AllHoldSentinels(cfg: Config, s: State)
    requires Inv(cfg, s) && Head(s) == cfg.jobs + cfg.workers
    ensures forall k :: 0 <= k < |s.workers| ==> !s.workers[k].Idle? && s.workers[k].id >= cfg.jobs
    ensures |s.output| + |s.collected| == cfg.jobs
  {
    var f := HoldsSentinel(cfg.jobs);
    SumAtMost(s.workers, f);
    forall k | 0 <= k < |s.workers| ensures !s.workers[k].Idle? && s.workers[k].id >= cfg.jobs {
      assert f(s.workers[k]) == 1;
    }
    SumZero(s.workers, HoldsReal(cfg.jobs));
  }

  /** In every state that is not the final one, some action other than an interrupt is
      enabled, provided there is a worker or nothing to do. */
  lemma NeverStuck(cfg: Config, s: State) returns (a: Action)
    requires Inv(cfg, s) && (cfg.workers >= 1 || cfg.jobs == 0) && !Finished(cfg, s)
    ensures Enabled(cfg, s, a) && !a.Interrupt?
  {
    if s.next < cfg.jobs + cfg.workers {
      a := Put;
    } else if k: nat :| k < |s.workers| && s.workers[k].Got? {
      a := Vet(k);
    } else if k: nat :| k < |s.workers| && s.workers[k].Vetted? {
      a := Decide(k);
    } else if k: nat :| k < |s.workers| && s.workers[k].Running? {
      a := Finish(k);
    } else if k: nat :| k < |s.workers| && s.workers[k].Ready? {
      a := Emit(k);
    } else if k: nat :| k < |s.workers| && s.workers[k].Idle? && s.input != [] {
      a := Take(k);
    } else {
      NothingWaits(cfg, s);
      AllHoldSentinels(cfg, s);
      if |s.collected| < cfg.jobs {
        a := Collect;
      } else {
        a := Join;
      }
    }
  }

  /** If all job objects were put and no worker can move, the input queue is empty. */
  lemma NothingWaits(cfg: Config, s: State)
    requires Inv(cfg, s) && s.next == cfg.jobs + cfg.workers && (cfg.workers >= 1 || cfg.jobs == 0)
    requires forall k :: 0 <= k < |s.workers| ==>
               s.workers[k].Exited? || (s.workers[k].Idle? && s.input == [])
    ensures s.input == []
  {
    if s.input != [] {
      var f := HoldsSentinel(cfg.jobs);
      AllOnes(s.workers, f);
    }
  }

  // ----- every run is finite

  function StepsLeft(): Worker -> nat {
    (w: Worker) =>
      match w
      case Idle => 0
      case Got(_) => 5
      case Vetted(_) => 4
      case Running(_) => 3
      case Ready(_) => 2
      case Exited(_) => 0
  }

  /** The main thread and the workers have at most this many steps to go. */
  function Measure(cfg: Config, s: State): int {
    7 * (cfg.jobs + cfg.workers - s.next) + 6 * |s.input| + Sum(s.workers, StepsLeft()) + |s.output| +
    (cfg.workers - s.joined) + if s.interrupted then 0 else 1
  }

  lemma EveryStepCounts(cfg: Config, s: State, a: Action)
    requires Inv(cfg, s) && Enabled(cfg, s, a)
    ensures Measure(cfg, Apply(cfg, s, a)) < Measure(cfg, s)
  {
    var s' := Apply(cfg, s, a);
    if a.Take? || a.Vet? || a.Decide? || a.Finish? || a.Emit? {
      SumUpdate(s.workers, a.k, s'.workers[a.k], StepsLeft());
    }
  }

  lemma {:induction false} RunIsShort(cfg: Config, s: State, run: seq<Action>)
    requires Inv(cfg, s) && ValidRun(cfg, s, run)
    ensures |run| <= Measure(cfg, s)
    decreases |run|
  {
    if run != [] {
      Preserved(cfg, s, run[0]);
      EveryStepCounts(cfg, s, run[0]);
      RunIsShort(cfg, Apply(cfg, s, run[0]), run[1..]);
    }
  }

  /** No run is longer than this, with or without an interrupt at any point. */
  lemma EveryRunIsFinite(cfg: Config, run: seq<Action>)
    requires ValidRun(cfg, Init(cfg), run)
    ensures |run| <= 7 * cfg.jobs + 8 * cfg.workers + 1
  {
    InitOk(cfg);
    RunIsShort(cfg, Init(cfg), run);
    SumZero(Init(cfg).workers, StepsLeft());
  }

  /** What is true when a run cannot go on: the main thread has collected every job exactly
      once, in some order, both queues are empty, and every worker has left with a sentinel
      of its own. */
  lemma EveryRunCompletes(cfg: Config, run: seq<Action>)
    requires ValidRun(cfg, Init(cfg), run) && (cfg.workers >= 1 || cfg.jobs == 0)
    requires forall a: Action :: Enabled(cfg, After(cfg, Init(cfg), run), a) ==> a.Interrupt?
    ensures (var s := After(cfg, Init(cfg), run);
             && Finished(cfg, s) && s.input == [] && s.output == []
             && (forall id: nat :: Count(s.collected, id) == if id < cfg.jobs then 1 else 0)
             && (forall k :: 0 <= k < |s.workers| ==> s.workers[k].Exited?)
             && Distinct(s.workers))
  {
    InitOk(cfg);
    var s := After(cfg, Init(cfg), run);
    RunKeeps(cfg, Init(cfg), run);
    if !Finished(cfg, s) {
      var a := NeverStuck(cfg, s);
    }
    assert forall k :: 0 <= k < |s.workers| ==> s.workers[k].Exited?;
    NothingWaits(cfg, s);
    AllHoldSentinels(cfg, s);
    forall id: nat ensures Count(s.collected, id) == if id < cfg.jobs then 1 else 0 {
      CollectedCount(cfg, s, id);
    }
    forall k: nat, m: nat | k < m < |s.workers| ensures s.workers[k] != s.workers[m] {
      HeldAlone(cfg, s, k);
    }
  }

  /** Without a worker, and with something to do, no run ever finishes. */
  lemma NeverFinishesWithoutWorkers(cfg: Config, s: State, run: seq<Action>)
    requires cfg.workers == 0 && cfg.jobs >= 1
    requires s.workers == [] && s.output == [] && s.collected == [] && ValidRun(cfg, s, run)
    ensures !Finished(cfg, After(cfg, s, run))
    decreases |run|
  {
    if run != [] {
      NeverFinishesWithoutWorkers(cfg, Apply(cfg, s, run[0]), run[1..]);
    }
  }

  // ----- sums and counts

  lemma {:induction false} CountInterval(input: seq<nat>, head: nat, id: nat)
    requires forall i :: 0 <= i < |input| ==> input[i] == head + i
    ensures Count(input, id) == if head <= id < head + |input| then 1 else 0
  {
    if input != [] {
      CountInterval(input[..|input| - 1], head, id);
    }
  }

  lemma {:induction false} SumAtMost(workers: seq<Worker>, f: Worker -> nat)
    requires forall w :: f(w) <= 1
    ensures Sum(workers, f) <= |workers|
    ensures Sum(workers, f) == |workers| ==> forall k :: 0 <= k < |workers| ==> f(workers[k]) == 1
  {
    if workers != [] {
      SumAtMost(workers[..|workers| - 1], f);
    }
  }

  lemma {:induction false} AllOnes(workers: seq<Worker>, f: Worker -> nat)
    requires forall k :: 0 <= k < |workers| ==> f(workers[k]) == 1
    ensures Sum(workers, f) == |workers|
  {
    if workers != [] {
      AllOnes(workers[..|workers| - 1], f);
    }
  }

  lemma CollectedCount(cfg: Config, s: State, id: nat)
    requires Inv(cfg, s) && s.output == [] && Head(s) == cfg.jobs + cfg.workers
    requires forall k :: 0 <= k < |s.workers| ==> !s.workers[k].Idle? && s.workers[k].id >= cfg.jobs
    requires forall x :: x in s.collected ==> x < cfg.jobs
    ensures Count(s.collected, id) == if id < cfg.jobs then 1 else 0
  {
    if id < cfg.jobs {
      SumZero(s.workers, Holds(id));
    } else {
      CountAbsent(s.collected, id);
    }
  }

  lemma {:induction false} CountAbsent(s: seq<nat>, id: nat)
    requires id !in s
    ensures Count(s, id) == 0
  {
    if s != [] {
      CountAbsent(s[..|s| - 1], id);
    }
  }
}
