/** Workers, switches, network and parameter server together.

    A run is any list of events; an event that is not enabled changes nothing. The network
    may deliver a packet any number of times and in any order, or lose it. The hash of the
    slot tables and the routes are parameters. */
module AtpSystem {
  import opened AtpJobTree
  import opened AtpSwitch
  import opened AtpReceiver
  import opened Sequences

  /** `edgeOf(j, b)` is the edge switch of branch `b` of job `j`, and `later(j, b)` is its
      route from there: the aggregating switches that its packets cross next, in order. A
      hierarchical switch also aggregates packets that an edge switch has aggregated already. */
  datatype Config = Config(jobs: map<nat, Job>, edgeOf: (nat, nat) -> nat,
                           later: (nat, nat) -> seq<nat>, hash: (nat, nat) -> nat,
                           hierarchical: nat -> bool)

  ghost predicate ConfigOk(cfg: Config) {
    && JobsOk(cfg.jobs)
    && forall j, a, b :: j in cfg.jobs && 0 <= a < b < |cfg.jobs[j].fanIns| ==>
                           cfg.edgeOf(j, a) != cfg.edgeOf(j, b)
  }

  /** The mode of the large experiments: the edge switch of a branch aggregates its workers,
      and packets that were aggregated once are only forwarded. */
  ghost predicate SingleLayer(cfg: Config) {
    forall switch: nat :: !cfg.hierarchical(switch)
  }

  /** A packet on the route of a branch, and the number of later switches it has crossed. */
  datatype Flight = Flight(tag: Tag, branch: nat, hop: nat)

  function KeyOf(t: Tag): Key {
    (t.job, t.seqNum)
  }

  /** `sent` is all that workers ever sent, `kept` what their send queues still hold. Packets
      in `first` are before their edge switch, those in `net` behind it. */
  datatype State = State(sent: set<(Key, Worker)>, kept: set<(Key, Worker)>, first: set<Flight>,
                         net: set<Flight>, acks: set<Tag>, slots: map<(nat, nat), Slot>, server: Receiver)

  const Init := State({}, {}, {}, {}, {}, map[], NewReceiver)

  datatype Event =
    | Send(key: Key, w: Worker)
    | Retransmit(key: Key, w: Worker)
    | Lose(flight: Flight)
    | AtEdge(flight: Flight)
    | AtLater(flight: Flight)
    | AtServer(flight: Flight)
    | AckAtSwitch(ack: Tag, switch: nat)
    | AckAtWorker(ack: Tag, w: Worker)

  function WorkerTag(job: Job, key: Key, w: Worker, resend: bool): Tag
    requires w.0 < |job.fanIns|
  {
    Tag(key.0, key.1, job.fanIns[w.0], |job.fanIns|, {w.1}, {w.0}, false, resend, false, 0)
  }

  /** The packet of a worker as it is sent first, and as it is sent again after a timeout. */
  function Original(cfg: Config, key: Key, w: Worker): Flight
    requires key.0 in cfg.jobs && w.0 < |cfg.jobs[key.0].fanIns|
  {
    Flight(WorkerTag(cfg.jobs[key.0], key, w, false), w.0, 0)
  }

  function Resent(cfg: Config, key: Key, w: Worker): Flight
    requires key.0 in cfg.jobs && w.0 < |cfg.jobs[key.0].fanIns|
  {
    Flight(WorkerTag(cfg.jobs[key.0], key, w, true), w.0, 0)
  }

  function AckTag(key: Key): Tag {
    Tag(key.0, key.1, 0, 0, {}, {}, true, false, false, 0)
  }

  function SlotAt(slots: map<(nat, nat), Slot>, k: (nat, nat)): Slot {
    if k in slots then slots[k] else EmptySlot
  }

  function SlotFor(cfg: Config, s: State, switch: nat, key: Key): Slot {
    SlotAt(s.slots, (switch, cfg.hash(key.0, key.1)))
  }

  /** A packet of a branch at a switch; what leaves it has crossed `hop` later switches. */
  function AtSwitch(cfg: Config, s: State, switch: nat, t: Tag, branch: nat, hop: nat): State {
    var (a, out) := Filter(cfg.hierarchical(switch), SlotFor(cfg, s, switch, KeyOf(t)), t);
    s.(slots := s.slots[(switch, cfg.hash(t.job, t.seqNum)) := a],
       net := if out.Some? && !t.isAck then s.net + {Flight(out.value, branch, hop)} else s.net)
  }

  /** What worker `w` holds of a job up to number `q`: an acknowledgement of `q` drops it, and
      what it overtakes is sent once more. */
  function HeldUpTo(kept: set<(Key, Worker)>, j: nat, q: nat, w: Worker): set<(Key, Worker)> {
    set c | c in kept && c.0.0 == j && c.0.1 <= q && c.1 == w
  }

  function Overtaken(cfg: Config, kept: set<(Key, Worker)>, j: nat, q: nat, w: Worker): set<Flight>
    requires j in cfg.jobs && w.0 < |cfg.jobs[j].fanIns|
  {
    set c | c in HeldUpTo(kept, j, q, w) && c.0.1 < q :: Original(cfg, c.0, w)
  }

  ghost function Next(cfg: Config, s: State, e: Event): State {
    match e
    case Send(key, w) =>
      if key.0 in cfg.jobs && key.1 >= 1 && IsWorker(cfg.jobs[key.0], w) && (key, w) !in s.sent then
        s.(sent := s.sent + {(key, w)}, kept := s.kept + {(key, w)},
           first := s.first + {Original(cfg, key, w)})
      else s
    case Retransmit(key, w) =>
      if (key, w) in s.kept && key.0 in cfg.jobs && IsWorker(cfg.jobs[key.0], w) then
        s.(first := s.first + {Resent(cfg, key, w)})
      else s
    case Lose(f) =>
      s.(first := s.first - {f}, net := s.net - {f})
    case AtEdge(f) =>
      if f in s.first then AtSwitch(cfg, s, cfg.edgeOf(f.tag.job, f.branch), f.tag, f.branch, 0) else s
    case AtLater(f) =>
      var route := cfg.later(f.tag.job, f.branch);
      if f in s.net && f.hop < |route| then
        AtSwitch(cfg, s, route[f.hop], f.tag, f.branch, f.hop + 1)
      else s
    case AtServer(f) =>
      if f in s.net && f.hop == |cfg.later(f.tag.job, f.branch)| then
        var (server, ack) := Arrive(TreesOf(cfg.jobs), s.server, f.tag);
        s.(server := server, acks := if ack then s.acks + {AckTag(KeyOf(f.tag))} else s.acks)
      else s
    case AckAtSwitch(ack, switch) =>
      if ack in s.acks then AtSwitch(cfg, s, switch, ack, 0, 0) else s
    case AckAtWorker(ack, w) =>
      if ack in s.acks && ack.job in cfg.jobs && IsWorker(cfg.jobs[ack.job], w) then
        s.(kept := s.kept - HeldUpTo(s.kept, ack.job, ack.seqNum, w),
           first := s.first + Overtaken(cfg, s.kept, ack.job, ack.seqNum, w))
      else s
  }

  ghost function After(cfg: Config, es: seq<Event>): State {
    if es == [] then Init else Next(cfg, After(cfg, es[..|es| - 1]), es[|es| - 1])
  }

  // ----- what the system promises

  /** Nothing is delivered twice, and whatever is delivered was sent by every worker of
      its job. */
  ghost predicate Sound(cfg: Config, s: State) {
    && Distinct(s.server.delivered)
    && forall key, w :: key in s.server.delivered && key.0 in cfg.jobs && IsWorker(cfg.jobs[key.0], w) ==>
                          (key, w) in s.sent
  }

  /** The configurations whose edge switches are safe. First, a packet of one branch is not
      taken for a fully aggregated one: bitmap1 equals the full bitmap of a single branch only
      if the job has one worker. Second, no packet of a branch with two or more workers
      crosses the edge switch of another branch of the same job. */
  ghost predicate Safe(cfg: Config) {
    forall j :: j in cfg.jobs ==> NeverMistaken(cfg.jobs[j]) && NeverMixed(cfg, j)
  }

  ghost predicate NeverMistaken(job: Job) {
    forall b: nat :: b < |job.fanIns| && job.fullBitmap1 == {b} ==> Total(job) == 1
  }

  /** The experiments set the full bitmap to one bit for each leaf switch. The first part of
      safety then fails exactly for the jobs that have all of their workers below one leaf,
      and more than one of them. */
  lemma MistakenIffOneLeaf(job: Job)
    requires WellFormed(job) && job.fullBitmap1 == Ones(|job.fanIns|)
    ensures NeverMistaken(job) <==> |job.fanIns| != 1 || Total(job) == 1
  {
    if |job.fanIns| == 1 {
      assert job.fullBitmap1 == {0};
    } else if |job.fanIns| > 1 {
      assert 0 in job.fullBitmap1 && 1 in job.fullBitmap1;
      forall b: nat ensures job.fullBitmap1 != {b} {
        assert b != 0 ==> 0 !in {b};
        assert b != 1 ==> 1 !in {b};
      }
    }
  }

  ghost predicate NeverMixed(cfg: Config, j: nat)
    requires j in cfg.jobs
  {
    forall a: nat, b: nat :: Mixes(cfg, j, a, b) ==> cfg.jobs[j].fanIns[a] == 1
  }

  /** Packets of branch `a` cross the switch `c` after their edge switch. */
  ghost predicate Crosses(cfg: Config, j: nat, a: nat, c: nat)
    requires j in cfg.jobs
  {
    a < |cfg.jobs[j].fanIns| && c in cfg.later(j, a)
  }

  /** Packets of branch `a` cross the edge switch of branch `b`. */
  ghost predicate Mixes(cfg: Config, j: nat, a: nat, b: nat)
    requires j in cfg.jobs
  {
    b < |cfg.jobs[j].fanIns| && a != b && Crosses(cfg, j, a, cfg.edgeOf(j, b))
  }

  /** No hierarchical switch among the first `hop` later ones. */
  ghost predicate NoCoreBefore(cfg: Config, j: nat, k: nat, hop: nat)
    requires hop <= |cfg.later(j, k)|
  {
    forall h :: 0 <= h < hop ==> !cfg.hierarchical(cfg.later(j, k)[h])
  }

  ghost predicate CoreAt(cfg: Config, j: nat, k: nat, hop: nat, c: nat) {
    && hop < |cfg.later(j, k)| && cfg.later(j, k)[hop] == c
    && cfg.hierarchical(c) && NoCoreBefore(cfg, j, k, hop)
  }

  /** The core switch of branch `k`: the first hierarchical switch that its packets cross
      after their edge switch. There its aggregated packets wait for the other branches. */
  ghost predicate IsCore(cfg: Config, j: nat, k: nat, c: nat)
    requires j in cfg.jobs
  {
    k < |cfg.jobs[j].fanIns| && exists hop: nat :: CoreAt(cfg, j, k, hop, c)
  }

  /** Packets of branch `a` cross the core switch of branch `k`. */
  ghost predicate Meet(cfg: Config, j: nat, a: nat, k: nat, c: nat)
    requires j in cfg.jobs
  {
    a != k && Crosses(cfg, j, a, c) && IsCore(cfg, j, k, c)
  }

  /** The configurations whose core switches are safe: when packets of a branch cross the core
      switch of another, the number of the other is not the index of a worker of the branch,
      unless that worker is the only one there. */
  ghost predicate NeverCoreMixed(cfg: Config) {
    forall j, a: nat, k: nat, c :: j in cfg.jobs && Meet(cfg, j, a, k, c) ==>
                           cfg.jobs[j].fanIns[a] == 1 || k >= cfg.jobs[j].fanIns[a]
  }

  /** The core switch of a branch is not an edge switch of the same job. */
  ghost predicate CoresApart(cfg: Config) {
    forall j, k: nat, b: nat, c | j in cfg.jobs && b < |cfg.jobs[j].fanIns| && IsCore(cfg, j, k, c) ::
      cfg.edgeOf(j, b) != c
  }

  /** Safe, with core switches or without. */
  ghost predicate SafeEverywhere(cfg: Config) {
    ConfigOk(cfg) && CoresApart(cfg) && Safe(cfg) && NeverCoreMixed(cfg)
  }
}
