/** The aggregation tree that the parameter server holds for a job, and the flat
    bitmap it computes from the two bitmaps of a packet.

    A 32-bit bitmap is represented by the set of the positions of its one bits: `|` is
    union, `&` is intersection, and a left shift moves positions and drops those at 32
    and above. */
module AtpJobTree {

  type Bits = set<nat>

  const WORD := 32

  /** The bitmap with its `n` lowest bits set, `(1 << n) - 1`. */
  function Ones(n: nat): (bits: Bits)
    ensures forall x: nat :: x in bits <==> x < n
  {
    if n == 0 then {} else Ones(n - 1) + {n - 1}
  }

  function ShiftLeft(bits: Bits, k: nat): Bits {
    set x | x in bits && x + k < WORD :: x + k
  }

  datatype Branch = Branch(fanIn0: nat, fullBitmap0: Bits)

  datatype JobTree = JobTree(fullBitmap1: Bits, branches: map<nat, Branch>, expected: Bits)

  /** Where the workers of the branch at bitmap1 position `pos` start in the flat bitmap. */
  function WorkerOffset(branches: map<nat, Branch>, pos: nat): nat {
    if pos == 0 then 0
    else WorkerOffset(branches, pos - 1) + if pos - 1 in branches then branches[pos - 1].fanIn0 else 0
  }

  /** The flat bits contributed by the branches below position `pos`. */
  function FlatBelow(tree: JobTree, bitmap0: Bits, bitmap1: Bits, pos: nat): Bits {
    if pos == 0 then {}
    else
      var rest := FlatBelow(tree, bitmap0, bitmap1, pos - 1);
      if pos - 1 in tree.branches && pos - 1 in bitmap1 then
        rest + ShiftLeft(bitmap0 * tree.branches[pos - 1].fullBitmap0,
                         WorkerOffset(tree.branches, pos - 1))
      else rest
  }

  function Flat(tree: JobTree, bitmap0: Bits, bitmap1: Bits): Bits {
    if bitmap1 == tree.fullBitmap1 then tree.expected
    else FlatBelow(tree, bitmap0, bitmap1, WORD)
  }

  /** The scan over the 32 bitmap1 positions, with its running worker offset. */
  method ConvertToFlatBitmap(tree: JobTree, bitmap0: Bits, bitmap1: Bits) returns (flat: Bits)
    ensures flat == Flat(tree, bitmap0, bitmap1)
  {
    if bitmap1 == tree.fullBitmap1 {
      return tree.expected;
    }
    flat := {};
    var workerOffset := 0;
    for pos := 0 to WORD
      invariant workerOffset == WorkerOffset(tree.branches, pos)
      invariant flat == FlatBelow(tree, bitmap0, bitmap1, pos)
    {
      if pos in tree.branches {
        var branch := tree.branches[pos];
        if pos in bitmap1 {
          var localBits := bitmap0 * branch.fullBitmap0;
          flat := flat + ShiftLeft(localBits, workerOffset);
        }
        workerOffset := workerOffset + branch.fanIn0;
      }
    }
  }

  // ----- the trees that the experiments install

  /** A job as an experiment configures it: the number of workers below each edge switch,
      and the bitmap1 value that stands for a fully aggregated packet. */
  datatype Job = Job(fanIns: seq<nat>, fullBitmap1: Bits)

  /** `(b, i)` is worker `i` of branch `b`. */
  type Worker = (nat, nat)

  ghost predicate IsWorker(job: Job, w: Worker) {
    w.0 < |job.fanIns| && w.1 < job.fanIns[w.0]
  }

  function Offset(fanIns: seq<nat>, b: nat): nat
    requires b <= |fanIns|
  {
    if b == 0 then 0 else Offset(fanIns, b - 1) + fanIns[b - 1]
  }

  function Total(job: Job): nat {
    Offset(job.fanIns, |job.fanIns|)
  }

  /** At most 32 workers in all, and at least one and less than 32 below each switch:
      beyond that the shifts of the source are undefined. */
  ghost predicate WellFormed(job: Job) {
    && |job.fanIns| <= WORD
    && (forall b :: 0 <= b < |job.fanIns| ==> 1 <= job.fanIns[b] < WORD)
    && 1 <= Total(job) <= WORD
  }

  function BranchesOf(fanIns: seq<nat>, n: nat): map<nat, Branch>
    requires n <= |fanIns|
  {
    map b: nat | b < n :: Branch(fanIns[b], Ones(fanIns[b]))
  }

  function TreeOf(job: Job): JobTree {
    JobTree(job.fullBitmap1, BranchesOf(job.fanIns, |job.fanIns|), Ones(Total(job)))
  }

  /** The loop that fills the tree, one edge switch after the other. */
  method BuildTree(job: Job) returns (tree: JobTree)
    requires WellFormed(job)
    ensures tree == TreeOf(job)
  {
    var branches: map<nat, Branch> := map[];
    var flatBitmap: Bits := {};
    var globalWorkerCount := 0;
    for leaf := 0 to |job.fanIns|
      invariant globalWorkerCount == Offset(job.fanIns, leaf)
      invariant flatBitmap == Ones(globalWorkerCount)
      invariant branches == BranchesOf(job.fanIns, leaf)
    {
      var count := job.fanIns[leaf];
      branches := branches[leaf := Branch(count, Ones(count))];
      for k := 0 to count
        invariant flatBitmap == Ones(globalWorkerCount + k)
      {
        OffsetMonotone(job.fanIns, leaf + 1, |job.fanIns|);
        flatBitmap := flatBitmap + ShiftLeft({0}, globalWorkerCount + k);
      }
      globalWorkerCount := globalWorkerCount + count;
    }
    tree := JobTree(job.fullBitmap1, branches, flatBitmap);
  }

  // ----- what a flat bitmap means

  /** The position of a worker in the flat bitmap. */
  function Position(job: Job, w: Worker): nat
    requires w.0 < |job.fanIns|
  {
    Offset(job.fanIns, w.0) + w.1
  }

  lemma {:induction false} OffsetMonotone(fanIns: seq<nat>, b: nat, c: nat)
    requires b <= c <= |fanIns|
    ensures Offset(fanIns, b) <= Offset(fanIns, c)
    decreases c
  {
    if b < c {
      OffsetMonotone(fanIns, b, c - 1);
    }
  }

  /** Distinct workers have distinct flat positions, all below the total. */
  lemma PositionInjective(job: Job, v: Worker, w: Worker)
    requires IsWorker(job, v) && IsWorker(job, w)
    ensures Position(job, v) < Total(job)
    ensures Position(job, v) == Position(job, w) ==> v == w
  {
    OffsetMonotone(job.fanIns, v.0 + 1, |job.fanIns|);
    if v.0 < w.0 {
      OffsetMonotone(job.fanIns, v.0 + 1, w.0);
    } else if w.0 < v.0 {
      OffsetMonotone(job.fanIns, w.0 + 1, v.0);
    }
  }

  /** Every flat position below the total is the position of some worker. */
  lemma {:induction false} WorkerAt(fanIns: seq<nat>, n: nat, p: nat) returns (w: Worker)
    requires n <= |fanIns| && p < Offset(fanIns, n)
    ensures w.0 < n && w.1 < fanIns[w.0]
    ensures Offset(fanIns, w.0) + w.1 == p
    decreases n
  {
    if p < Offset(fanIns, n - 1) {
      w := WorkerAt(fanIns, n - 1, p);
    } else {
      w := (n - 1, p - Offset(fanIns, n - 1));
    }
  }

  lemma {:induction false} OffsetsAgree(job: Job, b: nat)
    requires b <= |job.fanIns|
    ensures WorkerOffset(TreeOf(job).branches, b) == Offset(job.fanIns, b)
  {
    if b > 0 {
      OffsetsAgree(job, b - 1);
    }
  }

  lemma ShiftMember(bits: Bits, k: nat, p: nat)
    ensures p in ShiftLeft(bits, k) <==> k <= p < WORD && p - k in bits
  {
    if k <= p < WORD && p - k in bits {
      assert (p - k) + k == p;
    }
  }

  /** Worker `w` has flat position `p`, and the bitmaps of a packet name it. */
  ghost predicate Named(job: Job, bitmap0: Bits, bitmap1: Bits, w: Worker, p: nat) {
    IsWorker(job, w) && w.0 in bitmap1 && w.1 in bitmap0 && Position(job, w) == p
  }

  /** One position of the scan adds exactly the named workers of its branch. */
  lemma FlatStep(job: Job, bitmap0: Bits, bitmap1: Bits, b: nat, p: nat)
    requires WellFormed(job)
    ensures p in FlatBelow(TreeOf(job), bitmap0, bitmap1, b + 1) <==>
            || p in FlatBelow(TreeOf(job), bitmap0, bitmap1, b)
            || exists i: nat :: Named(job, bitmap0, bitmap1, (b, i), p)
  {
    if b < |job.fanIns| && b in bitmap1 {
      OffsetsAgree(job, b);
      OffsetMonotone(job.fanIns, b + 1, |job.fanIns|);
      var offset := Offset(job.fanIns, b);
      ShiftMember(bitmap0 * Ones(job.fanIns[b]), offset, p);
      if p >= offset {
        assert Named(job, bitmap0, bitmap1, (b, p - offset), p) <==>
               p - offset in bitmap0 && p - offset < job.fanIns[b];
      }
    }
  }

  lemma {:induction false} FlatBelowMember(job: Job, bitmap0: Bits, bitmap1: Bits, pos: nat, p: nat)
    requires WellFormed(job)
    ensures p in FlatBelow(TreeOf(job), bitmap0, bitmap1, pos) <==>
            exists w: Worker :: w.0 < pos && Named(job, bitmap0, bitmap1, w, p)
  {
    if pos > 0 {
      FlatBelowMember(job, bitmap0, bitmap1, pos - 1, p);
      FlatStep(job, bitmap0, bitmap1, pos - 1, p);
      if w: Worker :| w.0 < pos && Named(job, bitmap0, bitmap1, w, p) {
        assert w.0 < pos - 1 || w == (pos - 1, w.1);
      }
    }
  }

  /** The meaning of the flat bitmap of a packet that is not fully aggregated: the bit of
      a worker is set exactly when the packet names its branch in bitmap1 and its local
      index in bitmap0; and there is no other bit. */
  lemma FlatMeansWorkers(job: Job, bitmap0: Bits, bitmap1: Bits)
    requires WellFormed(job) && bitmap1 != job.fullBitmap1
    ensures forall w: Worker :: IsWorker(job, w) ==>
              (Position(job, w) in Flat(TreeOf(job), bitmap0, bitmap1) <==>
               w.0 in bitmap1 && w.1 in bitmap0)
    ensures Flat(TreeOf(job), bitmap0, bitmap1) <= TreeOf(job).expected
  {
    var flat := Flat(TreeOf(job), bitmap0, bitmap1);
    forall w: Worker | IsWorker(job, w)
      ensures Position(job, w) in flat <==> w.0 in bitmap1 && w.1 in bitmap0
    {
      var p := Position(job, w);
      FlatBelowMember(job, bitmap0, bitmap1, WORD, p);
      forall v: Worker | Named(job, bitmap0, bitmap1, v, p) ensures v == w {
        PositionInjective(job, v, w);
      }
      assert Named(job, bitmap0, bitmap1, w, p) <==> w.0 in bitmap1 && w.1 in bitmap0;
    }
    forall p | p in flat ensures p < Total(job) {
      FlatBelowMember(job, bitmap0, bitmap1, WORD, p);
      var w: Worker :| w.0 < WORD && Named(job, bitmap0, bitmap1, w, p);
      assert IsWorker(job, w);
      PositionInjective(job, w, w);
    }
  }

  /** A flat bitmap is the expected one exactly when it holds the bit of every worker. */
  lemma CompleteMeansAllWorkers(job: Job, flat: Bits)
    requires flat <= TreeOf(job).expected
    ensures flat == TreeOf(job).expected <==>
            forall w: Worker :: IsWorker(job, w) ==> Position(job, w) in flat
  {
    if flat == TreeOf(job).expected {
      forall w: Worker | IsWorker(job, w) ensures Position(job, w) in flat {
        PositionInjective(job, w, w);
      }
    }
    if forall w: Worker :: IsWorker(job, w) ==> Position(job, w) in flat {
      forall p | p in TreeOf(job).expected ensures p in flat {
        var w := WorkerAt(job.fanIns, |job.fanIns|, p);
        assert IsWorker(job, w) && Position(job, w) == p;
      }
    }
  }
}
