/**
 * Group commit in kernel/log.c as a step system: any number of operations
 * begin, write and end in any interleaving, each adding at most MAXOPBLOCKS
 * blocks to the log and writing blocks that are already in it at will.
 */
module LogAdmission {
  import opened CrashLog

  /** log.lh.block, log.outstanding (as the operations with the blocks each has added) and log.committing. */
  datatype State = State(blocks: seq<nat>, ops: map<nat, nat>, committing: bool)

  datatype Step =
    | Begin(op: nat)
    | Write(op: nat, n: nat)
    | End(op: nat)
    | CommitDone

  /** The "too big a transaction" panic of log_write, for a log of `size` blocks. */
  predicate TooBig(size: int, s: State) {
    |s.blocks| >= LOGSIZE || |s.blocks| >= size - 1
  }

  /** What begin_op tests: no commit runs, and one more budget fits. */
  predicate Room(s: State) {
    !s.committing && |s.blocks| + (|s.ops| + 1) * MAXOPBLOCKS <= LOGSIZE
  }

  /** What begin_op, log_write, end_op and the end of a commit wait for; an operation keeps to its budget. */
  predicate Enabled(s: State, step: Step) {
    match step
    case Begin(op) => op !in s.ops && Room(s)
    case Write(op, n) => op in s.ops && (s.ops[op] < MAXOPBLOCKS || n in s.blocks)
    case End(op) => op in s.ops
    case CommitDone => s.committing
  }

  function Take(s: State, step: Step): State
    requires Enabled(s, step)
  {
    match step
    case Begin(op) => s.(ops := s.ops[op := 0])
    case Write(op, n) =>
      if n in s.blocks then s else s.(blocks := s.blocks + [n], ops := s.ops[op := s.ops[op] + 1])
    case End(op) => s.(ops := s.ops - {op}, committing := s.committing || s.ops - {op} == map[])
    case CommitDone => s.(blocks := [], committing := false)
  }

  /** A run from the empty log in which no log_write panics. */
  ghost predicate Reachable(size: int, run: seq<Step>, s: State)
    decreases |run|
  {
    if run == [] then s == State([], map[], false)
    else
      exists p :: Goes(size, p, Last(run), s) && Reachable(size, ButLast(run), p)
  }

  function Last(run: seq<Step>): Step
    requires run != []
  {
    run[|run| - 1]
  }

  function ButLast(run: seq<Step>): seq<Step>
    requires run != []
  {
    run[..|run| - 1]
  }

  predicate Goes(size: int, p: State, step: Step, s: State) {
    Enabled(p, step) && (step.Write? ==> !TooBig(size, p)) && s == Take(p, step)
  }

  /** The blocks that the running operations may still add. */
  ghost function Unspent(ops: map<nat, nat>): int {
    if ops == map[] then 0
    else var op :| op in ops; MAXOPBLOCKS - ops[op] + Unspent(ops - {op})
  }

  lemma {:induction false} UnspentOf(ops: map<nat, nat>, op: nat)
    requires op in ops
    ensures Unspent(ops) == MAXOPBLOCKS - ops[op] + Unspent(ops - {op})
    decreases |ops|
  {
    var o :| o in ops && Unspent(ops) == MAXOPBLOCKS - ops[o] + Unspent(ops - {o});
    if o != op {
      UnspentOf(ops - {o}, op);
      UnspentOf(ops - {op}, o);
      assert ops - {o} - {op} == ops - {op} - {o};
    }
  }

  lemma {:induction false} UnspentBound(ops: map<nat, nat>)
    requires forall op :: op in ops ==> ops[op] <= MAXOPBLOCKS
    ensures 0 <= Unspent(ops) <= |ops| * MAXOPBLOCKS
    decreases |ops|
  {
    if ops != map[] {
      var op :| op in ops;
      UnspentOf(ops, op);
      UnspentBound(ops - {op});
      assert |ops - {op}| == |ops| - 1 by { assert (ops - {op}).Keys == ops.Keys - {op}; }
    }
  }

  ghost predicate Inv(s: State) {
    && (forall op :: op in s.ops ==> s.ops[op] <= MAXOPBLOCKS)
    && |s.blocks| + Unspent(s.ops) <= LOGSIZE
    && (s.committing ==> s.ops == map[])
    && (s.ops == map[] && !s.committing ==> s.blocks == [])
    && (forall i, j :: 0 <= i < j < |s.blocks| ==> s.blocks[i] != s.blocks[j])
  }

  lemma StepKeepsInv(s: State, step: Step)
    requires Inv(s) && Enabled(s, step)
    ensures Inv(Take(s, step))
  {
    var s' := Take(s, step);
    match step
    case Begin(op) =>
      UnspentBound(s.ops);
      UnspentOf(s'.ops, op);
      assert s'.ops - {op} == s.ops;
    case Write(op, n) =>
      if n !in s.blocks {
        UnspentOf(s.ops, op);
        UnspentOf(s'.ops, op);
        assert s'.ops - {op} == s.ops - {op};
      }
    case End(op) =>
      UnspentOf(s.ops, op);
    case CommitDone =>
      UnspentBound(s.ops);
  }

  /**
   * In every reachable state the logged blocks and all unspent budgets fit the
   * log, no operation runs during a commit (so the block list is frozen), no
   * block is logged twice, and none is logged while nobody runs or commits.
   */
  lemma {:induction false} AdmissionIsSafe(size: int, run: seq<Step>, s: State)
    requires Reachable(size, run, s)
    ensures Inv(s)
    ensures s.committing ==> forall step :: Enabled(s, step) ==> step == CommitDone
    decreases |run|
  {
    if run != [] {
      var p :| Goes(size, p, Last(run), s) && Reachable(size, ButLast(run), p);
      AdmissionIsSafe(size, ButLast(run), p);
      StepKeepsInv(p, Last(run));
    }
  }

  /** A run goes on. */
  lemma ReachableMore(size: int, run: seq<Step>, p: State, step: Step)
    requires Reachable(size, run, p) && Enabled(p, step) && (step.Write? ==> !TooBig(size, p))
    ensures Reachable(size, run + [step], Take(p, step))
  {
    assert ButLast(run + [step]) == run;
    assert Goes(size, p, Last(run + [step]), Take(p, step));
  }

  /** An operation with budget left never meets the panic in a log that is large enough. */
  lemma WithinBudget(size: int, run: seq<Step>, s: State, op: nat)
    requires Reachable(size, run, s) && op in s.ops && s.ops[op] < MAXOPBLOCKS && size - 1 >= LOGSIZE
    ensures !TooBig(size, s)
  {
    AdmissionIsSafe(size, run, s);
    UnspentOf(s.ops, op);
    UnspentBound(s.ops - {op});
  }

  /** The "too big a transaction" panic can happen to an operation that has not used up its budget. */
  ghost predicate PanicReachable(size: int) {
    exists run, s, op :: Reachable(size, run, s) && op in s.ops && s.ops[op] < MAXOPBLOCKS && TooBig(size, s)
  }

  /** Three operations that write blocks 0, 1, 2, ... one after the other, after k writes. */
  function Filling(k: nat): State
    requires k <= LOGSIZE
  {
    State(seq(k, i => i), map[0 := Spent(k, 0), 1 := Spent(k, 1), 2 := Spent(k, 2)], false)
  }

  function Spent(k: nat, op: nat): nat {
    if k <= op * MAXOPBLOCKS then 0
    else if k >= (op + 1) * MAXOPBLOCKS then MAXOPBLOCKS
    else k - op * MAXOPBLOCKS
  }

  lemma FillingStep(k: nat)
    requires 1 <= k <= LOGSIZE
    ensures var step := Write((k - 1) / MAXOPBLOCKS, k - 1);
            Enabled(Filling(k - 1), step) && Take(Filling(k - 1), step) == Filling(k)
  {
    var op := (k - 1) / MAXOPBLOCKS;
    assert op == 0 || op == 1 || op == 2;
    assert Filling(k).blocks == Filling(k - 1).blocks + [k - 1];
    assert Filling(k - 1).ops[op := Filling(k - 1).ops[op] + 1] == Filling(k).ops;
  }

  lemma {:induction false} FillingReachable(size: int, k: nat) returns (run: seq<Step>)
    requires k <= LOGSIZE && k <= size - 1
    ensures Reachable(size, run, Filling(k))
  {
    if k == 0 {
      var s1, s2 := State([], map[0 := 0], false), State([], map[0 := 0, 1 := 0], false);
      ReachableMore(size, [], State([], map[], false), Begin(0));
      ReachableMore(size, [] + [Begin(0)], s1, Begin(1));
      ReachableMore(size, [] + [Begin(0)] + [Begin(1)], s2, Begin(2));
      run := [] + [Begin(0)] + [Begin(1)] + [Begin(2)];
      assert Take(s2, Begin(2)) == Filling(0);
    } else {
      run := FillingReachable(size, k - 1);
      FillingStep(k);
      ReachableMore(size, run, Filling(k - 1), Write((k - 1) / MAXOPBLOCKS, k - 1));
      run := run + [Write((k - 1) / MAXOPBLOCKS, k - 1)];
    }
  }

  /**
   * Exactly in the logs with room for LOGSIZE blocks beside the header are all
   * operations with budget left safe from the panic.  (A log of LOGSIZE blocks
   * in all, as mkfs makes it, is not one of them.)
   */
  lemma PanicExactlyWhenLogTooSmall(size: int)
    requires size >= 1
    ensures PanicReachable(size) <==> size - 1 < LOGSIZE
  {
    if size - 1 < LOGSIZE {
      var run := FillingReachable(size, size - 1);
      var op := (size - 1) / MAXOPBLOCKS;
      assert op in Filling(size - 1).ops && Filling(size - 1).ops[op] < MAXOPBLOCKS;
      assert TooBig(size, Filling(size - 1));
    } else {
      forall run, s, op | Reachable(size, run, s) && op in s.ops && s.ops[op] < MAXOPBLOCKS
        ensures !TooBig(size, s)
      {
        WithinBudget(size, run, s, op);
      }
    }
  }

  /**
   * The test for room comes before the search for the block.  So even in a log
   * that is large enough writing a block again panics, exactly when the log is
   * full; then every running operation has used up its budget.
   */
  lemma RewritePanicsExactlyInFullLog(size: int, run: seq<Step>, s: State, op: nat, n: nat)
    requires size - 1 >= LOGSIZE && Reachable(size, run, s) && Enabled(s, Write(op, n))
    ensures TooBig(size, s) <==> |s.blocks| == LOGSIZE
    ensures TooBig(size, s) ==> n in s.blocks && forall o :: o in s.ops ==> s.ops[o] == MAXOPBLOCKS
  {
    AdmissionIsSafe(size, run, s);
    UnspentBound(s.ops);
    if o :| o in s.ops && s.ops[o] < MAXOPBLOCKS { WithinBudget(size, run, s, o); }
  }

  /** Such a full log is reached. */
  lemma RewriteCanPanic(size: int) returns (run: seq<Step>, s: State)
    requires size - 1 >= LOGSIZE
    ensures Reachable(size, run, s) && 0 in s.blocks && Enabled(s, Write(0, 0)) && TooBig(size, s)
  {
    run := FillingReachable(size, LOGSIZE);
    s := Filling(LOGSIZE);
    assert s.blocks[0] == 0;
  }

  /** In a larger log the three operations of that state can end, and then LOGSIZE blocks are committed at once. */
  lemma FullGroupCommits(size: int) returns (run: seq<Step>, s: State)
    requires size - 1 >= LOGSIZE
    ensures Reachable(size, run, s) && s.committing && |s.blocks| == LOGSIZE
  {
    run := FillingReachable(size, LOGSIZE);
    var s0 := Filling(LOGSIZE);
    ReachableMore(size, run, s0, End(0));
    var s1 := Take(s0, End(0));
    ReachableMore(size, run + [End(0)], s1, End(1));
    var s2 := Take(s1, End(1));
    ReachableMore(size, run + [End(0)] + [End(1)], s2, End(2));
    s := Take(s2, End(2));
    assert s2.ops - {2} == map[];
    run := run + [End(0)] + [End(1)] + [End(2)];
  }

  lemma {:induction false} BlocksFit(size: int, run: seq<Step>, s: State)
    requires Reachable(size, run, s)
    ensures s.blocks == [] || |s.blocks| <= size - 1
    decreases |run|
  {
    if run != [] {
      var p :| Goes(size, p, Last(run), s) && Reachable(size, ButLast(run), p);
      BlocksFit(size, ButLast(run), p);
    }
  }

  ghost predicate CommitsFull(size: int, run: seq<Step>, s: State) {
    Reachable(size, run, s) && s.committing && |s.blocks| == LOGSIZE
  }

  /** LOGSIZE blocks can come to one commit if and only if the log has that many beside its header. */
  lemma FullGroupExactly(size: int)
    ensures (exists run, s :: CommitsFull(size, run, s)) <==> size - 1 >= LOGSIZE
  {
    if size - 1 >= LOGSIZE {
      var run, s := FullGroupCommits(size);
      assert CommitsFull(size, run, s);
    } else {
      forall run, s | CommitsFull(size, run, s) ensures false { BlocksFit(size, run, s); }
    }
  }
}
