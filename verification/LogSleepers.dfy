/**
 * begin_op, log_write and end_op (kernel/log.c) over sleep and wakeup, as a
 * system of lock-level steps.  Any number of processes run operations; those
 * for which there is no room sleep on &log.  What each body does to the log is
 * a step of LogAdmission, with the process number as the operation.
 */
module LogSleepers {
  import opened CrashLog
  import opened Options
  import A = LogAdmission

  /** Where a process is heading when it releases log.lock. */
  datatype Goal = ToOp | ToOut | ToCommit

  datatype Stage =
    | Away                     // outside any operation
    | Starts                   // in begin_op, spinning for log.lock
    | Tests                    // has it, at the tests of the loop
    | Refused                  // found no room: calls sleep
    | Locks                    // in sleep: has p->lock and log.lock
    | Parks                    // has p->lock, gave up log.lock
    | Sleeps                   // SLEEPING, p->chan is &log
    | Wakes                    // made runnable, wants log.lock again
    | Runs                     // in its operation, outside log.c
    | Wants(n: Option<nat>)    // log_write of block n, or end_op for None: spinning for log.lock
    | Has(n: Option<nat>)      // has it, before the body
    | Scans(next: nat)         // in wakeup(&log), at process number next, with log.lock
    | Commits                  // in commit(), without log.lock
    | Reopens                  // after commit(), spinning for log.lock
    | Clears                   // has it, before log.committing = 0
    | Leaves(to: Goal)         // about to release log.lock

  datatype State = State(a: A.State, lock: Option<nat>, stages: seq<Stage>)

  predicate HasLock(st: Stage) {
    st.Tests? || st.Refused? || st.Locks? || st.Has? || st.Scans? || st.Clears? || st.Leaves?
  }

  predicate InOp(st: Stage) {
    st.Runs? || st.Wants? || st.Has? || st == Leaves(ToOp)
  }

  predicate InCommit(st: Stage) {
    st == Leaves(ToCommit) || st.Commits? || st.Reopens? || st.Clears?
  }

  /** Asleep on &log, or past the point where only a wakeup can stop it from going to sleep. */
  predicate Asleep(st: Stage) {
    st.Parks? || st.Sleeps?
  }

  // ---- Steps ----

  /** Runs of code between two lock operations; `p` acts, except that Kill(p) is done to p. */
  datatype Step =
    | Start(p: nat)
    | Invoke(p: nat, n: Option<nat>)
    | Acquire(p: nat)          // of log.lock
    | Body(p: nat)             // the code under log.lock
    | LockSelf(p: nat)         // sleep: acquire p->lock
    | Release(p: nat)          // of log.lock, in sleep or when leaving
    | Park(p: nat)             // sleep: state = SLEEPING, and sched gives up p->lock
    | Scan(p: nat)             // wakeup: one process
    | Finish(p: nat)           // commit() returns
    | Kill(p: nat)             // kill makes a sleeper runnable

  /** The admission step of a body, if it takes one. */
  function Admission(s: State, p: nat): Option<A.Step>
    requires p < |s.stages|
  {
    match s.stages[p]
    case Tests => if A.Room(s.a) then Some(A.Begin(p)) else None
    case Has(None) => Some(A.End(p))
    case Has(Some(n)) => Some(A.Write(p, n))
    case Clears => Some(A.CommitDone)
    case _ => None
  }

  /** A log_write over budget or into a full log is not a step: it panics, or breaks what operations promise. */
  predicate Enabled(size: int, s: State, step: Step) {
    && step.p < |s.stages|
    && var p := step.p;
    var st := s.stages[p];
    match step
    case Start(_) => st.Away?
    case Invoke(_, _) => st.Runs?
    case Acquire(_) => (st.Starts? || st.Wakes? || st.Wants? || st.Reopens?) && s.lock == None
    case Body(_) =>
      && (st.Tests? || st.Has? || st.Clears?)
      && (Admission(s, p).Some? ==> A.Enabled(s.a, Admission(s, p).value))
      && (st.Has? && st.n.Some? ==> !A.TooBig(size, s.a))
    case LockSelf(_) => st.Refused?
    case Release(_) => st.Locks? || st.Leaves?
    case Park(_) => st.Parks?
    case Scan(_) => st.Scans? && (st.next < |s.stages| ==> !HoldsSelf(s.stages[st.next]))
    case Finish(_) => st.Commits?
    case Kill(_) => st.Sleeps?
  }

  /** A process that holds its own p->lock, which wakeup has to wait for. */
  predicate HoldsSelf(st: Stage) {
    st.Locks? || st.Parks?
  }

  function Set(s: State, p: nat, st: Stage): State
    requires p < |s.stages|
  {
    s.(stages := s.stages[p := st])
  }

  function Acquired(st: Stage): Stage {
    match st
    case Wants(n) => Has(n)
    case Reopens => Clears
    case _ => Tests
  }

  function Released(st: Stage): Stage {
    match st
    case Leaves(ToOp) => Runs
    case Leaves(ToOut) => Away
    case Leaves(ToCommit) => Commits
    case _ => Parks
  }

  /** Where the body goes on, after its admission step led to a. */
  function Continues(st: Stage, a: A.State, admitted: bool): Stage {
    match st
    case Tests => if admitted then Leaves(ToOp) else Refused
    case Has(Some(_)) => Leaves(ToOp)
    case Has(None) => if a.ops == map[] then Leaves(ToCommit) else Scans(0)
    case _ => Scans(0)
  }

  /** One process seen by wakeup. */
  function ScanOne(s: State, p: nat): State
    requires p < |s.stages| && s.stages[p].Scans?
  {
    var i := s.stages[p].next;
    if i >= |s.stages| then Set(s, p, Leaves(ToOut))
    else
      var t := Set(s, p, Scans(i + 1));
      if s.stages[i].Sleeps? then Set(t, i, Wakes) else t
  }

  function Take(size: int, s: State, step: Step): State
    requires Enabled(size, s, step)
  {
    var p := step.p;
    var st := s.stages[p];
    match step
    case Start(_) => Set(s, p, Starts)
    case Invoke(_, n) => Set(s, p, Wants(n))
    case Acquire(_) => Set(s, p, Acquired(st)).(lock := Some(p))
    case Body(_) =>
      var step := Admission(s, p);
      var a := if step.Some? then A.Take(s.a, step.value) else s.a;
      Set(s, p, Continues(st, a, step.Some?)).(a := a)
    case LockSelf(_) => Set(s, p, Locks)
    case Release(_) => Set(s, p, Released(st)).(lock := None)
    case Park(_) => Set(s, p, Sleeps)
    case Scan(_) => ScanOne(s, p)
    case Finish(_) => Set(s, p, Reopens)
    case Kill(_) => Set(s, p, Wakes)
  }

  // ---- The invariant ----

  /** A wakeup(&log) that has not passed process p yet. */
  ghost predicate ScanAhead(s: State, p: nat) {
    exists r :: 0 <= r < |s.stages| && ScansAt(s.stages[r], p)
  }

  predicate ScansAt(st: Stage, p: nat) {
    st.Scans? && st.next <= p
  }

  ghost predicate ProcOk(s: State, p: nat)
    requires p < |s.stages|
  {
    var st := s.stages[p];
    && (HasLock(st) <==> s.lock == Some(p))
    && (InOp(st) <==> p in s.a.ops)
    && (InCommit(st) ==> s.a.committing)
    && (st.Refused? || st.Locks? ==> !A.Room(s.a))
    && (Asleep(st) && A.Room(s.a) ==> ScanAhead(s, p))
  }

  ghost predicate OneCommit(s: State) {
    && (s.a.committing ==> exists p :: 0 <= p < |s.stages| && InCommit(s.stages[p]))
    && forall p, q ::
         0 <= p < |s.stages| && 0 <= q < |s.stages| && InCommit(s.stages[p]) && InCommit(s.stages[q]) ==> p == q
  }

  ghost predicate Inv(s: State) {
    && A.Inv(s.a) && OneCommit(s)
    && (forall op :: op in s.a.ops ==> op < |s.stages|)
    && (s.lock.Some? ==> s.lock.value < |s.stages|)
    && forall p :: 0 <= p < |s.stages| ==> ProcOk(s, p)
  }

  /** While somebody has the lock outside wakeup, no wakeup is under way. */
  lemma NoScan(s: State, p: nat, q: nat)
    requires Inv(s) && p < |s.stages| && HasLock(s.stages[p]) && !s.stages[p].Scans? && q < |s.stages|
    ensures !ScanAhead(s, q)
    ensures Asleep(s.stages[q]) ==> !A.Room(s.a)
  {
    assert ProcOk(s, p) && ProcOk(s, q);
    forall r | 0 <= r < |s.stages| ensures !ScansAt(s.stages[r], q) { assert ProcOk(s, r); }
  }

  /** Steps of one process that leave the log alone. */
  lemma StageStep(s: State, t: State, p: nat)
    requires Inv(s) && p < |s.stages| == |t.stages| && t == s.(stages := s.stages[p := t.stages[p]], lock := t.lock)
    requires t.lock.Some? ==> t.lock.value < |t.stages|
    requires InCommit(t.stages[p]) <==> InCommit(s.stages[p])
    requires s.stages[p].Scans? ==> t.stages[p].Scans? || s.stages[p].next >= |s.stages|
    requires s.stages[p].Scans? && t.stages[p].Scans? ==>
      && t.stages[p].next <= s.stages[p].next + 1
      && (s.stages[p].next < |s.stages| ==> !Asleep(s.stages[s.stages[p].next]))
    requires forall q :: q != p ==> (t.lock == Some(q) <==> s.lock == Some(q))
    requires ProcOk(t, p)
    ensures Inv(t)
  {
    forall q | 0 <= q < |t.stages| && q != p ensures ProcOk(t, q) {
      assert ProcOk(s, q);
      if Asleep(s.stages[q]) && A.Room(s.a) {
        var r :| 0 <= r < |s.stages| && ScansAt(s.stages[r], q);
        assert ScansAt(t.stages[r], q);
      }
    }
    if s.a.committing {
      var c :| 0 <= c < |s.stages| && InCommit(s.stages[c]);
      assert InCommit(t.stages[c]);
    }
  }

  /** What the admission step of p does to the others' place in the log. */
  lemma OthersInLog(s: State, p: nat, a: A.Step, q: nat)
    requires Inv(s) && p < |s.stages| && Admission(s, p) == Some(a) && A.Enabled(s.a, a) && q != p
    ensures q in A.Take(s.a, a).ops <==> q in s.a.ops
    ensures !a.CommitDone? && s.a.committing ==> A.Take(s.a, a).committing
  {
  }

  /** Only the end of an operation that is not the last and the end of a commit can make room. */
  lemma NoMoreRoom(s: A.State, a: A.Step)
    requires A.Enabled(s, a) && !A.Room(s) && !a.CommitDone? && (a.End? ==> A.Take(s, a).committing)
    ensures !A.Room(A.Take(s, a))
  {
    match a
    case Write(op, n) =>
      var ops := s.ops[op := s.ops[op] + 1];
      assert ops.Keys == s.ops.Keys && |ops| == |ops.Keys|;
    case _ =>
  }

  /** A body that takes an admission step. */
  lemma AdmissionStep(size: int, s: State, p: nat)
    requires Inv(s) && Enabled(size, s, Body(p)) && Admission(s, p).Some?
    ensures Inv(Take(size, s, Body(p)))
  {
    hide A.Room, A.TooBig;
    var a := Admission(s, p).value;
    var t := Take(size, s, Body(p));
    A.StepKeepsInv(s.a, a);
    assert ProcOk(s, p);
    BodyCommit(size, s, p);
    forall q | 0 <= q < |t.stages| ensures ProcOk(t, q) {
      if q != p { BodyOthers(size, s, p, q); }
    }
  }

  lemma BodyOthers(size: int, s: State, p: nat, q: nat)
    requires Inv(s) && Enabled(size, s, Body(p)) && Admission(s, p).Some? && q < |s.stages| && q != p
    ensures ProcOk(Take(size, s, Body(p)), q)
  {
    hide A.Room, A.TooBig, A.Inv;
    var a := Admission(s, p).value;
    var t := Take(size, s, Body(p));
    assert ProcOk(s, p) && ProcOk(s, q);
    OthersInLog(s, p, a, q);
    NoScan(s, p, q);
    if t.stages[p] == Scans(0) {
      assert ScansAt(t.stages[p], q);
    } else if !A.Room(s.a) {
      NoMoreRoom(s.a, a);
    }
  }

  lemma BodyCommit(size: int, s: State, p: nat)
    requires Inv(s) && Enabled(size, s, Body(p)) && Admission(s, p).Some?
    ensures OneCommit(Take(size, s, Body(p)))
    ensures InCommit(Take(size, s, Body(p)).stages[p]) ==> Take(size, s, Body(p)).a.committing
  {
    hide A.Room, A.TooBig;
    var t := Take(size, s, Body(p));
    assert ProcOk(s, p);
    if s.a.committing && !s.stages[p].Clears? {
      var c :| 0 <= c < |s.stages| && InCommit(s.stages[c]);
      assert InCommit(t.stages[c]);
    }
    if t.stages[p] == Leaves(ToCommit) { assert InCommit(t.stages[p]); }
    forall q | 0 <= q < |s.stages| && InCommit(t.stages[q]) && q != p ensures InCommit(s.stages[q]) && s.a.committing {
      assert ProcOk(s, q);
    }
  }

  /** wakeup makes a sleeper runnable ... */
  lemma WakeStep(s: State, i: nat)
    requires Inv(s) && i < |s.stages| && s.stages[i].Sleeps?
    ensures Inv(Set(s, i, Wakes))
  {
    hide A.Room, A.Inv;
    assert ProcOk(s, i);
    StageStep(s, Set(s, i, Wakes), i);
  }

  /** ... and goes past a process that does not sleep. */
  lemma PassStep(s: State, p: nat)
    requires Inv(s) && p < |s.stages| && s.stages[p].Scans?
    requires s.stages[p].next < |s.stages| && !Asleep(s.stages[s.stages[p].next])
    ensures Inv(Set(s, p, Scans(s.stages[p].next + 1)))
  {
    hide A.Room, A.Inv;
    assert ProcOk(s, p);
    StageStep(s, Set(s, p, Scans(s.stages[p].next + 1)), p);
  }

  lemma ScanStep(size: int, s: State, p: nat)
    requires Inv(s) && Enabled(size, s, Scan(p))
    ensures Inv(Take(size, s, Scan(p)))
  {
    hide A.Room, A.Inv, Inv;
    var t := Take(size, s, Scan(p));
    var i := s.stages[p].next;
    if i >= |s.stages| {
      DoneStep(s, p);
    } else if s.stages[i].Sleeps? {
      WakeStep(s, i);
      PassStep(Set(s, i, Wakes), p);
      assert t.stages == s.stages[i := Wakes][p := Scans(i + 1)];
    } else {
      PassStep(s, p);
    }
  }

  lemma DoneStep(s: State, p: nat)
    requires Inv(s) && p < |s.stages| && s.stages[p].Scans? && s.stages[p].next >= |s.stages|
    ensures Inv(Set(s, p, Leaves(ToOut)))
  {
    hide A.Room, A.Inv;
    assert ProcOk(s, p);
    StageStep(s, Set(s, p, Leaves(ToOut)), p);
  }

  /** wakeup ends: each of its steps goes one process on, and behind the last it leaves. */
  lemma ScanAdvances(size: int, s: State, p: nat)
    requires Enabled(size, s, Scan(p))
    ensures var i := s.stages[p].next; var st := Take(size, s, Scan(p)).stages[p];
      if i < |s.stages| then st == Scans(i + 1) else st == Leaves(ToOut)
  {
  }

  /** Giving up log.lock, in sleep with no room or when leaving. */
  lemma ReleaseStep(size: int, s: State, p: nat)
    requires Inv(s) && Enabled(size, s, Release(p))
    ensures Inv(Take(size, s, Release(p)))
  {
    hide A.Room, A.Inv;
    assert ProcOk(s, p);
    StageStep(s, Take(size, s, Release(p)), p);
  }

  lemma ParkStep(size: int, s: State, p: nat)
    requires Inv(s) && Enabled(size, s, Park(p))
    ensures Inv(Take(size, s, Park(p)))
  {
    hide A.Room, A.Inv;
    var t := Take(size, s, Park(p));
    assert ProcOk(s, p);
    if A.Room(s.a) {
      var r :| 0 <= r < |s.stages| && ScansAt(s.stages[r], p);
      assert ScansAt(t.stages[r], p);
    }
    StageStep(s, t, p);
  }

  /** Steps that do not go to sleep. */
  lemma LocalStep(size: int, s: State, step: Step)
    requires Inv(s) && Enabled(size, s, step) && (step.Body? ==> Admission(s, step.p).None?)
    requires !step.Scan? && !step.Release? && !step.Park?
    ensures Inv(Take(size, s, step))
  {
    hide A.Room, A.Inv, A.TooBig;
    assert ProcOk(s, step.p);
    StageStep(s, Take(size, s, step), step.p);
  }

  lemma StepKeepsInv(size: int, s: State, step: Step)
    requires Inv(s) && Enabled(size, s, step)
    ensures Inv(Take(size, s, step))
  {
    hide Inv, Take, A.Room;
    if step.Scan? {
      ScanStep(size, s, step.p);
    } else if step.Release? {
      ReleaseStep(size, s, step.p);
    } else if step.Park? {
      ParkStep(size, s, step.p);
    } else if step.Body? && Admission(s, step.p).Some? {
      AdmissionStep(size, s, step.p);
    } else {
      LocalStep(size, s, step);
    }
  }

  // ---- Whole runs ----

  predicate Boot(s: State) {
    s.a == A.State([], map[], false) && s.lock == None && forall p :: 0 <= p < |s.stages| ==> s.stages[p] == Away
  }

  predicate Goes(size: int, s: State, steps: seq<Step>, t: State)
    decreases |steps|
  {
    if steps == [] then t == s
    else Enabled(size, s, steps[0]) && Goes(size, Take(size, s, steps[0]), steps[1..], t)
  }

  lemma BootInv(s: State)
    requires Boot(s)
    ensures Inv(s)
  {
  }

  /** The admission steps in a run. */
  lemma {:induction false} RunIsAdmitted(size: int, s: State, steps: seq<Step>, t: State, run: seq<A.Step>)
    returns (run': seq<A.Step>)
    requires Inv(s) && Goes(size, s, steps, t) && A.Reachable(size, run, s.a)
    ensures Inv(t) && A.Reachable(size, run', t.a)
    decreases |steps|
  {
    hide Inv, A.Enabled, A.Take, A.TooBig, A.Reachable;
    if steps == [] { return run; }
    var u := Take(size, s, steps[0]);
    StepKeepsInv(size, s, steps[0]);
    var p := steps[0].p;
    run' := run;
    if steps[0].Body? && Admission(s, p).Some? {
      A.ReachableMore(size, run, s.a, Admission(s, p).value);
      run' := run + [Admission(s, p).value];
    }
    run' := RunIsAdmitted(size, u, steps[1..], t, run');
  }

  /**
   * In every state of every run: no operation is asleep, or about to be, while
   * the log has room for it and no wakeup is on its way to it; and the log is in
   * a state that the admission protocol reaches.
   */
  lemma NoLostAdmission(size: int, s: State, steps: seq<Step>, t: State, p: nat) returns (run: seq<A.Step>)
    requires Boot(s) && Goes(size, s, steps, t) && p < |t.stages|
    ensures A.Reachable(size, run, t.a)
    ensures Asleep(t.stages[p]) && A.Room(t.a) ==> ScanAhead(t, p)
  {
    BootInv(s);
    run := RunIsAdmitted(size, s, steps, t, []);
    assert ProcOk(t, p);
  }

  /** Somebody is in an operation, in a commit or in a wakeup. */
  predicate Busy(st: Stage) {
    InOp(st) || InCommit(st) || st.Scans?
  }

  /** A sleeper waits for somebody who will wake it. */
  lemma SleeperWaitsForSomebody(s: State, p: nat) returns (q: nat)
    requires Inv(s) && p < |s.stages| && Asleep(s.stages[p])
    ensures q < |s.stages| && Busy(s.stages[q])
  {
    assert ProcOk(s, p);
    if A.Room(s.a) {
      q :| 0 <= q < |s.stages| && ScansAt(s.stages[q], p);
    } else if s.a.committing {
      q :| 0 <= q < |s.stages| && InCommit(s.stages[q]);
    } else {
      assert |s.a.ops| == 0 ==> s.a.ops == map[];
      q :| q in s.a.ops;
      assert ProcOk(s, q);
    }
  }

  /** At a log_write that panics or breaks its budget. */
  predicate Overruns(size: int, s: State, p: nat) {
    p < |s.stages| && s.stages[p].Has? && s.stages[p].n.Some? && !Enabled(size, s, Body(p))
  }

  /** The process can go on by itself, or it waits for p->lock of one that can. */
  lemma LockHolderMoves(size: int, s: State, r: nat) returns (step: Step)
    requires Inv(s) && r < |s.stages| && HasLock(s.stages[r])
    ensures Overruns(size, s, r) || (Enabled(size, s, step) && !step.Kill? && !step.Start?)
  {
    hide A.Room, A.Inv, OneCommit;
    assert ProcOk(s, r);
    match s.stages[r] {
      case Refused => step := LockSelf(r);
      case Locks => step := Release(r);
      case Leaves(_) => step := Release(r);
      case Scans(i) =>
        step := Scan(r);
        if i < |s.stages| && HoldsSelf(s.stages[i]) {
          assert ProcOk(s, i);
          step := Park(i);
        }
      case _ => step := Body(r);
    }
  }

  /** So can a process at work while nobody has log.lock. */
  lemma BusyMoves(size: int, s: State, q: nat) returns (step: Step)
    requires Inv(s) && s.lock == None && q < |s.stages| && Busy(s.stages[q])
    ensures Enabled(size, s, step) && !step.Kill? && !step.Start?
  {
    hide A.Inv, A.Room, OneCommit;
    assert ProcOk(s, q);
    match s.stages[q] {
      case Runs => step := Invoke(q, None);
      case Commits => step := Finish(q);
      case _ => step := Acquire(q);
    }
  }

  /**
   * No deadlock: in every state of every run in which somebody sleeps on &log,
   * some process can take a step of its own, unless one is at a log_write that
   * panics or breaks its budget.
   */
  lemma NoDeadlock(size: int, s: State, steps: seq<Step>, t: State, p: nat) returns (step: Step)
    requires Boot(s) && Goes(size, s, steps, t) && p < |t.stages| && Asleep(t.stages[p])
    ensures (Enabled(size, t, step) && !step.Kill? && !step.Start?) || exists r :: Overruns(size, t, r)
  {
    hide Inv, Goes, Enabled;
    BootInv(s);
    var run := RunIsAdmitted(size, s, steps, t, []);
    var q := SleeperWaitsForSomebody(t, p);
    if t.lock.Some? {
      LockHolder(t);
      step := LockHolderMoves(size, t, t.lock.value);
    } else {
      step := BusyMoves(size, t, q);
    }
  }

  lemma LockHolder(s: State)
    requires Inv(s) && s.lock.Some?
    ensures s.lock.value < |s.stages| && HasLock(s.stages[s.lock.value])
  {
    assert ProcOk(s, s.lock.value);
  }
}
