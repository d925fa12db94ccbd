/**
 * fork, exit and wait (kernel/proc.c) as a system of lock-level steps over the
 * process table.  What runs under one p->lock alone, or under a stretch of
 * wait_lock that takes no other lock, is one step.
 */
module ProcessLife {
  import opened Options

  datatype Status = Unused | Used | Sleeping | Runnable | Running | Zombie

  /** Where a process is in these calls. */
  datatype Stage =
    | User                            // elsewhere
    | ForkParent(np: nat)             // fork: has a child in the table, wants wait_lock to become its parent
    | ForkRun(np: nat)                // fork: is its parent, will make it runnable
    | ExitStart                       // exit: wants wait_lock
    | Reparent(i: nat)                // exit: has wait_lock, at entry i of reparent
    | ReparentWake(i: nat, j: nat)    // exit: gave entry i to init, in wakeup(initproc) at entry j
    | ExitWake(j: nat)                // exit: in wakeup(p->parent) at entry j
    | ExitLast                        // exit: a zombie that still runs, holding only p->lock
    | Gone                            // off the CPU for good
    | WaitStart                       // wait: wants wait_lock
    | WaitScan(i: nat, kids: bool)    // wait: has wait_lock, at entry i
    | WaitLock                        // wait: in sleep with wait_lock and p->lock
    | WaitPark                        // wait: in sleep with p->lock only
    | WaitSleep                       // wait: asleep on its own entry, or woken and about to retake wait_lock

  datatype Proc = Proc(status: Status, pid: int, parent: Option<nat>, killed: bool, xstate: int, stage: Stage)

  /** `reaped` and `exits` are history: what wait returned, and with what status each pid exited. */
  datatype State = State(
    init: nat, procs: seq<Proc>, waitLock: Option<nat>, nextPid: int,
    reaped: seq<(int, int)>, exits: map<int, int>)

  predicate HasWaitLock(st: Stage) {
    st.Reparent? || st.ReparentWake? || st.ExitWake? || st.WaitScan? || st.WaitLock?
  }

  /** Holds its own p->lock. */
  predicate HasOwnLock(st: Stage) {
    st.ExitLast? || st.WaitLock? || st.WaitPark?
  }

  predicate Alive(x: Proc) {
    x.status in {Sleeping, Runnable, Running}
  }

  predicate Started(x: Proc) {
    Alive(x) || x.status == Zombie
  }

  /** Asleep in wait, or past the point where it can notice a child on its own. */
  predicate Dozes(x: Proc) {
    x.stage.WaitLock? || x.stage.WaitPark? || (x.stage.WaitSleep? && x.status == Sleeping)
  }

  // ---- The invariant ----

  predicate StageFits(x: Proc) {
    match x.stage
    case User => x.status != Zombie
    case ForkParent(_) => x.status in {Runnable, Running}
    case ForkRun(_) => x.status in {Runnable, Running}
    case ExitStart => x.status in {Runnable, Running}
    case WaitStart => x.status in {Runnable, Running}
    case WaitSleep => Alive(x)
    case ExitLast => x.status == Zombie
    case Gone => x.status == Zombie
    case _ => x.status == Running
  }

  predicate ForkFits(s: State, p: nat)
    requires p < |s.procs|
  {
    var st := s.procs[p].stage;
    && (st.ForkParent? ==> st.np < |s.procs| && s.procs[st.np].status == Used && s.procs[st.np].parent == None)
    && (st.ForkRun? ==> st.np < |s.procs| && s.procs[st.np].status == Used && s.procs[st.np].parent == Some(p))
  }

  /** Every started process but init has a live parent; an entry not started has none but its forker. */
  predicate ParentFits(s: State, c: nat)
    requires c < |s.procs|
  {
    var x := s.procs[c];
    && (Started(x) && c != s.init ==> x.parent.Some?)
    && (x.status == Unused ==> x.parent == None)
    && (x.parent.Some? ==> x.parent.value < |s.procs| && Alive(s.procs[x.parent.value]))
    && (c == s.init ==> x.parent == None && Alive(x) && !Exiting(x.stage))
  }

  predicate Exiting(st: Stage) {
    st.ExitStart? || st.Reparent? || st.ReparentWake? || st.ExitWake? || st.ExitLast? || st.Gone?
  }

  predicate PidFits(s: State, c: nat)
    requires c < |s.procs|
  {
    var x := s.procs[c];
    && (x.status != Unused ==> 0 < x.pid < s.nextPid)
    && (x.status == Zombie ==> x.pid in s.exits && s.exits[x.pid] == x.xstate)
    && (x.status != Unused && x.status != Zombie ==> x.pid !in s.exits)
  }

  ghost predicate One(s: State, p: nat)
    requires p < |s.procs|
  {
    && StageFits(s.procs[p]) && ForkFits(s, p) && ParentFits(s, p) && PidFits(s, p)
    && (HasWaitLock(s.procs[p].stage) ==> s.waitLock == Some(p))
  }

  /** A child of p that p has already passed on to init, or need not look for any more. */
  predicate Passed(st: Stage, c: nat) {
    match st
    case Reparent(i) => c < i
    case ReparentWake(i, _) => c <= i
    case ExitWake(_) => true
    case ExitLast => true
    case Gone => true
    case _ => false
  }

  /** wakeup(initproc) is on its way and has not passed p. */
  predicate InitWaking(s: State, p: nat) {
    && s.waitLock.Some? && s.waitLock.value < |s.procs| && s.procs[s.waitLock.value].stage.ReparentWake?
    && p == s.init && s.procs[s.waitLock.value].stage.j <= p
  }

  /** p dozes over no zombie child c, except while a wakeup of it is pending. */
  predicate NoMissed(s: State, p: nat, c: nat)
    requires p < |s.procs| && c < |s.procs|
  {
    s.procs[c].parent == Some(p) && s.procs[c].status == Zombie ==>
      && (Dozes(s.procs[p]) ==> InitWaking(s, p))
      && (s.procs[p].stage.WaitScan? ==> s.procs[p].stage.i <= c)
  }

  /** The exiting child c has woken p already. */
  predicate Woke(s: State, p: nat, c: nat)
    requires p < |s.procs| && c < |s.procs|
  {
    s.procs[c].parent == Some(p) && s.procs[c].stage.ExitWake? && s.procs[c].stage.j > p ==> !Dozes(s.procs[p])
  }

  predicate InFork(st: Stage) {
    st.ForkParent? || st.ForkRun?
  }

  predicate Forks(st: Stage, np: nat) {
    InFork(st) && st.np == np
  }

  predicate Two(s: State, p: nat, c: nat)
    requires p < |s.procs| && c < |s.procs|
  {
    && (s.procs[c].parent == Some(p) ==> !Passed(s.procs[p].stage, c))
    && NoMissed(s, p, c)
    && Woke(s, p, c)
  }

  /** Entries in use have different pids, and different forks different children. */
  predicate Apart(s: State, p: nat, c: nat)
    requires p < |s.procs| && c < |s.procs|
  {
    p != c ==>
      && (s.procs[p].status != Unused && s.procs[c].status != Unused ==> s.procs[p].pid != s.procs[c].pid)
      && (InFork(s.procs[p].stage) ==> !Forks(s.procs[c].stage, s.procs[p].stage.np))
  }

  /** Each exited child is in `reaped` at most once, with the status it exited with. */
  ghost predicate ReapedOnce(s: State) {
    && (forall k :: 0 <= k < |s.reaped| ==> ReapFits(s, s.reaped[k]))
    && (forall k, l :: 0 <= k < l < |s.reaped| ==> s.reaped[k].0 != s.reaped[l].0)
    && (forall k, c :: 0 <= k < |s.reaped| && 0 <= c < |s.procs| && s.procs[c].status != Unused ==>
          s.reaped[k].0 != s.procs[c].pid)
  }

  predicate ReapFits(s: State, r: (int, int)) {
    r.0 < s.nextPid && r.0 in s.exits && s.exits[r.0] == r.1
  }

  ghost predicate Inv(s: State) {
    && s.init < |s.procs| && s.nextPid > 0
    && (forall e :: e in s.exits ==> e < s.nextPid)
    && (forall p :: 0 <= p < |s.procs| ==> One(s, p))
    && (forall p, c :: 0 <= p < |s.procs| && 0 <= c < |s.procs| ==> Two(s, p, c))
    && (forall p, c :: 0 <= p < |s.procs| && 0 <= c < |s.procs| ==> Apart(s, p, c))
    && ReapedOnce(s)
  }

  // ---- Steps ----

  datatype Step =
    | Fork(p: nat, np: nat)           // allocproc finds entry np and the copies succeed; p still runs
    | ForkFail(p: nat, np: nat)       // allocproc takes entry np and a pid, memory runs out, freeproc gives it back
    | SetParent(p: nat)
    | MakeRunnable(p: nat)
    | Exit(p: nat)
    | ExitEnter(p: nat)               // acquire(&wait_lock)
    | ReparentOne(p: nat)
    | WakeInitOne(p: nat)             // wakeup(initproc), one entry
    | WakeParentOne(p: nat)           // wakeup(p->parent), one entry
    | Die(p: nat, xstate: int)        // ZOMBIE, release(&wait_lock)
    | SwitchOff(p: nat)               // sched
    | Wait(p: nat)
    | WaitEnter(p: nat)               // acquire(&wait_lock), first or after sleep
    | Look(p: nat, copied: bool)      // one entry of wait's scan; copied: copyout of the status works
    | ScanEnd(p: nat)                 // return -1, or into sleep with p->lock
    | DropWaitLock(p: nat)
    | Doze(p: nat)                    // state = SLEEPING, sched
    | Dispatch(p: nat) | Preempt(p: nat)
    | Kill(p: nat)                    // done to p
    | Nap(p: nat) | WakeOther(p: nat) // sleep on another channel, and the end of it

  function SetStage(s: State, p: nat, st: Stage): State
    requires p < |s.procs|
  {
    s.(procs := s.procs[p := s.procs[p].(stage := st)])
  }

  /** What wakeup(chan) does to entry j; only its owner sleeps on a process entry. */
  function WakeEntry(s: State, j: nat, chan: nat): State
    requires j < |s.procs|
  {
    var x := s.procs[j];
    if j == chan && x.status == Sleeping && x.stage.WaitSleep? then s.(procs := s.procs[j := x.(status := Runnable)])
    else s
  }

  predicate Enabled(s: State, step: Step) {
    && step.p < |s.procs|
    && var x := s.procs[step.p]; var n := |s.procs|;
    match step
    case Dispatch(_) => x.status == Runnable
    case Kill(_) => !HasOwnLock(x.stage)
    case WakeOther(_) => x.status == Sleeping && x.stage == User
    case SwitchOff(_) => x.stage == ExitLast
    case _ => x.status == Running && RunningEnabled(s, step)
  }

  predicate RunningEnabled(s: State, step: Step)
    requires step.p < |s.procs|
  {
    var x := s.procs[step.p];
    var n := |s.procs|;
    match step
    case Fork(_, np) => x.stage == User && np < n && s.procs[np].status == Unused
    case ForkFail(_, np) => x.stage == User && np < n && s.procs[np].status == Unused
    case SetParent(_) => x.stage.ForkParent? && x.stage.np < n && s.waitLock == None
    case MakeRunnable(_) => x.stage.ForkRun? && x.stage.np < n
    case Exit(p) => x.stage == User && p != s.init
    case ExitEnter(_) => x.stage == ExitStart && s.waitLock == None
    case ReparentOne(_) => x.stage.Reparent?
    case WakeInitOne(p) => x.stage.ReparentWake? && Free(s, p, x.stage.j)
    case WakeParentOne(p) => x.stage.ExitWake? && x.stage.j < n && x.parent.Some? && Free(s, p, x.stage.j)
    case Die(_, _) => x.stage.ExitWake? && x.stage.j >= n
    case Wait(_) => x.stage == User
    case WaitEnter(_) => (x.stage == WaitStart || x.stage == WaitSleep) && s.waitLock == None
    case Look(p, _) =>
      x.stage.WaitScan? && x.stage.i < n && (s.procs[x.stage.i].parent == Some(p) ==> Free(s, p, x.stage.i))
    case ScanEnd(_) => x.stage.WaitScan? && x.stage.i >= n
    case DropWaitLock(_) => x.stage == WaitLock
    case Doze(_) => x.stage == WaitPark
    case Preempt(_) => !HasWaitLock(x.stage) && !HasOwnLock(x.stage)
    case Nap(_) => x.stage == User
    case _ => false
  }

  /** Entry j's lock can be taken by p, or j is p itself, which wakeup skips. */
  predicate Free(s: State, p: nat, j: nat) {
    j < |s.procs| && j != p ==> !HasOwnLock(s.procs[j].stage)
  }

  /** What freeproc leaves. */
  const FREED := Proc(Unused, 0, None, false, 0, User)

  /** allocproc: an unused entry comes into use with a new pid. */
  function Allocated(s: State, np: nat): State
    requires np < |s.procs|
  {
    s.(procs := s.procs[np := s.procs[np].(status := Used, pid := s.nextPid)], nextPid := s.nextPid + 1)
  }

  /** freeproc of an entry that was never started. */
  function GivenBack(s: State, np: nat): State
    requires np < |s.procs|
  {
    s.(procs := s.procs[np := FREED])
  }

  /** fork: p becomes the parent of np. */
  function Adopted(s: State, p: nat, np: nat): State
    requires p < |s.procs| && np < |s.procs|
  {
    var t := SetStage(s, p, ForkRun(np));
    t.(procs := t.procs[np := t.procs[np].(parent := Some(p))])
  }

  /** p's child i goes to init, and p starts to wake init. */
  function HandedOver(s: State, p: nat, i: nat): State
    requires p < |s.procs| && i < |s.procs|
  {
    var t := SetStage(s, p, ReparentWake(i, 0));
    t.(procs := t.procs[i := t.procs[i].(parent := Some(s.init))])
  }

  /** wait's reaping of entry c. */
  function Reaped(s: State, c: nat): State
    requires c < |s.procs|
  {
    s.(procs := s.procs[c := FREED], reaped := s.reaped + [(s.procs[c].pid, s.procs[c].xstate)])
  }

  function LookAt(s: State, p: nat, i: nat, kids: bool, copied: bool): State
    requires p < |s.procs| && i < |s.procs|
  {
    var x := s.procs[i];
    if x.parent != Some(p) then SetStage(s, p, WaitScan(i + 1, kids))
    else if x.status != Zombie then SetStage(s, p, WaitScan(i + 1, true))
    else if !copied then SetStage(s, p, User).(waitLock := None)
    else Reaped(SetStage(s, p, User).(waitLock := None), i)
  }

  function Take(s: State, step: Step): State
    requires Enabled(s, step)
  {
    var p := step.p;
    var x := s.procs[p];
    var n := |s.procs|;
    match step
    case Fork(_, np) => SetStage(Allocated(s, np), p, ForkParent(np))
    case ForkFail(_, np) => GivenBack(Allocated(s, np), np)
    case SetParent(_) => Adopted(s, p, x.stage.np)
    case MakeRunnable(_) =>
      var t := SetStage(s, p, User);
      t.(procs := t.procs[x.stage.np := t.procs[x.stage.np].(status := Runnable)])
    case Exit(_) => SetStage(s, p, ExitStart)
    case ExitEnter(_) => SetStage(s, p, Reparent(0)).(waitLock := Some(p))
    case ReparentOne(_) =>
      var i := x.stage.i;
      if i >= n then SetStage(s, p, ExitWake(0))
      else if s.procs[i].parent != Some(p) then SetStage(s, p, Reparent(i + 1))
      else HandedOver(s, p, i)
    case WakeInitOne(_) =>
      var j := x.stage.j;
      if j >= n then SetStage(s, p, Reparent(x.stage.i + 1))
      else SetStage(WakeEntry(s, j, s.init), p, ReparentWake(x.stage.i, j + 1))
    case WakeParentOne(_) => SetStage(WakeEntry(s, x.stage.j, x.parent.value), p, ExitWake(x.stage.j + 1))
    case Die(_, xstate) =>
      s.(procs := s.procs[p := x.(status := Zombie, xstate := xstate, stage := ExitLast)], waitLock := None,
         exits := s.exits[x.pid := xstate])
    case SwitchOff(_) => SetStage(s, p, Gone)
    case Wait(_) => SetStage(s, p, WaitStart)
    case WaitEnter(_) => SetStage(s, p, WaitScan(0, false)).(waitLock := Some(p))
    case Look(_, copied) => LookAt(s, p, x.stage.i, x.stage.kids, copied)
    case ScanEnd(_) =>
      if !x.stage.kids || x.killed then SetStage(s, p, User).(waitLock := None) else SetStage(s, p, WaitLock)
    case DropWaitLock(_) => SetStage(s, p, WaitPark).(waitLock := None)
    case Doze(_) => s.(procs := s.procs[p := x.(status := Sleeping, stage := WaitSleep)])
    case Dispatch(_) => s.(procs := s.procs[p := x.(status := Running)])
    case Preempt(_) => s.(procs := s.procs[p := x.(status := Runnable)])
    case Kill(_) =>
      s.(procs := s.procs[p := x.(killed := true, status := if x.status == Sleeping then Runnable else x.status)])
    case Nap(_) => s.(procs := s.procs[p := x.(status := Sleeping)])
    case WakeOther(_) => s.(procs := s.procs[p := x.(status := Runnable)])
  }

  // ---- Steps that change one live process and perhaps take or drop wait_lock ----

  /** p changes only its stage and its kind of life; wait_lock passes between it and nobody. */
  ghost predicate SelfChange(s: State, t: State, p: nat) {
    && p < |s.procs| == |t.procs|
    && t == s.(procs := s.procs[p := t.procs[p]], waitLock := t.waitLock)
    && t.procs[p] == s.procs[p].(stage := t.procs[p].stage, status := t.procs[p].status, killed := t.procs[p].killed)
    && (t.procs[p].status == s.procs[p].status || (Alive(t.procs[p]) && Alive(s.procs[p])))
    && (t.waitLock == s.waitLock || (s.waitLock in {None, Some(p)} && t.waitLock in {None, Some(p)}))
    && (t.procs[p].stage == s.procs[p].stage || !InFork(t.procs[p].stage))
    && (s.procs[p].stage.ReparentWake? ==> t.waitLock == s.waitLock && t.procs[p].stage == s.procs[p].stage)
  }

  lemma SelfKeepsInv(s: State, t: State, p: nat)
    requires Inv(s) && SelfChange(s, t, p) && One(t, p)
    requires forall c :: 0 <= c < |s.procs| ==> Two(t, p, c) && Two(t, c, p)
    ensures Inv(t)
  {
    assert One(s, p);
    forall q | 0 <= q < |t.procs| && q != p ensures One(t, q) { assert One(s, q); }
    forall q, c | 0 <= q < |t.procs| && 0 <= c < |t.procs| ensures Apart(t, q, c) { assert Apart(s, q, c); }
    forall q, c | 0 <= q < |t.procs| && 0 <= c < |t.procs| ensures Two(t, q, c) {
      if q != p && c != p {
        assert Two(s, q, c);
        assert InitWaking(s, q) ==> InitWaking(t, q);
      }
    }
  }

  /** The scheduler, kill and other sleeps: a life goes on at the same stage. */
  lemma StatusStep(s: State, t: State, p: nat)
    requires Inv(s) && SelfChange(s, t, p) && t.waitLock == s.waitLock
    requires t.procs[p].stage == s.procs[p].stage && StageFits(t.procs[p])
    requires Dozes(t.procs[p]) ==> Dozes(s.procs[p])
    ensures Inv(t)
  {
    assert One(s, p);
    forall c | 0 <= c < |s.procs| ensures Two(t, p, c) && Two(t, c, p) {
      assert Two(s, p, c) && Two(s, c, p);
    }
    SelfKeepsInv(s, t, p);
  }

  /** Stages that promise nothing about children. */
  predicate Fresh(st: Stage) {
    st.User? || st.ExitStart? || st.WaitStart? || st == Reparent(0) || (st.WaitScan? && st.i == 0)
  }

  lemma FreshStep(s: State, t: State, p: nat)
    requires Inv(s) && SelfChange(s, t, p) && t == SetStage(s, p, t.procs[p].stage).(waitLock := t.waitLock)
    requires s.procs[p].status == Running && Fresh(t.procs[p].stage)
    requires HasWaitLock(t.procs[p].stage) ==> t.waitLock == Some(p)
    requires Exiting(t.procs[p].stage) ==> p != s.init
    requires !Passed(s.procs[p].stage, |s.procs|)
    ensures Inv(t)
  {
    assert One(s, p);
    forall c | 0 <= c < |s.procs| ensures Two(t, p, c) && Two(t, c, p) {
      assert Two(s, p, c) && Two(s, c, p);
    }
    SelfKeepsInv(s, t, p);
  }

  /** A step of exit or wait to a stage that says more about the children. */
  lemma ProgressStep(s: State, t: State, p: nat)
    requires Inv(s) && SelfChange(s, t, p) && One(t, p) && !t.procs[p].stage.ReparentWake?
    requires forall c :: 0 <= c < |s.procs| ==> Two(t, p, c)
    requires t.procs[p].stage.ExitWake? ==> t.procs[p].stage.j == 0
    requires InitWaking(s, s.init) ==> s.waitLock != Some(p)
    ensures Inv(t)
  {
    forall c | 0 <= c < |s.procs| ensures Two(t, c, p) {
      assert Two(s, c, p) && One(s, p);
    }
    SelfKeepsInv(s, t, p);
  }

  /** wait moves past an entry that is not its zombie child. */
  lemma LookPast(s: State, p: nat, kids: bool)
    requires Inv(s) && p < |s.procs| && s.procs[p].stage.WaitScan? && s.procs[p].stage.i < |s.procs|
    requires var x := s.procs[s.procs[p].stage.i]; !(x.parent == Some(p) && x.status == Zombie)
    ensures Inv(SetStage(s, p, WaitScan(s.procs[p].stage.i + 1, kids)))
  {
    var t := SetStage(s, p, WaitScan(s.procs[p].stage.i + 1, kids));
    assert One(s, p);
    forall c | 0 <= c < |s.procs| ensures Two(t, p, c) { assert Two(s, p, c); }
    ProgressStep(s, t, p);
  }

  /** wait goes to sleep only after seeing, under wait_lock, that no child is a zombie. */
  lemma IntoSleep(s: State, p: nat)
    requires Inv(s) && p < |s.procs| && s.procs[p].stage.WaitScan? && s.procs[p].stage.i >= |s.procs|
    ensures Inv(SetStage(s, p, WaitLock))
  {
    var t := SetStage(s, p, WaitLock);
    assert One(s, p);
    forall c | 0 <= c < |s.procs| ensures Two(t, p, c) { assert Two(s, p, c) && One(s, c); }
    ProgressStep(s, t, p);
  }

  lemma DropStep(s: State, p: nat)
    requires Inv(s) && p < |s.procs| && s.procs[p].stage == WaitLock
    ensures Inv(SetStage(s, p, WaitPark).(waitLock := None))
  {
    var t := SetStage(s, p, WaitPark).(waitLock := None);
    assert One(s, p);
    forall c | 0 <= c < |s.procs| ensures Two(t, p, c) { assert Two(s, p, c); }
    ProgressStep(s, t, p);
  }

  lemma DozeStep(s: State, p: nat)
    requires Inv(s) && p < |s.procs| && s.procs[p].stage == WaitPark
    ensures Inv(s.(procs := s.procs[p := s.procs[p].(status := Sleeping, stage := WaitSleep)]))
  {
    var t := s.(procs := s.procs[p := s.procs[p].(status := Sleeping, stage := WaitSleep)]);
    assert One(s, p);
    forall c | 0 <= c < |s.procs| ensures Two(t, p, c) { assert Two(s, p, c); }
    ProgressStep(s, t, p);
  }

  lemma ReparentPast(s: State, p: nat)
    requires Inv(s) && p < |s.procs| && s.procs[p].stage.Reparent?
    requires var i := s.procs[p].stage.i; i < |s.procs| ==> s.procs[i].parent != Some(p)
    ensures var i := s.procs[p].stage.i; Inv(SetStage(s, p, if i >= |s.procs| then ExitWake(0) else Reparent(i + 1)))
  {
    var i := s.procs[p].stage.i;
    var t := SetStage(s, p, if i >= |s.procs| then ExitWake(0) else Reparent(i + 1));
    assert One(s, p);
    forall c | 0 <= c < |s.procs| ensures Two(t, p, c) { assert Two(s, p, c); }
    ProgressStep(s, t, p);
  }

  lemma OffStep(s: State, p: nat)
    requires Inv(s) && p < |s.procs| && s.procs[p].stage == ExitLast
    ensures Inv(SetStage(s, p, Gone))
  {
    var t := SetStage(s, p, Gone);
    assert One(s, p);
    forall c | 0 <= c < |s.procs| ensures Two(t, p, c) { assert Two(s, p, c); }
    ProgressStep(s, t, p);
  }

  // ---- The wakeups of exit ----

  lemma WakeEntryStep(s: State, j: nat, chan: nat)
    requires Inv(s) && j < |s.procs|
    ensures Inv(WakeEntry(s, j, chan))
    ensures j == chan && !HasOwnLock(s.procs[j].stage) ==> !Dozes(WakeEntry(s, j, chan).procs[j])
  {
    assert One(s, j);
    if WakeEntry(s, j, chan) != s { StatusStep(s, WakeEntry(s, j, chan), j); }
  }

  /** wakeup(initproc) passes init only once init no longer dozes. */
  lemma PassInit(s: State, p: nat, t: State)
    requires Inv(s) && p < |s.procs| && s.procs[p].stage.ReparentWake?
    requires var ReparentWake(i, j) := s.procs[p].stage;
      t == SetStage(s, p, if j >= |s.procs| then Reparent(i + 1) else ReparentWake(i, j + 1))
    requires s.procs[p].stage.j == s.init ==> !Dozes(s.procs[s.init])
    ensures Inv(t)
  {
    assert One(s, p);
    forall q | 0 <= q < |t.procs| && q != p ensures One(t, q) { assert One(s, q); }
    forall q, c | 0 <= q < |t.procs| && 0 <= c < |t.procs| ensures Two(t, q, c) && Apart(t, q, c) {
      assert Two(s, q, c) && Apart(s, q, c);
    }
  }

  /** wakeup(p->parent) passes the parent only once it no longer dozes. */
  lemma PassParent(s: State, p: nat)
    requires Inv(s) && p < |s.procs| && s.procs[p].stage.ExitWake?
    requires s.procs[p].parent == Some(s.procs[p].stage.j) && s.procs[p].stage.j < |s.procs|
      ==> !Dozes(s.procs[s.procs[p].stage.j])
    ensures Inv(SetStage(s, p, ExitWake(s.procs[p].stage.j + 1)))
  {
    var t := SetStage(s, p, ExitWake(s.procs[p].stage.j + 1));
    assert One(s, p);
    forall c | 0 <= c < |s.procs| ensures Two(t, p, c) && Two(t, c, p) { assert Two(s, p, c) && Two(s, c, p); }
    SelfKeepsInv(s, t, p);
  }

  /** The child turns zombie under wait_lock, after its parent was woken. */
  lemma DieStep(s: State, p: nat, xstate: int)
    requires Inv(s) && p < |s.procs| && s.procs[p].stage.ExitWake? && s.procs[p].stage.j >= |s.procs|
    ensures Inv(s.(procs := s.procs[p := s.procs[p].(status := Zombie, xstate := xstate, stage := ExitLast)],
                   waitLock := None, exits := s.exits[s.procs[p].pid := xstate]))
  {
    var x := s.procs[p];
    var t := s.(procs := s.procs[p := x.(status := Zombie, xstate := xstate, stage := ExitLast)],
                waitLock := None, exits := s.exits[x.pid := xstate]);
    assert One(s, p);
    forall q | 0 <= q < |t.procs| ensures One(t, q) { assert One(s, q) && Two(s, p, q) && Apart(s, p, q); }
    forall q, c | 0 <= q < |t.procs| && 0 <= c < |t.procs| ensures Two(t, q, c) && Apart(t, q, c) {
      assert Two(s, q, c) && Apart(s, q, c) && One(s, q);
    }
    forall k | 0 <= k < |s.reaped| ensures ReapFits(t, s.reaped[k]) { assert ReapFits(s, s.reaped[k]); }
  }

  lemma HandOverOne(s: State, p: nat, i: nat, q: nat)
    requires Inv(s) && p < |s.procs| && i < |s.procs| && s.procs[p].stage == Reparent(i)
    requires s.procs[i].parent == Some(p) && q < |s.procs|
    ensures One(HandedOver(s, p, i), q)
  {
    hide Two, Apart, ReapFits;
    assert One(s, p) && One(s, i) && One(s, s.init) && One(s, q);
  }

  lemma HandOverTwo(s: State, p: nat, i: nat, q: nat, c: nat)
    requires Inv(s) && p < |s.procs| && i < |s.procs| && s.procs[p].stage == Reparent(i)
    requires s.procs[i].parent == Some(p) && q < |s.procs| && c < |s.procs|
    ensures Two(HandedOver(s, p, i), q, c)
  {
    hide Apart, ReapFits;
    assert One(s, p) && One(s, i) && One(s, s.init) && One(s, q) && One(s, c) && Two(s, q, c);
  }

  /** A child handed to init, even a zombie: init's wakeup starts in the same breath. */
  lemma HandOver(s: State, p: nat, i: nat)
    requires Inv(s) && p < |s.procs| && i < |s.procs| && s.procs[p].stage == Reparent(i)
    requires s.procs[i].parent == Some(p)
    ensures Inv(HandedOver(s, p, i))
  {
    hide One, Two;
    var t := HandedOver(s, p, i);
    forall q | 0 <= q < |t.procs| ensures One(t, q) { HandOverOne(s, p, i, q); }
    forall q, c | 0 <= q < |t.procs| && 0 <= c < |t.procs| ensures Two(t, q, c) { HandOverTwo(s, p, i, q, c); }
    forall q, c | 0 <= q < |t.procs| && 0 <= c < |t.procs| ensures Apart(t, q, c) { assert Apart(s, q, c); }
  }

  // ---- fork ----

  lemma AllocStep(s: State, np: nat)
    requires Inv(s) && np < |s.procs| && s.procs[np].status == Unused
    ensures Inv(Allocated(s, np))
    ensures forall q :: 0 <= q < |s.procs| ==> !Forks(Allocated(s, np).procs[q].stage, np)
  {
    hide One, Two, Apart;
    var t := Allocated(s, np);
    forall q | 0 <= q < |t.procs| ensures One(t, q) && !Forks(t.procs[q].stage, np) { AllocOne(s, np, q); }
    forall q, c | 0 <= q < |t.procs| && 0 <= c < |t.procs| ensures Two(t, q, c) && Apart(t, q, c) {
      AllocTwo(s, np, q, c);
    }
    forall k | 0 <= k < |t.reaped| ensures ReapFits(t, t.reaped[k]) { assert ReapFits(s, s.reaped[k]); }
  }

  lemma AllocOne(s: State, np: nat, q: nat)
    requires Inv(s) && np < |s.procs| && s.procs[np].status == Unused && q < |s.procs|
    ensures One(Allocated(s, np), q) && !Forks(Allocated(s, np).procs[q].stage, np)
  {
    hide Two, Apart, ReapFits;
    assert One(s, np) && One(s, q);
  }

  lemma AllocTwo(s: State, np: nat, q: nat, c: nat)
    requires Inv(s) && np < |s.procs| && s.procs[np].status == Unused && q < |s.procs| && c < |s.procs|
    ensures Two(Allocated(s, np), q, c) && Apart(Allocated(s, np), q, c)
  {
    hide ReapFits;
    assert One(s, np) && Two(s, q, c) && Apart(s, q, c) && One(s, q) && One(s, c);
  }

  /** A failed fork uses up a pid and leaves the table as it was. */
  lemma GiveBackStep(s: State, np: nat)
    requires Inv(s) && np < |s.procs| && s.procs[np].status == Used && s.procs[np].parent == None
    requires forall q :: 0 <= q < |s.procs| ==> !Forks(s.procs[q].stage, np)
    ensures Inv(GivenBack(s, np))
  {
    var t := GivenBack(s, np);
    assert One(s, np);
    forall q | 0 <= q < |t.procs| ensures One(t, q) { assert One(s, q); }
    forall q, c | 0 <= q < |t.procs| && 0 <= c < |t.procs| ensures Two(t, q, c) && Apart(t, q, c) {
      assert Two(s, q, c) && Apart(s, q, c) && One(s, c);
    }
    forall k | 0 <= k < |t.reaped| ensures ReapFits(t, t.reaped[k]) { assert ReapFits(s, s.reaped[k]); }
  }

  lemma BeginFork(s: State, p: nat, np: nat)
    requires Inv(s) && p < |s.procs| && np < |s.procs| && s.procs[p].stage == User && s.procs[p].status == Running
    requires s.procs[np].status == Used && s.procs[np].parent == None
    requires forall q :: 0 <= q < |s.procs| ==> !Forks(s.procs[q].stage, np)
    ensures Inv(SetStage(s, p, ForkParent(np)))
  {
    var t := SetStage(s, p, ForkParent(np));
    assert One(s, p);
    forall q | 0 <= q < |t.procs| ensures One(t, q) { assert One(s, q); }
    forall q, c | 0 <= q < |t.procs| && 0 <= c < |t.procs| ensures Two(t, q, c) && Apart(t, q, c) {
      assert Two(s, q, c) && Apart(s, q, c);
    }
  }

  lemma AdoptOne(s: State, p: nat, np: nat, q: nat)
    requires Inv(s) && p < |s.procs| && np < |s.procs| && s.procs[p].stage == ForkParent(np) && q < |s.procs|
    ensures One(Adopted(s, p, np), q)
  {
    assert One(s, p) && One(s, np) && One(s, q) && Apart(s, p, q);
  }

  lemma AdoptTwo(s: State, p: nat, np: nat, q: nat, c: nat)
    requires Inv(s) && p < |s.procs| && np < |s.procs| && s.procs[p].stage == ForkParent(np)
    requires q < |s.procs| && c < |s.procs|
    ensures Two(Adopted(s, p, np), q, c) && Apart(Adopted(s, p, np), q, c)
  {
    assert One(s, p) && One(s, np) && Two(s, q, c) && Apart(s, q, c);
  }

  lemma AdoptStep(s: State, p: nat, np: nat)
    requires Inv(s) && p < |s.procs| && np < |s.procs| && s.procs[p].stage == ForkParent(np)
    ensures Inv(Adopted(s, p, np))
  {
    hide One, Two, Apart;
    var t := Adopted(s, p, np);
    forall q | 0 <= q < |t.procs| ensures One(t, q) { AdoptOne(s, p, np, q); }
    forall q, c | 0 <= q < |t.procs| && 0 <= c < |t.procs| ensures Two(t, q, c) && Apart(t, q, c) {
      AdoptTwo(s, p, np, q, c);
    }
  }

  /** fork's last act: the child, whose parent is set, may run. */
  lemma StartEntry(s: State, np: nat)
    requires Inv(s) && np < |s.procs| && s.procs[np].status == Used && s.procs[np].parent.Some?
    requires forall q :: 0 <= q < |s.procs| ==> !Forks(s.procs[q].stage, np)
    ensures Inv(s.(procs := s.procs[np := s.procs[np].(status := Runnable)]))
  {
    var t := s.(procs := s.procs[np := s.procs[np].(status := Runnable)]);
    assert One(s, np);
    forall q | 0 <= q < |t.procs| ensures One(t, q) { assert One(s, q); }
    forall q, c | 0 <= q < |t.procs| && 0 <= c < |t.procs| ensures Two(t, q, c) { assert Two(s, q, c); }
    forall q, c | 0 <= q < |t.procs| && 0 <= c < |t.procs| ensures Apart(t, q, c) { assert Apart(s, q, c); }
  }

  // ---- wait's reaping ----

  /** freeproc of a zombie that is off its CPU: nobody's parent, and never reaped before. */
  lemma ReapStep(s: State, k: nat)
    requires Inv(s) && k < |s.procs| && s.procs[k].status == Zombie && s.procs[k].stage == Gone
    ensures Inv(Reaped(s, k))
  {
    var t := Reaped(s, k);
    assert One(s, k);
    forall q | 0 <= q < |t.procs| ensures One(t, q) { assert One(s, q) && Two(s, k, q); }
    forall q, c | 0 <= q < |t.procs| && 0 <= c < |t.procs| ensures Two(t, q, c) {
      assert Two(s, q, c) && One(s, c);
    }
    forall q, c | 0 <= q < |t.procs| && 0 <= c < |t.procs| ensures Apart(t, q, c) { assert Apart(s, q, c); }
    forall l | 0 <= l < |t.reaped| ensures ReapFits(t, t.reaped[l]) {
      if l < |s.reaped| { assert ReapFits(s, s.reaped[l]); }
    }
    forall l, c | 0 <= l < |t.reaped| && 0 <= c < |t.procs| && t.procs[c].status != Unused
      ensures t.reaped[l].0 != t.procs[c].pid
    {
      assert Apart(s, k, c);
    }
  }

  // ---- All steps ----

  lemma ForkSteps(s: State, step: Step)
    requires Inv(s) && Enabled(s, step) && (step.Fork? || step.ForkFail? || step.SetParent? || step.MakeRunnable?)
    ensures Inv(Take(s, step))
  {
    hide Two, ReapedOnce, PidFits;
    var p := step.p;
    assert One(s, p);
    match step {
      case Fork(_, np) =>
        assert One(s, np);
        AllocStep(s, np);
        BeginFork(Allocated(s, np), p, np);
      case ForkFail(_, np) =>
        assert One(s, np);
        AllocStep(s, np);
        GiveBackStep(Allocated(s, np), np);
      case SetParent(_) => AdoptStep(s, p, s.procs[p].stage.np);
      case MakeRunnable(_) =>
        var np, a := s.procs[p].stage.np, SetStage(s, p, User);
        FreshStep(s, a, p);
        forall q | 0 <= q < |a.procs| ensures !Forks(a.procs[q].stage, np) { assert Apart(s, p, q); }
        StartEntry(a, np);
    }
  }

  lemma ExitSteps(s: State, step: Step)
    requires Inv(s) && Enabled(s, step)
    requires step.ReparentOne? || step.Die?
    ensures Inv(Take(s, step))
  {
    hide Two, Apart, ReapedOnce, PidFits;
    var p := step.p;
    assert One(s, p);
    match step {
      case ReparentOne(_) =>
        var i := s.procs[p].stage.i;
        if i < |s.procs| && s.procs[i].parent == Some(p) { HandOver(s, p, i); } else { ReparentPast(s, p); }
      case Die(_, xstate) => DieStep(s, p, xstate);
    }
  }

  lemma ExitWakeSteps(s: State, step: Step)
    requires Inv(s) && Enabled(s, step) && (step.WakeInitOne? || step.WakeParentOne?)
    ensures Inv(Take(s, step))
  {
    hide Two, Apart, ReapedOnce, PidFits;
    var p := step.p;
    assert One(s, p);
    match step {
      case WakeInitOne(_) =>
        var j := s.procs[p].stage.j;
        if j >= |s.procs| {
          PassInit(s, p, Take(s, step));
        } else {
          WakeEntryStep(s, j, s.init);
          PassInit(WakeEntry(s, j, s.init), p, Take(s, step));
        }
      case WakeParentOne(_) =>
        var j, chan := s.procs[p].stage.j, s.procs[p].parent.value;
        WakeEntryStep(s, j, chan);
        PassParent(WakeEntry(s, j, chan), p);
    }
  }

  lemma WaitSteps(s: State, step: Step)
    requires Inv(s) && Enabled(s, step)
    requires step.Look? || step.ScanEnd? || step.DropWaitLock? || step.Doze?
    ensures Inv(Take(s, step))
  {
    hide Two, Apart, ReapedOnce, PidFits;
    var p := step.p;
    assert One(s, p);
    match step {
      case Look(_, copied) =>
        var i := s.procs[p].stage.i;
        if s.procs[i].parent == Some(p) && s.procs[i].status == Zombie {
          var a := SetStage(s, p, User).(waitLock := None);
          assert One(s, i);
          FreshStep(s, a, p);
          if copied { ReapStep(a, i); }
        } else {
          LookPast(s, p, s.procs[p].stage.kids || s.procs[i].parent == Some(p));
        }
      case ScanEnd(_) =>
        if !s.procs[p].stage.kids || s.procs[p].killed { FreshStep(s, Take(s, step), p); } else { IntoSleep(s, p); }
      case DropWaitLock(_) => DropStep(s, p);
      case Doze(_) => DozeStep(s, p);
    }
  }

  lemma FreshSteps(s: State, step: Step)
    requires Inv(s) && Enabled(s, step)
    requires step.Exit? || step.ExitEnter? || step.Wait? || step.WaitEnter? || step.SwitchOff?
    ensures Inv(Take(s, step))
  {
    hide Two, Apart, ReapedOnce;
    assert One(s, step.p);
    if step.SwitchOff? { OffStep(s, step.p); } else { FreshStep(s, Take(s, step), step.p); }
  }

  lemma StatusSteps(s: State, step: Step)
    requires Inv(s) && Enabled(s, step)
    requires step.Dispatch? || step.Preempt? || step.Kill? || step.Nap? || step.WakeOther?
    ensures Inv(Take(s, step))
  {
    hide Two, Apart, ReapedOnce;
    assert One(s, step.p);
    StatusStep(s, Take(s, step), step.p);
  }

  lemma StepKeepsInv(s: State, step: Step)
    requires Inv(s) && Enabled(s, step)
    ensures Inv(Take(s, step))
  {
    hide *;
    if step.Fork? || step.ForkFail? || step.SetParent? || step.MakeRunnable? {
      ForkSteps(s, step);
    } else if step.ReparentOne? || step.Die? {
      ExitSteps(s, step);
    } else if step.WakeInitOne? || step.WakeParentOne? {
      ExitWakeSteps(s, step);
    } else if step.Look? || step.ScanEnd? || step.DropWaitLock? || step.Doze? {
      WaitSteps(s, step);
    } else if step.Exit? || step.ExitEnter? || step.Wait? || step.WaitEnter? || step.SwitchOff? {
      FreshSteps(s, step);
    } else {
      StatusSteps(s, step);
    }
  }

  // ---- Runs ----

  /** After userinit: init runs, every other entry is unused. */
  ghost predicate Boot(s: State) {
    && s.init < |s.procs| && s.waitLock == None && s.nextPid == 2 && s.reaped == [] && s.exits == map[]
    && s.procs[s.init] == Proc(Runnable, 1, None, false, 0, User)
    && forall p :: 0 <= p < |s.procs| && p != s.init ==> s.procs[p] == FREED
  }

  lemma BootInv(s: State)
    requires Boot(s)
    ensures Inv(s)
  {
    forall p | 0 <= p < |s.procs| ensures One(s, p) { assert p != s.init ==> s.procs[p] == FREED; }
    forall p, c | 0 <= p < |s.procs| && 0 <= c < |s.procs| ensures Two(s, p, c) && Apart(s, p, c) {
      assert (p != s.init ==> s.procs[p] == FREED) && (c != s.init ==> s.procs[c] == FREED);
    }
  }

  ghost predicate Runs(s: State, steps: seq<Step>, t: State)
    decreases |steps|
  {
    if steps == [] then t == s else Enabled(s, steps[0]) && Runs(Take(s, steps[0]), steps[1..], t)
  }

  lemma {:induction false} RunKeepsInv(s: State, steps: seq<Step>, t: State)
    requires Inv(s) && Runs(s, steps, t)
    ensures Inv(t)
    decreases |steps|
  {
    hide Inv, Enabled, Take;
    if steps != [] {
      StepKeepsInv(s, steps[0]);
      RunKeepsInv(Take(s, steps[0]), steps[1..], t);
    }
  }

  /** No orphans: every started process but init has a parent that is neither unused nor a zombie. */
  lemma NoOrphans(s: State, steps: seq<Step>, t: State, c: nat)
    requires Boot(s) && Runs(s, steps, t) && c < |t.procs| && Started(t.procs[c]) && c != t.init
    ensures t.procs[c].parent.Some? && t.procs[c].parent.value < |t.procs|
    ensures t.procs[t.procs[c].parent.value].status in {Sleeping, Runnable, Running}
  {
    BootInv(s);
    RunKeepsInv(s, steps, t);
    assert One(t, c);
  }

  /** No lost exit: with wait_lock free, nobody sleeps in wait, or is about to, over a zombie child. */
  lemma NoLostExit(s: State, steps: seq<Step>, t: State, p: nat, c: nat)
    requires Boot(s) && Runs(s, steps, t) && p < |t.procs| && c < |t.procs| && t.waitLock == None
    requires t.procs[c].parent == Some(p) && t.procs[c].status == Zombie
    ensures !Dozes(t.procs[p])
  {
    BootInv(s);
    RunKeepsInv(s, steps, t);
    assert Two(t, p, c);
  }

  /** Each pid is returned by wait at most once, with its exit status, and belongs to no entry any more. */
  lemma ReapedAtMostOnce(s: State, steps: seq<Step>, t: State, k: nat, l: nat)
    requires Boot(s) && Runs(s, steps, t) && k < l < |t.reaped|
    ensures t.reaped[k].0 != t.reaped[l].0
    ensures t.reaped[k].0 in t.exits && t.exits[t.reaped[k].0] == t.reaped[k].1
    ensures forall c :: 0 <= c < |t.procs| && t.procs[c].status != Unused ==> t.procs[c].pid != t.reaped[k].0
  {
    BootInv(s);
    RunKeepsInv(s, steps, t);
    assert ReapFits(t, t.reaped[k]);
  }

  /** freeproc never takes the kernel stack from under a process: what wait reaps is off its CPU. */
  lemma ReapsOnlyGone(s: State, steps: seq<Step>, t: State, p: nat)
    requires Boot(s) && Runs(s, steps, t) && Enabled(t, Look(p, true))
    ensures var i := t.procs[p].stage.i;
      Take(t, Look(p, true)).reaped != t.reaped ==> t.procs[i].parent == Some(p) && t.procs[i].stage == Gone
  {
    hide Two, Apart, ReapedOnce, PidFits;
    BootInv(s);
    RunKeepsInv(s, steps, t);
    assert One(t, t.procs[p].stage.i) && One(t, p);
  }

  // ---- What wait and exit answer ----

  predicate Child(s: State, c: nat, p: nat) {
    c < |s.procs| && s.procs[c].parent == Some(p)
  }

  /** wait's havekids tells whether one of the entries that it has passed is a child. */
  ghost predicate KidsAt(s: State, p: nat)
    requires p < |s.procs|
  {
    var st := s.procs[p].stage;
    st.WaitScan? ==> (st.kids <==> exists c :: 0 <= c < st.i && Child(s, c, p))
  }

  ghost predicate KidsOk(s: State) {
    forall p :: 0 <= p < |s.procs| ==> KidsAt(s, p)
  }

  /** Steps that may change another entry than the actor's. */
  predicate Reaching(step: Step) {
    || step.Fork? || step.ForkFail? || step.SetParent? || step.MakeRunnable?
    || step.ReparentOne? || step.WakeInitOne? || step.WakeParentOne? || step.Look?
  }

  lemma OnlySelf(s: State, step: Step)
    requires Enabled(s, step) && !Reaching(step)
    ensures var t := Take(s, step); |t.procs| == |s.procs| && t.procs == s.procs[step.p := t.procs[step.p]]
    ensures Take(s, step).procs[step.p].parent == s.procs[step.p].parent
  {
  }

  lemma SameTable(s: State, step: Step)
    requires Enabled(s, step)
    ensures |Take(s, step).procs| == |s.procs|
  {
    if Reaching(step) { ReachingTable(s, step); } else { OtherTable(s, step); }
  }

  lemma ReachingTable(s: State, step: Step)
    requires Enabled(s, step) && Reaching(step)
    ensures |Take(s, step).procs| == |s.procs|
  {
  }

  lemma OtherTable(s: State, step: Step)
    requires Enabled(s, step) && !Reaching(step)
    ensures |Take(s, step).procs| == |s.procs|
  {
    hide Take, Enabled;
    OnlySelf(s, step);
  }

  /** While p scans, nobody else changes who is whose child. */
  lemma ParentsStay(s: State, step: Step, p: nat, c: nat)
    requires Inv(s) && Enabled(s, step) && p < |s.procs| && s.procs[p].stage.WaitScan? && step.p != p && c < |s.procs|
    ensures |Take(s, step).procs| == |s.procs| && Take(s, step).procs[c].parent == s.procs[c].parent
    ensures Take(s, step).procs[p].stage == s.procs[p].stage
  {
    hide Inv, Take, Enabled;
    if Reaching(step) { ParentsStayReaching(s, step, p, c); } else { OnlySelf(s, step); }
  }

  lemma ParentsStayReaching(s: State, step: Step, p: nat, c: nat)
    requires Inv(s) && Enabled(s, step) && p < |s.procs| && s.procs[p].stage.WaitScan? && step.p != p && c < |s.procs|
    requires Reaching(step)
    ensures |Take(s, step).procs| == |s.procs| && Take(s, step).procs[c].parent == s.procs[c].parent
    ensures Take(s, step).procs[p].stage == s.procs[p].stage
  {
    hide Two, Apart, ReapedOnce, PidFits;
    assert One(s, p) && One(s, step.p) && One(s, c);
    if step.Fork? || step.ForkFail? { assert One(s, step.np); }
  }

  lemma OthersKids(s: State, step: Step, p: nat)
    requires Inv(s) && Enabled(s, step) && p < |s.procs| && s.procs[p].stage.WaitScan? && step.p != p && KidsAt(s, p)
    ensures p < |Take(s, step).procs| && KidsAt(Take(s, step), p)
  {
    hide Inv, Enabled, Take;
    var t := Take(s, step);
    forall c | 0 <= c < |s.procs| ensures |t.procs| == |s.procs| && (Child(t, c, p) <==> Child(s, c, p)) {
      ParentsStay(s, step, p, c);
    }
    ParentsStay(s, step, p, p);
    assert forall c :: 0 <= c < s.procs[p].stage.i ==> (Child(t, c, p) <==> Child(s, c, p));
  }

  lemma LookKids(s: State, p: nat, copied: bool)
    requires p < |s.procs| && Enabled(s, Look(p, copied)) && KidsAt(s, p)
    ensures KidsAt(Take(s, Look(p, copied)), p)
  {
    var t, i := Take(s, Look(p, copied)), s.procs[p].stage.i;
    if t.procs[p].stage.WaitScan? {
      assert forall c :: 0 <= c < |s.procs| ==> (Child(t, c, p) <==> Child(s, c, p));
      if Child(s, i, p) {
        assert Child(t, i, p);
      } else if t.procs[p].stage.kids {
        var c :| 0 <= c < i && Child(s, c, p);
        assert Child(t, c, p);
      }
    }
  }

  /** A scan begins at the first entry. */
  lemma ScanBegins(s: State, step: Step)
    requires Enabled(s, step) && !step.Look? && |Take(s, step).procs| == |s.procs|
    ensures var st := Take(s, step).procs[step.p].stage;
      st.WaitScan? ==> st == s.procs[step.p].stage || st == WaitScan(0, false)
  {
    hide Take, Enabled;
    if Reaching(step) { ReachesNoScan(s, step); } else { ScanBeginsAlone(s, step); }
  }

  lemma ReachesNoScan(s: State, step: Step)
    requires Enabled(s, step) && Reaching(step) && !step.Look? && |Take(s, step).procs| == |s.procs|
    ensures var st := Take(s, step).procs[step.p].stage; st.WaitScan? ==> st == s.procs[step.p].stage
  {
  }

  lemma ScanBeginsAlone(s: State, step: Step)
    requires Enabled(s, step) && !Reaching(step) && |Take(s, step).procs| == |s.procs|
    ensures var st := Take(s, step).procs[step.p].stage;
      st.WaitScan? ==> st == s.procs[step.p].stage || st == WaitScan(0, false)
  {
  }

  lemma NobodyElseScans(s: State, step: Step, p: nat)
    requires Enabled(s, step) && p < |s.procs| && step.p != p && |Take(s, step).procs| == |s.procs|
    ensures Take(s, step).procs[p].stage == s.procs[p].stage || Take(s, step).procs[p] == FREED
  {
    hide Take, Enabled;
    if Reaching(step) { ReachingStage(s, step, p); } else { OnlySelf(s, step); }
  }

  lemma ReachingStage(s: State, step: Step, p: nat)
    requires Enabled(s, step) && p < |s.procs| && step.p != p && |Take(s, step).procs| == |s.procs| && Reaching(step)
    ensures Take(s, step).procs[p].stage == s.procs[p].stage || Take(s, step).procs[p] == FREED
  {
  }

  /** A scanning process that stays where it is changed nobody's parent. */
  lemma SelfParents(s: State, step: Step)
    requires Enabled(s, step) && s.procs[step.p].stage.WaitScan? && !step.Look? && |Take(s, step).procs| == |s.procs|
    ensures forall c :: 0 <= c < |s.procs| ==> Take(s, step).procs[c].parent == s.procs[c].parent
  {
    hide Take;
    assert !Reaching(step);
    OnlySelf(s, step);
  }

  lemma SelfKids(s: State, step: Step, p: nat)
    requires Inv(s) && Enabled(s, step) && p == step.p && KidsAt(s, p)
    ensures p < |Take(s, step).procs| && KidsAt(Take(s, step), p)
  {
    hide Inv, Take;
    var t := Take(s, step);
    SameTable(s, step);
    if step.Look? {
      LookKids(s, p, step.copied);
    } else if s.procs[p].stage.WaitScan? && t.procs[p].stage == s.procs[p].stage {
      SelfParents(s, step);
      assert forall c :: 0 <= c < |s.procs| ==> (Child(t, c, p) <==> Child(s, c, p));
    } else {
      ScanBegins(s, step);
    }
  }

  lemma StepKeepsKids(s: State, step: Step)
    requires Inv(s) && Enabled(s, step) && KidsOk(s)
    ensures KidsOk(Take(s, step))
  {
    hide Inv, Enabled, Take, KidsAt;
    var t := Take(s, step);
    SameTable(s, step);
    forall p | 0 <= p < |t.procs| ensures KidsAt(t, p) {
      assert KidsAt(s, p);
      if p == step.p { SelfKids(s, step, p); } else { OtherKids(s, step, p); }
    }
  }

  lemma OtherKids(s: State, step: Step, p: nat)
    requires Inv(s) && Enabled(s, step) && p < |s.procs| && step.p != p && KidsAt(s, p)
    ensures p < |Take(s, step).procs| && KidsAt(Take(s, step), p)
  {
    hide Inv;
    SameTable(s, step);
    if s.procs[p].stage.WaitScan? { OthersKids(s, step, p); } else { NobodyElseScans(s, step, p); }
  }

  lemma {:induction false} RunKeepsKids(s: State, steps: seq<Step>, t: State)
    requires Inv(s) && KidsOk(s) && Runs(s, steps, t)
    ensures Inv(t) && KidsOk(t)
    decreases |steps|
  {
    hide Inv, KidsOk, Enabled, Take;
    if steps != [] {
      StepKeepsInv(s, steps[0]);
      StepKeepsKids(s, steps[0]);
      RunKeepsKids(Take(s, steps[0]), steps[1..], t);
    }
  }

  /**
   * wait returns -1 from the end of its scan exactly when the caller was killed
   * or has no child at all; otherwise it goes to sleep.
   */
  lemma WaitGivesUpExactly(s: State, steps: seq<Step>, t: State, p: nat)
    requires Boot(s) && Runs(s, steps, t) && Enabled(t, ScanEnd(p))
    ensures var u := Take(t, ScanEnd(p));
      if t.procs[p].killed || forall c :: 0 <= c < |t.procs| ==> !Child(t, c, p) then
        u.procs[p].stage == User && u.waitLock == None
      else u.procs[p].stage == WaitLock && u.waitLock == t.waitLock
  {
    hide Inv, Two, Runs;
    BootInv(s);
    RunKeepsKids(s, steps, t);
    assert KidsAt(t, p);
  }

  /**
   * wait at a zombie child ends the call: it reports that child's pid and
   * status and frees its entry, or, if the status cannot be copied out, leaves
   * the zombie for the next call.
   */
  lemma WaitReapsZombie(s: State, p: nat, copied: bool)
    requires Enabled(s, Look(p, copied))
    requires var x := s.procs[s.procs[p].stage.i]; x.parent == Some(p) && x.status == Zombie && s.procs[p].stage.i != p
    ensures var i := s.procs[p].stage.i; var t := Take(s, Look(p, copied));
      && t.procs[p].stage == User && t.waitLock == None
      && (copied ==> t.reaped == s.reaped + [(s.procs[i].pid, s.procs[i].xstate)] && t.procs[i].status == Unused)
      && (!copied ==> t.reaped == s.reaped && t.procs[i] == s.procs[i])
  {
  }

  /** In the run, the process with this pid ended its exit with this status. */
  ghost predicate DiedWith(s: State, steps: seq<Step>, pid: int, status: int)
    decreases |steps|
  {
    && steps != [] && Enabled(s, steps[0])
    && (|| (steps[0].Die? && s.procs[steps[0].p].pid == pid && steps[0].xstate == status)
        || DiedWith(Take(s, steps[0]), steps[1..], pid, status))
  }

  lemma ExitsGrow(s: State, step: Step, pid: int)
    requires Enabled(s, step) && pid in Take(s, step).exits
    ensures || (pid in s.exits && s.exits[pid] == Take(s, step).exits[pid])
            || (step.Die? && s.procs[step.p].pid == pid && step.xstate == Take(s, step).exits[pid])
  {
  }

  lemma {:induction false} ExitsComeFromDeaths(s: State, steps: seq<Step>, t: State, pid: int)
    requires Runs(s, steps, t) && pid in t.exits
    ensures (pid in s.exits && s.exits[pid] == t.exits[pid]) || DiedWith(s, steps, pid, t.exits[pid])
    decreases |steps|
  {
    hide Enabled, Take;
    if steps != [] {
      ExitsComeFromDeaths(Take(s, steps[0]), steps[1..], t, pid);
      if pid in Take(s, steps[0]).exits { ExitsGrow(s, steps[0], pid); }
    }
  }

  /** Whatever wait reported is the pid of a process that exited, with the status that it passed to exit. */
  lemma ReapedWithItsStatus(s: State, steps: seq<Step>, t: State, k: nat)
    requires Boot(s) && Runs(s, steps, t) && k < |t.reaped|
    ensures DiedWith(s, steps, t.reaped[k].0, t.reaped[k].1)
  {
    BootInv(s);
    RunKeepsInv(s, steps, t);
    assert ReapFits(t, t.reaped[k]);
    ExitsComeFromDeaths(s, steps, t, t.reaped[k].0);
  }

  // ---- Every call gets on ----

  /** How many steps of its own a process in exit or in wait's scan has ahead at most, in a table of n. */
  function Ahead(n: nat, st: Stage): nat {
    match st
    case ExitStart => (n + 1) * (n + 3) + n + 4
    case Reparent(i) => if i > n then n + 2 else (n + 1 - i) * (n + 3) + n + 3
    case ReparentWake(i, j) => (if i >= n then 0 else (n - i) * (n + 3)) + n + 3 + (if j > n then 1 else n + 2 - j)
    case ExitWake(j) => if j > n then 1 else n + 2 - j
    case WaitScan(i, _) => if i > n then 0 else n + 1 - i
    case _ => 0
  }

  /** In exit from entering it, or in wait's scan. */
  predicate Scanning(st: Stage) {
    st.ExitStart? || st.Reparent? || st.ReparentWake? || st.ExitWake? || st.WaitScan?
  }

  predicate Within(n: nat, st: Stage) {
    match st
    case Reparent(i) => i <= n
    case ReparentWake(i, j) => i < n && j <= n
    case ExitWake(j) => j <= n
    case WaitScan(i, _) => i <= n
    case _ => true
  }

  /** Its own next step, not a preemption, a dispatch or a kill. */
  predicate OwnStep(step: Step, q: nat) {
    step.p == q && !step.Preempt? && !step.Dispatch? && !step.Kill?
  }

  /** exit, with reparent and its two wakeups, and wait's scan end: each own step of q leaves fewer, others the same. */
  lemma ScansEnd(s: State, step: Step, q: nat)
    requires Inv(s) && Enabled(s, step) && q < |s.procs| && Within(|s.procs|, s.procs[q].stage)
    ensures var t, n := Take(s, step), |s.procs|;
      && |t.procs| == n && Within(n, t.procs[q].stage)
      && (Scanning(s.procs[q].stage) ==>
            if OwnStep(step, q) then Ahead(n, t.procs[q].stage) < Ahead(n, s.procs[q].stage)
            else t.procs[q].stage == s.procs[q].stage)
  {
    hide Inv, Take, Enabled, Within, Ahead;
    ScanFacts(s, q);
    if OwnStep(step, q) && Scanning(s.procs[q].stage) {
      OwnScan(s, step);
      FollowsLess(|s.procs|, s.procs[q].stage, Take(s, step).procs[q].stage);
    } else { OtherScan(s, step, q); }
  }

  lemma ScanFacts(s: State, q: nat)
    requires Inv(s) && q < |s.procs|
    ensures Scanning(s.procs[q].stage) ==> s.procs[q].status in {Runnable, Running}
    ensures s.procs[q].parent != Some(q) || !s.procs[q].stage.ExitWake?
  {
    assert One(s, q) && Two(s, q, q);
  }

  /** Where a process in a scan is after its own step. */
  predicate Follows(n: nat, st: Stage, next: Stage) {
    match st
    case ExitStart => next == Reparent(0)
    case Reparent(i) => if i >= n then next == ExitWake(0) else next == Reparent(i + 1) || next == ReparentWake(i, 0)
    case ReparentWake(i, j) => next == if j >= n then Reparent(i + 1) else ReparentWake(i, j + 1)
    case ExitWake(j) => next == if j >= n then ExitLast else ExitWake(j + 1)
    case WaitScan(i, _) => next in {User, WaitLock} || (i < n && next.WaitScan? && next.i == i + 1)
    case _ => false
  }

  lemma OwnScan(s: State, step: Step)
    requires Enabled(s, step) && Scanning(s.procs[step.p].stage) && OwnStep(step, step.p)
    ensures var t, n := Take(s, step), |s.procs|;
      |t.procs| == n && Follows(n, s.procs[step.p].stage, t.procs[step.p].stage)
  {
    if s.procs[step.p].stage.WaitScan? { OwnLook(s, step); } else { OwnExit(s, step); }
  }

  lemma OwnLook(s: State, step: Step)
    requires Enabled(s, step) && s.procs[step.p].stage.WaitScan? && OwnStep(step, step.p)
    ensures var t, n := Take(s, step), |s.procs|;
      |t.procs| == n && Follows(n, s.procs[step.p].stage, t.procs[step.p].stage)
  {
    assert step.Look? || step.ScanEnd?;
  }

  lemma OwnExit(s: State, step: Step)
    requires Enabled(s, step) && Scanning(s.procs[step.p].stage) && !s.procs[step.p].stage.WaitScan?
    requires OwnStep(step, step.p)
    ensures var t, n := Take(s, step), |s.procs|;
      |t.procs| == n && Follows(n, s.procs[step.p].stage, t.procs[step.p].stage)
  {
    hide LookAt;
    assert step.ExitEnter? || step.ReparentOne? || step.WakeInitOne? || step.WakeParentOne? || step.Die?;
  }

  lemma FollowsLess(n: nat, st: Stage, next: Stage)
    requires Scanning(st) && Within(n, st) && Follows(n, st, next)
    ensures Within(n, next) && Ahead(n, next) < Ahead(n, st)
  {
    if st.Reparent? || st.ReparentWake? { AheadReparent(n, st.i); }
  }

  lemma OtherScan(s: State, step: Step, q: nat)
    requires Enabled(s, step) && q < |s.procs| && Within(|s.procs|, s.procs[q].stage)
    requires Scanning(s.procs[q].stage) ==> s.procs[q].status in {Runnable, Running} && !OwnStep(step, q)
    ensures var t, n := Take(s, step), |s.procs|;
      && |t.procs| == n && Within(n, t.procs[q].stage)
      && (Scanning(s.procs[q].stage) ==> t.procs[q].stage == s.procs[q].stage)
  {
    if step.p == q { SelfStage(s, step); } else { OtherStage(s, step, q); }
  }

  lemma SelfStage(s: State, step: Step)
    requires Enabled(s, step) && (Scanning(s.procs[step.p].stage) ==> !OwnStep(step, step.p))
    ensures var t := Take(s, step);
      && |t.procs| == |s.procs|
      && if Scanning(s.procs[step.p].stage) then t.procs[step.p].stage == s.procs[step.p].stage
         else Within(0, t.procs[step.p].stage) && !t.procs[step.p].stage.ReparentWake?
  {
    hide LookAt, HandedOver, WakeEntry;
    if Scanning(s.procs[step.p].stage) { assert step.Preempt? || step.Dispatch? || step.Kill?; }
  }

  lemma OtherStage(s: State, step: Step, q: nat)
    requires Enabled(s, step) && q < |s.procs| && step.p != q
    ensures var t := Take(s, step);
      && |t.procs| == |s.procs|
      && (t.procs[q].stage == s.procs[q].stage ||
            (t.procs[q].stage == User && s.procs[q].status in {Unused, Zombie}))
  {
    hide LookAt, HandedOver;
    if step.Look? { OtherLook(s, step.p, step.copied, q); }
    if step.ReparentOne? && s.procs[step.p].stage.i < |s.procs| {
      OtherHandOver(s, step.p, s.procs[step.p].stage.i, q);
    }
  }

  lemma OtherLook(s: State, p: nat, copied: bool, q: nat)
    requires Enabled(s, Look(p, copied)) && q < |s.procs| && p != q
    ensures var st := s.procs[p].stage; var t := LookAt(s, p, st.i, st.kids, copied);
      && |t.procs| == |s.procs|
      && (t.procs[q].stage == s.procs[q].stage || (t.procs[q].stage == User && s.procs[q].status == Zombie))
  {
  }

  lemma OtherHandOver(s: State, p: nat, i: nat, q: nat)
    requires p < |s.procs| && i < |s.procs| && q < |s.procs| && p != q
    ensures var t := HandedOver(s, p, i); |t.procs| == |s.procs| && t.procs[q].stage == s.procs[q].stage
  {
  }

  lemma AheadReparent(n: nat, i: nat)
    ensures i < n ==> (n + 1 - i) * (n + 3) == (n - i) * (n + 3) + n + 3
    ensures i == n ==> (n + 1 - i) * (n + 3) == n + 3
  {
  }

  /** kill marks the process and makes a sleeper runnable. */
  lemma KillMarks(s: State, p: nat)
    requires Enabled(s, Kill(p))
    ensures var x := Take(s, Kill(p)).procs[p];
      x.killed && x.status != Sleeping && (s.procs[p].status != Sleeping ==> x.status == s.procs[p].status)
  {
  }

  /** What fork amounts to when nobody comes between: a runnable child with a new pid, and the caller its parent. */
  lemma ForkMakesChild(s: State, p: nat, np: nat, t: State)
    requires p != np && Runs(s, [Fork(p, np), SetParent(p), MakeRunnable(p)], t)
    ensures p < |s.procs| && np < |s.procs| && t.nextPid == s.nextPid + 1
    ensures t.procs == s.procs[np := s.procs[np].(status := Runnable, pid := s.nextPid, parent := Some(p))]
  {
    hide Runs;
    RunsFirst(s, [Fork(p, np), SetParent(p), MakeRunnable(p)], t);
    var a := Take(s, Fork(p, np));
    assert [Fork(p, np), SetParent(p), MakeRunnable(p)][1..] == [SetParent(p), MakeRunnable(p)];
    RunsFirst(a, [SetParent(p), MakeRunnable(p)], t);
    var b := Take(a, SetParent(p));
    assert [SetParent(p), MakeRunnable(p)][1..] == [MakeRunnable(p)];
    RunsFirst(b, [MakeRunnable(p)], t);
  }

  lemma RunsFirst(s: State, steps: seq<Step>, t: State)
    requires steps != [] && Runs(s, steps, t)
    ensures Enabled(s, steps[0]) && Runs(Take(s, steps[0]), steps[1..], t)
    ensures |steps| == 1 ==> t == Take(s, steps[0])
  {
  }

  // ---- wait_lock is never stuck ----

  predicate LockFits(s: State) {
    s.waitLock.Some? ==> s.waitLock.value < |s.procs| && HasWaitLock(s.procs[s.waitLock.value].stage)
  }

  lemma OwnLockFits(s: State, step: Step)
    requires Enabled(s, step) && (s.waitLock == Some(step.p) ==> HasWaitLock(s.procs[step.p].stage))
    ensures var t := Take(s, step);
      && step.p < |t.procs| == |s.procs| && (t.waitLock == s.waitLock || t.waitLock in {None, Some(step.p)})
      && (t.waitLock == Some(step.p) ==> HasWaitLock(t.procs[step.p].stage))
  {
    hide HandedOver, WakeEntry;
    if step.ReparentOne? || step.WakeInitOne? || step.WakeParentOne? { ExitKeepsLock(s, step); }
  }

  lemma ExitKeepsLock(s: State, step: Step)
    requires Enabled(s, step) && (step.ReparentOne? || step.WakeInitOne? || step.WakeParentOne?)
    ensures var t := Take(s, step);
      |t.procs| == |s.procs| && t.waitLock == s.waitLock && HasWaitLock(t.procs[step.p].stage)
  {
    hide LookAt;
  }

  lemma StepKeepsLock(s: State, step: Step)
    requires Inv(s) && LockFits(s) && Enabled(s, step)
    ensures LockFits(Take(s, step))
  {
    hide Inv, Take, Enabled;
    OwnLockFits(s, step);
    if s.waitLock.Some? && s.waitLock.value != step.p {
      LockRuns(s, s.waitLock.value);
      OtherStage(s, step, s.waitLock.value);
    }
  }

  lemma LockRuns(s: State, p: nat)
    requires Inv(s) && p < |s.procs| && HasWaitLock(s.procs[p].stage)
    ensures s.procs[p].status == Running && s.waitLock == Some(p)
    ensures s.procs[p].stage.ExitWake? ==> s.procs[p].parent.Some?
  {
    assert One(s, p);
  }

  lemma {:induction false} RunKeepsLock(s: State, steps: seq<Step>, t: State)
    requires Inv(s) && LockFits(s) && Runs(s, steps, t)
    ensures Inv(t) && LockFits(t)
    decreases |steps|
  {
    hide Inv, LockFits, Take, Enabled;
    if steps != [] {
      StepKeepsInv(s, steps[0]);
      StepKeepsLock(s, steps[0]);
      RunKeepsLock(Take(s, steps[0]), steps[1..], t);
    }
  }

  /** Over every run from boot: whoever has wait_lock can go on, or another can that holds its own lock for a moment. */
  lemma WaitLockMoves(s: State, steps: seq<Step>, t: State) returns (step: Step)
    requires Boot(s) && Runs(s, steps, t) && t.waitLock.Some?
    ensures Enabled(t, step) && (OwnStep(step, t.waitLock.value) || step.SwitchOff? || step.Doze?)
  {
    hide Inv, Enabled, Runs;
    BootInv(s);
    RunKeepsLock(s, steps, t);
    step := HolderMoves(t, t.waitLock.value);
  }

  lemma HolderMoves(t: State, p: nat) returns (step: Step)
    requires Inv(t) && p < |t.procs| && t.waitLock == Some(p) && HasWaitLock(t.procs[p].stage)
    ensures Enabled(t, step) && (OwnStep(step, p) || step.SwitchOff? || step.Doze?)
  {
    LockRuns(t, p);
    var st, n := t.procs[p].stage, |t.procs|;
    var at := if st.ReparentWake? || st.ExitWake? then st.j else if st.WaitScan? then st.i else n;
    if !Free(t, p, at) {
      step := LockHolderMoves(t, p, at);
    } else {
      hide Inv;
      step := match st
        case Reparent(_) => ReparentOne(p)
        case ReparentWake(_, _) => WakeInitOne(p)
        case ExitWake(j) => if j < n then WakeParentOne(p) else Die(p, 0)
        case WaitScan(i, _) => if i < n then Look(p, true) else ScanEnd(p)
        case _ => DropWaitLock(p);
    }
  }

  lemma LockHolderMoves(t: State, p: nat, q: nat) returns (step: Step)
    requires Inv(t) && p < |t.procs| && t.waitLock == Some(p) && !Free(t, p, q)
    ensures Enabled(t, step) && (step.SwitchOff? || step.Doze?)
  {
    assert One(t, q);
    step := if t.procs[q].stage.ExitLast? then SwitchOff(q) else Doze(q);
  }
}
