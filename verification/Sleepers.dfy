/**
 * Sleep-locks (kernel/sleeplock.c) and binary semaphores (kernel/proc.c) over
 * sleep and wakeup, as a system of lock-level steps.  Any number of processes,
 * sleep-locks and semaphores run together.  A sleep-lock has a spinlock of its
 * own and wakes while it holds it; the semaphores share bsem_lock and wake after
 * giving it up.
 */
module Sleepers {
  import opened Options

  datatype Kind = SleepLock | Semaphore

  /**
   * `guard` is the spinlock over the other fields.  `used` and `id` are those of
   * struct semaphore; a sleep-lock is always used.  `owner` is lk->pid of a
   * sleep-lock; for a semaphore it only records who completed the last down.
   */
  datatype Obj = Obj(kind: Kind, guard: nat, used: bool, id: int, locked: bool, owner: Option<nat>)

  datatype Call = AcquireSleep(o: nat) | ReleaseSleep(o: nat) | Down(id: int) | Up(id: int) | Alloc | Free(id: int)

  /** Where a process is.  It holds the guard from Enters to its leaving, but not from Parks to Wakes. */
  datatype Stage =
    | Away                           // in other code
    | Wants(call: Call)              // spinning for the guard
    | Enters(call: Call)             // has the guard, before the body
    | Retests(o: nat)                // has the guard again, back at the while test
    | Commits(o: nat)                // found it locked: calls sleep
    | Locks(o: nat)                  // in sleep: has p->lock and the guard
    | Parks(o: nat)                  // has p->lock, gave up the guard
    | Sleeps(o: nat)                 // SLEEPING, p->chan is the object
    | Wakes(o: nat)                  // made runnable, wants the guard again
    | Scans(o: nat, next: nat)       // in wakeup, at process number next
    | Leaves(guard: nat)             // about to release the guard

  datatype State = State(
    bsem: nat,                       // the number of bsem_lock among the spinlocks
    objs: seq<Obj>,
    spin: map<nat, nat>,             // the spinlocks that are held, and by whom
    stages: seq<Stage>,
    held: seq<set<nat>>,             // history: what each process took and did not give back
    nextId: int)

  ghost predicate Sane(s: State) {
    && |s.held| == |s.stages| && s.nextId > 0
    && forall o :: 0 <= o < |s.objs| ==> ObjOk(s, o)
  }

  ghost predicate ObjOk(s: State, o: nat)
    requires o < |s.objs|
  {
    var x := s.objs[o];
    && (x.kind == SleepLock ==> x.used && x.guard != s.bsem)
    && (x.kind == Semaphore ==> x.guard == s.bsem && (x.used <==> x.id != 0))
  }

  /** The guard a process holds at a stage, if any. */
  function GuardAt(s: State, st: Stage): Option<nat> {
    match st
    case Enters(call) => GuardOf(s, call)
    case Retests(o) => GuardOfObj(s, o)
    case Commits(o) => GuardOfObj(s, o)
    case Locks(o) => GuardOfObj(s, o)
    case Scans(o, _) => if o < |s.objs| && s.objs[o].kind == SleepLock then GuardOfObj(s, o) else None
    case Leaves(g) => Some(g)
    case _ => None
  }

  function GuardOfObj(s: State, o: nat): Option<nat> {
    if o < |s.objs| then Some(s.objs[o].guard) else None
  }

  function GuardOf(s: State, call: Call): Option<nat> {
    match call
    case AcquireSleep(o) => GuardOfObj(s, o)
    case ReleaseSleep(o) => GuardOfObj(s, o)
    case _ => Some(s.bsem)
  }

  /** Past the first test of acquiresleep or bsem_down, and not through it. */
  predicate Waiting(st: Stage) {
    st.Retests? || st.Commits? || st.Locks? || st.Parks? || st.Sleeps? || st.Wakes?
  }

  // ---- The invariant of the spinlocks ----

  /** Stages that run under a guard have it, and whoever is on its way into sleep still finds its object locked. */
  ghost predicate ProcOk(s: State, p: nat)
    requires p < |s.stages|
  {
    var st := s.stages[p];
    && CallOk(s, st)
    && (GuardAt(s, st).Some? ==> HasSpin(s, GuardAt(s, st).value, p))
    && (Waiting(st) ==> st.o < |s.objs| && (st.Commits? || st.Locks? ==> s.objs[st.o].locked))
  }

  predicate HasSpin(s: State, g: nat, p: nat) {
    g in s.spin && s.spin[g] == p
  }

  /** Sleep-lock calls name a sleep-lock; semaphore calls take any id. */
  ghost predicate CallOk(s: State, st: Stage) {
    match st
    case Wants(call) => CallFits(s, call)
    case Enters(call) => CallFits(s, call)
    case Scans(o, next) => o < |s.objs| && next <= |s.stages|
    case _ => true
  }

  ghost predicate CallFits(s: State, call: Call) {
    match call
    case AcquireSleep(o) => o < |s.objs| && s.objs[o].kind == SleepLock
    case ReleaseSleep(o) => o < |s.objs| && s.objs[o].kind == SleepLock
    case _ => true
  }

  ghost predicate Inv(s: State) {
    && Sane(s)
    && forall p :: 0 <= p < |s.stages| ==> ProcOk(s, p)
  }

  // ---- Steps ----

  /** Runs of bodies between two lock operations; `p` acts, except that Kill(p) is done to p. */
  datatype Step =
    | Invoke(p: nat, call: Call)
    | Enter(p: nat)                  // acquire of the guard, first time or after waking
    | Body(p: nat)                   // the code under the guard
    | LockSelf(p: nat)               // sleep: acquire p->lock
    | Release(p: nat)                // sleep: release the guard
    | Park(p: nat)                   // sleep: state = SLEEPING, and sched gives up p->lock
    | Scan(p: nat)                   // wakeup: one process
    | Leave(p: nat)                  // release the guard and return
    | Kill(p: nat)                   // kill makes a sleeper runnable

  function Find(objs: seq<Obj>, id: int, needLocked: bool, from: nat): (r: Option<nat>)
    ensures r.Some? ==> from <= r.value < |objs| && Match(objs[r.value], id, needLocked)
    ensures forall o :: from <= o < (if r.Some? then r.value else |objs|) ==> !Match(objs[o], id, needLocked)
    decreases |objs| - from
  {
    if from >= |objs| then None
    else if Match(objs[from], id, needLocked) then Some(from)
    else Find(objs, id, needLocked, from + 1)
  }

  predicate Match(x: Obj, id: int, needLocked: bool) {
    x.kind == Semaphore && x.id == id && (needLocked ==> x.locked)
  }

  function FindUnused(objs: seq<Obj>, from: nat): (r: Option<nat>)
    ensures r.Some? ==> from <= r.value < |objs| && objs[r.value].kind == Semaphore && !objs[r.value].used
    ensures forall o :: from <= o < (if r.Some? then r.value else |objs|) ==>
      !(objs[o].kind == Semaphore && !objs[o].used)
    decreases |objs| - from
  {
    if from >= |objs| then None
    else if objs[from].kind == Semaphore && !objs[from].used then Some(from)
    else FindUnused(objs, from + 1)
  }

  /** The while test: sleep if locked, else take it. */
  function TryTake(s: State, p: nat, o: nat): State
    requires p < |s.stages| == |s.held| && o < |s.objs|
  {
    if s.objs[o].locked then s.(stages := s.stages[p := Commits(o)])
    else s.(
      objs := s.objs[o := s.objs[o].(locked := true, owner := Some(p))],
      stages := s.stages[p := Leaves(s.objs[o].guard)],
      held := s.held[p := s.held[p] + {o}])
  }

  /** Clearing the lock word, with what follows at stage `next`. */
  function Clear(s: State, p: nat, o: nat, next: Stage): State
    requires p < |s.stages| == |s.held| && o < |s.objs|
  {
    s.(objs := s.objs[o := s.objs[o].(locked := false, owner := None)],
       stages := s.stages[p := next],
       held := s.held[p := s.held[p] - {o}])
  }

  function BodyOf(s: State, p: nat, call: Call): State
    requires p < |s.stages| == |s.held|
    requires call.AcquireSleep? || call.ReleaseSleep? ==> call.o < |s.objs|
  {
    var gone := s.(stages := s.stages[p := Leaves(s.bsem)]);
    match call
    case AcquireSleep(o) => TryTake(s, p, o)
    case ReleaseSleep(o) => Clear(s, p, o, Scans(o, 0))
    case Down(id) =>
      (match Find(s.objs, id, false, 0)
       case None => gone
       case Some(o) => TryTake(s, p, o))
    case Up(id) =>
      (match Find(s.objs, id, true, 0)
       case None => gone
       case Some(o) => Clear(s, p, o, Scans(o, 0)).(spin := s.spin - {s.bsem}))
    case Alloc =>
      (match FindUnused(s.objs, 0)
       case None => gone
       case Some(o) =>
         var t := Clear(s, p, o, Leaves(s.bsem));
         t.(objs := t.objs[o := t.objs[o].(used := true, id := s.nextId)], nextId := s.nextId + 1))
    case Free(id) =>
      (match Find(s.objs, id, false, 0)
       case None => gone
       case Some(o) =>
         var t := Clear(s, p, o, Leaves(s.bsem));
         t.(objs := t.objs[o := t.objs[o].(used := false, id := 0)]))
  }

  ghost predicate Enabled(s: State, step: Step)
    requires Sane(s)
  {
    && step.p < |s.stages|
    && var st := s.stages[step.p];
    match step
    case Invoke(_, call) => st == Away && CallFits(s, call)
    case Enter(_) =>
      || (st.Wants? && CallFits(s, st.call) && GuardOf(s, st.call).value !in s.spin)
      || (st.Wakes? && st.o < |s.objs| && s.objs[st.o].guard !in s.spin)
    case Body(_) => (st.Enters? && CallFits(s, st.call)) || (st.Retests? && st.o < |s.objs|)
    case LockSelf(_) => st.Commits?
    case Release(_) => st.Locks? && st.o < |s.objs|
    case Park(_) => st.Parks?
    case Scan(p) =>
      st.Scans? && st.o < |s.objs| && (st.next < |s.stages| && st.next != p ==> !HoldsSelf(s.stages[st.next]))
    case Leave(_) => st.Leaves?
    case Kill(_) => st.Sleeps?
  }

  /** A process that holds its own p->lock, which wakeup has to wait for. */
  predicate HoldsSelf(st: Stage) {
    st.Locks? || st.Parks?
  }

  /** One process seen by wakeup. */
  function ScanOne(s: State, p: nat): State
    requires p < |s.stages| && s.stages[p].Scans? && s.stages[p].o < |s.objs|
  {
    var Scans(o, i) := s.stages[p];
    if i >= |s.stages| then
      s.(stages := s.stages[p := if s.objs[o].kind == SleepLock then Leaves(s.objs[o].guard) else Away])
    else
      var t := s.(stages := s.stages[p := Scans(o, i + 1)]);
      if i != p && s.stages[i] == Sleeps(o) then t.(stages := t.stages[i := Wakes(o)]) else t
  }

  function Take(s: State, step: Step): State
    requires Sane(s) && Enabled(s, step)
  {
    var p := step.p;
    var st := s.stages[p];
    match step
    case Invoke(_, call) => s.(stages := s.stages[p := Wants(call)])
    case Enter(_) =>
      if st.Wants? then
        s.(stages := s.stages[p := Enters(st.call)], spin := s.spin[GuardOf(s, st.call).value := p])
      else
        s.(stages := s.stages[p := Retests(st.o)], spin := s.spin[s.objs[st.o].guard := p])
    case Body(_) => if st.Enters? then BodyOf(s, p, st.call) else TryTake(s, p, st.o)
    case LockSelf(_) => s.(stages := s.stages[p := Locks(st.o)])
    case Release(_) => s.(stages := s.stages[p := Parks(st.o)], spin := s.spin - {s.objs[st.o].guard})
    case Park(_) => s.(stages := s.stages[p := Sleeps(st.o)])
    case Scan(_) => ScanOne(s, p)
    case Leave(_) => s.(stages := s.stages[p := Away], spin := s.spin - {st.guard})
    case Kill(_) => s.(stages := s.stages[p := Wakes(st.o)])
  }

  // ---- Every step keeps the invariant ----

  /** Steps of one process that change no object. */
  lemma StageStep(s: State, t: State, p: nat)
    requires Inv(s) && p < |s.stages|
    requires |t.stages| == |s.stages| && t == s.(stages := s.stages[p := t.stages[p]], spin := t.spin)
    requires ProcOk(t, p)
    requires forall g, q :: q != p && HasSpin(s, g, q) ==> HasSpin(t, g, q)
    ensures Inv(t)
  {
    assert forall o :: 0 <= o < |s.objs| ==> ObjOk(s, o) ==> ObjOk(t, o);
    forall q | 0 <= q < |t.stages| && q != p ensures ProcOk(t, q) { assert ProcOk(s, q); }
  }

  /** Writes to one object under its guard. */
  lemma ObjStep(s: State, t: State, p: nat, o: nat)
    requires Inv(s) && p < |s.stages| && o < |s.objs| && |t.objs| == |s.objs| && |t.stages| == |s.stages|
    requires t == s.(objs := s.objs[o := t.objs[o]], stages := s.stages[p := t.stages[p]],
                     spin := t.spin, held := t.held, nextId := t.nextId)
    requires ProcOk(t, p) && ObjOk(t, o) && |t.held| == |s.held| && t.nextId > 0
    requires t.objs[o].kind == s.objs[o].kind && t.objs[o].guard == s.objs[o].guard
    requires HasSpin(s, s.objs[o].guard, p)
    requires forall g, q :: q != p && HasSpin(s, g, q) ==> HasSpin(t, g, q)
    ensures Inv(t)
  {
    forall x | 0 <= x < |t.objs| ensures ObjOk(t, x) { assert ObjOk(s, x); }
    forall q | 0 <= q < |t.stages| && q != p ensures ProcOk(t, q) { assert ProcOk(s, q); }
  }

  lemma TakeStep(s: State, p: nat, o: nat)
    requires Inv(s) && p < |s.stages| && o < |s.objs| && HasSpin(s, s.objs[o].guard, p)
    ensures Inv(TryTake(s, p, o))
  {
    assert ObjOk(s, o);
    var t := TryTake(s, p, o);
    if s.objs[o].locked { StageStep(s, t, p); } else { ObjStep(s, t, p, o); }
  }

  lemma BodyStep(s: State, p: nat)
    requires Inv(s) && Enabled(s, Body(p)) && s.stages[p].Enters?
    ensures Inv(Take(s, Body(p)))
  {
    var call := s.stages[p].call;
    var t := Take(s, Body(p));
    assert ProcOk(s, p);
    match call {
      case AcquireSleep(o) => TakeStep(s, p, o);
      case ReleaseSleep(o) =>
        assert ObjOk(s, o);
        ObjStep(s, t, p, o);
      case Down(id) =>
        var r := Find(s.objs, id, false, 0);
        if r.Some? {
          assert ObjOk(s, r.value);
          TakeStep(s, p, r.value);
        } else {
          StageStep(s, t, p);
        }
      case _ => SemaphoreStep(s, p);
    }
  }

  lemma SemaphoreStep(s: State, p: nat)
    requires Inv(s) && Enabled(s, Body(p)) && s.stages[p].Enters?
    requires s.stages[p].call.Up? || s.stages[p].call.Alloc? || s.stages[p].call.Free?
    ensures Inv(Take(s, Body(p)))
  {
    var t := Take(s, Body(p));
    var o := Clears(s, Body(p));
    assert ProcOk(s, p);
    if o.Some? {
      assert ObjOk(s, o.value);
      ObjStep(s, t, p, o.value);
    } else {
      StageStep(s, t, p);
    }
  }

  lemma ScanStep(s: State, p: nat)
    requires Inv(s) && Enabled(s, Scan(p))
    ensures Inv(Take(s, Scan(p)))
  {
    var t := Take(s, Scan(p));
    var Scans(o, i) := s.stages[p];
    assert ProcOk(s, p) && ObjOk(s, o);
    if i < |s.stages| && i != p && s.stages[i] == Sleeps(o) {
      var u := s.(stages := s.stages[i := Wakes(o)]);
      assert ProcOk(s, i);
      StageStep(s, u, i);
      assert t.stages == u.stages[p := Scans(o, i + 1)];
      StageStep(u, t, p);
    } else {
      StageStep(s, t, p);
    }
  }

  lemma StepKeepsInv(s: State, step: Step)
    requires Inv(s) && Enabled(s, step)
    ensures Inv(Take(s, step))
  {
    var p := step.p;
    assert ProcOk(s, p);
    match step {
      case Body(_) =>
        if s.stages[p].Enters? { BodyStep(s, p); } else { TakeStep(s, p, s.stages[p].o); }
      case Scan(_) => ScanStep(s, p);
      case _ => StageStep(s, Take(s, step), p);
    }
  }

  // ---- Lost sleepers ----

  /** A scan of o that has not passed process p yet. */
  ghost predicate ScanAhead(s: State, o: nat, p: nat) {
    exists r :: 0 <= r < |s.stages| && ScansAt(s.stages[r], o, p)
  }

  predicate ScansAt(st: Stage, o: nat, p: nat) {
    st.Scans? && st.o == o && st.next <= p
  }

  /** Asleep on o, or past the point where only a wakeup can stop it from going to sleep. */
  predicate AsleepOn(st: Stage, o: nat) {
    st == Parks(o) || st == Sleeps(o)
  }

  /** p sleeps on a free object, and no wakeup is on its way to it. */
  ghost predicate Lost(s: State, o: nat, p: nat)
    requires o < |s.objs| && p < |s.stages|
  {
    AsleepOn(s.stages[p], o) && !s.objs[o].locked && !ScanAhead(s, o, p)
  }

  ghost predicate NobodyLost(s: State, o: nat)
    requires o < |s.objs|
  {
    forall p :: 0 <= p < |s.stages| ==> !Lost(s, o, p)
  }

  /** The object whose lock word a step clears, if any. */
  function Clears(s: State, step: Step): Option<nat> {
    if step.Body? && step.p < |s.stages| && s.stages[step.p].Enters? then
      match s.stages[step.p].call
      case ReleaseSleep(o) => Some(o)
      case Up(id) => Find(s.objs, id, true, 0)
      case Free(id) => Find(s.objs, id, false, 0)
      case Alloc => FindUnused(s.objs, 0)
      case _ => None
    else None
  }

  /** bsem_free and bsem_alloc clear the lock word and wake nobody. */
  predicate Silent(s: State, step: Step) {
    step.p < |s.stages| && s.stages[step.p].Enters? && (s.stages[step.p].call.Free? || s.stages[step.p].call.Alloc?)
  }

  /** The step silently clears o while somebody sleeps on it whom no pending wakeup will reach. */
  ghost predicate Strands(s: State, step: Step, o: nat) {
    && Clears(s, step) == Some(o) && Silent(s, step)
    && exists q :: 0 <= q < |s.stages| && Uncovered(s, o, q)
  }

  ghost predicate Uncovered(s: State, o: nat, q: nat)
    requires q < |s.stages|
  {
    AsleepOn(s.stages[q], o) && !ScanAhead(s, o, q)
  }

  lemma StillAhead(s: State, t: State, o: nat, p: nat)
    requires |t.stages| == |s.stages|
    requires forall r :: 0 <= r < |s.stages| && ScansAt(s.stages[r], o, p) ==> ScansAt(t.stages[r], o, p)
    ensures ScanAhead(s, o, p) ==> ScanAhead(t, o, p)
  {
    if ScanAhead(s, o, p) {
      var r :| 0 <= r < |s.stages| && ScansAt(s.stages[r], o, p);
      assert ScansAt(t.stages[r], o, p);
    }
  }

  /** Steps that leave the lock word of o alone or set it. */
  lemma QuietStep(s: State, step: Step, o: nat)
    requires Inv(s) && Enabled(s, step) && o < |s.objs| && NobodyLost(s, o)
    requires Clears(s, step) != Some(o) && !step.Scan?
    ensures NobodyLost(Take(s, step), o)
  {
    var t := Take(s, step);
    assert ProcOk(s, step.p);
    forall p | 0 <= p < |t.stages| ensures !Lost(t, o, p) {
      assert !Lost(s, o, p);
      StillAhead(s, t, o, p);
    }
  }

  /** wakeup passes a process only after making it runnable if it sleeps on the object. */
  lemma ScanLosesNobody(s: State, r: nat, o: nat)
    requires Inv(s) && Enabled(s, Scan(r)) && o < |s.objs| && NobodyLost(s, o)
    ensures NobodyLost(Take(s, Scan(r)), o)
  {
    var t := Take(s, Scan(r));
    assert ProcOk(s, r);
    forall p | 0 <= p < |t.stages| ensures !Lost(t, o, p) {
      assert !Lost(s, o, p);
      if AsleepOn(t.stages[p], o) { StillAhead(s, t, o, p); }
    }
  }

  /** A clearing step of releasesleep or bsem_up starts a scan of everybody. */
  lemma LoudStep(s: State, step: Step, o: nat)
    requires Inv(s) && Enabled(s, step) && Clears(s, step) == Some(o) && !Silent(s, step)
    ensures o < |s.objs| && NobodyLost(Take(s, step), o)
  {
    var t := Take(s, step);
    assert ProcOk(s, step.p);
    assert t.stages[step.p] == Scans(o, 0);
    forall p | 0 <= p < |t.stages| ensures !Lost(t, o, p) { assert ScansAt(t.stages[step.p], o, p); }
  }

  lemma SilentStep(s: State, step: Step, o: nat)
    requires Inv(s) && Enabled(s, step) && Clears(s, step) == Some(o) && Silent(s, step)
    ensures o < |s.objs|
    ensures NobodyLost(Take(s, step), o) <==> forall q :: 0 <= q < |s.stages| ==> !Uncovered(s, o, q)
  {
    var t := Take(s, step);
    assert ProcOk(s, step.p);
    forall q | 0 <= q < |s.stages| ensures Lost(t, o, q) <==> Uncovered(s, o, q) {
      StillAhead(s, t, o, q);
      StillAhead(t, s, o, q);
    }
  }

  /** One step loses a sleeper of o exactly when it clears o silently under one that no wakeup will reach. */
  lemma StepLosesExactlyByStranding(s: State, step: Step, o: nat)
    requires Inv(s) && Enabled(s, step) && o < |s.objs| && NobodyLost(s, o)
    ensures NobodyLost(Take(s, step), o) <==> !Strands(s, step, o)
  {
    if Clears(s, step) == Some(o) {
      if Silent(s, step) { SilentStep(s, step, o); } else { LoudStep(s, step, o); }
    } else if step.Scan? {
      ScanLosesNobody(s, step.p, o);
    } else {
      QuietStep(s, step, o);
    }
  }

  // ---- Runs ----

  /** Nothing locked, every process elsewhere. */
  ghost predicate Start(s: State) {
    && Sane(s) && s.spin == map[]
    && (forall p :: 0 <= p < |s.stages| ==> s.stages[p] == Away && s.held[p] == {})
    && (forall o :: 0 <= o < |s.objs| ==> !s.objs[o].locked && s.objs[o].owner == None)
  }

  /** The run of `steps` from s is possible and ends in t. */
  ghost predicate Runs(s: State, steps: seq<Step>, t: State)
    decreases |steps|
  {
    if steps == [] then t == s
    else Sane(s) && Enabled(s, steps[0]) && Runs(Take(s, steps[0]), steps[1..], t)
  }

  /** In every state of the run, nobody is lost on o. */
  ghost predicate NeverLost(s: State, steps: seq<Step>, o: nat)
    decreases |steps|
  {
    && o < |s.objs| && NobodyLost(s, o)
    && (steps != [] && Sane(s) && Enabled(s, steps[0]) ==> NeverLost(Take(s, steps[0]), steps[1..], o))
  }

  /** Some step of the run strands a sleeper of o. */
  ghost predicate RunStrands(s: State, steps: seq<Step>, o: nat)
    decreases |steps|
  {
    && steps != [] && Sane(s) && Enabled(s, steps[0])
    && (Strands(s, steps[0], o) || RunStrands(Take(s, steps[0]), steps[1..], o))
  }

  lemma StartInv(s: State)
    requires Start(s)
    ensures Inv(s) && forall o :: 0 <= o < |s.objs| ==> NobodyLost(s, o)
  {
    forall p | 0 <= p < |s.stages| ensures ProcOk(s, p) { assert s.stages[p] == Away; }
  }

  lemma SameInBody(s: State, p: nat, call: Call)
    requires p < |s.stages| == |s.held|
    requires call.AcquireSleep? || call.ReleaseSleep? ==> call.o < |s.objs|
    ensures var t := BodyOf(s, p, call); |t.objs| == |s.objs| && |t.stages| == |s.stages|
    ensures var t := BodyOf(s, p, call); forall o :: 0 <= o < |s.objs| ==> t.objs[o].kind == s.objs[o].kind
  {
  }

  lemma SameObjects(s: State, step: Step)
    requires Sane(s) && Enabled(s, step)
    ensures |Take(s, step).objs| == |s.objs| && |Take(s, step).stages| == |s.stages|
    ensures forall o :: 0 <= o < |s.objs| ==> Take(s, step).objs[o].kind == s.objs[o].kind
  {
    hide BodyOf, ObjOk;
    if step.Body? && s.stages[step.p].Enters? { SameInBody(s, step.p, s.stages[step.p].call); }
  }

  lemma {:induction false} RunLosesExactlyByStranding(s: State, steps: seq<Step>, t: State, o: nat)
    requires Inv(s) && Runs(s, steps, t) && o < |s.objs| && NobodyLost(s, o)
    ensures NeverLost(s, steps, o) <==> !RunStrands(s, steps, o)
    decreases |steps|
  {
    hide Inv, Enabled, Take, Strands, NobodyLost;
    if steps != [] {
      var u := Take(s, steps[0]);
      StepKeepsInv(s, steps[0]);
      SameObjects(s, steps[0]);
      StepLosesExactlyByStranding(s, steps[0], o);
      if NobodyLost(u, o) {
        RunLosesExactlyByStranding(u, steps[1..], t, o);
      } else {
        assert Strands(s, steps[0], o);
      }
    }
  }

  /**
   * Over all interleavings from the start: no process is ever left asleep on a
   * free object without a wakeup on its way, if and only if no bsem_free or
   * bsem_alloc clears the object under a sleeper that no wakeup will reach.
   */
  lemma NoLostWakeup(s: State, steps: seq<Step>, t: State, o: nat)
    requires Start(s) && Runs(s, steps, t) && o < |s.objs|
    ensures NeverLost(s, steps, o) <==> !RunStrands(s, steps, o)
  {
    StartInv(s);
    RunLosesExactlyByStranding(s, steps, t, o);
  }

  lemma {:induction false} RunKeepsInv(s: State, steps: seq<Step>, t: State)
    requires Inv(s) && Runs(s, steps, t)
    ensures Inv(t)
    decreases |steps|
  {
    hide Inv, Enabled, Take;
    if steps != [] {
      StepKeepsInv(s, steps[0]);
      RunKeepsInv(Take(s, steps[0]), steps[1..], t);
    }
  }

  lemma {:induction false} SleepLockNeverStranded(s: State, steps: seq<Step>, o: nat)
    requires o < |s.objs| && s.objs[o].kind == SleepLock
    ensures !RunStrands(s, steps, o)
    decreases |steps|
  {
    if steps != [] && Sane(s) && Enabled(s, steps[0]) {
      SameObjects(s, steps[0]);
      SleepLockNeverStranded(Take(s, steps[0]), steps[1..], o);
    }
  }

  /** For a sleep-lock, which is only released with a wakeup, every run is safe. */
  lemma NoLostWakeupOnSleepLock(s: State, steps: seq<Step>, t: State, o: nat)
    requires Start(s) && Runs(s, steps, t) && o < |s.objs| && s.objs[o].kind == SleepLock
    ensures NeverLost(s, steps, o)
  {
    SleepLockNeverStranded(s, steps, o);
    NoLostWakeup(s, steps, t, o);
  }

  /** Spinlocks exclude: at most one process is inside each guard. */
  lemma GuardsExclude(s: State, steps: seq<Step>, t: State, p: nat, q: nat)
    requires Start(s) && Runs(s, steps, t) && p < |t.stages| && q < |t.stages|
    requires GuardAt(t, t.stages[p]).Some? && GuardAt(t, t.stages[p]) == GuardAt(t, t.stages[q])
    ensures p == q
  {
    StartInv(s);
    RunKeepsInv(s, steps, t);
    assert ProcOk(t, p) && ProcOk(t, q);
  }

  // ---- Callers that keep runs safe ----

  /** What a caller can see to: ids that bsem_alloc returned, and bsem_free only when nobody is inside bsem_down. */
  ghost predicate Careful(s: State, step: Step) {
    && (step.Invoke? ==> step.call !in {Down(0), Up(0), Free(0)})
    && (Silent(s, step) && s.stages[step.p].call.Free? ==>
          var r := Clears(s, step); r.Some? ==> NoWaiters(s, r.value))
  }

  ghost predicate NoWaiters(s: State, o: nat) {
    forall p :: 0 <= p < |s.stages| && Waiting(s.stages[p]) ==> s.stages[p].o != o
  }

  /** Waiters wait for live objects, and no call on its way names id 0. */
  ghost predicate Live(s: State) {
    forall p :: 0 <= p < |s.stages| ==> LiveAt(s, p)
  }

  predicate LiveAt(s: State, p: nat)
    requires p < |s.stages|
  {
    var st := s.stages[p];
    && (Waiting(st) ==> st.o < |s.objs| && s.objs[st.o].used)
    && (st.Wants? || st.Enters? ==> st.call !in {Down(0), Up(0), Free(0)})
  }

  lemma UnusedHasNoWaiters(s: State, o: nat)
    requires Live(s) && o < |s.objs| && !s.objs[o].used
    ensures NoWaiters(s, o)
  {
    forall p | 0 <= p < |s.stages| && Waiting(s.stages[p]) ensures s.stages[p].o != o { assert LiveAt(s, p); }
  }

  lemma FoundIsLive(s: State, p: nat)
    requires Inv(s) && Live(s) && p < |s.stages| && s.stages[p].Enters?
    ensures s.stages[p].call.AcquireSleep? ==> s.stages[p].call.o < |s.objs| && s.objs[s.stages[p].call.o].used
    ensures s.stages[p].call.Down? ==>
      var r := Find(s.objs, s.stages[p].call.id, false, 0); r.Some? ==> s.objs[r.value].used
  {
    assert ProcOk(s, p) && LiveAt(s, p);
    match s.stages[p].call {
      case AcquireSleep(o) => assert ObjOk(s, o);
      case Down(id) =>
        var r := Find(s.objs, id, false, 0);
        if r.Some? { assert ObjOk(s, r.value); }
      case _ =>
    }
  }

  lemma CarefulClear(s: State, step: Step)
    requires Inv(s) && Live(s) && Enabled(s, step) && Careful(s, step) && Silent(s, step)
    ensures var c := Clears(s, step); c.Some? ==> NoWaiters(s, c.value)
  {
    var c := Clears(s, step);
    if c.Some? && s.stages[step.p].call.Alloc? { UnusedHasNoWaiters(s, c.value); }
  }

  lemma CarefulBody(s: State, p: nat)
    requires Inv(s) && Live(s) && Enabled(s, Body(p)) && Careful(s, Body(p)) && s.stages[p].Enters?
    ensures Live(Take(s, Body(p)))
  {
    var t := Take(s, Body(p));
    assert ProcOk(s, p) && LiveAt(s, p);
    if Silent(s, Body(p)) { CarefulClear(s, Body(p)); }
    FoundIsLive(s, p);
    forall q | 0 <= q < |t.stages| ensures LiveAt(t, q) { assert LiveAt(s, q); }
  }

  lemma CarefulStep(s: State, step: Step, o: nat)
    requires Inv(s) && Live(s) && Enabled(s, step) && Careful(s, step)
    ensures Live(Take(s, step)) && !Strands(s, step, o)
  {
    hide BodyOf, Find, FindUnused;
    if Silent(s, step) { CarefulClear(s, step); }
    if step.Body? && s.stages[step.p].Enters? {
      CarefulBody(s, step.p);
    } else {
      var t := Take(s, step);
      assert ProcOk(s, step.p) && LiveAt(s, step.p);
      forall p | 0 <= p < |t.stages| ensures LiveAt(t, p) { assert LiveAt(s, p); }
    }
  }

  ghost predicate CarefulRun(s: State, steps: seq<Step>)
    decreases |steps|
  {
    steps != [] && Sane(s) && Enabled(s, steps[0]) ==> Careful(s, steps[0]) && CarefulRun(Take(s, steps[0]), steps[1..])
  }

  lemma {:induction false} CarefulNeverStrands(s: State, steps: seq<Step>, o: nat)
    requires Inv(s) && Live(s) && CarefulRun(s, steps)
    ensures !RunStrands(s, steps, o)
    decreases |steps|
  {
    hide Inv, Live, Enabled, Take, Strands, Careful;
    if steps != [] && Sane(s) && Enabled(s, steps[0]) {
      CarefulStep(s, steps[0], o);
      StepKeepsInv(s, steps[0]);
      CarefulNeverStrands(Take(s, steps[0]), steps[1..], o);
    }
  }

  /** Careful callers lose nobody, although bsem_up wakes after it dropped its lock. */
  lemma NoLostWakeupForCarefulCallers(s: State, steps: seq<Step>, t: State, o: nat)
    requires Start(s) && Runs(s, steps, t) && CarefulRun(s, steps) && o < |s.objs|
    ensures NeverLost(s, steps, o)
  {
    StartInv(s);
    assert Live(s) by {
      forall p | 0 <= p < |s.stages| ensures LiveAt(s, p) { assert s.stages[p] == Away; }
    }
    CarefulNeverStrands(s, steps, o);
    NoLostWakeup(s, steps, t, o);
  }

  // ---- Mutual exclusion ----

  /** Whatever a process holds is locked, and locked by it. */
  ghost predicate Exclusive(s: State) {
    && |s.held| == |s.stages|
    && (forall p, o :: 0 <= p < |s.held| && o in s.held[p] ==> HeldBy(s, o, p))
    && (forall o :: 0 <= o < |s.objs| && s.objs[o].locked ==> OwnerHolds(s, o))
  }

  predicate HeldBy(s: State, o: nat, p: nat) {
    o < |s.objs| && s.objs[o].locked && s.objs[o].owner == Some(p)
  }

  predicate OwnerHolds(s: State, o: nat)
    requires o < |s.objs|
  {
    s.objs[o].owner.Some? && s.objs[o].owner.value < |s.held| && o in s.held[s.objs[o].owner.value]
  }

  /** The step clears the lock word of an object that another process holds. */
  predicate Robs(s: State, step: Step) {
    var o := Clears(s, step);
    o.Some? && o.value < |s.objs| && s.objs[o.value].locked && step.p < |s.held| && o.value !in s.held[step.p]
  }

  lemma ClearExclusive(s: State, step: Step, o: nat)
    requires Inv(s) && Exclusive(s) && Enabled(s, step) && Clears(s, step) == Some(o)
    ensures Exclusive(Take(s, step)) <==> !Robs(s, step)
  {
    var t, p := Take(s, step), step.p;
    assert ProcOk(s, p);
    assert t.objs == s.objs[o := t.objs[o]] && !t.objs[o].locked;
    if Robs(s, step) {
      assert OwnerHolds(s, o);
      var q := s.objs[o].owner.value;
      assert o in t.held[q] && !HeldBy(t, o, q);
    } else {
      forall q, x | 0 <= q < |t.held| && x in t.held[q] ensures HeldBy(t, x, q) { assert HeldBy(s, x, q); }
      forall x | 0 <= x < |t.objs| && t.objs[x].locked ensures OwnerHolds(t, x) {
        assert OwnerHolds(s, x);
        assert HeldBy(s, x, s.objs[x].owner.value);
      }
    }
  }

  lemma TakeExclusive(s: State, p: nat, o: nat)
    requires Exclusive(s) && p < |s.stages| && o < |s.objs|
    ensures Exclusive(TryTake(s, p, o))
  {
    var t := TryTake(s, p, o);
    forall q, x | 0 <= q < |t.held| && x in t.held[q] ensures HeldBy(t, x, q) {
      if x in s.held[q] { assert HeldBy(s, x, q); }
    }
    forall x | 0 <= x < |t.objs| && t.objs[x].locked ensures OwnerHolds(t, x) {
      if x != o || s.objs[o].locked { assert OwnerHolds(s, x); }
    }
  }

  /** One step keeps mutual exclusion exactly when it clears no lock that another process holds. */
  lemma StepExclusiveExactlyWithoutRobbing(s: State, step: Step)
    requires Inv(s) && Exclusive(s) && Enabled(s, step)
    ensures Exclusive(Take(s, step)) <==> !Robs(s, step)
  {
    var t, p := Take(s, step), step.p;
    assert ProcOk(s, p);
    var c := Clears(s, step);
    if c.Some? {
      ClearExclusive(s, step, c.value);
    } else if step.Body? {
      if s.stages[p].Retests? {
        TakeExclusive(s, p, s.stages[p].o);
      } else if s.stages[p].call.AcquireSleep? {
        TakeExclusive(s, p, s.stages[p].call.o);
      } else if s.stages[p].call.Down? && Find(s.objs, s.stages[p].call.id, false, 0).Some? {
        TakeExclusive(s, p, Find(s.objs, s.stages[p].call.id, false, 0).value);
      } else {
        SameExclusive(s, t);
      }
    } else {
      SameExclusive(s, t);
    }
  }

  lemma SameExclusive(s: State, t: State)
    requires Exclusive(s) && t.objs == s.objs && t.held == s.held && |t.stages| == |s.stages|
    ensures Exclusive(t)
  {
    forall q, x | 0 <= q < |t.held| && x in t.held[q] ensures HeldBy(t, x, q) { assert HeldBy(s, x, q); }
    forall x | 0 <= x < |t.objs| && t.objs[x].locked ensures OwnerHolds(t, x) { assert OwnerHolds(s, x); }
  }

  ghost predicate AlwaysExclusive(s: State, steps: seq<Step>)
    decreases |steps|
  {
    && Exclusive(s)
    && (steps != [] && Sane(s) && Enabled(s, steps[0]) ==> AlwaysExclusive(Take(s, steps[0]), steps[1..]))
  }

  ghost predicate RunRobs(s: State, steps: seq<Step>)
    decreases |steps|
  {
    && steps != [] && Sane(s) && Enabled(s, steps[0])
    && (Robs(s, steps[0]) || RunRobs(Take(s, steps[0]), steps[1..]))
  }

  lemma {:induction false} RunExclusiveExactlyWithoutRobbing(s: State, steps: seq<Step>, t: State)
    requires Inv(s) && Exclusive(s) && Runs(s, steps, t)
    ensures AlwaysExclusive(s, steps) <==> !RunRobs(s, steps)
    ensures AlwaysExclusive(s, steps) ==> Exclusive(t)
    decreases |steps|
  {
    hide Inv, Enabled, Take, Robs, Exclusive;
    if steps != [] {
      var u := Take(s, steps[0]);
      StepKeepsInv(s, steps[0]);
      StepExclusiveExactlyWithoutRobbing(s, steps[0]);
      if Exclusive(u) { RunExclusiveExactlyWithoutRobbing(u, steps[1..], t); } else { assert Robs(s, steps[0]); }
    }
  }

  /** holdingsleep, for process p. */
  predicate HoldingSleep(s: State, o: nat, p: nat)
    requires o < |s.objs|
  {
    s.objs[o].locked && s.objs[o].owner == Some(p)
  }

  /**
   * Over all interleavings from the start, holders exclude each other in every
   * state if and only if no process ever releases, frees or reallocates what
   * another one holds; and then holdingsleep tells exactly who holds what.
   */
  lemma MutualExclusion(s: State, steps: seq<Step>, t: State, o: nat, p: nat, q: nat)
    requires Start(s) && Runs(s, steps, t) && o < |t.objs| && p < |t.held| && q < |t.held|
    ensures AlwaysExclusive(s, steps) <==> !RunRobs(s, steps)
    ensures !RunRobs(s, steps) && o in t.held[p] && o in t.held[q] ==> p == q
    ensures !RunRobs(s, steps) ==> (HoldingSleep(t, o, p) <==> o in t.held[p])
  {
    StartInv(s);
    RunExclusiveExactlyWithoutRobbing(s, steps, t);
    if !RunRobs(s, steps) {
      assert o in t.held[p] ==> HeldBy(t, o, p);
      assert o in t.held[q] ==> HeldBy(t, o, q);
      assert t.objs[o].locked ==> OwnerHolds(t, o);
    }
  }

  // ---- What the semaphore calls do ----

  /** The lowest semaphore with this id, or the lowest locked one. */
  ghost predicate First(objs: seq<Obj>, o: nat, id: int, needLocked: bool) {
    o < |objs| && Match(objs[o], id, needLocked) && forall x :: 0 <= x < o ==> !Match(objs[x], id, needLocked)
  }

  ghost predicate NoneHas(objs: seq<Obj>, id: int, needLocked: bool) {
    forall x :: 0 <= x < |objs| ==> !Match(objs[x], id, needLocked)
  }

  lemma FindsFirst(objs: seq<Obj>, id: int, needLocked: bool, o: nat)
    ensures First(objs, o, id, needLocked) <==> Find(objs, id, needLocked, 0) == Some(o)
    ensures NoneHas(objs, id, needLocked) <==> Find(objs, id, needLocked, 0) == None
  {
  }

  /** bsem_down finds its semaphore: it locks it if it is free, and goes to sleep on it if not. */
  lemma DownBody(s: State, p: nat, id: int, o: nat)
    requires Sane(s) && Enabled(s, Body(p)) && s.stages[p] == Enters(Down(id))
    ensures var t := Take(s, Body(p));
      && (NoneHas(s.objs, id, false) ==> t == s.(stages := s.stages[p := Leaves(s.bsem)]))
      && (First(s.objs, o, id, false) && s.objs[o].locked ==> t == s.(stages := s.stages[p := Commits(o)]))
      && (First(s.objs, o, id, false) && !s.objs[o].locked ==>
            && t.objs == s.objs[o := s.objs[o].(locked := true, owner := Some(p))]
            && t.stages == s.stages[p := Leaves(s.objs[o].guard)] && o in t.held[p])
  {
    FindsFirst(s.objs, id, false, o);
  }

  /** bsem_up clears the lowest locked semaphore with the id and starts to wake its sleepers. */
  lemma UpBody(s: State, p: nat, id: int, o: nat)
    requires Sane(s) && Enabled(s, Body(p)) && s.stages[p] == Enters(Up(id))
    ensures var t := Take(s, Body(p));
      && (NoneHas(s.objs, id, true) ==> t == s.(stages := s.stages[p := Leaves(s.bsem)]))
      && (First(s.objs, o, id, true) ==>
            && t.objs == s.objs[o := s.objs[o].(locked := false, owner := None)]
            && t.stages == s.stages[p := Scans(o, 0)])
  {
    FindsFirst(s.objs, id, true, o);
  }

  /** bsem_free makes the semaphore with the id an unused slot. */
  lemma FreeBody(s: State, p: nat, id: int, o: nat)
    requires Sane(s) && Enabled(s, Body(p)) && s.stages[p] == Enters(Free(id))
    ensures var t := Take(s, Body(p));
      && (NoneHas(s.objs, id, false) ==> t.objs == s.objs)
      && (First(s.objs, o, id, false) ==>
            t.objs == s.objs[o := s.objs[o].(used := false, id := 0, locked := false, owner := None)])
  {
    FindsFirst(s.objs, id, false, o);
  }

  /** bsem_alloc makes the lowest unused slot a semaphore with an id that no other has. */
  lemma AllocBody(s: State, p: nat, o: nat)
    requires Sane(s) && Enabled(s, Body(p)) && s.stages[p] == Enters(Alloc)
    ensures var t := Take(s, Body(p));
      && ((forall x :: 0 <= x < |s.objs| ==> !IsUnused(s.objs[x])) ==> t.objs == s.objs)
      && (o < |s.objs| && IsUnused(s.objs[o]) && (forall x :: 0 <= x < o ==> !IsUnused(s.objs[x])) ==>
            t.objs == s.objs[o := s.objs[o].(used := true, id := s.nextId, locked := false, owner := None)])
  {
    var r := FindUnused(s.objs, 0);
    if r.Some? { assert IsUnused(s.objs[r.value]); }
  }

  /** acquiresleep locks a free sleep-lock and goes to sleep on another's. */
  lemma AcquireBody(s: State, p: nat, o: nat)
    requires Sane(s) && Enabled(s, Body(p)) && s.stages[p] == Enters(AcquireSleep(o))
    ensures var t := Take(s, Body(p));
      if s.objs[o].locked then t == s.(stages := s.stages[p := Commits(o)])
      else
        && t.objs == s.objs[o := s.objs[o].(locked := true, owner := Some(p))]
        && t.stages == s.stages[p := Leaves(s.objs[o].guard)] && o in t.held[p]
  {
  }

  /** releasesleep clears it and starts to wake its sleepers. */
  lemma ReleaseBody(s: State, p: nat, o: nat)
    requires Sane(s) && Enabled(s, Body(p)) && s.stages[p] == Enters(ReleaseSleep(o))
    ensures var t := Take(s, Body(p));
      && t.objs == s.objs[o := s.objs[o].(locked := false, owner := None)] && t.stages == s.stages[p := Scans(o, 0)]
  {
  }

  /** wakeup ends: each of its steps goes one process on, and behind the last it leaves. */
  lemma ScanAdvances(s: State, p: nat)
    requires Sane(s) && Enabled(s, Scan(p))
    ensures var Scans(o, i) := s.stages[p]; var st := Take(s, Scan(p)).stages[p];
      if i < |s.stages| then st == Scans(o, i + 1) else !st.Scans?
  {
  }

  predicate IsUnused(x: Obj) { x.kind == Semaphore && !x.used }

  /** In the run, p itself takes the lock word of o from clear to set, while o has this id. */
  ghost predicate LocksIn(s: State, steps: seq<Step>, p: nat, o: nat, id: int)
    decreases |steps|
  {
    && steps != [] && Sane(s) && Enabled(s, steps[0])
    && var t := Take(s, steps[0]);
    || (steps[0] == Body(p) && LocksNow(s, t, p, o, id))
    || LocksIn(t, steps[1..], p, o, id)
  }

  predicate LocksNow(s: State, t: State, p: nat, o: nat, id: int) {
    && o < |s.objs| == |t.objs| && p < |t.held|
    && !s.objs[o].locked && t.objs[o].locked && s.objs[o].id == t.objs[o].id == id && o in t.held[p]
  }

  /** Some step of the run gives o another id: a bsem_free or bsem_alloc. */
  ghost predicate Renames(s: State, steps: seq<Step>, o: nat)
    decreases |steps|
  {
    && steps != [] && Sane(s) && Enabled(s, steps[0]) && o < |s.objs|
    && var t := Take(s, steps[0]);
    (o < |t.objs| && t.objs[o].id != s.objs[o].id) || Renames(t, steps[1..], o)
  }

  lemma WaitStep(s: State, step: Step, p: nat, o: nat)
    requires Inv(s) && Enabled(s, step) && p < |s.stages| && Waiting(s.stages[p]) && s.stages[p].o == o
    ensures o < |s.objs|
    ensures var t := Take(s, step);
      || (p < |t.stages| && Waiting(t.stages[p]) && t.stages[p].o == o)
      || (step == Body(p) && LocksNow(s, t, p, o, s.objs[o].id))
  {
    assert ProcOk(s, p);
    if step.p != p { assert ProcOk(s, step.p); }
  }

  lemma {:induction false} WaitsForLock(s: State, steps: seq<Step>, t: State, p: nat, o: nat)
    requires Inv(s) && Runs(s, steps, t) && p < |s.stages| && Waiting(s.stages[p]) && s.stages[p].o == o < |s.objs|
    requires p < |t.stages| && t.stages[p].Leaves?
    ensures Renames(s, steps, o) || LocksIn(s, steps, p, o, s.objs[o].id)
    decreases |steps|
  {
    hide Inv, Enabled, Take, LocksNow;
    if steps != [] {
      var u := Take(s, steps[0]);
      StepKeepsInv(s, steps[0]);
      SameObjects(s, steps[0]);
      WaitStep(s, steps[0], p, o);
      if u.objs[o].id == s.objs[o].id && !(steps[0] == Body(p) && LocksNow(s, u, p, o, s.objs[o].id)) {
        WaitsForLock(u, steps[1..], t, p, o);
      }
    }
  }

  /**
   * Over every run from the start: when the bsem_down(id) that p begins at u is
   * about to return, p itself has locked the lowest semaphore with that id,
   * unless there was none, or the semaphore was freed under it.
   */
  lemma DownReturnsWithLock(s: State, before: seq<Step>, u: State, p: nat, id: int, after: seq<Step>, t: State)
    requires Start(s) && Runs(s, before, u) && p < |u.stages| && u.stages[p] == Enters(Down(id))
    requires Runs(u, [Body(p)] + after, t) && p < |t.stages| && t.stages[p].Leaves?
    ensures
      || NoneHas(u.objs, id, false)
      || exists o :: First(u.objs, o, id, false)
                     && (Renames(u, [Body(p)] + after, o) || LocksIn(u, [Body(p)] + after, p, o, id))
  {
    hide Inv, Enabled, Take, LocksNow, First, NoneHas;
    StartInv(s);
    RunKeepsInv(s, before, u);
    var run := [Body(p)] + after;
    assert run[0] == Body(p) && run[1..] == after;
    var o := FirstOf(u.objs, id);
    if First(u.objs, o, id, false) { DownThenLock(u, p, id, o, after, t); }
  }

  /** Over every run from the start: when an acquiresleep is about to return, its process has locked the lock itself. */
  lemma AcquireReturnsWithLock(s: State, before: seq<Step>, u: State, p: nat, o: nat, after: seq<Step>, t: State)
    requires Start(s) && Runs(s, before, u) && p < |u.stages| && u.stages[p] == Enters(AcquireSleep(o)) && o < |u.objs|
    requires Runs(u, [Body(p)] + after, t) && p < |t.stages| && t.stages[p].Leaves?
    ensures LocksIn(u, [Body(p)] + after, p, o, u.objs[o].id)
  {
    hide Inv, Enabled, Take, LocksNow;
    StartInv(s);
    RunKeepsInv(s, before, u);
    assert ([Body(p)] + after)[1..] == after && ([Body(p)] + after)[0] == Body(p);
    AcquireThenLock(u, p, o, after, t);
    SleepLockCall(u, p, o);
    NeverRenamed(u, [Body(p)] + after, o);
  }

  lemma SleepLockCall(u: State, p: nat, o: nat)
    requires Inv(u) && p < |u.stages| && u.stages[p] == Enters(AcquireSleep(o))
    ensures o < |u.objs| && u.objs[o].kind == SleepLock
  {
    assert ProcOk(u, p);
  }

  lemma AcquireThenLock(u: State, p: nat, o: nat, after: seq<Step>, t: State)
    requires Inv(u) && p < |u.stages| && u.stages[p] == Enters(AcquireSleep(o)) && o < |u.objs|
    requires Sane(u) && Enabled(u, Body(p)) && Runs(Take(u, Body(p)), after, t)
    requires p < |t.stages| && t.stages[p].Leaves?
    ensures Renames(u, [Body(p)] + after, o) || LocksIn(u, [Body(p)] + after, p, o, u.objs[o].id)
  {
    var v := Take(u, Body(p));
    AcquireBody(u, p, o);
    StepKeepsInv(u, Body(p));
    assert ([Body(p)] + after)[1..] == after;
    if u.objs[o].locked { WaitsForLock(v, after, t, p, o); } else { assert LocksNow(u, v, p, o, u.objs[o].id); }
  }

  /** No step gives a sleep-lock another id. */
  lemma {:induction false} NeverRenamed(s: State, steps: seq<Step>, o: nat)
    requires o < |s.objs| && s.objs[o].kind == SleepLock
    ensures !Renames(s, steps, o)
    decreases |steps|
  {
    if steps != [] && Sane(s) && Enabled(s, steps[0]) {
      SameObjects(s, steps[0]);
      SameId(s, steps[0], o);
      NeverRenamed(Take(s, steps[0]), steps[1..], o);
    }
  }

  lemma SameId(s: State, step: Step, o: nat)
    requires Sane(s) && Enabled(s, step) && o < |s.objs| && s.objs[o].kind == SleepLock && o < |Take(s, step).objs|
    ensures Take(s, step).objs[o].id == s.objs[o].id
  {
    hide BodyOf, ObjOk;
    if step.Body? && s.stages[step.p].Enters? { SameIdInBody(s, step.p, s.stages[step.p].call, o); }
  }

  lemma SameIdInBody(s: State, p: nat, call: Call, o: nat)
    requires p < |s.stages| == |s.held| && o < |s.objs| && s.objs[o].kind == SleepLock
    requires call.AcquireSleep? || call.ReleaseSleep? ==> call.o < |s.objs|
    ensures o < |BodyOf(s, p, call).objs| && BodyOf(s, p, call).objs[o].id == s.objs[o].id
  {
  }

  lemma FirstOf(objs: seq<Obj>, id: int) returns (o: nat)
    ensures NoneHas(objs, id, false) || First(objs, o, id, false)
  {
    var r := Find(objs, id, false, 0);
    o := if r.Some? then r.value else 0;
    FindsFirst(objs, id, false, o);
  }

  lemma DownThenLock(u: State, p: nat, id: int, o: nat, after: seq<Step>, t: State)
    requires Inv(u) && p < |u.stages| && u.stages[p] == Enters(Down(id)) && First(u.objs, o, id, false)
    requires Sane(u) && Enabled(u, Body(p)) && Runs(Take(u, Body(p)), after, t)
    requires p < |t.stages| && t.stages[p].Leaves?
    ensures Renames(u, [Body(p)] + after, o) || LocksIn(u, [Body(p)] + after, p, o, id)
  {
    var v := Take(u, Body(p));
    DownBody(u, p, id, o);
    StepKeepsInv(u, Body(p));
    assert ([Body(p)] + after)[1..] == after;
    if u.objs[o].locked { WaitsForLock(v, after, t, p, o); } else { assert LocksNow(u, v, p, o, id); }
  }

  // ---- Runs that lose a sleeper ----

  lemma {:induction false} RunsJoin(s: State, a: seq<Step>, t: State, b: seq<Step>, u: State)
    requires Runs(s, a, t) && Runs(t, b, u)
    ensures Runs(s, a + b, u)
    decreases |a|
  {
    if a == [] {
      assert a + b == b;
    } else {
      RunsJoin(Take(s, a[0]), a[1..], t, b, u);
      assert (a + b)[0] == a[0] && (a + b)[1..] == a[1..] + b;
    }
  }

  lemma RunsOne(s: State, step: Step)
    requires Sane(s) && Enabled(s, step)
    ensures Runs(s, [step], Take(s, step))
  {
    assert [step][1..] == [];
  }

  lemma RunsMore(s: State, a: seq<Step>, t: State, step: Step)
    requires Runs(s, a, t) && Sane(t) && Enabled(t, step)
    ensures Runs(s, a + [step], Take(t, step))
  {
    RunsOne(t, step);
    RunsJoin(s, a, t, [step], Take(t, step));
  }

  lemma SaneStages(t: State, u: State)
    requires Sane(t) && u == t.(stages := u.stages, spin := u.spin) && |u.stages| == |t.stages|
    ensures Sane(u)
  {
    forall o | 0 <= o < |u.objs| ensures ObjOk(u, o) { assert ObjOk(t, o); }
  }

  /** Process p gets into the body of a semaphore call. */
  lemma RunsIn(s: State, a: seq<Step>, t: State, p: nat, call: Call) returns (b: seq<Step>, u: State)
    requires Runs(s, a, t) && Sane(t) && p < |t.stages| && t.stages[p] == Away && t.bsem !in t.spin
    requires call.Down? || call.Alloc? || call.Free?
    ensures u == t.(stages := t.stages[p := Enters(call)], spin := t.spin[t.bsem := p])
    ensures Sane(u) && Runs(s, b, u) && Enabled(u, Body(p))
  {
    var v := t.(stages := t.stages[p := Wants(call)]);
    u := t.(stages := t.stages[p := Enters(call)], spin := t.spin[t.bsem := p]);
    SaneStages(t, v);
    SaneStages(t, u);
    RunsMore(s, a, t, Invoke(p, call));
    RunsMore(s, a + [Invoke(p, call)], v, Enter(p));
    b := a + [Invoke(p, call)] + [Enter(p)];
    assert u.stages == v.stages[p := Enters(call)];
  }

  /** Process p calls bsem_down on a locked semaphore and falls asleep. */
  lemma RunsToSleep(s: State, a: seq<Step>, t: State, p: nat, id: int, o: nat) returns (b: seq<Step>)
    requires Runs(s, a, t) && Sane(t) && p < |t.stages| && t.stages[p] == Away && t.spin == map[]
    requires Find(t.objs, id, false, 0) == Some(o) && t.objs[o].locked
    ensures Runs(s, b, t.(stages := t.stages[p := Sleeps(o)]))
  {
    var u;
    b, u := RunsIn(s, a, t, p, Down(id));
    var c := u.(stages := u.stages[p := Commits(o)]);
    var l := u.(stages := u.stages[p := Locks(o)]);
    var k := t.(stages := t.stages[p := Parks(o)]);
    assert ObjOk(t, o);
    SaneStages(u, c);
    SaneStages(u, l);
    SaneStages(t, k);
    RunsMore(s, b, u, Body(p));
    RunsMore(s, b + [Body(p)], c, LockSelf(p));
    assert Take(c, LockSelf(p)) == l;
    RunsMore(s, b + [Body(p)] + [LockSelf(p)], l, Release(p));
    assert Take(l, Release(p)) == k;
    b := b + [Body(p)] + [LockSelf(p)] + [Release(p)];
    RunsMore(s, b, k, Park(p));
    assert Take(k, Park(p)) == t.(stages := t.stages[p := Sleeps(o)]);
    b := b + [Park(p)];
  }

  /** Process p runs a semaphore call to its end, and the call leaves the state u. */
  lemma RunsThrough(s: State, a: seq<Step>, t: State, p: nat, call: Call, u: State) returns (b: seq<Step>)
    requires Runs(s, a, t) && Sane(t) && p < |t.stages| && t.stages[p] == Away && t.spin == map[]
    requires call.Down? || call.Alloc? || call.Free?
    requires Sane(u) && u.stages == t.stages && u.spin == map[] && u.bsem == t.bsem
    requires BodyOf(t.(stages := t.stages[p := Enters(call)], spin := map[t.bsem := p]), p, call)
      == u.(stages := t.stages[p := Leaves(t.bsem)], spin := map[t.bsem := p])
    ensures Runs(s, b, u)
  {
    var v;
    b, v := RunsIn(s, a, t, p, call);
    var w := u.(stages := t.stages[p := Leaves(t.bsem)], spin := map[t.bsem := p]);
    SaneStages(u, w);
    assert v.spin == map[t.bsem := p];
    RunsMore(s, b, v, Body(p));
    RunsMore(s, b + [Body(p)], w, Leave(p));
    assert Take(w, Leave(p)) == u;
    b := b + [Body(p)] + [Leave(p)];
  }

  /** Two processes and one semaphore, bsem_lock free, what process 0 took. */
  function Pair(id: int, locked: bool, owner: Option<nat>, b: Stage, taken: set<nat>, nextId: int): State {
    State(0, [Obj(Semaphore, 0, id != 0, id, locked, owner)], map[], [Away, b], [taken, {}], nextId)
  }

  lemma PairSane(id: int, locked: bool, owner: Option<nat>, b: Stage, taken: set<nat>, nextId: int)
    requires nextId > 0
    ensures Sane(Pair(id, locked, owner, b, taken, nextId))
  {
    assert ObjOk(Pair(id, locked, owner, b, taken, nextId), 0);
  }

  lemma PairLost(id: int, nextId: int)
    ensures Lost(Pair(id, false, None, Sleeps(0), {}, nextId), 0, 1)
  {
  }

  lemma PairSleep(s: State, a: seq<Step>, id: int, owner: Option<nat>, taken: set<nat>, n: int) returns (b: seq<Step>)
    requires n > 0 && Runs(s, a, Pair(id, true, owner, Away, taken, n))
    ensures Runs(s, b, Pair(id, true, owner, Sleeps(0), taken, n))
  {
    var t := Pair(id, true, owner, Away, taken, n);
    PairSane(id, true, owner, Away, taken, n);
    b := RunsToSleep(s, a, t, 1, id, 0);
    assert t.stages[1 := Sleeps(0)] == [Away, Sleeps(0)];
  }

  lemma PairDown(s: State, a: seq<Step>, id: int, other: Stage, n: int) returns (b: seq<Step>)
    requires n > 0 && Runs(s, a, Pair(id, false, None, other, {}, n))
    ensures Runs(s, b, Pair(id, true, Some(0), other, {0}, n))
  {
    var t, u := Pair(id, false, None, other, {}, n), Pair(id, true, Some(0), other, {0}, n);
    PairSane(id, false, None, other, {}, n);
    PairSane(id, true, Some(0), other, {0}, n);
    var v := t.(stages := t.stages[0 := Enters(Down(id))], spin := map[t.bsem := 0]);
    var x := BodyOf(v, 0, Down(id));
    assert x == TryTake(v, 0, 0);
    assert x.held[0] == u.held[0] && x.held[1] == u.held[1];
    assert x.stages == t.stages[0 := Leaves(t.bsem)] && x.objs == u.objs && x.held == u.held;
    b := RunsThrough(s, a, t, 0, Down(id), u);
  }

  lemma PairAlloc(s: State, a: seq<Step>, locked: bool, owner: Option<nat>, other: Stage, taken: set<nat>, n: int)
    returns (b: seq<Step>)
    requires n > 0 && Runs(s, a, Pair(0, locked, owner, other, taken, n)) && taken <= {0}
    ensures Runs(s, b, Pair(n, false, None, other, {}, n + 1))
  {
    var t, u := Pair(0, locked, owner, other, taken, n), Pair(n, false, None, other, {}, n + 1);
    PairSane(0, locked, owner, other, taken, n);
    PairSane(n, false, None, other, {}, n + 1);
    var v := t.(stages := t.stages[0 := Enters(Alloc)], spin := map[t.bsem := 0]);
    var x := BodyOf(v, 0, Alloc);
    assert FindUnused(v.objs, 0) == Some(0);
    assert x.held[0] == u.held[0] && x.held[1] == u.held[1];
    assert x.stages == t.stages[0 := Leaves(t.bsem)] && x.objs == u.objs && x.held == u.held;
    b := RunsThrough(s, a, t, 0, Alloc, u);
  }

  lemma PairFree(s: State, a: seq<Step>, id: int, locked: bool, owner: Option<nat>, other: Stage,
                 taken: set<nat>, n: int)
    returns (b: seq<Step>)
    requires n > 0 && Runs(s, a, Pair(id, locked, owner, other, taken, n)) && taken <= {0}
    ensures Runs(s, b, Pair(0, false, None, other, {}, n))
  {
    var t, u := Pair(id, locked, owner, other, taken, n), Pair(0, false, None, other, {}, n);
    PairSane(id, locked, owner, other, taken, n);
    PairSane(0, false, None, other, {}, n);
    var v := t.(stages := t.stages[0 := Enters(Free(id))], spin := map[t.bsem := 0]);
    var x := BodyOf(v, 0, Free(id));
    assert Find(v.objs, id, false, 0) == Some(0);
    assert x.held[0] == u.held[0] && x.held[1] == u.held[1];
    assert x.stages == t.stages[0 := Leaves(t.bsem)] && x.objs == u.objs && x.held == u.held;
    b := RunsThrough(s, a, t, 0, Free(id), u);
  }

  lemma PairStart()
    ensures Start(Pair(0, false, None, Away, {}, 1))
    ensures Runs(Pair(0, false, None, Away, {}, 1), [], Pair(0, false, None, Away, {}, 1))
  {
    PairSane(0, false, None, Away, {}, 1);
  }

  /** bsem_free loses: process 1 sleeps in bsem_down, process 0 frees the semaphore, and 1 sleeps on. */
  lemma FreeCanStrand() returns (s: State, steps: seq<Step>, t: State)
    ensures Start(s) && Runs(s, steps, t) && |t.objs| == 1 && |t.stages| == 2 && Lost(t, 0, 1)
  {
    hide Runs, Start;
    s := Pair(0, false, None, Away, {}, 1);
    PairStart();
    steps := PairAlloc(s, [], false, None, Away, {}, 1);
    steps := PairDown(s, steps, 1, Away, 2);
    steps := PairSleep(s, steps, 1, Some(0), {0}, 2);
    steps := PairFree(s, steps, 1, true, Some(0), Sleeps(0), {0}, 2);
    t := Pair(0, false, None, Sleeps(0), {}, 2);
    PairLost(0, 2);
  }

  /**
   * So does bsem_alloc, without any bsem_free: an unused semaphore has id 0, so
   * bsem_down(0) locks it, a second one sleeps on it, and bsem_alloc hands it out unlocked.
   */
  lemma AllocCanStrand() returns (s: State, steps: seq<Step>, t: State)
    ensures Start(s) && Runs(s, steps, t) && |t.objs| == 1 && |t.stages| == 2 && t.objs[0].used && Lost(t, 0, 1)
  {
    hide Runs, Start;
    s := Pair(0, false, None, Away, {}, 1);
    PairStart();
    steps := PairDown(s, [], 0, Away, 1);
    steps := PairSleep(s, steps, 0, Some(0), {0}, 1);
    steps := PairAlloc(s, steps, true, Some(0), Sleeps(0), {0}, 1);
    t := Pair(1, false, None, Sleeps(0), {}, 2);
    PairLost(1, 2);
  }

  // ---- No spinlock is left behind ----

  /** Whoever has a spinlock is inside it. */
  ghost predicate SpinFits(s: State) {
    forall g :: g in s.spin ==> s.spin[g] < |s.stages| && GuardAt(s, s.stages[s.spin[g]]) == Some(g)
  }

  /** The spinlocks of objects never change. */
  predicate SameGuards(s: State, t: State) {
    && t.bsem == s.bsem && |t.objs| == |s.objs| && |t.stages| == |s.stages|
    && forall o :: 0 <= o < |s.objs| ==> t.objs[o].guard == s.objs[o].guard && t.objs[o].kind == s.objs[o].kind
  }

  /** What a step of p does to spinlocks: none of another's changes hands, and those of p are where p is. */
  ghost predicate MovesSpin(s: State, t: State, p: nat) {
    && SameGuards(s, t) && p < |t.stages|
    && (forall q :: 0 <= q < |s.stages| && q != p ==>
          t.stages[q] == s.stages[q] || (s.stages[q].Sleeps? && t.stages[q].Wakes?))
    && (forall g :: g in t.spin && t.spin[g] == p ==> GuardAt(t, t.stages[p]) == Some(g))
    && (forall g :: g in t.spin && t.spin[g] != p ==> g in s.spin && s.spin[g] == t.spin[g])
  }

  lemma MovedFits(s: State, t: State, p: nat)
    requires SpinFits(s) && MovesSpin(s, t, p)
    ensures SpinFits(t)
  {
    forall g | g in t.spin ensures t.spin[g] < |t.stages| && GuardAt(t, t.stages[t.spin[g]]) == Some(g) {
      if t.spin[g] != p { assert g in s.spin && GuardAt(s, s.stages[s.spin[g]]) == Some(g); }
    }
  }

  lemma BodyMovesSpin(s: State, p: nat)
    requires Inv(s) && SpinFits(s) && Enabled(s, Body(p)) && s.stages[p].Enters?
    ensures MovesSpin(s, BodyOf(s, p, s.stages[p].call), p)
  {
    assert ProcOk(s, p);
    var call := s.stages[p].call;
    var t := BodyOf(s, p, call);
    hide ObjOk;
    forall g | g in t.spin && t.spin[g] == p ensures GuardAt(t, t.stages[p]) == Some(g) {
      assert g in s.spin && GuardOf(s, call) == Some(g);
      BodyGuard(s, p, call);
    }
  }

  lemma BodyGuard(s: State, p: nat, call: Call)
    requires Sane(s) && p < |s.stages| && CallFits(s, call)
    ensures p < |BodyOf(s, p, call).stages|
    ensures var t := BodyOf(s, p, call);
      if call.Up? && t.stages[p].Scans? then GuardOf(s, call).value !in t.spin
      else GuardAt(t, t.stages[p]) == GuardOf(s, call)
  {
    match call {
      case Down(id) =>
        var f := Find(s.objs, id, false, 0);
        if f.Some? { assert ObjOk(s, f.value); }
      case _ =>
    }
  }

  lemma StepMovesSpin(s: State, step: Step)
    requires Inv(s) && SpinFits(s) && Enabled(s, step)
    ensures MovesSpin(s, Take(s, step), step.p)
  {
    hide BodyOf, ScanOne, MovesSpin, SpinFits;
    if step.Body? {
      if s.stages[step.p].Enters? { BodyMovesSpin(s, step.p); } else { RetestMovesSpin(s, step.p); }
    } else if step.Scan? {
      ScanMovesSpin(s, step.p);
    } else {
      OtherMovesSpin(s, step);
    }
  }

  lemma RetestMovesSpin(s: State, p: nat)
    requires Inv(s) && SpinFits(s) && Enabled(s, Body(p)) && s.stages[p].Retests?
    ensures MovesSpin(s, TryTake(s, p, s.stages[p].o), p)
  {
    hide ObjOk;
    assert ProcOk(s, p);
  }

  lemma ScanMovesSpin(s: State, p: nat)
    requires Inv(s) && SpinFits(s) && Enabled(s, Scan(p))
    ensures MovesSpin(s, ScanOne(s, p), p)
  {
    hide ObjOk;
    assert ProcOk(s, p);
  }

  lemma OtherMovesSpin(s: State, step: Step)
    requires Inv(s) && SpinFits(s) && Enabled(s, step) && !step.Body? && !step.Scan?
    ensures MovesSpin(s, Take(s, step), step.p)
  {
    hide ObjOk, BodyOf, ScanOne;
    assert ProcOk(s, step.p);
  }

  lemma {:induction false} RunKeepsSpin(s: State, steps: seq<Step>, t: State)
    requires Inv(s) && SpinFits(s) && Runs(s, steps, t)
    ensures Inv(t) && SpinFits(t)
    decreases |steps|
  {
    hide Inv, SpinFits, Enabled, Take, MovesSpin;
    if steps != [] {
      StepKeepsInv(s, steps[0]);
      StepMovesSpin(s, steps[0]);
      MovedFits(s, Take(s, steps[0]), steps[0].p);
      RunKeepsSpin(Take(s, steps[0]), steps[1..], t);
    }
  }

  /** Over every run from boot: the holder of a spinlock can go on, or another that has its own lock for a moment. */
  lemma SpinMoves(s: State, steps: seq<Step>, t: State, g: nat) returns (step: Step)
    requires Start(s) && Runs(s, steps, t) && g in t.spin
    ensures Sane(t) && Enabled(t, step) && (step.p == t.spin[g] || step.Release? || step.Park?)
  {
    StartInv(s);
    RunKeepsSpin(s, steps, t);
    step := HolderMoves(t, t.spin[g]);
  }

  lemma HolderMoves(t: State, p: nat) returns (step: Step)
    requires Inv(t) && p < |t.stages| && GuardAt(t, t.stages[p]).Some?
    ensures Enabled(t, step) && (step.p == p || step.Release? || step.Park?)
  {
    assert ProcOk(t, p);
    var st := t.stages[p];
    step := match st
      case Commits(_) => LockSelf(p)
      case Locks(_) => Release(p)
      case Scans(_, _) => Scan(p)
      case Leaves(_) => Leave(p)
      case _ => Body(p);
    if st.Scans? && st.next < |t.stages| && st.next != p && HoldsSelf(t.stages[st.next]) {
      assert ProcOk(t, st.next);
      step := if t.stages[st.next].Locks? then Release(st.next) else Park(st.next);
    }
  }
}
