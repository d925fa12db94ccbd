/**
 * commit() of kernel/log.c while other processes go on using the buffer cache:
 * they look blocks up, wait for, fill and release buffers in any interleaving
 * with its stores, but write nothing, since no operation is outstanding.
 */
module CommitRun {
  import opened Blocks
  import opened Options
  import opened BufferCache
  import opened CrashLog
  import opened Log

  /** How far commit() is: k log blocks written; k home blocks written and unpinned; k-th written; erased. */
  datatype Stage = Logging(k: nat) | Installing(k: nat) | Unpinning(k: nat) | Erased

  /** What commit() started from: the cache with the logged blocks lh, and the layout of the log. */
  datatype Job = Job(l: Layout, w: World, lh: seq<nat>)

  /** The cache, commit()'s place, the buffer it changed and did not write yet, and the disks so far. */
  datatype State = State(w: World, stage: Stage, stored: Option<nat>, trace: seq<Disk>)

  datatype Act =
    | Reader(step: Step)          // any step of another process, or of commit(), that changes no contents
    | Copy(src: nat, dst: nat)    // memmove between two buffers
    | Header(dst: nat)            // the header fields
    | Flush                       // bwrite
    | Unpin(b: nat)               // bunpin

  ghost predicate JobOk(j: Job) {
    && Inv(j.w) && Quiet(j.l, j.w.disk) && Loggable(j.l, j.w.disk, j.lh) && j.lh != []
    && j.w.logged.Keys == SeqSet(j.lh)
  }

  ghost function Group(j: Job): Txn
    requires JobOk(j)
  {
    Pending(j.w, j.lh)
  }

  ghost function Head(j: Job): Disk
    requires JobOk(j)
  {
    Headed(j.l, j.w.disk, Group(j))
  }

  ghost predicate StageOk(j: Job, stage: Stage) {
    match stage
    case Logging(k) => k <= |j.lh|
    case Installing(k) => k <= |j.lh|
    case Unpinning(k) => k < |j.lh|
    case Erased => true
  }

  /** The disk, the log and the trace that a stage stands for. */
  ghost function DiskAt(j: Job, stage: Stage): (d: Disk)
    requires JobOk(j) && StageOk(j, stage)
    ensures |d| == |j.w.disk|
  {
    match stage
    case Logging(k) => LogWritten(j.l, j.w.disk, Group(j), k)
    case Installing(k) => Install(j.l, Head(j), j.lh, k)
    case Unpinning(k) => Install(j.l, Head(j), j.lh, k + 1)
    case Erased => Erase(j.l, Install(j.l, Head(j), j.lh, |j.lh|))
  }

  ghost function LoggedAt(j: Job, stage: Stage): map<nat, Entry>
    requires StageOk(j, stage)
  {
    match stage
    case Logging(_) => j.w.logged
    case Installing(k) => j.w.logged - SeqSet(j.lh[..k])
    case Unpinning(k) => j.w.logged - SeqSet(j.lh[..k])
    case Erased => j.w.logged - SeqSet(j.lh[..|j.lh|])
  }

  /** How many of the writes of CommitTrace were made. */
  ghost function WritesAt(j: Job, stage: Stage): nat {
    match stage
    case Logging(k) => k
    case Installing(k) => |j.lh| + 1 + k
    case Unpinning(k) => |j.lh| + 2 + k
    case Erased => 2 * |j.lh| + 2
  }

  /** The block that the next write goes to. */
  ghost function Target(j: Job, stage: Stage): nat
    requires StageOk(j, stage)
  {
    match stage
    case Logging(k) => if k < |j.lh| then j.l.start + k + 1 else j.l.start
    case Installing(k) => if k < |j.lh| then j.lh[k] else j.l.start
    case _ => j.l.start
  }

  /** The block whose contents it copies. */
  ghost function Source(j: Job, stage: Stage): nat
    requires StageOk(j, stage)
  {
    match stage
    case Logging(k) => if k < |j.lh| then j.lh[k] else j.l.start
    case Installing(k) => j.l.start + k + 1
    case _ => j.l.start
  }

  /** What it puts there, on disk d. */
  ghost function New(j: Job, stage: Stage, d: Disk): Block
    requires JobOk(j) && StageOk(j, stage) && |d| == |j.w.disk|
  {
    match stage
    case Logging(k) => if k < |j.lh| then Group(j).contents[k] else PutHeader(d[j.l.start], j.lh)
    case Installing(k) => if k < |j.lh| then d[j.l.start + k + 1] else PutHeader(d[j.l.start], [])
    case _ => PutHeader(d[j.l.start], [])
  }

  ghost function After(j: Job, stage: Stage): Stage {
    match stage
    case Logging(k) => if k < |j.lh| then Logging(k + 1) else Installing(0)
    case Installing(k) => if k < |j.lh| then Unpinning(k) else Erased
    case _ => stage
  }

  predicate Writing(stage: Stage) {
    stage.Logging? || stage.Installing?
  }

  // ---- The stages follow commit's trace ----

  lemma NextLogging(j: Job, k: nat)
    requires JobOk(j) && k <= |j.lh|
    ensures var d := DiskAt(j, Logging(k));
      DiskAt(j, After(j, Logging(k))) == d[Target(j, Logging(k)) := New(j, Logging(k), d)]
  {
    hide Inv, View, PutHeader;
  }

  lemma NextInstalling(j: Job, k: nat)
    requires JobOk(j) && k <= |j.lh|
    ensures var d := DiskAt(j, Installing(k));
      DiskAt(j, After(j, Installing(k))) == d[Target(j, Installing(k)) := New(j, Installing(k), d)]
  {
    hide Inv, View, PutHeader, Headed;
  }

  lemma NextDisk(j: Job, stage: Stage)
    requires JobOk(j) && StageOk(j, stage) && Writing(stage)
    ensures Target(j, stage) < |j.w.disk| && StageOk(j, After(j, stage))
    ensures DiskAt(j, After(j, stage)) == DiskAt(j, stage)[Target(j, stage) := New(j, stage, DiskAt(j, stage))]
    ensures LoggedAt(j, After(j, stage)) == LoggedAt(j, stage)
    ensures WritesAt(j, After(j, stage)) == WritesAt(j, stage) + 1
  {
    hide Inv, DiskAt, New;
    match stage {
      case Logging(k) =>
        NextLogging(j, k);
        assert j.lh[..0] == [];
      case Installing(k) =>
        NextInstalling(j, k);
        assert j.lh[..|j.lh|] == j.lh;
    }
  }

  lemma LogStageInTrace(j: Job, k: nat)
    requires JobOk(j) && k <= |j.lh|
    ensures var tr := CommitTrace(j.l, j.w.disk, Group(j)); k < |tr| && tr[k] == LogWritten(j.l, j.w.disk, Group(j), k)
  {
    hide Inv, View, Install, Headed, Erase, LogWritten, CommitTrace;
    CommitEntry(j.l, j.w.disk, Group(j), k);
  }

  lemma HomeStageInTrace(j: Job, k: nat)
    requires JobOk(j) && k <= |j.lh|
    ensures var tr := CommitTrace(j.l, j.w.disk, Group(j));
      |tr| == 2 * |j.lh| + 3 && tr[|j.lh| + 1 + k] == Install(j.l, Head(j), j.lh, k)
  {
    hide Inv, View, LogWritten, Headed, Erase, Install, CommitTrace;
    CommitEntry(j.l, j.w.disk, Group(j), k);
  }

  /** The disk of a stage is the entry of CommitTrace after its writes. */
  lemma StageInTrace(j: Job, stage: Stage)
    requires JobOk(j) && StageOk(j, stage)
    ensures var tr := CommitTrace(j.l, j.w.disk, Group(j));
      |tr| == 2 * |j.lh| + 3 && tr[WritesAt(j, stage)] == DiskAt(j, stage)
  {
    hide Inv, View, LogWritten, Install, Headed, Erase;
    HomeStageInTrace(j, 0);
    match stage {
      case Logging(k) => LogStageInTrace(j, k);
      case Installing(k) => HomeStageInTrace(j, k);
      case Unpinning(k) => HomeStageInTrace(j, k + 1);
      case Erased =>
    }
  }

  lemma TraceGrows(tr: seq<Disk>, m: nat)
    requires m + 1 < |tr|
    ensures Writes(tr, m + 1) == Writes(tr, m) + [tr[m + 1]]
  {
  }

  // ---- What the other processes can do ----

  predicate ReadsOnly(s: Step) {
    s.GetStep? || s.LockStep? || s.FillStep? || s.UnlockStep? || s.PutStep?
  }

  /** The buffer holds unwritten contents of commit(). */
  predicate Holds(w: World, b: nat, n: nat, d: Block) {
    && b < |w.slots| && w.slots[b].touched && w.slots[b].buf.valid && Caches(w.slots[b].buf, n)
    && w.slots[b].buf.data == d
  }

  /** A buffer that its holder changed cannot be unlocked, refilled or recycled by anybody else. */
  lemma ReaderKeeps(w: World, s: Step, b: nat, n: nat, d: Block)
    requires Inv(w) && Enabled(w, s) && ReadsOnly(s)
    ensures Take(w, s).disk == w.disk && Take(w, s).logged == w.logged
    ensures Holds(w, b, n, d) ==> Holds(Take(w, s), b, n, d)
  {
    hide LruOrder, OneCopy, LogCached;
    if Holds(w, b, n, d) { assert SlotOk(w, w.slots[b]); }
  }

  // ---- Steps ----

  ghost predicate Ok(j: Job, c: State) {
    && JobOk(j) && StageOk(j, c.stage) && Inv(c.w)
    && c.w.disk == DiskAt(j, c.stage) && c.w.logged == LoggedAt(j, c.stage)
    && WritesAt(j, c.stage) < |CommitTrace(j.l, j.w.disk, Group(j))|
    && c.trace == Writes(CommitTrace(j.l, j.w.disk, Group(j)), WritesAt(j, c.stage))
    && (c.stored.Some? ==>
          Writing(c.stage) && Holds(c.w, c.stored.value, Target(j, c.stage), New(j, c.stage, c.w.disk)))
  }

  /** commit()'s program: copy, header or write as its stage says, from buffers that are valid and locked. */
  ghost predicate Allowed(j: Job, c: State, a: Act)
    requires Ok(j, c)
  {
    match a
    case Reader(s) => ReadsOnly(s) && Enabled(c.w, s)
    case Copy(src, dst) =>
      && c.stored == None && Writing(c.stage) && c.stage.k < |j.lh| && src < NBUF && dst < NBUF && src != dst
      && InUse(c.w.slots[src], Source(j, c.stage)) && InUse(c.w.slots[dst], Target(j, c.stage))
    case Header(dst) =>
      && c.stored == None && Writing(c.stage) && c.stage.k == |j.lh| && dst < NBUF
      && InUse(c.w.slots[dst], j.l.start)
    case Flush => c.stored.Some?
    case Unpin(b) => c.stage.Unpinning? && b < NBUF && Caches(c.w.slots[b].buf, j.lh[c.stage.k])
  }

  /** Locked, valid and unchanged by its holder. */
  predicate InUse(s: Slot, n: nat) {
    s.buf.locked && s.buf.valid && !s.touched && Caches(s.buf, n)
  }

  ghost function Next(j: Job, c: State, a: Act): State
    requires Ok(j, c) && Allowed(j, c, a)
  {
    match a
    case Reader(s) => c.(w := Take(c.w, s))
    case Copy(src, dst) => c.(w := Modify(c.w, dst, c.w.slots[src].buf.data), stored := Some(dst))
    case Header(dst) =>
      var d := PutHeader(c.w.slots[dst].buf.data, if c.stage.Logging? then j.lh else []);
      c.(w := Modify(c.w, dst, d), stored := Some(dst))
    case Flush => Flushed(j, c)
    case Unpin(b) => Unpinned(j, c, b)
  }

  /** bunpin of the block that was installed. */
  ghost function Unpinned(j: Job, c: State, b: nat): State
    requires Ok(j, c) && c.stage.Unpinning? && b < NBUF && Caches(c.w.slots[b].buf, j.lh[c.stage.k])
  {
    Unpinnable(j, c, b);
    c.(w := BufferCache.Unpin(c.w, b), stage := Installing(c.stage.k + 1))
  }

  /** bwrite of the buffer that was filled. */
  ghost function Flushed(j: Job, c: State): State
    requires Ok(j, c) && c.stored.Some?
  {
    Flushable(j, c);
    var w' := Write(c.w, c.stored.value);
    State(w', After(j, c.stage), None, c.trace + [w'.disk])
  }

  lemma Flushable(j: Job, c: State)
    requires Ok(j, c) && c.stored.Some?
    ensures c.stored.value < |c.w.slots| && c.w.slots[c.stored.value].buf.blockno < |c.w.disk|
  {
    assert SlotOk(c.w, c.w.slots[c.stored.value]);
  }

  /** bunpin finds its pin, and the logged contents are on disk. */
  lemma Unpinnable(j: Job, c: State, b: nat)
    requires Ok(j, c) && c.stage.Unpinning? && b < NBUF && Caches(c.w.slots[b].buf, j.lh[c.stage.k])
    ensures Enabled(c.w, UnpinStep(b)) && c.w.slots[b].buf.refcnt >= 1
  {
    hide JobOk, DiskAt, LoggedAt, CommitTrace, LruOrder, OneCopy;
    assert SlotOk(c.w, c.w.slots[b]);
    InstalledIsLogged(j, c.stage.k);
  }

  /** The block installed last is still logged, with the contents that are now on disk. */
  lemma InstalledIsLogged(j: Job, k: nat)
    requires JobOk(j) && k < |j.lh|
    ensures var d, logged := DiskAt(j, Unpinning(k)), LoggedAt(j, Unpinning(k));
      j.lh[k] < |d| && j.lh[k] in logged && logged[j.lh[k]].data == d[j.lh[k]]
  {
    hide Inv, Headed, View;
    CommitReady(j.w, j.l, j.lh);
    InstallReady(j.l, Head(j), j.lh, j.w.logged, k, false);
  }

  // ---- Every interleaving follows CommitTrace ----

  lemma ReaderStep(j: Job, c: State, s: Step)
    requires Ok(j, c) && Allowed(j, c, Reader(s))
    ensures Ok(j, Next(j, c, Reader(s)))
  {
    hide Inv, DiskAt, New, CommitTrace, Loggable, Take;
    var b := if c.stored.Some? then c.stored.value else 0;
    ReaderKeeps(c.w, s, b, Target(j, c.stage), New(j, c.stage, c.w.disk));
  }

  /** A valid buffer that its holder did not change shows the view of its block. */
  lemma InUseShowsView(w: World, b: nat, n: nat)
    requires Inv(w) && b < NBUF && InUse(w.slots[b], n)
    ensures n < |w.disk| && w.slots[b].buf.data == View(w, n)
  {
    assert SlotOk(w, w.slots[b]);
  }

  /** What commit() copies is what its stage needs, whatever others did to the cache meanwhile. */
  lemma CopyIsNew(j: Job, c: State, src: nat)
    requires Ok(j, c) && Writing(c.stage) && c.stage.k < |j.lh|
    requires src < NBUF && InUse(c.w.slots[src], Source(j, c.stage))
    ensures c.w.slots[src].buf.data == New(j, c.stage, c.w.disk)
  {
    hide Inv, DiskAt, CommitTrace, Headed, Install, PutHeader;
    var n := Source(j, c.stage);
    InUseShowsView(c.w, src, n);
    CommitReady(j.w, j.l, j.lh);
    match c.stage {
      case Logging(k) => assert n in SeqSet(j.lh);
      case Installing(k) => assert InLog(j.l, n);
    }
  }

  lemma HeaderIsNew(j: Job, c: State, dst: nat)
    requires Ok(j, c) && Writing(c.stage) && c.stage.k == |j.lh| && dst < NBUF && InUse(c.w.slots[dst], j.l.start)
    ensures |j.lh| <= LOGSIZE
    ensures PutHeader(c.w.slots[dst].buf.data, if c.stage.Logging? then j.lh else []) == New(j, c.stage, c.w.disk)
  {
    InUseShowsView(c.w, dst, j.l.start);
    CommitReady(j.w, j.l, j.lh);
  }

  lemma StoreStep(j: Job, c: State, dst: nat, d: Block)
    requires Ok(j, c) && Writing(c.stage) && dst < NBUF && InUse(c.w.slots[dst], Target(j, c.stage))
    requires d == New(j, c.stage, c.w.disk)
    ensures Ok(j, c.(w := Modify(c.w, dst, d), stored := Some(dst)))
  {
    hide LruOrder, OneCopy, LogCached, DiskAt, New, CommitTrace, Loggable;
    ModifyKeepsInv(c.w, dst, d);
  }

  lemma FlushStep(j: Job, c: State)
    requires Ok(j, c) && c.stored.Some?
    ensures Ok(j, Flushed(j, c))
  {
    hide LruOrder, OneCopy, LogCached, DiskAt, New, CommitTrace, Loggable;
    Flushable(j, c);
    WriteKeepsInv(c.w, c.stored.value);
    NextDisk(j, c.stage);
    StageInTrace(j, After(j, c.stage));
    TraceGrows(CommitTrace(j.l, j.w.disk, Group(j)), WritesAt(j, c.stage));
  }

  lemma UnpinnedLog(j: Job, k: nat)
    requires JobOk(j) && k < |j.lh|
    ensures LoggedAt(j, Unpinning(k)) - {j.lh[k]} == LoggedAt(j, Installing(k + 1))
  {
    hide Inv, Headed, Install, View;
    CommitReady(j.w, j.l, j.lh);
    InstallReady(j.l, Head(j), j.lh, j.w.logged, k, false);
  }

  lemma UnpinStepOk(j: Job, c: State, b: nat)
    requires Ok(j, c) && c.stage.Unpinning? && b < NBUF && Caches(c.w.slots[b].buf, j.lh[c.stage.k])
    ensures Ok(j, Unpinned(j, c, b))
  {
    hide Inv, New, CommitTrace, Loggable, LoggedAt;
    Unpinnable(j, c, b);
    UnpinOk(c.w, b);
    UnpinnedLog(j, c.stage.k);
  }

  lemma UnpinOk(w: World, b: nat)
    requires Inv(w) && Enabled(w, UnpinStep(b))
    ensures b < |w.slots| && w.slots[b].buf.refcnt >= 1 && w.slots[b].pins >= 1 && Inv(BufferCache.Unpin(w, b))
    ensures BufferCache.Unpin(w, b).disk == w.disk
    ensures BufferCache.Unpin(w, b).logged == w.logged - {w.slots[b].buf.blockno}
  {
    UnpinKeepsInv(w, b);
  }

  lemma SlotCount(w: World)
    requires Inv(w)
    ensures |w.slots| == NBUF
  {
  }

  lemma ActKeepsOk(j: Job, c: State, a: Act)
    requires Ok(j, c) && Allowed(j, c, a)
    ensures Ok(j, Next(j, c, a))
  {
    hide Inv, DiskAt, New, CommitTrace, Loggable, JobOk, LoggedAt, Take, Write, Modify, BufferCache.Unpin;
    SlotCount(c.w);
    match a {
      case Reader(s) => ReaderStep(j, c, s);
      case Copy(src, dst) =>
        CopyIsNew(j, c, src);
        StoreStep(j, c, dst, c.w.slots[src].buf.data);
      case Header(dst) =>
        HeaderIsNew(j, c, dst);
        StoreStep(j, c, dst, PutHeader(c.w.slots[dst].buf.data, if c.stage.Logging? then j.lh else []));
      case Flush => FlushStep(j, c);
      case Unpin(b) => UnpinStepOk(j, c, b);
    }
  }

  ghost predicate Runs(j: Job, c: State, acts: seq<Act>, e: State)
    decreases |acts|
  {
    if acts == [] then e == c
    else Ok(j, c) && Allowed(j, c, acts[0]) && Runs(j, Next(j, c, acts[0]), acts[1..], e)
  }

  lemma {:induction false} RunKeepsOk(j: Job, c: State, acts: seq<Act>, e: State)
    requires Ok(j, c) && Runs(j, c, acts, e)
    ensures Ok(j, e)
    decreases |acts|
  {
    hide Ok, Allowed, Next;
    if acts != [] {
      ActKeepsOk(j, c, acts[0]);
      RunKeepsOk(j, Next(j, c, acts[0]), acts[1..], e);
    }
  }

  lemma StartOk(j: Job)
    requires JobOk(j)
    ensures Ok(j, State(j.w, Logging(0), None, []))
  {
    hide Inv, Loggable;
    StageInTrace(j, Logging(0));
    assert Writes(CommitTrace(j.l, j.w.disk, Group(j)), 0) == [];
  }

  /**
   * Under every interleaving with processes that do not write: the disks that
   * commit() leaves, one per write, are a first part of CommitTrace, so a crash
   * at any moment meets the recovery theorem; and when it has erased the header,
   * nothing is logged any more and every home block is as the cache showed it.
   */
  lemma CommitFollowsTrace(j: Job, acts: seq<Act>, e: State)
    requires JobOk(j) && Runs(j, State(j.w, Logging(0), None, []), acts, e)
    ensures StageOk(j, e.stage)
    ensures var tr := CommitTrace(j.l, j.w.disk, Group(j)); var m := WritesAt(j, e.stage);
      m < |tr| && e.trace == Writes(tr, m) && e.w.disk == tr[m]
    ensures e.stage == Erased ==> e.w.logged == map[] && Quiet(j.l, e.w.disk) && |e.w.disk| == |j.w.disk|
    ensures e.stage == Erased ==>
      forall n :: 0 <= n < |j.w.disk| && !InLog(j.l, n) ==> e.w.disk[n] == View(j.w, n)
  {
    hide Inv, Loggable, CommitTrace, Install, Headed, Erase, View;
    StartOk(j);
    RunKeepsOk(j, State(j.w, Logging(0), None, []), acts, e);
    StageInTrace(j, e.stage);
    CommitShowsView(j.w, j.l, j.lh);
    assert j.lh[..|j.lh|] == j.lh;
  }

  /** A crash during it, at any point of any interleaving, leaves all of the group or nothing of it after recovery. */
  lemma CrashDuringCommit(j: Job, acts: seq<Act>, e: State)
    requires JobOk(j) && Runs(j, State(j.w, Logging(0), None, []), acts, e)
    ensures TxnOk(j.l, j.w.disk, Group(j)) && WellFormed(j.l, e.w.disk)
    ensures e.stage.Logging? ==> SameHome(j.l, j.w.disk, Recovered(j.l, e.w.disk))
    ensures !e.stage.Logging? ==> Applied(j.l, j.w.disk, Group(j), Recovered(j.l, e.w.disk))
  {
    hide Inv, Loggable, CommitTrace, Install, Headed, Erase, View;
    CommitFollowsTrace(j, acts, e);
    CommitIsAtomic(j.l, j.w.disk, Group(j), WritesAt(j, e.stage));
  }

  // ---- And commit() gets on ----

  /** How many acts commit() has ahead: two for each log block and header, three for each home block. */
  ghost function Ahead(n: nat, stage: Stage, stored: bool): int {
    (match stage
     case Logging(k) => 2 * (n - k) + 3 * n + 4
     case Installing(k) => 3 * (n - k) + 2
     case Unpinning(k) => 3 * (n - k)
     case Erased => 0)
    - if stored then 1 else 0
  }

  /** Those of its acts that are not readers' or its own lookups. */
  ghost function OwnActs(acts: seq<Act>): nat {
    if acts == [] then 0 else (if acts[0].Reader? then 0 else 1) + OwnActs(acts[1..])
  }

  lemma ActAdvances(j: Job, c: State, a: Act)
    requires Ok(j, c) && Allowed(j, c, a)
    ensures var c' := Next(j, c, a);
      Ahead(|j.lh|, c'.stage, c'.stored.Some?) ==
      Ahead(|j.lh|, c.stage, c.stored.Some?) - if a.Reader? then 0 else 1
  {
    hide JobOk, DiskAt, LoggedAt, New, Target, CommitTrace, Inv, Take, Write, Modify, BufferCache.Unpin, PutHeader;
  }

  /** However readers interleave, a commit of n blocks is done after exactly 5 n + 4 acts of its own. */
  lemma CommitTakesExactly(j: Job, acts: seq<Act>, e: State)
    requires JobOk(j) && Runs(j, State(j.w, Logging(0), None, []), acts, e)
    ensures OwnActs(acts) <= 5 * |j.lh| + 4
    ensures e.stage == Erased <==> OwnActs(acts) == 5 * |j.lh| + 4
  {
    hide JobOk, Runs, OwnActs, DiskAt, LoggedAt, New, Target, CommitTrace;
    StartOk(j);
    RunKeepsOk(j, State(j.w, Logging(0), None, []), acts, e);
    ActsAhead(j, State(j.w, Logging(0), None, []), acts, e);
  }

  lemma {:induction false} ActsAhead(j: Job, c: State, acts: seq<Act>, e: State)
    requires Ok(j, c) && Runs(j, c, acts, e)
    ensures Ahead(|j.lh|, e.stage, e.stored.Some?) + OwnActs(acts) == Ahead(|j.lh|, c.stage, c.stored.Some?)
    decreases |acts|
  {
    hide Ok, Allowed, Next, Ahead;
    if acts != [] {
      ActKeepsOk(j, c, acts[0]);
      ActAdvances(j, c, acts[0]);
      ActsAhead(j, Next(j, c, acts[0]), acts[1..], e);
    }
  }
}
