/**
 * Whole lives of the log: recovery, and then any sequence of operations that
 * begin, change blocks and end, over the buffer cache and the disk.  What
 * readers see and what a crash at any moment leaves are those of a plain array
 * of blocks with an all-or-nothing copy.
 */
module LogRun {
  import opened Blocks
  import opened Options
  import opened BufferCache
  import opened CrashLog
  import A = LogAdmission
  import B = Bcache
  import opened L = Log

  // ---- The plain array ----

  /** Change is bread, a store of new contents, log_write and brelse. */
  datatype Call = Begin(op: nat) | Change(op: nat, n: nat, d: Block) | End(op: nat)

  /** The running operations, each block as it is now, and as it was when last no operation ran. */
  datatype Book = Book(a: A.State, now: seq<Block>, safe: seq<Block>)

  /** Operations change home blocks, within their budget, between their begin and their end. */
  predicate Legal(l: Layout, s: Book, c: Call) {
    match c
    case Begin(op) => op !in s.a.ops
    case Change(op, n, _) => n < |s.now| && !InLog(l, n) && A.Enabled(s.a, A.Write(op, n))
    case End(op) => op in s.a.ops
  }

  /** A begin without room is a sleep; the end of the last operation makes all changes safe. */
  function After(l: Layout, s: Book, c: Call): Book {
    if !Legal(l, s, c) then s else
    match c
    case Begin(op) => if A.Room(s.a) then s.(a := A.Take(s.a, A.Begin(op))) else s
    case Change(op, n, d) => s.(a := A.Take(s.a, A.Write(op, n)), now := s.now[n := d])
    case End(op) =>
      var a := A.Take(s.a, A.End(op));
      if a.committing then Book(A.Take(a, A.CommitDone), s.now, s.now) else s.(a := a)
  }

  /** No panic: the log has room for one more block, and a commit leaves a buffer for its log blocks. */
  predicate Safe(l: Layout, s: Book, c: Call) {
    match c
    case Begin(_) => true
    case Change(_, _, _) => !A.TooBig(l.size, s.a)
    case End(op) => op in s.a.ops && s.a.ops - {op} == map[] ==> |s.a.blocks| < NBUF
  }

  function Play(l: Layout, s: Book, calls: seq<Call>): Book
    decreases |calls|
  {
    if calls == [] then s
    else After(l, Play(l, s, calls[..|calls| - 1]), calls[|calls| - 1])
  }

  predicate LegalRun(l: Layout, s: Book, calls: seq<Call>) {
    forall k :: 0 <= k < |calls| ==> Legal(l, Play(l, s, calls[..k]), calls[k])
  }

  predicate Steady(s: Book) {
    !s.a.committing && (s.a.ops == map[] ==> s.now == s.safe)
  }

  lemma AfterSteady(l: Layout, s: Book, c: Call)
    requires Steady(s)
    ensures var t := After(l, s, c); Steady(t) && (t.safe == s.safe || t.a.ops == map[])
  {
    match c
    case Change(op, n, _) =>
      if Legal(l, s, c) { assert op in s.a.ops && op in After(l, s, c).a.ops; }
    case Begin(op) => assert op in After(l, s, c).a.ops || After(l, s, c) == s;
    case End(_) =>
  }

  /** What is safe is what was there when last no operation ran. */
  lemma {:induction false} SafeIsLastIdle(l: Layout, s: Book, calls: seq<Call>) returns (j: nat)
    requires Steady(s) && s.a.ops == map[]
    ensures Steady(Play(l, s, calls)) && j <= |calls|
    ensures var t := Play(l, s, calls[..j]); t.a.ops == map[] && t.now == Play(l, s, calls).safe
    ensures forall k :: j < k <= |calls| ==> Play(l, s, calls[..k]).a.ops != map[]
    decreases |calls|
  {
    assert calls[..|calls|] == calls;
    if calls == [] { return 0; }
    var m := |calls| - 1;
    var before := calls[..m];
    j := SafeIsLastIdle(l, s, before);
    AfterSteady(l, Play(l, s, before), calls[m]);
    assert before[..j] == calls[..j];
    if Play(l, s, calls).a.ops == map[] { return |calls|; }
    forall k | j < k <= m ensures Play(l, s, calls[..k]).a.ops != map[] { assert before[..k] == calls[..k]; }
  }

  // ---- The log, the cache and the disk ----

  /** Recovery from disk d gives these home blocks. */
  ghost predicate RecoversTo(l: Layout, d: Disk, c: seq<Block>) {
    WellFormed(l, d) && SameHome(l, Recovered(l, d), c)
  }

  /** The cache shows the blocks as they are now, the disk as they are safe. */
  ghost predicate ShowsIn(l: Layout, w: World, s: Book) {
    && Quiet(l, w.disk) && Loggable(l, w.disk, s.a.blocks) && w.logged.Keys == SeqSet(s.a.blocks)
    && SameHome(l, w.disk, s.safe) && |s.now| == |w.disk|
    && forall n :: 0 <= n < |w.disk| && !InLog(l, n) ==> View(w, n) == s.now[n]
  }

  ghost predicate Shows(log: Log, s: Book)
    reads log, log.bc
  {
    log.Admits() && log.Awake() && log.Idle() && log.Admission() == s.a && Steady(s) && ShowsIn(log.l, log.bc.w, s)
  }

  /** The disks written from entry i of the trace on recover to one of two arrays. */
  ghost predicate Leaves(l: Layout, trace: seq<Disk>, i: nat, c: seq<Block>, c': seq<Block>) {
    i <= |trace| && forall k :: i <= k < |trace| ==> RecoversTo(l, trace[k], c) || RecoversTo(l, trace[k], c')
  }

  /** log_write of new contents in a held buffer. */
  lemma ChangeStage(w: World, b: nat, n: nat, d: Block)
    requires Inv(w) && Held(w, b, n)
    ensures n < |w.disk|
    ensures var w' := LogWrite(Modify(w, b, d), b);
      && Inv(w') && w'.disk == w.disk && w'.logged.Keys == w.logged.Keys + {n} && OtherSlotsSame(w, w', b)
      && Held(w', b, n) && !w'.slots[b].touched && View(w', n) == d && w'.slots[b].users == w.slots[b].users
      && forall m :: 0 <= m < |w.disk| && m != n ==> View(w', m) == View(w, m)
  {
    hide LruOrder, OneCopy, LogCached;
    ModifyKeepsInv(w, b, d);
    LogWriteKeepsInv(Modify(w, b, d), b);
  }

  /** A block already listed or one more fits in the log. */
  lemma StillLoggable(l: Layout, d: Disk, lh: seq<nat>, n: nat)
    requires Loggable(l, d, lh) && n < |d| && !InLog(l, n)
    requires n !in lh ==> |lh| < LOGSIZE && |lh| < l.size - 1
    ensures var lh' := if n in lh then lh else lh + [n]; Loggable(l, d, lh') && SeqSet(lh') == SeqSet(lh) + {n}
  {
  }

  lemma SameView(w: World, w': World, n: nat)
    requires w'.disk == w.disk && w'.logged == w.logged && n < |w.disk|
    ensures View(w', n) == View(w, n)
  {
  }

  /** bread of a block and a store to it; then log_write, and brelse.  False is a panic. */
  method ChangeBlock(log: Log, ghost op: nat, n: nat, d: Block) returns (ok: bool)
    requires log.Idle() && n < |log.bc.w.disk| && log.bc.w.logged.Keys == SeqSet(log.lh)
    requires log.Admits() && log.Awake() && A.Enabled(log.Admission(), A.Write(op, n))
    modifies log, log.bc
    ensures log.bc.trace == old(log.bc.trace)
    ensures ok ==> log.Idle() && log.Awake() && log.Steps(A.Write(op, n)) && !A.TooBig(log.l.size, old(log.Admission()))
    ensures ok ==> Changed(old(log.bc.w), log.bc.w, n, d)
    ensures UsedOnly(old(log.bc.w), {}) && Listed(old(log.bc.w), old(log.lh)) ==>
      && (ok <==> !A.TooBig(log.l.size, old(log.Admission()))) && (ok ==> UsedOnly(log.bc.w, {}))
  {
    hide Inv, A.Reachable, A.Enabled, SeqSet, B.Bcache.Valid, View, AllFree, LogWrite, A.Room, A.TooBig;
    hide UsedOnly, Listed;
    ghost var w0 := log.bc.w;
    ListedRoom(log.l.size, w0, log.Admission());
    var r := log.BreadOne(n);
    if r.None? { return false; }
    var b := r.value;
    ghost var w1 := log.bc.w;
    ok := StoreAndLog(log, op, b, n, d);
    if !ok { return false; }
    ghost var w2 := log.bc.w;
    log.BrelseOne(b, n);
    forall m | 0 <= m < |w0.disk| ensures View(log.bc.w, m) == if m == n then d else View(w0, m) {
      SameView(w0, w1, m);
      SameView(w2, log.bc.w, m);
    }
  }

  /** The middle of it: the store and log_write. */
  method StoreAndLog(log: Log, ghost op: nat, b: nat, ghost n: nat, d: Block) returns (ok: bool)
    requires log.bc.Valid() && Inv(log.bc.w) && HoldsOne(log.bc.w, b, n) && log.bc.w.logged.Keys == SeqSet(log.lh)
    requires log.Admits() && log.Awake() && A.Enabled(log.Admission(), A.Write(op, n))
    modifies log, log.bc
    ensures log.bc.trace == old(log.bc.trace) && (ok <==> !A.TooBig(log.l.size, old(log.Admission())))
    ensures ok ==> && log.bc.Valid() && Inv(log.bc.w) && HoldsOne(log.bc.w, b, n) && !log.bc.w.slots[b].touched
                   && log.Awake() && log.Steps(A.Write(op, n)) && Changed(old(log.bc.w), log.bc.w, n, d)
    ensures ok && UsedOnly(old(log.bc.w), {b}) ==> UsedOnly(log.bc.w, {b})
  {
    hide Inv, A.Reachable, A.Enabled, SeqSet, B.Bcache.Valid, View, LogWrite, A.Room, A.TooBig, UsedOnly;
    ghost var w := log.bc.w;
    log.bc.Store(b, d);
    ChangeStage(w, b, n, d);
    ok := log.LogWrite(b, op);
    if ok && UsedOnly(w, {b}) { UsesOne(w, log.bc.w, {b}, b); }
  }

  /** As many blocks are logged as are listed. */
  ghost predicate Listed(w: World, lh: seq<nat>) {
    |w.logged| == |lh|
  }

  /** While the log has room there is a buffer left. */
  lemma ListedRoom(size: int, w: World, a: A.State)
    ensures Listed(w, a.blocks) && !A.TooBig(size, a) ==> |w.logged| < NBUF
  {
  }

  lemma ShownListed(l: Layout, w: World, s: Book)
    requires ShowsIn(l, w, s)
    ensures Listed(w, s.a.blocks)
  {
    CommitBuffers(w, l, s.a.blocks);
  }

  /** Only block n shows something else now. */
  ghost predicate Changed(w: World, w': World, n: nat, d: Block) {
    && n < |w.disk| && w'.disk == w.disk && w'.logged.Keys == w.logged.Keys + {n} && View(w', n) == d
    && forall m :: 0 <= m < |w.disk| && m != n ==> View(w', m) == View(w, m)
  }

  /** A Change on values. */
  lemma ChangeShows(l: Layout, w: World, w': World, s: Book, op: nat, n: nat, d: Block)
    requires ShowsIn(l, w, s) && Legal(l, s, Change(op, n, d)) && Changed(w, w', n, d) && !A.TooBig(l.size, s.a)
    ensures ShowsIn(l, w', After(l, s, Change(op, n, d)))
  {
    hide View, Quiet, InLog, SeqSet, Loggable;
    StillLoggable(l, w.disk, s.a.blocks, n);
  }

  /** Calls that change no block. */
  lemma StillShows(l: Layout, w: World, s: Book, s': Book)
    requires ShowsIn(l, w, s) && s'.a.blocks == s.a.blocks && s'.now == s.now && s'.safe == s.safe
    ensures ShowsIn(l, w, s')
  {
  }

  lemma ShownCommit(l: Layout, w: World, s: Book)
    requires ShowsIn(l, w, s)
    ensures Quiet(l, w.disk) && Loggable(l, w.disk, s.a.blocks) && w.logged.Keys == SeqSet(s.a.blocks)
    ensures |w.disk| == |s.now|
  {
  }

  /** A finished commit on values. */
  lemma CommitShows(l: Layout, w: World, w': World, s: Book, op: nat)
    requires ShowsIn(l, w, s) && Legal(l, s, End(op)) && A.Take(s.a, A.End(op)).committing
    requires w'.logged == map[] && Quiet(l, w'.disk) && |w'.disk| == |w.disk|
    requires forall n :: 0 <= n < |w'.disk| && !InLog(l, n) ==> w'.disk[n] == View(w, n)
    ensures ShowsIn(l, w', After(l, s, End(op)))
  {
  }

  /** A crash in the commit leaves the home blocks as they were safe, or as they are now. */
  lemma CrashLeaves(l: Layout, w: World, s: Book, i: nat)
    requires ShowsIn(l, w, s) && i < |CommitTrace(l, w.disk, Pending(w, s.a.blocks))|
    ensures var d := CommitTrace(l, w.disk, Pending(w, s.a.blocks))[i];
      RecoversTo(l, d, s.safe) || RecoversTo(l, d, s.now)
  {
    hide CommitTrace, Recovered, WellFormed, View;
    var t := Pending(w, s.a.blocks);
    CommitIsAtomic(l, w.disk, t, i);
    if i > |t.blocks| { AppliedIsNow(l, w, s, Recovered(l, CommitTrace(l, w.disk, t)[i])); }
  }

  lemma CommitLeaves(l: Layout, w: World, s: Book, m: nat)
    requires ShowsIn(l, w, s) && m < |CommitTrace(l, w.disk, Pending(w, s.a.blocks))|
    ensures Leaves(l, Writes(CommitTrace(l, w.disk, Pending(w, s.a.blocks)), m), 0, s.safe, s.now)
  {
    hide CommitTrace, RecoversTo;
    var ds := Writes(CommitTrace(l, w.disk, Pending(w, s.a.blocks)), m);
    forall k | 0 <= k < |ds| ensures RecoversTo(l, ds[k], s.safe) || RecoversTo(l, ds[k], s.now) {
      CrashLeaves(l, w, s, k + 1);
    }
  }

  lemma AppliedIsNow(l: Layout, w: World, s: Book, e: Disk)
    requires ShowsIn(l, w, s) && TxnOk(l, w.disk, Pending(w, s.a.blocks))
    requires Applied(l, w.disk, Pending(w, s.a.blocks), e)
    ensures SameHome(l, e, s.now)
  {
    forall n | 0 <= n < |e| && !InLog(l, n) ensures e[n] == s.now[n] {
      if n in s.a.blocks {
        var i :| 0 <= i < |s.a.blocks| && s.a.blocks[i] == n;
        assert e[Pending(w, s.a.blocks).blocks[i]] == View(w, n);
      } else {
        assert n !in w.logged;
      }
    }
  }

  /**
   * One call; false is a panic, which comes exactly when the call is not safe, if
   * nobody else is at a buffer.  A crash in it leaves what was safe before it or
   * what is safe after it.
   */
  method Do(log: Log, c: Call, ghost s: Book) returns (ok: bool)
    requires Shows(log, s) && Legal(log.l, s, c)
    modifies log, log.bc
    ensures ok ==> Shows(log, After(log.l, s, c))
    ensures old(log.bc.trace) <= log.bc.trace
    ensures Leaves(log.l, log.bc.trace, |old(log.bc.trace)|, s.safe, After(log.l, s, c).safe)
    ensures UsedOnly(old(log.bc.w), {}) ==> (ok <==> Safe(log.l, s, c)) && (ok ==> UsedOnly(log.bc.w, {}))
  {
    hide ShowsIn, Inv, A.Reachable, B.Bcache.Valid, AllFree, RecoversTo, CommitTrace, View, SeqSet, Loggable;
    hide UsedOnly, Listed;
    AfterSteady(log.l, s, c);
    ShownCommit(log.l, log.bc.w, s);
    ShownListed(log.l, log.bc.w, s);
    ok := true;
    match c {
      case Begin(op) =>
        var admitted := log.BeginOp(op);
        StillShows(log.l, log.bc.w, s, After(log.l, s, c));
      case Change(op, n, d) =>
        ok := ChangeBlock(log, op, n, d);
        if ok { ChangeShows(log.l, old(log.bc.w), log.bc.w, s, op, n, d); }
      case End(op) => ok := DoEnd(log, op, s);
    }
  }

  /** end_op, with the commit if it was the last. */
  method DoEnd(log: Log, op: nat, ghost s: Book) returns (ok: bool)
    requires Shows(log, s) && Legal(log.l, s, End(op))
    modifies log, log.bc
    ensures ok ==> Shows(log, After(log.l, s, End(op)))
    ensures old(log.bc.trace) <= log.bc.trace
    ensures Leaves(log.l, log.bc.trace, |old(log.bc.trace)|, s.safe, After(log.l, s, End(op)).safe)
    ensures UsedOnly(old(log.bc.w), {}) ==> (ok <==> Safe(log.l, s, End(op))) && (ok ==> UsedOnly(log.bc.w, {}))
  {
    hide ShowsIn, Inv, A.Reachable, B.Bcache.Valid, AllFree, RecoversTo, CommitTrace, View, SeqSet, Loggable, InLog;
    hide UsedOnly;
    AfterSteady(log.l, s, End(op));
    ShownCommit(log.l, log.bc.w, s);
    var commit := log.EndOp(op);
    if !commit {
      StillShows(log.l, log.bc.w, s, After(log.l, s, End(op)));
      return true;
    }
    ghost var m;
    ok, m := log.CommitAndReopen();
    CommitLeaves(log.l, old(log.bc.w), s, m);
    if ok { CommitShows(log.l, old(log.bc.w), log.bc.w, s, op); }
  }

  /**
   * The disks from entry i of the trace on were written in the calls `when` and
   * recover to what was safe before that call or after it.
   */
  ghost predicate LeavesRun(l: Layout, s: Book, calls: seq<Call>, trace: seq<Disk>, i: nat, when: seq<nat>) {
    && |trace| == i + |when|
    && (forall k, m :: 0 <= k < m < |when| ==> when[k] <= when[m])
    && forall k :: 0 <= k < |when| ==> when[k] < |calls| && LeftBy(l, s, calls, trace[i + k], when[k])
  }

  ghost predicate LeftBy(l: Layout, s: Book, calls: seq<Call>, d: Disk, c: nat)
    requires c < |calls|
  {
    RecoversTo(l, d, Play(l, s, calls[..c]).safe) || RecoversTo(l, d, Play(l, s, calls[..c + 1]).safe)
  }

  lemma PlayNext(l: Layout, s: Book, calls: seq<Call>, c: nat)
    requires c < |calls|
    ensures Play(l, s, calls[..c + 1]) == After(l, Play(l, s, calls[..c]), calls[c])
  {
    assert calls[..c + 1][..c] == calls[..c];
  }

  lemma LeavesMore(l: Layout, s: Book, calls: seq<Call>, trace: seq<Disk>, trace': seq<Disk>, i: nat,
                   when: seq<nat>, c: nat)
    returns (when': seq<nat>)
    requires LeavesRun(l, s, calls, trace, i, when) && trace <= trace' && c < |calls|
    requires forall k :: 0 <= k < |when| ==> when[k] <= c
    requires Leaves(l, trace', |trace|, Play(l, s, calls[..c]).safe, Play(l, s, calls[..c + 1]).safe)
    ensures LeavesRun(l, s, calls, trace', i, when') && forall k :: 0 <= k < |when'| ==> when'[k] <= c
  {
    hide RecoversTo, Play;
    when' := when + seq(|trace'| - |trace|, _ => c);
    forall k | 0 <= k < |when'| ensures when'[k] < |calls| && LeftBy(l, s, calls, trace'[i + k], when'[k]) {
      if k < |when| { assert LeftBy(l, s, calls, trace[i + k], when[k]) && trace'[i + k] == trace[i + k]; }
    }
  }

  /**
   * Any sequence of calls: what readers see is the plain array, and a crash at
   * any disk write leaves what was safe at that time.  With nobody else at a
   * buffer it goes through exactly if every call is safe.
   */
  method Run(log: Log, calls: seq<Call>, ghost s: Book) returns (ok: bool, ghost when: seq<nat>)
    requires Shows(log, s) && LegalRun(log.l, s, calls)
    modifies log, log.bc
    ensures ok ==> Shows(log, Play(log.l, s, calls))
    ensures old(log.bc.trace) <= log.bc.trace
    ensures LeavesRun(log.l, s, calls, log.bc.trace, |old(log.bc.trace)|, when)
    ensures UsedOnly(old(log.bc.w), {}) ==> (ok <==> AllSafe(log.l, s, calls))
  {
    hide Shows, Legal, Play, LeftBy, Leaves, UsedOnly, Safe;
    ghost var alone := UsedOnly(log.bc.w, {});
    ok, when := true, [];
    var i := 0;
    PlayNone(log.l, s, calls);
    while i < |calls|
      invariant 0 <= i <= |calls| && old(log.bc.trace) <= log.bc.trace && Shows(log, Play(log.l, s, calls[..i]))
      invariant LeavesRun(log.l, s, calls, log.bc.trace, |old(log.bc.trace)|, when)
      invariant forall k :: 0 <= k < |when| ==> when[k] <= i
      invariant alone ==> UsedOnly(log.bc.w, {})
      invariant alone ==> forall k :: 0 <= k < i ==> Safe(log.l, Play(log.l, s, calls[..k]), calls[k])
    {
      ghost var trace := log.bc.trace;
      PlayNext(log.l, s, calls, i);
      ok := Do(log, calls[i], Play(log.l, s, calls[..i]));
      when := LeavesMore(log.l, s, calls, trace, log.bc.trace, |old(log.bc.trace)|, when, i);
      if !ok { return; }
      i := i + 1;
    }
    assert calls[..i] == calls;
  }

  predicate AllSafe(l: Layout, s: Book, calls: seq<Call>) {
    forall k :: 0 <= k < |calls| ==> Safe(l, Play(l, s, calls[..k]), calls[k])
  }

  lemma PlayNone(l: Layout, s: Book, calls: seq<Call>)
    ensures Play(l, s, calls[..0]) == s
  {
  }

  // ---- From boot ----

  ghost function Fresh(d: Disk): Book {
    Book(A.State([], map[], false), d, d)
  }

  /** recover_from_log at boot.  A crash in it changes nothing of what is recovered. */
  method Recover(log: Log) returns (ok: bool)
    requires log.Idle() && WellFormed(log.l, log.bc.w.disk) && log.bc.w.logged == map[]
    requires log.Admits() && log.Awake() && log.Admission() == A.State([], map[], false)
    modifies log, log.bc
    ensures ok ==> Shows(log, Fresh(Recovered(log.l, old(log.bc.w.disk))))
    ensures old(log.bc.trace) <= log.bc.trace
    ensures var d := Recovered(log.l, old(log.bc.w.disk)); Leaves(log.l, log.bc.trace, |old(log.bc.trace)|, d, d)
    ensures UsedOnly(old(log.bc.w), {}) ==> ok && UsedOnly(log.bc.w, {})
  {
    hide Inv, A.Reachable, B.Bcache.Valid, AllFree, RecoveryTrace, Recovered, WellFormed, RecoversTo, UsedOnly;
    ghost var m;
    ghost var d := log.bc.w.disk;
    ok, m := log.RecoverFromLog();
    RecoveryLeaves(log.l, d, m);
    if ok { RecoveredShows(log.l, log.bc.w, d); }
  }

  lemma RecoveryLeaves(l: Layout, d: Disk, m: nat)
    requires WellFormed(l, d) && m < |RecoveryTrace(l, d)|
    ensures Leaves(l, Writes(RecoveryTrace(l, d), m), 0, Recovered(l, d), Recovered(l, d))
  {
    hide RecoveryTrace, Recovered, WellFormed;
    var ds := Writes(RecoveryTrace(l, d), m);
    forall k | 0 <= k < |ds| ensures RecoversTo(l, ds[k], Recovered(l, d)) { RecoveryResumes(l, d, k + 1); }
  }

  lemma RecoveredShows(l: Layout, w: World, d: Disk)
    requires WellFormed(l, d) && w.disk == Recovered(l, d) && w.logged == map[]
    ensures ShowsIn(l, w, Fresh(w.disk))
  {
  }

  lemma BootIsFree(d: Disk)
    ensures Inv(Boot(d)) && AllFree(Boot(d)) && Boot(d).disk == d && Boot(d).logged == map[] && UsedOnly(Boot(d), {})
  {
    BootInv(d);
  }

  /**
   * A whole life from the disk that a crash left: boot, recovery, and then any
   * sequence of calls.  The first n disks after d are those of the recovery.  It
   * goes through exactly if every call is safe.
   */
  method Life(l: Layout, d: Disk, calls: seq<Call>) returns (log: Log, ok: bool, ghost n: nat, ghost when: seq<nat>)
    requires WellFormed(l, d) && LegalRun(l, Fresh(Recovered(l, d)), calls)
    ensures fresh(log) && fresh(log.bc) && log.l == l
    ensures ok ==> Shows(log, Play(l, Fresh(Recovered(l, d)), calls))
    ensures |log.bc.trace| > n && log.bc.trace[0] == d
    ensures Leaves(l, log.bc.trace[..n + 1], 0, Recovered(l, d), Recovered(l, d))
    ensures LeavesRun(l, Fresh(Recovered(l, d)), calls, log.bc.trace, n + 1, when)
    ensures ok <==> AllSafe(l, Fresh(Recovered(l, d)), calls)
  {
    hide Shows, Play, LeftBy, Recovered, WellFormed, RecoversTo, B.Bcache.Valid, Inv, AllFree, A.Reachable, Boot;
    hide UsedOnly, AllSafe;
    ghost var s := Fresh(Recovered(l, d));
    BootIsFree(d);
    var bc := new B.Bcache(d);
    log := new Log(bc, l);
    ok := Recover(log);
    n, when := |log.bc.trace| - 1, [];
    ghost var trace := log.bc.trace;
    assert trace[..n + 1] == trace;
    CrashedAgain(l, d);
    if !ok { return; }
    ok, when := Run(log, calls, s);
    assert log.bc.trace[..n + 1] == trace;
  }

  lemma CrashedAgain(l: Layout, d: Disk)
    requires WellFormed(l, d)
    ensures RecoversTo(l, d, Recovered(l, d))
  {
  }
}
